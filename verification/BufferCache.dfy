/** The buffer cache of kernel/bio.c. Each method is one step under the cache lock or one action of
    the holder of a buffer, so a run of the kernel is some sequence of calls, in any order. A process
    waits for a sleep-lock between Bget and Lock, and brelse is the two steps Releasesleep and Brelse. */
module BufferCache {
  import opened BufferRing

  datatype Id = Id(dev: int, blockno: int)

  datatype Buf = Buf(id: Id, refcnt: int, valid: bool, data: seq<int>)

  /** Why a buffer is referenced: it is locked, processes have a reference without the lock (they wait
      for it, or are on their way out of brelse), the log has pinned it. */
  predicate Counted(b: Buf, locked: bool, waiters: int, pins: int) {
    0 <= waiters && 0 <= pins && b.refcnt == (if locked then 1 else 0) + waiters + pins
        && (b.refcnt > 0 ==> b.id.dev != 0)
  }

  predicate Counts(bufs: seq<Buf>, locked: seq<bool>, waiters: seq<int>, pins: seq<int>) {
    && |locked| == |bufs| && |waiters| == |bufs| && |pins| == |bufs|
    && (forall b | 0 <= b < |bufs| :: Counted(bufs[b], locked[b], waiters[b], pins[b]))
  }

  predicate OneEach(a: Buf, b: Buf) {
    a.id.dev != 0 ==> a.id != b.id
  }

  /** Each block of a real device has at most one buffer. */
  predicate Unique(bufs: seq<Buf>) {
    forall i, j {:trigger OneEach(bufs[i], bufs[j])} | 0 <= i < |bufs| && 0 <= j < |bufs| && i != j ::
          OneEach(bufs[i], bufs[j])
  }

  /** The cache over the disk holds the block store `latest`: valid buffers hold the latest contents,
      and a block whose latest contents are not on the disk is in a valid buffer with references. */
  predicate Holds(bufs: seq<Buf>, disk: map<Id, seq<int>>, latest: map<Id, seq<int>>, dirty: map<Id, int>) {
    && disk.Keys == latest.Keys
    && (forall b | 0 <= b < |bufs| && bufs[b].id.dev != 0 && bufs[b].valid ::
          bufs[b].id in latest && bufs[b].data == latest[bufs[b].id])
    && (forall i | i in dirty ::
          i.dev != 0 && 0 <= dirty[i] < |bufs| && bufs[dirty[i]].id == i && bufs[dirty[i]].valid
          && bufs[dirty[i]].refcnt > 0)
    && (forall i | i in latest && i !in dirty :: disk[i] == latest[i])
  }

  /** Every buffer used less recently than b has references. */
  predicate Oldest(bufs: seq<Buf>, ring: seq<int>, b: int) {
    exists k :: 0 < k < |ring| && ring[k] == b && forall j | k < j < |ring| ::
          0 <= ring[j] < |bufs| && bufs[ring[j]].refcnt != 0
  }

  /** Everything but the ring. */
  predicate Good(bufs: seq<Buf>, locked: seq<bool>, waiters: seq<int>, pins: seq<int>,
                 disk: map<Id, seq<int>>, latest: map<Id, seq<int>>, dirty: map<Id, int>) {
    Counts(bufs, locked, waiters, pins) && Unique(bufs) && Holds(bufs, disk, latest, dirty) && Kept(locked, pins, dirty)
  }

  /** A buffer newer than the disk is with its holder or pinned. */
  predicate Kept(locked: seq<bool>, pins: seq<int>, dirty: map<Id, int>) {
    |pins| == |locked| && forall i | i in dirty :: 0 <= dirty[i] < |locked| && (locked[dirty[i]] || pins[dirty[i]] > 0)
  }

  /** One more reference to a buffer. */
  lemma Referenced(bufs: seq<Buf>, locked: seq<bool>, waiters: seq<int>, pins: seq<int>,
                   disk: map<Id, seq<int>>, latest: map<Id, seq<int>>, dirty: map<Id, int>, b: int, x: Buf)
    requires Good(bufs, locked, waiters, pins, disk, latest, dirty) && 0 <= b < |bufs|
    requires x == bufs[b].(refcnt := bufs[b].refcnt + 1) && x.id.dev != 0
    ensures Good(bufs[b := x], locked, waiters[b := waiters[b] + 1], pins, disk, latest, dirty) == true
    ensures Good(bufs[b := x], locked, waiters, pins[b := pins[b] + 1], disk, latest, dirty) == true
  {
    SameIdUnique(bufs, b, x);
    assert Counted(bufs[b], locked[b], waiters[b], pins[b]);
  }

  lemma SameIdUnique(bufs: seq<Buf>, b: int, x: Buf)
    requires Unique(bufs) && 0 <= b < |bufs| && x.id == bufs[b].id
    ensures Unique(bufs[b := x]) == true
  {
    var bufs' := bufs[b := x];
    forall i, j | 0 <= i < |bufs'| && 0 <= j < |bufs'| && i != j ensures OneEach(bufs'[i], bufs'[j]) {
      assert OneEach(bufs[i], bufs[j]);
    }
  }

  /** A buffer without references given to a block that has none. */
  lemma Recycled(bufs: seq<Buf>, locked: seq<bool>, waiters: seq<int>, pins: seq<int>,
                 disk: map<Id, seq<int>>, latest: map<Id, seq<int>>, dirty: map<Id, int>, b: int, x: Buf)
    requires Good(bufs, locked, waiters, pins, disk, latest, dirty) && 0 <= b < |bufs|
    requires bufs[b].refcnt == 0 && x.refcnt == 1 && x.id.dev != 0 && !x.valid && forall c | 0 <= c < |bufs| ::
               bufs[c].id != x.id
    ensures Good(bufs[b := x], locked, waiters[b := waiters[b] + 1], pins, disk, latest, dirty) == true
  {
    var bufs' := bufs[b := x];
    forall i, j | 0 <= i < |bufs'| && 0 <= j < |bufs'| && i != j ensures OneEach(bufs'[i], bufs'[j]) {
      assert OneEach(bufs[i], bufs[j]);
    }
    assert Counted(bufs[b], locked[b], waiters[b], pins[b]);
  }

  /** A reference goes: that of a process without the lock, or a pin of a buffer that is not left newer
      than the disk. */
  lemma Dereferenced(bufs: seq<Buf>, locked: seq<bool>, waiters: seq<int>, pins: seq<int>,
                     disk: map<Id, seq<int>>, latest: map<Id, seq<int>>, dirty: map<Id, int>, b: int, x: Buf)
    requires Good(bufs, locked, waiters, pins, disk, latest, dirty) && 0 <= b < |bufs|
    requires x == bufs[b].(refcnt := bufs[b].refcnt - 1)
    ensures waiters[b] > 0 ==>
              Good(bufs[b := x], locked, waiters[b := waiters[b] - 1], pins, disk, latest, dirty) == true
    ensures pins[b] > 0 && (bufs[b].id in dirty ==> locked[b] || pins[b] > 1) ==>
              Good(bufs[b := x], locked, waiters, pins[b := pins[b] - 1], disk, latest, dirty) == true
  {
    SameIdUnique(bufs, b, x);
    assert Counted(bufs[b], locked[b], waiters[b], pins[b]);
    DirtyHere(bufs, disk, latest, dirty, b);
  }

  /** The block behind a buffer is dirty in that buffer or not at all. */
  lemma DirtyHere(bufs: seq<Buf>, disk: map<Id, seq<int>>, latest: map<Id, seq<int>>, dirty: map<Id, int>, b: int)
    requires Unique(bufs) && Holds(bufs, disk, latest, dirty) && 0 <= b < |bufs|
    ensures bufs[b].id in dirty ==> dirty[bufs[b].id] == b && bufs[b].valid
  {
    if bufs[b].id in dirty {
      assert dirty[bufs[b].id] != b ==> OneEach(bufs[b], bufs[dirty[bufs[b].id]]);
    }
  }

  /** A locked buffer gets contents d as block contents w: from the disk, or from its holder. */
  lemma Filled(bufs: seq<Buf>, locked: seq<bool>, waiters: seq<int>, pins: seq<int>,
               disk: map<Id, seq<int>>, latest: map<Id, seq<int>>, dirty: map<Id, int>, b: int, d: seq<int>)
    requires Good(bufs, locked, waiters, pins, disk, latest, dirty) && 0 <= b < |bufs| && locked[b]
             && bufs[b].id in disk && bufs[b].id.dev != 0
    ensures bufs[b].id in latest
    ensures !bufs[b].valid ==> disk[bufs[b].id] == latest[bufs[b].id]
    ensures !bufs[b].valid && d == disk[bufs[b].id] ==>
      Good(bufs[b := bufs[b].(valid := true, data := d)], locked, waiters, pins, disk, latest, dirty) == true
    ensures bufs[b].valid ==>
      Good(bufs[b := bufs[b].(data := d)], locked, waiters, pins, disk, latest[bufs[b].id := d],
           dirty[bufs[b].id := b]) == true
  {
    DirtyHere(bufs, disk, latest, dirty, b);
    SameIdUnique(bufs, b, bufs[b].(data := d));
    SameIdUnique(bufs, b, bufs[b].(valid := true, data := d));
    assert Counted(bufs[b], locked[b], waiters[b], pins[b]);
    forall c | 0 <= c < |bufs| && c != b ensures bufs[c].id != bufs[b].id {
      assert OneEach(bufs[b], bufs[c]);
    }
  }

  lemma Written(bufs: seq<Buf>, disk: map<Id, seq<int>>, latest: map<Id, seq<int>>, dirty: map<Id, int>, b: int)
    requires Unique(bufs) && Holds(bufs, disk, latest, dirty) && 0 <= b < |bufs| && bufs[b].valid && bufs[b].id.dev != 0
    ensures bufs[b].id in disk && Holds(bufs, disk[bufs[b].id := bufs[b].data], latest, dirty - {bufs[b].id}) == true
  {
  }

  /** The blocks whose buffers are referenced. */
  function InUse(bufs: seq<Buf>): set<Id> {
    set b | 0 <= b < |bufs| && bufs[b].refcnt > 0 :: bufs[b].id
  }

  function LastInUse(bufs: seq<Buf>): set<Id>
    requires bufs != []
  {
    var x := bufs[|bufs| - 1];
    if x.refcnt > 0 then {x.id} else {}
  }

  lemma InUseSnoc(bufs: seq<Buf>)
    requires bufs != []
    ensures InUse(bufs) == InUse(bufs[..|bufs| - 1]) + LastInUse(bufs)
  {
    var t, x := bufs[..|bufs| - 1], bufs[|bufs| - 1];
    forall i | i in InUse(bufs) ensures i in InUse(t) + LastInUse(bufs) {
      var b :| 0 <= b < |bufs| && bufs[b].refcnt > 0 && bufs[b].id == i;
      assert b < |t| ==> t[b] == bufs[b];
    }
    forall i | i in InUse(t) ensures i in InUse(bufs) {
      var b :| 0 <= b < |t| && t[b].refcnt > 0 && t[b].id == i;
      assert bufs[b] == t[b];
    }
  }

  lemma {:induction false} InUseAtMost(bufs: seq<Buf>, b: int)
    ensures |InUse(bufs)| <= |bufs|
    ensures 0 <= b < |bufs| && bufs[b].refcnt == 0 ==> |InUse(bufs)| < |bufs|
  {
    if bufs != [] {
      InUseSnoc(bufs);
      InUseAtMost(bufs[..|bufs| - 1], b);
    } else {
      assert InUse(bufs) == {};
    }
  }

  /** With every buffer referenced, as many blocks are in use as there are buffers. */
  lemma {:induction false} AllInUse(bufs: seq<Buf>)
    requires Unique(bufs) && forall b | 0 <= b < |bufs| :: bufs[b].refcnt > 0 && bufs[b].id.dev != 0
    ensures |InUse(bufs)| == |bufs|
  {
    if bufs != [] {
      var t, x := bufs[..|bufs| - 1], bufs[|bufs| - 1];
      forall i, j | 0 <= i < |t| && 0 <= j < |t| && i != j ensures OneEach(t[i], t[j]) {
        assert OneEach(bufs[i], bufs[j]);
      }
      InUseSnoc(bufs);
      AllInUse(t);
      forall b | 0 <= b < |t| ensures t[b].id != x.id {
        assert OneEach(bufs[b], bufs[|bufs| - 1]);
      }
    } else {
      assert InUse(bufs) == {};
    }
  }

  /** A buffer of the block, or one without references. */
  lemma FreeOrCached(bufs: seq<Buf>, b: int, id: Id)
    requires 0 <= b < |bufs| && bufs[b].refcnt >= 0 && (bufs[b].id == id || bufs[b].refcnt == 0)
    ensures id in InUse(bufs) || |InUse(bufs)| < |bufs|
  {
    InUseAtMost(bufs, b);
  }

  class BufferCache {
    /** Number of buffers; the list head is node n. */
    const n: int
    var bufs: seq<Buf>
    var locked: seq<bool>
    var next: seq<int>
    var prev: seq<int>
    var disk: map<Id, seq<int>>
    /** The head and then the buffers, most recently used first. */
    ghost var ring: seq<int>
    ghost var waiters: seq<int>
    ghost var pins: seq<int>
    /** What each block should read as, and the buffers that are newer than the disk. */
    ghost var latest: map<Id, seq<int>>
    ghost var dirty: map<Id, int>

    ghost predicate RingOk()
      reads this
    {
      && 0 <= n && |bufs| == n && |next| == n + 1 && |ring| == n + 1 && ring[0] == n && Ring(ring, next, prev)
      && (forall b | 0 <= b <= n :: b in ring)
    }

    ghost predicate Valid()
      reads this
    {
      RingOk() && Good(bufs, locked, waiters, pins, disk, latest, dirty)
    }

    /** binit: all buffers tagged device 0, linked one after the other at the front. */
    constructor (n: int, disk: map<Id, seq<int>>)
      requires 0 <= n
      ensures Valid() && this.n == n && this.disk == disk && latest == disk
    {
      this.n := n;
      bufs := seq(n, _ => Buf(Id(0, 0), 0, false, []));
      locked := seq(n, _ => false);
      waiters, pins := seq(n, _ => 0), seq(n, _ => 0);
      this.disk, latest, dirty := disk, disk, map[];
      next, prev := seq(n + 1, _ => n), seq(n + 1, _ => n);
      ring := [n];
      new;
      LinkAll();
    }

    /** binit's loop. */
    method LinkAll()
      requires 0 <= n && ring == [n] && next == prev == seq(n + 1, _ => n)
      modifies this`next, this`prev, this`ring
      ensures |next| == n + 1 && |ring| == n + 1 && ring[0] == n && Ring(ring, next, prev) == true
      ensures forall b | 0 <= b <= n :: b in ring
    {
      var b := 0;
      while b < n
        invariant 0 <= b <= n && |next| == n + 1 && |ring| == b + 1 && ring[0] == n && Ring(ring, next, prev) == true
        invariant forall c | 0 <= c <= n :: c in ring <==> c < b || c == n
      {
        forall c {
          FrontHas(ring, b, c);
        }
        PushFront(b);
        b := b + 1;
      }
    }

    /** Links node b, which is in no ring, in after the head. */
    method PushFront(b: int)
      requires |next| == n + 1 && |ring| > 0 && ring[0] == n && Ring(ring, next, prev) == true && 0 <= b < n
               && b !in ring
      modifies this`next, this`prev, this`ring
      ensures |next| == n + 1 && ring == Front(old(ring), b) && Ring(ring, next, prev) == true
    {
      Pushed(ring, next, prev, b);
      next := next[b := next[n]];
      prev := prev[b := n];
      prev := prev[next[n] := b];
      next := next[n := b];
      ring := Front(ring, b);
    }

    /** The buffer for a block with one more reference, to be locked next; ok is false for the "no
        buffers" panic. A cached block keeps its buffer; otherwise the buffer nearest the least
        recently used end without references is recycled. */
    method Bget(id: Id) returns (ok: bool, b: int)
      requires Valid() == true && id.dev != 0
      modifies this`bufs, this`waiters
      ensures Valid() == true
      ensures ok ==> 0 <= b < n && bufs[b].id == id && waiters == old(waiters)[b := old(waiters)[b] + 1]
      ensures (exists c :: 0 <= c < n && old(bufs)[c].id == id) ==>
        ok && old(bufs)[b].id == id && bufs == old(bufs)[b := old(bufs)[b].(refcnt := old(bufs)[b].refcnt + 1)]
      ensures !(exists c :: 0 <= c < n && old(bufs)[c].id == id) && ok ==>
        && old(bufs)[b].refcnt == 0 && bufs == old(bufs)[b := Buf(id, 1, false, old(bufs)[b].data)]
        && Oldest(old(bufs), ring, b)
      ensures !ok ==> bufs == old(bufs) && waiters == old(waiters) && forall c | 0 <= c < n :: bufs[c].refcnt > 0
      ensures ok <==> id in InUse(old(bufs)) || |InUse(old(bufs))| < n
    {
      var found;
      found, b := FindCached(id);
      if found {
        var x := bufs[b].(refcnt := bufs[b].refcnt + 1);
        assert Counted(bufs[b], locked[b], waiters[b], pins[b]);
        Referenced(bufs, locked, waiters, pins, disk, latest, dirty, b, x);
        bufs := bufs[b := x];
        waiters := waiters[b := waiters[b] + 1];
        FreeOrCached(old(bufs), b, id);
        return true, b;
      }
      var free;
      free, b := FindUnused();
      if free {
        var x := Buf(id, 1, false, bufs[b].data);
        Recycled(bufs, locked, waiters, pins, disk, latest, dirty, b, x);
        bufs := bufs[b := x];
        waiters := waiters[b := waiters[b] + 1];
        FreeOrCached(old(bufs), b, id);
        return true, b;
      }
      forall c | 0 <= c < n ensures bufs[c].refcnt > 0 {
        assert Counted(bufs[c], locked[c], waiters[c], pins[c]);
      }
      AllInUse(bufs);
      return false, 0;
    }

    /** The scan from the most recently used end. */
    method FindCached(id: Id) returns (found: bool, b: int)
      requires RingOk() == true
      ensures found ==> 0 <= b < n && bufs[b].id == id
      ensures !found ==> forall c | 0 <= c < n :: bufs[c].id != id
    {
      RingLink(ring, next, prev, 0);
      b := next[n];
      ghost var k := Next(0, n + 1);
      while b != n
        invariant 0 <= k <= n && b == ring[k]
        invariant forall j | 0 < j < (if k == 0 then n + 1 else k) :: 0 <= ring[j] < n && bufs[ring[j]].id != id
        decreases if k == 0 then 0 else n + 1 - k
      {
        NodesDiffer(ring, n + 1, k, 0);
        RingLink(ring, next, prev, k);
        if bufs[b].id == id {
          return true, b;
        }
        b, k := next[b], Next(k, n + 1);
      }
      if k != 0 { NodesDiffer(ring, n + 1, k, 0); }
      found := false;
      forall c | 0 <= c < n ensures bufs[c].id != id {
        assert c in ring;
        var j := IndexOf(ring, c);
      }
    }

    /** The scan from the least recently used end. */
    method FindUnused() returns (free: bool, b: int)
      requires RingOk() == true
      ensures free ==> 0 <= b < n && bufs[b].refcnt == 0 && Oldest(bufs, ring, b)
      ensures !free ==> forall c | 0 <= c < n :: bufs[c].refcnt != 0
    {
      RingLink(ring, next, prev, n);
      b := prev[n];
      ghost var k := n;
      while b != n
        invariant 0 <= k <= n && b == ring[k]
        invariant forall j | k < j <= n :: 0 <= ring[j] < n && bufs[ring[j]].refcnt != 0
        decreases k
      {
        NodesDiffer(ring, n + 1, k, 0);
        RingLink(ring, next, prev, k);
        if bufs[b].refcnt == 0 {
          return true, b;
        }
        b, k := prev[b], k - 1;
      }
      if k != 0 { NodesDiffer(ring, n + 1, k, 0); }
      free := false;
      forall c | 0 <= c < n ensures bufs[c].refcnt != 0 {
        assert c in ring;
        var j := IndexOf(ring, c);
      }
    }

    /** acquiresleep in bget returns: the buffer was free and its process is one that waits. */
    method Lock(b: int)
      requires Valid() == true && 0 <= b < n && waiters[b] > 0 && !locked[b]
      modifies this`locked, this`waiters
      ensures Valid() == true && locked == old(locked)[b := true] && waiters == old(waiters)[b := old(waiters)[b] - 1]
    {
      assert Counted(bufs[b], locked[b], waiters[b], pins[b]);
      locked := locked[b := true];
      waiters := waiters[b := waiters[b] - 1];
    }

    /** The rest of bread, by the holder of the buffer: what it returns is the latest contents. */
    method Bread(b: int)
      requires Valid() == true && 0 <= b < n && locked[b] && bufs[b].id.dev != 0 && bufs[b].id in disk
      modifies this`bufs
      ensures Valid() == true && |bufs| == n && bufs[b].id == old(bufs)[b].id && bufs[b].valid
      ensures bufs[b].id in latest && bufs[b].data == latest[bufs[b].id]
      ensures bufs == old(bufs)[b := old(bufs)[b].(valid := true, data := latest[bufs[b].id])]
    {
      if !bufs[b].valid {
        var d := disk[bufs[b].id];
        Filled(bufs, locked, waiters, pins, disk, latest, dirty, b, d);
        bufs := bufs[b := bufs[b].(valid := true, data := d)];
      }
    }

    /** The holder changes the contents. */
    method Modify(b: int, d: seq<int>)
      requires Valid() == true && 0 <= b < n && locked[b] && bufs[b].id.dev != 0 && bufs[b].valid
      modifies this`bufs, this`latest, this`dirty
      ensures Valid() == true && bufs == old(bufs)[b := old(bufs)[b].(data := d)]
      ensures latest == old(latest)[bufs[b].id := d] && dirty == old(dirty)[bufs[b].id := b]
    {
      Filled(bufs, locked, waiters, pins, disk, latest, dirty, b, d);
      latest, dirty := latest[bufs[b].id := d], dirty[bufs[b].id := b];
      bufs := bufs[b := bufs[b].(data := d)];
    }

    method Bwrite(b: int)
      requires Valid() == true && 0 <= b < n && locked[b] && bufs[b].id.dev != 0 && bufs[b].valid
      modifies this`disk, this`dirty
      ensures Valid() == true && disk == old(disk)[bufs[b].id := bufs[b].data] && dirty == old(dirty) - {bufs[b].id}
    {
      Written(bufs, disk, latest, dirty, b);
      disk := disk[bufs[b].id := bufs[b].data];
      dirty := dirty - {bufs[b].id};
    }

    method Bpin(b: int)
      requires Valid() == true && 0 <= b < n && locked[b]
      modifies this`bufs, this`pins
      ensures Valid() == true && pins == old(pins)[b := old(pins)[b] + 1]
      ensures bufs == old(bufs)[b := old(bufs)[b].(refcnt := old(bufs)[b].refcnt + 1)]
    {
      var x := bufs[b].(refcnt := bufs[b].refcnt + 1);
      assert Counted(bufs[b], locked[b], waiters[b], pins[b]);
      Referenced(bufs, locked, waiters, pins, disk, latest, dirty, b, x);
      bufs := bufs[b := x];
      pins := pins[b := pins[b] + 1];
    }

    /** Undoes bpin; a buffer newer than the disk must stay locked or pinned. */
    method Bunpin(b: int)
      requires Valid() == true && 0 <= b < n && pins[b] > 0 && (bufs[b].id in dirty ==> locked[b] || pins[b] > 1)
      modifies this`bufs, this`pins
      ensures Valid() == true && pins == old(pins)[b := old(pins)[b] - 1]
      ensures bufs == old(bufs)[b := old(bufs)[b].(refcnt := old(bufs)[b].refcnt - 1)]
    {
      var x := bufs[b].(refcnt := bufs[b].refcnt - 1);
      Dereferenced(bufs, locked, waiters, pins, disk, latest, dirty, b, x);
      bufs := bufs[b := x];
      pins := pins[b := pins[b] - 1];
    }

    /** The first step of brelse: the lock goes, the reference stays. The buffer must have been written or
        pinned if it is newer than the disk. */
    method Releasesleep(b: int)
      requires Valid() == true && 0 <= b < n && locked[b] && (bufs[b].id in dirty ==> pins[b] > 0)
      modifies this`locked, this`waiters
      ensures Valid() == true && locked == old(locked)[b := false] && waiters == old(waiters)[b := old(waiters)[b] + 1]
    {
      assert Counted(bufs[b], locked[b], waiters[b], pins[b]);
      DirtyHere(bufs, disk, latest, dirty, b);
      locked := locked[b := false];
      waiters := waiters[b := waiters[b] + 1];
    }

    /** The second step, under the cache lock: the reference goes, and the buffer moves to the front of the
        ring when nobody refers to it. Others may have locked it since. */
    method Brelse(b: int)
      requires Valid() == true && 0 <= b < n && waiters[b] > 0
      modifies this`bufs, this`waiters, this`next, this`prev, this`ring
      ensures Valid() == true && waiters == old(waiters)[b := old(waiters)[b] - 1]
      ensures bufs == old(bufs)[b := old(bufs)[b].(refcnt := old(bufs)[b].refcnt - 1)]
      ensures bufs[b].refcnt > 0 ==> ring == old(ring)
      ensures bufs[b].refcnt == 0 ==> b in old(ring) && ring == Front(Without(old(ring), IndexOf(old(ring), b)), b)
    {
      var x := bufs[b].(refcnt := bufs[b].refcnt - 1);
      assert Counted(bufs[b], locked[b], waiters[b], pins[b]);
      Dereferenced(bufs, locked, waiters, pins, disk, latest, dirty, b, x);
      waiters := waiters[b := waiters[b] - 1];
      bufs := bufs[b := x];
      if bufs[b].refcnt == 0 {
        MoveToFront(b);
      }
    }

    method MoveToFront(b: int)
      requires RingOk() == true && 0 <= b < n
      modifies this`next, this`prev, this`ring
      ensures RingOk() == true && b in old(ring) && ring == Front(Without(old(ring), IndexOf(old(ring), b)), b)
    {
      assert b in ring;
      ghost var k := IndexOf(ring, b);
      Unlinked(ring, next, prev, k);
      WithoutNodes(ring, n + 1, k);
      forall c ensures c in ring ==> c in Front(Without(ring, k), b) {
        WithoutHas(ring, n + 1, k, c);
        FrontHas(Without(ring, k), b, c);
      }
      prev := prev[next[b] := prev[b]];
      next := next[prev[b] := next[b]];
      ring := Without(ring, k);
      PushFront(b);
    }
  }
}
