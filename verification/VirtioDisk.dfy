/** The split-ring disk driver of kernel/virtio_disk.c against a device that completes each offered
    request once (sections 2.6 and 5.2 of VIRTIO 1.1). Each method is one step of a requester or of
    the interrupt handler under the driver's lock, or one step of the device, so a run is some
    sequence of calls, in any order. */
module VirtioDisk {

  const NUM := 8
  const U16 := 65536
  const F_NEXT := 1
  const F_WRITE := 2
  const BSIZE := 1024

  /** Type and sector of a request, as its header gives them. */
  const IN := 0
  const OUT := 1
  datatype Op = Op(kind: int, sector: int)

  /** What an address in a descriptor refers to: header or status of the request at descriptor h, or
      the data of buffer b. */
  datatype Where = Nowhere | Header(h: int) | Data(b: int) | Status(h: int)

  datatype Desc = Desc(addr: Where, len: int, flags: int, next: int)

  /** What the driver keeps for the request at a head descriptor: its header, and the buffer. */
  datatype Info = Info(b: int, op: Op)

  /** A request as the device reads it from memory. */
  datatype Seen = Seen(op: Op, data: Where, len: int, deviceWrites: bool, status: Where)

  /** Where a request is: offered to the device, taken by it, reported back, or acknowledged by the
      interrupt handler. */
  datatype Phase = Offered | Taken | Reported | Acked

  /** A chain of three descriptors h, i1, i2 for a request on buffer b. */
  datatype Chain = Chain(i1: int, i2: int, b: int, op: Op, phase: Phase)

  predicate Index(i: int) { 0 <= i < NUM }

  predicate Differ(a: int, b: int) { a != b }

  predicate Distinct(s: seq<int>) {
    forall i, j {:trigger Differ(s[i], s[j])} | 0 <= i < j < |s| :: Differ(s[i], s[j])
  }

  // Descriptors.

  /** The chain at h is linked in memory and owns its three descriptors. */
  predicate Linked(desc: seq<Desc>, own: seq<int>, h: int, c: Chain) {
    && |desc| == NUM && |own| == NUM && Index(h) && Index(c.i1) && Index(c.i2)
    && own[h] == h && own[c.i1] == h && own[c.i2] == h && h != c.i1 && h != c.i2 && c.i1 != c.i2
    && Formatted(desc, h, c)
  }

  /** Header, data and status descriptor of a request; the device writes the data of a read. */
  predicate Formatted(desc: seq<Desc>, h: int, c: Chain)
    requires |desc| == NUM && Index(h) && Index(c.i1) && Index(c.i2)
  {
    && desc[h] == Desc(Header(h), 16, F_NEXT, c.i1)
    && desc[c.i1] == Desc(Data(c.b), BSIZE, if c.op.kind == OUT then F_NEXT else F_NEXT + F_WRITE, c.i2)
    && desc[c.i2] == Desc(Status(h), 1, F_WRITE, 0)
  }

  /** Every descriptor is free, or belongs to one chain and is one of its three. */
  predicate Descriptors(free: seq<bool>, desc: seq<Desc>, own: seq<int>, chains: map<int, Chain>) {
    && |free| == NUM && |desc| == NUM && |own| == NUM
    && (forall h | h in chains :: Linked(desc, own, h, chains[h]))
    && (forall i | 0 <= i < NUM :: free[i] <==> own[i] == -1)
    && (forall i | 0 <= i < NUM && own[i] != -1 ::
          own[i] in chains && (i == own[i] || i == chains[own[i]].i1 || i == chains[own[i]].i2))
  }

  /** The free descriptors. */
  function FreeOnes(free: seq<bool>): set<int> {
    set i | 0 <= i < |free| && free[i]
  }

  /** The descriptors of the chains whose heads are in hs. */
  function OwnedBy(own: seq<int>, hs: set<int>): set<int> {
    set i | 0 <= i < |own| && own[i] in hs
  }

  lemma OneChain(desc: seq<Desc>, own: seq<int>, chains: map<int, Chain>, free: seq<bool>, h: int)
    requires Descriptors(free, desc, own, chains) && h in chains
    ensures |OwnedBy(own, {h})| == 3
  {
    var c := chains[h];
    assert Linked(desc, own, h, c);
    forall i ensures i in OwnedBy(own, {h}) <==> i in {h, c.i1, c.i2} {
      if i in OwnedBy(own, {h}) { assert own[i] != -1; }
    }
    assert OwnedBy(own, {h}) == {h, c.i1, c.i2};
  }

  lemma {:induction false} ThreeEach(free: seq<bool>, desc: seq<Desc>, own: seq<int>, chains: map<int, Chain>,
                                     hs: set<int>)
    requires Descriptors(free, desc, own, chains) == true && hs <= chains.Keys
    ensures |OwnedBy(own, hs)| == 3 * |hs|
    decreases hs
  {
    if h :| h in hs {
      ThreeEach(free, desc, own, chains, hs - {h});
      OneChain(desc, own, chains, free, h);
      assert OwnedBy(own, hs) == OwnedBy(own, hs - {h}) + OwnedBy(own, {h});
      assert OwnedBy(own, hs - {h}) !! OwnedBy(own, {h});
      assert |hs| == |hs - {h}| + 1;
    } else {
      assert hs == {} && OwnedBy(own, hs) == {};
    }
  }

  /** Descriptors are conserved: each request holds three, and the others are free. */
  lemma FreeCount(free: seq<bool>, desc: seq<Desc>, own: seq<int>, chains: map<int, Chain>)
    requires Descriptors(free, desc, own, chains)
    ensures |FreeOnes(free)| == NUM - 3 * |chains|
  {
    ThreeEach(free, desc, own, chains, chains.Keys);
    forall i | 0 <= i < NUM ensures free[i] <==> own[i] !in chains.Keys {
      if own[i] in chains { assert Linked(desc, own, own[i], chains[own[i]]); }
    }
    FreeOrOwned(free, own, chains.Keys, NUM);
    assert free[..NUM] == free && own[..NUM] == own;
  }

  lemma FreeSnoc(free: seq<bool>, k: int)
    requires 0 <= k < |free|
    ensures |FreeOnes(free[..k + 1])| == |FreeOnes(free[..k])| + (if free[k] then 1 else 0)
  {
    if free[k] {
      assert FreeOnes(free[..k + 1]) == FreeOnes(free[..k]) + {k};
    } else {
      assert FreeOnes(free[..k + 1]) == FreeOnes(free[..k]);
    }
  }

  lemma OwnedSnoc(own: seq<int>, hs: set<int>, k: int)
    requires 0 <= k < |own|
    ensures |OwnedBy(own[..k + 1], hs)| == |OwnedBy(own[..k], hs)| + (if own[k] in hs then 1 else 0)
  {
    if own[k] in hs {
      assert OwnedBy(own[..k + 1], hs) == OwnedBy(own[..k], hs) + {k};
    } else {
      assert OwnedBy(own[..k + 1], hs) == OwnedBy(own[..k], hs);
    }
  }

  lemma {:induction false} FreeOrOwned(free: seq<bool>, own: seq<int>, hs: set<int>, k: nat)
    requires k <= |free| == |own| && forall i | 0 <= i < |free| :: free[i] <==> own[i] !in hs
    ensures |FreeOnes(free[..k])| + |OwnedBy(own[..k], hs)| == k
  {
    if k > 0 {
      FreeOrOwned(free, own, hs, k - 1);
      FreeSnoc(free, k - 1);
      OwnedSnoc(own, hs, k - 1);
    } else {
      assert FreeOnes(free[..0]) == {} && OwnedBy(own[..0], hs) == {};
    }
  }

  lemma TooFew(free: seq<bool>, idx: seq<int>)
    requires |idx| < 3 && forall i | 0 <= i < |free| && free[i] :: i in idx
    ensures |FreeOnes(free)| < 3
  {
    var s := set k | 0 <= k < |idx| :: idx[k];
    if |idx| == 1 { assert s == {idx[0]}; }
    if |idx| == 2 { assert s == {idx[0], idx[1]}; }
    assert FreeOnes(free) <= s;
    assert s == FreeOnes(free) + (s - FreeOnes(free));
  }

  lemma Enough(free: seq<bool>, idx: seq<int>)
    requires |idx| == 3 && Distinct(idx) && forall k | 0 <= k < 3 :: 0 <= idx[k] < |free| && free[idx[k]]
    ensures |FreeOnes(free)| >= 3
  {
    assert Differ(idx[0], idx[1]) && Differ(idx[0], idx[2]) && Differ(idx[1], idx[2]);
    var s := {idx[0], idx[1], idx[2]};
    assert FreeOnes(free) == s + (FreeOnes(free) - s);
  }

  // Rings.

  /** The entries from count lo on, held in ring slots, are the heads s. */
  predicate InRing(ring: seq<int>, lo: int, s: seq<int>) {
    |ring| == NUM && 0 <= lo && forall j | 0 <= j < |s| :: ring[(lo + j) % NUM] == s[j]
  }

  /** The heads in s are all different, and are exactly the requests in phase p. */
  predicate InPhase(chains: map<int, Chain>, s: seq<int>, p: Phase) {
    && Distinct(s) && (forall j | 0 <= j < |s| :: s[j] in chains && chains[s[j]].phase == p)
    && (forall h | h in chains && chains[h].phase == p :: h in s)
  }

  /** A buffer is marked as being with the disk until its request is acknowledged, and no buffer has
      two requests. */
  predicate Buffers(chains: map<int, Chain>, info: seq<Info>, busy: map<int, bool>, request: map<int, int>) {
    && |info| == NUM
    && (forall h | h in chains ::
          Index(h) && info[h] == Info(chains[h].b, chains[h].op) && chains[h].b in request && request[chains[h].b] == h)
    && (forall b | b in request :: request[b] in chains && chains[request[b]].b == b && b in busy)
    && (forall h | h in chains :: chains[h].b in busy && (busy[chains[h].b] <==> chains[h].phase != Acked))
  }

  /** Index fields have 16 bits; the slot they select is that of the full count all the same. */
  lemma SlotOfIndex(count: int)
    requires 0 <= count
    ensures count % U16 % NUM == count % NUM
  {
    assert count == count / U16 * U16 + count % U16;
    assert count / U16 * U16 == count / U16 * 8192 * NUM;
  }

  /** Two 16-bit indices are equal exactly when the counts are, for counts that are near. */
  lemma IndexEqual(a: int, b: int)
    requires 0 <= a <= b <= a + NUM
    ensures a % U16 == b % U16 <==> a == b
  {
  }

  lemma IndexNext(a: int)
    requires 0 <= a
    ensures (a % U16 + 1) % U16 == (a + 1) % U16
  {
  }

  lemma {:induction false} Pigeons(s: seq<int>, n: int)
    requires 0 <= n && Distinct(s) && forall j | 0 <= j < |s| :: 0 <= s[j] < n
    ensures |s| <= n
    decreases n
  {
    if s != [] {
      assert 0 <= s[0] < n;
      if n - 1 in s {
        var k :| 0 <= k < |s| && s[k] == n - 1;
        var t := s[..k] + s[k + 1..];
        forall i, j | 0 <= i < j < |t| ensures Differ(t[i], t[j]) {
          assert Differ(s[if i < k then i else i + 1], s[if j < k then j else j + 1]);
        }
        forall j | 0 <= j < |t| ensures 0 <= t[j] < n - 1 {
          var l := if j < k then j else j + 1;
          assert l < k ==> Differ(s[l], s[k]);
          assert k < l ==> Differ(s[k], s[l]);
        }
        Pigeons(t, n - 1);
      } else {
        Pigeons(s, n - 1);
      }
    }
  }

  /** Three free descriptors made into the chain of buffer b. */
  ghost predicate Added(free: seq<bool>, desc: seq<Desc>, own: seq<int>, chains: map<int, Chain>,
                        free': seq<bool>, desc': seq<Desc>, h: int, c: Chain) {
    && Descriptors(free, desc, own, chains) && Index(h) && Index(c.i1) && Index(c.i2)
    && free[h] && free[c.i1] && free[c.i2] && h != c.i1 && h != c.i2 && c.i1 != c.i2
    && free' == free[h := false][c.i1 := false][c.i2 := false]
    && |desc'| == NUM && (forall i | 0 <= i < NUM && !free[i] :: desc'[i] == desc[i])
    && Formatted(desc', h, c)
  }

  lemma ChainAdded(free: seq<bool>, desc: seq<Desc>, own: seq<int>, chains: map<int, Chain>,
                   free': seq<bool>, desc': seq<Desc>, h: int, c: Chain)
    requires Added(free, desc, own, chains, free', desc', h, c)
    ensures h !in chains
    ensures Descriptors(free', desc', own[h := h][c.i1 := h][c.i2 := h], chains[h := c]) == true
  {
    var own' := own[h := h][c.i1 := h][c.i2 := h];
    forall g | g in chains ensures Linked(desc', own', g, chains[g]) && g != h {
      assert Linked(desc, own, g, chains[g]);
    }
    assert Linked(desc', own', h, c);
    forall i | 0 <= i < NUM && own'[i] != -1
      ensures own'[i] in chains[h := c] && (i == own'[i] || i == chains[h := c][own'[i]].i1
                                            || i == chains[h := c][own'[i]].i2)
    {
    }
  }

  /** The chain at h undone. */
  lemma ChainFreed(free: seq<bool>, desc: seq<Desc>, own: seq<int>, chains: map<int, Chain>,
                   free': seq<bool>, desc': seq<Desc>, h: int)
    requires Descriptors(free, desc, own, chains) && h in chains && |desc'| == NUM
    requires Linked(desc, own, h, chains[h])
    requires free' == free[h := true][chains[h].i1 := true][chains[h].i2 := true]
    requires forall i | 0 <= i < NUM && own[i] != h :: desc'[i] == desc[i]
    ensures Descriptors(free', desc', own[h := -1][chains[h].i1 := -1][chains[h].i2 := -1], chains - {h}) == true
  {
    var own' := own[h := -1][chains[h].i1 := -1][chains[h].i2 := -1];
    forall g | g in chains - {h} ensures Linked(desc', own', g, chains[g]) {
      assert Linked(desc, own, g, chains[g]);
    }
  }

  /** Requests that come into, leave or do not concern phase p. */
  lemma PhaseIn(chains: map<int, Chain>, h: int, c: Chain, s: seq<int>)
    requires InPhase(chains, s, c.phase) && (h in chains ==> chains[h].phase != c.phase)
    ensures InPhase(chains[h := c], s + [h], c.phase) == true
  {
    var t := s + [h];
    forall i, j | 0 <= i < j < |t| ensures Differ(t[i], t[j]) {
      if j < |s| { assert Differ(s[i], s[j]); }
    }
    forall g | g in chains[h := c] && chains[h := c][g].phase == c.phase ensures g in t {
      assert g == h || g in s;
    }
  }

  lemma PhaseOut(chains: map<int, Chain>, h: int, c: Chain, s: seq<int>, p: Phase)
    requires InPhase(chains, s, p) && s != [] && s[0] == h && c.phase != p
    ensures InPhase(chains[h := c], s[1..], p) == true
  {
    var t := s[1..];
    forall i, j | 0 <= i < j < |t| ensures Differ(t[i], t[j]) {
      assert Differ(s[i + 1], s[j + 1]);
    }
    forall j | 0 <= j < |t| ensures t[j] != h {
      assert Differ(s[0], s[j + 1]);
    }
    forall g | g in chains[h := c] && chains[h := c][g].phase == p ensures g in t {
      assert g in s;
    }
  }

  lemma PhaseApart(chains: map<int, Chain>, h: int, c: Chain, s: seq<int>, p: Phase)
    requires InPhase(chains, s, p) && (h in chains ==> chains[h].phase != p)
    ensures c.phase != p ==> InPhase(chains[h := c], s, p) == true
    ensures InPhase(chains - {h}, s, p) == true
  {
  }

  /** Room in a ring: requests in one phase are fewer than the slots while one more is to come. */
  lemma Room(chains: map<int, Chain>, s: seq<int>, p: Phase, h: int)
    requires InPhase(chains, s, p) && (h in chains ==> chains[h].phase != p) && Index(h) && forall g | g in chains ::
               Index(g)
    ensures |s| < NUM
  {
    var t := s + [h];
    forall i, j | 0 <= i < j < |t| ensures Differ(t[i], t[j]) {
      if j < |s| { assert Differ(s[i], s[j]); }
    }
    Pigeons(t, NUM);
  }

  /** A new entry goes to a slot that holds none of the entries not yet consumed. */
  lemma RingPush(ring: seq<int>, lo: int, s: seq<int>, h: int)
    requires InRing(ring, lo, s) && |s| < NUM
    ensures InRing(ring[(lo + |s|) % NUM := h], lo, s + [h]) == true
  {
    var ring', t := ring[(lo + |s|) % NUM := h], s + [h];
    forall j | 0 <= j < |t| ensures ring'[(lo + j) % NUM] == t[j] {
    }
  }

  lemma RingPop(ring: seq<int>, lo: int, s: seq<int>)
    requires InRing(ring, lo, s) && s != []
    ensures ring[lo % NUM] == s[0] && InRing(ring, lo + 1, s[1..]) == true
  {
    assert ring[(lo + 0) % NUM] == s[0];
    forall j | 0 <= j < |s[1..]| ensures ring[(lo + 1 + j) % NUM] == s[1..][j] {
      assert ring[(lo + (j + 1)) % NUM] == s[j + 1];
    }
  }

  /** A ring, with the 16-bit index of its writer and the position of its reader. */
  datatype Ring = Ring(slots: seq<int>, idx: int, seen: int)

  /** The entries not consumed yet, and how many were. */
  datatype Backlog = Backlog(heads: seq<int>, consumed: int)

  /** The requests under way: who owns each descriptor, the chains, and the request of each buffer. */
  datatype Requests = Requests(own: seq<int>, chains: map<int, Chain>, of: map<int, int>)

  /** Where every request has its descriptors and its buffer. */
  predicate Places(free: seq<bool>, desc: seq<Desc>, info: seq<Info>, busy: map<int, bool>, r: Requests) {
    Descriptors(free, desc, r.own, r.chains) && Buffers(r.chains, info, busy, r.of)
  }

  /** The ring holds the requests in phase p. */
  predicate Queue(chains: map<int, Chain>, p: Phase, ring: Ring, q: Backlog) {
    && InPhase(chains, q.heads, p) && InRing(ring.slots, q.consumed, q.heads) && |q.heads| <= NUM
    && ring.seen == q.consumed % U16 && ring.idx == (q.consumed + |q.heads|) % U16
  }

  predicate Inv(free: seq<bool>, desc: seq<Desc>, info: seq<Info>, busy: map<int, bool>, r: Requests,
                avail: Ring, offered: Backlog, used: Ring, reported: Backlog) {
    Places(free, desc, info, busy, r) && Queue(r.chains, Offered, avail, offered)
        && Queue(r.chains, Reported, used, reported)
  }

  function Pushed(ring: Ring, h: int): Ring
    requires |ring.slots| == NUM
  {
    Ring(ring.slots[ring.idx % NUM := h], (ring.idx + 1) % U16, ring.seen)
  }

  function Popped(ring: Ring): Ring {
    ring.(seen := (ring.seen + 1) % U16)
  }

  lemma QueuePush(chains: map<int, Chain>, h: int, c: Chain, ring: Ring, q: Backlog)
    requires Queue(chains, c.phase, ring, q) && (h in chains ==> chains[h].phase != c.phase)
    requires Index(h) && forall g | g in chains :: Index(g)
    ensures |ring.slots| == NUM && Queue(chains[h := c], c.phase, Pushed(ring, h), q.(heads := q.heads + [h])) == true
  {
    Room(chains, q.heads, c.phase, h);
    PhaseIn(chains, h, c, q.heads);
    SlotOfIndex(q.consumed + |q.heads|);
    IndexNext(q.consumed + |q.heads|);
    assert |q.heads + [h]| == |q.heads| + 1;
    RingPush(ring.slots, q.consumed, q.heads, h);
  }

  lemma QueuePop(chains: map<int, Chain>, p: Phase, ring: Ring, q: Backlog, c: Chain)
    requires Queue(chains, p, ring, q) && ring.idx != ring.seen && c.phase != p
    ensures q.heads != [] && 0 <= ring.seen % NUM < |ring.slots| && ring.slots[ring.seen % NUM] == q.heads[0]
    ensures q.heads[0] in chains && chains[q.heads[0]].phase == p
    ensures Queue(chains[q.heads[0] := c], p, Popped(ring), Backlog(q.heads[1..], q.consumed + 1)) == true
  {
    IndexEqual(q.consumed, q.consumed + |q.heads|);
    SlotOfIndex(q.consumed);
    IndexNext(q.consumed);
    assert q.heads != [];
    assert q.consumed + 1 + |q.heads[1..]| == q.consumed + |q.heads|;
    RingPop(ring.slots, q.consumed, q.heads);
    PhaseOut(chains, q.heads[0], c, q.heads, p);
  }

  lemma QueueApart(chains: map<int, Chain>, p: Phase, ring: Ring, q: Backlog, h: int, c: Chain)
    requires Queue(chains, p, ring, q) && (h in chains ==> chains[h].phase != p)
    ensures c.phase != p ==> Queue(chains[h := c], p, ring, q) == true
    ensures Queue(chains - {h}, p, ring, q) == true
  {
    PhaseApart(chains, h, c, q.heads, p);
  }

  // The steps.

  lemma SubmitStep(free: seq<bool>, desc: seq<Desc>, info: seq<Info>, busy: map<int, bool>, r: Requests,
                   avail: Ring, offered: Backlog, used: Ring, reported: Backlog, free': seq<bool>, desc': seq<Desc>,
                       h: int, c: Chain)
    requires Inv(free, desc, info, busy, r, avail, offered, used, reported)
             && Added(free, desc, r.own, r.chains, free', desc', h, c)
    requires c.b !in r.of && c.b in busy && c.phase == Offered
    ensures h !in r.chains && |info| == NUM && |avail.slots| == NUM
    ensures Inv(free', desc', info[h := Info(c.b, c.op)], busy[c.b := true],
                Requests(r.own[h := h][c.i1 := h][c.i2 := h], r.chains[h := c], r.of[c.b := h]),
                Pushed(avail, h), offered.(heads := offered.heads + [h]), used, reported) == true
  {
    ChainAdded(free, desc, r.own, r.chains, free', desc', h, c);
    QueuePush(r.chains, h, c, avail, offered);
    QueueApart(r.chains, Reported, used, reported, h, c);
  }

  lemma TakeStep(free: seq<bool>, desc: seq<Desc>, info: seq<Info>, busy: map<int, bool>, r: Requests,
                 avail: Ring, offered: Backlog, used: Ring, reported: Backlog)
    requires Inv(free, desc, info, busy, r, avail, offered, used, reported) && avail.idx != avail.seen
    ensures 0 <= avail.seen % NUM < |avail.slots| && offered.heads != []
    ensures var h := avail.slots[avail.seen % NUM];
      && h in r.chains && r.chains[h].phase == Offered
      && Inv(free, desc, info, busy, r.(chains := r.chains[h := r.chains[h].(phase := Taken)]),
             Popped(avail), Backlog(offered.heads[1..], offered.consumed + 1), used, reported) == true
  {
    assert offered.heads != [] by { IndexEqual(offered.consumed, offered.consumed + |offered.heads|); }
    var h := offered.heads[0];
    var c := r.chains[h].(phase := Taken);
    QueuePop(r.chains, Offered, avail, offered, c);
    QueueApart(r.chains, Reported, used, reported, h, c);
    ChainMoved(free, desc, r.own, r.chains, h, c);
  }

  lemma CompleteStep(free: seq<bool>, desc: seq<Desc>, info: seq<Info>, busy: map<int, bool>, r: Requests,
                     avail: Ring, offered: Backlog, used: Ring, reported: Backlog, h: int)
    requires Inv(free, desc, info, busy, r, avail, offered, used, reported) && h in r.chains
             && r.chains[h].phase == Taken
    ensures |used.slots| == NUM
    ensures Inv(free, desc, info, busy, r.(chains := r.chains[h := r.chains[h].(phase := Reported)]),
                avail, offered, Pushed(used, h), reported.(heads := reported.heads + [h])) == true
  {
    var c := r.chains[h].(phase := Reported);
    HeadsAreIndices(free, desc, r.own, r.chains);
    QueuePush(r.chains, h, c, used, reported);
    QueueApart(r.chains, Offered, avail, offered, h, c);
    ChainMoved(free, desc, r.own, r.chains, h, c);
  }

  lemma AckStep(free: seq<bool>, desc: seq<Desc>, info: seq<Info>, busy: map<int, bool>, r: Requests,
                avail: Ring, offered: Backlog, used: Ring, reported: Backlog)
    requires Inv(free, desc, info, busy, r, avail, offered, used, reported) && used.idx != used.seen
    ensures 0 <= used.seen % NUM < |used.slots| && reported.heads != []
    ensures var h := used.slots[used.seen % NUM];
      && h in r.chains && r.chains[h].phase == Reported && 0 <= h < |info| && info[h].b == r.chains[h].b
      && Inv(free, desc, info, busy[r.chains[h].b := false], r.(chains := r.chains[h := r.chains[h].(phase := Acked)]),
             avail, offered, Popped(used), Backlog(reported.heads[1..], reported.consumed + 1)) == true
  {
    assert reported.heads != [] by { IndexEqual(reported.consumed, reported.consumed + |reported.heads|); }
    var h := reported.heads[0];
    var c := r.chains[h].(phase := Acked);
    QueuePop(r.chains, Reported, used, reported, c);
    QueueApart(r.chains, Offered, avail, offered, h, c);
    ChainMoved(free, desc, r.own, r.chains, h, c);
  }

  lemma FinishStep(free: seq<bool>, desc: seq<Desc>, info: seq<Info>, busy: map<int, bool>, r: Requests,
                   avail: Ring, offered: Backlog, used: Ring, reported: Backlog, free': seq<bool>, desc': seq<Desc>,
                       h: int)
    requires Inv(free, desc, info, busy, r, avail, offered, used, reported) && h in r.chains
             && r.chains[h].phase == Acked
    requires Linked(desc, r.own, h, r.chains[h]) && |desc'| == NUM
    requires free' == free[h := true][r.chains[h].i1 := true][r.chains[h].i2 := true]
    requires forall i | 0 <= i < NUM && i != h && i != r.chains[h].i1 && i != r.chains[h].i2 :: desc'[i] == desc[i]
    ensures Index(h) && |info| == NUM
    ensures Inv(free', desc', info[h := Info(0, info[h].op)], busy,
                Requests(r.own[h := -1][r.chains[h].i1 := -1][r.chains[h].i2 := -1], r.chains - {h},
                         r.of - {r.chains[h].b}),
                avail, offered, used, reported) == true
  {
    ChainFreed(free, desc, r.own, r.chains, free', desc', h);
    QueueApart(r.chains, Offered, avail, offered, h, r.chains[h]);
    QueueApart(r.chains, Reported, used, reported, h, r.chains[h]);
  }

  lemma HeadsAreIndices(free: seq<bool>, desc: seq<Desc>, own: seq<int>, chains: map<int, Chain>)
    requires Descriptors(free, desc, own, chains) == true
    ensures forall h | h in chains :: Index(h)
  {
    forall h | h in chains ensures Index(h) {
      assert Linked(desc, own, h, chains[h]);
    }
  }

  lemma ChainMoved(free: seq<bool>, desc: seq<Desc>, own: seq<int>, chains: map<int, Chain>, h: int, c: Chain)
    requires Descriptors(free, desc, own, chains) && h in chains && c == chains[h].(phase := c.phase)
    ensures Index(h) && Descriptors(free, desc, own, chains[h := c]) == true
  {
    var chains' := chains[h := c];
    assert Linked(desc, own, h, chains[h]);
    forall g | g in chains' ensures Linked(desc, own, g, chains'[g]) {
      assert Linked(desc, own, g, chains[g]);
    }
  }

  /** What free descriptors hold does not matter. */
  lemma FreeDescOnly(free: seq<bool>, desc: seq<Desc>, desc': seq<Desc>, info: seq<Info>, busy: map<int, bool>,
                     r: Requests)
    requires Places(free, desc, info, busy, r) && |desc'| == NUM
    requires forall i | 0 <= i < NUM && !free[i] :: desc'[i] == desc[i]
    ensures Places(free, desc', info, busy, r) == true
  {
    forall h | h in r.chains ensures Linked(desc', r.own, h, r.chains[h]) {
      assert Linked(desc, r.own, h, r.chains[h]);
    }
  }

  /** The header of a request for a block: sectors have 512 bytes. */
  function OpFor(blockno: int, write: bool): Op {
    Op(if write then OUT else IN, blockno * (BSIZE / 512))
  }

  class Disk {
    var free: seq<bool>
    var desc: seq<Desc>
    /** Buffer numbers by head descriptor, and the flag of each buffer that the disk owns it. */
    var info: seq<Info>
    var busy: map<int, bool>
    /** Written by the driver and read by the device, and the other way round. */
    var avail: Ring
    var used: Ring

    ghost var requests: Requests
    ghost var offered: Backlog
    ghost var reported: Backlog

    ghost predicate Valid()
      reads this
    {
      Inv(free, desc, info, busy, requests, avail, offered, used, reported)
    }

    /** virtio_disk_init, as far as this state goes. */
    constructor (busy: map<int, bool>)
      ensures Valid() && requests.chains == map[] && this.busy == busy
    {
      free, desc, info := seq(NUM, _ => true), seq(NUM, _ => Desc(Nowhere, 0, 0, 0)), seq(NUM, _ => Info(0, Op(0, 0)));
      this.busy := busy;
      avail, used := Ring(seq(NUM, _ => 0), 0, 0), Ring(seq(NUM, _ => 0), 0, 0);
      requests, offered, reported := Requests(seq(NUM, _ => -1), map[], map[]), Backlog([], 0), Backlog([], 0);
    }

    /** The lowest free descriptor, marked, or -1. */
    method AllocDesc() returns (i: int)
      requires |free| == NUM
      modifies this`free
      ensures |free| == NUM && (i == -1 <==> forall j | 0 <= j < NUM :: !old(free)[j])
      ensures i == -1 ==> free == old(free)
      ensures i != -1 ==> Index(i) && old(free)[i] && free == old(free)[i := false] && forall j | 0 <= j < i ::
                !old(free)[j]
    {
      i := 0;
      while i < NUM
        invariant 0 <= i <= NUM && free == old(free) && forall j | 0 <= j < i :: !free[j]
      {
        if free[i] {
          free := free[i := false];
          return;
        }
        i := i + 1;
      }
      return -1;
    }

    /** Not ok are the two panics: there is no such descriptor, or it is free. */
    method FreeDesc(i: int) returns (ok: bool)
      requires |free| == NUM && |desc| == NUM && 0 <= i
      modifies this`free, this`desc
      ensures ok <==> i < NUM && !old(free)[i]
      ensures !ok ==> free == old(free) && desc == old(desc)
      ensures ok ==> free == old(free)[i := true] && desc == old(desc)[i := Desc(Nowhere, 0, 0, 0)]
    {
      if i >= NUM || free[i] {
        return false;
      }
      desc := desc[i := Desc(Nowhere, 0, 0, 0)];
      free := free[i := true];
      ok := true;
    }

    /** Three different descriptors, or none taken at all, which happens when fewer than three are free. */
    method Alloc3Desc() returns (ok: bool, idx: seq<int>)
      requires |free| == NUM && |desc| == NUM
      modifies this`free, this`desc
      ensures |free| == NUM && |desc| == NUM && forall i | 0 <= i < NUM && !old(free)[i] :: desc[i] == old(desc)[i]
      ensures ok <==> |FreeOnes(old(free))| >= 3
      ensures !ok ==> free == old(free)
      ensures ok ==> |idx| == 3 && Index(idx[0]) && Index(idx[1]) && Index(idx[2])
      ensures ok ==>
                idx[0] != idx[1] && idx[0] != idx[2] && idx[1] != idx[2] && old(free)[idx[0]] && old(free)[idx[1]]
                && old(free)[idx[2]]
      ensures ok ==> free == old(free)[idx[0] := false][idx[1] := false][idx[2] := false]
    {
      idx := [];
      while |idx| < 3
        invariant |idx| <= 3 && |free| == NUM && desc == old(desc)
        invariant forall k | 0 <= k < |idx| :: Index(idx[k]) && old(free)[idx[k]] && !free[idx[k]]
        invariant Distinct(idx)
        invariant forall i | 0 <= i < NUM :: free[i] <==> old(free)[i] && i !in idx
        decreases 3 - |idx|
      {
        var i := AllocDesc();
        if i < 0 {
          TooFew(old(free), idx);
          GiveBack(idx);
          return false, idx;
        }
        idx := idx + [i];
      }
      ok := true;
      Enough(old(free), idx);
      assert Differ(idx[0], idx[1]) && Differ(idx[0], idx[2]) && Differ(idx[1], idx[2]);
    }

    method GiveBack(idx: seq<int>)
      requires |free| == NUM && |desc| == NUM && Distinct(idx) && forall k | 0 <= k < |idx| ::
                 Index(idx[k]) && !free[idx[k]]
      modifies this`free, this`desc
      ensures |free| == NUM && |desc| == NUM
      ensures forall i | 0 <= i < NUM :: free[i] <==> old(free)[i] || i in idx
      ensures forall i | 0 <= i < NUM && i !in idx :: desc[i] == old(desc)[i]
    {
      var j := 0;
      while j < |idx|
        invariant 0 <= j <= |idx| && |free| == NUM && |desc| == NUM
        invariant forall i | 0 <= i < NUM :: free[i] <==> old(free)[i] || i in idx[..j]
        invariant forall i | 0 <= i < NUM && i !in idx :: desc[i] == old(desc)[i]
      {
        forall k | 0 <= k < j ensures idx[k] != idx[j] {
          assert Differ(idx[k], idx[j]);
        }
        var ok := FreeDesc(idx[j]);
        assert ok && idx[..j + 1] == idx[..j] + [idx[j]];
        j := j + 1;
      }
      assert idx[..j] == idx;
    }

    /** virtio_disk_rw up to its wait: the request is formatted and offered. False when three
        descriptors are not to be had, which is when two requests are at the disk already; the requester
        then waits and comes again. */
    method Submit(b: int, blockno: int, write: bool) returns (ok: bool, h: int)
      requires Valid() == true && b in busy && b !in requests.of
      modifies this
      ensures Valid() == true && (ok <==> |old(requests.chains)| < 2)
      ensures !ok ==> requests == old(requests) && busy == old(busy)
      ensures ok ==>
                h !in old(requests.chains) && h in requests.chains
                && requests.chains == old(requests.chains)[h := requests.chains[h]]
      ensures ok ==>
                requests.chains[h].b == b && requests.chains[h].phase == Offered
                && requests.chains[h].op == OpFor(blockno, write)
      ensures ok ==> requests.of == old(requests.of)[b := h] && busy == old(busy)[b := true]
    {
      ghost var c;
      ok, h, c := Prepare(b, blockno, write);
      if !ok {
        return;
      }
      Offer(b, OpFor(blockno, write), h, c, old(free), old(desc));
    }

    /** Records the buffer and puts the chain at h in the avail ring. */
    method Offer(b: int, op: Op, h: int, ghost c: Chain, ghost free0: seq<bool>, ghost desc0: seq<Desc>)
      requires Inv(free0, desc0, info, busy, requests, avail, offered, used, reported) == true
      requires Added(free0, desc0, requests.own, requests.chains, free, desc, h, c) == true
      requires c.b == b && c.op == op && c.phase == Offered && b !in requests.of && b in busy
      modifies this`busy, this`info, this`avail, this`requests, this`offered
      ensures Valid() == true && h !in old(requests.chains) && requests.chains == old(requests.chains)[h := c]
      ensures requests.of == old(requests.of)[b := h] && busy == old(busy)[b := true]
    {
      SubmitStep(free0, desc0, info, busy, requests, avail, offered, used, reported, free, desc, h, c);
      busy := busy[b := true];
      info := info[h := Info(b, op)];
      avail := avail.(slots := avail.slots[avail.idx % NUM := h]);
      avail := avail.(idx := (avail.idx + 1) % U16);
      requests := Requests(requests.own[h := h][c.i1 := h][c.i2 := h], requests.chains[h := c], requests.of[b := h]);
      offered := offered.(heads := offered.heads + [h]);
    }

    /** Three descriptors taken and formatted. */
    method Prepare(b: int, blockno: int, write: bool) returns (ok: bool, h: int, ghost c: Chain)
      requires Valid() == true
      modifies this`free, this`desc
      ensures (!ok ==> Valid() == true) && (ok <==> |old(requests.chains)| < 2)
      ensures ok ==>
                c.b == b && c.op == OpFor(blockno, write) && c.phase == Offered
                && Added(old(free), old(desc), requests.own, requests.chains, free, desc, h, c) == true
    {
      var idx;
      FreeCount(free, desc, requests.own, requests.chains);
      ok, idx := Alloc3Desc();
      if !ok {
        FreeDescOnly(old(free), old(desc), desc, info, busy, requests);
        return false, 0, Chain(0, 0, b, OpFor(blockno, write), Offered);
      }
      Format(idx, b, write);
      return true, idx[0], Chain(idx[1], idx[2], b, OpFor(blockno, write), Offered);
    }

    /** The three descriptors: header, data, status. */
    method Format(idx: seq<int>, b: int, write: bool)
      requires |desc| == NUM && |idx| == 3 && Index(idx[0]) && Index(idx[1]) && Index(idx[2])
      requires idx[0] != idx[1] && idx[0] != idx[2] && idx[1] != idx[2]
      modifies this`desc
      ensures |desc| == NUM && forall i | 0 <= i < NUM && i !in idx :: desc[i] == old(desc)[i]
      ensures forall blockno, p :: Formatted(desc, idx[0], Chain(idx[1], idx[2], b, OpFor(blockno, write), p))
    {
      desc := desc[idx[0] := Desc(Header(idx[0]), 16, F_NEXT, idx[1])];
      desc := desc[idx[1] := Desc(Data(b), BSIZE, (if write then 0 else F_WRITE) + F_NEXT, idx[2])];
      desc := desc[idx[2] := Desc(Status(idx[0]), 1, F_WRITE, 0)];
    }

    /** The device takes the next offered request, and reads what the requester asked for. */
    method DeviceTake() returns (h: int, seen: Seen)
      requires Valid() == true && avail.idx != avail.seen
      modifies this`avail, this`requests, this`offered
      ensures Valid() == true && h in old(requests.chains) && old(requests.chains)[h].phase == Offered
      ensures requests == old(requests.(chains := requests.chains[h := requests.chains[h].(phase := Taken)]))
      ensures var c := old(requests.chains)[h]; seen == Seen(c.op, Data(c.b), BSIZE, c.op.kind != OUT, Status(h))
    {
      TakeStep(free, desc, info, busy, requests, avail, offered, used, reported);
      h := avail.slots[avail.seen % NUM];
      seen := ReadChain(h);
      avail := avail.(seen := (avail.seen + 1) % U16);
      requests := requests.(chains := requests.chains[h := requests.chains[h].(phase := Taken)]);
      offered := Backlog(offered.heads[1..], offered.consumed + 1);
    }

    /** The device follows the chain at h. */
    method ReadChain(h: int) returns (seen: Seen)
      requires Valid() == true && h in requests.chains
      ensures var c := requests.chains[h]; seen == Seen(c.op, Data(c.b), BSIZE, c.op.kind != OUT, Status(h))
    {
      assert Linked(desc, requests.own, h, requests.chains[h]);
      var first := desc[h];
      var second := desc[first.next];
      var third := desc[second.next];
      seen := Seen(info[first.addr.h].op, second.addr, second.len, second.flags / F_WRITE % 2 == 1, third.addr);
    }

    /** The device completes one of the requests it has taken, whichever it likes. */
    method DeviceComplete(h: int)
      requires Valid() == true && h in requests.chains && requests.chains[h].phase == Taken
      modifies this`used, this`requests, this`reported
      ensures Valid() == true
      ensures requests == old(requests.(chains := requests.chains[h := requests.chains[h].(phase := Reported)]))
    {
      CompleteStep(free, desc, info, busy, requests, avail, offered, used, reported, h);
      used := used.(slots := used.slots[used.idx % NUM := h]);
      used := used.(idx := (used.idx + 1) % U16);
      requests := requests.(chains := requests.chains[h := requests.chains[h].(phase := Reported)]);
      reported := reported.(heads := reported.heads + [h]);
    }

    /** One turn of the interrupt handler's loop. */
    method Interrupt() returns (h: int)
      requires Valid() == true && used.seen != used.idx
      modifies this`busy, this`used, this`requests, this`reported
      ensures Valid() == true && h in old(requests.chains) && old(requests.chains)[h].phase == Reported
      ensures requests == old(requests.(chains := requests.chains[h := requests.chains[h].(phase := Acked)]))
      ensures busy == old(busy)[old(requests.chains)[h].b := false]
    {
      AckStep(free, desc, info, busy, requests, avail, offered, used, reported);
      h := used.slots[used.seen % NUM];
      var b := info[h].b;
      busy := busy[b := false];
      used := used.(seen := (used.seen + 1) % U16);
      requests := requests.(chains := requests.chains[h := requests.chains[h].(phase := Acked)]);
      reported := Backlog(reported.heads[1..], reported.consumed + 1);
    }

    /** The rest of virtio_disk_rw, for the requester of buffer b, whose chain is at h, once the
        buffer is no longer marked: only after the device has completed that very request. */
    method Finish(b: int, h: int)
      requires Valid() == true && b in requests.of && requests.of[b] == h && b in busy && !busy[b]
      modifies this
      ensures Valid() == true && h in old(requests.chains) && old(requests.chains)[h].b == b
              && old(requests.chains)[h].phase == Acked
      ensures requests.chains == old(requests.chains) - {h} && requests.of == old(requests.of) - {b}
              && busy == old(busy)
      ensures Index(h) && Index(old(requests.chains)[h].i1) && Index(old(requests.chains)[h].i2) && |old(free)| == NUM
      ensures free == old(free)[h := true][old(requests.chains)[h].i1 := true][old(requests.chains)[h].i2 := true]
    {
      ghost var c := requests.chains[h];
      assert Linked(desc, requests.own, h, c);
      FreeChain(h, c);
      FinishStep(old(free), old(desc), info, busy, requests, avail, offered, used, reported, free, desc, h);
      info := info[h := Info(0, info[h].op)];
      requests := Requests(requests.own[h := -1][c.i1 := -1][c.i2 := -1], requests.chains - {h}, requests.of - {b});
    }

    /** Frees exactly the three descriptors of the chain, without a panic. */
    method FreeChain(h: int, ghost c: Chain)
      requires |free| == NUM && Linked(desc, requests.own, h, c) && !free[h] && !free[c.i1] && !free[c.i2]
      modifies this`free, this`desc
      ensures free == old(free)[h := true][c.i1 := true][c.i2 := true]
      ensures |desc| == NUM && forall i | 0 <= i < NUM && i != h && i != c.i1 && i != c.i2 :: desc[i] == old(desc)[i]
    {
      var i, more := h, true;
      ghost var done := 0;
      while more
        invariant |free| == NUM && |desc| == NUM && 0 <= done <= 3 && (more <==> done < 3)
        invariant more ==> i == [h, c.i1, c.i2][done]
        invariant free == (if done == 0 then old(free) else if done == 1 then old(free)[h := true]
                           else if done == 2 then old(free)[h := true][c.i1 := true]
                                   else old(free)[h := true][c.i1 := true][c.i2 := true])
        invariant forall k | 0 <= k < NUM && k !in [h, c.i1, c.i2][..done] :: desc[k] == old(desc)[k]
        decreases 3 - done
      {
        var flag, nxt := desc[i].flags, desc[i].next;
        var ok := FreeDesc(i);
        assert ok;
        more := flag % 2 == 1;
        i := nxt;
        done := done + 1;
      }
    }
  }
}
