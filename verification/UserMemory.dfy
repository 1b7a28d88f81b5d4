/** User memory as one flat array of bytes in which pages never touched read as zero, and the page
    faults and copies of kernel/vm.c that refine it. */
module UserMemory {
  import opened VmSpec
  import Mem = Memory

  const USERBYTES := USERTOP * PGSIZE

  ghost function Byte(m: Vm, r: int, x: int): int
    requires Owned(m) && IsRoot(m, r) && 0 <= x < USERBYTES
  {
    Bytes(m, r, x / PGSIZE)[x % PGSIZE]
  }

  /** The flat memories of all trees, after bytes d are stored at va in the memory of r. */
  ghost predicate FlatWrote(m: Vm, n: Vm, r: int, va: int, d: seq<int>) {
    && Owned(m) && Owned(n) && (forall a :: IsRoot(n, a) <==> IsRoot(m, a))
    && (forall a, x | IsRoot(m, a) && 0 <= x < USERBYTES ::
          Byte(n, a, x) == if a == r && va <= x < va + |d| then d[x - va] else Byte(m, a, x))
  }

  lemma FlatWroteNext(m: Vm, n: Vm, k: Vm, r: int, va: int, d: seq<int>, e: seq<int>)
    requires FlatWrote(m, n, r, va, d) == true && FlatWrote(n, k, r, va + |d|, e) == true
    ensures FlatWrote(m, k, r, va, d + e) == true
  {
    forall a, x | IsRoot(m, a) && 0 <= x < USERBYTES
      ensures Byte(k, a, x) == if a == r && va <= x < va + |d + e| then (d + e)[x - va] else Byte(m, a, x)
    {
      assert IsRoot(n, a);
    }
  }

  lemma FlatWroteSlice(m: Vm, n: Vm, k: Vm, r: int, va: int, src: seq<int>, i: int, c: int)
    requires 0 <= i && 0 <= c && i + c <= |src|
    requires FlatWrote(m, n, r, va, src[..i]) == true && FlatWrote(n, k, r, va + i, src[i..i + c]) == true
    ensures FlatWrote(m, k, r, va, src[..i + c]) == true
  {
    FlatWroteNext(m, n, k, r, va, src[..i], src[i..i + c]);
    assert src[..i] + src[i..i + c] == src[..i + c];
  }

  /** A change that leaves every page reading the same is no change to flat memory. */
  lemma FlatSame(m: Vm, n: Vm, r: int, lo: int, hi: int, va: int)
    requires Changed(m, n, r, lo, hi) && 0 <= lo && hi <= USERTOP
    requires forall w | lo <= w < hi && IsRoot(m, r) :: Bytes(n, r, w) == Bytes(m, r, w)
    ensures FlatWrote(m, n, r, va, []) == true
  {
    forall a, x | IsRoot(m, a) && 0 <= x < USERBYTES ensures Byte(n, a, x) == Byte(m, a, x) {
      if !(a == r && lo <= x / PGSIZE < hi) { assert SamePage(m, n, a, x / PGSIZE); }
    }
  }

  /** Bytes d over a page from offset o. */
  function Patched(b: seq<int>, o: int, d: seq<int>): (c: seq<int>)
    requires |b| == PGSIZE && 0 <= o && o + |d| <= PGSIZE
    ensures |c| == PGSIZE
    ensures forall k | 0 <= k < PGSIZE :: c[k] == if o <= k < o + |d| then d[k - o] else b[k]
  {
    b[..o] + d + b[o + |d|..]
  }

  /** A store within one mapped page. */
  lemma StoreFlat(m: Vm, n: Vm, r: int, va: int, d: seq<int>)
    requires Owned(m) && IsRoot(m, r) && 0 <= va < USERBYTES && va % PGSIZE + |d| <= PGSIZE && Maps(m, r, va / PGSIZE)
    requires Retyped(m, n, Ppn(Trans(m, r, va / PGSIZE)))
    requires var p := Ppn(Trans(m, r, va / PGSIZE));
      0 <= p < |n.pages| && n.pages[p] == Data(Patched(Bytes(m, r, va / PGSIZE), va % PGSIZE, d))
    ensures FlatWrote(m, n, r, va, d) == true
  {
    var v := va / PGSIZE;
    StoreChanges(m, n, r, v);
    assert Bytes(n, r, v) == Patched(Bytes(m, r, v), va % PGSIZE, d);
    forall a, x | IsRoot(m, a) && 0 <= x < USERBYTES
      ensures Byte(n, a, x) == if a == r && va <= x < va + |d| then d[x - va] else Byte(m, a, x)
    {
      assert x == x / PGSIZE * PGSIZE + x % PGSIZE && va == v * PGSIZE + va % PGSIZE;
      if !(a == r && x / PGSIZE == v) { assert SamePage(m, n, a, x / PGSIZE); }
    }
  }

  ghost predicate FlatKept(m: Vm, n: Vm) {
    && Owned(m) && Owned(n) && (forall a :: IsRoot(n, a) <==> IsRoot(m, a))
    && (forall a, x | IsRoot(m, a) && 0 <= x < USERBYTES :: Byte(n, a, x) == Byte(m, a, x))
  }

  lemma KeptThenWrote(m: Vm, n: Vm, k: Vm, r: int, va: int, d: seq<int>)
    requires FlatKept(m, n) == true && FlatWrote(n, k, r, va, d) == true
    ensures FlatWrote(m, k, r, va, d) == true
  {
  }

  lemma WroteThenKept(m: Vm, n: Vm, k: Vm, r: int, va: int, d: seq<int>)
    requires FlatWrote(m, n, r, va, d) == true && FlatKept(n, k) == true
    ensures FlatWrote(m, k, r, va, d) == true
  {
  }

  lemma KeptTwice(m: Vm, n: Vm, k: Vm)
    requires FlatKept(m, n) == true && FlatKept(n, k) == true
    ensures FlatKept(m, k) == true
  {
  }

  lemma WroteNothing(m: Vm, r: int, va: int)
    requires Owned(m)
    ensures FlatWrote(m, m, r, va, []) == true && FlatKept(m, m) == true
  {
  }

  /** Page v can be reached from user mode. */
  predicate UserMaps(m: Vm, r: int, v: int) {
    0 <= v < USERTOP && Maps(m, r, v) && User(Trans(m, r, v))
  }

  /** The trapframe and trampoline pages are not for user mode. */
  predicate TopHidden(m: Vm, r: int) {
    forall w | USERTOP <= w < MAXV :: Maps(m, r, w) ==> !User(Trans(m, r, w))
  }

  /** Why page v cannot be used: it lies beyond the process, it is mapped but not for the user, or
      memory has run out. */
  predicate Refused(m: Vm, r: int, sz: int, v: int, free: int) {
    !UserMaps(m, r, v) && (v * PGSIZE >= sz || Maps(m, r, v) || free <= 1)
  }

  lemma TopStaysHidden(m: Vm, n: Vm, r: int, lo: int, hi: int)
    requires Changed(m, n, r, lo, hi) && hi <= USERTOP && IsRoot(m, r) && TopHidden(m, r)
    ensures TopHidden(n, r) == true
  {
    forall w | USERTOP <= w < MAXV && Maps(n, r, w) ensures !User(Trans(n, r, w)) {
      assert SamePage(m, n, r, w);
      assert Maps(m, r, w) && !User(Trans(m, r, w));
    }
  }

  /** The user page v, or 0. */
  method Walkaddr(k: Mem.Memory, r: int, v: int) returns (p: int)
    requires k.Valid() == true && IsRoot(k.View(), r) && TopHidden(k.View(), r) == true && 0 <= v
    modifies k
    ensures k.Valid() == true && k.View() == old(k.View()) && k.freelist == old(k.freelist)
    ensures p == (if UserMaps(k.View(), r, v) then Ppn(Trans(k.View(), r, v)) else 0)
    ensures p != 0 <==> UserMaps(k.View(), r, v)
  {
    if v >= MAXV {
      return 0;
    }
    var pt := k.Walk(r, v, false);
    if UserMaps(k.View(), r, v) { UserPage(k.View(), r, v); }
    if pt == 0 {
      return 0;
    }
    var e := PteAt(k.pages, pt, PX0(v));
    if !V(e) || !User(e) {
      return 0;
    }
    assert Maps(k.View(), r, v) && Trans(k.View(), r, v) == e;
    return Ppn(e);
  }

  method Ismapped(k: Mem.Memory, r: int, v: int) returns (b: bool)
    requires k.Valid() == true && IsRoot(k.View(), r) && 0 <= v < MAXV
    modifies k
    ensures k.Valid() == true && k.View() == old(k.View()) && k.freelist == old(k.freelist)
    ensures b == Maps(k.View(), r, v)
  {
    var pt := k.Walk(r, v, false);
    return pt != 0 && V(PteAt(k.pages, pt, PX0(v)));
  }

  /** A zeroed page mapped at v, below the size sz of the process and not mapped before; or 0. User
      memory reads the same either way. */
  method Vmfault(k: Mem.Memory, r: int, sz: int, v: int) returns (p: int)
    requires k.Valid() == true && IsRoot(k.View(), r) && TopHidden(k.View(), r) == true && 0 <= v
             && 0 <= sz <= USERBYTES
    requires !UserMaps(k.View(), r, v)
    modifies k
    ensures k.Valid() == true && IsRoot(k.View(), r) && TopHidden(k.View(), r) == true
    ensures FlatKept(old(k.View()), k.View()) == true
    ensures p == 0 ==> Refused(k.View(), r, sz, v, |k.freelist|)
    ensures p != 0 ==> v * PGSIZE < sz && UserMaps(k.View(), r, v) && 0 < p && Trans(k.View(), r, v) == MkPte(p, 22)
  {
    ghost var m := k.View();
    WroteNothing(m, r, 0);
    if v * PGSIZE >= sz {
      return 0;
    }
    var b := Ismapped(k, r, v);
    if b {
      return 0;
    }
    p := FaultIn(k, r, v);
  }

  method FaultIn(k: Mem.Memory, r: int, v: int) returns (p: int)
    requires k.Valid() == true && IsRoot(k.View(), r) && TopHidden(k.View(), r) == true && 0 <= v < USERTOP
    requires !Maps(k.View(), r, v)
    modifies k
    ensures k.Valid() == true && IsRoot(k.View(), r) && TopHidden(k.View(), r) == true
    ensures FlatKept(old(k.View()), k.View()) == true
    ensures p == 0 ==> |k.freelist| <= 1 && !Maps(k.View(), r, v)
    ensures p != 0 ==> UserMaps(k.View(), r, v) && 0 < p && Trans(k.View(), r, v) == MkPte(p, 22)
  {
    ghost var m := k.View();
    p := k.MapFresh(r, v, seq(PGSIZE, _ => 0), 22);
    if p == 0 {
      FaultKeeps(m, k.View(), r, 0, 0);
      assert SamePage(m, k.View(), r, v);
    } else {
      FaultKeeps(m, k.View(), r, v, v + 1);
      WithVKeeps(p, 22);
    }
  }

  lemma FaultKeeps(m: Vm, n: Vm, r: int, lo: int, hi: int)
    requires Changed(m, n, r, lo, hi) == true && 0 <= lo && hi <= USERTOP && IsRoot(m, r) && TopHidden(m, r) == true
    requires forall w | lo <= w < hi :: !Maps(m, r, w) && Bytes(n, r, w) == seq(PGSIZE, _ => 0)
    ensures FlatKept(m, n) == true && IsRoot(n, r) && TopHidden(n, r) == true
  {
    TopStaysHidden(m, n, r, lo, hi);
    FlatSame(m, n, r, lo, hi, 0);
  }

  /** The page behind va, faulted in if need be. */
  method PageFor(k: Mem.Memory, r: int, sz: int, v: int) returns (p: int)
    requires k.Valid() == true && IsRoot(k.View(), r) && TopHidden(k.View(), r) == true && 0 <= v
             && 0 <= sz <= USERBYTES
    modifies k
    ensures k.Valid() == true && IsRoot(k.View(), r) && TopHidden(k.View(), r) == true
    ensures FlatKept(old(k.View()), k.View()) == true
    ensures p == 0 ==> Refused(k.View(), r, sz, v, |k.freelist|)
    ensures p != 0 ==> UserMaps(k.View(), r, v) && p == Ppn(Trans(k.View(), r, v))
  {
    WroteNothing(k.View(), r, 0);
    p := Walkaddr(k, r, v);
    if p == 0 {
      p := Vmfault(k, r, sz, v);
    }
  }

  /** d is what flat memory held at va in state m. */
  ghost predicate HasRead(m: Vm, r: int, va: int, d: seq<int>) {
    && Owned(m) && IsRoot(m, r) && 0 <= va && (|d| > 0 ==> va + |d| <= USERBYTES)
    && forall i | 0 <= i < |d| :: d[i] == Byte(m, r, va + i)
  }

  lemma SameOffset(x: int, i: int)
    requires 0 <= x && 0 <= i && x % PGSIZE + i < PGSIZE
    ensures (x + i) / PGSIZE == x / PGSIZE && (x + i) % PGSIZE == x % PGSIZE + i
  {
    assert x == x / PGSIZE * PGSIZE + x % PGSIZE;
  }

  /** A stretch of flat memory within one mapped page, as it lies in that page. */
  lemma ReadPage(m: Vm, r: int, x: int, n: int)
    requires Owned(m) == true && IsRoot(m, r) && 0 <= x && 0 < n && x % PGSIZE + n <= PGSIZE
    requires UserMaps(m, r, x / PGSIZE)
    ensures var p := Ppn(Trans(m, r, x / PGSIZE));
      && 0 <= p < |m.pages| && m.pages[p].Data? && |m.pages[p].bytes| == PGSIZE
      && HasRead(m, r, x, m.pages[p].bytes[x % PGSIZE..x % PGSIZE + n]) == true
  {
    UserPage(m, r, x / PGSIZE);
    assert x == x / PGSIZE * PGSIZE + x % PGSIZE;
    var d := m.pages[Ppn(Trans(m, r, x / PGSIZE))].bytes[x % PGSIZE..x % PGSIZE + n];
    forall i | 0 <= i < n ensures d[i] == Byte(m, r, x + i) {
      SameOffset(x, i);
    }
  }

  lemma HasReadKept(m: Vm, n: Vm, r: int, va: int, d: seq<int>)
    requires FlatKept(m, n) == true && HasRead(n, r, va, d) == true
    ensures HasRead(m, r, va, d) == true
  {
    forall i | 0 <= i < |d| ensures d[i] == Byte(m, r, va + i) {
      assert Byte(n, r, va + i) == Byte(m, r, va + i);
    }
  }

  lemma HasReadNext(m: Vm, r: int, va: int, d: seq<int>, e: seq<int>)
    requires HasRead(m, r, va, d) == true && HasRead(m, r, va + |d|, e) == true && e != []
    ensures HasRead(m, r, va, d + e) == true
  {
    forall i | 0 <= i < |d + e| ensures (d + e)[i] == Byte(m, r, va + i) {
      if i >= |d| {
        assert e[i - |d|] == Byte(m, r, va + |d| + (i - |d|));
      }
    }
  }

  lemma HasReadMore(m: Vm, n: Vm, r: int, va: int, d: seq<int>, e: seq<int>)
    requires HasRead(m, r, va, d) == true && FlatKept(m, n) == true && HasRead(n, r, va + |d|, e) == true && e != []
    ensures HasRead(m, r, va, d + e) == true
  {
    HasReadKept(m, n, r, va + |d|, e);
    HasReadNext(m, r, va, d, e);
  }

  /** How many of the bytes left lie in the page of va. */
  function Piece(va: int, left: int): (n: int)
    requires 0 < left
    ensures 0 < n <= left && va % PGSIZE + n <= PGSIZE
  {
    var n := PGSIZE - va % PGSIZE; if n > left then left else n
  }

  /** One turn of copyin's loop: n bytes of one page, or 0 if the page cannot be used. */
  method CopyinPage(k: Mem.Memory, r: int, sz: int, va: int, n: int) returns (p: int, piece: seq<int>)
    requires k.Valid() == true && IsRoot(k.View(), r) && TopHidden(k.View(), r) == true && 0 <= sz <= USERBYTES
    requires 0 <= va && 0 < n && va % PGSIZE + n <= PGSIZE
    modifies k
    ensures k.Valid() == true && IsRoot(k.View(), r) && TopHidden(k.View(), r) == true
    ensures FlatKept(old(k.View()), k.View()) == true
    ensures p == 0 ==> Refused(k.View(), r, sz, va / PGSIZE, |k.freelist|) == true
    ensures p != 0 ==> |piece| == n && HasRead(old(k.View()), r, va, piece) == true
  {
    ghost var m := k.View();
    p := PageFor(k, r, sz, va / PGSIZE);
    if p == 0 {
      return p, [];
    }
    ReadPage(k.View(), r, va, n);
    piece := k.pages[p].bytes[va % PGSIZE..va % PGSIZE + n];
    HasReadKept(m, k.View(), r, va, piece);
  }

  /** The same for the next c bytes, when d has been read already since state m. */
  method CopyinTurn(k: Mem.Memory, ghost m: Vm, r: int, sz: int, srcva: int, d: seq<int>, c: int)
      returns (ok: bool, e: seq<int>)
    requires k.Valid() == true && IsRoot(k.View(), r) && TopHidden(k.View(), r) == true && 0 <= sz <= USERBYTES
    requires 0 <= srcva && 0 < c && (srcva + |d|) % PGSIZE + c <= PGSIZE
    requires FlatKept(m, k.View()) == true && HasRead(m, r, srcva, d) == true
    modifies k
    ensures k.Valid() == true && IsRoot(k.View(), r) && TopHidden(k.View(), r) == true && FlatKept(m, k.View()) == true
    ensures ok ==> |e| == |d| + c && HasRead(m, r, srcva, e) == true
    ensures !ok ==> Refused(k.View(), r, sz, (srcva + |d|) / PGSIZE, |k.freelist|) == true
  {
    ghost var h := k.View();
    var p, piece := CopyinPage(k, r, sz, srcva + |d|, c);
    KeptTwice(m, h, k.View());
    ok, e := p != 0, d + piece;
    if ok {
      HasReadMore(m, h, r, srcva, d, piece);
    }
  }

  /** Copies len bytes in from user address srcva; false if a page of the range cannot be used. On
      success the bytes are those of flat memory, which stays as it was either way. */
  method Copyin(k: Mem.Memory, r: int, sz: int, srcva: int, len: int)
    returns (ok: bool, dst: seq<int>)
    requires k.Valid() == true && IsRoot(k.View(), r) && TopHidden(k.View(), r) == true && 0 <= sz <= USERBYTES
    requires 0 <= srcva && 0 <= len
    modifies k
    ensures k.Valid() == true && FlatKept(old(k.View()), k.View()) == true && |dst| <= len
    ensures HasRead(old(k.View()), r, srcva, dst) == true && (ok <==> |dst| == len)
    ensures !ok ==> Refused(k.View(), r, sz, (srcva + |dst|) / PGSIZE, |k.freelist|) == true
  {
    ghost var m := k.View();
    WroteNothing(m, r, 0);
    dst := [];
    ok := true;
    while |dst| < len
      invariant |dst| <= len && ok && HasRead(m, r, srcva, dst) == true
      invariant k.Valid() == true && IsRoot(k.View(), r) && TopHidden(k.View(), r) == true
                && FlatKept(m, k.View()) == true
      decreases len - |dst|
    {
      var c := Piece(srcva + |dst|, len - |dst|);
      var e;
      ok, e := CopyinTurn(k, m, r, sz, srcva, dst, c);
      if !ok {
        break;
      }
      dst := e;
    }
  }

  /** Stores d within the mapped page p behind va. */
  method StorePage(k: Mem.Memory, r: int, va: int, p: int, d: seq<int>)
    requires k.Valid() == true && IsRoot(k.View(), r) && TopHidden(k.View(), r) == true
    requires 0 <= va && va % PGSIZE + |d| <= PGSIZE && UserMaps(k.View(), r, va / PGSIZE)
             && p == Ppn(Trans(k.View(), r, va / PGSIZE))
    modifies k
    ensures k.Valid() == true && IsRoot(k.View(), r) && TopHidden(k.View(), r) == true
    ensures FlatWrote(old(k.View()), k.View(), r, va, d) == true
  {
    ghost var m := k.View();
    UserPage(m, r, va / PGSIZE);
    assert va == va / PGSIZE * PGSIZE + va % PGSIZE;
    var x := Data(Patched(k.pages[p].bytes, va % PGSIZE, d));
    RetypedOwned(m, p, x, k.role);
    k.pages := k.pages[p := x];
    StoreFlat(m, k.View(), r, va, d);
    StoreChanges(m, k.View(), r, va / PGSIZE);
    TopStaysHidden(m, k.View(), r, va / PGSIZE, va / PGSIZE + 1);
    SameUseOk(m, k.View(), k.freelist, k.refcount);
  }

  /** One turn of copyout's loop: d to one page; false if the page cannot be used or written. */
  method CopyoutPage(k: Mem.Memory, r: int, sz: int, va: int, d: seq<int>) returns (ok: bool)
    requires k.Valid() == true && IsRoot(k.View(), r) && TopHidden(k.View(), r) == true && 0 <= sz <= USERBYTES
    requires 0 <= va && va % PGSIZE + |d| <= PGSIZE
    modifies k
    ensures k.Valid() == true && IsRoot(k.View(), r) && TopHidden(k.View(), r) == true
    ensures ok ==> FlatWrote(old(k.View()), k.View(), r, va, d) == true
    ensures !ok ==> FlatKept(old(k.View()), k.View()) == true
    ensures !ok ==> NotWritable(k.View(), r, sz, va / PGSIZE, |k.freelist|) == true
  {
    ghost var m := k.View();
    if va / PGSIZE >= MAXV {
      TooHigh(m, r, sz, va / PGSIZE, |k.freelist|);
      return false;
    }
    var p := PageFor(k, r, sz, va / PGSIZE);
    ghost var n := k.View();
    if p == 0 {
      return false;
    }
    var pt := k.Walk(r, va / PGSIZE, false);
    if !Writable(PteAt(k.pages, pt, PX0(va / PGSIZE))) {
      return false;
    }
    StorePage(k, r, va, p, d);
    KeptThenWrote(m, n, k.View(), r, va, d);
    return true;
  }

  predicate NotWritable(m: Vm, r: int, sz: int, v: int, free: int) {
    Refused(m, r, sz, v, free) || (Maps(m, r, v) && !Writable(Trans(m, r, v)))
  }

  lemma TooHigh(m: Vm, r: int, sz: int, v: int, free: int)
    requires Owned(m) && v >= MAXV && sz <= USERBYTES
    ensures NotWritable(m, r, sz, v, free) == true && FlatKept(m, m) == true
  {
  }

  /** The same for the next c bytes of src, when i of them are stored already since state m. */
  method CopyoutTurn(k: Mem.Memory, ghost m: Vm, r: int, sz: int, dstva: int, src: seq<int>, i: int, c: int)
      returns (ok: bool)
    requires k.Valid() == true && IsRoot(k.View(), r) && TopHidden(k.View(), r) == true && 0 <= sz <= USERBYTES
    requires 0 <= dstva && 0 <= i && 0 < c && i + c <= |src| && (dstva + i) % PGSIZE + c <= PGSIZE
    requires FlatWrote(m, k.View(), r, dstva, src[..i]) == true
    modifies k
    ensures k.Valid() == true && IsRoot(k.View(), r) && TopHidden(k.View(), r) == true
    ensures FlatWrote(m, k.View(), r, dstva, src[..if ok then i + c else i]) == true
    ensures !ok ==> NotWritable(k.View(), r, sz, (dstva + i) / PGSIZE, |k.freelist|) == true
  {
    ghost var h := k.View();
    ok := CopyoutPage(k, r, sz, dstva + i, src[i..i + c]);
    if ok {
      FlatWroteSlice(m, h, k.View(), r, dstva, src, i, c);
    } else {
      WroteThenKept(m, h, k.View(), r, dstva, src[..i]);
    }
  }

  /** Copies src out to user address dstva. On success flat memory has exactly those bytes replaced;
      on failure the first t of them, up to a page that cannot be used or written. */
  method Copyout(k: Mem.Memory, r: int, sz: int, dstva: int, src: seq<int>)
    returns (ok: bool, ghost t: int)
    requires k.Valid() == true && IsRoot(k.View(), r) && TopHidden(k.View(), r) == true && 0 <= sz <= USERBYTES
             && 0 <= dstva
    modifies k
    ensures k.Valid() == true && 0 <= t <= |src| && (ok ==> t == |src|)
    ensures FlatWrote(old(k.View()), k.View(), r, dstva, src[..t]) == true
    ensures !ok ==> t < |src| && NotWritable(k.View(), r, sz, (dstva + t) / PGSIZE, |k.freelist|) == true
  {
    ghost var m := k.View();
    WroteNothing(m, r, dstva);
    var i := 0;
    assert src[..0] == [];
    ok := true;
    while i < |src|
      invariant 0 <= i <= |src| && k.Valid() == true && IsRoot(k.View(), r) && TopHidden(k.View(), r) == true
      invariant ok && FlatWrote(m, k.View(), r, dstva, src[..i]) == true
    {
      var c := Piece(dstva + i, |src| - i);
      ok := CopyoutTurn(k, m, r, sz, dstva, src, i, c);
      if !ok {
        break;
      }
      i := i + c;
    }
    t := i;
  }

  /** Reading back what was written. */
  lemma ReadAfterWrite(m: Vm, n: Vm, r: int, va: int, d: seq<int>)
    requires FlatWrote(m, n, r, va, d) && IsRoot(m, r) && 0 <= va && va + |d| <= USERBYTES
    ensures HasRead(n, r, va, d)
  {
    forall i | 0 <= i < |d| ensures d[i] == Byte(n, r, va + i) {
    }
  }
}
