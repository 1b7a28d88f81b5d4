/** The page allocator of kernel/kalloc.c and the page-table operations of kernel/vm.c, changing
    physical memory in place. Page 0 stands for the null pointer. */
module Memory {
  import opened VmSpec

  class Memory {
    const first: int
    var pages: seq<Page>
    var freelist: seq<int>
    var refcount: seq<int>
    ghost var role: map<int, Slot>

    /** What page p is used for before it is first freed: no tree has it. */
    static ghost function BootUse(p: int): Slot { Other }

    /** kinit: every page from `first` on counts as used once, and is then freed. */
    constructor (first: int, n: int)
      requires 0 < first <= n
      ensures Valid() && this.first == first && |pages| == n && role == map[]
      ensures forall p | first <= p < n :: p in freelist
    {
      this.first, pages, refcount, freelist := first, seq(n, _ => Filled(0)), seq(n, _ => 1), [];
      role := map p | first <= p < n :: BootUse(p);
      new;
      Freerange();
    }

    /** freerange over all of them. */
    method Freerange()
      requires AllocOk(View(), freelist, refcount) == true && 0 < first <= |pages| && forall p :: p in role <==>
                 first <= p < |pages|
      modifies this
      ensures Valid() && |pages| == |old(pages)| && role == map[] && forall p | first <= p < |pages| :: p in freelist
    {
      var p := first;
      while p < |pages|
        invariant first <= p <= |pages| == |old(pages)| && AllocOk(View(), freelist, refcount) == true
        invariant forall q :: q in role <==> p <= q < |pages|
      {
        Kfree(p);
        p := p + 1;
      }
      assert role == map[];
    }

    ghost function View(): Vm
      reads this
    {
      Vm(pages, role, first)
    }

    ghost predicate Valid()
      reads this
    {
      Owned(View()) && AllocOk(View(), freelist, refcount)
    }

    static function Filled(b: int): Page {
      Data(seq(PGSIZE, _ => b))
    }

    /** A page filled with junk, or 0 if there is none. */
    method Kalloc() returns (p: int)
      requires Valid() == true
      modifies this
      ensures Valid() == true && (p == 0 <==> old(freelist) == [])
      ensures p == 0 ==> View() == old(View()) && freelist == old(freelist)
      ensures p != 0 ==>
                first <= p < |pages| && p !in old(role) && role == old(role)[p := Other]
                && freelist == old(freelist[1..])
      ensures p != 0 ==>
                |pages| == |old(pages)| && pages == old(pages)[p := Filled(5)]
                && Retyped(old(View()), View(), p) == true
    {
      if freelist == [] {
        return 0;
      }
      p := freelist[0];
      TakenOk(View(), Vm(pages[p := Filled(5)], role[p := Other], first), freelist, refcount, p);
      RetypedOwned(View(), p, Filled(5), role[p := Other]);
      freelist := freelist[1..];
      pages := pages[p := Filled(5)];
      refcount := refcount[p := refcount[p] + 1];
      role := role[p := Other];
    }

    /** Page p is junk and back on the free list, as its last reference goes. */
    method Kfree(p: int)
      requires AllocOk(View(), freelist, refcount) == true && p in role && first <= p < |pages|
      modifies this
      ensures AllocOk(View(), freelist, refcount) == true
      ensures pages == old(pages)[p := Filled(1)] && role == old(role) - {p} && freelist == [p] + old(freelist)
    {
      ghost var m := View();
      refcount := refcount[p := refcount[p] - 1];
      if refcount[p] > 0 {
        // Somebody else holds the page; not so for pages that have one use.
        assert false;
      }
      GivenBackOk(m, Vm(pages[p := Filled(1)], role - {p}, first), freelist, old(refcount), p);
      pages := pages[p := Filled(1)];
      freelist := [p] + freelist;
      role := role - {p};
    }

    /** One turn of walk's loop: entry i of table t is slot s of a tree. */
    method Step(ghost s: Slot, t: int, i: int, alloc: bool) returns (pt: int)
      requires Valid() == true && InRange(View(), s) && (s.Mid? || s.Low?)
      requires TableOf(pages, s) == t != -1 && IndexIn(s) == i
      modifies this
      ensures Valid() == true && Extends(old(View()), View()) == true
      ensures pt == (if At(pages, s) == -1 then 0 else At(pages, s)) && (pt == 0 || first <= pt)
      ensures !alloc ==> View() == old(View()) && freelist == old(freelist)
      ensures alloc && pt == 0 ==> freelist == []
    {
      ghost var m := View();
      if s.Low? { PathOwned(m, s.r, s.i, s.j); }
      assert At(pages, s) == Target(pages, t, i);
      var e := pages[t].ptes[i];
      if V(e) {
        assert At(pages, s) == Ppn(e);
        return Ppn(e);
      }
      if !alloc {
        return 0;
      }
      pt := Kalloc();
      if pt == 0 {
        return;
      }
      LinkFresh(s, t, i, pt, m);
    }

    /** Page q, just allocated, is zeroed and linked. */
    method LinkFresh(ghost s: Slot, t: int, i: int, q: int, ghost m: Vm)
      requires AllocOk(View(), freelist, refcount) == true && CanLink(m, s, q) == true
      requires t == TableOf(m.pages, s) && i == IndexIn(s)
      requires pages == m.pages[q := Filled(5)] && role == m.role[q := Other] && first == m.first
      modifies this
      ensures Valid() == true && Extends(m, View()) == true && At(pages, s) == q && freelist == old(freelist)
    {
      TableOwned(m, s, q);
      LinkedOwned(m, s, q);
      LinkedSlot(m, s, q, s);
      ghost var k := View();
      pages := pages[q := ZeroTable()];
      assert pages == m.pages[q := ZeroTable()];
      pages := SetPte(pages, t, i, MkPte(q, 0));
      role := role[q := s];
      assert View() == Linked(m, s, q);
      SameUseOk(k, View(), freelist, refcount);
    }

    /** The index into a table of the given level. */
    static function PX(level: int, v: int): int {
      if level == 2 then PX2(v) else if level == 1 then PX1(v) else PX0(v)
    }

    /** The level-0 table for v in the tree r, or 0 when a table is missing and none can be made.
        The entry is at index PX0(v) of that table. */
    method Walk(r: int, v: int, alloc: bool) returns (pt: int)
      requires Valid() == true && IsRoot(View(), r) && 0 <= v < MAXV
      modifies this
      ensures Valid() == true && Extends(old(View()), View()) == true
      ensures pt == (if LowOf(pages, r, PX2(v), PX1(v)) == -1 then 0 else LowOf(pages, r, PX2(v), PX1(v)))
      ensures !alloc ==> View() == old(View()) && freelist == old(freelist)
      ensures (pt == 0 <==> LowOf(pages, r, PX2(v), PX1(v)) == -1) && (alloc && pt == 0 ==> freelist == [])
    {
      pt := r;
      var level := 2;
      while level > 0
        invariant 0 <= level <= 2 && Valid() == true && Extends(old(View()), View()) == true && first <= pt
        invariant pt == if level == 2 then r else if level == 1 then Target(pages, r, PX2(v))
                  else LowOf(pages, r, PX2(v), PX1(v))
        invariant !alloc ==> View() == old(View()) && freelist == old(freelist)
      {
        ghost var m := View();
        ghost var s := if level == 2 then Mid(r, PX2(v)) else Low(r, PX2(v), PX1(v));
        pt := Step(s, pt, PX(level, v), alloc);
        ExtendsTwice(old(View()), m, View());
        if pt == 0 {
          return;
        }
        level := level - 1;
      }
    }

    /** Maps page q at v; false, with nothing changed that user code can see, when a table cannot
        be made. That v is not mapped yet is the absence of the "remap" panic. */
    method Mappages(r: int, v: int, q: int, perm: int) returns (ok: bool)
      requires Valid() == true && IsRoot(View(), r) && 0 <= v < USERTOP && !Maps(View(), r, v)
      requires q in role && role[q] == Other && pages[q].Data? && |pages[q].bytes| == PGSIZE
      requires 0 <= perm < 1024 && !IsPointer(perm)
      modifies this
      ensures Valid() == true && q in role && pages[q] == old(pages[q])
      ensures ok ==> Changed(old(View()), View(), r, v, v + 1) == true && Trans(View(), r, v) == MkPte(q, perm)
      ensures !ok ==> Changed(old(View()), View(), r, 0, 0) == true && role[q] == Other && freelist == []
    {
      var pt := Walk(r, v, true);
      ghost var m := View();
      if pt == 0 {
        ExtendsKeeps(old(View()), m, r, 0, 0);
        return false;
      }
      ExtendsKeeps(old(View()), m, r, v, v + 1);
      MappedOwned(m, r, v, q, perm);
      SetLeafAt(m, r, v, MkPte(q, perm), r, v);
      pages := SetPte(pages, pt, PX0(v), MkPte(q, perm));
      role := role[q := Leaf(r, v)];
      assert View() == Mapped(m, r, v, q, perm);
      LeafSetChanges(m, View(), r, v, MkPte(q, perm), q, Leaf(r, v));
      ChangedTwice(old(View()), m, View(), r, v, v + 1, v, v + 1);
      SameUseOk(m, View(), freelist, refcount);
      return true;
    }

    /** One turn of uvmunmap's loop: unmaps v and frees its page, if it is mapped. */
    method UnmapPage(r: int, v: int)
      requires Valid() == true && IsRoot(View(), r) && 0 <= v < USERTOP
      modifies this
      ensures Valid() == true && Changed(old(View()), View(), r, v, v + 1) == true && !Maps(View(), r, v)
      ensures LeavesGone(old(role), role, r) == true
    {
      var pt := Walk(r, v, false);
      ghost var m := View();
      ExtendsKeeps(m, m, r, v, v + 1);
      if pt == 0 {
        return;
      }
      PathOwned(m, r, PX2(v), PX1(v));
      var e := pages[pt].ptes[PX0(v)];
      if !V(e) {
        return;
      }
      FreeLeaf(r, v, pt, e);
    }

    /** A mapped page v, whose entry e is in table pt, is freed and its entry cleared. */
    method FreeLeaf(r: int, v: int, pt: int, e: int)
      requires Valid() == true && IsRoot(View(), r) && 0 <= v < USERTOP && Maps(View(), r, v)
      requires pt == LowOf(pages, r, PX2(v), PX1(v)) && e == LeafPte(pages, r, v)
      modifies this
      ensures Valid() == true && Changed(old(View()), View(), r, v, v + 1) == true && !Maps(View(), r, v)
      ensures LeavesGone(old(role), role, r) == true
    {
      ghost var m := View();
      PathOwned(m, r, PX2(v), PX1(v));
      UserPage(m, r, v);
      FreedPageOwned(m, r, v, Filled(1));
      Kfree(Ppn(e));
      ghost var k := View();
      pages := SetPte(pages, pt, PX0(v), 0);
      assert View() == FreedPage(m, r, v, Filled(1));
      SameUseOk(k, View(), freelist, refcount);
    }

    /** Unmaps n pages from v on and frees them; pages not mapped are passed over. */
    method Uvmunmap(r: int, v: int, n: int)
      requires Valid() == true && IsRoot(View(), r) && 0 <= v && 0 <= n && v + n <= USERTOP
      modifies this
      ensures Valid() == true && Changed(old(View()), View(), r, v, v + n) == true
      ensures NoneMapped(View(), r, v, v + n) == true && LeavesGone(old(role), role, r) == true
    {
      var a := v;
      ghost var m := View();
      NothingChanged(m, r, v, v);
      while a < v + n
        invariant v <= a <= v + n && Valid() == true && Changed(m, View(), r, v, a) == true
        invariant NoneMapped(View(), r, v, a) == true && LeavesGone(m.role, role, r) == true
      {
        ghost var k := View();
        UnmapPage(r, a);
        ChangedTwice(m, k, View(), r, v, a, a, a + 1);
        NoneMappedNext(k, View(), r, v, a);
        LeavesGoneTwice(m.role, k.role, role, r);
        a := a + 1;
      }
    }

    static function PageRoundUp(sz: int): int {
      (sz + PGSIZE - 1) / PGSIZE
    }

    method Uvmdealloc(r: int, oldsz: int, newsz: int) returns (sz: int)
      requires Valid() == true && IsRoot(View(), r) && 0 <= newsz && 0 <= oldsz <= USERTOP * PGSIZE
      modifies this
      ensures Valid() == true && sz == if newsz >= oldsz then oldsz else newsz
      ensures Changed(old(View()), View(), r, PageRoundUp(sz), PageRoundUp(oldsz)) == true
      ensures NoneMapped(View(), r, PageRoundUp(sz), PageRoundUp(oldsz)) == true
    {
      if newsz >= oldsz {
        NothingChanged(View(), r, PageRoundUp(oldsz), PageRoundUp(oldsz));
        return oldsz;
      }
      if PageRoundUp(newsz) < PageRoundUp(oldsz) {
        Uvmunmap(r, PageRoundUp(newsz), PageRoundUp(oldsz) - PageRoundUp(newsz));
      } else {
        NothingChanged(View(), r, PageRoundUp(newsz), PageRoundUp(oldsz));
      }
      return newsz;
    }

    /** A fresh page with the given bytes, mapped at v; 0, with nothing changed that user code can
        see, when memory runs out. */
    method MapFresh(r: int, v: int, bytes: seq<int>, perm: int) returns (q: int)
      requires Valid() == true && IsRoot(View(), r) && 0 <= v < USERTOP && !Maps(View(), r, v)
      requires |bytes| == PGSIZE && 0 <= perm < 1024 && !IsPointer(perm)
      modifies this
      ensures Valid() == true
      ensures q != 0 ==> Changed(old(View()), View(), r, v, v + 1) == true && IsRoot(View(), r) && first <= q
      ensures q != 0 ==> Trans(View(), r, v) == MkPte(q, perm) && Bytes(View(), r, v) == bytes
      ensures q == 0 ==> Changed(old(View()), View(), r, 0, 0) == true && |freelist| <= 1
    {
      ghost var m := View();
      q := Kalloc();
      if q == 0 {
        NothingChanged(m, r, 0, 0);
        return;
      }
      ghost var k := View();
      RetypedKeeps(m, k, q, r, 0, 0);
      RetypedOwned(k, q, Data(bytes), role);
      pages := pages[q := Data(bytes)];
      ghost var l := View();
      RetypedKeeps(k, l, q, r, 0, 0);
      ChangedTwice(m, k, l, r, 0, 0, 0, 0);
      SameUseOk(k, l, freelist, refcount);
      assert SamePage(m, l, r, v);
      var ok := Mappages(r, v, q, perm);
      ghost var n := View();
      if !ok {
        ChangedTwice(m, l, n, r, 0, 0, 0, 0);
        Kfree(q);
        RetypedOwned(n, q, Filled(1), n.role - {q});
        RetypedKeeps(n, View(), q, r, 0, 0);
        ChangedTwice(m, n, View(), r, 0, 0, 0, 0);
        return 0;
      }
      ChangedTwice(m, l, n, r, 0, 0, v, v + 1);
    }

    /** One turn of uvmalloc's loop: a zeroed page at a, or all of them from lo on unmapped again. */
    method GrowTurn(ghost m: Vm, r: int, lo: int, a: int, perm: int) returns (ok: bool)
      requires Valid() == true && Owned(m) == true && IsRoot(m, r) && 0 <= lo <= a < USERTOP
      requires Changed(m, View(), r, lo, a) == true && FreshPages(View(), r, lo, a, WithV(perm)) == true
      requires NoneMapped(m, r, lo, a + 1) == true && 0 <= perm < 1024 && !IsPointer(perm)
      modifies this
      ensures Valid() == true
      ensures ok ==> Changed(m, View(), r, lo, a + 1) == true && FreshPages(View(), r, lo, a + 1, WithV(perm)) == true
      ensures !ok ==> Changed(m, View(), r, 0, 0) == true
    {
      ghost var k := View();
      assert SamePage(m, k, r, a) && !Maps(m, r, a);
      var q := MapFresh(r, a, seq(PGSIZE, _ => 0), perm);
      ghost var n := View();
      if q == 0 {
        ChangedTwice(m, k, n, r, lo, a, 0, 0);
        var _ := Uvmdealloc(r, a * PGSIZE, lo * PGSIZE);
        ChangedTwice(m, n, View(), r, lo, a, lo, a);
        ChangedBack(m, View(), r, lo, a);
        return false;
      }
      ChangedTwice(m, k, n, r, lo, a, a, a + 1);
      FreshPagesNext(k, n, r, lo, a, WithV(perm));
      return true;
    }

    /** Zeroed pages mapped from oldsz up to newsz; if memory runs out, none is. */
    method Uvmalloc(r: int, oldsz: int, newsz: int, xperm: int) returns (sz: int)
      requires Valid() == true && IsRoot(View(), r) && 0 <= oldsz && 0 <= newsz <= USERTOP * PGSIZE
      requires NoneMapped(View(), r, PageRoundUp(oldsz), PageRoundUp(newsz)) == true && xperm in {0, 4, 8, 12}
      modifies this
      ensures Valid() == true && (sz == 0 || sz == if newsz < oldsz then oldsz else newsz)
      ensures newsz < oldsz ==> View() == old(View())
      ensures oldsz <= newsz == sz != 0 ==>
        && Changed(old(View()), View(), r, PageRoundUp(oldsz), PageRoundUp(newsz)) == true
        && FreshPages(View(), r, PageRoundUp(oldsz), PageRoundUp(newsz), WithV(18 + xperm)) == true
      ensures oldsz <= newsz && sz == 0 ==> Changed(old(View()), View(), r, 0, 0) == true
    {
      if newsz < oldsz {
        return oldsz;
      }
      var lo := PageRoundUp(oldsz);
      var a := lo;
      ghost var m := View();
      NothingChanged(m, r, lo, lo);
      while a * PGSIZE < newsz
        invariant lo <= a <= PageRoundUp(newsz) && Valid() == true && Changed(m, View(), r, lo, a) == true
        invariant FreshPages(View(), r, lo, a, WithV(18 + xperm)) == true
        decreases newsz - a * PGSIZE
      {
        var ok := GrowTurn(m, r, lo, a, 18 + xperm);
        if !ok {
          return 0;
        }
        a := a + 1;
      }
      if newsz == 0 {
        NothingChanged(m, r, 0, 0);
      }
      return newsz;
    }

    /** walk without alloc, and the entry it finds if that is valid. */
    method Lookup(r: int, v: int) returns (e: int)
      requires Valid() == true && IsRoot(View(), r) && 0 <= v < MAXV
      modifies this
      ensures Valid() == true && View() == old(View()) && freelist == old(freelist) && e == Trans(View(), r, v)
      ensures V(e) == Maps(View(), r, v)
    {
      var pt := Walk(r, v, false);
      e := 0;
      if pt != 0 && V(PteAt(pages, pt, PX0(v))) {
        e := PteAt(pages, pt, PX0(v));
      }
    }

    /** Page i of the tree o, mapped by entry e, copied to the tree r. */
    method CopyPage(o: int, r: int, i: int, e: int) returns (ok: bool)
      requires Valid() == true && IsRoot(View(), o) && IsRoot(View(), r) && 0 <= i < USERTOP && !Maps(View(), r, i)
      requires Maps(View(), o, i) && e == Trans(View(), o, i)
      modifies this
      ensures Valid() == true
      ensures ok ==> Changed(old(View()), View(), r, i, i + 1) == true && Copied(old(View()), View(), o, r, i) == true
      ensures !ok ==> Changed(old(View()), View(), r, 0, 0) == true
    {
      UserPage(View(), o, i);
      var q := MapFresh(r, i, pages[Ppn(e)].bytes, Flags(e));
      return q != 0;
    }

    /** One turn of uvmcopy's loop. */
    method CopyTurn(ghost m: Vm, o: int, r: int, i: int) returns (ok: bool)
      requires Valid() == true && o != r && IsRoot(m, r) && CopiedTo(m, View(), o, r, i) == true && 0 <= i < USERTOP
      requires Changed(m, View(), r, 0, i) == true && !Maps(m, r, i)
      modifies this
      ensures Valid() == true
      ensures ok ==> Changed(m, View(), r, 0, i + 1) == true && CopiedTo(m, View(), o, r, i + 1) == true
      ensures !ok ==> Changed(m, View(), r, 0, i) == true
    {
      ghost var k := View();
      assert SamePage(m, k, o, i) && SamePage(m, k, r, i);
      var e := Lookup(o, i);
      if !V(e) {
        CopiedNone(m, k, o, r, i);
        NothingChanged(k, r, i, i + 1);
      } else {
        ok := CopyPage(o, r, i, e);
        if !ok {
          ChangedTwice(m, k, View(), r, 0, i, 0, 0);
          return;
        }
        CopiedFrom(m, k, View(), o, r, i);
      }
      ChangedTwice(m, k, View(), r, 0, i, i, i + 1);
      CopiedNext(m, k, View(), o, r, i);
      ok := true;
    }

    /** The mapped pages of o below sz copied to the empty tree r; if memory runs out, none is. */
    method Uvmcopy(o: int, r: int, sz: int) returns (ok: bool)
      requires Valid() == true && o != r && IsRoot(View(), o) && IsRoot(View(), r) && 0 <= sz <= USERTOP * PGSIZE
      requires NoneMapped(View(), r, 0, PageRoundUp(sz)) == true
      modifies this
      ensures Valid() == true
      ensures ok ==> Changed(old(View()), View(), r, 0, PageRoundUp(sz)) == true
      ensures ok ==> CopiedTo(old(View()), View(), o, r, PageRoundUp(sz)) == true
      ensures !ok ==> Changed(old(View()), View(), r, 0, 0) == true
    {
      ghost var m := View();
      NothingChanged(m, r, 0, 0);
      var i := 0;
      while i * PGSIZE < sz
        invariant 0 <= i <= PageRoundUp(sz) && Valid() == true
        invariant Changed(m, View(), r, 0, i) == true && CopiedTo(m, View(), o, r, i) == true
        decreases sz - i * PGSIZE
      {
        ok := CopyTurn(m, o, r, i);
        if !ok {
          ghost var n := View();
          Uvmunmap(r, 0, i);
          ChangedTwice(m, n, View(), r, 0, i, 0, i);
          ChangedBack(m, View(), r, 0, i);
          return;
        }
        i := i + 1;
      }
      ok := true;
    }
  }
}
