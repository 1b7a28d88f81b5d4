/** Making and freeing a whole user page table: uvmcreate, freewalk and uvmfree of kernel/vm.c. */
module Teardown {
  import opened VmSpec
  import Mem = Memory

  /** The slot of entry i of the table in slot s. */
  function Child(s: Slot, i: int): Slot {
    match s
    case Root(r) => Mid(r, i)
    case Mid(r, j) => Low(r, j, i)
    case _ => Other
  }

  /** Slot t lies under one of the first n entries of the table in slot s. */
  predicate UnderFirst(s: Slot, t: Slot, n: int) {
    match s
    case Root(r) => (t.Mid? || t.Low?) && t.r == r && t.i < n
    case Mid(r, i) => t.Low? && t.r == r && t.i == i && t.j < n
    case _ => false
  }

  /** Slot t is s or a table below it. */
  predicate Under(s: Slot, t: Slot) {
    t == s || UnderFirst(s, t, ENTRIES)
  }

  function Level(s: Slot): nat {
    if s.Root? then 2 else if s.Mid? then 1 else 0
  }

  predicate IsTable(s: Slot) {
    s.Root? || s.Mid? || s.Low?
  }

  /** Nothing is mapped by the tree r. */
  predicate EmptyTree(m: Vm, r: int) {
    NoneMapped(m, r, 0, TREEV)
  }

  /** The pages of the tables at and below s are as in m. */
  ghost predicate Intact(m: Vm, pages: seq<Page>, role: map<int, Slot>, s: Slot) {
    forall q | q in m.role && Under(s, m.role[q]) ::
      q in role && 0 <= q < |pages| && q < |m.pages| && pages[q] == m.pages[q]
  }

  /** From role to role', the pages under the first n entries of s, as in m, went out of use. */
  ghost predicate Released(m: Vm, role: map<int, Slot>, role': map<int, Slot>, s: Slot, n: int) {
    && (forall q :: q in role' <==> q in role && !(q in m.role && UnderFirst(s, m.role[q], n)))
    && (forall q | q in role' :: role'[q] == role[q])
  }

  /** The pages still in use, except p, hold what they held. */
  ghost predicate Others(pages: seq<Page>, pages': seq<Page>, role': map<int, Slot>, p: int) {
    |pages'| == |pages| && forall q | q in role' && q != p && 0 <= q < |pages| :: pages'[q] == pages[q]
  }

  lemma ChildIs(m: Vm, s: Slot, p: int, i: int)
    requires Owned(m) && InRange(m, s) && IsTable(s) && p == At(m.pages, s) != -1 && 0 <= i < ENTRIES
             && EmptyTree(m, s.r)
    ensures p in m.role && 0 <= p < |m.pages| && m.pages[p].Table? && |m.pages[p].ptes| == ENTRIES
    ensures var e := m.pages[p].ptes[i];
      V(e) ==> !s.Low? && IsPointer(e) && InRange(m, Child(s, i)) && At(m.pages, Child(s, i)) == Ppn(e) >= 0
    ensures var e := m.pages[p].ptes[i]; V(e) ==> Ppn(e) in m.role && m.role[Ppn(e)] == Child(s, i)
    ensures var e := m.pages[p].ptes[i]; !V(e) && !s.Low? ==> At(m.pages, Child(s, i)) == -1
  {
    if s.Low? {
      PxOnto(s.i, s.j, i);
      assert !Maps(m, s.r, s.i * 262144 + s.j * 512 + i);
    }
  }

  /** A slot under entry i is under the child there. */
  lemma UnderNext(s: Slot, t: Slot, i: int)
    requires 0 <= i < ENTRIES
    requires t.Mid? ==> 0 <= t.i < ENTRIES
    requires t.Low? ==> 0 <= t.i < ENTRIES && 0 <= t.j < ENTRIES
    ensures UnderFirst(s, t, i + 1) <==> UnderFirst(s, t, i) || (!s.Low? && IsTable(s) && Under(Child(s, i), t))
  {
  }

  /** Where an entry is empty there is no table below it. */
  lemma NoChild(m: Vm, s: Slot, p: int, i: int, q: int)
    requires Owned(m) && InRange(m, s) && IsTable(s) && p == At(m.pages, s) != -1 && 0 <= i < ENTRIES
             && EmptyTree(m, s.r)
    requires q in m.role && 0 <= p < |m.pages| && PteAt(m.pages, p, i) % 2 == 0
    ensures UnderFirst(s, m.role[q], i + 1) <==> UnderFirst(s, m.role[q], i)
  {
    ChildIs(m, s, p, i);
    if m.role[q] != Other { assert At(m.pages, m.role[q]) == q; }
  }

  /** Intact tables stay so under each child while its elder siblings are released. */
  lemma ChildIntact(m: Vm, pages0: seq<Page>, role0: map<int, Slot>, pages: seq<Page>, role: map<int, Slot>, s: Slot,
                    p: int, i: int)
    requires Owned(m) && InRange(m, s) && (s.Root? || s.Mid?) && p in m.role && m.role[p] == s && 0 <= i < ENTRIES
    requires Intact(m, pages0, role0, s) && Released(m, role0, role, s, i) && Others(pages0, pages, role, p)
    requires |pages0| == |m.pages|
    ensures Intact(m, pages, role, Child(s, i)) == true
  {
    forall q | q in m.role && Under(Child(s, i), m.role[q])
      ensures q in role && 0 <= q < |pages| && q < |m.pages| && pages[q] == m.pages[q]
    {
      assert Under(s, m.role[q]);
    }
  }

  lemma ReleasedNext(m: Vm, role0: map<int, Slot>, role: map<int, Slot>, role': map<int, Slot>, s: Slot, i: int)
    requires Owned(m) && InRange(m, s) && (s.Root? || s.Mid?) && 0 <= i < ENTRIES
    requires Released(m, role0, role, s, i) && Freed(m, role, role', Child(s, i))
    ensures Released(m, role0, role', s, i + 1) == true
  {
    forall q | q in m.role
      ensures UnderFirst(s, m.role[q], i + 1) <==> UnderFirst(s, m.role[q], i) || Under(Child(s, i), m.role[q])
    {
      assert m.role[q] != Other ==> InRange(m, m.role[q]);
      UnderNext(s, m.role[q], i);
    }
  }

  /** From role to role', the pages of the tables at and below s, as in m, went out of use. */
  ghost predicate Freed(m: Vm, role: map<int, Slot>, role': map<int, Slot>, s: Slot) {
    && (forall q :: q in role' <==> q in role && !(q in m.role && Under(s, m.role[q])))
    && (forall q | q in role' :: role'[q] == role[q])
  }

  lemma ReleasedSkip(m: Vm, role0: map<int, Slot>, role: map<int, Slot>, s: Slot, p: int, i: int)
    requires Owned(m) && InRange(m, s) && IsTable(s) && p == At(m.pages, s) != -1 && 0 <= i < ENTRIES
             && EmptyTree(m, s.r)
    requires Released(m, role0, role, s, i) && 0 <= p < |m.pages| && PteAt(m.pages, p, i) % 2 == 0
    ensures Released(m, role0, role, s, i + 1) == true
  {
    forall q | q in m.role ensures UnderFirst(s, m.role[q], i + 1) <==> UnderFirst(s, m.role[q], i) {
      NoChild(m, s, p, i, q);
    }
  }

  /** One turn of freewalk's loop. */
  method FreeEntry(k: Mem.Memory, p: int, i: int, ghost m: Vm, ghost s: Slot, ghost pages0: seq<Page>,
                   ghost role0: map<int, Slot>)
    requires AllocOk(k.View(), k.freelist, k.refcount) == true && |k.pages| == |m.pages| == |pages0|
             && k.first == m.first
    requires Owned(m) == true && InRange(m, s) && IsTable(s) && p == At(m.pages, s) != -1 && EmptyTree(m, s.r) == true
    requires Intact(m, pages0, role0, s) == true && Released(m, role0, k.role, s, i) == true
             && Others(pages0, k.pages, k.role, p) == true
    requires 0 <= i < ENTRIES && p in k.role && 0 <= p < |k.pages| && k.pages[p].Table? && |k.pages[p].ptes| == ENTRIES
    requires p in m.role && m.role[p] == s && m.pages[p].Table? && |m.pages[p].ptes| == ENTRIES
    requires forall j | i <= j < ENTRIES :: k.pages[p].ptes[j] == m.pages[p].ptes[j]
    modifies k
    ensures AllocOk(k.View(), k.freelist, k.refcount) == true && |k.pages| == |m.pages|
    ensures Released(m, role0, k.role, s, i + 1) == true && Others(pages0, k.pages, k.role, p) == true
    ensures p in k.role && k.pages[p].Table? && |k.pages[p].ptes| == ENTRIES
    ensures forall j | i < j < ENTRIES :: k.pages[p].ptes[j] == m.pages[p].ptes[j]
    decreases Level(s), 0
  {
    ChildIs(m, s, p, i);
    var e := k.pages[p].ptes[i];
    if V(e) && IsPointer(e) {
      ChildIntact(m, pages0, role0, k.pages, k.role, s, p, i);
      ghost var role := k.role;
      Freewalk(k, Ppn(e), m, Child(s, i));
      ReleasedNext(m, role0, role, k.role, s, i);
      assert p in k.role && k.pages[p] == old(k.pages[p]);
      ClearEntry(k, p, i);
    } else {
      // A valid entry that is no pointer would be the "leaf" panic.
      assert !V(e);
      ReleasedSkip(m, role0, k.role, s, p, i);
    }
  }

  method ClearEntry(k: Mem.Memory, p: int, i: int)
    requires AllocOk(k.View(), k.freelist, k.refcount) == true && 0 <= p < |k.pages| && k.pages[p].Table?
             && 0 <= i < |k.pages[p].ptes|
    modifies k
    ensures AllocOk(k.View(), k.freelist, k.refcount) == true && k.role == old(k.role)
    ensures |k.pages| == |old(k.pages)| && k.pages == old(k.pages)[p := Table(old(k.pages[p].ptes)[i := 0])]
  {
    ghost var h := k.View();
    k.pages := SetPte(k.pages, p, i, 0);
    SameUseOk(h, k.View(), k.freelist, k.refcount);
  }

  /** Frees the table in page p, of slot s of a tree that maps nothing, and every table below it. */
  method Freewalk(k: Mem.Memory, p: int, ghost m: Vm, ghost s: Slot)
    requires AllocOk(k.View(), k.freelist, k.refcount) == true && |k.pages| == |m.pages| && k.first == m.first
    requires Owned(m) == true && InRange(m, s) && IsTable(s) && p == At(m.pages, s) != -1 && EmptyTree(m, s.r) == true
    requires Intact(m, k.pages, k.role, s) == true
    modifies k
    ensures AllocOk(k.View(), k.freelist, k.refcount) == true && |k.pages| == |m.pages|
    ensures Freed(m, old(k.role), k.role, s) == true
    ensures forall q | q in k.role && 0 <= q < |k.pages| :: k.pages[q] == old(k.pages[q])
    decreases Level(s), 1
  {
    ghost var pages0, role0 := k.pages, k.role;
    ChildIs(m, s, p, 0);
    assert Under(s, m.role[p]);
    var i := 0;
    while i < ENTRIES
      invariant 0 <= i <= ENTRIES && AllocOk(k.View(), k.freelist, k.refcount) == true && |k.pages| == |m.pages|
      invariant Released(m, role0, k.role, s, i) == true && Others(pages0, k.pages, k.role, p) == true
      invariant p in k.role && k.pages[p].Table? && |k.pages[p].ptes| == ENTRIES
      invariant forall j | i <= j < ENTRIES :: k.pages[p].ptes[j] == m.pages[p].ptes[j]
    {
      FreeEntry(k, p, i, m, s, pages0, role0);
      i := i + 1;
    }
    k.Kfree(p);
  }

  /** n is m without the tree r: its pages are out of use, and every other tree is as it was. */
  ghost predicate WithoutTree(m: Vm, n: Vm, r: int) {
    && Owned(m) && Owned(n) && |n.pages| == |m.pages| && n.first == m.first
    && (forall q | q in n.role :: q in m.role && n.role[q] == m.role[q] && (n.role[q] != Other ==> n.role[q].r != r))
    && (forall q | q in m.role && q !in n.role :: m.role[q] != Other && m.role[q].r == r)
    && (forall a, w | IsRoot(m, a) && a != r && 0 <= w < TREEV :: SamePage(m, n, a, w))
  }

  /** The walk of another tree does not see the pages of r. */
  lemma OtherTree(m: Vm, n: Vm, r: int, a: int, v: int)
    requires Owned(m) && IsRoot(m, a) && a != r && 0 <= v < TREEV && |n.pages| == |m.pages|
    requires forall q | q in m.role && m.role[q] != Other && m.role[q].r != r :: q in n.role && n.pages[q] == m.pages[q]
    ensures Target(n.pages, a, PX2(v)) == Target(m.pages, a, PX2(v))
    ensures LowOf(n.pages, a, PX2(v), PX1(v)) == LowOf(m.pages, a, PX2(v), PX1(v))
    ensures LeafPte(n.pages, a, v) == LeafPte(m.pages, a, v)
  {
    PathOwned(m, a, PX2(v), PX1(v));
  }

  /** Which pages a freed tree leaves in use. */
  lemma FreedRoles(m: Vm, n: Vm, r: int, q: int)
    requires Owned(m) && IsRoot(m, r) && EmptyTree(m, r) && Freed(m, m.role, n.role, Root(r)) && q in m.role
    ensures q in n.role <==> m.role[q] == Other || m.role[q].r != r
  {
    var t := m.role[q];
    if t != Other {
      assert At(m.pages, t) == q;
      if t.Leaf? { assert Maps(m, t.r, t.v); }
    }
  }

  lemma TreeGone(m: Vm, n: Vm, r: int)
    requires Owned(m) == true && IsRoot(m, r) && EmptyTree(m, r) && Freed(m, m.role, n.role, Root(r)) == true
    requires |n.pages| == |m.pages| && n.first == m.first
    requires forall q | q in n.role && 0 <= q < |n.pages| :: n.pages[q] == m.pages[q]
    ensures Owned(n)
    ensures forall a, w | IsRoot(m, a) && a != r && 0 <= w < TREEV :: LeafPte(n.pages, a, w) == LeafPte(m.pages, a, w)
  {
    forall q | q in m.role ensures q in n.role <==> m.role[q] == Other || m.role[q].r != r {
      FreedRoles(m, n, r, q);
    }
    forall a | IsRoot(n, a) ensures IsRoot(m, a) && a != r {
    }
    forall t | InRange(n, t) ensures InRange(m, t) && t.r != r && At(n.pages, t) == At(m.pages, t) {
      ThroughParts(m, t);
      OtherTree(m, n, r, t.r, Through(t));
    }
    forall a, w | IsRoot(m, a) && a != r && 0 <= w < TREEV ensures LeafPte(n.pages, a, w) == LeafPte(m.pages, a, w) {
      OtherTree(m, n, r, a, w);
    }
  }

  lemma TreeGoneOthers(m: Vm, n: Vm, r: int)
    requires Owned(m) && IsRoot(m, r) && EmptyTree(m, r) && Freed(m, m.role, n.role, Root(r)) == true
    requires |n.pages| == |m.pages| && n.first == m.first
    requires forall q | q in n.role && 0 <= q < |n.pages| :: n.pages[q] == m.pages[q]
    ensures WithoutTree(m, n, r) == true
  {
    TreeGone(m, n, r);
    forall q | q in m.role ensures q in n.role <==> m.role[q] == Other || m.role[q].r != r {
      FreedRoles(m, n, r, q);
    }
    forall a, w | IsRoot(m, a) && a != r && 0 <= w < TREEV ensures SamePage(m, n, a, w) {
      if w < USERTOP && Maps(m, a, w) { UserPage(m, a, w); }
    }
  }

  /** Unmapping user pages first and then freeing the tables takes the whole tree away. */
  lemma UnmappedThenGone(m: Vm, h: Vm, n: Vm, r: int, hi: int)
    requires Changed(m, h, r, 0, hi) && LeavesGone(m.role, h.role, r) && WithoutTree(h, n, r)
    ensures WithoutTree(m, n, r) == true
  {
    forall a, w | IsRoot(m, a) && a != r && 0 <= w < TREEV ensures SamePage(m, n, a, w) {
      assert SamePage(m, h, a, w) && SamePage(h, n, a, w);
    }
  }

  /** Frees the user pages below sz, where all of them are, and the tree itself. */
  method Uvmfree(k: Mem.Memory, r: int, sz: int)
    requires k.Valid() == true && IsRoot(k.View(), r) && 0 <= sz <= USERTOP * PGSIZE
    requires NoneMapped(k.View(), r, Mem.Memory.PageRoundUp(sz), TREEV) == true
    modifies k
    ensures k.Valid() == true && WithoutTree(old(k.View()), k.View(), r) == true
  {
    ghost var m := k.View();
    NothingChanged(m, r, 0, 0);
    if sz > 0 {
      k.Uvmunmap(r, 0, Mem.Memory.PageRoundUp(sz));
    }
    ghost var h := k.View();
    AllUnmapped(m, h, r, Mem.Memory.PageRoundUp(sz));
    Freewalk(k, r, h, Root(r));
    TreeGone(h, k.View(), r);
    TreeGoneOthers(h, k.View(), r);
    UnmappedThenGone(m, h, k.View(), r, Mem.Memory.PageRoundUp(sz));
  }

  lemma AllUnmapped(m: Vm, h: Vm, r: int, hi: int)
    requires Changed(m, h, r, 0, hi) && IsRoot(m, r) && 0 <= hi <= USERTOP
    requires NoneMapped(m, r, hi, TREEV) && NoneMapped(h, r, 0, hi)
    ensures EmptyTree(h, r) == true && Intact(h, h.pages, h.role, Root(r)) == true
  {
    forall w | 0 <= w < TREEV ensures !Maps(h, r, w) {
      if w >= hi {
        assert SamePage(m, h, r, w);
        assert !Maps(m, r, w);
      }
    }
  }

  /** A new tree that maps nothing, or 0. */
  method Uvmcreate(k: Mem.Memory) returns (r: int)
    requires k.Valid() == true
    modifies k
    ensures k.Valid() == true && (r == 0 <==> old(k.freelist) == [])
    ensures r == 0 ==> k.View() == old(k.View())
    ensures r != 0 ==>
              WithoutTree(k.View(), old(k.View()), r) == true && IsRoot(k.View(), r) && EmptyTree(k.View(), r) == true
  {
    ghost var m := k.View();
    r := k.Kalloc();
    if r == 0 {
      return;
    }
    ghost var h := k.View();
    k.pages := k.pages[r := ZeroTable()];
    k.role := k.role[r := Root(r)];
    NewTree(m, k.View(), r);
    SameUseOk(h, k.View(), k.freelist, k.refcount);
  }

  lemma NewTreeAt(m: Vm, r: int, a: int, v: int)
    requires Owned(m) && m.first <= r < |m.pages| && r !in m.role && (IsRoot(m, a) || a == r) && 0 <= v < TREEV
    ensures var n := m.pages[r := ZeroTable()];
      && Target(n, a, PX2(v)) == (if a == r then -1 else Target(m.pages, a, PX2(v)))
      && LowOf(n, a, PX2(v), PX1(v)) == (if a == r then -1 else LowOf(m.pages, a, PX2(v), PX1(v)))
      && LeafPte(n, a, v) == (if a == r then 0 else LeafPte(m.pages, a, v))
  {
    if a != r { UnusedFrame(m, r, ZeroTable(), a, v); }
  }

  lemma NewTreeOwned(m: Vm, n: Vm, r: int)
    requires Owned(m) && m.first <= r < |m.pages| && r !in m.role && n.first == m.first
    requires n.pages == m.pages[r := ZeroTable()] && n.role == m.role[r := Root(r)]
    ensures Owned(n)
    ensures forall p | p in m.role && m.role[p] != Other :: m.role[p].r != r
    ensures forall a :: IsRoot(n, a) <==> IsRoot(m, a) || a == r
  {
    forall a ensures IsRoot(n, a) <==> IsRoot(m, a) || a == r {
    }
    forall t | InRange(n, t) && t.r != r ensures InRange(m, t) && At(n.pages, t) == At(m.pages, t) {
      ThroughParts(n, t);
      NewTreeAt(m, r, t.r, Through(t));
    }
    forall t | InRange(n, t) && t.r == r ensures At(n.pages, t) == if t == Root(r) then r else -1 {
      ThroughParts(n, t);
      NewTreeAt(m, r, r, Through(t));
    }
    forall p | p in m.role && m.role[p] != Other ensures m.role[p].r != r {
      assert InRange(m, m.role[p]);
    }
  }

  lemma NewTree(m: Vm, n: Vm, r: int)
    requires Owned(m) == true && m.first <= r < |m.pages| && r !in m.role && n.first == m.first
    requires n.pages == m.pages[r := ZeroTable()] && n.role == m.role[r := Root(r)]
    ensures Owned(n) == true && WithoutTree(n, m, r) == true && IsRoot(n, r) && EmptyTree(n, r) == true
  {
    NewTreeOwned(m, n, r);
    forall w | 0 <= w < TREEV ensures !Maps(n, r, w) {
      NewTreeAt(m, r, r, w);
    }
    forall a, w | IsRoot(n, a) && a != r && 0 <= w < TREEV ensures SamePage(n, m, a, w) {
      NewTreeAt(m, r, a, w);
      if w < USERTOP && Maps(m, a, w) { UserPage(m, a, w); }
    }
  }
}
