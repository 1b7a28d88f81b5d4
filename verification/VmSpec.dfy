/** Page tables and page ownership of kernel/vm.c: the three-level trees of section 4.4 of the
    RISC-V Privileged Architecture v1.12, as they lie in physical pages. Addresses are counted in
    pages: v is a virtual and p a physical page number. */
module VmSpec {

  const PGSIZE := 4096
  const ENTRIES := 512
  /** Virtual pages below MAXVA, below the trapframe page, and in the whole tree. */
  const MAXV := 0x400_0000
  const USERTOP := MAXV - 2
  const TREEV := ENTRIES * ENTRIES * ENTRIES

  /** Physical memory is typed by use: a page-table page or a page of bytes. */
  datatype Page = Table(ptes: seq<int>) | Data(bytes: seq<int>)

  // Page-table entries: the page number above ten flag bits.

  function Flags(e: int): int { e % 1024 }
  function Ppn(e: int): int { e / 1024 }
  predicate V(e: int) { Flags(e) % 2 == 1 }
  /** The flags above V: R, W, X, U and on. */
  function Rights(e: int): int { Flags(e) / 2 }
  predicate Writable(e: int) { Rights(e) / 2 % 2 == 1 }
  predicate User(e: int) { Rights(e) / 8 % 2 == 1 }
  /** None of R, W and X: the entry points to a lower table. */
  predicate IsPointer(e: int) { Rights(e) % 8 == 0 }

  /** `perm | PTE_V` */
  function WithV(perm: int): int {
    if perm % 2 == 1 then perm else perm + 1
  }

  /** The valid entry for page p with permission bits perm. */
  function MkPte(p: int, perm: int): (e: int)
    requires 0 <= p && 0 <= perm < 1024
    ensures V(e) && Ppn(e) == p && Flags(e) == WithV(perm)
  {
    p * 1024 + WithV(perm)
  }

  lemma WithVKeeps(p: int, perm: int)
    requires 0 <= p && 0 <= perm < 1024
    ensures Rights(MkPte(p, perm)) == Rights(perm)
  {
  }

  // The three nine-bit indices of a virtual page (PX).

  function PX0(v: int): int { v % 512 }
  function PX1(v: int): int { v / 512 % 512 }
  function PX2(v: int): int { v / 262144 % 512 }

  /** The indices determine the page. */
  lemma PxInjective(v: int, w: int)
    requires 0 <= v < TREEV && 0 <= w < TREEV && PX0(v) == PX0(w) && PX1(v) == PX1(w) && PX2(v) == PX2(w)
    ensures v == w
  {
    PxParts(v);
    PxParts(w);
  }

  lemma PxParts(v: int)
    requires 0 <= v < TREEV
    ensures v == PX2(v) * 262144 + PX1(v) * 512 + PX0(v)
  {
    assert v / 262144 == v / 512 / 512;
  }

  /** And every choice of indices is some page. */
  lemma PxOnto(i: int, j: int, k: int)
    requires 0 <= i < ENTRIES && 0 <= j < ENTRIES && 0 <= k < ENTRIES
    ensures var v := i * 262144 + j * 512 + k; 0 <= v < TREEV && PX2(v) == i && PX1(v) == j && PX0(v) == k
  {
    var v := i * 262144 + j * 512 + k;
    assert v / 512 == i * 512 + j;
    assert v / 262144 == v / 512 / 512;
  }

  // Trees. A table is named by its root page.

  function PteAt(pages: seq<Page>, p: int, i: int): int {
    if 0 <= p < |pages| && pages[p].Table? && 0 <= i < |pages[p].ptes| then pages[p].ptes[i] else 0
  }

  /** The page an entry points to, or -1. */
  function Target(pages: seq<Page>, p: int, i: int): int {
    var e := PteAt(pages, p, i); if V(e) then Ppn(e) else -1
  }

  /** The level-0 table that walk reaches for the indices i and j, or -1. */
  function LowOf(pages: seq<Page>, r: int, i: int, j: int): int {
    Target(pages, Target(pages, r, i), j)
  }

  /** The entry that walk finds for v; 0 when a table is missing. */
  function LeafPte(pages: seq<Page>, r: int, v: int): int {
    PteAt(pages, LowOf(pages, r, PX2(v), PX1(v)), PX0(v))
  }

  /** What a page is used for: the root of a tree, a table of level 1 or 0, a user page, or
      something outside the user trees (a trapframe, a kernel stack, a page not yet mapped). */
  datatype Slot = Root(r: int) | Mid(r: int, i: int) | Low(r: int, i: int, j: int) | Leaf(r: int, v: int) | Other

  /** Physical memory and the use of each allocated page; pages from `first` on are allocatable. */
  datatype Vm = Vm(pages: seq<Page>, role: map<int, Slot>, first: int)

  predicate IsRoot(m: Vm, r: int) {
    r in m.role && m.role[r] == Root(r)
  }

  predicate InRange(m: Vm, s: Slot) {
    match s
    case Root(r) => IsRoot(m, r)
    case Mid(r, i) => IsRoot(m, r) && 0 <= i < ENTRIES
    case Low(r, i, j) => IsRoot(m, r) && 0 <= i < ENTRIES && 0 <= j < ENTRIES
    case Leaf(r, v) => IsRoot(m, r) && 0 <= v < USERTOP
    case Other => false
  }

  /** The page in a slot, or -1. */
  function At(pages: seq<Page>, s: Slot): int {
    match s
    case Root(r) => r
    case Mid(r, i) => Target(pages, r, i)
    case Low(r, i, j) => LowOf(pages, r, i, j)
    case Leaf(r, v) => Target(pages, LowOf(pages, r, PX2(v), PX1(v)), PX0(v))
    case Other => -1
  }

  /** Tables of the upper levels hold pointers only and tables of level 0 hold none. */
  predicate KindOk(x: Page, s: Slot) {
    && (s.Root? || s.Mid? || s.Low? ==> x.Table? && |x.ptes| == ENTRIES && forall i | 0 <= i < ENTRIES ::
          x.ptes[i] >= 0)
    && (s.Root? || s.Mid? ==> forall i | 0 <= i < ENTRIES :: V(x.ptes[i]) ==> IsPointer(x.ptes[i]))
    && (s.Low? ==> forall i | 0 <= i < ENTRIES :: V(x.ptes[i]) ==> !IsPointer(x.ptes[i]))
    && (s.Leaf? ==> x.Data? && |x.bytes| == PGSIZE)
  }

  /** Page ownership: each page in a slot of a tree is owned by that slot alone. */
  ghost predicate Owned(m: Vm) {
    && 0 < m.first
    && (forall s | InRange(m, s) && At(m.pages, s) != -1 :: At(m.pages, s) in m.role && m.role[At(m.pages, s)] == s)
    && (forall p | p in m.role :: m.first <= p < |m.pages| && KindOk(m.pages[p], m.role[p]))
    && (forall p | p in m.role && m.role[p] != Other :: InRange(m, m.role[p]) && At(m.pages, m.role[p]) == p)
  }

  function ZeroTable(): (x: Page) {
    Table(seq(ENTRIES, _ => 0))
  }

  /** The tables on the way to any slot are owned by the tree. */
  lemma PathOwned(m: Vm, r: int, i: int, j: int)
    requires Owned(m) == true && IsRoot(m, r) && 0 <= i < ENTRIES && 0 <= j < ENTRIES
    ensures Target(m.pages, r, i) != -1 ==>
              Target(m.pages, r, i) in m.role && m.role[Target(m.pages, r, i)] == Mid(r, i)
    ensures LowOf(m.pages, r, i, j) != -1 ==>
              LowOf(m.pages, r, i, j) in m.role && m.role[LowOf(m.pages, r, i, j)] == Low(r, i, j)
    ensures LowOf(m.pages, r, i, j) != -1 ==> Target(m.pages, r, i) != -1
  {
    assert At(m.pages, Mid(r, i)) == Target(m.pages, r, i);
    assert At(m.pages, Low(r, i, j)) == LowOf(m.pages, r, i, j);
  }

  /** A page that is no table can change without any tree changing. */
  lemma UnusedFrame(m: Vm, q: int, x: Page, r: int, v: int)
    requires Owned(m) == true && IsRoot(m, r) && 0 <= v < TREEV && 0 <= q < |m.pages|
    requires q in m.role ==> m.role[q].Leaf? || m.role[q].Other?
    ensures var n := m.pages[q := x];
      && Target(n, r, PX2(v)) == Target(m.pages, r, PX2(v))
      && LowOf(n, r, PX2(v), PX1(v)) == LowOf(m.pages, r, PX2(v), PX1(v))
      && LeafPte(n, r, v) == LeafPte(m.pages, r, v)
  {
    PathOwned(m, r, PX2(v), PX1(v));
  }

  // Writing an entry.

  function SetPte(pages: seq<Page>, p: int, i: int, e: int): (n: seq<Page>)
    requires 0 <= p < |pages| && pages[p].Table? && 0 <= i < |pages[p].ptes|
    ensures |n| == |pages|
    ensures PteAt(n, p, i) == e
    ensures forall q, k :: q != p || k != i ==> PteAt(n, q, k) == PteAt(pages, q, k)
  {
    pages[p := Table(pages[p].ptes[i := e])]
  }

  /** A level-0 entry changes: no other translation does, in this tree or in another. */
  lemma SetLeafAt(m: Vm, r: int, v: int, e: int, r': int, v': int)
    requires Owned(m) == true && IsRoot(m, r) && 0 <= v < TREEV && LowOf(m.pages, r, PX2(v), PX1(v)) != -1
    requires IsRoot(m, r') && 0 <= v' < TREEV
    ensures var p := LowOf(m.pages, r, PX2(v), PX1(v));
      && 0 <= p < |m.pages| && m.pages[p].Table? && |m.pages[p].ptes| == ENTRIES
      && var n := SetPte(m.pages, p, PX0(v), e);
      && Target(n, r', PX2(v')) == Target(m.pages, r', PX2(v'))
      && LowOf(n, r', PX2(v'), PX1(v')) == LowOf(m.pages, r', PX2(v'), PX1(v'))
      && LeafPte(n, r', v') == if r' == r && v' == v then e else LeafPte(m.pages, r', v')
  {
    PathOwned(m, r, PX2(v), PX1(v));
    PathOwned(m, r', PX2(v'), PX1(v'));
    if PX0(v) == PX0(v') && PX1(v) == PX1(v') && PX2(v) == PX2(v') { PxInjective(v, v'); }
  }

  /** The table that holds the entry of a table slot, and the index of the entry. */
  function TableOf(pages: seq<Page>, s: Slot): int {
    match s
    case Mid(r, i) => r
    case Low(r, i, j) => Target(pages, r, i)
    case _ => -1
  }

  function IndexIn(s: Slot): int {
    match s
    case Mid(r, i) => i
    case Low(r, i, j) => j
    case _ => -1
  }

  ghost predicate CanLink(m: Vm, s: Slot, q: int) {
    && Owned(m) && (s.Mid? || s.Low?) && InRange(m, s) && At(m.pages, s) == -1 && TableOf(m.pages, s) != -1
    && m.first <= q < |m.pages| && q !in m.role
  }

  lemma TableOwned(m: Vm, s: Slot, q: int)
    requires CanLink(m, s, q) == true
    ensures var p := TableOf(m.pages, s);
      && p in m.role && p != q && 0 <= p < |m.pages| && m.pages[p].Table? && |m.pages[p].ptes| == ENTRIES
      && m.role[p] == (if s.Mid? then Root(s.r) else Mid(s.r, s.i)) && 0 <= IndexIn(s) < ENTRIES
  {
    if s.Low? { PathOwned(m, s.r, s.i, s.j); }
  }

  /** walk's new table: page q zeroed and linked into slot s. */
  ghost function Linked(m: Vm, s: Slot, q: int): (n: Vm)
    requires CanLink(m, s, q)
  {
    TableOwned(m, s, q);
    Vm(SetPte(m.pages[q := ZeroTable()], TableOf(m.pages, s), IndexIn(s), MkPte(q, 0)), m.role[q := s], m.first)
  }

  /** A new table fills its slot; it adds no translation and changes none. */
  lemma LinkedAt(m: Vm, s: Slot, q: int, r: int, v: int)
    requires CanLink(m, s, q) == true && IsRoot(m, r) && 0 <= v < TREEV
    ensures var n := Linked(m, s, q).pages;
      && Target(n, r, PX2(v)) == (if Mid(r, PX2(v)) == s then q else Target(m.pages, r, PX2(v)))
      && LowOf(n, r, PX2(v), PX1(v)) == (if Low(r, PX2(v), PX1(v)) == s then q else LowOf(m.pages, r, PX2(v), PX1(v)))
      && LeafPte(n, r, v) == LeafPte(m.pages, r, v)
  {
    TableOwned(m, s, q);
    PathOwned(m, r, PX2(v), PX1(v));
  }

  /** Some virtual page whose walk passes through slot t. */
  function Through(t: Slot): int {
    match t
    case Mid(r, i) => i * 262144
    case Low(r, i, j) => i * 262144 + j * 512
    case Leaf(r, v) => v
    case _ => 0
  }

  lemma ThroughParts(m: Vm, t: Slot)
    requires InRange(m, t)
    ensures 0 <= Through(t) < TREEV
    ensures t.Mid? ==> PX2(Through(t)) == t.i
    ensures t.Low? ==> PX2(Through(t)) == t.i && PX1(Through(t)) == t.j
  {
    if t.Mid? { PxOnto(t.i, 0, 0); }
    if t.Low? { PxOnto(t.i, t.j, 0); }
  }

  /** Pages with the same user translations: same trees, and every entry walk can find is the same. */
  ghost predicate SameMaps(m: Vm, n: Vm) {
    && (forall r :: IsRoot(n, r) <==> IsRoot(m, r))
    && (forall r, v | IsRoot(m, r) && 0 <= v < TREEV :: LeafPte(n.pages, r, v) == LeafPte(m.pages, r, v))
  }

  /** n has more table pages than m, and otherwise the same pages with the same contents. */
  ghost predicate Extends(m: Vm, n: Vm) {
    && Owned(n) && |n.pages| == |m.pages| && n.first == m.first && SameMaps(m, n)
    && (forall p | p in m.role :: p in n.role && n.role[p] == m.role[p])
    && (forall p | p in m.role && (m.role[p].Leaf? || m.role[p].Other?) :: n.pages[p] == m.pages[p])
    && (forall p | p in n.role && p !in m.role :: n.role[p].Mid? || n.role[p].Low?)
  }

  lemma LinkedSlot(m: Vm, s: Slot, q: int, t: Slot)
    requires CanLink(m, s, q) == true && InRange(m, t)
    ensures At(Linked(m, s, q).pages, t) == if t == s then q else At(m.pages, t)
  {
    ThroughParts(m, t);
    LinkedAt(m, s, q, t.r, Through(t));
    if t.Root? { TableOwned(m, s, q); }
  }

  lemma LinkedKinds(m: Vm, s: Slot, q: int, p: int)
    requires CanLink(m, s, q) == true && p in Linked(m, s, q).role
    ensures var n := Linked(m, s, q); 0 <= p < |n.pages| && KindOk(n.pages[p], n.role[p])
    ensures p != q && p != TableOf(m.pages, s) ==> Linked(m, s, q).pages[p] == m.pages[p]
  {
    TableOwned(m, s, q);
    WithVKeeps(q, 0);
  }

  lemma LinkedOwned(m: Vm, s: Slot, q: int)
    requires CanLink(m, s, q) == true
    ensures Extends(m, Linked(m, s, q)) == true
  {
    var n := Linked(m, s, q);
    TableOwned(m, s, q);
    forall t ensures InRange(n, t) == InRange(m, t) {
    }
    forall t | InRange(m, t) ensures At(n.pages, t) == if t == s then q else At(m.pages, t) {
      LinkedSlot(m, s, q, t);
    }
    forall p | p in n.role ensures 0 <= p < |n.pages| && KindOk(n.pages[p], n.role[p])
      ensures p != q && p != TableOf(m.pages, s) ==> n.pages[p] == m.pages[p]
    {
      LinkedKinds(m, s, q, p);
    }
    forall r, v | IsRoot(m, r) && 0 <= v < TREEV ensures LeafPte(n.pages, r, v) == LeafPte(m.pages, r, v) {
      LinkedAt(m, s, q, r, v);
    }
  }

  lemma ExtendsTwice(m: Vm, n: Vm, k: Vm)
    requires Extends(m, n) == true && Extends(n, k) == true
    ensures Extends(m, k) == true
  {
  }

  // Leaves.

  /** The level-0 entry of v set to e, with the page q put to use `s` or out of use. */
  ghost function WithLeaf(m: Vm, r: int, v: int, e: int, role: map<int, Slot>): Vm
    requires Owned(m) && IsRoot(m, r) && 0 <= v < TREEV && LowOf(m.pages, r, PX2(v), PX1(v)) != -1
  {
    SetLeafAt(m, r, v, e, r, v);
    Vm(SetPte(m.pages, LowOf(m.pages, r, PX2(v), PX1(v)), PX0(v), e), role, m.first)
  }

  ghost predicate CanMap(m: Vm, r: int, v: int, q: int, perm: int) {
    && Owned(m) && IsRoot(m, r) && 0 <= v < USERTOP && LowOf(m.pages, r, PX2(v), PX1(v)) != -1
    && !V(LeafPte(m.pages, r, v)) && q in m.role && m.role[q] == Other && 0 <= perm < 1024 && !IsPointer(perm)
    && m.pages[q].Data? && |m.pages[q].bytes| == PGSIZE
  }

  /** mappages of one page. */
  ghost function Mapped(m: Vm, r: int, v: int, q: int, perm: int): Vm
    requires CanMap(m, r, v, q, perm)
  {
    WithLeaf(m, r, v, MkPte(q, perm), m.role[q := Leaf(r, v)])
  }

  /** uvmunmap of one mapped page. */
  ghost function Unmapped(m: Vm, r: int, v: int): Vm
    requires Owned(m) && IsRoot(m, r) && 0 <= v < USERTOP && V(LeafPte(m.pages, r, v))
  {
    WithLeaf(m, r, v, 0, m.role[Ppn(LeafPte(m.pages, r, v)) := Other])
  }

  lemma LeafSlot(m: Vm, r: int, v: int, e: int, role: map<int, Slot>, t: Slot)
    requires Owned(m) == true && IsRoot(m, r) && 0 <= v < USERTOP && LowOf(m.pages, r, PX2(v), PX1(v)) != -1
             && InRange(m, t)
    ensures At(WithLeaf(m, r, v, e, role).pages, t) ==
            if t == Leaf(r, v) then (if V(e) then Ppn(e) else -1) else At(m.pages, t)
  {
    ThroughParts(m, t);
    SetLeafAt(m, r, v, e, t.r, Through(t));
  }

  lemma LeafKinds(m: Vm, r: int, v: int, e: int, p: int)
    requires Owned(m) == true && IsRoot(m, r) && 0 <= v < USERTOP && LowOf(m.pages, r, PX2(v), PX1(v)) != -1
    requires 0 <= e && (V(e) ==> !IsPointer(e))
    requires p in m.role
    ensures 0 <= p < |m.pages| && KindOk(WithLeaf(m, r, v, e, m.role).pages[p], m.role[p])
    ensures m.role[p].Leaf? || m.role[p].Other? ==> WithLeaf(m, r, v, e, m.role).pages[p] == m.pages[p]
  {
    SetLeafAt(m, r, v, e, r, v);
    PathOwned(m, r, PX2(v), PX1(v));
  }

  /** Setting one user entry: what it does to the maps, to the pages and to ownership. */
  ghost predicate OneLeafSet(m: Vm, n: Vm, r: int, v: int, e: int, q: int, s: Slot) {
    && Owned(m) && Owned(n) && |n.pages| == |m.pages| && n.first == m.first && q in m.role && n.role == m.role[q := s]
    && (forall a :: IsRoot(n, a) <==> IsRoot(m, a))
    && (forall a, w | IsRoot(m, a) && 0 <= w < TREEV ::
          LeafPte(n.pages, a, w) == if a == r && w == v then e else LeafPte(m.pages, a, w))
    && (forall p | p in m.role && (m.role[p].Leaf? || m.role[p].Other?) :: n.pages[p] == m.pages[p])
  }

  lemma MappedOwned(m: Vm, r: int, v: int, q: int, perm: int)
    requires CanMap(m, r, v, q, perm) == true
    ensures OneLeafSet(m, Mapped(m, r, v, q, perm), r, v, MkPte(q, perm), q, Leaf(r, v)) == true
  {
    var n := Mapped(m, r, v, q, perm);
    WithVKeeps(q, perm);
    forall t ensures InRange(n, t) == InRange(m, t) {
    }
    forall t | InRange(m, t) ensures At(n.pages, t) == if t == Leaf(r, v) then q else At(m.pages, t) {
      LeafSlot(m, r, v, MkPte(q, perm), m.role, t);
    }
    forall p | p in m.role ensures 0 <= p < |n.pages| && KindOk(n.pages[p], m.role[p])
      ensures m.role[p].Leaf? || m.role[p].Other? ==> n.pages[p] == m.pages[p]
    {
      LeafKinds(m, r, v, MkPte(q, perm), p);
    }
    forall a, w | IsRoot(m, a) && 0 <= w < TREEV
      ensures LeafPte(n.pages, a, w) == if a == r && w == v then MkPte(q, perm) else LeafPte(m.pages, a, w)
    {
      SetLeafAt(m, r, v, MkPte(q, perm), a, w);
    }
  }

  lemma UnmappedOwned(m: Vm, r: int, v: int)
    requires Owned(m) == true && IsRoot(m, r) && 0 <= v < USERTOP && V(LeafPte(m.pages, r, v))
    ensures var q := Ppn(LeafPte(m.pages, r, v));
      && q in m.role && m.role[q] == Leaf(r, v)
      && OneLeafSet(m, Unmapped(m, r, v), r, v, 0, q, Other) == true
  {
    var n, q := Unmapped(m, r, v), Ppn(LeafPte(m.pages, r, v));
    PathOwned(m, r, PX2(v), PX1(v));
    assert At(m.pages, Leaf(r, v)) == q;
    forall t ensures InRange(n, t) == InRange(m, t) {
    }
    forall t | InRange(m, t) ensures At(n.pages, t) == if t == Leaf(r, v) then -1 else At(m.pages, t) {
      LeafSlot(m, r, v, 0, m.role, t);
    }
    forall p | p in m.role ensures 0 <= p < |n.pages| && KindOk(n.pages[p], m.role[p])
      ensures m.role[p].Leaf? || m.role[p].Other? ==> n.pages[p] == m.pages[p]
    {
      LeafKinds(m, r, v, 0, p);
    }
    forall a, w | IsRoot(m, a) && 0 <= w < TREEV
      ensures LeafPte(n.pages, a, w) == if a == r && w == v then 0 else LeafPte(m.pages, a, w)
    {
      SetLeafAt(m, r, v, 0, a, w);
    }
  }

  // Pages that are not tables.

  /** Page q, not a table, has new contents and may have been taken into or out of use. */
  ghost predicate Retyped(m: Vm, n: Vm, q: int) {
    && Owned(m) && Owned(n) && n.first == m.first && SameMaps(m, n)
    && |n.pages| == |m.pages| && (forall p | 0 <= p < |m.pages| && p != q :: n.pages[p] == m.pages[p])
    && (forall p | p != q :: (p in n.role <==> p in m.role) && (p in m.role ==> n.role[p] == m.role[p]))
  }

  lemma RetypedOwned(m: Vm, q: int, x: Page, role: map<int, Slot>)
    requires Owned(m) && m.first <= q < |m.pages| && (q in m.role ==> m.role[q].Leaf? || m.role[q].Other?)
    requires
      || role == m.role
      || (role == m.role[q := Other] && q !in m.role)
      || (role == m.role - {q} && q in m.role && m.role[q] == Other)
    requires q in role ==> KindOk(x, role[q])
    ensures Retyped(m, Vm(m.pages[q := x], role, m.first), q) == true
  {
    var n := Vm(m.pages[q := x], role, m.first);
    forall t ensures InRange(n, t) == InRange(m, t) {
    }
    forall t | InRange(m, t) ensures At(n.pages, t) == At(m.pages, t) {
      ThroughParts(m, t);
      UnusedFrame(m, q, x, t.r, Through(t));
    }
    forall r, v | IsRoot(m, r) && 0 <= v < TREEV ensures LeafPte(n.pages, r, v) == LeafPte(m.pages, r, v) {
      UnusedFrame(m, q, x, r, v);
    }
  }

  // The allocator.

  /** Every allocatable page is on the free list with count 0, or in use with count 1. */
  ghost predicate AllocOk(m: Vm, free: seq<int>, ref: seq<int>) {
    && 0 < m.first && |ref| == |m.pages|
    && (forall i, j | 0 <= i < j < |free| :: free[i] != free[j])
    && (forall i | 0 <= i < |free| :: m.first <= free[i] < |m.pages| && free[i] !in m.role)
    && (forall p | m.first <= p < |m.pages| && p !in m.role :: p in free)
    && (forall p | m.first <= p < |m.pages| :: ref[p] == if p in m.role then 1 else 0)
  }

  lemma TakenOk(m: Vm, n: Vm, free: seq<int>, ref: seq<int>, q: int)
    requires AllocOk(m, free, ref) == true && |free| > 0 && q == free[0]
    requires |n.pages| == |m.pages| && n.first == m.first && n.role == m.role[q := Other]
    ensures q !in m.role && m.first <= q < |ref| && AllocOk(n, free[1..], ref[q := ref[q] + 1]) == true
  {
    forall p | m.first <= p < |m.pages| && p !in n.role ensures p in free[1..] {
      assert p in free;
    }
  }

  lemma GivenBackOk(m: Vm, n: Vm, free: seq<int>, ref: seq<int>, q: int)
    requires AllocOk(m, free, ref) == true && q in m.role && m.first <= q < |m.pages|
    requires |n.pages| == |m.pages| && n.first == m.first && n.role == m.role - {q}
    ensures AllocOk(n, [q] + free, ref[q := 0]) == true
  {
    forall p | m.first <= p < |m.pages| && p !in n.role ensures p in [q] + free {
      if p != q { assert p in free; }
    }
  }

  lemma SameUseOk(m: Vm, n: Vm, free: seq<int>, ref: seq<int>)
    requires AllocOk(m, free, ref) == true && |n.pages| == |m.pages| && n.first == m.first
    requires forall p :: p in n.role <==> p in m.role
    ensures AllocOk(n, free, ref) == true
  {
  }

  // What user code can see of memory.

  /** The translation of v, 0 if it has none. */
  function Trans(m: Vm, r: int, v: int): int {
    var e := LeafPte(m.pages, r, v); if V(e) then e else 0
  }

  predicate Maps(m: Vm, r: int, v: int) {
    V(LeafPte(m.pages, r, v))
  }

  /** A mapped user page is owned by its place in the tree. */
  lemma UserPage(m: Vm, r: int, v: int)
    requires Owned(m) == true && IsRoot(m, r) && 0 <= v < USERTOP && Maps(m, r, v)
    ensures var p := Ppn(Trans(m, r, v));
      && m.first <= p < |m.pages| && p in m.role && m.role[p] == Leaf(r, v)
      && m.pages[p].Data? && |m.pages[p].bytes| == PGSIZE
    ensures 0 <= Trans(m, r, v) && !IsPointer(Trans(m, r, v))
  {
    PathOwned(m, r, PX2(v), PX1(v));
    assert At(m.pages, Leaf(r, v)) == Ppn(Trans(m, r, v));
  }

  /** Bytes of a user page; a page not mapped reads as zeroes. */
  ghost function Bytes(m: Vm, r: int, v: int): (b: seq<int>)
    requires Owned(m) && IsRoot(m, r) && 0 <= v < USERTOP
    ensures |b| == PGSIZE
  {
    if Maps(m, r, v) then UserPage(m, r, v); m.pages[Ppn(Trans(m, r, v))].bytes else seq(PGSIZE, _ => 0)
  }

  ghost predicate SamePage(m: Vm, n: Vm, r: int, v: int)
    requires Owned(m) && Owned(n)
  {
    Trans(n, r, v) == Trans(m, r, v)
    && (v < USERTOP && IsRoot(m, r) && IsRoot(n, r) && 0 <= v ==> Bytes(n, r, v) == Bytes(m, r, v))
  }

  /** Nothing user code can see has changed, except in pages lo to hi of the tree r. */
  ghost predicate Changed(m: Vm, n: Vm, r: int, lo: int, hi: int) {
    && Owned(m) && Owned(n) && |n.pages| == |m.pages| && n.first == m.first
    && (forall a :: IsRoot(n, a) <==> IsRoot(m, a))
    && (forall a, w | IsRoot(m, a) && 0 <= w < TREEV && !(a == r && lo <= w < hi) :: SamePage(m, n, a, w))
  }

  lemma ExtendsKeeps(m: Vm, n: Vm, r: int, lo: int, hi: int)
    requires Owned(m) == true && Extends(m, n) == true
    ensures Changed(m, n, r, lo, hi) == true
  {
    forall a, w | IsRoot(m, a) && 0 <= w < TREEV ensures SamePage(m, n, a, w) {
      if w < USERTOP && Maps(m, a, w) { UserPage(m, a, w); }
    }
  }

  lemma RetypedKeeps(m: Vm, n: Vm, q: int, r: int, lo: int, hi: int)
    requires Retyped(m, n, q) && (q in m.role ==> m.role[q] == Other)
    ensures Changed(m, n, r, lo, hi) == true
  {
    forall a, w | IsRoot(m, a) && 0 <= w < TREEV ensures SamePage(m, n, a, w) {
      if w < USERTOP && Maps(m, a, w) { UserPage(m, a, w); }
    }
  }

  /** Writing to a user page shows in that page of that tree only. */
  lemma StoreChanges(m: Vm, n: Vm, r: int, v: int)
    requires Owned(m) == true && IsRoot(m, r) && 0 <= v < USERTOP && Maps(m, r, v)
             && Retyped(m, n, Ppn(Trans(m, r, v))) == true
    ensures Changed(m, n, r, v, v + 1) == true && Trans(n, r, v) == Trans(m, r, v)
  {
    UserPage(m, r, v);
    forall a, w | IsRoot(m, a) && 0 <= w < TREEV && !(a == r && w == v) ensures SamePage(m, n, a, w) {
      if w < USERTOP && Maps(m, a, w) { UserPage(m, a, w); }
    }
  }

  lemma LeafSetChanges(m: Vm, n: Vm, r: int, v: int, e: int, q: int, s: Slot)
    requires OneLeafSet(m, n, r, v, e, q, s) == true && IsRoot(m, r) && 0 <= v < USERTOP
    ensures Changed(m, n, r, v, v + 1) == true && Trans(n, r, v) == if V(e) then e else 0
  {
    forall a, w | IsRoot(m, a) && 0 <= w < TREEV && !(a == r && w == v) ensures SamePage(m, n, a, w) {
      if w < USERTOP && Maps(m, a, w) { UserPage(m, a, w); }
    }
  }

  lemma NothingChanged(m: Vm, r: int, lo: int, hi: int)
    requires Owned(m) == true
    ensures Changed(m, m, r, lo, hi) == true
  {
  }

  lemma ChangedTwice(m: Vm, n: Vm, k: Vm, r: int, lo: int, hi: int, lo': int, hi': int)
    requires Changed(m, n, r, lo, hi) == true && Changed(n, k, r, lo', hi') == true
    ensures lo' >= hi' ==> Changed(m, k, r, lo, hi) == true
    ensures lo <= lo' <= hi <= hi' ==> Changed(m, k, r, lo, hi') == true
    ensures lo <= lo' && hi' <= hi ==> Changed(m, k, r, lo, hi) == true
    ensures lo >= hi ==> Changed(m, k, r, lo', hi') == true
  {
    forall a, w | IsRoot(m, a) && 0 <= w < TREEV && SamePage(m, n, a, w) && SamePage(n, k, a, w)
      ensures SamePage(m, k, a, w)
    {
    }
  }

  predicate NoneMapped(m: Vm, r: int, lo: int, hi: int) {
    forall w | lo <= w < hi :: !Maps(m, r, w)
  }

  lemma NoneMappedNext(m: Vm, n: Vm, r: int, lo: int, a: int)
    requires NoneMapped(m, r, lo, a) == true && Changed(m, n, r, a, a + 1) == true && IsRoot(m, r) && !Maps(n, r, a)
    requires 0 <= lo <= a < USERTOP
    ensures NoneMapped(n, r, lo, a + 1) == true
  {
    forall w | lo <= w < a ensures !Maps(n, r, w) {
      assert SamePage(m, n, r, w);
      assert !Maps(m, r, w);
    }
  }

  /** Pages lo to hi are mapped with these flags and hold zeroes. */
  ghost predicate FreshPages(m: Vm, r: int, lo: int, hi: int, flags: int) {
    Owned(m) && IsRoot(m, r) && 0 <= lo && hi <= USERTOP
    && forall w | lo <= w < hi ::
         Maps(m, r, w) && Flags(Trans(m, r, w)) == flags && Bytes(m, r, w) == seq(PGSIZE, _ => 0)
  }

  lemma FreshPagesNext(m: Vm, n: Vm, r: int, lo: int, a: int, flags: int)
    requires FreshPages(m, r, lo, a, flags) == true && Changed(m, n, r, a, a + 1) == true && lo <= a < USERTOP
    requires Maps(n, r, a) && Flags(Trans(n, r, a)) == flags && Bytes(n, r, a) == seq(PGSIZE, _ => 0)
    ensures FreshPages(n, r, lo, a + 1, flags) == true
  {
    forall w | lo <= w < a
      ensures Maps(n, r, w) && Flags(Trans(n, r, w)) == flags && Bytes(n, r, w) == seq(PGSIZE, _ => 0)
    {
      assert SamePage(m, n, r, w);
      assert Maps(m, r, w);
    }
  }

  /** Page w of tree r in n is a copy of page w of tree o in m: mapped or not alike, with the same
      flags and the same bytes. */
  ghost predicate Copied(m: Vm, n: Vm, o: int, r: int, w: int)
    requires Owned(m) && Owned(n) && IsRoot(m, o) && IsRoot(n, r) && 0 <= w < USERTOP
  {
    && (Maps(n, r, w) <==> Maps(m, o, w)) && Bytes(n, r, w) == Bytes(m, o, w)
    && Flags(Trans(n, r, w)) == Flags(Trans(m, o, w))
  }

  ghost predicate CopiedTo(m: Vm, n: Vm, o: int, r: int, hi: int) {
    Owned(m) && Owned(n) && IsRoot(m, o) && IsRoot(n, r) && hi <= USERTOP
    && forall w | 0 <= w < hi :: Copied(m, n, o, r, w)
  }

  lemma CopiedKept(m: Vm, n: Vm, k: Vm, o: int, r: int, w: int)
    requires Owned(m) == true && Owned(n) == true && Owned(k) == true && 0 <= w < USERTOP
    requires IsRoot(m, o) && IsRoot(n, r) && IsRoot(k, r) && Copied(m, n, o, r, w) == true
             && SamePage(n, k, r, w) == true
    ensures Copied(m, k, o, r, w) == true
  {
    assert Trans(k, r, w) == Trans(n, r, w) && Bytes(k, r, w) == Bytes(n, r, w);
    assert Maps(k, r, w) == V(Trans(k, r, w)) && Maps(n, r, w) == V(Trans(n, r, w));
  }

  lemma CopiedNext(m: Vm, n: Vm, k: Vm, o: int, r: int, hi: int)
    requires CopiedTo(m, n, o, r, hi) == true && Changed(n, k, r, hi, hi + 1) == true && 0 <= hi < USERTOP
    requires Copied(m, k, o, r, hi) == true
    ensures CopiedTo(m, k, o, r, hi + 1) == true
  {
    forall w | 0 <= w < hi ensures Copied(m, k, o, r, w) {
      CopiedKept(m, n, k, o, r, w);
    }
  }

  /** A copy of what was the same in m is a copy from m. */
  lemma CopiedFrom(m: Vm, k: Vm, n: Vm, o: int, r: int, w: int)
    requires Owned(m) == true && Owned(k) == true && Owned(n) == true && 0 <= w < USERTOP
    requires IsRoot(m, o) && IsRoot(k, o) && IsRoot(n, r) && SamePage(m, k, o, w) == true
             && Copied(k, n, o, r, w) == true
    ensures Copied(m, n, o, r, w) == true
  {
    assert Trans(k, o, w) == Trans(m, o, w) && Bytes(k, o, w) == Bytes(m, o, w);
    assert Maps(k, o, w) == V(Trans(k, o, w)) && Maps(m, o, w) == V(Trans(m, o, w));
  }

  /** Neither page is mapped. */
  lemma CopiedNone(m: Vm, n: Vm, o: int, r: int, w: int)
    requires Owned(m) == true && Owned(n) == true && 0 <= w < USERTOP
    requires IsRoot(m, o) && IsRoot(n, r) && !Maps(m, o, w) && !Maps(n, r, w)
    ensures Copied(m, n, o, r, w) == true
  {
  }

  /** Two places, in one tree or in two, never share a page. */
  lemma PagesDisjoint(m: Vm, r: int, v: int, r': int, v': int)
    requires Owned(m) == true && IsRoot(m, r) && IsRoot(m, r') && 0 <= v < USERTOP && 0 <= v' < USERTOP
    requires Maps(m, r, v) && Maps(m, r', v') && (r != r' || v != v')
    ensures Ppn(Trans(m, r, v)) != Ppn(Trans(m, r', v'))
  {
    UserPage(m, r, v);
    UserPage(m, r', v');
  }

  /** From role to role', pages went out of use that were user pages of the tree r. */
  predicate LeavesGone(role: map<int, Slot>, role': map<int, Slot>, r: int) {
    && (forall p | p in role' :: p in role && role'[p] == role[p])
    && (forall p | p in role && p !in role' :: role[p].Leaf? && role[p].r == r)
  }

  lemma LeavesGoneTwice(a: map<int, Slot>, b: map<int, Slot>, c: map<int, Slot>, r: int)
    requires LeavesGone(a, b, r) == true && LeavesGone(b, c, r) == true
    ensures LeavesGone(a, c, r) == true
  {
  }

  /** Putting back what was there undoes a change. */
  lemma ChangedBack(m: Vm, n: Vm, r: int, lo: int, hi: int)
    requires Changed(m, n, r, lo, hi) == true && 0 <= lo && hi <= USERTOP
    requires NoneMapped(m, r, lo, hi) == true && NoneMapped(n, r, lo, hi) == true
    ensures Changed(m, n, r, 0, 0) == true
  {
    forall a, w | IsRoot(m, a) && 0 <= w < TREEV ensures SamePage(m, n, a, w) {
      if a == r && lo <= w < hi {
        assert !Maps(m, r, w) && !Maps(n, r, w);
      }
    }
  }

  /** uvmunmap of one mapped page, its contents turned to x as it is freed. */
  ghost function FreedPage(m: Vm, r: int, v: int, x: Page): Vm
    requires Owned(m) && IsRoot(m, r) && 0 <= v < USERTOP && Maps(m, r, v)
  {
    PathOwned(m, r, PX2(v), PX1(v));
    UserPage(m, r, v);
    var q := Ppn(Trans(m, r, v));
    Vm(SetPte(m.pages[q := x], LowOf(m.pages, r, PX2(v), PX1(v)), PX0(v), 0), m.role - {q}, m.first)
  }

  lemma FreedPageOwned(m: Vm, r: int, v: int, x: Page)
    requires Owned(m) == true && IsRoot(m, r) && 0 <= v < USERTOP && Maps(m, r, v)
    ensures var n := FreedPage(m, r, v, x);
      Owned(n) && Changed(m, n, r, v, v + 1) == true && !Maps(n, r, v)
  {
    var q := Ppn(Trans(m, r, v));
    PathOwned(m, r, PX2(v), PX1(v));
    UserPage(m, r, v);
    UnmappedOwned(m, r, v);
    var n := Unmapped(m, r, v);
    LeafSetChanges(m, n, r, v, 0, q, Other);
    RetypedOwned(n, q, x, n.role - {q});
    var k := Vm(n.pages[q := x], n.role - {q}, m.first);
    assert k == FreedPage(m, r, v, x) by {
      assert n.role - {q} == m.role - {q};
      assert n.pages[q := x] == SetPte(m.pages[q := x], LowOf(m.pages, r, PX2(v), PX1(v)), PX0(v), 0);
    }
    RetypedKeeps(n, k, q, r, v, v + 1);
    ChangedTwice(m, n, k, r, v, v + 1, v, v + 1);
  }
}
