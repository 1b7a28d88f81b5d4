/** The free list of user/umalloc.c as a ring of headers in memory: what the assignments of free and
    malloc do to the ring, to the blocks handed out and to the number of units. */
module HeapRing {
  import opened HeapSpec

  function Next(i: int, n: int): int {
    if i + 1 == n then 0 else i + 1
  }

  /** Steps round the ring from i to j. */
  function Dist(i: int, j: int, n: int): int {
    if i <= j then j - i else j - i + n
  }

  /** The headers in memory form the list s, closed to a ring. */
  predicate Ring(s: seq<Block>, ptr: map<int, int>, size: map<int, int>) {
    forall i | 0 <= i < |s| :: Node(ptr, size, s[i], s[Next(i, |s|)].addr)
  }

  /** The header of block b in memory, with pointer q. */
  predicate Node(ptr: map<int, int>, size: map<int, int>, b: Block, q: int) {
    b.addr in ptr && ptr[b.addr] == q && b.addr in size && size[b.addr] == b.size
  }

  /** The blocks u handed out: whole, apart from each other and from the free list, below brk. */
  predicate Used(u: seq<Block>, s: seq<Block>, size: map<int, int>, base: int, brk: int) {
    && (forall i | 0 <= i < |u| :: u[i].size > 0 && base + UNIT <= u[i].addr && u[i].End() <= brk)
    && (forall i | 0 <= i < |u| :: u[i].addr in size && size[u[i].addr] == u[i].size)
    && (forall i, j {:trigger Apart(u[i], u[j])} | 0 <= i < j < |u| :: Apart(u[i], u[j]))
    && (forall i, j {:trigger Apart(u[i], s[j])} | 0 <= i < |u| && 0 < j < |s| :: Apart(u[i], s[j]))
  }

  /** The heap in memory: a ring of free blocks with freep on it, and the blocks handed out, which
      between them hold every unit got from sbrk. */
  predicate HeapOk(base: int, freep: int, ptr: map<int, int>, size: map<int, int>, brk: int,
                   list: seq<Block>, used: seq<Block>, at: int, total: int) {
    && FreeList(list, base) && Ring(list, ptr, size) && 0 <= at < |list| && freep == list[at].addr
    && Used(used, list, size, base, brk) && Below(list, brk) && base + UNIT <= brk && 0 < base
    && total == Units(list) + Units(used)
  }

  lemma RingNode(s: seq<Block>, ptr: map<int, int>, size: map<int, int>, i: int)
    requires Ring(s, ptr, size) && 0 <= i < |s|
    ensures Node(ptr, size, s[i], s[Next(i, |s|)].addr)
  {
  }

  /** The static header is never large enough. */
  lemma NotBase(s: seq<Block>, base: int, i: int, n: int)
    requires FreeList(s, base) && 0 <= i < |s| && s[i].size >= n > 0
    ensures i > 0
  {
  }

  lemma AtFreep(s: seq<Block>, base: int, i: int, at: int)
    requires FreeList(s, base) && 0 <= i < |s| && 0 <= at < |s| && s[i].addr == s[at].addr
    ensures i == at
  {
    if i < at { Increasing(s, base, i, at); }
    if at < i { Increasing(s, base, at, i); }
  }

  /** A step round the ring comes nearer to `at`, and passes over the block k only. */
  lemma StepNearer(n: int, k: int, at: int)
    requires 0 <= k < n && 0 <= at < n && k != at
    ensures Dist(Next(k, n), at, n) == Dist(k, at, n) - 1
    ensures forall i | 0 <= i < n && Dist(i, at, n) > Dist(Next(k, n), at, n) ::
              i == k || Dist(i, at, n) > Dist(k, at, n)
  {
  }

  lemma InitState(base: int, ptr: map<int, int>, size: map<int, int>, brk: int)
    requires 0 < base && base + UNIT <= brk
    requires base in ptr && ptr[base] == base && base in size && size[base] == 0
    ensures HeapOk(base, base, ptr, size, brk, [Block(base, 0)], [], 0, 0) == true
  {
    UnitsOne(Block(base, 0));
  }

  /** Some block of the new list holds all of b. */
  lemma HoldsBlock(s: seq<Block>, base: int, i: int, b: Block) returns (g: int)
    requires FreeList(s, base) == true && Fits(s, i, b)
    ensures 0 <= g < |Inserted(s, i, b)| && Inserted(s, i, b)[g].size >= b.size
  {
    g := if JoinsDown(s, i, b) then i else i + 1;
    InsertedAt(s, i, b, g);
  }

  lemma TakeFacts(s: seq<Block>, base: int, i: int, ptr: map<int, int>, size: map<int, int>)
    requires FreeList(s, base) == true && Ring(s, ptr, size) == true && 0 < i < |s|
    ensures Node(ptr, size, s[i], s[Next(i, |s|)].addr) && Node(ptr, size, s[i - 1], s[i].addr)
  {
    assert Node(ptr, size, s[i - 1], s[Next(i - 1, |s|)].addr);
  }

  lemma RingTaken(s: seq<Block>, base: int, i: int, n: int, ptr: map<int, int>, size: map<int, int>)
    requires FreeList(s, base) == true && Ring(s, ptr, size) == true && 0 < i < |s| && 0 < n <= s[i].size
    ensures Node(ptr, size, s[i], s[Next(i, |s|)].addr)
    ensures s[i].size == n ==> Ring(Taken(s, i, n), ptr[s[i - 1].addr := ptr[s[i].addr]], size) == true
    ensures s[i].size != n ==>
              Ring(Taken(s, i, n), ptr, size[s[i].addr := s[i].size - n][TakenBlock(s, i, n).addr := n]) == true
  {
    TakeFacts(s, base, i, ptr, size);
    var t := Taken(s, i, n);
    var ptr' := if s[i].size == n then ptr[s[i - 1].addr := ptr[s[i].addr]] else ptr;
    var size' := if s[i].size == n then size else size[s[i].addr := s[i].size - n][TakenBlock(s, i, n).addr := n];
    forall j | 0 <= j < |t| ensures Node(ptr', size', t[j], t[Next(j, |t|)].addr) {
      var k := if s[i].size == n && j >= i then j + 1 else j;
      RingNode(s, ptr, size, k);
      OutsideTaken(s, base, i, n, k);
      if k != i - 1 { AtFreepNot(s, base, k, i - 1); }
    }
  }

  lemma AtFreepNot(s: seq<Block>, base: int, i: int, j: int)
    requires FreeList(s, base) == true && 0 <= i < |s| && 0 <= j < |s| && i != j
    ensures s[i].addr != s[j].addr
  {
    if i < j { Increasing(s, base, i, j); } else { Increasing(s, base, j, i); }
  }

  /** No header of the list is where the taken block's header goes, but for its own. */
  lemma OutsideTaken(s: seq<Block>, base: int, i: int, n: int, k: int)
    requires FreeList(s, base) == true && 0 < i < |s| && 0 < n <= s[i].size && 0 <= k < |s|
    ensures k != i ==> s[k].addr != s[i].addr && s[k].addr != TakenBlock(s, i, n).addr
    ensures s[i].size != n ==> s[i].addr != TakenBlock(s, i, n).addr
  {
    assert k < i ==> Before(s[k], s[i]);
    assert i < k ==> Before(s[i], s[k]);
  }

  lemma UsedAfterTake(s: seq<Block>, base: int, used: seq<Block>, i: int, n: int, size: map<int, int>, size': map<int,
                      int>, brk: int)
    requires FreeList(s, base) == true && Used(used, s, size, base, brk) == true && Below(s, brk) == true
    requires 0 < i < |s| && 0 < n <= s[i].size
    requires TakenBlock(s, i, n).addr in size' && size'[TakenBlock(s, i, n).addr] == n
    requires forall x | x in size && x != s[i].addr && x != TakenBlock(s, i, n).addr ::
               x in size' && size'[x] == size[x]
    ensures Used(used + [TakenBlock(s, i, n)], Taken(s, i, n), size', base, brk) == true
  {
    var b, t := TakenBlock(s, i, n), Taken(s, i, n);
    var w := used + [b];
    forall j | 0 <= j < |used|
      ensures used[j].addr in size' && size'[used[j].addr] == used[j].size && Apart(used[j], b)
      ensures forall k | 0 < k < |t| :: Apart(used[j], t[k])
    {
      assert forall k | 0 < k < |s| :: Apart(used[j], s[k]);
      TakenApart(s, i, n, used[j]);
    }
    forall k | 0 < k < |t| ensures Apart(b, t[k]) {
      TakenIsApart(s, base, i, n, k);
    }
  }

  /** Everything asked of the state that malloc leaves. */
  lemma TakenState(base: int, freep: int, ptr: map<int, int>, size: map<int, int>, brk: int,
                   s: seq<Block>, used: seq<Block>, at: int, total: int, i: int, n: int)
    requires HeapOk(base, freep, ptr, size, brk, s, used, at, total) == true && 0 < i < |s| && 0 < n <= s[i].size
    ensures Node(ptr, size, s[i], s[Next(i, |s|)].addr)
    ensures var ptr' := if s[i].size == n then ptr[s[i - 1].addr := ptr[s[i].addr]] else ptr;
      var size' := if s[i].size == n then size else size[s[i].addr := s[i].size - n][TakenBlock(s, i, n).addr := n];
      HeapOk(base, s[i - 1].addr, ptr', size', brk, Taken(s, i, n), used + [TakenBlock(s, i, n)], i - 1, total) == true
  {
    RingTaken(s, base, i, n, ptr, size);
    HeapSpec.TakenOk(s, base, i, n);
    TakenUnits(s, i, n);
    UnitsConcat(used, [TakenBlock(s, i, n)]);
    UnitsOne(TakenBlock(s, i, n));
    TakenBelow(s, i, n, brk);
    var size' := if s[i].size == n then size else size[s[i].addr := s[i].size - n][TakenBlock(s, i, n).addr := n];
    UsedAfterTake(s, base, used, i, n, size, size', brk);
  }

  lemma TakenBelow(s: seq<Block>, i: int, n: int, brk: int)
    requires 0 < i < |s| && 0 < n <= s[i].size && Below(s, brk) == true
    ensures Below(Taken(s, i, n), brk) == true
  {
  }

  /** Memory from sbrk, as a block handed out. */
  lemma CoreState(base: int, freep: int, ptr: map<int, int>, size: map<int, int>, brk: int,
                  s: seq<Block>, used: seq<Block>, at: int, total: int, n: int)
    requires HeapOk(base, freep, ptr, size, brk, s, used, at, total) == true && 0 < n
    ensures HeapOk(base, freep, ptr, size[brk := n], brk + UNIT * n, s, used + [Block(brk, n)], at, total + n) == true
  {
    CoreIsApart(s, used, ptr, size, base, brk, Block(brk, n));
    UnitsConcat(used, [Block(brk, n)]);
    UnitsOne(Block(brk, n));
  }

  /** Memory above the old break is apart from everything. */
  lemma CoreIsApart(s: seq<Block>, used: seq<Block>, ptr: map<int, int>, size: map<int, int>, base: int, brk: int,
                    b: Block)
    requires FreeList(s, base) == true && Used(used, s, size, base, brk) == true && Ring(s, ptr, size) == true
             && Below(s, brk) == true
    requires b.addr == brk && b.size > 0 && base + UNIT <= brk
    ensures Used(used + [b], s, size[brk := b.size], base, b.End()) == true
    ensures Ring(s, ptr, size[brk := b.size]) == true && Below(s, b.End()) == true
  {
    var w := used + [b];
    forall i | 0 <= i < |s| ensures s[i].addr < brk && Node(ptr, size, s[i], s[Next(i, |s|)].addr) {
    }
    forall i | 0 <= i < |used| ensures used[i].addr < brk && used[i].addr in size && used[i].End() <= brk {
    }
  }

  /** What the updates of free leave in memory: bp merged with the block after it, or linked to it,
      and then merged into p, or linked from it. */
  function RelinkPtr(ptr: map<int, int>, size: map<int, int>, p: int, bp: int): map<int, int>
    requires p in ptr && p in size && bp in size && ptr[p] in ptr
  {
    var z := if bp + UNIT * size[bp] == ptr[p] then ptr[ptr[p]] else ptr[p];
    ptr[bp := z][p := if p + UNIT * size[p] == bp then z else bp]
  }

  function RelinkSize(ptr: map<int, int>, size: map<int, int>, p: int, bp: int): map<int, int>
    requires p in ptr && p in size && bp in size && ptr[p] in size
  {
    var c := if bp + UNIT * size[bp] == ptr[p] then size[bp] + size[ptr[p]] else size[bp];
    if p + UNIT * size[p] == bp then size[bp := c][p := size[p] + c] else size[bp := c]
  }

  lemma RelinkFacts(s: seq<Block>, base: int, i: int, b: Block, ptr: map<int, int>, size: map<int, int>)
    requires FreeList(s, base) == true && Fits(s, i, b) && Ring(s, ptr, size) == true
    ensures Node(ptr, size, s[i], s[Next(i, |s|)].addr)
    ensures Node(ptr, size, s[Next(i, |s|)], s[Next(Next(i, |s|), |s|)].addr)
    ensures s[i].addr != b.addr && s[Next(i, |s|)].addr != b.addr
  {
    UpIsNext(s, base, i, b);
    assert Node(ptr, size, s[i], s[Next(i, |s|)].addr);
    assert Node(ptr, size, s[Next(i, |s|)], s[Next(Next(i, |s|), |s|)].addr);
  }

  /** Those updates turn the ring of s into the ring of the list with b put in. */
  lemma RelinkRing(s: seq<Block>, base: int, i: int, b: Block, ptr: map<int, int>, size: map<int, int>)
    requires FreeList(s, base) == true && Fits(s, i, b) && Ring(s, ptr, size) == true && b.addr in size
             && size[b.addr] == b.size
    ensures Node(ptr, size, s[i], s[Next(i, |s|)].addr) && s[Next(i, |s|)].addr in ptr && s[Next(i, |s|)].addr in size
    ensures Ring(Inserted(s, i, b), RelinkPtr(ptr, size, s[i].addr, b.addr),
                 RelinkSize(ptr, size, s[i].addr, b.addr)) == true
  {
    RelinkFacts(s, base, i, b, ptr, size);
    ListDistinct(s, base, i, b);
    UpIsNext(s, base, i, b);
    var q := s[Next(i, |s|)].addr;
    RelinkedRing(s, i, b, ptr, size, if JoinsUp(s, i, b) then ptr[q] else q, if JoinsUp(s, i, b) then
                 b.size + s[i + 1].size else b.size);
  }

  predicate Below(s: seq<Block>, brk: int) {
    forall j | 0 < j < |s| :: s[j].End() <= brk
  }

  /** Everything asked of the state that free leaves. */
  lemma FreedState(base: int, freep: int, ptr: map<int, int>, size: map<int, int>, brk: int,
                   s: seq<Block>, used: seq<Block>, at: int, total: int, u: int, i: int)
    requires HeapOk(base, freep, ptr, size, brk, s, used, at, total) == true && 0 <= u < |used| && Fits(s, i, used[u])
    ensures var p := s[i].addr;
      && Node(ptr, size, s[i], s[Next(i, |s|)].addr) && s[Next(i, |s|)].addr in ptr && s[Next(i, |s|)].addr in size
      && used[u].addr in size
      && HeapOk(base, p, RelinkPtr(ptr, size, p, used[u].addr), RelinkSize(ptr, size, p, used[u].addr), brk,
                Inserted(s, i, used[u]), used[..u] + used[u + 1..], i, total) == true
  {
    RelinkRing(s, base, i, used[u], ptr, size);
    InsertedBelow(s, i, used[u], brk);
    InsertedOk(s, base, i, used[u]);
    UsedAfterFree(used, u, s, i, size, RelinkSize(ptr, size, s[i].addr, used[u].addr), base, brk);
    InsertedUnits(s, i, used[u]);
    UnitsSplit(used, u);
    UnitsConcat(used[..u], used[u + 1..]);
  }

  /** A used block is at no address of the list. */
  lemma NotInList(s: seq<Block>, base: int, used: seq<Block>, u: int, size: map<int, int>, brk: int)
    requires FreeList(s, base) == true && Used(used, s, size, base, brk) == true && 0 <= u < |used|
    ensures base < used[u].addr && forall j | 0 <= j < |s| :: s[j].addr != used[u].addr
  {
    forall j | 0 < j < |s| ensures s[j].addr != used[u].addr {
      assert Apart(used[u], s[j]);
    }
  }

  lemma FitsThere(s: seq<Block>, base: int, used: seq<Block>, u: int, size: map<int, int>, brk: int, i: int)
    requires FreeList(s, base) == true && Used(used, s, size, base, brk) == true && 0 <= u < |used|
    requires 0 <= i < |s| && s[i].addr < used[u].addr && (i + 1 < |s| ==> used[u].addr < s[i + 1].addr)
    ensures Fits(s, i, used[u])
  {
    assert i > 0 ==> Apart(used[u], s[i]);
    assert i + 1 < |s| ==> Apart(used[u], s[i + 1]);
  }

  /** The test for an upper neighbour is right: the block after the last one is the lowest. */
  lemma UpIsNext(s: seq<Block>, base: int, i: int, b: Block)
    requires FreeList(s, base) && Fits(s, i, b)
    ensures b.End() == s[Next(i, |s|)].addr <==> JoinsUp(s, i, b)
    ensures s[i].addr != b.addr && s[Next(i, |s|)].addr != b.addr
    ensures JoinsUp(s, i, b) ==> s[i].addr != s[Next(i, |s|)].addr
  {
  }

  /** b put in after block i and joined to the block after it. */
  lemma RingUp(s: seq<Block>, i: int, b: Block, ptr: map<int, int>, size: map<int, int>)
    requires Distinct(s) == true && Ring(s, ptr, size) == true && 0 <= i < |s| - 1
             && (forall j | 0 <= j < |s| :: s[j].addr != b.addr)
    ensures Node(ptr, size, s[i + 1], s[Next(i + 1, |s|)].addr) && Distinct(Joined(Plain(s, i, b), i + 1)) == true
    ensures Ring(Joined(Plain(s, i, b), i + 1), ptr[b.addr := ptr[s[i + 1].addr]][s[i].addr := b.addr],
                 size[b.addr := b.size + s[i + 1].size]) == true
  {
    assert Node(ptr, size, s[i + 1], s[Next(i + 1, |s|)].addr);
    PlainDistinct(s, i, b);
    RingPlain(s, i, b, ptr, size);
    var t, q := Plain(s, i, b), s[i + 1].addr;
    var ptr1, size1 := ptr[b.addr := q][s[i].addr := b.addr], size[b.addr := b.size];
    assert t[i + 1] == b && t[i + 2] == s[i + 1];
    RingJoined(t, i + 1, ptr1, size1);
    JoinedDistinct(t, i + 1);
    assert ptr1[b.addr := ptr1[q]] == ptr[b.addr := ptr[q]][s[i].addr := b.addr] by { assert Differ(s[i], s[i + 1]); }
    assert size1[b.addr := b.size + s[i + 1].size] == size[b.addr := b.size + s[i + 1].size];
  }

  lemma RingUpper(s: seq<Block>, i: int, b: Block, ptr: map<int, int>, size: map<int, int>, z: int, c: int)
    requires Distinct(s) == true && Ring(s, ptr, size) == true && 0 <= i < |s|
             && (forall j | 0 <= j < |s| :: s[j].addr != b.addr)
    requires s[Next(i, |s|)].addr in ptr
    requires z == if JoinsUp(s, i, b) then ptr[s[Next(i, |s|)].addr] else s[Next(i, |s|)].addr
    requires c == if JoinsUp(s, i, b) then b.size + s[i + 1].size else b.size
    ensures Distinct(Upper(s, i, b)) == true && |Upper(s, i, b)| > i + 1
    ensures Ring(Upper(s, i, b), ptr[b.addr := z][s[i].addr := b.addr], size[b.addr := c]) == true
    ensures Upper(s, i, b)[i] == s[i] && Upper(s, i, b)[i + 1] == Block(b.addr, c)
  {
    if JoinsUp(s, i, b) {
      RingUp(s, i, b, ptr, size);
    } else {
      PlainDistinct(s, i, b);
      RingPlain(s, i, b, ptr, size);
    }
  }

  lemma RingLower(s: seq<Block>, i: int, b: Block, ptr: map<int, int>, size: map<int, int>, z: int, c: int)
    requires 0 <= i < |s| && Distinct(Upper(s, i, b)) == true && |Upper(s, i, b)| > i + 1 && s[i].addr != b.addr
    requires Ring(Upper(s, i, b), ptr[b.addr := z][s[i].addr := b.addr], size[b.addr := c]) == true
    requires Upper(s, i, b)[i] == s[i] && Upper(s, i, b)[i + 1] == Block(b.addr, c) && JoinsDown(s, i, b)
    ensures Ring(Inserted(s, i, b), ptr[b.addr := z][s[i].addr := z],
                 size[b.addr := c][s[i].addr := s[i].size + c]) == true
  {
    var ptr2, size2 := ptr[b.addr := z][s[i].addr := b.addr], size[b.addr := c];
    RingJoined(Upper(s, i, b), i, ptr2, size2);
    assert ptr2[s[i].addr := z] == ptr[b.addr := z][s[i].addr := z];
  }

  lemma RelinkedRing(s: seq<Block>, i: int, b: Block, ptr: map<int, int>, size: map<int, int>, z: int, c: int)
    requires Distinct(s) == true && Ring(s, ptr, size) == true && 0 <= i < |s|
             && (forall j | 0 <= j < |s| :: s[j].addr != b.addr)
    requires s[Next(i, |s|)].addr in ptr
    requires z == if JoinsUp(s, i, b) then ptr[s[Next(i, |s|)].addr] else s[Next(i, |s|)].addr
    requires c == if JoinsUp(s, i, b) then b.size + s[i + 1].size else b.size
    ensures !JoinsDown(s, i, b) ==>
              Ring(Inserted(s, i, b), ptr[b.addr := z][s[i].addr := b.addr], size[b.addr := c]) == true
    ensures JoinsDown(s, i, b) ==>
              Ring(Inserted(s, i, b), ptr[b.addr := z][s[i].addr := z],
                   size[b.addr := c][s[i].addr := s[i].size + c]) == true
  {
    RingUpper(s, i, b, ptr, size, z, c);
    if JoinsDown(s, i, b) {
      RingLower(s, i, b, ptr, size, z, c);
    }
  }

  lemma ListDistinct(s: seq<Block>, base: int, i: int, b: Block)
    requires FreeList(s, base) == true && Fits(s, i, b)
    ensures Distinct(s) == true && forall j | 0 <= j < |s| :: s[j].addr != b.addr
  {
    forall j | 0 <= j < |s| ensures s[j].addr != b.addr {
      assert j < i ==> Before(s[j], s[i]);
      assert i + 1 < j ==> Before(s[i + 1], s[j]);
    }
    forall j, k | 0 <= j < k < |s| ensures Differ(s[j], s[k]) {
      assert Before(s[j], s[k]);
    }
  }

  /** The blocks still in use after free. */
  lemma UsedAfterFree(used: seq<Block>, u: int, s: seq<Block>, i: int, size: map<int, int>, size': map<int, int>,
                      base: int, brk: int)
    requires FreeList(s, base) == true && Used(used, s, size, base, brk) == true && 0 <= u < |used|
             && Fits(s, i, used[u])
    requires forall x | x in size && x != s[i].addr && x != used[u].addr :: x in size' && size'[x] == size[x]
    ensures Used(used[..u] + used[u + 1..], Inserted(s, i, used[u]), size', base, brk) == true
  {
    var w, t := used[..u] + used[u + 1..], Inserted(s, i, used[u]);
    forall j | 0 <= j < |w|
      ensures w[j].size > 0 && base + UNIT <= w[j].addr && w[j].End() <= brk
      ensures w[j].addr in size' && size'[w[j].addr] == w[j].size
      ensures forall k | 0 < k < |t| :: Apart(w[j], t[k])
    {
      var l := if j < u then j else j + 1;
      NotInList(s, base, used, l, size, brk);
      assert l < u ==> Apart(used[l], used[u]);
      assert u < l ==> Apart(used[u], used[l]);
      assert forall k | 0 < k < |s| :: Apart(used[l], s[k]);
      InsertedApart(s, i, used[u], used[l]);
    }
    forall j, k | 0 <= j < k < |w| ensures Apart(w[j], w[k]) {
      var j', k' := if j < u then j else j + 1, if k < u then k else k + 1;
      assert Apart(used[j'], used[k']);
    }
  }

  lemma InsertedBelow(s: seq<Block>, i: int, b: Block, brk: int)
    requires Fits(s, i, b) && b.End() <= brk && Below(s, brk) == true
    ensures Below(Inserted(s, i, b), brk) == true && Inserted(s, i, b)[i].addr == s[i].addr
  {
    forall j | 0 < j < |Inserted(s, i, b)| ensures Inserted(s, i, b)[j].End() <= brk {
      InsertedAt(s, i, b, j);
    }
    InsertedAt(s, i, b, i);
  }

  /** The block after which bp belongs. */
  function Place(s: seq<Block>, bp: int, i: int): (t: int)
    requires 0 <= i < |s| && s[i].addr < bp
    ensures i <= t < |s| && s[t].addr < bp && (t + 1 < |s| ==> s[t + 1].addr >= bp)
    decreases |s| - i
  {
    if i + 1 < |s| && s[i + 1].addr < bp then Place(s, bp, i + 1) else i
  }

  /** The two tests of free's search hold at the right place and nowhere else. */
  lemma NotYet(s: seq<Block>, base: int, bp: int, t: int, i: int)
    requires FreeList(s, base) && base < bp && (forall j | 0 <= j < |s| :: s[j].addr != bp)
    requires 0 <= t < |s| && s[t].addr < bp && (t + 1 < |s| ==> bp <= s[t + 1].addr) && 0 <= i < |s|
    ensures var p, q := s[i].addr, s[Next(i, |s|)].addr;
      i == t <==> (bp > p && bp < q) || (p >= q && (bp > p || bp < q))
    ensures i != t ==> Dist(Next(i, |s|), t, |s|) == Dist(i, t, |s|) - 1
  {
    Increasing(s, base, 0, i);
    Increasing(s, base, i, |s| - 1);
    if i + 1 < |s| { Increasing(s, base, i, i + 1); }
    if i < t { Increasing(s, base, i + 1, t); }
    if t < i { Increasing(s, base, t + 1, i); }
  }

  lemma Increasing(s: seq<Block>, base: int, i: int, j: int)
    requires FreeList(s, base) && 0 <= i <= j < |s|
    ensures s[i].addr <= s[j].addr && (i < j ==> s[i].addr < s[j].addr)
  {
    assert i < j ==> Before(s[i], s[j]);
  }

  /** Addresses in a list are all different. */
  predicate Distinct(s: seq<Block>) {
    forall i, j {:trigger Differ(s[i], s[j])} | 0 <= i < j < |s| :: Differ(s[i], s[j])
  }

  predicate Differ(a: Block, b: Block) {
    a.addr != b.addr
  }

  lemma PlainDistinct(s: seq<Block>, i: int, b: Block)
    requires Distinct(s) && 0 <= i < |s| && (forall j | 0 <= j < |s| :: s[j].addr != b.addr)
    ensures Distinct(Plain(s, i, b))
  {
    var t := Plain(s, i, b);
    forall j, k | 0 <= j < k < |t| ensures Differ(t[j], t[k]) {
      var j', k' := if j <= i then j else j - 1, if k <= i then k else k - 1;
      assert j' < k' ==> Differ(s[j'], s[k']);
    }
  }

  lemma RingPlain(s: seq<Block>, i: int, b: Block, ptr: map<int, int>, size: map<int, int>)
    requires Distinct(s) && 0 <= i < |s| && Ring(s, ptr, size) && (forall j | 0 <= j < |s| :: s[j].addr != b.addr)
    ensures Ring(Plain(s, i, b), ptr[b.addr := s[Next(i, |s|)].addr][s[i].addr := b.addr],
                 size[b.addr := b.size]) == true
  {
    var t := Plain(s, i, b);
    var ptr', size' := ptr[b.addr := s[Next(i, |s|)].addr][s[i].addr := b.addr], size[b.addr := b.size];
    forall j | 0 <= j < |t| ensures Node(ptr', size', t[j], t[Next(j, |t|)].addr) {
      if j != i + 1 {
        var k := if j <= i then j else j - 1;
        assert Node(ptr, size, s[k], s[Next(k, |s|)].addr);
        assert k < i ==> Differ(s[k], s[i]);
        assert i < k ==> Differ(s[i], s[k]);
      }
    }
  }

  lemma JoinedDistinct(s: seq<Block>, j: int)
    requires Distinct(s) && 0 <= j < |s| - 1
    ensures Distinct(Joined(s, j))
  {
    var t := Joined(s, j);
    forall a, b | 0 <= a < b < |t| ensures Differ(t[a], t[b]) {
      var a', b' := if a <= j then a else a + 1, if b <= j then b else b + 1;
      assert Differ(s[a'], s[b']);
    }
  }

  lemma RingJoined(s: seq<Block>, j: int, ptr: map<int, int>, size: map<int, int>)
    requires Distinct(s) && 0 <= j < |s| - 1 && Ring(s, ptr, size)
    ensures Node(ptr, size, s[j], s[j + 1].addr) && Node(ptr, size, s[j + 1], s[Next(j + 1, |s|)].addr)
    ensures Ring(Joined(s, j), ptr[s[j].addr := ptr[s[j + 1].addr]],
                 size[s[j].addr := s[j].size + s[j + 1].size]) == true
  {
    var t := Joined(s, j);
    assert Node(ptr, size, s[j], s[Next(j, |s|)].addr) && Node(ptr, size, s[j + 1], s[Next(j + 1, |s|)].addr);
    var ptr', size' := ptr[s[j].addr := ptr[s[j + 1].addr]], size[s[j].addr := s[j].size + s[j + 1].size];
    forall k | 0 <= k < |t| ensures Node(ptr', size', t[k], t[Next(k, |t|)].addr) {
      if k != j {
        var l := if k < j then k else k + 1;
        assert Node(ptr, size, s[l], s[Next(l, |s|)].addr);
        assert l < j ==> Differ(s[l], s[j]);
        assert j < l ==> Differ(s[j], s[l]);
      }
    }
  }
}
