/** malloc, free and morecore of user/umalloc.c over headers in memory. */
module Umalloc {
  import opened HeapSpec
  import opened HeapRing

  /** A size in units must fit the 32-bit size field. */
  const MAXHEAP := 0x10_0000_0000
  /** The largest request that morecore can pass to sbrk, whose argument is a 32-bit int. */
  const MAXUNITS := 0x7FF_FFFF

  function Int32(x: int): int {
    (x + 0x8000_0000) % 0x1_0000_0000 - 0x8000_0000
  }

  const INT_MIN := -0x8000_0000

  /** sbrk(x) in a process of sz bytes does not fail: growing never does, and shrinking only if there is
      less memory than that, or if -x overflows. */
  predicate Grants(x: int, sz: int) {
    x >= 0 || (x != INT_MIN && -x <= sz)
  }

  /** morecore's call of sbrk for nu units fails, or gives what is needed; otherwise it gives less. */
  predicate Honest(nu: int, sz: int) {
    nu <= MAXUNITS || nu == MAXUNITS + 1 || 0x1_0000_0000 - UNIT * nu > sz
  }

  /** The int that sbrk gets is what morecore needs exactly up to MAXUNITS. Beyond that it is less, and the
      call does no harm exactly if sbrk refuses. */
  lemma SbrkArgument(nu: int, sz: int)
    requires 0 <= nu <= 0x1000_0001 && 0 <= sz
    ensures Int32(UNIT * nu) == UNIT * nu <==> nu <= MAXUNITS
    ensures nu > MAXUNITS ==> Int32(UNIT * nu) < UNIT * nu
    ensures Grants(Int32(UNIT * nu), sz) && nu > MAXUNITS <==> !Honest(nu, sz)
  {
  }

  /** The units for a request of so many bytes, with one more for the header. */
  function UnitsFor(nbytes: int): (n: int)
    requires 0 <= nbytes <= 0xFFFF_FFFF
    ensures 1 <= n <= 0x1000_0001 && nbytes <= UNIT * (n - 1)
  {
    (nbytes + UNIT - 1) / UNIT + 1
  }

  class Heap {
    /** The address of the static header. */
    const base: int
    /** 0 before the first call of malloc. */
    var freep: int
    var ptr: map<int, int>
    var size: map<int, int>
    /** The size of the process, which is the break. */
    var brk: int
    /** Where the memory ends that morecore believes it has got. */
    ghost var top: int
    ghost var list: seq<Block>
    ghost var used: seq<Block>
    ghost var at: int
    /** Units obtained from sbrk. */
    ghost var total: int

    constructor (base: int, brk: int)
      requires 0 < base && base + UNIT <= brk <= base + MAXHEAP
      ensures Valid() && Sound() && freep == 0 && used == [] && list == [Block(base, 0)]
      ensures this.base == base && this.brk == brk && total == 0
    {
      this.base, this.brk := base, brk;
      freep, ptr, size := 0, map[], map[];
      top, list, used, at, total := brk, [Block(base, 0)], [], 0, 0;
    }

    ghost predicate Valid()
      reads this
    {
      && 0 < base && base + UNIT <= top <= base + MAXHEAP && 0 <= brk
      && (freep == 0 ==> used == [] && list == [Block(base, 0)] && at == 0 && total == 0)
      && (freep != 0 ==> HeapOk(base, freep, ptr, size, top, list, used, at, total))
    }

    /** All blocks, free or handed out, are memory of the process. */
    ghost predicate Sound()
      reads this
    {
      top == brk
    }

    /** sbrk: the old break; growing is always granted, and shrinking if there is so much. */
    method Sbrk(x: int) returns (p: int)
      requires 0 <= brk && INT_MIN <= x
      modifies this`brk
      ensures p == (if Grants(x, old(brk)) then old(brk) else -1)
              && brk == if Grants(x, old(brk)) then old(brk) + x else old(brk)
    {
      p := brk;
      if x < 0 {
        if x == INT_MIN || -x > brk {
          return -1;
        }
      }
      brk := brk + x;
    }

    /** free's search: p is the block after which bp belongs. It ends within one round of the ring. */
    method FindPlace(bp: int) returns (p: int, ghost i: int)
      requires FreeList(list, base) && Ring(list, ptr, size) && 0 <= at < |list| && freep == list[at].addr
      requires base < bp && forall j | 0 <= j < |list| :: list[j].addr != bp
      ensures 0 <= i < |list| && p == list[i].addr < bp && (i + 1 < |list| ==> bp < list[i + 1].addr)
    {
      ghost var t := Place(list, bp, 0);
      p, i := freep, at;
      while !(bp > p && bp < ptr[p])
        invariant 0 <= i < |list| && p == list[i].addr && Node(ptr, size, list[i], list[Next(i, |list|)].addr)
        decreases Dist(i, t, |list|)
      {
        NotYet(list, base, bp, t, i);
        if p >= ptr[p] && (bp > p || bp < ptr[p]) {
          break;
        }
        p, i := ptr[p], Next(i, |list|);
      }
      NotYet(list, base, bp, t, i);
    }

    /** The pointer and size updates of free, for a block bp that belongs after p. */
    method Relink(p: int, bp: int)
      requires p in ptr && p in size && bp in size && ptr[p] in ptr && ptr[p] in size && bp != p && bp != ptr[p]
      modifies this`ptr, this`size
      ensures ptr == RelinkPtr(old(ptr), old(size), p, bp) && size == RelinkSize(old(ptr), old(size), p, bp)
    {
      var q := ptr[p];
      if bp + UNIT * size[bp] == q {
        size := size[bp := size[bp] + size[q]];
        ptr := ptr[bp := ptr[q]];
      } else {
        ptr := ptr[bp := q];
      }
      if p + UNIT * size[p] == bp {
        size := size[p := size[p] + size[bp]];
        ptr := ptr[p := ptr[bp]];
      } else {
        ptr := ptr[p := bp];
      }
    }

    /** Puts block u back: the list stays in address order with no two blocks adjacent. */
    method Free(ap: int, ghost u: int)
      requires Valid() == true && freep != 0 && 0 <= u < |used| && used[u].addr == ap - UNIT
      modifies this
      ensures Valid() == true && freep != 0 && brk == old(brk) && top == old(top) && total == old(total)
      ensures used == old(used[..u] + used[u + 1..])
      ensures Fits(old(list), at, old(used[u])) && list == Inserted(old(list), at, old(used[u]))
    {
      var bp := ap - UNIT;
      ghost var b, s := used[u], list;
      NotInList(s, base, used, u, size, top);
      var p;
      ghost var i;
      p, i := FindPlace(bp);
      FitsThere(s, base, used, u, size, top, i);
      RelinkFacts(s, base, i, b, ptr, size);
      Relink(p, bp);
      FreedState(base, freep, old(ptr), old(size), top, s, used, at, total, u, i);
      list, used, at := Inserted(s, i, b), used[..u] + used[u + 1..], i;
      freep := p;
    }

    /** nu units from sbrk put on the free list, in block g or as a part of it; 0 exactly if sbrk refuses. The
        process has got that memory exactly if the call was an honest one. */
    method Morecore(nu: int) returns (r: int, ghost g: int)
      requires Valid() == true && Sound() && freep != 0 && 1 <= nu <= 0x1000_0001
      requires top + UNIT * CoreUnits(nu) <= base + MAXHEAP
      modifies this
      ensures Valid() == true && freep != 0 && used == old(used)
      ensures r == 0 <==> nu > MAXUNITS && Honest(nu, old(brk))
      ensures r == 0 ==>
                list == old(list) && brk == old(brk) && top == old(top) && total == old(total) && freep == old(freep)
      ensures r != 0 ==> r == freep && total == old(total) + CoreUnits(nu) && top == old(top) + UNIT * CoreUnits(nu)
      ensures r != 0 ==> brk == old(brk) + Int32(UNIT * CoreUnits(nu)) && 0 <= g < |list| && list[g].size >= nu
      ensures Sound() <==> Honest(nu, old(brk))
    {
      g := 0;
      var n := if nu < 4096 then 4096 else nu;
      SbrkArgument(n, brk);
      var hp := Sbrk(Int32(UNIT * n));
      if hp == -1 {
        return 0, 0;
      }
      g := AddCore(hp, n);
      r := freep;
    }

    /** The new block gets its header and is freed. */
    method AddCore(hp: int, n: int) returns (ghost g: int)
      requires Valid() == true && freep != 0 && hp == top && 0 < n && top + UNIT * n <= base + MAXHEAP
      modifies this
      ensures Valid() == true && freep != 0 && used == old(used) && brk == old(brk)
      ensures total == old(total) + n && top == old(top) + UNIT * n
      ensures 0 <= g < |list| && list[g].size >= n
    {
      CoreState(base, freep, ptr, size, hp, list, used, at, total, n);
      size := size[hp := n];
      used := used + [Block(hp, n)];
      top, total := hp + UNIT * n, total + n;
      ghost var s, w := list, used;
      Free(hp + UNIT, |used| - 1);
      assert w[..|w| - 1] + w[|w|..] == old(used);
      g := HoldsBlock(s, base, at, Block(hp, n));
    }

    /** malloc's exit: n units are cut from the end of block i, which p points to, after prevp. */
    method Take(prevp: int, p0: int, n: int, ghost i: int) returns (ap: int)
      requires Valid() == true && freep != 0 && 0 < i < |list| && p0 == list[i].addr && prevp == list[i - 1].addr
      requires 0 < n <= list[i].size
      modifies this
      ensures Valid() == true && freep != 0 && brk == old(brk) && top == old(top) && total == old(total)
      ensures list == Taken(old(list), i, n) && used == old(used) + [TakenBlock(old(list), i, n)]
      ensures ap == TakenBlock(old(list), i, n).addr + UNIT && used == old(used) + [Block(ap - UNIT, n)]
    {
      ghost var s := list;
      TakeFacts(s, base, i, ptr, size);
      TakenState(base, freep, ptr, size, top, s, used, at, total, i, n);
      var p := Cut(prevp, p0, n);
      freep := prevp;
      list, used, at := Taken(s, i, n), used + [TakenBlock(s, i, n)], i - 1;
      return p + UNIT;
    }

    /** The header updates: the block is unlinked if it fits exactly, and else gives up its end. */
    method Cut(prevp: int, p0: int, n: int) returns (p: int)
      requires p0 in size && p0 in ptr && n <= size[p0]
      modifies this`ptr, this`size
      ensures p == p0 + UNIT * (old(size[p0]) - n)
      ensures old(size[p0]) == n ==> ptr == old(ptr)[prevp := old(ptr[p0])] && size == old(size)
      ensures old(size[p0]) != n ==> ptr == old(ptr) && size == old(size)[p0 := old(size[p0]) - n][p := n]
    {
      p := p0;
      if size[p] == n {
        ptr := ptr[prevp := ptr[p]];
      } else {
        size := size[p := size[p] - n];
        p := p + UNIT * size[p];
        size := size[p := n];
      }
    }

    /** What a granted call of sbrk for n units leaves: an honest one gives what is needed. */
    static predicate GotCore(n: int, brk0: int, top0: int, brk: int, top: int) {
      && brk == brk0 + Int32(UNIT * CoreUnits(n)) && top == top0 + UNIT * CoreUnits(n)
      && (top == brk <==> Honest(n, brk0)) && !(n > MAXUNITS && Honest(n, brk0))
    }

    /** Some free block is large enough. */
    ghost predicate HasRoom(n: int)
      reads this
    {
      exists i :: 0 <= i < |list| && list[i].size >= n
    }

    /** A block for nbytes bytes; 0 exactly when no free block is large enough and sbrk refuses. The blocks
        are all memory of the process afterwards if and only if a free block was large enough or the call
        of sbrk was an honest one. */
    method Malloc(nbytes: int) returns (ap: int)
      requires Valid() == true && Sound() && 0 <= nbytes <= 0xFFFF_FFFF
      requires top + UNIT * CoreUnits(UnitsFor(nbytes)) <= base + MAXHEAP
      modifies this
      ensures Valid() == true && freep != 0 && UNIT * (total - old(total)) == top - old(top)
      ensures Sound() <==> old(HasRoom(UnitsFor(nbytes))) || Honest(UnitsFor(nbytes), old(brk))
      ensures ap == 0 <==>
                !old(HasRoom(UnitsFor(nbytes))) && UnitsFor(nbytes) > MAXUNITS && Honest(UnitsFor(nbytes), old(brk))
      ensures ap != 0 ==> used == old(used) + [Block(ap - UNIT, UnitsFor(nbytes))]
      ensures ap == 0 ==> used == old(used)
      ensures ap == 0 || old(HasRoom(UnitsFor(nbytes))) ==> brk == old(brk) && top == old(top)
      ensures ap != 0 && !old(HasRoom(UnitsFor(nbytes))) ==>
        var n := CoreUnits(UnitsFor(nbytes)); brk == old(brk) + Int32(UNIT * n) && top == old(top) + UNIT * n
    {
      var n := UnitsFor(nbytes);
      ghost var had := HasRoom(n);
      if freep == 0 {
        ptr, size := ptr[base := base], size[base := 0];
        freep := base;
        InitState(base, ptr, size, top);
      }
      ghost var got := false;
      while true
        invariant Valid() == true && freep != 0 && used == old(used) && UNIT * (total - old(total)) == top - old(top)
        invariant !got ==> Sound() && brk == old(brk) && top == old(top) && list == old(list)
        invariant got ==> HasRoom(n) && !had && GotCore(n, old(brk), old(top), brk, top)
        decreases !got
      {
        var found, prevp, p;
        ghost var k;
        found, prevp, p, k := Search(n);
        if found {
          ap := Take(prevp, p, n, k);
          return;
        }
        ghost var g;
        p, g := Morecore(n);
        if p == 0 {
          return 0;
        }
        got := true;
      }
    }

    /** One round of malloc's search, from the block after freep to freep itself: the first block k of
        at least n units. */
    method Search(n: int) returns (found: bool, prevp: int, p: int, ghost k: int)
      requires Valid() == true && freep != 0 && 0 < n
      ensures found ==> 0 < k < |list| && p == list[k].addr && prevp == list[k - 1].addr && list[k].size >= n
      ensures !found ==> forall i | 0 <= i < |list| :: list[i].size < n
    {
      RingNode(list, ptr, size, at);
      prevp, p, k := freep, ptr[freep], Next(at, |list|);
      while true
        invariant 0 <= k < |list| && p == list[k].addr && Node(ptr, size, list[k], list[Next(k, |list|)].addr)
        invariant prevp == list[if k == 0 then |list| - 1 else k - 1].addr
        invariant forall i | 0 <= i < |list| && Dist(i, at, |list|) > Dist(k, at, |list|) :: list[i].size < n
        decreases Dist(k, at, |list|)
      {
        if size[p] >= n {
          NotBase(list, base, k, n);
          return true, prevp, p, k;
        }
        if p == freep {
          AtFreep(list, base, k, at);
          return false, prevp, p, k;
        }
        StepNearer(|list|, k, at);
        RingNode(list, ptr, size, Next(k, |list|));
        prevp, p, k := p, ptr[p], Next(k, |list|);
      }
    }

    /** Units asked of sbrk. */
    static function CoreUnits(nu: int): int {
      if nu < 4096 then 4096 else nu
    }
  }

  /** A concrete run: malloc(0xffffffff) in a new process hands out a block of 2^28 + 1 units, of which the
      process has one. */
  method HugeRequest() returns (h: Heap, ap: int)
    ensures fresh(h) && h.Valid() && ap != 0 && !h.Sound()
    ensures |h.used| == 1 && h.used[0] == Block(ap - UNIT, 0x1000_0001) && h.brk == 8192 + UNIT
            && h.top == 8192 + UNIT * 0x1000_0001
  {
    h := new Heap(4096, 8192);
    assert !h.HasRoom(UnitsFor(0xFFFF_FFFF));
    ap := h.Malloc(0xFFFF_FFFF);
  }
}
