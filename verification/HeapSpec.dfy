/** The free list of user/umalloc.c as a sequence of blocks in address order. Addresses are bytes
    and sizes are units of one header, 16 bytes. */
module HeapSpec {

  const UNIT := 16

  datatype Block = Block(addr: int, size: int) {
    function End(): int { addr + UNIT * size }
  }

  /** a ends below b and does not touch it. */
  predicate Before(a: Block, b: Block) {
    a.End() < b.addr
  }

  /** In address order, and no block touches the next. */
  predicate Separate(s: seq<Block>) {
    forall i, j {:trigger Before(s[i], s[j])} | 0 <= i < j < |s| :: Before(s[i], s[j])
  }

  /** The first block is the static header, which is empty and lowest; every other block lies beyond
      that header and has a size. */
  predicate FreeList(s: seq<Block>, base: int) {
    && |s| > 0 && s[0] == Block(base, 0) && Separate(s)
    && (forall i | 0 < i < |s| :: s[i].size > 0 && s[i].addr >= base + UNIT)
  }

  function Units(s: seq<Block>): int {
    if s == [] then 0 else s[0].size + Units(s[1..])
  }

  lemma {:induction false} UnitsConcat(s: seq<Block>, t: seq<Block>)
    ensures Units(s + t) == Units(s) + Units(t)
  {
    if s == [] {
      assert s + t == t;
    } else {
      assert (s + t)[1..] == s[1..] + t;
      UnitsConcat(s[1..], t);
    }
  }

  lemma UnitsOne(b: Block)
    ensures Units([b]) == b.size
  {
  }

  /** Units of a list with block i set apart. */
  lemma UnitsSplit(s: seq<Block>, i: int)
    requires 0 <= i < |s|
    ensures Units(s) == Units(s[..i]) + s[i].size + Units(s[i + 1..])
  {
    assert s == s[..i] + [s[i]] + s[i + 1..];
    UnitsConcat(s[..i] + [s[i]], s[i + 1..]);
    UnitsConcat(s[..i], [s[i]]);
    UnitsOne(s[i]);
  }

  predicate Apart(a: Block, b: Block) {
    a.End() <= b.addr || b.End() <= a.addr
  }

  // free.

  /** Block b belongs after block i of the list. */
  predicate Fits(s: seq<Block>, i: int, b: Block) {
    && 0 <= i < |s| && b.size > 0 && s[i].addr < b.addr && s[i].End() <= b.addr
    && (i + 1 < |s| ==> b.End() <= s[i + 1].addr)
  }

  predicate JoinsUp(s: seq<Block>, i: int, b: Block) {
    0 <= i && i + 1 < |s| && b.End() == s[i + 1].addr
  }

  predicate JoinsDown(s: seq<Block>, i: int, b: Block) {
    0 <= i < |s| && s[i].End() == b.addr
  }

  function Plain(s: seq<Block>, i: int, b: Block): seq<Block>
    requires 0 <= i < |s|
  {
    s[..i + 1] + [b] + s[i + 1..]
  }

  /** Blocks j and j + 1 made one. */
  function Joined(s: seq<Block>, j: int): seq<Block>
    requires 0 <= j < |s| - 1
  {
    s[..j] + [Block(s[j].addr, s[j].size + s[j + 1].size)] + s[j + 2..]
  }

  /** The list with b put in after block i, and joined to the block after it if they touch. */
  function Upper(s: seq<Block>, i: int, b: Block): (t: seq<Block>)
    requires 0 <= i < |s|
    ensures |t| > i + 1
  {
    if JoinsUp(s, i, b) then Joined(Plain(s, i, b), i + 1) else Plain(s, i, b)
  }

  /** And to the block before it. */
  function Inserted(s: seq<Block>, i: int, b: Block): seq<Block>
    requires 0 <= i < |s|
  {
    if JoinsDown(s, i, b) then Joined(Upper(s, i, b), i) else Upper(s, i, b)
  }

  lemma UpperAt(s: seq<Block>, i: int, b: Block, j: int)
    requires 0 <= i < |s| && 0 <= j < |Upper(s, i, b)|
    ensures var t := Upper(s, i, b);
      && |t| == (if JoinsUp(s, i, b) then |s| else |s| + 1)
      && t[j] == (if j <= i then s[j]
                  else if j == i + 1 then Block(b.addr, b.size + (if JoinsUp(s, i, b) then s[i + 1].size else 0))
                  else if JoinsUp(s, i, b) then s[j] else s[j - 1])
  {
  }

  /** Block j of the new list: an old one, or the one that holds b. */
  lemma InsertedAt(s: seq<Block>, i: int, b: Block, j: int)
    requires Fits(s, i, b) && 0 <= j < |Inserted(s, i, b)|
    ensures var t := Inserted(s, i, b);
      var k := if JoinsUp(s, i, b) then i + 2 else i + 1;
      var h := if JoinsDown(s, i, b) then i else i + 1;
      && (j < h ==> t[j] == s[j])
      && (j == h ==> t[j].addr == (if JoinsDown(s, i, b) then s[i].addr else b.addr))
      && (j == h ==>
            t[j].size == b.size + (if JoinsUp(s, i, b) then s[i + 1].size else 0) + (if JoinsDown(s, i, b) then
            s[i].size else 0))
      && (j == h ==> t[j].End() == (if JoinsUp(s, i, b) then b.End() + UNIT * s[i + 1].size else b.End()))
      && (j > h ==> 0 <= j - h - 1 + k < |s| && t[j] == s[j - h - 1 + k])
  {
    var u := Upper(s, i, b);
    UpperAt(s, i, b, i);
    UpperAt(s, i, b, i + 1);
    if !JoinsDown(s, i, b) {
      UpperAt(s, i, b, j);
    } else if j < i {
      UpperAt(s, i, b, j);
    } else if j > i {
      UpperAt(s, i, b, j + 1);
    }
  }

  lemma InsertedOrder(s: seq<Block>, i: int, b: Block, j: int, k: int)
    requires Separate(s) && Fits(s, i, b) && (forall l | 0 <= l < |s| :: s[l].size >= 0)
    requires 0 <= j < k < |Inserted(s, i, b)|
    ensures Before(Inserted(s, i, b)[j], Inserted(s, i, b)[k])
  {
    InsertedAt(s, i, b, j);
    InsertedAt(s, i, b, k);
    var c := if JoinsUp(s, i, b) then i + 2 else i + 1;
    var h := if JoinsDown(s, i, b) then i else i + 1;
    if k < h {
      assert Before(s[j], s[k]);
    } else if j < h <= k {
      var k' := if k == h then i else k - h - 1 + c;
      assert j < k' ==> Before(s[j], s[k']);
      assert j < i ==> Before(s[j], s[i]);
    } else {
      var k' := k - h - 1 + c;
      assert h < j ==> Before(s[j - h - 1 + c], s[k']);
      assert i + 1 < k' ==> Before(s[i + 1], s[k']);
    }
  }

  /** freeing keeps the list in order with no two blocks adjacent. */
  lemma InsertedOk(s: seq<Block>, base: int, i: int, b: Block)
    requires FreeList(s, base) == true && Fits(s, i, b) && b.addr >= base + UNIT
    ensures FreeList(Inserted(s, i, b), base) == true
  {
    var t := Inserted(s, i, b);
    assert i == 0 ==> !JoinsDown(s, i, b);
    forall j, k | 0 <= j < k < |t| ensures Before(t[j], t[k]) {
      InsertedOrder(s, i, b, j, k);
    }
    forall j | 0 <= j < |t| ensures j == 0 ==> t[j] == s[0]
      ensures j > 0 ==> t[j].size > 0 && t[j].addr >= base + UNIT
    {
      InsertedAt(s, i, b, j);
    }
  }

  /** It adds exactly b. */
  lemma InsertedUnits(s: seq<Block>, i: int, b: Block)
    requires 0 <= i < |s|
    ensures Units(Inserted(s, i, b)) == Units(s) + b.size
  {
    PlainUnits(s, i, b);
    if JoinsUp(s, i, b) { JoinedUnits(Plain(s, i, b), i + 1); }
    if JoinsDown(s, i, b) { JoinedUnits(Upper(s, i, b), i); }
  }

  lemma PlainUnits(s: seq<Block>, i: int, b: Block)
    requires 0 <= i < |s|
    ensures Units(Plain(s, i, b)) == Units(s) + b.size
  {
    assert s == s[..i + 1] + s[i + 1..];
    UnitsConcat(s[..i + 1], s[i + 1..]);
    UnitsConcat(s[..i + 1] + [b], s[i + 1..]);
    UnitsConcat(s[..i + 1], [b]);
    UnitsOne(b);
  }

  lemma JoinedUnits(s: seq<Block>, j: int)
    requires 0 <= j < |s| - 1
    ensures Units(Joined(s, j)) == Units(s)
  {
    var c := Block(s[j].addr, s[j].size + s[j + 1].size);
    UnitsSplit(s, j);
    UnitsSplit(s[j + 1..], 0);
    assert s[j + 1..][..0] == [] && s[j + 1..][1..] == s[j + 2..];
    UnitsConcat(s[..j] + [c], s[j + 2..]);
    UnitsConcat(s[..j], [c]);
    UnitsOne(c);
  }

  /** What is apart from b and from the list is apart from the list with b in it. */
  lemma InsertedApart(s: seq<Block>, i: int, b: Block, u: Block)
    requires Fits(s, i, b) && Apart(u, b) && (forall j | 0 < j < |s| :: Apart(u, s[j])) && u.size > 0
    requires Separate(s) && (JoinsDown(s, i, b) ==> i > 0)
    ensures forall j | 0 < j < |Inserted(s, i, b)| :: Apart(u, Inserted(s, i, b)[j])
  {
    var t := Inserted(s, i, b);
    forall j | 0 < j < |t| ensures Apart(u, t[j]) {
      InsertedAt(s, i, b, j);
    }
  }

  // malloc.

  /** The list without the last n units of block i. */
  function Taken(s: seq<Block>, i: int, n: int): seq<Block>
    requires 0 <= i < |s|
  {
    if s[i].size == n then s[..i] + s[i + 1..] else s[i := Block(s[i].addr, s[i].size - n)]
  }

  /** The block taken. */
  function TakenBlock(s: seq<Block>, i: int, n: int): Block
    requires 0 <= i < |s|
  {
    Block(s[i].addr + UNIT * (s[i].size - n), n)
  }

  lemma TakenOk(s: seq<Block>, base: int, i: int, n: int)
    requires FreeList(s, base) == true && 0 < i < |s| && 0 < n <= s[i].size
    ensures FreeList(Taken(s, i, n), base) == true
  {
    var t := Taken(s, i, n);
    forall j, k | 0 <= j < k < |t| ensures Before(t[j], t[k]) {
      var j', k' := if s[i].size == n && j >= i then j + 1 else j, if s[i].size == n && k >= i then k + 1 else k;
      assert Before(s[j'], s[k']);
    }
  }

  lemma TakenUnits(s: seq<Block>, i: int, n: int)
    requires 0 < i < |s| && 0 < n <= s[i].size
    ensures Units(Taken(s, i, n)) == Units(s) - n
  {
    var t := Taken(s, i, n);
    UnitsSplit(s, i);
    if s[i].size == n {
      UnitsConcat(s[..i], s[i + 1..]);
    } else {
      UnitsSplit(t, i);
      assert t[..i] == s[..i] && t[i + 1..] == s[i + 1..];
    }
  }

  lemma TakenIsApart(s: seq<Block>, base: int, i: int, n: int, j: int)
    requires FreeList(s, base) == true && 0 < i < |s| && 0 < n <= s[i].size && 0 < j < |Taken(s, i, n)|
    ensures Apart(TakenBlock(s, i, n), Taken(s, i, n)[j])
  {
    var j' := if s[i].size == n && j >= i then j + 1 else j;
    assert j' < i ==> Before(s[j'], s[i]);
    assert i < j' ==> Before(s[i], s[j']);
  }

  /** What is apart from the list is apart from what is taken and from what is left. */
  lemma TakenApart(s: seq<Block>, i: int, n: int, u: Block)
    requires 0 < i < |s| && 0 < n <= s[i].size && (forall j | 0 < j < |s| :: Apart(u, s[j])) && u.size > 0
    ensures Apart(u, TakenBlock(s, i, n))
    ensures forall j | 0 < j < |Taken(s, i, n)| :: Apart(u, Taken(s, i, n)[j])
  {
  }
}
