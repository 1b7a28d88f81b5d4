/** The disk of kernel/fs.c below the directory layer: the free bitmap, the block numbers in
    inodes and indirect blocks, who owns which block, and a file as a sequence of bytes. */
module FsSpec {

  const BSIZE := 1024
  const BPB := 8192
  const NDIRECT := 12
  const NINDIRECT := 256
  const MAXFILE := 268
  const IPB := 16

  /** A block is BSIZE bytes. */
  type Block = seq<int>

  /** The parts of the superblock the block layer uses; datastart is the first block that mkfs
      leaves to files. */
  datatype Layout = Layout(size: int, inodestart: int, ninodes: int, bmapstart: int, datastart: int) {
    /** The bitmap lies below the data blocks and has a bit for every block. */
    predicate Ok() {
      && 0 < inodestart && 0 < ninodes
      && inodestart + (ninodes - 1) / IPB < bmapstart
      && bmapstart < datastart && bmapstart + (size - 1) / BPB < datastart <= size
    }

    /** The bitmap block that holds the bit of block b (BBLOCK). */
    function BitmapBlock(b: int): int {
      b / BPB + bmapstart
    }

    /** The block that holds inode i (IBLOCK). */
    function InodeBlock(i: int): int {
      i / IPB + inodestart
    }

    predicate IsData(b: int) {
      datastart <= b < size
    }
  }

  predicate DiskOk(l: Layout, blocks: seq<Block>) {
    l.Ok() && |blocks| == l.size && forall b | 0 <= b < l.size :: |blocks[b]| == BSIZE
  }

  function Zero(): (b: Block)
    ensures |b| == BSIZE
  {
    seq(BSIZE, _ => 0)
  }

  // Bits of the free map.

  /** `(x & (1 << m)) != 0`: the m-th binary digit of x. */
  predicate BitOf(x: int, m: nat)
    decreases m
  {
    if m == 0 then x % 2 == 1 else BitOf(x / 2, m - 1)
  }

  /** `x | (1 << m)` or `x & ~(1 << m)`. */
  function SetBitOf(x: int, m: nat, v: bool): int
    decreases m
  {
    if m == 0 then x - x % 2 + (if v then 1 else 0) else 2 * SetBitOf(x / 2, m - 1, v) + x % 2
  }

  lemma {:induction false} SetBitOfAt(x: int, m: nat, v: bool, k: nat)
    ensures BitOf(SetBitOf(x, m, v), k) == if k == m then v else BitOf(x, k)
    decreases m
  {
    if m > 0 && k > 0 {
      SetBitOfAt(x / 2, m - 1, v, k - 1);
    }
  }

  /** The position of a block's bit in the bitmap determines the block. */
  lemma BitPosition(b: nat, c: nat)
    ensures b / BPB == c / BPB && b % BPB / 8 == c % BPB / 8 && b % 8 == c % 8 ==> b == c
  {
    assert b % BPB % 8 == b % 8 && c % BPB % 8 == c % 8;
  }

  predicate Bit(l: Layout, blocks: seq<Block>, b: int)
    requires DiskOk(l, blocks) && 0 <= b < l.size
  {
    BitOf(blocks[l.BitmapBlock(b)][b % BPB / 8], b % 8)
  }

  function WithBit(l: Layout, blocks: seq<Block>, b: int, v: bool): (r: seq<Block>)
    requires DiskOk(l, blocks) && 0 <= b < l.size
    ensures DiskOk(l, r)
  {
    var x := l.BitmapBlock(b);
    blocks[x := blocks[x][b % BPB / 8 := SetBitOf(blocks[x][b % BPB / 8], b % 8, v)]]
  }

  /** Marking a block changes its own bit, no other, and no data block. */
  lemma WithBitAt(l: Layout, blocks: seq<Block>, b: int, v: bool, c: int)
    requires DiskOk(l, blocks) && 0 <= b < l.size && 0 <= c < l.size
    ensures Bit(l, WithBit(l, blocks, b, v), c) == if c == b then v else Bit(l, blocks, c)
    ensures l.IsData(c) ==> WithBit(l, blocks, b, v)[c] == blocks[c]
  {
    SetBitOfAt(blocks[l.BitmapBlock(b)][b % BPB / 8], b % 8, v, c % 8);
    BitPosition(b, c);
  }

  // Words of an indirect block.

  /** The j-th 32-bit word of a block, lowest byte first. */
  function Word(b: Block, j: int): int
    requires |b| == BSIZE && 0 <= j < NINDIRECT
  {
    b[4 * j] + 256 * b[4 * j + 1] + 65536 * b[4 * j + 2] + 16777216 * b[4 * j + 3]
  }

  function WithWord(b: Block, j: int, v: int): (r: Block)
    requires |b| == BSIZE && 0 <= j < NINDIRECT
    ensures |r| == BSIZE
  {
    b[4 * j := v % 256][4 * j + 1 := v / 256 % 256][4 * j + 2 := v / 65536 % 256][4 * j + 3 := v / 16777216 % 256]
  }

  lemma WithWordAt(b: Block, j: int, v: int, k: int)
    requires |b| == BSIZE && 0 <= j < NINDIRECT && 0 <= k < NINDIRECT && 0 <= v < 0x1_0000_0000
    ensures Word(WithWord(b, j, v), k) == if k == j then v else Word(b, k)
  {
    if k == j {
      FourBytes(v);
    } else {
      var r := WithWord(b, j, v);
      assert r[4 * k] == b[4 * k] && r[4 * k + 1] == b[4 * k + 1];
      assert r[4 * k + 2] == b[4 * k + 2] && r[4 * k + 3] == b[4 * k + 3];
    }
  }

  lemma FourBytes(v: int)
    requires 0 <= v < 0x1_0000_0000
    ensures v % 256 + 256 * (v / 256 % 256) + 65536 * (v / 65536 % 256) + 16777216 * (v / 16777216 % 256) == v
  {
    assert v / 65536 == v / 256 / 256 && v / 16777216 == v / 65536 / 256;
  }

  lemma ZeroWord(j: int)
    requires 0 <= j < NINDIRECT
    ensures Word(Zero(), j) == 0
  {
  }

  // Block numbers and their owners.

  /** The places where inode i can name a block: slots 0..11 are its direct entries, slot 12 the
      indirect block, slots 13..268 the entries of the indirect block. */
  datatype Slot = Slot(i: int, k: int)

  const SLOTS := 269

  predicate AddrsOk(a: seq<int>) {
    |a| == NDIRECT + 1
  }

  /** The block that slot k names, or 0. */
  function Val(blocks: seq<Block>, a: seq<int>, k: int): int
    requires AddrsOk(a) && 0 <= k < SLOTS
    requires 0 <= a[NDIRECT] < |blocks| && |blocks[a[NDIRECT]]| == BSIZE
  {
    if k <= NDIRECT then a[k]
    else if a[NDIRECT] == 0 then 0
    else Word(blocks[a[NDIRECT]], k - NDIRECT - 1)
  }

  /** The slot of the bn-th block of a file. */
  function FileSlot(bn: int): int {
    if bn < NDIRECT then bn else bn + 1
  }

  /** The blocks, the block numbers held in each inode, and the slot that owns each block. */
  datatype Fs = Fs(blocks: seq<Block>, addrs: seq<seq<int>>, owner: map<int, Slot>)

  /** Indirect block numbers are block numbers. */
  predicate Table(l: Layout, f: Fs) {
    && DiskOk(l, f.blocks)
    && forall i | 0 <= i < |f.addrs| :: AddrsOk(f.addrs[i]) && 0 <= f.addrs[i][NDIRECT] < l.size
  }

  predicate InRange(f: Fs, s: Slot) {
    0 <= s.i < |f.addrs| && 0 <= s.k < SLOTS
  }

  function At(l: Layout, f: Fs, s: Slot): int
    requires Table(l, f) && InRange(f, s)
  {
    Val(f.blocks, f.addrs[s.i], s.k)
  }

  /** Block ownership: every block named by a slot is a data block owned by that slot alone, and
      the bits set in the map are those of the metadata and of the owned blocks. */
  ghost predicate Owned(l: Layout, f: Fs) {
    && Table(l, f)
    && (forall s | InRange(f, s) && At(l, f, s) != 0 :: At(l, f, s) in f.owner && f.owner[At(l, f, s)] == s)
    && (forall b | b in f.owner :: l.IsData(b) && InRange(f, f.owner[b]) && At(l, f, f.owner[b]) == b)
    && (forall b | 0 <= b < l.size :: Bit(l, f.blocks, b) <==> b < l.datastart || b in f.owner)
  }

  /** A disk whose inodes hold no blocks and whose bitmap marks the metadata alone is well owned. */
  lemma EmptyOwned(l: Layout, blocks: seq<Block>, addrs: seq<seq<int>>)
    requires DiskOk(l, blocks) && forall b | 0 <= b < l.size :: Bit(l, blocks, b) <==> b < l.datastart
    requires forall i | 0 <= i < |addrs| :: AddrsOk(addrs[i]) && forall k | 0 <= k <= NDIRECT :: addrs[i][k] == 0
    ensures Owned(l, Fs(blocks, addrs, map[]))
  {
  }

  /** The indirect block of an inode, when it has one, is its own data block. */
  lemma IndirectOwned(l: Layout, f: Fs, i: int)
    requires Owned(l, f) && 0 <= i < |f.addrs| && f.addrs[i][NDIRECT] != 0
    ensures var x := f.addrs[i][NDIRECT]; x in f.owner && f.owner[x] == Slot(i, NDIRECT) && l.IsData(x)
  {
    assert At(l, f, Slot(i, NDIRECT)) == f.addrs[i][NDIRECT];
  }

  lemma BitDataFrame(l: Layout, blocks: seq<Block>, x: int, blk: Block, c: int)
    requires DiskOk(l, blocks) && l.IsData(x) && |blk| == BSIZE && 0 <= c < l.size
    ensures DiskOk(l, blocks[x := blk]) && Bit(l, blocks[x := blk], c) == Bit(l, blocks, c)
  {
  }

  // Allocation.

  /** balloc: block b marked and zeroed. */
  function Balloced(l: Layout, blocks: seq<Block>, b: int): (r: seq<Block>)
    requires DiskOk(l, blocks) && 0 <= b < l.size
    ensures DiskOk(l, r)
  {
    WithBit(l, blocks, b, true)[b := Zero()]
  }

  lemma BallocedAt(l: Layout, blocks: seq<Block>, b: int, c: int)
    requires DiskOk(l, blocks) && l.IsData(b) && 0 <= c < l.size
    ensures Bit(l, Balloced(l, blocks, b), c) == (c == b || Bit(l, blocks, c))
    ensures l.IsData(c) ==> Balloced(l, blocks, b)[c] == if c == b then Zero() else blocks[c]
  {
    WithBitAt(l, blocks, b, true, c);
    BitDataFrame(l, WithBit(l, blocks, b, true), b, Zero(), c);
  }

  /** Block b, fresh from balloc, stored in slot s. */
  ghost function Allocated(l: Layout, f: Fs, s: Slot, b: int): (g: Fs)
    requires Table(l, f) && InRange(f, s) && 0 <= b < l.size
    requires s.k > NDIRECT ==> b != f.addrs[s.i][NDIRECT]
    ensures Table(l, g) && |g.addrs| == |f.addrs|
  {
    var blocks := Balloced(l, f.blocks, b);
    var a := f.addrs[s.i];
    if s.k <= NDIRECT then Fs(blocks, f.addrs[s.i := a[s.k := b]], f.owner[b := s])
    else Fs(blocks[a[NDIRECT] := WithWord(blocks[a[NDIRECT]], s.k - NDIRECT - 1, b)], f.addrs, f.owner[b := s])
  }

  ghost predicate CanAllocate(l: Layout, f: Fs, s: Slot, b: int) {
    && Owned(l, f) && InRange(f, s) && 0 <= b < l.size && !Bit(l, f.blocks, b) && l.size <= 0x1_0000_0000
    && At(l, f, s) == 0
    && (s.k > NDIRECT ==> f.addrs[s.i][NDIRECT] != 0)
  }

  lemma FreeIsData(l: Layout, f: Fs, b: int)
    requires Owned(l, f) && 0 <= b < l.size && !Bit(l, f.blocks, b)
    ensures l.IsData(b) && b !in f.owner
  {
  }

  /** What storing a fresh block does to the bitmap and to the data blocks. */
  lemma AllocatedBlock(l: Layout, f: Fs, s: Slot, b: int, c: int)
    requires CanAllocate(l, f, s, b) && 0 <= c < l.size
    ensures s.k > NDIRECT ==> b != f.addrs[s.i][NDIRECT]
    ensures var g := Allocated(l, f, s, b);
      && Bit(l, g.blocks, c) == (c == b || Bit(l, f.blocks, c))
      && (l.IsData(c) && c != b && !(s.k > NDIRECT && c == f.addrs[s.i][NDIRECT]) ==> g.blocks[c] == f.blocks[c])
      && g.blocks[b] == Zero()
      && (s.k > NDIRECT ==>
            var x := f.addrs[s.i][NDIRECT]; g.blocks[x] == WithWord(f.blocks[x], s.k - NDIRECT - 1, b))
  {
    FreeIsData(l, f, b);
    BallocedAt(l, f.blocks, b, c);
    if s.k > NDIRECT {
      var x := f.addrs[s.i][NDIRECT];
      IndirectOwned(l, f, s.i);
      BallocedAt(l, f.blocks, b, x);
      var blocks := Balloced(l, f.blocks, b);
      BitDataFrame(l, blocks, x, WithWord(blocks[x], s.k - NDIRECT - 1, b), c);
    }
  }

  /** Storing a fresh block fills its slot and leaves what every other slot names. */
  lemma AllocatedAt(l: Layout, f: Fs, s: Slot, b: int, t: Slot)
    requires CanAllocate(l, f, s, b) && InRange(f, t)
    ensures s.k > NDIRECT ==> b != f.addrs[s.i][NDIRECT]
    ensures At(l, Allocated(l, f, s, b), t) == if t == s then b else At(l, f, t)
  {
    AllocatedBlock(l, f, s, b, b);
    if t.k > NDIRECT {
      var y := f.addrs[t.i][NDIRECT];
      ZeroWord(t.k - NDIRECT - 1);
      if y != 0 {
        IndirectOwned(l, f, t.i);
        AllocatedBlock(l, f, s, b, y);
        if s.k > NDIRECT {
          IndirectOwned(l, f, s.i);
          WithWordAt(f.blocks[y], s.k - NDIRECT - 1, b, t.k - NDIRECT - 1);
        }
      }
    }
  }

  /** Allocation into a slot keeps ownership. */
  lemma AllocatedOwned(l: Layout, f: Fs, s: Slot, b: int)
    requires CanAllocate(l, f, s, b)
    ensures s.k > NDIRECT ==> b != f.addrs[s.i][NDIRECT]
    ensures Owned(l, Allocated(l, f, s, b))
  {
    AllocatedBlock(l, f, s, b, b);
    FreeIsData(l, f, b);
    var g := Allocated(l, f, s, b);
    forall t | InRange(g, t) ensures At(l, g, t) == if t == s then b else At(l, f, t) {
      AllocatedAt(l, f, s, b, t);
    }
    forall c | 0 <= c < l.size ensures Bit(l, g.blocks, c) == (c == b || Bit(l, f.blocks, c)) {
      AllocatedBlock(l, f, s, b, c);
    }
  }

  // File contents.

  /** The data behind a slot; a slot that names no block stands for zeroes. */
  function SlotData(l: Layout, f: Fs, s: Slot): (d: Block)
    requires Table(l, f) && InRange(f, s) && 0 <= At(l, f, s) < l.size
    ensures |d| == BSIZE
  {
    if At(l, f, s) == 0 then Zero() else f.blocks[At(l, f, s)]
  }

  /** Slot numbers are block numbers. */
  lemma SlotInDisk(l: Layout, f: Fs, s: Slot)
    requires Owned(l, f) && InRange(f, s)
    ensures 0 <= At(l, f, s) < l.size
    ensures At(l, f, s) != 0 ==> l.IsData(At(l, f, s)) && f.owner[At(l, f, s)] == s
  {
  }

  /** Allocation changes no file data. */
  lemma AllocatedData(l: Layout, f: Fs, s: Slot, b: int, t: Slot)
    requires CanAllocate(l, f, s, b) && InRange(f, t) && t.k != NDIRECT
    ensures s.k > NDIRECT ==> b != f.addrs[s.i][NDIRECT]
    ensures Owned(l, Allocated(l, f, s, b))
    ensures 0 <= At(l, f, t) < l.size && 0 <= At(l, Allocated(l, f, s, b), t) < l.size
    ensures SlotData(l, Allocated(l, f, s, b), t) == SlotData(l, f, t)
  {
    AllocatedOwned(l, f, s, b);
    SlotInDisk(l, f, t);
    AllocatedAt(l, f, s, b, t);
    AllocatedBlock(l, f, s, b, if At(l, f, t) == 0 then b else At(l, f, t));
    FreeIsData(l, f, b);
    if s.k > NDIRECT { IndirectOwned(l, f, s.i); }
  }

  /** New contents for the block that slot s names. */
  function Stored(l: Layout, f: Fs, s: Slot, blk: Block): Fs
    requires Table(l, f) && InRange(f, s) && 0 <= At(l, f, s) < l.size
  {
    f.(blocks := f.blocks[At(l, f, s) := blk])
  }

  ghost predicate CanStore(l: Layout, f: Fs, s: Slot, blk: Block) {
    Owned(l, f) && InRange(f, s) && s.k != NDIRECT && At(l, f, s) != 0 && |blk| == BSIZE
  }

  lemma StoredAt(l: Layout, f: Fs, s: Slot, blk: Block, t: Slot)
    requires CanStore(l, f, s, blk) && InRange(f, t)
    ensures 0 <= At(l, f, s) < l.size && Table(l, Stored(l, f, s, blk))
    ensures At(l, Stored(l, f, s, blk), t) == At(l, f, t)
  {
    SlotInDisk(l, f, s);
    if f.addrs[t.i][NDIRECT] != 0 { IndirectOwned(l, f, t.i); }
  }

  /** Writing a file block changes that slot's data, no other data and no ownership. */
  lemma StoredData(l: Layout, f: Fs, s: Slot, blk: Block, t: Slot)
    requires CanStore(l, f, s, blk) && InRange(f, t)
    ensures 0 <= At(l, f, s) < l.size && 0 <= At(l, f, t) < l.size && Table(l, Stored(l, f, s, blk))
    ensures At(l, Stored(l, f, s, blk), t) == At(l, f, t)
    ensures SlotData(l, Stored(l, f, s, blk), t) == if t == s then blk else SlotData(l, f, t)
  {
    StoredAt(l, f, s, blk, t);
    SlotInDisk(l, f, s);
    SlotInDisk(l, f, t);
  }

  lemma StoredOwned(l: Layout, f: Fs, s: Slot, blk: Block)
    requires CanStore(l, f, s, blk)
    ensures 0 <= At(l, f, s) < l.size && Owned(l, Stored(l, f, s, blk))
  {
    SlotInDisk(l, f, s);
    var g := Stored(l, f, s, blk);
    forall t | InRange(g, t) ensures Table(l, g) && At(l, g, t) == At(l, f, t) {
      StoredAt(l, f, s, blk, t);
    }
    forall c | 0 <= c < l.size ensures Bit(l, g.blocks, c) == Bit(l, f.blocks, c) {
      BitDataFrame(l, f.blocks, At(l, f, s), blk, c);
    }
  }

  // Truncation.

  /** The slots freed when itrunc has passed d of the first 13 and e of the indirect entries. */
  predicate Gone(k: int, d: int, e: int) {
    k < d || NDIRECT < k < NDIRECT + 1 + e
  }

  /** Block c belongs to one of those slots of inode i. */
  predicate Dead(owner: map<int, Slot>, c: int, i: int, d: int, e: int) {
    c in owner && owner[c].i == i && Gone(owner[c].k, d, e)
  }

  /** f with the bits of those blocks of inode i cleared, and the data blocks as they were. */
  ghost predicate FreedTo(l: Layout, f: Fs, blocks: seq<Block>, i: int, d: int, e: int)
    requires DiskOk(l, f.blocks)
  {
    && DiskOk(l, blocks)
    && (forall c | l.IsData(c) :: blocks[c] == f.blocks[c])
    && (forall c | 0 <= c < l.size :: 
          Bit(l, blocks, c) <==> Bit(l, f.blocks, c) && !Dead(f.owner, c, i, d, e))
  }

  /** Slot k is the next one itrunc comes to. */
  predicate NextSlot(k: int, d: int, e: int, d': int, e': int) {
    || (k == d < NDIRECT && d' == d + 1 && e' == e == 0)
    || (d == d' == NDIRECT && 0 <= e && k == NDIRECT + 1 + e < SLOTS && e' == e + 1)
    || (d == k == NDIRECT && d' == d + 1 && e' == e == NINDIRECT)
  }

  lemma DeadStep(l: Layout, f: Fs, s: Slot, d: int, e: int, d': int, e': int, c: int)
    requires Owned(l, f) && InRange(f, s) && NextSlot(s.k, d, e, d', e')
    ensures Dead(f.owner, c, s.i, d', e') <==> Dead(f.owner, c, s.i, d, e) || (At(l, f, s) != 0 && c == At(l, f, s))
    ensures c == At(l, f, s) ==> !Dead(f.owner, c, s.i, d, e)
  {
    SlotInDisk(l, f, s);
    if c in f.owner {
      assert At(l, f, f.owner[c]) == c;
      assert f.owner[c].i == s.i && f.owner[c].k == s.k ==> f.owner[c] == s;
    }
  }

  lemma FreedSame(l: Layout, f: Fs, blocks: seq<Block>, i: int, d: int, e: int, d': int, e': int)
    requires Owned(l, f) && FreedTo(l, f, blocks, i, d, e)
    requires forall c | 0 <= c < l.size :: Dead(f.owner, c, i, d', e') <==> Dead(f.owner, c, i, d, e)
    ensures FreedTo(l, f, blocks, i, d', e')
  {
  }

  lemma FreedOne(l: Layout, f: Fs, blocks: seq<Block>, b: int, i: int, d: int, e: int, d': int, e': int)
    requires Owned(l, f) && FreedTo(l, f, blocks, i, d, e) && l.IsData(b)
    requires forall c | 0 <= c < l.size :: Dead(f.owner, c, i, d', e') <==> Dead(f.owner, c, i, d, e) || c == b
    ensures FreedTo(l, f, WithBit(l, blocks, b, false), i, d', e')
  {
    forall c | 0 <= c < l.size
      ensures Bit(l, WithBit(l, blocks, b, false), c) == (c != b && Bit(l, blocks, c))
      ensures l.IsData(c) ==> WithBit(l, blocks, b, false)[c] == blocks[c]
    {
      WithBitAt(l, blocks, b, false, c);
    }
  }

  /** The next slot's block is still marked, so bfree does not panic, and freeing it is progress. */
  lemma FreedStep(l: Layout, f: Fs, blocks: seq<Block>, s: Slot, d: int, e: int, d': int, e': int)
    requires Owned(l, f) && InRange(f, s) && FreedTo(l, f, blocks, s.i, d, e)
    requires NextSlot(s.k, d, e, d', e')
    ensures At(l, f, s) == 0 ==> FreedTo(l, f, blocks, s.i, d', e')
    ensures At(l, f, s) != 0 ==>
      && l.IsData(At(l, f, s)) && Bit(l, blocks, At(l, f, s))
      && FreedTo(l, f, WithBit(l, blocks, At(l, f, s), false), s.i, d', e')
  {
    var b := At(l, f, s);
    SlotInDisk(l, f, s);
    forall c {
      DeadStep(l, f, s, d, e, d', e', c);
    }
    if b == 0 {
      FreedSame(l, f, blocks, s.i, d, e, d', e');
    } else {
      FreedOne(l, f, blocks, b, s.i, d, e, d', e');
    }
  }

  lemma DeadNoIndirect(l: Layout, f: Fs, i: int, c: int)
    requires Owned(l, f) && 0 <= i < |f.addrs| && f.addrs[i][NDIRECT] == 0
    ensures Dead(f.owner, c, i, NDIRECT + 1, NINDIRECT) <==> Dead(f.owner, c, i, NDIRECT, 0)
  {
    if c in f.owner && f.owner[c].i == i {
      assert At(l, f, f.owner[c]) == c;
    }
  }

  /** An inode without an indirect block has no indirect entries to free. */
  lemma FreedNoIndirect(l: Layout, f: Fs, blocks: seq<Block>, i: int)
    requires Owned(l, f) && 0 <= i < |f.addrs| && FreedTo(l, f, blocks, i, NDIRECT, 0)
    requires f.addrs[i][NDIRECT] == 0
    ensures FreedTo(l, f, blocks, i, NDIRECT + 1, NINDIRECT)
  {
    forall c {
      DeadNoIndirect(l, f, i, c);
    }
    FreedSame(l, f, blocks, i, NDIRECT, 0, NDIRECT + 1, NINDIRECT);
  }

  function NoAddrs(): (a: seq<int>)
    ensures AddrsOk(a)
  {
    seq(NDIRECT + 1, _ => 0)
  }

  /** Inode i with all its slots empty. */
  ghost function Truncated(f: Fs, blocks: seq<Block>, i: int): Fs
    requires 0 <= i < |f.addrs|
  {
    Fs(blocks, f.addrs[i := NoAddrs()], map b | b in f.owner && f.owner[b].i != i :: f.owner[b])
  }

  lemma TruncatedAt(l: Layout, f: Fs, blocks: seq<Block>, i: int, t: Slot)
    requires Owned(l, f) && 0 <= i < |f.addrs| && FreedTo(l, f, blocks, i, NDIRECT + 1, NINDIRECT) && InRange(f, t)
    ensures Table(l, Truncated(f, blocks, i))
    ensures At(l, Truncated(f, blocks, i), t) == if t.i == i then 0 else At(l, f, t)
    ensures 0 <= At(l, f, t) < l.size
    ensures t.i != i ==> SlotData(l, Truncated(f, blocks, i), t) == SlotData(l, f, t)
  {
    SlotInDisk(l, f, t);
    if f.addrs[t.i][NDIRECT] != 0 { IndirectOwned(l, f, t.i); }
  }

  /** Freeing every slot of an inode keeps ownership; the blocks of the other inodes stay. */
  lemma TruncatedOwned(l: Layout, f: Fs, blocks: seq<Block>, i: int)
    requires Owned(l, f) && 0 <= i < |f.addrs| && FreedTo(l, f, blocks, i, NDIRECT + 1, NINDIRECT)
    ensures Owned(l, Truncated(f, blocks, i))
  {
    var g := Truncated(f, blocks, i);
    forall t | InRange(f, t) ensures Table(l, g) && At(l, g, t) == if t.i == i then 0 else At(l, f, t) {
      TruncatedAt(l, f, blocks, i, t);
    }
    forall c | c in f.owner ensures Gone(f.owner[c].k, NDIRECT + 1, NINDIRECT) {
      assert InRange(f, f.owner[c]);
    }
  }
}
