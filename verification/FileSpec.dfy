/** A file of kernel/fs.c as a sequence of bytes over the block layer: what bmap, readi, writei and
    itrunc mean for the bytes of one inode and of all the others. */
module FileSpec {
  import opened FsSpec
  import LogSpec

  const MAXSIZE := MAXFILE * BSIZE
  const U32 := 0x1_0000_0000

  /** These hold always; they keep definitions below out of proofs that do not ask for them. */
  predicate Look(k: int) { true }
  predicate Seek(k: int) { true }

  /** Slot of the file block that holds byte p. */
  function SlotOf(i: int, p: int): Slot {
    Slot(i, FileSlot(p / BSIZE))
  }

  /** Byte p of file i; bytes of blocks never allocated are zero. */
  ghost function Byte(l: Layout, f: Fs, i: int, p: int): int
    requires Owned(l, f) && 0 <= i < |f.addrs| && 0 <= p < MAXSIZE
  {
    SlotInDisk(l, f, SlotOf(i, p));
    SlotData(l, f, SlotOf(i, p))[p % BSIZE]
  }

  /** The first n bytes of file i. */
  ghost function Contents(l: Layout, f: Fs, i: int, n: int): (c: seq<int>)
    requires Owned(l, f) && 0 <= i < |f.addrs| && 0 <= n <= MAXSIZE
    ensures |c| == n
  {
    seq(n, p requires 0 <= p < n => Byte(l, f, i, p))
  }

  /** No hole: every block with a byte below n is allocated. */
  ghost predicate Filled(l: Layout, f: Fs, i: int, n: int)
    requires Table(l, f) && 0 <= i < |f.addrs|
  {
    forall bn | 0 <= bn < MAXFILE && bn * BSIZE < n :: At(l, f, Slot(i, FileSlot(bn))) != 0
  }

  /** From f to g slots may have been filled with fresh blocks for inode i, and nothing else. */
  ghost predicate Grown(l: Layout, f: Fs, g: Fs, i: int) {
    && Owned(l, f) && Owned(l, g) && |g.addrs| == |f.addrs|
    && (forall t | InRange(f, t) && (t.i != i || At(l, f, t) != 0) :: At(l, g, t) == At(l, f, t))
    && (forall t | InRange(f, t) && t.k != NDIRECT :: SameData(l, f, g, t))
  }

  ghost predicate SameData(l: Layout, f: Fs, g: Fs, t: Slot)
    requires Owned(l, f) && Owned(l, g) && InRange(f, t) && InRange(g, t)
  {
    SlotInDisk(l, f, t); SlotInDisk(l, g, t);
    SlotData(l, g, t) == SlotData(l, f, t)
  }

  /** The other inodes keep their blocks and their bytes. */
  ghost predicate OthersKept(l: Layout, f: Fs, g: Fs, i: int) {
    && Owned(l, f) && Owned(l, g) && |g.addrs| == |f.addrs|
    && (forall t | InRange(f, t) && t.i != i :: At(l, g, t) == At(l, f, t))
    && (forall t | InRange(f, t) && t.i != i && t.k != NDIRECT :: SameData(l, f, g, t))
  }

  lemma GrownByOne(l: Layout, f: Fs, s: Slot, b: int)
    requires CanAllocate(l, f, s, b)
    ensures s.k > NDIRECT ==> b != f.addrs[s.i][NDIRECT]
    ensures Grown(l, f, Allocated(l, f, s, b), s.i)
    ensures At(l, Allocated(l, f, s, b), s) == b
  {
    AllocatedOwned(l, f, s, b);
    var g := Allocated(l, f, s, b);
    forall t | InRange(f, t) ensures At(l, g, t) == if t == s then b else At(l, f, t) {
      AllocatedAt(l, f, s, b, t);
    }
    forall t | InRange(f, t) && t.k != NDIRECT ensures SameData(l, f, g, t) {
      AllocatedData(l, f, s, b, t);
    }
  }

  lemma GrownTwice(l: Layout, f: Fs, g: Fs, h: Fs, i: int)
    requires Grown(l, f, g, i) && Grown(l, g, h, i)
    ensures Grown(l, f, h, i)
  {
    forall t | InRange(f, t) && t.k != NDIRECT ensures SameData(l, f, h, t) {
      assert SameData(l, f, g, t) && SameData(l, g, h, t);
    }
  }

  /** Growing changes no byte of any file. */
  lemma GrownBytes(l: Layout, f: Fs, g: Fs, i: int, j: int, p: int)
    requires Grown(l, f, g, i) && 0 <= j < |f.addrs| && 0 <= p < MAXSIZE
    ensures Byte(l, g, j, p) == Byte(l, f, j, p)
  {
    assert SameData(l, f, g, SlotOf(j, p));
  }

  /** Bytes d over a block from offset o. */
  function Patched(b: Block, o: int, d: seq<int>): (r: Block)
    requires |b| == BSIZE && 0 <= o && o + |d| <= BSIZE
    ensures |r| == BSIZE
    ensures forall q | 0 <= q < BSIZE :: r[q] == if o <= q < o + |d| then d[q - o] else b[q]
  {
    b[..o] + d + b[o + |d|..]
  }

  lemma SameBlock(off: int, m: int, p: int)
    requires 0 <= off && 0 <= m && off % BSIZE + m <= BSIZE && 0 <= p
    ensures p / BSIZE == off / BSIZE ==> (off <= p < off + m <==> off % BSIZE <= p % BSIZE < off % BSIZE + m)
    ensures p / BSIZE == off / BSIZE ==> p % BSIZE - off % BSIZE == p - off
    ensures off <= p < off + m ==> p / BSIZE == off / BSIZE
  {
    assert p == p / BSIZE * BSIZE + p % BSIZE && off == off / BSIZE * BSIZE + off % BSIZE;
    if off <= p < off + m {
      assert off / BSIZE * BSIZE <= p < off / BSIZE * BSIZE + BSIZE;
    }
  }

  /** A stretch of a file within one block, as it lies in that block. */
  lemma PieceOfBlock(l: Layout, f: Fs, i: int, n: int, off: int, m: int)
    requires Owned(l, f) && 0 <= i < |f.addrs| && 0 <= off && 0 <= m && off + m <= n <= MAXSIZE && off < n
    requires off % BSIZE + m <= BSIZE && At(l, f, SlotOf(i, off)) != 0
    ensures 0 < At(l, f, SlotOf(i, off)) < l.size
    ensures Contents(l, f, i, n)[off..off + m] == f.blocks[At(l, f, SlotOf(i, off))][off % BSIZE..off % BSIZE + m]
  {
    SlotInDisk(l, f, SlotOf(i, off));
    var c := Contents(l, f, i, n)[off..off + m];
    forall q | 0 <= q < m ensures c[q] == f.blocks[At(l, f, SlotOf(i, off))][off % BSIZE..off % BSIZE + m][q] {
      SameBlock(off, m, off + q);
      assert c[q] == Byte(l, f, i, off + q);
    }
  }

  lemma Adjoin(c: seq<int>, a: int, b: int, d: int)
    requires 0 <= a <= b <= d <= |c|
    ensures c[a..b] + c[b..d] == c[a..d]
  {
  }

  /** One block of writei: d stored at file offset off, within the block. */
  ghost predicate Wrote(l: Layout, f: Fs, g: Fs, i: int, off: int, d: seq<int>)
    requires Owned(l, f) && 0 <= i < |f.addrs|
  {
    && OthersKept(l, f, g, i)
    && (forall t | InRange(f, t) && At(l, f, t) != 0 :: At(l, g, t) == At(l, f, t))
    && (forall p | 0 <= p < MAXSIZE ::
          Byte(l, g, i, p) == if off <= p < off + |d| then d[p - off] else Byte(l, f, i, p))
  }

  lemma StoreWrites(l: Layout, f: Fs, i: int, off: int, d: seq<int>, blk: Block)
    requires Owned(l, f) && 0 <= i < |f.addrs| && 0 <= off < MAXSIZE && off % BSIZE + |d| <= BSIZE
    requires At(l, f, SlotOf(i, off)) != 0 && At(l, f, SlotOf(i, off)) < l.size
    requires blk == Patched(f.blocks[At(l, f, SlotOf(i, off))], off % BSIZE, d)
    ensures Owned(l, Stored(l, f, SlotOf(i, off), blk))
    ensures Wrote(l, f, Stored(l, f, SlotOf(i, off), blk), i, off, d)
  {
    var s := SlotOf(i, off);
    SlotInDisk(l, f, s);
    StoredOwned(l, f, s, blk);
    var g := Stored(l, f, s, blk);
    forall t | InRange(f, t) ensures At(l, g, t) == At(l, f, t)
        && SlotData(l, g, t) == if t == s then blk else SlotData(l, f, t) {
      StoredData(l, f, s, blk, t);
    }
    forall p | 0 <= p < MAXSIZE
      ensures Byte(l, g, i, p) == if off <= p < off + |d| then d[p - off] else Byte(l, f, i, p)
    {
      SameBlock(off, |d|, p);
      StoredData(l, f, s, blk, SlotOf(i, p));
    }
  }

  /** Writing twice in a row is writing the concatenation. */
  lemma WroteNext(l: Layout, f: Fs, g: Fs, h: Fs, i: int, off: int, d: seq<int>, e: seq<int>)
    requires Owned(l, f) == true && 0 <= i < |f.addrs| && Wrote(l, f, g, i, off, d) == true
             && Wrote(l, g, h, i, off + |d|, e) == true
    ensures Wrote(l, f, h, i, off, d + e) == true
  {
    forall p | 0 <= p < MAXSIZE
      ensures Byte(l, h, i, p) == if off <= p < off + |d + e| then (d + e)[p - off] else Byte(l, f, i, p)
    {
    }
    forall t | InRange(f, t) && t.i != i && t.k != NDIRECT ensures SameData(l, f, h, t) {
      assert SameData(l, f, g, t) && SameData(l, g, h, t);
    }
  }

  lemma WroteSlice(l: Layout, f: Fs, g: Fs, h: Fs, i: int, off: int, src: seq<int>, t: int, r: int)
    requires 0 <= t && 0 <= r && t + r <= |src| && Owned(l, f) == true && 0 <= i < |f.addrs|
    requires Wrote(l, f, g, i, off, src[..t]) == true && Wrote(l, g, h, i, off + t, src[t..][..r]) == true
    ensures Wrote(l, f, h, i, off, src[..t + r]) == true
  {
    WroteNext(l, f, g, h, i, off, src[..t], src[t..][..r]);
    assert src[..t] + src[t..][..r] == src[..t + r];
  }

  /** t bytes of src are in file i from off on, in g, where the file has `now` bytes; it began in f with
      `size` bytes. */
  ghost predicate Holds(l: Layout, f: Fs, g: Fs, i: int, size: int, now: int, off: int, src: seq<int>, t: int) {
    forall k {:trigger Look(k)} | Look(k) ::
      && Owned(l, f) && 0 <= i < |f.addrs| && 0 <= t <= |src| && Wrote(l, f, g, i, off, src[..t])
      && (t > 0 ==> off + t <= MAXSIZE) && now == if t == 0 || off + t <= size then size else off + t
  }

  /** The same for an inode in memory, with block numbers a and size `now`, over the disk v. */
  ghost predicate HoldsIn(l: Layout, v: Fs, sizes: seq<int>, i: int, a: seq<int>, now: int, f: Fs, size: int, off: int,
                          src: seq<int>, t: int) {
    forall k {:trigger Seek(k)} | Seek(k) ::
      && 0 <= i < |v.addrs| == |sizes| == l.ninodes && l.size <= U32 && AddrsOk(a) && 0 <= now <= MAXSIZE
      && var g := Fs(v.blocks, v.addrs[i := a], v.owner);
         Owned(l, g) && Filled(l, g, i, now) && Holds(l, f, g, i, size, now, off, src, t)
  }

  lemma HoldsStart(l: Layout, f: Fs, g: Fs, i: int, size: int, now: int, off: int, src: seq<int>, t: int)
    requires Holds(l, f, g, i, size, now, off, src, t)
    ensures 0 <= t <= |src| && (t > 0 ==> off + t <= MAXSIZE) && Owned(l, g) == true && 0 <= i < |g.addrs|
  {
    assert Look(0);
  }

  lemma HoldsNothing(l: Layout, f: Fs, i: int, size: int, off: int, src: seq<int>)
    requires Owned(l, f) == true && 0 <= i < |f.addrs|
    ensures Holds(l, f, f, i, size, size, off, src, 0)
  {
    assert src[..0] == [];
    NothingWritten(l, f, i, off);
  }

  lemma HoldsMore(l: Layout, f: Fs, g: Fs, h: Fs, i: int, size: int, was: int, now: int, off: int, src: seq<int>,
                  t: int, r: int)
    requires Holds(l, f, g, i, size, was, off, src, t) && Owned(l, g) == true && 0 <= i < |g.addrs|
    requires 0 <= r && 0 <= t && t + r <= |src| && Wrote(l, g, h, i, off + t, src[t..][..r]) == true
    requires off + t <= was && off + t + r <= MAXSIZE && now == if off + t + r <= was then was else off + t + r
    ensures Holds(l, f, h, i, size, now, off, src, t + r)
  {
    assert Look(0);
    WroteSlice(l, f, g, h, i, off, src, t, r);
  }

  /** Growing is writing nothing. */
  lemma GrownWrites(l: Layout, f: Fs, g: Fs, i: int, off: int)
    requires Grown(l, f, g, i) == true && 0 <= i < |f.addrs|
    ensures Wrote(l, f, g, i, off, []) == true
  {
    forall p | 0 <= p < MAXSIZE ensures Byte(l, g, i, p) == Byte(l, f, i, p) {
      GrownBytes(l, f, g, i, i, p);
    }
  }

  lemma GrownThenWrote(l: Layout, f: Fs, g: Fs, h: Fs, i: int, off: int, d: seq<int>)
    requires Grown(l, f, g, i) == true && 0 <= i < |f.addrs| && Wrote(l, g, h, i, off, d) == true
    ensures Wrote(l, f, h, i, off, d) == true
  {
    GrownWrites(l, f, g, i, off);
    WroteNext(l, f, g, h, i, off, [], d);
    assert [] + d == d;
  }

  function Max(a: int, b: int): int { if a > b then a else b }

  /** In terms of whole files: exactly bytes [off, off + |d|) are replaced, the file extended to
      hold them, and the rest kept. */
  lemma WroteContents(l: Layout, f: Fs, g: Fs, i: int, size: int, off: int, d: seq<int>)
    requires Owned(l, f) == true && 0 <= i < |f.addrs| && Wrote(l, f, g, i, off, d) == true
    requires 0 <= off <= size <= MAXSIZE && off + |d| <= MAXSIZE
    ensures var old' := Contents(l, f, i, size);
      Contents(l, g, i, Max(size, off + |d|)) == old'[..off] + d + (if off + |d| < size then old'[off + |d|..] else [])
  {
  }

  /** And every other file is as it was. */
  lemma OtherContents(l: Layout, f: Fs, g: Fs, i: int, j: int, n: int)
    requires OthersKept(l, f, g, i) && 0 <= j < |f.addrs| && j != i && 0 <= n <= MAXSIZE
    ensures Contents(l, g, j, n) == Contents(l, f, j, n)
  {
    forall p | 0 <= p < n ensures Byte(l, g, j, p) == Byte(l, f, j, p) {
      assert SameData(l, f, g, SlotOf(j, p));
    }
  }

  /** itrunc leaves the other files alone. */
  lemma TruncatedKeepsOthers(l: Layout, f: Fs, blocks: seq<Block>, i: int)
    requires Owned(l, f) == true && 0 <= i < |f.addrs| && FreedTo(l, f, blocks, i, NDIRECT + 1, NINDIRECT)
    ensures OthersKept(l, f, Truncated(f, blocks, i), i)
  {
    TruncatedOwned(l, f, blocks, i);
    forall t | InRange(f, t) && t.i != i
      ensures At(l, Truncated(f, blocks, i), t) == At(l, f, t) && SameData(l, f, Truncated(f, blocks, i), t)
    {
      TruncatedAt(l, f, blocks, i, t);
    }
  }

  /** The file stays without a hole when a block that begins at or below its end is filled. */
  lemma FilledMore(l: Layout, f: Fs, g: Fs, i: int, n: int, off: int, m: int)
    requires Table(l, f) && Table(l, g) && 0 <= i < |f.addrs| == |g.addrs| && 0 <= off <= n && Filled(l, f, i, n)
    requires forall t | InRange(f, t) && At(l, f, t) != 0 :: At(l, g, t) != 0
    requires off / BSIZE < MAXFILE && 0 <= m && off % BSIZE + m <= BSIZE && At(l, g, SlotOf(i, off)) != 0
    ensures Filled(l, g, i, Max(n, off + m))
  {
    forall bn | 0 <= bn < MAXFILE && bn * BSIZE < Max(n, off + m) ensures At(l, g, Slot(i, FileSlot(bn))) != 0 {
      assert off == off / BSIZE * BSIZE + off % BSIZE;
      if bn * BSIZE < n {
        assert At(l, f, Slot(i, FileSlot(bn))) != 0;
      } else {
        assert bn == off / BSIZE;
      }
    }
  }

  /** A file of `size` bytes in which d has been stored from off on, without leaving a hole. */
  ghost predicate Writing(l: Layout, f: Fs, g: Fs, i: int, size: int, off: int, d: seq<int>)
    requires Owned(l, f) == true && 0 <= i < |f.addrs|
  {
    Wrote(l, f, g, i, off, d) && Filled(l, g, i, Max(size, off + |d|))
  }

  lemma WritingMore(l: Layout, f: Fs, g: Fs, h: Fs, i: int, size: int, off: int, d: seq<int>, e: seq<int>)
    requires Owned(l, f) == true && 0 <= i < |f.addrs| && Writing(l, f, g, i, size, off, d) == true && 0 <= off <= size
    requires Wrote(l, g, h, i, off + |d|, e) == true && (off + |d|) % BSIZE + |e| <= BSIZE && off + |d| < MAXSIZE
    requires At(l, h, SlotOf(i, off + |d|)) != 0
    ensures Writing(l, f, h, i, size, off, d + e) == true
  {
    WroteNext(l, f, g, h, i, off, d, e);
    FilledMore(l, g, h, i, Max(size, off + |d|), off + |d|, |e|);
  }

  lemma WritingNext(l: Layout, f: Fs, g: Fs, h: Fs, i: int, size: int, off: int, src: seq<int>, tot: int, m: int)
    requires 0 <= tot && 0 <= m && tot + m <= |src| && 0 <= off <= size && off + tot < MAXSIZE
    requires Owned(l, f) == true && 0 <= i < |f.addrs| && Writing(l, f, g, i, size, off, src[..tot]) == true
    requires Wrote(l, g, h, i, off + tot, src[tot..tot + m]) == true && (off + tot) % BSIZE + m <= BSIZE
    requires At(l, h, SlotOf(i, off + tot)) != 0
    ensures Writing(l, f, h, i, size, off, src[..tot + m]) == true
  {
    WritingMore(l, f, g, h, i, size, off, src[..tot], src[tot..tot + m]);
    assert src[..tot] + src[tot..tot + m] == src[..tot + m];
  }

  /** Blocks allocated for a write that then failed do not matter. */
  lemma WritingGrown(l: Layout, f: Fs, g: Fs, h: Fs, i: int, size: int, off: int, d: seq<int>)
    requires Owned(l, f) == true && 0 <= i < |f.addrs| && Writing(l, f, g, i, size, off, d) == true
             && Grown(l, g, h, i) == true
    ensures Writing(l, f, h, i, size, off, d) == true
  {
    GrownWrites(l, g, h, i, off + |d|);
    WroteNext(l, f, g, h, i, off, d, []);
    assert d + [] == d;
  }

  lemma NothingWritten(l: Layout, f: Fs, i: int, off: int)
    requires Owned(l, f) && 0 <= i < |f.addrs|
    ensures Wrote(l, f, f, i, off, []) == true
  {
  }

  lemma WritingStart(l: Layout, f: Fs, i: int, size: int, off: int)
    requires Owned(l, f) == true && 0 <= i < |f.addrs| && Filled(l, f, i, size) && 0 <= off <= size
    ensures Writing(l, f, f, i, size, off, []) == true
  {
  }

  /** The block of an unaligned offset inside or at the end of the file is allocated. */
  lemma UnalignedIsThere(l: Layout, f: Fs, i: int, size: int, off: int)
    requires Table(l, f) && 0 <= i < |f.addrs| && Filled(l, f, i, size)
    requires 0 <= off <= size && off < MAXSIZE && off % BSIZE != 0
    ensures At(l, f, SlotOf(i, off)) != 0
  {
    assert off == off / BSIZE * BSIZE + off % BSIZE;
  }

  // The number of blocks one write passes to log_write.

  /** Blocks that hold one of the n bytes from off. */
  function BlocksOf(off: int, n: int): int
    requires 0 <= off && 0 <= n
  {
    if n == 0 then 0 else (off + n - 1) / BSIZE - off / BSIZE + 1
  }

  /** Data and bitmap blocks for each block written, the indirect block and its bitmap block, and
      the inode; an unaligned first block is allocated already. */
  function WriteCost(off: int, n: int): int
    requires 0 <= off && 0 <= n
  {
    if n == 0 then 1 else 2 * BlocksOf(off, n) + 3 - (if off % BSIZE != 0 then 1 else 0)
  }

  /** The blocks of the bitmap. */
  function Bitmaps(l: Layout): set<int> {
    set b | 0 <= b < l.size :: l.BitmapBlock(b)
  }

  /** Blocks besides those of the bitmap that a write of bytes in the block of offset p is passed on. */
  ghost function PieceBlocks(l: Layout, f: Fs, i: int, p: int): set<int>
    requires Table(l, f) && 0 <= i < |f.addrs| && 0 <= p < MAXSIZE
  {
    {At(l, f, SlotOf(i, p))} + (if p / BSIZE >= NDIRECT then {f.addrs[i][NDIRECT]} else {})
  }

  /** Only bitmap blocks were added to the blocks passed to log_write. */
  ghost predicate Frees(l: Layout, d: set<int>, e: set<int>) {
    forall k {:trigger Look(k)} | Look(k) :: d <= e <= d + Bitmaps(l)
  }

  lemma FreesNothing(l: Layout, d: set<int>)
    ensures Frees(l, d, d)
  {
  }

  lemma FreesOne(l: Layout, d: set<int>, e: set<int>, b: int)
    requires 0 <= b < l.size && d <= e <= d + {l.BitmapBlock(b)}
    ensures Frees(l, d, e)
  {
    assert l.BitmapBlock(b) in Bitmaps(l);
  }

  lemma FreesMore(l: Layout, d: set<int>, e: set<int>, g: set<int>)
    requires Frees(l, d, e) && Frees(l, e, g)
    ensures Frees(l, d, g)
  {
    assert Look(0);
  }

  lemma FreesInode(l: Layout, d: set<int>, e: set<int>, b: int)
    requires Frees(l, d, e)
    ensures d <= e + {b} <= d + Bitmaps(l) + {b}
  {
    assert Look(0);
  }

  /** Blocks log_write may have been called on by a bmap that returned addr. */
  ghost function BmapDirty(l: Layout, addr: int, bn: int, x: int, x': int): set<int> {
    (if addr != 0 then {l.BitmapBlock(addr), addr} else {})
    + (if bn >= NDIRECT && x' != 0 then {x'} else {})
    + (if x == 0 && x' != 0 then {l.BitmapBlock(x')} else {})
  }

  /** The blocks in e and not in d are of the bitmap or for a write in the block of offset p. */
  ghost predicate Touches(l: Layout, f: Fs, i: int, p: int, d: set<int>, e: set<int>) {
    forall k {:trigger Look(k)} | Look(k) ::
      Table(l, f) && 0 <= i < |f.addrs| && 0 <= p < MAXSIZE && d <= e <= d + Bitmaps(l) + PieceBlocks(l, f, i, p)
  }

  /** The same for a whole writei, which also updates the inode. */
  ghost predicate TouchesFile(l: Layout, f: Fs, i: int, p: int, d: set<int>, e: set<int>) {
    forall k {:trigger Look(k)} | Look(k) ::
      && Table(l, f) && 0 <= i < |f.addrs| && 0 <= p < MAXSIZE
      && d <= e <= d + {l.InodeBlock(i)} + Bitmaps(l) + PieceBlocks(l, f, i, p)
  }

  /** A write of n bytes that lie in one block takes one turn of the loop at most. */
  ghost predicate OneBlock(l: Layout, f: Fs, i: int, off: int, n: int, tot: int, k: int, d: set<int>, e: set<int>) {
    forall q {:trigger Look(q)} | Look(q) ::
      0 < n <= BSIZE - off % BSIZE ==> if k == 0 then tot == 0 && e == d else Touches(l, f, i, off, d, e)
  }

  lemma TouchesInode(l: Layout, f: Fs, i: int, p: int, d: set<int>, d1: set<int>, e: set<int>)
    requires Touches(l, f, i, p, d, d1) && e == d1 + {l.InodeBlock(i)}
    ensures TouchesFile(l, f, i, p, d, e)
  {
    assert Look(0);
  }

  lemma OneBlockStart(l: Layout, f: Fs, i: int, off: int, n: int, d: set<int>)
    ensures OneBlock(l, f, i, off, n, 0, 0, d, d)
  {
  }

  lemma OneBlockEnd(l: Layout, f: Fs, i: int, off: int, n: int, tot: int, k: int, d: set<int>, e: set<int>)
    requires OneBlock(l, f, i, off, n, tot, k, d, e) && 0 < n <= BSIZE - off % BSIZE && k > 0
    ensures Touches(l, f, i, off, d, e)
  {
    assert Look(0);
  }

  lemma OneBlockNext(l: Layout, f: Fs, g: Fs, i: int, off: int, n: int, tot: int, tot': int, k: int,
                     d0: set<int>, d: set<int>, e: set<int>)
    requires 0 <= tot < n && 0 <= off && 0 <= k && (off + tot) / BSIZE == off / BSIZE + k
    requires OneBlock(l, f, i, off, n, tot, k, d0, d) && Touches(l, g, i, off + tot, d, e) == true
    ensures OneBlock(l, g, i, off, n, tot', k + 1, d0, e)
  {
    assert Look(0);
    if n <= BSIZE - off % BSIZE { assert off == off / BSIZE * BSIZE + off % BSIZE; }
  }

  lemma PieceTouches(l: Layout, f: Fs, g: Fs, i: int, p: int, d: set<int>, e: set<int>, addr: int, x: int)
    requires Owned(l, f) && Table(l, g) && 0 <= i < |f.addrs| && f.addrs == g.addrs && 0 <= p < MAXSIZE
    requires addr == At(l, f, SlotOf(i, p)) == At(l, g, SlotOf(i, p))
    requires d <= e <= d + BmapDirty(l, addr, p / BSIZE, x, f.addrs[i][NDIRECT]) + {addr}
    ensures Touches(l, g, i, p, d, e)
  {
    SlotInDisk(l, f, SlotOf(i, p));
    SlotInDisk(l, f, Slot(i, NDIRECT));
    assert f.addrs[i][NDIRECT] == At(l, f, Slot(i, NDIRECT));
    assert l.BitmapBlock(addr) in Bitmaps(l) && l.BitmapBlock(f.addrs[i][NDIRECT]) in Bitmaps(l);
  }

  /** One if the indirect block x is among the blocks d. */
  function Counted(x: int, d: set<int>): int {
    if x != 0 && x in d then 1 else 0
  }

  /** The blocks d log_written after k turns of writei's loop, starting from d0. */
  predicate CostOk(d0: set<int>, d: set<int>, x0: int, x: int, k: int, off: int) {
    |d| <= |d0| + 2 * k - (if k > 0 && off % BSIZE != 0 then 1 else 0)
      + Counted(x, d) - Counted(x0, d0) + (if x0 == 0 && x != 0 then 1 else 0)
  }

  lemma AddOne(d: set<int>, a: int)
    ensures |d + {a}| <= |d| + (if a in d then 0 else 1)
  {
    if a in d { assert d + {a} == d; }
  }

  /** One write step adds at most two blocks besides the indirect block and its bitmap block. */
  lemma StepCost(d: set<int>, e: set<int>, a: int, b: int, x: int, x': int, c: int)
    requires d <= e <= d + {a, b} + {x', c}
    requires x' == 0 ==> x == 0 && e <= d + {a, b}
    requires x != 0 ==> x' == x && e <= d + {a, b} + {x}
    requires x == 0 && x' != 0 ==> x' in e
    ensures |e| <= |d| + 2 + Counted(x', e) - Counted(x, d) + (if x == 0 && x' != 0 then 1 else 0)
  {
    AddOne(d, a);
    AddOne(d + {a}, b);
    assert d + {a, b} == d + {a} + {b};
    AddOne(d + {a, b}, x');
    AddOne(d + {a, b} + {x'}, c);
    assert d + {a, b} + {x', c} == d + {a, b} + {x'} + {c};
    if x == 0 && x' == 0 {
      LogSpec.SubsetSize(e, d + {a, b});
    } else if x == 0 {
      LogSpec.SubsetSize(e, d + {a, b} + {x', c});
    } else if x in e {
      LogSpec.SubsetSize(e, d + {a, b} + {x});
    } else {
      LogSpec.SubsetSize(e, d + {a, b});
    }
  }

  /** The same for a bmap, which adds nothing if the block is there already, and the write of its block. */
  lemma PieceCost(l: Layout, d: set<int>, d1: set<int>, e: set<int>, addr: int, bn: int, x: int, x': int, there: bool)
    requires d <= d1 <= d + BmapDirty(l, addr, bn, x, x') && (there ==> d1 == d && x' == x)
    requires e == d1 || (addr != 0 && e == d1 + {addr})
    requires (x != 0 ==> x' == x) && (x == 0 && x' != 0 ==> x' in d1)
    ensures |e| <= |d| + (if there then 1 else 2) + Counted(x', e) - Counted(x, d) + (if x == 0
            && x' != 0 then 1 else 0)
  {
    if there {
      AddOne(d, addr);
    } else {
      StepCost(d, e, l.BitmapBlock(addr), addr, x, x', l.BitmapBlock(x'));
    }
  }

  lemma CostNext(d0: set<int>, d: set<int>, e: set<int>, x0: int, x: int, x': int, k: int, off: int, there: bool)
    requires CostOk(d0, d, x0, x, k, off) && 0 <= k && (k == 0 && off % BSIZE != 0 ==> there)
    requires (x0 != 0 ==> x == x0) && (x != 0 ==> x' == x)
    requires |e| <= |d| + (if there then 1 else 2) + Counted(x', e) - Counted(x, d) + (if x == 0
             && x' != 0 then 1 else 0)
    ensures CostOk(d0, e, x0, x', k + 1, off)
  {
  }

  /** The blocks log_written when writei's loop is done or has stopped. */
  lemma CostBound(d0: set<int>, d: set<int>, x0: int, x: int, k: int, off: int, n: int)
    requires CostOk(d0, d, x0, x, k, off) && 0 <= off && 0 <= n && 0 <= k <= BlocksOf(off, n) && (n == 0 ==> d == d0)
    requires n > 0 ==> k > 0
    ensures |d| + 1 <= |d0| + WriteCost(off, n)
  {
  }

  /** tot bytes of src are in file i of `size` bytes, from off on, after k turns of writei's loop that began
      in f with the blocks d0 log_written and indirect block x0. */
  ghost predicate WrittenIn(l: Layout, f: Fs, g: Fs, i: int, size: int, d0: set<int>, d: set<int>, x0: int,
                            src: seq<int>, off: int, tot: int, k: int) {
    forall q {:trigger Look(q)} | Look(q) ::
      && Owned(l, f) && 0 <= i < |f.addrs| && Table(l, g) && i < |g.addrs| && 0 <= tot <= |src|
      && Writing(l, f, g, i, size, off, src[..tot])
      && CostOk(d0, d, x0, g.addrs[i][NDIRECT], k, off) && (x0 != 0 ==> g.addrs[i][NDIRECT] == x0)
  }

  lemma WrittenNow(l: Layout, f: Fs, g: Fs, i: int, size: int, d0: set<int>, d: set<int>, x0: int, src: seq<int>,
                   off: int, tot: int, k: int)
    requires WrittenIn(l, f, g, i, size, d0, d, x0, src, off, tot, k)
    ensures Owned(l, f) == true && 0 <= i < |f.addrs| && 0 <= tot <= |src| && Table(l, g) && i < |g.addrs|
    ensures Writing(l, f, g, i, size, off, src[..tot]) == true
    ensures CostOk(d0, d, x0, g.addrs[i][NDIRECT], k, off) == true
  {
    assert Look(0);
  }

  lemma WrittenStart(l: Layout, f: Fs, i: int, size: int, d: set<int>, src: seq<int>, off: int)
    requires Owned(l, f) == true && 0 <= i < |f.addrs| && Filled(l, f, i, size) && 0 <= off <= size
    ensures WrittenIn(l, f, f, i, size, d, d, f.addrs[i][NDIRECT], src, off, 0, 0)
  {
    WritingStart(l, f, i, size, off);
    assert src[..0] == [];
  }

  /** What a turn adds to the blocks log_written. */
  ghost predicate TurnCost(l: Layout, g: Fs, h: Fs, i: int, p: int, d: set<int>, e: set<int>)
    requires Table(l, g) && Table(l, h) && 0 <= i < |g.addrs| && i < |h.addrs| && 0 <= p < MAXSIZE
  {
    var (x, x') := (g.addrs[i][NDIRECT], h.addrs[i][NDIRECT]);
    && (x != 0 ==> x' == x)
    && |e| <= |d| + (if At(l, g, SlotOf(i, p)) != 0 then 1 else 2) + Counted(x', e) - Counted(x, d)
              + (if x == 0 && x' != 0 then 1 else 0)
  }

  /** One turn of writei's loop took g to h, with m bytes of src from position tot on at file offset p, all
      within one block; not ok if the block could not be had or the bytes not be read. */
  ghost predicate Turned(l: Layout, g: Fs, h: Fs, i: int, p: int, src: seq<int>, tot: int, m: int, ok: bool,
                         d: set<int>, e: set<int>) {
    forall k {:trigger Look(k)} | Look(k) ::
      && Owned(l, g) && Owned(l, h) && 0 <= i < |g.addrs| == |h.addrs| && 0 <= p < MAXSIZE && 0 <= tot && 0 <= m
      && Touches(l, h, i, p, d, e) && TurnCost(l, g, h, i, p, d, e)
      && if ok then
           tot + m <= |src| && Wrote(l, g, h, i, p, src[tot..tot + m]) && At(l, h, SlotOf(i, p)) != 0
         else Grown(l, g, h, i)
  }

  /** What bmap has done, for the block of offset p. */
  ghost predicate Bmapped(l: Layout, f: Fs, g: Fs, i: int, p: int, d: set<int>, e: set<int>, addr: int)
    requires Table(l, f) && Table(l, g) && 0 <= i < |f.addrs| && i < |g.addrs| && 0 <= p < MAXSIZE
  {
    var (x, x') := (f.addrs[i][NDIRECT], g.addrs[i][NDIRECT]);
    && Grown(l, f, g, i) && addr == At(l, g, SlotOf(i, p)) && d <= e <= d + BmapDirty(l, addr, p / BSIZE, x, x')
    && (At(l, f, SlotOf(i, p)) != 0 ==> g == f && e == d)
    && (x != 0 ==> x' == x) && (x == 0 && x' != 0 ==> x' in e)
  }

  /** A turn that ends after bmap. */
  lemma BmapTurned(l: Layout, f: Fs, g: Fs, i: int, p: int, src: seq<int>, tot: int, m: int, d: set<int>, e: set<int>,
                   addr: int)
    requires Owned(l, f) && Owned(l, g) && 0 <= i < |f.addrs| == |g.addrs| && 0 <= p < MAXSIZE && 0 <= tot && 0 <= m
    requires Bmapped(l, f, g, i, p, d, e, addr)
    ensures Turned(l, f, g, i, p, src, tot, m, false, d, e)
  {
    PieceTouches(l, g, g, i, p, d, e, addr, f.addrs[i][NDIRECT]);
    PieceCost(l, d, e, e, addr, p / BSIZE, f.addrs[i][NDIRECT], g.addrs[i][NDIRECT], At(l, f, SlotOf(i, p)) != 0);
  }

  /** One that goes on to store its bytes. */
  lemma PieceTurned(l: Layout, f: Fs, g: Fs, h: Fs, i: int, p: int, src: seq<int>, tot: int, m: int, d: set<int>,
                    d1: set<int>, e: set<int>, addr: int)
    requires Owned(l, f) && Owned(l, g) && Owned(l, h) && 0 <= i < |f.addrs| == |g.addrs| && h.addrs == g.addrs
    requires 0 <= p < MAXSIZE && 0 <= tot && 0 <= m && tot + m <= |src|
    requires Bmapped(l, f, g, i, p, d, d1, addr) && addr != 0 && e == d1 + {addr}
    requires Wrote(l, g, h, i, p, src[tot..tot + m])
    ensures Turned(l, f, h, i, p, src, tot, m, true, d, e)
  {
    PieceTouches(l, g, h, i, p, d, e, addr, f.addrs[i][NDIRECT]);
    PieceCost(l, d, d1, e, addr, p / BSIZE, f.addrs[i][NDIRECT], g.addrs[i][NDIRECT], At(l, f, SlotOf(i, p)) != 0);
    GrownThenWrote(l, f, g, h, i, p, src[tot..tot + m]);
  }

  lemma TurnCounted(l: Layout, f: Fs, g: Fs, h: Fs, i: int, size: int, d0: set<int>, d: set<int>, e: set<int>, x0: int,
                    src: seq<int>, off: int, tot: int, k: int)
    requires WrittenIn(l, f, g, i, size, d0, d, x0, src, off, tot, k)
    requires Table(l, g) && Table(l, h) && 0 <= i < |g.addrs| && i < |h.addrs| && 0 <= off + tot < MAXSIZE
    requires TurnCost(l, g, h, i, off + tot, d, e) && 0 <= off <= size && 0 <= k && (k == 0 ==> tot == 0)
    ensures CostOk(d0, e, x0, h.addrs[i][NDIRECT], k + 1, off) && (x0 != 0 ==> h.addrs[i][NDIRECT] == x0)
  {
    assert Look(0);
    if k == 0 && off % BSIZE != 0 {
      UnalignedIsThere(l, g, i, size, off);
    }
    CostNext(d0, d, e, x0, g.addrs[i][NDIRECT], h.addrs[i][NDIRECT], k, off, At(l, g, SlotOf(i, off + tot)) != 0);
  }

  /** What a turn means for what has been written. */
  lemma TurnWritten(l: Layout, f: Fs, g: Fs, h: Fs, i: int, size: int, d0: set<int>, d: set<int>, e: set<int>, x0: int,
                    src: seq<int>, off: int, tot: int, m: int, k: int, ok: bool)
    requires WrittenIn(l, f, g, i, size, d0, d, x0, src, off, tot, k) && 0 <= off <= size && 0 <= k
    requires (k == 0 ==> tot == 0) && (off + tot) % BSIZE + m <= BSIZE
    requires Turned(l, g, h, i, off + tot, src, tot, m, ok, d, e)
    ensures WrittenIn(l, f, h, i, size, d0, e, x0, src, off, if ok then tot + m else tot, k + 1)
    ensures Touches(l, h, i, off + tot, d, e) == true
  {
    assert Look(0);
    TurnCounted(l, f, g, h, i, size, d0, d, e, x0, src, off, tot, k);
    if ok {
      WritingNext(l, f, g, h, i, size, off, src, tot, m);
    } else {
      WritingGrown(l, f, g, h, i, size, off, src[..tot]);
    }
  }

  /** Bytes of the piece that starts tot bytes into a write. */
  function PieceSize(off: int, n: int, tot: int): (m: int)
    requires tot < n
    ensures 0 < m && tot + m <= n && (off + tot) % BSIZE + m <= BSIZE
  {
    if n - tot < BSIZE - (off + tot) % BSIZE then n - tot else BSIZE - (off + tot) % BSIZE
  }

  lemma PieceIsNext(off: int, n: int, tot: int, k: int)
    requires 0 <= off && 0 <= tot < n && (off + tot) / BSIZE == off / BSIZE + k
    ensures k + 1 <= BlocksOf(off, n)
    ensures tot + PieceSize(off, n, tot) < n ==> (off + tot + PieceSize(off, n, tot)) / BSIZE == off / BSIZE + k + 1
  {
    var p := off + tot;
    assert p == p / BSIZE * BSIZE + p % BSIZE;
    if PieceSize(off, n, tot) < n - tot {
      assert p + PieceSize(off, n, tot) == (p / BSIZE + 1) * BSIZE;
    }
  }

  /** tot of the n bytes have been written after k turns of writei's loop; with `more` it has not stopped. */
  ghost predicate GoingIn(l: Layout, f: Fs, g: Fs, i: int, size: int, d0: set<int>, d: set<int>, x0: int,
                          src: seq<int>, off: int, n: int, tot: int, k: int, more: bool) {
    forall q {:trigger Seek(q)} | Seek(q) ::
      && WrittenIn(l, f, g, i, size, d0, d, x0, src, off, tot, k) && OneBlock(l, g, i, off, n, tot, k, d0, d)
      && 0 <= tot <= n && 0 <= off && 0 <= k <= BlocksOf(off, n) && (n == 0 ==> d == d0)
      && (more && tot < n ==> (off + tot) / BSIZE == off / BSIZE + k) && (more && k == 0 ==> tot == 0)
      && (!more ==> k > 0)
  }

  lemma GoingStart(l: Layout, f: Fs, i: int, size: int, d: set<int>, src: seq<int>, off: int, n: int)
    requires Owned(l, f) == true && 0 <= i < |f.addrs| && Filled(l, f, i, size) && 0 <= off <= size && 0 <= n
    ensures GoingIn(l, f, f, i, size, d, d, f.addrs[i][NDIRECT], src, off, n, 0, 0, true)
  {
    WrittenStart(l, f, i, size, d, src, off);
    OneBlockStart(l, f, i, off, n, d);
  }

  lemma GoingNow(l: Layout, f: Fs, g: Fs, i: int, size: int, d0: set<int>, d: set<int>, x0: int, src: seq<int>,
                 off: int, n: int, tot: int, k: int, more: bool)
    requires GoingIn(l, f, g, i, size, d0, d, x0, src, off, n, tot, k, more)
    ensures WrittenIn(l, f, g, i, size, d0, d, x0, src, off, tot, k) == true
    ensures 0 <= tot <= n && 0 <= k && (more && k == 0 ==> tot == 0)
  {
    assert Seek(0);
  }

  lemma GoingOn(l: Layout, f: Fs, g: Fs, h: Fs, i: int, size: int, d0: set<int>, d: set<int>, e: set<int>, x0: int,
                src: seq<int>, off: int, n: int, tot: int, tot': int, k: int, ok: bool)
    requires GoingIn(l, f, g, i, size, d0, d, x0, src, off, n, tot, k, true) && tot < n
    requires tot' == if ok then tot + PieceSize(off, n, tot) else tot
    requires WrittenIn(l, f, h, i, size, d0, e, x0, src, off, tot', k + 1) == true
    requires Touches(l, h, i, off + tot, d, e) == true
    ensures GoingIn(l, f, h, i, size, d0, e, x0, src, off, n, tot', k + 1, ok)
  {
    assert Seek(0);
    PieceIsNext(off, n, tot, k);
    OneBlockNext(l, g, h, i, off, n, tot, tot', k, d0, d, e);
  }

  lemma TurnGoes(l: Layout, f: Fs, g: Fs, h: Fs, i: int, size: int, d0: set<int>, d: set<int>, e: set<int>, x0: int,
                 src: seq<int>, off: int, n: int, tot: int, tot': int, k: int, ok: bool)
    requires GoingIn(l, f, g, i, size, d0, d, x0, src, off, n, tot, k, true) && 0 <= off <= size && 0 <= tot < n
    requires Turned(l, g, h, i, off + tot, src, tot, PieceSize(off, n, tot), ok, d, e)
    requires tot' == if ok then tot + PieceSize(off, n, tot) else tot
    ensures GoingIn(l, f, h, i, size, d0, e, x0, src, off, n, tot', k + 1, ok)
  {
    GoingNow(l, f, g, i, size, d0, d, x0, src, off, n, tot, k, true);
    TurnWritten(l, f, g, h, i, size, d0, d, e, x0, src, off, tot, PieceSize(off, n, tot), k, ok);
    GoingOn(l, f, g, h, i, size, d0, d, e, x0, src, off, n, tot, tot', k, ok);
  }

  lemma GoingEnd(l: Layout, f: Fs, g: Fs, i: int, size: int, d0: set<int>, d: set<int>, x0: int, src: seq<int>,
                 off: int, n: int, tot: int, k: int, more: bool)
    requires GoingIn(l, f, g, i, size, d0, d, x0, src, off, n, tot, k, more) && 0 <= off && 0 <= n
             && (more ==> tot >= n)
    ensures Owned(l, f) == true && 0 <= i < |f.addrs| && 0 <= tot <= n && tot <= |src|
    ensures Writing(l, f, g, i, size, off, src[..tot]) == true
    ensures |d| + 1 <= |d0| + WriteCost(off, n)
    ensures 0 < n <= BSIZE - off % BSIZE ==> Touches(l, g, i, off, d0, d) == true
  {
    assert Seek(0);
    WrittenNow(l, f, g, i, size, d0, d, x0, src, off, tot, k);
    CostBound(d0, d, x0, g.addrs[i][NDIRECT], k, off, n);
    if 0 < n <= BSIZE - off % BSIZE {
      OneBlockEnd(l, g, i, off, n, tot, k, d0, d);
    }
  }

  /** A chunk of filewrite fits in one operation's share of the log, for every offset. */
  lemma ChunkFits(off: int, n: int)
    requires 0 <= off && 0 <= n <= 3 * BSIZE
    ensures WriteCost(off, n) <= 10
  {
    assert off == off / BSIZE * BSIZE + off % BSIZE;
  }
}
