/** The block allocator, block maps and file data of kernel/fs.c, and the chunked write of
    kernel/file.c, as code that changes the buffers in place. */
module FileSystem {
  import opened FsSpec
  import opened FileSpec
  import LogSpec

  const MAXOPBLOCKS := LogSpec.MAXOPBLOCKS

  /** An in-memory inode, locked by the caller. */
  class Inode {
    const inum: int
    var size: int
    var addrs: seq<int>

    constructor (inum: int, size: int, addrs: seq<int>)
      ensures this.inum == inum && this.size == size && this.addrs == addrs
    {
      this.inum, this.size, this.addrs := inum, size, addrs;
    }
  }

  /** An open file, as far as its offset. */
  class File {
    var off: int

    constructor (off: int)
      ensures this.off == off
    {
      this.off := off;
    }
  }

  /** What readi returns for file contents c: the n bytes from off, clipped to the file, when all
      fit in the destination; -1 after a part of them when they do not; nothing when the range
      starts past the end or wraps around. */
  predicate ReadOutcome(c: seq<int>, room: int, off: int, n: int, r: int, dst: seq<int>) {
    if off > |c| || off + n >= U32 then
      r == 0 && dst == []
    else
      var m := if off + n > |c| then |c| - off else n;
      && 0 <= off && off + |dst| <= |c| && dst == c[off..off + |dst|]
      && (if m <= room || m == 0 then r == m == |dst| else r == -1 && |dst| < m)
  }

  /** Operations were added, and each of them fits what the log reserves for one. */
  ghost predicate OpsFit(before: seq<set<int>>, ops: seq<set<int>>) {
    && |before| <= |ops| && ops[..|before|] == before
    && forall j | |before| <= j < |ops| :: |ops[j]| <= MAXOPBLOCKS
  }

  lemma OpsFitOne(ops: seq<set<int>>, d: set<int>)
    requires |d| <= MAXOPBLOCKS
    ensures OpsFit(ops, ops + [d])
  {
  }

  lemma OpsFitOn(a: seq<set<int>>, b: seq<set<int>>, c: seq<set<int>>)
    requires OpsFit(a, b) && OpsFit(b, c)
    ensures OpsFit(a, c)
  {
    assert c[..|a|] == c[..|b|][..|a|];
    forall j | |a| <= j < |c| ensures |c[j]| <= MAXOPBLOCKS {
      if j < |b| { assert c[..|b|][j] == b[j]; }
    }
  }

  class FileSystem {
    const l: Layout
    /** The cached contents of every block. */
    var blocks: seq<Block>
    /** The sizes and block numbers in the on-disk inodes. */
    var sizes: seq<int>
    var addrs: seq<seq<int>>
    ghost var owner: map<int, Slot>
    /** Blocks passed to log_write by the running operation. */
    ghost var dirty: set<int>
    /** What each finished operation passed to log_write. */
    ghost var ops: seq<set<int>>

    constructor (l: Layout, blocks: seq<Block>, sizes: seq<int>, addrs: seq<seq<int>>, owner: map<int, Slot>)
      ensures this.l == l && this.blocks == blocks && this.sizes == sizes && this.addrs == addrs
      ensures this.owner == owner && this.dirty == {} && this.ops == []
    {
      this.l, this.blocks, this.sizes, this.addrs := l, blocks, sizes, addrs;
      this.owner, this.dirty, this.ops := owner, {}, [];
    }

    /** The file system with ip's fields in place of its on-disk inode. */
    ghost function View(ip: Inode): Fs
      requires 0 <= ip.inum < |addrs|
      reads this`blocks, this`addrs, this`owner, ip
    {
      Fs(blocks, addrs[ip.inum := ip.addrs], owner)
    }

    ghost predicate Valid(ip: Inode)
      reads this`blocks, this`addrs, this`sizes, this`owner, ip
    {
      && 0 <= ip.inum < |addrs| == |sizes| == l.ninodes && l.size <= U32
      && AddrsOk(ip.addrs) && Owned(l, View(ip))
    }

    /** Valid, and the file has no hole below its size. */
    ghost predicate Whole(ip: Inode)
      reads this`blocks, this`addrs, this`sizes, this`owner, ip
    {
      Valid(ip) && 0 <= ip.size <= MAXSIZE && Filled(l, View(ip), ip.inum, ip.size)
    }

    /** The lowest free block, marked and zeroed, or 0 when every block is in use. */
    method Balloc() returns (r: int)
      requires DiskOk(l, blocks) && Bit(l, blocks, 0)
      modifies this`blocks, this`dirty
      ensures r == 0 ==> blocks == old(blocks) && dirty == old(dirty) && forall c | 0 <= c < l.size :: Bit(l, blocks, c)
      ensures r != 0 ==> 0 < r < l.size && !Bit(l, old(blocks), r) && forall c | 0 <= c < r :: Bit(l, old(blocks), c)
      ensures r != 0 ==> blocks == Balloced(l, old(blocks), r) && dirty == old(dirty) + {l.BitmapBlock(r), r}
    {
      var b := 0;
      while b < l.size
        invariant 0 <= b && b % BPB == 0
        invariant blocks == old(blocks) && dirty == old(dirty)
        invariant forall c | 0 <= c < l.size && c < b :: Bit(l, blocks, c)
      {
        var x := l.BitmapBlock(b);
        var bi := 0;
        while bi < BPB && b + bi < l.size
          invariant 0 <= bi <= BPB
          invariant blocks == old(blocks) && dirty == old(dirty)
          invariant forall c | 0 <= c < l.size && c < b + bi :: Bit(l, blocks, c)
        {
          BitmapIndex(b, bi);
          if !BitOf(blocks[x][bi / 8], bi % 8) {
            assert !Bit(l, blocks, b + bi);
            blocks := blocks[x := blocks[x][bi / 8 := SetBitOf(blocks[x][bi / 8], bi % 8, true)]];
            assert blocks == WithBit(l, old(blocks), b + bi, true);
            dirty := dirty + {x};
            Bzero(b + bi);
            return b + bi;
          }
          bi := bi + 1;
        }
        b := b + BPB;
      }
      return 0;
    }

    static lemma BitmapIndex(b: int, bi: int)
      requires 0 <= b && b % BPB == 0 && 0 <= bi < BPB
      ensures (b + bi) / BPB == b / BPB && (b + bi) % BPB == bi && (b + bi) % 8 == bi % 8
    {
      assert b == b / BPB * BPB;
    }

    static lemma BitInByte(b: int)
      ensures b % BPB % 8 == b % 8 && 0 <= b % BPB / 8 < BSIZE
    {
      assert b == b / BPB * BPB + b % BPB;
      assert b / BPB * BPB == b / BPB * BSIZE * 8;
    }

    method Bzero(b: int)
      requires DiskOk(l, blocks) && 0 <= b < l.size
      modifies this`blocks, this`dirty
      ensures blocks == old(blocks)[b := Zero()] && dirty == old(dirty) + {b}
    {
      blocks := blocks[b := Zero()];
      dirty := dirty + {b};
    }

    /** Clears the bit of block b; not ok is the "freeing free block" panic. */
    method Bfree(b: int) returns (ok: bool)
      requires DiskOk(l, blocks) && 0 <= b < l.size
      modifies this`blocks, this`dirty
      ensures ok <==> Bit(l, old(blocks), b)
      ensures blocks == if ok then WithBit(l, old(blocks), b, false) else old(blocks)
      ensures old(dirty) <= dirty <= old(dirty) + {l.BitmapBlock(b)}
    {
      var x, bi := l.BitmapBlock(b), b % BPB;
      BitInByte(b);
      if !BitOf(blocks[x][bi / 8], bi % 8) {
        return false;
      }
      ok := true;
      blocks := blocks[x := blocks[x][bi / 8 := SetBitOf(blocks[x][bi / 8], bi % 8, false)]];
      dirty := dirty + {x};
    }

    method Iupdate(ip: Inode)
      requires 0 <= ip.inum < |addrs| == |sizes|
      modifies this`addrs, this`sizes, this`dirty
      ensures addrs == old(addrs)[ip.inum := ip.addrs] && sizes == old(sizes)[ip.inum := ip.size]
      ensures dirty == old(dirty) + {l.InodeBlock(ip.inum)}
    {
      sizes := sizes[ip.inum := ip.size];
      addrs := addrs[ip.inum := ip.addrs];
      dirty := dirty + {l.InodeBlock(ip.inum)};
    }

    /** A fresh block in an empty slot held in the inode itself. */
    method FillSlot(ip: Inode, k: int) returns (addr: int)
      requires Valid(ip) && 0 <= k <= NDIRECT && ip.addrs[k] == 0
      modifies this`blocks, this`dirty, this`owner, ip`addrs
      ensures Valid(ip) == true && Grown(l, old(View(ip)), View(ip), ip.inum) == true
      ensures addr == ip.addrs[k] && 0 <= addr < l.size
              && (forall j | 0 <= j <= NDIRECT && j != k :: ip.addrs[j] == old(ip.addrs[j]))
      ensures addr == 0 ==> View(ip) == old(View(ip)) && dirty == old(dirty) && forall c | 0 <= c < l.size ::
                Bit(l, blocks, c)
      ensures addr != 0 ==> dirty == old(dirty) + {l.BitmapBlock(addr), addr}
    {
      ghost var f, s := View(ip), Slot(ip.inum, k);
      assert f.addrs[ip.inum] == ip.addrs;
      addr := Balloc();
      if addr == 0 {
        return;
      }
      GrownByOne(l, f, s, addr);
      ip.addrs := ip.addrs[k := addr];
      owner := owner[addr := s];
      assert View(ip) == Allocated(l, f, s, addr) by {
        assert f.addrs[ip.inum := ip.addrs] == addrs[ip.inum := ip.addrs];
      }
    }

    /** A fresh block in an empty entry of the indirect block. */
    method FillEntry(ip: Inode, j: int) returns (addr: int)
      requires Valid(ip) && 0 <= j < NINDIRECT && ip.addrs[NDIRECT] != 0
      requires At(l, View(ip), Slot(ip.inum, NDIRECT + 1 + j)) == 0
      modifies this`blocks, this`dirty, this`owner
      ensures Valid(ip) == true && Grown(l, old(View(ip)), View(ip), ip.inum) == true
      ensures addr == At(l, View(ip), Slot(ip.inum, NDIRECT + 1 + j))
      ensures addr == 0 ==> View(ip) == old(View(ip)) && dirty == old(dirty) && forall c | 0 <= c < l.size ::
                Bit(l, blocks, c)
      ensures addr != 0 ==> dirty == old(dirty) + {l.BitmapBlock(addr), addr, ip.addrs[NDIRECT]}
    {
      ghost var f, s := View(ip), Slot(ip.inum, NDIRECT + 1 + j);
      assert f.addrs[ip.inum] == ip.addrs;
      var x := ip.addrs[NDIRECT];
      addr := Balloc();
      if addr != 0 {
        GrownByOne(l, f, s, addr);
        blocks := blocks[x := WithWord(blocks[x], j, addr)];
        dirty := dirty + {x};
        owner := owner[addr := s];
        assert View(ip) == Allocated(l, f, s, addr);
      }
    }

    /** The block of the bn-th block of the file, allocated if there is none; 0 when out of space. */
    method Bmap(ip: Inode, bn: int) returns (addr: int)
      requires Valid(ip) == true && 0 <= bn < MAXFILE
      modifies this`blocks, this`dirty, this`owner, ip`addrs
      ensures Valid(ip) == true && Grown(l, old(View(ip)), View(ip), ip.inum) == true
      ensures addr == At(l, View(ip), Slot(ip.inum, FileSlot(bn))) && 0 <= addr < l.size
      ensures addr == 0 ==> forall c | 0 <= c < l.size :: Bit(l, blocks, c)
      ensures old(At(l, View(ip), Slot(ip.inum, FileSlot(bn)))) != 0 ==>
                View(ip) == old(View(ip)) && dirty == old(dirty)
      ensures old(dirty) <= dirty <= old(dirty) + BmapDirty(l, addr, bn, old(ip.addrs[NDIRECT]), ip.addrs[NDIRECT])
      ensures old(ip.addrs[NDIRECT]) != 0 ==> ip.addrs[NDIRECT] == old(ip.addrs[NDIRECT])
      ensures old(ip.addrs[NDIRECT]) == 0 && ip.addrs[NDIRECT] != 0 ==> ip.addrs[NDIRECT] in dirty
    {
      ghost var f := View(ip);
      assert f.addrs[ip.inum] == ip.addrs;
      SlotInDisk(l, f, Slot(ip.inum, FileSlot(bn)));
      if bn < NDIRECT {
        addr := ip.addrs[bn];
        if addr == 0 {
          addr := FillSlot(ip, bn);
          assert View(ip).addrs[ip.inum] == ip.addrs;
        }
        return;
      }
      var j := bn - NDIRECT;
      addr := ip.addrs[NDIRECT];
      if addr == 0 {
        addr := FillSlot(ip, NDIRECT);
        assert View(ip).addrs[ip.inum] == ip.addrs;
        if addr == 0 {
          return;
        }
      }
      ghost var g := View(ip);
      assert g.addrs[ip.inum] == ip.addrs;
      addr := Word(blocks[addr], j);
      if addr == 0 {
        addr := FillEntry(ip, j);
        GrownTwice(l, f, g, View(ip), ip.inum);
      }
      SlotInDisk(l, View(ip), Slot(ip.inum, FileSlot(bn)));
    }

    /** Frees the block in slot s, if it names one. */
    method FreeBlock(ghost f: Fs, ghost s: Slot, b: int, ghost d: int, ghost e: int, ghost d': int, ghost e': int)
      requires Owned(l, f) == true && InRange(f, s) && b == At(l, f, s) && NextSlot(s.k, d, e, d', e')
      requires FreedTo(l, f, blocks, s.i, d, e) == true
      modifies this`blocks, this`dirty
      ensures FreedTo(l, f, blocks, s.i, d', e') == true && Frees(l, old(dirty), dirty) == true
    {
      FreedStep(l, f, blocks, s, d, e, d', e');
      if b != 0 {
        var ok := Bfree(b);
        assert ok;
        FreesOne(l, old(dirty), dirty, b);
      } else {
        FreesNothing(l, dirty);
      }
    }

    /** The block named in entry j of the indirect block of inode i, whose contents are a. */
    method FreeEntry(ghost f: Fs, ghost i: int, a: Block, j: int)
      requires Owned(l, f) == true && IsIndirect(f, i, a) && 0 <= j < NINDIRECT
      requires FreedTo(l, f, blocks, i, NDIRECT, j) == true
      modifies this`blocks, this`dirty
      ensures FreedTo(l, f, blocks, i, NDIRECT, j + 1) == true && Frees(l, old(dirty), dirty) == true
    {
      assert At(l, f, Slot(i, NDIRECT + 1 + j)) == Word(a, j);
      FreeBlock(f, Slot(i, NDIRECT + 1 + j), Word(a, j), NDIRECT, j, NDIRECT, j + 1);
    }

    static ghost predicate IsIndirect(f: Fs, i: int, a: Block) {
      && 0 <= i < |f.addrs| && AddrsOk(f.addrs[i]) && 0 < f.addrs[i][NDIRECT] < |f.blocks|
      && a == f.blocks[f.addrs[i][NDIRECT]]
    }

    /** All the blocks named there. */
    method FreeEntries(ghost f: Fs, ghost i: int, a: Block)
      requires Owned(l, f) == true && IsIndirect(f, i, a) == true && FreedTo(l, f, blocks, i, NDIRECT, 0) == true
      modifies this`blocks, this`dirty
      ensures FreedTo(l, f, blocks, i, NDIRECT, NINDIRECT) == true && Frees(l, old(dirty), dirty) == true
    {
      var j := 0;
      FreesNothing(l, dirty);
      while j < NINDIRECT
        invariant 0 <= j <= NINDIRECT
        invariant FreedTo(l, f, blocks, i, NDIRECT, j) == true && Frees(l, old(dirty), dirty) == true
      {
        ghost var d := dirty;
        FreeEntry(f, i, a, j);
        FreesMore(l, old(dirty), d, dirty);
        j := j + 1;
      }
    }

    /** The blocks named in the inode itself. */
    method FreeDirect(ip: Inode, ghost f: Fs)
      requires Owned(l, f) == true && 0 <= ip.inum < |f.addrs| && ip.addrs == f.addrs[ip.inum] && f.blocks == blocks
      modifies this`blocks, this`dirty, ip`addrs
      ensures FreedTo(l, f, blocks, ip.inum, NDIRECT, 0) == true && Frees(l, old(dirty), dirty) == true
      ensures AddrsOk(ip.addrs)
      ensures forall j | 0 <= j <= NDIRECT :: ip.addrs[j] == if j < NDIRECT then 0 else f.addrs[ip.inum][j]
    {
      ghost var a := f.addrs[ip.inum];
      assert forall j | 0 <= j <= NDIRECT :: At(l, f, Slot(ip.inum, j)) == a[j];
      var i := 0;
      FreesNothing(l, dirty);
      while i < NDIRECT
        invariant 0 <= i <= NDIRECT && AddrsOk(ip.addrs)
        invariant FreedTo(l, f, blocks, ip.inum, i, 0) == true && Frees(l, old(dirty), dirty) == true
        invariant forall j | 0 <= j <= NDIRECT :: ip.addrs[j] == if j < i then 0 else a[j]
      {
        ghost var d := dirty;
        FreeBlock(f, Slot(ip.inum, i), ip.addrs[i], i, 0, i + 1, 0);
        FreesMore(l, old(dirty), d, dirty);
        ip.addrs := ip.addrs[i := 0];
        i := i + 1;
      }
    }

    /** The indirect block and the blocks named in it. */
    method FreeIndirect(ip: Inode, ghost f: Fs)
      requires Owned(l, f) == true && 0 <= ip.inum < |f.addrs| && AddrsOk(ip.addrs)
      requires forall j | 0 <= j <= NDIRECT :: ip.addrs[j] == if j < NDIRECT then 0 else f.addrs[ip.inum][j]
      requires FreedTo(l, f, blocks, ip.inum, NDIRECT, 0) == true
      modifies this`blocks, this`dirty, ip`addrs
      ensures FreedTo(l, f, blocks, ip.inum, NDIRECT + 1, NINDIRECT) == true && ip.addrs == NoAddrs()
      ensures Frees(l, old(dirty), dirty) == true
    {
      var x := ip.addrs[NDIRECT];
      if x != 0 {
        IndirectOwned(l, f, ip.inum);
        FreeEntries(f, ip.inum, blocks[x]);
        ghost var d := dirty;
        FreeBlock(f, Slot(ip.inum, NDIRECT), x, NDIRECT, NINDIRECT, NDIRECT + 1, NINDIRECT);
        FreesMore(l, old(dirty), d, dirty);
        ip.addrs := ip.addrs[NDIRECT := 0];
      } else {
        FreedNoIndirect(l, f, blocks, ip.inum);
        FreesNothing(l, dirty);
      }
      assert ip.addrs == NoAddrs();
    }

    /** Frees every block of the inode, and never a free one. */
    method Itrunc(ip: Inode)
      requires Valid(ip) == true
      modifies this, ip
      ensures Valid(ip) == true && ip.size == 0 && ip.addrs == NoAddrs()
      ensures FreedTo(l, old(View(ip)), blocks, ip.inum, NDIRECT + 1, NINDIRECT) == true
      ensures View(ip) == Truncated(old(View(ip)), blocks, ip.inum)
      ensures OthersKept(l, old(View(ip)), View(ip), ip.inum) == true
      ensures addrs == old(addrs)[ip.inum := NoAddrs()] && sizes == old(sizes)[ip.inum := 0] && ops == old(ops)
      ensures old(dirty) <= dirty <= old(dirty) + Bitmaps(l) + {l.InodeBlock(ip.inum)}
    {
      ghost var f := View(ip);
      assert f.addrs[ip.inum] == ip.addrs;
      FreeDirect(ip, f);
      ghost var d := dirty;
      FreeIndirect(ip, f);
      FreesMore(l, old(dirty), d, dirty);
      FreesInode(l, old(dirty), dirty, l.InodeBlock(ip.inum));
      ip.size := 0;
      Iupdate(ip);
      owner := Truncated(f, blocks, ip.inum).owner;
      TruncatedKeepsOthers(l, f, blocks, ip.inum);
      assert View(ip) == Truncated(f, blocks, ip.inum) by {
        assert addrs[ip.inum := ip.addrs] == f.addrs[ip.inum := NoAddrs()];
      }
    }

    /** One turn of readi's loop: m bytes from p, all within one block, which is there already. */
    method ReadPiece(ip: Inode, p: int, m: int) returns (addr: int, piece: seq<int>)
      requires Whole(ip) == true && 0 <= p && 0 < m && p + m <= ip.size && p % BSIZE + m <= BSIZE
      modifies this`blocks, this`dirty, this`owner, ip`addrs
      ensures Whole(ip) == true && View(ip) == old(View(ip)) && dirty == old(dirty)
      ensures addr != 0 && piece == Contents(l, View(ip), ip.inum, ip.size)[p..p + m]
    {
      var bn := p / BSIZE;
      assert p == bn * BSIZE + p % BSIZE;
      assert At(l, View(ip), Slot(ip.inum, FileSlot(bn))) != 0;
      addr := Bmap(ip, bn);
      PieceOfBlock(l, View(ip), ip.inum, ip.size, p, m);
      piece := blocks[addr][p % BSIZE..p % BSIZE + m];
    }

    /** readi's loop, for a range inside the file. */
    method ReadPieces(ip: Inode, room: int, off: int, n: int) returns (r: int, dst: seq<int>)
      requires Whole(ip) == true && 0 <= off && 0 <= n && off + n <= ip.size
      modifies this`blocks, this`dirty, this`owner, ip`addrs
      ensures Whole(ip) == true && View(ip) == old(View(ip)) && dirty == old(dirty)
      ensures |dst| <= n && dst == Contents(l, View(ip), ip.inum, ip.size)[off..off + |dst|]
      ensures r == (if n <= room || n == 0 then n else -1) && (r == -1 ==> |dst| < n) && (r != -1 ==> |dst| == r)
    {
      dst := [];
      var tot, p := 0, off;
      ghost var c := Contents(l, View(ip), ip.inum, ip.size);
      while tot < n
        invariant 0 <= tot <= n && p == off + tot && (tot <= room || tot == 0)
        invariant Whole(ip) == true && View(ip) == old(View(ip)) && dirty == old(dirty)
        invariant dst == c[off..p]
        decreases n - tot
      {
        var m := PieceSize(off, n, tot);
        var addr, piece := ReadPiece(ip, p, m);
        if addr == 0 {
          break;
        }
        if tot + m > room {
          r := -1;
          return;
        }
        assert piece == c[p..p + m];
        Adjoin(c, off, p, p + m);
        dst := dst + piece;
        tot, p := tot + m, p + m;
      }
      r := tot;
    }

    /** The bytes copied out, of the n from off; room is how many the destination can take before a
        copy fails. Nothing is allocated: the file has no hole. */
    method Readi(ip: Inode, room: int, off: int, n: int) returns (r: int, dst: seq<int>)
      requires Whole(ip) == true && 0 <= off < U32 && 0 <= n < U32
      modifies this`blocks, this`dirty, this`owner, ip`addrs
      ensures Whole(ip) == true && View(ip) == old(View(ip)) && dirty == old(dirty)
      ensures ReadOutcome(Contents(l, View(ip), ip.inum, ip.size), room, off, n, r, dst) == true
    {
      if off > ip.size || (off + n) % U32 < off {
        return 0, [];
      }
      var n1 := n;
      if off + n1 > ip.size {
        n1 := ip.size - off;
      }
      r, dst := ReadPieces(ip, room, off, n1);
    }

    /** Bytes d into the cached block of file offset p. */
    method StorePiece(ip: Inode, p: int, addr: int, d: seq<int>)
      requires Valid(ip) == true && 0 <= p < MAXSIZE && p % BSIZE + |d| <= BSIZE
      requires addr == At(l, View(ip), SlotOf(ip.inum, p)) != 0
      modifies this`blocks, this`dirty
      ensures Valid(ip) == true && Wrote(l, old(View(ip)), View(ip), ip.inum, p, d) == true
      ensures At(l, View(ip), SlotOf(ip.inum, p)) != 0 && dirty == old(dirty) + {addr}
    {
      ghost var g := View(ip);
      SlotInDisk(l, g, SlotOf(ip.inum, p));
      var blk := Patched(blocks[addr], p % BSIZE, d);
      StoreWrites(l, g, ip.inum, p, d, blk);
      blocks := blocks[addr := blk];
      dirty := dirty + {addr};
      assert View(ip) == Stored(l, g, SlotOf(ip.inum, p), blk);
    }

    /** One turn of writei's loop: m bytes, read from src at position tot, to file offset p, all
        within one block. A copy from beyond src fails. */
    method WritePiece(ip: Inode, p: int, m: int, src: seq<int>, tot: int) returns (ok: bool)
      requires Valid(ip) == true && 0 <= p && 0 < m && p + m <= MAXSIZE && p % BSIZE + m <= BSIZE && 0 <= tot
      modifies this`blocks, this`dirty, this`owner, ip`addrs
      ensures Valid(ip) == true
      ensures Turned(l, old(View(ip)), View(ip), ip.inum, p, src, tot, m, ok, old(dirty), dirty) == true
      ensures !ok ==> tot + m > |src| || forall c | 0 <= c < l.size :: Bit(l, blocks, c)
    {
      ghost var f, d := View(ip), dirty;
      assert f.addrs[ip.inum] == ip.addrs;
      var addr := Bmap(ip, p / BSIZE);
      ghost var g, d1 := View(ip), dirty;
      assert g.addrs[ip.inum] == ip.addrs;
      BmapTurned(l, f, g, ip.inum, p, src, tot, m, d, d1, addr);
      ok := addr != 0 && tot + m <= |src|;
      if ok {
        StorePiece(ip, p, addr, src[tot..tot + m]);
        PieceTurned(l, f, g, View(ip), ip.inum, p, src, tot, m, d, d1, dirty, addr);
      }
    }

    /** tot of the n bytes of src are in the file from off on, after k turns of writei's loop that began in
        state f with the blocks d0 log_written and indirect block x0; more are to come, or it has stopped. */
    ghost predicate Going(ip: Inode, f: Fs, d0: set<int>, x0: int, src: seq<int>, off: int, n: int, tot: int, k: int,
                          more: bool)
      reads this`blocks, this`addrs, this`sizes, this`owner, this`dirty, ip
    {
      Valid(ip) && GoingIn(l, f, View(ip), ip.inum, ip.size, d0, dirty, x0, src, off, n, tot, k, more)
    }

    method WriteTurn(ip: Inode, ghost f: Fs, ghost d0: set<int>, ghost x0: int, src: seq<int>,
                     off: int, n: int, tot: int, ghost k: int) returns (ok: bool, m: int)
      requires Going(ip, f, d0, x0, src, off, n, tot, k, true) == true && tot < n
      requires 0 <= off <= ip.size <= MAXSIZE && off + n <= MAXSIZE
      modifies this`blocks, this`dirty, this`owner, ip`addrs
      ensures m == PieceSize(off, n, tot)
      ensures ok ==> Going(ip, f, d0, x0, src, off, n, tot + m, k + 1, true) == true
      ensures !ok ==> Going(ip, f, d0, x0, src, off, n, tot, k + 1, false) == true
      ensures !ok ==> tot + m > |src| || forall c | 0 <= c < l.size :: Bit(l, blocks, c)
    {
      ghost var g, d, size := View(ip), dirty, ip.size;
      assert GoingIn(l, f, g, ip.inum, size, d0, d, x0, src, off, n, tot, k, true) == true;
      GoingNow(l, f, g, ip.inum, size, d0, d, x0, src, off, n, tot, k, true);
      m := PieceSize(off, n, tot);
      ok := WritePiece(ip, off + tot, m, src, tot);
      TurnGoes(l, f, g, View(ip), ip.inum, size, d0, d, dirty, x0, src, off, n, tot, if ok then tot + m
               else tot, k, ok);
    }

    /** writei's loop: tot bytes of src at off, fewer than n only if the copy of the next piece
        fails or the disk is full. */
    method WritePieces(ip: Inode, src: seq<int>, off: int, n: int) returns (tot: int)
      requires Whole(ip) == true && 0 <= off <= ip.size && 0 <= n && off + n <= MAXSIZE
      modifies this`blocks, this`dirty, this`owner, ip`addrs
      ensures Valid(ip) == true && 0 <= tot <= n && tot <= |src|
      ensures Writing(l, old(View(ip)), View(ip), ip.inum, ip.size, off, src[..tot]) == true
      ensures tot < n ==> tot + PieceSize(off, n, tot) > |src| || forall c | 0 <= c < l.size :: Bit(l, blocks, c)
      ensures |dirty| + 1 <= |old(dirty)| + WriteCost(off, n)
      ensures 0 < n <= BSIZE - off % BSIZE ==> Touches(l, View(ip), ip.inum, off, old(dirty), dirty) == true
    {
      ghost var f, d0, x0, k, more := View(ip), dirty, ip.addrs[NDIRECT], 0, true;
      tot := 0;
      assert f.addrs[ip.inum] == ip.addrs;
      GoingStart(l, f, ip.inum, ip.size, d0, src, off, n);
      while tot < n
        invariant Going(ip, f, d0, x0, src, off, n, tot, k, more) == true && more && tot <= n
        decreases n - tot
      {
        var ok, m := WriteTurn(ip, f, d0, x0, src, off, n, tot, k);
        k, more := k + 1, ok;
        if !ok {
          break;
        }
        tot := tot + m;
      }
      GoingEnd(l, f, View(ip), ip.inum, ip.size, d0, dirty, x0, src, off, n, tot, k, more);
    }

    /** Stores bytes of src from off on and extends the file to hold them; r is how many, or -1. The
        range is checked with 32-bit arithmetic, to the effect of an exact bound. */
    method Writei(ip: Inode, src: seq<int>, off: int, n: int) returns (r: int)
      requires Whole(ip) == true && 0 <= off < U32 && 0 <= n < U32
      modifies this, ip
      ensures Whole(ip) == true && ops == old(ops)
      ensures r == -1 <==> off > old(ip.size) || off + n > MAXSIZE
      ensures r == -1 ==> View(ip) == old(View(ip)) && ip.size == old(ip.size) && dirty == old(dirty)
      ensures r == -1 ==> addrs == old(addrs) && sizes == old(sizes)
      ensures r != -1 ==> 0 <= r <= n && r <= |src| && ip.size == Max(old(ip.size), off + r)
      ensures r != -1 ==> Wrote(l, old(View(ip)), View(ip), ip.inum, off, src[..r]) == true
      ensures r != -1 ==> addrs == old(addrs)[ip.inum := ip.addrs] && sizes == old(sizes)[ip.inum := ip.size]
      ensures 0 <= r < n ==> r + PieceSize(off, n, r) > |src| || forall c | 0 <= c < l.size :: Bit(l, blocks, c)
      ensures |dirty| <= |old(dirty)| + WriteCost(off, n)
      ensures r != -1 && 0 < n <= BSIZE - off % BSIZE ==>
                TouchesFile(l, View(ip), ip.inum, off, old(dirty), dirty) == true
    {
      if off > ip.size || (off + n) % U32 < off {
        return -1;
      }
      if (off + n) % U32 > MAXFILE * BSIZE {
        return -1;
      }
      r := WritePieces(ip, src, off, n);
      if off + r > ip.size {
        ip.size := off + r;
      }
      AddOne(dirty, l.InodeBlock(ip.inum));
      ghost var g, d := View(ip), dirty;
      Iupdate(ip);
      assert addrs[ip.inum := ip.addrs] == g.addrs;
      if 0 < n <= BSIZE - off % BSIZE {
        TouchesInode(l, g, ip.inum, off, old(dirty), d, dirty);
      }
    }

    /** t bytes of src are in the file, from off on, in a file that began as f with `size` bytes. */
    ghost predicate FileHolds(ip: Inode, f: Fs, size: int, off: int, src: seq<int>, t: int)
      reads this`blocks, this`addrs, this`sizes, this`owner, ip
    {
      HoldsIn(l, Fs(blocks, addrs, owner), sizes, ip.inum, ip.addrs, ip.size, f, size, off, src, t)
    }

    /** n1 more bytes of src, after the i that are in the file, which go to offset p. */
    method WriteMore(ip: Inode, ghost f: Fs, ghost size: int, ghost off: int, src: seq<int>, i: int, p: int, n1: int)
        returns (r: int)
      requires FileHolds(ip, f, size, off, src, i) == true && 0 <= off < U32 && p == off + i && 0 < n1 <= 3 * BSIZE
      modifies this, ip
      ensures r <= n1 && (r > 0 ==> FileHolds(ip, f, size, off, src, i + r) == true)
      ensures r <= 0 ==> FileHolds(ip, f, size, off, src, i) == true
      ensures |dirty| <= |old(dirty)| + MAXOPBLOCKS && ops == old(ops)
    {
      assert Seek(0);
      ghost var g, was := View(ip), ip.size;
      HoldsStart(l, f, g, ip.inum, size, was, off, src, i);
      r := Writei(ip, src[i..], p, n1);
      ChunkFits(p, n1);
      if r >= 0 {
        HoldsMore(l, f, g, View(ip), ip.inum, size, was, ip.size, off, src, i, r);
      }
    }

    /** One operation of filewrite. */
    method WriteChunk(file: File, ip: Inode, ghost f: Fs, ghost size: int, ghost off: int, src: seq<int>,
                      i: int, n1: int) returns (r: int)
      requires FileHolds(ip, f, size, off, src, i) == true && file.off == off + i && 0 <= off < U32
      requires 0 < n1 <= 3 * BSIZE
      modifies this, ip, file
      ensures r <= n1 && (r > 0 ==> FileHolds(ip, f, size, off, src, i + r) == true)
      ensures r <= 0 ==> FileHolds(ip, f, size, off, src, i) == true
      ensures file.off == if r > 0 then old(file.off) + r else old(file.off)
      ensures OpsFit(old(ops), ops) == true && |ops| == |old(ops)| + 1
    {
      dirty := {};
      r := WriteMore(ip, f, size, off, src, i, file.off, n1);
      OpsFitOne(ops, dirty);
      if r > 0 {
        file.off := file.off + r;
      }
      ops := ops + [dirty];
    }

    /** filewrite on an inode: src in chunks that each fit one operation of the log. */
    method Filewrite(file: File, ip: Inode, src: seq<int>, n: int) returns (ret: int)
      requires Whole(ip) == true && 0 <= file.off < U32 && n < U32 / 2
      modifies this, ip, file
      ensures old(file.off) <= file.off
      ensures FileHolds(ip, old(View(ip)), old(ip.size), old(file.off), src, file.off - old(file.off)) == true
      ensures ret == if file.off - old(file.off) == n then n else -1
      ensures OpsFit(old(ops), ops) == true
    {
      var max := (MAXOPBLOCKS - 1 - 1 - 2) / 2 * BSIZE;
      var i := 0;
      ghost var f, size, off, done := View(ip), ip.size, file.off, 0;
      HoldsNothing(l, f, ip.inum, size, off, src);
      while i < n
        invariant 0 <= i == done && (i <= n || i == 0) && file.off == off + i
        invariant FileHolds(ip, f, size, off, src, i) == true
        invariant OpsFit(old(ops), ops) == true
        decreases n - i
      {
        var n1 := n - i;
        if n1 > max {
          n1 := max;
        }
        ghost var before := ops;
        var r := WriteChunk(file, ip, f, size, off, src, i, n1);
        OpsFitOn(old(ops), before, ops);
        done := if r > 0 then i + r else i;
        if r != n1 {
          break;
        }
        i := i + r;
      }
      assert done == file.off - old(file.off);
      ret := if i == n then n else -1;
    }
  }
}
