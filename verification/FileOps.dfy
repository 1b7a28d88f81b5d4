/** What the file system calls of kernel/sysfile.c pass to log_write between begin_op and end_op: the writes
    of create, link, unlink and of an iput that frees an inode. The log reserves MAXOPBLOCKS blocks for
    each call. Which entry is written, and what a call decides on, is the matter of Links; here a call is
    its sequence of block writes, with the decisions as parameters. */
module FileOps {
  import opened FsSpec
  import opened FileSpec
  import opened FileSystem
  import LogSpec

  /** Bytes of a directory entry. */
  const DIRENT := 16

  ghost function Disk(fs: FileSystem): Fs
    reads fs`blocks, fs`addrs, fs`owner
  {
    Fs(fs.blocks, fs.addrs, fs.owner)
  }

  /** An inode in memory, with these block numbers and size, that agrees with the disk. */
  ghost predicate Agrees(l: Layout, f: Fs, sizes: seq<int>, i: int, a: seq<int>, size: int) {
    forall k {:trigger Look(k)} | Look(k) ::
      && Owned(l, f) && 0 <= i < |f.addrs| == |sizes| == l.ninodes && l.size <= U32
      && f.addrs[i] == a && sizes[i] == size && 0 <= size <= MAXSIZE && Filled(l, f, i, size)
  }

  ghost predicate Synced(fs: FileSystem, ip: Inode)
    reads fs`blocks, fs`addrs, fs`owner, fs`sizes, ip
  {
    Agrees(fs.l, Disk(fs), fs.sizes, ip.inum, ip.addrs, ip.size)
  }

  /** Two inodes that a call has in hand. */
  ghost predicate Both(fs: FileSystem, ip: Inode, dp: Inode)
    reads fs`blocks, fs`addrs, fs`owner, fs`sizes, ip, dp
  {
    ip != dp && ip.inum != dp.inum && Synced(fs, ip) && Synced(fs, dp)
  }

  /** The blocks in e and not in d are blocks of the bitmap or of b. */
  ghost predicate Adds(l: Layout, d: set<int>, e: set<int>, b: set<int>) {
    forall k {:trigger Look(k)} | Look(k) :: d <= e <= d + Bitmaps(l) + b
  }

  /** The blocks in d are blocks of the bitmap or of b. */
  ghost predicate Within(l: Layout, d: set<int>, b: set<int>) {
    forall k {:trigger Look(k)} | Look(k) :: d <= Bitmaps(l) + b
  }

  lemma WithinMore(l: Layout, d: set<int>, e: set<int>, b: set<int>, c: set<int>, t: set<int>)
    requires Within(l, d, b) && Adds(l, d, e, c) && b <= t && c <= t
    ensures Within(l, e, t)
  {
    assert Look(0);
  }

  lemma WithinNothing(l: Layout, b: set<int>)
    ensures Within(l, {}, b)
  {
  }

  /** A change of inode i leaves another one in agreement with the disk. */
  lemma AgreesStill(l: Layout, f: Fs, g: Fs, sizes: seq<int>, sizes': seq<int>, i: int, j: int, a: seq<int>, size: int)
    requires Agrees(l, f, sizes, j, a, size) && i != j && 0 <= i < |f.addrs| && OthersKept(l, f, g, i)
    requires 0 <= j < |sizes| && g.addrs == f.addrs[i := g.addrs[i]] && |sizes'| == |sizes| && sizes'[j] == sizes[j]
    ensures Agrees(l, g, sizes', j, a, size)
  {
    assert Look(0);
    forall bn | 0 <= bn < MAXFILE && bn * BSIZE < size ensures At(l, g, Slot(j, FileSlot(bn))) != 0 {
      assert At(l, f, Slot(j, FileSlot(bn))) != 0;
    }
  }

  lemma ViewIsDisk(fs: FileSystem, ip: Inode)
    requires Synced(fs, ip)
    ensures fs.Whole(ip) && fs.View(ip) == Disk(fs) && fs.addrs[ip.inum] == ip.addrs && fs.sizes[ip.inum] == ip.size
  {
    assert Look(0);
    assert fs.addrs[ip.inum := ip.addrs] == fs.addrs;
  }

  /** iupdate of an inode that only got another link count. */
  method Update(fs: FileSystem, ip: Inode, dp: Inode)
    requires Both(fs, ip, dp)
    modifies fs`addrs, fs`sizes, fs`dirty
    ensures Both(fs, ip, dp) && Disk(fs) == old(Disk(fs)) && fs.sizes == old(fs.sizes)
    ensures Adds(fs.l, old(fs.dirty), fs.dirty, {fs.l.InodeBlock(ip.inum)}) == true
  {
    ViewIsDisk(fs, ip);
    fs.Iupdate(ip);
    assert fs.addrs == old(fs.addrs) && fs.sizes == old(fs.sizes);
  }

  /** iput; the inode is freed if this was its last reference and it has no link. */
  method Put(fs: FileSystem, ip: Inode, dp: Inode, last: bool)
    requires Both(fs, ip, dp)
    modifies fs, ip
    ensures Both(fs, ip, dp) && fs.ops == old(fs.ops)
    ensures Adds(fs.l, old(fs.dirty), fs.dirty, {fs.l.InodeBlock(ip.inum)}) == true
  {
    if last {
      ghost var f, sizes := Disk(fs), fs.sizes;
      ViewIsDisk(fs, ip);
      ViewIsDisk(fs, dp);
      fs.Itrunc(ip);
      assert fs.View(ip) == Disk(fs) by { assert fs.addrs[ip.inum := ip.addrs] == fs.addrs; }
      AgreesStill(fs.l, f, Disk(fs), sizes, fs.sizes, ip.inum, dp.inum, dp.addrs, dp.size);
      Update(fs, ip, dp);
    }
  }

  /** The blocks for an entry at off of directory i, besides those of the bitmap. */
  ghost function EntryBlocks(l: Layout, f: Fs, i: int, off: int): (r: set<int>)
    requires Table(l, f) && 0 <= i < |f.addrs| && 0 <= off
    ensures |r| <= 3 && (off < BSIZE ==> |r| <= 2) && (r == {} || l.InodeBlock(i) in r)
  {
    if off < MAXSIZE then
      var names := PieceBlocks(l, f, i, off);
      TwoAtMost(At(l, f, SlotOf(i, off)), f.addrs[i][NDIRECT]);
      AddOne(names, l.InodeBlock(i));
      {l.InodeBlock(i)} + names
    else {}
  }

  lemma TwoAtMost(a: int, b: int)
    ensures |{a}| == 1 && |{a} + {b}| <= 2
  {
    AddOne({a}, b);
  }

  /** A directory entry written by dirlink, or zeroed by unlink. */
  method WriteEntry(fs: FileSystem, dp: Inode, ip: Inode, off: int, de: seq<int>) returns (ok: bool)
    requires Both(fs, dp, ip) && 0 <= off < U32 && off % DIRENT == 0 && |de| == DIRENT
    modifies fs, dp
    ensures Both(fs, dp, ip) && Table(fs.l, Disk(fs)) && 0 <= dp.inum < |fs.addrs| && fs.ops == old(fs.ops)
            && (ok ==> dp.size >= off + DIRENT)
    ensures KeepsBlocks(fs.l, old(Disk(fs)), Disk(fs)) == true
    ensures Adds(fs.l, old(fs.dirty), fs.dirty, EntryBlocks(fs.l, Disk(fs), dp.inum, off)) == true
  {
    ghost var f, sizes, d := Disk(fs), fs.sizes, fs.dirty;
    ViewIsDisk(fs, dp);
    ViewIsDisk(fs, ip);
    EntryInBlock(off);
    var r := fs.Writei(dp, de, off, DIRENT);
    ok := r == DIRENT;
    assert fs.View(dp) == Disk(fs) by { assert fs.addrs[dp.inum := dp.addrs] == fs.addrs; }
    if r != -1 {
      AgreesStill(fs.l, f, Disk(fs), sizes, fs.sizes, dp.inum, ip.inum, ip.addrs, ip.size);
      TouchesEntry(fs.l, Disk(fs), dp.inum, off, d, fs.dirty);
    }
  }

  ghost predicate KeepsBlocks(l: Layout, f: Fs, g: Fs) {
    Table(l, f) && Table(l, g) && |g.addrs| == |f.addrs| && forall t | InRange(f, t) && At(l, f, t) != 0 ::
          At(l, g, t) == At(l, f, t)
  }

  lemma EntryInBlock(off: int)
    requires 0 <= off && off % DIRENT == 0
    ensures DIRENT <= BSIZE - off % BSIZE
  {
    assert off == off / BSIZE * BSIZE + off % BSIZE;
    assert off / BSIZE * BSIZE == off / BSIZE * 64 * DIRENT;
  }

  lemma TouchesEntry(l: Layout, f: Fs, i: int, off: int, d: set<int>, e: set<int>)
    requires TouchesFile(l, f, i, off, d, e)
    ensures Table(l, f) && 0 <= i < |f.addrs| && 0 <= off && Adds(l, d, e, EntryBlocks(l, f, i, off))
  {
    assert Look(0);
  }

  // The calls.

  /** The call that ended passed at most k blocks besides those of the bitmap to log_write. */
  ghost predicate Logged(l: Layout, before: seq<set<int>>, ops: seq<set<int>>, k: int) {
    && |ops| == |before| + 1 && ops[..|before|] == before
    && |ops[|before|]| <= |Bitmaps(l)| + k
  }

  lemma LoggedNow(l: Layout, ops: seq<set<int>>, d: set<int>, b: set<int>, k: int)
    requires Within(l, d, b) && |b| <= k
    ensures Logged(l, ops, ops + [d], k)
  {
    assert Look(0);
    LogSpec.SubsetSize(d, Bitmaps(l) + b);
    LogSpec.UnionSize(Bitmaps(l), b);
    LogSpec.SubsetSize(b - Bitmaps(l), b);
  }

  /** The blocks of an entry, the inode blocks a and b of its directory and of the inode, and one more. */
  lemma CallSize(e: set<int>, a: int, b: int, data: int)
    requires |e| <= 3 && (e == {} || a in e)
    ensures |e + {a, b}| <= 4 && |e + {a, b, data}| <= 5
  {
    AddOne(e, a);
    AddOne(e + {a}, b);
    AddOne(e + {a} + {b}, data);
    assert e + {a, b} == e + {a} + {b} && e + {a, b, data} == e + {a} + {b} + {data};
  }

  /** An iput by itself, as at the end of fileclose, in chdir, exec or exit. */
  method Close(fs: FileSystem, ip: Inode, dp: Inode, last: bool)
    requires Both(fs, ip, dp) == true
    modifies fs, ip
    ensures Both(fs, ip, dp) == true && Logged(fs.l, old(fs.ops), fs.ops, 1) == true
  {
    ghost var b := {fs.l.InodeBlock(ip.inum)};
    fs.dirty := {};
    WithinNothing(fs.l, b);
    Put(fs, ip, dp, last);
    WithinMore(fs.l, {}, fs.dirty, b, b, b);
    LoggedNow(fs.l, fs.ops, fs.dirty, b, 1);
    fs.ops := fs.ops + [fs.dirty];
  }

  /** What unlink, link and create do at their end with an inode: its link count goes to disk, and its
      reference is given up. */
  method Finish(fs: FileSystem, ip: Inode, dp: Inode, counted: bool, put: bool, last: bool, ghost t: set<int>)
    requires Both(fs, ip, dp) == true && Within(fs.l, fs.dirty, t) == true && fs.l.InodeBlock(ip.inum) in t
    modifies fs, ip
    ensures Both(fs, ip, dp) == true && Within(fs.l, fs.dirty, t) == true && fs.ops == old(fs.ops)
    ensures !put ==> ip.size == old(ip.size)
  {
    ghost var b, d := {fs.l.InodeBlock(ip.inum)}, fs.dirty;
    if counted {
      Update(fs, ip, dp);
      WithinMore(fs.l, d, fs.dirty, t, b, t);
    }
    d := fs.dirty;
    if put {
      Put(fs, ip, dp, last);
      WithinMore(fs.l, d, fs.dirty, t, b, t);
    }
  }

  /** The entry at off, and the blocks it takes. */
  method AddEntry(fs: FileSystem, dp: Inode, ip: Inode, off: int, de: seq<int>, ghost t: set<int>)
      returns (ok: bool, ghost e: set<int>)
    requires Both(fs, dp, ip) == true && 0 <= off < U32 && off % DIRENT == 0 && |de| == DIRENT
    requires Within(fs.l, fs.dirty, t) == true
    modifies fs, dp
    ensures Both(fs, dp, ip) == true && Within(fs.l, fs.dirty, e + t) == true && fs.ops == old(fs.ops)
    ensures |e| <= 3 && (e == {} || fs.l.InodeBlock(dp.inum) in e)
  {
    ghost var d := fs.dirty;
    ok := WriteEntry(fs, dp, ip, off, de);
    e := EntryBlocks(fs.l, Disk(fs), dp.inum, off);
    WithinMore(fs.l, d, fs.dirty, t, e, e + t);
  }

  lemma WithinMost(l: Layout, d: set<int>, b: set<int>, t: set<int>)
    requires Within(l, d, b) && b <= t
    ensures Within(l, d, t)
  {
    assert Look(0);
  }

  /** unlink of an entry at off of dp for ip; a directory's parent loses the link of "..". Not ok is the
      panic of a failed write. */
  method Unlink(fs: FileSystem, dp: Inode, ip: Inode, off: int, de: seq<int>, dir: bool, lastParent: bool, last: bool)
    returns (ok: bool)
    requires Both(fs, dp, ip) == true && 0 <= off < U32 && off % DIRENT == 0 && |de| == DIRENT
    modifies fs, dp, ip
    ensures Both(fs, dp, ip) == true && Logged(fs.l, old(fs.ops), fs.ops, 4) == true
  {
    ghost var a, b := fs.l.InodeBlock(dp.inum), fs.l.InodeBlock(ip.inum);
    fs.dirty := {};
    WithinNothing(fs.l, {});
    ghost var e;
    ok, e := AddEntry(fs, dp, ip, off, de, {});
    ghost var t := e + {a, b};
    CallSize(e, a, b, 0);
    WithinMost(fs.l, fs.dirty, e + {}, t);
    if ok {
      Finish(fs, dp, ip, dir, true, lastParent, t);
      Finish(fs, ip, dp, true, true, last, t);
    }
    LoggedNow(fs.l, fs.ops, fs.dirty, t, 4);
    fs.ops := fs.ops + [fs.dirty];
  }

  /** link: the count of ip, then the entry at off of dp if the directory was found; the count again if
      there is no entry. */
  method Link(fs: FileSystem, ip: Inode, dp: Inode, found: bool, off: int, de: seq<int>, lastParent: bool, last: bool)
    returns (ok: bool)
    requires Both(fs, dp, ip) == true && 0 <= off < U32 && off % DIRENT == 0 && |de| == DIRENT
    modifies fs, dp, ip
    ensures Both(fs, dp, ip) == true && Logged(fs.l, old(fs.ops), fs.ops, 4) == true && (ok ==> found)
  {
    ghost var e, a, b := {}, fs.l.InodeBlock(dp.inum), fs.l.InodeBlock(ip.inum);
    fs.dirty := {};
    WithinNothing(fs.l, {b});
    Finish(fs, ip, dp, true, false, false, {b});
    ok := found;
    if found {
      ok, e := AddEntry(fs, dp, ip, off, de, {b});
    }
    ghost var t := e + {a, b};
    CallSize(e, a, b, 0);
    WithinMost(fs.l, fs.dirty, e + {b}, t);
    Finish(fs, dp, ip, false, found, lastParent, t);
    Finish(fs, ip, dp, !ok, true, last, t);
    LoggedNow(fs.l, fs.ops, fs.dirty, t, 4);
    fs.ops := fs.ops + [fs.dirty];
  }

  /** create of ip, fresh from ialloc, with an entry at off of dp; "." and ".." first if it is a directory.
      What was made is given up if an entry cannot be written. */
  method Create(fs: FileSystem, dp: Inode, ip: Inode, dir: bool, off: int, de: seq<seq<int>>, lastParent: bool,
                last: bool)
    returns (ok: bool)
    requires Both(fs, dp, ip) == true && 0 <= off < U32 && off % DIRENT == 0 && ip.size == 0
    requires |de| == 3 && |de[0]| == |de[1]| == |de[2]| == DIRENT
    modifies fs, dp, ip
    ensures Both(fs, dp, ip) == true && Logged(fs.l, old(fs.ops), fs.ops, 5) == true
  {
    ghost var e, data, a, b := {}, 0, fs.l.InodeBlock(dp.inum), fs.l.InodeBlock(ip.inum);
    fs.dirty := {};
    ok, data := NewInode(fs, ip, dp, dir, de[0], de[1]);
    if ok {
      ok, e := AddEntry(fs, dp, ip, off, de[2], {b, data});
    }
    ghost var t := e + {a, b, data};
    CallSize(e, a, b, data);
    WithinMost(fs.l, fs.dirty, e + {b, data}, t);
    Finish(fs, ip, dp, !ok, !ok, last, t);
    Finish(fs, dp, ip, ok && dir, true, lastParent, t);
    LoggedNow(fs.l, fs.ops, fs.dirty, t, 5);
    fs.ops := fs.ops + [fs.dirty];
  }

  /** ialloc, the link count, and "." and ".." of a directory, which lie both in its first block, `data`. */
  method NewInode(fs: FileSystem, ip: Inode, dp: Inode, dir: bool, dot: seq<int>, dotdot: seq<int>)
    returns (ok: bool, ghost data: int)
    requires Both(fs, dp, ip) == true && ip.size == 0 && fs.dirty == {} && |dot| == |dotdot| == DIRENT
    modifies fs, ip
    ensures Both(fs, dp, ip) == true && fs.ops == old(fs.ops)
    ensures Within(fs.l, fs.dirty, {fs.l.InodeBlock(ip.inum), data}) == true
  {
    ghost var b := fs.l.InodeBlock(ip.inum);
    ok, data := true, b;
    WithinNothing(fs.l, {b});
    Finish(fs, ip, dp, true, false, false, {b});
    Finish(fs, ip, dp, true, false, false, {b});
    if dir {
      ghost var d := fs.dirty;
      ok, data := FirstEntries(fs, ip, dp, dot, dotdot);
      WithinMore(fs.l, d, fs.dirty, {b}, {b, data}, {b, data});
    }
  }

  method FirstEntries(fs: FileSystem, ip: Inode, dp: Inode, dot: seq<int>, dotdot: seq<int>)
      returns (ok: bool, ghost data: int)
    requires Both(fs, dp, ip) && ip.size == 0 && |dot| == |dotdot| == DIRENT
    modifies fs, ip
    ensures Both(fs, dp, ip) && fs.ops == old(fs.ops)
    ensures Adds(fs.l, old(fs.dirty), fs.dirty, {fs.l.InodeBlock(ip.inum), data}) == true
  {
    ok := WriteEntry(fs, ip, dp, 0, dot);
    data := At(fs.l, Disk(fs), SlotOf(ip.inum, 0));
    assert EntryBlocks(fs.l, Disk(fs), ip.inum, 0) == {fs.l.InodeBlock(ip.inum), data};
    if ok {
      ViewIsDisk(fs, ip);
      assert data != 0;
      ghost var d := fs.dirty;
      ok := WriteEntry(fs, ip, dp, DIRENT, dotdot);
      assert At(fs.l, Disk(fs), SlotOf(ip.inum, DIRENT)) == data;
      assert EntryBlocks(fs.l, Disk(fs), ip.inum, DIRENT) == {fs.l.InodeBlock(ip.inum), data};
      AddsTwice(fs.l, old(fs.dirty), d, fs.dirty, {fs.l.InodeBlock(ip.inum), data});
    }
  }

  lemma AddsTwice(l: Layout, d: set<int>, e: set<int>, g: set<int>, b: set<int>)
    requires Adds(l, d, e, b) && Adds(l, e, g, b)
    ensures Adds(l, d, g, b)
  {
    assert Look(0);
  }

  // The bitmap.

  function Interval(lo: int, n: nat): set<int> {
    if n == 0 then {} else Interval(lo, n - 1) + {lo + n - 1}
  }

  lemma {:induction false} IntervalIs(lo: int, n: nat)
    ensures |Interval(lo, n)| == n && forall k :: k in Interval(lo, n) <==> lo <= k < lo + n
  {
    if n > 0 { IntervalIs(lo, n - 1); }
  }

  /** One bitmap block for every BPB blocks of the disk. */
  lemma BitmapCount(l: Layout)
    requires l.size > 0
    ensures |Bitmaps(l)| <= (l.size - 1) / BPB + 1
  {
    var n := (l.size - 1) / BPB + 1;
    IntervalIs(l.bmapstart, n);
    LogSpec.SubsetSize(Bitmaps(l), Interval(l.bmapstart, n));
  }

  /** A call that passes at most five blocks besides those of the bitmap fits what the log reserves for it,
      on every disk whose bitmap has at most five blocks: mkfs makes one of 2000 blocks. */
  lemma CallFits(l: Layout, before: seq<set<int>>, ops: seq<set<int>>, k: int)
    requires 0 < l.size <= 5 * BPB && k <= 5 && Logged(l, before, ops, k)
    ensures |ops[|before|]| <= MAXOPBLOCKS
  {
    BitmapCount(l);
  }
}
