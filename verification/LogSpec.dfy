/** The on-disk redo log of kernel/log.c: what each block write of a commit and of
    a recovery leaves on disk, and why a crash after any of them is harmless. */
module LogSpec {

  const LOGSIZE := 30
  const MAXOPBLOCKS := 10
  const NBUF := 30

  /** 32-bit words in a block (BSIZE / sizeof(int)). */
  const WORDS := 256

  type Block = seq<int>
  type Disk = seq<Block>

  /** The blocks [start, start + size) that hold the header and the logged copies. */
  datatype Region = Region(start: nat, size: nat) {
    predicate Contains(b: int) {
      start <= b < start + size
    }
  }

  /** The disk holds the log: as mkfs lays it out, a header and at least LOGSIZE blocks. */
  ghost predicate Formatted(l: Region, d: Disk) {
    && l.size > LOGSIZE
    && l.start + l.size <= |d|
    && |d[l.start]| == WORDS
  }

  ghost predicate Distinct(s: seq<int>) {
    forall i, j {:trigger Differ(s[i], s[j])} | 0 <= i < j < |s| :: Differ(s[i], s[j])
  }

  predicate Differ(a: int, b: int) {
    a != b
  }

  predicate IsHome(l: Region, size: nat, b: int) {
    0 <= b < size && !l.Contains(b)
  }

  /** What the log may list: at most LOGSIZE different blocks, none of them in the log. */
  ghost predicate Loggable(l: Region, size: nat, lh: seq<int>) {
    && |lh| <= LOGSIZE
    && Distinct(lh)
    && forall i | 0 <= i < |lh| :: IsHome(l, size, lh[i])
  }

  /** The blocks a file system call can see, those outside the log, are the same. */
  ghost predicate SameHome(l: Region, d: Disk, e: Disk) {
    |d| == |e| && forall b {:trigger IsHome(l, |d|, b)} | IsHome(l, |d|, b) :: d[b] == e[b]
  }

  /** write_head: word 0 is the count, the block numbers follow, the rest of the block stays. */
  function EncodeHead(prior: Block, lh: seq<int>): (b: Block)
    requires |lh| <= LOGSIZE && |prior| == WORDS
    ensures |b| == WORDS
  {
    [|lh|] + lh + prior[1 + |lh|..]
  }

  ghost predicate ValidHead(l: Region, d: Disk) {
    && Formatted(l, d)
    && 0 <= d[l.start][0] <= LOGSIZE
    && Loggable(l, |d|, d[l.start][1..1 + d[l.start][0]])
  }

  /** read_head: the block numbers listed by the header on disk. */
  ghost function Head(l: Region, d: Disk): seq<int>
    requires ValidHead(l, d)
  {
    d[l.start][1..1 + d[l.start][0]]
  }

  // Images: the disk after the i-th write of each loop.

  /** write_log after i iterations. */
  ghost function AfterWriteLog(l: Region, d: Disk, data: seq<Block>, i: nat): (e: Disk)
    requires Formatted(l, d) && i <= |data| <= LOGSIZE
    ensures |e| == |d| && Formatted(l, e)
  {
    if i == 0 then d else AfterWriteLog(l, d, data, i - 1)[l.start + i := data[i - 1]]
  }

  /** write_head. */
  ghost function AfterHead(l: Region, d: Disk, lh: seq<int>): (e: Disk)
    requires Formatted(l, d) && |lh| <= LOGSIZE
    ensures |e| == |d| && Formatted(l, e)
  {
    d[l.start := EncodeHead(d[l.start], lh)]
  }

  /** install_trans after i iterations. */
  ghost function AfterInstall(l: Region, d: Disk, lh: seq<int>, i: nat): (e: Disk)
    requires Formatted(l, d) && Loggable(l, |d|, lh) && i <= |lh|
    ensures |e| == |d| && Formatted(l, e)
  {
    if i == 0 then d else assert IsHome(l, |d|, lh[i - 1]); AfterInstall(l, d, lh, i - 1)[lh[i - 1] := d[l.start + i]]
  }

  lemma {:induction false} WriteLogAt(l: Region, d: Disk, data: seq<Block>, i: nat)
    requires Formatted(l, d) == true && i <= |data| <= LOGSIZE
    ensures var e := AfterWriteLog(l, d, data, i);
            && (forall j | 0 <= j < i :: e[l.start + 1 + j] == data[j])
            && (forall b | 0 <= b < |d| && !(l.start < b <= l.start + i) :: e[b] == d[b])
  {
    if i > 0 {
      WriteLogAt(l, d, data, i - 1);
    }
  }

  lemma {:induction false} InstallAt(l: Region, d: Disk, lh: seq<int>, i: nat)
    requires Formatted(l, d) == true && Loggable(l, |d|, lh) == true && i <= |lh|
    ensures var e := AfterInstall(l, d, lh, i);
            && (forall j | 0 <= j < i :: e[lh[j]] == d[l.start + 1 + j])
            && (forall b | 0 <= b < |d| && b !in lh[..i] :: e[b] == d[b])
            && (forall b | l.Contains(b) :: e[b] == d[b])
  {
    if i > 0 {
      InstallAt(l, d, lh, i - 1);
      assert lh[..i] == lh[..i - 1] + [lh[i - 1]];
      assert IsHome(l, |d|, lh[i - 1]);
      assert forall j | 0 <= j < i - 1 :: Differ(lh[j], lh[i - 1]);
    }
  }

  /** One iteration of install_trans copies between blocks of the current disk. */
  lemma InstallStep(l: Region, d: Disk, lh: seq<int>, i: nat)
    requires Formatted(l, d) == true && Loggable(l, |d|, lh) == true && i < |lh|
    ensures var e := AfterInstall(l, d, lh, i);
            && IsHome(l, |e|, lh[i])
            && AfterInstall(l, d, lh, i + 1) == e[lh[i] := e[l.start + i + 1]]
  {
    InstallAt(l, d, lh, i);
    assert l.Contains(l.start + i + 1);
    assert IsHome(l, |d|, lh[i]);
  }

  lemma HeadWritten(l: Region, d: Disk, lh: seq<int>)
    requires Formatted(l, d) == true && Loggable(l, |d|, lh) == true
    ensures var e := AfterHead(l, d, lh);
            && ValidHead(l, e) && Head(l, e) == lh && SameHome(l, d, e)
  {
    var e := AfterHead(l, d, lh);
    assert e[l.start][1..1 + |lh|] == lh;
  }

  /** The disk with the j-th logged block holding data[j]: what a committed transaction means. */
  ghost function Overlay(d: Disk, lh: seq<int>, data: seq<Block>): (e: Disk)
    requires |data| == |lh|
    ensures |e| == |d|
  {
    seq(|d|, b requires 0 <= b < |d| => if b in lh then data[IndexOf(lh, b)] else d[b])
  }

  ghost function IndexOf(lh: seq<int>, b: int): (i: nat)
    requires b in lh
    ensures i < |lh| && lh[i] == b
  {
    var i: nat :| i < |lh| && lh[i] == b;
    i
  }

  // A commit and a recovery, write by write.

  /** The disk at the commit point: the log written and its header in place. */
  ghost function Committed(l: Region, d: Disk, lh: seq<int>, data: seq<Block>): (e: Disk)
    requires Formatted(l, d) && |data| == |lh| <= LOGSIZE
    ensures |e| == |d| && Formatted(l, e)
  {
    AfterHead(l, AfterWriteLog(l, d, data, |lh|), lh)
  }

  /** The disk after the first k of the 2n + 2 writes of commit(). */
  ghost function CommitImage(l: Region, d: Disk, lh: seq<int>, data: seq<Block>, k: nat): Disk
    requires Formatted(l, d) && Loggable(l, |d|, lh) && |data| == |lh| && k <= 2 * |lh| + 2
  {
    var n := |lh|;
    if k <= n then AfterWriteLog(l, d, data, k)
    else if k <= 2 * n + 1 then AfterInstall(l, Committed(l, d, lh, data), lh, k - n - 1)
    else AfterHead(l, AfterInstall(l, Committed(l, d, lh, data), lh, n), [])
  }

  /** The disk after the first k writes of recover_from_log() (all of them when k is larger). */
  ghost function RecoverImage(l: Region, d: Disk, k: nat): Disk
    requires ValidHead(l, d)
  {
    var lh := Head(l, d);
    if k <= |lh| then AfterInstall(l, d, lh, k)
    else AfterHead(l, AfterInstall(l, d, lh, |lh|), [])
  }

  /** The home blocks that a recovery starting from d will leave. */
  ghost function Recovered(l: Region, d: Disk): Disk
    requires ValidHead(l, d)
  {
    AfterInstall(l, d, Head(l, d), |Head(l, d)|)
  }

  /** Installing again what is partly installed changes nothing. */
  lemma InstallTwice(l: Region, d: Disk, lh: seq<int>, i: nat)
    requires Formatted(l, d) == true && Loggable(l, |d|, lh) == true && i <= |lh|
    ensures var e := AfterInstall(l, d, lh, i);
            && Formatted(l, e) && Loggable(l, |e|, lh)
            && SameHome(l, AfterInstall(l, e, lh, |lh|), AfterInstall(l, d, lh, |lh|))
  {
    var e := AfterInstall(l, d, lh, i);
    InstallAt(l, d, lh, i);
    InstallAt(l, d, lh, |lh|);
    InstallAt(l, e, lh, |lh|);
    var r, s := AfterInstall(l, d, lh, |lh|), AfterInstall(l, e, lh, |lh|);
    assert lh[..|lh|] == lh;
    forall b | IsHome(l, |s|, b) ensures s[b] == r[b] {
      if b in lh {
        var j := IndexOf(lh, b);
        assert l.Contains(l.start + 1 + j);
      } else {
        assert b !in lh[..i];
      }
    }
  }

  /** A crash inside a recovery: after any of its writes the disk still recovers to the
      same contents, and after the last one it holds them with an empty log. */
  lemma RecoverAtomic(l: Region, d: Disk, k: nat)
    requires ValidHead(l, d) == true
    ensures var e := RecoverImage(l, d, k);
            && ValidHead(l, e) && SameHome(l, Recovered(l, e), Recovered(l, d))
            && (k > |Head(l, d)| ==> Head(l, e) == [] && SameHome(l, e, Recovered(l, d)))
  {
    var lh := Head(l, d);
    if k <= |lh| {
      InstallAt(l, d, lh, k);
      assert l.Contains(l.start);
      InstallTwice(l, d, lh, k);
    } else {
      InstallAt(l, d, lh, |lh|);
      HeadWritten(l, AfterInstall(l, d, lh, |lh|), []);
    }
  }

  lemma InstalledIsOverlay(l: Region, d: Disk, h: Disk, lh: seq<int>, data: seq<Block>)
    requires Formatted(l, h) == true && Loggable(l, |h|, lh) == true && |data| == |lh| && SameHome(l, d, h) == true
    requires forall j | 0 <= j < |lh| :: h[l.start + 1 + j] == data[j]
    ensures SameHome(l, AfterInstall(l, h, lh, |lh|), Overlay(d, lh, data))
  {
    InstallAt(l, h, lh, |lh|);
    assert lh[..|lh|] == lh;
    var r := AfterInstall(l, h, lh, |lh|);
    forall b | IsHome(l, |r|, b) ensures r[b] == Overlay(d, lh, data)[b] {
      if b in lh {
        var j := IndexOf(lh, b);
        assert r[lh[j]] == h[l.start + 1 + j];
      } else {
        assert IsHome(l, |d|, b);
      }
    }
  }

  lemma CommitPoint(l: Region, d: Disk, lh: seq<int>, data: seq<Block>)
    requires Formatted(l, d) == true && Loggable(l, |d|, lh) == true && |data| == |lh|
    ensures var h := Committed(l, d, lh, data);
            && ValidHead(l, h) && Head(l, h) == lh
            && SameHome(l, Recovered(l, h), Overlay(d, lh, data))
  {
    WriteLogAt(l, d, data, |lh|);
    var w := AfterWriteLog(l, d, data, |lh|);
    HeadWritten(l, w, lh);
    InstalledIsOverlay(l, d, AfterHead(l, w, lh), lh, data);
  }

  /** A crash inside a commit: up to the header write the disk recovers to the contents
      before the transaction, from then on to the contents after the whole of it. */
  lemma CommitAtomic(l: Region, d: Disk, lh: seq<int>, data: seq<Block>, k: nat)
    requires ValidHead(l, d) == true && Head(l, d) == [] && Loggable(l, |d|, lh) == true
    requires |data| == |lh| && k <= 2 * |lh| + 2
    ensures var e := CommitImage(l, d, lh, data, k);
            && ValidHead(l, e)
            && SameHome(l, Recovered(l, e), if k <= |lh| then d else Overlay(d, lh, data))
            && (k == 2 * |lh| + 2 ==> Head(l, e) == [])
  {
    var n := |lh|;
    if k <= n {
      WriteLogAt(l, d, data, k);
    } else {
      CommitPoint(l, d, lh, data);
      RecoverAtomic(l, Committed(l, d, lh, data), k - n - 1);
    }
  }

  /** Recovery attempts that crash after ks[0], ks[1], ... writes, one after the other. */
  ghost function CrashedRecoveries(l: Region, d: Disk, ks: seq<nat>): Disk
    requires ValidHead(l, d)
    decreases |ks|
  {
    if ks == [] then d
    else
      RecoverAtomic(l, d, ks[0]);
      CrashedRecoveries(l, RecoverImage(l, d, ks[0]), ks[1..])
  }

  lemma {:induction false} CrashedRecoveriesHarmless(l: Region, d: Disk, ks: seq<nat>)
    requires ValidHead(l, d) == true
    ensures var e := CrashedRecoveries(l, d, ks);
            ValidHead(l, e) && SameHome(l, Recovered(l, e), Recovered(l, d))
    decreases |ks|
  {
    if ks != [] {
      RecoverAtomic(l, d, ks[0]);
      CrashedRecoveriesHarmless(l, RecoverImage(l, d, ks[0]), ks[1..]);
    }
  }

  /** Crash atomicity.  commit() crashes after k writes, then any number of recoveries crash
      after any number of their own writes, then one recovery completes.  The home blocks
      are then exactly those before the transaction, or exactly those after all of it. */
  lemma CrashAtomicity(l: Region, d: Disk, lh: seq<int>, data: seq<Block>, k: nat, ks: seq<nat>)
    requires ValidHead(l, d) == true && Head(l, d) == [] && Loggable(l, |d|, lh) == true
    requires |data| == |lh| && k <= 2 * |lh| + 2
    ensures ValidHead(l, CommitImage(l, d, lh, data, k))
    ensures var e := CrashedRecoveries(l, CommitImage(l, d, lh, data, k), ks);
            && ValidHead(l, e)
            && var r := RecoverImage(l, e, |Head(l, e)| + 1);
               && ValidHead(l, r) && Head(l, r) == []
               && SameHome(l, r, if k <= |lh| then d else Overlay(d, lh, data))
  {
    CommitAtomic(l, d, lh, data, k);
    var c := CommitImage(l, d, lh, data, k);
    CrashedRecoveriesHarmless(l, c, ks);
    var e := CrashedRecoveries(l, c, ks);
    RecoverAtomic(l, e, |Head(l, e)| + 1);
  }

  // The same images as the sequence of disks that the writes leave behind.

  ghost function WriteLogImages(l: Region, d: Disk, data: seq<Block>, i: nat): seq<Disk>
    requires Formatted(l, d) && i <= |data| <= LOGSIZE
  {
    if i == 0 then [] else WriteLogImages(l, d, data, i - 1) + [AfterWriteLog(l, d, data, i)]
  }

  ghost function InstallImages(l: Region, d: Disk, lh: seq<int>, i: nat): seq<Disk>
    requires Formatted(l, d) && Loggable(l, |d|, lh) && i <= |lh|
  {
    if i == 0 then [] else InstallImages(l, d, lh, i - 1) + [AfterInstall(l, d, lh, i)]
  }

  ghost function CommitImages(l: Region, d: Disk, lh: seq<int>, data: seq<Block>): seq<Disk>
    requires Formatted(l, d) && Loggable(l, |d|, lh) && |data| == |lh|
  {
    if lh == [] then [] else
    var h := Committed(l, d, lh, data);
    (WriteLogImages(l, d, data, |lh|) + [h])
    + (InstallImages(l, h, lh, |lh|) + [AfterHead(l, AfterInstall(l, h, lh, |lh|), [])])
  }

  lemma Associative(a: seq<Disk>, b: seq<Disk>, c: seq<Disk>)
    ensures a + b + c == a + (b + c)
  {
  }

  ghost function RecoverImages(l: Region, d: Disk): seq<Disk>
    requires ValidHead(l, d)
  {
    var n := |Head(l, d)|;
    InstallImages(l, d, Head(l, d), n) + [RecoverImage(l, d, n + 1)]
  }

  lemma {:induction false} WriteLogImageAt(l: Region, d: Disk, data: seq<Block>, i: nat, k: nat)
    requires Formatted(l, d) == true && k < i <= |data| <= LOGSIZE
    ensures |WriteLogImages(l, d, data, i)| == i
    ensures WriteLogImages(l, d, data, i)[k] == AfterWriteLog(l, d, data, k + 1)
  {
    if i > 1 {
      WriteLogImageAt(l, d, data, i - 1, if k < i - 1 then k else 0);
    }
  }

  lemma {:induction false} InstallImageAt(l: Region, d: Disk, lh: seq<int>, i: nat, k: nat)
    requires Formatted(l, d) == true && Loggable(l, |d|, lh) == true && k < i <= |lh|
    ensures |InstallImages(l, d, lh, i)| == i
    ensures InstallImages(l, d, lh, i)[k] == AfterInstall(l, d, lh, k + 1)
  {
    if i > 1 {
      InstallImageAt(l, d, lh, i - 1, if k < i - 1 then k else 0);
    }
  }

  /** The k-th disk that a commit leaves is the image after k + 1 writes. */
  lemma CommitImagesAt(l: Region, d: Disk, lh: seq<int>, data: seq<Block>, k: nat)
    requires Formatted(l, d) == true && Loggable(l, |d|, lh) == true && |data| == |lh| && lh != [] && k < 2 * |lh| + 2
    ensures |CommitImages(l, d, lh, data)| == 2 * |lh| + 2
    ensures CommitImages(l, d, lh, data)[k] == CommitImage(l, d, lh, data, k + 1)
  {
    var n := |lh|;
    WriteLogImageAt(l, d, data, n, if k < n then k else 0);
    InstallImageAt(l, Committed(l, d, lh, data), lh, n, if n < k <= 2 * n then k - n - 1 else 0);
  }

  lemma RecoverImagesAt(l: Region, d: Disk, k: nat)
    requires ValidHead(l, d) == true && k <= |Head(l, d)|
    ensures |RecoverImages(l, d)| == |Head(l, d)| + 1
    ensures RecoverImages(l, d)[k] == RecoverImage(l, d, k + 1)
  {
    var n := |Head(l, d)|;
    if n > 0 {
      InstallImageAt(l, d, Head(l, d), n, if k < n then k else 0);
    }
  }

  // The log in memory: what begin_op, log_write and end_op do under log.lock.

  /** lh is the in-memory header, cache the home blocks held by the buffer cache. */
  datatype Mem = Mem(lh: seq<int>, cache: map<int, Block>, pins: map<int, int>, outstanding: int, committing: bool)

  /** How often log_write has pinned the buffer of block b. */
  function PinCount(pins: map<int, int>, b: int): int {
    if b in pins then pins[b] else 0
  }

  /** Every logged block is cached under exactly one pin; any other cached block is clean. */
  ghost predicate MemOk(l: Region, d: Disk, m: Mem) {
    && Loggable(l, |d|, m.lh)
    && (forall b :: PinCount(m.pins, b) == if b in m.lh then 1 else 0)
    && (forall i | 0 <= i < |m.lh| :: m.lh[i] in m.cache)
    && (forall b | b in m.cache && b !in m.lh :: IsHome(l, |d|, b) && m.cache[b] == d[b])
  }

  /** The contents that write_log copies. */
  ghost function Data(lh: seq<int>, cache: map<int, Block>): seq<Block>
    requires forall i | 0 <= i < |lh| :: lh[i] in cache
  {
    seq(|lh|, i requires 0 <= i < |lh| => cache[lh[i]])
  }

  /** What bread returns: the cached copy of a block, or else the one on disk. */
  predicate Reads(d: Disk, m: Mem, b: int, data: Block)
    requires 0 <= b < |d|
  {
    data == if b in m.cache then m.cache[b] else d[b]
  }

  predicate CanBegin(m: Mem) {
    !m.committing && |m.lh| + (m.outstanding + 1) * MAXOPBLOCKS <= LOGSIZE
  }

  function BeginOp(m: Mem): Mem {
    m.(outstanding := m.outstanding + 1)
  }

  predicate LogWritePanics(l: Region, m: Mem) {
    |m.lh| >= LOGSIZE || |m.lh| >= l.size - 1 || m.outstanding < 1
  }

  /** log_write of block b, which its caller has filled with data. */
  function LogWrite(m: Mem, b: int, data: Block): Mem {
    if b in m.lh then m.(cache := m.cache[b := data])
    else m.(lh := m.lh + [b], cache := m.cache[b := data], pins := m.pins[b := PinCount(m.pins, b) + 1])
  }

  function EndOp(m: Mem): Mem {
    m.(outstanding := m.outstanding - 1, committing := m.outstanding == 1)
  }

  lemma AppendKeepsLoggable(l: Region, d: Disk, lh: seq<int>, b: int)
    requires Loggable(l, |d|, lh) == true && |lh| < LOGSIZE && b !in lh && IsHome(l, |d|, b)
    ensures Loggable(l, |d|, lh + [b])
  {
  }

  lemma LogWriteKeepsMem(l: Region, d: Disk, m: Mem, b: int, data: Block)
    requires MemOk(l, d, m) == true && !LogWritePanics(l, m) && IsHome(l, |d|, b)
    ensures MemOk(l, d, LogWrite(m, b, data)) == true
  {
    if b !in m.lh {
      AppendKeepsLoggable(l, d, m.lh, b);
    }
  }

  /** install_trans during a commit unpins the blocks one by one. */
  ghost function Unpin(pins: map<int, int>, lh: seq<int>, i: nat): map<int, int>
    requires i <= |lh|
  {
    if i == 0 then pins
    else
      var p := Unpin(pins, lh, i - 1);
      p[lh[i - 1] := PinCount(p, lh[i - 1]) - 1]
  }

  /** The log in memory after a commit. */
  ghost function Emptied(m: Mem): Mem {
    m.(lh := [], pins := Unpin(m.pins, m.lh, |m.lh|))
  }

  lemma {:induction false} UnpinAt(pins: map<int, int>, lh: seq<int>, i: nat, b: int)
    requires i <= |lh| && Distinct(lh)
    ensures PinCount(Unpin(pins, lh, i), b) == PinCount(pins, b) - if b in lh[..i] then 1 else 0
  {
    if i > 0 {
      UnpinAt(pins, lh, i - 1, b);
      assert lh[..i] == lh[..i - 1] + [lh[i - 1]];
      assert forall j | 0 <= j < i - 1 :: Differ(lh[j], lh[i - 1]);
    }
  }

  /** After a commit the log is empty, nothing is pinned and every cached block is clean. */
  lemma CommittedMem(l: Region, d: Disk, e: Disk, m: Mem)
    requires MemOk(l, d, m) == true
    requires SameHome(l, e, Overlay(d, m.lh, Data(m.lh, m.cache))) == true
    ensures MemOk(l, e, Emptied(m)) == true
  {
    forall b ensures PinCount(Unpin(m.pins, m.lh, |m.lh|), b) == 0 {
      UnpinAt(m.pins, m.lh, |m.lh|, b);
      assert m.lh[..|m.lh|] == m.lh;
    }
    forall b | b in m.cache ensures IsHome(l, |e|, b) && m.cache[b] == e[b] {
      assert IsHome(l, |d|, b) by {
        if b in m.lh {
          assert IsHome(l, |d|, m.lh[IndexOf(m.lh, b)]);
        }
      }
    }
  }

  // Buffers.

  function Pinned(pins: map<int, int>): set<int> {
    set b | b in pins && pins[b] > 0
  }

  function Listed(lh: seq<int>): set<int> {
    set b | b in lh
  }

  function Holding(held: multiset<int>): set<int> {
    set b | b in held
  }

  /** The blocks whose buffers are referenced: pinned by the log, or held by some process. */
  function Refs(pins: map<int, int>, held: multiset<int>): set<int> {
    Pinned(pins) + Holding(held)
  }

  /** bget panics: the block is in no buffer that is in use, and every buffer is in use. */
  predicate NoBuffer(refs: set<int>, b: int) {
    b !in refs && |refs| >= NBUF
  }

  /** The processes hold buffers of home blocks; only the log code reads log blocks. */
  ghost predicate HeldOk(l: Region, size: nat, held: multiset<int>) {
    forall b {:trigger held[b]} | b in held :: IsHome(l, size, b)
  }

  /** After i blocks of a commit are installed, what is pinned is the rest of the log. */
  lemma PinnedInCommit(l: Region, d: Disk, m: Mem, i: nat)
    requires MemOk(l, d, m) && i <= |m.lh|
    ensures Pinned(Unpin(m.pins, m.lh, i)) == Listed(m.lh[i..])
  {
    var pins := Unpin(m.pins, m.lh, i);
    forall b ensures b in Pinned(pins) <==> b in m.lh[i..] {
      UnpinAt(m.pins, m.lh, i, b);
      PartsDiffer(m.lh, i, b);
      assert PinCount(m.pins, b) == if b in m.lh then 1 else 0;
    }
  }

  lemma DifferAt(lh: seq<int>, j: int, k: int)
    requires Distinct(lh) && 0 <= j < k < |lh|
    ensures lh[j] != lh[k]
  {
    assert Differ(lh[j], lh[k]);
  }

  lemma PartsDiffer(lh: seq<int>, i: nat, b: int)
    requires Distinct(lh) && i <= |lh|
    ensures b in lh <==> b in lh[..i] || b in lh[i..]
    ensures !(b in lh[..i] && b in lh[i..])
  {
    assert lh == lh[..i] + lh[i..];
    if b in lh[..i] && b in lh[i..] {
      DifferAt(lh, IndexOf(lh[..i], b), i + IndexOf(lh[i..], b));
    }
  }

  lemma TailDistinct(lh: seq<int>, i: nat)
    requires Distinct(lh) && i <= |lh|
    ensures Distinct(lh[i..])
  {
    var t := lh[i..];
    forall j, k | 0 <= j < k < |t| ensures Differ(t[j], t[k]) { assert Differ(lh[j + i], lh[k + i]); }
  }

  lemma {:induction false} DistinctSize(lh: seq<int>)
    requires Distinct(lh)
    ensures |Listed(lh)| == |lh|
  {
    if lh == [] {
      assert Listed(lh) == {};
    } else {
      TailDistinct(lh, 1);
      DistinctSize(lh[1..]);
      if lh[0] in lh[1..] { DifferAt(lh, 0, 1 + IndexOf(lh[1..], lh[0])); }
      assert Listed(lh) == {lh[0]} + Listed(lh[1..]);
    }
  }

  /** So the buffers in use are the logged blocks still pinned, and those held that are not logged. */
  lemma RefsCount(l: Region, d: Disk, m: Mem, held: multiset<int>, i: nat)
    requires MemOk(l, d, m) == true && i <= |m.lh|
    ensures |Refs(Unpin(m.pins, m.lh, i), held)| == |m.lh| - i + |Holding(held) - Listed(m.lh[i..])|
  {
    PinnedInCommit(l, d, m, i);
    TailDistinct(m.lh, i);
    DistinctSize(m.lh[i..]);
    UnionSize(Listed(m.lh[i..]), Holding(held));
  }

  lemma UnionSize(a: set<int>, c: set<int>)
    ensures |a + c| == |a| + |c - a|
  {
    assert a + c == a + (c - a) && a !! (c - a);
  }

  lemma RefsLess(pins: map<int, int>, held: multiset<int>, b: int)
    ensures Refs(pins[b := PinCount(pins, b) - 1], held) <= Refs(pins, held)
    ensures |Refs(pins[b := PinCount(pins, b) - 1], held)| <= |Refs(pins, held)|
  {
    SubsetSize(Refs(pins[b := PinCount(pins, b) - 1], held), Refs(pins, held));
  }

  lemma SubsetSize(a: set<int>, c: set<int>)
    requires a <= c
    ensures |a| <= |c|
  {
    UnionSize(a, c);
    assert a + c == c;
  }

  /** Committing this log leaves a buffer: the logged blocks and the other blocks that are held do not
      take all of them. */
  predicate Enough(lh: seq<int>, held: multiset<int>) {
    lh == [] || |lh| + |Holding(held) - Listed(lh)| < NBUF
  }

  lemma CommitReady(l: Region, d: Disk, m: Mem, held: multiset<int>)
    requires MemOk(l, d, m) == true
    ensures Pinned(m.pins) == Listed(m.lh) && (forall i | 0 <= i < |m.lh| ::
                                                 m.lh[i] in m.cache && PinCount(m.pins, m.lh[i]) == 1)
    ensures m.lh != [] ==> (Enough(m.lh, held) <==> |Refs(m.pins, held)| < NBUF)
  {
    PinnedInCommit(l, d, m, 0);
    RefsCount(l, d, m, held, 0);
    assert m.lh[0..] == m.lh;
  }

  /** The disk after the last write of a commit, and the log in memory after it. */
  lemma CommitDone(l: Region, d: Disk, e: Disk, m: Mem)
    requires ValidHead(l, d) && Head(l, d) == [] && MemOk(l, d, m) == true
    requires e == CommitImage(l, d, m.lh, Data(m.lh, m.cache), 2 * |m.lh| + 2)
    ensures ValidHead(l, e) && Head(l, e) == [] && SameHome(l, e, Overlay(d, m.lh, Data(m.lh, m.cache))) == true
    ensures MemOk(l, e, Emptied(m)) == true
  {
    CommitAtomic(l, d, m.lh, Data(m.lh, m.cache), 2 * |m.lh| + 2);
    CommittedMem(l, d, e, m);
  }

  lemma NothingToCommit(l: Region, d: Disk, m: Mem)
    requires Formatted(l, d) && MemOk(l, d, m) && m.lh == []
    ensures m == Emptied(m) && CommitImages(l, d, m.lh, Data(m.lh, m.cache)) == []
    ensures SameHome(l, d, Overlay(d, m.lh, Data(m.lh, m.cache))) == true
  {
  }

  /** The next block to be installed still has its pin, so its buffer is found. */
  lemma HomeBuffer(pins: map<int, int>, held: multiset<int>, lh: seq<int>, i: nat)
    requires Distinct(lh) && i < |lh| && PinCount(pins, lh[i]) == 1
    ensures lh[i] in Refs(Unpin(pins, lh, i), held)
  {
    UnpinAt(pins, lh, i, lh[i]);
    PartsDiffer(lh, i, lh[i]);
    assert lh[i] == lh[i..][0];
  }
}
