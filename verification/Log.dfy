/** kernel/log.c: the log object and the loops that move blocks between the cache, the log
    and their home locations.  Each bwrite appends the disk it leaves to `history`, so a
    statement about every element of `history` is one about a crash after every write.
    A result `ok == false` stands for a panic. */
module Log {
  import opened LogSpec

  class Log {
    const region: Region
    const block: array<int>
    var n: int
    var disk: Disk
    var cache: map<int, Block>
    var pins: map<int, int>
    /** The buffers that processes hold at the moment, readers among them, once for each. */
    var held: multiset<int>
    var outstanding: int
    var committing: bool
    ghost var history: seq<Disk>

    ghost predicate Shape()
      reads this
    {
      && block.Length == LOGSIZE && 0 <= n <= LOGSIZE
      && Formatted(region, disk) && HeldOk(region, |disk|, held)
    }

    /** The log can be written: its blocks are cached, and they are what is pinned. */
    ghost predicate Ready()
      reads this, block
    {
      && Shape() && Loggable(region, |disk|, block[..n]) && Pinned(pins) == Listed(block[..n])
      && forall i | 0 <= i < n :: block[i] in cache
    }

    /** A buffer is not in use, so bget finds one. */
    ghost predicate Room()
      reads this
    {
      |Refs(pins, held)| < NBUF
    }

    ghost function State(): Mem
      reads this, block
      requires Shape()
    {
      Mem(block[..n], cache, pins, outstanding, committing)
    }

    ghost predicate Valid()
      reads this, block
    {
      && Shape()
      && ValidHead(region, disk) && Head(region, disk) == []
      && MemOk(region, disk, State())
    }

    /** Start-up, before recovery: nothing is cached and the header on disk is still to be read. */
    constructor (region: Region, disk: Disk)
      requires ValidHead(region, disk)
      ensures Shape() && this.region == region && this.disk == disk && fresh(block)
      ensures State() == Mem([], map[], map[], 0, false) && history == [] && held == multiset{}
    {
      this.region := region;
      this.disk := disk;
      block := new int[LOGSIZE];
      n := 0;
      cache, pins, held := map[], map[], multiset{};
      outstanding, committing := 0, false;
      history := [];
    }

    method Bwrite(b: int, data: Block)
      requires 0 <= b < |disk|
      modifies this`disk, this`history
      ensures disk == old(disk)[b := data]
      ensures history == old(history) + [disk]
    {
      disk := disk[b := data];
      history := history + [disk];
    }

    /** bget of a block: fails, which is its panic, exactly when every buffer is in use for other
        blocks; BufferCache.Bget is the search itself. */
    method Bget(b: int) returns (ok: bool)
      ensures ok <==> !NoBuffer(Refs(pins, held), b)
    {
      var refs := Refs(pins, held);
      ok := b in refs || |refs| < NBUF;
    }

    /** A process reads a home block and keeps its buffer for a while. */
    method Hold(b: int) returns (ok: bool)
      requires Shape() && IsHome(region, |disk|, b)
      modifies this`held
      ensures Shape() && ok == !NoBuffer(old(Refs(pins, held)), b)
      ensures held == if ok then old(held) + multiset{b} else old(held)
    {
      ok := Bget(b);
      if ok {
        held := held + multiset{b};
      }
    }

    method Unhold(b: int)
      requires Shape() && b in held
      modifies this`held
      ensures Shape() && held == old(held) - multiset{b}
    {
      held := held - multiset{b};
    }

    function Bread(b: int): (data: Block)
      reads this
      requires 0 <= b < |disk|
    {
      if b in cache then cache[b] else disk[b]
    }

    /** One pass of the loop of begin_op; a caller that is not admitted sleeps and tries again. */
    method TryBeginOp() returns (admitted: bool)
      requires Valid()
      modifies this`outstanding
      ensures Valid()
      ensures admitted <==> CanBegin(old(State()))
      ensures State() == if admitted then BeginOp(old(State())) else old(State())
    {
      if committing {
        admitted := false;
      } else if n + (outstanding + 1) * MAXOPBLOCKS > LOGSIZE {
        admitted := false;
      } else {
        outstanding := outstanding + 1;
        admitted := true;
      }
    }

    /** The absorption scan of log_write. */
    method Find(b: int) returns (i: int)
      requires Shape()
      ensures 0 <= i <= n
      ensures b !in block[..i]
      ensures i < n ==> block[i] == b
    {
      i := 0;
      while i < n
        invariant 0 <= i <= n
        invariant b !in block[..i]
      {
        if block[i] == b {
          break;
        }
        i := i + 1;
      }
    }

    method Write(b: int, data: Block) returns (ok: bool)
      requires Shape() && MemOk(region, disk, State()) && IsHome(region, |disk|, b)
      modifies this`n, this`cache, this`pins, block
      ensures Shape() && MemOk(region, disk, State())
      ensures ok <==> !LogWritePanics(region, old(State()))
      ensures State() == if ok then LogWrite(old(State()), b, data) else old(State())
    {
      if n >= LOGSIZE || n >= region.size - 1 {
        return false;
      }
      if outstanding < 1 {
        return false;
      }
      ghost var m := State();
      var i := Find(b);
      assert i < n ==> m.lh[i] == b;
      block[i] := b;
      cache := cache[b := data];
      if i == n {
        pins := pins[b := PinCount(pins, b) + 1];
        n := n + 1;
      }
      assert block[..n] == if i == |m.lh| then m.lh + [b] else m.lh;
      assert State() == LogWrite(m, b, data);
      LogWriteKeepsMem(region, disk, m, b, data);
      ok := true;
    }

    method WriteHead()
      requires Shape() && Room()
      modifies this`disk, this`history
      ensures disk == AfterHead(region, old(disk), block[..n])
      ensures history == old(history) + [disk]
    {
      var got := Bget(region.start);
      assert got;
      var hb := disk[region.start];
      hb := hb[0 := n];
      var i := 0;
      while i < n
        invariant 0 <= i <= n
        invariant hb == [n] + block[..i] + disk[region.start][1 + i..]
      {
        hb := hb[1 + i := block[i]];
        assert block[..i + 1] == block[..i] + [block[i]];
        i := i + 1;
      }
      Bwrite(region.start, hb);
    }

    method ReadHead()
      requires Shape() && ValidHead(region, disk)
      modifies this`n, block
      ensures Shape() && block[..n] == Head(region, disk)
    {
      var lh := disk[region.start];
      n := lh[0];
      var i := 0;
      while i < n
        invariant 0 <= i <= n == lh[0]
        invariant block[..i] == lh[1..1 + i]
        modifies block
      {
        block[i] := lh[1 + i];
        i := i + 1;
      }
    }

    method WriteLog() returns (ok: bool)
      requires Ready()
      modifies this`disk, this`history
      ensures Shape()
      ensures ok <==> n == 0 || Room()
      ensures ok ==> disk == AfterWriteLog(region, old(disk), Data(block[..n], cache), n)
      ensures ok ==> history == old(history) + WriteLogImages(region, old(disk), Data(block[..n], cache), n)
      ensures !ok ==> disk == old(disk) && history == old(history)
    {
      ghost var lh, d0 := block[..n], disk;
      ghost var data := Data(lh, cache);
      var tail := 0;
      while tail < n
        invariant 0 <= tail <= n && (tail > 0 ==> Room()) && |disk| == |d0|
        invariant disk == AfterWriteLog(region, d0, data, tail)
        invariant history == old(history) + WriteLogImages(region, d0, data, tail)
      {
        NotHome(region.start + tail + 1);
        ok := Bget(region.start + tail + 1);
        if !ok {
          return;
        }
        assert IsHome(region, |d0|, lh[tail]);
        var from := Bread(block[tail]);
        Bwrite(region.start + tail + 1, from);
        tail := tail + 1;
      }
      WriteLogAt(region, d0, data, n);
      ok := true;
    }

    /** A block of the log is not in a buffer that is in use. */
    lemma NotHome(b: int)
      requires Shape() && Loggable(region, |disk|, block[..n]) && Pinned(pins) == Listed(block[..n])
               && region.Contains(b)
      ensures b !in Refs(pins, held)
    {
    }

    /** Copies the logged blocks home; the pinned buffers of a commit already hold the same
        data, and are unpinned. */
    method InstallTrans(recovering: bool)
      requires Shape() && Loggable(region, |disk|, block[..n]) && Room()
      requires if recovering then |Refs(pins, held)| + 1 < NBUF else forall i | 0 <= i < n ::
                 PinCount(pins, block[i]) == 1
      modifies this`disk, this`history, this`pins
      ensures Shape()
      ensures disk == AfterInstall(region, old(disk), block[..n], n)
      ensures history == old(history) + InstallImages(region, old(disk), block[..n], n)
      ensures pins == (if recovering then old(pins) else Unpin(old(pins), block[..n], n)) && Room()
    {
      ghost var lh, d0 := block[..n], disk;
      var tail := 0;
      while tail < n
        invariant 0 <= tail <= n
        invariant disk == AfterInstall(region, d0, lh, tail)
        invariant history == old(history) + InstallImages(region, d0, lh, tail)
        invariant pins == (if recovering then old(pins) else Unpin(old(pins), lh, tail)) && Room()
      {
        InstallStep(region, d0, lh, tail);
        var got := Bget(region.start + tail + 1);
        assert got;
        // The home block's buffer is pinned in a commit; a recovery has a second one free.
        if !recovering {
          HomeBuffer(old(pins), held, lh, tail);
        }
        assert !NoBuffer(Refs(pins, held) + {region.start + tail + 1}, block[tail]);
        var lbuf := disk[region.start + tail + 1];
        Bwrite(block[tail], lbuf);
        if !recovering {
          RefsLess(pins, held, block[tail]);
          pins := pins[block[tail] := PinCount(pins, block[tail]) - 1];
        }
        tail := tail + 1;
      }
      InstallAt(region, d0, lh, n);
    }

    /** commit() runs out of buffers exactly when the logged blocks and the other blocks that processes
        hold take all of them; otherwise its writes are the images of CommitImage and it leaves an
        empty log. */
    method Commit() returns (ok: bool)
      requires Valid()
      modifies this`disk, this`history, this`pins, this`n
      ensures Shape() && (ok <==> Enough(old(block[..n]), held) == true)
      ensures ok ==> Valid() && State() == Emptied(old(State()))
      ensures ok ==>
                history == old(history) + CommitImages(region, old(disk), old(block[..n]), Data(old(block[..n]), cache))
      ensures ok ==> SameHome(region, disk, Overlay(old(disk), old(block[..n]), Data(old(block[..n]), cache))) == true
      ensures !ok ==> disk == old(disk) && history == old(history)
    {
      if n > 0 {
        ok := CommitSome();
      } else {
        ok := true;
        NothingToCommit(region, disk, State());
      }
    }

    method CommitSome() returns (ok: bool)
      requires Valid() == true && n > 0
      modifies this`disk, this`history, this`pins, this`n
      ensures Shape() && (ok <==> Enough(old(block[..n]), held) == true)
      ensures ok ==> Valid() == true && State() == Emptied(old(State()))
      ensures ok ==>
                history == old(history) + CommitImages(region, old(disk), old(block[..n]), Data(old(block[..n]), cache))
      ensures ok ==> SameHome(region, disk, Overlay(old(disk), old(block[..n]), Data(old(block[..n]), cache))) == true
      ensures !ok ==> disk == old(disk) && history == old(history)
    {
      ghost var m := State();
      CommitReady(region, disk, m, held);
      ok := CommitWrites();
      if ok {
        assert State() == Emptied(m);
        CommitDone(region, old(disk), disk, m);
      }
    }

    /** The first half of commit(), up to the commit point. */
    method LogTransaction() returns (ok: bool)
      requires Ready() && n > 0
      modifies this`disk, this`history
      ensures Shape() && (ok <==> Room())
      ensures !ok ==> disk == old(disk) && history == old(history)
      ensures ok ==> disk == Committed(region, old(disk), block[..n], Data(block[..n], cache))
      ensures ok ==> history == old(history) + (WriteLogImages(region, old(disk), Data(block[..n], cache), n) + [disk])
    {
      ok := WriteLog();
      if ok {
        WriteHead();
      }
    }

    /** The body of commit() for a non-empty log. */
    method CommitWrites() returns (ok: bool)
      requires Ready() && n > 0 && forall i | 0 <= i < n :: PinCount(pins, block[i]) == 1
      modifies this`disk, this`history, this`pins, this`n
      ensures ok <==> old(Room())
      ensures !ok ==> unchanged(this)
      ensures ok ==> Shape() && n == 0 && pins == Unpin(old(pins), old(block[..n]), old(n))
      ensures ok ==>
                history == old(history) + CommitImages(region, old(disk), old(block[..n]), Data(old(block[..n]), cache))
      ensures ok ==>
                disk == CommitImage(region, old(disk), old(block[..n]), Data(old(block[..n]), cache), 2 * old(n) + 2)
    {
      ok := LogTransaction();
      if ok {
        InstallAndClear();
      }
    }

    /** The empty header on disk. */
    method ClearHead()
      requires Shape() && Room()
      modifies this`disk, this`history, this`n
      ensures Shape() && n == 0
      ensures disk == AfterHead(region, old(disk), [])
      ensures history == old(history) + [disk]
    {
      n := 0;
      assert block[..n] == [];
      WriteHead();
    }

    /** The second half of commit(). */
    method InstallAndClear()
      requires Shape() && Loggable(region, |disk|, block[..n]) && Room()
      requires forall i | 0 <= i < n :: PinCount(pins, block[i]) == 1
      modifies this`disk, this`history, this`pins, this`n
      ensures Shape() && n == 0
      ensures pins == Unpin(old(pins), old(block[..n]), old(n))
      ensures disk == AfterHead(region, AfterInstall(region, old(disk), old(block[..n]), old(n)), [])
      ensures history == old(history) + (InstallImages(region, old(disk), old(block[..n]), old(n)) + [disk])
    {
      ghost var past, lh, d := history, block[..n], disk;
      InstallTrans(false);
      ghost var e := disk;
      ClearHead();
      assert disk == AfterHead(region, e, []);
      Associative(past, InstallImages(region, d, lh, |lh|), [disk]);
    }

    method EndOp() returns (ok: bool)
      requires Valid() && outstanding >= 1
      modifies this`disk, this`history, this`pins, this`n, this`outstanding, this`committing
      ensures ok <==> !old(committing) && (old(outstanding) == 1 ==> Enough(old(block[..n]), held) == true)
      ensures ok && old(outstanding) > 1 ==>
        Valid() && State() == LogSpec.EndOp(old(State())) && disk == old(disk) && history == old(history)
      ensures ok && old(outstanding) == 1 ==>
        && Valid() && State() == Emptied(LogSpec.EndOp(old(State()))).(committing := false)
        && history == old(history) + CommitImages(region, old(disk), old(block[..n]), Data(old(block[..n]), cache))
        && SameHome(region, disk, Overlay(old(disk), old(block[..n]), Data(old(block[..n]), cache))) == true
    {
      outstanding := outstanding - 1;
      if committing {
        return false;
      }
      if outstanding == 0 {
        ok := CommitGroup();
      } else {
        ok := true;
      }
    }

    /** The last operation of a group commits, with no new ones admitted. */
    method CommitGroup() returns (ok: bool)
      requires Valid() && !committing
      modifies this`disk, this`history, this`pins, this`n, this`committing
      ensures Shape() && (ok <==> Enough(old(block[..n]), held) == true)
      ensures ok ==> Valid() == true && State() == Emptied(old(State()))
      ensures ok ==>
                history == old(history) + CommitImages(region, old(disk), old(block[..n]), Data(old(block[..n]), cache))
      ensures ok ==> SameHome(region, disk, Overlay(old(disk), old(block[..n]), Data(old(block[..n]), cache))) == true
    {
      committing := true;
      ok := Commit();
      committing := false;
    }

    /** Every write of a recovery leaves a disk that recovers to the same contents; at the end
        they are in place and the log is empty. */
    method RecoverFromLog()
      requires Shape() && ValidHead(region, disk) && State() == Mem([], map[], map[], 0, false) && held == multiset{}
      modifies this`disk, this`history, this`n, this`pins, block
      ensures Valid() && State() == old(State())
      ensures SameHome(region, disk, Recovered(region, old(disk)))
      ensures history == old(history) + RecoverImages(region, old(disk))
    {
      ghost var d0 := disk;
      assert Refs(pins, held) == {};
      ReadHead();
      ghost var lh := block[..n];
      InstallTrans(true);
      ClearHead();
      assert block[..n] == [];
      RecoverAtomic(region, d0, |lh| + 1);
      assert disk == RecoverImage(region, d0, |lh| + 1);
    }
  }
}
