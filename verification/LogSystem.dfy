/** Concurrent file system calls over the log: begin_op, log_write and end_op of many
    operations interleave, the last end_op commits the group write by write, and the machine
    may lose power between any two steps.  The state records every step in `trace`;
    `durable` marks how much of the trace a reboot would bring back. */
module LogSystem {
  import opened LogSpec

  datatype Event = Began(op: int) | Put(op: int, b: int, data: Block) | Finished(op: int)

  datatype Phase =
    | Running
    | Committing(writes: nat)
    | Recovering(writes: nat)
    | Panicked

  /** Processes: each runs at most one file system operation at a time. */
  const NPROC := 64

  /** base is the disk on which the current commit or recovery started; used counts the new
      blocks that the operation of each process has added to the log, or is -1; held are the blocks
      whose buffers readers hold, once for each reader. */
  datatype State = State(
    l: Region, initial: Disk, disk: Disk, base: Disk, mem: Mem, phase: Phase,
    used: seq<int>, trace: seq<Event>, durable: nat, held: multiset<int>)

  datatype Action =
    | Begin(op: int)
    | Write(op: int, b: int, data: Block)
    | End(op: int)
    | CommitWrite
    | CommitDone
    | Hold(b: int)
    | Unhold(b: int)
    | Crash
    | RecoverWrite
    | RecoverDone

  const NO_MEM := Mem([], map[], map[], 0, false)
  function NoOps(): seq<int> {
    seq(NPROC, _ => -1)
  }

  ghost function Active(used: seq<int>): set<int> {
    set op | 0 <= op < |used| && Runs(used, op)
  }

  predicate Runs(used: seq<int>, op: int) {
    0 <= op < |used| && used[op] >= 0
  }

  /** An operation promises to add at most MAXOPBLOCKS blocks to the log. */
  ghost predicate Enabled(s: State, a: Action)
    requires Inv(s)
  {
    assert Look(0);
    match a
    case Begin(op) => s.phase.Running? && CanBegin(s.mem) && 0 <= op < |s.used| && !Runs(s.used, op)
    case Write(op, b, data) =>
      && s.phase.Running? && Runs(s.used, op) && IsHome(s.l, |s.disk|, b)
      && (b in s.mem.lh || s.used[op] < MAXOPBLOCKS)
    case End(op) => s.phase.Running? && Runs(s.used, op)
    case CommitWrite => s.phase.Committing? && s.mem.lh != [] && s.phase.writes < 2 * |s.mem.lh| + 2
    case CommitDone => s.phase.Committing? && (s.mem.lh == [] || s.phase.writes == 2 * |s.mem.lh| + 2)
    case Hold(b) => (s.phase.Running? || s.phase.Committing?) && IsHome(s.l, |s.disk|, b)
    case Unhold(b) => b in s.held && !s.phase.Panicked?
    case Crash => true
    case RecoverWrite => s.phase.Recovering? && s.phase.writes <= |Head(s.l, s.base)|
    case RecoverDone => s.phase.Recovering? && s.phase.writes == |Head(s.l, s.base)| + 1
  }

  /** How many blocks the running commit has installed, and so unpinned. */
  ghost function Installed(s: State): nat {
    if s.phase.Committing? && s.phase.writes > |s.mem.lh| + 1 then
      if s.phase.writes > 2 * |s.mem.lh| + 1 then |s.mem.lh| else s.phase.writes - |s.mem.lh| - 1
    else 0
  }

  /** The blocks whose buffers are in use. */
  ghost function InUse(s: State): set<int> {
    Refs(Unpin(s.mem.pins, s.mem.lh, Installed(s)), s.held)
  }

  predicate LookAtBuffers(k: int) { true }

  /** bget of block b panics; the definition is there for proofs that ask for it. */
  ghost predicate Crowded(s: State, b: int) {
    exists k {:trigger LookAtBuffers(k)} :: LookAtBuffers(k) && NoBuffer(InUse(s), b)
  }

  lemma GetCrowded(s: State, b: int)
    ensures Crowded(s, b) <==> NoBuffer(InUse(s), b)
  {
    assert LookAtBuffers(0);
  }

  /** The block of the log that the next write of the commit reads: write_log and install_trans a log
      block, write_head the header. */
  ghost function NextRead(s: State): int
    requires s.phase.Committing?
  {
    var n, k := |s.mem.lh|, s.phase.writes;
    if k < n then s.l.start + 1 + k
    else if n < k <= 2 * n then s.l.start + k - n
    else s.l.start
  }

  ghost function Do(s: State, a: Action): State
    requires Inv(s) && Enabled(s, a)
  {
    assert Look(0);
    match a
    case Begin(op) =>
      s.(mem := BeginOp(s.mem), used := s.used[op := 0], trace := s.trace + [Began(op)])
    case Write(op, b, data) =>
      // The operation reads the block into a buffer before it changes and logs it.
      if Crowded(s, b) || LogWritePanics(s.l, s.mem) then s.(phase := Panicked)
      else s.(mem := LogWrite(s.mem, b, data),
              used := if b in s.mem.lh then s.used else s.used[op := s.used[op] + 1],
              trace := s.trace + [Put(op, b, data)])
    case End(op) =>
      var t := s.(mem := EndOp(s.mem), used := s.used[op := -1], trace := s.trace + [Finished(op)]);
      if s.mem.outstanding == 1 then t.(phase := Committing(0), base := s.disk) else t
    case CommitWrite =>
      if Crowded(s, NextRead(s)) then s.(phase := Panicked)
      else
        var k := s.phase.writes + 1;
        s.(disk := CommitImage(s.l, s.base, s.mem.lh, Data(s.mem.lh, s.mem.cache), k),
           phase := Committing(k),
           durable := if k == |s.mem.lh| + 1 then |s.trace| else s.durable)
    case CommitDone =>
      s.(mem := Emptied(s.mem).(committing := false), phase := Running, durable := |s.trace|)
    case Hold(b) =>
      if Crowded(s, b) then s.(phase := Panicked) else s.(held := s.held + multiset{b})
    case Unhold(b) => s.(held := s.held - multiset{b})
    case Crash =>
      s.(mem := NO_MEM, phase := Recovering(0), base := s.disk, used := NoOps(),
         trace := s.trace[..s.durable], held := multiset{})
    case RecoverWrite =>
      s.(disk := RecoverImage(s.l, s.base, s.phase.writes + 1), phase := Recovering(s.phase.writes + 1))
    case RecoverDone =>
      s.(phase := Running)
  }

  ghost function ReplayOne(d: Disk, e: Event): Disk {
    match e
    case Put(_, b, data) => if 0 <= b < |d| then d[b := data] else d
    case _ => d
  }

  /** The disk as the writes of a trace leave it. */
  ghost function Replay(d: Disk, trace: seq<Event>): (e: Disk)
    ensures |e| == |d|
  {
    if trace == [] then d
    else ReplayOne(Replay(d, trace[..|trace| - 1]), trace[|trace| - 1])
  }

  ghost function OpenOne(open: set<int>, e: Event): set<int> {
    match e
    case Began(op) => open + {op}
    case Finished(op) => open - {op}
    case Put(_, _, _) => open
  }

  /** The operations of a trace that have begun and not ended. */
  ghost function Open(trace: seq<Event>): set<int> {
    if trace == [] then {}
    else OpenOne(Open(trace[..|trace| - 1]), trace[|trace| - 1])
  }

  /** What an operation that has used u blocks may still add. */
  function Budget(u: int): int {
    if u < 0 then 0 else MAXOPBLOCKS - u
  }

  /** What all running operations together may still add. */
  function Reserve(used: seq<int>): int {
    if used == [] then 0 else Budget(used[0]) + Reserve(used[1..])
  }

  function Count(used: seq<int>): int {
    if used == [] then 0 else (if used[0] >= 0 then 1 else 0) + Count(used[1..])
  }

  lemma {:induction false} UpdateOne(used: seq<int>, op: int, v: int)
    requires 0 <= op < |used|
    ensures Reserve(used[op := v]) == Reserve(used) - Budget(used[op]) + Budget(v)
    ensures Count(used[op := v]) == Count(used) - (if used[op] >= 0 then 1 else 0) + (if v >= 0 then 1 else 0)
  {
    if op == 0 {
      assert used[op := v][1..] == used[1..];
    } else {
      UpdateOne(used[1..], op - 1, v);
      assert used[op := v][1..] == used[1..][op - 1 := v];
    }
  }

  lemma {:induction false} ReserveBounds(used: seq<int>)
    requires forall i | 0 <= i < |used| :: used[i] <= MAXOPBLOCKS
    ensures 0 <= Reserve(used) <= Count(used) * MAXOPBLOCKS
    ensures forall i | 0 <= i < |used| :: Budget(used[i]) <= Reserve(used)
    ensures Count(used) == 0 ==> forall i | 0 <= i < |used| :: used[i] < 0
    ensures Count(used) >= 0
  {
    if used != [] {
      ReserveBounds(used[1..]);
      assert forall i | 1 <= i < |used| :: used[i] == used[1..][i - 1];
    }
  }

  // What every step keeps.

  /** Reserved space: the log can take everything the running operations may still add. */
  ghost predicate Reserved(mem: Mem, used: seq<int>) {
    && |used| == NPROC && mem.outstanding == Count(used)
    && (forall i | 0 <= i < |used| :: -1 <= used[i] <= MAXOPBLOCKS)
    && |mem.lh| + Reserve(used) <= LOGSIZE
  }

  /** A reboot now would bring back the writes of a prefix of the trace in which every
      operation that began has ended. */
  ghost predicate CrashSafe(s: State) {
    Safe(s.l, s.initial, s.disk, s.trace, s.durable)
  }

  ghost predicate Safe(l: Region, initial: Disk, disk: Disk, trace: seq<Event>, durable: nat) {
    && durable <= |trace|
    && ValidHead(l, disk)
    && SameHome(l, Recovered(l, disk), Replay(initial, trace[..durable]))
    && Open(trace[..durable]) == {}
  }

  /** Readers see every write so far: base plus the logged blocks is the whole trace. */
  ghost predicate Live(l: Region, initial: Disk, mem: Mem, used: seq<int>, trace: seq<Event>, base: Disk) {
    && ValidHead(l, base) && Head(l, base) == []
    && MemOk(l, base, mem)
    && SameHome(l, Overlay(base, mem.lh, Data(mem.lh, mem.cache)), Replay(initial, trace))
    && Open(trace) == Active(used)
    && Reserved(mem, used)
  }

  /** k writes of the commit are done. */
  ghost predicate InCommit(l: Region, initial: Disk, mem: Mem, used: seq<int>, trace: seq<Event>, durable: nat,
                           base: Disk, disk: Disk, k: nat) {
    && durable <= |trace| && Live(l, initial, mem, used, trace, base) && used == NoOps() && mem.committing
    && k <= 2 * |mem.lh| + 2 && (mem.lh == [] ==> k == 0)
    && disk == CommitImage(l, base, mem.lh, Data(mem.lh, mem.cache), k)
    && (k > |mem.lh| ==> durable == |trace|)
    && (k <= |mem.lh| ==> SameHome(l, base, Replay(initial, trace[..durable])))
  }

  lemma InCommitNext(l: Region, initial: Disk, mem: Mem, used: seq<int>, trace: seq<Event>, durable: nat,
                     base: Disk, disk: Disk, k: nat)
    requires InCommit(l, initial, mem, used, trace, durable, base, disk, k) == true && mem.lh != []
             && k + 1 <= 2 * |mem.lh| + 2
    ensures InCommit(l, initial, mem, used, trace, if k == |mem.lh| then |trace| else durable, base,
                     CommitImage(l, base, mem.lh, Data(mem.lh, mem.cache), k + 1), k + 1) == true
  {
  }

  ghost predicate PhaseOk(s: State)
    requires s.durable <= |s.trace|
  {
    match s.phase
    case Running => Live(s.l, s.initial, s.mem, s.used, s.trace, s.disk) && !s.mem.committing
    case Committing(k) => InCommit(s.l, s.initial, s.mem, s.used, s.trace, s.durable, s.base, s.disk, k)
    case Recovering(k) =>
      && ValidHead(s.l, s.base) && k <= |Head(s.l, s.base)| + 1
      && s.mem == NO_MEM && s.used == NoOps() && s.durable == |s.trace|
      && s.disk == RecoverImage(s.l, s.base, k)
      && SameHome(s.l, Recovered(s.l, s.base), Replay(s.initial, s.trace))
    case Panicked => true
  }

  ghost predicate Core(s: State) {
    && |s.disk| == |s.initial|
    && CrashSafe(s)
    && PhaseOk(s)
  }

  /** The buffers in use are no more than there are, and readers hold home blocks. */
  ghost predicate RoomyNow(s: State) {
    HeldOk(s.l, |s.disk|, s.held) && (!s.phase.Panicked? ==> |InUse(s)| <= NBUF)
  }

  predicate Look(k: int) { true }

  /** The invariant; the definition is there for proofs that ask for it. */
  ghost predicate Inv(s: State) {
    forall k {:trigger Look(k)} | Look(k) :: Core(s) && RoomyNow(s)
  }

  lemma GetInv(s: State)
    requires Inv(s)
    ensures Core(s)
  {
    assert Look(0);
  }

  lemma GetRoom(s: State)
    requires Inv(s)
    ensures RoomyNow(s)
  {
    assert Look(0);
  }

  /** A formatted disk before its first boot: an empty log, nothing in memory. */
  ghost predicate Init(s: State) {
    && ValidHead(s.l, s.initial) && Head(s.l, s.initial) == []
    && s.disk == s.base == s.initial
    && s.mem == NO_MEM && s.phase == Running && s.used == NoOps() && s.trace == [] && s.durable == 0
    && s.held == multiset{}
  }

  lemma InitCore(s: State)
    requires Init(s)
    ensures Core(s) == true
  {
    NoneRunning(NoOps());
  }

  lemma InitInv(s: State)
    requires Init(s)
    ensures Inv(s)
  {
    InitCore(s);
    assert InUse(s) == {};
    assert RoomyNow(s);
  }

  lemma {:induction false} NoneRunning(used: seq<int>)
    requires forall i | 0 <= i < |used| :: used[i] == -1
    ensures Count(used) == 0 && Reserve(used) == 0
  {
    if used != [] {
      NoneRunning(used[1..]);
    }
  }

  lemma Extend(d: Disk, trace: seq<Event>, e: Event)
    ensures (trace + [e])[..|trace|] == trace
    ensures Replay(d, trace + [e]) == ReplayOne(Replay(d, trace), e)
    ensures Open(trace + [e]) == OpenOne(Open(trace), e)
  {
    assert (trace + [e])[..|trace|] == trace;
  }

  lemma PrefixKept(trace: seq<Event>, e: Event, n: nat)
    requires n <= |trace|
    ensures (trace + [e])[..n] == trace[..n]
  {
  }

  /** The overlay gives each logged block its cached contents. */
  lemma OverlayAt(d: Disk, lh: seq<int>, cache: map<int, Block>, b: int)
    requires forall i | 0 <= i < |lh| :: lh[i] in cache
    requires 0 <= b < |d|
    ensures Overlay(d, lh, Data(lh, cache))[b] == if b in lh then cache[b] else d[b]
  {
  }

  /** A step that only extends the trace leaves what a reboot would bring back. */
  lemma CrashSafeKept(s: State, t: State, e: Event)
    requires CrashSafe(s) == true
    requires t.trace == s.trace + [e] && t.durable == s.durable
    requires t.l == s.l && t.disk == s.disk && t.initial == s.initial
    ensures CrashSafe(t) == true
  {
    PrefixKept(s.trace, e, s.durable);
  }

  lemma BeginReserved(s: State, t: State, op: int)
    requires Reserved(s.mem, s.used) == true && CanBegin(s.mem) && 0 <= op < |s.used| && s.used[op] < 0
    requires t.mem == BeginOp(s.mem) && t.used == s.used[op := 0]
    ensures Reserved(t.mem, t.used) == true
  {
    UpdateOne(s.used, op, 0);
    ReserveBounds(s.used);
  }

  lemma BeginKeeps(s: State, op: int)
    requires Inv(s) == true && Enabled(s, Begin(op))
    ensures Core(Do(s, Begin(op))) == true
  {
    GetInv(s);
    var t := Do(s, Begin(op));
    Extend(s.initial, s.trace, Began(op));
    CrashSafeKept(s, t, Began(op));
    BeginReserved(s, t, op);
  }

  /** An operation that still has budget finds room in the log. */
  lemma AppendFits(s: State, op: int)
    requires Inv(s) == true && s.phase.Running? && Runs(s.used, op) && s.used[op] < MAXOPBLOCKS
    ensures |s.mem.lh| < LOGSIZE && !LogWritePanics(s.l, s.mem)
  {
    GetInv(s);
    ReserveBounds(s.used);
    RunsCounted(s.used, op);
  }

  lemma {:induction false} RunsCounted(used: seq<int>, op: int)
    requires Runs(used, op)
    ensures Count(used) >= 1
  {
    if op > 0 {
      RunsCounted(used[1..], op - 1);
    } else {
      CountNonNegative(used[1..]);
    }
  }

  lemma {:induction false} CountNonNegative(used: seq<int>)
    ensures Count(used) >= 0
  {
    if used != [] {
      CountNonNegative(used[1..]);
    }
  }

  lemma WriteKeeps(s: State, op: int, b: int, data: Block)
    requires Inv(s) == true && Enabled(s, Write(op, b, data))
    ensures Core(Do(s, Write(op, b, data))) == true
  {
    GetInv(s);
    var t := Do(s, Write(op, b, data));
    if !Crowded(s, b) && !LogWritePanics(s.l, s.mem) {
      CrashSafeKept(s, t, Put(op, b, data));
      WriteLive(s, op, b, data);
    }
  }

  lemma WriteLive(s: State, op: int, b: int, data: Block)
    requires Inv(s) == true && Enabled(s, Write(op, b, data)) && !Crowded(s, b) && !LogWritePanics(s.l, s.mem)
    ensures var t := Do(s, Write(op, b, data)); Live(t.l, t.initial, t.mem, t.used, t.trace, t.disk) == true
  {
    GetInv(s);
    var t := Do(s, Write(op, b, data));
    Extend(s.initial, s.trace, Put(op, b, data));
    LogWriteKeepsMem(s.l, s.disk, s.mem, b, data);
    WriteSeen(s, t, b, data);
    WriteReserved(s, t, op, b, data);
  }

  lemma WriteReserved(s: State, t: State, op: int, b: int, data: Block)
    requires Reserved(s.mem, s.used) && Runs(s.used, op) && (b in s.mem.lh || s.used[op] < MAXOPBLOCKS)
    requires t.mem == LogWrite(s.mem, b, data)
    requires t.used == if b in s.mem.lh then s.used else s.used[op := s.used[op] + 1]
    ensures Reserved(t.mem, t.used) == true && Active(t.used) == Active(s.used)
  {
    UpdateOne(s.used, op, s.used[op] + 1);
  }

  lemma WriteSeen(s: State, t: State, b: int, data: Block)
    requires MemOk(s.l, s.disk, s.mem) == true && MemOk(s.l, s.disk, t.mem) == true && t.mem == LogWrite(s.mem, b, data)
    requires IsHome(s.l, |s.disk|, b) && |s.disk| == |s.initial|
    requires SameHome(s.l, Overlay(s.disk, s.mem.lh, Data(s.mem.lh, s.mem.cache)), Replay(s.initial, s.trace)) == true
    ensures SameHome(s.l, Overlay(s.disk, t.mem.lh, Data(t.mem.lh, t.mem.cache)),
                     Replay(s.initial, s.trace)[b := data]) == true
  {
    forall x | IsHome(s.l, |s.disk|, x)
      ensures Overlay(s.disk, t.mem.lh, Data(t.mem.lh, t.mem.cache))[x] == Replay(s.initial, s.trace)[b := data][x]
    {
      OverlayAt(s.disk, s.mem.lh, s.mem.cache, x);
      OverlayAt(s.disk, t.mem.lh, t.mem.cache, x);
    }
  }

  lemma EndReserved(mem: Mem, used: seq<int>, op: int)
    requires Reserved(mem, used) && Runs(used, op)
    ensures Reserved(EndOp(mem), used[op := -1]) == true
    ensures mem.outstanding == 1 ==> used[op := -1] == NoOps()
  {
    UpdateOne(used, op, -1);
    if mem.outstanding == 1 { ReserveBounds(used[op := -1]); }
  }

  lemma EndLive(l: Region, initial: Disk, mem: Mem, used: seq<int>, trace: seq<Event>, base: Disk, op: int)
    requires Live(l, initial, mem, used, trace, base) && Runs(used, op)
    ensures Live(l, initial, EndOp(mem), used[op := -1], trace + [Finished(op)], base) == true
  {
    Extend(initial, trace, Finished(op));
    EndReserved(mem, used, op);
  }

  lemma EndKeeps(s: State, op: int)
    requires Inv(s) == true && Enabled(s, End(op))
    ensures Core(Do(s, End(op))) == true
  {
    GetInv(s);
    var t := Do(s, End(op));
    CrashSafeKept(s, t, Finished(op));
    EndLive(s.l, s.initial, s.mem, s.used, s.trace, s.disk, op);
    EndReserved(s.mem, s.used, op);
    PrefixKept(s.trace, Finished(op), s.durable);
    LiveDisk(s);
  }

  /** What is durable while operations run is what the disk holds. */
  lemma LiveDisk(s: State)
    requires Core(s) && s.phase.Running?
    ensures SameHome(s.l, s.disk, Replay(s.initial, s.trace[..s.durable])) == true
  {
    assert ValidHead(s.l, s.disk) && Head(s.l, s.disk) == [];
  }

  lemma GetCommit(s: State)
    requires Inv(s) == true && s.phase.Committing?
    ensures |s.disk| == |s.initial|
    ensures InCommit(s.l, s.initial, s.mem, s.used, s.trace, s.durable, s.base, s.disk, s.phase.writes) == true
  {
    GetInv(s);
  }

  lemma MakeCommit(t: State)
    requires t.phase.Committing? && |t.disk| == |t.initial| && CrashSafe(t) == true
    requires InCommit(t.l, t.initial, t.mem, t.used, t.trace, t.durable, t.base, t.disk, t.phase.writes) == true
    ensures Core(t) == true
  {
  }

  lemma MakeRunning(t: State)
    requires t.phase.Running? && |t.disk| == |t.initial| && CrashSafe(t) == true && !t.mem.committing
    requires Live(t.l, t.initial, t.mem, t.used, t.trace, t.disk) == true
    ensures Core(t) == true
  {
  }

  lemma CommitWriteKeeps(s: State)
    requires Inv(s) == true && Enabled(s, CommitWrite)
    ensures Core(Do(s, CommitWrite)) == true
  {
    if Crowded(s, NextRead(s)) {
      GetInv(s);
    } else {
      GetCommit(s);
      CommitWriteSafe(s);
      InCommitNext(s.l, s.initial, s.mem, s.used, s.trace, s.durable, s.base, s.disk, s.phase.writes);
      MakeCommit(Do(s, CommitWrite));
    }
  }

  lemma HomeTransitive(l: Region, a: Disk, b: Disk, c: Disk)
    requires SameHome(l, a, b) == true && SameHome(l, b, c) == true
    ensures SameHome(l, a, c)
  {
  }

  lemma CommitSafeAt(l: Region, base: Disk, lh: seq<int>, data: seq<Block>, k: nat, before: Disk, after: Disk)
    requires ValidHead(l, base) == true && Head(l, base) == [] && Loggable(l, |base|, lh) == true
    requires |data| == |lh| && k <= 2 * |lh| + 2
    requires k <= |lh| ==> SameHome(l, base, before)
    requires SameHome(l, Overlay(base, lh, data), after) == true
    ensures var e := CommitImage(l, base, lh, data, k);
            ValidHead(l, e) && SameHome(l, Recovered(l, e), if k <= |lh| then before else after)
  {
    CommitAtomic(l, base, lh, data, k);
  }

  /** The disk after the k-th write of commit: safe with the old durable events up to the header
      write, and with all events from then on. */
  lemma CommitNext(s: State, k: nat)
    requires Core(s) && s.phase.Committing? && k == s.phase.writes + 1 <= 2 * |s.mem.lh| + 2
    ensures var e := CommitImage(s.l, s.base, s.mem.lh, Data(s.mem.lh, s.mem.cache), k);
      |e| == |s.disk| && Safe(s.l, s.initial, e, s.trace, if k <= |s.mem.lh| then s.durable else |s.trace|) == true
  {
    CommitSafeAt(s.l, s.base, s.mem.lh, Data(s.mem.lh, s.mem.cache), k,
                 Replay(s.initial, s.trace[..s.durable]), Replay(s.initial, s.trace));
    assert s.trace[..|s.trace|] == s.trace;
  }

  lemma CommitWriteSafe(s: State)
    requires Inv(s) == true && Enabled(s, CommitWrite) && !Crowded(s, NextRead(s))
    ensures CrashSafe(Do(s, CommitWrite)) == true && |Do(s, CommitWrite).disk| == |s.disk|
  {
    GetInv(s);
    CommitNext(s, s.phase.writes + 1);
  }

  /** The disk when the commit is done. */
  lemma CommitEnds(s: State)
    requires Inv(s) == true && Enabled(s, CommitDone)
    ensures ValidHead(s.l, s.disk) == true && Head(s.l, s.disk) == []
    ensures MemOk(s.l, s.base, s.mem) == true
            && SameHome(s.l, s.disk, Overlay(s.base, s.mem.lh, Data(s.mem.lh, s.mem.cache))) == true
    ensures SameHome(s.l, s.disk, Replay(s.initial, s.trace)) == true
  {
    GetInv(s);
    CommitAtomic(s.l, s.base, s.mem.lh, Data(s.mem.lh, s.mem.cache), s.phase.writes);
  }

  lemma CommitDoneLive(s: State)
    requires Inv(s) == true && Enabled(s, CommitDone)
    ensures var t := Do(s, CommitDone); Live(t.l, t.initial, t.mem, t.used, t.trace, t.disk) == true
  {
    GetInv(s);
    CommitEnds(s);
    CommittedMem(s.l, s.base, s.disk, s.mem);
  }

  lemma CommitDoneSafe(s: State)
    requires Inv(s) == true && Enabled(s, CommitDone)
    ensures var t := Do(s, CommitDone); CrashSafe(t) == true && |t.disk| == |t.initial|
  {
    GetInv(s);
    CommitEnds(s);
    assert s.trace[..|s.trace|] == s.trace;
  }

  lemma CommitDoneKeeps(s: State)
    requires Inv(s) == true && Enabled(s, CommitDone)
    ensures Core(Do(s, CommitDone)) == true
  {
    CommitDoneLive(s);
    CommitDoneSafe(s);
    MakeRunning(Do(s, CommitDone));
  }

  lemma CrashKeeps(s: State)
    requires Inv(s) == true
    ensures Core(Do(s, Crash)) == true
  {
    GetInv(s);
    assert s.trace[..s.durable][..s.durable] == s.trace[..s.durable];
  }

  lemma RecoverWriteKeeps(s: State)
    requires Inv(s) == true && Enabled(s, RecoverWrite)
    ensures Core(Do(s, RecoverWrite)) == true
  {
    GetInv(s);
    RecoverAtomic(s.l, s.base, s.phase.writes + 1);
    assert s.trace[..|s.trace|] == s.trace;
    HomeTransitive(s.l, Recovered(s.l, RecoverImage(s.l, s.base, s.phase.writes + 1)), Recovered(s.l, s.base),
                   Replay(s.initial, s.trace));
  }

  /** The disk when recovery is done. */
  lemma RecoverEnds(s: State)
    requires Inv(s) == true && Enabled(s, RecoverDone)
    ensures ValidHead(s.l, s.disk) == true && Head(s.l, s.disk) == []
    ensures SameHome(s.l, s.disk, Replay(s.initial, s.trace)) == true
  {
    GetInv(s);
    RecoverAtomic(s.l, s.base, s.phase.writes);
  }

  lemma RecoverDoneSafe(s: State)
    requires Inv(s) == true && Enabled(s, RecoverDone)
    ensures var t := Do(s, RecoverDone); CrashSafe(t) == true && |t.disk| == |t.initial|
  {
    GetInv(s);
    RecoverEnds(s);
    assert s.trace[..|s.trace|] == s.trace;
  }

  lemma RecoverDoneLive(s: State)
    requires Inv(s) == true && Enabled(s, RecoverDone)
    ensures var t := Do(s, RecoverDone);
            Live(t.l, t.initial, t.mem, t.used, t.trace, t.disk) == true && !t.mem.committing
  {
    GetInv(s);
    RecoverEnds(s);
    assert s.trace[..|s.trace|] == s.trace;
    NoneRunning(NoOps());
  }

  lemma RecoverDoneKeeps(s: State)
    requires Inv(s) == true && Enabled(s, RecoverDone)
    ensures Core(Do(s, RecoverDone)) == true
  {
    RecoverDoneSafe(s);
    RecoverDoneLive(s);
    MakeRunning(Do(s, RecoverDone));
  }

  lemma CoreKeeps(s: State, a: Action)
    requires Inv(s) == true && Enabled(s, a)
    ensures Core(Do(s, a)) == true
  {
    GetInv(s);
    match a
    case Begin(op) => BeginKeeps(s, op);
    case Write(op, b, data) => WriteKeeps(s, op, b, data);
    case End(op) => EndKeeps(s, op);
    case CommitWrite => CommitWriteKeeps(s);
    case CommitDone => CommitDoneKeeps(s);
    case Hold(b) => HoldKeeps(s, a);
    case Unhold(b) => HoldKeeps(s, a);
    case Crash => CrashKeeps(s);
    case RecoverWrite => RecoverWriteKeeps(s);
    case RecoverDone => RecoverDoneKeeps(s);
  }

  /** Readers change nothing but the buffers in use. */
  lemma HoldKeeps(s: State, a: Action)
    requires Inv(s) == true && Enabled(s, a) && (a.Hold? || a.Unhold?)
    ensures Core(Do(s, a)) == true
  {
    GetInv(s);
  }

  // Buffers.

  lemma PutRefs(l: Region, d: Disk, m: Mem, held: multiset<int>, b: int, data: Block)
    requires MemOk(l, d, m)
    ensures Refs(LogWrite(m, b, data).pins, held) == Refs(m.pins, held) + {b}
  {
    assert PinCount(m.pins, b) == if b in m.lh then 1 else 0;
  }

  lemma WriteRoomy(s: State, op: int, b: int, data: Block)
    requires Inv(s) == true && Enabled(s, Write(op, b, data)) && RoomyNow(s)
    ensures RoomyNow(Do(s, Write(op, b, data))) == true
  {
    GetInv(s);
    var t := Do(s, Write(op, b, data));
    GetCrowded(s, b);
    if !t.phase.Panicked? {
      RunningMem(s);
      PutRefs(s.l, s.disk, s.mem, s.held, b, data);
    }
  }

  lemma RunningMem(s: State)
    requires Inv(s) == true && s.phase.Running?
    ensures MemOk(s.l, s.disk, s.mem) == true
  {
    GetInv(s);
  }

  lemma HoldingPlus(held: multiset<int>, b: int)
    ensures Holding(held + multiset{b}) == Holding(held) + {b} && Holding(held - multiset{b}) <= Holding(held)
  {
  }

  /** One more holder of a block that has a buffer, or one fewer. */
  lemma HoldRoom(l: Region, size: nat, pins: map<int, int>, held: multiset<int>, b: int)
    requires HeldOk(l, size, held) && |Refs(pins, held)| <= NBUF
    ensures IsHome(l, size, b) && !NoBuffer(Refs(pins, held), b) ==>
              HeldOk(l, size, held + multiset{b}) && |Refs(pins, held + multiset{b})| <= NBUF
    ensures HeldOk(l, size, held - multiset{b}) && |Refs(pins, held - multiset{b})| <= NBUF
  {
    HoldingPlus(held, b);
    assert Refs(pins, held + multiset{b}) == Refs(pins, held) + {b};
    SubsetSize(Refs(pins, held - multiset{b}), Refs(pins, held));
  }

  lemma HoldRoomy(s: State, b: int)
    requires Inv(s) == true && Enabled(s, Hold(b)) && RoomyNow(s)
    ensures RoomyNow(Do(s, Hold(b))) == true
  {
    GetInv(s);
    GetCrowded(s, b);
    HoldRoom(s.l, |s.disk|, Unpin(s.mem.pins, s.mem.lh, Installed(s)), s.held, b);
  }

  lemma UnholdRoomy(s: State, b: int)
    requires Inv(s) == true && Enabled(s, Unhold(b)) && RoomyNow(s)
    ensures RoomyNow(Do(s, Unhold(b))) == true
  {
    GetInv(s);
    GetCrowded(s, b);
    HoldRoom(s.l, |s.disk|, Unpin(s.mem.pins, s.mem.lh, Installed(s)), s.held, b);
  }

  /** The log in memory during a commit, and the disk that it fits. */
  lemma CommitMem(s: State)
    requires Inv(s) == true && s.phase.Committing?
    ensures |s.base| == |s.disk| && MemOk(s.l, s.base, s.mem) == true && Installed(s) <= |s.mem.lh|
  {
    GetInv(s);
  }

  /** Installing more blocks takes no more buffers. */
  lemma InstallShrinks(l: Region, d: Disk, m: Mem, held: multiset<int>, i: nat, j: nat)
    requires MemOk(l, d, m) == true && i <= j <= |m.lh|
    ensures |Refs(Unpin(m.pins, m.lh, j), held)| <= |Refs(Unpin(m.pins, m.lh, i), held)|
  {
    PinnedInCommit(l, d, m, i);
    PinnedInCommit(l, d, m, j);
    assert m.lh[j..] == m.lh[i..][j - i..];
    SubsetSize(Refs(Unpin(m.pins, m.lh, j), held), Refs(Unpin(m.pins, m.lh, i), held));
  }

  lemma CommitRoomy(s: State)
    requires Inv(s) == true && Enabled(s, CommitWrite) && RoomyNow(s)
    ensures RoomyNow(Do(s, CommitWrite)) == true
  {
    CommitMem(s);
    if !Crowded(s, NextRead(s)) {
      CommitWriteSafe(s);
      InstallShrinks(s.l, s.base, s.mem, s.held, Installed(s), Installed(Do(s, CommitWrite)));
    }
  }

  lemma DoneRoomy(s: State)
    requires Inv(s) == true && Enabled(s, CommitDone) && RoomyNow(s)
    ensures RoomyNow(Do(s, CommitDone)) == true
  {
    GetInv(s);
    var t := Do(s, CommitDone);
    CommitMem(s);
    PinnedInCommit(s.l, s.base, s.mem, Installed(s));
    PinnedInCommit(s.l, s.base, s.mem, |s.mem.lh|);
    assert Unpin(t.mem.pins, [], 0) == t.mem.pins;
    SubsetSize(InUse(t), InUse(s));
  }

  lemma RoomKeeps(s: State, a: Action)
    requires Inv(s) == true && Enabled(s, a) && RoomyNow(s) == true
    ensures RoomyNow(Do(s, a)) == true
  {
    GetInv(s);
    match a
    case Write(op, b, data) => WriteRoomy(s, op, b, data);
    case CommitWrite => CommitRoomy(s);
    case CommitDone => DoneRoomy(s);
    case Hold(b) => HoldRoomy(s, b);
    case Unhold(b) => UnholdRoomy(s, b);
    case _ => OtherRoomy(s, a);
  }

  lemma StepKeeps(s: State, a: Action)
    requires Inv(s) == true && Enabled(s, a)
    ensures Inv(Do(s, a)) == true
  {
    CoreKeeps(s, a);
    GetRoom(s);
    RoomKeeps(s, a);
  }

  lemma OtherRoomy(s: State, a: Action)
    requires Inv(s) == true && Enabled(s, a) && (a.Begin? || a.End? || a.Crash? || a.RecoverWrite? || a.RecoverDone?)
             && RoomyNow(s)
    ensures RoomyNow(Do(s, a)) == true
  {
    GetInv(s);
    CoreKeeps(s, a);
    if a.Crash? { assert InUse(Do(s, a)) == {}; }
  }

  // Whole runs.

  /** The actions can be taken from s one after the other. */
  ghost predicate Possible(s: State, run: seq<Action>)
    requires Inv(s)
    decreases |run|, 0
  {
    run == [] ||
    (Possible(s, run[..|run| - 1]) && Enabled(Exec(s, run[..|run| - 1]), run[|run| - 1]))
  }

  ghost function Exec(s: State, run: seq<Action>): (t: State)
    requires Inv(s) && Possible(s, run)
    ensures Inv(t)
    decreases |run|, 1
  {
    if run == [] then s
    else
      var p := Exec(s, run[..|run| - 1]);
      StepKeeps(p, run[|run| - 1]);
      Do(p, run[|run| - 1])
  }

  /** Every run: at any moment a reboot would bring back exactly the writes of a prefix of what
      happened, and no operation of that prefix is half finished. */
  lemma EveryRunCrashSafe(s: State, run: seq<Action>)
    requires Init(s)
    ensures Inv(s) && (Possible(s, run) ==> CrashSafe(Exec(s, run)))
  {
    InitInv(s);
    if Possible(s, run) { GetInv(Exec(s, run)); }
  }

  /** The first d events are still there, and still durable. */
  predicate Keeps(trace: seq<Event>, d: int, trace': seq<Event>, d': int) {
    0 <= d <= |trace| && d <= d' <= |trace'| && trace'[..d] == trace[..d]
  }

  lemma KeepsTwice(a: seq<Event>, d: int, b: seq<Event>, d': int, c: seq<Event>, d'': int)
    requires Keeps(a, d, b, d') && Keeps(b, d', c, d'')
    ensures Keeps(a, d, c, d'') == true
  {
    assert c[..d'][..d] == c[..d] && b[..d'][..d] == b[..d];
  }

  /** No step, a crash included, loses or changes what is durable. */
  lemma DurableKept(s: State, a: Action)
    requires Inv(s) == true && Enabled(s, a)
    ensures Keeps(s.trace, s.durable, Do(s, a).trace, Do(s, a).durable) == true
  {
    GetInv(s);
    StepKeeps(s, a);
  }

  lemma {:induction false} DurableForever(s: State, run: seq<Action>)
    requires Inv(s) == true && Possible(s, run)
    ensures Keeps(s.trace, s.durable, Exec(s, run).trace, Exec(s, run).durable) == true
    decreases |run|
  {
    GetInv(s);
    if run != [] {
      var q := run[..|run| - 1];
      DurableForever(s, q);
      var p := Exec(s, q);
      DurableKept(p, run[|run| - 1]);
      var t := Do(p, run[|run| - 1]);
      KeepsTwice(s.trace, s.durable, p.trace, p.durable, t.trace, t.durable);
    }
  }

  /** While operations run, a reader gets the latest write of every block. */
  lemma ReadsLatest(s: State, b: int, data: Block)
    requires Core(s) && s.phase.Running? && IsHome(s.l, |s.disk|, b)
    ensures Reads(s.disk, s.mem, b, data) <==> data == Replay(s.initial, s.trace)[b]
  {
    OverlayAt(s.disk, s.mem.lh, s.mem.cache, b);
  }

  /** The last end_op of a group makes everything before it durable, once its commit is done. */
  lemma CommitMakesDurable(s: State)
    requires Inv(s) == true && Enabled(s, CommitDone)
    ensures var t := Do(s, CommitDone);
            && t.trace == s.trace && t.durable == |t.trace|
            && SameHome(t.l, t.disk, Replay(t.initial, t.trace))
  {
    GetInv(s);
    CommitDoneKeeps(s);
    assert s.trace[..|s.trace|] == s.trace;
  }

  // When log_write panics.

  /** A write panics exactly when the log is full or no buffer is left for its block.  A full log cannot
      happen to an operation with budget left; it does happen to one that only rewrites a block that
      is logged already, and then the block has its buffer. */
  lemma WritePanicsExactly(s: State, op: int, b: int, data: Block)
    requires Inv(s) == true && Enabled(s, Write(op, b, data))
    ensures Do(s, Write(op, b, data)).phase.Panicked? <==>
              |s.mem.lh| == LOGSIZE || (b !in s.mem.lh && b !in s.held && Crowd(s, 0) == NBUF)
    ensures |s.mem.lh| == LOGSIZE ==> b in s.mem.lh && s.used[op] == MAXOPBLOCKS
  {
    GetInv(s);
    if s.used[op] < MAXOPBLOCKS {
      AppendFits(s, op);
    }
    RunsCounted(s.used, op);
    GetRoom(s);
    GetCrowded(s, b);
    CrowdIs(s.l, s.disk, s.mem, s.held, b);
    assert s.mem.lh[0..] == s.mem.lh;
  }

  lemma CrowdIs(l: Region, d: Disk, m: Mem, held: multiset<int>, b: int)
    requires MemOk(l, d, m) == true
    ensures |Refs(m.pins, held)| == |m.lh| + |Holding(held) - Listed(m.lh)|
    ensures b in Refs(m.pins, held) <==> b in m.lh || b in held
  {
    RefsCount(l, d, m, held, 0);
    PinnedInCommit(l, d, m, 0);
    assert m.lh[0..] == m.lh;
  }

  /** How many buffers are in use when i of the logged blocks have been installed: those still pinned,
      and those that readers hold of other blocks. */
  ghost function Crowd(s: State, i: nat): int
    requires i <= |s.mem.lh|
  {
    |s.mem.lh| - i + |Holding(s.held) - Listed(s.mem.lh[i..])|
  }

  /** Each read of commit panics exactly when the logged blocks that are still pinned and the other
      blocks that readers hold take all buffers. */
  lemma CommitPanicsExactly(s: State)
    requires Inv(s) == true && Enabled(s, CommitWrite)
    ensures Installed(s) <= |s.mem.lh|
    ensures Do(s, CommitWrite).phase.Panicked? <==> Crowd(s, Installed(s)) == NBUF
  {
    GetInv(s);
    CommitMem(s);
    GetRoom(s);
    GetCrowded(s, NextRead(s));
    RefsCount(s.l, s.base, s.mem, s.held, Installed(s));
    PinnedInCommit(s.l, s.base, s.mem, Installed(s));
    assert s.l.Contains(NextRead(s));
    LogBlocksUnused(s, NextRead(s));
  }

  lemma LogBlocksUnused(s: State, b: int)
    requires Inv(s) == true && s.phase.Committing? && s.l.Contains(b)
    ensures b !in InUse(s)
  {
    GetInv(s);
    CommitMem(s);
    GetRoom(s);
    PinnedInCommit(s.l, s.base, s.mem, Installed(s));
    TailIsHome(s.l, |s.base|, s.mem.lh, Installed(s), b);
  }

  lemma TailIsHome(l: Region, size: nat, lh: seq<int>, i: nat, b: int)
    requires Loggable(l, size, lh) && i <= |lh|
    ensures b in lh[i..] ==> IsHome(l, size, b)
  {
  }

  // The two panics do happen: three operations that log ten blocks each fill the log.

  const SMALL := Region(2, 31)

  function SmallDisk(): Disk {
    seq(100, i => seq(WORDS, j => 0))
  }

  ghost function Boot(): State {
    State(SMALL, SmallDisk(), SmallDisk(), SmallDisk(), NO_MEM, Running, NoOps(), [], 0, multiset{})
  }

  /** Begin three operations, then log blocks 40, 41, ... ten for each of them. */
  ghost function FillRun(k: nat): seq<Action>
    requires k <= 33
  {
    if k == 0 then []
    else FillRun(k - 1) + [FillAction(k)]
  }

  ghost predicate Filled(t: State, k: nat) {
    && t.l == SMALL && |t.disk| == 100 && t.phase.Running? && t.held == multiset{}
    && t.mem.lh == seq(if k <= 3 then 0 else k - 3, i => 40 + i)
    && t.mem.outstanding == (if k <= 3 then k else 3)
    && |t.used| == NPROC
    && (forall op | 0 <= op < 3 :: t.used[op] == if k <= op then -1 else Used(k, op))
    && (forall op | 3 <= op < NPROC :: t.used[op] == -1)
  }

  function Used(k: nat, op: nat): int {
    if k <= 3 + 10 * op then 0 else if k >= 13 + 10 * op then 10 else k - 3 - 10 * op
  }

  lemma BootInit()
    ensures Init(Boot())
  {
    var d := SmallDisk();
    assert d[2][1..1] == [];
  }

  ghost function FillAction(k: nat): Action
    requires 1 <= k <= 33
  {
    if k <= 3 then Begin(k - 1) else Write((k - 4) / 10, 36 + k, [])
  }

  lemma {:induction false} FillRuns(k: nat)
    requires k <= 33
    ensures Inv(Boot()) == true && Possible(Boot(), FillRun(k)) && Filled(Exec(Boot(), FillRun(k)), k) == true
  {
    BootInit();
    InitInv(Boot());
    if k > 0 {
      FillRuns(k - 1);
      FillStep(Exec(Boot(), FillRun(k - 1)), k);
      Snoc(Boot(), FillRun(k - 1), FillAction(k));
    }
  }

  lemma FillStep(p: State, k: nat)
    requires 1 <= k <= 33 && Inv(p) == true && Filled(p, k - 1) == true
    ensures Enabled(p, FillAction(k)) && Filled(Do(p, FillAction(k)), k) == true
  {
    if k <= 3 { FillBegin(p, k); } else { FillWrite(p, k); }
  }

  lemma FillBegin(p: State, k: nat)
    requires 1 <= k <= 3 && Inv(p) == true && Filled(p, k - 1)
    ensures Enabled(p, Begin(k - 1)) && Filled(Do(p, Begin(k - 1)), k) == true
  {
    GetInv(p);
  }

  /** The fields that a write changes. */
  lemma FillWrite(p: State, k: nat)
    requires 4 <= k <= 33 && Inv(p) == true && Filled(p, k - 1)
    ensures Enabled(p, Write((k - 4) / 10, 36 + k, [])) && Filled(Do(p, Write((k - 4) / 10, 36 + k, [])), k) == true
  {
    var op := (k - 4) / 10;
    assert 36 + k !in p.mem.lh;
    assert p.used[op] == Used(k - 1, op);
    assert IsHome(p.l, |p.disk|, 36 + k);
    AppendFits(p, op);
    FillRoom(p, 36 + k);
    WriteOne(p, op, 36 + k, []);
  }

  lemma WriteOne(p: State, op: int, b: int, data: Block)
    requires Inv(p) == true && Enabled(p, Write(op, b, data)) && !Crowded(p, b) && !LogWritePanics(p.l, p.mem)
             && b !in p.mem.lh
    ensures var t := Do(p, Write(op, b, data));
            && t.l == p.l && |t.disk| == |p.disk| && t.phase == p.phase && t.held == p.held
               && t.mem.lh == p.mem.lh + [b]
            && t.mem.outstanding == p.mem.outstanding && t.used == p.used[op := p.used[op] + 1]
  {
  }

  /** With fewer blocks logged than there are buffers, and no readers, there is a buffer. */
  lemma FillRoom(p: State, b: int)
    requires Inv(p) == true && p.phase.Running? && p.held == multiset{} && |p.mem.lh| < NBUF
    ensures !Crowded(p, b)
  {
    GetInv(p);
    RunningMem(p);
    GetCrowded(p, b);
    RefsCount(p.l, p.disk, p.mem, p.held, 0);
    assert Holding(p.held) - Listed(p.mem.lh[0..]) == {};
  }

  /** A run of operations that keep their promise ends with log_write panicking on a block
      that is already in the log. */
  lemma RewritePanics()
    ensures Inv(Boot()) == true
    ensures var rewrite := FillRun(33) + [Write(0, 40, [])];
            Possible(Boot(), rewrite) && Exec(Boot(), rewrite).phase.Panicked?
  {
    FillRuns(33);
    var full := Exec(Boot(), FillRun(33));
    assert full.mem.lh[0] == 40;
    assert IsHome(full.l, |full.disk|, 40);
    Snoc(Boot(), FillRun(33), Write(0, 40, []));
  }

  /** Three operations are running. */
  ghost predicate Three(t: State) {
    t.phase.Running? && t.mem.outstanding == 3 && |t.used| == NPROC && forall op | 0 <= op < 3 :: t.used[op] >= 0
  }

  lemma EndOne(p: State, op: int)
    requires Inv(p) == true && p.phase.Running? && Runs(p.used, op)
    ensures var t := Do(p, End(op));
            && t.mem.lh == p.mem.lh && t.held == p.held && t.used == p.used[op := -1]
               && t.mem.outstanding == p.mem.outstanding - 1
            && t.phase == if p.mem.outstanding == 1 then Committing(0) else Running
  {
    GetInv(p);
  }

  lemma EndRun(run: seq<Action>, op: int)
    requires Inv(Boot()) == true && Possible(Boot(), run) && Exec(Boot(), run).phase.Running?
             && Runs(Exec(Boot(), run).used, op)
    ensures Possible(Boot(), run + [End(op)])
    ensures var p, t := Exec(Boot(), run), Exec(Boot(), run + [End(op)]);
            && t.mem.lh == p.mem.lh && t.held == p.held && t.used == p.used[op := -1]
               && t.mem.outstanding == p.mem.outstanding - 1
            && t.phase == if p.mem.outstanding == 1 then Committing(0) else Running
  {
    EndOne(Exec(Boot(), run), op);
    Snoc(Boot(), run, End(op));
  }

  function Ended(run: seq<Action>): seq<Action> {
    run + [End(0)] + [End(1)] + [End(2)]
  }

  /** They end, and the last one starts the commit of what they have logged. */
  lemma EndThree(run: seq<Action>)
    requires Inv(Boot()) == true && Possible(Boot(), run) && Three(Exec(Boot(), run)) == true
    ensures Possible(Boot(), Ended(run))
    ensures var p, t := Exec(Boot(), run), Exec(Boot(), Ended(run));
            t.phase == Committing(0) && t.mem.lh == p.mem.lh && t.held == p.held
  {
    EndRun(run, 0);
    EndRun(run + [End(0)], 1);
    EndRun(run + [End(0)] + [End(1)], 2);
  }

  /** With all buffers in use, the commit that they start panics at its first read. */
  lemma EndsInPanic(run: seq<Action>)
    requires Inv(Boot()) == true && Possible(Boot(), run) && Three(Exec(Boot(), run))
    requires Exec(Boot(), run).mem.lh != [] && Crowd(Exec(Boot(), run), 0) == NBUF
    ensures Possible(Boot(), Ended(run) + [CommitWrite])
    ensures Exec(Boot(), Ended(run) + [CommitWrite]).phase.Panicked?
  {
    EndThree(run);
    CommitPanicsExactly(Exec(Boot(), Ended(run)));
    Snoc(Boot(), Ended(run), CommitWrite);
  }

  /** And another ends with commit panicking: thirty blocks are logged. */
  lemma CommitPanics()
    ensures Inv(Boot()) == true
    ensures var commit := Ended(FillRun(33)) + [CommitWrite];
            Possible(Boot(), commit) && Exec(Boot(), commit).phase.Panicked?
  {
    FillRuns(33);
    var t := Exec(Boot(), FillRun(33));
    assert Holding(t.held) - Listed(t.mem.lh[0..]) == {};
    EndsInPanic(FillRun(33));
  }

  lemma HoldRun(run: seq<Action>, b: int)
    requires Inv(Boot()) == true && Possible(Boot(), run)
    requires var p := Exec(Boot(), run); p.phase.Running? && IsHome(p.l, |p.disk|, b) && !Crowded(p, b)
    ensures Possible(Boot(), run + [Hold(b)])
    ensures var p := Exec(Boot(), run); Exec(Boot(), run + [Hold(b)]) == p.(held := p.held + multiset{b})
  {
    Snoc(Boot(), run, Hold(b));
  }

  lemma OneMore(t: State, b: int)
    requires t.held == multiset{b} && b !in t.mem.lh
    ensures Crowd(t, 0) == |t.mem.lh| + 1
  {
    assert t.mem.lh[0..] == t.mem.lh;
    assert Holding(t.held) - Listed(t.mem.lh) == {b};
  }

  /** Twenty-nine blocks are logged and a reader holds another. */
  ghost function ReaderRun(): seq<Action> {
    FillRun(32) + [Hold(90)]
  }

  lemma FilledThree(p: State)
    requires Filled(p, 32)
    ensures Three(p) == true && |p.mem.lh| == 29 && 90 !in p.mem.lh && p.held == multiset{} && IsHome(p.l, |p.disk|, 90)
  {
  }

  lemma ReaderStart()
    ensures Inv(Boot()) == true && Possible(Boot(), FillRun(32))
    ensures var p := Exec(Boot(), FillRun(32));
            && Three(p) == true && |p.mem.lh| == 29 && 90 !in p.mem.lh && p.held == multiset{}
               && IsHome(p.l, |p.disk|, 90)
            && !Crowded(p, 90)
  {
    FillRuns(32);
    FilledThree(Exec(Boot(), FillRun(32)));
    FillRoom(Exec(Boot(), FillRun(32)), 90);
  }

  lemma ReaderHolds()
    ensures Inv(Boot()) == true && Possible(Boot(), ReaderRun())
    ensures var t := Exec(Boot(), ReaderRun()); Three(t) && |t.mem.lh| == 29 && Crowd(t, 0) == NBUF
  {
    ReaderStart();
    HoldRun(FillRun(32), 90);
    OneMore(Exec(Boot(), ReaderRun()), 90);
  }

  /** So does the commit of these. */
  lemma ReaderPanics()
    ensures Inv(Boot()) == true && Possible(Boot(), Ended(ReaderRun()) + [CommitWrite])
    ensures Exec(Boot(), Ended(ReaderRun()) + [CommitWrite]).phase.Panicked?
  {
    ReaderHolds();
    EndsInPanic(ReaderRun());
  }

  lemma Snoc(s: State, run: seq<Action>, a: Action)
    requires Inv(s) == true && Possible(s, run) && Enabled(Exec(s, run), a)
    ensures Possible(s, run + [a]) && Exec(s, run + [a]) == Do(Exec(s, run), a)
  {
    GetInv(s);
    assert (run + [a])[..|run|] == run;
  }
}
