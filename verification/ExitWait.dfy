/** fork, exit, wait, reparent and kill of kernel/proc.c as an interleaved machine with
    explicit ownership of wait_lock and of every process lock.  A process sleeps here only in
    wait, on its own slot as channel, so an iteration of wakeup(x) over a process other than x
    takes and drops a lock without effect and is left out; the order in which fork scans the
    table is left open.  Schedulers take, run and release processes in any order here; the module
    Processors says which CPU does so. */
module ExitWait {

  datatype PState = UNUSED | USED | SLEEPING | RUNNABLE | RUNNING | ZOMBIE

  /** The owner of a spinlock: a thread, or the scheduler that a thread has switched to. */
  datatype Holder = Free | Thread(p: int) | Sched

  datatype Pc =
    | NoProc | User
    // exit
    | ExitEnter | Reparent(j: int) | WakeInit(j: int) | WakeInitHold(j: int)
    | WakeParent(x: int) | WakeParentHold(x: int)
    | ExitLock | ExitMark | ExitRelease | ExitSwitch | Gone
    // wait
    | WaitEnter | WaitScan(j: int, kids: bool) | WaitHold(j: int) | WaitTest(kids: bool)
    // sleep(p, &wait_lock)
    | SleepEnter | SleepRelease | SleepMark | Asleep | Resume | Relock
    // fork
    | ForkHold(j: int) | ForkFill(j: int) | ForkParent(j: int) | ForkSet(j: int) | ForkRun(j: int) | ForkReady(j: int)
    | Fresh | FreshResume
    // yield
    | YieldEnter | YieldMark | Yielded | YieldResume
    // kill
    | KillHold(q: int)

  /** parent is -1 when there is none; maker is the process whose fork fills the slot; exits
      and reaps count how often the slot has become a zombie and been freed by a wait. */
  datatype Proc = Proc(pc: Pc, st: PState, parent: int, killed: bool, maker: int, exits: int, reaps: int)

  datatype State = State(proc: seq<Proc>, plock: seq<Holder>, wait: Holder)

  datatype Choice = Fork(j: int) | Exit | Wait | Yield | Kill(q: int) | Ok | Fail

  datatype Action = Run(p: int, choice: Choice) | Take(p: int) | Dispatch(p: int) | Drop(p: int)

  /** The first process takes the first slot and never exits. */
  const INIT := 0

  predicate Shape(s: State) {
    |s.plock| == |s.proc| && |s.proc| > 0
  }

  predicate IsProc(s: State, p: int) {
    0 <= p < |s.proc|
  }

  predicate OnCpu(pc: Pc) {
    !(pc.NoProc? || pc.Asleep? || pc.Gone? || pc.Fresh? || pc.Yielded?)
  }

  /** The process whose lock the thread of p holds, or -1. */
  function HeldP(pc: Pc, p: int): int {
    if || pc.SleepRelease? || pc.SleepMark? || pc.Resume? || pc.ExitMark? || pc.ExitRelease? || pc.ExitSwitch?
       || pc.FreshResume? || pc.YieldMark? || pc.YieldResume? then p
    else if pc.WakeInitHold? then INIT
    else if pc.WakeParentHold? then pc.x
    else if pc.WaitHold? || pc.ForkHold? || pc.ForkFill? || pc.ForkReady? then pc.j
    else if pc.KillHold? then pc.q
    else -1
  }

  predicate HoldsWait(pc: Pc) {
    || pc.Reparent? || pc.WakeInit? || pc.WakeInitHold? || pc.WakeParent? || pc.WakeParentHold?
    || pc.ExitLock? || pc.ExitMark? || pc.ExitRelease?
    || pc.WaitScan? || pc.WaitHold? || pc.WaitTest? || pc.SleepEnter? || pc.SleepRelease? || pc.ForkSet?
  }

  predicate Exiting(pc: Pc) {
    || pc.ExitEnter? || pc.Reparent? || pc.WakeInit? || pc.WakeInitHold? || pc.WakeParent? || pc.WakeParentHold?
    || pc.ExitLock? || pc.ExitMark? || pc.ExitRelease? || pc.ExitSwitch? || pc.Gone?
  }

  /** The slot that a fork is filling. */
  predicate Forking(pc: Pc) {
    pc.ForkFill? || pc.ForkParent? || pc.ForkSet? || pc.ForkRun? || pc.ForkReady?
  }

  predicate PcOk(pc: Pc, p: int, n: int) {
    && (Exiting(pc) || pc.NoProc? || pc.Fresh? ==> p != INIT)
    && (pc.Reparent? || pc.WakeInit? || pc.WakeInitHold? || pc.WaitScan? ==> 0 <= pc.j <= n)
    && (pc.WakeParent? || pc.WakeParentHold? ==> 0 <= pc.x < n && pc.x != p)
    && (pc.WaitHold? || pc.ForkHold? || Forking(pc) ==> 0 <= pc.j < n && pc.j != p)
    && (pc.KillHold? ==> 0 <= pc.q < n)
  }

  predicate StateOk(pc: Pc, st: PState) {
    && (pc.NoProc? ==> st == UNUSED)
    && (pc.Fresh? ==> st == USED || st == RUNNABLE)
    && (pc.Asleep? ==> st == SLEEPING || st == RUNNABLE)
    && (pc.Yielded? ==> st == RUNNABLE)
    && (pc.Gone? || pc.ExitRelease? || pc.ExitSwitch? ==> st == ZOMBIE)
    && (OnCpu(pc) && !pc.ExitRelease? && !pc.ExitSwitch? ==> st == RUNNING)
  }

  // The steps of a thread.

  function Set(s: State, p: int, pc: Pc): State
    requires Shape(s) && IsProc(s, p)
  {
    s.(proc := s.proc[p := s.proc[p].(pc := pc)])
  }

  function AcquireP(s: State, p: int, q: int, pc: Pc): State
    requires Shape(s) && IsProc(s, p) && IsProc(s, q)
  {
    if s.plock[q] == Free then Set(s, p, pc).(plock := s.plock[q := Thread(p)]) else s
  }

  function ReleaseP(s: State, p: int, q: int, pc: Pc): State
    requires Shape(s) && IsProc(s, p) && IsProc(s, q)
  {
    Set(s, p, pc).(plock := s.plock[q := Free])
  }

  function AcquireW(s: State, p: int, pc: Pc): State
    requires Shape(s) && IsProc(s, p)
  {
    if s.wait == Free then Set(s, p, pc).(wait := Thread(p)) else s
  }

  function ReleaseW(s: State, p: int, pc: Pc): State
    requires Shape(s) && IsProc(s, p)
  {
    Set(s, p, pc).(wait := Free)
  }

  /** sched(): the thread leaves as x and the scheduler gets the lock it holds on itself. */
  function Switch(s: State, p: int, x: Proc): State
    requires Shape(s) && IsProc(s, p)
  {
    s.(proc := s.proc[p := x], plock := s.plock[p := Sched])
  }

  /** freeproc. */
  function Freed(x: Proc): Proc {
    x.(pc := NoProc, st := UNUSED, parent := -1, killed := false)
  }

  function Put(s: State, j: int, x: Proc): State
    requires Shape(s) && IsProc(s, j)
  {
    s.(proc := s.proc[j := x])
  }

  /** wakeup's test of a process whose lock is held: here only wait sleeps. */
  function Woken(x: Proc): Proc {
    if x.st == SLEEPING then x.(st := RUNNABLE) else x
  }

  function Syscall(s: State, p: int, ch: Choice): State
    requires Shape(s) && IsProc(s, p)
  {
    match ch
    case Exit => if p == INIT then s else Set(s, p, ExitEnter)
    case Wait => Set(s, p, WaitEnter)
    case Yield => Set(s, p, YieldEnter)
    case Fork(j) => if IsProc(s, j) && j != p then AcquireP(s, p, j, ForkHold(j)) else s
    case Kill(q) => if IsProc(s, q) then AcquireP(s, p, q, KillHold(q)) else s
    case _ => s
  }

  function ExitStep(s: State, p: int): State
    requires Shape(s) && IsProc(s, p) && PcOk(s.proc[p].pc, p, |s.proc|)
  {
    var x := s.proc[p];
    match x.pc
    case ExitEnter => AcquireW(s, p, Reparent(0))
    case Reparent(j) =>
      if j == |s.proc| then
        if IsProc(s, x.parent) && x.parent != p then Set(s, p, WakeParent(x.parent)) else s
      else if s.proc[j].parent == p && j != p then
        Put(Set(s, p, WakeInit(j + 1)), j, s.proc[j].(parent := INIT))
      else Set(s, p, Reparent(j + 1))
    case WakeInit(j) => AcquireP(s, p, INIT, WakeInitHold(j))
    case WakeInitHold(j) => Put(ReleaseP(s, p, INIT, Reparent(j)), INIT, Woken(s.proc[INIT]))
    case WakeParent(y) => AcquireP(s, p, y, WakeParentHold(y))
    case WakeParentHold(y) => Put(ReleaseP(s, p, y, ExitLock), y, Woken(s.proc[y]))
    case ExitLock => AcquireP(s, p, p, ExitMark)
    case ExitMark => Put(s, p, x.(pc := ExitRelease, st := ZOMBIE, exits := x.exits + 1))
    case ExitRelease => ReleaseW(s, p, ExitSwitch)
    case ExitSwitch => Switch(s, p, x.(pc := Gone))
    case _ => s
  }

  function WaitStep(s: State, p: int, ch: Choice): State
    requires Shape(s) && IsProc(s, p) && PcOk(s.proc[p].pc, p, |s.proc|)
  {
    var x := s.proc[p];
    match x.pc
    case WaitEnter => AcquireW(s, p, WaitScan(0, false))
    case WaitScan(j, kids) =>
      if j == |s.proc| then Set(s, p, WaitTest(kids))
      else if s.proc[j].parent == p && j != p then AcquireP(s, p, j, WaitHold(j))
      else Set(s, p, WaitScan(j + 1, kids))
    case WaitHold(j) =>
      if s.proc[j].st == ZOMBIE then
        var t := ReleaseP(s, p, j, User).(wait := Free);
        // copyout of the exit status may fail; the child is then left for another wait.
        if ch.Fail? then t else Put(t, j, Freed(s.proc[j]).(reaps := s.proc[j].reaps + 1))
      else ReleaseP(s, p, j, WaitScan(j + 1, true))
    case WaitTest(kids) =>
      // killed(p) takes and drops p's own lock.
      if !kids then ReleaseW(s, p, User)
      else if s.plock[p] != Free then s
      else if x.killed then ReleaseW(s, p, User)
      else Set(s, p, SleepEnter)
    case SleepEnter => AcquireP(s, p, p, SleepRelease)
    case SleepRelease => ReleaseW(s, p, SleepMark)
    case SleepMark => Switch(s, p, x.(pc := Asleep, st := SLEEPING))
    case Resume => ReleaseP(s, p, p, Relock)
    case Relock => AcquireW(s, p, WaitScan(0, false))
    case _ => s
  }

  function ForkStep(s: State, p: int, ch: Choice): State
    requires Shape(s) && IsProc(s, p) && PcOk(s.proc[p].pc, p, |s.proc|)
  {
    match s.proc[p].pc
    case ForkHold(j) =>
      if s.proc[j].st == UNUSED then
        Put(Set(s, p, ForkFill(j)), j, s.proc[j].(pc := Fresh, st := USED, maker := p))
      else ReleaseP(s, p, j, User)
    case ForkFill(j) =>
      // out of memory frees the slot again.
      if ch.Fail? then Put(ReleaseP(s, p, j, User), j, Freed(s.proc[j]))
      else ReleaseP(s, p, j, ForkParent(j))
    case ForkParent(j) => AcquireW(s, p, ForkSet(j))
    case ForkSet(j) => Put(ReleaseW(s, p, ForkRun(j)), j, s.proc[j].(parent := p))
    case ForkRun(j) => AcquireP(s, p, j, ForkReady(j))
    case ForkReady(j) => Put(ReleaseP(s, p, j, User), j, s.proc[j].(st := RUNNABLE))
    case _ => s
  }

  /** kill, yield, and the first return of a new process from the scheduler (forkret). */
  function OtherStep(s: State, p: int): State
    requires Shape(s) && IsProc(s, p) && PcOk(s.proc[p].pc, p, |s.proc|)
  {
    match s.proc[p].pc
    case FreshResume => ReleaseP(s, p, p, User)
    case YieldEnter => AcquireP(s, p, p, YieldMark)
    case YieldMark => Switch(s, p, s.proc[p].(pc := Yielded, st := RUNNABLE))
    case YieldResume => ReleaseP(s, p, p, User)
    case KillHold(q) =>
      var t := ReleaseP(s, p, q, User);
      Put(t, q, Woken(t.proc[q]).(killed := true))
    case _ => s
  }

  function ThreadStep(s: State, p: int, ch: Choice): State
    requires Shape(s) && IsProc(s, p) && PcOk(s.proc[p].pc, p, |s.proc|)
  {
    var pc := s.proc[p].pc;
    if pc.User? then Syscall(s, p, ch)
    else if Exiting(pc) then ExitStep(s, p)
    else if Waiting(pc) then WaitStep(s, p, ch)
    else if InFork(pc) then ForkStep(s, p, ch)
    else OtherStep(s, p)
  }

  predicate IsOther(pc: Pc) {
    pc.FreshResume? || pc.YieldEnter? || pc.YieldMark? || pc.YieldResume? || pc.KillHold?
  }

  predicate InFork(pc: Pc) {
    pc.ForkHold? || Forking(pc)
  }

  predicate Waiting(pc: Pc) {
    || pc.WaitEnter? || pc.WaitScan? || pc.WaitHold? || pc.WaitTest?
    || pc.SleepEnter? || pc.SleepRelease? || pc.SleepMark? || pc.Asleep? || pc.Resume? || pc.Relock?
  }

  /** A scheduler takes the lock of a process. */
  function TakeStep(s: State, p: int): State
    requires Shape(s) && IsProc(s, p)
  {
    if s.plock[p] == Free then s.(plock := s.plock[p := Sched]) else s
  }

  /** What a process does when it is switched to. */
  function Resumed(x: Proc): Proc {
    x.(st := RUNNING, pc := if x.pc.Asleep? then Resume else if x.pc.Yielded? then YieldResume else FreshResume)
  }

  /** It switches to the process, if that is runnable, with the lock held. */
  function DispatchStep(s: State, p: int): State
    requires Shape(s) && IsProc(s, p)
  {
    if s.plock[p] == Sched && s.proc[p].st == RUNNABLE then
      s.(proc := s.proc[p := Resumed(s.proc[p])], plock := s.plock[p := Thread(p)])
    else s
  }

  /** Back in the scheduler: it releases the lock of the process that switched away. */
  function DropStep(s: State, p: int): State
    requires Shape(s) && IsProc(s, p)
  {
    if s.plock[p] == Sched then s.(plock := s.plock[p := Free]) else s
  }

  // What every step keeps, process by process.

  predicate ForkOk(s: State, p: int)
    requires Shape(s) && IsProc(s, p)
  {
    var pc := s.proc[p].pc;
    Forking(pc) ==>
      && IsProc(s, pc.j) && s.proc[pc.j].pc.Fresh? && s.proc[pc.j].st == USED && s.proc[pc.j].maker == p
      && s.proc[pc.j].parent == (if pc.ForkRun? || pc.ForkReady? then p else -1)
  }

  /** Locks recorded as held are held; the process state goes with the program counter; a fork
      owns the slot it fills; an exiting process wakes its actual parent. */
  predicate ProcOk(s: State, p: int)
    requires Shape(s) && IsProc(s, p)
  {
    var x := s.proc[p];
    && PcOk(x.pc, p, |s.proc|)
    && StateOk(x.pc, x.st)
    && (HeldP(x.pc, p) != -1 ==> s.plock[HeldP(x.pc, p)] == Thread(p))
    && (HoldsWait(x.pc) ==> s.wait == Thread(p))
    && ForkOk(s, p)
    && (x.pc.WakeParent? || x.pc.WakeParentHold? ==> x.pc.x == x.parent)
  }

  /** Every process but the first has a parent from the moment it can run. */
  predicate FamilyOk(x: Proc, p: int, n: int) {
    && -1 <= x.parent < n && x.parent != p
    && (p == INIT || x.pc.NoProc? ==> x.parent == -1)
    && (p != INIT && x.parent == -1 ==> x.pc.NoProc? || (x.pc.Fresh? && x.st == USED))
    && (if x.st == ZOMBIE then x.exits == x.reaps + 1 else x.exits == x.reaps)
  }

  /** How far the children of a process have been handed over: none of a lower number is left. */
  function Disowned(pc: Pc, n: int): int {
    if pc.Reparent? || pc.WakeInit? || pc.WakeInitHold? then pc.j
    else if
      || pc.WakeParent? || pc.WakeParentHold? || pc.ExitLock? || pc.ExitMark? || pc.ExitRelease? || pc.ExitSwitch?
      || pc.Gone? || pc.NoProc? || pc.Fresh? then n
    else 0
  }

  predicate Childless(s: State, q: int, z: int)
    requires IsProc(s, q) && IsProc(s, z)
  {
    z < Disowned(s.proc[q].pc, |s.proc|) ==> s.proc[z].parent != q
  }

  /** Asleep in wait, or past the point of no return on the way there. */
  predicate Dormant(x: Proc) {
    x.pc.SleepMark? || (x.pc.Asleep? && x.st == SLEEPING)
  }

  predicate ZombieChild(s: State, w: int, z: int)
    requires IsProc(s, z)
  {
    s.proc[z].parent == w && s.proc[z].st == ZOMBIE
  }

  /** A sleeping parent of a zombie can only be the first process, about to be woken. */
  predicate NotStranded(s: State, w: int, z: int)
    requires IsProc(s, w) && IsProc(s, z)
  {
    Dormant(s.proc[w]) && ZombieChild(s, w, z) ==>
      && w == INIT && s.wait.Thread? && IsProc(s, s.wait.p)
      && (s.proc[s.wait.p].pc.WakeInit? || s.proc[s.wait.p].pc.WakeInitHold?)
  }

  /** What a scan in wait has passed holds no zombie child; nor does the whole table once it ends. */
  predicate Scanned(s: State, w: int, z: int)
    requires IsProc(s, w) && IsProc(s, z)
  {
    var pc := s.proc[w].pc;
    ((pc.WaitScan? || pc.WaitHold?) && z < pc.j) || pc.WaitTest? || pc.SleepEnter? || pc.SleepRelease? ==>
      !ZombieChild(s, w, z)
  }

  /** A process about to become a zombie has a parent that is awake. */
  predicate ParentAwake(s: State, p: int)
    requires IsProc(s, p)
  {
    s.proc[p].pc.ExitLock? || s.proc[p].pc.ExitMark? ==>
      IsProc(s, s.proc[p].parent) ==> !Dormant(s.proc[s.proc[p].parent])
  }

  ghost predicate Inv(s: State) {
    && Shape(s)
    && (forall p | 0 <= p < |s.proc| :: ProcOk(s, p))
    && (forall p | 0 <= p < |s.proc| :: FamilyOk(s.proc[p], p, |s.proc|))
    && (forall p | 0 <= p < |s.proc| :: ParentAwake(s, p))
    && (forall q, z | 0 <= q < |s.proc| && 0 <= z < |s.proc| :: Childless(s, q, z))
    && (forall w, z | 0 <= w < |s.proc| && 0 <= z < |s.proc| :: NotStranded(s, w, z))
    && (forall w, z | 0 <= w < |s.proc| && 0 <= z < |s.proc| :: Scanned(s, w, z))
  }

  // Steps.

  predicate Runs(s: State, p: int) {
    Shape(s) && IsProc(s, p) && ProcOk(s, p) && OnCpu(s.proc[p].pc)
  }

  /** The slot besides its own that the next step of p may change. */
  function Extra(s: State, p: int): int
    requires Shape(s) && IsProc(s, p)
  {
    var pc := s.proc[p].pc;
    if pc.Reparent? && IsProc(s, pc.j) && s.proc[pc.j].parent == p then pc.j
    else if pc.WakeInitHold? then INIT
    else if pc.WakeParentHold? then pc.x
    else if pc.WaitHold? || pc.ForkHold? || Forking(pc) then pc.j
    else if pc.KillHold? then pc.q
    else p
  }

  /** What a process that is neither p nor j sees of a step of p that may change slot j. */
  ghost predicate Step(s: State, t: State, p: int, j: int)
    requires Shape(s)
  {
    && Shape(t) && |t.proc| == |s.proc|
    && (forall q | 0 <= q < |s.proc| && q != p && q != j :: t.proc[q] == s.proc[q])
    && (forall q | 0 <= q < |s.proc| && t.plock[q] != s.plock[q] :: s.plock[q] == Free || s.plock[q] == Thread(p))
    && (t.wait != s.wait ==> s.wait == Free || s.wait == Thread(p))
  }

  /** The slot j is not one that another process is filling. */
  predicate Unclaimed(s: State, p: int, j: int)
    requires IsProc(s, j)
  {
    s.proc[j].pc.Fresh? && s.proc[j].st == USED ==> s.proc[j].maker == p || s.proc[j].parent == p
  }

  lemma OtherKeeps(s: State, t: State, p: int, j: int, q: int)
    requires Shape(s) && Step(s, t, p, j) == true && IsProc(s, j) && IsProc(s, p) && OnCpu(s.proc[p].pc)
    requires IsProc(s, q) && q != p && q != j && ProcOk(s, q)
    requires t.proc[j] == s.proc[j].(killed := t.proc[j].killed) || Unclaimed(s, p, j)
    ensures ProcOk(t, q) == true
  {
  }

  lemma ExitLocal(s: State, p: int)
    requires Runs(s, p) && Exiting(s.proc[p].pc) && FamilyOk(s.proc[p], p, |s.proc|)
    ensures Step(s, ExitStep(s, p), p, Extra(s, p)) == true
  {
  }

  lemma ReparentOwn(s: State, p: int)
    requires Runs(s, p) && Exiting(s.proc[p].pc) && FamilyOk(s.proc[p], p, |s.proc|)
    requires var pc := s.proc[p].pc; pc.ExitEnter? || pc.Reparent? || pc.WakeInit? || pc.WakeInitHold?
    ensures Shape(ExitStep(s, p)) && IsProc(ExitStep(s, p), p) && ProcOk(ExitStep(s, p), p) == true
  {
  }

  lemma LeaveOwn(s: State, p: int)
    requires Runs(s, p) && Exiting(s.proc[p].pc) && FamilyOk(s.proc[p], p, |s.proc|)
    requires var pc := s.proc[p].pc; !(pc.ExitEnter? || pc.Reparent? || pc.WakeInit? || pc.WakeInitHold?)
    ensures Shape(ExitStep(s, p)) && IsProc(ExitStep(s, p), p) && ProcOk(ExitStep(s, p), p) == true
  {
  }

  lemma ExitOwn(s: State, p: int)
    requires Runs(s, p) && Exiting(s.proc[p].pc) && FamilyOk(s.proc[p], p, |s.proc|)
    ensures Shape(ExitStep(s, p)) && IsProc(ExitStep(s, p), p) && ProcOk(ExitStep(s, p), p) == true
  {
    var pc := s.proc[p].pc;
    if pc.ExitEnter? || pc.Reparent? || pc.WakeInit? || pc.WakeInitHold? {
      ReparentOwn(s, p);
    } else {
      LeaveOwn(s, p);
    }
  }

  lemma WaitLocal(s: State, p: int, ch: Choice)
    requires Runs(s, p) && Waiting(s.proc[p].pc)
    ensures Step(s, WaitStep(s, p, ch), p, Extra(s, p)) == true
  {
  }

  lemma HoldOwn(s: State, p: int, ch: Choice)
    requires Runs(s, p) && s.proc[p].pc.WaitHold?
    ensures Shape(WaitStep(s, p, ch)) && IsProc(WaitStep(s, p, ch), p) && ProcOk(WaitStep(s, p, ch), p) == true
  {
  }

  lemma LoopOwn(s: State, p: int, ch: Choice)
    requires Runs(s, p) && s.proc[p].pc.WaitScan?
    ensures Shape(WaitStep(s, p, ch)) && IsProc(WaitStep(s, p, ch), p) && ProcOk(WaitStep(s, p, ch), p) == true
  {
  }

  lemma EnterOwn(s: State, p: int, ch: Choice)
    requires Runs(s, p) && (s.proc[p].pc.WaitEnter? || s.proc[p].pc.WaitTest?)
    ensures Shape(WaitStep(s, p, ch)) && IsProc(WaitStep(s, p, ch), p) && ProcOk(WaitStep(s, p, ch), p) == true
  {
  }

  lemma ScanOwn(s: State, p: int, ch: Choice)
    requires Runs(s, p) && Waiting(s.proc[p].pc)
    requires var pc := s.proc[p].pc; pc.WaitEnter? || pc.WaitScan? || pc.WaitHold? || pc.WaitTest?
    ensures Shape(WaitStep(s, p, ch)) && IsProc(WaitStep(s, p, ch), p) && ProcOk(WaitStep(s, p, ch), p) == true
  {
    if s.proc[p].pc.WaitHold? {
      HoldOwn(s, p, ch);
    } else if s.proc[p].pc.WaitScan? {
      LoopOwn(s, p, ch);
    } else {
      EnterOwn(s, p, ch);
    }
  }

  lemma SleepOwn(s: State, p: int, ch: Choice)
    requires Runs(s, p) && Waiting(s.proc[p].pc)
    requires var pc := s.proc[p].pc; !(pc.WaitEnter? || pc.WaitScan? || pc.WaitHold? || pc.WaitTest?)
    ensures Shape(WaitStep(s, p, ch)) && IsProc(WaitStep(s, p, ch), p) && ProcOk(WaitStep(s, p, ch), p) == true
  {
  }

  lemma WaitOwn(s: State, p: int, ch: Choice)
    requires Runs(s, p) && Waiting(s.proc[p].pc)
    ensures Shape(WaitStep(s, p, ch)) && IsProc(WaitStep(s, p, ch), p) && ProcOk(WaitStep(s, p, ch), p) == true
  {
    var pc := s.proc[p].pc;
    if pc.WaitEnter? || pc.WaitScan? || pc.WaitHold? || pc.WaitTest? {
      ScanOwn(s, p, ch);
    } else {
      SleepOwn(s, p, ch);
    }
  }

  lemma ForkLocal(s: State, p: int, ch: Choice)
    requires Runs(s, p) && InFork(s.proc[p].pc)
    ensures Step(s, ForkStep(s, p, ch), p, Extra(s, p)) == true
  {
  }

  lemma OtherLocal(s: State, p: int)
    requires Runs(s, p) && IsOther(s.proc[p].pc)
    ensures Step(s, OtherStep(s, p), p, Extra(s, p)) == true
  {
  }

  lemma ClaimOwn(s: State, p: int, ch: Choice)
    requires Runs(s, p) && InFork(s.proc[p].pc)
    requires var j := Extra(s, p); IsProc(s, j) && ProcOk(s, j) && FamilyOk(s.proc[j], j, |s.proc|)
    requires var pc := s.proc[p].pc; pc.ForkHold? || pc.ForkFill?
    requires s.proc[p].pc.ForkHold?
    ensures Shape(ForkStep(s, p, ch)) && IsProc(ForkStep(s, p, ch), p) && ProcOk(ForkStep(s, p, ch), p) == true
  {
  }

  lemma FilledOwn(s: State, p: int, ch: Choice)
    requires Runs(s, p) && InFork(s.proc[p].pc)
    requires var j := Extra(s, p); IsProc(s, j) && ProcOk(s, j) && FamilyOk(s.proc[j], j, |s.proc|)
    requires var pc := s.proc[p].pc; pc.ForkHold? || pc.ForkFill?
    requires !(s.proc[p].pc.ForkHold?)
    ensures Shape(ForkStep(s, p, ch)) && IsProc(ForkStep(s, p, ch), p) && ProcOk(ForkStep(s, p, ch), p) == true
  {
  }

  lemma SlotOwn(s: State, p: int, ch: Choice)
    requires Runs(s, p) && InFork(s.proc[p].pc)
    requires var j := Extra(s, p); IsProc(s, j) && ProcOk(s, j) && FamilyOk(s.proc[j], j, |s.proc|)
    requires var pc := s.proc[p].pc; pc.ForkHold? || pc.ForkFill?
    ensures Shape(ForkStep(s, p, ch)) && IsProc(ForkStep(s, p, ch), p) && ProcOk(ForkStep(s, p, ch), p) == true
  {
    if s.proc[p].pc.ForkHold? {
      ClaimOwn(s, p, ch);
    } else {
      FilledOwn(s, p, ch);
    }
  }

  lemma ChildOwn(s: State, p: int, ch: Choice)
    requires Runs(s, p) && InFork(s.proc[p].pc)
    requires var j := Extra(s, p); IsProc(s, j) && ProcOk(s, j) && FamilyOk(s.proc[j], j, |s.proc|)
    requires var pc := s.proc[p].pc; !(pc.ForkHold? || pc.ForkFill?)
    ensures Shape(ForkStep(s, p, ch)) && IsProc(ForkStep(s, p, ch), p) && ProcOk(ForkStep(s, p, ch), p) == true
  {
  }

  lemma ForkOwn(s: State, p: int, ch: Choice)
    requires Runs(s, p) && InFork(s.proc[p].pc)
    requires var j := Extra(s, p); IsProc(s, j) && ProcOk(s, j) && FamilyOk(s.proc[j], j, |s.proc|)
    ensures Shape(ForkStep(s, p, ch)) && IsProc(ForkStep(s, p, ch), p) && ProcOk(ForkStep(s, p, ch), p) == true
  {
    var pc := s.proc[p].pc;
    if pc.ForkHold? || pc.ForkFill? {
      SlotOwn(s, p, ch);
    } else {
      ChildOwn(s, p, ch);
    }
  }

  lemma OtherOwn(s: State, p: int)
    requires Runs(s, p) && IsOther(s.proc[p].pc)
    ensures Shape(OtherStep(s, p)) && IsProc(OtherStep(s, p), p) && ProcOk(OtherStep(s, p), p) == true
  {
  }

  lemma SyscallGood(s: State, p: int, ch: Choice)
    requires Runs(s, p) && s.proc[p].pc.User?
    ensures Step(s, Syscall(s, p, ch), p, p) == true
    ensures ProcOk(Syscall(s, p, ch), p) == true
  {
  }

  /** A slot that a step of p changes stays in order, and no other process was filling it. */
  ghost predicate SlotGood(s: State, t: State, p: int, j: int)
    requires Shape(s) && IsProc(s, p) && IsProc(s, j)
  {
    && Shape(t) && |t.proc| == |s.proc|
    && ProcOk(t, j) && FamilyOk(t.proc[j], j, |s.proc|)
    && (t.proc[j] == s.proc[j].(killed := t.proc[j].killed) || Unclaimed(s, p, j))
  }

  ghost predicate SlotReady(s: State, p: int, j: int)
    requires Shape(s) && IsProc(s, p)
  {
    && IsProc(s, j) && j != p && j == Extra(s, p)
    && ProcOk(s, j) && FamilyOk(s.proc[j], j, |s.proc|) && FamilyOk(s.proc[p], p, |s.proc|)
    && FamilyOk(s.proc[INIT], INIT, |s.proc|)
  }

  lemma ReparentSlot(s: State, p: int, j: int)
    requires Runs(s, p) && Exiting(s.proc[p].pc) && SlotReady(s, p, j) == true
    requires s.proc[p].pc.ExitEnter? || s.proc[p].pc.Reparent? || s.proc[p].pc.WakeInit? || s.proc[p].pc.WakeInitHold?
    ensures SlotGood(s, ExitStep(s, p), p, j) == true
  {
  }

  lemma LeaveSlot(s: State, p: int, j: int)
    requires Runs(s, p) && Exiting(s.proc[p].pc) && SlotReady(s, p, j) == true
    requires !(s.proc[p].pc.ExitEnter? || s.proc[p].pc.Reparent? || s.proc[p].pc.WakeInit?
               || s.proc[p].pc.WakeInitHold?)
    ensures SlotGood(s, ExitStep(s, p), p, j) == true
  {
  }

  lemma ExitSlot(s: State, p: int, j: int)
    requires Runs(s, p) && Exiting(s.proc[p].pc) && SlotReady(s, p, j) == true
    ensures SlotGood(s, ExitStep(s, p), p, j) == true
  {
    if s.proc[p].pc.ExitEnter? || s.proc[p].pc.Reparent? || s.proc[p].pc.WakeInit? || s.proc[p].pc.WakeInitHold? {
      ReparentSlot(s, p, j);
    } else {
      LeaveSlot(s, p, j);
    }
  }

  lemma WaitSlot(s: State, p: int, ch: Choice, j: int)
    requires Runs(s, p) && s.proc[p].pc.WaitHold? && SlotReady(s, p, j) == true
    ensures SlotGood(s, WaitStep(s, p, ch), p, j) == true
  {
  }

  lemma ClaimSlot(s: State, p: int, ch: Choice, j: int)
    requires Runs(s, p) && InFork(s.proc[p].pc) && SlotReady(s, p, j) == true
    requires s.proc[p].pc.ForkHold? || s.proc[p].pc.ForkFill?
    requires s.proc[p].pc.ForkHold?
    ensures SlotGood(s, ForkStep(s, p, ch), p, j) == true
  {
  }

  lemma FilledSlot(s: State, p: int, ch: Choice, j: int)
    requires Runs(s, p) && InFork(s.proc[p].pc) && SlotReady(s, p, j) == true
    requires s.proc[p].pc.ForkHold? || s.proc[p].pc.ForkFill?
    requires !(s.proc[p].pc.ForkHold?)
    ensures SlotGood(s, ForkStep(s, p, ch), p, j) == true
  {
  }

  lemma FillSlot(s: State, p: int, ch: Choice, j: int)
    requires Runs(s, p) && InFork(s.proc[p].pc) && SlotReady(s, p, j) == true
    requires s.proc[p].pc.ForkHold? || s.proc[p].pc.ForkFill?
    ensures SlotGood(s, ForkStep(s, p, ch), p, j) == true
  {
    if s.proc[p].pc.ForkHold? {
      ClaimSlot(s, p, ch, j);
    } else {
      FilledSlot(s, p, ch, j);
    }
  }

  lemma ChildSlot(s: State, p: int, ch: Choice, j: int)
    requires Runs(s, p) && InFork(s.proc[p].pc) && SlotReady(s, p, j) == true
    requires !(s.proc[p].pc.ForkHold? || s.proc[p].pc.ForkFill?)
    ensures SlotGood(s, ForkStep(s, p, ch), p, j) == true
  {
  }

  lemma ForkSlot(s: State, p: int, ch: Choice, j: int)
    requires Runs(s, p) && InFork(s.proc[p].pc) && SlotReady(s, p, j) == true
    ensures SlotGood(s, ForkStep(s, p, ch), p, j) == true
  {
    if s.proc[p].pc.ForkHold? || s.proc[p].pc.ForkFill? {
      FillSlot(s, p, ch, j);
    } else {
      ChildSlot(s, p, ch, j);
    }
  }

  lemma OtherSlot(s: State, p: int, j: int)
    requires Runs(s, p) && s.proc[p].pc.KillHold? && SlotReady(s, p, j) == true
    ensures SlotGood(s, OtherStep(s, p), p, j) == true
  {
  }

  lemma ExitFamily(s: State, p: int)
    requires Runs(s, p) && Exiting(s.proc[p].pc) && FamilyOk(s.proc[p], p, |s.proc|)
    ensures IsProc(ExitStep(s, p), p) && FamilyOk(ExitStep(s, p).proc[p], p, |s.proc|) == true
  {
  }

  lemma WaitFamily(s: State, p: int, ch: Choice)
    requires Runs(s, p) && Waiting(s.proc[p].pc) && FamilyOk(s.proc[p], p, |s.proc|)
    ensures IsProc(WaitStep(s, p, ch), p) && FamilyOk(WaitStep(s, p, ch).proc[p], p, |s.proc|) == true
  {
  }

  lemma ForkFamily(s: State, p: int, ch: Choice)
    requires Runs(s, p) && InFork(s.proc[p].pc) && FamilyOk(s.proc[p], p, |s.proc|)
    ensures IsProc(ForkStep(s, p, ch), p) && FamilyOk(ForkStep(s, p, ch).proc[p], p, |s.proc|) == true
  {
  }

  lemma OtherFamily(s: State, p: int)
    requires Runs(s, p) && IsOther(s.proc[p].pc) && FamilyOk(s.proc[p], p, |s.proc|)
    ensures IsProc(OtherStep(s, p), p) && FamilyOk(OtherStep(s, p).proc[p], p, |s.proc|) == true
  {
  }

  lemma SyscallFamily(s: State, p: int, ch: Choice)
    requires Runs(s, p) && s.proc[p].pc.User? && FamilyOk(s.proc[p], p, |s.proc|)
    ensures IsProc(Syscall(s, p, ch), p) && FamilyOk(Syscall(s, p, ch).proc[p], p, |s.proc|) == true
  {
  }

  // Parents, children and zombies, pair by pair.

  /** What the lemmas below know about the process that takes the step. */
  ghost predicate Mover(s: State, p: int) {
    && Runs(s, p) && FamilyOk(s.proc[p], p, |s.proc|)
    && PcOk(s.proc[INIT].pc, INIT, |s.proc|)
    && IsProc(s, Extra(s, p)) && ProcOk(s, Extra(s, p))
  }

  lemma ExitChildless(s: State, p: int, q: int, z: int)
    requires Mover(s, p) == true && IsProc(s, q) && IsProc(s, z) && Exiting(s.proc[p].pc) && Childless(s, q, z)
    ensures |ExitStep(s, p).proc| == |s.proc|
    ensures Childless(ExitStep(s, p), q, z) == true
  {
  }

  lemma HoldChildless(s: State, p: int, ch: Choice, q: int, z: int)
    requires Mover(s, p) == true && IsProc(s, q) && IsProc(s, z) && Waiting(s.proc[p].pc) && Childless(s, q, z)
    requires s.proc[p].pc.WaitHold?
    ensures |WaitStep(s, p, ch).proc| == |s.proc|
    ensures Childless(WaitStep(s, p, ch), q, z) == true
  {
  }

  lemma LoopChildless(s: State, p: int, ch: Choice, q: int, z: int)
    requires Mover(s, p) == true && IsProc(s, q) && IsProc(s, z) && Waiting(s.proc[p].pc) && Childless(s, q, z)
    requires !(s.proc[p].pc.WaitHold?)
    requires s.proc[p].pc.WaitScan?
    ensures |WaitStep(s, p, ch).proc| == |s.proc|
    ensures Childless(WaitStep(s, p, ch), q, z) == true
  {
  }

  lemma SleepChildless(s: State, p: int, ch: Choice, q: int, z: int)
    requires Mover(s, p) == true && IsProc(s, q) && IsProc(s, z) && Waiting(s.proc[p].pc) && Childless(s, q, z)
    requires !(s.proc[p].pc.WaitHold?)
    requires !(s.proc[p].pc.WaitScan?)
    ensures |WaitStep(s, p, ch).proc| == |s.proc|
    ensures Childless(WaitStep(s, p, ch), q, z) == true
  {
  }

  lemma ScanChildless(s: State, p: int, ch: Choice, q: int, z: int)
    requires Mover(s, p) == true && IsProc(s, q) && IsProc(s, z) && Waiting(s.proc[p].pc) && Childless(s, q, z)
    requires !(s.proc[p].pc.WaitHold?)
    ensures |WaitStep(s, p, ch).proc| == |s.proc|
    ensures Childless(WaitStep(s, p, ch), q, z) == true
  {
    if s.proc[p].pc.WaitScan? {
      LoopChildless(s, p, ch, q, z);
    } else {
      SleepChildless(s, p, ch, q, z);
    }
  }

  lemma WaitChildless(s: State, p: int, ch: Choice, q: int, z: int)
    requires Mover(s, p) == true && IsProc(s, q) && IsProc(s, z) && Waiting(s.proc[p].pc) && Childless(s, q, z)
    ensures |WaitStep(s, p, ch).proc| == |s.proc|
    ensures Childless(WaitStep(s, p, ch), q, z) == true
  {
    if s.proc[p].pc.WaitHold? {
      HoldChildless(s, p, ch, q, z);
    } else {
      ScanChildless(s, p, ch, q, z);
    }
  }

  lemma FillChildless(s: State, p: int, ch: Choice, q: int, z: int)
    requires Mover(s, p) == true && IsProc(s, q) && IsProc(s, z) && InFork(s.proc[p].pc) && Childless(s, q, z)
    requires s.proc[p].pc.ForkHold? || s.proc[p].pc.ForkFill?
    ensures |ForkStep(s, p, ch).proc| == |s.proc|
    ensures Childless(ForkStep(s, p, ch), q, z) == true
  {
  }

  lemma ChildChildless(s: State, p: int, ch: Choice, q: int, z: int)
    requires Mover(s, p) == true && IsProc(s, q) && IsProc(s, z) && InFork(s.proc[p].pc) && Childless(s, q, z)
    requires !(s.proc[p].pc.ForkHold? || s.proc[p].pc.ForkFill?)
    ensures |ForkStep(s, p, ch).proc| == |s.proc|
    ensures Childless(ForkStep(s, p, ch), q, z) == true
  {
  }

  lemma ForkChildless(s: State, p: int, ch: Choice, q: int, z: int)
    requires Mover(s, p) == true && IsProc(s, q) && IsProc(s, z) && InFork(s.proc[p].pc) && Childless(s, q, z)
    ensures |ForkStep(s, p, ch).proc| == |s.proc|
    ensures Childless(ForkStep(s, p, ch), q, z) == true
  {
    if s.proc[p].pc.ForkHold? || s.proc[p].pc.ForkFill? {
      FillChildless(s, p, ch, q, z);
    } else {
      ChildChildless(s, p, ch, q, z);
    }
  }

  lemma OtherChildless(s: State, p: int, q: int, z: int)
    requires Mover(s, p) && IsProc(s, q) && IsProc(s, z) && IsOther(s.proc[p].pc) && Childless(s, q, z)
    ensures |OtherStep(s, p).proc| == |s.proc|
    ensures Childless(OtherStep(s, p), q, z) == true
  {
  }

  lemma SyscallChildless(s: State, p: int, ch: Choice, q: int, z: int)
    requires Mover(s, p) == true && IsProc(s, q) && IsProc(s, z) && s.proc[p].pc.User? && Childless(s, q, z)
    ensures |Syscall(s, p, ch).proc| == |s.proc|
    ensures Childless(Syscall(s, p, ch), q, z) == true
  {
  }

  lemma ReparentStranded(s: State, p: int, w: int, z: int)
    requires Mover(s, p) == true && IsProc(s, w) && IsProc(s, z) && Exiting(s.proc[p].pc) && NotStranded(s, w, z)
    requires Scanned(s, w, z) && ParentAwake(s, p)
    requires s.proc[p].pc.Reparent? || s.proc[p].pc.WakeInitHold?
    ensures |ExitStep(s, p).proc| == |s.proc|
    ensures NotStranded(ExitStep(s, p), w, z) == true
  {
  }

  lemma LeaveStranded(s: State, p: int, w: int, z: int)
    requires Mover(s, p) == true && IsProc(s, w) && IsProc(s, z) && Exiting(s.proc[p].pc) && NotStranded(s, w, z)
    requires Scanned(s, w, z) && ParentAwake(s, p)
    requires !(s.proc[p].pc.Reparent? || s.proc[p].pc.WakeInitHold?)
    ensures |ExitStep(s, p).proc| == |s.proc|
    ensures NotStranded(ExitStep(s, p), w, z) == true
  {
  }

  lemma ExitStranded(s: State, p: int, w: int, z: int)
    requires Mover(s, p) == true && IsProc(s, w) && IsProc(s, z) && Exiting(s.proc[p].pc) && NotStranded(s, w, z)
    requires Scanned(s, w, z) && ParentAwake(s, p)
    ensures |ExitStep(s, p).proc| == |s.proc|
    ensures NotStranded(ExitStep(s, p), w, z) == true
  {
    if s.proc[p].pc.Reparent? || s.proc[p].pc.WakeInitHold? {
      ReparentStranded(s, p, w, z);
    } else {
      LeaveStranded(s, p, w, z);
    }
  }

  lemma HoldStranded(s: State, p: int, ch: Choice, w: int, z: int)
    requires Mover(s, p) == true && IsProc(s, w) && IsProc(s, z) && Waiting(s.proc[p].pc) && NotStranded(s, w, z)
    requires Scanned(s, w, z) && ParentAwake(s, p)
    requires s.proc[p].pc.WaitHold?
    ensures |WaitStep(s, p, ch).proc| == |s.proc|
    ensures NotStranded(WaitStep(s, p, ch), w, z) == true
  {
  }

  lemma ScanStranded(s: State, p: int, ch: Choice, w: int, z: int)
    requires Mover(s, p) == true && IsProc(s, w) && IsProc(s, z) && Waiting(s.proc[p].pc) && NotStranded(s, w, z)
    requires Scanned(s, w, z) && ParentAwake(s, p)
    requires !(s.proc[p].pc.WaitHold?)
    ensures |WaitStep(s, p, ch).proc| == |s.proc|
    ensures NotStranded(WaitStep(s, p, ch), w, z) == true
  {
  }

  lemma WaitStranded(s: State, p: int, ch: Choice, w: int, z: int)
    requires Mover(s, p) == true && IsProc(s, w) && IsProc(s, z) && Waiting(s.proc[p].pc) && NotStranded(s, w, z)
    requires Scanned(s, w, z) && ParentAwake(s, p)
    ensures |WaitStep(s, p, ch).proc| == |s.proc|
    ensures NotStranded(WaitStep(s, p, ch), w, z) == true
  {
    if s.proc[p].pc.WaitHold? {
      HoldStranded(s, p, ch, w, z);
    } else {
      ScanStranded(s, p, ch, w, z);
    }
  }

  lemma FillStranded(s: State, p: int, ch: Choice, w: int, z: int)
    requires Mover(s, p) == true && IsProc(s, w) && IsProc(s, z) && InFork(s.proc[p].pc) && NotStranded(s, w, z)
    requires Scanned(s, w, z) && ParentAwake(s, p)
    requires s.proc[p].pc.ForkHold? || s.proc[p].pc.ForkFill?
    ensures |ForkStep(s, p, ch).proc| == |s.proc|
    ensures NotStranded(ForkStep(s, p, ch), w, z) == true
  {
  }

  lemma ChildStranded(s: State, p: int, ch: Choice, w: int, z: int)
    requires Mover(s, p) == true && IsProc(s, w) && IsProc(s, z) && InFork(s.proc[p].pc) && NotStranded(s, w, z)
    requires Scanned(s, w, z) && ParentAwake(s, p)
    requires !(s.proc[p].pc.ForkHold? || s.proc[p].pc.ForkFill?)
    ensures |ForkStep(s, p, ch).proc| == |s.proc|
    ensures NotStranded(ForkStep(s, p, ch), w, z) == true
  {
  }

  lemma ForkStranded(s: State, p: int, ch: Choice, w: int, z: int)
    requires Mover(s, p) == true && IsProc(s, w) && IsProc(s, z) && InFork(s.proc[p].pc) && NotStranded(s, w, z)
    requires Scanned(s, w, z) && ParentAwake(s, p)
    ensures |ForkStep(s, p, ch).proc| == |s.proc|
    ensures NotStranded(ForkStep(s, p, ch), w, z) == true
  {
    if s.proc[p].pc.ForkHold? || s.proc[p].pc.ForkFill? {
      FillStranded(s, p, ch, w, z);
    } else {
      ChildStranded(s, p, ch, w, z);
    }
  }

  lemma OtherStranded(s: State, p: int, w: int, z: int)
    requires Mover(s, p) && IsProc(s, w) && IsProc(s, z) && IsOther(s.proc[p].pc) && NotStranded(s, w, z)
    requires Scanned(s, w, z) && ParentAwake(s, p)
    ensures |OtherStep(s, p).proc| == |s.proc|
    ensures NotStranded(OtherStep(s, p), w, z) == true
  {
  }

  lemma SyscallStranded(s: State, p: int, ch: Choice, w: int, z: int)
    requires Mover(s, p) == true && IsProc(s, w) && IsProc(s, z) && s.proc[p].pc.User? && NotStranded(s, w, z)
    requires Scanned(s, w, z) && ParentAwake(s, p)
    ensures |Syscall(s, p, ch).proc| == |s.proc|
    ensures NotStranded(Syscall(s, p, ch), w, z) == true
  {
  }

  lemma ReparentScanned(s: State, p: int, w: int, z: int)
    requires Mover(s, p) == true && IsProc(s, w) && IsProc(s, z) && ProcOk(s, w) && Exiting(s.proc[p].pc)
             && Scanned(s, w, z)
    requires s.proc[p].pc.ExitEnter? || s.proc[p].pc.Reparent? || s.proc[p].pc.WakeInit? || s.proc[p].pc.WakeInitHold?
    ensures |ExitStep(s, p).proc| == |s.proc|
    ensures Scanned(ExitStep(s, p), w, z) == true
  {
  }

  lemma LeaveScanned(s: State, p: int, w: int, z: int)
    requires Mover(s, p) == true && IsProc(s, w) && IsProc(s, z) && ProcOk(s, w) && Exiting(s.proc[p].pc)
             && Scanned(s, w, z)
    requires !(s.proc[p].pc.ExitEnter? || s.proc[p].pc.Reparent? || s.proc[p].pc.WakeInit?
               || s.proc[p].pc.WakeInitHold?)
    ensures |ExitStep(s, p).proc| == |s.proc|
    ensures Scanned(ExitStep(s, p), w, z) == true
  {
  }

  lemma ExitScanned(s: State, p: int, w: int, z: int)
    requires Mover(s, p) == true && IsProc(s, w) && IsProc(s, z) && ProcOk(s, w) && Exiting(s.proc[p].pc)
             && Scanned(s, w, z)
    ensures |ExitStep(s, p).proc| == |s.proc|
    ensures Scanned(ExitStep(s, p), w, z) == true
  {
    if s.proc[p].pc.ExitEnter? || s.proc[p].pc.Reparent? || s.proc[p].pc.WakeInit? || s.proc[p].pc.WakeInitHold? {
      ReparentScanned(s, p, w, z);
    } else {
      LeaveScanned(s, p, w, z);
    }
  }

  lemma HoldScanned(s: State, p: int, ch: Choice, w: int, z: int)
    requires Mover(s, p) == true && IsProc(s, w) && IsProc(s, z) && ProcOk(s, w) && Waiting(s.proc[p].pc)
             && Scanned(s, w, z)
    requires s.proc[p].pc.WaitHold?
    ensures |WaitStep(s, p, ch).proc| == |s.proc|
    ensures Scanned(WaitStep(s, p, ch), w, z) == true
  {
  }

  lemma ScanScanned(s: State, p: int, ch: Choice, w: int, z: int)
    requires Mover(s, p) == true && IsProc(s, w) && IsProc(s, z) && ProcOk(s, w) && Waiting(s.proc[p].pc)
             && Scanned(s, w, z)
    requires !(s.proc[p].pc.WaitHold?)
    ensures |WaitStep(s, p, ch).proc| == |s.proc|
    ensures Scanned(WaitStep(s, p, ch), w, z) == true
  {
  }

  lemma WaitScanned(s: State, p: int, ch: Choice, w: int, z: int)
    requires Mover(s, p) == true && IsProc(s, w) && IsProc(s, z) && ProcOk(s, w) && Waiting(s.proc[p].pc)
             && Scanned(s, w, z)
    ensures |WaitStep(s, p, ch).proc| == |s.proc|
    ensures Scanned(WaitStep(s, p, ch), w, z) == true
  {
    if s.proc[p].pc.WaitHold? {
      HoldScanned(s, p, ch, w, z);
    } else {
      ScanScanned(s, p, ch, w, z);
    }
  }

  lemma FillScanned(s: State, p: int, ch: Choice, w: int, z: int)
    requires Mover(s, p) == true && IsProc(s, w) && IsProc(s, z) && ProcOk(s, w) && InFork(s.proc[p].pc)
             && Scanned(s, w, z)
    requires s.proc[p].pc.ForkHold? || s.proc[p].pc.ForkFill?
    ensures |ForkStep(s, p, ch).proc| == |s.proc|
    ensures Scanned(ForkStep(s, p, ch), w, z) == true
  {
  }

  lemma ChildScanned(s: State, p: int, ch: Choice, w: int, z: int)
    requires Mover(s, p) == true && IsProc(s, w) && IsProc(s, z) && ProcOk(s, w) && InFork(s.proc[p].pc)
             && Scanned(s, w, z)
    requires !(s.proc[p].pc.ForkHold? || s.proc[p].pc.ForkFill?)
    ensures |ForkStep(s, p, ch).proc| == |s.proc|
    ensures Scanned(ForkStep(s, p, ch), w, z) == true
  {
  }

  lemma ForkScanned(s: State, p: int, ch: Choice, w: int, z: int)
    requires Mover(s, p) == true && IsProc(s, w) && IsProc(s, z) && ProcOk(s, w) && InFork(s.proc[p].pc)
             && Scanned(s, w, z)
    ensures |ForkStep(s, p, ch).proc| == |s.proc|
    ensures Scanned(ForkStep(s, p, ch), w, z) == true
  {
    if s.proc[p].pc.ForkHold? || s.proc[p].pc.ForkFill? {
      FillScanned(s, p, ch, w, z);
    } else {
      ChildScanned(s, p, ch, w, z);
    }
  }

  lemma OtherScanned(s: State, p: int, w: int, z: int)
    requires Mover(s, p) && IsProc(s, w) && IsProc(s, z) && ProcOk(s, w) && IsOther(s.proc[p].pc) && Scanned(s, w, z)
    ensures |OtherStep(s, p).proc| == |s.proc|
    ensures Scanned(OtherStep(s, p), w, z) == true
  {
  }

  lemma SyscallScanned(s: State, p: int, ch: Choice, w: int, z: int)
    requires Mover(s, p) == true && IsProc(s, w) && IsProc(s, z) && ProcOk(s, w) && s.proc[p].pc.User?
             && Scanned(s, w, z)
    ensures |Syscall(s, p, ch).proc| == |s.proc|
    ensures Scanned(Syscall(s, p, ch), w, z) == true
  {
  }

  lemma ReparentAwake(s: State, p: int, q: int)
    requires Mover(s, p) == true && IsProc(s, q) && ProcOk(s, q) && Exiting(s.proc[p].pc) && ParentAwake(s, q)
    requires s.proc[p].pc.ExitEnter? || s.proc[p].pc.Reparent? || s.proc[p].pc.WakeInit? || s.proc[p].pc.WakeInitHold?
    ensures |ExitStep(s, p).proc| == |s.proc|
    ensures ParentAwake(ExitStep(s, p), q) == true
  {
  }

  lemma LeaveAwake(s: State, p: int, q: int)
    requires Mover(s, p) == true && IsProc(s, q) && ProcOk(s, q) && Exiting(s.proc[p].pc) && ParentAwake(s, q)
    requires !(s.proc[p].pc.ExitEnter? || s.proc[p].pc.Reparent? || s.proc[p].pc.WakeInit?
               || s.proc[p].pc.WakeInitHold?)
    ensures |ExitStep(s, p).proc| == |s.proc|
    ensures ParentAwake(ExitStep(s, p), q) == true
  {
  }

  lemma ExitAwake(s: State, p: int, q: int)
    requires Mover(s, p) == true && IsProc(s, q) && ProcOk(s, q) && Exiting(s.proc[p].pc) && ParentAwake(s, q)
    ensures |ExitStep(s, p).proc| == |s.proc|
    ensures ParentAwake(ExitStep(s, p), q) == true
  {
    if s.proc[p].pc.ExitEnter? || s.proc[p].pc.Reparent? || s.proc[p].pc.WakeInit? || s.proc[p].pc.WakeInitHold? {
      ReparentAwake(s, p, q);
    } else {
      LeaveAwake(s, p, q);
    }
  }

  lemma WaitAwake(s: State, p: int, ch: Choice, q: int)
    requires Mover(s, p) == true && IsProc(s, q) && ProcOk(s, q) && Waiting(s.proc[p].pc) && ParentAwake(s, q)
    ensures |WaitStep(s, p, ch).proc| == |s.proc|
    ensures ParentAwake(WaitStep(s, p, ch), q) == true
  {
  }

  lemma FillAwake(s: State, p: int, ch: Choice, q: int)
    requires Mover(s, p) == true && IsProc(s, q) && ProcOk(s, q) && InFork(s.proc[p].pc) && ParentAwake(s, q)
    requires s.proc[p].pc.ForkHold? || s.proc[p].pc.ForkFill?
    ensures |ForkStep(s, p, ch).proc| == |s.proc|
    ensures ParentAwake(ForkStep(s, p, ch), q) == true
  {
  }

  lemma ChildAwake(s: State, p: int, ch: Choice, q: int)
    requires Mover(s, p) == true && IsProc(s, q) && ProcOk(s, q) && InFork(s.proc[p].pc) && ParentAwake(s, q)
    requires !(s.proc[p].pc.ForkHold? || s.proc[p].pc.ForkFill?)
    ensures |ForkStep(s, p, ch).proc| == |s.proc|
    ensures ParentAwake(ForkStep(s, p, ch), q) == true
  {
  }

  lemma ForkAwake(s: State, p: int, ch: Choice, q: int)
    requires Mover(s, p) == true && IsProc(s, q) && ProcOk(s, q) && InFork(s.proc[p].pc) && ParentAwake(s, q)
    ensures |ForkStep(s, p, ch).proc| == |s.proc|
    ensures ParentAwake(ForkStep(s, p, ch), q) == true
  {
    if s.proc[p].pc.ForkHold? || s.proc[p].pc.ForkFill? {
      FillAwake(s, p, ch, q);
    } else {
      ChildAwake(s, p, ch, q);
    }
  }

  lemma OtherAwake(s: State, p: int, q: int)
    requires Mover(s, p) && IsProc(s, q) && ProcOk(s, q) && IsOther(s.proc[p].pc) && ParentAwake(s, q)
    ensures |OtherStep(s, p).proc| == |s.proc|
    ensures ParentAwake(OtherStep(s, p), q) == true
  {
  }

  lemma SyscallAwake(s: State, p: int, ch: Choice, q: int)
    requires Mover(s, p) == true && IsProc(s, q) && ProcOk(s, q) && s.proc[p].pc.User? && ParentAwake(s, q)
    ensures |Syscall(s, p, ch).proc| == |s.proc|
    ensures ParentAwake(Syscall(s, p, ch), q) == true
  {
  }

  // One step keeps the invariant.

  /** What a step of p does to p itself, to the slot it changes besides, and to what others see. */
  ghost predicate LocalGood(s: State, t: State, p: int)
    requires Shape(s) && IsProc(s, p)
  {
    && IsProc(s, Extra(s, p)) && Step(s, t, p, Extra(s, p)) && ProcOk(t, p) && FamilyOk(t.proc[p], p, |s.proc|)
    && (Extra(s, p) != p ==> SlotGood(s, t, p, Extra(s, p)))
  }

  ghost predicate LocalReady(s: State, p: int)
    requires Shape(s)
  {
    && Runs(s, p) && FamilyOk(s.proc[p], p, |s.proc|) && IsProc(s, Extra(s, p))
    && (Extra(s, p) != p ==> SlotReady(s, p, Extra(s, p)))
  }

  lemma ExitGood(s: State, p: int)
    requires Shape(s) && LocalReady(s, p) && Exiting(s.proc[p].pc)
    ensures LocalGood(s, ExitStep(s, p), p) == true
  {
    ExitLocal(s, p);
    ExitOwn(s, p);
    ExitFamily(s, p);
    if Extra(s, p) != p { ExitSlot(s, p, Extra(s, p)); }
  }

  lemma WaitGood(s: State, p: int, ch: Choice)
    requires Shape(s) && LocalReady(s, p) && Waiting(s.proc[p].pc)
    ensures LocalGood(s, WaitStep(s, p, ch), p) == true
  {
    WaitLocal(s, p, ch);
    WaitOwn(s, p, ch);
    WaitFamily(s, p, ch);
    if Extra(s, p) != p { WaitSlot(s, p, ch, Extra(s, p)); }
  }

  lemma ForkGood(s: State, p: int, ch: Choice)
    requires Shape(s) && LocalReady(s, p) && InFork(s.proc[p].pc)
    ensures LocalGood(s, ForkStep(s, p, ch), p) == true
  {
    ForkLocal(s, p, ch);
    ForkOwn(s, p, ch);
    ForkFamily(s, p, ch);
    if Extra(s, p) != p { ForkSlot(s, p, ch, Extra(s, p)); }
  }

  lemma OtherGood(s: State, p: int)
    requires Shape(s) && LocalReady(s, p) && IsOther(s.proc[p].pc)
    ensures LocalGood(s, OtherStep(s, p), p) == true
  {
    OtherLocal(s, p);
    OtherOwn(s, p);
    OtherFamily(s, p);
    if Extra(s, p) != p { OtherSlot(s, p, Extra(s, p)); }
  }

  lemma ThreadReady(s: State, p: int)
    requires Inv(s) == true && Runs(s, p)
    ensures LocalReady(s, p) == true && Mover(s, p) == true
  {
    var j := Extra(s, p);
    assert FamilyOk(s.proc[p], p, |s.proc|) && ProcOk(s, INIT) && ProcOk(s, j);
    assert FamilyOk(s.proc[j], j, |s.proc|) && FamilyOk(s.proc[INIT], INIT, |s.proc|);
  }

  lemma ThreadLocal(s: State, p: int, ch: Choice)
    requires Inv(s) == true && Runs(s, p)
    ensures Mover(s, p) == true && LocalGood(s, ThreadStep(s, p, ch), p) == true
  {
    var pc := s.proc[p].pc;
    ThreadReady(s, p);
    if pc.User? {
      SyscallGood(s, p, ch);
      SyscallFamily(s, p, ch);
    } else if Exiting(pc) {
      ExitGood(s, p);
    } else if Waiting(pc) {
      WaitGood(s, p, ch);
    } else if InFork(pc) {
      ForkGood(s, p, ch);
    } else {
      OtherGood(s, p);
    }
  }

  lemma ThreadPair(s: State, p: int, ch: Choice, w: int, z: int)
    requires Mover(s, p) == true && IsProc(s, w) && IsProc(s, z) && ProcOk(s, w) && ParentAwake(s, p)
    requires Childless(s, w, z) && NotStranded(s, w, z) && Scanned(s, w, z)
    ensures |ThreadStep(s, p, ch).proc| == |s.proc|
    ensures Childless(ThreadStep(s, p, ch), w, z) == true
    ensures NotStranded(ThreadStep(s, p, ch), w, z) == true
    ensures Scanned(ThreadStep(s, p, ch), w, z) == true
  {
    var pc := s.proc[p].pc;
    if pc.User? {
      SyscallChildless(s, p, ch, w, z);
      SyscallStranded(s, p, ch, w, z);
      SyscallScanned(s, p, ch, w, z);
    } else if Exiting(pc) {
      ExitChildless(s, p, w, z);
      ExitStranded(s, p, w, z);
      ExitScanned(s, p, w, z);
    } else if Waiting(pc) {
      WaitChildless(s, p, ch, w, z);
      WaitStranded(s, p, ch, w, z);
      WaitScanned(s, p, ch, w, z);
    } else if InFork(pc) {
      ForkChildless(s, p, ch, w, z);
      ForkStranded(s, p, ch, w, z);
      ForkScanned(s, p, ch, w, z);
    } else {
      OtherChildless(s, p, w, z);
      OtherStranded(s, p, w, z);
      OtherScanned(s, p, w, z);
    }
  }

  lemma ThreadAwake(s: State, p: int, ch: Choice, q: int)
    requires Mover(s, p) == true && IsProc(s, q) && ProcOk(s, q) && ParentAwake(s, q)
    ensures |ThreadStep(s, p, ch).proc| == |s.proc|
    ensures ParentAwake(ThreadStep(s, p, ch), q) == true
  {
    var pc := s.proc[p].pc;
    if pc.User? {
      SyscallAwake(s, p, ch, q);
    } else if Exiting(pc) {
      ExitAwake(s, p, q);
    } else if Waiting(pc) {
      WaitAwake(s, p, ch, q);
    } else if InFork(pc) {
      ForkAwake(s, p, ch, q);
    } else {
      OtherAwake(s, p, q);
    }
  }

  lemma ThreadKeeps(s: State, p: int, ch: Choice)
    requires Inv(s) == true && Runs(s, p)
    ensures Inv(ThreadStep(s, p, ch))
  {
    var t, j := ThreadStep(s, p, ch), Extra(s, p);
    ThreadLocal(s, p, ch);
    assert ParentAwake(s, p);
    forall q | 0 <= q < |t.proc| ensures ProcOk(t, q) && FamilyOk(t.proc[q], q, |t.proc|) && ParentAwake(t, q) {
      assert ProcOk(s, q) && FamilyOk(s.proc[q], q, |s.proc|) && ParentAwake(s, q);
      ThreadAwake(s, p, ch, q);
      if q != p && q != j {
        OtherKeeps(s, t, p, j, q);
      }
    }
    forall w, z | 0 <= w < |t.proc| && 0 <= z < |t.proc|
      ensures Childless(t, w, z) && NotStranded(t, w, z) && Scanned(t, w, z)
    {
      assert ProcOk(s, w) && Childless(s, w, z) && NotStranded(s, w, z) && Scanned(s, w, z);
      ThreadPair(s, p, ch, w, z);
    }
  }

  lemma DispatchOne(s: State, p: int, q: int)
    requires Shape(s) && IsProc(s, p) && ProcOk(s, p) && FamilyOk(s.proc[p], p, |s.proc|)
    requires IsProc(s, q) && ProcOk(s, q) && FamilyOk(s.proc[q], q, |s.proc|) && ParentAwake(s, q)
    ensures var t := DispatchStep(s, p); Shape(t) && |t.proc| == |s.proc|
    ensures ProcOk(DispatchStep(s, p), q) == true
    ensures FamilyOk(DispatchStep(s, p).proc[q], q, |s.proc|) == true && ParentAwake(DispatchStep(s, p), q) == true
  {
  }

  lemma DispatchPair(s: State, p: int, w: int, z: int)
    requires Shape(s) && IsProc(s, p) && ProcOk(s, p) && IsProc(s, w) && IsProc(s, z)
    requires Childless(s, w, z) && NotStranded(s, w, z) && Scanned(s, w, z)
    ensures |DispatchStep(s, p).proc| == |s.proc| && Childless(DispatchStep(s, p), w, z) == true
    ensures NotStranded(DispatchStep(s, p), w, z) == true && Scanned(DispatchStep(s, p), w, z) == true
  {
  }

  lemma DispatchKeeps(s: State, p: int)
    requires Inv(s) == true && IsProc(s, p)
    ensures Inv(DispatchStep(s, p))
  {
    var t := DispatchStep(s, p);
    assert ProcOk(s, p) && FamilyOk(s.proc[p], p, |s.proc|);
    forall q | 0 <= q < |t.proc| ensures ProcOk(t, q) && FamilyOk(t.proc[q], q, |t.proc|) && ParentAwake(t, q) {
      assert ProcOk(s, q) && FamilyOk(s.proc[q], q, |s.proc|) && ParentAwake(s, q);
      DispatchOne(s, p, q);
    }
    forall w, z | 0 <= w < |t.proc| && 0 <= z < |t.proc|
      ensures Childless(t, w, z) && NotStranded(t, w, z) && Scanned(t, w, z)
    {
      assert Childless(s, w, z) && NotStranded(s, w, z) && Scanned(s, w, z);
      DispatchPair(s, p, w, z);
    }
  }

  lemma LockKeeps(s: State, p: int, t: State)
    requires Inv(s) == true && IsProc(s, p) && (t == TakeStep(s, p) || t == DropStep(s, p))
    ensures Inv(t)
  {
    assert ProcOk(s, p) && FamilyOk(s.proc[p], p, |s.proc|);
    forall q | 0 <= q < |t.proc| ensures ProcOk(t, q) && FamilyOk(t.proc[q], q, |t.proc|) && ParentAwake(t, q) {
      assert ProcOk(s, q) && FamilyOk(s.proc[q], q, |s.proc|) && ParentAwake(s, q);
    }
    forall w, z | 0 <= w < |t.proc| && 0 <= z < |t.proc|
      ensures Childless(t, w, z) && NotStranded(t, w, z) && Scanned(t, w, z)
    {
      assert ProcOk(s, w) && Childless(s, w, z) && NotStranded(s, w, z) && Scanned(s, w, z);
    }
  }

  // Whole runs.

  ghost predicate Enabled(s: State, a: Action) {
    IsProc(s, a.p) && (a.Run? ==> OnCpu(s.proc[a.p].pc))
  }

  ghost function Do(s: State, a: Action): (t: State)
    requires Inv(s) && Enabled(s, a)
    ensures Inv(t)
  {
    match a
    case Run(p, ch) =>
      assert ProcOk(s, p);
      ThreadKeeps(s, p, ch);
      ThreadStep(s, p, ch)
    case Dispatch(p) =>
      DispatchKeeps(s, p);
      DispatchStep(s, p)
    case Take(p) =>
      LockKeeps(s, p, TakeStep(s, p));
      TakeStep(s, p)
    case Drop(p) =>
      LockKeeps(s, p, DropStep(s, p));
      DropStep(s, p)
  }

  ghost predicate Possible(s: State, run: seq<Action>)
    requires Inv(s)
    decreases |run|, 0
  {
    run == [] ||
    (Possible(s, run[..|run| - 1]) && Enabled(Exec(s, run[..|run| - 1]), run[|run| - 1]))
  }

  ghost function Exec(s: State, run: seq<Action>): (t: State)
    requires Inv(s) && Possible(s, run)
    ensures Inv(t)
    decreases |run|, 1
  {
    if run == [] then s else Do(Exec(s, run[..|run| - 1]), run[|run| - 1])
  }

  /** After userinit: the first process is runnable, every other slot is unused, locks are free. */
  ghost predicate Init(s: State) {
    && Shape(s) && s.wait == Free
    && s.proc[INIT] == Proc(Asleep, RUNNABLE, -1, false, -1, 0, 0)
    && (forall p | 0 < p < |s.proc| :: s.proc[p] == Proc(NoProc, UNUSED, -1, false, -1, 0, 0))
    && (forall p | 0 <= p < |s.proc| :: s.plock[p] == Free)
  }

  lemma InitInv(s: State)
    requires Init(s)
    ensures Inv(s)
  {
  }

  /** In every run a process has a living parent: never an unused slot, never a zombie.  Every
      process but the first has one from the moment it can run until it is reaped. */
  lemma ParentsLive(s: State, run: seq<Action>, z: int)
    requires Init(s)
    ensures Inv(s)
    ensures Possible(s, run) ==>
              var t := Exec(s, run);
              IsProc(t, z) ==>
                && (t.proc[z].parent != -1 ==>
                      && IsProc(t, t.proc[z].parent)
                      && t.proc[t.proc[z].parent].st in {SLEEPING, RUNNABLE, RUNNING})
                && (z != INIT && t.proc[z].st != UNUSED && t.proc[z].st != USED ==> t.proc[z].parent != -1)
  {
    InitInv(s);
    if Possible(s, run) {
      var t := Exec(s, run);
      if IsProc(t, z) {
        assert FamilyOk(t.proc[z], z, |t.proc|) && ProcOk(t, z);
        var q := t.proc[z].parent;
        if q != -1 {
          assert Childless(t, q, z) && ProcOk(t, q);
        }
      }
    }
  }

  /** In every run, when wait_lock is free no process is asleep in wait, or committed to
      sleeping, while it has a zombie child. */
  lemma NoZombieMissed(s: State, run: seq<Action>, w: int, z: int)
    requires Init(s)
    ensures Inv(s)
    ensures Possible(s, run) ==>
              var t := Exec(s, run);
              IsProc(t, w) && IsProc(t, z) && t.wait == Free && Dormant(t.proc[w]) ==> !ZombieChild(t, w, z)
  {
    InitInv(s);
    if Possible(s, run) {
      var t := Exec(s, run);
      if IsProc(t, w) && IsProc(t, z) {
        assert NotStranded(t, w, z);
      }
    }
  }

  /** In every run a zombie is reaped at most once: a slot has been reaped as often as it has
      exited, less the one exit that a zombie is still waiting to have collected. */
  lemma ReapedOnce(s: State, run: seq<Action>, z: int)
    requires Init(s)
    ensures Inv(s)
    ensures Possible(s, run) ==>
              var t := Exec(s, run);
              IsProc(t, z) ==> t.proc[z].exits == t.proc[z].reaps + if t.proc[z].st == ZOMBIE then 1 else 0
  {
    InitInv(s);
    if Possible(s, run) {
      var t := Exec(s, run);
      if IsProc(t, z) {
        assert FamilyOk(t.proc[z], z, |t.proc|);
      }
    }
  }

  /** A reaper finds its zombie switched out for good: not still inside exit or swtch. */
  lemma ReapsTheGone(s: State, run: seq<Action>, p: int)
    requires Init(s)
    ensures Inv(s)
    ensures Possible(s, run) ==>
              var t := Exec(s, run);
              IsProc(t, p) && t.proc[p].pc.WaitHold? && IsProc(t, t.proc[p].pc.j)
                  && t.proc[t.proc[p].pc.j].st == ZOMBIE ==>
                t.proc[t.proc[p].pc.j].pc == Gone
  {
    InitInv(s);
    if Possible(s, run) {
      var t := Exec(s, run);
      if IsProc(t, p) && t.proc[p].pc.WaitHold? {
        assert ProcOk(t, p) && ProcOk(t, t.proc[p].pc.j);
      }
    }
  }
}
