/** sleep, wakeup, kill, yield and the scheduler of kernel/proc.c under the semaphores of
    kernel/sem.c: an interleaved machine.  Every process is a kernel thread with a program
    counter; a step is one atomic action of a thread that some CPU is running, or of a CPU's
    scheduler.  An acquire of a lock that is taken leaves the state as it is: the CPU spins. */
module Semaphores {

  datatype PState = SLEEPING | RUNNABLE | RUNNING

  /** The owner of a spinlock; swtch hands a process lock from a thread to a scheduler and back. */
  datatype Holder = Free | Thread(p: int) | Sched(c: int)

  /** A CPU looks for a process, holds the lock of process k, runs it, or is just back from it. */
  datatype Cpu = Scan | Hold(k: int) | In(k: int) | Back(k: int)

  /** i is the semaphore, which is also the channel slept on. */
  datatype Pc =
    | User
    | InitEnter(i: int, v: int) | InitHold(i: int, v: int)
    | DownEnter(i: int) | DownTest(i: int)
    | SleepEnter(i: int) | SleepRelease(i: int) | SleepMark(i: int) | Asleep(i: int) | Resume(i: int) | Relock(i: int)
    | UpEnter(i: int) | UpHold(i: int) | Wake(i: int, j: int) | WakeHold(i: int, j: int) | UpExit(i: int)
    | YieldEnter | YieldMark | Yielded | YieldResume
    | KillEnter(q: int) | KillHold(q: int)

  datatype Proc = Proc(pc: Pc, st: PState, chan: int, killed: bool)

  /** count is a C int. started, ups and downs record the initial value and the completed operations,
      and tops how many of the ups found the count at its maximum. */
  datatype Sem = Sem(lock: Holder, count: int, ready: bool, started: int, ups: int, downs: int, tops: int)

  const INT_MAX := 0x7fff_ffff
  const WORD := 0x1_0000_0000

  /** count++ on 32 bits: beyond the maximum it wraps round to the minimum. */
  function Raised(m: Sem): Sem {
    m.(count := if m.count == INT_MAX then m.count + 1 - WORD else m.count + 1, ups := m.ups + 1,
       tops := if m.count == INT_MAX then m.tops + 1 else m.tops)
  }

  /** on[p] is the CPU that runs p, or -1. */
  datatype State = State(proc: seq<Proc>, plock: seq<Holder>, on: seq<int>, cpu: seq<Cpu>, sem: seq<Sem>)

  datatype Call = CInit(i: int, v: int) | CDown(i: int) | CUp(i: int) | CYield | CKill(q: int)

  datatype Action = Run(c: int, call: Call) | Schedule(c: int, k: int)

  const NOCHAN := -1

  predicate Shape(s: State) {
    |s.plock| == |s.on| == |s.proc|
  }

  /** The thread executes on some CPU. */
  predicate OnCpu(pc: Pc) {
    !pc.Asleep? && !pc.Yielded?
  }

  predicate HasSem(pc: Pc) {
    !(pc.User? || pc.YieldEnter? || pc.YieldMark? || pc.Yielded? || pc.YieldResume? || pc.KillEnter? || pc.KillHold?)
  }

  /** The process whose lock the thread of p holds, or -1. */
  function HeldP(pc: Pc, p: int): int {
    if pc.SleepRelease? || pc.SleepMark? || pc.Resume? || pc.YieldMark? || pc.YieldResume? then p
    else if pc.WakeHold? then pc.j
    else if pc.KillHold? then pc.q
    else -1
  }

  /** The thread holds the lock of semaphore pc.i. */
  predicate HoldsSem(pc: Pc) {
    || pc.InitHold? || pc.DownTest? || pc.SleepEnter? || pc.SleepRelease?
    || pc.UpHold? || pc.Wake? || pc.WakeHold? || pc.UpExit?
  }

  /** The indices in a program counter are in range. */
  predicate PcOk(pc: Pc, p: int, procs: int, sems: int) {
    && (HasSem(pc) ==> 0 <= pc.i < sems)
    && (pc.InitEnter? || pc.InitHold? ==> 0 <= pc.v <= INT_MAX)
    && (pc.Wake? ==> 0 <= pc.j <= procs)
    && (pc.WakeHold? ==> 0 <= pc.j < procs && pc.j != p)
    && (pc.KillEnter? || pc.KillHold? ==> 0 <= pc.q < procs)
  }

  predicate StateOk(x: Proc) {
    && (OnCpu(x.pc) ==> x.st == RUNNING)
    && (x.pc.Yielded? ==> x.st == RUNNABLE)
    && (x.pc.Asleep? ==> (x.st == SLEEPING && x.chan == x.pc.i) || x.st == RUNNABLE)
  }

  // The steps of a thread.

  function Set(s: State, p: int, pc: Pc): State
    requires Shape(s) && 0 <= p < |s.proc|
  {
    s.(proc := s.proc[p := s.proc[p].(pc := pc)])
  }

  function AcquireP(s: State, p: int, q: int, pc: Pc): State
    requires Shape(s) && 0 <= p < |s.proc| && 0 <= q < |s.proc|
  {
    if s.plock[q] == Free then Set(s, p, pc).(plock := s.plock[q := Thread(p)]) else s
  }

  function ReleaseP(s: State, p: int, q: int, pc: Pc): State
    requires Shape(s) && 0 <= p < |s.proc| && 0 <= q < |s.proc|
  {
    Set(s, p, pc).(plock := s.plock[q := Free])
  }

  function AcquireS(s: State, p: int, i: int, pc: Pc): State
    requires Shape(s) && 0 <= p < |s.proc| && 0 <= i < |s.sem|
  {
    if s.sem[i].lock == Free then Set(s, p, pc).(sem := s.sem[i := s.sem[i].(lock := Thread(p))]) else s
  }

  /** Releases semaphore i, leaving it as v. */
  function ReleaseS(s: State, p: int, i: int, v: Sem, pc: Pc): State
    requires Shape(s) && 0 <= p < |s.proc| && 0 <= i < |s.sem|
  {
    Set(s, p, pc).(sem := s.sem[i := v.(lock := Free)])
  }

  /** sched(): the thread leaves as x; its CPU c gets the lock that the thread holds on itself. */
  function Switch(s: State, p: int, c: int, x: Proc): State
    requires Shape(s) && 0 <= p < |s.proc| && 0 <= c < |s.cpu|
  {
    s.(proc := s.proc[p := x], plock := s.plock[p := Sched(c)], on := s.on[p := -1], cpu := s.cpu[c := Back(p)])
  }

  /** wakeup's test, and kill's, of process j, whose lock the caller holds. */
  function MadeRunnable(x: Proc): Proc {
    x.(st := RUNNABLE)
  }

  function Syscall(s: State, p: int, call: Call): State
    requires Shape(s) && 0 <= p < |s.proc|
  {
    match call
    case CInit(i, v) => if 0 <= i < |s.sem| && 0 <= v <= INT_MAX then Set(s, p, InitEnter(i, v)) else s
    case CDown(i) => if 0 <= i < |s.sem| then Set(s, p, DownEnter(i)) else s
    case CUp(i) => if 0 <= i < |s.sem| then Set(s, p, UpEnter(i)) else s
    case CYield => Set(s, p, YieldEnter)
    case CKill(q) => if 0 <= q < |s.proc| then Set(s, p, KillEnter(q)) else s
  }

  /** The next action of the thread of p, which runs on CPU c. */
  function ThreadStep(s: State, p: int, c: int, call: Call): State
    requires Shape(s) && 0 <= p < |s.proc| && 0 <= c < |s.cpu|
    requires PcOk(s.proc[p].pc, p, |s.proc|, |s.sem|)
  {
    var x := s.proc[p];
    match x.pc
    case User => Syscall(s, p, call)
    // sem_init
    case InitEnter(i, v) => AcquireS(s, p, i, InitHold(i, v))
    case InitHold(i, v) =>
      var m := s.sem[i];
      ReleaseS(s, p, i, if m.ready then m else m.(count := v, ready := true, started := v), User)
    // sem_down
    case DownEnter(i) => AcquireS(s, p, i, DownTest(i))
    case DownTest(i) =>
      var m := s.sem[i];
      if !m.ready then ReleaseS(s, p, i, m, User)
      else if m.count <= 0 then Set(s, p, SleepEnter(i))
      else ReleaseS(s, p, i, m.(count := m.count - 1, downs := m.downs + 1), User)
    // sleep
    case SleepEnter(i) => AcquireP(s, p, p, SleepRelease(i))
    case SleepRelease(i) => ReleaseS(s, p, i, s.sem[i], SleepMark(i))
    case SleepMark(i) => Switch(s, p, c, x.(pc := Asleep(i), st := SLEEPING, chan := i))
    case Resume(i) =>
      s.(proc := s.proc[p := x.(pc := Relock(i), chan := NOCHAN)], plock := s.plock[p := Free])
    case Relock(i) => AcquireS(s, p, i, DownTest(i))
    // sem_up
    case UpEnter(i) => AcquireS(s, p, i, UpHold(i))
    case UpHold(i) =>
      var m := s.sem[i];
      if !m.ready then ReleaseS(s, p, i, m, User)
      else Set(s, p, Wake(i, 0)).(sem := s.sem[i := Raised(m)])
    // wakeup
    case Wake(i, j) =>
      if j == |s.proc| then Set(s, p, UpExit(i))
      else if j == p then Set(s, p, Wake(i, j + 1))
      else AcquireP(s, p, j, WakeHold(i, j))
    case WakeHold(i, j) =>
      var t := ReleaseP(s, p, j, Wake(i, j + 1));
      if s.proc[j].st == SLEEPING && s.proc[j].chan == i then t.(proc := t.proc[j := MadeRunnable(s.proc[j])]) else t
    case UpExit(i) => ReleaseS(s, p, i, s.sem[i], User)
    // yield
    case YieldEnter => AcquireP(s, p, p, YieldMark)
    case YieldMark => Switch(s, p, c, x.(pc := Yielded, st := RUNNABLE))
    case YieldResume => ReleaseP(s, p, p, User)
    // kill
    case KillEnter(q) => AcquireP(s, p, q, KillHold(q))
    case KillHold(q) =>
      var t := ReleaseP(s, p, q, User);
      var y := t.proc[q].(killed := true);
      t.(proc := t.proc[q := if y.st == SLEEPING then MadeRunnable(y) else y])
    case Asleep(_) => s
    case Yielded => s
  }

  /** The scheduler of CPU c; k is the process its scan has reached. */
  function SchedStep(s: State, c: int, k: int): State
    requires Shape(s) && 0 <= c < |s.cpu| && CpuOk(s, c)
  {
    match s.cpu[c]
    case Scan =>
      if 0 <= k < |s.proc| && s.plock[k] == Free then
        s.(plock := s.plock[k := Sched(c)], cpu := s.cpu[c := Hold(k)])
      else s
    case Hold(q) =>
      var x := s.proc[q];
      if x.st == RUNNABLE then
        s.(proc := s.proc[q := x.(st := RUNNING, pc := if x.pc.Asleep? then Resume(x.pc.i) else YieldResume)],
           plock := s.plock[q := Thread(q)], on := s.on[q := c], cpu := s.cpu[c := In(q)])
      else s.(plock := s.plock[q := Free], cpu := s.cpu[c := Scan])
    case Back(q) => s.(plock := s.plock[q := Free], cpu := s.cpu[c := Scan])
    case In(_) => s
  }

  // What every step keeps.

  predicate CpuOk(s: State, c: int)
    requires Shape(s) && 0 <= c < |s.cpu|
  {
    var x := s.cpu[c];
    && (x.Hold? || x.Back? ==> 0 <= x.k < |s.proc| && s.plock[x.k] == Sched(c))
    && (x.In? ==> 0 <= x.k < |s.proc| && s.on[x.k] == c)
  }

  /** A thread that believes it holds a lock is its recorded owner, is on the CPU that it is
      recorded on, and has the process state that goes with its program counter. */
  predicate ProcOk(s: State, p: int)
    requires Shape(s) && 0 <= p < |s.proc|
  {
    var x := s.proc[p];
    && PcOk(x.pc, p, |s.proc|, |s.sem|)
    && StateOk(x)
    && (HeldP(x.pc, p) != -1 ==> s.plock[HeldP(x.pc, p)] == Thread(p))
    && (HoldsSem(x.pc) ==> s.sem[x.pc.i].lock == Thread(p))
    && (if OnCpu(x.pc) then 0 <= s.on[p] < |s.cpu| && s.cpu[s.on[p]] == In(p) else s.on[p] == -1)
  }

  ghost predicate Base(s: State) {
    && Shape(s)
    && (forall p | 0 <= p < |s.proc| :: ProcOk(s, p))
    && (forall c | 0 <= c < |s.cpu| :: CpuOk(s, c))
  }

  /** What the other processes and CPUs can see of a step of p. */
  ghost predicate Step(s: State, t: State, p: int)
    requires Shape(s) && Shape(t)
  {
    && |t.proc| == |s.proc| && |t.cpu| == |s.cpu| && |t.sem| == |s.sem|
    && (forall q | 0 <= q < |s.proc| && q != p :: SameThread(s.proc[q], t.proc[q]) && t.on[q] == s.on[q])
    && (forall q | 0 <= q < |s.proc| && t.plock[q] != s.plock[q] :: s.plock[q] == Free || s.plock[q] == Thread(p))
    && (forall i | 0 <= i < |s.sem| && t.sem[i].lock != s.sem[i].lock ::
          s.sem[i].lock == Free || s.sem[i].lock == Thread(p))
    && (forall c | 0 <= c < |s.cpu| && t.cpu[c] != s.cpu[c] :: s.cpu[c] == In(p))
  }

  /** Another process may make a thread runnable, or set its killed flag, and nothing else. */
  predicate SameThread(x: Proc, y: Proc) {
    y.pc == x.pc && y.chan == x.chan && (y.st == x.st || (x.st == SLEEPING && y.st == RUNNABLE))
  }

  lemma OtherKeeps(s: State, t: State, p: int, q: int)
    requires Shape(s) && Shape(t) && Step(s, t, p) == true
    requires 0 <= q < |s.proc| && q != p && ProcOk(s, q)
    ensures ProcOk(t, q)
  {
    assert SameThread(s.proc[q], t.proc[q]);
  }

  /** A step of p that the others tolerate and that leaves p and its CPU c in order. */
  ghost predicate Good(s: State, t: State, p: int, c: int)
    requires Shape(s) && 0 <= p < |s.proc| && 0 <= c < |s.cpu|
  {
    Shape(t) && Step(s, t, p) && ProcOk(t, p) && CpuOk(t, c)
  }

  lemma GoodKeepsBase(s: State, t: State, p: int, c: int)
    requires Base(s) == true && Runs(s, p, c) && Good(s, t, p, c) == true
    ensures Base(t)
  {
    forall q | 0 <= q < |t.proc| ensures ProcOk(t, q) {
      if q != p {
        OtherKeeps(s, t, p, q);
      }
    }
    forall d | 0 <= d < |t.cpu| ensures CpuOk(t, d) {
      assert CpuOk(s, d);
    }
  }

  ghost predicate Runs(s: State, p: int, c: int) {
    && Shape(s) && 0 <= p < |s.proc| && 0 <= c < |s.cpu|
    && s.cpu[c] == In(p) && s.on[p] == c && ProcOk(s, p) && OnCpu(s.proc[p].pc)
  }

  /** pc may follow the current program counter of p when p keeps the locks it has. */
  predicate Follows(s: State, p: int, pc: Pc)
    requires Shape(s) && 0 <= p < |s.proc|
  {
    OnCpu(pc) && PcOk(pc, p, |s.proc|, |s.sem|)
  }

  predicate SameHeldP(s: State, p: int, pc: Pc)
    requires Shape(s) && 0 <= p < |s.proc|
  {
    HeldP(pc, p) == -1 || HeldP(pc, p) == HeldP(s.proc[p].pc, p)
  }

  predicate SameHeldS(s: State, p: int, pc: Pc)
    requires Shape(s) && 0 <= p < |s.proc|
  {
    HoldsSem(pc) ==> HoldsSem(s.proc[p].pc) && s.proc[p].pc.i == pc.i
  }

  lemma SetGood(s: State, p: int, c: int, pc: Pc)
    requires Runs(s, p, c) && Follows(s, p, pc) && SameHeldP(s, p, pc) && SameHeldS(s, p, pc)
    ensures Good(s, Set(s, p, pc), p, c)
  {
  }

  lemma AcquirePGood(s: State, p: int, c: int, q: int, pc: Pc)
    requires Runs(s, p, c) && Follows(s, p, pc) && SameHeldS(s, p, pc)
    requires 0 <= q < |s.proc| && HeldP(pc, p) == q
    ensures Good(s, AcquireP(s, p, q, pc), p, c)
  {
  }

  lemma ReleasePGood(s: State, p: int, c: int, q: int, pc: Pc)
    requires Runs(s, p, c) && Follows(s, p, pc) && SameHeldS(s, p, pc)
    requires 0 <= q < |s.proc| && HeldP(s.proc[p].pc, p) == q && HeldP(pc, p) == -1
    ensures Good(s, ReleaseP(s, p, q, pc), p, c)
  {
  }

  lemma AcquireSGood(s: State, p: int, c: int, i: int, pc: Pc)
    requires Runs(s, p, c) && Follows(s, p, pc) && HeldP(pc, p) == -1
    requires 0 <= i < |s.sem| && HoldsSem(pc) && pc.i == i
    ensures Good(s, AcquireS(s, p, i, pc), p, c)
  {
  }

  lemma ReleaseSGood(s: State, p: int, c: int, i: int, v: Sem, pc: Pc)
    requires Runs(s, p, c) && Follows(s, p, pc) && SameHeldP(s, p, pc) && !HoldsSem(pc)
    requires 0 <= i < |s.sem| && HoldsSem(s.proc[p].pc) && s.proc[p].pc.i == i
    ensures Good(s, ReleaseS(s, p, i, v, pc), p, c)
  {
  }

  lemma SwitchGood(s: State, p: int, c: int, x: Proc)
    requires Runs(s, p, c) && HeldP(s.proc[p].pc, p) == p
    requires !OnCpu(x.pc) && PcOk(x.pc, p, |s.proc|, |s.sem|) && StateOk(x)
    ensures Good(s, Switch(s, p, c, x), p, c)
  {
  }

  /** Waking a process whose lock p holds, on top of a good step. */
  lemma WakeGood(s: State, t: State, p: int, c: int, j: int, y: Proc)
    requires Runs(s, p, c) && Good(s, t, p, c) == true
    requires 0 <= j < |s.proc| && j != p && SameThread(t.proc[j], y) && SameThread(s.proc[j], y)
    ensures Good(s, t.(proc := t.proc[j := y]), p, c)
  {
  }

  lemma SemGood(s: State, p: int, c: int, call: Call)
    requires Runs(s, p, c) && HasSem(s.proc[p].pc)
    ensures Good(s, ThreadStep(s, p, c, call), p, c) == true
  {
    match s.proc[p].pc
    case InitEnter(i, v) => AcquireSGood(s, p, c, i, InitHold(i, v));
    case InitHold(i, v) =>
      var m := s.sem[i];
      ReleaseSGood(s, p, c, i, if m.ready then m else m.(count := v, ready := true, started := v), User);
    case DownEnter(i) => AcquireSGood(s, p, c, i, DownTest(i));
    case DownTest(i) => DownGood(s, p, c);
    case UpEnter(i) => AcquireSGood(s, p, c, i, UpHold(i));
    case UpHold(i) => UpGood(s, p, c);
    case UpExit(i) => ReleaseSGood(s, p, c, i, s.sem[i], User);
    case Wake(i, j) => WakeupGood(s, p, c, call);
    case WakeHold(i, j) => WakeOneGood(s, p, c, call);
    case _ => SleepGood(s, p, c, call);
  }

  lemma SleepGood(s: State, p: int, c: int, call: Call)
    requires Runs(s, p, c) && IsSleeping(s.proc[p].pc)
    ensures Good(s, ThreadStep(s, p, c, call), p, c) == true
  {
    var x := s.proc[p];
    match x.pc
    case SleepEnter(i) => AcquirePGood(s, p, c, p, SleepRelease(i));
    case SleepRelease(i) => ReleaseSGood(s, p, c, i, s.sem[i], SleepMark(i));
    case SleepMark(i) => SwitchGood(s, p, c, x.(pc := Asleep(i), st := SLEEPING, chan := i));
    case Resume(i) => assert Good(s, ThreadStep(s, p, c, call), p, c);
    case Relock(i) => AcquireSGood(s, p, c, i, DownTest(i));
  }

  lemma WakeupGood(s: State, p: int, c: int, call: Call)
    requires Runs(s, p, c) && s.proc[p].pc.Wake?
    ensures Good(s, ThreadStep(s, p, c, call), p, c) == true
  {
    var i, j := s.proc[p].pc.i, s.proc[p].pc.j;
    if j == |s.proc| {
      SetGood(s, p, c, UpExit(i));
    } else if j == p {
      SetGood(s, p, c, Wake(i, j + 1));
    } else {
      AcquirePGood(s, p, c, j, WakeHold(i, j));
    }
  }

  lemma WakeOneGood(s: State, p: int, c: int, call: Call)
    requires Runs(s, p, c) && s.proc[p].pc.WakeHold?
    ensures Good(s, ThreadStep(s, p, c, call), p, c) == true
  {
    var i, j := s.proc[p].pc.i, s.proc[p].pc.j;
    ReleasePGood(s, p, c, j, Wake(i, j + 1));
    if s.proc[j].st == SLEEPING && s.proc[j].chan == i {
      WakeGood(s, ReleaseP(s, p, j, Wake(i, j + 1)), p, c, j, MadeRunnable(s.proc[j]));
    }
  }

  lemma ThreadGood(s: State, p: int, c: int, call: Call)
    requires Runs(s, p, c)
    ensures Good(s, ThreadStep(s, p, c, call), p, c) == true
  {
    match s.proc[p].pc
    case User => SyscallGood(s, p, c, call);
    case YieldEnter => AcquirePGood(s, p, c, p, YieldMark);
    case YieldMark => SwitchGood(s, p, c, s.proc[p].(pc := Yielded, st := RUNNABLE));
    case YieldResume => ReleasePGood(s, p, c, p, User);
    case KillEnter(q) => AcquirePGood(s, p, c, q, KillHold(q));
    case KillHold(q) => KillGood(s, p, c);
    case _ => SemGood(s, p, c, call);
  }

  lemma SyscallGood(s: State, p: int, c: int, call: Call)
    requires Runs(s, p, c)
    ensures Good(s, Syscall(s, p, call), p, c) == true
  {
    match call
    case CInit(i, v) => if 0 <= i < |s.sem| && 0 <= v <= INT_MAX { SetGood(s, p, c, InitEnter(i, v)); }
    case CDown(i) => if 0 <= i < |s.sem| { SetGood(s, p, c, DownEnter(i)); }
    case CUp(i) => if 0 <= i < |s.sem| { SetGood(s, p, c, UpEnter(i)); }
    case CYield => SetGood(s, p, c, YieldEnter);
    case CKill(q) => if 0 <= q < |s.proc| { SetGood(s, p, c, KillEnter(q)); }
  }

  lemma DownGood(s: State, p: int, c: int)
    requires Runs(s, p, c) && s.proc[p].pc.DownTest?
    ensures Good(s, ThreadStep(s, p, c, CYield), p, c) == true
  {
    var i := s.proc[p].pc.i;
    var m := s.sem[i];
    if !m.ready {
      ReleaseSGood(s, p, c, i, m, User);
    } else if m.count <= 0 {
      SetGood(s, p, c, SleepEnter(i));
    } else {
      ReleaseSGood(s, p, c, i, m.(count := m.count - 1, downs := m.downs + 1), User);
    }
  }

  lemma UpGood(s: State, p: int, c: int)
    requires Runs(s, p, c) && s.proc[p].pc.UpHold?
    ensures Good(s, ThreadStep(s, p, c, CYield), p, c) == true
  {
    var i := s.proc[p].pc.i;
    if !s.sem[i].ready {
      ReleaseSGood(s, p, c, i, s.sem[i], User);
    } else {
      SetGood(s, p, c, Wake(i, 0));
    }
  }

  lemma KillGood(s: State, p: int, c: int)
    requires Runs(s, p, c) && s.proc[p].pc.KillHold?
    ensures Good(s, ThreadStep(s, p, c, CYield), p, c) == true
  {
    var q := s.proc[p].pc.q;
    ReleasePGood(s, p, c, q, User);
    var t := ReleaseP(s, p, q, User);
    var y := t.proc[q].(killed := true);
    if q != p {
      WakeGood(s, t, p, c, q, if y.st == SLEEPING then MadeRunnable(y) else y);
    }
  }

  lemma SchedKeepsBase(s: State, c: int, k: int)
    requires Base(s) == true && 0 <= c < |s.cpu| && CpuOk(s, c)
    ensures Base(SchedStep(s, c, k))
  {
    var t := SchedStep(s, c, k);
    if s.cpu[c].Hold? {
      assert ProcOk(s, s.cpu[c].k);
    }
    forall q | 0 <= q < |t.proc| ensures ProcOk(t, q) {
      assert ProcOk(s, q);
    }
    forall d | 0 <= d < |t.cpu| ensures CpuOk(t, d) {
      assert CpuOk(s, d);
    }
  }

  // No lost wakeup.

  /** Asleep on semaphore i, or past the point of no return on the way there. */
  predicate Down(x: Proc, i: int) {
    x.pc == SleepMark(i) || (x.pc == Asleep(i) && x.st == SLEEPING)
  }

  /** The holder of the lock of semaphore i is inside wakeup and has yet to look at process q. */
  predicate Pending(s: State, i: int, q: int)
    requires 0 <= i < |s.sem|
  {
    var h := s.sem[i].lock;
    && h.Thread? && 0 <= h.p < |s.proc|
    && (s.proc[h.p].pc.Wake? || s.proc[h.p].pc.WakeHold?)
    && s.proc[h.p].pc.i == i && s.proc[h.p].pc.j <= q
  }

  predicate NotLost(s: State, i: int, q: int)
    requires 0 <= i < |s.sem| && 0 <= q < |s.proc|
  {
    Down(s.proc[q], i) && s.sem[i].count > 0 ==> Pending(s, i, q)
  }

  predicate IsSleeping(pc: Pc) {
    pc.SleepEnter? || pc.SleepRelease? || pc.SleepMark? || pc.Asleep? || pc.Resume? || pc.Relock?
  }

  /** A thread goes to sleep only on an initialised semaphore, having seen its count at zero. */
  predicate Tested(s: State, p: int)
    requires 0 <= p < |s.proc|
  {
    var pc := s.proc[p].pc;
    && (IsSleeping(pc) ==> 0 <= pc.i < |s.sem| && s.sem[pc.i].ready)
    && (pc.SleepEnter? || pc.SleepRelease? ==> s.sem[pc.i].count <= 0)
  }

  /** Up to 32-bit overflow the count is the initial value plus the ups minus the downs. */
  predicate Tally(m: Sem) {
    && m.count == m.started + m.ups - m.downs - WORD * m.tops && -INT_MAX - 1 <= m.count <= INT_MAX
    && m.tops >= 0 && (m.tops == 0 ==> m.count >= 0)
    && (!m.ready ==> m.count == m.started == m.ups == m.downs == m.tops == 0)
  }

  /** The count is the initial value plus the ups minus the downs, and not negative. */
  predicate Conserved(m: Sem) {
    m.count == m.started + m.ups - m.downs && m.count >= 0
  }

  ghost predicate Inv(s: State) {
    && Base(s)
    && (forall p | 0 <= p < |s.proc| :: Tested(s, p))
    && (forall i, q | 0 <= i < |s.sem| && 0 <= q < |s.proc| :: NotLost(s, i, q))
    && (forall i | 0 <= i < |s.sem| :: Tally(s.sem[i]))
  }

  /** What a step of p does to the semaphores. */
  ghost predicate SemsStep(s: State, t: State, p: int)
    requires |t.sem| == |s.sem|
  {
    forall i | 0 <= i < |s.sem| && t.sem[i] != s.sem[i] ::
      && (s.sem[i].ready ==> t.sem[i].ready)
      && (t.sem[i].count != s.sem[i].count ==> s.sem[i].lock == Thread(p))
  }

  lemma OtherTested(s: State, t: State, p: int, q: int)
    requires Shape(s) && Shape(t) && Step(s, t, p) == true && SemsStep(s, t, p) == true
    requires 0 <= q < |s.proc| && q != p && ProcOk(s, q) && Tested(s, q)
    ensures Tested(t, q)
  {
    assert SameThread(s.proc[q], t.proc[q]);
  }

  ghost predicate Tallied(s: State) {
    forall i | 0 <= i < |s.sem| :: Tally(s.sem[i])
  }

  lemma ThreadSems(s: State, p: int, c: int, call: Call)
    requires Runs(s, p, c) && |ThreadStep(s, p, c, call).sem| == |s.sem|
    ensures SemsStep(s, ThreadStep(s, p, c, call), p) == true
  {
  }

  /** Only sem_init, sem_down and sem_up change more of a semaphore than its lock. */
  lemma LockOnly(s: State, p: int, c: int, call: Call, i: int)
    requires Runs(s, p, c) && 0 <= i < |s.sem|
    requires !s.proc[p].pc.InitHold? && !s.proc[p].pc.DownTest? && !s.proc[p].pc.UpHold?
    ensures var t := ThreadStep(s, p, c, call); |t.sem| == |s.sem| && t.sem[i] == s.sem[i].(lock := t.sem[i].lock)
  {
  }

  lemma ThreadTally(s: State, p: int, c: int, call: Call, i: int)
    requires Runs(s, p, c) && 0 <= i < |s.sem| && Tally(s.sem[i])
    ensures var t := ThreadStep(s, p, c, call); |t.sem| == |s.sem| && Tally(t.sem[i])
  {
    var pc := s.proc[p].pc;
    if !pc.InitHold? && !pc.DownTest? && !pc.UpHold? {
      LockOnly(s, p, c, call, i);
    }
  }

  lemma ThreadTallied(s: State, p: int, c: int, call: Call)
    requires Runs(s, p, c) && Tallied(s) == true && |ThreadStep(s, p, c, call).sem| == |s.sem|
    ensures Tallied(ThreadStep(s, p, c, call)) == true
  {
    forall i | 0 <= i < |s.sem| ensures Tally(ThreadStep(s, p, c, call).sem[i]) {
      assert Tally(s.sem[i]);
      ThreadTally(s, p, c, call, i);
    }
  }

  lemma SleepTested(s: State, p: int, c: int, call: Call)
    requires Runs(s, p, c) && Tested(s, p)
    requires IsSleeping(s.proc[p].pc)
    ensures |ThreadStep(s, p, c, call).proc| == |s.proc|
    ensures Tested(ThreadStep(s, p, c, call), p) == true
  {
  }

  lemma WakeTested(s: State, p: int, c: int, call: Call)
    requires Runs(s, p, c) && Tested(s, p)
    requires !(IsSleeping(s.proc[p].pc))
    requires s.proc[p].pc.Wake? || s.proc[p].pc.WakeHold? || s.proc[p].pc.User?
    ensures |ThreadStep(s, p, c, call).proc| == |s.proc|
    ensures Tested(ThreadStep(s, p, c, call), p) == true
  {
  }

  lemma StepTested(s: State, p: int, c: int, call: Call)
    requires Runs(s, p, c) && Tested(s, p)
    requires !(IsSleeping(s.proc[p].pc))
    requires !(s.proc[p].pc.Wake? || s.proc[p].pc.WakeHold? || s.proc[p].pc.User?)
    ensures |ThreadStep(s, p, c, call).proc| == |s.proc|
    ensures Tested(ThreadStep(s, p, c, call), p) == true
  {
  }

  lemma CallTested(s: State, p: int, c: int, call: Call)
    requires Runs(s, p, c) && Tested(s, p)
    requires !(IsSleeping(s.proc[p].pc))
    ensures |ThreadStep(s, p, c, call).proc| == |s.proc|
    ensures Tested(ThreadStep(s, p, c, call), p) == true
  {
    if s.proc[p].pc.Wake? || s.proc[p].pc.WakeHold? || s.proc[p].pc.User? {
      WakeTested(s, p, c, call);
    } else {
      StepTested(s, p, c, call);
    }
  }

  lemma ThreadTested(s: State, p: int, c: int, call: Call)
    requires Runs(s, p, c) && Tested(s, p)
    ensures |ThreadStep(s, p, c, call).proc| == |s.proc|
    ensures Tested(ThreadStep(s, p, c, call), p) == true
  {
    if IsSleeping(s.proc[p].pc) {
      SleepTested(s, p, c, call);
    } else {
      CallTested(s, p, c, call);
    }
  }

  /** wakeup leaves nobody behind: a process it has passed is no longer asleep on the semaphore. */
  lemma WakeupNotLost(s: State, p: int, c: int, call: Call, i: int, q: int)
    requires Runs(s, p, c) && Tested(s, p)
    requires 0 <= i < |s.sem| && 0 <= q < |s.proc| && ProcOk(s, q) && Tested(s, q) && NotLost(s, i, q)
    requires s.proc[p].pc.Wake? || s.proc[p].pc.WakeHold?
    ensures |ThreadStep(s, p, c, call).proc| == |s.proc| && |ThreadStep(s, p, c, call).sem| == |s.sem|
    ensures NotLost(ThreadStep(s, p, c, call), i, q) == true
  {
  }

  /** Raising the count starts a wakeup; lowering it, or letting go of the lock, loses none. */
  lemma CountNotLost(s: State, p: int, c: int, call: Call, i: int, q: int)
    requires Runs(s, p, c) && Tested(s, p)
    requires 0 <= i < |s.sem| && 0 <= q < |s.proc| && ProcOk(s, q) && Tested(s, q) && NotLost(s, i, q)
    requires HasSem(s.proc[p].pc) && !IsSleeping(s.proc[p].pc) && !s.proc[p].pc.Wake? && !s.proc[p].pc.WakeHold?
    ensures |ThreadStep(s, p, c, call).proc| == |s.proc| && |ThreadStep(s, p, c, call).sem| == |s.sem|
    ensures NotLost(ThreadStep(s, p, c, call), i, q) == true
  {
  }

  /** A thread commits to sleeping only while the count is zero. */
  lemma SleepNotLost(s: State, p: int, c: int, call: Call, i: int, q: int)
    requires Runs(s, p, c) && Tested(s, p)
    requires 0 <= i < |s.sem| && 0 <= q < |s.proc| && ProcOk(s, q) && Tested(s, q) && NotLost(s, i, q)
    requires IsSleeping(s.proc[p].pc)
    ensures |ThreadStep(s, p, c, call).proc| == |s.proc| && |ThreadStep(s, p, c, call).sem| == |s.sem|
    ensures NotLost(ThreadStep(s, p, c, call), i, q) == true
  {
  }

  lemma ThreadNotLost(s: State, p: int, c: int, call: Call, i: int, q: int)
    requires Runs(s, p, c) && Tested(s, p)
    requires 0 <= i < |s.sem| && 0 <= q < |s.proc| && ProcOk(s, q) && Tested(s, q) && NotLost(s, i, q)
    ensures |ThreadStep(s, p, c, call).proc| == |s.proc| && |ThreadStep(s, p, c, call).sem| == |s.sem|
    ensures NotLost(ThreadStep(s, p, c, call), i, q) == true
  {
    if s.proc[p].pc.Wake? || s.proc[p].pc.WakeHold? {
      WakeupNotLost(s, p, c, call, i, q);
    } else if IsSleeping(s.proc[p].pc) {
      SleepNotLost(s, p, c, call, i, q);
    } else if HasSem(s.proc[p].pc) {
      CountNotLost(s, p, c, call, i, q);
    }
  }

  lemma ThreadKeeps(s: State, p: int, c: int, call: Call)
    requires Inv(s) == true && Runs(s, p, c)
    ensures Inv(ThreadStep(s, p, c, call))
  {
    var t := ThreadStep(s, p, c, call);
    ThreadGood(s, p, c, call);
    GoodKeepsBase(s, t, p, c);
    ThreadSems(s, p, c, call);
    assert Tallied(s) && Tested(s, p);
    ThreadTallied(s, p, c, call);
    ThreadTested(s, p, c, call);
    forall q | 0 <= q < |t.proc| ensures Tested(t, q) {
      if q != p {
        OtherTested(s, t, p, q);
      }
    }
    forall i, q | 0 <= i < |t.sem| && 0 <= q < |t.proc| ensures NotLost(t, i, q) {
      assert NotLost(s, i, q) && ProcOk(s, q) && Tested(s, q);
      ThreadNotLost(s, p, c, call, i, q);
    }
  }

  lemma SchedKeeps(s: State, c: int, k: int)
    requires Inv(s) == true && 0 <= c < |s.cpu| && CpuOk(s, c)
    ensures Inv(SchedStep(s, c, k))
  {
    var t := SchedStep(s, c, k);
    SchedKeepsBase(s, c, k);
    if s.cpu[c].Hold? {
      assert ProcOk(s, s.cpu[c].k);
    }
    forall q | 0 <= q < |t.proc| ensures Tested(t, q) {
      assert Tested(s, q);
    }
    forall i, q | 0 <= i < |t.sem| && 0 <= q < |t.proc| ensures NotLost(t, i, q) {
      assert NotLost(s, i, q);
      SchedNotLost(s, c, k, i, q);
    }
  }

  lemma SchedNotLost(s: State, c: int, k: int, i: int, q: int)
    requires Shape(s) && 0 <= c < |s.cpu| && CpuOk(s, c) && 0 <= i < |s.sem| && 0 <= q < |s.proc|
    requires s.cpu[c].Hold? ==> ProcOk(s, s.cpu[c].k)
    requires NotLost(s, i, q)
    ensures var t := SchedStep(s, c, k); |t.proc| == |s.proc| && |t.sem| == |s.sem|
    ensures NotLost(SchedStep(s, c, k), i, q) == true
  {
  }

  // Whole runs.

  ghost predicate Enabled(s: State, a: Action) {
    match a
    case Run(c, _) => 0 <= c < |s.cpu| && s.cpu[c].In?
    case Schedule(c, _) => 0 <= c < |s.cpu|
  }

  ghost function Do(s: State, a: Action): (t: State)
    requires Inv(s) && Enabled(s, a)
    ensures Inv(t)
  {
    assert CpuOk(s, a.c);
    match a
    case Run(c, call) =>
      assert ProcOk(s, s.cpu[c].k);
      ThreadKeeps(s, s.cpu[c].k, c, call);
      ThreadStep(s, s.cpu[c].k, c, call)
    case Schedule(c, k) =>
      SchedKeeps(s, c, k);
      SchedStep(s, c, k)
  }

  ghost predicate Possible(s: State, run: seq<Action>)
    requires Inv(s)
    decreases |run|, 0
  {
    run == [] ||
    (Possible(s, run[..|run| - 1]) && Enabled(Exec(s, run[..|run| - 1]), run[|run| - 1]))
  }

  ghost function Exec(s: State, run: seq<Action>): (t: State)
    requires Inv(s) && Possible(s, run)
    ensures Inv(t)
    decreases |run|, 1
  {
    if run == [] then s else Do(Exec(s, run[..|run| - 1]), run[|run| - 1])
  }

  /** Processes waiting to run, idle CPUs, every lock free, no semaphore initialised. */
  ghost predicate Init(s: State) {
    && Shape(s)
    && (forall p | 0 <= p < |s.proc| :: s.proc[p] == Proc(Yielded, RUNNABLE, NOCHAN, false) && s.on[p] == -1)
    && (forall c | 0 <= c < |s.cpu| :: s.cpu[c] == Scan)
    && (forall i | 0 <= i < |s.sem| :: s.sem[i] == Sem(Free, 0, false, 0, 0, 0, 0))
  }

  lemma InitInv(s: State)
    requires Init(s)
    ensures Inv(s)
  {
  }

  /** No lost wakeup: when a semaphore is available and its lock is free, nobody is asleep on
      it or committed to sleeping. */
  lemma NoLostWakeup(s: State, run: seq<Action>, i: int, q: int)
    requires Init(s) && 0 <= i < |s.sem| && 0 <= q < |s.proc|
    ensures Inv(s)
    ensures Possible(s, run) ==>
              var t := Exec(s, run);
              && 0 <= i < |t.sem| && 0 <= q < |t.proc|
              && (t.sem[i].lock == Free && t.sem[i].count > 0 ==> !Down(t.proc[q], i))
  {
    InitInv(s);
    if Possible(s, run) {
      SizesKept(s, run);
      assert NotLost(Exec(s, run), i, q);
    }
  }

  /** Conservation: in every run the count is the initial value plus ups minus downs, and not negative,
      if and only if no sem_up has found it at 2^31 - 1. */
  lemma CountConserved(s: State, run: seq<Action>, i: int)
    requires Init(s) && 0 <= i < |s.sem|
    ensures Inv(s)
    ensures Possible(s, run) ==>
              var t := Exec(s, run);
              0 <= i < |t.sem| && (Conserved(t.sem[i]) <==> t.sem[i].tops == 0)
  {
    InitInv(s);
    if Possible(s, run) {
      SizesKept(s, run);
      assert Tally(Exec(s, run).sem[i]);
    }
  }

  /** One step: a conserved count stays so exactly unless this is a sem_up that finds the maximum. */
  lemma StepConserves(s: State, p: int, c: int, call: Call, i: int)
    requires Inv(s) == true && Runs(s, p, c) && 0 <= i < |s.sem| && Conserved(s.sem[i])
    ensures |ThreadStep(s, p, c, call).sem| == |s.sem|
    ensures Conserved(ThreadStep(s, p, c, call).sem[i]) <==>
              !(s.proc[p].pc == UpHold(i) && s.sem[i].ready && s.sem[i].count == INT_MAX)
  {
    assert Tally(s.sem[i]);
  }

  /** One process, one CPU and one semaphore, with the process about to enter the kernel. */
  function Alone(pc: Pc, m: Sem): State {
    State([Proc(pc, RUNNING, NOCHAN, false)], [Free], [0], [In(0)], [m])
  }

  /** sem_init with the largest value and then sem_up leave a negative count. */
  lemma OverflowRun() returns (s: State, run: seq<Action>)
    ensures Init(s) && |s.sem| == 1 && Inv(s) && Possible(s, run)
    ensures var t := Exec(s, run); |t.sem| == 1 && t.sem[0].count == -INT_MAX - 1 && !Conserved(t.sem[0])
  {
    s := State([Proc(Yielded, RUNNABLE, NOCHAN, false)], [Free], [-1], [Scan], [Sem(Free, 0, false, 0, 0, 0, 0)]);
    InitInv(s);
    run := StartRun(s);
    run := InitRun(s, run);
    run := UpRun(s, run);
  }

  /** One more step, which gives t. */
  lemma Next(s: State, run: seq<Action>, a: Action, t: State) returns (more: seq<Action>)
    requires Inv(s) == true && Possible(s, run) && Enabled(Exec(s, run), a) && Do(Exec(s, run), a) == t
    ensures more == run + [a] && Possible(s, more) && Exec(s, more) == t
  {
    more := run + [a];
    assert more[..|more| - 1] == run;
  }

  lemma StartRun(s: State) returns (run: seq<Action>)
    requires Inv(s) == true
    requires s == State([Proc(Yielded, RUNNABLE, NOCHAN, false)], [Free], [-1], [Scan],
                        [Sem(Free, 0, false, 0, 0, 0, 0)])
    ensures Possible(s, run) && Exec(s, run) == Alone(User, Sem(Free, 0, false, 0, 0, 0, 0))
  {
    var m := Sem(Free, 0, false, 0, 0, 0, 0);
    run := [];
    run := Next(s, run, Schedule(0, 0), State([Proc(Yielded, RUNNABLE, NOCHAN, false)], [Sched(0)], [-1], [Hold(0)],
                                              [m]));
    run := Next(s, run, Schedule(0, 0), State([Proc(YieldResume, RUNNING, NOCHAN, false)], [Thread(0)], [0], [In(0)],
                                              [m]));
    run := Next(s, run, Run(0, CYield), Alone(User, m));
  }

  lemma InitRun(s: State, before: seq<Action>) returns (run: seq<Action>)
    requires Inv(s) == true && Possible(s, before) && Exec(s, before) == Alone(User, Sem(Free, 0, false, 0, 0, 0, 0))
    ensures Possible(s, run) && Exec(s, run) == Alone(User, Sem(Free, INT_MAX, true, INT_MAX, 0, 0, 0))
  {
    run := Next(s, before, Run(0, CInit(0, INT_MAX)), Alone(InitEnter(0, INT_MAX), Sem(Free, 0, false, 0, 0, 0, 0)));
    run := Next(s, run, Run(0, CYield), Alone(InitHold(0, INT_MAX), Sem(Thread(0), 0, false, 0, 0, 0, 0)));
    run := Next(s, run, Run(0, CYield), Alone(User, Sem(Free, INT_MAX, true, INT_MAX, 0, 0, 0)));
  }

  lemma UpRun(s: State, before: seq<Action>) returns (run: seq<Action>)
    requires Inv(s) == true && Possible(s, before)
    requires Exec(s, before) == Alone(User, Sem(Free, INT_MAX, true, INT_MAX, 0, 0, 0))
    ensures Possible(s, run) && Exec(s, run) == Alone(Wake(0, 0), Sem(Thread(0), -INT_MAX - 1, true, INT_MAX, 1, 0, 1))
  {
    run := EnterRun(s, before);
    run := Next(s, run, Run(0, CYield), Alone(Wake(0, 0), Sem(Thread(0), -INT_MAX - 1, true, INT_MAX, 1, 0, 1)));
  }

  lemma EnterRun(s: State, before: seq<Action>) returns (run: seq<Action>)
    requires Inv(s) == true && Possible(s, before)
    requires Exec(s, before) == Alone(User, Sem(Free, INT_MAX, true, INT_MAX, 0, 0, 0))
    ensures Possible(s, run) && Exec(s, run) == Alone(UpHold(0), Sem(Thread(0), INT_MAX, true, INT_MAX, 0, 0, 0))
  {
    run := Next(s, before, Run(0, CUp(0)), Alone(UpEnter(0), Sem(Free, INT_MAX, true, INT_MAX, 0, 0, 0)));
    run := Next(s, run, Run(0, CYield), Alone(UpHold(0), Sem(Thread(0), INT_MAX, true, INT_MAX, 0, 0, 0)));
  }

  ghost predicate IsCurrent(s: State, p: int, c: int) {
    0 <= c < |s.cpu| && (s.cpu[c] == In(p) || s.cpu[c] == Back(p))
  }

  /** A process whose lock is free is RUNNING exactly when some CPU has it as its current
      process, and then only one does. */
  lemma RunningIsCurrent(s: State, run: seq<Action>, p: int)
    requires Init(s) && 0 <= p < |s.proc|
    ensures Inv(s)
    ensures Possible(s, run) ==>
              var t := Exec(s, run);
              && 0 <= p < |t.proc| == |t.plock|
              && (t.plock[p] == Free ==>
                    && (t.proc[p].st == RUNNING <==> exists c :: IsCurrent(t, p, c))
                    && forall c, d :: IsCurrent(t, p, c) && IsCurrent(t, p, d) ==> c == d)
  {
    InitInv(s);
    if Possible(s, run) {
      SizesKept(s, run);
      CurrentUnique(Exec(s, run), p);
    }
  }

  lemma CurrentUnique(t: State, p: int)
    requires Inv(t) == true && 0 <= p < |t.proc|
    ensures t.plock[p] == Free ==>
              && (t.proc[p].st == RUNNING <==> exists c :: IsCurrent(t, p, c))
              && forall c, d :: IsCurrent(t, p, c) && IsCurrent(t, p, d) ==> c == d
  {
    assert ProcOk(t, p);
    if t.plock[p] == Free {
      forall c | IsCurrent(t, p, c) ensures c == t.on[p] {
        assert CpuOk(t, c);
      }
      if t.proc[p].st == RUNNING {
        assert IsCurrent(t, p, t.on[p]);
      }
    }
  }

  lemma {:induction false} SizesKept(s: State, run: seq<Action>)
    requires Inv(s) == true && Possible(s, run)
    ensures var t := Exec(s, run); |t.proc| == |s.proc| && |t.sem| == |s.sem| && |t.cpu| == |s.cpu|
    decreases |run|
  {
    if run != [] {
      SizesKept(s, run[..|run| - 1]);
      StepSizes(Exec(s, run[..|run| - 1]), run[|run| - 1]);
    }
  }

  lemma StepSizes(s: State, a: Action)
    requires Inv(s) == true && Enabled(s, a)
    ensures var t := Do(s, a); |t.proc| == |s.proc| && |t.sem| == |s.sem| && |t.cpu| == |s.cpu|
  {
    assert CpuOk(s, a.c);
    match a
    case Run(c, call) =>
      assert ProcOk(s, s.cpu[c].k);
      ThreadGood(s, s.cpu[c].k, c, call);
    case Schedule(c, k) =>
  }
}
