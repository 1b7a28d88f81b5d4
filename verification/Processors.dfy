/** The CPUs of kernel/proc.c under fork, exit, wait, kill and yield: which CPU runs which process, and
    how the process lock is handed over in swtch. A CPU's step is one step of the processes of module
    ExitWait, so everything proved there holds for every run here. */
module Processors {
  import opened ExitWait

  /** A CPU looks for a process, holds the lock of process k, runs it, or is just back from it. */
  datatype Cpu = Scan | Hold(k: int) | In(k: int) | Back(k: int)

  /** on[p] is the CPU that runs p, and lent[p] the CPU whose scheduler holds the lock of p, or -1. */
  datatype Machine = Machine(m: State, cpu: seq<Cpu>, on: seq<int>, lent: seq<int>)

  /** The thread on CPU c makes its next step, or the scheduler of c does; k is the process that its
      scan has reached. */
  datatype Move = Go(c: int, choice: Choice) | Schedule(c: int, k: int)

  predicate Fits(s: Machine) {
    Shape(s.m) && |s.on| == |s.lent| == |s.m.proc|
  }

  predicate IsCpu(s: Machine, c: int) {
    0 <= c < |s.cpu|
  }

  // What every step keeps.

  predicate CpuOk(s: Machine, c: int)
    requires Fits(s) && IsCpu(s, c)
  {
    var x := s.cpu[c];
    && (x.Hold? || x.Back? ==> IsProc(s.m, x.k) && s.m.plock[x.k] == Sched && s.lent[x.k] == c)
    && (x.In? ==> IsProc(s.m, x.k) && s.on[x.k] == c)
  }

  /** A thread is on the CPU that runs it exactly while it executes; a lock lent to a scheduler is with
      one that knows. */
  predicate PlaceOk(s: Machine, p: int)
    requires Fits(s) && IsProc(s.m, p)
  {
    && (if OnCpu(s.m.proc[p].pc) then IsCpu(s, s.on[p]) && s.cpu[s.on[p]] == In(p) else s.on[p] == -1)
    && (s.m.plock[p] == Sched ==> IsCpu(s, s.lent[p]) && (s.cpu[s.lent[p]] == Hold(p) || s.cpu[s.lent[p]] == Back(p)))
  }

  ghost predicate Wired(s: Machine)
    requires Fits(s)
  {
    && (forall c {:trigger CpuOk(s, c)} | 0 <= c < |s.cpu| :: CpuOk(s, c))
    && (forall p {:trigger PlaceOk(s, p)} | 0 <= p < |s.m.proc| :: PlaceOk(s, p))
  }

  ghost predicate Inv2(s: Machine) {
    Fits(s) && Inv(s.m) == true && Wired(s)
  }

  // Steps.

  /** The thread of p has left CPU c for its scheduler. */
  predicate Left(m: State, n: State, p: int) {
    IsProc(m, p) && IsProc(n, p) && OnCpu(m.proc[p].pc) && !OnCpu(n.proc[p].pc)
  }

  function GoStep(s: Machine, c: int, ch: Choice): Machine
    requires Fits(s) && IsCpu(s, c) && s.cpu[c].In? && IsProc(s.m, s.cpu[c].k)
    requires PcOk(s.m.proc[s.cpu[c].k].pc, s.cpu[c].k, |s.m.proc|)
  {
    var p := s.cpu[c].k;
    Went(s, c, p, ThreadStep(s.m, p, ch))
  }

  function ScheduleStep(s: Machine, c: int, k: int): Machine
    requires Fits(s) && IsCpu(s, c) && CpuOk(s, c)
  {
    match s.cpu[c]
    case Scan =>
      if IsProc(s.m, k) && s.m.plock[k] == Free then
        Machine(TakeStep(s.m, k), s.cpu[c := Hold(k)], s.on, s.lent[k := c])
      else s
    case Hold(q) =>
      if s.m.proc[q].st == RUNNABLE then
        Machine(DispatchStep(s.m, q), s.cpu[c := In(q)], s.on[q := c], s.lent[q := -1])
      else Machine(DropStep(s.m, q), s.cpu[c := Scan], s.on, s.lent[q := -1])
    case Back(q) => Machine(DropStep(s.m, q), s.cpu[c := Scan], s.on, s.lent[q := -1])
    case In(_) => s
  }

  /** What a step of thread p does to who executes and to the locks of schedulers: p alone may leave its
      CPU, and its own lock then goes to the scheduler. */
  predicate Outside(m: State, n: State, p: int, q: int) {
    && Shape(m) && Shape(n) && |n.proc| == |m.proc| && IsProc(m, p) && IsProc(m, q)
    && (q != p ==> OnCpu(n.proc[q].pc) == OnCpu(m.proc[q].pc))
    && (n.plock[q] == Sched <==> m.plock[q] == Sched || (q == p && Left(m, n, p)))
    && (Left(m, n, p) ==> m.plock[p] != Sched)
  }

  lemma ReparentOutside(m: State, p: int, q: int)
    requires Runs(m, p) && Exiting(m.proc[p].pc) && IsProc(m, q)
    requires m.proc[p].pc.Reparent? || m.proc[p].pc.WakeInitHold?
    ensures Outside(m, ExitStep(m, p), p, q) == true
  {
  }

  lemma LeaveOutside(m: State, p: int, q: int)
    requires Runs(m, p) && Exiting(m.proc[p].pc) && IsProc(m, q)
    requires !(m.proc[p].pc.Reparent? || m.proc[p].pc.WakeInitHold?)
    ensures Outside(m, ExitStep(m, p), p, q) == true
  {
  }

  lemma ExitOutside(m: State, p: int, q: int)
    requires Runs(m, p) && Exiting(m.proc[p].pc) && IsProc(m, q)
    ensures Outside(m, ExitStep(m, p), p, q) == true
  {
    if m.proc[p].pc.Reparent? || m.proc[p].pc.WakeInitHold? {
      ReparentOutside(m, p, q);
    } else {
      LeaveOutside(m, p, q);
    }
  }

  lemma HoldOutside(m: State, p: int, ch: Choice, q: int)
    requires Runs(m, p) && Waiting(m.proc[p].pc) && IsProc(m, q) && ProcOk(m, q)
    requires m.proc[p].pc.WaitHold?
    ensures Outside(m, WaitStep(m, p, ch), p, q) == true
  {
  }

  lemma ScanOutside(m: State, p: int, ch: Choice, q: int)
    requires Runs(m, p) && Waiting(m.proc[p].pc) && IsProc(m, q) && ProcOk(m, q)
    requires !(m.proc[p].pc.WaitHold?)
    ensures Outside(m, WaitStep(m, p, ch), p, q) == true
  {
  }

  lemma WaitOutside(m: State, p: int, ch: Choice, q: int)
    requires Runs(m, p) && Waiting(m.proc[p].pc) && IsProc(m, q) && ProcOk(m, q)
    ensures Outside(m, WaitStep(m, p, ch), p, q) == true
  {
    if m.proc[p].pc.WaitHold? {
      HoldOutside(m, p, ch, q);
    } else {
      ScanOutside(m, p, ch, q);
    }
  }

  lemma FillOutside(m: State, p: int, ch: Choice, q: int)
    requires Runs(m, p) && InFork(m.proc[p].pc) && IsProc(m, q) && ProcOk(m, q)
    requires m.proc[p].pc.ForkHold? || m.proc[p].pc.ForkFill?
    ensures Outside(m, ForkStep(m, p, ch), p, q) == true
  {
  }

  lemma ChildOutside(m: State, p: int, ch: Choice, q: int)
    requires Runs(m, p) && InFork(m.proc[p].pc) && IsProc(m, q) && ProcOk(m, q)
    requires !(m.proc[p].pc.ForkHold? || m.proc[p].pc.ForkFill?)
    ensures Outside(m, ForkStep(m, p, ch), p, q) == true
  {
  }

  lemma ForkOutside(m: State, p: int, ch: Choice, q: int)
    requires Runs(m, p) && InFork(m.proc[p].pc) && IsProc(m, q) && ProcOk(m, q)
    ensures Outside(m, ForkStep(m, p, ch), p, q) == true
  {
    if m.proc[p].pc.ForkHold? || m.proc[p].pc.ForkFill? {
      FillOutside(m, p, ch, q);
    } else {
      ChildOutside(m, p, ch, q);
    }
  }

  lemma OtherOutside(m: State, p: int, q: int)
    requires Runs(m, p) && IsOther(m.proc[p].pc) && IsProc(m, q)
    ensures Outside(m, OtherStep(m, p), p, q) == true
  {
  }

  lemma SyscallOutside(m: State, p: int, ch: Choice, q: int)
    requires Runs(m, p) && m.proc[p].pc.User? && IsProc(m, q)
    ensures Outside(m, Syscall(m, p, ch), p, q) == true
  {
  }

  lemma ThreadOutside(m: State, p: int, ch: Choice, q: int)
    requires Runs(m, p) && IsProc(m, q) && ProcOk(m, q)
    ensures Outside(m, ThreadStep(m, p, ch), p, q) == true
  {
    var pc := m.proc[p].pc;
    if pc.User? {
      SyscallOutside(m, p, ch, q);
    } else if Exiting(pc) {
      ExitOutside(m, p, q);
    } else if Waiting(pc) {
      WaitOutside(m, p, ch, q);
    } else if InFork(pc) {
      ForkOutside(m, p, ch, q);
    } else {
      OtherOutside(m, p, q);
    }
  }

  /** The processes make a step n of thread p, which CPU c runs. */
  function Went(s: Machine, c: int, p: int, n: State): Machine
    requires Fits(s) && IsCpu(s, c) && IsProc(s.m, p)
  {
    if Left(s.m, n, p) then Machine(n, s.cpu[c := Back(p)], s.on[p := -1], s.lent[p := c]) else s.(m := n)
  }

  lemma WentWired(s: Machine, c: int, p: int, n: State)
    requires Fits(s) && Wired(s) && IsCpu(s, c) && s.cpu[c] == In(p) && IsProc(s.m, p) && OnCpu(s.m.proc[p].pc)
    requires forall q {:trigger Outside(s.m, n, p, q)} | 0 <= q < |s.m.proc| :: Outside(s.m, n, p, q)
    ensures Fits(Went(s, c, p, n)) && Wired(Went(s, c, p, n)) == true
  {
    var t := Went(s, c, p, n);
    assert Outside(s.m, n, p, p);
    assert CpuOk(s, c) && PlaceOk(s, p);
    forall d | 0 <= d < |t.cpu| ensures CpuOk(t, d) {
      assert CpuOk(s, d);
      if !s.cpu[d].Scan? { assert Outside(s.m, n, p, s.cpu[d].k); }
    }
    forall q | 0 <= q < |t.m.proc| ensures PlaceOk(t, q) {
      assert PlaceOk(s, q) && Outside(s.m, n, p, q);
    }
  }

  lemma GoKeeps(s: Machine, c: int, ch: Choice)
    requires Inv2(s) && IsCpu(s, c) && s.cpu[c].In? && Runs(s.m, s.cpu[c].k)
    ensures Inv2(GoStep(s, c, ch)) == true
  {
    var p := s.cpu[c].k;
    ThreadKeeps(s.m, p, ch);
    forall q | 0 <= q < |s.m.proc| ensures Outside(s.m, ThreadStep(s.m, p, ch), p, q) {
      InvProc(s.m, q);
      ThreadOutside(s.m, p, ch, q);
    }
    WentWired(s, c, p, ThreadStep(s.m, p, ch));
  }

  lemma InvProc(m: State, q: int)
    requires Inv(m) == true && IsProc(m, q)
    ensures Shape(m) && ProcOk(m, q)
  {
    assert ProcOk(m, q);
  }

  lemma TakeWired(s: Machine, c: int, k: int)
    requires Fits(s) && Wired(s) && IsCpu(s, c) && s.cpu[c] == Scan && IsProc(s.m, k) && s.m.plock[k] == Free
    ensures var t := Machine(TakeStep(s.m, k), s.cpu[c := Hold(k)], s.on, s.lent[k := c]); Fits(t) && Wired(t) == true
  {
    var t := Machine(TakeStep(s.m, k), s.cpu[c := Hold(k)], s.on, s.lent[k := c]);
    forall d | 0 <= d < |t.cpu| ensures CpuOk(t, d) { assert CpuOk(s, d); }
    forall q | 0 <= q < |t.m.proc| ensures PlaceOk(t, q) { assert PlaceOk(s, q); }
  }

  lemma DropWired(s: Machine, c: int, k: int)
    requires Fits(s) && Wired(s) && IsCpu(s, c) && (s.cpu[c] == Hold(k) || s.cpu[c] == Back(k)) && IsProc(s.m, k)
    ensures var t := Machine(DropStep(s.m, k), s.cpu[c := Scan], s.on, s.lent[k := -1]); Fits(t) && Wired(t) == true
  {
    var t := Machine(DropStep(s.m, k), s.cpu[c := Scan], s.on, s.lent[k := -1]);
    assert CpuOk(s, c);
    forall d | 0 <= d < |t.cpu| ensures CpuOk(t, d) { assert CpuOk(s, d); }
    forall q | 0 <= q < |t.m.proc| ensures PlaceOk(t, q) { assert PlaceOk(s, q); }
  }

  lemma DispatchWired(s: Machine, c: int, k: int)
    requires Fits(s) && Wired(s) && IsCpu(s, c) && s.cpu[c] == Hold(k) && IsProc(s.m, k)
    requires s.m.proc[k].st == RUNNABLE && ProcOk(s.m, k)
    ensures var t := Machine(DispatchStep(s.m, k), s.cpu[c := In(k)], s.on[k := c], s.lent[k := -1]);
            Fits(t) && Wired(t) == true
  {
    var t := Machine(DispatchStep(s.m, k), s.cpu[c := In(k)], s.on[k := c], s.lent[k := -1]);
    assert CpuOk(s, c) && PlaceOk(s, k);
    forall d | 0 <= d < |t.cpu| ensures CpuOk(t, d) { assert CpuOk(s, d); }
    forall q | 0 <= q < |t.m.proc| ensures PlaceOk(t, q) { assert PlaceOk(s, q); }
  }

  lemma ScheduleKeeps(s: Machine, c: int, k: int)
    requires Inv2(s) && IsCpu(s, c) && CpuOk(s, c)
    ensures Inv2(ScheduleStep(s, c, k)) == true
  {
    match s.cpu[c]
    case Scan =>
      if IsProc(s.m, k) && s.m.plock[k] == Free {
        LockKeeps(s.m, k, TakeStep(s.m, k));
        TakeWired(s, c, k);
      }
    case Hold(q) =>
      InvProc(s.m, q);
      if s.m.proc[q].st == RUNNABLE {
        DispatchKeeps(s.m, q);
        DispatchWired(s, c, q);
      } else {
        LockKeeps(s.m, q, DropStep(s.m, q));
        DropWired(s, c, q);
      }
    case Back(q) =>
      LockKeeps(s.m, q, DropStep(s.m, q));
      DropWired(s, c, q);
    case In(_) =>
  }

  // Whole runs.

  ghost predicate CanMove(s: Machine, a: Move) {
    IsCpu(s, a.c) && (a.Go? ==> s.cpu[a.c].In?)
  }

  ghost function DoMove(s: Machine, a: Move): (t: Machine)
    requires Inv2(s) && CanMove(s, a)
    ensures Inv2(t)
  {
    assert CpuOk(s, a.c);
    match a
    case Go(c, ch) =>
      assert PlaceOk(s, s.cpu[c].k);
      InvProc(s.m, s.cpu[c].k);
      GoKeeps(s, c, ch);
      GoStep(s, c, ch)
    case Schedule(c, k) =>
      ScheduleKeeps(s, c, k);
      ScheduleStep(s, c, k)
  }

  ghost predicate CanRun(s: Machine, moves: seq<Move>)
    requires Inv2(s)
    decreases |moves|, 0
  {
    moves == [] ||
    (CanRun(s, moves[..|moves| - 1]) && CanMove(After(s, moves[..|moves| - 1]), moves[|moves| - 1]))
  }

  ghost function After(s: Machine, moves: seq<Move>): (t: Machine)
    requires Inv2(s) && CanRun(s, moves)
    ensures Inv2(t)
    decreases |moves|, 1
  {
    if moves == [] then s else DoMove(After(s, moves[..|moves| - 1]), moves[|moves| - 1])
  }

  /** The first process is runnable, every CPU looks for work. */
  ghost predicate Boot(s: Machine) {
    && Fits(s) && Init(s.m)
    && (forall c | 0 <= c < |s.cpu| :: s.cpu[c] == Scan)
    && (forall p | 0 <= p < |s.m.proc| :: s.on[p] == -1 && s.lent[p] == -1)
  }

  lemma BootInv(s: Machine)
    requires Boot(s)
    ensures Inv2(s)
  {
    InitInv(s.m);
  }

  /** CPU c has p as its current process. */
  ghost predicate IsCurrent(s: Machine, p: int, c: int) {
    IsCpu(s, c) && (s.cpu[c] == In(p) || s.cpu[c] == Back(p))
  }

  lemma CurrentUnique(t: Machine, p: int)
    requires Inv2(t) && IsProc(t.m, p)
    ensures t.m.plock[p] == Free ==>
              && (t.m.proc[p].st == RUNNING <==> exists c :: IsCurrent(t, p, c))
              && forall c, d :: IsCurrent(t, p, c) && IsCurrent(t, p, d) ==> c == d
  {
    InvProc(t.m, p);
    assert PlaceOk(t, p);
    if t.m.plock[p] == Free {
      forall c | IsCurrent(t, p, c) ensures c == t.on[p] {
        assert CpuOk(t, c);
      }
      if t.m.proc[p].st == RUNNING {
        assert IsCurrent(t, p, t.on[p]);
      }
    }
  }

  /** In every run a process whose lock is free is RUNNING exactly when some CPU has it as its current
      process, and then only one does; so a zombie or an unused slot is nobody's. */
  lemma RunningIsCurrent(s: Machine, moves: seq<Move>, p: int)
    requires Boot(s)
    ensures Inv2(s)
    ensures CanRun(s, moves) ==>
              var t := After(s, moves);
              IsProc(t.m, p) && t.m.plock[p] == Free ==>
                && (t.m.proc[p].st == RUNNING <==> exists c :: IsCurrent(t, p, c))
                && forall c, d :: IsCurrent(t, p, c) && IsCurrent(t, p, d) ==> c == d
  {
    BootInv(s);
    if CanRun(s, moves) {
      var t := After(s, moves);
      if IsProc(t.m, p) { CurrentUnique(t, p); }
    }
  }

  /** The process that p is looking at in wait is a zombie, which p is about to free. */
  ghost predicate Reaps(m: State, p: int, j: int) {
    IsProc(m, p) && IsProc(m, j) && m.proc[p].pc == WaitHold(j) && m.proc[j].st == ZOMBIE
  }

  lemma ReapedAt(t: Machine, p: int, j: int, c: int)
    requires Inv2(t) && Reaps(t.m, p, j)
    ensures !IsCurrent(t, j, c)
  {
    InvProc(t.m, p);
    InvProc(t.m, j);
    assert PlaceOk(t, j);
    assert IsCpu(t, c) ==> CpuOk(t, c);
  }

  /** In every run, when wait is about to free a zombie no CPU is on it any more: exit's last switch has
      handed its lock to the scheduler, and the scheduler has let go of it. */
  lemma ReapedIsNoOnes(s: Machine, moves: seq<Move>, p: int, j: int, c: int)
    requires Boot(s)
    ensures Inv2(s)
    ensures CanRun(s, moves) && Reaps(After(s, moves).m, p, j) ==> !IsCurrent(After(s, moves), j, c)
  {
    BootInv(s);
    if CanRun(s, moves) && Reaps(After(s, moves).m, p, j) {
      ReapedAt(After(s, moves), p, j, c);
    }
  }

  // Every run of the CPUs is a run of the processes.

  /** The step of ExitWait that a move is, if it is one. */
  ghost predicate IsStep(m: State, n: State) {
    n == m || (Inv(m) && exists a :: Enabled(m, a) && n == Do(m, a))
  }

  lemma MoveIsStep(s: Machine, a: Move)
    requires Inv2(s) && CanMove(s, a)
    ensures IsStep(s.m, DoMove(s, a).m)
  {
    assert CpuOk(s, a.c);
    match a
    case Go(c, ch) =>
      var p := s.cpu[c].k;
      assert PlaceOk(s, p);
      assert Enabled(s.m, Run(p, ch)) && DoMove(s, a).m == Do(s.m, Run(p, ch));
    case Schedule(c, k) =>
      match s.cpu[c]
      case Scan => if IsProc(s.m, k) { assert Enabled(s.m, Take(k)) && TakeStep(s.m, k) == Do(s.m, Take(k)); }
      case Hold(q) =>
        assert Enabled(s.m, Dispatch(q)) && DispatchStep(s.m, q) == Do(s.m, Dispatch(q));
        assert Enabled(s.m, Drop(q)) && DropStep(s.m, q) == Do(s.m, Drop(q));
      case Back(q) => assert Enabled(s.m, Drop(q)) && DropStep(s.m, q) == Do(s.m, Drop(q));
      case In(_) =>
  }
}
