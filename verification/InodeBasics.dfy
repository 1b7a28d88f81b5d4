/** What holds of the inode table in every run, whatever inode numbers iget is given (kernel/fs.c:246-362):
    one live entry for each inode, counted references, and a free sleep-lock for iput. */
module InodeBasics {
  import opened InodeTable
  import opened InodeSafety

  predicate EntryOk(e: Entry) {
    e.ref == |e.owners| && (e.lock != -1 ==> e.lock in e.owners)
  }

  predicate EntryAt(s: State, i: int) {
    0 <= i < |s.table| ==> EntryOk(s.table[i])
  }

  /** A thread that frees an inode has its reference, and the lock until it lets go of that. */
  predicate FreerAt(s: State, t: int) {
    0 <= t < |s.phases| && s.phases[t].Freeing? ==>
      && 0 <= s.phases[t].slot < |s.table| && t in s.table[s.phases[t].slot].owners
      && (s.phases[t].stage != Drop <==> s.table[s.phases[t].slot].lock == t)
  }

  ghost predicate Basic(s: State) {
    && (forall i {:trigger EntryAt(s, i)} :: EntryAt(s, i))
    && (forall i, j {:trigger Apart(s, i, j)} :: Apart(s, i, j))
    && (forall t {:trigger FreerAt(s, t)} :: FreerAt(s, t))
  }

  /** The entry a step changes, or one that it leaves as it is. */
  function Changed(s: State, step: Step): int
    requires Can(s, step)
  {
    match step
    case Ialloc(_, _, _) => -1
    case Iget(_, key) => SlotFor(s.table, key)
    case FreeStep(t) => s.phases[t].slot
    case Iupdate(_, _) => -1
    case Idup(_, i) => i
    case Acquire(_, i) => i
    case Load(_, i) => i
    case Change(_, i, _) => i
    case Release(_, i) => i
    case Iput(_, i) => i
  }

  lemma ChangesOne(s: State, step: Step, j: int)
    requires Can(s, step) && 0 <= j < |s.table|
    ensures |Do(s, step).table| == |s.table| && |Do(s, step).phases| == |s.phases|
    ensures j != Changed(s, step) ==> Do(s, step).table[j] == s.table[j]
  {
  }

  lemma GottenOk(e: Entry, key: Key, t: int)
    requires EntryOk(e) && e.ref >= 0
    ensures EntryOk(Gotten(e, key, t))
  {
  }

  lemma DroppedOk(e: Entry, t: int)
    requires EntryOk(e) && t in e.owners && (e.lock != t || e.owners[t] >= 2)
    ensures EntryOk(Dropped(e, t))
  {
  }

  lemma FreeEntry(s: State, t: int)
    requires Basic(s) && Can(s, FreeStep(t))
    ensures var i := s.phases[t].slot; i < |Do(s, FreeStep(t)).table| && EntryOk(Do(s, FreeStep(t)).table[i])
  {
    assert FreerAt(s, t) && EntryAt(s, s.phases[t].slot);
    if s.phases[t].stage == Drop { DroppedOk(s.table[s.phases[t].slot], t); }
  }

  lemma StepEntry(s: State, step: Step, i: int)
    requires Basic(s) && Can(s, step)
    ensures EntryAt(Do(s, step), i)
  {
    assert EntryAt(s, i);
    if 0 <= i < |s.table| {
      ChangesOne(s, step, i);
      if i == Changed(s, step) {
        match step
        case Iget(t, key) => GottenOk(s.table[i], key, t);
        case Idup(t, _) => GottenOk(s.table[i], s.table[i].key, t);
        case Iput(t, _) => DroppedOk(s.table[i], t);
        case FreeStep(t) => FreeEntry(s, t);
        case _ =>
      }
    }
  }

  /** A live entry that a step leaves or makes was live with that key, or is the one iget took. */
  lemma StepLive(s: State, step: Step, i: int)
    requires Basic(s) && Can(s, step) && 0 <= i < |s.table|
    ensures var z := Do(s, step);
            i < |z.table| && (z.table[i].ref > 0 && !(step.Iget? && i == SlotFor(s.table, step.key)) ==>
              s.table[i].ref > 0 && z.table[i].key == s.table[i].key)
  {
    ChangesOne(s, step, i);
    assert EntryAt(s, i);
    assert step.Idup? && i == step.i ==> |s.table[i].owners| > 0;
  }

  lemma StepApart(s: State, step: Step, i: int, j: int)
    requires Basic(s) && Can(s, step)
    ensures Apart(Do(s, step), i, j)
  {
    assert Apart(s, i, j);
    if 0 <= i < j < |s.table| {
      StepLive(s, step, i);
      StepLive(s, step, j);
      ChangesOne(s, step, i);
    }
  }

  lemma StepFreer(s: State, step: Step, u: int)
    requires Basic(s) && Can(s, step)
    ensures FreerAt(Do(s, step), u)
  {
    assert FreerAt(s, u);
    if step.FreeStep? { assert FreerAt(s, step.t); }
    if step.Iput? {
      assert EntryAt(s, step.i);
      if Frees(s.table[step.i]) { LockIsFree(s, step.t, step.i); }
    }
    if step.Iget? && 0 <= u < |s.phases| && s.phases[u].Freeing? {
      assert EntryAt(s, s.phases[u].slot);
      assert |s.table[s.phases[u].slot].owners| > 0;
    }
  }

  /** The sleep-lock that iput takes is free. */
  lemma LockIsFree(s: State, t: int, i: int)
    requires Basic(s) && Can(s, Iput(t, i)) && Frees(s.table[i])
    ensures s.table[i].lock == -1 && forall u :: u in s.table[i].owners ==> u == t
  {
    assert EntryAt(s, i);
    forall u | u in s.table[i].owners ensures u == t { OneOwner(s.table[i], t, u); }
    OneOwner(s.table[i], t, t);
  }

  lemma {:induction false} RunBasic(s: State, steps: seq<Step>)
    requires Basic(s) == true && Run(s, steps)
    ensures Basic(After(s, steps)) == true
    decreases |steps|
  {
    if steps != [] {
      var z := Do(s, steps[0]);
      forall i { StepEntry(s, steps[0], i); }
      forall i, j { StepApart(s, steps[0], i, j); }
      forall t { StepFreer(s, steps[0], t); }
      RunBasic(z, steps[1..]);
    }
  }

  lemma AnyRun(s: State, steps: seq<Step>)
    requires Initial(s) && Run(s, steps)
    ensures Basic(After(s, steps)) == true
  {
    assert Basic(s);
    RunBasic(s, steps);
  }

  /** In every run an inode has one live entry at most. */
  lemma OneEntryPerInode(s: State, steps: seq<Step>, i: int, j: int)
    requires Initial(s) && Run(s, steps) && 0 <= i < |After(s, steps).table| && 0 <= j < |After(s, steps).table|
    ensures var z := After(s, steps);
            z.table[i].ref > 0 && z.table[j].ref > 0 && z.table[i].key == z.table[j].key ==> i == j
  {
    AnyRun(s, steps);
    assert Apart(After(s, steps), i, j) && Apart(After(s, steps), j, i);
  }

  /** In every run iput takes the sleep-lock without waiting, as the only owner of the entry. */
  lemma IputTakesFreeLock(s: State, steps: seq<Step>, t: int, i: int)
    requires Initial(s) && Run(s, steps) && Can(After(s, steps), Iput(t, i)) && Frees(After(s, steps).table[i])
    ensures After(s, steps).table[i].lock == -1 && forall u :: u in After(s, steps).table[i].owners ==> u == t
  {
    AnyRun(s, steps);
    LockIsFree(After(s, steps), t, i);
  }
}
