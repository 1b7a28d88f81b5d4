/** What goes wrong when iget is given an inode that is not usable (kernel/fs.c:246-362): ilock finds it free
    on disk, or iput frees it under a second reference. A lookup of ".." in a directory that has been
    removed does this. */
module InodeGone {
  import opened InodeTable
  import opened InodeSafety
  import opened InodeOrphans

  /** Thread t has a reference to an inode that is free on disk, or that another thread has just allocated. */
  ghost predicate Lost(s: State, t: int, i: int, key: Key) {
    && Owns(s, t, i) && s.table[i].key == key && key in s.disk
    && (s.disk[key].kind == 0 || exists u :: 0 <= u < |s.phases| && u != t && s.phases[u] == Allocated(key))
  }

  predicate FreeSteps(steps: seq<Step>, u: int) {
    forall k | 0 <= k < |steps| :: steps[k] == FreeStep(u)
  }

  /** Thread u, early in freeing entry i, goes on until the inode is free on disk; others keep what they
      have. */
  lemma FreesIt(s: State, t: int, u: int, i: int, key: Key) returns (steps: seq<Step>)
    requires Owns(s, t, i) && s.table[i].key == key && key in s.disk && 0 <= u < |s.phases| && u != t
    requires s.phases[u].Freeing? && s.phases[u].slot == i && Early(s.phases[u].stage)
    requires s.phases[u].stage == WriteBack ==> s.table[i].node.kind == 0
    ensures Run(s, steps) && FreeSteps(steps, u) && Lost(After(s, steps), t, i, key)
    decreases match s.phases[u].stage case Truncate => 2 case ClearType => 1 case _ => 0
  {
    var z := Do(s, FreeStep(u));
    if s.phases[u].stage == WriteBack {
      steps := [FreeStep(u)];
      assert steps[1..] == [];
    } else {
      var rest := FreesIt(z, t, u, i, key);
      steps := [FreeStep(u)] + rest;
      assert steps[1..] == rest;
    }
  }

  /** After iget of an inode that is not usable the thread's inode is lost, at once or when the thread that is
      freeing it goes on. */
  lemma UnusableIsLost(s: State, t: int, key: Key) returns (u: int, steps: seq<Step>)
    requires Inv(s) && Can(s, Iget(t, key)) && s.phases[t] == Idle && !Usable(s, t, key)
    ensures Run(Do(s, Iget(t, key)), steps) && FreeSteps(steps, u)
    ensures Lost(After(Do(s, Iget(t, key)), steps), t, SlotFor(s.table, key), key)
  {
    var z, i := Do(s, Iget(t, key)), SlotFor(s.table, key);
    IgetOwner(s, t, key);
    u, steps := t, [];
    if s.disk[key].kind != 0 {
      u :| !Bystander(s, t, u, key);
      if s.phases[u] != Allocated(key) {
        assert FreeingAt(s, u);
        var j := s.phases[u].slot;
        assert SlotAt(s, j);
        assert |s.table[j].owners| > 0;
        assert Holds(s.table[j], key);
        SameSlot(s, i, j);
        steps := FreesIt(z, t, u, i, key);
      } else {
        assert z.phases[u] == Allocated(key);
      }
    }
  }

  /** And after iget of a usable one it is not, however the run goes on, as long as every further iget is
      careful. */
  lemma UsableIsKept(s: State, t: int, key: Key, steps: seq<Step>, i: int)
    requires Inv(s) && Can(s, Iget(t, key)) && Usable(s, t, key)
    requires var z := Do(s, Iget(t, key)); Run(z, steps) && CarefulRun(z, steps)
    ensures !Lost(After(Do(s, Iget(t, key)), steps), t, i, key)
  {
    var z := Do(s, Iget(t, key));
    KeepsIget(s, t, key);
    RunKeeps(z, steps);
    var e := After(z, steps);
    if Owns(e, t, i) { OwnerKeepsInode(e, t, i); }
  }

  // Two runs.

  /** The inode is freed, and then another thread gets and locks it. */
  lemma GetsFreed(s: State, steps: seq<Step>) returns (more: seq<Step>)
    requires Run(s, steps) && After(s, steps) ==
             S(1, multiset{0}, true, 0, X(0, 0), X(3, 0), Freeing(0, WriteBack), Idle)
    ensures Run(s, more) && After(s, more) == S(1, multiset{1}, false, 1, X(0, 0), X(0, 0), Idle, Idle)
  {
    more := DoneFreeing(s, steps);
    more := Next(s, more, Iget(1, K()), S(1, multiset{1}, false, -1, X(0, 0), X(0, 0), Idle, Idle));
    more := Next(s, more, Acquire(1, 0), S(1, multiset{1}, false, 1, X(0, 0), X(0, 0), Idle, Idle));
  }

  lemma DoneFreeing(s: State, steps: seq<Step>) returns (more: seq<Step>)
    requires Run(s, steps) && After(s, steps) ==
             S(1, multiset{0}, true, 0, X(0, 0), X(3, 0), Freeing(0, WriteBack), Idle)
    ensures Run(s, more) && After(s, more) == S(0, multiset{}, false, -1, X(0, 0), X(0, 0), Idle, Idle)
  {
    more := Next(s, steps, FreeStep(0), S(1, multiset{0}, true, 0, X(0, 0), X(0, 0), Freeing(0, Invalidate), Idle));
    more := Next(s, more, FreeStep(0), S(1, multiset{0}, false, 0, X(0, 0), X(0, 0), Freeing(0, Unlock), Idle));
    more := Next(s, more, FreeStep(0), S(1, multiset{0}, false, -1, X(0, 0), X(0, 0), Freeing(0, Drop), Idle));
    more := Next(s, more, FreeStep(0), S(0, multiset{}, false, -1, X(0, 0), X(0, 0), Idle, Idle));
  }

  function Fresh(): State {
    S(0, multiset{}, false, -1, X(7, 0), X(3, 1), Idle, Idle)
  }

  /** chdir("..") in a removed directory whose parent has been removed too: ilock finds no type. */
  lemma NoTypeRun() returns (steps: seq<Step>)
    ensures Initial(Fresh()) && Run(Fresh(), steps) && Can(After(Fresh(), steps), Load(1, 0))
    ensures Do(After(Fresh(), steps), Load(1, 0)).table[0].node.kind == 0
  {
    steps := Gets(Fresh(), []);
    steps := TakesLink(Fresh(), steps);
    steps := StartsFree(Fresh(), steps);
    steps := GetsFreed(Fresh(), steps);
  }

  /** The same while the last iput of the parent is under way: it is freed with two references. */
  lemma FreedTwiceHeld() returns (steps: seq<Step>)
    ensures Initial(Fresh()) && Run(Fresh(), steps)
    ensures var z := After(Fresh(), steps);
            K() in z.disk && z.disk[K()].kind != 0 && |z.table| == 1 && Can(z, FreeStep(0)) && z.table[0].ref == 2
            && z.table[0].key == K()
    ensures var y := Do(After(Fresh(), steps), FreeStep(0)); K() in y.disk && y.disk[K()].kind == 0
  {
    steps := Gets(Fresh(), []);
    steps := TakesLink(Fresh(), steps);
    steps := StartsFree(Fresh(), steps);
    assert multiset{0} + multiset{1} == multiset{0, 1};
    steps := Next(Fresh(), steps, Iget(1, K()),
                  S(2, multiset{0, 1}, true, 0, X(0, 0), X(3, 0), Freeing(0, WriteBack), Idle));
  }
}
