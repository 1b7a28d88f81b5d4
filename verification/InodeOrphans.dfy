/** Whether the last reference leaves an inode that is in use on disk but has no links: exactly when
    iput's test does not see it (kernel/fs.c:336-362). */
module InodeOrphans {
  import opened InodeTable
  import opened InodeSafety

  predicate Orphan(x: Dinode) { x.kind != 0 && x.nlink == 0 }

  /** The step drops the last reference of entry i. */
  predicate DropsLast(s: State, step: Step, i: int)
    requires Can(s, step)
  {
    0 <= i < |s.table| && s.table[i].ref == 1 && i < |Do(s, step).table| && Do(s, step).table[i].ref == 0
  }

  /** An inode without links is left behind exactly if the reference was dropped at the end of freeing
      an earlier inode with that number, or if the entry had never been loaded. */
  lemma OrphanExactly(s: State, step: Step, i: int)
    requires Inv(s) && Can(s, step) && DropsLast(s, step, i)
    ensures var key := s.table[i].key;
            && key in s.disk && Do(s, step).disk == s.disk
            && (Orphan(Do(s, step).disk[key]) <==> Orphan(s.disk[key]) && !(step.Iput? && s.table[i].valid))
  {
    assert SlotAt(s, i);
    if step.Iput? && s.table[i].valid {
      OwnerKeepsInode(s, step.t, i);
      if s.table[i].lock != -1 { OneOwner(s.table[i], step.t, s.table[i].lock); }
    }
  }

  lemma RunSnoc(s: State, steps: seq<Step>, step: Step)
    requires Run(s, steps) && Can(After(s, steps), step)
    ensures Run(s, steps + [step]) && After(s, steps + [step]) == Do(After(s, steps), step)
    decreases |steps|
  {
    if steps == [] {
      assert steps + [step] == [step];
    } else {
      assert (steps + [step])[1..] == steps[1..] + [step];
      RunSnoc(Do(s, steps[0]), steps[1..], step);
    }
  }

  // A run that leaves one.

  function K(): Key { Key(1, 2) }
  function X(kind: int, nlink: int): Dinode { Dinode(kind, nlink, 0) }

  /** A table of one entry, two threads, one inode. */
  function S(ref: int, owners: multiset<int>, valid: bool, lock: int, node: Dinode, disk: Dinode, p: Phase,
             q: Phase): State {
    State([Entry(K(), ref, owners, valid, lock, node)], map[K() := disk], [p, q])
  }

  lemma Next(s: State, steps: seq<Step>, step: Step, z: State) returns (more: seq<Step>)
    requires Run(s, steps) && Can(After(s, steps), step) && Do(After(s, steps), step) == z
    ensures more == steps + [step] && Run(s, more) && After(s, more) == z
  {
    RunSnoc(s, steps, step);
    more := steps + [step];
  }

  /** A thread gets and locks the inode. */
  lemma Gets(s: State, steps: seq<Step>) returns (more: seq<Step>)
    requires Run(s, steps) && After(s, steps) == S(0, multiset{}, false, -1, X(7, 0), X(3, 1), Idle, Idle)
    ensures Run(s, more) && After(s, more) == S(1, multiset{0}, true, 0, X(3, 1), X(3, 1), Idle, Idle)
  {
    more := steps;
    more := Next(s, more, Iget(0, K()), S(1, multiset{0}, false, -1, X(7, 0), X(3, 1), Idle, Idle));
    more := Next(s, more, Acquire(0, 0), S(1, multiset{0}, false, 0, X(7, 0), X(3, 1), Idle, Idle));
    more := Next(s, more, Load(0, 0), S(1, multiset{0}, true, 0, X(3, 1), X(3, 1), Idle, Idle));
  }

  /** It takes off the last link, */
  lemma TakesLink(s: State, steps: seq<Step>) returns (more: seq<Step>)
    requires Run(s, steps) && After(s, steps) == S(1, multiset{0}, true, 0, X(3, 1), X(3, 1), Idle, Idle)
    ensures Run(s, more) && After(s, more) == S(1, multiset{0}, true, -1, X(3, 0), X(3, 0), Idle, Idle)
  {
    more := steps;
    more := Next(s, more, Change(0, 0, X(3, 0)), S(1, multiset{0}, true, 0, X(3, 0), X(3, 1), Idle, Idle));
    more := Next(s, more, Iupdate(0, 0), S(1, multiset{0}, true, 0, X(3, 0), X(3, 0), Idle, Idle));
    more := Next(s, more, Release(0, 0), S(1, multiset{0}, true, -1, X(3, 0), X(3, 0), Idle, Idle));
  }

  /** puts the inode and starts to free it. */
  lemma StartsFree(s: State, steps: seq<Step>) returns (more: seq<Step>)
    requires Run(s, steps) && After(s, steps) == S(1, multiset{0}, true, -1, X(3, 0), X(3, 0), Idle, Idle)
    ensures Run(s, more) && After(s, more) == S(1, multiset{0}, true, 0, X(0, 0), X(3, 0), Freeing(0, WriteBack), Idle)
  {
    more := steps;
    more := Next(s, more, Iput(0, 0), S(1, multiset{0}, true, 0, X(3, 0), X(3, 0), Freeing(0, Truncate), Idle));
    more := Next(s, more, FreeStep(0), S(1, multiset{0}, true, 0, X(3, 0), X(3, 0), Freeing(0, ClearType), Idle));
    more := Next(s, more, FreeStep(0), S(1, multiset{0}, true, 0, X(0, 0), X(3, 0), Freeing(0, WriteBack), Idle));
  }

  /** The inode is free on disk; another thread allocates it */
  lemma FreesOnDisk(s: State, steps: seq<Step>) returns (more: seq<Step>)
    requires Run(s, steps) && After(s, steps) ==
             S(1, multiset{0}, true, 0, X(0, 0), X(3, 0), Freeing(0, WriteBack), Idle)
    ensures Run(s, more) && After(s, more) == S(1, multiset{0}, true, 0, X(0, 0), X(2, 0), Freeing(0, Invalidate),
                                                Allocated(K()))
  {
    more := steps;
    more := Next(s, more, FreeStep(0), S(1, multiset{0}, true, 0, X(0, 0), X(0, 0), Freeing(0, Invalidate), Idle));
    more := Next(s, more, Ialloc(1, K(), 2),
                 S(1, multiset{0}, true, 0, X(0, 0), X(2, 0), Freeing(0, Invalidate), Allocated(K())));
  }

  /** and gets the same entry. */
  lemma SharesEntry(s: State, steps: seq<Step>) returns (more: seq<Step>)
    requires Run(s, steps) && After(s, steps) ==
             S(1, multiset{0}, true, 0, X(0, 0), X(2, 0), Freeing(0, Invalidate), Allocated(K()))
    ensures Run(s, more) && After(s, more) == S(2, multiset{0, 1}, true, 0, X(0, 0), X(2, 0), Freeing(0, Invalidate),
                                                Idle)
  {
    more := steps;
    assert multiset{0} + multiset{1} == multiset{0, 1};
    more := Next(s, more, Iget(1, K()), S(2, multiset{0, 1}, true, 0, X(0, 0), X(2, 0), Freeing(0, Invalidate), Idle));
  }

  /** The first thread lets go of the lock; */
  lemma FirstUnlocks(s: State, steps: seq<Step>) returns (more: seq<Step>)
    requires Run(s, steps) && After(s, steps) ==
             S(2, multiset{0, 1}, true, 0, X(0, 0), X(2, 0), Freeing(0, Invalidate), Idle)
    ensures Run(s, more) && After(s, more) == S(2, multiset{0, 1}, false, -1, X(0, 0), X(2, 0), Freeing(0, Drop), Idle)
  {
    more := steps;
    more := Next(s, more, FreeStep(0), S(2, multiset{0, 1}, false, 0, X(0, 0), X(2, 0), Freeing(0, Unlock), Idle));
    more := Next(s, more, FreeStep(0), S(2, multiset{0, 1}, false, -1, X(0, 0), X(2, 0), Freeing(0, Drop), Idle));
  }

  /** the second locks, loads and unlocks its new inode, */
  lemma SecondLoads(s: State, steps: seq<Step>) returns (more: seq<Step>)
    requires Run(s, steps) && After(s, steps) ==
             S(2, multiset{0, 1}, false, -1, X(0, 0), X(2, 0), Freeing(0, Drop), Idle)
    ensures Run(s, more) && After(s, more) == S(2, multiset{0, 1}, true, -1, X(2, 0), X(2, 0), Freeing(0, Drop), Idle)
  {
    more := steps;
    more := Next(s, more, Acquire(1, 0), S(2, multiset{0, 1}, false, 1, X(0, 0), X(2, 0), Freeing(0, Drop), Idle));
    more := Next(s, more, Load(1, 0), S(2, multiset{0, 1}, true, 1, X(2, 0), X(2, 0), Freeing(0, Drop), Idle));
    more := Next(s, more, Release(1, 0), S(2, multiset{0, 1}, true, -1, X(2, 0), X(2, 0), Freeing(0, Drop), Idle));
  }

  /** and gives it up while the first still has its reference. */
  lemma BothDrop(s: State, steps: seq<Step>) returns (more: seq<Step>)
    requires Run(s, steps) && After(s, steps) ==
             S(2, multiset{0, 1}, true, -1, X(2, 0), X(2, 0), Freeing(0, Drop), Idle)
    ensures Run(s, more) && After(s, more) == S(0, multiset{}, true, -1, X(2, 0), X(2, 0), Idle, Idle)
  {
    more := steps;
    assert multiset{0, 1} - multiset{1} == multiset{0};
    more := Next(s, more, Iput(1, 0), S(1, multiset{0}, true, -1, X(2, 0), X(2, 0), Freeing(0, Drop), Idle));
    more := Next(s, more, FreeStep(0), S(0, multiset{}, true, -1, X(2, 0), X(2, 0), Idle, Idle));
  }

  /** After this run the inode is in use on disk without a link, and no entry refers to it. */
  lemma OrphanRun() returns (s: State, steps: seq<Step>)
    ensures Initial(s) && Run(s, steps)
    ensures var z := After(s, steps); |z.table| == 1 && z.table[0].ref == 0 && K() in z.disk && Orphan(z.disk[K()])
  {
    s := S(0, multiset{}, false, -1, X(7, 0), X(3, 1), Idle, Idle);
    steps := Gets(s, []);
    steps := TakesLink(s, steps);
    steps := StartsFree(s, steps);
    steps := FreesOnDisk(s, steps);
    steps := SharesEntry(s, steps);
    steps := FirstUnlocks(s, steps);
    steps := SecondLoads(s, steps);
    steps := BothDrop(s, steps);
  }
}
