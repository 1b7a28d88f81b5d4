/** Every interleaving keeps the inode table safe (kernel/fs.c:198-362). */
module InodeSafety {
  import opened InodeTable

  lemma OneOwner(e: Entry, t: int, u: int)
    requires e.ref == |e.owners| == 1 && t in e.owners && u in e.owners
    ensures t == u && e.owners[t] == 1
  {
    assert e.owners == (e.owners - multiset{t}) + multiset{t};
    assert e.owners - multiset{t} == multiset{};
  }

  /** Two live entries with one key are the same entry. */
  lemma SameSlot(s: State, i: int, j: int)
    requires Inv(s) && 0 <= i < |s.table| && 0 <= j < |s.table| && LiveEntry(s.table[i]) && LiveEntry(s.table[j])
    requires s.table[i].key == s.table[j].key
    ensures i == j
  {
    assert Apart(s, i, j) && Apart(s, j, i);
  }

  /** An idle owner of a reference: the inode is in use on disk, and no one has just allocated it. */
  lemma OwnerKeepsInode(s: State, t: int, i: int)
    requires Inv(s) && Owns(s, t, i)
    ensures s.table[i].ref > 0 && s.table[i].key in s.disk && s.disk[s.table[i].key].kind != 0
            && !LateOnly(s.table[i], i, s.phases)
    ensures forall u {:trigger s.phases[u]} | 0 <= u < |s.phases| :: s.phases[u] != Allocated(s.table[i].key)
  {
    var e := s.table[i];
    assert SlotAt(s, i);
    assert |e.owners| > 0;
    assert !PhaseLate(s.phases, t, i, e.valid);
    forall u | 0 <= u < |s.phases| ensures s.phases[u] != Allocated(e.key) {
      assert AllocatedAt(s, u, i);
    }
  }

  /** With an idle owner, a thread that frees the entry is at its end, and the reference not the last. */
  lemma FreerShares(s: State, t: int, i: int, u: int)
    requires Inv(s) && Owns(s, t, i) && Frozen(s.phases, u, i)
    ensures s.table[i].ref >= 2 && !Early(s.phases[u].stage)
  {
    var e := s.table[i];
    assert SlotAt(s, i) && FreeingAt(s, u);
    assert |e.owners| > 0;
    if |e.owners| == 1 { OneOwner(e, t, u); }
  }

  // One entry changes.

  lemma KeepsApart(s: State, z: State, i: int)
    requires Inv(s) && 0 <= i < |s.table| && |z.table| == |s.table| && z.table == s.table[i := z.table[i]]
    requires z.table[i].key == s.table[i].key && (z.table[i].ref > 0 ==> s.table[i].ref > 0)
    ensures forall a, b :: Apart(z, a, b)
  {
    forall a, b ensures Apart(z, a, b) { assert Apart(s, a, b); }
  }

  lemma KeepsAcquire(s: State, t: int, i: int)
    requires Inv(s) && Can(s, Acquire(t, i))
    ensures Inv(Do(s, Acquire(t, i)))
  {
    var z := Do(s, Acquire(t, i));
    OwnerKeepsInode(s, t, i);
    KeepsApart(s, z, i);
    assert SlotAt(s, i);
    forall j ensures SlotAt(z, j) { assert SlotAt(s, j); }
    forall u ensures FreeingAt(z, u) { assert FreeingAt(s, u); }
    forall u, j ensures AllocatedAt(z, u, j) { assert AllocatedAt(s, u, j); }
    forall u, v ensures AllocatedApart(z, u, v) { assert AllocatedApart(s, u, v); }
  }

  lemma KeepsIdup(s: State, t: int, i: int)
    requires Inv(s) && Can(s, Idup(t, i))
    ensures Inv(Do(s, Idup(t, i)))
  {
    var z := Do(s, Idup(t, i));
    OwnerKeepsInode(s, t, i);
    KeepsApart(s, z, i);
    assert SlotAt(s, i);
    forall j ensures SlotAt(z, j) { assert SlotAt(s, j); }
    forall u ensures FreeingAt(z, u) {
      assert FreeingAt(s, u);
      if Frozen(s.phases, u, i) { FreerShares(s, t, i, u); }
    }
    forall u, j ensures AllocatedAt(z, u, j) { assert AllocatedAt(s, u, j); }
    forall u, v ensures AllocatedApart(z, u, v) { assert AllocatedApart(s, u, v); }
  }

  lemma KeepsLoad(s: State, t: int, i: int)
    requires Inv(s) && Can(s, Load(t, i))
    ensures Inv(Do(s, Load(t, i)))
  {
    var z := Do(s, Load(t, i));
    OwnerKeepsInode(s, t, i);
    KeepsApart(s, z, i);
    assert SlotAt(s, i);
    forall j ensures SlotAt(z, j) { assert SlotAt(s, j); }
    forall u ensures FreeingAt(z, u) { assert FreeingAt(s, u); }
    forall u, j ensures AllocatedAt(z, u, j) { assert AllocatedAt(s, u, j); }
    forall u, v ensures AllocatedApart(z, u, v) { assert AllocatedApart(s, u, v); }
  }

  lemma KeepsChange(s: State, t: int, i: int, node: Dinode)
    requires Inv(s) && Can(s, Change(t, i, node))
    ensures Inv(Do(s, Change(t, i, node)))
  {
    var z := Do(s, Change(t, i, node));
    OwnerKeepsInode(s, t, i);
    KeepsApart(s, z, i);
    assert SlotAt(s, i);
    forall j ensures SlotAt(z, j) { assert SlotAt(s, j); }
    forall u ensures FreeingAt(z, u) {
      assert FreeingAt(s, u);
      if Frozen(s.phases, u, i) { FreerShares(s, t, i, u); }
    }
    forall u, j ensures AllocatedAt(z, u, j) { assert AllocatedAt(s, u, j); }
    forall u, v ensures AllocatedApart(z, u, v) { assert AllocatedApart(s, u, v); }
  }

  lemma KeepsRelease(s: State, t: int, i: int)
    requires Inv(s) && Can(s, Release(t, i))
    ensures Inv(Do(s, Release(t, i)))
  {
    var z := Do(s, Release(t, i));
    OwnerKeepsInode(s, t, i);
    KeepsApart(s, z, i);
    assert SlotAt(s, i);
    forall j ensures SlotAt(z, j) { assert SlotAt(s, j); }
    forall u ensures FreeingAt(z, u) { assert FreeingAt(s, u); }
    forall u, j ensures AllocatedAt(z, u, j) { assert AllocatedAt(s, u, j); }
    forall u, v ensures AllocatedApart(z, u, v) { assert AllocatedApart(s, u, v); }
  }

  lemma KeepsIupdate(s: State, t: int, i: int)
    requires Inv(s) && Can(s, Iupdate(t, i))
    ensures Inv(Do(s, Iupdate(t, i)))
  {
    var z := Do(s, Iupdate(t, i));
    OwnerKeepsInode(s, t, i);
    KeepsApart(s, z, i);
    assert SlotAt(s, i);
    forall j ensures SlotAt(z, j) {
      assert SlotAt(s, j);
      assert Apart(s, i, j) && Apart(s, j, i);
    }
    forall u ensures FreeingAt(z, u) {
      assert FreeingAt(s, u);
      if Frozen(s.phases, u, i) { FreerShares(s, t, i, u); }
      if 0 <= u < |s.phases| && s.phases[u].Freeing? {
        assert Apart(s, i, s.phases[u].slot) && Apart(s, s.phases[u].slot, i);
        assert SlotAt(s, s.phases[u].slot);
      }
    }
    forall u, j ensures AllocatedAt(z, u, j) { assert AllocatedAt(s, u, j); }
    forall u, v ensures AllocatedApart(z, u, v) { assert AllocatedApart(s, u, v); }
  }

  lemma KeepsIputDrop(s: State, t: int, i: int)
    requires Inv(s) && Can(s, Iput(t, i)) && !Frees(s.table[i])
    ensures Inv(Do(s, Iput(t, i)))
  {
    var z := Do(s, Iput(t, i));
    OwnerKeepsInode(s, t, i);
    KeepsApart(s, z, i);
    assert SlotAt(s, i);
    forall j ensures SlotAt(z, j) { assert SlotAt(s, j); }
    forall u ensures FreeingAt(z, u) {
      assert FreeingAt(s, u);
      if Frozen(s.phases, u, i) { FreerShares(s, t, i, u); }
    }
    forall u, j ensures AllocatedAt(z, u, j) { assert AllocatedAt(s, u, j); }
    forall u, v ensures AllocatedApart(z, u, v) { assert AllocatedApart(s, u, v); }
  }

  /** The sleep-lock that iput takes is free. */
  lemma IputNeverBlocks(s: State, t: int, i: int)
    requires Inv(s) && Can(s, Iput(t, i)) && Frees(s.table[i])
    ensures s.table[i].lock == -1 && s.table[i].owners == multiset{t}
  {
    assert SlotAt(s, i);
    OneOwner(s.table[i], t, t);
    assert s.table[i].owners == (s.table[i].owners - multiset{t}) + multiset{t};
    if s.table[i].lock != -1 { OneOwner(s.table[i], t, s.table[i].lock); }
  }

  lemma KeepsIputFree(s: State, t: int, i: int)
    requires Inv(s) && Can(s, Iput(t, i)) && Frees(s.table[i])
    ensures Inv(Do(s, Iput(t, i)))
  {
    var z := Do(s, Iput(t, i));
    OwnerKeepsInode(s, t, i);
    IputNeverBlocks(s, t, i);
    KeepsApart(s, z, i);
    assert SlotAt(s, i);
    forall j ensures SlotAt(z, j) {
      assert SlotAt(s, j);
      KeepsLate(s, z, t, j);
    }
    forall u ensures FreeingAt(z, u) { assert FreeingAt(s, u); }
    forall u, j ensures AllocatedAt(z, u, j) {
      assert AllocatedAt(s, u, j);
      KeepsLate(s, z, t, j);
    }
    forall u, v ensures AllocatedApart(z, u, v) { assert AllocatedApart(s, u, v); }
  }

  /** The phase of a thread that was not late for entry j does not matter to it. */
  lemma KeepsLate(s: State, z: State, t: int, j: int)
    requires 0 <= t < |s.phases| && |z.phases| == |s.phases| && z.phases == s.phases[t := z.phases[t]]
    requires |z.table| == |s.table|
    requires 0 <= j < |s.table| ==>
               z.table[j].owners == s.table[j].owners && z.table[j].valid == s.table[j].valid
               && z.table[j].ref == s.table[j].ref
    requires 0 <= j < |s.table| ==> !IsLate(s.phases[t], j, s.table[j].valid)
    ensures 0 <= j < |s.table| && LateOnly(s.table[j], j, s.phases) ==> LateOnly(z.table[j], j, z.phases)
  {
    if 0 <= j < |s.table| && LateOnly(s.table[j], j, s.phases) {
      forall u | u in z.table[j].owners ensures PhaseLate(z.phases, u, j, z.table[j].valid) {
        assert PhaseLate(s.phases, u, j, s.table[j].valid);
      }
    }
  }

  // The steps that free an inode.

  lemma KeepsTruncate(s: State, t: int)
    requires Inv(s) && Can(s, FreeStep(t)) && s.phases[t].stage == Truncate
    ensures Inv(Do(s, FreeStep(t)))
  {
    var z, i := Do(s, FreeStep(t)), s.phases[t].slot;
    assert SlotAt(s, i) && FreeingAt(s, t);
    OnlyFreer(s, t);
    KeepsApart(s, z, i);
    forall j ensures SlotAt(z, j) {
      assert SlotAt(s, j);
      assert Apart(s, i, j) && Apart(s, j, i);
      KeepsLate(s, z, t, j);
    }
    forall u ensures FreeingAt(z, u) { OtherFreer(s, t, u); }
    forall u, j ensures AllocatedAt(z, u, j) {
      assert AllocatedAt(s, u, i) && AllocatedAt(s, u, j);
      KeepsLate(s, z, t, j);
    }
    forall u, v ensures AllocatedApart(z, u, v) { assert AllocatedApart(s, u, v); }
  }

  /** A thread in the early stages has the entry for itself. */
  lemma OnlyFreer(s: State, t: int)
    requires Inv(s) && Can(s, FreeStep(t)) && Early(s.phases[t].stage)
    ensures var e := s.table[s.phases[t].slot];
            e.ref == 1 && e.owners == multiset{t} && e.lock == t && e.valid && !LateOnly(e, s.phases[t].slot, s.phases)
  {
    var i := s.phases[t].slot;
    assert SlotAt(s, i) && FreeingAt(s, t);
    OneOwner(s.table[i], t, t);
    assert s.table[i].owners == (s.table[i].owners - multiset{t}) + multiset{t};
    assert !PhaseLate(s.phases, t, i, s.table[i].valid);
  }

  /** Another thread that frees an inode is at another key, if this one is in the early stages. */
  lemma OtherFreer(s: State, t: int, u: int)
    requires Inv(s) && Can(s, FreeStep(t)) && Early(s.phases[t].stage)
    ensures FreeingAt(s, u)
    ensures 0 <= u < |s.phases| && u != t && s.phases[u].Freeing? ==>
              0 <= s.phases[u].slot < |s.table| && s.table[s.phases[u].slot].key != s.table[s.phases[t].slot].key
  {
    assert FreeingAt(s, u);
    OnlyFreer(s, t);
    if 0 <= u < |s.phases| && u != t && s.phases[u].Freeing? {
      var i, j := s.phases[t].slot, s.phases[u].slot;
      assert SlotAt(s, j);
      assert Apart(s, i, j) && Apart(s, j, i);
      assert |s.table[j].owners| > 0;
    }
  }

  lemma KeepsClearType(s: State, t: int)
    requires Inv(s) && Can(s, FreeStep(t)) && s.phases[t].stage == ClearType
    ensures Inv(Do(s, FreeStep(t)))
  {
    var z, i := Do(s, FreeStep(t)), s.phases[t].slot;
    assert SlotAt(s, i) && FreeingAt(s, t);
    OnlyFreer(s, t);
    KeepsApart(s, z, i);
    forall j ensures SlotAt(z, j) {
      assert SlotAt(s, j);
      KeepsLate(s, z, t, j);
    }
    forall u ensures FreeingAt(z, u) { OtherFreer(s, t, u); }
    forall u, j ensures AllocatedAt(z, u, j) {
      assert AllocatedAt(s, u, j);
      KeepsLate(s, z, t, j);
    }
    forall u, v ensures AllocatedApart(z, u, v) { assert AllocatedApart(s, u, v); }
  }

  lemma KeepsWriteBack(s: State, t: int)
    requires Inv(s) && Can(s, FreeStep(t)) && s.phases[t].stage == WriteBack
    ensures Inv(Do(s, FreeStep(t)))
  {
    var z, i := Do(s, FreeStep(t)), s.phases[t].slot;
    assert SlotAt(s, i) && FreeingAt(s, t);
    OnlyFreer(s, t);
    KeepsApart(s, z, i);
    assert PhaseLate(z.phases, t, i, z.table[i].valid);
    forall j ensures SlotAt(z, j) {
      assert SlotAt(s, j);
      assert Apart(s, i, j) && Apart(s, j, i);
      KeepsLate(s, z, t, j);
    }
    forall u ensures FreeingAt(z, u) { OtherFreer(s, t, u); }
    forall u, j ensures AllocatedAt(z, u, j) {
      assert AllocatedAt(s, u, i) && AllocatedAt(s, u, j);
      KeepsLate(s, z, t, j);
    }
    forall u, v ensures AllocatedApart(z, u, v) { assert AllocatedApart(s, u, v); }
  }

  /** A late thread stays late for its entry; another entry does not see it. */
  lemma StaysLate(s: State, z: State, t: int, j: int)
    requires Inv(s) && Can(s, FreeStep(t)) && (s.phases[t].stage == Invalidate || s.phases[t].stage == Unlock)
             && z == Do(s, FreeStep(t))
    ensures 0 <= j < |s.table| && LateOnly(s.table[j], j, s.phases) ==> LateOnly(z.table[j], j, z.phases)
  {
    if 0 <= j < |s.table| && LateOnly(s.table[j], j, s.phases) {
      assert FreeingAt(s, t);
      forall u | u in z.table[j].owners ensures PhaseLate(z.phases, u, j, z.table[j].valid) {
        assert PhaseLate(s.phases, u, j, s.table[j].valid);
      }
    }
  }

  lemma KeepsInvalidate(s: State, t: int)
    requires Inv(s) && Can(s, FreeStep(t)) && (s.phases[t].stage == Invalidate || s.phases[t].stage == Unlock)
    ensures Inv(Do(s, FreeStep(t)))
  {
    var z, i := Do(s, FreeStep(t)), s.phases[t].slot;
    assert SlotAt(s, i) && FreeingAt(s, t);
    KeepsApart(s, z, i);
    forall j ensures SlotAt(z, j) {
      assert SlotAt(s, j);
      StaysLate(s, z, t, j);
    }
    forall u ensures FreeingAt(z, u) { assert FreeingAt(s, u); }
    forall u, j ensures AllocatedAt(z, u, j) {
      assert AllocatedAt(s, u, j);
      StaysLate(s, z, t, j);
    }
    forall u, v ensures AllocatedApart(z, u, v) { assert AllocatedApart(s, u, v); }
  }

  lemma KeepsDrop(s: State, t: int)
    requires Inv(s) && Can(s, FreeStep(t)) && s.phases[t].stage == Drop
    ensures Inv(Do(s, FreeStep(t)))
  {
    var z, i := Do(s, FreeStep(t)), s.phases[t].slot;
    assert SlotAt(s, i) && FreeingAt(s, t);
    KeepsApart(s, z, i);
    assert z.table[i].ref == |z.table[i].owners|;
    forall j ensures SlotAt(z, j) {
      assert SlotAt(s, j);
      if j != i { KeepsLate(s, z, t, j); }
    }
    forall u ensures FreeingAt(z, u) {
      assert FreeingAt(s, u);
    }
    forall u, j ensures AllocatedAt(z, u, j) {
      assert AllocatedAt(s, u, j);
      if j != i { KeepsLate(s, z, t, j); }
    }
    forall u, v ensures AllocatedApart(z, u, v) { assert AllocatedApart(s, u, v); }
  }

  // New references.

  lemma KeepsIalloc(s: State, t: int, key: Key, kind: int)
    requires Inv(s) && Can(s, Ialloc(t, key, kind))
    ensures Inv(Do(s, Ialloc(t, key, kind)))
  {
    var z := Do(s, Ialloc(t, key, kind));
    forall a, b ensures Apart(z, a, b) { assert Apart(s, a, b); }
    forall j ensures SlotAt(z, j) {
      assert SlotAt(s, j);
      KeepsLate(s, z, t, j);
    }
    forall u ensures FreeingAt(z, u) { assert FreeingAt(s, u); }
    forall u, j ensures AllocatedAt(z, u, j) {
      assert AllocatedAt(s, u, j);
      assert SlotAt(s, j);
      KeepsLate(s, z, t, j);
    }
    forall u, v ensures AllocatedApart(z, u, v) {
      assert AllocatedApart(s, u, v);
      assert AllocatedAt(s, u, 0) && AllocatedAt(s, v, 0);
    }
  }

  lemma IgetSlot(s: State, t: int, key: Key, j: int)
    requires Inv(s) && Can(s, Iget(t, key)) && Usable(s, t, key)
    ensures SlotAt(Do(s, Iget(t, key)), j)
  {
    var z, i := Do(s, Iget(t, key)), SlotFor(s.table, key);
    assert SlotAt(s, i) && AllocatedAt(s, t, i);
    assert SlotAt(s, j);
    if j != i { KeepsLate(s, z, t, j); }
  }

  lemma KeepsIget(s: State, t: int, key: Key)
    requires Inv(s) && Can(s, Iget(t, key)) && Usable(s, t, key)
    ensures Inv(Do(s, Iget(t, key)))
  {
    var z, i := Do(s, Iget(t, key)), SlotFor(s.table, key);
    forall a, b ensures Apart(z, a, b) { assert Apart(s, a, b); }
    forall j ensures SlotAt(z, j) { IgetSlot(s, t, key, j); }
    forall u ensures FreeingAt(z, u) {
      assert FreeingAt(s, u);
      if Frozen(s.phases, u, i) { GetsLate(s, t, key, u); }
    }
    forall u, j ensures AllocatedAt(z, u, j) {
      assert AllocatedAt(s, u, j) && Bystander(s, t, u, key);
      if j != i { KeepsLate(s, z, t, j); }
    }
    forall u, v ensures AllocatedApart(z, u, v) { assert AllocatedApart(s, u, v); }
  }

  /** A thread that frees the entry iget takes has freed the inode on disk already. */
  lemma GetsLate(s: State, t: int, key: Key, u: int)
    requires Inv(s) && Can(s, Iget(t, key)) && Usable(s, t, key) && Frozen(s.phases, u, SlotFor(s.table, key))
    ensures u != t && !Early(s.phases[u].stage) && s.table[SlotFor(s.table, key)].ref > 0
  {
    var i := SlotFor(s.table, key);
    assert FreeingAt(s, u) && SlotAt(s, i) && Bystander(s, t, u, key);
    assert |s.table[i].owners| > 0;
  }

  /** iget keeps the table safe if and only if the inode is usable. */
  lemma IgetExactly(s: State, t: int, key: Key)
    requires Inv(s) && Can(s, Iget(t, key))
    ensures Inv(Do(s, Iget(t, key))) <==> Usable(s, t, key)
  {
    if Usable(s, t, key) {
      KeepsIget(s, t, key);
    } else {
      var z, i := Do(s, Iget(t, key)), SlotFor(s.table, key);
      if Inv(z) {
        IgetOwner(s, t, key);
        OwnerKeepsInode(z, t, i);
        forall u ensures Bystander(s, t, u, key) { IgetBystander(s, t, key, u); }
      }
    }
  }

  lemma IgetOwner(s: State, t: int, key: Key)
    requires Inv(s) && Can(s, Iget(t, key))
    ensures var z, i := Do(s, Iget(t, key)), SlotFor(s.table, key);
            Owns(z, t, i) && z.table[i].key == key && z.table[i].ref == s.table[i].ref + 1 && z.disk == s.disk
  {
    assert SlotAt(s, SlotFor(s.table, key));
  }

  lemma IgetBystander(s: State, t: int, key: Key, u: int)
    requires Inv(s) && Can(s, Iget(t, key)) && Inv(Do(s, Iget(t, key)))
    ensures Bystander(s, t, u, key)
  {
    var z, i := Do(s, Iget(t, key)), SlotFor(s.table, key);
    IgetOwner(s, t, key);
    assert FreeingAt(s, u) && FreeingAt(z, u) && AllocatedAt(z, u, i);
    OwnerKeepsInode(z, t, i);
    if 0 <= u < |s.phases| && u != t && s.phases[u].Freeing? && Early(s.phases[u].stage) {
      var j := s.phases[u].slot;
      assert SlotAt(s, j);
      assert |s.table[j].owners| > 0;
      if s.table[j].key == key {
        assert Holds(s.table[j], key);
        SameSlot(s, i, j);
      }
    }
  }

  // Runs.

  lemma StepKeeps(s: State, step: Step)
    requires Inv(s) == true && Can(s, step) && Careful(s, step)
    ensures Inv(Do(s, step)) == true
  {
    match step
    case Ialloc(t, key, kind) => KeepsIalloc(s, t, key, kind);
    case Iget(t, key) => KeepsIget(s, t, key);
    case Idup(t, i) => KeepsIdup(s, t, i);
    case Acquire(t, i) => KeepsAcquire(s, t, i);
    case Load(t, i) => KeepsLoad(s, t, i);
    case Change(t, i, node) => KeepsChange(s, t, i, node);
    case Iupdate(t, i) => KeepsIupdate(s, t, i);
    case Release(t, i) => KeepsRelease(s, t, i);
    case Iput(t, i) =>
      if Frees(s.table[i]) { KeepsIputFree(s, t, i); } else { KeepsIputDrop(s, t, i); }
    case FreeStep(t) =>
      match s.phases[t].stage
      case Truncate => KeepsTruncate(s, t);
      case ClearType => KeepsClearType(s, t);
      case WriteBack => KeepsWriteBack(s, t);
      case Invalidate => KeepsInvalidate(s, t);
      case Unlock => KeepsInvalidate(s, t);
      case Drop => KeepsDrop(s, t);
  }

  /** After iinit: no entry is in use and every thread is idle; the disk is as it may be. */
  predicate Initial(s: State) {
    && (forall i | 0 <= i < |s.table| ::
          s.table[i].ref == 0 && s.table[i].owners == multiset{} && s.table[i].lock == -1)
    && (forall t | 0 <= t < |s.phases| :: s.phases[t] == Idle)
  }

  predicate Run(s: State, steps: seq<Step>)
    decreases |steps|
  {
    steps == [] || (Can(s, steps[0]) && Run(Do(s, steps[0]), steps[1..]))
  }

  function After(s: State, steps: seq<Step>): State
    requires Run(s, steps)
    decreases |steps|
  {
    if steps == [] then s else After(Do(s, steps[0]), steps[1..])
  }

  /** An iget is of a usable inode. */
  ghost predicate Careful(s: State, step: Step) {
    step.Iget? ==> Usable(s, step.t, step.key)
  }

  /** Every iget of the run is. */
  ghost predicate CarefulRun(s: State, steps: seq<Step>)
    requires Run(s, steps)
    decreases |steps|
  {
    steps == [] || (Careful(s, steps[0]) && CarefulRun(Do(s, steps[0]), steps[1..]))
  }

  /** The invariant holds at every point of the run. */
  ghost predicate InvAlong(s: State, steps: seq<Step>)
    requires Run(s, steps)
    decreases |steps|
  {
    Inv(s) && (steps == [] || InvAlong(Do(s, steps[0]), steps[1..]))
  }

  /** A run is safe throughout if and only if every iget in it is of a usable inode. */
  lemma {:induction false} RunSafeExactly(s: State, steps: seq<Step>)
    requires Inv(s) == true && Run(s, steps)
    ensures InvAlong(s, steps) <==> CarefulRun(s, steps)
    decreases |steps|
  {
    if steps != [] {
      if Careful(s, steps[0]) {
        StepKeeps(s, steps[0]);
        RunSafeExactly(Do(s, steps[0]), steps[1..]);
      } else {
        IgetExactly(s, steps[0].t, steps[0].key);
      }
    }
  }

  lemma {:induction false} RunKeeps(s: State, steps: seq<Step>)
    requires Inv(s) == true && Run(s, steps) && CarefulRun(s, steps)
    ensures Inv(After(s, steps)) == true
    decreases |steps|
  {
    if steps != [] {
      StepKeeps(s, steps[0]);
      RunKeeps(Do(s, steps[0]), steps[1..]);
    }
  }

  lemma ReachableInv(s: State, steps: seq<Step>)
    requires Initial(s) && Run(s, steps) && CarefulRun(s, steps)
    ensures Inv(After(s, steps)) == true
  {
    assert Inv(s);
    RunKeeps(s, steps);
  }

  /** iupdate outside iput writes an inode that is in use. */
  lemma WritesUsed(s: State, t: int, i: int)
    requires Inv(s) && Can(s, Iupdate(t, i))
    ensures s.table[i].node.kind != 0
  {
    assert SlotAt(s, i);
    assert |s.table[i].owners| > 0;
  }

  /** An inode becomes free on disk only in the last part of iput, with no links and when the thread
      has the only reference and the lock. */
  lemma FreedOnlyUnused(s: State, steps: seq<Step>, step: Step, key: Key)
    requires Initial(s) && Run(s, steps) && CarefulRun(s, steps) && Can(After(s, steps), step)
    requires var z := After(s, steps); key in z.disk && z.disk[key].kind != 0 && Do(z, step).disk[key].kind == 0
    ensures var z := After(s, steps);
            && step.FreeStep? && z.phases[step.t].Freeing? && z.phases[step.t].stage == WriteBack
               && z.disk[key].nlink == 0
            && var e := z.table[z.phases[step.t].slot];
               e.key == key && e.ref == 1 && e.owners == multiset{step.t} && e.lock == step.t
  {
    var z := After(s, steps);
    ReachableInv(s, steps);
    match step {
      case Iupdate(t, i) =>
        WritesUsed(z, t, i);
      case FreeStep(t) =>
        assert FreeingAt(z, t);
        if Early(z.phases[t].stage) { OnlyFreer(z, t); }
      case _ =>
    }
  }

  /** ilock returns with the copy equal to the inode on disk, which is in use, whether it had to load
      it or not: also when its number was reused while another thread was still in iput. */
  lemma LockedCopyIsCurrent(s: State, steps: seq<Step>, step: Step)
    requires Initial(s) && Run(s, steps) && CarefulRun(s, steps) && Can(After(s, steps), step)
    requires step.Load? || (step.Acquire? && After(s, steps).table[step.i].valid)
    ensures var z := Do(After(s, steps), step); var e := z.table[step.i];
            e.valid && e.lock == step.t && e.key in z.disk && e.node == z.disk[e.key] && e.node.kind != 0
  {
    ReachableInv(s, steps);
    var z := After(s, steps);
    OwnerKeepsInode(z, step.t, step.i);
    assert SlotAt(z, step.i);
  }

  // Which inodes are usable.

  /** A directory in the tree names the inode, so that it has links, on disk and in its copy. */
  predicate Named(s: State, key: Key) {
    && key in s.disk && s.disk[key].kind != 0 && s.disk[key].nlink >= 1
    && forall i | 0 <= i < |s.table| :: Holds(s.table[i], key) && s.table[i].valid ==> s.table[i].node.nlink >= 1
  }

  lemma NamedIsUsable(s: State, t: int, key: Key)
    requires Inv(s) && Named(s, key)
    ensures Usable(s, t, key)
  {
    forall u ensures Bystander(s, t, u, key) {
      assert FreeingAt(s, u) && AllocatedAt(s, u, 0);
    }
  }

  /** The inode of an entry that the thread has a reference to, as for ".". */
  lemma OwnIsUsable(s: State, t: int, i: int)
    requires Inv(s) && Owns(s, t, i)
    ensures Usable(s, t, s.table[i].key)
  {
    var key := s.table[i].key;
    OwnerKeepsInode(s, t, i);
    forall u ensures Bystander(s, t, u, key) {
      assert FreeingAt(s, u);
      if 0 <= u < |s.phases| && s.phases[u].Freeing? {
        var j := s.phases[u].slot;
        assert SlotAt(s, j);
        assert |s.table[j].owners| > 0;
        if s.table[j].key == key {
          SameSlot(s, i, j);
          FreerShares(s, t, i, u);
        }
      }
    }
  }
}
