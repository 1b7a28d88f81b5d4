/** The inode table of kernel/fs.c:198-362 as a step system: threads get, lock, change, unlock and put
    inodes; iput frees an inode in several steps, between which ialloc may reuse its number. */
module InodeTable {

  datatype Key = Key(dev: int, inum: int)

  /** An inode on disk; kind 0 marks a free one. rest stands for the other fields. */
  datatype Dinode = Dinode(kind: int, nlink: int, rest: int)

  /** A table entry. owners are the threads that hold its references, once for each; lock is the
      holder of the sleep-lock, or -1. */
  datatype Entry = Entry(key: Key, ref: int, owners: multiset<int>, valid: bool, lock: int, node: Dinode)

  /** What is next to do when iput frees an inode. */
  datatype Stage = Truncate | ClearType | WriteBack | Invalidate | Unlock | Drop

  datatype Phase = Idle | Allocated(key: Key) | Freeing(slot: int, stage: Stage)

  datatype State = State(table: seq<Entry>, disk: map<Key, Dinode>, phases: seq<Phase>)

  datatype Step =
    | Ialloc(t: int, key: Key, kind: int)
    | Iget(t: int, key: Key)
    | Idup(t: int, i: int)
    | Acquire(t: int, i: int)
    | Load(t: int, i: int)
    | Change(t: int, i: int, node: Dinode)
    | Iupdate(t: int, i: int)
    | Release(t: int, i: int)
    | Iput(t: int, i: int)
    | FreeStep(t: int)

  predicate LiveEntry(e: Entry) { e.ref > 0 }

  // iget.

  predicate Holds(e: Entry, key: Key) { e.ref > 0 && e.key == key }

  /** The entry iget takes: the live one with that key, or else the first unused one, or -1. */
  function SlotFor(table: seq<Entry>, key: Key): (i: int)
    ensures -1 <= i < |table|
    ensures i >= 0 ==>
              Holds(table[i], key) || (table[i].ref == 0 && forall j | 0 <= j < |table| :: !Holds(table[j], key))
  {
    var i := FirstHolding(table, key);
    if i < |table| then i else FirstUnused(table)
  }

  function FirstHolding(table: seq<Entry>, key: Key): (i: nat)
    ensures i <= |table| && (i < |table| ==> Holds(table[i], key)) && forall j | 0 <= j < i :: !Holds(table[j], key)
  {
    if table == [] || Holds(table[0], key) then 0 else 1 + FirstHolding(table[1..], key)
  }

  function FirstUnused(table: seq<Entry>): (i: int)
    ensures -1 <= i < |table| && (i >= 0 ==> table[i].ref == 0 && forall j | 0 <= j < i :: table[j].ref != 0)
    ensures i == -1 ==> forall j | 0 <= j < |table| :: table[j].ref != 0
  {
    if table == [] then -1
    else if table[0].ref == 0 then 0
    else var i := FirstUnused(table[1..]); if i == -1 then -1 else i + 1
  }

  /** iget's one pass over the table. */
  method FindSlot(table: seq<Entry>, key: Key) returns (slot: int)
    ensures slot == SlotFor(table, key)
  {
    var empty, i := -1, 0;
    while i < |table|
      invariant 0 <= i <= |table| && -1 <= empty < i
      invariant forall j | 0 <= j < i :: !Holds(table[j], key)
      invariant empty == -1 ==> forall j | 0 <= j < i :: table[j].ref != 0
      invariant empty >= 0 ==> table[empty].ref == 0 && forall j | 0 <= j < empty :: table[j].ref != 0
    {
      if table[i].ref > 0 && table[i].key == key {
        return i;
      }
      if empty == -1 && table[i].ref == 0 {
        empty := i;
      }
      i := i + 1;
    }
    slot := empty;
  }

  function Gotten(e: Entry, key: Key, t: int): Entry {
    if e.ref > 0 then e.(ref := e.ref + 1, owners := e.owners + multiset{t})
    else Entry(key, 1, multiset{t}, false, e.lock, e.node)
  }

  // Steps.

  predicate Owns(s: State, t: int, i: int) {
    0 <= t < |s.phases| && s.phases[t] == Idle && 0 <= i < |s.table| && t in s.table[i].owners
  }

  predicate Locked(s: State, t: int, i: int) {
    Owns(s, t, i) && s.table[i].lock == t
  }

  /** iput frees the inode: last reference, no links. */
  predicate Frees(e: Entry) {
    e.ref == 1 && e.valid && e.node.nlink == 0
  }

  /** What the code and its rules for callers allow: an inode is used by those who hold a reference,
      changed by the lock's holder and written back before the lock goes. iget takes whatever inode
      number a directory entry gives it, or the one just allocated. */
  predicate Can(s: State, step: Step) {
    match step
    case Ialloc(t, key, kind) =>
      0 <= t < |s.phases| && s.phases[t] == Idle && key in s.disk && s.disk[key].kind == 0 && kind != 0
    case Iget(t, key) =>
      && 0 <= t < |s.phases| && SlotFor(s.table, key) != -1 && key in s.disk
      && (s.phases[t] == Allocated(key) || s.phases[t] == Idle)
    case Idup(t, i) => Owns(s, t, i)
    case Acquire(t, i) => Owns(s, t, i) && s.table[i].lock == -1
    case Load(t, i) => Locked(s, t, i) && !s.table[i].valid && s.table[i].key in s.disk
    case Change(t, i, node) => Locked(s, t, i) && s.table[i].valid && node.kind != 0
    case Iupdate(t, i) => Locked(s, t, i) && s.table[i].valid
    case Release(t, i) =>
      Locked(s, t, i) && s.table[i].valid && s.table[i].key in s.disk && s.table[i].node == s.disk[s.table[i].key]
    case Iput(t, i) => Owns(s, t, i) && (s.table[i].lock != t || s.table[i].owners[t] >= 2)
    case FreeStep(t) =>
      0 <= t < |s.phases| && s.phases[t].Freeing? && 0 <= s.phases[t].slot < |s.table|
  }

  function WithEntry(s: State, i: int, e: Entry): State
    requires 0 <= i < |s.table|
  {
    s.(table := s.table[i := e])
  }

  function WithPhase(s: State, t: int, p: Phase): State
    requires 0 <= t < |s.phases|
  {
    s.(phases := s.phases[t := p])
  }

  function Dropped(e: Entry, t: int): Entry {
    e.(ref := e.ref - 1, owners := e.owners - multiset{t})
  }

  function Written(s: State, key: Key, node: Dinode): State {
    s.(disk := s.disk[key := node])
  }

  function Do(s: State, step: Step): State
    requires Can(s, step)
  {
    match step
    case Ialloc(t, key, kind) => WithPhase(Written(s, key, Dinode(kind, 0, 0)), t, Allocated(key))
    case Iget(t, key) =>
      var i := SlotFor(s.table, key);
      WithPhase(WithEntry(s, i, Gotten(s.table[i], key, t)), t, Idle)
    case Idup(t, i) => WithEntry(s, i, Gotten(s.table[i], s.table[i].key, t))
    case Acquire(t, i) => WithEntry(s, i, s.table[i].(lock := t))
    case Load(t, i) => WithEntry(s, i, s.table[i].(node := s.disk[s.table[i].key], valid := true))
    case Change(t, i, node) => WithEntry(s, i, s.table[i].(node := node))
    case Iupdate(t, i) => Written(s, s.table[i].key, s.table[i].node)
    case Release(t, i) => WithEntry(s, i, s.table[i].(lock := -1))
    case Iput(t, i) =>
      if Frees(s.table[i]) then WithPhase(WithEntry(s, i, s.table[i].(lock := t)), t, Freeing(i, Truncate))
      else WithEntry(s, i, Dropped(s.table[i], t))
    case FreeStep(t) => FreeDone(s, t, s.phases[t].slot, s.phases[t].stage)
  }

  /** The steps of iput after the test: truncate and write back, clear the type, write that back, mark
      the copy invalid, unlock, drop the reference. */
  function FreeDone(s: State, t: int, i: int, stage: Stage): State
    requires 0 <= t < |s.phases| && 0 <= i < |s.table|
  {
    var e := s.table[i];
    match stage
    case Truncate =>
      var x := e.node.(rest := 0);
      WithPhase(Written(WithEntry(s, i, e.(node := x)), e.key, x), t, Freeing(i, ClearType))
    case ClearType => WithPhase(WithEntry(s, i, e.(node := e.node.(kind := 0))), t, Freeing(i, WriteBack))
    case WriteBack => WithPhase(Written(s, e.key, e.node), t, Freeing(i, Invalidate))
    case Invalidate => WithPhase(WithEntry(s, i, e.(valid := false)), t, Freeing(i, Unlock))
    case Unlock => WithPhase(WithEntry(s, i, e.(lock := -1)), t, Freeing(i, Drop))
    case Drop => WithPhase(WithEntry(s, i, Dropped(e, t)), t, Idle)
  }

  // The invariant.

  predicate Early(stage: Stage) {
    stage == Truncate || stage == ClearType || stage == WriteBack
  }

  predicate IsLate(p: Phase, i: int, valid: bool) {
    p.Freeing? && p.slot == i && !Early(p.stage) && (p.stage != Invalidate ==> !valid)
  }

  predicate PhaseLate(phases: seq<Phase>, u: int, i: int, valid: bool) {
    0 <= u < |phases| && IsLate(phases[u], i, valid)
  }

  /** The entry's one reference is that of a thread that has freed the inode on disk already. */
  predicate LateOnly(e: Entry, i: int, phases: seq<Phase>) {
    e.ref == 1 && forall u {:trigger PhaseLate(phases, u, i, e.valid)} | u in e.owners ::
          PhaseLate(phases, u, i, e.valid)
  }

  predicate Frozen(phases: seq<Phase>, u: int, i: int) {
    0 <= u < |phases| && phases[u].Freeing? && phases[u].slot == i
  }

  predicate LiveOk(e: Entry, i: int, disk: map<Key, Dinode>, phases: seq<Phase>) {
    && e.key in disk
    && (e.valid && e.lock == -1 ==> e.node == disk[e.key] && e.node.kind != 0)
    && (disk[e.key].kind == 0 ==> LateOnly(e, i, phases))
    && (e.lock != -1 && e.valid && !Frozen(phases, e.lock, i) ==> e.node.kind != 0)
  }

  predicate SlotOk(e: Entry, i: int, disk: map<Key, Dinode>, phases: seq<Phase>) {
    && e.ref == |e.owners|
    && (e.lock != -1 ==> e.lock in e.owners)
    && (e.ref > 0 ==> LiveOk(e, i, disk, phases))
  }

  predicate FreeingOk(e: Entry, t: int, stage: Stage, disk: map<Key, Dinode>) {
    && e.owners[t] == 1 && e.key in disk
    && (stage != Drop <==> e.lock == t)
    && (Early(stage) ==> e.ref == 1 && e.valid && e.node.nlink == 0 && disk[e.key].kind != 0 && disk[e.key].nlink == 0)
    && (stage == Truncate || stage == ClearType ==> e.node.kind != 0)
    && (stage == WriteBack ==> e.node.kind == 0)
    && (stage == Invalidate ==> e.valid)
    && (stage == Unlock ==> !e.valid)
  }

  /** No other thread has just allocated the inode, or is freeing it and has not written that yet. */
  predicate Bystander(s: State, t: int, u: int, key: Key) {
    0 <= u < |s.phases| && u != t ==>
      && s.phases[u] != Allocated(key)
      && (s.phases[u].Freeing? && Early(s.phases[u].stage) && 0 <= s.phases[u].slot < |s.table| ==>
            s.table[s.phases[u].slot].key != key)
  }

  /** What iget by thread t needs: the inode is in use and stays so. */
  ghost predicate Usable(s: State, t: int, key: Key) {
    key in s.disk && s.disk[key].kind != 0 && forall u {:trigger Bystander(s, t, u, key)} :: Bystander(s, t, u, key)
  }

  predicate SlotAt(s: State, i: int) {
    0 <= i < |s.table| ==> SlotOk(s.table[i], i, s.disk, s.phases)
  }

  predicate Apart(s: State, i: int, j: int) {
    0 <= i < j < |s.table| && s.table[i].ref > 0 && s.table[j].ref > 0 ==> s.table[i].key != s.table[j].key
  }

  predicate FreeingAt(s: State, t: int) {
    0 <= t < |s.phases| && s.phases[t].Freeing? ==>
      0 <= s.phases[t].slot < |s.table| && FreeingOk(s.table[s.phases[t].slot], t, s.phases[t].stage, s.disk)
  }

  /** A new inode has no links yet, and at most a thread that finishes freeing it has a reference. */
  predicate AllocatedAt(s: State, t: int, i: int) {
    0 <= t < |s.phases| && s.phases[t].Allocated? ==>
      && s.phases[t].key in s.disk && s.disk[s.phases[t].key].kind != 0 && s.disk[s.phases[t].key].nlink == 0
      && (0 <= i < |s.table| && Holds(s.table[i], s.phases[t].key) ==> LateOnly(s.table[i], i, s.phases))
  }

  predicate AllocatedApart(s: State, t: int, u: int) {
    0 <= t < u < |s.phases| && s.phases[t].Allocated? && s.phases[u].Allocated? ==> s.phases[t].key != s.phases[u].key
  }

  ghost predicate Inv(s: State) {
    && (forall i {:trigger SlotAt(s, i)} :: SlotAt(s, i))
    && (forall i, j {:trigger Apart(s, i, j)} :: Apart(s, i, j))
    && (forall t {:trigger FreeingAt(s, t)} :: FreeingAt(s, t))
    && (forall t, i {:trigger AllocatedAt(s, t, i)} :: AllocatedAt(s, t, i))
    && (forall t, u {:trigger AllocatedApart(s, t, u)} :: AllocatedApart(s, t, u))
  }
}
