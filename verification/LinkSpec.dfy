/** Link counts: an inode's nlink against the directory entries that name it, and the tree that the
    directories make (kernel/sysfile.c, kernel/fs.c). */
module LinkSpec {
  import opened DirSpec

  datatype Kind = Free | Dir | Plain | Device

  datatype Inode = Inode(kind: Kind, nlink: int, entries: seq<Dirent>)

  const ROOT := 1

  /** nlink is a short. */
  const SHORT_MAX := 32767

  function Inc16(n: int): int {
    if n == SHORT_MAX then -SHORT_MAX - 1 else n + 1
  }

  function Dot(): string { Field(".") }
  function DotDot(): string { Field("..") }

  /** Entry e counts towards the links of inode i; "." does not. */
  predicate Names(e: Dirent, i: int) {
    i != 0 && e.inum == i && e.name != Dot()
  }

  function One(b: bool): int { if b then 1 else 0 }

  function Count(es: seq<Dirent>, i: int): (n: int)
    ensures n >= 0
  {
    if es == [] then 0 else One(Names(es[0], i)) + Count(es[1..], i)
  }

  /** A directory that is in the tree, not unlinked. */
  predicate Linked(x: Inode) {
    x.kind == Dir && x.nlink >= 1
  }

  function Gives(x: Inode, i: int): (n: int)
    ensures n >= 0
  {
    if Linked(x) then Count(x.entries, i) else 0
  }

  /** How many entries other than "." name i in linked directories. */
  function Refs(xs: seq<Inode>, i: int): (n: int)
    ensures n >= 0
  {
    if xs == [] then 0 else Gives(xs[0], i) + Refs(xs[1..], i)
  }

  // Counting.

  lemma {:induction false} CountPut(es: seq<Dirent>, k: int, e: Dirent, i: int)
    requires 0 <= k <= |es|
    ensures Count(Put(es, k, e), i) == Count(es, i) + One(Names(e, i)) - (if k < |es| then One(Names(es[k], i)) else 0)
  {
    if es == [] {
      assert Put(es, k, e) == [e];
    } else if k == 0 {
      assert Put(es, k, e)[1..] == es[1..];
    } else {
      assert Put(es, k, e)[1..] == Put(es[1..], k - 1, e);
      CountPut(es[1..], k - 1, e, i);
    }
  }

  lemma {:induction false} RefsSet(xs: seq<Inode>, d: int, x: Inode, i: int)
    requires 0 <= d < |xs|
    ensures Refs(xs[d := x], i) == Refs(xs, i) - Gives(xs[d], i) + Gives(x, i)
  {
    if d == 0 {
      assert xs[d := x][1..] == xs[1..];
    } else {
      assert xs[d := x][1..] == xs[1..][d - 1 := x];
      RefsSet(xs[1..], d - 1, x, i);
    }
  }

  lemma {:induction false} CountZero(es: seq<Dirent>, i: int)
    requires forall k | 0 <= k < |es| :: !Names(es[k], i)
    ensures Count(es, i) == 0
  {
    if es != [] { CountZero(es[1..], i); }
  }

  lemma {:induction false} RefsZero(xs: seq<Inode>, i: int)
    requires forall d | 0 <= d < |xs| :: Gives(xs[d], i) == 0
    ensures Refs(xs, i) == 0
  {
    if xs != [] { RefsZero(xs[1..], i); }
  }

  /** Two directories together give no more than all do. */
  lemma RefsTwo(xs: seq<Inode>, a: int, b: int, i: int)
    requires 0 <= a < |xs| && 0 <= b < |xs| && a != b
    ensures Refs(xs, i) >= Gives(xs[a], i) + Gives(xs[b], i)
  {
    var none := Inode(Free, 0, []);
    RefsSet(xs, a, none, i);
    RefsSet(xs[a := none], b, none, i);
  }

  /** An entry counts. */
  lemma CountedEntry(es: seq<Dirent>, k: int, i: int)
    requires 0 <= k < |es| && Names(es[k], i)
    ensures Count(es, i) >= 1
  {
    CountPut(es, k, Dirent(0, ""), i);
  }

  lemma CountOne(es: seq<Dirent>, k: int, i: int)
    requires 0 <= k < |es| && Names(es[k], i) && forall j | 0 <= j < |es| && j != k :: !Names(es[j], i)
    ensures Count(es, i) == 1
  {
    CountPut(es, k, Dirent(0, ""), i);
    CountZero(es[k := Dirent(0, "")], i);
  }

  lemma RefsOne(xs: seq<Inode>, d: int, i: int)
    requires 0 <= d < |xs| && forall a | 0 <= a < |xs| && a != d :: Gives(xs[a], i) == 0
    ensures Refs(xs, i) == Gives(xs[d], i)
  {
    var x := Inode(Free, 0, []);
    RefsSet(xs, d, x, i);
    RefsZero(xs[d := x], i);
  }

  // The invariant.

  /** Where a directory other than the root is listed: entry k of directory d; depth counts the steps
      up to the root. */
  datatype Place = Place(d: int, k: int, depth: nat)

  function Depth(place: map<int, Place>, d: int): nat {
    if d in place then place[d].depth else 0
  }

  /** A directory starts with "." for itself and ".."; names differ. */
  predicate DirOk(n: int, d: int, es: seq<Dirent>) {
    && EntriesOk(es) && |es| >= 2 && es[0] == Dirent(d, Dot()) && es[1].name == DotDot() && Live(es[1])
    && (forall k | 0 <= k < |es| :: 0 <= es[k].inum < n)
  }

  /** The inode that ".." names. */
  function Parent(x: Inode): int {
    if |x.entries| >= 2 then x.entries[1].inum else 0
  }

  predicate Bare(es: seq<Dirent>) {
    forall k | 2 <= k < |es| :: !Live(es[k])
  }

  predicate InodeOk(n: int, i: int, x: Inode) {
    && 0 <= x.nlink <= SHORT_MAX
    && (x.kind == Free ==> x.nlink == 0 && x.entries == [])
    && (x.kind == Dir && x.nlink >= 1 ==> DirOk(n, i, x.entries))
    && (x.kind == Dir && x.nlink == 0 ==> x.entries == [] || (DirOk(n, i, x.entries) && Bare(x.entries)))
  }

  predicate InodesOk(xs: seq<Inode>) {
    && ROOT < |xs| && xs[0].kind == Free && Linked(xs[ROOT])
    && (forall i {:trigger InodeOk(|xs|, i, xs[i])} | 0 <= i < |xs| :: InodeOk(|xs|, i, xs[i]))
    && Parent(xs[ROOT]) == ROOT
  }

  /** Directory c is listed at place p, and its ".." says so. */
  predicate PlaceOk(xs: seq<Inode>, place: map<int, Place>, c: int, p: Place) {
    && 0 <= c < |xs| && c != ROOT && Linked(xs[c]) && Parent(xs[c]) == p.d
    && 0 <= p.d < |xs| && Linked(xs[p.d]) && 2 <= p.k < |xs[p.d].entries| && xs[p.d].entries[p.k].inum == c
    && p.depth == Depth(place, p.d) + 1
  }

  /** An entry other than "." and ".." names an inode in use, and is the only one of a directory. */
  predicate EntryOk(xs: seq<Inode>, place: map<int, Place>, d: int, k: int, i: int) {
    0 <= i < |xs| && xs[i].kind != Free && (xs[i].kind == Dir ==> i in place && place[i].d == d && place[i].k == k)
  }

  /** Directory c has a place exactly when it is linked and not the root. */
  predicate Placed(xs: seq<Inode>, place: map<int, Place>, c: int) {
    && (c in place ==> PlaceOk(xs, place, c, place[c]))
    && (0 <= c < |xs| && c != ROOT && Linked(xs[c]) ==> c in place)
  }

  predicate EntryListed(xs: seq<Inode>, place: map<int, Place>, d: int, k: int) {
    (0 <= d < |xs| && Linked(xs[d]) && 2 <= k < |xs[d].entries| && Live(xs[d].entries[k])) ==>
      EntryOk(xs, place, d, k, xs[d].entries[k].inum)
  }

  ghost predicate Listed(xs: seq<Inode>, place: map<int, Place>) {
    && (forall c {:trigger Placed(xs, place, c)} :: Placed(xs, place, c))
    && (forall d, k {:trigger EntryListed(xs, place, d, k)} :: EntryListed(xs, place, d, k))
  }

  /** nlink counts the entries, and the links that link() has counted and not made yet. */
  predicate CountOk(xs: seq<Inode>, pending: seq<int>, i: int)
    requires |pending| == |xs| && 0 <= i < |xs|
  {
    xs[i].nlink == Refs(xs, i) + pending[i] && pending[i] >= 0
        && (pending[i] > 0 ==> xs[i].kind == Plain || xs[i].kind == Device)
  }

  predicate Counts(xs: seq<Inode>, pending: seq<int>) {
    |pending| == |xs| && forall i {:trigger CountOk(xs, pending, i)} | 0 < i < |xs| :: CountOk(xs, pending, i)
  }

  ghost predicate Inv(xs: seq<Inode>, pending: seq<int>, place: map<int, Place>) {
    InodesOk(xs) && Counts(xs, pending) && Listed(xs, place)
  }

  // Changes of one inode.

  function WithEntry(xs: seq<Inode>, d: int, k: int, e: Dirent): (r: seq<Inode>)
    requires 0 <= d < |xs| && 0 <= k <= |xs[d].entries|
    ensures |r| == |xs|
  {
    xs[d := xs[d].(entries := Put(xs[d].entries, k, e))]
  }

  function WithNlink(xs: seq<Inode>, i: int, n: int): (r: seq<Inode>)
    requires 0 <= i < |xs|
    ensures |r| == |xs|
  {
    xs[i := xs[i].(nlink := n)]
  }

  /** A new entry in a free place of a linked directory counts for the inode it names. */
  lemma EntryCounts(xs: seq<Inode>, d: int, k: int, e: Dirent, i: int)
    requires 0 <= d < |xs| && 0 <= k <= |xs[d].entries| && (k < |xs[d].entries| ==> !Live(xs[d].entries[k])) && i != 0
    ensures Refs(WithEntry(xs, d, k, e), i) == Refs(xs, i) + (if Linked(xs[d]) then One(Names(e, i)) else 0)
  {
    RefsSet(xs, d, xs[d].(entries := Put(xs[d].entries, k, e)), i);
    CountPut(xs[d].entries, k, e, i);
  }

  /** Clearing an entry takes it off the count. */
  lemma ClearedCounts(xs: seq<Inode>, d: int, k: int, e: Dirent, i: int)
    requires 0 <= d < |xs| && 0 <= k < |xs[d].entries| && Linked(xs[d]) && !Live(e) && i != 0
    ensures Refs(WithEntry(xs, d, k, e), i) == Refs(xs, i) - One(Names(xs[d].entries[k], i))
  {
    RefsSet(xs, d, xs[d].(entries := Put(xs[d].entries, k, e)), i);
    CountPut(xs[d].entries, k, e, i);
  }

  lemma NlinkCounts(xs: seq<Inode>, i: int, n: int, j: int)
    requires 0 <= i < |xs|
    ensures Refs(WithNlink(xs, i, n), j) == Refs(xs, j) - Gives(xs[i], j) + Gives(xs[i].(nlink := n), j)
  {
    RefsSet(xs, i, xs[i].(nlink := n), j);
  }
}
