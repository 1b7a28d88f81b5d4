/** What create, link and unlink do to the inodes, and that each keeps link counts and the directory
    tree (kernel/sysfile.c:123-302). */
module LinkOps {
  import opened DirSpec
  import opened LinkSpec

  /** A name can be added to directory d at place k. */
  predicate CanAdd(xs: seq<Inode>, d: int, k: int, f: string) {
    && 0 < d < |xs| && xs[d].kind == Dir && |xs[d].entries| >= 2 && 0 <= k <= |xs[d].entries|
       && (k < |xs[d].entries| ==> !Live(xs[d].entries[k]))
    && Clean(f) && Find(xs[d].entries, f) == -1
  }

  function FirstEntries(ip: int, dp: int): seq<Dirent> {
    [Dirent(ip, Dot()), Dirent(dp, DotDot())]
  }

  function NewInode(ip: int, dp: int, kind: Kind): Inode {
    Inode(kind, 1, if kind == Dir then FirstEntries(ip, dp) else [])
  }

  function Created(xs: seq<Inode>, dp: int, k: int, f: string, ip: int, kind: Kind): (r: seq<Inode>)
    requires CanAdd(xs, dp, k, f) && 0 < ip < |xs| && ip != dp
    ensures |r| == |xs|
  {
    var ys := WithEntry(xs[ip := NewInode(ip, dp, kind)], dp, k, Dirent(ip, f));
    if kind == Dir then WithNlink(ys, dp, Inc16(xs[dp].nlink)) else ys
  }

  /** The parent can count one more directory. */
  predicate CanCount(x: Inode, kind: Kind) {
    kind == Dir ==> x.nlink < SHORT_MAX
  }

  lemma DotsDiffer()
    ensures Dot() != DotDot() && Clean(Dot()) && Clean(DotDot())
  {
    assert Dot()[1] == '\0' && DotDot()[1] == '.';
    FieldClean(".");
    FieldClean("..");
  }

  lemma FirstEntriesOk(n: int, ip: int, dp: int)
    requires 0 < ip < n && 0 < dp < n
    ensures DirOk(n, ip, FirstEntries(ip, dp))
  {
    DotsDiffer();
    var es := FirstEntries(ip, dp);
    assert Differ(es[0], es[1]);
  }

  /** The new entry is at a place after "." and "..", with another name than these. */
  lemma AddedDirOk(n: int, d: int, es: seq<Dirent>, k: int, e: Dirent)
    requires DirOk(n, d, es) && d != 0 && 0 <= k <= |es| && (k < |es| ==> !Live(es[k])) && Clean(e.name)
             && Find(es, e.name) == -1
    requires 0 < e.inum < n
    ensures DirOk(n, d, Put(es, k, e)) && k >= 2 && e.name != Dot()
  {
    PutOk(es, k, e);
    assert Live(es[0]);
  }

  lemma CreatedInodesOk(xs: seq<Inode>, dp: int, k: int, f: string, ip: int, kind: Kind)
    requires CanCreate(xs, dp, k, f, ip, kind)
    ensures InodesOk(Created(xs, dp, k, f, ip, kind))
  {
    var n := |xs|;
    assert InodeOk(n, dp, xs[dp]);
    AddedDirOk(n, dp, xs[dp].entries, k, Dirent(ip, f));
    FirstEntriesOk(n, ip, dp);
    assert InodeOk(n, ip, NewInode(ip, dp, kind));
    var zs := Created(xs, dp, k, f, ip, kind);
    forall i | 0 <= i < n ensures InodeOk(n, i, zs[i]) {
      assert InodeOk(n, i, xs[i]);
    }
  }

  /** How create changes the number of entries that name i. */
  lemma CreatedRefs(xs: seq<Inode>, dp: int, k: int, f: string, ip: int, kind: Kind, i: int)
    requires InodesOk(xs) && CanAdd(xs, dp, k, f) && 0 < ip < |xs| && xs[ip].kind == Free && kind != Free && i != 0
    requires CanCount(xs[dp], kind)
    ensures var r := Refs(Created(xs, dp, k, f, ip, kind), i) - Refs(xs, i);
            if Linked(xs[dp]) then r == One(i == ip) + One(kind == Dir && i == dp)
            else if kind == Dir then r == One(i == ip) + One(i == dp) + One(i == Parent(xs[dp]))
            else r == 0
  {
    var x, e := NewInode(ip, dp, kind), Dirent(ip, f);
    assert InodeOk(|xs|, dp, xs[dp]);
    AddedDirOk(|xs|, dp, xs[dp].entries, k, e);
    DotsDiffer();
    RefsSet(xs, ip, x, i);
    NewGives(ip, dp, kind, i);
    EntryCounts(xs[ip := x], dp, k, e, i);
    if kind == Dir {
      var ys := WithEntry(xs[ip := x], dp, k, e);
      NlinkCounts(ys, dp, Inc16(xs[dp].nlink), i);
      if !Linked(xs[dp]) {
        BareCounts(|xs|, dp, xs[dp].entries, i);
        CountPut(xs[dp].entries, k, e, i);
      }
    }
  }

  lemma NewGives(ip: int, dp: int, kind: Kind, i: int)
    requires i != 0 && kind != Free
    ensures Gives(NewInode(ip, dp, kind), i) == One(kind == Dir && i == dp)
  {
    DotsDiffer();
    if kind == Dir {
      var es := FirstEntries(ip, dp);
      if i == dp { CountOne(es, 1, i); } else { CountZero(es, i); }
    }
  }

  /** A directory with no entries but "." and ".." gives one link, to its parent. */
  lemma BareCounts(n: int, d: int, es: seq<Dirent>, i: int)
    requires DirOk(n, d, es) && Bare(es) && i != 0
    ensures Count(es, i) == One(i == es[1].inum)
  {
    DotsDiffer();
    if i == es[1].inum { CountOne(es, 1, i); } else { CountZero(es, i); }
  }

  lemma CreatedCounts(xs: seq<Inode>, pending: seq<int>, dp: int, k: int, f: string, ip: int, kind: Kind)
    requires Counts(xs, pending) && CanCreate(xs, dp, k, f, ip, kind)
    ensures Counts(Created(xs, dp, k, f, ip, kind), pending)
  {
    var zs := Created(xs, dp, k, f, ip, kind);
    forall i | 0 < i < |xs| ensures CountOk(zs, pending, i) {
      CreatedRefs(xs, dp, k, f, ip, kind, i);
      assert CountOk(xs, pending, i) && InodeOk(|xs|, i, xs[i]);
    }
  }

  /** create keeps the link counts exactly when the parent is still linked, and, for a directory, can count
      one more. */
  lemma CreateCountsExactly(xs: seq<Inode>, pending: seq<int>, dp: int, k: int, f: string, ip: int, kind: Kind)
    requires InodesOk(xs) && Counts(xs, pending) && CanAdd(xs, dp, k, f) && 0 < ip < |xs| && xs[ip].kind == Free
             && kind != Free
    ensures Counts(Created(xs, dp, k, f, ip, kind), pending) <==> xs[dp].nlink >= 1 && CanCount(xs[dp], kind)
  {
    var zs := Created(xs, dp, k, f, ip, kind);
    assert InodeOk(|xs|, dp, xs[dp]) && InodeOk(|xs|, ip, xs[ip]);
    if !CanCount(xs[dp], kind) {
      assert !CountOk(zs, pending, dp);
    } else if xs[dp].nlink >= 1 {
      CreatedCounts(xs, pending, dp, k, f, ip, kind);
    } else {
      var i := if kind == Dir then Parent(xs[dp]) else ip;
      CreatedRefs(xs, dp, k, f, ip, kind, i);
      assert CountOk(xs, pending, i) && CountOk(xs, pending, ip);
      assert !CountOk(zs, pending, i);
    }
  }

  function NewPlace(place: map<int, Place>, dp: int, k: int, ip: int, kind: Kind): map<int, Place> {
    if kind == Dir then place[ip := Place(dp, k, Depth(place, dp) + 1)] else place
  }

  predicate CanCreate(xs: seq<Inode>, dp: int, k: int, f: string, ip: int, kind: Kind) {
    && InodesOk(xs) && CanAdd(xs, dp, k, f) && Linked(xs[dp]) && 0 < ip < |xs| && xs[ip].kind == Free && kind != Free
    && CanCount(xs[dp], kind)
  }

  lemma CreatedPlaced(xs: seq<Inode>, place: map<int, Place>, dp: int, k: int, f: string, ip: int, kind: Kind, c: int)
    requires CanCreate(xs, dp, k, f, ip, kind) && k >= 2 && Listed(xs, place)
    ensures Placed(Created(xs, dp, k, f, ip, kind), NewPlace(place, dp, k, ip, kind), c)
  {
    assert Placed(xs, place, ip);
    assert Placed(xs, place, c);
  }

  lemma CreatedEntry(xs: seq<Inode>, place: map<int, Place>, dp: int, k: int, f: string, ip: int, kind: Kind, d: int,
                     j: int)
    requires CanCreate(xs, dp, k, f, ip, kind) && k >= 2 && Listed(xs, place)
    ensures EntryListed(Created(xs, dp, k, f, ip, kind), NewPlace(place, dp, k, ip, kind), d, j)
  {
    assert Placed(xs, place, ip);
    assert EntryListed(xs, place, d, j);
  }

  /** Nothing lists a free inode, and nothing is listed in it. */
  lemma CreatedListed(xs: seq<Inode>, place: map<int, Place>, dp: int, k: int, f: string, ip: int, kind: Kind)
    requires CanCreate(xs, dp, k, f, ip, kind) == true && k >= 2 && Listed(xs, place) == true
    ensures Listed(Created(xs, dp, k, f, ip, kind), NewPlace(place, dp, k, ip, kind))
  {
    forall c { CreatedPlaced(xs, place, dp, k, f, ip, kind, c); }
    forall d, j { CreatedEntry(xs, place, dp, k, f, ip, kind, d, j); }
  }

  lemma CreatedInv(xs: seq<Inode>, pending: seq<int>, place: map<int, Place>, dp: int, k: int, f: string, ip: int,
                   kind: Kind)
    requires Inv(xs, pending, place) && CanCreate(xs, dp, k, f, ip, kind)
    ensures Inv(Created(xs, dp, k, f, ip, kind), pending, NewPlace(place, dp, k, ip, kind))
  {
    assert InodeOk(|xs|, dp, xs[dp]);
    AddedDirOk(|xs|, dp, xs[dp].entries, k, Dirent(ip, f));
    CreatedInodesOk(xs, dp, k, f, ip, kind);
    CreatedCounts(xs, pending, dp, k, f, ip, kind);
    CreatedListed(xs, place, dp, k, f, ip, kind);
  }

  // link.

  predicate CanLink(x: Inode) { x.kind == Plain || x.kind == Device }

  /** link counts the new link before it is made, or takes the count back. */
  lemma BegunCounts(xs: seq<Inode>, pending: seq<int>, ip: int, n: int)
    requires Counts(xs, pending) && 0 < ip < |xs| && CanLink(xs[ip]) && pending[ip] + n >= 0
    ensures Counts(WithNlink(xs, ip, xs[ip].nlink + n), pending[ip := pending[ip] + n]) && xs[ip].nlink + n >= 0
  {
    var zs, qs := WithNlink(xs, ip, xs[ip].nlink + n), pending[ip := pending[ip] + n];
    forall i | 0 < i < |xs| ensures CountOk(zs, qs, i) {
      NlinkCounts(xs, ip, xs[ip].nlink + n, i);
      assert CountOk(xs, pending, i);
    }
    assert CountOk(zs, qs, ip);
  }

  lemma BegunListed(xs: seq<Inode>, place: map<int, Place>, ip: int, n: int)
    requires Listed(xs, place) && 0 < ip < |xs| && CanLink(xs[ip])
    ensures Listed(WithNlink(xs, ip, n), place)
  {
    var zs := WithNlink(xs, ip, n);
    forall c ensures Placed(zs, place, c) { assert Placed(xs, place, c); }
    forall d, j ensures EntryListed(zs, place, d, j) { assert EntryListed(xs, place, d, j); }
  }

  lemma BegunInv(xs: seq<Inode>, pending: seq<int>, place: map<int, Place>, ip: int, n: int)
    requires Inv(xs, pending, place) && 0 < ip < |xs| && CanLink(xs[ip]) && pending[ip] + n >= 0
             && xs[ip].nlink + n <= SHORT_MAX
    ensures Inv(WithNlink(xs, ip, xs[ip].nlink + n), pending[ip := pending[ip] + n], place)
  {
    var zs := WithNlink(xs, ip, xs[ip].nlink + n);
    BegunCounts(xs, pending, ip, n);
    BegunListed(xs, place, ip, xs[ip].nlink + n);
    forall i | 0 <= i < |xs| ensures InodeOk(|xs|, i, zs[i]) { assert InodeOk(|xs|, i, xs[i]); }
  }

  /** Counting a link keeps the counts exactly when the count does not overflow. */
  lemma BeginCountsExactly(xs: seq<Inode>, pending: seq<int>, ip: int)
    requires InodesOk(xs) && Counts(xs, pending) && 0 < ip < |xs| && CanLink(xs[ip])
    ensures Counts(WithNlink(xs, ip, Inc16(xs[ip].nlink)), pending[ip := pending[ip] + 1]) <==> xs[ip].nlink < SHORT_MAX
  {
    assert InodeOk(|xs|, ip, xs[ip]) && CountOk(xs, pending, ip);
    if xs[ip].nlink < SHORT_MAX {
      BegunCounts(xs, pending, ip, 1);
    } else {
      assert !CountOk(WithNlink(xs, ip, Inc16(xs[ip].nlink)), pending[ip := pending[ip] + 1], ip);
    }
  }

  /** The whole of link, with no other call between its parts: the counts hold afterwards exactly when the
      directory is linked and the inode can count one more link. */
  lemma WholeLinkExactly(xs: seq<Inode>, pending: seq<int>, dp: int, k: int, f: string, ip: int)
    requires InodesOk(xs) && Counts(xs, pending) && CanAdd(xs, dp, k, f) && 0 < ip < |xs| && CanLink(xs[ip])
    ensures Counts(WithEntry(WithNlink(xs, ip, Inc16(xs[ip].nlink)), dp, k, Dirent(ip, f)), pending) <==>
              xs[dp].nlink >= 1 && xs[ip].nlink < SHORT_MAX
  {
    var ys, qs := WithNlink(xs, ip, Inc16(xs[ip].nlink)), pending[ip := pending[ip] + 1];
    assert InodeOk(|xs|, ip, xs[ip]) && CountOk(xs, pending, ip);
    if xs[ip].nlink < SHORT_MAX {
      BegunCounts(xs, pending, ip, 1);
      forall i | 0 <= i < |xs| ensures InodeOk(|xs|, i, ys[i]) { assert InodeOk(|xs|, i, xs[i]); }
      LinkCountsExactly(ys, qs, dp, k, f, ip);
      assert qs[ip := qs[ip] - 1] == pending;
    } else {
      assert !CountOk(WithEntry(ys, dp, k, Dirent(ip, f)), pending, ip);
    }
  }

  /** The entry link makes; the counts hold exactly when the directory is still linked. */
  lemma LinkCountsExactly(xs: seq<Inode>, pending: seq<int>, dp: int, k: int, f: string, ip: int)
    requires InodesOk(xs) && Counts(xs, pending) && CanAdd(xs, dp, k, f) && 0 < ip < |xs| && CanLink(xs[ip])
             && pending[ip] > 0
    ensures Counts(WithEntry(xs, dp, k, Dirent(ip, f)), pending[ip := pending[ip] - 1]) <==> xs[dp].nlink >= 1
  {
    var zs, qs := WithEntry(xs, dp, k, Dirent(ip, f)), pending[ip := pending[ip] - 1];
    assert InodeOk(|xs|, dp, xs[dp]);
    AddedDirOk(|xs|, dp, xs[dp].entries, k, Dirent(ip, f));
    forall i | 0 < i < |xs| ensures CountOk(zs, qs, i) <==> (xs[dp].nlink >= 1 || i != ip) {
      EntryCounts(xs, dp, k, Dirent(ip, f), i);
      assert CountOk(xs, pending, i);
    }
    assert CountOk(zs, qs, ip) <==> xs[dp].nlink >= 1;
  }

  lemma LinkListed(xs: seq<Inode>, place: map<int, Place>, dp: int, k: int, f: string, ip: int)
    requires xs != [] && xs[0].kind == Free && Listed(xs, place) && CanAdd(xs, dp, k, f) && k >= 2 && 0 < ip < |xs|
             && CanLink(xs[ip])
    ensures Listed(WithEntry(xs, dp, k, Dirent(ip, f)), place)
  {
    var zs := WithEntry(xs, dp, k, Dirent(ip, f));
    forall c ensures Placed(zs, place, c) { assert Placed(xs, place, c); }
    forall d, j ensures EntryListed(zs, place, d, j) { assert EntryListed(xs, place, d, j); }
  }

  lemma LinkInv(xs: seq<Inode>, pending: seq<int>, place: map<int, Place>, dp: int, k: int, f: string, ip: int)
    requires Inv(xs, pending, place) && CanAdd(xs, dp, k, f) && Linked(xs[dp]) && 0 < ip < |xs| && CanLink(xs[ip])
             && pending[ip] > 0
    ensures Inv(WithEntry(xs, dp, k, Dirent(ip, f)), pending[ip := pending[ip] - 1], place)
  {
    var zs := WithEntry(xs, dp, k, Dirent(ip, f));
    LinkCountsExactly(xs, pending, dp, k, f, ip);
    assert InodeOk(|xs|, dp, xs[dp]);
    AddedDirOk(|xs|, dp, xs[dp].entries, k, Dirent(ip, f));
    LinkListed(xs, place, dp, k, f, ip);
    forall i | 0 <= i < |xs| ensures InodeOk(|xs|, i, zs[i]) { assert InodeOk(|xs|, i, xs[i]); }
  }

  // unlink.

  /** Entry k of directory dp can be removed: it is not "." or "..", and a directory must be empty. */
  predicate CanRemove(xs: seq<Inode>, dp: int, k: int, ip: int) {
    && 0 < dp < |xs| && Linked(xs[dp]) && 2 <= k < |xs[dp].entries| && xs[dp].entries[k].inum == ip && 0 < ip < |xs|
    && (xs[ip].kind == Dir ==> Bare(xs[ip].entries))
  }

  function Cleared(): Dirent { Dirent(0, Field("")) }

  function Unlinked(xs: seq<Inode>, dp: int, k: int, ip: int): (r: seq<Inode>)
    requires CanRemove(xs, dp, k, ip)
    ensures |r| == |xs|
  {
    var ys := WithEntry(xs, dp, k, Cleared());
    var zs := if ys[ip].kind == Dir then WithNlink(ys, dp, ys[dp].nlink - 1) else ys;
    WithNlink(zs, ip, zs[ip].nlink - 1)
  }

  /** No entry of directory a counts for the empty directory ip, but the one that lists it. */
  lemma OthersDoNotName(xs: seq<Inode>, place: map<int, Place>, dp: int, k: int, ip: int, a: int, j: int)
    requires InodesOk(xs) && Listed(xs, place) && CanRemove(xs, dp, k, ip) && xs[ip].kind == Dir
    requires 0 <= a < |xs| && Linked(xs[a]) && 0 <= j < |xs[a].entries| && (a != dp || j != k)
    ensures !Names(xs[a].entries[j], ip)
  {
    assert InodeOk(|xs|, a, xs[a]);
    assert EntryListed(xs, place, dp, k);
    assert Placed(xs, place, ip);
    assert Placed(xs, place, a);
    assert EntryListed(xs, place, a, j);
  }

  /** The name of an entry after "." and ".." is not ".". */
  lemma LaterCounts(n: int, d: int, es: seq<Dirent>, k: int)
    requires DirOk(n, d, es) && d != 0 && 2 <= k < |es| && Live(es[k])
    ensures Names(es[k], es[k].inum)
  {
    assert Differ(es[0], es[k]);
  }

  /** An empty directory has one link. */
  lemma NamedOnce(xs: seq<Inode>, pending: seq<int>, place: map<int, Place>, dp: int, k: int, ip: int)
    requires Inv(xs, pending, place) && CanRemove(xs, dp, k, ip) && xs[ip].kind == Dir
    ensures xs[ip].nlink == 1 && ip != ROOT && ip != dp && Parent(xs[ip]) == dp
  {
    assert EntryListed(xs, place, dp, k);
    assert Placed(xs, place, ip);
    assert InodeOk(|xs|, dp, xs[dp]);
    forall a | 0 <= a < |xs| && a != dp ensures Gives(xs[a], ip) == 0 {
      if Linked(xs[a]) {
        forall j | 0 <= j < |xs[a].entries| ensures !Names(xs[a].entries[j], ip) {
          OthersDoNotName(xs, place, dp, k, ip, a, j);
        }
        CountZero(xs[a].entries, ip);
      }
    }
    forall j | 0 <= j < |xs[dp].entries| && j != k ensures !Names(xs[dp].entries[j], ip) {
      OthersDoNotName(xs, place, dp, k, ip, dp, j);
    }
    LaterCounts(|xs|, dp, xs[dp].entries, k);
    CountOne(xs[dp].entries, k, ip);
    RefsOne(xs, dp, ip);
    assert CountOk(xs, pending, ip);
  }

  /** The parent of a directory has two links at least: its own entry, and that directory's "..". */
  lemma ParentHasTwo(xs: seq<Inode>, pending: seq<int>, place: map<int, Place>, dp: int, k: int, ip: int)
    requires Inv(xs, pending, place) && CanRemove(xs, dp, k, ip) && xs[ip].kind == Dir
    ensures xs[dp].nlink >= 2
  {
    NamedOnce(xs, pending, place, dp, k, ip);
    assert InodeOk(|xs|, ip, xs[ip]) && InodeOk(|xs|, dp, xs[dp]);
    BareCounts(|xs|, ip, xs[ip].entries, dp);
    assert Placed(xs, place, dp);
    var a := if dp == ROOT then ROOT else place[dp].d;
    var j := if dp == ROOT then 1 else place[dp].k;
    assert InodeOk(|xs|, a, xs[a]);
    DotsDiffer();
    if dp != ROOT { LaterCounts(|xs|, a, xs[a].entries, j); }
    CountedEntry(xs[a].entries, j, dp);
    RefsTwo(xs, a, ip, dp);
    assert CountOk(xs, pending, dp);
  }

  lemma UnlinkedRefs(xs: seq<Inode>, pending: seq<int>, place: map<int, Place>, dp: int, k: int, ip: int, i: int)
    requires Inv(xs, pending, place) && CanRemove(xs, dp, k, ip) && 0 < i < |xs|
    ensures Refs(Unlinked(xs, dp, k, ip), i) == Refs(xs, i) - One(i == ip) - One(xs[ip].kind == Dir && i == dp)
  {
    assert InodeOk(|xs|, dp, xs[dp]) && InodeOk(|xs|, ip, xs[ip]);
    LaterCounts(|xs|, dp, xs[dp].entries, k);
    ClearedCounts(xs, dp, k, Cleared(), i);
    var ys := WithEntry(xs, dp, k, Cleared());
    if xs[ip].kind == Dir {
      NamedOnce(xs, pending, place, dp, k, ip);
      ParentHasTwo(xs, pending, place, dp, k, ip);
      NlinkCounts(ys, dp, ys[dp].nlink - 1, i);
      BareCounts(|xs|, ip, xs[ip].entries, i);
      NlinkCounts(WithNlink(ys, dp, ys[dp].nlink - 1), ip, 0, i);
    } else {
      NlinkCounts(ys, ip, ys[ip].nlink - 1, i);
    }
  }

  /** unlink finds a link to take off, so "nlink < 1" cannot happen. */
  lemma HasLink(xs: seq<Inode>, pending: seq<int>, dp: int, k: int, ip: int)
    requires InodesOk(xs) && Counts(xs, pending) && 0 < dp < |xs| && Linked(xs[dp]) && 2 <= k < |xs[dp].entries|
    requires xs[dp].entries[k].inum == ip && 0 < ip < |xs|
    ensures xs[ip].nlink >= 1 + pending[ip]
  {
    assert InodeOk(|xs|, dp, xs[dp]);
    LaterCounts(|xs|, dp, xs[dp].entries, k);
    CountedEntry(xs[dp].entries, k, ip);
    RefsSet(xs, dp, Inode(Free, 0, []), ip);
    assert CountOk(xs, pending, ip);
  }

  lemma UnlinkedCounts(xs: seq<Inode>, pending: seq<int>, place: map<int, Place>, dp: int, k: int, ip: int)
    requires Inv(xs, pending, place) && CanRemove(xs, dp, k, ip)
    ensures Counts(Unlinked(xs, dp, k, ip), pending)
  {
    var zs := Unlinked(xs, dp, k, ip);
    if xs[ip].kind == Dir { NamedOnce(xs, pending, place, dp, k, ip); }
    forall i | 0 < i < |xs| ensures CountOk(zs, pending, i) {
      UnlinkedRefs(xs, pending, place, dp, k, ip, i);
      assert CountOk(xs, pending, i);
    }
  }

  lemma ClearedDirOk(n: int, d: int, es: seq<Dirent>, k: int)
    requires DirOk(n, d, es) && 2 <= k < |es|
    ensures DirOk(n, d, Put(es, k, Cleared()))
  {
    PutOk(es, k, Cleared());
  }

  lemma UnlinkedInodesOk(xs: seq<Inode>, pending: seq<int>, place: map<int, Place>, dp: int, k: int, ip: int)
    requires Inv(xs, pending, place) && CanRemove(xs, dp, k, ip)
    ensures InodesOk(Unlinked(xs, dp, k, ip))
  {
    var zs := Unlinked(xs, dp, k, ip);
    HasLink(xs, pending, dp, k, ip);
    assert CountOk(xs, pending, ip);
    assert EntryListed(xs, place, dp, k);
    if xs[ip].kind == Dir {
      NamedOnce(xs, pending, place, dp, k, ip);
      ParentHasTwo(xs, pending, place, dp, k, ip);
    }
    assert InodeOk(|xs|, dp, xs[dp]) && InodeOk(|xs|, ROOT, xs[ROOT]);
    ClearedDirOk(|xs|, dp, xs[dp].entries, k);
    forall i | 0 <= i < |xs| ensures InodeOk(|xs|, i, zs[i]) {
      assert InodeOk(|xs|, i, xs[i]);
    }
  }

  function OldPlace(place: map<int, Place>, ip: int): map<int, Place> {
    place - {ip}
  }

  /** What is left of the tree: nothing was listed in the directory that goes. */
  lemma UnlinkedPlaced(xs: seq<Inode>, place: map<int, Place>, dp: int, k: int, ip: int, c: int)
    requires InodesOk(xs) && Listed(xs, place) && CanRemove(xs, dp, k, ip)
    requires xs[ip].kind == Dir ==> ip != dp && xs[ip].nlink == 1 && xs[dp].nlink >= 2
    ensures Placed(Unlinked(xs, dp, k, ip), OldPlace(place, ip), c)
  {
    assert EntryListed(xs, place, dp, k);
    assert Placed(xs, place, ip);
    assert Placed(xs, place, c);
  }

  lemma UnlinkedEntry(xs: seq<Inode>, place: map<int, Place>, dp: int, k: int, ip: int, d: int, j: int)
    requires InodesOk(xs) && Listed(xs, place) && CanRemove(xs, dp, k, ip)
    requires xs[ip].kind == Dir ==> ip != dp && xs[ip].nlink == 1 && xs[dp].nlink >= 2
    ensures EntryListed(Unlinked(xs, dp, k, ip), OldPlace(place, ip), d, j)
  {
    assert EntryListed(xs, place, dp, k);
    assert EntryListed(xs, place, d, j);
  }

  lemma UnlinkedInv(xs: seq<Inode>, pending: seq<int>, place: map<int, Place>, dp: int, k: int, ip: int)
    requires Inv(xs, pending, place) && CanRemove(xs, dp, k, ip)
    ensures Inv(Unlinked(xs, dp, k, ip), pending, OldPlace(place, ip))
  {
    UnlinkedCounts(xs, pending, place, dp, k, ip);
    UnlinkedInodesOk(xs, pending, place, dp, k, ip);
    if xs[ip].kind == Dir {
      NamedOnce(xs, pending, place, dp, k, ip);
      ParentHasTwo(xs, pending, place, dp, k, ip);
    }
    forall c { UnlinkedPlaced(xs, place, dp, k, ip, c); }
    forall d, j { UnlinkedEntry(xs, place, dp, k, ip, d, j); }
  }

  lemma UnlinkedLookup(xs: seq<Inode>, dp: int, k: int, ip: int, f: string)
    requires CanRemove(xs, dp, k, ip) && EntriesOk(xs[dp].entries)
    ensures Lookup(Unlinked(xs, dp, k, ip)[dp].entries, f) == if f == xs[dp].entries[k].name then 0
            else Lookup(xs[dp].entries, f)
  {
    RemoveLookup(xs[dp].entries, k, Field(""), f);
  }

  // iput of an inode with no links.

  function Freed(xs: seq<Inode>, i: int): seq<Inode>
    requires 0 <= i < |xs|
  {
    xs[i := Inode(Free, 0, [])]
  }

  lemma FreedInv(xs: seq<Inode>, pending: seq<int>, place: map<int, Place>, i: int)
    requires Inv(xs, pending, place) && 0 < i < |xs| && xs[i].nlink == 0
    ensures Inv(Freed(xs, i), pending, place)
  {
    var zs := Freed(xs, i);
    forall j | 0 < j < |xs| ensures CountOk(zs, pending, j) {
      RefsSet(xs, i, Inode(Free, 0, []), j);
      assert CountOk(xs, pending, j);
    }
    forall j | 0 <= j < |xs| ensures InodeOk(|xs|, j, zs[j]) { assert InodeOk(|xs|, j, xs[j]); }
    forall c ensures Placed(zs, place, c) { assert Placed(xs, place, c); }
    assert CountOk(xs, pending, i);
    forall d, k ensures EntryListed(zs, place, d, k) {
      assert EntryListed(xs, place, d, k);
      if 0 < d < |xs| && Linked(xs[d]) && 2 <= k < |xs[d].entries| && xs[d].entries[k].inum == i {
        HasLink(xs, pending, d, k, i);
      }
    }
  }

  // The tree.

  /** n steps up by "..". */
  function Up(xs: seq<Inode>, c: int, n: nat): int
    decreases n
  {
    if n == 0 then c else if 0 <= c < |xs| then Up(xs, Parent(xs[c]), n - 1) else c
  }

  /** From every linked directory ".." leads to the root. */
  lemma {:induction false} LeadsToRoot(xs: seq<Inode>, pending: seq<int>, place: map<int, Place>, c: int)
    requires Inv(xs, pending, place) && 0 <= c < |xs| && Linked(xs[c])
    ensures Up(xs, c, Depth(place, c)) == ROOT
    decreases Depth(place, c)
  {
    assert Placed(xs, place, c);
    if c == ROOT {
      assert c !in place;
    } else {
      LeadsToRoot(xs, pending, place, place[c].d);
    }
  }

  // Lookups.

  /** The inode that an entry of a directory names: in use, with a link, if the directory is linked; the
      directory itself for "."; a directory that has been removed has no entries but "." and "..". */
  lemma TargetInUse(xs: seq<Inode>, pending: seq<int>, place: map<int, Place>, d: int, k: int)
    requires Inv(xs, pending, place) && 0 < d < |xs| && xs[d].kind == Dir && 0 <= k < |xs[d].entries|
             && Live(xs[d].entries[k])
    ensures var i := xs[d].entries[k].inum;
            && 0 < i < |xs| && (k == 0 ==> i == d)
            && (Linked(xs[d]) && k >= 1 ==> xs[i].kind != Free && xs[i].nlink >= 1)
            && (!Linked(xs[d]) ==> k <= 1)
  {
    assert InodeOk(|xs|, d, xs[d]);
    var i := xs[d].entries[k].inum;
    assert InodeOk(|xs|, i, xs[i]);
    if Linked(xs[d]) {
      if k >= 2 {
        assert EntryListed(xs, place, d, k);
        HasLink(xs, pending, d, k, i);
        assert CountOk(xs, pending, i);
      } else if d != ROOT {
        assert Placed(xs, place, d);
      }
    }
  }

  /** A creation that failed while somebody else had a reference to the inode: it is left in use, without a link. */
  lemma AbandonedInv(xs: seq<Inode>, pending: seq<int>, place: map<int, Place>, dp: int, ip: int, x: Inode)
    requires Inv(xs, pending, place) && 0 < dp < |xs| && 0 < ip < |xs| && xs[ip].kind == Free && x.kind != Free
             && x.nlink == 0
    requires x.entries == [] || x.entries == FirstEntries(ip, dp)
    ensures Inv(xs[ip := x], pending, place)
  {
    var zs := xs[ip := x];
    FirstEntriesOk(|xs|, ip, dp);
    assert InodeOk(|xs|, ip, xs[ip]) && CountOk(xs, pending, ip);
    forall j | 0 < j < |xs| ensures CountOk(zs, pending, j) {
      RefsSet(xs, ip, x, j);
      assert CountOk(xs, pending, j);
    }
    forall j | 0 <= j < |xs| ensures InodeOk(|xs|, j, zs[j]) { assert InodeOk(|xs|, j, xs[j]); }
    forall c ensures Placed(zs, place, c) { assert Placed(xs, place, c); }
    forall d, k ensures EntryListed(zs, place, d, k) { assert EntryListed(xs, place, d, k); }
  }
}
