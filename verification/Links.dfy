/** Directory operations of kernel/fs.c and the link, unlink and create calls of kernel/sysfile.c. */
module Links {
  import opened DirSpec
  import opened LinkSpec
  import opened LinkOps

  /** Entries of 16 bytes, in blocks of 1024 bytes, in files of at most 268 blocks. */
  const PERBLOCK := 64
  const MAXENTRIES := 268 * PERBLOCK

  /** dirlink's write fits: in a free entry, in the last block, or in a new block if there is one. */
  predicate Fits(es: seq<Dirent>, room: bool) {
    FreePlace(es) < |es| || (|es| < MAXENTRIES && (|es| % PERBLOCK != 0 || room))
  }

  predicate Adds(es: seq<Dirent>, f: string, room: bool) {
    Find(es, f) == -1 && Fits(es, room)
  }

  /** The lowest free inode number, or |xs|. */
  predicate IsFirstFree(xs: seq<Inode>, ip: int) {
    0 < ip <= |xs| && (ip < |xs| ==> xs[ip].kind == Free) && forall j | 0 < j < ip :: xs[j].kind != Free
  }

  /** A directory in which a creation leaves the link counts right. */
  predicate Counting(x: Inode, kind: Kind) {
    x.nlink >= 1 && CanCount(x, kind)
  }

  /** create can make the name: there is an inode and there is room in both directories. */
  predicate CanMake(xs: seq<Inode>, dp: int, f: string, ip: int, kind: Kind, room: bool, roomNew: bool) {
    0 < dp < |xs| && Adds(xs[dp].entries, f, room) && 0 < ip < |xs| && (kind == Dir ==> roomNew)
  }

  /** What a failed creation leaves when the reference it gives up is not the last one. */
  function Abandoned(dp: int, ip: int, kind: Kind, roomNew: bool): Inode {
    Inode(kind, 0, if kind == Dir && roomNew then FirstEntries(ip, dp) else [])
  }

  /** The inodes after a creation: made as a whole, or undone, or abandoned. */
  ghost predicate MakeOutcome(xs: seq<Inode>, zs: seq<Inode>, dp: int, f: string, ip: int, kind: Kind,
                              room: bool, roomNew: bool, sole: bool)
    requires 0 < dp < |xs| && 0 < ip < |xs|
  {
    if CanMake(xs, dp, f, ip, kind, room, roomNew) then
      && CanAdd(xs, dp, FreePlace(xs[dp].entries), f) && ip != dp
      && zs == Created(xs, dp, FreePlace(xs[dp].entries), f, ip, kind)
    else zs == if sole then xs else xs[ip := Abandoned(dp, ip, kind, roomNew)]
  }

  predicate Opens(xs: seq<Inode>, i: int) {
    0 < i < |xs| && CanLink(xs[i])
  }

  /** Not a directory with entries. */
  predicate NotInUse(xs: seq<Inode>, i: int) {
    0 < i < |xs| && (xs[i].kind == Dir ==> Bare(xs[i].entries))
  }

  class Tree {
    var inodes: seq<Inode>

    /** Links that calls of link have counted and not made yet. */
    ghost var pending: seq<int>

    /** Where each directory is listed. */
    ghost var place: map<int, Place>

    ghost predicate Valid()
      reads this
    {
      Inv(inodes, pending, place)
    }

    /** The file system mkfs makes: a root directory that is its own parent. */
    constructor (n: int)
      requires n > ROOT
      ensures Valid() && |inodes| == n && inodes[ROOT] == Inode(Dir, 1, FirstEntries(ROOT, ROOT))
      ensures forall i | 0 <= i < n && i != ROOT :: inodes[i] == Inode(Free, 0, [])
    {
      var xs := seq(n, i => if i == ROOT then Inode(Dir, 1, FirstEntries(ROOT, ROOT)) else Inode(Free, 0, []));
      inodes := xs;
      pending := seq(n, i => 0);
      place := map[];
      new;
      NewTreeInv(inodes, pending);
    }

    /** dirlookup: the entry with that name, modulo truncation. */
    method Dirlookup(d: int, name: string) returns (k: int)
      requires 0 <= d < |inodes| && inodes[d].kind == Dir && EntriesOk(inodes[d].entries) && NoNul(name)
      ensures k == Find(inodes[d].entries, Field(name))
    {
      var es := inodes[d].entries;
      k := 0;
      while k < |es|
        invariant 0 <= k <= |es| && forall j | 0 <= j < k :: !(Live(es[j]) && es[j].name == Field(name))
      {
        if es[k].inum != 0 {
          var c := Namecmp(name, es[k].name);
          if c == 0 {
            FindUnique(es, k);
            return;
          }
        }
        k := k + 1;
      }
      k := -1;
    }

    /** dirlink: a finite-map update, or no change when the name is there or there is no room. */
    method Dirlink(d: int, name: string, i: int, room: bool) returns (ok: bool)
      requires 0 <= d < |inodes| && inodes[d].kind == Dir && EntriesOk(inodes[d].entries) && NoNul(name)
      modifies `inodes
      ensures ok == Adds(old(inodes[d].entries), Field(name), room)
      ensures !ok ==> inodes == old(inodes)
      ensures ok ==> inodes == WithEntry(old(inodes), d, FreePlace(old(inodes[d].entries)), Dirent(i, Field(name)))
      ensures ok && i != 0 ==> forall f ::
                Lookup(inodes[d].entries, f) == if f == Field(name) then i else Lookup(old(inodes[d].entries), f)
    {
      var es := inodes[d].entries;
      var there := Dirlookup(d, name);
      if there != -1 {
        return false;
      }
      var k := 0;
      while k < |es| && es[k].inum != 0
        invariant 0 <= k <= |es| && forall j | 0 <= j < k :: Live(es[j])
      {
        k := k + 1;
      }
      IsFreePlace(es, k);
      if k == |es| && !(|es| < MAXENTRIES && (|es| % PERBLOCK != 0 || room)) {
        return false;
      }
      FieldClean(name);
      inodes := inodes[d := inodes[d].(entries := Put(es, k, Dirent(i, Field(name))))];
      if i != 0 {
        forall f { PutLookup(es, k, Dirent(i, Field(name)), f); }
      }
      ok := true;
    }

    /** isdirempty: nothing but "." and "..". */
    method Isdirempty(d: int) returns (empty: bool)
      requires 0 <= d < |inodes|
      ensures empty == Bare(inodes[d].entries)
    {
      var es := inodes[d].entries;
      var k := 2;
      while k < |es|
        invariant 2 <= k && forall j | 2 <= j < k && j < |es| :: !Live(es[j])
      {
        if es[k].inum != 0 {
          return false;
        }
        k := k + 1;
      }
      empty := true;
    }

    /** ialloc's search for a free inode; |inodes| when there is none. */
    method Ialloc() returns (ip: int)
      requires |inodes| > 0
      ensures IsFirstFree(inodes, ip)
    {
      ip := 1;
      while ip < |inodes| && inodes[ip].kind != Free
        invariant 0 < ip <= |inodes| && forall j | 0 < j < ip :: inodes[j].kind != Free
      {
        ip := ip + 1;
      }
    }

    /** create. A name that is there is returned only to open a file. A failed creation changes nothing, or,
        when `sole` is false because a thread that freed an inode of this number still has its reference,
        leaves an inode without links. The link counts hold afterwards exactly if the name is not made, or
        the parent is linked and can count another directory if it is to. */
    method Create(dp: int, name: string, kind: Kind, room: bool, roomNew: bool, sole: bool)
        returns (r: int, ghost ip: int)
      requires Valid() && 0 < dp < |inodes| && inodes[dp].kind == Dir && inodes[dp].entries != [] && NoNul(name)
               && kind != Free
      modifies this
      ensures IsFirstFree(old(inodes), ip) && pending == old(pending)
      ensures Find(old(inodes[dp].entries), Field(name)) != -1 ==>
                var i := Lookup(old(inodes[dp].entries), Field(name));
                inodes == old(inodes) && r == if kind == Plain && Opens(inodes, i) then i else 0
      ensures Find(old(inodes[dp].entries), Field(name)) == -1 ==>
                && r == (if CanMake(old(inodes), dp, Field(name), ip, kind, room, roomNew) then ip else 0)
                && (ip == |old(inodes)| ==> inodes == old(inodes))
                && (ip < |old(inodes)| ==>
                      MakeOutcome(old(inodes), inodes, dp, Field(name), ip, kind, room, roomNew, sole))
      ensures Counts(inodes, pending) <==>
                Counting(old(inodes[dp]), kind) || r == 0 || Find(old(inodes[dp].entries), Field(name)) != -1
      ensures Counts(inodes, pending) ==> Valid()
    {
      ghost var xs, qs := inodes, place;
      assert InodeOk(|xs|, dp, xs[dp]);
      var k := Dirlookup(dp, name);
      var i := Ialloc();
      ip := i;
      if k != -1 {
        var found := inodes[dp].entries[k].inum;
        if kind == Plain && (inodes[found].kind == Plain || inodes[found].kind == Device) {
          return found, ip;
        }
        return 0, ip;
      }
      if i == |inodes| {
        return 0, ip;
      }
      r := MakeNew(dp, name, kind, room, roomNew, sole, i);
    }

    method MakeNew(dp: int, name: string, kind: Kind, room: bool, roomNew: bool, sole: bool, ip: int) returns (r: int)
      requires Valid() && 0 < dp < |inodes| && inodes[dp].kind == Dir && inodes[dp].entries != [] && NoNul(name)
               && kind != Free
      requires 0 < ip < |inodes| && inodes[ip].kind == Free && Find(inodes[dp].entries, Field(name)) == -1
      modifies this
      ensures pending == old(pending)
      ensures r == if CanMake(old(inodes), dp, Field(name), ip, kind, room, roomNew) then ip else 0
      ensures MakeOutcome(old(inodes), inodes, dp, Field(name), ip, kind, room, roomNew, sole) == true
      ensures Counts(inodes, pending) <==> Counting(old(inodes[dp]), kind) || r == 0
      ensures Counts(inodes, pending) ==> Valid()
    {
      ghost var xs, qs := inodes, place;
      assert InodeOk(|xs|, dp, xs[dp]);
      var ok := Make(dp, name, kind, room, roomNew, sole, ip);
      r := if ok then ip else 0;
      if ok {
        CreateCountsExactly(xs, pending, dp, FreePlace(xs[dp].entries), Field(name), ip, kind);
        if Counting(xs[dp], kind) {
          CreatedInv(xs, pending, qs, dp, FreePlace(xs[dp].entries), Field(name), ip, kind);
          place := NewPlace(qs, dp, FreePlace(xs[dp].entries), ip, kind);
        }
      } else if !sole {
        AbandonedInv(xs, pending, place, dp, ip, Abandoned(dp, ip, kind, roomNew));
      }
    }

    /** The new inode, its first entries and its name; given up when a part fails. */
    method Make(dp: int, name: string, kind: Kind, room: bool, roomNew: bool, sole: bool, ip: int) returns (ok: bool)
      requires InodesOk(inodes) && 0 < dp < |inodes| && inodes[dp].kind == Dir && inodes[dp].entries != []
               && NoNul(name) && kind != Free
      requires 0 < ip < |inodes| && inodes[ip].kind == Free && Find(inodes[dp].entries, Field(name)) == -1
      modifies `inodes
      ensures ok == CanMake(old(inodes), dp, Field(name), ip, kind, room, roomNew)
      ensures MakeOutcome(old(inodes), inodes, dp, Field(name), ip, kind, room, roomNew, sole)
    {
      assert InodeOk(|inodes|, dp, inodes[dp]) && InodeOk(|inodes|, ip, inodes[ip]);
      FieldClean(name);
      inodes := inodes[ip := Inode(kind, 1, [])];
      ok := true;
      if kind == Dir {
        ok := FirstNames(ip, dp, roomNew);
      }
      if ok {
        ok := Dirlink(dp, name, ip, room);
      }
      if ok {
        if kind == Dir {
          inodes := inodes[dp := inodes[dp].(nlink := Inc16(inodes[dp].nlink))];
        }
      } else {
        inodes := inodes[ip := inodes[ip].(nlink := 0)];
        if sole {
          inodes := inodes[ip := Inode(Free, 0, [])];
          assert inodes == old(inodes);
        }
      }
    }

    /** "." and ".." of a new directory; the second always finds room in the block of the first. */
    method FirstNames(ip: int, dp: int, roomNew: bool) returns (ok: bool)
      requires 0 < ip < |inodes| && 0 < dp && inodes[ip] == Inode(Dir, 1, [])
      modifies `inodes
      ensures ok == roomNew
      ensures ok ==> inodes == old(inodes)[ip := NewInode(ip, dp, Dir)]
      ensures !ok ==> inodes == old(inodes)
    {
      DotsDiffer();
      ok := Dirlink(ip, ".", ip, roomNew);
      if ok {
        assert inodes[ip].entries == [Dirent(ip, Dot())];
        ok := Dirlink(ip, "..", dp, roomNew);
        assert inodes[ip].entries == FirstEntries(ip, dp);
      }
    }

    /** The first part of link: refuses a directory, else counts the link; the counts hold afterwards exactly
        if that does not overflow. */
    method LinkBegin(ip: int) returns (ok: bool)
      requires Valid() && 0 < ip < |inodes| && inodes[ip].kind != Free
      modifies this
      ensures place == old(place) && ok == (old(inodes[ip].kind) != Dir)
      ensures ok ==>
                inodes == WithNlink(old(inodes), ip, Inc16(old(inodes[ip].nlink)))
                && pending == old(pending)[ip := old(pending[ip]) + 1]
      ensures !ok ==> inodes == old(inodes) && pending == old(pending)
      ensures Counts(inodes, pending) <==> !ok || old(inodes[ip].nlink) < SHORT_MAX
      ensures !ok || old(inodes[ip].nlink) < SHORT_MAX ==> Valid()
    {
      if inodes[ip].kind == Dir {
        return false;
      }
      assert CountOk(inodes, pending, ip);
      BeginCountsExactly(inodes, pending, ip);
      if inodes[ip].nlink < SHORT_MAX {
        BegunInv(inodes, pending, place, ip, 1);
      }
      inodes := inodes[ip := inodes[ip].(nlink := Inc16(inodes[ip].nlink))];
      pending := pending[ip := pending[ip] + 1];
      ok := true;
    }

    /** The bad end of link, when there is no directory for the new name: the count is taken back. */
    method LinkAbort(ip: int)
      requires Valid() && 0 < ip < |inodes| && pending[ip] > 0
      modifies this
      ensures Valid() && place == old(place)
      ensures inodes == WithNlink(old(inodes), ip, old(inodes[ip].nlink) - 1)
              && pending == old(pending)[ip := old(pending[ip]) - 1]
    {
      assert CountOk(inodes, pending, ip) && InodeOk(|inodes|, ip, inodes[ip]);
      BegunInv(inodes, pending, place, ip, -1);
      inodes := inodes[ip := inodes[ip].(nlink := inodes[ip].nlink - 1)];
      pending := pending[ip := pending[ip] - 1];
    }

    /** The second part, after any other calls: makes the entry, or takes the count back. The counts
        hold afterwards exactly if the directory is linked or the entry was not made. */
    method LinkEnd(dp: int, name: string, ip: int, room: bool) returns (ok: bool)
      requires Valid() && 0 < dp < |inodes| && inodes[dp].kind == Dir && inodes[dp].entries != [] && NoNul(name)
      requires 0 < ip < |inodes| && pending[ip] > 0
      modifies this
      ensures pending == old(pending)[ip := old(pending[ip]) - 1] && place == old(place)
      ensures ok == Adds(old(inodes[dp].entries), Field(name), room)
      ensures ok ==> inodes == WithEntry(old(inodes), dp, FreePlace(old(inodes[dp].entries)), Dirent(ip, Field(name)))
      ensures !ok ==> inodes == WithNlink(old(inodes), ip, old(inodes[ip].nlink) - 1)
      ensures Counts(inodes, pending) <==> (old(inodes[dp].nlink) >= 1 || !ok)
      ensures old(inodes[dp].nlink) >= 1 || !ok ==> Valid()
    {
      ghost var xs, ps := inodes, pending;
      assert InodeOk(|xs|, dp, xs[dp]) && CountOk(xs, ps, ip);
      FieldClean(name);
      ok := Dirlink(dp, name, ip, room);
      pending := ps[ip := ps[ip] - 1];
      if ok {
        LinkCountsExactly(xs, ps, dp, FreePlace(xs[dp].entries), Field(name), ip);
        if xs[dp].nlink >= 1 {
          LinkInv(xs, ps, place, dp, FreePlace(xs[dp].entries), Field(name), ip);
        }
      } else {
        assert InodeOk(|xs|, ip, xs[ip]);
        BegunInv(xs, ps, place, ip, -1);
        inodes := inodes[ip := inodes[ip].(nlink := inodes[ip].nlink - 1)];
      }
    }

    /** unlink: removes the name unless it is ".", "..", missing or a directory in use; never finds an
        inode without links. */
    method Unlink(dp: int, name: string) returns (ok: bool, ghost k: int)
      requires Valid() && 0 < dp < |inodes| && inodes[dp].kind == Dir && NoNul(name)
      modifies this
      ensures Valid() && pending == old(pending) && k == Find(old(inodes[dp].entries), Field(name))
      ensures ok <==> Field(name) != Dot() && Field(name) != DotDot() && k != -1
                      && NotInUse(old(inodes), old(inodes[dp].entries)[k].inum)
      ensures !ok ==> inodes == old(inodes)
      ensures ok ==> var ip := old(inodes[dp].entries)[k].inum;
                CanRemove(old(inodes), dp, k, ip) && inodes == Unlinked(old(inodes), dp, k, ip)
      ensures ok ==> forall f ::
                Lookup(inodes[dp].entries, f) == if f == Field(name) then 0 else Lookup(old(inodes[dp].entries), f)
    {
      ghost var xs := inodes;
      assert InodeOk(|xs|, dp, xs[dp]);
      DotsDiffer();
      k := Find(inodes[dp].entries, Field(name));
      var c := Namecmp(name, Dot());
      var cc := Namecmp(name, DotDot());
      if c == 0 || cc == 0 {
        return false, k;
      }
      var at := Dirlookup(dp, name);
      if at == -1 {
        return false, k;
      }
      var ip := inodes[dp].entries[at].inum;
      HasLink(inodes, pending, dp, at, ip);
      assert CountOk(inodes, pending, ip);
      assert inodes[ip].nlink >= 1;
      if inodes[ip].kind == Dir {
        var empty := Isdirempty(ip);
        if !empty {
          return false, k;
        }
      }
      Remove(dp, at, ip);
      forall f { UnlinkedLookup(xs, dp, at, ip, f); }
      ok := true;
    }

    /** Clears the entry and takes off the links: the inode's, and a directory's link to its parent. */
    method Remove(dp: int, k: int, ip: int)
      requires Valid() == true && CanRemove(inodes, dp, k, ip)
      modifies this
      ensures Valid() == true && pending == old(pending) && inodes == Unlinked(old(inodes), dp, k, ip)
    {
      UnlinkedInv(inodes, pending, place, dp, k, ip);
      inodes := inodes[dp := inodes[dp].(entries := inodes[dp].entries[k := Cleared()])];
      if inodes[ip].kind == Dir {
        inodes := inodes[dp := inodes[dp].(nlink := inodes[dp].nlink - 1)];
      }
      inodes := inodes[ip := inodes[ip].(nlink := inodes[ip].nlink - 1)];
      place := OldPlace(place, ip);
    }

    /** The last iput of an inode frees it when it has no links. */
    method Release(i: int)
      requires Valid() && 0 < i < |inodes|
      modifies `inodes
      ensures Valid() && inodes == if old(inodes[i].nlink) == 0 then Freed(old(inodes), i) else old(inodes)
    {
      if inodes[i].nlink == 0 {
        FreedInv(inodes, pending, place, i);
        inodes := inodes[i := Inode(Free, 0, [])];
      }
    }
  }

  lemma IsFreePlace(es: seq<Dirent>, k: int)
    requires 0 <= k <= |es| && (k < |es| ==> !Live(es[k])) && forall j | 0 <= j < k :: Live(es[j])
    ensures FreePlace(es) == k
  {
  }

  lemma NewTreeInv(xs: seq<Inode>, pending: seq<int>)
    requires |xs| > ROOT && |pending| == |xs| && xs[ROOT] == Inode(Dir, 1, FirstEntries(ROOT, ROOT))
    requires forall i | 0 <= i < |xs| && i != ROOT :: xs[i] == Inode(Free, 0, [])
    requires forall i | 0 <= i < |xs| :: pending[i] == 0
    ensures Inv(xs, pending, map[])
  {
    FirstEntriesOk(|xs|, ROOT, ROOT);
    forall i | 0 < i < |xs| ensures CountOk(xs, pending, i) {
      NewGives(ROOT, ROOT, Dir, i);
      RefsOne(xs, ROOT, i);
    }
    forall i | 0 <= i < |xs| ensures InodeOk(|xs|, i, xs[i]) {}
  }

  /** A run that breaks the counts: a directory is made, removed while a call still holds it, and a
      file is created in it. */
  lemma CreateInRemoved() returns (xs: seq<Inode>, ys: seq<Inode>, zs: seq<Inode>, pending: seq<int>)
    ensures Inv(xs, pending, map[]) && CanAdd(xs, ROOT, 2, Field("d")) && |xs| == 4
    ensures ys == Created(xs, ROOT, 2, Field("d"), 2, Dir)
    ensures CanRemove(ys, ROOT, 2, 2) && zs == Unlinked(ys, ROOT, 2, 2)
    ensures Counts(zs, pending) && CanAdd(zs, 2, 2, Field("f")) && zs[3].kind == Free
    ensures !Counts(Created(zs, 2, 2, Field("f"), 3, Plain), pending)
  {
    var none := Inode(Free, 0, []);
    xs, pending := [none, Inode(Dir, 1, FirstEntries(ROOT, ROOT)), none, none], [0, 0, 0, 0];
    NewTreeInv(xs, pending);
    NewName("d");
    NewName("f");
    ys := Created(xs, ROOT, 2, Field("d"), 2, Dir);
    CreatedInv(xs, pending, map[], ROOT, 2, Field("d"), 2, Dir);
    zs := Unlinked(ys, ROOT, 2, 2);
    UnlinkedInv(ys, pending, NewPlace(map[], ROOT, 2, 2, Dir), ROOT, 2, 2);
    CreateCountsExactly(zs, pending, 2, 2, Field("f"), 3, Plain);
  }

  /** A run after which ".." of a removed directory names a free inode: a/b is made, b is removed while a
      call still holds it, then a is removed, and freed. */
  lemma DotDotGone() returns (xs: seq<Inode>, pending: seq<int>, place: map<int, Place>)
    ensures Inv(xs, pending, place) && |xs| == 4
    ensures xs[3].kind == Dir && xs[3].nlink == 0 && Parent(xs[3]) == 2 && Lookup(xs[3].entries, DotDot()) == 2
            && xs[2].kind == Free
  {
    var none := Inode(Free, 0, []);
    xs, pending := [none, Inode(Dir, 1, FirstEntries(ROOT, ROOT)), none, none], [0, 0, 0, 0];
    NewTreeInv(xs, pending);
    NewName("a");
    CreatedInv(xs, pending, map[], ROOT, 2, Field("a"), 2, Dir);
    var p1 := NewPlace(map[], ROOT, 2, 2, Dir);
    xs := Created(xs, ROOT, 2, Field("a"), 2, Dir);
    CreatedInv(xs, pending, p1, 2, 2, Field("a"), 3, Dir);
    var p2 := NewPlace(p1, 2, 2, 3, Dir);
    xs := Created(xs, 2, 2, Field("a"), 3, Dir);
    UnlinkedInv(xs, pending, p2, 2, 2, 3);
    xs := Unlinked(xs, 2, 2, 3);
    UnlinkedInv(xs, pending, OldPlace(p2, 3), ROOT, 2, 2);
    xs := Unlinked(xs, ROOT, 2, 2);
    place := OldPlace(OldPlace(p2, 3), 2);
    FreedInv(xs, pending, place, 2);
    xs := Freed(xs, 2);
    FindDotDot(3, 2);
  }

  lemma FindDotDot(i: int, d: int)
    requires d != 0
    ensures Lookup(FirstEntries(i, d), DotDot()) == d
  {
    DotsDiffer();
    var es := FirstEntries(i, d);
    assert Differ(es[0], es[1]);
    FindUnique(es, 1);
  }

  lemma NewName(name: string)
    requires |name| == 1 && name[0] != '.' && name[0] != '\0'
    ensures Clean(Field(name)) && forall i, d :: Find(FirstEntries(i, d), Field(name)) == -1
  {
    FieldClean(name);
    assert Dot()[0] == '.' && DotDot()[0] == '.' && Field(name)[0] == name[0];
  }
}
