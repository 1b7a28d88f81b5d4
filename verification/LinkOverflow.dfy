/** A file with 32767 names in two directories, and the link that makes its count overflow
    (kernel/sysfile.c:145, kernel/file.h:27). */
module LinkOverflow {
  import opened DirSpec
  import opened LinkSpec
  import opened LinkOps
  import opened Links

  const NAMES := 27000
  /** Names in the root directory; the others are in directory 2. Both are within MAXENTRIES. */
  const FIRST := 17000

  function Letter(x: int): char
    requires 0 <= x < 30
  {
    ('a' as int + x) as char
  }

  /** Different names of three letters. */
  function Name(j: int): string
    requires 0 <= j < NAMES
  {
    [Letter(j / 900), Letter(j / 30 % 30), Letter(j % 30)]
  }

  lemma Digits(j: int)
    requires 0 <= j
    ensures j == j / 900 * 900 + j / 30 % 30 * 30 + j % 30
  {
    assert j / 30 / 30 == j / 900;
  }

  lemma Letters(j: int)
    requires 0 <= j < NAMES
    ensures var a := Field(Name(j));
            a[0] as int == 'a' as int + j / 900 && a[1] as int == 'a' as int + j / 30 % 30
                && a[2] as int == 'a' as int + j % 30
  {
  }

  lemma OtherName(i: int, j: int)
    requires 0 <= i < NAMES && 0 <= j < NAMES && i != j
    ensures Field(Name(i)) != Field(Name(j))
  {
    Letters(i);
    Letters(j);
    Digits(i);
    Digits(j);
  }

  /** The names from the given one on are not in the directory. */
  ghost predicate Unnamed(es: seq<Dirent>, from: int) {
    forall j | from <= j < NAMES && 0 <= j :: Lookup(es, Field(Name(j))) == 0
  }

  lemma NameClean(j: int)
    requires 0 <= j < NAMES
    ensures Clean(Field(Name(j))) && NoNul(Name(j))
  {
    FieldClean(Name(j));
  }

  lemma AddedUnnamed(es: seq<Dirent>, from: int, i: int)
    requires EntriesOk(es) && 0 <= from < NAMES && Unnamed(es, from) && i != 0
    ensures Find(es, Field(Name(from))) == -1
    ensures Unnamed(Put(es, |es|, Dirent(i, Field(Name(from)))), from + 1)
  {
    NameClean(from);
    assert Lookup(es, Field(Name(from))) == 0;
    forall j | from + 1 <= j < NAMES ensures Lookup(Put(es, |es|, Dirent(i, Field(Name(from)))), Field(Name(j))) == 0 {
      OtherName(from, j);
      PutLookup(es, |es|, Dirent(i, Field(Name(from))), Field(Name(j)));
      assert Lookup(es, Field(Name(j))) == 0;
    }
  }

  function NoPending(): seq<int> { [0, 0, 0, 0] }

  /** The file has n names: the first FIRST of them in the root, the others in directory 2. */
  ghost predicate HasNames(xs: seq<Inode>, place: map<int, Place>, n: int) {
    && |xs| == 4 && Inv(xs, NoPending(), place) == true && xs[3].kind == Plain && xs[3].nlink == n
    && Linked(xs[ROOT]) && Linked(xs[2])
    && Unnamed(xs[ROOT].entries, if n < FIRST then n else FIRST) == true
    && Unnamed(xs[2].entries, if n < FIRST then 0 else n - FIRST) == true
  }

  /** Where the next name goes, and which it is. */
  function NextDir(n: int): int { if n < FIRST then ROOT else 2 }
  function NextName(n: int): int { if n < FIRST then n else n - FIRST }

  lemma NextFits(xs: seq<Inode>, place: map<int, Place>, n: int)
    requires HasNames(xs, place, n) && 0 <= n <= SHORT_MAX
    ensures var d := NextDir(n);
            CanAdd(xs, d, |xs[d].entries|, Field(Name(NextName(n)))) && Linked(xs[d]) && EntriesOk(xs[d].entries)
  {
    var d := NextDir(n);
    assert InodeOk(|xs|, d, xs[d]);
    NameClean(NextName(n));
    assert Lookup(xs[d].entries, Field(Name(NextName(n)))) == 0;
  }

  lemma OneMoreName(xs: seq<Inode>, place: map<int, Place>, n: int) returns (zs: seq<Inode>)
    requires HasNames(xs, place, n) && 0 <= n < SHORT_MAX
    ensures HasNames(zs, place, n + 1)
  {
    var d, f := NextDir(n), Field(Name(NextName(n)));
    NextFits(xs, place, n);
    BegunInv(xs, NoPending(), place, 3, 1);
    var ys := WithNlink(xs, 3, n + 1);
    LinkInv(ys, NoPending()[3 := 1], place, d, |ys[d].entries|, f, 3);
    zs := WithEntry(ys, d, |ys[d].entries|, Dirent(3, f));
    assert NoPending()[3 := 1][3 := 0] == NoPending();
    AddedUnnamed(xs[d].entries, NextName(n), 3);
  }

  lemma {:induction false} ManyNames(n: int) returns (xs: seq<Inode>, place: map<int, Place>)
    requires 1 <= n <= SHORT_MAX
    ensures HasNames(xs, place, n)
    decreases n
  {
    if n == 1 {
      xs, place := FirstName();
    } else {
      xs, place := ManyNames(n - 1);
      xs := OneMoreName(xs, place, n - 1);
    }
  }

  /** The root, a directory 2 in it, and a file 3 with the first name. */
  lemma FirstName() returns (xs: seq<Inode>, place: map<int, Place>)
    ensures HasNames(xs, place, 1)
  {
    var none := Inode(Free, 0, []);
    var ws := [none, Inode(Dir, 1, FirstEntries(ROOT, ROOT)), none, none];
    NewTreeInv(ws, NoPending());
    NewName("d");
    CreatedInv(ws, NoPending(), map[], ROOT, 2, Field("d"), 2, Dir);
    place := NewPlace(map[], ROOT, 2, 2, Dir);
    var ys := Created(ws, ROOT, 2, Field("d"), 2, Dir);
    assert InodeOk(4, ROOT, ys[ROOT]) && InodeOk(4, 2, ys[2]);
    FreshUnnamed(2, ROOT);
    FreshUnnamed(ROOT, ROOT);
    StillUnnamed(FirstEntries(ROOT, ROOT));
    var es := ys[ROOT].entries;
    assert es == Put(FirstEntries(ROOT, ROOT), 2, Dirent(2, Field("d")));
    AddedUnnamed(es, 0, 3);
    NameClean(0);
    CreatedInv(ys, NoPending(), place, ROOT, 3, Field(Name(0)), 3, Plain);
    xs := Created(ys, ROOT, 3, Field(Name(0)), 3, Plain);
  }

  lemma FreshUnnamed(i: int, d: int)
    requires i != 0 && d != 0
    ensures Unnamed(FirstEntries(i, d), 0)
  {
    forall j | 0 <= j < NAMES ensures Lookup(FirstEntries(i, d), Field(Name(j))) == 0 {
      assert Field(Name(j))[0] == Letter(j / 900) && Dot()[0] == '.' && DotDot()[0] == '.';
    }
  }

  lemma StillUnnamed(es: seq<Dirent>)
    requires EntriesOk(es) && Unnamed(es, 0) && |es| == 2 && Find(es, Field("d")) == -1
    ensures Unnamed(Put(es, 2, Dirent(2, Field("d"))), 0)
  {
    FieldClean("d");
    forall j | 0 <= j < NAMES ensures Lookup(Put(es, 2, Dirent(2, Field("d"))), Field(Name(j))) == 0 {
      assert Field(Name(j))[1] == Letter(j / 30 % 30) && Field("d")[1] == '\0';
      PutLookup(es, 2, Dirent(2, Field("d")), Field(Name(j)));
      assert Lookup(es, Field(Name(j))) == 0;
    }
  }

  /** One more link, in a linked directory with room: the counts do not hold afterwards. */
  lemma LinkOverflows() returns (xs: seq<Inode>, place: map<int, Place>, d: int, f: string)
    ensures Inv(xs, NoPending(), place) && |xs| == 4 && 0 < d < 4 && CanAdd(xs, d, |xs[d].entries|, f) && Linked(xs[d])
    ensures CanLink(xs[3]) && xs[3].nlink == SHORT_MAX
    ensures !Counts(WithEntry(WithNlink(xs, 3, Inc16(xs[3].nlink)), d, |xs[d].entries|, Dirent(3, f)), NoPending())
  {
    xs, place := ManyNames(SHORT_MAX);
    NextFits(xs, place, SHORT_MAX);
    d, f := NextDir(SHORT_MAX), Field(Name(NextName(SHORT_MAX)));
    WholeLinkExactly(xs, NoPending(), d, |xs[d].entries|, f, 3);
  }
}
