/** Directories of kernel/fs.c: names of DIRSIZ characters, and a directory's entries as a finite map
    from names to inode numbers. */
module DirSpec {

  const DIRSIZ := 14

  /** The name field of an entry: the name cut to DIRSIZ characters, or filled up with NUL. */
  function Field(name: string): (f: string)
    ensures |f| == DIRSIZ
  {
    if |name| >= DIRSIZ then name[..DIRSIZ] else name + seq(DIRSIZ - |name|, _ => '\0')
  }

  predicate NoNul(name: string) {
    forall k | 0 <= k < |name| :: name[k] != '\0'
  }

  /** The character of a C string, NUL at its end. */
  function CharAt(s: string, k: int): char
    requires 0 <= k
  {
    if k < |s| then s[k] else '\0'
  }

  /** A field as strncpy writes it has nothing but NUL after the first NUL. */
  predicate Clean(f: string) {
    |f| == DIRSIZ && forall j, k | 0 <= j < k < DIRSIZ && f[j] == '\0' :: f[k] == '\0'
  }

  lemma FieldClean(name: string)
    requires NoNul(name)
    ensures Clean(Field(name))
  {
  }

  /** namecmp, the strncmp of a string with a field: 0 exactly when the field is that of the string,
      so names count modulo truncation. */
  method Namecmp(name: string, f: string) returns (r: int)
    requires NoNul(name) && Clean(f)
    ensures r == 0 <==> Field(name) == f
  {
    var n, k := DIRSIZ, 0;
    while n > 0 && CharAt(name, k) != '\0' && CharAt(name, k) == f[k]
      invariant k + n == DIRSIZ && 0 <= k <= DIRSIZ && k <= |name| && name[..k] == f[..k]
    {
      n, k := n - 1, k + 1;
    }
    if n == 0 {
      assert name[..DIRSIZ] == f[..DIRSIZ] == f;
      return 0;
    }
    r := CharAt(name, k) as int - f[k] as int;
    assert Field(name)[k] == CharAt(name, k);
  }

  // Entries.

  /** A directory entry; inode number 0 marks a free one. */
  datatype Dirent = Dirent(inum: int, name: string)

  predicate Live(e: Dirent) { e.inum != 0 }

  predicate Differ(a: Dirent, b: Dirent) {
    Live(a) && Live(b) ==> a.name != b.name
  }

  /** No two live entries have the same name. */
  predicate NamesDiffer(es: seq<Dirent>) {
    forall j, k {:trigger Differ(es[j], es[k])} | 0 <= j < k < |es| :: Differ(es[j], es[k])
  }

  predicate EntriesOk(es: seq<Dirent>) {
    NamesDiffer(es) && forall k | 0 <= k < |es| :: Live(es[k]) ==> Clean(es[k].name)
  }

  /** The place of the first live entry with name f, or -1. */
  function Find(es: seq<Dirent>, f: string): (k: int)
    ensures -1 <= k < |es|
    ensures k >= 0 ==> Live(es[k]) && es[k].name == f
    ensures k == -1 ==> forall j | 0 <= j < |es| :: !(Live(es[j]) && es[j].name == f)
  {
    if es == [] then -1
    else if Live(es[0]) && es[0].name == f then 0
    else var k := Find(es[1..], f); if k == -1 then -1 else k + 1
  }

  /** The directory as a finite map, 0 where there is no entry. */
  function Lookup(es: seq<Dirent>, f: string): int {
    var k := Find(es, f); if k == -1 then 0 else es[k].inum
  }

  lemma FindUnique(es: seq<Dirent>, k: int)
    requires NamesDiffer(es) && 0 <= k < |es| && Live(es[k])
    ensures Find(es, es[k].name) == k
  {
    var j := Find(es, es[k].name);
    assert j < k ==> Differ(es[j], es[k]);
    assert k < j ==> Differ(es[k], es[j]);
  }

  /** The first free place, or the length. */
  function FreePlace(es: seq<Dirent>): (k: int)
    ensures 0 <= k <= |es| && (k < |es| ==> !Live(es[k])) && forall j | 0 <= j < k :: Live(es[j])
  {
    if es == [] || !Live(es[0]) then 0 else 1 + FreePlace(es[1..])
  }

  /** Entry e at place k, which may be one past the end. */
  function Put(es: seq<Dirent>, k: int, e: Dirent): seq<Dirent>
    requires 0 <= k <= |es|
  {
    if k == |es| then es + [e] else es[k := e]
  }

  lemma PutOk(es: seq<Dirent>, k: int, e: Dirent)
    requires EntriesOk(es) && 0 <= k <= |es| && (Live(e) ==> Clean(e.name) && Find(es, e.name) == -1)
    ensures EntriesOk(Put(es, k, e))
  {
    var t := Put(es, k, e);
    forall i, j | 0 <= i < j < |t| ensures Differ(t[i], t[j]) {
      if i != k && j != k { assert Differ(es[i], es[j]); }
    }
  }

  /** dirlink on the finite map: the new name is bound and every other name is as it was. */
  lemma PutLookup(es: seq<Dirent>, k: int, e: Dirent, f: string)
    requires EntriesOk(es) && 0 <= k <= |es| && (k < |es| ==> !Live(es[k])) && Live(e) && Clean(e.name)
             && Find(es, e.name) == -1
    ensures Lookup(Put(es, k, e), f) == if f == e.name then e.inum else Lookup(es, f)
  {
    var t := Put(es, k, e);
    PutOk(es, k, e);
    if f == e.name {
      FindUnique(t, k);
    } else if Find(es, f) != -1 {
      FindUnique(t, Find(es, f));
    } else {
      assert forall j | 0 <= j < |t| :: !(Live(t[j]) && t[j].name == f);
    }
  }

  /** unlink on the finite map: the name is gone. */
  lemma RemoveLookup(es: seq<Dirent>, k: int, g: string, f: string)
    requires EntriesOk(es) && 0 <= k < |es| && Live(es[k])
    ensures Lookup(es[k := Dirent(0, g)], f) == if f == es[k].name then 0 else Lookup(es, f)
  {
    var t := es[k := Dirent(0, g)];
    PutOk(es, k, Dirent(0, g));
    FindUnique(es, k);
    var j := Find(t, f);
    if j != -1 { FindUnique(es, j); }
    var i := Find(es, f);
    if i != -1 && i != k { FindUnique(t, i); }
  }
}
