/** Directory lookups against the inode table (kernel/fs.c:551-575, 651-684): which entries of a directory that
    a thread holds give iget a usable inode. */
module InodeLookup {
  import opened InodeTable
  import opened InodeSafety
  import D = DirSpec
  import L = LinkSpec
  import O = LinkOps

  /** Inode i of the tree, on disk and in the table: free on disk exactly if free in the tree, and with links
      in both if it has links in the tree. */
  predicate SameInode(s: State, dev: int, x: L.Inode, i: int) {
    var key := Key(dev, i);
    && key in s.disk && (s.disk[key].kind == 0 <==> x.kind == L.Free)
    && (x.nlink >= 1 ==> s.disk[key].nlink >= 1 && CopyLinked(s, key))
  }

  predicate CopyLinked(s: State, key: Key) {
    forall j | 0 <= j < |s.table| :: Holds(s.table[j], key) && s.table[j].valid ==> s.table[j].node.nlink >= 1
  }

  ghost predicate Match(s: State, dev: int, xs: seq<L.Inode>) {
    forall i {:trigger SameInode(s, dev, xs[i], i)} | 0 < i < |xs| :: SameInode(s, dev, xs[i], i)
  }

  /** Thread t looks up entry k of directory d, which it holds at slot j of the table. */
  ghost predicate LooksUp(s: State, t: int, dev: int, xs: seq<L.Inode>, d: int, k: int, j: int) {
    && 0 < d < |xs| && xs[d].kind == L.Dir && 0 <= k < |xs[d].entries| && D.Live(xs[d].entries[k])
    && Owns(s, t, j) && s.table[j].key == Key(dev, d)
  }

  /** iget of what a lookup finds is of a usable inode if the directory is linked or the entry is ".". The only
      other entry there can be is ".." of a directory that has been removed, and then it is exactly if the
      inode there now is in use, nobody has just allocated it, and nobody is about to free it. */
  lemma LookupUsable(s: State, t: int, dev: int, xs: seq<L.Inode>, pending: seq<int>, place: map<int, L.Place>, d: int,
                     k: int, j: int)
    requires Inv(s) && Match(s, dev, xs) && L.Inv(xs, pending, place) && LooksUp(s, t, dev, xs, d, k, j)
    ensures var i := xs[d].entries[k].inum; var key := Key(dev, i);
            && 0 < i < |xs|
            && (L.Linked(xs[d]) || k == 0 ==> Usable(s, t, key))
            && (!L.Linked(xs[d]) && k != 0 ==> k == 1 && i == L.Parent(xs[d]))
            && (Usable(s, t, key) <==> xs[i].kind != L.Free && forall u {:trigger Bystander(s, t, u, key)} ::
                  Bystander(s, t, u, key))
  {
    O.TargetInUse(xs, pending, place, d, k);
    var i := xs[d].entries[k].inum;
    assert SameInode(s, dev, xs[i], i);
    if k == 0 {
      OwnIsUsable(s, t, j);
    } else if L.Linked(xs[d]) {
      NamedIsUsable(s, t, Key(dev, i));
    }
  }
}
