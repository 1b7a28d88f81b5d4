/** The doubly linked ring of kernel/bio.c: nodes are numbers, the links two sequences. */
module BufferRing {

  function Next(k: int, n: int): int {
    if k + 1 == n then 0 else k + 1
  }

  predicate Differ(a: int, b: int) {
    a != b
  }

  /** The nodes are different, and valid indices of the links. */
  predicate Nodes(s: seq<int>, size: int) {
    && (forall k | 0 <= k < |s| :: 0 <= s[k] < size)
    && (forall j, k {:trigger Differ(s[j], s[k])} | 0 <= j < k < |s| :: Differ(s[j], s[k]))
  }

  /** s, closed to a ring, is what the links say in both directions. */
  predicate Ring(s: seq<int>, next: seq<int>, prev: seq<int>) {
    && |s| > 0 && |next| == |prev| && Nodes(s, |next|)
    && (forall k | 0 <= k < |s| :: Linked(next, prev, s[k], s[Next(k, |s|)]))
  }

  predicate Linked(next: seq<int>, prev: seq<int>, a: int, b: int) {
    0 <= a < |next| && 0 <= b < |prev| && next[a] == b && prev[b] == a
  }

  lemma RingLink(s: seq<int>, next: seq<int>, prev: seq<int>, k: int)
    requires Ring(s, next, prev) && 0 <= k < |s|
    ensures Linked(next, prev, s[k], s[Next(k, |s|)])
    ensures k > 0 ==> Linked(next, prev, s[k - 1], s[k])
  {
    if k > 0 { assert Linked(next, prev, s[k - 1], s[Next(k - 1, |s|)]); }
  }

  lemma NodesDiffer(s: seq<int>, size: int, j: int, k: int)
    requires Nodes(s, size) && 0 <= j < |s| && 0 <= k < |s| && j != k
    ensures s[j] != s[k]
  {
    assert j < k ==> Differ(s[j], s[k]);
    assert k < j ==> Differ(s[k], s[j]);
  }

  /** Where node b is. */
  function IndexOf(s: seq<int>, b: int): (k: int)
    requires b in s
    ensures 0 <= k < |s| && s[k] == b
  {
    if s[0] == b then 0 else 1 + IndexOf(s[1..], b)
  }

  function Without(s: seq<int>, k: int): seq<int>
    requires 0 <= k < |s|
  {
    s[..k] + s[k + 1..]
  }

  lemma WithoutNodes(s: seq<int>, size: int, k: int)
    requires Nodes(s, size) && 0 <= k < |s|
    ensures Nodes(Without(s, k), size) == true && s[k] !in Without(s, k)
  {
    var t := Without(s, k);
    forall i, j | 0 <= i < j < |t| ensures Differ(t[i], t[j]) {
      NodesDiffer(s, size, if i < k then i else i + 1, if j < k then j else j + 1);
    }
    forall i | 0 <= i < |t| ensures t[i] != s[k] {
      NodesDiffer(s, size, if i < k then i else i + 1, k);
    }
  }

  /** The two updates of a neighbour each take a node other than the first out. */
  lemma Unlinked(s: seq<int>, next: seq<int>, prev: seq<int>, k: int)
    requires Ring(s, next, prev) && 0 < k < |s|
    ensures Linked(next, prev, s[k - 1], s[k]) && Linked(next, prev, s[k], s[Next(k, |s|)])
    ensures Ring(Without(s, k), next[s[k - 1] := s[Next(k, |s|)]], prev[s[Next(k, |s|)] := s[k - 1]]) == true
  {
    RingLink(s, next, prev, k);
    WithoutNodes(s, |next|, k);
    var t := Without(s, k);
    var next', prev' := next[s[k - 1] := s[Next(k, |s|)]], prev[s[Next(k, |s|)] := s[k - 1]];
    forall i | 0 <= i < |t| ensures Linked(next', prev', t[i], t[Next(i, |t|)]) {
      var j := if i < k then i else i + 1;
      RingLink(s, next, prev, j);
      if j != k - 1 {
        NodesDiffer(s, |next|, j, k - 1);
        NodesDiffer(s, |next|, Next(j, |s|), Next(k, |s|));
      }
    }
  }

  /** A node b outside the ring put in after the first node. */
  function Front(s: seq<int>, b: int): seq<int>
    requires |s| > 0
  {
    [s[0], b] + s[1..]
  }

  lemma FrontHas(s: seq<int>, b: int, c: int)
    requires |s| > 0
    ensures c in Front(s, b) <==> c in s || c == b
  {
    assert s == [s[0]] + s[1..];
  }

  lemma WithoutHas(s: seq<int>, size: int, k: int, c: int)
    requires Nodes(s, size) && 0 <= k < |s|
    ensures c in Without(s, k) <==> c in s && c != s[k]
  {
    WithoutNodes(s, size, k);
    assert s == s[..k] + [s[k]] + s[k + 1..];
  }

  lemma Pushed(s: seq<int>, next: seq<int>, prev: seq<int>, b: int)
    requires Ring(s, next, prev) && b !in s && 0 <= b < |next|
    ensures 0 <= s[0] < |next| && 0 <= next[s[0]] < |prev|
    ensures Ring(Front(s, b), next[b := next[s[0]]][s[0] := b], prev[b := s[0]][next[s[0]] := b]) == true
  {
    RingLink(s, next, prev, 0);
    var t, h, q := Front(s, b), s[0], next[s[0]];
    var next', prev' := next[b := q][h := b], prev[b := h][q := b];
    assert b != h && b != q;
    forall i, j | 0 <= i < j < |t| ensures Differ(t[i], t[j]) {
      var i', j' := if i == 0 then 0 else i - 1, if j == 0 then 0 else j - 1;
      if i != 1 && j != 1 { NodesDiffer(s, |next|, i', j'); }
    }
    forall i | 0 <= i < |t| ensures Linked(next', prev', t[i], t[Next(i, |t|)]) {
      if i > 1 {
        RingLink(s, next, prev, i - 1);
        NodesDiffer(s, |next|, i - 1, 0);
        if |s| > 1 && Next(i - 1, |s|) != 1 { NodesDiffer(s, |next|, Next(i - 1, |s|), 1); }
      }
    }
  }
}
