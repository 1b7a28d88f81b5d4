/** The parser of user/sh.c as it runs: loops that advance a position in the line, and nulterminate,
    which writes into the buffer that holds it. */
module Shell {
  import opened ShellSpec
  import opened ShellPrint
  import opened ShellWords
  import RT = ShellRoundTrip

  method SkipSpace(s: string, i: int) returns (j: int)
    requires 0 <= i <= |s|
    ensures j == Skip(s, i)
  {
    j := i;
    while j < |s| && IsSpace(s[j])
      invariant i <= j <= |s| && Skip(s, j) == Skip(s, i)
    {
      j := j + 1;
    }
  }

  method Gettoken(s: string, i: int) returns (tok: Token, next: int)
    requires 0 <= i <= |s|
    ensures (tok, next) == GetToken(s, i)
  {
    var q := SkipSpace(s, i);
    var j := q;
    if j == |s| {
      tok := End;
    } else if s[j] == '>' {
      j := j + 1;
      tok := Sym('>');
      if j < |s| && s[j] == '>' {
        tok := AppendTo;
        j := j + 1;
      }
    } else if IsSymbol(s[j]) {
      tok := Sym(s[j]);
      j := j + 1;
    } else {
      while j < |s| && !IsSpace(s[j]) && !IsSymbol(s[j])
        invariant q <= j <= |s| && WordEnd(s, j) == WordEnd(s, q)
      {
        j := j + 1;
      }
      tok := Word(Span(q, j));
    }
    next := SkipSpace(s, j);
  }

  /** Whether one of toks comes next, and the position after the white space before it. */
  method PeekAt(s: string, i: int, toks: string) returns (b: bool, j: int)
    requires 0 <= i <= |s|
    ensures j == Skip(s, i) && (b <==> exists k :: 0 <= k < |toks| && Peek(s, i, toks[k]))
  {
    j := SkipSpace(s, i);
    b := j < |s| && s[j] in toks;
    if b {
      var k :| 0 <= k < |toks| && toks[k] == s[j];
      assert Peek(s, i, toks[k]);
    }
  }

  method Parseredirs(s: string, i: int) returns (r: Result<seq<Redirect<Span>>>)
    requires 0 <= i <= |s|
    ensures r == ParseRedirs(s, i)
  {
    var rs, j := [], i;
    PrependedNothing(ParseRedirs(s, i));
    while true
      invariant i <= j <= |s|
      invariant ParseRedirs(s, i) == Prepended(rs, ParseRedirs(s, j))
      decreases |s| - j
    {
      var j0 := j;
      var b;
      b, j := PeekAt(s, j, "<>");
      ArrowIs(s, j0, b);
      SkipTwice(s, j0);
      RedirsSkip(s, j0);
      if !b {
        assert rs + [] == rs;
        return Ok(rs, j);
      }
      var tok, file;
      tok, j := Gettoken(s, j);
      file, j := Gettoken(s, j);
      if !file.Word? {
        return Err(MissingFile);
      }
      var x := Redirect(file.span, ModeOf(tok));
      PrependedTwice(rs, x, ParseRedirs(s, j));
      rs := rs + [x];
    }
  }

  function Prepended(rs: seq<Redirect<Span>>, r: Result<seq<Redirect<Span>>>): Result<seq<Redirect<Span>>> {
    if r.Ok? then Ok(rs + r.value, r.pos) else r
  }

  lemma PrependedNothing(r: Result<seq<Redirect<Span>>>)
    ensures Prepended([], r) == r
  {
    if r.Ok? { assert [] + r.value == r.value; }
  }

  lemma PrependedTwice(rs: seq<Redirect<Span>>, x: Redirect<Span>, r: Result<seq<Redirect<Span>>>)
    ensures Prepended(rs, if r.Ok? then Ok([x] + r.value, r.pos) else Err(r.error)) == Prepended(rs + [x], r)
  {
    if r.Ok? { assert rs + ([x] + r.value) == rs + [x] + r.value; }
  }

  lemma ArrowIs(s: string, i: int, b: bool)
    requires 0 <= i <= |s| && (b <==> exists k :: 0 <= k < |"<>"| && Peek(s, i, "<>"[k]))
    ensures b <==> PeekArrow(s, i)
  {
    if PeekArrow(s, i) {
      assert Peek(s, i, "<>"[0]) || Peek(s, i, "<>"[1]);
    }
  }

  lemma RedirsSkip(s: string, i: int)
    requires 0 <= i <= |s|
    ensures ParseRedirs(s, Skip(s, i)) == ParseRedirs(s, i)
  {
    SameAfter(s, i);
    SameToken(s, Skip(s, i), i);
    SkipTwice(s, i);
  }

  // nulterminate.

  /** The ends of all words of a tree. */
  function Ends(t: Cmd<Span>): set<int> {
    match t
    case Exec(argv) => EndsOf(argv)
    case Redir(c, file, mode) => Ends(c) + {file.eq}
    case Pipe(l, r) => Ends(l) + Ends(r)
    case List(l, r) => Ends(l) + Ends(r)
    case Back(c) => Ends(c)
  }

  function EndsOf(argv: seq<Span>): set<int> {
    if argv == [] then {} else {argv[0].eq} + EndsOf(argv[1..])
  }

  predicate HasWord(t: Cmd<Span>, p: Span) {
    match t
    case Exec(argv) => p in argv
    case Redir(c, file, mode) => HasWord(c, p) || file == p
    case Pipe(l, r) => HasWord(l, p) || HasWord(r, p)
    case List(l, r) => HasWord(l, p) || HasWord(r, p)
    case Back(c) => HasWord(c, p)
  }

  /** A NUL at the end of every word of the tree, and nothing else changed. */
  method Nulterminate(buf: array<char>, t: Cmd<Span>)
    requires forall e | e in Ends(t) :: 0 <= e < buf.Length
    modifies buf
    ensures forall k | 0 <= k < buf.Length :: buf[k] == if k in Ends(t) then '\0' else old(buf[k])
    decreases t
  {
    match t
    case Exec(argv) =>
      assert Ends(t) == EndsOf(argv);
      var i := 0;
      while i < |argv|
        invariant 0 <= i <= |argv|
        invariant forall k | 0 <= k < buf.Length :: buf[k] == if k in EndsOf(argv[..i]) then '\0' else old(buf[k])
      {
        EndsSnoc(argv, i);
        EndsPart(argv, i);
        buf[argv[i].eq] := '\0';
        i := i + 1;
      }
      assert argv[..i] == argv;
    case Redir(c, file, mode) =>
      assert Ends(t) == Ends(c) + {file.eq};
      Nulterminate(buf, c);
      buf[file.eq] := '\0';
    case Pipe(l, r) =>
      assert Ends(t) == Ends(l) + Ends(r);
      Nulterminate(buf, l);
      Nulterminate(buf, r);
    case List(l, r) =>
      assert Ends(t) == Ends(l) + Ends(r);
      Nulterminate(buf, l);
      Nulterminate(buf, r);
    case Back(c) =>
      assert Ends(t) == Ends(c);
      Nulterminate(buf, c);
  }

  lemma EndsConcat(a: seq<Span>, b: seq<Span>)
    ensures EndsOf(a + b) == EndsOf(a) + EndsOf(b)
  {
    if a == [] {
      assert a + b == b;
    } else {
      assert (a + b)[1..] == a[1..] + b;
      EndsConcat(a[1..], b);
    }
  }

  lemma EndsSnoc(argv: seq<Span>, i: int)
    requires 0 <= i < |argv|
    ensures EndsOf(argv[..i + 1]) == EndsOf(argv[..i]) + {argv[i].eq}
  {
    assert argv[..i + 1] == argv[..i] + [argv[i]];
    EndsConcat(argv[..i], [argv[i]]);
    assert [argv[i]][1..] == [];
  }

  lemma EndsPart(argv: seq<Span>, i: int)
    requires 0 <= i < |argv|
    ensures argv[i].eq in EndsOf(argv)
  {
    EndsSnoc(argv, i);
    assert argv == argv[..i + 1] + argv[i + 1..];
    EndsConcat(argv[..i + 1], argv[i + 1..]);
  }

  /** Every end is past a word: at a space, a symbol or the end of the line. */
  lemma {:induction false} EndsOutside(s: string, t: Cmd<Span>, e: int)
    requires TreeWords(s, t) && e in Ends(t)
    ensures 0 < e <= |s| && (e < |s| ==> !IsWord(s[e]))
  {
    match t
    case Exec(argv) => EndsOfOutside(s, argv, e);
    case Redir(c, file, mode) => if e in Ends(c) { EndsOutside(s, c, e); }
    case Pipe(l, r) => if e in Ends(l) { EndsOutside(s, l, e); } else { EndsOutside(s, r, e); }
    case List(l, r) => if e in Ends(l) { EndsOutside(s, l, e); } else { EndsOutside(s, r, e); }
    case Back(c) => EndsOutside(s, c, e);
  }

  lemma {:induction false} EndsOfOutside(s: string, argv: seq<Span>, e: int)
    requires WholeWords(s, argv) && e in EndsOf(argv)
    ensures 0 < e <= |s| && (e < |s| ==> !IsWord(s[e]))
  {
    assert WholeWord(s, argv[0]);
    if e != argv[0].eq { EndsOfOutside(s, argv[1..], e); }
  }

  lemma {:induction false} WordInTree(s: string, t: Cmd<Span>, p: Span)
    requires TreeWords(s, t) && HasWord(t, p)
    ensures WholeWord(s, p) && p.eq in Ends(t)
  {
    match t
    case Exec(argv) =>
      var i :| 0 <= i < |argv| && argv[i] == p;
      assert WholeWord(s, argv[i]);
      EndsPart(argv, i);
    case Redir(c, file, mode) => if HasWord(c, p) { WordInTree(s, c, p); }
    case Pipe(l, r) => if HasWord(l, p) { WordInTree(s, l, p); } else { WordInTree(s, r, p); }
    case List(l, r) => if HasWord(l, p) { WordInTree(s, l, p); } else { WordInTree(s, r, p); }
    case Back(c) => WordInTree(s, c, p);
  }

  /** The string that a pointer into a buffer stands for. */
  function CString(b: seq<char>, i: int): string
    requires 0 <= i < |b| && b[|b| - 1] == '\0'
    decreases |b| - i
  {
    if b[i] == '\0' then "" else [b[i]] + CString(b, i + 1)
  }

  lemma {:induction false} CStringIs(b: seq<char>, i: int, e: int)
    requires 0 <= i <= e < |b| && b[|b| - 1] == '\0' && b[e] == '\0' && forall k | i <= k < e :: b[k] != '\0'
    ensures CString(b, i) == b[i..e]
    decreases e - i
  {
    if i < e {
      CStringIs(b, i + 1, e);
      assert b[i..e] == [b[i]] + b[i + 1..e];
    }
  }

  /** The line s with a NUL at each of the ends and one after it. */
  predicate Terminated(s: string, ends: set<int>, b: seq<char>) {
    && |b| == |s| + 1 && b[|s|] == '\0'
    && (forall k | 0 <= k < |s| :: b[k] == if k in ends then '\0' else s[k])
  }

  lemma ReadBackOne(s: string, ends: set<int>, b: seq<char>, p: Span)
    requires Terminated(s, ends, b) && WholeWord(s, p) && p.eq in ends && (forall k | 0 <= k < |s| :: s[k] != '\0')
    requires forall k | p.q <= k < p.eq :: k !in ends
    ensures CString(b, p.q) == Text(s, p)
  {
    CStringIs(b, p.q, p.eq);
    assert b[p.q..p.eq] == s[p.q..p.eq];
  }

  /** After nulterminate every word of the tree reads back as it stood in the line. */
  lemma WordsReadBack(s: string, t: Cmd<Span>, b: seq<char>, p: Span)
    requires TreeWords(s, t) && HasWord(t, p) && (forall k | 0 <= k < |s| :: s[k] != '\0') && Terminated(s, Ends(t), b)
    ensures 0 <= p.q < |b| && CString(b, p.q) == Text(s, p)
  {
    WordInTree(s, t, p);
    forall k | p.q <= k < p.eq ensures k !in Ends(t) {
      NotInside(s, t, p, k);
    }
    ReadBackOne(s, Ends(t), b, p);
  }

  /** No terminator lands inside a word. */
  lemma NotInside(s: string, t: Cmd<Span>, p: Span, k: int)
    requires TreeWords(s, t) && WholeWord(s, p) && p.q <= k < p.eq
    ensures k !in Ends(t)
  {
    if k in Ends(t) { EndsOutside(s, t, k); }
  }

  /** parsecmd on a buffer that holds a line: the tree, with every word of it a string of its own. */
  method Parsecmd(buf: array<char>) returns (r: Result<Cmd<Span>>)
    requires buf.Length > 0 && buf[buf.Length - 1] == '\0' && forall k | 0 <= k < buf.Length - 1 :: buf[k] != '\0'
    modifies buf
    ensures r == ParseCmd(old(buf[..buf.Length - 1]))
    ensures buf.Length > 0 && buf[buf.Length - 1] == '\0'
    ensures r.Ok? ==> TreeWords(old(buf[..buf.Length - 1]), r.value)
    ensures r.Ok? ==> forall p: Span | HasWord(r.value, p) ::
        0 <= p.q < buf.Length && CString(buf[..], p.q) == Text(old(buf[..buf.Length - 1]), p)
  {
    var s := buf[..buf.Length - 1];
    r := ParseCmd(s);
    if r.Ok? {
      LineWhole(s, 0);
      forall e | e in Ends(r.value) ensures 0 <= e < buf.Length {
        EndsOutside(s, r.value, e);
      }
      Nulterminate(buf, r.value);
      forall p: Span | HasWord(r.value, p) ensures 0 <= p.q < buf.Length && CString(buf[..], p.q) == Text(s, p) {
        WordsReadBack(s, r.value, buf[..], p);
      }
    }
  }

  /** Any line that parses gives a tree that, written back and parsed again, is the same tree. */
  lemma ReparseSame(s: string)
    requires ParseCmd(s).Ok?
    ensures var t := TreeText(s, ParseCmd(s).value); var s' := PrintLine(t);
      ParseCmd(s').Ok? && TreeText(s', ParseCmd(s').value) == t
  {
    LineWhole(s, 0);
    TextOk(s, ParseCmd(s).value);
    RT.RoundTrip(TreeText(s, ParseCmd(s).value));
  }
}
