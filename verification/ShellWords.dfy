/** What the parser of user/sh.c builds: every word in the tree is a whole word of the line. */
module ShellWords {
  import opened ShellSpec
  import opened ShellPrint

  /** A whole word of the line: word characters only, with none after it. */
  predicate WholeWord(s: string, p: Span) {
    && 0 <= p.q < p.eq <= |s| && (p.eq < |s| ==> !IsWord(s[p.eq]))
    && (forall k | p.q <= k < p.eq :: IsWord(s[k]))
  }

  predicate WholeWords(s: string, ps: seq<Span>) {
    forall k | 0 <= k < |ps| :: WholeWord(s, ps[k])
  }

  predicate WholeFiles(s: string, rs: seq<Redirect<Span>>) {
    forall k | 0 <= k < |rs| :: WholeWord(s, rs[k].file)
  }

  predicate TreeWords(s: string, t: Cmd<Span>) {
    match t
    case Exec(argv) => |argv| < MAXARGS && WholeWords(s, argv)
    case Redir(c, file, mode) => TreeWords(s, c) && WholeWord(s, file)
    case Pipe(l, r) => TreeWords(s, l) && TreeWords(s, r)
    case List(l, r) => TreeWords(s, l) && TreeWords(s, r)
    case Back(c) => TreeWords(s, c)
  }

  lemma {:induction false} WordEndWhole(s: string, i: int, k: int)
    requires 0 <= i <= |s| && i <= k < WordEnd(s, i)
    ensures IsWord(s[k])
    decreases |s| - i
  {
    if i < k { WordEndWhole(s, i + 1, k); }
  }

  lemma TokenWhole(s: string, i: int)
    requires 0 <= i <= |s| && GetToken(s, i).0.Word?
    ensures WholeWord(s, GetToken(s, i).0.span)
  {
    var p := GetToken(s, i).0.span;
    forall k | p.q <= k < p.eq ensures IsWord(s[k]) {
      WordEndWhole(s, p.q, k);
    }
  }

  lemma {:induction false} RedirsWhole(s: string, i: int)
    requires 0 <= i <= |s| && ParseRedirs(s, i).Ok?
    ensures WholeFiles(s, ParseRedirs(s, i).value)
    decreases |s| - i
  {
    if PeekArrow(s, i) {
      var j := GetToken(s, i).1;
      TokenWhole(s, j);
      RedirsWhole(s, GetToken(s, j).1);
    }
  }

  lemma {:induction false} ArgsWhole(s: string, i: int, argc: int)
    requires 0 <= i <= |s| && 0 <= argc < MAXARGS && ParseArgs(s, i, argc).Ok?
    ensures var v := ParseArgs(s, i, argc).value; WholeWords(s, v.0) && WholeFiles(s, v.1) && argc + |v.0| < MAXARGS
    decreases |s| - i
  {
    if !PeekStop(s, i) && GetToken(s, i).0.Word? {
      TokenWhole(s, i);
      var j := GetToken(s, i).1;
      RedirsWhole(s, j);
      ArgsWhole(s, ParseRedirs(s, j).pos, argc + 1);
    }
  }

  lemma {:induction false} WrapWhole(s: string, c: Cmd<Span>, rs: seq<Redirect<Span>>)
    requires TreeWords(s, c) && WholeFiles(s, rs)
    ensures TreeWords(s, Wrap(c, rs))
    decreases |rs|
  {
    if rs != [] { WrapWhole(s, Redir(c, rs[0].file, rs[0].mode), rs[1..]); }
  }

  lemma {:induction false} BacksWhole(s: string, i: int, c: Cmd<Span>)
    requires 0 <= i <= |s| && TreeWords(s, c)
    ensures TreeWords(s, ParseBacks(s, i, c).0)
    decreases |s| - i
  {
    if Peek(s, i, '&') { BacksWhole(s, GetToken(s, i).1, Back(c)); }
  }

  lemma {:induction false} ExecWhole(s: string, i: int)
    requires 0 <= i <= |s| && ParseExec(s, i).Ok?
    ensures TreeWords(s, ParseExec(s, i).value)
    decreases |s| - i, 1
  {
    if Peek(s, i, '(') {
      BlockWhole(s, i);
    } else {
      RedirsWhole(s, i);
      var rs := ParseRedirs(s, i);
      ArgsWhole(s, rs.pos, 0);
      var args := ParseArgs(s, rs.pos, 0);
      WrapWhole(s, Exec(args.value.0), rs.value + args.value.1);
    }
  }

  lemma {:induction false} BlockWhole(s: string, i: int)
    requires 0 <= i <= |s| && Peek(s, i, '(') && ParseBlock(s, i).Ok?
    ensures TreeWords(s, ParseBlock(s, i).value)
    decreases |s| - i, 0
  {
    var j := GetToken(s, i).1;
    LineWhole(s, j);
    var line := ParseLine(s, j);
    var k := GetToken(s, line.pos).1;
    RedirsWhole(s, k);
    WrapWhole(s, line.value, ParseRedirs(s, k).value);
  }

  lemma {:induction false} PipeWhole(s: string, i: int)
    requires 0 <= i <= |s| && ParsePipe(s, i).Ok?
    ensures TreeWords(s, ParsePipe(s, i).value)
    decreases |s| - i, 2
  {
    ExecWhole(s, i);
    var left := ParseExec(s, i);
    if Peek(s, left.pos, '|') { PipeWhole(s, GetToken(s, left.pos).1); }
  }

  lemma {:induction false} LineWhole(s: string, i: int)
    requires 0 <= i <= |s| && ParseLine(s, i).Ok?
    ensures TreeWords(s, ParseLine(s, i).value)
    decreases |s| - i, 3
  {
    PipeWhole(s, i);
    var left := ParsePipe(s, i);
    BacksWhole(s, left.pos, left.value);
    var j := ParseBacks(s, left.pos, left.value).1;
    if Peek(s, j, ';') { LineWhole(s, GetToken(s, j).1); }
  }

  /** So every tree that parses is one that can be written back. */
  lemma {:induction false} TextOk(s: string, t: Cmd<Span>)
    requires TreeWords(s, t)
    ensures TreeOk(TreeText(s, t))
  {
    match t
    case Exec(argv) => ArgsTextOk(s, argv);
    case Redir(c, file, mode) => TextOk(s, c);
    case Pipe(l, r) => TextOk(s, l); TextOk(s, r);
    case List(l, r) => TextOk(s, l); TextOk(s, r);
    case Back(c) => TextOk(s, c);
  }

  lemma {:induction false} ArgsTextOk(s: string, argv: seq<Span>)
    requires WholeWords(s, argv)
    ensures ArgsOk(Texts(s, argv)) && |Texts(s, argv)| == |argv|
  {
    if argv != [] {
      assert WholeWord(s, argv[0]);
      ArgsTextOk(s, argv[1..]);
      assert Texts(s, argv)[1..] == Texts(s, argv[1..]);
    }
  }
}
