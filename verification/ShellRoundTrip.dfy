/** Every command tree, written back in the shell's grammar, parses to the same tree. */
module ShellRoundTrip {
  import opened ShellSpec
  import opened ShellPrint

  /** What the parsing functions return is the tree t, read up to e. */
  ghost predicate ExecRead(s: string, i: int, t: Cmd<string>, e: int) {
    0 <= i <= |s| && var r := ParseExec(s, i); r.Ok? && TreeText(s, r.value) == t && Same(s, r.pos, e)
  }

  ghost predicate PipeRead(s: string, i: int, t: Cmd<string>, e: int) {
    0 <= i <= |s| && var r := ParsePipe(s, i); r.Ok? && TreeText(s, r.value) == t && Same(s, r.pos, e)
  }

  ghost predicate LineRead(s: string, i: int, t: Cmd<string>, e: int) {
    0 <= i <= |s| && var r := ParseLine(s, i); r.Ok? && TreeText(s, r.value) == t && Same(s, r.pos, e)
  }

  /** A stop is no arrow and no parenthesis to open. */
  lemma EndsAreNoStart(s: string, e: int)
    requires ExecEnds(s, e)
    ensures !PeekArrow(s, e) && !Peek(s, e, '(')
  {
  }

  // Simple commands.

  lemma OnlyRedirs(s: string, i: int, p: int, rs: seq<Redirect<string>>, e: int)
    requires Same(s, i, p) == true && RedirsAt(s, p, rs, e) == true && RedirsOk(rs) == true && ExecEnds(s, e) == true
    ensures ExecRead(s, i, Wrap(Exec([]), rs), e) == true
  {
    EndsAreNoStart(s, e);
    RedirsBack(s, i, p, rs, e);
    RedirsNoParen(s, i, p, rs, e);
    var r := ParseRedirs(s, i);
    ArgsEnd(s, r.pos, 0);
    SameAfter(s, r.pos);
    assert r.value + [] == r.value;
    WrapText(s, Exec([]), r.value);
    ExecIs(s, i, r, ParseArgs(s, r.pos, 0));
  }

  lemma RedirsNoParen(s: string, i: int, p: int, rs: seq<Redirect<string>>, e: int)
    requires Same(s, i, p) == true && RedirsAt(s, p, rs, e) == true && RedirsOk(rs) == true && ExecEnds(s, e) == true
    ensures !Peek(s, i, '(')
  {
    if rs == [] {
      EndsAreNoStart(s, e);
      SameToken(s, i, p);
    } else {
      RedirsOkTail(rs);
      var p' := RedirsAtTail(s, p, rs, e);
      var k := RedirTokens(s, i, p, p', rs[0].mode, rs[0].file);
    }
  }

  /** parseexec without a block. */
  lemma ExecIs(s: string, i: int, r: Result<seq<Redirect<Span>>>, a: Result<(seq<Span>, seq<Redirect<Span>>)>)
    requires 0 <= i <= |s| && !Peek(s, i, '(') && r == ParseRedirs(s, i) && r.Ok? && a == ParseArgs(s, r.pos, 0)
             && a.Ok?
    ensures ParseExec(s, i) == Ok(Wrap(Exec(a.value.0), r.value + a.value.1), a.pos)
  {
  }

  lemma ArgsAndRedirs(s: string, i: int, p: int, w: string, ws: seq<string>, m: int, rs: seq<Redirect<string>>, e: int)
    requires Same(s, i, p) == true && At(s, p, w + " ") == true && WordOk(w) == true
             && ArgsAt(s, p + |w| + 1, ws, m) == true && ArgsOk(ws) == true
    requires RedirsAt(s, m, rs, e) == true && RedirsOk(rs) == true && 1 + |ws| < MAXARGS && ExecEnds(s, e) == true
    ensures ExecRead(s, i, Wrap(Exec([w] + ws), rs), e) == true
  {
    ArgToken(s, i, p, w);
    NoRedirs(s, i);
    SkipTwice(s, i);
    ArgsBack(s, Skip(s, i), p, w, ws, m, rs, e, 0);
    var a := ParseArgs(s, Skip(s, i), 0);
    assert [] + a.value.1 == a.value.1;
    WrapText(s, Exec(a.value.0), a.value.1);
    ExecIs(s, i, ParseRedirs(s, i), a);
  }

  lemma SimpleBack(s: string, i: int, p: int, argv: seq<string>, rs: seq<Redirect<string>>, e: int)
    requires Same(s, i, p) == true && At(s, p, PrintArgs(argv) + PrintRedirs(rs))
             && e == p + |PrintArgs(argv) + PrintRedirs(rs)|
    requires ArgsOk(argv) == true && |argv| < MAXARGS && RedirsOk(rs) == true && ExecEnds(s, e) == true
    ensures ExecRead(s, i, Wrap(Exec(argv), rs), e) == true
  {
    AtSplit(s, p, PrintArgs(argv), PrintRedirs(rs));
    var m := p + |PrintArgs(argv)|;
    PrintedArgs(s, p, argv);
    PrintedRedirs(s, m, rs);
    if argv == [] {
      OnlyRedirs(s, i, p, rs, e);
    } else {
      ArgsOkTail(argv);
      ArgsAtTail(s, p, argv, m);
      ArgsAndRedirs(s, i, p, argv[0], argv[1..], m, rs, e);
    }
  }

  // Blocks.

  lemma BlockBack(s: string, i: int, p: int, b: Cmd<string>, m: int, rs: seq<Redirect<string>>, e: int)
    requires Same(s, i, p) == true && At(s, p, Mark('(')) == true && LineRead(s, Skip(s, p + 2), b, m) == true
             && At(s, m, Mark(')')) == true
    requires RedirsAt(s, m + 2, rs, e) == true && RedirsOk(rs) == true && ExecEnds(s, e) == true
    ensures ExecRead(s, i, Wrap(b, rs), e) == true
  {
    var line := ParseLine(s, Skip(s, p + 2));
    SymbolToken(s, p, '(');
    SameToken(s, i, p);
    SymbolToken(s, m, ')');
    SameToken(s, line.pos, m);
    BlockRedirs(s, m, rs, e);
    var r := ParseRedirs(s, Skip(s, m + 2));
    WrapText(s, line.value, r.value);
    BlockIs(s, i, line, r);
  }

  lemma BlockRedirs(s: string, m: int, rs: seq<Redirect<string>>, e: int)
    requires At(s, m, Mark(')')) == true && RedirsAt(s, m + 2, rs, e) == true && RedirsOk(rs) == true
             && ExecEnds(s, e) == true
    ensures RedirsRead(s, Skip(s, m + 2), rs, e) == true
  {
    SameAfter(s, m + 2);
    EndsAreNoStart(s, e);
    RedirsBack(s, Skip(s, m + 2), m + 2, rs, e);
  }

  lemma BlockIs(s: string, i: int, line: Result<Cmd<Span>>, r: Result<seq<Redirect<Span>>>)
    requires 0 <= i <= |s| && Peek(s, i, '(') && line == ParseLine(s, GetToken(s, i).1) && line.Ok?
             && Peek(s, line.pos, ')')
    requires r == ParseRedirs(s, GetToken(s, line.pos).1) && r.Ok?
    ensures ParseExec(s, i) == Ok(Wrap(line.value, r.value), r.pos)
  {
    assert ParseBlock(s, i) == Ok(Wrap(line.value, r.value), r.pos);
  }

  // Trees.

  predicate Compound(t: Cmd<string>) { t.Pipe? || t.Back? || t.List? }

  lemma OkParts(t: Cmd<string>)
    requires TreeOk(t)
    ensures TreeOk(Base(t)) && RedirsOk(Redirs(t)) == true
  {
    if t.Redir? {
      OkParts(t.cmd);
      RedirsOkSnoc(Redirs(t.cmd), Redirect(t.file, t.mode));
    }
  }

  lemma RedirsOkSnoc(rs: seq<Redirect<string>>, r: Redirect<string>)
    requires RedirsOk(rs) && WordOk(r.file)
    ensures RedirsOk(rs + [r])
  {
    if rs != [] {
      assert (rs + [r])[1..] == rs[1..] + [r];
      RedirsOkSnoc(rs[1..], r);
    }
  }

  /** A parenthesis and what belongs to it. */
  lemma ParenParts(s: string, p: int, inner: string, rs: seq<Redirect<string>>, e: int) returns (m: int)
    requires At(s, p, Mark('(') + (inner + Mark(')')) + PrintRedirs(rs))
             && e == p + |Mark('(') + (inner + Mark(')')) + PrintRedirs(rs)|
    ensures At(s, p, Mark('(')) == true && At(s, p + 2, inner) == true && m == p + 2 + |inner|
            && At(s, m, Mark(')')) == true
    ensures RedirsAt(s, m + 2, rs, e) == true && LineEnds(s, m) == true
  {
    m := p + 2 + |inner|;
    AtSplit(s, p, Mark('(') + (inner + Mark(')')), PrintRedirs(rs));
    AtSplit(s, p, Mark('('), inner + Mark(')'));
    AtSplit(s, p + 2, inner, Mark(')'));
    SymbolToken(s, m, ')');
    PrintedRedirs(s, m + 2, rs);
  }

  /** Two texts with a symbol between them. */
  lemma Around(s: string, p: int, a: string, c: char, b: string, e: int) returns (m: int)
    requires At(s, p, a + (Mark(c) + b)) && e == p + |a + (Mark(c) + b)| && IsSymbol(c)
    ensures At(s, p, a) == true && m == p + |a| && At(s, m, Mark(c)) == true && At(s, m + 2, b) == true
            && e == m + 2 + |b|
    ensures 0 <= m <= |s| && Peek(s, m, c) && Same(s, Skip(s, m + 2), m + 2) == true
    ensures c == '|' ==> ExecEnds(s, m) == true
    ensures c == '&' || c == ';' ==> PipeEnds(s, m) == true
  {
    m := p + |a|;
    AtSplit(s, p, a, Mark(c) + b);
    AtSplit(s, m, Mark(c), b);
    SymbolToken(s, m, c);
    SameAfter(s, m + 2);
  }

  // One level of the grammar at a time.

  lemma PipeFromExec(s: string, i: int, t: Cmd<string>, e: int)
    requires ExecRead(s, i, t, e) == true && PipeEnds(s, e) == true
    ensures PipeRead(s, i, t, e) == true
  {
    SameToken(s, ParseExec(s, i).pos, e);
  }

  lemma PipeFromTwo(s: string, i: int, l: Cmd<string>, m: int, r: Cmd<string>, e: int)
    requires ExecRead(s, i, l, m) == true && At(s, m, Mark('|')) == true && PipeRead(s, Skip(s, m + 2), r, e) == true
    ensures PipeRead(s, i, Pipe(l, r), e) == true
  {
    SymbolToken(s, m, '|');
    SameToken(s, ParseExec(s, i).pos, m);
  }

  /** After the part of the line that stands for t, parseline's loop goes on at j with the tree c. */
  ghost predicate BackRead(s: string, i: int, t: Cmd<string>, e: int, c: Cmd<Span>, j: int) {
    && 0 <= i <= |s| && Same(s, j, e) && TreeText(s, c) == t
    && var left := ParsePipe(s, i); left.Ok? && ParseBacks(s, left.pos, left.value) == ParseBacks(s, j, c)
  }

  lemma BackFromPipe(s: string, i: int, t: Cmd<string>, e: int) returns (c: Cmd<Span>, j: int)
    requires PipeRead(s, i, t, e) == true
    ensures BackRead(s, i, t, e, c, j) == true
  {
    c, j := ParsePipe(s, i).value, ParsePipe(s, i).pos;
  }

  lemma BackFromBack(s: string, i: int, t: Cmd<string>, m: int, c: Cmd<Span>, j: int) returns (c': Cmd<Span>, j': int)
    requires BackRead(s, i, t, m, c, j) == true && At(s, m, Mark('&')) == true
    ensures BackRead(s, i, Back(t), m + 2, c', j') == true
  {
    SymbolToken(s, m, '&');
    SameToken(s, j, m);
    SameAfter(s, m + 2);
    c', j' := Back(c), GetToken(s, j).1;
  }

  lemma LineFromBack(s: string, i: int, t: Cmd<string>, e: int, c: Cmd<Span>, j: int)
    requires BackRead(s, i, t, e, c, j) == true && LineEnds(s, e) == true
    ensures LineRead(s, i, t, e) == true
  {
    SameToken(s, j, e);
    SkipTwice(s, j);
  }

  lemma LineFromTwo(s: string, i: int, l: Cmd<string>, m: int, c: Cmd<Span>, j: int, r: Cmd<string>, e: int)
    requires BackRead(s, i, l, m, c, j) == true && At(s, m, Mark(';')) == true
             && LineRead(s, Skip(s, m + 2), r, e) == true
    ensures LineRead(s, i, List(l, r), e) == true
  {
    SymbolToken(s, m, ';');
    SameToken(s, j, m);
    SkipTwice(s, j);
    SameToken(s, Skip(s, j), m);
  }

  // The induction.

  lemma {:induction false} PipeNode(s: string, i: int, p: int, t: Cmd<string>, e: int)
    requires Same(s, i, p) == true && t.Pipe? && At(s, p, Inner(t)) && e == p + |Inner(t)| && TreeOk(t) == true
             && PipeEnds(s, e) == true
    ensures PipeRead(s, i, t, e) == true
    decreases Size(t), 0
  {
    var m := Around(s, p, PrintExec(t.left), '|', PrintPipe(t.right), e);
    ExecBack(s, i, p, t.left, m);
    PipesBack(s, Skip(s, m + 2), m + 2, t.right, e);
    PipeFromTwo(s, i, t.left, m, t.right, e);
  }

  lemma {:induction false} BackNode(s: string, i: int, p: int, t: Cmd<string>, e: int) returns (c: Cmd<Span>, j: int)
    requires Same(s, i, p) == true && t.Back? && At(s, p, Inner(t)) && e == p + |Inner(t)| && TreeOk(t) == true
             && PipeEnds(s, e) == true
    ensures BackRead(s, i, t, e, c, j) == true
    decreases Size(t), 0
  {
    assert Mark('&') == Mark('&') + "";
    var m := Around(s, p, PrintBack(t.cmd), '&', "", e);
    c, j := BacksBack(s, i, p, t.cmd, m);
    c, j := BackFromBack(s, i, t.cmd, m, c, j);
  }

  lemma {:induction false} ListNode(s: string, i: int, p: int, t: Cmd<string>, e: int)
    requires Same(s, i, p) == true && t.List? && At(s, p, Inner(t)) && e == p + |Inner(t)| && TreeOk(t) == true
             && LineEnds(s, e) == true
    ensures LineRead(s, i, t, e) == true
    decreases Size(t), 0
  {
    var m := Around(s, p, PrintBack(t.left), ';', PrintLine(t.right), e);
    var c, j := BacksBack(s, i, p, t.left, m);
    LinesBack(s, Skip(s, m + 2), m + 2, t.right, e);
    LineFromTwo(s, i, t.left, m, c, j, t.right, e);
  }

  /** Inside parentheses. */
  lemma {:induction false} InnerBack(s: string, i: int, p: int, t: Cmd<string>, e: int)
    requires Same(s, i, p) == true && Compound(t) && At(s, p, Inner(t)) && e == p + |Inner(t)| && TreeOk(t) == true
             && LineEnds(s, e) == true
    ensures LineRead(s, i, t, e) == true
    decreases Size(t), 1
  {
    if t.List? {
      ListNode(s, i, p, t, e);
    } else {
      var c, j;
      if t.Pipe? {
        PipeNode(s, i, p, t, e);
        c, j := BackFromPipe(s, i, t, e);
      } else {
        c, j := BackNode(s, i, p, t, e);
      }
      LineFromBack(s, i, t, e, c, j);
    }
  }

  lemma {:induction false} ExecBack(s: string, i: int, p: int, t: Cmd<string>, e: int)
    requires Same(s, i, p) == true && At(s, p, PrintExec(t)) && e == p + |PrintExec(t)| && TreeOk(t) == true
             && ExecEnds(s, e) == true
    ensures ExecRead(s, i, t, e) == true
    decreases Size(t), 3
  {
    WrapBase(t);
    OkParts(t);
    if Base(t).Exec? {
      SimpleBack(s, i, p, Base(t).argv, Redirs(t), e);
    } else {
      var m := ParenParts(s, p, Inner(Base(t)), Redirs(t), e);
      ParenBack(s, i, p, Base(t), m, Redirs(t), e);
    }
  }

  lemma {:induction false} ParenBack(s: string, i: int, p: int, b: Cmd<string>, m: int, rs: seq<Redirect<string>>,
                                     e: int)
    requires Same(s, i, p) == true && Compound(b) && TreeOk(b) == true && RedirsOk(rs) == true && ExecEnds(s, e) == true
    requires At(s, p, Mark('(')) == true && At(s, p + 2, Inner(b)) == true && m == p + 2 + |Inner(b)|
             && At(s, m, Mark(')')) == true
    requires RedirsAt(s, m + 2, rs, e) == true && LineEnds(s, m) == true
    ensures ExecRead(s, i, Wrap(b, rs), e) == true
    decreases Size(b), 2
  {
    SameAfter(s, p + 2);
    InnerBack(s, Skip(s, p + 2), p + 2, b, m);
    BlockBack(s, i, p, b, m, rs, e);
  }

  lemma {:induction false} PipesBack(s: string, i: int, p: int, t: Cmd<string>, e: int)
    requires Same(s, i, p) == true && At(s, p, PrintPipe(t)) && e == p + |PrintPipe(t)| && TreeOk(t) == true
             && PipeEnds(s, e) == true
    ensures PipeRead(s, i, t, e) == true
    decreases Size(t), 4
  {
    if t.Pipe? {
      PipeNode(s, i, p, t, e);
    } else {
      ExecBack(s, i, p, t, e);
      PipeFromExec(s, i, t, e);
    }
  }

  lemma {:induction false} BacksBack(s: string, i: int, p: int, t: Cmd<string>, e: int) returns (c: Cmd<Span>, j: int)
    requires Same(s, i, p) == true && At(s, p, PrintBack(t)) && e == p + |PrintBack(t)| && TreeOk(t) == true
             && PipeEnds(s, e) == true
    ensures BackRead(s, i, t, e, c, j) == true
    decreases Size(t), 5
  {
    if t.Back? {
      c, j := BackNode(s, i, p, t, e);
    } else {
      PipesBack(s, i, p, t, e);
      c, j := BackFromPipe(s, i, t, e);
    }
  }

  lemma {:induction false} LinesBack(s: string, i: int, p: int, t: Cmd<string>, e: int)
    requires Same(s, i, p) == true && At(s, p, PrintLine(t)) && e == p + |PrintLine(t)| && TreeOk(t) == true
             && LineEnds(s, e) == true
    ensures LineRead(s, i, t, e) == true
    decreases Size(t), 6
  {
    if t.List? {
      ListNode(s, i, p, t, e);
    } else {
      var c, j := BacksBack(s, i, p, t, e);
      LineFromBack(s, i, t, e, c, j);
    }
  }

  /** Printing and parsing gives the tree back. */
  lemma RoundTrip(t: Cmd<string>)
    requires TreeOk(t)
    ensures var s := PrintLine(t); var r := ParseCmd(s); r.Ok? && TreeText(s, r.value) == t
  {
    var s := PrintLine(t);
    WholeAt(s);
    LinesBack(s, 0, 0, t, |s|);
  }
}
