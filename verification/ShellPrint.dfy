/** Command trees written back in the shell's grammar, and the proof that parsing gives them back. */
module ShellPrint {
  import opened ShellSpec

  /** A word that the lexer reads as one token. */
  predicate WordOk(w: string) {
    w != "" && forall k | 0 <= k < |w| :: IsWord(w[k])
  }

  predicate ArgsOk(argv: seq<string>) {
    argv == [] || (WordOk(argv[0]) && ArgsOk(argv[1..]))
  }

  /** Every word of the tree is one, and no command has too many arguments. */
  predicate TreeOk(t: Cmd<string>) {
    match t
    case Exec(argv) => |argv| < MAXARGS && ArgsOk(argv)
    case Redir(c, file, mode) => TreeOk(c) && WordOk(file)
    case Pipe(l, r) => TreeOk(l) && TreeOk(r)
    case List(l, r) => TreeOk(l) && TreeOk(r)
    case Back(c) => TreeOk(c)
  }

  function Size<T>(t: Cmd<T>): nat {
    match t
    case Exec(argv) => 1
    case Redir(c, file, mode) => 1 + Size(c)
    case Pipe(l, r) => 1 + Size(l) + Size(r)
    case List(l, r) => 1 + Size(l) + Size(r)
    case Back(c) => 1 + Size(c)
  }

  /** A tree as a command with redirections around it. */
  function Base<T>(t: Cmd<T>): (b: Cmd<T>)
    ensures !b.Redir? && Size(b) <= Size(t)
  {
    if t.Redir? then Base(t.cmd) else t
  }

  function Redirs<T>(t: Cmd<T>): seq<Redirect<T>> {
    if t.Redir? then Redirs(t.cmd) + [Redirect(t.file, t.mode)] else []
  }

  lemma WrapSnoc<T>(c: Cmd<T>, rs: seq<Redirect<T>>, r: Redirect<T>)
    ensures Wrap(c, rs + [r]) == Redir(Wrap(c, rs), r.file, r.mode)
    decreases |rs|
  {
    if rs != [] {
      assert (rs + [r])[1..] == rs[1..] + [r];
      WrapSnoc(Redir(c, rs[0].file, rs[0].mode), rs[1..], r);
    }
  }

  lemma WrapBase<T>(t: Cmd<T>)
    ensures Wrap(Base(t), Redirs(t)) == t
  {
    if t.Redir? {
      WrapBase(t.cmd);
      WrapSnoc(Base(t), Redirs(t.cmd), Redirect(t.file, t.mode));
    }
  }

  // The printer.

  function PrintArgs(argv: seq<string>): string {
    if argv == [] then "" else argv[0] + " " + PrintArgs(argv[1..])
  }

  function Arrow(m: Mode): string {
    match m case Read => Mark('<') case Write => Mark('>') case Append => ">> "
  }

  function PrintRedirs(rs: seq<Redirect<string>>): string {
    if rs == [] then "" else Arrow(rs[0].mode) + (rs[0].file + " ") + PrintRedirs(rs[1..])
  }

  /** A symbol with the space that keeps it apart. */
  function Mark(c: char): (m: string)
    ensures |m| == 2
  {
    [c, ' ']
  }

  /** A command for parseexec; anything but a simple command goes in parentheses. */
  function PrintExec(t: Cmd<string>): string
    decreases Size(t), 1
  {
    (if Base(t).Exec? then PrintArgs(Base(t).argv)
     else Mark('(') + (Inner(Base(t)) + Mark(')'))) + PrintRedirs(Redirs(t))
  }

  /** A pipeline, a background command or a list, as it stands inside parentheses. */
  function Inner(t: Cmd<string>): string
    requires t.Pipe? || t.Back? || t.List?
    decreases Size(t), 0
  {
    match t
    case Pipe(l, r) => PrintExec(l) + (Mark('|') + PrintPipe(r))
    case Back(c) => PrintBack(c) + Mark('&')
    case List(l, r) => PrintBack(l) + (Mark(';') + PrintLine(r))
  }

  function PrintPipe(t: Cmd<string>): string
    decreases Size(t), 2
  {
    if t.Pipe? then Inner(t) else PrintExec(t)
  }

  function PrintBack(t: Cmd<string>): string
    decreases Size(t), 3
  {
    if t.Back? then Inner(t) else PrintPipe(t)
  }

  function PrintLine(t: Cmd<string>): string
    decreases Size(t), 4
  {
    if t.List? then Inner(t) else PrintBack(t)
  }

  // Texts of parsed trees.

  function Text(s: string, p: Span): string {
    if 0 <= p.q <= p.eq <= |s| then s[p.q..p.eq] else ""
  }

  function Texts(s: string, ps: seq<Span>): seq<string> {
    if ps == [] then [] else [Text(s, ps[0])] + Texts(s, ps[1..])
  }

  function RedirTexts(s: string, rs: seq<Redirect<Span>>): seq<Redirect<string>> {
    if rs == [] then [] else [Redirect(Text(s, rs[0].file), rs[0].mode)] + RedirTexts(s, rs[1..])
  }

  function TreeText(s: string, t: Cmd<Span>): Cmd<string> {
    match t
    case Exec(argv) => Exec(Texts(s, argv))
    case Redir(c, file, mode) => Redir(TreeText(s, c), Text(s, file), mode)
    case Pipe(l, r) => Pipe(TreeText(s, l), TreeText(s, r))
    case List(l, r) => List(TreeText(s, l), TreeText(s, r))
    case Back(c) => Back(TreeText(s, c))
  }

  lemma WrapText(s: string, c: Cmd<Span>, rs: seq<Redirect<Span>>)
    ensures TreeText(s, Wrap(c, rs)) == Wrap(TreeText(s, c), RedirTexts(s, rs))
    decreases |rs|
  {
    if rs != [] {
      WrapText(s, Redir(c, rs[0].file, rs[0].mode), rs[1..]);
      assert RedirTexts(s, rs)[1..] == RedirTexts(s, rs[1..]);
    }
  }

  // Strings at positions.

  /** The text w stands in s at i. Its characters are looked at one by one, where Place marks them. */
  predicate At(s: string, i: int, w: string) {
    0 <= i && i + |w| <= |s| && forall k {:trigger Place(k)} | 0 <= k < |w| :: s[i + k] == w[k]
  }

  predicate Place(k: int) { true }

  lemma AtIndex(s: string, i: int, w: string, k: int)
    requires At(s, i, w) && 0 <= k < |w|
    ensures s[i + k] == w[k]
  {
    assert Place(k);
  }

  lemma AtSplit(s: string, i: int, a: string, b: string)
    requires At(s, i, a + b)
    ensures At(s, i, a) == true && At(s, i + |a|, b) == true
  {
    var w := a + b;
    forall k | 0 <= k < |a| ensures s[i + k] == a[k] {
      AtIndex(s, i, w, k);
    }
    forall k | 0 <= k < |b| ensures s[i + |a| + k] == b[k] {
      AtIndex(s, i, w, |a| + k);
    }
  }

  lemma WholeAt(s: string)
    ensures At(s, 0, s) == true
  {
  }

  /** White space does not matter to what comes next. */
  lemma SkipTwice(s: string, i: int)
    requires 0 <= i <= |s|
    ensures Skip(s, Skip(s, i)) == Skip(s, i)
  {
  }

  lemma {:induction false} SkipFrom(s: string, i: int, j: int)
    requires 0 <= i <= |s| && i <= j <= Skip(s, i)
    ensures Skip(s, j) == Skip(s, i)
    decreases j - i
  {
    if i < j { SkipFrom(s, i + 1, j); }
  }

  lemma {:induction false} WordEndIs(s: string, i: int, j: int)
    requires 0 <= i <= j < |s| && (forall k | i <= k < j :: IsWord(s[k])) && !IsWord(s[j])
    ensures WordEnd(s, i) == j
    decreases j - i
  {
    if i < j { WordEndIs(s, i + 1, j); }
  }

  /** A word followed by a space is one token. */
  lemma WordToken(s: string, i: int, w: string)
    requires At(s, i, w + " ") == true && WordOk(w) == true
    ensures GetToken(s, i) == (Word(Span(i, i + |w|)), Skip(s, i + |w| + 1)) && Text(s, Span(i, i + |w|)) == w
    ensures Skip(s, i) == i < |s| && s[i] == w[0] && IsWord(s[i])
  {
    AtSplit(s, i, w, " ");
    AtIndex(s, i + |w|, " ", 0);
    forall k | 0 <= k < |w| ensures s[i + k] == w[k] && IsWord(w[k]) {
      AtIndex(s, i, w, k);
    }
    assert forall k | i <= k < i + |w| :: s[k] == w[k - i];
    WordEndIs(s, i, i + |w|);
    assert s[i + 0] == w[0];
    assert s[i..i + |w|] == w;
  }

  /** A symbol followed by a space is one token. */
  lemma SymbolToken(s: string, i: int, c: char)
    requires At(s, i, [c, ' ']) == true && IsSymbol(c)
    ensures GetToken(s, i) == (Sym(c), Skip(s, i + 2)) && Skip(s, i) == i < |s| && s[i] == c
  {
    AtIndex(s, i, Mark(c), 0);
    AtIndex(s, i, Mark(c), 1);
  }

  /** Positions i and p differ by white space only. */
  predicate Same(s: string, i: int, p: int) {
    0 <= i <= |s| && 0 <= p <= |s| && Skip(s, i) == Skip(s, p)
  }

  lemma SameAfter(s: string, i: int)
    requires 0 <= i <= |s|
    ensures Same(s, Skip(s, i), i) == true
  {
    SkipTwice(s, i);
  }

  lemma SameToken(s: string, i: int, p: int)
    requires Same(s, i, p) == true
    ensures GetToken(s, i) == GetToken(s, p) && PeekArrow(s, i) == PeekArrow(s, p) && PeekStop(s, i) == PeekStop(s, p)
    ensures Peek(s, i, '(') == Peek(s, p, '(') && Peek(s, i, ')') == Peek(s, p, ')')
            && Peek(s, i, '|') == Peek(s, p, '|')
    ensures Peek(s, i, '&') == Peek(s, p, '&') && Peek(s, i, ';') == Peek(s, p, ';')
  {
  }

  /** Nothing follows p but white space. */
  predicate AtEnd(s: string, p: int) {
    0 <= p <= |s| && Skip(s, p) == |s|
  }

  /** What may follow a command, a pipeline and a line. */
  predicate ExecEnds(s: string, p: int) { 0 <= p <= |s| && (AtEnd(s, p) || PeekStop(s, p)) }
  predicate PipeEnds(s: string, p: int) { 0 <= p <= |s|
                                         && (AtEnd(s, p) || Peek(s, p, ')') || Peek(s, p, '&') || Peek(s, p, ';')) }
  predicate LineEnds(s: string, p: int) { 0 <= p <= |s| && (AtEnd(s, p) || Peek(s, p, ')')) }

  predicate RedirsOk(rs: seq<Redirect<string>>) {
    rs == [] || (WordOk(rs[0].file) && RedirsOk(rs[1..]))
  }

  /** An arrow is one token, of its own mode. */
  lemma ArrowToken(s: string, p: int, m: Mode)
    requires At(s, p, Arrow(m)) == true
    ensures Skip(s, p) == p < |s| && (s[p] == '<' || s[p] == '>')
    ensures ModeOf(GetToken(s, p).0) == m && GetToken(s, p).1 == Skip(s, p + |Arrow(m)|) && p + |Arrow(m)| <= |s|
  {
    match m {
      case Read => SymbolToken(s, p, '<');
      case Write => SymbolToken(s, p, '>');
      case Append =>
        AtIndex(s, p, ">> ", 0);
        AtIndex(s, p, ">> ", 1);
        AtIndex(s, p, ">> ", 2);
        assert Skip(s, p + 2) == Skip(s, p + 3);
    }
  }

  /** Redirections rs are spelled out from p to e. */
  predicate RedirsAt(s: string, p: int, rs: seq<Redirect<string>>, e: int)
    decreases |rs|
  {
    if rs == [] then p == e
    else
      var q := p + |Arrow(rs[0].mode)|;
      At(s, p, Arrow(rs[0].mode)) && At(s, q, rs[0].file + " ") && RedirsAt(s, q + |rs[0].file| + 1, rs[1..], e)
  }

  /** And arguments. */
  predicate ArgsAt(s: string, p: int, argv: seq<string>, e: int)
    decreases |argv|
  {
    if argv == [] then p == e
    else At(s, p, argv[0] + " ") && ArgsAt(s, p + |argv[0]| + 1, argv[1..], e)
  }

  lemma {:induction false} PrintedRedirs(s: string, p: int, rs: seq<Redirect<string>>)
    requires At(s, p, PrintRedirs(rs)) == true
    ensures RedirsAt(s, p, rs, p + |PrintRedirs(rs)|) == true
    decreases |rs|
  {
    if rs != [] {
      var a, f, rest := Arrow(rs[0].mode), rs[0].file + " ", PrintRedirs(rs[1..]);
      AtSplit(s, p, a + f, rest);
      AtSplit(s, p, a, f);
      PrintedRedirs(s, p + |a + f|, rs[1..]);
    }
  }

  lemma {:induction false} PrintedArgs(s: string, p: int, argv: seq<string>)
    requires At(s, p, PrintArgs(argv)) == true
    ensures ArgsAt(s, p, argv, p + |PrintArgs(argv)|) == true
    decreases |argv|
  {
    if argv != [] {
      AtSplit(s, p, argv[0] + " ", PrintArgs(argv[1..]));
      PrintedArgs(s, p + |argv[0] + " "|, argv[1..]);
    }
  }

  /** The two tokens of a redirection. */
  lemma RedirTokens(s: string, i: int, p: int, p': int, m: Mode, file: string) returns (k: int)
    requires Same(s, i, p) == true && At(s, p, Arrow(m)) == true && At(s, p + |Arrow(m)|, file + " ") == true
             && WordOk(file) == true
    requires p' == p + |Arrow(m)| + |file| + 1
    ensures PeekArrow(s, i) && !PeekStop(s, i) && !Peek(s, i, '(')
    ensures var (tok, j) := GetToken(s, i);
            ModeOf(tok) == m && GetToken(s, j).0.Word? && Text(s, GetToken(s, j).0.span) == file
            && k == GetToken(s, j).1
    ensures Same(s, k, p') == true
  {
    var q := p + |Arrow(m)|;
    ArrowToken(s, p, m);
    SameToken(s, i, p);
    SameAfter(s, q);
    SameToken(s, GetToken(s, p).1, q);
    WordToken(s, q, file);
    SameAfter(s, q + |file| + 1);
    k := GetToken(s, GetToken(s, i).1).1;
  }

  /** The token of an argument. */
  lemma ArgToken(s: string, i: int, p: int, w: string)
    requires Same(s, i, p) == true && At(s, p, w + " ") == true && WordOk(w) == true
    ensures !PeekArrow(s, i) && !PeekStop(s, i) && !Peek(s, i, '(')
    ensures var (t, k) := GetToken(s, i); t.Word? && Text(s, t.span) == w && Same(s, k, p + |w| + 1)
  {
    WordToken(s, p, w);
    SameToken(s, i, p);
    SameAfter(s, p + |w| + 1);
  }

  /** Redirections rs, as parseredirs should return them. */
  ghost predicate RedirsRead(s: string, i: int, rs: seq<Redirect<string>>, e: int) {
    0 <= i <= |s| && var r := ParseRedirs(s, i); r.Ok? && RedirTexts(s, r.value) == rs && Same(s, r.pos, e)
  }

  lemma RedirsReadMore(s: string, i: int, k: int, x: Redirect<string>, rs: seq<Redirect<string>>, e: int)
    requires 0 <= i <= |s| && PeekArrow(s, i)
    requires var (tok, j) := GetToken(s, i);
             ModeOf(tok) == x.mode && GetToken(s, j).0.Word? && Text(s, GetToken(s, j).0.span) == x.file
             && k == GetToken(s, j).1
    requires RedirsRead(s, k, rs, e) == true
    ensures RedirsRead(s, i, [x] + rs, e) == true
  {
    RedirTextsCons(s, ParseRedirs(s, i).value, [x] + rs);
  }

  lemma NoRedirsBack(s: string, i: int, p: int)
    requires Same(s, i, p) == true && !PeekArrow(s, p)
    ensures RedirsRead(s, i, [], p) == true
  {
    SameToken(s, i, p);
    SameAfter(s, i);
  }

  /** The redirection x at p, with more of them, rs, from p' to e. */
  lemma {:induction false} SomeRedirsBack(s: string, i: int, p: int, x: Redirect<string>, p': int,
                                          rs: seq<Redirect<string>>, e: int)
    requires Same(s, i, p) == true && At(s, p, Arrow(x.mode)) == true
             && At(s, p + |Arrow(x.mode)|, x.file + " ") == true && WordOk(x.file) == true
    requires p' == p + |Arrow(x.mode)| + |x.file| + 1 && RedirsAt(s, p', rs, e) == true && RedirsOk(rs) == true
             && 0 <= e <= |s| && !PeekArrow(s, e)
    ensures RedirsRead(s, i, [x] + rs, e) == true
    decreases |rs|
  {
    var k := RedirTokens(s, i, p, p', x.mode, x.file);
    if rs == [] {
      NoRedirsBack(s, k, p');
    } else {
      RedirsOkTail(rs);
      var p'' := RedirsAtTail(s, p', rs, e);
      SomeRedirsBack(s, k, p', rs[0], p'', rs[1..], e);
    }
    RedirsReadMore(s, i, k, x, rs, e);
  }

  lemma RedirsBack(s: string, i: int, p: int, rs: seq<Redirect<string>>, e: int)
    requires Same(s, i, p) == true && RedirsAt(s, p, rs, e) == true && RedirsOk(rs) == true && 0 <= e <= |s|
             && !PeekArrow(s, e)
    ensures RedirsRead(s, i, rs, e) == true
  {
    if rs == [] {
      NoRedirsBack(s, i, p);
    } else {
      RedirsOkTail(rs);
      var p' := RedirsAtTail(s, p, rs, e);
      SomeRedirsBack(s, i, p, rs[0], p', rs[1..], e);
    }
  }

  lemma RedirsAtTail(s: string, p: int, rs: seq<Redirect<string>>, e: int) returns (p': int)
    requires RedirsAt(s, p, rs, e) && rs != []
    ensures p' == p + |Arrow(rs[0].mode)| + |rs[0].file| + 1 && RedirsAt(s, p', rs[1..], e) == true
    ensures At(s, p, Arrow(rs[0].mode)) == true && At(s, p + |Arrow(rs[0].mode)|, rs[0].file + " ") == true
  {
    p' := p + |Arrow(rs[0].mode)| + |rs[0].file| + 1;
  }

  lemma RedirsOkTail(rs: seq<Redirect<string>>)
    requires RedirsOk(rs) && rs != []
    ensures WordOk(rs[0].file) == true && RedirsOk(rs[1..]) == true && rs == [rs[0]] + rs[1..]
  {
  }

  lemma ArgsOkTail(argv: seq<string>)
    requires ArgsOk(argv) && argv != []
    ensures WordOk(argv[0]) == true && ArgsOk(argv[1..]) == true && argv == [argv[0]] + argv[1..]
  {
  }

  lemma RedirTextsCons(s: string, a: seq<Redirect<Span>>, rs: seq<Redirect<string>>)
    requires a != [] && rs != [] && Redirect(Text(s, a[0].file), a[0].mode) == rs[0] && RedirTexts(s, a[1..]) == rs[1..]
    ensures RedirTexts(s, a) == rs
  {
    assert rs == [rs[0]] + rs[1..];
    assert RedirTexts(s, a) == [Redirect(Text(s, a[0].file), a[0].mode)] + RedirTexts(s, a[1..]);
  }

  lemma TextsCons(s: string, a: seq<Span>, ws: seq<string>)
    requires a != [] && ws != [] && Text(s, a[0]) == ws[0] && Texts(s, a[1..]) == ws[1..]
    ensures Texts(s, a) == ws
  {
    assert ws == [ws[0]] + ws[1..];
    assert Texts(s, a) == [Text(s, a[0])] + Texts(s, a[1..]);
  }

  /** Where a word comes next there are no redirections. */
  lemma NoRedirs(s: string, i: int)
    requires 0 <= i <= |s| && !PeekArrow(s, i)
    ensures ParseRedirs(s, i) == Ok([], Skip(s, i))
  {
  }

  lemma ArgsEnd(s: string, i: int, argc: int)
    requires 0 <= i <= |s| && ExecEnds(s, i) == true
    ensures ParseArgs(s, i, argc) == Ok(([], []), Skip(s, i))
  {
  }

  /** Arguments argv and then redirections rs, as parseexec's loop should return them. */
  ghost predicate ArgsRead(s: string, i: int, argc: int, argv: seq<string>, rs: seq<Redirect<string>>, e: int) {
    0 <= i <= |s| && var r := ParseArgs(s, i, argc);
    r.Ok? && Texts(s, r.value.0) == argv && RedirTexts(s, r.value.1) == rs && Same(s, r.pos, e)
  }

  lemma ArgsReadLast(s: string, i: int, argc: int, w: string, rs: seq<Redirect<string>>, e: int)
    requires 0 <= i <= |s| && !PeekStop(s, i) && GetToken(s, i).0.Word? && argc + 1 < MAXARGS
             && Text(s, GetToken(s, i).0.span) == w
    requires var r := ParseRedirs(s, GetToken(s, i).1);
      && r.Ok? && RedirTexts(s, r.value) == rs && ParseArgs(s, r.pos, argc + 1) == Ok(([], []), Skip(s, r.pos))
      && Same(s, Skip(s, r.pos), e)
    ensures ArgsRead(s, i, argc, [w], rs, e) == true
  {
    NoMore(s, i, argc);
    assert Texts(s, [GetToken(s, i).0.span]) == [w];
  }

  lemma ArgsReadMore(s: string, i: int, argc: int, w: string, ws: seq<string>, rs: seq<Redirect<string>>, e: int)
    requires 0 <= i <= |s| && !PeekStop(s, i) && GetToken(s, i).0.Word? && argc + 1 < MAXARGS
             && Text(s, GetToken(s, i).0.span) == w
    requires !PeekArrow(s, GetToken(s, i).1) && ArgsRead(s, Skip(s, GetToken(s, i).1), argc + 1, ws, rs, e) == true
    ensures ArgsRead(s, i, argc, [w] + ws, rs, e) == true
  {
    var j := GetToken(s, i).1;
    NoRedirs(s, j);
    OneMore(s, i, argc);
    TextsCons(s, [GetToken(s, i).0.span] + ParseArgs(s, Skip(s, j), argc + 1).value.0, [w] + ws);
  }

  /** The argument w at p, more arguments ws up to m, and then redirections to e. */
  lemma {:induction false} ArgsBack(s: string, i: int, p: int, w: string, ws: seq<string>, m: int,
                                    rs: seq<Redirect<string>>, e: int, argc: int)
    requires Same(s, i, p) == true && At(s, p, w + " ") == true && WordOk(w) == true
             && ArgsAt(s, p + |w| + 1, ws, m) == true
    requires ArgsOk(ws) == true && RedirsAt(s, m, rs, e) == true && RedirsOk(rs) == true
    requires 0 <= argc && argc + 1 + |ws| < MAXARGS && ExecEnds(s, e) == true
    ensures ArgsRead(s, i, argc, [w] + ws, rs, e) == true
    decreases |ws|
  {
    if ws == [] {
      assert [w] + ws == [w];
      OneArg(s, i, p, w, rs, e, argc);
    } else {
      var p' := p + |w| + 1;
      ArgsOkTail(ws);
      ArgsAtTail(s, p', ws, m);
      var j := TwoArgs(s, i, p, w, ws[0]);
      ArgsBack(s, j, p', ws[0], ws[1..], m, rs, e, argc + 1);
      ArgsReadMore(s, i, argc, w, ws, rs, e);
    }
  }

  lemma ArgsAtTail(s: string, p: int, argv: seq<string>, m: int)
    requires ArgsAt(s, p, argv, m) && argv != []
    ensures At(s, p, argv[0] + " ") == true && ArgsAt(s, p + |argv[0]| + 1, argv[1..], m) == true
  {
  }

  lemma OneArg(s: string, i: int, p: int, w: string, rs: seq<Redirect<string>>, e: int, argc: int)
    requires Same(s, i, p) == true && At(s, p, w + " ") && WordOk(w) == true && RedirsAt(s, p + |w| + 1, rs, e) == true
    requires RedirsOk(rs) == true && ExecEnds(s, e) == true && argc + 1 < MAXARGS
    ensures ArgsRead(s, i, argc, [w], rs, e) == true
  {
    ArgToken(s, i, p, w);
    LastArg(s, GetToken(s, i).1, p + |w| + 1, rs, e, argc + 1);
    ArgsReadLast(s, i, argc, w, rs, e);
  }

  /** An argument with another one after it; j is where that one starts. */
  lemma TwoArgs(s: string, i: int, p: int, w: string, x: string) returns (j: int)
    requires Same(s, i, p) == true && At(s, p, w + " ") && WordOk(w) == true && At(s, p + |w| + 1, x + " ")
             && WordOk(x) == true
    ensures !PeekStop(s, i) && GetToken(s, i).0.Word? && Text(s, GetToken(s, i).0.span) == w
            && !PeekArrow(s, GetToken(s, i).1)
    ensures j == Skip(s, GetToken(s, i).1) && Same(s, j, p + |w| + 1) == true
  {
    ArgToken(s, i, p, w);
    ArgToken(s, GetToken(s, i).1, p + |w| + 1, x);
    j := Skip(s, GetToken(s, i).1);
    SkipTwice(s, GetToken(s, i).1);
  }

  /** parseexec's loop, one turn unrolled. */
  lemma OneMore(s: string, i: int, argc: int)
    requires 0 <= i <= |s| && !PeekStop(s, i) && GetToken(s, i).0.Word? && argc + 1 < MAXARGS
    requires ParseRedirs(s, GetToken(s, i).1).Ok? && ParseRedirs(s, GetToken(s, i).1).value == []
    requires ParseArgs(s, ParseRedirs(s, GetToken(s, i).1).pos, argc + 1).Ok?
    ensures var r, q := ParseArgs(s, i, argc), ParseArgs(s, ParseRedirs(s, GetToken(s, i).1).pos, argc + 1);
      r.Ok? && r.value.0 == [GetToken(s, i).0.span] + q.value.0 && r.value.1 == q.value.1 && r.pos == q.pos
          && r.value.0[1..] == q.value.0
  {
  }

  lemma NoMore(s: string, i: int, argc: int)
    requires 0 <= i <= |s| && !PeekStop(s, i) && GetToken(s, i).0.Word? && argc + 1 < MAXARGS
    requires ParseRedirs(s, GetToken(s, i).1).Ok?
    requires ParseArgs(s, ParseRedirs(s, GetToken(s, i).1).pos, argc + 1).Ok?
    requires ParseArgs(s, ParseRedirs(s, GetToken(s, i).1).pos, argc + 1).value == ([], [])
    ensures var r, q := ParseArgs(s, i, argc), ParseRedirs(s, GetToken(s, i).1);
      r.Ok? && r.value.0 == [GetToken(s, i).0.span] && r.value.1 == q.value
          && r.pos == ParseArgs(s, q.pos, argc + 1).pos
  {
  }

  /** After the last argument: its redirections, and nothing more. */
  lemma LastArg(s: string, i: int, p: int, rs: seq<Redirect<string>>, e: int, argc: int)
    requires Same(s, i, p) == true && RedirsAt(s, p, rs, e) == true && RedirsOk(rs) == true && ExecEnds(s, e) == true
    ensures var r := ParseRedirs(s, i);
      && r.Ok? && RedirTexts(s, r.value) == rs && ParseArgs(s, r.pos, argc) == Ok(([], []), Skip(s, r.pos))
      && Same(s, Skip(s, r.pos), e)
  {
    RedirsBack(s, i, p, rs, e);
    var q := ParseRedirs(s, i).pos;
    ArgsEnd(s, q, argc);
    SameAfter(s, q);
  }
}
