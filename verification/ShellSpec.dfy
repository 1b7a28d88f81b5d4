/** The command language of user/sh.c: its tokens, the parser as functions on positions in a line,
    and the command trees. A line is a string without NUL; position |s| is its end. */
module ShellSpec {

  const MAXARGS := 10

  predicate IsSpace(c: char) { c == ' ' || c == '\t' || c == '\r' || c == '\n' || c == '\U{000B}' }
  predicate IsSymbol(c: char) { c == '<' || c == '|' || c == '>' || c == '&' || c == ';' || c == '(' || c == ')' }
  predicate IsWord(c: char) { !IsSpace(c) && !IsSymbol(c) }

  /** The characters from q up to eq. */
  datatype Span = Span(q: int, eq: int)

  datatype Mode = Read | Write | Append

  datatype Redirect<T> = Redirect(file: T, mode: Mode)

  datatype Cmd<T> =
    | Exec(argv: seq<T>)
    | Redir(cmd: Cmd<T>, file: T, mode: Mode)
    | Pipe(left: Cmd<T>, right: Cmd<T>)
    | List(left: Cmd<T>, right: Cmd<T>)
    | Back(cmd: Cmd<T>)

  datatype Error = MissingFile | MissingParen | Syntax | TooManyArgs | Leftovers

  datatype Result<T> = Ok(value: T, pos: int) | Err(error: Error)

  // Tokens.

  /** The first position from i on that is not white space. */
  function Skip(s: string, i: int): (j: int)
    requires 0 <= i <= |s|
    ensures i <= j <= |s| && (j < |s| ==> !IsSpace(s[j]))
    decreases |s| - i
  {
    if i < |s| && IsSpace(s[i]) then Skip(s, i + 1) else i
  }

  /** The end of the word that starts at i. */
  function WordEnd(s: string, i: int): (j: int)
    requires 0 <= i <= |s|
    ensures i <= j <= |s| && (j < |s| ==> !IsWord(s[j])) && (i < |s| && IsWord(s[i]) ==> i < j)
    decreases |s| - i
  {
    if i < |s| && IsWord(s[i]) then WordEnd(s, i + 1) else i
  }

  datatype Token = End | Sym(c: char) | AppendTo | Word(span: Span)

  /** gettoken: the next token, and where the one after it starts. */
  function GetToken(s: string, i: int): (r: (Token, int))
    requires 0 <= i <= |s|
    ensures i <= r.1 <= |s| && (r.0 != End ==> i < r.1)
    ensures r.0.Word? ==> i <= r.0.span.q < r.0.span.eq <= r.1
  {
    var q := Skip(s, i);
    if q == |s| then (End, q)
    else if s[q] == '>' && q + 1 < |s| && s[q + 1] == '>' then (AppendTo, Skip(s, q + 2))
    else if IsSymbol(s[q]) then (Sym(s[q]), Skip(s, q + 1))
    else var eq := WordEnd(s, q); (Word(Span(q, eq)), Skip(s, eq))
  }

  /** The next character, white space aside, is c. */
  predicate Peek(s: string, i: int, c: char)
    requires 0 <= i <= |s|
  {
    Skip(s, i) < |s| && s[Skip(s, i)] == c
  }

  predicate PeekArrow(s: string, i: int)
    requires 0 <= i <= |s|
  {
    Peek(s, i, '<') || Peek(s, i, '>')
  }

  /** What ends the arguments of a command. */
  predicate PeekStop(s: string, i: int)
    requires 0 <= i <= |s|
  {
    Peek(s, i, '|') || Peek(s, i, ')') || Peek(s, i, '&') || Peek(s, i, ';')
  }

  // The parser.

  /** How the arrow t opens its file. */
  function ModeOf(t: Token): Mode {
    if t == AppendTo then Append else if t == Sym('<') then Read else Write
  }

  /** parseredirs: the redirections from i on. */
  function ParseRedirs(s: string, i: int): (r: Result<seq<Redirect<Span>>>)
    requires 0 <= i <= |s|
    ensures r.Ok? ==> i <= r.pos <= |s|
    decreases |s| - i
  {
    if !PeekArrow(s, i) then Ok([], Skip(s, i))
    else
      var (tok, j) := GetToken(s, i);
      var (file, k) := GetToken(s, j);
      if !file.Word? then Err(MissingFile)
      else
        var rest := ParseRedirs(s, k);
        if rest.Err? then Err(rest.error)
        else Ok([Redirect(file.span, ModeOf(tok))] + rest.value, rest.pos)
  }

  /** The loop of parseexec: words and redirections, when argc words were seen already. */
  function ParseArgs(s: string, i: int, argc: int): (r: Result<(seq<Span>, seq<Redirect<Span>>)>)
    requires 0 <= i <= |s|
    ensures r.Ok? ==> i <= r.pos <= |s|
    decreases |s| - i
  {
    if PeekStop(s, i) then Ok(([], []), Skip(s, i))
    else
      var (tok, j) := GetToken(s, i);
      if tok == End then Ok(([], []), j)
      else if !tok.Word? then Err(Syntax)
      else if argc + 1 >= MAXARGS then Err(TooManyArgs)
      else
        var rs := ParseRedirs(s, j);
        if rs.Err? then Err(rs.error)
        else
          var rest := ParseArgs(s, rs.pos, argc + 1);
          if rest.Err? then Err(rest.error)
          else Ok(([tok.span] + rest.value.0, rs.value + rest.value.1), rest.pos)
  }

  /** c with the redirections rs around it, the first one innermost. */
  function Wrap<T>(c: Cmd<T>, rs: seq<Redirect<T>>): Cmd<T>
    decreases |rs|
  {
    if rs == [] then c else Wrap(Redir(c, rs[0].file, rs[0].mode), rs[1..])
  }

  function ParseExec(s: string, i: int): (r: Result<Cmd<Span>>)
    requires 0 <= i <= |s|
    ensures r.Ok? ==> i <= r.pos <= |s|
    decreases |s| - i, 1
  {
    if Peek(s, i, '(') then ParseBlock(s, i)
    else
      var rs := ParseRedirs(s, i);
      if rs.Err? then Err(rs.error)
      else
        var args := ParseArgs(s, rs.pos, 0);
        if args.Err? then Err(args.error)
        else Ok(Wrap(Exec(args.value.0), rs.value + args.value.1), args.pos)
  }

  function ParseBlock(s: string, i: int): (r: Result<Cmd<Span>>)
    requires 0 <= i <= |s| && Peek(s, i, '(')
    ensures r.Ok? ==> i <= r.pos <= |s|
    decreases |s| - i, 0
  {
    var line := ParseLine(s, GetToken(s, i).1);
    if line.Err? then line
    else if !Peek(s, line.pos, ')') then Err(MissingParen)
    else
      var rs := ParseRedirs(s, GetToken(s, line.pos).1);
      if rs.Err? then Err(rs.error) else Ok(Wrap(line.value, rs.value), rs.pos)
  }

  function ParsePipe(s: string, i: int): (r: Result<Cmd<Span>>)
    requires 0 <= i <= |s|
    ensures r.Ok? ==> i <= r.pos <= |s|
    decreases |s| - i, 2
  {
    var left := ParseExec(s, i);
    if left.Err? || !Peek(s, left.pos, '|') then left
    else
      var right := ParsePipe(s, GetToken(s, left.pos).1);
      if right.Err? then right else Ok(Pipe(left.value, right.value), right.pos)
  }

  /** The loop of parseline over `&`. */
  function ParseBacks(s: string, i: int, c: Cmd<Span>): (r: (Cmd<Span>, int))
    requires 0 <= i <= |s|
    ensures i <= r.1 <= |s|
    decreases |s| - i
  {
    if Peek(s, i, '&') then ParseBacks(s, GetToken(s, i).1, Back(c)) else (c, Skip(s, i))
  }

  function ParseLine(s: string, i: int): (r: Result<Cmd<Span>>)
    requires 0 <= i <= |s|
    ensures r.Ok? ==> i <= r.pos <= |s|
    decreases |s| - i, 3
  {
    var left := ParsePipe(s, i);
    if left.Err? then left
    else
      var (c, j) := ParseBacks(s, left.pos, left.value);
      if !Peek(s, j, ';') then Ok(c, j)
      else
        var right := ParseLine(s, GetToken(s, j).1);
        if right.Err? then right else Ok(List(c, right.value), right.pos)
  }

  /** parsecmd up to nulterminate. */
  function ParseCmd(s: string): (r: Result<Cmd<Span>>)
    ensures r.Ok? ==> r.pos == |s|
  {
    var line := ParseLine(s, 0);
    if line.Err? then line
    else if Skip(s, line.pos) != |s| then Err(Leftovers)
    else Ok(line.value, |s|)
  }
}
