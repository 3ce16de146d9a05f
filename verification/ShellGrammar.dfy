/** The command parser of the shell (user/sh.c) as functions of the input line and a
    position in it. */
module ShellGrammar {
  const MAXARGS: nat := 10

  /** q and eq: the start and the end of a word in the line. */
  datatype Slice = Slice(q: nat, eq: nat)

  /** <, > and >>. */
  datatype Mode = Read | Write | Append

  datatype Cmd<W> =
    | Exec(argv: seq<W>)
    | Redir(cmd: Cmd<W>, file: W, mode: Mode)
    | Pipe(left: Cmd<W>, right: Cmd<W>)
    | List(left: Cmd<W>, right: Cmd<W>)
    | Back(cmd: Cmd<W>)

  /** The calls of panic. */
  datatype Error = MissingFile | Syntax | TooManyArgs | MissingParen | Leftovers

  datatype Parsed<T> = Good(v: T, pos: nat) | Bad(error: Error)

  // ---- characters ----

  predicate IsSpace(c: char) {
    c in {' ', '\t', '\r', '\n', '\U{b}'}
  }

  predicate IsSymbol(c: char) {
    c in {'<', '|', '>', '&', ';', '(', ')'}
  }

  predicate IsWord(c: char) {
    !IsSpace(c) && !IsSymbol(c) && c != '\0'
  }

  /** What the pointer at i points to; the line ends with a NUL. */
  function Ch(s: string, i: nat): char {
    if i < |s| then s[i] else '\0'
  }

  function SkipSpace(s: string, i: nat): (j: nat)
    requires i <= |s|
    ensures i <= j <= |s| && !IsSpace(Ch(s, j))
    decreases |s| - i
  {
    if i < |s| && IsSpace(s[i]) then SkipSpace(s, i + 1) else i
  }

  function WordEnd(s: string, i: nat): (j: nat)
    requires i <= |s|
    ensures i <= j <= |s| && (j < |s| ==> IsSpace(s[j]) || IsSymbol(s[j]))
    ensures forall k :: i <= k < j ==> !IsSpace(s[k]) && !IsSymbol(s[k])
    decreases |s| - i
  {
    if i < |s| && !IsSpace(s[i]) && !IsSymbol(s[i]) then WordEnd(s, i + 1) else i
  }

  // ---- tokens ----

  datatype Kind = End | Sym(c: char) | Twice | Word

  datatype Token = Token(kind: Kind, word: Slice, pos: nat)

  /** A C string: no NUL before its end. */
  predicate Line(s: string) {
    forall k :: 0 <= k < |s| ==> s[k] != '\0'
  }

  function GetToken(s: string, i: nat): (t: Token)
    requires i <= |s|
    ensures i <= t.word.q <= t.word.eq <= t.pos <= |s|
    ensures Line(s) ==> (t.kind != End ==> t.pos > i)
  {
    var q := SkipSpace(s, i);
    var c := Ch(s, q);
    if c == '\0' then Token(End, Slice(q, q), SkipSpace(s, q))
    else if c in {'|', '(', ')', ';', '&', '<'} then Token(Sym(c), Slice(q, q + 1), SkipSpace(s, q + 1))
    else if c == '>' then
      if Ch(s, q + 1) == '>' then Token(Twice, Slice(q, q + 2), SkipSpace(s, q + 2))
      else Token(Sym(c), Slice(q, q + 1), SkipSpace(s, q + 1))
    else Token(Word, Slice(q, WordEnd(s, q)), SkipSpace(s, WordEnd(s, q)))
  }

  /** The character that peek looks at. */
  function Look(s: string, i: nat): char
    requires i <= |s|
  {
    Ch(s, SkipSpace(s, i))
  }

  // ---- redirections ----

  datatype Redirection<W> = Redirection(file: W, mode: Mode)

  function ModeOf(k: Kind): Mode {
    if k == Sym('<') then Read else if k == Twice then Append else Write
  }

  function Wrap<W>(c: Cmd<W>, rs: seq<Redirection<W>>): Cmd<W>
    decreases |rs|
  {
    if rs == [] then c else Redir(Wrap(c, rs[..|rs| - 1]), rs[|rs| - 1].file, rs[|rs| - 1].mode)
  }

  function ParseRedirs(s: string, i: nat, rs: seq<Redirection<Slice>>): (r: Parsed<seq<Redirection<Slice>>>)
    requires Line(s) && i <= |s|
    ensures r.Good? ==> i <= r.pos <= |s|
    decreases |s| - i
  {
    var j := SkipSpace(s, i);
    if Look(s, i) !in {'<', '>'} then Good(rs, j) else
    var t := GetToken(s, j);
    var w := GetToken(s, t.pos);
    if w.kind != Word then Bad(MissingFile)
    else ParseRedirs(s, w.pos, rs + [Redirection(w.word, ModeOf(t.kind))])
  }

  // ---- commands ----

  /** The words and redirections of a simple command. */
  function ParseArgs(s: string, i: nat, argv: seq<Slice>, rs: seq<Redirection<Slice>>):
    (r: Parsed<(seq<Slice>, seq<Redirection<Slice>>)>)
    requires Line(s) && i <= |s|
    ensures r.Good? ==> i <= r.pos <= |s|
    decreases |s| - i
  {
    var j := SkipSpace(s, i);
    if Look(s, i) in {'|', ')', '&', ';'} then Good((argv, rs), j) else
    var t := GetToken(s, j);
    if t.kind == End then Good((argv, rs), t.pos)
    else if t.kind != Word then Bad(Syntax)
    else if |argv| + 1 >= MAXARGS then Bad(TooManyArgs)
    else match ParseRedirs(s, t.pos, rs)
         case Bad(e) => Bad(e)
         case Good(rs', k) => ParseArgs(s, k, argv + [t.word], rs')
  }

  function ParseExec(s: string, i: nat): (r: Parsed<Cmd<Slice>>)
    requires Line(s) && i <= |s|
    ensures r.Good? ==> i <= r.pos <= |s|
    decreases |s| - i, 1
  {
    var j := SkipSpace(s, i);
    if Look(s, i) == '(' then ParseBlock(s, j)
    else match ParseRedirs(s, j, [])
         case Bad(e) => Bad(e)
         case Good(rs, k) =>
           match ParseArgs(s, k, [], rs)
           case Bad(e) => Bad(e)
           case Good(v, l) => Good(Wrap(Exec(v.0), v.1), l)
  }

  function ParseBlock(s: string, i: nat): (r: Parsed<Cmd<Slice>>)
    requires Line(s) && i <= |s| && Ch(s, i) == '('
    ensures r.Good? ==> i <= r.pos <= |s|
    decreases |s| - i, 0
  {
    var j := GetToken(s, i).pos;
    match ParseLine(s, j)
    case Bad(e) => Bad(e)
    case Good(c, k) =>
      if Look(s, k) != ')' then Bad(MissingParen)
      else
        var l := GetToken(s, k).pos;
        match ParseRedirs(s, l, [])
        case Bad(e) => Bad(e)
        case Good(rs, m) => Good(Wrap(c, rs), m)
  }

  function ParsePipe(s: string, i: nat): (r: Parsed<Cmd<Slice>>)
    requires Line(s) && i <= |s|
    ensures r.Good? ==> i <= r.pos <= |s|
    decreases |s| - i, 2
  {
    match ParseExec(s, i)
    case Bad(e) => Bad(e)
    case Good(c, j) =>
      if Look(s, j) != '|' then Good(c, SkipSpace(s, j))
      else
        match ParsePipe(s, GetToken(s, j).pos)
        case Bad(e) => Bad(e)
        case Good(c', k) => Good(Pipe(c, c'), k)
  }

  /** The loop over & in parseline. */
  function ParseBacks(s: string, i: nat, c: Cmd<Slice>): (r: Parsed<Cmd<Slice>>)
    requires Line(s) && i <= |s|
    ensures r.Good? && i <= r.pos <= |s|
    decreases |s| - i
  {
    if Look(s, i) != '&' then Good(c, SkipSpace(s, i)) else ParseBacks(s, GetToken(s, i).pos, Back(c))
  }

  function ParseLine(s: string, i: nat): (r: Parsed<Cmd<Slice>>)
    requires Line(s) && i <= |s|
    ensures r.Good? ==> i <= r.pos <= |s|
    decreases |s| - i, 3
  {
    match ParsePipe(s, i)
    case Bad(e) => Bad(e)
    case Good(c, j) =>
      var b := ParseBacks(s, j, c);
      if Look(s, b.pos) != ';' then Good(b.v, SkipSpace(s, b.pos))
      else
        match ParseLine(s, GetToken(s, b.pos).pos)
        case Bad(e) => Bad(e)
        case Good(c', k) => Good(List(b.v, c'), k)
  }

  function ParseCmd(s: string): Parsed<Cmd<Slice>>
    requires Line(s)
  {
    match ParseLine(s, 0)
    case Bad(e) => Bad(e)
    case Good(c, i) => if SkipSpace(s, i) != |s| then Bad(Leftovers) else Good(c, |s|)
  }
}
