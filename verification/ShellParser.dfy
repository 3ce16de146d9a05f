/** The shell's parser as it runs over the line (user/sh.c), and the termination of its
    words in place. */
module ShellParser {
  import opened ShellGrammar

  // ---- tokens, character by character ----

  /** Nothing but spaces, tabs, carriage returns, newlines and vertical tabs. */
  predicate Blank(b: string) {
    forall k :: 0 <= k < |b| ==> b[k] == ' ' || b[k] == '\t' || b[k] == '\r' || b[k] == '\n' || b[k] == '\U{b}'
  }

  /** t is the token at i: after blanks one of the symbols, ">>", or as many characters as
      there are that are neither, and then all the blanks that follow. */
  predicate Spelled(s: string, i: nat, t: Token) {
    && i <= t.word.q <= t.word.eq <= t.pos <= |s|
    && Blank(s[i..t.word.q]) && Blank(s[t.word.eq..t.pos])
    && (t.word.q < |s| ==> !Blank([s[t.word.q]])) && (t.pos < |s| ==> !Blank([s[t.pos]]))
    && var text := s[t.word.q..t.word.eq];
       match t.kind
       case End => text == "" && t.word.q == |s|
       case Sym(c) => text == [c] && c in "<|>&;()" && (c == '>' ==> t.word.eq == |s| || s[t.word.eq] != '>')
       case Twice => text == ">>"
       case Word =>
         && text != "" && (forall k :: 0 <= k < |text| ==> !Blank([text[k]]) && text[k] !in "<|>&;()")
         && (t.word.eq < |s| ==> Blank([s[t.word.eq]]) || s[t.word.eq] in "<|>&;()")
  }

  lemma {:induction false} Skipped(s: string, i: nat, k: nat)
    requires i <= |s| && i <= k < SkipSpace(s, i)
    ensures IsSpace(s[k])
    decreases k - i
  {
    if i < k { Skipped(s, i + 1, k); }
  }

  lemma SpaceIsBlank(c: char)
    ensures IsSpace(c) <==> Blank([c])
    ensures IsSymbol(c) <==> c in "<|>&;()"
  {
    if Blank([c]) { assert [c][0] == c; }
  }

  lemma {:induction false} SkipIsBlank(s: string, i: nat)
    requires i <= |s|
    ensures Blank(s[i..SkipSpace(s, i)]) && (SkipSpace(s, i) < |s| ==> !Blank([s[SkipSpace(s, i)]]))
  {
    var j := SkipSpace(s, i);
    var gap := s[i..j];
    forall k | 0 <= k < |gap|
      ensures IsSpace(gap[k])
    {
      Skipped(s, i, i + k);
    }
    if j < |s| { SpaceIsBlank(s[j]); }
  }

  lemma {:induction false} TokenSpelled(s: string, i: nat)
    requires Line(s) && i <= |s|
    ensures Spelled(s, i, GetToken(s, i))
  {
    var t := GetToken(s, i);
    SkipIsBlank(s, i);
    SkipIsBlank(s, t.word.eq);
    if t.kind == Word { WordSpelled(s, t.word.q); }
  }

  lemma {:induction false} WordSpelled(s: string, q: nat)
    requires q <= |s|
    ensures var text := s[q..WordEnd(s, q)];
            forall k :: 0 <= k < |text| ==> !Blank([text[k]]) && text[k] !in "<|>&;()"
    ensures WordEnd(s, q) < |s| ==> Blank([s[WordEnd(s, q)]]) || s[WordEnd(s, q)] in "<|>&;()"
  {
    var e := WordEnd(s, q);
    var text := s[q..e];
    forall k | 0 <= k < |text|
      ensures !Blank([text[k]]) && text[k] !in "<|>&;()"
    {
      SpaceIsBlank(s[q + k]);
    }
    if e < |s| { SpaceIsBlank(s[e]); }
  }

  method Skip(s: string, i: nat) returns (j: nat)
    requires i <= |s|
    ensures j == SkipSpace(s, i)
  {
    j := i;
    while j < |s| && IsSpace(s[j])
      invariant i <= j <= |s| && SkipSpace(s, j) == SkipSpace(s, i)
    {
      j := j + 1;
    }
  }

  method Gettoken(s: string, i: nat) returns (t: Token)
    requires i <= |s|
    ensures t == GetToken(s, i) && (Line(s) ==> Spelled(s, i, t))
  {
    if Line(s) { TokenSpelled(s, i); }
    var q := Skip(s, i);
    var e, kind := q, End;
    var c := Ch(s, q);
    if c == '\0' {
    } else if c == '|' || c == '(' || c == ')' || c == ';' || c == '&' || c == '<' {
      kind, e := Sym(c), q + 1;
    } else if c == '>' {
      kind, e := Sym(c), q + 1;
      if Ch(s, e) == '>' {
        kind, e := Twice, e + 1;
      }
    } else {
      kind := Word;
      while e < |s| && !IsSpace(s[e]) && !IsSymbol(s[e])
        invariant q <= e <= |s| && WordEnd(s, e) == WordEnd(s, q)
      {
        e := e + 1;
      }
    }
    var j := Skip(s, e);
    t := Token(kind, Slice(q, e), j);
  }

  method Peek(s: string, i: nat, toks: string) returns (j: nat, hit: bool)
    requires i <= |s|
    ensures j == SkipSpace(s, i) && hit == (Look(s, i) != '\0' && Look(s, i) in toks)
  {
    j := Skip(s, i);
    hit := Ch(s, j) != '\0' && Ch(s, j) in toks;
  }

  lemma SkipTwice(s: string, i: nat)
    requires i <= |s|
    ensures SkipSpace(s, SkipSpace(s, i)) == SkipSpace(s, i) && Look(s, SkipSpace(s, i)) == Look(s, i)
  {
  }

  /** The redirections at i, after those already collected. */
  method Parseredirs(s: string, i: nat, acc: seq<Redirection<Slice>>) returns (r: Parsed<seq<Redirection<Slice>>>)
    requires Line(s) && i <= |s|
    ensures r == ParseRedirs(s, i, acc)
  {
    var j, rs := i, acc;
    var p, more := Peek(s, j, "<>");
    while more
      invariant j <= |s| && p == SkipSpace(s, j) && more == (Look(s, j) in {'<', '>'})
      invariant ParseRedirs(s, j, rs) == ParseRedirs(s, i, acc)
      decreases |s| - j
    {
      SkipTwice(s, j);
      var t := Gettoken(s, p);
      var w := Gettoken(s, t.pos);
      if w.kind != Word { return Bad(MissingFile); }
      rs := rs + [Redirection(w.word, ModeOf(t.kind))];
      j := w.pos;
      p, more := Peek(s, j, "<>");
    }
    r := Good(rs, p);
  }

  /** The loop of parseexec over the words of a simple command. */
  method Parseargs(s: string, i: nat, acc: seq<Redirection<Slice>>)
    returns (r: Parsed<(seq<Slice>, seq<Redirection<Slice>>)>)
    requires Line(s) && i <= |s|
    ensures r == ParseArgs(s, i, [], acc)
  {
    var argv: seq<Slice>, rs, j := [], acc, i;
    var p, done := Peek(s, j, "|)&;");
    while !done
      invariant j <= |s| && p == SkipSpace(s, j) && done == (Look(s, j) in {'|', ')', '&', ';'})
      invariant ParseArgs(s, j, argv, rs) == ParseArgs(s, i, [], acc)
      decreases |s| - j, !done
    {
      SkipTwice(s, j);
      var t := Gettoken(s, p);
      if t.kind == End { return Good((argv, rs), t.pos); }
      if t.kind != Word { return Bad(Syntax); }
      if |argv| + 1 >= MAXARGS { return Bad(TooManyArgs); }
      var more := Parseredirs(s, t.pos, rs);
      if more.Bad? { return Bad(more.error); }
      argv, rs, j := argv + [t.word], more.v, more.pos;
      p, done := Peek(s, j, "|)&;");
    }
    r := Good((argv, rs), p);
  }

  method Parseexec(s: string, i: nat) returns (r: Parsed<Cmd<Slice>>)
    requires Line(s) && i <= |s|
    ensures r == ParseExec(s, i)
    decreases |s| - i, 1
  {
    var j, block := Peek(s, i, "(");
    if block {
      r := Parseblock(s, j);
      return;
    }
    var rs := Parseredirs(s, j, []);
    if rs.Bad? { return Bad(rs.error); }
    var args := Parseargs(s, rs.pos, rs.v);
    if args.Bad? { return Bad(args.error); }
    r := Good(Wrap(Exec(args.v.0), args.v.1), args.pos);
  }

  method Parseblock(s: string, i: nat) returns (r: Parsed<Cmd<Slice>>)
    requires Line(s) && i <= |s| && Ch(s, i) == '('
    ensures r == ParseBlock(s, i)
    decreases |s| - i, 0
  {
    var t := Gettoken(s, i);
    var c := Parseline(s, t.pos);
    if c.Bad? { return c; }
    var j, closed := Peek(s, c.pos, ")");
    if !closed { return Bad(MissingParen); }
    var u := Gettoken(s, c.pos);
    var rs := Parseredirs(s, u.pos, []);
    if rs.Bad? { return Bad(rs.error); }
    r := Good(Wrap(c.v, rs.v), rs.pos);
  }

  method Parsepipe(s: string, i: nat) returns (r: Parsed<Cmd<Slice>>)
    requires Line(s) && i <= |s|
    ensures r == ParsePipe(s, i)
    decreases |s| - i, 2
  {
    var c := Parseexec(s, i);
    if c.Bad? { return c; }
    var j, more := Peek(s, c.pos, "|");
    if !more { return Good(c.v, j); }
    var t := Gettoken(s, c.pos);
    var c' := Parsepipe(s, t.pos);
    if c'.Bad? { return c'; }
    r := Good(Pipe(c.v, c'.v), c'.pos);
  }

  method Parseline(s: string, i: nat) returns (r: Parsed<Cmd<Slice>>)
    requires Line(s) && i <= |s|
    ensures r == ParseLine(s, i)
    decreases |s| - i, 3
  {
    var first := Parsepipe(s, i);
    if first.Bad? { return first; }
    var c, j := first.v, first.pos;
    var p, back := Peek(s, j, "&");
    while back
      invariant first.pos <= j <= |s| && p == SkipSpace(s, j) && back == (Look(s, j) == '&')
      invariant ParseBacks(s, j, c) == ParseBacks(s, first.pos, first.v)
      decreases |s| - j
    {
      var t := Gettoken(s, j);
      c, j := Back(c), t.pos;
      p, back := Peek(s, j, "&");
    }
    SkipTwice(s, j);
    var q, list := Peek(s, p, ";");
    if !list { return Good(c, q); }
    var t := Gettoken(s, p);
    var c' := Parseline(s, t.pos);
    if c'.Bad? { return c'; }
    r := Good(List(c, c'.v), c'.pos);
  }

  method Parsecmd(s: string) returns (r: Parsed<Cmd<Slice>>)
    requires Line(s)
    ensures r == ParseCmd(s)
  {
    var c := Parseline(s, 0);
    if c.Bad? { return c; }
    var j := Skip(s, c.pos);
    if j != |s| { return Bad(Leftovers); }
    r := Good(c.v, |s|);
  }

  // ---- words are whole tokens ----

  /** All of the slice is word characters, and the character after it is not. */
  predicate WholeWord(s: string, w: Slice) {
    w.q < w.eq <= |s| && (forall k :: w.q <= k < w.eq ==> IsWord(s[k])) && !IsWord(Ch(s, w.eq))
  }

  lemma TokenIsWhole(s: string, i: nat)
    requires Line(s) && i <= |s| && GetToken(s, i).kind == Word
    ensures WholeWord(s, GetToken(s, i).word)
  {
    var w := GetToken(s, i).word;
    assert w.q < |s| && IsWord(s[w.q]);
  }

  predicate WholeFiles(s: string, rs: seq<Redirection<Slice>>) {
    forall k :: 0 <= k < |rs| ==> WholeWord(s, rs[k].file)
  }

  predicate WholeArgs(s: string, argv: seq<Slice>) {
    forall k :: 0 <= k < |argv| ==> WholeWord(s, argv[k])
  }

  /** Every word is a whole token, and no command has too many. */
  predicate AllWhole(s: string, c: Cmd<Slice>) {
    match c
    case Exec(argv) => |argv| < MAXARGS && WholeArgs(s, argv)
    case Redir(x, file, _) => AllWhole(s, x) && WholeWord(s, file)
    case Pipe(l, r) => AllWhole(s, l) && AllWhole(s, r)
    case List(l, r) => AllWhole(s, l) && AllWhole(s, r)
    case Back(x) => AllWhole(s, x)
  }

  lemma {:induction false} WholeWrap(s: string, c: Cmd<Slice>, rs: seq<Redirection<Slice>>)
    requires AllWhole(s, c) && WholeFiles(s, rs)
    ensures AllWhole(s, Wrap(c, rs))
    decreases |rs|
  {
    if rs != [] { WholeWrap(s, c, rs[..|rs| - 1]); }
  }

  lemma {:induction false} RedirsWhole(s: string, i: nat, acc: seq<Redirection<Slice>>)
    requires Line(s) && i <= |s| && WholeFiles(s, acc) && ParseRedirs(s, i, acc).Good?
    ensures WholeFiles(s, ParseRedirs(s, i, acc).v)
    decreases |s| - i
  {
    var j := SkipSpace(s, i);
    if Look(s, i) in {'<', '>'} {
      var t := GetToken(s, j);
      var w := GetToken(s, t.pos);
      TokenIsWhole(s, t.pos);
      RedirsWhole(s, w.pos, acc + [Redirection(w.word, ModeOf(t.kind))]);
    }
  }

  lemma {:induction false} ArgsWhole(s: string, i: nat, argv: seq<Slice>, acc: seq<Redirection<Slice>>)
    requires Line(s) && i <= |s| && |argv| < MAXARGS && WholeArgs(s, argv) && WholeFiles(s, acc)
    requires ParseArgs(s, i, argv, acc).Good?
    ensures var v := ParseArgs(s, i, argv, acc).v; |v.0| < MAXARGS && WholeArgs(s, v.0) && WholeFiles(s, v.1)
    decreases |s| - i
  {
    var j := SkipSpace(s, i);
    var t := GetToken(s, j);
    if Look(s, i) !in {'|', ')', '&', ';'} && t.kind != End {
      TokenIsWhole(s, j);
      RedirsWhole(s, t.pos, acc);
      var r := ParseRedirs(s, t.pos, acc);
      ArgsWhole(s, r.pos, argv + [t.word], r.v);
    }
  }

  lemma {:induction false} BacksWhole(s: string, i: nat, c: Cmd<Slice>)
    requires Line(s) && i <= |s| && AllWhole(s, c)
    ensures AllWhole(s, ParseBacks(s, i, c).v)
    decreases |s| - i
  {
    if Look(s, i) == '&' { BacksWhole(s, GetToken(s, i).pos, Back(c)); }
  }

  lemma {:induction false} ExecWhole(s: string, i: nat)
    requires Line(s) && i <= |s| && ParseExec(s, i).Good?
    ensures AllWhole(s, ParseExec(s, i).v)
    decreases |s| - i, 1
  {
    var j := SkipSpace(s, i);
    if Look(s, i) == '(' {
      BlockWhole(s, j);
    } else {
      RedirsWhole(s, j, []);
      var rs := ParseRedirs(s, j, []);
      ArgsWhole(s, rs.pos, [], rs.v);
      var v := ParseArgs(s, rs.pos, [], rs.v).v;
      WholeWrap(s, Exec(v.0), v.1);
    }
  }

  lemma {:induction false} BlockWhole(s: string, i: nat)
    requires Line(s) && i <= |s| && Ch(s, i) == '(' && ParseBlock(s, i).Good?
    ensures AllWhole(s, ParseBlock(s, i).v)
    decreases |s| - i, 0
  {
    var j := GetToken(s, i).pos;
    LineWhole(s, j);
    var c := ParseLine(s, j);
    var l := GetToken(s, c.pos).pos;
    RedirsWhole(s, l, []);
    WholeWrap(s, c.v, ParseRedirs(s, l, []).v);
  }

  lemma {:induction false} PipeWhole(s: string, i: nat)
    requires Line(s) && i <= |s| && ParsePipe(s, i).Good?
    ensures AllWhole(s, ParsePipe(s, i).v)
    decreases |s| - i, 2
  {
    ExecWhole(s, i);
    var c := ParseExec(s, i);
    if Look(s, c.pos) == '|' { PipeWhole(s, GetToken(s, c.pos).pos); }
  }

  /** Every word of a parsed line is a whole token. */
  lemma {:induction false} LineWhole(s: string, i: nat)
    requires Line(s) && i <= |s| && ParseLine(s, i).Good?
    ensures AllWhole(s, ParseLine(s, i).v)
    decreases |s| - i, 3
  {
    PipeWhole(s, i);
    var c := ParsePipe(s, i);
    BacksWhole(s, c.pos, c.v);
    var b := ParseBacks(s, c.pos, c.v);
    if Look(s, b.pos) == ';' { LineWhole(s, GetToken(s, b.pos).pos); }
  }

  // ---- nulterminate ----

  /** The words of a command, in the order nulterminate meets them. */
  function Words(c: Cmd<Slice>): seq<Slice> {
    match c
    case Exec(argv) => argv
    case Redir(x, file, _) => Words(x) + [file]
    case Pipe(l, r) => Words(l) + Words(r)
    case List(l, r) => Words(l) + Words(r)
    case Back(x) => Words(x)
  }

  /** buf with a NUL after each of the words. */
  function Cut(buf: seq<char>, ws: seq<Slice>): (b: seq<char>)
    ensures |b| == |buf|
  {
    if ws == [] then buf
    else
      var b := Cut(buf, ws[..|ws| - 1]);
      var e := ws[|ws| - 1].eq;
      if e < |b| then b[e := '\0'] else b
  }

  lemma {:induction false} CutMore(buf: seq<char>, ws: seq<Slice>, vs: seq<Slice>)
    ensures Cut(buf, ws + vs) == Cut(Cut(buf, ws), vs)
    decreases |vs|
  {
    if vs == [] {
      assert ws + vs == ws;
    } else {
      assert (ws + vs)[..|ws + vs| - 1] == ws + vs[..|vs| - 1];
      CutMore(buf, ws, vs[..|vs| - 1]);
    }
  }

  predicate EndsInside(ws: seq<Slice>, n: nat) {
    forall k :: 0 <= k < |ws| ==> ws[k].eq < n
  }

  /** Writes the NULs into the buffer, following the tree. */
  method Nulterminate(c: Cmd<Slice>, a: array<char>)
    requires EndsInside(Words(c), a.Length)
    modifies a
    ensures a[..] == Cut(old(a[..]), Words(c))
    decreases c
  {
    match c
    case Exec(argv) =>
      var i := 0;
      while i < |argv|
        invariant 0 <= i <= |argv| && a[..] == Cut(old(a[..]), argv[..i])
      {
        assert argv[..i + 1][..i] == argv[..i];
        a[argv[i].eq] := '\0';
        i := i + 1;
      }
      assert argv[..i] == argv;
    case Redir(x, file, _) =>
      LastInside(Words(x), [file], a.Length);
      assert [file][0].eq < a.Length;
      Nulterminate(x, a);
      a[file.eq] := '\0';
      assert (Words(x) + [file])[..|Words(x)|] == Words(x);
    case Pipe(l, r) =>
      LastInside(Words(l), Words(r), a.Length);
      CutMore(a[..], Words(l), Words(r));
      Nulterminate(l, a);
      Nulterminate(r, a);
    case List(l, r) =>
      LastInside(Words(l), Words(r), a.Length);
      CutMore(a[..], Words(l), Words(r));
      Nulterminate(l, a);
      Nulterminate(r, a);
    case Back(x) =>
      Nulterminate(x, a);
  }

  lemma LastInside(ws: seq<Slice>, vs: seq<Slice>, n: nat)
    requires EndsInside(ws + vs, n)
    ensures EndsInside(ws, n) && EndsInside(vs, n)
  {
    forall k | 0 <= k < |ws|
      ensures ws[k].eq < n
    {
      assert (ws + vs)[k] == ws[k];
    }
    forall k | 0 <= k < |vs|
      ensures vs[k].eq < n
    {
      assert (ws + vs)[|ws| + k] == vs[k];
    }
  }

  lemma {:induction false} CutAt(buf: seq<char>, ws: seq<Slice>, k: nat)
    requires k < |buf|
    ensures Cut(buf, ws)[k] == if exists j :: 0 <= j < |ws| && ws[j].eq == k then '\0' else buf[k]
    decreases |ws|
  {
    if ws != [] {
      var front := ws[..|ws| - 1];
      CutAt(buf, front, k);
      if ws[|ws| - 1].eq != k && exists j :: 0 <= j < |ws| && ws[j].eq == k {
        var j :| 0 <= j < |ws| && ws[j].eq == k;
        assert front[j].eq == k;
      }
      if exists j :: 0 <= j < |front| && front[j].eq == k {
        var j :| 0 <= j < |front| && front[j].eq == k;
        assert ws[j].eq == k;
      }
    }
  }

  /** The C string at q: everything up to the first NUL. */
  function CString(buf: seq<char>, q: nat): string
    requires q <= |buf|
    decreases |buf| - q
  {
    if q == |buf| || buf[q] == '\0' then "" else [buf[q]] + CString(buf, q + 1)
  }

  lemma {:induction false} CStringIs(buf: seq<char>, s: string, q: nat, e: nat)
    requires q <= e < |buf| && e <= |s| && buf[e] == '\0' && forall k :: q <= k < e ==> buf[k] == s[k] && s[k] != '\0'
    ensures CString(buf, q) == s[q..e]
    decreases e - q
  {
    if q < e {
      CStringIs(buf, s, q + 1, e);
      assert s[q..e] == [s[q]] + s[q + 1..e];
    }
  }

  lemma {:induction false} WordsWhole(s: string, c: Cmd<Slice>, k: nat)
    requires AllWhole(s, c) && k < |Words(c)|
    ensures WholeWord(s, Words(c)[k])
    decreases c
  {
    match c
    case Exec(argv) =>
    case Redir(x, file, _) => if k < |Words(x)| { WordsWhole(s, x, k); }
    case Pipe(l, r) => if k < |Words(l)| { WordsWhole(s, l, k); } else { WordsWhole(s, r, k - |Words(l)|); }
    case List(l, r) => if k < |Words(l)| { WordsWhole(s, l, k); } else { WordsWhole(s, r, k - |Words(l)|); }
    case Back(x) => WordsWhole(s, x, k);
  }

  /** After nulterminate each word of the command is a C string equal to its slice. */
  lemma WordsAreStrings(s: string, c: Cmd<Slice>, m: nat)
    requires Line(s) && ParseCmd(s).Good? && c == ParseCmd(s).v && m < |Words(c)|
    ensures EndsInside(Words(c), |s| + 1) && Words(c)[m].q <= Words(c)[m].eq <= |s|
    ensures CString(Cut(s + "\0", Words(c)), Words(c)[m].q) == s[Words(c)[m].q..Words(c)[m].eq]
  {
    LineWhole(s, 0);
    var ws, buf := Words(c), s + "\0";
    forall j | 0 <= j < |ws|
      ensures WholeWord(s, ws[j])
    {
      WordsWhole(s, c, j);
    }
    var w := ws[m];
    forall k | w.q <= k < w.eq
      ensures Cut(buf, ws)[k] == s[k] && s[k] != '\0'
    {
      CutAt(buf, ws, k);
    }
    CutAt(buf, ws, w.eq);
    CStringIs(Cut(buf, ws), s, w.q, w.eq);
  }
}
