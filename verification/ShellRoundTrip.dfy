/** Printing a command with as few parentheses as the grammar allows, and parsing it back. */
module ShellRoundTrip {
  import opened Prelude
  import opened ShellGrammar

  // ---- printing ----

  /** How loosely a command binds: lists, background jobs, pipes, simple commands. */
  function Level<W>(c: Cmd<W>): nat {
    match c
    case List(_, _) => 0
    case Back(_) => 1
    case Pipe(_, _) => 2
    case _ => 3
  }

  function Sign(m: Mode): string {
    match m
    case Read => "<"
    case Write => ">"
    case Append => ">>"
  }

  function PrintWords(ws: seq<string>): string {
    if ws == [] then "" else if |ws| == 1 then ws[0] else ws[0] + " " + PrintWords(ws[1..])
  }

  /** c where a command of level lv or tighter is expected. */
  function Print(c: Cmd<string>, lv: nat): string
    decreases c, lv
  {
    if Level(c) < lv then "(" + Print(c, 0) + ")" else
    match c
    case Exec(argv) => PrintWords(argv)
    case Redir(x, file, mode) => Print(x, 3) + (Sign(mode) + file)
    case Pipe(l, r) => Print(l, 3) + ("|" + Print(r, 2))
    case List(l, r) => Print(l, 1) + (";" + Print(r, 0))
    case Back(x) => Print(x, 1) + "&"
  }

  predicate WordOk(w: string) {
    w != "" && forall k :: 0 <= k < |w| ==> IsWord(w[k])
  }

  /** Words are non-empty and plain, and there are fewer than MAXARGS of them. */
  predicate Printable(c: Cmd<string>) {
    match c
    case Exec(argv) => |argv| < MAXARGS && forall k :: 0 <= k < |argv| ==> WordOk(argv[k])
    case Redir(x, file, _) => Printable(x) && WordOk(file)
    case Pipe(l, r) => Printable(l) && Printable(r)
    case List(l, r) => Printable(l) && Printable(r)
    case Back(x) => Printable(x)
  }

  // ---- what a parsed command says ----

  function Text(s: string, w: Slice): string {
    if w.q <= w.eq <= |s| then s[w.q..w.eq] else ""
  }

  function Texts(s: string, ws: seq<Slice>): seq<string> {
    seq(|ws|, i requires 0 <= i < |ws| => Text(s, ws[i]))
  }

  function Resolve(s: string, c: Cmd<Slice>): Cmd<string> {
    match c
    case Exec(argv) => Exec(Texts(s, argv))
    case Redir(x, file, mode) => Redir(Resolve(s, x), Text(s, file), mode)
    case Pipe(l, r) => Pipe(Resolve(s, l), Resolve(s, r))
    case List(l, r) => List(Resolve(s, l), Resolve(s, r))
    case Back(x) => Back(Resolve(s, x))
  }

  function Named(s: string, rs: seq<Redirection<Slice>>): seq<Redirection<string>> {
    seq(|rs|, i requires 0 <= i < |rs| => Redirection(Text(s, rs[i].file), rs[i].mode))
  }

  lemma {:induction false} ResolveWrap(s: string, c: Cmd<Slice>, rs: seq<Redirection<Slice>>)
    ensures Resolve(s, Wrap(c, rs)) == Wrap(Resolve(s, c), Named(s, rs))
    decreases |rs|
  {
    if rs != [] {
      ResolveWrap(s, c, rs[..|rs| - 1]);
      assert Named(s, rs)[..|rs| - 1] == Named(s, rs[..|rs| - 1]);
    }
  }

  // ---- pieces of the line ----

  /** From position i the line reads t and then rest. */
  predicate Shows(s: string, i: nat, t: string, rest: string) {
    i <= |s| && s[i..] == t + rest
  }

  lemma ShowsParts(s: string, i: nat, t: string, u: string, rest: string)
    requires Shows(s, i, t + u, rest)
    ensures Shows(s, i, t, u + rest) && Shows(s, i + |t|, u, rest)
  {
    assert t + u + rest == t + (u + rest);
    assert |s| == i + |t| + |u| + |rest|;
    assert s[i + |t|..] == s[i..][|t|..];
  }

  lemma ShowsRest(s: string, i: nat, t: string, rest: string)
    requires Shows(s, i, t, rest)
    ensures i + |t| <= |s| && Shows(s, i + |t|, "", rest)
  {
    assert |s| == i + |t| + |rest|;
    assert s[i + |t|..] == s[i..][|t|..];
  }

  lemma ShowsText(s: string, i: nat, t: string, rest: string)
    requires Shows(s, i, t, rest)
    ensures i + |t| + |rest| == |s| && s[i..i + |t|] == t && Ch(s, i + |t|) == Ch(rest, 0)
    ensures forall k :: 0 <= k < |t| ==> s[i + k] == t[k]
  {
    assert |s| == i + |t| + |rest|;
    assert s[i..i + |t|] == s[i..][..|t|];
    if |rest| > 0 { assert s[i + |t|] == s[i..][|t|]; }
    forall k | 0 <= k < |t|
      ensures s[i + k] == t[k]
    {
      assert s[i + k] == s[i..][k];
    }
  }

  lemma {:induction false} WordEndIs(s: string, i: nat, n: nat)
    requires i + n <= |s| && (forall k :: i <= k < i + n ==> IsWord(s[k])) && !IsWord(Ch(s, i + n)) && Line(s)
    ensures WordEnd(s, i) == i + n
    decreases n
  {
    if n > 0 { WordEndIs(s, i + 1, n - 1); }
  }

  lemma WordToken(s: string, i: nat, w: string, rest: string)
    requires Line(s) && Shows(s, i, w, rest) && WordOk(w) && !IsWord(Ch(rest, 0))
    ensures i + |w| <= |s| && Text(s, Slice(i, i + |w|)) == w
    ensures GetToken(s, i) == Token(Word, Slice(i, i + |w|), SkipSpace(s, i + |w|))
  {
    ShowsText(s, i, w, rest);
    assert IsWord(s[i + 0]);
    forall k | i <= k < i + |w|
      ensures IsWord(s[k])
    {
      assert s[i + (k - i)] == w[k - i];
    }
    WordEndIs(s, i, |w|);
  }

  function PrintRedirs(rs: seq<Redirection<string>>): string {
    if rs == [] then "" else Sign(rs[0].mode) + rs[0].file + PrintRedirs(rs[1..])
  }

  predicate FilesOk(rs: seq<Redirection<string>>) {
    forall k :: 0 <= k < |rs| ==> WordOk(rs[k].file)
  }

  lemma NoSpace(s: string, i: nat)
    requires i <= |s| && !IsSpace(Ch(s, i))
    ensures SkipSpace(s, i) == i
  {
  }

  lemma SignToken(s: string, i: nat, m: Mode, w: string, rest: string)
    requires Line(s) && Shows(s, i, Sign(m), w + rest) && WordOk(w)
    ensures Look(s, i) in {'<', '>'} && SkipSpace(s, i) == i
    ensures var t := GetToken(s, i); t.pos == i + |Sign(m)| <= |s| && t.kind != End && ModeOf(t.kind) == m
  {
    ShowsText(s, i, Sign(m), w + rest);
    assert IsWord((w + rest)[0]);
    assert s[i + 0] == Sign(m)[0];
    if m == Append { assert s[i + 1] == Sign(m)[1]; }
    NoSpace(s, i);
    NoSpace(s, i + |Sign(m)|);
  }

  lemma FileToken(s: string, k: nat, w: string, rest: string)
    requires Line(s) && Shows(s, k, w, rest) && WordOk(w) && !IsWord(Ch(rest, 0)) && !IsSpace(Ch(rest, 0))
    ensures k + |w| <= |s| && GetToken(s, k) == Token(Word, Slice(k, k + |w|), k + |w|)
    ensures Text(s, Slice(k, k + |w|)) == w
  {
    WordToken(s, k, w, rest);
    ShowsText(s, k, w, rest);
    NoSpace(s, k + |w|);
  }

  /** ParseRedirs gives this result. */
  predicate RedirsTo(s: string, i: nat, acc: seq<Redirection<Slice>>, all: seq<Redirection<Slice>>, k: nat)
    requires Line(s) && i <= |s|
  {
    match ParseRedirs(s, i, acc)
    case Good(v, pos) => v == all && pos == k
    case Bad(_) => false
  }

  lemma RedirStep(s: string, i: nat, acc: seq<Redirection<Slice>>, t: Token, u: Token, all: seq<Redirection<Slice>>,
                  k: nat)
    requires Line(s) && i <= |s| && Look(s, i) in {'<', '>'} && SkipSpace(s, i) == i && t == GetToken(s, i)
    requires u == GetToken(s, t.pos) && u.kind == Word
    requires RedirsTo(s, u.pos, acc + [Redirection(u.word, ModeOf(t.kind))], all, k)
    ensures RedirsTo(s, i, acc, all, k)
  {
  }

  lemma NoRedir(s: string, i: nat, acc: seq<Redirection<Slice>>)
    requires Line(s) && i <= |s| && !IsSpace(Ch(s, i)) && Ch(s, i) !in {'<', '>'}
    ensures RedirsTo(s, i, acc, acc, i)
  {
    NoSpace(s, i);
  }

  /** The parser stops after these redirections. */
  predicate Ends(rest: string) {
    rest == "" || rest[0] in {'|', ')', '&', ';'}
  }

  lemma EndsCh(rest: string)
    requires Ends(rest)
    ensures !IsWord(Ch(rest, 0)) && !IsSpace(Ch(rest, 0)) && Ch(rest, 0) !in {'<', '>', '('}
    ensures (rest != "" ==> Ch(rest, 0) != '\0')
  {
  }

  lemma AfterRedir(rs: seq<Redirection<string>>, rest: string)
    requires Ends(rest)
    ensures var c := Ch(PrintRedirs(rs) + rest, 0); !IsWord(c) && !IsSpace(c) && c != '('
  {
    if rs != [] { assert (PrintRedirs(rs) + rest)[0] == Sign(rs[0].mode)[0]; }
    else { assert PrintRedirs(rs) + rest == rest; EndsCh(rest); }
  }

  lemma LastRedir(s: string, i: nat, acc: seq<Redirection<Slice>>, rest: string)
    requires Line(s) && Shows(s, i, "", rest) && Ends(rest)
    ensures RedirsTo(s, i, acc, acc, i)
  {
    ShowsText(s, i, "", rest);
    EndsCh(rest);
    NoRedir(s, i, acc);
  }

  lemma TwoTokens(s: string, i: nat, m: Mode, w: string, rest: string) returns (t: Token, u: Token)
    requires Line(s) && Shows(s, i, Sign(m) + w, rest) && WordOk(w) && !IsWord(Ch(rest, 0)) && !IsSpace(Ch(rest, 0))
    ensures Look(s, i) in {'<', '>'} && SkipSpace(s, i) == i && t == GetToken(s, i) && u == GetToken(s, t.pos)
    ensures u.kind == Word
    ensures u.pos == i + |Sign(m)| + |w| && Text(s, u.word) == w && ModeOf(t.kind) == m
  {
    ShowsParts(s, i, Sign(m), w, rest);
    SignToken(s, i, m, w, rest);
    t := GetToken(s, i);
    FileToken(s, t.pos, w, rest);
    u := GetToken(s, t.pos);
  }

  /** The two tokens of the first redirection. */
  lemma FirstRedir(s: string, i: nat, rs: seq<Redirection<string>>, rest: string) returns (t: Token, u: Token)
    requires Line(s) && rs != [] && Shows(s, i, PrintRedirs(rs), rest) && FilesOk(rs) && Ends(rest)
    ensures Look(s, i) in {'<', '>'} && SkipSpace(s, i) == i && t == GetToken(s, i) && u == GetToken(s, t.pos)
    ensures u.kind == Word
    ensures Shows(s, u.pos, PrintRedirs(rs[1..]), rest) && u.pos + |PrintRedirs(rs[1..])| == i + |PrintRedirs(rs)|
    ensures Text(s, u.word) == rs[0].file && ModeOf(t.kind) == rs[0].mode
  {
    var first, more := Sign(rs[0].mode) + rs[0].file, PrintRedirs(rs[1..]);
    ShowsParts(s, i, first, more, rest);
    AfterRedir(rs[1..], rest);
    assert WordOk(rs[0].file);
    t, u := TwoTokens(s, i, rs[0].mode, rs[0].file, more + rest);
  }

  lemma NamedPush(s: string, acc: seq<Redirection<Slice>>, one: Redirection<Slice>, rs: seq<Redirection<string>>)
    requires rs != [] && Text(s, one.file) == rs[0].file && one.mode == rs[0].mode
    ensures Named(s, acc + [one]) + rs[1..] == Named(s, acc) + rs
  {
    assert Named(s, acc + [one]) == Named(s, acc) + [rs[0]];
    assert [rs[0]] + rs[1..] == rs;
  }

  /** Printed redirections are read back, in order, after those already there. */
  lemma {:induction false} RedirsBack(s: string, i: nat, acc: seq<Redirection<Slice>>, rs: seq<Redirection<string>>,
                                      rest: string, k: nat) returns (all: seq<Redirection<Slice>>)
    requires Line(s) && Shows(s, i, PrintRedirs(rs), rest) && FilesOk(rs) && Ends(rest) && k == i + |PrintRedirs(rs)|
    ensures RedirsTo(s, i, acc, all, k) && Named(s, all) == Named(s, acc) + rs
    decreases |rs|
  {
    if rs == [] {
      all := acc;
      LastRedir(s, i, acc, rest);
    } else {
      var t, u := FirstRedir(s, i, rs, rest);
      var one := Redirection(u.word, ModeOf(t.kind));
      all := RedirsBack(s, u.pos, acc + [one], rs[1..], rest, k);
      RedirStep(s, i, acc, t, u, all, k);
      NamedPush(s, acc, one, rs);
    }
  }

  // ---- simple commands ----

  predicate ArgsTo(s: string, i: nat, argv: seq<Slice>, acc: seq<Redirection<Slice>>, all: seq<Slice>,
                   reds: seq<Redirection<Slice>>, k: nat)
    requires Line(s) && i <= |s|
  {
    match ParseArgs(s, i, argv, acc)
    case Good(v, pos) => v.0 == all && v.1 == reds && pos == k
    case Bad(_) => false
  }

  lemma ArgStep(s: string, i: nat, argv: seq<Slice>, acc: seq<Redirection<Slice>>, t: Token,
                rs: seq<Redirection<Slice>>, k: nat, all: seq<Slice>, reds: seq<Redirection<Slice>>, l: nat)
    requires Line(s) && i <= |s| && SkipSpace(s, i) == i && IsWord(Ch(s, i)) && t == GetToken(s, i) && t.kind == Word
    requires |argv| + 1 < MAXARGS
    requires RedirsTo(s, t.pos, acc, rs, k) && k <= |s| && ArgsTo(s, k, argv + [t.word], rs, all, reds, l)
    ensures ArgsTo(s, i, argv, acc, all, reds, l)
  {
  }

  lemma NoMoreArgs(s: string, i: nat, argv: seq<Slice>, acc: seq<Redirection<Slice>>, rest: string)
    requires Line(s) && Shows(s, i, "", rest) && Ends(rest)
    ensures ArgsTo(s, i, argv, acc, argv, acc, i)
  {
    ShowsText(s, i, "", rest);
    EndsCh(rest);
    NoSpace(s, i);
  }

  lemma FirstCh(s: string, i: nat, w: string, rest: string)
    requires Shows(s, i, w, rest) && WordOk(w)
    ensures i < |s| && IsWord(Ch(s, i)) && SkipSpace(s, i) == i
  {
    ShowsText(s, i, w, rest);
    assert s[i + 0] == w[0];
  }

  /** A word, a blank and another word: the token, and no redirection after it. */
  lemma OneArg(s: string, i: nat, acc: seq<Redirection<Slice>>, w: string, next: string, rest: string)
    returns (t: Token)
    requires Line(s) && Shows(s, i, w + " " + next, rest) && WordOk(w) && next != "" && IsWord(next[0])
    ensures t == GetToken(s, i) && t.kind == Word && Text(s, t.word) == w && t.pos == i + |w| + 1
    ensures Shows(s, t.pos, next, rest)
    ensures RedirsTo(s, t.pos, acc, acc, t.pos) && IsWord(Ch(s, i)) && SkipSpace(s, i) == i
  {
    ShowsParts(s, i, w + " ", next, rest);
    ShowsParts(s, i, w, " ", next + rest);
    ShowsText(s, i + |w|, " ", next + rest);
    var k := i + |w| + 1;
    FirstCh(s, i, w, " " + (next + rest));
    WordToken(s, i, w, " " + (next + rest));
    ShowsText(s, k, next, rest);
    assert s[k + 0] == next[0];
    NoSpace(s, k);
    assert SkipSpace(s, i + |w|) == k;
    NoRedir(s, k, acc);
    t := GetToken(s, i);
  }

  lemma ArgEnd(s: string, i: nat, argv: seq<Slice>, acc: seq<Redirection<Slice>>, n: nat, k: nat,
               all: seq<Redirection<Slice>>, t: Slice, rest: string)
    requires Line(s) && i <= |s| && n <= |s| && |argv| + 1 < MAXARGS && RedirsTo(s, n, acc, all, k)
    requires IsWord(Ch(s, i)) && SkipSpace(s, i) == i && GetToken(s, i) == Token(Word, t, n) && Shows(s, k, "", rest)
    requires Ends(rest)
    ensures ArgsTo(s, i, argv, acc, argv + [t], all, k)
  {
    NoMoreArgs(s, k, argv + [t], all, rest);
    ArgStep(s, i, argv, acc, Token(Word, t, n), all, k, argv + [t], all, k);
  }

  /** The last word, the redirections after it, and no more words. */
  lemma LastArg(s: string, i: nat, argv: seq<Slice>, acc: seq<Redirection<Slice>>, w: string, red: string, rest: string,
                n: nat, k: nat, all: seq<Redirection<Slice>>)
    returns (t: Slice)
    requires Line(s) && Shows(s, i, w, red + rest) && n == i + |w| && Shows(s, n, red, rest) && k == n + |red|
    requires WordOk(w) && Ends(rest) && |argv| + 1 < MAXARGS
    requires var c := Ch(red + rest, 0); !IsWord(c) && !IsSpace(c)
    requires RedirsTo(s, n, acc, all, k)
    ensures ArgsTo(s, i, argv, acc, argv + [t], all, k) && Text(s, t) == w
  {
    FirstCh(s, i, w, red + rest);
    FileToken(s, i, w, red + rest);
    ShowsRest(s, n, red, rest);
    t := Slice(i, n);
    ArgEnd(s, i, argv, acc, n, k, all, t, rest);
  }

  predicate WordsOk(ws: seq<string>) {
    forall k :: 0 <= k < |ws| ==> WordOk(ws[k])
  }

  lemma WordsStart(ws: seq<string>)
    requires ws != [] && WordsOk(ws)
    ensures PrintWords(ws) != "" && IsWord(PrintWords(ws)[0])
  {
    assert WordOk(ws[0]);
    if |ws| > 1 { assert PrintWords(ws)[0] == ws[0][0]; }
  }

  lemma TextsPush(s: string, argv: seq<Slice>, t: Slice, ws: seq<string>)
    requires ws != [] && Text(s, t) == ws[0]
    ensures Texts(s, argv + [t]) + ws[1..] == Texts(s, argv) + ws
  {
    assert Texts(s, argv + [t]) == Texts(s, argv) + [ws[0]];
    assert [ws[0]] + ws[1..] == ws;
  }

  lemma WordsSplit(ws: seq<string>, red: string)
    requires |ws| > 1
    ensures PrintWords(ws) + red == ws[0] + " " + (PrintWords(ws[1..]) + red)
  {
  }

  lemma OnlyArg(s: string, i: nat, argv: seq<Slice>, acc: seq<Redirection<Slice>>, w: string,
                rs: seq<Redirection<string>>, rest: string, k: nat)
    returns (t: Slice, reds: seq<Redirection<Slice>>)
    requires Line(s) && Shows(s, i, w + PrintRedirs(rs), rest) && WordOk(w) && FilesOk(rs) && Ends(rest)
    requires |argv| + 1 < MAXARGS
    requires k == i + |w| + |PrintRedirs(rs)|
    ensures ArgsTo(s, i, argv, acc, argv + [t], reds, k) && Text(s, t) == w && Named(s, reds) == Named(s, acc) + rs
  {
    var red, n := PrintRedirs(rs), i + |w|;
    ShowsParts(s, i, w, red, rest);
    AfterRedir(rs, rest);
    reds := RedirsBack(s, n, acc, rs, rest, k);
    t := LastArg(s, i, argv, acc, w, red, rest, n, k, reds);
  }

  /** Printed words and redirections are read back. */
  lemma {:induction false} ArgsBack(s: string, i: nat, argv: seq<Slice>, acc: seq<Redirection<Slice>>, ws: seq<string>,
                                    rs: seq<Redirection<string>>, rest: string, k: nat)
    returns (all: seq<Slice>, reds: seq<Redirection<Slice>>)
    requires Line(s) && ws != [] && Shows(s, i, PrintWords(ws) + PrintRedirs(rs), rest) && WordsOk(ws) && FilesOk(rs)
    requires Ends(rest)
    requires |argv| + |ws| < MAXARGS && k == i + |PrintWords(ws)| + |PrintRedirs(rs)|
    ensures ArgsTo(s, i, argv, acc, all, reds, k)
    ensures Texts(s, all) == Texts(s, argv) + ws && Named(s, reds) == Named(s, acc) + rs
    decreases |ws|
  {
    assert WordOk(ws[0]);
    if |ws| == 1 {
      var t;
      t, reds := OnlyArg(s, i, argv, acc, ws[0], rs, rest, k);
      all := argv + [t];
      TextsPush(s, argv, t, ws);
    } else {
      WordsStart(ws[1..]);
      WordsSplit(ws, PrintRedirs(rs));
      var t := OneArg(s, i, acc, ws[0], PrintWords(ws[1..]) + PrintRedirs(rs), rest);
      all, reds := ArgsBack(s, t.pos, argv + [t.word], acc, ws[1..], rs, rest, k);
      ArgStep(s, i, argv, acc, t, acc, t.pos, all, reds, k);
      TextsPush(s, argv, t.word, ws);
    }
  }

  // ---- commands ----

  predicate ExecTo(s: string, i: nat, c: Cmd<Slice>, k: nat)
    requires Line(s) && i <= |s|
  {
    match ParseExec(s, i)
    case Good(v, pos) => v == c && pos == k
    case Bad(_) => false
  }

  predicate PipeTo(s: string, i: nat, c: Cmd<Slice>, k: nat)
    requires Line(s) && i <= |s|
  {
    match ParsePipe(s, i)
    case Good(v, pos) => v == c && pos == k
    case Bad(_) => false
  }

  predicate BacksTo(s: string, i: nat, c: Cmd<Slice>, c': Cmd<Slice>, k: nat)
    requires Line(s) && i <= |s|
  {
    match ParseBacks(s, i, c)
    case Good(v, pos) => v == c' && pos == k
    case Bad(_) => false
  }

  /** A pipe and the & signs after it. */
  predicate JobTo(s: string, i: nat, c: Cmd<Slice>, k: nat)
    requires Line(s) && i <= |s|
  {
    match ParsePipe(s, i)
    case Good(v, pos) => BacksTo(s, pos, v, c, k)
    case Bad(_) => false
  }

  predicate LineTo(s: string, i: nat, c: Cmd<Slice>, k: nat)
    requires Line(s) && i <= |s|
  {
    match ParseLine(s, i)
    case Good(v, pos) => v == c && pos == k
    case Bad(_) => false
  }

  /** What may come after a command of level lv. */
  predicate Follow(lv: nat, rest: string) {
    rest == "" || rest[0] == ')' || (lv >= 1 && rest[0] == ';') || (lv >= 2 && rest[0] == '&')
        || (lv >= 3 && rest[0] == '|')
  }

  lemma FollowCh(lv: nat, s: string, k: nat, rest: string)
    requires Shows(s, k, "", rest) && Follow(lv, rest)
    ensures k <= |s| && SkipSpace(s, k) == k && Look(s, k) == Ch(s, k) == Ch(rest, 0) && Ends(rest)
    ensures (lv <= 2 ==> Ch(s, k) != '|') && (lv <= 1 ==> Ch(s, k) != '&') && (lv == 0 ==> Ch(s, k) != ';')
  {
    ShowsText(s, k, "", rest);
    NoSpace(s, k);
  }

  lemma ExecIsPipe(s: string, i: nat, c: Cmd<Slice>, k: nat, rest: string)
    requires Line(s) && i <= |s| && ExecTo(s, i, c, k) && Shows(s, k, "", rest) && Follow(2, rest)
    ensures PipeTo(s, i, c, k)
  {
    FollowCh(2, s, k, rest);
  }

  lemma NoBacks(s: string, k: nat, c: Cmd<Slice>, rest: string)
    requires Line(s) && Shows(s, k, "", rest) && Follow(1, rest)
    ensures BacksTo(s, k, c, c, k)
  {
    FollowCh(1, s, k, rest);
  }

  lemma PipeIsJob(s: string, i: nat, c: Cmd<Slice>, k: nat, rest: string)
    requires Line(s) && i <= |s| && PipeTo(s, i, c, k) && Shows(s, k, "", rest) && Follow(1, rest)
    ensures JobTo(s, i, c, k)
  {
    NoBacks(s, k, c, rest);
  }

  lemma JobIsLine(s: string, i: nat, c: Cmd<Slice>, k: nat, rest: string)
    requires Line(s) && i <= |s| && JobTo(s, i, c, k) && Shows(s, k, "", rest) && Follow(0, rest)
    ensures LineTo(s, i, c, k)
  {
    FollowCh(0, s, k, rest);
  }

  lemma SymToken(s: string, k: nat, c: char, more: string)
    requires Line(s) && Shows(s, k, [c], more) && c in {'|', '(', ')', ';', '&'} && !IsSpace(Ch(more, 0))
    ensures k < |s| && Look(s, k) == c && SkipSpace(s, k) == k && GetToken(s, k).pos == k + 1
    ensures Shows(s, k + 1, "", more)
  {
    ShowsText(s, k, [c], more);
    ShowsRest(s, k, [c], more);
    assert s[k + 0] == c;
    NoSpace(s, k);
    NoSpace(s, k + 1);
  }

  lemma PipeStep(s: string, i: nat, c: Cmd<Slice>, k: nat, k1: nat, c': Cmd<Slice>, l: nat)
    requires Line(s) && i <= |s| && k < |s| && ExecTo(s, i, c, k) && Look(s, k) == '|' && GetToken(s, k).pos == k1
    requires PipeTo(s, k1, c', l)
    ensures PipeTo(s, i, Pipe(c, c'), l)
  {
  }

  lemma ListStep(s: string, i: nat, c: Cmd<Slice>, k: nat, k1: nat, c': Cmd<Slice>, l: nat)
    requires Line(s) && i <= |s| && k < |s| && JobTo(s, i, c, k) && Look(s, k) == ';' && GetToken(s, k).pos == k1
    requires LineTo(s, k1, c', l)
    ensures LineTo(s, i, List(c, c'), l)
  {
  }

  lemma BackStep(s: string, k: nat, c: Cmd<Slice>, c': Cmd<Slice>, l: nat)
    requires Line(s) && k < |s| && Look(s, k) == '&' && GetToken(s, k).pos == k + 1 && BacksTo(s, k + 1, Back(c), c', l)
    ensures BacksTo(s, k, c, c', l)
  {
  }

  lemma JobStep(s: string, i: nat, c: Cmd<Slice>, k: nat, c': Cmd<Slice>, l: nat)
    requires Line(s) && i <= |s| && k <= |s| && PipeTo(s, i, c, k) && BacksTo(s, k, c, c', l)
    ensures JobTo(s, i, c', l)
  {
  }

  lemma SimpleStep(s: string, i: nat, rs: seq<Redirection<Slice>>, k: nat, argv: seq<Slice>,
                   reds: seq<Redirection<Slice>>, l: nat)
    requires Line(s) && i <= |s| && k <= |s| && SkipSpace(s, i) == i && Ch(s, i) != '(' && RedirsTo(s, i, [], rs, k)
    requires ArgsTo(s, k, [], rs, argv, reds, l)
    ensures ExecTo(s, i, Wrap(Exec(argv), reds), l)
  {
  }

  predicate BlockTo(s: string, i: nat, c: Cmd<Slice>, k: nat)
    requires Line(s) && i <= |s| && Ch(s, i) == '('
  {
    match ParseBlock(s, i)
    case Good(v, pos) => v == c && pos == k
    case Bad(_) => false
  }

  lemma BlockBody(s: string, i: nat, i1: nat, c: Cmd<Slice>, k: nat, k1: nat, rs: seq<Redirection<Slice>>, l: nat)
    requires Line(s) && i < |s| && k < |s| && Ch(s, i) == '(' && GetToken(s, i).pos == i1
    requires LineTo(s, i1, c, k) && Look(s, k) == ')' && GetToken(s, k).pos == k1 && RedirsTo(s, k1, [], rs, l)
    ensures BlockTo(s, i, Wrap(c, rs), l)
  {
  }

  lemma BlockStep(s: string, i: nat, c: Cmd<Slice>, l: nat)
    requires Line(s) && i < |s| && SkipSpace(s, i) == i && Ch(s, i) == '(' && BlockTo(s, i, c, l)
    ensures ExecTo(s, i, c, l)
  {
  }

  // ---- the whole command ----

  function Size<W>(c: Cmd<W>): nat {
    match c
    case Exec(_) => 1
    case Redir(x, _, _) => Size(x) + 1
    case Pipe(l, r) => Size(l) + Size(r) + 1
    case List(l, r) => Size(l) + Size(r) + 1
    case Back(x) => Size(x) + 1
  }

  /** What the redirections of c are around, and the redirections. */
  function Base(c: Cmd<string>): Cmd<string> {
    if c.Redir? then Base(c.cmd) else c
  }

  function Reds(c: Cmd<string>): seq<Redirection<string>> {
    if c.Redir? then Reds(c.cmd) + [Redirection(c.file, c.mode)] else []
  }

  lemma {:induction false} PrintMoreRedirs(rs: seq<Redirection<string>>, r: Redirection<string>)
    ensures PrintRedirs(rs + [r]) == PrintRedirs(rs) + (Sign(r.mode) + r.file)
    decreases |rs|
  {
    if rs == [] {
      assert PrintRedirs([r][1..]) == "";
    } else {
      assert (rs + [r])[1..] == rs[1..] + [r];
      PrintMoreRedirs(rs[1..], r);
    }
  }

  lemma {:induction false} Unwrapped(c: Cmd<string>)
    requires Printable(c)
    ensures Wrap(Base(c), Reds(c)) == c && Printable(Base(c)) && FilesOk(Reds(c)) && !Base(c).Redir?
    ensures Size(Base(c)) + |Reds(c)| == Size(c)
    decreases c
  {
    if c.Redir? {
      Unwrapped(c.cmd);
      assert Reds(c)[..|Reds(c.cmd)|] == Reds(c.cmd);
    }
  }

  lemma {:induction false} UnwrappedPrint(c: Cmd<string>)
    ensures Print(c, 3) == Print(Base(c), 3) + PrintRedirs(Reds(c))
    decreases c
  {
    if c.Redir? {
      UnwrappedPrint(c.cmd);
      PrintMoreRedirs(Reds(c.cmd), Redirection(c.file, c.mode));
      Assoc(Print(Base(c), 3), PrintRedirs(Reds(c.cmd)), Sign(c.mode) + c.file);
    } else {
      assert PrintRedirs(Reds(c)) == "";
    }
  }

  lemma {:induction false} StartNotSpace(c: Cmd<string>, lv: nat, rest: string)
    requires Printable(c) && !IsSpace(Ch(rest, 0))
    ensures !IsSpace(Ch(Print(c, lv) + rest, 0))
    decreases c, lv
  {
    if Level(c) < lv {
      assert (Print(c, lv) + rest)[0] == '(';
    } else {
      match c
      case Exec(ws) =>
        if ws == [] { assert Print(c, lv) + rest == rest; }
        else { WordsStart(ws); assert (Print(c, lv) + rest)[0] == PrintWords(ws)[0]; }
      case Redir(x, file, mode) =>
        Assoc(Print(x, 3), Sign(mode) + file, rest);
        assert (Sign(mode) + file + rest)[0] == Sign(mode)[0];
        StartNotSpace(x, 3, Sign(mode) + file + rest);
      case Pipe(l, r) =>
        Assoc(Print(l, 3), "|" + Print(r, 2), rest);
        assert ("|" + Print(r, 2) + rest)[0] == '|';
        StartNotSpace(l, 3, "|" + Print(r, 2) + rest);
      case List(l, r) =>
        Assoc(Print(l, 1), ";" + Print(r, 0), rest);
        assert (";" + Print(r, 0) + rest)[0] == ';';
        StartNotSpace(l, 1, ";" + Print(r, 0) + rest);
      case Back(x) =>
        Assoc(Print(x, 1), "&", rest);
        assert ("&" + rest)[0] == '&';
        StartNotSpace(x, 1, "&" + rest);
    }
  }

  // ---- & signs ----

  function Core(c: Cmd<string>): Cmd<string> {
    if c.Back? then Core(c.cmd) else c
  }

  function Jobs(c: Cmd<string>): nat {
    if c.Back? then Jobs(c.cmd) + 1 else 0
  }

  function Amps(n: nat): string {
    if n == 0 then "" else "&" + Amps(n - 1)
  }

  function BackN<W>(c: Cmd<W>, n: nat): Cmd<W>
    decreases n
  {
    if n == 0 then c else BackN(Back(c), n - 1)
  }

  lemma {:induction false} AmpsMore(n: nat)
    ensures Amps(n + 1) == Amps(n) + "&" && |Amps(n)| == n
  {
    if n > 0 { AmpsMore(n - 1); }
  }

  lemma {:induction false} BackNOuter<W>(c: Cmd<W>, n: nat)
    ensures BackN(c, n + 1) == Back(BackN(c, n))
    decreases n
  {
    if n > 0 { BackNOuter(Back(c), n - 1); }
  }

  lemma {:induction false} JobParts(c: Cmd<string>)
    requires Printable(c)
    ensures c == BackN(Core(c), Jobs(c)) && Size(Core(c)) + Jobs(c) == Size(c) && Printable(Core(c)) && !Core(c).Back?
    ensures Print(c, 1) == Print(Core(c), 2) + Amps(Jobs(c))
    decreases c
  {
    if c.Back? {
      JobParts(c.cmd);
      BackNOuter(Core(c), Jobs(c.cmd));
      AmpsMore(Jobs(c.cmd));
      Assoc(Print(Core(c), 2), Amps(Jobs(c.cmd)), "&");
    } else {
      assert Amps(0) == "";
    }
  }

  lemma {:induction false} ResolveBackN(s: string, c: Cmd<Slice>, n: nat)
    ensures Resolve(s, BackN(c, n)) == BackN(Resolve(s, c), n)
    decreases n
  {
    if n > 0 { ResolveBackN(s, Back(c), n - 1); }
  }

  /** n & signs make n jobs of c. */
  lemma {:induction false} BacksBack(s: string, i: nat, c: Cmd<Slice>, n: nat, rest: string, k: nat)
    requires Line(s) && Shows(s, i, Amps(n), rest) && Follow(1, rest) && k == i + n
    ensures BacksTo(s, i, c, BackN(c, n), k)
    decreases n
  {
    if n == 0 {
      NoBacks(s, i, c, rest);
    } else {
      ShowsParts(s, i, "&", Amps(n - 1), rest);
      AmpsStart(n - 1, rest);
      SymToken(s, i, '&', Amps(n - 1) + rest);
      BacksBack(s, i + 1, Back(c), n - 1, rest, k);
      BackStep(s, i, c, BackN(c, n), k);
    }
  }

  lemma AmpsStart(n: nat, rest: string)
    requires Follow(1, rest)
    ensures !IsSpace(Ch(Amps(n) + rest, 0)) && Follow(2, Amps(n) + rest)
  {
    if n == 0 { assert Amps(n) + rest == rest; } else { assert (Amps(n) + rest)[0] == '&'; }
  }

  // ---- round trip ----

  predicate To(lv: nat, s: string, i: nat, c: Cmd<Slice>, k: nat)
    requires Line(s) && i <= |s|
  {
    if lv == 0 then LineTo(s, i, c, k) else if lv == 1 then JobTo(s, i, c, k) else if lv == 2 then PipeTo(s, i, c, k)
        else ExecTo(s, i, c, k)
  }

  lemma LiftPipe(lv: nat, s: string, i: nat, c: Cmd<Slice>, k: nat, rest: string)
    requires Line(s) && i <= |s| && lv <= 2 && PipeTo(s, i, c, k) && Shows(s, k, "", rest) && Follow(lv, rest)
    ensures To(lv, s, i, c, k)
  {
    if lv < 2 { PipeIsJob(s, i, c, k, rest); }
    if lv < 1 { JobIsLine(s, i, c, k, rest); }
  }

  lemma LiftExec(lv: nat, s: string, i: nat, c: Cmd<Slice>, k: nat, rest: string)
    requires Line(s) && i <= |s| && lv <= 3 && ExecTo(s, i, c, k) && Shows(s, k, "", rest) && Follow(lv, rest)
    ensures To(lv, s, i, c, k)
  {
    if lv < 3 {
      ExecIsPipe(s, i, c, k, rest);
      LiftPipe(lv, s, i, c, k, rest);
    }
  }

  lemma NoWords(s: string, i: nat, rs: seq<Redirection<string>>, rest: string, k: nat)
    returns (reds: seq<Redirection<Slice>>)
    requires Line(s) && Shows(s, i, PrintRedirs(rs), rest) && FilesOk(rs) && Ends(rest) && k == i + |PrintRedirs(rs)|
    ensures ExecTo(s, i, Wrap(Exec([]), reds), k) && Named(s, reds) == rs
  {
    reds := RedirsBack(s, i, [], rs, rest, k);
    assert Named(s, []) == [];
    ShowsRest(s, i, PrintRedirs(rs), rest);
    NoMoreArgs(s, k, [], reds, rest);
    AfterRedir(rs, rest);
    StartOf(s, i, PrintRedirs(rs), rest);
    SimpleStep(s, i, reds, k, [], reds, k);
  }

  lemma StartOf(s: string, i: nat, t: string, rest: string)
    requires Shows(s, i, t, rest) && !IsSpace(Ch(t + rest, 0))
    ensures i <= |s| && Ch(s, i) == Ch(t + rest, 0) && SkipSpace(s, i) == i
  {
    if i < |s| { assert s[i] == s[i..][0]; }
    NoSpace(s, i);
  }

  lemma SomeWords(s: string, i: nat, ws: seq<string>, rs: seq<Redirection<string>>, rest: string, k: nat)
    returns (argv: seq<Slice>, reds: seq<Redirection<Slice>>)
    requires Line(s) && ws != [] && Shows(s, i, PrintWords(ws) + PrintRedirs(rs), rest) && WordsOk(ws) && |ws| < MAXARGS
    requires FilesOk(rs) && Ends(rest)
    requires k == i + |PrintWords(ws)| + |PrintRedirs(rs)|
    ensures ExecTo(s, i, Wrap(Exec(argv), reds), k) && Texts(s, argv) == ws && Named(s, reds) == rs
  {
    WordsStart(ws);
    assert (PrintWords(ws) + PrintRedirs(rs) + rest)[0] == PrintWords(ws)[0];
    StartOf(s, i, PrintWords(ws) + PrintRedirs(rs), rest);
    NoRedir(s, i, []);
    argv, reds := ArgsBack(s, i, [], [], ws, rs, rest, k);
    assert Named(s, []) == [] && Texts(s, []) == [];
    SimpleStep(s, i, [], i, argv, reds, k);
  }

  /** A simple command with its redirections. */
  lemma SimpleBack(s: string, i: nat, ws: seq<string>, rs: seq<Redirection<string>>, rest: string, k: nat)
    returns (v: Cmd<Slice>)
    requires Line(s) && Shows(s, i, PrintWords(ws) + PrintRedirs(rs), rest) && WordsOk(ws) && |ws| < MAXARGS
    requires FilesOk(rs) && Ends(rest)
    requires k == i + |PrintWords(ws) + PrintRedirs(rs)|
    ensures ExecTo(s, i, v, k) && Resolve(s, v) == Wrap(Exec(ws), rs)
  {
    var argv, reds := [], [];
    if ws == [] {
      assert PrintWords(ws) + PrintRedirs(rs) == PrintRedirs(rs);
      reds := NoWords(s, i, rs, rest, k);
      assert Texts(s, []) == [];
    } else {
      argv, reds := SomeWords(s, i, ws, rs, rest, k);
    }
    v := Wrap(Exec(argv), reds);
    ResolveWrap(s, Exec(argv), reds);
  }

  /** A parenthesised line, already known to parse, with redirections after it. */
  lemma BlockBack(s: string, i: nat, i1: nat, v: Cmd<Slice>, j: nat, j1: nat, rs: seq<Redirection<string>>,
                  rest: string, k: nat) returns (c: Cmd<Slice>)
    requires Line(s) && i < |s| && j < |s| && Ch(s, i) == '(' && SkipSpace(s, i) == i && GetToken(s, i).pos == i1
    requires LineTo(s, i1, v, j)
    requires Look(s, j) == ')' && GetToken(s, j).pos == j1 && Shows(s, j1, PrintRedirs(rs), rest)
    requires k == j1 + |PrintRedirs(rs)|
    requires FilesOk(rs) && Ends(rest)
    ensures ExecTo(s, i, c, k) && Resolve(s, c) == Wrap(Resolve(s, v), rs)
  {
    var reds := RedirsBack(s, j1, [], rs, rest, k);
    NothingNamed(s, rs);
    BlockDone(s, i, i1, v, j, j1, reds, k);
    ResolveWrap(s, v, reds);
    c := Wrap(v, reds);
  }

  lemma NothingNamed(s: string, rs: seq<Redirection<string>>)
    ensures Named(s, []) + rs == rs
  {
  }

  lemma BlockDone(s: string, i: nat, i1: nat, v: Cmd<Slice>, j: nat, j1: nat, reds: seq<Redirection<Slice>>, k: nat)
    requires Line(s) && i < |s| && j < |s| && Ch(s, i) == '(' && SkipSpace(s, i) == i && GetToken(s, i).pos == i1
    requires LineTo(s, i1, v, j)
    requires Look(s, j) == ')' && GetToken(s, j).pos == j1 && RedirsTo(s, j1, [], reds, k)
    ensures ExecTo(s, i, Wrap(v, reds), k)
  {
    BlockBody(s, i, i1, v, j, j1, reds, k);
    BlockStep(s, i, Wrap(v, reds), k);
  }

  lemma BlockShape(s: string, i: nat, body: string, red: string, rest: string, j: nat)
    requires Line(s) && Shows(s, i, "(" + body + ")" + red, rest) && j == i + 1 + |body|
    requires !IsSpace(Ch(body + ")", 0)) && !IsSpace(Ch(red + rest, 0))
    ensures i < |s| && Ch(s, i) == '(' && SkipSpace(s, i) == i && GetToken(s, i).pos == i + 1
    ensures Shows(s, i + 1, body, ")" + (red + rest))
    ensures j < |s| && Look(s, j) == ')' && GetToken(s, j).pos == j + 1 && Shows(s, j + 1, red, rest)
  {
    ShowsParts(s, i, "(" + body + ")", red, rest);
    ShowsParts(s, i, "(" + body, ")", red + rest);
    ShowsParts(s, i, "(", body, ")" + (red + rest));
    assert Ch(body + (")" + (red + rest)), 0) == Ch(body + ")", 0);
    SymToken(s, i, '(', body + (")" + (red + rest)));
    SymToken(s, j, ')', red + rest);
  }

  lemma SizePositive<W>(c: Cmd<W>)
    ensures Size(c) > 0
  {
  }

  /** c in parentheses, with redirections, wherever a simple command may stand. */
  lemma ParenBack(c: Cmd<string>, rs: seq<Redirection<string>>, s: string, i: nat, rest: string, k: nat)
    returns (v: Cmd<Slice>)
    requires Printable(c) && FilesOk(rs) && Line(s) && Shows(s, i, "(" + Print(c, 0) + ")" + PrintRedirs(rs), rest)
    requires Ends(rest)
    requires k == i + |Print(c, 0)| + 2 + |PrintRedirs(rs)|
    ensures ExecTo(s, i, v, k) && Resolve(s, v) == Wrap(c, rs)
    decreases Size(c), 1
  {
    var j := i + 1 + |Print(c, 0)|;
    AfterRedir(rs, rest);
    StartNotSpace(c, 0, ")");
    BlockShape(s, i, Print(c, 0), PrintRedirs(rs), rest, j);
    var u := ParseBack(c, 0, s, i + 1, ")" + (PrintRedirs(rs) + rest), j);
    v := BlockBack(s, i, i + 1, u, j, j + 1, rs, rest, k);
  }

  lemma FollowNotSpace(lv: nat, rest: string)
    requires Follow(lv, rest)
    ensures !IsSpace(Ch(rest, 0))
  {
  }

  /** Two pieces with a separator between them. */
  lemma SepShape(s: string, i: nat, a: string, c: char, b: string, rest: string) returns (j: nat, j1: nat)
    requires Line(s) && Shows(s, i, a + ([c] + b), rest) && c in {'|', ';'} && !IsSpace(Ch(b + rest, 0))
    ensures j == i + |a| && j1 == j + 1 && j < |s| && Shows(s, i, a, [c] + b + rest) && Look(s, j) == c
    ensures GetToken(s, j).pos == j1 && Shows(s, j1, b, rest)
    ensures Follow(if c == '|' then 3 else 1, [c] + b + rest)
  {
    j, j1 := i + |a|, i + |a| + 1;
    ShowsParts(s, i, a, [c] + b, rest);
    ShowsParts(s, j, [c], b, rest);
    Assoc([c], b, rest);
    assert ([c] + b + rest)[0] == c;
    SymToken(s, j, c, b + rest);
  }

  lemma PipeBack(l: Cmd<string>, r: Cmd<string>, s: string, i: nat, rest: string, k: nat) returns (v: Cmd<Slice>)
    requires Printable(l) && Printable(r) && Line(s) && Shows(s, i, Print(l, 3) + ("|" + Print(r, 2)), rest)
    requires Follow(2, rest)
    requires k == i + |Print(l, 3)| + 1 + |Print(r, 2)|
    ensures PipeTo(s, i, v, k) && Resolve(s, v) == Pipe(l, r)
    decreases Size(l) + Size(r), 4
  {
    SizePositive(l);
    SizePositive(r);
    FollowNotSpace(2, rest);
    StartNotSpace(r, 2, rest);
    var after := "|" + Print(r, 2) + rest;
    var j, j1 := SepShape(s, i, Print(l, 3), '|', Print(r, 2), rest);
    var u := ParseBack(l, 3, s, i, after, j);
    var w := ParseBack(r, 2, s, j1, rest, k);
    PipeStep(s, i, u, j, j1, w, k);
    v := Pipe(u, w);
  }

  lemma ListBack(l: Cmd<string>, r: Cmd<string>, s: string, i: nat, rest: string, k: nat) returns (v: Cmd<Slice>)
    requires Printable(l) && Printable(r) && Line(s) && Shows(s, i, Print(l, 1) + (";" + Print(r, 0)), rest)
    requires Follow(0, rest)
    requires k == i + |Print(l, 1)| + 1 + |Print(r, 0)|
    ensures LineTo(s, i, v, k) && Resolve(s, v) == List(l, r)
    decreases Size(l) + Size(r), 4
  {
    SizePositive(l);
    SizePositive(r);
    FollowNotSpace(0, rest);
    StartNotSpace(r, 0, rest);
    var after := ";" + Print(r, 0) + rest;
    var j, j1 := SepShape(s, i, Print(l, 1), ';', Print(r, 0), rest);
    var u := ParseBack(l, 1, s, i, after, j);
    var w := ParseBack(r, 0, s, j1, rest, k);
    ListStep(s, i, u, j, j1, w, k);
    v := List(u, w);
  }

  lemma JobBack(core: Cmd<string>, n: nat, s: string, i: nat, rest: string, k: nat) returns (v: Cmd<Slice>)
    requires Printable(core) && Line(s) && Shows(s, i, Print(core, 2) + Amps(n), rest) && Follow(1, rest)
    requires k == i + |Print(core, 2)| + n
    ensures JobTo(s, i, v, k) && Resolve(s, v) == BackN(core, n)
    decreases Size(core), 4
  {
    var j := i + |Print(core, 2)|;
    ShowsParts(s, i, Print(core, 2), Amps(n), rest);
    AmpsStart(n, rest);
    var u := ParseBack(core, 2, s, i, Amps(n) + rest, j);
    BacksBack(s, j, u, n, rest, k);
    v := BackN(u, n);
    JobStep(s, i, u, j, v, k);
    ResolveBackN(s, u, n);
  }

  /** A printed command, where a command of level lv is expected, parses back to itself. */
  lemma {:induction false} ParseBack(c: Cmd<string>, lv: nat, s: string, i: nat, rest: string, k: nat)
    returns (v: Cmd<Slice>)
    requires Printable(c) && lv <= 3 && Line(s) && Shows(s, i, Print(c, lv), rest) && Follow(lv, rest)
    requires k == i + |Print(c, lv)|
    ensures To(lv, s, i, v, k) && Resolve(s, v) == c
    decreases Size(c), if Level(c) < lv then 3 else 0
  {
    ShowsRest(s, i, Print(c, lv), rest);
    FollowCh(lv, s, k, rest);
    if Level(c) < lv {
      v := ParenOnly(c, s, i, rest, k);
      LiftExec(lv, s, i, v, k, rest);
    } else if c.Pipe? {
      v := PipeBack(c.left, c.right, s, i, rest, k);
      LiftPipe(lv, s, i, v, k, rest);
    } else if c.List? {
      v := ListBack(c.left, c.right, s, i, rest, k);
    } else if c.Back? {
      JobParts(c);
      AmpsMore(Jobs(c));
      v := JobBack(Core(c), Jobs(c), s, i, rest, k);
      if lv == 0 { JobIsLine(s, i, v, k, rest); }
    } else {
      v := TightBack(c, s, i, rest, k);
      LiftExec(lv, s, i, v, k, rest);
    }
  }

  lemma ParenOnly(c: Cmd<string>, s: string, i: nat, rest: string, k: nat) returns (v: Cmd<Slice>)
    requires Printable(c) && Line(s) && Shows(s, i, "(" + Print(c, 0) + ")", rest) && Ends(rest)
    requires k == i + |Print(c, 0)| + 2
    ensures ExecTo(s, i, v, k) && Resolve(s, v) == c
    decreases Size(c), 2
  {
    assert PrintRedirs([]) == "";
    assert "(" + Print(c, 0) + ")" + PrintRedirs([]) == "(" + Print(c, 0) + ")";
    v := ParenBack(c, [], s, i, rest, k);
  }

  /** A simple command or block with redirections. */
  lemma TightBack(c: Cmd<string>, s: string, i: nat, rest: string, k: nat) returns (v: Cmd<Slice>)
    requires Printable(c) && (c.Exec? || c.Redir?) && Line(s) && Shows(s, i, Print(c, 3), rest) && Ends(rest)
    requires k == i + |Print(c, 3)|
    ensures ExecTo(s, i, v, k) && Resolve(s, v) == c
    decreases if c.Redir? then Size(c) - 1 else 0, 4
  {
    Unwrapped(c);
    UnwrappedPrint(c);
    var base, rs := Base(c), Reds(c);
    if base.Exec? {
      v := SimpleBack(s, i, base.argv, rs, rest, k);
    } else {
      v := ParenBack(base, rs, s, i, rest, k);
    }
  }

  /** Parsing the printing of a command gives the command. */
  lemma RoundTrip(c: Cmd<string>) returns (v: Cmd<Slice>)
    requires Printable(c)
    ensures Line(Print(c, 0)) && ParseCmd(Print(c, 0)) == Good(v, |Print(c, 0)|) && Resolve(Print(c, 0), v) == c
  {
    var s := Print(c, 0);
    NoNuls(c, 0);
    assert s + "" == s;
    v := ParseBack(c, 0, s, 0, "", |s|);
  }

  lemma {:induction false} NoNuls(c: Cmd<string>, lv: nat)
    requires Printable(c)
    ensures Line(Print(c, lv))
    decreases c, lv
  {
    if Level(c) < lv { NoNuls(c, 0); }
    else {
      match c
      case Exec(ws) => WordsNoNul(ws);
      case Redir(x, _, _) => NoNuls(x, 3);
      case Pipe(l, r) => NoNuls(l, 3); NoNuls(r, 2);
      case List(l, r) => NoNuls(l, 1); NoNuls(r, 0);
      case Back(x) => NoNuls(x, 1);
    }
  }

  lemma {:induction false} WordsNoNul(ws: seq<string>)
    requires WordsOk(ws)
    ensures Line(PrintWords(ws))
  {
    if ws != [] {
      assert WordOk(ws[0]);
      WordsNoNul(ws[1..]);
    }
  }
}
