/** What the shell's parser makes of a line depends on its tokens only: not on how they are
    spaced, and not on what else is in the line. */
module ShellTokens {
  import opened Prelude
  import opened ShellGrammar
  import opened ShellParser
  import opened ShellRoundTrip

  /** A token, with its text if it is a word. */
  datatype Tok = Tok(kind: Kind, text: string)

  function TokOf(s: string, t: Token): Tok {
    Tok(t.kind, if t.kind == Word then Text(s, t.word) else "")
  }

  /** The tokens from position i on. */
  function Toks(s: string, i: nat): seq<Tok>
    requires Line(s) && i <= |s|
    decreases |s| - i
  {
    var t := GetToken(s, i);
    if t.kind == End then [] else [TokOf(s, t)] + Toks(s, t.pos)
  }

  /** The same tokens are left in both lines. */
  predicate Same(s: string, i: nat, s': string, i': nat) {
    && Line(s) && Line(s') && i <= |s| && i' <= |s'|
    && Toks(s, i) == Toks(s', i')
  }

  /** A character that peek looks for is the kind of the next token. */
  lemma {:induction false} LookIsKind(s: string, i: nat)
    requires Line(s) && i <= |s|
    ensures Look(s, i) == '\0' <==> GetToken(s, i).kind == End
    ensures forall c :: c in {'|', '(', ')', ';', '&', '<'} ==> (Look(s, i) == c <==> GetToken(s, i).kind == Sym(c))
    ensures Look(s, i) == '>' <==> GetToken(s, i).kind == Sym('>') || GetToken(s, i).kind == Twice
    ensures SkipSpace(s, i) == |s| <==> GetToken(s, i).kind == End
    ensures GetToken(s, SkipSpace(s, i)) == GetToken(s, i)
  {
    SkipTwice(s, i);
  }

  lemma {:induction false} SkipSame(s: string, i: nat)
    requires Line(s) && i <= |s|
    ensures Toks(s, SkipSpace(s, i)) == Toks(s, i)
  {
    LookIsKind(s, i);
  }

  lemma {:induction false} HeadSame(s: string, i: nat, s': string, i': nat)
    requires Same(s, i, s', i')
    ensures var t, t' := GetToken(s, i), GetToken(s', i');
            && t.kind == t'.kind && (t.kind == Word ==> Text(s, t.word) == Text(s', t'.word))
            && (t.kind != End ==> Same(s, t.pos, s', t'.pos))
    ensures Same(s, SkipSpace(s, i), s', SkipSpace(s', i'))
  {
    var t, t' := GetToken(s, i), GetToken(s', i');
    SkipSame(s, i);
    SkipSame(s', i');
    if t.kind != End {
      assert Toks(s, i)[0] == TokOf(s, t) && Toks(s, i)[1..] == Toks(s, t.pos);
    }
    if t'.kind != End {
      assert Toks(s', i')[0] == TokOf(s', t') && Toks(s', i')[1..] == Toks(s', t'.pos);
    }
  }

  /** Whether the next character is one of those that peek is asked about. */
  lemma {:induction false} LookSame(s: string, i: nat, s': string, i': nat)
    requires Same(s, i, s', i')
    ensures Look(s, i) in {'<', '>'} <==> Look(s', i') in {'<', '>'}
    ensures Look(s, i) in {'|', ')', '&', ';'} <==> Look(s', i') in {'|', ')', '&', ';'}
    ensures Look(s, i) == '(' <==> Look(s', i') == '('
    ensures Look(s, i) == ')' <==> Look(s', i') == ')'
    ensures Look(s, i) == '|' <==> Look(s', i') == '|'
    ensures Look(s, i) == '&' <==> Look(s', i') == '&'
    ensures Look(s, i) == ';' <==> Look(s', i') == ';'
  {
    HeadSame(s, i, s', i');
    LookIsKind(s, i);
    LookIsKind(s', i');
  }

  /** A symbol that the parser asks for is next in both lines or in neither, and both go on
      after it alike. */
  lemma {:induction false} SymSame(s: string, i: nat, s': string, i': nat, c: char)
    requires Same(s, i, s', i') && c in {'|', ')', ';', '&'}
    ensures Look(s, i) == c <==> Look(s', i') == c
    ensures Look(s, i) == c ==> Same(s, GetToken(s, i).pos, s', GetToken(s', i').pos)
    ensures Same(s, SkipSpace(s, i), s', SkipSpace(s', i'))
  {
    LookSame(s, i, s', i');
    HeadSame(s, i, s', i');
    LookIsKind(s, i);
  }

  // ---- the parser on two such lines ----

  predicate SameRedirs(s: string, r: Parsed<seq<Redirection<Slice>>>, s': string,
                       r': Parsed<seq<Redirection<Slice>>>) {
    if r.Good? then r'.Good? && Named(s, r.v) == Named(s', r'.v) && Same(s, r.pos, s', r'.pos)
    else r'.Bad? && r.error == r'.error
  }

  lemma NamedMore(s: string, acc: seq<Redirection<Slice>>, s': string, acc': seq<Redirection<Slice>>, w: Slice,
                  w': Slice, m: Mode)
    requires Named(s, acc) == Named(s', acc') && Text(s, w) == Text(s', w')
    ensures Named(s, acc + [Redirection(w, m)]) == Named(s', acc' + [Redirection(w', m)])
  {
    var one := Redirection(Text(s, w), m);
    assert Named(s, acc + [Redirection(w, m)]) == Named(s, acc) + [one];
    assert Named(s', acc' + [Redirection(w', m)]) == Named(s', acc') + [one];
  }

  lemma {:induction false} RedirsSame(s: string, i: nat, acc: seq<Redirection<Slice>>, s': string, i': nat,
                                      acc': seq<Redirection<Slice>>)
    requires Same(s, i, s', i') && Named(s, acc) == Named(s', acc')
    ensures SameRedirs(s, ParseRedirs(s, i, acc), s', ParseRedirs(s', i', acc'))
    decreases |s| - i
  {
    LookSame(s, i, s', i');
    HeadSame(s, i, s', i');
    LookIsKind(s, i);
    LookIsKind(s', i');
    if Look(s, i) in {'<', '>'} {
      var t, t' := GetToken(s, i), GetToken(s', i');
      HeadSame(s, t.pos, s', t'.pos);
      var w, w' := GetToken(s, t.pos), GetToken(s', t'.pos);
      if w.kind == Word {
        NamedMore(s, acc, s', acc', w.word, w'.word, ModeOf(t.kind));
        RedirsSame(s, w.pos, acc + [Redirection(w.word, ModeOf(t.kind))], s', w'.pos,
                   acc' + [Redirection(w'.word, ModeOf(t'.kind))]);
      }
    }
  }

  predicate SameArgs(s: string, r: Parsed<(seq<Slice>, seq<Redirection<Slice>>)>, s': string,
                     r': Parsed<(seq<Slice>, seq<Redirection<Slice>>)>) {
    if r.Good? then
      && r'.Good? && Texts(s, r.v.0) == Texts(s', r'.v.0) && Named(s, r.v.1) == Named(s', r'.v.1)
      && Same(s, r.pos, s', r'.pos)
    else r'.Bad? && r.error == r'.error
  }

  lemma TextsMore(s: string, argv: seq<Slice>, s': string, argv': seq<Slice>, w: Slice, w': Slice)
    requires Texts(s, argv) == Texts(s', argv') && Text(s, w) == Text(s', w')
    ensures Texts(s, argv + [w]) == Texts(s', argv' + [w']) && |argv| == |argv'|
  {
    assert Texts(s, argv + [w]) == Texts(s, argv) + [Text(s, w)];
    assert Texts(s', argv' + [w']) == Texts(s', argv') + [Text(s, w)];
    assert |Texts(s, argv)| == |argv| && |Texts(s', argv')| == |argv'|;
  }

  lemma {:induction false} ArgsSame(s: string, i: nat, argv: seq<Slice>, acc: seq<Redirection<Slice>>, s': string,
                                    i': nat, argv': seq<Slice>, acc': seq<Redirection<Slice>>)
    requires Same(s, i, s', i') && Texts(s, argv) == Texts(s', argv') && Named(s, acc) == Named(s', acc')
    ensures SameArgs(s, ParseArgs(s, i, argv, acc), s', ParseArgs(s', i', argv', acc'))
    decreases |s| - i
  {
    LookSame(s, i, s', i');
    HeadSame(s, i, s', i');
    LookIsKind(s, i);
    LookIsKind(s', i');
    var t, t' := GetToken(s, i), GetToken(s', i');
    assert |Texts(s, argv)| == |argv| && |Texts(s', argv')| == |argv'|;
    if Look(s, i) !in {'|', ')', '&', ';'} {
      if t.kind == End {
        EndSame(s, i, s', i');
      } else if t.kind == Word && |argv| + 1 < MAXARGS {
        RedirsSame(s, t.pos, acc, s', t'.pos, acc');
        var r, r' := ParseRedirs(s, t.pos, acc), ParseRedirs(s', t'.pos, acc');
        if r.Good? {
          TextsMore(s, argv, s', argv', t.word, t'.word);
          ArgsSame(s, r.pos, argv + [t.word], r.v, s', r'.pos, argv' + [t'.word], r'.v);
        }
      }
    }
  }

  /** At the end there is nothing left. */
  lemma {:induction false} EndSame(s: string, i: nat, s': string, i': nat)
    requires Line(s) && Line(s') && i <= |s| && i' <= |s'|
    requires GetToken(s, i).kind == End && GetToken(s', i').kind == End
    ensures Same(s, GetToken(s, i).pos, s', GetToken(s', i').pos)
  {
    LookIsKind(s, i);
    LookIsKind(s', i');
    SkipTwice(s, i);
    SkipTwice(s', i');
  }

  /** The same command, as text, and the same tokens after it; or the same error. */
  predicate Alike(s: string, r: Parsed<Cmd<Slice>>, s': string, r': Parsed<Cmd<Slice>>) {
    if r.Good? then r'.Good? && Resolve(s, r.v) == Resolve(s', r'.v) && Same(s, r.pos, s', r'.pos)
    else r'.Bad? && r.error == r'.error
  }

  lemma {:induction false} ExecSame(s: string, i: nat, s': string, i': nat)
    requires Same(s, i, s', i')
    ensures Alike(s, ParseExec(s, i), s', ParseExec(s', i'))
    decreases |s| - i, 1
  {
    LookSame(s, i, s', i');
    HeadSame(s, i, s', i');
    var j, j' := SkipSpace(s, i), SkipSpace(s', i');
    if Look(s, i) == '(' {
      BlockSame(s, j, s', j');
    } else {
      RedirsSame(s, j, [], s', j', []);
      var r, r' := ParseRedirs(s, j, []), ParseRedirs(s', j', []);
      if r.Good? {
        ArgsSame(s, r.pos, [], r.v, s', r'.pos, [], r'.v);
        var a, a' := ParseArgs(s, r.pos, [], r.v), ParseArgs(s', r'.pos, [], r'.v);
        if a.Good? {
          ResolveWrap(s, Exec(a.v.0), a.v.1);
          ResolveWrap(s', Exec(a'.v.0), a'.v.1);
        }
      }
    }
  }

  lemma {:induction false} BlockSame(s: string, i: nat, s': string, i': nat)
    requires Same(s, i, s', i') && Ch(s, i) == '(' && Ch(s', i') == '('
    ensures Alike(s, ParseBlock(s, i), s', ParseBlock(s', i'))
    decreases |s| - i, 0
  {
    HeadSame(s, i, s', i');
    var j, j' := GetToken(s, i).pos, GetToken(s', i').pos;
    LineSame(s, j, s', j');
    var c, c' := ParseLine(s, j), ParseLine(s', j');
    if c.Good? {
      SymSame(s, c.pos, s', c'.pos, ')');
      if Look(s, c.pos) == ')' {
        var l, l' := GetToken(s, c.pos).pos, GetToken(s', c'.pos).pos;
        RedirsSame(s, l, [], s', l', []);
        var r, r' := ParseRedirs(s, l, []), ParseRedirs(s', l', []);
        if r.Good? {
          ResolveWrap(s, c.v, r.v);
          ResolveWrap(s', c'.v, r'.v);
        }
      }
    }
  }

  lemma {:induction false} PipeSame(s: string, i: nat, s': string, i': nat)
    requires Same(s, i, s', i')
    ensures Alike(s, ParsePipe(s, i), s', ParsePipe(s', i'))
    decreases |s| - i, 2
  {
    ExecSame(s, i, s', i');
    var c, c' := ParseExec(s, i), ParseExec(s', i');
    if c.Good? {
      SymSame(s, c.pos, s', c'.pos, '|');
      if Look(s, c.pos) == '|' { PipeSame(s, GetToken(s, c.pos).pos, s', GetToken(s', c'.pos).pos); }
    }
  }

  lemma {:induction false} BacksSame(s: string, i: nat, c: Cmd<Slice>, s': string, i': nat, c': Cmd<Slice>)
    requires Same(s, i, s', i') && Resolve(s, c) == Resolve(s', c')
    ensures Alike(s, ParseBacks(s, i, c), s', ParseBacks(s', i', c'))
    decreases |s| - i
  {
    SymSame(s, i, s', i', '&');
    if Look(s, i) == '&' {
      var j, j' := GetToken(s, i).pos, GetToken(s', i').pos;
      BackResolves(s, c, s', c');
      BacksSame(s, j, Back(c), s', j', Back(c'));
      OneBack(s, i, c, j);
      OneBack(s', i', c', j');
    } else {
      NoBack(s, i, c);
      NoBack(s', i', c');
    }
  }

  lemma {:induction false} BackResolves(s: string, c: Cmd<Slice>, s': string, c': Cmd<Slice>)
    requires Resolve(s, c) == Resolve(s', c')
    ensures Resolve(s, Back(c)) == Resolve(s', Back(c'))
  {
  }

  lemma {:induction false} OneBack(s: string, i: nat, c: Cmd<Slice>, j: nat)
    requires Line(s) && i <= |s| && Look(s, i) == '&' && j == GetToken(s, i).pos
    ensures ParseBacks(s, i, c) == ParseBacks(s, j, Back(c))
  {
  }

  lemma {:induction false} NoBack(s: string, i: nat, c: Cmd<Slice>)
    requires Line(s) && i <= |s| && Look(s, i) != '&'
    ensures ParseBacks(s, i, c) == Good(c, SkipSpace(s, i))
  {
  }

  lemma {:induction false} JobSame(s: string, i: nat, s': string, i': nat) returns (c: Parsed<Cmd<Slice>>,
                                                                                    c': Parsed<Cmd<Slice>>)
    requires Same(s, i, s', i')
    ensures c == ParsePipe(s, i) && c' == ParsePipe(s', i') && Alike(s, c, s', c')
    ensures c.Good? ==> i <= c.pos <= |s| && c'.pos <= |s'|
                        && Alike(s, ParseBacks(s, c.pos, c.v), s', ParseBacks(s', c'.pos, c'.v))
    decreases |s| - i, 3
  {
    PipeSame(s, i, s', i');
    c, c' := ParsePipe(s, i), ParsePipe(s', i');
    if c.Good? { BacksSame(s, c.pos, c.v, s', c'.pos, c'.v); }
  }

  /** What parseline makes of its first job b and of the rest r of the list, if there is one. */
  function Listed(s: string, b: Parsed<Cmd<Slice>>, r: Parsed<Cmd<Slice>>): Parsed<Cmd<Slice>>
    requires b.Good? && b.pos <= |s|
  {
    if Look(s, b.pos) != ';' then Good(b.v, SkipSpace(s, b.pos))
    else if r.Bad? then r
    else Good(List(b.v, r.v), r.pos)
  }

  lemma {:induction false} LineIs(s: string, i: nat, c: Parsed<Cmd<Slice>>, b: Parsed<Cmd<Slice>>,
                                  r: Parsed<Cmd<Slice>>)
    requires Line(s) && i <= |s| && c == ParsePipe(s, i) && c.Good? && b == ParseBacks(s, c.pos, c.v)
    requires Look(s, b.pos) == ';' ==> r == ParseLine(s, GetToken(s, b.pos).pos)
    ensures ParseLine(s, i) == Listed(s, b, r)
  {
  }

  lemma {:induction false} ListedSame(s: string, b: Parsed<Cmd<Slice>>, r: Parsed<Cmd<Slice>>, s': string,
                                      b': Parsed<Cmd<Slice>>, r': Parsed<Cmd<Slice>>)
    requires b.Good? && Alike(s, b, s', b')
    requires Look(s, b.pos) == ';' ==> Alike(s, r, s', r')
    ensures Alike(s, Listed(s, b, r), s', Listed(s', b', r'))
  {
    SymSame(s, b.pos, s', b'.pos, ';');
  }

  lemma {:induction false} LineSame(s: string, i: nat, s': string, i': nat)
    requires Same(s, i, s', i')
    ensures Alike(s, ParseLine(s, i), s', ParseLine(s', i'))
    decreases |s| - i, 4
  {
    var c, c' := JobSame(s, i, s', i');
    if c.Good? {
      var b, b' := ParseBacks(s, c.pos, c.v), ParseBacks(s', c'.pos, c'.v);
      var r, r' := RestSame(s, i, b, s', b');
      LineIs(s, i, c, b, r);
      LineIs(s', i', c', b', r');
      ListedSame(s, b, r, s', b', r');
    }
  }

  lemma {:induction false} RestSame(s: string, i: nat, b: Parsed<Cmd<Slice>>, s': string, b': Parsed<Cmd<Slice>>)
    returns (r: Parsed<Cmd<Slice>>, r': Parsed<Cmd<Slice>>)
    requires b.Good? && Alike(s, b, s', b') && i <= b.pos
    ensures Look(s, b.pos) == ';' <==> Look(s', b'.pos) == ';'
    ensures Look(s, b.pos) == ';' ==>
              && r == ParseLine(s, GetToken(s, b.pos).pos) && r' == ParseLine(s', GetToken(s', b'.pos).pos)
              && Alike(s, r, s', r')
    decreases |s| - i, 3
  {
    SymSame(s, b.pos, s', b'.pos, ';');
    r, r' := b, b';
    if Look(s, b.pos) == ';' {
      var j, j' := GetToken(s, b.pos).pos, GetToken(s', b'.pos).pos;
      r, r' := ParseLine(s, j), ParseLine(s', j');
      LineSame(s, j, s', j');
    }
  }

  /** Two lines with the same tokens are both refused, for the same reason, or both accepted
      as the same command. */
  lemma {:induction false} TokensDecide(s: string, s': string)
    requires Line(s) && Line(s') && Toks(s, 0) == Toks(s', 0)
    ensures ParseCmd(s).Good? <==> ParseCmd(s').Good?
    ensures ParseCmd(s).Good? ==> Resolve(s, ParseCmd(s).v) == Resolve(s', ParseCmd(s').v)
    ensures ParseCmd(s).Bad? ==> ParseCmd(s).error == ParseCmd(s').error
  {
    LineSame(s, 0, s', 0);
    var r, r' := ParseLine(s, 0), ParseLine(s', 0);
    if r.Good? {
      HeadSame(s, r.pos, s', r'.pos);
      LookIsKind(s, r.pos);
      LookIsKind(s', r'.pos);
    }
  }

  // ---- blanks ----

  lemma {:induction false} SkipBlanks(s: string, i: nat, n: nat)
    requires i + n <= |s| && (forall k :: i <= k < i + n ==> IsSpace(s[k])) && !IsSpace(Ch(s, i + n))
    ensures SkipSpace(s, i) == i + n
    decreases n
  {
    if n > 0 { SkipBlanks(s, i + 1, n - 1); }
  }

  lemma {:induction false} SkipWithBlanks(s: string, b: string, i: nat)
    requires i <= |s| && Blank(b)
    ensures SkipSpace(s + b, i) == if SkipSpace(s, i) < |s| then SkipSpace(s, i) else |s + b|
  {
    var j := SkipSpace(s, i);
    forall k | i <= k < j
      ensures IsSpace((s + b)[k])
    {
      Skipped(s, i, k);
    }
    forall k | |s| <= k < |s + b|
      ensures IsSpace((s + b)[k])
    {
      assert (s + b)[k] == b[k - |s|];
    }
    SkipBlanks(s + b, i, if j < |s| then j - i else |s + b| - i);
  }

  lemma {:induction false} WordWithBlanks(s: string, b: string, i: nat)
    requires i <= |s| && Blank(b)
    ensures WordEnd(s + b, i) == WordEnd(s, i)
    decreases |s| - i
  {
    if i < |s| {
      if !IsSpace(s[i]) && !IsSymbol(s[i]) { WordWithBlanks(s, b, i + 1); }
    } else if b != "" {
      assert (s + b)[i] == b[0];
    }
  }

  lemma LineWithBlanks(s: string, b: string)
    requires Line(s) && Blank(b)
    ensures Line(s + b)
  {
  }

  lemma {:induction false} TokenWithBlanks(s: string, b: string, i: nat)
    requires Line(s) && Line(s + b) && i <= |s| && Blank(b)
    ensures var t, t' := GetToken(s, i), GetToken(s + b, i);
            && t'.kind == t.kind && (t.kind != End ==> t'.word == t.word && t.word.eq <= |s|)
            && t'.pos == if t.pos < |s| then t.pos else |s + b|
  {
    SkipWithBlanks(s, b, i);
    var q := SkipSpace(s, i);
    if q < |s| {
      BodyWithBlanks(s, b, i, q);
      TokenParts(s, i);
      TokenParts(s + b, i);
      SkipWithBlanks(s, b, GetToken(s, i).word.eq);
    }
  }

  lemma {:induction false} BodyWithBlanks(s: string, b: string, i: nat, q: nat)
    requires Line(s) && Line(s + b) && i <= q < |s| && Blank(b) && SkipSpace(s, i) == q == SkipSpace(s + b, i)
    ensures GetToken(s + b, i).kind == GetToken(s, i).kind != End && GetToken(s + b, i).word == GetToken(s, i).word
  {
    WordWithBlanks(s, b, q);
    assert (s + b)[q] == s[q];
    if q + 1 == |s| && b != "" { assert (s + b)[q + 1] == b[0]; }
  }

  lemma {:induction false} NothingLeft(s: string)
    requires Line(s)
    ensures Toks(s, |s|) == []
  {
  }

  lemma {:induction false} ToksWithBlanks(s: string, b: string, i: nat)
    requires Line(s) && Line(s + b) && i <= |s| && Blank(b)
    ensures Toks(s + b, i) == Toks(s, i)
    decreases |s| - i
  {
    TokenWithBlanks(s, b, i);
    var t, t' := GetToken(s, i), GetToken(s + b, i);
    if t.kind != End {
      assert (s + b)[t.word.q..t.word.eq] == s[t.word.q..t.word.eq];
      if t.pos < |s| {
        ToksWithBlanks(s, b, t.pos);
      } else {
        NothingLeft(s);
        NothingLeft(s + b);
      }
    }
  }

  /** A line is read as if the blanks at its end, and the newline that gets() leaves there,
      were not there. */
  lemma {:induction false} TrailingBlanks(s: string, b: string)
    requires Line(s) && Blank(b)
    ensures Line(s + b) && (ParseCmd(s + b).Good? <==> ParseCmd(s).Good?)
    ensures ParseCmd(s).Good? ==> Resolve(s + b, ParseCmd(s + b).v) == Resolve(s, ParseCmd(s).v)
    ensures ParseCmd(s).Bad? ==> ParseCmd(s + b).error == ParseCmd(s).error
  {
    LineWithBlanks(s, b);
    ToksWithBlanks(s, b, 0);
    TokensDecide(s, s + b);
  }

  // ---- words and blanks ----

  function WordToks(ws: seq<string>): seq<Tok> {
    seq(|ws|, k requires 0 <= k < |ws| => Tok(Word, ws[k]))
  }

  /** Each word with the blanks after it. */
  function Spaced(ws: seq<string>, bs: seq<string>): string
    requires |bs| == |ws|
  {
    if ws == [] then "" else ws[0] + (bs[0] + Spaced(ws[1..], bs[1..]))
  }

  /** All of them blank, and something between two words. */
  predicate Separate(bs: seq<string>) {
    && (forall k :: 0 <= k < |bs| ==> Blank(bs[k]))
    && (forall k :: 0 <= k < |bs| - 1 ==> bs[k] != "")
  }

  lemma SpacedStart(ws: seq<string>, bs: seq<string>)
    requires |bs| == |ws| && WordsOk(ws)
    ensures !IsSpace(Ch(Spaced(ws, bs), 0)) && (ws == [] ==> Spaced(ws, bs) == "")
  {
    if ws != [] {
      assert WordOk(ws[0]);
      assert Spaced(ws, bs)[0] == ws[0][0];
    }
  }

  lemma {:induction false} SpacedLine(ws: seq<string>, bs: seq<string>)
    requires |bs| == |ws| && WordsOk(ws) && Separate(bs)
    ensures Line(Spaced(ws, bs))
    decreases |ws|
  {
    if ws != [] {
      assert WordOk(ws[0]) && Blank(bs[0]);
      SpacedLine(ws[1..], bs[1..]);
    }
  }

  /** One word and the blanks after it. */
  lemma {:induction false} SpacedToken(s: string, i: nat, w: string, b: string, rest: string)
    requires Line(s) && Shows(s, i, w + b, rest) && WordOk(w) && Blank(b) && !IsSpace(Ch(rest, 0))
    requires b == "" ==> rest == ""
    ensures var t := GetToken(s, i);
            t.kind == Word && Text(s, t.word) == w && t.pos == i + |w| + |b| && Shows(s, t.pos, rest, "")
  {
    ShowsParts(s, i, w, b, rest);
    BlankCh(b, rest);
    WordToken(s, i, w, b + rest);
    SkipShown(s, i + |w|, b, rest);
  }

  lemma BlankCh(b: string, rest: string)
    requires Blank(b) && (b == "" ==> rest == "")
    ensures !IsWord(Ch(b + rest, 0))
  {
    if b != "" { assert (b + rest)[0] == b[0]; } else { assert b + rest == ""; }
  }

  lemma {:induction false} SkipShown(s: string, n: nat, b: string, rest: string)
    requires Shows(s, n, b, rest) && Blank(b) && !IsSpace(Ch(rest, 0))
    ensures SkipSpace(s, n) == n + |b| && Shows(s, n + |b|, rest, "")
  {
    ShowsText(s, n, b, rest);
    forall k | n <= k < n + |b|
      ensures IsSpace(s[k])
    {
      assert s[n + (k - n)] == b[k - n];
    }
    SkipBlanks(s, n, |b|);
    ShowsRest(s, n, b, rest);
    assert rest + "" == rest && "" + rest == rest;
  }

  lemma {:induction false} SpacedToks(s: string, i: nat, ws: seq<string>, bs: seq<string>)
    requires Line(s) && |bs| == |ws| && Shows(s, i, Spaced(ws, bs), "") && WordsOk(ws) && Separate(bs)
    ensures Toks(s, i) == WordToks(ws)
    decreases |ws|
  {
    if ws == [] {
      NothingLeft(s);
    } else {
      var t := FirstSpaced(s, i, ws, bs);
      SpacedToks(s, t.pos, ws[1..], bs[1..]);
      OneTok(s, i, t, WordToks(ws[1..]));
      assert WordToks(ws) == [Tok(Word, ws[0])] + WordToks(ws[1..]);
    }
  }

  lemma {:induction false} OneTok(s: string, i: nat, t: Token, rest: seq<Tok>)
    requires Line(s) && i <= |s| && t == GetToken(s, i) && t.kind != End && t.pos <= |s| && Toks(s, t.pos) == rest
    ensures Toks(s, i) == [TokOf(s, t)] + rest
  {
  }

  lemma {:induction false} FirstSpaced(s: string, i: nat, ws: seq<string>, bs: seq<string>) returns (t: Token)
    requires Line(s) && |bs| == |ws| && ws != [] && Shows(s, i, Spaced(ws, bs), "") && WordsOk(ws) && Separate(bs)
    ensures t == GetToken(s, i) && t.kind == Word && Text(s, t.word) == ws[0] && t.pos <= |s|
    ensures Shows(s, t.pos, Spaced(ws[1..], bs[1..]), "")
  {
    var w, b, rest := ws[0], bs[0], Spaced(ws[1..], bs[1..]);
    Assoc(w, b, rest);
    assert s[i..] == (w + b) + rest;
    SpacedStart(ws[1..], bs[1..]);
    assert WordOk(w) && Blank(b) && (|ws| > 1 ==> b != "");
    SpacedToken(s, i, w, b, rest);
    t := GetToken(s, i);
  }

  lemma {:induction false} LeadingToks(b: string, s: string)
    requires Line(b + s) && Blank(b) && !IsSpace(Ch(s, 0))
    ensures Toks(b + s, 0) == Toks(b + s, |b|)
  {
    forall k | 0 <= k < |b|
      ensures IsSpace((b + s)[k])
    {
      assert (b + s)[k] == b[k];
    }
    if s != "" { assert (b + s)[|b|] == s[0]; }
    SkipBlanks(b + s, 0, |b|);
    SkipSame(b + s, 0);
  }

  /** One blank between two words, as PrintWords writes them. */
  function OneBlankEach(n: nat): seq<string> {
    seq(n, k => if k + 1 < n then " " else "")
  }

  lemma {:induction false} PrintIsSpaced(ws: seq<string>)
    ensures PrintWords(ws) == Spaced(ws, OneBlankEach(|ws|)) && Separate(OneBlankEach(|ws|))
    decreases |ws|
  {
    if ws != [] {
      PrintIsSpaced(ws[1..]);
      assert OneBlankEach(|ws|)[1..] == OneBlankEach(|ws| - 1);
      if |ws| == 1 {
        assert ws[0] + ("" + "") == ws[0];
      } else {
        Assoc(ws[0], " ", PrintWords(ws[1..]));
      }
    }
  }

  /** Words separated and surrounded by blanks of any kind and number are the simple command
      of these words if there are at most nine of them, and refused if there are more. */
  lemma {:induction false} WordsAmongBlanks(b: string, ws: seq<string>, bs: seq<string>)
    requires |bs| == |ws| && WordsOk(ws) && Blank(b) && Separate(bs)
    ensures Line(b + Spaced(ws, bs))
    ensures |ws| <= 9 ==>
              && ParseCmd(b + Spaced(ws, bs)).Good?
              && Resolve(b + Spaced(ws, bs), ParseCmd(b + Spaced(ws, bs)).v) == Exec(ws)
    ensures |ws| > 9 ==> ParseCmd(b + Spaced(ws, bs)) == Bad(TooManyArgs)
  {
    if |ws| <= 9 { FewWords(b, ws, bs); } else { ManyWords(b, ws, bs); }
  }

  lemma {:induction false} FewWords(b: string, ws: seq<string>, bs: seq<string>)
    requires |bs| == |ws| <= 9 && WordsOk(ws) && Blank(b) && Separate(bs)
    ensures Line(b + Spaced(ws, bs)) && ParseCmd(b + Spaced(ws, bs)).Good?
    ensures Resolve(b + Spaced(ws, bs), ParseCmd(b + Spaced(ws, bs)).v) == Exec(ws)
  {
    var s, plain := b + Spaced(ws, bs), PrintWords(ws);
    SpacedStart(ws, bs);
    SpacedLine(ws, bs);
    LeadingToks(b, Spaced(ws, bs));
    assert s[|b|..] == Spaced(ws, bs) + "";
    SpacedToks(s, |b|, ws, bs);
    PrintIsSpaced(ws);
    var v := RoundTrip(Exec(ws));
    assert plain == Print(Exec(ws), 0);
    assert plain[0..] == plain + "";
    SpacedToks(plain, 0, ws, OneBlankEach(|ws|));
    TokensDecide(plain, s);
  }

  lemma {:induction false} ManyArgs(s: string, i: nat, argv: seq<Slice>, ws: seq<string>, bs: seq<string>)
    requires Line(s) && |bs| == |ws| && Shows(s, i, Spaced(ws, bs), "") && WordsOk(ws) && Separate(bs)
    requires |argv| <= 9 < |argv| + |ws|
    ensures ParseArgs(s, i, argv, []) == Bad(TooManyArgs)
    decreases |ws|
  {
    var t := FirstSpaced(s, i, ws, bs);
    LookIsKind(s, i);
    if |argv| < 9 {
      SpacedPeek(s, t.pos, ws[1..], bs[1..]);
      ManyArgs(s, t.pos, argv + [t.word], ws[1..], bs[1..]);
    }
  }

  /** No redirection stands before a word. */
  lemma {:induction false} SpacedPeek(s: string, i: nat, ws: seq<string>, bs: seq<string>)
    requires Line(s) && |bs| == |ws| && ws != [] && Shows(s, i, Spaced(ws, bs), "") && WordsOk(ws) && Separate(bs)
    ensures ParseRedirs(s, i, []) == Good([], i) && Look(s, i) != '('
  {
    SpacedStart(ws, bs);
    ShowsText(s, i, Spaced(ws, bs), "");
    assert WordOk(ws[0]) && Spaced(ws, bs)[0] == ws[0][0] && s[i + 0] == Spaced(ws, bs)[0];
    NoSpace(s, i);
  }

  lemma {:induction false} ManyWords(b: string, ws: seq<string>, bs: seq<string>)
    requires |bs| == |ws| > 9 && WordsOk(ws) && Blank(b) && Separate(bs)
    ensures Line(b + Spaced(ws, bs)) && ParseCmd(b + Spaced(ws, bs)) == Bad(TooManyArgs)
  {
    var s := b + Spaced(ws, bs);
    SpacedStart(ws, bs);
    SpacedLine(ws, bs);
    assert s[|b|..] == Spaced(ws, bs) + "" && s[0..] == b + Spaced(ws, bs);
    SkipShown(s, 0, b, Spaced(ws, bs));
    SpacedPeek(s, |b|, ws, bs);
    ManyArgs(s, |b|, [], ws, bs);
    SkipTwice(s, 0);
    assert ParseExec(s, 0) == Bad(TooManyArgs);
    assert ParsePipe(s, 0) == Bad(TooManyArgs);
    assert ParseLine(s, 0) == Bad(TooManyArgs);
  }

  // ---- parentheses ----

  /** Opening parentheses less closing ones in s[i..j]. */
  function Net(s: string, i: nat, j: nat): int
    requires i <= j <= |s|
  {
    multiset(s[i..j])['('] as int - multiset(s[i..j])[')'] as int
  }

  lemma NetAdd(s: string, i: nat, j: nat, k: nat)
    requires i <= j <= k <= |s|
    ensures Net(s, i, k) == Net(s, i, j) + Net(s, j, k)
  {
    assert s[i..k] == s[i..j] + s[j..k];
  }

  lemma {:induction false} NetNone(s: string, i: nat, j: nat)
    requires i <= j <= |s| && forall k :: i <= k < j ==> s[k] != '(' && s[k] != ')'
    ensures Net(s, i, j) == 0
  {
    assert '(' !in s[i..j] && ')' !in s[i..j];
  }

  lemma {:induction false} SkipNet(s: string, i: nat)
    requires i <= |s|
    ensures Net(s, i, SkipSpace(s, i)) == 0
  {
    forall k | i <= k < SkipSpace(s, i)
      ensures s[k] != '(' && s[k] != ')'
    {
      Skipped(s, i, k);
    }
    NetNone(s, i, SkipSpace(s, i));
  }

  function Weight(k: Kind): int {
    if k == Sym('(') then 1 else if k == Sym(')') then -1 else 0
  }

  lemma {:induction false} WordNet(s: string, t: Token, i: nat)
    requires Line(s) && i <= |s| && t == GetToken(s, i)
    ensures Net(s, t.word.q, t.word.eq) == Weight(t.kind)
  {
    var q, e := t.word.q, t.word.eq;
    if t.kind.Sym? {
      assert s[q..e] == [t.kind.c];
    } else {
      NetNone(s, q, e);
    }
  }

  lemma {:induction false} TokenNet(s: string, i: nat)
    requires Line(s) && i <= |s|
    ensures Net(s, i, GetToken(s, i).pos) == Weight(GetToken(s, i).kind)
  {
    var t := GetToken(s, i);
    TokenParts(s, i);
    SkipNet(s, i);
    WordNet(s, t, i);
    SkipNet(s, t.word.eq);
    NetThree(s, i, t.word.q, t.word.eq, t.pos);
  }

  lemma {:induction false} TokenParts(s: string, i: nat)
    requires i <= |s|
    ensures GetToken(s, i).word.q == SkipSpace(s, i) && GetToken(s, i).pos == SkipSpace(s, GetToken(s, i).word.eq)
  {
  }

  lemma NetThree(s: string, i: nat, j: nat, k: nat, l: nat)
    requires i <= j <= k <= l <= |s|
    ensures Net(s, i, l) == Net(s, i, j) + Net(s, j, k) + Net(s, k, l)
  {
    NetAdd(s, i, j, k);
    NetAdd(s, i, k, l);
  }

  lemma {:induction false} RedirsNet(s: string, i: nat, acc: seq<Redirection<Slice>>)
    requires Line(s) && i <= |s| && ParseRedirs(s, i, acc).Good?
    ensures Net(s, i, ParseRedirs(s, i, acc).pos) == 0
    decreases |s| - i
  {
    SkipNet(s, i);
    LookIsKind(s, i);
    if Look(s, i) in {'<', '>'} {
      var t := GetToken(s, i);
      var w := GetToken(s, t.pos);
      TokenNet(s, i);
      TokenNet(s, t.pos);
      var more := acc + [Redirection(w.word, ModeOf(t.kind))];
      RedirsNet(s, w.pos, more);
      NetAdd(s, i, t.pos, w.pos);
      NetAdd(s, i, w.pos, ParseRedirs(s, w.pos, more).pos);
    }
  }

  lemma {:induction false} ArgsNet(s: string, i: nat, argv: seq<Slice>, acc: seq<Redirection<Slice>>)
    requires Line(s) && i <= |s| && ParseArgs(s, i, argv, acc).Good?
    ensures Net(s, i, ParseArgs(s, i, argv, acc).pos) == 0
    decreases |s| - i
  {
    SkipNet(s, i);
    LookIsKind(s, i);
    if Look(s, i) !in {'|', ')', '&', ';'} {
      var t := GetToken(s, i);
      TokenNet(s, i);
      if t.kind != End {
        RedirsNet(s, t.pos, acc);
        var r := ParseRedirs(s, t.pos, acc);
        ArgsNet(s, r.pos, argv + [t.word], r.v);
        NetAdd(s, i, t.pos, r.pos);
        NetAdd(s, i, r.pos, ParseArgs(s, r.pos, argv + [t.word], r.v).pos);
      }
    }
  }

  lemma {:induction false} BacksNet(s: string, i: nat, c: Cmd<Slice>)
    requires Line(s) && i <= |s|
    ensures Net(s, i, ParseBacks(s, i, c).pos) == 0
    decreases |s| - i
  {
    SkipNet(s, i);
    LookIsKind(s, i);
    if Look(s, i) == '&' {
      var t := GetToken(s, i);
      TokenNet(s, i);
      BacksNet(s, t.pos, Back(c));
      NetAdd(s, i, t.pos, ParseBacks(s, t.pos, Back(c)).pos);
    }
  }

  lemma {:induction false} ExecNet(s: string, i: nat)
    requires Line(s) && i <= |s| && ParseExec(s, i).Good?
    ensures Net(s, i, ParseExec(s, i).pos) == 0
    decreases |s| - i, 1
  {
    var j := SkipSpace(s, i);
    SkipNet(s, i);
    if Look(s, i) == '(' {
      BlockNet(s, j);
      NetAdd(s, i, j, ParseBlock(s, j).pos);
    } else {
      RedirsNet(s, j, []);
      var r := ParseRedirs(s, j, []);
      ArgsNet(s, r.pos, [], r.v);
      NetAdd(s, i, j, r.pos);
      NetAdd(s, i, r.pos, ParseArgs(s, r.pos, [], r.v).pos);
    }
  }

  lemma {:induction false} BlockNet(s: string, i: nat)
    requires Line(s) && i <= |s| && Ch(s, i) == '(' && ParseBlock(s, i).Good?
    ensures Net(s, i, ParseBlock(s, i).pos) == 0
    decreases |s| - i, 0
  {
    LookIsKind(s, i);
    TokenNet(s, i);
    var j := GetToken(s, i).pos;
    LineNet(s, j);
    var c := ParseLine(s, j);
    LookIsKind(s, c.pos);
    TokenNet(s, c.pos);
    var l := GetToken(s, c.pos).pos;
    RedirsNet(s, l, []);
    NetAdd(s, i, j, c.pos);
    NetAdd(s, i, c.pos, l);
    NetAdd(s, i, l, ParseRedirs(s, l, []).pos);
  }

  lemma {:induction false} PipeNet(s: string, i: nat)
    requires Line(s) && i <= |s| && ParsePipe(s, i).Good?
    ensures Net(s, i, ParsePipe(s, i).pos) == 0
    decreases |s| - i, 2
  {
    ExecNet(s, i);
    var c := ParseExec(s, i);
    SkipNet(s, c.pos);
    NetAdd(s, i, c.pos, SkipSpace(s, c.pos));
    if Look(s, c.pos) == '|' {
      LookIsKind(s, c.pos);
      TokenNet(s, c.pos);
      var j := GetToken(s, c.pos).pos;
      PipeNet(s, j);
      NetAdd(s, i, c.pos, j);
      NetAdd(s, i, j, ParsePipe(s, j).pos);
    }
  }

  lemma {:induction false} LineNet(s: string, i: nat)
    requires Line(s) && i <= |s| && ParseLine(s, i).Good?
    ensures Net(s, i, ParseLine(s, i).pos) == 0
    decreases |s| - i, 3
  {
    PipeNet(s, i);
    var c := ParsePipe(s, i);
    BacksNet(s, c.pos, c.v);
    var b := ParseBacks(s, c.pos, c.v);
    var k := b.pos;
    NetAdd(s, i, c.pos, k);
    if Look(s, k) == ';' {
      var j := GetToken(s, k).pos;
      var r := ParseLine(s, j);
      LineIs(s, i, c, b, r);
      LookIsKind(s, k);
      TokenNet(s, k);
      LineNet(s, j);
      NetAdd(s, i, k, j);
      NetAdd(s, i, j, r.pos);
    } else {
      LineIs(s, i, c, b, b);
      SkipNet(s, k);
      NetAdd(s, i, k, SkipSpace(s, k));
    }
  }

  /** An accepted line has as many opening as closing parentheses. */
  lemma {:induction false} ParensBalance(s: string)
    requires Line(s) && ParseCmd(s).Good?
    ensures multiset(s)['('] == multiset(s)[')']
  {
    LineNet(s, 0);
    var k := ParseLine(s, 0).pos;
    SkipNet(s, k);
    NetAdd(s, 0, k, |s|);
    assert s[0..|s|] == s;
  }
}
