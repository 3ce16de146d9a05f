/** The shell's parser loses and invents nothing: every token of an accepted line, but for the
    parentheses, is there in the command exactly once. */
module ShellTally {
  import opened ShellGrammar
  import opened ShellParser
  import opened ShellTokens

  /** How many tokens of this kind there are from position i on. */
  function Left(s: string, i: nat, k: Kind): nat
    requires Line(s) && i <= |s|
    decreases |s| - i
  {
    var t := GetToken(s, i);
    if t.kind == End then 0 else (if t.kind == k then 1 else 0) + Left(s, t.pos, k)
  }

  function SignKind(m: Mode): Kind {
    match m
    case Read => Sym('<')
    case Write => Sym('>')
    case Append => Twice
  }

  function One(yes: bool): nat { if yes then 1 else 0 }

  function RedirUses(rs: seq<Redirection<Slice>>, k: Kind): nat {
    if rs == [] then 0
    else RedirUses(rs[..|rs| - 1], k) + One(k == Word) + One(k == SignKind(rs[|rs| - 1].mode))
  }

  /** How many tokens of this kind a command is made of. */
  function Uses(c: Cmd<Slice>, k: Kind): nat {
    match c
    case Exec(argv) => if k == Word then |argv| else 0
    case Redir(x, _, m) => Uses(x, k) + One(k == Word) + One(k == SignKind(m))
    case Pipe(l, r) => Uses(l, k) + Uses(r, k) + One(k == Sym('|'))
    case List(l, r) => Uses(l, k) + Uses(r, k) + One(k == Sym(';'))
    case Back(x) => Uses(x, k) + One(k == Sym('&'))
  }

  predicate Counted(k: Kind) {
    k != End && k != Sym('(') && k != Sym(')')
  }

  lemma {:induction false} LeftSkip(s: string, i: nat, k: Kind)
    requires Line(s) && i <= |s|
    ensures Left(s, SkipSpace(s, i), k) == Left(s, i, k)
  {
    LookIsKind(s, i);
  }

  lemma {:induction false} LeftOne(s: string, i: nat, k: Kind)
    requires Line(s) && i <= |s| && GetToken(s, i).kind != End
    ensures Left(s, i, k) == One(GetToken(s, i).kind == k) + Left(s, GetToken(s, i).pos, k)
  {
  }

  lemma {:induction false} WrapUses(c: Cmd<Slice>, rs: seq<Redirection<Slice>>, k: Kind)
    ensures Uses(Wrap(c, rs), k) == Uses(c, k) + RedirUses(rs, k)
    decreases |rs|
  {
    if rs != [] { WrapUses(c, rs[..|rs| - 1], k); }
  }

  lemma OneMoreRedir(rs: seq<Redirection<Slice>>, r: Redirection<Slice>, k: Kind)
    ensures RedirUses(rs + [r], k) == RedirUses(rs, k) + One(k == Word) + One(k == SignKind(r.mode))
  {
    assert (rs + [r])[..|rs|] == rs;
  }

  lemma {:induction false} RedirsTally(s: string, i: nat, acc: seq<Redirection<Slice>>, k: Kind)
    requires Line(s) && i <= |s| && ParseRedirs(s, i, acc).Good?
    ensures var r := ParseRedirs(s, i, acc);
            Left(s, i, k) + RedirUses(acc, k) == RedirUses(r.v, k) + Left(s, r.pos, k)
    decreases |s| - i
  {
    LeftSkip(s, i, k);
    LookIsKind(s, i);
    if Look(s, i) in {'<', '>'} {
      var t := GetToken(s, i);
      var w := GetToken(s, t.pos);
      LeftOne(s, i, k);
      LeftOne(s, t.pos, k);
      OneMoreRedir(acc, Redirection(w.word, ModeOf(t.kind)), k);
      RedirsTally(s, w.pos, acc + [Redirection(w.word, ModeOf(t.kind))], k);
    }
  }

  function ArgUses(argv: seq<Slice>, rs: seq<Redirection<Slice>>, k: Kind): nat {
    (if k == Word then |argv| else 0) + RedirUses(rs, k)
  }

  lemma {:induction false} ArgsTally(s: string, i: nat, argv: seq<Slice>, acc: seq<Redirection<Slice>>, k: Kind)
    requires Line(s) && i <= |s| && ParseArgs(s, i, argv, acc).Good?
    ensures var r := ParseArgs(s, i, argv, acc);
            Left(s, i, k) + ArgUses(argv, acc, k) == ArgUses(r.v.0, r.v.1, k) + Left(s, r.pos, k)
    decreases |s| - i
  {
    LeftSkip(s, i, k);
    LookIsKind(s, i);
    var t := GetToken(s, i);
    if Look(s, i) !in {'|', ')', '&', ';'} {
      if t.kind == End {
        LeftSkip(s, t.word.q, k);
      } else {
        LeftOne(s, i, k);
        RedirsTally(s, t.pos, acc, k);
        var r := ParseRedirs(s, t.pos, acc);
        ArgsTally(s, r.pos, argv + [t.word], r.v, k);
      }
    }
  }

  lemma {:induction false} BacksTally(s: string, i: nat, c: Cmd<Slice>, k: Kind)
    requires Line(s) && i <= |s|
    ensures var r := ParseBacks(s, i, c); Left(s, i, k) + Uses(c, k) == Uses(r.v, k) + Left(s, r.pos, k)
    decreases |s| - i
  {
    LeftSkip(s, i, k);
    LookIsKind(s, i);
    if Look(s, i) == '&' {
      var j := GetToken(s, i).pos;
      LeftOne(s, i, k);
      BacksTally(s, j, Back(c), k);
      OneBack(s, i, c, j);
    } else {
      NoBack(s, i, c);
    }
  }

  lemma {:induction false} ExecTally(s: string, i: nat, k: Kind)
    requires Line(s) && i <= |s| && ParseExec(s, i).Good? && Counted(k)
    ensures var r := ParseExec(s, i); Left(s, i, k) == Uses(r.v, k) + Left(s, r.pos, k)
    decreases |s| - i, 1
  {
    var j := SkipSpace(s, i);
    LeftSkip(s, i, k);
    if Look(s, i) == '(' {
      BlockTally(s, j, k);
    } else {
      RedirsTally(s, j, [], k);
      var r := ParseRedirs(s, j, []);
      ArgsTally(s, r.pos, [], r.v, k);
      var a := ParseArgs(s, r.pos, [], r.v);
      WrapUses(Exec(a.v.0), a.v.1, k);
    }
  }

  lemma {:induction false} BlockTally(s: string, i: nat, k: Kind)
    requires Line(s) && i <= |s| && Ch(s, i) == '(' && ParseBlock(s, i).Good? && Counted(k)
    ensures var r := ParseBlock(s, i); Left(s, i, k) == Uses(r.v, k) + Left(s, r.pos, k)
    decreases |s| - i, 0
  {
    LookIsKind(s, i);
    LeftOne(s, i, k);
    var j := GetToken(s, i).pos;
    LineTally(s, j, k);
    var c := ParseLine(s, j);
    LookIsKind(s, c.pos);
    LeftOne(s, c.pos, k);
    var l := GetToken(s, c.pos).pos;
    RedirsTally(s, l, [], k);
    WrapUses(c.v, ParseRedirs(s, l, []).v, k);
  }

  lemma {:induction false} PipeTally(s: string, i: nat, k: Kind)
    requires Line(s) && i <= |s| && ParsePipe(s, i).Good? && Counted(k)
    ensures var r := ParsePipe(s, i); Left(s, i, k) == Uses(r.v, k) + Left(s, r.pos, k)
    decreases |s| - i, 2
  {
    ExecTally(s, i, k);
    var c := ParseExec(s, i);
    LeftSkip(s, c.pos, k);
    if Look(s, c.pos) == '|' {
      LookIsKind(s, c.pos);
      LeftOne(s, c.pos, k);
      PipeTally(s, GetToken(s, c.pos).pos, k);
    }
  }

  lemma {:induction false} LineTally(s: string, i: nat, k: Kind)
    requires Line(s) && i <= |s| && ParseLine(s, i).Good? && Counted(k)
    ensures var r := ParseLine(s, i); Left(s, i, k) == Uses(r.v, k) + Left(s, r.pos, k)
    decreases |s| - i, 3
  {
    PipeTally(s, i, k);
    var c := ParsePipe(s, i);
    BacksTally(s, c.pos, c.v, k);
    var b := ParseBacks(s, c.pos, c.v);
    var r := b;
    if Look(s, b.pos) == ';' {
      var j := GetToken(s, b.pos).pos;
      r := ParseLine(s, j);
      LineIs(s, i, c, b, r);
      LookIsKind(s, b.pos);
      LineTally(s, j, k);
    } else {
      LineIs(s, i, c, b, r);
    }
    ListedTally(s, b, r, k);
  }

  lemma {:induction false} ListedTally(s: string, b: Parsed<Cmd<Slice>>, r: Parsed<Cmd<Slice>>, k: Kind)
    requires Line(s) && b.Good? && b.pos <= |s| && Listed(s, b, r).Good?
    requires var j := GetToken(s, b.pos).pos;
             Look(s, b.pos) == ';' ==> r.Good? && r.pos <= |s| && Left(s, j, k) == Uses(r.v, k) + Left(s, r.pos, k)
    ensures var l := Listed(s, b, r);
            l.pos <= |s| && Left(s, b.pos, k) + Uses(b.v, k) == Uses(l.v, k) + Left(s, l.pos, k)
  {
    LeftSkip(s, b.pos, k);
    LookIsKind(s, b.pos);
    if Look(s, b.pos) == ';' { LeftOne(s, b.pos, k); }
  }

  /** The command of an accepted line has as many words, redirections of each mode, pipes,
      lists and background jobs as the line has tokens for them. */
  lemma NothingLost(s: string, k: Kind)
    requires Line(s) && ParseCmd(s).Good? && Counted(k)
    ensures Left(s, 0, k) == Uses(ParseCmd(s).v, k)
  {
    LineTally(s, 0, k);
    var j := ParseLine(s, 0).pos;
    LeftSkip(s, j, k);
    LookIsKind(s, j);
  }
}
