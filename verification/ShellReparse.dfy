/** Any line the shell accepts, printed and parsed again. */
module ShellReparse {
  import opened ShellGrammar
  import opened ShellParser
  import opened ShellRoundTrip

  lemma WholeIsOk(s: string, w: Slice)
    requires WholeWord(s, w)
    ensures WordOk(Text(s, w))
  {
    var t := Text(s, w);
    forall k | 0 <= k < |t|
      ensures IsWord(t[k])
    {
      assert t[k] == s[w.q + k];
    }
  }

  lemma {:induction false} WholeIsPrintable(s: string, c: Cmd<Slice>)
    requires AllWhole(s, c)
    ensures Printable(Resolve(s, c))
    decreases c
  {
    match c
    case Exec(argv) =>
      forall k | 0 <= k < |argv|
        ensures WordOk(Texts(s, argv)[k])
      {
        WholeIsOk(s, argv[k]);
      }
    case Redir(x, file, _) => WholeIsPrintable(s, x); WholeIsOk(s, file);
    case Pipe(l, r) => WholeIsPrintable(s, l); WholeIsPrintable(s, r);
    case List(l, r) => WholeIsPrintable(s, l); WholeIsPrintable(s, r);
    case Back(x) => WholeIsPrintable(s, x);
  }

  /** The command of an accepted line, whatever its blanks and parentheses, is printable, and
      its printing is a line that the shell accepts as the same command. */
  lemma AcceptedLineReparses(s: string) returns (c: Cmd<string>, v: Cmd<Slice>)
    requires Line(s) && ParseCmd(s).Good?
    ensures c == Resolve(s, ParseCmd(s).v) && Printable(c)
    ensures Line(Print(c, 0)) && ParseCmd(Print(c, 0)) == Good(v, |Print(c, 0)|) && Resolve(Print(c, 0), v) == c
  {
    LineWhole(s, 0);
    c := Resolve(s, ParseCmd(s).v);
    WholeIsPrintable(s, ParseCmd(s).v);
    v := RoundTrip(c);
  }
}
