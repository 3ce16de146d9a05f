/** The pattern matcher of grep (user/grep.c) against the language its patterns denote. */
module Regex {
  import opened Prelude

  // ---- the matcher ----

  /** The loop of matchstar: c*re at the beginning of text. */
  predicate MatchStar(c: char, re: string, text: string)
    decreases |re|, 1, |text|
  {
    MatchHere(re, text) || (text != "" && (text[0] == c || c == '.') && MatchStar(c, re, text[1..]))
  }

  /** re at the beginning of text. */
  predicate MatchHere(re: string, text: string)
    decreases |re|, 0, |text|
  {
    if re == "" then true
    else if |re| > 1 && re[1] == '*' then MatchStar(re[0], re[2..], text)
    else if re == "$" then text == ""
    else text != "" && (re[0] == '.' || re[0] == text[0]) && MatchHere(re[1..], text[1..])
  }

  /** The loop of match: re at text or at any later position, the end included. */
  predicate MatchFrom(re: string, text: string)
    decreases |text|
  {
    MatchHere(re, text) || (text != "" && MatchFrom(re, text[1..]))
  }

  predicate Matches(re: string, text: string) {
    if re != "" && re[0] == '^' then MatchHere(re[1..], text) else MatchFrom(re, text)
  }

  // ---- the matcher as it runs ----

  method Matchstar(c: char, re: string, text: string) returns (m: bool)
    ensures m == MatchStar(c, re, text)
    decreases |re|, 1
  {
    var i := 0;
    while true
      invariant 0 <= i <= |text| && MatchStar(c, re, text[i..]) == MatchStar(c, re, text)
      decreases |text| - i
    {
      var here := Matchhere(re, text[i..]);
      if here { return true; }
      if i == |text| || !(text[i] == c || c == '.') { return false; }
      assert text[i..][1..] == text[i + 1..];
      i := i + 1;
    }
  }

  method Matchhere(re: string, text: string) returns (m: bool)
    ensures m == MatchHere(re, text)
    decreases |re|, 0
  {
    if re == "" { return true; }
    if |re| > 1 && re[1] == '*' {
      m := Matchstar(re[0], re[2..], text);
      return;
    }
    if re == "$" { return text == ""; }
    if text != "" && (re[0] == '.' || re[0] == text[0]) {
      m := Matchhere(re[1..], text[1..]);
      return;
    }
    m := false;
  }

  method Match(re: string, text: string) returns (m: bool)
    ensures m == Matches(re, text)
  {
    if re != "" && re[0] == '^' {
      m := Matchhere(re[1..], text);
      return;
    }
    var i := 0;
    while true
      invariant 0 <= i <= |text| && MatchFrom(re, text[i..]) == MatchFrom(re, text)
      decreases |text| - i
    {
      var here := Matchhere(re, text[i..]);
      if here { return true; }
      if i == |text| { return false; }
      assert text[i..][1..] == text[i + 1..];
      i := i + 1;
    }
  }

  // ---- the language ----

  /** One character (None: any), or any number of them. */
  datatype Item = One(c: Option<char>) | Many(c: Option<char>)

  function Class(c: char): Option<char> {
    if c == '.' then None else Some(c)
  }

  function Items(re: string): seq<Item>
    decreases |re|
  {
    if re == "" || re == "$" then []
    else if |re| > 1 && re[1] == '*' then [Many(Class(re[0]))] + Items(re[2..])
    else [One(Class(re[0]))] + Items(re[1..])
  }

  /** The pattern ends with a $ of its own, which stands for the end of the text. */
  predicate ToEnd(re: string)
    decreases |re|
  {
    if re == "" then false
    else if re == "$" then true
    else if |re| > 1 && re[1] == '*' then ToEnd(re[2..])
    else ToEnd(re[1..])
  }

  predicate InClass(c: Option<char>, x: char) {
    c.None? || c.value == x
  }

  predicate Fits(it: Item, piece: string) {
    && (it.One? ==> |piece| == 1)
    && (forall k :: 0 <= k < |piece| ==> InClass(it.c, piece[k]))
  }

  function Join(ps: seq<string>): string {
    if ps == [] then "" else ps[0] + Join(ps[1..])
  }

  ghost predicate Splits(items: seq<Item>, w: string, ps: seq<string>) {
    |ps| == |items| && Join(ps) == w && forall k :: 0 <= k < |ps| ==> Fits(items[k], ps[k])
  }

  /** w is made of one piece for each item. */
  ghost predicate InLanguage(items: seq<Item>, w: string) {
    exists ps :: Splits(items, w, ps)
  }

  /** A prefix of text is in the language of re, the whole text if re ends with $. */
  ghost predicate Denotes(re: string, text: string) {
    exists j :: 0 <= j <= |text| && (ToEnd(re) ==> j == |text|) && InLanguage(Items(re), text[..j])
  }

  /** Some substring of text is in the language of the pattern, from the start if it begins
      with ^ and to the end if it ends with $. */
  ghost predicate FoundIn(re: string, text: string) {
    if re != "" && re[0] == '^' then Denotes(re[1..], text)
    else exists i :: 0 <= i <= |text| && Denotes(re, text[i..])
  }

  // ---- pieces ----

  lemma LanguageHead(it: Item, items: seq<Item>, w: string) returns (n: nat)
    requires InLanguage([it] + items, w)
    ensures n <= |w| && Fits(it, w[..n]) && InLanguage(items, w[n..])
  {
    var ps :| Splits([it] + items, w, ps);
    n := |ps[0]|;
    var rest := ps[1..];
    assert w == ps[0] + Join(rest);
    assert w[..n] == ps[0] && w[n..] == Join(rest);
    forall k | 0 <= k < |rest|
      ensures Fits(items[k], rest[k])
    {
      assert ([it] + items)[k + 1] == items[k];
    }
    assert Splits(items, w[n..], rest);
  }

  lemma LanguageCons(it: Item, items: seq<Item>, w: string, n: nat)
    requires n <= |w| && Fits(it, w[..n]) && InLanguage(items, w[n..])
    ensures InLanguage([it] + items, w)
  {
    var rest :| Splits(items, w[n..], rest);
    var ps := [w[..n]] + rest;
    assert ps[1..] == rest;
    assert Join(ps) == w[..n] + w[n..] == w;
    forall k | 0 <= k < |ps|
      ensures Fits(([it] + items)[k], ps[k])
    {
    }
    assert Splits([it] + items, w, ps);
  }

  /** text from n on is denoted, and the first n characters fit the item before it. */
  lemma DenotesCons(re: string, it: Item, rest: string, text: string, n: nat)
    requires n <= |text| && Fits(it, text[..n]) && Denotes(rest, text[n..]) && Items(re) == [it] + Items(rest)
    requires ToEnd(re) == ToEnd(rest)
    ensures Denotes(re, text)
  {
    var j :| 0 <= j <= |text[n..]| && (ToEnd(rest) ==> j == |text[n..]|) && InLanguage(Items(rest), text[n..][..j]);
    var w := text[..n + j];
    assert w[..n] == text[..n] && w[n..] == text[n..][..j];
    LanguageCons(it, Items(rest), w, n);
  }

  lemma DenotesHead(re: string, it: Item, rest: string, text: string) returns (n: nat)
    requires Denotes(re, text) && Items(re) == [it] + Items(rest) && ToEnd(re) == ToEnd(rest)
    ensures n <= |text| && Fits(it, text[..n]) && Denotes(rest, text[n..])
  {
    var j :| 0 <= j <= |text| && (ToEnd(re) ==> j == |text|) && InLanguage(Items(re), text[..j]);
    n := LanguageHead(it, Items(rest), text[..j]);
    assert text[..j][..n] == text[..n] && text[..j][n..] == text[n..][..j - n];
  }

  // ---- the matcher accepts exactly the language ----

  lemma {:induction false} StarSound(c: char, re: string, text: string) returns (n: nat)
    requires MatchStar(c, re, text)
    ensures n <= |text| && Fits(Many(Class(c)), text[..n]) && MatchHere(re, text[n..])
    decreases |text|
  {
    if MatchHere(re, text) {
      n := 0;
      assert text[0..] == text;
    } else {
      var m := StarSound(c, re, text[1..]);
      n := m + 1;
      assert text[1..][m..] == text[n..];
      forall k | 0 <= k < n
        ensures InClass(Class(c), text[..n][k])
      {
        if k > 0 { assert text[..n][k] == text[1..][..m][k - 1]; }
      }
    }
  }

  lemma {:induction false} StarComplete(c: char, re: string, text: string, n: nat)
    requires n <= |text| && Fits(Many(Class(c)), text[..n]) && MatchHere(re, text[n..])
    ensures MatchStar(c, re, text)
    decreases n
  {
    if n == 0 {
      assert text[0..] == text;
    } else {
      assert text[1..][n - 1..] == text[n..];
      assert InClass(Class(c), text[..n][0]);
      var rest := text[1..][..n - 1];
      forall k | 0 <= k < |rest|
        ensures InClass(Class(c), rest[k])
      {
        assert rest[k] == text[..n][k + 1];
      }
      StarComplete(c, re, text[1..], n - 1);
    }
  }

  lemma EmptyDenotes(re: string, text: string)
    requires re == "" || re == "$"
    ensures Denotes(re, text) <==> (re == "$" ==> text == "")
  {
    assert Splits([], "", []);
    assert text[..0] == "";
    assert InLanguage(Items(re), text[..0]);
    if re == "$" && Denotes(re, text) {
      var j :| 0 <= j <= |text| && (ToEnd(re) ==> j == |text|) && InLanguage(Items(re), text[..j]);
      var ps :| Splits([], text[..j], ps);
    }
  }

  /** matchhere is true exactly when a prefix of text is in the language of re. */
  lemma {:induction false} HereIff(re: string, text: string)
    ensures MatchHere(re, text) <==> Denotes(re, text)
    decreases |re|
  {
    if re == "" || re == "$" {
      EmptyDenotes(re, text);
    } else if |re| > 1 && re[1] == '*' {
      StarIff(re, text);
    } else {
      OneIff(re, text);
    }
  }

  lemma StarIff(re: string, text: string)
    requires |re| > 1 && re[1] == '*'
    ensures MatchHere(re, text) <==> Denotes(re, text)
    decreases |re|, 0
  {
    var it, rest := Many(Class(re[0])), re[2..];
    if MatchHere(re, text) {
      var n := StarSound(re[0], rest, text);
      HereIff(rest, text[n..]);
      DenotesCons(re, it, rest, text, n);
    }
    if Denotes(re, text) {
      var n := DenotesHead(re, it, rest, text);
      HereIff(rest, text[n..]);
      StarComplete(re[0], rest, text, n);
    }
  }

  lemma OneIff(re: string, text: string)
    requires re != "" && re != "$" && !(|re| > 1 && re[1] == '*')
    ensures MatchHere(re, text) <==> Denotes(re, text)
    decreases |re|, 0
  {
    var it, rest := One(Class(re[0])), re[1..];
    if MatchHere(re, text) {
      HereIff(rest, text[1..]);
      DenotesCons(re, it, rest, text, 1);
    }
    if Denotes(re, text) {
      var n := DenotesHead(re, it, rest, text);
      assert n == 1 && InClass(it.c, text[..n][0]);
      HereIff(rest, text[1..]);
    }
  }

  lemma {:induction false} FromIff(re: string, text: string)
    ensures MatchFrom(re, text) <==> exists i :: 0 <= i <= |text| && Denotes(re, text[i..])
    decreases |text|
  {
    HereIff(re, text);
    assert text[0..] == text;
    if text != "" {
      FromIff(re, text[1..]);
      if i :| 0 <= i <= |text[1..]| && Denotes(re, text[1..][i..]) {
        assert text[1..][i..] == text[i + 1..];
      }
      if i :| 0 < i <= |text| && Denotes(re, text[i..]) {
        assert text[1..][i - 1..] == text[i..];
      }
    }
  }

  /** match is true exactly when some substring of text is in the language of the pattern. */
  lemma MatchIff(re: string, text: string)
    ensures Matches(re, text) <==> FoundIn(re, text)
  {
    if re != "" && re[0] == '^' { HereIff(re[1..], text); } else { FromIff(re, text); }
  }
}
