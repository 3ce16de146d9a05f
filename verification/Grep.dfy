/** The line buffer of grep (user/grep.c): input arrives in pieces of any size. */
module Grep {
  import opened Prelude
  import opened Regex

  const BUFSIZE: nat := 1024

  function FirstNewline(s: string): (i: nat)
    ensures i <= |s| && (forall k :: 0 <= k < i ==> s[k] != '\n') && (i < |s| ==> s[i] == '\n')
  {
    if s == "" || s[0] == '\n' then 0 else 1 + FirstNewline(s[1..])
  }

  /** The newline-terminated lines of s that match, in order. */
  function Selected(re: string, s: string): string
    decreases |s|
  {
    var i := FirstNewline(s);
    if i == |s| then ""
    else (if Matches(re, s[..i]) then s[..i + 1] else "") + Selected(re, s[i + 1..])
  }

  /** What follows the last newline. */
  function Tail(s: string): (t: string)
    ensures |t| <= |s|
    decreases |s|
  {
    var i := FirstNewline(s);
    if i == |s| then s else Tail(s[i + 1..])
  }

  lemma {:induction false} FirstAppend(s: string, t: string)
    ensures FirstNewline(s) < |s| ==> FirstNewline(s + t) == FirstNewline(s)
    ensures FirstNewline(s) == |s| ==> FirstNewline(s + t) == |s| + FirstNewline(t)
  {
    if s == "" {
      assert s + t == t;
    } else {
      assert (s + t)[1..] == s[1..] + t;
      FirstAppend(s[1..], t);
    }
  }

  lemma Slices(s: string, t: string, i: nat)
    requires i < |s|
    ensures (s + t)[i + 1..] == s[i + 1..] + t && (s + t)[..i] == s[..i] && (s + t)[..i + 1] == s[..i + 1]
  {
  }

  lemma {:induction false} TailStep(s: string, i: nat, rest: string)
    requires i == FirstNewline(s) < |s| && rest == s[i + 1..]
    ensures Tail(s) == Tail(rest)
  {
  }

  /** The tail of s + t, when s has a first line and `rest` after it. */
  lemma {:induction false} TailPast(s: string, t: string, i: nat, rest: string)
    requires i == FirstNewline(s) < |s| && rest == s[i + 1..]
    ensures Tail(s + t) == Tail(rest + t)
  {
    FirstAppend(s, t);
    Slices(s, t, i);
    TailStep(s + t, i, rest + t);
  }

  lemma {:induction false} TailAppend(s: string, t: string)
    ensures Tail(s + t) == Tail(Tail(s) + t)
    decreases |s|
  {
    var i := FirstNewline(s);
    if i < |s| {
      TailPast(s, t, i, s[i + 1..]);
      TailAppend(s[i + 1..], t);
      TailStep(s, i, s[i + 1..]);
    }
  }

  function FirstPick(re: string, s: string, i: nat): string
    requires i < |s|
  {
    if Matches(re, s[..i]) then s[..i + 1] else ""
  }

  lemma {:induction false} SelectedStep(re: string, s: string, i: nat, rest: string)
    requires i == FirstNewline(s) < |s| && rest == s[i + 1..]
    ensures Selected(re, s) == FirstPick(re, s, i) + Selected(re, rest)
  {
  }

  lemma {:induction false} SelectedPast(re: string, s: string, t: string, i: nat, rest: string)
    requires i == FirstNewline(s) < |s| && rest == s[i + 1..]
    ensures Selected(re, s + t) == FirstPick(re, s, i) + Selected(re, rest + t)
  {
    FirstAppend(s, t);
    PickPast(re, s, t, i);
    SelectedStep(re, s + t, i, rest + t);
  }

  lemma PickPast(re: string, s: string, t: string, i: nat)
    requires i < |s|
    ensures FirstPick(re, s + t, i) == FirstPick(re, s, i) && (s + t)[i + 1..] == s[i + 1..] + t
  {
    Slices(s, t, i);
  }

  /** Lines can be selected piece by piece if the unfinished line is carried over. */
  lemma {:induction false} SelectedAppend(re: string, s: string, t: string)
    ensures Selected(re, s + t) == Selected(re, s) + Selected(re, Tail(s) + t)
    decreases |s|
  {
    var i := FirstNewline(s);
    if i < |s| {
      var rest := s[i + 1..];
      SelectedPast(re, s, t, i, rest);
      SelectedAppend(re, rest, t);
      TailStep(s, i, rest);
      SelectedStep(re, s, i, rest);
      Assoc(FirstPick(re, s, i), Selected(re, rest), Selected(re, Tail(s) + t));
    }
  }

  lemma {:induction false} TailNoNewline(s: string)
    ensures FirstNewline(Tail(s)) == |Tail(s)|
    decreases |s|
  {
    var i := FirstNewline(s);
    if i < |s| { TailNoNewline(s[i + 1..]); }
  }

  // ---- NUL bytes ----

  predicate NulFree(s: string) {
    forall k :: 0 <= k < |s| ==> s[k] != '\0'
  }

  /** strchr sees s up to the first NUL. */
  predicate Parted(s: string, seen: string, hidden: string) {
    s == seen + hidden && NulFree(seen) && (hidden == "" || hidden[0] == '\0')
  }

  function Seen(s: string): (seen: string)
    ensures |seen| <= |s|
  {
    if s == "" || s[0] == '\0' then "" else [s[0]] + Seen(s[1..])
  }

  lemma {:induction false} SeenParts(s: string)
    ensures Parted(s, Seen(s), s[|Seen(s)|..])
  {
    if s != "" && s[0] != '\0' {
      SeenParts(s[1..]);
      assert s == [s[0]] + s[1..] && s[1..][|Seen(s[1..])|..] == s[|Seen(s)|..];
    }
  }

  lemma {:induction false} SeenIs(s: string, seen: string, hidden: string)
    requires Parted(s, seen, hidden)
    ensures Seen(s) == seen
  {
    if seen != "" {
      assert s[0] == seen[0] && s[1..] == seen[1..] + hidden;
      SeenIs(s[1..], seen[1..], hidden);
    }
  }

  /** More input: what of it can be seen, and what is hidden now. */
  lemma PartMore(s: string, seen: string, hidden: string, chunk: string) returns (more: string, hidden': string)
    requires Parted(s, seen, hidden)
    ensures hidden + chunk == more + hidden' && |more| <= |chunk| && Parted(s + chunk, seen + more, hidden')
    ensures NulFree(more) && (hidden' == "" || hidden'[0] == '\0') && (hidden != "" ==> more == "")
  {
    if hidden == "" {
      SeenParts(chunk);
      more, hidden' := Seen(chunk), chunk[|Seen(chunk)|..];
    } else {
      more, hidden' := "", hidden + chunk;
    }
    Assoc(seen, hidden, chunk);
    Assoc(seen, more, hidden');
  }

  // ---- the program ----

  /** strchr(p, '\n') in the filled part of the buffer, which ends with a NUL. */
  method FindNewline(buf: array<char>, p: nat, m: nat, ghost seen: string, ghost hidden: string)
    returns (q: nat, found: bool)
    requires p <= m <= buf.Length && Parted(buf[p..m], seen, hidden)
    ensures p <= q <= m && q == p + FirstNewline(seen) && (found <==> FirstNewline(seen) < |seen|)
  {
    q := p;
    ghost var rest := buf[p..m];
    while q < m && buf[q] != '\n' && buf[q] != '\0'
      invariant p <= q <= m && forall k :: p <= k < q ==> buf[k] != '\n' && buf[k] != '\0'
    {
      q := q + 1;
    }
    found := q < m && buf[q] == '\n';
    assert forall k :: 0 <= k < q - p ==> rest[k] == buf[p + k];
    assert q < m ==> rest[q - p] == buf[q];
    FoundAt(rest, seen, hidden, q - p);
  }

  lemma FoundAt(s: string, seen: string, hidden: string, i: nat)
    requires Parted(s, seen, hidden) && i <= |s| && forall k :: 0 <= k < i ==> s[k] != '\n' && s[k] != '\0'
    requires i < |s| ==> s[i] == '\n' || s[i] == '\0'
    ensures FirstNewline(seen) == i && (i < |seen| <==> i < |s| && s[i] == '\n')
  {
    assert |seen| < |s| ==> s[|seen|] == hidden[0];
    assert forall k :: 0 <= k < |seen| ==> s[k] == seen[k];
    FirstIs(seen, i);
  }

  lemma {:induction false} FirstIs(s: string, i: nat)
    requires i <= |s| && (forall k :: 0 <= k < i ==> s[k] != '\n') && (i < |s| ==> s[i] == '\n')
    ensures FirstNewline(s) == i
  {
    if i > 0 { FirstIs(s[1..], i - 1); }
  }

  /** memmove of n characters to the front of the buffer. */
  method MoveDown(buf: array<char>, p: nat, n: nat)
    requires p + n <= buf.Length
    modifies buf
    ensures buf[..n] == old(buf[p..p + n])
  {
    var k := 0;
    while k < n
      invariant 0 <= k <= n
      invariant forall j :: 0 <= j < k ==> buf[j] == old(buf[p + j])
      invariant forall j :: k <= j < buf.Length ==> buf[j] == old(buf[j])
    {
      buf[k] := buf[p + k];
      k := k + 1;
    }
  }

  /** One line of the inner loop: the newline is cut off for the match and put back for
      the output. */
  method OneLine(re: string, buf: array<char>, p: nat, q: nat) returns (emit: string)
    requires p <= q < buf.Length && buf[q] == '\n'
    modifies buf
    ensures emit == if Matches(re, old(buf[p..q])) then old(buf[p..q + 1]) else ""
    ensures forall k :: 0 <= k < buf.Length && k != q ==> buf[k] == old(buf[k])
  {
    buf[q] := '\0';
    assert buf[p..q] == old(buf[p..q]);
    var hit := Match(re, buf[p..q]);
    emit := "";
    if hit {
      buf[q] := '\n';
      emit := buf[p..q + 1];
      assert emit == old(buf[p..q + 1]);
    }
  }

  /** What is left of data, when the lines before it have been dealt with. */
  ghost predicate Emitted(re: string, data: string, out: string, rest: string) {
    out + Selected(re, rest) == Selected(re, data) && Tail(rest) == Tail(data)
  }

  lemma EmittedMore(re: string, data: string, out: string, rest: string, i: nat, emit: string)
    requires Emitted(re, data, out, rest) && i == FirstNewline(rest) < |rest|
    requires emit == FirstPick(re, rest, i)
    ensures Emitted(re, data, out + emit, rest[i + 1..])
  {
    SelectedStep(re, rest, i, rest[i + 1..]);
    TailStep(rest, i, rest[i + 1..]);
    Assoc(out, emit, Selected(re, rest[i + 1..]));
  }

  lemma BufSlices(buf: array<char>, p: nat, q: nat, m: nat)
    requires p <= q < m <= buf.Length
    ensures buf[p..q] == buf[p..m][..q - p] && buf[p..q + 1] == buf[p..m][..q - p + 1]
    ensures buf[q + 1..m] == buf[p..m][q - p + 1..] && buf[q] == buf[p..m][q - p]
  {
  }

  /** The line of buf[p..m] that ends at q. */
  method EmitOne(re: string, buf: array<char>, p: nat, q: nat, m: nat, out: string, ghost data: string,
                 ghost seen: string, ghost hidden: string) returns (out': string)
    requires p <= q < m <= buf.Length && buf[p..m] == seen + hidden && q - p == FirstNewline(seen) < |seen|
    requires Emitted(re, data, out, seen)
    modifies buf
    ensures buf[q + 1..m] == seen[q - p + 1..] + hidden && Emitted(re, data, out', seen[q - p + 1..])
  {
    FirstAppend(seen, hidden);
    PickPast(re, seen, hidden, q - p);
    var emit := PickOne(re, buf, p, q, m, seen + hidden, q - p);
    EmittedMore(re, data, out, seen, q - p, emit);
    out' := out + emit;
  }

  method PickOne(re: string, buf: array<char>, p: nat, q: nat, m: nat, ghost rest: string, ghost i: nat)
    returns (emit: string)
    requires p <= q < m <= buf.Length && buf[p..m] == rest && i == q - p == FirstNewline(rest) < |rest|
    modifies buf
    ensures buf[q + 1..m] == rest[i + 1..] && emit == FirstPick(re, rest, i)
  {
    BufSlices(buf, p, q, m);
    ghost var tail := buf[q + 1..m];
    emit := OneLine(re, buf, p, q);
    assert buf[q + 1..m] == tail;
  }

  lemma EmittedAll(re: string, data: string, out: string, rest: string)
    requires Emitted(re, data, out, rest) && FirstNewline(rest) == |rest|
    ensures out == Selected(re, data) && rest == Tail(data)
  {
  }

  /** The inner loop: all finished lines in the first m characters, as far as strchr sees
      them, and where the rest is. */
  method EmitLines(re: string, buf: array<char>, m: nat, ghost data: string, ghost hidden: string)
    returns (out: string, p: nat)
    requires m <= buf.Length && Parted(buf[..m], data, hidden)
    modifies buf
    ensures p <= m && out == Selected(re, data) && buf[p..m] == Tail(data) + hidden
  {
    out, p := "", 0;
    ghost var seen := data;
    assert buf[0..m] == buf[..m];
    var q, found := FindNewline(buf, p, m, seen, hidden);
    while found
      invariant p <= q <= m && Parted(buf[p..m], seen, hidden) && Emitted(re, data, out, seen)
      invariant q - p == FirstNewline(seen) && (found <==> FirstNewline(seen) < |seen|)
      decreases m - p
    {
      assert |buf[p..m]| == |seen| + |hidden|;
      out := EmitOne(re, buf, p, q, m, out, data, seen, hidden);
      seen := seen[q - p + 1..];
      p := q + 1;
      q, found := FindNewline(buf, p, m, seen, hidden);
    }
    EmittedAll(re, data, out, seen);
  }

  // ---- reading ----

  /** Every line that ends in a newline fits in the buffer. */
  predicate LinesFit(s: string)
    decreases |s|
  {
    var i := FirstNewline(s);
    i == |s| || (i + 1 < BUFSIZE && LinesFit(s[i + 1..]))
  }

  /** The finished lines of s before the first that does not fit. */
  function Readable(s: string): string
    decreases |s|
  {
    var i := FirstNewline(s);
    if i == |s| || i + 1 >= BUFSIZE then "" else s[..i + 1] + Readable(s[i + 1..])
  }

  lemma {:induction false} ShortFits(s: string)
    requires |s| < BUFSIZE
    ensures LinesFit(s)
    decreases |s|
  {
    var i := FirstNewline(s);
    if i < |s| { ShortFits(s[i + 1..]); }
  }

  lemma {:induction false} NoLine(s: string)
    requires FirstNewline(s) == |s|
    ensures LinesFit(s) && Readable(s) == "" && Tail(s) == s
  {
  }

  lemma {:induction false} OneLineFits(s: string, i: nat, rest: string)
    requires i == FirstNewline(s) < |s| && i + 1 < BUFSIZE && rest == s[i + 1..]
    ensures (LinesFit(s) <==> LinesFit(rest)) && Readable(s) == s[..i + 1] + Readable(rest)
  {
  }

  lemma {:induction false} FitsPast(s: string, t: string, i: nat, rest: string)
    requires i == FirstNewline(s) < |s| && i + 1 < BUFSIZE && rest == s[i + 1..]
    ensures LinesFit(s + t) <==> LinesFit(rest + t)
    ensures Readable(s + t) == s[..i + 1] + Readable(rest + t)
  {
    FirstAppend(s, t);
    Slices(s, t, i);
    OneLineFits(s + t, i, rest + t);
  }

  /** What fits and what can be read, piece by piece. */
  lemma {:induction false} FitsAppend(s: string, t: string)
    requires LinesFit(s)
    ensures LinesFit(s + t) <==> LinesFit(Tail(s) + t)
    ensures Readable(s + t) == Readable(s) + Readable(Tail(s) + t)
    decreases |s|
  {
    var i := FirstNewline(s);
    if i == |s| {
      NoLine(s);
    } else {
      var rest := s[i + 1..];
      OneLineFits(s, i, rest);
      FitsPast(s, t, i, rest);
      FitsAppend(rest, t);
      TailStep(s, i, rest);
      Assoc(s[..i + 1], Readable(rest), Readable(Tail(s) + t));
    }
  }

  lemma {:induction false} FirstOf(s: string, i: nat)
    requires i == FirstNewline(s) < |s|
    ensures FirstNewline(s[..i + 1]) == i
  {
    var line := s[..i + 1];
    assert line[i] == '\n' && forall k :: 0 <= k < i ==> line[k] != '\n';
  }

  lemma PickOf(re: string, s: string, i: nat)
    requires i < |s|
    ensures FirstPick(re, s[..i + 1], i) == FirstPick(re, s, i)
  {
    assert s[..i + 1][..i] == s[..i] && s[..i + 1][..i + 1] == s[..i + 1];
  }

  lemma {:induction false} ReadableStep(re: string, s: string, i: nat, rest: string)
    requires i == FirstNewline(s) < |s| && i + 1 < BUFSIZE && rest == s[i + 1..]
    ensures Selected(re, Readable(s)) == FirstPick(re, s, i) + Selected(re, Readable(rest))
  {
    FirstOf(s, i);
    assert s[..i + 1][i + 1..] == "" && "" + Readable(rest) == Readable(rest);
    SelectedPast(re, s[..i + 1], Readable(rest), i, "");
    PickOf(re, s, i);
  }

  /** Where every line fits, all of them can be read. */
  lemma {:induction false} FitsAll(re: string, s: string)
    requires LinesFit(s)
    ensures Selected(re, Readable(s)) == Selected(re, s)
    decreases |s|
  {
    var i := FirstNewline(s);
    if i < |s| {
      ReadableStep(re, s, i, s[i + 1..]);
      FitsAll(re, s[i + 1..]);
    }
  }

  /** Where one does not, lines are lost: the empty pattern, which matches them all, shows it. */
  lemma {:induction false} LongLoses(s: string)
    requires !LinesFit(s)
    ensures |Selected("", Readable(s))| < |Selected("", s)|
    decreases |s|
  {
    var i := FirstNewline(s);
    if i + 1 < BUFSIZE {
      ReadableStep("", s, i, s[i + 1..]);
      LongLoses(s[i + 1..]);
    }
  }

  /** The buffer does not show, whatever the pattern, exactly when every line fits in it. */
  lemma BufferHiddenIff(s: string)
    ensures (forall re :: Selected(re, Readable(s)) == Selected(re, s)) <==> LinesFit(s)
  {
    if LinesFit(s) {
      forall re
        ensures Selected(re, Readable(s)) == Selected(re, s)
      {
        FitsAll(re, s);
      }
    } else {
      LongLoses(s);
    }
  }

  lemma {:induction false} NoMatch(b: string)
    requires 'a' !in b
    ensures !Matches("a", b)
  {
    if b != "" { NoMatch(b[1..]); }
  }

  /** A line of 1024 bytes, and a matching line after it that grep never reaches. */
  lemma LongLineHides()
    ensures var s := seq(1023, _ => 'b') + "\n" + "a\n"; Readable(s) == "" && Selected("a", s) == "a\n"
  {
    var b: string := seq(BUFSIZE - 1, _ => 'b');
    var s := b + "\n" + "a\n";
    FirstAppend(b, "\n");
    assert FirstNewline("\n") == 0 && FirstNewline(b) == |b|;
    FirstAppend(b + "\n", "a\n");
    assert FirstNewline(s) == BUFSIZE - 1;
    assert s[..BUFSIZE - 1] == b && s[BUFSIZE..] == "a\n";
    SelectedStep("a", s, BUFSIZE - 1, "a\n");
    NoMatch(b);
    assert Matches("a", "a") && "a\n"[..1] == "a" && "a\n"[..2] == "a\n";
    SelectedStep("a", "a\n", 1, "");
  }

  /** sizes[r] says how much the r-th read returns: at least one byte while there is room
      and input, and never more than either. */
  function ReadSize(want: nat, room: nat, left: nat): (n: nat)
    ensures n <= room && n <= left && (room > 0 && left > 0 ==> n > 0)
  {
    var most := if room < left then room else left;
    if most == 0 then 0 else 1 + want % most
  }

  /** read: n characters of input after pos go to buf[m..]. */
  method Read(buf: array<char>, m: nat, input: string, pos: nat, n: nat)
    requires m + n <= buf.Length && pos + n <= |input|
    modifies buf
    ensures buf[..m + n] == old(buf[..m]) + input[pos..pos + n]
  {
    var k := 0;
    while k < n
      invariant 0 <= k <= n && buf[..m + k] == old(buf[..m]) + input[pos..pos + k]
    {
      buf[m + k] := input[pos + k];
      assert buf[..m + k + 1] == buf[..m + k] + [input[pos + k]];
      k := k + 1;
    }
  }

  /** One turn of the outer loop: n more bytes of input, whose finished lines come out. */
  method Refill(re: string, buf: array<char>, m: nat, input: string, pos: nat, n: nat, ghost seen: string,
                ghost hidden: string)
    returns (lines: string, m': nat, ghost seen': string, ghost hidden': string)
    requires pos + n <= |input| && m + n < BUFSIZE == buf.Length && buf[..m] == Tail(seen) + hidden
    requires Parted(input[..pos], seen, hidden) && LinesFit(seen)
    modifies buf
    ensures m' <= m + n && buf[..m'] == Tail(seen') + hidden' && Parted(input[..pos + n], seen', hidden')
    ensures Selected(re, seen) + lines == Selected(re, seen') && LinesFit(seen')
  {
    Read(buf, m, input, pos, n);
    ghost var data;
    assert input[..pos] + input[pos..pos + n] == input[..pos + n];
    data, seen', hidden' := Refilled(re, input[..pos], seen, hidden, input[pos..pos + n]);
    var p;
    lines, p := EmitLines(re, buf, m + n, data, hidden');
    m' := m + n - p;
    MoveDown(buf, p, m');
  }

  /** What is in the buffer after a read, and what it means for the input as a whole. */
  lemma Refilled(re: string, before: string, seen: string, hidden: string, chunk: string)
    returns (data: string, seen': string, hidden': string)
    requires Parted(before, seen, hidden) && LinesFit(seen) && |Tail(seen) + hidden| + |chunk| < BUFSIZE
    ensures Parted(Tail(seen) + hidden + chunk, data, hidden') && Parted(before + chunk, seen', hidden')
    ensures Tail(data) == Tail(seen') && Selected(re, seen) + Selected(re, data) == Selected(re, seen')
    ensures LinesFit(seen')
  {
    var more;
    more, hidden' := PartMore(before, seen, hidden, chunk);
    TailNulFree(seen);
    Assoc(Tail(seen), hidden, chunk);
    Assoc(Tail(seen), more, hidden');
    data, seen' := Tail(seen) + more, seen + more;
    MoreInput(re, seen, more);
    FitsMore(seen, more);
  }

  lemma {:induction false} TailNulFree(s: string)
    requires NulFree(s)
    ensures NulFree(Tail(s))
    decreases |s|
  {
    var i := FirstNewline(s);
    if i < |s| { TailNulFree(s[i + 1..]); }
  }

  lemma MoreInput(re: string, seen: string, more: string)
    ensures Tail(Tail(seen) + more) == Tail(seen + more)
    ensures Selected(re, seen) + Selected(re, Tail(seen) + more) == Selected(re, seen + more)
  {
    SelectedAppend(re, seen, more);
    TailAppend(seen, more);
  }

  /** The lines of more input fit, if they fit in the buffer with what is left over. */
  lemma FitsMore(seen: string, more: string)
    requires LinesFit(seen) && |Tail(seen)| + |more| < BUFSIZE
    ensures LinesFit(seen + more)
  {
    ShortFits(Tail(seen) + more);
    FitsAppend(seen, more);
  }

  /** However read splits the input, grep writes exactly the matching lines before the first
      NUL and before the first line that does not fit in its buffer, so all of them if
      there is no NUL and they all fit. */
  method Grep(re: string, input: string, sizes: seq<nat>) returns (out: string)
    ensures out == Selected(re, Readable(Seen(input)))
    ensures LinesFit(Seen(input)) ==> out == Selected(re, Seen(input))
    ensures NulFree(input) && LinesFit(input) ==> out == Selected(re, input)
  {
    var buf := new char[BUFSIZE];
    var m: nat, pos: nat, r: nat := 0, 0, 0;
    ghost var seen, hidden := "", "";
    out := "";
    var n := ReadSize(if r < |sizes| then sizes[r] else 0, BUFSIZE - m - 1, |input| - pos);
    while n > 0
      invariant pos + n <= |input| && m + n < BUFSIZE && (n == 0 ==> m == BUFSIZE - 1 || pos == |input|)
      invariant buf[..m] == Tail(seen) + hidden && Parted(input[..pos], seen, hidden) && LinesFit(seen)
      invariant out == Selected(re, seen)
      decreases |input| - pos
    {
      var lines: string;
      lines, m, seen, hidden := Refill(re, buf, m, input, pos, n, seen, hidden);
      out := out + lines;
      pos := pos + n;
      r := r + 1;
      n := ReadSize(if r < |sizes| then sizes[r] else 0, BUFSIZE - m - 1, |input| - pos);
    }
    AllSeen(re, input, pos, seen, hidden);
    if NulFree(input) { SeenIs(input, input, ""); }
    if LinesFit(Seen(input)) { FitsAll(re, Seen(input)); }
  }

  /** When reading stops, a NUL has come up, the input is at its end, or the buffer is full. */
  lemma AllSeen(re: string, input: string, pos: nat, seen: string, hidden: string)
    requires pos <= |input| && Parted(input[..pos], seen, hidden) && LinesFit(seen)
    requires pos == |input| || |Tail(seen) + hidden| >= BUFSIZE - 1
    ensures Selected(re, seen) == Selected(re, Readable(Seen(input)))
  {
    var more, hidden' := PartMore(input[..pos], seen, hidden, input[pos..]);
    assert input[..pos] + input[pos..] == input;
    SeenIs(input, seen + more, hidden');
    AllRead(re, seen, more);
  }

  /** At the end of the input, or with the buffer full, there is nothing more to read. */
  lemma AllRead(re: string, s: string, t: string)
    requires LinesFit(s) && (t == "" || |Tail(s)| >= BUFSIZE - 1)
    ensures Selected(re, s) == Selected(re, Readable(s + t))
  {
    FitsAll(re, s);
    FitsAppend(s, t);
    TailNoNewline(s);
    FirstAppend(Tail(s), t);
    assert Tail(s) + "" == Tail(s);
    assert Readable(Tail(s) + t) == "" && Readable(s) + "" == Readable(s);
  }
}
