/** The quote-, escape- and bracket-aware splitter of progress-log metadata. */
module SmartSplit {
  import opened Common
  import opened PythonText

  /** Where a scan stands: inside which quote, after an escape, how deep in brackets. */
  datatype Scan = Scan(quote: Option<char>, escape: bool, depth: nat)

  const START := Scan(None, false, 0)

  predicate Opens(c: char) {
    c == '(' || c == '[' || c == '{'
  }

  predicate Closes(c: char) {
    c == ')' || c == ']' || c == '}'
  }

  predicate Quotes(c: char) {
    c == '\'' || c == '"'
  }

  function Step(s: Scan, c: char): Scan {
    if s.escape then s.(escape := false)
    else if c == '\\' && s.quote.Some? then s.(escape := true)
    else if s.quote.Some? then (if s.quote == Some(c) then s.(quote := None) else s)
    else if Quotes(c) then s.(quote := Some(c))
    else if Opens(c) then s.(depth := s.depth + 1)
    else if Closes(c) && s.depth > 0 then s.(depth := s.depth - 1)
    else s
  }

  /** The scan splits at `c`: an unquoted, unescaped separator outside all brackets. */
  predicate Splits(s: Scan, c: char, sep: char) {
    s == START && c == sep && !Quotes(c) && !Opens(c)
  }

  function ScanAll(text: string, s: Scan): Scan {
    if text == "" then s else ScanAll(text[1..], Step(s, text[0]))
  }

  /** The unstripped pieces; a negative budget allows any number of splits. */
  function Pieces(text: string, s: Scan, sep: char, budget: int): (r: seq<string>)
    ensures |r| >= 1
    ensures budget >= 0 ==> |r| <= budget + 1
    decreases |text|
  {
    if text == "" then [""]
    else if Splits(s, text[0], sep) && budget != 0 then
      [""] + Pieces(text[1..], s, sep, if budget < 0 then budget else budget - 1)
    else
      var rest := Pieces(text[1..], Step(s, text[0]), sep, budget);
      [[text[0]] + rest[0]] + rest[1..]
  }

  function StripAll(pieces: seq<string>): seq<string> {
    seq(|pieces|, i requires 0 <= i < |pieces| => Strip(pieces[i]))
  }

  function Split(text: string, sep: char, maxsplit: int): seq<string> {
    StripAll(Pieces(text, START, sep, maxsplit))
  }

  /** The pieces so far, the open piece `buf` running on into the pieces of the rest. */
  function Continued(done: seq<string>, buf: string, rest: seq<string>): seq<string>
    requires |rest| >= 1
  {
    done + [buf + rest[0]] + rest[1..]
  }

  /** Reading one character moves it into the open piece, or closes that piece. */
  lemma Consume(done: seq<string>, buf: string, ch: char, rest: string, s: Scan, sep: char, budget: int)
    ensures var before := Continued(done, buf, Pieces([ch] + rest, s, sep, budget));
            if Splits(s, ch, sep) && budget != 0 then
              before == Continued(done + [buf], "", Pieces(rest, s, sep, if budget < 0 then budget else budget - 1))
            else
              before == Continued(done, buf + [ch], Pieces(rest, Step(s, ch), sep, budget))
  {
    assert ([ch] + rest)[1..] == rest;
    if Splits(s, ch, sep) && budget != 0 {
      ContinuedAfter(done, buf, Pieces(rest, s, sep, if budget < 0 then budget else budget - 1));
    } else {
      ContinuedGrown(done, buf, ch, Pieces(rest, Step(s, ch), sep, budget));
    }
  }

  lemma ContinuedAfter(done: seq<string>, buf: string, next: seq<string>)
    requires |next| >= 1
    ensures Continued(done, buf, [""] + next) == Continued(done + [buf], "", next)
  {
    assert buf + "" == buf && "" + next[0] == next[0];
    assert ([""] + next)[1..] == [next[0]] + next[1..];
  }

  lemma ContinuedGrown(done: seq<string>, buf: string, ch: char, next: seq<string>)
    requires |next| >= 1
    ensures Continued(done, buf, Grow(ch, next)) == Continued(done, buf + [ch], next)
  {
    assert buf + ([ch] + next[0]) == buf + [ch] + next[0];
  }

  lemma StripOneMore(done: seq<string>, buf: string)
    ensures StripAll(done + [buf]) == StripAll(done) + [Strip(buf)]
  {
  }

  lemma NothingYet(whole: seq<string>)
    requires |whole| >= 1
    ensures Continued([], "", whole) == whole
  {
    assert "" + whole[0] == whole[0];
  }

  lemma NothingLeft(done: seq<string>, buf: string)
    ensures Continued(done, buf, [""]) == done + [buf]
  {
    assert buf + "" == buf;
  }

  /** `smart_split`, character by character. */
  method SplitText(text: string, sep: char, maxsplit: int) returns (parts: seq<string>)
    ensures parts == Split(text, sep, maxsplit)
  {
    ghost var whole := Pieces(text, START, sep, maxsplit);
    ghost var done: seq<string> := [];
    parts := [];
    var buf: string := "";
    var quote: Option<char>, escape, depth: nat, splits := None, false, 0, 0;
    var i := 0;
    ghost var here, left := START, maxsplit;
    assert text[0..] == text;
    NothingYet(whole);
    while i < |text|
      invariant 0 <= i <= |text| && splits >= 0
      invariant maxsplit >= 0 ==> splits <= maxsplit
      invariant parts == StripAll(done)
      invariant here == Scan(quote, escape, depth) && left == Left(maxsplit, splits)
      invariant whole == Continued(done, buf, Pieces(text[i..], here, sep, left))
    {
      var ch := text[i];
      assert [ch] + text[i + 1..] == text[i..];
      Consume(done, buf, ch, text[i + 1..], here, sep, left);
      ghost var cut := Splits(here, ch, sep) && left != 0;
      if cut {
        left := if left < 0 then left else left - 1;
      } else {
        here := Step(here, ch);
      }
      if escape {
        buf := buf + [ch];
        escape := false;
      } else if ch == '\\' && quote.Some? {
        buf := buf + [ch];
        escape := true;
      } else if quote.Some? {
        buf := buf + [ch];
        if Some(ch) == quote {
          quote := None;
        }
      } else if Quotes(ch) {
        quote := Some(ch);
        buf := buf + [ch];
      } else if Opens(ch) {
        depth := depth + 1;
        buf := buf + [ch];
      } else if Closes(ch) && depth > 0 {
        depth := depth - 1;
        buf := buf + [ch];
      } else if ch == sep && depth == 0 && (maxsplit < 0 || splits < maxsplit) {
        StripOneMore(done, buf);
        parts := parts + [Strip(buf)];
        done := done + [buf];
        buf := "";
        splits := splits + 1;
      } else {
        buf := buf + [ch];
      }
      i := i + 1;
    }
    assert text[i..] == "";
    NothingLeft(done, buf);
    StripOneMore(done, buf);
    parts := parts + [Strip(buf)];
  }

  function Left(maxsplit: int, splits: int): int {
    if maxsplit < 0 then maxsplit else maxsplit - splits
  }

  // ---------------------------------------------------------------- its laws

  function Join(pieces: seq<string>, sep: char): string {
    if pieces == [] then ""
    else if |pieces| == 1 then pieces[0]
    else pieces[0] + [sep] + Join(pieces[1..], sep)
  }

  /** No character is lost: the separator between the pieces rebuilds the text. */
  lemma {:induction false} JoinRebuilds(text: string, s: Scan, sep: char, budget: int)
    ensures Join(Pieces(text, s, sep, budget), sep) == text
    decreases |text|
  {
    if text != "" {
      if Splits(s, text[0], sep) && budget != 0 {
        JoinRebuilds(text[1..], s, sep, if budget < 0 then budget else budget - 1);
      } else {
        JoinRebuilds(text[1..], Step(s, text[0]), sep, budget);
      }
    }
  }

  /** The last piece of `left` runs on into the first of `right`. */
  function Fuse(left: seq<string>, right: seq<string>): seq<string>
    requires left != [] && right != []
  {
    left[..|left| - 1] + [left[|left| - 1] + right[0]] + right[1..]
  }

  function Grow(c: char, pieces: seq<string>): seq<string>
    requires pieces != []
  {
    [[c] + pieces[0]] + pieces[1..]
  }

  lemma FuseAfter(piece: string, left: seq<string>, right: seq<string>)
    requires left != [] && right != []
    ensures Fuse([piece] + left, right) == [piece] + Fuse(left, right)
  {
    assert ([piece] + left)[..|left|] == [piece] + left[..|left| - 1];
  }

  lemma FuseGrown(c: char, left: seq<string>, right: seq<string>)
    requires left != [] && right != []
    ensures Fuse(Grow(c, left), right) == Grow(c, Fuse(left, right))
  {
    if |left| == 1 {
      assert [c] + (left[0] + right[0]) == [c] + left[0] + right[0];
    } else {
      assert Grow(c, left)[..|left| - 1] == Grow(c, left[..|left| - 1]);
    }
  }

  /** Splitting a text in two halves. */
  lemma {:induction false} SplitsInHalves(a: string, b: string, s: Scan, sep: char)
    ensures Pieces(a + b, s, sep, -1) == Fuse(Pieces(a, s, sep, -1), Pieces(b, ScanAll(a, s), sep, -1))
    decreases |a|
  {
    if a == "" {
      var right := Pieces(b, s, sep, -1);
      assert a + b == b && "" + right[0] == right[0];
    } else {
      var c, rest := a[0], a[1..];
      var t := Step(s, c);
      var left, right := Pieces(rest, t, sep, -1), Pieces(b, ScanAll(a, s), sep, -1);
      assert (a + b)[0] == c && (a + b)[1..] == rest + b;
      SplitsInHalves(rest, b, t, sep);
      if Splits(s, c, sep) {
        FuseAfter("", left, right);
      } else {
        FuseGrown(c, left, right);
      }
    }
  }

  lemma SeparatorAtTop(b: string, sep: char)
    requires !Quotes(sep) && !Opens(sep)
    ensures Pieces([sep] + b, START, sep, -1) == [""] + Pieces(b, START, sep, -1)
  {
    assert ([sep] + b)[1..] == b;
  }

  lemma SeparatorInside(b: string, s: Scan, sep: char)
    requires s != START
    ensures var rest := Pieces(b, Step(s, sep), sep, -1);
            Pieces([sep] + b, s, sep, -1) == [[sep] + rest[0]] + rest[1..]
  {
    assert ([sep] + b)[1..] == b;
  }

  /**
   Splitting is compositional exactly at top level: if scanning `a` ends outside quotes, escapes
   and brackets, splitting `a;b` gives the pieces of `a` and then those of `b`; otherwise the
   separator is an ordinary character and one piece spans it.
   */
  lemma SplitComposes(a: string, b: string, sep: char)
    requires !Quotes(sep) && !Opens(sep)
    ensures var left := Pieces(a, START, sep, -1);
            if ScanAll(a, START) == START then
              Pieces(a + ([sep] + b), START, sep, -1) == left + Pieces(b, START, sep, -1)
            else
              var right := Pieces(b, Step(ScanAll(a, START), sep), sep, -1);
              Pieces(a + ([sep] + b), START, sep, -1) == Fuse(left, Grow(sep, right))
  {
    var end := ScanAll(a, START);
    var left := Pieces(a, START, sep, -1);
    SplitsInHalves(a, [sep] + b, START, sep);
    if end == START {
      SeparatorAtTop(b, sep);
      assert left[|left| - 1] + "" == left[|left| - 1];
      assert left[..|left| - 1] + [left[|left| - 1]] == left;
    } else {
      SeparatorInside(b, end, sep);
    }
  }

  /** Pieces cannot be split further: the first from where it began, the others from the top. */
  lemma {:induction false} PiecesAreIndivisible(text: string, s: Scan, sep: char, i: nat)
    requires i < |Pieces(text, s, sep, -1)|
    ensures var p := Pieces(text, s, sep, -1)[i]; Pieces(p, if i == 0 then s else START, sep, -1) == [p]
    decreases |text|
  {
    if text != "" {
      var c := text[0];
      if Splits(s, c, sep) {
        if i > 0 {
          PiecesAreIndivisible(text[1..], s, sep, i - 1);
        }
      } else {
        PiecesAreIndivisible(text[1..], Step(s, c), sep, i);
        var p := Pieces(text, s, sep, -1)[i];
        if i == 0 {
          assert p[0] == c && p[1..] == Pieces(text[1..], Step(s, c), sep, -1)[0];
        }
      }
    }
  }

  function Limited(full: seq<string>, sep: char, m: nat): seq<string> {
    if |full| <= m + 1 then full else full[..m] + [Join(full[m..], sep)]
  }

  lemma LimitedAfter(piece: string, rest: seq<string>, sep: char, m: nat)
    requires m > 0
    ensures Limited([piece] + rest, sep, m) == [piece] + Limited(rest, sep, m - 1)
  {
    if |rest| > m {
      assert ([piece] + rest)[m..] == rest[m - 1..];
    }
  }

  lemma LimitedGrown(c: char, rest: seq<string>, sep: char, m: nat)
    requires m > 0 && rest != []
    ensures Limited(rest, sep, m) != [] && Limited(Grow(c, rest), sep, m) == Grow(c, Limited(rest, sep, m))
  {
    if |rest| > m + 1 {
      GrowFront(c, rest, m);
      assert Grow(c, rest[..m] + [Join(rest[m..], sep)]) == Grow(c, rest[..m]) + [Join(rest[m..], sep)];
    }
  }

  lemma GrowFront(c: char, rest: seq<string>, m: nat)
    requires 0 < m <= |rest|
    ensures Grow(c, rest)[m..] == rest[m..]
    ensures Grow(c, rest)[..m] == Grow(c, rest[..m])
  {
    var whole, front := Grow(c, rest), rest[..m];
    forall k | 0 <= k < m ensures whole[..m][k] == Grow(c, front)[k] {
      assert front[k] == rest[k];
    }
  }

  /** A limit of `m` splits keeps the first `m` pieces and leaves the rest of the text in one. */
  lemma {:induction false} LimitKeepsRest(text: string, s: Scan, sep: char, m: nat)
    ensures Pieces(text, s, sep, m) == Limited(Pieces(text, s, sep, -1), sep, m)
    decreases |text|
  {
    if m == 0 {
      WithoutSplits(text, s, sep);
      var full := Pieces(text, s, sep, -1);
      JoinRebuilds(text, s, sep, -1);
      assert full[0..] == full && (|full| == 1 ==> full == [full[0]]);
    } else if text != "" {
      var c, rest := text[0], text[1..];
      if Splits(s, c, sep) {
        LimitKeepsRest(rest, s, sep, m - 1);
        LimitedAfter("", Pieces(rest, s, sep, -1), sep, m);
      } else {
        LimitKeepsRest(rest, Step(s, c), sep, m);
        LimitedGrown(c, Pieces(rest, Step(s, c), sep, -1), sep, m);
      }
    }
  }

  lemma {:induction false} WithoutSplits(text: string, s: Scan, sep: char)
    ensures Pieces(text, s, sep, 0) == [text]
    decreases |text|
  {
    if text != "" {
      WithoutSplits(text[1..], Step(s, text[0]), sep);
      assert [text[0]] + text[1..] == text;
    }
  }

  /** A text that does not open with the separator opens its first piece. */
  lemma FirstPieceStarts(text: string, s: Scan, sep: char, budget: int)
    requires text != "" && text[0] != sep
    ensures Pieces(text, s, sep, budget)[0] != "" && Pieces(text, s, sep, budget)[0][0] == text[0]
  {
  }
}
