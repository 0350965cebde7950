/**
 Which separators split, told by the shape of the text: quoted stretches and bracketed groups stay
 whole, and every other separator splits.
 */
module SplitGrammar {
  import opened Common
  import opened SmartSplit

  // ---------------------------------------------------------------- shapes of text

  /** What may stand between the quotes: a backslash takes the next character with it. */
  predicate QuotedBody(q: char, body: string) {
    || body == ""
    || (body[0] == '\\' && |body| >= 2 && QuotedBody(q, body[2..]))
    || (body[0] != '\\' && body[0] != q && QuotedBody(q, body[1..]))
  }

  /** A single character, a quoted stretch, or a group in brackets of one of the three kinds. */
  datatype Bit = Single(c: char) | Quoted(q: char, body: string) | Group(open: char, inner: Bits, close: char)
  datatype Bits = Nil | Cons(first: Bit, rest: Bits)

  function Written(bits: Bits): string {
    match bits
    case Nil => ""
    case Cons(first, rest) => WrittenBit(first) + Written(rest)
  }

  function WrittenBit(bit: Bit): string {
    match bit
    case Single(c) => [c]
    case Quoted(q, body) => [q] + body + [q]
    case Group(open, inner, close) => [open] + Written(inner) + [close]
  }

  predicate Ordinary(c: char) {
    c != '\'' && c != '"' && c != '(' && c != '[' && c != '{' && c != ')' && c != ']' && c != '}'
  }

  predicate Pair(open: char, close: char) {
    (open == '(' && close == ')') || (open == '[' && close == ']') || (open == '{' && close == '}')
  }

  /** Text in which every quote is closed and every bracket has its partner. */
  predicate Balanced(bits: Bits) {
    bits.Cons? ==> BalancedBit(bits.first) && Balanced(bits.rest)
  }

  predicate BalancedBit(bit: Bit) {
    match bit
    case Single(c) => Ordinary(c)
    case Quoted(q, body) => (q == '\'' || q == '"') && QuotedBody(q, body)
    case Group(open, inner, close) => Pair(open, close) && Balanced(inner)
  }

  /** The separator does not stand alone outside the groups and quotes. */
  predicate Without(bits: Bits, sep: char) {
    bits.Cons? ==> bits.first != Single(sep) && Without(bits.rest, sep)
  }

  // ---------------------------------------------------------------- text that stays whole

  /** `text` runs on into the first piece. */
  function Before(text: string, pieces: seq<string>): seq<string>
    requires pieces != []
  {
    [text + pieces[0]] + pieces[1..]
  }

  /** From `s`, `text` is read without a split, and leaves the scan at `t`. */
  ghost predicate Whole(text: string, s: Scan, t: Scan, sep: char) {
    && ScanAll(text, s) == t
    && forall rest: string, budget: int ::
         Pieces(text + rest, s, sep, budget) == Before(text, Pieces(rest, t, sep, budget))
  }

  lemma {:induction false} ScanAllThen(a: string, b: string, s: Scan)
    ensures ScanAll(a + b, s) == ScanAll(b, ScanAll(a, s))
    decreases |a|
  {
    if a == "" {
      assert a + b == b;
    } else {
      assert (a + b)[1..] == a[1..] + b;
      ScanAllThen(a[1..], b, Step(s, a[0]));
    }
  }

  lemma NothingIsWhole(s: Scan, sep: char)
    ensures Whole("", s, s, sep)
  {
    forall rest: string, budget: int ensures Pieces("" + rest, s, sep, budget) == Before("", Pieces(rest, s, sep, budget)) {
      assert "" + rest == rest;
      BeforeNothing(Pieces(rest, s, sep, budget));
    }
  }

  lemma BeforeNothing(pieces: seq<string>)
    requires pieces != []
    ensures Before("", pieces) == pieces
  {
    assert "" + pieces[0] == pieces[0];
  }

  lemma BeforeTwice(a: string, b: string, pieces: seq<string>)
    requires pieces != []
    ensures Before(a, Before(b, pieces)) == Before(a + b, pieces)
  {
    assert a + (b + pieces[0]) == a + b + pieces[0];
  }

  /** A character that does not split here is read on its own. */
  lemma OneIsWhole(c: char, s: Scan, sep: char)
    requires !Splits(s, c, sep)
    ensures Whole([c], s, Step(s, c), sep)
  {
    assert [c][1..] == "";
    forall rest: string, budget: int
      ensures Pieces([c] + rest, s, sep, budget) == Before([c], Pieces(rest, Step(s, c), sep, budget))
    {
      assert ([c] + rest)[1..] == rest;
    }
  }

  lemma PiecesThen(a: string, b: string, rest: string, s: Scan, m: Scan, t: Scan, sep: char, budget: int)
    requires Whole(a, s, m, sep) && Whole(b, m, t, sep)
    ensures Pieces(a + b + rest, s, sep, budget) == Before(a + b, Pieces(rest, t, sep, budget))
  {
    Regroup(a, b, rest);
    var next := Pieces(b + rest, m, sep, budget);
    assert Pieces(a + (b + rest), s, sep, budget) == Before(a, next);
    BeforeTwice(a, b, Pieces(rest, t, sep, budget));
  }

  lemma Regroup(a: string, b: string, c: string)
    ensures a + b + c == a + (b + c)
  {
  }

  lemma WholeThen(a: string, b: string, s: Scan, m: Scan, t: Scan, sep: char)
    requires Whole(a, s, m, sep) && Whole(b, m, t, sep)
    ensures Whole(a + b, s, t, sep)
  {
    assert ScanAll(a + b, s) == t by {
      ScanAllThen(a, b, s);
    }
    forall rest: string, budget: int ensures Pieces(a + b + rest, s, sep, budget) == Before(a + b, Pieces(rest, t, sep, budget)) {
      PiecesThen(a, b, rest, s, m, t, sep, budget);
    }
  }

  // ---------------------------------------------------------------- quotes

  /** Inside a quote everything up to the closing one is read whole, separators included. */
  lemma {:induction false} QuotedRestIsWhole(q: char, body: string, depth: nat, sep: char)
    requires (q == '\'' || q == '"') && QuotedBody(q, body)
    ensures Whole(body + [q], Scan(Some(q), false, depth), Scan(None, false, depth), sep)
    decreases |body|
  {
    var inside := Scan(Some(q), false, depth);
    if body == "" {
      assert body + [q] == [q];
      OneIsWhole(q, inside, sep);
    } else if body[0] == '\\' {
      var escaped := Scan(Some(q), true, depth);
      assert body + [q] == ['\\'] + ([body[1]] + (body[2..] + [q]));
      OneIsWhole('\\', inside, sep);
      OneIsWhole(body[1], escaped, sep);
      QuotedRestIsWhole(q, body[2..], depth, sep);
      WholeThen([body[1]], body[2..] + [q], escaped, inside, Scan(None, false, depth), sep);
      WholeThen(['\\'], [body[1]] + (body[2..] + [q]), inside, escaped, Scan(None, false, depth), sep);
    } else {
      assert body + [q] == [body[0]] + (body[1..] + [q]);
      OneIsWhole(body[0], inside, sep);
      QuotedRestIsWhole(q, body[1..], depth, sep);
      WholeThen([body[0]], body[1..] + [q], inside, inside, Scan(None, false, depth), sep);
    }
  }

  /** A quoted stretch is read whole, at any depth. */
  lemma QuotedIsWhole(q: char, body: string, depth: nat, sep: char)
    requires (q == '\'' || q == '"') && QuotedBody(q, body)
    ensures Whole([q] + body + [q], Scan(None, false, depth), Scan(None, false, depth), sep)
  {
    var outside, inside := Scan(None, false, depth), Scan(Some(q), false, depth);
    OneIsWhole(q, outside, sep);
    QuotedRestIsWhole(q, body, depth, sep);
    WholeThen([q], body + [q], outside, inside, outside, sep);
    assert [q] + (body + [q]) == [q] + body + [q];
  }

  /** A body without its quote and without backslashes is one. */
  lemma {:induction false} PlainBody(q: char, body: string)
    requires q !in body && '\\' !in body
    ensures QuotedBody(q, body)
    decreases |body|
  {
    if body != "" {
      assert body[0] in body && forall c :: c in body[1..] ==> c in body;
      PlainBody(q, body[1..]);
    }
  }

  /** A backslash keeps the next quote from closing: the stretch goes on behind it. */
  lemma {:induction false} EscapedQuote(q: char, body: string, c: char, rest: string)
    requires QuotedBody(q, body) && QuotedBody(q, rest)
    ensures QuotedBody(q, body + (['\\', c] + rest))
    decreases |body|
  {
    var whole := body + (['\\', c] + rest);
    if body == "" {
      assert whole[2..] == rest;
    } else if body[0] == '\\' {
      assert whole[2..] == body[2..] + (['\\', c] + rest);
      EscapedQuote(q, body[2..], c, rest);
    } else {
      assert whole[1..] == body[1..] + (['\\', c] + rest);
      EscapedQuote(q, body[1..], c, rest);
    }
  }

  /**
   Quotes protect separators: splitting `q body q rest` from the top puts the whole quoted text
   into the first piece, for either quote, whatever the separator.
   */
  lemma QuotesProtect(q: char, body: string, rest: string, sep: char, budget: int)
    requires (q == '\'' || q == '"') && (QuotedBody(q, body) || (q !in body && '\\' !in body))
    ensures Pieces([q] + body + [q] + rest, START, sep, budget)
            == Before([q] + body + [q], Pieces(rest, START, sep, budget))
  {
    if q !in body && '\\' !in body {
      PlainBody(q, body);
    }
    QuotedIsWhole(q, body, 0, sep);
  }

  // ---------------------------------------------------------------- brackets

  /** Inside brackets balanced text is read whole, separators included. */
  lemma {:induction false} InsideIsWhole(bits: Bits, depth: nat, sep: char)
    requires Balanced(bits) && depth > 0
    ensures Whole(Written(bits), Scan(None, false, depth), Scan(None, false, depth), sep)
    decreases bits, 0
  {
    var here := Scan(None, false, depth);
    match bits {
      case Nil => NothingIsWhole(here, sep);
      case Cons(first, rest) =>
        BitInsideIsWhole(first, depth, sep);
        InsideIsWhole(rest, depth, sep);
        WholeThen(WrittenBit(first), Written(rest), here, here, here, sep);
    }
  }

  lemma {:induction false} BitInsideIsWhole(bit: Bit, depth: nat, sep: char)
    requires BalancedBit(bit) && depth > 0
    ensures Whole(WrittenBit(bit), Scan(None, false, depth), Scan(None, false, depth), sep)
    decreases bit, 1
  {
    match bit {
      case Single(c) => OneIsWhole(c, Scan(None, false, depth), sep);
      case Quoted(q, body) => QuotedIsWhole(q, body, depth, sep);
      case Group(open, inner, close) =>
        InsideIsWhole(inner, depth + 1, sep);
        GroupIsWhole(open, Written(inner), close, depth, sep);
    }
  }

  lemma GroupIsWhole(open: char, text: string, close: char, depth: nat, sep: char)
    requires Pair(open, close) && Whole(text, Scan(None, false, depth + 1), Scan(None, false, depth + 1), sep)
    ensures Whole([open] + text + [close], Scan(None, false, depth), Scan(None, false, depth), sep)
  {
    var here, inside := Scan(None, false, depth), Scan(None, false, depth + 1);
    PairSteps(open, close, depth, sep);
    OneIsWhole(open, here, sep);
    OneIsWhole(close, inside, sep);
    WholeThen([open], text, here, inside, inside, sep);
    WholeThen([open] + text, [close], here, inside, here, sep);
  }

  lemma PairSteps(open: char, close: char, depth: nat, sep: char)
    requires Pair(open, close)
    ensures Step(Scan(None, false, depth), open) == Scan(None, false, depth + 1)
    ensures Step(Scan(None, false, depth + 1), close) == Scan(None, false, depth)
    ensures !Splits(Scan(None, false, depth), open, sep) && !Splits(Scan(None, false, depth + 1), close, sep)
  {
    assert Scan(None, false, depth + 1).depth != START.depth;
  }

  /** Brackets of any of the three kinds protect separators, and leave the scan where it was. */
  lemma BracketsProtect(open: char, inner: Bits, close: char, rest: string, sep: char, budget: int)
    requires Pair(open, close) && Balanced(inner)
    ensures Pieces([open] + Written(inner) + [close] + rest, START, sep, budget)
            == Before([open] + Written(inner) + [close], Pieces(rest, START, sep, budget))
  {
    InsideIsWhole(inner, 1, sep);
    GroupIsWhole(open, Written(inner), close, 0, sep);
  }

  // ---------------------------------------------------------------- separators at the top

  /** Balanced text ends at the top, so splitting is compositional behind it. */
  lemma {:induction false} BalancedEndsAtTop(bits: Bits)
    requires Balanced(bits)
    ensures ScanAll(Written(bits), START) == START
  {
    match bits {
      case Nil =>
      case Cons(first, rest) =>
        BitEndsAtTop(first);
        BalancedEndsAtTop(rest);
        ScanAllThen(WrittenBit(first), Written(rest), START);
    }
  }

  lemma BitEndsAtTop(bit: Bit)
    requires BalancedBit(bit)
    ensures ScanAll(WrittenBit(bit), START) == START
  {
    match bit {
      case Single(c) => assert [c][1..] == "";
      case Quoted(q, body) => QuotedIsWhole(q, body, 0, 'x');
      case Group(open, inner, close) =>
        InsideIsWhole(inner, 1, 'x');
        GroupIsWhole(open, Written(inner), close, 0, 'x');
    }
  }

  /** Balanced text that does not hold the separator on its own is read whole from the top. */
  lemma {:induction false} SegmentIsWhole(bits: Bits, sep: char)
    requires Balanced(bits) && Without(bits, sep)
    ensures Whole(Written(bits), START, START, sep)
  {
    match bits {
      case Nil => NothingIsWhole(START, sep);
      case Cons(first, rest) =>
        match first {
          case Single(c) => OneIsWhole(c, START, sep);
          case Quoted(q, body) => QuotedIsWhole(q, body, 0, sep);
          case Group(open, inner, close) =>
            InsideIsWhole(inner, 1, sep);
            GroupIsWhole(open, Written(inner), close, 0, sep);
        }
        SegmentIsWhole(rest, sep);
        WholeThen(WrittenBit(first), Written(rest), START, START, START, sep);
    }
  }

  lemma SeparatorCuts(rest: string, sep: char, budget: int)
    requires sep != '\'' && sep != '"' && sep != '(' && sep != '[' && sep != '{' && budget != 0
    ensures Pieces([sep] + rest, START, sep, budget)
            == [""] + Pieces(rest, START, sep, if budget < 0 then budget else budget - 1)
  {
    assert ([sep] + rest)[1..] == rest;
  }

  /** And after it a separator splits, while the limit allows. */
  lemma SeparatorSplits(bits: Bits, rest: string, sep: char, budget: int)
    requires Balanced(bits) && Without(bits, sep)
    requires sep != '\'' && sep != '"' && sep != '(' && sep != '[' && sep != '{' && budget != 0
    ensures Pieces(Written(bits) + ([sep] + rest), START, sep, budget)
            == [Written(bits)] + Pieces(rest, START, sep, if budget < 0 then budget else budget - 1)
  {
    SegmentIsWhole(bits, sep);
    SeparatorCuts(rest, sep, budget);
    assert Written(bits) + "" == Written(bits);
  }

  function Joined(segments: seq<Bits>, sep: char): string
    requires segments != []
  {
    if |segments| == 1 then Written(segments[0]) else Written(segments[0]) + ([sep] + Joined(segments[1..], sep))
  }

  function AllWritten(segments: seq<Bits>): seq<string> {
    seq(|segments|, i requires 0 <= i < |segments| => Written(segments[i]))
  }

  /**
   The pieces of a balanced text are the stretches between the separators that stand outside all
   quotes and brackets: no fewer, no more.
   */
  lemma {:induction false} SplitsAsWritten(segments: seq<Bits>, sep: char)
    requires segments != [] && sep != '\'' && sep != '"' && sep != '(' && sep != '[' && sep != '{'
    requires forall i :: 0 <= i < |segments| ==> Balanced(segments[i]) && Without(segments[i], sep)
    ensures Pieces(Joined(segments, sep), START, sep, -1) == AllWritten(segments)
    decreases |segments|
  {
    var first, rest := segments[0], segments[1..];
    if |segments| == 1 {
      LastSegment(first, sep);
      assert AllWritten(segments) == [Written(first)];
    } else {
      SplitsAsWritten(rest, sep);
      SeparatorSplits(first, Joined(rest, sep), sep, -1);
      assert AllWritten(segments) == [Written(first)] + AllWritten(rest);
    }
  }

  lemma LastSegment(bits: Bits, sep: char)
    requires Balanced(bits) && Without(bits, sep)
    ensures Pieces(Written(bits), START, sep, -1) == [Written(bits)]
  {
    SegmentIsWhole(bits, sep);
    assert Pieces(Written(bits) + "", START, sep, -1) == Before(Written(bits), Pieces("", START, sep, -1));
    assert Written(bits) + "" == Written(bits);
  }

  /** A backslash outside quotes is an ordinary character: it protects nothing. */
  lemma BackslashOutside(rest: string, sep: char, budget: int)
    requires sep != '\\' && sep != '\'' && sep != '"' && sep != '(' && sep != '[' && sep != '{' && budget != 0
    ensures Pieces(['\\'] + ([sep] + rest), START, sep, budget)
            == ["\\"] + Pieces(rest, START, sep, if budget < 0 then budget else budget - 1)
  {
    OneIsWhole('\\', START, sep);
    SeparatorCuts(rest, sep, budget);
    assert ['\\'] + "" == "\\";
  }
}
