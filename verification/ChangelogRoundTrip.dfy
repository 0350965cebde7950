/** Parsing what was printed: exactly which entries come back. */
module ChangelogRoundTrip {
  import opened Common
  import opened PythonText
  import opened ChangelogText

  predicate OneLine(s: string) {
    '\n' !in s
  }

  /** A value a field line can carry: trimmed, on one line, possibly empty. */
  predicate Fit(s: string) {
    Trimmed(s) && OneLine(s)
  }

  predicate FitTitle(s: string) {
    s != "" && Trimmed(s) && forall c :: c in s ==> !BreaksLine(c)
  }

  /** What every parsed entry looks like, whatever the text. */
  predicate FitEntry(e: Entry) {
    FitTitle(e.title) && Fit(e.project) && Fit(e.id) && Fit(e.summary)
  }

  /** The entries that survive printing and parsing; only the summary may be blank. */
  predicate Good(e: Entry) {
    FitEntry(e) && e.project != "" && e.id != ""
  }

  predicate AllFit(entries: seq<Entry>) {
    forall i :: 0 <= i < |entries| ==> FitEntry(entries[i])
  }

  predicate AllGood(entries: seq<Entry>) {
    forall i :: 0 <= i < |entries| ==> Good(entries[i])
  }

  // ---------------------------------------------------------------- pieces of text

  lemma NlAssoc(a: string, x: string, b: string)
    ensures Nl(Nl(a, x), b) == Nl(a, Nl(x, b))
  {
  }

  lemma NlFromHead(c: char, a: string, b: string)
    ensures Nl([c] + a, b) == [c] + Nl(a, b)
  {
  }

  lemma DropOne(c: char, s: string)
    ensures DropSpaces([c] + s) == if IsSpace(c) then DropSpaces(s) else [c] + s
  {
    assert ([c] + s)[1..] == s;
  }

  lemma DropNone(s: string)
    requires s != "" && !IsSpace(s[0])
    ensures DropSpaces(s) == s
  {
  }

  // ---------------------------------------------------------------- scanning printed text

  lemma ScanOne(c: char, s: string, bol: bool, cur: string)
    requires bol ==> c != '#'
    ensures Sections([c] + s, bol, cur) == Sections(s, c == '\n', cur + [c])
  {
    assert ([c] + s)[1..] == s;
  }

  lemma {:induction false} SkipLine(a: string, b: string, bol: bool, cur: string)
    requires OneLine(a) && (bol && a != "" ==> a[0] != '#')
    ensures Sections(Nl(a, b), bol, cur) == Sections(b, true, cur + a + "\n")
    decreases |a|
  {
    if a == "" {
      assert Nl(a, b) == ['\n'] + b && cur + a + "\n" == cur + ['\n'];
      ScanOne('\n', b, bol, cur);
    } else {
      var c, rest := a[0], a[1..];
      assert a == [c] + rest && c in a;
      NlFromHead(c, rest, b);
      ScanOne(c, Nl(rest, b), bol, cur);
      SkipLine(rest, b, false, cur + [c]);
      assert cur + [c] + rest == cur + a;
    }
  }

  predicate PlainLine(s: string) {
    OneLine(s) && s != "" && s[0] != '#'
  }

  lemma Regroup(c: string, l: string, b: string)
    ensures c + Nl(l, b) == (c + l + "\n") + b
  {
  }

  lemma RegroupFour(t: string, l1: string, l2: string, l3: string)
    ensures "" + t + "\n" + l1 + "\n" + l2 + "\n" + l3 + "\n" == Nl(t, Nl(l1, Nl(l2, Nl(l3, ""))))
  {
    var c1 := "" + t + "\n";
    var c2 := c1 + l1 + "\n";
    Regroup("", t, Nl(l1, Nl(l2, Nl(l3, ""))));
    Regroup(c1, l1, Nl(l2, Nl(l3, "")));
    Regroup(c2, l2, Nl(l3, ""));
    Regroup(c2 + l2 + "\n", l3, "");
  }

  lemma SkipFourLines(t: string, l1: string, l2: string, l3: string, b: string)
    requires OneLine(t) && PlainLine(l1) && PlainLine(l2) && PlainLine(l3)
    ensures Sections(Nl(t, Nl(l1, Nl(l2, Nl(l3, b)))), false, "") == Sections(b, true, Nl(t, Nl(l1, Nl(l2, Nl(l3, "")))))
  {
    var b3 := Nl(l3, b);
    var b2 := Nl(l2, b3);
    var c1 := "" + t + "\n";
    var c2 := c1 + l1 + "\n";
    SkipLine(t, Nl(l1, b2), false, "");
    SkipLine(l1, b2, true, c1);
    SkipLine(l2, b3, true, c2);
    SkipLine(l3, b, true, c2 + l2 + "\n");
    RegroupFour(t, l1, l2, l3);
  }

  lemma FieldLineIsPlain(name: string, value: string)
    requires OneLine(name) && OneLine(value)
    ensures PlainLine(FieldLine(name, value)) && !IsSpace(FieldLine(name, value)[0])
    ensures FieldLine(name, value)[0] == '-'
  {
  }

  lemma FieldsArePlain(e: Entry)
    requires FitEntry(e)
    ensures OneLine(e.title) && PlainLine(FieldLine(PROJECT, e.project))
    ensures PlainLine(FieldLine(ENTRY_ID, e.id)) && PlainLine(FieldLine(SUMMARY, e.summary))
  {
    assert BreaksLine('\n');
    FieldLineIsPlain(PROJECT, e.project);
    FieldLineIsPlain(ENTRY_ID, e.id);
    FieldLineIsPlain(SUMMARY, e.summary);
  }

  /** The body with something on the next line, from its front. */
  lemma BodyThen(e: Entry, b: string)
    ensures Nl(Body(e), b) == Nl(e.title, Nl(FieldLine(PROJECT, e.project), Nl(FieldLine(ENTRY_ID, e.id),
                                 Nl(FieldLine(SUMMARY, e.summary), b))))
  {
    var l1, l2, l3 := FieldLine(PROJECT, e.project), FieldLine(ENTRY_ID, e.id), FieldLine(SUMMARY, e.summary);
    NlAssoc(e.title, Nl(l1, Nl(l2, l3)), b);
    NlAssoc(l1, Nl(l2, l3), b);
    NlAssoc(l2, l3, b);
  }

  lemma SkipBody(e: Entry, b: string)
    requires FitEntry(e)
    ensures Sections(Nl(Body(e), b), false, "") == Sections(b, true, Nl(Body(e), ""))
  {
    FieldsArePlain(e);
    BodyThen(e, b);
    BodyThen(e, "");
    SkipFourLines(e.title, FieldLine(PROJECT, e.project), FieldLine(ENTRY_ID, e.id), FieldLine(SUMMARY, e.summary), b);
  }

  /** A heading followed by visible text starts a new piece at that text. */
  lemma EnterHeading(tail: string, cur: string)
    requires tail != "" && !IsSpace(tail[0])
    ensures Sections("## " + tail, true, cur) == [cur] + Sections(tail, false, "")
  {
    var rest := "## " + tail;
    assert rest[2..] == [' '] + tail;
    DropOne(' ', tail);
    DropNone(tail);
    assert rest[|rest| - |tail| - 1] == ' ';
  }

  lemma EnterSection(e: Entry, b: string, cur: string)
    requires FitEntry(e)
    ensures Sections(Nl(Section(e), b), true, cur) == [cur] + Sections(b, true, Nl(Body(e), ""))
  {
    var tail := Nl(Body(e), b);
    assert Nl(Section(e), b) == "## " + tail;
    assert tail[0] == e.title[0];
    EnterHeading(tail, cur);
    SkipBody(e, b);
  }

  /** The text after a section's last line: a newline, and for every section but the last a blank line. */
  function Ending(last: bool): string {
    if last then "" else "\n"
  }

  /** The pieces a printed changelog splits into. */
  function Pieces(entries: seq<Entry>): seq<string> {
    if entries == [] then []
    else [Nl(Body(entries[0]), Ending(|entries| == 1))] + Pieces(entries[1..])
  }

  /** The printed sections from the front. */
  function Chain(entries: seq<Entry>): string {
    if entries == [] then ""
    else Nl(Section(entries[0]), if |entries| == 1 then "" else Nl("", Chain(entries[1..])))
  }

  lemma RegroupJoin(first: string, middle: string, last: string)
    ensures first + ("\n\n" + middle) + last == first + ("\n\n" + (middle + last))
  {
  }

  lemma {:induction false} JoinedFromFront(entries: seq<Entry>)
    requires |entries| > 1
    ensures Joined(entries) == Section(entries[0]) + ("\n\n" + Joined(entries[1..]))
    decreases |entries|
  {
    var n := |entries| - 1;
    var first, last := Section(entries[0]), "\n\n" + Section(entries[n]);
    if n == 1 {
      assert entries[..1] == [entries[0]] && entries[1..] == [entries[1]];
    } else {
      JoinedFromFront(entries[..n]);
      assert entries[..n][1..] == entries[1..][..n - 1];
      var middle := Joined(entries[1..][..n - 1]);
      assert Joined(entries[1..]) == middle + last;
      RegroupJoin(first, middle, last);
    }
  }

  lemma JoinTwo(first: string, rest: string)
    ensures Nl(first + ("\n\n" + rest), "") == Nl(first, Nl("", Nl(rest, "")))
  {
    assert first + ("\n\n" + rest) == Nl(first, Nl("", rest));
    NlAssoc(first, Nl("", rest), "");
    NlAssoc("", rest, "");
  }

  lemma {:induction false} JoinedIsChain(entries: seq<Entry>)
    requires entries != []
    ensures Nl(Joined(entries), "") == Chain(entries)
    decreases |entries|
  {
    if |entries| > 1 {
      JoinedFromFront(entries);
      JoinedIsChain(entries[1..]);
      JoinTwo(Section(entries[0]), Joined(entries[1..]));
    }
  }

  lemma SkipBlankLine(body: string, b: string)
    ensures Sections(Nl("", b), true, Nl(body, "")) == Sections(b, true, Nl(body, "\n"))
  {
    SkipLine("", b, true, Nl(body, ""));
    assert Nl(body, "") + "" + "\n" == Nl(body, "\n");
  }

  lemma {:induction false} ChainSplits(entries: seq<Entry>, cur: string)
    requires entries != [] && AllFit(entries)
    ensures Sections(Chain(entries), true, cur) == [cur] + Pieces(entries)
    decreases |entries|
  {
    var e, rest := entries[0], entries[1..];
    var text := if rest == [] then "" else Nl("", Chain(rest));
    assert Chain(entries) == Nl(Section(e), text);
    EnterSection(e, text, cur);
    var piece := Nl(Body(e), Ending(rest == []));
    assert Pieces(entries) == [piece] + Pieces(rest);
    if rest == [] {
      assert Pieces(rest) == [] && [piece] + Pieces(rest) == [piece];
    } else {
      SkipBlankLine(Body(e), Chain(rest));
      ChainSplits(rest, piece);
    }
  }

  const TITLE := " Global Changelog"

  lemma HeaderLines(b: string)
    ensures HEADER + b == ['#'] + Nl(TITLE, Nl("", b))
    ensures "#" + TITLE + "\n" + "" + "\n" == HEADER
    ensures OneLine(TITLE)
  {
  }

  /** The header holds no heading of its own level. */
  lemma HeaderIsPreamble(b: string)
    ensures Sections(HEADER + b, true, "") == Sections(b, true, HEADER)
  {
    HeaderLines(b);
    SkipMark(Nl(TITLE, Nl("", b)));
    SkipLine(TITLE, Nl("", b), false, "#");
    SkipLine("", b, true, "#" + TITLE + "\n");
  }

  /** One mark before a space is no heading. */
  lemma SkipMark(rest: string)
    requires rest != "" && rest[0] == ' '
    ensures Sections(['#'] + rest, true, "") == Sections(rest, false, "#")
  {
    assert (['#'] + rest)[1..] == rest;
    assert "" + ['#'] == "#";
  }

  lemma RenderSplits(entries: seq<Entry>)
    requires AllFit(entries)
    ensures Sections(Render(entries), true, "") == [HEADER] + Pieces(entries)
  {
    if entries == [] {
      HeaderIsPreamble("");
      assert HEADER + "" == HEADER;
    } else {
      JoinedIsChain(entries);
      HeaderIsPreamble(Chain(entries));
      ChainSplits(entries, HEADER);
    }
  }

  // ---------------------------------------------------------------- finding fields in printed text

  lemma FindOne(c: char, s: string, bol: bool, name: string)
    requires bol ==> MatchAt([c] + s, name).None?
    ensures FindField([c] + s, bol, name) == FindField(s, c == '\n', name)
  {
    assert ([c] + s)[1..] == s;
  }

  lemma {:induction false} PassPlain(a: string, b: string, name: string)
    requires OneLine(a)
    ensures FindField(Nl(a, b), false, name) == FindField(b, true, name)
    decreases |a|
  {
    if a == "" {
      assert Nl(a, b) == ['\n'] + b;
      FindOne('\n', b, false, name);
    } else {
      var c, rest := a[0], a[1..];
      assert a == [c] + rest && c in a;
      NlFromHead(c, rest, b);
      FindOne(c, Nl(rest, b), false, name);
      PassPlain(rest, b, name);
    }
  }

  /** A line whose start does not match is passed over. */
  lemma PassLine(a: string, b: string, name: string)
    requires OneLine(a) && a != "" && MatchAt(Nl(a, b), name).None?
    ensures FindField(Nl(a, b), true, name) == FindField(b, true, name)
  {
    var c, rest := a[0], a[1..];
    assert a == [c] + rest && c in a;
    NlFromHead(c, rest, b);
    FindOne(c, Nl(rest, b), true, name);
    PassPlain(rest, b, name);
  }

  lemma KeyOfField(key: string)
    ensures DropTick(DropSpaces(("- `" + key)[1..])) == key
  {
    assert ("- `" + key)[1..] == [' '] + (['`'] + key);
    DropOne(' ', ['`'] + key);
    DropOne('`', key);
    assert (['`'] + key)[1..] == key;
  }

  lemma TickOff(s: string)
    ensures DropTick(['`'] + s) == s
  {
    assert (['`'] + s)[1..] == s;
  }

  lemma TickAndColonText(value: string)
    ensures "`: " + value == ['`'] + ([':'] + ([' '] + value))
  {
  }

  lemma TickAndColon(value: string)
    ensures DropSpaces(DropTick("`: " + value)) == [':'] + ([' '] + value)
  {
    TickAndColonText(value);
    TickOff([':'] + ([' '] + value));
    DropOne(':', [' '] + value);
  }

  lemma ColonThen(s: string)
    ensures MatchColon([':'] + s) == FieldValue(s)
  {
    assert ([':'] + s)[1..] == s;
  }

  lemma ColonAfterKey(name: string, value: string)
    ensures MatchKey(name + ("`: " + value), name) == FieldValue([' '] + value)
  {
    var rest := "`: " + value;
    assert (name + rest)[|name|..] == rest;
    TickAndColon(value);
    ColonThen([' '] + value);
  }

  lemma FieldLineThen(name: string, value: string, b: string)
    ensures Nl(FieldLine(name, value), b) == "- `" + (name + ("`: " + Nl(value, b)))
  {
  }

  /** The names of the fields tell them apart. */
  lemma OtherFieldsDoNotMatch(name: string, other: string, value: string, b: string, k: nat)
    requires k < |name| && k < |other| && name[k] != other[k]
    ensures MatchAt(Nl(FieldLine(other, value), b), name).None?
  {
    FieldLineThen(other, value, b);
    var key := other + ("`: " + Nl(value, b));
    KeyOfField(key);
    assert key[k] == other[k];
  }

  lemma OwnFieldMatches(name: string, value: string, b: string)
    ensures MatchAt(Nl(FieldLine(name, value), b), name) == FieldValue([' '] + Nl(value, b))
  {
    FieldLineThen(name, value, b);
    KeyOfField(name + ("`: " + Nl(value, b)));
    ColonAfterKey(name, Nl(value, b));
  }

  lemma FindOwnField(name: string, value: string, b: string)
    requires FieldValue([' '] + Nl(value, b)).Some?
    ensures FindField(Nl(FieldLine(name, value), b), true, name) == FieldValue([' '] + Nl(value, b)).value
  {
    OwnFieldMatches(name, value, b);
  }

  lemma {:induction false} LineOf(v: string, b: string)
    requires OneLine(v)
    ensures Line(Nl(v, b)) == v
    decreases |v|
  {
    if v == "" {
      assert Nl(v, b)[0] == '\n';
    } else {
      var c, rest := v[0], v[1..];
      assert v == [c] + rest && c in v;
      NlFromHead(c, rest, b);
      assert ([c] + Nl(rest, b))[1..] == Nl(rest, b);
      LineOf(rest, b);
    }
  }

  lemma VisibleValue(v: string, b: string)
    requires v != "" && Fit(v)
    ensures FieldValue([' '] + Nl(v, b)) == Some(v)
  {
    DropOne(' ', Nl(v, b));
    assert Nl(v, b)[0] == v[0];
    DropNone(Nl(v, b));
    LineOf(v, b);
  }

  /** A blank value lets the pattern run on to the next line. */
  lemma BlankValueRunsOn(l: string, b: string)
    requires l != "" && OneLine(l) && !IsSpace(l[0])
    ensures FieldValue([' '] + Nl("", Nl(l, b))) == Some(l)
  {
    var next := Nl(l, b);
    assert Nl("", next) == ['\n'] + next;
    DropOne(' ', ['\n'] + next);
    DropOne('\n', next);
    assert next[0] == l[0];
    DropNone(next);
    LineOf(l, b);
  }

  lemma BlankText(s: string)
    requires forall c :: c in s ==> IsSpace(c)
    ensures DropSpaces(s) == ""
  {
    assert forall k :: 0 <= k < |s| ==> s[k] in s;
  }

  lemma {:induction false} LastVisibleThenNewlines(c: char, s: string)
    requires c != '\n' && forall k :: 0 <= k < |s| ==> s[k] == '\n'
    ensures LastVisible([c] + s) == Some(c)
    decreases |s|
  {
    if s != "" {
      assert ([c] + s)[..|s|] == [c] + s[..|s| - 1];
      LastVisibleThenNewlines(c, s[..|s| - 1]);
    }
  }

  /** A blank value with only blank lines after it is read as one space. */
  lemma BlankValueAtEnd(last: bool)
    ensures FieldValue([' '] + Nl("", Ending(last))) == Some(" ")
  {
    var newlines := Nl("", Ending(last));
    assert forall k :: 0 <= k < |newlines| ==> newlines[k] == '\n';
    BlankText([' '] + newlines);
    LastVisibleThenNewlines(' ', newlines);
  }

  lemma PassTitle(e: Entry, b: string, name: string)
    requires OneLine(e.title)
    ensures FindField(Nl("## " + e.title, b), true, name) == FindField(b, true, name)
  {
    var line := "## " + e.title;
    assert line[0] == '#' && Nl(line, b)[0] == '#';
    PassLine(line, b, name);
  }

  lemma PassField(name: string, other: string, value: string, b: string, k: nat)
    requires k < |name| && k < |other| && name[k] != other[k] && OneLine(other) && OneLine(value)
    ensures FindField(Nl(FieldLine(other, value), b), true, name) == FindField(b, true, name)
  {
    FieldLineIsPlain(other, value);
    OtherFieldsDoNotMatch(name, other, value, b, k);
    PassLine(FieldLine(other, value), b, name);
  }

  /** The raw section as its four lines. */
  lemma RawSection(e: Entry, end: string)
    ensures "## " + Nl(Body(e), end) ==
            Nl("## " + e.title, Nl(FieldLine(PROJECT, e.project), Nl(FieldLine(ENTRY_ID, e.id),
               Nl(FieldLine(SUMMARY, e.summary), end))))
  {
    BodyThen(e, end);
    var b := Nl(FieldLine(PROJECT, e.project), Nl(FieldLine(ENTRY_ID, e.id), Nl(FieldLine(SUMMARY, e.summary), end)));
    assert "## " + Nl(e.title, b) == Nl("## " + e.title, b);
  }

  lemma NamesDiffer()
    ensures |PROJECT| > 7 && |ENTRY_ID| > 7 && |SUMMARY| > 1
    ensures PROJECT[7] != ENTRY_ID[7] && SUMMARY[1] != PROJECT[1] && SUMMARY[1] != ENTRY_ID[1]
    ensures OneLine(PROJECT) && OneLine(ENTRY_ID) && OneLine(SUMMARY)
  {
  }

  lemma FindProject(e: Entry, end: string)
    requires FitEntry(e)
    ensures FindField("## " + Nl(Body(e), end), true, PROJECT) ==
            if e.project == "" then FieldLine(ENTRY_ID, e.id) else e.project
  {
    FieldsArePlain(e);
    RawSection(e, end);
    FindInFirst(e, PROJECT, e.project, ENTRY_ID, e.id, Nl(FieldLine(SUMMARY, e.summary), end));
  }

  /** The field on the line after the title. */
  lemma FindInFirst(e: Entry, name: string, value: string, next: string, nextValue: string, b: string)
    requires OneLine(e.title) && Fit(value) && PlainLine(FieldLine(next, nextValue))
    ensures FindField(Nl("## " + e.title, Nl(FieldLine(name, value), Nl(FieldLine(next, nextValue), b))), true, name) ==
            if value == "" then FieldLine(next, nextValue) else value
  {
    PassTitle(e, Nl(FieldLine(name, value), Nl(FieldLine(next, nextValue), b)), name);
    FindHere(name, value, FieldLine(next, nextValue), b);
  }

  /** The field on this line: its value, or the line after it if the value is blank. */
  lemma FindHere(name: string, value: string, next: string, b: string)
    requires Fit(value) && PlainLine(next) && !IsSpace(next[0])
    ensures FindField(Nl(FieldLine(name, value), Nl(next, b)), true, name) == if value == "" then next else value
  {
    if value == "" {
      BlankValueRunsOn(next, b);
    } else {
      VisibleValue(value, Nl(next, b));
    }
    FindOwnField(name, value, Nl(next, b));
  }

  lemma FindId(e: Entry, end: string)
    requires FitEntry(e)
    ensures FindField("## " + Nl(Body(e), end), true, ENTRY_ID) ==
            if e.id == "" then FieldLine(SUMMARY, e.summary) else e.id
  {
    FieldsArePlain(e);
    RawSection(e, end);
    NamesDiffer();
    FindInSecond(e, ENTRY_ID, e.id, PROJECT, e.project, 7, FieldLine(SUMMARY, e.summary), end);
  }

  /** The field on the line after that. */
  lemma FindInSecond(e: Entry, name: string, value: string, first: string, firstValue: string, k: nat,
                     next: string, b: string)
    requires OneLine(e.title) && Fit(value) && OneLine(first) && OneLine(firstValue)
    requires k < |name| && k < |first| && name[k] != first[k]
    requires PlainLine(next) && !IsSpace(next[0])
    ensures FindField(Nl("## " + e.title, Nl(FieldLine(first, firstValue), Nl(FieldLine(name, value), Nl(next, b)))), true, name)
            == if value == "" then next else value
  {
    var rest := Nl(FieldLine(name, value), Nl(next, b));
    PassTitle(e, Nl(FieldLine(first, firstValue), rest), name);
    PassField(name, first, firstValue, rest, k);
    FindHere(name, value, next, b);
  }

  lemma FindSummary(e: Entry, last: bool)
    requires FitEntry(e)
    ensures FindField("## " + Nl(Body(e), Ending(last)), true, SUMMARY) == if e.summary == "" then " " else e.summary
  {
    FieldsArePlain(e);
    RawSection(e, Ending(last));
    NamesDiffer();
    FindInThird(e, SUMMARY, e.summary, PROJECT, e.project, ENTRY_ID, e.id, last);
  }

  /** The field on the last line of the section. */
  lemma FindInThird(e: Entry, name: string, value: string, first: string, firstValue: string,
                    second: string, secondValue: string, last: bool)
    requires OneLine(e.title) && Fit(value) && OneLine(first) && OneLine(firstValue) && OneLine(second) && OneLine(secondValue)
    requires 1 < |name| && 1 < |first| && 1 < |second| && name[1] != first[1] && name[1] != second[1]
    ensures FindField(Nl("## " + e.title, Nl(FieldLine(first, firstValue), Nl(FieldLine(second, secondValue),
                         Nl(FieldLine(name, value), Ending(last))))), true, name) == if value == "" then " " else value
  {
    var b3 := Nl(FieldLine(name, value), Ending(last));
    var b2 := Nl(FieldLine(second, secondValue), b3);
    PassTitle(e, Nl(FieldLine(first, firstValue), b2), name);
    PassField(name, first, firstValue, b2, 1);
    PassField(name, second, secondValue, b3, 1);
    if value == "" {
      BlankValueAtEnd(last);
    } else {
      VisibleValue(value, Ending(last));
    }
    FindOwnField(name, value, Ending(last));
  }

  lemma {:induction false} FirstLineOf(t: string, b: string)
    requires forall c :: c in t ==> !BreaksLine(c)
    ensures FirstLine(Nl(t, b)) == t
    decreases |t|
  {
    if t == "" {
      assert Nl(t, b)[0] == '\n';
    } else {
      var c, rest := t[0], t[1..];
      assert t == [c] + rest && c in t;
      NlFromHead(c, rest, b);
      assert ([c] + Nl(rest, b))[1..] == Nl(rest, b);
      FirstLineOf(rest, b);
    }
  }

  /** What printing and parsing make of an entry: a blank project or id takes the line after it. */
  function ReadBack(e: Entry): Entry {
    e.(project := if e.project == "" then Strip(FieldLine(ENTRY_ID, e.id)) else e.project,
       id := if e.id == "" then Strip(FieldLine(SUMMARY, e.summary)) else e.id)
  }

  lemma TitleOf(e: Entry, end: string)
    requires FitTitle(e.title)
    ensures Strip(FirstLine(Nl(Body(e), end))) == e.title
  {
    BodyThen(e, end);
    FirstLineOf(e.title, Nl(FieldLine(PROJECT, e.project), Nl(FieldLine(ENTRY_ID, e.id),
                            Nl(FieldLine(SUMMARY, e.summary), end))));
    StripOfTrimmed(e.title);
  }

  lemma FieldLineStripsVisible(name: string, value: string)
    ensures Strip(FieldLine(name, value)) != ""
  {
    StripIsTrimmed(FieldLine(name, value));
  }

  lemma BlankStrips()
    ensures Strip(" ") == "" && Strip("") == ""
  {
  }

  /** The texts found for an entry whose blank fields let something else be found. */
  lemma FoundIsReadBack(e: Entry, title: string, project: string, id: string, summary: string, default: string)
    requires FitEntry(e) && Strip(title) == e.title && id != ""
    requires Strip(project) == (if e.project == "" then Strip(FieldLine(ENTRY_ID, e.id)) else e.project)
    requires Strip(id) == (if e.id == "" then Strip(FieldLine(SUMMARY, e.summary)) else e.id)
    requires Strip(summary) == e.summary
    ensures EntryFrom(title, project, id, summary, default) == Some(ReadBack(e))
  {
    FieldLineStripsVisible(ENTRY_ID, e.id);
  }

  lemma SectionIsReadBack(e: Entry, last: bool, default: string)
    requires FitEntry(e)
    ensures ParseSection(Nl(Body(e), Ending(last)), default) == Some(ReadBack(e))
  {
    FindProject(e, Ending(last));
    FindId(e, Ending(last));
    FindSummary(e, last);
    TitleOf(e, Ending(last));
    StripOfTrimmed(e.project);
    StripOfTrimmed(e.id);
    StripOfTrimmed(e.summary);
    BlankStrips();
    var raw := "## " + Nl(Body(e), Ending(last));
    FoundIsReadBack(e, FirstLine(Nl(Body(e), Ending(last))), FindField(raw, true, PROJECT),
                    FindField(raw, true, ENTRY_ID), FindField(raw, true, SUMMARY), default);
  }

  function ReadBackAll(entries: seq<Entry>): seq<Entry> {
    seq(|entries|, i requires 0 <= i < |entries| => ReadBack(entries[i]))
  }

  lemma {:induction false} PiecesAt(entries: seq<Entry>, i: nat)
    requires i < |entries|
    ensures |Pieces(entries)| == |entries|
    ensures Pieces(entries)[i] == Nl(Body(entries[i]), Ending(i == |entries| - 1))
    decreases |entries|
  {
    if |entries| > 1 {
      PiecesAt(entries[1..], if i == 0 then 0 else i - 1);
    }
  }

  lemma PieceVisible(e: Entry, end: string)
    requires FitEntry(e)
    ensures Nl(Body(e), end) != ""
  {
  }

  lemma PieceIsReadBack(entries: seq<Entry>, default: string, i: nat)
    requires AllFit(entries) && i < |entries| == |Pieces(entries)|
    ensures ParsesTo(Pieces(entries)[i], ReadBack(entries[i]), default)
  {
    PiecesAt(entries, i);
    PieceVisible(entries[i], Ending(i == |entries| - 1));
    SectionIsReadBack(entries[i], i == |entries| - 1, default);
  }

  predicate ParsesTo(section: string, e: Entry, default: string) {
    section != "" && ParseSection(section, default) == Some(e)
  }

  lemma OneMoreParsed(before: seq<string>, last: string, found: seq<Entry>, e: Entry, default: string)
    requires ParseSections(before, default) == Some(found) && ParsesTo(last, e, default)
    ensures ParseSections(before + [last], default) == Some(found + [e])
  {
    assert (before + [last])[..|before|] == before;
  }

  lemma LastParsed(sections: seq<string>, entries: seq<Entry>, default: string)
    requires |sections| == |entries| > 0
    requires var n := |sections| - 1;
             ParseSections(sections[..n], default) == Some(entries[..n]) && ParsesTo(sections[n], entries[n], default)
    ensures ParseSections(sections, default) == Some(entries)
  {
    var n := |sections| - 1;
    OneMoreParsed(sections[..n], sections[n], entries[..n], entries[n], default);
    SplitLast(sections);
    SplitLast(entries);
  }

  /** Sections that all parse, parse together. */
  lemma {:induction false} ParsedOneByOne(sections: seq<string>, entries: seq<Entry>, default: string)
    requires |sections| == |entries|
    requires forall k :: 0 <= k < |sections| ==> ParsesTo(sections[k], entries[k], default)
    ensures ParseSections(sections, default) == Some(entries)
    decreases |sections|
  {
    if sections != [] {
      var n := |sections| - 1;
      ParsedOneByOne(sections[..n], entries[..n], default);
      LastParsed(sections, entries, default);
    }
  }

  /** Printing and parsing entries of the shape every parsed entry has. */
  lemma RenderParse(entries: seq<Entry>, default: string)
    requires AllFit(entries)
    ensures Parse(Render(entries), default) == Some(ReadBackAll(entries))
  {
    RenderSplits(entries);
    assert ([HEADER] + Pieces(entries))[1..] == Pieces(entries);
    if entries != [] {
      PiecesAt(entries, 0);
    }
    var pieces, read := Pieces(entries), ReadBackAll(entries);
    forall k | 0 <= k < |pieces| ensures ParsesTo(pieces[k], read[k], default) {
      PieceIsReadBack(entries, default, k);
    }
    ParsedOneByOne(pieces, read, default);
  }

  // ---------------------------------------------------------------- what parsing can produce

  lemma {:induction false} SectionsStartVisible(rest: string, bol: bool, cur: string, i: nat)
    requires 0 < i < |Sections(rest, bol, cur)|
    ensures Sections(rest, bol, cur)[i] != "" ==> !IsSpace(Sections(rest, bol, cur)[i][0])
    decreases |rest|
  {
    if rest == "" {
    } else if bol && Heading(rest) {
      var tail := DropSpaces(rest[2..]);
      var next := rest[|rest| - |tail| - 1] == '\n';
      if i == 1 {
        FirstSectionStarts(tail, next, "");
      } else {
        SectionsStartVisible(tail, next, "", i - 1);
      }
    } else {
      SectionsStartVisible(rest[1..], rest[0] == '\n', cur + [rest[0]], i);
    }
  }

  lemma {:induction false} FirstSectionStarts(rest: string, bol: bool, cur: string)
    ensures cur <= Sections(rest, bol, cur)[0] && |Sections(rest, bol, cur)[0]| <= |cur| + |rest|
    ensures Sections(rest, bol, cur)[0] == cur + rest[..|Sections(rest, bol, cur)[0]| - |cur|]
    decreases |rest|
  {
    if rest != "" && !(bol && Heading(rest)) {
      FirstSectionStarts(rest[1..], rest[0] == '\n', cur + [rest[0]]);
      var k := |Sections(rest, bol, cur)[0]| - |cur|;
      assert rest[..k] == [rest[0]] + rest[1..][..k - 1];
    }
  }

  lemma FieldFits(raw: string, name: string)
    ensures Fit(Strip(FindField(raw, true, name)))
  {
    StripIsTrimmed(FindField(raw, true, name));
  }

  lemma TitleFits(section: string)
    requires section != "" && !IsSpace(section[0])
    ensures FitTitle(Strip(FirstLine(section)))
  {
    assert !BreaksLine(section[0]);
    StripIsTrimmed(FirstLine(section));
  }

  lemma EntryFits(title: string, project: string, id: string, summary: string, default: string)
    requires FitTitle(Strip(title)) && Fit(Strip(project)) && Fit(Strip(id)) && Fit(Strip(summary)) && Fit(default)
    ensures EntryFrom(title, project, id, summary, default).Some? ==>
              FitEntry(EntryFrom(title, project, id, summary, default).value)
  {
  }

  lemma ParsedSectionFits(section: string, default: string)
    requires section != "" && !IsSpace(section[0]) && Fit(default)
    ensures ParseSection(section, default).Some? ==> FitEntry(ParseSection(section, default).value)
  {
    var raw := "## " + section;
    TitleFits(section);
    FieldFits(raw, ENTRY_ID);
    FieldFits(raw, PROJECT);
    FieldFits(raw, SUMMARY);
    EntryFits(FirstLine(section), FindField(raw, true, PROJECT), FindField(raw, true, ENTRY_ID),
              FindField(raw, true, SUMMARY), default);
  }

  lemma {:induction false} ParsedFit(sections: seq<string>, default: string)
    requires Fit(default) && ParseSections(sections, default).Some?
    requires forall i :: 0 <= i < |sections| ==> sections[i] != "" ==> !IsSpace(sections[i][0])
    ensures AllFit(ParseSections(sections, default).value)
  {
    if sections != [] {
      ParsedFit(sections[..|sections| - 1], default);
      if sections[|sections| - 1] != "" {
        ParsedSectionFits(sections[|sections| - 1], default);
      }
    }
  }

  lemma EveryParsedEntryFits(text: string, default: string)
    requires Fit(default) && Parse(text, default).Some?
    ensures AllFit(Parse(text, default).value)
  {
    var sections := Sections(text, true, "");
    forall i | 0 <= i < |sections[1..]| ensures sections[1..][i] != "" ==> !IsSpace(sections[1..][i][0]) {
      SectionsStartVisible(text, true, "", i + 1);
    }
    ParsedFit(sections[1..], default);
  }

  /**
   A printed changelog parses back to the same entries, in the same order, if and only if
   every entry is good: a visible one-line title, project and id, and a one-line summary.
   */
  lemma RoundTripIff(entries: seq<Entry>, default: string)
    requires Fit(default)
    ensures Parse(Render(entries), default) == Some(entries) <==> AllGood(entries)
  {
    if AllGood(entries) {
      RenderParse(entries, default);
      assert ReadBackAll(entries) == entries;
    } else if Parse(Render(entries), default) == Some(entries) {
      EveryParsedEntryFits(Render(entries), default);
      RenderParse(entries, default);
      var i :| 0 <= i < |entries| && !Good(entries[i]);
      assert ReadBackAll(entries)[i] == entries[i];
      FieldLineStripsVisible(ENTRY_ID, entries[i].id);
      FieldLineStripsVisible(SUMMARY, entries[i].summary);
    }
  }
}
