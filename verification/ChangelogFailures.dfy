/** Texts at the edge of the changelog format: what fails, what is accepted, and what loses its project. */
module ChangelogFailures {
  import opened Common
  import opened PythonText
  import opened ChangelogText
  import opened ChangelogRoundTrip
  import opened ChangelogReconcile
  import opened ChangelogLaws

  // ---------------------------------------------------------------- headings with nothing in them

  /** A heading with only whitespace up to the end, or up to the next heading at the start of a line. */
  predicate Hollow(s: string) {
    Heading(s) && var tail := DropSpaces(s[2..]); tail == "" || (AfterNewline(s, tail) && Heading(tail))
  }

  /** The character of `s` in front of its ending `tail` is a newline. */
  predicate AfterNewline(s: string, tail: string) {
    |tail| < |s| && s[|s| - |tail| - 1] == '\n'
  }

  /** Some line of the text is a hollow heading; `bol` says whether the text starts a line. */
  ghost predicate SomeHollow(s: string, bol: bool) {
    exists p: nat :: p < |s| && (if p == 0 then bol else s[p - 1] == '\n') && Hollow(s[p..])
  }

  lemma SomeHollowFromFront(c: char, rest: string, bol: bool)
    ensures SomeHollow([c] + rest, bol) <==> (bol && Hollow([c] + rest)) || SomeHollow(rest, c == '\n')
  {
    var s := [c] + rest;
    assert s[0..] == s && s[1..] == rest;
    if SomeHollow(s, bol) {
      var p: nat :| p < |s| && (if p == 0 then bol else s[p - 1] == '\n') && Hollow(s[p..]);
      if p > 0 {
        assert s[p..] == rest[p - 1..] && (p > 1 ==> s[p - 1] == rest[p - 2]);
      }
    }
    if SomeHollow(rest, c == '\n') {
      var p: nat :| p < |rest| && (if p == 0 then c == '\n' else rest[p - 1] == '\n') && Hollow(rest[p..]);
      assert rest[p..] == s[p + 1..] && (p > 0 ==> s[p] == rest[p - 1]);
    }
  }

  /** The start of a line after the whitespace that was dropped. */
  predicate StartsLine(s: string, bol: bool) {
    var tail := DropSpaces(s);
    if |tail| == |s| then bol else AfterNewline(s, tail)
  }

  /** No heading starts with whitespace. */
  lemma {:induction false} SpacesAreNotHollow(s: string, bol: bool)
    ensures SomeHollow(s, bol) <==> SomeHollow(DropSpaces(s), StartsLine(s, bol))
    decreases |s|
  {
    if s != "" && IsSpace(s[0]) {
      var c, rest := s[0], s[1..];
      assert s == [c] + rest && !Hollow(s);
      SomeHollowFromFront(c, rest, bol);
      SpacesAreNotHollow(rest, c == '\n');
      assert DropSpaces(s) == DropSpaces(rest);
      assert StartsLine(s, bol) == StartsLine(rest, c == '\n');
    }
  }

  // ---------------------------------------------------------------- exactly when parsing fails

  ghost predicate SomeEmpty(pieces: seq<string>) {
    exists i :: 0 < i < |pieces| && pieces[i] == ""
  }

  lemma EmptyAfter(piece: string, pieces: seq<string>)
    requires pieces != []
    ensures SomeEmpty([piece] + pieces) <==> pieces[0] == "" || SomeEmpty(pieces)
  {
    var whole := [piece] + pieces;
    if SomeEmpty(whole) {
      var i :| 0 < i < |whole| && whole[i] == "";
      assert whole[i] == pieces[i - 1];
    }
    if pieces[0] == "" {
      assert whole[1] == "";
    }
    if SomeEmpty(pieces) {
      var i :| 0 < i < |pieces| && pieces[i] == "";
      assert whole[i + 1] == "";
    }
  }

  lemma FirstEmptyIff(rest: string, bol: bool, cur: string)
    ensures Sections(rest, bol, cur)[0] == "" <==> cur == "" && (rest == "" || (bol && Heading(rest)))
  {
    FirstSectionStarts(rest, bol, cur);
    if rest != "" && !(bol && Heading(rest)) {
      FirstSectionStarts(rest[1..], rest[0] == '\n', cur + [rest[0]]);
    }
  }

  /** The parser meets an empty section exactly if the text has a hollow heading. */
  lemma {:induction false} EmptySectionIff(rest: string, bol: bool, cur: string)
    ensures SomeEmpty(Sections(rest, bol, cur)) <==> SomeHollow(rest, bol)
    decreases |rest|
  {
    if rest != "" {
      var c, after := rest[0], rest[1..];
      assert rest == [c] + after;
      SomeHollowFromFront(c, after, bol);
      if bol && Heading(rest) {
        EmptyAtHeading(rest, cur);
        var tail := DropSpaces(rest[2..]);
        EmptySectionIff(tail, AfterNewline(rest, tail), "");
      } else {
        EmptySectionIff(after, c == '\n', cur + [c]);
      }
    }
  }

  lemma EmptyAtHeading(rest: string, cur: string)
    requires Heading(rest)
    ensures var tail := DropSpaces(rest[2..]);
            && SomeHollow(rest[1..], false) == SomeHollow(tail, AfterNewline(rest, tail))
            && (SomeEmpty(Sections(rest, true, cur)) <==>
                Hollow(rest) || SomeEmpty(Sections(tail, AfterNewline(rest, tail), "")))
  {
    var tail := DropSpaces(rest[2..]);
    var next := AfterNewline(rest, tail);
    assert rest[1..] == ['#'] + rest[2..] && !Hollow(rest[1..]);
    SomeHollowFromFront('#', rest[2..], false);
    SpacesAreNotHollow(rest[2..], false);
    SpaceAfterMark(rest);
    assert Sections(rest, true, cur) == [cur] + Sections(tail, next, "");
    EmptyAfter(cur, Sections(tail, next, ""));
    FirstEmptyIff(tail, next, "");
  }

  lemma SpaceAfterMark(rest: string)
    requires Heading(rest)
    ensures var tail := DropSpaces(rest[2..]);
            |tail| < |rest[2..]| && StartsLine(rest[2..], false) == AfterNewline(rest, tail)
  {
    DropOne(rest[2], rest[3..]);
    assert rest[2..] == [rest[2]] + rest[3..];
  }

  lemma {:induction false} FailsIff(sections: seq<string>, default: string)
    ensures ParseSections(sections, default).None? <==> "" in sections
  {
    if sections != [] {
      var front, last := sections[..|sections| - 1], sections[|sections| - 1];
      assert sections == front + [last];
      FailsIff(front, default);
    }
  }

  /**
   A text cannot be parsed, and so not reconciled, if and only if some heading at the start of a
   line has only whitespace after it, up to the end of the text or to the next such heading.
   */
  lemma ReconcileFailsIff(slug: string, safe: seq<ProjectEntry>, text: string, default: string)
    ensures Parse(text, default).None? <==> SomeHollow(text, true)
    ensures Reconcile(slug, safe, text).None? <==> SomeHollow(text, true)
  {
    var pieces := Sections(text, true, "");
    EmptySectionIff(text, true, "");
    FailsIff(pieces[1..], default);
    FailsIff(pieces[1..], "");
    assert SomeEmpty(pieces) <==> "" in pieces[1..] by {
      if SomeEmpty(pieces) {
        var i :| 0 < i < |pieces| && pieces[i] == "";
        assert pieces[1..][i - 1] == "";
      }
    }
  }

  // ---------------------------------------------------------------- what the patterns accept

  /** Two marks and any whitespace at the start of a line are a heading, and the whitespace goes. */
  lemma HeadingAccepts(spaces: string, tail: string, cur: string)
    requires spaces != "" && (forall c :: c in spaces ==> IsSpace(c)) && tail != "" && !IsSpace(tail[0])
    ensures Sections("##" + (spaces + tail), true, cur) == [cur] + Sections(tail, spaces[|spaces| - 1] == '\n', "")
  {
    var rest := "##" + (spaces + tail);
    assert spaces[0] in spaces && rest[2] == spaces[0];
    assert rest[2..] == spaces + tail;
    SpacesGo(spaces, tail);
    DropNone(tail);
    assert rest[|rest| - |tail| - 1] == spaces[|spaces| - 1];
  }

  function Tick(there: bool): string {
    if there then "`" else ""
  }

  /** A field line as the pattern allows it: whitespace and ticks are optional. */
  function LooseLine(name: string, s1: string, t1: bool, t2: bool, s2: string, s3: string, value: string, b: string): string {
    ['-'] + (s1 + (Tick(t1) + (name + (Tick(t2) + (s2 + ([':'] + (s3 + Nl(value, b))))))))
  }

  lemma TickOrNot(there: bool, s: string)
    requires s != "" && s[0] != '`'
    ensures DropTick(Tick(there) + s) == s
  {
    if there {
      assert Tick(there) + s == ['`'] + s;
      TickOff(s);
    } else {
      assert Tick(there) + s == s;
    }
  }

  lemma AfterName(t2: bool, s2: string, rest: string)
    requires forall c :: c in s2 ==> IsSpace(c)
    ensures MatchColon(DropSpaces(DropTick(Tick(t2) + (s2 + ([':'] + rest))))) == FieldValue(rest)
  {
    var tail := s2 + ([':'] + rest);
    if s2 == "" {
      assert tail == [':'] + rest;
    } else {
      assert s2[0] in s2 && tail[0] == s2[0];
    }
    TickOrNot(t2, tail);
    SpacesGo(s2, [':'] + rest);
    DropOne(':', rest);
    ColonThen(rest);
  }

  /** Such a line is matched, and its value is the rest of the line behind the whitespace. */
  lemma PatternAccepts(name: string, s1: string, t1: bool, t2: bool, s2: string, s3: string, value: string, b: string)
    requires name != "" && !IsSpace(name[0]) && name[0] != '`' && value != "" && Fit(value)
    requires (forall c :: c in s1 ==> IsSpace(c)) && (forall c :: c in s2 ==> IsSpace(c)) && (forall c :: c in s3 ==> IsSpace(c))
    ensures MatchAt(LooseLine(name, s1, t1, t2, s2, s3, value, b), name) == Some(value)
  {
    var afterName := Tick(t2) + (s2 + ([':'] + (s3 + Nl(value, b))));
    var key := name + afterName;
    var line := s1 + (Tick(t1) + key);
    assert (['-'] + line)[1..] == line;
    SpacesGo(s1, Tick(t1) + key);
    DropNone(Tick(t1) + key);
    TickOrNot(t1, key);
    assert key[|name|..] == afterName;
    AfterName(t2, s2, s3 + Nl(value, b));
    SpacesGo(s3, Nl(value, b));
    assert Nl(value, b)[0] == value[0];
    DropNone(Nl(value, b));
    LineOf(value, b);
  }

  // ---------------------------------------------------------------- a section without its project line

  /** A section that lacks the line naming its project. */
  function UnnamedText(title: string, id: string, summary: string): string {
    "## " + Nl(title, Nl(FieldLine(ENTRY_ID, id), Nl(FieldLine(SUMMARY, summary), "")))
  }

  lemma RegroupThree(t: string, l1: string, l2: string)
    ensures "" + t + "\n" + l1 + "\n" + l2 + "\n" == Nl(t, Nl(l1, Nl(l2, "")))
  {
    var c1 := "" + t + "\n";
    Regroup("", t, Nl(l1, Nl(l2, "")));
    Regroup(c1, l1, Nl(l2, ""));
    Regroup(c1 + l1 + "\n", l2, "");
  }

  lemma UnnamedSections(title: string, l1: string, l2: string)
    requires FitTitle(title) && PlainLine(l1) && PlainLine(l2)
    ensures Sections("## " + Nl(title, Nl(l1, Nl(l2, ""))), true, "") == ["", Nl(title, Nl(l1, Nl(l2, "")))]
  {
    var c1 := "" + title + "\n";
    assert BreaksLine('\n');
    assert Nl(title, Nl(l1, Nl(l2, "")))[0] == title[0];
    EnterHeading(Nl(title, Nl(l1, Nl(l2, ""))), "");
    SkipLine(title, Nl(l1, Nl(l2, "")), false, "");
    SkipLine(l1, Nl(l2, ""), true, c1);
    SkipLine(l2, "", true, c1 + l1 + "\n");
    RegroupThree(title, l1, l2);
  }

  lemma UnnamedFields(e: Entry)
    requires Good(e) && e.summary != ""
    ensures var raw := UnnamedText(e.title, e.id, e.summary);
            && FindField(raw, true, PROJECT) == "" && FindField(raw, true, ENTRY_ID) == e.id
            && FindField(raw, true, SUMMARY) == e.summary
  {
    var l1, l2 := FieldLine(ENTRY_ID, e.id), FieldLine(SUMMARY, e.summary);
    FieldsArePlain(e);
    NamesDiffer();
    FieldLineIsPlain(SUMMARY, e.summary);
    assert UnnamedText(e.title, e.id, e.summary) == Nl("## " + e.title, Nl(l1, Nl(l2, "")));
    PassTitle(e, Nl(l1, Nl(l2, "")), PROJECT);
    PassField(PROJECT, ENTRY_ID, e.id, Nl(l2, ""), 7);
    PassField(PROJECT, SUMMARY, e.summary, "", 1);
    PassTitle(e, Nl(l1, Nl(l2, "")), ENTRY_ID);
    FindHere(ENTRY_ID, e.id, l2, "");
    PassTitle(e, Nl(l1, Nl(l2, "")), SUMMARY);
    PassField(SUMMARY, ENTRY_ID, e.id, Nl(l2, ""), 1);
    VisibleValue(e.summary, "");
    FindOwnField(SUMMARY, e.summary, "");
  }

  /** Such a text parses to an entry of the default project, which for reconciling is none. */
  lemma UnnamedParses(e: Entry, default: string)
    requires Good(e) && e.summary != ""
    ensures Parse(UnnamedText(e.title, e.id, e.summary), default) == Some([e.(project := default)])
  {
    var l1, l2 := FieldLine(ENTRY_ID, e.id), FieldLine(SUMMARY, e.summary);
    var section := Nl(e.title, Nl(l1, Nl(l2, "")));
    FieldsArePlain(e);
    UnnamedSections(e.title, l1, l2);
    UnnamedFields(e);
    FirstLineOf(e.title, Nl(l1, Nl(l2, "")));
    StripOfTrimmed(e.title);
    StripOfTrimmed(e.id);
    StripOfTrimmed(e.summary);
    BlankStrips();
    assert ParseSection(section, default) == Some(e.(project := default));
    assert ["", section][1..] == [] + [section];
    ParsesAlone(section, e.(project := default), default);
  }

  lemma ParsesAlone(section: string, e: Entry, default: string)
    requires section != "" && ParseSection(section, default) == Some(e)
    ensures ParseSections([section], default) == Some([e])
  {
    OneMoreParsed([], section, [], e, default);
    assert [] + [section] == [section] && [] + [e] == [e];
  }

  /** An existing entry that names no project comes back under one made of the line that follows. */
  lemma UnnamedEntryIsMangled(slug: string, e: Entry)
    requires FitEntry(e) && e.project == "" && e.id != "" && slug != ""
    ensures Parse(Render(Merged(slug, [], [e])), "") == Some([e.(project := Strip(FieldLine(ENTRY_ID, e.id)))])
  {
    assert OfOthers([e], slug) == [e] by {
      assert [e][..0] == [];
    }
    assert Merged(slug, [], [e]) == [e];
    RenderParse([e], "");
    assert ReadBackAll([e]) == [ReadBack(e)];
  }

  /**
   A section without its project line is mangled: after reconciling, its entry belongs to a project
   made of the line that followed the missing one.
   */
  lemma UnnamedTextIsMangled(slug: string, e: Entry)
    requires Good(e) && e.summary != "" && slug != ""
    ensures var text := UnnamedText(e.title, e.id, e.summary);
            && Reconcile(slug, [], text).Some?
            && Parse(Reconcile(slug, [], text).value, "") == Some([e.(project := Strip(FieldLine(ENTRY_ID, e.id)))])
  {
    UnnamedParses(e, "");
    UnnamedEntryIsMangled(slug, e.(project := ""));
  }
}
