/**
 The global changelog as text: what its regular expressions match, read one character at a
 time, and the printer.
 */
module ChangelogText {
  import opened Common
  import opened PythonText

  /** Up to the first newline, which is as far as `.+` goes. */
  function Line(s: string): (r: string)
    ensures r <= s && '\n' !in r && (|r| < |s| ==> s[|r|] == '\n')
  {
    if s == "" || s[0] == '\n' then "" else [s[0]] + Line(s[1..])
  }

  function FirstLine(s: string): (r: string)
    ensures r <= s && forall c :: c in r ==> !BreaksLine(c)
    ensures |r| < |s| ==> BreaksLine(s[|r|])
  {
    if s == "" || BreaksLine(s[0]) then "" else [s[0]] + FirstLine(s[1..])
  }

  // ---------------------------------------------------------------- splitting at headings

  /** `##` and at least one whitespace character; the caller knows it is at the start of a line. */
  predicate Heading(s: string) {
    |s| >= 3 && s[0] == '#' && s[1] == '#' && IsSpace(s[2])
  }

  /** The pieces between headings; `cur` is the piece read so far. */
  function Sections(rest: string, bol: bool, cur: string): (r: seq<string>)
    ensures |r| >= 1
    decreases |rest|
  {
    if rest == "" then [cur]
    else if bol && Heading(rest) then
      var tail := DropSpaces(rest[2..]);
      [cur] + Sections(tail, rest[|rest| - |tail| - 1] == '\n', "")
    else Sections(rest[1..], rest[0] == '\n', cur + [rest[0]])
  }

  // ---------------------------------------------------------------- scalar fields

  function DropTick(s: string): (r: string)
    ensures |r| <= |s|
  {
    if s != "" && s[0] == '`' then s[1..] else s
  }

  /** The last character that is not a newline, which is what the match backs up to in blank text. */
  function LastVisible(s: string): (r: Option<char>)
    ensures r.Some? ==> r.value != '\n' && r.value in s
  {
    if s == "" then None
    else if s[|s| - 1] != '\n' then Some(s[|s| - 1])
    else LastVisible(s[..|s| - 1])
  }

  /** What follows the colon: whitespace, newlines included, and then the rest of a line. */
  function FieldValue(s: string): (r: Option<string>)
    ensures r.Some? ==> r.value != "" && '\n' !in r.value
  {
    var v := DropSpaces(s);
    if v != "" then Some(Line(v))
    else match LastVisible(s)
      case None => None
      case Some(c) => Some([c])
  }

  function MatchColon(s: string): (r: Option<string>)
    ensures r.Some? ==> r.value != "" && '\n' !in r.value
  {
    if s == "" || s[0] != ':' then None else FieldValue(s[1..])
  }

  function MatchKey(key: string, name: string): (r: Option<string>)
    ensures r.Some? ==> r.value != "" && '\n' !in r.value
  {
    if name <= key then MatchColon(DropSpaces(DropTick(key[|name|..]))) else None
  }

  /** The field pattern at the start of a line: dash, name between optional ticks, colon, value. */
  function MatchAt(s: string, name: string): (r: Option<string>)
    ensures r.Some? ==> r.value != "" && '\n' !in r.value
  {
    if s == "" || s[0] != '-' then None else MatchKey(DropTick(DropSpaces(s[1..])), name)
  }

  /** The first match of the field anywhere, or the empty text. */
  function FindField(rest: string, bol: bool, name: string): (r: string)
    ensures '\n' !in r
    decreases |rest|
  {
    if rest == "" then ""
    else if bol && MatchAt(rest, name).Some? then MatchAt(rest, name).value
    else FindField(rest[1..], rest[0] == '\n', name)
  }

  // ---------------------------------------------------------------- parsing and printing

  datatype Entry = Entry(title: string, project: string, id: string, summary: string)

  const PROJECT := "source_project"
  const ENTRY_ID := "source_entry_id"
  const SUMMARY := "summary"
  const HEADER := "# Global Changelog\n\n"

  /** An entry from the texts found for it; without an entry id there is none. */
  function EntryFrom(title: string, project: string, id: string, summary: string, default: string): Option<Entry> {
    if id == "" then None
    else Some(Entry(Strip(title), if Strip(project) == "" then default else Strip(project), Strip(id), Strip(summary)))
  }

  /** One section as an entry; sections without an entry id are passed over. */
  function ParseSection(section: string, default: string): Option<Entry> {
    var raw := "## " + section;
    EntryFrom(FirstLine(section), FindField(raw, true, PROJECT), FindField(raw, true, ENTRY_ID),
              FindField(raw, true, SUMMARY), default)
  }

  function ParseSections(sections: seq<string>, default: string): Option<seq<Entry>> {
    if sections == [] then Some([])
    else
      var last := sections[|sections| - 1];
      match ParseSections(sections[..|sections| - 1], default)
      case None => None
      case Some(before) =>
        if last == "" then None
        else
          var e := ParseSection(last, default);
          Some(before + if e.Some? then [e.value] else [])
  }

  /** None stands for the IndexError an empty section raises. */
  function Parse(text: string, default: string): Option<seq<Entry>> {
    ParseSections(Sections(text, true, "")[1..], default)
  }

  method ParseGlobalChangelog(text: string, default: string) returns (entries: Option<seq<Entry>>)
    ensures entries == Parse(text, default)
  {
    var sections := Sections(text, true, "")[1..];
    var found: seq<Entry> := [];
    for i := 0 to |sections|
      invariant ParseSections(sections[..i], default) == Some(found)
    {
      ParseOneMore(sections, i, default);
      if sections[i] == "" {
        AlreadyFailed(sections, i + 1, default);
        return None;
      }
      var e := ParseSection(sections[i], default);
      if e.Some? {
        found := found + [e.value];
      }
    }
    assert sections[..|sections|] == sections;
    entries := Some(found);
  }

  lemma ParseOneMore(sections: seq<string>, i: nat, default: string)
    requires i < |sections| && ParseSections(sections[..i], default).Some?
    ensures ParseSections(sections[..i + 1], default) ==
            if sections[i] == "" then None
            else
              var before := ParseSections(sections[..i], default).value;
              var e := ParseSection(sections[i], default);
              Some(if e.Some? then before + [e.value] else before)
  {
    assert sections[..i + 1][..i] == sections[..i];
    var before := ParseSections(sections[..i], default).value;
    assert before + [] == before;
  }

  /** A failure is final. */
  lemma {:induction false} AlreadyFailed(sections: seq<string>, i: nat, default: string)
    requires i <= |sections| && ParseSections(sections[..i], default).None?
    ensures ParseSections(sections, default).None?
    decreases |sections|
  {
    if i == |sections| {
      assert sections[..i] == sections;
    } else {
      assert sections[..|sections| - 1][..i] == sections[..i];
      AlreadyFailed(sections[..|sections| - 1], i, default);
    }
  }

  /** `a`, and `b` on the line after it. */
  function Nl(a: string, b: string): string {
    a + ("\n" + b)
  }

  function FieldLine(name: string, value: string): string {
    "- `" + (name + ("`: " + value))
  }

  /** The four lines of a section, joined by newlines, without the heading mark. */
  function Body(e: Entry): string {
    Nl(e.title, Nl(FieldLine(PROJECT, e.project), Nl(FieldLine(ENTRY_ID, e.id), FieldLine(SUMMARY, e.summary))))
  }

  function Section(e: Entry): string {
    "## " + Body(e)
  }

  /** The sections joined by blank lines. */
  function Joined(entries: seq<Entry>): string {
    if entries == [] then ""
    else if |entries| == 1 then Section(entries[0])
    else Joined(entries[..|entries| - 1]) + ("\n\n" + Section(entries[|entries| - 1]))
  }

  function Render(entries: seq<Entry>): string {
    if entries == [] then HEADER else HEADER + Nl(Joined(entries), "")
  }

  method RenderGlobalEntries(entries: seq<Entry>) returns (text: string)
    ensures text == Render(entries)
  {
    if entries == [] {
      return HEADER;
    }
    var sections := "";
    for i := 0 to |entries|
      invariant sections == Joined(entries[..i])
    {
      assert entries[..i + 1][..i] == entries[..i];
      sections := if i == 0 then Section(entries[i]) else sections + ("\n\n" + Section(entries[i]));
    }
    assert entries[..|entries|] == entries;
    text := HEADER + Nl(sections, "");
  }
}
