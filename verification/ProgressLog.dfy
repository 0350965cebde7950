/**
 Progress-log lines into entries, metadata into fields, and search.  The header regular
 expression, the parsing of a single value and the filters of a search are parameters.
 */
module ProgressLog {
  import opened Common
  import opened PythonText
  import opened SmartSplit

  // ---------------------------------------------------------------- metadata

  function IndexOf(c: char, s: string): (i: nat)
    ensures i <= |s| && c !in s[..i] && (i < |s| ==> s[i] == c)
  {
    if s == "" || s[0] == c then 0 else 1 + IndexOf(c, s[1..])
  }

  /** What one stripped part contributes. */
  datatype Part = Nothing | Extra(text: string) | Pair(key: string, value: string)

  function ReadPart(part: string): Part {
    var i := IndexOf('=', part);
    if part == "" then Nothing
    else if i == |part| || Strip(part[..i]) == "" then Extra(part)
    else Pair(Strip(part[..i]), part[i + 1..])
  }

  function ReadAll(parts: seq<string>): seq<Part> {
    seq(|parts|, i requires 0 <= i < |parts| => ReadPart(parts[i]))
  }

  /** Fields by key, a later one replacing an earlier one, and the parts that are no fields. */
  datatype Meta = Meta(fields: map<string, string>, extras: seq<string>)
  {
    function Then(m: Meta): Meta {
      Meta(fields + m.fields, extras + m.extras)
    }

    function Take(part: Part, parse: string -> string): Meta {
      match part
      case Nothing => this
      case Extra(text) => this.(extras := extras + [text])
      case Pair(key, value) => this.(fields := fields[key := parse(value)])
    }
  }

  function Collect(parts: seq<Part>, parse: string -> string): Meta {
    if parts == [] then Meta(map[], [])
    else Collect(parts[..|parts| - 1], parse).Take(parts[|parts| - 1], parse)
  }

  function MetaOf(text: string, parse: string -> string): Meta {
    Collect(ReadAll(Split(text, ';', -1)), parse)
  }

  /** What a key of the dictionary holds: a parsed value, or the parts that are no fields. */
  datatype MetaValue = Value(parsed: string) | Extras(texts: seq<string>)

  const EXTRA := "_extra"

  /** The dictionary: the extras, if there are any, are filed under a key of their own. */
  function Filed(meta: Meta): map<string, MetaValue> {
    var fields := map key | key in meta.fields :: Value(meta.fields[key]);
    if meta.extras == [] then fields else fields[EXTRA := Extras(meta.extras)]
  }

  /** `parse_meta`. */
  method ParseMeta(text: string, parse: string -> string) returns (meta: map<string, MetaValue>)
    ensures meta == Filed(MetaOf(text, parse))
  {
    if Strip(text) == "" {
      BlankMetaIsEmpty(text, parse);
      return map[];
    }
    var parts := SplitText(text, ';', -1);
    var collected := CollectParts(parts, parse);
    meta := Filed(collected);
  }

  /** Its loop over the parts. */
  method CollectParts(parts: seq<string>, parse: string -> string) returns (meta: Meta)
    ensures meta == Collect(ReadAll(parts), parse)
  {
    ghost var read := ReadAll(parts);
    meta := Meta(map[], []);
    var i := 0;
    while i < |parts|
      invariant 0 <= i <= |parts| && meta == Collect(read[..i], parse)
    {
      assert read[..i + 1][..i] == read[..i] && read[i] == ReadPart(parts[i]);
      var part := parts[i];
      i := i + 1;
      if part == "" {
        continue;
      }
      var equals := IndexOf('=', part);
      if equals == |part| {
        meta := meta.(extras := meta.extras + [part]);
        continue;
      }
      var key := Strip(part[..equals]);
      if key == "" {
        meta := meta.(extras := meta.extras + [part]);
        continue;
      }
      meta := meta.(fields := meta.fields[key := parse(part[equals + 1..])]);
    }
    assert read[..|parts|] == read;
  }

  lemma {:induction false} BlankIsOnePiece(text: string)
    requires forall k :: 0 <= k < |text| ==> IsSpace(text[k])
    ensures Pieces(text, START, ';', -1) == [text]
    decreases |text|
  {
    if text != "" {
      assert !IsSpace(';') && !IsSpace('\'') && !IsSpace('"') && !IsSpace('\\');
      assert IsSpace(text[0]);
      BlankIsOnePiece(text[1..]);
      assert [text[0]] + text[1..] == text;
    }
  }

  lemma BlankIffStripsToNothing(text: string)
    ensures Strip(text) == "" <==> forall k :: 0 <= k < |text| ==> IsSpace(text[k])
  {
    var inner := DropSpaces(text);
    DropSpacesDrops(text);
    DropSpacesRightDrops(inner);
    assert inner == text[|text| - |inner|..];
  }

  /** The early exit for blank text changes nothing. */
  lemma BlankMetaIsEmpty(text: string, parse: string -> string)
    requires Strip(text) == ""
    ensures MetaOf(text, parse) == Meta(map[], [])
  {
    BlankIffStripsToNothing(text);
    BlankIsOnePiece(text);
    assert StripAll([text]) == [""];
    assert ReadAll([""]) == [Nothing];
    assert [Nothing][..0] == [];
  }

  lemma TakeLast(m: Meta, n: Meta, part: Part, parse: string -> string)
    ensures m.Then(n).Take(part, parse) == m.Then(n.Take(part, parse))
  {
  }

  lemma CollectOneMore(before: seq<Part>, part: Part, parse: string -> string)
    ensures Collect(before + [part], parse) == Collect(before, parse).Take(part, parse)
  {
    assert (before + [part])[..|before|] == before;
  }

  lemma {:induction false} CollectConcat(a: seq<Part>, b: seq<Part>, parse: string -> string)
    ensures Collect(a + b, parse) == Collect(a, parse).Then(Collect(b, parse))
    decreases |b|
  {
    var left := Collect(a, parse);
    if b == [] {
      assert a + b == a;
      assert left.fields + map[] == left.fields && left.extras + [] == left.extras;
    } else {
      var front, last := b[..|b| - 1], b[|b| - 1];
      CollectConcat(a, front, parse);
      CollectOneMore(a + front, last, parse);
      TakeLast(left, Collect(front, parse), last, parse);
      assert a + b == a + front + [last];
    }
  }

  /** Metadata read in two stretches, cut at a top-level semicolon, is the first overridden by the second. */
  lemma MetaComposes(a: string, b: string, parse: string -> string)
    requires ScanAll(a, START) == START
    ensures MetaOf(a + ([';'] + b), parse) == MetaOf(a, parse).Then(MetaOf(b, parse))
  {
    SplitComposes(a, b, ';');
    var left, right := Pieces(a, START, ';', -1), Pieces(b, START, ';', -1);
    ReadConcat(left, right);
    CollectConcat(ReadAll(StripAll(left)), ReadAll(StripAll(right)), parse);
  }

  /** In the dictionary, the second stretch overrides key by key, and the extras of both are kept. */
  lemma DictionaryComposes(a: string, b: string, parse: string -> string)
    requires ScanAll(a, START) == START
    ensures var whole, left, right := Filed(MetaOf(a + ([';'] + b), parse)), Filed(MetaOf(a, parse)), Filed(MetaOf(b, parse));
            && (forall key :: key != EXTRA ==>
                  if key in right then key in whole && whole[key] == right[key]
                  else (key in whole <==> key in left) && (key in left ==> whole[key] == left[key]))
            && (MetaOf(a, parse).extras + MetaOf(b, parse).extras != [] ==>
                  EXTRA in whole && whole[EXTRA] == Extras(MetaOf(a, parse).extras + MetaOf(b, parse).extras))
  {
    MetaComposes(a, b, parse);
    FiledComposes(MetaOf(a, parse), MetaOf(b, parse));
  }

  lemma FiledComposes(m: Meta, n: Meta)
    ensures forall key :: key != EXTRA ==>
              if key in Filed(n) then key in Filed(m.Then(n)) && Filed(m.Then(n))[key] == Filed(n)[key]
              else (key in Filed(m.Then(n)) <==> key in Filed(m)) && (key in Filed(m) ==> Filed(m.Then(n))[key] == Filed(m)[key])
  {
  }

  lemma ReadConcat(left: seq<string>, right: seq<string>)
    ensures ReadAll(StripAll(left + right)) == ReadAll(StripAll(left)) + ReadAll(StripAll(right))
  {
    assert StripAll(left + right) == StripAll(left) + StripAll(right);
  }

  // ---------------------------------------------------------------- message and metadata

  predicate KeyStart(c: char) {
    'A' <= c <= 'Z' || 'a' <= c <= 'z' || c == '_'
  }

  predicate KeyChar(c: char) {
    KeyStart(c) || '0' <= c <= '9' || c == '.' || c == '-'
  }

  function DropKey(s: string): (r: string)
    ensures |r| <= |s|
  {
    if s != "" && KeyChar(s[0]) then DropKey(s[1..]) else s
  }

  /** A key, spaces, and an equals sign. */
  predicate OpensWithKey(s: string) {
    s != "" && KeyStart(s[0])
    && var rest := DropSpaces(DropKey(s)); rest != "" && rest[0] == '='
  }

  predicate LooksLikeMeta(text: string) {
    OpensWithKey(Strip(Split(text, ';', 1)[0]))
  }

  const BAR := " | "

  predicate BarAt(s: string, i: nat) {
    i + 3 <= |s| && s[i] == ' ' && s[i + 1] == '|' && s[i + 2] == ' '
  }

  /** The last bar, searching back from `i`. */
  function LastBar(s: string, i: nat): (r: Option<nat>)
    ensures r.Some? ==> r.value <= i && BarAt(s, r.value) && forall k :: r.value < k <= i ==> !BarAt(s, k)
    ensures r.None? ==> forall k :: 0 <= k <= i ==> !BarAt(s, k)
  {
    if BarAt(s, i) then Some(i) else if i == 0 then None else LastBar(s, i - 1)
  }

  function SplitBody(body: string): (string, string) {
    var bar := LastBar(body, |body|);
    if bar.None? then (Strip(body), "")
    else
      var tail := body[bar.value + 3..];
      if LooksLikeMeta(tail) then (Strip(body[..bar.value]), Strip(tail)) else (Strip(body), "")
  }

  lemma StripKeepsStart(s: string)
    requires s != "" && !IsSpace(s[0])
    ensures Strip(s) != "" && Strip(s)[0] == s[0]
  {
    assert DropSpaces(s) == s;
    DropSpacesRightDrops(s);
  }

  lemma FirstPartKeepsStart(tail: string)
    requires tail != "" && tail[0] != ';' && !IsSpace(tail[0])
    ensures Split(tail, ';', 1)[0] != "" && Split(tail, ';', 1)[0][0] == tail[0]
  {
    FirstPieceStarts(tail, START, ';', 1);
    StripKeepsStart(Pieces(tail, START, ';', 1)[0]);
  }

  lemma NothingIsNoMeta()
    ensures !LooksLikeMeta("")
  {
    assert Pieces("", START, ';', 1) == [""];
    assert Strip("") == "";
  }

  lemma BarIsNoMeta(tail: string)
    requires tail == "" || tail[0] == '|'
    ensures !LooksLikeMeta(tail)
  {
    if tail == "" {
      NothingIsNoMeta();
    } else {
      FirstPartKeepsStart(tail);
      StripKeepsStart(Split(tail, ';', 1)[0]);
    }
  }

  lemma NoLaterBar(message: string, tail: string, k: nat)
    requires tail != "" && tail[0] != '|' && (forall j :: !BarAt(tail, j)) && k > |message|
    ensures !BarAt(message + (BAR + tail), k)
  {
    var body := message + (BAR + tail);
    var n := |message|;
    assert body[n + 1] == '|' && body[n + 2] == ' ' && body[n + 3] == tail[0];
    if n + 3 <= k && k + 3 <= |body| {
      assert body[k] == tail[k - n - 3] && body[k + 1] == tail[k - n - 2] && body[k + 2] == tail[k - n - 1];
      assert !BarAt(tail, k - n - 3);
    }
  }

  lemma LastBarIsBetween(message: string, tail: string)
    requires tail != "" && tail[0] != '|' && forall k :: !BarAt(tail, k)
    ensures LastBar(message + (BAR + tail), |message + (BAR + tail)|) == Some(|message|)
  {
    var body := message + (BAR + tail);
    var n := |message|;
    assert body[n] == ' ' && body[n + 1] == '|' && body[n + 2] == ' ';
    assert BarAt(body, n);
    forall k: nat | n < k ensures !BarAt(body, k) {
      NoLaterBar(message, tail, k);
    }
    var last := LastBar(body, |body|);
    assert last.Some? && last.value <= n;
    assert !(last.value < n);
  }

  /** A message and metadata written with a bar between them come apart at that bar. */
  lemma BodyRoundTrip(message: string, tail: string)
    requires LooksLikeMeta(tail) && forall k :: !BarAt(tail, k)
    ensures SplitBody(message + (BAR + tail)) == (Strip(message), Strip(tail))
  {
    if tail == "" || tail[0] == '|' {
      BarIsNoMeta(tail);
    }
    LastBarIsBetween(message, tail);
    var body := message + (BAR + tail);
    assert body[..|message|] == message && body[|message| + 3..] == tail;
  }

  // ---------------------------------------------------------------- lines into entries

  /** The groups of the header expression, the optional body included. */
  datatype Header = Header(emoji: string, timestamp: string, agent: string, project: string, body: string)

  type Matcher = string -> Option<Header>

  /** What a header line says about its entry: the groups stripped, the body split. */
  datatype Opening = Opening(
    emoji: string, timestamp: string, agent: string, project: string, message: string, metaText: string)

  type Opener = string -> Option<Opening>

  function OpeningOf(h: Header): Opening {
    var body := SplitBody(h.body);
    Opening(Strip(h.emoji), Strip(h.timestamp), Strip(h.agent), Strip(h.project), body.0, body.1)
  }

  function OpenerOf(header: Matcher): Opener {
    (line: string) => match header(line) case None => None case Some(h) => Some(OpeningOf(h))
  }

  datatype Entry = Entry(index: nat, lineNo: nat, opening: Opening, message: string, raw: string)

  /** Without its trailing newlines. */
  function Chomp(line: string): (r: string)
    ensures r == "" || r[|r| - 1] != '\n'
  {
    if line != "" && line[|line| - 1] == '\n' then Chomp(line[..|line| - 1]) else line
  }

  /** What assembling entries needs to know of a line. */
  datatype Kind = Head(opening: Opening, line: string) | Visible(line: string, stripped: string) | Blank

  function KindOf(rawLine: string, opener: Opener): Kind {
    var line := Chomp(rawLine);
    match opener(line)
    case Some(o) => Head(o, line)
    case None => if Strip(line) == "" then Blank else Visible(line, Strip(line))
  }

  function Kinds(lines: seq<string>, opener: Opener): seq<Kind> {
    seq(|lines|, i requires 0 <= i < |lines| => KindOf(lines[i], opener))
  }

  function Extended(e: Entry, line: string, stripped: string): Entry {
    e.(raw := e.raw + ("\n" + line), message := e.message + ("\n" + stripped))
  }

  /** A header opens an entry; a visible line extends the last one, if there is one. */
  function Add(before: seq<Entry>, kind: Kind, lineNo: nat): seq<Entry> {
    match kind
    case Head(o, line) => before + [Entry(|before|, lineNo, o, o.message, line)]
    case Visible(line, stripped) =>
      if before == [] then before
      else before[..|before| - 1] + [Extended(before[|before| - 1], line, stripped)]
    case Blank => before
  }

  function Assemble(kinds: seq<Kind>): seq<Entry> {
    if kinds == [] then [] else Add(Assemble(kinds[..|kinds| - 1]), kinds[|kinds| - 1], |kinds|)
  }

  function Entries(lines: seq<string>, opener: Opener): seq<Entry> {
    Assemble(Kinds(lines, opener))
  }

  /** `find_log_start`. */
  method FindLogStart(lines: seq<string>, opener: Opener) returns (start: Option<nat>)
    ensures start.None? <==> forall k :: 0 <= k < |lines| ==> opener(Chomp(lines[k])).None?
    ensures start.Some? ==> start.value < |lines| && opener(Chomp(lines[start.value])).Some?
    ensures start.Some? ==> forall k :: 0 <= k < start.value ==> opener(Chomp(lines[k])).None?
  {
    for i := 0 to |lines|
      invariant forall k :: 0 <= k < i ==> opener(Chomp(lines[k])).None?
    {
      if opener(Chomp(lines[i])).Some? {
        return Some(i);
      }
    }
    start := None;
  }

  /** `parse_lines`. */
  method ParseLines(lines: seq<string>, header: Matcher) returns (entries: seq<Entry>)
    ensures entries == Entries(lines, OpenerOf(header))
  {
    entries := ParseOpenings(lines, OpenerOf(header));
  }

  function Open(current: Option<Entry>): seq<Entry> {
    if current.Some? then [current.value] else []
  }

  lemma OneMoreLine(kinds: seq<Kind>, i: nat)
    requires i < |kinds|
    ensures Assemble(kinds[..i + 1]) == Add(Assemble(kinds[..i]), kinds[i], i + 1)
  {
    assert kinds[..i + 1][..i] == kinds[..i];
  }

  /** What a line does when the last entry is held open: a header files it, a visible line extends it. */
  method FileLine(entries: seq<Entry>, current: Option<Entry>, kind: Kind, lineNo: nat)
    returns (filed: seq<Entry>, next: Option<Entry>)
    requires current.Some? || entries == []
    ensures filed + Open(next) == Add(entries + Open(current), kind, lineNo)
    ensures next.Some? || filed == []
  {
    filed, next := entries, current;
    match kind {
      case Head(opening, line) =>
        filed := entries + Open(current);
        next := Some(Entry(|filed|, lineNo, opening, opening.message, line));
      case Visible(line, stripped) =>
        if current.Some? {
          assert (entries + [current.value])[..|entries|] == entries;
          next := Some(Extended(current.value, line, stripped));
        }
      case Blank =>
    }
  }

  lemma KindAt(lines: seq<string>, i: nat, opener: Opener)
    requires i < |lines|
    ensures var line, kind := Chomp(lines[i]), Kinds(lines, opener)[i];
            if opener(line).Some? then kind == Head(opener(line).value, line)
            else if Strip(line) == "" then kind == Blank
            else kind == Visible(line, Strip(line))
  {
  }

  /** Up to the first header there is nothing to assemble. */
  lemma NothingBefore(lines: seq<string>, start: nat, opener: Opener)
    requires start <= |lines| && forall k :: 0 <= k < start ==> opener(Chomp(lines[k])).None?
    ensures Assemble(Kinds(lines, opener)[..start]) == []
  {
    forall k | 0 <= k < start ensures !Kinds(lines, opener)[..start][k].Head? {
      KindAt(lines, k, opener);
    }
    NoHeadNoEntries(Kinds(lines, opener)[..start]);
  }

  method ParseOpenings(lines: seq<string>, opener: Opener) returns (entries: seq<Entry>)
    ensures entries == Entries(lines, opener)
  {
    ghost var kinds := Kinds(lines, opener);
    assert kinds[..|lines|] == kinds;
    var start := FindLogStart(lines, opener);
    if start.None? {
      NothingBefore(lines, |lines|, opener);
      return [];
    }
    NothingBefore(lines, start.value, opener);
    entries := AssembleFrom(Kinds(lines, opener), start.value);
    Reindex(entries, kinds);
  }

  /** The loop over the classified lines: the open entry is kept apart until a header, or the end, files it. */
  method AssembleFrom(kinds: seq<Kind>, start: nat) returns (entries: seq<Entry>)
    requires start <= |kinds| && Assemble(kinds[..start]) == []
    ensures entries == Assemble(kinds)
  {
    entries := [];
    var current: Option<Entry> := None;
    for i := start to |kinds|
      invariant entries + Open(current) == Assemble(kinds[..i])
      invariant current.Some? || entries == []
    {
      OneMoreLine(kinds, i);
      entries, current := FileLine(entries, current, kinds[i], i + 1);
    }
    assert kinds[..|kinds|] == kinds;
    entries := entries + Open(current);
  }

  /** The final pass over the indexes finds them right already. */
  method Reindex(entries: seq<Entry>, ghost kinds: seq<Kind>)
    requires entries == Assemble(kinds)
  {
    OneEntryPerHead(kinds);
    var renumbered := entries;
    for i := 0 to |entries|
      invariant renumbered == entries
    {
      renumbered := renumbered[i := renumbered[i].(index := i)];
    }
    assert renumbered == entries;
  }

  // ---------------------------------------------------------------- their laws

  lemma {:induction false} NoHeadNoEntries(kinds: seq<Kind>)
    requires forall k :: 0 <= k < |kinds| ==> !kinds[k].Head?
    ensures Assemble(kinds) == []
  {
    if kinds != [] {
      NoHeadNoEntries(kinds[..|kinds| - 1]);
    }
  }

  function HeadCount(kinds: seq<Kind>): nat {
    if kinds == [] then 0
    else HeadCount(kinds[..|kinds| - 1]) + if kinds[|kinds| - 1].Head? then 1 else 0
  }

  /** Entries number consecutively and point, in order, at the header lines they come from. */
  ghost predicate Numbered(es: seq<Entry>, kinds: seq<Kind>) {
    && (forall i :: 0 <= i < |es| ==> es[i].index == i && PointsAtHead(es[i], kinds))
    && (forall i, j :: 0 <= i < j < |es| ==> es[i].lineNo < es[j].lineNo)
  }

  ghost predicate PointsAtHead(e: Entry, kinds: seq<Kind>) {
    1 <= e.lineNo <= |kinds| && kinds[e.lineNo - 1].Head? && kinds[e.lineNo - 1].opening == e.opening
  }

  lemma AddKeepsNumbers(before: seq<Entry>, earlier: seq<Kind>, last: Kind)
    requires Numbered(before, earlier)
    ensures Numbered(Add(before, last, |earlier| + 1), earlier + [last])
    ensures |Add(before, last, |earlier| + 1)| == |before| + if last.Head? then 1 else 0
  {
    var after := Add(before, last, |earlier| + 1);
    forall i | 0 <= i < |before|
      ensures after[i].index == i && after[i].lineNo == before[i].lineNo && PointsAtHead(after[i], earlier + [last])
    {
      assert PointsAtHead(before[i], earlier);
    }
  }

  /** One entry per header line, numbered consecutively, at strictly increasing line numbers. */
  lemma {:induction false} OneEntryPerHead(kinds: seq<Kind>)
    ensures |Assemble(kinds)| == HeadCount(kinds) && Numbered(Assemble(kinds), kinds)
  {
    if kinds != [] {
      var earlier, last := kinds[..|kinds| - 1], kinds[|kinds| - 1];
      OneEntryPerHead(earlier);
      AddKeepsNumbers(Assemble(earlier), earlier, last);
      assert kinds == earlier + [last];
    }
  }

  /** The lines that end up in some entry: headers, and visible lines after the first of them. */
  function Kept(kinds: seq<Kind>): seq<Kind> {
    if kinds == [] then []
    else
      var before, last := Kept(kinds[..|kinds| - 1]), kinds[|kinds| - 1];
      if last.Head? || (last.Visible? && before != []) then before + [last] else before
  }

  lemma {:induction false} KeptAreLines(kinds: seq<Kind>)
    ensures forall k :: 0 <= k < |Kept(kinds)| ==> !Kept(kinds)[k].Blank? && Kept(kinds)[k] in kinds
    ensures Kept(kinds) == [] <==> Assemble(kinds) == []
  {
    if kinds != [] {
      KeptAreLines(kinds[..|kinds| - 1]);
    }
  }

  function JoinLines(lines: seq<string>): string {
    if lines == [] then ""
    else if |lines| == 1 then lines[0]
    else JoinLines(lines[..|lines| - 1]) + ("\n" + lines[|lines| - 1])
  }

  function LinesOf(kinds: seq<Kind>): seq<string>
    requires forall k :: 0 <= k < |kinds| ==> !kinds[k].Blank?
  {
    seq(|kinds|, i requires 0 <= i < |kinds| => kinds[i].line)
  }

  function Raws(es: seq<Entry>): seq<string> {
    seq(|es|, i requires 0 <= i < |es| => es[i].raw)
  }

  lemma JoinOneMore(lines: seq<string>, line: string)
    ensures JoinLines(lines + [line]) == if lines == [] then line else JoinLines(lines) + ("\n" + line)
  {
    assert (lines + [line])[..|lines|] == lines;
  }

  lemma JoinRegroups(a: string, b: string, c: string)
    ensures a + ("\n" + (b + ("\n" + c))) == a + ("\n" + b) + ("\n" + c)
  {
  }

  /** Adding a line to the entries adds it to their joined raw text. */
  lemma AddJoins(before: seq<Entry>, kind: Kind, lineNo: nat)
    requires kind.Head? || (kind.Visible? && before != [])
    ensures JoinLines(Raws(Add(before, kind, lineNo))) ==
            if before == [] then kind.line else JoinLines(Raws(before)) + ("\n" + kind.line)
  {
    var line := kind.line;
    if kind.Head? {
      assert Raws(Add(before, kind, lineNo)) == Raws(before) + [line];
      JoinOneMore(Raws(before), line);
    } else {
      var last := before[|before| - 1];
      var front := Raws(before[..|before| - 1]);
      assert Raws(before) == front + [last.raw];
      assert Raws(Add(before, kind, lineNo)) == front + [last.raw + ("\n" + line)];
      JoinOneMore(front, last.raw);
      JoinOneMore(front, last.raw + ("\n" + line));
      JoinRegroups(JoinLines(front), last.raw, line);
    }
  }

  /** Nothing is lost or moved: the raw texts of the entries, joined, are the kept lines, joined. */
  lemma {:induction false} RawsAreKeptLines(kinds: seq<Kind>)
    ensures forall k :: 0 <= k < |Kept(kinds)| ==> !Kept(kinds)[k].Blank?
    ensures JoinLines(Raws(Assemble(kinds))) == JoinLines(LinesOf(Kept(kinds)))
  {
    KeptAreLines(kinds);
    if kinds != [] {
      var n := |kinds| - 1;
      var before, kept, last := Assemble(kinds[..n]), Kept(kinds[..n]), kinds[n];
      RawsAreKeptLines(kinds[..n]);
      KeptAreLines(kinds[..n]);
      if last.Head? || (last.Visible? && kept != []) {
        AddJoins(before, last, |kinds|);
        assert LinesOf(kept + [last]) == LinesOf(kept) + [last.line];
        JoinOneMore(LinesOf(kept), last.line);
      }
    }
  }

  predicate SameButLine(a: Entry, b: Entry) {
    a.(lineNo := 0) == b.(lineNo := 0)
  }

  predicate SameButLines(a: seq<Entry>, b: seq<Entry>) {
    |a| == |b| && forall i :: 0 <= i < |a| ==> SameButLine(a[i], b[i])
  }

  lemma AddSame(a: seq<Entry>, b: seq<Entry>, kind: Kind, i: nat, j: nat)
    requires SameButLines(a, b)
    ensures SameButLines(Add(a, kind, i), Add(b, kind, j))
  {
  }

  /** Dropping the preamble and the blank lines changes nothing but the line numbers. */
  lemma {:induction false} KeptLinesParseTheSame(kinds: seq<Kind>)
    ensures SameButLines(Assemble(kinds), Assemble(Kept(kinds)))
  {
    if kinds != [] {
      var n := |kinds| - 1;
      var kept, last := Kept(kinds[..n]), kinds[n];
      KeptLinesParseTheSame(kinds[..n]);
      KeptAreLines(kinds[..n]);
      if last.Head? || (last.Visible? && kept != []) {
        assert (kept + [last])[..|kept|] == kept;
        AddSame(Assemble(kinds[..n]), Assemble(kept), last, |kinds|, |kept| + 1);
      }
    }
  }

  function Shift(e: Entry, entries: nat, lines: nat): Entry {
    e.(index := e.index + entries, lineNo := e.lineNo + lines)
  }

  function ShiftAll(es: seq<Entry>, entries: nat, lines: nat): seq<Entry> {
    seq(|es|, i requires 0 <= i < |es| => Shift(es[i], entries, lines))
  }

  lemma AddShifted(ea: seq<Entry>, eb: seq<Entry>, kind: Kind, lines: nat, n: nat)
    requires eb != [] || !kind.Visible?
    ensures Add(ea + ShiftAll(eb, |ea|, lines), kind, lines + n) == ea + ShiftAll(Add(eb, kind, n), |ea|, lines)
  {
    if kind.Visible? {
      var shifted := ShiftAll(eb, |ea|, lines);
      assert (ea + shifted)[..|ea + shifted| - 1] == ea + shifted[..|shifted| - 1];
      assert ShiftAll(Add(eb, kind, n), |ea|, lines)
             == shifted[..|shifted| - 1] + [Extended(shifted[|shifted| - 1], kind.line, kind.stripped)];
    }
  }

  lemma AssembleOneMore(before: seq<Kind>, last: Kind)
    ensures Assemble(before + [last]) == Add(Assemble(before), last, |before| + 1)
  {
    assert (before + [last])[..|before|] == before;
  }

  lemma {:induction false} HeaderOpens(kinds: seq<Kind>)
    requires kinds != [] && kinds[0].Head?
    ensures Assemble(kinds) != []
  {
    if |kinds| > 1 {
      HeaderOpens(kinds[..|kinds| - 1]);
    }
  }

  /** `whole` parses to the entries of `a` and then those of `b`. */
  ghost predicate Follows(a: seq<Kind>, b: seq<Kind>, whole: seq<Kind>) {
    && |whole| == |a| + |b|
    && Assemble(whole) == Assemble(a) + ShiftAll(Assemble(b), |Assemble(a)|, |a|)
  }

  lemma FollowsWithMore(a: seq<Kind>, b: seq<Kind>, whole: seq<Kind>, last: Kind)
    requires Follows(a, b, whole) && (Assemble(b) != [] || !last.Visible?)
    ensures Follows(a, b + [last], whole + [last])
  {
    AssembleOneMore(whole, last);
    AssembleOneMore(b, last);
    AddShifted(Assemble(a), Assemble(b), last, |a|, |b| + 1);
  }

  lemma FollowsWithNone(a: seq<Kind>)
    ensures Follows(a, [], a)
  {
    AppendNone(Assemble(a));
  }

  /** A log cut at a header parses to the entries of the one part and then of the other. */
  lemma {:induction false} ParseComposes(a: seq<Kind>, b: seq<Kind>)
    requires b != [] ==> b[0].Head?
    ensures Follows(a, b, a + b)
    decreases |b|
  {
    if b == [] {
      FollowsWithNone(a);
      AppendNone(a);
    } else {
      var front, last := b[..|b| - 1], b[|b| - 1];
      ParseComposes(a, front);
      if front != [] {
        HeaderOpens(front);
      }
      FollowsWithMore(a, front, a + front, last);
      SplitLast(b);
      AppendToSum(a, front, last);
    }
  }

  /** The same for the lines of a log. */
  lemma LogComposes(a: seq<string>, b: seq<string>, opener: Opener)
    requires b != [] ==> opener(Chomp(b[0])).Some?
    ensures Entries(a + b, opener) == Entries(a, opener) + ShiftAll(Entries(b, opener), |Entries(a, opener)|, |a|)
  {
    assert Kinds(a + b, opener) == Kinds(a, opener) + Kinds(b, opener);
    ParseComposes(Kinds(a, opener), Kinds(b, opener));
  }

  lemma ChompTwice(line: string)
    ensures Chomp(Chomp(line)) == Chomp(line)
  {
  }

  /** Writing out the kept lines and parsing them again gives the same entries. */
  lemma LogNormalises(lines: seq<string>, opener: Opener)
    ensures var kept := Kept(Kinds(lines, opener));
            && (forall k :: 0 <= k < |kept| ==> !kept[k].Blank?)
            && SameButLines(Entries(lines, opener), Entries(LinesOf(kept), opener))
  {
    var kinds := Kinds(lines, opener);
    var kept := Kept(kinds);
    KeptAreLines(kinds);
    KeptLinesParseTheSame(kinds);
    forall k | 0 <= k < |kept| ensures KindOf(kept[k].line, opener) == kept[k] {
      var i :| 0 <= i < |kinds| && kinds[i] == kept[k];
      ChompTwice(lines[i]);
    }
    assert Kinds(LinesOf(kept), opener) == kept;
  }

  // ---------------------------------------------------------------- searching

  function Window(entries: seq<Entry>, newestFirst: bool, tail: Option<int>): seq<Entry> {
    var scope := if tail.Some? && 0 < tail.value < |entries| then entries[|entries| - tail.value..] else entries;
    if newestFirst then Reversed(scope) else scope
  }

  function Reversed(entries: seq<Entry>): (r: seq<Entry>)
    ensures |r| == |entries| && forall i :: 0 <= i < |r| ==> r[i] == entries[|entries| - 1 - i]
  {
    if entries == [] then [] else Reversed(entries[1..]) + [entries[0]]
  }

  function Matching(entries: seq<Entry>, keep: Entry -> bool): seq<Entry> {
    if entries == [] then []
    else
      var n := |entries| - 1;
      Matching(entries[..n], keep) + if keep(entries[n]) then [entries[n]] else []
  }

  function Limited(found: seq<Entry>, limit: Option<int>): seq<Entry> {
    if limit.Some? && 0 < limit.value < |found| then found[..limit.value] else found
  }

  lemma {:induction false} MatchingIsPrefix(entries: seq<Entry>, i: nat, keep: Entry -> bool)
    requires i <= |entries|
    ensures Matching(entries[..i], keep) <= Matching(entries, keep)
    decreases |entries|
  {
    if i < |entries| {
      MatchingIsPrefix(entries[..|entries| - 1], i, keep);
      assert entries[..|entries| - 1][..i] == entries[..i];
    } else {
      assert entries[..i] == entries;
    }
  }

  /** `search_entries` stops as soon as it has enough, and misses nothing by it. */
  method SearchEntries(entries: seq<Entry>, keep: Entry -> bool, newestFirst: bool, tail: Option<int>, limit: Option<int>)
    returns (matches: seq<Entry>)
    ensures matches == Limited(Matching(Window(entries, newestFirst, tail), keep), limit)
  {
    var scope := Window(entries, newestFirst, tail);
    matches := [];
    for i := 0 to |scope|
      invariant matches == Matching(scope[..i], keep)
      invariant limit.Some? && limit.value > 0 ==> |matches| < limit.value
    {
      assert scope[..i + 1][..i] == scope[..i];
      if keep(scope[i]) {
        matches := matches + [scope[i]];
        if limit.Some? && limit.value > 0 && |matches| >= limit.value {
          MatchingIsPrefix(scope, i + 1, keep);
          return;
        }
      }
    }
    assert scope[..|scope|] == scope;
  }

  ghost predicate Decreasing(es: seq<Entry>) {
    forall i, j :: 0 <= i < j < |es| ==> es[i].index > es[j].index
  }

  /** The newest matches come first: found newest-first, the entries of a log have decreasing indexes. */
  lemma {:induction false} NewestFirst(window: seq<Entry>, keep: Entry -> bool)
    requires Decreasing(window)
    ensures var found := Matching(window, keep);
            && Decreasing(found)
            && (forall e :: e in found <==> e in window && keep(e))
  {
    if window != [] {
      var n := |window| - 1;
      NewestFirst(window[..n], keep);
      assert window == window[..n] + [window[n]];
      var rest := Matching(window[..n], keep);
      forall i | 0 <= i < |rest| ensures rest[i].index > window[n].index {
        assert rest[i] in rest;
        var k :| 0 <= k < n && window[..n][k] == rest[i];
      }
    }
  }

  lemma WindowDecreases(es: seq<Entry>, tail: Option<int>)
    requires forall i :: 0 <= i < |es| ==> es[i].index == i
    ensures Decreasing(Window(es, true, tail))
  {
  }

  lemma LimitedIsPart(all: seq<Entry>, limit: Option<int>)
    requires Decreasing(all)
    ensures Decreasing(Limited(all, limit))
    ensures forall e :: e in Limited(all, limit) ==> e in all
  {
  }

  /** Whatever the limit cuts off is older than what it leaves. */
  lemma LimitedKeepsNewest(all: seq<Entry>, limit: Option<int>, e: Entry)
    requires Decreasing(all) && e in all && e !in Limited(all, limit)
    ensures forall i :: 0 <= i < |Limited(all, limit)| ==> Limited(all, limit)[i].index > e.index
  {
    var found := Limited(all, limit);
    var k :| 0 <= k < |all| && all[k] == e;
    assert forall i :: 0 <= i < |found| ==> found[i] == all[i] && found[i] in found;
  }

  lemma SearchReturnsNewest(lines: seq<string>, opener: Opener, keep: Entry -> bool, tail: Option<int>, limit: Option<int>)
    ensures var window := Window(Entries(lines, opener), true, tail);
            var found := Limited(Matching(window, keep), limit);
            && Decreasing(found)
            && (forall e :: e in found ==> e in window && keep(e))
            && (forall e :: e in window && keep(e) && e !in found ==>
                  forall i :: 0 <= i < |found| ==> found[i].index > e.index)
  {
    var es := Entries(lines, opener);
    var window := Window(es, true, tail);
    OneEntryPerHead(Kinds(lines, opener));
    WindowDecreases(es, tail);
    NewestFirst(window, keep);
    var all := Matching(window, keep);
    var found := Limited(all, limit);
    LimitedIsPart(all, limit);
    forall e | e in window && keep(e) && e !in found
      ensures forall i :: 0 <= i < |found| ==> found[i].index > e.index
    {
      LimitedKeepsNewest(all, limit, e);
    }
  }
}
