/** What the fields of parsed metadata and of parsed entries hold, told by the text they come from. */
module ProgressEntries {
  import opened Common
  import opened PythonText
  import opened SmartSplit
  import opened ProgressLog

  // ---------------------------------------------------------------- metadata

  lemma {:induction false} FirstIndex(c: char, a: string, b: string)
    requires c !in a
    ensures IndexOf(c, a) == |a| && IndexOf(c, a + ([c] + b)) == |a|
    decreases |a|
  {
    if a == "" {
      assert a + ([c] + b) == [c] + b;
    } else {
      assert a[0] in a && forall x :: x in a[1..] ==> x in a;
      assert (a + ([c] + b))[1..] == a[1..] + ([c] + b);
      FirstIndex(c, a[1..], b);
    }
  }

  /**
   A part is cut at its first equals sign: the key is stripped and the value handed to the value
   parser as it is; without a sign, or without a key in front of it, the part is an extra.
   */
  lemma PartMeans(key: string, value: string)
    requires '=' !in key
    ensures ReadPart(key + (['='] + value)) ==
            if Strip(key) == "" then Extra(key + (['='] + value)) else Pair(Strip(key), value)
    ensures ReadPart(key) == if key == "" then Nothing else Extra(key)
  {
    var part := key + (['='] + value);
    FirstIndex('=', key, value);
    assert part[..|key|] == key && part[|key| + 1..] == value;
  }

  /** The dictionary holds the fields, and under `_extra` the other parts, if there are any. */
  lemma DictionaryHolds(meta: Meta, key: string)
    ensures meta.extras != [] ==> "_extra" in Filed(meta) && Filed(meta)["_extra"] == Extras(meta.extras)
    ensures key != "_extra" || meta.extras == [] ==>
              (key in Filed(meta) <==> key in meta.fields) && (key in meta.fields ==> Filed(meta)[key] == Value(meta.fields[key]))
  {
  }

  /** Parts that splitting gives are stripped. */
  lemma PartsAreTrimmed(text: string, sep: char, maxsplit: int, i: nat)
    requires i < |Split(text, sep, maxsplit)|
    ensures Trimmed(Split(text, sep, maxsplit)[i])
  {
    StripIsTrimmed(Pieces(text, START, sep, maxsplit)[i]);
  }

  lemma {:induction false} DropWholeKey(key: string, rest: string)
    requires forall c :: c in key ==> KeyChar(c)
    requires rest != "" && !KeyChar(rest[0])
    ensures DropKey(key + rest) == rest
    decreases |key|
  {
    if key == "" {
      assert key + rest == rest;
    } else {
      assert key[0] in key && forall c :: c in key[1..] ==> c in key;
      assert (key + rest)[1..] == key[1..] + rest;
      DropWholeKey(key[1..], rest);
    }
  }

  /** A key of letters, digits, dots, dashes and underscores, spaces, and an equals sign open metadata. */
  lemma KeyOpens(key: string, spaces: string, rest: string)
    requires key != "" && ('A' <= key[0] <= 'Z' || 'a' <= key[0] <= 'z' || key[0] == '_')
    requires forall c :: c in key ==>
               'A' <= c <= 'Z' || 'a' <= c <= 'z' || '0' <= c <= '9' || c == '_' || c == '.' || c == '-'
    requires forall c :: c in spaces ==> IsSpace(c)
    ensures OpensWithKey(key + (spaces + (['='] + rest)))
  {
    var tail := spaces + (['='] + rest);
    if spaces == "" {
      assert tail == ['='] + rest;
    } else {
      assert spaces[0] in spaces && tail[0] == spaces[0];
    }
    DropWholeKey(key, tail);
    SpacesGo(spaces, ['='] + rest);
  }

  /** Without a key in front nothing opens metadata. */
  lemma NoKeyNoMeta(s: string)
    requires s == "" || !('A' <= s[0] <= 'Z' || 'a' <= s[0] <= 'z' || s[0] == '_')
    ensures !OpensWithKey(s)
  {
  }

  /** A body without a bar, or with something else behind its last one, is all message. */
  lemma BodyIsMessage(body: string)
    requires forall i: nat :: BarAt(body, i) && (forall k :: k > i ==> !BarAt(body, k)) ==> !LooksLikeMeta(body[i + 3..])
    ensures SplitBody(body) == (Strip(body), "")
  {
    var bar := LastBar(body, |body|);
    if bar.Some? {
      assert forall k :: k > bar.value ==> !BarAt(body, k);
    }
  }

  // ---------------------------------------------------------------- entries

  /** The stripped groups of a header, each in its place. */
  predicate HoldsGroups(o: Opening, h: Header) {
    && o.emoji == Strip(h.emoji) && o.timestamp == Strip(h.timestamp)
    && o.agent == Strip(h.agent) && o.project == Strip(h.project)
    && (o.message, o.metaText) == SplitBody(h.body)
  }

  lemma HeadHolds(lines: seq<string>, header: Matcher, k: nat)
    requires k < |lines| && Kinds(lines, OpenerOf(header))[k].Head?
    ensures header(Chomp(lines[k])).Some?
    ensures HoldsGroups(Kinds(lines, OpenerOf(header))[k].opening, header(Chomp(lines[k])).value)
  {
    assert Kinds(lines, OpenerOf(header))[k] == KindOf(lines[k], OpenerOf(header));
  }

  lemma EntryPoints(kinds: seq<Kind>, i: nat)
    requires i < |Assemble(kinds)|
    ensures Assemble(kinds)[i].index == i && PointsAtHead(Assemble(kinds)[i], kinds)
  {
    OneEntryPerHead(kinds);
  }

  /** Every entry holds the groups of the header line it points at. */
  lemma EntryHolds(lines: seq<string>, header: Matcher, i: nat)
    requires i < |Entries(lines, OpenerOf(header))|
    ensures var e := Entries(lines, OpenerOf(header))[i];
            && e.index == i && 1 <= e.lineNo <= |lines|
            && header(Chomp(lines[e.lineNo - 1])).Some?
            && HoldsGroups(e.opening, header(Chomp(lines[e.lineNo - 1])).value)
  {
    var kinds := Kinds(lines, OpenerOf(header));
    var e := Entries(lines, OpenerOf(header))[i];
    EntryPoints(kinds, i);
    HeadHolds(lines, header, e.lineNo - 1);
  }

  function VisibleLines(kinds: seq<Kind>): seq<string> {
    if kinds == [] then []
    else
      var last := kinds[|kinds| - 1];
      VisibleLines(kinds[..|kinds| - 1]) + if last.Visible? then [last.line] else []
  }

  function VisibleTexts(kinds: seq<Kind>): seq<string> {
    if kinds == [] then []
    else
      var last := kinds[|kinds| - 1];
      VisibleTexts(kinds[..|kinds| - 1]) + if last.Visible? then [last.stripped] else []
  }

  /** One header and the lines up to the next: one entry, and what it holds. */
  ghost predicate HoldsLines(e: Entry, o: Opening, line: string, rest: seq<Kind>) {
    && e.index == 0 && e.lineNo == 1 && e.opening == o
    && e.raw == JoinLines([line] + VisibleLines(rest))
    && e.message == JoinLines([o.message] + VisibleTexts(rest))
  }

  /**
   A header followed by lines that are none: one entry, whose raw text is the header and the
   visible lines as they are, and whose message goes on with the same lines stripped.
   */
  lemma {:induction false} EntryGoesOn(o: Opening, line: string, rest: seq<Kind>)
    requires forall k :: 0 <= k < |rest| ==> !rest[k].Head?
    ensures |Assemble([Head(o, line)] + rest)| == 1
    ensures HoldsLines(Assemble([Head(o, line)] + rest)[0], o, line, rest)
    decreases |rest|
  {
    var head := [Head(o, line)];
    if rest == [] {
      AppendNone(head);
      assert head[..0] == [] && [line] + [] == [line] && [o.message] + [] == [o.message];
    } else {
      var front, last := rest[..|rest| - 1], rest[|rest| - 1];
      EntryGoesOn(o, line, front);
      AssembleOneMore(head + front, last);
      SplitLast(rest);
      AppendToSum(head, front, last);
      EntryHoldsMore(Assemble(head + front)[0], o, line, front, last, |rest| + 1);
      assert Assemble(head + front) == [Assemble(head + front)[0]];
    }
  }

  lemma EntryHoldsMore(e: Entry, o: Opening, line: string, front: seq<Kind>, last: Kind, lineNo: nat)
    requires HoldsLines(e, o, line, front) && !last.Head?
    ensures |Add([e], last, lineNo)| == 1 && HoldsLines(Add([e], last, lineNo)[0], o, line, front + [last])
  {
    assert (front + [last])[..|front|] == front;
    AppendNone(VisibleLines(front));
    AppendNone(VisibleTexts(front));
    if last.Visible? {
      JoinOneMore([line] + VisibleLines(front), last.line);
      JoinOneMore([o.message] + VisibleTexts(front), last.stripped);
      AppendToSum([line], VisibleLines(front), last.line);
      AppendToSum([o.message], VisibleTexts(front), last.stripped);
    }
  }

  // ---------------------------------------------------------------- the window of a search

  /** How many entries a search looks at: the newest ones, as many as the tail says. */
  function WindowSize(n: nat, tail: Option<int>): nat {
    if tail.Some? && 0 < tail.value < n then tail.value else n
  }

  /** The newest entries, as they stand in the log. */
  function Newest(entries: seq<Entry>, tail: Option<int>): seq<Entry> {
    entries[|entries| - WindowSize(|entries|, tail)..]
  }

  /** The window is the newest end of the log, in the order asked for. */
  lemma WindowIs(entries: seq<Entry>, newestFirst: bool, tail: Option<int>, k: nat)
    requires k < WindowSize(|entries|, tail)
    ensures var n, size := |entries|, WindowSize(|entries|, tail);
            && |Window(entries, newestFirst, tail)| == size
            && Window(entries, newestFirst, tail)[k] == if newestFirst then entries[n - 1 - k] else entries[n - size + k]
  {
    WindowIsNewest(entries, newestFirst, tail);
    NewestAt(entries, tail, if newestFirst then WindowSize(|entries|, tail) - 1 - k else k);
    if newestFirst {
      ReversedAt(Newest(entries, tail), k);
    }
  }

  lemma NewestAt(entries: seq<Entry>, tail: Option<int>, i: nat)
    requires i < WindowSize(|entries|, tail)
    ensures |Newest(entries, tail)| == WindowSize(|entries|, tail)
    ensures Newest(entries, tail)[i] == entries[|entries| - WindowSize(|entries|, tail) + i]
  {
  }

  lemma ReversedAt(entries: seq<Entry>, k: nat)
    requires k < |entries|
    ensures |Reversed(entries)| == |entries| && Reversed(entries)[k] == entries[|entries| - 1 - k]
  {
  }

  lemma WindowIsNewest(entries: seq<Entry>, newestFirst: bool, tail: Option<int>)
    ensures Window(entries, newestFirst, tail) == if newestFirst then Reversed(Newest(entries, tail)) else Newest(entries, tail)
  {
    assert entries[0..] == entries;
  }
}
