/** What reconciling and previewing the global changelog promise, and exactly when. */
module ChangelogLaws {
  import opened Common
  import opened PythonText
  import opened ChangelogText
  import opened ChangelogRoundTrip
  import opened ChangelogReconcile

  // ---------------------------------------------------------------- filters

  lemma {:induction false} Filtered(entries: seq<Entry>, project: string)
    ensures forall e :: e in OfOthers(entries, project) <==> e in entries && e.project != project
    ensures forall e :: e in OfProject(entries, project) <==> e in entries && e.project == project
  {
    if entries != [] {
      var n := |entries| - 1;
      Filtered(entries[..n], project);
      assert entries == entries[..n] + [entries[n]];
    }
  }

  lemma {:induction false} FilterConcat(a: seq<Entry>, b: seq<Entry>, project: string)
    ensures OfOthers(a + b, project) == OfOthers(a, project) + OfOthers(b, project)
    ensures OfProject(a + b, project) == OfProject(a, project) + OfProject(b, project)
    decreases |b|
  {
    if b == [] {
      assert a + b == a && OfOthers(a, project) + [] == OfOthers(a, project)
             && OfProject(a, project) + [] == OfProject(a, project);
    } else {
      var n := |b| - 1;
      FilterConcat(a, b[..n], project);
      assert (a + b)[..|a + b| - 1] == a + b[..n] && (a + b)[|a + b| - 1] == b[n];
    }
  }

  lemma FilterAppended(entries: seq<Entry>, e: Entry, project: string)
    ensures OfOthers(entries + [e], project) == OfOthers(entries, project) + if e.project != project then [e] else []
    ensures OfProject(entries + [e], project) == OfProject(entries, project) + if e.project == project then [e] else []
  {
    assert (entries + [e])[..|entries|] == entries;
  }

  lemma {:induction false} FilterUniform(entries: seq<Entry>, project: string, p: string)
    requires forall e :: e in entries ==> e.project == p
    ensures OfOthers(entries, project) == if p == project then [] else entries
    ensures OfProject(entries, project) == if p == project then entries else []
  {
    if entries != [] {
      var front, e := entries[..|entries| - 1], entries[|entries| - 1];
      assert entries == front + [e];
      FilterUniform(front, project, p);
      FilterAppended(front, e, project);
      AppendNone(front);
      AppendNone<Entry>([]);
    }
  }

  lemma {:induction false} FiltersPart(entries: seq<Entry>, project: string)
    ensures |OfOthers(entries, project)| + |OfProject(entries, project)| == |entries|
    ensures OfProject(entries, project) == [] ==> OfOthers(entries, project) == entries
  {
    if entries != [] {
      var n := |entries| - 1;
      FiltersPart(entries[..n], project);
      assert entries == entries[..n] + [entries[n]];
    }
  }

  /** Leaving out one project does not touch the entries of another. */
  lemma {:induction false} OthersKeepProject(entries: seq<Entry>, a: string, b: string)
    ensures OfProject(OfOthers(entries, a), b) == if a == b then [] else OfProject(entries, b)
  {
    if entries != [] {
      var front, e := entries[..|entries| - 1], entries[|entries| - 1];
      OthersKeepProject(front, a, b);
      FilterAppended(OfOthers(front, a), e, b);
      AppendNone(OfOthers(front, a));
    }
  }

  lemma {:induction false} OthersTwice(entries: seq<Entry>, a: string)
    ensures OfOthers(OfOthers(entries, a), a) == OfOthers(entries, a)
  {
    if entries != [] {
      var front, e := entries[..|entries| - 1], entries[|entries| - 1];
      OthersTwice(front, a);
      FilterAppended(OfOthers(front, a), e, a);
      AppendNone(OfOthers(front, a));
    }
  }

  lemma {:induction false} OthersCommute(entries: seq<Entry>, a: string, b: string)
    ensures OfOthers(OfOthers(entries, a), b) == OfOthers(OfOthers(entries, b), a)
  {
    if entries != [] {
      var front, e := entries[..|entries| - 1], entries[|entries| - 1];
      OthersCommute(front, a, b);
      FilterAppended(OfOthers(front, a), e, b);
      FilterAppended(OfOthers(front, b), e, a);
      AppendNone(OfOthers(front, a));
      AppendNone(OfOthers(front, b));
    }
  }

  /** A published entry takes title, id and summary from the accepted one, and the project from the caller. */
  lemma DerivedHolds(slug: string, safe: seq<ProjectEntry>, i: nat)
    requires i < |safe|
    ensures |Derived(slug, safe)| == |safe|
    ensures var e := Derived(slug, safe)[i];
            e.title == safe[i].title && e.project == slug && e.id == safe[i].id && e.summary == safe[i].summary
  {
  }

  lemma DerivedOf(slug: string, safe: seq<ProjectEntry>)
    ensures forall e :: e in Derived(slug, safe) ==> e.project == slug
  {
  }

  // ---------------------------------------------------------------- what a reconciliation is read back as

  /** The entries the new text parses to, from those the existing one parses to. */
  function Settled(slug: string, safe: seq<ProjectEntry>, existing: seq<Entry>): seq<Entry> {
    ReadBackAll(Merged(slug, safe, existing))
  }

  lemma MergeFits(slug: string, safe: seq<ProjectEntry>, existing: seq<Entry>)
    requires AllFit(existing) && AllFit(Derived(slug, safe))
    ensures AllFit(Merged(slug, safe, existing))
  {
    Filtered(existing, slug);
    var kept, derived := OfOthers(existing, slug), Derived(slug, safe);
    forall i | 0 <= i < |kept + derived| ensures FitEntry((kept + derived)[i]) {
      if i < |kept| {
        assert kept[i] in kept && kept[i] in existing;
      } else {
        assert (kept + derived)[i] == derived[i - |kept|];
      }
    }
  }

  /** Any text that parses can be reconciled, and the new text parses. */
  lemma ReconcileReads(slug: string, safe: seq<ProjectEntry>, text: string, default: string)
    requires Parse(text, "").Some? && AllFit(Derived(slug, safe)) && Fit(default)
    ensures Reconcile(slug, safe, text).Some? && AllFit(Parse(text, "").value)
    ensures Parse(Reconcile(slug, safe, text).value, default) == Some(Settled(slug, safe, Parse(text, "").value))
  {
    EveryParsedEntryFits(text, "");
    MergeFits(slug, safe, Parse(text, "").value);
    RenderParse(Merged(slug, safe, Parse(text, "").value), default);
  }

  /** The new text parses to the merged entries exactly if every one of them is good. */
  lemma ReconcileParsesIff(slug: string, safe: seq<ProjectEntry>, text: string, default: string)
    requires Parse(text, "").Some? && Fit(default)
    ensures Reconcile(slug, safe, text).Some?
    ensures var merged := Merged(slug, safe, Parse(text, "").value);
            Parse(Reconcile(slug, safe, text).value, default) == Some(merged) <==> AllGood(merged)
  {
    RoundTripIff(Merged(slug, safe, Parse(text, "").value), default);
  }

  lemma ReadBackIsGood(e: Entry)
    requires FitEntry(e)
    ensures Good(ReadBack(e)) && (Good(e) ==> ReadBack(e) == e)
    ensures e.project != "" ==> ReadBack(e).project == e.project
  {
    FieldLineStripsVisible(ENTRY_ID, e.id);
    FieldLineStripsVisible(SUMMARY, e.summary);
    StripFits(FieldLine(ENTRY_ID, e.id));
    StripFits(FieldLine(SUMMARY, e.summary));
    FieldsArePlain(e);
  }

  lemma StripFits(line: string)
    requires OneLine(line)
    ensures Fit(Strip(line))
  {
    StripIsTrimmed(line);
  }

  lemma AllReadBack(entries: seq<Entry>)
    requires AllFit(entries)
    ensures AllGood(ReadBackAll(entries)) && (AllGood(entries) ==> ReadBackAll(entries) == entries)
    ensures ReadBackAll(ReadBackAll(entries)) == ReadBackAll(entries)
    ensures forall e :: e in ReadBackAll(entries) ==> Good(e)
  {
    forall i | 0 <= i < |entries| ensures Good(ReadBack(entries[i])) && ReadBack(ReadBack(entries[i])) == ReadBack(entries[i]) {
      ReadBackIsGood(entries[i]);
      ReadBackIsGood(ReadBack(entries[i]));
    }
    if AllGood(entries) {
      forall i | 0 <= i < |entries| ensures ReadBack(entries[i]) == entries[i] {
        ReadBackIsGood(entries[i]);
      }
    }
  }

  // ---------------------------------------------------------------- other projects are kept

  /** Every other project has its entries, in order; this one has exactly the derived ones. */
  ghost predicate Keeps(slug: string, safe: seq<ProjectEntry>, existing: seq<Entry>, parsed: seq<Entry>) {
    forall p: string :: OfProject(parsed, p) == if p == slug then Derived(slug, safe) else OfProject(existing, p)
  }

  lemma MergedKeeps(slug: string, safe: seq<ProjectEntry>, existing: seq<Entry>)
    ensures Keeps(slug, safe, existing, Merged(slug, safe, existing))
  {
    forall p: string
      ensures OfProject(Merged(slug, safe, existing), p) ==
              if p == slug then Derived(slug, safe) else OfProject(existing, p)
    {
      MergedView(slug, safe, existing, p);
    }
  }

  lemma MergedView(slug: string, safe: seq<ProjectEntry>, existing: seq<Entry>, p: string)
    ensures OfProject(Merged(slug, safe, existing), p) == if p == slug then Derived(slug, safe) else OfProject(existing, p)
  {
    FilterConcat(OfOthers(existing, slug), Derived(slug, safe), p);
    OthersKeepProject(existing, slug, p);
    DerivedOf(slug, safe);
    FilterUniform(Derived(slug, safe), p, slug);
    AppendNone(OfProject(existing, p));
    assert [] + Derived(slug, safe) == Derived(slug, safe);
  }

  lemma SameViewsSameEntries(a: seq<Entry>, b: seq<Entry>)
    requires forall p: string :: OfProject(a, p) == OfProject(b, p)
    ensures forall e :: e in b ==> e in a
  {
    forall e | e in b ensures e in a {
      Filtered(a, e.project);
      Filtered(b, e.project);
      assert e in OfProject(b, e.project);
    }
  }

  /**
   Reconciling keeps every other project's entries, in order, and replaces this project's, if and
   only if every merged entry is good.  The entries replaced may be as bad as they like.
   */
  lemma ReconcileKeepsIff(slug: string, safe: seq<ProjectEntry>, text: string)
    requires Parse(text, "").Some?
    ensures Reconcile(slug, safe, text).Some?
    ensures var existing, parsed := Parse(text, "").value, Parse(Reconcile(slug, safe, text).value, "");
            (parsed.Some? && Keeps(slug, safe, existing, parsed.value)) <==> AllGood(Merged(slug, safe, existing))
  {
    var existing := Parse(text, "").value;
    var merged := Merged(slug, safe, existing);
    var parsed := Parse(Reconcile(slug, safe, text).value, "");
    MergedKeeps(slug, safe, existing);
    RoundTripIff(merged, "");
    if parsed.Some? && Keeps(slug, safe, existing, parsed.value) {
      KeptAreGood(merged, parsed.value);
    }
  }

  lemma KeptAreGood(merged: seq<Entry>, parsed: seq<Entry>)
    requires Parse(Render(merged), "") == Some(parsed)
    requires forall p: string :: OfProject(parsed, p) == OfProject(merged, p)
    ensures AllGood(merged)
  {
    EveryParsedEntryFits(Render(merged), "");
    SameViewsSameEntries(parsed, merged);
    forall i | 0 <= i < |merged| ensures FitEntry(merged[i]) {
      assert merged[i] in parsed;
    }
    RenderParse(merged, "");
    AllReadBack(merged);
    forall i | 0 <= i < |merged| ensures Good(merged[i]) {
      assert merged[i] in parsed;
    }
  }

  // ---------------------------------------------------------------- idempotence

  function Total(ns: seq<nat>): nat {
    if ns == [] then 0 else Total(ns[..|ns| - 1]) + ns[|ns| - 1]
  }

  lemma TotalOneMore(ns: seq<nat>, n: nat)
    ensures Total(ns + [n]) == Total(ns) + n
  {
    assert (ns + [n])[..|ns|] == ns;
  }

  lemma {:induction false} TotalConcat(a: seq<nat>, b: seq<nat>)
    ensures Total(a + b) == Total(a) + Total(b)
    decreases |b|
  {
    if b == [] {
      assert a + b == a;
    } else {
      var front, n := b[..|b| - 1], b[|b| - 1];
      TotalConcat(a, front);
      TotalOneMore(a + front, n);
      assert a + b == a + front + [n];
    }
  }

  /** Numbers at least as great, one by one, are at least as great together; a greater one shows. */
  lemma {:induction false} TotalCompares(a: seq<nat>, b: seq<nat>)
    requires |a| == |b| && forall i :: 0 <= i < |a| ==> a[i] <= b[i]
    ensures Total(a) <= Total(b)
    ensures forall i :: 0 <= i < |a| && a[i] < b[i] ==> Total(a) < Total(b)
  {
    if a != [] {
      TotalCompares(a[..|a| - 1], b[..|b| - 1]);
    }
  }

  function Lengths(entries: seq<Entry>): seq<nat> {
    seq(|entries|, i requires 0 <= i < |entries| => |Section(entries[i])|)
  }

  function Size(entries: seq<Entry>): nat {
    Total(Lengths(entries))
  }

  lemma SizeOneMore(entries: seq<Entry>, e: Entry)
    ensures Size(entries + [e]) == Size(entries) + |Section(e)|
  {
    assert Lengths(entries + [e]) == Lengths(entries) + [|Section(e)|];
    TotalOneMore(Lengths(entries), |Section(e)|);
  }

  lemma {:induction false} JoinedSize(entries: seq<Entry>)
    requires entries != []
    ensures |Joined(entries)| == Size(entries) + 2 * (|entries| - 1)
  {
    var front, e := entries[..|entries| - 1], entries[|entries| - 1];
    SizeOneMore(front, e);
    assert entries == front + [e];
    if |entries| > 1 {
      JoinedSize(front);
    } else {
      assert front == [];
    }
  }

  lemma SectionGrows(e: Entry)
    requires FitEntry(e)
    ensures |Section(e)| <= |Section(ReadBack(e))|
    ensures !Good(e) ==> |Section(e)| < |Section(ReadBack(e))|
  {
    FieldLineStripsVisible(ENTRY_ID, e.id);
    FieldLineStripsVisible(SUMMARY, e.summary);
  }

  lemma SizeGrows(entries: seq<Entry>)
    requires AllFit(entries) && !AllGood(entries)
    ensures Size(entries) < Size(ReadBackAll(entries))
  {
    forall i | 0 <= i < |entries| ensures |Section(entries[i])| <= |Section(ReadBackAll(entries)[i])| {
      SectionGrows(entries[i]);
    }
    TotalCompares(Lengths(entries), Lengths(ReadBackAll(entries)));
    var i :| 0 <= i < |entries| && !Good(entries[i]);
    SectionGrows(entries[i]);
    assert Lengths(entries)[i] < Lengths(ReadBackAll(entries))[i];
  }

  lemma SizeConcat(a: seq<Entry>, b: seq<Entry>)
    ensures Size(a + b) == Size(a) + Size(b)
  {
    assert Lengths(a + b) == Lengths(a) + Lengths(b);
    TotalConcat(Lengths(a), Lengths(b));
  }

  lemma SameTextSameSize(a: seq<Entry>, b: seq<Entry>)
    requires Render(a) == Render(b) && |a| == |b|
    ensures Size(a) == Size(b)
  {
    if a != [] {
      JoinedSize(a);
      JoinedSize(b);
      assert |Render(a)| == |HEADER| + |Joined(a)| + 1 && |Render(b)| == |HEADER| + |Joined(b)| + 1;
    }
  }

  /** The others after a second reading. */
  lemma SecondMerge(slug: string, safe: seq<ProjectEntry>, existing: seq<Entry>)
    requires AllFit(existing) && AllFit(Derived(slug, safe)) && slug != ""
    ensures Merged(slug, safe, Settled(slug, safe, existing)) ==
            OfOthers(ReadBackAll(OfOthers(existing, slug)), slug) + Derived(slug, safe)
  {
    var others, derived := OfOthers(existing, slug), Derived(slug, safe);
    ReadBackConcat(others, derived);
    FilterConcat(ReadBackAll(others), ReadBackAll(derived), slug);
    DerivedStays(slug, safe);
    FilterUniform(ReadBackAll(derived), slug, slug);
    AppendNone(OfOthers(ReadBackAll(others), slug));
  }

  lemma DerivedStays(slug: string, safe: seq<ProjectEntry>)
    requires AllFit(Derived(slug, safe)) && slug != ""
    ensures forall e :: e in ReadBackAll(Derived(slug, safe)) ==> e.project == slug
  {
    forall i | 0 <= i < |safe| ensures ReadBack(Derived(slug, safe)[i]).project == slug {
      ReadBackIsGood(Derived(slug, safe)[i]);
    }
  }

  /**
   Reconciling again changes nothing, to the letter, if and only if every entry of another project
   is good.
   */
  lemma ReconcileIsIdempotentIff(slug: string, safe: seq<ProjectEntry>, text: string)
    requires Parse(text, "").Some? && AllFit(Derived(slug, safe)) && slug != ""
    ensures Reconcile(slug, safe, text).Some?
    ensures Reconcile(slug, safe, Reconcile(slug, safe, text).value) == Reconcile(slug, safe, text) <==>
            AllGood(OfOthers(Parse(text, "").value, slug))
  {
    var existing := Parse(text, "").value;
    var others, derived := OfOthers(existing, slug), Derived(slug, safe);
    ReconcileReads(slug, safe, text, "");
    SecondMerge(slug, safe, existing);
    OthersFit(existing, slug);
    if AllGood(others) {
      AllReadBack(others);
      OthersTwice(existing, slug);
    } else {
      SecondTextDiffers(others, derived, slug);
    }
  }

  lemma OthersFit(existing: seq<Entry>, slug: string)
    requires AllFit(existing)
    ensures AllFit(OfOthers(existing, slug))
  {
    Filtered(existing, slug);
    var others := OfOthers(existing, slug);
    forall i | 0 <= i < |others| ensures FitEntry(others[i]) {
      assert others[i] in others;
    }
  }

  lemma SameTextSameCount(a: seq<Entry>, b: seq<Entry>)
    requires AllFit(a) && AllFit(b) && Render(a) == Render(b)
    ensures |a| == |b|
  {
    RenderParse(a, "");
    RenderParse(b, "");
    assert |ReadBackAll(a)| == |a| && |ReadBackAll(b)| == |b|;
  }

  lemma SecondTextDiffers(others: seq<Entry>, derived: seq<Entry>, slug: string)
    requires AllFit(others) && AllFit(derived) && !AllGood(others)
    ensures Render(OfOthers(ReadBackAll(others), slug) + derived) != Render(others + derived)
  {
    var read := ReadBackAll(others);
    var again := OfOthers(read, slug);
    FiltersPart(read, slug);
    SizeGrows(others);
    SizeConcat(again, derived);
    SizeConcat(others, derived);
    AgainFits(others, derived, slug);
    if Render(again + derived) == Render(others + derived) {
      SameTextSameCount(again + derived, others + derived);
      SameTextSameSize(again + derived, others + derived);
    }
  }

  lemma AgainFits(others: seq<Entry>, derived: seq<Entry>, slug: string)
    requires AllFit(others) && AllFit(derived)
    ensures AllFit(OfOthers(ReadBackAll(others), slug) + derived) && AllFit(others + derived)
  {
    AllReadBack(others);
    OthersFit(ReadBackAll(others), slug);
  }

  // ---------------------------------------------------------------- two projects

  /** An entry that names no project, and is read back as one of this project: the line after says so. */
  predicate Intrudes(e: Entry, slug: string) {
    e.project != slug && ReadBack(e).project == slug
  }

  ghost predicate NoneIntrudes(entries: seq<Entry>, slug: string) {
    forall e :: e in entries ==> !Intrudes(e, slug)
  }

  lemma ReadBackOneMore(entries: seq<Entry>, e: Entry)
    ensures ReadBackAll(entries + [e]) == ReadBackAll(entries) + [ReadBack(e)]
  {
  }

  /** Without intruders, leaving out a project and reading back can be swapped. */
  lemma {:induction false} OthersReadBack(entries: seq<Entry>, slug: string)
    requires AllFit(entries) && NoneIntrudes(entries, slug) && slug != ""
    ensures OfOthers(ReadBackAll(entries), slug) == ReadBackAll(OfOthers(entries, slug))
  {
    if entries != [] {
      var front, e := entries[..|entries| - 1], entries[|entries| - 1];
      assert entries == front + [e];
      assert e in entries && !Intrudes(e, slug);
      OthersReadBack(front, slug);
      ReadBackOneMore(front, e);
      FilterAppended(ReadBackAll(front), ReadBack(e), slug);
      FilterAppended(front, e, slug);
      ReadBackIsGood(e);
      ReadBackOneMore(OfOthers(front, slug), e);
      AppendNone(OfOthers(front, slug));
      AppendNone(ReadBackAll(OfOthers(front, slug)));
    }
  }

  lemma GoodFits(entries: seq<Entry>)
    requires AllGood(entries)
    ensures AllFit(entries)
  {
  }

  lemma SettledIsGood(slug: string, safe: seq<ProjectEntry>, existing: seq<Entry>)
    requires AllFit(existing) && AllFit(Derived(slug, safe))
    ensures AllFit(Settled(slug, safe, existing)) && AllGood(Settled(slug, safe, existing))
    ensures Settled(slug, safe, existing) == ReadBackAll(OfOthers(existing, slug)) + ReadBackAll(Derived(slug, safe))
  {
    MergeFits(slug, safe, existing);
    AllReadBack(Merged(slug, safe, existing));
    GoodFits(Settled(slug, safe, existing));
    ReadBackConcat(OfOthers(existing, slug), Derived(slug, safe));
  }

  /** What two reconciliations, first of `a` and then of `b`, are read back as, if nothing intrudes on `b`. */
  lemma SettledTwice(a: string, safeA: seq<ProjectEntry>, b: string, safeB: seq<ProjectEntry>, existing: seq<Entry>)
    requires a != b && a != "" && b != "" && AllFit(existing) && NoneIntrudes(existing, b)
    requires AllFit(Derived(a, safeA)) && AllFit(Derived(b, safeB))
    ensures Settled(b, safeB, Settled(a, safeA, existing)) ==
            ReadBackAll(OfOthers(OfOthers(existing, a), b)) + ReadBackAll(Derived(a, safeA)) + ReadBackAll(Derived(b, safeB))
  {
    var others, derived := OfOthers(existing, a), Derived(a, safeA);
    SettledIsGood(a, safeA, existing);
    SettledIsGood(b, safeB, Settled(a, safeA, existing));
    OthersFit(existing, a);
    Filtered(existing, a);
    FilterConcat(ReadBackAll(others), ReadBackAll(derived), b);
    OthersReadBack(others, b);
    DerivedStays(a, safeA);
    FilterUniform(ReadBackAll(derived), b, a);
    OthersFit(others, b);
    AllReadBack(OfOthers(others, b));
    AllReadBack(derived);
    ReadBackConcat(ReadBackAll(OfOthers(others, b)), ReadBackAll(derived));
  }

  lemma ReadBackConcat(x: seq<Entry>, y: seq<Entry>)
    ensures ReadBackAll(x + y) == ReadBackAll(x) + ReadBackAll(y)
  {
  }

  /** The view of one project over entries of two others. */
  lemma ViewOfTwo(x: seq<Entry>, y: seq<Entry>, z: seq<Entry>, a: string, b: string, p: string)
    requires a != b && (forall e :: e in y ==> e.project == a) && (forall e :: e in z ==> e.project == b)
    ensures OfProject(x + y + z, p) == OfProject(x + z + y, p)
  {
    FilterConcat(x + y, z, p);
    FilterConcat(x, y, p);
    FilterConcat(x + z, y, p);
    FilterConcat(x, z, p);
    FilterUniform(y, p, a);
    FilterUniform(z, p, b);
    AppendNone(OfProject(x, p));
    AppendNone(OfProject(x, p) + OfProject(y, p));
    AppendNone(OfProject(x, p) + OfProject(z, p));
  }

  /** The own view right after reconciling holds the derived entries alone, if all were good before. */
  lemma OwnView(slug: string, safe: seq<ProjectEntry>, before: seq<Entry>)
    requires AllFit(before) && AllGood(before) && AllFit(Derived(slug, safe)) && slug != ""
    ensures OfProject(Settled(slug, safe, before), slug) == ReadBackAll(Derived(slug, safe))
  {
    SettledIsGood(slug, safe, before);
    OthersFit(before, slug);
    var others, own := OfOthers(before, slug), ReadBackAll(Derived(slug, safe));
    GoodOthers(before, slug);
    AllReadBack(others);
    DerivedStays(slug, safe);
    OthersKeepProject(before, slug, slug);
    ViewOfOwn(others, own, slug);
  }

  lemma ViewOfOwn(others: seq<Entry>, own: seq<Entry>, slug: string)
    requires OfProject(others, slug) == [] && forall e :: e in own ==> e.project == slug
    ensures OfProject(others + own, slug) == own
  {
    FilterConcat(others, own, slug);
    FilterUniform(own, slug, slug);
    assert [] + own == own;
  }

  lemma GoodOthers(before: seq<Entry>, slug: string)
    requires AllGood(before)
    ensures AllGood(OfOthers(before, slug))
  {
    Filtered(before, slug);
    var others := OfOthers(before, slug);
    forall i | 0 <= i < |others| ensures Good(others[i]) {
      assert others[i] in others;
    }
  }

  /** An intruder on `b` stays in the view of `b` when `b` reconciles first and `a` after it. */
  lemma IntruderStays(a: string, safeA: seq<ProjectEntry>, b: string, safeB: seq<ProjectEntry>, existing: seq<Entry>, e: Entry)
    requires a != b && a != "" && b != "" && AllFit(existing) && e in existing && Intrudes(e, b)
    requires AllFit(Derived(a, safeA)) && AllFit(Derived(b, safeB))
    ensures |OfProject(Settled(a, safeA, Settled(b, safeB, existing)), b)| > |Derived(b, safeB)|
  {
    var first := Settled(b, safeB, existing);
    var others, derived := ReadBackAll(OfOthers(existing, b)), ReadBackAll(Derived(b, safeB));
    SettledIsGood(b, safeB, existing);
    SettledIsGood(a, safeA, first);
    Filtered(existing, b);
    var i :| 0 <= i < |OfOthers(existing, b)| && OfOthers(existing, b)[i] == e;
    assert others[i] == ReadBack(e) && others[i] in others;
    Filtered(others, b);
    FilterConcat(others, derived, b);
    DerivedStays(b, safeB);
    FilterUniform(derived, b, b);
    assert |OfProject(first, b)| > |derived|;
    OtherViewStays(a, safeA, first, b);
  }

  /** Reconciling `a` leaves the view of `b` as it is, if all entries are good. */
  lemma OtherViewStays(a: string, safeA: seq<ProjectEntry>, before: seq<Entry>, b: string)
    requires a != b && a != "" && AllFit(before) && AllGood(before) && AllFit(Derived(a, safeA))
    ensures OfProject(Settled(a, safeA, before), b) == OfProject(before, b)
  {
    SettledIsGood(a, safeA, before);
    OthersFit(before, a);
    var others := OfOthers(before, a);
    GoodOthers(before, a);
    AllReadBack(others);
    FilterConcat(others, ReadBackAll(Derived(a, safeA)), b);
    OthersKeepProject(before, a, b);
    DerivedStays(a, safeA);
    FilterUniform(ReadBackAll(Derived(a, safeA)), b, a);
    AppendNone(OfProject(before, b));
  }

  /** Both orders give every project the same entries. */
  ghost predicate SameViews(x: seq<Entry>, y: seq<Entry>) {
    forall p: string :: OfProject(x, p) == OfProject(y, p)
  }

  lemma SettledCommutesIff(a: string, safeA: seq<ProjectEntry>, b: string, safeB: seq<ProjectEntry>, existing: seq<Entry>)
    requires a != b && a != "" && b != "" && AllFit(existing) && AllFit(Derived(a, safeA)) && AllFit(Derived(b, safeB))
    ensures SameViews(Settled(b, safeB, Settled(a, safeA, existing)), Settled(a, safeA, Settled(b, safeB, existing)))
            <==> NoneIntrudes(existing, a) && NoneIntrudes(existing, b)
  {
    var ab, ba := Settled(b, safeB, Settled(a, safeA, existing)), Settled(a, safeA, Settled(b, safeB, existing));
    SettledIsGood(a, safeA, existing);
    SettledIsGood(b, safeB, existing);
    OwnView(b, safeB, Settled(a, safeA, existing));
    OwnView(a, safeA, Settled(b, safeB, existing));
    forall e | e in existing && Intrudes(e, b) ensures !SameViews(ab, ba) {
      IntruderStays(a, safeA, b, safeB, existing, e);
      assert OfProject(ab, b) != OfProject(ba, b);
    }
    forall e | e in existing && Intrudes(e, a) ensures !SameViews(ab, ba) {
      IntruderStays(b, safeB, a, safeA, existing, e);
      assert OfProject(ab, a) != OfProject(ba, a);
    }
    if NoneIntrudes(existing, a) && NoneIntrudes(existing, b) {
      BothOrders(a, safeA, b, safeB, existing);
    }
  }

  lemma BothOrders(a: string, safeA: seq<ProjectEntry>, b: string, safeB: seq<ProjectEntry>, existing: seq<Entry>)
    requires a != b && a != "" && b != "" && AllFit(existing) && AllFit(Derived(a, safeA)) && AllFit(Derived(b, safeB))
    requires NoneIntrudes(existing, a) && NoneIntrudes(existing, b)
    ensures SameViews(Settled(b, safeB, Settled(a, safeA, existing)), Settled(a, safeA, Settled(b, safeB, existing)))
  {
    var ab, ba := Settled(b, safeB, Settled(a, safeA, existing)), Settled(a, safeA, Settled(b, safeB, existing));
    SettledTwice(a, safeA, b, safeB, existing);
    SettledTwice(b, safeB, a, safeA, existing);
    OthersCommute(existing, a, b);
    DerivedStays(a, safeA);
    DerivedStays(b, safeB);
    var x := ReadBackAll(OfOthers(OfOthers(existing, a), b));
    forall p: string ensures OfProject(ab, p) == OfProject(ba, p) {
      ViewOfTwo(x, ReadBackAll(Derived(a, safeA)), ReadBackAll(Derived(b, safeB)), a, b, p);
    }
  }

  /**
   Two projects may reconcile in either order, with the same entries for every project, if and only
   if no existing entry intrudes on either of them.
   */
  lemma ReconcileCommutesIff(a: string, safeA: seq<ProjectEntry>, b: string, safeB: seq<ProjectEntry>, text: string)
    requires a != b && a != "" && b != "" && Parse(text, "").Some?
    requires AllFit(Derived(a, safeA)) && AllFit(Derived(b, safeB))
    ensures Reconcile(a, safeA, text).Some? && Reconcile(b, safeB, text).Some?
    ensures var ab := Reconcile(b, safeB, Reconcile(a, safeA, text).value);
            var ba := Reconcile(a, safeA, Reconcile(b, safeB, text).value);
            && ab.Some? && ba.Some? && Parse(ab.value, "").Some? && Parse(ba.value, "").Some?
            && (SameViews(Parse(ab.value, "").value, Parse(ba.value, "").value) <==>
                NoneIntrudes(Parse(text, "").value, a) && NoneIntrudes(Parse(text, "").value, b))
  {
    ReconcileReads(a, safeA, text, "");
    ReconcileReads(b, safeB, text, "");
    ReconcileReads(b, safeB, Reconcile(a, safeA, text).value, "");
    ReconcileReads(a, safeA, Reconcile(b, safeB, text).value, "");
    SettledCommutesIff(a, safeA, b, safeB, Parse(text, "").value);
  }

  // ---------------------------------------------------------------- previewing

  lemma {:induction false} SummaryConcat(x: seq<Entry>, y: seq<Entry>, project: string, id: string)
    ensures SummaryOf(x + y, project, id) ==
            if SummaryOf(y, project, id).Some? then SummaryOf(y, project, id) else SummaryOf(x, project, id)
    decreases |y|
  {
    if y == [] {
      assert x + y == x;
    } else {
      assert (x + y)[..|x + y| - 1] == x + y[..|y| - 1] && (x + y)[|x + y| - 1] == y[|y| - 1];
      SummaryConcat(x, y[..|y| - 1], project, id);
    }
  }

  lemma {:induction false} SummaryIff(entries: seq<Entry>, project: string, id: string)
    ensures SummaryOf(entries, project, id).Some? <==>
            exists i :: 0 <= i < |entries| && entries[i].project == project && entries[i].id == id
  {
    if entries != [] {
      SummaryIff(entries[..|entries| - 1], project, id);
    }
  }

  /** Nothing missing, changed or orphaned, and every accepted id up to date. */
  predicate Clean(preview: Preview, slug: string, safe: seq<ProjectEntry>) {
    preview == Preview({}, {}, {}, Ids(Derived(slug, safe), slug))
  }

  /** The derived entries themselves are found, with their own summaries. */
  lemma DerivedAreFound(slug: string, safe: seq<ProjectEntry>, kept: seq<Entry>)
    ensures var p := PreviewOf(slug, safe, kept + Derived(slug, safe));
            p.missing == {} && p.changed == {} && p.skipped == Ids(Derived(slug, safe), slug)
  {
    var derived := Derived(slug, safe);
    var merged := kept + derived;
    forall id | id in Ids(derived, slug)
      ensures SummaryOf(merged, slug, id).Some? && SummaryOf(merged, slug, id) == SummaryOf(derived, slug, id)
    {
      SummaryIff(derived, slug, id);
      SummaryConcat(kept, derived, slug, id);
    }
  }

  /** Over them, a preview is clean exactly if no other id of the project is in the way. */
  lemma PreviewOfMerged(slug: string, safe: seq<ProjectEntry>, kept: seq<Entry>)
    ensures Clean(PreviewOf(slug, safe, kept + Derived(slug, safe)), slug, safe) <==>
            Ids(kept, slug) <= Ids(Derived(slug, safe), slug)
  {
    DerivedAreFound(slug, safe, kept);
    IdsOfMerged(slug, kept, Derived(slug, safe));
    NothingLeft(Ids(kept, slug), Ids(Derived(slug, safe), slug));
  }

  lemma NothingLeft(a: set<string>, b: set<string>)
    ensures (a + b) - b == {} <==> a <= b
  {
    if (a + b) - b == {} {
      forall x | x in a ensures x in b {
        assert x !in (a + b) - b;
      }
    }
  }

  lemma IdsOfMerged(slug: string, kept: seq<Entry>, derived: seq<Entry>)
    ensures Ids(kept + derived, slug) == Ids(kept, slug) + Ids(derived, slug)
  {
    var merged := kept + derived;
    forall id | id in Ids(merged, slug) ensures id in Ids(kept, slug) + Ids(derived, slug) {
      var i :| 0 <= i < |merged| && merged[i].project == slug && merged[i].id == id;
      if i < |kept| {
        assert kept[i] == merged[i];
      } else {
        assert derived[i - |kept|] == merged[i];
      }
    }
    forall id | id in Ids(kept, slug) ensures id in Ids(merged, slug) {
      var i :| 0 <= i < |kept| && kept[i].project == slug && kept[i].id == id;
      assert merged[i] == kept[i];
    }
    forall id | id in Ids(derived, slug) ensures id in Ids(merged, slug) {
      var i :| 0 <= i < |derived| && derived[i].project == slug && derived[i].id == id;
      assert merged[|kept| + i] == derived[i];
    }
  }

  /** An accepted entry without an id stays missing. */
  lemma BlankIdStaysMissing(slug: string, safe: seq<ProjectEntry>, parsed: seq<Entry>)
    requires AllGood(parsed) && "" in Ids(Derived(slug, safe), slug)
    ensures !Clean(PreviewOf(slug, safe, parsed), slug, safe)
  {
    SummaryIff(parsed, slug, "");
    assert "" in PreviewOf(slug, safe, parsed).missing;
  }

  lemma IdsOfIntruders(existing: seq<Entry>, slug: string, ids: set<string>)
    ensures Ids(ReadBackAll(OfOthers(existing, slug)), slug) <= ids <==>
            forall e :: e in existing && Intrudes(e, slug) ==> ReadBack(e).id in ids
  {
    var others := OfOthers(existing, slug);
    var read := ReadBackAll(others);
    Filtered(existing, slug);
    forall e | e in existing && Intrudes(e, slug) ensures ReadBack(e).id in Ids(read, slug) {
      var i :| 0 <= i < |others| && others[i] == e;
      assert read[i] == ReadBack(e);
    }
    forall id | id in Ids(read, slug) ensures exists e :: e in existing && Intrudes(e, slug) && ReadBack(e).id == id {
      var i :| 0 <= i < |read| && read[i].project == slug && read[i].id == id;
      assert others[i] in existing && Intrudes(others[i], slug);
    }
  }

  /**
   Previewing right after reconciling is clean, even when entry ids repeat, if and only if every
   accepted entry has an id and nothing intrudes under an id of its own.
   */
  lemma PreviewAfterReconcileIff(slug: string, safe: seq<ProjectEntry>, text: string)
    requires Parse(text, "").Some? && AllFit(Derived(slug, safe)) && slug != "" && Fit(slug)
    ensures Reconcile(slug, safe, text).Some? && Parse(Reconcile(slug, safe, text).value, slug).Some?
    ensures Clean(PreviewOf(slug, safe, Parse(Reconcile(slug, safe, text).value, slug).value), slug, safe) <==>
            && "" !in Ids(Derived(slug, safe), slug)
            && forall e :: e in Parse(text, "").value && Intrudes(e, slug) ==> ReadBack(e).id in Ids(Derived(slug, safe), slug)
  {
    var existing, derived := Parse(text, "").value, Derived(slug, safe);
    ReconcileReads(slug, safe, text, slug);
    SettledIsGood(slug, safe, existing);
    if "" in Ids(derived, slug) {
      BlankIdStaysMissing(slug, safe, Settled(slug, safe, existing));
    } else {
      NamedAreGood(slug, safe);
      AllReadBack(derived);
      PreviewOfMerged(slug, safe, ReadBackAll(OfOthers(existing, slug)));
      IdsOfIntruders(existing, slug, Ids(derived, slug));
    }
  }

  lemma NamedAreGood(slug: string, safe: seq<ProjectEntry>)
    requires AllFit(Derived(slug, safe)) && slug != "" && "" !in Ids(Derived(slug, safe), slug)
    ensures AllGood(Derived(slug, safe))
  {
    var derived := Derived(slug, safe);
    forall i | 0 <= i < |derived| ensures Good(derived[i]) {
      assert derived[i].project == slug && derived[i].id in Ids(derived, slug);
    }
  }

  /** Some global entry of the project has the id. */
  predicate HasEntry(entries: seq<Entry>, project: string, id: string) {
    exists i :: 0 <= i < |entries| && entries[i].project == project && entries[i].id == id
  }

  predicate HasSafe(safe: seq<ProjectEntry>, id: string) {
    exists k :: 0 <= k < |safe| && safe[k].id == id
  }

  /** `i` is the last global entry of the project with the id. */
  predicate LastEntry(entries: seq<Entry>, project: string, id: string, i: nat) {
    && i < |entries| && entries[i].project == project && entries[i].id == id
    && forall j :: i < j < |entries| ==> entries[j].project != project || entries[j].id != id
  }

  predicate LastSafe(safe: seq<ProjectEntry>, id: string, k: nat) {
    k < |safe| && safe[k].id == id && forall j :: k < j < |safe| ==> safe[j].id != id
  }

  /** The summaries that count for the id, the last on each side, differ. */
  ghost predicate Outdated(slug: string, safe: seq<ProjectEntry>, entries: seq<Entry>, id: string) {
    exists i: nat, k: nat :: LastEntry(entries, slug, id, i) && LastSafe(safe, id, k) && entries[i].summary != safe[k].summary
  }

  lemma {:induction false} SummaryIsLast(entries: seq<Entry>, project: string, id: string)
    ensures SummaryOf(entries, project, id).Some? <==> HasEntry(entries, project, id)
    ensures forall i: nat :: LastEntry(entries, project, id, i) ==> SummaryOf(entries, project, id) == Some(entries[i].summary)
    ensures HasEntry(entries, project, id) ==> exists i: nat :: LastEntry(entries, project, id, i)
  {
    if entries != [] {
      var n := |entries| - 1;
      var front := entries[..n];
      SummaryIsLast(front, project, id);
      if entries[n].project == project && entries[n].id == id {
        assert LastEntry(entries, project, id, n);
      } else {
        forall i: nat | i < n ensures LastEntry(entries, project, id, i) <==> LastEntry(front, project, id, i) {
          LastInFront(entries, project, id, i);
        }
      }
    }
  }

  lemma LastInFront(entries: seq<Entry>, project: string, id: string, i: nat)
    requires entries != [] && i < |entries| - 1
    requires !(entries[|entries| - 1].project == project && entries[|entries| - 1].id == id)
    ensures LastEntry(entries, project, id, i) <==> LastEntry(entries[..|entries| - 1], project, id, i)
  {
  }

  lemma DerivedEntries(slug: string, safe: seq<ProjectEntry>, id: string)
    ensures HasEntry(Derived(slug, safe), slug, id) <==> HasSafe(safe, id)
    ensures id in Ids(Derived(slug, safe), slug) <==> HasSafe(safe, id)
    ensures forall k: nat :: LastEntry(Derived(slug, safe), slug, id, k) <==> LastSafe(safe, id, k)
  {
    var derived := Derived(slug, safe);
    assert forall k :: 0 <= k < |safe| ==> derived[k].id == safe[k].id && derived[k].project == slug;
    if HasSafe(safe, id) {
      var k :| 0 <= k < |safe| && safe[k].id == id;
      assert derived[k].id == id;
    }
    forall k: nat | LastSafe(safe, id, k) ensures LastEntry(derived, slug, id, k) {
    }
  }

  /**
   What a preview reports, id by id.  Missing: accepted, and no global entry of the project has it.
   Changed: both sides have it, and the last summaries differ.  Skipped: they are the same.
   Orphaned: only the global changelog has it.
   */
  lemma PreviewMeans(slug: string, safe: seq<ProjectEntry>, globalEntries: seq<Entry>, id: string)
    ensures var p, here, there := PreviewOf(slug, safe, globalEntries), HasSafe(safe, id), HasEntry(globalEntries, slug, id);
            && (id in p.missing <==> here && !there)
            && (id in p.changed <==> Outdated(slug, safe, globalEntries, id))
            && (id in p.skipped <==> here && there && !Outdated(slug, safe, globalEntries, id))
            && (id in p.orphaned <==> there && !here)
  {
    var derived := Derived(slug, safe);
    SummaryIsLast(globalEntries, slug, id);
    SummaryIsLast(derived, slug, id);
    DerivedEntries(slug, safe, id);
    OutdatedIff(slug, safe, globalEntries, id);
    assert id in Ids(globalEntries, slug) <==> HasEntry(globalEntries, slug, id);
  }

  lemma OutdatedIff(slug: string, safe: seq<ProjectEntry>, entries: seq<Entry>, id: string)
    ensures Outdated(slug, safe, entries, id) <==>
            && HasSafe(safe, id) && HasEntry(entries, slug, id)
            && SummaryOf(entries, slug, id) != SummaryOf(Derived(slug, safe), slug, id)
  {
    var derived := Derived(slug, safe);
    SummaryIsLast(entries, slug, id);
    SummaryIsLast(derived, slug, id);
    DerivedEntries(slug, safe, id);
    if HasSafe(safe, id) && HasEntry(entries, slug, id) {
      var i: nat :| LastEntry(entries, slug, id, i);
      var k: nat :| LastEntry(derived, slug, id, k);
      assert LastSafe(safe, id, k) && derived[k].summary == safe[k].summary;
    }
    if Outdated(slug, safe, entries, id) {
      var i: nat, k: nat :| LastEntry(entries, slug, id, i) && LastSafe(safe, id, k) && entries[i].summary != safe[k].summary;
      assert LastEntry(derived, slug, id, k) && derived[k].summary == safe[k].summary;
    }
  }

  /** The adds, updates and skips of a preview partition the safe accepted ids, whatever the global text. */
  lemma PreviewPartitions(slug: string, safe: seq<ProjectEntry>, globalEntries: seq<Entry>)
    ensures var p := PreviewOf(slug, safe, globalEntries);
            && p.missing + p.changed + p.skipped == (set i | 0 <= i < |safe| :: safe[i].id)
            && p.missing !! p.changed !! p.skipped
            && p.orphaned !! (p.missing + p.changed + p.skipped)
  {
    var p := PreviewOf(slug, safe, globalEntries);
    var derived := Derived(slug, safe);
    assert Ids(derived, slug) == set i | 0 <= i < |safe| :: safe[i].id by {
      assert forall i :: 0 <= i < |safe| ==> derived[i].id == safe[i].id && derived[i].project == slug;
    }
  }
}
