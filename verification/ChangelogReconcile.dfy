/** Admitting project entries to the global changelog, previewing that, and doing it. */
module ChangelogReconcile {
  import opened Common
  import opened PythonText
  import opened ChangelogText
  import opened ChangelogRoundTrip

  // ---------------------------------------------------------------- provenance

  /** A parsed project entry, as far as reconciliation looks at it. */
  datatype ProjectEntry = ProjectEntry(
    id: string, status: string, title: string, summary: string, observed: Option<Observed>)
  datatype Observed = Observed(source: string, value: string)

  datatype Reason = MissingContext | MissingSource | UnsafeSource(source: string) | MissingValue
  datatype Blocked = Blocked(id: string, reason: Reason)

  /** `lower`, for the letters A to Z; no other letter occurs in the words compared. */
  function Lower(s: string): string {
    seq(|s|, i requires 0 <= i < |s| => if 'A' <= s[i] <= 'Z' then s[i] + 32 as char else s[i])
  }

  lemma LowerMeans(s: string, i: nat)
    requires i < |s|
    ensures |Lower(s)| == |s|
    ensures if 'A' <= s[i] <= 'Z' then 'a' <= Lower(s)[i] <= 'z' && Lower(s)[i] as int - 'a' as int == s[i] as int - 'A' as int
            else Lower(s)[i] == s[i]
  {
  }

  /** Why an accepted entry may not be published, if anything keeps it from being. */
  function Objection(e: ProjectEntry): Option<Reason> {
    if e.observed.None? then Some(MissingContext)
    else
      var source, value := Lower(Strip(e.observed.value.source)), Strip(e.observed.value.value);
      if source == "" then Some(MissingSource)
      else if source !in {"pyproject", "git_tag", "release_manifest"} then Some(UnsafeSource(source))
      else if value == "" || Lower(value) == "unknown" then Some(MissingValue)
      else None
  }

  /** Which provenance is safe: a value that is known, from one of the three trusted sources. */
  lemma ObjectionMeans(e: ProjectEntry)
    ensures match Objection(e)
            case Some(MissingContext) => e.observed.None?
            case Some(MissingSource) => e.observed.Some? && Strip(e.observed.value.source) == ""
            case Some(UnsafeSource(source)) =>
              && e.observed.Some? && source == Lower(Strip(e.observed.value.source)) != ""
              && source != "pyproject" && source != "git_tag" && source != "release_manifest"
            case Some(MissingValue) =>
              e.observed.Some? && (Strip(e.observed.value.value) == "" || Lower(Strip(e.observed.value.value)) == "unknown")
            case None =>
              && e.observed.Some?
              && (var source := Lower(Strip(e.observed.value.source));
                  source == "pyproject" || source == "git_tag" || source == "release_manifest")
              && Strip(e.observed.value.value) != "" && Lower(Strip(e.observed.value.value)) != "unknown"
  {
  }

  /** Accepted, and nothing against it. */
  predicate Safe(e: ProjectEntry) {
    e.status == "accepted" && Objection(e).None?
  }

  function SafeEntries(entries: seq<ProjectEntry>): seq<ProjectEntry> {
    if entries == [] then []
    else
      var last := entries[|entries| - 1];
      SafeEntries(entries[..|entries| - 1]) + if Safe(last) then [last] else []
  }

  /** The order of `sorted` on texts: first difference, or the shorter one. */
  predicate AtMost(a: string, b: string) {
    a == "" || (b != "" && (a[0] < b[0] || (a[0] == b[0] && AtMost(a[1..], b[1..]))))
  }

  lemma {:induction false} AtMostIsTotal(a: string, b: string)
    ensures AtMost(a, b) || AtMost(b, a)
  {
    if a != "" && b != "" && a[0] == b[0] {
      AtMostIsTotal(a[1..], b[1..]);
    }
  }

  lemma {:induction false} AtMostIsTransitive(a: string, b: string, c: string)
    requires AtMost(a, b) && AtMost(b, c)
    ensures AtMost(a, c)
  {
    if a != "" && b != "" && c != "" && a[0] == b[0] == c[0] {
      AtMostIsTransitive(a[1..], b[1..], c[1..]);
    }
  }

  ghost predicate SortedById(blocked: seq<Blocked>) {
    forall i, j :: 0 <= i < j < |blocked| ==> AtMost(blocked[i].id, blocked[j].id)
  }

  /** Puts `b` in front of the first entry with a greater id, so equal ids keep their order. */
  function Insert(blocked: seq<Blocked>, b: Blocked): seq<Blocked> {
    if blocked == [] then [b]
    else if AtMost(blocked[|blocked| - 1].id, b.id) then blocked + [b]
    else Insert(blocked[..|blocked| - 1], b) + [blocked[|blocked| - 1]]
  }

  function SortById(blocked: seq<Blocked>): seq<Blocked> {
    if blocked == [] then [] else Insert(SortById(blocked[..|blocked| - 1]), blocked[|blocked| - 1])
  }

  lemma StaysBelow(blocked: seq<Blocked>, b: Blocked, r: seq<Blocked>, top: string)
    requires multiset(r) == multiset(blocked) + multiset{b}
    requires AtMost(b.id, top) && forall k :: 0 <= k < |blocked| ==> AtMost(blocked[k].id, top)
    ensures forall k :: 0 <= k < |r| ==> AtMost(r[k].id, top)
  {
    forall k | 0 <= k < |r| ensures AtMost(r[k].id, top) {
      assert r[k] in multiset(r);
      assert r[k] == b || r[k] in blocked;
    }
  }

  lemma AllAtMost(blocked: seq<Blocked>, id: string, top: string)
    requires AtMost(id, top) && forall k :: 0 <= k < |blocked| ==> blocked[k].id == id || AtMost(blocked[k].id, id)
    ensures forall k :: 0 <= k < |blocked| ==> AtMost(blocked[k].id, top)
  {
    forall k | 0 <= k < |blocked| ensures AtMost(blocked[k].id, top) {
      if blocked[k].id != id {
        AtMostIsTransitive(blocked[k].id, id, top);
      }
    }
  }

  lemma SortedThen(r: seq<Blocked>, last: Blocked)
    requires SortedById(r) && forall k :: 0 <= k < |r| ==> AtMost(r[k].id, last.id)
    ensures SortedById(r + [last]) && multiset(r + [last]) == multiset(r) + multiset{last}
  {
  }

  lemma {:induction false} InsertIsSorted(blocked: seq<Blocked>, b: Blocked)
    requires SortedById(blocked)
    ensures SortedById(Insert(blocked, b)) && multiset(Insert(blocked, b)) == multiset(blocked) + multiset{b}
  {
    if blocked != [] {
      var n := |blocked| - 1;
      var front, last := blocked[..n], blocked[n];
      if AtMost(last.id, b.id) {
        AllAtMost(blocked, last.id, b.id);
        SortedThen(blocked, b);
      } else {
        AtMostIsTotal(last.id, b.id);
        InsertIsSorted(front, b);
        StaysBelow(front, b, Insert(front, b), last.id);
        SortedThen(Insert(front, b), last);
        CountLast(blocked, front, last);
      }
    }
  }

  lemma {:induction false} SortIsSorted(blocked: seq<Blocked>)
    ensures SortedById(SortById(blocked)) && multiset(SortById(blocked)) == multiset(blocked)
  {
    if blocked != [] {
      var front, last := blocked[..|blocked| - 1], blocked[|blocked| - 1];
      SortIsSorted(front);
      InsertIsSorted(SortById(front), last);
      CountLast(blocked, front, last);
    }
  }

  lemma CountLast(blocked: seq<Blocked>, front: seq<Blocked>, last: Blocked)
    requires blocked != [] && front == blocked[..|blocked| - 1] && last == blocked[|blocked| - 1]
    ensures multiset(blocked) == multiset(front) + multiset{last}
  {
    assert blocked == front + [last];
  }

  /** The blocked entries of the accepted ones, in the order they are met. */
  function BlockedEntries(entries: seq<ProjectEntry>): seq<Blocked> {
    if entries == [] then []
    else
      var last := entries[|entries| - 1];
      BlockedEntries(entries[..|entries| - 1])
      + if last.status == "accepted" && Objection(last).Some? then [Blocked(last.id, Objection(last).value)] else []
  }

  function Accepted(entries: seq<ProjectEntry>): seq<ProjectEntry> {
    if entries == [] then []
    else
      var last := entries[|entries| - 1];
      Accepted(entries[..|entries| - 1]) + if last.status == "accepted" then [last] else []
  }

  /** The safe entries are those with status accepted and nothing against them. */
  lemma {:induction false} SafeEntriesAre(entries: seq<ProjectEntry>)
    ensures forall e :: e in SafeEntries(entries) <==> e in entries && Safe(e)
  {
    if entries != [] {
      SafeEntriesAre(entries[..|entries| - 1]);
      SplitLast(entries);
    }
  }

  /** They are in the order of the text. */
  lemma {:induction false} SafeEntriesInOrder(entries: seq<ProjectEntry>, more: seq<ProjectEntry>)
    ensures SafeEntries(entries + more) == SafeEntries(entries) + SafeEntries(more)
    decreases |more|
  {
    if more == [] {
      AppendNone(entries);
      AppendNone(SafeEntries(entries));
    } else {
      SafeEntriesInOrder(entries, more[..|more| - 1]);
      SafeWithLast(entries, more[..|more| - 1], more[|more| - 1]);
      SplitLast(more);
    }
  }

  lemma SafeWithLast(entries: seq<ProjectEntry>, front: seq<ProjectEntry>, last: ProjectEntry)
    requires SafeEntries(entries + front) == SafeEntries(entries) + SafeEntries(front)
    ensures SafeEntries(entries + (front + [last])) == SafeEntries(entries) + SafeEntries(front + [last])
  {
    SafeOneMore(entries + front, last);
    SafeOneMore(front, last);
    AppendToSum(entries, front, last);
    AppendToSum(SafeEntries(entries), SafeEntries(front), last);
  }

  lemma SafeOneMore(front: seq<ProjectEntry>, last: ProjectEntry)
    ensures SafeEntries(front + [last]) == if Safe(last) then SafeEntries(front) + [last] else SafeEntries(front)
  {
    assert (front + [last])[..|front|] == front;
  }

  /** Splits the accepted entries: the safe ones in order, the others sorted by id, none lost. */
  method SplitAccepted(entries: seq<ProjectEntry>) returns (safe: seq<ProjectEntry>, blocked: seq<Blocked>)
    ensures safe == SafeEntries(entries)
    ensures SortedById(blocked) && multiset(blocked) == multiset(BlockedEntries(entries))
    ensures |safe| + |blocked| == |Accepted(entries)|
  {
    var found: seq<Blocked> := [];
    safe := [];
    for i := 0 to |entries|
      invariant safe == SafeEntries(entries[..i])
      invariant found == BlockedEntries(entries[..i])
      invariant |safe| + |found| == |Accepted(entries[..i])|
    {
      var e := entries[i];
      assert entries[..i + 1][..i] == entries[..i];
      if e.status == "accepted" {
        var objection := Objection(e);
        if objection.Some? {
          found := found + [Blocked(e.id, objection.value)];
        } else {
          safe := safe + [e];
        }
      }
    }
    assert entries[..|entries|] == entries;
    blocked := SortById(found);
    SortIsSorted(found);
    assert |blocked| == |multiset(blocked)| == |multiset(found)| == |found|;
  }

  // ---------------------------------------------------------------- reconciling

  function OfProject(entries: seq<Entry>, project: string): seq<Entry> {
    if entries == [] then []
    else
      var last := entries[|entries| - 1];
      OfProject(entries[..|entries| - 1], project) + if last.project == project then [last] else []
  }

  function OfOthers(entries: seq<Entry>, project: string): seq<Entry> {
    if entries == [] then []
    else
      var last := entries[|entries| - 1];
      OfOthers(entries[..|entries| - 1], project) + if last.project != project then [last] else []
  }

  function Derived(slug: string, safe: seq<ProjectEntry>): seq<Entry> {
    seq(|safe|, i requires 0 <= i < |safe| => Entry(safe[i].title, slug, safe[i].id, safe[i].summary))
  }

  function Merged(slug: string, safe: seq<ProjectEntry>, existing: seq<Entry>): seq<Entry> {
    OfOthers(existing, slug) + Derived(slug, safe)
  }

  /** The new text, unless the existing one cannot be parsed. */
  function Reconcile(slug: string, safe: seq<ProjectEntry>, existingText: string): Option<string> {
    match Parse(existingText, "")
    case None => None
    case Some(existing) => Some(Render(Merged(slug, safe, existing)))
  }

  // ---------------------------------------------------------------- previewing

  /** The dictionary of entries by id: a later entry replaces an earlier one. */
  function SummaryOf(entries: seq<Entry>, project: string, id: string): Option<string> {
    if entries == [] then None
    else
      var last := entries[|entries| - 1];
      if last.project == project && last.id == id then Some(last.summary)
      else SummaryOf(entries[..|entries| - 1], project, id)
  }

  datatype Preview = Preview(missing: set<string>, changed: set<string>, orphaned: set<string>, skipped: set<string>)

  function Ids(entries: seq<Entry>, project: string): set<string> {
    set i | 0 <= i < |entries| && entries[i].project == project :: entries[i].id
  }

  function PreviewOf(slug: string, safe: seq<ProjectEntry>, globalEntries: seq<Entry>): Preview {
    var accepted := Derived(slug, safe);
    var ids := Ids(accepted, slug);
    var changed := set id | id in ids && SummaryOf(globalEntries, slug, id).Some?
                                      && SummaryOf(globalEntries, slug, id) != SummaryOf(accepted, slug, id);
    Preview(
      (set id | id in ids && SummaryOf(globalEntries, slug, id).None?),
      changed,
      Ids(globalEntries, slug) - ids,
      (set id | id in ids && SummaryOf(globalEntries, slug, id).Some? && id !in changed))
  }
}
