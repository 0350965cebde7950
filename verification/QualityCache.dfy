/** The bounded cache of documentation-quality reports, and the counts a report is made of. */
module QualityCache {
  import opened Common

  // ---------------------------------------------------------------- counting warnings

  /** A warning as the counting loop sees it; `future` marks one about a later project phase. */
  datatype Warning = Warning(code: string, blocking: bool, future: bool)

  datatype Counts = Counts(
    total: nat, blockers: nat, frontmatter: nat, staleIndex: nat,
    byCode: map<string, nat>, blockersByCode: map<string, nat>)

  predicate Blocks(w: Warning) {
    w.blocking && !w.future
  }

  predicate StaleIndex(w: Warning) {
    w.code in {"SCF_INDEX_STALE", "SCF_INDEX_MISSING", "SCF_DOC_UNINDEXED"}
  }

  function Tally(ws: seq<Warning>, p: Warning -> bool): (n: nat)
    ensures n <= |ws|
  {
    if ws == [] then 0 else Tally(ws[..|ws| - 1], p) + if p(ws[|ws| - 1]) then 1 else 0
  }

  function Flat(docs: seq<seq<Warning>>): seq<Warning> {
    if docs == [] then [] else Flat(docs[..|docs| - 1]) + docs[|docs| - 1]
  }

  /** How many warnings carry this code, counting all of them or only those that block. */
  function TallyCode(ws: seq<Warning>, code: string, blocking: bool): nat {
    if ws == [] then 0
    else
      var w := ws[|ws| - 1];
      TallyCode(ws[..|ws| - 1], code, blocking) + if w.code == code && (blocking ==> Blocks(w)) then 1 else 0
  }

  /** A table counts every code that is not blank and occurs. */
  ghost predicate CountsCodes(table: map<string, nat>, ws: seq<Warning>, blocking: bool) {
    && "" !in table
    && forall code: string {:trigger TallyCode(ws, code, blocking)} :: code != "" ==>
         if code in table then table[code] == TallyCode(ws, code, blocking) > 0
         else TallyCode(ws, code, blocking) == 0
  }

  function Bump(table: map<string, nat>, code: string): map<string, nat> {
    if code == "" then table else table[code := (if code in table then table[code] else 0) + 1]
  }

  lemma BumpCounts(table: map<string, nat>, ws: seq<Warning>, w: Warning, blocking: bool)
    requires CountsCodes(table, ws, blocking)
    ensures CountsCodes(if blocking ==> Blocks(w) then Bump(table, w.code) else table, ws + [w], blocking)
  {
    assert (ws + [w])[..|ws|] == ws;
    forall code: string
      ensures TallyCode(ws + [w], code, blocking) ==
              TallyCode(ws, code, blocking) + if w.code == code && (blocking ==> Blocks(w)) then 1 else 0
    {
    }
  }

  lemma TallyOneMore(ws: seq<Warning>, w: Warning, p: Warning -> bool)
    ensures Tally(ws + [w], p) == Tally(ws, p) + if p(w) then 1 else 0
  {
    assert (ws + [w])[..|ws|] == ws;
  }

  predicate Frontmatter(w: Warning) {
    w.code == "SCF_FRONTMATTER_MISMATCH"
  }

  ghost predicate Counted(c: Counts, ws: seq<Warning>) {
    && c.total == |ws|
    && c.blockers == Tally(ws, Blocks)
    && c.frontmatter == Tally(ws, Frontmatter)
    && c.staleIndex == Tally(ws, StaleIndex)
    && CountsCodes(c.byCode, ws, false)
    && CountsCodes(c.blockersByCode, ws, true)
  }

  /** What each heading takes in: later-phase warnings do not block, and three codes are about a stale index. */
  lemma HeadingsMean(w: Warning)
    ensures Blocks(w) <==> w.blocking && !w.future
    ensures Frontmatter(w) <==> w.code == "SCF_FRONTMATTER_MISMATCH"
    ensures StaleIndex(w) <==> w.code == "SCF_INDEX_STALE" || w.code == "SCF_INDEX_MISSING" || w.code == "SCF_DOC_UNINDEXED"
  {
  }

  /** One warning, counted under every heading it falls under. */
  method CountOne(c: Counts, ghost ws: seq<Warning>, w: Warning) returns (r: Counts)
    requires Counted(c, ws)
    ensures Counted(r, ws + [w])
  {
    r := c.(total := c.total + 1, byCode := Bump(c.byCode, w.code));
    if w.code == "SCF_FRONTMATTER_MISMATCH" {
      r := r.(frontmatter := r.frontmatter + 1);
    }
    if w.code in {"SCF_INDEX_STALE", "SCF_INDEX_MISSING", "SCF_DOC_UNINDEXED"} {
      r := r.(staleIndex := r.staleIndex + 1);
    }
    if w.blocking && !w.future {
      r := r.(blockers := r.blockers + 1, blockersByCode := Bump(r.blockersByCode, w.code));
    }
    BumpCounts(c.byCode, ws, w, false);
    BumpCounts(c.blockersByCode, ws, w, true);
    TallyOneMore(ws, w, Blocks);
    TallyOneMore(ws, w, StaleIndex);
    TallyOneMore(ws, w, Frontmatter);
  }

  /** The loops over the documents and their warnings. */
  method CountWarnings(docs: seq<seq<Warning>>) returns (c: Counts, blocked: bool)
    ensures Counted(c, Flat(docs))
    ensures blocked <==> c.blockers > 0
  {
    c := Counts(0, 0, 0, 0, map[], map[]);
    for i := 0 to |docs|
      invariant Counted(c, Flat(docs[..i]))
    {
      ghost var before := Flat(docs[..i]);
      assert docs[..i + 1][..i] == docs[..i];
      assert before + docs[i][..0] == before;
      for j := 0 to |docs[i]|
        invariant Counted(c, before + docs[i][..j])
      {
        assert before + docs[i][..j + 1] == before + docs[i][..j] + [docs[i][j]];
        c := CountOne(c, before + docs[i][..j], docs[i][j]);
      }
      assert docs[i][..|docs[i]|] == docs[i];
    }
    assert docs[..|docs|] == docs;
    blocked := c.blockers != 0;
  }

  // ---------------------------------------------------------------- the cache

  const MAX_SIZE := 32

  /** A mutable report; copying one deeply makes a new object with the same content. */
  class Report<V> {
    var content: V

    constructor (content: V)
      ensures this.content == content
    {
      this.content := content;
    }
  }

  datatype Pair<K, V> = Pair(key: K, value: V)

  function Lookup<K(==), V>(entries: seq<Pair<K, V>>, key: K): Option<V> {
    if entries == [] then None
    else if entries[|entries| - 1].key == key then Some(entries[|entries| - 1].value)
    else Lookup(entries[..|entries| - 1], key)
  }

  /** A miss is computed and appended; a full cache first gives up its oldest insertion. */
  function Ask<K(==), V>(entries: seq<Pair<K, V>>, key: K, computed: V): (seq<Pair<K, V>>, V) {
    var hit := Lookup(entries, key);
    if hit.Some? then (entries, hit.value)
    else ((if |entries| >= MAX_SIZE then entries[1..] else entries) + [Pair(key, computed)], computed)
  }

  class Cache<P, K(==), V> {
    const keyOf: P -> K
    const compute: P -> V
    var entries: seq<Pair<K, Report<V>>>

    constructor (keyOf: P -> K, compute: P -> V)
      ensures this.keyOf == keyOf && this.compute == compute && entries == []
    {
      this.keyOf, this.compute := keyOf, compute;
      entries := [];
    }

    function Reports(): set<Report<V>>
      reads this
    {
      set i | 0 <= i < |entries| :: entries[i].value
    }

    function Contents(): (r: seq<Pair<K, V>>)
      reads this, Reports()
      ensures |r| == |entries|
    {
      seq(|entries|, i requires 0 <= i < |entries| reads this, Reports() =>
        Pair(entries[i].key, entries[i].value.content))
    }

    method Find(key: K) returns (found: Option<Report<V>>)
      ensures found.Some? ==> found.value in Reports() && Lookup(Contents(), key) == Some(found.value.content)
      ensures found.None? ==> Lookup(Contents(), key) == None
    {
      var contents := Contents();
      var i := |entries|;
      assert contents[..i] == contents;
      while i > 0 && entries[i - 1].key != key
        invariant 0 <= i <= |entries|
        invariant Lookup(contents[..i], key) == Lookup(contents, key)
      {
        assert contents[..i][..i - 1] == contents[..i - 1];
        i := i - 1;
      }
      found := if i > 0 then Some(entries[i - 1].value) else None;
    }

    /**
     Answers from the cache if it can.  Reports are copied on the way in and on the way out, so
     the answer is an object of the caller's own: changing it cannot reach the cache.
     */
    method Collect(p: P) returns (answer: Report<V>)
      modifies this
      ensures fresh(answer) && answer !in Reports()
      ensures forall r :: r in Reports() ==> r in old(Reports()) || fresh(r)
      ensures (Contents(), answer.content) == Ask(old(Contents()), keyOf(p), compute(p))
    {
      var key := keyOf(p);
      ghost var before := Contents();
      var cached := Find(key);
      assert Contents() == before;
      if cached.Some? {
        answer := new Report(cached.value.content);
        return;
      }
      var quality := compute(p);
      if |entries| >= MAX_SIZE {
        entries := entries[1..];
      }
      ghost var kept := Contents();
      assert kept == if |before| >= MAX_SIZE then before[1..] else before;
      var stored := new Report(quality);
      assert Contents() == kept;
      entries := entries + [Pair(key, stored)];
      assert Contents() == kept + [Pair(key, quality)];
      answer := new Report(quality);
      assert Contents() == kept + [Pair(key, quality)];
    }

    /**
     Any sequence of calls and of overwrites of reports returned so far: the cache and every answer
     are those of the calls alone.  Overwriting report `k` when there is none does nothing.
     */
    method Session(steps: seq<Step<P, V>>) returns (answers: seq<V>)
      modifies this
      ensures (Contents(), answers) == Answers(old(Contents()), steps, keyOf, compute)
    {
      answers := [];
      var returned: seq<Report<V>> := [];
      for i := 0 to |steps|
        invariant (Contents(), answers) == Answers(old(Contents()), steps[..i], keyOf, compute)
        invariant forall k :: 0 <= k < |returned| ==> fresh(returned[k]) && returned[k] !in Reports()
        invariant forall r :: r in Reports() ==> r in old(Reports()) || fresh(r)
      {
        AnswerOneMore(old(Contents()), steps[..i], steps[i], keyOf, compute);
        assert steps[..i + 1] == steps[..i] + [steps[i]];
        match steps[i] {
          case Call(p) =>
            var answer := Collect(p);
            answers, returned := answers + [answer.content], returned + [answer];
          case Overwrite(k, content) =>
            if k < |returned| {
              ghost var before := Contents();
              returned[k].content := content;
              assert Contents() == before;
            }
        }
      }
      assert steps[..|steps|] == steps;
    }
  }

  // ---------------------------------------------------------------- whole sessions

  datatype Step<P, V> = Call(p: P) | Overwrite(k: nat, content: V)

  /** The cache and the answers after a session; overwrites leave no trace. */
  function Answers<P, K(==), V>(entries: seq<Pair<K, V>>, steps: seq<Step<P, V>>, keyOf: P -> K, compute: P -> V)
    : (seq<Pair<K, V>>, seq<V>)
  {
    if steps == [] then (entries, [])
    else
      var before := Answers(entries, steps[..|steps| - 1], keyOf, compute);
      match steps[|steps| - 1]
      case Overwrite(_, _) => before
      case Call(p) =>
        var step := Ask(before.0, keyOf(p), compute(p));
        (step.0, before.1 + [step.1])
  }

  lemma AnswerOneMore<P, K, V>(entries: seq<Pair<K, V>>, steps: seq<Step<P, V>>, step: Step<P, V>, keyOf: P -> K, compute: P -> V)
    ensures var before := Answers(entries, steps, keyOf, compute);
            Answers(entries, steps + [step], keyOf, compute) ==
              match step
              case Overwrite(_, _) => before
              case Call(p) =>
                var asked := Ask(before.0, keyOf(p), compute(p));
                (asked.0, before.1 + [asked.1])
  {
    assert (steps + [step])[..|steps|] == steps;
  }

  function CallsOf<P, V>(steps: seq<Step<P, V>>): seq<P> {
    if steps == [] then []
    else CallsOf(steps[..|steps| - 1]) + if steps[|steps| - 1].Call? then [steps[|steps| - 1].p] else []
  }

  /** A session from the empty cache is the run of its calls. */
  lemma {:induction false} SessionIsRun<P(!new), K(!new), V(!new)>(steps: seq<Step<P, V>>, keyOf: P -> K, compute: P -> V)
    ensures var run := AskAll(CallsOf(steps), keyOf, compute);
            Answers([], steps, keyOf, compute) == (run.entries, run.answers)
  {
    if steps != [] {
      var front, last := steps[..|steps| - 1], steps[|steps| - 1];
      SessionIsRun(front, keyOf, compute);
      if last.Call? {
        assert (CallsOf(front) + [last.p])[..|CallsOf(front)|] == CallsOf(front);
      } else {
        assert CallsOf(front) + [] == CallsOf(front);
      }
    }
  }

  /**
   Whatever callers do to the reports they are given: if equal keys mean equal results, every
   answer of every session is the uncached one.
   */
  lemma SessionIsTransparent<P(!new), K(!new), V(!new)>(steps: seq<Step<P, V>>, keyOf: P -> K, compute: P -> V)
    requires forall p, q :: keyOf(p) == keyOf(q) ==> compute(p) == compute(q)
    ensures Uncached(Answers([], steps, keyOf, compute).1, CallsOf(steps), compute)
  {
    SessionIsRun(steps, keyOf, compute);
    CacheIsTransparent(CallsOf(steps), keyOf, compute);
  }

  // ---------------------------------------------------------------- whole runs

  datatype Run<K, V> = Run(entries: seq<Pair<K, V>>, answers: seq<V>, misses: seq<Pair<K, V>>)

  /** The cache, the answers and the insertions after a sequence of calls. */
  function AskAll<P, K(==), V>(calls: seq<P>, keyOf: P -> K, compute: P -> V): Run<K, V> {
    if calls == [] then Run([], [], [])
    else
      AskOne(AskAll(calls[..|calls| - 1], keyOf, compute), calls[|calls| - 1], keyOf, compute)
  }

  lemma {:induction false} LookupFinds<K, V>(entries: seq<Pair<K, V>>, key: K)
    ensures Lookup(entries, key).Some? ==> Pair(key, Lookup(entries, key).value) in entries
    ensures Lookup(entries, key).None? ==> forall i :: 0 <= i < |entries| ==> entries[i].key != key
  {
    if entries != [] {
      LookupFinds(entries[..|entries| - 1], key);
    }
  }

  /** Every entry is the result some call would compute. */
  ghost predicate Genuine<P(!new), K(!new), V(!new)>(entries: seq<Pair<K, V>>, keyOf: P -> K, compute: P -> V) {
    forall i :: 0 <= i < |entries| ==> exists p :: keyOf(p) == entries[i].key && compute(p) == entries[i].value
  }

  ghost predicate DistinctKeys<K, V>(entries: seq<Pair<K, V>>) {
    forall i, j :: 0 <= i < j < |entries| ==> entries[i].key != entries[j].key
  }

  function Newest<K, V>(misses: seq<Pair<K, V>>): seq<Pair<K, V>> {
    misses[if |misses| > MAX_SIZE then |misses| - MAX_SIZE else 0..]
  }

  lemma AskIsTransparent<P(!new), K(!new), V(!new)>(entries: seq<Pair<K, V>>, p: P, keyOf: P -> K, compute: P -> V)
    requires forall q, r :: keyOf(q) == keyOf(r) ==> compute(q) == compute(r)
    requires Genuine(entries, keyOf, compute) && DistinctKeys(entries)
    ensures var step := Ask(entries, keyOf(p), compute(p));
            step.1 == compute(p) && Genuine(step.0, keyOf, compute) && DistinctKeys(step.0)
  {
    LookupFinds(entries, keyOf(p));
    if Lookup(entries, keyOf(p)).Some? {
      var i :| 0 <= i < |entries| && entries[i] == Pair(keyOf(p), Lookup(entries, keyOf(p)).value);
      var q :| keyOf(q) == entries[i].key && compute(q) == entries[i].value;
    }
  }

  lemma NewestMoves<K, V>(misses: seq<Pair<K, V>>, e: Pair<K, V>)
    ensures Newest(misses + [e]) ==
            (if |Newest(misses)| >= MAX_SIZE then Newest(misses)[1..] else Newest(misses)) + [e]
  {
  }

  /** The answers are those the computation gives, call by call. */
  ghost predicate Uncached<P(!new), V(!new)>(answers: seq<V>, calls: seq<P>, compute: P -> V) {
    |answers| == |calls| && forall i :: 0 <= i < |calls| ==> answers[i] == compute(calls[i])
  }

  lemma UncachedOneMore<P(!new), V(!new)>(answers: seq<V>, calls: seq<P>, p: P, compute: P -> V)
    requires Uncached(answers, calls, compute)
    ensures Uncached(answers + [compute(p)], calls + [p], compute)
  {
  }

  /** One call, as a step of the run. */
  function AskOne<P, K(==), V>(before: Run<K, V>, p: P, keyOf: P -> K, compute: P -> V): Run<K, V> {
    var step := Ask(before.entries, keyOf(p), compute(p));
    Run(step.0, before.answers + [step.1],
        before.misses + if Lookup(before.entries, keyOf(p)).Some? then [] else [Pair(keyOf(p), compute(p))])
  }

  lemma AskKeepsNewest<P, K, V>(before: Run<K, V>, p: P, keyOf: P -> K, compute: P -> V)
    requires |before.entries| <= MAX_SIZE && before.entries == Newest(before.misses)
    ensures var after := AskOne(before, p, keyOf, compute);
            |after.entries| <= MAX_SIZE && after.entries == Newest(after.misses)
  {
    NewestMoves(before.misses, Pair(keyOf(p), compute(p)));
    assert before.misses + [] == before.misses;
  }

  /**
   The cache is invisible: if equal keys mean equal results, every answer is the uncached one.
   It holds at most 32 entries, namely the newest insertions in order, under distinct keys.
   */
  lemma {:induction false} CacheIsTransparent<P(!new), K(!new), V(!new)>(calls: seq<P>, keyOf: P -> K, compute: P -> V)
    requires forall p, q :: keyOf(p) == keyOf(q) ==> compute(p) == compute(q)
    ensures var run := AskAll(calls, keyOf, compute);
            && Uncached(run.answers, calls, compute)
            && |run.entries| <= 32 && run.entries == run.misses[if |run.misses| > 32 then |run.misses| - 32 else 0..]
            && DistinctKeys(run.entries) && Genuine(run.entries, keyOf, compute)
  {
    if calls != [] {
      var front, p := calls[..|calls| - 1], calls[|calls| - 1];
      CacheIsTransparent(front, keyOf, compute);
      var before := AskAll(front, keyOf, compute);
      AskIsTransparent(before.entries, p, keyOf, compute);
      AskKeepsNewest(before, p, keyOf, compute);
      UncachedOneMore(before.answers, front, p, compute);
      SplitLast(calls);
    }
  }
}
