/**
 Seeding, adopting and refreshing packaged assets in a repository.  A digest stands for the
 bytes it was taken of; the YAML check that may append log routing defaults to an existing
 repository config is the function `append`.
 */
module DownstreamAssets {
  import opened Common

  type Bytes = string

  /** A SHA-256 text of a registry record; the empty text is the digest of nothing. */
  datatype Digest = NoDigest | Of(bytes: Bytes)

  datatype Asset = Asset(id: string, kind: string, target: string, seedVersion: string)

  const REPO_CONFIG := "repo_config"

  datatype Status = Seeded | Adopted | Customized | Refreshed | ForcedRefresh

  datatype Record = Record(assetId: string, kind: string, seedVersion: string, source: Digest, applied: Digest, status: Status)

  /** One target: its file and its registry record, where they exist. */
  datatype Cell = Cell(file: Option<Bytes>, record: Option<Record>)

  datatype Bucket = SeededCount | AdoptedCount | RefreshedCount | SkippedCount | CustomizedCount | ErrorCount

  datatype Flags = Flags(refresh: bool, force: bool)

  function RecordOf(a: Asset, source: Bytes, applied: Digest, status: Status): Record {
    Record(a.id, a.kind, a.seedVersion, Of(source), applied, status)
  }

  /** The file as the run reads it: a repository config first gets its log defaults. */
  function Current(a: Asset, append: Bytes -> Bytes, file: Bytes): Bytes {
    if a.id == REPO_CONFIG then append(file) else file
  }

  /** What one run does to one asset. */
  function Visit(c: Cell, a: Asset, source: Option<Bytes>, append: Bytes -> Bytes, flags: Flags): (Cell, Bucket) {
    if source.None? then (c, ErrorCount)
    else
      var src := source.value;
      if c.file.None? then
        (Cell(Some(src), Some(RecordOf(a, src, Of(src), Seeded))), SeededCount)
      else
        var current := Current(a, append, c.file.value);
        if c.record.None? then
          var status := if current == src then Adopted else Customized;
          (Cell(Some(current), Some(RecordOf(a, src, Of(current), status))),
           if current == src then AdoptedCount else CustomizedCount)
        else
          var applied := c.record.value.applied;
          var matches := applied == Of(current);
          if flags.force || (flags.refresh && matches && current != src) then
            (Cell(Some(src), Some(RecordOf(a, src, Of(src), if flags.force then ForcedRefresh else Refreshed))),
             RefreshedCount)
          else if flags.refresh && !matches then
            (Cell(Some(current),
                  Some(RecordOf(a, src, if applied.NoDigest? then Of(current) else applied, Customized))),
             CustomizedCount)
          else
            (Cell(Some(current), c.record), SkippedCount)
  }

  // ---------------------------------------------------------------- a whole repository

  datatype Repo = Repo(files: map<string, Bytes>, registry: map<string, Record>)
  {
    function At(target: string): Cell {
      Cell(if target in files then Some(files[target]) else None,
           if target in registry then Some(registry[target]) else None)
    }

    function Put(target: string, c: Cell): Repo {
      Repo(if c.file.Some? then files[target := c.file.value] else files - {target},
           if c.record.Some? then registry[target := c.record.value] else registry - {target})
    }
  }

  /** Putting one target leaves the others alone. */
  lemma PutAt(r: Repo, target: string, c: Cell, t: string)
    ensures r.Put(target, c).At(t) == if t == target then c else r.At(t)
  {
  }

  function SourceOf(sources: map<string, Bytes>, a: Asset): Option<Bytes> {
    if a.id in sources then Some(sources[a.id]) else None
  }

  datatype SeedResult = SeedResult(seeded: nat, adopted: nat, refreshed: nat, skipped: nat, customized: nat, errors: nat)
  {
    function Total(): nat {
      seeded + adopted + refreshed + skipped + customized + errors
    }

    function Count(b: Bucket): (r: SeedResult)
      ensures r.Total() == Total() + 1
    {
      match b
      case SeededCount => this.(seeded := seeded + 1)
      case AdoptedCount => this.(adopted := adopted + 1)
      case RefreshedCount => this.(refreshed := refreshed + 1)
      case SkippedCount => this.(skipped := skipped + 1)
      case CustomizedCount => this.(customized := customized + 1)
      case ErrorCount => this.(errors := errors + 1)
    }
  }

  /** A whole run: what it makes of the repository, and its counters. */
  function RunAll(r: Repo, assets: seq<Asset>, sources: map<string, Bytes>, append: Bytes -> Bytes, flags: Flags)
    : (Repo, SeedResult)
  {
    if assets == [] then (r, SeedResult(0, 0, 0, 0, 0, 0))
    else
      RunOne(RunAll(r, assets[..|assets| - 1], sources, append, flags), assets[|assets| - 1], sources, append, flags)
  }

  function RunOne(before: (Repo, SeedResult), a: Asset, sources: map<string, Bytes>, append: Bytes -> Bytes, flags: Flags)
    : (Repo, SeedResult)
  {
    var visit := Visit(before.0.At(a.target), a, SourceOf(sources, a), append, flags);
    (before.0.Put(a.target, visit.0), before.1.Count(visit.1))
  }

  function VisitAll(r: Repo, assets: seq<Asset>, sources: map<string, Bytes>, append: Bytes -> Bytes, flags: Flags): Repo {
    RunAll(r, assets, sources, append, flags).0
  }

  lemma RunOneMore(r: Repo, assets: seq<Asset>, i: nat, sources: map<string, Bytes>, append: Bytes -> Bytes, flags: Flags)
    requires i < |assets|
    ensures RunAll(r, assets[..i + 1], sources, append, flags) ==
            RunOne(RunAll(r, assets[..i], sources, append, flags), assets[i], sources, append, flags)
  {
    assert assets[..i + 1][..i] == assets[..i];
  }

  /** Every asset falls into exactly one bucket. */
  lemma {:induction false} CountersAddUp(r: Repo, assets: seq<Asset>, sources: map<string, Bytes>,
                                         append: Bytes -> Bytes, flags: Flags)
    ensures RunAll(r, assets, sources, append, flags).1.Total() == |assets|
  {
    if assets != [] {
      CountersAddUp(r, assets[..|assets| - 1], sources, append, flags);
    }
  }

  /** The manifest entries a run is restricted to; no ids means no restriction. */
  function Selected(manifest: seq<Asset>, ids: set<string>): seq<Asset> {
    if manifest == [] then []
    else
      var last := manifest[|manifest| - 1];
      Selected(manifest[..|manifest| - 1], ids) + if ids == {} || last.id in ids then [last] else []
  }

  class SeedRegistry {
    var files: map<string, Bytes>
    var registry: map<string, Record>
    const append: Bytes -> Bytes

    constructor (files: map<string, Bytes>, append: Bytes -> Bytes)
      ensures this.files == files && registry == map[] && this.append == append
    {
      this.files, registry, this.append := files, map[], append;
    }

    /** `ensure_downstream_seed_assets`. */
    method EnsureAssets(manifest: seq<Asset>, ids: set<string>, sources: map<string, Bytes>, flags: Flags)
      returns (result: SeedResult)
      modifies this
      ensures (Here(), result) == RunAll(old(Here()), Selected(manifest, ids), sources, append, flags)
      ensures result.Total() == |Selected(manifest, ids)|
    {
      CountersAddUp(Here(), Selected(manifest, ids), sources, append, flags);
      result := VisitAssets(Selected(manifest, ids), sources, flags);
    }

    /** The loop over the assets, with its six counters. */
    method VisitAssets(assets: seq<Asset>, sources: map<string, Bytes>, flags: Flags) returns (result: SeedResult)
      modifies this
      ensures (Here(), result) == RunAll(old(Here()), assets, sources, append, flags)
    {
      result := SeedResult(0, 0, 0, 0, 0, 0);
      for i := 0 to |assets|
        invariant (Here(), result) == RunAll(old(Here()), assets[..i], sources, append, flags)
      {
        RunOneMore(old(Here()), assets, i, sources, append, flags);
        result := VisitAsset(assets[i], sources, flags, result);
      }
      assert assets[..|assets|] == assets;
    }

    /** One round of that loop. */
    method VisitAsset(a: Asset, sources: map<string, Bytes>, flags: Flags, counted: SeedResult) returns (result: SeedResult)
      modifies this
      ensures (Here(), result) == RunOne((old(Here()), counted), a, sources, append, flags)
    {
      var bucket := VisitTarget(a, SourceOf(sources, a), flags);
      result := counted.Count(bucket);
    }

    ghost function Here(): Repo
      reads this
    {
      Repo(files, registry)
    }

    /** The body of the loop over the assets. */
    method VisitTarget(a: Asset, source: Option<Bytes>, flags: Flags) returns (bucket: Bucket)
      modifies this
      ensures var visit := Visit(old(Here()).At(a.target), a, source, append, flags);
              bucket == visit.1 && Here() == old(Here()).Put(a.target, visit.0)
    {
      assert Repo(files, registry).Put(a.target, Repo(files, registry).At(a.target)) == Repo(files, registry) by {
        assert a.target !in files ==> files - {a.target} == files;
        assert a.target !in registry ==> registry - {a.target} == registry;
      }
      if source.None? {
        return ErrorCount;
      }
      var src := source.value;
      if a.target !in files {
        files := files[a.target := src];
        registry := registry[a.target := RecordOf(a, src, Of(src), Seeded)];
        return SeededCount;
      }
      if a.id == REPO_CONFIG {
        files := files[a.target := append(files[a.target])];
      }
      var current := files[a.target];
      if a.target !in registry {
        var status := if current == src then Adopted else Customized;
        registry := registry[a.target := RecordOf(a, src, Of(current), status)];
        return if status == Adopted then AdoptedCount else CustomizedCount;
      }
      var applied := registry[a.target].applied;
      var matches := !applied.NoDigest? && Of(current) == applied;
      if flags.force || (flags.refresh && matches && current != src) {
        files := files[a.target := src];
        registry := registry[a.target := RecordOf(a, src, Of(src), if !flags.force then Refreshed else ForcedRefresh)];
        return RefreshedCount;
      }
      if flags.refresh && !matches {
        var next := if applied.NoDigest? then Of(current) else applied;
        registry := registry[a.target := RecordOf(a, src, next, Customized)];
        return CustomizedCount;
      }
      return SkippedCount;
    }
  }

  // ---------------------------------------------------------------- one run, one target

  predicate DistinctTargets(assets: seq<Asset>) {
    forall i, j :: 0 <= i < j < |assets| ==> assets[i].target != assets[j].target
  }

  /** Assets do not get in each other's way: a run treats each target as if it were alone. */
  lemma {:induction false} RunVisitsEachTargetOnce(r: Repo, assets: seq<Asset>, sources: map<string, Bytes>,
                                                   append: Bytes -> Bytes, flags: Flags, target: string)
    requires DistinctTargets(assets)
    ensures forall i :: 0 <= i < |assets| && assets[i].target == target ==>
              VisitAll(r, assets, sources, append, flags).At(target)
              == Visit(r.At(target), assets[i], SourceOf(sources, assets[i]), append, flags).0
    ensures (forall i :: 0 <= i < |assets| ==> assets[i].target != target) ==>
              VisitAll(r, assets, sources, append, flags).At(target) == r.At(target)
    decreases |assets|
  {
    if assets != [] {
      var n := |assets| - 1;
      var a, before := assets[n], VisitAll(r, assets[..n], sources, append, flags);
      RunVisitsEachTargetOnce(r, assets[..n], sources, append, flags, target);
      RunVisitsEachTargetOnce(r, assets[..n], sources, append, flags, a.target);
      PutAt(before, a.target, Visit(before.At(a.target), a, SourceOf(sources, a), append, flags).0, target);
    }
  }

  /** Once the defaults are there, looking for them again changes nothing. */
  ghost predicate AppendsOnce(append: Bytes -> Bytes) {
    forall b: Bytes :: append(append(b)) == append(b)
  }

  /**
   Without force, a recorded file is replaced exactly when the run refreshes, the file still is
   the recorded baseline, and the packaged source has moved on.
   */
  lemma ReplacedIff(c: Cell, a: Asset, source: Bytes, append: Bytes -> Bytes, refresh: bool)
    requires c.file.Some? && c.record.Some?
    ensures var current := Current(a, append, c.file.value);
            var after := Visit(c, a, Some(source), append, Flags(refresh, false)).0;
            && (after.file != Some(current) <==>
                  refresh && c.record.value.applied == Of(current) && current != source)
            && (after.file == Some(current) || after.file == Some(source))
  {
  }

  /** Force replaces every recorded file, but an unrecorded one is only adopted. */
  lemma ForceReplacesIffRecorded(c: Cell, a: Asset, source: Bytes, append: Bytes -> Bytes, refresh: bool)
    requires c.file.Some? && Current(a, append, c.file.value) != source
    ensures Visit(c, a, Some(source), append, Flags(refresh, true)).0.file == Some(source) <==> c.record.Some?
  {
  }

  // ---------------------------------------------------------------- what is counted, and recorded

  /**
   Which counter an asset falls under.  Seeded: there was no file.  Adopted: an unrecorded file
   equal to the source.  Customized: another unrecorded one, or one that a refresh finds changed.
   Refreshed: a recorded one that is replaced.  Skipped: any other recorded one.
   */
  lemma BucketMeans(c: Cell, a: Asset, source: Option<Bytes>, append: Bytes -> Bytes, flags: Flags)
    ensures var bucket := Visit(c, a, source, append, flags).1;
            if source.None? then bucket == ErrorCount
            else if c.file.None? then bucket == SeededCount
            else
              var current := if a.id == "repo_config" then append(c.file.value) else c.file.value;
              if c.record.None? then bucket == if current == source.value then AdoptedCount else CustomizedCount
              else
                var untouched := c.record.value.applied == Of(current);
                && (bucket == RefreshedCount <==> flags.force || (flags.refresh && untouched && current != source.value))
                && (bucket == CustomizedCount <==> !flags.force && flags.refresh && !untouched)
                && (bucket == SkippedCount <==> !flags.force && (flags.refresh ==> untouched && current == source.value))
  {
  }

  /** What is recorded: always of this asset; the baseline is the file as it is left, but for a customized one. */
  lemma RecordMeans(c: Cell, a: Asset, source: Bytes, append: Bytes -> Bytes, flags: Flags)
    ensures var visit := Visit(c, a, Some(source), append, flags);
            var file, record := visit.0.file, visit.0.record;
            && file.Some? && record.Some?
            && (visit.1.SkippedCount? ==> record == c.record)
            && (!visit.1.SkippedCount? ==>
                  && record.value.assetId == a.id && record.value.kind == a.kind
                  && record.value.seedVersion == a.seedVersion && record.value.source == Of(source))
            && match visit.1
               case SeededCount => file == Some(source) && record.value.applied == Of(source) && record.value.status == Seeded
               case AdoptedCount => file == Some(source) && record.value.applied == Of(source) && record.value.status == Adopted
               case RefreshedCount =>
                 && file == Some(source) && record.value.applied == Of(source)
                 && record.value.status == if flags.force then ForcedRefresh else Refreshed
               case CustomizedCount =>
                 && record.value.status == Customized
                 && record.value.applied ==
                    if c.record.None? || c.record.value.applied.NoDigest? then Of(file.value) else c.record.value.applied
               case _ => true
  {
  }

  /** What each asset falls under, when no two share a target. */
  function Buckets(r: Repo, assets: seq<Asset>, sources: map<string, Bytes>, append: Bytes -> Bytes, flags: Flags): seq<Bucket> {
    if assets == [] then []
    else
      var a := assets[|assets| - 1];
      Buckets(r, assets[..|assets| - 1], sources, append, flags)
      + [Visit(r.At(a.target), a, SourceOf(sources, a), append, flags).1]
  }

  /** Each counter is the number of assets that fall under it. */
  lemma {:induction false} CountersAre(r: Repo, assets: seq<Asset>, sources: map<string, Bytes>, append: Bytes -> Bytes, flags: Flags)
    requires DistinctTargets(assets)
    ensures CountsOf(RunAll(r, assets, sources, append, flags).1, Buckets(r, assets, sources, append, flags))
  {
    if assets != [] {
      var front, a := assets[..|assets| - 1], assets[|assets| - 1];
      CountersAre(r, front, sources, append, flags);
      RunVisitsEachTargetOnce(r, front, sources, append, flags, a.target);
      CountOneMore(RunAll(r, front, sources, append, flags).1, Buckets(r, front, sources, append, flags),
                   Visit(r.At(a.target), a, SourceOf(sources, a), append, flags).1);
    }
  }

  predicate CountsOf(result: SeedResult, buckets: seq<Bucket>) {
    var m := multiset(buckets);
    && result.seeded == m[SeededCount] && result.adopted == m[AdoptedCount] && result.refreshed == m[RefreshedCount]
    && result.skipped == m[SkippedCount] && result.customized == m[CustomizedCount] && result.errors == m[ErrorCount]
  }

  lemma CountOneMore(result: SeedResult, buckets: seq<Bucket>, b: Bucket)
    requires CountsOf(result, buckets)
    ensures CountsOf(result.Count(b), buckets + [b])
  {
  }

  /** A run takes the assets of the manifest with the ids asked for, or all of them if none are named. */
  lemma {:induction false} SelectedAre(manifest: seq<Asset>, ids: set<string>)
    ensures Selected(manifest, {}) == manifest
    ensures forall a :: a in Selected(manifest, ids) <==> a in manifest && (ids == {} || a.id in ids)
  {
    if manifest != [] {
      SelectedAre(manifest[..|manifest| - 1], ids);
      SplitLast(manifest);
    }
  }

  /** They are in the order of the manifest. */
  lemma {:induction false} SelectedInOrder(manifest: seq<Asset>, more: seq<Asset>, ids: set<string>)
    ensures Selected(manifest + more, ids) == Selected(manifest, ids) + Selected(more, ids)
    decreases |more|
  {
    if more == [] {
      AppendNone(manifest);
      AppendNone(Selected(manifest, ids));
    } else {
      SelectedInOrder(manifest, more[..|more| - 1], ids);
      SelectedWithLast(manifest, more[..|more| - 1], more[|more| - 1], ids);
      SplitLast(more);
    }
  }

  lemma SelectedWithLast(manifest: seq<Asset>, front: seq<Asset>, last: Asset, ids: set<string>)
    requires Selected(manifest + front, ids) == Selected(manifest, ids) + Selected(front, ids)
    ensures Selected(manifest + (front + [last]), ids) == Selected(manifest, ids) + Selected(front + [last], ids)
  {
    SelectLast(manifest + front, last, ids);
    SelectLast(front, last, ids);
    AppendToSum(manifest, front, last);
    AppendToSum(Selected(manifest, ids), Selected(front, ids), last);
  }

  lemma SelectLast(front: seq<Asset>, last: Asset, ids: set<string>)
    ensures Selected(front + [last], ids) == if ids == {} || last.id in ids then Selected(front, ids) + [last] else Selected(front, ids)
  {
    assert (front + [last])[..|front|] == front;
  }

  // ---------------------------------------------------------------- many runs

  datatype Event =
    | Edit(target: string, bytes: Bytes)
    | Run(assets: seq<Asset>, sources: map<string, Bytes>, refresh: bool)

  predicate Lawful(e: Event, target: string) {
    match e
    case Edit(t, _) => t != target
    case Run(assets, _, _) => DistinctTargets(assets)
  }

  function Happen(r: Repo, e: Event, append: Bytes -> Bytes): Repo {
    match e
    case Edit(t, bytes) => Repo(r.files[t := bytes], r.registry)
    case Run(assets, sources, refresh) => VisitAll(r, assets, sources, append, Flags(refresh, false))
  }

  function HappenAll(r: Repo, events: seq<Event>, append: Bytes -> Bytes): Repo
    decreases |events|
  {
    if events == [] then r else HappenAll(Happen(r, events[0], append), events[1..], append)
  }

  /** The user's text is in place, up to the appended defaults, and is not the recorded baseline. */
  ghost predicate Kept(c: Cell, mine: Bytes, baseline: Bytes, append: Bytes -> Bytes) {
    && (c.file == Some(mine) || c.file == Some(append(mine)))
    && c.record.Some? && c.record.value.applied == Of(baseline)
    && baseline != mine && baseline != append(mine)
  }

  lemma VisitKeeps(c: Cell, a: Asset, source: Option<Bytes>, append: Bytes -> Bytes, refresh: bool, mine: Bytes, baseline: Bytes)
    requires AppendsOnce(append) && Kept(c, mine, baseline, append)
    ensures Kept(Visit(c, a, source, append, Flags(refresh, false)).0, mine, baseline, append)
  {
    assert append(append(mine)) == append(mine);
  }

  lemma EventKeeps(r: Repo, e: Event, append: Bytes -> Bytes, target: string, mine: Bytes, baseline: Bytes)
    requires AppendsOnce(append) && Lawful(e, target) && Kept(r.At(target), mine, baseline, append)
    ensures Kept(Happen(r, e, append).At(target), mine, baseline, append)
  {
    match e
    case Edit(t, bytes) =>
    case Run(assets, sources, refresh) =>
      RunVisitsEachTargetOnce(r, assets, sources, append, Flags(refresh, false), target);
      if i :| 0 <= i < |assets| && assets[i].target == target {
        VisitKeeps(r.At(target), assets[i], SourceOf(sources, assets[i]), append, refresh, mine, baseline);
      }
  }

  /**
   An edit of a recorded asset survives every later run without force, whatever else is edited
   and however the packaged sources change; the recorded baseline stays what it was.
   */
  lemma {:induction false} EditsSurvive(r: Repo, events: seq<Event>, append: Bytes -> Bytes,
                                        target: string, mine: Bytes, baseline: Bytes)
    requires AppendsOnce(append) && forall i :: 0 <= i < |events| ==> Lawful(events[i], target)
    requires Kept(r.At(target), mine, baseline, append)
    ensures Kept(HappenAll(r, events, append).At(target), mine, baseline, append)
    decreases |events|
  {
    if events != [] {
      EventKeeps(r, events[0], append, target, mine, baseline);
      EditsSurvive(Happen(r, events[0], append), events[1..], append, target, mine, baseline);
    }
  }

  /**
   A file that differed before it was ever recorded is not protected: the first run records the
   user's text as the baseline, and the first refresh then replaces it, without force.
   */
  lemma EarlyEditIsOverwritten(r: Repo, a: Asset, source: Bytes, append: Bytes -> Bytes)
    requires a.target in r.files && a.target !in r.registry && a.id != REPO_CONFIG && r.files[a.target] != source
    ensures var seen := Happen(r, Run([a], map[a.id := source], false), append);
            && seen.At(a.target).file == Some(r.files[a.target])
            && seen.At(a.target).record.value.status == Customized
            && Happen(seen, Run([a], map[a.id := source], true), append).At(a.target).file == Some(source)
  {
    var first, second := Run([a], map[a.id := source], false), Run([a], map[a.id := source], true);
    var seen := Happen(r, first, append);
    RunVisitsEachTargetOnce(r, [a], map[a.id := source], append, Flags(false, false), a.target);
    RunVisitsEachTargetOnce(seen, [a], map[a.id := source], append, Flags(true, false), a.target);
    assert [a][0] == a;
  }

  /**
   A differing recorded file is gone after two refreshes exactly if its recorded digest is that of
   its bytes, or is blank: a blank one is filled in by the first refresh and matches at the second.
   */
  lemma TwoRefreshesReplaceIff(c: Cell, a: Asset, source: Bytes, append: Bytes -> Bytes)
    requires c.file.Some? && c.record.Some? && a.id != REPO_CONFIG && c.file.value != source
    ensures Visits(c, 2, a, Some(source), append, Flags(true, false)).file == Some(source) <==>
              c.record.value.applied.NoDigest? || c.record.value.applied == Of(c.file.value)
  {
    var once := Visits(c, 1, a, Some(source), append, Flags(true, false));
    assert once == Visit(c, a, Some(source), append, Flags(true, false)).0 by {
      assert Visits(c, 0, a, Some(source), append, Flags(true, false)) == c;
    }
    assert once.file.Some? && once.record.Some?;
  }

  // ---------------------------------------------------------------- settling down

  /** A packaged repository config that itself lacks the log defaults. */
  predicate Lacking(a: Asset, source: Option<Bytes>, append: Bytes -> Bytes) {
    a.id == REPO_CONFIG && source.Some? && append(source.value) != source.value
  }

  function Visits(c: Cell, n: nat, a: Asset, source: Option<Bytes>, append: Bytes -> Bytes, flags: Flags): Cell {
    if n == 0 then c else Visit(Visits(c, n - 1, a, source, append, flags), a, source, append, flags).0
  }

  /** A file, and a record that a refresh can compare it with. */
  predicate Comparable(c: Cell, refresh: bool) {
    c.file.Some? && c.record.Some? && (refresh ==> !c.record.value.applied.NoDigest?)
  }

  /** No refresh is due, though log defaults may still have to be appended. */
  predicate UpToDate(c: Cell, a: Asset, source: Bytes, append: Bytes -> Bytes, refresh: bool) {
    && Comparable(c, refresh)
    && var current := Current(a, append, c.file.value);
       !(refresh && c.record.value.applied == Of(current) && current != source)
  }

  lemma FirstVisitCompares(c: Cell, a: Asset, source: Bytes, append: Bytes -> Bytes, flags: Flags)
    ensures Comparable(Visit(c, a, Some(source), append, flags).0, flags.refresh)
  {
  }

  lemma SecondVisitUpdates(c: Cell, a: Asset, source: Bytes, append: Bytes -> Bytes, refresh: bool)
    requires Comparable(c, refresh) && append(append(c.file.value)) == append(c.file.value)
    ensures var next := Visit(c, a, Some(source), append, Flags(refresh, false)).0;
            && UpToDate(next, a, source, append, refresh)
            && (next.file.value == source || Current(a, append, next.file.value) == next.file.value)
  {
  }

  lemma LaterVisitsAppend(c: Cell, a: Asset, source: Bytes, append: Bytes -> Bytes, refresh: bool)
    requires UpToDate(c, a, source, append, refresh) && append(append(c.file.value)) == append(c.file.value)
    ensures var next := Visit(c, a, Some(source), append, Flags(refresh, false)).0;
            UpToDate(next, a, source, append, refresh) && next.file == Some(Current(a, append, c.file.value))
  {
  }

  lemma ForcedVisit(c: Cell, a: Asset, source: Bytes, append: Bytes -> Bytes, refresh: bool)
    requires Comparable(c, refresh)
    ensures var next := Visit(c, a, Some(source), append, Flags(refresh, true)).0;
            Comparable(next, refresh) && next.file == Some(source)
  {
  }

  /**
   A third visit changes the file exactly if the second left it equal to a packaged config that
   lacks the log defaults, which are then appended; a fourth visit never does.
   */
  lemma VisitSettlesIff(c: Cell, a: Asset, source: Option<Bytes>, append: Bytes -> Bytes, flags: Flags)
    requires AppendsOnce(append)
    ensures var twice := Visits(c, 2, a, source, append, flags);
            var thrice := Visits(c, 3, a, source, append, flags);
            && (thrice.file != twice.file <==>
                  !flags.force && Lacking(a, source, append) && twice.file == source)
            && Visits(c, 4, a, source, append, flags).file == thrice.file
  {
    var once := Visits(c, 1, a, source, append, flags);
    assert Visits(c, 0, a, source, append, flags) == c;
    if source.Some? {
      FirstVisitCompares(c, a, source.value, append, flags);
      if flags.force {
        ForcedVisitsSettle(once, a, source.value, append, flags.refresh);
      } else {
        LaterVisitsSettle(once, a, source.value, append, flags.refresh);
      }
    }
  }

  lemma ForcedVisitsSettle(once: Cell, a: Asset, source: Bytes, append: Bytes -> Bytes, refresh: bool)
    requires Comparable(once, refresh)
    ensures var flags := Flags(refresh, true);
            var twice := Visit(once, a, Some(source), append, flags).0;
            var thrice := Visit(twice, a, Some(source), append, flags).0;
            twice.file == thrice.file == Visit(thrice, a, Some(source), append, flags).0.file
  {
    var twice := Visit(once, a, Some(source), append, Flags(refresh, true)).0;
    ForcedVisit(once, a, source, append, refresh);
    ForcedVisit(twice, a, source, append, refresh);
    ForcedVisit(Visit(twice, a, Some(source), append, Flags(refresh, true)).0, a, source, append, refresh);
  }

  lemma LaterVisitsSettle(once: Cell, a: Asset, source: Bytes, append: Bytes -> Bytes, refresh: bool)
    requires AppendsOnce(append) && Comparable(once, refresh)
    ensures var flags := Flags(refresh, false);
            var twice := Visit(once, a, Some(source), append, flags).0;
            var thrice := Visit(twice, a, Some(source), append, flags).0;
            && (thrice.file != twice.file <==> Lacking(a, Some(source), append) && twice.file == Some(source))
            && Visit(thrice, a, Some(source), append, flags).0.file == thrice.file
  {
    var flags := Flags(refresh, false);
    assert append(append(once.file.value)) == append(once.file.value);
    SecondVisitUpdates(once, a, source, append, refresh);
    var twice := Visit(once, a, Some(source), append, flags).0;
    assert append(append(twice.file.value)) == append(twice.file.value);
    LaterVisitsAppend(twice, a, source, append, refresh);
    var thrice := Visit(twice, a, Some(source), append, flags).0;
    assert append(append(thrice.file.value)) == append(thrice.file.value);
    LaterVisitsAppend(thrice, a, source, append, refresh);
  }

  function Runs(r: Repo, n: nat, assets: seq<Asset>, sources: map<string, Bytes>, append: Bytes -> Bytes, flags: Flags): Repo {
    if n == 0 then r else VisitAll(Runs(r, n - 1, assets, sources, append, flags), assets, sources, append, flags)
  }

  lemma {:induction false} RunsVisit(r: Repo, n: nat, assets: seq<Asset>, sources: map<string, Bytes>,
                                     append: Bytes -> Bytes, flags: Flags, target: string)
    requires DistinctTargets(assets)
    ensures forall i :: 0 <= i < |assets| && assets[i].target == target ==>
              Runs(r, n, assets, sources, append, flags).At(target)
              == Visits(r.At(target), n, assets[i], SourceOf(sources, assets[i]), append, flags)
    ensures (forall i :: 0 <= i < |assets| ==> assets[i].target != target) ==>
              Runs(r, n, assets, sources, append, flags).At(target) == r.At(target)
  {
    if n > 0 {
      RunsVisit(r, n - 1, assets, sources, append, flags, target);
      var before := Runs(r, n - 1, assets, sources, append, flags);
      RunVisitsEachTargetOnce(before, assets, sources, append, flags, target);
    }
  }

  /**
   With the same sources and nobody editing, no file changes after the third run, and none
   after the second if no packaged config lacks the log defaults.
   */
  lemma RunsSettle(r: Repo, assets: seq<Asset>, sources: map<string, Bytes>, append: Bytes -> Bytes, flags: Flags)
    requires AppendsOnce(append) && DistinctTargets(assets)
    ensures Runs(r, 4, assets, sources, append, flags).files == Runs(r, 3, assets, sources, append, flags).files
    ensures (forall i :: 0 <= i < |assets| ==> !Lacking(assets[i], SourceOf(sources, assets[i]), append)) ==>
              Runs(r, 3, assets, sources, append, flags).files == Runs(r, 2, assets, sources, append, flags).files
  {
    var twice, thrice := Runs(r, 2, assets, sources, append, flags), Runs(r, 3, assets, sources, append, flags);
    var last := Runs(r, 4, assets, sources, append, flags);
    var complete := forall i :: 0 <= i < |assets| ==> !Lacking(assets[i], SourceOf(sources, assets[i]), append);
    forall target: string
      ensures last.At(target).file == thrice.At(target).file
      ensures complete ==> thrice.At(target).file == twice.At(target).file
    {
      RunsVisit(r, 2, assets, sources, append, flags, target);
      RunsVisit(r, 3, assets, sources, append, flags, target);
      RunsVisit(r, 4, assets, sources, append, flags, target);
      if i :| 0 <= i < |assets| && assets[i].target == target {
        VisitSettlesIff(r.At(target), assets[i], SourceOf(sources, assets[i]), append, flags);
      }
    }
    SameFiles(last, thrice);
    if complete {
      SameFiles(thrice, twice);
    }
  }

  lemma SameFiles(a: Repo, b: Repo)
    requires forall target: string :: a.At(target).file == b.At(target).file
    ensures a.files == b.files
  {
    forall target: string ensures target in a.files <==> target in b.files {
      assert a.At(target).file == b.At(target).file;
    }
    forall target | target in a.files ensures a.files[target] == b.files[target] {
      assert a.At(target).file == b.At(target).file;
    }
  }
}
