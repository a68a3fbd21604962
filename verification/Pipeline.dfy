/** Runs of the pipeline: any sequence of commands, some cut short, on one dataset. */
module Pipeline {
  import opened Text
  import opened Ticks
  import opened Calendar
  import opened Chunks
  import opened ServerTime
  import opened Normalize
  import opened Dataset
  import opened Stages
  import C = Convert
  import V = Validate
  import W = WallClock

  /**
   The plans of one range; a unit whose plan would run past the last date has none. The range is
   part of the dataset's identity; the unit is not, so every command chooses between the two plans.
   */
  datatype Plans = Plans(day: seq<Chunk>, month: seq<Chunk>)

  function PlanOf(plans: Plans, unit: Unit): seq<Chunk> {
    match unit
    case Day => plans.day
    case Month => plans.month
  }

  ghost predicate ValidPlans(plans: Plans, from: Date, to: Date) {
    forall unit :: PlanOf(plans, unit) == [] || Tiles(unit, from, to, PlanOf(plans, unit))
  }

  datatype Step =
    | Plan(unit: Unit)
    | Download(unit: Unit, provider: Provider, maxAttempts: nat, force: bool, upTo: nat)
    | Normalize(unit: Unit, force: bool, upTo: nat)
    | Validate(unit: Unit, policy: V.Policy, symbolMatches: bool)
    | Convert(unit: Unit, zone: Zone, rule: Rule, prefix: string, force: bool, end: Conversion)
    | Record(name: string, text: string)
    | Lose(rawIds: set<string>, normalizedIds: set<string>, names: set<string>)

  function ValidationAt(plans: Plans, s: State, step: Step): Validation
    requires step.Validate?
  {
    V.ValidationOf(step.policy, step.symbolMatches, s.entries, s.normalized, PlanOf(plans, step.unit))
  }

  /**
   One command. Download and normalize may be killed after any number of chunks, and files may
   be lost from the directory at any time.
   */
  ghost predicate Next(plans: Plans, s: State, step: Step, t: State) {
    match step
    case Plan(unit) => t == s.(entries := Registered(s.entries, PlanOf(plans, unit)))
    case Download(unit, provider, maxAttempts, force, upTo) =>
      var plan := PlanOf(plans, unit);
      && upTo <= |plan| && HasEntries(s.entries, plan[..upTo])
      && t == DownloadAll(s, provider, maxAttempts, plan[..upTo], force).state
    case Normalize(unit, force, upTo) =>
      var plan := PlanOf(plans, unit);
      && upTo <= |plan| && HasEntries(s.entries, plan[..upTo])
      && t == NormalizeAll(s, plan[..upTo], force).state
    case Validate(unit, policy, symbolMatches) => t == s.(validation := Some(ValidationAt(plans, s, step)))
    case Convert(unit, zone, rule, prefix, force, end) =>
      ConvertStep(s, zone, rule, prefix, PlanOf(plans, unit), force, end, t)
    case Record(name, text) => t == s.(results := s.results[name := text])
    case Lose(rawIds, normalizedIds, names) =>
      t == s.(raw := s.raw - rawIds, normalized := s.normalized - normalizedIds, mt5 := s.mt5 - names)
  }

  ghost predicate IsRun(plans: Plans, run: seq<State>, steps: seq<Step>) {
    && |run| == |steps| + 1
    && run[0] == NEW_DATASET
    && forall i :: 0 <= i < |steps| ==> Next(plans, run[i], steps[i], run[i + 1])
  }

  // ---------- ids name chunks ----------

  ghost predicate InPlans(plans: Plans, chunk: Chunk) {
    chunk in plans.day || chunk in plans.month
  }

  lemma IdLength(unit: Unit, c: Chunk)
    requires ChunkOk(unit, c)
    ensures |c.chunkId| == if unit == Day then 8 else 6
  {}

  /** Within one dataset an id names a single chunk, whichever plan it comes from. */
  lemma IdsIdentify(plans: Plans, from: Date, to: Date, u: Unit, v: Unit, i: nat, j: nat)
    requires ValidPlans(plans, from, to)
    requires i < |PlanOf(plans, u)| && j < |PlanOf(plans, v)|
    ensures PlanOf(plans, u)[i].chunkId == PlanOf(plans, v)[j].chunkId <==> u == v && i == j
  {
    hide ChunkId, LexLess, Ordinal, ChunkOk;
    var a, b := PlanOf(plans, u), PlanOf(plans, v);
    if u == v {
      ChunkIdsAreDistinct(u, from, to, a);
    } else {
      assert ChunkOk(u, a[i]) && ChunkOk(v, b[j]);
      IdLength(u, a[i]);
      IdLength(v, b[j]);
    }
  }

  lemma SameIdSameChunk(plans: Plans, from: Date, to: Date, a: Chunk, b: Chunk)
    requires ValidPlans(plans, from, to) && InPlans(plans, a) && InPlans(plans, b)
    requires a.chunkId == b.chunkId
    ensures a == b
  {
    var u, i := Locate(plans, a);
    var v, j := Locate(plans, b);
    hide ValidPlans;
    IdsIdentify(plans, from, to, u, v, i, j);
  }

  lemma Locate(plans: Plans, a: Chunk) returns (unit: Unit, i: nat)
    requires InPlans(plans, a)
    ensures i < |PlanOf(plans, unit)| && PlanOf(plans, unit)[i] == a
  {
    if a in plans.day {
      unit := Day;
      i :| i < |plans.day| && plans.day[i] == a;
    } else {
      unit := Month;
      i :| i < |plans.month| && plans.month[i] == a;
    }
  }

  // ---------- what every run keeps ----------

  /** The ticks that a raw file normalizes to, in a chunk's window. */
  function TicksFrom(chunk: Chunk, digest: RawDigest): seq<Tick> {
    Normalized(WindowOf(chunk), digest.content.rows)
  }

  /** The record counts the rows of that raw file, all of them and those rejected. */
  ghost predicate CountsRows(chunk: Chunk, n: NormalizeRecord, digest: RawDigest) {
    && n.ticksIn == |digest.content.rows|
    && n.rejected == |Rejections(WindowOf(chunk), digest.content.rows)|
    && n.version == NORMALIZER_VERSION
  }

  /** The download record measures the file it was taken of and tells whether that file is empty. */
  ghost predicate Measured(d: Download) {
    && (Acquired(d.status) <==> d.sha256.Some?)
    && (d.sha256.Some? ==>
         var file := d.sha256.value.content;
         d.bytes == |file.bytes| && (d.status == Empty <==> IsEmptyRaw(file)))
  }

  /**
   A complete chunk's recorded checksum is that of the normalized form of the raw file it records,
   and a file that is there is the one recorded. A chunk normalized to nothing has a raw file
   without content or without a usable row.
   */
  ghost predicate ChunkHolds(s: State, chunk: Chunk) {
    var id := chunk.chunkId;
    id in s.entries ==>
      var d, n := s.entries[id].download, s.entries[id].normalize;
      && Measured(d)
      && (d.sha256.Some? && id in s.raw ==> s.raw[id] == d.sha256.value.content)
      && (n.status == Complete ==>
           && n.rawSha256.Some? && CountsRows(chunk, n, n.rawSha256.value)
           && TicksFrom(chunk, n.rawSha256.value) != []
           && n.sha256 == Some(Sha256(NormalizedFileOf(TicksFrom(chunk, n.rawSha256.value)))))
      && (Acquired(n.status) && id in s.normalized ==> n.sha256 == Some(Sha256(s.normalized[id])))
      && (n.status == Empty ==>
           && n.rawSha256.Some?
           && (IsEmptyRaw(n.rawSha256.value.content)
               || (CountsRows(chunk, n, n.rawSha256.value) && TicksFrom(chunk, n.rawSha256.value) == [])))
  }

  ghost predicate Holds(plans: Plans, s: State) {
    forall chunk :: InPlans(plans, chunk) ==> ChunkHolds(s, chunk)
  }

  lemma DownloadOneHolds(plans: Plans, from: Date, to: Date, p: Progress, chunk: Chunk, fetched: Fetched, force: bool)
    requires ValidPlans(plans, from, to) && InPlans(plans, chunk) && chunk.chunkId in p.state.entries
    requires Holds(plans, p.state)
    ensures Holds(plans, DownloadOne(p, chunk.chunkId, fetched, force).state)
  {
    hide ValidPlans, InPlans, IsEmptyRaw, Normalized, NormalizedFileOf;
    var t := DownloadOne(p, chunk.chunkId, fetched, force).state;
    forall other | InPlans(plans, other)
      ensures ChunkHolds(t, other)
    {
      assert ChunkHolds(p.state, other);
      if other.chunkId == chunk.chunkId {
        SameIdSameChunk(plans, from, to, other, chunk);
      }
    }
  }

  lemma NormalizeOneHolds(plans: Plans, from: Date, to: Date, p: Progress, chunk: Chunk, force: bool)
    requires ValidPlans(plans, from, to) && InPlans(plans, chunk) && chunk.chunkId in p.state.entries
    requires Holds(plans, p.state)
    ensures Holds(plans, NormalizeOne(p, chunk, force).state)
  {
    hide ValidPlans, InPlans, Normalized, Rejections, NormalizedFileOf;
    var t := NormalizeOne(p, chunk, force).state;
    assert ChunkHolds(p.state, chunk);
    forall other | InPlans(plans, other)
      ensures ChunkHolds(t, other)
    {
      assert ChunkHolds(p.state, other);
      if other.chunkId == chunk.chunkId {
        SameIdSameChunk(plans, from, to, other, chunk);
      }
    }
  }

  lemma {:induction false} DownloadHolds(plans: Plans, from: Date, to: Date, s: State, provider: Provider,
          maxAttempts: nat, chunks: seq<Chunk>, force: bool)
    requires ValidPlans(plans, from, to) && HasEntries(s.entries, chunks) && Holds(plans, s)
    requires forall i :: 0 <= i < |chunks| ==> InPlans(plans, chunks[i])
    ensures Holds(plans, DownloadAll(s, provider, maxAttempts, chunks, force).state)
  {
    hide ValidPlans, InPlans, Holds, Fetch, DownloadOne;
    if chunks != [] {
      var n := |chunks| - 1;
      assert forall i :: 0 <= i < n ==> chunks[..n][i] == chunks[i];
      DownloadHolds(plans, from, to, s, provider, maxAttempts, chunks[..n], force);
      var p := DownloadAll(s, provider, maxAttempts, chunks[..n], force);
      DownloadOneHolds(plans, from, to, p, chunks[n], Fetch(provider, chunks[n].chunkId, maxAttempts), force);
    }
  }

  lemma {:induction false} NormalizeHolds(plans: Plans, from: Date, to: Date, s: State, chunks: seq<Chunk>, force: bool)
    requires ValidPlans(plans, from, to) && HasEntries(s.entries, chunks) && Holds(plans, s)
    requires forall i :: 0 <= i < |chunks| ==> InPlans(plans, chunks[i])
    ensures Holds(plans, NormalizeAll(s, chunks, force).state)
  {
    hide ValidPlans, InPlans, Holds, NormalizeOne;
    if chunks != [] {
      var n := |chunks| - 1;
      assert forall i :: 0 <= i < n ==> chunks[..n][i] == chunks[i];
      NormalizeHolds(plans, from, to, s, chunks[..n], force);
      NormalizeOneHolds(plans, from, to, NormalizeAll(s, chunks[..n], force), chunks[n], force);
    }
  }

  lemma PlanIsInPlans(plans: Plans, unit: Unit, upTo: nat)
    requires upTo <= |PlanOf(plans, unit)|
    ensures forall i :: 0 <= i < upTo ==> InPlans(plans, PlanOf(plans, unit)[..upTo][i])
  {}

  lemma OthersHold(plans: Plans, s: State, step: Step, t: State)
    requires Holds(plans, s) && Next(plans, s, step, t) && !step.Download? && !step.Normalize?
    ensures Holds(plans, t)
  {
    if step.Plan? {
      RegisteredIs(s.entries, PlanOf(plans, step.unit));
    }
    hide InPlans, V.ValidationOf, C.Converted, C.Readable, C.WallsAscend, C.Directory, Normalized, NormalizedFileOf,
      Registered, FingerprintOf, ConvertUpToDate, AllTicks;
    forall chunk | InPlans(plans, chunk)
      ensures ChunkHolds(t, chunk)
    {
      assert ChunkHolds(s, chunk);
    }
  }

  /** Every command keeps the manifest true to the files. */
  lemma StepHolds(plans: Plans, from: Date, to: Date, s: State, step: Step, t: State)
    requires ValidPlans(plans, from, to) && Holds(plans, s) && Next(plans, s, step, t)
    ensures Holds(plans, t)
  {
    hide ValidPlans, Holds, InPlans;
    match step {
      case Download(unit, provider, maxAttempts, force, upTo) =>
        PlanIsInPlans(plans, unit, upTo);
        DownloadHolds(plans, from, to, s, provider, maxAttempts, PlanOf(plans, unit)[..upTo], force);
      case Normalize(unit, force, upTo) =>
        PlanIsInPlans(plans, unit, upTo);
        NormalizeHolds(plans, from, to, s, PlanOf(plans, unit)[..upTo], force);
      case _ =>
        OthersHold(plans, s, step, t);
    }
  }

  lemma {:induction false} RunHolds(plans: Plans, from: Date, to: Date, run: seq<State>, steps: seq<Step>, n: nat)
    requires ValidPlans(plans, from, to) && IsRun(plans, run, steps) && n < |run|
    ensures Holds(plans, run[n])
  {
    hide ValidPlans, InPlans, Next, ChunkHolds;
    if n == 0 {
      NewDatasetHolds(plans);
    } else {
      RunHolds(plans, from, to, run, steps, n - 1);
      assert Next(plans, run[n - 1], steps[n - 1], run[n - 1 + 1]);
      StepHolds(plans, from, to, run[n - 1], steps[n - 1], run[n]);
    }
  }

  lemma NewDatasetHolds(plans: Plans)
    ensures Holds(plans, NEW_DATASET)
  {
    hide InPlans;
  }

  // ---------- the validation that a conversion relies on ----------

  ghost predicate LastValidate(steps: seq<Step>, m: nat, n: nat) {
    m < n <= |steps| && steps[m].Validate? && forall k :: m < k < n ==> !steps[k].Validate?
  }

  /** The manifest's validation is the last one's, of the state it was made in. */
  lemma {:induction false} ValidationIsLast(plans: Plans, run: seq<State>, steps: seq<Step>, n: nat) returns (m: nat)
    requires IsRun(plans, run, steps) && n < |run| && run[n].validation.Some?
    ensures LastValidate(steps, m, n) && run[n].validation == Some(ValidationAt(plans, run[m], steps[m]))
  {
    hide V.ValidationOf, DownloadAll, NormalizeAll, C.Converted, C.Readable, C.WallsAscend, C.Directory, Registered;
    assert n > 0;
    assert Next(plans, run[n - 1], steps[n - 1], run[n - 1 + 1]);
    if steps[n - 1].Validate? {
      m := n - 1;
    } else {
      StageKeepsValidation(plans, run[n - 1], steps[n - 1], run[n]);
      m := ValidationIsLast(plans, run, steps, n - 1);
    }
  }

  lemma StageKeepsValidation(plans: Plans, s: State, step: Step, t: State)
    requires Next(plans, s, step, t) && !step.Validate?
    ensures t.validation == s.validation
  {
    if step.Download? {
      DownloadKeepsRecords(s, step.provider, step.maxAttempts, PlanOf(plans, step.unit)[..step.upTo], step.force);
    } else if step.Normalize? {
      NormalizeKeepsRecords(s, PlanOf(plans, step.unit)[..step.upTo], step.force);
    }
    hide C.Converted, C.Readable, C.WallsAscend, C.Directory, Registered, DownloadAll, NormalizeAll;
  }

  lemma {:induction false} DownloadKeepsRecords(s: State, provider: Provider, maxAttempts: nat,
          chunks: seq<Chunk>, force: bool)
    requires HasEntries(s.entries, chunks)
    ensures DownloadAll(s, provider, maxAttempts, chunks, force).state.validation == s.validation
    ensures DownloadAll(s, provider, maxAttempts, chunks, force).state.results == s.results
  {
    hide Fetch;
    if chunks != [] {
      var n := |chunks| - 1;
      assert forall i :: 0 <= i < n ==> chunks[..n][i] == chunks[i];
      DownloadKeepsRecords(s, provider, maxAttempts, chunks[..n], force);
    }
  }

  lemma OneKeepsRecords(p: Progress, chunk: Chunk, force: bool)
    requires chunk.chunkId in p.state.entries
    ensures var t := NormalizeOne(p, chunk, force).state;
      t.validation == p.state.validation && t.results == p.state.results
  {
    hide Normalized, Rejections, RecordOfRows, NormalizedFileOf, NormalizeUpToDate;
  }

  lemma {:induction false} NormalizeKeepsRecords(s: State, chunks: seq<Chunk>, force: bool)
    requires HasEntries(s.entries, chunks)
    ensures NormalizeAll(s, chunks, force).state.validation == s.validation
    ensures NormalizeAll(s, chunks, force).state.results == s.results
  {
    hide NormalizeOne;
    if chunks != [] {
      var n := |chunks| - 1;
      assert forall i :: 0 <= i < n ==> chunks[..n][i] == chunks[i];
      NormalizeKeepsRecords(s, chunks[..n], force);
      OneKeepsRecords(NormalizeAll(s, chunks[..n], force), chunks[n], force);
    }
  }

  // ---------- equal fingerprints, equal contents ----------

  /** The chunk counts as complete and its file is there. */
  predicate Present(s: State, id: string) {
    id in s.entries && s.entries[id].normalize.status == Complete && id in s.normalized
  }

  /** With equal fingerprints a chunk that is present in both states has the same file in both. */
  lemma SameFingerprintSameFile(plans: Plans, s: State, t: State, chunk: Chunk)
    requires Holds(plans, s) && Holds(plans, t) && InPlans(plans, chunk)
    requires FingerprintOf(s.entries) == FingerprintOf(t.entries)
    ensures chunk.chunkId in s.entries <==> chunk.chunkId in t.entries
    ensures chunk.chunkId in s.entries ==>
      s.entries[chunk.chunkId].normalize.status == t.entries[chunk.chunkId].normalize.status
    ensures chunk.chunkId in s.entries ==>
      s.entries[chunk.chunkId].normalize.sha256 == t.entries[chunk.chunkId].normalize.sha256
    ensures Present(s, chunk.chunkId) && Present(t, chunk.chunkId) ==>
      s.normalized[chunk.chunkId] == t.normalized[chunk.chunkId]
  {
    hide InPlans, Normalized, NormalizedFileOf;
    var id := chunk.chunkId;
    assert ChunkHolds(s, chunk) && ChunkHolds(t, chunk);
    assert id in s.entries <==> id in FingerprintOf(s.entries);
    assert id in t.entries <==> id in FingerprintOf(t.entries);
    if id in s.entries {
      assert FingerprintOf(s.entries)[id] == FingerprintOf(t.entries)[id];
    }
  }

  /** Everything the conversion reads is in the validated plan, and is the file that was validated. */
  ghost predicate ReadAsValidated(validated: State, validatedPlan: seq<Chunk>, converted: State,
          convertedPlan: seq<Chunk>) {
    forall i :: 0 <= i < |convertedPlan| && Present(converted, convertedPlan[i].chunkId) ==>
      var id := convertedPlan[i].chunkId;
      && convertedPlan[i] in validatedPlan
      && Present(validated, id)
      && validated.normalized[id] == converted.normalized[id]
  }

  /** A conversion that ran, and the validation it relied on. */
  ghost predicate ConvertedAfter(plans: Plans, run: seq<State>, steps: seq<Step>, m: nat, n: nat) {
    && IsRun(plans, run, steps) && n < |steps|
    && steps[n].Convert? && steps[n].end.Regenerated?
    && LastValidate(steps, m, n)
  }

  lemma RegeneratedMeans(plans: Plans, s: State, step: Step, t: State)
    requires Next(plans, s, step, t) && step.Convert? && step.end.Regenerated?
    ensures var plan := PlanOf(plans, step.unit);
      && MayConvert(s)
      && C.Readable(s.entries, s.normalized, plan)
      && C.Converted(step.zone, step.rule, step.prefix, AllTicks(s.entries, s.normalized, plan), step.end.files,
        step.end.total)
  {
    hide C.Readable, C.Converted, MayConvert, ConvertUpToDate, C.Directory, FingerprintOf;
  }

  /** What the conversion's guard has established by the time it runs. */
  lemma GuardMeans(plans: Plans, from: Date, to: Date, run: seq<State>, steps: seq<Step>, m: nat, n: nat)
    requires ValidPlans(plans, from, to) && ConvertedAfter(plans, run, steps, m, n)
    ensures Holds(plans, run[m]) && Holds(plans, run[n])
    ensures FingerprintOf(run[m].entries) == FingerprintOf(run[n].entries)
    ensures V.DatasetSound(steps[m].policy, steps[m].symbolMatches, run[m].entries, run[m].normalized,
      PlanOf(plans, steps[m].unit))
    ensures ValidationAt(plans, run[m], steps[m]).tickCount
      == |AllTicks(run[m].entries, run[m].normalized, PlanOf(plans, steps[m].unit))|
  {
    assert Next(plans, run[n], steps[n], run[n + 1]);
    RegeneratedMeans(plans, run[n], steps[n], run[n + 1]);
    RunHolds(plans, from, to, run, steps, m);
    RunHolds(plans, from, to, run, steps, n);
    var last := ValidationIsLast(plans, run, steps, n);
    assert last == m;
    V.VerdictIsSound(steps[m].policy, steps[m].symbolMatches, run[m].entries, run[m].normalized,
      PlanOf(plans, steps[m].unit));
    hide ValidPlans, IsRun, Holds, Next, V.DatasetSound, V.ValidationOf, FingerprintOf, AllTicks;
  }

  lemma SoundIsPresent(policy: V.Policy, symbolMatches: bool, s: State, plan: seq<Chunk>, i: nat)
    requires V.DatasetSound(policy, symbolMatches, s.entries, s.normalized, plan) && i < |plan|
    ensures plan[i].chunkId in s.entries
    ensures s.entries[plan[i].chunkId].normalize.status == Complete ==> Present(s, plan[i].chunkId)
    ensures s.entries[plan[i].chunkId].normalize.rawSha256 == s.entries[plan[i].chunkId].download.sha256
  {
    assert V.ChunkSound(s.entries, s.normalized, plan[i]);
    hide V.LinesGood;
  }

  /**
   A conversion of the unit that was last validated writes exactly the ticks that validation
   read, and counts as many.
   */
  lemma ConvertsWhatWasValidated(plans: Plans, from: Date, to: Date, run: seq<State>, steps: seq<Step>, m: nat, n: nat)
    requires ValidPlans(plans, from, to) && ConvertedAfter(plans, run, steps, m, n)
    requires steps[n].unit == steps[m].unit
    ensures var plan := PlanOf(plans, steps[m].unit);
      var ticks := AllTicks(run[m].entries, run[m].normalized, plan);
      && ReadAsValidated(run[m], plan, run[n], plan)
      && AllTicks(run[n].entries, run[n].normalized, plan) == ticks
      && TimesAscend(ticks) && ticks != []
      && C.Converted(steps[n].zone, steps[n].rule, steps[n].prefix, ticks, steps[n].end.files, steps[n].end.total)
      && steps[n].end.total == ValidationAt(plans, run[m], steps[m]).tickCount
  {
    var plan := PlanOf(plans, steps[m].unit);
    GuardMeans(plans, from, to, run, steps, m, n);
    assert Next(plans, run[n], steps[n], run[n + 1]);
    RegeneratedMeans(plans, run[n], steps[n], run[n + 1]);
    forall i | 0 <= i < |plan|
      ensures SameChunk(run[m], run[n], plan[i].chunkId)
    {
      ChunkIsSame(plans, steps[m], run[m], run[n], i);
    }
    SameChunksSameTicks(run[m], run[n], plan);
    ReadOfSameChunks(run[m], run[n], plan);
    TotalIsLength(steps[n], AllTicks(run[n].entries, run[n].normalized, plan));
    hide ValidPlans, IsRun, Holds, Next, FingerprintOf, AllTicks, C.Converted, C.Readable, ReadAsValidated,
      V.ValidationOf, V.ChunksSound, TimesAscend, V.TooManyRejected;
  }

  lemma TotalIsLength(step: Step, ticks: seq<Tick>)
    requires step.Convert? && step.end.Regenerated?
    requires C.Converted(step.zone, step.rule, step.prefix, ticks, step.end.files, step.end.total)
    ensures step.end.total == |ticks|
  {
    hide C.WallsAscend, C.Image, C.Concatenated, C.RecordsOk;
  }

  /** A chunk is in both states or in neither as far as conversion is concerned, with the same file. */
  ghost predicate SameChunk(s: State, t: State, id: string) {
    && (Present(s, id) <==> Present(t, id))
    && (Present(s, id) ==> s.normalized[id] == t.normalized[id])
  }

  lemma ChunkIsSame(plans: Plans, validate: Step, s: State, t: State, i: nat)
    requires validate.Validate? && i < |PlanOf(plans, validate.unit)|
    requires Holds(plans, s) && Holds(plans, t) && FingerprintOf(s.entries) == FingerprintOf(t.entries)
    requires V.DatasetSound(validate.policy, validate.symbolMatches, s.entries, s.normalized,
      PlanOf(plans, validate.unit))
    requires C.Readable(t.entries, t.normalized, PlanOf(plans, validate.unit))
    ensures SameChunk(s, t, PlanOf(plans, validate.unit)[i].chunkId)
  {
    var plan := PlanOf(plans, validate.unit);
    SoundIsPresent(validate.policy, validate.symbolMatches, s, plan, i);
    assert C.ChunkReadable(t.entries, t.normalized, plan[i]);
    assert InPlans(plans, plan[i]);
    SameFingerprintSameFile(plans, s, t, plan[i]);
    hide Holds, InPlans, V.DatasetSound, FingerprintOf, AllReadable;
  }

  lemma {:induction false} SameChunksSameTicks(s: State, t: State, plan: seq<Chunk>)
    requires forall i :: 0 <= i < |plan| ==> SameChunk(s, t, plan[i].chunkId)
    ensures AllTicks(s.entries, s.normalized, plan) == AllTicks(t.entries, t.normalized, plan)
  {
    hide TicksOf;
    if plan != [] {
      var n := |plan| - 1;
      assert SameChunk(s, t, plan[n].chunkId);
      SameChunksSameTicks(s, t, plan[..n]);
    }
  }

  lemma ReadOfSameChunks(s: State, t: State, plan: seq<Chunk>)
    requires forall i :: 0 <= i < |plan| ==> SameChunk(s, t, plan[i].chunkId)
    ensures ReadAsValidated(s, plan, t, plan)
  {
    forall i | 0 <= i < |plan| && Present(t, plan[i].chunkId)
      ensures plan[i] in plan && Present(s, plan[i].chunkId)
        && s.normalized[plan[i].chunkId] == t.normalized[plan[i].chunkId]
    {
      assert SameChunk(s, t, plan[i].chunkId);
    }
  }

  // ---------- a conversion of another unit ----------

  lemma {:induction false} TicksOfLines(ticks: seq<Tick>)
    ensures TicksOf(AsLines(ticks)) == ticks
  {
    if ticks != [] {
      var n := |ticks| - 1;
      TicksOfLines(ticks[..n]);
      assert AsLines(ticks)[..n] == AsLines(ticks[..n]);
    }
  }

  /** A chunk that is present has ticks, namely those of the raw file it records. */
  lemma PresentHasTicks(plans: Plans, s: State, chunk: Chunk)
    requires Holds(plans, s) && InPlans(plans, chunk) && Present(s, chunk.chunkId)
    ensures s.entries[chunk.chunkId].normalize.rawSha256.Some?
    ensures ChunkTicks(s.entries, s.normalized, chunk)
      == TicksFrom(chunk, s.entries[chunk.chunkId].normalize.rawSha256.value) != []
    ensures AllReadable(s.normalized[chunk.chunkId].lines)
  {
    hide InPlans, Normalized, TicksOf;
    assert ChunkHolds(s, chunk);
    TicksOfLines(TicksFrom(chunk, s.entries[chunk.chunkId].normalize.rawSha256.value));
  }

  lemma {:induction false} NoTicksNoChunks(s: State, plan: seq<Chunk>)
    ensures AllTicks(s.entries, s.normalized, plan) == []
      <==> forall i :: 0 <= i < |plan| ==> ChunkTicks(s.entries, s.normalized, plan[i]) == []
  {
    hide ChunkTicks;
    if plan != [] {
      var n := |plan| - 1;
      NoTicksNoChunks(s, plan[..n]);
      assert forall i :: 0 <= i < n ==> plan[..n][i] == plan[i];
    }
  }

  /** The manifest lists every chunk of the plan, none of them as complete. */
  predicate NothingComplete(s: State, plan: seq<Chunk>) {
    forall i :: 0 <= i < |plan| ==>
      plan[i].chunkId in s.entries && s.entries[plan[i].chunkId].normalize.status != Complete
  }

  /** A readable plan has no ticks exactly when the manifest lists none of its chunks as complete. */
  lemma NoTicksNothingComplete(plans: Plans, s: State, unit: Unit)
    requires Holds(plans, s) && C.Readable(s.entries, s.normalized, PlanOf(plans, unit))
    ensures AllTicks(s.entries, s.normalized, PlanOf(plans, unit)) == [] <==> NothingComplete(s, PlanOf(plans, unit))
  {
    var plan := PlanOf(plans, unit);
    NoTicksNoChunks(s, plan);
    hide AllTicks, Holds, ChunkTicks;
    forall i | 0 <= i < |plan|
      ensures plan[i].chunkId in s.entries
      ensures ChunkTicks(s.entries, s.normalized, plan[i]) == []
         <==> s.entries[plan[i].chunkId].normalize.status != Complete
    {
      assert C.ChunkReadable(s.entries, s.normalized, plan[i]);
      assert InPlans(plans, plan[i]);
      TicksMeanComplete(plans, s, plan[i]);
    }
  }

  lemma TicksMeanComplete(plans: Plans, s: State, chunk: Chunk)
    requires Holds(plans, s) && InPlans(plans, chunk) && C.ChunkReadable(s.entries, s.normalized, chunk)
    ensures ChunkTicks(s.entries, s.normalized, chunk) == [] <==> s.entries[chunk.chunkId].normalize.status != Complete
  {
    hide Holds, InPlans, TicksOf, AllReadable;
    if s.entries[chunk.chunkId].normalize.status == Complete {
      PresentHasTicks(plans, s, chunk);
    }
  }

  /**
   A conversion has read only validated files exactly when it converts the unit that was last
   validated, or the manifest lists no chunk of its plan as complete when it starts.
   */
  lemma UnitDecides(plans: Plans, from: Date, to: Date, run: seq<State>, steps: seq<Step>, m: nat, n: nat)
    requires ValidPlans(plans, from, to) && ConvertedAfter(plans, run, steps, m, n)
    ensures ReadAsValidated(run[m], PlanOf(plans, steps[m].unit), run[n], PlanOf(plans, steps[n].unit))
       <==> steps[n].unit == steps[m].unit || NothingComplete(run[n], PlanOf(plans, steps[n].unit))
  {
    var plan := PlanOf(plans, steps[n].unit);
    GuardMeans(plans, from, to, run, steps, m, n);
    assert Next(plans, run[n], steps[n], run[n + 1]);
    RegeneratedMeans(plans, run[n], steps[n], run[n + 1]);
    NoTicksNothingComplete(plans, run[n], steps[n].unit);
    NoTicksNoChunks(run[n], plan);
    if steps[n].unit == steps[m].unit {
      ConvertsWhatWasValidated(plans, from, to, run, steps, m, n);
    } else if NothingComplete(run[n], plan) {
      NothingRead(run[m], PlanOf(plans, steps[m].unit), run[n], plan);
    } else {
      hide ValidPlans, IsRun, Holds, Next, FingerprintOf, AllTicks, C.Converted, C.Readable, V.DatasetSound,
        V.ValidationOf, TicksOf, ReadAsValidated, NothingComplete;
      var i :| 0 <= i < |plan| && ChunkTicks(run[n].entries, run[n].normalized, plan[i]) != [];
      NotOfOtherUnit(plans, from, to, steps[n].unit, steps[m].unit, i);
      UnvalidatedChunk(run[m], PlanOf(plans, steps[m].unit), run[n], plan, i);
    }
  }

  lemma NothingRead(s: State, validatedPlan: seq<Chunk>, t: State, plan: seq<Chunk>)
    requires NothingComplete(t, plan)
    ensures ReadAsValidated(s, validatedPlan, t, plan)
  {}

  /**
   A conversion writes what the last validation read, and counts as many, exactly when it converts
   the unit that was validated.
   */
  lemma OnlyTheValidatedUnit(plans: Plans, from: Date, to: Date, run: seq<State>, steps: seq<Step>, m: nat, n: nat)
    requires ValidPlans(plans, from, to) && ConvertedAfter(plans, run, steps, m, n)
    ensures ReadAsValidated(run[m], PlanOf(plans, steps[m].unit), run[n], PlanOf(plans, steps[n].unit))
         && steps[n].end.total == ValidationAt(plans, run[m], steps[m]).tickCount
       <==> steps[n].unit == steps[m].unit
  {
    GuardMeans(plans, from, to, run, steps, m, n);
    UnitDecides(plans, from, to, run, steps, m, n);
    assert Next(plans, run[n], steps[n], run[n + 1]);
    RegeneratedMeans(plans, run[n], steps[n], run[n + 1]);
    NoTicksNothingComplete(plans, run[n], steps[n].unit);
    TotalIsLength(steps[n], AllTicks(run[n].entries, run[n].normalized, PlanOf(plans, steps[n].unit)));
    if steps[n].unit == steps[m].unit {
      ConvertsWhatWasValidated(plans, from, to, run, steps, m, n);
    }
    ValidatedTicksExist(steps[m].policy, steps[m].symbolMatches, run[m], PlanOf(plans, steps[m].unit));
    hide *;
  }

  lemma ValidatedTicksExist(policy: V.Policy, symbolMatches: bool, s: State, plan: seq<Chunk>)
    requires V.DatasetSound(policy, symbolMatches, s.entries, s.normalized, plan)
    ensures AllTicks(s.entries, s.normalized, plan) != []
  {
    hide V.ChunksSound, TimesAscend, V.TooManyRejected, AllTicks;
  }

  lemma NotOfOtherUnit(plans: Plans, from: Date, to: Date, u: Unit, v: Unit, i: nat)
    requires ValidPlans(plans, from, to) && u != v && i < |PlanOf(plans, u)|
    ensures PlanOf(plans, u)[i] !in PlanOf(plans, v)
  {
    forall j | 0 <= j < |PlanOf(plans, v)|
      ensures PlanOf(plans, v)[j] != PlanOf(plans, u)[i]
    {
      IdsIdentify(plans, from, to, u, v, i, j);
    }
  }

  lemma UnvalidatedChunk(s: State, validatedPlan: seq<Chunk>, t: State, plan: seq<Chunk>, i: nat)
    requires i < |plan| && plan[i] !in validatedPlan && ChunkTicks(t.entries, t.normalized, plan[i]) != []
    ensures !ReadAsValidated(s, validatedPlan, t, plan)
  {
    hide TicksOf;
    assert Present(t, plan[i].chunkId);
  }

  // ---------- changes are noticed, and the data comes from the downloads ----------

  /** If a validated chunk has changed in any way since, conversion is refused. */
  lemma ChangedChunkIsRefused(plans: Plans, from: Date, to: Date, run: seq<State>, steps: seq<Step>, m: nat,
          n: nat, chunk: Chunk)
    requires ValidPlans(plans, from, to) && IsRun(plans, run, steps) && n < |steps|
    requires steps[n].Convert? && LastValidate(steps, m, n) && InPlans(plans, chunk)
    requires var id := chunk.chunkId;
      || (id in run[m].entries) != (id in run[n].entries)
      || (id in run[m].entries && id in run[n].entries
          && (run[m].entries[id].normalize.status != run[n].entries[id].normalize.status
              || run[m].entries[id].normalize.sha256 != run[n].entries[id].normalize.sha256))
      || (Present(run[m], id) && Present(run[n], id) && run[m].normalized[id] != run[n].normalized[id])
    ensures steps[n].end == NotAllowed && run[n + 1] == run[n]
  {
    assert Next(plans, run[n], steps[n], run[n + 1]);
    RunHolds(plans, from, to, run, steps, m);
    RunHolds(plans, from, to, run, steps, n);
    if MayConvert(run[n]) {
      var last := ValidationIsLast(plans, run, steps, n);
      assert last == m;
      FingerprintAt(plans, run[m], steps[m]);
      SameFingerprintSameFile(plans, run[m], run[n], chunk);
      assert false;
    }
  }

  lemma FingerprintAt(plans: Plans, s: State, step: Step)
    requires step.Validate?
    ensures ValidationAt(plans, s, step).fingerprint == FingerprintOf(s.entries)
  {
    V.VerdictIsSound(step.policy, step.symbolMatches, s.entries, s.normalized, PlanOf(plans, step.unit));
  }

  /** What the terminal made of the files, if recorded, was recorded after the last conversion that wrote them. */
  lemma {:induction false} ResultsAreCurrent(plans: Plans, run: seq<State>, steps: seq<Step>, n: nat, name: string)
    returns (k: nat)
    requires IsRun(plans, run, steps) && n < |run| && name in run[n].results && name in TERMINAL_RESULTS
    ensures k < n && steps[k].Record? && steps[k].name == name && run[n].results[name] == steps[k].text
    ensures forall j :: k < j < n ==> !(steps[j].Convert? && steps[j].end.Regenerated?)
  {
    hide TERMINAL_RESULTS, DownloadAll, NormalizeAll, Registered, V.ValidationOf, C.Converted, C.Readable, C.Directory,
      C.WallsAscend;
    assert Next(plans, run[n - 1], steps[n - 1], run[n - 1 + 1]);
    if steps[n - 1].Record? && steps[n - 1].name == name {
      k := n - 1;
    } else {
      StageKeepsResults(plans, run[n - 1], steps[n - 1], run[n], name);
      k := ResultsAreCurrent(plans, run, steps, n - 1, name);
    }
  }

  lemma StageKeepsResults(plans: Plans, s: State, step: Step, t: State, name: string)
    requires Next(plans, s, step, t) && name in t.results && name in TERMINAL_RESULTS
    requires !(step.Record? && step.name == name)
    ensures name in s.results && t.results[name] == s.results[name]
    ensures !(step.Convert? && step.end.Regenerated?)
  {
    if step.Download? {
      DownloadKeepsRecords(s, step.provider, step.maxAttempts, PlanOf(plans, step.unit)[..step.upTo], step.force);
    } else if step.Normalize? {
      NormalizeKeepsRecords(s, PlanOf(plans, step.unit)[..step.upTo], step.force);
    }
    hide C.Converted, C.Readable, C.WallsAscend, C.Directory, Registered, DownloadAll, NormalizeAll, V.ValidationOf,
      FingerprintOf, ConvertUpToDate, AllTicks;
  }

  /** The plan's ticks as the downloaded raw files determine them. */
  function SourceTicks(entries: map<string, Entry>, plan: seq<Chunk>): seq<Tick> {
    if plan == [] then []
    else
      var id := plan[|plan| - 1].chunkId;
      SourceTicks(entries, plan[..|plan| - 1])
      + (if id in entries && entries[id].normalize.status == Complete && entries[id].download.sha256.Some?
         then TicksFrom(plan[|plan| - 1], entries[id].download.sha256.value) else [])
  }

  lemma {:induction false} SourceIsRead(plans: Plans, s: State, plan: seq<Chunk>)
    requires Holds(plans, s)
    requires forall i :: 0 <= i < |plan| ==> InPlans(plans, plan[i])
    requires forall i :: 0 <= i < |plan| ==>
      var id := plan[i].chunkId;
      id in s.entries && s.entries[id].normalize.rawSha256 == s.entries[id].download.sha256
      && (s.entries[id].normalize.status == Complete ==> Present(s, id))
    ensures AllTicks(s.entries, s.normalized, plan) == SourceTicks(s.entries, plan)
  {
    hide Holds, InPlans, TicksFrom, TicksOf;
    if plan != [] {
      var n := |plan| - 1;
      assert forall i :: 0 <= i < n ==> plan[..n][i] == plan[i];
      SourceIsRead(plans, s, plan[..n]);
      if Present(s, plan[n].chunkId) {
        PresentHasTicks(plans, s, plan[n]);
      }
    }
  }

  /** End to end: the output files are the image of the normalized downloads that validation saw. */
  lemma OutputComesFromDownloads(plans: Plans, from: Date, to: Date, run: seq<State>, steps: seq<Step>, m: nat, n: nat)
    requires ValidPlans(plans, from, to) && ConvertedAfter(plans, run, steps, m, n)
    requires steps[n].unit == steps[m].unit
    ensures var ticks := SourceTicks(run[m].entries, PlanOf(plans, steps[m].unit));
      && C.WallsAscend(steps[n].zone, steps[n].rule, ticks)
      && C.Concatenated(steps[n].end.files) == C.Image(steps[n].zone, steps[n].rule, ticks)
  {
    var plan := PlanOf(plans, steps[m].unit);
    ConvertsWhatWasValidated(plans, from, to, run, steps, m, n);
    GuardMeans(plans, from, to, run, steps, m, n);
    hide ValidPlans, IsRun, Next, Holds, FingerprintOf, V.DatasetSound, V.ValidationOf, AllTicks, SourceTicks,
      ReadAsValidated, C.WallsAscend, C.Image, C.Concatenated, C.RecordsOk, Present;
    forall i | 0 <= i < |plan|
      ensures InPlans(plans, plan[i]) && plan[i].chunkId in run[m].entries
      ensures var e := run[m].entries[plan[i].chunkId];
        e.normalize.rawSha256 == e.download.sha256
          && (e.normalize.status == Complete ==> Present(run[m], plan[i].chunkId))
    {
      SoundIsPresent(steps[m].policy, steps[m].symbolMatches, run[m], plan, i);
    }
    SourceIsRead(plans, run[m], plan);
  }

  // ---------- which validated datasets convert ----------

  lemma {:induction false} SoundTicksEnd(entries: map<string, Entry>, normalized: map<string, NormalizedFile>,
          plan: seq<Chunk>, bound: int)
    requires V.ChunksSound(entries, normalized, plan)
    requires forall i :: 0 <= i < |plan| ==> plan[i].endMs <= bound
    ensures forall k :: 0 <= k < |AllTicks(entries, normalized, plan)| ==>
      AllTicks(entries, normalized, plan)[k].timestampMs < bound
  {
    hide ChunkTicks, V.ChunkSound;
    if plan != [] {
      var n := |plan| - 1;
      V.SoundSnoc(entries, normalized, plan);
      SoundTicksEnd(entries, normalized, plan[..n], bound);
      SoundChunkEnds(entries, normalized, plan[n]);
    }
  }

  lemma SoundChunkEnds(entries: map<string, Entry>, normalized: map<string, NormalizedFile>, chunk: Chunk)
    requires V.ChunkSound(entries, normalized, chunk)
    ensures forall k :: 0 <= k < |ChunkTicks(entries, normalized, chunk)| ==>
      ChunkTicks(entries, normalized, chunk)[k].timestampMs < chunk.endMs
  {
    hide TicksOf, IsValid;
    var id := chunk.chunkId;
    if entries[id].normalize.status == Complete {
      TicksOfReadable(normalized[id].lines);
    }
  }

  lemma PlanEnds(unit: Unit, from: Date, to: Date, plan: seq<Chunk>, i: nat)
    requires Tiles(unit, from, to, plan) && !RunsPastEnd(unit, to) && i < |plan|
    ensures plan[i].endMs <= W.END_WALL_MS - MS_PER_DAY
  {
    assert ChunkOk(unit, plan[i]);
    LastIsGreatest(unit, from, to, plan, i);
    LastOrdinal();
    OrdinalOrder(to, Date(MAX_YEAR, 12, 31));
  }

  /** Two ticks less than an hour apart, one in summer time and the later one not. */
  ghost predicate CrossesAutumn(zone: Zone, rule: Rule, ticks: seq<Tick>) {
    rule.NyClose? && (exists i, j ::
      0 <= i < j < |ticks| && ticks[j].timestampMs - ticks[i].timestampMs < MS_PER_HOUR
      && IsSummer(zone, ticks[i].timestampMs) && !IsSummer(zone, ticks[j].timestampMs))
  }

  /** Server time follows a stream in time order unless the stream runs through an autumn change. */
  lemma WallsFollow(zone: Zone, rule: Rule, ticks: seq<Tick>)
    requires ValidZone(zone) && TimesAscend(ticks) && ticks != []
    ensures C.WallsAscend(zone, rule, ticks)
      <==> ToWall(zone, rule, ticks[0].timestampMs) >= 0 && !CrossesAutumn(zone, rule, ticks)
  {
    forall i, j | 0 <= i < j < |ticks|
      ensures ToWall(zone, rule, ticks[j].timestampMs) < ToWall(zone, rule, ticks[i].timestampMs)
         <==> rule.NyClose? && ticks[j].timestampMs - ticks[i].timestampMs < MS_PER_HOUR
              && IsSummer(zone, ticks[i].timestampMs) && !IsSummer(zone, ticks[j].timestampMs)
    {
      WallGoesBack(zone, rule, ticks[i].timestampMs, ticks[j].timestampMs);
    }
    hide ToWall, IsSummer;
  }

  /**
   A dataset that passed validation can always be read back and stays within four-digit years, so
   converting it succeeds exactly when server time starts at the epoch or later and no hour of
   quotes runs through an autumn change.
   */
  lemma ValidatedConverts(unit: Unit, from: Date, to: Date, plan: seq<Chunk>, policy: V.Policy, symbolMatches: bool,
                          entries: map<string, Entry>, normalized: map<string, NormalizedFile>, zone: Zone, rule: Rule)
    requires Tiles(unit, from, to, plan) && !RunsPastEnd(unit, to)
    requires V.DatasetSound(policy, symbolMatches, entries, normalized, plan)
    requires ValidZone(zone) && ValidRule(rule)
    ensures var ticks := AllTicks(entries, normalized, plan);
      && C.Readable(entries, normalized, plan)
      && C.FourDigitYears(zone, rule, ticks)
      && (C.WallsAscend(zone, rule, ticks)
        <==> ToWall(zone, rule, ticks[0].timestampMs) >= 0 && !CrossesAutumn(zone, rule, ticks))
  {
    var ticks := AllTicks(entries, normalized, plan);
    SoundIsReadable(entries, normalized, plan);
    forall i | 0 <= i < |plan|
      ensures plan[i].endMs <= W.END_WALL_MS - MS_PER_DAY
    {
      PlanEnds(unit, from, to, plan, i);
    }
    SoundTicksEnd(entries, normalized, plan, W.END_WALL_MS - MS_PER_DAY);
    WallsFollow(zone, rule, ticks);
    hide AllTicks, V.ChunksSound, C.Readable, C.WallsAscend, CrossesAutumn, OffsetMsAt, Tiles;
    forall i | 0 <= i < |ticks|
      ensures ToWall(zone, rule, ticks[i].timestampMs) < W.END_WALL_MS
    {
      OffsetBounds(zone, rule, ticks[i].timestampMs);
    }
  }

  lemma SoundIsReadable(entries: map<string, Entry>, normalized: map<string, NormalizedFile>, plan: seq<Chunk>)
    requires V.ChunksSound(entries, normalized, plan)
    ensures C.Readable(entries, normalized, plan)
  {
    hide IsValid, Inside;
    forall i | 0 <= i < |plan|
      ensures C.ChunkReadable(entries, normalized, plan[i])
    {
      assert V.ChunkSound(entries, normalized, plan[i]);
    }
  }

  /**
   A conversion of the unit last validated leaves one file for each month, in increasing order of
   months, and every one of them is in the output directory with its own lines.
   */
  lemma MonthsAreComplete(plans: Plans, from: Date, to: Date, run: seq<State>, steps: seq<Step>, m: nat, n: nat)
    requires ValidPlans(plans, from, to) && ConvertedAfter(plans, run, steps, m, n)
    requires steps[n].unit == steps[m].unit && IsDate(to) && !RunsPastEnd(steps[n].unit, to)
    requires ValidZone(steps[n].zone) && ValidRule(steps[n].rule)
    ensures var files := steps[n].end.files;
      && C.KeysIncrease(files)
      && (forall i :: 0 <= i < |files| ==> C.Holds(run[n + 1].mt5, files[i]))
      && |run[n + 1].mt5| == |files|
  {
    var plan, step := PlanOf(plans, steps[m].unit), steps[n];
    ConvertsWhatWasValidated(plans, from, to, run, steps, m, n);
    GuardMeans(plans, from, to, run, steps, m, n);
    SoundHasPlan(step.unit, plans, from, to, steps[m].policy, steps[m].symbolMatches, run[m]);
    ValidatedConverts(step.unit, from, to, plan, steps[m].policy, steps[m].symbolMatches, run[m].entries,
      run[m].normalized, step.zone, step.rule);
    assert Next(plans, run[n], step, run[n + 1]);
    DirectoryAfter(plans, run[n], step, run[n + 1]);
    KeysOf(step, AllTicks(run[m].entries, run[m].normalized, plan));
    C.NothingIsOverwritten(step.prefix, step.end.files);
    hide *;
  }

  lemma SoundHasPlan(unit: Unit, plans: Plans, from: Date, to: Date, policy: V.Policy, symbolMatches: bool, s: State)
    requires ValidPlans(plans, from, to)
    requires V.DatasetSound(policy, symbolMatches, s.entries, s.normalized, PlanOf(plans, unit))
    ensures Tiles(unit, from, to, PlanOf(plans, unit))
  {
    hide Tiles, V.ChunksSound, V.TooManyRejected, TimesAscend;
  }

  lemma DirectoryAfter(plans: Plans, s: State, step: Step, t: State)
    requires Next(plans, s, step, t) && step.Convert? && step.end.Regenerated?
    ensures t.mt5 == C.Directory(step.end.files)
  {
    hide C.Readable, C.Converted, MayConvert, ConvertUpToDate, C.Directory, FingerprintOf, AllTicks;
  }

  lemma KeysOf(step: Step, ticks: seq<Tick>)
    requires step.Convert? && step.end.Regenerated? && C.FourDigitYears(step.zone, step.rule, ticks)
    requires C.Converted(step.zone, step.rule, step.prefix, ticks, step.end.files, step.end.total)
    ensures C.RecordsOk(step.prefix, step.end.files) && C.KeysIncrease(step.end.files)
      && C.KeysHaveMonthLength(step.end.files)
  {
    hide C.WallsAscend, C.Image, C.Concatenated, C.RecordsOk, C.FourDigitYears, C.KeysIncrease, C.KeysHaveMonthLength;
  }
}
