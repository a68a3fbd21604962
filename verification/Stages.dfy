/**
 The pipeline's stages on one dataset directory: download, normalize, validate, convert.

 Replacing a file and saving the manifest that describes it count as one step.
 */
module Stages {
  import opened Text
  import opened Ticks
  import opened Chunks
  import opened ServerTime
  import opened Normalize
  import opened Dataset
  import opened Convert
  import V = Validate

  const CONVERSION_VERSION := "1"

  datatype ConvertRecord = ConvertRecord(fingerprint: Fingerprint, version: string, rule: Rule, files: seq<MonthRecord>,
      tickCount: nat)

  /** The dataset directory: its manifest and its files. */
  datatype State = State(
    entries: map<string, Entry>,
    validation: Option<Validation>,
    convert: Option<ConvertRecord>,
    raw: map<string, RawFile>,
    normalized: map<string, NormalizedFile>,
    mt5: map<string, seq<OutLine>>,
    results: map<string, string>
  )

  const NEW_DATASET := State(map[], None, None, map[], map[], map[], map[])

  /** The manifest's records of what the terminal made of a conversion. */
  const TERMINAL_RESULTS := {"import", "mt5_verification", "history_quality"}

  /** What one attempt of a provider does. */
  datatype Attempt = Arrived(file: RawFile) | Retryable | Fatal

  type Provider = (string, nat) -> Attempt

  /** How the attempts for one chunk end. */
  datatype Fetched = Got(file: RawFile) | Exhausted | Raised

  /** What a stage reports, and whether it ended in an exception. */
  datatype Progress = Progress(state: State, done: seq<string>, skipped: seq<string>, failed: seq<string>, raised: bool)

  function Start(s: State): Progress {
    Progress(s, [], [], [], false)
  }

  ghost predicate HasEntries(entries: map<string, Entry>, chunks: seq<Chunk>) {
    forall i :: 0 <= i < |chunks| ==> chunks[i].chunkId in entries
  }

  // ---------- planning ----------

  function Registered(entries: map<string, Entry>, chunks: seq<Chunk>): map<string, Entry> {
    if chunks == [] then entries
    else
      var init := Registered(entries, chunks[..|chunks| - 1]);
      var id := chunks[|chunks| - 1].chunkId;
      if id in init then init else init[id := Entry(PENDING_DOWNLOAD, PENDING_NORMALIZE)]
  }

  /** Registering a plan adds its missing chunks as pending and touches nothing else. */
  lemma {:induction false} RegisteredIs(entries: map<string, Entry>, chunks: seq<Chunk>)
    ensures HasEntries(Registered(entries, chunks), chunks)
    ensures forall id :: id in entries ==>
      id in Registered(entries, chunks) && Registered(entries, chunks)[id] == entries[id]
    ensures forall id :: id in Registered(entries, chunks) && id !in entries ==>
      && Registered(entries, chunks)[id] == Entry(PENDING_DOWNLOAD, PENDING_NORMALIZE)
      && exists i :: 0 <= i < |chunks| && chunks[i].chunkId == id
  {
    if chunks != [] {
      var n := |chunks| - 1;
      RegisteredIs(entries, chunks[..n]);
      var after := Registered(entries, chunks);
      forall i | 0 <= i < |chunks|
        ensures chunks[i].chunkId in after
      {
        if i < n {
          assert chunks[..n][i].chunkId in Registered(entries, chunks[..n]);
        }
      }
      forall id | id in after && id !in entries
        ensures exists i :: 0 <= i < |chunks| && chunks[i].chunkId == id
      {
        if id in Registered(entries, chunks[..n]) {
          var i :| 0 <= i < |chunks[..n]| && chunks[..n][i].chunkId == id;
          assert chunks[i].chunkId == id;
        }
      }
    }
  }

  // ---------- download ----------

  function FirstLineEnd(bytes: string): nat
    ensures FirstLineEnd(bytes) <= |bytes|
  {
    if bytes == "" then 0 else if bytes[0] == '\n' then 1 else 1 + FirstLineEnd(bytes[1..])
  }

  /** No bytes, or nothing but white space on the second line. */
  predicate IsEmptyRaw(file: RawFile) {
    var rest := file.bytes[FirstLineEnd(file.bytes)..];
    var second := rest[..FirstLineEnd(rest)];
    |file.bytes| == 0 || forall i :: 0 <= i < |second| ==> IsAsciiSpace(second[i])
  }

  /** How many lines end in a text. */
  ghost function LineEnds(s: string): nat {
    multiset(s)['\n']
  }

  lemma {:induction false} FirstLineHasOneEnd(bytes: string, i: nat)
    requires i < |bytes|
    ensures i < FirstLineEnd(bytes) <==> LineEnds(bytes[..i]) == 0
    ensures i >= FirstLineEnd(bytes) ==> LineEnds(bytes[..i]) == 1 + LineEnds(bytes[FirstLineEnd(bytes)..i])
  {
    if i == 0 {
      assert bytes[..0] == "";
    } else {
      assert bytes[..i] == [bytes[0]] + bytes[1..][..i - 1];
      if bytes[0] == '\n' {
        assert bytes[1..i] == bytes[1..][..i - 1];
      } else {
        FirstLineHasOneEnd(bytes[1..], i - 1);
        if i >= FirstLineEnd(bytes) {
          assert bytes[FirstLineEnd(bytes)..i] == bytes[1..][FirstLineEnd(bytes[1..])..i - 1];
        }
      }
    }
  }

  /** A raw file counts as empty exactly when all bytes between its first and its second line end are white space. */
  lemma EmptyRawMeans(file: RawFile)
    ensures IsEmptyRaw(file)
      <==> forall i :: 0 <= i < |file.bytes| && LineEnds(file.bytes[..i]) == 1 ==> IsAsciiSpace(file.bytes[i])
  {
    var bytes := file.bytes;
    var end := FirstLineEnd(bytes);
    var rest := bytes[end..];
    var second := rest[..FirstLineEnd(rest)];
    forall i | 0 <= i < |bytes|
      ensures LineEnds(bytes[..i]) == 1 <==> end <= i < end + |second|
    {
      FirstLineHasOneEnd(bytes, i);
      if i >= end {
        FirstLineHasOneEnd(rest, i - end);
        assert rest[..i - end] == bytes[end..i];
      }
    }
    assert forall k :: 0 <= k < |second| ==> second[k] == bytes[end + k];
    assert forall i :: end <= i < end + |second| ==> bytes[i] == second[i - end];
    hide FirstLineEnd, LineEnds, IsAsciiSpace;
  }

  predicate AlreadyDownloaded(download: Download, raw: map<string, RawFile>, id: string) {
    || download.status == Empty
    || (download.status == Complete && id in raw && |raw[id].bytes| == download.bytes)
  }

  /** The attempts from `attempt` on. */
  function FetchFrom(provider: Provider, id: string, attempt: nat, maxAttempts: nat): Fetched
    decreases maxAttempts + 1 - attempt
  {
    if attempt > maxAttempts then Exhausted
    else
      match provider(id, attempt)
      case Arrived(file) => Got(file)
      case Retryable => FetchFrom(provider, id, attempt + 1, maxAttempts)
      case Fatal => Raised
  }

  function Fetch(provider: Provider, id: string, maxAttempts: nat): Fetched {
    FetchFrom(provider, id, 1, maxAttempts)
  }

  /** The attempt that ended the loop: every earlier one could be retried. */
  ghost predicate Ends(provider: Provider, id: string, from: nat, k: nat) {
    provider(id, k) != Retryable && forall j :: from <= j < k ==> provider(id, j) == Retryable
  }

  /** Fetching ends with the first attempt that is not a retryable failure, if the policy allows that many. */
  lemma {:induction false} FetchIsFirst(provider: Provider, id: string, from: nat, maxAttempts: nat)
    ensures var r := FetchFrom(provider, id, from, maxAttempts);
      && (r.Exhausted? <==> forall j :: from <= j <= maxAttempts ==> provider(id, j) == Retryable)
      && (r.Got? ==>
           exists k :: from <= k <= maxAttempts && Ends(provider, id, from, k) && provider(id, k) == Arrived(r.file))
      && (r.Raised? ==> exists k :: from <= k <= maxAttempts && Ends(provider, id, from, k) && provider(id, k) == Fatal)
    decreases maxAttempts + 1 - from
  {
    if from <= maxAttempts {
      if provider(id, from) == Retryable {
        FetchIsFirst(provider, id, from + 1, maxAttempts);
        var r := FetchFrom(provider, id, from + 1, maxAttempts);
        if !r.Exhausted? {
          var k :| from + 1 <= k <= maxAttempts && Ends(provider, id, from + 1, k)
                   && provider(id, k) == (if r.Got? then Arrived(r.file) else Fatal);
          assert Ends(provider, id, from, k);
        }
      } else {
        assert Ends(provider, id, from, from);
      }
    }
  }

  function DownloadOf(file: RawFile): Download {
    Download(if IsEmptyRaw(file) then Empty else Complete, Some(RawSha256(file)), |file.bytes|)
  }

  function DownloadOne(p: Progress, id: string, fetched: Fetched, force: bool): (q: Progress)
    requires id in p.state.entries
    ensures q.state.entries.Keys == p.state.entries.Keys
  {
    var s := p.state;
    if !force && AlreadyDownloaded(s.entries[id].download, s.raw, id) then p.(skipped := p.skipped + [id])
    else
      match fetched
      case Got(file) =>
        p.(state := s.(entries := s.entries[id := Entry(DownloadOf(file), PENDING_NORMALIZE)],
          raw := s.raw[id := file]),
           done := p.done + [id])
      case Exhausted =>
        p.(state := s.(entries := s.entries[id := Entry(Download(Failed, None, 0), PENDING_NORMALIZE)]),
          failed := p.failed + [id])
      case Raised => p.(raised := true)
  }

  function DownloadAll(s: State, provider: Provider, maxAttempts: nat, chunks: seq<Chunk>, force: bool): (p: Progress)
    requires HasEntries(s.entries, chunks)
    ensures p.state.entries.Keys == s.entries.Keys
  {
    if chunks == [] then Start(s)
    else
      var n := |chunks| - 1;
      assert forall i :: 0 <= i < n ==> chunks[..n][i] == chunks[i];
      var p := DownloadAll(s, provider, maxAttempts, chunks[..n], force);
      var id := chunks[n].chunkId;
      if p.raised then p else DownloadOne(p, id, Fetch(provider, id, maxAttempts), force)
  }

  // ---------- normalize ----------

  function NormalizedFileOf(ticks: seq<Tick>): NormalizedFile {
    NormalizedFile(NORMALIZED_HEADER, AsLines(ticks))
  }

  predicate NormalizeUpToDate(entry: Entry, normalized: map<string, NormalizedFile>, id: string) {
    var n := entry.normalize;
    && Acquired(n.status)
    && n.rawSha256 == entry.download.sha256
    && n.version == NORMALIZER_VERSION
    && (n.status == Empty || id in normalized)
  }

  function WithNormalize(s: State, id: string, record: NormalizeRecord): (t: State)
    requires id in s.entries
    ensures t.entries.Keys == s.entries.Keys
  {
    s.(entries := s.entries[id := s.entries[id].(normalize := record)])
  }

  function RecordOfRows(window: Window, rows: seq<Row>, rawSha256: Option<RawDigest>): NormalizeRecord {
    var ticks := Normalized(window, rows);
    NormalizeRecord(if ticks == [] then Empty else Complete, rawSha256, NORMALIZER_VERSION,
                    Some(Sha256(NormalizedFileOf(ticks))), |rows|, |Rejections(window, rows)|)
  }

  function NormalizeOne(p: Progress, chunk: Chunk, force: bool): (q: Progress)
    requires chunk.chunkId in p.state.entries
    ensures q.state.entries.Keys == p.state.entries.Keys
  {
    var s, id := p.state, chunk.chunkId;
    var d := s.entries[id].download;
    if !Acquired(d.status) then p.(failed := p.failed + [id])
    else if !force && NormalizeUpToDate(s.entries[id], s.normalized, id) then p.(skipped := p.skipped + [id])
    else if d.status == Empty then
      p.(state := WithNormalize(s, id,
        NormalizeRecord(Empty, d.sha256, NORMALIZER_VERSION, None, 0, 0)).(normalized := s.normalized - {id}),
         done := p.done + [id])
    else if id !in s.raw then p.(raised := true)
    else
      var file := NormalizedFileOf(Normalized(WindowOf(chunk), s.raw[id].rows));
      p.(state := WithNormalize(s, id,
        RecordOfRows(WindowOf(chunk), s.raw[id].rows, d.sha256)).(normalized := s.normalized[id := file]),
         done := p.done + [id])
  }

  function NormalizeAll(s: State, chunks: seq<Chunk>, force: bool): (p: Progress)
    requires HasEntries(s.entries, chunks)
    ensures p.state.entries.Keys == s.entries.Keys
  {
    if chunks == [] then Start(s)
    else
      var n := |chunks| - 1;
      assert forall i :: 0 <= i < n ==> chunks[..n][i] == chunks[i];
      var p := NormalizeAll(s, chunks[..n], force);
      if p.raised then p else NormalizeOne(p, chunks[n], force)
  }

  // ---------- convert ----------

  /** The last validation passed, and the manifest still has the fingerprint it had then. */
  predicate MayConvert(s: State) {
    && s.validation.Some?
    && s.validation.value.verdict != Fail
    && s.validation.value.fingerprint == FingerprintOf(s.entries)
  }

  predicate ConvertUpToDate(s: State, rule: Rule) {
    && s.convert.Some?
    && s.convert.value.fingerprint == FingerprintOf(s.entries)
    && s.convert.value.version == CONVERSION_VERSION
    && s.convert.value.rule == rule
    && forall i :: 0 <= i < |s.convert.value.files| ==> s.convert.value.files[i].name in s.mt5
  }

  /** How a conversion command ends; `Interrupted` is an end forced from outside at any point of the writing. */
  datatype Conversion =
    | NotAllowed
    | Reused
    | Regenerated(files: seq<MonthRecord>, total: nat)
    | Aborted(finished: seq<MonthRecord>)
    | Interrupted(finished: seq<MonthRecord>)

  /** What each ending means for the directory. */
  ghost predicate ConvertStep(s: State, zone: Zone, rule: Rule, prefix: string, chunks: seq<Chunk>, force: bool,
          end: Conversion, t: State) {
    var ticks := AllTicks(s.entries, s.normalized, chunks);
    match end
    case NotAllowed => !MayConvert(s) && t == s
    case Reused => MayConvert(s) && !force && ConvertUpToDate(s, rule) && t == s
    case Regenerated(files, total) =>
      && MayConvert(s) && (force || !ConvertUpToDate(s, rule))
      && Readable(s.entries, s.normalized, chunks)
      && Converted(zone, rule, prefix, ticks, files, total)
      && t == s.(convert := Some(ConvertRecord(FingerprintOf(s.entries), CONVERSION_VERSION, rule, files, total)),
        mt5 := Directory(files), results := s.results - TERMINAL_RESULTS)
    case Aborted(finished) =>
      && MayConvert(s) && (force || !ConvertUpToDate(s, rule))
      && !(Readable(s.entries, s.normalized, chunks) && WallsAscend(zone, rule, ticks))
      && t == s.(mt5 := Directory(finished))
    case Interrupted(finished) =>
      MayConvert(s) && (force || !ConvertUpToDate(s, rule)) && t == s.(mt5 := Directory(finished))
  }

  // ---------- the commands ----------

  /** The directory that the commands change in place. */
  class Store {
    var entries: map<string, Entry>
    var validation: Option<Validation>
    var convert: Option<ConvertRecord>
    var raw: map<string, RawFile>
    var normalized: map<string, NormalizedFile>
    var mt5: map<string, seq<OutLine>>
    var results: map<string, string>

    function Snapshot(): State
      reads this
    {
      State(entries, validation, convert, raw, normalized, mt5, results)
    }

    constructor ()
      ensures Snapshot() == NEW_DATASET
    {
      entries, validation, convert := map[], None, None;
      raw, normalized, mt5, results := map[], map[], map[], map[];
    }

    method EnsureChunkEntries(chunks: seq<Chunk>)
      modifies this
      ensures Snapshot() == old(Snapshot()).(entries := Registered(old(entries), chunks))
    {
      for k := 0 to |chunks|
        invariant Snapshot() == old(Snapshot()).(entries := Registered(old(entries), chunks[..k]))
      {
        assert chunks[..k + 1][..k] == chunks[..k] && chunks[..k + 1][k] == chunks[k];
        if chunks[k].chunkId !in entries {
          entries := entries[chunks[k].chunkId := Entry(PENDING_DOWNLOAD, PENDING_NORMALIZE)];
        }
      }
      assert chunks[..|chunks|] == chunks;
    }

    /** Tries one chunk up to the allowed number of times and records how it ended. */
    method DownloadChunk(provider: Provider, maxAttempts: nat, id: string, force: bool, ghost before: Progress)
      returns (done: bool, skipped: bool, failed: bool, raised: bool)
      requires id in entries && before.state == Snapshot() && !before.raised
      modifies this
      ensures var after := DownloadOne(before, id, Fetch(provider, id, maxAttempts), force);
        && Snapshot() == after.state && raised == after.raised
        && after.done == before.done + (if done then [id] else [])
        && after.skipped == before.skipped + (if skipped then [id] else [])
        && after.failed == before.failed + (if failed then [id] else [])
    {
      done, skipped, failed, raised := false, false, false, false;
      if !force && AlreadyDownloaded(entries[id].download, raw, id) {
        skipped := true;
        return;
      }
      var entry := Entry(PENDING_DOWNLOAD, PENDING_NORMALIZE);
      var attempt := 1;
      while attempt <= maxAttempts
        invariant 1 <= attempt <= maxAttempts + 1
        invariant Fetch(provider, id, maxAttempts) == FetchFrom(provider, id, attempt, maxAttempts)
        invariant Snapshot() == old(Snapshot())
        invariant !done && !skipped && !failed && !raised
      {
        match provider(id, attempt) {
          case Arrived(file) =>
            raw := raw[id := file];
            entry := entry.(download := DownloadOf(file));
            entries := entries[id := entry];
            done := true;
            return;
          case Fatal =>
            raised := true;
            return;
          case Retryable =>
        }
        attempt := attempt + 1;
      }
      entry := entry.(download := Download(Failed, None, 0));
      entries := entries[id := entry];
      failed := true;
    }

    method RunDownload(provider: Provider, maxAttempts: nat, chunks: seq<Chunk>, force: bool)
      returns (done: seq<string>, skipped: seq<string>, failed: seq<string>, raised: bool)
      requires HasEntries(entries, chunks)
      modifies this
      ensures DownloadAll(old(Snapshot()), provider, maxAttempts, chunks, force)
        == Progress(Snapshot(), done, skipped, failed, raised)
    {
      hide DownloadOne, Fetch;
      done, skipped, failed, raised := [], [], [], false;
      ghost var start := Snapshot();
      for k := 0 to |chunks|
        invariant HasEntries(start.entries, chunks[..k]) && !raised
        invariant DownloadAll(start, provider, maxAttempts, chunks[..k], force)
          == Progress(Snapshot(), done, skipped, failed, false)
      {
        assert chunks[..k + 1][..k] == chunks[..k] && chunks[..k + 1][k] == chunks[k];
        var id := chunks[k].chunkId;
        ghost var before := Progress(Snapshot(), done, skipped, failed, false);
        var isDone, isSkipped, isFailed, isRaised := DownloadChunk(provider, maxAttempts, id, force, before);
        done := done + if isDone then [id] else [];
        skipped := skipped + if isSkipped then [id] else [];
        failed := failed + if isFailed then [id] else [];
        if isRaised {
          raised := true;
          RaisedStays(start, provider, maxAttempts, chunks, force, k + 1);
          return;
        }
      }
      assert chunks[..|chunks|] == chunks;
    }

    /** Normalizes one chunk if its raw file is there and it is not up to date. */
    method NormalizeChunk(chunk: Chunk, force: bool, ghost before: Progress) returns (done: bool, skipped: bool,
            failed: bool, raised: bool)
      requires chunk.chunkId in entries && before.state == Snapshot() && !before.raised
      modifies this
      ensures var after, id := NormalizeOne(before, chunk, force), chunk.chunkId;
        && Snapshot() == after.state && raised == after.raised
        && after.done == before.done + (if done then [id] else [])
        && after.skipped == before.skipped + (if skipped then [id] else [])
        && after.failed == before.failed + (if failed then [id] else [])
    {
      done, skipped, failed, raised := false, false, false, false;
      var id := chunk.chunkId;
      var entry := entries[id];
      var d := entry.download;
      if !Acquired(d.status) {
        failed := true;
        return;
      }
      if !force && NormalizeUpToDate(entry, normalized, id) {
        skipped := true;
        return;
      }
      if d.status == Empty {
        normalized := normalized - {id};
        entries := entries[id := entry.(normalize := NormalizeRecord(Empty, d.sha256, NORMALIZER_VERSION, None, 0, 0))];
      } else if id !in raw {
        raised := true;
        return;
      } else {
        var output, stats := NormalizeFile(WindowOf(chunk), raw[id].rows);
        var file := NormalizedFileOf(output);
        normalized := normalized[id := file];
        var status := if stats.ticksOut > 0 then Complete else Empty;
        entries := entries[id := entry.(normalize :=
          NormalizeRecord(status, d.sha256, NORMALIZER_VERSION, Some(Sha256(file)), stats.ticksIn, |stats.rejected|))];
      }
      done := true;
    }

    method RunNormalize(chunks: seq<Chunk>, force: bool)
      returns (done: seq<string>, skipped: seq<string>, failed: seq<string>, raised: bool)
      requires HasEntries(entries, chunks)
      modifies this
      ensures NormalizeAll(old(Snapshot()), chunks, force) == Progress(Snapshot(), done, skipped, failed, raised)
    {
      hide NormalizeOne;
      done, skipped, failed, raised := [], [], [], false;
      ghost var start := Snapshot();
      for k := 0 to |chunks|
        invariant HasEntries(start.entries, chunks[..k]) && !raised
        invariant NormalizeAll(start, chunks[..k], force) == Progress(Snapshot(), done, skipped, failed, false)
      {
        assert chunks[..k + 1][..k] == chunks[..k] && chunks[..k + 1][k] == chunks[k];
        var id := chunks[k].chunkId;
        ghost var before := Progress(Snapshot(), done, skipped, failed, false);
        var isDone, isSkipped, isFailed, isRaised := NormalizeChunk(chunks[k], force, before);
        done := done + if isDone then [id] else [];
        skipped := skipped + if isSkipped then [id] else [];
        failed := failed + if isFailed then [id] else [];
        if isRaised {
          raised := true;
          NormalizeRaisedStays(start, chunks, force, k + 1);
          return;
        }
      }
      assert chunks[..|chunks|] == chunks;
    }

    method RunValidate(policy: V.Policy, symbolMatches: bool, chunks: seq<Chunk>) returns (verdict: Verdict)
      modifies this
      ensures var record := V.ValidationOf(policy, symbolMatches, old(entries), old(normalized), chunks);
        Snapshot() == old(Snapshot()).(validation := Some(record)) && verdict == record.verdict
    {
      var record, _ := V.ValidateDataset(policy, symbolMatches, entries, normalized, chunks);
      validation := Some(record);
      verdict := record.verdict;
    }

    /** Converts if the last validation allows it and there is something to do, undisturbed from outside. */
    method RunConvert(zone: Zone, rule: Rule, prefix: string, chunks: seq<Chunk>, force: bool) returns (end: Conversion)
      modifies this
      ensures ConvertStep(old(Snapshot()), zone, rule, prefix, chunks, force, end, Snapshot()) && !end.Interrupted?
    {
      hide Converted, Readable, WallsAscend, AllTicks, Directory, FingerprintOf, StartsStale;
      if !MayConvert(Snapshot()) {
        return NotAllowed;
      }
      if !force && ConvertUpToDate(Snapshot(), rule) {
        return Reused;
      }
      var outcome, finished := ConvertAll(zone, rule, prefix, entries, normalized, chunks);
      mt5 := Directory(finished);
      if outcome.Done? {
        convert := Some(ConvertRecord(FingerprintOf(entries), CONVERSION_VERSION, rule, outcome.files, outcome.total));
        results := results - TERMINAL_RESULTS;
        end := Regenerated(outcome.files, outcome.total);
      } else {
        end := Aborted(finished);
      }
    }
  }

  lemma {:induction false} NormalizeRaisedStays(s: State, chunks: seq<Chunk>, force: bool, k: nat)
    requires k <= |chunks| && HasEntries(s.entries, chunks) && HasEntries(s.entries, chunks[..k])
    requires NormalizeAll(s, chunks[..k], force).raised
    ensures NormalizeAll(s, chunks, force) == NormalizeAll(s, chunks[..k], force)
    decreases |chunks| - k
  {
    if k == |chunks| {
      assert chunks[..k] == chunks;
    } else {
      assert chunks[..k + 1][..k] == chunks[..k];
      NormalizeRaisedStays(s, chunks, force, k + 1);
    }
  }

  lemma {:induction false} RaisedStays(s: State, provider: Provider, maxAttempts: nat, chunks: seq<Chunk>,
          force: bool, k: nat)
    requires k <= |chunks| && HasEntries(s.entries, chunks) && HasEntries(s.entries, chunks[..k])
    requires DownloadAll(s, provider, maxAttempts, chunks[..k], force).raised
    ensures DownloadAll(s, provider, maxAttempts, chunks, force)
      == DownloadAll(s, provider, maxAttempts, chunks[..k], force)
    decreases |chunks| - k
  {
    if k == |chunks| {
      assert chunks[..k] == chunks;
    } else {
      assert chunks[..k + 1][..k] == chunks[..k];
      RaisedStays(s, provider, maxAttempts, chunks, force, k + 1);
    }
  }

  // ---------- running a stage again ----------

  function Ids(chunks: seq<Chunk>): (ids: seq<string>)
    ensures |ids| == |chunks|
  {
    seq(|chunks|, i requires 0 <= i < |chunks| => chunks[i].chunkId)
  }

  lemma IdsSnoc(chunks: seq<Chunk>)
    requires chunks != []
    ensures Ids(chunks) == Ids(chunks[..|chunks| - 1]) + [chunks[|chunks| - 1].chunkId]
  {}

  ghost predicate Downloaded(s: State, id: string) {
    id in s.entries && AlreadyDownloaded(s.entries[id].download, s.raw, id)
  }

  lemma {:induction false} DownloadKeeps(s: State, provider: Provider, maxAttempts: nat, chunks: seq<Chunk>,
          force: bool, id: string)
    requires HasEntries(s.entries, chunks)
    requires var p := DownloadAll(s, provider, maxAttempts, chunks, force); !p.raised && p.failed == []
    requires Downloaded(s, id) || id in Ids(chunks)
    ensures Downloaded(DownloadAll(s, provider, maxAttempts, chunks, force).state, id)
  {
    if chunks != [] {
      var n := |chunks| - 1;
      assert forall i :: 0 <= i < n ==> chunks[..n][i] == chunks[i];
      IdsSnoc(chunks);
      var p, last := DownloadAll(s, provider, maxAttempts, chunks[..n], force), chunks[n].chunkId;
      DownloadOneKeeps(p, last, Fetch(provider, last, maxAttempts), force, id);
      hide DownloadOne, Downloaded, Fetch, Ids;
      if Downloaded(s, id) || id in Ids(chunks[..n]) {
        DownloadKeeps(s, provider, maxAttempts, chunks[..n], force, id);
      }
    }
  }

  lemma DownloadOneKeeps(p: Progress, last: string, fetched: Fetched, force: bool, id: string)
    requires last in p.state.entries
    ensures var q := DownloadOne(p, last, fetched, force);
      !q.raised && q.failed == [] ==>
        p.failed == [] && (Downloaded(p.state, id) || id == last ==> Downloaded(q.state, id))
  {
    hide IsEmptyRaw;
  }

  lemma {:induction false} AllSkipped(s: State, provider: Provider, maxAttempts: nat, chunks: seq<Chunk>)
    requires HasEntries(s.entries, chunks)
    requires forall i :: 0 <= i < |chunks| ==> Downloaded(s, chunks[i].chunkId)
    ensures DownloadAll(s, provider, maxAttempts, chunks, false) == Progress(s, [], Ids(chunks), [], false)
  {
    if chunks != [] {
      var n := |chunks| - 1;
      assert forall i :: 0 <= i < n ==> chunks[..n][i] == chunks[i];
      IdsSnoc(chunks);
      AllSkipped(s, provider, maxAttempts, chunks[..n]);
    }
  }

  /** After a download that failed nowhere, another one fetches nothing and changes nothing. */
  lemma DownloadResumes(s: State, provider: Provider, maxAttempts: nat, chunks: seq<Chunk>, force: bool,
          again: Provider, maxAgain: nat)
    requires HasEntries(s.entries, chunks)
    requires var p := DownloadAll(s, provider, maxAttempts, chunks, force); !p.raised && p.failed == []
    ensures var t := DownloadAll(s, provider, maxAttempts, chunks, force).state;
      DownloadAll(t, again, maxAgain, chunks, false) == Progress(t, [], Ids(chunks), [], false)
  {
    forall i | 0 <= i < |chunks|
      ensures Downloaded(DownloadAll(s, provider, maxAttempts, chunks, force).state, chunks[i].chunkId)
    {
      assert Ids(chunks)[i] == chunks[i].chunkId;
      DownloadKeeps(s, provider, maxAttempts, chunks, force, chunks[i].chunkId);
    }
    AllSkipped(DownloadAll(s, provider, maxAttempts, chunks, force).state, again, maxAgain, chunks);
  }

  /** After a download that failed nowhere every chunk is settled, and a complete one's file is there in full. */
  lemma DownloadLeaves(s: State, provider: Provider, maxAttempts: nat, chunks: seq<Chunk>, force: bool, i: nat)
    requires HasEntries(s.entries, chunks) && i < |chunks|
    requires var p := DownloadAll(s, provider, maxAttempts, chunks, force); !p.raised && p.failed == []
    ensures var t, id := DownloadAll(s, provider, maxAttempts, chunks, force).state, chunks[i].chunkId;
      && id in t.entries
      && var d := t.entries[id].download;
         (d.status == Empty || d.status == Complete)
         && (d.status == Complete ==> id in t.raw && |t.raw[id].bytes| == d.bytes)
  {
    assert Ids(chunks)[i] == chunks[i].chunkId;
    DownloadKeeps(s, provider, maxAttempts, chunks, force, chunks[i].chunkId);
  }

  /** Nothing of chunks outside the plan changes. */
  lemma {:induction false} DownloadTouchesOnly(s: State, provider: Provider, maxAttempts: nat, chunks: seq<Chunk>,
          force: bool, id: string)
    requires HasEntries(s.entries, chunks) && id !in Ids(chunks)
    ensures var p := DownloadAll(s, provider, maxAttempts, chunks, force);
      && SameAt(s, p.state, id)
      && id !in p.done && id !in p.skipped && id !in p.failed
  {
    hide Fetch, DownloadOne, SameAt, Ids;
    if chunks != [] {
      var n := |chunks| - 1;
      assert forall i :: 0 <= i < n ==> chunks[..n][i] == chunks[i];
      IdsSnoc(chunks);
      DownloadTouchesOnly(s, provider, maxAttempts, chunks[..n], force, id);
      var p, last := DownloadAll(s, provider, maxAttempts, chunks[..n], force), chunks[n].chunkId;
      OneTouchesOnly(p, last, Fetch(provider, last, maxAttempts), force, id);
      SameTransitive(s, p.state, DownloadAll(s, provider, maxAttempts, chunks, force).state, id);
    } else {
      SameReflexive(s, id);
    }
  }

  lemma SameReflexive(s: State, id: string)
    ensures SameAt(s, s, id)
  {}

  lemma SameTransitive(s: State, t: State, u: State, id: string)
    requires SameAt(s, t, id)
    ensures SameAt(t, u, id) ==> SameAt(s, u, id)
  {}

  lemma OneTouchesOnly(p: Progress, other: string, fetched: Fetched, force: bool, id: string)
    requires other in p.state.entries && other != id
    ensures var q := DownloadOne(p, other, fetched, force);
      && SameAt(p.state, q.state, id) && SameAt(p.state, p.state, id)
      && (id in q.done <==> id in p.done) && (id in q.skipped <==> id in p.skipped)
      && (id in q.failed <==> id in p.failed)
  {
    hide AlreadyDownloaded, IsEmptyRaw;
  }

  ghost predicate SameAt(s: State, t: State, id: string) {
    && (id in s.entries <==> id in t.entries) && (id in s.entries ==> t.entries[id] == s.entries[id])
    && (id in s.raw <==> id in t.raw) && (id in s.raw ==> t.raw[id] == s.raw[id])
  }

  ghost predicate DistinctIds(chunks: seq<Chunk>) {
    forall i, j :: 0 <= i < j < |chunks| ==> chunks[i].chunkId != chunks[j].chunkId
  }

  /** What a download without force leaves alone: a chunk known to be empty, or one whose file is there in full. */
  ghost predicate IsThere(s: State, id: string) {
    id in s.entries
    && var d := s.entries[id].download;
       d.status == Empty || (d.status == Complete && id in s.raw && |s.raw[id].bytes| == d.bytes)
  }

  /** How a download that did not raise ends for one chunk of its plan. */
  ghost predicate Outcome(s: State, p: Progress, provider: Provider, maxAttempts: nat, force: bool, id: string) {
    && (id in p.skipped <==> !force && IsThere(s, id))
    && (id in p.skipped ==> SameAt(s, p.state, id))
    && (id in p.failed <==> id !in p.skipped && forall k :: 1 <= k <= maxAttempts ==> provider(id, k) == Retryable)
    && (id in p.failed ==>
         && id in p.state.entries && p.state.entries[id].download.status == Failed
         && p.state.entries[id].normalize == PENDING_NORMALIZE
         && (id in p.state.raw <==> id in s.raw) && (id in s.raw ==> p.state.raw[id] == s.raw[id]))
    && (id in p.done <==> id !in p.skipped && id !in p.failed)
    && (id in p.done ==>
         && id in p.state.raw && Delivered(provider, maxAttempts, id, p.state.raw[id])
         && id in p.state.entries && p.state.entries[id].normalize == PENDING_NORMALIZE
         && var d, file := p.state.entries[id].download, p.state.raw[id];
            d.sha256 == Some(RawSha256(file)) && d.bytes == |file.bytes|
            && d.status == if IsEmptyRaw(file) then Empty else Complete)
  }

  /** The file is what the first attempt without a retryable failure brought. */
  ghost predicate Delivered(provider: Provider, maxAttempts: nat, id: string, file: RawFile) {
    exists k :: 1 <= k <= maxAttempts && Ends(provider, id, 1, k) && provider(id, k) == Arrived(file)
  }

  lemma OneOutcome(p: Progress, provider: Provider, maxAttempts: nat, id: string, force: bool)
    requires id in p.state.entries && !p.raised
    requires id !in p.done && id !in p.skipped && id !in p.failed
    ensures var q := DownloadOne(p, id, Fetch(provider, id, maxAttempts), force);
      q.raised || Outcome(p.state, q, provider, maxAttempts, force, id)
  {
    FetchIsFirst(provider, id, 1, maxAttempts);
    var r := Fetch(provider, id, maxAttempts);
    if r.Got? {
      assert Delivered(provider, maxAttempts, id, r.file);
    }
    hide FetchFrom, Ends, IsEmptyRaw, Delivered;
    assert !r.Exhausted? ==> exists k :: 1 <= k <= maxAttempts && provider(id, k) != Retryable;
  }

  /** Every chunk of a plan with distinct ids ends as the provider and the state it started from decide. */
  lemma {:induction false} DownloadOutcome(s: State, provider: Provider, maxAttempts: nat, chunks: seq<Chunk>,
          force: bool, i: nat)
    requires HasEntries(s.entries, chunks) && DistinctIds(chunks) && i < |chunks|
    requires !DownloadAll(s, provider, maxAttempts, chunks, force).raised
    ensures Outcome(s, DownloadAll(s, provider, maxAttempts, chunks, force), provider, maxAttempts, force,
              chunks[i].chunkId)
  {
    var n := |chunks| - 1;
    var id, last := chunks[i].chunkId, chunks[n].chunkId;
    assert forall j :: 0 <= j < n ==> chunks[..n][j] == chunks[j];
    var p := DownloadAll(s, provider, maxAttempts, chunks[..n], force);
    DownloadSnoc(s, provider, maxAttempts, chunks, force);
    hide DownloadAll, DownloadOne, Fetch, Outcome, Ids, SameAt;
    if i < n {
      DownloadOutcome(s, provider, maxAttempts, chunks[..n], force, i);
      OtherOutcome(s, p, provider, maxAttempts, last, force, id);
    } else {
      NotInIds(chunks[..n], id);
      DownloadTouchesOnly(s, provider, maxAttempts, chunks[..n], force, id);
      OneOutcome(p, provider, maxAttempts, id, force);
      OutcomeFrom(s, p.state, DownloadAll(s, provider, maxAttempts, chunks, force), provider, maxAttempts, force, id);
    }
  }

  lemma DownloadSnoc(s: State, provider: Provider, maxAttempts: nat, chunks: seq<Chunk>, force: bool)
    requires HasEntries(s.entries, chunks) && chunks != []
    requires !DownloadAll(s, provider, maxAttempts, chunks, force).raised
    ensures var n := |chunks| - 1;
      && HasEntries(s.entries, chunks[..n])
      && var p, last := DownloadAll(s, provider, maxAttempts, chunks[..n], force), chunks[n].chunkId;
         !p.raised && last in p.state.entries
         && DownloadAll(s, provider, maxAttempts, chunks, force)
            == DownloadOne(p, last, Fetch(provider, last, maxAttempts), force)
  {
    var n := |chunks| - 1;
    assert forall j :: 0 <= j < n ==> chunks[..n][j] == chunks[j];
    hide DownloadOne, Fetch;
  }

  lemma NotInIds(chunks: seq<Chunk>, id: string)
    requires forall j :: 0 <= j < |chunks| ==> chunks[j].chunkId != id
    ensures id !in Ids(chunks)
  {}

  lemma OtherOutcome(s: State, p: Progress, provider: Provider, maxAttempts: nat, other: string, force: bool,
          id: string)
    requires other in p.state.entries && other != id && Outcome(s, p, provider, maxAttempts, force, id)
    ensures var q := DownloadOne(p, other, Fetch(provider, other, maxAttempts), force);
      Outcome(s, q, provider, maxAttempts, force, id)
  {
    OneTouchesOnly(p, other, Fetch(provider, other, maxAttempts), force, id);
    hide Fetch, Delivered, IsEmptyRaw, DownloadOne, IsThere;
  }

  lemma OutcomeFrom(s: State, t: State, p: Progress, provider: Provider, maxAttempts: nat, force: bool, id: string)
    requires SameAt(s, t, id) && Outcome(t, p, provider, maxAttempts, force, id)
    ensures Outcome(s, p, provider, maxAttempts, force, id)
  {
    hide Delivered, IsEmptyRaw;
  }

  ghost predicate UpToDate(s: State, id: string) {
    id in s.entries && Acquired(s.entries[id].download.status) && NormalizeUpToDate(s.entries[id], s.normalized, id)
  }

  lemma NormalizeOneKeeps(p: Progress, chunk: Chunk, force: bool, id: string)
    requires chunk.chunkId in p.state.entries
    ensures var q := NormalizeOne(p, chunk, force);
      && (q.raised == p.raised == false && q.failed == [] ==>
        p.failed == [] && (UpToDate(p.state, id) || id == chunk.chunkId ==> UpToDate(q.state, id)))
  {
    hide Normalized, Rejections, NormalizedFileOf;
  }

  lemma {:induction false} NormalizeKeeps(s: State, chunks: seq<Chunk>, force: bool, id: string)
    requires HasEntries(s.entries, chunks)
    requires var p := NormalizeAll(s, chunks, force); !p.raised && p.failed == []
    requires UpToDate(s, id) || id in Ids(chunks)
    ensures UpToDate(NormalizeAll(s, chunks, force).state, id)
  {
    if chunks != [] {
      var n := |chunks| - 1;
      assert forall i :: 0 <= i < n ==> chunks[..n][i] == chunks[i];
      IdsSnoc(chunks);
      var p := NormalizeAll(s, chunks[..n], force);
      NormalizeOneKeeps(p, chunks[n], force, id);
      hide NormalizeOne, UpToDate;
      if UpToDate(s, id) || id in Ids(chunks[..n]) {
        NormalizeKeeps(s, chunks[..n], force, id);
      }
    }
  }

  lemma {:induction false} NoneStale(s: State, chunks: seq<Chunk>)
    requires HasEntries(s.entries, chunks)
    requires forall i :: 0 <= i < |chunks| ==> UpToDate(s, chunks[i].chunkId)
    ensures NormalizeAll(s, chunks, false) == Progress(s, [], Ids(chunks), [], false)
  {
    if chunks != [] {
      var n := |chunks| - 1;
      assert forall i :: 0 <= i < n ==> chunks[..n][i] == chunks[i];
      IdsSnoc(chunks);
      NoneStale(s, chunks[..n]);
    }
  }

  /** After a normalization that failed nowhere, another one rewrites nothing. */
  lemma NormalizeResumes(s: State, chunks: seq<Chunk>, force: bool)
    requires HasEntries(s.entries, chunks)
    requires var p := NormalizeAll(s, chunks, force); !p.raised && p.failed == []
    ensures var t := NormalizeAll(s, chunks, force).state;
      NormalizeAll(t, chunks, false) == Progress(t, [], Ids(chunks), [], false)
  {
    forall i | 0 <= i < |chunks|
      ensures UpToDate(NormalizeAll(s, chunks, force).state, chunks[i].chunkId)
    {
      assert Ids(chunks)[i] == chunks[i].chunkId;
      NormalizeKeeps(s, chunks, force, chunks[i].chunkId);
    }
    NoneStale(NormalizeAll(s, chunks, force).state, chunks);
  }

  /** After a normalization that failed nowhere every chunk is normalized from the raw file recorded now. */
  lemma NormalizeLeaves(s: State, chunks: seq<Chunk>, force: bool, i: nat)
    requires HasEntries(s.entries, chunks) && i < |chunks|
    requires var p := NormalizeAll(s, chunks, force); !p.raised && p.failed == []
    ensures var t, id := NormalizeAll(s, chunks, force).state, chunks[i].chunkId;
      && id in t.entries
      && var d, n := t.entries[id].download, t.entries[id].normalize;
         (n.status == Empty || n.status == Complete) && (d.status == Empty || d.status == Complete)
         && n.rawSha256 == d.sha256 && n.version == NORMALIZER_VERSION
         && (n.status == Complete ==> id in t.normalized)
  {
    assert Ids(chunks)[i] == chunks[i].chunkId;
    NormalizeKeeps(s, chunks, force, chunks[i].chunkId);
  }

  /** The chunk's record, its raw file and its normalized file are the same in both states. */
  ghost predicate SameFilesAt(s: State, t: State, id: string) {
    && SameAt(s, t, id)
    && (id in s.normalized <==> id in t.normalized) && (id in s.normalized ==> t.normalized[id] == s.normalized[id])
  }

  /** What a normalization without force leaves alone. */
  ghost predicate IsCurrent(s: State, id: string) {
    id in s.entries
    && var d, n := s.entries[id].download, s.entries[id].normalize;
       n.rawSha256 == d.sha256 && n.version == NORMALIZER_VERSION
       && (n.status == Empty || (n.status == Complete && id in s.normalized))
  }

  /** The chunk is recorded and stored as the normalized form of its raw file. */
  ghost predicate IsNormalized(s: State, chunk: Chunk) {
    var id := chunk.chunkId;
    id in s.entries
    && var d, n := s.entries[id].download, s.entries[id].normalize;
       if d.status == Empty then
         id !in s.normalized && n == NormalizeRecord(Empty, d.sha256, NORMALIZER_VERSION, None, 0, 0)
       else
         id in s.raw
         && var rows := s.raw[id].rows;
            var ticks := Normalized(WindowOf(chunk), rows);
            && id in s.normalized && s.normalized[id] == NormalizedFile(NORMALIZED_HEADER, AsLines(ticks))
            && n.status == (if ticks == [] then Empty else Complete)
            && n.rawSha256 == d.sha256 && n.version == NORMALIZER_VERSION
            && n.sha256 == Some(Sha256(s.normalized[id]))
            && n.ticksIn == |rows| && n.rejected == |Rejections(WindowOf(chunk), rows)|
  }

  /** How a normalization that did not raise ends for one chunk of its plan. */
  ghost predicate NormalOutcome(s: State, p: Progress, chunk: Chunk, force: bool)
    requires chunk.chunkId in s.entries
  {
    var id := chunk.chunkId;
    var status := s.entries[id].download.status;
    && (id in p.failed <==> status == Pending || status == Failed)
    && (id in p.skipped <==> id !in p.failed && !force && IsCurrent(s, id))
    && (id in p.done <==> id !in p.failed && id !in p.skipped)
    && (id in p.failed || id in p.skipped ==> SameFilesAt(s, p.state, id))
    && (id in p.done ==>
         && IsNormalized(p.state, chunk)
         && p.state.entries[id].download == s.entries[id].download
         && (id in s.raw <==> id in p.state.raw) && (id in s.raw ==> p.state.raw[id] == s.raw[id]))
  }

  lemma OneNormalOutcome(p: Progress, chunk: Chunk, force: bool)
    requires var id := chunk.chunkId; id in p.state.entries && id !in p.done && id !in p.skipped && id !in p.failed
    requires !p.raised
    ensures var q := NormalizeOne(p, chunk, force);
      q.raised || NormalOutcome(p.state, q, chunk, force)
  {
    hide Normalized, Rejections, AsLines;
  }

  lemma OneNormalizesOnly(p: Progress, other: Chunk, force: bool, id: string)
    requires other.chunkId in p.state.entries && other.chunkId != id
    ensures var q := NormalizeOne(p, other, force);
      && SameFilesAt(p.state, q.state, id)
      && (id in q.done <==> id in p.done) && (id in q.skipped <==> id in p.skipped)
      && (id in q.failed <==> id in p.failed)
  {
    hide NormalizeUpToDate, Normalized, RecordOfRows, NormalizedFileOf, SameFilesAt;
    var s, t := p.state, NormalizeOne(p, other, force).state;
    assert t.raw == s.raw && t.entries.Keys == s.entries.Keys;
    assert id in s.entries ==> t.entries[id] == s.entries[id];
    assert id in s.normalized <==> id in t.normalized;
    SameFilesIs(s, t, id);
  }

  lemma SameFilesIs(s: State, t: State, id: string)
    requires t.raw == s.raw && t.entries.Keys == s.entries.Keys
    requires id in s.entries ==> t.entries[id] == s.entries[id]
    requires id in s.normalized <==> id in t.normalized
    requires id in s.normalized ==> t.normalized[id] == s.normalized[id]
    ensures SameFilesAt(s, t, id)
  {}

  lemma SameFilesTransitive(s: State, t: State, u: State, id: string)
    ensures SameFilesAt(s, s, id)
    ensures SameFilesAt(s, t, id) && SameFilesAt(t, u, id) ==> SameFilesAt(s, u, id)
  {}

  lemma {:induction false} NormalizeTouchesOnly(s: State, chunks: seq<Chunk>, force: bool, id: string)
    requires HasEntries(s.entries, chunks) && id !in Ids(chunks)
    ensures var p := NormalizeAll(s, chunks, force);
      SameFilesAt(s, p.state, id) && id !in p.done && id !in p.skipped && id !in p.failed
  {
    hide NormalizeOne, SameFilesAt, Ids;
    if chunks != [] {
      var n := |chunks| - 1;
      assert forall i :: 0 <= i < n ==> chunks[..n][i] == chunks[i];
      IdsSnoc(chunks);
      NormalizeTouchesOnly(s, chunks[..n], force, id);
      var p := NormalizeAll(s, chunks[..n], force);
      OneNormalizesOnly(p, chunks[n], force, id);
      SameFilesTransitive(s, p.state, NormalizeAll(s, chunks, force).state, id);
    } else {
      SameFilesTransitive(s, s, s, id);
    }
  }

  lemma NormalizeSnoc(s: State, chunks: seq<Chunk>, force: bool)
    requires HasEntries(s.entries, chunks) && chunks != [] && !NormalizeAll(s, chunks, force).raised
    ensures var n := |chunks| - 1;
      && HasEntries(s.entries, chunks[..n])
      && var p := NormalizeAll(s, chunks[..n], force);
         !p.raised && chunks[n].chunkId in p.state.entries
         && NormalizeAll(s, chunks, force) == NormalizeOne(p, chunks[n], force)
  {
    var n := |chunks| - 1;
    assert forall j :: 0 <= j < n ==> chunks[..n][j] == chunks[j];
    hide NormalizeOne;
  }

  /** Every chunk of a plan with distinct ids ends as the state the normalization started from decides. */
  lemma {:induction false} NormalizeOutcome(s: State, chunks: seq<Chunk>, force: bool, i: nat)
    requires HasEntries(s.entries, chunks) && DistinctIds(chunks) && i < |chunks|
    requires !NormalizeAll(s, chunks, force).raised
    ensures NormalOutcome(s, NormalizeAll(s, chunks, force), chunks[i], force)
  {
    var n := |chunks| - 1;
    assert forall j :: 0 <= j < n ==> chunks[..n][j] == chunks[j];
    var p := NormalizeAll(s, chunks[..n], force);
    NormalizeSnoc(s, chunks, force);
    hide NormalizeAll, NormalizeOne, NormalOutcome, Ids, SameFilesAt;
    if i < n {
      NormalizeOutcome(s, chunks[..n], force, i);
      OtherNormalOutcome(s, p, chunks[n], force, chunks[i]);
    } else {
      NotInIds(chunks[..n], chunks[n].chunkId);
      NormalizeTouchesOnly(s, chunks[..n], force, chunks[n].chunkId);
      OneNormalOutcome(p, chunks[n], force);
      NormalOutcomeFrom(s, p.state, NormalizeAll(s, chunks, force), chunks[n], force);
    }
  }

  lemma OtherNormalOutcome(s: State, p: Progress, other: Chunk, force: bool, chunk: Chunk)
    requires other.chunkId in p.state.entries && chunk.chunkId in s.entries && other.chunkId != chunk.chunkId
    requires NormalOutcome(s, p, chunk, force)
    ensures NormalOutcome(s, NormalizeOne(p, other, force), chunk, force)
  {
    OneNormalizesOnly(p, other, force, chunk.chunkId);
    SameFilesTransitive(s, p.state, NormalizeOne(p, other, force).state, chunk.chunkId);
    hide NormalizeOne, Normalized, Rejections, AsLines, IsCurrent;
  }

  lemma NormalOutcomeFrom(s: State, t: State, p: Progress, chunk: Chunk, force: bool)
    requires chunk.chunkId in s.entries && SameFilesAt(s, t, chunk.chunkId) && NormalOutcome(t, p, chunk, force)
    ensures NormalOutcome(s, p, chunk, force)
  {
    hide IsNormalized;
  }

  lemma DownloadOneReports(p: Progress, id: string, fetched: Fetched, force: bool)
    requires id in p.state.entries
    ensures var q := DownloadOne(p, id, fetched, force);
      q.raised || multiset(q.done) + multiset(q.skipped) + multiset(q.failed)
                  == multiset(p.done) + multiset(p.skipped) + multiset(p.failed) + multiset{id}
  {}

  /** Every chunk is reported once: as done, skipped or failed. */
  lemma {:induction false} DownloadReportsAll(s: State, provider: Provider, maxAttempts: nat, chunks: seq<Chunk>,
          force: bool)
    requires HasEntries(s.entries, chunks)
    requires !DownloadAll(s, provider, maxAttempts, chunks, force).raised
    ensures var p := DownloadAll(s, provider, maxAttempts, chunks, force);
      multiset(p.done) + multiset(p.skipped) + multiset(p.failed) == multiset(Ids(chunks))
  {
    if chunks != [] {
      var n := |chunks| - 1;
      assert forall i :: 0 <= i < n ==> chunks[..n][i] == chunks[i];
      IdsSnoc(chunks);
      DownloadReportsAll(s, provider, maxAttempts, chunks[..n], force);
      var p := DownloadAll(s, provider, maxAttempts, chunks[..n], force);
      DownloadOneReports(p, chunks[n].chunkId, Fetch(provider, chunks[n].chunkId, maxAttempts), force);
      hide DownloadOne, Fetch, Ids;
    }
  }
}
