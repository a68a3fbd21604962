/** What a validation's report says, from the manifest, the files and the ticks alone. */
module Report {
  import opened Text
  import opened Ticks
  import opened Calendar
  import opened Chunks
  import opened Dataset
  import opened Validate

  // ---------- what the counters and the warnings mean, for a sound dataset ----------

  /** Some Saturday noon lies in the interval; 3 January 1970, day 2, was a Saturday. */
  ghost predicate WeekendBetween(fromMs: int, toMs: int) {
    exists week: int :: fromMs <= NoonOfWeek(week) <= toMs
  }

  ghost function NoonOfWeek(week: int): int {
    week * 604_800_000 + 216_000_000
  }

  /** Tick `i` equals the tick before it. */
  ghost predicate RepeatAt(ticks: seq<Tick>, i: int)
    requires 0 < i < |ticks|
  {
    ticks[i] == ticks[i - 1]
  }

  /** Tick `i` comes too long after a different one, with no weekend between. */
  ghost predicate GapAt(policy: Policy, ticks: seq<Tick>, i: int)
    requires 0 < i < |ticks|
  {
    var a, b := ticks[i - 1], ticks[i];
    && a != b
    && b.timestampMs - a.timestampMs > policy.maxGapMs
    && !WeekendBetween(a.timestampMs, b.timestampMs)
  }

  /** The mid price moves by more than the allowed share of the one before. */
  ghost predicate JumpAt(policy: Policy, ticks: seq<Tick>, i: int)
    requires 0 < i < |ticks|
  {
    var a, b := ticks[i - 1], ticks[i];
    && a != b
    && IsValid(a) && IsValid(b)
    && var before, after := (a.bid.v + a.ask.v) / 2.0, (b.bid.v + b.ask.v) / 2.0;
       after - before > policy.maxJumpRatio * before || before - after > policy.maxJumpRatio * before
  }

  ghost function Repeats(ticks: seq<Tick>): set<int> {
    set i | 0 < i < |ticks| && RepeatAt(ticks, i)
  }

  ghost function Gaps(policy: Policy, ticks: seq<Tick>): set<int> {
    set i | 0 < i < |ticks| && GapAt(policy, ticks, i)
  }

  ghost function Jumps(policy: Policy, ticks: seq<Tick>): set<int> {
    set i | 0 < i < |ticks| && JumpAt(policy, ticks, i)
  }

  lemma SpansIsWeekend(fromMs: int, toMs: int)
    ensures SpansWeekend(fromMs, toMs) <==> WeekendBetween(fromMs, toMs)
  {
    if SpansWeekend(fromMs, toMs) {
      var day :| IsSaturday(day) && fromMs <= NoonOf(day) <= toMs;
      assert NoonOf(day) == NoonOfWeek((day - 2) / 7);
    }
    if WeekendBetween(fromMs, toMs) {
      var week :| fromMs <= NoonOfWeek(week) <= toMs;
      var day := week * 7 + 2;
      assert NoonOf(day) == NoonOfWeek(week) && IsSaturday(day);
      assert fromMs / MS_PER_DAY <= day <= toMs / MS_PER_DAY;
    }
  }

  lemma RatioExceeds(after: real, before: real, ratio: real)
    requires before > 0.0
    ensures Abs(after / before - 1.0) > ratio <==> after - before > ratio * before || before - after > ratio * before
  {
    var q := after / before - 1.0;
    assert q * before == after - before;
    Cancels(q, ratio, before);
    Cancels(-q, ratio, before);
    assert (-q) * before == before - after;
  }

  lemma Cancels(a: real, b: real, c: real)
    requires c > 0.0
    ensures a > b <==> a * c > b * c
  {
    if a > b {
      assert (a - b) * c > 0.0;
    } else {
      assert (b - a) * c >= 0.0;
    }
  }

  lemma ComparisonMeasures(c: Counters, policy: Policy, ticks: seq<Tick>, tick: Tick)
    requires ticks != [] && IsValid(ticks[|ticks| - 1]) && IsValid(tick)
      && ticks[|ticks| - 1].timestampMs <= tick.timestampMs
    ensures var c' := Compare(c, policy, ticks[|ticks| - 1], tick);
      var n, all := |ticks|, ticks + [tick];
      && c'.duplicates == c.duplicates + (if RepeatAt(all, n) then 1 else 0)
      && c'.gaps == c.gaps + (if GapAt(policy, all, n) then 1 else 0)
      && c'.jumps == c.jumps + (if JumpAt(policy, all, n) then 1 else 0)
      && c' == c.(duplicates := c'.duplicates, gaps := c'.gaps, jumps := c'.jumps)
  {
    var a := ticks[|ticks| - 1];
    SpansIsWeekend(a.timestampMs, tick.timestampMs);
    RatioExceeds(Mid(tick), Mid(a), policy.maxJumpRatio);
    hide Abs, SpansWeekend, WeekendBetween;
  }

  /** The counters of a clean pass, from the stream alone. */
  ghost predicate Measures(c: Counters, policy: Policy, ticks: seq<Tick>) {
    && c.duplicates == |Repeats(ticks)|
    && c.gaps == |Gaps(policy, ticks)|
    && c.jumps == |Jumps(policy, ticks)|
    && c.firstMs == (if ticks == [] then None else Some(ticks[0].timestampMs))
    && c.lastMs == (if ticks == [] then None else Some(ticks[|ticks| - 1].timestampMs))
    && c.previous == (if ticks == [] then None else Some(ticks[|ticks| - 1]))
  }

  lemma SetsSnoc(policy: Policy, ticks: seq<Tick>, tick: Tick)
    requires ticks != []
    ensures var n, all := |ticks|, ticks + [tick];
      && |Repeats(all)| == |Repeats(ticks)| + (if RepeatAt(all, n) then 1 else 0)
      && |Gaps(policy, all)| == |Gaps(policy, ticks)| + (if GapAt(policy, all, n) then 1 else 0)
      && |Jumps(policy, all)| == |Jumps(policy, ticks)| + (if JumpAt(policy, all, n) then 1 else 0)
  {
    hide Repeats, Gaps, Jumps;
    RepeatsSnoc(ticks, tick);
    GapsSnoc(policy, ticks, tick);
    JumpsSnoc(policy, ticks, tick);
  }

  lemma RepeatsSnoc(ticks: seq<Tick>, tick: Tick)
    ensures var n, all := |ticks|, ticks + [tick];
      |Repeats(all)| == |Repeats(ticks)| + if n > 0 && RepeatAt(all, n) then 1 else 0
  {
    var n, all := |ticks|, ticks + [tick];
    assert forall i :: 0 < i < n ==> (RepeatAt(all, i) <==> RepeatAt(ticks, i));
    hide RepeatAt;
    assert Repeats(all) == Repeats(ticks) + if n > 0 && RepeatAt(all, n) then {n} else {};
  }

  lemma GapsSnoc(policy: Policy, ticks: seq<Tick>, tick: Tick)
    ensures var n, all := |ticks|, ticks + [tick];
      |Gaps(policy, all)| == |Gaps(policy, ticks)| + if n > 0 && GapAt(policy, all, n) then 1 else 0
  {
    var n, all := |ticks|, ticks + [tick];
    hide WeekendBetween;
    assert forall i :: 0 < i < n ==> (GapAt(policy, all, i) <==> GapAt(policy, ticks, i));
    hide GapAt;
    assert Gaps(policy, all) == Gaps(policy, ticks) + if n > 0 && GapAt(policy, all, n) then {n} else {};
  }

  lemma JumpsSnoc(policy: Policy, ticks: seq<Tick>, tick: Tick)
    ensures var n, all := |ticks|, ticks + [tick];
      |Jumps(policy, all)| == |Jumps(policy, ticks)| + if n > 0 && JumpAt(policy, all, n) then 1 else 0
  {
    var n, all := |ticks|, ticks + [tick];
    forall i | 0 < i < n
      ensures JumpAt(policy, all, i) <==> JumpAt(policy, ticks, i)
    {
      JumpIsLocal(policy, all, ticks, i);
    }
    hide JumpAt;
    assert Jumps(policy, all) == Jumps(policy, ticks) + if n > 0 && JumpAt(policy, all, n) then {n} else {};
  }

  lemma JumpIsLocal(policy: Policy, a: seq<Tick>, b: seq<Tick>, i: int)
    requires 0 < i < |a| && i < |b| && a[i] == b[i] && a[i - 1] == b[i - 1]
    ensures JumpAt(policy, a, i) <==> JumpAt(policy, b, i)
  {
    hide IsValid;
  }

  lemma OneTick(policy: Policy, ticks: seq<Tick>)
    requires |ticks| <= 1
    ensures Repeats(ticks) == {} && Gaps(policy, ticks) == {} && Jumps(policy, ticks) == {}
  {}

  lemma LineMeasures(c: Checked, policy: Policy, window: Window, line: Line, ticks: seq<Tick>)
    requires Measures(c, policy, ticks) && Clean(CheckLine(c, policy, window, line))
    ensures line.TickLine?
    ensures Measures(CheckLine(c, policy, window, line), policy, ticks + [line.tick])
    ensures CheckLine(c, policy, window, line).warnings == c.warnings
  {
    LineErrors(c, policy, window, line);
    var tick := line.tick;
    if ticks == [] {
      OneTick(policy, ticks);
      OneTick(policy, ticks + [tick]);
    } else {
      SetsSnoc(policy, ticks, tick);
      ComparisonMeasures(Counted(c, window, tick), policy, ticks, tick);
    }
    hide Compare, Repeats, Gaps, Jumps, RepeatAt, GapAt, JumpAt, Inside;
  }

  lemma {:induction false} LinesMeasure(c: Checked, policy: Policy, window: Window, lines: seq<Line>, ticks: seq<Tick>)
    requires Measures(c, policy, ticks) && (Clean(c) ==> Tracks(c, ticks))
    requires Clean(CheckLines(c, policy, window, lines))
    ensures Measures(CheckLines(c, policy, window, lines), policy, ticks + TicksOf(lines))
    ensures CheckLines(c, policy, window, lines).warnings == c.warnings
  {
    hide CheckLine, Measures, Tracks;
    if lines == [] {
      assert ticks + TicksOf(lines) == ticks;
    } else {
      var n := |lines| - 1;
      var before := CheckLines(c, policy, window, lines[..n]);
      LineErrors(before, policy, window, lines[n]);
      LinesMeasure(c, policy, window, lines[..n], ticks);
      LineMeasures(before, policy, window, lines[n], ticks + TicksOf(lines[..n]));
      assert ticks + TicksOf(lines) == ticks + TicksOf(lines[..n]) + [lines[n].tick];
    }
  }

  /** A chunk recorded as empty that is not a single Saturday; day 2 was a Saturday. */
  ghost predicate UnexpectedlyEmpty(entries: map<string, Entry>, chunk: Chunk) {
    && chunk.chunkId in entries && entries[chunk.chunkId].normalize.status == Empty
    && !(chunk.firstDate == chunk.lastDate && chunk.startMs / MS_PER_DAY % 7 == 2)
  }

  lemma ChunkMeasures(c: Checked, policy: Policy, entries: map<string, Entry>, files: map<string, NormalizedFile>,
          chunk: Chunk, ticks: seq<Tick>)
    requires Measures(c, policy, ticks) && (Clean(c) ==> Tracks(c, ticks))
    requires Clean(CheckChunk(c, policy, entries, files, chunk)) && ChunkSound(entries, files, chunk)
    ensures Measures(CheckChunk(c, policy, entries, files, chunk), policy, ticks + ChunkTicks(entries, files, chunk))
    ensures CheckChunk(c, policy, entries, files, chunk).warnings
      == c.warnings + if UnexpectedlyEmpty(entries, chunk) then multiset{EmptyChunkUnexpected} else multiset{}
  {
    hide CheckLines, TicksOf, LinesGood, TimesAscend, IsValid, Repeats, Gaps, Jumps;
    var n := entries[chunk.chunkId].normalize;
    if n.status == Complete {
      var file := files[chunk.chunkId];
      var counted: Checked := c.(rowsIn := c.rowsIn + n.ticksIn, rowsRejected := c.rowsRejected + n.rejected);
      MultisetGrows(CheckLines(counted, policy, WindowOf(chunk), file.lines).errors);
      LinesMeasure(counted, policy, WindowOf(chunk), file.lines, ticks);
    } else {
      assert ticks + [] == ticks;
    }
  }

  ghost function UnexpectedEmpties(entries: map<string, Entry>, chunks: seq<Chunk>): set<int> {
    set i | 0 <= i < |chunks| && UnexpectedlyEmpty(entries, chunks[i])
  }

  lemma EmptiesSnoc(entries: map<string, Entry>, chunks: seq<Chunk>)
    requires chunks != []
    ensures var n := |chunks| - 1;
      |UnexpectedEmpties(entries, chunks)|
      == |UnexpectedEmpties(entries, chunks[..n])| + if UnexpectedlyEmpty(entries, chunks[n]) then 1 else 0
  {
    hide UnexpectedlyEmpty;
    var n := |chunks| - 1;
    assert forall i :: 0 <= i < n ==> chunks[..n][i] == chunks[i];
    assert UnexpectedEmpties(entries, chunks)
      == UnexpectedEmpties(entries, chunks[..n]) + if UnexpectedlyEmpty(entries, chunks[n]) then {n} else {};
  }

  ghost function OnlyEmpties(count: nat): multiset<WarningCode> {
    multiset{}[EmptyChunkUnexpected := count]
  }

  lemma {:induction false} ChunksMeasure(c: Checked, policy: Policy, entries: map<string, Entry>,
          files: map<string, NormalizedFile>, chunks: seq<Chunk>)
    requires Measures(c, policy, []) && (Clean(c) ==> Tracks(c, [])) && c.rowsIn == 0 && c.rowsRejected == 0
    requires c.warnings == multiset{}
    requires Clean(CheckChunks(c, policy, entries, files, chunks))
    ensures var c' := CheckChunks(c, policy, entries, files, chunks);
      && Measures(c', policy, AllTicks(entries, files, chunks))
      && c'.warnings == OnlyEmpties(|UnexpectedEmpties(entries, chunks)|)
  {
    hide CheckChunk, ChunkSound, TicksOf, Measures, Tracks, UnexpectedlyEmpty, ChunkTicks, TimesAscend,
      UnexpectedEmpties;
    if chunks == [] {
      NoEmpties(entries);
    } else {
      var n := |chunks| - 1;
      EmptiesSnoc(entries, chunks);
      var before := CheckChunks(c, policy, entries, files, chunks[..n]);
      ChunksAreClean(c, policy, entries, files, chunks[..n]);
      ChunksAreClean(c, policy, entries, files, chunks);
      ChunkIsClean(before, policy, entries, files, chunks[n], AllTicks(entries, files, chunks[..n]));
      ChunksMeasure(c, policy, entries, files, chunks[..n]);
      SoundSnoc(entries, files, chunks);
      ChunkMeasures(before, policy, entries, files, chunks[n], AllTicks(entries, files, chunks[..n]));
    }
  }

  lemma NoEmpties(entries: map<string, Entry>)
    ensures UnexpectedEmpties(entries, []) == {} && OnlyEmpties(0) == multiset{}
  {}

  /** No chunk of the plan has a rejected row. */
  ghost predicate NothingRejected(entries: map<string, Entry>, chunks: seq<Chunk>) {
    forall i :: 0 <= i < |chunks| && chunks[i].chunkId in entries ==> entries[chunks[i].chunkId].normalize.rejected == 0
  }

  lemma {:induction false} RejectedSum(entries: map<string, Entry>, chunks: seq<Chunk>)
    ensures RowsRejected(entries, chunks) == 0 <==> NothingRejected(entries, chunks)
  {
    if chunks != [] {
      var n := |chunks| - 1;
      RejectedSum(entries, chunks[..n]);
      assert forall i :: 0 <= i < n ==> chunks[..n][i] == chunks[i];
    }
  }

  /** What the report of a sound dataset says of its stream. */
  ghost predicate Reports(c: Counters, policy: Policy, entries: map<string, Entry>, chunks: seq<Chunk>,
          ticks: seq<Tick>) {
    && c.tickCount == |ticks|
    && c.rowsIn == RowsIn(entries, chunks) && c.rowsRejected == RowsRejected(entries, chunks)
    && Measures(c, policy, ticks)
    && c.warnings[EmptyChunkUnexpected] == |UnexpectedEmpties(entries, chunks)|
    && c.warnings[RejectedRows] == RowsRejected(entries, chunks)
    && c.warnings[DuplicateTicks] == |Repeats(ticks)|
    && c.warnings[LargeGap] == |Gaps(policy, ticks)|
    && c.warnings[PriceJump] == |Jumps(policy, ticks)|
  }

  lemma ConclusionReports(c: Checked, policy: Policy, entries: map<string, Entry>, chunks: seq<Chunk>,
          ticks: seq<Tick>)
    requires c.tickCount == |ticks| > 0 && Measures(c, policy, ticks)
    requires c.rowsIn == RowsIn(entries, chunks) && c.rowsRejected == RowsRejected(entries, chunks)
    requires !TooManyRejected(policy, c.rowsRejected, c.rowsIn)
    requires c.warnings == OnlyEmpties(|UnexpectedEmpties(entries, chunks)|)
    ensures Reports(Conclude(c, policy), policy, entries, chunks, ticks)
  {
    hide RowsIn, RowsRejected, UnexpectedEmpties, Repeats, Gaps, Jumps, TooManyRejected;
  }

  /**
   The report of a sound dataset is exact: it counts every tick, every repetition, every gap
   without a weekend and every jump of its stream, knows its first and last instant, and warns of
   each kind as often as there is cause.
   */
  lemma ReportIsExact(policy: Policy, symbolMatches: bool, entries: map<string, Entry>,
          files: map<string, NormalizedFile>, chunks: seq<Chunk>)
    requires DatasetSound(policy, symbolMatches, entries, files, chunks)
    ensures Reports(Check(policy, symbolMatches, entries, files, chunks), policy, entries, chunks,
              AllTicks(entries, files, chunks))
  {
    ChunksAreClean(START, policy, entries, files, chunks);
    OneTick(policy, []);
    ChunksMeasure(START, policy, entries, files, chunks);
    ConclusionReports(CheckChunks(START, policy, entries, files, chunks), policy, entries, chunks,
      AllTicks(entries, files, chunks));
    hide CheckChunks, ChunksSound, Conclude, AllTicks, TimesAscend, Measures, Repeats, Gaps, Jumps, Reports,
      TooManyRejected;
  }

  /** Nothing that a warning is given for, in the manifest or in the stream. */
  ghost predicate NothingToWarnOf(policy: Policy, entries: map<string, Entry>, chunks: seq<Chunk>, ticks: seq<Tick>) {
    && NothingRejected(entries, chunks)
    && (forall i :: 0 <= i < |chunks| ==> !UnexpectedlyEmpty(entries, chunks[i]))
    && (forall i :: 0 < i < |ticks| ==> !RepeatAt(ticks, i))
    && (forall i :: 0 < i < |ticks| ==> !GapAt(policy, ticks, i))
    && (forall i :: 0 < i < |ticks| ==> !JumpAt(policy, ticks, i))
  }

  /** The verdict is PASS exactly for a sound dataset with nothing to warn of. */
  lemma PassMeans(policy: Policy, symbolMatches: bool, entries: map<string, Entry>,
          files: map<string, NormalizedFile>, chunks: seq<Chunk>)
    ensures ValidationOf(policy, symbolMatches, entries, files, chunks).verdict == Pass
      <==> DatasetSound(policy, symbolMatches, entries, files, chunks)
           && NothingToWarnOf(policy, entries, chunks, AllTicks(entries, files, chunks))
  {
    VerdictIsSound(policy, symbolMatches, entries, files, chunks);
    if DatasetSound(policy, symbolMatches, entries, files, chunks) {
      var c, ticks := Check(policy, symbolMatches, entries, files, chunks), AllTicks(entries, files, chunks);
      ReportIsExact(policy, symbolMatches, entries, files, chunks);
      EmptySets(policy, ticks);
      NoChunkEmpty(entries, chunks);
      RejectedSum(entries, chunks);
      NoWarnings(c.warnings);
    }
    hide DatasetSound, Check, AllTicks, RepeatAt, GapAt, JumpAt, Repeats, Gaps, Jumps, Measures,
      NothingRejected, RowsRejected, UnexpectedEmpties, UnexpectedlyEmpty;
  }

  lemma NoChunkEmpty(entries: map<string, Entry>, chunks: seq<Chunk>)
    ensures |UnexpectedEmpties(entries, chunks)| == 0
      <==> forall i :: 0 <= i < |chunks| ==> !UnexpectedlyEmpty(entries, chunks[i])
  {
    hide UnexpectedlyEmpty;
    forall i | 0 <= i < |chunks| && |UnexpectedEmpties(entries, chunks)| == 0
      ensures !UnexpectedlyEmpty(entries, chunks[i])
    {
      assert i !in UnexpectedEmpties(entries, chunks);
    }
  }

  lemma EmptySets(policy: Policy, ticks: seq<Tick>)
    ensures |Repeats(ticks)| == 0 <==> forall i :: 0 < i < |ticks| ==> !RepeatAt(ticks, i)
    ensures |Gaps(policy, ticks)| == 0 <==> forall i :: 0 < i < |ticks| ==> !GapAt(policy, ticks, i)
    ensures |Jumps(policy, ticks)| == 0 <==> forall i :: 0 < i < |ticks| ==> !JumpAt(policy, ticks, i)
  {
    hide RepeatAt, GapAt, JumpAt;
    forall i | 0 < i < |ticks|
      ensures |Repeats(ticks)| == 0 ==> !RepeatAt(ticks, i)
      ensures |Gaps(policy, ticks)| == 0 ==> !GapAt(policy, ticks, i)
      ensures |Jumps(policy, ticks)| == 0 ==> !JumpAt(policy, ticks, i)
    {
      assert i in Repeats(ticks) <==> RepeatAt(ticks, i);
      assert i in Gaps(policy, ticks) <==> GapAt(policy, ticks, i);
      assert i in Jumps(policy, ticks) <==> JumpAt(policy, ticks, i);
    }
  }

  lemma NoWarnings(warnings: multiset<WarningCode>)
    ensures |warnings| == 0
      <==> && warnings[EmptyChunkUnexpected] == 0 && warnings[RejectedRows] == 0 && warnings[DuplicateTicks] == 0
           && warnings[LargeGap] == 0 && warnings[PriceJump] == 0
  {
    if |warnings| > 0 {
      var w :| w in warnings;
      assert w == EmptyChunkUnexpected || w == RejectedRows || w == DuplicateTicks || w == LargeGap || w == PriceJump;
    }
  }

  // ---------- what the errors mean, for any dataset ----------

  /** What a line by itself is reported for. */
  ghost predicate LineHas(code: ErrorCode, window: Window, line: Line) {
    match code
    case Invalid(reason) =>
      if line.Unreadable? then reason == NonFiniteValue else FindInvalidReason(line.tick) == Some(reason)
    case OutsideWindow => line.TickLine? && !Inside(window, line.tick)
    case _ => false
  }

  ghost predicate LinesHave(code: ErrorCode, window: Window, lines: seq<Line>) {
    exists i :: 0 <= i < |lines| && LineHas(code, window, lines[i])
  }

  ghost predicate HasDownload(entries: map<string, Entry>, chunk: Chunk) {
    chunk.chunkId in entries && Acquired(entries[chunk.chunkId].download.status)
  }

  /** The chunk's normalization is recorded, of the raw file recorded now. */
  ghost predicate HasNormalize(entries: map<string, Entry>, chunk: Chunk) {
    && HasDownload(entries, chunk)
    && Acquired(entries[chunk.chunkId].normalize.status)
    && entries[chunk.chunkId].normalize.rawSha256 == entries[chunk.chunkId].download.sha256
  }

  /** What a chunk is reported for, whatever the other chunks hold. */
  ghost predicate ChunkHas(code: ErrorCode, entries: map<string, Entry>, files: map<string, NormalizedFile>,
          chunk: Chunk) {
    var id := chunk.chunkId;
    match code
    case IncompleteChunks => !HasDownload(entries, chunk)
    case NotNormalized =>
      && HasDownload(entries, chunk)
      && (HasNormalize(entries, chunk) ==> entries[id].normalize.status == Complete && id !in files)
    case HeaderMismatch =>
      && HasNormalize(entries, chunk) && entries[id].normalize.status == Complete
      && id in files && files[id].header != NORMALIZED_HEADER
    case ChecksumMismatch =>
      Opens(entries, files, chunk) && entries[id].normalize.sha256 != Some(Sha256(files[id]))
    case _ => Opens(entries, files, chunk) && LinesHave(code, WindowOf(chunk), files[id].lines)
  }

  ghost predicate ChunksHave(code: ErrorCode, entries: map<string, Entry>, files: map<string, NormalizedFile>,
          chunks: seq<Chunk>) {
    exists i :: 0 <= i < |chunks| && ChunkHas(code, entries, files, chunks[i])
  }

  lemma CountedNames(c: Checked, window: Window, tick: Tick, code: ErrorCode)
    ensures code in Counted(c, window, tick).errors <==> code in c.errors || LineHas(code, window, TickLine(tick))
  {
    hide Inside, FindInvalidReason;
  }

  lemma ComparisonNames(c: Counters, policy: Policy, previous: Tick, tick: Tick, code: ErrorCode)
    requires IsValid(previous) && IsValid(tick) && code != NotMonotonic
    ensures code in Compare(c, policy, previous, tick).errors <==> code in c.errors
  {
    hide SpansWeekend, JumpRatio, IsValid;
  }

  lemma LineNames(c: Checked, policy: Policy, window: Window, line: Line, code: ErrorCode)
    requires code != NotMonotonic
    ensures code in CheckLine(c, policy, window, line).errors <==> code in c.errors || LineHas(code, window, line)
  {
    if line.TickLine? {
      CountedNames(c, window, line.tick, code);
      if IsValid(line.tick) && c.previous.Some? {
        ComparisonNames(Counted(c, window, line.tick), policy, c.previous.value, line.tick, code);
      }
      hide LineHas, Counted, Compare, FindInvalidReason;
    }
  }

  lemma {:induction false} LinesName(c: Checked, policy: Policy, window: Window, lines: seq<Line>, code: ErrorCode)
    requires code != NotMonotonic
    ensures code in CheckLines(c, policy, window, lines).errors <==> code in c.errors || LinesHave(code, window, lines)
  {
    hide CheckLine, LineHas;
    if lines != [] {
      var n := |lines| - 1;
      LinesName(c, policy, window, lines[..n], code);
      LineNames(CheckLines(c, policy, window, lines[..n]), policy, window, lines[n], code);
      assert forall i :: 0 <= i < n ==> lines[..n][i] == lines[i];
    }
  }

  lemma OpenedChunkNames(c: Checked, policy: Policy, entries: map<string, Entry>, files: map<string, NormalizedFile>,
          chunk: Chunk, code: ErrorCode)
    requires Opens(entries, files, chunk) && code != NotMonotonic
    ensures var n, file := entries[chunk.chunkId].normalize, files[chunk.chunkId];
      code in CheckChunk(c, policy, entries, files, chunk).errors
      <==> || code in c.errors
           || LinesHave(code, WindowOf(chunk), file.lines)
           || (code == ChecksumMismatch && n.sha256 != Some(Sha256(file)))
  {
    hide CheckLines, LinesHave;
    var n, lines := entries[chunk.chunkId].normalize, files[chunk.chunkId].lines;
    var counted: Checked := c.(rowsIn := c.rowsIn + n.ticksIn, rowsRejected := c.rowsRejected + n.rejected);
    LinesName(counted, policy, WindowOf(chunk), lines, code);
  }

  lemma UnopenedChunkNames(c: Checked, policy: Policy, entries: map<string, Entry>,
          files: map<string, NormalizedFile>, chunk: Chunk, code: ErrorCode)
    requires !Opens(entries, files, chunk)
    ensures code in CheckChunk(c, policy, entries, files, chunk).errors
      <==> code in c.errors || ChunkHas(code, entries, files, chunk)
  {
    hide CheckLines, IsSaturdayOnly, LinesHave;
  }

  lemma ChunkNames(c: Checked, policy: Policy, entries: map<string, Entry>, files: map<string, NormalizedFile>,
          chunk: Chunk, code: ErrorCode)
    requires code != NotMonotonic
    ensures code in CheckChunk(c, policy, entries, files, chunk).errors
      <==> code in c.errors || ChunkHas(code, entries, files, chunk)
  {
    hide CheckChunk, LinesHave;
    if Opens(entries, files, chunk) {
      OpenedChunkNames(c, policy, entries, files, chunk, code);
      if !code.Invalid? && !code.OutsideWindow? {
        NoLineHas(code, WindowOf(chunk), files[chunk.chunkId].lines);
      }
    } else {
      UnopenedChunkNames(c, policy, entries, files, chunk, code);
    }
  }

  lemma NoLineHas(code: ErrorCode, window: Window, lines: seq<Line>)
    requires !code.Invalid? && !code.OutsideWindow?
    ensures !LinesHave(code, window, lines)
  {}

  lemma {:induction false} ChunksName(c: Checked, policy: Policy, entries: map<string, Entry>,
          files: map<string, NormalizedFile>, chunks: seq<Chunk>, code: ErrorCode)
    requires code != NotMonotonic
    ensures code in CheckChunks(c, policy, entries, files, chunks).errors
      <==> code in c.errors || ChunksHave(code, entries, files, chunks)
  {
    hide CheckChunk, ChunkHas, ChunksHave;
    if chunks != [] {
      var n := |chunks| - 1;
      ChunksName(c, policy, entries, files, chunks[..n], code);
      ChunkNames(CheckChunks(c, policy, entries, files, chunks[..n]), policy, entries, files, chunks[n], code);
      HaveSnoc(code, entries, files, chunks);
    } else {
      assert !ChunksHave(code, entries, files, chunks) by { NoChunks(code, entries, files); }
    }
  }

  lemma NoChunks(code: ErrorCode, entries: map<string, Entry>, files: map<string, NormalizedFile>)
    ensures !ChunksHave(code, entries, files, [])
  {}

  lemma HaveSnoc(code: ErrorCode, entries: map<string, Entry>, files: map<string, NormalizedFile>, chunks: seq<Chunk>)
    requires chunks != []
    ensures var n := |chunks| - 1;
      ChunksHave(code, entries, files, chunks)
      <==> ChunksHave(code, entries, files, chunks[..n]) || ChunkHas(code, entries, files, chunks[n])
  {
    hide ChunkHas;
    assert forall i :: 0 <= i < |chunks| - 1 ==> chunks[..|chunks| - 1][i] == chunks[i];
  }

  /** The valid ticks among some lines, in order. */
  ghost function ValidOf(lines: seq<Line>): seq<Tick> {
    if lines == [] then []
    else
      var init, last := ValidOf(lines[..|lines| - 1]), lines[|lines| - 1];
      if last.TickLine? && IsValid(last.tick) then init + [last.tick] else init
  }

  /** The lines that the pass reads of a chunk. */
  ghost function LinesRead(entries: map<string, Entry>, files: map<string, NormalizedFile>, chunk: Chunk): seq<Line> {
    if Opens(entries, files, chunk) then files[chunk.chunkId].lines else []
  }

  ghost function AllLinesRead(entries: map<string, Entry>, files: map<string, NormalizedFile>,
          chunks: seq<Chunk>): seq<Line> {
    if chunks == [] then []
    else
      AllLinesRead(entries, files, chunks[..|chunks| - 1]) + LinesRead(entries, files, chunks[|chunks| - 1])
  }

  /** The counters know how many ticks there are, and the times of the first and the last. */
  ghost predicate SpansTicks(c: Counters, ticks: seq<Tick>) {
    && c.tickCount == |ticks|
    && c.firstMs == (if ticks == [] then None else Some(ticks[0].timestampMs))
    && c.lastMs == (if ticks == [] then None else Some(ticks[|ticks| - 1].timestampMs))
  }

  /** The pass has read these lines: it counted their ticks, and compares with the last valid one. */
  ghost predicate HasRead(c: Counters, lines: seq<Line>) {
    && SpansTicks(c, TicksOf(lines))
    && c.previous == (if ValidOf(lines) == [] then None else Some(ValidOf(lines)[|ValidOf(lines)| - 1]))
    && (NotMonotonic in c.errors <==> !TimesAscend(ValidOf(lines)))
  }

  lemma LineIsRead(c: Checked, policy: Policy, window: Window, line: Line, lines: seq<Line>)
    requires HasRead(c, lines)
    ensures HasRead(CheckLine(c, policy, window, line), lines + [line])
  {
    OneMoreLine(lines, line);
    hide TicksOf, ValidOf, TimesAscend, SpansTicks, Compare, Counted, FindInvalidReason;
    if line.TickLine? {
      CountedSpans(c, window, line.tick, TicksOf(lines));
      if IsValid(line.tick) && c.previous.Some? {
        OrderErrors(Counted(c, window, line.tick), policy, c.previous.value, line.tick);
      }
      SpansTheSame(Counted(c, window, line.tick), CheckLine(c, policy, window, line), TicksOf(lines) + [line.tick]);
    } else {
      SpansTheSame(c, CheckLine(c, policy, window, line), TicksOf(lines));
    }
  }

  /** One more line, by what it adds to the ticks and to the valid ones. */
  lemma OneMoreLine(lines: seq<Line>, line: Line)
    ensures TicksOf(lines + [line]) == if line.TickLine? then TicksOf(lines) + [line.tick] else TicksOf(lines)
    ensures ValidOf(lines + [line])
      == if line.TickLine? && IsValid(line.tick) then ValidOf(lines) + [line.tick] else ValidOf(lines)
    ensures line.TickLine? && IsValid(line.tick) ==>
      var valid := ValidOf(lines);
      TimesAscend(valid + [line.tick])
      <==> TimesAscend(valid) && (valid == [] || valid[|valid| - 1].timestampMs <= line.tick.timestampMs)
  {
    assert (lines + [line])[..|lines|] == lines;
    hide TimesAscend, IsValid;
    if line.TickLine? {
      if TimesAscend(ValidOf(lines)) {
        AscendSnoc(ValidOf(lines), line.tick);
      } else {
        StillNotAscending(ValidOf(lines), line.tick);
      }
    }
  }

  lemma CountedSpans(c: Checked, window: Window, tick: Tick, ticks: seq<Tick>)
    requires SpansTicks(c, ticks)
    ensures var c' := Counted(c, window, tick);
      && SpansTicks(c', ticks + [tick]) && c'.previous == c.previous
      && (NotMonotonic in c'.errors <==> NotMonotonic in c.errors)
  {
    CountedNames(c, window, tick, NotMonotonic);
    hide Inside, FindInvalidReason;
  }

  lemma OrderErrors(c: Counters, policy: Policy, previous: Tick, tick: Tick)
    requires IsValid(previous) && IsValid(tick)
    ensures var c' := Compare(c, policy, previous, tick);
      && c'.tickCount == c.tickCount && c'.firstMs == c.firstMs && c'.lastMs == c.lastMs
      && (NotMonotonic in c'.errors <==> NotMonotonic in c.errors || tick.timestampMs < previous.timestampMs)
  {
    hide SpansWeekend, JumpRatio, IsValid;
  }

  lemma StillNotAscending(ticks: seq<Tick>, tick: Tick)
    requires !TimesAscend(ticks)
    ensures !TimesAscend(ticks + [tick])
  {
    if TimesAscend(ticks + [tick]) {
      AscendPrefix(ticks, [tick]);
    }
  }

  lemma {:induction false} LinesAreRead(c: Checked, policy: Policy, window: Window, lines: seq<Line>, before: seq<Line>)
    requires HasRead(c, before)
    ensures HasRead(CheckLines(c, policy, window, lines), before + lines)
  {
    hide CheckLine, HasRead;
    if lines == [] {
      assert before + lines == before;
    } else {
      var n := |lines| - 1;
      LinesAreRead(c, policy, window, lines[..n], before);
      LineIsRead(CheckLines(c, policy, window, lines[..n]), policy, window, lines[n], before + lines[..n]);
      assert before + lines == before + lines[..n] + [lines[n]];
    }
  }

  lemma ChunkIsRead(c: Checked, policy: Policy, entries: map<string, Entry>, files: map<string, NormalizedFile>,
          chunk: Chunk, before: seq<Line>)
    requires HasRead(c, before)
    ensures HasRead(CheckChunk(c, policy, entries, files, chunk), before + LinesRead(entries, files, chunk))
  {
    hide CheckLines, IsSaturdayOnly, TicksOf, ValidOf, TimesAscend, SpansTicks, HasRead;
    ReadsTheSame(c, CheckChunk(c, policy, entries, files, chunk), before);
    if Opens(entries, files, chunk) {
      var n, lines := entries[chunk.chunkId].normalize, files[chunk.chunkId].lines;
      var counted: Checked := c.(rowsIn := c.rowsIn + n.ticksIn, rowsRejected := c.rowsRejected + n.rejected);
      ReadsTheSame(c, counted, before);
      LinesAreRead(counted, policy, WindowOf(chunk), lines, before);
      ReadsTheSame(CheckLines(counted, policy, WindowOf(chunk), lines), CheckChunk(c, policy, entries, files, chunk),
        before + lines);
    } else {
      assert before + [] == before;
    }
  }

  /** What was read does not depend on the other counters. */
  lemma ReadsTheSame(c: Counters, d: Counters, lines: seq<Line>)
    ensures
      HasRead(c, lines) && d.tickCount == c.tickCount && d.firstMs == c.firstMs && d.lastMs == c.lastMs
      && d.previous == c.previous && (NotMonotonic in d.errors <==> NotMonotonic in c.errors)
      ==> HasRead(d, lines)
  {
    hide TicksOf, ValidOf, TimesAscend;
  }

  lemma {:induction false} ChunksAreRead(c: Checked, policy: Policy, entries: map<string, Entry>,
          files: map<string, NormalizedFile>, chunks: seq<Chunk>)
    requires HasRead(c, [])
    ensures HasRead(CheckChunks(c, policy, entries, files, chunks), AllLinesRead(entries, files, chunks))
  {
    hide CheckChunk, HasRead, LinesRead;
    if chunks != [] {
      var n := |chunks| - 1;
      ChunksAreRead(c, policy, entries, files, chunks[..n]);
      ChunkIsRead(CheckChunks(c, policy, entries, files, chunks[..n]), policy, entries, files, chunks[n],
        AllLinesRead(entries, files, chunks[..n]));
    }
  }

  /**
   For any dataset whatever, each error is reported exactly when there is cause for it: in the
   manifest, in a file's header or checksum, in a line that was read, or in the order of all valid
   ticks read. The tick count and the first and last times are those of all ticks read.
   */
  lemma ErrorsAreNamed(policy: Policy, symbolMatches: bool, entries: map<string, Entry>,
          files: map<string, NormalizedFile>, chunks: seq<Chunk>, code: ErrorCode)
    ensures var report := Check(policy, symbolMatches, entries, files, chunks);
      var lines := AllLinesRead(entries, files, chunks);
      && SpansTicks(report, TicksOf(lines))
      && (code in report.errors <==>
           match code
           case SymbolMismatch => !symbolMatches
           case NotMonotonic => !TimesAscend(ValidOf(lines))
           case NoTicks => TicksOf(lines) == []
           case RejectedRatioExceeded => TooManyRejected(policy, report.rowsRejected, report.rowsIn)
           case _ => ChunksHave(code, entries, files, chunks))
  {
    var start: Checked := if symbolMatches then START else START.(errors := multiset{SymbolMismatch});
    ChunksAreRead(start, policy, entries, files, chunks);
    if code != NotMonotonic {
      ChunksName(start, policy, entries, files, chunks, code);
    }
    if code == SymbolMismatch || code == NoTicks || code == RejectedRatioExceeded {
      NoChunkHas(code, entries, files, chunks);
    }
    var c := CheckChunks(start, policy, entries, files, chunks);
    ConclusionNames(c, policy, code);
    assert code in start.errors <==> code == SymbolMismatch && !symbolMatches;
    hide CheckChunks, TicksOf, ValidOf, TimesAscend, ChunksHave, TooManyRejected, AllLinesRead, Conclude, SpansTicks;
    ReadMeans(c, AllLinesRead(entries, files, chunks));
    SpansTheSame(c, Conclude(c, policy), TicksOf(AllLinesRead(entries, files, chunks)));
    hide HasRead;
  }

  lemma ReadMeans(c: Counters, lines: seq<Line>)
    requires HasRead(c, lines)
    ensures SpansTicks(c, TicksOf(lines)) && (NotMonotonic in c.errors <==> !TimesAscend(ValidOf(lines)))
    ensures c.tickCount == 0 <==> TicksOf(lines) == []
  {
    hide TicksOf, ValidOf, TimesAscend;
  }

  lemma SpansTheSame(c: Counters, d: Counters, ticks: seq<Tick>)
    requires SpansTicks(c, ticks) && d.tickCount == c.tickCount && d.firstMs == c.firstMs && d.lastMs == c.lastMs
    ensures SpansTicks(d, ticks)
  {}

  lemma ConclusionNames(c: Checked, policy: Policy, code: ErrorCode)
    ensures var c' := Conclude(c, policy);
      && c' == c.(errors := c'.errors, warnings := c'.warnings)
      && (code in c'.errors
          <==> || code in c.errors
               || (code == NoTicks && c.tickCount == 0)
               || (code == RejectedRatioExceeded && TooManyRejected(policy, c.rowsRejected, c.rowsIn)))
  {
    hide TooManyRejected;
    OneMoreError(c.errors, NoTicks, code);
    Added(c.errors, RejectedRatioExceeded, c.rowsRejected);
    Added(c.errors + multiset{NoTicks}, RejectedRatioExceeded, c.rowsRejected);
    if TooManyRejected(policy, c.rowsRejected, c.rowsIn) {
      RejectedIsPositive(policy, c.rowsRejected, c.rowsIn);
    }
    hide Add;
  }

  lemma RejectedIsPositive(policy: Policy, rejected: nat, rows: nat)
    requires TooManyRejected(policy, rejected, rows)
    ensures rejected > 0
  {}

  lemma OneMoreError(errors: multiset<ErrorCode>, added: ErrorCode, code: ErrorCode)
    ensures code in errors + multiset{added} <==> code in errors || code == added
  {}

  lemma NoChunkHas(code: ErrorCode, entries: map<string, Entry>, files: map<string, NormalizedFile>, chunks: seq<Chunk>)
    requires code == SymbolMismatch || code == NoTicks || code == RejectedRatioExceeded
    ensures !ChunksHave(code, entries, files, chunks)
  {}

  /** The rejected share is compared by multiplication: rejected rows against the allowed share of all rows. */
  lemma TooManyRejectedMeans(policy: Policy, rejected: nat, rows: nat)
    ensures TooManyRejected(policy, rejected, rows)
      <==> rejected > 0 && (if rows == 0 then 0.0 > policy.maxRejectedRatio
                            else rejected as real > policy.maxRejectedRatio * rows as real)
  {
    if rows > 0 {
      var share := rejected as real / rows as real;
      assert share * rows as real == rejected as real;
      Cancels(share, policy.maxRejectedRatio, rows as real);
    }
  }
}
