/**
 Checking a dataset before conversion: one pass over every chunk's file, counting what is wrong.
 */
module Validate {
  import opened Text
  import opened Ticks
  import opened Calendar
  import opened Chunks
  import opened Dataset

  datatype Policy = Policy(maxGapMs: int, maxJumpRatio: real, maxRejectedRatio: real)

  /** A line that cannot be parsed is reported as one whose values are not finite. */
  datatype ErrorCode =
    | SymbolMismatch
    | IncompleteChunks
    | NotNormalized
    | HeaderMismatch
    | Invalid(reason: Reason)
    | OutsideWindow
    | NotMonotonic
    | ChecksumMismatch
    | NoTicks
    | RejectedRatioExceeded

  datatype WarningCode = EmptyChunkUnexpected | RejectedRows | DuplicateTicks | LargeGap | PriceJump

  /** The counters of the pass and the last valid tick it saw. */
  datatype Counters = Counters(
    errors: multiset<ErrorCode>,
    warnings: multiset<WarningCode>,
    tickCount: nat,
    rowsIn: nat,
    rowsRejected: nat,
    duplicates: nat,
    gaps: nat,
    jumps: nat,
    firstMs: Option<int>,
    lastMs: Option<int>,
    previous: Option<Tick>
  )

  const START := Counters(multiset{}, multiset{}, 0, 0, 0, 0, 0, 0, None, None, None)

  // ---------- weekends ----------

  function NoonOf(day: int): int {
    day * MS_PER_DAY + MS_PER_DAY / 2
  }

  predicate IsSaturday(day: int) {
    (day + 3) % 7 == 5
  }

  /** The interval contains the noon of some Saturday. */
  predicate SpansWeekend(previousMs: int, currentMs: int) {
    exists day :: previousMs / MS_PER_DAY <= day <= currentMs / MS_PER_DAY && IsSaturday(day)
      && previousMs <= NoonOf(day) <= currentMs
  }

  method FindWeekend(previousMs: int, currentMs: int) returns (found: bool)
    ensures found <==> exists day :: IsSaturday(day) && previousMs <= NoonOf(day) <= currentMs
  {
    var day := previousMs / MS_PER_DAY;
    while day <= currentMs / MS_PER_DAY
      invariant forall d :: d < day ==> !(IsSaturday(d) && previousMs <= NoonOf(d) <= currentMs)
      decreases currentMs / MS_PER_DAY - day
    {
      if IsSaturday(day) && previousMs <= NoonOf(day) <= currentMs {
        return true;
      }
      day := day + 1;
    }
    found := false;
  }

  /** The first Saturday noon at or after an instant. */
  function NextSaturdayNoon(ms: int): int {
    var day := (ms + MS_PER_DAY / 2 - 1) / MS_PER_DAY;
    NoonOf(day + (9 - day % 7) % 7)
  }

  /** An interval spans a weekend exactly when it reaches the first Saturday noon after its start. */
  lemma WeekendClosedForm(previousMs: int, currentMs: int)
    ensures SpansWeekend(previousMs, currentMs) <==> NextSaturdayNoon(previousMs) <= currentMs
  {
    var start := (previousMs + MS_PER_DAY / 2 - 1) / MS_PER_DAY;
    var first := start + (9 - start % 7) % 7;
    assert IsSaturday(first);
    assert NoonOf(first) == NextSaturdayNoon(previousMs);
    assert NoonOf(start - 1) < previousMs <= NoonOf(start) ;
    forall day | IsSaturday(day) && previousMs <= NoonOf(day)
      ensures first <= day
    {
      assert day >= start;
      assert (day - first) % 7 == 0;
    }
    if NextSaturdayNoon(previousMs) <= currentMs {
      assert previousMs / MS_PER_DAY <= first <= currentMs / MS_PER_DAY;
    }
  }

  // ---------- one line ----------

  function Abs(x: real): real {
    if x < 0.0 then -x else x
  }

  function Mid(tick: Tick): real
    requires IsValid(tick)
  {
    (tick.bid.v + tick.ask.v) / 2.0
  }

  /** The relative change of the mid price between two valid ticks. */
  function JumpRatio(previous: Tick, tick: Tick): real
    requires IsValid(previous) && IsValid(tick)
  {
    Abs(Mid(tick) / Mid(previous) - 1.0)
  }

  /** What a valid tick does relative to the valid tick before it. */
  function Compare(c: Counters, policy: Policy, previous: Tick, tick: Tick): Counters
    requires IsValid(previous) && IsValid(tick)
  {
    if tick.timestampMs < previous.timestampMs then c.(errors := c.errors + multiset{NotMonotonic})
    else if tick == previous then c.(duplicates := c.duplicates + 1)
    else
      var gap := tick.timestampMs - previous.timestampMs > policy.maxGapMs
        && !SpansWeekend(previous.timestampMs, tick.timestampMs);
      c.(gaps := if gap then c.gaps + 1 else c.gaps,
         jumps := if JumpRatio(previous, tick) > policy.maxJumpRatio then c.jumps + 1 else c.jumps)
  }

  type Checked = c: Counters | c.previous.Some? ==> IsValid(c.previous.value) witness START

  /** The counters after a tick, before it is compared with the one before. */
  function Counted(c: Checked, window: Window, tick: Tick): Checked {
    var reason := FindInvalidReason(tick);
    var found := (if reason.Some? then multiset{Invalid(reason.value)} else multiset{})
                 + (if Inside(window, tick) then multiset{} else multiset{OutsideWindow});
    c.(errors := c.errors + found, tickCount := c.tickCount + 1,
       firstMs := if c.firstMs.None? then Some(tick.timestampMs) else c.firstMs,
       lastMs := Some(tick.timestampMs))
  }

  function CheckLine(c: Checked, policy: Policy, window: Window, line: Line): Checked {
    match line
    case Unreadable(_) => c.(errors := c.errors + multiset{Invalid(NonFiniteValue)})
    case TickLine(tick) =>
      var counted := Counted(c, window, tick);
      if FindInvalidReason(tick).Some? then counted
      else
        var compared := if c.previous.Some? then Compare(counted, policy, c.previous.value, tick) else counted;
        compared.(previous := Some(tick))
  }

  function CheckLines(c: Checked, policy: Policy, window: Window, lines: seq<Line>): Checked {
    if lines == [] then c
    else CheckLine(CheckLines(c, policy, window, lines[..|lines| - 1]), policy, window, lines[|lines| - 1])
  }

  // ---------- one chunk ----------

  predicate IsSaturdayOnly(chunk: Chunk) {
    chunk.firstDate == chunk.lastDate && IsSaturday(chunk.startMs / MS_PER_DAY)
  }

  function Error(c: Checked, code: ErrorCode): Checked {
    c.(errors := c.errors + multiset{code})
  }

  function CheckChunk(c: Checked, policy: Policy, entries: map<string, Entry>, files: map<string, NormalizedFile>,
          chunk: Chunk): Checked {
    var id := chunk.chunkId;
    if id !in entries || !Acquired(entries[id].download.status) then Error(c, IncompleteChunks)
    else
      var d, n := entries[id].download, entries[id].normalize;
      if !Acquired(n.status) || n.rawSha256 != d.sha256 then Error(c, NotNormalized)
      else
        var counted := c.(rowsIn := c.rowsIn + n.ticksIn, rowsRejected := c.rowsRejected + n.rejected);
        if n.status == Empty then
          (if IsSaturdayOnly(chunk) then counted
            else counted.(warnings := counted.warnings + multiset{EmptyChunkUnexpected}))
        else if id !in files then Error(counted, NotNormalized)
        else if files[id].header != NORMALIZED_HEADER then Error(counted, HeaderMismatch)
        else
          var read := CheckLines(counted, policy, WindowOf(chunk), files[id].lines);
          if n.sha256 != Some(Sha256(files[id])) then Error(read, ChecksumMismatch) else read
  }

  function CheckChunks(c: Checked, policy: Policy, entries: map<string, Entry>, files: map<string, NormalizedFile>,
          chunks: seq<Chunk>): Checked {
    if chunks == [] then c
    else
      CheckChunk(CheckChunks(c, policy, entries, files, chunks[..|chunks| - 1]), policy, entries, files,
        chunks[|chunks| - 1])
  }

  // ---------- the whole dataset ----------

  predicate TooManyRejected(policy: Policy, rejected: nat, rows: nat) {
    rejected > 0 && (if rows == 0 then 0.0 else rejected as real / rows as real) > policy.maxRejectedRatio
  }

  /** The findings with one more kind, as often as it was counted. */
  function Add<T(==)>(findings: multiset<T>, code: T, count: nat): multiset<T> {
    findings[code := findings[code] + count]
  }

  function Conclude(c: Checked, policy: Policy): Checked {
    var ticks := if c.tickCount == 0 then Error(c, NoTicks) else c;
    var rows :=
      if TooManyRejected(policy, c.rowsRejected, c.rowsIn) then
        ticks.(errors := Add(ticks.errors, RejectedRatioExceeded, c.rowsRejected))
      else if c.rowsRejected > 0 then ticks.(warnings := Add(ticks.warnings, RejectedRows, c.rowsRejected))
      else ticks;
    rows.(warnings :=
      Add(Add(Add(rows.warnings, DuplicateTicks, c.duplicates), LargeGap, c.gaps), PriceJump, c.jumps))
  }

  function VerdictOf(c: Checked): Verdict {
    if |c.errors| > 0 then Fail else if |c.warnings| > 0 then Warn else Pass
  }

  function Check(policy: Policy, symbolMatches: bool, entries: map<string, Entry>,
          files: map<string, NormalizedFile>, chunks: seq<Chunk>): Checked {
    var start: Checked := if symbolMatches then START else START.(errors := multiset{SymbolMismatch});
    Conclude(CheckChunks(start, policy, entries, files, chunks), policy)
  }

  function ValidationOf(policy: Policy, symbolMatches: bool, entries: map<string, Entry>,
          files: map<string, NormalizedFile>, chunks: seq<Chunk>): Validation {
    var c := Check(policy, symbolMatches, entries, files, chunks);
    Validation(VerdictOf(c), c.tickCount, FingerprintOf(entries))
  }

  method ReadFile(start: Checked, policy: Policy, window: Window, file: NormalizedFile) returns (c: Checked)
    ensures c == CheckLines(start, policy, window, file.lines)
  {
    c := start;
    for k := 0 to |file.lines|
      invariant c == CheckLines(start, policy, window, file.lines[..k])
    {
      assert file.lines[..k + 1][..k] == file.lines[..k];
      c := CheckLine(c, policy, window, file.lines[k]);
    }
    assert file.lines[..|file.lines|] == file.lines;
  }

  method CheckOneChunk(before: Checked, policy: Policy, entries: map<string, Entry>,
          files: map<string, NormalizedFile>, chunk: Chunk)
    returns (c: Checked)
    ensures c == CheckChunk(before, policy, entries, files, chunk)
  {
    hide CheckLines, IsSaturdayOnly;
    c := before;
    var id := chunk.chunkId;
    if id !in entries || !Acquired(entries[id].download.status) {
      return Error(c, IncompleteChunks);
    }
    var d, n := entries[id].download, entries[id].normalize;
    if !Acquired(n.status) || n.rawSha256 != d.sha256 {
      return Error(c, NotNormalized);
    }
    c := c.(rowsIn := c.rowsIn + n.ticksIn, rowsRejected := c.rowsRejected + n.rejected);
    if n.status == Empty {
      if !IsSaturdayOnly(chunk) {
        c := c.(warnings := c.warnings + multiset{EmptyChunkUnexpected});
      }
      return;
    }
    if id !in files {
      return Error(c, NotNormalized);
    }
    if files[id].header != NORMALIZED_HEADER {
      return Error(c, HeaderMismatch);
    }
    c := ReadFile(c, policy, WindowOf(chunk), files[id]);
    if n.sha256 != Some(Sha256(files[id])) {
      c := Error(c, ChecksumMismatch);
    }
  }

  /** One pass over the plan, stopping at nothing; the result is what the manifest records. */
  method ValidateDataset(policy: Policy, symbolMatches: bool, entries: map<string, Entry>,
          files: map<string, NormalizedFile>, chunks: seq<Chunk>)
    returns (validation: Validation, report: Checked)
    ensures report == Check(policy, symbolMatches, entries, files, chunks)
    ensures validation == ValidationOf(policy, symbolMatches, entries, files, chunks)
  {
    hide CheckChunk, Conclude, VerdictOf;
    var c: Checked := START;
    if !symbolMatches {
      c := START.(errors := multiset{SymbolMismatch});
    }
    ghost var start := c;
    for k := 0 to |chunks|
      invariant c == CheckChunks(start, policy, entries, files, chunks[..k])
    {
      assert chunks[..k + 1][..k] == chunks[..k] && chunks[..k + 1][k] == chunks[k];
      c := CheckOneChunk(c, policy, entries, files, chunks[k]);
    }
    assert chunks[..|chunks|] == chunks;
    report := Conclude(c, policy);
    validation := Validation(VerdictOf(report), report.tickCount, FingerprintOf(entries));
  }

  // ---------- what a verdict means ----------

  ghost predicate Clean(c: Counters) {
    c.errors == multiset{}
  }

  ghost predicate LinesGood(window: Window, lines: seq<Line>) {
    AllReadable(lines) && forall i :: 0 <= i < |lines| ==> IsValid(lines[i].tick) && Inside(window, lines[i].tick)
  }

  /** A chunk that is present, normalized from its recorded raw file, intact, readable, valid and inside its window. */
  ghost predicate ChunkSound(entries: map<string, Entry>, files: map<string, NormalizedFile>, chunk: Chunk) {
    var id := chunk.chunkId;
    && id in entries
    && Acquired(entries[id].download.status)
    && Acquired(entries[id].normalize.status)
    && entries[id].normalize.rawSha256 == entries[id].download.sha256
    && (entries[id].normalize.status == Complete ==>
         && id in files
         && files[id].header == NORMALIZED_HEADER
         && entries[id].normalize.sha256 == Some(Sha256(files[id]))
         && LinesGood(WindowOf(chunk), files[id].lines))
  }

  ghost predicate ChunksSound(entries: map<string, Entry>, files: map<string, NormalizedFile>, chunks: seq<Chunk>) {
    forall i :: 0 <= i < |chunks| ==> ChunkSound(entries, files, chunks[i])
  }

  function RowsIn(entries: map<string, Entry>, chunks: seq<Chunk>): nat {
    if chunks == [] then 0
    else
      var id := chunks[|chunks| - 1].chunkId;
      RowsIn(entries, chunks[..|chunks| - 1]) + (if id in entries then entries[id].normalize.ticksIn else 0)
  }

  function RowsRejected(entries: map<string, Entry>, chunks: seq<Chunk>): nat {
    if chunks == [] then 0
    else
      var id := chunks[|chunks| - 1].chunkId;
      RowsRejected(entries, chunks[..|chunks| - 1]) + (if id in entries then entries[id].normalize.rejected else 0)
  }

  /** Everything that a verdict other than FAIL promises. */
  ghost predicate DatasetSound(policy: Policy, symbolMatches: bool, entries: map<string, Entry>,
          files: map<string, NormalizedFile>, chunks: seq<Chunk>) {
    && symbolMatches
    && ChunksSound(entries, files, chunks)
    && AllTicks(entries, files, chunks) != []
    && TimesAscend(AllTicks(entries, files, chunks))
    && !TooManyRejected(policy, RowsRejected(entries, chunks), RowsIn(entries, chunks))
  }

  /** The counters remember exactly the ticks seen: how many, and the last one. */
  ghost predicate Tracks(c: Counters, ticks: seq<Tick>) {
    && c.tickCount == |ticks|
    && c.previous == (if ticks == [] then None else Some(ticks[|ticks| - 1]))
    && TimesAscend(ticks)
  }

  lemma AscendSnoc(ticks: seq<Tick>, tick: Tick)
    requires TimesAscend(ticks)
    ensures TimesAscend(ticks + [tick]) <==> (ticks == [] || ticks[|ticks| - 1].timestampMs <= tick.timestampMs)
  {
    var all := ticks + [tick];
    if ticks != [] {
      assert all[|ticks| - 1] == ticks[|ticks| - 1] && all[|ticks|] == tick;
    }
  }

  lemma AscendPrefix(a: seq<Tick>, b: seq<Tick>)
    requires TimesAscend(a + b)
    ensures TimesAscend(a)
  {
    forall i, j | 0 <= i < j < |a|
      ensures a[i].timestampMs <= a[j].timestampMs
    {
      assert (a + b)[i] == a[i] && (a + b)[j] == a[j];
    }
  }

  lemma ComparisonErrors(c: Counters, policy: Policy, previous: Tick, tick: Tick)
    requires IsValid(previous) && IsValid(tick)
    ensures var c' := Compare(c, policy, previous, tick);
      && c' == c.(errors := c'.errors, duplicates := c'.duplicates, gaps := c'.gaps, jumps := c'.jumps)
      && (Clean(c') <==> Clean(c) && previous.timestampMs <= tick.timestampMs)
  {
    hide SpansWeekend, JumpRatio, IsValid;
    MultisetGrows(c.errors);
  }

  lemma CountedErrors(c: Checked, window: Window, tick: Tick)
    ensures var c' := Counted(c, window, tick);
      && (Clean(c') <==> Clean(c) && IsValid(tick) && Inside(window, tick))
      && c'.tickCount == c.tickCount + 1 && c'.rowsIn == c.rowsIn && c'.rowsRejected == c.rowsRejected
        && c'.previous == c.previous
  {
    hide FindInvalidReason, Inside;
    MultisetGrows(c.errors);
  }

  /** What checking one line does to the errors, given the valid tick before it. */
  lemma LineErrors(c: Checked, policy: Policy, window: Window, line: Line)
    ensures var c' := CheckLine(c, policy, window, line);
      && (Clean(c') <==> Clean(c) && line.TickLine? && IsValid(line.tick) && Inside(window, line.tick)
                         && (c.previous.Some? ==> c.previous.value.timestampMs <= line.tick.timestampMs))
      && (Clean(c') ==> c'.tickCount == c.tickCount + 1 && c'.previous == Some(line.tick))
      && c'.rowsIn == c.rowsIn && c'.rowsRejected == c.rowsRejected
  {
    MultisetGrows(c.errors);
    if line.TickLine? {
      CountedErrors(c, window, line.tick);
      if IsValid(line.tick) && c.previous.Some? {
        ComparisonErrors(Counted(c, window, line.tick), policy, c.previous.value, line.tick);
      }
    }
    hide Compare, Counted, FindInvalidReason, Inside;
  }

  lemma LineIsClean(c: Checked, policy: Policy, window: Window, line: Line, ticks: seq<Tick>)
    requires Clean(c) ==> Tracks(c, ticks)
    ensures var c' := CheckLine(c, policy, window, line);
      && (Clean(c')
          <==> Clean(c) && line.TickLine? && IsValid(line.tick) && Inside(window, line.tick)
               && TimesAscend(ticks + [line.tick]))
      && (Clean(c') ==> Tracks(c', ticks + [line.tick]))
      && c'.rowsIn == c.rowsIn && c'.rowsRejected == c.rowsRejected
  {
    LineErrors(c, policy, window, line);
    hide CheckLine, IsValid, Inside, Clean, TimesAscend;
    if line.TickLine? && Clean(c) {
      AscendSnoc(ticks, line.tick);
    }
  }

  lemma MultisetGrows<T>(a: multiset<T>)
    ensures forall b: multiset<T> :: a + b == multiset{} ==> a == multiset{} && b == multiset{}
    ensures forall x: T :: multiset{x} != multiset{}
  {
    forall b: multiset<T> | a + b == multiset{}
      ensures a == multiset{} && b == multiset{}
    {
      assert |a + b| == |a| + |b|;
    }
    forall x: T
      ensures multiset{x} != multiset{}
    {
      assert multiset{x}[x] == 1;
    }
  }

  /** Reading a file stays clean exactly when every line is good and time never goes back. */
  lemma {:induction false} LinesAreClean(c: Checked, policy: Policy, window: Window, lines: seq<Line>, ticks: seq<Tick>)
    requires Clean(c) ==> Tracks(c, ticks)
    ensures var c' := CheckLines(c, policy, window, lines);
      && (Clean(c') <==> Clean(c) && LinesGood(window, lines) && TimesAscend(ticks + TicksOf(lines)))
      && (Clean(c') ==> Tracks(c', ticks + TicksOf(lines)))
      && c'.rowsIn == c.rowsIn && c'.rowsRejected == c.rowsRejected
  {
    hide CheckLine, Inside, IsValid;
    if lines == [] {
      assert ticks + TicksOf(lines) == ticks;
    } else {
      var n := |lines| - 1;
      var init, last := lines[..n], lines[n];
      LinesAreClean(c, policy, window, init, ticks);
      var seen := ticks + TicksOf(init);
      LineIsClean(CheckLines(c, policy, window, init), policy, window, last, seen);
      GoodSnoc(window, lines);
      if last.TickLine? {
        assert ticks + TicksOf(lines) == seen + [last.tick];
        if TimesAscend(seen + [last.tick]) {
          AscendPrefix(seen, [last.tick]);
        }
      }
    }
  }

  lemma GoodSnoc(window: Window, lines: seq<Line>)
    requires lines != []
    ensures var n := |lines| - 1;
      LinesGood(window, lines) <==>
        LinesGood(window, lines[..n]) && lines[n].TickLine? && IsValid(lines[n].tick) && Inside(window, lines[n].tick)
  {
    hide Inside, IsValid;
    var n := |lines| - 1;
    if LinesGood(window, lines[..n]) && lines[n].TickLine? && IsValid(lines[n].tick) && Inside(window, lines[n].tick) {
      forall i | 0 <= i < |lines|
        ensures lines[i].TickLine? && IsValid(lines[i].tick) && Inside(window, lines[i].tick)
      {
        if i < n {
          assert lines[..n][i] == lines[i];
        }
      }
    }
    if LinesGood(window, lines) {
      forall i | 0 <= i < n
        ensures lines[..n][i].TickLine? && IsValid(lines[..n][i].tick) && Inside(window, lines[..n][i].tick)
      {
        assert lines[..n][i] == lines[i];
      }
    }
  }

  /** The pass opens the chunk's file: everything the manifest and the header can tell is in order. */
  predicate Opens(entries: map<string, Entry>, files: map<string, NormalizedFile>, chunk: Chunk) {
    var id := chunk.chunkId;
    && id in entries
    && Acquired(entries[id].download.status)
    && entries[id].normalize.status == Complete
    && entries[id].normalize.rawSha256 == entries[id].download.sha256
    && id in files
    && files[id].header == NORMALIZED_HEADER
  }

  lemma OpenedChunkIsClean(c: Checked, policy: Policy, entries: map<string, Entry>,
          files: map<string, NormalizedFile>, chunk: Chunk, ticks: seq<Tick>)
    requires Clean(c) ==> Tracks(c, ticks)
    requires Opens(entries, files, chunk)
    ensures var c' := CheckChunk(c, policy, entries, files, chunk);
      var n, file := entries[chunk.chunkId].normalize, files[chunk.chunkId];
      && (Clean(c') <==> Clean(c) && n.sha256 == Some(Sha256(file)) && LinesGood(WindowOf(chunk), file.lines)
                         && TimesAscend(ticks + TicksOf(file.lines)))
      && (Clean(c') ==> Tracks(c', ticks + TicksOf(file.lines)))
      && c'.rowsIn == c.rowsIn + n.ticksIn && c'.rowsRejected == c.rowsRejected + n.rejected
  {
    hide CheckLines, TicksOf, LinesGood, TimesAscend, IsValid;
    var n, file := entries[chunk.chunkId].normalize, files[chunk.chunkId];
    var counted: Checked := c.(rowsIn := c.rowsIn + n.ticksIn, rowsRejected := c.rowsRejected + n.rejected);
    LinesAreClean(counted, policy, WindowOf(chunk), file.lines, ticks);
    MultisetGrows(CheckLines(counted, policy, WindowOf(chunk), file.lines).errors);
  }

  lemma UnopenedChunkIsClean(c: Checked, policy: Policy, entries: map<string, Entry>,
          files: map<string, NormalizedFile>, chunk: Chunk)
    requires !Opens(entries, files, chunk)
    ensures var c' := CheckChunk(c, policy, entries, files, chunk);
      && (Clean(c') <==> Clean(c) && ChunkSound(entries, files, chunk))
      && (Clean(c') ==> c'.tickCount == c.tickCount && c'.previous == c.previous)
      && (ChunkSound(entries, files, chunk) ==>
           && entries[chunk.chunkId].normalize.status == Empty
           && c'.rowsIn == c.rowsIn + entries[chunk.chunkId].normalize.ticksIn
           && c'.rowsRejected == c.rowsRejected + entries[chunk.chunkId].normalize.rejected)
  {
    hide CheckLines, LinesGood, IsSaturdayOnly, IsValid;
    MultisetGrows(c.errors);
  }

  lemma ChunkIsClean(c: Checked, policy: Policy, entries: map<string, Entry>, files: map<string, NormalizedFile>,
          chunk: Chunk, ticks: seq<Tick>)
    requires Clean(c) ==> Tracks(c, ticks)
    ensures var c' := CheckChunk(c, policy, entries, files, chunk);
      && (Clean(c')
          <==> Clean(c) && ChunkSound(entries, files, chunk) && TimesAscend(ticks + ChunkTicks(entries, files, chunk)))
      && (Clean(c') ==> Tracks(c', ticks + ChunkTicks(entries, files, chunk)))
      && (ChunkSound(entries, files, chunk) ==>
           && c'.rowsIn == c.rowsIn + entries[chunk.chunkId].normalize.ticksIn
           && c'.rowsRejected == c.rowsRejected + entries[chunk.chunkId].normalize.rejected)
  {
    hide CheckChunk, TicksOf, LinesGood, TimesAscend, IsValid;
    if Opens(entries, files, chunk) {
      OpenedChunkIsClean(c, policy, entries, files, chunk, ticks);
    } else {
      UnopenedChunkIsClean(c, policy, entries, files, chunk);
      assert ticks + [] == ticks;
    }
  }

  lemma {:induction false} ChunksAreClean(c: Checked, policy: Policy, entries: map<string, Entry>,
          files: map<string, NormalizedFile>, chunks: seq<Chunk>)
    requires Clean(c) ==> Tracks(c, [])
    requires c.rowsIn == 0 && c.rowsRejected == 0
    ensures var c' := CheckChunks(c, policy, entries, files, chunks);
      var ticks := AllTicks(entries, files, chunks);
      && (Clean(c') <==> Clean(c) && ChunksSound(entries, files, chunks) && TimesAscend(ticks))
      && (Clean(c') ==> Tracks(c', ticks))
      && (ChunksSound(entries, files, chunks) ==>
        c'.rowsIn == RowsIn(entries, chunks) && c'.rowsRejected == RowsRejected(entries, chunks))
  {
    hide CheckChunk, ChunkSound, TicksOf;
    if chunks != [] {
      var n := |chunks| - 1;
      var init, last := chunks[..n], chunks[n];
      ChunksAreClean(c, policy, entries, files, init);
      var seen := AllTicks(entries, files, init);
      ChunkIsClean(CheckChunks(c, policy, entries, files, init), policy, entries, files, last, seen);
      assert AllTicks(entries, files, chunks) == seen + ChunkTicks(entries, files, last);
      SoundSnoc(entries, files, chunks);
      if TimesAscend(seen + ChunkTicks(entries, files, last)) {
        AscendPrefix(seen, ChunkTicks(entries, files, last));
      }
      if ChunkSound(entries, files, last) {
        SoundHasEntry(entries, files, last);
      }
    }
  }

  lemma SoundHasEntry(entries: map<string, Entry>, files: map<string, NormalizedFile>, chunk: Chunk)
    requires ChunkSound(entries, files, chunk)
    ensures chunk.chunkId in entries
  {}

  lemma SoundSnoc(entries: map<string, Entry>, files: map<string, NormalizedFile>, chunks: seq<Chunk>)
    requires chunks != []
    ensures var n := |chunks| - 1;
      ChunksSound(entries, files, chunks)
      <==> ChunksSound(entries, files, chunks[..n]) && ChunkSound(entries, files, chunks[n])
  {
    hide ChunkSound;
    var n := |chunks| - 1;
    if ChunksSound(entries, files, chunks[..n]) && ChunkSound(entries, files, chunks[n]) {
      forall i | 0 <= i < |chunks|
        ensures ChunkSound(entries, files, chunks[i])
      {
        if i < n {
          assert chunks[..n][i] == chunks[i];
        }
      }
    }
    if ChunksSound(entries, files, chunks) {
      forall i | 0 <= i < n
        ensures ChunkSound(entries, files, chunks[..n][i])
      {
        assert chunks[..n][i] == chunks[i];
      }
    }
  }

  /**
   The verdict is not FAIL exactly when the symbol matches, every planned chunk is present,
   normalized from its recorded raw file, intact, readable, valid and in its window, the whole
   stream is non-empty and never goes back in time, and few enough rows were rejected. The
   recorded tick count is then the length of that stream.
   */
  lemma VerdictIsSound(policy: Policy, symbolMatches: bool, entries: map<string, Entry>,
          files: map<string, NormalizedFile>, chunks: seq<Chunk>)
    ensures var v := ValidationOf(policy, symbolMatches, entries, files, chunks);
      && (v.verdict != Fail <==> DatasetSound(policy, symbolMatches, entries, files, chunks))
      && (v.verdict != Fail ==> v.tickCount == |AllTicks(entries, files, chunks)|)
      && v.fingerprint == FingerprintOf(entries)
  {
    var start: Checked := if symbolMatches then START else START.(errors := multiset{SymbolMismatch});
    MultisetGrows(START.errors);
    ChunksAreClean(start, policy, entries, files, chunks);
    var c := CheckChunks(start, policy, entries, files, chunks);
    ConclusionIsClean(c, policy);
    VerdictIsClean(Conclude(c, policy));
    hide CheckChunks, ChunksSound, TooManyRejected, Conclude, VerdictOf, AllTicks, TimesAscend;
  }

  lemma ConclusionIsClean(c: Checked, policy: Policy)
    ensures Clean(Conclude(c, policy))
      <==> Clean(c) && c.tickCount > 0 && !TooManyRejected(policy, c.rowsRejected, c.rowsIn)
    ensures Conclude(c, policy).tickCount == c.tickCount
  {
    MultisetGrows(c.errors);
    Added(c.errors, RejectedRatioExceeded, c.rowsRejected);
    Added(c.errors + multiset{NoTicks}, RejectedRatioExceeded, c.rowsRejected);
    hide Add;
  }

  lemma Added<T>(findings: multiset<T>, code: T, count: nat)
    ensures forall x :: Add(findings, code, count)[x] == findings[x] + if x == code then count else 0
    ensures Add(findings, code, count) == multiset{} <==> findings == multiset{} && count == 0
  {
    if findings == multiset{} && count == 0 {
      assert Add(findings, code, count) == findings;
    } else {
      assert count > 0 ==> code in Add(findings, code, count);
      if x :| x in findings {
        assert x in Add(findings, code, count);
      }
    }
  }

  lemma VerdictIsClean(c: Checked)
    ensures VerdictOf(c) != Fail <==> Clean(c)
  {
    EmptyHasNoElements(c.errors);
  }

  lemma EmptyHasNoElements(errors: multiset<ErrorCode>)
    ensures |errors| == 0 <==> errors == multiset{}
  {}

  /** Any two ticks out of time order, in whatever chunks, force FAIL. */
  lemma InversionForcesFail(policy: Policy, symbolMatches: bool, entries: map<string, Entry>,
          files: map<string, NormalizedFile>, chunks: seq<Chunk>, i: nat, j: nat)
    requires i < j < |AllTicks(entries, files, chunks)|
    requires AllTicks(entries, files, chunks)[j].timestampMs < AllTicks(entries, files, chunks)[i].timestampMs
    ensures ValidationOf(policy, symbolMatches, entries, files, chunks).verdict == Fail
  {
    VerdictIsSound(policy, symbolMatches, entries, files, chunks);
  }
}
