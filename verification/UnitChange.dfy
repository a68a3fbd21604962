/**
 A concrete run in which conversion writes data that no validation read.

 The dataset is a single date. Both plans are downloaded and normalized, the day plan is validated,
 and the month plan is converted. Every state of the run is written out, and each command is
 shown to lead from one to the next.
 */
module UnitChange {
  import opened Text
  import opened Floats
  import opened Ticks
  import opened Calendar
  import opened Chunks
  import opened Normalize
  import opened Dataset
  import opened Stages
  import opened Pipeline
  import C = Convert
  import S = ServerTime
  import V = Validate
  import W = WallClock

  const DATE := Date(2024, 2, 1)
  const START_MS := 1_706_745_600_000
  const DAY_CHUNK := Chunk("20240201", START_MS, START_MS + Calendar.MS_PER_DAY, DATE, DATE)
  const MONTH_CHUNK := Chunk("202402", START_MS, START_MS + Calendar.MS_PER_DAY, DATE, DATE)
  const PLANS := Plans([DAY_CHUNK], [MONTH_CHUNK])

  /** What the provider delivers for the day, and later for the month. */
  const DAY_TICK := Tick(START_MS, Finite(1.0), Finite(2.0), Finite(0.0), Finite(0.0))
  const MONTH_TICK := Tick(START_MS, Finite(1.0), Finite(3.0), Finite(0.0), Finite(0.0))

  function RawOf(tick: Tick): RawFile {
    RawFile("h\nx", [Parsed(tick)])
  }

  function FileOf(tick: Tick): NormalizedFile {
    NormalizedFile(NORMALIZED_HEADER, [TickLine(tick)])
  }

  function Arrived1(tick: Tick): Entry {
    Entry(Download.Download(Complete, Some(RawSha256(RawOf(tick))), 3), PENDING_NORMALIZE)
  }

  function Normalized1(tick: Tick): Entry {
    Arrived1(tick).(normalize :=
      NormalizeRecord(Complete, Some(RawSha256(RawOf(tick))), NORMALIZER_VERSION, Some(Sha256(FileOf(tick))), 1, 0))
  }

  const WAITING := Entry(PENDING_DOWNLOAD, PENDING_NORMALIZE)
  const D := "20240201"
  const M := "202402"
  const POLICY := V.Policy(1, 1.0, 1.0)
  const ZONE := S.Zone([], true)

  const S1 := NEW_DATASET.(entries := map[D := WAITING])
  const S2 := NEW_DATASET.(entries := map[D := WAITING, M := WAITING])
  const S3 := S2.(entries := map[D := Arrived1(DAY_TICK), M := WAITING], raw := map[D := RawOf(DAY_TICK)])
  const S4 := S2.(entries := map[D := Arrived1(DAY_TICK), M := Arrived1(MONTH_TICK)],
      raw := map[D := RawOf(DAY_TICK), M := RawOf(MONTH_TICK)])
  const S5 := S4.(entries := map[D := Normalized1(DAY_TICK), M := Arrived1(MONTH_TICK)],
      normalized := map[D := FileOf(DAY_TICK)])
  const S6 := S4.(entries := map[D := Normalized1(DAY_TICK), M := Normalized1(MONTH_TICK)],
                  normalized := map[D := FileOf(DAY_TICK), M := FileOf(MONTH_TICK)])
  const VALIDATE := Validate(Day, POLICY, true)
  const S7 := S6.(validation := Some(ValidationAt(PLANS, S6, VALIDATE)))

  const LINE := C.OutLine("2024.02.01", "00:00:00.000", Finite(1.0), Finite(3.0))
  const FILE := C.MonthRecord("2024-02.csv", 1, C.OutSha256([LINE]), "2024.02.01 00:00:00.000",
      "2024.02.01 00:00:00.000")
  const CONVERT := Convert(Month, ZONE, S.Utc, "", false, Regenerated([FILE], 1))
  const S8 := S7.(convert := Some(ConvertRecord(FingerprintOf(S7.entries), CONVERSION_VERSION, S.Utc, [FILE], 1)),
      mt5 := C.Directory([FILE]), results := map[])

  const RUN := [NEW_DATASET, S1, S2, S3, S4, S5, S6, S7, S8]
  const STEPS := [
    Plan(Day), Plan(Month),
    Step.Download(Day, (id, k) => Arrived(RawOf(DAY_TICK)), 1, false, 1),
    Step.Download(Month, (id, k) => Arrived(RawOf(MONTH_TICK)), 1, false, 1),
    Normalize(Day, false, 1), Normalize(Month, false, 1),
    VALIDATE, CONVERT
  ]

  lemma StartOfDay()
    ensures ValidDate(DATE) && Ordinal(DATE) == 738917 && UtcDateToMs(DATE) == START_MS
  {}

  lemma DateIsPlanned()
    ensures ValidPlans(PLANS, DATE, DATE)
  {
    StartOfDay();
    hide UtcDateToMs, Ordinal;
    assert ChunkId(Day, DATE) == D;
    assert ChunkId(Month, DATE) == M;
    forall unit
      ensures Tiles(unit, DATE, DATE, PlanOf(PLANS, unit))
    {
      match unit {
        case Day => assert ChunkOk(Day, DAY_CHUNK); TilesOne(Day, DAY_CHUNK);
        case Month => assert ChunkOk(Month, MONTH_CHUNK); TilesOne(Month, MONTH_CHUNK);
      }
    }
  }

  lemma RawIsNotEmpty(tick: Tick)
    ensures !IsEmptyRaw(RawOf(tick)) && |RawOf(tick).bytes| == 3
  {
    var bytes := "h\nx";
    assert bytes[1..] == "\nx";
    assert FirstLineEnd(bytes) == 2;
    var rest := bytes[2..];
    assert rest == "x";
    assert FirstLineEnd(rest) == 1;
    assert rest[..1][0] == 'x';
  }

  lemma OneTick(chunk: Chunk, tick: Tick)
    requires IsValid(tick) && Inside(WindowOf(chunk), tick)
    ensures Normalized(WindowOf(chunk), RawOf(tick).rows) == [tick]
    ensures Rejections(WindowOf(chunk), RawOf(tick).rows) == multiset{}
    ensures NormalizedFileOf([tick]) == FileOf(tick)
  {
    var rows := RawOf(tick).rows;
    assert rows[..0] == [];
    assert Usable(WindowOf(chunk), []) == [];
    assert Usable(WindowOf(chunk), rows) == [] + [tick];
    assert AsLines([tick]) == [TickLine(tick)];
  }

  lemma Planning()
    ensures Next(PLANS, NEW_DATASET, STEPS[0], S1) && Next(PLANS, S1, STEPS[1], S2)
  {
    assert [DAY_CHUNK][..0] == [] && [MONTH_CHUNK][..0] == [];
    assert Registered(map[], [DAY_CHUNK]) == S1.entries;
    assert Registered(S1.entries, [MONTH_CHUNK]) == S2.entries;
  }

  lemma DownloadingOne(s: State, chunk: Chunk, tick: Tick, provider: Provider)
    requires chunk.chunkId in s.entries && s.entries[chunk.chunkId] == WAITING
    requires provider(chunk.chunkId, 1) == Arrived(RawOf(tick))
    ensures HasEntries(s.entries, [chunk])
    ensures DownloadAll(s, provider, 1, [chunk], false).state
         == s.(entries := s.entries[chunk.chunkId := Arrived1(tick)], raw := s.raw[chunk.chunkId := RawOf(tick)])
  {
    RawIsNotEmpty(tick);
    hide IsEmptyRaw;
    assert [chunk][..0] == [];
    assert DownloadAll(s, provider, 1, [], false) == Start(s);
    assert Fetch(provider, chunk.chunkId, 1) == Got(RawOf(tick));
  }

  lemma NormalizingOne(s: State, chunk: Chunk, tick: Tick)
    requires chunk.chunkId in s.entries && s.entries[chunk.chunkId] == Arrived1(tick)
    requires chunk.chunkId in s.raw && s.raw[chunk.chunkId] == RawOf(tick)
    requires IsValid(tick) && Inside(WindowOf(chunk), tick)
    ensures HasEntries(s.entries, [chunk])
    ensures NormalizeAll(s, [chunk], false).state
         == s.(entries := s.entries[chunk.chunkId := Normalized1(tick)],
           normalized := s.normalized[chunk.chunkId := FileOf(tick)])
  {
    OneTick(chunk, tick);
    hide Normalized, Rejections, NormalizedFileOf, RawOf, FileOf, IsValid, Inside;
    assert [chunk][..0] == [];
    assert NormalizeAll(s, [], false) == Start(s);
    ThreeRows(tick);
  }

  lemma ThreeRows(tick: Tick)
    ensures |RawOf(tick).rows| == 1
  {}

  lemma Downloading()
    ensures Next(PLANS, S2, STEPS[2], S3) && Next(PLANS, S3, STEPS[3], S4)
  {
    assert [DAY_CHUNK][..1] == [DAY_CHUNK] && [MONTH_CHUNK][..1] == [MONTH_CHUNK];
    DownloadingOne(S2, DAY_CHUNK, DAY_TICK, STEPS[2].provider);
    DownloadingOne(S3, MONTH_CHUNK, MONTH_TICK, STEPS[3].provider);
    hide DownloadAll, RawOf, Arrived1;
  }

  lemma TicksAreGood()
    ensures IsValid(DAY_TICK) && Inside(WindowOf(DAY_CHUNK), DAY_TICK)
    ensures IsValid(MONTH_TICK) && Inside(WindowOf(MONTH_CHUNK), MONTH_TICK)
  {}

  lemma Normalizing()
    ensures Next(PLANS, S4, STEPS[4], S5) && Next(PLANS, S5, STEPS[5], S6)
  {
    TicksAreGood();
    assert [DAY_CHUNK][..1] == [DAY_CHUNK] && [MONTH_CHUNK][..1] == [MONTH_CHUNK];
    NormalizingOne(S4, DAY_CHUNK, DAY_TICK);
    NormalizingOne(S5, MONTH_CHUNK, MONTH_TICK);
    hide NormalizeAll, RawOf, FileOf, IsValid, Inside;
  }

  lemma TicksOfOne(tick: Tick)
    ensures TicksOf([TickLine(tick)]) == [tick] && AllReadable([TickLine(tick)])
  {
    assert [TickLine(tick)][..0] == [];
    assert TicksOf([]) == [];
  }

  lemma TicksRead()
    ensures AllTicks(S6.entries, S6.normalized, [DAY_CHUNK]) == [DAY_TICK]
    ensures AllTicks(S7.entries, S7.normalized, [MONTH_CHUNK]) == [MONTH_TICK]
  {
    TicksOfOne(DAY_TICK);
    TicksOfOne(MONTH_TICK);
    hide TicksOf, ValidationAt;
    assert [DAY_CHUNK][..0] == [] && [MONTH_CHUNK][..0] == [];
    assert AllTicks(S6.entries, S6.normalized, []) == [];
    assert AllTicks(S7.entries, S7.normalized, []) == [];
  }

  /** The day plan passes. */
  lemma Validating()
    ensures Next(PLANS, S6, VALIDATE, S7) && MayConvert(S7)
  {
    V.VerdictIsSound(POLICY, true, S6.entries, S6.normalized, [DAY_CHUNK]);
    TicksRead();
    TicksOfOne(DAY_TICK);
    TicksAreGood();
    hide TicksOf, IsValid, Inside, AllTicks, V.ValidationOf;
    assert V.ChunkSound(S6.entries, S6.normalized, DAY_CHUNK);
    assert V.RowsRejected(S6.entries, [DAY_CHUNK]) == 0 by {
      assert [DAY_CHUNK][..0] == [];
      assert V.RowsRejected(S6.entries, []) == 0;
    }
  }

  lemma PrintedDate()
    ensures W.PrintDate(START_MS) == "2024.02.01"
  {
    StartOfDay();
    DateOfOrdinal(DATE);
    DateTextOfDate();
    hide Ordinal, DateOf, W.DateText;
    assert START_MS / Calendar.MS_PER_DAY + EPOCH_ORDINAL == 738917;
  }

  lemma DateTextOfDate()
    ensures W.DateText(DATE) == "2024.02.01"
  {
    assert Pad4(2024) == "2024" && Pad2(2) == "02" && Pad2(1) == "01";
  }

  lemma PrintedTime()
    ensures W.PrintTime(START_MS) == "00:00:00.000"
  {
    assert START_MS / 1000 % 86_400 == 0 && START_MS % 1000 == 0;
    assert Pad2(0) == "00" && Pad3(0) == "000";
  }

  lemma Printed()
    ensures C.ImageOf(ZONE, S.Utc, MONTH_TICK) == LINE
  {
    PrintedDate();
    PrintedTime();
    hide W.PrintDate, W.PrintTime;
  }

  lemma OneFile()
    ensures C.RecordOk("", FILE) && C.KeyOf(FILE) == "2024-02"
    ensures C.Concatenated([FILE]) == [LINE] && C.TickTotal([FILE]) == 1
  {
    assert [FILE][..0] == [];
    assert C.Concatenated([]) == [] && C.TickTotal([]) == 0;
    assert C.Concatenated([FILE]) == [] + [LINE];
    assert C.MonthKey(LINE.date) == "2024-02";
  }

  lemma OneFileIsTheImage()
    ensures C.Converted(ZONE, S.Utc, "", [MONTH_TICK], [FILE], 1)
  {
    OneFile();
    Printed();
    hide C.RecordOk, C.KeyOf, C.Concatenated, C.TickTotal, C.ImageOf;
    assert C.WallsAscend(ZONE, S.Utc, [MONTH_TICK]);
    assert C.Image(ZONE, S.Utc, [MONTH_TICK]) == [LINE];
  }

  /** The month plan converts, although nothing has validated it. */
  lemma Converting()
    ensures Next(PLANS, S7, CONVERT, S8)
  {
    Validating();
    TicksRead();
    OneFileIsTheImage();
    TicksOfOne(MONTH_TICK);
    hide TicksOf, ValidationAt, AllTicks, MayConvert, FingerprintOf, C.Converted;
    assert C.ChunkReadable(S7.entries, S7.normalized, MONTH_CHUNK);
  }

  lemma MonthIsComplete()
    ensures !NothingComplete(S7, [MONTH_CHUNK])
  {
    hide ValidationAt;
    assert [MONTH_CHUNK][0].chunkId == M;
  }

  /**
   Changing the chunk unit between validation and conversion lets unvalidated data through: this
   run converts a tick that the validation it relied on never read.
   */
  lemma UnvalidatedDataIsConverted()
    ensures ValidPlans(PLANS, DATE, DATE) && ConvertedAfter(PLANS, RUN, STEPS, 6, 7)
    ensures AllTicks(RUN[6].entries, RUN[6].normalized, PlanOf(PLANS, STEPS[6].unit)) == [DAY_TICK]
    ensures AllTicks(RUN[7].entries, RUN[7].normalized, PlanOf(PLANS, STEPS[7].unit)) == [MONTH_TICK]
    ensures !ReadAsValidated(RUN[6], PlanOf(PLANS, STEPS[6].unit), RUN[7], PlanOf(PLANS, STEPS[7].unit))
  {
    DateIsPlanned();
    Planning();
    Downloading();
    Normalizing();
    Validating();
    Converting();
    TicksRead();
    hide Next, AllTicks, ValidationAt, FingerprintOf, C.Directory, ValidPlans, ReadAsValidated;
    forall i | 0 <= i < |STEPS|
      ensures Next(PLANS, RUN[i], STEPS[i], RUN[i + 1])
    {
    }
    MonthIsComplete();
    UnitDecides(PLANS, DATE, DATE, RUN, STEPS, 6, 7);
  }
}
