/**
 A concrete run in which a conversion command reuses files of another server time.

 After the run of `UnitChange`, a conversion to another server time is stopped when its files are
 in place but its record is not yet saved. The old record still names the same files, so a later
 conversion to the old server time takes them for its own.
 */
module Interruption {
  import opened Text
  import opened Floats
  import opened Calendar
  import opened Chunks
  import opened Dataset
  import opened Stages
  import opened Pipeline
  import opened UnitChange
  import opened Reuse
  import C = Convert
  import S = ServerTime
  import W = WallClock

  const HOUR_LATER := S.Fixed(1.0)
  const LATER_LINE := LINE.(time := "01:00:00.000")
  const LATER_FILE := C.MonthRecord("2024-02.csv", 1, C.OutSha256([LATER_LINE]), "2024.02.01 01:00:00.000",
      "2024.02.01 01:00:00.000")
  const STOPPED := Convert(Month, ZONE, HOUR_LATER, "", false, Interrupted([LATER_FILE]))
  const AGAIN := Convert(Month, ZONE, S.Utc, "", false, Reused)
  const S9 := S8.(mt5 := C.Directory([LATER_FILE]))

  lemma LaterWall()
    ensures S.ToWall(ZONE, HOUR_LATER, START_MS) == START_MS + 3_600_000
  {}

  lemma LaterTime()
    ensures W.PrintTime(START_MS + 3_600_000) == "01:00:00.000"
  {
    var wall := START_MS + 3_600_000;
    assert wall / 1000 % 86_400 == 3600 && wall % 1000 == 0;
    assert Pad2(1) == "01" && Pad2(0) == "00" && Pad3(0) == "000";
  }

  lemma LaterDate()
    ensures W.PrintDate(START_MS + 3_600_000) == "2024.02.01"
  {
    PrintedDate();
    hide W.DateText, DateOf;
    assert (START_MS + 3_600_000) / Calendar.MS_PER_DAY == START_MS / Calendar.MS_PER_DAY;
  }

  lemma LaterPrinted()
    ensures C.ImageOf(ZONE, HOUR_LATER, MONTH_TICK) == LATER_LINE
  {
    LaterWall();
    LaterTime();
    LaterDate();
    hide W.PrintDate, W.PrintTime, S.ToWall;
  }

  lemma FilesDiffer()
    ensures C.Directory([LATER_FILE]) == map["2024-02.csv" := [LATER_LINE]]
    ensures C.Directory([FILE]) == map["2024-02.csv" := [LINE]]
    ensures C.Directory([LATER_FILE]) != C.Directory([FILE])
  {
    assert [LATER_FILE][..0] == [] && [FILE][..0] == [];
    assert C.Directory([]) == map[];
    assert LATER_LINE.time[1] == '1' && LINE.time[1] == '0';
    assert [LATER_LINE][0] != [LINE][0];
    assert C.Directory([LATER_FILE])["2024-02.csv"] != C.Directory([FILE])["2024-02.csv"];
  }

  lemma Stopping()
    ensures Next(PLANS, S8, STOPPED, S9) && Next(PLANS, S9, AGAIN, S9)
  {
    Validating();
    FilesDiffer();
    hide FingerprintOf, C.Directory, ValidationAt, AllTicks, C.Converted, C.Readable;
    assert MayConvert(S8) && MayConvert(S9);
  }

  /**
   The files found by the last command are those of the stopped conversion, an hour later than
   the server time asked for, and the command reuses them.
   */
  lemma OtherServerTimeIsReused()
    ensures var run, steps := RUN + [S9, S9], STEPS + [STOPPED, AGAIN];
      && IsRun(PLANS, run, steps)
      && steps[9].end.Reused? && steps[9].rule == S.Utc
      && C.ImageOf(ZONE, HOUR_LATER, MONTH_TICK) == LATER_LINE
      && run[10].mt5 == map["2024-02.csv" := [LATER_LINE]] != C.Directory(steps[7].end.files)
      && LastConversion(steps, 7, 9)
  {
    UnvalidatedDataIsConverted();
    LaterPrinted();
    FilesDiffer();
    Stopping();
    hide Next, C.ImageOf, C.Directory, ReadAsValidated, AllTicks, ValidationAt, FingerprintOf;
    RunGoesOn(RUN, STEPS);
    assert (STEPS + [STOPPED, AGAIN])[7] == CONVERT;
  }

  lemma RunGoesOn(earlier: seq<State>, before: seq<Step>)
    requires IsRun(PLANS, earlier, before) && |before| == 8 && earlier[8] == S8
    ensures IsRun(PLANS, earlier + [S9, S9], before + [STOPPED, AGAIN])
  {
    Stopping();
    hide Next, S8, S9;
    var run, steps := earlier + [S9, S9], before + [STOPPED, AGAIN];
    forall i | 0 <= i < |steps|
      ensures Next(PLANS, run[i], steps[i], run[i + 1])
    {
      if i < 8 {
        assert Next(PLANS, earlier[i], before[i], earlier[i + 1]);
      }
    }
  }
}
