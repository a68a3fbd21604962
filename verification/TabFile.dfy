/**
 MT5 tab files: the line that conversion writes for a tick, and the reader that turns such lines
 into UTC ticks with the help of two caches.
 */
module TabFile {
  import opened Text
  import opened Floats
  import opened Ticks
  import opened Calendar
  import opened WallClock
  import opened ServerTime

  predicate IsBlank(line: string) {
    forall i :: 0 <= i < |line| ==> IsSpace(line[i])
  }

  /** How the text of a file is read: integers and decimal numbers. */
  datatype Readers = Readers(toInt: string -> Option<int>, number: string -> Option<Num>)

  /** The row that a line stands for; a blank line stands for none. */
  function RowOf(zone: Zone, rule: Rule, readers: Readers, line: string): Option<Row> {
    var parts := Split(line, '\t');
    if |parts| < 4 then (if IsBlank(line) then None else Some(Unparsed))
    else
      match (ParseWall(readers.toInt, parts[0], parts[1]), readers.number(parts[2]), readers.number(parts[3]))
      case (Some(wallMs), Some(bid), Some(ask)) =>
        Some(Parsed(Tick(ToUtc(zone, rule, wallMs), bid, ask, Finite(0.0), Finite(0.0))))
      case _ => Some(Unparsed)
  }

  lemma {:induction false} SplitCounts(s: string, c: char)
    ensures |Split(s, c)| == 1 + multiset(s)[c]
  {
    if s != [] {
      SplitCounts(s[1..], c);
      assert s == [s[0]] + s[1..];
    }
  }

  /**
   Every line of a file counts: only a blank line with fewer than three tabs stands for no row, and
   one with fewer than three tabs that is not blank for a rejected row.
   */
  lemma EveryLineCounts(zone: Zone, rule: Rule, readers: Readers, line: string)
    ensures RowOf(zone, rule, readers, line).None?
      <==> multiset(line)['\t'] < 3 && forall c :: c in line ==> IsSpace(c)
    ensures multiset(line)['\t'] < 3 && RowOf(zone, rule, readers, line).Some? ==>
      RowOf(zone, rule, readers, line) == Some(Unparsed)
  {
    SplitCounts(line, '\t');
    hide IsSpace, ParseWall, ToUtc, Split;
    assert forall i :: 0 <= i < |line| ==> line[i] in line;
  }

  predicate IsHeader(lines: seq<string>) {
    lines != [] && lines[0] != "" && lines[0][0] == '<'
  }

  /** The rows of a file read without any cache. */
  function RowsOf(zone: Zone, rule: Rule, readers: Readers, lines: seq<string>): seq<Row> {
    if lines == [] || (|lines| == 1 && IsHeader(lines)) then []
    else
      var init := RowsOf(zone, rule, readers, lines[..|lines| - 1]);
      match RowOf(zone, rule, readers, lines[|lines| - 1])
      case None => init
      case Some(row) => init + [row]
  }

  /** Reading with the day cache and the offset memo gives the same rows as reading without them. */
  method IterMt5Tab(offsets: OffsetCache, rule: Rule,
          readers: Readers, lines: seq<string>) returns (rows: seq<Row>)
    requires offsets.Valid()
    modifies offsets
    ensures offsets.Valid() && rows == RowsOf(offsets.zone, rule, readers, lines)
  {
    hide Split, ParseDay, ParseClock, ToUtc, IsBlank;
    rows := [];
    var days := new DayCache(readers.toInt);
    for k := 0 to |lines|
      invariant offsets.Valid() && days.Valid() && fresh(days) && days.toInt == readers.toInt
      invariant rows == RowsOf(offsets.zone, rule, readers, lines[..k])
    {
      assert lines[..k + 1][..k] == lines[..k] && lines[..k + 1][k] == lines[k];
      if k == 0 && IsHeader(lines) {
        assert IsHeader(lines[..1]);
        continue;
      }
      assert !(|lines[..k + 1]| == 1 && IsHeader(lines[..k + 1]));
      var line := lines[k];
      var parts := Split(line, '\t');
      if |parts| < 4 {
        if !IsBlank(line) {
          rows := rows + [Unparsed];
        }
        continue;
      }
      var wallMs := days.ParseWallMs(parts[0], parts[1]);
      var bid, ask := readers.number(parts[2]), readers.number(parts[3]);
      if wallMs.Some? && bid.Some? && ask.Some? {
        var utcMs := offsets.UtcOf(rule, wallMs.value);
        rows := rows + [Parsed(Tick(utcMs, bid.value, ask.value, Finite(0.0), Finite(0.0)))];
      } else {
        rows := rows + [Unparsed];
      }
    }
    assert lines[..|lines|] == lines;
  }

  /** The line that conversion writes for a tick. */
  function LineOf(wallMs: int, bidText: string, askText: string): string
    requires wallMs >= MIN_WALL_MS
  {
    PrintDate(wallMs) + "\t" + PrintTime(wallMs) + "\t" + bidText + "\t" + askText + "\t\t"
  }

  lemma DateHasNoTab(d: Date)
    requires ValidDate(d) && d.year <= MAX_YEAR
    ensures '\t' !in DateText(d)
  {
    hide Pad2, Pad4;
    PadLacks(d.year, '\t');
    PadLacks(d.month, '\t');
    PadLacks(d.day, '\t');
  }

  lemma ClockHasNoTab(s: int)
    requires 0 <= s < SECONDS_PER_DAY
    ensures '\t' !in ClockText(s)
  {
    hide Pad2;
    PadLacks(s / 3600, '\t');
    PadLacks(s / 60 % 60, '\t');
    PadLacks(s % 60, '\t');
  }

  lemma PrintHasNoTab(wallMs: int)
    requires MIN_WALL_MS <= wallMs < END_WALL_MS
    ensures '\t' !in PrintDate(wallMs) && '\t' !in PrintTime(wallMs)
  {
    hide WallDate, DateText, ClockText, Pad3;
    YearInRange(wallMs);
    DateHasNoTab(WallDate(wallMs));
    ClockHasNoTab(wallMs / MS_PER_SECOND % SECONDS_PER_DAY);
    MillisHaveNoTab(wallMs % MS_PER_SECOND);
  }

  lemma MillisHaveNoTab(ms: int)
    requires 0 <= ms < MS_PER_SECOND
    ensures '\t' !in Pad3(ms)
  {
    DigitReads(ms / 100);
    PadLacks(ms % 100, '\t');
  }

  lemma SplitLine(a: string, b: string, c: string, d: string)
    requires '\t' !in a && '\t' !in b && '\t' !in c && '\t' !in d
    ensures Split(a + "\t" + b + "\t" + c + "\t" + d + "\t\t", '\t') == [a, b, c, d, "", ""]
  {
    var tail2 := d + ['\t'] + "\t";
    var tail1 := c + ['\t'] + tail2;
    var tail0 := b + ['\t'] + tail1;
    hide Split;
    LastTab();
    assert a + "\t" + b + "\t" + c + "\t" + d + "\t\t" == a + ['\t'] + tail0;
    SplitAt(a, '\t', tail0);
    SplitAt(b, '\t', tail1);
    SplitAt(c, '\t', tail2);
    SplitAt(d, '\t', "\t");
  }

  lemma LastTab()
    ensures Split("\t", '\t') == ["", ""]
  {
    assert "\t"[1..] == "";
  }

  /**
   A converted line read back under the same rule gives the tick's own instant, except in the
   last hour of New York summer time, where it gives exactly one hour later.
   */
  lemma ConvertedLineReadsBack(zone: Zone, rule: Rule,
          readers: Readers, utcMs: int, bidText: string, askText: string)
    requires ValidZone(zone) && ReadsDigits(readers.toInt)
    requires MIN_WALL_MS <= ToWall(zone, rule, utcMs) < END_WALL_MS
    requires '\t' !in bidText && '\t' !in askText && readers.number(bidText).Some? && readers.number(askText).Some?
    ensures RowOf(zone, rule, readers, LineOf(ToWall(zone, rule, utcMs), bidText, askText))
         == Some(Parsed(Tick(if rule.NyClose? && LastSummerHour(zone, utcMs) then utcMs + MS_PER_HOUR else utcMs,
                             readers.number(bidText).value, readers.number(askText).value, Finite(0.0), Finite(0.0))))
  {
    hide PrintDate, PrintTime, Split, ParseWall, ReadsDigits, ToUtc, ToWall, LastSummerHour;
    var w := ToWall(zone, rule, utcMs);
    PrintHasNoTab(w);
    SplitLine(PrintDate(w), PrintTime(w), bidText, askText);
    ParseWallUndoesPrinter(readers.toInt, w);
    if rule.NyClose? {
      NyCloseRoundTrip(zone, utcMs);
    } else {
      ConstantShiftRoundTrip(zone, rule, utcMs);
    }
  }
}
