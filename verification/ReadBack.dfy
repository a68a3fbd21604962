/**
 Reading converted files again with the reader of tab files: conversion loses nothing but the
 volumes and the one ambiguous hour of the year.
 */
module ReadBack {
  import opened Text
  import opened Floats
  import opened Ticks
  import opened Calendar
  import opened WallClock
  import opened ServerTime
  import opened TabFile
  import opened Convert

  /** How prices are printed. */
  type Format = Num -> string

  /** Printed prices hold no tab and read back as themselves. */
  ghost predicate RoundTrips(format: Format, readers: Readers) {
    forall v: real :: '\t' !in format(Finite(v)) && readers.number(format(Finite(v))) == Some(Finite(v))
  }

  /** The text of a data line. */
  function TextOf(format: Format, line: OutLine): string {
    line.date + "\t" + line.time + "\t" + format(line.bid) + "\t" + format(line.ask) + "\t\t"
  }

  function FileText(format: Format, header: string, lines: seq<OutLine>): (text: seq<string>)
    ensures |text| == |lines| + 1
  {
    [header] + seq(|lines|, i requires 0 <= i < |lines| => TextOf(format, lines[i]))
  }

  /** What reading the files one after another yields. */
  function RowsRead(zone: Zone, rule: Rule, readers: Readers, format: Format, header: string,
          files: seq<MonthRecord>): seq<Row> {
    if files == [] then []
    else
      RowsRead(zone, rule, readers, format, header, files[..|files| - 1])
      + RowsOf(zone, rule, readers, FileText(format, header, files[|files| - 1].sha256.content))
  }

  /** A tick as it comes back: without volumes, and an hour late in the last hour of New York summer time. */
  ghost function TickRead(zone: Zone, rule: Rule, tick: Tick): Tick {
    var late := if rule.NyClose? && LastSummerHour(zone, tick.timestampMs) then MS_PER_HOUR else 0;
    Tick(tick.timestampMs + late, tick.bid, tick.ask, Finite(0.0), Finite(0.0))
  }

  function RowAt(zone: Zone, rule: Rule, readers: Readers, format: Format, line: OutLine): Option<Row> {
    RowOf(zone, rule, readers, TextOf(format, line))
  }

  lemma {:induction false} RowsOfFile(zone: Zone, rule: Rule, readers: Readers, format: Format, header: string,
          lines: seq<OutLine>)
    requires header != "" && header[0] == '<'
    requires forall i :: 0 <= i < |lines| ==> RowAt(zone, rule, readers, format, lines[i]).Some?
    ensures var rows := RowsOf(zone, rule, readers, FileText(format, header, lines));
      && |rows| == |lines|
      && forall i :: 0 <= i < |lines| ==> Some(rows[i]) == RowAt(zone, rule, readers, format, lines[i])
  {
    hide RowOf, TextOf;
    var text := FileText(format, header, lines);
    if lines != [] {
      var n := |lines| - 1;
      RowsOfFile(zone, rule, readers, format, header, lines[..n]);
      assert text[..|text| - 1] == FileText(format, header, lines[..n]);
      assert text[|text| - 1] == TextOf(format, lines[n]);
      assert RowAt(zone, rule, readers, format, lines[n]).Some?;
    }
  }

  lemma {:induction false} RowsOfFiles(zone: Zone, rule: Rule, readers: Readers, format: Format, header: string,
          files: seq<MonthRecord>)
    requires header != "" && header[0] == '<'
    requires forall i :: 0 <= i < |Concatenated(files)| ==>
      RowAt(zone, rule, readers, format, Concatenated(files)[i]).Some?
    ensures var rows := RowsRead(zone, rule, readers, format, header, files);
      && |rows| == |Concatenated(files)|
      && forall i :: 0 <= i < |rows| ==> Some(rows[i]) == RowAt(zone, rule, readers, format, Concatenated(files)[i])
  {
    hide RowsOf, RowAt, FileText;
    if files != [] {
      var n := |files| - 1;
      var init, last := Concatenated(files[..n]), files[n].sha256.content;
      assert Concatenated(files) == init + last;
      assert forall i :: 0 <= i < |init| ==> init[i] == Concatenated(files)[i];
      assert forall i :: 0 <= i < |last| ==> last[i] == Concatenated(files)[|init| + i];
      RowsOfFiles(zone, rule, readers, format, header, files[..n]);
      RowsOfFile(zone, rule, readers, format, header, last);
    }
  }

  lemma ImageReadsBack(zone: Zone, rule: Rule, readers: Readers, format: Format, tick: Tick)
    requires ValidZone(zone) && ReadsDigits(readers.toInt) && RoundTrips(format, readers)
    requires 0 <= ToWall(zone, rule, tick.timestampMs) < END_WALL_MS && IsValid(tick)
    ensures RowAt(zone, rule, readers, format, ImageOf(zone, rule, tick)) == Some(Parsed(TickRead(zone, rule, tick)))
  {
    hide *;
    ValidMeans(tick);
    PricesReadBack(readers, format, tick.bid);
    PricesReadBack(readers, format, tick.ask);
    EpochIsLater();
    TextIsLine(zone, rule, format, tick);
    ConvertedLineReadsBack(zone, rule, readers, tick.timestampMs, format(tick.bid), format(tick.ask));
    RowIs(zone, rule, readers, format, ImageOf(zone, rule, tick));
    TickReadIs(zone, rule, tick);
  }

  lemma EpochIsLater()
    ensures MIN_WALL_MS <= 0
  {}

  lemma RowIs(zone: Zone, rule: Rule, readers: Readers, format: Format, line: OutLine)
    ensures RowAt(zone, rule, readers, format, line) == RowOf(zone, rule, readers, TextOf(format, line))
  {
    hide RowOf;
  }

  lemma TickReadIs(zone: Zone, rule: Rule, tick: Tick)
    ensures TickRead(zone, rule, tick)
      == Tick(if rule.NyClose? && LastSummerHour(zone, tick.timestampMs) then tick.timestampMs + MS_PER_HOUR
              else tick.timestampMs, tick.bid, tick.ask, Finite(0.0), Finite(0.0))
  {
    hide LastSummerHour;
  }

  lemma TextIsLine(zone: Zone, rule: Rule, format: Format, tick: Tick)
    requires MIN_WALL_MS <= 0 <= ToWall(zone, rule, tick.timestampMs)
    ensures TextOf(format, ImageOf(zone, rule, tick))
      == LineOf(ToWall(zone, rule, tick.timestampMs), format(tick.bid), format(tick.ask))
  {
    hide PrintDate, PrintTime, ToWall;
  }

  lemma PricesReadBack(readers: Readers, format: Format, price: Num)
    requires RoundTrips(format, readers) && price.Finite?
    ensures '\t' !in format(price) && readers.number(format(price)) == Some(price)
  {
    assert price == Finite(price.v);
  }

  /**
   A converted dataset, read again under the rule it was written with, is the stream it was written
   from: the same ticks in the same order, none lost and none added, with their own prices, and
   with their own instants outside the ambiguous hour.
   */
  lemma OutputReadsBack(zone: Zone, rule: Rule, readers: Readers, format: Format, header: string, prefix: string,
          ticks: seq<Tick>, files: seq<MonthRecord>, total: nat)
    requires ValidZone(zone) && ReadsDigits(readers.toInt) && RoundTrips(format, readers)
    requires header != "" && header[0] == '<'
    requires Converted(zone, rule, prefix, ticks, files, total) && FourDigitYears(zone, rule, ticks)
    requires forall i :: 0 <= i < |ticks| ==> IsValid(ticks[i])
    ensures var rows := RowsRead(zone, rule, readers, format, header, files);
      && |rows| == |ticks|
      && forall i :: 0 <= i < |ticks| ==> rows[i] == Parsed(TickRead(zone, rule, ticks[i]))
  {
    hide RowsRead, RowAt, ToWall, IsValid, ReadsDigits, RoundTrips, ImageOf, TickRead, RecordsOk, KeysIncrease;
    var lines := Concatenated(files);
    assert lines == Image(zone, rule, ticks);
    forall i | 0 <= i < |ticks|
      ensures RowAt(zone, rule, readers, format, lines[i]) == Some(Parsed(TickRead(zone, rule, ticks[i])))
    {
      ImageReadsBack(zone, rule, readers, format, ticks[i]);
    }
    RowsOfFiles(zone, rule, readers, format, header, files);
  }
}
