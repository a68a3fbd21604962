/**
 Server wall-clock text `YYYY.MM.DD` and `HH:MM:SS.mmm`: the formatter that keeps the last second
 it printed, the printer it must agree with, and the two parsers that read the text back.
 */
module WallClock {
  import opened Calendar
  import opened Text

  const MS_PER_SECOND := 1000
  const SECONDS_PER_DAY := 86_400

  /** The first and one past the last millisecond of the years 1 to 9999. */
  const MIN_WALL_MS := (1 - EPOCH_ORDINAL) * MS_PER_DAY
  const END_WALL_MS := (3_652_059 + 1 - EPOCH_ORDINAL) * MS_PER_DAY

  /** The calendar date of a wall time. */
  function WallDate(wallMs: int): (d: Date)
    requires wallMs >= MIN_WALL_MS
    ensures ValidDate(d)
  {
    DateOf(wallMs / MS_PER_DAY + EPOCH_ORDINAL)
  }

  function DateText(d: Date): string
    requires ValidDate(d)
  {
    YearText(d.year) + "." + Pad2(d.month) + "." + Pad2(d.day)
  }

  function ClockText(secondOfDay: int): string
    requires 0 <= secondOfDay < SECONDS_PER_DAY
  {
    Pad2(secondOfDay / 3600) + ":" + Pad2(secondOfDay / 60 % 60) + ":" + Pad2(secondOfDay % 60)
  }

  /** The date part of a printed wall time. */
  function PrintDate(wallMs: int): string
    requires wallMs >= MIN_WALL_MS
  {
    DateText(WallDate(wallMs))
  }

  /** The time part of a printed wall time. */
  function PrintTime(wallMs: int): string {
    ClockText(wallMs / MS_PER_SECOND % SECONDS_PER_DAY) + "." + Pad3(wallMs % MS_PER_SECOND)
  }

  function Print(wallMs: int): string
    requires wallMs >= MIN_WALL_MS
  {
    PrintDate(wallMs) + " " + PrintTime(wallMs)
  }

  lemma SameSecondSameText(a: int, b: int)
    requires a >= MIN_WALL_MS && b >= MIN_WALL_MS
    requires a / MS_PER_SECOND == b / MS_PER_SECOND
    ensures PrintDate(a) == PrintDate(b)
  {
    hide DateText, DateOf;
    assert a / MS_PER_DAY == a / MS_PER_SECOND / SECONDS_PER_DAY;
    assert b / MS_PER_DAY == b / MS_PER_SECOND / SECONDS_PER_DAY;
  }

  lemma DateTextNonEmpty(d: Date)
    requires ValidDate(d)
    ensures DateText(d) != ""
  {}

  /** Prints wall times, reusing the date and clock text while the second does not change. */
  class WallClockFormatter {
    var second: int
    var date: string
    var time: string

    /** Before the first call the remembered second is -1 and the texts are empty. */
    ghost predicate Fresh()
      reads this
    {
      second == -1 && date == "" && time == ""
    }

    ghost predicate Remembers()
      reads this
    {
      && second * MS_PER_SECOND >= MIN_WALL_MS
      && date == PrintDate(second * MS_PER_SECOND)
      && time == ClockText(second % SECONDS_PER_DAY)
    }

    ghost predicate Valid()
      reads this
    {
      Fresh() || Remembers()
    }

    constructor ()
      ensures Fresh()
    {
      second, date, time := -1, "", "";
    }

    /**
     The result is the stateless printer's, except that a formatter that has printed nothing
     yet prints an empty date for the last second before the epoch.
     */
    method Format(wallMs: int) returns (dateText: string, timeText: string)
      requires Valid() && wallMs >= MIN_WALL_MS
      modifies this
      ensures Valid() && second == wallMs / MS_PER_SECOND
      ensures dateText == PrintDate(wallMs) <==> !(old(Fresh()) && wallMs / MS_PER_SECOND == -1)
      ensures dateText == PrintDate(wallMs) ==> timeText == PrintTime(wallMs) && Remembers()
      ensures dateText != PrintDate(wallMs) ==> dateText == "" && Fresh()
    {
      hide DateText, ClockText, Pad3, DateOf;
      var now, millis := wallMs / MS_PER_SECOND, wallMs % MS_PER_SECOND;
      if now != second {
        second := now;
        date := DateText(DateOf(now / SECONDS_PER_DAY + EPOCH_ORDINAL));
        time := ClockText(now % SECONDS_PER_DAY);
      }
      assert now * MS_PER_SECOND / MS_PER_SECOND == now;
      SameSecondSameText(wallMs, now * MS_PER_SECOND);
      assert now * MS_PER_SECOND / MS_PER_DAY == now / SECONDS_PER_DAY;
      DateTextNonEmpty(WallDate(wallMs));
      dateText, timeText := date, time + "." + Pad3(millis);
    }
  }

  /** Any sequence of wall times from the epoch on prints as the stateless printer would. */
  method FormatAll(walls: seq<int>) returns (texts: seq<string>)
    requires forall i :: 0 <= i < |walls| ==> walls[i] >= 0
    ensures |texts| == |walls|
    ensures forall i :: 0 <= i < |walls| ==> texts[i] == Print(walls[i])
  {
    hide DateText, ClockText, Pad3, DateOf, PrintDate, PrintTime;
    var formatter := new WallClockFormatter();
    texts := [];
    for k := 0 to |walls|
      invariant formatter.Valid() && fresh(formatter)
      invariant |texts| == k
      invariant forall i :: 0 <= i < k ==> texts[i] == Print(walls[i])
    {
      var dateText, timeText := formatter.Format(walls[k]);
      texts := texts + [dateText + " " + timeText];
    }
  }

  // ---------- reading the text back ----------

  predicate RealDate(year: int, month: int, day: int) {
    year <= MAX_YEAR && ValidDate(Date(year, month, day))
  }

  /** Reads `YYYY.MM.DD HH:MM:SS.mmm` in its fixed layout. */
  function WallTextToMs(text: string): Option<int> {
    var inLayout := |text| >= 23 && text[4] == text[7] == '.' && text[10] == ' ' && text[13] == text[16] == ':';
    if !inLayout then None
    else
      match (ParseInt(text[..4]), ParseInt(text[5..7]), ParseInt(text[8..10]))
      case (Some(y), Some(mo), Some(d)) =>
        (match (ParseInt(text[11..13]), ParseInt(text[14..16]), ParseInt(text[17..19]), ParseInt(text[20..23]))
         case (Some(h), Some(mi), Some(s), Some(ms)) =>
           if RealDate(y, mo, d) && h < 24 && mi < 60 && s < 60 then
             Some(UtcDateToMs(Date(y, mo, d)) + ((h * 60 + mi) * 60 + s) * MS_PER_SECOND + ms)
           else None
         case _ => None)
      case _ => None
  }

  /** An integer reader, which may accept more than plain digits but reads those as numbers. */
  ghost predicate ReadsDigits(toInt: string -> Option<int>) {
    forall s :: ParseInt(s).Some? ==> toInt(s) == Some(ParseInt(s).value)
  }

  function ParseDay(toInt: string -> Option<int>, dateText: string): Option<int> {
    var parts := Split(dateText, '.');
    if |parts| != 3 then None
    else
      match (toInt(parts[0]), toInt(parts[1]), toInt(parts[2]))
      case (Some(y), Some(mo), Some(d)) => if RealDate(y, mo, d) then Some(UtcDateToMs(Date(y, mo, d))) else None
      case _ => None
  }

  /** The text before the first `c`, and the text after it, which is empty when `c` does not occur. */
  function Partition(s: string, c: char): (string, string) {
    if s == [] then ([], [])
    else if s[0] == c then ([], s[1..])
    else var (head, tail) := Partition(s[1..], c); ([s[0]] + head, tail)
  }

  /** Up to three fraction digits as milliseconds. */
  function FractionMs(toInt: string -> Option<int>, fraction: string): Option<int> {
    if fraction == [] then Some(0)
    else toInt((fraction + "000")[..3])
  }

  function ParseClock(toInt: string -> Option<int>, timeText: string): Option<int> {
    var (clock, fraction) := Partition(timeText, '.');
    var parts := Split(clock, ':');
    if |parts| != 3 then None
    else
      match (toInt(parts[0]), toInt(parts[1]), toInt(parts[2]), FractionMs(toInt, fraction))
      case (Some(h), Some(mi), Some(s), Some(ms)) => Some(((h * 60 + mi) * 60 + s) * MS_PER_SECOND + ms)
      case _ => None
  }

  /** Reads a date and a time without remembering anything. */
  function ParseWall(toInt: string -> Option<int>, dateText: string, timeText: string): Option<int> {
    match (ParseDay(toInt, dateText), ParseClock(toInt, timeText))
    case (Some(day), Some(clock)) => Some(day + clock)
    case _ => None
  }

  /** The parser of MT5 tab files, which remembers the start of every day it has read. */
  class DayCache {
    const toInt: string -> Option<int>
    var days: map<string, int>

    ghost predicate Valid()
      reads this
    {
      forall text :: text in days ==> ParseDay(toInt, text) == Some(days[text])
    }

    constructor (toInt: string -> Option<int>)
      ensures Valid() && days == map[] && this.toInt == toInt
    {
      this.toInt := toInt;
      days := map[];
    }

    method ParseWallMs(dateText: string, timeText: string) returns (wallMs: Option<int>)
      requires Valid()
      modifies this
      ensures Valid() && wallMs == ParseWall(toInt, dateText, timeText)
    {
      hide ParseDay, ParseClock;
      var day: int;
      if dateText in days {
        day := days[dateText];
      } else {
        match ParseDay(toInt, dateText) {
          case None => return None;
          case Some(start) =>
            day := start;
            days := days[dateText := start];
        }
      }
      match ParseClock(toInt, timeText) {
        case None => return None;
        case Some(clock) => return Some(day + clock);
      }
    }
  }

  lemma DateTextShape(d: Date)
    requires ValidDate(d) && d.year <= MAX_YEAR
    ensures |DateText(d)| == 10 && ' ' !in DateText(d)
    ensures Split(DateText(d), '.') == [Pad4(d.year), Pad2(d.month), Pad2(d.day)]
    ensures var t := DateText(d);
      t[4] == '.' && t[7] == '.' && t[..4] == Pad4(d.year) && t[5..7] == Pad2(d.month) && t[8..] == Pad2(d.day)
  {
    hide Pad4, Pad2, Split;
    PadLacks(d.year, '.');
    PadLacks(d.month, '.');
    PadLacks(d.day, '.');
    PadLacks(d.year, ' ');
    PadLacks(d.month, ' ');
    PadLacks(d.day, ' ');
    PadLengths(d.year);
    PadLengths(d.month);
    PadLengths(d.day);
    SplitThree(Pad4(d.year), '.', Pad2(d.month), Pad2(d.day));
  }

  lemma ParseDayUndoesPrinter(toInt: string -> Option<int>, d: Date)
    requires ReadsDigits(toInt) && ValidDate(d) && d.year <= MAX_YEAR
    ensures ParseDay(toInt, DateText(d)) == Some(UtcDateToMs(d))
  {
    hide Pad4, Pad2, ParseInt, Split, DateText, UtcDateToMs;
    DateTextShape(d);
    ParsePad4(d.year);
    ParsePad2(d.month);
    ParsePad2(d.day);
  }

  lemma ClockTextShape(s: int)
    requires 0 <= s < SECONDS_PER_DAY
    ensures |ClockText(s)| == 8 && '.' !in ClockText(s)
    ensures Split(ClockText(s), ':') == [Pad2(s / 3600), Pad2(s / 60 % 60), Pad2(s % 60)]
    ensures var t := ClockText(s);
      t[2] == ':' && t[5] == ':' && t[..2] == Pad2(s / 3600) && t[3..5] == Pad2(s / 60 % 60) && t[6..] == Pad2(s % 60)
  {
    hide Pad2, Split;
    PadLacks(s / 3600, ':');
    PadLacks(s / 60 % 60, ':');
    PadLacks(s % 60, ':');
    PadLacks(s / 3600, '.');
    PadLacks(s / 60 % 60, '.');
    PadLacks(s % 60, '.');
    PadLengths(s / 3600);
    PadLengths(s / 60 % 60);
    PadLengths(s % 60);
    SplitThree(Pad2(s / 3600), ':', Pad2(s / 60 % 60), Pad2(s % 60));
  }

  lemma {:induction false} PartitionAt(a: string, c: char, b: string)
    requires c !in a
    ensures Partition(a + [c] + b, c) == (a, b)
  {
    var s := a + [c] + b;
    if a == [] {
      assert s[1..] == b;
    } else {
      NotInTail(a, c);
      assert s[1..] == a[1..] + [c] + b;
      PartitionAt(a[1..], c, b);
      assert a == [a[0]] + a[1..];
    }
  }

  lemma YearInRange(wallMs: int)
    requires MIN_WALL_MS <= wallMs < END_WALL_MS
    ensures WallDate(wallMs).year <= MAX_YEAR
    ensures UtcDateToMs(WallDate(wallMs)) == wallMs / MS_PER_DAY * MS_PER_DAY
  {
    var n := wallMs / MS_PER_DAY + EPOCH_ORDINAL;
    OrdinalOfDateOf(n);
    LastOrdinal();
    OrdinalOrder(Date(MAX_YEAR, 12, 31), DateOf(n));
  }

  /** The tab-file parser recovers the exact millisecond from a printed wall time. */
  lemma ParseWallUndoesPrinter(toInt: string -> Option<int>, wallMs: int)
    requires ReadsDigits(toInt) && MIN_WALL_MS <= wallMs < END_WALL_MS
    ensures ParseWall(toInt, PrintDate(wallMs), PrintTime(wallMs)) == Some(wallMs)
  {
    hide DateText, ClockText, Pad2, Pad3, ParseInt, Split, Partition, ParseDay, WallDate, UtcDateToMs, ReadsDigits;
    var s, ms := wallMs / MS_PER_SECOND % SECONDS_PER_DAY, wallMs % MS_PER_SECOND;
    YearInRange(wallMs);
    ParseDayUndoesPrinter(toInt, WallDate(wallMs));
    ParseClockUndoesPrinter(toInt, s, ms);
    DayParts(wallMs);
  }

  lemma ParseClockUndoesPrinter(toInt: string -> Option<int>, s: int, ms: int)
    requires ReadsDigits(toInt) && 0 <= s < SECONDS_PER_DAY && 0 <= ms < MS_PER_SECOND
    ensures ParseClock(toInt, ClockText(s) + "." + Pad3(ms)) == Some(s * MS_PER_SECOND + ms)
  {
    PadLengths(ms);
    FractionsRead(toInt, s, ms, Pad3(ms));
  }

  /** The fraction stands for these milliseconds: it goes on after them, or leaves out only zeros at their end. */
  ghost predicate StandsFor(fraction: string, ms: int)
    requires 0 <= ms < MS_PER_SECOND
  {
    || Pad3(ms) <= fraction
    || (fraction != "" && fraction <= Pad3(ms) && forall i :: |fraction| <= i < |Pad3(ms)| ==> Pad3(ms)[i] == '0')
  }

  /** A clock text may have any number of fraction digits, or none; those beyond the third are cut off. */
  lemma FractionsRead(toInt: string -> Option<int>, s: int, ms: int, fraction: string)
    requires ReadsDigits(toInt) && 0 <= s < SECONDS_PER_DAY && 0 <= ms < MS_PER_SECOND && StandsFor(fraction, ms)
    ensures ParseClock(toInt, ClockText(s) + "." + fraction) == Some(s * MS_PER_SECOND + ms)
    ensures ParseClock(toInt, ClockText(s)) == Some(s * MS_PER_SECOND)
  {
    hide ClockText, Pad2, Pad3, ParseInt, Split, Partition;
    ClockTextShape(s);
    ClockParts(s);
    ParsePad2(s / 3600);
    ParsePad2(s / 60 % 60);
    ParsePad2(s % 60);
    ParsePad3(ms);
    PadLengths(ms);
    PartitionAt(ClockText(s), '.', fraction);
    PartitionWhole(ClockText(s), '.');
    assert (fraction + "000")[..3] == Pad3(ms);
  }

  lemma {:induction false} PartitionWhole(a: string, c: char)
    requires c !in a
    ensures Partition(a, c) == (a, [])
  {
    if a != [] {
      NotInTail(a, c);
      PartitionWhole(a[1..], c);
      assert a == [a[0]] + a[1..];
    }
  }

  lemma DayParts(wallMs: int)
    ensures wallMs % MS_PER_DAY == wallMs / MS_PER_SECOND % SECONDS_PER_DAY * MS_PER_SECOND + wallMs % MS_PER_SECOND
    ensures wallMs == wallMs / MS_PER_DAY * MS_PER_DAY + wallMs % MS_PER_DAY
  {}

  lemma ClockParts(s: int)
    requires 0 <= s < SECONDS_PER_DAY
    ensures s == ((s / 3600) * 60 + s / 60 % 60) * 60 + s % 60
  {}

  /** The fields of a printed wall time sit at fixed places. */
  lemma PrintLayout(d: Date, s: int, ms: int)
    requires ValidDate(d) && d.year <= MAX_YEAR && 0 <= s < SECONDS_PER_DAY && 0 <= ms < MS_PER_SECOND
    ensures var t := DateText(d) + " " + (ClockText(s) + "." + Pad3(ms));
      && |t| == 23 && t[4] == '.' && t[7] == '.' && t[10] == ' ' && t[13] == ':' && t[16] == ':'
      && t[..4] == Pad4(d.year) && t[5..7] == Pad2(d.month) && t[8..10] == Pad2(d.day)
      && t[11..13] == Pad2(s / 3600) && t[14..16] == Pad2(s / 60 % 60) && t[17..19] == Pad2(s % 60)
      && t[20..23] == Pad3(ms)
  {
    DateTextShape(d);
    ClockTextShape(s);
    PadLengths(ms);
    hide *;
    var t := DateText(d) + " " + (ClockText(s) + "." + Pad3(ms));
    assert t[..4] == DateText(d)[..4];
    assert t[5..7] == DateText(d)[5..7];
    assert t[8..10] == DateText(d)[8..];
    assert t[11..13] == ClockText(s)[..2];
    assert t[14..16] == ClockText(s)[3..5];
    assert t[17..19] == ClockText(s)[6..];
  }

  /** The fixed-layout parser recovers the exact millisecond from a printed wall time. */
  lemma WallTextToMsUndoesPrinter(wallMs: int)
    requires MIN_WALL_MS <= wallMs < END_WALL_MS
    ensures WallTextToMs(Print(wallMs)) == Some(wallMs)
  {
    hide DateText, ClockText, Pad2, Pad3, Pad4, ParseInt, WallDate, UtcDateToMs;
    var d, s, ms := WallDate(wallMs), wallMs / MS_PER_SECOND % SECONDS_PER_DAY, wallMs % MS_PER_SECOND;
    YearInRange(wallMs);
    DayParts(wallMs);
    ClockParts(s);
    PrintLayout(d, s, ms);
    ParsePad4(d.year);
    ParsePad2(d.month);
    ParsePad2(d.day);
    ParsePad2(s / 3600);
    ParsePad2(s / 60 % 60);
    ParsePad2(s % 60);
    ParsePad3(ms);
  }

  // ---------- text order is time order ----------

  lemma DateTextOrder(a: Date, b: Date)
    requires ValidDate(a) && ValidDate(b) && a.year <= MAX_YEAR && b.year <= MAX_YEAR
    ensures LexLess(DateText(a), DateText(b)) <==> DateLess(a, b)
    ensures DateText(a) == DateText(b) <==> a == b
  {
    Pad4Order(a.year, b.year);
    Pad2Order(a.month, b.month);
    Pad2Order(a.day, b.day);
    assert DateText(a) == Pad4(a.year) + ("." + (Pad2(a.month) + ("." + Pad2(a.day))));
    assert DateText(b) == Pad4(b.year) + ("." + (Pad2(b.month) + ("." + Pad2(b.day))));
    LexConcat(Pad4(a.year), Pad4(b.year), "." + (Pad2(a.month) + ("." + Pad2(a.day))),
      "." + (Pad2(b.month) + ("." + Pad2(b.day))));
    LexAfterMark(Pad2(a.month) + ("." + Pad2(a.day)), Pad2(b.month) + ("." + Pad2(b.day)), '.');
    LexConcat(Pad2(a.month), Pad2(b.month), "." + Pad2(a.day), "." + Pad2(b.day));
    LexAfterMark(Pad2(a.day), Pad2(b.day), '.');
    DateTextShape(a);
    DateTextShape(b);
  }

  lemma LexAfterMark(a: string, b: string, c: char)
    ensures LexLess([c] + a, [c] + b) <==> LexLess(a, b)
  {
    assert ([c] + a)[1..] == a && ([c] + b)[1..] == b;
  }

  lemma ClockTextOrder(a: int, b: int)
    requires 0 <= a < SECONDS_PER_DAY && 0 <= b < SECONDS_PER_DAY
    ensures LexLess(ClockText(a), ClockText(b)) <==> a < b
    ensures ClockText(a) == ClockText(b) <==> a == b
  {
    Pad2Order(a / 3600, b / 3600);
    Pad2Order(a / 60 % 60, b / 60 % 60);
    Pad2Order(a % 60, b % 60);
    assert ClockText(a) == Pad2(a / 3600) + (":" + (Pad2(a / 60 % 60) + (":" + Pad2(a % 60))));
    assert ClockText(b) == Pad2(b / 3600) + (":" + (Pad2(b / 60 % 60) + (":" + Pad2(b % 60))));
    LexConcat(Pad2(a / 3600), Pad2(b / 3600), ":" + (Pad2(a / 60 % 60) + (":" + Pad2(a % 60))),
      ":" + (Pad2(b / 60 % 60) + (":" + Pad2(b % 60))));
    LexAfterMark(Pad2(a / 60 % 60) + (":" + Pad2(a % 60)), Pad2(b / 60 % 60) + (":" + Pad2(b % 60)), ':');
    LexConcat(Pad2(a / 60 % 60), Pad2(b / 60 % 60), ":" + Pad2(a % 60), ":" + Pad2(b % 60));
    LexAfterMark(Pad2(a % 60), Pad2(b % 60), ':');
    ClockTextShape(a);
    ClockTextShape(b);
    ClockParts(a);
    ClockParts(b);
  }

  lemma TimeTextOrder(a: int, b: int)
    ensures var x, y := a % MS_PER_DAY, b % MS_PER_DAY;
      && (LexLess(PrintTime(a), PrintTime(b)) <==> x < y)
      && (PrintTime(a) == PrintTime(b) <==> x == y)
  {
    var s, t := a / MS_PER_SECOND % SECONDS_PER_DAY, b / MS_PER_SECOND % SECONDS_PER_DAY;
    ClockTextOrder(s, t);
    ClockTextShape(s);
    ClockTextShape(t);
    Pad3Order(a % MS_PER_SECOND, b % MS_PER_SECOND);
    assert PrintTime(a) == ClockText(s) + ("." + Pad3(a % MS_PER_SECOND));
    assert PrintTime(b) == ClockText(t) + ("." + Pad3(b % MS_PER_SECOND));
    LexConcat(ClockText(s), ClockText(t), "." + Pad3(a % MS_PER_SECOND), "." + Pad3(b % MS_PER_SECOND));
    LexAfterMark(Pad3(a % MS_PER_SECOND), Pad3(b % MS_PER_SECOND), '.');
    if PrintTime(a) == PrintTime(b) {
      assert PrintTime(a)[..8] == ClockText(s) && PrintTime(b)[..8] == ClockText(t);
      assert PrintTime(a)[9..] == Pad3(a % MS_PER_SECOND) && PrintTime(b)[9..] == Pad3(b % MS_PER_SECOND);
    }
    DayParts(a);
    DayParts(b);
  }

  lemma WallDateOrder(a: int, b: int)
    requires a >= MIN_WALL_MS && b >= MIN_WALL_MS
    ensures DateLess(WallDate(a), WallDate(b)) <==> a / MS_PER_DAY < b / MS_PER_DAY
    ensures WallDate(a) == WallDate(b) <==> a / MS_PER_DAY == b / MS_PER_DAY
  {
    hide DateOf, Ordinal, DateLess;
    var m, n := a / MS_PER_DAY + EPOCH_ORDINAL, b / MS_PER_DAY + EPOCH_ORDINAL;
    DateOfOrder(m, n);
    OrdinalOfDateOf(m);
    OrdinalOfDateOf(n);
  }

  /** Printed dates are equal on the same day and ordered as their days are. */
  lemma PrintDateOrder(a: int, b: int)
    requires MIN_WALL_MS <= a < END_WALL_MS && MIN_WALL_MS <= b < END_WALL_MS
    ensures LexLess(PrintDate(a), PrintDate(b)) <==> a / MS_PER_DAY < b / MS_PER_DAY
    ensures PrintDate(a) == PrintDate(b) <==> a / MS_PER_DAY == b / MS_PER_DAY
    ensures |PrintDate(a)| == |PrintDate(b)| == 10
  {
    hide DateText, WallDate, LexLess;
    YearInRange(a);
    YearInRange(b);
    WallDateOrder(a, b);
    DateTextOrder(WallDate(a), WallDate(b));
    DateTextShape(WallDate(a));
    DateTextShape(WallDate(b));
  }

  /** For four-digit years, printed text is ordered exactly as time is. */
  lemma PrintOrder(a: int, b: int)
    requires MIN_WALL_MS <= a < END_WALL_MS && MIN_WALL_MS <= b < END_WALL_MS
    ensures LexLess(Print(a), Print(b)) <==> a < b
    ensures Print(a) == Print(b) <==> a == b
  {
    hide PrintDate, PrintTime, LexLess;
    PrintDateOrder(a, b);
    TimeTextOrder(a, b);
    var x, y := PrintTime(a), PrintTime(b);
    assert Print(a) == PrintDate(a) + ([' '] + x);
    assert Print(b) == PrintDate(b) + ([' '] + y);
    LexConcat(PrintDate(a), PrintDate(b), [' '] + x, [' '] + y);
    LexAfterMark(x, y, ' ');
    DayParts(a);
    DayParts(b);
    WallTextToMsUndoesPrinter(a);
    WallTextToMsUndoesPrinter(b);
  }
}
