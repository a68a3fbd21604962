/**
 Writing a validated dataset as one MT5 tab file per server-time month.
 */
module Convert {
  import opened Text
  import opened Floats
  import opened Ticks
  import opened Calendar
  import opened WallClock
  import opened ServerTime
  import opened Chunks
  import opened Dataset

  /** One data line of an output file. */
  datatype OutLine = OutLine(date: string, time: string, bid: Num, ask: Num)

  /** SHA-256 of an output file, as an ideal hash. */
  datatype OutDigest = OutSha256(content: seq<OutLine>)

  /** What the manifest records about a finished file. */
  datatype MonthRecord = MonthRecord(name: string, ticks: nat, sha256: OutDigest, firstServerTime: string,
      lastServerTime: string)

  function WallText(line: OutLine): string {
    line.date + " " + line.time
  }

  function DashedDots(s: string): (r: string)
    ensures |r| == |s|
  {
    seq(|s|, i requires 0 <= i < |s| => if s[i] == '.' then '-' else s[i])
  }

  /** The month part of a date text, with dots as dashes. */
  function MonthKey(dateText: string): string {
    DashedDots(if |dateText| <= 7 then dateText else dateText[..7])
  }

  function FileName(prefix: string, monthKey: string): string {
    prefix + monthKey + ".csv"
  }

  /** The line that stands for a tick. */
  function ImageOf(zone: Zone, rule: Rule, tick: Tick): OutLine
    requires ToWall(zone, rule, tick.timestampMs) >= 0
  {
    var w := ToWall(zone, rule, tick.timestampMs);
    OutLine(PrintDate(w), PrintTime(w), tick.bid, tick.ask)
  }

  /** Server times start at or after the epoch and never go back. */
  ghost predicate WallsAscend(zone: Zone, rule: Rule, ticks: seq<Tick>) {
    && (forall i :: 0 <= i < |ticks| ==> ToWall(zone, rule, ticks[i].timestampMs) >= 0)
    && (forall i, j :: 0 <= i < j < |ticks| ==>
          ToWall(zone, rule, ticks[i].timestampMs) <= ToWall(zone, rule, ticks[j].timestampMs))
  }

  ghost predicate FourDigitYears(zone: Zone, rule: Rule, ticks: seq<Tick>) {
    forall i :: 0 <= i < |ticks| ==> ToWall(zone, rule, ticks[i].timestampMs) < END_WALL_MS
  }

  function Image(zone: Zone, rule: Rule, ticks: seq<Tick>): (lines: seq<OutLine>)
    requires WallsAscend(zone, rule, ticks)
    ensures |lines| == |ticks|
  {
    seq(|ticks|, i requires 0 <= i < |ticks| => ImageOf(zone, rule, ticks[i]))
  }

  /** All files' lines, one file after another. */
  function Concatenated(files: seq<MonthRecord>): seq<OutLine> {
    if files == [] then [] else Concatenated(files[..|files| - 1]) + files[|files| - 1].sha256.content
  }

  function TickTotal(files: seq<MonthRecord>): nat {
    if files == [] then 0 else TickTotal(files[..|files| - 1]) + files[|files| - 1].ticks
  }

  ghost predicate AllInMonth(lines: seq<OutLine>, monthKey: string) {
    forall i :: 0 <= i < |lines| ==> MonthKey(lines[i].date) == monthKey
  }

  /** A finished file is non-empty, holds a single month, and its record describes it. */
  ghost predicate RecordOk(prefix: string, r: MonthRecord) {
    var lines := r.sha256.content;
    && lines != []
    && AllInMonth(lines, MonthKey(lines[0].date))
    && r.name == FileName(prefix, MonthKey(lines[0].date))
    && r.ticks == |lines|
    && r.firstServerTime == WallText(lines[0])
    && r.lastServerTime == WallText(lines[|lines| - 1])
  }

  ghost predicate RecordsOk(prefix: string, files: seq<MonthRecord>) {
    forall i :: 0 <= i < |files| ==> RecordOk(prefix, files[i])
  }

  function KeyOf(r: MonthRecord): string {
    if r.sha256.content == [] then "" else MonthKey(r.sha256.content[0].date)
  }

  ghost predicate KeysIncrease(files: seq<MonthRecord>) {
    forall i, j :: 0 <= i < j < |files| ==> LexLess(KeyOf(files[i]), KeyOf(files[j]))
  }

  /** The output directory after the files are renamed into place in order. */
  function Directory(files: seq<MonthRecord>): map<string, seq<OutLine>> {
    if files == [] then map[]
    else Directory(files[..|files| - 1])[files[|files| - 1].name := files[|files| - 1].sha256.content]
  }

  // ---------- month keys ----------

  lemma MonthKeyText(d: Date)
    requires ValidDate(d) && d.year <= MAX_YEAR
    ensures MonthKey(DateText(d)) == Pad4(d.year) + "-" + Pad2(d.month)
  {
    DateTextShape(d);
    var t := DateText(d);
    PadLacks(d.year, '.');
    PadLacks(d.month, '.');
    hide Pad2, Pad4, DateText, ParseDay;
    assert t[..7] == t[..4] + [t[4]] + t[5..7];
    var key := MonthKey(t);
    forall i | 0 <= i < 7
      ensures key[i] == (Pad4(d.year) + "-" + Pad2(d.month))[i]
    {
      if i < 4 {
        assert t[..4][i] in Pad4(d.year);
      } else if i > 4 {
        assert t[5..7][i - 5] in Pad2(d.month);
      }
    }
  }

  lemma MonthKeyOrder(a: Date, b: Date)
    requires ValidDate(a) && a.year <= MAX_YEAR && ValidDate(b) && b.year <= MAX_YEAR
    requires a == b || DateLess(a, b)
    ensures LexLessEq(MonthKey(DateText(a)), MonthKey(DateText(b)))
  {
    MonthKeyText(a);
    MonthKeyText(b);
    Pad4Order(a.year, b.year);
    Pad2Order(a.month, b.month);
    PadLengths(a.year);
    PadLengths(b.year);
    hide Pad2, Pad4, DateText, MonthKey, LexLess;
    assert Pad4(a.year) + "-" + Pad2(a.month) == Pad4(a.year) + (['-'] + Pad2(a.month));
    assert Pad4(b.year) + "-" + Pad2(b.month) == Pad4(b.year) + (['-'] + Pad2(b.month));
    LexConcat(Pad4(a.year), Pad4(b.year), ['-'] + Pad2(a.month), ['-'] + Pad2(b.month));
    LexAfterMark(Pad2(a.month), Pad2(b.month), '-');
  }

  /** Month keys never go back while the wall time goes forward. */
  lemma KeysFollowWalls(a: int, b: int)
    requires 0 <= a <= b < END_WALL_MS
    ensures LexLessEq(MonthKey(PrintDate(a)), MonthKey(PrintDate(b)))
  {
    YearInRange(a);
    YearInRange(b);
    WallDateOrder(a, b);
    hide WallDate, DateText, MonthKey, LexLess;
    MonthKeyOrder(WallDate(a), WallDate(b));
  }

  // ---------- files on disk ----------

  lemma NamesFollowKeys(prefix: string, a: string, b: string)
    requires FileName(prefix, a) == FileName(prefix, b) && |a| == |b|
    ensures a == b
  {
    assert FileName(prefix, a)[|prefix|..|prefix| + |a|] == a;
    assert FileName(prefix, b)[|prefix|..|prefix| + |b|] == b;
  }

  ghost predicate KeysHaveMonthLength(files: seq<MonthRecord>) {
    forall i :: 0 <= i < |files| ==> |KeyOf(files[i])| == 7
  }

  ghost predicate NamesDiffer(files: seq<MonthRecord>) {
    forall i, j :: 0 <= i < j < |files| ==> files[i].name != files[j].name
  }

  ghost predicate Holds(directory: map<string, seq<OutLine>>, file: MonthRecord) {
    file.name in directory && directory[file.name] == file.sha256.content
  }

  lemma NamesDifferByKey(prefix: string, files: seq<MonthRecord>)
    requires RecordsOk(prefix, files) && KeysIncrease(files) && KeysHaveMonthLength(files)
    ensures NamesDiffer(files)
  {
    hide MonthKey, FileName, LexLess;
    forall i, j | 0 <= i < j < |files|
      ensures files[i].name != files[j].name
    {
      var a, b := KeyOf(files[i]), KeyOf(files[j]);
      assert RecordOk(prefix, files[i]) && RecordOk(prefix, files[j]);
      LexIrreflexive(a);
      if files[i].name == files[j].name {
        NamesFollowKeys(prefix, a, b);
      }
    }
  }

  /** Files with different names are all there in the end, each with its own lines. */
  lemma {:induction false} EachFileStays(files: seq<MonthRecord>)
    requires NamesDiffer(files)
    ensures forall i :: 0 <= i < |files| ==> Holds(Directory(files), files[i])
    ensures |Directory(files)| == |files|
  {
    if files != [] {
      var n := |files| - 1;
      var init := files[..n];
      EachFileStays(init);
      DirectoryNames(init);
      assert files[n].name !in Directory(init);
      assert Directory(files).Keys == Directory(init).Keys + {files[n].name};
      forall i | 0 <= i < |files|
        ensures Holds(Directory(files), files[i])
      {
        if i < n {
          assert Holds(Directory(init), init[i]);
        }
      }
    }
  }

  /** Increasing keys give every file its own name, so no file overwrites another. */
  lemma NothingIsOverwritten(prefix: string, files: seq<MonthRecord>)
    requires RecordsOk(prefix, files) && KeysIncrease(files) && KeysHaveMonthLength(files)
    ensures forall i :: 0 <= i < |files| ==> Holds(Directory(files), files[i])
    ensures |Directory(files)| == |files|
  {
    NamesDifferByKey(prefix, files);
    EachFileStays(files);
  }

  lemma {:induction false} DirectoryNames(files: seq<MonthRecord>)
    ensures forall name :: name in Directory(files) ==> exists i :: 0 <= i < |files| && files[i].name == name
  {
    if files != [] {
      var init := files[..|files| - 1];
      DirectoryNames(init);
      forall name | name in Directory(files)
        ensures exists i :: 0 <= i < |files| && files[i].name == name
      {
        if name != files[|files| - 1].name {
          assert name in Directory(init);
          var i :| 0 <= i < |init| && init[i].name == name;
          assert files[i].name == name;
        }
      }
    }
  }

  // ---------- writing ----------

  /** One open output file, written under a temporary name until it is closed. */
  class MonthFile {
    const name: string
    var lines: seq<OutLine>
    var ticks: nat
    var firstWall: string
    var lastWall: string

    ghost predicate Valid()
      reads this
    {
      && ticks == |lines|
      && (lines == [] ==> firstWall == "" && lastWall == "")
      && (lines != [] ==> firstWall == WallText(lines[0]) && lastWall == WallText(lines[|lines| - 1]))
    }

    constructor (name: string)
      ensures Valid() && lines == [] && this.name == name
    {
      this.name := name;
      lines, ticks, firstWall, lastWall := [], 0, "", "";
    }

    method Write(line: OutLine)
      requires Valid()
      modifies this
      ensures Valid() && lines == old(lines) + [line]
    {
      lines := lines + [line];
      ticks := ticks + 1;
      if firstWall == "" {
        firstWall := WallText(line);
      }
      lastWall := WallText(line);
    }

    method Close() returns (record: MonthRecord)
      requires Valid()
      ensures record == RecordOf(name, lines)
    {
      record := MonthRecord(name, ticks, OutSha256(lines), firstWall, lastWall);
    }
  }

  function RecordOf(name: string, lines: seq<OutLine>): MonthRecord {
    if lines == [] then MonthRecord(name, 0, OutSha256([]), "", "")
    else MonthRecord(name, |lines|, OutSha256(lines), WallText(lines[0]), WallText(lines[|lines| - 1]))
  }

  ghost predicate KeysBelow(files: seq<MonthRecord>, monthKey: string) {
    forall i :: 0 <= i < |files| ==> LexLess(KeyOf(files[i]), monthKey)
  }

  /** The open file is that of the last tick's month. */
  ghost predicate Tracks(zone: Zone, rule: Rule, read: seq<Tick>, files: seq<MonthRecord>, open: seq<OutLine>,
          month: string, previousWall: int) {
    && WallsAscend(zone, rule, read)
    && AllInMonth(open, month)
    && (read == [] ==> files == [] && open == [] && month == "" && previousWall == -1)
    && (read != [] ==>
         && open != []
         && previousWall == ToWall(zone, rule, read[|read| - 1].timestampMs) >= 0
         && month == MonthKey(PrintDate(previousWall)))
  }

  /** The finished files, then the open one, hold exactly the image of what was read. */
  ghost predicate Holding(zone: Zone, rule: Rule, prefix: string, read: seq<Tick>, files: seq<MonthRecord>,
          open: seq<OutLine>) {
    && WallsAscend(zone, rule, read)
    && Concatenated(files) + open == Image(zone, rule, read)
    && RecordsOk(prefix, files)
    && TickTotal(files) + |open| == |read|
  }

  /** While years have four digits the finished months precede each other and the open one. */
  ghost predicate Months(zone: Zone, rule: Rule, read: seq<Tick>, files: seq<MonthRecord>, month: string) {
    FourDigitYears(zone, rule, read) && read != [] ==>
      KeysIncrease(files) && KeysHaveMonthLength(files) && KeysBelow(files, month) && |month| == 7
  }

  /** What the writer keeps after reading `read`. */
  ghost predicate Written(zone: Zone, rule: Rule, prefix: string, read: seq<Tick>, files: seq<MonthRecord>,
                          open: seq<OutLine>, month: string, previousWall: int) {
    && Tracks(zone, rule, read, files, open, month, previousWall)
    && Holding(zone, rule, prefix, read, files, open)
    && Months(zone, rule, read, files, month)
  }

  lemma WallsSnoc(zone: Zone, rule: Rule, read: seq<Tick>, tick: Tick)
    requires WallsAscend(zone, rule, read)
    ensures var w := ToWall(zone, rule, tick.timestampMs);
      WallsAscend(zone, rule, read + [tick])
      <==> w >= 0 && (read != [] ==> ToWall(zone, rule, read[|read| - 1].timestampMs) <= w)
  {
    hide ToWall;
    var all := read + [tick];
    assert all[|read|] == tick;
    if read != [] {
      assert all[|read| - 1] == read[|read| - 1];
    }
    if WallsAscend(zone, rule, all) {
      assert ToWall(zone, rule, all[|read|].timestampMs) >= 0;
    }
  }

  lemma ImageSnoc(zone: Zone, rule: Rule, read: seq<Tick>, tick: Tick)
    requires WallsAscend(zone, rule, read) && WallsAscend(zone, rule, read + [tick])
    ensures ToWall(zone, rule, tick.timestampMs) >= 0
    ensures Image(zone, rule, read + [tick]) == Image(zone, rule, read) + [ImageOf(zone, rule, tick)]
  {
    WallsSnoc(zone, rule, read, tick);
    hide ToWall, PrintDate, PrintTime, WallsAscend;
  }

  lemma FourDigitsPrefix(zone: Zone, rule: Rule, read: seq<Tick>, tick: Tick)
    ensures FourDigitYears(zone, rule, read + [tick])
       <==> FourDigitYears(zone, rule, read) && ToWall(zone, rule, tick.timestampMs) < END_WALL_MS
  {
    hide ToWall;
    var all := read + [tick];
    assert all[|read|] == tick;
    if FourDigitYears(zone, rule, all) {
      forall i | 0 <= i < |read|
        ensures ToWall(zone, rule, read[i].timestampMs) < END_WALL_MS
      {
        assert all[i] == read[i];
      }
    }
  }

  /** A tick of the month that is open goes to the end of the open file. */
  lemma SameMonth(zone: Zone, rule: Rule, prefix: string, read: seq<Tick>, files: seq<MonthRecord>,
                  open: seq<OutLine>, month: string, previousWall: int, tick: Tick)
    requires Written(zone, rule, prefix, read, files, open, month, previousWall)
    requires read != []
    requires WallsAscend(zone, rule, read + [tick])
    requires ToWall(zone, rule, tick.timestampMs) >= 0
    requires MonthKey(PrintDate(ToWall(zone, rule, tick.timestampMs))) == month
    ensures Written(zone, rule, prefix, read + [tick], files, open + [ImageOf(zone, rule, tick)], month,
      ToWall(zone, rule, tick.timestampMs))
  {
    SameTracks(zone, rule, read, files, open, month, previousWall, tick);
    SameHolding(zone, rule, prefix, read, files, open, tick);
    FourDigitsPrefix(zone, rule, read, tick);
    hide ToWall, Tracks, Holding, FourDigitYears, KeysIncrease, KeysHaveMonthLength, KeysBelow, ImageOf, MonthKey,
      WallsAscend;
  }

  lemma SameTracks(zone: Zone, rule: Rule, read: seq<Tick>, files: seq<MonthRecord>, open: seq<OutLine>,
          month: string, previousWall: int, tick: Tick)
    requires Tracks(zone, rule, read, files, open, month, previousWall)
    requires WallsAscend(zone, rule, read + [tick])
    requires ToWall(zone, rule, tick.timestampMs) >= 0
    requires MonthKey(PrintDate(ToWall(zone, rule, tick.timestampMs))) == month
    ensures Tracks(zone, rule, read + [tick], files, open + [ImageOf(zone, rule, tick)], month,
      ToWall(zone, rule, tick.timestampMs))
  {
    ImageInMonth(zone, rule, tick);
    hide ToWall, PrintDate, PrintTime, WallsAscend, MonthKey, ImageOf;
    AllInMonthSnoc(open, month, ImageOf(zone, rule, tick));
    var all := read + [tick];
    assert all[|all| - 1] == tick;
  }

  lemma SameHolding(zone: Zone, rule: Rule, prefix: string, read: seq<Tick>, files: seq<MonthRecord>,
          open: seq<OutLine>, tick: Tick)
    requires Holding(zone, rule, prefix, read, files, open)
    requires WallsAscend(zone, rule, read + [tick])
    requires ToWall(zone, rule, tick.timestampMs) >= 0
    ensures Holding(zone, rule, prefix, read + [tick], files, open + [ImageOf(zone, rule, tick)])
  {
    ImageSnoc(zone, rule, read, tick);
    hide ToWall, WallsAscend, Image, ImageOf, RecordsOk, Concatenated, TickTotal;
    AppendLast(Concatenated(files), open, ImageOf(zone, rule, tick));
  }

  lemma AppendLast(a: seq<OutLine>, b: seq<OutLine>, line: OutLine)
    ensures a + (b + [line]) == a + b + [line]
  {}

  lemma AllInMonthSnoc(open: seq<OutLine>, month: string, line: OutLine)
    requires AllInMonth(open, month) && AllInMonth([line], month)
    ensures AllInMonth(open + [line], month)
  {
    hide MonthKey;
    assert MonthKey([line][0].date) == month;
  }

  function Closed(prefix: string, files: seq<MonthRecord>, open: seq<OutLine>, month: string): seq<MonthRecord> {
    if open == [] then files else files + [RecordOf(FileName(prefix, month), open)]
  }

  /** A tick of another month closes the open file, if there is one, and starts the next. */
  lemma NextMonth(zone: Zone, rule: Rule, prefix: string, read: seq<Tick>, files: seq<MonthRecord>,
                  open: seq<OutLine>, month: string, previousWall: int, tick: Tick)
    requires Written(zone, rule, prefix, read, files, open, month, previousWall)
    requires WallsAscend(zone, rule, read + [tick])
    requires ToWall(zone, rule, tick.timestampMs) >= 0
    requires MonthKey(PrintDate(ToWall(zone, rule, tick.timestampMs))) != month
    ensures var w := ToWall(zone, rule, tick.timestampMs);
      Written(zone, rule, prefix, read + [tick], Closed(prefix, files, open, month), [ImageOf(zone, rule, tick)],
        MonthKey(PrintDate(w)), w)
  {
    NextTracks(zone, rule, read, Closed(prefix, files, open, month), tick);
    NextHolding(zone, rule, prefix, read, files, open, month, tick);
    NextMonths(zone, rule, prefix, read, files, open, month, previousWall, tick);
    hide *;
  }

  lemma NextTracks(zone: Zone, rule: Rule, read: seq<Tick>, files: seq<MonthRecord>, tick: Tick)
    requires WallsAscend(zone, rule, read + [tick])
    requires ToWall(zone, rule, tick.timestampMs) >= 0
    ensures var w := ToWall(zone, rule, tick.timestampMs);
      Tracks(zone, rule, read + [tick], files, [ImageOf(zone, rule, tick)], MonthKey(PrintDate(w)), w)
  {
    ImageInMonth(zone, rule, tick);
    hide ToWall, PrintDate, PrintTime, WallsAscend, MonthKey, ImageOf;
    var all := read + [tick];
    assert all[|all| - 1] == tick;
  }

  lemma NextHolding(zone: Zone, rule: Rule, prefix: string, read: seq<Tick>, files: seq<MonthRecord>,
          open: seq<OutLine>, month: string, tick: Tick)
    requires Holding(zone, rule, prefix, read, files, open) && AllInMonth(open, month)
    requires WallsAscend(zone, rule, read + [tick])
    requires ToWall(zone, rule, tick.timestampMs) >= 0
    ensures Holding(zone, rule, prefix, read + [tick], Closed(prefix, files, open, month), [ImageOf(zone, rule, tick)])
  {
    ImageSnoc(zone, rule, read, tick);
    ClosedHolds(prefix, files, open, month);
    hide ToWall, WallsAscend, Image, ImageOf, RecordsOk, Concatenated, TickTotal, Closed;
  }

  lemma ImageInMonth(zone: Zone, rule: Rule, tick: Tick)
    requires ToWall(zone, rule, tick.timestampMs) >= 0
    ensures AllInMonth([ImageOf(zone, rule, tick)], MonthKey(PrintDate(ToWall(zone, rule, tick.timestampMs))))
  {
    hide ToWall, PrintDate, PrintTime, MonthKey;
  }

  lemma NextMonths(zone: Zone, rule: Rule, prefix: string, read: seq<Tick>, files: seq<MonthRecord>,
                   open: seq<OutLine>, month: string, previousWall: int, tick: Tick)
    requires Tracks(zone, rule, read, files, open, month, previousWall) && Months(zone, rule, read, files, month)
    requires WallsAscend(zone, rule, read + [tick])
    requires ToWall(zone, rule, tick.timestampMs) >= 0
    requires MonthKey(PrintDate(ToWall(zone, rule, tick.timestampMs))) != month
    ensures Months(zone, rule, read + [tick], Closed(prefix, files, open, month),
      MonthKey(PrintDate(ToWall(zone, rule, tick.timestampMs))))
  {
    var w := ToWall(zone, rule, tick.timestampMs);
    FourDigitsPrefix(zone, rule, read, tick);
    WallsSnoc(zone, rule, read, tick);
    hide ToWall, PrintDate, MonthKey, LexLess, RecordOf, KeyOf, KeysIncrease, KeysHaveMonthLength, KeysBelow,
      RecordsOk, WallsAscend, Image;
    if FourDigitYears(zone, rule, read + [tick]) {
      KeyHasSeven(w);
      if read == [] {
        NoKeys(MonthKey(PrintDate(w)));
      } else {
        KeysFollowWalls(previousWall, w);
        ClosedKeys(prefix, files, open, month, MonthKey(PrintDate(w)));
      }
    }
  }

  lemma NoKeys(key: string)
    ensures KeysIncrease([]) && KeysHaveMonthLength([]) && KeysBelow([], key)
  {}

  lemma ClosedHolds(prefix: string, files: seq<MonthRecord>, open: seq<OutLine>, month: string)
    requires RecordsOk(prefix, files) && AllInMonth(open, month)
    ensures var closed := Closed(prefix, files, open, month);
      && RecordsOk(prefix, closed)
      && Concatenated(closed) == Concatenated(files) + open
      && TickTotal(closed) == TickTotal(files) + |open|
  {
    if open != [] {
      var closed := files + [RecordOf(FileName(prefix, month), open)];
      assert closed[..|files|] == files;
      assert MonthKey(open[0].date) == month;
    }
  }

  lemma ClosedKeys(prefix: string, files: seq<MonthRecord>, open: seq<OutLine>, month: string, key: string)
    requires AllInMonth(open, month) && open != [] && |month| == 7 && LexLess(month, key)
    requires KeysIncrease(files) && KeysHaveMonthLength(files) && KeysBelow(files, month)
    ensures var closed := Closed(prefix, files, open, month);
      KeysIncrease(closed) && KeysHaveMonthLength(closed) && KeysBelow(closed, key)
  {
    var record := RecordOf(FileName(prefix, month), open);
    assert MonthKey(open[0].date) == month;
    assert KeyOf(record) == month;
    hide LexLess, RecordOf, KeyOf;
    var closed := files + [record];
    forall i | 0 <= i < |closed|
      ensures LexLess(KeyOf(closed[i]), key)
    {
      if i < |files| {
        assert LexLess(KeyOf(files[i]), month);
        LexTransitive(KeyOf(files[i]), month, key);
      }
    }
  }

  lemma KeyHasSeven(w: int)
    requires 0 <= w < END_WALL_MS
    ensures |MonthKey(PrintDate(w))| == 7
  {
    YearInRange(w);
    DateTextShape(WallDate(w));
  }

  lemma KeyNonEmpty(w: int)
    requires w >= 0
    ensures MonthKey(PrintDate(w)) != ""
  {
    DateTextNonEmpty(WallDate(w));
  }

  lemma EmptyDateEmptyKey()
    ensures MonthKey("") == ""
  {}

  /**
   Why the conversion stops: server time went back, no file was open to write to, or an entry, file or line
   could not be read.
   */
  datatype Fault = WallWentBack | NoOpenFile | Unread

  /** The state of the conversion loop. */
  class Writer {
    const zone: Zone
    const rule: Rule
    const prefix: string
    const formatter: WallClockFormatter
    var files: seq<MonthRecord>
    var current: MonthFile?
    var currentMonth: string
    var previousWall: int
    var total: nat

    ghost function Repr(): set<object>
      reads this
    {
      {this, formatter} + (if current == null then {} else {current})
    }

    ghost function Open(): seq<OutLine>
      reads this, current
    {
      if current == null then [] else current.lines
    }

    /** The writer has read exactly `read`. */
    ghost predicate Has(read: seq<Tick>)
      reads Repr()
    {
      && formatter.Valid()
      && (current == null <==> read == [])
      && (current == null <==> formatter.Fresh())
      && (current != null ==> current.Valid() && current.name == FileName(prefix, currentMonth))
      && total == |read|
      && Written(zone, rule, prefix, read, files, Open(), currentMonth, previousWall)
    }

    constructor (zone: Zone, rule: Rule, prefix: string)
      ensures Has([]) && fresh(Repr())
      ensures this.zone == zone && this.rule == rule && this.prefix == prefix
    {
      this.zone, this.rule, this.prefix := zone, rule, prefix;
      formatter := new WallClockFormatter();
      files, current, currentMonth, previousWall, total := [], null, "", -1, 0;
    }

    /** Closes the file that is open, if any, and opens the one of another month. */
    method StartMonth(monthKey: string)
      requires current != null ==>
        current.Valid() && current.lines != [] && current.name == FileName(prefix, currentMonth)
      modifies this
      ensures files == old(Closed(prefix, files, Open(), currentMonth))
      ensures current != null && fresh(current) && current.Valid() && current.lines == []
        && current.name == FileName(prefix, monthKey)
      ensures currentMonth == monthKey && previousWall == old(previousWall) && total == old(total)
    {
      if current != null {
        var record := current.Close();
        files := files + [record];
      }
      current := new MonthFile(FileName(prefix, monthKey));
      currentMonth := monthKey;
    }

    /** Converts one tick: refuses it when server time goes back, else appends its line to its month's file. */
    method Add(tick: Tick, ghost read: seq<Tick>) returns (fault: Option<Fault>)
      requires Has(read)
      modifies Repr()
      ensures fault.None? <==> WallsAscend(zone, rule, read + [tick])
      ensures fault == Some(NoOpenFile) <==> read == [] && ToWall(zone, rule, tick.timestampMs) == -1
      ensures fault.None? ==> Has(read + [tick])
      ensures fault != Some(Unread) && fresh(Repr() - old(Repr()))
    {
      hide ToWall, PrintDate, PrintTime, WallsAscend, MonthKey, RecordOf, FileName, Written, ImageOf, Closed, WallText;
      var wallMs := ToWall(zone, rule, tick.timestampMs);
      WrittenSoFar(zone, rule, prefix, read, files, Open(), currentMonth, previousWall);
      WallsSnoc(zone, rule, read, tick);
      EmptyDateEmptyKey();
      if wallMs < previousWall {
        return Some(WallWentBack);
      }
      if wallMs >= 0 {
        StepHolds(zone, rule, prefix, read, files, Open(), currentMonth, previousWall, tick);
      }
      previousWall := wallMs;
      var dateText, timeText := formatter.Format(wallMs);
      var monthKey := MonthKey(dateText);
      if monthKey != currentMonth {
        StartMonth(monthKey);
      }
      if current == null {
        return Some(NoOpenFile);
      }
      var line := OutLine(dateText, timeText, tick.bid, tick.ask);
      assert [] + [line] == [line];
      current.Write(line);
      total := total + 1;
      fault := None;
    }
  }

  /** One tick, whether or not it starts a month. */
  lemma StepHolds(zone: Zone, rule: Rule, prefix: string, read: seq<Tick>, files: seq<MonthRecord>,
                  open: seq<OutLine>, month: string, previousWall: int, tick: Tick)
    requires Written(zone, rule, prefix, read, files, open, month, previousWall)
    requires WallsAscend(zone, rule, read + [tick])
    requires ToWall(zone, rule, tick.timestampMs) >= 0
    ensures var w := ToWall(zone, rule, tick.timestampMs);
      var line := OutLine(PrintDate(w), PrintTime(w), tick.bid, tick.ask);
      && (read == [] ==> MonthKey(PrintDate(w)) != month)
      && (if MonthKey(PrintDate(w)) == month then
            Written(zone, rule, prefix, read + [tick], files, open + [line], month, w)
          else
            Written(zone, rule, prefix, read + [tick], Closed(prefix, files, open, month), [line],
              MonthKey(PrintDate(w)), w))
  {
    var w := ToWall(zone, rule, tick.timestampMs);
    KeyNonEmpty(w);
    WrittenSoFar(zone, rule, prefix, read, files, open, month, previousWall);
    hide ToWall, PrintDate, PrintTime, WallsAscend, MonthKey, Closed, Written;
    if MonthKey(PrintDate(w)) == month {
      SameMonth(zone, rule, prefix, read, files, open, month, previousWall, tick);
    } else {
      NextMonth(zone, rule, prefix, read, files, open, month, previousWall, tick);
    }
  }

  lemma WrittenSoFar(zone: Zone, rule: Rule, prefix: string, read: seq<Tick>, files: seq<MonthRecord>,
                     open: seq<OutLine>, month: string, previousWall: int)
    requires Written(zone, rule, prefix, read, files, open, month, previousWall)
    ensures WallsAscend(zone, rule, read)
    ensures read == [] ==> open == [] && files == [] && previousWall == -1 && month == ""
    ensures read != [] ==> open != [] && previousWall == ToWall(zone, rule, read[|read| - 1].timestampMs) >= 0
    ensures AllInMonth(open, month)
  {
    hide ToWall;
  }

  // ---------- the whole conversion ----------

  /** A finished conversion, a server time that goes back, or an exception. */
  datatype Outcome = Done(files: seq<MonthRecord>, total: nat) | Refused | Crashed

  ghost predicate ChunkReadable(entries: map<string, Entry>, normalized: map<string, NormalizedFile>, chunk: Chunk) {
    && chunk.chunkId in entries
    && (entries[chunk.chunkId].normalize.status == Complete ==>
         chunk.chunkId in normalized && AllReadable(normalized[chunk.chunkId].lines))
  }

  /** Every planned chunk has an entry, and every file the pass opens is there and parses. */
  ghost predicate Readable(entries: map<string, Entry>, normalized: map<string, NormalizedFile>, chunks: seq<Chunk>) {
    forall i :: 0 <= i < |chunks| ==> ChunkReadable(entries, normalized, chunks[i])
  }

  /** The files are the image of the ticks cut into months, in order and complete, none twice. */
  ghost predicate Converted(zone: Zone, rule: Rule, prefix: string, ticks: seq<Tick>, files: seq<MonthRecord>,
          total: nat) {
    && WallsAscend(zone, rule, ticks)
    && Concatenated(files) == Image(zone, rule, ticks)
    && RecordsOk(prefix, files)
    && TickTotal(files) == total == |ticks|
    && (FourDigitYears(zone, rule, ticks) ==> KeysIncrease(files) && KeysHaveMonthLength(files))
  }

  lemma Finished(zone: Zone, rule: Rule, prefix: string, ticks: seq<Tick>, files: seq<MonthRecord>,
                 open: seq<OutLine>, month: string, previousWall: int)
    requires Written(zone, rule, prefix, ticks, files, open, month, previousWall)
    ensures Converted(zone, rule, prefix, ticks, Closed(prefix, files, open, month), |ticks|)
  {
    ClosedHolds(prefix, files, open, month);
    hide ToWall, PrintDate, PrintTime, WallsAscend, Image, MonthKey, RecordsOk, Concatenated, TickTotal, KeysBelow,
      RecordOf, KeyOf, LexLess;
    if FourDigitYears(zone, rule, ticks) {
      if ticks == [] {
        NoKeys("");
      } else {
        MonthIsBeforeNext(month);
        ClosedKeys(prefix, files, open, month, month + "-");
      }
    }
  }

  lemma {:induction false} MonthIsBeforeNext(month: string)
    ensures LexLess(month, month + "-")
  {
    if month != "" {
      assert (month + "-")[1..] == month[1..] + "-";
      MonthIsBeforeNext(month[1..]);
    }
  }

  lemma WallsPrefix(zone: Zone, rule: Rule, a: seq<Tick>, b: seq<Tick>)
    requires a <= b && WallsAscend(zone, rule, b)
    ensures WallsAscend(zone, rule, a)
  {
    hide ToWall;
    forall i | 0 <= i < |a|
      ensures a[i] == b[i]
    {}
  }

  lemma {:induction false} AllTicksPrefix(entries: map<string, Entry>, normalized: map<string, NormalizedFile>,
          chunks: seq<Chunk>, k: nat)
    requires k <= |chunks|
    ensures AllTicks(entries, normalized, chunks[..k]) <= AllTicks(entries, normalized, chunks)
    decreases |chunks| - k
  {
    hide TicksOf;
    if k == |chunks| {
      assert chunks[..k] == chunks;
    } else {
      AllTicksPrefix(entries, normalized, chunks, k + 1);
      assert chunks[..k + 1][..k] == chunks[..k];
    }
  }

  lemma {:induction false} TicksOfPrefix(lines: seq<Line>, m: nat)
    requires m <= |lines|
    ensures TicksOf(lines[..m]) <= TicksOf(lines)
    decreases |lines| - m
  {
    if m == |lines| {
      assert lines[..m] == lines;
    } else {
      TicksOfPrefix(lines, m + 1);
      assert lines[..m + 1][..m] == lines[..m];
    }
  }

  /** The very first tick falls in the second before the epoch, which a new formatter prints as nothing. */
  ghost predicate StartsStale(zone: Zone, rule: Rule, ticks: seq<Tick>) {
    ticks != [] && ToWall(zone, rule, ticks[0].timestampMs) == -1
  }

  /** A fault is explained by the ticks: server time goes back, or the first tick is stale. */
  ghost predicate Explained(zone: Zone, rule: Rule, ticks: seq<Tick>, fault: Fault) {
    match fault
    case WallWentBack => !WallsAscend(zone, rule, ticks) && !StartsStale(zone, rule, ticks)
    case NoOpenFile => StartsStale(zone, rule, ticks)
    case Unread => true
  }

  lemma ExplainedByPrefix(zone: Zone, rule: Rule, a: seq<Tick>, b: seq<Tick>, fault: Fault)
    requires a <= b && a != [] && Explained(zone, rule, a, fault)
    ensures Explained(zone, rule, b, fault)
  {
    hide ToWall;
    assert a[0] == b[0];
    if WallsAscend(zone, rule, b) {
      WallsPrefix(zone, rule, a, b);
    }
  }

  /** Converts the lines of one file, stopping at the first that cannot be converted. */
  method ConvertLines(writer: Writer, lines: seq<Line>, ghost before: seq<Tick>) returns (fault: Option<Fault>)
    requires writer.Has(before)
    modifies writer.Repr()
    ensures fresh(writer.Repr() - old(writer.Repr()))
    ensures fault.None? <==> AllReadable(lines) && WallsAscend(writer.zone, writer.rule, before + TicksOf(lines))
    ensures fault.None? ==> writer.Has(before + TicksOf(lines))
    ensures fault.Some? ==> Explained(writer.zone, writer.rule, before + TicksOf(lines), fault.value)
    ensures fault == Some(Unread) ==> !AllReadable(lines)
  {
    hide Writer.Has, Written, WallsAscend, ToWall, TicksOf, AllReadable, Explained;
    NoLines(lines);
    assert before + [] == before;
    for m := 0 to |lines|
      invariant fresh(writer.Repr() - old(writer.Repr()))
      invariant writer.Has(before + TicksOf(lines[..m]))
      invariant AllReadable(lines[..m])
    {
      ghost var read := before + TicksOf(lines[..m]);
      LinesSnoc(lines, m, before);
      match lines[m] {
        case Unreadable(_) =>
          UnreadIsExplained(writer.zone, writer.rule, before + TicksOf(lines));
          return Some(Unread);
        case TickLine(tick) =>
          HasAscends(writer, read);
          fault := writer.Add(tick, read);
          if fault.Some? {
            FaultInChunk(writer.zone, writer.rule, before, lines, m, read, tick, fault.value);
            return;
          }
      }
    }
    assert lines[..|lines|] == lines;
    HasAscends(writer, before + TicksOf(lines));
    fault := None;
  }

  lemma UnreadIsExplained(zone: Zone, rule: Rule, ticks: seq<Tick>)
    ensures Explained(zone, rule, ticks, Unread)
  {}

  /** Reads one chunk's file, if the chunk is complete. */
  method ConvertChunk(writer: Writer, entries: map<string, Entry>, normalized: map<string, NormalizedFile>,
          chunk: Chunk, ghost before: seq<Tick>)
    returns (fault: Option<Fault>)
    requires writer.Has(before)
    modifies writer.Repr()
    ensures fresh(writer.Repr() - old(writer.Repr()))
    ensures var ticks := before + ChunkTicks(entries, normalized, chunk);
      && (fault.None? <==> ChunkReadable(entries, normalized, chunk) && WallsAscend(writer.zone, writer.rule, ticks))
      && (fault.None? ==> writer.Has(ticks))
      && (fault.Some? ==> Explained(writer.zone, writer.rule, ticks, fault.value))
      && (fault == Some(Unread) ==> !ChunkReadable(entries, normalized, chunk))
  {
    HasAscends(writer, before);
    ChunkIs(entries, normalized, chunk);
    UnreadIsExplained(writer.zone, writer.rule, before + ChunkTicks(entries, normalized, chunk));
    hide Writer.Has, Written, WallsAscend, ChunkReadable, ChunkTicks, ToWall, TicksOf, AllReadable, Explained;
    assert before + [] == before;
    if chunk.chunkId !in entries {
      return Some(Unread);
    }
    if entries[chunk.chunkId].normalize.status != Complete {
      return None;
    }
    if chunk.chunkId !in normalized {
      return Some(Unread);
    }
    fault := ConvertLines(writer, normalized[chunk.chunkId].lines, before);
  }

  lemma ChunkIs(entries: map<string, Entry>, normalized: map<string, NormalizedFile>, chunk: Chunk)
    ensures ChunkReadable(entries, normalized, chunk)
      <==> && chunk.chunkId in entries
           && (entries[chunk.chunkId].normalize.status == Complete ==>
                chunk.chunkId in normalized && AllReadable(normalized[chunk.chunkId].lines))
    ensures ChunkTicks(entries, normalized, chunk)
         == if chunk.chunkId in entries && entries[chunk.chunkId].normalize.status == Complete
           && chunk.chunkId in normalized
            then TicksOf(normalized[chunk.chunkId].lines) else []
  {}

  lemma NoLines(lines: seq<Line>)
    ensures lines[..0] == [] && TicksOf([]) == [] && AllReadable([])
  {}

  lemma LinesSnoc(lines: seq<Line>, m: nat, before: seq<Tick>)
    requires m < |lines|
    ensures AllReadable(lines[..m + 1]) <==> AllReadable(lines[..m]) && lines[m].TickLine?
    ensures AllReadable(lines) ==> lines[m].TickLine?
    ensures lines[m].TickLine? ==> before + TicksOf(lines[..m + 1]) == before + TicksOf(lines[..m]) + [lines[m].tick]
  {
    assert lines[..m + 1][..m] == lines[..m] && lines[..m + 1][m] == lines[m];
  }

  lemma HasAscends(writer: Writer, read: seq<Tick>)
    requires writer.Has(read)
    ensures WallsAscend(writer.zone, writer.rule, read)
  {
    hide WallsAscend;
  }

  lemma FaultExplained(zone: Zone, rule: Rule, read: seq<Tick>, tick: Tick, fault: Fault)
    requires WallsAscend(zone, rule, read) && !WallsAscend(zone, rule, read + [tick])
    requires fault != Unread
    requires fault == NoOpenFile <==> read == [] && ToWall(zone, rule, tick.timestampMs) == -1
    ensures Explained(zone, rule, read + [tick], fault)
  {
    hide ToWall;
    assert (read + [tick])[0] == if read == [] then tick else read[0];
  }

  lemma PrefixUnder(before: seq<Tick>, a: seq<Tick>, b: seq<Tick>)
    requires a <= b
    ensures before + a <= before + b
  {}

  lemma FaultStays(zone: Zone, rule: Rule, a: seq<Tick>, b: seq<Tick>, fault: Fault)
    requires a <= b && a != [] && Explained(zone, rule, a, fault) && !WallsAscend(zone, rule, a)
    ensures Explained(zone, rule, b, fault) && !WallsAscend(zone, rule, b)
  {
    ExplainedByPrefix(zone, rule, a, b, fault);
    hide *;
    if WallsAscend(zone, rule, b) {
      WallsPrefix(zone, rule, a, b);
    }
  }

  lemma FaultInChunk(zone: Zone, rule: Rule, before: seq<Tick>, lines: seq<Line>, m: nat, read: seq<Tick>,
          tick: Tick, fault: Fault)
    requires m < |lines| && read == before + TicksOf(lines[..m]) && before + TicksOf(lines[..m + 1]) == read + [tick]
    requires WallsAscend(zone, rule, read) && !WallsAscend(zone, rule, read + [tick])
    requires fault != Unread
    requires fault == NoOpenFile <==> read == [] && ToWall(zone, rule, tick.timestampMs) == -1
    ensures Explained(zone, rule, before + TicksOf(lines), fault)
    ensures !WallsAscend(zone, rule, before + TicksOf(lines))
  {
    TicksOfPrefix(lines, m + 1);
    FaultExplained(zone, rule, read, tick, fault);
    hide *;
    var seen, all := read + [tick], before + TicksOf(lines);
    PrefixUnder(before, TicksOf(lines[..m + 1]), TicksOf(lines));
    FaultStays(zone, rule, seen, all, fault);
  }

  /**
   Reads the completed chunks in plan order and writes one file per month of server time. It
   finishes exactly when everything can be read and server time never goes back. The files closed
   so far are returned in any case.
   */
  method ConvertAll(zone: Zone, rule: Rule, prefix: string, entries: map<string, Entry>,
          normalized: map<string, NormalizedFile>, chunks: seq<Chunk>)
    returns (outcome: Outcome, finished: seq<MonthRecord>)
    ensures var ticks := AllTicks(entries, normalized, chunks);
      && (outcome.Done? <==> Readable(entries, normalized, chunks) && WallsAscend(zone, rule, ticks))
      && (outcome.Done? ==>
        Converted(zone, rule, prefix, ticks, outcome.files, outcome.total) && finished == outcome.files)
      && (outcome.Refused? ==> !WallsAscend(zone, rule, ticks) && !StartsStale(zone, rule, ticks))
      && (outcome.Crashed? ==> !Readable(entries, normalized, chunks) || StartsStale(zone, rule, ticks))
  {
    hide Writer.Has, Converted, Written, WallsAscend, StartsStale, ChunkReadable, ChunkTicks, ToWall, AllTicks,
      Readable, Explained, RecordOf, Closed;
    var writer := new Writer(zone, rule, prefix);
    ghost var before: seq<Tick> := [];
    NoChunks(entries, normalized, chunks);
    for k := 0 to |chunks|
      invariant fresh(writer.Repr())
      invariant writer.zone == zone && writer.rule == rule && writer.prefix == prefix
      invariant writer.Has(before) && before == AllTicks(entries, normalized, chunks[..k])
      invariant Readable(entries, normalized, chunks[..k])
    {
      ChunksSnoc(entries, normalized, chunks, k);
      var fault := ConvertChunk(writer, entries, normalized, chunks[k], before);
      before := before + ChunkTicks(entries, normalized, chunks[k]);
      if fault.Some? {
        FaultInPlan(zone, rule, entries, normalized, chunks, k, before, fault.value);
        return if fault.value == WallWentBack then Refused else Crashed, writer.files;
      }
    }
    assert chunks[..|chunks|] == chunks;
    HasAscends(writer, before);
    FinishedWriter(writer, before);
    var files := writer.files;
    if writer.current != null {
      var record := writer.current.Close();
      files := files + [record];
    }
    outcome, finished := Done(files, writer.total), files;
  }

  lemma NoChunks(entries: map<string, Entry>, normalized: map<string, NormalizedFile>, chunks: seq<Chunk>)
    ensures chunks[..0] == [] && AllTicks(entries, normalized, []) == [] && Readable(entries, normalized, [])
  {}

  lemma ChunksSnoc(entries: map<string, Entry>, normalized: map<string, NormalizedFile>, chunks: seq<Chunk>, k: nat)
    requires k < |chunks|
    ensures AllTicks(entries, normalized, chunks[..k + 1])
      == AllTicks(entries, normalized, chunks[..k]) + ChunkTicks(entries, normalized, chunks[k])
    ensures Readable(entries, normalized, chunks[..k + 1])
      <==> Readable(entries, normalized, chunks[..k]) && ChunkReadable(entries, normalized, chunks[k])
    ensures Readable(entries, normalized, chunks) ==> ChunkReadable(entries, normalized, chunks[k])
  {
    hide ChunkTicks, ChunkReadable;
    assert chunks[..k + 1][..k] == chunks[..k] && chunks[..k + 1][k] == chunks[k];
  }

  lemma FinishedWriter(writer: Writer, ticks: seq<Tick>)
    requires writer.Has(ticks)
    ensures Converted(writer.zone, writer.rule, writer.prefix, ticks,
                      Closed(writer.prefix, writer.files, writer.Open(), writer.currentMonth), |ticks|)
    ensures writer.total == |ticks|
    ensures var files := writer.files;
      Closed(writer.prefix, files, writer.Open(), writer.currentMonth)
      == if writer.current == null then files else files + [RecordOf(writer.current.name, writer.current.lines)]
    ensures writer.current != null ==> writer.current.Valid()
  {
    Finished(writer.zone, writer.rule, writer.prefix, ticks, writer.files, writer.Open(), writer.currentMonth,
      writer.previousWall);
    WrittenSoFar(writer.zone, writer.rule, writer.prefix, ticks, writer.files, writer.Open(), writer.currentMonth,
      writer.previousWall);
    hide Converted, Written, RecordOf;
  }

  lemma FaultInPlan(zone: Zone, rule: Rule, entries: map<string, Entry>, normalized: map<string, NormalizedFile>,
          chunks: seq<Chunk>, k: nat,
                    read: seq<Tick>, fault: Fault)
    requires k < |chunks| && read == AllTicks(entries, normalized, chunks[..k + 1])
    requires Explained(zone, rule, read, fault) && (fault == Unread ==> !ChunkReadable(entries, normalized, chunks[k]))
    ensures var ticks := AllTicks(entries, normalized, chunks);
      && (fault == WallWentBack ==> !WallsAscend(zone, rule, ticks) && !StartsStale(zone, rule, ticks))
      && (fault == NoOpenFile ==> StartsStale(zone, rule, ticks) && !WallsAscend(zone, rule, ticks))
      && (fault == Unread ==> !Readable(entries, normalized, chunks))
  {
    AllTicksPrefix(entries, normalized, chunks, k + 1);
    hide ToWall, AllTicks, ChunkReadable;
    if fault != Unread {
      ExplainedByPrefix(zone, rule, read, AllTicks(entries, normalized, chunks), fault);
    }
  }
}
