/**
 Normalizing one raw file: reject unusable rows, drop consecutive repeats, keep the rest in order.
 */
module Normalize {
  import opened Text
  import opened Ticks

  datatype Stats = Stats(
    ticksIn: nat,
    ticksOut: nat,
    duplicatesRemoved: nat,
    rejected: multiset<Reason>,
    firstTimestampMs: Option<int>,
    lastTimestampMs: Option<int>
  )

  /** Why a row is rejected, if it is. */
  function RejectReason(window: Window, row: Row): Option<Reason> {
    if row.Unparsed? then Some(ParseError)
    else
      match FindInvalidReason(row.tick)
      case Some(reason) => Some(reason)
      case None => if Inside(window, row.tick) then None else Some(TimestampOutOfRange)
  }

  /** The usable ticks, in file order. */
  function Usable(window: Window, rows: seq<Row>): seq<Tick> {
    if rows == [] then []
    else
      var init := Usable(window, rows[..|rows| - 1]);
      var last := rows[|rows| - 1];
      if RejectReason(window, last).None? then init + [last.tick] else init
  }

  /** Removes every element equal to its predecessor. */
  function Dedup(ticks: seq<Tick>): seq<Tick> {
    if |ticks| <= 1 then ticks
    else
      var init := Dedup(ticks[..|ticks| - 1]);
      if ticks[|ticks| - 1] == ticks[|ticks| - 2] then init else init + [ticks[|ticks| - 1]]
  }

  function Rejections(window: Window, rows: seq<Row>): multiset<Reason> {
    if rows == [] then multiset{}
    else
      var init := Rejections(window, rows[..|rows| - 1]);
      match RejectReason(window, rows[|rows| - 1])
      case None => init
      case Some(reason) => init + multiset{reason}
  }

  /** What normalizing is for: the file's usable ticks without consecutive repeats. */
  function Normalized(window: Window, rows: seq<Row>): seq<Tick> {
    Dedup(Usable(window, rows))
  }

  function FirstMs(ticks: seq<Tick>): Option<int> {
    if ticks == [] then None else Some(ticks[0].timestampMs)
  }

  function LastMs(ticks: seq<Tick>): Option<int> {
    if ticks == [] then None else Some(ticks[|ticks| - 1].timestampMs)
  }

  lemma {:induction false} DedupLast(ticks: seq<Tick>)
    requires ticks != []
    ensures Dedup(ticks) != [] && Dedup(ticks)[|Dedup(ticks)| - 1] == ticks[|ticks| - 1]
  {
    if |ticks| > 1 {
      DedupLast(ticks[..|ticks| - 1]);
    }
  }

  lemma OneMoreRow(window: Window, rows: seq<Row>, k: nat)
    requires k < |rows|
    ensures var reason := RejectReason(window, rows[k]);
      && (reason.None? ==> rows[k].Parsed?)
      && Usable(window, rows[..k + 1])
        == (if reason.None? then Usable(window, rows[..k]) + [rows[k].tick] else Usable(window, rows[..k]))
      && Rejections(window, rows[..k + 1])
        == Rejections(window, rows[..k]) + (if reason.None? then multiset{} else multiset{reason.value})
  {
    assert rows[..k + 1][..k] == rows[..k] && rows[..k + 1][k] == rows[k];
  }

  lemma OneMoreTick(ticks: seq<Tick>, tick: Tick)
    ensures Dedup(ticks + [tick])
      == if ticks != [] && ticks[|ticks| - 1] == tick then Dedup(ticks) else Dedup(ticks) + [tick]
    ensures Dedup(ticks + [tick]) != [] && (ticks != [] ==> Dedup(ticks) != [])
  {
    assert (ticks + [tick])[..|ticks|] == ticks;
    DedupLast(ticks + [tick]);
    if ticks != [] {
      DedupLast(ticks);
    }
  }

  lemma NothingRead(window: Window, rows: seq<Row>)
    ensures Usable(window, rows[..0]) == [] && Rejections(window, rows[..0]) == multiset{} && Dedup([]) == []
  {}

  /** Reads the rows once, remembering only the tick written last. */
  method NormalizeFile(window: Window, rows: seq<Row>) returns (output: seq<Tick>, stats: Stats)
    ensures output == Normalized(window, rows)
    ensures stats.ticksIn == |rows| && stats.ticksOut == |output|
    ensures stats.rejected == Rejections(window, rows)
    ensures stats.duplicatesRemoved == |Usable(window, rows)| - |output|
    ensures stats.firstTimestampMs == FirstMs(output) && stats.lastTimestampMs == LastMs(output)
  {
    hide Usable, Dedup, Rejections, RejectReason;
    output := [];
    var ticksIn, ticksOut, duplicates := 0, 0, 0;
    var rejected: multiset<Reason> := multiset{};
    var firstMs: Option<int>, lastMs: Option<int> := None, None;
    var previous: Option<Tick> := None;
    NothingRead(window, rows);
    for k := 0 to |rows|
      invariant output == Dedup(Usable(window, rows[..k]))
      invariant ticksIn == k && ticksOut == |output|
      invariant rejected == Rejections(window, rows[..k])
      invariant duplicates == |Usable(window, rows[..k])| - |output|
      invariant previous == LastOf(Usable(window, rows[..k]))
      invariant firstMs == FirstMs(output) && lastMs == LastMs(output)
    {
      var row := rows[k];
      OneMoreRow(window, rows, k);
      ticksIn := ticksIn + 1;
      match RejectReason(window, row) {
        case Some(reason) =>
          rejected := rejected + multiset{reason};
        case None =>
          OneMoreTick(Usable(window, rows[..k]), row.tick);
          if previous == Some(row.tick) {
            duplicates := duplicates + 1;
          } else {
            output := output + [row.tick];
            previous := Some(row.tick);
            ticksOut := ticksOut + 1;
            if firstMs.None? {
              firstMs := Some(row.tick.timestampMs);
            }
            lastMs := Some(row.tick.timestampMs);
          }
      }
    }
    assert rows[..|rows|] == rows;
    stats := Stats(ticksIn, ticksOut, duplicates, rejected, firstMs, lastMs);
  }

  function LastOf(ticks: seq<Tick>): Option<Tick> {
    if ticks == [] then None else Some(ticks[|ticks| - 1])
  }

  /** Rows in = rows out + consecutive repeats + all rejections. */
  lemma {:induction false} RowsAreConserved(window: Window, rows: seq<Row>)
    ensures |rows| == |Usable(window, rows)| + |Rejections(window, rows)|
    ensures |Normalized(window, rows)| <= |Usable(window, rows)|
  {
    if rows != [] {
      RowsAreConserved(window, rows[..|rows| - 1]);
    }
    DedupShrinks(Usable(window, rows));
  }

  lemma {:induction false} DedupShrinks(ticks: seq<Tick>)
    ensures |Dedup(ticks)| <= |ticks|
  {
    if |ticks| > 1 {
      DedupShrinks(ticks[..|ticks| - 1]);
    }
  }

  ghost predicate NoRepeats(ticks: seq<Tick>) {
    forall i :: 1 <= i < |ticks| ==> ticks[i] != ticks[i - 1]
  }

  /** The positions, in order, of the ticks that differ from their predecessor. */
  ghost function RunStarts(ticks: seq<Tick>): seq<int> {
    if ticks == [] then []
    else
      var n := |ticks| - 1;
      if n == 0 || ticks[n] != ticks[n - 1] then RunStarts(ticks[..n]) + [n] else RunStarts(ticks[..n])
  }

  ghost predicate AscendsBelow(positions: seq<int>, bound: int) {
    && (forall i :: 0 <= i < |positions| ==> 0 <= positions[i] < bound)
    && (forall i, j :: 0 <= i < j < |positions| ==> positions[i] < positions[j])
  }

  lemma {:induction false} RunStartsAscend(ticks: seq<Tick>)
    ensures AscendsBelow(RunStarts(ticks), |ticks|)
  {
    if ticks != [] {
      var n := |ticks| - 1;
      RunStartsAscend(ticks[..n]);
      var init := RunStarts(ticks[..n]);
      assert AscendsBelow(init, n) && AscendsBelow(init + [n], n + 1);
    }
  }

  lemma {:induction false} RunStartsAre(ticks: seq<Tick>, p: nat)
    requires p < |ticks|
    ensures p in RunStarts(ticks) <==> p == 0 || ticks[p] != ticks[p - 1]
  {
    var n := |ticks| - 1;
    var init := RunStarts(ticks[..n]);
    RunStartsAscend(ticks[..n]);
    if p < n {
      RunStartsAre(ticks[..n], p);
      assert p in init + [n] <==> p in init;
    } else if n == 0 || ticks[n] != ticks[n - 1] {
      assert (init + [n])[|init|] == n;
    }
  }

  /** The output is the subsequence of ticks that differ from their predecessor, and nothing else. */
  lemma {:induction false} DedupPicksRunStarts(ticks: seq<Tick>)
    ensures |Dedup(ticks)| == |RunStarts(ticks)|
    ensures forall i :: 0 <= i < |Dedup(ticks)| ==>
      0 <= RunStarts(ticks)[i] < |ticks| && Dedup(ticks)[i] == ticks[RunStarts(ticks)[i]]
  {
    if ticks != [] {
      var n := |ticks| - 1;
      DedupPicksRunStarts(ticks[..n]);
      if n == 0 {
        assert RunStarts(ticks[..0]) == [];
      }
    }
  }

  lemma {:induction false} DedupHasNoRepeats(ticks: seq<Tick>)
    ensures NoRepeats(Dedup(ticks))
  {
    if |ticks| > 1 {
      DedupHasNoRepeats(ticks[..|ticks| - 1]);
      DedupLast(ticks[..|ticks| - 1]);
    }
  }

  lemma {:induction false} DedupFixes(ticks: seq<Tick>)
    requires NoRepeats(ticks)
    ensures Dedup(ticks) == ticks
  {
    if |ticks| > 1 {
      DedupFixes(ticks[..|ticks| - 1]);
    }
  }

  lemma {:induction false} UsableIsSound(window: Window, rows: seq<Row>)
    ensures forall i :: 0 <= i < |Usable(window, rows)| ==>
      IsValid(Usable(window, rows)[i]) && Inside(window, Usable(window, rows)[i])
  {
    if rows != [] {
      UsableIsSound(window, rows[..|rows| - 1]);
    }
  }

  /** Every normalized tick is valid and inside the chunk's window. */
  lemma NormalizedIsSound(window: Window, rows: seq<Row>)
    ensures forall i :: 0 <= i < |Normalized(window, rows)| ==>
      IsValid(Normalized(window, rows)[i]) && Inside(window, Normalized(window, rows)[i])
    ensures NoRepeats(Normalized(window, rows))
  {
    UsableIsSound(window, rows);
    DedupPicksRunStarts(Usable(window, rows));
    DedupHasNoRepeats(Usable(window, rows));
  }

  function AsRows(ticks: seq<Tick>): (rows: seq<Row>)
    ensures |rows| == |ticks|
  {
    seq(|ticks|, i requires 0 <= i < |ticks| => Parsed(ticks[i]))
  }

  lemma {:induction false} UsableOfSound(window: Window, ticks: seq<Tick>)
    requires forall i :: 0 <= i < |ticks| ==> IsValid(ticks[i]) && Inside(window, ticks[i])
    ensures Usable(window, AsRows(ticks)) == ticks && Rejections(window, AsRows(ticks)) == multiset{}
  {
    if ticks != [] {
      var n := |ticks| - 1;
      UsableOfSound(window, ticks[..n]);
      assert AsRows(ticks)[..n] == AsRows(ticks[..n]);
    }
  }

  /** Normalizing a normalized file changes nothing, rejects nothing and finds no repeats. */
  lemma NormalizingAgain(window: Window, rows: seq<Row>)
    ensures var once := Normalized(window, rows);
      && Usable(window, AsRows(once)) == once
      && Normalized(window, AsRows(once)) == once
      && Rejections(window, AsRows(once)) == multiset{}
  {
    NormalizedIsSound(window, rows);
    UsableOfSound(window, Normalized(window, rows));
    DedupFixes(Normalized(window, rows));
  }
}
