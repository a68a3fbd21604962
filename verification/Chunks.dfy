/** Splitting a requested range of UTC dates, both ends included, into days or calendar months. */
module Chunks {
  import opened Calendar
  import opened Text

  datatype Chunk = Chunk(chunkId: string, startMs: int, endMs: int, firstDate: Date, lastDate: Date)

  datatype Unit = Day | Month

  datatype Plan =
    | Planned(chunks: seq<Chunk>)
    | UnknownUnit
    | ToBeforeFrom
    | PastLastDate

  /** A date that the standard library can hold. */
  predicate IsDate(d: Date) {
    ValidDate(d) && d.year <= MAX_YEAR
  }

  function ParseUnit(unit: string): Option<Unit> {
    if unit == "day" then Some(Day) else if unit == "month" then Some(Month) else None
  }

  function NextMonthStart(d: Date): Date {
    Date(if d.month == 12 then d.year + 1 else d.year, d.month % 12 + 1, 1)
  }

  function ChunkId(unit: Unit, d: Date): string
    requires IsDate(d)
  {
    match unit
    case Day => Pad4(d.year) + Pad2(d.month) + Pad2(d.day)
    case Month => Pad4(d.year) + Pad2(d.month)
  }

  /** The last date of the chunk that starts at `cursor`. */
  function LastDate(unit: Unit, cursor: Date, to: Date): Date
    requires IsDate(cursor) && IsDate(to)
  {
    match unit
    case Day => cursor
    case Month =>
      MonthEnd(cursor);
      var monthEnd := DateOf(Ordinal(NextMonthStart(cursor)) - 1);
      if DateLess(to, monthEnd) then to else monthEnd
  }

  /** Planning fails when it would have to name a date after the last one there is. */
  predicate RunsPastEnd(unit: Unit, to: Date) {
    to.year == MAX_YEAR && to.month == 12 && (unit == Day ==> to.day == 31)
  }

  /** The end of the month, reached by way of the first day of the next one. */
  lemma MonthEnd(d: Date)
    requires ValidDate(d)
    ensures ValidDate(NextMonthStart(d)) && Ordinal(NextMonthStart(d)) > 1
    ensures DateOf(Ordinal(NextMonthStart(d)) - 1) == Date(d.year, d.month, DaysInMonth(d.year, d.month))
  {
    var end := Date(d.year, d.month, DaysInMonth(d.year, d.month));
    MonthTurnsOver(d);
    hide Ordinal, DateOf, DaysInMonth, NextDay, NextMonthStart;
    NextDayCounts(end);
    DateOfOrdinal(end);
  }

  lemma MonthTurnsOver(d: Date)
    requires ValidDate(d)
    ensures var end := Date(d.year, d.month, DaysInMonth(d.year, d.month));
      ValidDate(end) && NextDay(end) == NextMonthStart(d) && ValidDate(NextMonthStart(d))
  {}

  function ChunkAt(unit: Unit, cursor: Date, last: Date): Chunk
    requires IsDate(cursor) && IsDate(last) && !(last == Date(MAX_YEAR, 12, 31))
  {
    NextDayCounts(last);
    Chunk(ChunkId(unit, cursor), UtcDateToMs(cursor), UtcDateToMs(NextDay(last)), cursor, last)
  }

  // ---------- what a plan must be ----------

  function MonthIndex(d: Date): int {
    d.year * 12 + d.month
  }

  ghost predicate ChunkOk(unit: Unit, c: Chunk) {
    && IsDate(c.firstDate) && IsDate(c.lastDate)
    && Ordinal(c.firstDate) <= Ordinal(c.lastDate)
    && c.startMs == UtcDateToMs(c.firstDate)
    && c.endMs == UtcDateToMs(c.lastDate) + MS_PER_DAY
    && c.chunkId == ChunkId(unit, c.firstDate)
    && (unit == Day ==> c.firstDate == c.lastDate)
    && (unit == Month ==> MonthIndex(c.firstDate) == MonthIndex(c.lastDate))
  }

  /** Neighbouring chunks abut, by date and by millisecond, and their ids increase as text. */
  ghost predicate Abut(a: Chunk, b: Chunk) {
    && IsDate(a.lastDate) && b.firstDate == NextDay(a.lastDate) && a.endMs == b.startMs
    && LexLess(a.chunkId, b.chunkId)
  }

  ghost predicate Tiles(unit: Unit, from: Date, to: Date, chunks: seq<Chunk>) {
    && chunks != []
    && chunks[0].firstDate == from && chunks[|chunks| - 1].lastDate == to
    && (forall i :: 0 <= i < |chunks| ==> ChunkOk(unit, chunks[i]))
    && (forall i :: 1 <= i < |chunks| ==> Abut(chunks[i - 1], chunks[i]))
  }

  lemma ChunkIdOrder(unit: Unit, a: Date, b: Date)
    requires IsDate(a) && IsDate(b)
    requires unit == Day ==> DateLess(a, b)
    requires unit == Month ==> MonthIndex(a) < MonthIndex(b)
    ensures LexLess(ChunkId(unit, a), ChunkId(unit, b))
  {
    hide Pad2, Pad4, LexLess;
    Pad4Order(a.year, b.year);
    Pad2Order(a.month, b.month);
    Pad2Order(a.day, b.day);
    PadLengths(a.year);
    PadLengths(b.year);
    PadLengths(a.month);
    PadLengths(b.month);
    PadLengths(a.day);
    PadLengths(b.day);
    LexConcat(Pad4(a.year), Pad4(b.year), Pad2(a.month), Pad2(b.month));
    LexConcat(Pad4(a.year) + Pad2(a.month), Pad4(b.year) + Pad2(b.month), Pad2(a.day), Pad2(b.day));
    if unit == Day && a.year == b.year && a.month == b.month {
      assert Pad4(a.year) + Pad2(a.month) == Pad4(b.year) + Pad2(b.month);
    }
  }

  /** The last date of a chunk stays inside the request, the month and the calendar. */
  lemma LastDateOk(unit: Unit, cursor: Date, to: Date)
    requires IsDate(cursor) && IsDate(to) && Ordinal(cursor) <= Ordinal(to) && !RunsPastEnd(unit, to)
    ensures var last := LastDate(unit, cursor, to);
      && IsDate(last) && last != Date(MAX_YEAR, 12, 31)
      && Ordinal(cursor) <= Ordinal(last) <= Ordinal(to)
      && (unit == Month ==> MonthIndex(last) == MonthIndex(cursor))
      && (unit == Month && last != to ==> last.day == DaysInMonth(last.year, last.month))
  {
    MonthEnd(cursor);
    var monthEnd := Date(cursor.year, cursor.month, DaysInMonth(cursor.year, cursor.month));
    OrdinalOrder(cursor, to);
    OrdinalOrder(cursor, monthEnd);
    OrdinalOrder(to, monthEnd);
  }

  lemma UnitNames(name: string)
    ensures ParseUnit(name).None? <==> name != "day" && name != "month"
    ensures ParseUnit(name) == Some(Day) <==> name == "day"
    ensures ParseUnit(name) == Some(Month) <==> name == "month"
  {
    assert "day"[0] != "month"[0];
  }

  /** The plan: walk the dates from the first to the last, one chunk at a time. */
  method PlanChunks(from: Date, to: Date, unitName: string) returns (plan: Plan)
    requires IsDate(from) && IsDate(to)
    ensures plan.UnknownUnit? <==> unitName != "day" && unitName != "month"
    ensures plan.ToBeforeFrom? <==> (unitName == "day" || unitName == "month") && DateLess(to, from)
    ensures plan.PastLastDate?
      <==> && (unitName == "day" || unitName == "month") && !DateLess(to, from)
           && to.year == MAX_YEAR && to.month == 12 && (unitName == "day" ==> to.day == 31)
    ensures plan.Planned? && unitName == "day" ==> Tiles(Day, from, to, plan.chunks)
    ensures plan.Planned? && unitName == "month" ==> Tiles(Month, from, to, plan.chunks)
  {
    UnitNames(unitName);
    var parsed := ParseUnit(unitName);
    if parsed.None? {
      return UnknownUnit;
    }
    var unit := parsed.value;
    if DateLess(to, from) {
      return ToBeforeFrom;
    }
    OrdinalOrder(to, from);
    if RunsPastEnd(unit, to) {
      return PastLastDate;
    }
    hide *;
    var chunks: seq<Chunk> := [];
    var cursor := from;
    Started(unit, from, to);
    while Ordinal(cursor) <= Ordinal(to)
      invariant SoFar(unit, from, to, chunks, cursor) && ValidDate(cursor)
      decreases Ordinal(to) - Ordinal(cursor)
    {
      CursorIsDate(unit, from, to, chunks, cursor);
      var last := LastDate(unit, cursor, to);
      LastDateOk(unit, cursor, to);
      var chunk := ChunkAt(unit, cursor, last);
      Extended(unit, from, to, chunks, cursor);
      chunks := chunks + [chunk];
      cursor := NextDay(last);
    }
    Finished(unit, from, to, chunks, cursor);
    plan := Planned(chunks);
  }

  /** What the planning loop keeps: the chunks tile the dates before the cursor. */
  ghost predicate SoFar(unit: Unit, from: Date, to: Date, chunks: seq<Chunk>, cursor: Date) {
    && IsDate(from) && IsDate(to) && ValidDate(cursor)
    && (chunks == [] ==> cursor == from)
    && (chunks != [] ==>
         var prior := chunks[|chunks| - 1];
         && Tiles(unit, from, prior.lastDate, chunks)
         && ChunkOk(unit, prior)
         && cursor == NextDay(prior.lastDate) && Ordinal(prior.lastDate) <= Ordinal(to)
         && (unit == Month && prior.lastDate != to ==> MonthIndex(prior.firstDate) < MonthIndex(cursor)))
  }

  lemma Started(unit: Unit, from: Date, to: Date)
    requires IsDate(from) && IsDate(to)
    ensures SoFar(unit, from, to, [], from)
  {}

  lemma CursorIsDate(unit: Unit, from: Date, to: Date, chunks: seq<Chunk>, cursor: Date)
    requires SoFar(unit, from, to, chunks, cursor) && Ordinal(cursor) <= Ordinal(to)
    ensures IsDate(cursor) && IsDate(to)
  {
    OrdinalOrder(to, cursor);
  }

  lemma Extended(unit: Unit, from: Date, to: Date, chunks: seq<Chunk>, cursor: Date)
    requires IsDate(cursor) && SoFar(unit, from, to, chunks, cursor) && Ordinal(cursor) <= Ordinal(to)
    requires IsDate(to) && !RunsPastEnd(unit, to)
    ensures var last := LastDate(unit, cursor, to);
      && IsDate(last) && last != Date(MAX_YEAR, 12, 31)
      && ValidDate(NextDay(last)) && Ordinal(NextDay(last)) > Ordinal(cursor)
      && SoFar(unit, from, to, chunks + [ChunkAt(unit, cursor, last)], NextDay(last))
  {
    hide Ordinal, ChunkId, UtcDateToMs, LexLess, LastDate, NextDay, ChunkAt, MonthIndex, ChunkOk, Abut, Tiles;
    LastDateOk(unit, cursor, to);
    var last := LastDate(unit, cursor, to);
    var chunk := ChunkAt(unit, cursor, last);
    SingleDay(unit, cursor, to);
    ChunkAtOk(unit, cursor, last);
    NextDayCounts(last);
    if chunks == [] {
      TilesOne(unit, chunk);
      assert [] + [chunk] == [chunk];
    } else {
      var prior := chunks[|chunks| - 1];
      NextDayCounts(to);
      PriorAbuts(unit, prior, chunk);
      TilesSnoc(unit, from, chunks, chunk);
    }
    if unit == Month && last != to {
      MonthTurns(last);
    }
  }

  lemma TilesOne(unit: Unit, chunk: Chunk)
    requires ChunkOk(unit, chunk)
    ensures Tiles(unit, chunk.firstDate, chunk.lastDate, [chunk])
  {}

  lemma TilesSnoc(unit: Unit, from: Date, chunks: seq<Chunk>, chunk: Chunk)
    requires chunks != [] && Tiles(unit, from, chunks[|chunks| - 1].lastDate, chunks)
    requires ChunkOk(unit, chunk) && Abut(chunks[|chunks| - 1], chunk)
    ensures Tiles(unit, from, chunk.lastDate, chunks + [chunk])
  {
    hide ChunkOk, Abut;
    var after := chunks + [chunk];
    forall i | 1 <= i < |after|
      ensures Abut(after[i - 1], after[i])
    {
      if i < |chunks| {
        assert Abut(chunks[i - 1], chunks[i]);
      }
    }
  }

  lemma SingleDay(unit: Unit, cursor: Date, to: Date)
    requires IsDate(cursor) && IsDate(to)
    ensures unit == Day ==> LastDate(unit, cursor, to) == cursor
  {}

  lemma MonthTurns(last: Date)
    requires ValidDate(last) && last.day == DaysInMonth(last.year, last.month)
    ensures MonthIndex(last) < MonthIndex(NextDay(last))
  {}

  lemma Finished(unit: Unit, from: Date, to: Date, chunks: seq<Chunk>, cursor: Date)
    requires SoFar(unit, from, to, chunks, cursor) && Ordinal(cursor) > Ordinal(to) >= Ordinal(from)
    ensures Tiles(unit, from, to, chunks)
  {
    var prior := chunks[|chunks| - 1];
    NextDayCounts(prior.lastDate);
    OrdinalOrder(prior.lastDate, to);
  }

  lemma ChunkAtOk(unit: Unit, cursor: Date, last: Date)
    requires IsDate(cursor) && IsDate(last) && last != Date(MAX_YEAR, 12, 31)
    requires Ordinal(cursor) <= Ordinal(last)
    requires unit == Day ==> cursor == last
    requires unit == Month ==> MonthIndex(cursor) == MonthIndex(last)
    ensures ChunkOk(unit, ChunkAt(unit, cursor, last))
    ensures ChunkAt(unit, cursor, last).firstDate == cursor && ChunkAt(unit, cursor, last).lastDate == last
  {
    NextDayCounts(last);
  }

  lemma PriorAbuts(unit: Unit, prior: Chunk, chunk: Chunk)
    requires ChunkOk(unit, prior) && ChunkOk(unit, chunk)
    requires chunk.firstDate == NextDay(prior.lastDate)
    requires unit == Month ==> MonthIndex(prior.firstDate) < MonthIndex(chunk.firstDate)
    ensures Abut(prior, chunk)
  {
    NextDayCounts(prior.lastDate);
    ChunkIdOrder(unit, prior.firstDate, chunk.firstDate);
  }

  // ---------- what a tiling gives ----------

  /** Later chunks start after earlier ones end, their months never repeat, and their ids increase. */
  lemma {:induction false} TilesAscend(unit: Unit, from: Date, to: Date, chunks: seq<Chunk>, i: nat, j: nat)
    requires Tiles(unit, from, to, chunks) && i < j < |chunks|
    ensures ChunkOk(unit, chunks[i]) && ChunkOk(unit, chunks[j])
    ensures Ordinal(chunks[i].lastDate) < Ordinal(chunks[j].firstDate)
    ensures chunks[i].endMs <= chunks[j].startMs
    ensures LexLess(chunks[i].chunkId, chunks[j].chunkId)
    decreases j - i
  {
    assert ChunkOk(unit, chunks[j]) && ChunkOk(unit, chunks[j - 1]) && Abut(chunks[j - 1], chunks[j]);
    NextDayCounts(chunks[j - 1].lastDate);
    if i < j - 1 {
      TilesAscend(unit, from, to, chunks, i, j - 1);
      LexTransitive(chunks[i].chunkId, chunks[j - 1].chunkId, chunks[j].chunkId);
    }
  }

  lemma {:induction false} LexTransitive(a: string, b: string, c: string)
    requires LexLess(a, b) && LexLess(b, c)
    ensures LexLess(a, c)
  {
    if a != [] && a[0] == b[0] && b[0] == c[0] {
      LexTransitive(a[1..], b[1..], c[1..]);
    }
  }

  /** Manifest keys never collide: different chunks of a plan have different ids. */
  lemma ChunkIdsAreDistinct(unit: Unit, from: Date, to: Date, chunks: seq<Chunk>)
    requires Tiles(unit, from, to, chunks)
    ensures forall i, j :: 0 <= i < j < |chunks| ==> chunks[i].chunkId != chunks[j].chunkId
  {
    forall i, j | 0 <= i < j < |chunks|
      ensures chunks[i].chunkId != chunks[j].chunkId
    {
      TilesAscend(unit, from, to, chunks, i, j);
      LexIrreflexive(chunks[i].chunkId);
    }
  }

  ghost predicate Covers(c: Chunk, d: Date)
    requires IsDate(c.firstDate) && IsDate(c.lastDate) && ValidDate(d)
  {
    Ordinal(c.firstDate) <= Ordinal(d) <= Ordinal(c.lastDate)
  }

  /** Every requested date lies in exactly one chunk. */
  lemma EachDateOnce(unit: Unit, from: Date, to: Date, chunks: seq<Chunk>, d: Date) returns (k: nat)
    requires Tiles(unit, from, to, chunks) && ValidDate(d)
    requires IsDate(from) && IsDate(to) && Ordinal(from) <= Ordinal(d) <= Ordinal(to)
    ensures k < |chunks| && ChunkOk(unit, chunks[k]) && Covers(chunks[k], d)
    ensures forall i :: 0 <= i < |chunks| && i != k ==> ChunkOk(unit, chunks[i]) && !Covers(chunks[i], d)
  {
    k := 0;
    while Ordinal(chunks[k].lastDate) < Ordinal(d)
      invariant k < |chunks| && ChunkOk(unit, chunks[k])
      invariant Ordinal(chunks[k].firstDate) <= Ordinal(d)
      decreases |chunks| - k
    {
      if k == |chunks| - 1 {
        assert false;
      }
      assert ChunkOk(unit, chunks[k + 1]) && Abut(chunks[k], chunks[k + 1]);
      NextDayCounts(chunks[k].lastDate);
      k := k + 1;
    }
    forall i | 0 <= i < |chunks| && i != k
      ensures ChunkOk(unit, chunks[i]) && !Covers(chunks[i], d)
    {
      if i < k {
        TilesAscend(unit, from, to, chunks, i, k);
      } else {
        TilesAscend(unit, from, to, chunks, k, i);
      }
    }
  }

  /** A tiling is determined by its request: two plans for the same dates and unit agree chunk by chunk. */
  lemma {:induction false} TilingIsUnique(unit: Unit, from: Date, to: Date, a: seq<Chunk>, b: seq<Chunk>, n: nat)
    requires Tiles(unit, from, to, a) && Tiles(unit, from, to, b)
    requires n < |a|
    ensures n < |b| && a[n] == b[n]
  {
    hide Ordinal, ChunkId, UtcDateToMs, LexLess, NextDay, MonthIndex, IsDate, ChunkOk, Abut;
    if n > 0 {
      TilingIsUnique(unit, from, to, a, b, n - 1);
      NotTheLast(unit, from, to, a, n);
      assert Abut(a[n - 1], a[n]);
      assert b[|b| - 1].lastDate == to;
      assert Abut(b[n - 1], b[n]);
      AbutStart(a[n - 1], a[n]);
      AbutStart(b[n - 1], b[n]);
    }
    SameStartSameChunk(unit, from, to, a, b, n);
  }

  lemma AbutStart(a: Chunk, b: Chunk)
    requires Abut(a, b)
    ensures b.firstDate == NextDay(a.lastDate)
  {}

  lemma NotTheLast(unit: Unit, from: Date, to: Date, chunks: seq<Chunk>, n: nat)
    requires Tiles(unit, from, to, chunks) && 0 < n < |chunks|
    ensures chunks[n - 1].lastDate != to
  {
    TilesAscend(unit, from, to, chunks, n - 1, n);
    LastIsGreatest(unit, from, to, chunks, n);
  }

  lemma SameStartSameChunk(unit: Unit, from: Date, to: Date, a: seq<Chunk>, b: seq<Chunk>, n: nat)
    requires Tiles(unit, from, to, a) && Tiles(unit, from, to, b)
    requires n < |a| && n < |b| && a[n].firstDate == b[n].firstDate
    ensures a[n] == b[n]
  {
    assert ChunkOk(unit, a[n]) && ChunkOk(unit, b[n]);
    if unit == Month {
      ChunkEnds(unit, from, to, a, n);
      ChunkEnds(unit, from, to, b, n);
    }
  }

  lemma LastIsGreatest(unit: Unit, from: Date, to: Date, chunks: seq<Chunk>, n: nat)
    requires Tiles(unit, from, to, chunks) && n < |chunks|
    ensures ChunkOk(unit, chunks[n]) && IsDate(to) && Ordinal(chunks[n].lastDate) <= Ordinal(to)
  {
    hide Ordinal, ChunkId, UtcDateToMs, LexLess, NextDay;
    assert ChunkOk(unit, chunks[n]) && ChunkOk(unit, chunks[|chunks| - 1]);
    if n < |chunks| - 1 {
      TilesAscend(unit, from, to, chunks, n, |chunks| - 1);
    }
  }

  /** A month chunk runs to the end of its month, or to the end of the request if that is earlier. */
  lemma ChunkEnds(unit: Unit, from: Date, to: Date, chunks: seq<Chunk>, n: nat)
    requires unit == Month && Tiles(unit, from, to, chunks) && n < |chunks|
    ensures IsDate(chunks[n].firstDate) && IsDate(to)
    ensures var f := chunks[n].firstDate;
      var monthEnd := Date(f.year, f.month, DaysInMonth(f.year, f.month));
      chunks[n].lastDate == if Ordinal(to) < Ordinal(monthEnd) then to else monthEnd
  {
    var c := chunks[n];
    assert ChunkOk(unit, c);
    var f := c.firstDate;
    var monthEnd := Date(f.year, f.month, DaysInMonth(f.year, f.month));
    LastIsGreatest(unit, from, to, chunks, n);
    OrdinalOrder(monthEnd, c.lastDate);
    OrdinalOrder(to, c.lastDate);
    if n < |chunks| - 1 {
      var next := chunks[n + 1];
      assert Abut(c, next) && ChunkOk(unit, next);
      if c.lastDate != monthEnd {
        assert MonthIndex(next.firstDate) == MonthIndex(f);
        assert next.chunkId == c.chunkId;
        LexIrreflexive(c.chunkId);
        assert false;
      }
      OrdinalOrder(to, monthEnd);
    }
  }
}
