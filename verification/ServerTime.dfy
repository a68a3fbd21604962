/** Conversion between UTC and the clock that an MT5 server shows. */
module ServerTime {
  import opened Calendar

  const MS_PER_HOUR := 3_600_000
  const NY_CLOSE_SHIFT_MS := 7 * MS_PER_HOUR

  /**
   New York's daylight saving as a table of transition instants. They fall on whole UTC hours, lie
   more than a day apart and alternate between the start of summer time and its end:
   `changes[i]` starts summer time for even `i` when `startsInWinter`, and for odd `i` otherwise.
   */
  datatype Zone = Zone(changes: seq<int>, startsInWinter: bool)

  ghost predicate ValidZone(zone: Zone) {
    && (forall i :: 0 <= i < |zone.changes| ==> zone.changes[i] % MS_PER_HOUR == 0)
    && (forall i, j :: 0 <= i < j < |zone.changes| ==> zone.changes[j] - zone.changes[i] > MS_PER_DAY)
  }

  /** How many changes have happened by instant `t`. */
  function ChangesBy(changes: seq<int>, t: int): nat {
    if changes == [] then 0
    else if changes[|changes| - 1] <= t then |changes|
    else ChangesBy(changes[..|changes| - 1], t)
  }

  predicate SummerAfter(zone: Zone, changesBy: nat) {
    (changesBy % 2 == 1) == zone.startsInWinter
  }

  predicate IsSummer(zone: Zone, t: int) {
    SummerAfter(zone, ChangesBy(zone.changes, t))
  }

  /** New York's UTC offset at instant `t`. */
  function NewYorkOffsetMs(zone: Zone, t: int): int {
    if IsSummer(zone, t) then -4 * MS_PER_HOUR else -5 * MS_PER_HOUR
  }

  datatype Rule = Utc | Fixed(offsetHours: real) | NyClose

  predicate ValidRule(rule: Rule) {
    rule.Fixed? ==> -14.0 <= rule.offsetHours <= 14.0
  }

  /** Conversion of a float to an integer drops the fraction. */
  function Truncate(x: real): int {
    if x >= 0.0 then x.Floor else -((-x).Floor)
  }

  function OffsetMsAt(zone: Zone, rule: Rule, t: int): int {
    match rule
    case Utc => 0
    case Fixed(hours) => Truncate(hours * MS_PER_HOUR as real)
    case NyClose => NewYorkOffsetMs(zone, t) + NY_CLOSE_SHIFT_MS
  }

  function ToWall(zone: Zone, rule: Rule, utcMs: int): int {
    utcMs + OffsetMsAt(zone, rule, utcMs)
  }

  /** Two rounds of fixed-point iteration. */
  function ToUtc(zone: Zone, rule: Rule, wallMs: int): int {
    var guess := wallMs - OffsetMsAt(zone, rule, wallMs);
    wallMs - OffsetMsAt(zone, rule, guess)
  }

  lemma {:induction false} ChangesByBrackets(changes: seq<int>, t: int)
    requires forall i, j :: 0 <= i < j < |changes| ==> changes[i] < changes[j]
    ensures var c := ChangesBy(changes, t);
      c <= |changes| && (c > 0 ==> changes[c - 1] <= t) && (c < |changes| ==> t < changes[c])
  {
    if changes != [] && changes[|changes| - 1] > t {
      ChangesByBrackets(changes[..|changes| - 1], t);
    }
  }

  /** The bracketing changes determine the count. */
  lemma ChangesByIs(zone: Zone, t: int, c: nat)
    requires ValidZone(zone) && c <= |zone.changes|
    requires c > 0 ==> zone.changes[c - 1] <= t
    requires c < |zone.changes| ==> t < zone.changes[c]
    ensures ChangesBy(zone.changes, t) == c
  {
    ChangesByBrackets(zone.changes, t);
  }

  /** Within a day after `t` there is at most the next change, and within a day before it at most the last. */
  lemma NearbyChanges(zone: Zone, t: int, u: int)
    requires ValidZone(zone) && t - MS_PER_DAY <= u <= t + MS_PER_DAY
    ensures var changes, c := zone.changes, ChangesBy(zone.changes, t);
      && c <= |changes| && (c > 0 ==> changes[c - 1] <= t) && (c < |changes| ==> t < changes[c])
      && ChangesBy(changes, u) ==
         (if c < |changes| && changes[c] <= u then c + 1 else if c > 0 && u < changes[c - 1] then c - 1 else c)
  {
    var changes, c := zone.changes, ChangesBy(zone.changes, t);
    ChangesByBrackets(changes, t);
    if c < |changes| && changes[c] <= u {
      if c + 1 < |changes| {
        assert changes[c + 1] - changes[c] > MS_PER_DAY;
      }
      ChangesByIs(zone, u, c + 1);
    } else if c > 0 && u < changes[c - 1] {
      if c > 1 {
        assert changes[c - 1] - changes[c - 2] > MS_PER_DAY;
      }
      ChangesByIs(zone, u, c - 1);
    } else {
      ChangesByIs(zone, u, c);
    }
  }

  /** The hour before summer time ends: its wall times are shown a second time an hour later. */
  ghost predicate LastSummerHour(zone: Zone, t: int) {
    var c := ChangesBy(zone.changes, t);
    IsSummer(zone, t) && c < |zone.changes| && zone.changes[c] - MS_PER_HOUR <= t < zone.changes[c]
  }

  /**
   Converting to the New York close clock and back gives the instant itself, except in the last
   hour of summer time, where it gives exactly one hour later.
   */
  lemma NyCloseRoundTrip(zone: Zone, t: int)
    requires ValidZone(zone)
    ensures ToUtc(zone, NyClose, ToWall(zone, NyClose, t)) == if LastSummerHour(zone, t) then t + MS_PER_HOUR else t
  {
    var w := ToWall(zone, NyClose, t);
    NearbyChanges(zone, t, w);
    var guess := w - OffsetMsAt(zone, NyClose, w);
    NearbyChanges(zone, t, guess);
  }

  /** A wall time that no instant shows: the hour skipped when summer time starts. */
  ghost predicate SkippedHour(zone: Zone, wallMs: int) {
    exists i :: 0 <= i < |zone.changes| && SummerAfter(zone, i + 1)
      && zone.changes[i] + 2 * MS_PER_HOUR <= wallMs < zone.changes[i] + 3 * MS_PER_HOUR
  }

  /**
   Converting a New York close wall time to UTC and back gives the wall time itself, except for
   the hour skipped when summer time starts, where it gives exactly one hour later.
   */
  lemma NyCloseWallRoundTrip(zone: Zone, w: int)
    requires ValidZone(zone)
    ensures ToWall(zone, NyClose, ToUtc(zone, NyClose, w)) == if SkippedHour(zone, w) then w + MS_PER_HOUR else w
  {
    var guess := w - OffsetMsAt(zone, NyClose, w);
    var u := ToUtc(zone, NyClose, w);
    NearbyChanges(zone, w, guess);
    NearbyChanges(zone, w, u);
    var c := ChangesBy(zone.changes, w);
    forall i | 0 <= i < |zone.changes| && i != c - 1
      ensures !(zone.changes[i] + 2 * MS_PER_HOUR <= w < zone.changes[i] + 3 * MS_PER_HOUR)
    {
      if i < c - 1 {
        assert zone.changes[c - 1] - zone.changes[i] > MS_PER_DAY;
      } else if c < i {
        assert zone.changes[i] - zone.changes[c] > MS_PER_DAY;
      }
    }
    if c > 0 && SummerAfter(zone, c)
      && zone.changes[c - 1] + 2 * MS_PER_HOUR <= w < zone.changes[c - 1] + 3 * MS_PER_HOUR {
      assert SummerAfter(zone, (c - 1) + 1);
      assert SkippedHour(zone, w);
    }
  }

  /** New York is on summer time: the last change before or at `t` starts it, or there is none and it began so. */
  ghost predicate OnSummerTime(zone: Zone, t: int) {
    if forall i :: 0 <= i < |zone.changes| ==> t < zone.changes[i] then !zone.startsInWinter
    else exists i :: LastChange(zone, t, i) && (i % 2 == 0 <==> zone.startsInWinter)
  }

  ghost predicate LastChange(zone: Zone, t: int, i: int) {
    0 <= i < |zone.changes| && zone.changes[i] <= t && (i + 1 < |zone.changes| ==> t < zone.changes[i + 1])
  }

  /**
   How far each mode's clock is ahead of UTC: not at all; by the given hours, in whole
   milliseconds and without the fraction of one; by three hours on New York summer time and two
   otherwise.
   */
  lemma ClockIsAhead(zone: Zone, rule: Rule, t: int)
    requires ValidZone(zone)
    ensures var ahead := ToWall(zone, rule, t) - t;
      match rule
      case Utc => ahead == 0
      case Fixed(hours) =>
        && (hours >= 0.0 ==> ahead as real <= hours * 3_600_000.0 < ahead as real + 1.0)
        && (hours <= 0.0 ==> ahead as real - 1.0 < hours * 3_600_000.0 <= ahead as real)
      case NyClose => ahead == if OnSummerTime(zone, t) then 10_800_000 else 7_200_000
  {
    SummerIs(zone, t);
    hide IsSummer, OnSummerTime;
    if rule.Fixed? {
      var x := rule.offsetHours * MS_PER_HOUR as real;
      assert x == rule.offsetHours * 3_600_000.0;
      hide OffsetMsAt;
      assert OffsetMsAt(zone, rule, t) == Truncate(x) by { FixedShift(zone, rule, t); }
      Truncated(x);
    }
  }

  lemma FixedShift(zone: Zone, rule: Rule, t: int)
    requires rule.Fixed?
    ensures OffsetMsAt(zone, rule, t) == Truncate(rule.offsetHours * MS_PER_HOUR as real)
  {}

  lemma Truncated(x: real)
    ensures x >= 0.0 ==> Truncate(x) as real <= x < Truncate(x) as real + 1.0
    ensures x <= 0.0 ==> Truncate(x) as real - 1.0 < x <= Truncate(x) as real
  {}

  lemma SummerIs(zone: Zone, t: int)
    requires ValidZone(zone)
    ensures IsSummer(zone, t) <==> OnSummerTime(zone, t)
  {
    ChangesByBrackets(zone.changes, t);
    var c := ChangesBy(zone.changes, t);
    if c > 0 {
      forall i | LastChange(zone, t, i)
        ensures i == c - 1
      {}
      assert LastChange(zone, t, c - 1);
      assert (c - 1) % 2 == 0 <==> c % 2 == 1;
    }
  }

  /** The other modes shift by a constant, so each direction undoes the other everywhere. */
  lemma ConstantShiftRoundTrip(zone: Zone, rule: Rule, t: int)
    requires !rule.NyClose?
    ensures ToUtc(zone, rule, ToWall(zone, rule, t)) == t
    ensures ToWall(zone, rule, ToUtc(zone, rule, t)) == t
  {}

  /** Wall time runs backwards between two instants only across the end of summer time, within an hour. */
  lemma WallGoesBack(zone: Zone, rule: Rule, t: int, u: int)
    requires ValidZone(zone) && t <= u
    ensures ToWall(zone, rule, u) < ToWall(zone, rule, t)
       <==> rule.NyClose? && u - t < MS_PER_HOUR && IsSummer(zone, t) && !IsSummer(zone, u)
  {}

  lemma OffsetBounds(zone: Zone, rule: Rule, t: int)
    requires ValidRule(rule)
    ensures -14 * MS_PER_HOUR <= OffsetMsAt(zone, rule, t) <= 14 * MS_PER_HOUR
  {
    if rule.Fixed? {
      var x := rule.offsetHours * MS_PER_HOUR as real;
      assert -14.0 * MS_PER_HOUR as real <= x <= 14.0 * MS_PER_HOUR as real;
    }
  }

  /** Changes fall on whole hours, so the start of the hour has the same offset. */
  lemma HourDecidesOffset(zone: Zone, t: int)
    requires ValidZone(zone)
    ensures NewYorkOffsetMs(zone, t / MS_PER_HOUR * MS_PER_HOUR) == NewYorkOffsetMs(zone, t)
  {
    var start := t / MS_PER_HOUR * MS_PER_HOUR;
    NearbyChanges(zone, t, start);
    var c := ChangesBy(zone.changes, t);
    if c > 0 && start < zone.changes[c - 1] {
      HoursAreWhole(zone.changes[c - 1], t);
    }
  }

  lemma HoursAreWhole(change: int, t: int)
    requires change % MS_PER_HOUR == 0 && change <= t
    ensures change <= t / MS_PER_HOUR * MS_PER_HOUR
  {
    assert change == change / MS_PER_HOUR * MS_PER_HOUR;
  }

  /** The process-wide memo of New York offsets, keyed by UTC hour. */
  class OffsetCache {
    const zone: Zone
    var hours: map<int, int>

    ghost predicate Valid()
      reads this
    {
      ValidZone(zone) && forall h :: h in hours ==> hours[h] == NewYorkOffsetMs(zone, h * MS_PER_HOUR)
    }

    constructor (zone: Zone)
      requires ValidZone(zone)
      ensures Valid() && this.zone == zone
    {
      this.zone := zone;
      hours := map[];
    }

    method OffsetForHour(hour: int) returns (offset: int)
      requires Valid()
      modifies this
      ensures Valid() && offset == NewYorkOffsetMs(zone, hour * MS_PER_HOUR)
    {
      if hour !in hours {
        hours := hours[hour := NewYorkOffsetMs(zone, hour * MS_PER_HOUR)];
      }
      offset := hours[hour];
    }

    /** Whatever the memo holds, the offset is the one looked up directly at the instant. */
    method OffsetAt(rule: Rule, t: int) returns (offset: int)
      requires Valid()
      modifies this
      ensures Valid() && offset == OffsetMsAt(zone, rule, t)
    {
      match rule {
        case Utc => offset := 0;
        case Fixed(hours) => offset := Truncate(hours * MS_PER_HOUR as real);
        case NyClose =>
          HourDecidesOffset(zone, t);
          offset := OffsetForHour(t / MS_PER_HOUR);
          offset := offset + NY_CLOSE_SHIFT_MS;
      }
    }

    method WallOf(rule: Rule, utcMs: int) returns (wallMs: int)
      requires Valid()
      modifies this
      ensures Valid() && wallMs == ToWall(zone, rule, utcMs)
    {
      var offset := OffsetAt(rule, utcMs);
      wallMs := utcMs + offset;
    }

    method UtcOf(rule: Rule, wallMs: int) returns (utcMs: int)
      requires Valid()
      modifies this
      ensures Valid() && utcMs == ToUtc(zone, rule, wallMs)
    {
      var offset := OffsetAt(rule, wallMs);
      offset := OffsetAt(rule, wallMs - offset);
      utcMs := wallMs - offset;
    }
  }
}
