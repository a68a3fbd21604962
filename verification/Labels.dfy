/**
 Labelling a trade by which of its two levels later bars reach first, and what that label says
 about every course the price can have taken inside the bars.
 */
module Labels {
  import opened Floats
  import opened Text

  datatype Bar = Bar(high: Num, low: Num)

  datatype Outcome = TP | SL | CENSORED | AMBIGUOUS

  datatype LabelError = BadDirection | NoBars | BadPrices | NegativeCost | BadGeometry | BadBar

  datatype Label =
    | Label(outcome: Outcome, win: Option<int>, netReturn: Option<real>, bars: Option<nat>)
    | Rejected(error: LabelError)

  /** The direction and the levels of a trade. */
  datatype Trade = Trade(isBuy: bool, entry: real, stopLoss: real, takeProfit: real)

  predicate ValidTrade(t: Trade) {
    && t.entry > 0.0 && t.stopLoss > 0.0 && t.takeProfit > 0.0
    && (if t.isBuy then t.stopLoss < t.entry < t.takeProfit else t.takeProfit < t.entry < t.stopLoss)
  }

  predicate ValidBar(bar: Bar) {
    bar.high.Finite? && bar.low.Finite? && bar.low.v <= bar.high.v
  }

  predicate HitsTakeProfit(t: Trade, bar: Bar)
    requires ValidBar(bar)
  {
    if t.isBuy then bar.high.v >= t.takeProfit else bar.low.v <= t.takeProfit
  }

  predicate HitsStopLoss(t: Trade, bar: Bar)
    requires ValidBar(bar)
  {
    if t.isBuy then bar.low.v <= t.stopLoss else bar.high.v >= t.stopLoss
  }

  /** The return of leaving at a price, before costs. */
  function GrossReturn(t: Trade, exit: real): real
    requires ValidTrade(t)
  {
    var change := (exit - t.entry) / t.entry;
    if t.isBuy then change else -change
  }

  /** Scans the bars from the one after `seen` earlier ones. */
  function Scan(t: Trade, cost: real, bars: seq<Bar>, seen: nat): Label
    requires ValidTrade(t)
  {
    if bars == [] then Label(CENSORED, None, None, None)
    else if !ValidBar(bars[0]) then Rejected(BadBar)
    else
      var tp, sl := HitsTakeProfit(t, bars[0]), HitsStopLoss(t, bars[0]);
      if tp && sl then Label(AMBIGUOUS, None, None, Some(seen + 1))
      else if tp then Label(TP, Some(1), Some(GrossReturn(t, t.takeProfit) - cost), Some(seen + 1))
      else if sl then Label(SL, Some(0), Some(GrossReturn(t, t.stopLoss) - cost), Some(seen + 1))
      else Scan(t, cost, bars[1..], seen + 1)
  }

  function FirstTouchLabel(direction: string, entry: Num, stopLoss: Num, takeProfit: Num, bars: seq<Bar>,
          cost: Num): Label {
    if direction != "BUY" && direction != "SELL" then Rejected(BadDirection)
    else if bars == [] then Rejected(NoBars)
    else if !(entry.Finite? && stopLoss.Finite? && takeProfit.Finite? && cost.Finite?) then Rejected(BadPrices)
    else if entry.v <= 0.0 || stopLoss.v <= 0.0 || takeProfit.v <= 0.0 then Rejected(BadPrices)
    else if cost.v < 0.0 then Rejected(NegativeCost)
    else
      var t := Trade(direction == "BUY", entry.v, stopLoss.v, takeProfit.v);
      if !ValidTrade(t) then Rejected(BadGeometry) else Scan(t, cost.v, bars, 0)
  }

  // ---------- the courses that bars allow ----------

  /** The prices of one bar in time order: they reach its high and its low and never leave that range. */
  ghost predicate Allows(bar: Bar, prices: seq<real>)
    requires ValidBar(bar)
  {
    && bar.high.v in prices && bar.low.v in prices
    && forall i :: 0 <= i < |prices| ==> bar.low.v <= prices[i] <= bar.high.v
  }

  ghost predicate AllValid(bars: seq<Bar>) {
    forall i :: 0 <= i < |bars| ==> ValidBar(bars[i])
  }

  /** One list of prices for each bar. */
  ghost predicate Course(bars: seq<Bar>, path: seq<seq<real>>)
    requires AllValid(bars)
  {
    |path| == |bars| && forall i :: 0 <= i < |bars| ==> Allows(bars[i], path[i])
  }

  datatype Touch = TakeProfit | StopLoss | Neither

  function TouchAt(t: Trade, price: real): Touch {
    if (if t.isBuy then price >= t.takeProfit else price <= t.takeProfit) then TakeProfit
    else if (if t.isBuy then price <= t.stopLoss else price >= t.stopLoss) then StopLoss
    else Neither
  }

  function FirstInBar(t: Trade, prices: seq<real>): Touch {
    if prices == [] then Neither
    else if TouchAt(t, prices[0]) != Neither then TouchAt(t, prices[0])
    else FirstInBar(t, prices[1..])
  }

  /** Which level a course of prices touches first. */
  function FirstTouch(t: Trade, path: seq<seq<real>>): Touch {
    if path == [] then Neither
    else if FirstInBar(t, path[0]) != Neither then FirstInBar(t, path[0])
    else FirstTouch(t, path[1..])
  }

  lemma {:induction false} FirstInBarIs(t: Trade, prices: seq<real>)
    ensures FirstInBar(t, prices) == Neither <==> forall i :: 0 <= i < |prices| ==> TouchAt(t, prices[i]) == Neither
    ensures FirstInBar(t, prices) != Neither ==>
      exists i :: 0 <= i < |prices| && TouchAt(t, prices[i]) == FirstInBar(t, prices)
  {
    if prices != [] {
      var rest := prices[1..];
      FirstInBarIs(t, rest);
      hide TouchAt;
      if TouchAt(t, prices[0]) == Neither {
        forall i | 0 <= i < |prices| && FirstInBar(t, rest) == Neither
          ensures TouchAt(t, prices[i]) == Neither
        {
          if i > 0 {
            assert rest[i - 1] == prices[i];
          }
        }
        if FirstInBar(t, rest) != Neither {
          var i :| 0 <= i < |rest| && TouchAt(t, rest[i]) == FirstInBar(t, rest);
          assert prices[i + 1] == rest[i];
        }
      }
    }
  }

  /** A bar that reaches at most one level is touched the same way on every course. */
  lemma BarDecides(t: Trade, bar: Bar, prices: seq<real>)
    requires ValidTrade(t) && ValidBar(bar) && Allows(bar, prices)
    requires !(HitsTakeProfit(t, bar) && HitsStopLoss(t, bar))
    ensures FirstInBar(t, prices)
         == if HitsTakeProfit(t, bar) then TakeProfit else if HitsStopLoss(t, bar) then StopLoss else Neither
  {
    FirstInBarIs(t, prices);
    var h :| 0 <= h < |prices| && prices[h] == bar.high.v;
    var l :| 0 <= l < |prices| && prices[l] == bar.low.v;
    assert TouchAt(t, prices[h]) == TouchAt(t, bar.high.v) && TouchAt(t, prices[l]) == TouchAt(t, bar.low.v);
  }

  /** Up first and then down, or the other way round. */
  function UpDown(bar: Bar): seq<real>
    requires ValidBar(bar)
  {
    [bar.high.v, bar.low.v]
  }

  function DownUp(bar: Bar): seq<real>
    requires ValidBar(bar)
  {
    [bar.low.v, bar.high.v]
  }

  lemma BothOrders(t: Trade, bar: Bar)
    requires ValidTrade(t) && ValidBar(bar)
    ensures Allows(bar, UpDown(bar)) && Allows(bar, DownUp(bar))
    ensures HitsTakeProfit(t, bar) && HitsStopLoss(t, bar) ==>
      && FirstInBar(t, UpDown(bar)) == (if t.isBuy then TakeProfit else StopLoss)
      && FirstInBar(t, DownUp(bar)) == (if t.isBuy then StopLoss else TakeProfit)
  {
    assert bar.high.v == UpDown(bar)[0] && bar.low.v == UpDown(bar)[1];
    assert bar.low.v == DownUp(bar)[0] && bar.high.v == DownUp(bar)[1];
  }

  // ---------- what a label means ----------

  /** The outcome is what every course shows, or, for AMBIGUOUS, what no course can settle. */
  ghost predicate Means(t: Trade, bars: seq<Bar>, outcome: Outcome)
    requires AllValid(bars)
  {
    match outcome
    case TP => forall path :: Course(bars, path) ==> FirstTouch(t, path) == TakeProfit
    case SL => forall path :: Course(bars, path) ==> FirstTouch(t, path) == StopLoss
    case CENSORED => forall path :: Course(bars, path) ==> FirstTouch(t, path) == Neither
    case AMBIGUOUS => Possible(t, bars, TakeProfit) && Possible(t, bars, StopLoss)
  }

  ghost predicate Possible(t: Trade, bars: seq<Bar>, touch: Touch)
    requires AllValid(bars)
  {
    exists path :: Course(bars, path) && FirstTouch(t, path) == touch
  }

  lemma CourseTail(bars: seq<Bar>, path: seq<seq<real>>)
    requires AllValid(bars) && bars != [] && Course(bars, path)
    ensures AllValid(bars[1..]) && Course(bars[1..], path[1..]) && Allows(bars[0], path[0])
  {
    hide Allows;
  }

  lemma CourseCons(bars: seq<Bar>, prices: seq<real>, path: seq<seq<real>>)
    requires AllValid(bars) && bars != [] && Allows(bars[0], prices) && AllValid(bars[1..]) && Course(bars[1..], path)
    ensures Course(bars, [prices] + path) && ([prices] + path)[1..] == path
  {
    hide Allows;
    var all := [prices] + path;
    forall i | 0 <= i < |bars|
      ensures Allows(bars[i], all[i])
    {
      if i > 0 {
        assert bars[1..][i - 1] == bars[i] && path[i - 1] == all[i];
      }
    }
  }

  lemma {:induction false} SomeCourse(bars: seq<Bar>) returns (path: seq<seq<real>>)
    requires AllValid(bars)
    ensures Course(bars, path)
  {
    if bars == [] {
      path := [];
    } else {
      path := SomeCourse(bars[1..]);
      assert bars[0].high.v == UpDown(bars[0])[0] && bars[0].low.v == UpDown(bars[0])[1];
      CourseCons(bars, UpDown(bars[0]), path);
      path := [UpDown(bars[0])] + path;
    }
  }

  /** The first bar reaches a level: it settles the outcome alone. */
  lemma FirstBarMeans(t: Trade, bars: seq<Bar>, outcome: Outcome)
    requires ValidTrade(t) && AllValid(bars) && bars != []
    requires HitsTakeProfit(t, bars[0]) || HitsStopLoss(t, bars[0])
    requires outcome == if HitsTakeProfit(t, bars[0]) && HitsStopLoss(t, bars[0]) then AMBIGUOUS
      else if HitsTakeProfit(t, bars[0]) then TP else SL
    ensures Means(t, bars, outcome)
  {
    hide HitsTakeProfit, HitsStopLoss, Allows, FirstInBar;
    if outcome == AMBIGUOUS {
      BothOrders(t, bars[0]);
      assert AllValid(bars[1..]) by { AllValidTail(bars); }
      var rest := SomeCourse(bars[1..]);
      CourseCons(bars, UpDown(bars[0]), rest);
      CourseCons(bars, DownUp(bars[0]), rest);
      var a, b := [UpDown(bars[0])] + rest, [DownUp(bars[0])] + rest;
      assert a[0] == UpDown(bars[0]) && b[0] == DownUp(bars[0]);
      assert FirstTouch(t, a) == FirstInBar(t, a[0]) && FirstTouch(t, b) == FirstInBar(t, b[0]);
    } else {
      forall path | Course(bars, path)
        ensures FirstTouch(t, path) == if outcome == TP then TakeProfit else StopLoss
      {
        CourseTail(bars, path);
        CourseLength(bars, path);
        BarDecides(t, bars[0], path[0]);
      }
    }
  }

  lemma AllValidTail(bars: seq<Bar>)
    requires AllValid(bars) && bars != []
    ensures AllValid(bars[1..])
  {}

  lemma CourseLength(bars: seq<Bar>, path: seq<seq<real>>)
    requires AllValid(bars) && Course(bars, path)
    ensures |path| == |bars|
  {}

  /** The first bar reaches no level: it changes nothing. */
  lemma QuietBarMeans(t: Trade, bars: seq<Bar>, outcome: Outcome)
    requires ValidTrade(t) && AllValid(bars) && bars != [] && AllValid(bars[1..])
    requires !HitsTakeProfit(t, bars[0]) && !HitsStopLoss(t, bars[0])
    requires Means(t, bars[1..], outcome)
    ensures Means(t, bars, outcome)
  {
    hide HitsTakeProfit, HitsStopLoss, Allows, FirstInBar;
    forall path | Course(bars, path)
      ensures Course(bars[1..], path[1..]) && FirstTouch(t, path) == FirstTouch(t, path[1..])
    {
      CourseTail(bars, path);
      CourseLength(bars, path);
      BarDecides(t, bars[0], path[0]);
    }
    if outcome == AMBIGUOUS {
      QuietPossible(t, bars, TakeProfit);
      QuietPossible(t, bars, StopLoss);
    }
  }

  lemma QuietPossible(t: Trade, bars: seq<Bar>, touch: Touch)
    requires ValidTrade(t) && AllValid(bars) && bars != [] && AllValid(bars[1..])
    requires !HitsTakeProfit(t, bars[0]) && !HitsStopLoss(t, bars[0])
    requires Possible(t, bars[1..], touch)
    ensures Possible(t, bars, touch)
  {
    BothOrders(t, bars[0]);
    hide HitsTakeProfit, HitsStopLoss, Allows, FirstInBar;
    var rest :| Course(bars[1..], rest) && FirstTouch(t, rest) == touch;
    CourseCons(bars, UpDown(bars[0]), rest);
    BarDecides(t, bars[0], UpDown(bars[0]));
    var path := [UpDown(bars[0])] + rest;
    assert path[0] == UpDown(bars[0]) && FirstTouch(t, path) == FirstTouch(t, path[1..]);
  }

  /** How many bars a label looked at. */
  function Examined(found: Label, bars: seq<Bar>): nat
    requires found.Label?
  {
    if found.bars.Some? then found.bars.value else |bars|
  }

  lemma {:induction false} ScanMeans(t: Trade, cost: real, bars: seq<Bar>, seen: nat)
    requires ValidTrade(t) && Scan(t, cost, bars, seen).Label?
    ensures var found := Scan(t, cost, bars, seen);
      && (found.bars.None? <==> found.outcome == CENSORED)
      && (found.bars.Some? ==> seen < found.bars.value <= seen + |bars|)
      && var n := if found.bars.Some? then found.bars.value - seen else |bars|;
         && AllValid(bars[..n]) && Means(t, bars[..n], found.outcome)
    ensures AllValid(bars) ==> Means(t, bars, Scan(t, cost, bars, seen).outcome)
  {
    hide HitsTakeProfit, HitsStopLoss, ValidBar, Means;
    if bars == [] {
      assert bars[..0] == [];
      NoBarsMean(t);
    } else if HitsTakeProfit(t, bars[0]) || HitsStopLoss(t, bars[0]) {
      FirstBarMeans(t, bars[..1], Scan(t, cost, bars, seen).outcome);
      if AllValid(bars) {
        FirstBarMeans(t, bars, Scan(t, cost, bars, seen).outcome);
      }
    } else {
      ScanMeans(t, cost, bars[1..], seen + 1);
      var found := Scan(t, cost, bars[1..], seen + 1);
      var n := if found.bars.Some? then found.bars.value - seen else |bars|;
      assert bars[..n][1..] == bars[1..][..n - 1];
      assert bars[..n] == [bars[0]] + bars[1..][..n - 1];
      QuietBarMeans(t, bars[..n], found.outcome);
      if AllValid(bars) {
        AllValidTail(bars);
        QuietBarMeans(t, bars, found.outcome);
      }
    }
  }

  lemma NoBarsMean(t: Trade)
    ensures Means(t, [], CENSORED)
  {}

  /** The four meanings exclude each other, because some course always exists. */
  lemma MeaningsDiffer(t: Trade, bars: seq<Bar>, a: Outcome, b: Outcome)
    requires AllValid(bars) && Means(t, bars, a) && Means(t, bars, b)
    ensures a == b
  {
    var path := SomeCourse(bars);
    hide FirstTouch, Course, AllValid;
  }

  /**
   A label's outcome is exactly what the bars determine: TP or SL when every course of prices
   touches that level first, CENSORED when no course touches either, and AMBIGUOUS when two courses
   disagree. That holds over all the bars when they are valid, and over those the label looked at in
   any case.
   */
  lemma LabelIsRight(direction: string, entry: Num, stopLoss: Num, takeProfit: Num, bars: seq<Bar>, cost: Num,
          outcome: Outcome)
    requires FirstTouchLabel(direction, entry, stopLoss, takeProfit, bars, cost).Label?
    ensures var found := FirstTouchLabel(direction, entry, stopLoss, takeProfit, bars, cost);
      var t := Trade(direction == "BUY", entry.v, stopLoss.v, takeProfit.v);
      var n := Examined(found, bars);
      && n <= |bars| && AllValid(bars[..n])
      && (found.outcome == outcome <==> Means(t, bars[..n], outcome))
      && (AllValid(bars) ==> (found.outcome == outcome <==> Means(t, bars, outcome)))
  {
    var t := Trade(direction == "BUY", entry.v, stopLoss.v, takeProfit.v);
    ScanMeans(t, cost.v, bars, 0);
    var found := Scan(t, cost.v, bars, 0);
    hide Scan, Means, ValidTrade;
    if Means(t, bars[..Examined(found, bars)], outcome) {
      MeaningsDiffer(t, bars[..Examined(found, bars)], outcome, found.outcome);
    }
    if AllValid(bars) && Means(t, bars, outcome) {
      MeaningsDiffer(t, bars, outcome, found.outcome);
    }
  }

  /**
   A TP label is a gain and an SL label a loss, before the cost that is taken from both: what the
   way from the entry to the level reached pays.
   */
  lemma {:induction false} ReturnsAgree(t: Trade, cost: real, bars: seq<Bar>, seen: nat)
    requires ValidTrade(t) && Scan(t, cost, bars, seen).Label?
    ensures var found := Scan(t, cost, bars, seen);
      && (found.win == Some(1) <==> found.outcome == TP) && (found.win == Some(0) <==> found.outcome == SL)
      && (found.netReturn.Some? <==> found.win.Some?)
      && (found.outcome == TP ==> found.netReturn.value + cost > 0.0)
      && (found.outcome == SL ==> found.netReturn.value + cost < 0.0)
      && (found.netReturn.Some? ==>
           var exit := if found.outcome == TP then t.takeProfit else t.stopLoss;
           Pays(t, exit, found.netReturn.value + cost))
  {
    SignOf(t, t.takeProfit);
    SignOf(t, t.stopLoss);
    AmountOf(t, t.takeProfit);
    AmountOf(t, t.stopLoss);
    hide GrossReturn, HitsTakeProfit, HitsStopLoss, Pays, ValidBar;
    if bars != [] && ValidBar(bars[0]) && !HitsTakeProfit(t, bars[0]) && !HitsStopLoss(t, bars[0]) {
      ReturnsAgree(t, cost, bars[1..], seen + 1);
    }
  }

  /** A return, in money per unit, is the way from the entry to the exit, in the direction of the trade. */
  ghost predicate Pays(t: Trade, exit: real, gross: real) {
    gross * t.entry == if t.isBuy then exit - t.entry else t.entry - exit
  }

  lemma AmountOf(t: Trade, exit: real)
    requires ValidTrade(t)
    ensures Pays(t, exit, GrossReturn(t, exit))
  {
    var change := (exit - t.entry) / t.entry;
    assert change * t.entry == exit - t.entry;
    assert (-change) * t.entry == t.entry - exit;
  }

  /** A bar that can be read and reaches neither level. */
  ghost predicate Quiet(t: Trade, bar: Bar) {
    ValidBar(bar) && !HitsTakeProfit(t, bar) && !HitsStopLoss(t, bar)
  }

  /** The scan ends at bar `n`: every bar before it is quiet and it is not. */
  ghost predicate EndsAt(t: Trade, bars: seq<Bar>, n: int) {
    0 <= n < |bars| && !Quiet(t, bars[n]) && forall i :: 0 <= i < n ==> Quiet(t, bars[i])
  }

  ghost predicate EndsBadly(t: Trade, bars: seq<Bar>) {
    exists n :: EndsAt(t, bars, n) && !ValidBar(bars[n])
  }

  lemma EndsAtTail(t: Trade, bars: seq<Bar>, n: int)
    requires bars != [] && Quiet(t, bars[0]) && EndsAt(t, bars[1..], n)
    ensures EndsAt(t, bars, n + 1)
  {
    hide Quiet;
    assert forall i :: 0 < i < |bars| ==> bars[i] == bars[1..][i - 1];
  }

  /** The scan ends at the first bar that is not quiet: with an error if it cannot be read, else with its number. */
  lemma {:induction false} ScanEnds(t: Trade, cost: real, bars: seq<Bar>, seen: nat)
    requires ValidTrade(t)
    ensures var found := Scan(t, cost, bars, seen);
      && (found.Rejected? ==> found.error == BadBar && EndsBadly(t, bars))
      && (found.Label? && found.bars.Some? ==>
           found.bars.value > seen && EndsAt(t, bars, found.bars.value - seen - 1)
           && ValidBar(bars[found.bars.value - seen - 1]))
      && (found.Label? && found.bars.None? ==> forall i :: 0 <= i < |bars| ==> Quiet(t, bars[i]))
  {
    hide HitsTakeProfit, HitsStopLoss, ValidBar;
    if bars != [] {
      if Quiet(t, bars[0]) {
        ScanEnds(t, cost, bars[1..], seen + 1);
        var found := Scan(t, cost, bars[1..], seen + 1);
        if found.Rejected? {
          var n :| EndsAt(t, bars[1..], n) && !ValidBar(bars[1..][n]);
          EndsAtTail(t, bars, n);
        } else if found.bars.Some? {
          EndsAtTail(t, bars, found.bars.value - seen - 2);
        } else {
          assert forall i :: 0 < i < |bars| ==> bars[i] == bars[1..][i - 1];
        }
      } else {
        assert EndsAt(t, bars, 0);
      }
    }
  }

  lemma ScanRefuses(t: Trade, cost: real, bars: seq<Bar>, seen: nat)
    requires ValidTrade(t)
    ensures Scan(t, cost, bars, seen).Rejected? <==> EndsBadly(t, bars)
  {
    ScanEnds(t, cost, bars, seen);
    hide Scan, Quiet, ValidBar;
    var found := Scan(t, cost, bars, seen);
    if EndsBadly(t, bars) {
      var n :| EndsAt(t, bars, n) && !ValidBar(bars[n]);
      NotQuiet(t, bars[n]);
    }
  }

  lemma NotQuiet(t: Trade, bar: Bar)
    ensures !ValidBar(bar) ==> !Quiet(t, bar)
  {}

  /** Each refusal of the inputs, exactly under its condition; a refused bar comes after quiet ones only. */
  lemma RefusedExactly(direction: string, entry: Num, stopLoss: Num, takeProfit: Num, bars: seq<Bar>, cost: Num)
    ensures var found := FirstTouchLabel(direction, entry, stopLoss, takeProfit, bars, cost);
      var sided := direction == "BUY" || direction == "SELL";
      var finite := entry.Finite? && stopLoss.Finite? && takeProfit.Finite? && cost.Finite?;
      var priced := finite && entry.v > 0.0 && stopLoss.v > 0.0 && takeProfit.v > 0.0;
      var ordered := priced
        && (if direction == "BUY" then stopLoss.v < entry.v < takeProfit.v
            else takeProfit.v < entry.v < stopLoss.v);
      && (found == Rejected(BadDirection) <==> !sided)
      && (found == Rejected(NoBars) <==> sided && bars == [])
      && (found == Rejected(BadPrices) <==> sided && bars != [] && !priced)
      && (found == Rejected(NegativeCost) <==> sided && bars != [] && priced && cost.v < 0.0)
      && (found == Rejected(BadGeometry) <==> sided && bars != [] && priced && cost.v >= 0.0 && !ordered)
      && (found == Rejected(BadBar)
          <==> && sided && bars != [] && ordered && cost.v >= 0.0
               && EndsBadly(Trade(direction == "BUY", entry.v, stopLoss.v, takeProfit.v), bars))
      && (found.Label? && found.bars.Some? ==>
           && found.bars.value > 0
           && EndsAt(Trade(direction == "BUY", entry.v, stopLoss.v, takeProfit.v), bars, found.bars.value - 1))
  {
    assert "BUY"[0] != "SELL"[0];
    if entry.Finite? && stopLoss.Finite? && takeProfit.Finite? && cost.Finite? {
      var t := Trade(direction == "BUY", entry.v, stopLoss.v, takeProfit.v);
      if ValidTrade(t) {
        ScanEnds(t, cost.v, bars, 0);
        ScanRefuses(t, cost.v, bars, 0);
      }
    }
    hide Scan, EndsAt, EndsBadly;
  }

  lemma SignOf(t: Trade, exit: real)
    requires ValidTrade(t)
    ensures GrossReturn(t, exit) > 0.0 <==> (if t.isBuy then exit > t.entry else exit < t.entry)
    ensures GrossReturn(t, exit) < 0.0 <==> (if t.isBuy then exit < t.entry else exit > t.entry)
  {
    QuotientSign(exit - t.entry, t.entry);
  }

  lemma QuotientSign(a: real, b: real)
    requires b > 0.0
    ensures a / b > 0.0 <==> a > 0.0
    ensures a / b < 0.0 <==> a < 0.0
  {
    var q := a / b;
    assert q * b == a;
  }
}
