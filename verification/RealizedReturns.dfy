/**
 Monthly returns of the EA, from realized profit and loss over the balance each month starts with.
 A trade carries the calendar month, in Tokyo time, in which it closed.
 */
module RealizedReturns {
  import opened P = Products
  import opened AnnualTax

  datatype Month = Month(year: int, month: int)

  datatype Trade = Trade(closed: Month, pnl: real)

  datatype Outcome =
    | Returns(monthly: seq<MonthlyReturn>)
    | BalanceNotPositive
    | ClosedOutsidePeriod
    | EquityExhausted

  function PnlIn(trades: seq<Trade>, month: Month): real {
    if trades == [] then 0.0
    else (if trades[0].closed == month then trades[0].pnl else 0.0) + PnlIn(trades[1..], month)
  }

  function TotalPnl(trades: seq<Trade>): real {
    if trades == [] then 0.0 else trades[0].pnl + TotalPnl(trades[1..])
  }

  /** Realized equity after the given months. */
  function Equity(trades: seq<Trade>, balance: real, months: seq<Month>): real {
    if months == [] then balance
    else Equity(trades, balance, months[..|months| - 1]) + PnlIn(trades, months[|months| - 1])
  }

  predicate AllInside(trades: seq<Trade>, months: seq<Month>) {
    forall i :: 0 <= i < |trades| ==> trades[i].closed in months
  }

  ghost predicate StaysSolvent(trades: seq<Trade>, balance: real, months: seq<Month>) {
    forall k :: 0 <= k <= |months| ==> Equity(trades, balance, months[..k]) > 0.0
  }

  /** The k-th return times the equity at the start of its month is that month's profit. */
  ghost predicate ReturnOf(trades: seq<Trade>, balance: real, months: seq<Month>, k: nat, item: MonthlyReturn)
    requires k < |months|
  {
    && item.year == months[k].year && item.month == months[k].month
    && Times(item.rate, Equity(trades, balance, months[..k])) == PnlIn(trades, months[k])
  }

  lemma EquitySnoc(trades: seq<Trade>, balance: real, months: seq<Month>, k: nat)
    requires k < |months|
    ensures Equity(trades, balance, months[..k + 1]) == Equity(trades, balance, months[..k]) + PnlIn(trades, months[k])
  {
    assert months[..k + 1][..k] == months[..k];
  }

  /**
   The returns exist exactly when the balance is positive, every trade closes inside the
   period and realized equity never reaches zero; the refusals name the first reason that holds.
   */
  method EaMonthlyReturns(trades: seq<Trade>, balance: real, months: seq<Month>) returns (outcome: Outcome)
    ensures outcome.BalanceNotPositive? <==> balance <= 0.0
    ensures outcome.ClosedOutsidePeriod? <==> balance > 0.0 && !AllInside(trades, months)
    ensures outcome.EquityExhausted?
      <==> balance > 0.0 && AllInside(trades, months) && !StaysSolvent(trades, balance, months)
    ensures outcome.Returns? ==>
      && |outcome.monthly| == |months|
      && forall k :: 0 <= k < |months| ==> ReturnOf(trades, balance, months, k, outcome.monthly[k])
  {
    hide Times;
    if balance <= 0.0 {
      return BalanceNotPositive;
    }
    if !AllInside(trades, months) {
      return ClosedOutsidePeriod;
    }
    var equity := balance;
    var monthly: seq<MonthlyReturn> := [];
    for k := 0 to |months|
      invariant |monthly| == k
      invariant equity == Equity(trades, balance, months[..k])
      invariant forall i :: 0 <= i <= k ==> Equity(trades, balance, months[..i]) > 0.0
      invariant forall i :: 0 <= i < k ==> ReturnOf(trades, balance, months, i, monthly[i])
    {
      var pnl := PnlIn(trades, months[k]);
      DivTimes(pnl, equity);
      monthly := monthly + [MonthlyReturn(months[k].year, months[k].month, pnl / equity)];
      assert ReturnOf(trades, balance, months, k, monthly[k]);
      EquitySnoc(trades, balance, months, k);
      equity := equity + pnl;
      if equity <= 0.0 {
        return EquityExhausted;
      }
    }
    outcome := Returns(monthly);
  }

  lemma DivTimes(a: real, b: real)
    requires b > 0.0
    ensures Times(a / b, b) == a
  {}

  /** Compounding the returns over the starting balance gives the final equity, and each is above -1. */
  lemma {:induction false} ReturnsCompoundToEquity(trades: seq<Trade>, balance: real, months: seq<Month>,
          monthly: seq<MonthlyReturn>)
    requires |monthly| == |months| && StaysSolvent(trades, balance, months)
    requires forall k :: 0 <= k < |months| ==> ReturnOf(trades, balance, months, k, monthly[k])
    ensures AboveTotalLoss(monthly)
    ensures Times(Compound(monthly), balance) == Equity(trades, balance, months)
  {
    hide Times;
    if months == [] {
      P.One(balance);
    } else {
      var n := |months| - 1;
      var init, last := months[..n], monthly[n];
      forall k | 0 <= k <= n
        ensures Equity(trades, balance, init[..k]) > 0.0
      {
        assert init[..k] == months[..k];
      }
      forall k | 0 <= k < n
        ensures ReturnOf(trades, balance, init, k, monthly[..n][k])
      {
        assert ReturnOf(trades, balance, months, k, monthly[k]);
        assert init[..k] == months[..k];
      }
      ReturnsCompoundToEquity(trades, balance, init, monthly[..n]);
      assert ReturnOf(trades, balance, months, n, monthly[n]);
      var before, after := Equity(trades, balance, init), Equity(trades, balance, months);
      assert months[..n + 1] == months;
      assert after > 0.0;
      // (1 + rate) * before == after
      P.Distribute(1.0, -last.rate, before);
      Growth(last.rate, before);
      P.Swap(Compound(monthly[..n]), 1.0 + last.rate, balance);
      P.Commute(before, 1.0 + last.rate);
      P.Cancel(-1.0, last.rate, before);
    }
  }

  lemma Growth(rate: real, before: real)
    ensures Times(1.0 + rate, before) == before + Times(rate, before)
    ensures Times(-1.0, before) == -before
  {}

  ghost predicate DistinctMonths(months: seq<Month>) {
    forall i, j :: 0 <= i < j < |months| ==> months[i] != months[j]
  }

  lemma {:induction false} EquityWithout(trades: seq<Trade>, balance: real, months: seq<Month>)
    requires trades != []
    ensures Equity(trades, balance, months) == Equity(trades[1..], balance, months) + Hits(trades[0], months)
  {
    if months != [] {
      EquityWithout(trades, balance, months[..|months| - 1]);
    }
  }

  ghost function Hits(trade: Trade, months: seq<Month>): real {
    if months == [] then 0.0
    else Hits(trade, months[..|months| - 1]) + (if months[|months| - 1] == trade.closed then trade.pnl else 0.0)
  }

  lemma {:induction false} HitsOnce(trade: Trade, months: seq<Month>)
    requires DistinctMonths(months)
    ensures Hits(trade, months) == if trade.closed in months then trade.pnl else 0.0
  {
    if months != [] {
      var n := |months| - 1;
      HitsOnce(trade, months[..n]);
      if months[n] == trade.closed {
        assert trade.closed !in months[..n];
      } else {
        assert trade.closed in months <==> trade.closed in months[..n];
      }
    }
  }

  /** When the period lists each month once, every trade counts exactly once in the final equity. */
  lemma {:induction false} EquityCountsEveryTrade(trades: seq<Trade>, balance: real, months: seq<Month>)
    requires AllInside(trades, months) && DistinctMonths(months)
    ensures Equity(trades, balance, months) == balance + TotalPnl(trades)
  {
    if trades == [] {
      NoTrades(balance, months);
    } else {
      EquityWithout(trades, balance, months);
      HitsOnce(trades[0], months);
      assert forall i :: 0 <= i < |trades[1..]| ==> trades[1..][i] == trades[i + 1];
      EquityCountsEveryTrade(trades[1..], balance, months);
    }
  }

  lemma {:induction false} NoTrades(balance: real, months: seq<Month>)
    ensures Equity([], balance, months) == balance
  {
    if months != [] {
      NoTrades(balance, months[..|months| - 1]);
    }
  }

  /**
   The EA's stream, end to end: built from realized profit, it compounds back to the balance
   plus all profit, and its annually taxed wealth is at most the deferred treatment of the same stream.
   */
  lemma RealizedStream(trades: seq<Trade>, balance: real, months: seq<Month>, monthly: seq<MonthlyReturn>, rate: real)
    requires months != [] && DistinctMonths(months) && AllInside(trades, months)
      && StaysSolvent(trades, balance, months)
    requires |monthly| == |months| && forall k :: 0 <= k < |months| ==> ReturnOf(trades, balance, months, k, monthly[k])
    requires 0.0 <= rate < 1.0
    ensures Times(Compound(monthly), balance) == balance + TotalPnl(trades)
    ensures 0.0 < WealthAfter(AnnualTaxYears(rate, monthly)) <= DeferredEnding(rate, monthly)
  {
    ReturnsCompoundToEquity(trades, balance, months, monthly);
    EquityCountsEveryTrade(trades, balance, months);
    AnnualNeverBeatsDeferred(rate, monthly);
  }
}
