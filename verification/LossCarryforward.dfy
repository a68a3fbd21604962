/** Tax losses carried forward: the oldest-first rule, and that no other rule beats it. */
module LossCarryforward {

  const LOSS_CARRYFORWARD_YEARS := 3

  /**
   What is left of one year's loss. Each year the entries that are too old are dropped, a losing
   year appends its loss, and a winning year draws on the list.
   */
  datatype Loss = Loss(origin: int, amount: real)

  function Min(a: real, b: real): real {
    if a <= b then a else b
  }

  function Sum(losses: seq<Loss>): real {
    if losses == [] then 0.0 else losses[0].amount + Sum(losses[1..])
  }

  /** What is left of the losses that arose in year `cutoff` or later. */
  function SumFrom(losses: seq<Loss>, cutoff: int): real {
    if losses == [] then 0.0
    else (if losses[0].origin >= cutoff then losses[0].amount else 0.0) + SumFrom(losses[1..], cutoff)
  }

  ghost predicate Positive(losses: seq<Loss>) {
    forall i :: 0 <= i < |losses| ==> losses[i].amount > 0.0
  }

  ghost predicate NonNegative(losses: seq<Loss>) {
    forall i :: 0 <= i < |losses| ==> losses[i].amount >= 0.0
  }

  /** Origins strictly increase: the list runs from the oldest loss to the newest. */
  ghost predicate OldestFirst(losses: seq<Loss>) {
    forall i, j :: 0 <= i < j < |losses| ==> losses[i].origin < losses[j].origin
  }

  /** The entries that are still usable in `year`. */
  function Live(losses: seq<Loss>, year: int): seq<Loss> {
    if losses == [] then []
    else (if year - losses[0].origin <= LOSS_CARRYFORWARD_YEARS then [losses[0]] else []) + Live(losses[1..], year)
  }

  /** How much of `gain` the list offsets when its entries are used in order. */
  function Used(losses: seq<Loss>, gain: real): real {
    if losses == [] then 0.0
    else var applied := Min(losses[0].amount, gain); applied + Used(losses[1..], gain - applied)
  }

  /** What the list holds after offsetting `gain` in order; exhausted entries disappear. */
  function Rest(losses: seq<Loss>, gain: real): seq<Loss> {
    if losses == [] then []
    else
      var applied := Min(losses[0].amount, gain);
      var left := losses[0].amount - applied;
      (if left > 0.0 then [Loss(losses[0].origin, left)] else []) + Rest(losses[1..], gain - applied)
  }

  /** One year under the oldest-first rule. */
  function OldestFirstYear(losses: seq<Loss>, year: int, gain: real): seq<Loss> {
    var live := Live(losses, year);
    if gain > 0.0 then Rest(live, gain)
    else if gain < 0.0 then live + [Loss(year, -gain)]
    else live
  }

  // ---------- sums over lists ----------

  lemma {:induction false} SumConcat(a: seq<Loss>, b: seq<Loss>)
    ensures Sum(a + b) == Sum(a) + Sum(b)
  {
    if a == [] {
      assert a + b == b;
    } else {
      assert (a + b)[1..] == a[1..] + b;
      SumConcat(a[1..], b);
    }
  }

  lemma {:induction false} SumFromConcat(a: seq<Loss>, b: seq<Loss>, cutoff: int)
    ensures SumFrom(a + b, cutoff) == SumFrom(a, cutoff) + SumFrom(b, cutoff)
  {
    if a == [] {
      assert a + b == b;
    } else {
      assert (a + b)[1..] == a[1..] + b;
      SumFromConcat(a[1..], b, cutoff);
    }
  }

  lemma {:induction false} SumFromBounds(losses: seq<Loss>, cutoff: int)
    requires NonNegative(losses)
    ensures 0.0 <= SumFrom(losses, cutoff) <= Sum(losses)
    ensures (forall i :: 0 <= i < |losses| ==> losses[i].origin >= cutoff) ==> SumFrom(losses, cutoff) == Sum(losses)
    ensures (forall i :: 0 <= i < |losses| ==> losses[i].origin < cutoff) ==> SumFrom(losses, cutoff) == 0.0
  {
    if losses != [] {
      assert forall i :: 0 <= i < |losses[1..]| ==> losses[1..][i] == losses[i + 1];
      SumFromBounds(losses[1..], cutoff);
    }
  }

  /** Expiry removes exactly the amounts that arose more than three years before `year`. */
  lemma {:induction false} LiveKeepsRecent(losses: seq<Loss>, year: int, cutoff: int)
    ensures Sum(Live(losses, year)) == SumFrom(losses, year - LOSS_CARRYFORWARD_YEARS)
    ensures SumFrom(Live(losses, year), cutoff)
         == SumFrom(losses, if cutoff >= year - LOSS_CARRYFORWARD_YEARS then cutoff else year - LOSS_CARRYFORWARD_YEARS)
  {
    if losses != [] {
      LiveKeepsRecent(losses[1..], year, cutoff);
      var head := if year - losses[0].origin <= LOSS_CARRYFORWARD_YEARS then [losses[0]] else [];
      SumConcat(head, Live(losses[1..], year));
      SumFromConcat(head, Live(losses[1..], year), cutoff);
    }
  }

  lemma {:induction false} LiveMembers(losses: seq<Loss>, year: int)
    ensures forall e :: e in Live(losses, year) <==> e in losses && year - e.origin <= LOSS_CARRYFORWARD_YEARS
  {
    if losses != [] {
      LiveMembers(losses[1..], year);
    }
  }

  ghost predicate AllLater(losses: seq<Loss>, origin: int) {
    forall i :: 0 <= i < |losses| ==> losses[i].origin > origin
  }

  lemma {:induction false} LiveStaysLater(losses: seq<Loss>, year: int, origin: int)
    requires AllLater(losses, origin)
    ensures AllLater(Live(losses, year), origin)
  {
    if losses != [] {
      assert AllLater(losses[1..], origin);
      LiveStaysLater(losses[1..], year, origin);
    }
  }

  lemma {:induction false} LiveKeepsOrder(losses: seq<Loss>, year: int)
    requires OldestFirst(losses)
    ensures OldestFirst(Live(losses, year))
  {
    if losses != [] {
      var tail := losses[1..];
      assert OldestFirst(tail) && AllLater(tail, losses[0].origin);
      LiveKeepsOrder(tail, year);
      LiveStaysLater(tail, year, losses[0].origin);
    }
  }

  lemma {:induction false} LiveKeepsSigns(losses: seq<Loss>, year: int)
    ensures Positive(losses) ==> Positive(Live(losses, year))
    ensures NonNegative(losses) ==> NonNegative(Live(losses, year))
  {
    if losses != [] {
      LiveKeepsSigns(losses[1..], year);
      assert Positive(losses) ==> Positive(losses[1..]);
      assert NonNegative(losses) ==> NonNegative(losses[1..]);
    }
  }

  lemma LiveShape(losses: seq<Loss>, year: int)
    ensures forall e :: e in Live(losses, year) <==> e in losses && year - e.origin <= LOSS_CARRYFORWARD_YEARS
    ensures OldestFirst(losses) ==> OldestFirst(Live(losses, year))
    ensures Positive(losses) ==> Positive(Live(losses, year))
    ensures NonNegative(losses) ==> NonNegative(Live(losses, year))
  {
    hide Live, OldestFirst, Positive, NonNegative;
    LiveMembers(losses, year);
    LiveKeepsSigns(losses, year);
    if OldestFirst(losses) {
      LiveKeepsOrder(losses, year);
    }
  }

  /** Oldest-first use offsets as much as can be offset, and the list pays exactly for it. */
  lemma {:induction false} UsedIsMin(losses: seq<Loss>, gain: real)
    requires NonNegative(losses) && gain >= 0.0
    ensures Used(losses, gain) == Min(Sum(losses), gain)
    ensures Sum(Rest(losses, gain)) == Sum(losses) - Used(losses, gain)
    ensures Positive(Rest(losses, gain))
  {
    if losses != [] {
      var applied := Min(losses[0].amount, gain);
      assert NonNegative(losses[1..]);
      UsedIsMin(losses[1..], gain - applied);
      SumFromBounds(losses[1..], 0);
      var left := losses[0].amount - applied;
      var head := if left > 0.0 then [Loss(losses[0].origin, left)] else [];
      SumConcat(head, Rest(losses[1..], gain - applied));
      assert Sum(head) == left;
      hide NonNegative, OldestFirst, SumFrom;
    }
  }

  ghost predicate OriginsWithin(losses: seq<Loss>, lo: int, hi: int) {
    forall i :: 0 <= i < |losses| ==> lo <= losses[i].origin <= hi
  }

  lemma {:induction false} RestShape(losses: seq<Loss>, gain: real, lo: int, hi: int)
    requires OldestFirst(losses) && OriginsWithin(losses, lo, hi)
    ensures OldestFirst(Rest(losses, gain)) && OriginsWithin(Rest(losses, gain), lo, hi)
  {
    if losses != [] {
      var applied := Min(losses[0].amount, gain);
      assert OriginsWithin(losses[1..], losses[0].origin + 1, hi);
      RestShape(losses[1..], gain - applied, losses[0].origin + 1, hi);
    }
  }

  lemma TailFromCutoff(losses: seq<Loss>, cutoff: int)
    requires NonNegative(losses) && OldestFirst(losses) && losses != []
    ensures NonNegative(losses[1..]) && OldestFirst(losses[1..])
    ensures 0.0 <= SumFrom(losses[1..], cutoff) <= Sum(losses[1..])
    ensures losses[0].origin >= cutoff ==> SumFrom(losses[1..], cutoff) == Sum(losses[1..])
  {
    var tail := losses[1..];
    assert forall i :: 0 <= i < |tail| ==> tail[i] == losses[i + 1];
    SumFromBounds(tail, cutoff);
  }

  /** Oldest-first reaches the losses from `cutoff` on only after every older one is exhausted. */
  lemma {:induction false} RestFromCutoff(losses: seq<Loss>, gain: real, cutoff: int)
    requires NonNegative(losses) && OldestFirst(losses) && gain >= 0.0
    ensures SumFrom(losses, cutoff) - SumFrom(Rest(losses, gain), cutoff)
         == Used(losses, gain) - Min(Sum(losses) - SumFrom(losses, cutoff), gain)
  {
    if losses == [] {
      hide OldestFirst, NonNegative;
    } else {
      var applied := Min(losses[0].amount, gain);
      var tail := losses[1..];
      assert losses[0].amount >= 0.0 && gain - applied >= 0.0;
      TailFromCutoff(losses, cutoff);
      RestSplits(losses, gain, cutoff);
      hide *;
      RestFromCutoff(tail, gain - applied, cutoff);
      CutoffArithmetic(losses[0].amount, gain, losses[0].origin >= cutoff, SumFrom(tail, cutoff), Sum(tail),
        SumFrom(Rest(tail, gain - applied), cutoff), Used(tail, gain - applied));
    }
  }

  lemma RestSplits(losses: seq<Loss>, gain: real, cutoff: int)
    requires losses != [] && losses[0].amount >= 0.0
    ensures var applied, tail := Min(losses[0].amount, gain), losses[1..];
      && Used(losses, gain) == applied + Used(tail, gain - applied)
      && Sum(losses) == losses[0].amount + Sum(tail)
      && SumFrom(losses, cutoff)
         == (if losses[0].origin >= cutoff then losses[0].amount else 0.0) + SumFrom(tail, cutoff)
      && SumFrom(Rest(losses, gain), cutoff)
         == (if losses[0].origin >= cutoff then losses[0].amount - applied else 0.0)
            + SumFrom(Rest(tail, gain - applied), cutoff)
  {
    var applied := Min(losses[0].amount, gain);
    var left := losses[0].amount - applied;
    var head := if left > 0.0 then [Loss(losses[0].origin, left)] else [];
    SumFromConcat(head, Rest(losses[1..], gain - applied), cutoff);
    HeadSum(head, losses[0].origin, left, cutoff);
  }

  /** One loss before a list: how much is used of the list from the cutoff on. */
  lemma CutoffArithmetic(amount: real, gain: real, recent: bool, from: real, sum: real, restFrom: real, used: real)
    requires amount >= 0.0 && gain >= 0.0 && sum >= from && (recent ==> sum == from)
    requires from - restFrom == used - Min(sum - from, gain - Min(amount, gain))
    ensures var applied := Min(amount, gain);
      from - restFrom + (if recent then applied else 0.0)
      == applied + used - Min(sum - from + (if recent then 0.0 else amount), gain)
  {}

  lemma HeadSum(head: seq<Loss>, origin: int, left: real, cutoff: int)
    requires left >= 0.0 && head == if left > 0.0 then [Loss(origin, left)] else []
    ensures SumFrom(head, cutoff) == if origin >= cutoff then left else 0.0
  {}

  /** The amount the oldest-first rule offsets in a year. */
  function UsedInYear(losses: seq<Loss>, year: int, gain: real): real {
    if gain > 0.0 then Used(Live(losses, year), gain) else 0.0
  }

  /** One year accounts for every loss: what arose is used, expired or carried on. */
  lemma YearConservesLosses(losses: seq<Loss>, year: int, gain: real)
    requires Positive(losses)
    ensures 0.0 <= UsedInYear(losses, year, gain)
    ensures gain > 0.0 ==> UsedInYear(losses, year, gain) <= gain
    ensures Sum(losses) + (if gain < 0.0 then -gain else 0.0)
         == UsedInYear(losses, year, gain) + (Sum(losses) - SumFrom(losses, year - LOSS_CARRYFORWARD_YEARS))
            + Sum(OldestFirstYear(losses, year, gain))
  {
    var live := Live(losses, year);
    LiveKeepsRecent(losses, year, 0);
    LiveShape(losses, year);
    SumFromBounds(live, 0);
    if gain > 0.0 {
      UsedIsMin(live, gain);
    } else if gain < 0.0 {
      SumConcat(live, [Loss(year, -gain)]);
      assert Sum([Loss(year, -gain)]) == -gain;
    }
  }

  // ---------- every rule that respects the limits ----------

  /** `after` is `live` with some entries drawn down, and possibly dropped once exhausted. */
  ghost predicate Draw(live: seq<Loss>, after: seq<Loss>) {
    if live == [] then after == []
    else
      || Draw(live[1..], after)
      || (after != [] && after[0].origin == live[0].origin
          && 0.0 <= after[0].amount <= live[0].amount && Draw(live[1..], after[1..]))
  }

  /** A year under any rule: drop expired losses, then record the loss or draw at most the gain. */
  ghost predicate FeasibleYear(before: seq<Loss>, year: int, gain: real, after: seq<Loss>) {
    var live := Live(before, year);
    if gain < 0.0 then after == live + [Loss(year, -gain)]
    else Draw(live, after) && Sum(live) - Sum(after) <= gain
  }

  /** The amount a year offsets, whatever rule produced `after`. */
  ghost function Offset(before: seq<Loss>, year: int, gain: real, after: seq<Loss>): real {
    if gain < 0.0 then 0.0 else Sum(Live(before, year)) - Sum(after)
  }

  datatype YearGain = YearGain(year: int, gain: real)

  ghost predicate YearsIncrease(gains: seq<YearGain>) {
    forall i, j :: 0 <= i < j < |gains| ==> gains[i].year < gains[j].year
  }

  /** The list with which year `i` starts. */
  ghost function Before(lists: seq<seq<Loss>>, i: nat): seq<Loss>
    requires i <= |lists|
  {
    if i == 0 then [] else lists[i - 1]
  }

  ghost predicate FeasibleAt(gains: seq<YearGain>, lists: seq<seq<Loss>>, i: nat)
    requires i < |gains| == |lists|
  {
    FeasibleYear(Before(lists, i), gains[i].year, gains[i].gain, lists[i])
  }

  /** `lists[i]` is the carry-forward list after the i-th year under some permitted rule. */
  ghost predicate FeasibleRun(gains: seq<YearGain>, lists: seq<seq<Loss>>) {
    |lists| == |gains| && forall i :: 0 <= i < |gains| ==> FeasibleAt(gains, lists, i)
  }

  ghost function TotalOffset(gains: seq<YearGain>, lists: seq<seq<Loss>>, n: nat): real
    requires n <= |gains| == |lists|
  {
    if n == 0 then 0.0
    else
      TotalOffset(gains, lists, n - 1)
      + Offset(Before(lists, n - 1), gains[n - 1].year, gains[n - 1].gain, lists[n - 1])
  }

  /** Taxable income of the first `n` years. */
  ghost function TotalTaxable(gains: seq<YearGain>, lists: seq<seq<Loss>>, n: nat): real
    requires n <= |gains| == |lists|
  {
    if n == 0 then 0.0
    else
      var g := gains[n - 1].gain;
      var net := g - Offset(Before(lists, n - 1), gains[n - 1].year, g, lists[n - 1]);
      TotalTaxable(gains, lists, n - 1) + (if net > 0.0 then net else 0.0)
  }

  /** The oldest-first lists for a sequence of yearly gains. */
  ghost function OldestFirstRun(gains: seq<YearGain>): (lists: seq<seq<Loss>>)
    ensures |lists| == |gains|
  {
    if gains == [] then []
    else
      var init := gains[..|gains| - 1];
      var lists := OldestFirstRun(init);
      var last := gains[|gains| - 1];
      lists + [OldestFirstYear(Before(lists, |lists|), last.year, last.gain)]
  }

  lemma {:induction false} DrawNonNegative(live: seq<Loss>, after: seq<Loss>, cutoff: int)
    requires NonNegative(live) && Draw(live, after)
    ensures NonNegative(after)
    ensures SumFrom(after, cutoff) <= SumFrom(live, cutoff) && Sum(after) <= Sum(live)
    ensures SumFrom(live, cutoff) - SumFrom(after, cutoff) <= Sum(live) - Sum(after)
  {
    if live != [] {
      assert NonNegative(live[1..]);
      if Draw(live[1..], after) {
        DrawNonNegative(live[1..], after, cutoff);
      } else {
        DrawNonNegative(live[1..], after[1..], cutoff);
        assert forall i :: 1 <= i < |after| ==> after[i] == after[1..][i - 1];
      }
    }
  }

  lemma {:induction false} RestIsDraw(live: seq<Loss>, gain: real)
    requires NonNegative(live) && gain >= 0.0
    ensures Draw(live, Rest(live, gain))
  {
    if live != [] {
      var applied := Min(live[0].amount, gain);
      assert NonNegative(live[1..]);
      RestIsDraw(live[1..], gain - applied);
      var rest := Rest(live, gain);
      if live[0].amount - applied > 0.0 {
        assert rest[1..] == Rest(live[1..], gain - applied);
      } else {
        assert rest == Rest(live[1..], gain - applied);
      }
    }
  }

  lemma DrawNothing(live: seq<Loss>)
    requires NonNegative(live)
    ensures Draw(live, live)
  {
    if live != [] {
      assert NonNegative(live[1..]);
      DrawNothing(live[1..]);
    }
  }

  /** Oldest-first is itself a permitted rule. */
  lemma OldestFirstYearIsFeasible(losses: seq<Loss>, year: int, gain: real)
    requires Positive(losses)
    ensures FeasibleYear(losses, year, gain, OldestFirstYear(losses, year, gain))
  {
    var live := Live(losses, year);
    LiveShape(losses, year);
    if gain > 0.0 {
      RestIsDraw(live, gain);
      UsedIsMin(live, gain);
    } else if gain == 0.0 {
      DrawNothing(live);
    }
  }

  /** Oldest-first keeps its list positive, in order, and at most three years old. */
  lemma OldestFirstYearShape(losses: seq<Loss>, year: int, gain: real)
    requires Positive(losses) && OldestFirst(losses)
    requires forall i :: 0 <= i < |losses| ==> losses[i].origin < year
    ensures var after := OldestFirstYear(losses, year, gain);
      Positive(after) && OldestFirst(after) && OriginsWithin(after, year - LOSS_CARRYFORWARD_YEARS, year)
  {
    var live := Live(losses, year);
    LiveShape(losses, year);
    LiveIsRecent(losses, year);
    hide Live, Rest, Sum, OldestFirst, Positive, OriginsWithin;
    PositiveIsNonNegative(live);
    if gain > 0.0 {
      UsedIsMin(live, gain);
      RestShape(live, gain, year - LOSS_CARRYFORWARD_YEARS, year - 1);
      OriginsWiden(Rest(live, gain), year - LOSS_CARRYFORWARD_YEARS, year - 1);
    } else {
      OriginsWiden(live, year - LOSS_CARRYFORWARD_YEARS, year - 1);
      if gain < 0.0 {
        AddLoss(live, Loss(year, -gain), year - LOSS_CARRYFORWARD_YEARS);
      }
    }
  }

  lemma PositiveIsNonNegative(losses: seq<Loss>)
    requires Positive(losses)
    ensures NonNegative(losses)
  {}

  lemma OriginsWiden(losses: seq<Loss>, lo: int, hi: int)
    requires OriginsWithin(losses, lo, hi)
    ensures OriginsWithin(losses, lo, hi + 1)
  {}

  lemma AddLoss(losses: seq<Loss>, loss: Loss, lo: int)
    requires Positive(losses) && OldestFirst(losses) && OriginsWithin(losses, lo, loss.origin - 1)
    requires loss.amount > 0.0 && lo <= loss.origin
    ensures Positive(losses + [loss]) && OldestFirst(losses + [loss]) && OriginsWithin(losses + [loss], lo, loss.origin)
  {}

  lemma LiveIsRecent(losses: seq<Loss>, year: int)
    requires forall i :: 0 <= i < |losses| ==> losses[i].origin < year
    ensures OriginsWithin(Live(losses, year), year - LOSS_CARRYFORWARD_YEARS, year - 1)
  {
    LiveMembers(losses, year);
    hide Live;
    var live := Live(losses, year);
    forall i | 0 <= i < |live|
      ensures year - LOSS_CARRYFORWARD_YEARS <= live[i].origin <= year - 1
    {
      assert live[i] in live && live[i] in losses;
    }
  }

  lemma {:induction false} OldestFirstRunIsFeasible(gains: seq<YearGain>)
    requires YearsIncrease(gains)
    ensures FeasibleRun(gains, OldestFirstRun(gains))
    ensures gains != [] ==>
      var last := OldestFirstRun(gains)[|gains| - 1];
      && Positive(last) && OldestFirst(last)
      && OriginsWithin(last, gains[|gains| - 1].year - LOSS_CARRYFORWARD_YEARS, gains[|gains| - 1].year)
  {
    if gains != [] {
      var init := gains[..|gains| - 1];
      assert YearsIncrease(init);
      OldestFirstRunIsFeasible(init);
      var lists := OldestFirstRun(init);
      var before := Before(lists, |lists|);
      var last := gains[|gains| - 1];
      OldestFirstYearIsFeasible(before, last.year, last.gain);
      OldestFirstYearShape(before, last.year, last.gain);
      var all := OldestFirstRun(gains);
      assert all == lists + [OldestFirstYear(before, last.year, last.gain)];
      forall i | 0 <= i < |gains|
        ensures FeasibleAt(gains, all, i)
      {
        if i < |init| {
          assert FeasibleAt(init, lists, i);
          assert gains[i] == init[i] && all[i] == lists[i] && Before(all, i) == Before(lists, i);
        }
      }
    }
  }

  /** Dominance at one cutoff: offset so far plus what is left from `cutoff` on. */
  ghost predicate Ahead(a: real, as_: seq<Loss>, b: real, bs: seq<Loss>, cutoff: int) {
    a + SumFrom(as_, cutoff) >= b + SumFrom(bs, cutoff)
  }

  ghost predicate AheadEverywhere(a: real, as_: seq<Loss>, b: real, bs: seq<Loss>) {
    forall cutoff: int :: Ahead(a, as_, b, bs, cutoff)
  }

  /**
   One year keeps oldest-first (`f`, offset so far `uf`) ahead of any rule (`g`, offset `ug`)
   at every origin cutoff.
   */
  lemma YearKeepsAhead(uf: real, f: seq<Loss>, ug: real, g: seq<Loss>, g': seq<Loss>, year: int, gain: real,
          cutoff: int)
    requires Positive(f) && OldestFirst(f) && NonNegative(g)
    requires FeasibleYear(g, year, gain, g')
    requires AheadEverywhere(uf, f, ug, g)
    ensures var f' := OldestFirstYear(f, year, gain);
      Ahead(uf + Offset(f, year, gain, f'), f', ug + Offset(g, year, gain, g'), g', cutoff)
  {
    var f' := OldestFirstYear(f, year, gain);
    var lf, lg := Live(f, year), Live(g, year);
    var oldest := year - LOSS_CARRYFORWARD_YEARS;
    LiveKeepsRecent(f, year, cutoff);
    LiveKeepsRecent(g, year, cutoff);
    LiveShape(f, year);
    LiveShape(g, year);
    hide Live, Used, Rest, SumFrom, Sum, Draw, OldestFirst;
    assert Ahead(uf, f, ug, g, if cutoff >= oldest then cutoff else oldest);
    assert Ahead(uf, f, ug, g, oldest);
    if gain < 0.0 {
      SumFromConcat(lf, [Loss(year, -gain)], cutoff);
      SumFromConcat(lg, [Loss(year, -gain)], cutoff);
    } else {
      DrawNonNegative(lg, g', cutoff);
      SumFromBounds(lf, cutoff);
      SumFromBounds(g', cutoff);
      if gain > 0.0 {
        UsedIsMin(lf, gain);
        RestFromCutoff(lf, gain, cutoff);
      }
    }
  }

  lemma FeasibleYearSigns(g: seq<Loss>, year: int, gain: real, g': seq<Loss>)
    requires NonNegative(g) && FeasibleYear(g, year, gain, g')
    ensures NonNegative(g')
  {
    LiveShape(g, year);
    if gain >= 0.0 {
      DrawNonNegative(Live(g, year), g', 0);
    }
    hide Live, Draw, Sum;
  }

  /** The last year of a prefix of the oldest-first run. */
  lemma RunSnoc(gains: seq<YearGain>, n: nat)
    requires 0 < n <= |gains|
    ensures var fifo, before := OldestFirstRun(gains[..n]), OldestFirstRun(gains[..n - 1]);
      && fifo == before + [OldestFirstYear(Before(before, n - 1), gains[n - 1].year, gains[n - 1].gain)]
      && TotalOffset(gains[..n], fifo, n - 1) == TotalOffset(gains[..n - 1], before, n - 1)
  {
    var prefix, init := gains[..n], gains[..n - 1];
    assert prefix[..n - 1] == init;
    TotalOffsetPrefix(prefix, OldestFirstRun(prefix), init, OldestFirstRun(init), n - 1);
    hide TotalOffset, OldestFirstYear;
  }

  lemma {:induction false} RunKeepsAhead(gains: seq<YearGain>, lists: seq<seq<Loss>>, n: nat)
    requires YearsIncrease(gains) && FeasibleRun(gains, lists)
    requires 0 < n <= |gains|
    ensures NonNegative(lists[n - 1])
    ensures var fifo := OldestFirstRun(gains[..n]);
      && Positive(fifo[n - 1]) && OldestFirst(fifo[n - 1])
      && AheadEverywhere(TotalOffset(gains[..n], fifo, n), fifo[n - 1], TotalOffset(gains, lists, n), lists[n - 1])
  {
    var prefix, last := gains[..n], gains[n - 1];
    var fifo, before := OldestFirstRun(prefix), OldestFirstRun(gains[..n - 1]);
    assert YearsIncrease(prefix);
    OldestFirstRunIsFeasible(prefix);
    RunSnoc(gains, n);
    var f, g := Before(before, n - 1), Before(lists, n - 1);
    assert FeasibleAt(gains, lists, n - 1);
    hide OldestFirstRun, OldestFirstYear, FeasibleYear, Offset, Ahead, YearsIncrease, FeasibleRun;
    if n > 1 {
      RunKeepsAhead(gains, lists, n - 1);
    } else {
      NothingAhead();
    }
    var uf, ug := TotalOffset(prefix, fifo, n - 1), TotalOffset(gains, lists, n - 1);
    assert AheadEverywhere(uf, f, ug, g);
    FeasibleYearSigns(g, last.year, last.gain, lists[n - 1]);
    var f', uf', g', ug' := fifo[n - 1], TotalOffset(prefix, fifo, n), lists[n - 1], TotalOffset(gains, lists, n);
    forall c: int
      ensures Ahead(uf', f', ug', g', c)
    {
      YearKeepsAhead(uf, f, ug, g, lists[n - 1], last.year, last.gain, c);
    }
  }

  lemma NothingAhead()
    ensures Positive([]) && OldestFirst([]) && NonNegative([]) && AheadEverywhere(0.0, [], 0.0, [])
  {}

  lemma {:induction false} TotalOffsetPrefix(gains: seq<YearGain>, lists: seq<seq<Loss>>, gains': seq<YearGain>,
          lists': seq<seq<Loss>>, n: nat)
    requires n <= |gains'| == |lists'| <= |gains| == |lists|
    requires forall i :: 0 <= i < n ==> gains[i] == gains'[i] && lists[i] == lists'[i]
    ensures TotalOffset(gains, lists, n) == TotalOffset(gains', lists', n)
  {
    if n > 0 {
      TotalOffsetPrefix(gains, lists, gains', lists', n - 1);
    }
  }

  lemma {:induction false} OldestFirstRunPrefix(gains: seq<YearGain>, n: nat)
    requires n <= |gains|
    ensures OldestFirstRun(gains)[..n] == OldestFirstRun(gains[..n])
  {
    if n == |gains| {
      assert gains[..n] == gains;
    } else {
      var init := gains[..|gains| - 1];
      OldestFirstRunPrefix(init, n);
      assert init[..n] == gains[..n];
    }
  }

  /** The positive gains of the first `n` years. */
  ghost function TotalGain(gains: seq<YearGain>, n: nat): real
    requires n <= |gains|
  {
    if n == 0 then 0.0
    else TotalGain(gains, n - 1) + (if gains[n - 1].gain > 0.0 then gains[n - 1].gain else 0.0)
  }

  /** Every gain is either offset by a loss or taxed. */
  lemma {:induction false} TaxableAndOffset(gains: seq<YearGain>, lists: seq<seq<Loss>>, n: nat)
    requires n <= |gains| && FeasibleRun(gains, lists)
    ensures TotalTaxable(gains, lists, n) + TotalOffset(gains, lists, n) == TotalGain(gains, n)
  {
    if n > 0 {
      TaxableAndOffset(gains, lists, n - 1);
      assert FeasibleAt(gains, lists, n - 1);
    }
  }

  /**
   Oldest-first is optimal: after every year it has offset at least as much as any rule that
   only uses losses at most three years old, and its cumulative taxable income is the least.
   It is itself such a rule, so the bound is attained.
   */
  lemma OldestFirstIsOptimal(gains: seq<YearGain>, lists: seq<seq<Loss>>, n: nat)
    requires YearsIncrease(gains) && FeasibleRun(gains, lists) && n <= |gains|
    ensures FeasibleRun(gains, OldestFirstRun(gains))
    ensures TotalOffset(gains, OldestFirstRun(gains), n) >= TotalOffset(gains, lists, n)
    ensures TotalTaxable(gains, OldestFirstRun(gains), n) <= TotalTaxable(gains, lists, n)
  {
    var fifo := OldestFirstRun(gains);
    OldestFirstRunIsFeasible(gains);
    if n > 0 {
      RunKeepsAhead(gains, lists, n);
      var prefix := OldestFirstRun(gains[..n]);
      OldestFirstRunPrefix(gains, n);
      assert forall i :: 0 <= i < n ==> fifo[i] == fifo[..n][i];
      TotalOffsetPrefix(gains, fifo, gains[..n], prefix, n);
      // No loss arises after the last year, so beyond that cutoff only the offsets are left.
      var b0, b1 := CutoffBeyond(prefix[n - 1]), CutoffBeyond(lists[n - 1]);
      var beyond := if b0 < b1 then b1 else b0;
      assert Ahead(TotalOffset(gains[..n], prefix, n), prefix[n - 1], TotalOffset(gains, lists, n), lists[n - 1],
        beyond);
      SumFromBounds(prefix[n - 1], beyond);
      SumFromBounds(lists[n - 1], beyond);
    }
    TaxableAndOffset(gains, fifo, n);
    TaxableAndOffset(gains, lists, n);
  }

  ghost function CutoffBeyond(losses: seq<Loss>): (c: int)
    ensures forall i :: 0 <= i < |losses| ==> losses[i].origin < c
  {
    if losses == [] then 0
    else
      var c := CutoffBeyond(losses[1..]);
      assert forall i :: 1 <= i < |losses| ==> losses[i] == losses[1..][i - 1];
      if losses[0].origin < c then c else losses[0].origin + 1
  }
}
