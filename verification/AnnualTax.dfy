/** The two tax treatments that the benchmark comparison sets side by side. */
module AnnualTax {
  import opened LossCarryforward
  import opened P = Products

  // The EA is taxed every calendar year on its net gain, with losses carried forward for three
  // years. The benchmark is taxed once, on the whole gain, when it is sold at the end. Wealth
  // starts at 1.0 and floats are modelled as reals.

  const TAX_RATE: real := 0.20315

  datatype MonthlyReturn = MonthlyReturn(year: int, month: int, rate: real)

  datatype TaxYear = TaxYear(
    year: int,
    preTaxReturn: real,
    wealthStart: real,
    gain: real,
    carryforwardUsed: real,
    taxableIncome: real,
    tax: real,
    wealthEnd: real,
    carryforwardRemaining: seq<Loss>
  )

  function Max(a: real, b: real): real {
    if a >= b then a else b
  }

  // ---------- grouping months into calendar years ----------

  /** One entry of the dictionary of yearly multiples, which keeps insertion order. */
  datatype YearMultiple = YearMultiple(year: int, multiple: real)

  function YearlyMultiples(monthly: seq<MonthlyReturn>): seq<YearMultiple> {
    if monthly == [] then []
    else Compounded(YearlyMultiples(monthly[..|monthly| - 1]), monthly[|monthly| - 1])
  }

  /** Compounds one month into its year's entry, which starts at 1.0 when the year is new. */
  function Compounded(yearly: seq<YearMultiple>, item: MonthlyReturn): seq<YearMultiple> {
    if yearly == [] then [YearMultiple(item.year, Times(1.0, 1.0 + item.rate))]
    else if yearly[0].year == item.year then
      [YearMultiple(item.year, Times(yearly[0].multiple, 1.0 + item.rate))] + yearly[1..]
    else [yearly[0]] + Compounded(yearly[1..], item)
  }

  function InsertYear(items: seq<YearMultiple>, item: YearMultiple): seq<YearMultiple> {
    if items == [] || item.year < items[0].year then [item] + items
    else [items[0]] + InsertYear(items[1..], item)
  }

  /** The dictionary's entries in ascending year order. */
  function SortedYears(yearly: seq<YearMultiple>): seq<YearMultiple> {
    if yearly == [] then [] else InsertYear(SortedYears(yearly[1..]), yearly[0])
  }

  ghost predicate HasYear(items: seq<YearMultiple>, year: int) {
    exists i :: 0 <= i < |items| && items[i].year == year
  }

  ghost predicate DistinctYears(items: seq<YearMultiple>) {
    forall i, j :: 0 <= i < j < |items| ==> items[i].year != items[j].year
  }

  ghost predicate Ascending(items: seq<YearMultiple>) {
    forall i, j :: 0 <= i < j < |items| ==> items[i].year < items[j].year
  }

  ghost predicate AllPositive(items: seq<YearMultiple>) {
    forall i :: 0 <= i < |items| ==> items[i].multiple > 0.0
  }

  function Product(items: seq<YearMultiple>): real {
    if items == [] then 1.0 else Times(items[0].multiple, Product(items[1..]))
  }

  lemma {:induction false} CompoundedKeeps(yearly: seq<YearMultiple>, item: MonthlyReturn)
    requires DistinctYears(yearly)
    ensures DistinctYears(Compounded(yearly, item))
    ensures forall y :: HasYear(Compounded(yearly, item), y) <==> HasYear(yearly, y) || y == item.year
    ensures AllPositive(yearly) && item.rate > -1.0 ==> AllPositive(Compounded(yearly, item))
    ensures Product(Compounded(yearly, item)) == Times(Product(yearly), 1.0 + item.rate)
  {
    hide Times;
    var f := 1.0 + item.rate;
    var after := Compounded(yearly, item);
    if yearly == [] {
      P.Commute(Times(1.0, f), 1.0);
      P.One(Times(1.0, f));
      if f > 0.0 { P.Positive(1.0, f); }
      assert after[1..] == [];
      assert HasYear(after, item.year) by { assert after[0].year == item.year; }
    } else {
      var tail := yearly[1..];
      assert forall i :: 0 <= i < |tail| ==> tail[i] == yearly[i + 1];
      if yearly[0].year == item.year {
        P.Swap(yearly[0].multiple, f, Product(tail));
        if f > 0.0 && yearly[0].multiple > 0.0 { P.Positive(yearly[0].multiple, f); }
        assert after[1..] == tail;
        assert forall i :: 0 <= i < |yearly| ==> after[i].year == yearly[i].year;
      } else {
        CompoundedKeeps(tail, item);
        var rest := Compounded(tail, item);
        assert after[1..] == rest;
        P.Assoc(yearly[0].multiple, Product(tail), f);
        YearsAfterHead(after);
        YearsAfterHead(yearly);
        assert !HasYear(rest, yearly[0].year);
      }
    }
  }

  lemma YearsAfterHead(items: seq<YearMultiple>)
    requires items != []
    ensures forall y :: HasYear(items, y) <==> items[0].year == y || HasYear(items[1..], y)
    ensures DistinctYears(items) <==> DistinctYears(items[1..]) && !HasYear(items[1..], items[0].year)
  {
    var tail := items[1..];
    assert forall i :: 0 <= i < |tail| ==> tail[i] == items[i + 1];
    assert forall i :: 0 < i < |items| ==> items[i] == tail[i - 1];
  }

  lemma {:induction false} InsertProduct(items: seq<YearMultiple>, item: YearMultiple)
    ensures Product(InsertYear(items, item)) == Times(item.multiple, Product(items))
    ensures AllPositive(items) && item.multiple > 0.0 ==> AllPositive(InsertYear(items, item))
  {
    hide Times;
    var after := InsertYear(items, item);
    if items == [] || item.year < items[0].year {
      assert after[1..] == items;
    } else {
      var tail := items[1..];
      InsertProduct(tail, item);
      assert after[1..] == InsertYear(tail, item);
      P.Assoc(items[0].multiple, item.multiple, Product(tail));
      P.Commute(items[0].multiple, item.multiple);
      P.Assoc(item.multiple, items[0].multiple, Product(tail));
      assert AllPositive(items) ==> AllPositive(tail);
    }
  }

  ghost predicate AllAfter(items: seq<YearMultiple>, year: int) {
    forall i :: 0 <= i < |items| ==> items[i].year > year
  }

  lemma AscendingCons(item: YearMultiple, rest: seq<YearMultiple>)
    requires Ascending(rest) && AllAfter(rest, item.year)
    ensures Ascending([item] + rest)
  {}

  lemma AscendingTail(items: seq<YearMultiple>)
    requires Ascending(items) && items != []
    ensures Ascending(items[1..]) && AllAfter(items[1..], items[0].year)
  {}

  lemma {:induction false} InsertStaysAfter(items: seq<YearMultiple>, item: YearMultiple, year: int)
    requires AllAfter(items, year) && item.year > year
    ensures AllAfter(InsertYear(items, item), year)
  {
    if !(items == [] || item.year < items[0].year) {
      InsertStaysAfter(items[1..], item, year);
    }
  }

  lemma {:induction false} InsertSorts(items: seq<YearMultiple>, item: YearMultiple)
    requires Ascending(items) && !HasYear(items, item.year)
    ensures Ascending(InsertYear(items, item))
    ensures forall y :: HasYear(InsertYear(items, item), y) <==> HasYear(items, y) || y == item.year
  {
    var after := InsertYear(items, item);
    if items == [] || item.year < items[0].year {
      assert after[1..] == items;
      YearsAfterHead(after);
      if items != [] {
        AscendingTail(items);
      }
      AscendingCons(item, items);
    } else {
      var tail := items[1..];
      AscendingTail(items);
      YearsAfterHead(items);
      assert HasYear(items, items[0].year);
      InsertSorts(tail, item);
      InsertStaysAfter(tail, item, items[0].year);
      AscendingCons(items[0], InsertYear(tail, item));
      assert after[1..] == InsertYear(tail, item);
      YearsAfterHead(after);
    }
  }

  lemma InsertKeeps(items: seq<YearMultiple>, item: YearMultiple)
    requires Ascending(items) && !HasYear(items, item.year)
    ensures var after := InsertYear(items, item);
      && Ascending(after)
      && (forall y :: HasYear(after, y) <==> HasYear(items, y) || y == item.year)
      && (AllPositive(items) && item.multiple > 0.0 ==> AllPositive(after))
      && Product(after) == Times(item.multiple, Product(items))
  {
    InsertProduct(items, item);
    InsertSorts(items, item);
    hide *;
  }

  /** Sorting keeps each year once, in ascending order, and the product over all years. */
  lemma {:induction false} SortedYearsKeeps(yearly: seq<YearMultiple>)
    requires DistinctYears(yearly)
    ensures var items := SortedYears(yearly);
      && Ascending(items)
      && (forall y :: HasYear(items, y) <==> HasYear(yearly, y))
      && (AllPositive(yearly) ==> AllPositive(items))
      && Product(items) == Product(yearly)
  {
    hide Times;
    if yearly != [] {
      var tail := yearly[1..];
      assert forall i :: 0 <= i < |tail| ==> tail[i] == yearly[i + 1];
      YearsAfterHead(yearly);
      SortedYearsKeeps(tail);
      InsertKeeps(SortedYears(tail), yearly[0]);
    }
  }

  /** Compounding all the months, which is the benchmark's pre-tax multiple. */
  function Compound(monthly: seq<MonthlyReturn>): real {
    if monthly == [] then 1.0
    else Times(Compound(monthly[..|monthly| - 1]), 1.0 + monthly[|monthly| - 1].rate)
  }

  ghost predicate AboveTotalLoss(monthly: seq<MonthlyReturn>) {
    forall i :: 0 <= i < |monthly| ==> monthly[i].rate > -1.0
  }

  /** Splitting months into years loses nothing: the yearly multiples compound to the same total. */
  lemma {:induction false} YearsCompoundToTotal(monthly: seq<MonthlyReturn>)
    ensures var yearly := YearlyMultiples(monthly);
      && DistinctYears(yearly)
      && Product(yearly) == Compound(monthly)
      && (AboveTotalLoss(monthly) ==> AllPositive(yearly))
      && (yearly == [] <==> monthly == [])
  {
    hide Times;
    if monthly != [] {
      var init := monthly[..|monthly| - 1];
      YearsCompoundToTotal(init);
      CompoundedKeeps(YearlyMultiples(init), monthly[|monthly| - 1]);
      assert AboveTotalLoss(monthly) ==> AboveTotalLoss(init);
    }
  }

  lemma YearsOfRun(monthly: seq<MonthlyReturn>)
    ensures var items := SortedYears(YearlyMultiples(monthly));
      && Ascending(items)
      && Product(items) == Compound(monthly)
      && (AboveTotalLoss(monthly) ==> AllPositive(items))
      && (monthly != [] ==> items != [])
  {
    hide Times;
    YearsCompoundToTotal(monthly);
    SortedYearsKeeps(YearlyMultiples(monthly));
    if monthly != [] {
      var yearly := YearlyMultiples(monthly);
      assert HasYear(yearly, yearly[0].year);
      assert HasYear(SortedYears(yearly), yearly[0].year);
    }
  }

  // ---------- whose months a year compounds ----------

  ghost predicate Occurs(monthly: seq<MonthlyReturn>, year: int) {
    exists i :: 0 <= i < |monthly| && monthly[i].year == year
  }

  /** The product over the months of one year alone. */
  ghost function YearProduct(monthly: seq<MonthlyReturn>, year: int): real {
    if monthly == [] then 1.0
    else
      var before, last := YearProduct(monthly[..|monthly| - 1], year), monthly[|monthly| - 1];
      if last.year == year then Times(before, 1.0 + last.rate) else before
  }

  /** A year's entry in the dictionary, or 1.0 without one. */
  ghost function MultipleOf(items: seq<YearMultiple>, year: int): real {
    if items == [] then 1.0
    else if items[0].year == year then items[0].multiple
    else MultipleOf(items[1..], year)
  }

  lemma {:induction false} CompoundedMultiple(yearly: seq<YearMultiple>, item: MonthlyReturn, year: int)
    ensures MultipleOf(Compounded(yearly, item), year)
      == if year == item.year then Times(MultipleOf(yearly, year), 1.0 + item.rate) else MultipleOf(yearly, year)
  {
    hide Times;
    if yearly != [] {
      assert Compounded(yearly, item)[1..]
        == if yearly[0].year == item.year then yearly[1..] else Compounded(yearly[1..], item);
      CompoundedMultiple(yearly[1..], item, year);
    }
  }

  lemma {:induction false} InsertMultiple(items: seq<YearMultiple>, item: YearMultiple, year: int)
    requires !HasYear(items, item.year)
    ensures MultipleOf(InsertYear(items, item), year)
      == if year == item.year then item.multiple else MultipleOf(items, year)
  {
    var after := InsertYear(items, item);
    if items == [] || item.year < items[0].year {
      assert after[1..] == items;
    } else {
      YearsAfterHead(items);
      assert after[1..] == InsertYear(items[1..], item);
      InsertMultiple(items[1..], item, year);
    }
  }

  lemma {:induction false} SortedMultiple(yearly: seq<YearMultiple>, year: int)
    requires DistinctYears(yearly)
    ensures MultipleOf(SortedYears(yearly), year) == MultipleOf(yearly, year)
  {
    if yearly != [] {
      YearsAfterHead(yearly);
      SortedYearsKeeps(yearly[1..]);
      InsertMultiple(SortedYears(yearly[1..]), yearly[0], year);
      SortedMultiple(yearly[1..], year);
    }
  }

  lemma {:induction false} MultipleAt(items: seq<YearMultiple>, i: nat)
    requires DistinctYears(items) && i < |items|
    ensures items[i].multiple == MultipleOf(items, items[i].year)
  {
    if i > 0 {
      YearsAfterHead(items);
      MultipleAt(items[1..], i - 1);
    }
  }

  /** The dictionary holds exactly the years that occur, and each year compounds its own months and no others. */
  lemma {:induction false} YearsCompoundTheirMonths(monthly: seq<MonthlyReturn>, year: int)
    ensures HasYear(YearlyMultiples(monthly), year) <==> Occurs(monthly, year)
    ensures MultipleOf(YearlyMultiples(monthly), year) == YearProduct(monthly, year)
  {
    hide Times;
    if monthly != [] {
      var init, last := monthly[..|monthly| - 1], monthly[|monthly| - 1];
      YearsCompoundTheirMonths(init, year);
      YearsCompoundToTotal(init);
      CompoundedKeeps(YearlyMultiples(init), last);
      CompoundedMultiple(YearlyMultiples(init), last, year);
      assert Occurs(monthly, year) <==> Occurs(init, year) || last.year == year by {
        assert forall i :: 0 <= i < |init| ==> init[i] == monthly[i];
      }
    }
  }

  lemma SortedYearsOf(monthly: seq<MonthlyReturn>, i: nat)
    requires i < |SortedYears(YearlyMultiples(monthly))|
    ensures var item := SortedYears(YearlyMultiples(monthly))[i];
      Occurs(monthly, item.year) && item.multiple == YearProduct(monthly, item.year)
  {
    hide Times;
    var yearly := YearlyMultiples(monthly);
    var items := SortedYears(yearly);
    YearsCompoundToTotal(monthly);
    SortedYearsKeeps(yearly);
    assert HasYear(items, items[i].year);
    MultipleAt(items, i);
    SortedMultiple(yearly, items[i].year);
    YearsCompoundTheirMonths(monthly, items[i].year);
  }

  // ---------- annual taxation ----------

  /** The tax record of one year, given the wealth and the losses it starts with. */
  function TaxYearOf(rate: real, item: YearMultiple, wealth: real, losses: seq<Loss>): TaxYear {
    TaxRecord(rate, item.year, item.multiple - 1.0, wealth, Times(wealth, item.multiple - 1.0), losses)
  }

  function TaxRecord(rate: real, year: int, preTax: real, wealth: real, gain: real, losses: seq<Loss>): TaxYear {
    var used := UsedInYear(losses, year, gain);
    var taxable := Max(0.0, gain - used);
    var tax := Times(taxable, rate);
    TaxYear(year, preTax, wealth, gain, used, taxable, tax, wealth + gain - tax, OldestFirstYear(losses, year, gain))
  }

  function TaxYears(rate: real, items: seq<YearMultiple>): (years: seq<TaxYear>)
    ensures |years| == |items|
  {
    if items == [] then []
    else
      var init := TaxYears(rate, items[..|items| - 1]);
      init + [TaxYearOf(rate, items[|items| - 1], WealthAfter(init), LossesAfter(init))]
  }

  function WealthAfter(years: seq<TaxYear>): real {
    if years == [] then 1.0 else years[|years| - 1].wealthEnd
  }

  function LossesAfter(years: seq<TaxYear>): seq<Loss> {
    if years == [] then [] else years[|years| - 1].carryforwardRemaining
  }

  function AnnualTaxYears(rate: real, monthly: seq<MonthlyReturn>): seq<TaxYear> {
    TaxYears(rate, SortedYears(YearlyMultiples(monthly)))
  }

  method DropExpired(losses: seq<Loss>, year: int) returns (live: seq<Loss>)
    ensures live == Live(losses, year)
  {
    live := [];
    var i := 0;
    while i < |losses|
      invariant 0 <= i <= |losses|
      invariant live + Live(losses[i..], year) == Live(losses, year)
    {
      if year - losses[i].origin <= LOSS_CARRYFORWARD_YEARS {
        live := live + [losses[i]];
      }
      i := i + 1;
    }
  }

  lemma FirstLossOffsets(losses: seq<Loss>, i: nat, gain: real)
    requires i < |losses|
    ensures var applied := Min(losses[i].amount, gain);
      var left := losses[i].amount - applied;
      && Used(losses[i..], gain) == applied + Used(losses[i + 1..], gain - applied)
      && Rest(losses[i..], gain)
        == (if left > 0.0 then [Loss(losses[i].origin, left)] else []) + Rest(losses[i + 1..], gain - applied)
  {
    assert losses[i..][1..] == losses[i + 1..];
  }

  method OffsetGain(losses: seq<Loss>, gain: real) returns (used: real, updated: seq<Loss>)
    ensures used == Used(losses, gain) && updated == Rest(losses, gain)
  {
    NothingOffset(gain);
    hide Used, Rest;
    used, updated := 0.0, [];
    var remainingGain := gain;
    var i := 0;
    assert losses[0..] == losses;
    while i < |losses|
      invariant 0 <= i <= |losses|
      invariant used + Used(losses[i..], remainingGain) == Used(losses, gain)
      invariant updated + Rest(losses[i..], remainingGain) == Rest(losses, gain)
    {
      FirstLossOffsets(losses, i, remainingGain);
      var applied := Min(losses[i].amount, remainingGain);
      remainingGain := remainingGain - applied;
      used := used + applied;
      if losses[i].amount - applied > 0.0 {
        updated := updated + [Loss(losses[i].origin, losses[i].amount - applied)];
      }
      i := i + 1;
    }
    NothingOffset(remainingGain);
    assert losses[i..] == [];
  }

  lemma NothingOffset(gain: real)
    ensures Used([], gain) == 0.0 && Rest([], gain) == []
  {}

  /** One year of the loop: drop expired losses, use or record losses, tax what is left. */
  method TaxOneYear(rate: real, item: YearMultiple, wealthStart: real, losses: seq<Loss>) returns (record: TaxYear)
    ensures record == TaxYearOf(rate, item, wealthStart, losses)
  {
    hide Times, Live, Used, Rest;
    var carryforward := DropExpired(losses, item.year);
    var gain := Times(wealthStart, item.multiple - 1.0);
    var used := 0.0;
    if gain > 0.0 {
      used, carryforward := OffsetGain(carryforward, gain);
    } else if gain < 0.0 {
      carryforward := carryforward + [Loss(item.year, -gain)];
    }
    var taxable := Max(0.0, gain - used);
    var tax := Times(taxable, rate);
    record := TaxYear(item.year, item.multiple - 1.0, wealthStart, gain, used, taxable, tax,
                      wealthStart + gain - tax, carryforward);
  }

  method ApplyAnnualTax(monthly: seq<MonthlyReturn>, rate: real) returns (result: seq<TaxYear>)
    ensures result == AnnualTaxYears(rate, monthly)
  {
    hide Times, TaxYearOf, Compounded, SortedYears;
    var yearly: seq<YearMultiple> := [];
    for k := 0 to |monthly|
      invariant yearly == YearlyMultiples(monthly[..k])
    {
      assert monthly[..k + 1][..k] == monthly[..k];
      yearly := Compounded(yearly, monthly[k]);
    }
    assert monthly[..|monthly|] == monthly;
    var items := SortedYears(yearly);
    var wealth := 1.0;
    var carryforward: seq<Loss> := [];
    result := [];
    for k := 0 to |items|
      invariant result == TaxYears(rate, items[..k])
      invariant wealth == WealthAfter(result) && carryforward == LossesAfter(result)
    {
      TaxYearsSnoc(rate, items, k);
      var record := TaxOneYear(rate, items[k], wealth, carryforward);
      wealth, carryforward := record.wealthEnd, record.carryforwardRemaining;
      result := result + [record];
    }
    assert items[..|items|] == items;
  }

  lemma TaxYearsSnoc(rate: real, items: seq<YearMultiple>, k: nat)
    requires k < |items|
    ensures var init := TaxYears(rate, items[..k]);
      TaxYears(rate, items[..k + 1]) == init + [TaxYearOf(rate, items[k], WealthAfter(init), LossesAfter(init))]
  {
    assert items[..k + 1][..k] == items[..k] && items[..k + 1][k] == items[k];
  }

  method CompoundReturns(monthly: seq<MonthlyReturn>) returns (multiple: real)
    ensures multiple == Compound(monthly)
  {
    multiple := 1.0;
    for k := 0 to |monthly|
      invariant multiple == Compound(monthly[..k])
    {
      assert monthly[..k + 1][..k] == monthly[..k];
      multiple := Times(multiple, 1.0 + monthly[k].rate);
    }
    assert monthly[..|monthly|] == monthly;
  }

  /** Each record is of its own item: the year, the return before tax and the gain it makes of the wealth at hand. */
  lemma {:induction false} RecordsOf(rate: real, items: seq<YearMultiple>, i: nat)
    requires i < |items|
    ensures var y := TaxYears(rate, items)[i];
      && y.year == items[i].year
      && y.preTaxReturn == items[i].multiple - 1.0
      && y.gain == Times(y.wealthStart, items[i].multiple - 1.0)
  {
    hide Times;
    if i < |items| - 1 {
      RecordsOf(rate, items[..|items| - 1], i);
    }
  }

  /**
   The records are of exactly the years that occur, in ascending order; each one's return is the
   product over the months of that year alone, less one, and its gain is that return on the
   wealth the year starts with.
   */
  lemma RecordsAreTheirMonths(rate: real, monthly: seq<MonthlyReturn>)
    ensures var years := AnnualTaxYears(rate, monthly);
      && (forall i, j :: 0 <= i < j < |years| ==> years[i].year < years[j].year)
      && (forall year :: Occurs(monthly, year) <==> exists i :: 0 <= i < |years| && years[i].year == year)
      && (forall i :: 0 <= i < |years| ==>
           var y := years[i];
           && y.preTaxReturn == YearProduct(monthly, y.year) - 1.0
           && y.gain == Times(y.wealthStart, YearProduct(monthly, y.year) - 1.0))
  {
    hide Times, TaxYears, SortedYears, YearlyMultiples, YearProduct;
    var items := SortedYears(YearlyMultiples(monthly));
    var years := TaxYears(rate, items);
    YearsOfRun(monthly);
    forall i | 0 <= i < |years|
      ensures years[i].year == items[i].year && years[i].preTaxReturn == YearProduct(monthly, years[i].year) - 1.0
      ensures years[i].gain == Times(years[i].wealthStart, YearProduct(monthly, years[i].year) - 1.0)
    {
      RecordsOf(rate, items, i);
      SortedYearsOf(monthly, i);
    }
    forall year
      ensures Occurs(monthly, year) <==> exists i :: 0 <= i < |years| && years[i].year == year
    {
      YearsCompoundTheirMonths(monthly, year);
      YearsCompoundToTotal(monthly);
      SortedYearsKeeps(YearlyMultiples(monthly));
      assert HasYear(items, year) <==> Occurs(monthly, year);
    }
  }

  // ---------- what every run keeps ----------

  /** The i-th record follows from the record before it and its own gain. */
  ghost predicate RecordFollows(rate: real, years: seq<TaxYear>, i: nat)
    requires i < |years|
  {
    var y, losses := years[i], LossesAfter(years[..i]);
    && y.wealthStart == WealthAfter(years[..i])
    && y.carryforwardUsed == UsedInYear(losses, y.year, y.gain)
    && y.carryforwardRemaining == OldestFirstYear(losses, y.year, y.gain)
    && y.taxableIncome == Max(0.0, y.gain - y.carryforwardUsed)
    && y.tax == Times(y.taxableIncome, rate)
    && y.wealthEnd == y.wealthStart + y.gain - y.tax
    && (i > 0 ==> years[i - 1].year < y.year)
  }

  ghost predicate Ledger(rate: real, years: seq<TaxYear>) {
    forall i :: 0 <= i < |years| ==> RecordFollows(rate, years, i)
  }

  lemma LedgerPrefix(rate: real, years: seq<TaxYear>, n: nat)
    requires Ledger(rate, years) && n <= |years|
    ensures Ledger(rate, years[..n])
  {
    hide Times;
    forall i | 0 <= i < n
      ensures RecordFollows(rate, years[..n], i)
    {
      assert RecordFollows(rate, years, i);
      assert years[..n][..i] == years[..i];
    }
  }

  lemma {:induction false} YearsOf(rate: real, items: seq<YearMultiple>)
    ensures forall i :: 0 <= i < |items| ==> TaxYears(rate, items)[i].year == items[i].year
  {
    hide Times;
    if items != [] {
      YearsOf(rate, items[..|items| - 1]);
    }
  }

  lemma LastRecord(rate: real, items: seq<YearMultiple>)
    requires items != [] && Ascending(items)
    ensures RecordFollows(rate, TaxYears(rate, items), |items| - 1)
    ensures var y := TaxYears(rate, items)[|items| - 1];
      y.gain == Times(y.wealthStart, items[|items| - 1].multiple - 1.0)
  {
    hide Times;
    var n := |items| - 1;
    var init, years := TaxYears(rate, items[..n]), TaxYears(rate, items);
    YearsOf(rate, items);
    assert years[..n] == init;
    RecordFacts(rate, items[n].year, items[n].multiple - 1.0, WealthAfter(init),
      Times(WealthAfter(init), items[n].multiple - 1.0), LossesAfter(init), years[n]);
  }

  lemma RecordFacts(rate: real, year: int, preTax: real, wealth: real, gain: real, losses: seq<Loss>, y: TaxYear)
    requires y == TaxRecord(rate, year, preTax, wealth, gain, losses)
    ensures y.year == year && y.wealthStart == wealth && y.gain == gain
    ensures y.carryforwardUsed == UsedInYear(losses, year, gain)
    ensures y.carryforwardRemaining == OldestFirstYear(losses, year, gain)
    ensures y.taxableIncome == Max(0.0, gain - y.carryforwardUsed)
    ensures y.tax == Times(y.taxableIncome, rate)
    ensures y.wealthEnd == wealth + gain - y.tax
  {}

  /** Every run of the annual tax is such a ledger. */
  lemma {:induction false} TaxYearsIsLedger(rate: real, items: seq<YearMultiple>)
    requires Ascending(items)
    ensures Ledger(rate, TaxYears(rate, items))
  {
    hide Times;
    if items != [] {
      var n := |items| - 1;
      var init, years := TaxYears(rate, items[..n]), TaxYears(rate, items);
      TaxYearsIsLedger(rate, items[..n]);
      YearsOf(rate, items);
      assert years[..n] == init;
      forall i | 0 <= i < |years|
        ensures RecordFollows(rate, years, i)
      {
        if i < n {
          assert RecordFollows(rate, init, i);
          assert years[..i] == init[..i];
        } else {
          LastRecord(rate, items);
        }
      }
    }
  }

  /** Over any run the carry-forward list stays positive, oldest first and at most three years old. */
  lemma {:induction false} LedgerShape(rate: real, years: seq<TaxYear>)
    requires Ledger(rate, years)
    ensures var losses := LossesAfter(years);
      && LossCarryforward.Positive(losses) && OldestFirst(losses)
      && (years != [] ==>
           OriginsWithin(losses, years[|years| - 1].year - LOSS_CARRYFORWARD_YEARS, years[|years| - 1].year))
  {
    hide Times;
    if years != [] {
      var n := |years| - 1;
      LedgerPrefix(rate, years, n);
      LedgerShape(rate, years[..n]);
      assert RecordFollows(rate, years, n);
      OldestFirstYearShape(LossesAfter(years[..n]), years[n].year, years[n].gain);
    }
  }

  ghost function GainSum(years: seq<TaxYear>): real {
    if years == [] then 0.0 else GainSum(years[..|years| - 1]) + years[|years| - 1].gain
  }

  ghost function TaxableSum(years: seq<TaxYear>): real {
    if years == [] then 0.0 else TaxableSum(years[..|years| - 1]) + years[|years| - 1].taxableIncome
  }

  ghost function UsedSum(years: seq<TaxYear>): real {
    if years == [] then 0.0 else UsedSum(years[..|years| - 1]) + years[|years| - 1].carryforwardUsed
  }

  /** The losses that arose in a run. */
  ghost function IncurredSum(years: seq<TaxYear>): real {
    if years == [] then 0.0 else IncurredSum(years[..|years| - 1]) + Max(0.0, -years[|years| - 1].gain)
  }

  /** The losses dropped because they arose more than three years before the year at hand. */
  ghost function ExpiredSum(years: seq<TaxYear>): real {
    if years == [] then 0.0
    else
      var init, last := years[..|years| - 1], years[|years| - 1];
      ExpiredSum(init) + (Sum(LossesAfter(init)) - SumFrom(LossesAfter(init), last.year - LOSS_CARRYFORWARD_YEARS))
  }

  /** Over any run, every loss that arose was used, expired or is still carried. */
  lemma {:induction false} LossesAreConserved(rate: real, years: seq<TaxYear>)
    requires Ledger(rate, years)
    ensures IncurredSum(years) == UsedSum(years) + ExpiredSum(years) + Sum(LossesAfter(years))
  {
    hide Times;
    if years != [] {
      var n := |years| - 1;
      LedgerPrefix(rate, years, n);
      LossesAreConserved(rate, years[..n]);
      LedgerShape(rate, years[..n]);
      assert RecordFollows(rate, years, n);
      YearConservesLosses(LossesAfter(years[..n]), years[n].year, years[n].gain);
    }
  }

  /** The ending wealth is the start plus the gains less the tax on the taxable income. */
  lemma {:induction false} WealthIsConserved(rate: real, years: seq<TaxYear>)
    requires Ledger(rate, years)
    ensures WealthAfter(years) == 1.0 + GainSum(years) - Times(TaxableSum(years), rate)
  {
    hide Times;
    P.One(rate);
    if years != [] {
      var n := |years| - 1;
      LedgerPrefix(rate, years, n);
      WealthIsConserved(rate, years[..n]);
      assert RecordFollows(rate, years, n);
      P.Distribute(TaxableSum(years[..n]), years[n].taxableIncome, rate);
    }
  }

  /** The yearly gains of a run, as the carry-forward rules see them. */
  ghost function Gains(years: seq<TaxYear>): (gains: seq<YearGain>)
    ensures |gains| == |years|
  {
    seq(|years|, i requires 0 <= i < |years| => YearGain(years[i].year, years[i].gain))
  }

  ghost function Lists(years: seq<TaxYear>): (lists: seq<seq<Loss>>)
    ensures |lists| == |years|
  {
    seq(|years|, i requires 0 <= i < |years| => years[i].carryforwardRemaining)
  }

  /** The carry-forward lists of a run are the oldest-first lists of its own gains. */
  lemma {:induction false} ListsAreOldestFirst(rate: real, years: seq<TaxYear>)
    requires Ledger(rate, years)
    ensures Lists(years) == OldestFirstRun(Gains(years)) && YearsIncrease(Gains(years))
  {
    hide Times, OldestFirstYear, UsedInYear, Max;
    if years != [] {
      var n := |years| - 1;
      var init := years[..n];
      LedgerPrefix(rate, years, n);
      ListsAreOldestFirst(rate, init);
      assert RecordFollows(rate, years, n);
      assert Gains(years)[..n] == Gains(init);
      assert LossesAfter(init) == Before(Lists(init), n);
      assert Lists(years) == Lists(init) + [years[n].carryforwardRemaining];
      forall i, j | 0 <= i < j < |years|
        ensures Gains(years)[i].year < Gains(years)[j].year
      {
        if j < n {
          assert Gains(init)[i].year < Gains(init)[j].year;
        } else if i < n - 1 {
          assert Gains(init)[i].year < Gains(init)[n - 1].year;
        }
      }
    }
  }

  /** The income a run reports is the income its lists account for. */
  lemma {:induction false} TaxableSumIsTotal(rate: real, years: seq<TaxYear>, n: nat)
    requires Ledger(rate, years) && n <= |years|
    ensures TaxableSum(years[..n]) == TotalTaxable(Gains(years), Lists(years), n)
  {
    hide Times;
    if n > 0 {
      TaxableSumIsTotal(rate, years, n - 1);
      assert years[..n][..n - 1] == years[..n - 1];
      assert RecordFollows(rate, years, n - 1);
      LedgerPrefix(rate, years, n - 1);
      LedgerShape(rate, years[..n - 1]);
      var losses, year, gain := LossesAfter(years[..n - 1]), years[n - 1].year, years[n - 1].gain;
      assert losses == Before(Lists(years), n - 1);
      OffsetIsUsed(losses, year, gain);
    }
  }

  lemma OffsetIsUsed(losses: seq<Loss>, year: int, gain: real)
    requires LossCarryforward.Positive(losses)
    ensures Offset(losses, year, gain, OldestFirstYear(losses, year, gain)) == UsedInYear(losses, year, gain)
  {
    LiveKeepsRecent(losses, year, 0);
    YearConservesLosses(losses, year, gain);
  }

  /**
   For the gains of a run, no rule limited to losses at most three years old would have paid
   tax on a smaller income, over the first `n` years for any `n`.
   */
  lemma RunTaxesLeastIncome(rate: real, monthly: seq<MonthlyReturn>, lists: seq<seq<Loss>>, n: nat)
    requires var years := AnnualTaxYears(rate, monthly);
      n <= |years| && FeasibleRun(Gains(years), lists)
    ensures var years := AnnualTaxYears(rate, monthly);
      TaxableSum(years[..n]) <= TotalTaxable(Gains(years), lists, n)
  {
    hide Times;
    YearsOfRun(monthly);
    var years := AnnualTaxYears(rate, monthly);
    TaxYearsIsLedger(rate, SortedYears(YearlyMultiples(monthly)));
    ListsAreOldestFirst(rate, years);
    OldestFirstIsOptimal(Gains(years), lists, n);
    TaxableSumIsTotal(rate, years, n);
  }

  // ---------- annual against deferred ----------

  /** What is left of a multiple when its whole gain is taxed once. */
  function AfterTax(rate: real, multiple: real): real {
    multiple - Times(Max(0.0, multiple - 1.0), rate)
  }

  /** The benchmark's after-tax ending multiple. */
  function DeferredEnding(rate: real, monthly: seq<MonthlyReturn>): real {
    AfterTax(rate, Compound(monthly))
  }

  /**
   The invariant behind the comparison. `w` is wealth after annual tax, `p` the untaxed
   multiple and `l` the live losses. Some level `q` bounds both: the losses could at best lift
   wealth to the share of `q` that it already holds, and that share is no better than what
   deferral would leave of `q`.
   */
  ghost predicate BoundedBy(rate: real, w: real, p: real, l: real, q: real) {
    && q >= 1.0
    && Times(w + l, p) <= Times(w, q) <= Times(p, AfterTax(rate, q))
  }

  lemma AfterTaxAbove(rate: real, q: real)
    requires q >= 1.0
    ensures AfterTax(rate, q) == Times(1.0 - rate, q) + rate
  {}

  /** Growing wealth and untaxed multiple by the same factor keeps both sides of the bound. */
  lemma Scale(w: real, p: real, s: real, q: real, a: real, m: real)
    requires Times(s, p) <= Times(w, q) <= Times(p, a) && m > 0.0
    ensures Times(s, Times(p, m)) <= Times(Times(w, m), q) <= Times(Times(p, m), a)
  {
    hide Times;
    P.Le(Times(s, p), Times(w, q), m);
    P.Le(Times(w, q), Times(p, a), m);
    P.Assoc(s, p, m);
    P.Swap(w, q, m);
    P.Swap(p, a, m);
  }

  /** A losing year, or a gain that the live losses cover in full, pays no tax and keeps the level. */
  lemma UntaxedKeepsBound(rate: real, w: real, p: real, l: real, q: real, m: real, l': real)
    requires p > 0.0 && m > 0.0
    requires BoundedBy(rate, w, p, l, q)
    requires Times(w, m) + l' <= w + l
    ensures BoundedBy(rate, Times(w, m), Times(p, m), l', q)
  {
    hide Times;
    Scale(w, p, w + l, q, AfterTax(rate, q), m);
    P.Positive(p, m);
    P.Le(Times(w, m) + l', w + l, Times(p, m));
  }

  /** A gain beyond the live losses is taxed; the level moves up to the untaxed multiple if that is higher. */
  lemma TaxedGainKeepsBound(rate: real, w: real, p: real, l: real, q: real, m: real, w': real) returns (q': real)
    requires 0.0 <= rate < 1.0 && w > 0.0 && p > 0.0 && m > 1.0
    requires BoundedBy(rate, w, p, l, q)
    requires 0.0 < w' <= Times(w, m) && w' == Times(w, m) - Times(Times(w, m) - w - l, rate)
    ensures BoundedBy(rate, w', Times(p, m), 0.0, q')
  {
    hide Times;
    var x := Times(p, m);
    P.Positive(p, m);
    if x < q {
      q' := q;
      Scale(w, p, w + l, q, AfterTax(rate, q), m);
      P.Le(w', Times(w, m), q);
      P.Le(x, q, w');
    } else {
      q' := x;
      DeferralIsConcave(rate, w, p, l, q, m);
      AfterTaxAbove(rate, x);
      P.Le(w', AfterTax(rate, x), x);
      P.Commute(AfterTax(rate, x), x);
    }
  }

  /** The arithmetic core: taxed now, wealth is at most what deferral leaves of the untaxed multiple. */
  lemma DeferralIsConcave(rate: real, w: real, p: real, l: real, q: real, m: real)
    requires 0.0 <= rate < 1.0 && w > 0.0 && p > 0.0 && m > 1.0
    requires BoundedBy(rate, w, p, l, q)
    requires Times(p, m) >= q
    ensures Times(w, m) - Times(Times(w, m) - w - l, rate) <= Times(1.0 - rate, Times(p, m)) + rate
  {
    hide Times;
    var a := AfterTax(rate, q);
    AfterTaxAbove(rate, q);
    Scale(w, p, w + l, q, a, m);
    P.Commute(p, a);
    P.Cancel(w + l, a, p);
    Cross(rate, Times(p, m), q, a, Times(w, m), w + l);
    Regroup(rate, Times(w, m), w + l);
  }

  lemma Regroup(rate: real, grown: real, covered: real)
    ensures grown - Times(grown - covered, rate) == Times(1.0 - rate, grown) + Times(rate, covered)
  {}

  lemma Cross(rate: real, x: real, q: real, a: real, grown: real, covered: real)
    requires 0.0 <= rate < 1.0 && 1.0 <= q <= x && a == Times(1.0 - rate, q) + rate
    requires Times(grown, q) <= Times(x, a) && covered <= a
    ensures Times(1.0 - rate, grown) + Times(rate, covered) <= Times(1.0 - rate, x) + rate
  {
    hide Times;
    var keep := 1.0 - rate;
    LeftBound(rate, keep, x, q, a, grown, covered);
    RightBound(rate, keep, x, q, a);
    P.Cancel(Times(keep, grown) + Times(rate, covered), Times(keep, x) + rate, q);
  }

  lemma LeftBound(rate: real, keep: real, x: real, q: real, a: real, grown: real, covered: real)
    requires rate >= 0.0 && keep >= 0.0 && q >= 1.0
    requires Times(grown, q) <= Times(x, a) && covered <= a
    ensures Times(Times(keep, grown) + Times(rate, covered), q) <= Times(a, Times(keep, x) + Times(rate, q))
  {
    hide Times;
    P.Le(Times(grown, q), Times(x, a), keep);
    P.Le(covered, a, q);
    P.Le(Times(covered, q), Times(a, q), rate);
    P.Distribute(Times(keep, grown), Times(rate, covered), q);
    P.Assoc(keep, grown, q);
    P.Assoc(rate, covered, q);
    P.Commute(a, Times(keep, x) + Times(rate, q));
    P.Distribute(Times(keep, x), Times(rate, q), a);
    P.Assoc(keep, x, a);
    P.Swap(rate, q, a);
    P.Assoc(rate, a, q);
  }

  lemma RightBound(rate: real, keep: real, x: real, q: real, a: real)
    requires rate >= 0.0 && keep == 1.0 - rate >= 0.0 && 1.0 <= q <= x && a == Times(keep, q) + rate
    ensures Times(a, Times(keep, x) + Times(rate, q)) <= Times(Times(keep, x) + rate, q)
  {
    hide Times;
    P.NonNegative(q - 1.0, x - q);
    P.NonNegative(keep, rate);
    P.NonNegative(Times(keep, rate), Times(q - 1.0, x - q));
    SlackIdentity(rate, x, q);
  }

  /** The gap between the two sides is a product of non-negative factors. */
  lemma SlackIdentity(rate: real, x: real, q: real)
    ensures var keep := 1.0 - rate;
      Times(Times(keep, x) + rate, q) - Times(Times(keep, q) + rate, Times(keep, x) + Times(rate, q))
      == Times(Times(keep, rate), Times(q - 1.0, x - q))
  {}

  /** Below its level, the bound is the comparison itself. */
  lemma BoundGivesComparison(rate: real, w: real, p: real, l: real, q: real)
    requires 0.0 <= rate < 1.0 && w > 0.0 && p > 0.0 && l >= 0.0
    requires BoundedBy(rate, w, p, l, q)
    ensures w <= AfterTax(rate, p)
  {
    hide Times;
    var keep := 1.0 - rate;
    AfterTaxAbove(rate, q);
    P.Le(w, w + l, p);
    P.Commute(w, p);
    P.Commute(w, q);
    P.Cancel(p, q, w);
    if p >= 1.0 {
      AfterTaxAbove(rate, p);
      P.Le(p, q, rate);
      P.Commute(p, Times(keep, q) + rate);
      P.Distribute(Times(keep, q), rate, p);
      P.Distribute(Times(keep, p), rate, q);
      P.Swap(keep, p, q);
      P.Commute(w, q);
      P.Cancel(w, Times(keep, p) + rate, q);
    } else {
      AfterTaxBelow(rate, p);
      P.NonNegative(rate, q - 1.0);
      KeepsLess(rate, q);
      P.Le(Times(keep, q) + rate, q, p);
      P.Cancel(w, p, q);
    }
  }

  lemma AfterTaxBelow(rate: real, p: real)
    requires p <= 1.0
    ensures AfterTax(rate, p) == p
  {}

  lemma KeepsLess(rate: real, q: real)
    requires rate >= 0.0 && q >= 1.0
    ensures Times(1.0 - rate, q) + rate <= q
  {}

  lemma {:induction false} ProductSnoc(items: seq<YearMultiple>)
    requires items != []
    ensures Product(items) == Times(Product(items[..|items| - 1]), items[|items| - 1].multiple)
  {
    hide Times;
    var init, last := items[..|items| - 1], items[|items| - 1].multiple;
    if |items| > 1 {
      ProductSnoc(items[1..]);
      assert items[1..][..|items| - 2] == init[1..];
      P.Assoc(items[0].multiple, Product(init[1..]), last);
    } else {
      P.Commute(last, 1.0);
      assert Product(items[1..]) == 1.0;
    }
  }

  lemma {:induction false} RunIsBounded(rate: real, items: seq<YearMultiple>) returns (q: real)
    requires 0.0 <= rate < 1.0 && Ascending(items) && AllPositive(items)
    ensures var years := TaxYears(rate, items);
      && WealthAfter(years) > 0.0 && Product(items) > 0.0
      && BoundedBy(rate, WealthAfter(years), Product(items), Sum(LossesAfter(years)), q)
  {
    hide Times;
    if items == [] {
      P.One(1.0);
      P.One(rate);
      q := 1.0;
    } else {
      var n := |items| - 1;
      var init, years := TaxYears(rate, items[..n]), TaxYears(rate, items);
      assert Ascending(items[..n]) && AllPositive(items[..n]);
      var q0 := RunIsBounded(rate, items[..n]);
      TaxYearsIsLedger(rate, items[..n]);
      LedgerShape(rate, init);
      ProductSnoc(items);
      TaxYearsIsLedger(rate, items);
      assert years[..n] == init;
      assert RecordFollows(rate, years, n);
      LastRecord(rate, items);
      q := YearIsBounded(rate, years[n], items[n].multiple, LossesAfter(init), Product(items[..n]), q0);
    }
  }

  lemma YearIsBounded(rate: real, y: TaxYear, m: real, losses: seq<Loss>, p: real, q: real) returns (q': real)
    requires 0.0 <= rate < 1.0 && y.wealthStart > 0.0 && p > 0.0 && m > 0.0
    requires LossCarryforward.Positive(losses) && BoundedBy(rate, y.wealthStart, p, Sum(losses), q)
    requires y.gain == Times(y.wealthStart, m - 1.0)
    requires y.carryforwardUsed == UsedInYear(losses, y.year, y.gain)
    requires y.carryforwardRemaining == OldestFirstYear(losses, y.year, y.gain)
    requires y.taxableIncome == Max(0.0, y.gain - y.carryforwardUsed)
    requires y.tax == Times(y.taxableIncome, rate) && y.wealthEnd == y.wealthStart + y.gain - y.tax
    ensures y.wealthEnd > 0.0 && Times(p, m) > 0.0
    ensures BoundedBy(rate, y.wealthEnd, Times(p, m), Sum(y.carryforwardRemaining), q')
  {
    hide Times;
    var w, gain := y.wealthStart, y.gain;
    var l := SumFrom(losses, y.year - LOSS_CARRYFORWARD_YEARS);
    SumFromBounds(losses, y.year - LOSS_CARRYFORWARD_YEARS);
    P.Le(w + l, w + Sum(losses), p);
    YearBalance(losses, y.year, gain);
    P.Positive(p, m);
    P.Positive(w, m);
    P.Commute(w, m);
    P.Commute(w, m - 1.0);
    P.Distribute(m, 1.0, w);
    P.One(w);
    P.One(rate);
    if gain <= l {
      UntaxedKeepsBound(rate, w, p, l, q, m, l - gain);
      q' := q;
    } else {
      P.Cancel(1.0, m, w);
      P.One(y.taxableIncome);
      P.Le(rate, 1.0, y.taxableIncome);
      P.NonNegative(y.taxableIncome, rate);
      q' := TaxedGainKeepsBound(rate, w, p, l, q, m, y.wealthEnd);
    }
  }

  /** Used and remaining losses of a year, from the live losses `l` and the gain alone. */
  lemma YearBalance(losses: seq<Loss>, year: int, gain: real)
    requires LossCarryforward.Positive(losses)
    ensures var l := SumFrom(losses, year - LOSS_CARRYFORWARD_YEARS);
      && UsedInYear(losses, year, gain) == (if gain > 0.0 then Min(l, gain) else 0.0)
      && Sum(OldestFirstYear(losses, year, gain)) == l - (if gain > 0.0 then Min(l, gain) else gain)
  {
    YearConservesLosses(losses, year, gain);
    LiveKeepsRecent(losses, year, 0);
    LiveShape(losses, year);
    if gain > 0.0 {
      UsedIsMin(Live(losses, year), gain);
    }
  }

  /**
   Deferring tax never loses: whatever losses are used or expire along the way, the ending
   wealth of annual taxation is positive and at most the benchmark treatment's ending multiple
   on the same monthly returns.
   */
  lemma AnnualNeverBeatsDeferred(rate: real, monthly: seq<MonthlyReturn>)
    requires 0.0 <= rate < 1.0 && monthly != [] && AboveTotalLoss(monthly)
    ensures var years := AnnualTaxYears(rate, monthly);
      years != [] && 0.0 < years[|years| - 1].wealthEnd <= DeferredEnding(rate, monthly)
  {
    hide Times;
    var items := SortedYears(YearlyMultiples(monthly));
    YearsOfRun(monthly);
    var q := RunIsBounded(rate, items);
    TaxYearsIsLedger(rate, items);
    LedgerShape(rate, TaxYears(rate, items));
    SumFromBounds(LossesAfter(TaxYears(rate, items)), 0);
    BoundGivesComparison(rate, WealthAfter(TaxYears(rate, items)), Product(items),
      Sum(LossesAfter(TaxYears(rate, items))), q);
  }

  /** The bound is tight: inside a single calendar year the two treatments agree. */
  lemma SingleYearIsTight(rate: real, monthly: seq<MonthlyReturn>)
    requires monthly != [] && forall i :: 0 <= i < |monthly| ==> monthly[i].year == monthly[0].year
    ensures AnnualTaxYears(rate, monthly) != []
    ensures WealthAfter(AnnualTaxYears(rate, monthly)) == DeferredEnding(rate, monthly)
  {
    hide Times;
    SingleEntry(monthly);
    YearsCompoundToTotal(monthly);
    var yearly := YearlyMultiples(monthly);
    assert yearly[1..] == [];
    var items := SortedYears(yearly);
    assert SortedYears(yearly[1..]) == [];
    assert items == yearly;
    assert items[..0] == [];
    var year := TaxYearOf(rate, items[0], 1.0, []);
    assert TaxYears(rate, items) == TaxYears(rate, items[..0]) + [year];
    P.One(items[0].multiple);
    P.One(items[0].multiple - 1.0);
    assert year.gain == items[0].multiple - 1.0 && year.carryforwardUsed == 0.0;
  }

  lemma {:induction false} SingleEntry(monthly: seq<MonthlyReturn>)
    requires monthly != [] && forall i :: 0 <= i < |monthly| ==> monthly[i].year == monthly[0].year
    ensures |YearlyMultiples(monthly)| == 1 && YearlyMultiples(monthly)[0].year == monthly[0].year
  {
    hide Times;
    if |monthly| > 1 {
      SingleEntry(monthly[..|monthly| - 1]);
    } else {
      assert monthly[..0] == [];
    }
  }
}
