/** The rates of iterations and keys, and the totals keys can be compared by. */
module Rates {
  import opened Sums
  import opened Cascade
  import opened Ledgers
  import opened Prorata

  // ---- One series of rates ----

  /** The two rates of an iteration are made alike: part over whole, all zero when either sums to zero. */
  ghost predicate IsRate(part: seq<real>, whole: seq<real>, rates: seq<real>, total: real) {
    && |part| == |whole| == |rates|
    && if Sum(whole) == 0.0 || Sum(part) == 0.0 then rates == Zeros(|part|) && total == 0.0
       else rates == Quotients(part, whole) && total == Sum(part) / Sum(whole)
  }

  ghost predicate IsPart(part: seq<real>, whole: seq<real>) {
    |part| == |whole| && forall t :: 0 <= t < |part| ==> 0.0 <= part[t] <= whole[t]
  }

  lemma FractionInUnit(a: real, b: real)
    requires 0.0 <= a <= b && b > 0.0
    ensures 0.0 <= a / b <= 1.0
  {
    QuotientNonnegative(a, b);
    QuotientNonnegative(b - a, b);
    assert a / b + (b - a) / b == 1.0;
  }

  /** The rates of a part of a whole lie between 0 and 1. */
  lemma RatesInUnit(part: seq<real>, whole: seq<real>, rates: seq<real>, total: real)
    requires IsRate(part, whole, rates, total) && IsPart(part, whole)
    ensures 0.0 <= total <= 1.0
    ensures forall t :: 0 <= t < |rates| ==> 0.0 <= rates[t] <= 1.0
  {
    SumAtMost(part, whole);
    SumNonnegative(part);
    if Sum(whole) != 0.0 {
      FractionInUnit(Sum(part), Sum(whole));
    }
    forall t | 0 <= t < |rates| ensures 0.0 <= rates[t] <= 1.0 {
      if whole[t] != 0.0 {
        FractionInUnit(part[t], whole[t]);
      }
    }
  }

  function Products(a: seq<real>, b: seq<real>): (p: seq<real>)
    requires |a| == |b|
    ensures |p| == |a|
  {
    seq(|a|, t requires 0 <= t < |a| => a[t] * b[t])
  }

  lemma TimesQuotient(a: real, b: real)
    requires b != 0.0
    ensures a / b * b == a
  {
  }

  lemma PartIsProduct(part: seq<real>, whole: seq<real>)
    requires IsPart(part, whole)
    ensures Products(Quotients(part, whole), whole) == part
  {
    forall t | 0 <= t < |part| ensures Products(Quotients(part, whole), whole)[t] == part[t] {
      if whole[t] != 0.0 {
        TimesQuotient(part[t], whole[t]);
      }
    }
  }

  lemma ZeroProducts(whole: seq<real>)
    ensures Sum(Products(Zeros(|whole|), whole)) == 0.0
  {
    SumZero(Products(Zeros(|whole|), whole));
  }

  lemma TotalTimesWhole(part: real, whole: real, total: real)
    requires 0.0 <= part <= whole
    requires total == if whole == 0.0 || part == 0.0 then 0.0 else part / whole
    ensures total * whole == part
  {
    if whole != 0.0 {
      TimesQuotient(part, whole);
    }
  }

  lemma SeriesTimesWhole(part: seq<real>, whole: seq<real>, rates: seq<real>, total: real)
    requires IsRate(part, whole, rates, total) && IsPart(part, whole) && 0.0 <= Sum(part) <= Sum(whole)
    ensures Sum(Products(rates, whole)) == Sum(part)
  {
    if Sum(whole) == 0.0 || Sum(part) == 0.0 {
      ZeroProducts(whole);
    } else {
      hide Sum, Products, Quotients;
      PartIsProduct(part, whole);
    }
  }

  /** A rate times its whole is its part, and the total rate weighs the rates of the timesteps by their wholes. */
  lemma RatesWeigh(part: seq<real>, whole: seq<real>, rates: seq<real>, total: real)
    requires IsRate(part, whole, rates, total) && IsPart(part, whole)
    ensures total * Sum(whole) == Sum(Products(rates, whole)) == Sum(part)
  {
    SumAtMost(part, whole);
    SumNonnegative(part);
    SeriesTimesWhole(part, whole, rates, total);
    hide Sum, Products, Quotients, Zeros, IsPart;
    TotalTimesWhole(Sum(part), Sum(whole), total);
  }

  /** Rates between 0 and 1, whose total, times the total of the whole, is their sum weighted by the whole. */
  ghost predicate IsSoundRate(part: seq<real>, whole: seq<real>, rates: seq<real>, total: real) {
    && |part| == |whole| == |rates|
    && 0.0 <= total <= 1.0
    && (forall t :: 0 <= t < |rates| ==> 0.0 <= rates[t] <= 1.0)
    && total * Sum(whole) == Sum(Products(rates, whole)) == Sum(part)
  }

  lemma RateIsSound(part: seq<real>, whole: seq<real>, rates: seq<real>, total: real)
    requires IsRate(part, whole, rates, total) && IsPart(part, whole)
    ensures IsSoundRate(part, whole, rates, total)
  {
    hide Sum;
    RatesInUnit(part, whole, rates, total);
    RatesWeigh(part, whole, rates, total);
  }

  // ---- The rates of an iteration ----

  lemma IterationIsRated(it: IterationInput, names: seq<string>, weights: Matrix, demand: Matrix, available: seq<real>)
    requires IsIterationInput(it, names, weights, demand, available)
    ensures var r := IterationOf(it, names, weights, demand, available);
            && IsRate(r.consumed, r.available, r.sharingRate, r.sharingRateTotal)
            && IsRate(r.consumed, r.consumption, r.selfSufficiencyRate, r.selfSufficiencyRateTotal)
  {
  }

  lemma TurnIsRated(key: KeyInput, names: seq<string>, consumption: Matrix, production: seq<real>,
        results: seq<IterationResult>, k: nat)
    requires IsCascade(key, names, consumption, production, results) && k < |results|
    ensures var r := results[k];
            && IsRate(r.consumed, r.available, r.sharingRate, r.sharingRateTotal)
            && IsRate(r.consumed, r.consumption, r.selfSufficiencyRate, r.selfSufficiencyRateTotal)
  {
    hide IterationOf, IsRate;
    assert IsTurn(key, names, consumption, production, results, k);
    var demand, carried := DemandAt(consumption, results, k), CarriedAt(results, k, |production|);
    IterationIsRated(key.iterations[k], names, Weights(consumption, |production|), demand,
                     Feed(production, key.iterations[k].fraction, carried));
  }

  lemma AtMostHandedOut(available: real, share: real, consumed: real, surplus: real)
    requires available >= 0.0 && share <= 1.0 && surplus >= 0.0 && available * share == consumed + surplus
    ensures consumed <= available
  {
    ProductNonnegative(available, 1.0 - share);
    assert available * (1.0 - share) == available - available * share;
  }

  /** No negative energy and no negative fraction. */
  ghost predicate NonnegativeData(key: KeyInput, consumption: Matrix, production: seq<real>) {
    && (forall k :: 0 <= k < |key.iterations| ==> key.iterations[k].fraction >= 0.0)
    && forall t :: 0 <= t < |production| ==> NonnegativeAt(consumption, production, Fractions(key), t)
  }

  /** ... and no multiplier that takes anything away. */
  ghost predicate GivesData(key: KeyInput, names: seq<string>, consumption: Matrix, production: seq<real>) {
    && NonnegativeData(key, consumption, production)
    && forall t :: 0 <= t < |production| ==> GivesAt(key, names, consumption, |production|, t)
  }

  /** ... or hands out more than all there is. */
  ghost predicate SharesData(key: KeyInput, names: seq<string>, consumption: Matrix, production: seq<real>) {
    && NonnegativeData(key, consumption, production)
    && forall t :: 0 <= t < |production| ==> SharesAt(key, names, consumption, |production|, t)
  }

  lemma SharingGives(key: KeyInput, names: seq<string>, consumption: Matrix, production: seq<real>)
    requires SharesData(key, names, consumption, production)
    ensures GivesData(key, names, consumption, production)
  {
    forall t | 0 <= t < |production| ensures GivesAt(key, names, consumption, |production|, t) {
      assert SharesAt(key, names, consumption, |production|, t);
    }
  }

  /** Nothing in an iteration of such a run is negative. */
  lemma RunNonnegative(key: KeyInput, names: seq<string>, consumption: Matrix, production: seq<real>,
        results: seq<IterationResult>, k: nat, t: nat)
    requires IsRun(key, names, consumption, production, results) && GivesData(key, names, consumption, production)
    requires k < |results| && t < |production|
    ensures var m := RunMultipliers(key, names, consumption, production, results);
            IsFlow(results[k], m[k], |production|) && NoNegatives(results[k], m[k], |production|, t)
  {
    var m := RunMultipliers(key, names, consumption, production, results);
    assert GivesAt(key, names, consumption, |production|, t);
    assert NonnegativeAt(consumption, production, Fractions(key), t);
    hide IsCascade, IsRun, RunMultipliers, IsFlow, NoNegatives, GivesData;
    ChainNonnegative(Fractions(key), m, consumption, production, results, k, t);
    ChainTurn(Fractions(key), m, consumption, production, results, k);
  }

  lemma ConsumedIsDemanded(key: KeyInput, names: seq<string>, consumption: Matrix, production: seq<real>,
        results: seq<IterationResult>, k: nat)
    requires IsRun(key, names, consumption, production, results) && GivesData(key, names, consumption, production)
    requires k < |results|
    ensures IsPart(results[k].consumed, results[k].consumption)
  {
    var m, r := RunMultipliers(key, names, consumption, production, results), results[k];
    assert IsFlow(r, m[k], |production|);
    forall t | 0 <= t < |production| ensures 0.0 <= r.consumed[t] <= r.consumption[t] {
      hide IsCascade, IsFlow, IsChain, IsRun, RunMultipliers, Relu, Sum, IsCell, IsColumn, IsTotal, GivesData;
      RunNonnegative(key, names, consumption, production, results, k, t);
      FlowBalance(r, m[k], |production|, t);
    }
  }

  lemma ConsumedIsAvailable(key: KeyInput, names: seq<string>, consumption: Matrix, production: seq<real>,
        results: seq<IterationResult>, k: nat)
    requires IsRun(key, names, consumption, production, results) && SharesData(key, names, consumption, production)
    requires k < |results|
    ensures IsPart(results[k].consumed, results[k].available)
  {
    SharingGives(key, names, consumption, production);
    var m, r := RunMultipliers(key, names, consumption, production, results), results[k];
    assert IsFlow(r, m[k], |production|);
    forall t | 0 <= t < |production| ensures 0.0 <= r.consumed[t] <= r.available[t] {
      assert SharesAt(key, names, consumption, |production|, t);
      hide IsCascade, IsFlow, IsChain, IsRun, RunMultipliers, Relu, Sum, IsCell, IsColumn, IsTotal, GivesData;
      RunNonnegative(key, names, consumption, production, results, k, t);
      FlowBalance(r, m[k], |production|, t);
      AtMostHandedOut(r.available[t], Sum(Column(m[k], t)), r.consumed[t], r.surplus[t]);
    }
  }

  /**
   * Without negative energy and multipliers, every self-sufficiency rate of an iteration, of a
   * timestep or in total, lies between 0 and 1, and each total rate times its total energy is the
   * weighted sum of its series. So it is of the sharing rates when the multipliers also hand out at
   * most all there is.
   */
  lemma IterationRates(key: KeyInput, names: seq<string>, consumption: Matrix, production: seq<real>,
        results: seq<IterationResult>, k: nat)
    requires IsRun(key, names, consumption, production, results) && GivesData(key, names, consumption, production)
    requires k < |results|
    ensures var r := results[k];
            && IsSoundRate(r.consumed, r.consumption, r.selfSufficiencyRate, r.selfSufficiencyRateTotal)
            && (SharesData(key, names, consumption, production) ==>
                  IsSoundRate(r.consumed, r.available, r.sharingRate, r.sharingRateTotal))
            && r.consumedTotal == Sum(r.consumed) && r.availableTotal == Sum(r.available)
            && r.consumptionTotal == Sum(r.consumption)
  {
    var r := results[k];
    TurnIsRated(key, names, consumption, production, results, k);
    ConsumedIsDemanded(key, names, consumption, production, results, k);
    assert IsFlow(r, RunMultipliers(key, names, consumption, production, results)[k], |production|);
    hide IsRate, IsPart, IsSoundRate, IsCascade, GivesData, SharesData;
    RateIsSound(r.consumed, r.consumption, r.selfSufficiencyRate, r.selfSufficiencyRateTotal);
    if SharesData(key, names, consumption, production) {
      ConsumedIsAvailable(key, names, consumption, production, results, k);
      RateIsSound(r.consumed, r.available, r.sharingRate, r.sharingRateTotal);
    }
  }

  // ---- Key totals ----

  /** The energy a chain consumes, timestep by timestep. */
  ghost function ConsumedSeries(results: seq<IterationResult>, m: seq<Matrix>, n: nat, timesteps: nat): (s: seq<real>)
    requires AllShaped(results, m, n, timesteps)
    ensures |s| == timesteps
  {
    seq(timesteps, t requires 0 <= t < timesteps => ConsumedAt(results, m, n, timesteps, t))
  }

  /** ... and its total is the sum of the iterations' totals. */
  lemma {:induction false} SumOfConsumed(results: seq<IterationResult>, m: seq<Matrix>, n: nat, timesteps: nat)
    requires AllShaped(results, m, n, timesteps)
    requires forall k :: 0 <= k < n ==> IsTotal(results[k])
    ensures Sum(ConsumedSeries(results, m, n, timesteps)) == Sum(ConsumedTotals(results[..n]))
  {
    if n == 0 {
      SumZero(ConsumedSeries(results, m, 0, timesteps));
    } else {
      SumOfConsumed(results, m, n - 1, timesteps);
      SumPlus(ConsumedSeries(results, m, n - 1, timesteps), results[n - 1].consumed,
          ConsumedSeries(results, m, n, timesteps));
      assert ConsumedTotals(results[..n])[..n - 1] == ConsumedTotals(results[..n - 1]);
    }
  }

  lemma KeyConsumed(key: KeyInput, names: seq<string>, consumption: Matrix, production: seq<real>,
        results: seq<IterationResult>)
    requires IsRun(key, names, consumption, production, results)
    ensures KeyResultOf(key, results).consumedTotal ==
            Sum(ConsumedSeries(results, RunMultipliers(key, names, consumption, production, results),
                               |results|, |production|))
  {
    var m := RunMultipliers(key, names, consumption, production, results);
    forall k | 0 <= k < |results| ensures IsTotal(results[k]) {
      assert IsFlow(results[k], m[k], |production|);
    }
    hide IsRun, RunMultipliers, IsTotal, IsShaped;
    SumOfConsumed(results, m, |results|, |production|);
    assert results[..|results|] == results;
  }

  /** What a run hands to no one, timestep by timestep. */
  ghost function DroppedSeries(results: seq<IterationResult>, m: seq<Matrix>, timesteps: nat): (s: seq<real>)
    requires AllShaped(results, m, |results|, timesteps)
    ensures |s| == timesteps
  {
    seq(timesteps, t requires 0 <= t < timesteps => DroppedAt(results, m, |results|, timesteps, t))
  }

  predicate IsSplit(given: real, production: real, consumed: real, left: real, dropped: real) {
    given * production == consumed + left + dropped
  }

  lemma {:induction false} SumsSplit(given: real, production: seq<real>, consumed: seq<real>, left: seq<real>,
        dropped: seq<real>)
    requires |production| == |consumed| == |left| == |dropped|
    requires forall t :: 0 <= t < |production| ==> IsSplit(given, production[t], consumed[t], left[t], dropped[t])
    ensures IsSplit(given, Sum(production), Sum(consumed), Sum(left), Sum(dropped))
  {
    if production != [] {
      var n := |production| - 1;
      SumsSplit(given, production[..n], consumed[..n], left[..n], dropped[..n]);
      assert IsSplit(given, production[n], consumed[n], left[n], dropped[n]);
    }
  }

  lemma SupplyIsSplit(key: KeyInput, names: seq<string>, consumption: Matrix, production: seq<real>,
        results: seq<IterationResult>, t: nat)
    requires IsRun(key, names, consumption, production, results) && t < |production|
    ensures var m := RunMultipliers(key, names, consumption, production, results);
            && t < |results[|results| - 1].surplus|
            && IsSplit(TotalFraction(key), production[t],
                       RunConsumedAt(key, names, consumption, production, results, t),
                       results[|results| - 1].surplus[t], DroppedAt(results, m, |results|, |production|, t))
  {
    SupplyLedger(key, names, consumption, production, results, t);
    hide IsCascade, IsChain, RunMultipliers, ConsumedAt, DroppedAt, SumFirst, IsShaped;
  }

  lemma TotalsSplit(key: KeyInput, names: seq<string>, consumption: Matrix, production: seq<real>,
        results: seq<IterationResult>)
    requires IsRun(key, names, consumption, production, results)
    ensures var m, r := RunMultipliers(key, names, consumption, production, results), KeyResultOf(key, results);
            IsSplit(TotalFraction(key), Sum(production), r.consumedTotal, r.surplusTotal,
                    Sum(DroppedSeries(results, m, |production|)))
  {
    hide IsCascade, IsChain, IsShaped, RunMultipliers, TotalFraction, Sum, ConsumedAt, DroppedAt, IsSplit, KeyResultOf;
    var m, n, T := RunMultipliers(key, names, consumption, production, results), |results|, |production|;
    var consumed, dropped := ConsumedSeries(results, m, n, T), DroppedSeries(results, m, T);
    var left := results[n - 1].surplus;
    LastTotal(key, names, consumption, production, results);
    KeyConsumed(key, names, consumption, production, results);
    forall t | 0 <= t < T ensures IsSplit(TotalFraction(key), production[t], consumed[t], left[t], dropped[t]) {
      SupplyIsSplit(key, names, consumption, production, results, t);
    }
    SumsSplit(TotalFraction(key), production, consumed, left, dropped);
  }

  /** The key's supply ledger: all it gives out is consumed in total, its last surplus, or dropped. */
  lemma KeySupply(key: KeyInput, names: seq<string>, consumption: Matrix, production: seq<real>,
        results: seq<IterationResult>)
    requires IsRun(key, names, consumption, production, results)
    ensures var m, r := RunMultipliers(key, names, consumption, production, results), KeyResultOf(key, results);
            TotalFraction(key) * Sum(production) ==
            r.consumedTotal + r.surplusTotal + Sum(DroppedSeries(results, m, |production|))
  {
    hide IsRun, IsCascade, RunMultipliers, TotalFraction, Sum, DroppedSeries, KeyResultOf;
    TotalsSplit(key, names, consumption, production, results);
  }

  lemma LastTotal(key: KeyInput, names: seq<string>, consumption: Matrix, production: seq<real>,
        results: seq<IterationResult>)
    requires IsRun(key, names, consumption, production, results)
    ensures var r := results[|results| - 1];
            |r.surplus| == |production| && KeyResultOf(key, results).surplusTotal == Sum(r.surplus)
  {
    var m := RunMultipliers(key, names, consumption, production, results);
    assert IsFlow(results[|results| - 1], m[|results| - 1], |production|);
  }

  /** No key with the same fractions consumes more in total than a PRORATA key. */
  lemma ProrataKeyIsOptimal(prorata: KeyInput, other: KeyInput, names: seq<string>, consumption: Matrix,
        production: seq<real>, best: seq<IterationResult>, results: seq<IterationResult>)
    requires IsRun(prorata, names, consumption, production, best) && IsProrata(prorata, names)
    requires IsRun(other, names, consumption, production, results) && Fractions(other) == Fractions(prorata)
    requires SharesData(other, names, consumption, production)
    ensures KeyResultOf(other, results).consumedTotal <= KeyResultOf(prorata, best).consumedTotal
  {
    var T := |production|;
    var a := ConsumedSeries(results, RunMultipliers(other, names, consumption, production, results), |results|, T);
    var b := ConsumedSeries(best, RunMultipliers(prorata, names, consumption, production, best), |best|, T);
    KeyConsumed(other, names, consumption, production, results);
    KeyConsumed(prorata, names, consumption, production, best);
    forall t | 0 <= t < T ensures a[t] <= b[t] {
      ProrataIsOptimal(prorata, other, names, consumption, production, best, results, t);
    }
    SumAtMost(a, b);
  }

  // ---- The rates of a key ----

  /** The sum of the fractions of the production that a key gives out. */
  function TotalFraction(key: KeyInput): real {
    SumFirst(Fractions(key), |key.iterations|)
  }

  predicate IsScaled(a: real, factor: real, whole: real) {
    a == factor * whole
  }

  predicate IsAtMostScaled(a: real, factor: real, whole: real) {
    0.0 <= a <= factor * whole
  }

  lemma FirstAvailable(key: KeyInput, names: seq<string>, consumption: Matrix, production: seq<real>,
        results: seq<IterationResult>)
    requires IsRun(key, names, consumption, production, results)
    ensures IsScaled(results[0].availableTotal, Fractions(key)[0], Sum(production))
  {
    hide IsChain, IsFlow, IsLinked, IsCascade, Sum, AllShaped;
    var m, f := RunMultipliers(key, names, consumption, production, results), Fractions(key);
    ChainTurn(f, m, consumption, production, results, 0);
    FirstLinked(f, consumption, production, results);
  }

  lemma ChainTurn(fractions: seq<real>, m: seq<Matrix>, consumption: Matrix, production: seq<real>,
        results: seq<IterationResult>, k: nat)
    requires IsChain(fractions, m, consumption, production, results) && k < |results|
    ensures IsFlow(results[k], m[k], |production|) && IsTotal(results[k])
    ensures IsLinked(fractions, consumption, production, results, k)
  {
  }

  lemma FirstLinked(fractions: seq<real>, consumption: Matrix, production: seq<real>, results: seq<IterationResult>)
    requires 0 < |results| <= |fractions| && IsLinked(fractions, consumption, production, results, 0)
        && IsTotal(results[0])
    ensures results[0].availableTotal == fractions[0] * Sum(production)
  {
    hide Sum;
    SumScale(fractions[0], production, results[0].available);
  }

  lemma LastResidual(key: KeyInput, names: seq<string>, consumption: Matrix, production: seq<real>,
        results: seq<IterationResult>)
    requires IsRun(key, names, consumption, production, results) && GivesData(key, names, consumption, production)
    ensures results[|results| - 1].residualTotal >= 0.0
  {
    var m, n := RunMultipliers(key, names, consumption, production, results), |results|;
    var r := results[n - 1];
    assert IsFlow(r, m[n - 1], |production|);
    forall t | 0 <= t < |production| ensures r.residual[t] >= 0.0 {
      hide IsCascade, IsFlow, IsChain, IsRun, RunMultipliers, Relu, Sum, IsCell, IsColumn, IsTotal, GivesData;
      RunNonnegative(key, names, consumption, production, results, n - 1, t);
    }
    SumNonnegative(r.residual);
  }

  /** No iteration consumes less than nothing, so the key consumes at least what each iteration does. */
  lemma TotalsNonnegative(key: KeyInput, names: seq<string>, consumption: Matrix, production: seq<real>,
        results: seq<IterationResult>)
    requires IsRun(key, names, consumption, production, results) && GivesData(key, names, consumption, production)
    ensures forall k :: 0 <= k < |results| ==>
              0.0 <= results[k].consumedTotal <= KeyResultOf(key, results).consumedTotal
    ensures KeyResultOf(key, results).consumedTotal >= 0.0
  {
    forall k | 0 <= k < |results| ensures ConsumedTotals(results)[k] >= 0.0 {
      IterationRates(key, names, consumption, production, results, k);
      ConsumedIsDemanded(key, names, consumption, production, results, k);
      SumNonnegative(results[k].consumed);
    }
    SumNonnegative(ConsumedTotals(results));
    assert forall k :: 0 <= k < |results| ==> ConsumedTotals(results)[k] == results[k].consumedTotal;
  }

  lemma TimestepAtMost(key: KeyInput, names: seq<string>, consumption: Matrix, production: seq<real>,
        results: seq<IterationResult>, t: nat)
    requires IsRun(key, names, consumption, production, results)
        && SharesData(key, names, consumption, production)
    requires t < |production|
    ensures IsAtMostScaled(RunConsumedAt(key, names, consumption, production, results, t),
                           TotalFraction(key), production[t])
  {
    hide SumFirst, IsCascade, RunMultipliers, Sum, Column, RunConsumedAt, IsSharing;
    assert SharesAt(key, names, consumption, |production|, t);
    RunAtMost(key, names, consumption, production, results, t, production[t] * TotalFraction(key));
  }

  /** What a key consumes in total is at most all it is given. */
  lemma KeyConsumesAtMost(key: KeyInput, names: seq<string>, consumption: Matrix, production: seq<real>,
        results: seq<IterationResult>)
    requires IsRun(key, names, consumption, production, results)
        && SharesData(key, names, consumption, production)
    ensures IsAtMostScaled(KeyResultOf(key, results).consumedTotal, TotalFraction(key), Sum(production))
  {
    hide IsCascade, RunMultipliers, Sum, ConsumedAt, SharesData, TotalFraction, IsAtMostScaled;
    var consumed := ConsumedSeries(results, RunMultipliers(key, names, consumption, production, results), |results|,
        |production|);
    KeyConsumed(key, names, consumption, production, results);
    forall t | 0 <= t < |production| ensures IsAtMostScaled(consumed[t], TotalFraction(key), production[t]) {
      TimestepAtMost(key, names, consumption, production, results, t);
    }
    ScaledAtMost(consumed, production, TotalFraction(key));
  }

  lemma {:induction false} ScaledAtMost(part: seq<real>, whole: seq<real>, factor: real)
    requires |part| == |whole| && forall t :: 0 <= t < |part| ==> IsAtMostScaled(part[t], factor, whole[t])
    ensures IsAtMostScaled(Sum(part), factor, Sum(whole))
  {
    if part != [] {
      ScaledAtMost(part[..|part| - 1], whole[..|whole| - 1], factor);
    }
  }

  lemma QuotientBound(part: real, first: real, total: real, production: real)
    requires first > 0.0 && production > 0.0 && part <= total * production
    ensures first * production != 0.0 && part / (first * production) * first <= total
  {
    assert part / (first * production) * first == part / production;
    QuotientNonnegative(total * production - part, production);
    assert (total * production - part) / production == total - part / production;
  }

  lemma SharingRateBound(consumed: real, available: real, first: real, total: real, production: real, rate: real)
    requires total >= 0.0 && production >= 0.0 && IsAtMostScaled(consumed, total, production)
        && IsScaled(available, first, production)
    requires rate == if available != 0.0 then consumed / available else 0.0
    ensures first > 0.0 ==> rate <= total / first
  {
    if first > 0.0 {
      QuotientNonnegative(total, first);
      if production > 0.0 {
        QuotientBound(consumed, first, total, production);
        QuotientNonnegative(total - rate * first, first);
        assert (total - rate * first) / first == total / first - rate;
      } else {
        assert first * production == 0.0;
      }
    }
  }

  /**
   * Without negative energy and multipliers, the self-sufficiency rate of a key lies between 0 and
   * 1. Its sharing rate divides by what the first iteration had, and is at most the sum of the
   * fractions over the first one when the multipliers also hand out at most all there is.
   */
  lemma KeyRates(key: KeyInput, names: seq<string>, consumption: Matrix, production: seq<real>,
        results: seq<IterationResult>)
    requires IsRun(key, names, consumption, production, results) && GivesData(key, names, consumption, production)
    ensures var r := KeyResultOf(key, results);
            && 0.0 <= r.selfSufficiencyRateTotal <= 1.0
            && r.selfSufficiencyRateTotal * r.consumptionTotal == r.consumedTotal
            && (SharesData(key, names, consumption, production) && Fractions(key)[0] > 0.0 ==>
                  r.sharingRateTotal <= TotalFraction(key) / Fractions(key)[0])
  {
    hide RunMultipliers, GivesData, SharesData, Sum, TotalFraction, IsCascade, IsScaled, IsAtMostScaled;
    var r := KeyResultOf(key, results);
    KeyDemand(key, names, consumption, production, results);
    LastResidual(key, names, consumption, production, results);
    TotalsNonnegative(key, names, consumption, production, results);
    SelfSufficiencyBound(r.consumedTotal, r.consumptionTotal, r.selfSufficiencyRateTotal);
    if SharesData(key, names, consumption, production) {
      KeyConsumesAtMost(key, names, consumption, production, results);
      FirstAvailable(key, names, consumption, production, results);
      ProductionNonnegative(key, names, consumption, production, results);
      SharingRateBound(r.consumedTotal, r.availableTotal, Fractions(key)[0], TotalFraction(key), Sum(production),
          r.sharingRateTotal);
    }
  }

  lemma SelfSufficiencyBound(consumed: real, demand: real, rate: real)
    requires 0.0 <= consumed <= demand && rate == if demand != 0.0 then consumed / demand else 0.0
    ensures 0.0 <= rate <= 1.0 && rate * demand == consumed
  {
    if demand != 0.0 {
      FractionInUnit(consumed, demand);
      TimesQuotient(consumed, demand);
    }
  }

  lemma KeyDemand(key: KeyInput, names: seq<string>, consumption: Matrix, production: seq<real>,
        results: seq<IterationResult>)
    requires IsRun(key, names, consumption, production, results)
    ensures KeyResultOf(key, results).consumptionTotal ==
        KeyResultOf(key, results).consumedTotal + results[|results| - 1].residualTotal
  {
    DemandLedger(key, names, consumption, production, results);
  }

  lemma ProductionNonnegative(key: KeyInput, names: seq<string>, consumption: Matrix, production: seq<real>,
        results: seq<IterationResult>)
    requires IsRun(key, names, consumption, production, results)
        && SharesData(key, names, consumption, production)
    ensures Sum(production) >= 0.0
    ensures TotalFraction(key) >= 0.0
  {
    forall t | 0 <= t < |production| ensures production[t] >= 0.0 {
      assert NonnegativeAt(consumption, production, Fractions(key), t);
    }
    SumNonnegative(production);
    HandedNonnegative(1.0, Fractions(key), |results|);
    HandedIsProduct(1.0, Fractions(key), |results|);
  }

  // ---- Runs exist, and their sharing rate can exceed one ----

  /** Whatever the data, a key whose iterations know every consumer has a run. */
  lemma {:induction false} CascadeExists(key: KeyInput, names: seq<string>, consumption: Matrix, production: seq<real>,
        n: nat)
    returns (results: seq<IterationResult>)
    requires |consumption| == |names| && Rectangular(consumption, |production|) && n <= |key.iterations|
    requires forall k :: 0 <= k < n ==> HasConsumers(key.iterations[k], names)
    ensures |results| == n && IsCascade(key, names, consumption, production, results)
  {
    if n == 0 {
      results := [];
    } else {
      results := CascadeExists(key, names, consumption, production, n - 1);
      if n > 1 {
        TurnIsFlow(key, names, consumption, production, results, n - 2);
        LeftForNext(results[n - 2], Multipliers(key.iterations[n - 2], names, Weights(consumption, |production|)),
            |production|);
      }
      hide IsCascade, IterationOf, Weights;
      var it, demand, carried := key.iterations[n - 1], DemandAt(consumption, results, n - 1),
          CarriedAt(results, n - 1, |production|);
      var next := IterationOf(it, names, Weights(consumption, |production|), demand,
          Feed(production, it.fraction, carried));
      CascadeExtends(key, names, consumption, production, results, next);
      results := results + [next];
    }
  }

  lemma LeftForNext(r: IterationResult, m: Matrix, timesteps: nat)
    requires IsFlow(r, m, timesteps)
    ensures |ResidualsOf(r)| == |m| && Rectangular(ResidualsOf(r), timesteps) && |r.surplus| == timesteps
  {
  }

  /** Two PRORATA iterations of half the production each. */
  function Halves(): KeyInput {
    var half := 0.5;
    KeyInput("", "", [IterationInput(1, half, [ConsumerInput("A", -1.0)]),
                      IterationInput(2, half, [ConsumerInput("A", -1.0)])])
  }

  /** "A rate is at most one" does not hold of a key's sharing rate: this one is 2. */
  lemma SharingRateAboveOne() returns (results: seq<IterationResult>)
    ensures IsRun(Halves(), ["A"], [[1.0]], [1.0], results)
    ensures KeyResultOf(Halves(), results).sharingRateTotal == 2.0
  {
    var key, names, consumption, production := Halves(), ["A"], [[1.0]], [1.0];
    HalvesData();
    results := CascadeExists(key, names, consumption, production, 2);
    hide IsCascade, PercentageOf, Sum, SumFirst;
    ProrataCollapse(key, names, consumption, production, results, 0, 1.0);
    KeyConsumed(key, names, consumption, production, results);
    assert ConsumedSeries(results, RunMultipliers(key, names, consumption, production, results), 2, 1) == [1.0];
    FirstAvailable(key, names, consumption, production, results);
  }

  lemma HalvesData()
    ensures IsProrata(Halves(), ["A"]) && forall k :: 0 <= k < 2 ==> HasConsumers(Halves().iterations[k], ["A"])
    ensures Column([[1.0]], 0) == [1.0] && Sum([1.0]) == 1.0
    ensures Fractions(Halves())[0] == 0.5 && SumFirst(Fractions(Halves()), 2) == 1.0
  {
    assert forall k :: 0 <= k < 2 ==> PercentageOf(Halves().iterations[k].consumers, "A") == Found(-1.0);
    assert [1.0][..0] == [];
    assert SumFirst(Fractions(Halves()), 1) == 0.5;
  }
}
