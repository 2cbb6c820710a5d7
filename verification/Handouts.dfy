/**
 * How high the sharing rate of a key can get, whatever the data: the key alone decides it. A FIXED
 * percentage can be above 1, and so can their sum; a PRORATA consumer gets the more the more of the
 * demand is its own.
 */
module Handouts {
  import opened Sums
  import opened Cascade
  import opened Ledgers
  import opened Prorata
  import opened Rates
  import opened SharingRate

  // ---- What a key hands out ----

  /** Percentages as they are documented: FIXED at or above 0, or PRORATA, at or below -1. */
  predicate IsDocumented(percentages: seq<real>) {
    forall j :: 0 <= j < |percentages| ==> percentages[j] >= 0.0 || percentages[j] <= -1.0
  }

  /** Such a key: it has iterations, all know every name, and no fraction is negative. */
  ghost predicate IsKey(key: KeyInput, names: seq<string>) {
    && key.iterations != [] && AllHaveConsumers(key, names, |key.iterations|)
    && (forall k :: 0 <= k < |key.iterations| ==> key.iterations[k].fraction >= 0.0)
    && forall k :: 0 <= k < |key.iterations| ==> IsDocumented(Percentages(key.iterations[k], names))
  }

  /** The FIXED percentages, 0 for the others. */
  function FixedPart(percentages: seq<real>): (s: seq<real>)
    ensures |s| == |percentages|
  {
    seq(|percentages|, j requires 0 <= j < |percentages| => if percentages[j] > -1.0 then percentages[j] else 0.0)
  }

  /** The weights of the PRORATA consumers, 0 for the others. */
  function ProrataPart(percentages: seq<real>, weights: seq<real>): (s: seq<real>)
    requires |percentages| == |weights|
    ensures |s| == |percentages|
  {
    seq(|percentages|, j requires 0 <= j < |percentages| => if percentages[j] > -1.0 then 0.0 else weights[j])
  }

  /**
   * What an iteration hands out, as a multiple of what it has, when consumer `j` has all the
   * demand: the FIXED percentages, and once more all of it if `j` is PRORATA.
   */
  function HandOut(percentages: seq<real>, j: nat): real
    requires j < |percentages|
  {
    Sum(FixedPart(percentages)) + if percentages[j] > -1.0 then 0.0 else 1.0
  }

  function HandOuts(percentages: seq<real>): (s: seq<real>)
    ensures |s| == |percentages|
  {
    seq(|percentages|, j requires 0 <= j < |percentages| => HandOut(percentages, j))
  }

  /** The fractions of the production the first `n` iterations then hand out. */
  function HandedTo(key: KeyInput, names: seq<string>, j: nat, n: nat): real
    requires j < |names| && n <= |key.iterations|
    requires forall k :: 0 <= k < n ==> HasConsumers(key.iterations[k], names)
  {
    if n == 0 then 0.0
    else
      var it := key.iterations[n - 1];
      HandedTo(key, names, j, n - 1) + it.fraction * HandOut(Percentages(it, names), j)
  }

  lemma FixedNonnegative(percentages: seq<real>)
    requires IsDocumented(percentages)
    ensures Sum(FixedPart(percentages)) >= 0.0
    ensures forall j :: 0 <= j < |percentages| ==> FixedPart(percentages)[j] <= Sum(FixedPart(percentages))
  {
    SumNonnegative(FixedPart(percentages));
  }

  /** The multipliers of a timestep are both parts together. */
  lemma MultiplierParts(it: IterationInput, names: seq<string>, weights: Matrix, timesteps: nat, t: nat)
    requires HasConsumers(it, names) && |weights| == |names| && Rectangular(weights, timesteps) && t < timesteps
    ensures var p, w := Percentages(it, names), Column(weights, t);
            Sum(Column(Multipliers(it, names, weights), t)) == Sum(FixedPart(p)) + Sum(ProrataPart(p, w))
  {
    var p, w := Percentages(it, names), Column(weights, t);
    var m := Column(Multipliers(it, names, weights), t);
    forall j | 0 <= j < |m| ensures m[j] == FixedPart(p)[j] + ProrataPart(p, w)[j] {}
    SumPlus(FixedPart(p), ProrataPart(p, w), m);
  }

  function ScaledBy(factor: real, xs: seq<real>): (s: seq<real>)
    ensures |s| == |xs|
  {
    seq(|xs|, j requires 0 <= j < |xs| => factor * xs[j])
  }

  lemma SumScaledBy(factor: real, xs: seq<real>)
    ensures Sum(ScaledBy(factor, xs)) == factor * Sum(xs)
  {
    SumScale(factor, xs, ScaledBy(factor, xs));
  }

  lemma CombinedTerm(w: seq<real>, xs: seq<real>, factor: real, ys: seq<real>, zs: seq<real>, j: nat)
    requires |w| == |xs| == |ys| == |zs| && j < |w| && zs[j] == xs[j] + factor * ys[j]
    ensures Products(w, zs)[j] == Products(w, xs)[j] + ScaledBy(factor, Products(w, ys))[j]
  {
    WeighSum(w[j], xs[j], factor, ys[j]);
  }

  /** Products with a combination of two series. */
  lemma ProductsCombine(w: seq<real>, xs: seq<real>, factor: real, ys: seq<real>, zs: seq<real>)
    requires |w| == |xs| == |ys| == |zs|
    requires forall j :: 0 <= j < |w| ==> zs[j] == xs[j] + factor * ys[j]
    ensures Sum(Products(w, zs)) == Sum(Products(w, xs)) + factor * Sum(Products(w, ys))
  {
    hide Products, Sum, ScaledBy;
    forall j | 0 <= j < |w|
      ensures Products(w, zs)[j] == Products(w, xs)[j] + ScaledBy(factor, Products(w, ys))[j]
    {
      CombinedTerm(w, xs, factor, ys, zs, j);
    }
    SumPlus(Products(w, xs), ScaledBy(factor, Products(w, ys)), Products(w, zs));
    SumScaledBy(factor, Products(w, ys));
  }

  lemma WeighSum(w: real, x: real, factor: real, y: real)
    ensures w * (x + factor * y) == w * x + factor * (w * y)
  {
  }

  /** 1 for the PRORATA consumers, 0 for the others. */
  function IsProrataConsumer(percentages: seq<real>): (s: seq<real>)
    ensures |s| == |percentages|
  {
    seq(|percentages|, j requires 0 <= j < |percentages| => if percentages[j] > -1.0 then 0.0 else 1.0)
  }

  /** Where anything is consumed, their sum is the average of the hand-outs, weighted by the demands. */
  lemma MultipliersWeigh(p: seq<real>, w: seq<real>)
    requires |p| == |w| && Sum(w) == 1.0
    ensures Sum(FixedPart(p)) + Sum(ProrataPart(p, w)) == Sum(Products(w, HandOuts(p)))
  {
    var fixed := Sum(FixedPart(p));
    var ones := seq(|w|, _ => 1.0);
    assert Products(w, ones) == w;
    assert Products(w, IsProrataConsumer(p)) == ProrataPart(p, w);
    forall j | 0 <= j < |w| ensures HandOuts(p)[j] == IsProrataConsumer(p)[j] + fixed * ones[j] {}
    hide Sum, Products, HandOuts, ProrataPart, FixedPart, IsProrataConsumer;
    ProductsCombine(w, IsProrataConsumer(p), fixed, ones, HandOuts(p));
  }

  // ---- No run consumes more than the average of what is handed out ----

  /** The fractions, each times the sum of its iteration's multipliers. */
  function Weighted(fractions: seq<real>, sums: seq<real>, n: nat): real
    requires n <= |fractions| && n <= |sums|
  {
    if n == 0 then 0.0 else Weighted(fractions, sums, n - 1) + fractions[n - 1] * sums[n - 1]
  }

  lemma SurplusNonnegative(r: IterationResult, m: Matrix, timesteps: nat, t: nat)
    requires IsFlow(r, m, timesteps) && t < timesteps
    ensures r.surplus[t] >= 0.0 && r.residual[t] >= 0.0
  {
    assert IsColumn(r, m, t);
    forall j | 0 <= j < |m| ensures Column(Surpluses(r), t)[j] >= 0.0 && Column(Residuals(r), t)[j] >= 0.0 {
      assert IsCell(r, m, j, t);
    }
    hide IsFlow, IsCell, Sum;
    SumNonnegative(Column(Surpluses(r), t));
    SumNonnegative(Column(Residuals(r), t));
  }

  predicate IsFed(available: real, production: real, fraction: real, carried: real) {
    available == production * fraction + carried
  }

  predicate IsBalanced(available: real, sum: real, consumed: real, surplus: real) {
    available * sum == consumed + surplus
  }

  predicate IsHanded(energy: real, production: real, weighted: real) {
    energy <= production * weighted
  }

  lemma LinkedIsFed(fractions: seq<real>, consumption: Matrix, production: seq<real>, results: seq<IterationResult>,
        k: nat, t: nat)
    requires k < |results| <= |fractions| && t < |production|
    requires IsLinked(fractions, consumption, production, results, k)
    ensures t < |results[k].available| && (k > 0 ==> t < |results[k - 1].surplus|)
    ensures IsFed(results[k].available[t], production[t], fractions[k],
                  if k == 0 then 0.0 else results[k - 1].surplus[t])
  {
  }

  lemma FlowIsBalanced(r: IterationResult, m: Matrix, timesteps: nat, t: nat)
    requires IsFlow(r, m, timesteps) && t < timesteps
    ensures IsBalanced(r.available[t], Sum(Column(m, t)), r.consumed[t], r.surplus[t])
  {
    FlowBalance(r, m, timesteps, t);
  }

  lemma TurnBalance(fractions: seq<real>, m: seq<Matrix>, consumption: Matrix, production: seq<real>,
        results: seq<IterationResult>, k: nat, t: nat)
    requires IsChain(fractions, m, consumption, production, results) && k < |results| && t < |production|
    ensures AllShaped(results, m, |results|, |production|) && |results| <= |fractions|
    ensures k > 0 ==> results[k - 1].surplus[t] >= 0.0
    ensures IsFed(results[k].available[t], production[t], fractions[k],
                  if k == 0 then 0.0 else results[k - 1].surplus[t])
    ensures IsBalanced(results[k].available[t], Sum(Column(m[k], t)), results[k].consumed[t], results[k].surplus[t])
  {
    ChainIsShaped(fractions, m, consumption, production, results);
    ChainTurn(fractions, m, consumption, production, results, k);
    if k > 0 {
      ChainTurn(fractions, m, consumption, production, results, k - 1);
    }
    hide IsChain, IsFlow, IsLinked, Sum, Column, IsFed, IsBalanced;
    FlowIsBalanced(results[k], m[k], |production|, t);
    LinkedIsFed(fractions, consumption, production, results, k, t);
    if k > 0 {
      SurplusNonnegative(results[k - 1], m[k - 1], |production|, t);
    }
  }

  lemma NothingHanded(p: real)
    ensures IsHanded(0.0, p, 0.0)
  {
  }

  lemma NextIsHanded(p: real, f: real, sum: real, before: real, weighted: real, carried: real, available: real,
        consumed: real, surplus: real, energy: real, total: real)
    requires IsFed(available, p, f, carried) && IsBalanced(available, sum, consumed, surplus)
    requires carried >= 0.0 && (sum <= 1.0 || carried == 0.0) && IsHanded(before + carried, p, weighted)
    requires energy == before + consumed + surplus && total == weighted + f * sum
    ensures IsHanded(energy, p, total)
  {
    assert (p * f + carried) * sum == p * (f * sum) + carried * sum;
    assert carried * sum <= carried by {
      if carried != 0.0 {
        ProductNonnegative(carried, 1.0 - sum);
        assert carried * (1.0 - sum) == carried - carried * sum;
      }
    }
    assert p * (weighted + f * sum) == p * weighted + p * (f * sum);
  }

  /** Carried surplus is handed out at most once, where later multipliers sum to at most one. */
  lemma {:induction false} ChainHandsOut(fractions: seq<real>, m: seq<Matrix>, consumption: Matrix,
        production: seq<real>, results: seq<IterationResult>, sums: seq<real>, n: nat, t: nat)
    requires IsChain(fractions, m, consumption, production, results) && 0 < n <= |results| <= |sums|
    requires t < |production|
    requires forall k :: 0 <= k < |results| ==> sums[k] == Sum(Column(m[k], t))
    requires forall k :: 1 <= k < |results| ==> sums[k] <= 1.0
    ensures AllShaped(results, m, |results|, |production|) && |results| <= |fractions|
    ensures IsHanded(ConsumedAt(results, m, n, |production|, t) + results[n - 1].surplus[t], production[t],
                     Weighted(fractions, sums, n))
    decreases n
  {
    hide IsChain, Sum, Column, IsFed, IsBalanced, IsHanded;
    ChainIsShaped(fractions, m, consumption, production, results);
    TurnBalance(fractions, m, consumption, production, results, n - 1, t);
    var carried := if n == 1 then 0.0 else results[n - 2].surplus[t];
    if n > 1 {
      ChainHandsOut(fractions, m, consumption, production, results, sums, n - 1, t);
    } else {
      NothingHanded(production[t]);
    }
    NextIsHanded(production[t], fractions[n - 1], sums[n - 1], ConsumedAt(results, m, n - 1, |production|, t),
        Weighted(fractions, sums, n - 1), carried, results[n - 1].available[t], results[n - 1].consumed[t],
        results[n - 1].surplus[t], ConsumedAt(results, m, n, |production|, t) + results[n - 1].surplus[t],
        Weighted(fractions, sums, n));
  }

  /** What is handed out for each consumer by the first `n` iterations. */
  function HandedAll(key: KeyInput, names: seq<string>, n: nat): (s: seq<real>)
    requires n <= |key.iterations| && forall k :: 0 <= k < n ==> HasConsumers(key.iterations[k], names)
    ensures |s| == |names|
  {
    seq(|names|, j requires 0 <= j < |names| => HandedTo(key, names, j, n))
  }

  lemma HandedNext(key: KeyInput, names: seq<string>, n: nat, j: nat)
    requires 0 < n <= |key.iterations| && forall k :: 0 <= k < n ==> HasConsumers(key.iterations[k], names)
    requires j < |names|
    ensures var it := key.iterations[n - 1];
            HandedAll(key, names, n)[j] ==
            HandedAll(key, names, n - 1)[j] + it.fraction * HandOuts(Percentages(it, names))[j]
  {
    hide HandOut;
  }

  lemma HandedNone(key: KeyInput, names: seq<string>, w: seq<real>)
    requires |w| == |names|
    ensures Sum(Products(w, HandedAll(key, names, 0))) == 0.0
  {
    SumZero(Products(w, HandedAll(key, names, 0)));
  }

  lemma WeightedSnoc(fractions: seq<real>, sums: seq<real>, n: nat)
    requires 0 < n <= |fractions| && n <= |sums|
    ensures Weighted(fractions, sums, n) == Weighted(fractions, sums, n - 1) + fractions[n - 1] * sums[n - 1]
  {
  }

  lemma {:induction false} WeightedIsHanded(key: KeyInput, names: seq<string>, w: seq<real>, sums: seq<real>, n: nat)
    requires n <= |key.iterations| && n <= |sums| && |w| == |names|
    requires forall k :: 0 <= k < n ==> HasConsumers(key.iterations[k], names)
    requires forall k :: 0 <= k < n ==> sums[k] == Sum(Products(w, HandOuts(Percentages(key.iterations[k], names))))
    ensures Weighted(Fractions(key), sums, n) == Sum(Products(w, HandedAll(key, names, n)))
  {
    hide Products, Sum, HandOuts, HandedAll, HasConsumers, Percentages;
    if n == 0 {
      HandedNone(key, names, w);
    } else {
      WeightedIsHanded(key, names, w, sums, n - 1);
      WeightedSnoc(Fractions(key), sums, n);
      hide Weighted;
      var it := key.iterations[n - 1];
      forall j | 0 <= j < |w|
        ensures HandedAll(key, names, n)[j] ==
                HandedAll(key, names, n - 1)[j] + it.fraction * HandOuts(Percentages(it, names))[j]
      {
        HandedNext(key, names, n, j);
      }
      ProductsCombine(w, HandedAll(key, names, n - 1), it.fraction, HandOuts(Percentages(it, names)),
          HandedAll(key, names, n));
    }
  }

  lemma TermAtMost(w: seq<real>, xs: seq<real>, most: real, j: nat)
    requires |w| == |xs| && j < |w| && w[j] >= 0.0 && xs[j] <= most
    ensures Products(w, xs)[j] <= ScaledBy(most, w)[j]
  {
    ProductNonnegative(w[j], most - xs[j]);
    assert w[j] * (most - xs[j]) == most * w[j] - w[j] * xs[j];
  }

  /** A weighted average is at most its largest term. */
  lemma AverageAtMost(w: seq<real>, xs: seq<real>, most: real)
    requires |w| == |xs| && Sum(w) == 1.0
    requires forall j :: 0 <= j < |w| ==> w[j] >= 0.0 && xs[j] <= most
    ensures Sum(Products(w, xs)) <= most
  {
    hide Products, Sum, ScaledBy;
    SumScaledBy(most, w);
    forall j | 0 <= j < |w| ensures Products(w, xs)[j] <= ScaledBy(most, w)[j] {
      TermAtMost(w, xs, most, j);
    }
    SumAtMost(Products(w, xs), ScaledBy(most, w));
  }
}
