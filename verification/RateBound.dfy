/** The least bound of a key's sharing rate over all data, and exactly when it is one. */
module RateBound {
  import opened Sums
  import opened Cascade
  import opened Ledgers
  import opened Prorata
  import opened Rates
  import opened SharingRate
  import opened Handouts

  // ---- No run consumes more than the key can hand out ----

  /** Iterations behind the first hand out at most all they have. */
  ghost predicate LaterShare(key: KeyInput, names: seq<string>)
    requires AllHaveConsumers(key, names, |key.iterations|)
  {
    forall k, j :: 1 <= k < |key.iterations| && 0 <= j < |names| ==>
      HandOut(Percentages(key.iterations[k], names), j) <= 1.0
  }

  /** The key hands out at most `most` of the production, whichever consumer has the demand. */
  ghost predicate HandsAtMost(key: KeyInput, names: seq<string>, most: real)
    requires AllHaveConsumers(key, names, |key.iterations|)
  {
    forall j :: 0 <= j < |names| ==> HandedTo(key, names, j, |key.iterations|) <= most
  }

  /** What the multipliers of each iteration sum to at one timestep. */
  ghost function MultiplierSums(key: KeyInput, names: seq<string>, consumption: Matrix, timesteps: nat,
        t: nat): (s: seq<real>)
    requires Fits(key, names, consumption, timesteps) && t < timesteps
    ensures |s| == |key.iterations|
  {
    var m := KeyMultipliers(key, names, consumption, timesteps, |key.iterations|);
    seq(|m|, k requires 0 <= k < |m| => Sum(Column(m[k], t)))
  }

  lemma SumsWeigh(key: KeyInput, names: seq<string>, consumption: Matrix, timesteps: nat, t: nat, k: nat)
    requires Fits(key, names, consumption, timesteps) && t < timesteps && k < |key.iterations|
    requires Sum(Column(consumption, t)) != 0.0
    ensures var w := Column(Weights(consumption, timesteps), t);
            && Sum(w) == 1.0
            && MultiplierSums(key, names, consumption, timesteps, t)[k] ==
               Sum(Products(w, HandOuts(Percentages(key.iterations[k], names))))
  {
    var weights := Weights(consumption, timesteps);
    WeightsSum(consumption, timesteps, t);
    hide Sum, Products, Weights, FixedPart, ProrataPart, HandOuts;
    MultiplierParts(key.iterations[k], names, weights, timesteps, t);
    MultipliersWeigh(Percentages(key.iterations[k], names), Column(weights, t));
  }

  lemma WeightsNonnegative(consumption: Matrix, timesteps: nat, t: nat)
    requires Rectangular(consumption, timesteps) && t < timesteps
    requires forall i :: 0 <= i < |consumption| ==> consumption[i][t] >= 0.0
    ensures forall j :: 0 <= j < |consumption| ==> Column(Weights(consumption, timesteps), t)[j] >= 0.0
  {
    forall j | 0 <= j < |consumption| ensures Weights(consumption, timesteps)[j][t] >= 0.0 {
      WeightShare(consumption, timesteps, j, t);
    }
  }

  lemma SumsBounded(key: KeyInput, names: seq<string>, consumption: Matrix, timesteps: nat, t: nat, most: real)
    requires Fits(key, names, consumption, timesteps) && t < timesteps
    requires forall i :: 0 <= i < |consumption| ==> consumption[i][t] >= 0.0
    requires Sum(Column(consumption, t)) != 0.0 && LaterShare(key, names) && HandsAtMost(key, names, most)
    ensures var sums := MultiplierSums(key, names, consumption, timesteps, t);
            && Weighted(Fractions(key), sums, |key.iterations|) <= most
            && forall k :: 1 <= k < |key.iterations| ==> sums[k] <= 1.0
  {
    var w, sums := Column(Weights(consumption, timesteps), t), MultiplierSums(key, names, consumption, timesteps, t);
    WeightsNonnegative(consumption, timesteps, t);
    WeightsSum(consumption, timesteps, t);
    hide Sum, Products, Weights, HandOut, HandedTo, MultiplierSums, HasConsumers, Percentages;
    forall k | 0 <= k < |key.iterations|
      ensures sums[k] == Sum(Products(w, HandOuts(Percentages(key.iterations[k], names))))
      ensures k > 0 ==> sums[k] <= 1.0
    {
      SumsWeigh(key, names, consumption, timesteps, t, k);
      if k > 0 {
        AverageAtMost(w, HandOuts(Percentages(key.iterations[k], names)), 1.0);
      }
    }
    WeightedIsHanded(key, names, w, sums, |key.iterations|);
    AverageAtMost(w, HandedAll(key, names, |key.iterations|), most);
  }

  lemma LessIsHanded(energy: real, total: real, p: real, weighted: real, most: real)
    requires p >= 0.0 && energy <= total && weighted <= most && IsHanded(total, p, weighted)
    ensures IsHanded(energy, p, most)
  {
    ProductNonnegative(p, most - weighted);
    assert p * (most - weighted) == p * most - p * weighted;
  }

  lemma NothingIsHanded(energy: real, p: real, most: real)
    requires p >= 0.0 && most >= 0.0 && energy <= 0.0
    ensures IsHanded(energy, p, most)
  {
    ProductNonnegative(p, most);
  }

  lemma LastLeft(fractions: seq<real>, m: seq<Matrix>, consumption: Matrix, production: seq<real>,
        results: seq<IterationResult>, t: nat)
    requires IsChain(fractions, m, consumption, production, results) && results != [] && t < |production|
    ensures AllShaped(results, m, |results|, |production|) && |results| <= |fractions|
    ensures t < |results[|results| - 1].surplus| && t < |results[|results| - 1].residual|
    ensures results[|results| - 1].surplus[t] >= 0.0 && results[|results| - 1].residual[t] >= 0.0
  {
    ChainIsShaped(fractions, m, consumption, production, results);
    ChainTurn(fractions, m, consumption, production, results, |results| - 1);
    hide IsChain, IsFlow, IsLinked;
    SurplusNonnegative(results[|results| - 1], m[|results| - 1], |production|, t);
  }

  /** Without demand nothing is consumed. */
  lemma NoDemand(fractions: seq<real>, m: seq<Matrix>, consumption: Matrix, production: seq<real>,
        results: seq<IterationResult>, t: nat)
    requires IsChain(fractions, m, consumption, production, results) && results != [] && t < |production|
    requires Rectangular(consumption, |production|) && Sum(Column(consumption, t)) == 0.0
    ensures AllShaped(results, m, |results|, |production|)
    ensures ConsumedAt(results, m, |results|, |production|, t) <= 0.0
  {
    hide IsChain, ConsumedAt, Sum, Column;
    LastLeft(fractions, m, consumption, production, results, t);
    ChainDemand(fractions, m, consumption, production, results, |results|, t);
  }

  lemma ChainBound(fractions: seq<real>, m: seq<Matrix>, consumption: Matrix, production: seq<real>,
        results: seq<IterationResult>, sums: seq<real>, t: nat, most: real)
    requires IsChain(fractions, m, consumption, production, results) && 0 < |results| <= |sums| && t < |production|
    requires Rectangular(consumption, |production|) && production[t] >= 0.0
    requires forall k :: 0 <= k < |results| ==> sums[k] == Sum(Column(m[k], t))
    requires |results| <= |fractions| && Weighted(fractions, sums, |results|) <= most
    requires forall k :: 1 <= k < |results| ==> sums[k] <= 1.0
    ensures AllShaped(results, m, |results|, |production|)
    ensures IsHanded(ConsumedAt(results, m, |results|, |production|, t), production[t], most)
  {
    hide IsChain, IsHanded, IsShaped, AllShaped, Sum, Column, Weighted, ConsumedAt;
    LastLeft(fractions, m, consumption, production, results, t);
    ChainHandsOut(fractions, m, consumption, production, results, sums, |results|, t);
    var energy := ConsumedAt(results, m, |results|, |production|, t);
    LessIsHanded(energy, energy + results[|results| - 1].surplus[t], production[t],
        Weighted(fractions, sums, |results|), most);
  }

  /** No timestep consumes more than the bound of the production. */
  lemma TimestepBound(key: KeyInput, names: seq<string>, consumption: Matrix, production: seq<real>,
        results: seq<IterationResult>, t: nat, most: real)
    requires IsRun(key, names, consumption, production, results)
    requires NonnegativeAt(consumption, production, Fractions(key), t) && most >= 0.0
    requires AllHaveConsumers(key, names, |key.iterations|)
    requires LaterShare(key, names) && HandsAtMost(key, names, most)
    ensures IsHanded(RunConsumedAt(key, names, consumption, production, results, t), production[t], most)
  {
    var sums := MultiplierSums(key, names, consumption, |production|, t);
    var m := RunMultipliers(key, names, consumption, production, results);
    if Sum(Column(consumption, t)) == 0.0 {
      hide IsCascade, IsChain, IsHanded, Sum, Column, ConsumedAt;
      NoDemand(Fractions(key), m, consumption, production, results, t);
      NothingIsHanded(ConsumedAt(results, m, |results|, |production|, t), production[t], most);
    } else {
      SumsBounded(key, names, consumption, |production|, t, most);
      hide IsCascade, IsChain, IsHanded, Sum, Column, Weighted, ConsumedAt, LaterShare, HandsAtMost;
      ChainBound(Fractions(key), m, consumption, production, results, sums, t, most);
    }
  }

  lemma {:induction false} HandedInTotal(part: seq<real>, whole: seq<real>, most: real)
    requires |part| == |whole| && forall t :: 0 <= t < |part| ==> IsHanded(part[t], whole[t], most)
    ensures IsHanded(Sum(part), Sum(whole), most)
  {
    if part != [] {
      HandedInTotal(part[..|part| - 1], whole[..|whole| - 1], most);
    }
  }

  /** ... and so in total. */
  lemma KeyBound(key: KeyInput, names: seq<string>, consumption: Matrix, production: seq<real>,
        results: seq<IterationResult>, most: real)
    requires IsRun(key, names, consumption, production, results)
    requires NonnegativeData(key, consumption, production) && most >= 0.0
    requires AllHaveConsumers(key, names, |key.iterations|)
    requires LaterShare(key, names) && HandsAtMost(key, names, most)
    ensures IsHanded(KeyResultOf(key, results).consumedTotal, Sum(production), most)
  {
    hide IsCascade, RunMultipliers, Sum, ConsumedAt, LaterShare, HandsAtMost, IsHanded;
    var consumed := ConsumedSeries(results, RunMultipliers(key, names, consumption, production, results), |results|,
        |production|);
    KeyConsumed(key, names, consumption, production, results);
    forall t | 0 <= t < |production| ensures IsHanded(consumed[t], production[t], most) {
      TimestepBound(key, names, consumption, production, results, t, most);
    }
    HandedInTotal(consumed, production, most);
  }

  // ---- Which keys share, whatever the data ----

  /** No iteration hands out more than it has, whichever consumer has the demand. */
  ghost predicate AlwaysShares(key: KeyInput, names: seq<string>)
    requires AllHaveConsumers(key, names, |key.iterations|)
  {
    forall k, j :: 0 <= k < |key.iterations| && 0 <= j < |names| ==>
      HandOut(Percentages(key.iterations[k], names), j) <= 1.0
  }

  lemma MultipliersGive(it: IterationInput, names: seq<string>, consumption: Matrix, timesteps: nat, t: nat)
    requires HasConsumers(it, names) && IsDocumented(Percentages(it, names)) && |consumption| == |names|
    requires Rectangular(consumption, timesteps) && t < timesteps
    requires forall i :: 0 <= i < |consumption| ==> consumption[i][t] >= 0.0
    ensures IsGiving(Multipliers(it, names, Weights(consumption, timesteps)), t)
  {
    var m, p, w := Multipliers(it, names, Weights(consumption, timesteps)), Percentages(it, names),
        Weights(consumption, timesteps);
    WeightsNonnegative(consumption, timesteps, t);
    hide Sum, Weights;
    forall j | 0 <= j < |m| ensures t < |m[j]| && m[j][t] >= 0.0 {
      assert m[j][t] == if p[j] > -1.0 then p[j] else Column(w, t)[j];
    }
  }

  /** The multipliers of a documented key take nothing away, whatever nonnegative data it is run on. */
  lemma KeyGives(key: KeyInput, names: seq<string>, consumption: Matrix, production: seq<real>)
    requires IsKey(key, names) && Fits(key, names, consumption, |production|)
    requires NonnegativeData(key, consumption, production)
    ensures GivesData(key, names, consumption, production)
  {
    forall t | 0 <= t < |production| ensures GivesAt(key, names, consumption, |production|, t) {
      assert NonnegativeAt(consumption, production, Fractions(key), t);
      forall k | 0 <= k < |key.iterations|
        ensures IsGiving(KeyMultipliers(key, names, consumption, |production|, |key.iterations|)[k], t)
      {
        hide IsGiving, Weights, Percentages, HasConsumers, IsDocumented;
        MultipliersGive(key.iterations[k], names, consumption, |production|, t);
      }
    }
  }

  lemma SumIsShared(key: KeyInput, names: seq<string>, consumption: Matrix, timesteps: nat, t: nat, k: nat)
    requires IsKey(key, names) && AlwaysShares(key, names) && Fits(key, names, consumption, timesteps)
    requires t < timesteps && k < |key.iterations|
    requires forall i :: 0 <= i < |consumption| ==> consumption[i][t] >= 0.0
    ensures MultiplierSums(key, names, consumption, timesteps, t)[k] <= 1.0
  {
    var w, p := Column(Weights(consumption, timesteps), t), Percentages(key.iterations[k], names);
    if Sum(Column(consumption, t)) != 0.0 {
      hide Sum, Weights, HandOut, MultiplierSums, HasConsumers, Percentages;
      WeightsNonnegative(consumption, timesteps, t);
      SumsWeigh(key, names, consumption, timesteps, t, k);
      AverageAtMost(w, HandOuts(p), 1.0);
    } else {
      MultiplierParts(key.iterations[k], names, Weights(consumption, timesteps), timesteps, t);
      NoWeights(p, consumption, timesteps, t);
      if names != [] {
        assert HandOut(p, 0) <= 1.0;
      }
    }
  }

  lemma NoWeights(p: seq<real>, consumption: Matrix, timesteps: nat, t: nat)
    requires Rectangular(consumption, timesteps) && t < timesteps && |p| == |consumption|
    requires Sum(Column(consumption, t)) == 0.0
    ensures Sum(ProrataPart(p, Column(Weights(consumption, timesteps), t))) == 0.0
  {
    SumZero(ProrataPart(p, Column(Weights(consumption, timesteps), t)));
  }

  /** ... and hand out at most all there is, when no iteration can hand out more than it has. */
  lemma KeyShares(key: KeyInput, names: seq<string>, consumption: Matrix, production: seq<real>)
    requires IsKey(key, names) && AlwaysShares(key, names) && Fits(key, names, consumption, |production|)
    requires NonnegativeData(key, consumption, production)
    ensures SharesData(key, names, consumption, production)
  {
    KeyGives(key, names, consumption, production);
    var T := |production|;
    forall t | 0 <= t < T ensures SharesAt(key, names, consumption, T, t) {
      assert GivesAt(key, names, consumption, T, t);
      assert NonnegativeAt(consumption, production, Fractions(key), t);
      var m := KeyMultipliers(key, names, consumption, T, |key.iterations|);
      forall k | 0 <= k < |m| ensures IsSharing(m[k], t) {
        assert IsGiving(m[k], t);
        SumIsShared(key, names, consumption, T, t, k);
        assert MultiplierSums(key, names, consumption, T, t)[k] == Sum(Column(m[k], t));
      }
    }
  }

  // ---- Demand no iteration meets ----

  function FixedSums(key: KeyInput, names: seq<string>, n: nat): real
    requires n <= |key.iterations| && forall k :: 0 <= k < n ==> HasConsumers(key.iterations[k], names)
  {
    if n == 0 then 0.0
    else FixedSums(key, names, n - 1) + Sum(FixedPart(Percentages(key.iterations[n - 1], names)))
  }

  lemma {:induction false} FixedSumsBound(key: KeyInput, names: seq<string>, n: nat, k: nat)
    requires IsKey(key, names) && k < n <= |key.iterations|
    ensures 0.0 <= Sum(FixedPart(Percentages(key.iterations[k], names))) <= FixedSums(key, names, n)
    decreases n
  {
    hide HasConsumers, Percentages, FixedPart, Sum;
    FixedNonnegative(Percentages(key.iterations[n - 1], names));
    if k < n - 1 {
      FixedSumsBound(key, names, n - 1, k);
    } else if n > 1 {
      FixedSumsBound(key, names, n - 1, 0);
    }
  }

  /** The fractions from the `k`-th on. */
  function Rest(fractions: seq<real>, k: nat): real
    requires k <= |fractions|
    decreases |fractions| - k
  {
    if k == |fractions| then 0.0 else fractions[k] + Rest(fractions, k + 1)
  }

  lemma {:induction false} RestNonnegative(fractions: seq<real>, k: nat)
    requires k <= |fractions| && forall i :: 0 <= i < |fractions| ==> fractions[i] >= 0.0
    ensures Rest(fractions, k) >= 0.0
    ensures k == 0 && fractions != [] ==> Rest(fractions, 0) >= fractions[0]
    decreases |fractions| - k
  {
    if k < |fractions| {
      RestNonnegative(fractions, k + 1);
    }
  }

  /** A demand that the rest of the production cannot meet, whatever multiple up to `most` of it is allotted. */
  predicate IsUnmet(demand: real, most: real, rest: real) {
    demand >= most * rest
  }

  predicate IsWithin(m: Matrix, most: real) {
    forall j :: 0 <= j < |m| ==> m[j] != [] && 0.0 <= m[j][0] <= most
  }

  lemma UnmetCell(demand: real, f: real, m: real, most: real, rest: real)
    requires 0.0 <= m <= most && f >= 0.0 && rest >= 0.0 && IsUnmet(demand, most, f + rest)
    ensures Relu(f * m - demand) == 0.0 && IsUnmet(Relu(demand - f * m), most, rest)
  {
    ProductNonnegative(f, most - m);
    ProductNonnegative(most, rest);
    assert most * (f + rest) == most * f + most * rest && f * (most - m) == most * f - f * m;
  }

  lemma UnmetConsumer(r: IterationResult, m: Matrix, j: nat, f: real, most: real, rest: real)
    requires IsShaped(r, m, 1) && j < |m| && IsCell(r, m, j, 0) && IsWithin(m, most)
    requires IsUnmet(r.consumers[j].consumption[0], most, f + rest) && f >= 0.0 && rest >= 0.0
    requires r.available[0] == f
    ensures r.consumers[j].surplus[0] == 0.0 && IsUnmet(r.consumers[j].residual[0], most, rest)
  {
    hide Relu, IsUnmet;
    UnmetCell(r.consumers[j].consumption[0], f, m[j][0], most, rest);
  }

  ghost predicate IsUnmetBy(r: IterationResult, m: Matrix, f: real, most: real, rest: real) {
    && IsShaped(r, m, 1)
    && r.available[0] == f && r.surplus[0] == 0.0
    && forall j :: 0 <= j < |m| ==> IsUnmet(r.consumers[j].residual[0], most, rest)
  }

  lemma UnmetIteration(r: IterationResult, m: Matrix, f: real, most: real, rest: real)
    requires IsFlow(r, m, 1) && IsWithin(m, most) && r.available[0] == f && f >= 0.0 && rest >= 0.0
    requires forall j :: 0 <= j < |m| ==> IsUnmet(r.consumers[j].consumption[0], most, f + rest)
    ensures IsUnmetBy(r, m, f, most, rest)
  {
    assert IsColumn(r, m, 0);
    forall j | 0 <= j < |m|
      ensures Column(Surpluses(r), 0)[j] == 0.0
      ensures IsUnmet(r.consumers[j].residual[0], most, rest)
    {
      assert IsCell(r, m, j, 0);
      hide IsFlow, IsCell, IsColumn, IsUnmet, Sum;
      UnmetConsumer(r, m, j, f, most, rest);
    }
    hide IsFlow, IsUnmet, Sum;
    SumZero(Column(Surpluses(r), 0));
  }

  lemma FedAlone(available: real, f: real)
    requires IsFed(available, 1.0, f, 0.0)
    ensures available == f
  {
  }

  /** A demand too high for the whole chain leaves no surplus anywhere. */
  lemma {:induction false} UnmetTurn(fractions: seq<real>, m: seq<Matrix>, consumption: Matrix,
        results: seq<IterationResult>, most: real, k: nat)
    requires IsChain(fractions, m, consumption, [1.0], results) && k < |results|
    requires forall i :: 0 <= i < |fractions| ==> fractions[i] >= 0.0
    requires forall i :: 0 <= i < |results| ==> IsWithin(m[i], most)
    requires forall i :: 0 <= i < |consumption| ==> IsUnmet(consumption[i][0], most, Rest(fractions, 0))
    ensures |results| <= |fractions| && IsUnmetBy(results[k], m[k], fractions[k], most, Rest(fractions, k + 1))
    decreases k
  {
    hide IsUnmet, IsWithin, IsFed, IsBalanced, Sum, IsCell, IsColumn;
    ChainTurn(fractions, m, consumption, [1.0], results, k);
    if k > 0 {
      UnmetTurn(fractions, m, consumption, results, most, k - 1);
    }
    RestNonnegative(fractions, k + 1);
    TurnBalance(fractions, m, consumption, [1.0], results, k, 0);
    var r, f, rest := results[k], fractions[k], Rest(fractions, k + 1);
    hide IsFlow, IsLinked;
    FedAlone(r.available[0], f);
    forall j | 0 <= j < |m[k]| ensures IsUnmet(r.consumers[j].consumption[0], most, f + rest) {
      LinkedCell(fractions, m, consumption, [1.0], results, k, j, 0);
    }
    UnmetIteration(r, m[k], f, most, rest);
  }

  predicate IsShareOf(x: real, share: real, total: real) {
    x == share * total
  }

  lemma BalancedAlone(f: real, sum: real, consumed: real)
    requires IsBalanced(f, sum, consumed, 0.0)
    ensures IsShareOf(consumed, f, sum)
  {
  }

  lemma UnmetConsumed(fractions: seq<real>, m: seq<Matrix>, consumption: Matrix, results: seq<IterationResult>,
        most: real, k: nat)
    requires IsChain(fractions, m, consumption, [1.0], results) && k < |results|
    requires forall i :: 0 <= i < |fractions| ==> fractions[i] >= 0.0
    requires forall i :: 0 <= i < |results| ==> IsWithin(m[i], most)
    requires forall i :: 0 <= i < |consumption| ==> IsUnmet(consumption[i][0], most, Rest(fractions, 0))
    ensures AllShaped(results, m, |results|, 1) && |results| <= |fractions|
    ensures IsShareOf(results[k].consumed[0], fractions[k], Sum(Column(m[k], 0)))
  {
    hide IsFlow, IsLinked, Sum, Column, IsBalanced, IsFed, IsUnmet, IsWithin, Rest, IsShareOf;
    ChainIsShaped(fractions, m, consumption, [1.0], results);
    UnmetTurn(fractions, m, consumption, results, most, k);
    hide IsChain;
    TurnBalance(fractions, m, consumption, [1.0], results, k, 0);
    BalancedAlone(fractions[k], Sum(Column(m[k], 0)), results[k].consumed[0]);
  }

  /** So it takes all that is handed out. */
  lemma {:induction false} UnmetConsumes(fractions: seq<real>, m: seq<Matrix>, consumption: Matrix,
        results: seq<IterationResult>, sums: seq<real>, most: real, n: nat)
    requires IsChain(fractions, m, consumption, [1.0], results) && n <= |results| <= |sums|
    requires forall i :: 0 <= i < |fractions| ==> fractions[i] >= 0.0
    requires forall k :: 0 <= k < |results| ==> IsWithin(m[k], most) && sums[k] == Sum(Column(m[k], 0))
    requires forall i :: 0 <= i < |consumption| ==> IsUnmet(consumption[i][0], most, Rest(fractions, 0))
    ensures AllShaped(results, m, |results|, 1) && |results| <= |fractions|
    ensures ConsumedAt(results, m, n, 1, 0) == Weighted(fractions, sums, n)
    decreases n
  {
    hide IsFlow, IsLinked, Sum, Column, IsUnmet, IsWithin, Rest;
    ChainIsShaped(fractions, m, consumption, [1.0], results);
    if n > 0 {
      UnmetConsumes(fractions, m, consumption, results, sums, most, n - 1);
      UnmetConsumed(fractions, m, consumption, results, most, n - 1);
    }
  }

  // ---- Nearly all demand with one consumer ----

  predicate IsAtLeast(x: real, share: real, y: real) {
    x >= share * y
  }

  lemma PartsAreAtLeast(fixed: real, prorata: real, w: real, own: real, handOut: real)
    requires fixed >= 0.0 && w <= 1.0 && prorata >= w * own && handOut == fixed + own
    ensures IsAtLeast(fixed + prorata, w, handOut)
  {
    ProductNonnegative(fixed, 1.0 - w);
    assert fixed * (1.0 - w) == fixed - w * fixed;
    assert w * (fixed + own) == w * fixed + w * own;
  }

  /** An iteration hands out at least the consumer's weight of what it does when that has all the demand. */
  lemma SumIsAtLeast(p: seq<real>, w: seq<real>, j: nat)
    requires |p| == |w| && j < |p| && IsDocumented(p) && w[j] <= 1.0
    requires forall i :: 0 <= i < |w| ==> w[i] >= 0.0
    ensures IsAtLeast(Sum(FixedPart(p)) + Sum(ProrataPart(p, w)), w[j], HandOut(p, j))
  {
    FixedNonnegative(p);
    SumNonnegative(ProrataPart(p, w));
    assert ProrataPart(p, w)[j] <= Sum(ProrataPart(p, w));
    hide Sum, IsAtLeast;
    PartsAreAtLeast(Sum(FixedPart(p)), Sum(ProrataPart(p, w)), w[j], if p[j] > -1.0 then 0.0 else 1.0, HandOut(p, j));
  }

  lemma NextIsAtLeast(x: real, share: real, y: real, f: real, sum: real, handOut: real, nextX: real, nextY: real)
    requires IsAtLeast(x, share, y) && IsAtLeast(sum, share, handOut) && f >= 0.0
    requires nextX == x + f * sum && nextY == y + f * handOut
    ensures IsAtLeast(nextX, share, nextY)
  {
    ProductNonnegative(f, sum - share * handOut);
    assert f * (sum - share * handOut) == f * sum - share * (f * handOut);
    assert share * (y + f * handOut) == share * y + share * (f * handOut);
  }

  lemma NothingIsAtLeast(share: real)
    ensures IsAtLeast(0.0, share, 0.0)
  {
  }

  lemma {:induction false} WeightedIsAtLeast(key: KeyInput, names: seq<string>, sums: seq<real>, share: real, j: nat,
        n: nat)
    requires IsKey(key, names) && j < |names| && n <= |key.iterations| && n <= |sums|
    requires forall k :: 0 <= k < n ==> IsAtLeast(sums[k], share, HandOut(Percentages(key.iterations[k], names), j))
    ensures IsAtLeast(Weighted(Fractions(key), sums, n), share, HandedTo(key, names, j, n))
  {
    hide IsAtLeast, HandOut, Percentages, HasConsumers;
    if n == 0 {
      NothingIsAtLeast(share);
    } else {
      WeightedIsAtLeast(key, names, sums, share, j, n - 1);
      NextIsAtLeast(Weighted(Fractions(key), sums, n - 1), share, HandedTo(key, names, j, n - 1),
          key.iterations[n - 1].fraction, sums[n - 1], HandOut(Percentages(key.iterations[n - 1], names), j),
          Weighted(Fractions(key), sums, n), HandedTo(key, names, j, n));
    }
  }

  /** One timestep in which consumer `j` demands `high` and every other `low`. */
  function Demand(n: nat, j: nat, low: real, high: real): (m: Matrix)
    ensures |m| == n && Rectangular(m, 1)
  {
    seq(n, i => [if i == j then high else low])
  }

  function Times(n: nat, x: real): real {
    if n == 0 then 0.0 else Times(n - 1, x) + x
  }

  lemma {:induction false} TimesAtLeast(n: nat, x: real)
    requires x >= 0.0
    ensures Times(n, x) >= if n == 0 then 0.0 else x
  {
    if n > 0 {
      TimesAtLeast(n - 1, x);
    }
  }

  lemma {:induction false} SumOfDemand(n: nat, j: nat, low: real, high: real)
    ensures Sum(Column(Demand(n, j, low, high), 0)) == Times(n, low) + if j < n then high - low else 0.0
  {
    if n > 0 {
      SumOfDemand(n - 1, j, low, high);
      assert Column(Demand(n, j, low, high), 0) ==
             Column(Demand(n - 1, j, low, high), 0) + [if n - 1 == j then high else low];
      SumSnoc(Column(Demand(n - 1, j, low, high), 0), if n - 1 == j then high else low);
    }
  }

  /** How high the demand of one must be for its weight to come near enough to 1. */
  function HighDemand(all: real, low: real, least: real, handed: real): real
    requires handed > least
  {
    low + least * all / (handed - least)
  }

  lemma HighEnough(all: real, low: real, least: real, handed: real, total: real)
    requires all >= low > 0.0 && 0.0 <= least < handed
    requires total == all + (HighDemand(all, low, least, handed) - low)
    ensures HighDemand(all, low, least, handed) >= low && total > 0.0
    ensures HighDemand(all, low, least, handed) * handed > least * total
  {
    var q := least * all / (handed - least);
    ProductNonnegative(least, all);
    QuotientNonnegative(least * all, handed - least);
    TimesQuotient(least * all, handed - least);
    assert (low + q) * handed - least * (all + q) == low * handed + q * (handed - least) - least * all;
    assert low * handed > 0.0;
  }

  lemma WeightsAtMostOne(consumption: Matrix, timesteps: nat, t: nat)
    requires Rectangular(consumption, timesteps) && t < timesteps
    requires forall i :: 0 <= i < |consumption| ==> consumption[i][t] >= 0.0
    ensures forall j :: 0 <= j < |consumption| ==> 0.0 <= Column(Weights(consumption, timesteps), t)[j] <= 1.0
  {
    WeightsNonnegative(consumption, timesteps, t);
    WeightsSum(consumption, timesteps, t);
    hide Sum, Weights;
    SumNonnegative(Column(Weights(consumption, timesteps), t));
  }

  lemma IterationWithin(it: IterationInput, names: seq<string>, consumption: Matrix, most: real)
    requires HasConsumers(it, names) && IsDocumented(Percentages(it, names)) && |consumption| == |names|
    requires Rectangular(consumption, 1) && forall i :: 0 <= i < |consumption| ==> consumption[i][0] >= 0.0
    requires most >= 1.0 && most >= Sum(FixedPart(Percentages(it, names)))
    ensures IsWithin(Multipliers(it, names, Weights(consumption, 1)), most)
  {
    var m, p, w := Multipliers(it, names, Weights(consumption, 1)), Percentages(it, names), Weights(consumption, 1);
    WeightsAtMostOne(consumption, 1, 0);
    FixedNonnegative(p);
    hide Sum, Weights;
    forall j | 0 <= j < |m| ensures m[j] != [] && 0.0 <= m[j][0] <= most {
      assert m[j][0] == if p[j] > -1.0 then FixedPart(p)[j] else Column(w, 0)[j];
    }
  }

  /** Demands as high as that, in one timestep. */
  ghost predicate IsUnmetData(key: KeyInput, names: seq<string>, consumption: Matrix)
    requires AllHaveConsumers(key, names, |key.iterations|)
  {
    forall i :: 0 <= i < |consumption| ==>
      && |consumption[i]| == 1 && consumption[i][0] >= 0.0
      && IsUnmet(consumption[i][0], 1.0 + FixedSums(key, names, |key.iterations|), Rest(Fractions(key), 0))
  }

  lemma KeyWithin(key: KeyInput, names: seq<string>, consumption: Matrix)
    requires IsKey(key, names) && |consumption| == |names| && IsUnmetData(key, names, consumption)
    ensures Fits(key, names, consumption, 1)
    ensures var m := KeyMultipliers(key, names, consumption, 1, |key.iterations|);
            forall k :: 0 <= k < |m| ==> IsWithin(m[k], 1.0 + FixedSums(key, names, |key.iterations|))
  {
    var m, n := KeyMultipliers(key, names, consumption, 1, |key.iterations|), |key.iterations|;
    forall k | 0 <= k < n ensures IsWithin(m[k], 1.0 + FixedSums(key, names, n)) {
      hide FixedSums, Sum, IsWithin, Percentages, FixedPart;
      FixedSumsBound(key, names, n, k);
      IterationWithin(key.iterations[k], names, consumption, 1.0 + FixedSums(key, names, n));
    }
  }

  /** With one timestep, the total is what that timestep consumes. */
  lemma OneTimestep(key: KeyInput, names: seq<string>, consumption: Matrix, results: seq<IterationResult>)
    requires IsRun(key, names, consumption, [1.0], results)
    ensures KeyResultOf(key, results).consumedTotal == RunConsumedAt(key, names, consumption, [1.0], results, 0)
  {
    hide IsCascade, IsChain, Sum, ConsumedAt, KeyResultOf;
    KeyConsumed(key, names, consumption, [1.0], results);
    var m := RunMultipliers(key, names, consumption, [1.0], results);
    var x := RunConsumedAt(key, names, consumption, [1.0], results, 0);
    assert ConsumedSeries(results, m, |results|, 1) == [x];
    SumOfOneTerm(x);
  }

  lemma SumsOfRun(key: KeyInput, names: seq<string>, consumption: Matrix, results: seq<IterationResult>)
    requires IsRun(key, names, consumption, [1.0], results)
    ensures Fits(key, names, consumption, 1)
    ensures var m := RunMultipliers(key, names, consumption, [1.0], results);
            forall k :: 0 <= k < |m| ==> MultiplierSums(key, names, consumption, 1, 0)[k] == Sum(Column(m[k], 0))
  {
    hide IsChain, Sum, Column;
    assert AllHaveConsumers(key, names, |RunMultipliers(key, names, consumption, [1.0], results)|);
  }

  /** A demand too high for the key consumes all that is handed out. */
  lemma UnmetRun(key: KeyInput, names: seq<string>, consumption: Matrix, results: seq<IterationResult>)
    requires IsKey(key, names) && IsRun(key, names, consumption, [1.0], results)
    requires |consumption| == |names| && IsUnmetData(key, names, consumption)
    ensures Fits(key, names, consumption, 1)
    ensures KeyResultOf(key, results).consumedTotal ==
            Weighted(Fractions(key), MultiplierSums(key, names, consumption, 1, 0), |key.iterations|)
  {
    KeyWithin(key, names, consumption);
    hide IsCascade, IsChain, IsUnmet, IsWithin, Sum, Column, Weighted, FixedSums, MultiplierSums, KeyResultOf,
        ConsumedAt, Rest, Weights;
    OneTimestep(key, names, consumption, results);
    SumsOfRun(key, names, consumption, results);
    UnmetConsumes(Fractions(key), RunMultipliers(key, names, consumption, [1.0], results), consumption, results,
        MultiplierSums(key, names, consumption, 1, 0), 1.0 + FixedSums(key, names, |results|), |results|);
  }

  lemma CancelPositive(a: real, b: real, c: real)
    requires a * c > b * c && c > 0.0
    ensures a > b
  {
    if a <= b {
      ProductNonnegative(b - a, c);
    }
  }

  predicate IsDominant(high: real, handed: real, least: real, total: real) {
    total > 0.0 && high * handed > least * total
  }

  lemma WeightIsShare(consumption: Matrix, j: nat)
    requires Rectangular(consumption, 1) && j < |consumption|
    requires forall i :: 0 <= i < |consumption| ==> consumption[i][0] >= 0.0
    ensures IsShareOf(consumption[j][0], Weights(consumption, 1)[j][0], Sum(Column(consumption, 0)))
  {
    WeightShare(consumption, 1, j, 0);
  }

  lemma NearEnough(x: real, w: real, handed: real, high: real, least: real, total: real)
    requires IsAtLeast(x, w, handed) && IsShareOf(high, w, total) && IsDominant(high, handed, least, total)
    ensures x > least
  {
    ProductNonnegative(x - w * handed, total);
    assert (x - w * handed) * total == x * total - w * total * handed;
    CancelPositive(x, least, total);
  }

  lemma TurnIsAtLeast(key: KeyInput, names: seq<string>, consumption: Matrix, j: nat, k: nat)
    requires IsKey(key, names) && Fits(key, names, consumption, 1) && j < |names| && k < |key.iterations|
    requires forall i :: 0 <= i < |consumption| ==> consumption[i][0] >= 0.0
    ensures IsAtLeast(MultiplierSums(key, names, consumption, 1, 0)[k], Weights(consumption, 1)[j][0],
                      HandOut(Percentages(key.iterations[k], names), j))
  {
    var it, weights := key.iterations[k], Weights(consumption, 1);
    assert MultiplierSums(key, names, consumption, 1, 0)[k] == Sum(Column(Multipliers(it, names, weights), 0));
    WeightsAtMostOne(consumption, 1, 0);
    hide Sum, Weights, IsAtLeast, HandOut, FixedPart, ProrataPart, MultiplierSums, Multipliers;
    MultiplierParts(it, names, weights, 1, 0);
    SumIsAtLeast(Percentages(it, names), Column(weights, 0), j);
  }

  /** The iterations of such a run hand out at least the weight of `j` of what they can. */
  lemma RunIsAtLeast(key: KeyInput, names: seq<string>, consumption: Matrix, j: nat)
    requires IsKey(key, names) && Fits(key, names, consumption, 1) && j < |names|
    requires forall i :: 0 <= i < |consumption| ==> consumption[i][0] >= 0.0
    ensures IsAtLeast(Weighted(Fractions(key), MultiplierSums(key, names, consumption, 1, 0), |key.iterations|),
                      Weights(consumption, 1)[j][0], HandedTo(key, names, j, |key.iterations|))
  {
    var share, sums := Weights(consumption, 1)[j][0], MultiplierSums(key, names, consumption, 1, 0);
    hide Weights, IsAtLeast, MultiplierSums, HandOut;
    forall k | 0 <= k < |key.iterations|
      ensures IsAtLeast(sums[k], share, HandOut(Percentages(key.iterations[k], names), j))
    {
      TurnIsAtLeast(key, names, consumption, j, k);
    }
    WeightedIsAtLeast(key, names, sums, share, j, |key.iterations|);
  }

  lemma DemandData(key: KeyInput, names: seq<string>, j: nat, low: real, high: real)
    requires IsKey(key, names) && 0.0 <= low <= high
    ensures NonnegativeData(key, Demand(|names|, j, low, high), [1.0])
  {
  }

  lemma LowIsUnmet(key: KeyInput, names: seq<string>, most: real, low: real)
    requires IsKey(key, names) && most == 1.0 + FixedSums(key, names, |key.iterations|)
    requires low == most * Rest(Fractions(key), 0) + 1.0
    ensures low >= 1.0 && IsUnmet(low, most, Rest(Fractions(key), 0))
  {
    FixedSumsBound(key, names, |key.iterations|, 0);
    RestNonnegative(Fractions(key), 0);
    ProductNonnegative(most, Rest(Fractions(key), 0));
  }

  lemma DominantDemand(n: nat, j: nat, low: real, least: real, handed: real) returns (high: real)
    requires j < n && low > 0.0 && 0.0 <= least < handed
    ensures high >= low && IsDominant(high, handed, least, Sum(Column(Demand(n, j, low, high), 0)))
  {
    hide Sum, Column, Demand, HighDemand;
    high := HighDemand(Times(n, low), low, least, handed);
    TimesAtLeast(n, low);
    SumOfDemand(n, j, low, high);
    HighEnough(Times(n, low), low, least, handed, Sum(Column(Demand(n, j, low, high), 0)));
  }

  lemma DominantConsumes(key: KeyInput, names: seq<string>, consumption: Matrix, results: seq<IterationResult>, j: nat,
        least: real)
    requires IsKey(key, names) && IsRun(key, names, consumption, [1.0], results) && j < |names|
    requires |consumption| == |names| && Rectangular(consumption, 1) && IsUnmetData(key, names, consumption)
    requires IsDominant(consumption[j][0], HandedTo(key, names, j, |key.iterations|), least,
                        Sum(Column(consumption, 0)))
    ensures KeyResultOf(key, results).consumedTotal > least
  {
    hide IsCascade, Sum, Column, Weighted, Weights, MultiplierSums, FixedSums, HandedTo, IsAtLeast, IsUnmet, IsShareOf,
        IsDominant, KeyResultOf, Rest;
    UnmetRun(key, names, consumption, results);
    RunIsAtLeast(key, names, consumption, j);
    WeightIsShare(consumption, j);
    NearEnough(KeyResultOf(key, results).consumedTotal, Weights(consumption, 1)[j][0],
        HandedTo(key, names, j, |key.iterations|), consumption[j][0], least, Sum(Column(consumption, 0)));
  }

  /**
   * Whatever is less than what the key hands out when consumer `j` has all the demand, there are
   * data for which it consumes more, of a production of 1.
   */
  lemma Exceeds(key: KeyInput, names: seq<string>, j: nat, least: real)
    returns (consumption: Matrix, results: seq<IterationResult>)
    requires IsKey(key, names) && j < |names| && 0.0 <= least < HandedTo(key, names, j, |key.iterations|)
    ensures IsRun(key, names, consumption, [1.0], results) && NonnegativeData(key, consumption, [1.0])
    ensures KeyResultOf(key, results).consumedTotal > least
  {
    var handed, most := HandedTo(key, names, j, |key.iterations|), 1.0 + FixedSums(key, names, |key.iterations|);
    var low := most * Rest(Fractions(key), 0) + 1.0;
    LowIsUnmet(key, names, most, low);
    var high := DominantDemand(|names|, j, low, least, handed);
    consumption := Demand(|names|, j, low, high);
    DemandData(key, names, j, low, high);
    results := CascadeExists(key, names, consumption, [1.0], |key.iterations|);
    assert consumption[j][0] == high;
    assert IsUnmetData(key, names, consumption);
    hide IsCascade, NonnegativeData, Sum, FixedSums, HandedTo, IsUnmetData, IsDominant, Rest, KeyResultOf, Demand;
    DominantConsumes(key, names, consumption, results, j, least);
  }

  // ---- The bound is exact ----

  /** No nonnegative data give the key a sharing rate above `bound`. */
  ghost predicate NeverAbove(key: KeyInput, names: seq<string>, bound: real) {
    forall consumption, production, results ::
      IsRun(key, names, consumption, production, results) && NonnegativeData(key, consumption, production) ==>
        KeyResultOf(key, results).sharingRateTotal <= bound
  }

  lemma RateAtMost(consumed: real, available: real, rate: real, bound: real)
    requires available >= 0.0 && bound >= 0.0 && rate == if available != 0.0 then consumed / available else 0.0
    ensures rate <= bound <==> available == 0.0 || consumed <= bound * available
  {
    if available != 0.0 {
      TimesQuotient(consumed, available);
      if rate <= bound {
        ProductNonnegative(bound - rate, available);
        assert (bound - rate) * available == bound * available - rate * available;
      }
      if consumed <= bound * available {
        QuotientNonnegative(bound * available - consumed, available);
        assert (bound * available - consumed) / available == bound - consumed / available;
      }
    }
  }

  lemma HandedIsBounded(energy: real, production: real, first: real, bound: real)
    requires IsHanded(energy, production, bound * first)
    ensures energy <= bound * (first * production)
  {
  }

  lemma BoundHolds(key: KeyInput, names: seq<string>, bound: real, consumption: Matrix, production: seq<real>,
        results: seq<IterationResult>)
    requires IsKey(key, names) && LaterShare(key, names) && bound >= 0.0
    requires key.iterations[0].fraction == 0.0 || HandsAtMost(key, names, bound * key.iterations[0].fraction)
    requires IsRun(key, names, consumption, production, results) && NonnegativeData(key, consumption, production)
    ensures KeyResultOf(key, results).sharingRateTotal <= bound
  {
    var first, r := key.iterations[0].fraction, KeyResultOf(key, results);
    FirstEnergyAvailable(key, names, consumption, production, results);
    FirstEnergyNonnegative(key, consumption, production);
    if first != 0.0 {
      ProductNonnegative(bound, first);
      hide IsCascade, LaterShare, HandsAtMost, NonnegativeData, Sum, IsHanded;
      KeyBound(key, names, consumption, production, results, bound * first);
      HandedIsBounded(r.consumedTotal, Sum(production), first, bound);
    }
    RateAtMost(r.consumedTotal, r.availableTotal, r.sharingRateTotal, bound);
  }

  /**
   * Any bound of the sharing rate of a key is at least what the key hands out, over its first
   * fraction, whichever consumer has the demand.
   */
  lemma BoundIsNeeded(key: KeyInput, names: seq<string>, bound: real)
    requires IsKey(key, names) && bound >= 0.0 && NeverAbove(key, names, bound)
    ensures key.iterations[0].fraction == 0.0 || HandsAtMost(key, names, bound * key.iterations[0].fraction)
  {
    var first := key.iterations[0].fraction;
    if first != 0.0 && !HandsAtMost(key, names, bound * first) {
      var j :| 0 <= j < |names| && HandedTo(key, names, j, |key.iterations|) > bound * first;
      ProductNonnegative(bound, first);
      hide IsCascade, HandsAtMost, HandedTo, NonnegativeData, Sum;
      var consumption, results := Exceeds(key, names, j, bound * first);
      FirstEnergyAvailable(key, names, consumption, [1.0], results);
      SumOfOneTerm(1.0);
      var r := KeyResultOf(key, results);
      RateAtMost(r.consumedTotal, r.availableTotal, r.sharingRateTotal, bound);
      assert false;
    }
  }

  /**
   * When later iterations hand out at most all they have, these bounds hold: the least bound of the
   * sharing rate over all data is what the key hands out over its first fraction.
   */
  lemma BoundIsExact(key: KeyInput, names: seq<string>, bound: real)
    requires IsKey(key, names) && LaterShare(key, names) && bound >= 0.0
    ensures NeverAbove(key, names, bound) <==>
            key.iterations[0].fraction == 0.0 || HandsAtMost(key, names, bound * key.iterations[0].fraction)
  {
    if NeverAbove(key, names, bound) {
      BoundIsNeeded(key, names, bound);
    } else {
      var consumption, production, results :|
        IsRun(key, names, consumption, production, results) && NonnegativeData(key, consumption, production)
        && KeyResultOf(key, results).sharingRateTotal > bound;
      if key.iterations[0].fraction == 0.0 || HandsAtMost(key, names, bound * key.iterations[0].fraction) {
        BoundHolds(key, names, bound, consumption, production, results);
      }
    }
  }

  /** The bound of a key of one iteration is the most it hands out: the sum of its percentages, if all are FIXED. */
  lemma SingleIterationBound(key: KeyInput, names: seq<string>, bound: real)
    requires IsKey(key, names) && |key.iterations| == 1 && key.iterations[0].fraction > 0.0 && bound >= 0.0
    ensures NeverAbove(key, names, bound) <==>
            forall j :: 0 <= j < |names| ==> HandOut(Percentages(key.iterations[0], names), j) <= bound
  {
    var first, p := key.iterations[0].fraction, Percentages(key.iterations[0], names);
    BoundIsExact(key, names, bound);
    hide NeverAbove, HandOut;
    forall j | 0 <= j < |names| ensures HandedTo(key, names, j, 1) <= bound * first <==> HandOut(p, j) <= bound {
      HandedOnce(key, names, j, bound);
    }
  }

  lemma HandedOnce(key: KeyInput, names: seq<string>, j: nat, bound: real)
    requires IsKey(key, names) && |key.iterations| == 1 && key.iterations[0].fraction > 0.0 && j < |names|
    ensures HandedTo(key, names, j, 1) <= bound * key.iterations[0].fraction <==>
            HandOut(Percentages(key.iterations[0], names), j) <= bound
  {
    hide HandOut, Percentages;
    var first, handOut := key.iterations[0].fraction, HandOut(Percentages(key.iterations[0], names), j);
    assert HandedTo(key, names, j, 0) == 0.0;
    assert HandedTo(key, names, j, 1) == first * handOut;
    ScaledAtMostExactly(first, handOut, bound);
  }

  lemma ScaledAtMostExactly(factor: real, x: real, bound: real)
    requires factor > 0.0
    ensures factor * x <= bound * factor <==> x <= bound
  {
    if x <= bound {
      ProductNonnegative(bound - x, factor);
    } else {
      assert (x - bound) * factor > 0.0;
    }
  }

  /** With FIXED consumers only the bound is reached: there are data whose rate it is. */
  lemma BoundIsReached(key: KeyInput, names: seq<string>, j: nat)
    returns (consumption: Matrix, results: seq<IterationResult>)
    requires IsKey(key, names) && j < |names| && key.iterations[0].fraction > 0.0
    requires forall k, i :: 0 <= k < |key.iterations| && 0 <= i < |names| ==>
               Percentages(key.iterations[k], names)[i] >= 0.0
    ensures IsRun(key, names, consumption, [1.0], results) && NonnegativeData(key, consumption, [1.0])
    ensures KeyResultOf(key, results).sharingRateTotal ==
            HandedTo(key, names, j, |key.iterations|) / key.iterations[0].fraction
  {
    var most := 1.0 + FixedSums(key, names, |key.iterations|);
    var low := most * Rest(Fractions(key), 0) + 1.0;
    LowIsUnmet(key, names, most, low);
    consumption := Demand(|names|, j, low, low);
    DemandData(key, names, j, low, low);
    results := CascadeExists(key, names, consumption, [1.0], |key.iterations|);
    assert IsUnmetData(key, names, consumption);
    hide IsCascade, NonnegativeData, Sum, FixedSums, HandedTo, IsUnmetData, Rest, KeyResultOf, Demand, HandOut;
    FixedRate(key, names, consumption, results, j);
  }

  lemma FixedRate(key: KeyInput, names: seq<string>, consumption: Matrix, results: seq<IterationResult>, j: nat)
    requires IsKey(key, names) && IsRun(key, names, consumption, [1.0], results) && j < |names|
    requires |consumption| == |names| && IsUnmetData(key, names, consumption) && key.iterations[0].fraction > 0.0
    requires forall k, i :: 0 <= k < |key.iterations| && 0 <= i < |names| ==>
               Percentages(key.iterations[k], names)[i] >= 0.0
    ensures KeyResultOf(key, results).sharingRateTotal ==
            HandedTo(key, names, j, |key.iterations|) / key.iterations[0].fraction
  {
    hide IsCascade, Sum, FixedSums, IsUnmetData, Rest, MultiplierSums, Weighted, HandedTo, HandOut, Percentages;
    UnmetRun(key, names, consumption, results);
    FixedWeighted(key, names, consumption, j, |key.iterations|);
    FirstEnergyAvailable(key, names, consumption, [1.0], results);
    SumOfOneTerm(1.0);
  }

  lemma {:induction false} FixedWeighted(key: KeyInput, names: seq<string>, consumption: Matrix, j: nat, n: nat)
    requires Fits(key, names, consumption, 1) && j < |names| && n <= |key.iterations|
    requires forall k, i :: 0 <= k < |key.iterations| && 0 <= i < |names| ==>
               Percentages(key.iterations[k], names)[i] >= 0.0
    ensures Weighted(Fractions(key), MultiplierSums(key, names, consumption, 1, 0), n) == HandedTo(key, names, j, n)
  {
    hide MultiplierSums, HandOut, Percentages, HasConsumers;
    if n > 0 {
      FixedWeighted(key, names, consumption, j, n - 1);
      FixedMultipliers(key, names, consumption, j, n - 1);
    }
  }

  lemma FixedMultipliers(key: KeyInput, names: seq<string>, consumption: Matrix, j: nat, k: nat)
    requires Fits(key, names, consumption, 1) && j < |names| && k < |key.iterations|
    requires forall i :: 0 <= i < |names| ==> Percentages(key.iterations[k], names)[i] >= 0.0
    ensures MultiplierSums(key, names, consumption, 1, 0)[k] == HandOut(Percentages(key.iterations[k], names), j)
  {
    var p, w := Percentages(key.iterations[k], names), Column(Weights(consumption, 1), 0);
    MultiplierParts(key.iterations[k], names, Weights(consumption, 1), 1, 0);
    SumZero(ProrataPart(p, w));
  }

  /** So the rate of such a key is at most one exactly when the key never hands out more than its first fraction. */
  lemma NeverAboveOneExactly(key: KeyInput, names: seq<string>)
    requires IsKey(key, names) && LaterShare(key, names)
    ensures NeverAbove(key, names, 1.0) <==>
            key.iterations[0].fraction == 0.0 || HandsAtMost(key, names, key.iterations[0].fraction)
  {
    BoundIsExact(key, names, 1.0);
  }
}
