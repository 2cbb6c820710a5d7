/** Conservation across the cascade: where the production goes and how the demand is met. */
module Ledgers {
  import opened Sums
  import opened Cascade

  // ---- What one iteration does, cell by cell ----

  ghost predicate HasLength(c: ConsumerResult, timesteps: nat) {
    && |c.consumption| == |c.allotted| == |c.consumed| == timesteps
    && |c.residual| == |c.surplus| == timesteps
  }

  ghost predicate IsShaped(r: IterationResult, m: Matrix, timesteps: nat) {
    && |r.available| == |r.consumption| == |r.consumed| == |r.residual| == |r.surplus| == timesteps
    && |m| == |r.consumers|
    && Rectangular(m, timesteps)
    && forall j :: 0 <= j < |r.consumers| ==> HasLength(r.consumers[j], timesteps)
  }

  /** Consumer `j` at timestep `t`: allotted its multiple of what is available, up to its demand. */
  ghost predicate IsCell(r: IterationResult, m: Matrix, j: nat, t: nat)
    requires t < |r.available| && IsShaped(r, m, |r.available|) && j < |m|
  {
    var c := r.consumers[j];
    && c.allotted[t] == r.available[t] * m[j][t]
    && c.consumed[t] == Min(c.consumption[t], c.allotted[t])
    && c.residual[t] == Relu(c.consumption[t] - c.allotted[t])
    && c.surplus[t] == Relu(c.allotted[t] - c.consumption[t])
  }

  function Demands(r: IterationResult): Matrix {
    seq(|r.consumers|, j requires 0 <= j < |r.consumers| => r.consumers[j].consumption)
  }

  function Allotments(r: IterationResult): Matrix {
    seq(|r.consumers|, j requires 0 <= j < |r.consumers| => r.consumers[j].allotted)
  }

  function Consumptions(r: IterationResult): Matrix {
    seq(|r.consumers|, j requires 0 <= j < |r.consumers| => r.consumers[j].consumed)
  }

  function Residuals(r: IterationResult): Matrix {
    seq(|r.consumers|, j requires 0 <= j < |r.consumers| => r.consumers[j].residual)
  }

  function Surpluses(r: IterationResult): Matrix {
    seq(|r.consumers|, j requires 0 <= j < |r.consumers| => r.consumers[j].surplus)
  }

  /** The series of an iteration at one timestep are the sums over its consumers. */
  ghost predicate IsColumn(r: IterationResult, m: Matrix, t: nat)
    requires t < |r.available| && IsShaped(r, m, |r.available|)
  {
    && r.consumption[t] == Sum(Column(Demands(r), t))
    && r.consumed[t] == Sum(Column(Consumptions(r), t))
    && r.residual[t] == Sum(Column(Residuals(r), t))
    && r.surplus[t] == Sum(Column(Surpluses(r), t))
  }

  /** The totals of an iteration and of its consumers are the sums of their series. */
  ghost predicate IsTotal(r: IterationResult) {
    && r.consumptionTotal == Sum(r.consumption) && r.availableTotal == Sum(r.available)
    && r.consumedTotal == Sum(r.consumed) && r.residualTotal == Sum(r.residual) && r.surplusTotal == Sum(r.surplus)
    && forall j :: 0 <= j < |r.consumers| ==>
         var c := r.consumers[j];
         && c.consumptionTotal == Sum(c.consumption) && c.allottedTotal == Sum(c.allotted)
         && c.consumedTotal == Sum(c.consumed)
         && c.residualTotal == Sum(c.residual) && c.surplusTotal == Sum(c.surplus)
  }

  /** `r` is what an iteration with these multipliers makes of its demand and supply. */
  ghost predicate IsFlow(r: IterationResult, m: Matrix, timesteps: nat) {
    && IsShaped(r, m, timesteps)
    && (forall j, t :: 0 <= j < |m| && 0 <= t < timesteps ==> IsCell(r, m, j, t))
    && (forall t :: 0 <= t < timesteps ==> IsColumn(r, m, t))
    && IsTotal(r)
  }

  function Multipliers(it: IterationInput, names: seq<string>, weights: Matrix): (m: Matrix)
    requires HasConsumers(it, names) && |weights| == |names|
    ensures |m| == |weights| && forall j :: 0 <= j < |m| ==> |m[j]| == |weights[j]|
  {
    MultiplierMatrix(Percentages(it, names), weights)
  }

  lemma IterationMatrices(it: IterationInput, names: seq<string>, weights: Matrix, demand: Matrix, available: seq<real>)
    requires IsIterationInput(it, names, weights, demand, available)
    ensures var r := IterationOf(it, names, weights, demand, available);
            var allotted := AllottedMatrix(available, Multipliers(it, names, weights));
            && Demands(r) == demand && Allotments(r) == allotted
            && Consumptions(r) == Smaller(demand, allotted)
            && Residuals(r) == Excess(demand, allotted)
            && Surpluses(r) == Excess(allotted, demand)
            && ResidualsOf(r) == Residuals(r)
            && IsShaped(r, Multipliers(it, names, weights), |available|)
            && r.available == available
  {
  }

  lemma IterationCell(it: IterationInput, names: seq<string>, weights: Matrix, demand: Matrix, available: seq<real>,
        j: nat, t: nat)
    requires IsIterationInput(it, names, weights, demand, available) && j < |names| && t < |available|
    ensures IsShaped(IterationOf(it, names, weights, demand, available), Multipliers(it, names, weights), |available|)
    ensures IsCell(IterationOf(it, names, weights, demand, available), Multipliers(it, names, weights), j, t)
  {
    hide IterationOf, Relu, Min, HasConsumers;
    IterationMatrices(it, names, weights, demand, available);
    var r := IterationOf(it, names, weights, demand, available);
    assert Demands(r)[j] == r.consumers[j].consumption && Allotments(r)[j] == r.consumers[j].allotted;
    assert Consumptions(r)[j] == r.consumers[j].consumed;
    assert Residuals(r)[j] == r.consumers[j].residual && Surpluses(r)[j] == r.consumers[j].surplus;
  }

  lemma IterationColumn(it: IterationInput, names: seq<string>, weights: Matrix, demand: Matrix, available: seq<real>,
        t: nat)
    requires IsIterationInput(it, names, weights, demand, available) && t < |available|
    ensures IsShaped(IterationOf(it, names, weights, demand, available), Multipliers(it, names, weights), |available|)
    ensures IsColumn(IterationOf(it, names, weights, demand, available), Multipliers(it, names, weights), t)
  {
    IterationMatrices(it, names, weights, demand, available);
  }

  lemma IterationTotal(it: IterationInput, names: seq<string>, weights: Matrix, demand: Matrix, available: seq<real>)
    requires IsIterationInput(it, names, weights, demand, available)
    ensures IsTotal(IterationOf(it, names, weights, demand, available))
  {
  }

  lemma IterationIsFlow(it: IterationInput, names: seq<string>, weights: Matrix, demand: Matrix, available: seq<real>)
    requires IsIterationInput(it, names, weights, demand, available)
    ensures IsFlow(IterationOf(it, names, weights, demand, available), Multipliers(it, names, weights), |available|)
  {
    var r, m := IterationOf(it, names, weights, demand, available), Multipliers(it, names, weights);
    IterationMatrices(it, names, weights, demand, available);
    IterationTotal(it, names, weights, demand, available);
    forall j, t | 0 <= j < |m| && 0 <= t < |available| ensures IsCell(r, m, j, t) {
      IterationCell(it, names, weights, demand, available, j, t);
    }
    forall t | 0 <= t < |available| ensures IsColumn(r, m, t) {
      IterationColumn(it, names, weights, demand, available, t);
    }
  }

  // ---- A chain of iterations ----

  /** Iteration `k` takes over the residuals and the surplus of the one before. */
  ghost predicate IsLinked(fractions: seq<real>, consumption: Matrix, production: seq<real>,
        results: seq<IterationResult>, k: nat)
    requires k < |results| <= |fractions|
  {
    && |results[k].available| == |production|
    && (k > 0 ==> |results[k - 1].surplus| == |production|)
    && Demands(results[k]) == (if k == 0 then consumption else Residuals(results[k - 1]))
    && forall t :: 0 <= t < |production| ==>
         results[k].available[t] == production[t] * fractions[k] + (if k == 0 then 0.0 else results[k - 1].surplus[t])
  }

  /** The cascade as its laws see it: any multipliers, each iteration a flow fed by the one before. */
  ghost predicate IsChain(fractions: seq<real>, multipliers: seq<Matrix>, consumption: Matrix, production: seq<real>,
        results: seq<IterationResult>) {
    && |results| <= |fractions| && |results| <= |multipliers|
    && Rectangular(consumption, |production|)
    && (forall k :: 0 <= k < |results| ==>
          |multipliers[k]| == |consumption| && IsFlow(results[k], multipliers[k], |production|))
    && (forall k :: 0 <= k < |results| ==> IsLinked(fractions, consumption, production, results, k))
  }

  function Fractions(key: KeyInput): seq<real> {
    seq(|key.iterations|, k requires 0 <= k < |key.iterations| => key.iterations[k].fraction)
  }

  function KeyMultipliers(key: KeyInput, names: seq<string>, consumption: Matrix, timesteps: nat, n: nat): seq<Matrix>
    requires n <= |key.iterations| && |consumption| == |names| && Rectangular(consumption, timesteps)
    requires forall k :: 0 <= k < n ==> HasConsumers(key.iterations[k], names)
  {
    seq(n, k requires 0 <= k < n => Multipliers(key.iterations[k], names, Weights(consumption, timesteps)))
  }

  ghost predicate AllHaveConsumers(key: KeyInput, names: seq<string>, n: nat) {
    n <= |key.iterations| && forall k :: 0 <= k < n ==> HasConsumers(key.iterations[k], names)
  }

  lemma TurnIsFlow(key: KeyInput, names: seq<string>, consumption: Matrix, production: seq<real>,
        results: seq<IterationResult>, k: nat)
    requires IsCascade(key, names, consumption, production, results) && k < |results|
    ensures HasConsumers(key.iterations[k], names)
    ensures IsFlow(results[k], Multipliers(key.iterations[k], names, Weights(consumption, |production|)), |production|)
    ensures Demands(results[k]) == DemandAt(consumption, results, k)
    ensures |CarriedAt(results, k, |production|)| == |production|
    ensures results[k].available == Feed(production, key.iterations[k].fraction, CarriedAt(results, k, |production|))
    ensures ResidualsOf(results[k]) == Residuals(results[k])
  {
    assert IsTurn(key, names, consumption, production, results, k);
    var it := key.iterations[k];
    var weights, demand := Weights(consumption, |production|), DemandAt(consumption, results, k);
    var available := Feed(production, it.fraction, CarriedAt(results, k, |production|));
    IterationIsFlow(it, names, weights, demand, available);
    IterationMatrices(it, names, weights, demand, available);
  }

  /** Every cascade is a chain, with the multipliers its key sets. */
  lemma CascadeIsChain(key: KeyInput, names: seq<string>, consumption: Matrix, production: seq<real>,
        results: seq<IterationResult>)
    requires IsCascade(key, names, consumption, production, results)
    ensures AllHaveConsumers(key, names, |results|)
    ensures IsChain(Fractions(key), KeyMultipliers(key, names, consumption, |production|, |results|),
                    consumption, production, results)
  {
    forall k | 0 <= k < |results|
      ensures HasConsumers(key.iterations[k], names)
      ensures IsFlow(results[k], Multipliers(key.iterations[k], names, Weights(consumption, |production|)),
                     |production|)
      ensures IsLinked(Fractions(key), consumption, production, results, k)
    {
      TurnIsFlow(key, names, consumption, production, results, k);
      if k > 0 {
        TurnIsFlow(key, names, consumption, production, results, k - 1);
      }
    }
  }

  // ---- Balances ----

  lemma ReluSplits(a: real, b: real)
    ensures a == Min(a, b) + Relu(a - b)
    ensures b == Min(a, b) + Relu(b - a)
  {
  }

  lemma CellBalance(r: IterationResult, m: Matrix, timesteps: nat, j: nat, t: nat)
    requires IsFlow(r, m, timesteps) && j < |m| && t < timesteps
    ensures Column(Demands(r), t)[j] == Column(Consumptions(r), t)[j] + Column(Residuals(r), t)[j]
    ensures Column(Allotments(r), t)[j] == Column(Consumptions(r), t)[j] + Column(Surpluses(r), t)[j]
    ensures Column(Allotments(r), t)[j] == r.available[t] * Column(m, t)[j]
  {
    assert IsCell(r, m, j, t);
    ReluSplits(r.consumers[j].consumption[t], r.consumers[j].allotted[t]);
  }

  /** At one timestep, the demand is met or left unmet. */
  lemma DemandBalance(r: IterationResult, m: Matrix, timesteps: nat, t: nat)
    requires IsFlow(r, m, timesteps) && t < timesteps
    ensures r.consumption[t] == r.consumed[t] + r.residual[t]
  {
    assert IsColumn(r, m, t);
    forall j | 0 <= j < |m|
      ensures Column(Demands(r), t)[j] == Column(Consumptions(r), t)[j] + Column(Residuals(r), t)[j]
    {
      CellBalance(r, m, timesteps, j, t);
    }
    SumPlus(Column(Consumptions(r), t), Column(Residuals(r), t), Column(Demands(r), t));
  }

  lemma AllotmentSplits(r: IterationResult, m: Matrix, timesteps: nat, t: nat)
    requires IsFlow(r, m, timesteps) && t < timesteps
    ensures Sum(Column(Allotments(r), t)) == r.consumed[t] + r.surplus[t]
  {
    assert IsColumn(r, m, t);
    forall j | 0 <= j < |m|
      ensures Column(Allotments(r), t)[j] == Column(Consumptions(r), t)[j] + Column(Surpluses(r), t)[j]
    {
      CellBalance(r, m, timesteps, j, t);
    }
    SumPlus(Column(Consumptions(r), t), Column(Surpluses(r), t), Column(Allotments(r), t));
  }

  lemma AllotmentScales(r: IterationResult, m: Matrix, timesteps: nat, t: nat)
    requires IsFlow(r, m, timesteps) && t < timesteps
    ensures Sum(Column(Allotments(r), t)) == r.available[t] * Sum(Column(m, t))
  {
    forall j | 0 <= j < |m| ensures Column(Allotments(r), t)[j] == r.available[t] * Column(m, t)[j] {
      CellBalance(r, m, timesteps, j, t);
    }
    SumScale(r.available[t], Column(m, t), Column(Allotments(r), t));
  }

  /** At one timestep, what is handed out is consumed or left over, and the demand is met or left unmet. */
  lemma FlowBalance(r: IterationResult, m: Matrix, timesteps: nat, t: nat)
    requires IsFlow(r, m, timesteps) && t < timesteps
    ensures r.available[t] * Sum(Column(m, t)) == r.consumed[t] + r.surplus[t]
    ensures r.consumption[t] == r.consumed[t] + r.residual[t]
  {
    DemandBalance(r, m, timesteps, t);
    AllotmentSplits(r, m, timesteps, t);
    AllotmentScales(r, m, timesteps, t);
  }

  lemma ChainPrefix(fractions: seq<real>, multipliers: seq<Matrix>, consumption: Matrix, production: seq<real>,
        results: seq<IterationResult>, n: nat)
    requires IsChain(fractions, multipliers, consumption, production, results) && n <= |results|
    ensures IsChain(fractions, multipliers, consumption, production, results[..n])
  {
    forall k | 0 <= k < n ensures IsLinked(fractions, consumption, production, results[..n], k) {
      assert IsLinked(fractions, consumption, production, results, k);
    }
  }

  /** The demand of an iteration is the consumption data, or what the one before left unmet. */
  lemma DemandCarries(fractions: seq<real>, multipliers: seq<Matrix>, consumption: Matrix, production: seq<real>,
        results: seq<IterationResult>, k: nat, t: nat)
    requires IsChain(fractions, multipliers, consumption, production, results) && k < |results| && t < |production|
    ensures IsShaped(results[k], multipliers[k], |production|)
    ensures k > 0 ==> IsShaped(results[k - 1], multipliers[k - 1], |production|)
    ensures results[k].consumption[t] == if k == 0 then Sum(Column(consumption, t)) else results[k - 1].residual[t]
  {
    assert IsFlow(results[k], multipliers[k], |production|) && IsLinked(fractions, consumption, production, results, k);
    assert IsColumn(results[k], multipliers[k], t);
    if k > 0 {
      assert IsFlow(results[k - 1], multipliers[k - 1], |production|);
      assert IsColumn(results[k - 1], multipliers[k - 1], t);
    }
  }

  function SumFirst(xs: seq<real>, n: nat): real
    requires n <= |xs|
  {
    if n == 0 then 0.0 else SumFirst(xs, n - 1) + xs[n - 1]
  }

  /** The production handed to the first `n` iterations at a timestep with production `p`. */
  function Handed(p: real, fractions: seq<real>, n: nat): real
    requires n <= |fractions|
  {
    if n == 0 then 0.0 else Handed(p, fractions, n - 1) + p * fractions[n - 1]
  }

  lemma {:induction false} HandedIsProduct(p: real, fractions: seq<real>, n: nat)
    requires n <= |fractions|
    ensures Handed(p, fractions, n) == p * SumFirst(fractions, n)
  {
    if n > 0 {
      HandedIsProduct(p, fractions, n - 1);
      assert p * (SumFirst(fractions, n - 1) + fractions[n - 1]) ==
          p * SumFirst(fractions, n - 1) + p * fractions[n - 1];
    }
  }

  ghost predicate AllShaped(results: seq<IterationResult>, multipliers: seq<Matrix>, n: nat, timesteps: nat) {
    n <= |results| && n <= |multipliers| && forall k :: 0 <= k < n ==> IsShaped(results[k], multipliers[k], timesteps)
  }

  /** The energy consumed at one timestep in the first `n` iterations. */
  ghost function ConsumedAt(results: seq<IterationResult>, multipliers: seq<Matrix>, n: nat, timesteps: nat,
        t: nat): real
    requires AllShaped(results, multipliers, n, timesteps) && t < timesteps
  {
    if n == 0 then 0.0 else ConsumedAt(results, multipliers, n - 1, timesteps, t) + results[n - 1].consumed[t]
  }

  /** What the first `n` iterations made available and handed to no one, at one timestep. */
  ghost function DroppedAt(results: seq<IterationResult>, multipliers: seq<Matrix>, n: nat, timesteps: nat,
        t: nat): real
    requires AllShaped(results, multipliers, n, timesteps) && t < timesteps
  {
    if n == 0 then 0.0
    else DroppedAt(results, multipliers, n - 1, timesteps,
        t) + results[n - 1].available[t] * (1.0 - Sum(Column(multipliers[n - 1], t)))
  }

  lemma ChainIsShaped(fractions: seq<real>, multipliers: seq<Matrix>, consumption: Matrix, production: seq<real>,
        results: seq<IterationResult>)
    requires IsChain(fractions, multipliers, consumption, production, results)
    ensures AllShaped(results, multipliers, |results|, |production|)
  {
  }

  lemma SupplyTurn(fractions: seq<real>, multipliers: seq<Matrix>, consumption: Matrix, production: seq<real>,
        results: seq<IterationResult>, k: nat, t: nat)
    requires IsChain(fractions, multipliers, consumption, production, results) && k < |results| && t < |production|
    ensures AllShaped(results, multipliers, |results|, |production|)
    ensures production[t] * fractions[k] + (if k == 0 then 0.0 else results[k - 1].surplus[t]) ==
            results[k].consumed[t] + results[k].surplus[t]
            + results[k].available[t] * (1.0 - Sum(Column(multipliers[k], t)))
  {
    assert IsFlow(results[k], multipliers[k], |production|) && IsLinked(fractions, consumption, production, results, k);
    FlowBalance(results[k], multipliers[k], |production|, t);
    var a, m := results[k].available[t], Sum(Column(multipliers[k], t));
    assert a * (1.0 - m) == a - a * m;
  }

  lemma {:induction false} ChainSupply(fractions: seq<real>, multipliers: seq<Matrix>, consumption: Matrix,
        production: seq<real>, results: seq<IterationResult>, n: nat, t: nat)
    requires IsChain(fractions, multipliers, consumption, production, results) && 0 < n <= |results| && t < |production|
    ensures AllShaped(results, multipliers, |results|, |production|)
    ensures Handed(production[t], fractions, n) ==
            ConsumedAt(results, multipliers, n, |production|, t) + results[n - 1].surplus[t] + DroppedAt(results,
                multipliers, n, |production|, t)
    decreases n
  {
    hide IsChain, IsFlow, IsLinked, IsShaped, Sum, Column;
    ChainIsShaped(fractions, multipliers, consumption, production, results);
    SupplyTurn(fractions, multipliers, consumption, production, results, n - 1, t);
    if n > 1 {
      ChainSupply(fractions, multipliers, consumption, production, results, n - 1, t);
    } else {
      assert Handed(production[t], fractions, 0) == 0.0;
      assert ConsumedAt(results, multipliers, 0, |production|, t) ==
          DroppedAt(results, multipliers, 0, |production|, t) == 0.0;
    }
  }

  /** Of what was `given` at a timestep: consumed, left over by the last iteration, or dropped. */
  ghost predicate SupplyBalances(results: seq<IterationResult>, m: seq<Matrix>, timesteps: nat, t: nat, given: real) {
    && results != [] && AllShaped(results, m, |results|, timesteps) && t < timesteps
    && given == ConsumedAt(results, m, |results|, timesteps, t) + results[|results| - 1].surplus[t]
               + DroppedAt(results, m, |results|, timesteps, t)
  }

  lemma ChainSupplyBalances(fractions: seq<real>, multipliers: seq<Matrix>, consumption: Matrix, production: seq<real>,
        results: seq<IterationResult>, t: nat)
    requires IsChain(fractions, multipliers, consumption, production, results) && results != [] && t < |production|
    ensures SupplyBalances(results, multipliers, |production|, t, production[t] * SumFirst(fractions, |results|))
  {
    HandedIsProduct(production[t], fractions, |results|);
    ChainSupply(fractions, multipliers, consumption, production, results, |results|, t);
  }

  lemma {:induction false} ChainDemand(fractions: seq<real>, multipliers: seq<Matrix>, consumption: Matrix,
        production: seq<real>, results: seq<IterationResult>, n: nat, t: nat)
    requires IsChain(fractions, multipliers, consumption, production, results) && 0 < n <= |results| && t < |production|
    ensures AllShaped(results, multipliers, |results|, |production|)
    ensures Sum(Column(consumption, t)) ==
            ConsumedAt(results, multipliers, n, |production|, t) + results[n - 1].residual[t]
    decreases n
  {
    ChainIsShaped(fractions, multipliers, consumption, production, results);
    FlowBalance(results[n - 1], multipliers[n - 1], |production|, t);
    DemandCarries(fractions, multipliers, consumption, production, results, n - 1, t);
    if n > 1 {
      ChainDemand(fractions, multipliers, consumption, production, results, n - 1, t);
    }
  }

  /** The energy one consumer consumes at one timestep in the first `n` iterations. */
  ghost function ConsumerConsumedAt(results: seq<IterationResult>, multipliers: seq<Matrix>, n: nat, timesteps: nat,
        j: nat, t: nat): real
    requires AllShaped(results, multipliers, n, timesteps) && t < timesteps
    requires forall k :: 0 <= k < n ==> j < |multipliers[k]|
  {
    if n == 0 then 0.0
    else ConsumerConsumedAt(results, multipliers, n - 1, timesteps, j, t) + results[n - 1].consumers[j].consumed[t]
  }

  lemma ConsumerTurn(fractions: seq<real>, multipliers: seq<Matrix>, consumption: Matrix, production: seq<real>,
        results: seq<IterationResult>, k: nat, j: nat, t: nat)
    requires IsChain(fractions, multipliers, consumption, production, results) && k < |results| && j < |consumption|
        && t < |production|
    ensures AllShaped(results, multipliers, |results|, |production|) && |results[k].consumers| == |consumption|
    ensures k > 0 ==> |results[k - 1].consumers| == |consumption|
    ensures (if k == 0 then consumption[j][t] else results[k - 1].consumers[j].residual[t]) ==
            results[k].consumers[j].consumed[t] + results[k].consumers[j].residual[t]
  {
    assert IsFlow(results[k], multipliers[k], |production|) && IsLinked(fractions, consumption, production, results, k);
    assert IsCell(results[k], multipliers[k], j, t);
    var c := results[k].consumers[j];
    ReluSplits(c.consumption[t], c.allotted[t]);
    assert Demands(results[k])[j] == c.consumption;
    if k > 0 {
      assert IsFlow(results[k - 1], multipliers[k - 1], |production|);
      assert Residuals(results[k - 1])[j] == results[k - 1].consumers[j].residual;
    }
  }

  lemma {:induction false} ChainConsumerDemand(fractions: seq<real>, multipliers: seq<Matrix>, consumption: Matrix,
        production: seq<real>, results: seq<IterationResult>, n: nat, j: nat, t: nat)
    requires IsChain(fractions, multipliers, consumption, production, results)
    requires 0 < n <= |results| && j < |consumption| && t < |production|
    ensures AllShaped(results, multipliers, |results|, |production|) && |results[n - 1].consumers| == |consumption|
    ensures consumption[j][t] ==
            ConsumerConsumedAt(results, multipliers, n, |production|, j, t) + results[n - 1].consumers[j].residual[t]
    decreases n
  {
    ChainIsShaped(fractions, multipliers, consumption, production, results);
    ConsumerTurn(fractions, multipliers, consumption, production, results, n - 1, j, t);
    if n > 1 {
      ChainConsumerDemand(fractions, multipliers, consumption, production, results, n - 1, j, t);
    }
  }

  // ---- Totals ----

  /** Total demand of an iteration: met or unmet; it starts from the data or from the unmet demand before. */
  lemma TotalsTurn(fractions: seq<real>, multipliers: seq<Matrix>, consumption: Matrix, production: seq<real>,
        results: seq<IterationResult>, k: nat)
    requires IsChain(fractions, multipliers, consumption, production, results) && k < |results|
    ensures results[k].consumptionTotal == results[k].consumedTotal + results[k].residualTotal
    ensures results[k].consumptionTotal ==
            if k == 0 then Sum(ColumnSums(consumption, |production|)) else results[k - 1].residualTotal
  {
    var r, T := results[k], |production|;
    assert IsFlow(r, multipliers[k], T);
    forall t | 0 <= t < T
      ensures r.consumption[t] == r.consumed[t] + r.residual[t]
      ensures k > 0 ==> |results[k - 1].residual| == T
      ensures r.consumption[t] == if k == 0 then ColumnSums(consumption, T)[t] else results[k - 1].residual[t]
    {
      FlowBalance(r, multipliers[k], T, t);
      DemandCarries(fractions, multipliers, consumption, production, results, k, t);
    }
    SumPlus(r.consumed, r.residual, r.consumption);
    if k > 0 {
      assert IsFlow(results[k - 1], multipliers[k - 1], T);
      assert r.consumption == results[k - 1].residual;
    } else {
      assert r.consumption == ColumnSums(consumption, T);
    }
  }

  lemma ConsumedInTotal(results: seq<IterationResult>)
    requires results != []
    ensures Sum(ConsumedTotals(results)) ==
            Sum(ConsumedTotals(results[..|results| - 1])) + results[|results| - 1].consumedTotal
    ensures |results| == 1 ==> Sum(ConsumedTotals(results)) == results[0].consumedTotal
  {
    assert ConsumedTotals(results)[..|results| - 1] == ConsumedTotals(results[..|results| - 1]);
    assert |results| == 1 ==> ConsumedTotals(results)[..0] == [];
  }

  lemma {:induction false} ChainTotals(fractions: seq<real>, multipliers: seq<Matrix>, consumption: Matrix,
        production: seq<real>, results: seq<IterationResult>)
    requires IsChain(fractions, multipliers, consumption, production, results) && results != []
    requires Rectangular(consumption, |production|)
    ensures Sum(ColumnSums(consumption, |production|)) ==
        Sum(ConsumedTotals(results)) + results[|results| - 1].residualTotal
    decreases |results|
  {
    hide IsChain, Sum, ConsumedTotals, ColumnSums;
    var front := results[..|results| - 1];
    ConsumedInTotal(results);
    TotalsTurn(fractions, multipliers, consumption, production, results, |front|);
    if front != [] {
      ChainPrefix(fractions, multipliers, consumption, production, results, |front|);
      ChainTotals(fractions, multipliers, consumption, production, front);
    }
  }

  lemma SeriesAreColumnSums(r: IterationResult, m: Matrix, timesteps: nat)
    requires IsFlow(r, m, timesteps)
    ensures r.consumption == ColumnSums(Demands(r), timesteps) && r.consumed == ColumnSums(Consumptions(r), timesteps)
    ensures r.residual == ColumnSums(Residuals(r), timesteps) && r.surplus == ColumnSums(Surpluses(r), timesteps)
  {
    forall t | 0 <= t < timesteps
      ensures r.consumption[t] == ColumnSums(Demands(r), timesteps)[t]
      ensures r.consumed[t] == ColumnSums(Consumptions(r), timesteps)[t]
      ensures r.residual[t] == ColumnSums(Residuals(r), timesteps)[t]
      ensures r.surplus[t] == ColumnSums(Surpluses(r), timesteps)[t]
    {
      assert IsColumn(r, m, t);
    }
  }

  function Totals(consumers: seq<ConsumerResult>, total: ConsumerResult -> real): seq<real> {
    seq(|consumers|, j requires 0 <= j < |consumers| => total(consumers[j]))
  }

  lemma FlowRowSums(r: IterationResult, m: Matrix, timesteps: nat)
    requires IsFlow(r, m, timesteps)
    ensures r.consumptionTotal == Sum(RowSums(Demands(r))) && r.consumedTotal == Sum(RowSums(Consumptions(r)))
    ensures r.residualTotal == Sum(RowSums(Residuals(r))) && r.surplusTotal == Sum(RowSums(Surpluses(r)))
  {
    SeriesAreColumnSums(r, m, timesteps);
    hide IsCell, IsColumn, Sum, ColumnSums, RowSums;
    SumByRows(Demands(r), timesteps);
    SumByRows(Consumptions(r), timesteps);
    SumByRows(Residuals(r), timesteps);
    SumByRows(Surpluses(r), timesteps);
  }

  /** Each total of an iteration is the sum of its consumers' totals. */
  lemma FlowTotals(r: IterationResult, m: Matrix, timesteps: nat)
    requires IsFlow(r, m, timesteps)
    ensures r.consumptionTotal == Sum(Totals(r.consumers, (c: ConsumerResult) => c.consumptionTotal))
    ensures r.consumedTotal == Sum(Totals(r.consumers, (c: ConsumerResult) => c.consumedTotal))
    ensures r.residualTotal == Sum(Totals(r.consumers, (c: ConsumerResult) => c.residualTotal))
    ensures r.surplusTotal == Sum(Totals(r.consumers, (c: ConsumerResult) => c.surplusTotal))
  {
    FlowRowSums(r, m, timesteps);
    assert IsTotal(r);
    hide IsFlow, IsTotal, Sum, RowSums, Totals, Demands, Consumptions, Residuals, Surpluses;
    TotalsAreRowSums(r);
  }

  lemma TotalsAreRowSums(r: IterationResult)
    requires IsTotal(r)
    ensures RowSums(Demands(r)) == Totals(r.consumers, (c: ConsumerResult) => c.consumptionTotal)
    ensures RowSums(Consumptions(r)) == Totals(r.consumers, (c: ConsumerResult) => c.consumedTotal)
    ensures RowSums(Residuals(r)) == Totals(r.consumers, (c: ConsumerResult) => c.residualTotal)
    ensures RowSums(Surpluses(r)) == Totals(r.consumers, (c: ConsumerResult) => c.surplusTotal)
  {
  }

  // ---- The laws of a run ----

  /** All iterations of the key have been run. */
  ghost predicate IsRun(key: KeyInput, names: seq<string>, consumption: Matrix, production: seq<real>,
        results: seq<IterationResult>) {
    key.iterations != [] && |results| == |key.iterations| && IsCascade(key, names, consumption, production, results)
  }

  /** The multipliers of every iteration of a run. */
  ghost function RunMultipliers(key: KeyInput, names: seq<string>, consumption: Matrix, production: seq<real>,
        results: seq<IterationResult>): (m: seq<Matrix>)
    requires IsRun(key, names, consumption, production, results)
    ensures |m| == |results| && IsChain(Fractions(key), m, consumption, production, results)
    ensures AllHaveConsumers(key, names, |results|)
    ensures AllShaped(results, m, |results|, |production|)
  {
    CascadeIsChain(key, names, consumption, production, results);
    ChainIsShaped(Fractions(key), KeyMultipliers(key, names, consumption, |production|, |results|), consumption,
        production, results);
    KeyMultipliers(key, names, consumption, |production|, |results|)
  }

  /**
   * The supply ledger of a run: at every timestep, what is given out, the production times the
   * sum of the fractions, was consumed, is the last surplus, or was dropped by multipliers that
   * do not sum to one.
   */
  lemma SupplyLedger(key: KeyInput, names: seq<string>, consumption: Matrix, production: seq<real>,
        results: seq<IterationResult>, t: nat)
    requires IsRun(key, names, consumption, production, results) && t < |production|
    ensures SupplyBalances(results, RunMultipliers(key, names, consumption, production, results), |production|, t,
                           production[t] * SumFirst(Fractions(key), |results|))
  {
    ChainSupplyBalances(Fractions(key), RunMultipliers(key, names, consumption, production, results), consumption,
        production, results, t);
  }

  lemma {:induction false} NothingDropped(results: seq<IterationResult>, multipliers: seq<Matrix>, n: nat,
        timesteps: nat, t: nat)
    requires AllShaped(results, multipliers, n, timesteps) && t < timesteps
    requires forall k :: 0 <= k < n ==> Sum(Column(multipliers[k], t)) == 1.0
    ensures DroppedAt(results, multipliers, n, timesteps, t) == 0.0
  {
    if n > 0 {
      NothingDropped(results, multipliers, n - 1, timesteps, t);
    }
  }

  lemma NothingDroppedBalance(results: seq<IterationResult>, m: seq<Matrix>, timesteps: nat, t: nat, given: real)
    requires SupplyBalances(results, m, timesteps, t, given)
    requires forall k :: 0 <= k < |results| ==> Sum(Column(m[k], t)) == 1.0
    ensures given == ConsumedAt(results, m, |results|, timesteps, t) + results[|results| - 1].surplus[t]
  {
    NothingDropped(results, m, |results|, timesteps, t);
  }

  /** With multipliers that sum to one, what a run gives out is consumed or left over: nothing is lost. */
  lemma NothingLost(key: KeyInput, names: seq<string>, consumption: Matrix, production: seq<real>,
        results: seq<IterationResult>, t: nat, given: real)
    requires IsRun(key, names, consumption, production, results) && t < |production|
    requires var m := RunMultipliers(key, names, consumption, production, results);
             forall k :: 0 <= k < |results| ==> Sum(Column(m[k], t)) == 1.0
    requires given == production[t] * SumFirst(Fractions(key), |results|)
    ensures var m := RunMultipliers(key, names, consumption, production, results);
            given == ConsumedAt(results, m, |results|, |production|, t) + results[|results| - 1].surplus[t]
  {
    hide IsCascade, IsChain, ConsumedAt, Sum, SumFirst, SupplyBalances;
    SupplyLedger(key, names, consumption, production, results, t);
    NothingDroppedBalance(results, RunMultipliers(key, names, consumption, production, results), |production|, t,
        given);
  }

  /** The demand ledger of a run, per consumer, per timestep and in the key's totals. */
  lemma DemandLedger(key: KeyInput, names: seq<string>, consumption: Matrix, production: seq<real>,
        results: seq<IterationResult>)
    requires IsRun(key, names, consumption, production, results)
    ensures var m, n, T := RunMultipliers(key, names, consumption, production, results), |results|, |production|;
            forall j, t :: 0 <= j < |names| && 0 <= t < T ==>
              && |results[n - 1].consumers| == |names|
              && consumption[j][t] == ConsumerConsumedAt(results, m, n, T, j, t)
                                     + results[n - 1].consumers[j].residual[t]
    ensures var r := KeyResultOf(key, results);
            && r.consumptionTotal == r.consumedTotal + r.residualTotal
            && r.consumptionTotal == Sum(RowSums(consumption))
  {
    var m, n, T := RunMultipliers(key, names, consumption, production, results), |results|, |production|;
    forall j, t | 0 <= j < |names| && 0 <= t < T
      ensures |results[n - 1].consumers| == |names|
      ensures consumption[j][t] == ConsumerConsumedAt(results, m, n, T, j, t) + results[n - 1].consumers[j].residual[t]
    {
      ChainConsumerDemand(Fractions(key), m, consumption, production, results, n, j, t);
    }
    ChainTotals(Fractions(key), m, consumption, production, results);
    TotalsTurn(Fractions(key), m, consumption, production, results, 0);
    SumByRows(consumption, T);
  }

  /** Every iteration carries its own number and fraction, and its consumers, in the order of the names, theirs. */
  lemma RunIsLabelled(key: KeyInput, names: seq<string>, consumption: Matrix, production: seq<real>,
        results: seq<IterationResult>, k: nat)
    requires IsCascade(key, names, consumption, production, results) && k < |results|
    ensures var it, r := key.iterations[k], results[k];
            && r.number == it.number && r.fraction == it.fraction && |r.consumers| == |names|
            && forall j :: 0 <= j < |names| ==>
                 && r.consumers[j].name == names[j]
                 && PercentageOf(it.consumers, names[j]) == Found(r.consumers[j].percentage)
  {
    hide Weights, Sum, PercentageOf;
    assert IsTurn(key, names, consumption, production, results, k);
  }

  /** In every iteration of a run, each total is the sum of the consumers' totals. */
  lemma TotalsLedger(key: KeyInput, names: seq<string>, consumption: Matrix, production: seq<real>,
        results: seq<IterationResult>, k: nat)
    requires IsRun(key, names, consumption, production, results) && k < |results|
    ensures var r := results[k];
            && r.consumptionTotal == Sum(Totals(r.consumers, (c: ConsumerResult) => c.consumptionTotal))
            && r.consumedTotal == Sum(Totals(r.consumers, (c: ConsumerResult) => c.consumedTotal))
            && r.residualTotal == Sum(Totals(r.consumers, (c: ConsumerResult) => c.residualTotal))
            && r.surplusTotal == Sum(Totals(r.consumers, (c: ConsumerResult) => c.surplusTotal))
  {
    var m := RunMultipliers(key, names, consumption, production, results);
    FlowTotals(results[k], m[k], |production|);
  }
}
