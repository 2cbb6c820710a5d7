/** What a key of PRORATA consumers only achieves, and that no other key achieves more. */
module Prorata {
  import opened Sums
  import opened Cascade
  import opened Ledgers

  // ---- Data without negative energy ----

  ghost predicate NonnegativeAt(consumption: Matrix, production: seq<real>, fractions: seq<real>, t: nat) {
    && t < |production| && production[t] >= 0.0
    && Rectangular(consumption, |production|)
    && (forall j :: 0 <= j < |consumption| ==> consumption[j][t] >= 0.0)
    && (forall k :: 0 <= k < |fractions| ==> fractions[k] >= 0.0)
  }

  /** Multipliers that take nothing away. */
  ghost predicate IsGiving(m: Matrix, t: nat) {
    forall j :: 0 <= j < |m| ==> t < |m[j]| && m[j][t] >= 0.0
  }

  /** ... and hand out at most all there is. */
  ghost predicate IsSharing(m: Matrix, t: nat) {
    IsGiving(m, t) && Sum(Column(m, t)) <= 1.0
  }

  lemma ProductNonnegative(a: real, b: real)
    requires a >= 0.0 && b >= 0.0
    ensures a * b >= 0.0
  {
  }

  ghost predicate NoNegatives(r: IterationResult, m: Matrix, timesteps: nat, t: nat)
    requires IsShaped(r, m, timesteps) && t < timesteps
  {
    && r.available[t] >= 0.0 && r.consumption[t] >= 0.0 && r.consumed[t] >= 0.0 && r.residual[t] >= 0.0
        && r.surplus[t] >= 0.0
    && forall j :: 0 <= j < |r.consumers| ==> r.consumers[j].residual[t] >= 0.0 && r.consumers[j].consumption[t] >= 0.0
  }

  lemma CellNonnegative(r: IterationResult, m: Matrix, timesteps: nat, j: nat, t: nat)
    requires IsFlow(r, m, timesteps) && t < timesteps && j < |m|
    requires r.available[t] >= 0.0 && m[j][t] >= 0.0 && r.consumers[j].consumption[t] >= 0.0
    ensures Column(Consumptions(r), t)[j] >= 0.0 && Column(Residuals(r), t)[j] >= 0.0
        && Column(Surpluses(r), t)[j] >= 0.0
    ensures r.consumers[j].residual[t] >= 0.0
  {
    assert IsCell(r, m, j, t);
    ProductNonnegative(r.available[t], m[j][t]);
  }

  /** The sums over the consumers are nonnegative when their terms are. */
  lemma ColumnNonnegative(r: IterationResult, m: Matrix, timesteps: nat, t: nat)
    requires IsShaped(r, m, timesteps) && t < timesteps && IsColumn(r, m, t)
    requires forall j :: 0 <= j < |m| ==> Column(Demands(r), t)[j] >= 0.0 && Column(Consumptions(r), t)[j] >= 0.0
    requires forall j :: 0 <= j < |m| ==> Column(Residuals(r), t)[j] >= 0.0 && Column(Surpluses(r), t)[j] >= 0.0
    ensures r.consumption[t] >= 0.0 && r.consumed[t] >= 0.0 && r.residual[t] >= 0.0 && r.surplus[t] >= 0.0
  {
    hide Sum;
    SumNonnegative(Column(Demands(r), t));
    SumNonnegative(Column(Consumptions(r), t));
    SumNonnegative(Column(Residuals(r), t));
    SumNonnegative(Column(Surpluses(r), t));
  }

  lemma FlowNonnegative(r: IterationResult, m: Matrix, timesteps: nat, t: nat)
    requires IsFlow(r, m, timesteps) && t < timesteps && IsGiving(m, t)
    requires r.available[t] >= 0.0
    requires forall j :: 0 <= j < |m| ==> r.consumers[j].consumption[t] >= 0.0
    ensures NoNegatives(r, m, timesteps, t)
  {
    forall j | 0 <= j < |m|
      ensures Column(Demands(r), t)[j] >= 0.0 && Column(Consumptions(r), t)[j] >= 0.0
      ensures Column(Residuals(r), t)[j] >= 0.0 && Column(Surpluses(r), t)[j] >= 0.0
      ensures r.consumers[j].residual[t] >= 0.0
    {
      CellNonnegative(r, m, timesteps, j, t);
    }
    assert IsColumn(r, m, t);
    hide IsFlow, IsCell;
    ColumnNonnegative(r, m, timesteps, t);
  }

  lemma {:induction false} ChainNonnegative(fractions: seq<real>, multipliers: seq<Matrix>, consumption: Matrix,
        production: seq<real>, results: seq<IterationResult>, k: nat, t: nat)
    requires IsChain(fractions, multipliers, consumption, production, results) && k < |results|
    requires NonnegativeAt(consumption, production, fractions, t)
    requires forall i :: 0 <= i < |results| ==> IsGiving(multipliers[i], t)
    ensures IsShaped(results[k], multipliers[k], |production|)
        && NoNegatives(results[k], multipliers[k], |production|, t)
    decreases k
  {
    var r, m := results[k], multipliers[k];
    assert IsFlow(r, m, |production|) && IsLinked(fractions, consumption, production, results, k);
    ProductNonnegative(production[t], fractions[k]);
    if k > 0 {
      ChainNonnegative(fractions, multipliers, consumption, production, results, k - 1, t);
    }
    hide IsFlow, IsLinked, IsCell, IsColumn;
    forall j | 0 <= j < |m| ensures r.consumers[j].consumption[t] >= 0.0 {
      LinkedCell(fractions, multipliers, consumption, production, results, k, j, t);
    }
    FlowNonnegative(r, m, |production|, t);
  }

  lemma {:induction false} SumsNonnegative(fractions: seq<real>, multipliers: seq<Matrix>, consumption: Matrix,
        production: seq<real>, results: seq<IterationResult>, n: nat, t: nat)
    requires IsChain(fractions, multipliers, consumption, production, results) && n <= |results|
    requires NonnegativeAt(consumption, production, fractions, t)
    requires forall i :: 0 <= i < |results| ==> IsSharing(multipliers[i], t)
    ensures AllShaped(results, multipliers, |results|, |production|)
    ensures ConsumedAt(results, multipliers, n, |production|, t) >= 0.0
    ensures DroppedAt(results, multipliers, n, |production|, t) >= 0.0
    decreases n
  {
    ChainIsShaped(fractions, multipliers, consumption, production, results);
    if n > 0 {
      SumsNonnegative(fractions, multipliers, consumption, production, results, n - 1, t);
      ChainNonnegative(fractions, multipliers, consumption, production, results, n - 1, t);
      ProductNonnegative(results[n - 1].available[t], 1.0 - Sum(Column(multipliers[n - 1], t)));
    }
  }

  /** No cascade consumes more than the demand, nor more than it is given. */
  lemma AtMost(fractions: seq<real>, multipliers: seq<Matrix>, consumption: Matrix, production: seq<real>,
        results: seq<IterationResult>, n: nat, t: nat)
    requires IsChain(fractions, multipliers, consumption, production, results) && 0 < n <= |results|
    requires NonnegativeAt(consumption, production, fractions, t)
    requires forall i :: 0 <= i < |results| ==> IsSharing(multipliers[i], t)
    ensures AllShaped(results, multipliers, |results|, |production|)
    ensures 0.0 <= ConsumedAt(results, multipliers, n, |production|, t)
                <= Min(Sum(Column(consumption, t)), Handed(production[t], fractions, n))
  {
    SumsNonnegative(fractions, multipliers, consumption, production, results, n, t);
    ChainNonnegative(fractions, multipliers, consumption, production, results, n - 1, t);
    ChainSupply(fractions, multipliers, consumption, production, results, n, t);
    ChainDemand(fractions, multipliers, consumption, production, results, n, t);
  }

  // ---- Weights ----

  /** The weights of a timestep sum to one, or to zero when nothing is consumed. */
  lemma WeightsSum(consumption: Matrix, timesteps: nat, t: nat)
    requires Rectangular(consumption, timesteps) && t < timesteps
    ensures Sum(Column(Weights(consumption, timesteps), t)) == if Sum(Column(consumption, t)) == 0.0 then 0.0 else 1.0
  {
    var total := Sum(Column(consumption, t));
    var weights := Column(Weights(consumption, timesteps), t);
    if total == 0.0 {
      SumZero(weights);
    } else {
      forall j | 0 <= j < |consumption| ensures weights[j] == (1.0 / total) * Column(consumption, t)[j] {
        assert weights[j] == consumption[j][t] / total;
      }
      SumScale(1.0 / total, Column(consumption, t), weights);
    }
  }

  lemma QuotientNonnegative(a: real, b: real)
    requires a >= 0.0 && b > 0.0
    ensures a / b >= 0.0
  {
  }

  /** Each weight is its consumer's share of the total. */
  lemma WeightShare(consumption: Matrix, timesteps: nat, j: nat, t: nat)
    requires Rectangular(consumption, timesteps) && t < timesteps && j < |consumption|
    requires forall i :: 0 <= i < |consumption| ==> consumption[i][t] >= 0.0
    ensures var w, total := Weights(consumption, timesteps)[j][t], Sum(Column(consumption, t));
            w >= 0.0 && consumption[j][t] == w * total && (total == 0.0 ==> w == 0.0)
  {
    var total := Sum(Column(consumption, t));
    SumNonnegative(Column(consumption, t));
    assert Column(consumption, t)[j] == consumption[j][t];
    if total != 0.0 {
      var w := consumption[j][t] / total;
      QuotientNonnegative(consumption[j][t], total);
      assert w * total == consumption[j][t];
    }
  }

  lemma WeightSign(consumption: Matrix, timesteps: nat, j: nat, t: nat)
    requires Rectangular(consumption, timesteps) && t < timesteps && j < |consumption|
    requires forall i :: 0 <= i < |consumption| ==> consumption[i][t] >= 0.0
    ensures Sum(Column(consumption, t)) >= 0.0
    ensures Weights(consumption, timesteps)[j][t] >= 0.0
    ensures Sum(Column(consumption, t)) == 0.0 ==> Weights(consumption, timesteps)[j][t] == 0.0
  {
    SumNonnegative(Column(consumption, t));
    WeightShare(consumption, timesteps, j, t);
  }

  lemma WeightsAreSharing(consumption: Matrix, timesteps: nat, t: nat)
    requires Rectangular(consumption, timesteps) && t < timesteps
    requires forall i :: 0 <= i < |consumption| ==> consumption[i][t] >= 0.0
    ensures IsSharing(Weights(consumption, timesteps), t)
  {
    WeightsSum(consumption, timesteps, t);
    forall j | 0 <= j < |consumption| ensures Weights(consumption, timesteps)[j][t] >= 0.0 {
      WeightShare(consumption, timesteps, j, t);
    }
  }

  // ---- The collapse ----

  /** Every iteration allots by the weights. */
  ghost predicate AllWeights(multipliers: seq<Matrix>, n: nat, weights: Matrix) {
    n <= |multipliers| && forall k :: 0 <= k < n ==> multipliers[k] == weights
  }

  /** Scaling demand and allotment by one weight scales what is left of either. */
  lemma ScaledExcess(w: real, x: real, v: real)
    requires w >= 0.0
    ensures Relu(w * x - v * w) == w * Relu(x - v)
  {
    assert w * x - v * w == w * (x - v);
    if x - v > 0.0 {
      ProductNonnegative(w, x - v);
    } else {
      ProductNonnegative(w, v - x);
      assert w * (x - v) == -(w * (v - x));
    }
  }

  /** One more iteration, given `step` when `given` had already been handed out. */
  lemma NextExcess(total: real, given: real, step: real)
    requires total >= 0.0 && given >= 0.0 && step >= 0.0
    ensures var x, v := Relu(total - given), step + Relu(given - total);
            && Relu(x - v) == Relu(total - (given + step))
            && Relu(v - x) == Relu(given + step - total)
  {
  }

  /** The same for one consumer, whose demand and allotment are its weight's share. */
  lemma NextShare(w: real, total: real, given: real, step: real, demand: real, available: real)
    requires w >= 0.0 && total >= 0.0 && given >= 0.0 && step >= 0.0
    requires demand == w * Relu(total - given)
    requires if total == 0.0 then w == 0.0 else available == step + Relu(given - total)
    ensures Relu(demand - available * w) == w * Relu(total - (given + step))
    ensures Relu(available * w - demand) == w * Relu(given + step - total)
  {
    var x := Relu(total - given);
    ScaledExcess(w, x, available);
    ScaledExcess(w, available, x);
    if total != 0.0 {
      NextExcess(total, given, step);
    }
  }

  /** A consumer whose residual and surplus are its weight's share of what is left of each. */
  ghost predicate HasShare(c: ConsumerResult, t: nat, w: real, unmet: real, left: real) {
    t < |c.residual| && t < |c.surplus| && c.residual[t] == w * unmet && c.surplus[t] == w * left
  }

  /**
   * After `k + 1` iterations, consumer `j` is left with its share of the demand not covered, and of
   * the energy left.
   */
  ghost predicate IsCollapsed(fractions: seq<real>, consumption: Matrix, production: seq<real>, r: IterationResult,
        m: Matrix, k: nat, j: nat, t: nat)
    requires k < |fractions| && IsShaped(r, m, |production|) && j < |m| && t < |production|
    requires Rectangular(consumption, |production|) && |consumption| == |m|
  {
    var total, given := Sum(Column(consumption, t)), Handed(production[t], fractions, k + 1);
    HasShare(r.consumers[j], t, Weights(consumption, |production|)[j][t], Relu(total - given), Relu(given - total))
  }

  /** Shares of one amount sum to that amount, when the weights sum to one. */
  lemma SharesSum(rows: Matrix, weights: seq<real>, t: nat, amount: real)
    requires |rows| == |weights| && Sum(weights) == 1.0
    requires forall j :: 0 <= j < |rows| ==> t < |rows[j]| && rows[j][t] == weights[j] * amount
    ensures Sum(Column(rows, t)) == amount
  {
    forall j | 0 <= j < |rows| ensures Column(rows, t)[j] == amount * weights[j] {}
    SumScale(amount, weights, Column(rows, t));
  }

  /** The surplus of a collapsed iteration is all the energy left, where anything is consumed. */
  lemma CollapsedSurplus(fractions: seq<real>, consumption: Matrix, production: seq<real>, r: IterationResult,
        m: Matrix, k: nat, t: nat)
    requires k < |fractions| && IsShaped(r, m, |production|) && t < |production| && IsColumn(r, m, t)
    requires Rectangular(consumption, |production|) && |consumption| == |m|
    requires forall j :: 0 <= j < |m| ==> IsCollapsed(fractions, consumption, production, r, m, k, j, t)
    requires Sum(Column(consumption, t)) != 0.0
    ensures r.surplus[t] == Relu(Handed(production[t], fractions, k + 1) - Sum(Column(consumption, t)))
    ensures r.residual[t] == Relu(Sum(Column(consumption, t)) - Handed(production[t], fractions, k + 1))
  {
    hide Handed, Relu, Weights, Sum, IsCell;
    var total, given := Sum(Column(consumption, t)), Handed(production[t], fractions, k + 1);
    var weights := Column(Weights(consumption, |production|), t);
    WeightsSum(consumption, |production|, t);
    forall j | 0 <= j < |m|
      ensures Surpluses(r)[j][t] == weights[j] * Relu(given - total)
      ensures Residuals(r)[j][t] == weights[j] * Relu(total - given)
    {
      assert IsCollapsed(fractions, consumption, production, r, m, k, j, t);
    }
    SharesSum(Surpluses(r), weights, t, Relu(given - total));
    SharesSum(Residuals(r), weights, t, Relu(total - given));
  }

  /** What an iteration starts from, for one consumer. */
  lemma LinkedCell(fractions: seq<real>, multipliers: seq<Matrix>, consumption: Matrix, production: seq<real>,
        results: seq<IterationResult>, k: nat, j: nat, t: nat)
    requires IsChain(fractions, multipliers, consumption, production, results) && k < |results|
    requires j < |consumption| && t < |production|
    ensures IsShaped(results[k], multipliers[k], |production|) && |multipliers[k]| == |consumption|
    ensures IsCell(results[k], multipliers[k], j, t) && IsColumn(results[k], multipliers[k], t)
    ensures k > 0 ==>
              IsShaped(results[k - 1], multipliers[k - 1], |production|) && |multipliers[k - 1]| == |consumption|
    ensures results[k].consumers[j].consumption[t] ==
            if k == 0 then consumption[j][t] else results[k - 1].consumers[j].residual[t]
    ensures results[k].available[t] ==
            production[t] * fractions[k] + (if k == 0 then 0.0 else results[k - 1].surplus[t])
  {
    var r := results[k];
    assert IsFlow(r, multipliers[k], |production|) && IsLinked(fractions, consumption, production, results, k);
    assert Demands(r)[j] == r.consumers[j].consumption;
    if k > 0 {
      assert IsFlow(results[k - 1], multipliers[k - 1], |production|);
      assert Residuals(results[k - 1])[j] == results[k - 1].consumers[j].residual;
    }
  }

  lemma {:induction false} HandedNonnegative(p: real, fractions: seq<real>, n: nat)
    requires n <= |fractions| && p >= 0.0 && forall k :: 0 <= k < |fractions| ==> fractions[k] >= 0.0
    ensures Handed(p, fractions, n) >= 0.0
  {
    if n > 0 {
      HandedNonnegative(p, fractions, n - 1);
      ProductNonnegative(p, fractions[n - 1]);
    }
  }

  lemma HandedNext(p: real, fractions: seq<real>, k: nat)
    requires k < |fractions|
    ensures Handed(p, fractions, k + 1) == Handed(p, fractions, k) + p * fractions[k]
  {
  }

  lemma CellShare(r: IterationResult, m: Matrix, timesteps: nat, j: nat, t: nat, total: real, given: real, step: real,
        next: real)
    requires IsShaped(r, m, timesteps) && j < |m| && t < timesteps && IsCell(r, m, j, t)
    requires m[j][t] >= 0.0 && total >= 0.0 && given >= 0.0 && step >= 0.0 && next == given + step
    requires r.consumers[j].consumption[t] == m[j][t] * Relu(total - given)
    requires if total == 0.0 then m[j][t] == 0.0 else r.available[t] == step + Relu(given - total)
    ensures HasShare(r.consumers[j], t, m[j][t], Relu(total - next), Relu(next - total))
  {
    hide Relu;
    NextShare(m[j][t], total, given, step, r.consumers[j].consumption[t], r.available[t]);
  }

  lemma CellSigns(fractions: seq<real>, consumption: Matrix, production: seq<real>, k: nat, j: nat, t: nat)
    requires k < |fractions| && t < |production| && j < |consumption|
    requires NonnegativeAt(consumption, production, fractions, t)
    ensures Sum(Column(consumption, t)) >= 0.0 && Weights(consumption, |production|)[j][t] >= 0.0
    ensures Sum(Column(consumption, t)) == 0.0 ==> Weights(consumption, |production|)[j][t] == 0.0
    ensures Handed(production[t], fractions, k) >= 0.0 && production[t] * fractions[k] >= 0.0
    ensures Handed(production[t], fractions, k + 1) ==
            Handed(production[t], fractions, k) + production[t] * fractions[k]
  {
    HandedNext(production[t], fractions, k);
    hide Weights, Sum, Handed;
    WeightSign(consumption, |production|, j, t);
    HandedNonnegative(production[t], fractions, k);
    ProductNonnegative(production[t], fractions[k]);
  }

  lemma CollapsedCell(fractions: seq<real>, consumption: Matrix, production: seq<real>, r: IterationResult, m: Matrix,
        k: nat, j: nat, t: nat)
    requires k < |fractions| && IsShaped(r, m, |production|) && j < |m| && t < |production| && IsCell(r, m, j, t)
    requires NonnegativeAt(consumption, production, fractions, t) && |consumption| == |m| && m ==
        Weights(consumption, |production|)
    requires r.consumers[j].consumption[t] ==
             m[j][t] * Relu(Sum(Column(consumption, t)) - Handed(production[t], fractions, k))
    requires Sum(Column(consumption, t)) != 0.0 ==>
               r.available[t] ==
                 production[t] * fractions[k] + Relu(Handed(production[t], fractions, k) - Sum(Column(consumption, t)))
    ensures IsCollapsed(fractions, consumption, production, r, m, k, j, t)
  {
    hide IsCell, HasShare, Relu, Weights, Sum, Handed;
    var total, given, step := Sum(Column(consumption, t)), Handed(production[t], fractions, k),
        production[t] * fractions[k];
    CellSigns(fractions, consumption, production, k, j, t);
    CellShare(r, m, |production|, j, t, total, given, step, Handed(production[t], fractions, k + 1));
  }

  lemma {:induction false} Collapse(fractions: seq<real>, multipliers: seq<Matrix>, consumption: Matrix,
        production: seq<real>, results: seq<IterationResult>, k: nat, t: nat)
    requires IsChain(fractions, multipliers, consumption, production, results) && k < |results|
    requires NonnegativeAt(consumption, production, fractions, t)
    requires AllWeights(multipliers, |results|, Weights(consumption, |production|))
    ensures IsShaped(results[k], multipliers[k], |production|) && |multipliers[k]| == |consumption|
    ensures forall j :: 0 <= j < |consumption| ==>
              IsCollapsed(fractions, consumption, production, results[k], multipliers[k], k, j, t)
    decreases k
  {
    assert IsFlow(results[k], multipliers[k], |production|);
    hide IsLinked, IsCell, Handed, Relu, Sum;
    if k > 0 {
      assert IsFlow(results[k - 1], multipliers[k - 1], |production|);
      assert IsColumn(results[k - 1], multipliers[k - 1], t);
      Collapse(fractions, multipliers, consumption, production, results, k - 1, t);
      if Sum(Column(consumption, t)) != 0.0 {
        CollapsedSurplus(fractions, consumption, production, results[k - 1], multipliers[k - 1], k - 1, t);
      }
    }
    forall j | 0 <= j < |consumption|
      ensures IsCollapsed(fractions, consumption, production, results[k], multipliers[k], k, j, t)
    {
      CollapseConsumer(fractions, multipliers, consumption, production, results, k, j, t);
    }
  }

  lemma CollapseConsumer(fractions: seq<real>, multipliers: seq<Matrix>, consumption: Matrix, production: seq<real>,
        results: seq<IterationResult>, k: nat, j: nat, t: nat)
    requires IsChain(fractions, multipliers, consumption, production, results) && k < |results| && j < |consumption|
    requires NonnegativeAt(consumption, production, fractions, t)
    requires multipliers[k] == Weights(consumption, |production|)
    requires k > 0 ==> multipliers[k - 1] == Weights(consumption, |production|)
    requires k > 0 ==> IsShaped(results[k - 1], multipliers[k - 1], |production|)
    requires k > 0 ==> IsCollapsed(fractions, consumption, production, results[k - 1], multipliers[k - 1], k - 1, j, t)
    requires k > 0 && Sum(Column(consumption, t)) != 0.0 ==>
               results[k - 1].surplus[t] == Relu(Handed(production[t], fractions, k) - Sum(Column(consumption, t)))
    ensures IsShaped(results[k], multipliers[k], |production|) && |multipliers[k]| == |consumption|
    ensures IsCollapsed(fractions, consumption, production, results[k], multipliers[k], k, j, t)
  {
    hide IsFlow, IsLinked, Weights, Sum;
    LinkedCell(fractions, multipliers, consumption, production, results, k, j, t);
    if k == 0 {
      WeightShare(consumption, |production|, j, t);
      SumNonnegative(Column(consumption, t));
    }
    CollapsedCell(fractions, consumption, production, results[k], multipliers[k], k, j, t);
  }

  lemma CollapsedResidual(fractions: seq<real>, multipliers: seq<Matrix>, consumption: Matrix,
        production: seq<real>, results: seq<IterationResult>, t: nat)
    requires IsChain(fractions, multipliers, consumption, production, results) && results != []
    requires NonnegativeAt(consumption, production, fractions, t) && Sum(Column(consumption, t)) != 0.0
    requires AllWeights(multipliers, |results|, Weights(consumption, |production|))
    ensures t < |results[|results| - 1].residual|
    ensures results[|results| - 1].residual[t] ==
            Relu(Sum(Column(consumption, t)) - Handed(production[t], fractions, |results|))
  {
    var n := |results|;
    Collapse(fractions, multipliers, consumption, production, results, n - 1, t);
    assert IsFlow(results[n - 1], multipliers[n - 1], |production|);
    assert IsColumn(results[n - 1], multipliers[n - 1], t);
    hide IsFlow, IsChain, IsColumn, IsCollapsed, Handed, Relu, Sum, Weights;
    CollapsedSurplus(fractions, consumption, production, results[n - 1], multipliers[n - 1], n - 1, t);
  }

  lemma LesserOf(total: real, given: real, consumed: real, residual: real)
    requires total == consumed + residual && residual == Relu(total - given)
    ensures consumed == Min(total, given)
  {
  }

  /** A chain of weights consumes all it is given, up to the demand. */
  lemma CollapsedConsumption(fractions: seq<real>, multipliers: seq<Matrix>, consumption: Matrix,
        production: seq<real>, results: seq<IterationResult>, t: nat)
    requires IsChain(fractions, multipliers, consumption, production, results) && results != []
    requires NonnegativeAt(consumption, production, fractions, t)
    requires AllWeights(multipliers, |results|, Weights(consumption, |production|))
    ensures AllShaped(results, multipliers, |results|, |production|)
    ensures ConsumedAt(results, multipliers, |results|, |production|, t) ==
            Min(Sum(Column(consumption, t)), Handed(production[t], fractions, |results|))
  {
    var n, total, given := |results|, Sum(Column(consumption, t)), Handed(production[t], fractions, |results|);
    WeightsAreSharing(consumption, |production|, t);
    SumNonnegative(Column(consumption, t));
    HandedNonnegative(production[t], fractions, n);
    hide IsChain, IsSharing, Handed, Sum, Weights, ConsumedAt, Relu;
    AtMost(fractions, multipliers, consumption, production, results, n, t);
    if total != 0.0 {
      ChainDemand(fractions, multipliers, consumption, production, results, n, t);
      CollapsedResidual(fractions, multipliers, consumption, production, results, t);
      LesserOf(total, given, ConsumedAt(results, multipliers, n, |production|, t), results[n - 1].residual[t]);
    }
  }

  // ---- Keys ----

  /** Every consumer's percentage is at or below -1, the sentinel for PRORATA. */
  ghost predicate IsProrata(key: KeyInput, names: seq<string>) {
    forall k, j :: 0 <= k < |key.iterations| && 0 <= j < |names| ==>
      PercentageOf(key.iterations[k].consumers, names[j]).Found?
          && PercentageOf(key.iterations[k].consumers, names[j]).percentage <= -1.0
  }

  lemma ProrataMultipliers(key: KeyInput, names: seq<string>, consumption: Matrix, production: seq<real>,
        results: seq<IterationResult>)
    requires IsRun(key, names, consumption, production, results) && IsProrata(key, names)
    ensures AllWeights(RunMultipliers(key, names, consumption, production, results), |results|,
                       Weights(consumption, |production|))
  {
    var weights := Weights(consumption, |production|);
    forall k | 0 <= k < |results|
      ensures RunMultipliers(key, names, consumption, production, results)[k] == weights
    {
      var m := Multipliers(key.iterations[k], names, weights);
      forall j | 0 <= j < |m| ensures m[j] == weights[j] {
        assert PercentageOf(key.iterations[k].consumers, names[j]).percentage <= -1.0;
        forall t | 0 <= t < |weights[j]| ensures m[j][t] == weights[j][t] {}
      }
    }
  }

  /** The energy a whole run consumes at one timestep. */
  ghost function RunConsumedAt(key: KeyInput, names: seq<string>, consumption: Matrix, production: seq<real>,
        results: seq<IterationResult>, t: nat): real
    requires IsRun(key, names, consumption, production, results) && t < |production|
  {
    ConsumedAt(results, RunMultipliers(key, names, consumption, production, results), |results|, |production|, t)
  }

  /**
   * A PRORATA key of any number of iterations consumes, at every timestep, the lesser of the demand
   * and what it is given.
   */
  lemma ProrataCollapse(key: KeyInput, names: seq<string>, consumption: Matrix, production: seq<real>,
        results: seq<IterationResult>, t: nat, given: real)
    requires IsRun(key, names, consumption, production, results) && IsProrata(key, names)
    requires NonnegativeAt(consumption, production, Fractions(key), t)
    requires given == production[t] * SumFirst(Fractions(key), |results|)
    ensures RunConsumedAt(key, names, consumption, production, results, t) == Min(Sum(Column(consumption, t)), given)
  {
    hide Handed, IsFlow, IsLinked, ConsumedAt, SumFirst, KeyMultipliers, IsCascade, IsChain, IsSharing, AllShaped;
    ProrataMultipliers(key, names, consumption, production, results);
    HandedIsProduct(production[t], Fractions(key), |results|);
    CollapsedConsumption(Fractions(key), RunMultipliers(key, names, consumption, production, results), consumption,
        production, results, t);
  }

  /** After each iteration of a PRORATA key, what is left of every demand is the same share of it. */
  lemma ProrataResiduals(key: KeyInput, names: seq<string>, consumption: Matrix, production: seq<real>,
        results: seq<IterationResult>, k: nat, j: nat, t: nat)
    requires IsRun(key, names, consumption, production, results) && IsProrata(key, names)
    requires NonnegativeAt(consumption, production, Fractions(key), t) && k < |results| && j < |names|
    ensures j < |results[k].consumers| && t < |results[k].consumers[j].residual|
    ensures results[k].consumers[j].residual[t] ==
            Weights(consumption, |production|)[j][t] *
            Relu(Sum(Column(consumption, t)) - Handed(production[t], Fractions(key), k + 1))
  {
    var m := RunMultipliers(key, names, consumption, production, results);
    ProrataMultipliers(key, names, consumption, production, results);
    Collapse(Fractions(key), m, consumption, production, results, k, t);
    assert IsCollapsed(Fractions(key), consumption, production, results[k], m[k], k, j, t);
  }

  /** The data have a row for each name, and every iteration knows all of them. */
  ghost predicate Fits(key: KeyInput, names: seq<string>, consumption: Matrix, timesteps: nat) {
    |consumption| == |names| && Rectangular(consumption, timesteps) && AllHaveConsumers(key, names, |key.iterations|)
  }

  /** No multiplier of the key takes anything away. */
  ghost predicate GivesAt(key: KeyInput, names: seq<string>, consumption: Matrix, timesteps: nat, t: nat) {
    && Fits(key, names, consumption, timesteps)
    && var m := KeyMultipliers(key, names, consumption, timesteps, |key.iterations|);
       forall k :: 0 <= k < |m| ==> IsGiving(m[k], t)
  }

  /** Every iteration of the key hands out nonnegative shares of at most all it has. */
  ghost predicate SharesAt(key: KeyInput, names: seq<string>, consumption: Matrix, timesteps: nat, t: nat) {
    && Fits(key, names, consumption, timesteps)
    && var m := KeyMultipliers(key, names, consumption, timesteps, |key.iterations|);
       forall k :: 0 <= k < |m| ==> IsSharing(m[k], t)
  }

  lemma RunAtMost(key: KeyInput, names: seq<string>, consumption: Matrix, production: seq<real>,
        results: seq<IterationResult>, t: nat, given: real)
    requires IsRun(key, names, consumption, production, results)
    requires NonnegativeAt(consumption, production, Fractions(key), t)
        && SharesAt(key, names, consumption, |production|, t)
    requires given == production[t] * SumFirst(Fractions(key), |results|)
    ensures 0.0 <= RunConsumedAt(key, names, consumption, production, results, t)
                <= Min(Sum(Column(consumption, t)), given)
  {
    hide Handed, IsFlow, IsLinked, ConsumedAt, SumFirst, KeyMultipliers, IsCascade, IsChain, IsSharing, AllShaped;
    HandedIsProduct(production[t], Fractions(key), |results|);
    AtMost(Fractions(key), RunMultipliers(key, names, consumption, production, results), consumption, production,
        results, |results|, t);
  }

  /** No key with the same fractions consumes more than a PRORATA key, at any timestep. */
  lemma ProrataIsOptimal(prorata: KeyInput, other: KeyInput, names: seq<string>, consumption: Matrix,
        production: seq<real>, best: seq<IterationResult>, results: seq<IterationResult>, t: nat)
    requires IsRun(prorata, names, consumption, production, best) && IsProrata(prorata, names)
    requires IsRun(other, names, consumption, production, results) && Fractions(other) == Fractions(prorata)
    requires NonnegativeAt(consumption, production, Fractions(prorata), t)
        && SharesAt(other, names, consumption, |production|, t)
    ensures RunConsumedAt(other, names, consumption, production, results, t)
         <= RunConsumedAt(prorata, names, consumption, production, best, t)
  {
    var given := production[t] * SumFirst(Fractions(prorata), |best|);
    assert |Fractions(other)| == |results| && |Fractions(prorata)| == |best|;
    RunAtMost(other, names, consumption, production, results, t, given);
    ProrataCollapse(prorata, names, consumption, production, best, t, given);
  }
}
