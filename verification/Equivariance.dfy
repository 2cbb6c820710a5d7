/** The order participants are listed in does not matter. */
module Equivariance {
  import opened Sequences
  import opened Sums
  import opened Cascade

  // ---- The order of an iteration's consumers ----

  predicate DistinctNames(consumers: seq<ConsumerInput>) {
    forall i, j :: 0 <= i < j < |consumers| ==> consumers[i].name != consumers[j].name
  }

  /** The percentage found is that of an entry with the name; none is found exactly when there is none. */
  lemma {:induction false} PercentageIsListed(consumers: seq<ConsumerInput>, name: string)
    ensures PercentageOf(consumers, name).Absent? <==> forall i :: 0 <= i < |consumers| ==> consumers[i].name != name
    ensures PercentageOf(consumers, name).Found? ==>
              ConsumerInput(name, PercentageOf(consumers, name).percentage) in consumers
  {
    if consumers != [] {
      PercentageIsListed(consumers[..|consumers| - 1], name);
    }
  }

  /** With distinct names, every entry is the one found under its name. */
  lemma {:induction false} ListedIsFound(consumers: seq<ConsumerInput>, c: ConsumerInput)
    requires DistinctNames(consumers) && c in consumers
    ensures PercentageOf(consumers, c.name) == Found(c.percentage)
  {
    var last := consumers[|consumers| - 1];
    if last.name != c.name {
      ListedIsFound(consumers[..|consumers| - 1], c);
    } else {
      var i :| 0 <= i < |consumers| && consumers[i] == c;
      assert i == |consumers| - 1;
    }
  }

  lemma FoundCarries(a: seq<ConsumerInput>, b: seq<ConsumerInput>, name: string)
    requires multiset(a) == multiset(b) && DistinctNames(b) && PercentageOf(a, name).Found?
    ensures PercentageOf(b, name) == PercentageOf(a, name)
  {
    PercentageIsListed(a, name);
    var c := ConsumerInput(name, PercentageOf(a, name).percentage);
    assert c in multiset(a) && c in multiset(b);
    ListedIsFound(b, c);
  }

  /** Reordering a list of distinct names changes no percentage. */
  lemma ReorderedPercentage(a: seq<ConsumerInput>, b: seq<ConsumerInput>, name: string)
    requires multiset(a) == multiset(b) && DistinctNames(a) && DistinctNames(b)
    ensures PercentageOf(a, name) == PercentageOf(b, name)
  {
    if PercentageOf(a, name).Found? {
      FoundCarries(a, b, name);
    }
    if PercentageOf(b, name).Found? {
      FoundCarries(b, a, name);
    }
  }

  /** A key whose iterations list the same consumers in another order. */
  ghost predicate IsReordered(key: KeyInput, other: KeyInput) {
    && |key.iterations| == |other.iterations|
    && forall k :: 0 <= k < |key.iterations| ==>
         var a, b := key.iterations[k], other.iterations[k];
         && a.number == b.number && a.fraction == b.fraction
         && multiset(a.consumers) == multiset(b.consumers) && DistinctNames(a.consumers) && DistinctNames(b.consumers)
  }

  lemma SamePercentages(a: IterationInput, b: IterationInput, names: seq<string>)
    requires multiset(a.consumers) == multiset(b.consumers) && DistinctNames(a.consumers) && DistinctNames(b.consumers)
    requires HasConsumers(a, names)
    ensures HasConsumers(b, names) && Percentages(a, names) == Percentages(b, names)
  {
    forall j | 0 <= j < |names| ensures PercentageOf(a.consumers, names[j]) == PercentageOf(b.consumers, names[j]) {
      ReorderedPercentage(a.consumers, b.consumers, names[j]);
    }
  }

  /** Reordering the distinct-named consumers of a key's iterations changes nothing in its run. */
  lemma ReorderedKey(key: KeyInput, other: KeyInput, names: seq<string>, consumption: Matrix, production: seq<real>,
        results: seq<IterationResult>)
    requires IsReordered(key, other) && IsCascade(key, names, consumption, production, results)
    ensures IsCascade(other, names, consumption, production, results)
  {
    forall k | 0 <= k < |results| ensures IsTurn(other, names, consumption, production, results, k) {
      assert IsTurn(key, names, consumption, production, results, k);
      SamePercentages(key.iterations[k], other.iterations[k], names);
    }
  }

  // ---- The order of the names ----

  /** The rows of a matrix, the names or the results, listed in another order. */
  ghost predicate Reorders<T>(order: seq<nat>, xs: seq<T>) {
    IsOrder(order, |xs|) && |order| == |xs| && forall i :: 0 <= i < |order| ==> order[i] < |xs|
  }

  lemma OrderOf<T>(order: seq<nat>, xs: seq<T>)
    requires IsOrder(order, |xs|)
    ensures Reorders(order, xs)
  {
    OrderInRange(order, |xs|);
  }

  lemma ColumnSumsReordered(m: Matrix, order: seq<nat>, timesteps: nat)
    requires Reorders(order, m) && Rectangular(m, timesteps)
    ensures ColumnSums(Reorder(m, order), timesteps) == ColumnSums(m, timesteps)
  {
    forall t | 0 <= t < timesteps ensures Sum(Column(Reorder(m, order), t)) == Sum(Column(m, t)) {
      assert Column(Reorder(m, order), t) == Reorder(Column(m, t), order);
      SumOfOrder(Column(m, t), order);
    }
  }

  lemma WeightsReordered(consumption: Matrix, order: seq<nat>, timesteps: nat)
    requires Reorders(order, consumption) && Rectangular(consumption, timesteps)
    ensures Weights(Reorder(consumption, order), timesteps) == Reorder(Weights(consumption, timesteps), order)
  {
    ColumnSumsReordered(consumption, order, timesteps);
  }

  lemma PercentagesReordered(it: IterationInput, names: seq<string>, order: seq<nat>)
    requires Reorders(order, names) && HasConsumers(it, names)
    ensures HasConsumers(it, Reorder(names, order)) && Percentages(it, Reorder(names, order)) ==
        Reorder(Percentages(it, names), order)
  {
  }

  lemma AllottedReordered(available: seq<real>, percentages: seq<real>, weights: Matrix, order: seq<nat>)
    requires Reorders(order, percentages) && |percentages| == |weights| && Rectangular(weights, |available|)
    ensures AllottedMatrix(available, MultiplierMatrix(Reorder(percentages, order), Reorder(weights, order))) ==
            Reorder(AllottedMatrix(available, MultiplierMatrix(percentages, weights)), order)
  {
  }

  lemma ExcessReordered(a: Matrix, b: Matrix, order: seq<nat>)
    requires Reorders(order, a) && SameShape(a, b)
    ensures Excess(Reorder(a, order), Reorder(b, order)) == Reorder(Excess(a, b), order)
    ensures Smaller(Reorder(a, order), Reorder(b, order)) == Reorder(Smaller(a, b), order)
  {
  }

  lemma ConsumersReordered(names: seq<string>, percentages: seq<real>, consumption: Matrix, allotted: Matrix,
        order: seq<nat>)
    requires Reorders(order, names) && |names| == |percentages| == |consumption| && SameShape(consumption, allotted)
    ensures ConsumersOf(Reorder(names, order), Reorder(percentages, order),
                        Reorder(consumption, order), Reorder(allotted, order)) ==
            Reorder(ConsumersOf(names, percentages, consumption, allotted), order)
  {
    ExcessReordered(consumption, allotted, order);
    ExcessReordered(allotted, consumption, order);
  }

  /** The result of an iteration with its consumers listed in another order. */
  function ReorderConsumers(r: IterationResult, order: seq<nat>): IterationResult
    requires forall i :: 0 <= i < |order| ==> order[i] < |r.consumers|
  {
    r.(consumers := Reorder(r.consumers, order))
  }

  lemma IterationReordered(it: IterationInput, names: seq<string>, weights: Matrix, demand: Matrix,
        available: seq<real>, order: seq<nat>)
    requires IsIterationInput(it, names, weights, demand, available) && Reorders(order, names)
    ensures IsIterationInput(it, Reorder(names, order), Reorder(weights, order), Reorder(demand, order), available)
    ensures IterationOf(it, Reorder(names, order), Reorder(weights, order), Reorder(demand, order), available) ==
            ReorderConsumers(IterationOf(it, names, weights, demand, available), order)
  {
    hide MultiplierMatrix, AllottedMatrix, Excess, Smaller, ConsumersOf, Percentages, HasConsumers, Quotients, Sum,
        Zeros, ColumnSums;
    var timesteps, percentages := |available|, Percentages(it, names);
    var allotted := AllottedMatrix(available, MultiplierMatrix(percentages, weights));
    PercentagesReordered(it, names, order);
    AllottedReordered(available, percentages, weights, order);
    ExcessReordered(demand, allotted, order);
    ExcessReordered(allotted, demand, order);
    ConsumersReordered(names, percentages, demand, allotted, order);
    ColumnSumsReordered(demand, order, timesteps);
    ColumnSumsReordered(Smaller(demand, allotted), order, timesteps);
    ColumnSumsReordered(Excess(demand, allotted), order, timesteps);
    ColumnSumsReordered(Excess(allotted, demand), order, timesteps);
  }

  function ReorderResults(results: seq<IterationResult>, order: seq<nat>): (r: seq<IterationResult>)
    requires forall k, i :: 0 <= k < |results| && 0 <= i < |order| ==> order[i] < |results[k].consumers|
    ensures |r| == |results|
  {
    seq(|results|, k requires 0 <= k < |results| => ReorderConsumers(results[k], order))
  }

  lemma CascadeConsumers(key: KeyInput, names: seq<string>, consumption: Matrix, production: seq<real>,
        results: seq<IterationResult>, k: nat)
    requires IsCascade(key, names, consumption, production, results) && k < |results|
    ensures |results[k].consumers| == |names|
  {
    assert IsTurn(key, names, consumption, production, results, k);
  }

  lemma TurnReordered(it: IterationInput, names: seq<string>, consumption: Matrix, production: seq<real>,
        demand: Matrix, carried: seq<real>, result: IterationResult, order: seq<nat>)
    requires |consumption| == |names| && Rectangular(consumption, |production|) && Reorders(order, names)
        && |result.consumers| == |names|
    requires |demand| == |names|
             && IsNext(it, names, Weights(consumption, |production|), production, demand, carried, result)
    ensures IsNext(it, Reorder(names, order), Weights(Reorder(consumption, order), |production|), production,
                   Reorder(demand, order), carried, ReorderConsumers(result, order))
  {
    hide IterationOf, Weights;
    WeightsReordered(consumption, order, |production|);
    IterationReordered(it, names, Weights(consumption, |production|), demand, Feed(production, it.fraction, carried),
        order);
  }

  /**
   * Listing the names and their rows in another order lists each iteration's consumers in that
   * order, and leaves every series and every total as it was.
   */
  lemma ReorderedNames(key: KeyInput, names: seq<string>, consumption: Matrix, production: seq<real>,
        results: seq<IterationResult>, order: seq<nat>)
    requires IsCascade(key, names, consumption, production, results) && IsOrder(order, |names|)
    ensures Reorders(order, names) && forall k :: 0 <= k < |results| ==> |results[k].consumers| == |names|
    ensures IsCascade(key, Reorder(names, order), Reorder(consumption, order), production,
                      ReorderResults(results, order))
    ensures results != [] ==>
              KeyResultOf(key, ReorderResults(results, order)) ==
                  KeyResultOf(key, results).(iterations := ReorderResults(results, order))
  {
    OrderOf(order, names);
    forall k | 0 <= k < |results| ensures |results[k].consumers| == |names| {
      CascadeConsumers(key, names, consumption, production, results, k);
    }
    forall k | 0 <= k < |results|
      ensures IsTurn(key, Reorder(names, order), Reorder(consumption, order), production,
                     ReorderResults(results, order), k)
    {
      TurnAtReordered(key, names, consumption, production, results, order, k);
    }
    assert ConsumedTotals(ReorderResults(results, order)) == ConsumedTotals(results);
  }

  lemma CarriedReordered(consumption: Matrix, results: seq<IterationResult>, order: seq<nat>, k: nat, timesteps: nat)
    requires k < |results| && Reorders(order, consumption) && forall i :: 0 <= i < |results| ==>
        |results[i].consumers| == |consumption|
    ensures |DemandAt(consumption, results, k)| == |consumption|
    ensures DemandAt(Reorder(consumption, order), ReorderResults(results, order), k) ==
        Reorder(DemandAt(consumption, results, k), order)
    ensures CarriedAt(ReorderResults(results, order), k, timesteps) == CarriedAt(results, k, timesteps)
  {
  }

  lemma TurnAtReordered(key: KeyInput, names: seq<string>, consumption: Matrix, production: seq<real>,
        results: seq<IterationResult>, order: seq<nat>, k: nat)
    requires IsCascade(key, names, consumption, production, results) && Reorders(order, names) && k < |results|
    requires forall i :: 0 <= i < |results| ==> |results[i].consumers| == |names|
    ensures IsTurn(key, Reorder(names, order), Reorder(consumption, order), production,
                     ReorderResults(results, order), k)
  {
    hide IsNext, Weights, DemandAt, CarriedAt;
    assert IsTurn(key, names, consumption, production, results, k);
    CarriedReordered(consumption, results, order, k, |production|);
    TurnReordered(key.iterations[k], names, consumption, production, DemandAt(consumption, results, k),
                  CarriedAt(results, k, |production|), results[k], order);
  }

  // ---- Runs are unique ----

  /** A key, its names and its data have one cascade of each length. */
  lemma {:induction false} CascadeIsUnique(key: KeyInput, names: seq<string>, consumption: Matrix,
        production: seq<real>, a: seq<IterationResult>, b: seq<IterationResult>)
    requires IsCascade(key, names, consumption, production, a) && IsCascade(key, names, consumption, production, b)
    requires |a| == |b|
    ensures a == b
    decreases |a|
  {
    if a != [] {
      var n := |a| - 1;
      CascadePrefix(key, names, consumption, production, a);
      CascadePrefix(key, names, consumption, production, b);
      CascadeIsUnique(key, names, consumption, production, a[..n], b[..n]);
      SameLast(key, names, consumption, production, a, b);
      Unsnoc(a);
      Unsnoc(b);
    }
  }

  lemma CascadePrefix(key: KeyInput, names: seq<string>, consumption: Matrix, production: seq<real>,
        results: seq<IterationResult>)
    requires IsCascade(key, names, consumption, production, results) && results != []
    ensures IsCascade(key, names, consumption, production, results[..|results| - 1])
  {
    var front := results[..|results| - 1];
    forall k | 0 <= k < |front| ensures IsTurn(key, names, consumption, production, front, k) {
      hide IsNext, Weights;
      assert IsTurn(key, names, consumption, production, results, k);
      assert DemandAt(consumption, front, k) == DemandAt(consumption, results, k);
      assert CarriedAt(front, k, |production|) == CarriedAt(results, k, |production|);
    }
  }

  lemma SameLast(key: KeyInput, names: seq<string>, consumption: Matrix, production: seq<real>, a: seq<IterationResult>,
        b: seq<IterationResult>)
    requires IsCascade(key, names, consumption, production, a) && IsCascade(key, names, consumption, production, b)
    requires |a| == |b| > 0 && a[..|a| - 1] == b[..|b| - 1]
    ensures a[|a| - 1] == b[|b| - 1]
  {
    hide IterationOf, Weights, IsIterationInput;
    var n := |a| - 1;
    assert IsTurn(key, names, consumption, production, a, n) && IsTurn(key, names, consumption, production, b, n);
    if n > 0 {
      assert a[n - 1] == a[..n][n - 1] == b[..n][n - 1] == b[n - 1];
    }
  }

  /** Two keys that list the same consumers in different orders have the same results. */
  lemma ReorderedKeyRuns(key: KeyInput, other: KeyInput, names: seq<string>, consumption: Matrix, production: seq<real>,
        a: seq<IterationResult>, b: seq<IterationResult>)
    requires IsReordered(key, other) && |a| == |b|
    requires IsCascade(key, names, consumption, production, a) && IsCascade(other, names, consumption, production, b)
    ensures a == b
  {
    hide IsCascade;
    ReorderedKey(key, other, names, consumption, production, a);
    CascadeIsUnique(other, names, consumption, production, a, b);
  }

  /** A key run on reordered names and rows has the same results, its consumers reordered, and the same totals. */
  lemma ReorderedNamesRuns(key: KeyInput, names: seq<string>, consumption: Matrix, production: seq<real>,
        order: seq<nat>, a: seq<IterationResult>, b: seq<IterationResult>)
    requires IsOrder(order, |names|) && |consumption| == |names| && |a| == |b|
    requires Reorders(order, names)
    requires IsCascade(key, names, consumption, production, a)
    requires IsCascade(key, Reorder(names, order), Reorder(consumption, order), production, b)
    ensures forall k :: 0 <= k < |a| ==> |a[k].consumers| == |names|
    ensures b == ReorderResults(a, order)
    ensures a != [] ==> KeyResultOf(key, b) == KeyResultOf(key, a).(iterations := b)
  {
    hide IsCascade, KeyResultOf;
    ReorderedNames(key, names, consumption, production, a, order);
    CascadeIsUnique(key, Reorder(names, order), Reorder(consumption, order), production, ReorderResults(a, order), b);
  }
}
