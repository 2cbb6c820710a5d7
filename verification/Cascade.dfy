/** The allocation cascade (`run_simulation`), over exact reals. */
module Cascade {
  import opened Sums

  // ---- Inputs and results ----

  datatype ConsumerInput = ConsumerInput(name: string, percentage: real)

  datatype IterationInput = IterationInput(number: int, fraction: real, consumers: seq<ConsumerInput>)

  datatype KeyInput = KeyInput(name: string, description: string, iterations: seq<IterationInput>)

  datatype ConsumerResult = ConsumerResult(
    name: string, percentage: real,
    consumption: seq<real>, consumptionTotal: real,
    allotted: seq<real>, allottedTotal: real,
    consumed: seq<real>, consumedTotal: real,
    residual: seq<real>, residualTotal: real,
    surplus: seq<real>, surplusTotal: real)

  datatype IterationResult = IterationResult(
    number: int, fraction: real,
    consumption: seq<real>, consumptionTotal: real,
    available: seq<real>, availableTotal: real,
    consumed: seq<real>, consumedTotal: real,
    residual: seq<real>, residualTotal: real,
    surplus: seq<real>, surplusTotal: real,
    sharingRate: seq<real>, sharingRateTotal: real,
    selfSufficiencyRate: seq<real>, selfSufficiencyRateTotal: real,
    consumers: seq<ConsumerResult>)

  datatype KeyResult = KeyResult(
    name: string, description: string,
    consumptionTotal: real, availableTotal: real, consumedTotal: real, residualTotal: real, surplusTotal: real,
    selfSufficiencyRateTotal: real, sharingRateTotal: real,
    iterations: seq<IterationResult>)

  datatype InputError =
    | NoIterations
    | NoConsumers
    | ConsumptionShape
    | ProductionShape
    | MissingConsumer(number: int, name: string)

  datatype Outcome = Success(result: KeyResult) | Failure(error: InputError)

  datatype Lookup = Absent | Found(percentage: real)

  /** `{c.name: c.energy_allocated_percentage for c in consumers}.get(name)`: the last entry wins. */
  function PercentageOf(consumers: seq<ConsumerInput>, name: string): Lookup {
    if consumers == [] then Absent
    else
      var last := consumers[|consumers| - 1];
      if last.name == name then Found(last.percentage) else PercentageOf(consumers[..|consumers| - 1], name)
  }

  /** Of several entries of one name the last one counts. */
  lemma {:induction false} LastEntryCounts(consumers: seq<ConsumerInput>, i: nat)
    requires i < |consumers| && forall k :: i < k < |consumers| ==> consumers[k].name != consumers[i].name
    ensures PercentageOf(consumers, consumers[i].name) == Found(consumers[i].percentage)
  {
    if i < |consumers| - 1 {
      LastEntryCounts(consumers[..|consumers| - 1], i);
    }
  }

  /** Only a name without an entry is absent. */
  lemma {:induction false} AbsentExactly(consumers: seq<ConsumerInput>, name: string)
    ensures PercentageOf(consumers, name).Absent? <==> forall i :: 0 <= i < |consumers| ==> consumers[i].name != name
  {
    if consumers != [] {
      AbsentExactly(consumers[..|consumers| - 1], name);
    }
  }

  predicate HasConsumers(it: IterationInput, names: seq<string>) {
    forall j :: 0 <= j < |names| ==> PercentageOf(it.consumers, names[j]).Found?
  }

  function Percentages(it: IterationInput, names: seq<string>): (p: seq<real>)
    requires HasConsumers(it, names)
    ensures |p| == |names|
  {
    seq(|names|, j requires 0 <= j < |names| => PercentageOf(it.consumers, names[j]).percentage)
  }

  // ---- Element-wise operations ----

  function Abs(x: real): real {
    if x < 0.0 then -x else x
  }

  function Min(x: real, y: real): real {
    if x < y then x else y
  }

  function Relu(x: real): (r: real)
    ensures r == if x > 0.0 then x else 0.0
  {
    (x + Abs(x)) / 2.0
  }

  /** Element-wise quotient, 0 where the denominator is 0. */
  function Quotients(num: seq<real>, den: seq<real>): seq<real>
    requires |num| == |den|
  {
    seq(|num|, t requires 0 <= t < |num| => if den[t] != 0.0 then num[t] / den[t] else 0.0)
  }

  /** `_safe_divide`, filling `out` where the denominator is not 0. */
  method SafeDivide(num: seq<real>, den: seq<real>) returns (out: array<real>)
    requires |num| == |den|
    ensures fresh(out) && out[..] == Quotients(num, den)
    ensures forall t :: 0 <= t < |num| ==> if den[t] == 0.0 then out[t] == 0.0 else out[t] * den[t] == num[t]
  {
    out := new real[|num|](_ => 0.0);
    for t := 0 to |num|
      invariant forall i :: 0 <= i < t ==> out[i] == Quotients(num, den)[i]
      invariant forall i :: t <= i < |num| ==> out[i] == 0.0
    {
      if den[t] != 0.0 {
        out[t] := num[t] / den[t];
      }
    }
  }

  /** Each consumer's share of the total consumption at each timestep. */
  function Weights(consumption: Matrix, timesteps: nat): (w: Matrix)
    requires Rectangular(consumption, timesteps)
    ensures |w| == |consumption| && Rectangular(w, timesteps)
  {
    seq(|consumption|, j requires 0 <= j < |consumption| =>
      Quotients(consumption[j], ColumnSums(consumption, timesteps)))
  }

  /** The fixed fraction (above -1), or the weight. */
  function Multiplier(percentage: real, weight: real): real {
    if percentage > -1.0 then percentage else weight
  }

  function MultiplierMatrix(percentages: seq<real>, weights: Matrix): (m: Matrix)
    requires |percentages| == |weights|
    ensures |m| == |weights| && forall j :: 0 <= j < |m| ==> |m[j]| == |weights[j]|
  {
    seq(|weights|, j requires 0 <= j < |weights| =>
      seq(|weights[j]|, t requires 0 <= t < |weights[j]| => Multiplier(percentages[j], weights[j][t])))
  }

  function AllottedMatrix(available: seq<real>, multipliers: Matrix): (m: Matrix)
    requires Rectangular(multipliers, |available|)
    ensures |m| == |multipliers| && Rectangular(m, |available|)
  {
    seq(|multipliers|, j requires 0 <= j < |multipliers| =>
      seq(|available|, t requires 0 <= t < |available| => available[t] * multipliers[j][t]))
  }

  predicate SameShape(a: Matrix, b: Matrix) {
    |a| == |b| && forall j :: 0 <= j < |a| ==> |a[j]| == |b[j]|
  }

  /** `_relu(a - b)` */
  function Excess(a: Matrix, b: Matrix): (m: Matrix)
    requires SameShape(a, b)
    ensures SameShape(m, a)
  {
    seq(|a|, j requires 0 <= j < |a| => seq(|a[j]|, t requires 0 <= t < |a[j]| => Relu(a[j][t] - b[j][t])))
  }

  /** `np.minimum(a, b)` */
  function Smaller(a: Matrix, b: Matrix): (m: Matrix)
    requires SameShape(a, b)
    ensures SameShape(m, a)
  {
    seq(|a|, j requires 0 <= j < |a| => seq(|a[j]|, t requires 0 <= t < |a[j]| => Min(a[j][t], b[j][t])))
  }

  function Zeros(timesteps: nat): seq<real> {
    seq(timesteps, _ => 0.0)
  }

  // ---- One iteration ----

  /** What an iteration works on: one row per name, one value per timestep. */
  ghost predicate IsIterationInput(it: IterationInput, names: seq<string>, weights: Matrix, consumption: Matrix,
        available: seq<real>) {
    && HasConsumers(it, names)
    && |weights| == |names| == |consumption|
    && Rectangular(weights, |available|)
    && Rectangular(consumption, |available|)
  }

  function ConsumersOf(names: seq<string>, percentages: seq<real>, consumption: Matrix,
        allotted: Matrix): seq<ConsumerResult>
    requires |names| == |percentages| == |consumption| && SameShape(consumption, allotted)
  {
    seq(|names|, j requires 0 <= j < |names| =>
      var residual, surplus, consumed := Excess(consumption, allotted)[j], Excess(allotted, consumption)[j],
          Smaller(consumption, allotted)[j];
      ConsumerResult(names[j], percentages[j],
                     consumption[j], Sum(consumption[j]),
                     allotted[j], Sum(allotted[j]),
                     consumed, Sum(consumed),
                     residual, Sum(residual),
                     surplus, Sum(surplus)))
  }

  function IterationOf(it: IterationInput, names: seq<string>, weights: Matrix, consumption: Matrix,
        available: seq<real>): IterationResult
    requires IsIterationInput(it, names, weights, consumption, available)
  {
    var timesteps := |available|;
    var percentages := Percentages(it, names);
    var allotted := AllottedMatrix(available, MultiplierMatrix(percentages, weights));
    var demand := ColumnSums(consumption, timesteps);
    var consumed := ColumnSums(Smaller(consumption, allotted), timesteps);
    var residual := ColumnSums(Excess(consumption, allotted), timesteps);
    var surplus := ColumnSums(Excess(allotted, consumption), timesteps);
    var noSharing := Sum(available) == 0.0 || Sum(consumed) == 0.0;
    var noSufficiency := Sum(demand) == 0.0 || Sum(consumed) == 0.0;
    IterationResult(
      it.number, it.fraction,
      demand, Sum(demand),
      available, Sum(available),
      consumed, Sum(consumed),
      residual, Sum(residual),
      surplus, Sum(surplus),
      if noSharing then Zeros(timesteps) else Quotients(consumed, available),
      if noSharing then 0.0 else Sum(consumed) / Sum(available),
      if noSufficiency then Zeros(timesteps) else Quotients(consumed, demand),
      if noSufficiency then 0.0 else Sum(consumed) / Sum(demand),
      ConsumersOf(names, percentages, consumption, allotted))
  }

  /** One turn of the source's loop, after the lookup of the percentages. */
  method RunIteration(it: IterationInput, names: seq<string>, weights: Matrix, consumption: Matrix,
        available: seq<real>)
    returns (result: IterationResult, residual: Matrix)
    requires IsIterationInput(it, names, weights, consumption, available)
    ensures result == IterationOf(it, names, weights, consumption, available)
    ensures residual == ResidualsOf(result)
    ensures |residual| == |names| && Rectangular(residual, |available|) && |result.surplus| == |available|
  {
    var timesteps, percentages := |available|, Percentages(it, names);
    var allotted := AllottedMatrix(available, MultiplierMatrix(percentages, weights));
    residual := Excess(consumption, allotted);
    var surplus, consumed := Excess(allotted, consumption), Smaller(consumption, allotted);
    var demandSeries := ColumnSums(consumption, timesteps);
    var consumedSeries := ColumnSums(consumed, timesteps);
    var residualSeries := ColumnSums(residual, timesteps);
    var surplusSeries := ColumnSums(surplus, timesteps);
    var availableTotal, consumedTotal, demandTotal := Sum(available), Sum(consumedSeries), Sum(demandSeries);
    var sharing, sharingTotal := Zeros(timesteps), 0.0;
    if availableTotal != 0.0 && consumedTotal != 0.0 {
      var quotients := SafeDivide(consumedSeries, available);
      sharing, sharingTotal := quotients[..], consumedTotal / availableTotal;
    }
    var sufficiency, sufficiencyTotal := Zeros(timesteps), 0.0;
    if demandTotal != 0.0 && consumedTotal != 0.0 {
      var quotients := SafeDivide(consumedSeries, demandSeries);
      sufficiency, sufficiencyTotal := quotients[..], consumedTotal / demandTotal;
    }
    result := IterationResult(
      it.number, it.fraction,
      demandSeries, demandTotal,
      available, availableTotal,
      consumedSeries, consumedTotal,
      residualSeries, Sum(residualSeries),
      surplusSeries, Sum(surplusSeries),
      sharing, sharingTotal,
      sufficiency, sufficiencyTotal,
      ConsumersOf(names, percentages, consumption, allotted));
    assert residual == ResidualsOf(result);
  }

  // ---- The cascade ----

  /** The residual matrix an iteration leaves, row by row. */
  function ResidualsOf(r: IterationResult): (m: Matrix)
    ensures |m| == |r.consumers|
  {
    seq(|r.consumers|, j requires 0 <= j < |r.consumers| => r.consumers[j].residual)
  }

  /** The demand iteration `k` starts from: the data, then what the iteration before left unmet. */
  function DemandAt(consumption: Matrix, results: seq<IterationResult>, k: nat): Matrix
    requires k <= |results|
  {
    if k == 0 then consumption else ResidualsOf(results[k - 1])
  }

  /** The surplus carried into iteration `k`. */
  function CarriedAt(results: seq<IterationResult>, k: nat, timesteps: nat): seq<real>
    requires k <= |results|
  {
    if k == 0 then Zeros(timesteps) else results[k - 1].surplus
  }

  /** A fraction of the production, and what the iteration before did not place. */
  function Feed(production: seq<real>, fraction: real, carried: seq<real>): (a: seq<real>)
    requires |carried| == |production|
    ensures |a| == |production|
  {
    seq(|production|, t requires 0 <= t < |production| => production[t] * fraction + carried[t])
  }

  /** `results` are the iterations of `key` from the first on, each fed by the one before. */
  ghost predicate IsCascade(key: KeyInput, names: seq<string>, consumption: Matrix, production: seq<real>,
        results: seq<IterationResult>) {
    && |results| <= |key.iterations|
    && |consumption| == |names|
    && Rectangular(consumption, |production|)
    && forall k :: 0 <= k < |results| ==> IsTurn(key, names, consumption, production, results, k)
  }

  ghost predicate IsTurn(key: KeyInput, names: seq<string>, consumption: Matrix, production: seq<real>,
        results: seq<IterationResult>, k: nat)
    requires k < |results| <= |key.iterations| && Rectangular(consumption, |production|)
  {
    var weights, demand, carried := Weights(consumption, |production|), DemandAt(consumption, results, k),
        CarriedAt(results, k, |production|);
    IsNext(key.iterations[k], names, weights, production, demand, carried, results[k])
  }

  ghost predicate IsNext(it: IterationInput, names: seq<string>, weights: Matrix, production: seq<real>, demand: Matrix,
        carried: seq<real>, result: IterationResult) {
    && |carried| == |production|
    && IsIterationInput(it, names, weights, demand, Feed(production, it.fraction, carried))
    && result == IterationOf(it, names, weights, demand, Feed(production, it.fraction, carried))
  }

  function ConsumedTotals(results: seq<IterationResult>): (s: seq<real>)
    ensures |s| == |results|
  {
    seq(|results|, k requires 0 <= k < |results| => results[k].consumedTotal)
  }

  /** The key-level totals. */
  function KeyResultOf(key: KeyInput, results: seq<IterationResult>): KeyResult
    requires results != []
  {
    var first, last, consumed := results[0], results[|results| - 1], Sum(ConsumedTotals(results));
    KeyResult(key.name, key.description,
              first.consumptionTotal, first.availableTotal, consumed, last.residualTotal, last.surplusTotal,
              if first.consumptionTotal != 0.0 then consumed / first.consumptionTotal else 0.0,
              if first.availableTotal != 0.0 then consumed / first.availableTotal else 0.0,
              results)
  }

  method FindMissing(it: IterationInput, names: seq<string>) returns (missing: int)
    ensures missing == -1 <==> HasConsumers(it, names)
    ensures missing != -1 ==> 0 <= missing < |names| && PercentageOf(it.consumers, names[missing]).Absent?
                              && forall j :: 0 <= j < missing ==> PercentageOf(it.consumers, names[j]).Found?
  {
    for j := 0 to |names|
      invariant forall i :: 0 <= i < j ==> PercentageOf(it.consumers, names[i]).Found?
    {
      if PercentageOf(it.consumers, names[j]).Absent? {
        return j;
      }
    }
    return -1;
  }

  /**
   * The run. It fails exactly on a key without iterations, without consumers, on matrices
   * that do not fit, or at the first iteration that misses a consumer.
   */
  method RunSimulation(key: KeyInput, consumption: Matrix, timesteps: nat, production: Matrix, productionSteps: nat,
        names: seq<string>)
    returns (outcome: Outcome)
    requires Rectangular(consumption, timesteps) && Rectangular(production, productionSteps)
    ensures key.iterations == [] ==> outcome == Failure(NoIterations)
    ensures key.iterations != [] && names == [] ==> outcome == Failure(NoConsumers)
    ensures key.iterations != [] && names != [] && |consumption| != |names| ==> outcome == Failure(ConsumptionShape)
    ensures (&& key.iterations != [] && names != [] && |consumption| == |names|
             && (production == [] || productionSteps != timesteps)) ==>
              outcome == Failure(ProductionShape)
    ensures outcome.Success? <==>
              && key.iterations != [] && names != []
              && |consumption| == |names| && production != [] && productionSteps == timesteps
              && forall k :: 0 <= k < |key.iterations| ==> HasConsumers(key.iterations[k], names)
    ensures outcome.Success? ==>
              && IsCascade(key, names, consumption, production[0], outcome.result.iterations)
              && |outcome.result.iterations| == |key.iterations|
              && outcome.result == KeyResultOf(key, outcome.result.iterations)
              && outcome.result.name == key.name && outcome.result.description == key.description
    ensures outcome.Failure? && outcome.error.MissingConsumer? ==>
              IsFirstMissing(key, names, outcome.error.number, outcome.error.name)
  {
    if key.iterations == [] { return Failure(NoIterations); }
    if names == [] { return Failure(NoConsumers); }
    if |consumption| != |names| { return Failure(ConsumptionShape); }
    if |production| < 1 || productionSteps != timesteps { return Failure(ProductionShape); }
    NothingRun(key, names, consumption, production[0]);
    hide IsReached, IsFirstMissing, PercentageOf, HasConsumers, IsIterationInput,
         IterationOf, Weights, KeyResultOf, Feed, ResidualsOf;
    var weights := Weights(consumption, timesteps);
    var results: seq<IterationResult> := [];
    var residual, surplus := consumption, Zeros(timesteps);
    for k := 0 to |key.iterations|
      invariant |results| == k && IsReached(key, names, consumption, production[0], results, residual, surplus)
      invariant forall i :: 0 <= i < k ==> HasConsumers(key.iterations[i], names)
    {
      var it := key.iterations[k];
      var missing := FindMissing(it, names);
      if missing != -1 {
        FirstMissing(key, names, k, missing);
        return Failure(MissingConsumer(it.number, names[missing]));
      }
      ReadyToRun(key, names, consumption, production[0], results, residual, surplus);
      var result, left := RunIteration(it, names, weights, residual, Feed(production[0], it.fraction, surplus));
      NextReached(key, names, consumption, production[0], results, residual, surplus, result);
      results := results + [result];
      residual, surplus := left, result.surplus;
    }
    ReachedIsCascade(key, names, consumption, production[0], results, residual, surplus);
    outcome := Success(KeyResultOf(key, results));
  }

  /** The loop's state after some iterations: their results, and what they leave for the next one. */
  ghost predicate IsReached(key: KeyInput, names: seq<string>, consumption: Matrix, production: seq<real>,
        results: seq<IterationResult>, residual: Matrix, surplus: seq<real>) {
    && IsCascade(key, names, consumption, production, results)
    && residual == DemandAt(consumption, results, |results|)
    && |residual| == |names| && Rectangular(residual, |production|)
    && surplus == CarriedAt(results, |results|, |production|) && |surplus| == |production|
  }

  lemma NothingRun(key: KeyInput, names: seq<string>, consumption: Matrix, production: seq<real>)
    requires |consumption| == |names| && Rectangular(consumption, |production|)
    ensures IsReached(key, names, consumption, production, [], consumption, Zeros(|production|))
  {
  }

  /** The first iteration that misses a consumer, and one it misses. */
  ghost predicate IsFirstMissing(key: KeyInput, names: seq<string>, number: int, name: string) {
    && name in names
    && exists k :: 0 <= k < |key.iterations| && key.iterations[k].number == number
                   && PercentageOf(key.iterations[k].consumers, name).Absent?
                   && forall i :: 0 <= i < k ==> HasConsumers(key.iterations[i], names)
  }

  lemma FirstMissing(key: KeyInput, names: seq<string>, k: nat, j: nat)
    requires k < |key.iterations| && j < |names| && PercentageOf(key.iterations[k].consumers, names[j]).Absent?
    requires forall i :: 0 <= i < k ==> HasConsumers(key.iterations[i], names)
    ensures IsFirstMissing(key, names, key.iterations[k].number, names[j]) && !HasConsumers(key.iterations[k], names)
  {
  }

  lemma ReadyToRun(key: KeyInput, names: seq<string>, consumption: Matrix, production: seq<real>,
        results: seq<IterationResult>, residual: Matrix, surplus: seq<real>)
    requires IsReached(key, names, consumption, production, results, residual, surplus)
    requires |results| < |key.iterations| && HasConsumers(key.iterations[|results|], names)
    ensures |consumption| == |names| && Rectangular(consumption, |production|) && |surplus| == |production|
    ensures IsIterationInput(key.iterations[|results|], names, Weights(consumption, |production|), residual,
                             Feed(production, key.iterations[|results|].fraction, surplus))
  {
  }

  lemma NextReached(key: KeyInput, names: seq<string>, consumption: Matrix, production: seq<real>,
        results: seq<IterationResult>, residual: Matrix, surplus: seq<real>, next: IterationResult)
    requires IsReached(key, names, consumption, production, results, residual, surplus)
    requires |results| < |key.iterations|
    requires IsNext(key.iterations[|results|], names, Weights(consumption, |production|),
                    production, residual, surplus, next)
    requires |ResidualsOf(next)| == |names|
             && Rectangular(ResidualsOf(next), |production|) && |next.surplus| == |production|
    ensures IsReached(key, names, consumption, production, results + [next], ResidualsOf(next), next.surplus)
  {
    CascadeExtends(key, names, consumption, production, results, next);
  }

  lemma ReachedIsCascade(key: KeyInput, names: seq<string>, consumption: Matrix, production: seq<real>,
        results: seq<IterationResult>, residual: Matrix, surplus: seq<real>)
    requires IsReached(key, names, consumption, production, results, residual, surplus)
    ensures IsCascade(key, names, consumption, production, results)
  {
  }

  lemma SameBefore(consumption: Matrix, results: seq<IterationResult>, next: IterationResult, k: nat, timesteps: nat)
    requires k <= |results|
    ensures DemandAt(consumption, results + [next], k) == DemandAt(consumption, results, k)
    ensures CarriedAt(results + [next], k, timesteps) == CarriedAt(results, k, timesteps)
  {
  }

  lemma CascadeExtends(key: KeyInput, names: seq<string>, consumption: Matrix, production: seq<real>,
        results: seq<IterationResult>, next: IterationResult)
    requires IsCascade(key, names, consumption, production, results) && |results| < |key.iterations|
    requires IsNext(key.iterations[|results|], names, Weights(consumption, |production|), production,
                    DemandAt(consumption, results, |results|), CarriedAt(results, |results|, |production|), next)
    ensures IsCascade(key, names, consumption, production, results + [next])
  {
    hide IsNext, Weights, DemandAt, CarriedAt;
    var all := results + [next];
    forall k | 0 <= k < |all| ensures IsTurn(key, names, consumption, production, all, k) {
      SameBefore(consumption, results, next, k, |production|);
      if k < |results| {
        assert IsTurn(key, names, consumption, production, results, k);
      }
    }
  }
}
