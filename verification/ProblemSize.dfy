/** What the size limit limits: the values a run computes for each of its series. */
module ProblemSize {
  import opened Sums
  import opened Cascade
  import opened Ledgers
  import P = Preflight

  /** The cells of one series, over the consumers of one iteration. */
  function IterationCells(consumers: seq<ConsumerResult>): nat {
    if consumers == [] then 0
    else IterationCells(consumers[..|consumers| - 1]) + |consumers[|consumers| - 1].consumed|
  }

  /** ... and over all iterations. */
  function Cells(results: seq<IterationResult>): nat {
    if results == [] then 0 else Cells(results[..|results| - 1]) + IterationCells(results[|results| - 1].consumers)
  }

  lemma {:induction false} CellsOfIteration(consumers: seq<ConsumerResult>, timesteps: nat)
    requires forall j :: 0 <= j < |consumers| ==> |consumers[j].consumed| == timesteps
    ensures IterationCells(consumers) == |consumers| * timesteps
  {
    if consumers != [] {
      CellsOfIteration(consumers[..|consumers| - 1], timesteps);
      assert (|consumers| - 1) * timesteps == |consumers| * timesteps - timesteps;
    }
  }

  lemma {:induction false} CellsOfIterations(results: seq<IterationResult>, each: nat)
    requires forall k :: 0 <= k < |results| ==> IterationCells(results[k].consumers) == each
    ensures Cells(results) == |results| * each
  {
    if results != [] {
      CellsOfIterations(results[..|results| - 1], each);
      assert (|results| - 1) * each == |results| * each - each;
    }
  }

  /** A run has as many cells as participants, timesteps and iterations multiply to. */
  lemma RunCells(key: KeyInput, names: seq<string>, consumption: Matrix, production: seq<real>,
        results: seq<IterationResult>)
    requires IsRun(key, names, consumption, production, results)
    ensures Cells(results) == |names| * |production| * |key.iterations|
  {
    var m := RunMultipliers(key, names, consumption, production, results);
    forall k | 0 <= k < |results| ensures IterationCells(results[k].consumers) == |names| * |production| {
      assert IsFlow(results[k], m[k], |production|);
      hide IsCascade, IsChain, IsCell, IsColumn, IsTotal, IterationCells;
      CellsOfIteration(results[k].consumers, |production|);
    }
    hide IsCascade, IterationCells, Cells;
    CellsOfIterations(results, |names| * |production|);
    assert |results| * (|names| * |production|) == |names| * |production| * |results|;
  }

  /** A run is refused as too large exactly when it would have more cells than the limit. */
  lemma TooLargeIsOfCells(key: KeyInput, names: seq<string>, consumption: Matrix, production: seq<real>,
        results: seq<IterationResult>)
    requires IsRun(key, names, consumption, production, results)
    ensures P.TooLarge(|names|, |production|, |key.iterations|) <==> Cells(results) > P.MAX_SIMULATION_CELLS
  {
    RunCells(key, names, consumption, production, results);
    hide IsRun, Cells;
  }
}
