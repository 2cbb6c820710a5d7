/**
 * When the sharing rate of a key, which divides by its first iteration's energy, is at most one, as
 * the data of the run decide it.
 */
module SharingRate {
  import opened Sums
  import opened Cascade
  import opened Ledgers
  import opened Prorata
  import opened Rates

  /** The energy of the first iteration, before any run. */
  function FirstEnergy(key: KeyInput, production: seq<real>): real
    requires key.iterations != []
  {
    key.iterations[0].fraction * Sum(production)
  }

  /** The lesser of the demand and what the key gives out at one timestep. */
  function ServedAt(key: KeyInput, consumption: Matrix, production: seq<real>, t: nat): real
    requires Rectangular(consumption, |production|) && t < |production|
  {
    Min(Sum(Column(consumption, t)), production[t] * TotalFraction(key))
  }

  /** ... at each timestep: the data alone decide it. */
  function Served(key: KeyInput, consumption: Matrix, production: seq<real>): (s: seq<real>)
    requires Rectangular(consumption, |production|)
    ensures |s| == |production|
    ensures forall t :: 0 <= t < |s| ==> s[t] == ServedAt(key, consumption, production, t)
  {
    seq(|production|, t requires 0 <= t < |production| => ServedAt(key, consumption, production, t))
  }

  // ---- PRORATA keys ----

  /** What a PRORATA key consumes in total can be told from the data. */
  lemma ProrataConsumed(key: KeyInput, names: seq<string>, consumption: Matrix, production: seq<real>,
        results: seq<IterationResult>)
    requires IsRun(key, names, consumption, production, results) && IsProrata(key, names)
    requires NonnegativeData(key, consumption, production)
    ensures Rectangular(consumption, |production|)
    ensures KeyResultOf(key, results).consumedTotal == Sum(Served(key, consumption, production))
  {
    KeyConsumed(key, names, consumption, production, results);
    var consumed := ConsumedSeries(results, RunMultipliers(key, names, consumption, production, results),
                                   |results|, |production|);
    forall t | 0 <= t < |production| ensures consumed[t] == Served(key, consumption, production)[t] {
      ConsumedIsServed(key, names, consumption, production, results, t);
    }
    assert consumed == Served(key, consumption, production);
  }

  lemma ConsumedIsServed(key: KeyInput, names: seq<string>, consumption: Matrix, production: seq<real>,
        results: seq<IterationResult>, t: nat)
    requires IsRun(key, names, consumption, production, results) && IsProrata(key, names)
    requires NonnegativeData(key, consumption, production) && t < |production|
    ensures Rectangular(consumption, |production|)
    ensures RunConsumedAt(key, names, consumption, production, results, t) == ServedAt(key, consumption, production, t)
  {
    hide RunMultipliers, RunConsumedAt, IsProrata, IsCascade;
    ProrataCollapse(key, names, consumption, production, results, t, production[t] * TotalFraction(key));
  }

  lemma FirstEnergyAvailable(key: KeyInput, names: seq<string>, consumption: Matrix, production: seq<real>,
        results: seq<IterationResult>)
    requires IsRun(key, names, consumption, production, results)
    ensures KeyResultOf(key, results).availableTotal == FirstEnergy(key, production)
  {
    hide IsCascade, Sum;
    FirstAvailable(key, names, consumption, production, results);
  }

  lemma FirstEnergyNonnegative(key: KeyInput, consumption: Matrix, production: seq<real>)
    requires NonnegativeData(key, consumption, production) && key.iterations != []
    ensures FirstEnergy(key, production) >= 0.0
  {
    forall t | 0 <= t < |production| ensures production[t] >= 0.0 {
      assert NonnegativeAt(consumption, production, Fractions(key), t);
    }
    SumNonnegative(production);
    ProductNonnegative(key.iterations[0].fraction, Sum(production));
  }

  lemma AtMostOne(part: real, whole: real)
    requires whole > 0.0
    ensures part / whole <= 1.0 <==> part <= whole
  {
    var q := part / whole;
    TimesQuotient(part, whole);
    if q <= 1.0 {
      ProductNonnegative(1.0 - q, whole);
      assert (1.0 - q) * whole == whole - part;
    } else {
      assert (q - 1.0) * whole > 0.0;
      assert (q - 1.0) * whole == part - whole;
    }
  }

  lemma RateIsAtMostOne(consumed: real, available: real, rate: real)
    requires available >= 0.0 && rate == if available != 0.0 then consumed / available else 0.0
    ensures available == 0.0 ==> rate == 0.0
    ensures rate <= 1.0 <==> available == 0.0 || consumed <= available
  {
    if available != 0.0 {
      AtMostOne(consumed, available);
    }
  }

  /**
   * The sharing rate of a PRORATA key is at most one exactly when its first iteration had no energy,
   * where it is zero, or had at least all the energy that is served.
   */
  lemma ProrataSharingRate(key: KeyInput, names: seq<string>, consumption: Matrix, production: seq<real>,
        results: seq<IterationResult>)
    requires IsRun(key, names, consumption, production, results) && IsProrata(key, names)
    requires NonnegativeData(key, consumption, production)
    ensures Rectangular(consumption, |production|)
    ensures var rate, first := KeyResultOf(key, results).sharingRateTotal, FirstEnergy(key, production);
            && first >= 0.0 && (first == 0.0 ==> rate == 0.0)
            && (rate <= 1.0 <==> first == 0.0 || Sum(Served(key, consumption, production)) <= first)
  {
    ProrataConsumed(key, names, consumption, production, results);
    hide IsCascade, Sum, IsProrata, NonnegativeData, FirstEnergy, Served;
    FirstEnergyAvailable(key, names, consumption, production, results);
    FirstEnergyNonnegative(key, consumption, production);
    var r := KeyResultOf(key, results);
    RateIsAtMostOne(r.consumedTotal, r.availableTotal, r.sharingRateTotal);
  }

  // ---- Any key ----

  /**
   * Where no energy and no multiplier is negative and each iteration's multipliers sum to at most
   * one, a key that gives out no more than its first fraction, or nothing at first, has a sharing
   * rate of at most one.
   */
  lemma SharingRateGuard(key: KeyInput, names: seq<string>, consumption: Matrix, production: seq<real>,
        results: seq<IterationResult>)
    requires IsRun(key, names, consumption, production, results)
    requires SharesData(key, names, consumption, production)
    requires TotalFraction(key) <= key.iterations[0].fraction || key.iterations[0].fraction == 0.0
    ensures KeyResultOf(key, results).sharingRateTotal <= 1.0
  {
    KeyConsumesAtMost(key, names, consumption, production, results);
    FirstEnergyAvailable(key, names, consumption, production, results);
    ProductionNonnegative(key, names, consumption, production, results);
    hide IsRun, IsCascade, Sum, SharesData, TotalFraction;
    var r := KeyResultOf(key, results);
    GuardedRate(r.consumedTotal, r.availableTotal, r.sharingRateTotal, TotalFraction(key), key.iterations[0].fraction,
                Sum(production));
  }

  lemma GuardedRate(consumed: real, available: real, rate: real, total: real, first: real, production: real)
    requires total >= 0.0 && first >= 0.0 && (total <= first || first == 0.0)
    requires production >= 0.0 && available == first * production
    requires IsAtMostScaled(consumed, total, production)
    requires rate == if available != 0.0 then consumed / available else 0.0
    ensures rate <= 1.0
  {
    ProductNonnegative(first, production);
    if total <= first {
      ProductNonnegative(first - total, production);
      assert (first - total) * production == first * production - total * production;
    }
    RateIsAtMostOne(consumed, available, rate);
  }

  /** A PRORATA key of one consumer with these fractions. */
  function SoleConsumer(fractions: seq<real>): (key: KeyInput)
    ensures |key.iterations| == |fractions|
  {
    KeyInput("", "", seq(|fractions|, k requires 0 <= k < |fractions| =>
      IterationInput(k + 1, fractions[k], [ConsumerInput("A", -1.0)])))
  }

  lemma SoleConsumerKey(fractions: seq<real>)
    ensures Fractions(SoleConsumer(fractions)) == fractions && IsProrata(SoleConsumer(fractions), ["A"])
    ensures forall k :: 0 <= k < |fractions| ==> HasConsumers(SoleConsumer(fractions).iterations[k], ["A"])
    ensures TotalFraction(SoleConsumer(fractions)) == SumFirst(fractions, |fractions|)
  {
    var key := SoleConsumer(fractions);
    forall k | 0 <= k < |fractions| ensures PercentageOf(key.iterations[k].consumers, "A") == Found(-1.0) {
      assert key.iterations[k].consumers == [ConsumerInput("A", -1.0)];
    }
    assert Fractions(key) == fractions;
  }

  lemma SumOfOneTerm(x: real)
    ensures Sum([x]) == x
  {
    assert [x][..0] == [];
  }

  /**
   * The guard is exact: for any fractions that give out more than the first, there are data for
   * which a key with these fractions has a sharing rate above one, the bound of `KeyRates`.
   */
  lemma GuardIsExact(fractions: seq<real>) returns (results: seq<IterationResult>)
    requires fractions != [] && (forall k :: 0 <= k < |fractions| ==> fractions[k] >= 0.0)
    requires SumFirst(fractions, |fractions|) > fractions[0] > 0.0
    ensures var key, total := SoleConsumer(fractions), SumFirst(fractions, |fractions|);
            && IsRun(key, ["A"], [[total]], [1.0], results) && Fractions(key) == fractions
            && NonnegativeData(key, [[total]], [1.0])
            && KeyResultOf(key, results).sharingRateTotal == total / fractions[0] > 1.0
  {
    var key, total := SoleConsumer(fractions), SumFirst(fractions, |fractions|);
    SoleConsumerKey(fractions);
    results := CascadeExists(key, ["A"], [[total]], [1.0], |fractions|);
    assert Column([[total]], 0) == [total];
    SumOfOneTerm(total);
    SumOfOneTerm(1.0);
    assert NonnegativeAt([[total]], [1.0], fractions, 0);
    hide IsCascade, Sum, SumFirst, IsProrata;
    ProrataConsumed(key, ["A"], [[total]], [1.0], results);
    assert Served(key, [[total]], [1.0]) == [total];
    FirstEnergyAvailable(key, ["A"], [[total]], [1.0], results);
    AtMostOne(total, fractions[0]);
  }
}
