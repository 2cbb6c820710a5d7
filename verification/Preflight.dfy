/** Whether a period can be simulated with a key, decided from the period's summary alone. */
module Preflight {
  import opened Sequences
  import opened Sums
  import opened Tallies
  import opened Metering

  const MAX_READING_ROWS := 5_000_000
  const MAX_SIMULATION_CELLS := 5_000_000

  // ---- Names ----

  /** What `str.strip` removes at either end. */
  predicate IsBlank(c: char) {
    var n := c as int;
    9 <= n <= 13 || 28 <= n <= 32 || n == 0x85 || n == 0xa0 || n == 0x1680 || 0x2000 <= n <= 0x200a
    || n == 0x2028 || n == 0x2029 || n == 0x202f || n == 0x205f || n == 0x3000
  }

  function StripLeft(s: string): string {
    if s != [] && IsBlank(s[0]) then StripLeft(s[1..]) else s
  }

  function StripRight(s: string): string {
    if s != [] && IsBlank(s[|s| - 1]) then StripRight(s[..|s| - 1]) else s
  }

  /** `normalize_participant` */
  function Normalize(name: string): string {
    StripRight(StripLeft(name))
  }

  predicate IsNormal(s: string) {
    s == [] || (!IsBlank(s[0]) && !IsBlank(s[|s| - 1]))
  }

  lemma {:induction false} StripLeftStarts(s: string)
    ensures StripLeft(s) == [] || !IsBlank(StripLeft(s)[0])
  {
    if s != [] && IsBlank(s[0]) {
      StripLeftStarts(s[1..]);
    }
  }

  lemma {:induction false} StripRightEnds(s: string)
    ensures StripRight(s) == [] || (!IsBlank(StripRight(s)[|StripRight(s)| - 1]) && StripRight(s)[0] == s[0])
  {
    if s != [] && IsBlank(s[|s| - 1]) {
      StripRightEnds(s[..|s| - 1]);
    }
  }

  predicate AllBlank(s: string) {
    forall i :: 0 <= i < |s| ==> IsBlank(s[i])
  }

  lemma {:induction false} StripLeftDrops(s: string) returns (a: string)
    ensures s == a + StripLeft(s) && AllBlank(a)
  {
    if s != [] && IsBlank(s[0]) {
      var rest := StripLeftDrops(s[1..]);
      a := [s[0]] + rest;
      assert s == [s[0]] + (rest + StripLeft(s[1..]));
    } else {
      a := [];
    }
  }

  lemma {:induction false} StripRightDrops(s: string) returns (b: string)
    ensures s == StripRight(s) + b && AllBlank(b)
  {
    if s != [] && IsBlank(s[|s| - 1]) {
      var rest := StripRightDrops(s[..|s| - 1]);
      b := rest + [s[|s| - 1]];
      assert s == (StripRight(s) + rest) + [s[|s| - 1]];
    } else {
      b := [];
    }
  }

  /** Normalising removes blanks at the ends and nothing else. */
  lemma NormalizeDrops(name: string) returns (a: string, b: string)
    ensures name == a + Normalize(name) + b && AllBlank(a) && AllBlank(b)
  {
    a := StripLeftDrops(name);
    b := StripRightDrops(StripLeft(name));
  }

  /** A normalised name has no blank at either end, and normalising it again changes nothing. */
  lemma NormalizeOnce(name: string)
    ensures IsNormal(Normalize(name)) && Normalize(Normalize(name)) == Normalize(name)
  {
    StripLeftStarts(name);
    StripRightEnds(StripLeft(name));
  }

  function Participants(names: seq<string>): (p: seq<string>)
    ensures |p| == |names|
  {
    seq(|names|, i requires 0 <= i < |names| => Normalize(names[i]))
  }

  // ---- The verdict ----

  /** `problem_size.too_large` */
  predicate TooLarge(participants: nat, timesteps: nat, iterations: nat) {
    participants * timesteps * iterations > MAX_SIMULATION_CELLS
  }

  datatype Blocker =
    | NoData | RangeTooLarge(rows: nat) | SimulationTooLarge | DuplicateReadings(eans: seq<string>)
    | NotMatched(names: seq<string>) | NoInjection

  datatype IncompleteMeter = IncompleteMeter(ean: string, readings: nat, expected: nat, missing: int)

  datatype Verdict = Verdict(
    participants: seq<string>, matched: seq<string>, unmatched: seq<string>,
    blockers: seq<Blocker>, warnings: seq<IncompleteMeter>)

  /** The names that are, or are not, listed. */
  function Among(names: seq<string>, listed: seq<string>, wanted: bool): (r: seq<string>)
    ensures forall n :: n in r <==> n in names && (n in listed <==> wanted)
  {
    if names == [] then []
    else
      var last := names[|names| - 1];
      Among(names[..|names| - 1], listed, wanted) + if (last in listed) == wanted then [last] else []
  }

  /** The reasons a period cannot be used, each with what it says. */
  predicate IsBlocked(s: Summary, participants: seq<string>, iterations: nat, b: Blocker) {
    match b
    case NoData => s.eans == []
    case RangeTooLarge(rows) => s.eans != [] && rows == s.TotalRows() > MAX_READING_ROWS
    case SimulationTooLarge => s.eans != [] && TooLarge(|participants|, s.gridSize, iterations)
    case DuplicateReadings(eans) => s.eans != [] && eans == s.DuplicateEans() != []
    case NotMatched(names) => s.eans != [] && names == Among(participants, s.AllEans(), false) != []
    case NoInjection => s.eans != [] && s.TotalInjection() <= 0.0
  }

  function BlockerOrder(b: Blocker): nat {
    match b
    case NoData => 0
    case RangeTooLarge(_) => 1
    case SimulationTooLarge => 2
    case DuplicateReadings(_) => 3
    case NotMatched(_) => 4
    case NoInjection => 5
  }

  /** The blockers are those reasons, each once, in the order they are tested. */
  ghost predicate AreBlockers(s: Summary, participants: seq<string>, iterations: nat, blockers: seq<Blocker>,
        tested: nat) {
    && (forall b :: b in blockers <==> IsBlocked(s, participants, iterations, b) && BlockerOrder(b) < tested)
    && forall i, j :: 0 <= i < j < |blockers| ==> BlockerOrder(blockers[i]) < BlockerOrder(blockers[j])
  }

  /** A period nothing blocks. */
  predicate Accepts(s: Summary, participants: seq<string>, iterations: nat) {
    && s.eans != []
    && s.TotalRows() <= MAX_READING_ROWS
    && !TooLarge(|participants|, s.gridSize, iterations)
    && s.DuplicateEans() == []
    && (forall n :: n in participants ==> n in s.AllEans())
    && s.TotalInjection() > 0.0
  }

  /** A meter that is taken part in and lacks instants of the period. */
  predicate Lacks(c: Coverage, gridSize: nat, matched: seq<string>) {
    c.ean in matched && c.distinctTimes < gridSize
  }

  /** `warnings["incomplete_meters"]` */
  function Incomplete(eans: seq<Coverage>, gridSize: nat, matched: seq<string>): seq<IncompleteMeter> {
    if eans == [] then []
    else
      var last := eans[|eans| - 1];
      Incomplete(eans[..|eans| - 1], gridSize, matched) +
      if Lacks(last, gridSize, matched)
      then [IncompleteMeter(last.ean, last.distinctTimes, gridSize, gridSize - last.distinctTimes)] else []
  }

  /** What a warning says of a meter: it is taken part in and lacks instants, so many of so many. */
  predicate IsWarningOf(w: IncompleteMeter, c: Coverage, gridSize: nat, matched: seq<string>) {
    && w.ean == c.ean && Lacks(c, gridSize, matched)
    && w.readings == c.distinctTimes && w.expected == gridSize && w.readings + w.missing == w.expected
  }

  /** The warnings are of such meters, each once and in the summary's order, and of all of them. */
  ghost predicate AreIncomplete(s: Summary, matched: seq<string>, warnings: seq<IncompleteMeter>) {
    && (forall w :: w in warnings ==> exists i :: 0 <= i < |s.eans| && IsWarningOf(w, s.eans[i], s.gridSize, matched))
    && (forall i :: 0 <= i < |s.eans| && Lacks(s.eans[i], s.gridSize, matched) ==>
          exists w :: w in warnings && IsWarningOf(w, s.eans[i], s.gridSize, matched))
    && IsInOrder(s.eans, s.gridSize, matched, warnings)
  }

  /** Which meters are warned of. */
  function Lacking(eans: seq<Coverage>, gridSize: nat, matched: seq<string>): (kept: seq<bool>)
    ensures |kept| == |eans|
  {
    seq(|eans|, i requires 0 <= i < |eans| => Lacks(eans[i], gridSize, matched))
  }

  /** The warnings are of the meters at these places, one each. */
  predicate AreWarningsOf(warnings: seq<IncompleteMeter>, eans: seq<Coverage>, gridSize: nat, matched: seq<string>,
        places: seq<nat>) {
    && |warnings| == |places|
    && forall k :: 0 <= k < |places| ==>
         places[k] < |eans| && IsWarningOf(warnings[k], eans[places[k]], gridSize, matched)
  }

  ghost predicate IsInOrder(eans: seq<Coverage>, gridSize: nat, matched: seq<string>, warnings: seq<IncompleteMeter>) {
    exists places: seq<nat> :: Selects(places, Lacking(eans, gridSize, matched))
                               && AreWarningsOf(warnings, eans, gridSize, matched, places)
  }

  lemma LackingSnoc(eans: seq<Coverage>, gridSize: nat, matched: seq<string>)
    requires eans != []
    ensures var c := eans[|eans| - 1];
            Lacking(eans, gridSize, matched) ==
            Lacking(eans[..|eans| - 1], gridSize, matched) + [Lacks(c, gridSize, matched)]
  {
  }

  lemma WarningsSnoc(warnings: seq<IncompleteMeter>, eans: seq<Coverage>, gridSize: nat, matched: seq<string>,
        places: seq<nat>, w: IncompleteMeter, keep: bool)
    requires eans != [] && AreWarningsOf(warnings, eans[..|eans| - 1], gridSize, matched, places)
    requires keep ==> IsWarningOf(w, eans[|eans| - 1], gridSize, matched)
    ensures AreWarningsOf(if keep then warnings + [w] else warnings, eans, gridSize, matched,
                          if keep then places + [|eans| - 1] else places)
  {
    hide IsWarningOf;
  }

  lemma WarningOfMeter(c: Coverage, gridSize: nat, matched: seq<string>)
    requires Lacks(c, gridSize, matched)
    ensures IsWarningOf(IncompleteMeter(c.ean, c.distinctTimes, gridSize, gridSize - c.distinctTimes), c, gridSize,
                        matched)
  {
  }

  lemma {:induction false} IncompleteInOrder(eans: seq<Coverage>, gridSize: nat, matched: seq<string>)
    returns (places: seq<nat>)
    ensures Selects(places, Lacking(eans, gridSize, matched))
    ensures AreWarningsOf(Incomplete(eans, gridSize, matched), eans, gridSize, matched, places)
  {
    if eans == [] {
      places := [];
    } else {
      hide Selects, Lacking, AreWarningsOf, IsWarningOf, Lacks;
      var n, c := |eans| - 1, eans[|eans| - 1];
      var lacks := Lacks(c, gridSize, matched);
      var before := IncompleteInOrder(eans[..n], gridSize, matched);
      LackingSnoc(eans, gridSize, matched);
      SelectsSnoc(before, Lacking(eans[..n], gridSize, matched), lacks);
      var w := IncompleteMeter(c.ean, c.distinctTimes, gridSize, gridSize - c.distinctTimes);
      assert Incomplete(eans, gridSize, matched) ==
             Incomplete(eans[..n], gridSize, matched) + if lacks then [w] else [];
      if lacks {
        WarningOfMeter(c, gridSize, matched);
      }
      WarningsSnoc(Incomplete(eans[..n], gridSize, matched), eans, gridSize, matched, before, w, lacks);
      NothingAfter(Incomplete(eans[..n], gridSize, matched));
      places := if lacks then before + [n] else before;
    }
  }

  lemma IncompleteAre(s: Summary, matched: seq<string>)
    ensures AreIncomplete(s, matched, Incomplete(s.eans, s.gridSize, matched))
  {
    var warnings := Incomplete(s.eans, s.gridSize, matched);
    var places := IncompleteInOrder(s.eans, s.gridSize, matched);
    hide Incomplete, IsWarningOf;
    forall w | w in warnings ensures exists i :: 0 <= i < |s.eans| && IsWarningOf(w, s.eans[i], s.gridSize, matched) {
      var k :| 0 <= k < |warnings| && warnings[k] == w;
      assert IsWarningOf(w, s.eans[places[k]], s.gridSize, matched);
    }
    forall i | 0 <= i < |s.eans| && Lacks(s.eans[i], s.gridSize, matched)
      ensures exists w :: w in warnings && IsWarningOf(w, s.eans[i], s.gridSize, matched)
    {
      assert Lacking(s.eans, s.gridSize, matched)[i];
      var k :| 0 <= k < |places| && places[k] == i;
      assert warnings[k] in warnings;
    }
  }

  /** What a blocker says is what it was tested on. */
  predicate HasDetail(s: Summary, participants: seq<string>, b: Blocker) {
    match b
    case RangeTooLarge(rows) => rows == s.TotalRows()
    case DuplicateReadings(eans) => eans == s.DuplicateEans()
    case NotMatched(names) => names == Among(participants, s.AllEans(), false)
    case _ => true
  }

  /** One branch of `evaluate`: a reason that holds is appended. */
  lemma Tested(s: Summary, participants: seq<string>, iterations: nat, blockers: seq<Blocker>, b: Blocker)
    requires AreBlockers(s, participants, iterations, blockers, BlockerOrder(b)) && HasDetail(s, participants, b)
    ensures AreBlockers(s, participants, iterations,
                        if IsBlocked(s, participants, iterations, b) then blockers + [b] else blockers,
                        BlockerOrder(b) + 1)
  {
    var after := if IsBlocked(s, participants, iterations, b) then blockers + [b] else blockers;
    forall c
      ensures c in after <==> IsBlocked(s, participants, iterations, c) && BlockerOrder(c) < BlockerOrder(b) + 1
    {
      if BlockerOrder(c) == BlockerOrder(b) {
        SameReason(s, participants, iterations, b, c);
      }
    }
  }

  lemma SameReason(s: Summary, participants: seq<string>, iterations: nat, b: Blocker, c: Blocker)
    requires BlockerOrder(b) == BlockerOrder(c) && HasDetail(s, participants, b)
    ensures IsBlocked(s, participants, iterations, c) <==> b == c && IsBlocked(s, participants, iterations, b)
  {
  }

  /** `evaluate` */
  method Evaluate(s: Summary, names: seq<string>, iterations: nat) returns (v: Verdict)
    ensures v.participants == Participants(names)
    ensures AreBlockers(s, v.participants, iterations, v.blockers, 6)
    ensures v.blockers == [] <==> Accepts(s, v.participants, iterations)
    ensures s.eans == [] ==> v == Verdict(v.participants, [], v.participants, [NoData], [])
    ensures s.eans != [] ==>
              && v.matched == Among(v.participants, s.AllEans(), true)
              && v.unmatched == Among(v.participants, s.AllEans(), false)
              && AreIncomplete(s, v.matched, v.warnings)
  {
    hide AreBlockers, AreIncomplete, TooLarge, Incomplete, Accepts, Among, Sum, SumCounts, Duplicates;
    var participants := Participants(names);
    if s.eans == [] {
      OnlyNoData(s, participants, iterations);
      return Verdict(participants, [], participants, [NoData], []);
    }
    var matched, unmatched := Among(participants, s.AllEans(), true), Among(participants, s.AllEans(), false);
    var blockers: seq<Blocker> := [];
    NothingTested(s, participants, iterations);
    Tested(s, participants, iterations, blockers, RangeTooLarge(s.TotalRows()));
    if s.TotalRows() > MAX_READING_ROWS {
      blockers := blockers + [RangeTooLarge(s.TotalRows())];
    }
    Tested(s, participants, iterations, blockers, SimulationTooLarge);
    if TooLarge(|participants|, s.gridSize, iterations) {
      blockers := blockers + [SimulationTooLarge];
    }
    var duplicates := s.DuplicateEans();
    Tested(s, participants, iterations, blockers, DuplicateReadings(duplicates));
    if duplicates != [] {
      blockers := blockers + [DuplicateReadings(duplicates)];
    }
    Tested(s, participants, iterations, blockers, NotMatched(unmatched));
    if unmatched != [] {
      blockers := blockers + [NotMatched(unmatched)];
    }
    Tested(s, participants, iterations, blockers, NoInjection);
    if s.TotalInjection() <= 0.0 {
      blockers := blockers + [NoInjection];
    }
    NoBlockers(s, participants, iterations, blockers);
    IncompleteAre(s, matched);
    v := Verdict(participants, matched, unmatched, blockers, Incomplete(s.eans, s.gridSize, matched));
  }

  lemma OnlyNoData(s: Summary, participants: seq<string>, iterations: nat)
    requires s.eans == []
    ensures AreBlockers(s, participants, iterations, [NoData], 6) && !Accepts(s, participants, iterations)
  {
  }

  lemma NothingTested(s: Summary, participants: seq<string>, iterations: nat)
    requires s.eans != []
    ensures AreBlockers(s, participants, iterations, [], 1)
  {
  }

  /** Which names are listed, or are not. */
  function AreListed(names: seq<string>, listed: seq<string>, wanted: bool): (kept: seq<bool>)
    ensures |kept| == |names|
  {
    seq(|names|, i requires 0 <= i < |names| => (names[i] in listed) == wanted)
  }

  /** They come out in the order they went in, each as often. */
  lemma {:induction false} AmongInOrder(names: seq<string>, listed: seq<string>, wanted: bool)
    returns (places: seq<nat>)
    ensures Selects(places, AreListed(names, listed, wanted))
    ensures IsTakenFrom(Among(names, listed, wanted), names, places)
  {
    hide Selects, IsTakenFrom, AreListed;
    if names == [] {
      NothingTaken(names);
      places := [];
    } else {
      var n := |names| - 1;
      var keep := (names[n] in listed) == wanted;
      var before := AmongInOrder(names[..n], listed, wanted);
      ListedSnoc(names, listed, wanted);
      SelectsSnoc(before, AreListed(names[..n], listed, wanted), keep);
      TakenSnoc(Among(names[..n], listed, wanted), names[..n], before, names[n], keep);
      NothingAfter(Among(names[..n], listed, wanted));
      Unsnoc(names);
      places := if keep then before + [n] else before;
    }
  }

  lemma ListedSnoc(names: seq<string>, listed: seq<string>, wanted: bool)
    requires names != []
    ensures AreListed(names, listed, wanted) ==
            AreListed(names[..|names| - 1], listed, wanted) + [(names[|names| - 1] in listed) == wanted]
  {
  }

  lemma {:induction false} AllAmong(names: seq<string>, listed: seq<string>)
    requires Among(names, listed, false) == []
    ensures Among(names, listed, true) == names
  {
    if names != [] {
      assert names == names[..|names| - 1] + [names[|names| - 1]];
      AllAmong(names[..|names| - 1], listed);
    }
  }

  lemma UnmatchedListed(participants: seq<string>, listed: seq<string>)
    ensures Among(participants, listed, false) == [] <==> forall n :: n in participants ==> n in listed
  {
    var unmatched := Among(participants, listed, false);
    if unmatched == [] {
      forall n | n in participants ensures n in listed {
        assert n in unmatched <==> n !in listed;
      }
    } else {
      assert unmatched[0] in unmatched;
    }
  }

  lemma NoBlockers(s: Summary, participants: seq<string>, iterations: nat, blockers: seq<Blocker>)
    requires AreBlockers(s, participants, iterations, blockers, 6)
    ensures blockers == [] <==> Accepts(s, participants, iterations)
  {
    var unmatched := Among(participants, s.AllEans(), false);
    UnmatchedListed(participants, s.AllEans());
    hide Among, Sum, SumCounts, Duplicates, TooLarge;
    assert forall b :: IsBlocked(s, participants, iterations, b) ==> b in blockers;
    if blockers != [] {
      assert IsBlocked(s, participants, iterations, blockers[0]);
    } else {
      assert !IsBlocked(s, participants, iterations, NoData);
      assert !IsBlocked(s, participants, iterations, RangeTooLarge(s.TotalRows()));
      assert !IsBlocked(s, participants, iterations, SimulationTooLarge);
      assert !IsBlocked(s, participants, iterations, DuplicateReadings(s.DuplicateEans()));
      assert !IsBlocked(s, participants, iterations, NotMatched(unmatched));
      assert !IsBlocked(s, participants, iterations, NoInjection);
    }
  }
}
