/** The metering readings of a period, and what its summary says about them. */
module Metering {
  import opened Sequences
  import opened Sums
  import opened Tallies

  /** `ConsumptionRow`: one reading, missing energies read as zero. */
  datatype Reading = Reading(timestamp: int, ean: string, gross: real, injected: real)

  /** `EanCoverage` */
  datatype Coverage = Coverage(ean: string, rowCount: nat, distinctTimes: nat, consumption: real, injection: real) {
    predicate HasDuplicateRows() {
      rowCount != distinctTimes
    }
  }

  /** `CrmDataSummary` */
  datatype Summary = Summary(eans: seq<Coverage>, gridSize: nat) {
    function TotalRows(): nat {
      SumCounts(eans)
    }

    function TotalInjection(): real {
      Sum(seq(|eans|, i requires 0 <= i < |eans| => eans[i].injection))
    }

    function AllEans(): (names: seq<string>)
      ensures |names| == |eans| && forall i :: 0 <= i < |names| ==> names[i] == eans[i].ean
    {
      seq(|eans|, i requires 0 <= i < |eans| => eans[i].ean)
    }

    function DuplicateEans(): (names: seq<string>)
      ensures names == [] <==> forall i :: 0 <= i < |eans| ==> !eans[i].HasDuplicateRows()
    {
      Duplicates(eans)
    }
  }

  function SumCounts(eans: seq<Coverage>): nat {
    if eans == [] then 0 else SumCounts(eans[..|eans| - 1]) + eans[|eans| - 1].rowCount
  }

  function Duplicates(eans: seq<Coverage>): (names: seq<string>)
    ensures names == [] <==> forall i :: 0 <= i < |eans| ==> !eans[i].HasDuplicateRows()
  {
    if eans == [] then []
    else
      var last := eans[|eans| - 1];
      Duplicates(eans[..|eans| - 1]) + if last.HasDuplicateRows() then [last.ean] else []
  }

  function Repeating(eans: seq<Coverage>): (kept: seq<bool>)
    ensures |kept| == |eans|
  {
    seq(|eans|, i requires 0 <= i < |eans| => eans[i].rowCount != eans[i].distinctTimes)
  }

  function Names(eans: seq<Coverage>): (names: seq<string>)
    ensures |names| == |eans|
  {
    seq(|eans|, i requires 0 <= i < |eans| => eans[i].ean)
  }

  /** The meters named as duplicated are those with more rows than instants, in the summary's order. */
  lemma {:induction false} DuplicatesAre(eans: seq<Coverage>) returns (places: seq<nat>)
    ensures Selects(places, Repeating(eans)) && IsTakenFrom(Duplicates(eans), Names(eans), places)
  {
    hide Selects, IsTakenFrom, Repeating, Names;
    if eans == [] {
      NothingTaken(Names(eans));
      places := [];
    } else {
      var n, c := |eans| - 1, eans[|eans| - 1];
      var before := DuplicatesAre(eans[..n]);
      RepeatingSnoc(eans);
      SelectsSnoc(before, Repeating(eans[..n]), c.rowCount != c.distinctTimes);
      TakenSnoc(Duplicates(eans[..n]), Names(eans[..n]), before, c.ean, c.rowCount != c.distinctTimes);
      NothingAfter(Duplicates(eans[..n]));
      places := if c.rowCount != c.distinctTimes then before + [n] else before;
    }
  }

  lemma RepeatingSnoc(eans: seq<Coverage>)
    requires eans != []
    ensures var front, c := eans[..|eans| - 1], eans[|eans| - 1];
            && Repeating(eans) == Repeating(front) + [c.rowCount != c.distinctTimes]
            && Names(eans) == Names(front) + [c.ean]
  {
  }

  // ---- The rows behind a summary ----

  function RowsOf(rows: seq<Reading>, ean: string): seq<Reading> {
    if rows == [] then []
    else
      var last := rows[|rows| - 1];
      RowsOf(rows[..|rows| - 1], ean) + if last.ean == ean then [last] else []
  }

  function Times(rows: seq<Reading>): (t: seq<int>)
    ensures |t| == |rows|
  {
    seq(|rows|, i requires 0 <= i < |rows| => rows[i].timestamp)
  }

  function GrossByEan(rows: seq<Reading>): (p: seq<Point<string>>)
    ensures |p| == |rows|
  {
    seq(|rows|, i requires 0 <= i < |rows| => Point(rows[i].ean, rows[i].gross))
  }

  function InjectedByEan(rows: seq<Reading>): (p: seq<Point<string>>)
    ensures |p| == |rows|
  {
    seq(|rows|, i requires 0 <= i < |rows| => Point(rows[i].ean, rows[i].injected))
  }

  /** What the two queries of `summarize` return for a period with these rows. */
  ghost predicate IsSummary(rows: seq<Reading>, s: Summary) {
    && Distinct(s.AllEans())
    && (forall r :: r in rows ==> r.ean in s.AllEans())
    && s.gridSize == |Members(Times(rows))|
    && forall i :: 0 <= i < |s.eans| ==> IsCoverage(rows, s.eans[i])
  }

  ghost predicate IsCoverage(rows: seq<Reading>, c: Coverage) {
    var own := RowsOf(rows, c.ean);
    && own != []
    && c.rowCount == |own|
    && c.distinctTimes == |Members(Times(own))|
    && c.consumption == TallyAt(GrossByEan(rows), c.ean)
    && c.injection == TallyAt(InjectedByEan(rows), c.ean)
  }

  lemma {:induction false} RowsOfMember(rows: seq<Reading>, ean: string)
    ensures forall r :: r in RowsOf(rows, ean) <==> r in rows && r.ean == ean
  {
    if rows != [] {
      var front, last := rows[..|rows| - 1], rows[|rows| - 1];
      RowsOfMember(front, ean);
      assert rows == front + [last];
    }
  }

  /** Every period has a summary. */
  lemma {:induction false} CoveragesExist(rows: seq<Reading>, n: nat) returns (eans: seq<Coverage>)
    requires n <= |rows|
    ensures forall i :: 0 <= i < |eans| ==> IsCoverage(rows, eans[i])
    ensures forall i, j :: 0 <= i < j < |eans| ==> eans[i].ean != eans[j].ean
    ensures forall k :: 0 <= k < n ==> exists i :: 0 <= i < |eans| && eans[i].ean == rows[k].ean
  {
    if n == 0 {
      eans := [];
    } else {
      eans := CoveragesExist(rows, n - 1);
      var ean := rows[n - 1].ean;
      if forall i :: 0 <= i < |eans| ==> eans[i].ean != ean {
        var own, before := RowsOf(rows, ean), eans;
        RowsOfMember(rows, ean);
        assert rows[n - 1] in own;
        eans := eans + [Coverage(ean, |own|, |Members(Times(own))|,
                                TallyAt(GrossByEan(rows), ean), TallyAt(InjectedByEan(rows), ean))];
        forall k | 0 <= k < n ensures exists i :: 0 <= i < |eans| && eans[i].ean == rows[k].ean {
          if k < n - 1 {
            var i :| 0 <= i < |before| && before[i].ean == rows[k].ean;
            assert eans[i].ean == rows[k].ean;
          } else {
            assert eans[|before|].ean == rows[k].ean;
          }
        }
      }
    }
  }

  lemma SummaryExists(rows: seq<Reading>) returns (s: Summary)
    ensures IsSummary(rows, s)
  {
    var eans := CoveragesExist(rows, |rows|);
    s := Summary(eans, |Members(Times(rows))|);
    forall r | r in rows ensures r.ean in s.AllEans() {
      var k :| 0 <= k < |rows| && rows[k] == r;
      var i :| 0 <= i < |eans| && eans[i].ean == rows[k].ean;
      assert s.AllEans()[i] == r.ean;
    }
  }

  // ---- Duplicates ----

  /** No meter has two readings of one instant. */
  predicate NoDuplicates(rows: seq<Reading>) {
    forall i, j :: 0 <= i < j < |rows| ==> rows[i].ean != rows[j].ean || rows[i].timestamp != rows[j].timestamp
  }

  lemma DistinctSnoc(keys: seq<int>, k: int)
    ensures Distinct(keys + [k]) <==> Distinct(keys) && k !in keys
  {
    if Distinct(keys + [k]) {
      forall i, j | 0 <= i < j < |keys| ensures keys[i] != keys[j] {
        assert (keys + [k])[i] != (keys + [k])[j];
      }
      forall i | 0 <= i < |keys| ensures keys[i] != k {
        assert (keys + [k])[i] != (keys + [k])[|keys|];
      }
    }
  }

  /** Adding one reading to a period. */
  lemma TimesSnoc(front: seq<Reading>, last: Reading, ean: string)
    ensures Distinct(Times(RowsOf(front + [last], ean))) <==>
            Distinct(Times(RowsOf(front, ean))) && (ean == last.ean ==> last.timestamp !in Times(RowsOf(front, ean)))
  {
    assert (front + [last])[..|front|] == front;
    if ean == last.ean {
      assert Times(RowsOf(front + [last], ean)) == Times(RowsOf(front, ean)) + [last.timestamp];
      DistinctSnoc(Times(RowsOf(front, ean)), last.timestamp);
    } else {
      assert RowsOf(front + [last], ean) == RowsOf(front, ean);
    }
  }

  ghost predicate DistinctTimes(rows: seq<Reading>) {
    forall ean :: Distinct(Times(RowsOf(rows, ean)))
  }

  lemma {:induction false} DistinctPerEan(rows: seq<Reading>)
    ensures NoDuplicates(rows) <==> DistinctTimes(rows)
  {
    if rows != [] {
      var front, last := rows[..|rows| - 1], rows[|rows| - 1];
      assert rows == front + [last];
      DistinctPerEan(front);
      DuplicatesSnoc(front, last);
      forall ean ensures Distinct(Times(RowsOf(rows, ean))) <==>
                         Distinct(Times(RowsOf(front, ean)))
                             && (ean == last.ean ==> last.timestamp !in Times(RowsOf(front, ean)))
      {
        TimesSnoc(front, last, ean);
      }
      if DistinctTimes(rows) {
        assert Distinct(Times(RowsOf(rows, last.ean)));
      }
    }
  }

  lemma DuplicatesSnoc(front: seq<Reading>, last: Reading)
    ensures NoDuplicates(front + [last]) <==> NoDuplicates(front) && last.timestamp !in Times(RowsOf(front, last.ean))
  {
    var rows := front + [last];
    RepeatedReading(front, last);
    if NoDuplicates(rows) {
      forall i, j | 0 <= i < j < |front| ensures front[i].ean != front[j].ean
          || front[i].timestamp != front[j].timestamp {
        assert rows[i] == front[i] && rows[j] == front[j];
      }
      forall i | 0 <= i < |front| ensures front[i].ean != last.ean || front[i].timestamp != last.timestamp {
        assert rows[i] == front[i] && rows[|front|] == last;
      }
    }
  }

  lemma RepeatedReading(front: seq<Reading>, last: Reading)
    ensures last.timestamp in Times(RowsOf(front, last.ean)) <==>
            exists i :: 0 <= i < |front| && front[i].ean == last.ean && front[i].timestamp == last.timestamp
  {
    var own := RowsOf(front, last.ean);
    RowsOfMember(front, last.ean);
    if last.timestamp in Times(own) {
      var k :| 0 <= k < |own| && Times(own)[k] == last.timestamp;
      assert own[k] in front;
    }
    if i :| 0 <= i < |front| && front[i].ean == last.ean && front[i].timestamp == last.timestamp {
      assert front[i] in own;
      var k :| 0 <= k < |own| && own[k] == front[i];
      assert Times(own)[k] == last.timestamp;
    }
  }

  lemma UnlistedHasNoRows(rows: seq<Reading>, s: Summary, ean: string)
    requires IsSummary(rows, s) && ean !in s.AllEans()
    ensures RowsOf(rows, ean) == []
  {
    if RowsOf(rows, ean) != [] {
      ListedWithRows(rows, s, ean);
    }
  }

  lemma ListedWithRows(rows: seq<Reading>, s: Summary, ean: string)
    requires IsSummary(rows, s) && RowsOf(rows, ean) != []
    ensures ean in s.AllEans()
  {
    RowsOfMember(rows, ean);
    var r := RowsOf(rows, ean)[0];
    assert r in rows && r.ean in s.AllEans();
  }

  lemma CoverageShows(rows: seq<Reading>, s: Summary, i: nat)
    requires IsSummary(rows, s) && i < |s.eans|
    ensures s.eans[i].HasDuplicateRows() <==> !Distinct(Times(RowsOf(rows, s.eans[i].ean)))
  {
    assert IsCoverage(rows, s.eans[i]);
    MembersOfDistinct(Times(RowsOf(rows, s.eans[i].ean)));
  }

  /** No meter is reported as duplicated exactly when no reading of the period repeats. */
  lemma DuplicatesShow(rows: seq<Reading>, s: Summary)
    requires IsSummary(rows, s)
    ensures s.DuplicateEans() == [] <==> NoDuplicates(rows)
  {
    DistinctPerEan(rows);
    hide IsSummary, NoDuplicates, RowsOf, Distinct, Members;
    forall i | 0 <= i < |s.eans|
      ensures s.eans[i].HasDuplicateRows() <==> !Distinct(Times(RowsOf(rows, s.AllEans()[i]))) {
      CoverageShows(rows, s, i);
    }
    forall ean | ean !in s.AllEans() ensures Distinct(Times(RowsOf(rows, ean))) {
      UnlistedHasNoRows(rows, s, ean);
      NothingRepeats();
    }
  }

  lemma NothingRepeats()
    ensures Distinct(Times([]))
  {
  }

  // ---- Totals ----

  function OnesByEan(rows: seq<Reading>): (p: seq<Point<string>>)
    ensures |p| == |rows|
  {
    seq(|rows|, i requires 0 <= i < |rows| => Point(rows[i].ean, 1.0))
  }

  lemma {:induction false} CountOfRows(rows: seq<Reading>, ean: string)
    ensures |RowsOf(rows, ean)| as real == TallyAt(OnesByEan(rows), ean)
  {
    if rows != [] {
      CountOfRows(rows[..|rows| - 1], ean);
      assert OnesByEan(rows)[..|rows| - 1] == OnesByEan(rows[..|rows| - 1]);
    }
  }

  lemma {:induction false} SumOfOnes(ones: seq<real>)
    requires forall i :: 0 <= i < |ones| ==> ones[i] == 1.0
    ensures Sum(ones) == |ones| as real
  {
    if ones != [] {
      SumOfOnes(ones[..|ones| - 1]);
    }
  }

  lemma {:induction false} CountsAsReals(eans: seq<Coverage>, counts: seq<real>)
    requires |counts| == |eans| && forall i :: 0 <= i < |eans| ==> counts[i] == eans[i].rowCount as real
    ensures SumCounts(eans) as real == Sum(counts)
  {
    if eans != [] {
      CountsAsReals(eans[..|eans| - 1], counts[..|counts| - 1]);
    }
  }

  /** The summary accounts for every row: its counts add up to their number, and its injection to theirs. */
  lemma SummaryAddsUp(rows: seq<Reading>, s: Summary)
    requires IsSummary(rows, s)
    ensures s.TotalRows() == |rows|
    ensures s.TotalInjection() == Sum(Values(InjectedByEan(rows)))
  {
    var ones, injected := TallyAll(OnesByEan(rows), s.AllEans()), TallyAll(InjectedByEan(rows), s.AllEans());
    TalliesAddUp(OnesByEan(rows), s.AllEans());
    TalliesAddUp(InjectedByEan(rows), s.AllEans());
    SumOfOnes(Values(OnesByEan(rows)));
    forall i | 0 <= i < |s.eans| ensures ones[i] == s.eans[i].rowCount as real && injected[i] == s.eans[i].injection {
      assert IsCoverage(rows, s.eans[i]);
      CountOfRows(rows, s.eans[i].ean);
    }
    CountsAsReals(s.eans, ones);
    assert seq(|s.eans|, i requires 0 <= i < |s.eans| => s.eans[i].injection) == injected;
  }

  // ---- Reading the rows ----

  function Concat(partitions: seq<seq<Reading>>): seq<Reading> {
    if partitions == [] then [] else Concat(partitions[..|partitions| - 1]) + partitions[|partitions| - 1]
  }

  /** `fetch_rows`: partition by partition, every equal name and instant the first object read for it. */
  method FetchRows(partitions: seq<seq<Reading>>) returns (rows: seq<Reading>)
    ensures rows == Concat(partitions)
  {
    var eans: map<string, string>, timestamps: map<int, int> := map[], map[];
    rows := [];
    for p := 0 to |partitions|
      invariant rows == Concat(partitions[..p])
      invariant (forall e :: e in eans ==> eans[e] == e) && forall t :: t in timestamps ==> timestamps[t] == t
    {
      var partition := partitions[p];
      for i := 0 to |partition|
        invariant rows == Concat(partitions[..p]) + partition[..i]
        invariant (forall e :: e in eans ==> eans[e] == e) && forall t :: t in timestamps ==> timestamps[t] == t
      {
        var row := partition[i];
        if row.timestamp !in timestamps { timestamps := timestamps[row.timestamp := row.timestamp]; }
        if row.ean !in eans { eans := eans[row.ean := row.ean]; }
        rows := rows + [Reading(timestamps[row.timestamp], eans[row.ean], row.gross, row.injected)];
        assert partition[..i + 1] == partition[..i] + [row];
      }
      assert partition[..|partition|] == partition;
      assert partitions[..p + 1][..p] == partitions[..p];
    }
    assert partitions[..|partitions|] == partitions;
  }
}
