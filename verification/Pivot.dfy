/** The wide frame the solver's input is taken from: readings pivoted by instant and meter. */
module Pivot {
  import opened Sequences
  import opened Sums
  import opened Tallies
  import opened Metering

  // ---- Frames ----

  /** A cell of a parsed or pivoted frame: a number, or anything `np.isfinite` rejects. */
  datatype Cell = Finite(value: real) | NonFinite

  datatype FrameColumn = FrameColumn(name: string, cells: seq<Cell>)

  type Frame = seq<FrameColumn>

  datatype Result<+T, +E> = Ok(value: T) | Err(error: E)

  const INJECTION_COLUMN := "__injection__"

  datatype PivotError = NoReadings | NoEans | ReservedName | RepeatedReadings | MissingEans(eans: seq<string>)

  // ---- The grid of instants ----

  predicate StrictlyIncreasing(times: seq<int>) {
    forall i, j :: 0 <= i < j < |times| ==> times[i] < times[j]
  }

  /** An instant put in its place, once. */
  function Insert(times: seq<int>, t: int): seq<int> {
    if times == [] || times[|times| - 1] < t then times + [t]
    else if times[|times| - 1] == t then times
    else Insert(times[..|times| - 1], t) + [times[|times| - 1]]
  }

  lemma {:induction false} InsertKeeps(times: seq<int>, t: int)
    requires StrictlyIncreasing(times)
    ensures StrictlyIncreasing(Insert(times, t))
    ensures forall x :: x in Insert(times, t) <==> x in times || x == t
  {
    if times != [] && t < times[|times| - 1] {
      var front, last := times[..|times| - 1], times[|times| - 1];
      InsertKeeps(front, t);
      assert times == front + [last];
      forall i | 0 <= i < |Insert(front, t)| ensures Insert(front, t)[i] < last {
        assert Insert(front, t)[i] in Insert(front, t);
      }
    }
  }

  /** The instants of the readings, once each, in order. */
  function Grid(rows: seq<Reading>): seq<int> {
    if rows == [] then [] else Insert(Grid(rows[..|rows| - 1]), rows[|rows| - 1].timestamp)
  }

  lemma {:induction false} GridIsChronological(rows: seq<Reading>)
    ensures StrictlyIncreasing(Grid(rows))
    ensures forall t :: t in Grid(rows) <==> t in Times(rows)
  {
    if rows != [] {
      var front := rows[..|rows| - 1];
      GridIsChronological(front);
      InsertKeeps(Grid(front), rows[|rows| - 1].timestamp);
      assert Times(rows) == Times(front) + [rows[|rows| - 1].timestamp];
    }
  }

  lemma IncreasingIsDistinct(times: seq<int>)
    requires StrictlyIncreasing(times)
    ensures Distinct(times)
  {
  }

  lemma GridMembers(rows: seq<Reading>)
    ensures Members(Grid(rows)) == Members(Times(rows))
  {
    GridIsChronological(rows);
    forall t ensures t in Members(Grid(rows)) <==> t in Members(Times(rows)) {
      assert t in Grid(rows) <==> t in Times(rows);
    }
  }

  /** The grid is as long as there are different instants. */
  lemma GridSize(rows: seq<Reading>)
    ensures |Grid(rows)| == |Members(Times(rows))|
  {
    GridIsChronological(rows);
    IncreasingIsDistinct(Grid(rows));
    MembersOfDistinct(Grid(rows));
    GridMembers(rows);
  }

  // ---- `build_dataframe` ----

  datatype Lookup = Gap | Read(gross: real)

  /** The reading of one meter at one instant. */
  function ReadingAt(rows: seq<Reading>, ean: string, t: int): Lookup {
    if rows == [] then Gap
    else
      var last := rows[|rows| - 1];
      if last.ean == ean && last.timestamp == t then Read(last.gross) else ReadingAt(rows[..|rows| - 1], ean, t)
  }

  function InjectedByTime(rows: seq<Reading>): (p: seq<Point<int>>)
    ensures |p| == |rows|
  {
    seq(|rows|, i requires 0 <= i < |rows| => Point(rows[i].timestamp, rows[i].injected))
  }

  function Filled(l: Lookup): real {
    if l.Read? then l.gross else 0.0
  }

  /** A participant's column: its reading at each instant, zero in a gap. */
  function ConsumptionColumn(rows: seq<Reading>, ean: string): (c: FrameColumn)
    ensures c.name == ean && |c.cells| == |Grid(rows)|
  {
    var grid := Grid(rows);
    FrameColumn(ean, seq(|grid|, i requires 0 <= i < |grid| => Finite(Filled(ReadingAt(rows, ean, grid[i])))))
  }

  /** The production: what all meters injected at each instant. */
  function InjectionColumn(rows: seq<Reading>): (c: FrameColumn)
    ensures c.name == INJECTION_COLUMN && |c.cells| == |Grid(rows)|
  {
    var grid := Grid(rows);
    FrameColumn(INJECTION_COLUMN,
                seq(|grid|, i requires 0 <= i < |grid| => Finite(TallyAt(InjectedByTime(rows), grid[i]))))
  }

  function Eans(rows: seq<Reading>): (e: seq<string>)
    ensures |e| == |rows|
  {
    seq(|rows|, i requires 0 <= i < |rows| => rows[i].ean)
  }

  function Unread(rows: seq<Reading>, eans: seq<string>): (m: seq<string>)
    ensures forall e :: e in m <==> e in eans && e !in Eans(rows)
  {
    if eans == [] then []
    else
      var last := eans[|eans| - 1];
      Unread(rows, eans[..|eans| - 1]) + if last in Eans(rows) then [] else [last]
  }

  function PivotFrame(rows: seq<Reading>, eans: seq<string>): (f: Frame)
    ensures |f| == |eans| + 1
  {
    seq(|eans|, i requires 0 <= i < |eans| => ConsumptionColumn(rows, eans[i])) + [InjectionColumn(rows)]
  }

  /** `build_dataframe`; requested names that repeat give columns that repeat. */
  function BuildDataframe(rows: seq<Reading>, eans: seq<string>): Result<Frame, PivotError> {
    if rows == [] then Err(NoReadings)
    else if eans == [] then Err(NoEans)
    else if INJECTION_COLUMN in eans then Err(ReservedName)
    else if !NoDuplicates(rows) then Err(RepeatedReadings)
    else if Unread(rows, eans) != [] then Err(MissingEans(Unread(rows, eans)))
    else Ok(PivotFrame(rows, eans))
  }

  /** Which names no reading has. */
  function AreUnread(rows: seq<Reading>, eans: seq<string>): (kept: seq<bool>)
    ensures |kept| == |eans|
  {
    seq(|eans|, i requires 0 <= i < |eans| => eans[i] !in Eans(rows))
  }

  lemma UnreadSnoc(rows: seq<Reading>, eans: seq<string>)
    requires eans != []
    ensures AreUnread(rows, eans) == AreUnread(rows, eans[..|eans| - 1]) + [eans[|eans| - 1] !in Eans(rows)]
  {
  }

  /** They are named in the order they were asked for, each as often. */
  lemma {:induction false} UnreadInOrder(rows: seq<Reading>, eans: seq<string>) returns (places: seq<nat>)
    ensures Selects(places, AreUnread(rows, eans)) && IsTakenFrom(Unread(rows, eans), eans, places)
  {
    hide Selects, IsTakenFrom, AreUnread, Eans;
    if eans == [] {
      NothingTaken(eans);
      places := [];
    } else {
      var n := |eans| - 1;
      var keep := eans[n] !in Eans(rows);
      var before := UnreadInOrder(rows, eans[..n]);
      UnreadSnoc(rows, eans);
      SelectsSnoc(before, AreUnread(rows, eans[..n]), keep);
      TakenSnoc(Unread(rows, eans[..n]), eans[..n], before, eans[n], keep);
      NothingAfter(Unread(rows, eans[..n]));
      Unsnoc(eans);
      places := if keep then before + [n] else before;
    }
  }

  /** Each error is due, and without a cause for one the frame has a column for each name and the injection. */
  lemma FailureIsDue(rows: seq<Reading>, eans: seq<string>)
    ensures match BuildDataframe(rows, eans)
            case Err(NoReadings) => rows == []
            case Err(NoEans) => rows != [] && eans == []
            case Err(ReservedName) => INJECTION_COLUMN in eans
            case Err(RepeatedReadings) =>
              exists i, j :: 0 <= i < j < |rows|
                && rows[i].ean == rows[j].ean && rows[i].timestamp == rows[j].timestamp
            case Err(MissingEans(names)) => names != [] && forall n :: n in names <==> n in eans && n !in Eans(rows)
            case Ok(frame) =>
              && |frame| == |eans| + 1 && frame[|eans|].name == INJECTION_COLUMN
              && (forall j :: 0 <= j < |eans| ==> frame[j].name == eans[j] && eans[j] in Eans(rows))
              && NoDuplicates(rows)
  {
    assert Unread(rows, eans) == [] ==> forall j :: 0 <= j < |eans| ==> eans[j] !in Unread(rows, eans);
  }

  // ---- The energies are kept ----

  function CellValues(c: FrameColumn): (v: seq<real>)
    requires forall i :: 0 <= i < |c.cells| ==> c.cells[i].Finite?
    ensures |v| == |c.cells|
  {
    seq(|c.cells|, i requires 0 <= i < |c.cells| => c.cells[i].value)
  }

  /** The readings of one meter, by instant. */
  function GrossByTime(rows: seq<Reading>): (p: seq<Point<int>>)
    ensures |p| == |rows|
  {
    seq(|rows|, i requires 0 <= i < |rows| => Point(rows[i].timestamp, rows[i].gross))
  }

  /** Without duplicates, the reading of an instant is all the meter read then. */
  lemma {:induction false} ReadingIsTally(rows: seq<Reading>, ean: string, t: int)
    requires NoDuplicates(rows)
    ensures ReadingAt(rows, ean, t).Gap? <==> t !in Times(RowsOf(rows, ean))
    ensures Filled(ReadingAt(rows, ean, t)) == TallyAt(GrossByTime(RowsOf(rows, ean)), t)
  {
    if rows != [] {
      var front, last := rows[..|rows| - 1], rows[|rows| - 1];
      assert rows == front + [last];
      DuplicatesSnoc(front, last);
      ReadingIsTally(front, ean, t);
      var own, before := RowsOf(rows, ean), RowsOf(front, ean);
      if last.ean == ean {
        assert own == before + [last];
        assert Times(own) == Times(before) + [last.timestamp];
        assert GrossByTime(own) == GrossByTime(before) + [Point(last.timestamp, last.gross)];
        assert GrossByTime(own)[..|before|] == GrossByTime(before);
        if last.timestamp == t {
          assert ReadingAt(front, ean, t).Gap?;
        }
      } else {
        assert own == before;
      }
    }
  }

  lemma {:induction false} GrossOfRows(rows: seq<Reading>, ean: string)
    ensures Sum(Values(GrossByTime(RowsOf(rows, ean)))) == TallyAt(GrossByEan(rows), ean)
  {
    if rows != [] {
      var front, last := rows[..|rows| - 1], rows[|rows| - 1];
      GrossOfRows(front, ean);
      assert GrossByEan(rows)[..|front|] == GrossByEan(front);
      if last.ean == ean {
        assert Values(GrossByTime(RowsOf(rows, ean))) == Values(GrossByTime(RowsOf(front, ean))) + [last.gross];
        SumSnoc(Values(GrossByTime(RowsOf(front, ean))), last.gross);
      } else {
        assert RowsOf(rows, ean) == RowsOf(front, ean);
      }
    }
  }

  lemma OwnTimesInGrid(rows: seq<Reading>, ean: string)
    ensures Distinct(Grid(rows)) && Covers(Grid(rows), GrossByTime(RowsOf(rows, ean)))
        && Covers(Grid(rows), InjectedByTime(rows))
    ensures Members(Times(RowsOf(rows, ean))) <= Members(Grid(rows))
  {
    GridIsChronological(rows);
    IncreasingIsDistinct(Grid(rows));
    RowsOfMember(rows, ean);
    forall r | r in rows ensures r.timestamp in Grid(rows) {
      var i :| 0 <= i < |rows| && rows[i] == r;
      assert Times(rows)[i] == r.timestamp;
    }
    forall i | 0 <= i < |rows| ensures InjectedByTime(rows)[i].key in Grid(rows) {
      assert rows[i] in rows;
    }
    var own := RowsOf(rows, ean);
    forall i | 0 <= i < |own| ensures own[i].timestamp in Grid(rows) {
      assert own[i] in own;
    }
  }

  /** A participant's column adds up to the consumption its summary states. */
  lemma ColumnKeepsConsumption(rows: seq<Reading>, ean: string)
    requires NoDuplicates(rows)
    ensures Sum(CellValues(ConsumptionColumn(rows, ean))) == TallyAt(GrossByEan(rows), ean)
  {
    var grid, points := Grid(rows), GrossByTime(RowsOf(rows, ean));
    OwnTimesInGrid(rows, ean);
    forall i | 0 <= i < |grid| ensures CellValues(ConsumptionColumn(rows, ean))[i] == TallyAt(points, grid[i]) {
      ReadingIsTally(rows, ean, grid[i]);
    }
    assert CellValues(ConsumptionColumn(rows, ean)) == TallyAll(points, grid);
    TalliesAddUp(points, grid);
    GrossOfRows(rows, ean);
  }

  /** The production adds up to what all meters injected. */
  lemma ColumnKeepsInjection(rows: seq<Reading>)
    ensures Sum(CellValues(InjectionColumn(rows))) == Sum(Values(InjectedByEan(rows)))
  {
    OwnTimesInGrid(rows, "");
    assert CellValues(InjectionColumn(rows)) == TallyAll(InjectedByTime(rows), Grid(rows));
    TalliesAddUp(InjectedByTime(rows), Grid(rows));
    assert Values(InjectedByTime(rows)) == Values(InjectedByEan(rows));
  }

  /** The instants of a list at which a meter has no reading. */
  function Gaps(rows: seq<Reading>, ean: string, times: seq<int>): nat {
    if times == [] then 0
    else Gaps(rows, ean, times[..|times| - 1]) + if ReadingAt(rows, ean, times[|times| - 1]).Gap? then 1 else 0
  }

  lemma {:induction false} GapsAreNotRead(rows: seq<Reading>, ean: string, times: seq<int>)
    requires NoDuplicates(rows)
    ensures Gaps(rows, ean, times) + CountIn(times, Members(Times(RowsOf(rows, ean)))) == |times|
  {
    if times != [] {
      GapsAreNotRead(rows, ean, times[..|times| - 1]);
      ReadingIsTally(rows, ean, times[|times| - 1]);
    }
  }

  /** The `missing` of a warning is the number of cells filled with zero. */
  lemma MissingAreGaps(rows: seq<Reading>, s: Summary, i: nat)
    requires IsSummary(rows, s) && NoDuplicates(rows) && i < |s.eans|
    ensures s.gridSize - s.eans[i].distinctTimes == Gaps(rows, s.eans[i].ean, Grid(rows))
  {
    var ean, grid := s.eans[i].ean, Grid(rows);
    var own := Members(Times(RowsOf(rows, ean)));
    assert IsCoverage(rows, s.eans[i]);
    GridSize(rows);
    OwnTimesInGrid(rows, ean);
    GapsAreNotRead(rows, ean, grid);
    CountInDistinct(grid, own);
    assert own * Members(grid) == own;
  }

  // ---- Cell by cell ----

  /** No reading of this meter is of this instant. */
  ghost predicate IsGap(rows: seq<Reading>, ean: string, t: int) {
    forall r :: r in rows ==> r.ean != ean || r.timestamp != t
  }

  /** The values of a meter's column are its readings, each at its own instant, and zero elsewhere. */
  ghost predicate HoldsReadings(values: seq<real>, rows: seq<Reading>, ean: string) {
    && |values| == |Grid(rows)|
    && (forall r, i :: r in rows && r.ean == ean && 0 <= i < |values| && Grid(rows)[i] == r.timestamp ==>
          values[i] == r.gross)
    && forall i :: 0 <= i < |values| && IsGap(rows, ean, Grid(rows)[i]) ==> values[i] == 0.0
  }

  lemma ColumnCells(rows: seq<Reading>, ean: string)
    requires NoDuplicates(rows)
    ensures HoldsReadings(CellValues(ConsumptionColumn(rows, ean)), rows, ean)
  {
    var grid, values := Grid(rows), CellValues(ConsumptionColumn(rows, ean));
    forall r, i | r in rows && r.ean == ean && 0 <= i < |grid| && grid[i] == r.timestamp ensures values[i] == r.gross {
      ReadingIsListed(rows, ean, grid[i]);
      var q :| q in rows && q.ean == ean && q.timestamp == grid[i] && q.gross == ReadingAt(rows, ean, grid[i]).gross;
      OneReading(rows, r, q);
    }
    forall i | 0 <= i < |grid| && IsGap(rows, ean, grid[i]) ensures values[i] == 0.0 {
      ReadingIsListed(rows, ean, grid[i]);
    }
  }

  /** The gaps of a meter are the instants without a reading of it. */
  lemma {:induction false} GapsAreCounted(rows: seq<Reading>, ean: string, times: seq<int>)
    ensures Gaps(rows, ean, times) == |set i | 0 <= i < |times| && IsGap(rows, ean, times[i])|
  {
    var all := set i | 0 <= i < |times| && IsGap(rows, ean, times[i]);
    if times == [] {
      assert all == {};
    } else {
      var n := |times| - 1;
      GapsAreCounted(rows, ean, times[..n]);
      ReadingIsListed(rows, ean, times[n]);
      hide IsGap;
      var front := set i | 0 <= i < n && IsGap(rows, ean, times[..n][i]);
      GapAt(rows, ean, times[n]);
      assert all == if IsGap(rows, ean, times[n]) then front + {n} else front;
    }
  }

  lemma GapAt(rows: seq<Reading>, ean: string, t: int)
    ensures ReadingAt(rows, ean, t).Gap? <==> IsGap(rows, ean, t)
  {
    ReadingIsListed(rows, ean, t);
  }

  /** The readings of one instant, of all meters. */
  function RowsAt(rows: seq<Reading>, t: int): seq<Reading> {
    if rows == [] then []
    else
      var last := rows[|rows| - 1];
      RowsAt(rows[..|rows| - 1], t) + if last.timestamp == t then [last] else []
  }

  function Injections(rows: seq<Reading>): (s: seq<real>)
    ensures |s| == |rows| && forall i :: 0 <= i < |s| ==> s[i] == rows[i].injected
  {
    seq(|rows|, i requires 0 <= i < |rows| => rows[i].injected)
  }

  /** They are all there, and without duplicates each once. */
  lemma {:induction false} RowsAtExactly(rows: seq<Reading>, t: int)
    ensures forall r :: r in RowsAt(rows, t) <==> r in rows && r.timestamp == t
    ensures NoDuplicates(rows) ==> NoDuplicates(RowsAt(rows, t))
  {
    if rows != [] {
      var front, last := rows[..|rows| - 1], rows[|rows| - 1];
      RowsAtExactly(front, t);
      assert rows == front + [last];
      if NoDuplicates(rows) {
        DuplicatesSnoc(front, last);
        var before := RowsAt(front, t);
        if last.timestamp == t {
          forall i | 0 <= i < |before| ensures before[i].ean != last.ean {
            assert before[i] in front;
            var k :| 0 <= k < |front| && front[k] == before[i];
            assert rows[k] == before[i] && rows[|front|] == last;
          }
        }
      }
    }
  }

  lemma {:induction false} InjectionIsSum(rows: seq<Reading>, t: int)
    ensures TallyAt(InjectedByTime(rows), t) == Sum(Injections(RowsAt(rows, t)))
  {
    if rows != [] {
      var front, last := rows[..|rows| - 1], rows[|rows| - 1];
      InjectionIsSum(front, t);
      assert InjectedByTime(rows)[..|front|] == InjectedByTime(front);
      if last.timestamp == t {
        assert Injections(RowsAt(rows, t)) == Injections(RowsAt(front, t)) + [last.injected];
        SumSnoc(Injections(RowsAt(front, t)), last.injected);
      } else {
        assert RowsAt(rows, t) == RowsAt(front, t);
      }
    }
  }

  /** The production of an instant is the sum of what all meters injected then. */
  ghost predicate HoldsInjections(values: seq<real>, rows: seq<Reading>) {
    && |values| == |Grid(rows)|
    && forall i :: 0 <= i < |values| ==> values[i] == Sum(Injections(RowsAt(rows, Grid(rows)[i])))
  }

  lemma InjectionCells(rows: seq<Reading>)
    ensures HoldsInjections(CellValues(InjectionColumn(rows)), rows)
  {
    var grid := Grid(rows);
    forall i | 0 <= i < |grid|
      ensures CellValues(InjectionColumn(rows))[i] == Sum(Injections(RowsAt(rows, grid[i])))
    {
      InjectionIsSum(rows, grid[i]);
    }
  }

  /** The consumption a column sums to is that of the meter's readings, and so is the injection its tally states. */
  lemma {:induction false} InjectedOfRows(rows: seq<Reading>, ean: string)
    ensures TallyAt(InjectedByEan(rows), ean) == Sum(Injections(RowsOf(rows, ean)))
  {
    if rows != [] {
      var front, last := rows[..|rows| - 1], rows[|rows| - 1];
      InjectedOfRows(front, ean);
      assert InjectedByEan(rows)[..|front|] == InjectedByEan(front);
      if last.ean == ean {
        assert Injections(RowsOf(rows, ean)) == Injections(RowsOf(front, ean)) + [last.injected];
        SumSnoc(Injections(RowsOf(front, ean)), last.injected);
      } else {
        assert RowsOf(rows, ean) == RowsOf(front, ean);
      }
    }
  }

  // ---- The order of the rows does not matter ----

  lemma SameMembers(a: seq<Reading>, b: seq<Reading>)
    requires multiset(a) == multiset(b)
    ensures forall r :: r in a <==> r in b
  {
    assert forall r :: r in a <==> r in multiset(a);
    assert forall r :: r in b <==> r in multiset(b);
  }

  /** Two increasing lists of the same instants are the same list. */
  lemma {:induction false} SameGrid(a: seq<int>, b: seq<int>)
    requires StrictlyIncreasing(a) && StrictlyIncreasing(b) && Members(a) == Members(b)
    ensures a == b
    decreases |a|
  {
    EmptyAlike(a, b);
    if a != [] {
      var x, y := a[|a| - 1], b[|b| - 1];
      LastIsMost(a);
      LastIsMost(b);
      assert x in Members(b) && y in Members(a);
      assert x == y;
      SameGrid(a[..|a| - 1], b[..|b| - 1]);
    }
  }

  lemma EmptyAlike(a: seq<int>, b: seq<int>)
    requires Members(a) == Members(b)
    ensures a == [] <==> b == []
  {
    if a != [] {
      assert a[0] in Members(b);
    }
    if b != [] {
      assert b[0] in Members(a);
    }
  }

  lemma LastIsMost(a: seq<int>)
    requires StrictlyIncreasing(a) && a != []
    ensures forall t :: t in Members(a) ==> t <= a[|a| - 1]
    ensures Members(a[..|a| - 1]) == Members(a) - {a[|a| - 1]}
  {
    var front, last := a[..|a| - 1], a[|a| - 1];
    forall t | t in Members(a) ensures t == last || t in Members(front) {
      var i :| 0 <= i < |a| && a[i] == t;
      if i < |front| {
        assert front[i] == t;
      }
    }
  }

  lemma SameTimes(a: seq<Reading>, b: seq<Reading>)
    requires forall r :: r in a <==> r in b
    ensures Grid(a) == Grid(b)
  {
    SameTimeSet(a, b);
    GridIsChronological(a);
    GridIsChronological(b);
    GridMembers(a);
    GridMembers(b);
    SameGrid(Grid(a), Grid(b));
  }

  lemma TimesCarry(a: seq<Reading>, b: seq<Reading>, t: int)
    requires forall r :: r in a ==> r in b
    ensures t in Times(a) ==> t in Times(b)
  {
    if t in Times(a) {
      var i :| 0 <= i < |a| && Times(a)[i] == t;
      assert a[i] in b;
      var j :| 0 <= j < |b| && b[j] == a[i];
      assert Times(b)[j] == t;
    }
  }

  /** The number of a meter's readings does not depend on their order. */
  lemma SameCount(a: seq<Reading>, b: seq<Reading>, ean: string)
    requires multiset(a) == multiset(b)
    ensures |RowsOf(a, ean)| == |RowsOf(b, ean)|
  {
    MapRearranged(a, b, (r: Reading) => Point(r.ean, 1.0));
    assert OnesByEan(a) == MapSeq(a, (r: Reading) => Point(r.ean, 1.0));
    assert OnesByEan(b) == MapSeq(b, (r: Reading) => Point(r.ean, 1.0));
    TallyReordered(OnesByEan(a), OnesByEan(b), ean);
    CountOfRows(a, ean);
    CountOfRows(b, ean);
  }

  lemma SameInjection(a: seq<Reading>, b: seq<Reading>, t: int)
    requires multiset(a) == multiset(b)
    ensures TallyAt(InjectedByTime(a), t) == TallyAt(InjectedByTime(b), t)
  {
    MapRearranged(a, b, (r: Reading) => Point(r.timestamp, r.injected));
    assert InjectedByTime(a) == MapSeq(a, (r: Reading) => Point(r.timestamp, r.injected));
    assert InjectedByTime(b) == MapSeq(b, (r: Reading) => Point(r.timestamp, r.injected));
    TallyReordered(InjectedByTime(a), InjectedByTime(b), t);
  }

  lemma DuplicatesCarry(a: seq<Reading>, b: seq<Reading>)
    requires multiset(a) == multiset(b) && NoDuplicates(a)
    ensures NoDuplicates(b)
  {
    SameMembers(a, b);
    DistinctPerEan(a);
    DistinctPerEan(b);
    forall ean ensures Distinct(Times(RowsOf(b, ean))) {
      assert Distinct(Times(RowsOf(a, ean)));
      SameCount(a, b, ean);
      RowsOfMember(a, ean);
      RowsOfMember(b, ean);
      SameTimeSet(RowsOf(a, ean), RowsOf(b, ean));
      MembersOfDistinct(Times(RowsOf(a, ean)));
      MembersOfDistinct(Times(RowsOf(b, ean)));
    }
  }

  lemma SameTimeSet(a: seq<Reading>, b: seq<Reading>)
    requires forall r :: r in a <==> r in b
    ensures Members(Times(a)) == Members(Times(b))
  {
    forall t ensures t in Times(a) <==> t in Times(b) {
      TimesCarry(a, b, t);
      TimesCarry(b, a, t);
    }
  }

  /** Without duplicates, what is read is what some reading says. */
  lemma {:induction false} ReadingIsListed(rows: seq<Reading>, ean: string, t: int)
    ensures ReadingAt(rows, ean, t).Gap? ==> forall r :: r in rows ==> r.ean != ean || r.timestamp != t
    ensures ReadingAt(rows, ean, t).Read? ==>
              exists r :: r in rows && r.ean == ean && r.timestamp == t && r.gross == ReadingAt(rows, ean, t).gross
  {
    if rows != [] {
      var front, last := rows[..|rows| - 1], rows[|rows| - 1];
      assert rows == front + [last];
      ReadingIsListed(front, ean, t);
      if last.ean == ean && last.timestamp == t {
        assert last in rows;
      } else if ReadingAt(front, ean, t).Read? {
        var r :| r in front && r.ean == ean && r.timestamp == t && r.gross == ReadingAt(front, ean, t).gross;
        assert r in rows;
      }
    }
  }

  lemma SameReading(a: seq<Reading>, b: seq<Reading>, ean: string, t: int)
    requires (forall r :: r in a <==> r in b) && NoDuplicates(a)
    ensures ReadingAt(a, ean, t) == ReadingAt(b, ean, t)
  {
    ReadingIsListed(a, ean, t);
    ReadingIsListed(b, ean, t);
    if ReadingAt(a, ean, t).Read? && ReadingAt(b, ean, t).Read? {
      var r :| r in a && r.ean == ean && r.timestamp == t && r.gross == ReadingAt(a, ean, t).gross;
      var q :| q in b && q.ean == ean && q.timestamp == t && q.gross == ReadingAt(b, ean, t).gross;
      OneReading(a, r, q);
    }
  }

  lemma OneReading(rows: seq<Reading>, r: Reading, q: Reading)
    requires NoDuplicates(rows) && r in rows && q in rows && r.ean == q.ean && r.timestamp == q.timestamp
    ensures r == q
  {
    var i :| 0 <= i < |rows| && rows[i] == r;
    var j :| 0 <= j < |rows| && rows[j] == q;
  }

  lemma SameEans(a: seq<Reading>, b: seq<Reading>, ean: string)
    requires forall r :: r in a ==> r in b
    ensures ean in Eans(a) ==> ean in Eans(b)
  {
    if ean in Eans(a) {
      var i :| 0 <= i < |a| && Eans(a)[i] == ean;
      assert a[i] in b;
      var j :| 0 <= j < |b| && b[j] == a[i];
      assert Eans(b)[j] == ean;
    }
  }

  lemma {:induction false} SameUnread(a: seq<Reading>, b: seq<Reading>, eans: seq<string>)
    requires forall r :: r in a <==> r in b
    ensures Unread(a, eans) == Unread(b, eans)
  {
    if eans != [] {
      SameUnread(a, b, eans[..|eans| - 1]);
      SameEans(a, b, eans[|eans| - 1]);
      SameEans(b, a, eans[|eans| - 1]);
    }
  }

  lemma SameColumn(a: seq<Reading>, b: seq<Reading>, ean: string)
    requires (forall r :: r in a <==> r in b) && NoDuplicates(a)
    ensures ConsumptionColumn(a, ean) == ConsumptionColumn(b, ean)
  {
    SameTimes(a, b);
    forall i | 0 <= i < |Grid(a)| ensures ReadingAt(a, ean, Grid(a)[i]) == ReadingAt(b, ean, Grid(a)[i]) {
      SameReading(a, b, ean, Grid(a)[i]);
    }
  }

  lemma SameInjectionColumn(a: seq<Reading>, b: seq<Reading>)
    requires multiset(a) == multiset(b)
    ensures InjectionColumn(a) == InjectionColumn(b)
  {
    SameMembers(a, b);
    SameTimes(a, b);
    forall i | 0 <= i < |Grid(a)| ensures TallyAt(InjectedByTime(a), Grid(a)[i]) ==
        TallyAt(InjectedByTime(b), Grid(a)[i]) {
      SameInjection(a, b, Grid(a)[i]);
    }
  }

  lemma SameFrame(a: seq<Reading>, b: seq<Reading>, eans: seq<string>)
    requires multiset(a) == multiset(b) && NoDuplicates(a)
    ensures PivotFrame(a, eans) == PivotFrame(b, eans)
  {
    hide ConsumptionColumn, InjectionColumn;
    SameMembers(a, b);
    SameInjectionColumn(a, b);
    forall i | 0 <= i < |eans| ensures ConsumptionColumn(a, eans[i]) == ConsumptionColumn(b, eans[i]) {
      SameColumn(a, b, eans[i]);
    }
  }

  /** The frame, or the error, does not depend on the order the readings arrive in. */
  lemma RowOrder(a: seq<Reading>, b: seq<Reading>, eans: seq<string>)
    requires multiset(a) == multiset(b)
    ensures BuildDataframe(a, eans) == BuildDataframe(b, eans)
  {
    SameMembers(a, b);
    SameUnread(a, b, eans);
    assert |a| == |multiset(a)| == |multiset(b)| == |b|;
    if NoDuplicates(a) {
      DuplicatesCarry(a, b);
      SameFrame(a, b, eans);
    } else if NoDuplicates(b) {
      DuplicatesCarry(b, a);
    }
  }
}
