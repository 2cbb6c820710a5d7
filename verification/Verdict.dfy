/** What the pre-flight's verdict is worth: whether the readings it accepts can be pivoted and solved. */
module Verdict {
  import opened Sequences
  import opened Sums
  import opened Tallies
  import opened Metering
  import P = Preflight
  import opened Pivot

  // ---- `to_simulation_raw_data` ----

  datatype ConversionError =
    | NoConsumers | InvalidInjection(name: string) | MissingColumns(names: seq<string>)
    | NonFiniteValues(name: string, count: nat, firstRow: nat) | UnequalLengths

  /** The solver's input; the production is repeated once per name. */
  datatype RawData = RawData(consumption: Matrix, production: Matrix, names: seq<string>)

  predicate AllFinite(cells: seq<Cell>) {
    forall t :: 0 <= t < |cells| ==> cells[t].Finite?
  }

  function CountInvalid(cells: seq<Cell>): nat {
    if cells == [] then 0 else CountInvalid(cells[..|cells| - 1]) + if cells[|cells| - 1].Finite? then 0 else 1
  }

  /** It counts each such cell once. */
  lemma {:induction false} CountIsOfInvalid(cells: seq<Cell>)
    ensures CountInvalid(cells) == |set t | 0 <= t < |cells| && cells[t].NonFinite?|
  {
    var all := set t | 0 <= t < |cells| && cells[t].NonFinite?;
    if cells == [] {
      assert all == {};
    } else {
      var n := |cells| - 1;
      CountIsOfInvalid(cells[..n]);
      var front := set t | 0 <= t < n && cells[..n][t].NonFinite?;
      assert all == if cells[n].Finite? then front else front + {n};
    }
  }

  /** The data row, from 1, of the first invalid cell. */
  predicate IsFirstInvalid(cells: seq<Cell>, row: nat) {
    0 < row <= |cells| && cells[row - 1].NonFinite? && AllFinite(cells[..row - 1])
  }

  /** `_require_finite`: the first series with an empty or non-finite cell, by its column's name. */
  method RequireFinite(series: seq<seq<Cell>>, columns: seq<string>) returns (ok: bool, error: ConversionError)
    ensures ok <==> forall j :: 0 <= j < |series| ==> AllFinite(series[j])
    ensures !ok && error.NonFiniteValues? ==>
              exists j :: 0 <= j < |series| && j < |columns| && columns[j] == error.name
                          && (forall i :: 0 <= i < j ==> AllFinite(series[i]))
                          && error.count == CountInvalid(series[j]) && IsFirstInvalid(series[j], error.firstRow)
    ensures !ok && !error.NonFiniteValues? ==> error == UnequalLengths && |columns| < |series|
  {
    ok, error := true, UnequalLengths;
    if forall j :: 0 <= j < |series| ==> AllFinite(series[j]) {
      return;
    }
    ok := false;
    var j := 0;
    while j < |series| && j < |columns|
      invariant j <= |series| && j <= |columns|
      invariant forall i :: 0 <= i < j ==> AllFinite(series[i])
    {
      if !AllFinite(series[j]) {
        var row := 0;
        while series[j][row].Finite?
          invariant row < |series[j]| && AllFinite(series[j][..row])
          invariant exists t :: row <= t < |series[j]| && series[j][t].NonFinite?
          decreases |series[j]| - row
        {
          row := row + 1;
        }
        return false, NonFiniteValues(columns[j], CountInvalid(series[j]), row + 1);
      }
      j := j + 1;
    }
  }

  /** The columns of one name, in the frame's order. */
  function Named(frame: Frame, name: string): (f: Frame)
    ensures forall c :: c in f ==> c in frame && c.name == name
  {
    if frame == [] then []
    else
      var last := frame[|frame| - 1];
      Named(frame[..|frame| - 1], name) + if last.name == name then [last] else []
  }

  /** `dataframe[names]`: every column of each name, name by name. */
  function Select(frame: Frame, names: seq<string>): (f: Frame)
    ensures forall c :: c in f ==> c in frame
  {
    if names == [] then [] else Select(frame, names[..|names| - 1]) + Named(frame, names[|names| - 1])
  }

  function Absent(frame: Frame, names: seq<string>): (m: seq<string>)
    ensures forall n :: n in m <==> n in names && Named(frame, n) == []
  {
    if names == [] then []
    else
      var last := names[|names| - 1];
      Absent(frame, names[..|names| - 1]) + if Named(frame, last) == [] then [last] else []
  }

  predicate FiniteFrame(frame: Frame) {
    forall c :: c in frame ==> AllFinite(c.cells)
  }

  /** Whether the conversion of a frame of finite cells succeeds, and to what. */
  function ToRawData(frame: Frame, injection: string, names: seq<string>): Result<RawData, ConversionError>
    requires FiniteFrame(frame)
  {
    if names == [] then Err(NoConsumers)
    else if Named(frame, injection) == [] then Err(InvalidInjection(injection))
    else if Absent(frame, names) != [] then Err(MissingColumns(Absent(frame, names)))
    else
      var selected, production := Select(frame, names), Named(frame, injection)[0];
      assert production in frame;
      Ok(RawData(ValuesOf(selected), seq(|names|, _ => CellValues(production)), names))
  }

  function AreAbsent(frame: Frame, names: seq<string>): (kept: seq<bool>)
    ensures |kept| == |names|
  {
    seq(|names|, i requires 0 <= i < |names| => Named(frame, names[i]) == [])
  }

  lemma AbsentSnoc(frame: Frame, names: seq<string>)
    requires names != []
    ensures AreAbsent(frame, names) ==
            AreAbsent(frame, names[..|names| - 1]) + [Named(frame, names[|names| - 1]) == []]
  {
  }

  /** The columns named as missing are those the frame has not, in the order they were asked for. */
  lemma {:induction false} AbsentInOrder(frame: Frame, names: seq<string>) returns (places: seq<nat>)
    ensures Selects(places, AreAbsent(frame, names)) && IsTakenFrom(Absent(frame, names), names, places)
  {
    hide Selects, IsTakenFrom, AreAbsent, Named;
    if names == [] {
      NothingTaken(names);
      places := [];
    } else {
      var n := |names| - 1;
      var keep := Named(frame, names[n]) == [];
      var before := AbsentInOrder(frame, names[..n]);
      AbsentSnoc(frame, names);
      SelectsSnoc(before, AreAbsent(frame, names[..n]), keep);
      TakenSnoc(Absent(frame, names[..n]), names[..n], before, names[n], keep);
      NothingAfter(Absent(frame, names[..n]));
      Unsnoc(names);
      places := if keep then before + [n] else before;
    }
  }

  /** Each conversion error is due; without one, the production is repeated for each name. */
  lemma ConversionFailureIsDue(frame: Frame, injection: string, names: seq<string>)
    requires FiniteFrame(frame)
    ensures match ToRawData(frame, injection, names)
            case Err(NoConsumers) => names == []
            case Err(InvalidInjection(name)) => name == injection && forall c :: c in frame ==> c.name != injection
            case Err(MissingColumns(missing)) =>
              && missing != [] && (exists c :: c in frame && c.name == injection)
              && forall n :: n in missing <==> n in names && forall c :: c in frame ==> c.name != n
            case Err(_) => false
            case Ok(raw) =>
              && raw.names == names && |raw.production| == |names|
              && (exists c :: c in frame && c.name == injection)
              && forall n :: n in names ==> exists c :: c in frame && c.name == n
  {
    hide Select, ValuesOf, CellValues, FiniteFrame;
    NamedNone(frame, injection);
    forall n ensures Named(frame, n) == [] <==> forall c :: c in frame ==> c.name != n {
      NamedNone(frame, n);
      AbsentFrom(frame, n);
    }
    var absent := Absent(frame, names);
    assert absent == [] ==> forall n :: n in names ==> n !in absent;
  }

  lemma AbsentFrom(frame: Frame, name: string)
    ensures (forall c :: c in frame ==> c.name != name) <==> forall j :: 0 <= j < |frame| ==> frame[j].name != name
  {
  }

  function ValuesOf(frame: Frame): (m: Matrix)
    requires FiniteFrame(frame)
    ensures |m| == |frame| && forall j :: 0 <= j < |m| ==> |m[j]| == |frame[j].cells|
  {
    seq(|frame|, j requires 0 <= j < |frame| =>
      (assert frame[j] in frame && AllFinite(frame[j].cells); CellValues(frame[j])))
  }

  // ---- Selecting the pivot's own columns ----

  lemma {:induction false} NamedOne(frame: Frame, i: nat)
    requires i < |frame| && forall j :: 0 <= j < |frame| && j != i ==> frame[j].name != frame[i].name
    ensures Named(frame, frame[i].name) == [frame[i]]
  {
    var front := frame[..|frame| - 1];
    if i < |front| {
      NamedOne(front, i);
    } else {
      NamedNone(front, frame[i].name);
    }
  }

  lemma {:induction false} NamedNone(frame: Frame, name: string)
    ensures Named(frame, name) == [] <==> forall j :: 0 <= j < |frame| ==> frame[j].name != name
  {
    if frame != [] {
      var front := frame[..|frame| - 1];
      NamedNone(front, name);
      assert frame == front + [frame[|front|]];
    }
  }

  lemma {:induction false} NamedTwice(frame: Frame, i: nat, j: nat)
    requires i < j < |frame| && frame[i].name == frame[j].name
    ensures |Named(frame, frame[i].name)| >= 2
  {
    var front := frame[..|frame| - 1];
    if j < |front| {
      NamedTwice(front, i, j);
    } else {
      NamedNone(front, frame[i].name);
      assert front[i] == frame[i];
    }
  }

  lemma {:induction false} SelectOwn(frame: Frame, names: seq<string>, n: nat)
    requires n <= |names| <= |frame| && forall i :: 0 <= i < n ==> Named(frame, names[i]) == [frame[i]]
    ensures Select(frame, names[..n]) == frame[..n]
  {
    if n > 0 {
      hide Named;
      SelectOwn(frame, names, n - 1);
      assert names[..n][..n - 1] == names[..n - 1];
      TakeOne(frame, n - 1);
    }
  }

  lemma {:induction false} SelectAtLeast(frame: Frame, names: seq<string>)
    requires forall n :: n in names ==> Named(frame, n) != []
    ensures |Select(frame, names)| >= |names|
    ensures (exists n :: n in names && |Named(frame, n)| >= 2) ==> |Select(frame, names)| > |names|
  {
    if names != [] {
      var front, last := names[..|names| - 1], names[|names| - 1];
      assert names == front + [last];
      SelectAtLeast(frame, front);
      assert |Named(frame, last)| >= 1;
      if |Named(frame, last)| < 2 && exists n :: n in names && |Named(frame, n)| >= 2 {
        var n :| n in names && |Named(frame, n)| >= 2;
        assert n in front;
      }
    }
  }

  /** Names that are not reserved select one column each from their pivot, in order, exactly when none repeats. */
  lemma SelectsOneEach(rows: seq<Reading>, eans: seq<string>)
    requires INJECTION_COLUMN !in eans
    ensures |Select(PivotFrame(rows, eans), eans)| == |eans| <==> Distinct(eans)
    ensures Distinct(eans) ==> Select(PivotFrame(rows, eans), eans) == PivotFrame(rows, eans)[..|eans|]
    ensures Named(PivotFrame(rows, eans), INJECTION_COLUMN) == [InjectionColumn(rows)]
    ensures Absent(PivotFrame(rows, eans), eans) == []
  {
    var frame := PivotFrame(rows, eans);
    PivotNames(rows, eans);
    hide PivotFrame, Named, Select, Distinct;
    NamedOne(frame, |eans|);
    forall n | n in eans ensures Named(frame, n) != [] {
      NamedNone(frame, n);
    }
    NothingAbsent(frame, eans);
    if Distinct(eans) {
      OwnColumns(frame, eans);
    } else {
      RepeatedColumns(frame, eans);
    }
  }

  lemma {:induction false} NothingAbsent(frame: Frame, names: seq<string>)
    requires forall n :: n in names ==> Named(frame, n) != []
    ensures Absent(frame, names) == []
  {
    if names != [] {
      assert names == names[..|names| - 1] + [names[|names| - 1]];
      NothingAbsent(frame, names[..|names| - 1]);
    }
  }

  lemma PivotNames(rows: seq<Reading>, eans: seq<string>)
    ensures forall i :: 0 <= i < |eans| ==> PivotFrame(rows, eans)[i].name == eans[i]
    ensures PivotFrame(rows, eans)[|eans|] == InjectionColumn(rows)
  {
  }

  lemma OwnColumns(frame: Frame, names: seq<string>)
    requires |frame| == |names| + 1 && Distinct(names) && frame[|names|].name !in names
    requires forall i :: 0 <= i < |names| ==> frame[i].name == names[i]
    ensures Select(frame, names) == frame[..|names|]
  {
    forall i | 0 <= i < |names| ensures Named(frame, names[i]) == [frame[i]] {
      NamedOne(frame, i);
    }
    hide Named;
    SelectOwn(frame, names, |names|);
    assert names[..|names|] == names;
  }

  lemma RepeatedColumns(frame: Frame, names: seq<string>)
    requires |frame| == |names| + 1 && !Distinct(names)
    requires forall i :: 0 <= i < |names| ==> frame[i].name == names[i]
    ensures |Select(frame, names)| > |names|
  {
    forall n | n in names ensures Named(frame, n) != [] {
      NamedNone(frame, n);
    }
    var i, j :| 0 <= i < j < |names| && names[i] == names[j];
    NamedTwice(frame, i, j);
    hide Named, Select;
    SelectAtLeast(frame, names);
  }

  // ---- The verdict ----

  lemma PivotIsFinite(rows: seq<Reading>, eans: seq<string>)
    ensures FiniteFrame(PivotFrame(rows, eans))
  {
  }

  /** The readings make an input with one row a participant and one value an instant. */
  ghost predicate IsUsable(rows: seq<Reading>, participants: seq<string>, gridSize: nat) {
    && BuildDataframe(rows, participants).Ok?
    && FiniteFrame(BuildDataframe(rows, participants).value)
    && var raw := ToRawData(BuildDataframe(rows, participants).value, INJECTION_COLUMN, participants);
       && raw.Ok?
       && |raw.value.consumption| == |participants| == |raw.value.production|
       && Rectangular(raw.value.consumption, gridSize) && Rectangular(raw.value.production, gridSize)
  }

  lemma {:induction false} AllRead(rows: seq<Reading>, s: Summary, eans: seq<string>)
    requires IsSummary(rows, s) && forall n :: n in eans ==> n in s.AllEans()
    ensures Unread(rows, eans) == []
  {
    if eans != [] {
      var front, last := eans[..|eans| - 1], eans[|eans| - 1];
      assert eans == front + [last];
      AllRead(rows, s, front);
      ListedIsRead(rows, s, last);
    }
  }

  lemma ListedIsRead(rows: seq<Reading>, s: Summary, ean: string)
    requires IsSummary(rows, s)
    ensures ean in s.AllEans() <==> ean in Eans(rows)
  {
    if ean in s.AllEans() {
      var i :| 0 <= i < |s.eans| && s.AllEans()[i] == ean;
      assert IsCoverage(rows, s.eans[i]);
      RowsOfMember(rows, ean);
      var r := RowsOf(rows, ean)[0];
      assert r in rows;
      var k :| 0 <= k < |rows| && rows[k] == r;
      assert Eans(rows)[k] == ean;
    }
    if ean in Eans(rows) {
      var k :| 0 <= k < |rows| && Eans(rows)[k] == ean;
      assert rows[k] in rows;
    }
  }

  lemma SomeRows(rows: seq<Reading>, s: Summary)
    requires IsSummary(rows, s)
    ensures s.eans == [] <==> rows == []
  {
    if rows != [] {
      assert rows[0] in rows;
      assert rows[0].ean in s.AllEans();
    }
    if s.eans != [] {
      assert IsCoverage(rows, s.eans[0]);
    }
  }

  /** What becomes of readings the pre-flight accepts. */
  lemma AcceptedPivot(rows: seq<Reading>, s: Summary, participants: seq<string>, iterations: nat)
    requires IsSummary(rows, s) && P.Accepts(s, participants, iterations)
    ensures BuildDataframe(rows, participants) ==
            if participants == [] then Err(NoEans)
            else if INJECTION_COLUMN in participants then Err(ReservedName)
            else Ok(PivotFrame(rows, participants))
  {
    SomeRows(rows, s);
    DuplicatesShow(rows, s);
    AllRead(rows, s, participants);
  }

  lemma RowsAreLong(rows: seq<Reading>, eans: seq<string>, frame: Frame)
    requires forall c :: c in frame ==> c in PivotFrame(rows, eans)
    ensures FiniteFrame(frame) && Rectangular(ValuesOf(frame), |Members(Times(rows))|)
  {
    PivotIsFinite(rows, eans);
    GridSize(rows);
    forall j | 0 <= j < |frame| ensures |frame[j].cells| == |Grid(rows)| {
      assert frame[j] in frame;
    }
  }

  lemma UsableWhen(rows: seq<Reading>, p: seq<string>, gridSize: nat)
    requires BuildDataframe(rows, p).Ok? && FiniteFrame(BuildDataframe(rows, p).value)
    requires ToRawData(BuildDataframe(rows, p).value, INJECTION_COLUMN, p).Ok?
    requires var raw := ToRawData(BuildDataframe(rows, p).value, INJECTION_COLUMN, p).value;
             |raw.production| == |p| && Rectangular(raw.consumption, gridSize) && Rectangular(raw.production, gridSize)
    ensures IsUsable(rows, p, gridSize) <==>
            |ToRawData(BuildDataframe(rows, p).value, INJECTION_COLUMN, p).value.consumption| == |p|
  {
  }

  lemma InjectionIsFinite(rows: seq<Reading>)
    ensures AllFinite(InjectionColumn(rows).cells)
  {
  }

  /** What the pivot of participants that are not reserved converts to. */
  lemma ConvertedPivot(rows: seq<Reading>, eans: seq<string>)
    requires eans != [] && INJECTION_COLUMN !in eans
    ensures FiniteFrame(PivotFrame(rows, eans)) && FiniteFrame(Select(PivotFrame(rows, eans), eans))
    ensures AllFinite(InjectionColumn(rows).cells)
    ensures ToRawData(PivotFrame(rows, eans), INJECTION_COLUMN, eans) ==
            Ok(RawData(ValuesOf(Select(PivotFrame(rows, eans), eans)),
                       seq(|eans|, _ => CellValues(InjectionColumn(rows))), eans))
  {
    PivotIsFinite(rows, eans);
    InjectionIsFinite(rows);
    SelectsOneEach(rows, eans);
    hide PivotFrame, InjectionColumn, Named, Absent;
    var a, b := seq(|eans|, _ => CellValues(Named(PivotFrame(rows, eans), INJECTION_COLUMN)[0])),
        seq(|eans|, _ => CellValues(InjectionColumn(rows)));
    assert a == b;
  }

  /**
   * The verdict is sound: readings the pre-flight accepts make a participants by grid matrix
   * exactly when there are participants, no two alike once trimmed and none called as the reserved
   * column; and the size check made on the shape of that matrix accepts it too.
   */
  lemma VerdictIsSound(rows: seq<Reading>, s: Summary, names: seq<string>, iterations: nat)
    requires IsSummary(rows, s) && P.Accepts(s, P.Participants(names), iterations)
    ensures var p := P.Participants(names);
            && (IsUsable(rows, p, s.gridSize) <==> p != [] && Distinct(p) && INJECTION_COLUMN !in p)
            && (IsUsable(rows, p, s.gridSize) && p != [] ==>
                  var raw := ToRawData(BuildDataframe(rows, p).value, INJECTION_COLUMN, p).value;
                  !P.TooLarge(|raw.consumption|, |raw.consumption[0]|, iterations))
  {
    hide IsUsable, BuildDataframe, PivotFrame, Distinct, P.Participants, P.TooLarge;
    var p := P.Participants(names);
    AcceptedPivot(rows, s, p, iterations);
    Unusable(rows, p, s.gridSize);
    if p != [] && INJECTION_COLUMN !in p {
      UsableIff(rows, p);
    }
    if IsUsable(rows, p, s.gridSize) && p != [] {
      UsableShape(rows, p, s.gridSize);
    }
  }

  lemma UsableShape(rows: seq<Reading>, p: seq<string>, gridSize: nat)
    requires IsUsable(rows, p, gridSize) && p != []
    ensures BuildDataframe(rows, p).Ok? && ToRawData(BuildDataframe(rows, p).value, INJECTION_COLUMN, p).Ok?
    ensures var raw := ToRawData(BuildDataframe(rows, p).value, INJECTION_COLUMN, p).value;
            |raw.consumption| == |p| && |raw.consumption[0]| == gridSize
  {
  }

  lemma Unusable(rows: seq<Reading>, p: seq<string>, gridSize: nat)
    ensures IsUsable(rows, p, gridSize) ==> BuildDataframe(rows, p).Ok?
  {
  }

  lemma UsableIff(rows: seq<Reading>, p: seq<string>)
    requires p != [] && INJECTION_COLUMN !in p && BuildDataframe(rows, p) == Ok(PivotFrame(rows, p))
    ensures IsUsable(rows, p, |Members(Times(rows))|) <==> Distinct(p)
  {
    hide PivotFrame, Select, InjectionColumn, Distinct, ToRawData, BuildDataframe, Members, IsUsable, FiniteFrame,
        Named, Absent;
    ConvertedPivot(rows, p);
    SelectsOneEach(rows, p);
    RowsAreLong(rows, p, Select(PivotFrame(rows, p), p));
    GridSize(rows);
    UsableWhen(rows, p, |Members(Times(rows))|);
  }

  /** Readings refused as duplicated, or for a participant without a meter, could not have been pivoted. */
  lemma RefusalIsDue(rows: seq<Reading>, s: Summary, names: seq<string>)
    requires IsSummary(rows, s)
    requires s.DuplicateEans() != [] || P.Among(P.Participants(names), s.AllEans(), false) != []
    ensures BuildDataframe(rows, P.Participants(names)).Err?
  {
    var p := P.Participants(names);
    DuplicatesShow(rows, s);
    P.UnmatchedListed(p, s.AllEans());
    if NoDuplicates(rows) {
      var n :| n in p && n !in s.AllEans();
      ListedIsRead(rows, s, n);
      assert n in Unread(rows, p);
    }
  }

  /**
   * An accepted period keeps its energies: each participant's row its summarised consumption, the
   * production its injection.
   */
  lemma EnergiesAreKept(rows: seq<Reading>, s: Summary, participants: seq<string>, j: nat)
    requires IsSummary(rows, s) && IsUsable(rows, participants, s.gridSize) && Distinct(participants)
        && j < |participants|
    ensures var raw := ToRawData(BuildDataframe(rows, participants).value, INJECTION_COLUMN, participants).value;
            && Sum(raw.production[j]) == s.TotalInjection()
            && exists i :: 0 <= i < |s.eans| && s.eans[i].ean == participants[j]
                           && Sum(raw.consumption[j]) == s.eans[i].consumption
  {
    UsableIsPivot(rows, participants, s.gridSize);
    ConvertedPivot(rows, participants);
    SelectsOneEach(rows, participants);
    ColumnKeepsConsumption(rows, participants[j]);
    ColumnKeepsInjection(rows);
    SummaryAddsUp(rows, s);
    ParticipantListed(rows, s, participants, j);
    PivotAt(rows, participants, j);
    hide PivotFrame, Select, ToRawData, BuildDataframe, IsUsable, IsSummary, ConsumptionColumn, InjectionColumn,
        CellValues, Sum;
  }

  /**
   * Usable readings make a matrix that holds them cell by cell: each participant's row its meter's
   * readings at their instants and zero in its gaps, the production what all meters injected then.
   */
  lemma CellsAreReadings(rows: seq<Reading>, participants: seq<string>, gridSize: nat, j: nat)
    requires IsUsable(rows, participants, gridSize) && Distinct(participants) && j < |participants|
    ensures var raw := ToRawData(BuildDataframe(rows, participants).value, INJECTION_COLUMN, participants).value;
            && HoldsReadings(raw.consumption[j], rows, participants[j])
            && HoldsInjections(raw.production[j], rows) && raw.names == participants
  {
    UsableIsPivot(rows, participants, gridSize);
    ConvertedPivot(rows, participants);
    SelectsOneEach(rows, participants);
    ColumnCells(rows, participants[j]);
    InjectionCells(rows);
    PivotAt(rows, participants, j);
    hide PivotFrame, Select, ToRawData, BuildDataframe, IsUsable, ConsumptionColumn, InjectionColumn, CellValues,
        HoldsReadings, HoldsInjections;
  }

  lemma PivotAt(rows: seq<Reading>, eans: seq<string>, j: nat)
    requires j < |eans|
    ensures PivotFrame(rows, eans)[j] == ConsumptionColumn(rows, eans[j])
  {
  }

  lemma UsableIsPivot(rows: seq<Reading>, participants: seq<string>, gridSize: nat)
    requires IsUsable(rows, participants, gridSize)
    ensures participants != [] && INJECTION_COLUMN !in participants && NoDuplicates(rows)
        && Unread(rows, participants) == []
    ensures BuildDataframe(rows, participants) == Ok(PivotFrame(rows, participants))
  {
  }

  lemma ParticipantListed(rows: seq<Reading>, s: Summary, participants: seq<string>, j: nat)
    requires IsSummary(rows, s) && j < |participants| && Unread(rows, participants) == []
    ensures exists i :: 0 <= i < |s.eans| && s.eans[i].ean == participants[j]
                        && s.eans[i].consumption == TallyAt(GrossByEan(rows), participants[j])
  {
    assert participants[j] !in Unread(rows, participants);
    ListedIsRead(rows, s, participants[j]);
    var i :| 0 <= i < |s.eans| && s.AllEans()[i] == participants[j];
    assert IsCoverage(rows, s.eans[i]);
    assert s.eans[i].ean == participants[j];
  }

  // ---- The warnings ----

  /** A meter that is taken part in and has no reading at some instants of the period. */
  ghost predicate HasGaps(rows: seq<Reading>, matched: seq<string>, ean: string) {
    ean in matched && ean in Eans(rows) && Gaps(rows, ean, Grid(rows)) > 0
  }

  /** One warning for each such meter: the readings it has, those it should have, and its gaps. */
  ghost predicate AreWarnings(rows: seq<Reading>, matched: seq<string>, warnings: seq<P.IncompleteMeter>) {
    && (forall i, j :: 0 <= i < j < |warnings| ==> warnings[i].ean != warnings[j].ean)
    && (forall w :: w in warnings ==> HasGaps(rows, matched, w.ean))
    && (forall ean :: HasGaps(rows, matched, ean) ==> exists w :: w in warnings && w.ean == ean)
    && forall w :: w in warnings ==> SaysGaps(rows, w)
  }

  lemma CoverageOf(rows: seq<Reading>, s: Summary, i: nat)
    requires IsSummary(rows, s) && NoDuplicates(rows) && i < |s.eans|
    ensures var c := s.eans[i];
            && c.distinctTimes == |RowsOf(rows, c.ean)| && s.gridSize == |Grid(rows)| && c.ean in Eans(rows)
            && s.gridSize - c.distinctTimes == Gaps(rows, c.ean, Grid(rows))
  {
    assert IsCoverage(rows, s.eans[i]);
    DistinctPerEan(rows);
    assert Distinct(Times(RowsOf(rows, s.eans[i].ean)));
    MembersOfDistinct(Times(RowsOf(rows, s.eans[i].ean)));
    GridSize(rows);
    MissingAreGaps(rows, s, i);
    assert s.AllEans()[i] == s.eans[i].ean;
    ListedIsRead(rows, s, s.eans[i].ean);
  }

  /** What a warning says of its meter's readings. */
  ghost predicate SaysGaps(rows: seq<Reading>, w: P.IncompleteMeter) {
    && w.missing == Gaps(rows, w.ean, Grid(rows))
    && w.readings == |RowsOf(rows, w.ean)| && w.expected == |Grid(rows)|
  }

  lemma WarningIsOfGaps(rows: seq<Reading>, s: Summary, matched: seq<string>, w: P.IncompleteMeter, i: nat)
    requires IsSummary(rows, s) && NoDuplicates(rows) && i < |s.eans|
    requires P.IsWarningOf(w, s.eans[i], s.gridSize, matched)
    ensures HasGaps(rows, matched, w.ean) && SaysGaps(rows, w)
  {
    hide IsSummary, NoDuplicates, Gaps, RowsOf, Grid;
    CoverageOf(rows, s, i);
  }

  lemma GapsAreLacked(rows: seq<Reading>, s: Summary, matched: seq<string>, ean: string) returns (i: nat)
    requires IsSummary(rows, s) && NoDuplicates(rows) && HasGaps(rows, matched, ean)
    ensures i < |s.eans| && s.eans[i].ean == ean && P.Lacks(s.eans[i], s.gridSize, matched)
  {
    hide IsSummary, NoDuplicates, Gaps, RowsOf, Grid;
    ListedIsRead(rows, s, ean);
    i :| 0 <= i < |s.eans| && s.AllEans()[i] == ean;
    CoverageOf(rows, s, i);
  }

  lemma WarningsAreGaps(rows: seq<Reading>, s: Summary, matched: seq<string>, warnings: seq<P.IncompleteMeter>)
    requires IsSummary(rows, s) && NoDuplicates(rows) && P.AreIncomplete(s, matched, warnings)
    ensures AreWarnings(rows, matched, warnings)
  {
    OneWarningEach(rows, s, matched, warnings);
    hide IsSummary, NoDuplicates, HasGaps, SaysGaps, P.IsInOrder, P.Lacks;
    forall w | w in warnings ensures HasGaps(rows, matched, w.ean) && SaysGaps(rows, w) {
      var i :| 0 <= i < |s.eans| && P.IsWarningOf(w, s.eans[i], s.gridSize, matched);
      hide P.IsWarningOf;
      WarningIsOfGaps(rows, s, matched, w, i);
    }
    forall ean | HasGaps(rows, matched, ean) ensures exists w :: w in warnings && w.ean == ean {
      var i := GapsAreLacked(rows, s, matched, ean);
      var w :| w in warnings && P.IsWarningOf(w, s.eans[i], s.gridSize, matched);
      assert w.ean == ean;
    }
  }

  lemma OneWarningEach(rows: seq<Reading>, s: Summary, matched: seq<string>, warnings: seq<P.IncompleteMeter>)
    requires IsSummary(rows, s) && P.AreIncomplete(s, matched, warnings)
    ensures forall i, j :: 0 <= i < j < |warnings| ==> warnings[i].ean != warnings[j].ean
  {
    var places: seq<nat> :| Selects(places, P.Lacking(s.eans, s.gridSize, matched))
                            && P.AreWarningsOf(warnings, s.eans, s.gridSize, matched, places);
    hide IsSummary, P.AreIncomplete, P.Lacks, P.Lacking;
    forall i, j | 0 <= i < j < |warnings| ensures warnings[i].ean != warnings[j].ean {
      assert P.IsWarningOf(warnings[i], s.eans[places[i]], s.gridSize, matched);
      assert P.IsWarningOf(warnings[j], s.eans[places[j]], s.gridSize, matched);
      OtherMeter(rows, s, places[i], places[j]);
    }
  }

  lemma OtherMeter(rows: seq<Reading>, s: Summary, i: nat, j: nat)
    requires IsSummary(rows, s) && i < j < |s.eans|
    ensures s.eans[i].ean != s.eans[j].ean
  {
    assert s.AllEans()[i] != s.AllEans()[j];
  }

  /** `evaluate`, of the summary of some readings: what its verdict says of them. */
  method EvaluatePeriod(ghost rows: seq<Reading>, s: Summary, names: seq<string>, iterations: nat)
    returns (v: P.Verdict)
    requires IsSummary(rows, s)
    ensures v.participants == P.Participants(names)
    ensures s.eans != [] && NoDuplicates(rows) ==> AreWarnings(rows, v.matched, v.warnings)
    ensures v.blockers == [] ==>
              && NoDuplicates(rows) && v.unmatched == [] && v.matched == v.participants
              && (IsUsable(rows, v.participants, s.gridSize) <==>
                    v.participants != [] && Distinct(v.participants) && INJECTION_COLUMN !in v.participants)
  {
    hide IsSummary, IsUsable, AreWarnings, NoDuplicates, P.AreIncomplete, P.AreBlockers, P.Accepts, P.Participants,
        P.Among, Distinct, P.TooLarge;
    v := P.Evaluate(s, names, iterations);
    if s.eans != [] && NoDuplicates(rows) {
      WarningsAreGaps(rows, s, v.matched, v.warnings);
    }
    if v.blockers == [] {
      AcceptedVerdict(rows, s, names, iterations);
    }
  }

  lemma AcceptedVerdict(rows: seq<Reading>, s: Summary, names: seq<string>, iterations: nat)
    requires IsSummary(rows, s) && P.Accepts(s, P.Participants(names), iterations)
    ensures var p := P.Participants(names);
            && s.eans != [] && NoDuplicates(rows)
            && P.Among(p, s.AllEans(), false) == [] && P.Among(p, s.AllEans(), true) == p
            && (IsUsable(rows, p, s.gridSize) <==> p != [] && Distinct(p) && INJECTION_COLUMN !in p)
  {
    var p := P.Participants(names);
    VerdictIsSound(rows, s, names, iterations);
    DuplicatesShow(rows, s);
    P.UnmatchedListed(p, s.AllEans());
    hide IsSummary, IsUsable, NoDuplicates, P.Participants, P.Among, Distinct, P.TooLarge;
    P.AllAmong(p, s.AllEans());
  }

  // ---- An accepted key that cannot be solved ----

  lemma OneReadingCoverage(r: Reading)
    ensures IsCoverage([r], Coverage(r.ean, 1, 1, r.gross, r.injected))
  {
    var rows := [r];
    assert rows[..0] == [];
    assert RowsOf(rows, r.ean) == [r];
    assert GrossByEan(rows)[..0] == [] && InjectedByEan(rows)[..0] == [];
    assert Times(rows) == [r.timestamp];
    MembersOfDistinct(Times(rows));
  }

  lemma OneReadingSummary(r: Reading)
    ensures IsSummary([r], Summary([Coverage(r.ean, 1, 1, r.gross, r.injected)], 1))
  {
    var s := Summary([Coverage(r.ean, 1, 1, r.gross, r.injected)], 1);
    OneReadingCoverage(r);
    assert Times([r]) == [r.timestamp];
    MembersOfDistinct(Times([r]));
    hide IsCoverage, RowsOf;
    assert s.AllEans()[0] == r.ean;
  }

  lemma NormalizedPair()
    ensures P.Participants(["A", "A "]) == ["A", "A"]
  {
    assert P.StripLeft("A") == "A" && P.StripLeft("A ") == "A ";
    assert P.StripRight("A") == "A";
    assert "A "[..1] == "A";
    assert P.StripRight("A ") == P.StripRight("A");
  }

  /**
   * A key that names one meter twice, once with a trailing space: the pre-flight accepts it, its
   * pivot has too many rows.
   */
  lemma RepeatedNameAccepted(r: Reading)
    requires r.ean == "A" && r.injected > 0.0
    ensures var s, p := Summary([Coverage("A", 1, 1, r.gross, r.injected)], 1), P.Participants(["A", "A "]);
            IsSummary([r], s) && P.Accepts(s, p, 1) && !IsUsable([r], p, 1)
  {
    var s, p := Summary([Coverage("A", 1, 1, r.gross, r.injected)], 1), P.Participants(["A", "A "]);
    OneReadingSummary(r);
    NormalizedPair();
    SummaryAddsUp([r], s);
    assert Values(InjectedByEan([r])) == [r.injected];
    SumOfOne([r.injected], 0);
    assert s.AllEans() == ["A"];
    assert p[0] == p[1];
    VerdictIsSound([r], s, ["A", "A "], 1);
  }
}
