/** What row, broker and objects tell of a run: each is as the calls made have left it. */
module Records {
  import opened Options
  import opened Sequences
  import opened Protocol
  import opened Outcomes
  import opened Histories

  // ---- The row ----

  /** The worker that gave the row a status, and why. */
  ghost predicate IsRecordedBy(fromFile: bool, actions: seq<Action>, s: State, i: nat, reason: Reason) {
    i < |s.handlers| && Did(actions, i, Commit) && IsCause(fromFile, actions, i, s.handlers[i].readable, reason)
  }

  ghost predicate IsSavedBy(fromFile: bool, actions: seq<Action>, s: State, i: nat) {
    i < |s.handlers| && Did(actions, i, Commit) && SolvedWell(fromFile, actions, i)
  }

  /** A success has been solved, and a reason has its cause. */
  ghost predicate RowTells(fromFile: bool, actions: seq<Action>, s: State) {
    && (s.written == [Success] ==> exists i: nat :: IsSavedBy(fromFile, actions, s, i))
    && (s.row.Some? && s.row.value.reason.Some? ==>
          if s.row.value.reason == Some(FailedToQueue) then MarkFailed in actions
          else exists i: nat :: IsRecordedBy(fromFile, actions, s, i, s.row.value.reason.value))
  }

  lemma CauseGrows(fromFile: bool, front: seq<Action>, a: Action, i: nat, readable: bool, reason: Reason)
    requires IsCause(fromFile, front, i, readable, reason)
    ensures IsCause(fromFile, front + [a], i, readable, reason)
  {
    hide SawPending, SawNoRow, SawNoInput;
    SeenGrows(fromFile, front, a, i);
    assert forall m :: Did(front, i, m) ==> Did(front + [a], i, m);
  }

  lemma SolvedGrows(fromFile: bool, front: seq<Action>, a: Action, i: nat)
    requires SolvedWell(fromFile, front, i)
    ensures SolvedWell(fromFile, front + [a], i)
  {
    hide SawPending, SawNoRow, SawNoInput;
    SeenGrows(fromFile, front, a, i);
    assert forall m :: Did(front, i, m) ==> Did(front + [a], i, m);
  }

  /** A step leaves every handler's delivery count as it was. */
  lemma StepReadable(s: State, a: Action, i: nat)
    requires Step(s, a).Some? && i < |s.handlers|
    ensures i < |Step(s, a).value.handlers| && Step(s, a).value.handlers[i].readable == s.handlers[i].readable
  {
    hide Next, Effect, ApiStep, DeletionStep;
    if !a.Handle? {
      FreshArrives(s, a);
    }
  }

  /** Steps that record nothing leave what the row tells. */
  lemma RowStays(fromFile: bool, front: seq<Action>, s: State, a: Action)
    requires RowTells(fromFile, front, s) && Step(s, a).Some?
    requires var t := Step(s, a).value;
             t.written == s.written && (t.row.Some? && t.row.value.reason.Some? ==> t.row == s.row)
    ensures RowTells(fromFile, front + [a], Step(s, a).value)
  {
    hide IsCause, SolvedWell, Step;
    var t := Step(s, a).value;
    forall i: nat | IsSavedBy(fromFile, front, s, i) ensures IsSavedBy(fromFile, front + [a], t, i) {
      SolvedGrows(fromFile, front, a, i);
      StepReadable(s, a, i);
    }
    forall i: nat, reason | IsRecordedBy(fromFile, front, s, i, reason)
      ensures IsRecordedBy(fromFile, front + [a], t, i, reason)
    {
      CauseGrows(fromFile, front, a, i, s.handlers[i].readable, reason);
      StepReadable(s, a, i);
    }
  }

  lemma CommitRecords(fromFile: bool, front: seq<Action>, s: State, i: nat)
    requires Run(Init(fromFile), front) == Some(s) && AllTell(fromFile, front, s)
    requires i < |s.handlers| && HandlerStep(s, i, Commit).Some? && s.written == []
    ensures RowTells(fromFile, front + [Handle(i, Commit)], HandlerStep(s, i, Commit).value)
  {
    var all, t := front + [Handle(i, Commit)], HandlerStep(s, i, Commit).value;
    StillTells(fromFile, front, s, i, Commit);
    hide Run, IsCause, SolvedWell, AllTell, AfterClaim, AfterLoad, AfterSolve, AfterRaise;
    assert t.handlers[i].readable == s.handlers[i].readable;
    if s.handlers[i].point.ResultStored? {
      assert IsSavedBy(fromFile, all, t, i);
    } else {
      assert t.written[0] == Failed;
      NotQueued(fromFile, all, i, s.handlers[i].readable, s.handlers[i].point.write.reason);
      assert IsRecordedBy(fromFile, all, t, i, s.handlers[i].point.write.reason);
    }
  }

  lemma NotQueued(fromFile: bool, actions: seq<Action>, i: nat, readable: bool, reason: Reason)
    requires IsCause(fromFile, actions, i, readable, reason)
    ensures reason != FailedToQueue
  {
  }

  lemma OtherMoves(s: State, i: nat, m: Move)
    requires i < |s.handlers| && !m.Commit?
    ensures Effect(s, i, m).written == s.written && Effect(s, i, m).row == s.row
  {
  }

  lemma DeletionRow(s: State, a: Action)
    requires DeletionStep(s, a).Some?
    ensures var t := DeletionStep(s, a).value;
            t.written == s.written && t.row == if a.DeleteRow? then None else s.row
  {
  }

  lemma ApiRow(s: State, a: Action)
    requires ApiStep(s, a).Some?
    ensures var t := ApiStep(s, a).value;
            && t.written == s.written
            && (if a == Create(true) then t.row.Some? && t.row.value.reason == None
                else if a.MarkFailed? && s.row.Some? then t.row.Some? && t.row.value.reason == Some(FailedToQueue)
                else t.row == s.row)
  {
    match a {
      case Upload(_) =>
      case Create(_) =>
      case DropUpload(_) =>
      case Publish(_, _) =>
      case MarkFailed =>
      case DropInput(_) =>
      case ApiStops =>
      case _ =>
    }
  }

  lemma MarkTells(fromFile: bool, front: seq<Action>, s: State)
    requires RowTells(fromFile, front, s) && Step(s, MarkFailed).Some? && s.row.Some?
    ensures RowTells(fromFile, front + [MarkFailed], Step(s, MarkFailed).value)
  {
    hide IsCause, SolvedWell, Step;
    var t := Step(s, MarkFailed).value;
    assert Step(s, MarkFailed) == ApiStep(s, MarkFailed) by { MarkIsApi(s); }
    ApiRow(s, MarkFailed);
    forall i: nat | IsSavedBy(fromFile, front, s, i) ensures IsSavedBy(fromFile, front + [MarkFailed], t, i) {
      SolvedGrows(fromFile, front, MarkFailed, i);
      StepReadable(s, MarkFailed, i);
    }
  }

  lemma MarkIsApi(s: State)
    ensures Step(s, MarkFailed) == ApiStep(s, MarkFailed)
  {
  }

  lemma StepRowTells(fromFile: bool, front: seq<Action>, s: State, a: Action)
    requires Run(Init(fromFile), front) == Some(s) && Kept(s) && AllTell(fromFile, front, s)
    requires RowTells(fromFile, front, s) && Step(s, a).Some?
    ensures RowTells(fromFile, front + [a], Step(s, a).value)
  {
    hide Run, Next, Effect, ApiStep, DeletionStep, AllTell, RowTells;
    if a.Handle? {
      if a.move.Commit? {
        CommitIsFirst(s, a.handler);
        CommitRecords(fromFile, front, s, a.handler);
      } else {
        OtherMoves(s, a.handler, a.move);
        RowStays(fromFile, front, s, a);
      }
    } else if a.Deliver? {
      RowStays(fromFile, front, s, a);
    } else if IsDeletion(a) {
      DeletionRow(s, a);
      RowStays(fromFile, front, s, a);
    } else {
      ApiRow(s, a);
      if a.MarkFailed? && s.row.Some? {
        MarkTells(fromFile, front, s);
      } else {
        RowStays(fromFile, front, s, a);
      }
    }
  }

  lemma CommitIsFirst(s: State, i: nat)
    requires Kept(s) && i < |s.handlers| && HandlerStep(s, i, Commit).Some?
    ensures s.written == []
  {
    assert HandlerKept(s, i);
  }

  /**
   * In every run: a row that a worker made SUCCESS was solved by that worker, with its key, its input
   * and their size accepted; and a reason that a worker gave has its own cause in what that worker met.
   */
  lemma {:induction false} OutcomeHasCause(fromFile: bool, actions: seq<Action>)
    requires Run(Init(fromFile), actions).Some?
    ensures RowTells(fromFile, actions, Run(Init(fromFile), actions).value)
  {
    if actions != [] {
      hide Step, RowTells, AllTell, Kept;
      var front, last := actions[..|actions| - 1], actions[|actions| - 1];
      OutcomeHasCause(fromFile, front);
      RunKept(fromFile, front);
      RunTells(fromFile, front);
      StepRowTells(fromFile, front, Run(Init(fromFile), front).value, last);
      Unsnoc(actions);
    }
  }

  // ---- The broker, the commits and the events ----

  ghost predicate SomeDid(actions: seq<Action>, m: Move) {
    exists i: nat :: Did(actions, i, m)
  }

  function Deliveries(actions: seq<Action>): nat {
    if actions == [] then 0 else Deliveries(actions[..|actions| - 1]) + if actions[|actions| - 1].Deliver? then 1 else 0
  }

  /** How often handler `i` has solved. */
  function SolveMoves(actions: seq<Action>, i: nat): nat {
    if actions == [] then 0
    else
      var last := actions[|actions| - 1];
      SolveMoves(actions[..|actions| - 1], i) + if last.Handle? && last.handler == i && last.move.Solve? then 1 else 0
  }

  /** The message is with the broker, acked, delivered, committed and announced as the calls say. */
  ghost predicate BrokerTells(actions: seq<Action>, s: State) {
    && (s.published <==> Publish(true, true) in actions || Publish(true, false) in actions)
    && (s.acked <==> SomeDid(actions, Ack(true)))
    && (s.written != [] <==> SomeDid(actions, Commit))
    && (s.events != [] <==> SomeDid(actions, Emit(true)))
    && |s.handlers| == Deliveries(actions)
    && forall i :: 0 <= i < |s.handlers| ==> s.handlers[i].solves == SolveMoves(actions, i)
  }

  lemma DidSnoc(front: seq<Action>, a: Action, m: Move)
    ensures SomeDid(front + [a], m) <==> SomeDid(front, m) || (a.Handle? && a.move == m)
  {
    if SomeDid(front, m) {
      var i: nat :| Did(front, i, m);
      assert Did(front + [a], i, m);
    }
    if a.Handle? && a.move == m {
      assert Did(front + [a], a.handler, m);
    }
    if SomeDid(front + [a], m) && !(a.Handle? && a.move == m) {
      var i: nat :| Did(front + [a], i, m);
      assert Did(front, i, m);
    }
  }

  /** What a step changes of all this. */
  lemma MoveEffects(s: State, i: nat, m: Move)
    requires i < |s.handlers| && HandlerStep(s, i, m).Some?
    ensures var t := HandlerStep(s, i, m).value;
            && t.published == s.published && t.acked == (s.acked || m == Ack(true))
            && |t.written| == |s.written| + (if m == Commit then 1 else 0)
            && |t.events| == |s.events| + (if m == Emit(true) then 1 else 0)
            && |t.handlers| == |s.handlers|
            && forall j :: 0 <= j < |s.handlers| ==>
                 t.handlers[j].solves == s.handlers[j].solves + if j == i && m.Solve? then 1 else 0
  {
    hide Next;
  }

  lemma RequestEffects(s: State, a: Action)
    requires Step(s, a).Some? && !a.Handle? && BrokerKept(s)
    ensures var t := Step(s, a).value;
            && t.acked == s.acked && t.written == s.written && t.events == s.events
            && t.published == (s.published || a == Publish(true, true) || a == Publish(true, false))
  {
    hide ApiStep, DeletionStep;
    if IsDeletion(a) {
      DeletionEffects(s, a);
    } else if !a.Deliver? {
      ApiEffects(s, a);
    }
  }

  lemma DeletionEffects(s: State, a: Action)
    requires DeletionStep(s, a).Some?
    ensures var t := DeletionStep(s, a).value;
            t.acked == s.acked && t.written == s.written && t.events == s.events && t.published == s.published
  {
  }

  lemma ApiEffects(s: State, a: Action)
    requires ApiStep(s, a).Some? && BrokerKept(s)
    ensures var t := ApiStep(s, a).value;
            && t.acked == s.acked && t.written == s.written && t.events == s.events
            && t.published == (s.published || a == Publish(true, true) || a == Publish(true, false))
  {
  }

  lemma AllSnoc(front: seq<Action>, a: Action)
    ensures Deliveries(front + [a]) == Deliveries(front) + if a.Deliver? then 1 else 0
    ensures forall i :: SolveMoves(front + [a], i) ==
                        SolveMoves(front, i) + if a.Handle? && a.handler == i && a.move.Solve? then 1 else 0
    ensures forall b :: b in front + [a] <==> b in front || b == a
  {
    SnocFront(front, a);
  }

  lemma StepBroker(front: seq<Action>, s: State, a: Action)
    requires BrokerTells(front, s) && Step(s, a).Some? && BrokerKept(s)
    requires forall j :: |s.handlers| <= j ==> SolveMoves(front, j) == 0
    ensures BrokerTells(front + [a], Step(s, a).value)
    ensures forall j :: |Step(s, a).value.handlers| <= j ==> SolveMoves(front + [a], j) == 0
  {
    AllSnoc(front, a);
    DidSnoc(front, a, Ack(true));
    DidSnoc(front, a, Commit);
    DidSnoc(front, a, Emit(true));
    hide SomeDid, Next, Effect, BrokerKept, ApiStep, DeletionStep, SolveMoves, Deliveries;
    if a.Handle? {
      MoveEffects(s, a.handler, a.move);
      hide HandlerStep;
    } else {
      RequestEffects(s, a);
      FreshArrives(s, a);
      hide Step;
    }
  }

  lemma {:induction false} BrokerHistory(fromFile: bool, actions: seq<Action>)
    requires Run(Init(fromFile), actions).Some?
    ensures BrokerTells(actions, Run(Init(fromFile), actions).value)
    ensures forall j :: |Run(Init(fromFile), actions).value.handlers| <= j ==> SolveMoves(actions, j) == 0
  {
    if actions != [] {
      hide Step, BrokerTells, BrokerKept;
      var front, last := actions[..|actions| - 1], actions[|actions| - 1];
      BrokerHistory(fromFile, front);
      RunKept(fromFile, front);
      StepBroker(front, Run(Init(fromFile), front).value, last);
      Unsnoc(actions);
    }
  }

  lemma AckedStays(s: State, a: Action)
    requires Step(s, a).Some? && s.acked && BrokerKept(s)
    ensures Step(s, a).value.acked && !a.Deliver?
  {
    hide Next, ApiStep, DeletionStep;
    if a.Handle? {
      MoveEffects(s, a.handler, a.move);
      hide HandlerStep;
    } else {
      RequestEffects(s, a);
    }
  }

  /** No delivery follows an ack that has arrived. */
  lemma {:induction false} NoDeliveryAfterAck(fromFile: bool, actions: seq<Action>, k: nat, i: nat)
    requires Run(Init(fromFile), actions).Some? && k < |actions| && actions[k] == Handle(i, Ack(true))
    ensures Run(Init(fromFile), actions).value.acked
    ensures forall l :: k < l < |actions| ==> !actions[l].Deliver?
  {
    hide Step, BrokerKept;
    var front, last := actions[..|actions| - 1], actions[|actions| - 1];
    RunKept(fromFile, front);
    if k == |front| {
      AckArrives(Run(Init(fromFile), front).value, i);
    } else {
      NoDeliveryAfterAck(fromFile, front, k, i);
      AckedStays(Run(Init(fromFile), front).value, last);
      assert forall l :: k < l < |front| ==> front[l] == actions[l];
    }
  }

  lemma AckArrives(s: State, i: nat)
    requires Step(s, Handle(i, Ack(true))).Some?
    ensures Step(s, Handle(i, Ack(true))).value.acked
  {
    hide Next;
    MoveEffects(s, i, Ack(true));
    hide HandlerStep;
  }

  // ---- The row, the input and the result object ----

  /** Some call has deleted the uploaded input. */
  ghost predicate InputRemoved(actions: seq<Action>) {
    DropUpload(true) in actions || DropInput(true) in actions || DeleteInput(true) in actions
    || SomeDid(actions, DeleteFile(true))
  }

  /** The deletion read the row with its result's key. */
  ghost predicate KeyRead(fromFile: bool, actions: seq<Action>) {
    exists k :: 0 <= k < |actions| && IsAt(fromFile, actions, k, ReadRow)
                && HasKey(Run(Init(fromFile), actions[..k]).value)
  }

  predicate HasKey(s: State) {
    s.row.Some? && s.row.value.resultKey
  }

  /** The row is there from its creation to its deletion, the input from its upload to the first deletion of it. */
  ghost predicate ObjectsTell(fromFile: bool, actions: seq<Action>, s: State) {
    && (s.row.Some? <==> Create(true) in actions && DeleteRow !in actions)
    && (s.input <==> fromFile && Upload(true) in actions && !InputRemoved(actions))
    && (MayCreate(s) ==> Create(true) !in actions && DeleteRow !in actions && !InputRemoved(actions))
    && (s.api == Starting ==> Upload(true) !in actions)
  }

  /** The result object is there once stored, and gone when a deletion that knew its key has deleted it. */
  ghost predicate ResultTells(fromFile: bool, actions: seq<Action>, s: State) {
    && (s.resultStored ==> SomeDid(actions, StoreResult))
    && (SomeDid(actions, StoreResult) && DeleteResult(true) !in actions ==> s.resultStored)
    && (KeyRead(fromFile, actions) && DeleteResult(true) in actions ==> !s.resultStored)
    && (s.deletion == NotDeleting ==> !KeyRead(fromFile, actions))
    && (KeyRead(fromFile, actions) ==> IsFinal(s) && (HoldsKey(s.deletion) || s.deletion == DeletionOver))
    && (DeleteResult(true) in actions ==> s.deletion == DeletionOver)
  }

  predicate HoldsKey(d: Deletion) {
    (d.RowRead? || d.RowDeleted? || d.InputDeleted?) && d.resultKey
  }

  lemma MoveObjects(s: State, i: nat, m: Move)
    requires i < |s.handlers| && HandlerStep(s, i, m).Some?
    ensures var t := HandlerStep(s, i, m).value;
            && (t.row.Some? <==> s.row.Some?) && t.input == (s.input && m != DeleteFile(true))
            && t.resultStored == (s.resultStored || m == StoreResult)
            && t.api == s.api && t.deletion == s.deletion
            && (m == StoreResult ==> s.handlers[i].point == Claimed)
  {
    hide Next;
    NextLeads(s, i, m);
  }

  lemma ApiObjects(s: State, a: Action)
    requires ApiStep(s, a).Some?
    ensures var t := ApiStep(s, a).value;
            && (t.row.Some? <==> s.row.Some? || a == Create(true))
            && t.input == (if a.Upload? then a.stored && s.fromFile
                           else s.input && a != DropUpload(true) && a != DropInput(true))
            && t.resultStored == s.resultStored && t.deletion == s.deletion
            && (a.Upload? ==> s.api == Starting) && (a == Create(true) ==> s.api == Uploaded)
            && (a.DropUpload? || a.DropInput? ==> !MayCreate(s)) && (MayCreate(t) ==> MayCreate(s))
            && (t.api == Starting ==> false) && (a == Create(true) || a.DropInput? ==> !MayCreate(t))
  {
    match a {
      case Upload(_) =>
      case Create(_) =>
      case DropUpload(_) =>
      case Publish(_, _) =>
      case MarkFailed =>
      case DropInput(_) =>
      case ApiStops =>
      case _ =>
    }
  }

  lemma DeletionObjects(s: State, a: Action)
    requires DeletionStep(s, a).Some?
    ensures var t := DeletionStep(s, a).value;
            && t.row == (if a.DeleteRow? then None else s.row) && t.api == s.api
            && t.input == (s.input && a != DeleteInput(true))
            && (a == ReadRow ==> s.deletion == NotDeleting && t.deletion == RowRead(HasKey(s)))
            && (a != ReadRow ==> s.deletion != NotDeleting && s.deletion != DeletionOver)
            && (HoldsKey(s.deletion) ==> HoldsKey(t.deletion) || t.deletion == DeletionOver)
            && t.deletion != NotDeleting
            && t.resultStored == (s.resultStored && !(a == DeleteResult(true) && HoldsKey(s.deletion)))
            && (a.DeleteResult? ==> t.deletion == DeletionOver)
  {
  }

  /** A deletion is of a row that was created. */
  lemma DeletedWasThere(s: State, a: Action)
    requires DeletionStep(s, a).Some? && BrokerKept(s)
    ensures a != ReadRow ==> !MayCreate(s)
    ensures a == ReadRow ==> s.row.Some?
  {
  }

  lemma StepObjects(fromFile: bool, front: seq<Action>, s: State, a: Action)
    requires Kept(s) && s.fromFile == fromFile && ObjectsTell(fromFile, front, s) && Step(s, a).Some?
    ensures ObjectsTell(fromFile, front + [a], Step(s, a).value)
  {
    AllSnoc(front, a);
    DidSnoc(front, a, DeleteFile(true));
    hide SomeDid, Next, Effect, ApiStep, DeletionStep, SolveMoves, Deliveries, RowKept, InputKept, PointKept, Bounded;
    if a.Handle? {
      MoveObjects(s, a.handler, a.move);
      hide HandlerStep;
    } else if IsDeletion(a) {
      DeletionObjects(s, a);
      DeletedWasThere(s, a);
      RowNeedsCreation(s);
    } else if !a.Deliver? {
      ApiObjects(s, a);
    }
  }

  lemma RowNeedsCreation(s: State)
    requires Kept(s)
    ensures s.row.Some? ==> !MayCreate(s)
  {
  }

  lemma KeySnoc(fromFile: bool, front: seq<Action>, a: Action)
    requires Run(Init(fromFile), front).Some?
    ensures KeyRead(fromFile, front + [a]) <==>
            KeyRead(fromFile, front) || (a == ReadRow && HasKey(Run(Init(fromFile), front).value))
  {
    hide Run, HasKey;
    var all := front + [a];
    assert forall k :: 0 <= k <= |front| ==> all[..k] == front[..k];
    assert front[..|front|] == front;
    if KeyRead(fromFile, front) {
      var k :| 0 <= k < |front| && IsAt(fromFile, front, k, ReadRow) && HasKey(Run(Init(fromFile), front[..k]).value);
      assert IsAt(fromFile, all, k, ReadRow);
    }
    if a == ReadRow && HasKey(Run(Init(fromFile), front).value) {
      assert IsAt(fromFile, all, |front|, ReadRow);
    }
    if KeyRead(fromFile, all) && !(a == ReadRow && HasKey(Run(Init(fromFile), front).value)) {
      var k :| 0 <= k < |all| && IsAt(fromFile, all, k, ReadRow) && HasKey(Run(Init(fromFile), all[..k]).value);
      if k < |front| {
        assert IsAt(fromFile, front, k, ReadRow);
      }
    }
  }

  lemma KeyIsFinal(s: State)
    requires Kept(s) && HasKey(s)
    ensures IsFinal(s)
  {
  }

  /** Only a handler that holds the row stores, and none does once it is final. */
  lemma StoresPending(s: State, i: nat)
    requires Kept(s) && i < |s.handlers| && s.handlers[i].point == Claimed
    ensures !IsFinal(s)
  {
    assert HandlerKept(s, i);
  }

  lemma StepResult(fromFile: bool, front: seq<Action>, s: State, a: Action)
    requires Run(Init(fromFile), front) == Some(s) && Kept(s) && ResultTells(fromFile, front, s) && Step(s, a).Some?
    ensures ResultTells(fromFile, front + [a], Step(s, a).value)
  {
    AllSnoc(front, a);
    DidSnoc(front, a, StoreResult);
    KeySnoc(fromFile, front, a);
    ReachedFinal(fromFile, front, s, a);
    hide SomeDid, Run, Next, Effect, ApiStep, DeletionStep, SolveMoves, Deliveries, KeyRead, IsFinal, IsPending, Kept;
    if a.Handle? {
      MoveObjects(s, a.handler, a.move);
      if a.move == StoreResult {
        StoresPending(s, a.handler);
      }
      hide HandlerStep;
    } else if IsDeletion(a) {
      DeletionObjects(s, a);
    } else if !a.Deliver? {
      ApiObjects(s, a);
    }
  }

  lemma ReachedFinal(fromFile: bool, front: seq<Action>, s: State, a: Action)
    requires Run(Init(fromFile), front) == Some(s) && Kept(s) && Step(s, a).Some?
    ensures IsFinal(s) || HasKey(s) ==> IsFinal(Step(s, a).value)
  {
    if HasKey(s) {
      KeyIsFinal(s);
    }
    hide Run, Step, Kept, IsFinal, HasKey;
    if IsFinal(s) {
      assert Reachable(s);
      FinalStays(s, a);
    }
  }

  lemma {:induction false} ObjectsHistory(fromFile: bool, actions: seq<Action>)
    requires Run(Init(fromFile), actions).Some?
    ensures ObjectsTell(fromFile, actions, Run(Init(fromFile), actions).value)
    ensures ResultTells(fromFile, actions, Run(Init(fromFile), actions).value)
  {
    if actions != [] {
      hide Step, ObjectsTell, ResultTells, Kept, AllTell;
      var front, last := actions[..|actions| - 1], actions[|actions| - 1];
      ObjectsHistory(fromFile, front);
      RunKept(fromFile, front);
      RunSource(fromFile, front);
      StepObjects(fromFile, front, Run(Init(fromFile), front).value, last);
      StepResult(fromFile, front, Run(Init(fromFile), front).value, last);
      Unsnoc(actions);
    }
  }

  lemma RunSource(fromFile: bool, actions: seq<Action>)
    requires Run(Init(fromFile), actions).Some?
    ensures Run(Init(fromFile), actions).value.fromFile == fromFile
  {
    RunTells(fromFile, actions);
  }
}
