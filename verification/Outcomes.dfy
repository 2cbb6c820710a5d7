/** What every run of the delivery protocol keeps. */
module Outcomes {
  import opened Options
  import opened Protocol

  // ---- The invariant ----

  /** The row may still be created. */
  predicate MayCreate(s: State) {
    s.api == Starting || s.api == Uploaded
  }

  /** The row is there no more, or no longer PENDING. */
  predicate IsFinal(s: State) {
    !MayCreate(s) && !IsPending(s)
  }

  /** A commit by this handler has not been announced yet. */
  function Owed(p: Point): Option<Status> {
    match p
    case SuccessCommitted => Some(Success)
    case SuccessLogged => Some(Success)
    case FailureCommitted(_) => Some(Failed)
    case FailureLogged(_) => Some(Failed)
    case _ => None
  }

  predicate OwesEvent(p: Point) {
    Owed(p).Some?
  }

  function WriteOf(p: Point): Option<Write> {
    match p
    case Failing(w) => Some(w)
    case FailureClaimed(w) => Some(w)
    case FailureCommitted(w) => Some(w)
    case FailureLogged(w) => Some(w)
    case _ => None
  }

  /** The handler is past the point where its delivery is settled by an ack. */
  predicate Settles(p: Point) {
    p.Acking? || p.Cleaning? || p == Ended(Acked)
  }

  /** No worker commit has been lost, doubled or announced twice, and each status has the results it promises. */
  predicate RowKept(s: State) {
    && |s.written| <= 1 && s.events <= s.written
    && (MayCreate(s) ==> s.row.None?)
    && (IsPending(s) ==>
          s.written == [] && s.row.value.trees == 0 && !s.row.value.resultKey && s.row.value.reason == None)
    && (s.row.Some? && s.row.value.status == Success ==>
          && s.written == [Success] && s.row.value.trees == 1 && s.row.value.resultKey
          && s.resultStored && s.row.value.reason == None)
    && (s.row.Some? && s.row.value.status == Failed ==>
          && s.row.value.reason.Some? && s.row.value.reason.value != ObjectMissing
          && (s.written == [Success] ==>
                && s.row.value.trees == 1 && s.row.value.resultKey
                && s.resultStored && s.row.value.reason.value == FailedToQueue
                && (s.api == Marked || s.api == Returned))
          && (s.written != [Success] ==> s.row.value.trees == 0 && !s.row.value.resultKey))
    && (s.written != [] ==> IsFinal(s))
  }

  /** The input of a PENDING row stays where it is. */
  predicate InputKept(s: State) {
    && (s.fromFile && IsPending(s) ==> s.input)
    && (s.fromFile && s.api == Uploaded ==> s.input)
    && (s.api == CreateFailed ==> s.row.None?)
    && (s.api == Marked ==> IsFinal(s))
    && (s.api == Created || s.api == Unpublished ==> !MayCreate(s))
  }

  predicate BrokerKept(s: State) {
    && |s.handlers| <= MAX_DELIVER
    && (s.handlers != [] ==> s.published)
    && (s.published ==> s.api == Unpublished || s.api == Marked || s.api == Returned)
    && (s.published ==> !MayCreate(s))
    && (s.acked ==> IsFinal(s))
    && (s.deletion != NotDeleting ==> !MayCreate(s))
    && (s.deletion.RowDeleted? || s.deletion.InputDeleted? ==> s.row.None?)
    && (s.lock.Some? ==> s.lock.value < |s.handlers| && IsPending(s))
  }

  predicate StateKept(s: State) {
    RowKept(s) && InputKept(s) && BrokerKept(s)
  }

  /** Delivery number `i + 1` is one no worker runs anything on. */
  predicate PastLimit(h: Handler, i: nat) {
    h.readable && i + 1 >= MAX_DELIVERIES
  }

  /** Reading, solving, storing and asking for another delivery. */
  predicate Works(p: Point) {
    p.ReadingKey? || p.Loading? || p.Sizing? || p.Solving? || p.Crashed? || p.Claiming? || p.Claimed? || p.ResultStored?
    || p.SuccessCommitted? || p.SuccessLogged? || p.Naking? || p == Ended(Naked)
  }

  predicate BeforeSolve(p: Point) {
    p.Arrived? || p.Counting? || p.ReadingKey? || p.Loading? || p.Sizing? || p.Solving?
  }

  /** At most one solve, none before its time, and no work past the limit. */
  predicate Bounded(h: Handler, i: nat) {
    && h.solves <= (if BeforeSolve(h.point) || PastLimit(h, i) then 0 else 1)
    && (PastLimit(h, i) ==> !Works(h.point))
  }

  predicate PointKept(s: State, i: nat, p: Point) {
    && (HoldsLock(p) <==> s.lock == Some(i))
    && (p.ResultStored? ==> s.resultStored)
    && (Settles(p) || OwesEvent(p) ==> IsFinal(s))
    && (OwesEvent(p) ==> s.written == [Owed(p).value] && s.events == [])
    && (WriteOf(p).Some? && WriteOf(p).value.reason == ObjectMissing ==> IsFinal(s))
  }

  predicate HandlerKept(s: State, i: nat)
    requires i < |s.handlers|
  {
    PointKept(s, i, s.handlers[i].point) && Bounded(s.handlers[i], i)
  }

  predicate Kept(s: State) {
    && StateKept(s)
    && (forall i :: 0 <= i < |s.handlers| ==> HandlerKept(s, i))
    && (forall i, j :: 0 <= i < j < |s.handlers| ==> !OwesEvent(s.handlers[i].point) || !OwesEvent(s.handlers[j].point))
  }

  // ---- Every step keeps it: the handler that takes it ----

  lemma BoundedKept(s: State, i: nat, m: Move)
    requires i < |s.handlers| && Bounded(s.handlers[i], i) && Next(s, i, m).Some?
    ensures Bounded(Moved(s.handlers[i], m, Next(s, i, m).value), i)
  {
    hide IsPending;
  }

  lemma CommitKept(s: State, i: nat)
    requires i < |s.handlers| && StateKept(s) && PointKept(s, i, s.handlers[i].point) && Next(s, i, Commit).Some?
    ensures StateKept(Effect(s, i, Commit)) && PointKept(Effect(s, i, Commit), i, Next(s, i, Commit).value)
  {
    assert s.written == [] && s.events == [];
    assert Effect(s, i, Commit).written == [if s.handlers[i].point.ResultStored? then Success else Failed];
  }

  lemma EffectKept(s: State, i: nat, m: Move)
    requires i < |s.handlers| && StateKept(s) && PointKept(s, i, s.handlers[i].point) && Next(s, i, m).Some?
    requires !m.Commit?
    ensures StateKept(Effect(s, i, m))
  {
  }

  lemma PlainKept(s: State, i: nat, m: Move)
    requires i < |s.handlers| && InputKept(s) && BrokerKept(s) && PointKept(s, i, s.handlers[i].point)
        && Next(s, i, m).Some?
    requires Effect(s, i, m) == s && !m.Raise? && !m.Stop?
    ensures PointKept(s, i, Next(s, i, m).value)
  {
    hide Committed, AfterRaise;
  }

  lemma EffectiveKept(s: State, i: nat, m: Move)
    requires i < |s.handlers| && BrokerKept(s) && PointKept(s, i, s.handlers[i].point) && Next(s, i, m).Some?
    requires m.Claim? || m.StoreResult? || m.Emit? || m.Ack? || m.DeleteFile?
    ensures PointKept(Effect(s, i, m), i, Next(s, i, m).value)
  {
  }

  lemma InterruptedKept(s: State, i: nat, m: Move)
    requires i < |s.handlers| && PointKept(s, i, s.handlers[i].point) && Next(s, i, m).Some?
    requires m.Raise? || m.Stop?
    ensures PointKept(Effect(s, i, m), i, Next(s, i, m).value)
  {
    hide AfterClaim, AfterLoad, AfterSolve, Committed;
  }

  lemma OwnKept(s: State, i: nat, m: Move)
    requires i < |s.handlers| && StateKept(s) && HandlerKept(s, i) && HandlerStep(s, i, m).Some?
    ensures StateKept(HandlerStep(s, i, m).value) && HandlerKept(HandlerStep(s, i, m).value, i)
  {
    hide RowKept, PointKept, InputKept, Bounded, Next;
    BoundedKept(s, i, m);
    if m.Commit? {
      CommitKept(s, i);
    } else {
      EffectKept(s, i, m);
      if m.Raise? || m.Stop? {
        InterruptedKept(s, i, m);
      } else if m.Claim? || m.StoreResult? || m.Emit? || m.Ack? || m.DeleteFile? {
        EffectiveKept(s, i, m);
      } else {
        PlainKept(s, i, m);
      }
    }
    HandlersDoNotMatter(Effect(s, i, m), s.handlers[i := Moved(s.handlers[i], m, Next(s, i, m).value)], i,
        Next(s, i, m).value);
  }

  /** What is kept of the shared state and of a point does not depend on the other handlers. */
  lemma HandlersDoNotMatter(s: State, handlers: seq<Handler>, i: nat, p: Point)
    requires |handlers| == |s.handlers|
    ensures StateKept(s) ==> StateKept(s.(handlers := handlers))
    ensures PointKept(s.(handlers := handlers), i, p) == PointKept(s, i, p)
  {
  }

  // ---- Every step keeps it: the other handlers ----

  lemma EffectFinal(s: State, i: nat, m: Move)
    requires i < |s.handlers| && Next(s, i, m).Some? && IsFinal(s)
    ensures IsFinal(Effect(s, i, m))
  {
  }

  lemma OthersUndisturbed(s: State, i: nat, m: Move, j: nat, q: Point)
    requires i < |s.handlers| && i != j && StateKept(s) && PointKept(s, i, s.handlers[i].point) && Next(s, i, m).Some?
    requires PointKept(s, j, q) && !(OwesEvent(q) && OwesEvent(s.handlers[i].point))
    ensures PointKept(Effect(s, i, m), j, q)
  {
    if IsFinal(s) {
      EffectFinal(s, i, m);
    }
  }

  /** A handler owes an event only once it has committed, and then no other does. */
  lemma OwesOnce(s: State, i: nat, m: Move, j: nat)
    requires i < |s.handlers| && j < |s.handlers| && i != j && StateKept(s) && Next(s, i, m).Some?
    requires HandlerKept(s, i) && HandlerKept(s, j)
    requires !OwesEvent(s.handlers[i].point) || !OwesEvent(s.handlers[j].point)
    ensures !OwesEvent(Next(s, i, m).value) || !OwesEvent(s.handlers[j].point)
  {
    if m.Commit? {
      assert s.written == [];
    }
  }

  lemma HandleKept(s: State, i: nat, m: Move)
    requires Kept(s) && i < |s.handlers| && HandlerStep(s, i, m).Some?
    ensures Kept(HandlerStep(s, i, m).value)
  {
    hide StateKept, PointKept, Bounded, OwesEvent, Next, Effect;
    var t := HandlerStep(s, i, m).value;
    assert HandlerKept(s, i);
    OwnKept(s, i, m);
    forall j | 0 <= j < |t.handlers| ensures HandlerKept(t, j) {
      if j != i {
        assert HandlerKept(s, j);
        assert !(OwesEvent(s.handlers[j].point) && OwesEvent(s.handlers[i].point));
        OtherKept(s, i, m, j);
      }
    }
    forall j | 0 <= j < |t.handlers| && j != i
      ensures !OwesEvent(t.handlers[i].point) || !OwesEvent(t.handlers[j].point)
    {
      assert HandlerKept(s, j);
      assert !(OwesEvent(s.handlers[j].point) && OwesEvent(s.handlers[i].point));
      OwesOnce(s, i, m, j);
    }
  }

  lemma OtherKept(s: State, i: nat, m: Move, j: nat)
    requires i < |s.handlers| && j < |s.handlers| && i != j && StateKept(s) && HandlerStep(s, i, m).Some?
    requires HandlerKept(s, i) && HandlerKept(s, j)
    requires !(OwesEvent(s.handlers[j].point) && OwesEvent(s.handlers[i].point))
    ensures HandlerKept(HandlerStep(s, i, m).value, j)
  {
    hide Bounded, Next, Effect, OwesEvent, StateKept, PointKept;
    OthersUndisturbed(s, i, m, j, s.handlers[j].point);
    HandlersDoNotMatter(Effect(s, i, m), HandlerStep(s, i, m).value.handlers, j, s.handlers[j].point);
    assert HandlerStep(s, i, m).value.handlers[j] == s.handlers[j];
  }

  // ---- Every step keeps it: the requests and the broker ----

  lemma ApiKeepsRow(s: State, a: Action)
    requires StateKept(s) && ApiStep(s, a).Some?
    ensures RowKept(ApiStep(s, a).value)
  {
    hide BrokerKept;
  }

  lemma ApiKeepsInput(s: State, a: Action)
    requires StateKept(s) && ApiStep(s, a).Some?
    ensures InputKept(ApiStep(s, a).value)
  {
  }

  lemma ApiKeepsBroker(s: State, a: Action)
    requires StateKept(s) && ApiStep(s, a).Some?
    ensures BrokerKept(ApiStep(s, a).value)
  {
  }

  lemma ApiKeepsState(s: State, a: Action)
    requires StateKept(s) && ApiStep(s, a).Some?
    ensures StateKept(ApiStep(s, a).value)
  {
    hide ApiStep, RowKept, InputKept, BrokerKept;
    ApiKeepsRow(s, a);
    ApiKeepsInput(s, a);
    ApiKeepsBroker(s, a);
  }

  lemma DeletionKeepsState(s: State, a: Action)
    requires StateKept(s) && DeletionStep(s, a).Some?
    ensures StateKept(DeletionStep(s, a).value)
  {
  }

  lemma DeliveryKeepsState(s: State, a: Action)
    requires StateKept(s) && Step(s, a).Some? && a.Deliver?
    ensures StateKept(Step(s, a).value)
  {
  }

  lemma RequestKeepsState(s: State, a: Action)
    requires StateKept(s) && Step(s, a).Some? && !a.Handle?
    ensures StateKept(Step(s, a).value)
  {
    hide StateKept, ApiStep, DeletionStep;
    if a.Deliver? {
      DeliveryKeepsState(s, a);
    } else if IsDeletion(a) {
      DeletionKeepsState(s, a);
    } else {
      ApiKeepsState(s, a);
    }
  }

  lemma ApiKeepsPoint(s: State, a: Action, j: nat, q: Point)
    requires BrokerKept(s) && InputKept(s) && ApiStep(s, a).Some? && PointKept(s, j, q)
    ensures PointKept(ApiStep(s, a).value, j, q)
  {
  }

  lemma DeletionKeepsPoint(s: State, a: Action, j: nat, q: Point)
    requires BrokerKept(s) && InputKept(s) && DeletionStep(s, a).Some? && PointKept(s, j, q)
    ensures PointKept(DeletionStep(s, a).value, j, q)
  {
  }

  lemma RequestKeepsPoint(s: State, a: Action, j: nat, q: Point)
    requires BrokerKept(s) && InputKept(s) && Step(s, a).Some? && !a.Handle? && PointKept(s, j, q)
    ensures PointKept(Step(s, a).value, j, q)
  {
    hide ApiStep, DeletionStep;
    if a.Deliver? {
    } else if IsDeletion(a) {
      DeletionKeepsPoint(s, a, j, q);
    } else {
      ApiKeepsPoint(s, a, j, q);
    }
  }

  lemma StepKept(s: State, a: Action)
    requires Kept(s) && Step(s, a).Some?
    ensures Kept(Step(s, a).value)
  {
    if a.Handle? {
      HandleKept(s, a.handler, a.move);
    } else {
      RequestKept(s, a);
    }
  }

  lemma RequestHandlers(s: State, a: Action, j: nat)
    requires Step(s, a).Some? && !a.Handle? && j < |Step(s, a).value.handlers|
    ensures if j < |s.handlers| then Step(s, a).value.handlers[j] == s.handlers[j]
            else j == |s.handlers| && a.Deliver? && Step(s, a).value.handlers[j] == Handler(Arrived, a.readable, 0)
  {
  }

  lemma RequestKept(s: State, a: Action)
    requires Kept(s) && Step(s, a).Some? && !a.Handle?
    ensures Kept(Step(s, a).value)
  {
    hide Step, RowKept, InputKept;
    var t := Step(s, a).value;
    RequestKeepsState(s, a);
    forall j | 0 <= j < |t.handlers|
      ensures HandlerKept(t, j)
    {
      RequestHandlers(s, a, j);
      if j < |s.handlers| {
        assert HandlerKept(s, j);
        RequestKeepsPoint(s, a, j, s.handlers[j].point);
      } else {
        FreshKept(s, a);
      }
    }
    forall i, j | 0 <= i < j < |t.handlers| ensures !OwesEvent(t.handlers[i].point) || !OwesEvent(t.handlers[j].point) {
      RequestHandlers(s, a, i);
      RequestHandlers(s, a, j);
    }
  }

  lemma FreshKept(s: State, a: Action)
    requires StateKept(s) && Step(s, a).Some? && a.Deliver?
    ensures |Step(s, a).value.handlers| == |s.handlers| + 1 && HandlerKept(Step(s, a).value, |s.handlers|)
  {
  }

  lemma {:induction false} RunKept(fromFile: bool, actions: seq<Action>)
    requires Run(Init(fromFile), actions).Some?
    ensures Kept(Run(Init(fromFile), actions).value)
  {
    if actions != [] {
      var front := actions[..|actions| - 1];
      RunKept(fromFile, front);
      StepKept(Run(Init(fromFile), front).value, actions[|actions| - 1]);
    }
  }

  // ---- What every run keeps ----

  ghost predicate Reachable(s: State) {
    exists fromFile, actions :: Run(Init(fromFile), actions) == Some(s)
  }

  lemma ReachableKept(s: State)
    requires Reachable(s)
    ensures Kept(s)
  {
    var fromFile, actions :| Run(Init(fromFile), actions) == Some(s);
    RunKept(fromFile, actions);
  }

  function StatusOf(s: State): Option<Status> {
    if s.row.Some? then Some(s.row.value.status) else None
  }

  /** The statuses the workers gave the row along a run, in order. */
  function WorkerChanges(s: State, actions: seq<Action>): seq<Status>
    requires Run(s, actions).Some?
  {
    if actions == [] then []
    else
      var front, last := actions[..|actions| - 1], actions[|actions| - 1];
      var before, after := Run(s, front).value, Run(s, actions).value;
      WorkerChanges(s, front) +
      (if last.Handle? && StatusOf(after).Some? && StatusOf(after) != StatusOf(before)
       then [StatusOf(after).value] else [])
  }

  lemma MoveWrites(s: State, i: nat, m: Move)
    requires Kept(s) && i < |s.handlers| && HandlerStep(s, i, m).Some?
    ensures var t := HandlerStep(s, i, m).value;
            t.written == s.written + if StatusOf(t).Some? && StatusOf(t) != StatusOf(s) then [StatusOf(t).value] else []
  {
    assert HandlerKept(s, i);
    if !m.Commit? {
      assert s.written + [] == s.written;
    }
  }

  lemma ApiWrites(s: State, a: Action)
    requires ApiStep(s, a).Some?
    ensures ApiStep(s, a).value.written == s.written
  {
  }

  lemma DeletionWrites(s: State, a: Action)
    requires DeletionStep(s, a).Some?
    ensures DeletionStep(s, a).value.written == s.written
  {
  }

  lemma StepWrites(s: State, a: Action)
    requires Kept(s) && Step(s, a).Some?
    ensures var t := Step(s, a).value;
            t.written == s.written + if a.Handle? && StatusOf(t).Some?
                && StatusOf(t) != StatusOf(s) then [StatusOf(t).value] else []
  {
    hide Kept, Next, Effect, ApiStep, DeletionStep;
    assert s.written + [] == s.written;
    if a.Handle? {
      MoveWrites(s, a.handler, a.move);
    } else if IsDeletion(a) {
      DeletionWrites(s, a);
    } else if !a.Deliver? {
      ApiWrites(s, a);
    }
  }

  lemma {:induction false} WrittenAreChanges(fromFile: bool, actions: seq<Action>)
    requires Run(Init(fromFile), actions).Some?
    ensures Run(Init(fromFile), actions).value.written == WorkerChanges(Init(fromFile), actions)
  {
    hide Step, Kept;
    if actions != [] {
      var front, last := actions[..|actions| - 1], actions[|actions| - 1];
      WrittenAreChanges(fromFile, front);
      RunKept(fromFile, front);
      StepWrites(Run(Init(fromFile), front).value, last);
    }
  }

  /**
   * Whatever overlaps, is rolled back or dies, the workers change the row's status at most once;
   * they announce at most one event, that status, and only after it was committed.
   */
  lemma ChangedOnce(fromFile: bool, actions: seq<Action>)
    requires Run(Init(fromFile), actions).Some?
    ensures |WorkerChanges(Init(fromFile), actions)| <= 1
    ensures Run(Init(fromFile), actions).value.events <= WorkerChanges(Init(fromFile), actions)
    ensures WorkerChanges(Init(fromFile), actions) != [] ==> !IsPending(Run(Init(fromFile), actions).value)
  {
    RunKept(fromFile, actions);
    WrittenAreChanges(fromFile, actions);
  }

  /**
   * A SUCCESS row has exactly one result tree and its result object is stored; a PENDING row has
   * no tree. A FAILED row has one exactly when a worker had committed a success, which only
   * `_mark_failed_to_queue` overwrites.
   */
  lemma StatusPromises(s: State)
    requires Reachable(s) && s.row.Some?
    ensures var row := s.row.value;
            match row.status
            case Success => row.trees == 1 && row.resultKey && s.resultStored
            case Pending => row.trees == 0 && !row.resultKey
            case Failed => row.trees == (if s.written == [Success] then 1 else 0)
                           && (row.trees == 1 ==> row.resultKey && s.resultStored && row.reason == Some(FailedToQueue))
  {
    ReachableKept(s);
  }

  predicate IsFailedWithTree(s: State) {
    s.row.Some? && s.row.value.status == Failed && s.row.value.trees > 0
  }

  /** `_mark_failed_to_queue` leaves a FAILED row with a tree exactly when the row it overwrites is SUCCESS. */
  lemma MarkOverwrites(s: State)
    requires Reachable(s) && s.row.Some? && Step(s, MarkFailed).Some?
    ensures IsFailedWithTree(Step(s, MarkFailed).value) <==> s.row.value.status == Success
  {
    ReachableKept(s);
  }

  /** No other step leaves such a row that was not there before. */
  lemma OnlyMarkOverwrites(s: State, a: Action)
    requires Reachable(s) && Step(s, a).Some? && !a.MarkFailed? && IsFailedWithTree(Step(s, a).value)
    ensures IsFailedWithTree(s)
  {
    ReachableKept(s);
    if IsFinal(s) {
      FinalStays(s, a);
    } else if a.Handle? {
      assert HandlerKept(s, a.handler);
      hide Kept, HandlerKept;
      PendingCommit(s, a.handler, a.move);
    }
  }

  lemma PendingCommit(s: State, i: nat, m: Move)
    requires i < |s.handlers| && Next(s, i, m).Some? && IsPending(s) && s.row.value.trees == 0
    ensures !IsFailedWithTree(Effect(s, i, m))
  {
  }

  /** A worker step never undoes a final status, and only `_mark_failed_to_queue` replaces one. */
  lemma FinalStays(s: State, a: Action)
    requires Reachable(s) && Step(s, a).Some? && IsFinal(s)
    ensures IsFinal(Step(s, a).value)
    ensures !a.MarkFailed? && !a.DeleteRow? ==> Step(s, a).value.row == s.row
  {
    ReachableKept(s);
    if a.Handle? {
      assert HandlerKept(s, a.handler);
      hide Kept, StateKept;
      EffectFinal(s, a.handler, a.move);
      FinalRowStays(s, a.handler, a.move);
    }
  }

  lemma FinalRowStays(s: State, i: nat, m: Move)
    requires i < |s.handlers| && HandlerKept(s, i) && BrokerKept(s) && IsFinal(s) && Next(s, i, m).Some?
    ensures Effect(s, i, m).row == s.row
  {
  }

  /** A message is acked only when its row is gone or no longer PENDING, and then it stays so. */
  lemma AckedIsFinal(s: State)
    requires Reachable(s)
    ensures s.acked ==> IsFinal(s)
    ensures forall i :: 0 <= i < |s.handlers| && s.handlers[i].point == Ended(Acked) ==> IsFinal(s)
  {
    ReachableKept(s);
    forall i | 0 <= i < |s.handlers| && s.handlers[i].point == Ended(Acked) ensures IsFinal(s) {
      assert HandlerKept(s, i);
    }
  }

  /** The input of a PENDING file-sourced row is there, and no row ever says it was missing. */
  lemma InputNeverMissing(s: State)
    requires Reachable(s)
    ensures s.fromFile && IsPending(s) ==> s.input
    ensures s.row.Some? ==> s.row.value.reason != Some(ObjectMissing)
  {
    ReachableKept(s);
  }

  // ---- A success that is overwritten ----

  lemma RunSnoc(s: State, actions: seq<Action>, a: Action)
    requires Run(s, actions).Some?
    ensures Run(s, actions + [a]) == Step(Run(s, actions).value, a)
  {
    assert (actions + [a])[..|actions|] == actions;
  }

  /** The state with one more handler, at this point. */
  function WithHandler(s: State, point: Point, solves: nat): State {
    s.(handlers := s.handlers + [Handler(point, true, solves)])
  }

  lemma MoveLast(s: State, point: Point, solves: nat, move: Move, next: Point)
    requires Next(WithHandler(s, point, solves), |s.handlers|, move) == Some(next)
    ensures var t := WithHandler(s, point, solves);
            Step(t, Handle(|s.handlers|, move)) ==
            Some(WithHandler(Effect(t, |s.handlers|, move).(handlers := s.handlers), next,
                             if move.Solve? then solves + 1 else solves))
  {
    var h := Handler(point, true, solves);
    assert (s.handlers + [h])[|s.handlers| := Moved(h, move, next)] == s.handlers + [Moved(h, move, next)];
  }

  /** A run that goes on with a move of the last handler. */
  lemma GoesOn(s: State, actions: seq<Action>, t: State, point: Point, solves: nat, move: Move, next: Point,
        after: State)
    returns (more: seq<Action>)
    requires Run(s, actions) == Some(WithHandler(t, point, solves))
    requires Next(WithHandler(t, point, solves), |t.handlers|, move) == Some(next)
    requires after == Effect(WithHandler(t, point, solves), |t.handlers|, move).(handlers := t.handlers)
    ensures Run(s, more) == Some(WithHandler(after, next, if move.Solve? then solves + 1 else solves))
  {
    hide Run, Next, Effect, Step;
    MoveLast(t, point, solves, move, next);
    RunSnoc(s, actions, Handle(|t.handlers|, move));
    more := actions + [Handle(|t.handlers|, move)];
  }

  ghost predicate CanSucceed(s: State) {
    s.published && !s.acked && |s.handlers| + 1 < MAX_DELIVERIES && IsPending(s) && s.lock.None?
        && (s.fromFile ==> s.input)
  }

  /** A delivery that meets no failure, up to the reading of its key. */
  lemma ReadRun(s: State) returns (a: seq<Action>)
    requires CanSucceed(s)
    ensures Run(s, a) == Some(WithHandler(s, Loading, 0))
  {
    a := [Deliver(true)];
    assert a[..0] == [];
    hide Run, Step, HandlerStep;
    a := GoesOn(s, a, s, Arrived, 0, Snapshot, Counting, s);
    a := GoesOn(s, a, s, Counting, 0, Count, ReadingKey, s);
    a := GoesOn(s, a, s, ReadingKey, 0, ReadKey(true), Loading, s);
  }

  /** ... up to its solve ... */
  lemma SolvedRun(s: State) returns (a: seq<Action>)
    requires CanSucceed(s)
    ensures Run(s, a) == Some(WithHandler(s, Claiming, 1))
  {
    hide Run, Step, HandlerStep;
    a := ReadRun(s);
    a := GoesOn(s, a, s, Loading, 0, Load(true), Sizing, s);
    a := GoesOn(s, a, s, Sizing, 0, Size(true), Solving, s);
    a := GoesOn(s, a, s, Solving, 0, Solve(Solved), Claiming, s);
  }

  function WithSuccess(s: State): State
    requires s.row.Some?
  {
    s.(row := Some(Row(Success, None, s.row.value.trees + 1, true)), resultStored := true,
        written := s.written + [Success])
  }

  /** ... up to its commit ... */
  lemma SavedRun(s: State) returns (a: seq<Action>)
    requires CanSucceed(s)
    ensures Run(s, a) == Some(WithHandler(WithSuccess(s), SuccessCommitted, 1))
  {
    hide Run, Step, HandlerStep;
    a := SolvedRun(s);
    var claimed := s.(lock := Some(|s.handlers|));
    a := GoesOn(s, a, s, Claiming, 1, Claim, Claimed, claimed);
    a := GoesOn(s, a, claimed, Claimed, 1, StoreResult, ResultStored, claimed.(resultStored := true));
    a := GoesOn(s, a, claimed.(resultStored := true), ResultStored, 1, Commit, SuccessCommitted, WithSuccess(s));
  }

  /** ... and up to its ack. */
  lemma SuccessfulRun(s: State) returns (a: seq<Action>)
    requires CanSucceed(s)
    ensures Run(s, a) == Some(WithHandler(WithSuccess(s).(events := s.events + [Success], acked := true),
                                          if s.fromFile then Cleaning else Ended(Acked), 1))
  {
    hide Run, Step, HandlerStep;
    a := SavedRun(s);
    var saved := WithSuccess(s);
    var announced := saved.(events := s.events + [Success]);
    a := GoesOn(s, a, saved, SuccessCommitted, 1, Log, SuccessLogged, saved);
    a := GoesOn(s, a, saved, SuccessLogged, 1, Emit(true), Acking(s.fromFile), announced);
    a := GoesOn(s, a, announced, Acking(s.fromFile), 1, Ack(true), if s.fromFile then Cleaning else Ended(Acked),
        announced.(acked := true));
  }

  lemma {:induction false} RunAppend(s: State, a: seq<Action>, b: seq<Action>)
    requires Run(s, a).Some?
    ensures Run(s, a + b) == Run(Run(s, a).value, b)
  {
    if b == [] {
      assert a + b == a;
    } else {
      RunAppend(s, a, b[..|b| - 1]);
      assert (a + b)[..|a + b| - 1] == a + b[..|b| - 1];
    }
  }

  /** The row as the request left it, the message delivered although the publish call failed. */
  lemma UnconfirmedRun() returns (a: seq<Action>)
    ensures Run(Init(true), a) ==
            Some(Init(true).(api := Unpublished, row := Some(Row(Pending, None, 0, false)),
                             input := true, published := true))
  {
    a := [Upload(true)];
    assert a[..0] == [];
    RunSnoc(Init(true), a, Create(true));
    a := a + [Create(true)];
    RunSnoc(Init(true), a, Publish(true, false));
    a := a + [Publish(true, false)];
  }

  /** What `_mark_failed_to_queue` makes of a stored success. */
  function Overwritten(s: State): State
    requires s.row.Some?
  {
    s.(api := Marked, row := Some(s.row.value.(status := Failed, reason := Some(FailedToQueue))))
  }

  lemma MarkedRun(s: State, a: seq<Action>, t: State)
    requires Run(s, a) == Some(t) && t.api == Unpublished && t.lock.None? && t.row.Some?
    ensures Run(s, a + [MarkFailed]) == Some(Overwritten(t))
  {
    RunSnoc(s, a, MarkFailed);
  }

  /**
   * "FAILED implies no result tree" does not hold: when the publish call fails although the
   * message arrived, a stored and announced success is overwritten.
   */
  lemma SuccessOverwritten() returns (a: seq<Action>, s: State)
    ensures Run(Init(true), a) == Some(s)
    ensures s.row == Some(Row(Failed, Some(FailedToQueue), 1, true)) && s.events == [Success]
  {
    hide Run, Step;
    var start := UnconfirmedRun();
    var queued := Init(true).(api := Unpublished, row := Some(Row(Pending, None, 0, false)), input := true,
        published := true);
    var delivery := SuccessfulRun(queued);
    var saved := WithHandler(WithSuccess(queued).(events := [Success], acked := true), Cleaning, 1);
    assert queued.events + [Success] == [Success];
    RunAppend(Init(true), start, delivery);
    MarkedRun(Init(true), start + delivery, saved);
    a, s := start + delivery + [MarkFailed], Overwritten(saved);
  }
}
