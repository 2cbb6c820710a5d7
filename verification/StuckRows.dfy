/** Rows that stay PENDING: when no worker handles the message again, and when nothing changes the row any more. */
module StuckRows {
  import opened Options
  import opened Sequences
  import opened Protocol
  import opened Outcomes
  import opened Redelivery

  // ---- Rows that stay PENDING ----

  /** No delivery is made and no handler can move. */
  ghost predicate NoDelivery(s: State) {
    forall a :: Step(s, a).Some? ==> !a.Deliver? && !a.Handle?
  }

  predicate AllDelivered(s: State) {
    |s.handlers| == MAX_DELIVER && forall i :: 0 <= i < |s.handlers| ==> s.handlers[i].point.Ended?
  }

  /**
   * A PENDING row is in no worker's hands exactly when its message was not published, or all its
   * deliveries have ended.
   */
  lemma NoDeliveryExactly(s: State)
    requires Reachable(s) && IsPending(s)
    ensures NoDelivery(s) <==> !s.published || AllDelivered(s)
  {
    ReachableKept(s);
    hide Kept, StateKept, HandlerKept, Next, Effect;
    PendingNotAcked(s);
    if NoDelivery(s) && s.published {
      assert Step(s, Deliver(true)).None?;
      forall i | 0 <= i < |s.handlers| ensures s.handlers[i].point.Ended? {
        assert Step(s, Handle(i, Stop)).None?;
        CanStop(s, i);
      }
    }
    if !s.published || AllDelivered(s) {
      DeadHasNoDelivery(s);
    }
  }

  lemma PendingNotAcked(s: State)
    requires Kept(s) && IsPending(s)
    ensures !s.acked && |s.handlers| <= MAX_DELIVER && !MayCreate(s) && (!s.published ==> s.handlers == [])
  {
  }

  lemma CanStop(s: State, i: nat)
    requires i < |s.handlers| && HandlerStep(s, i, Stop).None?
    ensures s.handlers[i].point.Ended?
  {
  }

  lemma DeadHasNoDelivery(s: State)
    requires if s.published then AllDelivered(s) else s.handlers == []
    ensures NoDelivery(s)
  {
    forall i, m | 0 <= i < |s.handlers| ensures HandlerStep(s, i, m).None? {
      EndedStays(s, i, m);
    }
  }

  /** No worker will ever handle the message again, whatever happens. */
  ghost predicate IsAbandoned(s: State) {
    forall actions :: Run(s, actions).Some? ==> NoDelivery(Run(s, actions).value)
  }

  /** What is kept once the message cannot be delivered any more. */
  predicate IsDead(s: State) {
    && s.api != Starting && s.api != Uploaded && s.api != Created
    && if s.published then AllDelivered(s) else s.handlers == []
  }

  lemma StepDead(s: State, a: Action)
    requires IsDead(s) && Step(s, a).Some?
    ensures IsDead(Step(s, a).value)
  {
    if a.Handle? {
      EndedStays(s, a.handler, a.move);
      assert false;
    } else {
      RequestKeepsHandlers(s, a);
    }
  }

  lemma RequestKeepsHandlers(s: State, a: Action)
    requires Step(s, a).Some? && !a.Handle? && IsDead(s)
    ensures var t := Step(s, a).value;
            && t.handlers == s.handlers && t.published == s.published
            && t.api != Starting && t.api != Uploaded && t.api != Created
  {
    hide ApiStep, DeletionStep;
    if a.Deliver? {
    } else if IsDeletion(a) {
      DeletionKeepsHandlers(s, a);
    } else {
      ApiKeepsHandlers(s, a);
    }
  }

  lemma DeletionKeepsHandlers(s: State, a: Action)
    requires DeletionStep(s, a).Some?
    ensures var t := DeletionStep(s, a).value;
            t.handlers == s.handlers && t.published == s.published && t.api == s.api
  {
  }

  lemma ApiKeepsHandlers(s: State, a: Action)
    requires ApiStep(s, a).Some? && s.api != Starting && s.api != Uploaded && s.api != Created
    ensures var t := ApiStep(s, a).value;
            && t.handlers == s.handlers && t.published == s.published
            && t.api != Starting && t.api != Uploaded && t.api != Created
  {
  }

  lemma {:induction false} RunDead(s: State, actions: seq<Action>)
    requires IsDead(s) && Run(s, actions).Some?
    ensures IsDead(Run(s, actions).value)
  {
    if actions != [] {
      hide Step, IsDead;
      RunDead(s, actions[..|actions| - 1]);
      StepDead(Run(s, actions[..|actions| - 1]).value, actions[|actions| - 1]);
    }
  }

  /**
   * Workers are done with a PENDING row exactly when its message was not published and its request
   * is past the publish call, or all eleven deliveries have ended.
   */
  lemma AbandonedExactly(s: State)
    requires Reachable(s) && IsPending(s)
    ensures IsAbandoned(s) <==> if s.published then AllDelivered(s) else s.api != Created
  {
    ReachableKept(s);
    PendingNotAcked(s);
    hide Kept, Step;
    if IsAbandoned(s) {
      assert Run(s, []) == Some(s);
      if s.published {
        NoDeliveryExactly(s);
      } else {
        if s.api == Created {
          CreatedIsNotAbandoned(s);
        }
      }
    }
    if if s.published then AllDelivered(s) else s.api != Created {
      forall actions | Run(s, actions).Some? ensures NoDelivery(Run(s, actions).value) {
        RunDead(s, actions);
        DeadHasNoDelivery(Run(s, actions).value);
      }
    }
  }

  /** A request that has created the row can still publish its message. */
  lemma CreatedIsNotAbandoned(s: State)
    requires s.api == Created && !s.published && !s.acked && s.handlers == []
    ensures !IsAbandoned(s)
  {
    var actions := [Publish(true, true)];
    assert actions[..0] == [];
    var t := s.(api := Returned, published := true);
    assert Run(s, actions) == Some(t);
    assert Step(t, Deliver(true)).Some?;
    assert !NoDelivery(t);
  }

  /**
   * How the deliveries of a row that no worker has in hand have ended: none was acked, and a
   * delivery numbered 10 or 11 whose count could be read did not even ask for another one. With a
   * count that cannot be read it may have.
   */
  lemma PendingAtEnd(s: State)
    requires Reachable(s) && IsPending(s) && NoDelivery(s)
    ensures s.published ==> |s.handlers| == MAX_DELIVER
    ensures forall i :: 0 <= i < |s.handlers| ==>
              s.handlers[i].point == Ended(Unsettled) || s.handlers[i].point == Ended(Naked)
    ensures forall i :: MAX_DELIVERIES - 1 <= i < |s.handlers| && s.handlers[i].readable ==>
              s.handlers[i].point == Ended(Unsettled)
  {
    NoDeliveryExactly(s);
    ReachableKept(s);
    PendingNotAcked(s);
    hide NoDelivery;
    forall i | 0 <= i < |s.handlers|
      ensures s.handlers[i].point == Ended(Unsettled) || s.handlers[i].point == Ended(Naked)
      ensures MAX_DELIVERIES - 1 <= i && s.handlers[i].readable ==> s.handlers[i].point == Ended(Unsettled)
    {
      assert HandlerKept(s, i);
      EndedPending(s, i);
      if MAX_DELIVERIES - 1 <= i && s.handlers[i].readable {
        LeftPending(s, i);
      }
    }
  }

  lemma EndedPending(s: State, i: nat)
    requires i < |s.handlers| && HandlerKept(s, i) && IsPending(s) && s.handlers[i].point.Ended?
    ensures s.handlers[i].point == Ended(Unsettled) || s.handlers[i].point == Ended(Naked)
  {
    AckedSettles(s.handlers[i].point);
    match s.handlers[i].point.end
    case Acked =>
    case Naked =>
    case Unsettled =>
  }

  lemma AckedSettles(p: Point)
    ensures p == Ended(Acked) ==> Settles(p)
  {
  }

  // ---- When the row stays PENDING ----

  ghost predicate KeepsRow(actions: seq<Action>) {
    forall i :: 0 <= i < |actions| ==> !actions[i].DeleteRow?
  }

  /** Whatever happens, unless it is deleted the row is and stays PENDING. */
  ghost predicate StaysPending(s: State) {
    forall actions :: KeepsRow(actions) && Run(s, actions).Some? ==> IsPending(Run(s, actions).value)
  }

  /** Handler `i` will not write to a PENDING row: it has ended or can only ask for another delivery. */
  predicate GaveUp(h: Handler, i: nat) {
    h.point.Ended? || h.point.Naking? || (h.point.Crashed? && h.readable && i + 1 < MAX_SOLVER_CRASH_DELIVERIES)
  }

  /** The request has returned, and its message was not published or no delivery of it can write. */
  predicate IsHopeless(s: State) {
    && s.api == Returned
    && (s.published ==>
          |s.handlers| == MAX_DELIVER && forall i :: 0 <= i < |s.handlers| ==> GaveUp(s.handlers[i], i))
  }

  predicate IsLost(s: State) {
    IsPending(s) && IsHopeless(s) && s.lock == None && (!s.published ==> s.handlers == [])
  }

  lemma HopelessIsLost(s: State)
    requires Kept(s) && IsPending(s) && IsHopeless(s)
    ensures IsLost(s)
  {
    if s.lock.Some? {
      HolderCanWrite(s);
    }
  }

  lemma GaveUpStays(s: State, i: nat, m: Move)
    requires i < |s.handlers| && GaveUp(s.handlers[i], i) && s.lock == None && HandlerStep(s, i, m).Some?
    ensures var t := HandlerStep(s, i, m).value;
            && GaveUp(t.handlers[i], i) && t == s.(handlers := t.handlers)
            && t.handlers == s.handlers[i := t.handlers[i]]
  {
    hide AfterLoad, AfterSolve, Committed;
  }

  lemma RequestKeepsLost(s: State, a: Action)
    requires IsLost(s) && Step(s, a).Some? && !a.Handle? && !a.DeleteRow?
    ensures IsLost(Step(s, a).value)
  {
  }

  lemma StepLost(s: State, a: Action)
    requires IsLost(s) && Step(s, a).Some? && !a.DeleteRow?
    ensures IsLost(Step(s, a).value)
  {
    hide HandlerStep, ApiStep, DeletionStep;
    if a.Handle? {
      GaveUpStays(s, a.handler, a.move);
    } else {
      RequestKeepsLost(s, a);
    }
  }

  lemma {:induction false} RunLost(s: State, actions: seq<Action>)
    requires IsLost(s) && KeepsRow(actions) && Run(s, actions).Some?
    ensures IsLost(Run(s, actions).value)
  {
    if actions != [] {
      hide Step, IsLost;
      RunLost(s, actions[..|actions| - 1]);
      StepLost(Run(s, actions[..|actions| - 1]).value, actions[|actions| - 1]);
    }
  }

  /** Handler `i` can go on to write to the row. */
  predicate CanWrite(s: State, i: nat) {
    && i < |s.handlers| && IsPending(s) && !GaveUp(s.handlers[i], i)
    && !Settles(s.handlers[i].point) && !OwesEvent(s.handlers[i].point)
    && s.lock == if HoldsLock(s.handlers[i].point) then Some(i) else None
  }

  /** The move that leads there: a failure, until there is something to claim and commit. */
  function WriteMove(p: Point): Move {
    match p
    case Counting => Count
    case Sizing => Size(false)
    case Solving => Solve(SolveFailed)
    case Crashed => CheckCrash
    case Claiming | Failing(_) => Claim
    case Claimed => StoreResult
    case ResultStored | FailureClaimed(_) => Commit
    case _ => Raise
  }

  /** Taking that move brings the row to another status, or the handler nearer to it. */
  predicate IsNearer(t: State, i: nat) {
    !IsPending(t) || CanWrite(t, i)
  }

  lemma ClaimMoves(s: State, i: nat)
    requires CanWrite(s, i) && (s.handlers[i].point.Claiming? || s.handlers[i].point.Failing?)
    ensures var p := s.handlers[i].point;
            HandlerStep(s, i, WriteMove(p)).Some? && IsNearer(HandlerStep(s, i, WriteMove(p)).value, i)
  {
    hide AfterRaise, AfterLoad, AfterSolve, Committed;
  }

  lemma HolderMoves(s: State, i: nat)
    requires CanWrite(s, i) && HoldsLock(s.handlers[i].point)
    ensures var p := s.handlers[i].point;
            HandlerStep(s, i, WriteMove(p)).Some? && IsNearer(HandlerStep(s, i, WriteMove(p)).value, i)
  {
    hide AfterRaise, AfterLoad, AfterSolve, AfterClaim;
  }

  lemma FailureMoves(s: State, i: nat)
    requires CanWrite(s, i) && !HoldsLock(s.handlers[i].point)
    requires !s.handlers[i].point.Claiming? && !s.handlers[i].point.Failing?
    ensures var p := s.handlers[i].point;
            HandlerStep(s, i, WriteMove(p)).Some? && IsNearer(HandlerStep(s, i, WriteMove(p)).value, i)
  {
    hide AfterLoad, AfterClaim, Committed;
  }

  lemma WriteMoves(s: State, i: nat)
    requires CanWrite(s, i)
    ensures var p := s.handlers[i].point;
            && HandlerStep(s, i, WriteMove(p)).Some?
            && var t := HandlerStep(s, i, WriteMove(p)).value;
               IsNearer(t, i) && i < |t.handlers| && PointRank(t.handlers[i].point) < PointRank(p)
  {
    var p := s.handlers[i].point;
    if p.Claiming? || p.Failing? {
      ClaimMoves(s, i);
    } else if HoldsLock(p) {
      HolderMoves(s, i);
    } else {
      FailureMoves(s, i);
    }
    hide PointRank, Next, Effect, WriteMove, IsNearer, GaveUp, Settles, OwesEvent;
    MoveDescends(s, i, WriteMove(p));
  }

  lemma EmptyRun(s: State)
    ensures Run(s, []) == Some(s)
  {
  }

  lemma RunFrom(s: State, first: Action, rest: seq<Action>)
    requires Step(s, first).Some?
    ensures Run(s, [first] + rest) == Run(Step(s, first).value, rest)
  {
    hide Step;
    assert [first][..0] == [];
    RunAppend(s, [first], rest);
  }

  /** A handler that can write brings the row to another status. */
  lemma {:induction false} HandlerWrites(s: State, i: nat) returns (actions: seq<Action>)
    requires CanWrite(s, i)
    ensures KeepsRow(actions) && Run(s, actions).Some? && !IsPending(Run(s, actions).value)
    decreases PointRank(s.handlers[i].point)
  {
    WriteMoves(s, i);
    hide Run, Next, Effect, CanWrite, HandlerStep, IsPending;
    var first := Handle(i, WriteMove(s.handlers[i].point));
    var t := Step(s, first).value;
    var rest := [];
    if IsPending(t) {
      rest := HandlerWrites(t, i);
    } else {
      EmptyRun(t);
    }
    RunFrom(s, first, rest);
    actions := [first] + rest;
  }

  lemma NotGivenUp(s: State, i: nat)
    requires Kept(s) && IsPending(s) && i < |s.handlers| && !GaveUp(s.handlers[i], i)
    requires s.lock == None || s.lock == Some(i)
    ensures CanWrite(s, i)
  {
    assert HandlerKept(s, i);
  }

  lemma HolderCanWrite(s: State)
    requires Kept(s) && IsPending(s) && s.lock.Some?
    ensures CanWrite(s, s.lock.value)
  {
    assert HandlerKept(s, s.lock.value);
  }

  /** What can be delivered can be written. */
  lemma DeliveryWrites(s: State) returns (actions: seq<Action>)
    requires IsPending(s) && s.lock == None && s.published && !s.acked && |s.handlers| < MAX_DELIVER
    ensures KeepsRow(actions) && Run(s, actions).Some? && !IsPending(Run(s, actions).value)
  {
    var t := Step(s, Deliver(true)).value;
    var rest := HandlerWrites(t, |s.handlers|);
    RunFrom(s, Deliver(true), rest);
    actions := [Deliver(true)] + rest;
  }

  lemma RequestWrites(s: State) returns (actions: seq<Action>)
    requires Kept(s) && IsPending(s) && s.lock == None && s.api != Returned
    ensures KeepsRow(actions) && Run(s, actions).Some? && !IsPending(Run(s, actions).value)
  {
    if s.api == Unpublished {
      actions := [MarkFailed];
      assert actions[..0] == [];
    } else {
      var t := Step(s, Publish(true, true)).value;
      var rest := DeliveryWrites(t);
      RunFrom(s, Publish(true, true), rest);
      actions := [Publish(true, true)] + rest;
    }
  }

  /** Where there is hope, some run changes the row. */
  lemma HopeWrites(s: State) returns (actions: seq<Action>)
    requires Kept(s) && IsPending(s) && !IsHopeless(s)
    ensures KeepsRow(actions) && Run(s, actions).Some? && !IsPending(Run(s, actions).value)
  {
    PendingNotAcked(s);
    hide Kept, Step, Run, CanWrite;
    if s.lock.Some? {
      HolderCanWrite(s);
      actions := HandlerWrites(s, s.lock.value);
    } else if s.api != Returned {
      actions := RequestWrites(s);
    } else if |s.handlers| < MAX_DELIVER {
      actions := DeliveryWrites(s);
    } else {
      var i :| 0 <= i < |s.handlers| && !GaveUp(s.handlers[i], i);
      NotGivenUp(s, i);
      actions := HandlerWrites(s, i);
    }
  }

  /**
   * A PENDING row stays PENDING, short of its deletion, exactly when its request has returned and
   * its message was not published, or was delivered eleven times to handlers that gave up.
   */
  lemma StaysPendingExactly(s: State)
    requires Reachable(s) && IsPending(s)
    ensures StaysPending(s) <==> IsHopeless(s)
  {
    ReachableKept(s);
    hide Kept, Step;
    if IsHopeless(s) {
      HopelessIsLost(s);
      forall actions | KeepsRow(actions) && Run(s, actions).Some? ensures IsPending(Run(s, actions).value) {
        RunLost(s, actions);
      }
    } else {
      var actions := HopeWrites(s);
    }
  }

  /** Once no worker has it in hand any more, the row stays PENDING exactly when its request has returned. */
  lemma UnhandledStaysPending(s: State)
    requires Reachable(s) && IsPending(s) && NoDelivery(s)
    ensures StaysPending(s) <==> s.api == Returned
  {
    NoDeliveryExactly(s);
    StaysPendingExactly(s);
  }

  // ---- Such rows ----

  lemma NothingToCome(s: State)
    requires Reachable(s) && IsPending(s) && s.api == Returned && (s.published ==> AllDelivered(s))
    ensures IsAbandoned(s) && StaysPending(s)
  {
    hide Reachable, Run, IsAbandoned, StaysPending;
    AbandonedExactly(s);
    StaysPendingExactly(s);
  }

  /** After the broker's last delivery no other comes: a row that stays PENDING though its message was published. */
  lemma StuckPending(fromFile: bool) returns (s: State)
    ensures Reachable(s) && s.published && IsAbandoned(s) && IsPending(s) && StaysPending(s)
  {
    var a;
    a, s := StoppedRun(fromFile, MAX_DELIVER);
    hide Run, IsAbandoned, StaysPending;
    NothingToCome(s);
  }

  /** A request that ends between its commit and its publish call leaves such a row as well. */
  lemma UnpublishedPending(fromFile: bool) returns (s: State)
    ensures Reachable(s) && !s.published && IsAbandoned(s) && IsPending(s) && StaysPending(s)
  {
    var a := [Upload(true)];
    assert a[..0] == [];
    RunSnoc(Init(fromFile), a, Create(true));
    a := a + [Create(true)];
    RunSnoc(Init(fromFile), a, ApiStops);
    a := a + [ApiStops];
    s := Run(Init(fromFile), a).value;
    hide Run, IsAbandoned, StaysPending;
    NothingToCome(s);
  }

  // ---- ... and without readable counts ----

  /** The state with one more handler, whose delivery count cannot be read. */
  function WithUncounted(s: State, point: Point): State {
    s.(handlers := s.handlers + [Handler(point, false, 0)])
  }

  lemma UncountedMove(start: State, before: seq<Action>, s: State, point: Point, move: Move, next: Point)
    returns (a: seq<Action>)
    requires Run(start, before) == Some(WithUncounted(s, point)) && !move.Solve?
    requires Next(WithUncounted(s, point), |s.handlers|, move) == Some(next)
    requires Effect(WithUncounted(s, point), |s.handlers|, move) == WithUncounted(s, point)
    ensures Run(start, a) == Some(WithUncounted(s, next))
  {
    hide Run, Next, Effect;
    var h := Handler(point, false, 0);
    assert (s.handlers + [h])[|s.handlers| := Moved(h, move, next)] == s.handlers + [Handler(next, false, 0)];
    RunSnoc(start, before, Handle(|s.handlers|, move));
    a := before + [Handle(|s.handlers|, move)];
  }

  /**
   * A delivery whose count cannot be read goes on to the key, and asks for another one when that
   * cannot be read either.
   */
  lemma UncountedDelivery(start: State, before: seq<Action>, s: State) returns (a: seq<Action>)
    requires Run(start, before) == Some(s) && IsPending(s) && s.published && !s.acked && |s.handlers| < MAX_DELIVER
    ensures Run(start, a) == Some(WithUncounted(s, Ended(Naked)))
  {
    hide Run;
    RunSnoc(start, before, Deliver(false));
    a := before + [Deliver(false)];
    hide Step, HandlerStep;
    a := UncountedMove(start, a, s, Arrived, Snapshot, Counting);
    a := UncountedMove(start, a, s, Counting, Count, ReadingKey);
    a := UncountedMove(start, a, s, ReadingKey, Protocol.Transient, Naking);
    a := UncountedMove(start, a, s, Naking, Nak, Ended(Naked));
  }

  lemma {:induction false} UncountedRun(fromFile: bool, k: nat) returns (a: seq<Action>, s: State)
    requires k <= MAX_DELIVER
    ensures Run(Init(fromFile), a) == Some(s) && IsPending(s) && s.published && !s.acked && |s.handlers| == k
    ensures s.api == Returned
    ensures forall i :: 0 <= i < k ==> s.handlers[i] == Handler(Ended(Naked), false, 0)
  {
    if k == 0 {
      a, s := PublishedRun(fromFile);
    } else {
      hide Run;
      var before;
      a, before := UncountedRun(fromFile, k - 1);
      a := UncountedDelivery(Init(fromFile), a, before);
      s := WithUncounted(before, Ended(Naked));
    }
  }

  /** Without readable counts all eleven deliveries, the last two among them, can ask for another one. */
  lemma StuckUncounted(fromFile: bool) returns (s: State)
    ensures Reachable(s) && s.published && IsAbandoned(s) && IsPending(s) && StaysPending(s)
    ensures |s.handlers| == MAX_DELIVER && forall i :: 0 <= i < |s.handlers| ==> s.handlers[i].point == Ended(Naked)
  {
    var a;
    a, s := UncountedRun(fromFile, MAX_DELIVER);
    hide Run, IsAbandoned, StaysPending;
    NothingToCome(s);
  }
}
