/** How often a message is delivered and solved, and why every run of the protocol ends. */
module Redelivery {
  import opened Options
  import opened Sequences
  import opened Protocol
  import opened Outcomes

  // ---- The delivery limit ----

  /** Reads the key or the input, solves, stores a result, or asks for another delivery. */
  predicate IsWork(m: Move) {
    m.ReadKey? || m.Transient? || m.Load? || m.Size? || m.Solve? || m.CheckCrash? || m.StoreResult? || m.Nak?
  }

  /** From the limit on, a delivery whose number can be read runs nothing and is never asked for again. */
  lemma NoWorkPastLimit(s: State, i: nat, m: Move)
    requires Reachable(s) && i < |s.handlers| && PastLimit(s.handlers[i], i)
    ensures s.handlers[i].solves == 0 && s.handlers[i].point != Ended(Naked)
    ensures HandlerStep(s, i, m).Some? ==> !IsWork(m)
  {
    ReachableKept(s);
    assert HandlerKept(s, i);
    hide Kept, PointKept;
  }

  function Solves(handlers: seq<Handler>): nat {
    if handlers == [] then 0 else Solves(handlers[..|handlers| - 1]) + handlers[|handlers| - 1].solves
  }

  lemma {:induction false} SolvesBelowLimit(handlers: seq<Handler>)
    requires forall i :: 0 <= i < |handlers| ==> handlers[i].solves <= 1
    ensures Solves(handlers) <= |handlers|
    ensures (forall i :: MAX_DELIVERIES - 1 <= i < |handlers| ==> handlers[i].solves == 0) ==>
        Solves(handlers) <= MAX_DELIVERIES - 1
  {
    if handlers != [] {
      var front := handlers[..|handlers| - 1];
      SolvesBelowLimit(front);
      if forall i :: MAX_DELIVERIES - 1 <= i < |handlers| ==> handlers[i].solves == 0 {
        assert forall i :: MAX_DELIVERIES - 1 <= i < |front| ==> front[i].solves == 0;
      }
    }
  }

  /** A message is delivered at most 11 times and solved at most once a delivery; 9 times when its count can be read. */
  lemma BoundedRedelivery(s: State)
    requires Reachable(s)
    ensures |s.handlers| <= MAX_DELIVER && Solves(s.handlers) <= |s.handlers|
    ensures (forall i :: 0 <= i < |s.handlers| ==> s.handlers[i].readable) ==> Solves(s.handlers) <= MAX_DELIVERIES - 1
  {
    ReachableKept(s);
    forall i | 0 <= i < |s.handlers|
      ensures s.handlers[i].solves <= 1
      ensures s.handlers[i].readable && i >= MAX_DELIVERIES - 1 ==> s.handlers[i].solves == 0
    {
      assert HandlerKept(s, i);
    }
    SolvesBelowLimit(s.handlers);
  }

  /** A delivery past the limit that has ended, its row still PENDING, could not record the failure. */
  lemma LeftPending(s: State, i: nat)
    requires Reachable(s) && IsPending(s)
    requires i < |s.handlers| && PastLimit(s.handlers[i], i) && s.handlers[i].point.Ended?
    ensures s.handlers[i].point == Ended(Unsettled)
  {
    ReachableKept(s);
    assert HandlerKept(s, i);
    HowEnded(s.handlers[i].point);
  }

  lemma HowEnded(p: Point)
    requires p.Ended?
    ensures p == Ended(Unsettled) || Settles(p) || Works(p)
  {
    match p.end
    case Acked =>
    case Naked =>
    case Unsettled =>
  }

  /** That can happen: `k` deliveries, the worker stopping at once on each. */
  lemma {:induction false} StoppedRun(fromFile: bool, k: nat) returns (a: seq<Action>, s: State)
    requires k <= MAX_DELIVER
    ensures Run(Init(fromFile), a) == Some(s)
    ensures IsPending(s) && s.published && !s.acked && s.lock == None && |s.handlers| == k && s.api == Returned
    ensures forall i :: 0 <= i < k ==> s.handlers[i] == Handler(Ended(Unsettled), true, 0)
  {
    if k == 0 {
      a, s := PublishedRun(fromFile);
    } else {
      var before;
      a, before := StoppedRun(fromFile, k - 1);
      a, s := StoppedDelivery(Init(fromFile), a, before);
    }
  }

  lemma StoppedDelivery(start: State, before: seq<Action>, s: State) returns (a: seq<Action>, t: State)
    requires Run(start, before) == Some(s) && s.published && !s.acked && |s.handlers| < MAX_DELIVER && s.lock == None
    ensures Run(start, a) == Some(t) && t == WithHandler(s, Ended(Unsettled), 0)
  {
    hide Run, Next, Effect;
    var i := |s.handlers|;
    RunSnoc(start, before, Deliver(true));
    StopLast(s);
    a := GoesOn(start, before + [Deliver(true)], s, Arrived, 0, Stop, Ended(Unsettled), s);
    t := WithHandler(s, Ended(Unsettled), 0);
  }

  lemma StopLast(s: State)
    requires s.lock == None
    ensures Next(WithHandler(s, Arrived, 0), |s.handlers|, Stop) == Some(Ended(Unsettled))
    ensures Effect(WithHandler(s, Arrived, 0), |s.handlers|, Stop) == WithHandler(s, Arrived, 0)
  {
  }

  lemma PublishedRun(fromFile: bool) returns (a: seq<Action>, s: State)
    ensures Run(Init(fromFile), a) == Some(s)
    ensures IsPending(s) && s.published && !s.acked && s.lock == None && s.handlers == [] && s.api == Returned
  {
    a := [Upload(true)];
    assert a[..0] == [];
    RunSnoc(Init(fromFile), a, Create(true));
    a := a + [Create(true)];
    RunSnoc(Init(fromFile), a, Publish(true, true));
    a := a + [Publish(true, true)];
    s := Run(Init(fromFile), a).value;
  }

  lemma EndedStays(s: State, i: nat, m: Move)
    requires i < |s.handlers| && s.handlers[i].point.Ended?
    ensures Next(s, i, m).None?
  {
  }

  // ---- Every run ends ----

  function PointRank(p: Point): nat {
    match p
    case Arrived => 20
    case Counting => 19
    case ReadingKey => 18
    case Loading => 17
    case Sizing => 16
    case Solving => 15
    case Crashed | Claiming => 14
    case Claimed => 13
    case ResultStored => 12
    case SuccessCommitted => 11
    case SuccessLogged => 10
    case Failing(w) => if w.last then 8 else 13
    case FailureClaimed(w) => if w.last then 7 else 12
    case FailureCommitted(w) => if w.last then 6 else 11
    case FailureLogged(w) => if w.last then 5 else 10
    case Acking(_) => 4
    case Cleaning | Naking => 3
    case Ended(_) => 0
  }

  function HandlersRank(handlers: seq<Handler>): nat {
    if handlers == [] then 0 else HandlersRank(handlers[..|handlers| - 1]) + PointRank(handlers[|handlers| - 1].point)
  }

  function ApiRank(api: Api): nat {
    match api
    case Starting => 6
    case Uploaded => 5
    case CreateFailed | Created => 4
    case Unpublished => 3
    case Marked => 2
    case Returned => 0
  }

  function DeletionRank(d: Deletion): nat {
    match d
    case NotDeleting => 4
    case RowRead(_) => 3
    case RowDeleted(_) => 2
    case InputDeleted(_) => 1
    case DeletionOver => 0
  }

  /** The steps that are left: no step can be taken more often than this. */
  function Rank(s: State): nat
    requires |s.handlers| <= MAX_DELIVER
  {
    ApiRank(s.api) + DeletionRank(s.deletion) + 21 * (MAX_DELIVER - |s.handlers|) + HandlersRank(s.handlers)
  }

  lemma MoveDescends(s: State, i: nat, m: Move)
    requires i < |s.handlers| && Next(s, i, m).Some?
    ensures PointRank(Next(s, i, m).value) < PointRank(s.handlers[i].point)
  {
  }

  lemma {:induction false} RankOfUpdate(handlers: seq<Handler>, i: nat, h: Handler)
    requires i < |handlers|
    ensures HandlersRank(handlers[i := h]) == HandlersRank(handlers) - PointRank(handlers[i].point) + PointRank(h.point)
  {
    var front, last := handlers[..|handlers| - 1], handlers[|handlers| - 1];
    if i < |front| {
      RankOfUpdate(front, i, h);
      assert handlers[i := h][..|front|] == front[i := h];
    } else {
      assert handlers[i := h][..|front|] == front;
    }
  }

  lemma EffectKeepsRequests(s: State, i: nat, m: Move)
    requires i < |s.handlers|
    ensures Effect(s, i, m).api == s.api && Effect(s, i, m).deletion == s.deletion
  {
  }

  lemma StepDescends(s: State, a: Action)
    requires |s.handlers| <= MAX_DELIVER && Step(s, a).Some?
    ensures |Step(s, a).value.handlers| <= MAX_DELIVER && Rank(Step(s, a).value) < Rank(s)
  {
    var t := Step(s, a).value;
    if a.Handle? {
      hide Next, Effect, PointRank, ApiRank, DeletionRank, HandlersRank;
      MoveDescends(s, a.handler, a.move);
      RankOfUpdate(s.handlers, a.handler, t.handlers[a.handler]);
      EffectKeepsRequests(s, a.handler, a.move);
    } else {
      hide Step;
      RequestDescends(s, a);
    }
  }

  lemma RequestDescends(s: State, a: Action)
    requires |s.handlers| <= MAX_DELIVER && Step(s, a).Some? && !a.Handle?
    ensures |Step(s, a).value.handlers| <= MAX_DELIVER && Rank(Step(s, a).value) < Rank(s)
  {
    hide Rank, ApiStep, DeletionStep;
    if a.Deliver? {
      DeliverDescends(s, a);
    } else if IsDeletion(a) {
      DeletionDescends(s, a);
    } else {
      ApiDescends(s, a);
    }
  }

  lemma DeletionLowers(s: State, a: Action)
    requires DeletionStep(s, a).Some?
    ensures var next := DeletionStep(s, a).value;
            next.handlers == s.handlers && next.api == s.api && DeletionRank(next.deletion) < DeletionRank(s.deletion)
  {
  }

  lemma DeletionDescends(s: State, a: Action)
    requires |s.handlers| <= MAX_DELIVER && DeletionStep(s, a).Some?
    ensures |DeletionStep(s, a).value.handlers| <= MAX_DELIVER && Rank(DeletionStep(s, a).value) < Rank(s)
  {
    hide DeletionStep, HandlersRank, ApiRank, DeletionRank;
    DeletionLowers(s, a);
  }

  lemma ApiLowers(s: State, a: Action)
    requires ApiStep(s, a).Some?
    ensures var next := ApiStep(s, a).value;
            next.handlers == s.handlers && next.deletion == s.deletion && ApiRank(next.api) < ApiRank(s.api)
  {
    match a {
      case Upload(_) =>
      case Create(_) =>
      case DropUpload(_) =>
      case Publish(_, _) =>
      case MarkFailed =>
      case DropInput(_) =>
      case ApiStops =>
      case _ =>
    }
  }

  lemma ApiDescends(s: State, a: Action)
    requires |s.handlers| <= MAX_DELIVER && ApiStep(s, a).Some?
    ensures |ApiStep(s, a).value.handlers| <= MAX_DELIVER && Rank(ApiStep(s, a).value) < Rank(s)
  {
    hide ApiStep, HandlersRank, ApiRank, DeletionRank;
    ApiLowers(s, a);
  }

  lemma DeliverDescends(s: State, a: Action)
    requires |s.handlers| <= MAX_DELIVER && Step(s, a).Some? && a.Deliver?
    ensures |Step(s, a).value.handlers| <= MAX_DELIVER && Rank(Step(s, a).value) < Rank(s)
  {
    SnocFront(s.handlers, Handler(Arrived, a.readable, 0));
  }

  lemma {:induction false} RunDescends(fromFile: bool, actions: seq<Action>)
    requires Run(Init(fromFile), actions).Some?
    ensures var s := Run(Init(fromFile), actions).value;
            |s.handlers| <= MAX_DELIVER && Rank(s) + |actions| <= Rank(Init(fromFile))
  {
    if actions != [] {
      var front := actions[..|actions| - 1];
      RunDescends(fromFile, front);
      StepDescends(Run(Init(fromFile), front).value, actions[|actions| - 1]);
    }
  }

  /** Requests, deliveries, retries and cleanups all come to an end: no run is longer than this. */
  lemma RunsEnd(fromFile: bool, actions: seq<Action>)
    requires Run(Init(fromFile), actions).Some?
    ensures |actions| <= 241
  {
    RunDescends(fromFile, actions);
  }
}
