/** A solve that crashes every time. */
module Crashes {
  import opened Options
  import opened Sequences
  import opened Protocol
  import opened Outcomes
  import opened Redelivery

  /** The failure of a crash has been decided and is not committed yet. */
  predicate RecordsCrash(p: Point) {
    p.Crashed? || (p.Failing? && p.write.reason == SolverCrashed)
        || (p.FailureClaimed? && p.write.reason == SolverCrashed)
  }

  /** No step overlaps deliveries, lets a solve succeed, or keeps a crash from being recorded. */
  predicate CrashesAlone(s: State, a: Action) {
    match a
    case Deliver(_) => forall i :: 0 <= i < |s.handlers| ==> s.handlers[i].point.Ended?
    case Handle(i, Solve(outcome)) => outcome == SolverDied
    case Handle(i, m) => m.Raise? || m.Stop? ==> i < |s.handlers| && !RecordsCrash(s.handlers[i].point)
    case _ => true
  }

  predicate CrashRun(s: State, actions: seq<Action>)
    requires Run(s, actions).Some?
  {
    actions == [] ||
    (CrashRun(s, actions[..|actions| - 1])
     && CrashesAlone(Run(s, actions[..|actions| - 1]).value, actions[|actions| - 1]))
  }

  /** A delivery whose crash is not retried: the third or a later one, or one without a readable count. */
  predicate Spent(h: Handler, i: nat) {
    h.solves > 0 && !(h.readable && i + 1 < MAX_SOLVER_CRASH_DELIVERIES)
  }

  predicate MaySolve(p: Point) {
    p.Counting? || p.ReadingKey? || p.Loading? || p.Sizing? || p.Solving?
  }

  predicate SpentKept(s: State, i: nat)
    requires i < |s.handlers|
  {
    Spent(s.handlers[i], i) ==>
      && (IsFinal(s) || (i == |s.handlers| - 1 && RecordsCrash(s.handlers[i].point)))
      && forall j :: i < j < |s.handlers| ==> IsFinal(s) && !MaySolve(s.handlers[j].point) && s.handlers[j].solves == 0
  }

  predicate CrashKept(s: State) {
    && (forall i :: 0 <= i < |s.handlers| - 1 ==> s.handlers[i].point.Ended?)
    && (forall i :: 0 <= i < |s.handlers| ==> SpentKept(s, i))
  }

  /** A crash that is to be recorded moves on to its recording. */
  lemma RecordingMoves(s: State, i: nat, m: Move)
    requires BrokerKept(s) && i < |s.handlers| && HandlerStep(s, i, m).Some? && CrashesAlone(s, Handle(i, m))
    requires RecordsCrash(s.handlers[i].point) && Spent(s.handlers[i], i) && PointKept(s, i, s.handlers[i].point)
    ensures IsFinal(Effect(s, i, m)) || RecordsCrash(Next(s, i, m).value)
  {
  }

  /** The handler that moves, which is the last: the others have ended. */
  lemma OwnCrashKept(s: State, i: nat, m: Move)
    requires Kept(s) && i == |s.handlers| - 1 && HandlerStep(s, i, m).Some? && CrashesAlone(s, Handle(i, m))
    requires SpentKept(s, i)
    ensures SpentKept(HandlerStep(s, i, m).value, i)
  {
    assert HandlerKept(s, i) && BrokerKept(s);
    hide Kept, StateKept, BrokerKept, Next, Effect, PointKept, Bounded, IsFinal;
    if m.Solve? {
      SolveCrashes(s, i, m);
    } else if Spent(s.handlers[i], i) {
      if IsFinal(s) {
        EffectFinal(s, i, m);
      } else {
        RecordingMoves(s, i, m);
      }
      FinalWithHandlers(Effect(s, i, m), HandlerStep(s, i, m).value.handlers);
    }
  }

  lemma SolveCrashes(s: State, i: nat, m: Move)
    requires i < |s.handlers| && HandlerStep(s, i, m).Some? && CrashesAlone(s, Handle(i, m)) && m.Solve?
    ensures Next(s, i, m) == Some(Crashed)
  {
  }

  lemma FinalWithHandlers(s: State, handlers: seq<Handler>)
    ensures IsFinal(s.(handlers := handlers)) == IsFinal(s)
  {
  }

  lemma EarlierCrashKept(s: State, i: nat, m: Move, k: nat)
    requires Kept(s) && k < i == |s.handlers| - 1 && HandlerStep(s, i, m).Some? && SpentKept(s, k)
    ensures SpentKept(HandlerStep(s, i, m).value, k)
  {
    if Spent(s.handlers[k], k) {
      EffectFinal(s, i, m);
    }
  }

  lemma HandleCrashKept(s: State, i: nat, m: Move)
    requires Kept(s) && CrashKept(s) && i < |s.handlers| && HandlerStep(s, i, m).Some? && CrashesAlone(s, Handle(i, m))
    ensures CrashKept(HandlerStep(s, i, m).value)
  {
    if i < |s.handlers| - 1 {
      EndedStays(s, i, m);
      assert false;
    } else {
      hide Kept, SpentKept, Next, Effect, CrashesAlone;
      assert SpentKept(s, i);
      OwnCrashKept(s, i, m);
      var t := HandlerStep(s, i, m).value;
      forall k | 0 <= k < |t.handlers| ensures SpentKept(t, k) {
        assert SpentKept(s, k);
        if k < i {
          EarlierCrashKept(s, i, m, k);
        }
      }
    }
  }

  /** A delivery begins only when the others have ended, so no crash is left to record. */
  lemma RequestCrashKept(s: State, a: Action, k: nat)
    requires Kept(s) && CrashKept(s) && Step(s, a).Some? && !a.Handle? && CrashesAlone(s, a)
    requires k < |Step(s, a).value.handlers|
    ensures SpentKept(Step(s, a).value, k)
  {
    RequestHandlers(s, a, k);
    if k < |s.handlers| {
      assert SpentKept(s, k);
      if Spent(s.handlers[k], k) {
        if IsFinal(s) {
          RequestFinal(s, a);
        }
        LaterHandlers(s, a, k);
      }
    }
  }

  lemma RequestFinal(s: State, a: Action)
    requires BrokerKept(s) && IsFinal(s) && Step(s, a).Some? && !a.Handle?
    ensures IsFinal(Step(s, a).value)
  {
  }

  lemma LaterHandlers(s: State, a: Action, k: nat)
    requires Step(s, a).Some? && !a.Handle? && CrashesAlone(s, a) && k < |s.handlers| && SpentKept(s, k)
        && Spent(s.handlers[k], k)
    requires IsFinal(s) ==> IsFinal(Step(s, a).value)
    ensures |s.handlers| <= |Step(s, a).value.handlers|
    ensures forall j :: k < j < |Step(s, a).value.handlers| ==>
              var h := Step(s, a).value.handlers[j]; IsFinal(Step(s, a).value) && !MaySolve(h.point) && h.solves == 0
    ensures IsFinal(s) || !a.Deliver?
  {
    hide IsFinal;
    forall j | k < j < |Step(s, a).value.handlers|
      ensures IsFinal(Step(s, a).value) && !MaySolve(Step(s, a).value.handlers[j].point)
          && Step(s, a).value.handlers[j].solves == 0
    {
      RequestHandlers(s, a, j);
    }
  }

  lemma StepCrashKept(s: State, a: Action)
    requires Kept(s) && CrashKept(s) && Step(s, a).Some? && CrashesAlone(s, a)
    ensures CrashKept(Step(s, a).value)
  {
    if a.Handle? {
      HandleCrashKept(s, a.handler, a.move);
    } else {
      hide Kept, SpentKept, Step;
      var t := Step(s, a).value;
      forall i | 0 <= i < |t.handlers| - 1 ensures t.handlers[i].point.Ended? {
        RequestHandlers(s, a, i);
        DeliverLast(s, a);
      }
      forall i | 0 <= i < |t.handlers| ensures SpentKept(t, i) {
        RequestCrashKept(s, a, i);
      }
    }
  }

  lemma DeliverLast(s: State, a: Action)
    requires Step(s, a).Some? && !a.Handle?
    ensures |Step(s, a).value.handlers| == |s.handlers| + if a.Deliver? then 1 else 0
  {
    hide ApiStep, DeletionStep;
    if IsDeletion(a) {
      DeletionLowers(s, a);
    } else if !a.Deliver? {
      ApiLowers(s, a);
    }
  }

  lemma {:induction false} CrashRunKept(fromFile: bool, actions: seq<Action>)
    requires Run(Init(fromFile), actions).Some? && CrashRun(Init(fromFile), actions)
    ensures CrashKept(Run(Init(fromFile), actions).value)
  {
    if actions != [] {
      hide Step, Kept, CrashKept, CrashesAlone;
      var front := actions[..|actions| - 1];
      CrashRunKept(fromFile, front);
      RunKept(fromFile, front);
      StepCrashKept(Run(Init(fromFile), front).value, actions[|actions| - 1]);
    } else {
      assert Init(fromFile).handlers == [];
    }
  }

  /** After the first spent delivery no other solves, and only the two before the third can be unspent. */
  lemma {:induction false} CountSolves(s: State, n: nat)
    requires Kept(s) && CrashKept(s) && n <= |s.handlers|
    ensures Solves(s.handlers[..n]) <= MAX_SOLVER_CRASH_DELIVERIES
    ensures (forall i :: 0 <= i < n ==> !Spent(s.handlers[i], i)) ==>
        Solves(s.handlers[..n]) <= Min(n, MAX_SOLVER_CRASH_DELIVERIES - 1)
  {
    if n > 0 {
      CountSolves(s, n - 1);
      assert s.handlers[..n][..n - 1] == s.handlers[..n - 1];
      assert HandlerKept(s, n - 1);
      if i :| 0 <= i < n - 1 && Spent(s.handlers[i], i) {
        assert SpentKept(s, i);
      }
    }
  }

  function Min(a: nat, b: nat): nat {
    if a < b then a else b
  }

  /**
   * A solve that crashes every time runs at most three times, if deliveries do not overlap and its
   * failure gets recorded.
   */
  lemma CrashesThrice(fromFile: bool, actions: seq<Action>)
    requires Run(Init(fromFile), actions).Some? && CrashRun(Init(fromFile), actions)
    ensures Solves(Run(Init(fromFile), actions).value.handlers) <= 3
  {
    var s := Run(Init(fromFile), actions).value;
    RunKept(fromFile, actions);
    CrashRunKept(fromFile, actions);
    CountSolves(s, |s.handlers|);
    assert s.handlers[..|s.handlers|] == s.handlers;
  }

  // ---- The bound is reached ----

  lemma CrashRunSnoc(s: State, actions: seq<Action>, a: Action)
    requires Run(s, actions).Some? && CrashRun(s, actions) && CrashesAlone(Run(s, actions).value, a)
    requires Step(Run(s, actions).value, a).Some?
    ensures Run(s, actions + [a]) == Step(Run(s, actions).value, a) && CrashRun(s, actions + [a])
  {
    SnocFront(actions, a);
  }

  /** A crashing run goes on with a move of the last handler that has no effect outside it. */
  lemma CrashGoesOn(s: State, actions: seq<Action>, t: State, point: Point, solves: nat, move: Move, next: Point)
    returns (more: seq<Action>)
    requires Run(s, actions) == Some(WithHandler(t, point, solves)) && CrashRun(s, actions)
    requires Next(WithHandler(t, point, solves), |t.handlers|, move) == Some(next)
    requires Effect(WithHandler(t, point, solves), |t.handlers|, move) == WithHandler(t, point, solves)
    requires !move.Raise? && !move.Stop? && (move.Solve? ==> move.outcome == SolverDied)
    ensures Run(s, more) == Some(WithHandler(t, next, if move.Solve? then solves + 1 else solves)) && CrashRun(s, more)
  {
    hide Run, Next, Effect, Step, CrashRun;
    MoveLast(t, point, solves, move, next);
    CrashRunSnoc(s, actions, Handle(|t.handlers|, move));
    more := actions + [Handle(|t.handlers|, move)];
  }

  ghost predicate CanCrash(s: State) {
    && s.published && !s.acked && |s.handlers| < MAX_SOLVER_CRASH_DELIVERIES && IsPending(s) && s.lock.None?
        && (s.fromFile ==> s.input)
    && forall i :: 0 <= i < |s.handlers| ==> s.handlers[i].point.Ended?
  }

  lemma CrashLoaded(start: State, before: seq<Action>, s: State) returns (a: seq<Action>)
    requires Run(start, before) == Some(s) && CrashRun(start, before) && CanCrash(s)
    ensures Run(start, a) == Some(WithHandler(s, Loading, 0)) && CrashRun(start, a)
  {
    hide Run, CrashRun;
    CrashRunSnoc(start, before, Deliver(true));
    a := before + [Deliver(true)];
    hide Step, HandlerStep;
    a := CrashGoesOn(start, a, s, Arrived, 0, Snapshot, Counting);
    a := CrashGoesOn(start, a, s, Counting, 0, Count, ReadingKey);
    a := CrashGoesOn(start, a, s, ReadingKey, 0, ReadKey(true), Loading);
  }

  lemma CrashSolved(start: State, before: seq<Action>, s: State) returns (a: seq<Action>)
    requires Run(start, before) == Some(s) && CrashRun(start, before) && CanCrash(s)
    ensures Run(start, a) == Some(WithHandler(s, Crashed, 1)) && CrashRun(start, a)
  {
    hide Run, CrashRun, Step, HandlerStep;
    a := CrashLoaded(start, before, s);
    a := CrashGoesOn(start, a, s, Loading, 0, Load(true), Sizing);
    a := CrashGoesOn(start, a, s, Sizing, 0, Size(true), Solving);
    a := CrashGoesOn(start, a, s, Solving, 0, Solve(SolverDied), Crashed);
  }

  /** The first two crashes are retried. */
  lemma CrashRetried(start: State, before: seq<Action>, s: State) returns (a: seq<Action>)
    requires Run(start, before) == Some(s) && CrashRun(start, before) && CanCrash(s)
        && |s.handlers| + 1 < MAX_SOLVER_CRASH_DELIVERIES
    ensures Run(start, a) == Some(WithHandler(s, Ended(Naked), 1)) && CrashRun(start, a)
  {
    hide Run, CrashRun, Step, HandlerStep;
    a := CrashSolved(start, before, s);
    a := CrashGoesOn(start, a, s, Crashed, 1, CheckCrash, Naking);
    a := CrashGoesOn(start, a, s, Naking, 1, Nak, Ended(Naked));
  }

  lemma CrashStart(fromFile: bool) returns (a: seq<Action>, s: State)
    ensures Run(Init(fromFile), a) == Some(s) && CrashRun(Init(fromFile), a)
    ensures CanCrash(s) && s.handlers == []
  {
    var stored := Init(fromFile).(api := Uploaded, input := fromFile);
    var created := stored.(api := Created, row := Some(Row(Pending, None, 0, false)));
    s := created.(api := Returned, published := true);
    a := [];
    StartSteps(fromFile);
    hide Step, Run, CrashRun;
    a := CrashRequest(Init(fromFile), a, Init(fromFile), Upload(true), stored);
    a := CrashRequest(Init(fromFile), a, stored, Create(true), created);
    a := CrashRequest(Init(fromFile), a, created, Publish(true, true), s);
  }

  lemma CrashRequest(start: State, before: seq<Action>, s: State, request: Action, t: State) returns (a: seq<Action>)
    requires Run(start, before) == Some(s) && CrashRun(start, before)
    requires Step(s, request) == Some(t) && CrashesAlone(s, request)
    ensures Run(start, a) == Some(t) && CrashRun(start, a)
  {
    hide Step, CrashesAlone;
    CrashRunSnoc(start, before, request);
    a := before + [request];
  }

  lemma StartSteps(fromFile: bool)
    ensures var stored := Init(fromFile).(api := Uploaded, input := fromFile);
            var created := stored.(api := Created, row := Some(Row(Pending, None, 0, false)));
            && Run(Init(fromFile), []) == Some(Init(fromFile)) && CrashRun(Init(fromFile), [])
            && Step(Init(fromFile), Upload(true)) == Some(stored)
            && Step(stored, Create(true)) == Some(created)
            && Step(created, Publish(true, true)) == Some(created.(api := Returned, published := true))
  {
  }

  lemma SolvesSnoc(handlers: seq<Handler>, h: Handler)
    ensures Solves(handlers + [h]) == Solves(handlers) + h.solves
  {
    SnocFront(handlers, h);
  }

  /** Three solves do happen: two crashes that are retried and a third that is not. */
  lemma ThreeCrashes(fromFile: bool) returns (a: seq<Action>, s: State)
    ensures Run(Init(fromFile), a) == Some(s) && CrashRun(Init(fromFile), a) && Solves(s.handlers) == 3
  {
    hide Run, CrashRun, Step;
    a, s := CrashStart(fromFile);
    a := CrashRetried(Init(fromFile), a, s);
    var once := WithHandler(s, Ended(Naked), 1);
    a := CrashRetried(Init(fromFile), a, once);
    var twice := WithHandler(once, Ended(Naked), 1);
    a := CrashSolved(Init(fromFile), a, twice);
    SolvesSnoc(s.handlers, Handler(Ended(Naked), true, 1));
    SolvesSnoc(once.handlers, Handler(Ended(Naked), true, 1));
    SolvesSnoc(twice.handlers, Handler(Crashed, true, 1));
    s := WithHandler(twice, Crashed, 1);
  }
}
