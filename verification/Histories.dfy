/**
 * What a state tells of the calls made on the way to it: no outcome, reason, event or object without
 * the calls that make it, and none of these calls without its effect.
 */
module Histories {
  import opened Options
  import opened Sequences
  import opened Protocol
  import opened Outcomes

  // ---- What a handler has done, and seen ----

  predicate Did(actions: seq<Action>, i: nat, m: Move) {
    Handle(i, m) in actions
  }

  /** Handler `i` read the row when it was PENDING. */
  ghost predicate SawPending(fromFile: bool, actions: seq<Action>, i: nat) {
    exists k :: 0 <= k < |actions| && IsAt(fromFile, actions, k, Handle(i, Snapshot))
                && IsPending(Run(Init(fromFile), actions[..k]).value)
  }

  /** ... or when it was not there. */
  ghost predicate SawNoRow(fromFile: bool, actions: seq<Action>, i: nat) {
    exists k :: 0 <= k < |actions| && IsAt(fromFile, actions, k, Handle(i, Snapshot))
                && Run(Init(fromFile), actions[..k]).value.row.None?
  }

  /** It looked for its input when that was gone. */
  ghost predicate SawNoInput(fromFile: bool, actions: seq<Action>, i: nat) {
    exists k, accepted :: 0 <= k < |actions| && IsAt(fromFile, actions, k, Handle(i, Load(accepted)))
                && !Run(Init(fromFile), actions[..k]).value.input
  }

  ghost predicate IsAt(fromFile: bool, actions: seq<Action>, k: nat, a: Action) {
    k < |actions| && actions[k] == a && Run(Init(fromFile), actions[..k]).Some?
  }

  /** Everything a handler must have done before it solves. */
  ghost predicate Prepared(fromFile: bool, actions: seq<Action>, i: nat) {
    && SawPending(fromFile, actions, i) && Did(actions, i, Count)
    && Did(actions, i, ReadKey(true)) && Did(actions, i, Load(true)) && Did(actions, i, Size(true))
  }

  /** ... and before it saves a result. */
  ghost predicate SolvedWell(fromFile: bool, actions: seq<Action>, i: nat) {
    Prepared(fromFile, actions, i) && Did(actions, i, Solve(Solved))
  }

  /** The delivery count says that a crash is to be retried. */
  predicate Retries(readable: bool, i: nat) {
    readable && i + 1 < MAX_SOLVER_CRASH_DELIVERIES
  }

  /** ... or that the message is not to be processed again. */
  predicate IsLast(readable: bool, i: nat) {
    readable && i + 1 >= MAX_DELIVERIES
  }

  /** What must have happened to handler `i` for it to record a reason. */
  ghost predicate IsCause(fromFile: bool, actions: seq<Action>, i: nat, readable: bool, reason: Reason) {
    match reason
    case FailedToQueue => false
    case DeliveryLimit => IsLast(readable, i) && SawPending(fromFile, actions, i)
    case KeyNotFound => Did(actions, i, ReadKey(false))
    case ObjectMissing => fromFile && SawNoInput(fromFile, actions, i)
    case ParseFailed => fromFile && Did(actions, i, Load(false))
    case CrmRejected => !fromFile && Did(actions, i, Load(false))
    case TooLarge => Did(actions, i, Size(false))
    case SolverCrashed => Did(actions, i, Solve(SolverDied)) && !Retries(readable, i)
    case SimulationFailed => Did(actions, i, Solve(SolveFailed))
    case Unhandled => Did(actions, i, Raise)
  }

  /** A failure is recorded for its cause; the input is kept only when it was missing or nothing is known. */
  ghost predicate IsCaused(fromFile: bool, actions: seq<Action>, i: nat, readable: bool, w: Write) {
    && IsCause(fromFile, actions, i, readable, w.reason)
    && (w.last <==> w.reason == Unhandled)
    && (w.cleanup <==> fromFile && w.reason != ObjectMissing && w.reason != Unhandled)
  }

  /** Why an acked delivery need not have deleted its input. */
  ghost predicate KeepsInput(fromFile: bool, actions: seq<Action>, i: nat) {
    !fromFile || Did(actions, i, Raise) || SawNoInput(fromFile, actions, i) || SawNoRow(fromFile, actions, i)
  }

  /** Why a handler asks for another delivery. */
  ghost predicate AsksAgain(fromFile: bool, actions: seq<Action>, i: nat, readable: bool) {
    || Did(actions, i, Protocol.Transient)
    || (Did(actions, i, Solve(SolverDied)) && Retries(readable, i))
    || (SolvedWell(fromFile, actions, i) && Did(actions, i, Raise))
  }

  /** What the point a handler is at tells of its calls. */
  ghost predicate Tells(fromFile: bool, actions: seq<Action>, i: nat, h: Handler) {
    match h.point
    case Arrived => true
    case Counting => SawPending(fromFile, actions, i)
    case ReadingKey => SawPending(fromFile, actions, i) && Did(actions, i, Count)
    case Loading => SawPending(fromFile, actions, i) && Did(actions, i, Count) && Did(actions, i, ReadKey(true))
    case Sizing =>
      && SawPending(fromFile, actions, i) && Did(actions, i, Count)
      && Did(actions, i, ReadKey(true)) && Did(actions, i, Load(true))
    case Solving => Prepared(fromFile, actions, i)
    case Crashed => Prepared(fromFile, actions, i) && Did(actions, i, Solve(SolverDied))
    case Claiming => SolvedWell(fromFile, actions, i)
    case Claimed => SolvedWell(fromFile, actions, i)
    case ResultStored => SolvedWell(fromFile, actions, i) && Did(actions, i, StoreResult)
    case SuccessCommitted => SolvedWell(fromFile, actions, i) && Did(actions, i, Commit)
    case SuccessLogged => SolvedWell(fromFile, actions, i) && Did(actions, i, Commit)
    case Failing(w) => IsCaused(fromFile, actions, i, h.readable, w)
    case FailureClaimed(w) => IsCaused(fromFile, actions, i, h.readable, w)
    case FailureCommitted(w) => IsCaused(fromFile, actions, i, h.readable, w) && Did(actions, i, Commit)
    case FailureLogged(w) => IsCaused(fromFile, actions, i, h.readable, w) && Did(actions, i, Commit)
    case Acking(cleanup) => if cleanup then fromFile else KeepsInput(fromFile, actions, i)
    case Cleaning => SomeAck(actions, i)
    case Naking => AsksAgain(fromFile, actions, i, h.readable)
    case Ended(end) =>
      match end
      case Acked => SomeAck(actions, i) && (SomeDelete(actions, i) || KeepsInput(fromFile, actions, i))
      case Naked => AsksAgain(fromFile, actions, i, h.readable) && Did(actions, i, Nak)
      case Unsettled => Did(actions, i, Raise) || Did(actions, i, Stop)
  }

  predicate SomeAck(actions: seq<Action>, i: nat) {
    Did(actions, i, Ack(true)) || Did(actions, i, Ack(false))
  }

  predicate SomeDelete(actions: seq<Action>, i: nat) {
    Did(actions, i, DeleteFile(true)) || Did(actions, i, DeleteFile(false))
  }

  // ---- One more action ----

  lemma AtGrows(fromFile: bool, front: seq<Action>, a: Action, k: nat, b: Action)
    requires IsAt(fromFile, front, k, b)
    ensures IsAt(fromFile, front + [a], k, b) && (front + [a])[..k] == front[..k]
  {
    assert (front + [a])[..k] == front[..k];
  }

  lemma SeenGrows(fromFile: bool, front: seq<Action>, a: Action, i: nat)
    ensures SawPending(fromFile, front, i) ==> SawPending(fromFile, front + [a], i)
    ensures SawNoRow(fromFile, front, i) ==> SawNoRow(fromFile, front + [a], i)
    ensures SawNoInput(fromFile, front, i) ==> SawNoInput(fromFile, front + [a], i)
  {
    hide Run;
    forall k, b | IsAt(fromFile, front, k, b) ensures IsAt(fromFile, front + [a], k, b) {
      AtGrows(fromFile, front, a, k, b);
    }
    assert forall k :: 0 <= k < |front| ==> (front + [a])[..k] == front[..k];
  }

  lemma SeesNow(fromFile: bool, front: seq<Action>, i: nat, m: Move)
    requires Run(Init(fromFile), front).Some?
    ensures var s := Run(Init(fromFile), front).value;
            && (m == Snapshot && IsPending(s) ==> SawPending(fromFile, front + [Handle(i, m)], i))
            && (m == Snapshot && s.row.None? ==> SawNoRow(fromFile, front + [Handle(i, m)], i))
            && (m.Load? && !s.input ==> SawNoInput(fromFile, front + [Handle(i, m)], i))
  {
    hide Run;
    var a := Handle(i, m);
    assert (front + [a])[..|front|] == front && IsAt(fromFile, front + [a], |front|, a);
  }

  lemma TellsGrows(fromFile: bool, front: seq<Action>, a: Action, i: nat, h: Handler)
    requires Tells(fromFile, front, i, h)
    ensures Tells(fromFile, front + [a], i, h)
  {
    hide SawPending, SawNoRow, SawNoInput;
    SeenGrows(fromFile, front, a, i);
    assert forall m :: Did(front, i, m) ==> Did(front + [a], i, m);
  }

  // ---- The handler that moves ----

  /** Where a move takes a handler, as `_handle_message` and what it calls decide it. */
  predicate Leads(fromFile: bool, h: Handler, i: nat, m: Move, q: Point) {
    var p := h.point;
    match m
    case Snapshot => p.Arrived? && (q == Counting || q == Acking(false) || (q == Acking(true) && fromFile))
    case Count => p.Counting? && q == if IsLast(h.readable, i) then Fail(DeliveryLimit, fromFile) else ReadingKey
    case ReadKey(found) => p.ReadingKey? && q == if found then Loading else Fail(KeyNotFound, fromFile)
    case Transient => (p.ReadingKey? || p.Loading?) && q == Naking
    case Load(accepted) => p.Loading? && (IsMissing(fromFile, q) || q == Loaded(fromFile, accepted))
    case Size(fits) => p.Sizing? && q == if fits then Solving else Fail(TooLarge, fromFile)
    case Solve(outcome) => p.Solving? && q == AfterOutcome(fromFile, outcome)
    case CheckCrash => p.Crashed? && q == if Retries(h.readable, i) then Naking else Fail(SolverCrashed, fromFile)
    case Claim =>
      || (p.Claiming? && (q == Claimed || q == Acking(fromFile)))
      || (p.Failing? && (q == FailureClaimed(p.write) || q == Acking(p.write.cleanup)))
    case StoreResult => p.Claimed? && q == ResultStored
    case Commit => (p.ResultStored? && q == SuccessCommitted) || (p.FailureClaimed? && q == FailureCommitted(p.write))
    case Log => (p.SuccessCommitted? && q == SuccessLogged) || (p.FailureCommitted? && q == FailureLogged(p.write))
    case Emit(_) => (p.SuccessLogged? && q == Acking(fromFile)) || (p.FailureLogged? && q == Acking(p.write.cleanup))
    case Ack(_) => p.Acking? && q == if p.cleanup then Cleaning else Ended(Acked)
    case DeleteFile(_) => p.Cleaning? && q == Ended(Acked)
    case Nak => p.Naking? && q == Ended(Naked)
    case Raise => RaiseLeads(p, q)
    case Stop => q == Ended(Unsettled)
  }

  predicate IsMissing(fromFile: bool, q: Point) {
    fromFile && q == Fail(ObjectMissing, false)
  }

  function Loaded(fromFile: bool, accepted: bool): Point {
    if accepted then Sizing else if fromFile then Fail(ParseFailed, true) else Fail(CrmRejected, false)
  }

  function AfterOutcome(fromFile: bool, outcome: SolveOutcome): Point {
    match outcome
    case Solved => Claiming
    case SolverDied => Crashed
    case SolveFailed => Fail(SimulationFailed, fromFile)
  }

  /** An exception: a failed save of a result is retried, any other is recorded by the catch-all, once. */
  predicate RaiseLeads(p: Point, q: Point) {
    match p
    case Arrived | ReadingKey | Loading => q == Failing(Write(Unhandled, false, true))
    case Claiming | Claimed | ResultStored | SuccessCommitted => q == Naking
    case Failing(w) => q == AfterFailedSave(w)
    case FailureClaimed(w) => q == AfterFailedSave(w)
    case FailureCommitted(w) => q == AfterFailedSave(w)
    case Acking(_) | Naking => q == Ended(Unsettled)
    case _ => false
  }

  function AfterFailedSave(w: Write): Point {
    if w.last then Ended(Unsettled) else Failing(Write(Unhandled, false, true))
  }

  lemma NextLeads(s: State, i: nat, m: Move)
    requires i < |s.handlers| && Next(s, i, m).Some?
    ensures Leads(s.fromFile, s.handlers[i], i, m, Next(s, i, m).value)
  {
  }

  /** What only the state decides: whether the row is PENDING, and whether the input is there. */
  lemma NextSees(s: State, i: nat, m: Move)
    requires i < |s.handlers| && Next(s, i, m).Some?
    ensures m.Snapshot? ==> (Next(s, i, m).value == Counting <==> IsPending(s))
    ensures m.Snapshot? && Next(s, i, m).value == Acking(false) && s.fromFile ==> s.row.None?
    ensures m.Load? ==> (IsMissing(s.fromFile, Next(s, i, m).value) <==> s.fromFile && !s.input)
  {
  }

  /** A move of handler `i`, in the state some calls have led to. */
  ghost predicate IsMove(fromFile: bool, front: seq<Action>, s: State, i: nat, m: Move) {
    && Run(Init(fromFile), front) == Some(s) && s.fromFile == fromFile
    && i < |s.handlers| && Next(s, i, m).Some? && Tells(fromFile, front, i, s.handlers[i])
  }

  /** What the moving handler is then, and what it told before. */
  lemma StillTells(fromFile: bool, front: seq<Action>, s: State, i: nat, m: Move)
    requires IsMove(fromFile, front, s, i, m)
    ensures var all := front + [Handle(i, m)];
            Did(all, i, m) && Tells(fromFile, all, i, s.handlers[i])
  {
    hide Run, Next, Tells;
    TellsGrows(fromFile, front, Handle(i, m), i, s.handlers[i]);
  }

  lemma SnapshotTells(fromFile: bool, front: seq<Action>, s: State, i: nat, m: Move)
    requires IsMove(fromFile, front, s, i, m) && (m.Snapshot?)
    ensures Tells(fromFile, front + [Handle(i, m)], i, Moved(s.handlers[i], m, Next(s, i, m).value))
  {
    hide Run, Next, Did, IsCaused, AsksAgain, SomeAck, SomeDelete;
    NextLeads(s, i, m);
    StillTells(fromFile, front, s, i, m);
    NextSees(s, i, m);
    SeesNow(fromFile, front, i, m);
  }

  lemma ReadingTells(fromFile: bool, front: seq<Action>, s: State, i: nat, m: Move)
    requires IsMove(fromFile, front, s, i, m) && (m.Count? || m.ReadKey?)
    ensures Tells(fromFile, front + [Handle(i, m)], i, Moved(s.handlers[i], m, Next(s, i, m).value))
  {
    hide Run, Next, Did, SawPending, SawNoRow, SawNoInput, AsksAgain, KeepsInput, SolvedWell, SomeAck;
    NextLeads(s, i, m);
    StillTells(fromFile, front, s, i, m);
  }

  lemma TransientTells(fromFile: bool, front: seq<Action>, s: State, i: nat, m: Move)
    requires IsMove(fromFile, front, s, i, m) && (m.Transient?)
    ensures Tells(fromFile, front + [Handle(i, m)], i, Moved(s.handlers[i], m, Next(s, i, m).value))
  {
    hide Run, Next, Did, SawPending, SawNoRow, SawNoInput, IsCaused, KeepsInput, SomeAck;
    NextLeads(s, i, m);
    StillTells(fromFile, front, s, i, m);
  }

  lemma LoadingTells(fromFile: bool, front: seq<Action>, s: State, i: nat, m: Move)
    requires IsMove(fromFile, front, s, i, m) && (m.Load?)
    ensures Tells(fromFile, front + [Handle(i, m)], i, Moved(s.handlers[i], m, Next(s, i, m).value))
  {
    hide Run, Next, Did, SawPending, SawNoRow, AsksAgain, KeepsInput, SolvedWell, SomeAck;
    NextLeads(s, i, m);
    StillTells(fromFile, front, s, i, m);
    NextSees(s, i, m);
    SeesNow(fromFile, front, i, m);
  }

  lemma SizingTells(fromFile: bool, front: seq<Action>, s: State, i: nat, m: Move)
    requires IsMove(fromFile, front, s, i, m) && (m.Size?)
    ensures Tells(fromFile, front + [Handle(i, m)], i, Moved(s.handlers[i], m, Next(s, i, m).value))
  {
    hide Run, Next, Did, SawPending, SawNoRow, SawNoInput, AsksAgain, KeepsInput, SolvedWell, SomeAck;
    NextLeads(s, i, m);
    StillTells(fromFile, front, s, i, m);
  }

  lemma SolvingTells(fromFile: bool, front: seq<Action>, s: State, i: nat, m: Move)
    requires IsMove(fromFile, front, s, i, m) && (m.Solve?)
    ensures Tells(fromFile, front + [Handle(i, m)], i, Moved(s.handlers[i], m, Next(s, i, m).value))
  {
    hide Run, Next, Did, SawPending, SawNoRow, SawNoInput, AsksAgain, KeepsInput, Prepared, SomeAck;
    NextLeads(s, i, m);
    StillTells(fromFile, front, s, i, m);
  }

  lemma CrashTells(fromFile: bool, front: seq<Action>, s: State, i: nat, m: Move)
    requires IsMove(fromFile, front, s, i, m) && (m.CheckCrash?)
    ensures Tells(fromFile, front + [Handle(i, m)], i, Moved(s.handlers[i], m, Next(s, i, m).value))
  {
    hide Run, Next, Did, SawPending, SawNoRow, SawNoInput, KeepsInput, Prepared, SolvedWell, SomeAck;
    NextLeads(s, i, m);
    StillTells(fromFile, front, s, i, m);
  }

  lemma ClaimTells(fromFile: bool, front: seq<Action>, s: State, i: nat, m: Move)
    requires IsMove(fromFile, front, s, i, m) && (m.Claim?)
    ensures Tells(fromFile, front + [Handle(i, m)], i, Moved(s.handlers[i], m, Next(s, i, m).value))
  {
    hide Run, Next, Did, SawPending, SawNoRow, SawNoInput, AsksAgain, SolvedWell, SomeAck;
    NextLeads(s, i, m);
    StillTells(fromFile, front, s, i, m);
  }

  lemma CommitTells(fromFile: bool, front: seq<Action>, s: State, i: nat, m: Move)
    requires IsMove(fromFile, front, s, i, m) && (m.StoreResult? || m.Commit? || m.Log?)
    ensures Tells(fromFile, front + [Handle(i, m)], i, Moved(s.handlers[i], m, Next(s, i, m).value))
  {
    hide Run, Next, Did, SawPending, SawNoRow, SawNoInput, AsksAgain, KeepsInput, SolvedWell, IsCaused, SomeAck;
    NextLeads(s, i, m);
    StillTells(fromFile, front, s, i, m);
  }

  lemma EmitTells(fromFile: bool, front: seq<Action>, s: State, i: nat, m: Move)
    requires IsMove(fromFile, front, s, i, m) && (m.Emit?)
    ensures Tells(fromFile, front + [Handle(i, m)], i, Moved(s.handlers[i], m, Next(s, i, m).value))
  {
    hide Run, Next, Did, SawPending, SawNoRow, SawNoInput, AsksAgain, SolvedWell, SomeAck;
    NextLeads(s, i, m);
    StillTells(fromFile, front, s, i, m);
  }

  lemma EndingTells(fromFile: bool, front: seq<Action>, s: State, i: nat, m: Move)
    requires IsMove(fromFile, front, s, i, m) && (m.Ack? || m.DeleteFile? || m.Nak?)
    ensures Tells(fromFile, front + [Handle(i, m)], i, Moved(s.handlers[i], m, Next(s, i, m).value))
  {
    hide Run, Next, Did, SawPending, SawNoRow, SawNoInput, AsksAgain, SolvedWell, IsCaused;
    NextLeads(s, i, m);
    StillTells(fromFile, front, s, i, m);
  }

  lemma StopTells(fromFile: bool, front: seq<Action>, s: State, i: nat, m: Move)
    requires IsMove(fromFile, front, s, i, m) && (m.Stop?)
    ensures Tells(fromFile, front + [Handle(i, m)], i, Moved(s.handlers[i], m, Next(s, i, m).value))
  {
    hide Run, Next, Did, SawPending, SawNoRow, SawNoInput, AsksAgain, SolvedWell, IsCaused, KeepsInput;
    NextLeads(s, i, m);
    StillTells(fromFile, front, s, i, m);
  }

  lemma RaiseTells(fromFile: bool, front: seq<Action>, s: State, i: nat, m: Move)
    requires IsMove(fromFile, front, s, i, m) && (m.Raise?)
    ensures Tells(fromFile, front + [Handle(i, m)], i, Moved(s.handlers[i], m, Next(s, i, m).value))
  {
    hide Run, Next, Did, SawPending, SawNoRow, SawNoInput, KeepsInput, Prepared, SomeAck;
    NextLeads(s, i, m);
    StillTells(fromFile, front, s, i, m);
  }

  lemma MoveTells(fromFile: bool, front: seq<Action>, s: State, i: nat, m: Move)
    requires IsMove(fromFile, front, s, i, m)
    ensures Tells(fromFile, front + [Handle(i, m)], i, Moved(s.handlers[i], m, Next(s, i, m).value))
  {
    hide IsMove, Tells, Run, Next;
    match m {
      case Snapshot => SnapshotTells(fromFile, front, s, i, m);
      case Count => ReadingTells(fromFile, front, s, i, m);
      case ReadKey(_) => ReadingTells(fromFile, front, s, i, m);
      case Transient => TransientTells(fromFile, front, s, i, m);
      case Load(_) => LoadingTells(fromFile, front, s, i, m);
      case Size(_) => SizingTells(fromFile, front, s, i, m);
      case Solve(_) => SolvingTells(fromFile, front, s, i, m);
      case CheckCrash => CrashTells(fromFile, front, s, i, m);
      case Claim => ClaimTells(fromFile, front, s, i, m);
      case Emit(_) => EmitTells(fromFile, front, s, i, m);
      case Ack(_) => EndingTells(fromFile, front, s, i, m);
      case DeleteFile(_) => EndingTells(fromFile, front, s, i, m);
      case Nak => EndingTells(fromFile, front, s, i, m);
      case Raise => RaiseTells(fromFile, front, s, i, m);
      case Stop => StopTells(fromFile, front, s, i, m);
      case _ => CommitTells(fromFile, front, s, i, m);
    }
  }

  // ---- Every run ----

  ghost predicate AllTell(fromFile: bool, actions: seq<Action>, s: State) {
    s.fromFile == fromFile && forall i :: 0 <= i < |s.handlers| ==> Tells(fromFile, actions, i, s.handlers[i])
  }

  lemma StepTells(fromFile: bool, front: seq<Action>, s: State, a: Action)
    requires Run(Init(fromFile), front) == Some(s) && AllTell(fromFile, front, s) && Step(s, a).Some?
    ensures AllTell(fromFile, front + [a], Step(s, a).value)
  {
    var t := Step(s, a).value;
    StepSource(s, a);
    hide Tells, Run, Next, Effect, ApiStep, DeletionStep;
    forall i | 0 <= i < |t.handlers| ensures Tells(fromFile, front + [a], i, t.handlers[i]) {
      if a.Handle? && a.handler == i {
        MoveTells(fromFile, front, s, i, a.move);
      } else if i < |s.handlers| {
        if !a.Handle? {
          RequestHandlers(s, a, i);
        }
        TellsGrows(fromFile, front, a, i, s.handlers[i]);
      } else {
        ArrivalTells(fromFile, front + [a], s, a, i);
      }
    }
  }

  lemma ArrivalTells(fromFile: bool, all: seq<Action>, s: State, a: Action, i: nat)
    requires Step(s, a).Some? && |s.handlers| <= i < |Step(s, a).value.handlers|
    ensures Tells(fromFile, all, i, Step(s, a).value.handlers[i])
  {
    if !a.Handle? {
      FreshArrives(s, a);
    }
  }

  lemma FreshArrives(s: State, a: Action)
    requires Step(s, a).Some? && !a.Handle?
    ensures var t := Step(s, a).value;
            t.handlers == s.handlers || (a.Deliver? && t.handlers == s.handlers + [Handler(Arrived, a.readable, 0)])
  {
    hide ApiStep, DeletionStep;
    if IsDeletion(a) {
      DeletionHandlers(s, a);
    } else if !a.Deliver? {
      ApiHandlers(s, a);
    }
  }

  lemma DeletionHandlers(s: State, a: Action)
    requires DeletionStep(s, a).Some?
    ensures DeletionStep(s, a).value.handlers == s.handlers && DeletionStep(s, a).value.fromFile == s.fromFile
  {
  }

  lemma ApiHandlers(s: State, a: Action)
    requires ApiStep(s, a).Some?
    ensures ApiStep(s, a).value.handlers == s.handlers && ApiStep(s, a).value.fromFile == s.fromFile
  {
  }

  lemma StepSource(s: State, a: Action)
    requires Step(s, a).Some?
    ensures Step(s, a).value.fromFile == s.fromFile
  {
    hide Next, ApiStep, DeletionStep;
    if a.Handle? {
      EffectSource(s, a.handler, a.move);
      hide Effect;
    } else if IsDeletion(a) {
      DeletionHandlers(s, a);
    } else if !a.Deliver? {
      ApiHandlers(s, a);
    }
  }

  lemma EffectSource(s: State, i: nat, m: Move)
    requires i < |s.handlers|
    ensures Effect(s, i, m).fromFile == s.fromFile
  {
  }

  /** In every run, the point each handler is at tells of its calls. */
  lemma {:induction false} RunTells(fromFile: bool, actions: seq<Action>)
    requires Run(Init(fromFile), actions).Some?
    ensures AllTell(fromFile, actions, Run(Init(fromFile), actions).value)
  {
    if actions != [] {
      hide Step, AllTell;
      var front, last := actions[..|actions| - 1], actions[|actions| - 1];
      RunTells(fromFile, front);
      StepTells(fromFile, front, Run(Init(fromFile), front).value, last);
      Unsnoc(actions);
    }
  }
}
