/**
 * The delivery protocol of one simulation: the request that uploads, commits and publishes it,
 * every delivery of its message to a worker, and a request that deletes it, interleaved step by
 * step. A step is one call that can fail or be observed from outside; the process running it can
 * stop between any two.
 */
module Protocol {
  import opened Options

  // ---- State ----

  datatype Status = Pending | Success | Failed

  /** The beginning of `error_message`. */
  datatype Reason =
    | FailedToQueue | DeliveryLimit | KeyNotFound | ObjectMissing | ParseFailed | CrmRejected
    | TooLarge | SolverCrashed | SimulationFailed | Unhandled

  /** The committed row, with the number of its result trees. */
  datatype Row = Row(status: Status, reason: Option<Reason>, trees: nat, resultKey: bool)

  /** Where the request that starts the simulation is. */
  datatype Api = Starting | Uploaded | CreateFailed | Created | Unpublished | Marked | Returned

  /** Where a request that deletes the simulation is, with the result key it read. */
  datatype Deletion =
    | NotDeleting | RowRead(resultKey: bool) | RowDeleted(resultKey: bool)
    | InputDeleted(resultKey: bool) | DeletionOver

  /**
   * A call of `save_failure`: what it records, whether the input is released after it, whether the
   * catch-all makes it.
   */
  datatype Write = Write(reason: Reason, cleanup: bool, last: bool)

  datatype End = Acked | Naked | Unsettled

  /** Where a handler is. The row is locked at `Claimed`, `ResultStored` and `FailureClaimed`. */
  datatype Point =
    | Arrived | Counting | ReadingKey | Loading | Sizing | Solving | Crashed
    | Claiming | Claimed | ResultStored | SuccessCommitted | SuccessLogged
    | Failing(write: Write) | FailureClaimed(write: Write)
    | FailureCommitted(write: Write) | FailureLogged(write: Write)
    | Acking(cleanup: bool) | Cleaning | Naking | Ended(end: End)

  /** One delivery being handled; whether its delivery count can be read, and how often it has solved. */
  datatype Handler = Handler(point: Point, readable: bool, solves: nat)

  /**
   * `handlers[i]` handles delivery number `i + 1`. `written` are the statuses worker commits
   * have set and `events` those announced, in order.
   */
  datatype State = State(
    fromFile: bool,
    api: Api,
    deletion: Deletion,
    row: Option<Row>,
    lock: Option<nat>,
    input: bool,
    resultStored: bool,
    published: bool,
    acked: bool,
    handlers: seq<Handler>,
    written: seq<Status>,
    events: seq<Status>)

  /** `_MAX_SOLVER_CRASH_DELIVERIES`, `_MAX_DELIVERIES` and `_MAX_DELIVER` */
  const MAX_SOLVER_CRASH_DELIVERIES := 3
  const MAX_DELIVERIES := 10
  const MAX_DELIVER := MAX_DELIVERIES + 1

  function Init(fromFile: bool): State {
    State(fromFile, Starting, NotDeleting, None, None, false, false, false, false, [], [], [])
  }

  // ---- Steps ----

  datatype SolveOutcome = Solved | SolverDied | SolveFailed

  /** What a handler can do next. `Raise` is any exception not known to be transient, `Stop` the death of the worker. */
  datatype Move =
    | Snapshot | Count | ReadKey(found: bool) | Transient | Load(accepted: bool) | Size(fits: bool)
    | Solve(outcome: SolveOutcome) | CheckCrash
    | Claim | StoreResult | Commit | Log | Emit(sent: bool)
    | Ack(arrives: bool) | DeleteFile(deleted: bool) | Nak
    | Raise | Stop

  datatype Action =
    | Upload(stored: bool) | Create(committed: bool) | DropUpload(deleted: bool)
    | Publish(arrives: bool, confirmed: bool) | MarkFailed | DropInput(deleted: bool) | ApiStops
    | Deliver(readable: bool)
    | Handle(handler: nat, move: Move)
    | ReadRow | DeleteRow | DeleteInput(deleted: bool) | DeleteResult(deleted: bool) | DeletionStops

  predicate IsPending(s: State) {
    s.row.Some? && s.row.value.status == Pending
  }

  predicate HoldsLock(p: Point) {
    p.Claimed? || p.ResultStored? || p.FailureClaimed?
  }

  function Fail(reason: Reason, cleanup: bool): Point {
    Failing(Write(reason, cleanup, false))
  }

  /** Where an exception takes a handler. */
  function AfterRaise(p: Point): Option<Point> {
    var unhandled := Failing(Write(Unhandled, false, true));
    match p
    case Arrived | ReadingKey | Loading => Some(unhandled)
    case Claiming | Claimed | ResultStored | SuccessCommitted => Some(Naking)
    case Failing(w) => Some(if w.last then Ended(Unsettled) else unhandled)
    case FailureClaimed(w) => Some(if w.last then Ended(Unsettled) else unhandled)
    case FailureCommitted(w) => Some(if w.last then Ended(Unsettled) else unhandled)
    case Acking(_) | Naking => Some(Ended(Unsettled))
    case _ => None
  }

  /** The UPDATE of `save_success` and `save_failure`: it waits for the lock, and flips a PENDING row only. */
  function AfterClaim(s: State, p: Point): Option<Point> {
    if s.lock.Some? then None
    else if p.Claiming? then Some(if IsPending(s) then Claimed else Acking(s.fromFile))
    else if p.Failing? then Some(if IsPending(s) then FailureClaimed(p.write) else Acking(p.write.cleanup))
    else None
  }

  function AfterLoad(s: State, accepted: bool): Point {
    if s.fromFile && !s.input then Fail(ObjectMissing, false)
    else if accepted then Sizing
    else if s.fromFile then Fail(ParseFailed, true)
    else Fail(CrmRejected, false)
  }

  function AfterSolve(s: State, outcome: SolveOutcome): Point {
    match outcome
    case Solved => Claiming
    case SolverDied => Crashed
    case SolveFailed => Fail(SimulationFailed, s.fromFile)
  }

  /** The control flow of `_handle_message` and what it calls; None where handler `i` cannot make this move. */
  function Next(s: State, i: nat, move: Move): Option<Point>
    requires i < |s.handlers|
  {
    var p, readable := s.handlers[i].point, s.handlers[i].readable;
    match move
    case Snapshot =>
      if !p.Arrived? then None
      else if IsPending(s) then Some(Counting)
      else Some(Acking(s.row.Some? && s.fromFile))
    case Count =>
      if !p.Counting? then None
      else if readable && i + 1 >= MAX_DELIVERIES then Some(Fail(DeliveryLimit, s.fromFile))
      else Some(ReadingKey)
    case ReadKey(found) =>
      if p.ReadingKey? then Some(if found then Loading else Fail(KeyNotFound, s.fromFile)) else None
    case Transient => if p.ReadingKey? || p.Loading? then Some(Naking) else None
    case Load(accepted) => if p.Loading? then Some(AfterLoad(s, accepted)) else None
    case Size(fits) => if p.Sizing? then Some(if fits then Solving else Fail(TooLarge, s.fromFile)) else None
    case Solve(outcome) => if p.Solving? then Some(AfterSolve(s, outcome)) else None
    case CheckCrash =>
      if !p.Crashed? then None
      else if readable && i + 1 < MAX_SOLVER_CRASH_DELIVERIES then Some(Naking)
      else Some(Fail(SolverCrashed, s.fromFile))
    case Claim => AfterClaim(s, p)
    case StoreResult => if p.Claimed? then Some(ResultStored) else None
    case Commit =>
      if s.lock != Some(i) || s.row.None? then None
      else if p.ResultStored? then Some(SuccessCommitted)
      else if p.FailureClaimed? then Some(FailureCommitted(p.write))
      else None
    case Log =>
      if p.SuccessCommitted? then Some(SuccessLogged)
      else if p.FailureCommitted? then Some(FailureLogged(p.write))
      else None
    case Emit(_) =>
      if p.SuccessLogged? then Some(Acking(s.fromFile))
      else if p.FailureLogged? then Some(Acking(p.write.cleanup))
      else None
    case Ack(_) => if p.Acking? then Some(if p.cleanup then Cleaning else Ended(Acked)) else None
    case DeleteFile(_) => if p.Cleaning? then Some(Ended(Acked)) else None
    case Nak => if p.Naking? then Some(Ended(Naked)) else None
    case Raise => AfterRaise(p)
    case Stop => if p.Ended? then None else Some(Ended(Unsettled))
  }

  /** The row a worker's commit leaves. */
  function Committed(row: Row, p: Point): Row {
    match p
    case ResultStored => row.(status := Success, reason := None, trees := row.trees + 1, resultKey := true)
    case FailureClaimed(w) => row.(status := Failed, reason := Some(w.reason))
    case _ => row
  }

  /** The session closes: an open transaction is rolled back. */
  function Release(s: State, i: nat): State {
    if s.lock == Some(i) then s.(lock := None) else s
  }

  /** What a move does outside the handler. */
  function Effect(s: State, i: nat, move: Move): (t: State)
    requires i < |s.handlers|
    ensures t.handlers == s.handlers
  {
    var p := s.handlers[i].point;
    match move
    case Claim => if IsPending(s) then s.(lock := Some(i)) else s
    case StoreResult => s.(resultStored := true)
    case Commit =>
      s.(lock := None,
         row := if s.row.None? then None else Some(Committed(s.row.value, p)),
         written := s.written + [if p.ResultStored? then Success else Failed])
    case Emit(sent) => if sent then s.(events := s.events + [if p.SuccessLogged? then Success else Failed]) else s
    case Ack(arrives) => s.(acked := s.acked || arrives)
    case DeleteFile(deleted) => s.(input := s.input && !deleted)
    case Raise | Stop => Release(s, i)
    case _ => s
  }

  function Moved(h: Handler, move: Move, point: Point): Handler {
    h.(point := point, solves := if move.Solve? then h.solves + 1 else h.solves)
  }

  function HandlerStep(s: State, i: nat, move: Move): Option<State>
    requires i < |s.handlers|
  {
    match Next(s, i, move)
    case None => None
    case Some(point) => Some(Effect(s, i, move).(handlers := s.handlers[i := Moved(s.handlers[i], move, point)]))
  }

  /** The request that starts the simulation. */
  function ApiStep(s: State, a: Action): Option<State> {
    match a
    case Upload(stored) =>
      if s.api != Starting then None
      else Some(s.(api := if stored then Uploaded else Returned, input := stored && s.fromFile))
    case Create(committed) =>
      if s.api != Uploaded then None
      else if committed then Some(s.(api := Created, row := Some(Row(Pending, None, 0, false))))
      else Some(s.(api := CreateFailed))
    case DropUpload(deleted) =>
      if s.api != CreateFailed then None else Some(s.(api := Returned, input := s.input && !deleted))
    case Publish(arrives, confirmed) =>
      if s.api != Created || (confirmed && !arrives) then None
      else Some(s.(api := if confirmed then Returned else Unpublished, published := arrives))
    case MarkFailed =>
      if s.api != Unpublished || s.lock.Some? then None
      else if s.row.None? then Some(s.(api := Marked))
      else Some(s.(api := Marked, row := Some(s.row.value.(status := Failed, reason := Some(FailedToQueue)))))
    case DropInput(deleted) =>
      if s.api != Marked then None else Some(s.(api := Returned, input := s.input && !deleted))
    case ApiStops => if s.api == Returned then None else Some(s.(api := Returned))
    case _ => None
  }

  /** The request that deletes it. */
  function DeletionStep(s: State, a: Action): Option<State> {
    match a
    case ReadRow =>
      if s.deletion != NotDeleting || s.row.None? then None
      else Some(s.(deletion := RowRead(s.row.value.resultKey)))
    case DeleteRow =>
      if !s.deletion.RowRead? || s.lock.Some? then None
      else Some(s.(deletion := RowDeleted(s.deletion.resultKey), row := None))
    case DeleteInput(deleted) =>
      if !s.deletion.RowDeleted? then None
      else Some(s.(deletion := InputDeleted(s.deletion.resultKey), input := s.input && !deleted))
    case DeleteResult(deleted) =>
      if !s.deletion.InputDeleted? then None
      else Some(s.(deletion := DeletionOver, resultStored := s.resultStored && !(deleted && s.deletion.resultKey)))
    case DeletionStops =>
      if s.deletion.NotDeleting? || s.deletion.DeletionOver? then None else Some(s.(deletion := DeletionOver))
    case _ => None
  }

  predicate IsDeletion(a: Action) {
    a.ReadRow? || a.DeleteRow? || a.DeleteInput? || a.DeleteResult? || a.DeletionStops?
  }

  /** The state after one action; None where the action cannot happen. */
  function Step(s: State, a: Action): Option<State> {
    match a
    case Handle(i, move) => if i < |s.handlers| then HandlerStep(s, i, move) else None
    case Deliver(readable) =>
      if !s.published || s.acked || |s.handlers| >= MAX_DELIVER then None
      else Some(s.(handlers := s.handlers + [Handler(Arrived, readable, 0)]))
    case _ => if IsDeletion(a) then DeletionStep(s, a) else ApiStep(s, a)
  }

  /** The state after a whole run; None where one of its actions cannot happen. */
  function Run(s: State, actions: seq<Action>): Option<State> {
    if actions == [] then Some(s)
    else
      match Run(s, actions[..|actions| - 1])
      case None => None
      case Some(before) => Step(before, actions[|actions| - 1])
  }
}
