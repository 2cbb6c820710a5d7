/**
 * The calls one handler and its heartbeat make on a message, in every interleaving: the event
 * loop runs one of the two at a time, up to its next `await`.
 */
module Settle {
  import opened Options
  import opened Sequences

  datatype Call = InProgress | Ack | Nak

  /** How the block that `_in_progress_until_done` guards was left. */
  datatype Exit = Finished | Transient | Unhandled | Cancelled

  datatype Main =
    | Received
    | Dropping                 // not decodable, or without an id: to be acked at once
    | Inside                   // `_process` is running
    | Leaving(exit: Exit)      // the heartbeat has been cancelled and is waited for
    | Left(exit: Exit)
    | Recording                // the catch-all's `save_failure`
    | Cleaning                 // settled; deleting the input
    | Over

  /** The heartbeat task. */
  datatype Heartbeat = NotCreated | NotStarted | Sleeping | Sending | Stopped

  datatype State = State(main: Main, heartbeat: Heartbeat, cancelled: bool, calls: seq<Call>)

  datatype Action =
    | Decode(valid: bool)
    | Drop
    | Leave(exit: Exit)
    | Waited
    | Settle(cleanup: bool)      // the `ack` or `nak` that follows the block
    | Record(saved: bool)
    | Delete
    | CancelHandler            // thrown into whatever the handler is awaiting
    | Beat                     // the heartbeat runs up to its next await
    | BeatEnds                 // its task ends, once cancelled

  function Init(): State {
    State(Received, NotCreated, false, [])
  }

  function Step(s: State, a: Action): Option<State> {
    match a
    case Decode(valid) =>
      if s.main != Received then None
      else if valid then Some(s.(main := Inside, heartbeat := NotStarted))
      else Some(s.(main := Dropping))
    case Drop => if s.main == Dropping then Some(s.(main := Over, calls := s.calls + [Ack])) else None
    case Leave(exit) =>
      if s.main == Inside && exit != Cancelled then Some(s.(main := Leaving(exit), cancelled := true)) else None
    case Waited =>
      if s.main.Leaving? && s.heartbeat == Stopped then Some(s.(main := Left(s.main.exit))) else None
    case Settle(cleanup) =>
      if !s.main.Left? then None
      else (
        match s.main.exit
        case Finished => Some(s.(main := if cleanup then Cleaning else Over, calls := s.calls + [Ack]))
        case Transient => Some(s.(main := Over, calls := s.calls + [Nak]))
        case Unhandled => Some(s.(main := Recording))
        case Cancelled => Some(s.(main := Over)))
    case Record(saved) =>
      if s.main != Recording then None
      else if saved then Some(s.(main := Over, calls := s.calls + [Ack]))
      else Some(s.(main := Over))
    case Delete => if s.main == Cleaning then Some(s.(main := Over)) else None
    case CancelHandler =>
      if s.main == Inside then Some(s.(main := Leaving(Cancelled), cancelled := true))
      else if s.main.Leaving? || s.main == Recording || s.main == Cleaning then Some(s.(main := Over))
      else None
    case Beat =>
      if s.cancelled then None
      else if s.heartbeat == NotStarted then Some(s.(heartbeat := Sleeping))
      else if s.heartbeat == Sleeping then Some(s.(heartbeat := Sending, calls := s.calls + [InProgress]))
      else if s.heartbeat == Sending then Some(s.(heartbeat := Sleeping))
      else None
    case BeatEnds =>
      if s.cancelled && s.heartbeat != Stopped && s.heartbeat != NotCreated then Some(s.(heartbeat := Stopped))
      else None
  }

  function Run(s: State, actions: seq<Action>): Option<State> {
    if actions == [] then Some(s)
    else
      match Run(s, actions[..|actions| - 1])
      case None => None
      case Some(before) => Step(before, actions[|actions| - 1])
  }

  /** Calls that only ask for more time. */
  predicate OnlyInProgress(calls: seq<Call>) {
    forall i :: 0 <= i < |calls| ==> calls[i] == InProgress
  }

  /** Any number of in-progress acks, then at most one ack or nak. */
  predicate IsSettleTrace(calls: seq<Call>) {
    OnlyInProgress(calls) || OnlyInProgress(calls[..|calls| - 1])
  }

  predicate HasSettled(calls: seq<Call>) {
    exists i :: 0 <= i < |calls| && calls[i] != InProgress
  }

  /** Past the block, where the message may be settled. */
  predicate IsPast(m: Main) {
    m.Left? || m == Recording || m == Cleaning || m == Over
  }

  predicate Kept(s: State) {
    && IsSettleTrace(s.calls)
    && (s.main == Received || s.main == Dropping ==> s.heartbeat == NotCreated && !s.cancelled && s.calls == [])
    && (s.main == Inside || s.main.Leaving? ==> s.heartbeat != NotCreated)
    && (s.main.Left? || s.main == Recording || s.main == Cleaning ==> s.heartbeat == Stopped)
    && (s.main == Inside ==> !s.cancelled)
    && (HasSettled(s.calls) ==> s.main == Cleaning || s.main == Over)
    && (s.main.Leaving? || s.main.Left? || s.main == Recording || s.main == Cleaning ==> s.cancelled)
    && (s.main == Over && s.heartbeat != NotCreated ==> s.cancelled)
  }

  lemma CallAdded(calls: seq<Call>, call: Call)
    requires OnlyInProgress(calls)
    ensures IsSettleTrace(calls + [call])
    ensures HasSettled(calls + [call]) <==> call != InProgress
    ensures call == InProgress ==> OnlyInProgress(calls + [call])
  {
    SnocFront(calls, call);
    assert (calls + [call])[|calls|] == call;
  }

  lemma StepKept(s: State, a: Action)
    requires Kept(s) && Step(s, a).Some?
    ensures Kept(Step(s, a).value)
  {
    hide IsSettleTrace, HasSettled, OnlyInProgress;
    NotSettled(s.calls);
    if !HasSettled(s.calls) {
      CallAdded(s.calls, InProgress);
      CallAdded(s.calls, Ack);
      CallAdded(s.calls, Nak);
    }
  }

  lemma NotSettled(calls: seq<Call>)
    ensures HasSettled(calls) || OnlyInProgress(calls)
  {
  }

  lemma {:induction false} RunKept(actions: seq<Action>)
    requires Run(Init(), actions).Some?
    ensures Kept(Run(Init(), actions).value)
  {
    if actions != [] {
      hide Kept, Step;
      var front := actions[..|actions| - 1];
      RunKept(front);
      StepKept(Run(Init(), front).value, actions[|actions| - 1]);
    }
  }

  /**
   * However handler, heartbeat, failures and a cancellation interleave, a message gets in-progress
   * acks, then at most one ack or nak, and no call after it.
   */
  lemma SettledOnce(actions: seq<Action>)
    requires Run(Init(), actions).Some?
    ensures IsSettleTrace(Run(Init(), actions).value.calls)
  {
    RunKept(actions);
  }

  lemma NothingAfter(actions: seq<Action>, a: Action)
    requires Run(Init(), actions).Some? && HasSettled(Run(Init(), actions).value.calls)
    requires Step(Run(Init(), actions).value, a).Some?
    ensures Step(Run(Init(), actions).value, a).value.calls == Run(Init(), actions).value.calls
  {
    RunKept(actions);
  }

  /** The heartbeat never outlives the block: what is left of it after the handler is over can only end. */
  lemma HeartbeatEnds(actions: seq<Action>)
    requires Run(Init(), actions).Some?
    ensures var s := Run(Init(), actions).value;
            IsPast(s.main) ==> Step(s, Beat).None?
  {
    RunKept(actions);
  }

  // ---- Which call settles the message ----

  /** The handler took the step that follows the wait for its heartbeat. */
  predicate WentOn(actions: seq<Action>) {
    Settle(true) in actions || Settle(false) in actions
  }

  /** The run left the block this way, and no other. */
  predicate LeftBy(actions: seq<Action>, exit: Exit) {
    forall e :: Leave(e) in actions <==> e == exit && e != Cancelled
  }

  predicate NeverLeft(actions: seq<Action>) {
    forall e :: Leave(e) !in actions
  }

  /** Ack and nak, by what happened in the run. */
  predicate CallsAsLeft(actions: seq<Action>, calls: seq<Call>) {
    && (Nak in calls <==> Leave(Transient) in actions && WentOn(actions))
    && (Ack in calls <==> Drop in actions || Record(true) in actions || (Leave(Finished) in actions && WentOn(actions)))
    && (Record(true) in actions ==> Leave(Unhandled) in actions)
  }

  /** What the point a handler is at says of the run so far. */
  predicate IsHistory(actions: seq<Action>, main: Main) {
    match main
    case Received => NeverLeft(actions) && !WentOn(actions) && Record(true) !in actions && Drop !in actions
    case Dropping => NeverLeft(actions) && !WentOn(actions) && Record(true) !in actions && Drop !in actions
    case Inside => NeverLeft(actions) && !WentOn(actions) && Record(true) !in actions && Drop !in actions
    case Leaving(exit) => LeftBy(actions, exit) && !WentOn(actions) && Record(true) !in actions && Drop !in actions
    case Left(exit) => LeftBy(actions, exit) && !WentOn(actions) && Record(true) !in actions && Drop !in actions
    case Recording => LeftBy(actions, Unhandled) && WentOn(actions) && Record(true) !in actions && Drop !in actions
    case _ => true
  }

  lemma HistoryGrows(front: seq<Action>, s: State, a: Action)
    requires Step(s, a).Some? && IsHistory(front, s.main)
    ensures IsHistory(front + [a], Step(s, a).value.main)
  {
    assert forall x :: x in front + [a] <==> x in front || x == a;
  }

  lemma CallsGrow(front: seq<Action>, s: State, a: Action)
    requires Step(s, a).Some? && IsHistory(front, s.main) && CallsAsLeft(front, s.calls)
    ensures CallsAsLeft(front + [a], Step(s, a).value.calls)
  {
    assert forall x :: x in front + [a] <==> x in front || x == a;
    assert forall c, d :: c in s.calls + [d] <==> c in s.calls || c == d;
  }

  /**
   * In every run: the message is nak'd if and only if the block was left with a transient failure
   * and the handler went on; it is acked if and only if it was dropped, the block finished and the
   * handler went on, or its unhandled failure was recorded.
   */
  lemma {:induction false} SettledAsLeft(actions: seq<Action>)
    requires Run(Init(), actions).Some?
    ensures CallsAsLeft(actions, Run(Init(), actions).value.calls)
    ensures IsHistory(actions, Run(Init(), actions).value.main)
  {
    if actions != [] {
      hide Step, CallsAsLeft, IsHistory;
      var front, last := actions[..|actions| - 1], actions[|actions| - 1];
      SettledAsLeft(front);
      HistoryGrows(front, Run(Init(), front).value, last);
      CallsGrow(front, Run(Init(), front).value, last);
      Unsnoc(actions);
    }
  }

  /** Only a message that cannot be read is dropped, and only one that can be is processed. */
  predicate AsDecoded(actions: seq<Action>, s: State) {
    && (Drop in actions ==> Decode(false) in actions && Decode(true) !in actions)
    && ((exists e :: Leave(e) in actions) || s.main == Inside || InProgress in s.calls ==>
          Decode(true) in actions && Decode(false) !in actions)
    && (s.main == Received ==> Decode(true) !in actions && Decode(false) !in actions)
    && (s.main == Dropping ==> Decode(false) in actions)
    && (Decode(true) in actions ==> Decode(false) !in actions)
    && (s.heartbeat != NotCreated <==> Decode(true) in actions)
    && (Delete in actions || s.main == Cleaning ==> Settle(true) in actions && Leave(Finished) in actions)
  }

  lemma DecodedGrows(front: seq<Action>, s: State, a: Action)
    requires Step(s, a).Some? && AsDecoded(front, s) && Kept(s) && IsHistory(front, s.main)
    ensures AsDecoded(front + [a], Step(s, a).value)
  {
    assert forall x :: x in front + [a] <==> x in front || x == a;
    assert forall c, d :: c in s.calls + [d] <==> c in s.calls || c == d;
  }

  /** In every run: dropped or processed as decoded, and the input is deleted only of a message that was settled so. */
  lemma {:induction false} SettledAsDecoded(actions: seq<Action>)
    requires Run(Init(), actions).Some?
    ensures AsDecoded(actions, Run(Init(), actions).value)
  {
    if actions != [] {
      hide Step, AsDecoded, IsHistory, Kept, CallsAsLeft;
      var front, last := actions[..|actions| - 1], actions[|actions| - 1];
      SettledAsDecoded(front);
      SettledAsLeft(front);
      RunKept(front);
      DecodedGrows(front, Run(Init(), front).value, last);
      Unsnoc(actions);
    }
  }

  /** While the block runs, the heartbeat can always go on. */
  lemma HeartbeatBeats(actions: seq<Action>)
    requires Run(Init(), actions).Some? && Run(Init(), actions).value.main == Inside
    ensures Step(Run(Init(), actions).value, Beat).Some?
  {
    RunKept(actions);
    NotStopped(actions);
  }

  lemma {:induction false} NotStopped(actions: seq<Action>)
    requires Run(Init(), actions).Some?
    ensures var s := Run(Init(), actions).value;
            s.heartbeat == Stopped ==> s.cancelled
  {
    if actions != [] {
      NotStopped(actions[..|actions| - 1]);
    }
  }

  /** A handler cancelled inside the block leaves the message to the broker. */
  lemma CancelledInside(actions: seq<Action>)
    requires Run(Init(), actions).Some? && NeverLeft(actions) && Drop !in actions
    ensures OnlyInProgress(Run(Init(), actions).value.calls)
  {
    SettledAsLeft(actions);
    var calls := Run(Init(), actions).value.calls;
    forall i | 0 <= i < |calls| ensures calls[i] == InProgress {
      assert calls[i] in calls;
    }
  }
}
