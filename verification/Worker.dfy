/**
 * The handler of one delivery, written as the worker runs it: `_handle_message`, `_process`,
 * `save_success` and `save_failure`, with whatever else happens at each `await`. Every execution is
 * a run of the protocol.
 */
module Worker {
  import opened Options
  import opened Protocol
  import opened Outcomes
  import opened Histories
  import R = Records

  /** What an awaited call does: finishes, raises, fails in a way known to be transient, or never returns. */
  datatype Fate = Finishes | Raises | FailsForNow | Dies

  /** How a call came back to its caller. */
  datatype Back = Done | Threw | ThrewTransient | Gone

  /** How `_process` came back. */
  datatype Processed = Terminal | TransientError | UnhandledError | NotReturned

  class Delivery {
    const fromFile: bool
    const handler: nat
    /** What the others do at each await, and what becomes of each call. */
    const others: nat -> seq<Action>
    const fates: nat -> Fate
    const answers: nat -> bool
    const solutions: nat -> SolveOutcome
    var clock: nat
    var state: State
    /** The run so far, and what of it came before this handler was looked at. */
    ghost var trace: seq<Action>
    ghost const past: seq<Action>
    /** A call has thrown an exception that is not a transient one of a read, or has never come back. */
    ghost var broken: bool
    /** What a commit of this handler has made of the row, and for what reason. */
    ghost var committed: Option<Status>
    ghost var recorded: Option<Reason>

    /** The state is the one a run leads to, and this handler is part of it. */
    ghost predicate Valid()
      reads this
    {
      && handler < |state.handlers| && state.fromFile == fromFile
      && past <= trace && Run(Init(fromFile), trace) == Some(state)
      && (committed.Some? ==> committed.value != Pending && state.written == [committed.value])
      && IsDue() && (recorded.Some? ==> committed == Some(Failed) && HasReason(state, recorded.value))
    }

    /** A success was solved by this handler, and a failure has its cause in what this handler met. */
    ghost predicate IsDue()
      reads `committed, `recorded, `trace, `state
    {
      && (committed == Some(Success) ==> SolvedWell(fromFile, trace, handler))
      && (committed == Some(Failed) ==>
            recorded.Some? && IsCause(fromFile, trace, handler, Self().readable, recorded.value))
    }

    /** Where the handler is. */
    function At(): Point
      reads this
    {
      if handler < |state.handlers| then state.handlers[handler].point else Ended(Unsettled)
    }

    constructor (fromFile: bool, handler: nat, state: State, ghost trace: seq<Action>, others: nat -> seq<Action>,
          fates: nat -> Fate, answers: nat -> bool, solutions: nat -> SolveOutcome)
      requires handler < |state.handlers| && state.fromFile == fromFile && Run(Init(fromFile), trace) == Some(state)
      ensures Valid() && this.state == state && this.handler == handler && past == trace && !broken && committed == None
      ensures recorded == None
    {
      this.fromFile, this.handler, this.state, this.trace, this.past := fromFile, handler, state, trace, trace;
      this.others, this.fates, this.answers, this.solutions, this.clock := others, fates, answers, solutions, 0;
      broken, committed, recorded := false, None, None;
    }

    method Take(a: Action)
      requires Valid() && Step(state, a).Some?
      modifies `state, `trace
      ensures Valid() && state == Step(old(state), a).value && trace == old(trace) + [a]
    {
      hide Step, Run, IsCause, SolvedWell;
      StepStays(state, a);
      RunSnoc(Init(fromFile), trace, a);
      if committed.Some? {
        WrittenStays(fromFile, trace, a);
      }
      if committed == Some(Success) {
        R.SolvedGrows(fromFile, trace, a, handler);
      } else if committed == Some(Failed) {
        R.CauseGrows(fromFile, trace, a, handler, state.handlers[handler].readable, recorded.value);
        R.StepReadable(state, a, handler);
      }
      if recorded.Some? {
        ReasonStays(fromFile, trace, state, a, recorded.value);
      }
      state := Step(state, a).value;
      trace := trace + [a];
    }

    /** The others run. */
    method Await()
      requires Valid()
      modifies this
      ensures Valid() && state.handlers[handler] == old(state.handlers[handler])
      ensures broken == old(broken) && committed == old(committed) && recorded == old(recorded)
    {
      var steps := others(clock);
      clock := clock + 1;
      for k := 0 to |steps|
        invariant Valid() && state.handlers[handler] == old(state.handlers[handler])
        invariant broken == old(broken) && committed == old(committed) && recorded == old(recorded)
      {
        if Step(state, steps[k]).Some? && !(steps[k].Handle? && steps[k].handler == handler) {
          OthersLeave(state, steps[k], handler);
          Take(steps[k]);
        }
      }
    }

    /** This handler, with its delivery count. */
    function Self(): Handler
      reads `state
    {
      if handler < |state.handlers| then state.handlers[handler] else Handler(Ended(Unsettled), false, 0)
    }

    /** The call takes effect. */
    method Perform(m: Move)
      requires Valid() && CanCall(At(), m) && Next(state, handler, m).Some?
      modifies this
      ensures Valid() && broken == old(broken) && LeadsTo(old(At()), m, At(), fromFile)
      ensures Leads(fromFile, Handler(old(At()), old(Self()).readable, 0), handler, m, At())
      ensures committed == if m.Commit? then Some(Committing(old(At()))) else old(committed)
      ensures recorded == if m.Commit? then Recording(old(At())) else old(recorded)
    {
      hide Effect, Run, Next, Leads, LeadsTo, CanCall, IsDue, HasReason, IsCause, SolvedWell;
      ghost var point := At();
      NextLeads(state, handler, m);
      LeadsInShort(fromFile, Self(), handler, m, Next(state, handler, m).value);
      LeadsByPoint(fromFile, Self(), handler, m, Next(state, handler, m).value);
      ghost var before, run := state, trace;
      Take(Handle(handler, m));
      if m.Commit? {
        CommitLeads(fromFile, Handler(point, Self().readable, 0), handler, At());
        CommitWrites(state, handler, point);
        CommitIsDue(fromFile, run, before, handler);
        committed, recorded := Some(Committing(point)), Recording(point);
        ThisIsDue();
      }
    }

    /** The call fails, or the worker dies in it. */
    method Interrupt(m: Move)
      requires Valid() && (m.Stop? || m.Raise? || m.Transient?) && Next(state, handler, m).Some?
      modifies this
      ensures Valid() && broken == old(broken) && committed == old(committed) && recorded == old(recorded)
      ensures m.Stop? ==> At() == Ended(Unsettled)
      ensures m.Raise? ==> RaiseLeads(old(At()), At())
      ensures m.Transient? ==> At() == Naking
    {
      hide Effect, Run, Next;
      NextLeads(state, handler, m);
      Take(Handle(handler, m));
    }

    /** One awaited call. The UPDATE of a locked row is given up, as its statement timeout would. */
    method Call(m: Move) returns (back: Back)
      requires Valid() && CanCall(At(), m)
      modifies this
      ensures Valid() && broken == (old(broken) || back == Threw || back == Gone)
      ensures committed == if back == Done && m.Commit? then Some(Committing(old(At()))) else old(committed)
      ensures recorded == if back == Done && m.Commit? then Recording(old(At())) else old(recorded)
      ensures match back
              case Done =>
                && LeadsTo(old(At()), m, At(), fromFile)
                && Leads(fromFile, Handler(old(At()), old(Self()).readable, 0), handler, m, At())
              case Threw => RaiseLeads(old(At()), At())
              case ThrewTransient => (m.ReadKey? || m.Load?) && At() == Naking
              case Gone => At() == Ended(Unsettled)
    {
      hide Effect, Run, Step, IsDue, HasReason, CanCall, LeadsTo, Leads, RaiseLeads, Next;
      Await();
      CallEnabled(state, handler, m);
      var fate := fates(clock);
      if fate == Dies {
        Interrupt(Stop);
        broken, back := true, Gone;
      } else if fate == FailsForNow && (m.ReadKey? || m.Load?) {
        Interrupt(Protocol.Transient);
        back := ThrewTransient;
      } else if AfterRaise(At()).Some? && (fate == Raises || Next(state, handler, m).None?) {
        Interrupt(Raise);
        broken, back := true, Threw;
      } else {
        Perform(m);
        back := Done;
      }
    }

    /** A step of the handler that awaits nothing. */
    method Decide(m: Move)
      requires Valid() && ((At().Counting? && m == Count) || (At().Crashed? && m == CheckCrash)
          || (At().Sizing? && m.Size?))
      modifies this
      ensures Valid() && broken == old(broken) && committed == old(committed) && recorded == old(recorded)
      ensures LeadsTo(old(At()), m, At(), fromFile)
      ensures Leads(fromFile, Handler(old(At()), old(Self()).readable, 0), handler, m, At())
    {
      NextLeads(state, handler, m);
      Take(Handle(handler, m));
    }

    /** Once the message may be acked, the row is final and tells what this handler has committed. */
    lemma TellsRow()
      requires Valid() && Settles(At())
      ensures RowTells(state, committed, recorded)
    {
      ReachableKept(state);
      assert HandlerKept(state, handler);
      assert [Success][0] != [Failed][0];
    }

    /** `save_failure`. The claim is lost on a row that is final already; else the failure is committed. */
    method SaveFailure() returns (back: Back)
      requires Valid() && At().Failing?
      modifies this
      ensures Valid() && broken == (old(broken) || back == Threw || back == Gone)
      ensures (committed == old(committed) && recorded == old(recorded))
              || (committed == Some(Failed) && recorded == Some(old(At()).write.reason))
      ensures back == Done ==> RowTells(state, committed, recorded)
      ensures match back
              case Done => At() == Acking(old(At()).write.cleanup)
              case Threw =>
                At() == if old(At()).write.last then Ended(Unsettled) else Failing(Write(Unhandled, false, true))
              case ThrewTransient => false
              case Gone => At() == Ended(Unsettled)
    {
      hide Valid, IsDue, At, Self, Step, Run, Kept, Leads;
      back := Call(Claim);
      if back != Done { return; }
      if At().Acking? {
        TellsRow();
        return;
      }
      back := Call(Commit);
      if back != Done { return; }
      back := Announce();
    }

    /** The audit entry and the event that follow a commit. */
    method Announce() returns (back: Back)
      requires Valid() && (At().SuccessCommitted? || At().FailureCommitted?)
      modifies this
      ensures Valid() && broken == (old(broken) || back == Threw || back == Gone)
      ensures committed == old(committed) && recorded == old(recorded)
      ensures back == Done ==> RowTells(state, committed, recorded)
      ensures match back
              case Done => At() == Acking(if old(At()).FailureCommitted? then old(At()).write.cleanup else fromFile)
              case Threw => RaiseLeads(old(At()), At())
              case ThrewTransient => false
              case Gone => At() == Ended(Unsettled)
    {
      hide Valid, IsDue, At, Self, Step, Run, Kept, Leads;
      back := Call(Log);
      if back != Done { return; }
      back := Call(Emit(answers(clock)));
      if back == Done {
        TellsRow();
      }
    }

    /** `save_success`. The claim is lost on a row that is final already; else the success is committed. */
    method SaveSuccess() returns (back: Back)
      requires Valid() && At().Claiming?
      modifies this
      ensures Valid() && broken == (old(broken) || back == Threw || back == Gone)
      ensures (committed == old(committed) && recorded == old(recorded)) || committed == Some(Success)
      ensures back == Done ==> RowTells(state, committed, recorded)
      ensures match back
              case Done => At() == Acking(fromFile)
              case Threw => At() == Naking
              case ThrewTransient => false
              case Gone => At() == Ended(Unsettled)
    {
      hide Valid, IsDue, At, Self, Step, Run, Kept, Leads;
      back := Call(Claim);
      if back != Done { return; }
      if At().Acking? {
        TellsRow();
        return;
      }
      back := Call(StoreResult);
      if back != Done { return; }
      back := Call(Commit);
      if back != Done { return; }
      back := Announce();
    }

    /** A deterministic failure found by `_process`. */
    method FailProcess() returns (outcome: Processed)
      requires Valid() && At().Failing? && !At().write.last
      modifies this
      ensures Valid() && Stands(outcome, At()) && (outcome == NotReturned || outcome == UnhandledError ==> broken)
    {
      var back := SaveFailure();
      match back
      case Done => return Terminal;
      case Threw => return UnhandledError;
      case ThrewTransient => assert false;
      case Gone => return NotReturned;
    }

    /** The steps of `_process` before the solve: snapshot, delivery limit, key, input and its size. */
    method Prepare() returns (outcome: Option<Processed>)
      requires Valid() && At() == Arrived
      modifies this
      ensures Valid()
      ensures if outcome.Some? then Stands(outcome.value, At()) else At() == Solving
      ensures outcome == Some(NotReturned) || outcome == Some(UnhandledError) ==> broken
    {
      hide Valid, IsDue, At, Self, Step, Run, Kept, Leads, Recording, Committing;
      var back;
      back := Call(Snapshot);
      if back == Threw { return Some(UnhandledError); }
      if back == Gone { return Some(NotReturned); }
      if At().Acking? { return Some(Terminal); }
      Decide(Count);
      if At().Failing? {
        var failed := FailProcess();
        return Some(failed);
      }
      outcome := ReadInput();
    }

    /** Key, input and size. */
    method ReadInput() returns (outcome: Option<Processed>)
      requires Valid() && At() == ReadingKey
      modifies this
      ensures Valid()
      ensures if outcome.Some? then Stands(outcome.value, At()) else At() == Solving
      ensures outcome == Some(NotReturned) || outcome == Some(UnhandledError) ==> broken
    {
      hide Valid, IsDue, At, Self, Step, Run, Kept, Leads, Recording, Committing;
      var back;
      back := Call(ReadKey(answers(clock)));
      if back != Done { return Some(Unprocessed(back)); }
      if At().Failing? {
        var failed := FailProcess();
        return Some(failed);
      }
      back := Call(Load(answers(clock)));
      if back != Done { return Some(Unprocessed(back)); }
      if At().Failing? {
        var failed := FailProcess();
        return Some(failed);
      }
      Decide(Size(answers(clock)));
      if At().Failing? {
        var failed := FailProcess();
        return Some(failed);
      }
      return None;
    }

    /** `_process` */
    method Process() returns (outcome: Processed)
      requires Valid() && At() == Arrived
      modifies this
      ensures Valid() && Stands(outcome, At()) && (outcome == NotReturned || outcome == UnhandledError ==> broken)
      ensures IsDue()
    {
      hide Valid, IsDue, At, Self, Step, Run, Kept, Leads;
      var stopped := Prepare();
      if stopped.Some? {
        Due();
        return stopped.value;
      }
      var back;
      back := Call(Solve(solutions(clock)));
      if back == Gone {
        Due();
        return NotReturned;
      }
      if At().Crashed? {
        Decide(CheckCrash);
        if At() == Naking {
          Due();
          return TransientError;
        }
      }
      if At().Failing? {
        outcome := FailProcess();
        Due();
        return;
      }
      back := SaveSuccess();
      Due();
      if back == Done { return Terminal; }
      return if back == Threw then TransientError else NotReturned;
    }

    /** The ack, and the release of the input behind it. */
    method Acknowledge()
      requires Valid() && At().Acking?
      modifies this
      ensures Valid() && At().Ended?
      ensures At() == Ended(Unsettled) || old(broken) ==> broken
    {
      hide Valid, IsDue, At, Self, Step, Run, Kept, Leads;
      var back := Call(Ack(answers(clock)));
      if At().Cleaning? {
        back := Call(DeleteFile(answers(clock)));
      }
    }

    /** Only the clauses on the commit are left to be looked at. */
    lemma ThisIsDue()
      requires handler < |state.handlers|
      requires committed == Some(Success) ==> SolvedWell(fromFile, trace, handler)
      requires committed == Some(Failed) ==>
                 recorded.Some? && IsCause(fromFile, trace, handler, Self().readable, recorded.value)
      ensures IsDue()
    {
    }

    lemma Due()
      requires Valid()
      ensures IsDue()
    {
    }

    lemma EndsWell()
      requires Valid()
      ensures handler < |state.handlers| && state.handlers[handler].solves <= 1 && past <= trace
      ensures At() == Ended(Acked) ==> RowTells(state, committed, recorded)
      ensures Tells(fromFile, trace, handler, Self()) && IsDue()
    {
      ReachableKept(state);
      assert HandlerKept(state, handler);
      RunTells(fromFile, trace);
      hide Tells, IsCause, SolvedWell, Kept, Run;
      if At() == Ended(Acked) {
        TellsRow();
      }
    }

    /**
     * `_handle_message`, of a message that decodes. Whatever the others do and whichever calls
     * fail, the execution goes on with the run of the protocol before it, and ends; the delivery is
     * acked only when the row is final and tells what the handler has made of it, and left unsettled
     * only when a call threw or the worker died. A success is committed only after a solve that came
     * back with one, a failure only with a reason that was met, and how the delivery ends has its
     * cause in the handler's own calls.
     */
    method HandleMessage()
      requires Valid() && At() == Arrived
      modifies this
      ensures Valid()
      ensures handler < |state.handlers| && At().Ended? && state.handlers[handler].solves <= 1
      ensures past <= trace
      ensures At() == Ended(Acked) ==> RowTells(state, committed, recorded)
      ensures At() == Ended(Unsettled) ==> broken
      ensures committed == Some(Success) ==> SolvedWell(fromFile, trace, handler)
      ensures committed == Some(Failed) ==>
                recorded.Some? && IsCause(fromFile, trace, handler, Self().readable, recorded.value)
      ensures Tells(fromFile, trace, handler, Self())
    {
      hide Valid, At, Self, Step, Run, Kept, Leads;
      var outcome := Process();
      var back;
      if outcome == TransientError {
        back := Call(Nak);
      } else {
        if outcome == UnhandledError {
          back := SaveFailure();
        }
        if At().Acking? {
          Acknowledge();
        }
      }
      EndsWell();
    }
  }

  /** The status a commit at this point gives the row. */
  function Committing(p: Point): Status {
    if p.ResultStored? then Success else Failed
  }

  /** The reason it records. */
  function Recording(p: Point): Option<Reason> {
    if p.FailureClaimed? then Some(p.write.reason) else None
  }

  /** The row has this reason, unless it is gone or `_mark_failed_to_queue` has overwritten that. */
  predicate HasReason(s: State, reason: Reason) {
    s.row.Some? ==> s.row.value.reason == Some(reason) || s.row.value.reason == Some(FailedToQueue)
  }

  /**
   * The row is gone or not PENDING; with a commit of this handler it has the committed status and
   * the recorded reason, unless `_mark_failed_to_queue` has overwritten them.
   */
  predicate RowTells(s: State, committed: Option<Status>, recorded: Option<Reason>) {
    && IsFinal(s)
    && (recorded.Some? ==> HasReason(s, recorded.value))
    && (committed.Some? ==>
          && s.written == [committed.value]
          && (s.row.Some? && s.row.value.status != committed.value ==>
                s.row.value.status == Failed && s.row.value.reason == Some(FailedToQueue)))
  }

  /** A recorded reason is replaced by nothing but the marking of a row that could not be queued. */
  lemma ReasonStays(fromFile: bool, trace: seq<Action>, s: State, a: Action, reason: Reason)
    requires Run(Init(fromFile), trace) == Some(s) && Step(s, a).Some? && s.written != [] && HasReason(s, reason)
    ensures HasReason(Step(s, a).value, reason)
  {
    RunKept(fromFile, trace);
    WrittenIsFinal(s);
    assert Reachable(s);
    hide Kept, Run, Reachable;
    FinalStays(s, a);
    if a.MarkFailed? {
      R.MarkIsApi(s);
      R.ApiRow(s, a);
    }
    hide Step;
  }

  lemma WrittenIsFinal(s: State)
    requires Kept(s) && s.written != []
    ensures IsFinal(s)
  {
  }

  /** A commit is of a result that was solved, or of a failure that has its cause, and the row says so. */
  lemma CommitIsDue(fromFile: bool, trace: seq<Action>, s: State, i: nat)
    requires Run(Init(fromFile), trace) == Some(s) && i < |s.handlers| && HandlerStep(s, i, Commit).Some?
    ensures var p, all, t := s.handlers[i].point, trace + [Handle(i, Commit)], HandlerStep(s, i, Commit).value;
            if p.FailureClaimed? then
              IsCause(fromFile, all, i, t.handlers[i].readable, p.write.reason) && HasReason(t, p.write.reason)
            else p.ResultStored? && SolvedWell(fromFile, all, i)
  {
    RunTells(fromFile, trace);
    StillTells(fromFile, trace, s, i, Commit);
    hide Run, IsCause, SolvedWell, AllTell, AfterClaim, AfterLoad, AfterSolve, AfterRaise;
  }

  /** A worker's commit is the last one. */
  lemma WrittenStays(fromFile: bool, trace: seq<Action>, a: Action)
    requires Run(Init(fromFile), trace).Some? && Step(Run(Init(fromFile), trace).value, a).Some?
    requires |Run(Init(fromFile), trace).value.written| == 1
    ensures Step(Run(Init(fromFile), trace).value, a).value.written == Run(Init(fromFile), trace).value.written
  {
    RunKept(fromFile, trace);
    RunSnoc(Init(fromFile), trace, a);
    RunKept(fromFile, trace + [a]);
    hide Kept, Step;
    StepWrites(Run(Init(fromFile), trace).value, a);
    AtMostOneWritten(Run(Init(fromFile), trace + [a]).value);
  }

  lemma AtMostOneWritten(s: State)
    requires Kept(s)
    ensures |s.written| <= 1
  {
  }

  /** After its commit, the status a handler has committed is the one written. */
  lemma CommitWrites(s: State, i: nat, p: Point)
    requires Reachable(s) && i < |s.handlers|
    requires s.handlers[i].point == if p.FailureClaimed? then FailureCommitted(p.write) else SuccessCommitted
    requires p.FailureClaimed? || p.ResultStored?
    ensures s.written == [Committing(p)]
  {
    ReachableKept(s);
    assert HandlerKept(s, i);
    assert OwesEvent(s.handlers[i].point);
  }

  /** How a call that did not finish ends `_process`. */
  function Unprocessed(back: Back): Processed {
    match back
    case Done => Terminal
    case Threw => UnhandledError
    case ThrewTransient => TransientError
    case Gone => NotReturned
  }

  /** Where the handler is when `_process` is back. */
  predicate Stands(outcome: Processed, p: Point) {
    match outcome
    case Terminal => p.Acking?
    case TransientError => p == Naking
    case UnhandledError => p.Failing? && p.write.last
    case NotReturned => p == Ended(Unsettled)
  }

  /** The calls a handler makes at each of its points. */
  predicate CanCall(p: Point, m: Move) {
    match p
    case Arrived => m.Snapshot?
    case ReadingKey => m.ReadKey?
    case Loading => m.Load?
    case Solving => m.Solve?
    case Claiming => m.Claim?
    case Claimed => m.StoreResult?
    case ResultStored => m.Commit?
    case SuccessCommitted => m.Log?
    case SuccessLogged => m.Emit?
    case Failing(_) => m.Claim?
    case FailureClaimed(_) => m.Commit?
    case FailureCommitted(_) => m.Log?
    case FailureLogged(_) => m.Emit?
    case Acking(_) => m.Ack?
    case Cleaning => m.DeleteFile?
    case Naking => m.Nak?
    case _ => false
  }

  lemma CallGoesOn(s: State, i: nat, m: Move)
    requires i < |s.handlers| && HandlerKept(s, i) && BrokerKept(s) && CanCall(s.handlers[i].point, m)
    ensures Next(s, i, m).None? ==> m.Claim? && s.lock.Some? && AfterRaise(s.handlers[i].point).Some?
  {
    hide AfterLoad, AfterSolve, Bounded;
  }

  lemma Interruptible(s: State, i: nat, m: Move)
    requires i < |s.handlers| && CanCall(s.handlers[i].point, m)
    ensures Next(s, i, Stop) == Some(Ended(Unsettled)) && Next(s, i, Raise) == AfterRaise(s.handlers[i].point)
    ensures m.ReadKey? || m.Load? ==> Next(s, i, Protocol.Transient) == Some(Naking)
  {
    hide AfterLoad, AfterSolve, AfterClaim, AfterRaise;
  }

  /** A call can be made whatever the others did; only the UPDATE may have to wait for the lock. */
  lemma CallEnabled(s: State, i: nat, m: Move)
    requires Reachable(s) && i < |s.handlers| && CanCall(s.handlers[i].point, m)
    ensures Next(s, i, m).None? ==> m.Claim? && s.lock.Some? && AfterRaise(s.handlers[i].point).Some?
    ensures Next(s, i, Stop) == Some(Ended(Unsettled)) && Next(s, i, Raise) == AfterRaise(s.handlers[i].point)
    ensures m.ReadKey? || m.Load? ==> Next(s, i, Protocol.Transient) == Some(Naking)
  {
    hide Next, CanCall, HandlerKept, BrokerKept;
    ReachableKept(s);
    assert HandlerKept(s, i);
    CallGoesOn(s, i, m);
    Interruptible(s, i, m);
  }

  predicate IsFailure(p: Point) {
    p.Failing? && !p.write.last
  }

  /** The points a move can lead to, in short. */
  predicate LeadsTo(p: Point, m: Move, q: Point, fromFile: bool) {
    match m
    case Snapshot => q == Counting || q.Acking?
    case Count => q == ReadingKey || IsFailure(q)
    case ReadKey(_) => q == Loading || IsFailure(q)
    case Load(_) => q == Sizing || IsFailure(q)
    case Size(_) => q == Solving || IsFailure(q)
    case Solve(_) => q == Claiming || q == Crashed || IsFailure(q)
    case CheckCrash => q == Naking || IsFailure(q)
    case Claim =>
      if p.Failing? then q == FailureClaimed(p.write) || q == Acking(p.write.cleanup)
      else q == Claimed || q == Acking(fromFile)
    case StoreResult => q == ResultStored
    case Commit => q == if p.FailureClaimed? then FailureCommitted(p.write) else SuccessCommitted
    case Log => q == if p.FailureCommitted? then FailureLogged(p.write) else SuccessLogged
    case Emit(_) => q == Acking(if p.FailureLogged? then p.write.cleanup else fromFile)
    case Ack(_) => q == Cleaning || q == Ended(Acked)
    case DeleteFile(_) => q == Ended(Acked)
    case Nak => q == Ended(Naked)
    case _ => false
  }

  /** Nothing but its point and its count decides where a move takes a handler. */
  lemma LeadsByPoint(fromFile: bool, h: Handler, i: nat, m: Move, q: Point)
    requires Leads(fromFile, h, i, m, q)
    ensures Leads(fromFile, Handler(h.point, h.readable, 0), i, m, q)
  {
  }

  lemma CommitLeads(fromFile: bool, h: Handler, i: nat, q: Point)
    requires Leads(fromFile, h, i, Commit, q)
    ensures h.point.FailureClaimed? || h.point.ResultStored?
    ensures q == if h.point.FailureClaimed? then FailureCommitted(h.point.write) else SuccessCommitted
  {
  }

  lemma LeadsInShort(fromFile: bool, h: Handler, i: nat, m: Move, q: Point)
    requires Leads(fromFile, h, i, m, q) && CanCall(h.point, m)
    ensures LeadsTo(h.point, m, q, fromFile)
  {
  }

  lemma StepStays(s: State, a: Action)
    requires Step(s, a).Some?
    ensures |s.handlers| <= |Step(s, a).value.handlers| && Step(s, a).value.fromFile == s.fromFile
  {
    if a.Handle? {
      hide Next, Effect;
      EffectStays(s, a.handler, a.move);
    }
  }

  lemma EffectStays(s: State, i: nat, m: Move)
    requires i < |s.handlers|
    ensures Effect(s, i, m).fromFile == s.fromFile
  {
  }

  lemma OthersLeave(s: State, a: Action, i: nat)
    requires Step(s, a).Some? && i < |s.handlers| && !(a.Handle? && a.handler == i)
    ensures i < |Step(s, a).value.handlers| && Step(s, a).value.handlers[i] == s.handlers[i]
  {
    if !a.Handle? {
      RequestHandlers(s, a, i);
    }
  }
}
