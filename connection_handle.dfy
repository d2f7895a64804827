/**
 * `ConnectionHandle`: the per-connection state machine of the network layer. `Delta`
 * is its transition table; `Accept` runs it, performing the action of each transition
 * until an action asks for nothing more; `HandleEvent` turns a libevent callback into
 * the transition that starts such a run.
 */
module ConnectionHandle {
  import opened Wrappers

  /** `ConnState`. */
  datatype ConnState = READ | PROCESS | WRITE | CLOSING

  /** `Transition`: what an action asks the state machine to do next. */
  datatype Transition =
    | NONE | WAKEUP | PROCEED | NEED_READ | NEED_READ_TIMEOUT | NEED_RESULT | NEED_WRITE | TERMINATE

  /** The actions a transition can perform on the handle. */
  datatype Action =
    | WaitForRead | WaitForReadWithTimeout | WaitForWrite | WaitForTerrier
    | Process | GetResult | TryRead | TryWrite | TryCloseConnection

  /** `TransitionResult`, or the `runtime_error("Undefined transition!")` thrown for a pair the table lacks. */
  datatype DeltaResult = Next(state: ConnState, action: Action) | Undefined

  /** `TransitionForRead`. */
  function TransitionForRead(t: Transition): DeltaResult
  {
    match t
    case NEED_READ => Next(READ, WaitForRead)
    case NEED_READ_TIMEOUT => Next(READ, WaitForReadWithTimeout)
    case NEED_WRITE => Next(READ, WaitForWrite)
    case PROCEED => Next(PROCESS, Process)
    case TERMINATE => Next(CLOSING, TryCloseConnection)
    case WAKEUP => Next(READ, TryRead)
    case _ => Undefined
  }

  /** `TransitionForProcess`. */
  function TransitionForProcess(t: Transition): DeltaResult
  {
    match t
    case NEED_READ => Next(READ, TryRead)
    case NEED_READ_TIMEOUT => Next(READ, WaitForReadWithTimeout)
    case NEED_RESULT => Next(PROCESS, WaitForTerrier)
    case PROCEED => Next(WRITE, TryWrite)
    case TERMINATE => Next(CLOSING, TryCloseConnection)
    case WAKEUP => Next(PROCESS, GetResult)
    case _ => Undefined
  }

  /** `TransitionForWrite`. */
  function TransitionForWrite(t: Transition): DeltaResult
  {
    match t
    case NEED_READ => Next(WRITE, WaitForRead)
    case NEED_WRITE => Next(WRITE, WaitForWrite)
    case PROCEED => Next(PROCESS, Process)
    case TERMINATE => Next(CLOSING, TryCloseConnection)
    case WAKEUP => Next(WRITE, TryWrite)
    case _ => Undefined
  }

  /** `TransitionForClosing`. */
  function TransitionForClosing(t: Transition): DeltaResult
  {
    match t
    case NEED_READ => Next(WRITE, WaitForRead)
    case NEED_WRITE => Next(WRITE, WaitForWrite)
    case TERMINATE => Next(CLOSING, TryCloseConnection)
    case WAKEUP => Next(CLOSING, TryCloseConnection)
    case _ => Undefined
  }

  /**
   * `StateMachine::Delta`: dispatches on the current state alone. Termination always
   * leads to closing; a wake-up never changes the state; proceeding cycles
   * read -> process -> write -> process; and the table leaves exactly these pairs undefined.
   */
  function Delta(state: ConnState, t: Transition): (r: DeltaResult)
    ensures t == TERMINATE ==> r == Next(CLOSING, TryCloseConnection)
    ensures t == WAKEUP ==> r.Next? && r.state == state
    ensures t == PROCEED ==>
      r == match state
           case READ => Next(PROCESS, Process)
           case PROCESS => Next(WRITE, TryWrite)
           case WRITE => Next(PROCESS, Process)
           case CLOSING => Undefined
    ensures r.Undefined? <==>
      || t == NONE
      || (state == READ && t == NEED_RESULT)
      || (state == PROCESS && t == NEED_WRITE)
      || (state == WRITE && (t == NEED_READ_TIMEOUT || t == NEED_RESULT))
      || (state == CLOSING && (t == PROCEED || t == NEED_READ_TIMEOUT || t == NEED_RESULT))
  {
    match state
    case READ => TransitionForRead(t)
    case PROCESS => TransitionForProcess(t)
    case WRITE => TransitionForWrite(t)
    case CLOSING => TransitionForClosing(t)
  }

  /** What an action did when `Accept` ran it: returned a transition, or threw `NetworkProcessException`. */
  datatype ActionOutcome = Returned(t: Transition) | Raised

  /** The transition `Accept` continues with: an exception becomes `TERMINATE`. */
  function NextTransition(o: ActionOutcome): (t: Transition)
    ensures o.Raised? ==> t == TERMINATE
    ensures o.Returned? ==> t == o.t
  {
    match o
    case Returned(t) => t
    case Raised => TERMINATE
  }

  /**
   * How a run of `Accept` ended: an action returned `NONE`; `Delta` threw for an
   * undefined pair; or the list of action outcomes ran out (an artifact of the model,
   * which takes the actions' results as an input list).
   */
  datatype AcceptStatus = Completed | UndefinedTransition | OutOfInput

  /** The state a run of `Accept` leaves, the actions it performed in order, and how it ended. */
  datatype AcceptRun = AcceptRun(finalState: ConnState, performed: seq<Action>, status: AcceptStatus)

  /**
   * The run of `Accept` from `state` on transition `next`, when the actions it performs
   * have the outcomes `outcomes`, one per action, in order.
   */
  function Run(state: ConnState, next: Transition, outcomes: seq<ActionOutcome>): AcceptRun
    decreases |outcomes|
  {
    if next == NONE then AcceptRun(state, [], Completed)
    else match Delta(state, next)
      case Undefined => AcceptRun(state, [], UndefinedTransition)
      case Next(s, a) =>
        if outcomes == [] then AcceptRun(s, [], OutOfInput)
        else
          var rest := Run(s, NextTransition(outcomes[0]), outcomes[1..]);
          AcceptRun(rest.finalState, [a] + rest.performed, rest.status)
  }

  /**
   * A run that completes stops at the first action that returned `NONE`: the last
   * action it performed returned `NONE` and none before it did.
   */
  lemma {:induction false} CompletedRunStopsAtFirstNone(state: ConnState, next: Transition, outcomes: seq<ActionOutcome>)
    requires next != NONE
    requires Run(state, next, outcomes).status == Completed
    ensures var n := |Run(state, next, outcomes).performed|;
      && 0 < n <= |outcomes|
      && outcomes[n - 1] == Returned(NONE)
      && forall k :: 0 <= k < n - 1 ==> NextTransition(outcomes[k]) != NONE
    decreases |outcomes|
  {
    var d := Delta(state, next);
    var o0 := outcomes[0];
    var t1 := NextTransition(o0);
    if t1 != NONE {
      CompletedRunStopsAtFirstNone(d.state, t1, outcomes[1..]);
      var n := |Run(state, next, outcomes).performed|;
      forall k | 0 <= k < n - 1 ensures NextTransition(outcomes[k]) != NONE {
        if k > 0 { assert outcomes[k] == outcomes[1..][k - 1]; }
      }
    }
  }

  /** Conversely, if the first action returns `NONE`, the run completes after performing just that action. */
  lemma {:induction false} FirstNoneCompletes(state: ConnState, next: Transition, outcomes: seq<ActionOutcome>)
    requires Delta(state, next).Next?
    requires |outcomes| > 0 && outcomes[0] == Returned(NONE)
    ensures Run(state, next, outcomes) ==
      AcceptRun(Delta(state, next).state, [Delta(state, next).action], Completed)
  {
    assert NextTransition(outcomes[0]) == NONE;
  }

  /**
   * An action that throws sends the connection to closing: the next action performed is
   * `TryCloseConnection` from the closing state, whatever state the machine was in.
   */
  lemma RaisedLeadsToClose(state: ConnState, next: Transition, o: ActionOutcome, rest: seq<ActionOutcome>)
    requires Delta(state, next).Next? && o.Raised?
    ensures var run := Run(state, next, [o] + rest);
      |run.performed| >= 1 && run.performed[0] == Delta(state, next).action &&
      (rest != [] ==> |run.performed| >= 2 && run.performed[1] == TryCloseConnection) &&
      (rest == [] ==> run == AcceptRun(CLOSING, [Delta(state, next).action], OutOfInput))
  {
    assert ([o] + rest)[1..] == rest;
  }

  /** The actions that only re-arm or stop the connection's events and then wait. */
  predicate IsWait(a: Action)
  {
    a.WaitForRead? || a.WaitForReadWithTimeout? || a.WaitForWrite? || a.WaitForTerrier?
  }

  /**
   * The outcomes the code of each action can have. Any action may throw (the event
   * helpers and the I/O wrapper raise `NetworkProcessException`); otherwise the four
   * waits return `NONE`, `GetResult` returns `PROCEED`, `TryCloseConnection` returns
   * what closing asked for or `NONE` and so never `PROCEED`, and `Process`, `TryRead`
   * and `TryWrite` return whatever the interpreter or the socket decides.
   */
  predicate Admissible(a: Action, o: ActionOutcome)
  {
    match o
    case Raised => true
    case Returned(t) =>
      if IsWait(a) then t == NONE
      else if a == GetResult then t == PROCEED
      else if a == TryCloseConnection then t != PROCEED
      else true
  }

  /** Every action performed had an outcome its code can produce. */
  predicate OutcomesFit(performed: seq<Action>, outcomes: seq<ActionOutcome>)
  {
    forall k :: 0 <= k < |performed| && k < |outcomes| ==> Admissible(performed[k], outcomes[k])
  }

  /** The outcomes `TryCloseConnection` can return are exactly those `CloseResult` produces. */
  lemma CloseOutcomesAdmissible(r: Transition)
    ensures (exists close :: CloseResult(close) == r) <==> Admissible(TryCloseConnection, Returned(r))
  {
    if r != PROCEED {
      assert CloseResult(r) == r;
    }
  }

  /** A run performs at most one action per outcome. */
  lemma {:induction false} PerformedWithinOutcomes(state: ConnState, next: Transition, outcomes: seq<ActionOutcome>)
    ensures |Run(state, next, outcomes).performed| <= |outcomes|
    decreases |outcomes|
  {
    if next != NONE && Delta(state, next).Next? && outcomes != [] {
      PerformedWithinOutcomes(Delta(state, next).state, NextTransition(outcomes[0]), outcomes[1..]);
    }
  }

  /** The first action of a run, and the fit of the rest once the first outcome is spent. */
  lemma RunFirstStep(state: ConnState, next: Transition, outcomes: seq<ActionOutcome>)
    requires next != NONE && Delta(state, next).Next? && outcomes != []
    requires OutcomesFit(Run(state, next, outcomes).performed, outcomes)
    ensures var rest := Run(Delta(state, next).state, NextTransition(outcomes[0]), outcomes[1..]);
      && Run(state, next, outcomes).performed == [Delta(state, next).action] + rest.performed
      && Admissible(Delta(state, next).action, outcomes[0])
      && OutcomesFit(rest.performed, outcomes[1..])
  {
    var d := Delta(state, next);
    var rest := Run(d.state, NextTransition(outcomes[0]), outcomes[1..]);
    var p := Run(state, next, outcomes).performed;
    assert p == [d.action] + rest.performed;
    assert Admissible(p[0], outcomes[0]);
    forall k | 0 <= k < |rest.performed| && k < |outcomes[1..]|
      ensures Admissible(rest.performed[k], outcomes[1..][k])
    {
      assert p[k + 1] == rest.performed[k] && outcomes[1..][k] == outcomes[k + 1];
      assert Admissible(p[k + 1], outcomes[k + 1]);
    }
  }

  /**
   * A wait hands control back to the event loop: with outcomes the actions can have, a
   * wait that returns ends the run, so every wait before the last action performed threw.
   */
  lemma {:induction false} WaitsEndRuns(state: ConnState, next: Transition, outcomes: seq<ActionOutcome>)
    requires OutcomesFit(Run(state, next, outcomes).performed, outcomes)
    ensures var p := Run(state, next, outcomes).performed;
      forall k :: 0 <= k < |p| - 1 && IsWait(p[k]) ==> k < |outcomes| && outcomes[k].Raised?
    decreases |outcomes|
  {
    PerformedWithinOutcomes(state, next, outcomes);
    if next != NONE && Delta(state, next).Next? && outcomes != [] {
      var d := Delta(state, next);
      RunFirstStep(state, next, outcomes);
      var rest := Run(d.state, NextTransition(outcomes[0]), outcomes[1..]);
      WaitsEndRuns(d.state, NextTransition(outcomes[0]), outcomes[1..]);
      var p := Run(state, next, outcomes).performed;
      forall k | 0 <= k < |p| - 1 && IsWait(p[k]) ensures k < |outcomes| && outcomes[k].Raised? {
        if k == 0 {
          assert NextTransition(outcomes[0]) != NONE by {
            assert |rest.performed| > 0;
          }
        } else {
          assert p[k] == rest.performed[k - 1];
          assert outcomes[k] == outcomes[1..][k - 1];
        }
      }
    }
  }

  /**
   * `GetResult` is always followed by writing the result: when it returns, the machine
   * proceeds from processing to `TryWrite` in the write state.
   */
  lemma {:induction false} GetResultThenWrite(state: ConnState, next: Transition, outcomes: seq<ActionOutcome>)
    requires OutcomesFit(Run(state, next, outcomes).performed, outcomes)
    ensures var p := Run(state, next, outcomes).performed;
      forall k :: 0 <= k < |p| - 1 && k < |outcomes| && p[k] == GetResult && outcomes[k].Returned? ==> p[k + 1] == TryWrite
    decreases |outcomes|
  {
    PerformedWithinOutcomes(state, next, outcomes);
    if next != NONE && Delta(state, next).Next? && outcomes != [] {
      var d := Delta(state, next);
      RunFirstStep(state, next, outcomes);
      var rest := Run(d.state, NextTransition(outcomes[0]), outcomes[1..]);
      GetResultThenWrite(d.state, NextTransition(outcomes[0]), outcomes[1..]);
      var p := Run(state, next, outcomes).performed;
      forall k | 0 <= k < |p| - 1 && k < |outcomes| && p[k] == GetResult && outcomes[k].Returned?
        ensures p[k + 1] == TryWrite
      {
        if k == 0 {
          assert d.state == PROCESS && NextTransition(outcomes[0]) == PROCEED;
          PerformedWithinOutcomes(d.state, NextTransition(outcomes[0]), outcomes[1..]);
          assert rest.performed[0] == TryWrite;
        } else {
          assert p[k] == rest.performed[k - 1] && p[k + 1] == rest.performed[k];
          assert outcomes[k] == outcomes[1..][k - 1];
        }
      }
    }
  }

  /**
   * A wake-up while reading for more input (`NEED_READ` from the read state) re-arms the
   * read event and the run is over after that one action, unless the re-arming throws.
   */
  lemma ReadWaitCompletes(outcomes: seq<ActionOutcome>)
    requires outcomes != [] && Admissible(WaitForRead, outcomes[0]) && outcomes[0].Returned?
    ensures Run(READ, NEED_READ, outcomes) == AcceptRun(READ, [WaitForRead], Completed)
  {
    FirstNoneCompletes(READ, NEED_READ, outcomes);
  }

  /**
   * `whole` is what a run that has already performed `performed` and is left in `state`
   * with `next` to apply and `outcomes` to come will have done in all.
   */
  predicate RunsAs(whole: AcceptRun, performed: seq<Action>, state: ConnState, next: Transition, outcomes: seq<ActionOutcome>)
  {
    var run := Run(state, next, outcomes);
    whole.finalState == run.finalState && whole.performed == performed + run.performed && whole.status == run.status
  }

  /** One round of `Accept`'s loop: `Delta` throws, the outcomes run out, or one more action is performed. */
  lemma AcceptStep(whole: AcceptRun, performed: seq<Action>, state: ConnState, next: Transition,
                   outcomes: seq<ActionOutcome>, i: nat)
    requires i <= |outcomes| && next != NONE && RunsAs(whole, performed, state, next, outcomes[i..])
    ensures Delta(state, next).Undefined? ==>
      whole.finalState == state && whole.performed == performed && whole.status == UndefinedTransition
    ensures Delta(state, next).Next? && i == |outcomes| ==>
      whole.finalState == Delta(state, next).state && whole.performed == performed && whole.status == OutOfInput
    ensures Delta(state, next).Next? && i < |outcomes| ==>
      RunsAs(whole, performed + [Delta(state, next).action], Delta(state, next).state,
             NextTransition(outcomes[i]), outcomes[i + 1..])
  {
    if Delta(state, next).Next? && i < |outcomes| {
      assert outcomes[i..][1..] == outcomes[i + 1..];
      var rest := Run(Delta(state, next).state, NextTransition(outcomes[i]), outcomes[i + 1..]);
      assert performed + ([Delta(state, next).action] + rest.performed)
          == (performed + [Delta(state, next).action]) + rest.performed;
    }
  }

  /** `ConnectionHandle::StateMachine`: the current state, updated by `Accept`. */
  class StateMachine {
    var currentState: ConnState

    /** A fresh machine waits for reads. */
    constructor ()
      ensures currentState == READ
    {
      currentState := READ;
    }

    /**
     * `Accept(action, handle)`: applies `Delta` and performs the resulting action until
     * an action returns `NONE`. The state is updated before the action runs; an action
     * that throws `NetworkProcessException` is followed by `TERMINATE`; an undefined pair
     * leaves `Accept` with the state as it was.
     */
    method Accept(action: Transition, outcomes: seq<ActionOutcome>) returns (performed: seq<Action>, status: AcceptStatus)
      requires OutcomesFit(Run(currentState, action, outcomes).performed, outcomes)
      modifies this
      ensures var run := Run(old(currentState), action, outcomes);
        currentState == run.finalState && performed == run.performed && status == run.status
    {
      ghost var whole := Run(currentState, action, outcomes);
      var state, next, i := currentState, action, 0;
      performed := [];
      while next != NONE
        invariant 0 <= i <= |outcomes| && RunsAs(whole, performed, state, next, outcomes[i..])
        decreases |outcomes| - i
      {
        AcceptStep(whole, performed, state, next, outcomes, i);
        var result := Delta(state, next);
        if result.Undefined? {
          currentState := state;
          return performed, UndefinedTransition;
        }
        state := result.state;
        if i == |outcomes| {
          currentState := state;
          return performed, OutOfInput;
        }
        performed := performed + [result.action];
        next := NextTransition(outcomes[i]);
        i := i + 1;
      }
      currentState := state;
      status := Completed;
    }
  }

  /** libevent's `EV_TIMEOUT` flag. */
  const EV_TIMEOUT: bv16 := 0x01

  /** The transition `HandleEvent` feeds the machine: `TERMINATE` for a timeout, `WAKEUP` for anything else. */
  function EventTransition(flags: bv16): (t: Transition)
    ensures t == TERMINATE || t == WAKEUP
    ensures t == TERMINATE <==> flags & EV_TIMEOUT != 0
  {
    if flags & EV_TIMEOUT != 0 then TERMINATE else WAKEUP
  }

  /** `TryCloseConnection`'s result given what `io_wrapper_->Close()` returned. */
  function CloseResult(close: Transition): (r: Transition)
    ensures close != PROCEED ==> r == close
    ensures close == PROCEED ==> r == NONE
  {
    if close != PROCEED then close else NONE
  }

  /** `TryWrite`'s result given whether there is data to flush and what flushing returned. */
  function WriteResult(shouldFlush: bool, flushed: Transition): (r: Transition)
    ensures !shouldFlush ==> r == PROCEED
    ensures shouldFlush ==> r == flushed
  {
    if shouldFlush then flushed else PROCEED
  }

  /**
   * What `TryWrite`'s result does to the run that performed it, `o` being the outcome of
   * the action after it: with nothing to flush, or once the flush went through, the
   * machine goes back to `Process` in the processing state; a flush that must wait for the
   * socket re-arms the write event and hands the connection back to the event loop; a
   * flush that returns `NONE` ends the run there.
   */
  lemma TryWriteSteers(state: ConnState, next: Transition, shouldFlush: bool, flushed: Transition,
                       o: ActionOutcome, rest: seq<ActionOutcome>)
    requires Delta(state, next) == Next(WRITE, TryWrite)
    ensures var run := Run(state, next, [Returned(WriteResult(shouldFlush, flushed)), o] + rest);
      && ((!shouldFlush || flushed == PROCEED) ==>
            var after := Run(PROCESS, NextTransition(o), rest);
            run == AcceptRun(after.finalState, [TryWrite, Process] + after.performed, after.status))
      && (shouldFlush && flushed == NEED_WRITE && o.Returned? && Admissible(WaitForWrite, o) ==>
            run == AcceptRun(WRITE, [TryWrite, WaitForWrite], Completed))
      && (shouldFlush && flushed == NONE ==> run == AcceptRun(WRITE, [TryWrite], Completed))
  {
    var w := WriteResult(shouldFlush, flushed);
    assert [Returned(w), o] + rest == [Returned(w)] + ([o] + rest);
    RunStep(state, next, Returned(w), [o] + rest);
    if !shouldFlush || flushed == PROCEED {
      WrittenThenProcess(o, rest);
    } else if flushed == NEED_WRITE && o.Returned? && Admissible(WaitForWrite, o) {
      RunStep(WRITE, NEED_WRITE, o, rest);
      assert NextTransition(o) == NONE;
    }
  }

  /** After a write that went through, the machine processes the next request. */
  lemma WrittenThenProcess(o: ActionOutcome, rest: seq<ActionOutcome>)
    ensures var after := Run(PROCESS, NextTransition(o), rest);
      [TryWrite] + Run(WRITE, PROCEED, [o] + rest).performed == [TryWrite, Process] + after.performed
      && Run(WRITE, PROCEED, [o] + rest).finalState == after.finalState
      && Run(WRITE, PROCEED, [o] + rest).status == after.status
  {
    RunStep(WRITE, PROCEED, o, rest);
    var after := Run(PROCESS, NextTransition(o), rest);
    assert [TryWrite] + ([Process] + after.performed) == [TryWrite, Process] + after.performed;
  }

  /** One step of a run: the action `Delta` picks, then the run on that action's outcome. */
  lemma RunStep(state: ConnState, next: Transition, o: ActionOutcome, rest: seq<ActionOutcome>)
    requires next != NONE && Delta(state, next).Next?
    ensures var tail := Run(Delta(state, next).state, NextTransition(o), rest);
      Run(state, next, [o] + rest) == AcceptRun(tail.finalState, [Delta(state, next).action] + tail.performed, tail.status)
  {
    assert ([o] + rest)[1..] == rest;
  }

  /** A libevent event registered for the connection. */
  datatype EventRef = EventRef(id: nat)

  class ConnectionHandle {
    var stateMachine: StateMachine
    var connectionId: nat
    /** `network_event_`, `workpool_event_`: null is `None`. */
    var networkEvent: Option<EventRef>
    var workpoolEvent: Option<EventRef>
    /** The events handed to `UnregisterEvent`, in order. */
    var unregistered: seq<Option<EventRef>>
    /** How many times the protocol interpreter was torn down. */
    var teardowns: nat

    constructor (connectionId: nat)
      ensures fresh(stateMachine) && stateMachine.currentState == READ
      ensures this.connectionId == connectionId
      ensures networkEvent == None && workpoolEvent == None && unregistered == [] && teardowns == 0
    {
      stateMachine := new StateMachine();
      this.connectionId := connectionId;
      networkEvent, workpoolEvent := None, None;
      unregistered, teardowns := [], 0;
    }

    /** `HandleEvent(fd, flags)`: runs the machine on the transition the event flags call for. */
    method HandleEvent(flags: bv16, outcomes: seq<ActionOutcome>) returns (performed: seq<Action>, status: AcceptStatus)
      requires OutcomesFit(Run(stateMachine.currentState, EventTransition(flags), outcomes).performed, outcomes)
      modifies stateMachine
      ensures var run := Run(old(stateMachine.currentState), EventTransition(flags), outcomes);
        stateMachine.currentState == run.finalState && performed == run.performed && status == run.status
    {
      var t: Transition;
      if flags & EV_TIMEOUT != 0 {
        t := TERMINATE;
      } else {
        t := WAKEUP;
      }
      performed, status := stateMachine.Accept(t, outcomes);
    }

    /**
     * `TryCloseConnection`: tears the interpreter down and closes the socket; if closing
     * asked for something else, returns that; otherwise unregisters the network event and
     * then the worker-pool event, and returns `NONE`.
     */
    method TryCloseConnection(close: Transition) returns (r: Transition)
      modifies this
      ensures r == CloseResult(close)
      ensures teardowns == old(teardowns) + 1
      ensures unregistered == old(unregistered) + (if close == PROCEED then [networkEvent, workpoolEvent] else [])
      ensures stateMachine == old(stateMachine) && connectionId == old(connectionId)
      ensures networkEvent == old(networkEvent) && workpoolEvent == old(workpoolEvent)
    {
      teardowns := teardowns + 1;
      if close != PROCEED {
        return close;
      }
      unregistered := unregistered + [networkEvent, workpoolEvent];
      r := NONE;
    }

    /** `ResetForReuse`: a fresh state machine, no registered events, the new connection id. */
    method ResetForReuse(connectionId: nat)
      modifies this
      ensures fresh(stateMachine) && stateMachine.currentState == READ
      ensures this.connectionId == connectionId
      ensures networkEvent == None && workpoolEvent == None
      ensures unregistered == old(unregistered) && teardowns == old(teardowns)
    {
      stateMachine := new StateMachine();
      networkEvent, workpoolEvent := None, None;
      this.connectionId := connectionId;
    }
  }
}
