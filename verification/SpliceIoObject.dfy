/** `SpliceIo` of `src/io/mod.rs`: the polling loop itself, proved to be a run of the
    step relation, to terminate, and to deliver. */
module SpliceIoObject {
  import opened Basics
  import opened SpliceContext
  import opened TransferMachine
  import opened Environment
  import opened Conservation
  import opened Delivery
  import opened Progress
  import opened KernelCalls
  import opened KernelObject
  import opened SpliceCtxObject

  datatype TransferReport = TransferReport(tx: nat, rx: nat, error: Option<IoError>)

  /** One loop iteration as events: perhaps an arm, then the iteration's own event. */
  function Iteration(armed: bool, arm: Event, ev: Event): seq<Event> {
    if armed then [arm, ev] else [ev]
  }

  /** The calls of one loop iteration. */
  function IterationCalls(m: Machine, armed: bool, arm: Event, ev: Event): seq<Call> {
    (if armed then [Call.Armed(arm)] else []) + Calls(m, ev)
  }

  lemma {:induction false} IterationLog(s: System, armed: bool, arm: Event, ev: Event)
    requires IsArm(arm)
    ensures LogOf(s, Iteration(armed, arm, ev)) == IterationCalls(s.machine, armed, arm, ev)
  {
    var t := WhenArmed(s, armed, arm);
    assert [ev][1..] == [] && LogOf(t, [ev]) == Calls(t.machine, ev) + LogOf(Next(t, ev), []);
    if armed {
      assert [arm, ev][1..] == [ev];
    }
  }

  /** The state in which an iteration's own event happens. */
  function WhenArmed(s: System, armed: bool, arm: Event): System {
    if armed then Next(s, arm) else s
  }

  lemma {:induction false} IterationRun(s: System, armed: bool, arm: Event, ev: Event)
    requires IsArm(arm)
    requires Legal(WhenArmed(s, armed, arm), ev)
    ensures var evs, t := Iteration(armed, arm, ev), WhenArmed(s, armed, arm);
            && LegalRun(s, evs) && Exec(s, evs) == Next(t, ev)
            && evs[|evs| - 1] == ev && Exec(s, evs[..|evs| - 1]) == t
            && Count(s, evs[..|evs| - 1], IsReturn) == 0
            && (Returned(t, ev).None? ==> Count(s, evs, IsReturn) == 0)
  {
    var evs, t := Iteration(armed, arm, ev), WhenArmed(s, armed, arm);
    ExecSingle(t, ev);
    assert [ev][1..] == [];
    assert Count(t, [ev], IsReturn) == Bit(IsReturn(t, ev)) + Count(Next(t, ev), [], IsReturn);
    if armed {
      assert evs[1..] == [ev] && evs[..1] == [arm] && [arm][1..] == [];
      ExecSingle(s, arm);
      assert Count(s, [arm], IsReturn) == 0 + Count(t, [], IsReturn);
    } else {
      assert evs[..0] == [];
    }
  }

  /** Appending an iteration to the events of a call so far. */
  lemma {:induction false} ExtendCall(s: System, trace: seq<Event>, evs: seq<Event>, result: Option<PollResult>)
    requires evs != [] && LegalRun(s, trace) && Count(s, trace, IsReturn) == 0
    requires LegalRun(Exec(s, trace), evs) && Count(Exec(s, trace), evs[..|evs| - 1], IsReturn) == 0
    requires Returned(Exec(Exec(s, trace), evs[..|evs| - 1]), evs[|evs| - 1]) == result
    requires result.None? ==> Count(Exec(s, trace), evs, IsReturn) == 0
    ensures LegalRun(s, trace + evs) && Exec(s, trace + evs) == Exec(Exec(s, trace), evs)
    ensures if result.Some? then IsPoll(s, trace + evs, result.value) else Count(s, trace + evs, IsReturn) == 0
  {
    ExecAppend(s, trace, evs);
    CountAppend(s, trace, evs, IsReturn);
    var k := |evs| - 1;
    assert (trace + evs)[..|trace + evs| - 1] == trace + evs[..k];
    CountAppend(s, trace, evs[..k], IsReturn);
    ExecAppend(s, trace, evs[..k]);
  }

  lemma {:induction false} ArmKeepsInv(s0: System, s: System, armed: bool, arm: Event)
    requires Init(s0) && Inv(s0, s) && IsArm(arm)
    requires armed ==> !(if arm.ArmRead? then s.world.readReady else s.world.writeReady)
    ensures Inv(s0, WhenArmed(s, armed, arm))
    ensures Variant(s0, WhenArmed(s, armed, arm)) == Variant(s0, s) + 3 * Bit(armed)
  {
    if armed {
      StepKeepsInv(s0, s, arm);
    }
  }

  /** `now` is reached from `s` by `trace`, without a return yet. */
  ghost predicate CallSoFar(s0: System, s: System, trace: seq<Event>, now: System) {
    && Init(s0) && Inv(s0, s) && Inv(s0, now)
    && LegalRun(s, trace) && Exec(s, trace) == now && Count(s, trace, IsReturn) == 0
  }

  /** `trace` is one whole call from `s` to `now` with the given result, a legal run of
      the step relation, and its iterations that do not spin are bounded in number. */
  ghost predicate CallDone(s0: System, s: System, trace: seq<Event>, now: System, result: PollResult) {
    && IsPoll(s, trace, result) && Exec(s, trace) == now
    && Count(s, trace, IsIteration) <= PollBound(s0, s, trace) + Count(s, trace, Spins)
  }

  ghost function VariantOf(s0: System, s: System): nat {
    if Inv(s0, s) then Variant(s0, s) else 0
  }

  /** What the last event of a history returned, if it returned. */
  ghost function LastReturned(s0: System, history: seq<Event>): Option<PollResult> {
    if history == [] then None
    else Returned(Exec(s0, history[..|history| - 1]), history[|history| - 1])
  }

  /** The result a report was made from. */
  function ResultOf(report: TransferReport): PollResult {
    if report.error.Some? then ReadyErr(report.error.value) else ReadyOk
  }

  lemma {:induction false} PollIsLast(s0: System, past: seq<Event>, trace: seq<Event>, result: PollResult)
    requires IsPoll(Exec(s0, past), trace, result)
    ensures LastReturned(s0, past + trace) == Some(result)
  {
    var k := |trace| - 1;
    assert (past + trace)[..|past + trace| - 1] == past + trace[..k];
    ExecAppend(s0, past, trace[..k]);
  }

  /** All that one iteration adds: to the history, to the call, and, if it does not
      return, to the termination argument. */
  lemma {:induction false} AfterIteration(s0: System, history: seq<Event>, s: System, trace: seq<Event>,
                       armed: bool, arm: Event, ev: Event)
    requires LegalRun(s0, history) && CallSoFar(s0, s, trace, Exec(s0, history))
    requires IsArm(arm) && !IsArm(ev)
    requires var w := Exec(s0, history).world; armed ==> !(if arm.ArmRead? then w.readReady else w.writeReady)
    requires var t := WhenArmed(Exec(s0, history), armed, arm); Legal(t, ev)
    ensures var t, evs := WhenArmed(Exec(s0, history), armed, arm), Iteration(armed, arm, ev);
            && LegalRun(s0, history + evs) && Exec(s0, history + evs) == Next(t, ev)
            && (if Returned(t, ev).Some? then CallDone(s0, s, trace + evs, Next(t, ev), Returned(t, ev).value)
                else CallSoFar(s0, s, trace + evs, Next(t, ev))
                     && VariantOf(s0, Next(t, ev))
                        < VariantOf(s0, Exec(s0, history)) + 3 * (Bit(armed) + Bit(Spins(t, ev))))
  {
    var before, evs := Exec(s, trace), Iteration(armed, arm, ev);
    var t := WhenArmed(before, armed, arm);
    IterationRun(before, armed, arm, ev);
    ExtendCall(s, trace, evs, Returned(t, ev));
    ExecAppend(s0, history, evs);
    ArmKeepsInv(s0, before, armed, arm);
    if Returned(t, ev).None? {
      SpinsOrProgresses(s0, t, ev);
    } else {
      PollTerminates(s0, s, trace + evs, Returned(t, ev).value);
    }
  }

  class SpliceIo {
    const splicer: SpliceCtx
    var state: TransferState
    /** The system this transfer started in, and everything that happened since. */
    ghost const origin: System
    ghost var history: seq<Event>

    /** The machine and its kernel, as one value. */
    function Sys(k: Kernel): System
      reads this, splicer, splicer.pipe, k
    {
      System(Machine(splicer.View(), state), k.View())
    }

    /** The current state is where the history leads from the origin, and the history is
        the environment's: its log holds exactly the calls and answers the history tells. */
    ghost predicate Valid(k: Kernel)
      reads this, splicer, splicer.pipe, k
    {
      && Init(origin) && LegalRun(origin, history) && Exec(origin, history) == Sys(k)
      && (origin.Ctx().offset.In? <==> k.readerIsFile)
      && (origin.Ctx().offset.Out? <==> k.writerIsFile)
      && k.log == LogOf(origin, history)
    }

    constructor (splicer: SpliceCtx, k: Kernel)
      requires Init(System(Machine(splicer.View(), Fill), k.View())) && k.log == []
      requires (splicer.offset.In? <==> k.readerIsFile) && (splicer.offset.Out? <==> k.writerIsFile)
      ensures Valid(k) && history == [] && this.splicer == splicer && state == Fill
      ensures origin == System(Machine(splicer.View(), Fill), k.View())
    {
      this.splicer := splicer;
      state := Fill;
      origin := System(Machine(splicer.View(), Fill), k.View());
      history := [];
    }

    /** The Fill arm of the loop once the endpoint is ready. */
    method AttemptFill(k: Kernel) returns (ghost answer: Answer)
      requires state.Fill? && splicer.bytesRead <= splicer.sizeToSplice && splicer.pipe.fillFd.Some?
      requires |k.buf| <= splicer.pipe.size && (splicer.offset.In? <==> k.readerIsFile)
      requires k.readReady
      modifies this`state, splicer`bytesRead, splicer`offset, splicer.pipe`fillFd
      modifies k`taken, k`buf, k`readReady, k`budget, k`log, k`lastCall, k.clock
      ensures Legal(old(Sys(k)), Ready(answer)) && k.Called(AttemptCalls(old(Sys(k)).machine, answer))
      ensures k.budget + Bit(Spins(old(Sys(k)), Ready(answer))) == old(k.budget)
      ensures Step(old(Sys(k)).machine, Ready(answer)).Continue? && Sys(k) == Next(old(Sys(k)), Ready(answer))
    {
      var r;
      r, answer := splicer.TrySpliceFromSource(k);
      if r == Err(WouldBlock) {
        k.ClearReadReady(); // try_io_read
      }
      match r {
        case Ok(Closed) => state := Drain;
        case Ok(BytesWritten(_)) => state := Fill;
        case Ok(NoProgress) => assert false; // unreachable!()
        case Err(WouldBlock) => state := if splicer.bytesRead > splicer.bytesWritten then Drain else Fill;
        case Err(e) => state := Finished(Some(e));
      }
    }

    /** The Fill arm of the loop. */
    method FillOnce(k: Kernel) returns (result: Option<PollResult>, ghost armed: bool, ghost ev: Event)
      requires state.Fill? && splicer.bytesRead <= splicer.sizeToSplice && splicer.pipe.fillFd.Some?
      requires |k.buf| <= splicer.pipe.size && (splicer.offset.In? <==> k.readerIsFile)
      modifies this`state, splicer`bytesRead, splicer`offset, splicer.pipe`fillFd
      modifies k`taken, k`buf, k`readReady, k`budget, k`log, k`lastCall, k.clock
      ensures armed ==> !old(k.readReady)
      ensures var s := WhenArmed(old(Sys(k)), armed, ArmRead);
              !IsArm(ev) && Legal(s, ev) && Sys(k) == Next(s, ev) && Returned(s, ev) == result
      ensures k.budget + Bit(armed) + Bit(Spins(WhenArmed(old(Sys(k)), armed, ArmRead), ev)) == old(k.budget)
      ensures k.Called(IterationCalls(old(Sys(k)).machine, armed, ArmRead, ev))
    {
      var ready;
      ready, armed := k.PollReadReady();
      match ready {
        case IsPending => return Some(Pending), armed, NotReady;
        case IsError(e) => return Some(ReadyErr(e)), armed, PollError(e);
        case IsReady =>
      }
      ghost var answer := AttemptFill(k);
      result, ev := None, Ready(answer);
    }

    /** The Drain arm of the loop once the endpoint is ready. */
    method AttemptDrain(k: Kernel) returns (ghost answer: Answer)
      requires state.Drain? && splicer.bytesWritten <= splicer.bytesRead && splicer.pipe.drainFd.Some?
      requires |k.buf| == splicer.bytesRead - splicer.bytesWritten && (splicer.offset.Out? <==> k.writerIsFile)
      requires k.writeReady
      modifies this`state, splicer`bytesWritten, splicer`offset, splicer.pipe`drainFd
      modifies k`dest, k`buf, k`writeReady, k`budget, k`log, k`lastCall, k.clock
      ensures Legal(old(Sys(k)), Ready(answer)) && k.Called(AttemptCalls(old(Sys(k)).machine, answer))
      ensures k.budget + Bit(Spins(old(Sys(k)), Ready(answer))) == old(k.budget)
      ensures Step(old(Sys(k)).machine, Ready(answer)).Continue? && Sys(k) == Next(old(Sys(k)), Ready(answer))
    {
      var r;
      r, answer := splicer.TrySpliceToDest(k);
      if r == Err(WouldBlock) {
        k.ClearWriteReady(); // try_io_write
      }
      match r {
        case Ok(Closed) => state := Finished(None);
        case Ok(NoProgress) => state := Fill;
        case Ok(BytesWritten(_)) => state := Drain;
        case Err(WouldBlock) => state := if splicer.bytesRead > splicer.bytesWritten then Drain else Fill;
        case Err(e) => state := Finished(Some(e));
      }
    }

    /** The Drain arm of the loop. */
    method DrainOnce(k: Kernel) returns (result: Option<PollResult>, ghost armed: bool, ghost ev: Event)
      requires state.Drain? && splicer.bytesWritten <= splicer.bytesRead && splicer.pipe.drainFd.Some?
      requires |k.buf| == splicer.bytesRead - splicer.bytesWritten && (splicer.offset.Out? <==> k.writerIsFile)
      modifies this`state, splicer`bytesWritten, splicer`offset, splicer.pipe`drainFd
      modifies k`dest, k`buf, k`writeReady, k`budget, k`log, k`lastCall, k.clock
      ensures armed ==> !old(k.writeReady)
      ensures var s := WhenArmed(old(Sys(k)), armed, ArmWrite);
              !IsArm(ev) && Legal(s, ev) && Sys(k) == Next(s, ev) && Returned(s, ev) == result
      ensures k.budget + Bit(armed) + Bit(Spins(WhenArmed(old(Sys(k)), armed, ArmWrite), ev)) == old(k.budget)
      ensures k.Called(IterationCalls(old(Sys(k)).machine, armed, ArmWrite, ev))
    {
      var ready;
      ready, armed := k.PollWriteReady();
      match ready {
        case IsPending => return Some(Pending), armed, NotReady;
        case IsError(e) => return Some(ReadyErr(e)), armed, PollError(e);
        case IsReady =>
      }
      ghost var answer := AttemptDrain(k);
      result, ev := None, Ready(answer);
    }

    /** The Finished arm, which always returns. */
    method FinishOnce(k: Kernel) returns (result: PollResult, ghost ev: Event)
      requires state.Finished?
      modifies this`state, k`log, k`lastCall, k.clock
      ensures !IsArm(ev) && Legal(old(Sys(k)), ev) && k.Called(Calls(old(Sys(k)).machine, ev))
      ensures Sys(k) == Next(old(Sys(k)), ev) && Returned(old(Sys(k)), ev) == Some(result)
    {
      var ready := k.PollShutdown();
      match ready {
        case IsPending => return Pending, NotReady;
        case IsError(e) => return ReadyErr(e), PollError(e);
        case IsReady =>
      }
      ev := Ready(Moved(0));
      var error := state.error;
      state := Finished(None);
      result := if error.Some? then ReadyErr(error.value) else ReadyOk;
    }

    /** The state's arm of the loop body, or the stored result. */
    method RunArm(k: Kernel)
      returns (returned: Option<PollResult>, ghost armed: bool, ghost arm: Event, ghost ev: Event)
      requires Init(origin) && Inv(origin, Sys(k))
      requires (origin.Ctx().offset.In? <==> k.readerIsFile) && (origin.Ctx().offset.Out? <==> k.writerIsFile)
      modifies this`state, splicer, splicer.pipe`fillFd, splicer.pipe`drainFd, k, k.clock
      ensures IsArm(arm) && !IsArm(ev)
      ensures armed ==> !(if arm.ArmRead? then old(k.readReady) else old(k.writeReady))
      ensures var s := WhenArmed(old(Sys(k)), armed, arm);
              Legal(s, ev) && Sys(k) == Next(s, ev) && Returned(s, ev) == returned
      ensures k.budget + Bit(armed) + Bit(Spins(WhenArmed(old(Sys(k)), armed, arm), ev)) == old(k.budget)
      ensures k.Called(IterationCalls(old(Sys(k)).machine, armed, arm, ev))
    {
      armed, arm := false, ArmRead;
      match state {
        case Finished(_) =>
          var r;
          r, ev := FinishOnce(k);
          returned := Some(r);
        case Fill =>
          returned, armed, ev := FillOnce(k);
        case Drain =>
          arm := ArmWrite;
          returned, armed, ev := DrainOnce(k);
      }
    }

    /** The loop body, with its place in the history and in the current call. */
    method LoopBody(k: Kernel, ghost past: seq<Event>, ghost s: System, ghost trace: seq<Event>)
      returns (returned: Option<PollResult>, ghost evs: seq<Event>)
      requires Valid(k) && history == past + trace && CallSoFar(origin, s, trace, Sys(k))
      modifies this`state, this`history, splicer, splicer.pipe`fillFd, splicer.pipe`drainFd, k, k.clock
      ensures Valid(k) && history == past + (trace + evs)
      ensures old(k.clock.now) < k.clock.now == k.lastCall
      ensures returned.None? ==> CallSoFar(origin, s, trace + evs, Sys(k))
      ensures returned.None? ==>
                VariantOf(origin, Sys(k)) + 3 * k.budget < VariantOf(origin, old(Sys(k))) + 3 * old(k.budget)
      ensures returned.Some? ==> CallDone(origin, s, trace + evs, Sys(k), returned.value)
    {
      ghost var armed, arm, ev;
      returned, armed, arm, ev := RunArm(k);
      AfterIteration(origin, history, s, trace, armed, arm, ev);
      evs := Iteration(armed, arm, ev);
      IterationLog(Exec(origin, history), armed, arm, ev);
      LogAppend(origin, history, evs);
      history := history + evs;
      assert past + trace + evs == past + (trace + evs);
    }

    /** `poll_execute`: the loop. Every call, in every environment within the contract,
        returns, and is a legal run of the step relation from where the last one stopped. */
    method PollExecute(k: Kernel) returns (result: PollResult, ghost trace: seq<Event>)
      requires Valid(k)
      modifies this`state, this`history, splicer, splicer.pipe`fillFd, splicer.pipe`drainFd, k, k.clock
      ensures Valid(k) && history == old(history) + trace
      ensures CallDone(origin, old(Sys(k)), trace, Sys(k), result)
      ensures LastReturned(origin, history) == Some(result)
      ensures k.Called(LogOf(old(Sys(k)), trace))
      ensures Count(origin, history, IsReturn) == Count(origin, old(history), IsReturn) + 1
    {
      ghost var past, s := history, Sys(k);
      trace := [];
      Reachable(origin, history);
      while true
        invariant Valid(k) && history == past + trace
        invariant trace != [] ==> old(k.clock.now) < k.clock.now == k.lastCall
        invariant old(k.clock.now) <= k.clock.now
        invariant CallSoFar(origin, s, trace, Sys(k))
        decreases VariantOf(origin, Sys(k)) + 3 * k.budget
      {
        var returned;
        ghost var evs;
        returned, evs := LoopBody(k, past, s, trace);
        trace := trace + evs;
        if returned.Some? {
          PollIsLast(origin, past, trace, returned.value);
          PollReturnsOnce(s, trace, returned.value);
          CountAppend(origin, past, trace, IsReturn);
          LogAppend(origin, past, trace);
          return returned.value, trace;
        }
      }
    }

    /** Between two polls: the task sleeps, the reactor may arm either endpoint. */
    method AwaitWake(k: Kernel) returns (ghost arms: seq<Event>)
      requires Valid(k)
      modifies this`history, k`readReady, k`writeReady, k`budget, k`log
      ensures Valid(k) && history == old(history) + arms
      ensures LegalRun(old(Sys(k)), arms) && Sys(k) == Exec(old(Sys(k)), arms)
      ensures forall i :: 0 <= i < |arms| ==> IsArm(arms[i])
      ensures Sys(k).machine == old(Sys(k)).machine
      ensures Count(origin, history, IsCompletion) == Count(origin, old(history), IsCompletion)
      ensures Count(origin, history, IsReturn) == Count(origin, old(history), IsReturn)
    {
      ghost var past, s := history, Sys(k);
      arms := k.Wake();
      ArmsRun(s, arms);
      ExecAppend(origin, past, arms);
      CountAppend(origin, past, arms, IsCompletion);
      CountAppend(origin, past, arms, IsReturn);
      LogAppend(origin, past, arms);
      history := history + arms;
    }

    /** `execute`: the future, polled at most `polls` times by its executor. None means that
        all of these polls were Pending, a report that the last one made was the first Ready.
        A report without an error means a complete copy; on an error `tx` is still exactly
        what arrived. */
    method Execute(k: Kernel, polls: nat) returns (report: Option<TransferReport>)
      requires Valid(k) && Count(origin, history, IsCompletion) == 0
      modifies this`state, this`history, splicer, splicer.pipe`fillFd, splicer.pipe`drainFd, k, k.clock
      ensures Valid(k) && old(history) <= history
      ensures report.None? ==>
                && Count(origin, history, IsCompletion) == 0
                && Count(origin, history, IsReturn) == Count(origin, old(history), IsReturn) + polls
      ensures report.Some? ==>
                && Count(origin, history, IsCompletion) == 1
                && Count(origin, old(history), IsReturn)
                   < Count(origin, history, IsReturn) <= Count(origin, old(history), IsReturn) + polls
      ensures report.Some? ==> LastReturned(origin, history) == Some(ResultOf(report.value))
      ensures report.Some? ==>
                && report.value.tx == splicer.bytesWritten <= |Stream(origin)| && report.value.rx == 0
                && k.dest == Placed(origin, Stream(origin)[..report.value.tx])
                && (report.value.error.None? ==> Delivered(origin, Sys(k)))
    {
      for i := 0 to polls
        invariant Valid(k) && old(history) <= history
        invariant Count(origin, history, IsCompletion) == 0
        invariant Count(origin, history, IsReturn) == Count(origin, old(history), IsReturn) + i
      {
        ghost var past := history;
        var result;
        ghost var trace;
        result, trace := PollExecute(k);
        CallOutcome(origin, past, trace, result);
        if !result.Pending? {
          BoundedLoss(origin, history);
          return Some(TransferReport(splicer.bytesWritten, 0, if result.ReadyErr? then Some(result.e) else None));
        }
        ghost var arms := AwaitWake(k);
      }
      report := None;
    }
  }

  /** Arm events only set readiness. */
  lemma {:induction false} ArmsRun(s: System, arms: seq<Event>)
    requires forall i :: 0 <= i < |arms| ==> IsArm(arms[i])
    ensures LegalRun(s, arms) && Count(s, arms, IsCompletion) == 0 && Count(s, arms, IsReturn) == 0
    ensures LogOf(s, arms) == seq(|arms|, i requires 0 <= i < |arms| => Call.Armed(arms[i]))
    ensures Exec(s, arms) == s.(world := s.world.(readReady := s.world.readReady || ArmRead in arms,
                                                  writeReady := s.world.writeReady || ArmWrite in arms))
    decreases |arms|
  {
    if arms != [] {
      var n := Next(s, arms[0]);
      ArmsRun(n, arms[1..]);
    }
  }

  /** What the result of a call says about the whole history. */
  lemma {:induction false} CallOutcome(s0: System, past: seq<Event>, trace: seq<Event>, result: PollResult)
    requires Init(s0) && LegalRun(s0, past) && Count(s0, past, IsCompletion) == 0
    requires IsPoll(Exec(s0, past), trace, result)
    ensures Count(s0, past + trace, IsCompletion) == Bit(!result.Pending?)
    ensures result.ReadyOk? ==> Delivered(s0, Exec(s0, past + trace))
  {
    var s, k := Exec(s0, past), |trace| - 1;
    var before, last := trace[..k], trace[k];
    assert trace == before + [last] && [last][1..] == [];
    ExecAppend(s0, past, trace);
    ExecAppend(s, before, [last]);
    ExecAppend(s0, past, before);
    ExecSingle(Exec(s, before), last);
    CompletionsAreReturns(s, before);
    CountAppend(s0, past, trace, IsCompletion);
    CountAppend(s0, past, before, IsCompletion);
    CountAppend(s, before, [last], IsCompletion);
    var t := Exec(s, before);
    assert Count(t, [last], IsCompletion) == Bit(IsCompletion(t, last)) + Count(Next(t, last), [], IsCompletion);
    if result.ReadyOk? {
      FirstCompletion(s0, past + before, last);
      FinishedAbsorbs(t, [last]);
    }
  }

  lemma {:induction false} CompletionsAreReturns(s: System, evs: seq<Event>)
    ensures Count(s, evs, IsCompletion) <= Count(s, evs, IsReturn)
    decreases |evs|
  {
    if evs != [] {
      CompletionsAreReturns(Next(s, evs[0]), evs[1..]);
    }
  }
}
