/** Whole-run results about what is delivered: a clean completion is a plain copy,
    independent of the schedule; faults are stored, reported once, then gone. */
module Delivery {
  import opened Basics
  import opened Offsets
  import opened SpliceContext
  import opened TransferMachine
  import opened Environment
  import opened Conservation

  /** How many events of a run satisfy `p` in the state they happen in. */
  function Count(s: System, evs: seq<Event>, p: (System, Event) -> bool): nat
    decreases |evs|
  {
    if evs == [] then 0
    else (if p(s, evs[0]) then 1 else 0) + Count(Next(s, evs[0]), evs[1..], p)
  }

  lemma {:induction false} CountAppend(s: System, a: seq<Event>, b: seq<Event>, p: (System, Event) -> bool)
    ensures Count(s, a + b, p) == Count(s, a, p) + Count(Exec(s, a), b, p)
    decreases |a|
  {
    if a == [] {
      assert a + b == b;
    } else {
      assert (a + b)[1..] == a[1..] + b;
      CountAppend(Next(s, a[0]), a[1..], b, p);
    }
  }

  /** A splice failed for good: the machine stores the error and gives up. */
  predicate IsFault(s: System, ev: Event) {
    var t := Next(s, ev).machine.state;
    !s.machine.state.Finished? && t.Finished? && t.error.Some?
  }

  /** `poll_execute` hands out the stored error. */
  predicate IsFaultReport(s: System, ev: Event) {
    s.machine.state.Finished? && s.machine.state.error.Some? && ev.Ready?
  }

  /** `poll_execute` returns `Poll::Ready`, with either result. */
  predicate IsCompletion(s: System, ev: Event) {
    var r := Returned(s, ev);
    r.Some? && !r.value.Pending?
  }

  predicate HoldsError(s: System) {
    s.machine.state.Finished? && s.machine.state.error.Some?
  }

  /** The transfer ended in a fault: finished, yet the drain end was never closed. */
  predicate Faulted(s: System) {
    s.machine.state.Finished? && s.Ctx().pipe.drainOpen
  }

  // ---- Finished is absorbing ----

  /** From `s` to `t` nothing happened but readiness and the hand-out of a stored error. */
  predicate OnlyStutters(s: System, t: System) {
    && t.machine.state.Finished? && t.Ctx() == s.Ctx()
    && t.world.(readReady := s.world.readReady, writeReady := s.world.writeReady) == s.world
    && (t.machine.state == s.machine.state || t.machine.state.error.None?)
  }

  /** Once finished, no poll moves a byte or touches a counter, an offset or a pipe
      end, whatever the environment does. */
  lemma {:induction false} FinishedAbsorbs(s: System, evs: seq<Event>)
    requires s.machine.state.Finished?
    ensures OnlyStutters(s, Exec(s, evs))
    decreases |evs|
  {
    if evs != [] {
      FinishedAbsorbs(Next(s, evs[0]), evs[1..]);
    }
  }

  /** Stored errors are conserved over every run: each fault is either still held or
      was handed out exactly once. */
  lemma {:induction false} ErrorsConserved(s: System, evs: seq<Event>)
    ensures Count(s, evs, IsFault) + Bit(HoldsError(s))
         == Count(s, evs, IsFaultReport) + Bit(HoldsError(Exec(s, evs)))
    decreases |evs|
  {
    if evs != [] {
      ErrorsConserved(Next(s, evs[0]), evs[1..]);
    }
  }

  /** Over any sequence of polls, in any environment: at most one fault, hence at most
      one report of it, and a report is a step in which shutdown succeeded. */
  lemma {:induction false} FaultReportedAtMostOnce(s0: System, evs: seq<Event>)
    requires s0.machine.state.Fill?
    ensures Count(s0, evs, IsFaultReport) <= Count(s0, evs, IsFault) <= 1
    ensures forall k :: 0 <= k < |evs| && IsFaultReport(Exec(s0, evs[..k]), evs[k]) ==>
              Returned(Exec(s0, evs[..k]), evs[k]) == Some(ReadyErr(Exec(s0, evs[..k]).machine.state.error.value))
  {
    ErrorsConserved(s0, evs);
    FaultsAtMostOne(s0, evs);
  }

  lemma {:induction false} FaultsAtMostOne(s: System, evs: seq<Event>)
    ensures Count(s, evs, IsFault) <= Bit(!s.machine.state.Finished?)
    decreases |evs|
  {
    if evs != [] {
      FaultsAtMostOne(Next(s, evs[0]), evs[1..]);
    }
  }

  /** A held error is the very one some earlier splice failed with. */
  lemma {:induction false} HeldErrorOrigin(s0: System, evs: seq<Event>) returns (j: nat)
    requires Init(s0) && LegalRun(s0, evs) && HoldsError(Exec(s0, evs))
    ensures j < |evs| && IsFault(Exec(s0, evs[..j]), evs[j])
    ensures evs[j] == Ready(Failed(Exec(s0, evs).machine.state.error.value))
    decreases |evs|
  {
    var k := |evs| - 1;
    assert evs != [];
    assert evs[..k + 1] == evs;
    RunAt(s0, evs, k);
    PrefixStep(s0, evs, k);
    if HoldsError(Exec(s0, evs[..k])) {
      j := HeldErrorOrigin(s0, evs[..k]);
      assert evs[..k][..j] == evs[..j];
    } else {
      j := k;
    }
  }

  /** The drain end left open in Finished tells faults from completions, exactly. */
  lemma {:induction false} FaultedExactly(s0: System, s: System, evs: seq<Event>)
    requires Init(s0) && Inv(s0, s) && LegalRun(s, evs)
    ensures Count(s, evs, IsFault) + Bit(Faulted(s)) == Bit(Faulted(Exec(s, evs)))
    decreases |evs|
  {
    if evs != [] {
      StepKeepsInv(s0, s, evs[0]);
      FaultedExactly(s0, Next(s, evs[0]), evs[1..]);
    }
  }

  // ---- Delivery ----

  /** Everything the stream offers, up to the target, has arrived; the pipe is empty,
      both its ends are closed and the counters say so. */
  predicate Delivered(s0: System, s: System) {
    && s.world.dest == Placed(s0, Stream(s0)[..Goal(s0)])
    && s.world.buf == []
    && s.Ctx().bytesWritten == s.Ctx().bytesRead == Goal(s0)
    && s.Ctx().IsFinished() && !s.Ctx().pipe.drainOpen
  }

  /** A run without a fault that returns Ok has copied the stream up to the target. */
  lemma {:induction false} OkMeansDelivered(s0: System, evs: seq<Event>, ev: Event)
    requires Init(s0) && LegalRun(s0, evs)
    requires Returned(Exec(s0, evs), ev) == Some(ReadyOk)
    requires Count(s0, evs, IsFault) == 0
    ensures Delivered(s0, Exec(s0, evs))
  {
    Reachable(s0, evs);
    InitInv(s0);
    FaultedExactly(s0, s0, evs);
  }

  lemma {:induction false} FinishedDelivers(s0: System, evs: seq<Event>)
    requires Init(s0) && LegalRun(s0, evs)
    requires Exec(s0, evs).machine.state == Finished(None)
    ensures Delivered(s0, Exec(s0, evs)) || Faulted(Exec(s0, evs))
    ensures Count(s0, evs, IsFault) == 0 ==> Delivered(s0, Exec(s0, evs))
  {
    Reachable(s0, evs);
    InitInv(s0);
    FaultedExactly(s0, s0, evs);
  }

  /** A finished machine that holds no error has delivered everything if and only if it
      never handed out a stored error. */
  lemma {:induction false} FinishedDeliversExactly(s0: System, evs: seq<Event>)
    requires Init(s0) && LegalRun(s0, evs)
    requires Exec(s0, evs).machine.state == Finished(None)
    ensures Delivered(s0, Exec(s0, evs)) <==> Count(s0, evs, IsFaultReport) == 0
  {
    Reachable(s0, evs);
    InitInv(s0);
    FaultedExactly(s0, s0, evs);
    ErrorsConserved(s0, evs);
  }

  /** The first time `poll_execute` is Ready: Ok then means delivered, unconditionally,
      because a fault would have been returned first. */
  lemma {:induction false} FirstCompletion(s0: System, evs: seq<Event>, ev: Event)
    requires Init(s0) && LegalRun(s0, evs)
    requires Count(s0, evs, IsCompletion) == 0
    requires Returned(Exec(s0, evs), ev) == Some(ReadyOk)
    ensures Count(s0, evs, IsFault) == 0
    ensures Delivered(s0, Exec(s0, evs))
  {
    ErrorsConserved(s0, evs);
    ReportsAreCompletions(s0, evs);
    OkMeansDelivered(s0, evs, ev);
  }

  lemma {:induction false} ReportsAreCompletions(s: System, evs: seq<Event>)
    ensures Count(s, evs, IsFaultReport) <= Count(s, evs, IsCompletion)
    decreases |evs|
  {
    if evs != [] {
      ReportsAreCompletions(Next(s, evs[0]), evs[1..]);
    }
  }

  /** What an iteration returns, exactly: Pending when its poll was pending, the error when
      its poll failed, and in both cases nothing changes; Ok or the stored error when the
      shutdown of a finished machine succeeded; and otherwise the loop goes on. */
  lemma {:induction false} ReturnsExactly(s0: System, evs: seq<Event>, ev: Event)
    requires Init(s0) && LegalRun(s0, evs) && Legal(Exec(s0, evs), ev)
    ensures var s := Exec(s0, evs);
            && (Returned(s, ev) == Some(Pending) <==> ev.NotReady?)
            && (ev.NotReady? ==> Next(s, ev) == s)
            && (forall e :: ev == PollError(e) ==> Returned(s, ev) == Some(ReadyErr(e)) && Next(s, ev) == s)
            && (Returned(s, ev) == Some(ReadyOk) <==> ev.Ready? && s.machine.state == Finished(None))
            && (ev.Ready? && HoldsError(s) ==> Returned(s, ev) == Some(ReadyErr(s.machine.state.error.value)))
            && (Returned(s, ev).None? <==> IsArm(ev) || (ev.Ready? && !s.machine.state.Finished?))
  {
    Reachable(s0, evs);
    StepKeepsInv(s0, Exec(s0, evs), ev);
  }

  /** Where a returned error comes from: the readiness or shutdown poll of that very step,
      or else an earlier splice, whose error is passed on unchanged. */
  lemma {:induction false} ReturnedErrorOrigin(s0: System, evs: seq<Event>, ev: Event, e: IoError) returns (j: nat)
    requires Init(s0) && LegalRun(s0, evs) && Legal(Exec(s0, evs), ev)
    requires Returned(Exec(s0, evs), ev) == Some(ReadyErr(e))
    ensures ev == PollError(e) || (
              && IsFaultReport(Exec(s0, evs), ev) && e != WouldBlock
              && j < |evs| && IsFault(Exec(s0, evs[..j]), evs[j]) && evs[j] == Ready(Failed(e)))
  {
    j := 0;
    Reachable(s0, evs);
    if !ev.PollError? {
      assert IsFaultReport(Exec(s0, evs), ev);
      j := HeldErrorOrigin(s0, evs);
    }
  }

  /** The engine refines a one-line copy: a transfer built with `new` and
      `with_target_len`, stream to stream, whose first Ready result is Ok. */
  lemma {:induction false} RefinesCopy(usizeMax: nat, pipe: PipeEnds, target: nat, w: World, evs: seq<Event>, ev: Event)
    requires NewPipe(pipe) && w.taken == 0 && w.buf == []
    requires var s0 := System(Machine(WithTargetLen(New(usizeMax, Ok(pipe)).value, target), Fill), w);
             && LegalRun(s0, evs) && Count(s0, evs, IsCompletion) == 0
             && Returned(Exec(s0, evs), ev) == Some(ReadyOk)
    ensures var s0 := System(Machine(WithTargetLen(New(usizeMax, Ok(pipe)).value, target), Fill), w);
            && Exec(s0, evs).world.dest == w.dest + w.source[..Min(|w.source|, target)]
            && Exec(s0, evs).Ctx().bytesWritten == Min(|w.source|, target)
  {
    var s0 := System(Machine(WithTargetLen(New(usizeMax, Ok(pipe)).value, target), Fill), w);
    FirstCompletion(s0, evs, ev);
    assert Stream(s0) == w.source;
  }

  /** Without the "no earlier completion" proviso Ok proves nothing: polled again after
      a reported fault the machine answers Ok, with nothing delivered. */
  lemma {:induction false} RepollAfterFaultSaysOk()
    ensures exists s0: System, evs: seq<Event>, ev: Event ::
              && Init(s0) && LegalRun(s0, evs) && Legal(Exec(s0, evs), ev)
              && Returned(Exec(s0, evs), ev) == Some(ReadyOk)
              && !Delivered(s0, Exec(s0, evs))
  {
    var s0 := System(Machine(Ctx(NoOffset, 1, PipeEnds(true, true, 1), 0, 0), Fill), World([7], 0, [], [], true, true));
    var fault, again := Ready(Failed(Os(5))), Ready(Moved(0));
    var s1 := Next(s0, fault);
    var s2 := Next(s1, again);
    assert s2.machine.state == Finished(None);
    assert LegalRun(s0, [fault, again]) && Exec(s0, [fault, again]) == s2 by {
      assert [fault, again] == [fault] + [again];
      ExecAppend(s0, [fault], [again]);
      ExecSingle(s0, fault);
      ExecSingle(s1, again);
    }
    assert Returned(s2, again) == Some(ReadyOk);
    assert !Delivered(s0, s2);
  }

  /** Two systems that differ only in pipe size and readiness. */
  predicate SameTransfer(a0: System, b0: System) {
    && a0.Ctx().offset == b0.Ctx().offset && a0.Ctx().sizeToSplice == b0.Ctx().sizeToSplice
    && a0.world.source == b0.world.source && a0.world.taken == b0.world.taken && a0.world.dest == b0.world.dest
  }

  /** Chunk sizes, EAGAINs, pipe sizes and poll boundaries do not show in the result. */
  lemma {:induction false} ScheduleIndependence(a0: System, ea: seq<Event>, a: Event,
                                                b0: System, eb: seq<Event>, b: Event)
    requires Init(a0) && LegalRun(a0, ea) && Returned(Exec(a0, ea), a) == Some(ReadyOk)
    requires Init(b0) && LegalRun(b0, eb) && Returned(Exec(b0, eb), b) == Some(ReadyOk)
    requires Count(a0, ea, IsFault) == 0 && Count(b0, eb, IsFault) == 0
    requires SameTransfer(a0, b0)
    ensures Exec(a0, ea).world.dest == Exec(b0, eb).world.dest
    ensures Exec(a0, ea).Ctx().bytesWritten == Exec(b0, eb).Ctx().bytesWritten
  {
    OkMeansDelivered(a0, ea, a);
    OkMeansDelivered(b0, eb, b);
  }

  // ---- Poll boundaries ----

  /** A return that only reports readiness: Pending, or an error passed on by `?`. */
  predicate IsBoundary(ev: Event) {
    ev.NotReady? || ev.PollError?
  }

  function EraseBoundaries(evs: seq<Event>): seq<Event>
    decreases |evs|
  {
    if evs == [] then []
    else (if IsBoundary(evs[0]) then [] else [evs[0]]) + EraseBoundaries(evs[1..])
  }

  /** Returning early changes nothing: take every boundary out of a run and it is
      still legal and ends in the same state. */
  lemma {:induction false} BoundaryTransparency(s: System, evs: seq<Event>)
    ensures Exec(s, EraseBoundaries(evs)) == Exec(s, evs)
    ensures LegalRun(s, EraseBoundaries(evs)) <==> LegalRun(s, evs)
    decreases |evs|
  {
    if evs != [] {
      var rest := EraseBoundaries(evs[1..]);
      BoundaryTransparency(Next(s, evs[0]), evs[1..]);
      if IsBoundary(evs[0]) {
        assert EraseBoundaries(evs) == rest;
      } else {
        assert EraseBoundaries(evs) == [evs[0]] + rest;
        assert EraseBoundaries(evs)[1..] == rest;
      }
    }
  }
}
