/** Which schedules can make the engine panic, once the environment is as wide as the
    scripted mocks: `try_io` may fail without running the attempt, and `splice_out` may
    return 0. The only bound kept is that a splice moves at most what it was asked to. */
module PanicFreedom {
  import opened Basics
  import opened Offsets
  import opened SpliceContext
  import opened TransferMachine
  import opened Environment
  import opened Conservation

  datatype Outcome = Running(m: Machine) | Panicked

  function RawNext(m: Machine, ev: Event): Outcome {
    var r := Step(m, ev);
    if r.Panic? then Panicked else Running(r.next)
  }

  function RawExec(m: Machine, evs: seq<Event>): Outcome
    decreases |evs|
  {
    if evs == [] then Running(m)
    else
      var r := RawNext(m, evs[0]);
      if r.Panicked? then Panicked else RawExec(r.m, evs[1..])
  }

  /** A splice moves at most the length it was given. */
  predicate Bounded(m: Machine, ev: Event) {
    ev.Ready? && ev.answer.Moved? ==>
      && (m.state.Fill? && m.ctx.ReachesSpliceIn() ==> ev.answer.n <= m.ctx.sizeToSplice - m.ctx.bytesRead)
      && (m.state.Drain? && m.ctx.ReachesSpliceOut() ==> ev.answer.n <= m.ctx.bytesRead - m.ctx.bytesWritten)
  }

  ghost predicate BoundedRun(m: Machine, evs: seq<Event>)
    decreases |evs|
  {
    evs == [] || (Bounded(m, evs[0]) && (RawNext(m, evs[0]).Running? ==> BoundedRun(RawNext(m, evs[0]).m, evs[1..])))
  }

  /** Early end of input: the fill end is closed short of the target. */
  predicate EarlyEof(c: Ctx) {
    !c.pipe.fillOpen && c.bytesRead < c.sizeToSplice
  }

  /** Back in Fill after an early end of input: the next attempt finds no fill end. */
  predicate Doomed(m: Machine) {
    m.state.Fill? && EarlyEof(m.ctx)
  }

  /** The two ways back: a zero-byte splice-out on a non-empty pipe, or a short-circuited
      WouldBlock on an empty one. */
  predicate Hazard(m: Machine, ev: Event) {
    && m.state.Drain? && EarlyEof(m.ctx)
    && ((m.ctx.PipeHasData() && ev == Ready(Moved(0))) || (!m.ctx.PipeHasData() && ev == ShortCircuit(WouldBlock)))
  }

  predicate RawInv(m: Machine) {
    && m.ctx.bytesWritten <= m.ctx.bytesRead <= m.ctx.sizeToSplice
    && (!m.ctx.pipe.drainOpen ==> m.state.Finished?)
  }

  lemma {:induction false} RawStep(m: Machine, ev: Event)
    requires RawInv(m) && Bounded(m, ev)
    ensures Step(m, ev).Panic? <==> Doomed(m) && ev.Ready?
    ensures RawNext(m, ev).Running? ==> RawInv(RawNext(m, ev).m)
    ensures RawNext(m, ev).Running? && !Doomed(m) ==> (Doomed(RawNext(m, ev).m) <==> Hazard(m, ev))
  {
  }

  /** The run up to its k-th event, and that event. */
  ghost predicate At(m: Machine, evs: seq<Event>, k: nat, p: (Machine, Event) -> bool)
    requires k < |evs|
  {
    var r := RawExec(m, evs[..k]);
    r.Running? && p(r.m, evs[k])
  }

  predicate FatalAttempt(m: Machine, ev: Event) {
    Doomed(m) && ev.Ready?
  }

  lemma {:induction false} AtShift(m: Machine, evs: seq<Event>, k: nat, p: (Machine, Event) -> bool)
    requires evs != [] && RawNext(m, evs[0]).Running? && k + 1 < |evs|
    ensures At(m, evs, k + 1, p) <==> At(RawNext(m, evs[0]).m, evs[1..], k, p)
  {
    assert evs[..k + 1][1..] == evs[1..][..k];
  }

  /** A run panics exactly when some attempt is made in Fill after an early end of input. */
  lemma {:induction false} PanicsExactly(m: Machine, evs: seq<Event>)
    requires RawInv(m) && BoundedRun(m, evs)
    ensures RawExec(m, evs).Panicked? <==> exists k: nat :: k < |evs| && At(m, evs, k, FatalAttempt)
    decreases |evs|
  {
    if evs != [] {
      RawStep(m, evs[0]);
      assert evs[..0] == [];
      assert At(m, evs, 0, FatalAttempt) <==> FatalAttempt(m, evs[0]);
      if RawNext(m, evs[0]).Running? {
        var t, rest := RawNext(m, evs[0]).m, evs[1..];
        PanicsExactly(t, rest);
        if RawExec(t, rest).Panicked? {
          var k: nat :| k < |rest| && At(t, rest, k, FatalAttempt);
          AtShift(m, evs, k, FatalAttempt);
        }
        forall k: nat | k < |evs| && At(m, evs, k, FatalAttempt)
          ensures RawExec(t, rest).Panicked?
        {
          AtShift(m, evs, k - 1, FatalAttempt);
          assert At(t, rest, k - 1, FatalAttempt);
        }
      }
    }
  }

  predicate DoomedNow(m: Machine, ev: Event) {
    Doomed(m)
  }

  /** A hazard at event i, the machine doomed ever since, and an attempt at event j. */
  ghost predicate FatalSequence(m: Machine, evs: seq<Event>, i: nat, j: nat) {
    && i < j < |evs|
    && At(m, evs, i, Hazard)
    && (forall k :: i < k <= j ==> At(m, evs, k, DoomedNow))
    && evs[j].Ready?
  }

  lemma {:induction false} FatalShift(m: Machine, evs: seq<Event>, i: nat, j: nat)
    requires evs != [] && RawNext(m, evs[0]).Running?
    requires FatalSequence(RawNext(m, evs[0]).m, evs[1..], i, j)
    ensures FatalSequence(m, evs, i + 1, j + 1)
  {
    var t, rest := RawNext(m, evs[0]).m, evs[1..];
    AtShift(m, evs, i, Hazard);
    forall k | i + 1 < k <= j + 1
      ensures At(m, evs, k, DoomedNow)
    {
      assert At(t, rest, k - 1, DoomedNow);
      AtShift(m, evs, k - 1, DoomedNow);
    }
  }

  /** A doomed machine that panics stays doomed until the attempt that does it, or else a
      fresh hazard comes first. */
  lemma {:induction false} DoomedPanics(m: Machine, evs: seq<Event>) returns (i: nat, j: nat)
    requires RawInv(m) && Doomed(m) && BoundedRun(m, evs) && RawExec(m, evs).Panicked?
    ensures || (j < |evs| && evs[j].Ready? && forall k :: 0 <= k <= j ==> At(m, evs, k, DoomedNow))
            || FatalSequence(m, evs, i, j)
    decreases |evs|
  {
    RawStep(m, evs[0]);
    assert evs[..0] == [];
    i, j := 0, 0;
    assert At(m, evs, 0, DoomedNow);
    if RawNext(m, evs[0]).Running? {
      var t, rest := RawNext(m, evs[0]).m, evs[1..];
      if Doomed(t) {
        i, j := DoomedPanics(t, rest);
        if FatalSequence(t, rest, i, j) {
          FatalShift(m, evs, i, j);
        } else {
          forall k | 0 < k <= j + 1
            ensures At(m, evs, k, DoomedNow)
          {
            assert At(t, rest, k - 1, DoomedNow);
            AtShift(m, evs, k - 1, DoomedNow);
          }
        }
      } else {
        i, j := FindFatalSequence(t, rest);
        FatalShift(m, evs, i, j);
      }
      i, j := i + 1, j + 1;
    }
  }

  lemma {:induction false} FindFatalSequence(m: Machine, evs: seq<Event>) returns (i: nat, j: nat)
    requires RawInv(m) && !Doomed(m) && BoundedRun(m, evs) && RawExec(m, evs).Panicked?
    ensures FatalSequence(m, evs, i, j)
    decreases |evs|
  {
    RawStep(m, evs[0]);
    assert evs[..0] == [];
    var t, rest := RawNext(m, evs[0]).m, evs[1..];
    if Hazard(m, evs[0]) {
      i, j := DoomedPanics(t, rest);
      if FatalSequence(t, rest, i, j) {
        FatalShift(m, evs, i, j);
        i, j := i + 1, j + 1;
      } else {
        forall k | 0 < k <= j + 1
          ensures At(m, evs, k, DoomedNow)
        {
          assert At(t, rest, k - 1, DoomedNow);
          AtShift(m, evs, k - 1, DoomedNow);
        }
        assert At(m, evs, 0, Hazard);
        i, j := 0, j + 1;
      }
    } else {
      i, j := FindFatalSequence(t, rest);
      FatalShift(m, evs, i, j);
      i, j := i + 1, j + 1;
    }
  }

  /** The panics of the wide environment, exactly: a run panics if and only if a hazard
      occurs, the machine then stays doomed, and an attempt is made. */
  lemma {:induction false} PanicsExactlyByHazard(m: Machine, evs: seq<Event>)
    requires RawInv(m) && !Doomed(m) && BoundedRun(m, evs)
    ensures RawExec(m, evs).Panicked? <==> exists i: nat, j: nat :: FatalSequence(m, evs, i, j)
  {
    PanicsExactly(m, evs);
    if RawExec(m, evs).Panicked? {
      var i, j := FindFatalSequence(m, evs);
    }
    forall i: nat, j: nat | FatalSequence(m, evs, i, j)
      ensures RawExec(m, evs).Panicked?
    {
      assert At(m, evs, j, DoomedNow);
      assert At(m, evs, j, FatalAttempt);
    }
  }

  /** An event in which the loop only waits: readiness pending, failing or being armed. */
  predicate Waits(ev: Event) {
    ev.NotReady? || ev.PollError? || IsArm(ev)
  }

  lemma {:induction false} DoomedWaits(m: Machine, waits: seq<Event>, answer: Answer)
    requires RawInv(m) && Doomed(m) && forall i :: 0 <= i < |waits| ==> Waits(waits[i])
    ensures RawExec(m, waits + [Ready(answer)]) == Panicked
    decreases |waits|
  {
    var evs := waits + [Ready(answer)];
    if waits == [] {
      assert evs[0] == Ready(answer);
    } else {
      assert Waits(waits[0]) && evs[1..] == waits[1..] + [Ready(answer)];
      DoomedWaits(m, waits[1..], answer);
    }
  }

  /** After a hazard nothing helps: however long the loop waits, over any number of polls,
      the next time readiness succeeds and the attempt is run it panics. */
  lemma {:induction false} HazardThenAttemptPanics(m: Machine, ev: Event, waits: seq<Event>, answer: Answer)
    requires RawInv(m) && Hazard(m, ev) && forall i :: 0 <= i < |waits| ==> Waits(waits[i])
    ensures RawExec(m, [ev] + waits + [Ready(answer)]) == Panicked
  {
    RawStep(m, ev);
    var evs := [ev] + waits + [Ready(answer)];
    assert evs[1..] == waits + [Ready(answer)];
    DoomedWaits(RawNext(m, ev).m, waits, answer);
  }

  /** The kernel and reactor contract rules hazards out, in every reachable state. */
  lemma {:induction false} ContractHasNoHazard(s0: System, evs: seq<Event>, ev: Event)
    requires Init(s0) && LegalRun(s0, evs) && Legal(Exec(s0, evs), ev)
    ensures Bounded(Exec(s0, evs).machine, ev)
    ensures !Hazard(Exec(s0, evs).machine, ev) && !Doomed(Exec(s0, evs).machine)
  {
    Reachable(s0, evs);
  }

  /** Both hazards are real, for every pipe: with any target but 0 a source that is empty
      and a short-circuited WouldBlock, with any target above 1 a source of one byte and
      a zero-byte splice-out. */
  lemma {:induction false} BothHazardsPanic(size: nat, pipe: PipeEnds)
    requires NewPipe(pipe)
    ensures var m := Machine(Ctx(NoOffset, size, pipe, 0, 0), Fill);
            var eof := Ready(Moved(0));
            && (size > 0 ==> RawExec(m, [eof, ShortCircuit(WouldBlock), Ready(Moved(1))]) == Panicked)
            && (size > 1 ==> RawExec(m, [Ready(Moved(1)), eof, Ready(Moved(0)), Ready(Moved(1))]) == Panicked)
  {
    var m := Machine(Ctx(NoOffset, size, pipe, 0, 0), Fill);
    var c := m.ctx.(pipe := pipe.(fillOpen := false));
    var short, zero, next := ShortCircuit(WouldBlock), Ready(Moved(0)), Ready(Moved(1));
    if size > 0 {
      var evs := [zero, short, next];
      assert evs[1..] == [short] + [] + [next] && RawNext(m, zero) == Running(Machine(c, Drain));
      HazardThenAttemptPanics(Machine(c, Drain), short, [], Moved(1));
    }
    if size > 1 {
      var evs := [next, zero, zero, next];
      var m1, m2 := Machine(m.ctx.(bytesRead := 1), Fill), Machine(c.(bytesRead := 1), Drain);
      assert evs[1..][1..] == [zero] + [] + [next];
      assert RawNext(m, next) == Running(m1) && RawNext(m1, zero) == Running(m2);
      HazardThenAttemptPanics(m2, zero, [], Moved(1));
      assert evs[1..][0] == zero && RawExec(m1, evs[1..]) == Panicked;
    }
  }

  /** To the machine a `try_io` that fails without running the attempt is a splice that
      failed with the same error, wherever the attempt would have reached the splicer. */
  lemma {:induction false} ShortCircuitIsFailedSplice(m: Machine, e: IoError)
    requires (m.state.Fill? && m.ctx.ReachesSpliceIn() && m.ctx.bytesRead <= m.ctx.sizeToSplice)
             || (m.state.Drain? && m.ctx.ReachesSpliceOut())
    ensures Step(m, ShortCircuit(e)) == Step(m, Ready(Failed(e)))
  {
  }

  /** A count above the requested length breaks the machine just as surely: the next
      attempt subtracts past zero. */
  lemma {:induction false} OverlongReadPanics(m: Machine, n: nat, answer: Answer)
    requires m.state.Fill? && m.ctx.ReachesSpliceIn() && n > m.ctx.sizeToSplice - m.ctx.bytesRead
    ensures RawExec(m, [Ready(Moved(n)), Ready(answer)]) == Panicked
  {
    var m1 := RawNext(m, Ready(Moved(n))).m;
    assert [Ready(Moved(n)), Ready(answer)][1..] == [Ready(answer)];
    assert RawExec(m1, [Ready(answer)]) == Panicked;
  }
}
