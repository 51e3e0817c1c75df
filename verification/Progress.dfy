/** How long the loop runs, where it parks, and when it completes in one poll. */
module Progress {
  import opened Basics
  import opened SpliceContext
  import opened TransferMachine
  import opened Environment
  import opened Conservation
  import opened Delivery

  // ---- Accounting for every iteration ----

  predicate IsIteration(s: System, ev: Event) { !IsArm(ev) }

  predicate IsReturn(s: System, ev: Event) { Returned(s, ev).Some? }

  predicate IsArmRead(s: System, ev: Event) { ev.ArmRead? }

  predicate IsArmWrite(s: System, ev: Event) { ev.ArmWrite? }

  predicate FillEagain(s: System, ev: Event) {
    s.machine.state.Fill? && s.Ctx().ReachesSpliceIn() && ev == Ready(Failed(WouldBlock))
  }

  predicate DrainEagain(s: System, ev: Event) {
    s.machine.state.Drain? && s.Ctx().ReachesSpliceOut() && ev == Ready(Failed(WouldBlock))
  }

  /** An EAGAIN that leaves everything as it was: from a file, which stays ready, and
      either with nothing in the pipe to turn to, or from the writer itself. */
  predicate Spins(s: System, ev: Event) {
    || (s.Ctx().offset.In? && FillEagain(s, ev) && s.world.buf == [])
    || (s.Ctx().offset.Out? && DrainEagain(s, ev))
  }

  /** Any other EAGAIN of `splice_in`. */
  predicate IsFillBlock(s: System, ev: Event) {
    FillEagain(s, ev) && !Spins(s, ev)
  }

  /** Any other EAGAIN of `splice_out`. */
  predicate IsDrainBlock(s: System, ev: Event) {
    DrainEagain(s, ev) && !Spins(s, ev)
  }

  /** Bytes moved so far, into the pipe and out of it. */
  function Traffic(s: System): nat { s.Ctx().bytesRead + s.Ctx().bytesWritten }

  /** State changes still owed: at most Drain -> Fill -> Drain (closed) -> Finished. */
  function Owed(s: System): nat {
    match s.machine.state
    case Finished(_) => 0
    case Drain => if s.Ctx().pipe.fillOpen then 3 else 1
    case Fill => 2
  }

  /** The account of a single event. */
  lemma {:induction false} IterationStep(s0: System, s: System, ev: Event)
    requires Init(s0) && Inv(s0, s) && Legal(s, ev)
    ensures Traffic(s) <= Traffic(Next(s, ev))
    ensures Bit(IsIteration(s, ev)) + Owed(Next(s, ev))
         <= Traffic(Next(s, ev)) - Traffic(s) + 2 * Bit(IsFillBlock(s, ev)) + Bit(IsDrainBlock(s, ev))
            + Bit(Spins(s, ev)) + Bit(IsReturn(s, ev)) + Owed(s)
  {
  }

  /** Every loop iteration of every legal run, over any number of polls, is paid for by
      a byte moved, an EAGAIN, a return, or one of three state changes. */
  lemma {:induction false} IterationAccount(s0: System, s: System, evs: seq<Event>)
    requires Init(s0) && Inv(s0, s) && LegalRun(s, evs)
    ensures var t := Exec(s, evs);
            && Traffic(s) <= Traffic(t)
            && Count(s, evs, IsIteration) + Owed(t)
               <= Traffic(t) - Traffic(s) + 2 * Count(s, evs, IsFillBlock) + Count(s, evs, IsDrainBlock)
                  + Count(s, evs, Spins) + Count(s, evs, IsReturn) + Owed(s)
    decreases |evs|
  {
    if evs != [] {
      StepKeepsInv(s0, s, evs[0]);
      IterationStep(s0, s, evs[0]);
      IterationAccount(s0, Next(s, evs[0]), evs[1..]);
    }
  }

  /** A whole transfer, however it is cut into polls: apart from EAGAINs and returns the
      loop body runs at most twice per byte of the goal, plus 2. */
  lemma {:induction false} WholeRunBound(s0: System, evs: seq<Event>)
    requires Init(s0) && LegalRun(s0, evs)
    ensures Count(s0, evs, IsIteration)
         <= 2 * Goal(s0) + 2 * Count(s0, evs, IsFillBlock) + Count(s0, evs, IsDrainBlock)
            + Count(s0, evs, Spins) + Count(s0, evs, IsReturn) + 2
  {
    InitInv(s0);
    Reachable(s0, evs);
    IterationAccount(s0, s0, evs);
  }

  /** On a socket each EAGAIN uses up a readiness, which only an arm event renews. */
  lemma {:induction false} SocketFillBlocks(s0: System, s: System, evs: seq<Event>)
    requires Init(s0) && Inv(s0, s) && LegalRun(s, evs) && !s0.Ctx().offset.In?
    ensures Count(s, evs, IsFillBlock) + Bit(Exec(s, evs).world.readReady)
         <= Bit(s.world.readReady) + Count(s, evs, IsArmRead)
    decreases |evs|
  {
    if evs != [] {
      StepKeepsInv(s0, s, evs[0]);
      SocketFillBlocks(s0, Next(s, evs[0]), evs[1..]);
    }
  }

  lemma {:induction false} DrainBlocks(s0: System, s: System, evs: seq<Event>)
    requires Init(s0) && Inv(s0, s) && LegalRun(s, evs)
    ensures Count(s, evs, IsDrainBlock) <= Bit(s.world.writeReady) + Count(s, evs, IsArmWrite)
    decreases |evs|
  {
    if evs != [] {
      StepKeepsInv(s0, s, evs[0]);
      DrainBlocks(s0, Next(s, evs[0]), evs[1..]);
    }
  }

  /** A file may yet answer EAGAIN, without spinning, before another byte is drained. */
  predicate MayBlock(s: System) {
    s.machine.state.Fill? || (s.machine.state.Drain? && s.world.buf == [])
  }

  /** Between two EAGAINs of a file that do not spin at least one byte is drained. */
  lemma {:induction false} FileFillBlocks(s0: System, s: System, evs: seq<Event>)
    requires Init(s0) && Inv(s0, s) && LegalRun(s, evs) && s0.Ctx().offset.In?
    ensures s.Ctx().bytesWritten <= Exec(s, evs).Ctx().bytesWritten
    ensures Count(s, evs, IsFillBlock) + Bit(MayBlock(Exec(s, evs)))
         <= Exec(s, evs).Ctx().bytesWritten - s.Ctx().bytesWritten + Bit(MayBlock(s))
    decreases |evs|
  {
    if evs != [] {
      StepKeepsInv(s0, s, evs[0]);
      FileFillBlocks(s0, Next(s, evs[0]), evs[1..]);
    }
  }

  /** The events of one `poll_execute` call: the loop goes on until the last one returns. */
  ghost predicate IsPoll(s: System, evs: seq<Event>, result: PollResult) {
    && evs != [] && LegalRun(s, evs)
    && Count(s, evs[..|evs| - 1], IsReturn) == 0
    && Returned(Exec(s, evs[..|evs| - 1]), evs[|evs| - 1]) == Some(result)
  }

  lemma {:induction false} PollReturnsOnce(s: System, evs: seq<Event>, result: PollResult)
    requires IsPoll(s, evs, result)
    ensures Count(s, evs, IsReturn) == 1
  {
    var k := |evs| - 1;
    assert evs == evs[..k] + [evs[k]];
    CountAppend(s, evs[..k], [evs[k]], IsReturn);
    var t := Exec(s, evs[..k]);
    assert [evs[k]][1..] == [];
    assert Count(t, [evs[k]], IsReturn) == 1 + Count(Next(t, evs[k]), [], IsReturn);
  }

  /** Bytes moved in and out, plus 7, plus what re-armed readiness adds; for a file
      reader, plus twice the bytes written. */
  ghost function PollBound(s0: System, s: System, evs: seq<Event>): int {
    var t := Exec(s, evs);
    Traffic(t) - Traffic(s)
    + 2 * (if s0.Ctx().offset.In? then t.Ctx().bytesWritten - s.Ctx().bytesWritten else Count(s, evs, IsArmRead))
    + Count(s, evs, IsArmWrite) + 7
  }

  /** One call of `poll_execute`, in any environment within the contract: not counting
      the iterations that spin, the loop body runs at most `PollBound` times. */
  lemma {:induction false} PollTerminates(s0: System, s: System, evs: seq<Event>, result: PollResult)
    requires Init(s0) && Inv(s0, s) && IsPoll(s, evs, result)
    ensures Count(s, evs, IsIteration) <= PollBound(s0, s, evs) + Count(s, evs, Spins)
  {
    IterationAccount(s0, s, evs);
    PollReturnsOnce(s, evs, result);
    DrainBlocks(s0, s, evs);
    if s0.Ctx().offset.In? {
      FileFillBlocks(s0, s, evs);
    } else {
      SocketFillBlocks(s0, s, evs);
    }
  }

  function Repeat(ev: Event, k: nat): (r: seq<Event>)
    ensures |r| == k
    decreases k
  {
    if k == 0 then [] else [ev] + Repeat(ev, k - 1)
  }

  /** What spins may spin for as long as it likes: the answer stays legal, the system
      stays where it is, and the loop does not return. */
  lemma {:induction false} SpinsForever(s: System, ev: Event, k: nat)
    requires Legal(s, ev) && Next(s, ev) == s && Returned(s, ev).None? && !IsArm(ev)
    ensures var evs := Repeat(ev, k);
            LegalRun(s, evs) && Exec(s, evs) == s
            && Count(s, evs, IsReturn) == 0 && Count(s, evs, IsIteration) == k
    decreases k
  {
    if k > 0 {
      assert Repeat(ev, k)[1..] == Repeat(ev, k - 1);
      SpinsForever(s, ev, k - 1);
    }
  }

  /** Every non-empty transfer from a file can spin at once; every non-empty transfer to a
      file can spin once a byte is in the pipe. */
  lemma {:induction false} FilesCanSpin(s0: System) returns (evs: seq<Event>)
    requires Init(s0) && s0.Ctx().sizeToSplice > 0
    requires s0.Ctx().offset.In? || (s0.Ctx().offset.Out? && Goal(s0) > 0 && s0.world.readReady)
    ensures LegalRun(s0, evs)
    ensures Legal(Exec(s0, evs), Ready(Failed(WouldBlock))) && Spins(Exec(s0, evs), Ready(Failed(WouldBlock)))
  {
    if s0.Ctx().offset.In? {
      evs := [];
    } else {
      evs := [Ready(Moved(1)), Ready(Failed(WouldBlock))];
      assert evs == [evs[0]] + [evs[1]];
      ExecAppend(s0, [evs[0]], [evs[1]]);
      ExecSingle(s0, evs[0]);
      ExecSingle(Next(s0, evs[0]), evs[1]);
    }
  }

  // ---- A variant for the loop ----

  function Rank(s: System): nat {
    match s.machine.state
    case Finished(_) => 0
    case Fill => if s.Ctx().PipeHasData() then 2 else 1
    case Drain => if s.Ctx().PipeHasData() then 1 else 2
  }

  /** Bytes left to read and to write, the fill end not yet closed, and the rank. */
  function Work(s0: System, s: System): nat
    requires Inv(s0, s)
  {
    4 * (2 * (Goal(s0) - s.Ctx().bytesRead) + |s.world.buf|) + 2 * Bit(s.Ctx().pipe.fillOpen) + Rank(s)
  }

  /** The work left, and the readiness not yet used up. */
  function Variant(s0: System, s: System): nat
    requires Inv(s0, s)
  {
    Work(s0, s) + 3 * (Bit(s.world.readReady) + Bit(s.world.writeReady))
  }

  lemma {:induction false} FillWork(s0: System, s: System, ev: Event)
    requires Init(s0) && Inv(s0, s) && Inv(s0, Next(s, ev)) && Legal(s, ev)
    requires ev.Ready? && s.machine.state.Fill?
    ensures if FillEagain(s, ev) && s.world.buf == [] then Work(s0, Next(s, ev)) == Work(s0, s)
            else Work(s0, Next(s, ev)) < Work(s0, s)
  {
    var c := s.Ctx();
    if c.ReachesSpliceIn() && ev.answer.Moved? && ev.answer.n > 0 {
      FillMoves(s, ev.answer.n);
    }
  }

  lemma {:induction false} DrainWork(s0: System, s: System, ev: Event)
    requires Init(s0) && Inv(s0, s) && Inv(s0, Next(s, ev)) && Legal(s, ev)
    requires ev.Ready? && s.machine.state.Drain?
    ensures if DrainEagain(s, ev) then Work(s0, Next(s, ev)) == Work(s0, s)
            else Work(s0, Next(s, ev)) < Work(s0, s)
  {
    var c := s.Ctx();
    if c.ReachesSpliceOut() && ev.answer.Moved? {
      DrainMoves(s, ev.answer.n);
    }
  }

  lemma {:induction false} FillSpinsOrProgresses(s0: System, s: System, ev: Event)
    requires Init(s0) && Inv(s0, s) && Inv(s0, Next(s, ev)) && Legal(s, ev)
    requires ev.Ready? && s.machine.state.Fill?
    ensures Next(s, ev) == s <==> Spins(s, ev)
    ensures !Spins(s, ev) ==> Variant(s0, Next(s, ev)) < Variant(s0, s)
  {
    FillWork(s0, s, ev);
  }

  lemma {:induction false} DrainSpinsOrProgresses(s0: System, s: System, ev: Event)
    requires Init(s0) && Inv(s0, s) && Inv(s0, Next(s, ev)) && Legal(s, ev)
    requires ev.Ready? && s.machine.state.Drain?
    ensures Next(s, ev) == s <==> Spins(s, ev)
    ensures !Spins(s, ev) ==> Variant(s0, Next(s, ev)) < Variant(s0, s)
  {
    DrainWork(s0, s, ev);
  }

  /** The exact boundary of termination: an iteration that does not return either spins,
      and then it changes nothing at all, or it brings the loop's variant down. */
  lemma {:induction false} SpinsOrProgresses(s0: System, s: System, ev: Event)
    requires Init(s0) && Inv(s0, s) && Legal(s, ev)
    requires !IsArm(ev) && Returned(s, ev).None?
    ensures Inv(s0, Next(s, ev))
    ensures Next(s, ev) == s <==> Spins(s, ev)
    ensures !Spins(s, ev) ==> Variant(s0, Next(s, ev)) < Variant(s0, s)
  {
    StepKeepsInv(s0, s, ev);
    if s.machine.state.Fill? {
      FillSpinsOrProgresses(s0, s, ev);
    } else {
      DrainSpinsOrProgresses(s0, s, ev);
    }
  }

  // ---- Parking ----

  /** Readiness of the endpoint the machine would poll now. */
  predicate PolledReady(s: System) {
    match s.machine.state
    case Fill => s.world.readReady
    case Drain => s.world.writeReady
    case Finished(_) => false
  }

  /** Sticky readiness: a poll is pending only if its endpoint is not ready. */
  predicate Sticky(s: System, ev: Event) {
    ev.NotReady? ==> !PolledReady(s)
  }

  /** Under sticky readiness a Pending return never leaves the machine on the wrong side:
      in Fill the pipe is empty and the source unfinished, in Drain there are bytes to
      write or the source is finished. So only an endpoint that is pending although
      ready (a task yielding) can catch it elsewhere. */
  lemma {:induction false} ParksOnTheRightSide(s0: System, evs: seq<Event>, ev: Event)
    requires Init(s0) && LegalRun(s0, evs) && Returned(Exec(s0, evs), ev) == Some(Pending)
    ensures Next(Exec(s0, evs), ev) == Exec(s0, evs)
    ensures Sticky(Exec(s0, evs), ev) ==>
              var s := Exec(s0, evs);
              && (s.machine.state.Fill? ==> s.world.buf == [] && !s.Ctx().IsSourceDone())
              && (s.machine.state.Drain? ==> s.world.buf != [] || s.Ctx().IsSourceDone())
  {
    Reachable(s0, evs);
  }

  // ---- The stall of a socket ----

  /** Parked in Fill with the reader's readiness gone: nothing moves, nothing changes but
      the writer's readiness, until the reactor arms the reader. */
  lemma {:induction false} NothingWithoutArmRead(s: System, evs: seq<Event>)
    requires s.machine.state.Fill? && !s.world.readReady
    requires LegalRun(s, evs) && Count(s, evs, IsArmRead) == 0
    ensures Exec(s, evs) == s.(world := s.world.(writeReady := Exec(s, evs).world.writeReady))
    decreases |evs|
  {
    if evs != [] {
      NothingWithoutArmRead(Next(s, evs[0]), evs[1..]);
    }
  }

  /** Any stream-to-stream transfer of more than one pipe can get there with input left:
      the pipe fills, the EAGAIN of the full pipe clears the reader's readiness, the pipe
      drains, and the machine parks in Fill on a reader that still has bytes. */
  lemma {:induction false} SocketCanStall(s0: System) returns (evs: seq<Event>)
    requires Init(s0) && s0.Ctx().offset.NoOffset? && s0.world.readReady && s0.world.writeReady
    requires s0.Ctx().pipe.size < Goal(s0)
    ensures LegalRun(s0, evs) && Count(s0, evs, IsArmRead) == 0
    ensures var s := Exec(s0, evs);
            && s.machine.state.Fill? && s.world.buf == [] && !s.world.readReady
            && s.Ctx().bytesRead == s.Ctx().pipe.size < Goal(s0)
  {
    var n := s0.Ctx().pipe.size;
    var fill, full, drain, empty := Ready(Moved(n)), Ready(Failed(WouldBlock)), Ready(Moved(n)), Ready(Moved(1));
    var s1 := Next(s0, fill);
    FillMoves(s0, n);
    assert |s1.world.buf| == n;
    var s2 := Next(s1, full);
    assert s2 == System(s1.machine.(state := Drain), s1.world.(readReady := false));
    var s3 := Next(s2, drain);
    DrainMoves(s2, n);
    var s4 := Next(s3, empty);
    assert s4.machine.state.Fill?;
    evs := [fill, full, drain, empty];
    assert evs[1..] == [full, drain, empty] && evs[1..][1..] == [drain, empty];
    assert [drain, empty][1..] == [empty] && [empty][1..] == [];
    assert Exec(s3, [empty]) == s4 && LegalRun(s3, [empty]);
    assert Exec(s2, [drain, empty]) == s4 && LegalRun(s2, [drain, empty]);
    assert Exec(s1, evs[1..]) == s4 && LegalRun(s1, evs[1..]);
    assert Count(s3, [empty], IsArmRead) == 0;
    assert Count(s2, [drain, empty], IsArmRead) == 0;
    assert Count(s1, evs[1..], IsArmRead) == 0;
  }

  // ---- Completion ----

  /** A cooperative environment: `splice_in` fails only with EAGAIN on a non-empty pipe, the
      writer accepts at least a byte whenever it is asked, shutdown succeeds, and
      neither readiness poll is pending. */
  predicate Cooperative(s: System, ev: Event) {
    IsArm(ev) || (
      && ev.Ready? && Legal(s, ev)
      && (s.machine.state.Fill? && s.Ctx().ReachesSpliceIn() && ev.answer.Failed? ==>
            ev.answer.e == WouldBlock && s.world.buf != [])
      && (s.machine.state.Drain? && s.Ctx().ReachesSpliceOut() ==> ev.answer.Moved?))
  }

  ghost predicate CooperativeRun(s: System, evs: seq<Event>)
    decreases |evs|
  {
    evs == [] || (Cooperative(s, evs[0]) && CooperativeRun(Next(s, evs[0]), evs[1..]))
  }

  lemma {:induction false} CooperativeStep(s0: System, s: System, ev: Event)
    requires Init(s0) && Inv(s0, s) && Cooperative(s, ev) && !Faulted(s)
    ensures Legal(s, ev) && Inv(s0, Next(s, ev)) && !Faulted(Next(s, ev))
    ensures Returned(s, ev).Some? ==> Returned(s, ev).value == ReadyOk && Delivered(s0, Next(s, ev))
    ensures s.world.writeReady ==> Next(s, ev).world.writeReady
  {
    StepKeepsInv(s0, s, ev);
    if s.machine.state.Finished? {
      assert s.world.buf == [] && s.machine.state == Finished(None);
    } else {
      CooperativeLoopStep(s, ev);
    }
  }

  lemma {:induction false} CooperativeLoopStep(s: System, ev: Event)
    requires Cooperative(s, ev) && !s.machine.state.Finished? && !Step(s.machine, ev).Panic?
    ensures Legal(s, ev) && !Faulted(Next(s, ev)) && Returned(s, ev).None?
    ensures s.world.writeReady ==> Next(s, ev).world.writeReady
  {
  }

  lemma {:induction false} CooperativeWork(s0: System, s: System, ev: Event)
    requires Init(s0) && Inv(s0, s) && Cooperative(s, ev) && Returned(s, ev).None? && Inv(s0, Next(s, ev))
    ensures if IsArm(ev) then Work(s0, Next(s, ev)) == Work(s0, s) else Work(s0, Next(s, ev)) < Work(s0, s)
  {
    if ev.Ready? {
      if s.machine.state.Fill? {
        FillWork(s0, s, ev);
      } else {
        DrainWork(s0, s, ev);
      }
    }
  }

  /** From any reachable state that has not faulted, every cooperative poll returns Ok
      with everything delivered. */
  lemma {:induction false} CooperativePollDelivers(s0: System, s: System, evs: seq<Event>, result: PollResult)
    requires Init(s0) && Inv(s0, s) && !Faulted(s)
    requires IsPoll(s, evs, result) && CooperativeRun(s, evs)
    ensures result == ReadyOk
    ensures Delivered(s0, Exec(s, evs))
    decreases |evs|
  {
    CooperativeStep(s0, s, evs[0]);
    var rest := evs[1..];
    if rest == [] {
      assert evs[..0] == [];
    } else {
      var t, k := Next(s, evs[0]), |evs| - 1;
      assert evs[..k][1..] == rest[..k - 1];
      assert Returned(s, evs[0]).None? by {
        assert evs[..k][0] == evs[0];
      }
      CooperativePollDelivers(s0, t, rest, result);
    }
  }

  /** And a cooperative environment cannot keep the loop from returning, however often
      it re-arms readiness. */
  lemma {:induction false} CooperativePollEnds(s0: System, s: System, evs: seq<Event>)
    requires Init(s0) && Inv(s0, s) && !Faulted(s)
    requires CooperativeRun(s, evs) && Count(s, evs, IsReturn) == 0
    ensures Count(s, evs, IsIteration) <= Work(s0, s)
    decreases |evs|
  {
    if evs != [] {
      CooperativeStep(s0, s, evs[0]);
      CooperativeWork(s0, s, evs[0]);
      CooperativePollEnds(s0, Next(s, evs[0]), evs[1..]);
    }
  }

  ghost predicate NoArms(evs: seq<Event>) {
    forall i :: 0 <= i < |evs| ==> !IsArm(evs[i])
  }

  /** No reachable state is stuck: from each one that has not faulted a single poll can
      complete the transfer, given readiness when it is missing. A file reader with a
      ready writer needs no help at all. */
  lemma {:induction false} CompletesInOnePoll(s0: System, s: System) returns (evs: seq<Event>)
    requires Init(s0) && Inv(s0, s) && !Faulted(s)
    ensures IsPoll(s, evs, ReadyOk) && CooperativeRun(s, evs)
    ensures s0.Ctx().offset.In? && s.world.writeReady ==> NoArms(evs)
    ensures Delivered(s0, Exec(s, evs))
    decreases Work(s0, s), Bit(!PolledReady(s))
  {
    var ev := CooperativeEvent(s0, s);
    CooperativeStep(s0, s, ev);
    if Returned(s, ev).Some? {
      evs := [ev];
      assert evs[1..] == [] && evs[..0] == [];
      ExecSingle(s, ev);
    } else {
      CooperativeWork(s0, s, ev);
      var rest := CompletesInOnePoll(s0, Next(s, ev));
      evs := [ev] + rest;
      var k := |rest|;
      assert evs[1..] == rest && evs[..k][1..] == rest[..k - 1];
    }
  }

  lemma {:induction false} CooperativeEvent(s0: System, s: System) returns (ev: Event)
    requires Init(s0) && Inv(s0, s) && !Faulted(s)
    ensures Cooperative(s, ev)
    ensures IsArm(ev) <==> !s.machine.state.Finished? && !PolledReady(s)
    ensures IsArm(ev) ==> PolledReady(Next(s, ev))
  {
    var c := s.Ctx();
    if s.machine.state.Fill? && !s.world.readReady {
      ev := ArmRead;
    } else if s.machine.state.Drain? && !s.world.writeReady {
      ev := ArmWrite;
    } else if s.machine.state.Fill? && c.ReachesSpliceIn() && ReadPos(c.offset, s.world) >= |s.world.source| {
      ev := Ready(Moved(0));
    } else if s.machine.state.Fill? && c.ReachesSpliceIn() && |s.world.buf| == c.pipe.size {
      ev := Ready(Failed(WouldBlock));
    } else {
      ev := Ready(Moved(1));
    }
  }
}
