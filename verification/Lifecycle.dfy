/** The life of the two pipe ends over whole runs. */
module Lifecycle {
  import opened Basics
  import opened SpliceContext
  import opened TransferMachine
  import opened Environment
  import opened Conservation
  import opened Delivery

  /** The fill side finds the target reached, or sees end of input. */
  predicate SeesEndOfInput(s: System, ev: Event) {
    && s.machine.state.Fill? && ev.Ready?
    && (s.Ctx().bytesRead == s.Ctx().sizeToSplice || ev.answer == Moved(0))
  }

  /** The drain side finds an empty pipe that nothing will fill again. */
  predicate SeesDrainedPipe(s: System, ev: Event) {
    s.machine.state.Drain? && ev.Ready? && s.world.buf == [] && s.Ctx().IsSourceDone()
  }

  /** The fill end is closed exactly by the one step that sees the end of the input, the
      drain end exactly by the one step that sees the drained pipe; neither reopens. */
  lemma {:induction false} EndsCloseExactlyOnce(s0: System, s: System, evs: seq<Event>)
    requires Init(s0) && Inv(s0, s) && LegalRun(s, evs)
    ensures var p, q := s.Ctx().pipe, Exec(s, evs).Ctx().pipe;
            && Bit(q.fillOpen) + Count(s, evs, SeesEndOfInput) == Bit(p.fillOpen)
            && Bit(q.drainOpen) + Count(s, evs, SeesDrainedPipe) == Bit(p.drainOpen)
    decreases |evs|
  {
    if evs != [] {
      StepKeepsInv(s0, s, evs[0]);
      EndStep(s0, s, evs[0]);
      EndsCloseExactlyOnce(s0, Next(s, evs[0]), evs[1..]);
    }
  }

  lemma {:induction false} EndStep(s0: System, s: System, ev: Event)
    requires Init(s0) && Inv(s0, s) && Legal(s, ev)
    ensures var p, q := s.Ctx().pipe, Next(s, ev).Ctx().pipe;
            && Bit(q.fillOpen) + Bit(SeesEndOfInput(s, ev)) == Bit(p.fillOpen)
            && Bit(q.drainOpen) + Bit(SeesDrainedPipe(s, ev)) == Bit(p.drainOpen)
  {
  }

  /** Order over whole runs: the drain end closes only after the fill end and with an
      empty pipe; a closed fill end means all input within the target was taken; and a
      finished transfer without a fault has both ends closed and nothing in flight. */
  lemma {:induction false} EndsCloseInOrder(s0: System, evs: seq<Event>)
    requires Init(s0) && LegalRun(s0, evs)
    ensures var s := Exec(s0, evs);
            var p := s.Ctx().pipe;
            && (!p.drainOpen ==> !p.fillOpen && s.world.buf == [] && s.machine.state.Finished?)
            && (!p.fillOpen ==> s.Ctx().bytesRead == Goal(s0))
            && (s.Ctx().IsFinished() <==> !p.fillOpen && s.world.buf == [])
            && (s.machine.state.Finished? && Count(s0, evs, IsFault) == 0 ==> s.Ctx().IsFinished() && !p.drainOpen)
  {
    InitInv(s0);
    Reachable(s0, evs);
    FaultedExactly(s0, s0, evs);
  }
}
