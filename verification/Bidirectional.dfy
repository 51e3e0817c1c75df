/** `SpliceBidiIo`: two machines polled in turn, left to right first. */
module Bidirectional {
  import opened Basics
  import opened Offsets
  import opened SpliceContext
  import opened TransferMachine
  import opened Environment
  import opened Conservation
  import opened Delivery

  /** Whose loop is running; in the right one's turn the left one's answer is kept. */
  datatype Turn = LeftTurn | RightTurn(left: PollResult)

  datatype Bidi = Bidi(left: System, right: System, turn: Turn)

  datatype BidiEvent = OnLeft(ev: Event) | OnRight(ev: Event)

  /** The arms of the final `match`, in order. */
  function Combine(l: PollResult, r: PollResult): (c: PollResult)
    ensures !c.Pending? <==> !l.Pending? && !r.Pending?
    ensures c.ReadyOk? <==> l.ReadyOk? && r.ReadyOk?
    ensures c.ReadyErr? ==> c == (if l.ReadyErr? then l else r)
  {
    if l.Pending? || r.Pending? then Pending
    else if l.ReadyOk? && r.ReadyOk? then ReadyOk
    else if l.ReadyErr? then l
    else r
  }

  /** Readiness may be armed at any time; otherwise only the machine whose turn it is moves. */
  predicate BidiLegal(b: Bidi, e: BidiEvent) {
    match e
    case OnLeft(ev) => Legal(b.left, ev) && (IsArm(ev) || b.turn.LeftTurn?)
    case OnRight(ev) => Legal(b.right, ev) && (IsArm(ev) || b.turn.RightTurn?)
  }

  function BidiNext(b: Bidi, e: BidiEvent): Bidi {
    match e
    case OnLeft(ev) =>
      var r := Returned(b.left, ev);
      b.(left := Next(b.left, ev), turn := if r.Some? then RightTurn(r.value) else b.turn)
    case OnRight(ev) =>
      b.(right := Next(b.right, ev), turn := if Returned(b.right, ev).Some? then LeftTurn else b.turn)
  }

  /** What the combined poll returns in this step, if it returns. */
  function BidiReturned(b: Bidi, e: BidiEvent): Option<PollResult> {
    if e.OnRight? && b.turn.RightTurn? && Returned(b.right, e.ev).Some?
    then Some(Combine(b.turn.left, Returned(b.right, e.ev).value))
    else None
  }

  function BidiExec(b: Bidi, es: seq<BidiEvent>): Bidi
    decreases |es|
  {
    if es == [] then b else BidiExec(BidiNext(b, es[0]), es[1..])
  }

  ghost predicate BidiRun(b: Bidi, es: seq<BidiEvent>)
    decreases |es|
  {
    es == [] || (BidiLegal(b, es[0]) && BidiRun(BidiNext(b, es[0]), es[1..]))
  }

  /** No combined poll of the run was Ready. */
  ghost predicate AllPending(b: Bidi, es: seq<BidiEvent>)
    decreases |es|
  {
    es == [] || (
      && (BidiReturned(b, es[0]).Some? ==> BidiReturned(b, es[0]).value.Pending?)
      && AllPending(BidiNext(b, es[0]), es[1..]))
  }

  /** How many combined polls of the run have returned. */
  ghost function CombinedPolls(b: Bidi, es: seq<BidiEvent>): nat
    decreases |es|
  {
    if es == [] then 0
    else Bit(BidiReturned(b, es[0]).Some?) + CombinedPolls(BidiNext(b, es[0]), es[1..])
  }

  predicate BidiInit(b: Bidi) {
    Init(b.left) && Init(b.right) && b.turn.LeftTurn?
  }

  function LeftOf(es: seq<BidiEvent>): seq<Event>
    decreases |es|
  {
    if es == [] then [] else (if es[0].OnLeft? then [es[0].ev] else []) + LeftOf(es[1..])
  }

  function RightOf(es: seq<BidiEvent>): seq<Event>
    decreases |es|
  {
    if es == [] then [] else (if es[0].OnRight? then [es[0].ev] else []) + RightOf(es[1..])
  }

  lemma {:induction false} BidiAppend(b: Bidi, x: seq<BidiEvent>, y: seq<BidiEvent>)
    ensures BidiExec(b, x + y) == BidiExec(BidiExec(b, x), y)
    ensures BidiRun(b, x + y) <==> BidiRun(b, x) && BidiRun(BidiExec(b, x), y)
    ensures AllPending(b, x + y) <==> AllPending(b, x) && AllPending(BidiExec(b, x), y)
    ensures CombinedPolls(b, x + y) == CombinedPolls(b, x) + CombinedPolls(BidiExec(b, x), y)
    decreases |x|
  {
    if x == [] {
      assert x + y == y;
    } else {
      assert (x + y)[1..] == x[1..] + y;
      BidiAppend(BidiNext(b, x[0]), x[1..], y);
    }
  }

  lemma {:induction false} BidiSingle(b: Bidi, e: BidiEvent)
    ensures BidiExec(b, [e]) == BidiNext(b, e)
    ensures BidiRun(b, [e]) <==> BidiLegal(b, e)
    ensures AllPending(b, [e]) <==> (BidiReturned(b, e).Some? ==> BidiReturned(b, e).value.Pending?)
    ensures CombinedPolls(b, [e]) == Bit(BidiReturned(b, e).Some?)
  {
    assert [e][1..] == [];
    assert BidiExec(b, [e]) == BidiExec(BidiNext(b, e), []);
    assert CombinedPolls(BidiNext(b, e), []) == 0;
  }

  /** The k-th event of a run, from the state before it. */
  lemma {:induction false} BidiRunAt(b: Bidi, es: seq<BidiEvent>, k: nat)
    requires BidiRun(b, es) && AllPending(b, es) && k < |es|
    ensures var bk := BidiExec(b, es[..k]);
            && BidiRun(b, es[..k]) && BidiLegal(bk, es[k]) && BidiExec(b, es[..k + 1]) == BidiNext(bk, es[k])
            && (BidiReturned(bk, es[k]).Some? ==> BidiReturned(bk, es[k]).value.Pending?)
            && BidiRun(BidiNext(bk, es[k]), es[k + 1..]) && AllPending(BidiNext(bk, es[k]), es[k + 1..])
  {
    assert es == es[..k] + ([es[k]] + es[k + 1..]) && es[..k + 1] == es[..k] + [es[k]];
    BidiAppend(b, es[..k], [es[k]] + es[k + 1..]);
    BidiAppend(BidiExec(b, es[..k]), [es[k]], es[k + 1..]);
    BidiAppend(b, es[..k], [es[k]]);
    BidiSingle(BidiExec(b, es[..k]), es[k]);
  }

  // ---- Projection ----

  /** Every run of the pair is, seen from either side, a legal run of that machine alone;
      so all one-way results hold for each direction. */
  lemma {:induction false} Projects(b: Bidi, es: seq<BidiEvent>)
    requires BidiRun(b, es)
    ensures LegalRun(b.left, LeftOf(es)) && BidiExec(b, es).left == Exec(b.left, LeftOf(es))
    ensures LegalRun(b.right, RightOf(es)) && BidiExec(b, es).right == Exec(b.right, RightOf(es))
    decreases |es|
  {
    if es != [] {
      var n := BidiNext(b, es[0]);
      Projects(n, es[1..]);
      if es[0].OnLeft? {
        assert LeftOf(es)[1..] == LeftOf(es[1..]);
        assert RightOf(es) == RightOf(es[1..]);
      } else {
        assert RightOf(es)[1..] == RightOf(es[1..]);
        assert LeftOf(es) == LeftOf(es[1..]);
      }
    }
  }

  /** Each direction keeps its own order, counters and pipe, whatever the other does. */
  lemma {:induction false} BothConserve(b0: Bidi, es: seq<BidiEvent>)
    requires BidiInit(b0) && BidiRun(b0, es)
    ensures Inv(b0.left, BidiExec(b0, es).left) && Inv(b0.right, BidiExec(b0, es).right)
  {
    Projects(b0, es);
    Reachable(b0.left, LeftOf(es));
    Reachable(b0.right, RightOf(es));
  }

  /** A finished direction only stutters while the other goes on. */
  lemma {:induction false} FinishedDirectionStutters(b: Bidi, es: seq<BidiEvent>)
    requires BidiRun(b, es)
    ensures b.left.machine.state.Finished? ==> OnlyStutters(b.left, BidiExec(b, es).left)
    ensures b.right.machine.state.Finished? ==> OnlyStutters(b.right, BidiExec(b, es).right)
  {
    Projects(b, es);
    if b.left.machine.state.Finished? {
      FinishedAbsorbs(b.left, LeftOf(es));
    }
    if b.right.machine.state.Finished? {
      FinishedAbsorbs(b.right, RightOf(es));
    }
  }

  // ---- Outcome ----

  /** While the right loop runs, the kept answer is the left machine's: Ok only from a
      finished left machine that holds no error. */
  predicate TurnOk(b: Bidi) {
    b.turn.RightTurn? && b.turn.left.ReadyOk? ==> b.left.machine.state == Finished(None)
  }

  lemma {:induction false} KeepsTurnOk(b: Bidi, es: seq<BidiEvent>)
    requires BidiRun(b, es) && TurnOk(b)
    ensures TurnOk(BidiExec(b, es))
    decreases |es|
  {
    if es != [] {
      KeepsTurnOk(BidiNext(b, es[0]), es[1..]);
    }
  }

  /** The pair is Ready(Ok) only with both directions finished and no error held. If no
      splice failed in a direction, that direction is delivered completely. */
  lemma {:induction false} BidiOk(b0: Bidi, es: seq<BidiEvent>, e: BidiEvent)
    requires BidiInit(b0) && BidiRun(b0, es) && BidiLegal(BidiExec(b0, es), e)
    requires BidiReturned(BidiExec(b0, es), e) == Some(ReadyOk)
    ensures var b := BidiExec(b0, es);
            && b.left.machine.state == Finished(None) && b.right.machine.state == Finished(None)
            && (Delivered(b0.left, b.left) || Faulted(b.left))
            && (Delivered(b0.right, b.right) || Faulted(b.right))
            && (Count(b0.left, LeftOf(es), IsFault) == 0 ==> Delivered(b0.left, b.left))
            && (Count(b0.right, RightOf(es), IsFault) == 0 ==> Delivered(b0.right, b.right))
  {
    KeepsTurnOk(b0, es);
    Projects(b0, es);
    FinishedDelivers(b0.left, LeftOf(es));
    FinishedDelivers(b0.right, RightOf(es));
  }

  /** What an Ok of the pair hides, exactly: a direction is complete if and only if none
      of its earlier polls handed out an error of its own splices. */
  lemma {:induction false} BidiOkHidesExactlyLostErrors(b0: Bidi, es: seq<BidiEvent>, e: BidiEvent)
    requires BidiInit(b0) && BidiRun(b0, es) && BidiLegal(BidiExec(b0, es), e)
    requires BidiReturned(BidiExec(b0, es), e) == Some(ReadyOk)
    ensures var b := BidiExec(b0, es);
            && (Delivered(b0.left, b.left) <==> Count(b0.left, LeftOf(es), IsFaultReport) == 0)
            && (Delivered(b0.right, b.right) <==> Count(b0.right, RightOf(es), IsFaultReport) == 0)
  {
    BidiOk(b0, es, e);
    Projects(b0, es);
    FinishedDeliversExactly(b0.left, LeftOf(es));
    FinishedDeliversExactly(b0.right, RightOf(es));
  }

  /** One byte on the left that never gets across, nothing on the right. */
  function ExampleLeft(state: TransferState): System {
    System(Machine(Ctx(NoOffset, 1, PipeEnds(true, true, 1), 0, 0), state), World([7], 0, [], [], true, true))
  }

  function ExampleRight(state: TransferState, ends: PipeEnds): System {
    System(Machine(Ctx(NoOffset, 1, ends, 0, 0), state), World([], 0, [], [], true, true))
  }

  /** First poll: the left splice fails and its error is handed out, the right is pending. */
  lemma {:induction false} ExampleFirstPoll(es: seq<BidiEvent>)
    requires es == [OnLeft(Ready(Failed(Os(5)))), OnLeft(Ready(Moved(0))), OnRight(NotReady)]
    ensures var b := Bidi(ExampleLeft(Fill), ExampleRight(Fill, PipeEnds(true, true, 1)), LeftTurn);
            BidiRun(b, es) && AllPending(b, es) && BidiExec(b, es) == b.(left := ExampleLeft(Finished(None)))
  {
    var b0 := Bidi(ExampleLeft(Fill), ExampleRight(Fill, PipeEnds(true, true, 1)), LeftTurn);
    var b1 := b0.(left := ExampleLeft(Finished(Some(Os(5)))));
    var b2 := Bidi(ExampleLeft(Finished(None)), b0.right, RightTurn(ReadyErr(Os(5))));
    var b3 := b2.(turn := LeftTurn);
    assert BidiNext(b0, es[0]) == b1 && BidiNext(b1, es[1]) == b2 && BidiNext(b2, es[2]) == b3;
    assert es[1..] == [es[1], es[2]] && es[1..][1..] == [es[2]] && [es[2]][1..] == [];
    assert BidiExec(b2, [es[2]]) == b3 && BidiRun(b2, [es[2]]) && AllPending(b2, [es[2]]);
    assert BidiExec(b1, es[1..]) == b3 && BidiRun(b1, es[1..]) && AllPending(b1, es[1..]);
  }

  /** Second poll: the left answers Ok at once, the right runs to its end. */
  lemma {:induction false} ExampleSecondPoll(es: seq<BidiEvent>)
    requires es == [OnLeft(Ready(Moved(0))), OnRight(Ready(Moved(0))), OnRight(Ready(Moved(0)))]
    ensures var b := Bidi(ExampleLeft(Finished(None)), ExampleRight(Fill, PipeEnds(true, true, 1)), LeftTurn);
            BidiRun(b, es) && AllPending(b, es)
            && BidiExec(b, es)
               == Bidi(b.left, ExampleRight(Finished(None), PipeEnds(false, false, 1)), RightTurn(ReadyOk))
  {
    var l := ExampleLeft(Finished(None));
    var b0 := Bidi(l, ExampleRight(Fill, PipeEnds(true, true, 1)), LeftTurn);
    var b1 := b0.(turn := RightTurn(ReadyOk));
    var b2 := b1.(right := ExampleRight(Drain, PipeEnds(true, false, 1)));
    var b3 := b1.(right := ExampleRight(Finished(None), PipeEnds(false, false, 1)));
    assert BidiNext(b0, es[0]) == b1 && BidiNext(b1, es[1]) == b2 && BidiNext(b2, es[2]) == b3;
    assert es[1..] == [es[1], es[2]] && es[1..][1..] == [es[2]] && [es[2]][1..] == [];
    assert BidiExec(b2, [es[2]]) == b3 && BidiRun(b2, [es[2]]) && AllPending(b2, [es[2]]);
    assert BidiExec(b1, es[1..]) == b3 && BidiRun(b1, es[1..]) && AllPending(b1, es[1..]);
  }

  /** A lost error, end to end: the left direction faults while the right one is pending;
      every later poll is clean, and the pair reports Ok having delivered nothing. */
  lemma {:induction false} LostErrorExample()
    ensures exists b0: Bidi, es: seq<BidiEvent>, e: BidiEvent ::
              && BidiInit(b0) && BidiRun(b0, es) && AllPending(b0, es)
              && BidiLegal(BidiExec(b0, es), e) && BidiReturned(BidiExec(b0, es), e) == Some(ReadyOk)
              && !Delivered(b0.left, BidiExec(b0, es).left)
  {
    var b0 := Bidi(ExampleLeft(Fill), ExampleRight(Fill, PipeEnds(true, true, 1)), LeftTurn);
    var ok := Ready(Moved(0));
    var first := [OnLeft(Ready(Failed(Os(5)))), OnLeft(ok), OnRight(NotReady)];
    var second := [OnLeft(ok), OnRight(ok), OnRight(ok)];
    ExampleFirstPoll(first);
    ExampleSecondPoll(second);
    BidiAppend(b0, first, second);
    var b := BidiExec(b0, first + second);
    assert BidiReturned(b, OnRight(ok)) == Some(ReadyOk);
    assert BidiLegal(b, OnRight(ok)) && BidiInit(b0);
    assert !Delivered(b0.left, b.left);
  }
}
