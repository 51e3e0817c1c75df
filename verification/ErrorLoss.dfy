/** Which splice errors a bidirectional transfer loses, exactly. */
module ErrorLoss {
  import opened Basics
  import opened TransferMachine
  import opened Environment
  import opened Conservation
  import opened Delivery
  import opened Bidirectional

  /** The left direction hands out its stored error. */
  predicate LeftHandsOut(b: Bidi, e: BidiEvent, err: IoError) {
    e.OnLeft? && IsFaultReport(b.left, e.ev) && b.left.machine.state.error == Some(err)
  }

  predicate RightHandsOut(b: Bidi, e: BidiEvent, err: IoError) {
    e.OnRight? && IsFaultReport(b.right, e.ev) && b.right.machine.state.error == Some(err)
  }

  /** The left's error, handed out at event k, is kept for the right's answer up to j. */
  ghost predicate LeftKept(b: Bidi, es: seq<BidiEvent>, k: nat, j: nat, err: IoError) {
    && k < j <= |es|
    && LeftHandsOut(BidiExec(b, es[..k]), es[k], err)
    && (forall i :: k < i <= j ==> BidiExec(b, es[..i]).turn == RightTurn(ReadyErr(err)))
  }

  /** Handed out by the left at event k, dropped at event j, which ends that very combined
      poll with the right Pending. */
  ghost predicate LeftLost(b: Bidi, es: seq<BidiEvent>, k: nat, j: nat, err: IoError) {
    && j < |es| && LeftKept(b, es, k, j, err)
    && es[j].OnRight? && Returned(BidiExec(b, es[..j]).right, es[j].ev) == Some(Pending)
  }

  /** Handed out by the right at event k, in a combined poll in which the left was Pending. */
  ghost predicate RightLost(b: Bidi, es: seq<BidiEvent>, k: nat, err: IoError) {
    && k < |es| && RightHandsOut(BidiExec(b, es[..k]), es[k], err)
    && BidiExec(b, es[..k]).turn == RightTurn(Pending)
  }

  ghost predicate SomeLeftLost(b: Bidi, es: seq<BidiEvent>) {
    exists k: nat, j: nat, err :: LeftLost(b, es, k, j, err)
  }

  ghost predicate SomeRightLost(b: Bidi, es: seq<BidiEvent>) {
    exists k: nat, err :: RightLost(b, es, k, err)
  }

  /** The left's error is the one kept for the answer that is still out at the end. */
  ghost predicate LeftKeptToEnd(b: Bidi, es: seq<BidiEvent>, err: IoError) {
    exists k: nat :: LeftKept(b, es, k, |es|, err)
  }

  // ---- Hand-outs as events of the product ----

  lemma {:induction false} FindLeftHandOut(b: Bidi, es: seq<BidiEvent>) returns (k: nat, err: IoError)
    requires Count(b.left, LeftOf(es), IsFaultReport) > 0
    ensures k < |es| && LeftHandsOut(BidiExec(b, es[..k]), es[k], err)
    decreases |es|
  {
    assert es[..0] == [];
    if es[0].OnLeft? && IsFaultReport(b.left, es[0].ev) {
      k, err := 0, b.left.machine.state.error.value;
    } else {
      SidesOfTail(es);
      k, err := FindLeftHandOut(BidiNext(b, es[0]), es[1..]);
      assert es[..k + 1][1..] == es[1..][..k];
      k := k + 1;
    }
  }

  lemma {:induction false} FindRightHandOut(b: Bidi, es: seq<BidiEvent>) returns (k: nat, err: IoError)
    requires Count(b.right, RightOf(es), IsFaultReport) > 0
    ensures k < |es| && RightHandsOut(BidiExec(b, es[..k]), es[k], err)
    decreases |es|
  {
    assert es[..0] == [];
    if es[0].OnRight? && IsFaultReport(b.right, es[0].ev) {
      k, err := 0, b.right.machine.state.error.value;
    } else {
      SidesOfTail(es);
      k, err := FindRightHandOut(BidiNext(b, es[0]), es[1..]);
      assert es[..k + 1][1..] == es[1..][..k];
      k := k + 1;
    }
  }

  lemma {:induction false} SidesOfTail(es: seq<BidiEvent>)
    requires es != []
    ensures if es[0].OnLeft? then LeftOf(es) == [es[0].ev] + LeftOf(es[1..]) && RightOf(es) == RightOf(es[1..])
            else RightOf(es) == [es[0].ev] + RightOf(es[1..]) && LeftOf(es) == LeftOf(es[1..])
    ensures es[0].OnLeft? ==> LeftOf(es)[1..] == LeftOf(es[1..])
    ensures es[0].OnRight? ==> RightOf(es)[1..] == RightOf(es[1..])
  {
  }

  lemma {:induction false} HandOutsCount(b: Bidi, es: seq<BidiEvent>, k: nat, err: IoError)
    requires k < |es|
    ensures LeftHandsOut(BidiExec(b, es[..k]), es[k], err) ==> Count(b.left, LeftOf(es), IsFaultReport) > 0
    ensures RightHandsOut(BidiExec(b, es[..k]), es[k], err) ==> Count(b.right, RightOf(es), IsFaultReport) > 0
    decreases |es|
  {
    SidesOfTail(es);
    if k == 0 {
      assert es[..0] == [];
    } else {
      assert es[..k][1..] == es[1..][..k - 1];
      HandOutsCount(BidiNext(b, es[0]), es[1..], k - 1, err);
    }
  }

  // ---- What becomes of a hand-out ----

  /** While no combined poll is Ready, an error kept for the right stays kept until a poll
      ends with the right Pending. */
  lemma {:induction false} KeptOrDropped(b: Bidi, es: seq<BidiEvent>, err: IoError) returns (j: nat)
    requires BidiRun(b, es) && AllPending(b, es) && b.turn == RightTurn(ReadyErr(err))
    ensures j <= |es| && forall i :: 0 <= i <= j ==> BidiExec(b, es[..i]).turn == RightTurn(ReadyErr(err))
    ensures j < |es| ==> es[j].OnRight? && Returned(BidiExec(b, es[..j]).right, es[j].ev) == Some(Pending)
    decreases |es|
  {
    assert es[..0] == [];
    j := 0;
    if es != [] && BidiNext(b, es[0]).turn == b.turn {
      var n := BidiNext(b, es[0]);
      j := KeptOrDropped(n, es[1..], err);
      forall i | 0 < i <= j + 1
        ensures BidiExec(b, es[..i]).turn == RightTurn(ReadyErr(err))
      {
        assert es[..i][1..] == es[1..][..i - 1];
      }
      assert es[..j + 1][1..] == es[1..][..j];
      j := j + 1;
    }
  }

  /** Every hand-out of the left is either lost, or kept for an answer still out. */
  lemma {:induction false} LeftFate(b: Bidi, es: seq<BidiEvent>) returns (k: nat, j: nat, err: IoError)
    requires BidiRun(b, es) && AllPending(b, es) && Count(b.left, LeftOf(es), IsFaultReport) > 0
    ensures LeftLost(b, es, k, j, err) || (j == |es| && LeftKept(b, es, k, j, err))
  {
    k, err := FindLeftHandOut(b, es);
    BidiRunAt(b, es, k);
    var n := BidiExec(b, es[..k + 1]);
    j := KeptOrDropped(n, es[k + 1..], err);
    forall i | k < i <= k + 1 + j
      ensures BidiExec(b, es[..i]) == BidiExec(n, es[k + 1..][..i - k - 1])
    {
      assert es[..i] == es[..k + 1] + es[k + 1..][..i - k - 1];
      BidiAppend(b, es[..k + 1], es[k + 1..][..i - k - 1]);
    }
    j := k + 1 + j;
  }

  /** After its hand-out the left holds no error, ever again. */
  lemma {:induction false} AfterHandOut(b: Bidi, es: seq<BidiEvent>, k: nat, err: IoError, i: nat)
    requires BidiRun(b, es) && AllPending(b, es) && k < i <= |es|
    requires LeftHandsOut(BidiExec(b, es[..k]), es[k], err)
    ensures BidiExec(b, es[..i]).left.machine.state == Finished(None)
  {
    BidiRunAt(b, es, k);
    var n, mid := BidiExec(b, es[..k + 1]), es[k + 1..i];
    assert es[k + 1..] == mid + es[i..] && es[..i] == es[..k + 1] + mid;
    BidiAppend(n, mid, es[i..]);
    BidiAppend(b, es[..k + 1], mid);
    FinishedDirectionStutters(n, mid);
  }

  lemma {:induction false} HandsOutOnce(b: Bidi, es: seq<BidiEvent>, k: nat, err: IoError, k': nat, err': IoError)
    requires BidiRun(b, es) && AllPending(b, es) && k < |es| && k' < |es|
    requires LeftHandsOut(BidiExec(b, es[..k]), es[k], err) && LeftHandsOut(BidiExec(b, es[..k']), es[k'], err')
    ensures k == k'
  {
    if k < k' {
      AfterHandOut(b, es, k, err, k');
    } else if k' < k {
      AfterHandOut(b, es, k', err', k);
    }
  }

  /** Not both: what is lost is not kept to the end. */
  lemma {:induction false} LostIsNotKept(b: Bidi, es: seq<BidiEvent>, k: nat, j: nat, err: IoError,
                                         k': nat, err': IoError)
    requires BidiRun(b, es) && AllPending(b, es) && LeftLost(b, es, k, j, err)
    ensures !LeftKept(b, es, k', |es|, err')
  {
    BidiRunAt(b, es, j);
    assert BidiExec(b, es[..j + 1]).turn == LeftTurn;
    if k' < |es| && LeftHandsOut(BidiExec(b, es[..k']), es[k'], err') {
      HandsOutOnce(b, es, k, err, k', err');
    }
  }

  /** What is kept to the end is the left answer of the poll still out. */
  lemma {:induction false} KeptIsTheTurn(b: Bidi, es: seq<BidiEvent>)
    ensures forall err :: LeftKeptToEnd(b, es, err) ==> BidiExec(b, es).turn == RightTurn(ReadyErr(err))
  {
    assert es[..|es|] == es;
    forall k: nat, err | LeftKept(b, es, k, |es|, err)
      ensures BidiExec(b, es).turn == RightTurn(ReadyErr(err))
    {
      assert BidiExec(b, es[..|es|]).turn == RightTurn(ReadyErr(err));
    }
  }

  /** While no combined poll is Ready, the right's hand-outs are lost, all of them. */
  lemma {:induction false} RightFate(b: Bidi, es: seq<BidiEvent>, k: nat, err: IoError)
    requires BidiRun(b, es) && AllPending(b, es)
    requires k < |es| && RightHandsOut(BidiExec(b, es[..k]), es[k], err)
    ensures RightLost(b, es, k, err)
  {
    BidiRunAt(b, es, k);
  }

  lemma {:induction false} SomeRightLostExactly(b: Bidi, es: seq<BidiEvent>)
    requires BidiRun(b, es) && AllPending(b, es)
    ensures SomeRightLost(b, es) <==> Count(b.right, RightOf(es), IsFaultReport) > 0
  {
    if Count(b.right, RightOf(es), IsFaultReport) > 0 {
      var k, err := FindRightHandOut(b, es);
      RightFate(b, es, k, err);
    }
    forall k: nat, err | RightLost(b, es, k, err)
      ensures Count(b.right, RightOf(es), IsFaultReport) > 0
    {
      HandOutsCount(b, es, k, err);
    }
  }

  /** Lost, or kept to the end: exactly one of them, and exactly when there was a hand-out. */
  lemma {:induction false} SomeLeftLostExactly(b: Bidi, es: seq<BidiEvent>)
    requires BidiRun(b, es) && AllPending(b, es)
    ensures Count(b.left, LeftOf(es), IsFaultReport) > 0
            <==> SomeLeftLost(b, es) || exists err :: LeftKeptToEnd(b, es, err)
    ensures !(SomeLeftLost(b, es) && exists err :: LeftKeptToEnd(b, es, err))
  {
    if Count(b.left, LeftOf(es), IsFaultReport) > 0 {
      var k, j, err := LeftFate(b, es);
      assert LeftLost(b, es, k, j, err) || LeftKeptToEnd(b, es, err);
    }
    forall k: nat, j: nat, err | LeftKept(b, es, k, j, err)
      ensures Count(b.left, LeftOf(es), IsFaultReport) > 0
    {
      HandOutsCount(b, es, k, err);
    }
    forall k: nat, j: nat, err, k': nat, err' | LeftLost(b, es, k, j, err)
      ensures !LeftKept(b, es, k', |es|, err')
    {
      LostIsNotKept(b, es, k, j, err, k', err');
    }
  }

  // ---- Main results ----

  /** A first Ready result that is Ok: a direction is incomplete if and only if its stored
      error was handed out in an earlier combined poll in which the other direction was
      Pending. */
  lemma {:induction false} OkLosesExactly(b0: Bidi, es: seq<BidiEvent>, e: BidiEvent)
    requires BidiInit(b0) && BidiRun(b0, es) && AllPending(b0, es)
    requires BidiLegal(BidiExec(b0, es), e) && BidiReturned(BidiExec(b0, es), e) == Some(ReadyOk)
    ensures !Delivered(b0.left, BidiExec(b0, es).left) <==> SomeLeftLost(b0, es)
    ensures !Delivered(b0.right, BidiExec(b0, es).right) <==> SomeRightLost(b0, es)
  {
    BidiOkHidesExactlyLostErrors(b0, es, e);
    SomeLeftLostExactly(b0, es);
    SomeRightLostExactly(b0, es);
    KeptIsTheTurn(b0, es);
  }

  /** The step that makes the pair Ready(Ok) changes neither direction. */
  lemma {:induction false} OkStep(b: Bidi, e: BidiEvent)
    requires BidiReturned(b, e) == Some(ReadyOk)
    ensures BidiNext(b, e).left == b.left && BidiNext(b, e).right == b.right
  {
  }

  /** A history whose last event is the first to make a combined poll Ready. */
  ghost predicate FirstReady(b0: Bidi, history: seq<BidiEvent>, result: PollResult) {
    && history != [] && BidiRun(b0, history) && !result.Pending?
    && AllPending(b0, history[..|history| - 1])
    && BidiReturned(BidiExec(b0, history[..|history| - 1]), history[|history| - 1]) == Some(result)
  }

  /** `OkLosesExactly`, read off the state after the poll. */
  lemma {:induction false} FirstOkLosesExactly(b0: Bidi, history: seq<BidiEvent>)
    requires BidiInit(b0) && FirstReady(b0, history, ReadyOk)
    ensures !Delivered(b0.left, BidiExec(b0, history).left) <==> SomeLeftLost(b0, history[..|history| - 1])
    ensures !Delivered(b0.right, BidiExec(b0, history).right) <==> SomeRightLost(b0, history[..|history| - 1])
  {
    var es, e := history[..|history| - 1], history[|history| - 1];
    assert history == es + [e];
    BidiAppend(b0, es, [e]);
    BidiSingle(BidiExec(b0, es), e);
    OkLosesExactly(b0, es, e);
    OkStep(BidiExec(b0, es), e);
  }

  lemma {:induction false} FaultedHoldsOrHandedOut(b0: Bidi, es: seq<BidiEvent>)
    requires BidiInit(b0) && BidiRun(b0, es)
    ensures var b := BidiExec(b0, es);
            && Bit(Faulted(b.left)) == Bit(HoldsError(b.left)) + Count(b0.left, LeftOf(es), IsFaultReport)
            && Bit(Faulted(b.right)) == Bit(HoldsError(b.right)) + Count(b0.right, RightOf(es), IsFaultReport)
  {
    Projects(b0, es);
    InitInv(b0.left);
    InitInv(b0.right);
    FaultedExactly(b0.left, b0.left, LeftOf(es));
    FaultedExactly(b0.right, b0.right, RightOf(es));
    ErrorsConserved(b0.left, LeftOf(es));
    ErrorsConserved(b0.right, RightOf(es));
  }

  /** A first Ready result that is an error x, and what became of each direction's fault.
      Left: still held, or reported as x, or lost in an earlier Pending poll.
      Right: still held, or handed out just now, or lost in an earlier Pending poll; and
      handed out just now it is reported as x, unless the left returned an error too,
      which then is x and hides it. */
  lemma {:induction false} FirstErrorHidesExactly(b0: Bidi, es: seq<BidiEvent>, e: BidiEvent, x: IoError)
    requires BidiInit(b0) && BidiRun(b0, es) && AllPending(b0, es)
    requires BidiLegal(BidiExec(b0, es), e) && BidiReturned(BidiExec(b0, es), e) == Some(ReadyErr(x))
    ensures var b := BidiExec(b0, es);
            var n := BidiNext(b, e);
            && (Faulted(n.left) <==> HoldsError(n.left) || LeftKeptToEnd(b0, es, x) || SomeLeftLost(b0, es))
            && Bit(HoldsError(n.left)) + Bit(LeftKeptToEnd(b0, es, x)) + Bit(SomeLeftLost(b0, es)) <= 1
            && (Faulted(n.right) <==>
                  HoldsError(n.right) || IsFaultReport(b.right, e.ev) || SomeRightLost(b0, es))
            && Bit(HoldsError(n.right)) + Bit(IsFaultReport(b.right, e.ev)) + Bit(SomeRightLost(b0, es)) <= 1
            && (b.turn.left.ReadyErr? ==> x == b.turn.left.e)
            && (IsFaultReport(b.right, e.ev) && !b.turn.left.ReadyErr? ==> b.right.machine.state.error == Some(x))
  {
    var b := BidiExec(b0, es);
    FaultedHoldsOrHandedOut(b0, es);
    SomeLeftLostExactly(b0, es);
    SomeRightLostExactly(b0, es);
    KeptIsTheTurn(b0, es);
    RightStep(b, e);
  }

  /** A step that returns from the right: it hands out the stored error, or leaves the
      machine as it was. */
  lemma {:induction false} RightStep(b: Bidi, e: BidiEvent)
    requires BidiLegal(b, e) && BidiReturned(b, e).Some?
    ensures var n := BidiNext(b, e);
            && n.left == b.left
            && (if IsFaultReport(b.right, e.ev) then HoldsError(b.right) && !HoldsError(n.right)
                else n.right.machine == b.right.machine)
            && Faulted(n.right) == Faulted(b.right)
  {
  }
}
