/** Combined polls of the product machine, put together from one poll of each direction. */
module BidirectionalPolls {
  import opened Basics
  import opened TransferMachine
  import opened Environment
  import opened Delivery
  import opened Progress
  import opened Bidirectional
  import opened ErrorLoss

  function OnLefts(evs: seq<Event>): (r: seq<BidiEvent>)
    ensures |r| == |evs|
  {
    seq(|evs|, i requires 0 <= i < |evs| => OnLeft(evs[i]))
  }

  function OnRights(evs: seq<Event>): (r: seq<BidiEvent>)
    ensures |r| == |evs|
  {
    seq(|evs|, i requires 0 <= i < |evs| => OnRight(evs[i]))
  }

  /** A poll of the left machine is its turn in the product, and hands over. */
  lemma {:induction false} LeftPollRuns(b: Bidi, evs: seq<Event>, result: PollResult)
    requires b.turn.LeftTurn? && IsPoll(b.left, evs, result)
    ensures BidiRun(b, OnLefts(evs)) && AllPending(b, OnLefts(evs)) && CombinedPolls(b, OnLefts(evs)) == 0
    ensures BidiExec(b, OnLefts(evs)) == b.(left := Exec(b.left, evs), turn := RightTurn(result))
    decreases |evs|
  {
    var es, n := OnLefts(evs), BidiNext(b, OnLeft(evs[0]));
    assert es[1..] == OnLefts(evs[1..]);
    if |evs| == 1 {
      assert evs[..0] == [] && evs[1..] == [];
    } else {
      var k := |evs| - 1;
      assert evs[..k][1..] == evs[1..][..k - 1] && evs[..k][0] == evs[0];
      LeftPollRuns(n, evs[1..], result);
    }
  }

  /** A poll of the right machine, up to but not including the event that returns. */
  lemma {:induction false} RightTurnRuns(b: Bidi, evs: seq<Event>)
    requires b.turn.RightTurn? && LegalRun(b.right, evs) && Count(b.right, evs, IsReturn) == 0
    ensures BidiRun(b, OnRights(evs)) && AllPending(b, OnRights(evs)) && CombinedPolls(b, OnRights(evs)) == 0
    ensures BidiExec(b, OnRights(evs)) == b.(right := Exec(b.right, evs))
    decreases |evs|
  {
    if evs != [] {
      assert OnRights(evs)[1..] == OnRights(evs[1..]);
      RightTurnRuns(BidiNext(b, OnRight(evs[0])), evs[1..]);
    }
  }

  lemma {:induction false} Sides(ls: seq<Event>, rs: seq<Event>)
    ensures LeftOf(OnLefts(ls) + OnRights(rs)) == ls && RightOf(OnLefts(ls) + OnRights(rs)) == rs
    decreases |ls| + |rs|
  {
    var es := OnLefts(ls) + OnRights(rs);
    if ls != [] {
      assert es[1..] == OnLefts(ls[1..]) + OnRights(rs);
      Sides(ls[1..], rs);
    } else if rs != [] {
      assert es[1..] == OnLefts([]) + OnRights(rs[1..]);
      Sides([], rs[1..]);
    }
  }

  /** One combined poll: none of its events but the last ends it, and that one returns
      `result`. */
  ghost predicate IsBidiPoll(b: Bidi, es: seq<BidiEvent>, e: BidiEvent, result: PollResult) {
    && BidiRun(b, es) && AllPending(b, es) && CombinedPolls(b, es) == 0
    && BidiLegal(BidiExec(b, es), e) && BidiReturned(BidiExec(b, es), e) == Some(result)
  }

  lemma {:induction false} PollsCompose(b: Bidi, ls: seq<Event>, l: PollResult, rs: seq<Event>, r: PollResult)
    returns (es: seq<BidiEvent>, e: BidiEvent)
    requires b.turn.LeftTurn? && IsPoll(b.left, ls, l) && IsPoll(b.right, rs, r)
    ensures IsBidiPoll(b, es, e, Combine(l, r))
    ensures LeftOf(es + [e]) == ls && RightOf(es + [e]) == rs
    ensures BidiNext(BidiExec(b, es), e) == Bidi(Exec(b.left, ls), Exec(b.right, rs), LeftTurn)
  {
    var k := |rs| - 1;
    var mid := b.(left := Exec(b.left, ls), turn := RightTurn(l));
    assert rs == rs[..k] + [rs[k]];
    ExecAppend(b.right, rs[..k], [rs[k]]);
    ExecSingle(Exec(b.right, rs[..k]), rs[k]);
    LeftPollRuns(b, ls, l);
    RightTurnRuns(mid, rs[..k]);
    BidiAppend(b, OnLefts(ls), OnRights(rs[..k]));
    es, e := OnLefts(ls) + OnRights(rs[..k]), OnRight(rs[k]);
    assert es + [e] == OnLefts(ls) + OnRights(rs);
    Sides(ls, rs);
  }

  lemma {:induction false} OkIsFinished(s: System, evs: seq<Event>, result: PollResult)
    requires IsPoll(s, evs, result)
    ensures result.ReadyOk? ==> Exec(s, evs).machine.state == Finished(None)
  {
    var k := |evs| - 1;
    assert evs == evs[..k] + [evs[k]];
    ExecAppend(s, evs[..k], [evs[k]]);
    ExecSingle(Exec(s, evs[..k]), evs[k]);
  }

  /** A direction's own Ok vouches for it exactly if it never handed out a stored error. */
  lemma {:induction false} OkVouches(s0: System, past: seq<Event>, trace: seq<Event>, result: PollResult)
    requires Init(s0) && LegalRun(s0, past) && IsPoll(Exec(s0, past), trace, result)
    ensures result.ReadyOk? ==>
              (Delivered(s0, Exec(s0, past + trace)) <==> Count(s0, past + trace, IsFaultReport) == 0)
  {
    ExecAppend(s0, past, trace);
    OkIsFinished(Exec(s0, past), trace, result);
    if result.ReadyOk? {
      FinishedDeliversExactly(s0, past + trace);
    }
  }

  lemma {:induction false} LeftOfAppend(x: seq<BidiEvent>, y: seq<BidiEvent>)
    ensures LeftOf(x + y) == LeftOf(x) + LeftOf(y)
    decreases |x|
  {
    if x == [] {
      assert x + y == y;
    } else {
      assert (x + y)[1..] == x[1..] + y;
      var first := if x[0].OnLeft? then [x[0].ev] else [];
      LeftOfAppend(x[1..], y);
      assert first + (LeftOf(x[1..]) + LeftOf(y)) == first + LeftOf(x[1..]) + LeftOf(y);
    }
  }

  lemma {:induction false} RightOfAppend(x: seq<BidiEvent>, y: seq<BidiEvent>)
    ensures RightOf(x + y) == RightOf(x) + RightOf(y)
    decreases |x|
  {
    if x == [] {
      assert x + y == y;
    } else {
      assert (x + y)[1..] == x[1..] + y;
      var first := if x[0].OnRight? then [x[0].ev] else [];
      RightOfAppend(x[1..], y);
      assert first + (RightOf(x[1..]) + RightOf(y)) == first + RightOf(x[1..]) + RightOf(y);
    }
  }

  /** A combined poll as the next part of a history. */
  lemma {:induction false} PollInHistory(b0: Bidi, past: seq<BidiEvent>,
                                         ls: seq<Event>, l: PollResult, rs: seq<Event>, r: PollResult)
    returns (es: seq<BidiEvent>, e: BidiEvent)
    requires BidiRun(b0, past)
    requires var b := BidiExec(b0, past); b.turn.LeftTurn? && IsPoll(b.left, ls, l) && IsPoll(b.right, rs, r)
    ensures var b, h := BidiExec(b0, past), past + (es + [e]);
            && IsBidiPoll(b, es, e, Combine(l, r)) && BidiRun(b0, h)
            && BidiExec(b0, h) == Bidi(Exec(b.left, ls), Exec(b.right, rs), LeftTurn)
            && LeftOf(h) == LeftOf(past) + ls && RightOf(h) == RightOf(past) + rs
            && CombinedPolls(b0, h) == CombinedPolls(b0, past) + 1
            && (AllPending(b0, past) ==>
                  if Combine(l, r).Pending? then AllPending(b0, h) else FirstReady(b0, h, Combine(l, r)))
  {
    var b := BidiExec(b0, past);
    es, e := PollsCompose(b, ls, l, rs, r);
    var h := past + (es + [e]);
    BidiAppend(b0, past, es + [e]);
    BidiAppend(b, es, [e]);
    BidiSingle(BidiExec(b, es), e);
    BidiAppend(b0, past, es);
    assert h[..|h| - 1] == past + es;
    LeftOfAppend(past, es + [e]);
    RightOfAppend(past, es + [e]);
  }

  lemma {:induction false} LeftArmsRun(b: Bidi, arms: seq<Event>)
    requires forall i :: 0 <= i < |arms| ==> IsArm(arms[i])
    ensures BidiRun(b, OnLefts(arms)) && AllPending(b, OnLefts(arms)) && CombinedPolls(b, OnLefts(arms)) == 0
    ensures BidiExec(b, OnLefts(arms)) == b.(left := Exec(b.left, arms))
    decreases |arms|
  {
    if arms != [] {
      assert OnLefts(arms)[1..] == OnLefts(arms[1..]);
      LeftArmsRun(BidiNext(b, OnLeft(arms[0])), arms[1..]);
    }
  }

  lemma {:induction false} RightArmsRun(b: Bidi, arms: seq<Event>)
    requires forall i :: 0 <= i < |arms| ==> IsArm(arms[i])
    ensures BidiRun(b, OnRights(arms)) && AllPending(b, OnRights(arms)) && CombinedPolls(b, OnRights(arms)) == 0
    ensures BidiExec(b, OnRights(arms)) == b.(right := Exec(b.right, arms))
    decreases |arms|
  {
    if arms != [] {
      assert OnRights(arms)[1..] == OnRights(arms[1..]);
      RightArmsRun(BidiNext(b, OnRight(arms[0])), arms[1..]);
    }
  }

  /** A wake-up of both sides as the next part of a history. */
  lemma {:induction false} WakeInHistory(b0: Bidi, past: seq<BidiEvent>, la: seq<Event>, ra: seq<Event>)
    requires BidiRun(b0, past)
    requires forall i :: 0 <= i < |la| ==> IsArm(la[i])
    requires forall i :: 0 <= i < |ra| ==> IsArm(ra[i])
    ensures var b, h := BidiExec(b0, past), past + (OnLefts(la) + OnRights(ra));
            && BidiRun(b0, h) && (AllPending(b0, past) ==> AllPending(b0, h))
            && BidiExec(b0, h) == b.(left := Exec(b.left, la), right := Exec(b.right, ra))
            && LeftOf(h) == LeftOf(past) + la && RightOf(h) == RightOf(past) + ra
            && CombinedPolls(b0, h) == CombinedPolls(b0, past)
  {
    var b := BidiExec(b0, past);
    LeftArmsRun(b, la);
    RightArmsRun(BidiExec(b, OnLefts(la)), ra);
    BidiAppend(b, OnLefts(la), OnRights(ra));
    BidiAppend(b0, past, OnLefts(la) + OnRights(ra));
    LeftOfAppend(past, OnLefts(la) + OnRights(ra));
    RightOfAppend(past, OnLefts(la) + OnRights(ra));
    Sides(la, ra);
  }

  /** No reachable pair is stuck: if neither direction has faulted, one combined poll can
      complete both, given readiness where it is missing. */
  lemma {:induction false} PairCompletes(b0: Bidi, past: seq<BidiEvent>) returns (es: seq<BidiEvent>, e: BidiEvent)
    requires BidiInit(b0) && BidiRun(b0, past)
    requires var b := BidiExec(b0, past); b.turn.LeftTurn? && !Faulted(b.left) && !Faulted(b.right)
    ensures var b := BidiExec(b0, past);
            var n := BidiNext(BidiExec(b, es), e);
            IsBidiPoll(b, es, e, ReadyOk) && Delivered(b0.left, n.left) && Delivered(b0.right, n.right)
  {
    var b := BidiExec(b0, past);
    BothConserve(b0, past);
    var ls := CompletesInOnePoll(b0.left, b.left);
    var rs := CompletesInOnePoll(b0.right, b.right);
    es, e := PollsCompose(b, ls, ReadyOk, rs, ReadyOk);
  }
}
