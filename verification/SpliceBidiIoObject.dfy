/** `SpliceBidiIo`: its poll is a run of the product machine that ends a combined poll. */
module SpliceBidiIoObject {
  import opened Basics
  import opened TransferMachine
  import opened Environment
  import opened Conservation
  import opened Delivery
  import opened Progress
  import opened Bidirectional
  import opened BidirectionalPolls
  import opened ErrorLoss
  import opened KernelObject
  import opened SpliceIoObject

  class SpliceBidiIo {
    const ioSl2Sr: SpliceIo
    const ioSr2Sl: SpliceIo
    /** The pair this transfer started as, and everything that happened since. */
    ghost const origin: Bidi
    ghost var history: seq<BidiEvent>

    /** The pair with its two kernels, between polls. */
    function Pair(kl: Kernel, kr: Kernel): Bidi
      reads ioSl2Sr, ioSl2Sr.splicer, ioSl2Sr.splicer.pipe, kl
      reads ioSr2Sl, ioSr2Sl.splicer, ioSr2Sl.splicer.pipe, kr
    {
      Bidi(ioSl2Sr.Sys(kl), ioSr2Sl.Sys(kr), LeftTurn)
    }

    /** Two transfers that share nothing. */
    ghost predicate Apart(kl: Kernel, kr: Kernel) {
      && ioSl2Sr != ioSr2Sl && kl != kr && kl.clock == kr.clock
      && ioSl2Sr.splicer != ioSr2Sl.splicer && ioSl2Sr.splicer.pipe != ioSr2Sl.splicer.pipe
    }

    /** The product history leads from the origin to the current pair, and each direction's
        own history is its part of it. */
    ghost predicate Valid(kl: Kernel, kr: Kernel)
      reads this, ioSl2Sr, ioSl2Sr.splicer, ioSl2Sr.splicer.pipe, kl
      reads ioSr2Sl, ioSr2Sl.splicer, ioSr2Sl.splicer.pipe, kr
    {
      && Apart(kl, kr) && ioSl2Sr.Valid(kl) && ioSr2Sl.Valid(kr)
      && BidiInit(origin) && BidiRun(origin, history) && BidiExec(origin, history) == Pair(kl, kr)
      && ioSl2Sr.origin == origin.left && ioSl2Sr.history == LeftOf(history)
      && ioSr2Sl.origin == origin.right && ioSr2Sl.history == RightOf(history)
    }

    constructor (l: SpliceIo, r: SpliceIo, kl: Kernel, kr: Kernel)
      requires l.Valid(kl) && l.history == [] && r.Valid(kr) && r.history == []
      requires l != r && kl != kr && kl.clock == kr.clock && l.splicer != r.splicer && l.splicer.pipe != r.splicer.pipe
      ensures Valid(kl, kr) && history == [] && ioSl2Sr == l && ioSr2Sl == r
    {
      ioSl2Sr, ioSr2Sl := l, r;
      origin, history := Bidi(l.Sys(kl), r.Sys(kr), LeftTurn), [];
    }

    /** Both polls, always, and the left to its end before the right. */
    method PollBoth(kl: Kernel, kr: Kernel)
      returns (l: PollResult, r: PollResult, ghost ls: seq<Event>, ghost rs: seq<Event>)
      requires Apart(kl, kr) && ioSl2Sr.Valid(kl) && ioSr2Sl.Valid(kr)
      modifies ioSl2Sr, ioSl2Sr.splicer, ioSl2Sr.splicer.pipe, kl
      modifies ioSr2Sl, ioSr2Sl.splicer, ioSr2Sl.splicer.pipe, kr, kl.clock
      ensures ioSl2Sr.Valid(kl) && ioSl2Sr.history == old(ioSl2Sr.history) + ls
      ensures ioSr2Sl.Valid(kr) && ioSr2Sl.history == old(ioSr2Sl.history) + rs
      ensures IsPoll(old(ioSl2Sr.Sys(kl)), ls, l) && ioSl2Sr.Sys(kl) == Exec(old(ioSl2Sr.Sys(kl)), ls)
      ensures IsPoll(old(ioSr2Sl.Sys(kr)), rs, r) && ioSr2Sl.Sys(kr) == Exec(old(ioSr2Sl.Sys(kr)), rs)
      ensures old(kl.clock.now) < kl.lastCall < kr.lastCall
    {
      ghost var right := ioSr2Sl.Sys(kr);
      l, ls := ioSl2Sr.PollExecute(kl);
      assert ioSr2Sl.Sys(kr) == right && ioSr2Sl.Valid(kr);
      ghost var left := ioSl2Sr.Sys(kl);
      r, rs := ioSr2Sl.PollExecute(kr);
      assert ioSl2Sr.Sys(kl) == left && ioSl2Sr.Valid(kl);
    }

    /** Polls both directions. The call is one combined poll of the product machine, from
        where the last one stopped. */
    method PollExecute(kl: Kernel, kr: Kernel)
      returns (result: PollResult, ghost es: seq<BidiEvent>, ghost e: BidiEvent)
      requires Valid(kl, kr)
      modifies this`history, ioSl2Sr, ioSl2Sr.splicer, ioSl2Sr.splicer.pipe, kl
      modifies ioSr2Sl, ioSr2Sl.splicer, ioSr2Sl.splicer.pipe, kr, kl.clock
      ensures Valid(kl, kr) && history == old(history) + (es + [e])
      ensures IsBidiPoll(old(Pair(kl, kr)), es, e, result)
      ensures old(kl.clock.now) < kl.lastCall < kr.lastCall
      ensures CombinedPolls(origin, history) == CombinedPolls(origin, old(history)) + 1
      ensures AllPending(origin, old(history)) ==>
                if result.Pending? then AllPending(origin, history) else FirstReady(origin, history, result)
      ensures result.ReadyOk? ==> VouchedExactly(kl, kr)
    {
      var l, r;
      ghost var ls, rs;
      l, r, ls, rs := PollBoth(kl, kr);
      es, e := PollInHistory(origin, history, ls, l, rs, r);
      OkVouches(origin.left, LeftOf(history), ls, l);
      OkVouches(origin.right, RightOf(history), rs, r);
      history := history + (es + [e]);
      match (l, r) {
        case (Pending, _) => result := Pending;
        case (_, Pending) => result := Pending;
        case (ReadyOk, ReadyOk) => result := ReadyOk;
        case (ReadyErr(err), _) => result := ReadyErr(err);
        case (_, ReadyErr(err)) => result := ReadyErr(err);
      }
    }

    /** Each direction is complete exactly when it never handed out a stored error. */
    ghost predicate VouchedExactly(kl: Kernel, kr: Kernel)
      reads ioSl2Sr, ioSl2Sr.splicer, ioSl2Sr.splicer.pipe, kl
      reads ioSr2Sl, ioSr2Sl.splicer, ioSr2Sl.splicer.pipe, kr
    {
      && (Delivered(ioSl2Sr.origin, ioSl2Sr.Sys(kl)) <==> Count(ioSl2Sr.origin, ioSl2Sr.history, IsFaultReport) == 0)
      && (Delivered(ioSr2Sl.origin, ioSr2Sl.Sys(kr)) <==> Count(ioSr2Sl.origin, ioSr2Sl.history, IsFaultReport) == 0)
    }

    /** Each direction is incomplete exactly when its error was lost to the other one's
        Pending, in a poll before the last. */
    ghost predicate LossesExactly(kl: Kernel, kr: Kernel)
      requires history != []
      reads this, ioSl2Sr, ioSl2Sr.splicer, ioSl2Sr.splicer.pipe, kl
      reads ioSr2Sl, ioSr2Sl.splicer, ioSr2Sl.splicer.pipe, kr
    {
      && (!Delivered(origin.left, ioSl2Sr.Sys(kl)) <==> SomeLeftLost(origin, history[..|history| - 1]))
      && (!Delivered(origin.right, ioSr2Sl.Sys(kr)) <==> SomeRightLost(origin, history[..|history| - 1]))
    }

    /** Between two polls either endpoint of either direction may be armed. */
    method AwaitWake(kl: Kernel, kr: Kernel)
      requires Valid(kl, kr)
      modifies this`history, ioSl2Sr`history, ioSr2Sl`history
      modifies kl`readReady, kl`writeReady, kl`budget, kl`log
      modifies kr`readReady, kr`writeReady, kr`budget, kr`log
      ensures Valid(kl, kr)
      ensures AllPending(origin, old(history)) ==> AllPending(origin, history)
      ensures CombinedPolls(origin, history) == CombinedPolls(origin, old(history))
    {
      ghost var b := Pair(kl, kr);
      ghost var la := ioSl2Sr.AwaitWake(kl);
      assert ioSr2Sl.Sys(kr) == b.right && ioSr2Sl.Valid(kr);
      ghost var ra := ioSr2Sl.AwaitWake(kr);
      assert ioSl2Sr.Sys(kl) == Exec(b.left, la) && ioSl2Sr.Valid(kl);
      WakeInHistory(origin, history, la, ra);
      history := history + (OnLefts(la) + OnRights(ra));
    }

    /** `tx` and `rx` bytes, prefixes of the two streams, are what arrived. */
    ghost predicate Reports(report: TransferReport, kl: Kernel, kr: Kernel)
      reads ioSl2Sr, ioSl2Sr.splicer, kl, ioSr2Sl, ioSr2Sl.splicer, kr
    {
      && report.tx == ioSl2Sr.splicer.bytesWritten <= |Stream(ioSl2Sr.origin)|
      && report.rx == ioSr2Sl.splicer.bytesWritten <= |Stream(ioSr2Sl.origin)|
      && kl.dest == Placed(ioSl2Sr.origin, Stream(ioSl2Sr.origin)[..report.tx])
      && kr.dest == Placed(ioSr2Sl.origin, Stream(ioSr2Sl.origin)[..report.rx])
    }

    method MakeReport(kl: Kernel, kr: Kernel, result: PollResult) returns (report: TransferReport)
      requires Valid(kl, kr) && FirstReady(origin, history, result)
      ensures Reports(report, kl, kr) && ResultOf(report) == result
      ensures result.ReadyOk? ==> LossesExactly(kl, kr)
    {
      BoundedLoss(ioSl2Sr.origin, ioSl2Sr.history);
      BoundedLoss(ioSr2Sl.origin, ioSr2Sl.history);
      if result.ReadyOk? {
        FirstOkLosesExactly(origin, history);
      }
      var error := if result.ReadyErr? then Some(result.e) else None;
      report := TransferReport(ioSl2Sr.splicer.bytesWritten, ioSr2Sl.splicer.bytesWritten, error);
    }

    /** `execute`: polled at most `polls` times. The report carries the first Ready result of
        the pair; without an error it vouches for a direction exactly when that direction's
        error was not lost to the other one's Pending. */
    method Execute(kl: Kernel, kr: Kernel, polls: nat) returns (report: Option<TransferReport>)
      requires Valid(kl, kr) && AllPending(origin, history)
      modifies this`history, ioSl2Sr, ioSl2Sr.splicer, ioSl2Sr.splicer.pipe, kl
      modifies ioSr2Sl, ioSr2Sl.splicer, ioSr2Sl.splicer.pipe, kr, kl.clock
      ensures Valid(kl, kr)
      ensures report.None? ==>
                && AllPending(origin, history)
                && CombinedPolls(origin, history) == CombinedPolls(origin, old(history)) + polls
      ensures report.Some? ==>
                CombinedPolls(origin, old(history))
                < CombinedPolls(origin, history) <= CombinedPolls(origin, old(history)) + polls
      ensures report.Some? ==> FirstReady(origin, history, ResultOf(report.value))
      ensures report.Some? ==> Reports(report.value, kl, kr)
      ensures report.Some? && report.value.error.None? ==> VouchedExactly(kl, kr) && LossesExactly(kl, kr)
    {
      for i := 0 to polls
        invariant Valid(kl, kr) && AllPending(origin, history)
        invariant CombinedPolls(origin, history) == CombinedPolls(origin, old(history)) + i
      {
        var result;
        ghost var es, e;
        result, es, e := PollExecute(kl, kr);
        if !result.Pending? {
          var made := MakeReport(kl, kr, result);
          return Some(made);
        }
        AwaitWake(kl, kr);
      }
      report := None;
    }
  }
}
