/** The calls a machine makes to its environment, with their arguments and answers: what
    the events of a run say the kernel and the reactor were asked and what they replied. */
module KernelCalls {
  import opened Basics
  import opened Offsets
  import opened SpliceContext
  import opened TransferMachine
  import opened Environment

  /** `Poll<io::Result<()>>` of a readiness or shutdown poll. */
  datatype Readiness = IsPending | IsReady | IsError(e: IoError)

  datatype Call =
    | Armed(ev: Event)
    | ReadPolled(r: Readiness)
    | WritePolled(r: Readiness)
    | ShutdownPolled(r: Readiness)
    | SplicedIn(off: Option<nat>, maxLen: nat, answer: Answer)
    | SplicedOut(off: Option<nat>, maxLen: nat, answer: Answer)

  /** `off_in` and `off_out`. */
  function OffIn(o: Offset): Option<nat> {
    if o.In? then Some(o.off) else None
  }

  function OffOut(o: Offset): Option<nat> {
    if o.Out? then Some(o.off) else None
  }

  /** The poll each state starts its iteration with. */
  function Polled(st: TransferState, r: Readiness): Call {
    match st
    case Fill => ReadPolled(r)
    case Drain => WritePolled(r)
    case Finished(_) => ShutdownPolled(r)
  }

  /** The splicer call of an attempt, if it makes one: for all bytes still wanted. */
  function FillCalls(c: Ctx, answer: Answer): seq<Call> {
    if c.ReachesSpliceIn() then [SplicedIn(OffIn(c.offset), c.sizeToSplice - c.bytesRead, answer)] else []
  }

  function DrainCalls(c: Ctx, answer: Answer): seq<Call> {
    if c.ReachesSpliceOut() then [SplicedOut(OffOut(c.offset), c.bytesRead - c.bytesWritten, answer)] else []
  }

  function AttemptCalls(m: Machine, answer: Answer): seq<Call> {
    match m.state
    case Fill => FillCalls(m.ctx, answer)
    case Drain => DrainCalls(m.ctx, answer)
    case Finished(_) => []
  }

  function Calls(m: Machine, ev: Event): (calls: seq<Call>)
    ensures calls != []
  {
    match ev
    case NotReady => [Polled(m.state, IsPending)]
    case PollError(e) => [Polled(m.state, IsError(e))]
    case Ready(answer) => [Polled(m.state, IsReady)] + AttemptCalls(m, answer)
    case ShortCircuit(_) => [Polled(m.state, IsReady)]
    case _ => [Armed(ev)]
  }

  /** The log a run leaves behind. */
  function LogOf(s: System, evs: seq<Event>): seq<Call>
    decreases |evs|
  {
    if evs == [] then [] else Calls(s.machine, evs[0]) + LogOf(Next(s, evs[0]), evs[1..])
  }

  lemma {:induction false} LogAppend(s: System, a: seq<Event>, b: seq<Event>)
    ensures LogOf(s, a + b) == LogOf(s, a) + LogOf(Exec(s, a), b)
    decreases |a|
  {
    if a == [] {
      assert a + b == b;
    } else {
      assert (a + b)[1..] == a[1..] + b;
      LogAppend(Next(s, a[0]), a[1..], b);
      var n := Next(s, a[0]);
      assert Calls(s.machine, a[0]) + (LogOf(n, a[1..]) + LogOf(Exec(n, a[1..]), b))
          == Calls(s.machine, a[0]) + LogOf(n, a[1..]) + LogOf(Exec(n, a[1..]), b);
    }
  }

  /** What the polls of a run returned, in order. */
  function Results(s: System, evs: seq<Event>): seq<PollResult>
    decreases |evs|
  {
    if evs == [] then []
    else
      var r := Returned(s, evs[0]);
      (if r.Some? then [r.value] else []) + Results(Next(s, evs[0]), evs[1..])
  }

  lemma {:induction false} CallsDetermineStep(s: System, x: Event, y: Event)
    requires Legal(s, x) && Legal(s, y)
    requires Calls(s.machine, x) <= Calls(s.machine, y) || Calls(s.machine, y) <= Calls(s.machine, x)
    ensures Calls(s.machine, x) == Calls(s.machine, y)
    ensures Next(s, x) == Next(s, y) && Returned(s, x) == Returned(s, y)
  {
    assert Calls(s.machine, x)[0] == Calls(s.machine, y)[0];
    if x.Ready? {
      assert y.Ready?;
      assert |Calls(s.machine, x)| == |Calls(s.machine, y)|;
      assert |Calls(s.machine, x)| == 2 ==> Calls(s.machine, x)[1] == Calls(s.machine, y)[1];
    }
  }

  /** The environment's answers fix everything: two legal runs with the same log end in
      the same state and return the same results. */
  lemma {:induction false} LogDeterminesRun(s: System, x: seq<Event>, y: seq<Event>)
    requires LegalRun(s, x) && LegalRun(s, y) && LogOf(s, x) == LogOf(s, y)
    ensures Exec(s, x) == Exec(s, y) && Results(s, x) == Results(s, y)
    decreases |x|
  {
    if x != [] && y != [] {
      var cx, cy := Calls(s.machine, x[0]), Calls(s.machine, y[0]);
      var lx, ly := LogOf(Next(s, x[0]), x[1..]), LogOf(Next(s, y[0]), y[1..]);
      assert cx + lx == cy + ly;
      assert cx == (cx + lx)[..|cx|] && cy == (cy + ly)[..|cy|];
      assert cx <= cy || cy <= cx;
      CallsDetermineStep(s, x[0], y[0]);
      assert lx == (cx + lx)[|cx|..] && ly == (cy + ly)[|cy|..];
      LogDeterminesRun(Next(s, x[0]), x[1..], y[1..]);
    }
  }
}
