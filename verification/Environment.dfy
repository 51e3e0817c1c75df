/** The machine together with the kernel state it acts on, and the contract
    the kernel and the reactor keep.

    - Splice in: with `max_len > 0` it appends the next n source bytes to the
      pipe, n at most `max_len` and at most the free space; 0 only at end of
      input; an error moves nothing.
    - Splice out: from a non-empty pipe it moves 1 to `max_len` bytes from the
      front of the pipe to the destination, or fails and moves nothing.
    - Readiness: `Ready` needs the polled endpoint's readiness flag, which an
      arm event sets and a `WouldBlock` attempt clears; a file is always ready.
      The attempt is run whenever readiness succeeds. */
module Environment {
  import opened Basics
  import opened Offsets
  import opened SpliceContext
  import opened TransferMachine

  /** `source`: everything the reader will ever offer, or the input file.
      `taken`: how far a stream reader has been consumed.
      `buf`: the bytes in the pipe, oldest first.
      `dest`: everything the writer received, or the output file. */
  datatype World = World(source: seq<Byte>, taken: nat, buf: seq<Byte>, dest: seq<Byte>,
                         readReady: bool, writeReady: bool)

  datatype System = System(machine: Machine, world: World)
  {
    function Ctx(): Ctx { machine.ctx }
  }

  // ---- Kernel effects ----

  function Zeros(n: nat): (z: seq<Byte>)
    ensures |z| == n && forall i :: 0 <= i < n ==> z[i] == 0
  {
    seq(n, _ => 0)
  }

  /** Positional write: overwrites in place, extends at the end, and fills a hole
      with zeros. Writing nothing changes nothing. */
  function WriteAt(file: seq<Byte>, off: nat, data: seq<Byte>): seq<Byte> {
    if data == [] then file
    else
      var head := if off <= |file| then file[..off] else file + Zeros(off - |file|);
      var tail := if off + |data| <= |file| then file[off + |data|..] else [];
      head + data + tail
  }

  /** Where the next read takes place. */
  function ReadPos(o: Offset, w: World): nat {
    if o.In? then o.off else w.taken
  }

  function SliceAt(s: seq<Byte>, pos: nat, n: nat): seq<Byte> {
    if pos + n <= |s| then s[pos..pos + n] else []
  }

  function SpliceIn(o: Offset, w: World, answer: Answer): World {
    match answer
    case Moved(n) => w.(buf := w.buf + SliceAt(w.source, ReadPos(o, w), n),
                        taken := if o.In? then w.taken else w.taken + n)
    case Failed(WouldBlock) => if o.In? then w else w.(readReady := false)
    case Failed(_) => w
  }

  /** Where the writer puts `data`: at its offset if it is a file, else at the end. */
  function Deposit(o: Offset, dest: seq<Byte>, data: seq<Byte>): seq<Byte> {
    if o.Out? then WriteAt(dest, o.off, data) else dest + data
  }

  function SpliceOut(o: Offset, w: World, answer: Answer): World {
    match answer
    case Moved(n) =>
      var data := SliceAt(w.buf, 0, n);
      w.(buf := w.buf[|data|..],
         dest := Deposit(o, w.dest, data))
    case Failed(WouldBlock) => if o.Out? then w else w.(writeReady := false)
    case Failed(_) => w
  }

  // ---- Contract ----

  predicate LegalIn(c: Ctx, w: World, answer: Answer) {
    answer.Moved? ==>
      && answer.n <= c.sizeToSplice - c.bytesRead
      && |w.buf| + answer.n <= c.pipe.size
      && (answer.n > 0 ==> ReadPos(c.offset, w) + answer.n <= |w.source|)
      && (answer.n == 0 ==> ReadPos(c.offset, w) >= |w.source|)
  }

  predicate LegalOut(c: Ctx, w: World, answer: Answer) {
    answer.Moved? ==> 1 <= answer.n <= c.bytesRead - c.bytesWritten && answer.n <= |w.buf|
  }

  predicate Legal(s: System, ev: Event) {
    match ev
    case Ready(answer) => (
      match s.machine.state
      case Fill => s.world.readReady && (s.Ctx().ReachesSpliceIn() ==> LegalIn(s.Ctx(), s.world, answer))
      case Drain => s.world.writeReady && (s.Ctx().ReachesSpliceOut() ==> LegalOut(s.Ctx(), s.world, answer))
      case Finished(_) => true)
    case ShortCircuit(_) => false
    case _ => true
  }

  // ---- Steps and runs ----

  function WorldAfter(s: System, answer: Answer): World {
    match s.machine.state
    case Fill => if s.Ctx().ReachesSpliceIn() then SpliceIn(s.Ctx().offset, s.world, answer) else s.world
    case Drain => if s.Ctx().ReachesSpliceOut() then SpliceOut(s.Ctx().offset, s.world, answer) else s.world
    case Finished(_) => s.world
  }

  function Next(s: System, ev: Event): System {
    var r := Step(s.machine, ev);
    System(if r.Panic? then s.machine else r.next,
           match ev
           case ArmRead => s.world.(readReady := true)
           case ArmWrite => s.world.(writeReady := true)
           case Ready(answer) => WorldAfter(s, answer)
           case _ => s.world)
  }

  /** The value `poll_execute` returns in this step, if it returns. */
  function Returned(s: System, ev: Event): Option<PollResult> {
    var r := Step(s.machine, ev);
    if r.Return? then Some(r.result) else None
  }

  function Exec(s: System, evs: seq<Event>): System
    decreases |evs|
  {
    if evs == [] then s else Exec(Next(s, evs[0]), evs[1..])
  }

  ghost predicate LegalRun(s: System, evs: seq<Event>)
    decreases |evs|
  {
    evs == [] || (Legal(s, evs[0]) && LegalRun(Next(s, evs[0]), evs[1..]))
  }

  /** A transfer that has not started. Files are ready from the start. */
  predicate Init(s: System) {
    && s.Ctx().Fresh()
    && s.machine.state == Fill
    && s.world.buf == []
    && s.world.taken <= |s.world.source|
    && (s.Ctx().offset.In? ==> s.world.readReady)
    && (s.Ctx().offset.Out? ==> s.world.writeReady)
  }

  /** Everything a reader can supply from the start of the transfer on. */
  function Stream(s0: System): seq<Byte> {
    var pos := ReadPos(s0.Ctx().offset, s0.world);
    if pos <= |s0.world.source| then s0.world.source[pos..] else []
  }

  /** How many bytes a complete transfer moves. */
  function Goal(s0: System): nat {
    Min(|Stream(s0)|, s0.Ctx().sizeToSplice)
  }

  /** The destination once exactly `data` has been delivered to it. */
  function Placed(s0: System, data: seq<Byte>): seq<Byte> {
    Deposit(s0.Ctx().offset, s0.world.dest, data)
  }

  // ---- Run algebra ----

  lemma {:induction false} ExecAppend(s: System, a: seq<Event>, b: seq<Event>)
    ensures Exec(s, a + b) == Exec(Exec(s, a), b)
    ensures LegalRun(s, a + b) <==> LegalRun(s, a) && LegalRun(Exec(s, a), b)
    decreases |a|
  {
    if a == [] {
      assert a + b == b;
    } else {
      assert (a + b)[1..] == a[1..] + b;
      ExecAppend(Next(s, a[0]), a[1..], b);
    }
  }

  lemma {:induction false} ExecSingle(s: System, ev: Event)
    ensures Exec(s, [ev]) == Next(s, ev)
    ensures LegalRun(s, [ev]) <==> Legal(s, ev)
  {
    assert [ev][1..] == [];
    assert Exec(s, [ev]) == Exec(Next(s, ev), []);
  }

  /** The state in which the k-th event of a run happens. */
  lemma {:induction false} RunAt(s: System, evs: seq<Event>, k: nat)
    requires LegalRun(s, evs) && k < |evs|
    ensures LegalRun(s, evs[..k])
    ensures Legal(Exec(s, evs[..k]), evs[k])
    ensures LegalRun(Next(Exec(s, evs[..k]), evs[k]), evs[k + 1..])
    ensures Exec(s, evs) == Exec(Next(Exec(s, evs[..k]), evs[k]), evs[k + 1..])
  {
    assert evs == evs[..k] + evs[k..];
    assert evs[k..][1..] == evs[k + 1..];
    ExecAppend(s, evs[..k], evs[k..]);
  }

  /** The last step of a prefix, from the state before it. */
  lemma {:induction false} PrefixStep(s: System, evs: seq<Event>, k: nat)
    requires k < |evs|
    ensures Exec(s, evs[..k + 1]) == Next(Exec(s, evs[..k]), evs[k])
  {
    assert evs[..k + 1] == evs[..k] + [evs[k]];
    ExecAppend(s, evs[..k], [evs[k]]);
    ExecSingle(Exec(s, evs[..k]), evs[k]);
  }

}
