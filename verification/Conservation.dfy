/** The invariant every step keeps: first-in first-out conservation of bytes,
    agreement of the counters with the kernel's pipe, and the pipe-end protocol. */
module Conservation {
  import opened Basics
  import opened Offsets
  import opened SpliceContext
  import opened TransferMachine
  import opened Environment

  /** What no step changes, and how the cursors follow the counters. */
  predicate Shape(s0: System, s: System) {
    var c0, c := s0.Ctx(), s.Ctx();
    && s.world.source == s0.world.source
    && c.sizeToSplice == c0.sizeToSplice
    && c.pipe.size == c0.pipe.size
    && c.offset == AdvanceOut(AdvanceIn(c0.offset, c.bytesRead), c.bytesWritten)
    && s.world.taken == s0.world.taken + (if c0.offset.In? then 0 else c.bytesRead)
  }

  /** `dest ++ pipe == source[..bytes_read]`, with the counters as lengths. */
  predicate Contents(s0: System, s: System) {
    var c := s.Ctx();
    && c.bytesWritten <= c.bytesRead <= Goal(s0)
    && |s.world.buf| <= c.pipe.size
    && s.world.buf == Stream(s0)[c.bytesWritten..c.bytesRead]
    && s.world.dest == Placed(s0, Stream(s0)[..c.bytesWritten])
  }

  /** The pipe-end protocol. */
  predicate Ends(s0: System, s: System) {
    var c, st := s.Ctx(), s.machine.state;
    && (!c.pipe.fillOpen ==> c.bytesRead == Goal(s0))
    && (!c.pipe.drainOpen ==> st.Finished? && st.error.None? && c.IsFinished())
    && (st.Fill? ==> c.pipe.fillOpen)
    && (st.Finished? && st.error.Some? ==> st.error.value != WouldBlock)
  }

  /** Readiness the machine relies on: it sits in Fill with bytes in the pipe, or
      in Drain without, only while the polled endpoint is still ready. */
  predicate Flags(s0: System, s: System) {
    && (s0.Ctx().offset.In? ==> s.world.readReady)
    && (s0.Ctx().offset.Out? ==> s.world.writeReady)
    && (s.machine.state.Fill? && s.world.buf != [] ==> s.world.readReady)
    && (s.machine.state.Drain? && s.world.buf == [] && s.Ctx().pipe.fillOpen ==> s.world.writeReady)
  }

  predicate Inv(s0: System, s: System) {
    Shape(s0, s) && Contents(s0, s) && Ends(s0, s) && Flags(s0, s)
  }

  lemma {:induction false} InitInv(s0: System)
    requires Init(s0)
    ensures Inv(s0, s0)
  {
    assert Placed(s0, []) == s0.world.dest;
    assert Stream(s0)[..0] == [];
  }

  // ---- Positional writes ----

  lemma {:induction false} WriteAtSplit(file: seq<Byte>, off: nat, a: seq<Byte>, b: seq<Byte>)
    ensures WriteAt(WriteAt(file, off, a), off + |a|, b) == WriteAt(file, off, a + b)
  {
    if a == [] {
      assert a + b == b;
    } else if b == [] {
      assert a + b == a;
    } else {
      var head := if off <= |file| then file[..off] else file + Zeros(off - |file|);
      var f1 := WriteAt(file, off, a);
      assert |head| == off;
      assert f1[..off + |a|] == head + a;
      if off + |a| + |b| <= |file| {
        assert f1[off + |a| + |b|..] == file[off + |a| + |b|..];
      }
    }
  }

  /** Two deposits in a row are one deposit of both. */
  lemma {:induction false} DepositSplit(o: Offset, dest: seq<Byte>, a: seq<Byte>, b: seq<Byte>)
    ensures Deposit(AdvanceOut(o, |a|), Deposit(o, dest, a), b) == Deposit(o, dest, a + b)
  {
    if o.Out? {
      WriteAtSplit(dest, o.off, a, b);
    } else {
      assert dest + a + b == dest + (a + b);
    }
  }

  lemma {:induction false} SliceOfTail(s: seq<Byte>, p: nat, i: nat, n: nat)
    requires p + i + n <= |s|
    ensures s[p..][i..i + n] == s[p + i..p + i + n]
  {
  }

  /** A window on the stream grows at its end and shrinks at its front. */
  lemma {:induction false} SlideWindow(st: seq<Byte>, w: nat, r: nat, n: nat)
    requires w <= r <= |st|
    ensures r + n <= |st| ==> st[w..r] + st[r..r + n] == st[w..r + n]
    ensures w + n <= r ==> st[w..r][n..] == st[w + n..r] && st[..w] + st[w..r][..n] == st[..w + n]
  {
  }

  /** Draining n bytes delivers the next n bytes of the stream. */
  lemma {:induction false} DrainExtendsDest(s0: System, s: System, n: nat)
    requires Shape(s0, s) && Contents(s0, s)
    requires n <= |s.world.buf|
    ensures var st, c := Stream(s0), s.Ctx();
            && s.world.buf[n..] == st[c.bytesWritten + n..c.bytesRead]
            && Deposit(c.offset, s.world.dest, s.world.buf[..n]) == Placed(s0, st[..c.bytesWritten + n])
  {
    var st, c := Stream(s0), s.Ctx();
    SlideWindow(st, c.bytesWritten, c.bytesRead, n);
    DepositSplit(s0.Ctx().offset, s0.world.dest, st[..c.bytesWritten], s.world.buf[..n]);
  }

  // ---- Preservation ----

  lemma {:induction false} ReadExtendsPipe(s0: System, s: System, n: nat)
    requires Shape(s0, s) && Contents(s0, s)
    requires n > 0 && ReadPos(s.Ctx().offset, s.world) + n <= |s.world.source|
    ensures s.Ctx().bytesRead + n <= |Stream(s0)|
    ensures s.world.buf + SliceAt(s.world.source, ReadPos(s.Ctx().offset, s.world), n)
         == Stream(s0)[s.Ctx().bytesWritten..s.Ctx().bytesRead + n]
  {
    var p0, c := ReadPos(s0.Ctx().offset, s0.world), s.Ctx();
    assert ReadPos(c.offset, s.world) == p0 + c.bytesRead;
    SliceOfTail(s.world.source, p0, c.bytesRead, n);
    SlideWindow(s.world.source[p0..], c.bytesWritten, c.bytesRead, n);
  }

  /** The step in which n bytes enter the pipe, written out. */
  lemma {:induction false} FillMoves(s: System, n: nat)
    requires Legal(s, Ready(Moved(n))) && s.machine.state.Fill? && s.Ctx().ReachesSpliceIn() && n > 0
    ensures var c, w := s.Ctx(), s.world;
            Next(s, Ready(Moved(n))) == System(
              Machine(c.(bytesRead := c.bytesRead + n, offset := AdvanceIn(c.offset, n)), Fill),
              w.(buf := w.buf + SliceAt(w.source, ReadPos(c.offset, w), n),
                 taken := if c.offset.In? then w.taken else w.taken + n))
  {
  }

  /** The step in which n bytes leave the pipe, written out. */
  lemma {:induction false} DrainMoves(s: System, n: nat)
    requires Legal(s, Ready(Moved(n))) && s.machine.state.Drain? && s.Ctx().ReachesSpliceOut()
    ensures var c, w := s.Ctx(), s.world;
            Next(s, Ready(Moved(n))) == System(
              Machine(c.(bytesWritten := c.bytesWritten + n, offset := AdvanceOut(c.offset, n)), Drain),
              w.(buf := w.buf[n..], dest := Deposit(c.offset, w.dest, w.buf[..n])))
  {
    assert SliceAt(s.world.buf, 0, n) == s.world.buf[..n];
  }

  lemma {:induction false} FillMoveKeepsInv(s0: System, s: System, n: nat)
    requires Init(s0) && Inv(s0, s) && Legal(s, Ready(Moved(n)))
    requires s.machine.state.Fill? && s.Ctx().ReachesSpliceIn() && n > 0
    ensures Inv(s0, Next(s, Ready(Moved(n))))
  {
    FillMoves(s, n);
    ReadExtendsPipe(s0, s, n);
  }

  lemma {:induction false} DrainMoveKeepsInv(s0: System, s: System, n: nat)
    requires Init(s0) && Inv(s0, s) && Legal(s, Ready(Moved(n)))
    requires s.machine.state.Drain? && s.Ctx().ReachesSpliceOut()
    ensures Inv(s0, Next(s, Ready(Moved(n))))
  {
    DrainMoves(s, n);
    DrainExtendsDest(s0, s, n);
    DrainMoveKeepsRest(s0, s, n);
  }

  lemma {:induction false} DrainMoveKeepsRest(s0: System, s: System, n: nat)
    requires Init(s0) && Inv(s0, s) && Legal(s, Ready(Moved(n)))
    requires s.machine.state.Drain? && s.Ctx().ReachesSpliceOut()
    ensures var t := Next(s, Ready(Moved(n))); Shape(s0, t) && Ends(s0, t) && Flags(s0, t)
  {
    DrainMoves(s, n);
  }

  lemma {:induction false} FillKeepsInv(s0: System, s: System, answer: Answer)
    requires Init(s0) && Inv(s0, s) && Legal(s, Ready(answer)) && s.machine.state.Fill?
    ensures Step(s.machine, Ready(answer)).Continue?
    ensures Inv(s0, Next(s, Ready(answer)))
  {
    if s.Ctx().ReachesSpliceIn() && answer.Moved? && answer.n > 0 {
      FillMoveKeepsInv(s0, s, answer.n);
    }
  }

  lemma {:induction false} DrainKeepsInv(s0: System, s: System, answer: Answer)
    requires Init(s0) && Inv(s0, s) && Legal(s, Ready(answer)) && s.machine.state.Drain?
    ensures Step(s.machine, Ready(answer)).Continue?
    ensures Inv(s0, Next(s, Ready(answer)))
  {
    if s.Ctx().ReachesSpliceOut() && answer.Moved? {
      DrainMoveKeepsInv(s0, s, answer.n);
    }
  }

  /** Every legal step keeps the invariant and does not panic. */
  lemma {:induction false} StepKeepsInv(s0: System, s: System, ev: Event)
    requires Init(s0) && Inv(s0, s) && Legal(s, ev)
    ensures !Step(s.machine, ev).Panic?
    ensures Inv(s0, Next(s, ev))
  {
    if ev.Ready? {
      match s.machine.state {
        case Fill => FillKeepsInv(s0, s, ev.answer);
        case Drain => DrainKeepsInv(s0, s, ev.answer);
        case Finished(_) =>
      }
    }
  }

  lemma {:induction false} RunKeepsInv(s0: System, s: System, evs: seq<Event>)
    requires Init(s0) && Inv(s0, s) && LegalRun(s, evs)
    ensures Inv(s0, Exec(s, evs))
    decreases |evs|
  {
    if evs != [] {
      StepKeepsInv(s0, s, evs[0]);
      RunKeepsInv(s0, Next(s, evs[0]), evs[1..]);
    }
  }

  lemma {:induction false} Reachable(s0: System, evs: seq<Event>)
    requires Init(s0) && LegalRun(s0, evs)
    ensures Inv(s0, Exec(s0, evs))
  {
    InitInv(s0);
    RunKeepsInv(s0, s0, evs);
  }

  // ---- What the invariant says ----

  /** FIFO conservation: what was delivered followed by what is in the pipe is exactly what
      was read, in order (for a file writer `BoundedLoss` says where it went); the
      counters count it, and `pipe_has_data` and `pipe_is_full` tell the truth about the
      kernel's pipe. */
  lemma {:induction false} FifoConservation(s0: System, evs: seq<Event>)
    requires Init(s0) && LegalRun(s0, evs)
    ensures var s := Exec(s0, evs);
            var c := s.Ctx();
            && c.bytesWritten <= c.bytesRead <= |Stream(s0)|
            && c.bytesRead <= c.sizeToSplice == s0.Ctx().sizeToSplice
            && Stream(s0)[..c.bytesWritten] + s.world.buf == Stream(s0)[..c.bytesRead]
            && (!c.offset.Out? ==>
                  && s.world.dest + s.world.buf == s0.world.dest + Stream(s0)[..c.bytesRead]
                  && |s.world.dest| == |s0.world.dest| + c.bytesWritten)
            && |s.world.buf| <= c.pipe.size
            && (c.PipeHasData() <==> s.world.buf != [])
            && (c.PipeIsFull() <==> |s.world.buf| == c.pipe.size)
  {
    Reachable(s0, evs);
    var s := Exec(s0, evs);
    SlideWindow(Stream(s0), 0, s.Ctx().bytesRead, s.Ctx().bytesWritten);
    assert Stream(s0)[..s.Ctx().bytesRead] == Stream(s0)[..s.Ctx().bytesWritten] + s.world.buf;
  }

  /** On every reachable state, in particular on every error return: the counter the
      report takes as `tx` is what was delivered, a prefix of the stream; what was
      consumed and not delivered is the pipe's content, at most one pipe size. */
  lemma {:induction false} BoundedLoss(s0: System, evs: seq<Event>)
    requires Init(s0) && LegalRun(s0, evs)
    ensures var s := Exec(s0, evs);
            var c, st := s.Ctx(), Stream(s0);
            && c.bytesWritten <= c.bytesRead <= |st|
            && c.bytesRead <= c.sizeToSplice == s0.Ctx().sizeToSplice
            && s.world.dest == Placed(s0, st[..c.bytesWritten])
            && st[..c.bytesRead] == st[..c.bytesWritten] + s.world.buf
            && c.bytesRead - c.bytesWritten == |s.world.buf| <= c.pipe.size
  {
    Reachable(s0, evs);
    var c, st := Exec(s0, evs).Ctx(), Stream(s0);
    assert st[..c.bytesRead] == st[..c.bytesWritten] + st[c.bytesWritten..c.bytesRead];
  }

  /** No legal schedule reaches a panic: the `expect`s, the `unreachable!`s and the
      counter subtractions are all safe, at every step of every run. */
  lemma {:induction false} NoPanic(s0: System, evs: seq<Event>, k: nat)
    requires Init(s0) && LegalRun(s0, evs) && k < |evs|
    ensures !Step(Exec(s0, evs[..k]).machine, evs[k]).Panic?
  {
    RunAt(s0, evs, k);
    Reachable(s0, evs[..k]);
    StepKeepsInv(s0, Exec(s0, evs[..k]), evs[k]);
  }
}
