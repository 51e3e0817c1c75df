/** Transfers from and to a byte range of a file. */
module FileRanges {
  import opened Basics
  import opened Offsets
  import opened SpliceContext
  import opened TransferMachine
  import opened Environment
  import opened Conservation
  import opened Delivery

  /** A positional write inside or at the end of a file frames what is around it. */
  lemma {:induction false} WriteAtFrames(file: seq<Byte>, off: nat, data: seq<Byte>)
    requires off <= |file|
    ensures WriteAt(file, off, data) == file[..off] + data + file[Min(off + |data|, |file|)..]
  {
    if data == [] {
      assert file[..off] + file[off..] == file;
      assert file[..off] + data == file[..off];
    }
  }

  /** Every byte outside `[from, to)` is where it was. */
  ghost predicate SameOutside(file: seq<Byte>, after: seq<Byte>, from: nat, to: nat) {
    forall i :: 0 <= i < |file| && !(from <= i < to) ==> i < |after| && after[i] == file[i]
  }

  lemma {:induction false} WriteAtOutside(file: seq<Byte>, off: nat, data: seq<Byte>, to: nat)
    requires off + |data| <= to
    ensures to <= |file| ==> |WriteAt(file, off, data)| == |file|
    ensures SameOutside(file, WriteAt(file, off, data), off, to)
  {
    forall i | 0 <= i < |file| && !(off <= i < to)
      ensures i < |WriteAt(file, off, data)| && WriteAt(file, off, data)[i] == file[i]
    {
      WriteAtKeeps(file, off, data, i);
    }
  }

  lemma {:induction false} WriteAtKeeps(file: seq<Byte>, off: nat, data: seq<Byte>, i: nat)
    requires i < |file| && (i < off || i >= off + |data|)
    ensures i < |WriteAt(file, off, data)| && WriteAt(file, off, data)[i] == file[i]
  {
  }

  /** At every step of a `with_output_file` transfer: the write offset is `start` plus the
      bytes written and never passes `end`, and the file is its old self with exactly
      those bytes written at `start`. */
  lemma {:induction false} OutputOffset(s0: System, evs: seq<Event>,
                                        usizeMax: nat, pipe: Result<PipeEnds>,
                                        fLen: nat, start: Option<nat>, end: Option<nat>)
    requires Init(s0) && LegalRun(s0, evs) && fLen <= U64_MAX
    requires WithOutputFile(usizeMax, pipe, fLen, start, end) == Ok(s0.Ctx())
    ensures var s, from := Exec(s0, evs), UnwrapOr(start, 0);
            var written := s.Ctx().bytesWritten;
            && written <= |Stream(s0)|
            && s.Ctx().offset == Out(from + written)
            && from + written <= UnwrapOr(end, fLen) <= fLen <= U64_MAX
            && s.world.dest == WriteAt(s0.world.dest, from, Stream(s0)[..written])
  {
    Reachable(s0, evs);
  }

  /** And hence: what is before and after the written bytes is the old file, nothing
      outside `[start, end)` changes, and a file that reaches `end` keeps its length. */
  lemma {:induction false} OutputFraming(s0: System, evs: seq<Event>,
                                         usizeMax: nat, pipe: Result<PipeEnds>,
                                         fLen: nat, start: Option<nat>, end: Option<nat>)
    requires Init(s0) && LegalRun(s0, evs) && fLen <= U64_MAX
    requires WithOutputFile(usizeMax, pipe, fLen, start, end) == Ok(s0.Ctx())
    ensures var s, file, from, to := Exec(s0, evs), s0.world.dest, UnwrapOr(start, 0), UnwrapOr(end, fLen);
            var written := s.Ctx().bytesWritten;
            && written <= |Stream(s0)|
            && (from <= |file| ==>
                  s.world.dest == file[..from] + Stream(s0)[..written] + file[Min(from + written, |file|)..])
            && (to <= |file| ==> |s.world.dest| == |file|)
            && SameOutside(file, s.world.dest, from, to)
  {
    OutputOffset(s0, evs, usizeMax, pipe, fLen, start, end);
    var file, from, data := s0.world.dest, UnwrapOr(start, 0), Stream(s0)[..Exec(s0, evs).Ctx().bytesWritten];
    if from <= |file| {
      WriteAtFrames(file, from, data);
    }
    WriteAtOutside(file, from, data, UnwrapOr(end, fLen));
  }

  /** At every step of a `with_input_file` transfer the read offset is `start` plus the
      bytes read and stays within the range, whatever the real length of the file. */
  lemma {:induction false} InputOffset(s0: System, evs: seq<Event>,
                                       usizeMax: nat, pipe: Result<PipeEnds>,
                                       fLen: nat, start: Option<nat>, end: Option<nat>)
    requires Init(s0) && LegalRun(s0, evs) && fLen <= U64_MAX
    requires WithInputFile(usizeMax, pipe, fLen, start, end) == Ok(s0.Ctx())
    ensures var c := Exec(s0, evs).Ctx();
            && c.offset == In(UnwrapOr(start, 0) + c.bytesRead)
            && c.offset.off <= UnwrapOr(end, fLen) <= fLen <= U64_MAX
            && c.bytesRead <= usizeMax
  {
    Reachable(s0, evs);
  }

  /** The bytes of `file[start..min(end, |file|)]`; none when start is past the end. */
  function RangeOf(file: seq<Byte>, from: nat, to: nat): seq<Byte>
    requires from <= to
  {
    if from <= |file| then file[from..Min(to, |file|)] else []
  }

  /** A clean `with_input_file` transfer delivers exactly its range of the actual file. */
  lemma {:induction false} InputRangeDelivered(s0: System, evs: seq<Event>, ev: Event,
                                               usizeMax: nat, pipe: Result<PipeEnds>,
                                               fLen: nat, start: Option<nat>, end: Option<nat>)
    requires Init(s0) && LegalRun(s0, evs)
    requires WithInputFile(usizeMax, pipe, fLen, start, end) == Ok(s0.Ctx())
    requires Count(s0, evs, IsCompletion) == 0 && Returned(Exec(s0, evs), ev) == Some(ReadyOk)
    ensures UnwrapOr(start, 0) <= UnwrapOr(end, fLen)
    ensures Exec(s0, evs).world.dest
         == s0.world.dest + RangeOf(s0.world.source, UnwrapOr(start, 0), UnwrapOr(end, fLen))
    ensures Exec(s0, evs).Ctx().bytesWritten
         == |RangeOf(s0.world.source, UnwrapOr(start, 0), UnwrapOr(end, fLen))|
  {
    FirstCompletion(s0, evs, ev);
    var from, to, file := UnwrapOr(start, 0), UnwrapOr(end, fLen), s0.world.source;
    assert s0.Ctx().sizeToSplice == to - from;
    assert Stream(s0)[..Goal(s0)] == RangeOf(file, from, to);
  }

  /** A clean `with_output_file` transfer leaves its data in the file and the rest alone. */
  lemma {:induction false} OutputRangeDelivered(s0: System, evs: seq<Event>, ev: Event,
                                                usizeMax: nat, pipe: Result<PipeEnds>,
                                                start: Option<nat>, end: Option<nat>)
    requires Init(s0) && LegalRun(s0, evs) && s0.world.taken == 0
    requires WithOutputFile(usizeMax, pipe, |s0.world.dest|, start, end) == Ok(s0.Ctx())
    requires Count(s0, evs, IsCompletion) == 0 && Returned(Exec(s0, evs), ev) == Some(ReadyOk)
    ensures var file, from, to := s0.world.dest, UnwrapOr(start, 0), UnwrapOr(end, |s0.world.dest|);
            var n := Min(|s0.world.source|, to - from);
            Exec(s0, evs).world.dest == file[..from] + s0.world.source[..n] + file[from + n..]
  {
    FirstCompletion(s0, evs, ev);
    assert Stream(s0) == s0.world.source;
    WriteAtFrames(s0.world.dest, UnwrapOr(start, 0), s0.world.source[..Goal(s0)]);
  }
}
