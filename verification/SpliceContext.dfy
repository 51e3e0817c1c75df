/** `src/splice/mod.rs` and `src/pipe.rs` as values: the byte counters, the
    pipe ends and the two splice attempts, as functions of the kernel's answer. */
module SpliceContext {
  import opened Basics
  import opened Offsets

  /** Which ends of the pipe are still held open, and its size in bytes. */
  datatype PipeEnds = PipeEnds(drainOpen: bool, fillOpen: bool, size: nat)

  datatype Ctx = Ctx(offset: Offset, sizeToSplice: nat, pipe: PipeEnds, bytesRead: nat, bytesWritten: nat)
  {
    predicate PipeHasData() {
      bytesRead > bytesWritten
    }

    predicate PipeIsFull()
      requires bytesWritten <= bytesRead
    {
      bytesRead - bytesWritten >= pipe.size
    }

    predicate IsSourceDone() {
      !pipe.fillOpen
    }

    predicate IsFinished() {
      !pipe.fillOpen && bytesRead == bytesWritten
    }

    /** What every constructor hands out: nothing moved, both ends open. */
    predicate Fresh() {
      bytesRead == 0 && bytesWritten == 0 && pipe.fillOpen && pipe.drainOpen && pipe.size > 0
    }

    /** `try_splice_from_source` gets as far as calling `splice_in`. */
    predicate ReachesSpliceIn() {
      bytesRead < sizeToSplice && pipe.fillOpen
    }

    /** `try_splice_to_dest` gets as far as calling `splice_out`. */
    predicate ReachesSpliceOut() {
      bytesWritten < bytesRead && pipe.drainOpen
    }
  }

  /** What a `Splicer` method returned. */
  datatype Answer = Moved(n: nat) | Failed(e: IoError)

  datatype SpliceOutcome = Closed | NoProgress | BytesWritten(n: nat)

  /** The result of one attempt. `Panics` stands for a failed `expect` or an
      underflowing subtraction. */
  datatype Attempt = Attempt(ctx: Ctx, result: Result<SpliceOutcome>) | Panics

  function TrySpliceFromSource(c: Ctx, answer: Answer): Attempt {
    if c.bytesRead > c.sizeToSplice then
      Panics
    else if c.bytesRead == c.sizeToSplice then
      Attempt(c.(pipe := c.pipe.(fillOpen := false)), Ok(Closed))
    else if !c.pipe.fillOpen then
      Panics
    else
      match answer
      case Failed(e) => Attempt(c, Err(e))
      case Moved(n) =>
        if n > 0 then
          Attempt(c.(bytesRead := c.bytesRead + n, offset := AdvanceIn(c.offset, n)), Ok(BytesWritten(n)))
        else
          Attempt(c.(pipe := c.pipe.(fillOpen := false)), Ok(Closed))
  }

  function TrySpliceToDest(c: Ctx, answer: Answer): Attempt {
    if c.bytesWritten > c.bytesRead then
      Panics
    else if c.bytesWritten == c.bytesRead then
      if c.IsSourceDone() then
        Attempt(c.(pipe := c.pipe.(drainOpen := false)), Ok(Closed))
      else
        Attempt(c, Ok(NoProgress))
    else if !c.pipe.drainOpen then
      Panics
    else
      match answer
      case Failed(e) => Attempt(c, Err(e))
      case Moved(n) =>
        if n > 0 then
          Attempt(c.(bytesWritten := c.bytesWritten + n, offset := AdvanceOut(c.offset, n)), Ok(BytesWritten(n)))
        else
          Attempt(c, Ok(NoProgress))
  }

  // ---- Constructors. `pipe` is the outcome of `Pipe::new`, `usizeMax` the platform's `usize::MAX`. ----

  function New(usizeMax: nat, pipe: Result<PipeEnds>): (r: Result<Ctx>)
    ensures r.Ok? <==> pipe.Ok?
    ensures r.Ok? ==> 2 * r.value.sizeToSplice <= usizeMax < 2 * r.value.sizeToSplice + 2 // isize::MAX
    ensures r.Ok? ==> r.value.offset == NoOffset && Unstarted(r.value, pipe.value)
    ensures pipe.Err? ==> r == Err(pipe.error)
  {
    if pipe.Err? then Err(pipe.error) else Ok(Ctx(NoOffset, usizeMax / 2, pipe.value, 0, 0))
  }

  /** A pipe as `Pipe::new` makes it. */
  predicate NewPipe(p: PipeEnds) {
    p.fillOpen && p.drainOpen && p.size > 0
  }

  /** Nothing moved yet, over the pipe it was given. */
  predicate Unstarted(c: Ctx, pipe: PipeEnds) {
    c.pipe == pipe && c.bytesRead == 0 && c.bytesWritten == 0
  }

  /** The first thing wrong with a file transfer: the range, its size, or else the pipe. */
  function RangeError(usizeMax: nat, pipe: Result<PipeEnds>, fLen: nat, start: Option<nat>, end: Option<nat>,
                      tooLarge: string): IoError
    requires !(UnwrapOr(start, 0) <= UnwrapOr(end, fLen) <= fLen)
             || UnwrapOr(end, fLen) - UnwrapOr(start, 0) > usizeMax || pipe.Err?
  {
    if !(UnwrapOr(start, 0) <= UnwrapOr(end, fLen) <= fLen) then InvalidInput("invalid offset range")
    else if UnwrapOr(end, fLen) - UnwrapOr(start, 0) > usizeMax then InvalidInput(tooLarge)
    else pipe.error
  }

  /** The checked range, narrowed to `usize`; it fails before any pipe is created. */
  function RangeSize(usizeMax: nat, fLen: nat, start: Option<nat>, end: Option<nat>, tooLarge: string): Result<nat> {
    var size := CalcSizeToSplice(fLen, start, end);
    if size.Ok? && size.value > usizeMax then Err(InvalidInput(tooLarge)) else size
  }

  function WithInputFile(usizeMax: nat, pipe: Result<PipeEnds>, fLen: nat,
                         start: Option<nat>, end: Option<nat>): (r: Result<Ctx>)
    ensures r.Ok? <==> pipe.Ok? && UnwrapOr(start, 0) <= UnwrapOr(end, fLen) <= fLen
                       && UnwrapOr(end, fLen) - UnwrapOr(start, 0) <= usizeMax
    ensures r.Ok? ==> r.value.offset == In(UnwrapOr(start, 0))
                      && r.value.offset.off + r.value.sizeToSplice == UnwrapOr(end, fLen)
    ensures r.Ok? ==> Unstarted(r.value, pipe.value)
    ensures r.Err? ==> r.error == RangeError(usizeMax, pipe, fLen, start, end, "file size too large")
  {
    var size := RangeSize(usizeMax, fLen, start, end, "file size too large");
    if size.Err? then Err(size.error)
    else if pipe.Err? then Err(pipe.error)
    else Ok(Ctx(In(UnwrapOr(start, 0)), size.value, pipe.value, 0, 0))
  }

  function WithOutputFile(usizeMax: nat, pipe: Result<PipeEnds>, fLen: nat,
                          start: Option<nat>, end: Option<nat>): (r: Result<Ctx>)
    ensures r.Ok? <==> pipe.Ok? && UnwrapOr(start, 0) <= UnwrapOr(end, fLen) <= fLen
                       && UnwrapOr(end, fLen) - UnwrapOr(start, 0) <= usizeMax
    ensures r.Ok? ==> r.value.offset == Out(UnwrapOr(start, 0))
                      && r.value.offset.off + r.value.sizeToSplice == UnwrapOr(end, fLen)
    ensures r.Ok? ==> Unstarted(r.value, pipe.value)
    ensures r.Err? ==> r.error == RangeError(usizeMax, pipe, fLen, start, end, "splice range too large")
  {
    var size := RangeSize(usizeMax, fLen, start, end, "splice range too large");
    if size.Err? then Err(size.error)
    else if pipe.Err? then Err(pipe.error)
    else Ok(Ctx(Out(UnwrapOr(start, 0)), size.value, pipe.value, 0, 0))
  }

  function WithTargetLen(c: Ctx, size: nat): (r: Ctx)
    ensures r.Fresh() <==> c.Fresh()
    ensures r.sizeToSplice == size && r.offset == c.offset && r.pipe == c.pipe
    ensures r.bytesRead == c.bytesRead && r.bytesWritten == c.bytesWritten
  {
    c.(sizeToSplice := size)
  }
}
