/** `SpliceCtx` of `src/splice/mod.rs` as the mutable object it is. */
module SpliceCtxObject {
  import opened Basics
  import opened Offsets
  import opened SpliceContext
  import opened Environment
  import opened KernelCalls
  import opened KernelObject
  import opened PipeObject

  class SpliceCtx {
    var offset: Offset
    var sizeToSplice: nat
    const pipe: Pipe
    var bytesRead: nat
    var bytesWritten: nat

    function View(): Ctx
      reads this, pipe
    {
      Ctx(offset, sizeToSplice, pipe.View(), bytesRead, bytesWritten)
    }

    /** Any of the constructors: the value it computes, around a pipe of its own. */
    constructor (c: Ctx, pipe: Pipe)
      requires pipe.View() == c.pipe
      ensures View() == c && this.pipe == pipe
    {
      offset, sizeToSplice, bytesRead, bytesWritten := c.offset, c.sizeToSplice, c.bytesRead, c.bytesWritten;
      this.pipe := pipe;
    }

    /** The reads of the fill end below never meet a `None`, and no subtraction underflows:
        that is what the caller owes, and what every reachable state provides. */
    method TrySpliceFromSource(k: Kernel) returns (r: Result<SpliceOutcome>, ghost answer: Answer)
      requires bytesRead <= sizeToSplice && (bytesRead < sizeToSplice ==> pipe.fillFd.Some?)
      requires |k.buf| <= pipe.size && (offset.In? <==> k.readerIsFile)
      modifies this`bytesRead, this`offset, pipe`fillFd
      modifies k`taken, k`buf, k`budget, k`log, k`lastCall, k.clock
      ensures k.Called(FillCalls(old(View()), answer))
      ensures Attempt(View(), r) == SpliceContext.TrySpliceFromSource(old(View()), answer)
      ensures old(View()).ReachesSpliceIn() ==> LegalIn(old(View()), old(k.View()), answer)
      ensures k.budget + Bit(k.readerIsFile && old(View()).ReachesSpliceIn()
                             && answer == Failed(WouldBlock) && old(k.buf) == []) == old(k.budget)
      ensures k.View() == if old(View()).ReachesSpliceIn() && answer.Moved?
                          then SpliceIn(old(offset), old(k.View()), answer) else old(k.View())
    {
      answer := Moved(0);
      var bytesRemaining := sizeToSplice - bytesRead;
      if bytesRemaining == 0 {
        pipe.SetFillDone();
        return Ok(Closed), answer;
      }
      assert pipe.fillFd.Some?; // expect(..)
      var a, newOff := k.SpliceIn(OffIn(offset), pipe.size, bytesRemaining);
      answer := a;
      if newOff.Some? {
        offset := In(newOff.value);
      }
      if a.Failed? {
        return Err(a.e), answer;
      }
      if a.n > 0 {
        bytesRead := bytesRead + a.n;
        return Ok(BytesWritten(a.n)), answer;
      }
      pipe.SetFillDone();
      return Ok(Closed), answer;
    }

    method TrySpliceToDest(k: Kernel) returns (r: Result<SpliceOutcome>, ghost answer: Answer)
      requires bytesWritten <= bytesRead && (bytesWritten < bytesRead ==> pipe.drainFd.Some?)
      requires |k.buf| == bytesRead - bytesWritten && (offset.Out? <==> k.writerIsFile)
      modifies this`bytesWritten, this`offset, pipe`drainFd
      modifies k`dest, k`buf, k`budget, k`log, k`lastCall, k.clock
      ensures k.Called(DrainCalls(old(View()), answer))
      ensures Attempt(View(), r) == SpliceContext.TrySpliceToDest(old(View()), answer)
      ensures old(View()).ReachesSpliceOut() ==> LegalOut(old(View()), old(k.View()), answer)
      ensures k.budget + Bit(k.writerIsFile && old(View()).ReachesSpliceOut() && answer == Failed(WouldBlock))
           == old(k.budget)
      ensures k.View() == if old(View()).ReachesSpliceOut() && answer.Moved?
                          then SpliceOut(old(offset), old(k.View()), answer) else old(k.View())
    {
      answer := Moved(0);
      var bytesRemaining := bytesRead - bytesWritten;
      if bytesRemaining == 0 {
        if pipe.fillFd.None? {
          pipe.SetDrainDone();
          return Ok(Closed), answer;
        }
        return Ok(NoProgress), answer;
      }
      assert pipe.drainFd.Some?; // expect(..)
      ghost var before := k.View();
      var a, newOff := k.SpliceOut(OffOut(offset), bytesRemaining);
      answer := a;
      if newOff.Some? {
        offset := Out(newOff.value);
      }
      if a.Failed? {
        return Err(a.e), answer;
      }
      assert SliceAt(before.buf, 0, a.n) == before.buf[..a.n];
      if a.n > 0 {
        bytesWritten := bytesWritten + a.n;
        return Ok(BytesWritten(a.n)), answer;
      }
      return Ok(NoProgress), answer;
    }
  }
}
