/** The environment of one direction as an object: reader, writer and kernel pipe. Every
    method makes an arbitrary choice within the contract of module Environment. */
module KernelObject {
  import opened Basics
  import opened SpliceContext
  import opened TransferMachine
  import opened Environment
  import opened KernelCalls

  method ChooseBetween(lo: nat, hi: nat) returns (n: nat)
    requires lo <= hi
    ensures lo <= n <= hi
  {
    n := *;
    if n < lo || n > hi {
      n := lo;
    }
  }

  /** Orders the calls made to different kernels. */
  class Clock {
    ghost var now: nat
  }

  class Kernel {
    const source: seq<Byte>
    /** A file is always ready and never loses its readiness. */
    const readerIsFile: bool
    const writerIsFile: bool
    var taken: nat
    var buf: seq<Byte>
    var dest: seq<Byte>
    var readReady: bool
    var writeReady: bool
    /** How often, during the current poll, the reactor may still arm an endpoint or a
        file may still answer EAGAIN without need. */
    var budget: nat
    /** Every call made so far with its answer, and the time of the last one. */
    ghost var log: seq<Call>
    ghost var lastCall: nat
    ghost const clock: Clock

    function View(): World
      reads this
    {
      World(source, taken, buf, dest, readReady, writeReady)
    }

    constructor (w: World, readerIsFile: bool, writerIsFile: bool, ghost clock: Clock)
      ensures View() == w && budget == 0 && log == [] && this.clock == clock
      ensures this.readerIsFile == readerIsFile && this.writerIsFile == writerIsFile
    {
      source, taken, buf, dest := w.source, w.taken, w.buf, w.dest;
      readReady, writeReady, budget := w.readReady, w.writeReady, 0;
      this.readerIsFile, this.writerIsFile := readerIsFile, writerIsFile;
      log, lastCall, this.clock := [], 0, clock;
    }

    /** Exactly `calls` were made since. */
    twostate predicate Called(calls: seq<Call>)
      reads this, clock
    {
      && log == old(log) + calls
      && (if calls == [] then clock.now == old(clock.now) && lastCall == old(lastCall)
          else old(clock.now) < clock.now == lastCall)
    }

    ghost method Record(calls: seq<Call>)
      requires calls != []
      modifies this`log, this`lastCall, clock
      ensures Called(calls)
    {
      log, clock.now := log + calls, clock.now + 1;
      lastCall := clock.now;
    }

    /** `splice_in`: `off` is the offset handed over by reference, `room` the pipe size. */
    method SpliceIn(off: Option<nat>, room: nat, maxLen: nat) returns (answer: Answer, newOff: Option<nat>)
      requires maxLen > 0 && |buf| <= room
      requires off.Some? <==> readerIsFile
      modifies this`taken, this`buf, this`budget, this`log, this`lastCall, clock
      ensures Called([SplicedIn(off, maxLen, answer)])
      ensures var pos := if off.Some? then off.value else old(taken);
              match answer
              case Moved(n) =>
                && n <= maxLen && old(|buf|) + n <= room
                && (n > 0 ==> pos + n <= |source|)
                && (n == 0 ==> pos >= |source|)
                && buf == old(buf) + SliceAt(source, pos, n)
                && taken == (if off.Some? then old(taken) else old(taken) + n)
                && newOff == (if off.Some? then Some(off.value + n) else None)
              case Failed(e) =>
                && buf == old(buf) && taken == old(taken) && newOff == off
      ensures budget + Bit(readerIsFile && answer == Failed(WouldBlock) && old(buf) == []) == old(budget)
    {
      var pos := if off.Some? then off.value else taken;
      newOff := off;
      var fails: bool := *;
      if pos >= |source| && !fails {
        answer := Moved(0);
        assert buf + SliceAt(source, pos, 0) == buf;
      } else if pos < |source| && |buf| < room && !fails {
        var n := ChooseBetween(1, Min(maxLen, Min(room - |buf|, |source| - pos)));
        answer := Moved(n);
        buf := buf + source[pos..pos + n];
        if off.Some? {
          newOff := Some(off.value + n);
        } else {
          taken := taken + n;
        }
      } else {
        var e: IoError := *;
        if readerIsFile && e.WouldBlock? && buf == [] {
          if budget > 0 {
            budget := budget - 1;
          } else {
            e := Os(5);
          }
        }
        answer := Failed(e);
      }
      Record([SplicedIn(off, maxLen, answer)]);
    }

    /** `splice_out`. */
    method SpliceOut(off: Option<nat>, maxLen: nat) returns (answer: Answer, newOff: Option<nat>)
      requires 0 < maxLen <= |buf|
      requires off.Some? <==> writerIsFile
      modifies this`dest, this`buf, this`budget, this`log, this`lastCall, clock
      ensures Called([SplicedOut(off, maxLen, answer)])
      ensures match answer
              case Moved(n) =>
                && 1 <= n <= maxLen
                && buf == old(buf)[n..]
                && dest == (if off.Some? then WriteAt(old(dest), off.value, old(buf)[..n])
                            else old(dest) + old(buf)[..n])
                && newOff == (if off.Some? then Some(off.value + n) else None)
              case Failed(e) =>
                && buf == old(buf) && dest == old(dest) && newOff == off
      ensures budget + Bit(writerIsFile && answer == Failed(WouldBlock)) == old(budget)
    {
      newOff := off;
      var fails: bool := *;
      if fails {
        var e: IoError := *;
        if writerIsFile && e.WouldBlock? {
          if budget > 0 {
            budget := budget - 1;
          } else {
            e := Os(5);
          }
        }
        answer := Failed(e);
      } else {
        var n := ChooseBetween(1, maxLen);
        answer := Moved(n);
        if off.Some? {
          dest := WriteAt(dest, off.value, buf[..n]);
          newOff := Some(off.value + n);
        } else {
          dest := dest + buf[..n];
        }
        buf := buf[n..];
      }
      Record([SplicedOut(off, maxLen, answer)]);
    }

    /** `poll_read_ready`: an endpoint that is not ready may be armed meanwhile. */
    method PollReadReady() returns (r: Readiness, ghost armed: bool)
      modifies this`readReady, this`budget, this`log, this`lastCall, clock
      ensures Called((if armed then [Armed(ArmRead)] else []) + [ReadPolled(r)])
      ensures r.IsReady? ==> readReady
      ensures armed <==> readReady != old(readReady)
      ensures armed ==> readReady && budget + 1 == old(budget)
      ensures !armed ==> budget == old(budget)
    {
      var arm: bool := *;
      armed := false;
      if arm && !readReady && budget > 0 {
        readReady, budget, armed := true, budget - 1, true;
      }
      r := *;
      if r.IsReady? && !readReady {
        r := IsPending;
      }
      Record((if armed then [Armed(ArmRead)] else []) + [ReadPolled(r)]);
    }

    method PollWriteReady() returns (r: Readiness, ghost armed: bool)
      modifies this`writeReady, this`budget, this`log, this`lastCall, clock
      ensures Called((if armed then [Armed(ArmWrite)] else []) + [WritePolled(r)])
      ensures r.IsReady? ==> writeReady
      ensures armed <==> writeReady != old(writeReady)
      ensures armed ==> writeReady && budget + 1 == old(budget)
      ensures !armed ==> budget == old(budget)
    {
      var arm: bool := *;
      armed := false;
      if arm && !writeReady && budget > 0 {
        writeReady, budget, armed := true, budget - 1, true;
      }
      r := *;
      if r.IsReady? && !writeReady {
        r := IsPending;
      }
      Record((if armed then [Armed(ArmWrite)] else []) + [WritePolled(r)]);
    }

    /** `poll_shutdown`. */
    method PollShutdown() returns (r: Readiness)
      modifies this`log, this`lastCall, clock
      ensures Called([ShutdownPolled(r)])
    {
      r := *;
      Record([ShutdownPolled(r)]);
    }

    /** What `try_io` does when the attempt answered WouldBlock. */
    method ClearReadReady()
      modifies this`readReady
      ensures readReady == (old(readReady) && readerIsFile)
    {
      if !readerIsFile {
        readReady := false;
      }
    }

    method ClearWriteReady()
      modifies this`writeReady
      ensures writeReady == (old(writeReady) && writerIsFile)
    {
      if !writerIsFile {
        writeReady := false;
      }
    }

    /** Between two polls the reactor may arm either endpoint, and a new budget begins. */
    method Wake() returns (ghost evs: seq<Event>)
      modifies this`readReady, this`writeReady, this`budget, this`log
      ensures log == old(log) + (if readReady != old(readReady) then [Armed(ArmRead)] else [])
                     + (if writeReady != old(writeReady) then [Armed(ArmWrite)] else [])
      ensures evs == (if readReady != old(readReady) then [ArmRead] else [])
                     + (if writeReady != old(writeReady) then [ArmWrite] else [])
      ensures old(readReady) ==> readReady
      ensures old(writeReady) ==> writeReady
    {
      var armRead: bool, armWrite: bool := *, *;
      budget := *;
      evs := (if armRead && !readReady then [ArmRead] else []) + (if armWrite && !writeReady then [ArmWrite] else []);
      log := log + (if armRead && !readReady then [Armed(ArmRead)] else [])
             + (if armWrite && !writeReady then [Armed(ArmWrite)] else []);
      readReady, writeReady := readReady || armRead, writeReady || armWrite;
    }
  }
}
