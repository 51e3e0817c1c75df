/** `src/pipe.rs`: the pipe and its two descriptors, each dropped when its side is done. */
module PipeObject {
  import opened Basics
  import opened SpliceContext

  class Pipe {
    var drainFd: Option<nat>
    var fillFd: Option<nat>
    var size: nat

    function View(): PipeEnds
      reads this
    {
      PipeEnds(drainFd.Some?, fillFd.Some?, size)
    }

    constructor (drainFd: Option<nat>, fillFd: Option<nat>, size: nat)
      ensures this.drainFd == drainFd && this.fillFd == fillFd && this.size == size
    {
      this.drainFd, this.fillFd, this.size := drainFd, fillFd, size;
    }

    /** `Pipe::new`. `created` is what `pipe2` gave, `resized` and `current` what the two
        fcntl calls give; a refused resize falls back to the size the pipe already has. */
    static method New(created: Result<(nat, nat)>, resized: Result<nat>, current: Result<nat>) returns (r: Result<Pipe>)
      ensures r.Ok? <==> created.Ok? && (if resized.Ok? then resized.value > 0 else current.Ok? && current.value > 0)
      ensures r.Ok? ==> fresh(r.value) && NewPipe(r.value.View())
                        && r.value.size == (if resized.Ok? then resized.value else current.value)
                        && r.value.drainFd == Some(created.value.0) && r.value.fillFd == Some(created.value.1)
      ensures created.Err? ==> r == Err(created.error)
      ensures created.Ok? && resized.Err? && current.Err? ==> r == Err(current.error)
      ensures created.Ok? && r.Err? && (resized.Ok? || current.Ok?) ==> r.error.Other?
    {
      if created.Err? {
        return Err(created.error);
      }
      if resized.Err? && current.Err? {
        return Err(current.error);
      }
      var size := if resized.Ok? then resized.value else current.value;
      if size == 0 {
        return Err(Other("failed to set pipe size, using default size"));
      }
      var p := new Pipe(Some(created.value.0), Some(created.value.1), size);
      r := Ok(p);
    }

    /** `with_pipe_size`: the size recorded is the one the kernel reports. */
    method WithPipeSize(reported: Result<nat>) returns (r: Result<()>)
      modifies this`size
      ensures r.Ok? <==> fillFd.Some? && reported.Ok? && reported.value > 0
      ensures size == if r.Ok? then reported.value else old(size)
      ensures fillFd.Some? && reported.Err? ==> r == Err(reported.error)
      ensures r.Err? && (fillFd.None? || reported.Ok?) ==> r.error.Other?
    {
      if fillFd.None? {
        return Err(Other("fill-side file descriptor is not available"));
      }
      if reported.Err? {
        return Err(reported.error);
      }
      if reported.value == 0 {
        return Err(Other("fcntl returned zero pipe size"));
      }
      size := reported.value;
      r := Ok(());
    }

    method SetFillDone()
      modifies this`fillFd
      ensures View() == old(View()).(fillOpen := false)
    {
      fillFd := None;
    }

    method SetDrainDone()
      modifies this`drainFd
      ensures View() == old(View()).(drainOpen := false)
    {
      drainFd := None;
    }
  }
}
