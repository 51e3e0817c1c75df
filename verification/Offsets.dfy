/** `src/splice/util.rs`: the optional file offset and the range check. */
module Offsets {
  import opened Basics

  datatype Offset = NoOffset | In(off: nat) | Out(off: nat)

  /** The kernel advances the offset it was handed by the bytes it moved. */
  function AdvanceIn(o: Offset, n: nat): Offset {
    if o.In? then In(o.off + n) else o
  }

  function AdvanceOut(o: Offset, n: nat): Offset {
    if o.Out? then Out(o.off + n) else o
  }

  /** Accepts exactly the ranges inside the file, and then names their end. */
  function CalcSizeToSplice(fLen: nat, start: Option<nat>, end: Option<nat>): (r: Result<nat>)
    ensures r.Ok? <==> UnwrapOr(start, 0) <= UnwrapOr(end, fLen) <= fLen
    ensures r.Ok? ==> UnwrapOr(start, 0) + r.value == UnwrapOr(end, fLen)
    ensures r.Err? ==> r.error == InvalidInput("invalid offset range")
  {
    var from := UnwrapOr(start, 0);
    var to := UnwrapOr(end, fLen);
    if from > to || to > fLen then Err(InvalidInput("invalid offset range")) else Ok(to - from)
  }
}
