/** The `poll_execute` state machine of `src/io/mod.rs`, one loop iteration at a time. */
module TransferMachine {
  import opened Basics
  import opened SpliceContext

  datatype TransferState = Fill | Drain | Finished(error: Option<IoError>)

  /** `SpliceIo`: the splice context and the transfer state. */
  datatype Machine = Machine(ctx: Ctx, state: TransferState)

  /** `Poll<io::Result<()>>`. */
  datatype PollResult = Pending | ReadyOk | ReadyErr(e: IoError)

  /** What the environment does in one loop iteration.
      - NotReady: the readiness (or shutdown) poll is pending.
      - PollError: the readiness (or shutdown) poll fails.
      - Ready: the poll succeeds; if the attempt calls the splicer, the splicer gives `answer`.
      - ShortCircuit: readiness succeeds but `try_io` fails without running the attempt.
      - ArmRead, ArmWrite: the reactor reports an endpoint ready; no iteration of the loop. */
  datatype Event =
    | NotReady
    | PollError(e: IoError)
    | Ready(answer: Answer)
    | ShortCircuit(e: IoError)
    | ArmRead
    | ArmWrite

  predicate IsArm(ev: Event) {
    ev.ArmRead? || ev.ArmWrite?
  }

  datatype StepResult =
    | Continue(next: Machine)
    | Return(next: Machine, result: PollResult)
    | Panic

  function AfterFill(a: Attempt): StepResult {
    match a
    case Panics => Panic
    case Attempt(c, Ok(Closed)) => Continue(Machine(c, Drain))
    case Attempt(c, Ok(BytesWritten(_))) => Continue(Machine(c, Fill))
    case Attempt(_, Ok(NoProgress)) => Panic // unreachable!()
    case Attempt(c, Err(WouldBlock)) => Continue(Machine(c, if c.PipeHasData() then Drain else Fill))
    case Attempt(c, Err(e)) => Continue(Machine(c, Finished(Some(e))))
  }

  function AfterDrain(a: Attempt): StepResult {
    match a
    case Panics => Panic
    case Attempt(c, Ok(Closed)) => Continue(Machine(c, Finished(None)))
    case Attempt(c, Ok(NoProgress)) => Continue(Machine(c, Fill))
    case Attempt(c, Ok(BytesWritten(_))) => Continue(Machine(c, Drain))
    case Attempt(c, Err(WouldBlock)) => Continue(Machine(c, if c.PipeHasData() then Drain else Fill))
    case Attempt(c, Err(e)) => Continue(Machine(c, Finished(Some(e))))
  }

  function Step(m: Machine, ev: Event): StepResult {
    match ev
    case ArmRead => Continue(m)
    case ArmWrite => Continue(m)
    case NotReady => Return(m, Pending)
    case PollError(e) => Return(m, ReadyErr(e))
    case Ready(answer) => (
      match m.state
      case Fill => AfterFill(TrySpliceFromSource(m.ctx, answer))
      case Drain => AfterDrain(TrySpliceToDest(m.ctx, answer))
      case Finished(None) => Return(m, ReadyOk)
      case Finished(Some(e)) => Return(m.(state := Finished(None)), ReadyErr(e)))
    case ShortCircuit(e) =>
      match m.state
      case Fill => AfterFill(Attempt(m.ctx, Err(e)))
      case Drain => AfterDrain(Attempt(m.ctx, Err(e)))
      case Finished(_) => Return(m, ReadyErr(e))
  }
}
