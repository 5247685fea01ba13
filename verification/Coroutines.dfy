/**
  Tasks: what a coroutine means when its co_awaits are read as plain calls.

  A body is whatever code decides what a coroutine does next from the inputs it has had so far: the results
  of the I/O and of the other coroutines it has awaited.  Bodies may loop and recurse without bound.
 */
module Coroutines {
  import opened Options

  datatype Outcome = Value(value: int) | Exception(error: int)

  /** Which coroutine function was called, and with what. */
  datatype Body = Body(code: nat, arg: int)

  datatype Input = FromIo(result: int) | FromTask(outcome: Outcome)

  datatype Act =
    | Return(value: int)
    | Throw(error: int)
    | AwaitIo
    | AwaitTask(child: Body)

  /** What a body does after it has had some inputs. */
  type Code = (Body, seq<Input>) -> Act

  /** A body that has come to an end: how, how many I/O results are used up, and after how many acts. */
  datatype Done = Done(outcome: Outcome, used: nat, acts: nat)

  /**
    Direct recursive evaluation of a body, from where it is, on the I/O results io(n), io(n + 1), ...  None when
    it takes more than fuel nested acts.
   */
  function Eval(code: Code, b: Body, inputs: seq<Input>, io: nat -> int, n: nat, fuel: nat): Option<Done>
    decreases fuel
  {
    if fuel == 0 then None else
    match code(b, inputs)
    case Return(v) => Some(Done(Value(v), n, 1))
    case Throw(e) => Some(Done(Exception(e), n, 1))
    case AwaitIo => OneMore(Eval(code, b, inputs + [FromIo(io(n))], io, n + 1, fuel - 1), 1)
    case AwaitTask(child) =>
      match Eval(code, child, [], io, n, fuel - 1)
      case None => None
      case Some(d) => OneMore(Eval(code, b, inputs + [FromTask(d.outcome)], io, d.used, fuel - 1), d.acts + 1)
  }

  /** The end of an evaluation after some acts more. */
  function OneMore(d: Option<Done>, acts: nat): Option<Done>
  {
    if d == None then None else Some(d.value.(acts := d.value.acts + acts))
  }

  lemma {:induction false} FuelGrows(code: Code, b: Body, inputs: seq<Input>, io: nat -> int, n: nat, fuel: nat,
                                     more: nat)
    requires fuel <= more && Eval(code, b, inputs, io, n, fuel).Some?
    ensures Eval(code, b, inputs, io, n, more) == Eval(code, b, inputs, io, n, fuel)
    decreases fuel
  {
    match code(b, inputs)
    case Return(_) =>
    case Throw(_) =>
    case AwaitIo => FuelGrows(code, b, inputs + [FromIo(io(n))], io, n + 1, fuel - 1, more - 1);
    case AwaitTask(child) =>
      FuelGrows(code, child, [], io, n, fuel - 1, more - 1);
      var d := Eval(code, child, [], io, n, fuel - 1).value;
      FuelGrows(code, b, inputs + [FromTask(d.outcome)], io, d.used, fuel - 1, more - 1);
  }

  // ---------------------------------------------------------------- a body and the callers that wait for it

  /** A coroutine that waits for what it has awaited. */
  datatype Caller = Caller(body: Body, inputs: seq<Input>)

  /** The rest of a chain of callers, the last of which waits for body b. */
  function EvalChain(code: Code, b: Body, inputs: seq<Input>, callers: seq<Caller>, io: nat -> int, n: nat,
                     fuel: nat): Option<Done>
    decreases |callers|
  {
    match Eval(code, b, inputs, io, n, fuel)
    case None => None
    case Some(d) =>
      if callers == [] then Some(d) else
      var last := callers[|callers| - 1];
      OneMore(EvalChain(code, last.body, last.inputs + [FromTask(d.outcome)], callers[..|callers| - 1], io, d.used,
                        fuel), d.acts)
  }

  /** Awaiting I/O: the rest of the chain is the same, one act less. */
  lemma AfterIo(code: Code, b: Body, inputs: seq<Input>, callers: seq<Caller>, io: nat -> int, n: nat, fuel: nat)
    requires EvalChain(code, b, inputs, callers, io, n, fuel).Some? && code(b, inputs) == AwaitIo
    ensures EvalChain(code, b, inputs, callers, io, n, fuel)
         == OneMore(EvalChain(code, b, inputs + [FromIo(io(n))], callers, io, n + 1, fuel), 1)
  {
    FuelGrows(code, b, inputs + [FromIo(io(n))], io, n + 1, fuel - 1, fuel);
  }

  /** Awaiting a task: it runs with one more caller behind it. */
  lemma AfterCall(code: Code, b: Body, inputs: seq<Input>, callers: seq<Caller>, io: nat -> int, n: nat, fuel: nat,
                  child: Body)
    requires EvalChain(code, b, inputs, callers, io, n, fuel).Some? && code(b, inputs) == AwaitTask(child)
    ensures EvalChain(code, b, inputs, callers, io, n, fuel)
         == OneMore(EvalChain(code, child, [], callers + [Caller(b, inputs)], io, n, fuel), 1)
  {
    var more := callers + [Caller(b, inputs)];
    assert more[..|more| - 1] == callers;
    FuelGrows(code, child, [], io, n, fuel - 1, fuel);
    var d := Eval(code, child, [], io, n, fuel - 1).value;
    FuelGrows(code, b, inputs + [FromTask(d.outcome)], io, d.used, fuel - 1, fuel);
  }

  /** The end of a body: its outcome goes to the last caller. */
  lemma AfterEnd(code: Code, b: Body, inputs: seq<Input>, callers: seq<Caller>, io: nat -> int, n: nat, fuel: nat,
                 outcome: Outcome)
    requires EvalChain(code, b, inputs, callers, io, n, fuel).Some? && callers != []
    requires code(b, inputs) == (match outcome case Value(v) => Return(v) case Exception(e) => Throw(e))
    ensures EvalChain(code, b, inputs, callers, io, n, fuel)
         == (var last := callers[|callers| - 1];
             OneMore(EvalChain(code, last.body, last.inputs + [FromTask(outcome)], callers[..|callers| - 1], io, n,
                               fuel), 1))
  {
  }

  /** The end of the last body. */
  lemma AtTheEnd(code: Code, b: Body, inputs: seq<Input>, io: nat -> int, n: nat, fuel: nat, outcome: Outcome)
    requires EvalChain(code, b, inputs, [], io, n, fuel).Some?
    requires code(b, inputs) == (match outcome case Value(v) => Return(v) case Exception(e) => Throw(e))
    ensures EvalChain(code, b, inputs, [], io, n, fuel) == Some(Done(outcome, n, 1))
  {
  }

  /** The direct evaluation of a whole task is that of a chain without callers. */
  lemma ChainOfOne(code: Code, b: Body, inputs: seq<Input>, io: nat -> int, n: nat, fuel: nat)
    ensures EvalChain(code, b, inputs, [], io, n, fuel) == Eval(code, b, inputs, io, n, fuel)
  {
  }
}
