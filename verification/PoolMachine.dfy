/**
  The worker pool as a transition system: any number of workers, each with its ring, its set of sessions and
  its loop; sessions that are coroutines awaiting tasks and I/O; and the kernel as a bag of operations.
 */
module PoolMachine {
  import opened Options

  /** Where a coroutine stands; the op of AtIo is history, saying which operation it waits for. */
  datatype Point =
    | Fresh                 // suspended before its first act
    | Executing
    | Awaiting(child: nat)  // suspended in a co_await of a coroutine, the one with that frame
    | AtIo(op: nat)         // suspended in a co_await of an I/O operation
    | Finished              // suspended in final_suspend

  /**
    A coroutine frame.  Every frame works for one session, whose connection it uses; depth is history, how
    far it is from the session's own frame.
   */
  datatype Frame = Frame(session: nat, depth: nat, continuation: Option<nat>, point: Point)

  /** An operation on a ring, with the frame that its resume_handle resumes. */
  datatype Op = Op(ring: nat, handler: nat, completed: bool)

  /** Where a worker is; first is the session popped from the queue that it runs for the first time, if it is so. */
  datatype Pc =
    | Idle                        // before the condition variable
    | Popping                     // resume_coroutine, before try_pop
    | Starting(session: nat)      // resume_coroutine, with a session popped
    | Running(leaf: nat, first: Option<nat>)
    | Listing(session: nat)       // resume_coroutine, before its test for done
    | Checking                    // before the test for an empty set
    | Waiting                     // io_uring_submit_and_wait
    | Harvesting                  // the loop over completions
    | Sweeping(todo: set<nat>)    // the loop over the set
    | Stopped

  datatype Worker = Worker(pc: Pc, coros: set<nat>)

  /** Where a session is kept. */
  datatype Home =
    | Queued
    | Held(worker: nat)     // in a worker's hands, on its first resume
    | Listed(worker: nat)   // in a worker's set
    | Dropped               // done on its first resume

  /** chains and homes are history: the frames of every session, its own first, and where it is kept. */
  datatype State = State(
    workers: seq<Worker>,
    queue: seq<Option<nat>>,     // None: a session_wrapper without a coroutine
    frames: map<nat, Frame>,
    rings: map<nat, nat>,        // the io_service of every session's connection, once it is set
    ops: map<nat, Op>,
    nextFrame: nat,
    nextOp: nat,
    chains: map<nat, seq<nat>>,
    homes: map<nat, Home>)

  function Init(workers: nat): State
  {
    State(seq(workers, _ => Worker(Idle, {})), [], map[], map[], map[], 0, 0, map[], map[])
  }

  /** What is left open by the state: who moves, and how. */
  datatype Choice =
    | Submit                     // a new session
    | SubmitNothing
    | Complete(op: nat)          // the kernel
    | Work(worker: nat, act: Act)

  datatype Act =
    | Go                         // wherever there is one way to go on
    | Quit                       // a failed try_pop, the end of the completions, a stop request
    | AwaitIo
    | AwaitTask
    | Finish
    | Pick(it: nat)              // a completed operation, or a session of the set

  function WithPc(s: State, w: nat, pc: Pc): State
    requires w < |s.workers|
  {
    s.(workers := s.workers[w := s.workers[w].(pc := pc)])
  }

  function WithPoint(s: State, f: nat, point: Point): State
    requires f in s.frames
  {
    s.(frames := s.frames[f := s.frames[f].(point := point)])
  }

  /** Where control goes when a coroutine suspends without handing it on. */
  function Back(first: Option<nat>): Pc
  {
    match first
    case Some(session) => Listing(session)
    case None => Harvesting
  }

  /** submit: the session's coroutine exists, suspended before its first act. */
  function Submitted(s: State): State
  {
    var z := s.nextFrame;
    s.(queue := s.queue + [Some(z)],
       frames := s.frames[z := Frame(z, 0, None, Fresh)],
       nextFrame := z + 1,
       chains := s.chains[z := [z]],
       homes := s.homes[z := Queued])
  }

  /** try_pop, and the test for a null coroutine. */
  function Pop(s: State, w: nat): State
    requires w < |s.workers|
  {
    if s.queue == [] then WithPc(s, w, Checking) else
    var rest := s.(queue := s.queue[1..]);
    match s.queue[0]
    case None => rest
    case Some(z) => WithPc(rest.(homes := s.homes[z := Held(w)]), w, Starting(z))
  }

  /** set_io_service, and the first resume. */
  function Start(s: State, w: nat, z: nat): State
    requires w < |s.workers|
  {
    if z !in s.frames then s else
    WithPc(WithPoint(s.(rings := s.rings[z := w]), z, Executing), w, Running(z, Some(z)))
  }

  /** co_await of an operation of the session's own connection. */
  function ToIo(s: State, w: nat, f: nat, first: Option<nat>): State
    requires w < |s.workers|
  {
    if f !in s.frames || s.frames[f].session !in s.rings then s else
    var o := s.nextOp;
    WithPc(WithPoint(s.(ops := s.ops[o := Op(s.rings[s.frames[f].session], f, false)], nextOp := o + 1), f, AtIo(o)),
           w, Back(first))
  }

  /** co_await of a new task: its frame has the awaiting one for continue_, and gets control. */
  function ToTask(s: State, w: nat, f: nat, first: Option<nat>): State
    requires w < |s.workers|
  {
    if f !in s.frames || s.frames[f].session !in s.chains then s else
    var z, c := s.frames[f].session, s.nextFrame;
    WithPc(WithPoint(s, f, Awaiting(c)).(
             frames := s.frames[f := s.frames[f].(point := Awaiting(c))]
                               [c := Frame(z, s.frames[f].depth + 1, Some(f), Executing)],
             nextFrame := c + 1,
             chains := s.chains[z := s.chains[z] + [c]]),
           w, Running(c, first))
  }

  /** final_suspend: control goes to continue_, where the finished frame is destroyed; or back. */
  function ToEnd(s: State, w: nat, f: nat, first: Option<nat>): State
    requires w < |s.workers|
  {
    if f !in s.frames then s else
    match s.frames[f].continuation
    case None => WithPc(WithPoint(s, f, Finished), w, Back(first))
    case Some(p) =>
      var z := s.frames[f].session;
      if p !in s.frames || p == f || z !in s.chains || s.chains[z] == [] then s else
      WithPc(WithPoint(s, p, Executing).(
               frames := s.frames[p := s.frames[p].(point := Executing)] - {f},
               chains := s.chains[z := s.chains[z][..|s.chains[z]| - 1]]),
             w, Running(p, first))
  }

  /** A session that is not done after its first resume enters the set. */
  function List(s: State, w: nat, z: nat): State
    requires w < |s.workers|
  {
    if z !in s.frames then s else
    if s.frames[z].point == Finished then WithPc(s.(homes := s.homes[z := Dropped]), w, Popping)
    else s.(workers := s.workers[w := Worker(Popping, s.workers[w].coros + {z})], homes := s.homes[z := Listed(w)])
  }

  /** A completion of the worker's ring: its handler resumes its coroutine. */
  function Harvest(s: State, w: nat, o: nat): State
    requires w < |s.workers|
  {
    if o !in s.ops || s.ops[o].ring != w || !s.ops[o].completed || s.ops[o].handler !in s.frames then s else
    WithPc(WithPoint(s.(ops := s.ops - {o}), s.ops[o].handler, Executing), w, Running(s.ops[o].handler, None))
  }

  /** One element of the set: destroyed and erased if it is done. */
  function Sweep(s: State, w: nat, z: nat, todo: set<nat>): State
    requires w < |s.workers|
  {
    if z !in todo || z !in s.frames then s else
    if s.frames[z].point == Finished then
      s.(workers := s.workers[w := Worker(Sweeping(todo - {z}), s.workers[w].coros - {z})],
         frames := s.frames - {z}, rings := s.rings - {z}, chains := s.chains - {z}, homes := s.homes - {z})
    else WithPc(s, w, Sweeping(todo - {z}))
  }

  /** The wait is over once an operation of the ring has completed. */
  predicate Ready(s: State, w: nat)
  {
    exists o :: o in s.ops && s.ops[o].ring == w && s.ops[o].completed
  }

  /** One step of a worker. */
  ghost function WorkStep(s: State, w: nat, act: Act): State
  {
    if w >= |s.workers| then s else
    match s.workers[w].pc
    case Idle => WithPc(s, w, if act == Quit then Stopped else Popping)
    case Popping => if act == Quit then WithPc(s, w, Checking) else Pop(s, w)
    case Starting(z) => Start(s, w, z)
    case Running(f, first) =>
      (match act
       case AwaitIo => ToIo(s, w, f, first)
       case AwaitTask => ToTask(s, w, f, first)
       case Finish => ToEnd(s, w, f, first)
       case _ => s)
    case Listing(z) => List(s, w, z)
    case Checking => WithPc(s, w, if s.workers[w].coros == {} then Idle else Waiting)
    case Waiting => if Ready(s, w) then WithPc(s, w, Harvesting) else s
    case Harvesting =>
      (match act
       case Pick(o) => Harvest(s, w, o)
       case Quit => WithPc(s, w, Sweeping(s.workers[w].coros))
       case _ => s)
    case Sweeping(todo) =>
      if todo == {} then WithPc(s, w, Popping)
      else (match act case Pick(z) => Sweep(s, w, z, todo) case _ => s)
    case Stopped => s
  }

  ghost function Step(s: State, choice: Choice): State
  {
    match choice
    case Submit => Submitted(s)
    case SubmitNothing => s.(queue := s.queue + [None])
    case Complete(o) => if o in s.ops then s.(ops := s.ops[o := s.ops[o].(completed := true)]) else s
    case Work(w, act) => WorkStep(s, w, act)
  }

  ghost function Run(workers: nat, schedule: seq<Choice>): State
  {
    if schedule == [] then Init(workers)
    else Step(Run(workers, schedule[..|schedule| - 1]), schedule[|schedule| - 1])
  }
}
