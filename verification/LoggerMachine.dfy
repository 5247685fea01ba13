/**
  The asynchronous logger as a transition system: producers that put records into the queue, and one poller
  that consumes them into a buffer and writes the buffer to the outputs, step by step in any interleaving.
 */
module LoggerMachine {
  import opened Options
  import opened QueueMachine
  import QueueTheorems
  import opened QueueClients

  // ---------------------------------------------------------------- records

  const RECORD_SIZE: nat := 256

  /** A FixedSizeRecord. */
  datatype Record = Record(data: string, size: nat)

  /** MakeRecord: format_to_n keeps what fits, and reports how much there was. */
  function MakeRecord(text: string): (r: Record)
    ensures |r.data| == RECORD_SIZE
  {
    Record(if |text| <= RECORD_SIZE then text + seq(RECORD_SIZE - |text|, _ => 0 as char)
           else text[..RECORD_SIZE], |text|)
  }

  /** The characters that copy_n takes; None when it would read beyond the record. */
  function Taken(r: Record): Option<string>
  {
    if r.size <= |r.data| then Some(r.data[..r.size]) else None
  }

  /** A record gives back its text exactly if the text fits. */
  lemma TakenExactly(text: string)
    ensures Taken(MakeRecord(text)) == Some(text) <==> |text| <= RECORD_SIZE
  {
  }

  // ---------------------------------------------------------------- state

  /** A file, with history: how much had been written when it was attached. */
  datatype Output = Output(data: string, since: nat)

  /** polling: None outside of poll, else whether that poll is to flush; accepted, written: history. */
  datatype Logger = Logger(
    queue: State<Record>,
    level: int,
    threshold: nat,
    buf: string,
    outputs: seq<Output>,
    polling: Option<bool>,
    accepted: seq<string>,
    written: string)

  const POLLER: nat := 0

  /** A logger with one output; stdout is attached when it is constructed. */
  function Init(cap: nat, threads: nat, level: int, threshold: nat): Logger
  {
    Logger(QueueMachine.Init(cap, threads), level, threshold, "", [Output("", 0)], None, [], "")
  }

  datatype Choice =
    | Log(thread: nat, level: int, text: string)   // a producer calls log
    | GoOn(thread: nat)                            // a thread inside a call takes its next step
    | Poll(flush: bool)                            // the poller calls poll
    | Attach                                       // addLogFile

  /** writeFile */
  function Write(l: Logger): Logger
  {
    if l.buf == "" then l else
    l.(outputs := seq(|l.outputs|, i requires 0 <= i < |l.outputs| => l.outputs[i].(data := l.outputs[i].data + l.buf)),
       written := l.written + l.buf,
       buf := "")
  }

  /** The rest of poll, once try_consume_all has returned its count. */
  function EndPoll(l: Logger, count: nat, flush: bool): Logger
  {
    var l := l.(polling := None);
    if count == 0 then l else
    var l := if |l.buf| >= l.threshold then Write(l) else l;
    if flush then Write(l) else l
  }

  /** What the callback appends in a step of the poller: the record it is called with, if it is called. */
  function Appended(s: State<Record>): string
    requires Shape(s)
  {
    if POLLER < |s.pcs| && s.pcs[POLLER].TakeMove? && SlotOf(s, s.pcs[POLLER].ticket).cell.Live?
       && Taken(SlotOf(s, s.pcs[POLLER].ticket).cell.value).Some?
    then Taken(SlotOf(s, s.pcs[POLLER].ticket).cell.value).value else ""
  }

  /** The count that try_consume_all returns in this step, if it returns. */
  function Returned(s: State<Record>): Option<nat>
    requires Shape(s)
  {
    if POLLER < |s.pcs| && s.pcs[POLLER].TakeReload? && s.tail == s.pcs[POLLER].cursor && s.pcs[POLLER].mode.Greedy?
    then Some(s.pcs[POLLER].mode.count) else None
  }

  function PollerStep(l: Logger): Logger
    requires Shape(l.queue)
  {
    if l.polling == None then l else
    var r := l.(queue := QueueMachine.Step(l.queue, POLLER, TakeAll), buf := l.buf + Appended(l.queue));
    match Returned(l.queue)
    case None => r
    case Some(count) => EndPoll(r, count, l.polling.value)
  }

  /** Thread i of the queue, when it produces. */
  predicate Producer(l: Logger, i: nat)
  {
    i != POLLER && i < |l.queue.pcs|
  }

  function Step(l: Logger, choice: Choice): (r: Logger)
    requires Shape(l.queue)
    ensures Shape(r.queue)
  {
    match choice
    case Log(i, level, text) =>
      if !Producer(l, i) || !l.queue.pcs[i].Idle? || level < l.level then l
      else l.(queue := QueueMachine.Step(l.queue, i, Push([MakeRecord(text)])), accepted := l.accepted + [text])
    case GoOn(i) =>
      if i == POLLER then PollerStep(l)
      else if !Producer(l, i) || l.queue.pcs[i].Idle? then l
      else l.(queue := QueueMachine.Step(l.queue, i, Push([])))
    case Poll(flush) =>
      if POLLER >= |l.queue.pcs| || l.polling.Some? || !l.queue.pcs[POLLER].Idle? then l
      else l.(queue := QueueMachine.Step(l.queue, POLLER, TakeAll), polling := Some(flush))
    case Attach => l.(outputs := l.outputs + [Output("", |l.written|)])
  }

  function Exec(l: Logger, schedule: seq<Choice>): (r: Logger)
    requires Shape(l.queue)
    ensures Shape(r.queue)
  {
    if schedule == [] then l else Step(Exec(l, schedule[..|schedule| - 1]), schedule[|schedule| - 1])
  }

  function Run(cap: nat, threads: nat, level: int, threshold: nat, schedule: seq<Choice>): (r: Logger)
    requires cap > 0
    ensures Shape(r.queue)
  {
    Exec(Init(cap, threads, level, threshold), schedule)
  }

  // ---------------------------------------------------------------- the queue inside

  /** What a step of the logger asks of its queue: at most one step. */
  function Asked(l: Logger, choice: Choice): seq<QueueMachine.Choice<Record>>
  {
    match choice
    case Log(i, level, text) =>
      if !Producer(l, i) || !l.queue.pcs[i].Idle? || level < l.level then []
        else [QueueMachine.Choice.Choice(i, Push([MakeRecord(text)]))]
    case GoOn(i) =>
      if i == POLLER then if l.polling == None then [] else [QueueMachine.Choice.Choice(POLLER, TakeAll)]
      else if !Producer(l, i) || l.queue.pcs[i].Idle? then [] else [QueueMachine.Choice.Choice(i, Push([]))]
    case Poll(flush) =>
      if POLLER >= |l.queue.pcs| || l.polling.Some? || !l.queue.pcs[POLLER].Idle? then []
        else [QueueMachine.Choice.Choice(POLLER, TakeAll)]
    case Attach => []
  }

  function QueueSchedule(cap: nat, threads: nat, level: int, threshold: nat,
                         schedule: seq<Choice>): seq<QueueMachine.Choice<Record>>
    requires cap > 0
  {
    if schedule == [] then [] else
    var before := schedule[..|schedule| - 1];
    QueueSchedule(cap, threads, level, threshold, before)
    + Asked(Run(cap, threads, level, threshold, before), schedule[|schedule| - 1])
  }

  lemma AskedOnce(l: Logger, choice: Choice)
    requires Shape(l.queue)
    ensures var a := Asked(l, choice);
            |a| <= 1 && Step(l, choice).queue
              == (if a == [] then l.queue else QueueMachine.Step(l.queue, a[0].thread, a[0].call))
            && (a != [] && a[0].thread != POLLER ==> a[0].call.Push?)
  {
  }

  lemma OneMore(cap: nat, threads: nat, q: seq<QueueMachine.Choice<Record>>, a: seq<QueueMachine.Choice<Record>>)
    requires cap > 0 && |a| <= 1
    ensures QueueTheorems.Run(cap, threads, q + a)
         == (var s := QueueTheorems.Run(cap, threads, q);
             if a == [] then s else QueueMachine.Step(s, a[0].thread, a[0].call))
  {
    hide QueueMachine.Step;
    if a == [] {
      assert q + a == q;
    } else {
      assert (q + a)[..|q + a| - 1] == q && (q + a)[|q + a| - 1] == a[0];
    }
  }

  lemma OnlyConsumes(q: seq<QueueMachine.Choice<Record>>, a: seq<QueueMachine.Choice<Record>>)
    requires OnlyConsumer(q, POLLER) && OnlyConsumer(a, POLLER)
    ensures OnlyConsumer(q + a, POLLER)
  {
  }

  /** The queue inside a logger does what a queue does, with the poller as its only consumer. */
  lemma {:induction false} QueueInside(cap: nat, threads: nat, level: int, threshold: nat, schedule: seq<Choice>)
    requires cap > 0
    ensures OnlyConsumer(QueueSchedule(cap, threads, level, threshold, schedule), POLLER)
    ensures Run(cap, threads, level, threshold, schedule).queue
         == QueueTheorems.Run(cap, threads, QueueSchedule(cap, threads, level, threshold, schedule))
    decreases |schedule|
  {
    hide Step, Asked, QueueMachine.Step, QueueTheorems.Run, QueueMachine.Init;
    if schedule == [] {
      QueueInit(cap, threads, level, threshold);
    } else {
      var before, choice := schedule[..|schedule| - 1], schedule[|schedule| - 1];
      QueueInside(cap, threads, level, threshold, before);
      var l := Run(cap, threads, level, threshold, before);
      assert Run(cap, threads, level, threshold, schedule) == Step(l, choice);
      hide Run, Exec;
      AskedOnce(l, choice);
      OneMore(cap, threads, QueueSchedule(cap, threads, level, threshold, before), Asked(l, choice));
      OnlyConsumes(QueueSchedule(cap, threads, level, threshold, before), Asked(l, choice));
    }
  }

  lemma QueueInit(cap: nat, threads: nat, level: int, threshold: nat)
    requires cap > 0
    ensures Run(cap, threads, level, threshold, []).queue == QueueTheorems.Run(cap, threads, [])
  {
  }
}
