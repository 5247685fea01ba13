/** No character of an accepted record is lost, repeated or put out of order. */
module LoggerTheorems {
  import opened Options
  import opened QueueMachine
  import opened QueueInvariant
  import QueueTheorems
  import opened QueueClients
  import opened L = LoggerMachine

  /** The texts one after the other. */
  function Concat(texts: seq<string>): string
  {
    if texts == [] then "" else Concat(texts[..|texts| - 1]) + texts[|texts| - 1]
  }

  lemma ConcatMore(texts: seq<string>, text: string)
    ensures Concat(texts + [text]) == Concat(texts) + text
  {
  }

  // ---------------------------------------------------------------- the log level and the record size

  ghost predicate TextsFit(schedule: seq<L.Choice>)
  {
    forall k :: 0 <= k < |schedule| && schedule[k].Log? ==> |schedule[k].text| <= RECORD_SIZE
  }

  /** What was issued are the records of the accepted texts, all of which fit. */
  ghost predicate Issued(l: Logger)
  {
    |l.accepted| == |l.queue.issued|
    && (forall t :: 0 <= t < |l.accepted| ==> l.queue.issued[t] == MakeRecord(l.accepted[t]))
    && (forall t :: 0 <= t < |l.accepted| ==> |l.accepted[t]| <= RECORD_SIZE)
  }

  /** The log calls of a run: those of producers that were not inside another one, each with its level and text. */
  ghost function LogCalls(cap: nat, threads: nat, level: int, threshold: nat, schedule: seq<L.Choice>)
    : seq<(int, string)>
    requires cap > 0
    decreases |schedule|
  {
    if schedule == [] then [] else
    var before, last := schedule[..|schedule| - 1], schedule[|schedule| - 1];
    var l := L.Run(cap, threads, level, threshold, before);
    LogCalls(cap, threads, level, threshold, before)
    + if last.Log? && Producer(l, last.thread) && l.queue.pcs[last.thread].Idle? then [(last.level, last.text)] else []
  }

  /** The texts of the calls at a level or above it. */
  function Loud(calls: seq<(int, string)>, level: int): seq<string>
  {
    if calls == [] then [] else
    var last := calls[|calls| - 1];
    Loud(calls[..|calls| - 1], level) + if last.0 >= level then [last.1] else []
  }

  lemma LoudMore(calls: seq<(int, string)>, call: (int, string), level: int)
    ensures Loud(calls + [call], level) == Loud(calls, level) + if call.0 >= level then [call.1] else []
  {
    assert (calls + [call])[..|calls|] == calls;
  }

  lemma LevelKept(l: Logger, choice: L.Choice)
    requires Shape(l.queue)
    ensures L.Step(l, choice).level == l.level
    ensures !choice.Log? ==> L.Step(l, choice).accepted == l.accepted
  {
    hide QueueMachine.Step, Appended, Returned;
  }

  /** In every run the accepted records are those of the calls at the logger's level or above, in the order of the
      calls. */
  lemma {:induction false} AcceptedExactly(cap: nat, threads: nat, level: int, threshold: nat, schedule: seq<L.Choice>)
    requires cap > 0
    ensures var l := L.Run(cap, threads, level, threshold, schedule);
            l.level == level && l.accepted == Loud(LogCalls(cap, threads, level, threshold, schedule), level)
    decreases |schedule|
  {
    if schedule != [] {
      var before, last := schedule[..|schedule| - 1], schedule[|schedule| - 1];
      AcceptedExactly(cap, threads, level, threshold, before);
      var l := L.Run(cap, threads, level, threshold, before);
      var calls := LogCalls(cap, threads, level, threshold, before);
      LevelKept(l, last);
      if last.Log? {
        LoudMore(calls, (last.level, last.text), level);
      }
      assert calls + [] == calls;
      hide QueueMachine.Step;
    }
  }

  // ---------------------------------------------------------------- one step

  /** A producer issues nothing but what it was called with. */
  lemma ProducerIssues(s: State<Record>, i: nat, items: seq<Record>)
    requires Shape(s) && i < |s.pcs| && Produces(s.pcs[i]) && !TryPushing(s.pcs[i])
    ensures var r := QueueMachine.Step(s, i, Push(items));
            r.log == s.log && r.tail == s.tail && r.issued == (if s.pcs[i].Idle? then s.issued + items else s.issued)
            && Produces(r.pcs[i]) && !TryPushing(r.pcs[i]) && forall j :: 0 <= j < |s.pcs| && j != i ==>
                  r.pcs[j] == s.pcs[j]
  {
  }

  ghost predicate TryPushing(pc: Pc<Record>)
  {
    pc.TryPushLoad? || pc.TryPushCheck? || pc.TryPushCas? || pc.TryPushReload?
  }

  /** The poller is in a try_consume_all, or outside. */
  ghost predicate Consumes(pc: Pc<Record>)
  {
    pc.Idle?
    || ((pc.TakeLoad? || pc.TakeCheck? || pc.TakeCas? || pc.TakeReload? || pc.TakeMove? || pc.TakeDestroy?
         || pc.TakeRelease?)
        && pc.mode.Greedy?)
  }

  /** The records it has taken in this call, before it counts the one in its hands. */
  function Counted(pc: Pc<Record>): nat
    requires Consumes(pc)
  {
    if pc.Idle? then 0 else pc.mode.count + if pc.TakeDestroy? || pc.TakeRelease? then 1 else 0
  }

  /** A step of try_consume_all: it moves a record out, or ends with its count, or neither. */
  lemma PollerTakes(s: State<Record>)
    requires Inv(s) && POLLER < |s.pcs| && Consumes(s.pcs[POLLER])
    ensures var r := QueueMachine.Step(s, POLLER, TakeAll);
            var pc := s.pcs[POLLER];
            Consumes(r.pcs[POLLER]) && r.issued == s.issued
            && (r.pcs[POLLER].Idle? <==> Returned(s).Some?)
            && (Returned(s).Some? ==> Returned(s) == Some(Counted(pc)) && r.log == s.log && !pc.TakeMove?)
            && (pc.TakeMove? ==>
                |r.log| == |s.log| + 1 && r.log[..|s.log|] == s.log && r.log[|s.log|].ticket < |s.issued|
                                 && SlotOf(s, pc.ticket).cell == Live(r.log[|s.log|].value)
                                 && Counted(r.pcs[POLLER]) == Counted(pc) + 1)
            && (!pc.TakeMove? ==> r.log == s.log && (r.pcs[POLLER].Idle? || Counted(r.pcs[POLLER]) == Counted(pc)))
            && |r.pcs| == |s.pcs| && forall j :: 0 <= j < |s.pcs| && j != POLLER ==> r.pcs[j] == s.pcs[j]
  {
    assert PcOk(s, s.pcs[POLLER]);
    StepLogs(s, POLLER, TakeAll);
  }

  // ---------------------------------------------------------------- conservation

  /** The texts moved out of the queue so far, in the order of the moves. */
  function Consumed(l: Logger): seq<string>
    requires |l.queue.log| <= |l.accepted|
  {
    l.accepted[..|l.queue.log|]
  }

  /** What an output holds: everything written since it was attached. */
  ghost predicate OutputOk(l: Logger, o: Output)
  {
    o.since <= |l.written| && o.data == l.written[o.since..]
  }

  ghost predicate Conserved(l: Logger)
  {
    && Issued(l) && |l.queue.log| <= |l.accepted|
    && Concat(Consumed(l)) == l.written + l.buf
    && forall k :: 0 <= k < |l.outputs| ==> OutputOk(l, l.outputs[k])
  }

  /** Who runs where. */
  ghost predicate Roles(l: Logger)
  {
    && (POLLER < |l.queue.pcs| ==> Consumes(l.queue.pcs[POLLER]) && (l.polling == None <==> l.queue.pcs[POLLER].Idle?))
    && (POLLER >= |l.queue.pcs| ==> l.polling == None)
    && (forall i :: 0 <= i < |l.queue.pcs| && i != POLLER ==> Produces(l.queue.pcs[i]) && !TryPushing(l.queue.pcs[i]))
  }

  ghost predicate LoggerInv(l: Logger)
  {
    Inv(l.queue) && InOrder(l.queue, POLLER) && Roles(l) && Conserved(l)
  }

  lemma EndKeeps(l: Logger, count: nat, flush: bool)
    requires forall k :: 0 <= k < |l.outputs| ==> OutputOk(l, l.outputs[k])
    ensures var r := EndPoll(l, count, flush);
            r.written + r.buf == l.written + l.buf && |r.outputs| == |l.outputs| && (count > 0 && flush ==> r.buf == "")
            && (count == 0 ==> r.buf == l.buf)
            && (forall k :: 0 <= k < |r.outputs| ==>
                OutputOk(r, r.outputs[k]) && r.outputs[k].since == l.outputs[k].since)
            && r == l.(buf := r.buf, outputs := r.outputs, written := r.written, polling := None)
  {
  }

  // ---------------------------------------------------------------- every step conserves

  lemma IssuedMore(l: Logger, r: Logger, text: string)
    requires Issued(l) && |text| <= RECORD_SIZE
    requires r.accepted == l.accepted + [text] && r.queue.issued == l.queue.issued + [MakeRecord(text)]
    ensures Issued(r)
  {
  }

  /** What the log says was moved is what the callback appended. */
  lemma AppendedIs(l: Logger)
    requires Inv(l.queue) && InOrder(l.queue, POLLER) && Issued(l) && POLLER < |l.queue.pcs|
        && Consumes(l.queue.pcs[POLLER])
    ensures if l.queue.pcs[POLLER].TakeMove?
            then |l.queue.log| < |l.accepted| && Appended(l.queue) == l.accepted[|l.queue.log|]
            else Appended(l.queue) == ""
  {
    if l.queue.pcs[POLLER].TakeMove? {
      PollerTakes(l.queue);
      ConsumerKeepsOrder(l.queue, POLLER, TakeAll);
      var r := QueueMachine.Step(l.queue, POLLER, TakeAll);
      var t := |l.queue.log|;
      hide QueueMachine.Step, Inv;
      assert r.log[t] == Delivery(t, r.issued[t], POLLER);
      TakenExactly(l.accepted[t]);
    }
  }

  lemma LogConserves(l: Logger, i: nat, level: int, text: string)
    requires LoggerInv(l) && |text| <= RECORD_SIZE
    ensures LoggerInv(L.Step(l, L.Log(i, level, text)))
  {
    var r := L.Step(l, L.Log(i, level, text));
    if r != l {
      var items := [MakeRecord(text)];
      StepInv(l.queue, i, Push(items));
      ProducerKeepsOrder(l.queue, POLLER, i, Push(items));
      ProducerIssues(l.queue, i, items);
      hide QueueMachine.Step, Inv, InOrder, MakeRecord;
      IssuedMore(l, r, text);
      hide Issued, OutputOk, Concat;
      assert Consumed(r) == Consumed(l);
      KeepsOutputs(l, r);
    }
  }

  lemma KeepsOutputs(l: Logger, r: Logger)
    requires (forall k :: 0 <= k < |l.outputs| ==> OutputOk(l, l.outputs[k])) && r.outputs == l.outputs
        && r.written == l.written
    ensures forall k :: 0 <= k < |r.outputs| ==> OutputOk(r, r.outputs[k])
  {
  }

  lemma ProducerConserves(l: Logger, i: nat)
    requires LoggerInv(l) && i != POLLER
    ensures LoggerInv(L.Step(l, GoOn(i)))
  {
    var r := L.Step(l, GoOn(i));
    if r != l {
      StepInv(l.queue, i, Push([]));
      ProducerKeepsOrder(l.queue, POLLER, i, Push([]));
      ProducerIssues(l.queue, i, []);
      hide QueueMachine.Step, Inv, InOrder, MakeRecord;
      assert Issued(r);
      hide Issued, OutputOk, Concat;
      assert Consumed(r) == Consumed(l);
      KeepsOutputs(l, r);
    }
  }

  lemma PollConserves(l: Logger, flush: bool)
    requires LoggerInv(l)
    ensures LoggerInv(L.Step(l, Poll(flush)))
  {
    var r := L.Step(l, Poll(flush));
    if r != l {
      StepInv(l.queue, POLLER, TakeAll);
      ConsumerKeepsOrder(l.queue, POLLER, TakeAll);
      PollBegins(l.queue);
      hide QueueMachine.Step, Inv, InOrder;
      assert Consumed(r) == Consumed(l);
      KeepsOutputs(l, r);
    }
  }

  lemma PollBegins(s: State<Record>)
    requires Shape(s) && POLLER < |s.pcs| && s.pcs[POLLER].Idle?
    ensures var r := QueueMachine.Step(s, POLLER, TakeAll);
            r == s.(pcs := s.pcs[POLLER := TakeLoad(Greedy(0))])
  {
  }

  /** The poller's own step, before the end of poll. */
  function Taking(l: Logger): Logger
    requires Shape(l.queue)
  {
    l.(queue := QueueMachine.Step(l.queue, POLLER, TakeAll), buf := l.buf + Appended(l.queue))
  }

  lemma ConcatTaken(accepted: seq<string>, n: nat, written: string, buf: string)
    requires n < |accepted| && Concat(accepted[..n]) == written + buf
    ensures Concat(accepted[..n + 1]) == written + (buf + accepted[n])
  {
    assert accepted[..n + 1] == accepted[..n] + [accepted[n]];
    ConcatMore(accepted[..n], accepted[n]);
    hide Concat;
    assert written + (buf + accepted[n]) == (written + buf) + accepted[n];
  }

  /** One record more in the log and in the buffer, or none in either. */
  lemma ConservedTaken(l: Logger, r: Logger, took: bool)
    requires Conserved(l) && r.accepted == l.accepted && r.queue.issued == l.queue.issued
    requires r.written == l.written && r.outputs == l.outputs
    requires took ==> |r.queue.log| == |l.queue.log| + 1 <= |l.accepted| && r.buf == l.buf + l.accepted[|l.queue.log|]
    requires !took ==> |r.queue.log| == |l.queue.log| && r.buf == l.buf + ""
    ensures Conserved(r)
  {
    hide MakeRecord;
    assert Issued(r);
    hide Issued;
    if took {
      ConcatTaken(l.accepted, |l.queue.log|, l.written, l.buf);
    } else {
      assert l.buf + "" == l.buf;
    }
    KeepsOutputs(l, r);
  }

  lemma TakingConserves(l: Logger)
    requires LoggerInv(l) && l.polling.Some?
    ensures var r := Taking(l);
            Inv(r.queue) && InOrder(r.queue, POLLER) && Conserved(r) && r.outputs == l.outputs
    ensures TookStep(l, Taking(l))
  {
    var r := Taking(l);
    StepInv(l.queue, POLLER, TakeAll);
    ConsumerKeepsOrder(l.queue, POLLER, TakeAll);
    PollerTakes(l.queue);
    AppendedIs(l);
    hide QueueMachine.Step, Inv, InOrder, Appended, Returned, Consumes, Conserved, Issued, Counted;
    ConservedTaken(l, r, l.queue.pcs[POLLER].TakeMove?);
  }

  /** Only the poller has moved, and it is outside exactly if its call returned. */
  ghost predicate TookStep(l: Logger, r: Logger)
  {
    Shape(l.queue) && POLLER < |r.queue.pcs| && Consumes(r.queue.pcs[POLLER])
      && (r.queue.pcs[POLLER].Idle? <==> Returned(l.queue).Some?)
    && |r.queue.pcs| == |l.queue.pcs| && forall j :: 0 <= j < |l.queue.pcs| && j != POLLER ==>
          r.queue.pcs[j] == l.queue.pcs[j]
  }

  lemma ConservedEnd(l: Logger, r: Logger)
    requires Conserved(l) && r == l.(buf := r.buf, outputs := r.outputs, written := r.written, polling := None)
    requires r.written + r.buf == l.written + l.buf
    requires forall k :: 0 <= k < |r.outputs| ==> OutputOk(r, r.outputs[k])
    ensures Conserved(r)
  {
  }

  lemma RolesAfter(l: Logger, r: Logger, polling: Option<bool>)
    requires Roles(l) && TookStep(l, r) && (polling == None <==> Returned(l.queue).Some?)
    ensures Roles(r.(polling := polling))
  {
  }

  lemma PollerConserves(l: Logger)
    requires LoggerInv(l)
    ensures LoggerInv(PollerStep(l))
  {
    if l.polling.Some? {
      TakingConserves(l);
      var r := Taking(l);
      RolesAfter(l, r, if Returned(l.queue).Some? then None else l.polling);
      hide QueueMachine.Step, Inv, InOrder, Appended, Consumes, Concat, TookStep, Roles;
      if Returned(l.queue).Some? {
        EndKeeps(r, Returned(l.queue).value, l.polling.value);
        ConservedEnd(r, EndPoll(r, Returned(l.queue).value, l.polling.value));
        SameRoles(r.(polling := None), EndPoll(r, Returned(l.queue).value, l.polling.value));
        hide EndPoll;
      }
      hide Returned, Conserved;
    }
  }

  lemma SameRoles(l: Logger, r: Logger)
    requires Roles(l) && r.queue == l.queue && r.polling == l.polling
    ensures Roles(r)
  {
  }

  lemma AttachConserves(l: Logger)
    requires LoggerInv(l)
    ensures LoggerInv(L.Step(l, Attach))
  {
    var r := L.Step(l, Attach);
    hide Inv, InOrder;
    forall k | 0 <= k < |r.outputs| ensures OutputOk(r, r.outputs[k]) {
      if k < |l.outputs| {
        assert OutputOk(l, l.outputs[k]);
      }
    }
    assert Consumed(r) == Consumed(l);
  }

  lemma StepConserves(l: Logger, choice: L.Choice)
    requires LoggerInv(l) && (choice.Log? ==> |choice.text| <= RECORD_SIZE)
    ensures LoggerInv(L.Step(l, choice))
  {
    assert Shape(l.queue);
    hide LoggerInv, L.Step, PollerStep;
    match choice
    case Log(i, level, text) => LogConserves(l, i, level, text);
    case GoOn(i) =>
      if i == POLLER {
        PollerConserves(l);
        GoOnIsPollerStep(l);
      } else {
        ProducerConserves(l, i);
      }
    case Poll(flush) => PollConserves(l, flush);
    case Attach => AttachConserves(l);
  }

  lemma GoOnIsPollerStep(l: Logger)
    requires Shape(l.queue)
    ensures L.Step(l, GoOn(POLLER)) == PollerStep(l)
  {
  }

  lemma InitConserves(cap: nat, threads: nat, level: int, threshold: nat)
    requires cap > 0
    ensures LoggerInv(L.Init(cap, threads, level, threshold))
  {
    InitInv<Record>(cap, threads);
    hide Inv;
  }

  lemma {:induction false} RunConserves(cap: nat, threads: nat, level: int, threshold: nat, schedule: seq<L.Choice>)
    requires cap > 0 && TextsFit(schedule)
    ensures LoggerInv(L.Run(cap, threads, level, threshold, schedule))
    decreases |schedule|
  {
    hide LoggerInv, L.Step;
    if schedule == [] {
      InitConserves(cap, threads, level, threshold);
    } else {
      var before := schedule[..|schedule| - 1];
      RunConserves(cap, threads, level, threshold, before);
      StepConserves(L.Run(cap, threads, level, threshold, before), schedule[|schedule| - 1]);
    }
  }

  /**
    Conservation: in every state of every run, an output that was attached from the beginning holds the texts of
    the records consumed so far, in the order of their tickets, less what is still in the buffer; an output
    attached later holds what was written since.
   */
  lemma Conservation(cap: nat, threads: nat, level: int, threshold: nat, schedule: seq<L.Choice>, k: nat)
    requires cap > 0 && TextsFit(schedule)
    requires k < |L.Run(cap, threads, level, threshold, schedule).outputs|
    ensures var l := L.Run(cap, threads, level, threshold, schedule);
            |l.queue.log| <= |l.accepted| && |l.accepted| == |l.queue.issued|
            && (forall t :: 0 <= t < |l.queue.log| ==> l.queue.log[t].ticket == t)
            && (l.outputs[k].since == 0 ==> l.outputs[k].data + l.buf == Concat(l.accepted[..|l.queue.log|]))
            && l.outputs[k].since <= |l.written| && l.outputs[k].data == l.written[l.outputs[k].since..]
  {
    RunConserves(cap, threads, level, threshold, schedule);
    hide L.Run, Inv, Concat;
    var l := L.Run(cap, threads, level, threshold, schedule);
    assert OutputOk(l, l.outputs[k]);
    if l.outputs[k].since == 0 {
      assert l.written[0..] == l.written;
    }
  }

  // ---------------------------------------------------------------- flushing

  ghost predicate AllFlush(schedule: seq<L.Choice>)
  {
    forall k :: 0 <= k < |schedule| && schedule[k].Poll? ==> schedule[k].flush
  }

  /** Outside of poll the buffer is empty, and inside it is until the first record is taken. */
  ghost predicate Flushed(l: Logger)
  {
    (l.polling == None ==> l.buf == "")
    && (l.polling.Some? ==> l.polling.value && POLLER < |l.queue.pcs| && Consumes(l.queue.pcs[POLLER])
                            && (Counted(l.queue.pcs[POLLER]) == 0 ==> l.buf == ""))
  }

  lemma StepFlushes(l: Logger, choice: L.Choice)
    requires LoggerInv(l) && Flushed(l) && (choice.Poll? ==> choice.flush)
    ensures Flushed(L.Step(l, choice))
  {
    if choice == GoOn(POLLER) {
      PollerFlushes(l);
      GoOnIsPollerStep(l);
    } else if choice.Poll? {
      if POLLER < |l.queue.pcs| && l.queue.pcs[POLLER].Idle? {
        PollBegins(l.queue);
      }
      hide QueueMachine.Step, Inv, InOrder, Conserved;
    } else {
      OthersApart(l, choice);
      hide L.Step, LoggerInv;
    }
  }

  /** Whatever the others do, the poller stands still, and so does its buffer. */
  lemma OthersApart(l: Logger, choice: L.Choice)
    requires LoggerInv(l) && choice != GoOn(POLLER) && !choice.Poll?
    ensures var r := L.Step(l, choice);
            r.buf == l.buf && r.polling == l.polling && |r.queue.pcs| == |l.queue.pcs|
            && (POLLER < |l.queue.pcs| ==> r.queue.pcs[POLLER] == l.queue.pcs[POLLER])
  {
    var i := if choice.Log? || choice.GoOn? then choice.thread else 0;
    var items := if choice.Log? then [MakeRecord(choice.text)] else [];
    if Producer(l, i) {
      ProducerIssues(l.queue, i, items);
      StaysPut(l.queue, i, items);
    }
    hide QueueMachine.Step, Inv, InOrder, Conserved, MakeRecord;
  }

  lemma StaysPut(s: State<Record>, i: nat, items: seq<Record>)
    requires Shape(s) && i < |s.pcs|
    ensures |QueueMachine.Step(s, i, Push(items)).pcs| == |s.pcs|
  {
  }

  lemma PollerFlushes(l: Logger)
    requires LoggerInv(l) && Flushed(l)
    ensures Flushed(PollerStep(l))
  {
    if l.polling.Some? {
      PollerTakes(l.queue);
      AppendedIs(l);
      TakingConserves(l);
      var r := Taking(l);
      hide QueueMachine.Step, Inv, InOrder, Appended, Returned;
      if Returned(l.queue).Some? {
        EndKeeps(r, Returned(l.queue).value, l.polling.value);
        hide EndPoll;
      }
    }
  }

  /** When every poll is to flush, the buffer is empty between polls. */
  lemma {:induction false} EmptyBetweenPolls(cap: nat, threads: nat, level: int, threshold: nat,
                                             schedule: seq<L.Choice>)
    requires cap > 0 && TextsFit(schedule) && AllFlush(schedule)
    ensures Flushed(L.Run(cap, threads, level, threshold, schedule))
    decreases |schedule|
  {
    hide LoggerInv, L.Step, Flushed;
    if schedule == [] {
      FlushedAtFirst(cap, threads, level, threshold);
    } else {
      var before := schedule[..|schedule| - 1];
      EmptyBetweenPolls(cap, threads, level, threshold, before);
      RunConserves(cap, threads, level, threshold, before);
      StepFlushes(L.Run(cap, threads, level, threshold, before), schedule[|schedule| - 1]);
    }
  }

  lemma FlushedAtFirst(cap: nat, threads: nat, level: int, threshold: nat)
    requires cap > 0
    ensures Flushed(L.Init(cap, threads, level, threshold))
  {
  }

  /**
    Once no call is in progress and the queue is drained, every accepted record is in every output that was
    attached from the beginning, once and in the order of the tickets.
   */
  lemma DrainedInFull(cap: nat, threads: nat, level: int, threshold: nat, schedule: seq<L.Choice>, k: nat)
    requires cap > 0 && TextsFit(schedule) && AllFlush(schedule)
    requires var l := L.Run(cap, threads, level, threshold, schedule);
             l.polling == None && l.queue.tail >= l.queue.head && k < |l.outputs| && l.outputs[k].since == 0
    ensures var l := L.Run(cap, threads, level, threshold, schedule);
            l.outputs[k].data == Concat(l.accepted)
  {
    Conservation(cap, threads, level, threshold, schedule, k);
    EmptyBetweenPolls(cap, threads, level, threshold, schedule);
    RunConserves(cap, threads, level, threshold, schedule);
    hide L.Run, Concat;
    var l := L.Run(cap, threads, level, threshold, schedule);
    assert l.accepted[..|l.queue.log|] == l.accepted;
    assert l.outputs[k].data + "" == l.outputs[k].data;
  }
}
