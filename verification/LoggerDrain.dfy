/** The logger's last poll: once nobody logs any more it takes and writes all that was accepted. */
module LoggerDrain {
  import opened Options
  import opened QueueMachine
  import opened QueueInvariant
  import opened QueueTheorems
  import opened QueueSolo
  import opened QueueClients
  import opened L = LoggerMachine
  import opened LoggerTheorems

  /** The poller goes on n times. */
  function Going(n: nat): seq<L.Choice>
  {
    seq(n, _ => GoOn(POLLER))
  }

  lemma RunMore(cap: nat, threads: nat, level: int, threshold: nat, schedule: seq<L.Choice>, choice: L.Choice)
    requires cap > 0
    ensures L.Run(cap, threads, level, threshold, schedule + [choice])
         == L.Step(L.Run(cap, threads, level, threshold, schedule), choice)
  {
    hide L.Step;
    assert (schedule + [choice])[..|schedule|] == schedule;
  }

  // ---------------------------------------------------------------- one step of the last poll

  /** What a poll that flushes leaves in the buffer when it returns with n records moved: nothing if it took any. */
  function Left(l: Logger, n: nat): string
    requires POLLER < |l.queue.pcs| && Consumes(l.queue.pcs[POLLER])
  {
    if Counted(l.queue.pcs[POLLER]) == 0 && n == |l.queue.log| then l.buf else ""
  }

  lemma SameCall<T>(s: State<T>, i: nat, call: Call<T>, other: Call<T>)
    requires Shape(s) && i < |s.pcs| && !s.pcs[i].Idle?
    ensures QueueMachine.Step(s, i, call) == QueueMachine.Step(s, i, other)
  {
  }

  /** A flushing poll goes on: it still polls, or it has returned. */
  lemma DrainStep(l: Logger)
    requires LoggerInv(l) && l.polling == Some(true)
    ensures POLLER < |l.queue.pcs| && Consumes(l.queue.pcs[POLLER])
    ensures var r := L.Step(l, GoOn(POLLER));
            r.queue == QueueMachine.Step(l.queue, POLLER, Pop) && r.accepted == l.accepted
            && |r.outputs| == |l.outputs|
            && (forall k :: 0 <= k < |r.outputs| ==> r.outputs[k].since == l.outputs[k].since)
            && POLLER < |r.queue.pcs| && Consumes(r.queue.pcs[POLLER])
            && |r.queue.log| >= |l.queue.log|
            && (r.polling == None || r.polling == Some(true))
            && (r.polling == None <==> r.queue.pcs[POLLER].Idle?)
            && (if r.polling == None then r.buf == Left(l, |r.queue.log|)
                else forall n :: n >= |r.queue.log| ==> Left(r, n) == Left(l, n))
  {
    TakingIs(l);
    GoOnIsPollerStep(l);
    SameCall(l.queue, POLLER, TakeAll, Pop);
    var r := Taking(l);
    hide QueueMachine.Step, LoggerInv, Appended, L.Step, Consumes, Counted, Taking, Left;
    if Returned(l.queue).Some? {
      EndKeeps(r, Returned(l.queue).value, l.polling.value);
      hide EndPoll;
    }
    hide Returned;
  }

  /** The step before the end of poll. */
  lemma TakingIs(l: Logger)
    requires LoggerInv(l) && l.polling == Some(true)
    ensures POLLER < |l.queue.pcs| && Consumes(l.queue.pcs[POLLER]) && Shape(l.queue)
    ensures var r := Taking(l);
            r == l.(queue := QueueMachine.Step(l.queue, POLLER, TakeAll), buf := r.buf)
            && POLLER < |r.queue.pcs| && Consumes(r.queue.pcs[POLLER]) && |r.queue.log| >= |l.queue.log|
            && (forall k :: 0 <= k < |r.outputs| ==> OutputOk(r, r.outputs[k]))
            && (r.queue.pcs[POLLER].Idle? <==> Returned(l.queue).Some?)
            && (if Returned(l.queue).Some?
                then r.buf == l.buf && Left(l, |r.queue.log|) == if Returned(l.queue).value == 0 then l.buf else ""
                else forall n :: n >= |r.queue.log| ==> Left(r, n) == Left(l, n))
  {
    PollerTakes(l.queue);
    AppendedIs(l);
    TakingConserves(l);
    hide QueueMachine.Step, Inv, InOrder, Appended, Returned;
  }

  // ---------------------------------------------------------------- the whole poll

  lemma GoingOn(schedule: seq<L.Choice>, n: nat)
    ensures schedule + [GoOn(POLLER)] + Going(n) == schedule + Going(n + 1)
  {
  }

  lemma GreedyIs(pc: Pc<Record>)
    ensures Consumes(pc) <==> Greedily(pc)
  {
  }

  /** Left alone, a flushing poll returns, and the queue is as its try_consume_all leaves it. */
  lemma {:induction false} Drain(cap: nat, threads: nat, level: int, threshold: nat, schedule: seq<L.Choice>)
    returns (n: nat)
    requires cap > 0 && TextsFit(schedule) && L.Run(cap, threads, level, threshold, schedule).polling == Some(true)
    ensures var l := L.Run(cap, threads, level, threshold, schedule);
            var r := L.Run(cap, threads, level, threshold, schedule + Going(n));
            Inv(l.queue) && POLLER < |l.queue.pcs| && Consumes(l.queue.pcs[POLLER]) && Greedily(l.queue.pcs[POLLER])
            && r.polling == None && r.queue == RunAlone(l.queue, POLLER) && r.accepted == l.accepted
            && |r.outputs| == |l.outputs|
            && (forall k :: 0 <= k < |r.outputs| ==> r.outputs[k].since == l.outputs[k].since)
            && |r.queue.log| >= |l.queue.log| && r.buf == Left(l, |r.queue.log|)
    decreases Ahead(L.Run(cap, threads, level, threshold, schedule).queue),
              Phase(L.Run(cap, threads, level, threshold, schedule).queue,
                    if POLLER < |L.Run(cap, threads, level, threshold, schedule).queue.pcs|
                    then L.Run(cap, threads, level, threshold, schedule).queue.pcs[POLLER] else Idle)
  {
    RunConserves(cap, threads, level, threshold, schedule);
    RunMore(cap, threads, level, threshold, schedule, GoOn(POLLER));
    hide L.Run, L.Step;
    var l := L.Run(cap, threads, level, threshold, schedule);
    DrainStep(l);
    hide LoggerInv, Consumes;
    GreedyIs(l.queue.pcs[POLLER]);
    assert Inv(l.queue) by { DrainInv(l); }
    GreedyStep(l.queue, POLLER);
    var more := schedule + [GoOn(POLLER)];
    var r := L.Run(cap, threads, level, threshold, more);
    if r.polling == None {
      n := 1;
      assert schedule + Going(1) == more;
    } else {
      GreedyIs(r.queue.pcs[POLLER]);
      var m := Drain(cap, threads, level, threshold, more);
      n := m + 1;
      GoingOn(schedule, m);
    }
  }

  lemma DrainInv(l: Logger)
    requires LoggerInv(l)
    ensures Inv(l.queue)
  {
  }

  // ---------------------------------------------------------------- the last poll

  /** A try_consume_all of an idle queue takes all that was issued. */
  lemma TakesAll(s: State<Record>, i: nat)
    requires Inv(s) && AllIdle(s) && s.tail <= s.head && i < |s.pcs|
    ensures var begun := s.(pcs := s.pcs[i := TakeLoad(Greedy(0))]);
            Inv(begun) && Greedily(begun.pcs[i])
            && (var r := RunAlone(begun, i); r.tail == r.head == s.head == |s.issued| && AllIdle(r))
  {
    var begun := s.(pcs := s.pcs[i := TakeLoad(Greedy(0))]);
    assert QueueMachine.Step(s, i, TakeAll) == begun;
    StepInv(s, i, TakeAll);
    AllPublished(s, s.tail);
    assert PcOk(begun, begun.pcs[i]);
    TargetBound(begun, i);
    SameGap(s, begun, s.tail);
    AloneTakesTheRun(begun, i);
    hide RunAlone, Inv;
  }

  /** What is still in the buffer, and what is not yet taken. */
  lemma IdleLogger(l: Logger)
    requires LoggerInv(l) && AllIdle(l.queue) && POLLER < |l.queue.pcs|
    ensures Inv(l.queue) && l.polling == None && |l.queue.log| == l.queue.tail <= l.queue.head == |l.accepted|
    ensures |l.accepted| == |l.queue.issued|
  {
    Unclaimed(l.queue, 0);
  }

  /** The poll begins. */
  lemma LastPollBegins(l: Logger)
    requires LoggerInv(l) && AllIdle(l.queue) && POLLER < |l.queue.pcs|
    ensures var r := L.Step(l, Poll(true));
            r.polling == Some(true) && r.accepted == l.accepted && r.buf == l.buf && r.outputs == l.outputs
            && r.queue == l.queue.(pcs := l.queue.pcs[POLLER := TakeLoad(Greedy(0))])
            && Left(r, |l.queue.log|) == l.buf && (forall n :: n > |l.queue.log| ==> Left(r, n) == "")
  {
    IdleLogger(l);
    PollBegins(l.queue);
    hide QueueMachine.Step, LoggerInv;
  }

  /** Going on with a poll that has returned changes nothing. */
  lemma {:induction false} Settled(cap: nat, threads: nat, level: int, threshold: nat, schedule: seq<L.Choice>, n: nat)
    requires cap > 0 && L.Run(cap, threads, level, threshold, schedule).polling == None
    ensures L.Run(cap, threads, level, threshold, schedule + Going(n))
        == L.Run(cap, threads, level, threshold, schedule)
    decreases n
  {
    if n == 0 {
      assert schedule + Going(0) == schedule;
    } else {
      Settled(cap, threads, level, threshold, schedule, n - 1);
      assert Going(n) == Going(n - 1) + [GoOn(POLLER)];
      assert schedule + Going(n) == (schedule + Going(n - 1)) + [GoOn(POLLER)];
      RunMore(cap, threads, level, threshold, schedule + Going(n - 1), GoOn(POLLER));
      hide L.Run;
    }
  }

  /** A logger at rest that has taken everything; buf is what is in its buffer. */
  ghost predicate Drained(l: Logger, accepted: seq<string>, buf: string)
  {
    && l.polling == None && AllIdle(l.queue) && l.queue.tail == l.queue.head == |accepted| && l.accepted == accepted
    && l.buf == buf && forall k :: 0 <= k < |l.outputs| && l.outputs[k].since == 0 ==>
         l.outputs[k].data + buf == Concat(accepted)
  }

  /**
    The last poll, in every run: when no producer is at work, a flushing poll and enough steps of the poller take all
    that was accepted, and write it and what was in the buffer; unless there is nothing to take, and then what is in
    the buffer stays there.
   */
  lemma LastPollDrains(cap: nat, threads: nat, level: int, threshold: nat, schedule: seq<L.Choice>) returns (n: nat)
    requires cap > 0 && threads > POLLER && TextsFit(schedule)
    requires AllIdle(L.Run(cap, threads, level, threshold, schedule).queue)
    ensures var l := L.Run(cap, threads, level, threshold, schedule);
            forall m :: m >= n ==>
              var r := L.Run(cap, threads, level, threshold, schedule + [Poll(true)] + Going(m));
              |r.outputs| == |l.outputs|
                && (forall k :: 0 <= k < |r.outputs| ==> r.outputs[k].since == l.outputs[k].since)
              && Drained(r, l.accepted, if l.queue.tail < l.queue.head then "" else l.buf)
  {
    var l := L.Run(cap, threads, level, threshold, schedule);
    RunConserves(cap, threads, level, threshold, schedule);
    ThreadsKept(cap, threads, level, threshold, schedule);
    IdleLogger(l);
    LastPollBegins(l);
    var more := schedule + [Poll(true)];
    RunMore(cap, threads, level, threshold, schedule, Poll(true));
    hide L.Run, L.Step, Inv, Concat;
    TakesAll(l.queue, POLLER);
    n := Drain(cap, threads, level, threshold, more);
    var done := more + Going(n);
    var r := L.Run(cap, threads, level, threshold, done);
    RunConserves(cap, threads, level, threshold, done);
    hide RunAlone, LoggerInv;
    IdleLogger(r);
    forall m | m >= n
      ensures L.Run(cap, threads, level, threshold, more + Going(m)) == r
    {
      assert Going(m) == Going(n) + Going(m - n);
      assert more + Going(m) == done + Going(m - n);
      Settled(cap, threads, level, threshold, done, m - n);
    }
    AllWritten(cap, threads, level, threshold, done);
  }

  /** With everything moved out of the queue, an output and the buffer hold everything. */
  lemma AllWritten(cap: nat, threads: nat, level: int, threshold: nat, schedule: seq<L.Choice>)
    requires cap > 0 && TextsFit(schedule)
    requires var l := L.Run(cap, threads, level, threshold, schedule); |l.queue.log| == |l.accepted|
    ensures var l := L.Run(cap, threads, level, threshold, schedule);
            forall k :: 0 <= k < |l.outputs| && l.outputs[k].since == 0 ==>
                l.outputs[k].data + l.buf == Concat(l.accepted)
  {
    hide L.Run, Concat;
    var l := L.Run(cap, threads, level, threshold, schedule);
    assert l.accepted[..|l.queue.log|] == l.accepted;
    forall k | 0 <= k < |l.outputs| && l.outputs[k].since == 0 ensures l.outputs[k].data + l.buf == Concat(l.accepted) {
      Conservation(cap, threads, level, threshold, schedule, k);
    }
  }

  /** When every poll is to flush, nothing stays behind. */
  lemma FlushedInFull(cap: nat, threads: nat, level: int, threshold: nat, schedule: seq<L.Choice>) returns (n: nat)
    requires cap > 0 && threads > POLLER && TextsFit(schedule) && AllFlush(schedule)
    requires AllIdle(L.Run(cap, threads, level, threshold, schedule).queue)
    ensures var l := L.Run(cap, threads, level, threshold, schedule);
            forall m :: m >= n ==>
              var r := L.Run(cap, threads, level, threshold, schedule + [Poll(true)] + Going(m));
              |r.outputs| == |l.outputs|
              && forall k :: 0 <= k < |r.outputs| && l.outputs[k].since == 0 ==> r.outputs[k].data == Concat(l.accepted)
  {
    EmptyBetweenPolls(cap, threads, level, threshold, schedule);
    RunConserves(cap, threads, level, threshold, schedule);
    ThreadsKept(cap, threads, level, threshold, schedule);
    hide L.Run, Concat;
    IdleLogger(L.Run(cap, threads, level, threshold, schedule));
    n := LastPollDrains(cap, threads, level, threshold, schedule);
    hide LoggerInv;
  }

  lemma ThreadsKept(cap: nat, threads: nat, level: int, threshold: nat, schedule: seq<L.Choice>)
    requires cap > 0
    ensures |L.Run(cap, threads, level, threshold, schedule).queue.pcs| == threads
  {
    QueueInside(cap, threads, level, threshold, schedule);
    CapKept<Record>(cap, threads, QueueSchedule(cap, threads, level, threshold, schedule));
  }
}
