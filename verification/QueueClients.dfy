/** Stale cursors, and what queues with restricted kinds of clients may rely on. */
module QueueClients {
  import opened QueueMachine
  import opened QueueInvariant
  import opened QueueTheorems

  lemma ExecSnoc<T>(s: State<T>, schedule: seq<Choice<T>>, last: Choice<T>)
    requires Shape(s)
    ensures Exec(s, schedule + [last]) == Step(Exec(s, schedule), last.thread, last.call)
  {
  }

  // ---------------------------------------------------------------- the stale cursor of try_pop and try_emplace

  /** try_pop has failed its turn check at cursor c and goes round with the same cursor. */
  ghost predicate PopLoop<T>(pc: Pc<T>, c: nat)
  {
    pc == TakeCheck(c, Once) || pc == TakeReload(c, Once)
  }

  ghost predicate PushLoop<T>(pc: Pc<T>, v: T, c: nat)
  {
    pc == TryPushCheck(v, c) || pc == TryPushReload(v, c)
  }

  /** Once the slot's turn has moved past the stale cursor of a try_pop, the call never returns: it is
      still in its loop after any continuation of the run by all the threads. */
  lemma {:induction false} StalePopNeverReturns<T>(s: State<T>, i: nat, c: nat, schedule: seq<Choice<T>>)
    requires Inv(s) && i < |s.pcs| && PopLoop(s.pcs[i], c) && c < s.tail && Released(s, c)
    ensures var r := Exec(s, schedule); i < |r.pcs| && PopLoop(r.pcs[i], c)
  {
    ExecGrows(s, schedule);
    if schedule != [] {
      var before := schedule[..|schedule| - 1];
      var last := schedule[|schedule| - 1];
      StalePopNeverReturns(s, i, c, before);
      ExecGrows(s, before);
      ExecInv(s, before);
      var m := Exec(s, before);
      assert Released(m, c);
      if last.thread < |m.pcs| {
        StepHolds(m, last.thread, last.call);
      }
    }
  }

  lemma {:induction false} StalePushNeverReturns<T>(s: State<T>, i: nat, v: T, c: nat, schedule: seq<Choice<T>>)
    requires Inv(s) && i < |s.pcs| && PushLoop(s.pcs[i], v, c) && c < s.head && Published(s, c)
    ensures var r := Exec(s, schedule); i < |r.pcs| && PushLoop(r.pcs[i], v, c)
  {
    ExecGrows(s, schedule);
    if schedule != [] {
      var before := schedule[..|schedule| - 1];
      var last := schedule[|schedule| - 1];
      StalePushNeverReturns(s, i, v, c, before);
      ExecGrows(s, before);
      ExecInv(s, before);
      var m := Exec(s, before);
      assert Published(m, c);
      if last.thread < |m.pcs| {
        StepHolds(m, last.thread, last.call);
      }
    }
  }

  /** n steps of thread i alone. */
  function Solo<T>(s: State<T>, i: nat, n: nat): (r: State<T>)
    requires Shape(s)
    ensures Shape(r)
    decreases n
  {
    if n == 0 then s else Solo(Step(s, i, Pop), i, n - 1)
  }

  ghost predicate ReturnsAlone<T>(s: State<T>, i: nat)
    requires Shape(s)
  {
    exists n: nat :: i < |Solo(s, i, n).pcs| && Solo(s, i, n).pcs[i].Idle?
  }

  /** A try_pop about to check its cursor, left alone, returns iff its cursor is still tail or its slot
      holds the cursor's value at this moment (it then loses the exchange and starts afresh). */
  lemma TryPopAloneReturns<T>(s: State<T>, i: nat, c: nat)
    requires Inv(s) && i < |s.pcs| && s.pcs[i] == TakeCheck(c, Once)
    ensures ReturnsAlone(s, i) <==> (s.tail == c || (Published(s, c) && !Released(s, c)))
  {
    assert PcOk(s, s.pcs[i]);
    if s.tail == c {
      var n := FreshPop(s, i);
    } else if Published(s, c) && !Released(s, c) {
      LostExchange(s, i, c);
    } else {
      forall n: nat ensures i < |Solo(s, i, n).pcs| && PopLoop(Solo(s, i, n).pcs[i], c) {
        LonelyLoop(s, i, c, n);
      }
    }
  }

  /** With a fresh cursor a try_pop left alone returns. */
  lemma FreshPop<T>(s: State<T>, i: nat) returns (n: nat)
    requires Inv(s) && i < |s.pcs| && s.pcs[i] == TakeCheck(s.tail, Once)
    ensures i < |Solo(s, i, n).pcs| && Solo(s, i, n).pcs[i].Idle?
  {
    var t := s.tail;
    var s1 := Step(s, i, Pop);
    var s2 := Step(s1, i, Pop);
    StepInv(s, i, Pop);
    StepInv(s1, i, Pop);
    if s1.pcs[i].TakeCas? {
      assert PcOk(s2, s2.pcs[i]);
      var s3 := Step(s2, i, Pop);
      var s4 := Step(s3, i, Pop);
      var s5 := Step(s4, i, Pop);
      assert s5.pcs[i].Idle?;
      assert Solo(s, i, 5) == Solo(s1, i, 4) == Solo(s2, i, 3) == Solo(s3, i, 2) == Solo(s4, i, 1) == Solo(s5, i, 0);
      n := 5;
    } else {
      assert Solo(s, i, 2) == Solo(s1, i, 1) == Solo(s2, i, 0);
      n := 2;
    }
  }

  /** With a stale cursor whose slot is filled it loses the exchange and goes on with a fresh one. */
  lemma LostExchange<T>(s: State<T>, i: nat, c: nat)
    requires Inv(s) && i < |s.pcs| && s.pcs[i] == TakeCheck(c, Once) && s.tail != c
    requires Published(s, c) && !Released(s, c)
    ensures ReturnsAlone(s, i)
  {
    var s1 := Step(s, i, Pop);
    var s2 := Step(s1, i, Pop);
    StepInv(s, i, Pop);
    StepInv(s1, i, Pop);
    assert s1.pcs[i] == TakeCas(c, Once);
    var n := FreshPop(s2, i);
    assert Solo(s, i, n + 2) == Solo(s1, i, n + 1) == Solo(s2, i, n);
  }

  lemma {:induction false} LonelyLoop<T>(s: State<T>, i: nat, c: nat, n: nat)
    requires Shape(s) && i < |s.pcs| && PopLoop(s.pcs[i], c) && s.tail != c && TurnAt(s, c) != 2 * Lap(c, s.cap) + 1
    ensures i < |Solo(s, i, n).pcs| && PopLoop(Solo(s, i, n).pcs[i], c)
    decreases n
  {
    if n > 0 {
      LonelyLoop(Step(s, i, Pop), i, c, n - 1);
    }
  }

  /** A try_emplace about to check its cursor, left alone, returns iff its cursor is still head or its slot is
      free for the cursor's lap at this moment (it then loses the exchange and starts afresh). */
  lemma TryPushAloneReturns<T>(s: State<T>, i: nat, v: T, c: nat)
    requires Shape(s) && i < |s.pcs| && s.pcs[i] == TryPushCheck(v, c)
    ensures ReturnsAlone(s, i) <==> (s.head == c || TurnAt(s, c) == 2 * Lap(c, s.cap))
  {
    if s.head == c {
      var n := FreshPush(s, i, v);
    } else if TurnAt(s, c) == 2 * Lap(c, s.cap) {
      var s1 := Step(s, i, Pop);
      var s2 := Step(s1, i, Pop);
      assert s1.pcs[i] == TryPushCas(v, c);
      var n := FreshPush(s2, i, v);
      assert Solo(s, i, n + 2) == Solo(s1, i, n + 1) == Solo(s2, i, n);
    } else {
      forall n: nat ensures i < |Solo(s, i, n).pcs| && PushLoop(Solo(s, i, n).pcs[i], v, c) {
        LonelyPush(s, i, v, c, n);
      }
    }
  }

  /** With a fresh cursor a try_emplace left alone returns. */
  lemma FreshPush<T>(s: State<T>, i: nat, v: T) returns (n: nat)
    requires Shape(s) && i < |s.pcs| && s.pcs[i] == TryPushCheck(v, s.head)
    ensures i < |Solo(s, i, n).pcs| && Solo(s, i, n).pcs[i].Idle?
  {
    var s1 := Step(s, i, Pop);
    var s2 := Step(s1, i, Pop);
    if s1.pcs[i].TryPushCas? {
      assert s2.pcs[i] == PushBuild(s.head, [v], 0);
      var s3 := Step(s2, i, Pop);
      var s4 := Step(s3, i, Pop);
      assert s4.pcs[i].Idle?;
      assert Solo(s, i, 4) == Solo(s1, i, 3) == Solo(s2, i, 2) == Solo(s3, i, 1) == Solo(s4, i, 0);
      n := 4;
    } else {
      assert Solo(s, i, 2) == Solo(s1, i, 1) == Solo(s2, i, 0);
      n := 2;
    }
  }

  lemma {:induction false} LonelyPush<T>(s: State<T>, i: nat, v: T, c: nat, n: nat)
    requires Shape(s) && i < |s.pcs| && PushLoop(s.pcs[i], v, c) && s.head != c && TurnAt(s, c) != 2 * Lap(c, s.cap)
    ensures i < |Solo(s, i, n).pcs| && PushLoop(Solo(s, i, n).pcs[i], v, c)
    decreases n
  {
    if n > 0 {
      LonelyPush(Step(s, i, Pop), i, v, c, n - 1);
    }
  }

  /** Such a state is reached: a try_pop reads tail, another thread pushes and pops in the meantime. */
  lemma StalePopReached<T>(v: T) returns (schedule: seq<Choice<T>>)
    ensures var s := Run(1, 2, schedule);
        Inv(s) && |s.pcs| == 2 && PopLoop(s.pcs[0], 0) && s.tail == 1 && Released(s, 0)
  {
    schedule := Extend(1, 2, [], 0, TryPop);
    schedule := Extend(1, 2, schedule, 0, TryPop);
    assert Run(1, 2, schedule) == State(1, 0, 0, [Slot(0, Dead)], [TakeCheck(0, Once), Idle], [], []);
    schedule := Claimed(schedule, v, TakeCheck(0, Once));
    schedule := Pushed(schedule, v, TakeCheck(0, Once));
    schedule := Popping(schedule, v);
    schedule := Moved(schedule, v);
    schedule := Popped(schedule, v);
    RunInv(1, 2, schedule);
  }

  /** A try_emplace reads head, another thread pushes in the meantime. */
  lemma StalePushReached<T>(u: T, v: T) returns (schedule: seq<Choice<T>>)
    ensures var s := Run(1, 2, schedule);
        Inv(s) && |s.pcs| == 2 && PushLoop(s.pcs[0], u, 0) && s.head == 1 && Published(s, 0)
  {
    schedule := Extend(1, 2, [], 0, TryPush(u));
    schedule := Extend(1, 2, schedule, 0, TryPush(u));
    assert Run(1, 2, schedule) == State(1, 0, 0, [Slot(0, Dead)], [TryPushCheck(u, 0), Idle], [], []);
    schedule := Claimed(schedule, v, TryPushCheck(u, 0));
    schedule := Pushed(schedule, v, TryPushCheck(u, 0));
    RunInv(1, 2, schedule);
  }

  lemma Claimed<T>(before: seq<Choice<T>>, v: T, other: Pc<T>) returns (schedule: seq<Choice<T>>)
    requires Run(1, 2, before) == State(1, 0, 0, [Slot(0, Dead)], [other, Idle], [], [])
    ensures Run(1, 2, schedule) == State(1, 1, 0, [Slot(0, Dead)], [other, PushBuild(0, [v], 0)], [v], [])
  {
    hide Exec, Init;
    schedule := Extend(1, 2, before, 1, Push([v]));
    assert Run(1, 2, schedule) == State(1, 1, 0, [Slot(0, Dead)], [other, PushWait(0, [v], 0)], [v], []);
    schedule := Extend(1, 2, schedule, 1, Pop);
  }

  lemma Pushed<T>(before: seq<Choice<T>>, v: T, other: Pc<T>) returns (schedule: seq<Choice<T>>)
    requires Run(1, 2, before) == State(1, 1, 0, [Slot(0, Dead)], [other, PushBuild(0, [v], 0)], [v], [])
    ensures Run(1, 2, schedule) == State(1, 1, 0, [Slot(1, Live(v))], [other, Idle], [v], [])
  {
    hide Exec, Init;
    schedule := Extend(1, 2, before, 1, Pop);
    assert Run(1, 2, schedule) == State(1, 1, 0, [Slot(0, Live(v))], [other, PushPublish(0, [v], 0)], [v], []);
    schedule := Extend(1, 2, schedule, 1, Pop);
  }

  lemma Popping<T>(before: seq<Choice<T>>, v: T) returns (schedule: seq<Choice<T>>)
    requires Run(1, 2, before) == State(1, 1, 0, [Slot(1, Live(v))], [TakeCheck(0, Once), Idle], [v], [])
    ensures Run(1, 2, schedule)
        == State(1, 1, 1, [Slot(1, Live(v))], [TakeCheck(0, Once), TakeMove(0, Blocking)], [v], [])
  {
    hide Exec, Init;
    schedule := Extend(1, 2, before, 1, Pop);
    assert Run(1, 2, schedule) == State(1, 1, 1, [Slot(1, Live(v))], [TakeCheck(0, Once), PopWait(0)], [v], []);
    schedule := Extend(1, 2, schedule, 1, Pop);
  }

  lemma Moved<T>(before: seq<Choice<T>>, v: T) returns (schedule: seq<Choice<T>>)
    requires Run(1, 2, before)
        == State(1, 1, 1, [Slot(1, Live(v))], [TakeCheck(0, Once), TakeMove(0, Blocking)], [v], [])
    ensures Run(1, 2, schedule)
        == State(1, 1, 1, [Slot(1, Dead)], [TakeCheck(0, Once), TakeRelease(0, Blocking)], [v], [Delivery(0, v, 1)])
  {
    hide Exec, Init;
    schedule := Extend(1, 2, before, 1, Pop);
    assert Run(1, 2, schedule)
      == State(1, 1, 1, [Slot(1, Live(v))], [TakeCheck(0, Once), TakeDestroy(0, Blocking)], [v], [Delivery(0, v, 1)]);
    schedule := Extend(1, 2, schedule, 1, Pop);
  }

  lemma Popped<T>(before: seq<Choice<T>>, v: T) returns (schedule: seq<Choice<T>>)
    requires Run(1, 2, before)
        == State(1, 1, 1, [Slot(1, Dead)], [TakeCheck(0, Once), TakeRelease(0, Blocking)], [v], [Delivery(0, v, 1)])
    ensures Run(1, 2, schedule) == State(1, 1, 1, [Slot(2, Dead)], [TakeCheck(0, Once), Idle], [v], [Delivery(0, v, 1)])
  {
    hide Exec, Init;
    schedule := Extend(1, 2, before, 1, Pop);
  }

  lemma Extend<T>(cap: nat, threads: nat, schedule: seq<Choice<T>>, i: nat, call: Call<T>)
    returns (longer: seq<Choice<T>>)
    requires cap > 0
    ensures Run(cap, threads, longer) == Step(Run(cap, threads, schedule), i, call)
  {
    longer := schedule + [Choice(i, call)];
    ExecSnoc(Init(cap, threads), schedule, Choice(i, call));
  }

  // ---------------------------------------------------------------- occupancy

  ghost predicate NoBlockingPop<T>(schedule: seq<Choice<T>>)
  {
    forall k :: 0 <= k < |schedule| ==> !schedule[k].call.Pop?
  }

  ghost predicate NoBlockingPush<T>(schedule: seq<Choice<T>>)
  {
    forall k :: 0 <= k < |schedule| ==> !schedule[k].call.Push?
  }

  /** With only try-style consumers tail never overtakes head. */
  lemma {:induction false} TailBehindHead<T>(cap: nat, threads: nat, schedule: seq<Choice<T>>)
    requires cap > 0 && NoBlockingPop(schedule)
    ensures Run(cap, threads, schedule).tail <= Run(cap, threads, schedule).head
  {
    if schedule != [] {
      var before := schedule[..|schedule| - 1];
      var last := schedule[|schedule| - 1];
      var s := Run(cap, threads, before);
      TailBehindHead(cap, threads, before);
      RunInv(cap, threads, before);
      if last.thread < |s.pcs| {
        assert PcOk(s, s.pcs[last.thread]);
        Unclaimed(s, s.tail);
        StepGrowth(s, last.thread, last.call);
      }
    }
  }

  /** With only try_emplace on the other side, no more than the capacity is ever claimed ahead of tail. */
  lemma {:induction false} WithinCapacity<T>(cap: nat, threads: nat, schedule: seq<Choice<T>>)
    requires cap > 0 && NoBlockingPush(schedule)
    ensures Run(cap, threads, schedule).head <= Run(cap, threads, schedule).tail + cap
  {
    if schedule != [] {
      var before := schedule[..|schedule| - 1];
      var last := schedule[|schedule| - 1];
      var s := Run(cap, threads, before);
      WithinCapacity(cap, threads, before);
      RunInv(cap, threads, before);
      CapKept(cap, threads, before);
      if last.thread < |s.pcs| {
        assert PcOk(s, s.pcs[last.thread]);
        StepGrowth(s, last.thread, last.call);
        if s.pcs[last.thread].TryPushCas? && s.pcs[last.thread].cursor == s.head {
          Predecessor(s, s.head);
          if s.head >= cap {
            Unclaimed(s, s.head - cap);
          }
        }
      }
    }
  }

  // ---------------------------------------------------------------- a single consumer

  ghost predicate OnlyConsumer<T>(schedule: seq<Choice<T>>, p: nat)
  {
    forall k :: 0 <= k < |schedule| && schedule[k].thread != p ==> schedule[k].call.Push? || schedule[k].call.TryPush?
  }

  ghost predicate Produces<T>(pc: Pc<T>)
  {
    || pc.Idle? || pc.PushWait? || pc.PushBuild? || pc.PushPublish?
    || pc.TryPushLoad? || pc.TryPushCheck? || pc.TryPushCas? || pc.TryPushReload?
  }

  /** The thread has claimed a ticket and not yet moved its value out. */
  ghost predicate Owes<T>(pc: Pc<T>)
  {
    pc.PopWait? || pc.TakeMove?
  }

  /** The log is the issued values in order, up to the ticket thread p may still owe. */
  ghost predicate InOrder<T>(s: State<T>, p: nat)
  {
    && (forall i :: 0 <= i < |s.pcs| && i != p ==> Produces(s.pcs[i]))
    && (p < |s.pcs| && Owes(s.pcs[p]) ==> s.pcs[p].ticket == s.tail - 1)
    && |s.log| == (if p < |s.pcs| && Owes(s.pcs[p]) then s.tail - 1 else s.tail)
    && LoggedInOrder(s, p)
  }

  ghost predicate LoggedInOrder<T>(s: State<T>, p: nat)
  {
    |s.log| <= |s.issued| && forall k :: 0 <= k < |s.log| ==> s.log[k] == Delivery(k, s.issued[k], p)
  }

  lemma SameLogPrefix<T>(s: State<T>, r: State<T>, p: nat)
    requires LoggedInOrder(s, p) && s.issued <= r.issued
    requires r.log == s.log
        || (exists d :: r.log == s.log + [d] && |s.log| < |r.issued| && d == Delivery(|s.log|, r.issued[|s.log|], p))
    ensures LoggedInOrder(r, p)
  {
  }

  lemma ProducerKeepsOrder<T>(s: State<T>, p: nat, i: nat, call: Call<T>)
    requires Inv(s) && InOrder(s, p) && i < |s.pcs| && i != p && (call.Push? || call.TryPush?)
    ensures InOrder(Step(s, i, call), p)
  {
    assert PcOk(s, s.pcs[i]) && Produces(s.pcs[i]);
    StepGrowth(s, i, call);
    StepHolds(s, i, call);
    ProducerStep(s, i, call);
    hide Step, Inv, PcOk;
    SameLogPrefix(s, Step(s, i, call), p);
  }

  lemma ProducerStep<T>(s: State<T>, i: nat, call: Call<T>)
    requires Shape(s) && i < |s.pcs| && Produces(s.pcs[i]) && (call.Push? || call.TryPush?)
    ensures var r := Step(s, i, call); r.log == s.log && r.tail == s.tail && Produces(r.pcs[i])
  {
  }

  lemma ConsumerKeepsOrder<T>(s: State<T>, p: nat, call: Call<T>)
    requires Inv(s) && InOrder(s, p) && p < |s.pcs|
    ensures InOrder(Step(s, p, call), p)
  {
    assert PcOk(s, s.pcs[p]);
    StepGrowth(s, p, call);
    StepHolds(s, p, call);
    StepLogs(s, p, call);
    ConsumerStep(s, p, call);
    hide Step, Inv, PcOk;
    SameLogPrefix(s, Step(s, p, call), p);
  }

  lemma ConsumerStep<T>(s: State<T>, p: nat, call: Call<T>)
    requires Shape(s) && p < |s.pcs| && PcOk(s, s.pcs[p])
    ensures var r := Step(s, p, call);
            if Owes(r.pcs[p])
            then if Owes(s.pcs[p]) then s.pcs[p].PopWait? && r.tail == s.tail && r.pcs[p].ticket == s.pcs[p].ticket
                 else r.tail == s.tail + 1 && r.pcs[p].ticket == s.tail
            else r.tail == s.tail && !s.pcs[p].PopWait?
  {
  }

  /** When one thread does all the consuming, it sees the values in the order in which they were issued. */
  lemma {:induction false} SingleConsumerOrder<T>(cap: nat, threads: nat, schedule: seq<Choice<T>>, p: nat)
    requires cap > 0 && OnlyConsumer(schedule, p)
    ensures InOrder(Run(cap, threads, schedule), p)
  {
    if schedule != [] {
      var before := schedule[..|schedule| - 1];
      var last := schedule[|schedule| - 1];
      var s := Run(cap, threads, before);
      SingleConsumerOrder(cap, threads, before, p);
      RunInv(cap, threads, before);
      if last.thread < |s.pcs| && last.thread == p {
        ConsumerKeepsOrder(s, p, last.call);
      } else if last.thread < |s.pcs| {
        ProducerKeepsOrder(s, p, last.thread, last.call);
      }
    }
  }
}
