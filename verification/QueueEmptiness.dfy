/** When a false try_pop means that there was nothing to take. */
module QueueEmptiness {
  import opened QueueMachine
  import opened QueueInvariant
  import opened QueueTheorems
  import opened QueueProgress
  import opened QueueClients

  /** Only the threads of a set call emplace, emplace_with, bulk_push or try_emplace. */
  ghost predicate OnlyPush<T>(schedule: seq<Choice<T>>, producers: set<nat>)
  {
    forall k :: 0 <= k < |schedule| && (schedule[k].call.Push? || schedule[k].call.TryPush?) ==>
      schedule[k].thread in producers
  }

  /** Nothing is published that is still to be taken. */
  ghost predicate NothingLeft<T>(s: State<T>)
    requires Shape(s)
  {
    forall t: nat {:trigger Published(s, t)} :: s.tail <= t ==> !Published(s, t)
  }

  /** The ticket at tail speaks for all those behind it. */
  ghost predicate TailTells<T>(s: State<T>)
    requires Shape(s)
  {
    !Published(s, s.tail) ==> NothingLeft(s)
  }

  // ---------------------------------------------------------------- one producer, or one slot

  ghost predicate Pushes<T>(pc: Pc<T>)
  {
    pc.PushWait? || pc.PushBuild? || pc.PushPublish?
  }

  ghost predicate TriesPush<T>(pc: Pc<T>)
  {
    pc.TryPushLoad? || pc.TryPushCheck? || pc.TryPushCas? || pc.TryPushReload?
  }

  /** No thread but p pushes, and a block that p has claimed is the last one. */
  ghost predicate Sole<T>(s: State<T>, p: nat)
  {
    forall i :: 0 <= i < |s.pcs| ==>
      if i == p then Pushes(s.pcs[i]) ==> s.pcs[i].first + |s.pcs[i].items| == s.head
      else !Pushes(s.pcs[i]) && !TriesPush(s.pcs[i])
  }

  lemma OtherStep<T>(s: State<T>, i: nat, call: Call<T>)
    requires Shape(s) && i < |s.pcs| && !Pushes(s.pcs[i]) && !TriesPush(s.pcs[i]) && !call.Push? && !call.TryPush?
    ensures var r := Step(s, i, call);
            r.head == s.head && |r.pcs| == |s.pcs| && !Pushes(r.pcs[i]) && !TriesPush(r.pcs[i])
            && forall j :: 0 <= j < |s.pcs| && j != i ==> r.pcs[j] == s.pcs[j]
  {
    hide TurnAt, Lap, Ix;
  }

  lemma ProducerStep<T>(s: State<T>, i: nat, call: Call<T>)
    requires Shape(s) && i < |s.pcs|
    requires Pushes(s.pcs[i]) ==> s.pcs[i].first + |s.pcs[i].items| == s.head
    ensures var r := Step(s, i, call);
            |r.pcs| == |s.pcs| && (Pushes(r.pcs[i]) ==> r.pcs[i].first + |r.pcs[i].items| == r.head)
            && forall j :: 0 <= j < |s.pcs| && j != i ==> r.pcs[j] == s.pcs[j]
  {
    hide TurnAt, Lap, Ix;
  }

  lemma SoleKept<T>(s: State<T>, p: nat, i: nat, call: Call<T>)
    requires Inv(s) && Sole(s, p) && i < |s.pcs| && (call.Push? || call.TryPush? ==> i == p)
    ensures Sole(Step(s, i, call), p)
  {
    assert PcOk(s, s.pcs[i]);
    hide Inv, PcOk, Step;
    if i == p {
      ProducerStep(s, i, call);
    } else {
      OtherStep(s, i, call);
    }
  }

  lemma {:induction false} RunSole<T>(cap: nat, threads: nat, schedule: seq<Choice<T>>, p: nat)
    requires cap > 0 && OnlyPush(schedule, {p})
    ensures Sole(Run(cap, threads, schedule), p)
    decreases |schedule|
  {
    if schedule != [] {
      var before := schedule[..|schedule| - 1];
      var last := schedule[|schedule| - 1];
      RunSole(cap, threads, before, p);
      RunInv(cap, threads, before);
      var s := Run(cap, threads, before);
      if last.thread < |s.pcs| {
        SoleKept(s, p, last.thread, last.call);
      }
    }
  }

  lemma SoleTells<T>(s: State<T>, p: nat)
    requires Inv(s) && Sole(s, p)
    ensures TailTells(s)
  {
    if !Published(s, s.tail) {
      forall t: nat | s.tail <= t ensures !Published(s, t) {
        Unclaimed(s, t);
        Unclaimed(s, s.tail);
        if t < s.head {
          assert SomePush(s, s.tail);
          var i :| 0 <= i < |s.pcs| && HoldsPush(s.pcs[i], s.tail);
          assert i == p && PcOk(s, s.pcs[i]);
        }
      }
    }
  }

  lemma {:induction false} LapOfOne(t: nat)
    ensures Lap(t, 1) == t && Ix(t, 1) == 0
    decreases t
  {
    if t > 0 {
      LapOfOne(t - 1);
    }
  }

  lemma OneSlotTells<T>(s: State<T>)
    requires Shape(s) && s.cap == 1
    ensures TailTells(s)
  {
    LapOfOne(s.tail);
    forall t: nat | s.tail <= t && Published(s, t) ensures Published(s, s.tail) {
      LapOfOne(t);
    }
  }

  lemma AtMostOne(producers: set<nat>) returns (p: nat)
    requires |producers| <= 1
    ensures producers <= {p}
  {
    p := 0;
    if producers != {} {
      p :| p in producers;
      assert |producers - {p}| == 0;
    }
  }

  lemma FewTell<T>(cap: nat, threads: nat, producers: set<nat>, schedule: seq<Choice<T>>)
    requires cap > 0 && (cap == 1 || |producers| <= 1) && OnlyPush(schedule, producers)
    ensures TailTells(Run(cap, threads, schedule))
  {
    RunInv(cap, threads, schedule);
    CapKept(cap, threads, schedule);
    if cap == 1 {
      OneSlotTells(Run(cap, threads, schedule));
    } else {
      var p := AtMostOne(producers);
      RunSole(cap, threads, schedule, p);
      SoleTells(Run(cap, threads, schedule), p);
    }
  }

  // ---------------------------------------------------------------- two producers and two slots

  /** Thread i has claimed ticket 0, thread j ticket 1. */
  function TwoClaimed<T>(cap: nat, threads: nat, i: nat, j: nat, v: T): State<T>
    requires i < threads && j < threads
  {
    var s := Init<T>(cap, threads);
    s.(head := 2, issued := [v, v], pcs := s.pcs[i := PushWait(0, [v], 0)][j := PushWait(1, [v], 0)])
  }

  /** Thread i holds ticket 0 and has stopped; thread j has published under ticket 1 and is idle. */
  function SecondPublished<T>(cap: nat, threads: nat, i: nat, j: nat, v: T): State<T>
    requires cap >= 2 && i < threads && j < threads
  {
    var s := TwoClaimed(cap, threads, i, j, v);
    s.(slots := s.slots[1 := Slot(1, Live(v))], pcs := s.pcs[j := Idle])
  }

  lemma ClaimTwo<T>(cap: nat, threads: nat, i: nat, j: nat, v: T) returns (schedule: seq<Choice<T>>)
    requires cap >= 2 && i < threads && j < threads && i != j
    ensures |schedule| == 2 && OnlyPush(schedule, {i, j})
    ensures Run(cap, threads, schedule) == TwoClaimed(cap, threads, i, j, v)
  {
    var s := Init<T>(cap, threads);
    var c, d := Choice.Choice(i, Push([v])), Choice.Choice(j, Push([v]));
    schedule := [c];
    ExecSnoc(s, [], c);
    assert [] + [c] == schedule;
    var r := Step(s, i, Push([v]));
    assert r == s.(head := 1, issued := [v], pcs := s.pcs[i := PushWait(0, [v], 0)]);
    ExecSnoc(s, schedule, d);
    schedule := [c, d];
    assert [c] + [d] == schedule;
    assert [v] + [v] == [v, v];
  }

  lemma SecondSteps<T>(cap: nat, threads: nat, i: nat, j: nat, v: T)
    requires cap >= 2 && i < threads && j < threads && i != j
    ensures Step(Step(Step(TwoClaimed(cap, threads, i, j, v), j, Pop), j, Pop), j, Pop)
         == SecondPublished(cap, threads, i, j, v)
  {
    var s := TwoClaimed(cap, threads, i, j, v);
    assert Lap(1, cap) == 0 && Ix(1, cap) == 1;
    var s1 := s.(pcs := s.pcs[j := PushBuild(1, [v], 0)]);
    assert Step(s, j, Pop) == s1;
    var s2 := s1.(slots := s1.slots[1 := Slot(0, Live(v))], pcs := s1.pcs[j := PushPublish(1, [v], 0)]);
    assert Step(s1, j, Pop) == s2;
  }

  lemma PublishSecond<T>(cap: nat, threads: nat, i: nat, j: nat, v: T) returns (schedule: seq<Choice<T>>)
    requires cap >= 2 && i < threads && j < threads && i != j
    ensures |schedule| == 5 && OnlyPush(schedule, {i, j})
    ensures Run(cap, threads, schedule) == SecondPublished(cap, threads, i, j, v)
  {
    schedule := ClaimTwo(cap, threads, i, j, v);
    SecondSteps(cap, threads, i, j, v);
    hide Step, SecondPublished, TwoClaimed, Exec;
    var c := Choice.Choice(j, Call<T>.Pop);
    ExecSnoc(Init(cap, threads), schedule, c);
    ExecSnoc(Init(cap, threads), schedule + [c], c);
    ExecSnoc(Init(cap, threads), schedule + [c] + [c], c);
    schedule := schedule + [c] + [c] + [c];
  }

  /** Whatever one thread has claimed and not published, another may publish behind it. */
  lemma SecondPublishedIs<T>(cap: nat, threads: nat, i: nat, j: nat, v: T)
    requires cap >= 2 && i < threads && j < threads && i != j
    ensures var s := SecondPublished(cap, threads, i, j, v);
            Shape(s) && |s.pcs| == threads && s.tail == 0 && s.pcs[j] == Idle && !Published(s, 0) && Published(s, 1)
  {
    assert Lap(1, cap) == 0 && Ix(1, cap) == 1;
  }

  /** The steps of a try_pop that sees only ticket 0. */
  lemma LookAtFirst<T>(s: State<T>, j: nat)
    requires Shape(s) && j < |s.pcs| && s.pcs[j] == Idle && s.tail == 0 && !Published(s, 0) && TurnAt(s, 0) == 0
    ensures var r := Step(Step(Step(s, j, TryPop), j, TryPop), j, TryPop);
            r == s.(pcs := s.pcs[j := TakeReload(0, Once)])
  {
    var s1 := s.(pcs := s.pcs[j := TakeLoad(Once)]);
    assert Step(s, j, TryPop) == s1;
    var s2 := s1.(pcs := s1.pcs[j := TakeCheck(0, Once)]);
    assert Step(s1, j, TryPop) == s2;
  }

  /** A try_pop may return false although something is published during all of the call: for any two producers, and with
      two slots or more. */
  lemma FalseIsNotEmpty<T>(cap: nat, threads: nat, i: nat, j: nat, v: T) returns (schedule: seq<Choice<T>>)
    requires cap >= 2 && i < threads && j < threads && i != j
    ensures |schedule| == 8 && OnlyPush(schedule, {i, j})
    ensures var s := At(cap, threads, schedule, 5); |s.pcs| == threads && s.pcs[j].Idle? && Published(s, 1)
    ensures AboutFalse(Run(cap, threads, schedule), j) && Run(cap, threads, schedule).tail == 0
    ensures !TailTells(Run(cap, threads, schedule))
  {
    var first := PublishSecond(cap, threads, i, j, v);
    SecondPublishedIs(cap, threads, i, j, v);
    var s := SecondPublished(cap, threads, i, j, v);
    LookAtFirst(s, j);
    var c := Choice.Choice(j, Call<T>.TryPop);
    hide Step, SecondPublished, Exec;
    ExecSnoc(Init(cap, threads), first, c);
    ExecSnoc(Init(cap, threads), first + [c], c);
    ExecSnoc(Init(cap, threads), first + [c] + [c], c);
    schedule := first + [c] + [c] + [c];
    assert schedule[..5] == first;
    var r := Run(cap, threads, schedule);
    assert Published(r, 1) by {
      assert TurnAt(r, 1) == TurnAt(s, 1);
    }
    assert !Published(r, 0) by {
      assert TurnAt(r, 0) == TurnAt(s, 0);
    }
  }

  // ---------------------------------------------------------------- what a false try_pop means

  /** In a try_pop that has not yet won a ticket. */
  ghost predicate InTry<T>(pc: Pc<T>)
  {
    (pc.TakeLoad? || pc.TakeCheck? || pc.TakeCas? || pc.TakeReload?) && pc.mode.Once?
  }

  /** The next step of thread w returns false from a try_pop. */
  ghost predicate AboutFalse<T>(s: State<T>, w: nat)
  {
    w < |s.pcs| && s.pcs[w] == TakeReload(s.tail, Once)
  }

  /** From its first m steps on the run is inside one and the same try_pop of thread w. */
  ghost predicate Inside<T>(cap: nat, threads: nat, schedule: seq<Choice<T>>, w: nat, m: nat)
    requires cap > 0
  {
    m <= |schedule|
    && forall k {:trigger At(cap, threads, schedule, k)} :: m <= k <= |schedule| ==>
         w < |At(cap, threads, schedule, k).pcs| && InTry(At(cap, threads, schedule, k).pcs[w])
  }

  /** At some instant inside the call there was nothing to take. */
  ghost predicate EmptyInside<T>(cap: nat, threads: nat, schedule: seq<Choice<T>>, w: nat)
    requires cap > 0
  {
    exists m :: Inside(cap, threads, schedule, w, m) && NothingLeft(At(cap, threads, schedule, m))
  }

  ghost predicate FalseMeansEmpty<T>(cap: nat, threads: nat, schedule: seq<Choice<T>>, w: nat)
    requires cap > 0
  {
    AboutFalse(Run(cap, threads, schedule), w) ==> EmptyInside(cap, threads, schedule, w)
  }

  lemma FewFalse<T>(cap: nat, threads: nat, producers: set<nat>, schedule: seq<Choice<T>>, w: nat)
    requires cap > 0 && (cap == 1 || |producers| <= 1) && OnlyPush(schedule, producers)
    ensures FalseMeansEmpty(cap, threads, schedule, w)
  {
    var s := Run(cap, threads, schedule);
    if AboutFalse(s, w) {
      hide Exec;
      var m := TakeFalse(cap, threads, schedule, w, s.tail, Once);
      FewTell(cap, threads, producers, schedule[..m]);
      assert NothingLeft(At(cap, threads, schedule, m));
      assert Inside(cap, threads, schedule, w, m);
    }
  }

  /** Along a run nothing published is taken back and tail never goes back. */
  lemma {:induction false} LaterStill<T>(cap: nat, threads: nat, schedule: seq<Choice<T>>, k: nat, l: nat, t: nat)
    requires cap > 0 && k <= l <= |schedule| && Published(At(cap, threads, schedule, k), t)
    ensures Published(At(cap, threads, schedule, l), t)
    ensures At(cap, threads, schedule, k).tail <= At(cap, threads, schedule, l).tail
    decreases l - k
  {
    hide Step, Exec, Published, Inv;
    if k < l {
      LaterStill(cap, threads, schedule, k, l - 1, t);
      var s := At(cap, threads, schedule, l - 1);
      var last := schedule[l - 1];
      RunInv(cap, threads, schedule[..l - 1]);
      ExecSnoc(Init(cap, threads), schedule[..l - 1], last);
      assert schedule[..l - 1] + [last] == schedule[..l];
      if last.thread < |s.pcs| {
        StepGrowth(s, last.thread, last.call);
      } else {
        NoThread(s, last.thread, last.call);
      }
    }
  }

  lemma NoThread<T>(s: State<T>, i: nat, call: Call<T>)
    requires Shape(s) && i >= |s.pcs|
    ensures Step(s, i, call) == s
  {
  }

  lemma NotInside<T>(cap: nat, threads: nat, schedule: seq<Choice<T>>, w: nat, m: nat, k: nat)
    requires cap > 0 && m <= k <= |schedule|
    requires w < |At(cap, threads, schedule, k).pcs| && At(cap, threads, schedule, k).pcs[w].Idle?
    ensures !Inside(cap, threads, schedule, w, m)
  {
  }

  /** The run of two producers is a false try_pop that at no instant found nothing to take. */
  lemma NeverEmpty<T>(cap: nat, threads: nat, i: nat, j: nat, v: T) returns (schedule: seq<Choice<T>>)
    requires cap >= 2 && i < threads && j < threads && i != j
    ensures OnlyPush(schedule, {i, j}) && !FalseMeansEmpty(cap, threads, schedule, j)
    ensures !TailTells(Run(cap, threads, schedule))
  {
    schedule := FalseIsNotEmpty(cap, threads, i, j, v);
    hide Exec;
    assert schedule[..|schedule|] == schedule;
    forall m: nat | m <= |schedule|
      ensures !Inside(cap, threads, schedule, j, m) || !NothingLeft(At(cap, threads, schedule, m))
    {
      if m <= 5 {
        NotInside(cap, threads, schedule, j, m, 5);
      } else {
        LaterStill(cap, threads, schedule, 5, m, 1);
        LaterStill(cap, threads, schedule, m, |schedule|, 1);
      }
    }
  }

  lemma TwoOf(producers: set<nat>) returns (i: nat, j: nat)
    requires |producers| >= 2
    ensures i in producers && j in producers && i != j
  {
    i :| i in producers;
    assert |producers - {i}| >= 1;
    j :| j in producers - {i};
  }

  lemma OnlyPushMore<T>(schedule: seq<Choice<T>>, some: set<nat>, all: set<nat>)
    requires OnlyPush(schedule, some) && some <= all
    ensures OnlyPush(schedule, all)
  {
  }

  /** In all runs in which only these threads push, an unpublished ticket at tail means that nothing is left to take, if
      and only if there is one slot, or at most one producer. */
  lemma TailTellsExactly<T>(cap: nat, threads: nat, producers: set<nat>, v: T)
    requires cap > 0 && forall p :: p in producers ==> p < threads
    ensures (forall schedule: seq<Choice<T>> :: OnlyPush(schedule, producers) ==>
             TailTells(Run(cap, threads, schedule)))
       <==> cap == 1 || |producers| <= 1
  {
    hide TailTells, Run;
    if cap == 1 || |producers| <= 1 {
      forall schedule: seq<Choice<T>> | OnlyPush(schedule, producers) ensures TailTells(Run(cap, threads, schedule)) {
        FewTell(cap, threads, producers, schedule);
      }
    } else {
      var i, j := TwoOf(producers);
      var schedule := NeverEmpty(cap, threads, i, j, v);
      OnlyPushMore(schedule, {i, j}, producers);
    }
  }

  /** And so for what a client sees: a false try_pop means that at some instant of the call there was nothing to take,
      if and only if there is one slot, or at most one producer. */
  lemma FalseMeansEmptyExactly<T>(cap: nat, threads: nat, producers: set<nat>, v: T)
    requires cap > 0 && forall p :: p in producers ==> p < threads
    ensures (forall schedule: seq<Choice<T>>, w: nat ::
               OnlyPush(schedule, producers) ==> FalseMeansEmpty(cap, threads, schedule, w))
       <==> cap == 1 || |producers| <= 1
  {
    hide FalseMeansEmpty, TailTells;
    if cap == 1 || |producers| <= 1 {
      forall schedule: seq<Choice<T>>, w: nat | OnlyPush(schedule, producers)
        ensures FalseMeansEmpty(cap, threads, schedule, w)
      {
        FewFalse(cap, threads, producers, schedule, w);
      }
    } else {
      var i, j := TwoOf(producers);
      var schedule := NeverEmpty(cap, threads, i, j, v);
      OnlyPushMore(schedule, {i, j}, producers);
      assert !FalseMeansEmpty(cap, threads, schedule, j);
    }
  }
}
