/** Progress of the queue: who can move, what false means, and which loops end. */
module QueueProgress {
  import opened QueueMachine
  import opened QueueInvariant
  import opened QueueTheorems

  // ---------------------------------------------------------------- deadlock freedom

  /** The thread holds a ticket. */
  ghost predicate Holds<T>(pc: Pc<T>)
  {
    pc.PushWait? || pc.PushBuild? || pc.PushPublish? || pc.PopWait? || pc.TakeMove? || pc.TakeDestroy?
      || pc.TakeRelease?
  }

  /** The thread spins: its slot's turn is not the one it waits for. */
  ghost predicate Spins<T>(s: State<T>, pc: Pc<T>)
    requires Shape(s)
  {
    || (pc.PushWait? && TurnAt(s, pc.first + pc.k) != 2 * Lap(pc.first + pc.k, s.cap))
    || (pc.PopWait? && TurnAt(s, pc.ticket) != 2 * Lap(pc.ticket, s.cap) + 1)
  }

  /** A thread that holds a ticket and does not spin changes the state by its next step. */
  lemma SpinningIsTheOnlyWait<T>(s: State<T>, i: nat, call: Call<T>)
    requires Inv(s) && i < |s.pcs| && Holds(s.pcs[i])
    ensures Step(s, i, call) == s <==> Spins(s, s.pcs[i])
  {
    assert PcOk(s, s.pcs[i]);
    assert s.pcs[i := s.pcs[i]] == s.pcs;
  }

  ghost predicate Stuck<T>(s: State<T>)
    requires Shape(s)
  {
    forall i :: 0 <= i < |s.pcs| && Holds(s.pcs[i]) ==> Spins(s, s.pcs[i])
  }

  /** No producer waits, or every producer waits for a slot that no consumer has claimed. */
  ghost predicate PushersStarve<T>(s: State<T>)
  {
    && (forall t: nat {:trigger SomeTake(s, t)} :: !SomeTake(s, t))
    && (forall t: nat {:trigger SomePush(s, t)} :: SomePush(s, t) ==> t >= s.tail + s.cap)
  }

  ghost predicate TakersStarve<T>(s: State<T>)
  {
    && (forall t: nat {:trigger SomePush(s, t)} :: !SomePush(s, t))
    && (forall t: nat {:trigger SomeTake(s, t)} :: SomeTake(s, t) ==> t >= s.head)
  }

  /** The threads holding tickets are all stuck exactly when only one side is waiting: producers for
      slots beyond the ring that nobody has asked to be emptied, or consumers for tickets nobody fills. */
  lemma StuckExactly<T>(s: State<T>)
    requires Inv(s)
    ensures Stuck(s) <==> PushersStarve(s) || TakersStarve(s)
  {
    if Stuck(s) {
      StuckStarves(s);
    }
    if PushersStarve(s) {
      forall i | 0 <= i < |s.pcs| && Holds(s.pcs[i]) ensures Spins(s, s.pcs[i]) {
        StarvedPusher(s, i);
      }
    }
    if TakersStarve(s) {
      forall i | 0 <= i < |s.pcs| && Holds(s.pcs[i]) ensures Spins(s, s.pcs[i]) {
        StarvedTaker(s, i);
      }
    }
  }

  lemma StarvedPusher<T>(s: State<T>, i: nat)
    requires Inv(s) && PushersStarve(s) && i < |s.pcs| && Holds(s.pcs[i])
    ensures Spins(s, s.pcs[i])
  {
    var pc := s.pcs[i];
    assert PcOk(s, pc);
    var t := if pc.PushWait? || pc.PushBuild? || pc.PushPublish? then pc.first + pc.k else pc.ticket;
    assert HoldsPush(pc, t) || HoldsTake(pc, t);
    assert SomePush(s, t) || SomeTake(s, t);
    Predecessor(s, t);
    Unclaimed(s, t - s.cap);
  }

  lemma StarvedTaker<T>(s: State<T>, i: nat)
    requires Inv(s) && TakersStarve(s) && i < |s.pcs| && Holds(s.pcs[i])
    ensures Spins(s, s.pcs[i])
  {
    var pc := s.pcs[i];
    assert PcOk(s, pc);
    var t := if pc.PushWait? || pc.PushBuild? || pc.PushPublish? then pc.first + pc.k else pc.ticket;
    assert HoldsPush(pc, t) || HoldsTake(pc, t);
    assert SomePush(s, t) || SomeTake(s, t);
    Unclaimed(s, t);
  }

  lemma StuckStarves<T>(s: State<T>)
    requires Inv(s) && Stuck(s)
    ensures PushersStarve(s) || TakersStarve(s)
  {
    if p: nat :| SomePush(s, p) {
      forall c: nat ensures !SomeTake(s, c) {
        if SomeTake(s, c) {
          NotBothStuck(s, p, c);
        }
      }
      forall t: nat | SomePush(s, t) ensures t >= s.tail + s.cap {
        var q := LeastPush(s, t);
        StuckPush(s, q);
        Unclaimed(s, q - s.cap);
        var claimed := SomeTake(s, q - s.cap);
      }
    } else {
      forall c: nat | SomeTake(s, c) ensures c >= s.head {
        StuckTake(s, c);
        var claimed := SomePush(s, c);
      }
    }
  }

  /** The least producer ticket still held, at or below a given one. */
  lemma {:induction false} LeastPush<T>(s: State<T>, p: nat) returns (q: nat)
    requires SomePush(s, p)
    ensures q <= p && SomePush(s, q)
    ensures forall t: nat {:trigger SomePush(s, t)} :: t < q ==> !SomePush(s, t)
  {
    if r: nat :| r < p && SomePush(s, r) {
      q := LeastPush(s, r);
    } else {
      q := p;
    }
  }

  lemma {:induction false} LeastTake<T>(s: State<T>, p: nat) returns (q: nat)
    requires SomeTake(s, p)
    ensures q <= p && SomeTake(s, q)
    ensures forall t: nat {:trigger SomeTake(s, t)} :: t < q ==> !SomeTake(s, t)
  {
    if r: nat :| r < p && SomeTake(s, r) {
      q := LeastTake(s, r);
    } else {
      q := p;
    }
  }

  /** A stuck holder of the least producer ticket waits for its slot's previous consumer. */
  lemma StuckPush<T>(s: State<T>, p: nat)
    requires Inv(s) && Stuck(s) && SomePush(s, p)
    requires forall t: nat {:trigger SomePush(s, t)} :: t < p ==> !SomePush(s, t)
    ensures p >= s.cap && !Released(s, p - s.cap)
  {
    var i :| 0 <= i < |s.pcs| && HoldsPush(s.pcs[i], p);
    var pc := s.pcs[i];
    assert PcOk(s, pc) && Spins(s, pc);
    assert HoldsPush(pc, pc.first + pc.k);
    assert SomePush(s, pc.first + pc.k);
    assert !Published(s, p);
    Predecessor(s, p);
  }

  /** A stuck consumer waits for its ticket to be published. */
  lemma StuckTake<T>(s: State<T>, c: nat)
    requires Inv(s) && Stuck(s) && SomeTake(s, c)
    ensures !Published(s, c) && c < s.tail
  {
    var i :| 0 <= i < |s.pcs| && HoldsTake(s.pcs[i], c);
    assert PcOk(s, s.pcs[i]) && Spins(s, s.pcs[i]);
  }

  /** With tickets outstanding on both sides, the least of them can move. */
  lemma NotBothStuck<T>(s: State<T>, p0: nat, c0: nat)
    requires Inv(s) && SomePush(s, p0) && SomeTake(s, c0)
    ensures !Stuck(s)
  {
    if Stuck(s) {
      var p := LeastPush(s, p0);
      var c := LeastTake(s, c0);
      StuckPush(s, p);
      var before := SomeTake(s, p - s.cap);
      StuckTake(s, c);
      Unclaimed(s, p);
      var filled := SomePush(s, c);
    }
  }

  /** Deadlock freedom: while a producer ticket and a consumer ticket are both outstanding, some thread
      that holds a ticket can take a step that changes the state. */
  lemma DeadlockFree<T>(cap: nat, threads: nat, schedule: seq<Choice<T>>, p: nat, c: nat, call: Call<T>)
    requires cap > 0
    requires SomePush(Run(cap, threads, schedule), p) && SomeTake(Run(cap, threads, schedule), c)
    ensures var s := Run(cap, threads, schedule);
            exists i :: 0 <= i < |s.pcs| && Holds(s.pcs[i]) && Step(s, i, call) != s
  {
    var s := Run(cap, threads, schedule);
    RunInv(cap, threads, schedule);
    NotBothStuck(s, p, c);
    var i :| 0 <= i < |s.pcs| && Holds(s.pcs[i]) && !Spins(s, s.pcs[i]);
    SpinningIsTheOnlyWait(s, i, call);
  }

  // ---------------------------------------------------------------- what a false result means

  /** The state of a run after its first k steps. */
  function At<T>(cap: nat, threads: nat, schedule: seq<Choice<T>>, k: nat): State<T>
    requires cap > 0 && k <= |schedule|
  {
    Run(cap, threads, schedule[..k])
  }

  /** One step back from a failing try_emplace: its own failed turn check, or somebody else's step. */
  lemma TryPushBack<T>(was: State<T>, j: nat, call: Call<T>, i: nat, v: T, c: nat)
    requires Inv(was) && j < |was.pcs| && i < |was.pcs|
    requires var s := Step(was, j, call); s.pcs[i] == TryPushReload(v, c) && s.head == c
    ensures was.head == c
    ensures if i == j then was.pcs[i] == TryPushCheck(v, c) && c >= was.cap && !Released(was, c - was.cap)
            else was.pcs[i] == TryPushReload(v, c)
  {
    assert PcOk(was, was.pcs[i]);
    StepGrowth(was, j, call);
    StepHolds(was, j, call);
    if i == j {
      Unclaimed(was, c);
      Predecessor(was, c);
    }
  }

  /** Whenever try_emplace is about to return false with its cursor at c, there was an instant inside
      the same call at which head was c and the ticket a lap before c had not been released. */
  lemma {:induction false} TryPushFalse<T>(cap: nat, threads: nat, schedule: seq<Choice<T>>, i: nat, v: T, c: nat)
    returns (m: nat)
    requires cap > 0
    requires var s := Run(cap, threads, schedule); i < |s.pcs| && s.pcs[i] == TryPushReload(v, c) && s.head == c
    ensures m < |schedule|
    ensures var was := At(cap, threads, schedule, m);
            && i < |was.pcs| && was.pcs[i] == TryPushCheck(v, c)
            && was.head == c && c >= cap && was.cap == cap && !Released(was, c - cap)
    ensures forall k :: m < k <= |schedule| ==>
              i < |At(cap, threads, schedule, k).pcs| && At(cap, threads, schedule, k).pcs[i] == TryPushReload(v, c)
    decreases |schedule|
  {
    var before := schedule[..|schedule| - 1];
    var last := schedule[|schedule| - 1];
    RunInv(cap, threads, before);
    CapKept(cap, threads, before);
    CapKept(cap, threads, schedule);
    assert schedule[..|schedule|] == schedule;
    assert Run(cap, threads, schedule) == Step(Run(cap, threads, before), last.thread, last.call);
    assert last.thread >= threads ==> Run(cap, threads, schedule) == Run(cap, threads, before);
    hide Step, Exec, Inv;
    if last.thread < threads {
      TryPushBack(Run(cap, threads, before), last.thread, last.call, i, v, c);
    }
    if last.thread == i {
      m := |before|;
    } else {
      m := TryPushFalse(cap, threads, before, i, v, c);
      EarlierStates(cap, threads, schedule);
    }
  }

  lemma EarlierStates<T>(cap: nat, threads: nat, schedule: seq<Choice<T>>)
    requires cap > 0 && schedule != []
    ensures forall k {:trigger At(cap, threads, schedule, k)} :: 0 <= k < |schedule| ==>
              At(cap, threads, schedule, k) == At(cap, threads, schedule[..|schedule| - 1], k)
  {
    forall k | 0 <= k < |schedule|
      ensures At(cap, threads, schedule, k) == At(cap, threads, schedule[..|schedule| - 1], k)
    {
      assert schedule[..|schedule| - 1][..k] == schedule[..k];
    }
  }

  /** One step back from a consumer about to give up: its own failed turn check, or somebody else's step. */
  lemma TakeBack<T>(was: State<T>, j: nat, call: Call<T>, i: nat, c: nat, mode: Mode)
    requires Inv(was) && j < |was.pcs| && i < |was.pcs|
    requires var s := Step(was, j, call); s.pcs[i] == TakeReload(c, mode) && s.tail == c
    ensures was.tail == c
    ensures if i == j then was.pcs[i] == TakeCheck(c, mode) && !Published(was, c) else was.pcs[i] == TakeReload(c, mode)
  {
    assert PcOk(was, was.pcs[i]);
    StepGrowth(was, j, call);
    StepHolds(was, j, call);
    if i == j {
      Unclaimed(was, c);
    }
  }

  /** Whenever try_pop is about to return false, or bulk_pop or try_consume_all to stop, with its cursor
      at c, there was an instant inside the same call at which tail was c and ticket c was unpublished. */
  lemma {:induction false} TakeFalse<T>(cap: nat, threads: nat, schedule: seq<Choice<T>>, i: nat, c: nat, mode: Mode)
    returns (m: nat)
    requires cap > 0
    requires var s := Run(cap, threads, schedule); i < |s.pcs| && s.pcs[i] == TakeReload(c, mode) && s.tail == c
    ensures m < |schedule|
    ensures var was := At(cap, threads, schedule, m);
            && i < |was.pcs| && was.pcs[i] == TakeCheck(c, mode)
            && was.tail == c && !Published(was, c)
    ensures forall k :: m < k <= |schedule| ==>
              i < |At(cap, threads, schedule, k).pcs| && At(cap, threads, schedule, k).pcs[i] == TakeReload(c, mode)
    decreases |schedule|
  {
    var before := schedule[..|schedule| - 1];
    var last := schedule[|schedule| - 1];
    RunInv(cap, threads, before);
    CapKept(cap, threads, before);
    CapKept(cap, threads, schedule);
    assert schedule[..|schedule|] == schedule;
    assert Run(cap, threads, schedule) == Step(Run(cap, threads, before), last.thread, last.call);
    assert last.thread >= threads ==> Run(cap, threads, schedule) == Run(cap, threads, before);
    hide Step, Exec, Inv;
    if last.thread < threads {
      TakeBack(Run(cap, threads, before), last.thread, last.call, i, c, mode);
    }
    if last.thread == i {
      m := |before|;
    } else {
      m := TakeFalse(cap, threads, before, i, c, mode);
      EarlierStates(cap, threads, schedule);
    }
  }
}
