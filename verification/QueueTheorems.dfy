/** What the queue guarantees over whole runs: order, exclusive storage, progress, meaning of false. */
module QueueTheorems {
  import opened QueueMachine
  import opened QueueInvariant

  function Run<T>(cap: nat, threads: nat, schedule: seq<Choice<T>>): (r: State<T>)
    requires cap > 0
    ensures Shape(r)
  {
    Exec(Init(cap, threads), schedule)
  }

  lemma RunInv<T>(cap: nat, threads: nat, schedule: seq<Choice<T>>)
    requires cap > 0
    ensures Inv(Run(cap, threads, schedule))
  {
    InitInv<T>(cap, threads);
    ExecInv(Init(cap, threads), schedule);
  }

  // ---------------------------------------------------------------- order

  /** Tickets are handed out once: what was issued under a ticket stays issued, counters never go back. */
  lemma {:induction false} ExecGrows<T>(s: State<T>, schedule: seq<Choice<T>>)
    requires Inv(s)
    ensures var r := Exec(s, schedule);
            && r.cap == s.cap && |r.pcs| == |s.pcs|
            && s.issued <= r.issued && s.log <= r.log && s.head <= r.head && s.tail <= r.tail
            && (forall t: nat {:trigger Published(r, t)} :: Published(s, t) ==> Published(r, t))
            && (forall t: nat {:trigger Released(r, t)} :: Released(s, t) ==> Released(r, t))
  {
    if schedule != [] {
      var before := schedule[..|schedule| - 1];
      var last := schedule[|schedule| - 1];
      var m := Exec(s, before);
      ExecGrows(s, before);
      ExecInv(s, before);
      if last.thread < |m.pcs| {
        StepGrowth(m, last.thread, last.call);
      }
    }
  }

  lemma StepGrowth<T>(s: State<T>, i: nat, call: Call<T>)
    requires Inv(s) && i < |s.pcs|
    ensures var r := Step(s, i, call);
            && r.cap == s.cap && |r.pcs| == |s.pcs|
            && s.issued <= r.issued && s.log <= r.log && s.head <= r.head && s.tail <= r.tail
            && (forall t: nat {:trigger Published(r, t)} :: Published(s, t) ==> Published(r, t))
            && (forall t: nat {:trigger Released(r, t)} :: Released(s, t) ==> Released(r, t))
  {
    assert PcOk(s, s.pcs[i]);
    StepMarks(s, i, call);
    StepLogs(s, i, call);
    StepHolds(s, i, call);
    if Writes(s.pcs[i]) {
      var t, slot := StepWrites(s, i, call);
    } else {
      StepGrows(s, i, call);
    }
  }

  /** bulk_push takes consecutive tickets for its elements in iterator order, however many they are. */
  lemma BulkTickets<T>(cap: nat, threads: nat, before: seq<Choice<T>>, i: nat, items: seq<T>, after: seq<Choice<T>>)
    requires cap > 0
    requires i < |Run(cap, threads, before).pcs| && Run(cap, threads, before).pcs[i].Idle?
    ensures var s := Run(cap, threads, before);
            var r := Exec(Step(s, i, Push(items)), after);
            && s.head + |items| <= |r.issued|
            && r.issued[s.head..s.head + |items|] == items
  {
    var s := Run(cap, threads, before);
    RunInv(cap, threads, before);
    StepInv(s, i, Push(items));
    ExecGrows(Step(s, i, Push(items)), after);
  }

  /** Whoever consumes ticket t gets the value issued under t, and no ticket is consumed twice. */
  lemma FifoByTicket<T>(cap: nat, threads: nat, schedule: seq<Choice<T>>)
    requires cap > 0
    ensures var s := Run(cap, threads, schedule);
            && (forall k :: 0 <= k < |s.log| ==>
                  s.log[k].ticket < |s.issued| && s.log[k].value == s.issued[s.log[k].ticket])
            && (forall k, l :: 0 <= k < l < |s.log| ==> s.log[k].ticket != s.log[l].ticket)
  {
    RunInv(cap, threads, schedule);
  }

  /** Nothing is lost: once no call is in progress, exactly the tickets below tail have been consumed. */
  lemma NothingLost<T>(cap: nat, threads: nat, schedule: seq<Choice<T>>, t: nat)
    requires cap > 0
    requires AllIdle(Run(cap, threads, schedule))
    ensures var s := Run(cap, threads, schedule); Logged(s, t) <==> t < s.tail
  {
    var s := Run(cap, threads, schedule);
    RunInv(cap, threads, schedule);
    Unclaimed(s, t);
    assert !SomeTake(s, t);
  }

  // ---------------------------------------------------------------- slot storage

  /** The threads at work on storage are at work on different slots, each on storage in the state its
      operation needs: construction on dead storage, move and destruction on a live object. */
  lemma StorageDiscipline<T>(cap: nat, threads: nat, schedule: seq<Choice<T>>, i: nat, t: nat)
    requires cap > 0
    requires i < |Run(cap, threads, schedule).pcs| && Accesses(Run(cap, threads, schedule).pcs[i], t)
    ensures var s := Run(cap, threads, schedule);
            && (forall j: nat, u: nat {:trigger Accesses(s.pcs[j], u)} ::
                  j < |s.pcs| && j != i && Accesses(s.pcs[j], u) ==> Ix(u, cap) != Ix(t, cap))
            && (s.pcs[i].PushBuild? ==> SlotOf(s, t).cell == Dead)
            && (s.pcs[i].TakeMove? || s.pcs[i].TakeDestroy? ==>
                t < |s.issued| && SlotOf(s, t).cell == Live(s.issued[t]))
  {
    var s := Run(cap, threads, schedule);
    RunInv(cap, threads, schedule);
    CapKept(cap, threads, schedule);
    assert PcOk(s, s.pcs[i]);
    forall j: nat, u: nat | j < |s.pcs| && j != i && Accesses(s.pcs[j], u) ensures Ix(u, cap) != Ix(t, cap) {
      ExclusiveAccess(s, i, j, t, u);
    }
  }

  lemma CapKept<T>(cap: nat, threads: nat, schedule: seq<Choice<T>>)
    requires cap > 0
    ensures Run(cap, threads, schedule).cap == cap && |Run(cap, threads, schedule).pcs| == threads
  {
    InitInv<T>(cap, threads);
    ExecGrows(Init(cap, threads), schedule);
  }

  lemma {:induction false} TicketOfSlot(x: nat, lap: nat, c: nat)
    requires x < c
    ensures Ix(Ticket(x, lap, c), c) == x && Lap(Ticket(x, lap, c), c) == lap
  {
    if lap > 0 {
      TicketOfSlot(x, lap - 1, c);
    }
  }

  ghost predicate AllIdle<T>(s: State<T>)
  {
    forall i :: 0 <= i < |s.pcs| ==> s.pcs[i].Idle?
  }

  /** With no call in progress a slot is live iff its turn is odd, so the slots' destructors destroy
      exactly the leftovers: the values issued under the tickets from tail up to head. */
  lemma Leftovers<T>(s: State<T>, x: nat)
    requires Inv(s) && AllIdle(s) && x < s.cap
    ensures s.slots[x].cell.Live? <==> s.slots[x].turn % 2 == 1
    ensures s.slots[x].cell.Live? <==> exists t: nat :: s.tail <= t < s.head && Ix(t, s.cap) == x
    ensures forall t: nat :: s.tail <= t < s.head && Ix(t, s.cap) == x ==> s.slots[x].cell == Live(s.issued[t])
  {
    var v := s.slots[x].turn;
    var t := Ticket(x, v / 2, s.cap);
    TicketOfSlot(x, v / 2, s.cap);
    assert CellOk(s, t);
    Finished(s, t);
    forall u: nat | s.tail <= u < s.head && Ix(u, s.cap) == x ensures s.slots[x].cell == Live(s.issued[u]) {
      assert CellOk(s, u);
      Finished(s, u);
    }
  }

  lemma Finished<T>(s: State<T>, t: nat)
    requires Inv(s) && AllIdle(s)
    ensures Published(s, t) <==> t < s.head
    ensures Released(s, t) <==> t < s.tail
  {
    Unclaimed(s, t);
    assert !SomePush(s, t) && !SomeTake(s, t);
  }

  /** A value is published only into a slot its predecessor has left. */
  lemma Predecessor<T>(s: State<T>, t: nat)
    requires Shape(s)
    ensures TurnAt(s, t) >= 2 * Lap(t, s.cap) <==> (t < s.cap || Released(s, t - s.cap))
  {
  }
}
