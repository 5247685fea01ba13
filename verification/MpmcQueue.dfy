/** The queue object itself: uint64 counters and an array of slots, updated in place. */
module MpmcQueue {
  import opened QueueMachine
  import opened QueueInvariant
  import opened QueueTheorems
  import opened QueueSolo
  import opened QueueClients
  import opened WrappedTickets
  import opened QueueWords
  import opened QueueFill

  // ---------------------------------------------------------------- a consumer running alone

  /** Where the loop of bulk_pop goes from pc. */
  ghost predicate Follows<T>(s: State<T>, pc: Pc<T>, next: Pc<T>)
  {
    match pc
    case TakeLoad(m) => next == TakeCheck(s.tail, m)
    case TakeCheck(c, m) => next == TakeCas(c, m) || next == TakeReload(c, m)
    case TakeCas(c, m) => next == if s.tail == c then TakeMove(c, m) else TakeCheck(s.tail, m)
    case TakeReload(c, m) => next == if s.tail == c then Idle else TakeCheck(s.tail, m)
    case TakeMove(t, m) => next == TakeDestroy(t, m)
    case TakeDestroy(t, m) => next == TakeRelease(t, m)
    case TakeRelease(t, m) => next == AfterTake(t, m)
    case _ => true
  }

  lemma GreedyFollows<T>(s: State<T>, i: nat)
    requires Inv(s) && i < |s.pcs| && Greedily(s.pcs[i])
    ensures Follows(s, s.pcs[i], Step(s, i, Pop).pcs[i])
  {
    assert PcOk(s, s.pcs[i]);
  }

  /** Stepping a consumer alone keeps every ticket in the window. */
  lemma WindowKept<T>(s: State<T>, i: nat, lo: nat)
    requires Inv(s) && Within(s, lo) && i < |s.pcs| && Greedily(s.pcs[i]) && !s.pcs[i].Idle?
    ensures Within(Step(s, i, Pop), lo)
  {
    var r := Step(s, i, Pop);
    assert PcOk(s, s.pcs[i]) && PcFrom(s.pcs[i], lo);
    Unclaimed(s, s.tail);
    forall j | 0 <= j < |r.pcs| ensures PcFrom(r.pcs[j], lo) {
      assert PcFrom(s.pcs[j], lo);
    }
  }

  /** Thread i is on its way, alone, from the state start; out is what it has handed over. */
  ghost predicate Going<T>(start: State<T>, s: State<T>, i: nat, lo: nat, out: seq<T>)
    requires Inv(start) && i < |start.pcs| && Greedily(start.pcs[i])
  {
    && Inv(s) && Within(s, lo) && i < |s.pcs| && Greedily(s.pcs[i])
    && RunAlone(s, i) == RunAlone(start, i)
    && |s.log| == |start.log| + |out|
    && (forall k :: 0 <= k < |out| ==> s.log[|start.log| + k].value == out[k])
  }

  lemma Advance<T>(start: State<T>, s: State<T>, i: nat, lo: nat, out: seq<T>)
    requires Inv(start) && i < |start.pcs| && Greedily(start.pcs[i])
    requires Going(start, s, i, lo, out) && !s.pcs[i].Idle?
    ensures var r := Step(s, i, Pop);
            && (s.pcs[i].TakeMove? ==>
                s.pcs[i].ticket < |s.issued| && Going(start, r, i, lo, out + [s.issued[s.pcs[i].ticket]]))
            && (!s.pcs[i].TakeMove? ==> Going(start, r, i, lo, out))
            && (Ahead(r) < Ahead(s) || (Ahead(r) == Ahead(s) && Phase(r, r.pcs[i]) < Phase(s, s.pcs[i])))
            && Follows(s, s.pcs[i], r.pcs[i])
  {
    GreedyStep(s, i);
    GreedyFollows(s, i);
    WindowKept(s, i, lo);
    assert PcOk(s, s.pcs[i]);
    StepLogs(s, i, Pop);
    hide Step, Inv, Within, PcOk;
  }

  /** A consumer's cursor and tail are compared correctly in 64 bits. */
  lemma CursorNear<T>(s: State<T>, i: nat, lo: nat)
    requires Inv(s) && Within(s, lo) && i < |s.pcs| && s.pcs[i].TakeReload?
    ensures Wrap(s.pcs[i].cursor) == Wrap(s.tail) <==> s.pcs[i].cursor == s.tail
  {
    assert PcOk(s, s.pcs[i]) && PcFrom(s.pcs[i], lo);
    TicketsToldApart(s.pcs[i].cursor, s.tail);
  }

  /** Loading tail leaves the memory as it is. */
  lemma LoadStored<T>(s: State<T>, i: nat)
    requires Storable(s) && WordShape(Stored(s)) && i < |s.pcs| && (s.pcs[i].TakeLoad? || s.pcs[i].TakeReload?)
    ensures var r := Step(s, i, Pop);
            && Storable(r) && WordShape(Stored(r)) && r.cap == s.cap
            && Stored(r).slots == Stored(s).slots && Stored(r).head == Stored(s).head
            && Stored(r).tail == Stored(s).tail == Wrap(s.tail)
  {
  }

  lemma Done<T>(s: State<T>, i: nat)
    requires Inv(s) && i < |s.pcs| && s.pcs[i].Idle?
    ensures RunAlone(s, i) == s
  {
  }

  /** The store of the next turn, seen in memory. */
  lemma ReleaseStored<T>(s: State<T>, i: nat)
    requires Inv(s) && Storable(s) && WordShape(Stored(s))
    requires i < |s.pcs| && s.pcs[i].TakeRelease?
    ensures var r := Step(s, i, Pop);
            var w := Stored(s);
            var ticket := Wrap(s.pcs[i].ticket);
            && Index(ticket, w.cap) == SlotIndex(w, ticket) < |w.slots|
            && Storable(r) && WordShape(Stored(r)) && r.cap == s.cap
            && Stored(r).head == w.head && Stored(r).tail == w.tail
            && Stored(r).slots
                  == w.slots[SlotIndex(w, ticket) := w.slots[SlotIndex(w, ticket)].(turn := NextTurn(ticket, w.cap))]
  {
    var w := Stored(s);
    var t := s.pcs[i].ticket;
    StoredAt(s, t);
    RefineTakeRelease(s, i, Pop);
    assert w.regs[i] == TakeRelease(Wrap(t), s.pcs[i].mode);
    hide FilledTurn, FreeTurn, NextTurn, Wrap, Add, Index, SlotIndex, WrapTurn, And, Inv;
  }

  lemma WindowAtStart<T>(s: State<T>, i: nat, lo: nat)
    requires Inv(s) && Within(s, lo) && i < |s.pcs| && s.pcs[i].Idle?
    ensures Within(Step(s, i, TakeAll), lo)
  {
  }

  lemma StartOfCall<T>(s: State<T>, i: nat)
    requires Inv(s) && i < |s.pcs| && s.pcs[i].Idle?
    ensures var start := Step(s, i, TakeAll);
            && Inv(start) && |start.pcs| == |s.pcs| && start.pcs[i] == TakeLoad(Greedy(0)) && PcOk(start, start.pcs[i])
            && start.issued == s.issued && start.head == s.head && start.tail == s.tail
            && (forall j :: 0 <= j < |s.pcs| && j != i ==> start.pcs[j] == s.pcs[j])
            && FirstGap(start, start.tail) == FirstGap(s, s.tail)
            && (FirstGap(s, s.tail) == s.tail || FirstGap(s, s.tail) <= |s.issued|)
  {
    var start := Step(s, i, TakeAll);
    StepInv(s, i, TakeAll);
    assert start == s.(pcs := s.pcs[i := TakeLoad(Greedy(0))]);
    assert PcOk(start, start.pcs[i]);
    hide Inv, Step;
    GapBound(s, s.tail);
    SameGap(s, start, s.tail);
  }

  /** The whole call, from the state before it. */
  lemma CallTakesTheRun<T>(s: State<T>, i: nat, r: State<T>, lo: nat, out: seq<T>)
    requires Inv(s) && i < |s.pcs| && s.pcs[i].Idle?
    requires var start := Step(s, i, TakeAll);
             Inv(start) && i < |start.pcs| && Greedily(start.pcs[i]) && Going(start, r, i, lo, out)
               && r == RunAlone(start, i)
    ensures r.issued == s.issued && r.head == s.head && r.tail == FirstGap(s, s.tail)
    ensures r.tail == s.tail || r.tail <= |r.issued|
    ensures out == if r.tail == s.tail then [] else r.issued[s.tail..r.tail]
    ensures |r.pcs| == |s.pcs| && r.pcs[i].Idle?
    ensures forall j :: 0 <= j < |s.pcs| && j != i ==> r.pcs[j] == s.pcs[j]
  {
    StartOfCall(s, i);
    hide Step, Inv, PcOk, RunAlone, FirstGap, Within;
    var start := Step(s, i, TakeAll);
    AloneTakesTheRun(start, i);
    if r.tail != s.tail {
      HandedOver(start, r, i, out);
    }
  }

  /** What a call has handed over is what its deliveries say. */
  lemma HandedOver<T>(start: State<T>, r: State<T>, i: nat, out: seq<T>)
    requires start.tail <= r.tail <= |start.issued| && r.log == start.log + Deliveries(start, i, start.tail, r.tail)
    requires |r.log| == |start.log| + |out| && forall k :: 0 <= k < |out| ==> r.log[|start.log| + k].value == out[k]
    ensures out == start.issued[start.tail..r.tail]
  {
  }

  /** The turn a consumer reads at its cursor tells it whether its ticket is published and unreleased. */
  lemma CheckSeen<T>(s: State<T>, i: nat)
    requires Inv(s) && Storable(s) && WordShape(Stored(s)) && NoLag(s)
    requires i < |s.pcs| && s.pcs[i].TakeCheck?
    ensures var ticket := Wrap(s.pcs[i].cursor);
            && Index(ticket, Stored(s).cap) < |Stored(s).slots|
            && (FilledTurn(ticket, Stored(s).cap) == Stored(s).slots[Index(ticket, Stored(s).cap)].turn
                <==> Step(s, i, Pop).pcs[i].TakeCas?)
  {
    TurnSeen(s, i);
    TurnChecked(s, i);
    hide Step, FilledTurn, Wrap, Stored, Inv;
  }

  lemma TurnChecked<T>(s: State<T>, i: nat)
    requires Shape(s) && i < |s.pcs| && s.pcs[i].TakeCheck?
    ensures Step(s, i, Pop).pcs[i].TakeCas? <==> TurnAt(s, s.pcs[i].cursor) == 2 * Lap(s.pcs[i].cursor, s.cap) + 1
  {
  }

  lemma TurnSeen<T>(s: State<T>, i: nat)
    requires Inv(s) && Storable(s) && WordShape(Stored(s)) && NoLag(s)
    requires i < |s.pcs| && s.pcs[i].TakeCheck?
    ensures var ticket := Wrap(s.pcs[i].cursor);
            && Index(ticket, Stored(s).cap) < |Stored(s).slots|
            && (FilledTurn(ticket, Stored(s).cap) == Stored(s).slots[Index(ticket, Stored(s).cap)].turn
                <==> TurnAt(s, s.pcs[i].cursor) == 2 * Lap(s.pcs[i].cursor, s.cap) + 1)
  {
    var lo :| Within(s, lo);
    var c := s.pcs[i].cursor;
    assert PcFrom(s.pcs[i], lo) && PcOk(s, s.pcs[i]);
    hide FilledTurn, Wrap, WrapTurn, And;
    StoredAt(s, c);
    TurnsAgree(c, s.cap as uint64);
    SeesTurn(s, lo, c, s.cap as uint64);
    hide Inv, Within;
  }

  /** Checking changes no memory. */
  lemma CheckStored<T>(s: State<T>, i: nat)
    requires Inv(s) && Storable(s) && WordShape(Stored(s)) && i < |s.pcs| && s.pcs[i].TakeCheck?
    ensures var r := Step(s, i, Pop); Storable(r) && SameWords(s, r) && Stored(r).slots == Stored(s).slots
  {
  }

  // ---------------------------------------------------------------- a producer running alone

  /** One step of a producer that has room. */
  lemma Filled<T>(s: State<T>, i: nat, lo: nat, from: nat, to: nat)
    requires Inv(s) && Within(s, lo) && i < |s.pcs| && Pushing(s.pcs[i]) && Room(s, from, to)
    requires from <= s.pcs[i].first + s.pcs[i].k < to
    ensures var r := Step(s, i, Pop);
            && Within(r, lo) && Room(r, from, to) && r == s.(slots := r.slots, pcs := r.pcs) && |r.pcs| == |s.pcs|
            && (forall j :: 0 <= j < |s.pcs| && j != i ==> r.pcs[j] == s.pcs[j])
            && (forall t: nat {:trigger Published(r, t)} :: Published(s, t) ==> Published(r, t))
            && (s.pcs[i].PushPublish? ==> Published(r, s.pcs[i].first + s.pcs[i].k))
            && r.pcs[i] == (match s.pcs[i]
                            case PushWait(f, items, k) => PushBuild(f, items, k)
                            case PushBuild(f, items, k) => PushPublish(f, items, k)
                            case PushPublish(f, items, k) => NextPush(f, items, k + 1)
                            case _ => s.pcs[i])
  {
    assert RoomAt(s, s.pcs[i].first + s.pcs[i].k);
    FillsSlots(s, i);
    FillsNext(s, i);
    FillWindow(s, i, lo);
    RoomKept(s, i, Pop, from, to);
    StepGrowth(s, i, Pop);
    hide Step, Inv, Within, Room;
  }

  lemma ClaimedHead<T>(s: State<T>, i: nat, items: seq<T>, lo: nat, to: nat)
    requires Inv(s) && Within(s, lo) && i < |s.pcs| && s.pcs[i].Idle? && s.head + |items| < lo + TWO_63
        && Room(s, s.head, to)
    ensures var r := Step(s, i, Push(items));
            && Within(r, lo) && Room(r, s.head, to)
            && r == s.(head := s.head + |items|, issued := s.issued + items,
                       pcs := s.pcs[i := NextPush(s.head, items, 0)])
            && (forall t: nat {:trigger Published(r, t)} :: Published(s, t) ==> Published(r, t))
  {
    BeginWindow(s, i, items, lo);
    RoomKept(s, i, Push(items), s.head, to);
    StepGrowth(s, i, Push(items));
    hide Inv, Within, Room;
  }

  /** A bulk_push of thread i has published its first k items, and there is room for the others. */
  ghost predicate InPush<T>(claimed: State<T>, s: State<T>, i: nat, items: seq<T>, from: nat, k: nat, to: nat, lo: nat)
  {
    && Shape(s) && Shape(claimed) && Within(s, lo) && i < |s.pcs| == |claimed.pcs|
    && s.pcs[i] == NextPush(from, items, k)
    && s == claimed.(slots := s.slots, pcs := s.pcs)
    && (forall j :: 0 <= j < |s.pcs| && j != i ==> s.pcs[j] == claimed.pcs[j])
    && Room(s, from, to)
    && (forall t: nat {:trigger Published(s, t)} :: from <= t < from + k ==> Published(s, t))
    && (forall t: nat {:trigger Published(s, t)} :: Published(claimed, t) ==> Published(s, t))
  }

  lemma NextToPush<T>(claimed: State<T>, s: State<T>, i: nat, items: seq<T>, from: nat, k: nat, to: nat, lo: nat)
    requires InPush(claimed, s, i, items, from, k, to, lo) && k < |items|
    ensures Shape(s) && Within(s, lo) && i < |s.pcs| && s.pcs[i] == PushWait(from, items, k) && Room(s, from, to)
  {
  }

  lemma PushedOne<T>(claimed: State<T>, s: State<T>, r: State<T>, i: nat, items: seq<T>, from: nat, k: nat, to: nat,
                     lo: nat)
    requires InPush(claimed, s, i, items, from, k, to, lo) && k < |items|
    requires Shape(r) && Within(r, lo) && r == s.(slots := r.slots, pcs := r.pcs) && |r.pcs| == |s.pcs|
    requires r.pcs[i] == NextPush(from, items, k + 1)
        && (forall j :: 0 <= j < |r.pcs| && j != i ==> r.pcs[j] == s.pcs[j])
    requires Room(r, from, to) && Published(r, from + k)
    requires forall t: nat {:trigger Published(r, t)} :: Published(s, t) ==> Published(r, t)
    ensures InPush(claimed, r, i, items, from, k + 1, to, lo)
  {
  }

  /** With try-style consumers only, size() is the occupancy and empty() whether there is none, on a snapshot. */
  lemma SnapshotExact<T>(cap: nat, threads: nat, schedule: seq<Choice<T>>)
    requires cap > 0 && NoBlockingPop(schedule)
    requires Run(cap, threads, schedule).head < Run(cap, threads, schedule).tail + TWO_64
    ensures var s := Run(cap, threads, schedule);
            Minus(Wrap(s.head), Wrap(s.tail)) as int == s.head - s.tail
            && (Minus(Wrap(s.head), Wrap(s.tail)) == 0 <==> s.head <= s.tail)
  {
    TailBehindHead(cap, threads, schedule);
    var s := Run(cap, threads, schedule);
    SizeExactly(s.head, s.tail);
  }

  class MPMCQueue<T> {
    const capacity: uint64
    const slots: array<WordSlot<T>>
    var head: uint64
    var tail: uint64

    /** The unbounded state the memory stands for, with the program counters of the threads in it. */
    ghost var g: State<T>

    ghost predicate Valid()
      reads this, slots
    {
      && Inv(g) && Storable(g) && WordShape(Stored(g))
      && capacity as nat == g.cap == slots.Length
      && head == Stored(g).head && tail == Stored(g).tail
      && slots[..] == Stored(g).slots
    }

    constructor (capacity: uint64, ghost threads: nat)
      requires capacity > 0 && And(capacity as nat, capacity as nat - 1) == 0
      ensures Valid() && fresh(slots)
      ensures this.capacity == capacity && g == Init(capacity as nat, threads)
    {
      this.capacity := capacity;
      slots := new WordSlot<T>[capacity as nat](x => WordSlot(0, Dead));
      head, tail := 0, 0;
      g := Init(capacity as nat, threads);
      new;
      InitInv<T>(capacity as nat, threads);
      StoredShape(g);
      var h := CapacityDivides(capacity as nat);
      PeriodIs(capacity, h);
      SmallMod(0, Period(capacity as nat));
    }

    // ------------------------------------------------------------- the atomic accesses of a consumer

    method LoadTail(ghost me: nat) returns (t: uint64)
      requires Valid() && me < |g.pcs| && (g.pcs[me].TakeLoad? || g.pcs[me].TakeReload?)
      modifies `g
      ensures Valid() && g == Step(old(g), me, Pop)
      ensures t == Wrap(old(g.tail))
    {
      StepInv(g, me, Pop);
      LoadStored(g, me);
      hide Wrap, WrapTurn, And, Inv, Step, Stored;
      g := Step(g, me, Pop);
      t := tail;
    }

    method LoadTurn(ghost me: nat, ticket: uint64) returns (turn: uint64)
      requires Valid() && NoLag(g) && me < |g.pcs| && g.pcs[me].TakeCheck? && ticket == Wrap(g.pcs[me].cursor)
      modifies `g
      ensures Valid() && g == Step(old(g), me, Pop)
      ensures FilledTurn(ticket, capacity) == turn <==> g.pcs[me].TakeCas?
    {
      CheckSeen(g, me);
      CheckStored(g, me);
      StepInv(g, me, Pop);
      turn := slots[Index(ticket, capacity)].turn;
      hide FilledTurn, Wrap, Index, WrapTurn, And, Inv, Step;
      g := Step(g, me, Pop);
    }

    method CasTail(ghost me: nat, expected: uint64) returns (won: bool, seen: uint64)
      requires Valid() && NoLag(g) && me < |g.pcs| && g.pcs[me].TakeCas? && expected == Wrap(g.pcs[me].cursor)
      modifies this
      ensures Valid() && g == Step(old(g), me, Pop)
      ensures won <==> g.pcs[me].TakeMove?
      ensures seen == Wrap(old(g.tail)) && (won ==> seen == expected)
    {
      ghost var lo :| Within(g, lo);
      ghost var c := g.pcs[me].cursor;
      assert PcFrom(g.pcs[me], lo) && PcOk(g, g.pcs[me]);
      TicketsToldApart(g.tail, c);
      AddWraps(c, 1);
      StepInv(g, me, Pop);
      hide Inv, And, WrapTurn, Within, PcOk, Wrap;
      won := tail == expected;
      seen := tail;
      if won {
        tail := Add(expected, 1);
      }
      g := Step(g, me, Pop);
    }

    method Move(ghost me: nat, ticket: uint64) returns (v: T)
      requires Valid() && me < |g.pcs| && g.pcs[me].TakeMove? && ticket == Wrap(g.pcs[me].ticket)
      modifies `g
      ensures Valid() && g == Step(old(g), me, Pop)
      ensures old(g.pcs[me].ticket) < |old(g.issued)| && v == old(g.issued)[old(g.pcs[me].ticket)]
    {
      StepInv(g, me, Pop);
      StoredAt(g, g.pcs[me].ticket);
      assert PcOk(g, g.pcs[me]);
      v := slots[Index(ticket, capacity)].cell.value;
      g := Step(g, me, Pop);
    }

    method Destroy(ghost me: nat, ticket: uint64)
      requires Valid() && me < |g.pcs| && g.pcs[me].TakeDestroy? && ticket == Wrap(g.pcs[me].ticket)
      modifies this, slots
      ensures Valid() && g == Step(old(g), me, Pop)
    {
      ghost var t := g.pcs[me].ticket;
      StepInv(g, me, Pop);
      StoredAt(g, t);
      StoredPut(g, t, SlotOf(g, t).(cell := Dead));
      var x := Index(ticket, capacity);
      slots[x] := slots[x].(cell := Dead);
      g := Step(g, me, Pop);
    }

    method StoreTurn(ghost me: nat, ticket: uint64)
      requires Valid() && me < |g.pcs| && g.pcs[me].TakeRelease? && ticket == Wrap(g.pcs[me].ticket)
      modifies this, slots
      ensures Valid() && g == Step(old(g), me, Pop)
    {
      StepInv(g, me, Pop);
      ReleaseStored(g, me);
      hide NextTurn, Wrap, WrapTurn, And, Inv, Step;
      var x := Index(ticket, capacity);
      slots[x] := slots[x].(turn := NextTurn(ticket, capacity));
      g := Step(g, me, Pop);
    }

    // ------------------------------------------------------------- the atomic accesses of a producer

    method ClaimHead(ghost me: nat, items: seq<T>) returns (first: uint64)
      requires Valid() && me < |g.pcs| && g.pcs[me].Idle?
      modifies `head, `g
      ensures Valid() && g == Step(old(g), me, Push(items))
      ensures first == Wrap(old(g.head))
    {
      StepInv(g, me, Push(items));
      ClaimStored(g, me, items);
      hide Wrap, WrapTurn, And, Inv, Step, Add;
      first := head;
      head := Add(head, |items|);
      g := Step(g, me, Push(items));
    }

    method LoadFree(ghost me: nat, ticket: uint64, ghost lo: nat) returns (turn: uint64)
      requires Valid() && Within(g, lo) && me < |g.pcs| && g.pcs[me].PushWait?
      requires ticket == Wrap(g.pcs[me].first + g.pcs[me].k)
      modifies `g
      ensures Valid() && g == Step(old(g), me, Pop)
      ensures FreeTurn(ticket, capacity) == turn <==> g.pcs[me].PushBuild?
    {
      StepInv(g, me, Pop);
      WaitSeen(g, me, lo);
      WaitStored(g, me);
      hide FreeTurn, Wrap, Index, WrapTurn, And, Inv, Step, Within;
      turn := slots[Index(ticket, capacity)].turn;
      g := Step(g, me, Pop);
    }

    /** The spin on the turn of the ticket's slot; with room in the ring it ends. */
    method AwaitRoom(ghost me: nat, ticket: uint64, ghost lo: nat)
      requires Valid() && Within(g, lo) && me < |g.pcs| && g.pcs[me].PushWait?
      requires ticket == Wrap(g.pcs[me].first + g.pcs[me].k) && RoomAt(g, g.pcs[me].first + g.pcs[me].k)
      modifies `g
      ensures Valid() && g == Step(old(g), me, Pop)
    {
      RoomSeen(g, me);
      hide FreeTurn, Wrap, Index, WrapTurn, And, Inv, Step, Within, RoomAt;
      var waiting := true;
      while waiting
        invariant Valid() && g == if waiting then old(g) else Step(old(g), me, Pop)
        decreases waiting
      {
        var turn := LoadFree(me, ticket, lo);
        waiting := FreeTurn(ticket, capacity) != turn;
      }
    }

    method Construct(ghost me: nat, ticket: uint64, item: T)
      requires Valid() && me < |g.pcs| && g.pcs[me].PushBuild? && ticket == Wrap(g.pcs[me].first + g.pcs[me].k)
      requires g.pcs[me].k < |g.pcs[me].items| && item == g.pcs[me].items[g.pcs[me].k]
      modifies this, slots
      ensures Valid() && g == Step(old(g), me, Pop)
    {
      StepInv(g, me, Pop);
      BuildStored(g, me);
      hide Wrap, Index, WrapTurn, And, Inv, Step;
      var x := Index(ticket, capacity);
      slots[x] := slots[x].(cell := Live(item));
      g := Step(g, me, Pop);
    }

    method StoreFilled(ghost me: nat, ticket: uint64)
      requires Valid() && me < |g.pcs| && g.pcs[me].PushPublish? && ticket == Wrap(g.pcs[me].first + g.pcs[me].k)
      modifies this, slots
      ensures Valid() && g == Step(old(g), me, Pop)
    {
      StepInv(g, me, Pop);
      PublishStored(g, me);
      hide Wrap, Index, WrapTurn, And, Inv, Step, FilledTurn;
      var x := Index(ticket, capacity);
      slots[x] := slots[x].(turn := FilledTurn(ticket, capacity));
      g := Step(g, me, Pop);
    }

    // ------------------------------------------------------------- emplace and bulk_push

    /** One item under its ticket: wait for the slot, construct the item, publish it. */
    method FillSlot(ghost me: nat, ticket: uint64, item: T, ghost from: nat, ghost to: nat, ghost lo: nat)
      requires Valid() && Within(g, lo) && me < |g.pcs| && g.pcs[me].PushWait? && Room(g, from, to)
      requires ticket == Wrap(g.pcs[me].first + g.pcs[me].k) && from <= g.pcs[me].first + g.pcs[me].k < to
      requires g.pcs[me].k < |g.pcs[me].items| && item == g.pcs[me].items[g.pcs[me].k]
      modifies this, slots
      ensures Valid() && Within(g, lo) && g == old(g).(slots := g.slots, pcs := g.pcs) && |g.pcs| == |old(g).pcs|
      ensures g.pcs[me] == NextPush(old(g.pcs[me].first), old(g.pcs[me].items), old(g.pcs[me].k) + 1)
      ensures forall i :: 0 <= i < |g.pcs| && i != me ==> g.pcs[i] == old(g.pcs)[i]
      ensures Room(g, from, to) && Published(g, old(g.pcs[me].first) + old(g.pcs[me].k))
      ensures forall t: nat {:trigger Published(g, t)} :: Published(old(g), t) ==> Published(g, t)
    {
      assert RoomAt(g, g.pcs[me].first + g.pcs[me].k);
      hide Step, Within, Stored, Wrap, Inv, WordShape, Storable;
      Filled(g, me, lo, from, to);
      AwaitRoom(me, ticket, lo);
      Filled(g, me, lo, from, to);
      Construct(me, ticket, item);
      Filled(g, me, lo, from, to);
      StoreFilled(me, ticket);
    }

    /**
      bulk_push, and emplace with one item, run while the other threads stand still and there is room in the ring
      for all the items.
     */
    method BulkPush(ghost me: nat, items: seq<T>, ghost lo: nat)
      requires Valid() && Within(g, lo) && me < |g.pcs| && g.pcs[me].Idle?
      requires g.head + |items| < lo + TWO_63 && Room(g, g.head, g.head + |items|)
      modifies this, slots
      ensures Valid() && NoLag(g) && |g.pcs| == |old(g).pcs| && g.pcs[me].Idle?
      ensures g.issued == old(g.issued) + items && g.head == old(g.head) + |items|
      ensures g.tail == old(g.tail) && g.log == old(g.log)
      ensures forall t: nat {:trigger Published(g, t)} :: old(g.head) <= t < g.head ==> Published(g, t)
      ensures forall t: nat {:trigger Published(g, t)} :: Published(old(g), t) ==> Published(g, t)
      ensures forall i :: 0 <= i < |g.pcs| && i != me ==> g.pcs[i] == old(g.pcs)[i]
    {
      ghost var from := g.head;
      ghost var to := from + |items|;
      ClaimedHead(g, me, items, lo, to);
      hide Step, Within, Stored, Wrap, Inv, WordShape, Storable, Room, Add, Published, RoomAt;
      var first := ClaimHead(me, items);
      FillAll(me, first, items, from, to, lo);
    }

    /** The loop of bulk_push over its claimed tickets. */
    method FillAll(ghost me: nat, first: uint64, items: seq<T>, ghost from: nat, ghost to: nat, ghost lo: nat)
      requires Valid() && InPush(g, g, me, items, from, 0, to, lo) && first == Wrap(from) && to == from + |items|
      modifies this, slots
      ensures Valid() && InPush(old(g), g, me, items, from, |items|, to, lo)
    {
      var ticket := first;
      var k := 0;
      ghost var claimed := g;
      hide InPush, Add, Wrap, Within, Room, Published;
      while k < |items|
        invariant Valid() && k <= |items| && ticket == Wrap(from + k) && InPush(claimed, g, me, items, from, k, to, lo)
      {
        ghost var before := g;
        NextToPush(claimed, g, me, items, from, k, to, lo);
        FillSlot(me, ticket, items[k], from, to, lo);
        PushedOne(claimed, before, g, me, items, from, k, to, lo);
        AddWraps(from + k, 1);
        ticket := Add(ticket, 1);
        k := k + 1;
      }
    }

    // ------------------------------------------------------------- size and empty

    method Size() returns (n: uint64)
      requires Valid() && g.head < g.tail + TWO_64 && g.tail < g.head + TWO_64
      ensures n as int == g.head - g.tail <==> g.tail <= g.head
      ensures n == 0 <==> g.head == g.tail
    {
      SizeExactly(g.head, g.tail);
      n := Minus(head, tail);
    }

    method Empty() returns (e: bool)
      requires Valid() && g.head < g.tail + TWO_64 && g.tail < g.head + TWO_64
      ensures e <==> g.head == g.tail
    {
      var n := Size();
      e := n <= 0;
    }

    // ------------------------------------------------------------- bulk_pop and try_consume_all

    /** The slot the compare-exchange won: move the value out, destroy it, hand the slot on. */
    method TakeSlot(ghost me: nat, ticket: uint64, ghost start: State<T>, ghost lo: nat, ghost out: seq<T>)
      returns (v: T)
      requires Valid() && Inv(start) && me < |start.pcs| && Greedily(start.pcs[me]) && Going(start, g, me, lo, out)
      requires g.pcs[me].TakeMove? && g.pcs[me].mode.Greedy? && ticket == Wrap(g.pcs[me].ticket)
      modifies this, slots
      ensures Valid() && Going(start, g, me, lo, out + [v])
      ensures g.pcs[me] == AfterTake(old(g.pcs[me].ticket), old(g.pcs[me].mode))
      ensures Ahead(g) < old(Ahead(g)) || (Ahead(g) == old(Ahead(g)) && Phase(g, g.pcs[me]) < old(Phase(g, g.pcs[me])))
    {
      hide Step, RunAlone, Within, Stored, Inv, WordShape, Storable;
      Advance(start, g, me, lo, out);
      v := Move(me, ticket);
      Advance(start, g, me, lo, out + [v]);
      Destroy(me, ticket);
      Advance(start, g, me, lo, out + [v]);
      StoreTurn(me, ticket);
    }

    /** The loop of bulk_pop and try_consume_all, with old_tail and the count in local variables. */
    method Greed(ghost me: nat, ghost start: State<T>, ghost lo: nat) returns (out: seq<T>)
      requires Valid() && g == start && Inv(start) && Within(start, lo)
      requires me < |start.pcs| && start.pcs[me].TakeLoad? && start.pcs[me].mode.Greedy?
      modifies this, slots
      ensures Valid() && Going(start, g, me, lo, out) && g == RunAlone(start, me)
    {
      hide Step, RunAlone, Within, Stored, Wrap, Inv, FilledTurn, WordShape, Storable, Add;
      out := [];
      Advance(start, g, me, lo, out);
      var old_tail := LoadTail(me);
      while true
        invariant Valid() && Going(start, g, me, lo, out)
        invariant g.pcs[me].TakeCheck? && g.pcs[me].mode.Greedy? && old_tail == Wrap(g.pcs[me].cursor)
        decreases Ahead(g), Phase(g, g.pcs[me])
      {
        Advance(start, g, me, lo, out);
        var turn := LoadTurn(me, old_tail);
        if FilledTurn(old_tail, capacity) == turn {
          Advance(start, g, me, lo, out);
          var won, seen := CasTail(me, old_tail);
          old_tail := seen;
          if won {
            AddWraps(g.pcs[me].ticket, 1);
            var v := TakeSlot(me, old_tail, start, lo, out);
            out := out + [v];
            old_tail := Add(old_tail, 1);
          }
        } else {
          CursorNear(g, me, lo);
          Advance(start, g, me, lo, out);
          var prev_old_tail := old_tail;
          old_tail := LoadTail(me);
          if prev_old_tail == old_tail {
            Done(g, me);
            return;
          }
        }
      }
    }

    /**
      bulk_pop, and try_consume_all with a callback that collects its arguments, run while the other
      threads stand still, wherever they are.
     */
    method BulkPop(ghost me: nat) returns (out: seq<T>)
      requires Valid() && NoLag(g) && me < |g.pcs| && g.pcs[me].Idle?
      modifies this, slots
      ensures Valid() && NoLag(g)
      ensures g.issued == old(g.issued) && g.head == old(g.head) && g.tail == FirstGap(old(g), old(g.tail))
      ensures g.tail == old(g.tail) || g.tail <= |g.issued|
      ensures out == if g.tail == old(g.tail) then [] else g.issued[old(g.tail)..g.tail]
      ensures |g.pcs| == |old(g.pcs)| && g.pcs[me].Idle?
      ensures forall i :: 0 <= i < |g.pcs| && i != me ==> g.pcs[i] == old(g.pcs)[i]
    {
      ghost var lo :| Within(g, lo);
      ghost var before := g;
      StepInv(g, me, TakeAll);
      g := Step(g, me, TakeAll);
      ghost var start := g;
      WindowAtStart(before, me, lo);
      out := Greed(me, start, lo);
      CallTakesTheRun(before, me, g, lo, out);
    }
  }
}
