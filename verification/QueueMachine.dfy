/**
  The bounded multi-producer multi-consumer queue as a transition system.

  Any number of threads run the operations of the queue; every atomic load, fetch_add,
  compare-exchange and store, and every access to a slot's storage, is one step of one
  thread.  Tickets are unbounded naturals here; WrappedTickets relates them to uint64.
 */
module QueueMachine {

  // ---------------------------------------------------------------- tickets, slots and laps

  /** The slot that serves ticket t, in a ring of c slots. */
  function Ix(t: nat, c: nat): (r: nat)
    requires c > 0
    ensures r < c
  {
    if t < c then t else Ix(t - c, c)
  }

  /** The ticket that slot x serves in a given lap. */
  function Ticket(x: nat, lap: nat, c: nat): nat
  {
    if lap == 0 then x else c + Ticket(x, lap - 1, c)
  }

  /** How many times the ring has been gone round before ticket t is served. */
  function Lap(t: nat, c: nat): (r: nat)
    requires c > 0
    ensures Ticket(Ix(t, c), r, c) == t
  {
    if t < c then 0 else 1 + Lap(t - c, c)
  }

  // ---------------------------------------------------------------- state

  /** The raw storage of a slot: holding a constructed object or not. */
  datatype Cell<T> = Dead | Live(value: T)

  datatype Slot<T> = Slot(turn: nat, cell: Cell<T>)

  /** What a consumer does once it has released its slot. */
  datatype Mode =
    | Blocking             // pop, consume: return
    | Once                 // try_pop: return true
    | Greedy(count: nat)   // bulk_pop, try_consume_all: go on with the next ticket

  /** The program counter of a thread, with the locals that are live there; N is the type of tickets. */
  datatype PcOf<T, N> =
    | Idle
      // emplace, emplace_with (one item) and bulk_push, after fetch_add claimed the tickets
      // first .. first + |items|; items[k] goes out under ticket first + k
    | PushWait(first: N, items: seq<T>, k: nat)
    | PushBuild(first: N, items: seq<T>, k: nat)
    | PushPublish(first: N, items: seq<T>, k: nat)
      // try_emplace, until its compare-exchange succeeds
    | TryPushLoad(item: T)
    | TryPushCheck(item: T, cursor: N)
    | TryPushCas(item: T, cursor: N)
    | TryPushReload(item: T, cursor: N)
      // pop and consume, spinning
    | PopWait(ticket: N)
      // every consumer, once its slot is filled
    | TakeMove(ticket: N, mode: Mode)
    | TakeDestroy(ticket: N, mode: Mode)
    | TakeRelease(ticket: N, mode: Mode)
      // try_pop, bulk_pop, try_consume_all, until their compare-exchange succeeds
    | TakeLoad(mode: Mode)
    | TakeCheck(cursor: N, mode: Mode)
    | TakeCas(cursor: N, mode: Mode)
    | TakeReload(cursor: N, mode: Mode)

  type Pc<T> = PcOf<T, nat>

  datatype Delivery<T> = Delivery(ticket: nat, value: T, who: nat)

  /**
    issued and log are history: issued[t] is the value whose producer claimed ticket t,
    log lists the values moved out of the queue in the order of the moves.
   */
  datatype State<T> = State(
    cap: nat,
    head: nat,
    tail: nat,
    slots: seq<Slot<T>>,
    pcs: seq<Pc<T>>,
    issued: seq<T>,
    log: seq<Delivery<T>>)

  ghost predicate Shape<T>(s: State<T>)
  {
    s.cap > 0 && |s.slots| == s.cap
  }

  function SlotOf<T>(s: State<T>, t: nat): Slot<T>
    requires Shape(s)
  {
    s.slots[Ix(t, s.cap)]
  }

  function TurnAt<T>(s: State<T>, t: nat): nat
    requires Shape(s)
  {
    SlotOf(s, t).turn
  }

  function WithSlot<T>(s: State<T>, t: nat, slot: Slot<T>): State<T>
    requires Shape(s)
  {
    s.(slots := s.slots[Ix(t, s.cap) := slot])
  }

  function WithPc<T>(s: State<T>, i: nat, pc: Pc<T>): State<T>
    requires i < |s.pcs|
  {
    s.(pcs := s.pcs[i := pc])
  }

  function Init<T>(cap: nat, threads: nat): State<T>
  {
    State(cap, 0, 0, seq(cap, x => Slot(0, Dead)), seq(threads, x => Idle), [], [])
  }

  // ---------------------------------------------------------------- steps

  /** The operation an idle thread calls; a thread inside a call just goes on. */
  datatype Call<T> =
    | Push(items: seq<T>)    // emplace, emplace_with: one item; bulk_push: any number
    | TryPush(item: T)       // try_emplace
    | Pop                    // pop, consume
    | TryPop                 // try_pop
    | TakeAll                // bulk_pop, try_consume_all

  /** Where a producer goes before its k-th item: the loop test of bulk_push. */
  function NextPush<T>(first: nat, items: seq<T>, k: nat): Pc<T>
  {
    if k < |items| then PushWait(first, items, k) else Idle
  }

  function AfterTake<T>(t: nat, mode: Mode): Pc<T>
  {
    match mode
    case Blocking => Idle
    case Once => Idle
    case Greedy(n) => TakeCheck(t + 1, Greedy(n + 1))
  }

  function Begin<T>(s: State<T>, i: nat, call: Call<T>): State<T>
    requires i < |s.pcs|
  {
    match call
    case Push(items) =>
      WithPc(s.(head := s.head + |items|, issued := s.issued + items), i, NextPush(s.head, items, 0))
    case TryPush(item) => WithPc(s, i, TryPushLoad(item))
    case Pop => WithPc(s.(tail := s.tail + 1), i, PopWait(s.tail))
    case TryPop => WithPc(s, i, TakeLoad(Once))
    case TakeAll => WithPc(s, i, TakeLoad(Greedy(0)))
  }

  /** The next atomic step of thread i. */
  function Step<T>(s: State<T>, i: nat, call: Call<T>): (r: State<T>)
    requires Shape(s)
    ensures Shape(r)
  {
    if i >= |s.pcs| then s else
    match s.pcs[i]
    case Idle => Begin(s, i, call)

    case PushWait(f, items, k) =>
      if 2 * Lap(f + k, s.cap) == TurnAt(s, f + k) then WithPc(s, i, PushBuild(f, items, k)) else s
    case PushBuild(f, items, k) =>
      if k >= |items| then s else
      WithPc(WithSlot(s, f + k, SlotOf(s, f + k).(cell := Live(items[k]))), i, PushPublish(f, items, k))
    case PushPublish(f, items, k) =>
      WithPc(WithSlot(s, f + k, SlotOf(s, f + k).(turn := 2 * Lap(f + k, s.cap) + 1)), i,
             NextPush(f, items, k + 1))

    case TryPushLoad(v) => WithPc(s, i, TryPushCheck(v, s.head))
    case TryPushCheck(v, c) =>
      WithPc(s, i, if 2 * Lap(c, s.cap) == TurnAt(s, c) then TryPushCas(v, c) else TryPushReload(v, c))
    case TryPushCas(v, c) =>
      if s.head == c
      then WithPc(s.(head := c + 1, issued := s.issued + [v]), i, PushBuild(c, [v], 0))
      else WithPc(s, i, TryPushCheck(v, s.head))
    case TryPushReload(v, c) =>   // the cursor is not refreshed
      WithPc(s, i, if s.head == c then Idle else TryPushCheck(v, c))

    case PopWait(t) =>
      if 2 * Lap(t, s.cap) + 1 == TurnAt(s, t) then WithPc(s, i, TakeMove(t, Blocking)) else s

    case TakeMove(t, m) =>
      (match SlotOf(s, t).cell
       case Dead => s
       case Live(v) => WithPc(s.(log := s.log + [Delivery(t, v, i)]), i, TakeDestroy(t, m)))
    case TakeDestroy(t, m) =>
      WithPc(WithSlot(s, t, SlotOf(s, t).(cell := Dead)), i, TakeRelease(t, m))
    case TakeRelease(t, m) =>
      WithPc(WithSlot(s, t, SlotOf(s, t).(turn := 2 * Lap(t, s.cap) + 2)), i, AfterTake(t, m))

    case TakeLoad(m) => WithPc(s, i, TakeCheck(s.tail, m))
    case TakeCheck(c, m) =>
      WithPc(s, i, if 2 * Lap(c, s.cap) + 1 == TurnAt(s, c) then TakeCas(c, m) else TakeReload(c, m))
    case TakeCas(c, m) =>
      if s.tail == c
      then WithPc(s.(tail := c + 1), i, TakeMove(c, m))
      else WithPc(s, i, TakeCheck(s.tail, m))
    case TakeReload(c, m) =>
      if s.tail == c then WithPc(s, i, Idle)
      else WithPc(s, i, TakeCheck(if m.Greedy? then s.tail else c, m))   // try_pop keeps its cursor
  }

  // ---------------------------------------------------------------- runs

  /** One scheduling choice: which thread moves, and what it calls if it is idle. */
  datatype Choice<T> = Choice(thread: nat, call: Call<T>)

  function Exec<T>(s: State<T>, schedule: seq<Choice<T>>): (r: State<T>)
    requires Shape(s)
    ensures Shape(r)
  {
    if schedule == [] then s else
    var last := schedule[|schedule| - 1];
    Step(Exec(s, schedule[..|schedule| - 1]), last.thread, last.call)
  }
}
