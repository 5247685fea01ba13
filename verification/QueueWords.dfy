/** The queue in the code's own uint64 arithmetic, and its refinement of the unbounded queue. */
module QueueWords {
  import opened QueueMachine
  import opened QueueInvariant
  import opened QueueTheorems
  import opened WrappedTickets

  // ---------------------------------------------------------------- how far threads may lag

  ghost predicate PcFrom<T>(pc: Pc<T>, lo: nat)
  {
    match pc
    case Idle => true
    case PushWait(f, _, k) => lo <= f + k
    case PushBuild(f, _, k) => lo <= f + k
    case PushPublish(f, _, k) => lo <= f + k
    case TryPushLoad(_) => true
    case TryPushCheck(_, c) => lo <= c
    case TryPushCas(_, c) => lo <= c
    case TryPushReload(_, c) => lo <= c
    case PopWait(t) => lo <= t
    case TakeMove(t, _) => lo <= t
    case TakeDestroy(t, _) => lo <= t
    case TakeRelease(t, _) => lo <= t
    case TakeLoad(_) => true
    case TakeCheck(c, _) => lo <= c
    case TakeCas(c, _) => lo <= c
    case TakeReload(c, _) => lo <= c
  }

  /** Both counters and every ticket in a thread's hands lie in a window of 2^63 tickets from lo on. */
  ghost predicate Within<T>(s: State<T>, lo: nat)
  {
    && lo <= s.head < lo + TWO_63
    && lo <= s.tail < lo + TWO_63
    && (forall i {:trigger PcFrom(s.pcs[i], lo)} :: 0 <= i < |s.pcs| ==> PcFrom(s.pcs[i], lo))
  }

  /** No thread lags 2^63 or more tickets behind. */
  ghost predicate NoLag<T>(s: State<T>)
  {
    exists lo :: Within(s, lo)
  }

  lemma {:induction false} TicketValue(x: nat, lap: nat, c: nat)
    ensures Ticket(x, lap, c) == x + lap * c
  {
    if lap > 0 {
      TicketValue(x, lap - 1, c);
      assert lap * c == (lap - 1) * c + c;
    }
  }

  /** The ticket a slot's turn stands at is not far from the window. */
  lemma PendingTicket<T>(s: State<T>, lo: nat, x: nat)
    requires Inv(s) && Within(s, lo) && x < s.cap
    ensures var v := s.slots[x].turn;
            var u := Ticket(x, v / 2, s.cap);
            && (u >= lo)
            && (v % 2 == 1 ==> u <= lo + TWO_63 - 2)
            && (v % 2 == 0 && v > 0 ==> u <= lo + TWO_63 - 2 + s.cap)
  {
    var v := s.slots[x].turn;
    var u := Ticket(x, v / 2, s.cap);
    TicketOfSlot(x, v / 2, s.cap);
    Unclaimed(s, u);
    if v % 2 == 0 && u < s.head {
      assert SomePush(s, u);
      var i :| 0 <= i < |s.pcs| && HoldsPush(s.pcs[i], u);
      assert PcFrom(s.pcs[i], lo);
    }
    if v % 2 == 1 && u < s.tail {
      assert SomeTake(s, u);
      var i :| 0 <= i < |s.pcs| && HoldsTake(s.pcs[i], u);
      assert PcFrom(s.pcs[i], lo);
    }
    if v % 2 == 0 && v > 0 {
      TicketOfSlot(x, v / 2 - 1, s.cap);
      Unclaimed(s, u - s.cap);
    }
  }

  lemma LapsAbove(k: nat, l: nat, c: nat, h: nat, x: nat, lo: nat)
    requires h * c == TWO_63
    requires lo <= x + l * c && x + k * c <= lo + TWO_63 - 1
    ensures k < l + h
  {
  }

  /** A slot's turn is less than a period away from every turn looked for there. */
  lemma TurnGap(v: nat, x: nat, l: nat, n: nat, h: nat, lo: nat)
    requires h * n == TWO_63 && n > 0
    requires lo <= x + l * n <= lo + TWO_63 - 1
    requires lo <= x + (v / 2) * n
    requires v % 2 == 1 ==> x + (v / 2) * n <= lo + TWO_63 - 2
    requires v % 2 == 0 && v > 0 ==> x + (v / 2) * n <= lo + TWO_63 - 2 + n
    ensures 2 * l + 1 < v + 2 * h
    ensures v < 2 * l + (if n == 1 then 2 * h else 4 * h)
  {
    var k := v / 2;
    LapsAbove(l, k, n, h, x, lo);
    if v % 2 == 1 {
      LapsAbove(k, l, n, h, x, lo);
    } else if v > 0 {
      assert k * n == (k - 1) * n + n;
      LapsAbove(k - 1, l, n, h, x, lo);
    }
    if n == 1 {
      assert x + k * 1 == x + k && x + l * 1 == x + l && h * 1 == h;
    }
  }

  /** While nobody lags, comparing stored turns says what comparing unbounded turns would. */
  lemma SeesTurn<T>(s: State<T>, lo: nat, t: nat, c: uint64)
    requires Inv(s) && Within(s, lo) && s.cap == c as nat && c > 0 && And(c as nat, c as nat - 1) == 0
    requires lo <= t < lo + TWO_63
    ensures WrapTurn(2 * Lap(t, s.cap), s.cap) == WrapTurn(TurnAt(s, t), s.cap) <==> 2 * Lap(t, s.cap) == TurnAt(s, t)
    ensures WrapTurn(2 * Lap(t, s.cap) + 1, s.cap) == WrapTurn(TurnAt(s, t), s.cap)
        <==> 2 * Lap(t, s.cap) + 1 == TurnAt(s, t)
  {
    var n := s.cap;
    var x, l, v := Ix(t, n), Lap(t, n), TurnAt(s, t);
    PendingTicket(s, lo, x);
    TicketValue(x, v / 2, n);
    TicketValue(x, l, n);
    GapToldApart(v, x, l, lo, c);
  }

  lemma GapToldApart(v: nat, x: nat, l: nat, lo: nat, c: uint64)
    requires c > 0 && And(c as nat, c as nat - 1) == 0
    requires lo <= x + l * (c as nat) <= lo + TWO_63 - 1
    requires lo <= x + (v / 2) * (c as nat)
    requires v % 2 == 1 ==> x + (v / 2) * (c as nat) <= lo + TWO_63 - 2
    requires v % 2 == 0 && v > 0 ==> x + (v / 2) * (c as nat) <= lo + TWO_63 - 2 + (c as nat)
    ensures WrapTurn(2 * l, c as nat) == WrapTurn(v, c as nat) <==> 2 * l == v
    ensures WrapTurn(2 * l + 1, c as nat) == WrapTurn(v, c as nat) <==> 2 * l + 1 == v
  {
    var h := CapacityDivides(c as nat);
    PeriodIs(c, h);
    TurnGap(v, x, l, c as nat, h, lo);
    TurnsToldApart(2 * l, v, c);
    TurnsToldApart(2 * l + 1, v, c);
  }

  /** The bound is needed: with one slot, turns repeat every 2^63 tickets. */
  lemma TurnsRepeat(t: nat)
    ensures FreeTurn(Wrap(t), 1) == FreeTurn(Wrap(t + TWO_63), 1)
    ensures Lap(t, 1) != Lap(t + TWO_63, 1)
  {
    assert And(1, 0) == 0;
    TurnsAgree(t, 1);
    TurnsAgree(t + TWO_63, 1);
    LapIsQuotient(t, 1);
    LapIsQuotient(t + TWO_63, 1);
    ModShift(1, TWO_64, 2 * t);
  }

  // ---------------------------------------------------------------- memory

  datatype WordSlot<T> = WordSlot(turn: uint64, cell: Cell<T>)

  type WordPc<T> = PcOf<T, uint64>

  function StoredSlot<T>(slot: Slot<T>, c: nat): WordSlot<T>
    requires 0 < c <= TWO_64
  {
    WordSlot(WrapTurn(slot.turn, c), slot.cell)
  }

  function StoredPc<T>(pc: Pc<T>): WordPc<T>
  {
    match pc
    case Idle => Idle
    case PushWait(f, items, k) => PushWait(Wrap(f), items, k)
    case PushBuild(f, items, k) => PushBuild(Wrap(f), items, k)
    case PushPublish(f, items, k) => PushPublish(Wrap(f), items, k)
    case TryPushLoad(v) => TryPushLoad(v)
    case TryPushCheck(v, c) => TryPushCheck(v, Wrap(c))
    case TryPushCas(v, c) => TryPushCas(v, Wrap(c))
    case TryPushReload(v, c) => TryPushReload(v, Wrap(c))
    case PopWait(t) => PopWait(Wrap(t))
    case TakeMove(t, m) => TakeMove(Wrap(t), m)
    case TakeDestroy(t, m) => TakeDestroy(Wrap(t), m)
    case TakeRelease(t, m) => TakeRelease(Wrap(t), m)
    case TakeLoad(m) => TakeLoad(m)
    case TakeCheck(c, m) => TakeCheck(Wrap(c), m)
    case TakeCas(c, m) => TakeCas(Wrap(c), m)
    case TakeReload(c, m) => TakeReload(Wrap(c), m)
  }

  /** The queue's memory and the registers of the threads using it. */
  datatype Words<T> = Words(
    cap: uint64,
    head: uint64,
    tail: uint64,
    slots: seq<WordSlot<T>>,
    regs: seq<WordPc<T>>)

  ghost predicate WordShape<T>(w: Words<T>)
  {
    w.cap > 0 && And(w.cap as nat, w.cap as nat - 1) == 0 && |w.slots| == w.cap as nat
  }

  /** The memory that stands for an unbounded state. */
  function Stored<T>(s: State<T>): Words<T>
    requires 0 < s.cap < TWO_64
  {
    Words(s.cap as uint64, Wrap(s.head), Wrap(s.tail),
          seq(|s.slots|, x requires 0 <= x < |s.slots| => StoredSlot(s.slots[x], s.cap)),
          seq(|s.pcs|, i requires 0 <= i < |s.pcs| => StoredPc(s.pcs[i])))
  }

  // ---------------------------------------------------------------- the code's steps, in uint64

  function SlotIndex<T>(w: Words<T>, ticket: uint64): (r: nat)
    requires WordShape(w)
    ensures r < |w.slots|
  {
    IndexInRange(ticket, w.cap);
    Index(ticket, w.cap)
  }

  lemma IndexInRange(ticket: uint64, c: uint64)
    requires c > 0 && And(c as nat, c as nat - 1) == 0
    ensures Index(ticket, c) < c as nat
  {
    CapacityAssertion(c as nat);
    MaskIsRemainder(ticket as nat, c as nat);
    var q, r := Division(ticket as nat, c as nat);
  }

  function At<T>(w: Words<T>, ticket: uint64): WordSlot<T>
    requires WordShape(w)
  {
    w.slots[SlotIndex(w, ticket)]
  }

  function Put<T>(w: Words<T>, ticket: uint64, slot: WordSlot<T>): Words<T>
    requires WordShape(w)
  {
    w.(slots := w.slots[SlotIndex(w, ticket) := slot])
  }

  function Goto<T>(w: Words<T>, i: nat, pc: WordPc<T>): Words<T>
    requires i < |w.regs|
  {
    w.(regs := w.regs[i := pc])
  }

  function WordBegin<T>(w: Words<T>, i: nat, call: Call<T>): Words<T>
    requires i < |w.regs|
  {
    match call
    case Push(items) =>
      Goto(w.(head := Add(w.head, |items|)), i, if items != [] then PushWait(w.head, items, 0) else Idle)
    case TryPush(item) => Goto(w, i, TryPushLoad(item))
    case Pop => Goto(w.(tail := Add(w.tail, 1)), i, PopWait(w.tail))
    case TryPop => Goto(w, i, TakeLoad(Once))
    case TakeAll => Goto(w, i, TakeLoad(Greedy(0)))
  }

  /** The next atomic step of thread i, in the code's own arithmetic. */
  function WordStep<T>(w: Words<T>, i: nat, call: Call<T>): Words<T>
    requires WordShape(w)
  {
    if i >= |w.regs| then w else
    match w.regs[i]
    case Idle => WordBegin(w, i, call)

    case PushWait(f, items, k) =>
      if FreeTurn(Add(f, k), w.cap) == At(w, Add(f, k)).turn then Goto(w, i, PushBuild(f, items, k)) else w
    case PushBuild(f, items, k) =>
      if k >= |items| then w else
      Goto(Put(w, Add(f, k), At(w, Add(f, k)).(cell := Live(items[k]))), i, PushPublish(f, items, k))
    case PushPublish(f, items, k) =>
      Goto(Put(w, Add(f, k), At(w, Add(f, k)).(turn := FilledTurn(Add(f, k), w.cap))), i,
           if k + 1 < |items| then PushWait(f, items, k + 1) else Idle)

    case TryPushLoad(v) => Goto(w, i, TryPushCheck(v, w.head))
    case TryPushCheck(v, c) =>
      Goto(w, i, if FreeTurn(c, w.cap) == At(w, c).turn then TryPushCas(v, c) else TryPushReload(v, c))
    case TryPushCas(v, c) =>
      if w.head == c
      then Goto(w.(head := Add(c, 1)), i, PushBuild(c, [v], 0))
      else Goto(w, i, TryPushCheck(v, w.head))
    case TryPushReload(v, c) => Goto(w, i, if w.head == c then Idle else TryPushCheck(v, c))

    case PopWait(t) =>
      if FilledTurn(t, w.cap) == At(w, t).turn then Goto(w, i, TakeMove(t, Blocking)) else w

    case TakeMove(t, m) => if At(w, t).cell.Dead? then w else Goto(w, i, TakeDestroy(t, m))
    case TakeDestroy(t, m) => Goto(Put(w, t, At(w, t).(cell := Dead)), i, TakeRelease(t, m))
    case TakeRelease(t, m) =>
      Goto(Put(w, t, At(w, t).(turn := NextTurn(t, w.cap))), i,
           if m.Greedy? then TakeCheck(Add(t, 1), Greedy(m.count + 1)) else Idle)

    case TakeLoad(m) => Goto(w, i, TakeCheck(w.tail, m))
    case TakeCheck(c, m) =>
      Goto(w, i, if FilledTurn(c, w.cap) == At(w, c).turn then TakeCas(c, m) else TakeReload(c, m))
    case TakeCas(c, m) =>
      if w.tail == c
      then Goto(w.(tail := Add(c, 1)), i, TakeMove(c, m))
      else Goto(w, i, TakeCheck(w.tail, m))
    case TakeReload(c, m) =>
      if w.tail == c then Goto(w, i, Idle) else Goto(w, i, TakeCheck(if m.Greedy? then w.tail else c, m))
  }

  // ---------------------------------------------------------------- refinement

  lemma StoredGoto<T>(s: State<T>, i: nat, pc: Pc<T>)
    requires 0 < s.cap < TWO_64 && i < |s.pcs|
    ensures Stored(WithPc(s, i, pc)) == Goto(Stored(s), i, StoredPc(pc))
  {
  }

  ghost predicate Storable<T>(s: State<T>)
  {
    Shape(s) && 0 < s.cap < TWO_64 && And(s.cap, s.cap - 1) == 0
  }

  lemma StoredShape<T>(s: State<T>)
    requires Storable(s)
    ensures WordShape(Stored(s))
  {
  }

  lemma StoredAt<T>(s: State<T>, t: nat)
    requires Storable(s) && WordShape(Stored(s))
    ensures SlotIndex(Stored(s), Wrap(t)) == Ix(t, s.cap)
    ensures At(Stored(s), Wrap(t)) == StoredSlot(SlotOf(s, t), s.cap)
  {
    IndexAgrees(t, s.cap as uint64);
  }

  lemma StoredPut<T>(s: State<T>, t: nat, slot: Slot<T>)
    requires Storable(s) && WordShape(Stored(s))
    ensures Stored(WithSlot(s, t, slot)) == Put(Stored(s), Wrap(t), StoredSlot(slot, s.cap))
  {
    StoredAt(s, t);
  }

  lemma AddWraps(t: nat, k: nat)
    ensures Add(Wrap(t), k) == Wrap(t + k)
  {
  }

  lemma RefineBegin<T>(s: State<T>, i: nat, call: Call<T>)
    requires Inv(s) && Storable(s) && i < |s.pcs| && s.pcs[i].Idle?
    ensures WordBegin(Stored(s), i, call) == Stored(Begin(s, i, call))
  {
    hide Wrap, Add, And, WrapTurn, Inv;
    var r := Begin(s, i, call);
    AddWraps(s.head, |r.issued| - |s.issued|);
    AddWraps(s.tail, 1);
    StoredGoto(s.(head := r.head, tail := r.tail, issued := r.issued), i, r.pcs[i]);
  }

  lemma RefinePushWait<T>(s: State<T>, i: nat, call: Call<T>, lo: nat)
    requires Inv(s) && Storable(s) && WordShape(Stored(s)) && Within(s, lo)
    requires i < |s.pcs| && s.pcs[i].PushWait?
    ensures WordStep(Stored(s), i, call) == Stored(Step(s, i, call))
  {
    hide FreeTurn, FilledTurn, NextTurn, Wrap, Add, Index, SlotIndex, WrapTurn, TurnOf, And;
    var w := Stored(s);
    assert PcOk(s, s.pcs[i]) && PcFrom(s.pcs[i], lo);
    var PushWait(f, items, k) := s.pcs[i];
    AddWraps(f, k);
    StoredAt(s, f + k);
    TurnsAgree(f + k, w.cap);
    SeesTurn(s, lo, f + k, w.cap);
    StoredGoto(s, i, PushBuild(f, items, k));
  }

  lemma RefinePushBuild<T>(s: State<T>, i: nat, call: Call<T>)
    requires Inv(s) && Storable(s) && WordShape(Stored(s))
    requires i < |s.pcs| && s.pcs[i].PushBuild?
    ensures WordStep(Stored(s), i, call) == Stored(Step(s, i, call))
  {
    hide FreeTurn, FilledTurn, NextTurn, Wrap, Add, Index, SlotIndex, WrapTurn, TurnOf, And;
    var w := Stored(s);
    assert PcOk(s, s.pcs[i]);
    var PushBuild(f, items, k) := s.pcs[i];
    AddWraps(f, k);
    StoredAt(s, f + k);
    var slot := SlotOf(s, f + k).(cell := Live(items[k]));
    StoredPut(s, f + k, slot);
    StoredGoto(WithSlot(s, f + k, slot), i, PushPublish(f, items, k));
  }

  lemma RefinePushPublish<T>(s: State<T>, i: nat, call: Call<T>)
    requires Inv(s) && Storable(s) && WordShape(Stored(s))
    requires i < |s.pcs| && s.pcs[i].PushPublish?
    ensures WordStep(Stored(s), i, call) == Stored(Step(s, i, call))
  {
    hide FreeTurn, FilledTurn, NextTurn, Wrap, Add, Index, SlotIndex, WrapTurn, TurnOf, And;
    var w := Stored(s);
    assert PcOk(s, s.pcs[i]);
    var PushPublish(f, items, k) := s.pcs[i];
    AddWraps(f, k);
    StoredAt(s, f + k);
    TurnsAgree(f + k, w.cap);
    var slot := SlotOf(s, f + k).(turn := 2 * Lap(f + k, s.cap) + 1);
    StoredPut(s, f + k, slot);
    StoredGoto(WithSlot(s, f + k, slot), i, NextPush(f, items, k + 1));
  }

  lemma RefineTryPush<T>(s: State<T>, i: nat, call: Call<T>, lo: nat)
    requires Inv(s) && Storable(s) && WordShape(Stored(s)) && Within(s, lo)
    requires i < |s.pcs| && (s.pcs[i].TryPushLoad? || s.pcs[i].TryPushCheck? || s.pcs[i].TryPushReload?)
    ensures WordStep(Stored(s), i, call) == Stored(Step(s, i, call))
  {
    hide FreeTurn, FilledTurn, NextTurn, Wrap, Add, Index, SlotIndex, WrapTurn, TurnOf, And;
    var w := Stored(s);
    assert PcOk(s, s.pcs[i]) && PcFrom(s.pcs[i], lo);
    var r := Step(s, i, call);
    StoredGoto(s, i, r.pcs[i]);
    match s.pcs[i] {
      case TryPushLoad(v) =>
      case TryPushCheck(v, c) =>
        StoredAt(s, c);
        TurnsAgree(c, w.cap);
        SeesTurn(s, lo, c, w.cap);
      case TryPushReload(v, c) =>
        TicketsToldApart(s.head, c);
    }
  }

  lemma RefineTryPushCas<T>(s: State<T>, i: nat, call: Call<T>, lo: nat)
    requires Inv(s) && Storable(s) && WordShape(Stored(s)) && Within(s, lo)
    requires i < |s.pcs| && s.pcs[i].TryPushCas?
    ensures WordStep(Stored(s), i, call) == Stored(Step(s, i, call))
  {
    hide FreeTurn, FilledTurn, NextTurn, Wrap, Add, Index, SlotIndex, WrapTurn, TurnOf, And;
    var w := Stored(s);
    assert PcOk(s, s.pcs[i]) && PcFrom(s.pcs[i], lo);
    var TryPushCas(v, c) := s.pcs[i];
    var r := Step(s, i, call);
    TicketsToldApart(s.head, c);
    AddWraps(c, 1);
    StoredGoto(s.(head := r.head, issued := r.issued), i, r.pcs[i]);
  }

  lemma RefinePopWait<T>(s: State<T>, i: nat, call: Call<T>, lo: nat)
    requires Inv(s) && Storable(s) && WordShape(Stored(s)) && Within(s, lo)
    requires i < |s.pcs| && s.pcs[i].PopWait?
    ensures WordStep(Stored(s), i, call) == Stored(Step(s, i, call))
  {
    hide FreeTurn, FilledTurn, NextTurn, Wrap, Add, Index, SlotIndex, WrapTurn, TurnOf, And;
    var w := Stored(s);
    assert PcOk(s, s.pcs[i]) && PcFrom(s.pcs[i], lo);
    var t := s.pcs[i].ticket;
    var r := Step(s, i, call);
    StoredAt(s, t);
    TurnsAgree(t, w.cap);
    SeesTurn(s, lo, t, w.cap);
    StoredGoto(s, i, r.pcs[i]);
  }

  lemma RefineTakeSlot<T>(s: State<T>, i: nat, call: Call<T>)
    requires Inv(s) && Storable(s) && WordShape(Stored(s))
    requires i < |s.pcs| && (s.pcs[i].TakeMove? || s.pcs[i].TakeDestroy?)
    ensures WordStep(Stored(s), i, call) == Stored(Step(s, i, call))
  {
    hide FreeTurn, FilledTurn, NextTurn, Wrap, Add, Index, SlotIndex, WrapTurn, TurnOf, And;
    var w := Stored(s);
    assert PcOk(s, s.pcs[i]);
    var t := s.pcs[i].ticket;
    var r := Step(s, i, call);
    StoredAt(s, t);
    match s.pcs[i] {
      case TakeMove(_, m) =>
        StoredGoto(s.(log := r.log), i, r.pcs[i]);
      case TakeDestroy(_, m) =>
        var slot := SlotOf(s, t).(cell := Dead);
        StoredPut(s, t, slot);
        StoredGoto(WithSlot(s, t, slot), i, r.pcs[i]);
    }
  }

  lemma RefineTakeRelease<T>(s: State<T>, i: nat, call: Call<T>)
    requires Inv(s) && Storable(s) && WordShape(Stored(s))
    requires i < |s.pcs| && s.pcs[i].TakeRelease?
    ensures WordStep(Stored(s), i, call) == Stored(Step(s, i, call))
  {
    hide FreeTurn, FilledTurn, NextTurn, Wrap, Add, Index, SlotIndex, WrapTurn, TurnOf, And;
    var w := Stored(s);
    assert PcOk(s, s.pcs[i]);
    var TakeRelease(t, m) := s.pcs[i];
    StoredAt(s, t);
    TurnsAgree(t, w.cap);
    AddWraps(t, 1);
    var slot := SlotOf(s, t).(turn := 2 * Lap(t, s.cap) + 2);
    StoredPut(s, t, slot);
    StoredGoto(WithSlot(s, t, slot), i, AfterTake(t, m));
  }

  lemma RefineTryTake<T>(s: State<T>, i: nat, call: Call<T>, lo: nat)
    requires Inv(s) && Storable(s) && WordShape(Stored(s)) && Within(s, lo)
    requires i < |s.pcs| && (s.pcs[i].TakeLoad? || s.pcs[i].TakeCheck? || s.pcs[i].TakeReload?)
    ensures WordStep(Stored(s), i, call) == Stored(Step(s, i, call))
  {
    hide FreeTurn, FilledTurn, NextTurn, Wrap, Add, Index, SlotIndex, WrapTurn, TurnOf, And;
    var w := Stored(s);
    assert PcOk(s, s.pcs[i]) && PcFrom(s.pcs[i], lo);
    var r := Step(s, i, call);
    StoredGoto(s, i, r.pcs[i]);
    match s.pcs[i] {
      case TakeLoad(m) =>
      case TakeCheck(c, m) =>
        StoredAt(s, c);
        TurnsAgree(c, w.cap);
        SeesTurn(s, lo, c, w.cap);
      case TakeReload(c, m) =>
        TicketsToldApart(s.tail, c);
    }
  }

  lemma RefineTakeCas<T>(s: State<T>, i: nat, call: Call<T>, lo: nat)
    requires Inv(s) && Storable(s) && WordShape(Stored(s)) && Within(s, lo)
    requires i < |s.pcs| && s.pcs[i].TakeCas?
    ensures WordStep(Stored(s), i, call) == Stored(Step(s, i, call))
  {
    hide FreeTurn, FilledTurn, NextTurn, Wrap, Add, Index, SlotIndex, WrapTurn, TurnOf, And;
    var w := Stored(s);
    assert PcOk(s, s.pcs[i]) && PcFrom(s.pcs[i], lo);
    var TakeCas(c, m) := s.pcs[i];
    var r := Step(s, i, call);
    TicketsToldApart(s.tail, c);
    AddWraps(c, 1);
    StoredGoto(s.(tail := r.tail), i, r.pcs[i]);
  }

  /** While nobody lags, one step of the code in uint64 is one step of the unbounded queue. */
  lemma StepRefines<T>(s: State<T>, i: nat, call: Call<T>)
    requires Inv(s) && Storable(s) && NoLag(s)
    ensures WordShape(Stored(s))
    ensures WordStep(Stored(s), i, call) == Stored(Step(s, i, call))
  {
    StoredShape(s);
    var lo :| Within(s, lo);
    hide Step, WordStep, Inv, Stored;
    if i >= |s.pcs| {
      IdleStep(s, i, call);
    } else if s.pcs[i].Idle? {
      IdleStep(s, i, call);
    } else if s.pcs[i].PushWait? {
      RefinePushWait(s, i, call, lo);
    } else if s.pcs[i].PushBuild? {
      RefinePushBuild(s, i, call);
    } else if s.pcs[i].PushPublish? {
      RefinePushPublish(s, i, call);
    } else if s.pcs[i].TryPushLoad? || s.pcs[i].TryPushCheck? || s.pcs[i].TryPushReload? {
      RefineTryPush(s, i, call, lo);
    } else if s.pcs[i].TryPushCas? {
      RefineTryPushCas(s, i, call, lo);
    } else if s.pcs[i].PopWait? {
      RefinePopWait(s, i, call, lo);
    } else if s.pcs[i].TakeMove? || s.pcs[i].TakeDestroy? {
      RefineTakeSlot(s, i, call);
    } else if s.pcs[i].TakeRelease? {
      RefineTakeRelease(s, i, call);
    } else if s.pcs[i].TakeCas? {
      RefineTakeCas(s, i, call, lo);
    } else {
      RefineTryTake(s, i, call, lo);
    }
  }

  lemma IdleStep<T>(s: State<T>, i: nat, call: Call<T>)
    requires Inv(s) && Storable(s) && WordShape(Stored(s))
    requires i >= |s.pcs| || s.pcs[i].Idle?
    ensures WordStep(Stored(s), i, call) == Stored(Step(s, i, call))
  {
    if i < |s.pcs| {
      RefineBegin(s, i, call);
      hide Begin, WordBegin;
      assert Stored(s).regs[i].Idle?;
    }
  }

  function WordExec<T>(w: Words<T>, schedule: seq<Choice<T>>): (r: Words<T>)
    requires WordShape(w)
    ensures WordShape(r)
  {
    if schedule == [] then w else
    var last := schedule[|schedule| - 1];
    WordStep(WordExec(w, schedule[..|schedule| - 1]), last.thread, last.call)
  }

  /** The uint64 queue simulates the unbounded one along every run in which no thread ever lags 2^63
      tickets behind, however often the counters and the turns wrap around. */
  lemma {:induction false} ExecRefines<T>(cap: uint64, threads: nat, schedule: seq<Choice<T>>)
    requires cap > 0 && And(cap as nat, cap as nat - 1) == 0
    requires forall k {:trigger schedule[..k]} :: 0 <= k < |schedule| ==> NoLag(Run(cap as nat, threads, schedule[..k]))
    ensures Storable(Run(cap as nat, threads, schedule))
    ensures WordShape(Stored(Init<T>(cap as nat, threads)))
    ensures WordExec(Stored(Init(cap as nat, threads)), schedule) == Stored(Run(cap as nat, threads, schedule))
  {
    StoredShape(Init<T>(cap as nat, threads));
    CapKept(cap as nat, threads, schedule);
    if schedule != [] {
      var before := schedule[..|schedule| - 1];
      forall k | 0 <= k < |before| ensures NoLag(Run(cap as nat, threads, before[..k])) {
        assert before[..k] == schedule[..k];
      }
      ExecRefines(cap, threads, before);
      CapKept(cap as nat, threads, before);
      RunInv(cap as nat, threads, before);
      var last := schedule[|schedule| - 1];
      assert NoLag(Run(cap as nat, threads, before));
      StepRefines(Run(cap as nat, threads, before), last.thread, last.call);
    }
  }
}
