/** What every step of the queue keeps, from any number of threads and for any capacity. */
module QueueInvariant {
  import opened QueueMachine

  ghost predicate Published<T>(s: State<T>, t: nat)
    requires Shape(s)
  {
    TurnAt(s, t) > 2 * Lap(t, s.cap)
  }

  ghost predicate Released<T>(s: State<T>, t: nat)
    requires Shape(s)
  {
    TurnAt(s, t) > 2 * Lap(t, s.cap) + 1
  }

  /** The thread at pc has claimed producer ticket t and not yet published it. */
  ghost predicate HoldsPush<T>(pc: Pc<T>, t: nat)
  {
    (pc.PushWait? || pc.PushBuild? || pc.PushPublish?) && pc.first + pc.k <= t < pc.first + |pc.items|
  }

  /** The thread at pc has claimed consumer ticket t and not yet released it. */
  ghost predicate HoldsTake<T>(pc: Pc<T>, t: nat)
  {
    (pc.PopWait? || pc.TakeMove? || pc.TakeDestroy? || pc.TakeRelease?) && pc.ticket == t
  }

  /** What is known of the shared state while a thread is at pc. */
  ghost predicate PcOk<T>(s: State<T>, pc: Pc<T>)
    requires Shape(s)
  {
    match pc
    case Idle => true
    case PushWait(f, items, k) => PushOk(s, f, items, k)
    case PushBuild(f, items, k) =>
      && PushOk(s, f, items, k)
      && SlotOf(s, f + k) == Slot(2 * Lap(f + k, s.cap), Dead)
    case PushPublish(f, items, k) =>
      && PushOk(s, f, items, k)
      && SlotOf(s, f + k) == Slot(2 * Lap(f + k, s.cap), Live(items[k]))
    case TryPushLoad(_) => true
    case TryPushCheck(_, c) => c <= s.head
    case TryPushCas(_, c) => c <= s.head && TurnAt(s, c) >= 2 * Lap(c, s.cap)
    case TryPushReload(_, c) => c <= s.head
    case PopWait(t) => t < s.tail && !Released(s, t)
    case TakeMove(t, _) =>
      t < s.tail && t < |s.issued| && SlotOf(s, t) == Slot(2 * Lap(t, s.cap) + 1, Live(s.issued[t]))
    case TakeDestroy(t, _) =>
      t < s.tail && t < |s.issued| && SlotOf(s, t) == Slot(2 * Lap(t, s.cap) + 1, Live(s.issued[t]))
    case TakeRelease(t, _) => t < s.tail && SlotOf(s, t) == Slot(2 * Lap(t, s.cap) + 1, Dead)
    case TakeLoad(_) => true
    case TakeCheck(c, _) => c <= s.tail
    case TakeCas(c, _) => c <= s.tail && Published(s, c)
    case TakeReload(c, _) => c <= s.tail
  }

  /** A producer's tickets carry its items, in order, and are still unpublished from the k-th on. */
  ghost predicate PushOk<T>(s: State<T>, f: nat, items: seq<T>, k: nat)
    requires Shape(s)
  {
    && k < |items|
    && f + |items| <= s.head == |s.issued|
    && (forall j :: f <= j < f + |items| ==> s.issued[j] == items[j - f])
    && (forall t: nat {:trigger Published(s, t)} :: f + k <= t < f + |items| ==> !Published(s, t))
  }

  ghost predicate PcsOk<T>(s: State<T>)
    requires Shape(s)
  {
    forall i {:trigger PcOk(s, s.pcs[i])} :: 0 <= i < |s.pcs| ==> PcOk(s, s.pcs[i])
  }

  /** No ticket is held by two threads. */
  ghost predicate Exclusive<T>(s: State<T>)
  {
    && (forall i, j, t {:trigger HoldsPush(s.pcs[i], t), HoldsPush(s.pcs[j], t)} ::
          0 <= i < |s.pcs| && 0 <= j < |s.pcs| && HoldsPush(s.pcs[i], t) && HoldsPush(s.pcs[j], t) ==> i == j)
    && (forall i, j, t {:trigger HoldsTake(s.pcs[i], t), HoldsTake(s.pcs[j], t)} ::
          0 <= i < |s.pcs| && 0 <= j < |s.pcs| && HoldsTake(s.pcs[i], t) && HoldsTake(s.pcs[j], t) ==> i == j)
  }

  ghost predicate SomePush<T>(s: State<T>, t: nat)
  {
    exists i :: 0 <= i < |s.pcs| && HoldsPush(s.pcs[i], t)
  }

  ghost predicate SomeTake<T>(s: State<T>, t: nat)
  {
    exists i :: 0 <= i < |s.pcs| && HoldsTake(s.pcs[i], t)
  }

  /** Every claimed ticket is finished or held by some thread; no unclaimed ticket is finished. */
  ghost predicate Accounted<T>(s: State<T>)
    requires Shape(s)
  {
    && |s.issued| == s.head
    && (forall t: nat {:trigger SomePush(s, t)} :: if t < s.head then Published(s, t) || SomePush(s, t)
        else !Published(s, t))
    && (forall t: nat {:trigger SomeTake(s, t)} :: if t < s.tail then Released(s, t) || SomeTake(s, t)
        else !Released(s, t))
  }

  ghost predicate Filling<T>(s: State<T>, t: nat)
  {
    exists i :: 0 <= i < |s.pcs| && s.pcs[i].PushPublish? && s.pcs[i].first + s.pcs[i].k == t
  }

  ghost predicate Emptying<T>(s: State<T>, t: nat)
  {
    exists i :: 0 <= i < |s.pcs| && s.pcs[i].TakeRelease? && s.pcs[i].ticket == t
  }

  /** A slot holds its ticket's value from publication to release and nothing in between laps. */
  ghost predicate CellOk<T>(s: State<T>, t: nat)
    requires Shape(s)
  {
    && (Published(s, t) && !Released(s, t) && !Emptying(s, t) ==>
        t < |s.issued| && SlotOf(s, t).cell == Live(s.issued[t]))
    && (TurnAt(s, t) == 2 * Lap(t, s.cap) && !Filling(s, t) ==> SlotOf(s, t).cell == Dead)
  }

  ghost predicate CellsOk<T>(s: State<T>)
    requires Shape(s)
  {
    forall t: nat {:trigger CellOk(s, t)} :: CellOk(s, t)
  }

  ghost predicate Logged<T>(s: State<T>, t: nat)
  {
    exists k :: 0 <= k < |s.log| && s.log[k].ticket == t
  }

  /** The thread at pc holds consumer ticket t and has not moved its value out yet. */
  ghost predicate Unmoved<T>(pc: Pc<T>, t: nat)
  {
    HoldsTake(pc, t) && (pc.PopWait? || pc.TakeMove?)
  }

  /** What was moved out is what was put in, once per ticket. */
  ghost predicate LogOk<T>(s: State<T>)
    requires Shape(s)
  {
    && (forall k :: 0 <= k < |s.log| ==>
          s.log[k].ticket < s.tail && s.log[k].ticket < |s.issued| && s.log[k].value == s.issued[s.log[k].ticket])
    && (forall k, l :: 0 <= k < l < |s.log| ==> s.log[k].ticket != s.log[l].ticket)
    && (forall i, t {:trigger Unmoved(s.pcs[i], t)} :: 0 <= i < |s.pcs| && HoldsTake(s.pcs[i], t) ==>
        (Logged(s, t) <==> !Unmoved(s.pcs[i], t)))
    && (forall t: nat {:trigger Logged(s, t)} :: Released(s, t) ==> Logged(s, t))
  }

  ghost predicate Inv<T>(s: State<T>)
  {
    && Shape(s)
    && PcsOk(s)
    && Exclusive(s)
    && Accounted(s)
    && CellsOk(s)
    && LogOk(s)
  }

  lemma InitInv<T>(cap: nat, threads: nat)
    requires cap > 0
    ensures Inv(Init<T>(cap, threads))
  {
    var s := Init<T>(cap, threads);
    forall t: nat ensures !Published(s, t) && !Released(s, t) && CellOk(s, t) {
      assert SlotOf(s, t) == Slot(0, Dead);
    }
  }

  /** The thread at pc has seen its turn for ticket t and has not yet stored the next one. */
  ghost predicate Accesses<T>(pc: Pc<T>, t: nat)
  {
    || ((pc.PushBuild? || pc.PushPublish?) && t == pc.first + pc.k)
    || ((pc.TakeMove? || pc.TakeDestroy? || pc.TakeRelease?) && t == pc.ticket)
  }

  lemma AccessTurn<T>(s: State<T>, pc: Pc<T>, t: nat)
    requires Shape(s) && PcOk(s, pc) && Accesses(pc, t)
    ensures if HoldsPush(pc, t) then TurnAt(s, t) == 2 * Lap(t, s.cap)
        else HoldsTake(pc, t) && TurnAt(s, t) == 2 * Lap(t, s.cap) + 1
  {
  }

  /** Two threads never work on the storage of one slot at the same time. */
  lemma ExclusiveAccess<T>(s: State<T>, i: nat, j: nat, t: nat, u: nat)
    requires Inv(s)
    requires i < |s.pcs| && j < |s.pcs| && i != j
    requires Accesses(s.pcs[i], t) && Accesses(s.pcs[j], u)
    ensures Ix(t, s.cap) != Ix(u, s.cap)
  {
    AccessTurn(s, s.pcs[i], t);
    AccessTurn(s, s.pcs[j], u);
    assert t != u;
  }

  /** Growth of the counters alone disturbs nobody. */
  lemma GrowthKeepsPc<T>(s: State<T>, r: State<T>, pc: Pc<T>)
    requires Shape(s) && PcOk(s, pc)
    requires r.cap == s.cap && r.slots == s.slots && s.head <= r.head && s.tail <= r.tail
    requires s.issued <= r.issued && |r.issued| == r.head
    ensures PcOk(r, pc)
  {
    if (pc.PushWait? || pc.PushBuild? || pc.PushPublish?) {
      forall t: nat | pc.first + pc.k <= t < pc.first + |pc.items| ensures !Published(r, t) {
        assert !Published(s, t);
      }
    }
  }

  /** The state after thread i, at work on ticket t, overwrote its slot and went on to pc. */
  ghost function Overwrite<T>(s: State<T>, i: nat, t: nat, slot: Slot<T>, pc: Pc<T>): (r: State<T>)
    requires Shape(s) && i < |s.pcs|
    ensures Shape(r)
  {
    WithPc(WithSlot(s, t, slot), i, pc)
  }

  ghost predicate MayOverwrite<T>(s: State<T>, i: nat, t: nat, slot: Slot<T>)
    requires Shape(s) && i < |s.pcs|
  {
    && Accesses(s.pcs[i], t)
    && slot.turn == TurnAt(s, t) + (if s.pcs[i].PushPublish? || s.pcs[i].TakeRelease? then 1 else 0)
  }

  lemma OverwriteFrame<T>(s: State<T>, i: nat, t: nat, slot: Slot<T>, pc: Pc<T>)
    requires Inv(s) && i < |s.pcs| && MayOverwrite(s, i, t, slot)
    ensures var r := Overwrite(s, i, t, slot, pc);
            && (forall u: nat {:trigger Published(r, u)} ::
                  Published(r, u) <==> Published(s, u) || (s.pcs[i].PushPublish? && u == t))
            && (forall u: nat {:trigger Released(r, u)} ::
                  Released(r, u) <==> Released(s, u) || (s.pcs[i].TakeRelease? && u == t))
            && (forall u: nat {:trigger SlotOf(r, u)} :: SlotOf(r, u) == if Ix(u, s.cap) == Ix(t, s.cap) then slot
                else SlotOf(s, u))
  {
    assert PcOk(s, s.pcs[i]);
  }

  lemma OverwriteKeepsPush<T>(s: State<T>, i: nat, t: nat, slot: Slot<T>, pc: Pc<T>, j: nat)
    requires Inv(s) && i < |s.pcs| && MayOverwrite(s, i, t, slot)
    requires j < |s.pcs| && j != i
    requires s.pcs[j].PushWait? || s.pcs[j].PushBuild? || s.pcs[j].PushPublish?
    ensures PcOk(Overwrite(s, i, t, slot, pc), s.pcs[j])
  {
    var r := Overwrite(s, i, t, slot, pc);
    var other := s.pcs[j];
    assert PcOk(s, other);
    forall u: nat | other.first + other.k <= u < other.first + |other.items| ensures !Published(r, u) {
      OverwriteFrame(s, i, t, slot, pc);
      assert HoldsPush(other, u) && !Published(s, u);
      assert PcOk(s, s.pcs[i]);
      assert s.pcs[i].PushPublish? ==> HoldsPush(s.pcs[i], t);
    }
    if !other.PushWait? {
      ExclusiveAccess(s, i, j, t, other.first + other.k);
    }
  }

  lemma OverwriteKeepsTake<T>(s: State<T>, i: nat, t: nat, slot: Slot<T>, pc: Pc<T>, j: nat)
    requires Inv(s) && i < |s.pcs| && MayOverwrite(s, i, t, slot)
    requires j < |s.pcs| && j != i
    requires !s.pcs[j].PushWait? && !s.pcs[j].PushBuild? && !s.pcs[j].PushPublish?
    ensures PcOk(Overwrite(s, i, t, slot, pc), s.pcs[j])
  {
    var other := s.pcs[j];
    assert PcOk(s, other);
    if other.TakeMove? || other.TakeDestroy? || other.TakeRelease? {
      ExclusiveAccess(s, i, j, t, other.ticket);
    } else {
      OverwriteFrame(s, i, t, slot, pc);
      if other.PopWait? && s.pcs[i].TakeRelease? {
        assert HoldsTake(other, other.ticket) && HoldsTake(s.pcs[i], t);
      }
    }
  }

  lemma OverwriteKeepsPc<T>(s: State<T>, i: nat, t: nat, slot: Slot<T>, pc: Pc<T>, j: nat)
    requires Inv(s) && i < |s.pcs| && MayOverwrite(s, i, t, slot)
    requires j < |s.pcs| && j != i
    ensures PcOk(Overwrite(s, i, t, slot, pc), s.pcs[j])
  {
    if s.pcs[j].PushWait? || s.pcs[j].PushBuild? || s.pcs[j].PushPublish? {
      OverwriteKeepsPush(s, i, t, slot, pc, j);
    } else {
      OverwriteKeepsTake(s, i, t, slot, pc, j);
    }
  }

  ghost predicate Writes<T>(pc: Pc<T>)
  {
    pc.PushBuild? || pc.PushPublish? || pc.TakeDestroy? || pc.TakeRelease?
  }

  /** A step that does not write a slot only moves the counters, and forwards. */
  lemma StepGrows<T>(s: State<T>, i: nat, call: Call<T>)
    requires Shape(s) && i < |s.pcs| && !Writes(s.pcs[i]) && |s.issued| == s.head
    ensures var r := Step(s, i, call);
            && r.cap == s.cap && r.slots == s.slots && s.head <= r.head && s.tail <= r.tail
            && s.issued <= r.issued && |r.issued| == r.head
  {
  }

  /** A step that writes a slot is an overwrite by a thread that may. */
  lemma StepWrites<T>(s: State<T>, i: nat, call: Call<T>) returns (t: nat, slot: Slot<T>)
    requires Shape(s) && i < |s.pcs| && Writes(s.pcs[i]) && PcOk(s, s.pcs[i])
    ensures MayOverwrite(s, i, t, slot)
        && t == (if s.pcs[i].PushBuild? || s.pcs[i].PushPublish? then s.pcs[i].first + s.pcs[i].k else s.pcs[i].ticket)
    ensures Step(s, i, call) == Overwrite(s, i, t, slot, Step(s, i, call).pcs[i])
  {
    match s.pcs[i] {
      case PushBuild(f, items, k) =>
        t, slot := f + k, SlotOf(s, f + k).(cell := Live(items[k]));
      case PushPublish(f, items, k) =>
        t, slot := f + k, SlotOf(s, f + k).(turn := 2 * Lap(f + k, s.cap) + 1);
      case TakeDestroy(u, m) =>
        t, slot := u, SlotOf(s, u).(cell := Dead);
      case TakeRelease(u, m) =>
        t, slot := u, SlotOf(s, u).(turn := 2 * Lap(u, s.cap) + 2);
    }
  }

  lemma StepOtherPc<T>(s: State<T>, i: nat, call: Call<T>, j: nat)
    requires Inv(s)
    requires i < |s.pcs| && j < |s.pcs| && j != i
    ensures PcOk(Step(s, i, call), s.pcs[j])
  {
    assert PcOk(s, s.pcs[i]) && PcOk(s, s.pcs[j]);
    if Writes(s.pcs[i]) {
      var t, slot := StepWrites(s, i, call);
      OverwriteKeepsPc(s, i, t, slot, Step(s, i, call).pcs[i], j);
    } else {
      StepGrows(s, i, call);
      GrowthKeepsPc(s, Step(s, i, call), s.pcs[j]);
    }
  }

  lemma Unclaimed<T>(s: State<T>, t: nat)
    requires Inv(s)
    ensures t >= s.head ==> !Published(s, t) && !SomePush(s, t)
    ensures t >= s.tail ==> !Released(s, t) && !SomeTake(s, t)
  {
    assert !SomePush(s, t) || t < s.head by {
      if SomePush(s, t) {
        var i :| 0 <= i < |s.pcs| && HoldsPush(s.pcs[i], t);
        assert PcOk(s, s.pcs[i]);
      }
    }
    assert !SomeTake(s, t) || t < s.tail by {
      if SomeTake(s, t) {
        var i :| 0 <= i < |s.pcs| && HoldsTake(s.pcs[i], t);
        assert PcOk(s, s.pcs[i]);
      }
    }
  }

  /** A slot whose turn has come for a producer that has not built there is empty storage. */
  lemma DeadSlot<T>(s: State<T>, t: nat)
    requires Inv(s) && TurnAt(s, t) == 2 * Lap(t, s.cap)
    requires t >= s.head || exists i :: 0 <= i < |s.pcs| && s.pcs[i].PushWait? && HoldsPush(s.pcs[i], t)
    ensures SlotOf(s, t).cell == Dead
  {
    assert CellOk(s, t);
    if Filling(s, t) {
      var j :| 0 <= j < |s.pcs| && s.pcs[j].PushPublish? && s.pcs[j].first + s.pcs[j].k == t;
      assert PcOk(s, s.pcs[j]) && HoldsPush(s.pcs[j], t);
    }
  }

  /** A slot whose turn has come for a consumer that has not emptied it holds the ticket's value. */
  lemma LiveSlot<T>(s: State<T>, t: nat)
    requires Inv(s) && TurnAt(s, t) == 2 * Lap(t, s.cap) + 1
    requires t >= s.tail || exists i :: 0 <= i < |s.pcs| && s.pcs[i].PopWait? && HoldsTake(s.pcs[i], t)
    ensures t < |s.issued| && SlotOf(s, t).cell == Live(s.issued[t])
  {
    assert CellOk(s, t);
    if Emptying(s, t) {
      var j :| 0 <= j < |s.pcs| && s.pcs[j].TakeRelease? && s.pcs[j].ticket == t;
      assert PcOk(s, s.pcs[j]) && HoldsTake(s.pcs[j], t);
    }
  }

  lemma OwnPushWait<T>(s: State<T>, i: nat, call: Call<T>)
    requires Inv(s)
    requires i < |s.pcs| && s.pcs[i].PushWait?
    ensures PcOk(Step(s, i, call), Step(s, i, call).pcs[i])
  {
    var pc := s.pcs[i];
    var t := pc.first + pc.k;
    assert PcOk(s, pc);
    assert HoldsPush(pc, t);
    if TurnAt(s, t) == 2 * Lap(t, s.cap) {
      DeadSlot(s, t);
      GrowthKeepsPc(s, Step(s, i, call), PushBuild(pc.first, pc.items, pc.k));
    }
  }

  lemma OwnPush<T>(s: State<T>, i: nat, call: Call<T>)
    requires Inv(s)
    requires i < |s.pcs|
    requires s.pcs[i].PushBuild? || s.pcs[i].PushPublish?
    ensures PcOk(Step(s, i, call), Step(s, i, call).pcs[i])
  {
    var r := Step(s, i, call);
    var pc := s.pcs[i];
    var t := pc.first + pc.k;
    assert PcOk(s, pc);
    match pc {
      case PushBuild(f, items, k) =>
        var slot := SlotOf(s, t).(cell := Live(items[k]));
        OverwriteFrame(s, i, t, slot, r.pcs[i]);
        assert r == Overwrite(s, i, t, slot, r.pcs[i]);
        assert PushOk(r, f, items, k);
      case PushPublish(f, items, k) =>
        var slot := SlotOf(s, t).(turn := 2 * Lap(t, s.cap) + 1);
        OverwriteFrame(s, i, t, slot, r.pcs[i]);
        assert r == Overwrite(s, i, t, slot, r.pcs[i]);
        if k + 1 < |items| {
          assert PushOk(r, f, items, k + 1);
        }
    }
  }

  lemma OwnTurn<T>(s: State<T>, i: nat, call: Call<T>)
    requires Inv(s)
    requires i < |s.pcs|
    requires var pc := s.pcs[i]; pc.PopWait? || pc.TakeMove? || pc.TakeDestroy? || pc.TakeRelease? || pc.TakeCas?
    ensures PcOk(Step(s, i, call), Step(s, i, call).pcs[i])
  {
    var pc := s.pcs[i];
    assert PcOk(s, pc);
    match pc {
      case PopWait(t) =>
        assert HoldsTake(pc, t);
        if TurnAt(s, t) == 2 * Lap(t, s.cap) + 1 {
          LiveSlot(s, t);
        }
      case TakeCas(c, m) =>
        if s.tail == c {
          Unclaimed(s, c);
          LiveSlot(s, c);
        }
      case _ =>
    }
  }

  lemma OwnBegin<T>(s: State<T>, i: nat, call: Call<T>)
    requires Inv(s)
    requires i < |s.pcs| && s.pcs[i].Idle?
    ensures PcOk(Step(s, i, call), Step(s, i, call).pcs[i])
  {
    var r := Begin(s, i, call);
    match call {
      case Push(items) =>
        forall t: nat | s.head <= t < s.head + |items| ensures !Published(r, t) {
          Unclaimed(s, t);
          assert Published(r, t) == Published(s, t);
        }
        if items != [] {
          assert PushOk(r, s.head, items, 0);
        }
      case Pop =>
        Unclaimed(s, s.tail);
        assert Released(r, s.tail) == Released(s, s.tail);
      case _ =>
    }
  }

  lemma OwnTry<T>(s: State<T>, i: nat, call: Call<T>)
    requires Inv(s)
    requires i < |s.pcs|
    requires var pc := s.pcs[i];
             pc.TryPushLoad? || pc.TryPushCheck? || pc.TryPushCas? || pc.TryPushReload?
             || pc.TakeLoad? || pc.TakeCheck? || pc.TakeReload?
    ensures PcOk(Step(s, i, call), Step(s, i, call).pcs[i])
  {
    var r := Step(s, i, call);
    assert PcOk(s, s.pcs[i]);
    match s.pcs[i] {
      case TryPushCas(v, c) =>
        if s.head == c {
          Unclaimed(s, c);
          DeadSlot(s, c);
          assert Published(r, c) == Published(s, c);
          assert PushOk(r, c, [v], 0);
        }
      case _ =>
    }
  }

  lemma StepPcs<T>(s: State<T>, i: nat, call: Call<T>)
    requires Inv(s)
    ensures PcsOk(Step(s, i, call))
  {
    var r := Step(s, i, call);
    forall j | 0 <= j < |r.pcs| ensures PcOk(r, r.pcs[j]) {
      if i >= |s.pcs| {
        assert PcOk(s, s.pcs[j]);
      } else if j != i {
        StepOtherPc(s, i, call, j);
        assert r.pcs[j] == s.pcs[j];
      } else if s.pcs[i].PushBuild? || s.pcs[i].PushPublish? {
        OwnPush(s, i, call);
      } else if s.pcs[i].PushWait? {
        OwnPushWait(s, i, call);
      } else if s.pcs[i].PopWait? || s.pcs[i].TakeMove? || s.pcs[i].TakeDestroy? || s.pcs[i].TakeRelease?
        || s.pcs[i].TakeCas? {
        OwnTurn(s, i, call);
      } else if s.pcs[i].Idle? {
        OwnBegin(s, i, call);
      } else {
        OwnTry(s, i, call);
      }
    }
  }

  // ---------------------------------------------------------------- what a step does to the tickets

  /** Publishing and releasing each concern the one ticket the thread is at work on. */
  lemma StepMarks<T>(s: State<T>, i: nat, call: Call<T>)
    requires Inv(s) && i < |s.pcs|
    ensures var r := Step(s, i, call);
            && (forall t: nat {:trigger Published(r, t)} ::
                  Published(r, t) <==> Published(s, t) || (s.pcs[i].PushPublish? && t == s.pcs[i].first + s.pcs[i].k))
            && (forall t: nat {:trigger Released(r, t)} ::
                  Released(r, t) <==> Released(s, t) || (s.pcs[i].TakeRelease? && t == s.pcs[i].ticket))
  {
    assert PcOk(s, s.pcs[i]);
    if Writes(s.pcs[i]) {
      var t, slot := StepWrites(s, i, call);
      OverwriteFrame(s, i, t, slot, Step(s, i, call).pcs[i]);
    } else {
      StepGrows(s, i, call);
    }
  }

  /** Producer tickets are gained when head advances and given up when published. */
  lemma StepHoldsPush<T>(s: State<T>, i: nat, call: Call<T>)
    requires Inv(s) && i < |s.pcs|
    ensures var r := Step(s, i, call);
            forall t: nat {:trigger HoldsPush(r.pcs[i], t)} ::
              HoldsPush(r.pcs[i], t) <==>
              s.head <= t < r.head
                || (HoldsPush(s.pcs[i], t) && !(s.pcs[i].PushPublish? && t == s.pcs[i].first + s.pcs[i].k))
  {
    assert PcOk(s, s.pcs[i]);
  }

  /** Consumer tickets are gained when tail advances and given up when released. */
  lemma StepHoldsTake<T>(s: State<T>, i: nat, call: Call<T>)
    requires Inv(s) && i < |s.pcs|
    ensures var r := Step(s, i, call);
            forall t: nat {:trigger HoldsTake(r.pcs[i], t)} ::
              HoldsTake(r.pcs[i], t) <==> s.tail <= t < r.tail || (HoldsTake(s.pcs[i], t) && !s.pcs[i].TakeRelease?)
  {
    assert PcOk(s, s.pcs[i]);
  }

  lemma StepHolds<T>(s: State<T>, i: nat, call: Call<T>)
    requires Inv(s) && i < |s.pcs|
    ensures var r := Step(s, i, call);
            && |r.pcs| == |s.pcs|
            && (forall j :: 0 <= j < |s.pcs| && j != i ==> r.pcs[j] == s.pcs[j])
            && (forall t: nat {:trigger HoldsPush(r.pcs[i], t)} ::
                  HoldsPush(r.pcs[i], t) <==>
                  s.head <= t < r.head
                    || (HoldsPush(s.pcs[i], t) && !(s.pcs[i].PushPublish? && t == s.pcs[i].first + s.pcs[i].k)))
            && (forall t: nat {:trigger HoldsTake(r.pcs[i], t)} ::
                  HoldsTake(r.pcs[i], t) <==>
                    s.tail <= t < r.tail || (HoldsTake(s.pcs[i], t) && !s.pcs[i].TakeRelease?))
  {
    StepHoldsPush(s, i, call);
    StepHoldsTake(s, i, call);
  }

  lemma StepExclusive<T>(s: State<T>, i: nat, call: Call<T>)
    requires Inv(s)
    ensures Exclusive(Step(s, i, call))
  {
    if i < |s.pcs| {
      var r := Step(s, i, call);
      StepHolds(s, i, call);
      forall j, k, t: nat | 0 <= j < |r.pcs| && 0 <= k < |r.pcs| && HoldsPush(r.pcs[j], t) && HoldsPush(r.pcs[k], t)
        ensures j == k
      {
        Unclaimed(s, t);
        assert j != i ==> HoldsPush(s.pcs[j], t);
        assert k != i ==> HoldsPush(s.pcs[k], t);
        assert SomePush(s, t) || (j == i && k == i);
      }
      forall j, k, t: nat | 0 <= j < |r.pcs| && 0 <= k < |r.pcs| && HoldsTake(r.pcs[j], t) && HoldsTake(r.pcs[k], t)
        ensures j == k
      {
        Unclaimed(s, t);
        assert j != i ==> HoldsTake(s.pcs[j], t);
        assert k != i ==> HoldsTake(s.pcs[k], t);
        assert SomeTake(s, t) || (j == i && k == i);
      }
    }
  }

  lemma StepAccounted<T>(s: State<T>, i: nat, call: Call<T>)
    requires Inv(s)
    ensures Accounted(Step(s, i, call))
  {
    if i < |s.pcs| {
      var r := Step(s, i, call);
      StepHolds(s, i, call);
      StepMarks(s, i, call);
      assert PcOk(s, s.pcs[i]);
      forall t: nat ensures if t < r.head then Published(r, t) || SomePush(r, t) else !Published(r, t) {
        Unclaimed(s, t);
        if s.head <= t < r.head {
          assert HoldsPush(r.pcs[i], t);
        } else if t < s.head && !Published(r, t) {
          assert SomePush(s, t);
          var j :| 0 <= j < |s.pcs| && HoldsPush(s.pcs[j], t);
          assert HoldsPush(r.pcs[j], t);
        }
      }
      forall t: nat ensures if t < r.tail then Released(r, t) || SomeTake(r, t) else !Released(r, t) {
        Unclaimed(s, t);
        if s.tail <= t < r.tail {
          assert HoldsTake(r.pcs[i], t);
        } else if t < s.tail && !Released(r, t) {
          assert SomeTake(s, t);
          var j :| 0 <= j < |s.pcs| && HoldsTake(s.pcs[j], t);
          assert HoldsTake(r.pcs[j], t);
        }
      }
    }
  }

  /** A ticket whose slot, and whose holder if it is at work, stay as they are. */
  lemma UntouchedCell<T>(s: State<T>, i: nat, call: Call<T>, t: nat)
    requires Inv(s) && i < |s.pcs|
    requires var r := Step(s, i, call); r.cap == s.cap && SlotOf(r, t) == SlotOf(s, t) && s.issued <= r.issued
    requires !(s.pcs[i].PushPublish? && s.pcs[i].first + s.pcs[i].k == t)
    requires !(s.pcs[i].TakeRelease? && s.pcs[i].ticket == t)
    ensures CellOk(Step(s, i, call), t)
  {
    var r := Step(s, i, call);
    assert CellOk(s, t);
    if Emptying(s, t) {
      var j :| 0 <= j < |s.pcs| && s.pcs[j].TakeRelease? && s.pcs[j].ticket == t;
      assert r.pcs[j] == s.pcs[j];
    }
    if Filling(s, t) {
      var j :| 0 <= j < |s.pcs| && s.pcs[j].PushPublish? && s.pcs[j].first + s.pcs[j].k == t;
      assert r.pcs[j] == s.pcs[j];
    }
  }

  lemma WriteKeepsCell<T>(s: State<T>, i: nat, call: Call<T>, t: nat)
    requires Inv(s) && i < |s.pcs| && Writes(s.pcs[i])
    ensures CellOk(Step(s, i, call), t)
  {
    var r := Step(s, i, call);
    assert PcOk(s, s.pcs[i]);
    var u, slot := StepWrites(s, i, call);
    OverwriteFrame(s, i, u, slot, r.pcs[i]);
    if Ix(t, s.cap) != Ix(u, s.cap) {
      UntouchedCell(s, i, call, t);
    } else {
      assert SlotOf(r, t) == slot;
      assert |r.pcs| == |s.pcs|;
    }
  }

  lemma StepCells<T>(s: State<T>, i: nat, call: Call<T>)
    requires Inv(s)
    ensures CellsOk(Step(s, i, call))
  {
    var r := Step(s, i, call);
    forall t: nat ensures CellOk(r, t) {
      if i >= |s.pcs| {
        assert CellOk(s, t);
      } else if Writes(s.pcs[i]) {
        WriteKeepsCell(s, i, call, t);
      } else {
        StepGrows(s, i, call);
        UntouchedCell(s, i, call, t);
      }
    }
  }

  /** Only the move out of a slot appends to the log. */
  lemma StepLogs<T>(s: State<T>, i: nat, call: Call<T>)
    requires Inv(s) && i < |s.pcs| && PcOk(s, s.pcs[i])
    ensures var r := Step(s, i, call);
            && r.log == s.log
                  + (if s.pcs[i].TakeMove? then [Delivery(s.pcs[i].ticket, s.issued[s.pcs[i].ticket], i)] else [])
            && s.issued <= r.issued && s.tail <= r.tail
            && (forall t: nat {:trigger Unmoved(r.pcs[i], t)} ::
                  Unmoved(r.pcs[i], t) ==> s.tail <= t < r.tail || (Unmoved(s.pcs[i], t) && !s.pcs[i].TakeMove?))
            && (forall t: nat {:trigger Unmoved(s.pcs[i], t)} ::
                  HoldsTake(r.pcs[i], t) && !Unmoved(r.pcs[i], t) ==>
                      HoldsTake(s.pcs[i], t) && (!Unmoved(s.pcs[i], t) || s.pcs[i].TakeMove?))
  {
  }

  lemma StepLog<T>(s: State<T>, i: nat, call: Call<T>)
    requires Inv(s)
    ensures LogOk(Step(s, i, call))
  {
    if i < |s.pcs| {
      var r := Step(s, i, call);
      var pc := s.pcs[i];
      assert PcOk(s, pc);
      StepLogs(s, i, call);
      StepHolds(s, i, call);
      StepMarks(s, i, call);
      assert pc.TakeMove? ==> Unmoved(pc, pc.ticket);
      forall t: nat ensures Logged(r, t) <==> Logged(s, t) || (pc.TakeMove? && t == pc.ticket) {
        if Logged(s, t) {
          var k :| 0 <= k < |s.log| && s.log[k].ticket == t;
          assert r.log[k].ticket == t;
        }
        if pc.TakeMove? {
          assert r.log[|s.log|].ticket == pc.ticket;
        }
      }
      forall j, t: nat | 0 <= j < |r.pcs| && HoldsTake(r.pcs[j], t) ensures Logged(r, t) <==> !Unmoved(r.pcs[j], t) {
        Unclaimed(s, t);
        assert j != i ==> HoldsTake(s.pcs[j], t);
        assert Unmoved(s.pcs[j], t) || !Unmoved(s.pcs[j], t);
        assert pc.TakeMove? && t == pc.ticket ==> HoldsTake(pc, t);
      }
      forall t: nat | Released(r, t) ensures Logged(r, t) {
        assert Released(s, t) ==> Logged(s, t);
        if pc.TakeRelease? && t == pc.ticket {
          assert HoldsTake(pc, t) && !Unmoved(pc, t);
        }
      }
    }
  }

  /** Every step of every thread keeps the invariant. */
  lemma StepInv<T>(s: State<T>, i: nat, call: Call<T>)
    requires Inv(s)
    ensures Inv(Step(s, i, call))
  {
    StepPcs(s, i, call);
    StepExclusive(s, i, call);
    StepAccounted(s, i, call);
    StepCells(s, i, call);
    StepLog(s, i, call);
  }

  /** And so does every run, however the threads are scheduled and whatever they call. */
  lemma {:induction false} ExecInv<T>(s: State<T>, schedule: seq<Choice<T>>)
    requires Inv(s)
    ensures Inv(Exec(s, schedule))
  {
    if schedule != [] {
      var last := schedule[|schedule| - 1];
      ExecInv(s, schedule[..|schedule| - 1]);
      StepInv(Exec(s, schedule[..|schedule| - 1]), last.thread, last.call);
    }
  }
}
