/** A producer running alone, and what its steps do to the memory. */
module QueueFill {
  import opened QueueMachine
  import opened QueueInvariant
  import opened QueueTheorems
  import opened QueueWords
  import opened WrappedTickets

  /** The slot of ticket t has been left by the ticket it served before. */
  ghost predicate RoomAt<T>(s: State<T>, t: nat)
    requires Shape(s)
  {
    t < s.cap || Released(s, t - s.cap)
  }

  ghost predicate Room<T>(s: State<T>, from: nat, to: nat)
    requires Shape(s)
  {
    forall t: nat {:trigger RoomAt(s, t)} :: from <= t < to ==> RoomAt(s, t)
  }

  ghost predicate Pushing<T>(pc: Pc<T>)
  {
    pc.PushWait? || pc.PushBuild? || pc.PushPublish?
  }

  /** A producer inside its loop touches nothing but slots. */
  lemma FillsSlots<T>(s: State<T>, i: nat)
    requires Inv(s) && i < |s.pcs| && Pushing(s.pcs[i])
    ensures var r := Step(s, i, Pop);
            r == s.(slots := r.slots, pcs := r.pcs) && |r.pcs| == |s.pcs|
            && (forall j :: 0 <= j < |s.pcs| && j != i ==> r.pcs[j] == s.pcs[j])
  {
  }

  lemma FillsNext<T>(s: State<T>, i: nat)
    requires Inv(s) && i < |s.pcs| && Pushing(s.pcs[i])
    requires s.pcs[i].PushWait? ==> RoomAt(s, s.pcs[i].first + s.pcs[i].k)
    ensures Step(s, i, Pop).pcs[i]
         == (match s.pcs[i]
             case PushWait(f, items, k) => PushBuild(f, items, k)
             case PushBuild(f, items, k) => PushPublish(f, items, k)
             case PushPublish(f, items, k) => NextPush(f, items, k + 1)
             case _ => s.pcs[i])
    ensures s.pcs[i].PushPublish? ==> Published(Step(s, i, Pop), s.pcs[i].first + s.pcs[i].k)
  {
    assert PcOk(s, s.pcs[i]);
    var t := s.pcs[i].first + s.pcs[i].k;
    Predecessor(s, t);
    assert !Published(s, t);
  }

  /** Room and publication are not lost. */
  lemma RoomKept<T>(s: State<T>, i: nat, call: Call<T>, from: nat, to: nat)
    requires Inv(s) && i < |s.pcs| && Room(s, from, to)
    ensures Room(Step(s, i, call), from, to)
  {
    StepGrowth(s, i, call);
    var r := Step(s, i, call);
    hide Step, Inv;
    forall t: nat | from <= t < to ensures RoomAt(r, t) {
      assert RoomAt(s, t);
    }
  }

  /** Filling keeps every ticket in the window. */
  lemma FillWindow<T>(s: State<T>, i: nat, lo: nat)
    requires Inv(s) && Within(s, lo) && i < |s.pcs| && Pushing(s.pcs[i])
    ensures Within(Step(s, i, Pop), lo)
  {
    FillsSlots(s, i);
    var r := Step(s, i, Pop);
    forall j | 0 <= j < |r.pcs| ensures PcFrom(r.pcs[j], lo) {
      assert PcFrom(s.pcs[j], lo);
    }
  }

  lemma BeginWindow<T>(s: State<T>, i: nat, items: seq<T>, lo: nat)
    requires Inv(s) && Within(s, lo) && i < |s.pcs| && s.pcs[i].Idle? && s.head + |items| < lo + TWO_63
    ensures Within(Step(s, i, Push(items)), lo)
  {
  }

  // ---------------------------------------------------------------- in memory

  ghost predicate SameWords<T>(s: State<T>, r: State<T>)
    requires Storable(s) && Storable(r)
  {
    WordShape(Stored(r)) && r.cap == s.cap && Stored(r).head == Stored(s).head && Stored(r).tail == Stored(s).tail
  }

  /** fetch_add on head. */
  lemma ClaimStored<T>(s: State<T>, i: nat, items: seq<T>)
    requires Inv(s) && Storable(s) && WordShape(Stored(s)) && i < |s.pcs| && s.pcs[i].Idle?
    ensures var r := Step(s, i, Push(items));
            Storable(r) && WordShape(Stored(r)) && r.cap == s.cap && Stored(r).slots == Stored(s).slots
            && Stored(r).tail == Stored(s).tail && Stored(r).head == Add(Stored(s).head, |items|)
  {
    RefineBegin(s, i, Push(items));
    assert Step(s, i, Push(items)) == Begin(s, i, Push(items));
    hide Wrap, Add, And, WrapTurn, Inv;
  }

  /** The comparison of a waiting producer, made in 64 bits. */
  lemma WaitSeen<T>(s: State<T>, i: nat, lo: nat)
    requires Inv(s) && Storable(s) && WordShape(Stored(s)) && Within(s, lo)
    requires i < |s.pcs| && s.pcs[i].PushWait?
    ensures var ticket := Wrap(s.pcs[i].first + s.pcs[i].k);
            var x := Index(ticket, s.cap as uint64);
            x < |Stored(s).slots|
            && (FreeTurn(ticket, s.cap as uint64) == Stored(s).slots[x].turn <==> Step(s, i, Pop).pcs[i].PushBuild?)
  {
    hide FreeTurn, Wrap, Index, And, Inv, Within, Lap, Ix;
    FreeSeen(s, i, lo);
  }

  lemma FreeSeen<T>(s: State<T>, i: nat, lo: nat)
    requires Inv(s) && Storable(s) && WordShape(Stored(s)) && Within(s, lo)
    requires i < |s.pcs| && s.pcs[i].PushWait?
    ensures var t := s.pcs[i].first + s.pcs[i].k;
            var x := Index(Wrap(t), s.cap as uint64);
            x < |Stored(s).slots|
            && (FreeTurn(Wrap(t), s.cap as uint64) == Stored(s).slots[x].turn <==> 2 * Lap(t, s.cap) == TurnAt(s, t))
  {
    hide FreeTurn, FilledTurn, NextTurn, Wrap, Add, WrapTurn, And, Step;
    var t := s.pcs[i].first + s.pcs[i].k;
    assert PcOk(s, s.pcs[i]) && PcFrom(s.pcs[i], lo);
    hide PcOk, PushOk, Lap, Ix;
    StoredAt(s, t);
    TurnsAgree(t, s.cap as uint64);
    SeesTurn(s, lo, t, s.cap as uint64);
    hide Inv, Within;
  }

  /** With room in the ring the wait is over. */
  lemma RoomSeen<T>(s: State<T>, i: nat)
    requires Inv(s) && i < |s.pcs| && s.pcs[i].PushWait? && RoomAt(s, s.pcs[i].first + s.pcs[i].k)
    ensures Step(s, i, Pop).pcs[i].PushBuild?
  {
    var t := s.pcs[i].first + s.pcs[i].k;
    assert PcOk(s, s.pcs[i]) && !Published(s, t);
    Predecessor(s, t);
  }

  /** Leaving the spin changes no memory. */
  lemma WaitStored<T>(s: State<T>, i: nat)
    requires Inv(s) && Storable(s) && WordShape(Stored(s)) && i < |s.pcs| && s.pcs[i].PushWait?
    ensures var r := Step(s, i, Pop);
            Storable(r) && SameWords(s, r) && Stored(r).slots == Stored(s).slots
  {
  }

  lemma BuildStored<T>(s: State<T>, i: nat)
    requires Inv(s) && Storable(s) && WordShape(Stored(s)) && i < |s.pcs| && s.pcs[i].PushBuild?
    ensures var r := Step(s, i, Pop);
            var x := Index(Wrap(s.pcs[i].first + s.pcs[i].k), s.cap as uint64);
            Storable(r) && SameWords(s, r) && x < |Stored(s).slots| && s.pcs[i].k < |s.pcs[i].items|
            && Stored(r).slots == Stored(s).slots[x := Stored(s).slots[x].(cell := Live(s.pcs[i].items[s.pcs[i].k]))]
  {
    assert PcOk(s, s.pcs[i]);
    StoredAt(s, s.pcs[i].first + s.pcs[i].k);
    AddWraps(s.pcs[i].first, s.pcs[i].k);
    RefinePushBuild(s, i, Pop);
    hide FreeTurn, FilledTurn, NextTurn, Wrap, Add, Index, WrapTurn, And, Inv;
  }

  lemma PublishStored<T>(s: State<T>, i: nat)
    requires Inv(s) && Storable(s) && WordShape(Stored(s)) && i < |s.pcs| && s.pcs[i].PushPublish?
    ensures var r := Step(s, i, Pop);
            var ticket := Wrap(s.pcs[i].first + s.pcs[i].k);
            var x := Index(ticket, s.cap as uint64);
            Storable(r) && SameWords(s, r) && x < |Stored(s).slots|
            && Stored(r).slots == Stored(s).slots[x := Stored(s).slots[x].(turn := FilledTurn(ticket, s.cap as uint64))]
  {
    hide FreeTurn, FilledTurn, NextTurn, Wrap, Add, Index, WrapTurn, And;
    assert PcOk(s, s.pcs[i]);
    StoredAt(s, s.pcs[i].first + s.pcs[i].k);
    AddWraps(s.pcs[i].first, s.pcs[i].k);
    RefinePushPublish(s, i, Pop);
    hide Inv;
  }
}
