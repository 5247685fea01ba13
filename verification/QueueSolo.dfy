/** Loops of the queue run without interference, and what restricted kinds of clients may rely on. */
module QueueSolo {
  import opened QueueMachine
  import opened QueueInvariant
  import opened QueueTheorems

  // ---------------------------------------------------------------- bulk_pop and try_consume_all

  /** Thread pc is inside bulk_pop or try_consume_all, or done. */
  ghost predicate Greedily<T>(pc: Pc<T>)
  {
    || pc.Idle?
    || ((pc.TakeLoad? || pc.TakeCheck? || pc.TakeCas? || pc.TakeReload? || pc.TakeMove? || pc.TakeDestroy?
         || pc.TakeRelease?)
        && pc.mode.Greedy?)
  }

  /** The published tickets ahead of tail can be no more than this. */
  ghost function Ahead<T>(s: State<T>): nat
  {
    if s.tail < s.head then s.head - s.tail else 0
  }

  /** How far the thread is from its next success or its return; a stale cursor costs one more round. */
  ghost function Phase<T>(s: State<T>, pc: Pc<T>): nat
  {
    match pc
    case TakeMove(_, _) => 9
    case TakeDestroy(_, _) => 8
    case TakeRelease(_, _) => 7
    case TakeLoad(_) => 6
    case TakeCheck(c, _) => if c == s.tail then 3 else 5
    case TakeCas(c, _) => if c == s.tail then 2 else 4
    case TakeReload(c, _) => if c == s.tail then 2 else 4
    case _ => 0
  }

  lemma GreedyStep<T>(s: State<T>, i: nat)
    requires Inv(s) && i < |s.pcs| && Greedily(s.pcs[i]) && !s.pcs[i].Idle?
    ensures var r := Step(s, i, Pop);
            && Inv(r) && |r.pcs| == |s.pcs| && Greedily(r.pcs[i])
            && (Ahead(r) < Ahead(s) || (Ahead(r) == Ahead(s) && Phase(r, r.pcs[i]) < Phase(s, s.pcs[i])))
  {
    assert PcOk(s, s.pcs[i]);
    StepInv(s, i, Pop);
    if s.pcs[i].TakeCas? {
      Unclaimed(s, s.pcs[i].cursor);
    }
  }

  /** Thread i runs alone until it returns.  The recursion is well founded: the loop cannot go on for
      ever, because the cursor is reloaded whenever its slot's turn does not match. */
  ghost function RunAlone<T>(s: State<T>, i: nat): (r: State<T>)
    requires Inv(s) && i < |s.pcs| && Greedily(s.pcs[i])
    ensures Inv(r) && |r.pcs| == |s.pcs| && r.pcs[i].Idle?
    decreases Ahead(s), Phase(s, s.pcs[i])
  {
    if s.pcs[i].Idle? then s else
    GreedyStep(s, i);
    RunAlone(Step(s, i, Pop), i)
  }

  /** The first unpublished ticket from t on. */
  ghost function FirstGap<T>(s: State<T>, t: nat): (r: nat)
    requires Shape(s)
    ensures t <= r
    ensures forall u: nat {:trigger Published(s, u)} :: t <= u < r ==> Published(s, u)
    ensures r < s.head ==> !Published(s, r)
    decreases s.head - t
  {
    if t < s.head && Published(s, t) then FirstGap(s, t + 1) else t
  }

  /** When nobody is at work, everything issued is published. */
  lemma AllPublished<T>(s: State<T>, t: nat)
    requires Inv(s) && AllIdle(s) && t <= s.head
    ensures FirstGap(s, t) == s.head == |s.issued|
    decreases s.head - t
  {
    Finished(s, t);
    hide Inv, Published;
    if t < s.head {
      AllPublished(s, t + 1);
    }
  }

  ghost function Deliveries<T>(s: State<T>, i: nat, from: nat, to: nat): seq<Delivery<T>>
    requires from <= to <= |s.issued|
  {
    seq(to - from, k requires 0 <= k < to - from => Delivery(from + k, s.issued[from + k], i))
  }

  /** The delivery a thread that has claimed a ticket still owes. */
  ghost function Owed<T>(s: State<T>, i: nat): seq<Delivery<T>>
    requires i < |s.pcs|
    requires s.pcs[i].TakeMove? ==> s.pcs[i].ticket < |s.issued|
  {
    if s.pcs[i].TakeMove? then [Delivery(s.pcs[i].ticket, s.issued[s.pcs[i].ticket], i)] else []
  }

  lemma {:induction false} SameGap<T>(s: State<T>, r: State<T>, t: nat)
    requires Shape(s) && Shape(r) && s.head == r.head
    requires forall u: nat {:trigger Published(r, u)} :: Published(r, u) <==> Published(s, u)
    ensures FirstGap(r, t) == FirstGap(s, t)
    decreases s.head - t
  {
    assert Published(r, t) <==> Published(s, t);
    if t < s.head && Published(s, t) {
      SameGap(s, r, t + 1);
    }
  }

  lemma GapBound<T>(s: State<T>, t: nat)
    requires Inv(s)
    ensures FirstGap(s, t) <= |s.issued| || FirstGap(s, t) == t
  {
    if FirstGap(s, t) > t {
      assert Published(s, FirstGap(s, t) - 1);
      Unclaimed(s, FirstGap(s, t) - 1);
    }
  }

  /** Where tail ends up: at the first unpublished ticket, unless the thread has already seen its
      ticket unpublished and finds tail unmoved, in which case it just returns. */
  ghost function Target<T>(s: State<T>, i: nat): (r: nat)
    requires Shape(s) && i < |s.pcs|
    ensures r >= s.tail
  {
    if s.pcs[i].TakeReload? && s.pcs[i].cursor == s.tail then s.tail else FirstGap(s, s.tail)
  }

  /** Thread i has just won ticket tail. */
  ghost predicate Claimed<T>(s: State<T>, r: State<T>, i: nat)
    requires i < |s.pcs| == |r.pcs|
  {
    && r.tail == s.tail + 1 && r.log == s.log && s.tail < |s.issued|
    && s.pcs[i].TakeCas? && r.pcs[i].TakeMove? && r.pcs[i].ticket == s.tail
  }

  /** One step of the loop: what it delivers plus what it then owes is what it owed, and one more
      ticket if the step claimed one; the target stays the same. */
  lemma GreedyEffect<T>(s: State<T>, i: nat)
    requires Inv(s) && i < |s.pcs| && Greedily(s.pcs[i]) && !s.pcs[i].Idle? && PcOk(s, s.pcs[i])
    ensures var r := Step(s, i, Pop);
            && PcOk(r, r.pcs[i]) && r.cap == s.cap
            && r.head == s.head && r.issued == s.issued
            && (s.tail == r.tail ==> r.log + Owed(r, i) == s.log + Owed(s, i))
            && (s.tail != r.tail ==> Claimed(s, r, i))
  {
    StepInv(s, i, Pop);
    var r := Step(s, i, Pop);
    assert PcOk(r, r.pcs[i]);
    StepLogs(s, i, Pop);
  }

  lemma GreedyTarget<T>(s: State<T>, i: nat)
    requires Inv(s) && i < |s.pcs| && Greedily(s.pcs[i]) && !s.pcs[i].Idle? && PcOk(s, s.pcs[i])
    ensures var r := Step(s, i, Pop);
            && (r.pcs[i].Idle? ==> Target(s, i) == s.tail == r.tail)
            && (!r.pcs[i].Idle? ==> Target(r, i) == Target(s, i))
            && (r.tail != s.tail ==> Target(s, i) > s.tail)
  {
    var r := Step(s, i, Pop);
    GreedyEffect(s, i);
    StepMarks(s, i, Pop);
    SameGap(s, r, r.tail);
    Unclaimed(s, s.tail);
  }

  lemma TargetBound<T>(s: State<T>, i: nat)
    requires Inv(s) && i < |s.pcs|
    ensures Target(s, i) == s.tail || Target(s, i) <= |s.issued|
  {
    GapBound(s, s.tail);
  }

  /** What the thread still has to deliver when it is left alone. */
  ghost function Outstanding<T>(s: State<T>, i: nat): seq<Delivery<T>>
    requires Shape(s) && i < |s.pcs|
    requires s.pcs[i].TakeMove? ==> s.pcs[i].ticket < |s.issued|
    requires Target(s, i) == s.tail || Target(s, i) <= |s.issued|
  {
    Owed(s, i) + (if Target(s, i) == s.tail then [] else Deliveries(s, i, s.tail, Target(s, i)))
  }

  /** What one call does when it runs alone, from any reachable state, whatever the other threads hold
      up: it takes exactly the tickets from tail up to its target, in order, delivers the values issued
      under them, returns, and leaves the other threads and the producers' side alone. */
  lemma {:induction false} AloneTakesTheRun<T>(s: State<T>, i: nat)
    requires Inv(s) && i < |s.pcs| && Greedily(s.pcs[i]) && PcOk(s, s.pcs[i])
    requires Target(s, i) == s.tail || Target(s, i) <= |s.issued|
    ensures var r := RunAlone(s, i);
            && r.head == s.head && r.issued == s.issued
            && (!s.pcs[i].Idle? ==> r.tail == Target(s, i) && r.log == s.log + Outstanding(s, i))
            && (forall j :: 0 <= j < |s.pcs| && j != i ==> r.pcs[j] == s.pcs[j])
            && (forall u: nat {:trigger Published(r, u)} :: Published(r, u) <==> Published(s, u))
    decreases Ahead(s), Phase(s, s.pcs[i])
  {
    if !s.pcs[i].Idle? {
      var r := Step(s, i, Pop);
      GreedyStep(s, i);
      GreedyEffect(s, i);
      GreedyTarget(s, i);
      StepMarks(s, i, Pop);
      StepHolds(s, i, Pop);
      TargetBound(r, i);
      AloneTakesTheRun(r, i);
      if !r.pcs[i].Idle? {
        SplitOutstanding(s, r, i);
      }
    }
  }

  lemma FirstDelivery<T>(s: State<T>, i: nat, from: nat, to: nat)
    requires from < to <= |s.issued|
    ensures Deliveries(s, i, from, to) == [Delivery(from, s.issued[from], i)] + Deliveries(s, i, from + 1, to)
  {
  }

  lemma Regroup<X>(a: seq<X>, b: seq<X>, c: seq<X>, d: seq<X>, rest: seq<X>)
    requires a + b == c + d
    ensures a + (b + rest) == c + (d + rest)
  {
    assert a + (b + rest) == (a + b) + rest;
    assert c + (d + rest) == (c + d) + rest;
  }

  lemma SplitOutstanding<T>(s: State<T>, r: State<T>, i: nat)
    requires Shape(s) && i < |s.pcs| && (Target(s, i) == s.tail || Target(s, i) <= |s.issued|)
    requires Shape(r) && i < |r.pcs| && (Target(r, i) == r.tail || Target(r, i) <= |r.issued|)
    requires (s.pcs[i].TakeMove? ==> s.pcs[i].ticket < |s.issued|)
        && (r.pcs[i].TakeMove? ==> r.pcs[i].ticket < |r.issued|)
    requires r.issued == s.issued && Target(r, i) == Target(s, i)
    requires if s.tail == r.tail then r.log + Owed(r, i) == s.log + Owed(s, i)
        else |s.pcs| == |r.pcs| && Claimed(s, r, i)
    ensures r.log + Outstanding(r, i) == s.log + Outstanding(s, i)
  {
    var goal := Target(s, i);
    if r.tail == s.tail {
      var rest := if goal == s.tail then [] else Deliveries(s, i, s.tail, goal);
      hide Target, Owed;
      Regroup(r.log, Owed(r, i), s.log, Owed(s, i), rest);
    } else {
      ClaimedIsOutstanding(s, r, i);
    }
  }

  lemma ClaimedIsOutstanding<T>(s: State<T>, r: State<T>, i: nat)
    requires Shape(s) && Shape(r) && i < |s.pcs| == |r.pcs| && Claimed(s, r, i) && r.issued == s.issued
    requires Target(s, i) == Target(r, i) && (Target(s, i) == s.tail || Target(s, i) <= |s.issued|)
    requires Target(r, i) == r.tail || Target(r, i) <= |r.issued|
    ensures Outstanding(r, i) == Outstanding(s, i)
  {
    var goal := Target(s, i);
    FirstDelivery(s, i, s.tail, goal);
    hide Target;
    assert Deliveries(s, i, goal, goal) == [];
    assert Owed(r, i) == [Delivery(s.tail, s.issued[s.tail], i)];
  }
}
