/** What a call of the queue answers is what its own steps have done. */
module QueueCalls {
  import opened QueueMachine
  import opened QueueInvariant
  import opened QueueTheorems
  import opened QueueProgress
  import opened QueueClients

  // ---------------------------------------------------------------- what the steps of one thread did

  /** The items it put in, the number of consumer tickets it claimed, and the values it moved out. */
  datatype Acts<T> = Acts(put: seq<T>, takes: nat, moved: seq<Delivery<T>>)

  ghost predicate Grown<T>(s: State<T>, r: State<T>)
  {
    s.issued <= r.issued && s.tail <= r.tail && s.log <= r.log
  }

  /** What is new in r. */
  function Did<T>(s: State<T>, r: State<T>): Acts<T>
    requires Grown(s, r)
  {
    Acts(r.issued[|s.issued|..], r.tail - s.tail, r.log[|s.log|..])
  }

  function Plus<T>(a: Acts<T>, b: Acts<T>): Acts<T>
  {
    Acts(a.put + b.put, a.takes + b.takes, a.moved + b.moved)
  }

  /** What thread i did in the steps of a run from a given one on. */
  ghost function Own<T>(cap: nat, threads: nat, schedule: seq<Choice<T>>, i: nat, from: nat): Acts<T>
    requires cap > 0
    decreases |schedule|
  {
    if |schedule| <= from then Acts([], 0, []) else
    var before := schedule[..|schedule| - 1];
    var own := Own(cap, threads, before, i, from);
    if schedule[|schedule| - 1].thread != i then own else
    RunGrown(cap, threads, schedule);
    Plus(own, Did(Run(cap, threads, before), Run(cap, threads, schedule)))
  }

  lemma RunGrown<T>(cap: nat, threads: nat, schedule: seq<Choice<T>>)
    requires cap > 0 && schedule != []
    ensures var before := schedule[..|schedule| - 1];
            var last := schedule[|schedule| - 1];
            Run(cap, threads, schedule) == Step(Run(cap, threads, before), last.thread, last.call)
            && Inv(Run(cap, threads, before)) && |Run(cap, threads, before).pcs| == threads
            && Grown(Run(cap, threads, before), Run(cap, threads, schedule))
  {
    var before := schedule[..|schedule| - 1];
    var last := schedule[|schedule| - 1];
    RunInv(cap, threads, before);
    CapKept(cap, threads, before);
    if last.thread < threads {
      StepGrowth(Run(cap, threads, before), last.thread, last.call);
    }
  }

  // ---------------------------------------------------------------- a call and its answer

  /** What a call returns: nothing, a bool, or a count. */
  datatype Answer = Nothing | Flag(b: bool) | Count(n: nat)

  /** The value of the return statement that the last step of a call comes to from pc. */
  function AnswerAt<T>(call: Call<T>, pc: Pc<T>): Answer
  {
    match pc
    case PushPublish(_, _, _) => if call.TryPush? then Flag(true) else Nothing
    case TryPushReload(_, _) => Flag(false)
    case TakeRelease(_, Once) => Flag(true)
    case TakeReload(_, Once) => Flag(false)
    case TakeReload(_, Greedy(n)) => Count(n)
    case _ => Nothing
  }

  /** Thread i, idle, makes a call in step number from, and has not returned before the last step. */
  ghost predicate Calls<T>(cap: nat, threads: nat, schedule: seq<Choice<T>>, i: nat, from: nat, call: Call<T>)
    requires cap > 0
  {
    && from < |schedule| && i < threads && schedule[from] == Choice.Choice(i, call)
    && i < |At(cap, threads, schedule, from).pcs| && At(cap, threads, schedule, from).pcs[i].Idle?
    && forall k {:trigger At(cap, threads, schedule, k)} :: from < k < |schedule| ==>
         i < |At(cap, threads, schedule, k).pcs| && !At(cap, threads, schedule, k).pcs[i].Idle?
  }

  /** One value has been moved out, under the one ticket claimed. */
  ghost predicate TookOne<T>(own: Acts<T>, i: nat, t: nat)
  {
    own.put == [] && own.takes == 1 && |own.moved| == 1 && own.moved[0].ticket == t && own.moved[0].who == i
  }

  /** What a thread inside a call has done so far. */
  ghost predicate Midway<T>(s: State<T>, i: nat, call: Call<T>, own: Acts<T>)
    requires Shape(s) && i < |s.pcs|
  {
    match call
    case Push(items) =>
      own == Acts(items, 0, [])
      && (match s.pcs[i]
          case PushWait(f, all, k) => all == items && PublishedFrom(s, f, k)
          case PushBuild(f, all, k) => all == items && PublishedFrom(s, f, k)
          case PushPublish(f, all, k) => all == items && PublishedFrom(s, f, k)
          case _ => false)
    case TryPush(v) =>
      (match s.pcs[i]
       case TryPushLoad(w) => w == v && own == Acts([], 0, [])
       case TryPushCheck(w, _) => w == v && own == Acts([], 0, [])
       case TryPushCas(w, _) => w == v && own == Acts([], 0, [])
       case TryPushReload(w, _) => w == v && own == Acts([], 0, [])
       case PushBuild(_, items, k) => items == [v] && k == 0 && own == Acts([v], 0, [])
       case PushPublish(_, items, k) => items == [v] && k == 0 && own == Acts([v], 0, [])
       case _ => false)
    case Pop =>
      (match s.pcs[i]
       case PopWait(_) => own == Acts([], 1, [])
       case TakeMove(_, Blocking) => own == Acts([], 1, [])
       case TakeDestroy(t, Blocking) => TookOne(own, i, t)
       case TakeRelease(t, Blocking) => TookOne(own, i, t)
       case _ => false)
    case TryPop =>
      (match s.pcs[i]
       case TakeLoad(Once) => own == Acts([], 0, [])
       case TakeCheck(_, Once) => own == Acts([], 0, [])
       case TakeCas(_, Once) => own == Acts([], 0, [])
       case TakeReload(_, Once) => own == Acts([], 0, [])
       case TakeMove(_, Once) => own == Acts([], 1, [])
       case TakeDestroy(t, Once) => TookOne(own, i, t)
       case TakeRelease(t, Once) => TookOne(own, i, t)
       case _ => false)
    case TakeAll =>
      own.put == []
      && (match s.pcs[i]
          case TakeLoad(Greedy(n)) => own.takes == |own.moved| == n
          case TakeCheck(_, Greedy(n)) => own.takes == |own.moved| == n
          case TakeCas(_, Greedy(n)) => own.takes == |own.moved| == n
          case TakeReload(_, Greedy(n)) => own.takes == |own.moved| == n
          case TakeMove(_, Greedy(n)) => own.takes == n + 1 && |own.moved| == n
          case TakeDestroy(_, Greedy(n)) => own.takes == |own.moved| == n + 1
          case TakeRelease(_, Greedy(n)) => own.takes == |own.moved| == n + 1
          case _ => false)
  }

  /** The first k tickets from f on are published. */
  ghost predicate PublishedFrom<T>(s: State<T>, f: nat, k: nat)
    requires Shape(s)
  {
    forall t: nat {:trigger Published(s, t)} :: f <= t < f + k ==> Published(s, t)
  }

  /** These items were issued in a row and are published. */
  ghost predicate AllIn<T>(s: State<T>, items: seq<T>)
    requires Shape(s)
  {
    exists f: nat :: f + |items| <= |s.issued| && s.issued[f..f + |items|] == items && PublishedFrom(s, f, |items|)
  }

  /** What a call that has returned has done, and answered. */
  ghost predicate Kept<T>(s: State<T>, i: nat, call: Call<T>, own: Acts<T>, answer: Answer)
    requires Shape(s)
  {
    match call
    case Push(items) => answer == Nothing && own == Acts(items, 0, []) && AllIn(s, items)
    case TryPush(v) =>
      answer.Flag? && (if answer.b then own == Acts([v], 0, []) && AllIn(s, [v]) else own == Acts([], 0, []))
    case Pop => answer == Nothing && |own.moved| == 1 && TookOne(own, i, own.moved[0].ticket)
    case TryPop =>
      answer.Flag?
      && (if answer.b then |own.moved| == 1 && TookOne(own, i, own.moved[0].ticket) else own == Acts([], 0, []))
    case TakeAll => own.put == [] && answer == Count(|own.moved|) && own.takes == |own.moved|
  }

  // ---------------------------------------------------------------- one step

  /** What a step of a call leaves: a call that is still going on, or one that has returned. */
  ghost predicate Follows<T>(s: State<T>, r: State<T>, i: nat, call: Call<T>, own: Acts<T>)
    requires Shape(r) && i < |s.pcs| && i < |r.pcs| && Grown(s, r)
  {
    var more := Plus(own, Did(s, r));
    if r.pcs[i].Idle? then Kept(r, i, call, more, AnswerAt(call, s.pcs[i])) else Midway(r, i, call, more)
  }

  lemma NothingMore<T>(own: Acts<T>)
    ensures Plus(own, Acts([], 0, [])) == own && Plus(Acts([], 0, []), own) == own
  {
  }

  /** A step that issues nothing, claims nothing and moves nothing. */
  lemma NothingDone<T>(s: State<T>, r: State<T>)
    requires r.issued == s.issued && r.tail == s.tail && r.log == s.log
    ensures Grown(s, r) && Did(s, r) == Acts([], 0, [])
  {
  }

  lemma PushStep<T>(s: State<T>, i: nat, items: seq<T>, chosen: Call<T>, own: Acts<T>)
    requires Inv(s) && i < |s.pcs| && Midway(s, i, Push(items), own)
    ensures var r := Step(s, i, chosen);
            Grown(s, r) && i < |r.pcs| && Follows(s, r, i, Push(items), own)
  {
    var r := Step(s, i, chosen);
    assert PcOk(s, s.pcs[i]);
    StepMarks(s, i, chosen);
    hide Inv, Published;
    NothingDone(s, r);
    NothingMore(own);
    if s.pcs[i].PushPublish? {
      var f, k := s.pcs[i].first, s.pcs[i].k;
      assert PublishedFrom(r, f, k + 1);
      assert k + 1 == |items| ==> r.issued[f..f + |items|] == items;
    }
  }

  /** A try_emplace before it has won its ticket. */
  ghost predicate Trying<T>(pc: Pc<T>, v: T)
  {
    (pc.TryPushLoad? || pc.TryPushCheck? || pc.TryPushCas? || pc.TryPushReload?) && pc.item == v
  }

  lemma TryingStep<T>(s: State<T>, i: nat, v: T, chosen: Call<T>)
    requires Inv(s) && i < |s.pcs| && Trying(s.pcs[i], v)
    ensures var r := Step(s, i, chosen);
            |r.pcs| == |s.pcs| && r.tail == s.tail && r.log == s.log
            && if s.pcs[i].TryPushCas? && s.head == s.pcs[i].cursor
               then r.issued == s.issued + [v] && r.pcs[i] == PushBuild(s.head, [v], 0)
               else r.issued == s.issued && (Trying(r.pcs[i], v) || (r.pcs[i].Idle? && s.pcs[i].TryPushReload?))
  {
    hide Inv, Lap, Ix, TurnAt;
  }

  lemma OneMore<T>(s: State<T>, r: State<T>, v: T)
    requires r.issued == s.issued + [v] && r.tail == s.tail && r.log == s.log
    ensures Grown(s, r) && Did(s, r) == Acts([v], 0, [])
  {
  }

  lemma TryingKept<T>(s: State<T>, i: nat, v: T, chosen: Call<T>)
    requires Inv(s) && i < |s.pcs| && Trying(s.pcs[i], v)
    ensures var r := Step(s, i, chosen);
            Grown(s, r) && i < |r.pcs| && Follows(s, r, i, TryPush(v), Acts([], 0, []))
  {
    var r := Step(s, i, chosen);
    TryingStep(s, i, v, chosen);
    hide Step, Inv, AllIn;
    NothingMore(Acts([v], 0, []));
    NothingMore<T>(Acts([], 0, []));
    if r.pcs[i].PushBuild? {
      OneMore(s, r, v);
      hide Did, Plus, Grown;
    } else {
      NothingDone(s, r);
      hide Did, Plus, Grown;
    }
  }

  lemma PuttingKept<T>(s: State<T>, i: nat, v: T, chosen: Call<T>, own: Acts<T>)
    requires Inv(s) && i < |s.pcs| && Midway(s, i, TryPush(v), own) && (s.pcs[i].PushBuild? || s.pcs[i].PushPublish?)
    ensures var r := Step(s, i, chosen);
            Grown(s, r) && i < |r.pcs| && Follows(s, r, i, TryPush(v), own)
  {
    var r := Step(s, i, chosen);
    var pc := s.pcs[i];
    assert PcOk(s, pc);
    StepMarks(s, i, chosen);
    hide Inv, Published;
    NothingDone(s, r);
    NothingMore(own);
    if pc.PushPublish? {
      assert PublishedFrom(r, pc.first, 1);
      assert r.issued[pc.first..pc.first + 1] == [v];
    }
  }

  lemma TryPushStep<T>(s: State<T>, i: nat, v: T, chosen: Call<T>, own: Acts<T>)
    requires Inv(s) && i < |s.pcs| && Midway(s, i, TryPush(v), own)
    ensures var r := Step(s, i, chosen);
            Grown(s, r) && i < |r.pcs| && Follows(s, r, i, TryPush(v), own)
  {
    hide Step, Inv, Follows, Grown;
    if Trying(s.pcs[i], v) {
      TryingKept(s, i, v, chosen);
    } else {
      PuttingKept(s, i, v, chosen, own);
    }
  }

  // ---------------------------------------------------------------- one step of a consumer

  /** A consumer before it has a ticket that is filled, on a call with the given mode. */
  ghost predicate Seeking<T>(pc: Pc<T>, mode: Mode)
  {
    (pc.TakeLoad? || pc.TakeCheck? || pc.TakeCas? || pc.TakeReload?) && pc.mode == mode
  }

  lemma SeekingStep<T>(s: State<T>, i: nat, mode: Mode, chosen: Call<T>)
    requires Inv(s) && i < |s.pcs| && Seeking(s.pcs[i], mode)
    ensures var r := Step(s, i, chosen);
            |r.pcs| == |s.pcs| && r.issued == s.issued && r.log == s.log
            && if s.pcs[i].TakeCas? && s.tail == s.pcs[i].cursor
               then r.tail == s.tail + 1 && r.pcs[i] == TakeMove(s.tail, mode)
               else r.tail == s.tail && (Seeking(r.pcs[i], mode) || (r.pcs[i].Idle? && s.pcs[i].TakeReload?))
  {
    hide Inv, Lap, Ix, TurnAt;
  }

  /** What a consumer with a filled slot does. */
  lemma HoldingStep<T>(s: State<T>, i: nat, chosen: Call<T>)
    requires Inv(s) && i < |s.pcs| && (s.pcs[i].TakeMove? || s.pcs[i].TakeDestroy? || s.pcs[i].TakeRelease?)
    ensures var r := Step(s, i, chosen);
            var pc := s.pcs[i];
            |r.pcs| == |s.pcs| && r.issued == s.issued && r.tail == s.tail
            && (if pc.TakeMove? then
                  pc.ticket < |s.issued| && r.log == s.log + [Delivery(pc.ticket, s.issued[pc.ticket], i)]
                  && r.pcs[i] == TakeDestroy(pc.ticket, pc.mode)
                else r.log == s.log
                     && r.pcs[i] == (if pc.TakeDestroy? then TakeRelease(pc.ticket, pc.mode)
                                     else AfterTake(pc.ticket, pc.mode)))
  {
    assert PcOk(s, s.pcs[i]);
    hide Inv, Lap, Ix, TurnAt;
  }

  lemma OneClaimed<T>(s: State<T>, r: State<T>, own: Acts<T>)
    requires r.issued == s.issued && r.tail == s.tail + 1 && r.log == s.log
    ensures Grown(s, r) && Plus(own, Did(s, r)) == own.(takes := own.takes + 1)
  {
  }

  lemma OneMoved<T>(s: State<T>, r: State<T>, own: Acts<T>, d: Delivery<T>)
    requires r.issued == s.issued && r.tail == s.tail && r.log == s.log + [d]
    ensures Grown(s, r) && Plus(own, Did(s, r)) == own.(moved := own.moved + [d])
  {
  }

  /** What a step of a seeking consumer comes to. */
  ghost predicate Sought<T>(s: State<T>, r: State<T>, i: nat, mode: Mode, own: Acts<T>, more: Acts<T>)
    requires i < |s.pcs| && i < |r.pcs|
  {
    if r.pcs[i].TakeMove? then r.pcs[i].mode == mode && more == own.(takes := own.takes + 1)
    else more == own
         && (Seeking(r.pcs[i], mode) || (r.pcs[i].Idle? && s.pcs[i].TakeReload?))
  }

  lemma SeekingDid<T>(s: State<T>, i: nat, mode: Mode, chosen: Call<T>, own: Acts<T>)
    requires Inv(s) && i < |s.pcs| && Seeking(s.pcs[i], mode)
    ensures var r := Step(s, i, chosen);
            Grown(s, r) && i < |r.pcs| && Sought(s, r, i, mode, own, Plus(own, Did(s, r)))
  {
    var r := Step(s, i, chosen);
    SeekingStep(s, i, mode, chosen);
    hide Step, Inv;
    if s.pcs[i].TakeCas? && s.tail == s.pcs[i].cursor {
      OneClaimed(s, r, own);
    } else {
      NothingDone(s, r);
      NothingMore(own);
    }
    hide Did, Plus, Grown;
  }

  lemma SeekingOne<T>(s: State<T>, r: State<T>, i: nat, own: Acts<T>, more: Acts<T>)
    requires Shape(s) && Shape(r) && i < |s.pcs| && i < |r.pcs| && Seeking(s.pcs[i], Once)
    requires Midway(s, i, TryPop, own) && Sought(s, r, i, Once, own, more)
    ensures if r.pcs[i].Idle? then Kept(r, i, TryPop, more, AnswerAt(TryPop, s.pcs[i])) else Midway(r, i, TryPop, more)
  {
    hide Shape;
  }

  lemma SeekingAll<T>(s: State<T>, r: State<T>, i: nat, mode: Mode, own: Acts<T>, more: Acts<T>)
    requires Shape(s) && Shape(r) && i < |s.pcs| && i < |r.pcs| && Seeking(s.pcs[i], mode)
    requires Midway(s, i, TakeAll, own) && Sought(s, r, i, mode, own, more)
    ensures if r.pcs[i].Idle? then Kept(r, i, TakeAll, more, AnswerAt(TakeAll, s.pcs[i]))
        else Midway(r, i, TakeAll, more)
  {
    hide Shape;
  }

  lemma SeekingKept<T>(s: State<T>, i: nat, call: Call<T>, mode: Mode, chosen: Call<T>, own: Acts<T>)
    requires Inv(s) && i < |s.pcs| && Midway(s, i, call, own) && Seeking(s.pcs[i], mode)
    ensures var r := Step(s, i, chosen);
            Grown(s, r) && i < |r.pcs| && Follows(s, r, i, call, own)
  {
    var r := Step(s, i, chosen);
    SeekingDid(s, i, mode, chosen, own);
    assert call.TryPop? ==> mode == Once;
    assert call.TryPop? || call.TakeAll?;
    hide Step, Inv, Midway, Kept, AnswerAt, Did, Plus, Grown, Sought;
    if call.TryPop? {
      SeekingOne(s, r, i, own, Plus(own, Did(s, r)));
    } else {
      SeekingAll(s, r, i, mode, own, Plus(own, Did(s, r)));
    }
  }

  lemma HoldingKept<T>(s: State<T>, i: nat, call: Call<T>, chosen: Call<T>, own: Acts<T>)
    requires Inv(s) && i < |s.pcs| && Midway(s, i, call, own) && (call.Pop? || call.TryPop? || call.TakeAll?)
    requires s.pcs[i].TakeMove? || s.pcs[i].TakeDestroy? || s.pcs[i].TakeRelease?
    ensures var r := Step(s, i, chosen);
            Grown(s, r) && i < |r.pcs| && Follows(s, r, i, call, own)
  {
    var r := Step(s, i, chosen);
    HoldingStep(s, i, chosen);
    hide Step, Inv, AllIn, PublishedFrom;
    if s.pcs[i].TakeMove? {
      OneMoved(s, r, own, Delivery(s.pcs[i].ticket, s.issued[s.pcs[i].ticket], i));
    } else {
      NothingDone(s, r);
      NothingMore(own);
    }
    hide Did, Plus, Grown;
  }

  lemma WaitingKept<T>(s: State<T>, i: nat, chosen: Call<T>, own: Acts<T>)
    requires Inv(s) && i < |s.pcs| && Midway(s, i, Pop, own) && s.pcs[i].PopWait?
    ensures var r := Step(s, i, chosen);
            Grown(s, r) && i < |r.pcs| && Follows(s, r, i, Pop, own)
  {
    var r := Step(s, i, chosen);
    hide Inv, Lap, Ix, TurnAt;
    NothingDone(s, r);
    NothingMore(own);
  }

  lemma TakeStep<T>(s: State<T>, i: nat, call: Call<T>, chosen: Call<T>, own: Acts<T>)
    requires Inv(s) && i < |s.pcs| && Midway(s, i, call, own) && (call.Pop? || call.TryPop? || call.TakeAll?)
    ensures var r := Step(s, i, chosen);
            Grown(s, r) && i < |r.pcs| && Follows(s, r, i, call, own)
  {
    hide Step, Inv, Follows, Grown;
    if s.pcs[i].PopWait? {
      WaitingKept(s, i, chosen, own);
    } else if s.pcs[i].TakeMove? || s.pcs[i].TakeDestroy? || s.pcs[i].TakeRelease? {
      HoldingKept(s, i, call, chosen, own);
    } else {
      SeekingKept(s, i, call, s.pcs[i].mode, chosen, own);
    }
  }

  lemma CallStep<T>(s: State<T>, i: nat, call: Call<T>, chosen: Call<T>, own: Acts<T>)
    requires Inv(s) && i < |s.pcs| && Midway(s, i, call, own)
    ensures var r := Step(s, i, chosen);
            Grown(s, r) && i < |r.pcs| && Follows(s, r, i, call, own)
  {
    hide Step, Inv, Follows, Grown, Midway;
    match call
    case Push(items) => PushStep(s, i, items, chosen, own);
    case TryPush(v) => TryPushStep(s, i, v, chosen, own);
    case _ => TakeStep(s, i, call, chosen, own);
  }

  lemma NoneIn<T>(s: State<T>)
    requires Shape(s)
    ensures AllIn(s, [])
  {
    assert s.issued[0..0] == [];
    assert PublishedFrom(s, 0, 0);
  }

  lemma Issues<T>(s: State<T>, r: State<T>, items: seq<T>)
    requires r.issued == s.issued + items && r.tail == s.tail && r.log == s.log
    ensures Grown(s, r) && Plus(Acts([], 0, []), Did(s, r)) == Acts(items, 0, [])
  {
    assert Did(s, r) == Acts(items, 0, []);
    NothingMore(Acts(items, 0, []));
  }

  lemma PushBegins<T>(s: State<T>, i: nat, items: seq<T>)
    requires Shape(s) && i < |s.pcs| && s.pcs[i].Idle?
    ensures var r := Step(s, i, Push(items));
            Grown(s, r) && i < |r.pcs| && Follows(s, r, i, Push(items), Acts([], 0, []))
  {
    var r := Step(s, i, Push(items));
    assert r == s.(head := s.head + |items|, issued := s.issued + items, pcs := s.pcs[i := NextPush(s.head, items, 0)]);
    hide Step, AllIn, Published;
    Issues(s, r, items);
    hide Did, Plus, Grown;
    assert PublishedFrom(r, s.head, 0);
    hide PublishedFrom;
    NoneIn(r);
  }

  lemma TakeBegins<T>(s: State<T>, i: nat, call: Call<T>)
    requires Shape(s) && i < |s.pcs| && s.pcs[i].Idle? && !call.Push?
    ensures var r := Step(s, i, call);
            Grown(s, r) && i < |r.pcs| && Follows(s, r, i, call, Acts([], 0, []))
  {
    var r := Step(s, i, call);
    assert r.issued == s.issued && r.log == s.log && r.tail == s.tail + (if call.Pop? then 1 else 0);
    assert r.pcs == s.pcs[i := if call.TryPush? then TryPushLoad(call.item)
                               else if call.Pop? then PopWait(s.tail)
                               else TakeLoad(if call.TryPop? then Once else Greedy(0))];
    hide Step, AllIn, PublishedFrom;
    if call.Pop? {
      OneClaimed(s, r, Acts([], 0, []));
    } else {
      NothingDone(s, r);
      NothingMore<T>(Acts([], 0, []));
    }
    hide Did, Plus, Grown;
  }

  /** The call itself. */
  lemma CallBegins<T>(s: State<T>, i: nat, call: Call<T>)
    requires Shape(s) && i < |s.pcs| && s.pcs[i].Idle?
    ensures var r := Step(s, i, call);
            Grown(s, r) && i < |r.pcs| && Follows(s, r, i, call, Acts([], 0, []))
  {
    hide Step, Follows, Grown;
    if call.Push? {
      PushBegins(s, i, call.items);
    } else {
      TakeBegins(s, i, call);
    }
  }

  /** What the others do leaves it as it is. */
  lemma CallUntouched<T>(s: State<T>, i: nat, call: Call<T>, own: Acts<T>, j: nat, chosen: Call<T>)
    requires Inv(s) && i < |s.pcs| && j != i && Midway(s, i, call, own)
    ensures var r := Step(s, j, chosen); i < |r.pcs| && r.pcs[i] == s.pcs[i] && Midway(r, i, call, own)
  {
    if j < |s.pcs| {
      StepGrowth(s, j, chosen);
      StepHolds(s, j, chosen);
      var r := Step(s, j, chosen);
      hide Step, Inv, Published;
      if call.Push? {
        forall f: nat, k: nat | PublishedFrom(s, f, k) ensures PublishedFrom(r, f, k) {
        }
      }
    }
  }

  // ---------------------------------------------------------------- the whole call

  lemma EarlierAt<T>(cap: nat, threads: nat, schedule: seq<Choice<T>>, k: nat)
    requires cap > 0 && k < |schedule|
    ensures At(cap, threads, schedule, k) == At(cap, threads, schedule[..|schedule| - 1], k)
  {
    assert schedule[..|schedule| - 1][..k] == schedule[..k];
  }

  lemma EarlierAll<T>(cap: nat, threads: nat, schedule: seq<Choice<T>>)
    requires cap > 0 && schedule != []
    ensures forall k {:trigger At(cap, threads, schedule, k)} :: 0 <= k < |schedule| ==>
              At(cap, threads, schedule, k) == At(cap, threads, schedule[..|schedule| - 1], k)
    ensures At(cap, threads, schedule, |schedule|) == Run(cap, threads, schedule)
    ensures At(cap, threads, schedule, |schedule| - 1) == Run(cap, threads, schedule[..|schedule| - 1])
  {
    assert schedule[..|schedule|] == schedule;
    forall k | 0 <= k < |schedule|
      ensures At(cap, threads, schedule, k) == At(cap, threads, schedule[..|schedule| - 1], k)
    {
      EarlierAt(cap, threads, schedule, k);
    }
    hide Run;
  }

  lemma CallsBefore<T>(cap: nat, threads: nat, schedule: seq<Choice<T>>, i: nat, from: nat, call: Call<T>)
    requires cap > 0 && Calls(cap, threads, schedule, i, from, call) && |schedule| > from + 1
    ensures Calls(cap, threads, schedule[..|schedule| - 1], i, from, call)
    ensures var s := Run(cap, threads, schedule[..|schedule| - 1]); i < |s.pcs| && !s.pcs[i].Idle?
  {
    var before := schedule[..|schedule| - 1];
    forall k | 0 <= k < |schedule| ensures At(cap, threads, schedule, k) == At(cap, threads, before, k) {
      EarlierAt(cap, threads, schedule, k);
    }
    assert before[..|before|] == before;
    assert !At(cap, threads, schedule, |before|).pcs[i].Idle?;
  }

  /**
    Every call of every operation, in every run, whatever the other threads do in between: once it has returned, its own
    steps have done exactly what its answer says.  A try_emplace that answers true, and only it, has put in its item,
    once; a try_pop that answers true has moved one value out; and the count that bulk_pop or try_consume_all answers is
    the number of values it has moved out and of tickets it has claimed.
   */
  lemma {:induction false} CallsAnswerTruly<T>(cap: nat, threads: nat, schedule: seq<Choice<T>>, i: nat, from: nat,
                                               call: Call<T>)
    requires cap > 0 && Calls(cap, threads, schedule, i, from, call)
    ensures var r := Run(cap, threads, schedule);
            var own := Own(cap, threads, schedule, i, from);
            var was := At(cap, threads, schedule, |schedule| - 1);
            i < |r.pcs| && i < |was.pcs|
            && if r.pcs[i].Idle? then Kept(r, i, call, own, AnswerAt(call, was.pcs[i])) else Midway(r, i, call, own)
    decreases |schedule|
  {
    var before := schedule[..|schedule| - 1];
    var last := schedule[|schedule| - 1];
    RunGrown(cap, threads, schedule);
    var s := Run(cap, threads, before);
    hide Step, Exec, Inv, Kept, Midway, Did, Plus, Grown;
    if |schedule| == from + 1 {
      assert before == schedule[..from];
      CallBegins(s, i, call);
    } else {
      CallsBefore(cap, threads, schedule, i, from, call);
      CallsAnswerTruly(cap, threads, before, i, from, call);
      if last.thread == i {
        CallStep(s, i, call, last.call, Own(cap, threads, before, i, from));
      } else {
        CallUntouched(s, i, call, Own(cap, threads, before, i, from), last.thread, last.call);
      }
    }
  }

  // ---------------------------------------------------------------- try_emplace and try_pop alone, from the call on

  /** v is in, under the ticket at head. */
  function WithPut<T>(s: State<T>, v: T): State<T>
    requires Shape(s)
  {
    WithSlot(s, s.head, Slot(2 * Lap(s.head, s.cap) + 1, Live(v))).(head := s.head + 1, issued := s.issued + [v])
  }

  /** The value under the ticket at tail is out, moved by thread i. */
  function WithTaken<T>(s: State<T>, i: nat): State<T>
    requires Shape(s) && s.tail < |s.issued|
  {
    WithSlot(s, s.tail, Slot(2 * Lap(s.tail, s.cap) + 2, Dead))
      .(tail := s.tail + 1, log := s.log + [Delivery(s.tail, s.issued[s.tail], i)])
  }

  lemma SoloMore<T>(s: State<T>, i: nat, n: nat)
    requires Shape(s) && n > 0
    ensures Solo(s, i, n) == Solo(Step(s, i, Pop), i, n - 1)
  {
  }

  /** The two steps from the load of the cursor to the turn check. */
  lemma TryPushLooks<T>(s: State<T>, i: nat, v: T)
    requires Shape(s) && i < |s.pcs| && s.pcs[i].Idle?
    ensures var free := TurnAt(s, s.head) == 2 * Lap(s.head, s.cap);
            Step(Step(Step(s, i, TryPush(v)), i, Pop), i, Pop)
            == WithPc(s, i, if free then TryPushCas(v, s.head) else TryPushReload(v, s.head))
  {
    var r := WithPc(s, i, TryPushLoad(v));
    assert Step(s, i, TryPush(v)) == r;
    assert Step(r, i, Pop) == WithPc(s, i, TryPushCheck(v, s.head));
  }

  lemma TryPushPuts<T>(s: State<T>, i: nat, v: T)
    requires Shape(s) && i < |s.pcs| && s.pcs[i].Idle? && TurnAt(s, s.head) == 2 * Lap(s.head, s.cap)
    ensures Step(Step(Step(WithPc(s, i, TryPushCas(v, s.head)), i, Pop), i, Pop), i, Pop) == WithPut(s, v)
  {
    var c := s.head;
    var claimed := WithPc(s, i, PushBuild(c, [v], 0)).(head := c + 1, issued := s.issued + [v]);
    assert Step(WithPc(s, i, TryPushCas(v, c)), i, Pop) == claimed;
    var built := WithPc(WithSlot(claimed, c, SlotOf(s, c).(cell := Live(v))), i, PushPublish(c, [v], 0));
    assert Step(claimed, i, Pop) == built;
    assert Step(built, i, Pop).pcs == s.pcs;
    hide Lap, Ix;
  }

  /** try_emplace of an idle thread, alone: it puts the item in under the ticket at head and publishes it, if head's
      slot is free for its lap at the call; if not, it changes nothing. */
  lemma TryPushAlone<T>(s: State<T>, i: nat, v: T)
    requires Inv(s) && i < |s.pcs| && s.pcs[i].Idle?
    ensures var r := Step(s, i, TryPush(v));
            if TurnAt(s, s.head) == 2 * Lap(s.head, s.cap)
            then Solo(r, i, 5) == WithPut(s, v) && Published(WithPut(s, v), s.head)
            else Solo(r, i, 3) == s
  {
    var r := Step(s, i, TryPush(v));
    TryPushLooks(s, i, v);
    var free := TurnAt(s, s.head) == 2 * Lap(s.head, s.cap);
    var looked := WithPc(s, i, if free then TryPushCas(v, s.head) else TryPushReload(v, s.head));
    if free {
      TryPushPuts(s, i, v);
      assert Published(WithPut(s, v), s.head);
      hide Step, Inv, Published, Lap;
      SoloMore(r, i, 5);
      SoloMore(Step(r, i, Pop), i, 4);
      SoloMore(looked, i, 3);
      SoloMore(Step(looked, i, Pop), i, 2);
      SoloMore(Step(Step(looked, i, Pop), i, Pop), i, 1);
    } else {
      assert Step(looked, i, Pop) == s;
      hide Step, Inv;
      SoloMore(r, i, 3);
      SoloMore(Step(r, i, Pop), i, 2);
      SoloMore(looked, i, 1);
    }
  }

  lemma TryPopLooks<T>(s: State<T>, i: nat)
    requires Shape(s) && i < |s.pcs| && s.pcs[i].Idle?
    ensures var filled := TurnAt(s, s.tail) == 2 * Lap(s.tail, s.cap) + 1;
            Step(Step(Step(s, i, TryPop), i, Pop), i, Pop)
            == WithPc(s, i, if filled then TakeCas(s.tail, Once) else TakeReload(s.tail, Once))
  {
    var r := WithPc(s, i, TakeLoad(Once));
    assert Step(s, i, TryPop) == r;
    assert Step(r, i, Pop) == WithPc(s, i, TakeCheck(s.tail, Once));
  }

  lemma TryPopTakes<T>(s: State<T>, i: nat)
    requires Shape(s) && i < |s.pcs| && s.pcs[i].Idle? && s.tail < |s.issued|
    requires SlotOf(s, s.tail) == Slot(2 * Lap(s.tail, s.cap) + 1, Live(s.issued[s.tail]))
    ensures Step(Step(Step(Step(WithPc(s, i, TakeCas(s.tail, Once)), i, Pop), i, Pop), i, Pop), i, Pop)
        == WithTaken(s, i)
  {
    var c := s.tail;
    var claimed := WithPc(s, i, TakeMove(c, Once)).(tail := c + 1);
    assert Step(WithPc(s, i, TakeCas(c, Once)), i, Pop) == claimed;
    var moved := WithPc(claimed, i, TakeDestroy(c, Once)).(log := s.log + [Delivery(c, s.issued[c], i)]);
    assert Step(claimed, i, Pop) == moved;
    var empty := WithPc(WithSlot(moved, c, SlotOf(s, c).(cell := Dead)), i, TakeRelease(c, Once));
    assert Step(moved, i, Pop) == empty;
    assert Step(empty, i, Pop).pcs == s.pcs;
    hide Lap, Ix;
  }

  /** try_pop of an idle thread, alone: it takes the value under the ticket at tail and releases it, if it is published
      at the call; if not, it changes nothing. */
  lemma TryPopAlone<T>(s: State<T>, i: nat)
    requires Inv(s) && i < |s.pcs| && s.pcs[i].Idle?
    ensures var r := Step(s, i, TryPop);
            if Published(s, s.tail)
            then s.tail < |s.issued| && Solo(r, i, 6) == WithTaken(s, i) && Released(WithTaken(s, i), s.tail)
            else Solo(r, i, 3) == s
  {
    var r := Step(s, i, TryPop);
    TryPopLooks(s, i);
    Unclaimed(s, s.tail);
    var filled := TurnAt(s, s.tail) == 2 * Lap(s.tail, s.cap) + 1;
    assert filled <==> Published(s, s.tail);
    var looked := WithPc(s, i, if filled then TakeCas(s.tail, Once) else TakeReload(s.tail, Once));
    if filled {
      LiveSlot(s, s.tail);
      TryPopTakes(s, i);
      assert Released(WithTaken(s, i), s.tail);
      hide Step, Inv, Published, Released, Lap;
      SoloMore(r, i, 6);
      SoloMore(Step(r, i, Pop), i, 5);
      SoloMore(looked, i, 4);
      SoloMore(Step(looked, i, Pop), i, 3);
      SoloMore(Step(Step(looked, i, Pop), i, Pop), i, 2);
      SoloMore(Step(Step(Step(looked, i, Pop), i, Pop), i, Pop), i, 1);
    } else {
      assert Step(looked, i, Pop) == s;
      hide Step, Inv;
      SoloMore(r, i, 3);
      SoloMore(Step(r, i, Pop), i, 2);
      SoloMore(looked, i, 1);
    }
  }

  // ---------------------------------------------------------------- where a cursor comes from

  /** In the part of a try_pop that has a cursor. */
  ghost predicate HasCursor<T>(pc: Pc<T>, c: nat)
  {
    pc == TakeCheck(c, Once) || pc == TakeCas(c, Once) || pc == TakeReload(c, Once)
  }

  ghost predicate HasPushCursor<T>(pc: Pc<T>, v: T, c: nat)
  {
    pc == TryPushCheck(v, c) || pc == TryPushCas(v, c) || pc == TryPushReload(v, c)
  }

  /** In a try_emplace that has not yet won a ticket, from the first m steps on. */
  ghost predicate InsidePush<T>(cap: nat, threads: nat, schedule: seq<Choice<T>>, w: nat, v: T, m: nat)
    requires cap > 0
  {
    m <= |schedule|
    && forall k {:trigger At(cap, threads, schedule, k)} :: m <= k <= |schedule| ==>
         w < |At(cap, threads, schedule, k).pcs| && Trying(At(cap, threads, schedule, k).pcs[w], v)
  }

  ghost predicate InsideTake<T>(cap: nat, threads: nat, schedule: seq<Choice<T>>, w: nat, m: nat)
    requires cap > 0
  {
    m <= |schedule|
    && forall k {:trigger At(cap, threads, schedule, k)} :: m <= k <= |schedule| ==>
         w < |At(cap, threads, schedule, k).pcs| && Seeking(At(cap, threads, schedule, k).pcs[w], Once)
  }

  /** One step back from a cursor: it is loaded here, or was there before. */
  lemma OwnCursorBack<T>(s: State<T>, i: nat, call: Call<T>, c: nat)
    requires Shape(s) && i < |s.pcs| && i < |Step(s, i, call).pcs| && HasCursor(Step(s, i, call).pcs[i], c)
    ensures Seeking(s.pcs[i], Once) && (s.tail == c || HasCursor(s.pcs[i], c))
  {
    hide Lap, Ix, TurnAt;
  }

  lemma CursorBack<T>(s: State<T>, j: nat, call: Call<T>, i: nat, c: nat)
    requires Inv(s) && i < |s.pcs| && i < |Step(s, j, call).pcs| && HasCursor(Step(s, j, call).pcs[i], c)
    ensures Seeking(s.pcs[i], Once) && (s.tail == c || HasCursor(s.pcs[i], c))
  {
    if i == j {
      OwnCursorBack(s, i, call, c);
    } else if j < |s.pcs| {
      StepHolds(s, j, call);
      hide Step, Inv;
    } else {
      assert Step(s, j, call) == s;
    }
  }

  lemma OwnPushCursorBack<T>(s: State<T>, i: nat, call: Call<T>, v: T, c: nat)
    requires Shape(s) && i < |s.pcs| && i < |Step(s, i, call).pcs| && HasPushCursor(Step(s, i, call).pcs[i], v, c)
    ensures Trying(s.pcs[i], v) && (s.head == c || HasPushCursor(s.pcs[i], v, c))
  {
    hide Lap, Ix, TurnAt;
  }

  lemma PushCursorBack<T>(s: State<T>, j: nat, call: Call<T>, i: nat, v: T, c: nat)
    requires Inv(s) && i < |s.pcs| && i < |Step(s, j, call).pcs| && HasPushCursor(Step(s, j, call).pcs[i], v, c)
    ensures Trying(s.pcs[i], v) && (s.head == c || HasPushCursor(s.pcs[i], v, c))
  {
    if i == j {
      OwnPushCursorBack(s, i, call, v, c);
    } else if j < |s.pcs| {
      StepHolds(s, j, call);
      hide Step, Inv;
    } else {
      assert Step(s, j, call) == s;
    }
  }

  /** In every run the cursor of a try_pop was tail at some instant of the same call. */
  lemma {:induction false} CursorWasTail<T>(cap: nat, threads: nat, schedule: seq<Choice<T>>, i: nat, c: nat)
    returns (m: nat)
    requires cap > 0 && i < threads
    requires var s := Run(cap, threads, schedule); i < |s.pcs| && HasCursor(s.pcs[i], c)
    ensures InsideTake(cap, threads, schedule, i, m) && At(cap, threads, schedule, m).tail == c
    decreases |schedule|
  {
    assert schedule[..|schedule|] == schedule;
    var before := schedule[..|schedule| - 1];
    var last := schedule[|schedule| - 1];
    RunGrown(cap, threads, schedule);
    EarlierAll(cap, threads, schedule);
    var s := Run(cap, threads, before);
    hide Step, Exec, Inv, At;
    CursorBack(s, last.thread, last.call, i, c);
    if s.tail == c {
      m := |before|;
    } else {
      m := CursorWasTail(cap, threads, before, i, c);
    }
  }

  /** And the cursor of a try_emplace was head. */
  lemma {:induction false} CursorWasHead<T>(cap: nat, threads: nat, schedule: seq<Choice<T>>, i: nat, v: T, c: nat)
    returns (m: nat)
    requires cap > 0 && i < threads
    requires var s := Run(cap, threads, schedule); i < |s.pcs| && HasPushCursor(s.pcs[i], v, c)
    ensures InsidePush(cap, threads, schedule, i, v, m) && At(cap, threads, schedule, m).head == c
    decreases |schedule|
  {
    assert schedule[..|schedule|] == schedule;
    var before := schedule[..|schedule| - 1];
    var last := schedule[|schedule| - 1];
    RunGrown(cap, threads, schedule);
    EarlierAll(cap, threads, schedule);
    var s := Run(cap, threads, before);
    hide Step, Exec, Inv, At;
    PushCursorBack(s, last.thread, last.call, i, v, c);
    if s.head == c {
      m := |before|;
    } else {
      m := CursorWasHead(cap, threads, before, i, v, c);
    }
  }
}
