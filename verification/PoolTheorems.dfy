/** What the worker pool promises in every reachable state. */
module PoolTheorems {
  import opened Options
  import opened PoolMachine
  import opened PoolInvariant
  import opened PoolSteps

  // ---------------------------------------------------------------- at the I/O wait

  /** The frame reached from f by following continue_ a number of times. */
  function Follow(s: State, f: nat, times: nat): Option<nat>
    decreases times
  {
    if times == 0 then Some(f)
    else if f in s.frames && s.frames[f].continuation.Some? then Follow(s, s.frames[f].continuation.value, times - 1)
    else None
  }

  lemma {:induction false} FollowsChain(s: State, z: nat, i: nat)
    requires Inv(s) && z in s.chains && i < |s.chains[z]|
    ensures Follow(s, s.chains[z][i], i) == Some(z)
    decreases i
  {
    assert LinkOk(s, z, i) && ChainOk(s, z);
    hide Inv;
    if i > 0 {
      FollowsChain(s, z, i - 1);
    }
  }

  /** A session of a worker's set, as the worker needs it to be before it waits. */
  ghost predicate WaitsOn(s: State, z: nat, w: nat, o: nat)
  {
    && o in s.ops && s.ops[o].ring == w && s.ops[o].handler in s.frames
    && z in s.frames && s.frames[z].point != Finished
    && s.frames[s.ops[o].handler].session == z && s.frames[s.ops[o].handler].point == AtIo(o)
    && (exists n :: Follow(s, s.ops[o].handler, n) == Some(z))
    && (forall p :: p in s.ops && s.ops[p].handler in s.frames && s.frames[s.ops[p].handler].session == z ==> p == o)
  }

  lemma ListedWaits(s: State, w: nat, z: nat) returns (o: nat)
    requires Inv(s) && w < |s.workers| && s.workers[w].pc.Waiting? && z in s.workers[w].coros
    ensures WaitsOn(s, z, w, o)
  {
    assert WorkerOk(s, w) && HomeOk(s, z) && ChainOk(s, z) && LinkOk(s, z, 0);
    var n := |s.chains[z]|;
    var leaf := Leaf(s, z);
    assert LinkOk(s, z, n - 1) && RunOk(s, leaf) && WaitOk(s, leaf);
    o := s.frames[leaf].point.op;
    assert OpOk(s, o);
    FollowsChain(s, z, n - 1);
    forall p | p in s.ops && s.ops[p].handler in s.frames && s.frames[s.ops[p].handler].session == z ensures p == o {
      OnlyTheLeafWaits(s, p);
    }
  }

  lemma OnlyTheLeafWaits(s: State, p: nat)
    requires Inv(s) && p in s.ops
    ensures s.ops[p].handler in s.frames && s.frames[s.ops[p].handler].session in s.chains
    ensures var z := s.frames[s.ops[p].handler].session;
            |s.chains[z]| >= 1 && s.ops[p].handler == Leaf(s, z) && s.frames[Leaf(s, z)].point == AtIo(p)
  {
    assert OpOk(s, p);
    FrameAt(s, s.ops[p].handler);
    assert LinkOk(s, s.frames[s.ops[p].handler].session, s.frames[s.ops[p].handler].depth);
  }

  /**
    Whenever a worker reaches its wait, its set is not empty, and every session in it is unfinished and has exactly
    one outstanding operation, on this worker's ring, whose handler is at the end of a chain of continuations that
    leads to the session.  So the wait has something to wait for.
   */
  lemma RingInvariant(workers: nat, schedule: seq<Choice>, w: nat)
    requires w < |Run(workers, schedule).workers| && Run(workers, schedule).workers[w].pc.Waiting?
    ensures var s := Run(workers, schedule);
            s.workers[w].coros != {} && (forall z :: z in s.workers[w].coros ==> exists o :: WaitsOn(s, z, w, o))
    ensures exists o :: o in Run(workers, schedule).ops && Run(workers, schedule).ops[o].ring == w
  {
    RunInv(workers, schedule);
    hide Run;
    var s := Run(workers, schedule);
    assert WorkerOk(s, w);
    hide Inv;
    forall z | z in s.workers[w].coros ensures exists o :: WaitsOn(s, z, w, o) {
      var o := ListedWaits(s, w, z);
    }
    var z :| z in s.workers[w].coros;
    var o := ListedWaits(s, w, z);
  }

  // ---------------------------------------------------------------- one worker for a session

  /** No session is in the sets of two workers, nor run by one and kept by another. */
  lemma OneWorker(s: State, w: nat, v: nat)
    requires Inv(s) && w < |s.workers| && v < |s.workers| && w != v
    ensures s.workers[w].coros !! s.workers[v].coros
    ensures s.workers[w].pc.Running? && s.workers[v].pc.Running? ==>
              s.workers[w].pc.leaf in s.frames && s.workers[v].pc.leaf in s.frames
              && s.frames[s.workers[w].pc.leaf].session != s.frames[s.workers[v].pc.leaf].session
    ensures s.workers[w].pc.Running? ==>
              s.workers[w].pc.leaf in s.frames && s.frames[s.workers[w].pc.leaf].session !in s.workers[v].coros
  {
    assert WorkerOk(s, w) && WorkerOk(s, v);
  }

  /** Whatever a completion resumes is alive, suspended in exactly that await, and its session is no other worker's. */
  lemma ResumesAlive(workers: nat, schedule: seq<Choice>, w: nat, o: nat)
    requires w < |Run(workers, schedule).workers| && Run(workers, schedule).workers[w].pc.Harvesting?
    requires o in Run(workers, schedule).ops && Run(workers, schedule).ops[o].ring == w
    ensures var s := Run(workers, schedule);
            var f := s.ops[o].handler;
            f in s.frames && s.frames[f].point == AtIo(o) && s.frames[f].session in s.workers[w].coros
            && forall v :: 0 <= v < |s.workers| && s.workers[v].pc.Running? ==>
                 s.workers[v].pc.leaf in s.frames && s.frames[s.workers[v].pc.leaf].session != s.frames[f].session
  {
    RunInv(workers, schedule);
    hide Run;
    var s := Run(workers, schedule);
    assert OpOk(s, o) && WorkerOk(s, w);
    var f := s.ops[o].handler;
    FrameAt(s, f);
    var z := s.frames[f].session;
    assert HomeOk(s, z) && WorkerOk(s, w);
    OnlyTheLeafWaits(s, o);
    forall v | 0 <= v < |s.workers| && s.workers[v].pc.Running?
      ensures s.workers[v].pc.leaf in s.frames && s.frames[s.workers[v].pc.leaf].session != z {
      RunningAt(s, v);
    }
  }

  // ---------------------------------------------------------------- resumed by its own completion only

  /** The frame waits for operation o. */
  ghost predicate WaitsFor(s: State, f: nat, o: nat)
  {
    f in s.frames && s.frames[f].point == AtIo(o)
  }

  /** Worker w takes the completion of o, which was outstanding on its ring and had completed, and runs f with it. */
  ghost predicate TakesCompletion(s: State, r: State, w: nat, f: nat, o: nat)
  {
    && w < |s.workers| && s.workers[w].pc.Harvesting? && w < |r.workers| && r.workers[w].pc == Running(f, None)
    && o in s.ops && s.ops[o] == Op(w, f, true) && o !in r.ops
    && f in r.frames && r.frames[f].point == Executing
  }

  lemma HarvestWakes(s: State, w: nat, act: Act, f: nat, o: nat)
    requires Inv(s) && WaitsFor(s, f, o) && w < |s.workers| && s.workers[w].pc.Harvesting?
    ensures var r := WorkStep(s, w, act);
            WaitsFor(r, f, o) || (act == Pick(o) && TakesCompletion(s, r, w, f, o))
  {
    assert WaitOk(s, f);
    if act.Pick? && act.it in s.ops {
      assert OpOk(s, act.it);
    }
    hide Inv, ToIo, ToTask, ToEnd, Pop, Start, List, Sweep;
  }

  lemma RunsWake(s: State, w: nat, act: Act, f: nat, o: nat)
    requires Inv(s) && WaitsFor(s, f, o) && w < |s.workers| && s.workers[w].pc.Running?
    ensures WaitsFor(WorkStep(s, w, act), f, o)
  {
    FrameAt(s, f);
    RunningAt(s, w);
    var g := s.workers[w].pc.leaf;
    var x := s.frames[g].session;
    assert |s.chains[x]| >= 2 ==> LinkOk(s, x, |s.chains[x]| - 2);
    hide Inv, Harvest, Pop, Start, List, Sweep;
  }

  lemma OthersWake(s: State, w: nat, act: Act, f: nat, o: nat)
    requires Inv(s) && WaitsFor(s, f, o) && w < |s.workers| && !s.workers[w].pc.Running? && !s.workers[w].pc.Harvesting?
    ensures WaitsFor(WorkStep(s, w, act), f, o)
  {
    assert WorkerOk(s, w);
    FrameAt(s, f);
    if s.workers[w].pc.Starting? {
      assert HomeOk(s, s.workers[w].pc.session);
    }
    hide Inv, Harvest, ToIo, ToTask, ToEnd;
  }

  /** A coroutine that waits for an operation goes on by its completion only: by no other step of anybody. */
  lemma WakesByCompletion(s: State, choice: Choice, f: nat, o: nat)
    requires Inv(s) && WaitsFor(s, f, o)
    ensures var r := Step(s, choice);
            WaitsFor(r, f, o) || exists w :: choice == Work(w, Pick(o)) && TakesCompletion(s, r, w, f, o)
  {
    FrameAt(s, f);
    hide Inv, WorkStep;
    if choice.Work? && choice.worker < |s.workers| {
      hide WaitsFor, TakesCompletion;
      var w := choice.worker;
      if s.workers[w].pc.Running? {
        RunsWake(s, w, choice.act, f, o);
      } else if s.workers[w].pc.Harvesting? {
        HarvestWakes(s, w, choice.act, f, o);
      } else {
        OthersWake(s, w, choice.act, f, o);
      }
    } else if choice.Work? {
      NoWorker(s, choice.worker, choice.act);
    }
  }

  /** A completed operation was completed by the kernel. */
  ghost predicate CompletedBefore(workers: nat, schedule: seq<Choice>, o: nat)
  {
    exists k :: 0 <= k < |schedule| && schedule[k] == Complete(o) && o in Run(workers, schedule[..k]).ops
  }

  lemma OpsKept(s: State, w: nat, act: Act, o: nat)
    requires w < |s.workers|
    ensures o in WorkStep(s, w, act).ops && WorkStep(s, w, act).ops[o].completed ==> o in s.ops && s.ops[o].completed
  {
    if s.workers[w].pc.Running? {
      hide Harvest, Sweep, Pop, Start, List;
    } else if s.workers[w].pc.Harvesting? || s.workers[w].pc.Sweeping? {
      hide ToIo, ToTask, ToEnd, Pop, Start, List;
    } else {
      hide ToIo, ToTask, ToEnd, Harvest, Sweep;
    }
  }

  lemma {:induction false} CompletedByKernel(workers: nat, schedule: seq<Choice>, o: nat)
    requires o in Run(workers, schedule).ops && Run(workers, schedule).ops[o].completed
    ensures CompletedBefore(workers, schedule, o)
    decreases |schedule|
  {
    var n := |schedule| - 1;
    var before := schedule[..n];
    var last := schedule[n];
    var s := Run(workers, before);
    hide Run, WorkStep;
    if last != Complete(o) || o !in s.ops {
      if last.Work? && last.worker < |s.workers| {
        OpsKept(s, last.worker, last.act, o);
      } else if last.Work? {
        NoWorker(s, last.worker, last.act);
      }
      CompletedByKernel(workers, before, o);
      var k :| 0 <= k < |before| && before[k] == Complete(o) && o in Run(workers, before[..k]).ops;
      assert schedule[..k] == before[..k];
    }
  }

  /**
    In every run, a coroutine is resumed from an I/O await only with the completion of its own operation, which the
    kernel completed earlier in the run, by the worker whose ring it is on; the completion is then gone.
   */
  lemma ResumedWhenCompleted(workers: nat, schedule: seq<Choice>, choice: Choice, f: nat, o: nat)
    requires WaitsFor(Run(workers, schedule), f, o) && !WaitsFor(Run(workers, schedule + [choice]), f, o)
    ensures exists w ::
              choice == Work(w, Pick(o))
              && TakesCompletion(Run(workers, schedule), Run(workers, schedule + [choice]), w, f, o)
    ensures CompletedBefore(workers, schedule, o)
  {
    RunInv(workers, schedule);
    RunStep(workers, schedule, choice);
    hide Run, Step, Inv;
    WakesByCompletion(Run(workers, schedule), choice, f, o);
    CompletedByKernel(workers, schedule, o);
  }

  /** And a worker leaves its wait only when the kernel has completed an operation of its ring. */
  lemma WaitEndsByCompletion(workers: nat, schedule: seq<Choice>, choice: Choice, w: nat)
    requires w < |Run(workers, schedule).workers| && Run(workers, schedule).workers[w].pc.Waiting?
    requires w < |Run(workers, schedule + [choice]).workers|
    requires !Run(workers, schedule + [choice]).workers[w].pc.Waiting?
    ensures exists o ::
              o in Run(workers, schedule).ops && Run(workers, schedule).ops[o].ring == w
              && CompletedBefore(workers, schedule, o)
  {
    RunStep(workers, schedule, choice);
    hide Run;
    var s := Run(workers, schedule);
    OnlyOwnMoves(s, choice, w);
    assert Ready(s, w);
    var o :| o in s.ops && s.ops[o].ring == w && s.ops[o].completed;
    CompletedByKernel(workers, schedule, o);
  }

  lemma OnlyOwnMoves(s: State, choice: Choice, w: nat)
    requires w < |s.workers| && s.workers[w].pc.Waiting? && w < |Step(s, choice).workers|
    requires !Step(s, choice).workers[w].pc.Waiting?
    ensures Ready(s, w)
  {
    if choice.Work? && choice.worker < |s.workers| {
      if choice.worker != w {
        StandsStill(s, choice.worker, choice.act, w);
        hide WorkStep;
      } else {
        hide Ready;
      }
    }
  }

  ghost predicate Still(s: State, r: State, w: nat)
    requires w < |s.workers|
  {
    |r.workers| == |s.workers| && r.workers[w] == s.workers[w]
  }

  lemma RunStill(s: State, v: nat, f: nat, first: Option<nat>, w: nat)
    requires v < |s.workers| && w < |s.workers| && v != w
    ensures Still(s, ToIo(s, v, f, first), w) && Still(s, ToTask(s, v, f, first), w)
        && Still(s, ToEnd(s, v, f, first), w)
  {
  }

  lemma TakeStill(s: State, v: nat, z: nat, todo: set<nat>, w: nat)
    requires v < |s.workers| && w < |s.workers| && v != w
    ensures Still(s, Pop(s, v), w) && Still(s, Start(s, v, z), w) && Still(s, List(s, v, z), w)
    ensures Still(s, Harvest(s, v, z), w) && Still(s, Sweep(s, v, z, todo), w)
  {
  }

  lemma PcStill(s: State, v: nat, pc: Pc, w: nat)
    requires v < |s.workers| && w < |s.workers| && v != w
    ensures Still(s, WithPc(s, v, pc), w) && Still(s, s, w)
  {
  }

  /** A worker's step moves no other worker. */
  lemma StandsStill(s: State, v: nat, act: Act, w: nat)
    requires v < |s.workers| && w < |s.workers| && v != w
    ensures Still(s, WorkStep(s, v, act), w)
  {
    var pc := s.workers[v].pc;
    var it := if act.Pick? then act.it else 0;
    TakeStill(s, v, if pc.Starting? || pc.Listing? then pc.session else it, if pc.Sweeping? then pc.todo else {}, w);
    if pc.Running? {
      RunStill(s, v, pc.leaf, pc.first, w);
    }
    forall next ensures Still(s, WithPc(s, v, next), w) {
      PcStill(s, v, next, w);
    }
    PcStill(s, v, pc, w);
    hide Still, Ready, ToIo, ToTask, ToEnd, Pop, Start, List, Harvest, Sweep, WithPc;
  }

  // ---------------------------------------------------------------- destruction

  /** What a sweep destroys is done, is its whole session, and nothing waits for it or runs it. */
  lemma DestroysDone(s: State, w: nat, z: nat, todo: set<nat>)
    requires Inv(s) && w < |s.workers| && s.workers[w].pc == Sweeping(todo) && z in todo
    requires z in s.frames && z !in Sweep(s, w, z, todo).frames
    ensures s.frames[z].point == Finished && z in s.chains && s.chains[z] == [z]
    ensures forall o :: o in s.ops ==> s.ops[o].handler in s.frames && s.frames[s.ops[o].handler].session != z
    ensures forall f :: f in s.frames && f != z ==> s.frames[f].session != z
  {
    assert WorkerOk(s, w);
    FrameAt(s, z);
    assert ChainOk(s, z) && LinkOk(s, z, 0);
    assert s.chains[z] == [z];
    forall f | f in s.frames && f != z ensures s.frames[f].session != z {
      FrameAt(s, f);
    }
    forall o | o in s.ops ensures s.ops[o].handler in s.frames && s.frames[s.ops[o].handler].session != z {
      assert OpOk(s, o);
    }
  }

  ghost predicate FrameGone(s: State, f: nat)
  {
    f < s.nextFrame && f !in s.frames
  }

  ghost predicate OpGone(s: State, o: nat)
  {
    o < s.nextOp && o !in s.ops
  }

  /** What is gone before a step is gone after it. */
  ghost predicate KeepsGone(s: State, r: State, f: nat, o: nat)
  {
    (FrameGone(s, f) ==> FrameGone(r, f)) && (OpGone(s, o) ==> OpGone(r, o))
  }

  lemma PcKeepsGone(s: State, w: nat, pc: Pc, g: nat, o: nat)
    requires w < |s.workers|
    ensures KeepsGone(s, WithPc(s, w, pc), g, o)
  {
  }

  lemma RunKeepsGone(s: State, w: nat, act: Act, g: nat, o: nat)
    requires w < |s.workers| && s.workers[w].pc.Running?
    ensures KeepsGone(s, WorkStep(s, w, act), g, o)
  {
  }

  lemma TakeKeepsGone(s: State, w: nat, z: nat, g: nat, o: nat)
    requires w < |s.workers|
    ensures KeepsGone(s, Pop(s, w), g, o) && KeepsGone(s, Start(s, w, z), g, o) && KeepsGone(s, List(s, w, z), g, o)
  {
  }

  lemma LoopKeepsGone(s: State, w: nat, z: nat, todo: set<nat>, g: nat, o: nat)
    requires w < |s.workers|
    ensures KeepsGone(s, Harvest(s, w, z), g, o) && KeepsGone(s, Sweep(s, w, z, todo), g, o)
  {
  }

  lemma WorkKeepsGone(s: State, w: nat, act: Act, g: nat, o: nat)
    requires w < |s.workers|
    ensures KeepsGone(s, WorkStep(s, w, act), g, o)
  {
    hide Ready, ToIo, ToTask, ToEnd, Pop, Start, List, Harvest, Sweep, WithPc, KeepsGone;
    if s.workers[w].pc.Running? {
      RunKeepsGone(s, w, act, g, o);
    } else {
      var it := if act.Pick? then act.it else 0;
      var session := if s.workers[w].pc.Starting? || s.workers[w].pc.Listing? then s.workers[w].pc.session else 0;
      var todo := if s.workers[w].pc.Sweeping? then s.workers[w].pc.todo else {};
      TakeKeepsGone(s, w, session, g, o);
      LoopKeepsGone(s, w, it, todo, g, o);
      forall pc ensures KeepsGone(s, WithPc(s, w, pc), g, o) {
        PcKeepsGone(s, w, pc, g, o);
      }
      SameKeepsGone(s, g, o);
    }
  }

  lemma SameKeepsGone(s: State, g: nat, o: nat)
    ensures KeepsGone(s, s, g, o)
  {
  }

  lemma StaysGone(s: State, choice: Choice, g: nat, o: nat)
    ensures KeepsGone(s, Step(s, choice), g, o)
  {
    hide WorkStep;
    if choice.Work? && choice.worker < |s.workers| {
      WorkKeepsGone(s, choice.worker, choice.act, g, o);
    } else if choice.Work? {
      NoWorker(s, choice.worker, choice.act);
    }
  }

  lemma NoWorker(s: State, w: nat, act: Act)
    requires w >= |s.workers|
    ensures WorkStep(s, w, act) == s
  {
  }

  /** A frame that is destroyed never exists again, and an operation whose completion was taken never completes
      again. */
  lemma {:induction false} GoneForGood(workers: nat, before: seq<Choice>, after: seq<Choice>, f: nat, o: nat)
    ensures FrameGone(Run(workers, before), f) ==> FrameGone(Run(workers, before + after), f)
    ensures OpGone(Run(workers, before), o) ==> OpGone(Run(workers, before + after), o)
    decreases |after|
  {
    if after == [] {
      assert before + after == before;
    } else {
      var n := |after| - 1;
      GoneForGood(workers, before, after[..n], f, o);
      assert (before + after)[..|before + after| - 1] == before + after[..n];
      hide Step, FrameGone, OpGone;
      var s := Run(workers, before + after[..n]);
      assert Run(workers, before + after) == Step(s, after[n]);
      StaysGone(s, after[n], f, o);
    }
  }

  // ---------------------------------------------------------------- the end of an awaited coroutine

  /** Whatever a final_suspend hands control to is alive, suspended in the await of the coroutine that ends, and of the
      same session, which is no other worker's; it then executes, and the ended coroutine is destroyed. */
  lemma ContinuesAlive(workers: nat, schedule: seq<Choice>, w: nat)
    requires w < |Run(workers, schedule).workers| && Run(workers, schedule).workers[w].pc.Running?
    ensures var s := Run(workers, schedule);
            var r := Run(workers, schedule + [Work(w, Finish)]);
            var f := s.workers[w].pc.leaf;
            f in s.frames
            && match s.frames[f].continuation
               case None => f == s.frames[f].session && f in r.frames && r.frames[f].point == Finished
               case Some(p) =>
                 && p != f && p in s.frames && s.frames[p].point == Awaiting(f)
                 && s.frames[p].session == s.frames[f].session
                 && (forall v :: 0 <= v < |s.workers| && v != w && s.workers[v].pc.Running? ==>
                       s.workers[v].pc.leaf in s.frames
                         && s.frames[s.workers[v].pc.leaf].session != s.frames[p].session)
                 && r.workers[w].pc == Running(p, s.workers[w].pc.first) && p in r.frames
                 && r.frames[p].point == Executing
                 && f !in r.frames
  {
    RunInv(workers, schedule);
    RunStep(workers, schedule, Work(w, Finish));
    hide Run;
    var s := Run(workers, schedule);
    var f := s.workers[w].pc.leaf;
    RunningAt(s, w);
    var z := s.frames[f].session;
    if f != z {
      assert LinkOk(s, z, |s.chains[z]| - 2);
    }
    forall v | 0 <= v < |s.workers| && v != w && s.workers[v].pc.Running?
      ensures s.workers[v].pc.leaf in s.frames && s.frames[s.workers[v].pc.leaf].session != z {
      RunningAt(s, v);
    }
    hide Inv;
  }

  lemma RunStep(workers: nat, schedule: seq<Choice>, choice: Choice)
    ensures Run(workers, schedule + [choice]) == Step(Run(workers, schedule), choice)
  {
    hide Step;
    assert (schedule + [choice])[..|schedule|] == schedule;
  }

  // ---------------------------------------------------------------- sessions done on their first resume

  predicate NotBy(w: nat, schedule: seq<Choice>)
  {
    forall i :: 0 <= i < |schedule| ==> !(schedule[i].Work? && schedule[i].worker == w)
  }

  ghost predicate InNoSet(s: State, z: nat)
  {
    forall w :: 0 <= w < |s.workers| ==> z !in s.workers[w].coros
  }

  /** A session whose first resume has come back to its worker, and which the worker has not yet listed or dropped. */
  ghost predicate Pending(s: State, w: nat, z: nat, point: Point)
  {
    w < |s.workers| && s.workers[w].pc == Listing(z) && z in s.frames && s.frames[z].point == point
  }

  ghost predicate IsDropped(s: State, z: nat)
  {
    z in s.homes && s.homes[z] == Dropped && z in s.frames && InNoSet(s, z)
  }

  ghost predicate IsListed(s: State, w: nat, z: nat)
  {
    w < |s.workers| && z in s.homes && s.homes[z] == Listed(w) && z in s.frames && z in s.workers[w].coros
  }

  lemma PendingNowhere(s: State, w: nat, z: nat, point: Point)
    requires Inv(s) && Pending(s, w, z, point)
    ensures z in s.homes && s.homes[z] == Held(w) && InNoSet(s, z) && s.frames[z].session == z
  {
    assert WorkerOk(s, w) && ChainOk(s, z) && LinkOk(s, z, 0);
    forall v | 0 <= v < |s.workers| ensures z !in s.workers[v].coros {
      assert WorkerOk(s, v);
    }
  }

  lemma RunLeaves(s: State, v: nat, act: Act, w: nat, z: nat, point: Point)
    requires Inv(s) && Pending(s, w, z, point) && v < |s.workers| && v != w && s.workers[v].pc.Running?
    ensures Pending(WorkStep(s, v, act), w, z, point)
  {
    PendingNowhere(s, w, z, point);
    RunningAt(s, v);
    FrameAt(s, z);
    var x := s.frames[s.workers[v].pc.leaf].session;
    assert |s.chains[x]| >= 2 ==> LinkOk(s, x, |s.chains[x]| - 2);
    hide Inv;
  }

  lemma HarvestLeaves(s: State, v: nat, act: Act, w: nat, z: nat, point: Point)
    requires Inv(s) && Pending(s, w, z, point) && v < |s.workers| && v != w && s.workers[v].pc.Harvesting?
    ensures Pending(WorkStep(s, v, act), w, z, point)
  {
    PendingNowhere(s, w, z, point);
    FrameAt(s, z);
    if act.Pick? && act.it in s.ops {
      assert OpOk(s, act.it);
      FrameAt(s, s.ops[act.it].handler);
    }
    hide Inv;
  }

  lemma ElseLeaves(s: State, v: nat, act: Act, w: nat, z: nat, point: Point)
    requires Inv(s) && Pending(s, w, z, point) && v < |s.workers| && v != w
    requires !s.workers[v].pc.Running? && !s.workers[v].pc.Harvesting?
    ensures Pending(WorkStep(s, v, act), w, z, point)
  {
    PendingNowhere(s, w, z, point);
    assert WorkerOk(s, v);
    hide Inv;
    if s.workers[v].pc.Popping? || s.workers[v].pc.Starting? || s.workers[v].pc.Listing? {
      hide Sweep, ToIo, ToTask, ToEnd, Harvest;
    } else {
      hide Pop, Start, List, ToIo, ToTask, ToEnd, Harvest;
    }
  }

  /** What the others do leaves it where it is. */
  lemma PendingKept(s: State, choice: Choice, w: nat, z: nat, point: Point)
    requires Inv(s) && Pending(s, w, z, point) && !(choice.Work? && choice.worker == w)
    ensures Pending(Step(s, choice), w, z, point)
  {
    FrameAt(s, z);
    hide Inv, WorkStep;
    if choice.Work? && choice.worker < |s.workers| {
      var v := choice.worker;
      hide Pending;
      if s.workers[v].pc.Running? {
        RunLeaves(s, v, choice.act, w, z, point);
      } else if s.workers[v].pc.Harvesting? {
        HarvestLeaves(s, v, choice.act, w, z, point);
      } else {
        ElseLeaves(s, v, choice.act, w, z, point);
      }
    } else if choice.Work? {
      NoWorker(s, choice.worker, choice.act);
    }
  }

  /** Its worker's next step lists it, unless it is done. */
  lemma PendingEnds(s: State, act: Act, w: nat, z: nat, point: Point)
    requires Inv(s) && Pending(s, w, z, point)
    ensures var r := Step(s, Work(w, act));
            if point == Finished then IsDropped(r, z) else IsListed(r, w, z)
  {
    PendingNowhere(s, w, z, point);
    hide Inv;
  }

  lemma DroppedNowhere(s: State, z: nat)
    requires Inv(s) && z in s.homes && s.homes[z] == Dropped
    ensures IsDropped(s, z)
  {
    assert ChainOk(s, z) && LinkOk(s, z, 0);
    forall w | 0 <= w < |s.workers| ensures z !in s.workers[w].coros {
      assert WorkerOk(s, w);
    }
  }

  lemma DroppedKept(s: State, choice: Choice, z: nat)
    requires Inv(s) && z in s.homes && s.homes[z] == Dropped
    ensures z in Step(s, choice).homes && Step(s, choice).homes[z] == Dropped
  {
    assert ChainOk(s, z) && LinkOk(s, z, 0) && FrameOk(s, z);
    if choice.Work? && choice.worker < |s.workers| {
      var w := choice.worker;
      assert WorkerOk(s, w);
      if s.workers[w].pc.Popping? && s.queue != [] && s.queue[0].Some? {
        assert s.homes[s.queue[0].value] == Queued;
      }
    }
    hide Inv;
  }

  /** What has become of a session whose first resume came back: nothing yet, if its worker has not moved since. */
  ghost predicate Decided(s: State, w: nat, z: nat, point: Point, moved: bool)
  {
    if !moved then Pending(s, w, z, point) && InNoSet(s, z) else if point == Finished then IsDropped(s, z) else true
  }

  /** The first resume of a session decides, in every run: done, it is dropped for good, in no set, and its frame is
      never destroyed; not done, it enters its worker's set with the worker's next step. */
  lemma {:induction false} FirstResumeDecides(workers: nat, before: seq<Choice>, after: seq<Choice>, w: nat, z: nat,
                                              point: Point)
    requires Pending(Run(workers, before), w, z, point)
    ensures Decided(Run(workers, before + after), w, z, point, !NotBy(w, after))
    ensures after != [] && NotBy(w, after[..|after| - 1]) && !NotBy(w, after) && point != Finished ==>
              IsListed(Run(workers, before + after), w, z)
    decreases |after|
  {
    RunInv(workers, before + after);
    hide Run, Step, Inv, Pending, IsDropped, IsListed;
    if after == [] {
      assert before + after == before;
      PendingNowhere(Run(workers, before), w, z, point);
    } else {
      var n := |after| - 1;
      FirstResumeDecides(workers, before, after[..n], w, z, point);
      assert after == after[..n] + [after[n]];
      assert before + after == (before + after[..n]) + [after[n]];
      var s := Run(workers, before + after[..n]);
      RunInv(workers, before + after[..n]);
      RunStep(workers, before + after[..n], after[n]);
      NotByLast(w, after);
      hide NotBy;
      DecidedStep(s, after[n], w, z, point, !NotBy(w, after[..n]));
    }
  }

  lemma NotByLast(w: nat, schedule: seq<Choice>)
    requires schedule != []
    ensures var n := |schedule| - 1;
            NotBy(w, schedule) <==> NotBy(w, schedule[..n]) && !(schedule[n].Work? && schedule[n].worker == w)
  {
  }

  lemma DecidedStep(s: State, choice: Choice, w: nat, z: nat, point: Point, moved: bool)
    requires Inv(s) && Decided(s, w, z, point, moved)
    ensures var moves := choice.Work? && choice.worker == w;
            Decided(Step(s, choice), w, z, point, moved || moves)
            && (!moved && moves && point != Finished ==> IsListed(Step(s, choice), w, z))
  {
    StepInv(s, choice);
    var r := Step(s, choice);
    hide Step, Inv, Pending, InNoSet;
    if !moved && choice.Work? && choice.worker == w {
      PendingEnds(s, choice.act, w, z, point);
    } else if !moved {
      PendingKept(s, choice, w, z, point);
      PendingNowhere(r, w, z, point);
    } else if point == Finished {
      DroppedKept(s, choice, z);
      DroppedNowhere(r, z);
    }
  }

  /** One such run: a session that ends before its first await is dropped. */
  lemma DropReached()
    ensures var schedule := [Submit, Work(0, Go), Work(0, Go), Work(0, Go), Work(0, Finish)];
            Pending(Run(1, schedule), 0, 0, Finished) && IsDropped(Run(1, schedule + [Work(0, Go)]), 0)
  {
    var s1 := [Submit];
    var s2 := s1 + [Work(0, Go)];
    var s3 := s2 + [Work(0, Go)];
    var s4 := s3 + [Work(0, Go)];
    var s5 := s4 + [Work(0, Finish)];
    assert s5 == [Submit, Work(0, Go), Work(0, Go), Work(0, Go), Work(0, Finish)];
    assert [] + [Submit] == s1;
    RunStep(1, [], Submit);
    RunStep(1, s1, Work(0, Go));
    RunStep(1, s2, Work(0, Go));
    RunStep(1, s3, Work(0, Go));
    RunStep(1, s4, Work(0, Finish));
    assert Run(1, []) == Init(1);
    hide Run;
    assert Run(1, s5).workers[0].pc == Listing(0);
    FirstResumeDecides(1, s5, [Work(0, Go)], 0, 0, Finished);
    assert !NotBy(0, [Work(0, Go)]) by {
      assert [Work(0, Go)][0] == Work(0, Go);
    }
  }
}
