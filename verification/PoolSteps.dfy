/** Every step of the worker pool keeps its invariant. */
module PoolSteps {
  import opened Options
  import opened PoolMachine
  import opened PoolInvariant

  // ---------------------------------------------------------------- frame conditions

  /** Nothing but the workers, the queue, the rings, the homes and the operations may differ. */
  ghost predicate SameFrames(s: State, r: State)
  {
    r.frames == s.frames && r.chains == s.chains && r.nextFrame >= s.nextFrame && r.homes.Keys == s.homes.Keys
  }

  lemma KeepFrames(s: State, r: State)
    requires Inv(s) && SameFrames(s, r)
    ensures FramesOk(r) && LinksOk(r) && ChainsOk(r)
  {
    forall f: nat ensures FrameOk(r, f) { assert FrameOk(s, f); }
    forall z: nat, i: nat ensures LinkOk(r, z, i) { assert LinkOk(s, z, i); }
    forall z: nat ensures ChainOk(r, z) { assert ChainOk(s, z); }
  }

  lemma KeepWaits(s: State, r: State)
    requires Inv(s) && r.frames == s.frames && r.ops == s.ops && r.nextOp == s.nextOp && r.homes == s.homes
    ensures OpsOk(r) && WaitsOk(r)
  {
    forall o: nat ensures OpOk(r, o) { assert OpOk(s, o); }
    forall f: nat ensures WaitOk(r, f) { assert WaitOk(s, f); }
  }

  // ---------------------------------------------------------------- steps that move only a program counter

  predicate Quiet(pc: Pc)
  {
    !pc.Starting? && !pc.Listing? && !pc.Running?
  }

  lemma PcInv(s: State, w: nat, pc: Pc)
    requires Inv(s) && w < |s.workers| && Quiet(s.workers[w].pc) && Quiet(pc)
    requires pc.Idle? || pc.Stopped? ==> s.workers[w].coros == {}
    requires pc.Waiting? ==> s.workers[w].coros != {}
    requires pc.Sweeping? ==> pc.todo <= s.workers[w].coros
    requires forall z :: z in s.workers[w].coros && z in s.frames && s.frames[z].point == Finished ==> MayBeDone(pc, z)
    ensures Inv(WithPc(s, w, pc))
  {
    var r := WithPc(s, w, pc);
    KeepFrames(s, r);
    KeepWaits(s, r);
    forall z: nat ensures HomeOk(r, z) { assert HomeOk(s, z); }
    forall z: nat ensures RingOk(r, z) { assert RingOk(s, z); }
    forall v: nat ensures WorkerOk(r, v) { assert WorkerOk(s, v); }
    forall f: nat ensures RunOk(r, f) { assert RunOk(s, f); }
  }

  lemma IdleInv(s: State, w: nat, act: Act)
    requires Inv(s) && w < |s.workers| && s.workers[w].pc.Idle?
    ensures Inv(WorkStep(s, w, act))
  {
    assert WorkerOk(s, w);
    PcInv(s, w, if act == Quit then Stopped else Popping);
  }

  lemma CheckingInv(s: State, w: nat, act: Act)
    requires Inv(s) && w < |s.workers| && (s.workers[w].pc.Checking? || s.workers[w].pc.Waiting?)
    ensures Inv(WorkStep(s, w, act))
  {
    assert WorkerOk(s, w);
    PcInv(s, w, if s.workers[w].coros == {} then Idle else Waiting);
    PcInv(s, w, Harvesting);
  }

  lemma SweepEndsInv(s: State, w: nat, act: Act)
    requires Inv(s) && w < |s.workers|
    requires s.workers[w].pc == Sweeping({}) || (s.workers[w].pc.Harvesting? && act == Quit)
    ensures Inv(WorkStep(s, w, act))
  {
    assert WorkerOk(s, w);
    if s.workers[w].pc.Sweeping? {
      PcInv(s, w, Popping);
    } else {
      PcInv(s, w, Sweeping(s.workers[w].coros));
    }
  }

  // ---------------------------------------------------------------- the environment

  lemma SubmitInv(s: State)
    requires Inv(s)
    ensures Inv(Submitted(s))
  {
    var r := Submitted(s);
    var n := s.nextFrame;
    assert FrameOk(s, n) && ChainOk(s, n) && LinkOk(s, n, 0);
    forall f: nat ensures FrameOk(r, f) { assert FrameOk(s, f); }
    forall z: nat, i: nat ensures LinkOk(r, z, i) { assert LinkOk(s, z, i); }
    forall z: nat ensures ChainOk(r, z) { assert ChainOk(s, z); }
    forall z: nat ensures HomeOk(r, z) {
      assert HomeOk(s, z);
      assert r.queue[|s.queue|] == Some(n);
      if z in s.homes && z in s.frames && s.homes[z].Queued? {
        var i :| 0 <= i < |s.queue| && s.queue[i] == Some(z);
        assert r.queue[i] == Some(z);
      }
    }
    forall z: nat ensures RingOk(r, z) { assert RingOk(s, z); }
    forall v: nat ensures WorkerOk(r, v) { assert WorkerOk(s, v); }
    forall f: nat ensures RunOk(r, f) { assert RunOk(s, f); }
    forall o: nat ensures OpOk(r, o) { assert OpOk(s, o); }
    forall f: nat ensures WaitOk(r, f) { assert WaitOk(s, f); }
  }

  lemma SubmitNothingInv(s: State)
    requires Inv(s)
    ensures Inv(s.(queue := s.queue + [None]))
  {
    var r := s.(queue := s.queue + [None]);
    KeepFrames(s, r);
    KeepWaits(s, r);
    forall z: nat ensures HomeOk(r, z) { assert HomeOk(s, z); }
    forall z: nat ensures RingOk(r, z) { assert RingOk(s, z); }
    forall v: nat ensures WorkerOk(r, v) { assert WorkerOk(s, v); }
    forall f: nat ensures RunOk(r, f) { assert RunOk(s, f); }
  }

  lemma CompleteInv(s: State, o: nat)
    requires Inv(s) && o in s.ops
    ensures Inv(s.(ops := s.ops[o := s.ops[o].(completed := true)]))
  {
    var r := s.(ops := s.ops[o := s.ops[o].(completed := true)]);
    KeepFrames(s, r);
    forall z: nat ensures HomeOk(r, z) { assert HomeOk(s, z); }
    forall z: nat ensures RingOk(r, z) { assert RingOk(s, z); }
    forall v: nat ensures WorkerOk(r, v) { assert WorkerOk(s, v); }
    forall f: nat ensures RunOk(r, f) { assert RunOk(s, f); }
    forall p: nat ensures OpOk(r, p) { assert OpOk(s, p); }
    forall f: nat ensures WaitOk(r, f) { assert WaitOk(s, f); }
  }

  // ---------------------------------------------------------------- taking a session from the queue

  lemma PopInv(s: State, w: nat)
    requires Inv(s) && w < |s.workers| && s.workers[w].pc.Popping?
    ensures Inv(Pop(s, w))
  {
    assert WorkerOk(s, w);
    if s.queue == [] {
      PcInv(s, w, Checking);
    } else if s.queue[0] == None {
      DropNullInv(s);
    } else {
      TakeInv(s, w);
    }
  }

  lemma DropNullInv(s: State)
    requires Inv(s) && s.queue != [] && s.queue[0] == None
    ensures Inv(s.(queue := s.queue[1..]))
  {
    var r := s.(queue := s.queue[1..]);
    KeepFrames(s, r);
    KeepWaits(s, r);
    forall z: nat ensures HomeOk(r, z) {
      assert HomeOk(s, z);
      if z in s.homes && z in s.frames && s.homes[z].Queued? {
        StillQueued(s, z);
      }
    }
    forall z: nat ensures RingOk(r, z) { assert RingOk(s, z); }
    forall v: nat ensures WorkerOk(r, v) { assert WorkerOk(s, v); }
    forall f: nat ensures RunOk(r, f) { assert RunOk(s, f); }
  }

  lemma StillQueued(s: State, z: nat)
    requires s.queue != [] && Some(z) in s.queue && s.queue[0] != Some(z)
    ensures Some(z) in s.queue[1..]
  {
  }

  lemma TakeInv(s: State, w: nat)
    requires Inv(s) && w < |s.workers| && s.workers[w].pc.Popping? && s.queue != [] && s.queue[0].Some?
    ensures Inv(Pop(s, w))
  {
    var r := Pop(s, w);
    var q := s.queue[0].value;
    assert HomeOk(s, q) && ChainOk(s, q) && LinkOk(s, q, 0) && WorkerOk(s, w);
    KeepFrames(s, r);
    forall z: nat ensures HomeOk(r, z) {
      assert HomeOk(s, z);
      if z != q && z in s.homes && z in s.frames && s.homes[z].Queued? {
        StillQueued(s, z);
      }
    }
    forall i | 0 <= i < |r.queue| ensures r.queue[i] == s.queue[i + 1] {
    }
    forall z: nat ensures RingOk(r, z) { assert RingOk(s, z); }
    forall v: nat ensures WorkerOk(r, v) { assert WorkerOk(s, v); }
    forall f: nat ensures RunOk(r, f) { assert RunOk(s, f); }
    forall o: nat ensures OpOk(r, o) { assert OpOk(s, o); }
    forall f: nat ensures WaitOk(r, f) { assert WaitOk(s, f); }
  }

  lemma StartInv(s: State, w: nat, act: Act)
    requires Inv(s) && w < |s.workers| && s.workers[w].pc.Starting?
    ensures Inv(WorkStep(s, w, act))
  {
    var y := s.workers[w].pc.session;
    var r := Start(s, w, y);
    assert WorkerOk(s, w) && HomeOk(s, y) && ChainOk(s, y) && LinkOk(s, y, 0);
    forall f: nat ensures FrameOk(r, f) { assert FrameOk(s, f); }
    forall z: nat, i: nat ensures LinkOk(r, z, i) { assert LinkOk(s, z, i); }
    forall z: nat ensures ChainOk(r, z) { assert ChainOk(s, z); }
    forall z: nat ensures HomeOk(r, z) { assert HomeOk(s, z); }
    forall z: nat ensures RingOk(r, z) { assert RingOk(s, z); }
    forall v: nat ensures WorkerOk(r, v) { assert WorkerOk(s, v); }
    forall f: nat ensures RunOk(r, f) { assert RunOk(s, f); }
    forall o: nat ensures OpOk(r, o) { assert OpOk(s, o); }
    forall f: nat ensures WaitOk(r, f) { assert WaitOk(s, f); }
  }

  lemma ListInv(s: State, w: nat, act: Act)
    requires Inv(s) && w < |s.workers| && s.workers[w].pc.Listing?
    ensures Inv(WorkStep(s, w, act))
  {
    var y := s.workers[w].pc.session;
    var r := List(s, w, y);
    assert WorkerOk(s, w) && HomeOk(s, y) && ChainOk(s, y) && LinkOk(s, y, 0);
    KeepFrames(s, r);
    forall z: nat ensures HomeOk(r, z) { assert HomeOk(s, z); }
    forall z: nat ensures RingOk(r, z) { assert RingOk(s, z); }
    forall v: nat ensures WorkerOk(r, v) { assert WorkerOk(s, v); }
    forall f: nat ensures RunOk(r, f) { assert RunOk(s, f); }
    forall o: nat ensures OpOk(r, o) {
      assert OpOk(s, o);
      if o in s.ops {
        FrameAt(s, s.ops[o].handler);
      }
    }
    forall f: nat ensures WaitOk(r, f) { assert WaitOk(s, f); }
  }

  // ---------------------------------------------------------------- a coroutine's own steps

  /** What is known of a worker that runs a coroutine. */
  lemma RunningAt(s: State, w: nat)
    requires Inv(s) && w < |s.workers| && s.workers[w].pc.Running?
    ensures var f, first := s.workers[w].pc.leaf, s.workers[w].pc.first;
            f in s.frames && s.frames[f].point == Executing
            && (var z := s.frames[f].session;
                z in s.chains && z in s.homes && z in s.frames && |s.chains[z]| >= 1 && f == Leaf(s, z)
                  && f < s.nextFrame
                && s.frames[f].depth == |s.chains[z]| - 1 && (f == z <==> |s.chains[z]| == 1)
                && s.frames[f].continuation == (if f == z then None else Some(s.chains[z][|s.chains[z]| - 2]))
                && At(s.homes[z], w) && (s.homes[z] == Held(w) <==> first == Some(z))
                && (first.Some? ==> first == Some(z))
                && s.frames[z].point != Fresh && s.frames[z].point != Finished && z in s.rings && s.rings[z] == w)
  {
    var f := s.workers[w].pc.leaf;
    assert WorkerOk(s, w);
    FrameAt(s, f);
    var z := s.frames[f].session;
    assert HomeOk(s, z) && RingOk(s, z) && ChainOk(s, z);
  }

  lemma ToIoInv(s: State, w: nat)
    requires Inv(s) && w < |s.workers| && s.workers[w].pc.Running?
    ensures Inv(ToIo(s, w, s.workers[w].pc.leaf, s.workers[w].pc.first))
  {
    var y, first := s.workers[w].pc.leaf, s.workers[w].pc.first;
    var r := ToIo(s, w, y, first);
    RunningAt(s, w);
    assert WorkerOk(s, w) && OpOk(s, s.nextOp);
    forall f: nat ensures FrameOk(r, f) { assert FrameOk(s, f); }
    forall z: nat, i: nat ensures LinkOk(r, z, i) { assert LinkOk(s, z, i); }
    forall z: nat ensures ChainOk(r, z) { assert ChainOk(s, z); }
    forall z: nat ensures HomeOk(r, z) { assert HomeOk(s, z); }
    forall z: nat ensures RingOk(r, z) { assert RingOk(s, z); }
    forall v: nat ensures WorkerOk(r, v) { assert WorkerOk(s, v); }
    forall f: nat ensures RunOk(r, f) { assert RunOk(s, f); }
    forall o: nat ensures OpOk(r, o) { assert OpOk(s, o); }
    forall f: nat ensures WaitOk(r, f) { assert WaitOk(s, f); }
  }

  lemma ToTaskChains(s: State, w: nat)
    requires Inv(s) && w < |s.workers| && s.workers[w].pc.Running?
    ensures var r := ToTask(s, w, s.workers[w].pc.leaf, s.workers[w].pc.first);
            FramesOk(r) && LinksOk(r) && ChainsOk(r) && HomesOk(r) && RingsOk(r)
  {
    var y, first := s.workers[w].pc.leaf, s.workers[w].pc.first;
    var r := ToTask(s, w, y, first);
    RunningAt(s, w);
    assert WorkerOk(s, w) && FrameOk(s, s.nextFrame) && ChainOk(s, s.nextFrame) && LinkOk(s, s.nextFrame, 0);
    forall f: nat ensures FrameOk(r, f) { assert FrameOk(s, f); }
    forall z: nat, i: nat ensures LinkOk(r, z, i) {
      assert LinkOk(s, z, i);
      if z in s.chains && i < |s.chains[z]| {
        assert FrameOk(s, s.chains[z][i]);
      }
    }
    forall z: nat ensures ChainOk(r, z) { assert ChainOk(s, z); }
    forall z: nat ensures HomeOk(r, z) { assert HomeOk(s, z); }
    forall z: nat ensures RingOk(r, z) { assert RingOk(s, z); }
  }

  lemma ToTaskInv(s: State, w: nat)
    requires Inv(s) && w < |s.workers| && s.workers[w].pc.Running?
    ensures Inv(ToTask(s, w, s.workers[w].pc.leaf, s.workers[w].pc.first))
  {
    var y, first := s.workers[w].pc.leaf, s.workers[w].pc.first;
    var r := ToTask(s, w, y, first);
    RunningAt(s, w);
    ToTaskChains(s, w);
    assert WorkerOk(s, w) && FrameOk(s, s.nextFrame) && ChainOk(s, s.nextFrame) && LinkOk(s, s.nextFrame, 0);
    forall v: nat ensures WorkerOk(r, v) { assert WorkerOk(s, v); }
    forall f: nat ensures RunOk(r, f) { assert RunOk(s, f); }
    forall o: nat ensures OpOk(r, o) { assert OpOk(s, o); }
    forall f: nat ensures WaitOk(r, f) { assert WaitOk(s, f); }
  }

  lemma SessionEndsInv(s: State, w: nat)
    requires Inv(s) && w < |s.workers| && s.workers[w].pc.Running?
    requires s.workers[w].pc.leaf in s.frames && s.frames[s.workers[w].pc.leaf].continuation == None
    ensures Inv(ToEnd(s, w, s.workers[w].pc.leaf, s.workers[w].pc.first))
  {
    var y, first := s.workers[w].pc.leaf, s.workers[w].pc.first;
    var r := ToEnd(s, w, y, first);
    RunningAt(s, w);
    assert WorkerOk(s, w);
    forall f: nat ensures FrameOk(r, f) { assert FrameOk(s, f); }
    forall z: nat, i: nat ensures LinkOk(r, z, i) { assert LinkOk(s, z, i); }
    forall z: nat ensures ChainOk(r, z) { assert ChainOk(s, z); }
    forall z: nat ensures HomeOk(r, z) { assert HomeOk(s, z); }
    forall z: nat ensures RingOk(r, z) { assert RingOk(s, z); }
    forall v: nat ensures WorkerOk(r, v) { assert WorkerOk(s, v); }
    forall f: nat ensures RunOk(r, f) { assert RunOk(s, f); }
    forall o: nat ensures OpOk(r, o) { assert OpOk(s, o); }
    forall f: nat ensures WaitOk(r, f) { assert WaitOk(s, f); }
  }

  lemma TaskEndsChains(s: State, w: nat)
    requires Inv(s) && w < |s.workers| && s.workers[w].pc.Running?
    requires s.workers[w].pc.leaf in s.frames && s.frames[s.workers[w].pc.leaf].continuation.Some?
    ensures var r := ToEnd(s, w, s.workers[w].pc.leaf, s.workers[w].pc.first);
            FramesOk(r) && LinksOk(r) && ChainsOk(r)
  {
    var y, first := s.workers[w].pc.leaf, s.workers[w].pc.first;
    var r := ToEnd(s, w, y, first);
    RunningAt(s, w);
    var x := s.frames[y].session;
    var n := |s.chains[x]|;
    assert WorkerOk(s, w) && LinkOk(s, x, n - 2) && LinkOk(s, x, n - 1) && ChainOk(s, y) && LinkOk(s, y, 0);
    forall f: nat ensures FrameOk(r, f) { assert FrameOk(s, f); }
    forall z: nat, i: nat ensures LinkOk(r, z, i) { assert LinkOk(s, z, i); }
    forall z: nat ensures ChainOk(r, z) { assert ChainOk(s, z); }
  }

  lemma TaskEndsHomes(s: State, w: nat)
    requires Inv(s) && w < |s.workers| && s.workers[w].pc.Running?
    requires s.workers[w].pc.leaf in s.frames && s.frames[s.workers[w].pc.leaf].continuation.Some?
    ensures var r := ToEnd(s, w, s.workers[w].pc.leaf, s.workers[w].pc.first);
            HomesOk(r) && RingsOk(r) && OpsOk(r) && WaitsOk(r)
  {
    var y, first := s.workers[w].pc.leaf, s.workers[w].pc.first;
    var r := ToEnd(s, w, y, first);
    RunningAt(s, w);
    var x := s.frames[y].session;
    var n := |s.chains[x]|;
    assert WorkerOk(s, w) && LinkOk(s, x, n - 2) && LinkOk(s, x, n - 1) && ChainOk(s, y) && LinkOk(s, y, 0);
    forall z: nat ensures HomeOk(r, z) { assert HomeOk(s, z); }
    forall z: nat ensures RingOk(r, z) { assert RingOk(s, z); }
    forall o: nat ensures OpOk(r, o) { assert OpOk(s, o); }
    forall f: nat ensures WaitOk(r, f) { assert WaitOk(s, f); }
  }

  lemma TaskEndsInv(s: State, w: nat)
    requires Inv(s) && w < |s.workers| && s.workers[w].pc.Running?
    requires s.workers[w].pc.leaf in s.frames && s.frames[s.workers[w].pc.leaf].continuation.Some?
    ensures Inv(ToEnd(s, w, s.workers[w].pc.leaf, s.workers[w].pc.first))
  {
    var y, first := s.workers[w].pc.leaf, s.workers[w].pc.first;
    var r := ToEnd(s, w, y, first);
    RunningAt(s, w);
    var x := s.frames[y].session;
    var n := |s.chains[x]|;
    assert WorkerOk(s, w) && LinkOk(s, x, n - 2) && LinkOk(s, x, n - 1) && ChainOk(s, y) && LinkOk(s, y, 0);
    TaskEndsChains(s, w);
    TaskEndsHomes(s, w);
    forall v: nat ensures WorkerOk(r, v) { assert WorkerOk(s, v); }
    forall f: nat ensures RunOk(r, f) { assert RunOk(s, f); }
  }

  // ---------------------------------------------------------------- completions and the sweep

  lemma HarvestInv(s: State, w: nat, o: nat)
    requires Inv(s) && w < |s.workers| && s.workers[w].pc.Harvesting?
    ensures Inv(Harvest(s, w, o))
  {
    var r := Harvest(s, w, o);
    if r != s {
      var y := s.ops[o].handler;
      assert OpOk(s, o) && WorkerOk(s, w);
      FrameAt(s, y);
      var x := s.frames[y].session;
      assert HomeOk(s, x);
      forall f: nat ensures FrameOk(r, f) { assert FrameOk(s, f); }
      forall z: nat, i: nat ensures LinkOk(r, z, i) { assert LinkOk(s, z, i); }
      forall z: nat ensures ChainOk(r, z) { assert ChainOk(s, z); }
      forall z: nat ensures HomeOk(r, z) { assert HomeOk(s, z); }
      forall z: nat ensures RingOk(r, z) { assert RingOk(s, z); }
      forall v: nat ensures WorkerOk(r, v) { assert WorkerOk(s, v); }
      forall f: nat ensures RunOk(r, f) { assert RunOk(s, f); }
      forall p: nat ensures OpOk(r, p) { assert OpOk(s, p); }
      forall f: nat ensures WaitOk(r, f) { assert WaitOk(s, f); }
    }
  }

  lemma PassInv(s: State, w: nat, y: nat)
    requires Inv(s) && w < |s.workers| && s.workers[w].pc.Sweeping? && y in s.workers[w].pc.todo
    requires y in s.frames && s.frames[y].point != Finished
    ensures Inv(Sweep(s, w, y, s.workers[w].pc.todo))
  {
    assert WorkerOk(s, w);
    PcInv(s, w, Sweeping(s.workers[w].pc.todo - {y}));
  }

  lemma DestroyInv(s: State, w: nat, y: nat)
    requires Inv(s) && w < |s.workers| && s.workers[w].pc.Sweeping? && y in s.workers[w].pc.todo
    requires y in s.frames && s.frames[y].point == Finished
    ensures Inv(Sweep(s, w, y, s.workers[w].pc.todo))
  {
    var r := Sweep(s, w, y, s.workers[w].pc.todo);
    assert WorkerOk(s, w) && HomeOk(s, y);
    FrameAt(s, y);
    assert ChainOk(s, y) && LinkOk(s, y, 0) && LinkOk(s, s.frames[y].session, s.frames[y].depth);
    assert s.chains[y] == [y];
    forall p: nat ensures OpOk(r, p) {
      assert OpOk(s, p);
      if p in s.ops {
        FrameAt(s, s.ops[p].handler);
      }
    }
    forall f: nat ensures FrameOk(r, f) { assert FrameOk(s, f); }
    forall z: nat, i: nat ensures LinkOk(r, z, i) { assert LinkOk(s, z, i); }
    forall z: nat ensures ChainOk(r, z) { assert ChainOk(s, z); }
    forall z: nat ensures HomeOk(r, z) { assert HomeOk(s, z); }
    forall z: nat ensures RingOk(r, z) { assert RingOk(s, z); }
    forall v: nat ensures WorkerOk(r, v) { assert WorkerOk(s, v); }
    forall f: nat ensures RunOk(r, f) { assert RunOk(s, f); }
    forall f: nat ensures WaitOk(r, f) { assert WaitOk(s, f); }
  }

  // ---------------------------------------------------------------- every step

  lemma WorkInv(s: State, w: nat, act: Act)
    requires Inv(s)
    ensures Inv(WorkStep(s, w, act))
  {
    hide Inv;
    if w < |s.workers| {
      match s.workers[w].pc
      case Idle => IdleInv(s, w, act);
      case Popping =>
        if act == Quit {
          StopPoppingInv(s, w);
        } else {
          PopInv(s, w);
        }
      case Starting(_) => StartInv(s, w, act);
      case Running(f, first) =>
        match act {
          case AwaitIo => ToIoInv(s, w);
          case AwaitTask => ToTaskInv(s, w);
          case Finish => ToEndInv(s, w);
          case _ =>
        }
      case Listing(_) => ListInv(s, w, act);
      case Checking => CheckingInv(s, w, act);
      case Waiting => CheckingInv(s, w, act);
      case Harvesting =>
        match act {
          case Pick(o) => HarvestInv(s, w, o);
          case Quit => SweepEndsInv(s, w, act);
          case _ =>
        }
      case Sweeping(todo) =>
        if todo == {} {
          SweepEndsInv(s, w, act);
        } else if act.Pick? {
          SweepInv(s, w, act.it);
        }
      case Stopped =>
    }
  }

  lemma StopPoppingInv(s: State, w: nat)
    requires Inv(s) && w < |s.workers| && s.workers[w].pc.Popping?
    ensures Inv(WithPc(s, w, Checking))
  {
    assert WorkerOk(s, w);
    PcInv(s, w, Checking);
  }

  lemma ToEndInv(s: State, w: nat)
    requires Inv(s) && w < |s.workers| && s.workers[w].pc.Running?
    ensures Inv(ToEnd(s, w, s.workers[w].pc.leaf, s.workers[w].pc.first))
  {
    RunningAt(s, w);
    if s.frames[s.workers[w].pc.leaf].continuation == None {
      SessionEndsInv(s, w);
    } else {
      TaskEndsInv(s, w);
    }
  }

  lemma SweepInv(s: State, w: nat, z: nat)
    requires Inv(s) && w < |s.workers| && s.workers[w].pc.Sweeping?
    ensures Inv(Sweep(s, w, z, s.workers[w].pc.todo))
  {
    if z in s.workers[w].pc.todo && z in s.frames {
      if s.frames[z].point == Finished {
        DestroyInv(s, w, z);
      } else {
        PassInv(s, w, z);
      }
    }
  }

  lemma StepInv(s: State, choice: Choice)
    requires Inv(s)
    ensures Inv(Step(s, choice))
  {
    hide Inv, WorkStep, Submitted;
    match choice
    case Submit => SubmitInv(s);
    case SubmitNothing => SubmitNothingInv(s);
    case Complete(o) =>
      if o in s.ops {
        CompleteInv(s, o);
      }
    case Work(w, act) => WorkInv(s, w, act);
  }

  lemma {:induction false} RunInv(workers: nat, schedule: seq<Choice>)
    ensures Inv(Run(workers, schedule))
    decreases |schedule|
  {
    hide Inv, Step;
    if schedule == [] {
      InitInv(workers);
    } else {
      RunInv(workers, schedule[..|schedule| - 1]);
      StepInv(Run(workers, schedule[..|schedule| - 1]), schedule[|schedule| - 1]);
    }
  }
}
