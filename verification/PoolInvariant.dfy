/** What every step of the worker pool keeps. */
module PoolInvariant {
  import opened Options
  import opened PoolMachine

  // ---------------------------------------------------------------- frames

  /** A frame has its place in the chain of its session. */
  ghost predicate FrameOk(s: State, f: nat)
  {
    f in s.frames ==>
      var fr := s.frames[f];
      f < s.nextFrame && fr.session in s.chains && fr.depth < |s.chains[fr.session]|
        && s.chains[fr.session][fr.depth] == f
  }

  ghost predicate FramesOk(s: State)
  {
    forall f: nat {:trigger FrameOk(s, f)} :: FrameOk(s, f)
  }

  /** Frame i of a chain continues the one before it, and awaits the one behind it. */
  ghost predicate LinkOk(s: State, z: nat, i: nat)
  {
    z in s.chains && i < |s.chains[z]| ==>
      var chain := s.chains[z];
      chain[i] in s.frames
      && (var fr := s.frames[chain[i]];
          fr.session == z && fr.depth == i && fr.continuation == (if i == 0 then None else Some(chain[i - 1]))
          && (if i < |chain| - 1 then fr.point == Awaiting(chain[i + 1])
              else !fr.point.Awaiting? && (fr.point.Fresh? || fr.point.Finished? ==> i == 0)))
  }

  ghost predicate LinksOk(s: State)
  {
    forall z: nat, i: nat {:trigger LinkOk(s, z, i)} :: LinkOk(s, z, i)
  }

  ghost predicate ChainOk(s: State, z: nat)
  {
    (z in s.chains <==> z in s.homes) && (z in s.chains ==> |s.chains[z]| >= 1 && s.chains[z][0] == z)
  }

  ghost predicate ChainsOk(s: State)
  {
    forall z: nat {:trigger ChainOk(s, z)} :: ChainOk(s, z)
  }

  function Leaf(s: State, z: nat): nat
    requires z in s.chains && |s.chains[z]| >= 1
  {
    s.chains[z][|s.chains[z]| - 1]
  }

  // ---------------------------------------------------------------- homes

  /** The worker has the session in its hands. */
  predicate Holds(pc: Pc, z: nat)
  {
    pc == Starting(z) || pc == Listing(z) || (pc.Running? && pc.first == Some(z))
  }

  predicate At(home: Home, w: nat)
  {
    home == Held(w) || home == Listed(w)
  }

  ghost predicate HomeOk(s: State, z: nat)
  {
    z in s.homes && z in s.frames ==>
      match s.homes[z]
      case Queued => Some(z) in s.queue && s.frames[z].point == Fresh
      case Held(w) =>
        w < |s.workers| && Holds(s.workers[w].pc, z)
        && (s.frames[z].point == Fresh <==> s.workers[w].pc == Starting(z))
      case Listed(w) => w < |s.workers| && z in s.workers[w].coros && s.frames[z].point != Fresh
      case Dropped => s.frames[z].point == Finished
  }

  ghost predicate HomesOk(s: State)
  {
    forall z: nat {:trigger HomeOk(s, z)} :: HomeOk(s, z)
  }

  ghost predicate QueueOk(s: State)
  {
    (forall i :: 0 <= i < |s.queue| && s.queue[i].Some? ==>
        s.queue[i].value in s.homes && s.homes[s.queue[i].value] == Queued)
    && (forall i, j :: 0 <= i < j < |s.queue| && s.queue[i].Some? ==> s.queue[i] != s.queue[j])
  }

  /** A session's connection uses the ring of the worker that has it. */
  ghost predicate RingOk(s: State, z: nat)
  {
    z in s.homes && z in s.frames && s.frames[z].point != Fresh && (s.homes[z].Held? || s.homes[z].Listed?) ==>
      z in s.rings && s.rings[z] == s.homes[z].worker
  }

  ghost predicate RingsOk(s: State)
  {
    forall z: nat {:trigger RingOk(s, z)} :: RingOk(s, z)
  }

  // ---------------------------------------------------------------- workers

  /** Sessions of the set that are done: only until the sweep is past them. */
  ghost predicate MayBeDone(pc: Pc, z: nat)
  {
    pc.Harvesting? || (pc.Running? && pc.first == None) || (pc.Sweeping? && z in pc.todo)
  }

  ghost predicate WorkerOk(s: State, w: nat)
  {
    w < |s.workers| ==>
      var k := s.workers[w];
      && (forall z {:trigger z in k.coros} :: z in k.coros ==>
            z in s.homes && s.homes[z] == Listed(w) && z in s.frames
              && (s.frames[z].point == Finished ==> MayBeDone(k.pc, z)))
      && (k.pc.Starting? || k.pc.Listing? ==>
          k.pc.session in s.homes && s.homes[k.pc.session] == Held(w) && k.pc.session in s.frames)
      && (k.pc.Running? ==>
            k.pc.leaf in s.frames && s.frames[k.pc.leaf].point == Executing
            && (var z := s.frames[k.pc.leaf].session;
                z in s.homes && s.homes[z] == (if k.pc.first == None then Listed(w) else Held(w))
                  && (k.pc.first.Some? ==> k.pc.first == Some(z))))
      && (k.pc.Idle? || k.pc.Stopped? ==> k.coros == {})
      && (k.pc.Waiting? ==> k.coros != {})
      && (k.pc.Sweeping? ==> k.pc.todo <= k.coros)
  }

  ghost predicate WorkersOk(s: State)
  {
    forall w: nat {:trigger WorkerOk(s, w)} :: WorkerOk(s, w)
  }

  /** A frame that executes does so on the worker that has its session. */
  ghost predicate RunOk(s: State, f: nat)
  {
    f in s.frames && s.frames[f].point == Executing ==>
      var z := s.frames[f].session;
      z in s.homes && (s.homes[z].Held? || s.homes[z].Listed?) && s.homes[z].worker < |s.workers|
      && s.workers[s.homes[z].worker].pc.Running? && s.workers[s.homes[z].worker].pc.leaf == f
  }

  ghost predicate RunsOk(s: State)
  {
    forall f: nat {:trigger RunOk(s, f)} :: RunOk(s, f)
  }

  // ---------------------------------------------------------------- operations

  /** An operation resumes the frame that waits for it, on the ring of the worker that has its session. */
  ghost predicate OpOk(s: State, o: nat)
  {
    o in s.ops ==>
      var op := s.ops[o];
      o < s.nextOp && op.handler in s.frames && s.frames[op.handler].point == AtIo(o)
      && (var z := s.frames[op.handler].session; z in s.homes && At(s.homes[z], op.ring))
  }

  ghost predicate OpsOk(s: State)
  {
    forall o: nat {:trigger OpOk(s, o)} :: OpOk(s, o)
  }

  /** A frame that waits for I/O waits for an operation that is outstanding. */
  ghost predicate WaitOk(s: State, f: nat)
  {
    f in s.frames && s.frames[f].point.AtIo? ==>
        s.frames[f].point.op in s.ops && s.ops[s.frames[f].point.op].handler == f
  }

  ghost predicate WaitsOk(s: State)
  {
    forall f: nat {:trigger WaitOk(s, f)} :: WaitOk(s, f)
  }

  ghost predicate Inv(s: State)
  {
    && FramesOk(s) && LinksOk(s) && ChainsOk(s) && HomesOk(s) && QueueOk(s) && RingsOk(s)
    && WorkersOk(s) && RunsOk(s) && OpsOk(s) && WaitsOk(s)
  }

  lemma InitInv(workers: nat)
    ensures Inv(Init(workers))
  {
  }

  // ---------------------------------------------------------------- using it

  lemma FrameAt(s: State, f: nat)
    requires Inv(s) && f in s.frames
    ensures f < s.nextFrame
    ensures var fr := s.frames[f];
            fr.session in s.chains && fr.session in s.homes && fr.session in s.frames
              && s.frames[fr.session].session == fr.session
            && fr.depth < |s.chains[fr.session]| && s.chains[fr.session][fr.depth] == f
            && (fr.point.Awaiting? <==> fr.depth < |s.chains[fr.session]| - 1)
            && fr.continuation == (if fr.depth == 0 then None else Some(s.chains[fr.session][fr.depth - 1]))
            && (fr.depth == 0 <==> f == fr.session)
            && (f != fr.session ==> !fr.point.Fresh? && !fr.point.Finished? && s.frames[fr.session].point.Awaiting?)
  {
    assert FrameOk(s, f);
    var z := s.frames[f].session;
    assert ChainOk(s, z) && LinkOk(s, z, s.frames[f].depth) && LinkOk(s, z, 0);
  }
}
