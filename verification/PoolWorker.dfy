/** The sweep of a worker as the source runs it: a loop that erases from the set it iterates over. */
module PoolWorker {
  import opened PoolMachine
  import opened PoolInvariant
  import opened PoolSteps

  /** The sessions of a list that are not done. */
  function Unfinished(list: seq<nat>, frames: map<nat, Frame>): (r: seq<nat>)
    requires forall z <- list :: z in frames
    ensures forall z :: z in r <==> z in list && frames[z].point != Finished
    ensures |r| <= |list|
  {
    if list == [] then [] else
    var rest := Unfinished(list[..|list| - 1], frames);
    var last := list[|list| - 1];
    if frames[last].point == Finished then rest else rest + [last]
  }

  predicate Distinct(list: seq<nat>)
  {
    forall i, j :: 0 <= i < j < |list| ==> list[i] != list[j]
  }

  function Elements(list: seq<nat>): set<nat>
  {
    set z | z in list
  }

  class WorkerLoop {
    const me: nat
    var coros: seq<nat>            // the std::set, in order
    var frames: map<nat, Frame>    // what done() and destroy() see
    ghost var g: State

    ghost predicate Valid()
      reads this
    {
      Inv(g) && me < |g.workers| && frames == g.frames && Distinct(coros) && g.workers[me].coros == Elements(coros)
    }

    lemma Present()
      requires Valid()
      ensures forall z <- coros :: z in frames
    {
      assert WorkerOk(g, me);
      forall z | z in coros ensures z in frames {
        assert z in g.workers[me].coros;
      }
    }

    /** One element of the set: destroyed and erased if it is done, passed over if not. */
    method Visit(i: nat, ghost todo: set<nat>) returns (next: nat)
      requires Valid() && i < |coros| && coros[i] in frames && g.workers[me].pc == Sweeping(todo) && coros[i] in todo
      modifies this
      ensures Valid() && g.workers[me].pc == Sweeping(todo - {old(coros[i])})
      ensures if old(frames[coros[i]]).point == Finished
              then coros == old(coros[..i] + coros[i + 1..]) && frames == old(frames - {coros[i]}) && next == i
              else coros == old(coros) && frames == old(frames) && next == i + 1
    {
      ghost var z := coros[i];
      SweepInv(g, me, z);
      hide Inv;
      g := Sweep(g, me, z, todo);
      if frames[coros[i]].point == Finished {
        frames := frames - {coros[i]};
        ghost var before := coros;
        coros := coros[..i] + coros[i + 1..];
        Erased(before, i);
        next := i;
      } else {
        next := i + 1;
      }
    }

    /** The loop over the set after the completions of one wait are resumed. */
    method SweepDone()
      requires Valid() && g.workers[me].pc.Harvesting?
      modifies this
      ensures Valid() && g.workers[me].pc.Popping?
      ensures forall z <- old(coros) :: z in old(frames)
      ensures Swept(old(coros), old(frames), |old(coros)|, coros, frames)
    {
      Present();
      ghost var was, all := coros, frames;
      StartSweep(g, me);
      SweptNone(was, all);
      hide Inv, WorkStep, Swept, Unfinished, Distinct, Elements;
      g := WorkStep(g, me, Quit);
      ghost var k := 0;
      var i := 0;
      assert was[0..] == was;
      while i < |coros|
        invariant Valid() && k <= |was| && i == |Unfinished(was[..k], all)| && Swept(was, all, k, coros, frames)
        invariant |coros| == i + |was| - k && g.workers[me].pc == Sweeping(Elements(was[k..]))
        decreases |was| - k
      {
        RestOf(was, k);
        NextIs(was, all, k, coros, frames);
        ghost var list, left := coros, frames;
        i := Visit(i, Elements(was[k..]));
        SweptNext(was, all, k, list, left, coros, frames);
        k := k + 1;
      }
      NoneLeft(was, k);
      EndSweep(g, me);
      g := WorkStep(g, me, Go);
    }
  }

  /** The first k elements of a list are dealt with: those done are erased, and their frames destroyed. */
  ghost predicate Swept(was: seq<nat>, all: map<nat, Frame>, k: nat, coros: seq<nat>, frames: map<nat, Frame>)
    requires forall z <- was :: z in all
  {
    k <= |was| && coros == Unfinished(was[..k], all) + was[k..]
    && (forall z :: z in frames <==> z in all && !(z in was[..k] && all[z].point == Finished))
    && forall z <- frames :: frames[z] == all[z]
  }

  lemma NoneLeft(was: seq<nat>, k: nat)
    requires k == |was|
    ensures Elements(was[k..]) == {}
  {
  }

  lemma SweptNone(was: seq<nat>, all: map<nat, Frame>)
    requires forall z <- was :: z in all
    ensures Swept(was, all, 0, was, all)
  {
  }

  lemma NextIs(was: seq<nat>, all: map<nat, Frame>, k: nat, coros: seq<nat>, frames: map<nat, Frame>)
    requires (forall z <- was :: z in all) && Distinct(was) && k < |was| && Swept(was, all, k, coros, frames)
    ensures var i := |Unfinished(was[..k], all)|;
            i < |coros| && coros[i] == was[k] && was[k] in frames && frames[was[k]] == all[was[k]]
  {
  }

  lemma SweptNext(was: seq<nat>, all: map<nat, Frame>, k: nat, coros: seq<nat>, frames: map<nat, Frame>,
                  coros': seq<nat>, frames': map<nat, Frame>)
    requires (forall z <- was :: z in all) && Distinct(was) && k < |was| && Swept(was, all, k, coros, frames)
    requires var i := |Unfinished(was[..k], all)|;
             i < |coros| && coros[i] == was[k] && was[k] in frames
             && if all[was[k]].point == Finished
                then coros' == coros[..i] + coros[i + 1..] && frames' == frames - {was[k]}
                else coros' == coros && frames' == frames
    ensures Swept(was, all, k + 1, coros', frames')
    ensures |Unfinished(was[..k + 1], all)|
        == |Unfinished(was[..k], all)| + (if all[was[k]].point == Finished then 0 else 1)
  {
    UnfinishedNext(was, all, k);
    var done, rest := Unfinished(was[..k], all), was[k + 1..];
    assert was[k..] == [was[k]] + rest;
    hide Unfinished;
    DropMiddle(done, was[k], rest);
    FramesNext(was, all, k, frames, frames');
  }

  lemma DropMiddle(done: seq<nat>, z: nat, rest: seq<nat>)
    ensures var list := done + ([z] + rest);
            list[..|done|] + list[|done| + 1..] == done + rest && list == (done + [z]) + rest && done + [] == done
  {
  }

  lemma FramesNext(was: seq<nat>, all: map<nat, Frame>, k: nat, frames: map<nat, Frame>, frames': map<nat, Frame>)
    requires (forall z <- was :: z in all) && k < |was|
    requires forall z :: z in frames <==> z in all && !(z in was[..k] && all[z].point == Finished)
    requires frames' == if all[was[k]].point == Finished then frames - {was[k]} else frames
    ensures forall z :: z in frames' <==> z in all && !(z in was[..k + 1] && all[z].point == Finished)
  {
  }

  lemma UnfinishedNext(was: seq<nat>, all: map<nat, Frame>, k: nat)
    requires (forall z <- was :: z in all) && k < |was|
    ensures Unfinished(was[..k + 1], all)
         == Unfinished(was[..k], all) + if all[was[k]].point == Finished then [] else [was[k]]
  {
    assert was[..k + 1][..k] == was[..k];
  }

  lemma StartSweep(g: State, w: nat)
    requires Inv(g) && w < |g.workers| && g.workers[w].pc.Harvesting?
    ensures var r := WorkStep(g, w, Quit);
            Inv(r) && |r.workers| == |g.workers| && r.frames == g.frames
            && r.workers[w] == Worker(Sweeping(g.workers[w].coros), g.workers[w].coros)
  {
    WorkInv(g, w, Quit);
    hide Inv;
  }

  lemma EndSweep(g: State, w: nat)
    requires Inv(g) && w < |g.workers| && g.workers[w].pc == Sweeping({})
    ensures var r := WorkStep(g, w, Go);
            Inv(r) && |r.workers| == |g.workers| && r.frames == g.frames
              && r.workers[w] == Worker(Popping, g.workers[w].coros)
  {
    WorkInv(g, w, Go);
    hide Inv;
  }

  lemma Erased(list: seq<nat>, i: nat)
    requires Distinct(list) && i < |list|
    ensures Distinct(list[..i] + list[i + 1..]) && Elements(list[..i] + list[i + 1..]) == Elements(list) - {list[i]}
  {
  }

  lemma RestOf(list: seq<nat>, k: nat)
    requires Distinct(list) && k < |list|
    ensures Elements(list[k..]) - {list[k]} == Elements(list[k + 1..]) && list[k] in Elements(list[k..])
  {
  }
}
