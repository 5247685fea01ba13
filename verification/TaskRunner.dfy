/** Tasks as the source runs them: promises with continue_ pointers, symmetric transfer, and run_task's loop. */
module TaskRunner {
  import opened Options
  import opened Coroutines

  /** A coroutine frame with its promise. */
  class Frame {
    const body: Body
    var inputs: seq<Input>        // the coroutine's own state
    var awaited: Frame?           // the coroutine it holds while it waits for it
    var continuation: Frame?      // continue_
    var outcome: Option<Outcome>  // value_ or exception_
    var done: bool                // suspended for good, in final_suspend

    /** A new task: suspended before its first act. */
    constructor (body: Body)
      ensures this.body == body && inputs == [] && awaited == null && continuation == null && outcome == None && !done
    {
      this.body, inputs, awaited, continuation, outcome, done := body, [], null, null, None, false;
    }
  }

  /** A ring: the handler of its one outstanding operation, and how many operations have completed. */
  class IoService {
    const code: Code
    const io: nat -> int
    var completed: nat
    var handler: Frame?

    /** The frames that exist, and their chain from the root task to the one that runs or waits for I/O. */
    ghost var live: set<Frame>
    ghost var chain: seq<Frame>

    constructor (code: Code, io: nat -> int, root: Frame)
      ensures this.code == code && this.io == io && completed == 0 && handler == null && live == {root}
          && chain == [root]
    {
      this.code, this.io, completed, handler := code, io, 0, null;
      live, chain := {root}, [root];
    }

    /** Every frame of the chain is suspended in a co_await of the next one, and is that one's continue_. */
    ghost predicate Chained()
      reads this, chain
    {
      && |chain| >= 1 && live == Members(chain) && Distinct(chain)
      && (forall i :: 0 <= i < |chain| - 1 ==> !chain[i].done && chain[i].outcome == None)
      && chain[0].continuation == null && chain[|chain| - 1].awaited == null
      && (forall i, j :: 0 <= i < |chain| && j == i + 1 < |chain| ==>
          chain[j].continuation == chain[i] && chain[i].awaited == chain[j])
    }

    /** The last of them is not done either. */
    ghost predicate Linked()
      reads this, chain
    {
      Chained() && !Leaf().done && Leaf().outcome == None
    }

    ghost function Leaf(): Frame
      reads this
      requires |chain| >= 1
    {
      chain[|chain| - 1]
    }

    lemma LeafFollows()
      requires Chained()
      ensures Leaf().continuation == null <==> |chain| == 1
      ensures |chain| > 1 ==> Leaf().continuation == chain[|chain| - 2]
    {
    }

    ghost function Callers(): (r: seq<Caller>)
      reads this, chain
      requires |chain| >= 1
      ensures |r| == |chain| - 1
    {
      seq(|chain| - 1, i requires 0 <= i < |chain| - 1 reads this, chain => Caller(chain[i].body, chain[i].inputs))
    }

    /** What is left to do, by direct evaluation. */
    ghost function Left(fuel: nat): Option<Done>
      reads this, chain
      requires |chain| >= 1
    {
      EvalChain(code, Leaf().body, Leaf().inputs, Callers(), io, completed, fuel)
    }

    /** The root task has come to its end, and every other frame is destroyed. */
    ghost predicate Ended(root: Frame, outcome: Outcome)
      reads this, root
    {
      live == {root} && chain == [root] && root.done && root.outcome == Some(outcome)
      && root.continuation == null && root.awaited == null
    }

    ghost predicate EndsWith(f: Frame, outcome: Outcome)
      reads this, f
    {
      code(f.body, f.inputs) == match outcome case Value(v) => Return(v) case Exception(e) => Throw(e)
    }

    /** co_await of a new task: the awaiting coroutine becomes its continuation, and it gets control. */
    method Await(current: Frame, child: Body, ghost fuel: nat) returns (next: Frame)
      requires Linked() && current == Leaf() && Left(fuel).Some?
          && code(current.body, current.inputs) == AwaitTask(child)
      modifies this`live, this`chain, current`awaited
      ensures Linked() && next == Leaf() && fresh(next) && chain == old(chain) + [next]
      ensures OneMore(Left(fuel), 1) == old(Left(fuel))
    {
      hide EvalChain, Eval;
      AfterCall(code, current.body, current.inputs, Callers(), io, completed, fuel, child);
      ghost var callers := Callers();
      ghost var before := chain;
      next := new Frame(child);
      assert forall i :: 0 <= i < |before| ==> before[i] != next;
      current.awaited := next;
      next.continuation := current;
      assert (chain + [next])[..|chain|] == chain;
      live, chain := live + {next}, chain + [next];
      assert chain[|before|] == next && chain[|before| - 1] == current;
      assert Callers() == callers + [Caller(current.body, current.inputs)];
      hide Callers;
    }

    /** Back in the awaiting coroutine: it takes the result from the promise and destroys the awaited frame. */
    method Resume(child: Frame, caller: Frame, ghost fuel: nat)
      requires Chained() && child == Leaf() && caller == child.continuation && Left(fuel).Some?
      requires child.done && child.outcome.Some? && EndsWith(child, child.outcome.value)
      modifies this`live, this`chain, caller`awaited, caller`inputs
      ensures Linked() && caller == Leaf() && chain == old(chain)[..|old(chain)| - 1]
      ensures OneMore(Left(fuel), 1) == old(Left(fuel))
    {
      hide EvalChain, Eval;
      ghost var callers := Callers();
      ghost var before := chain;
      LeafFollows();
      AfterEnd(code, child.body, child.inputs, callers, io, completed, fuel, child.outcome.value);
      caller.inputs := caller.inputs + [FromTask(child.outcome.value)];
      caller.awaited := null;
      LastIsNew(chain);
      live, chain := live - {child}, before[..|before| - 1];
      assert forall i :: 0 <= i < |chain| ==> chain[i] == before[i];
      assert Callers() == callers[..|callers| - 1];
    }

    /** The end of a coroutine body: final_suspend keeps its outcome in the promise. */
    method Finish(f: Frame, outcome: Outcome)
      modifies f`outcome, f`done
      ensures f.done && f.outcome == Some(outcome)
    {
      f.outcome, f.done := Some(outcome), true;
    }

    /**
      resume() on the handle of the leaf: control goes from coroutine to coroutine, down a co_await and up a
      final_suspend, until one of them waits for I/O or the root is done.
     */
    method Run(leaf: Frame, ghost root: Frame, ghost fuel: nat, ghost goal: Done)
      requires Linked() && leaf == Leaf() && chain[0] == root && handler == null
      requires Left(fuel).Some? && OutcomeOf(Left(fuel).value) == OutcomeOf(goal)
      modifies this, chain
      ensures completed == old(completed)
      ensures handler == null ==> Ended(root, goal.outcome) && completed == goal.used
      ensures handler != null ==> Linked() && chain[0] == root && handler == Leaf()
      ensures handler != null ==> code(Leaf().body, Leaf().inputs) == AwaitIo && Left(fuel).Some?
      ensures handler != null ==>
                OutcomeOf(Left(fuel).value) == OutcomeOf(goal) && Left(fuel).value.acts <= old(Left(fuel).value.acts)
      ensures forall i :: 0 <= i < |chain| ==> chain[i] in old(chain) || fresh(chain[i])
    {
      hide EvalChain, Eval, Members, Distinct;
      var current := leaf;
      ghost var acts := Left(fuel).value.acts;
      while true
        invariant Linked() && current == Leaf() && chain[0] == root && handler == null && completed == old(completed)
        invariant Left(fuel).Some? && OutcomeOf(Left(fuel).value) == OutcomeOf(goal) && Left(fuel).value.acts <= acts
        invariant forall i :: 0 <= i < |chain| ==> chain[i] in old(chain) || fresh(chain[i])
        decreases Left(fuel).value.acts
      {
        match code(current.body, current.inputs)
        case AwaitIo =>
          ghost var callers := Callers();
          handler := current;
          assert Callers() == callers;
          return;
        case AwaitTask(child) =>
          current := Await(current, child, fuel);
        case Return(v) =>
          var up := Leave(current, root, Value(v), fuel, goal);
          if up == null { return; }
          current := up;
        case Throw(e) =>
          var up := Leave(current, root, Exception(e), fuel, goal);
          if up == null { return; }
          current := up;
      }
    }

    /** A body ends: its frame is suspended for good, and control goes to its continuation, or nowhere. */
    method Leave(current: Frame, ghost root: Frame, outcome: Outcome, ghost fuel: nat, ghost goal: Done)
      returns (up: Frame?)
      requires Linked() && current == Leaf() && chain[0] == root && EndsWith(current, outcome)
      requires Left(fuel).Some? && OutcomeOf(Left(fuel).value) == OutcomeOf(goal)
      modifies this`live, this`chain, chain
      ensures up == null ==> Ended(root, goal.outcome) && completed == goal.used
      ensures up != null ==> Linked() && up == Leaf() && chain[0] == root && chain == old(chain)[..|old(chain)| - 1]
      ensures up != null ==> OneMore(Left(fuel), 1) == old(Left(fuel))
    {
      hide EvalChain, Eval;
      ghost var callers := Callers();
      LeafFollows();
      if |chain| == 1 {
        assert callers == [];
        AtTheEnd(code, current.body, current.inputs, io, completed, fuel, outcome);
      }
      Finish(current, outcome);
      assert Callers() == callers;
      up := current.continuation;
      if up != null {
        Resume(current, up, fuel);
      } else {
        assert chain == [current];
        OneMember(current);
      }
    }

    /** run_task: resume the root, then wait for completions and resume their handlers until it is done. */
    method RunTask(root: Frame, ghost fuel: nat) returns (outcome: Outcome)
      requires Linked() && chain == [root] && root.inputs == [] && handler == null && completed == 0
      requires Eval(code, root.body, [], io, 0, fuel).Some?
      modifies this, root
      ensures var d := Eval(code, root.body, [], io, 0, fuel).value;
              outcome == d.outcome && completed == d.used && Ended(root, d.outcome)
    {
      ghost var goal := Eval(code, root.body, [], io, 0, fuel).value;
      ChainOfOne(code, root.body, [], io, 0, fuel);
      assert Callers() == [];
      Run(root, root, fuel, goal);
      while !root.done
        invariant forall i :: 0 <= i < |chain| ==> chain[i] == root || fresh(chain[i])
        invariant handler == null ==> Ended(root, goal.outcome) && completed == goal.used
        invariant handler != null ==> Linked() && chain[0] == root && handler == Leaf()
        invariant handler != null ==> code(Leaf().body, Leaf().inputs) == AwaitIo && Left(fuel).Some?
        invariant handler != null ==> OutcomeOf(Left(fuel).value) == OutcomeOf(goal)
        decreases if handler == null then 0 else Left(fuel).value.acts
      {
        var coro := Complete(fuel);
        Run(coro, root, fuel, goal);
      }
      return root.outcome.value;
    }

    /** A completion: the handler stores the result for await_resume and gives up its coroutine. */
    method Complete(ghost fuel: nat) returns (coro: Frame)
      requires Linked() && handler == Leaf() && code(Leaf().body, Leaf().inputs) == AwaitIo && Left(fuel).Some?
      modifies this`handler, this`completed, Leaf()`inputs
      ensures Linked() && coro == Leaf() && handler == null && chain == old(chain) && completed == old(completed) + 1
      ensures OneMore(Left(fuel), 1) == old(Left(fuel))
    {
      coro := handler;
      ghost var callers := Callers();
      AfterIo(code, coro.body, coro.inputs, callers, io, completed, fuel);
      coro.inputs := coro.inputs + [FromIo(io(completed))];
      completed, handler := completed + 1, null;
      assert Callers() == callers;
    }
  }

  /** The outcome and the I/O used, whatever is still to be done for it. */
  ghost function OutcomeOf(d: Done): Done
  {
    d.(acts := 0)
  }

  ghost function Members(chain: seq<Frame>): set<Frame>
  {
    if chain == [] then {} else Members(chain[..|chain| - 1]) + {chain[|chain| - 1]}
  }

  ghost predicate Distinct(chain: seq<Frame>)
  {
    forall i, j :: 0 <= i < j < |chain| ==> chain[i] != chain[j]
  }

  lemma {:induction false} MemberAt(chain: seq<Frame>, f: Frame) returns (i: nat)
    requires f in Members(chain)
    ensures i < |chain| && chain[i] == f
    decreases |chain|
  {
    i := |chain| - 1;
    if chain[i] != f {
      i := MemberAt(chain[..i], f);
    }
  }

  lemma OneMember(f: Frame)
    ensures Members([f]) == {f}
  {
  }

  lemma LastIsNew(chain: seq<Frame>)
    requires |chain| >= 1 && Distinct(chain)
    ensures Members(chain) - {chain[|chain| - 1]} == Members(chain[..|chain| - 1])
  {
    if chain[|chain| - 1] in Members(chain[..|chain| - 1]) {
      var i := MemberAt(chain[..|chain| - 1], chain[|chain| - 1]);
    }
  }
}
