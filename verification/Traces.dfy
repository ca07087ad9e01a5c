/**
  What a run does, node by node, said in terms of the graph's own functions, routers and mappings: the
  in-process run (agent/engine.go) and the workflow on any recorded results (durable/dapr.go).
 */
module Traces {
  import opened Outcomes
  import opened Values
  import opened Channels
  import opened Graphs
  import opened Engine
  import opened Durable

  // ---------- the moves of a run ----------

  /** From one state to the next: the step's updates are merged, and routing on the merged state leads on. */
  ghost predicate MergesAndLeads(cg: CompiledGraph, s: State, i: StepInfo, merged: State)
  {
    MergesTo(s, i.updates, cg.reducers, merged) && Leads(cg, i.node, merged, i.next)
  }

  /** Where a run is after some steps. */
  function NodeAfter(node: string, steps: seq<StepInfo>): string
  {
    if steps == [] then node else steps[|steps| - 1].next
  }

  /** Step k of a path is numbered, starts where the one before led, merges its updates and leads on. */
  ghost predicate Fits(cg: CompiledGraph, node: string, step: nat, max: nat, steps: seq<StepInfo>, states: seq<State>,
                       k: int)
    requires |states| == |steps| + 1 && 0 <= k < |steps|
  {
    && steps[k].step == step + k + 1 <= max
    && steps[k].node == NodeAfter(node, steps[..k]) != END
    && MergesAndLeads(cg, states[k], steps[k], states[k + 1])
  }

  /** Steps and the states between them. */
  ghost predicate IsPath(cg: CompiledGraph, node: string, step: nat, max: nat, steps: seq<StepInfo>, states: seq<State>)
  {
    |states| == |steps| + 1 && forall k :: 0 <= k < |steps| ==> Fits(cg, node, step, max, steps, states, k)
  }

  lemma PathGrowsInFront(cg: CompiledGraph, node: string, step: nat, max: nat, first: StepInfo, s: State,
                         steps: seq<StepInfo>, states: seq<State>)
    requires IsPath(cg, first.next, step + 1, max, steps, states) && step < max
    requires first.step == step + 1 && first.node == node != END && MergesAndLeads(cg, s, first, states[0])
    ensures IsPath(cg, node, step, max, [first] + steps, [s] + states)
    ensures NodeAfter(node, [first] + steps) == NodeAfter(first.next, steps)
  {
    var all, sts := [first] + steps, [s] + states;
    forall k | 0 <= k < |all| ensures Fits(cg, node, step, max, all, sts, k) {
      if k > 0 {
        assert Fits(cg, first.next, step + 1, max, steps, states, k - 1);
        assert all[k] == steps[k - 1] && sts[k] == states[k - 1] && sts[k + 1] == states[k];
        assert all[..k] == [first] + steps[..k - 1];
        assert NodeAfter(node, all[..k]) == NodeAfter(first.next, steps[..k - 1]);
      }
    }
  }

  lemma PathWithoutItsFirst(cg: CompiledGraph, node: string, step: nat, max: nat,
                            steps: seq<StepInfo>, states: seq<State>)
    requires IsPath(cg, node, step, max, steps, states) && steps != []
    ensures steps[0].step == step + 1 <= max && steps[0].node == node != END
    ensures MergesAndLeads(cg, states[0], steps[0], states[1])
    ensures IsPath(cg, steps[0].next, step + 1, max, steps[1..], states[1..])
    ensures NodeAfter(node, steps) == NodeAfter(steps[0].next, steps[1..])
  {
    assert Fits(cg, node, step, max, steps, states, 0);
    var next, after, rest, sts := steps[0].next, step + 1, steps[1..], states[1..];
    forall k | 0 <= k < |rest| ensures Fits(cg, next, after, max, rest, sts, k) {
      assert Fits(cg, node, step, max, steps, states, k + 1);
      assert rest[..k] == steps[..k + 1][1..];
      assert NodeAfter(node, steps[..k + 1]) == NodeAfter(steps[0].next, rest[..k]);
    }
  }

  // ---------- in process ----------

  /** The states of an in-process run, before each step and after the last. */
  ghost function StatesOf(cg: CompiledGraph, node: string, s: State, step: nat, max: nat): seq<State>
    decreases if step <= max then max - step + 1 else 0
  {
    if node == END || step >= max || RunNode(cg, node, s).Err? then [s] else
    var merged := Merged(s, RunNode(cg, node, s).value, cg.reducers);
    if Next(cg, node, merged).Err? then [s]
    else [s] + StatesOf(cg, Next(cg, node, merged).value, merged, step + 1, max)
  }

  /** Each step's updates are what its node's function answers to the state before it. */
  ghost predicate NodesAnswer(cg: CompiledGraph, steps: seq<StepInfo>, states: seq<State>)
    requires |states| == |steps| + 1
  {
    forall k :: 0 <= k < |steps| ==>
      steps[k].node in cg.nodes && cg.nodes[steps[k].node](states[k]) == Ok(steps[k].updates)
  }

  /** The reason why a run stops at a node with a state, and the state it leaves. */
  ghost predicate StopsAt(cg: CompiledGraph, node: string, s: State, step: nat, max: nat, r: RunResult)
  {
    match r.error
    case None => node == END && r.state == s
    case Some(e) =>
      && node != END
      && (|| (e == MaxSteps(max) && step >= max && r.state == s)
          || (e == NoFunction(node) && step < max && node !in cg.nodes && r.state == s)
          || (step < max && node in cg.nodes && e.NodeFailed? && e.node == node
                && cg.nodes[node](s) == Err(e.reason) && r.state == s)
          || (step < max && node in cg.nodes && cg.nodes[node](s).Ok?
                && MergesTo(s, cg.nodes[node](s).value, cg.reducers, r.state) && StopsRouting(cg, node, r.state, e)))
  }

  /** A result is that of a run from a node and a state, as the graph's functions and routers have it. */
  ghost predicate IsRun(
      cg: CompiledGraph, node: string, s: State, step: nat, max: nat, r: RunResult, states: seq<State>)
  {
    && IsPath(cg, node, step, max, r.steps, states) && states[0] == s
    && NodesAnswer(cg, r.steps, states)
    && StopsAt(cg, NodeAfter(node, r.steps), states[|r.steps|], step + |r.steps|, max, r)
  }

  /**
    The interpreter's result is a run of the graph: every step's updates are its node's own answer to the
    state so far, every next node is where its router's own key leads on the merged state, and the run
    stops for the reason it reports.
   */
  lemma {:induction false} RunIsARun(cg: CompiledGraph, node: string, s: State, step: nat, max: nat)
    ensures IsRun(cg, node, s, step, max, RunFrom(cg, node, s, step, max), StatesOf(cg, node, s, step, max))
    decreases if step <= max then max - step + 1 else 0
  {
    var r := RunFrom(cg, node, s, step, max);
    if node == END || step >= max || RunNode(cg, node, s).Err? {
      assert r.steps == [];
    } else {
      var updates := RunNode(cg, node, s).value;
      var merged := Merged(s, updates, cg.reducers);
      MergedIsTheMerge(s, updates, cg.reducers, merged);
      NextFollowsTheRouter(cg, node, merged);
      if Next(cg, node, merged).Ok? {
        var next := Next(cg, node, merged).value;
        RunIsARun(cg, next, merged, step + 1, max);
        RunGrowsInFront(cg, node, s, step, max, StepInfo(step + 1, node, updates, next),
                        RunFrom(cg, next, merged, step + 1, max), StatesOf(cg, next, merged, step + 1, max));
      } else {
        assert r.steps == [];
      }
    }
  }

  lemma RunGrowsInFront(cg: CompiledGraph, node: string, s: State, step: nat, max: nat, first: StepInfo,
                        r: RunResult, states: seq<State>)
    requires states != [] && IsRun(cg, first.next, states[0], step + 1, max, r, states) && step < max
    requires first.step == step + 1 && first.node == node != END && MergesAndLeads(cg, s, first, states[0])
    requires node in cg.nodes && cg.nodes[node](s) == Ok(first.updates)
    ensures IsRun(cg, node, s, step, max, r.(steps := [first] + r.steps), [s] + states)
  {
    PathGrowsInFront(cg, node, step, max, first, s, r.steps, states);
    var steps, sts := [first] + r.steps, [s] + states;
    forall k | 0 <= k < |steps|
      ensures steps[k].node in cg.nodes && cg.nodes[steps[k].node](sts[k]) == Ok(steps[k].updates)
    {
      if k > 0 {
        assert steps[k] == r.steps[k - 1] && sts[k] == states[k - 1];
      }
    }
  }

  /** A run that stops at once. */
  lemma StopIsTheResult(cg: CompiledGraph, node: string, s: State, step: nat, max: nat, r: RunResult)
    requires r.steps == [] && StopsAt(cg, node, s, step, max, r)
    ensures r == RunFrom(cg, node, s, step, max)
  {
    if node != END && step < max && node in cg.nodes && cg.nodes[node](s).Ok? {
      MergedIsTheMerge(s, cg.nodes[node](s).value, cg.reducers, r.state);
      NextFollowsTheRouter(cg, node, r.state);
    }
  }

  /** And there is only one such run: whatever is a run of the graph is the interpreter's result. */
  lemma {:induction false} RunsAreUnique(
      cg: CompiledGraph, node: string, s: State, step: nat, max: nat, r: RunResult, states: seq<State>)
    requires IsRun(cg, node, s, step, max, r, states)
    ensures r == RunFrom(cg, node, s, step, max)
    decreases |r.steps|
  {
    if r.steps == [] {
      StopIsTheResult(cg, node, s, step, max, r);
    } else {
      var first, rest := r.steps[0], r.(steps := r.steps[1..]);
      PathWithoutItsFirst(cg, node, step, max, r.steps, states);
      forall k | 0 <= k < |rest.steps|
        ensures rest.steps[k].node in cg.nodes
        ensures cg.nodes[rest.steps[k].node](states[1..][k]) == Ok(rest.steps[k].updates)
      {
        assert rest.steps[k] == r.steps[k + 1] && states[1..][k] == states[k + 1];
      }
      RunsAreUnique(cg, first.next, states[1], step + 1, max, rest, states[1..]);
      MergedIsTheMerge(s, first.updates, cg.reducers, states[1]);
      NextFollowsTheRouter(cg, node, states[1]);
      assert r.steps == [first] + rest.steps;
    }
  }

  // ---------- the workflow on recorded results ----------

  /** Each step's updates are what is recorded for its node. */
  ghost predicate RecordsAnswer(hist: seq<Recorded>, steps: seq<StepInfo>)
  {
    |steps| <= |hist| && forall k :: 0 <= k < |steps| ==> hist[k] == Recorded(steps[k].node, Ok(steps[k].updates))
  }

  /** Why a workflow stands where it stands, at a node with a state and with the results not yet used. */
  ghost predicate StandsAt(
      cg: CompiledGraph, node: string, s: State, step: nat, max: nat, left: seq<Recorded>, p: Progress)
  {
    match p
    case Completed(state) => node == END && state == s
    case Awaiting(awaited, state, at) => node != END && step < max && left == [] && p == Awaiting(node, s, step)
    case Diverged => node != END && step < max && left != [] && left[0].node != node
    case Failed(e, at) =>
      && node != END && at == step
      && (|| (step >= max && e == MaxSteps(max))
          || (step < max && left != [] && left[0] == Recorded(node, Err(e)))
          || (step < max && left != [] && left[0].node == node && left[0].result.Ok?
                && exists merged :: MergesTo(s, left[0].result.value, cg.reducers, merged)
                                      && StopsRouting(cg, node, merged, e)))
  }

  /** A workflow's progress is that of replaying recorded results, as the graph's routers have it. */
  ghost predicate IsReplay(cg: CompiledGraph, node: string, s: State, step: nat, max: nat, hist: seq<Recorded>,
                           p: Progress, steps: seq<StepInfo>, states: seq<State>)
  {
    && IsPath(cg, node, step, max, steps, states) && states[0] == s && RecordsAnswer(hist, steps)
    && StandsAt(cg, NodeAfter(node, steps), states[|steps|], step + |steps|, max, hist[|steps|..], p)
  }

  lemma ReplayGrowsInFront(cg: CompiledGraph, node: string, s: State, step: nat, max: nat, hist: seq<Recorded>,
                           first: StepInfo, p: Progress, steps: seq<StepInfo>, states: seq<State>)
    requires hist != [] && hist[0] == Recorded(node, Ok(first.updates)) && states != []
    requires IsReplay(cg, first.next, states[0], step + 1, max, hist[1..], p, steps, states) && step < max
    requires first.step == step + 1 && first.node == node != END && MergesAndLeads(cg, s, first, states[0])
    ensures IsReplay(cg, node, s, step, max, hist, p, [first] + steps, [s] + states)
  {
    PathGrowsInFront(cg, node, step, max, first, s, steps, states);
    assert hist[1..][|steps|..] == hist[|steps| + 1..];
    forall k | 0 <= k < |[first] + steps|
      ensures hist[k] == Recorded(([first] + steps)[k].node, Ok(([first] + steps)[k].updates))
    {
      if k > 0 {
        assert hist[k] == hist[1..][k - 1] && ([first] + steps)[k] == steps[k - 1];
      }
    }
  }

  lemma ReplayStops(cg: CompiledGraph, node: string, s: State, step: nat, max: nat, hist: seq<Recorded>)
    requires hist != [] && hist[0].node == node && hist[0].result.Ok? && node != END && step < max
    requires Next(cg, node, Merged(s, hist[0].result.value, cg.reducers)).Err?
    ensures StandsAt(cg, node, s, step, max, hist, Orchestrate(cg, node, s, step, max, hist))
  {
    var merged := Merged(s, hist[0].result.value, cg.reducers);
    MergedIsTheMerge(s, hist[0].result.value, cg.reducers, merged);
    NextFollowsTheRouter(cg, node, merged);
  }

  /**
    On any recorded results the workflow's progress is a replay: every step's updates are the recorded
    ones, every next node is where its router's own key leads on the state merged so far, and it waits,
    ends or fails for the reason it reports.
   */
  lemma {:induction false} ProgressIsAReplay(
      cg: CompiledGraph, node: string, s: State, step: nat, max: nat, hist: seq<Recorded>)
    returns (steps: seq<StepInfo>, states: seq<State>)
    ensures IsReplay(cg, node, s, step, max, hist, Orchestrate(cg, node, s, step, max, hist), steps, states)
    decreases |hist|
  {
    steps, states := [], [s];
    if node == END || step >= max || hist == [] || hist[0].node != node || hist[0].result.Err? {
      assert hist[0..] == hist;
    } else {
      var updates := hist[0].result.value;
      var merged := Merged(s, updates, cg.reducers);
      MergedIsTheMerge(s, updates, cg.reducers, merged);
      NextFollowsTheRouter(cg, node, merged);
      if Next(cg, node, merged).Ok? {
        var next := Next(cg, node, merged).value;
        steps, states := ProgressIsAReplay(cg, next, merged, step + 1, max, hist[1..]);
        ReplayGrowsInFront(cg, node, s, step, max, hist, StepInfo(step + 1, node, updates, next),
                           Orchestrate(cg, node, s, step, max, hist), steps, states);
        steps, states := [StepInfo(step + 1, node, updates, next)] + steps, [s] + states;
      } else {
        ReplayStops(cg, node, s, step, max, hist);
        assert hist[0..] == hist;
      }
    }
  }

  lemma StandIsTheProgress(
      cg: CompiledGraph, node: string, s: State, step: nat, max: nat, hist: seq<Recorded>, p: Progress)
    requires StandsAt(cg, node, s, step, max, hist, p)
    ensures p == Orchestrate(cg, node, s, step, max, hist)
  {
    if node != END && step < max && hist != [] && hist[0].node == node && hist[0].result.Ok? {
      var merged := Merged(s, hist[0].result.value, cg.reducers);
      MergedIsTheMerge(s, hist[0].result.value, cg.reducers, merged);
      NextFollowsTheRouter(cg, node, merged);
      assert p.Failed?;
      var m :| MergesTo(s, hist[0].result.value, cg.reducers, m) && StopsRouting(cg, node, m, p.error);
      MergedIsTheMerge(s, hist[0].result.value, cg.reducers, m);
    }
  }

  /** And there is only one such replay: whatever is a replay of the results is the workflow's progress. */
  lemma {:induction false} ReplaysAreUnique(
      cg: CompiledGraph, node: string, s: State, step: nat, max: nat, hist: seq<Recorded>,
      p: Progress, steps: seq<StepInfo>, states: seq<State>)
    requires IsReplay(cg, node, s, step, max, hist, p, steps, states)
    ensures p == Orchestrate(cg, node, s, step, max, hist)
    decreases |steps|
  {
    if steps == [] {
      assert hist[0..] == hist;
      StandIsTheProgress(cg, node, s, step, max, hist, p);
    } else {
      var first, rest := steps[0], steps[1..];
      PathWithoutItsFirst(cg, node, step, max, steps, states);
      assert hist[0] == Recorded(node, Ok(first.updates));
      assert hist[1..][|rest|..] == hist[|steps|..];
      forall k | 0 <= k < |rest| ensures hist[1..][k] == Recorded(rest[k].node, Ok(rest[k].updates)) {
        assert hist[k + 1] == Recorded(steps[k + 1].node, Ok(steps[k + 1].updates));
      }
      ReplaysAreUnique(cg, first.next, states[1], step + 1, max, hist[1..], p, rest, states[1..]);
      MergedIsTheMerge(s, first.updates, cg.reducers, states[1]);
      NextFollowsTheRouter(cg, node, states[1]);
    }
  }

  // ---------- what the activities answer, and the bound ----------

  /** An activity runs its node's own function on the decoded state and answers in JSON. */
  lemma ActivityAnswers(cg: CompiledGraph, node: string, s: State)
    ensures node !in cg.nodes ==> NodeResult(cg, node, s) == Err(NoFunction(node))
    ensures node in cg.nodes ==>
              match cg.nodes[node](EncodeState(s))
              case Ok(updates) => NodeResult(cg, node, s) == Ok(EncodeState(updates))
              case Err(reason) => NodeResult(cg, node, s) == Err(NodeFailed(node, reason))
    ensures EncodeState(s).Keys == s.Keys && forall c :: c in s ==> EncodeState(s)[c] == Encode(s[c])
  {
  }

  /** The bound of a run is the one asked for, or 100 if that is not positive. */
  lemma BoundIsAskedForOrHundred(requested: int)
    ensures requested > 0 ==> StepBound(requested) == requested
    ensures requested <= 0 ==> StepBound(requested) == 100
  {
  }

  // ---------- channels over a run ----------

  function UpdatesIn(steps: seq<StepInfo>): seq<State>
  {
    seq(|steps|, k requires 0 <= k < |steps| => steps[k].updates)
  }

  /** The states of a path are its first state with the updates so far merged in order. */
  lemma {:induction false} PathMergesInOrder(
      cg: CompiledGraph, node: string, step: nat, max: nat, steps: seq<StepInfo>, states: seq<State>, k: nat)
    requires IsPath(cg, node, step, max, steps, states) && k <= |steps|
    ensures states[k] == MergedAll(states[0], UpdatesIn(steps[..k]), cg.reducers)
  {
    if k > 0 {
      PathMergesInOrder(cg, node, step, max, steps, states, k - 1);
      assert Fits(cg, node, step, max, steps, states, k - 1);
      MergedIsTheMerge(states[k - 1], steps[k - 1].updates, cg.reducers, states[k]);
      var us := UpdatesIn(steps[..k]);
      assert us[..k - 1] == UpdatesIn(steps[..k - 1]) && us[k - 1] == steps[k - 1].updates;
    }
  }

  /**
    When a run completes, a channel without a reducer holds what the last step naming it wrote, or its
    input if no step did, and a channel with one holds its input reduced by all its updates in order.
   */
  lemma CompletedRunHoldsTheWrites(cg: CompiledGraph, input: State, max: nat, channel: string)
    requires RunFrom(cg, cg.entry, input, 0, max).error.None?
    ensures var r := RunFrom(cg, cg.entry, input, 0, max);
            && var updates := UpdatesIn(r.steps);
            && (channel !in cg.reducers ==>
                  && (forall i :: LastNames(updates, channel, i) ==>
                        channel in r.state && r.state[channel] == updates[i][channel])
                  && ((forall i :: 0 <= i < |updates| ==> channel !in updates[i]) ==>
                        (channel in r.state <==> channel in input)
                        && (channel in input ==> r.state[channel] == input[channel])))
            && (channel in cg.reducers ==>
                  Existing(r.state, channel) ==
                  Reduced(cg.reducers[channel], if channel in input then input[channel] else Null, updates, channel))
  {
    var r, states := RunFrom(cg, cg.entry, input, 0, max), StatesOf(cg, cg.entry, input, 0, max);
    RunIsARun(cg, cg.entry, input, 0, max);
    PathMergesInOrder(cg, cg.entry, 0, max, r.steps, states, |r.steps|);
    assert r.steps[..|r.steps|] == r.steps;
    if channel in cg.reducers {
      ReducerFolds(input, UpdatesIn(r.steps), cg.reducers, channel);
    } else {
      LastUpdateStays(input, UpdatesIn(r.steps), cg.reducers, channel);
    }
  }
}
