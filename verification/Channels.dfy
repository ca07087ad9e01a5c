/**
  A graph's working memory and how node updates are merged into it (agent/state.go).
 */
module Channels {
  import opened Values

  type State = map<string, Value>

  type Reducer = (Value, Value) -> Value

  type Reducers = map<string, Reducer>

  // ---------- what a merge means ----------

  /** What a reducer sees for a channel; a channel never written reads as nil. */
  function Existing(s: State, k: string): Value
  {
    if k in s then s[k] else Null
  }

  function Written(s: State, k: string, v: Value, reducers: Reducers): Value
  {
    if k in reducers then reducers[k](Existing(s, k), v) else v
  }

  /** Every updated channel gets its reduced or overwritten value, all others keep theirs. */
  function Merged(s: State, updates: State, reducers: Reducers): State
  {
    map k | k in s.Keys + updates.Keys ::
      if k in updates then Written(s, k, updates[k], reducers) else s[k]
  }

  /**
    What merging updates into s may leave: an updated channel holds the update, or what its reducer makes
    of the old value (nil if there was none) and the update; every other channel is as before.
   */
  ghost predicate MergesTo(s: State, updates: State, reducers: Reducers, merged: State)
  {
    && merged.Keys == s.Keys + updates.Keys
    && (forall k :: k in s && k !in updates ==> merged[k] == s[k])
    && (forall k :: k in updates && k !in reducers ==> merged[k] == updates[k])
    && (forall k :: k in updates && k in reducers ==>
          merged[k] == reducers[k](if k in s then s[k] else Null, updates[k]))
  }

  lemma MergedIsTheMerge(s: State, updates: State, reducers: Reducers, merged: State)
    ensures MergesTo(s, updates, reducers, merged) <==> merged == Merged(s, updates, reducers)
  {
    var m := Merged(s, updates, reducers);
    assert MergesTo(s, updates, reducers, m);
    if MergesTo(s, updates, reducers, merged) {
      forall k | k in m ensures merged[k] == m[k] {
        assert k in s || k in updates;
      }
    }
  }

  function MergedAll(s: State, updates: seq<State>, reducers: Reducers): State
  {
    if updates == [] then s
    else Merged(MergedAll(s, updates[..|updates| - 1], reducers), updates[|updates| - 1], reducers)
  }

  /** Merging one more channel is one more map update, computed from the channel's value before the merge. */
  lemma MergedOneMore(s: State, seen: State, reducers: Reducers, k: string, v: Value)
    requires k !in seen
    ensures Existing(Merged(s, seen, reducers), k) == Existing(s, k)
    ensures Merged(s, seen[k := v], reducers) == Merged(s, seen, reducers)[k := Written(s, k, v, reducers)]
  {
  }

  ghost predicate DistinctKeys(keys: seq<string>, of: set<string>)
  {
    && (forall i, j :: 0 <= i < j < |keys| ==> keys[i] != keys[j])
    && (forall k :: k in keys <==> k in of)
  }

  lemma DistinctKeysGrow(keys: seq<string>, of: set<string>, k: string)
    requires DistinctKeys(keys, of) && k !in of
    ensures DistinctKeys(keys + [k], of + {k})
  {
    assert k !in keys;
  }

  // ---------- the mutable state map ----------

  /** A state as the interpreter holds it: one map, changed in place and shared by reference. */
  class Memory {
    var data: State

    constructor ()
      ensures data == map[]
    {
      data := map[];
    }
  }

  /** A fresh map filled entry by entry, in whatever order the entries come. */
  method Clone(s: Memory) returns (out: Memory)
    ensures fresh(out)
    ensures out.data == s.data
  {
    out := new Memory();
    var todo := s.data.Keys;
    while todo != {}
      invariant todo <= s.data.Keys
      invariant out.data == s.data - todo
      invariant fresh(out) && out != s
      decreases todo
    {
      var k :| k in todo;
      out.data := out.data[k := s.data[k]];
      todo := todo - {k};
    }
  }

  method WriteChannel(dst: Memory, k: string, v: Value, reducers: Reducers)
    modifies dst
    ensures dst.data == old(dst.data)[k := Written(old(dst.data), k, v, reducers)]
  {
    if k in reducers {
      var existing := if k in dst.data then dst.data[k] else Null;
      dst.data := dst.data[k := reducers[k](existing, v)];
    } else {
      dst.data := dst.data[k := v];
    }
  }

  /**
    Merges updates into dst in place. The update keys are visited in an arbitrary order, so the
    contract holds for every order: the map is determined and each update key is reported once.
   */
  method Merge(dst: Memory, updates: State, reducers: Reducers) returns (changed: seq<string>)
    modifies dst
    ensures dst.data == Merged(old(dst.data), updates, reducers)
    ensures MergesTo(old(dst.data), updates, reducers, dst.data)
    ensures DistinctKeys(changed, updates.Keys)
  {
    ghost var s := dst.data;
    ghost var seen: State := map[];
    changed := [];
    var todo := updates.Keys;
    while todo != {}
      invariant forall k :: k in updates <==> k in seen || k in todo
      invariant forall k :: k in seen ==> k !in todo && seen[k] == updates[k]
      invariant dst.data == Merged(s, seen, reducers)
      invariant DistinctKeys(changed, seen.Keys)
      decreases todo
    {
      var k :| k in todo;
      MergedOneMore(s, seen, reducers, k, updates[k]);
      DistinctKeysGrow(changed, seen.Keys, k);
      WriteChannel(dst, k, updates[k], reducers);
      seen := seen[k := updates[k]];
      changed := changed + [k];
      todo := todo - {k};
    }
    assert seen == updates;
    MergedIsTheMerge(s, updates, reducers, dst.data);
  }

  /** The workflow's merge: a copy takes the updates, the given state is left alone. */
  method ApplyUpdates(state: Memory, updates: State, reducers: Reducers) returns (out: Memory)
    ensures fresh(out)
    ensures out.data == Merged(state.data, updates, reducers)
    ensures MergesTo(state.data, updates, reducers, out.data)
    ensures state.data == old(state.data)
  {
    out := Clone(state);
    var _ := Merge(out, updates, reducers);
  }

  // ---------- channels over several merges ----------

  /** The last of the updates that names a channel. */
  ghost predicate LastNames(updates: seq<State>, channel: string, i: int)
  {
    0 <= i < |updates| && channel in updates[i] && forall j :: i < j < |updates| ==> channel !in updates[j]
  }

  /** A channel without a reducer holds the last update that names it, or its first value if none does. */
  lemma {:induction false} LastUpdateStays(s: State, updates: seq<State>, reducers: Reducers, channel: string)
    requires channel !in reducers
    ensures var merged := MergedAll(s, updates, reducers);
            && (forall i :: LastNames(updates, channel, i) ==>
                  channel in merged && merged[channel] == updates[i][channel])
            && ((forall i :: 0 <= i < |updates| ==> channel !in updates[i]) ==>
                  (channel in merged <==> channel in s) && (channel in s ==> merged[channel] == s[channel]))
  {
    if updates != [] {
      var n := |updates| - 1;
      var before := MergedAll(s, updates[..n], reducers);
      LastUpdateStays(s, updates[..n], reducers, channel);
      MergedIsTheMerge(before, updates[n], reducers, Merged(before, updates[n], reducers));
      forall i | LastNames(updates, channel, i)
        ensures channel in MergedAll(s, updates, reducers)
        ensures MergedAll(s, updates, reducers)[channel] == updates[i][channel]
      {
        if i < n {
          assert channel !in updates[n];
          assert LastNames(updates[..n], channel, i);
        }
      }
    }
  }

  /** A reducer applied to a channel's value and to one update after the other. */
  function Reduced(r: Reducer, first: Value, updates: seq<State>, channel: string): Value
  {
    if updates == [] then first else
    var before := Reduced(r, first, updates[..|updates| - 1], channel);
    var last := updates[|updates| - 1];
    if channel in last then r(before, last[channel]) else before
  }

  /** A channel with a reducer holds its first value, nil if there was none, reduced by all updates in order. */
  lemma {:induction false} ReducerFolds(s: State, updates: seq<State>, reducers: Reducers, channel: string)
    requires channel in reducers
    ensures Existing(MergedAll(s, updates, reducers), channel) ==
            Reduced(reducers[channel], if channel in s then s[channel] else Null, updates, channel)
  {
    if updates != [] {
      var n := |updates| - 1;
      var before := MergedAll(s, updates[..n], reducers);
      ReducerFolds(s, updates[..n], reducers, channel);
      MergedIsTheMerge(before, updates[n], reducers, Merged(before, updates[n], reducers));
    }
  }

  // ---------- accumulation ----------

  /** The list forms of all updates of a channel, in order. */
  function Accumulated(updates: seq<State>, channel: string): seq<Value>
  {
    if updates == [] then [] else
    var last := updates[|updates| - 1];
    Accumulated(updates[..|updates| - 1], channel) + if channel in last then AsList(last[channel]) else []
  }

  /** An appending channel holds its initial list followed by every update, in execution order. */
  lemma {:induction false} AppendChannelAccumulates(s: State, updates: seq<State>, reducers: Reducers, channel: string)
    requires channel in reducers && reducers[channel] == AppendReducer
    ensures AsList(Existing(MergedAll(s, updates, reducers), channel)) ==
            AsList(Existing(s, channel)) + Accumulated(updates, channel)
  {
    if updates != [] {
      var front, last := updates[..|updates| - 1], updates[|updates| - 1];
      AppendChannelAccumulates(s, front, reducers, channel);
      var before := MergedAll(s, front, reducers);
      if channel in last {
        AppendIsConcatenation(Existing(before, channel), last[channel], Null);
      }
    }
  }

  lemma {:induction false} AccumulatedGrows(updates: seq<State>, n: nat, channel: string)
    requires n <= |updates|
    ensures Accumulated(updates[..n], channel) <= Accumulated(updates, channel)
  {
    if n < |updates| {
      AccumulatedGrows(updates[..|updates| - 1], n, channel);
      assert updates[..|updates| - 1][..n] == updates[..n];
    } else {
      assert updates[..n] == updates;
    }
  }
}
