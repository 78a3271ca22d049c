/** What it is for one sequence to be picked from another, item by item and in order. */
module Picking {
  import opened Model

  /** out is what value gives for the items of xs, in order, where it gives anything; at tells where they stood. */
  ghost predicate Picks<T(!new), U(!new)>(xs: seq<T>, value: T -> Option<U>, out: seq<U>, at: seq<nat>) {
    && |at| == |out|
    && (forall k :: 0 <= k < |at| ==> at[k] < |xs| && value(xs[at[k]]) == Some(out[k]))
    && (forall k, l :: 0 <= k < l < |at| ==> at[k] < at[l])
    && (forall i :: 0 <= i < |xs| && value(xs[i]).Some? ==> i in at)
  }

  lemma PicksOneMore<T(!new), U(!new)>(xs: seq<T>, x: T, value: T -> Option<U>, out: seq<U>, at: seq<nat>)
    requires Picks(xs, value, out, at)
    ensures value(x) == None ==> Picks(xs + [x], value, out, at)
    ensures value(x).Some? ==> Picks(xs + [x], value, out + [value(x).value], at + [|xs|])
  {
    var all := xs + [x];
    assert forall i :: 0 <= i < |xs| ==> all[i] == xs[i];
    assert all[|xs|] == x;
    if value(x).Some? {
      var at' := at + [|xs|];
      assert at'[|at|] == |xs|;
      forall i | 0 <= i < |all| && value(all[i]).Some? ensures i in at' {
        assert i < |xs| ==> i in at;
      }
    }
  }
}
