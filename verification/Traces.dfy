/** Runs of a step relation, and induction over them. */
module Traces {

  /** `states` is visited by doing `acts` in order. */
  ghost predicate IsTrace<S(!new), A(!new)>(next: (S, A, S) -> bool, states: seq<S>, acts: seq<A>) {
    && |states| == |acts| + 1
    && forall i :: 0 <= i < |acts| ==> next(states[i], acts[i], states[i + 1])
  }

  ghost predicate Reaches<S(!new), A(!new)>(next: (S, A, S) -> bool, s: S, t: S) {
    exists states: seq<S>, acts: seq<A> ::
      IsTrace(next, states, acts) && states[0] == s && states[|acts|] == t
  }

  /** What one step keeps, every state of a run has. */
  lemma {:induction false} InvariantHolds<S(!new), A(!new)>(
      next: (S, A, S) -> bool, inv: S -> bool, states: seq<S>, acts: seq<A>)
    requires IsTrace(next, states, acts) && inv(states[0])
    requires forall s, a, t :: inv(s) && next(s, a, t) ==> inv(t)
    ensures forall i :: 0 <= i < |states| ==> inv(states[i])
  {
    for k := 0 to |acts|
      invariant forall i :: 0 <= i <= k ==> inv(states[i])
    {
      assert next(states[k], acts[k], states[k + 1]);
    }
  }

  lemma ReachesInvariant<S(!new), A(!new)>(next: (S, A, S) -> bool, inv: S -> bool, s: S, t: S)
    requires Reaches(next, s, t) && inv(s)
    requires forall s, a, t :: inv(s) && next(s, a, t) ==> inv(t)
    ensures inv(t)
  {
    var states: seq<S>, acts: seq<A> :|
      IsTrace(next, states, acts) && states[0] == s && states[|acts|] == t;
    InvariantHolds(next, inv, states, acts);
  }

  lemma ReachesSelf<S(!new), A(!new)>(next: (S, A, S) -> bool, s: S)
    ensures Reaches(next, s, s)
  {
    var acts: seq<A> := [];
    assert IsTrace(next, [s], acts);
  }

  lemma ReachesThen<S(!new), A(!new)>(next: (S, A, S) -> bool, s: S, t: S, a: A, u: S)
    requires Reaches(next, s, t) && next(t, a, u)
    ensures Reaches(next, s, u)
  {
    var states: seq<S>, acts: seq<A> :|
      IsTrace(next, states, acts) && states[0] == s && states[|acts|] == t;
    assert IsTrace(next, states + [u], acts + [a]);
  }

  lemma {:induction false} ReachesFurther<S(!new), A(!new)>(next: (S, A, S) -> bool, s: S, t: S, u: S)
    requires Reaches(next, s, t) && Reaches(next, t, u)
    ensures Reaches(next, s, u)
  {
    var states: seq<S>, acts: seq<A> :|
      IsTrace(next, states, acts) && states[0] == t && states[|acts|] == u;
    for k := 0 to |acts|
      invariant Reaches(next, s, states[k])
    {
      ReachesThen(next, s, states[k], acts[k], states[k + 1]);
    }
  }
}
