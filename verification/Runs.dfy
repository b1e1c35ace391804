/**
 Runs of a labelled transition system, and the induction principle over them.
 Every component below is a state machine whose steps may interleave in any order;
 "in every run" always means: in every state of every `IsRun`.
 */
module Runs {

  ghost predicate IsRun<S, E>(states: seq<S>, events: seq<E>, init: S -> bool, step: (S, E, S) -> bool) {
    && |states| == |events| + 1
    && init(states[0])
    && forall i {:trigger events[i]} :: 0 <= i < |events| ==> step(states[i], events[i], states[i + 1])
  }

  /** What holds initially and is kept by every allowed step holds in every state of the run. */
  lemma {:induction false} Always<S(!new), E(!new)>(
    states: seq<S>, events: seq<E>, init: S -> bool, step: (S, E, S) -> bool,
    allowed: (S, E) -> bool, inv: S -> bool)
    requires IsRun(states, events, init, step)
    requires forall s :: init(s) ==> inv(s)
    requires forall i {:trigger events[i]} :: 0 <= i < |events| ==> allowed(states[i], events[i])
    requires forall s, e, t :: inv(s) && allowed(s, e) && step(s, e, t) ==> inv(t)
    ensures forall i :: 0 <= i < |states| ==> inv(states[i])
  {
    for n := 0 to |events|
      invariant forall i :: 0 <= i <= n ==> inv(states[i])
    {
      assert step(states[n], events[n], states[n + 1]);
    }
  }

  /** A run that leads from one state to another. */
  ghost predicate Leads<S, E>(states: seq<S>, events: seq<E>, step: (S, E, S) -> bool, from: S, to: S) {
    && |states| == |events| + 1
    && states[0] == from && states[|events|] == to
    && forall i {:trigger events[i]} :: 0 <= i < |events| ==> step(states[i], events[i], states[i + 1])
  }

  lemma Extend<S(!new), E(!new)>(
    states: seq<S>, events: seq<E>, step: (S, E, S) -> bool, from: S, mid: S, e: E, to: S)
    requires Leads(states, events, step, from, mid) && step(mid, e, to)
    ensures Leads(states + [to], events + [e], step, from, to)
  {
    var states', events' := states + [to], events + [e];
    forall i | 0 <= i < |events'| ensures step(states'[i], events'[i], states'[i + 1]) {
      if i < |events| {
        assert events'[i] == events[i];
      }
    }
  }

  lemma Concat<S(!new), E(!new)>(
    ss: seq<S>, es: seq<E>, ts: seq<S>, fs: seq<E>, step: (S, E, S) -> bool, from: S, mid: S, to: S)
    requires Leads(ss, es, step, from, mid) && Leads(ts, fs, step, mid, to)
    ensures Leads(ss + ts[1..], es + fs, step, from, to)
  {
    var states, events := ss + ts[1..], es + fs;
    forall i | 0 <= i < |events| ensures step(states[i], events[i], states[i + 1]) {
      if i < |es| {
        assert events[i] == es[i] && states[i] == ss[i];
      } else {
        assert events[i] == fs[i - |es|] && states[i] == ts[i - |es|];
      }
    }
  }
}
