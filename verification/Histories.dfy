/** How to tell where a machine is, or what a part of it holds, from the last event that
    decides it. A history is the states it went through, and the event after each of them
    but the last. */
module Histories {

  // -------------------------------------------------------------- phases

  /** Some event before the n-th was such a beginning, and none after it an end. */
  ghost predicate SinceLast<S, E>(states: seq<S>, events: seq<E>, begins: (S, E) -> bool, ends: (S, E) -> bool, n: nat)
    requires n <= |events| < |states|
  {
    exists m :: 0 <= m < n && begins(states[m], events[m]) &&
                forall k :: m < k < n ==> !ends(states[k], events[k])
  }

  /** What starts at the beginnings only, and then lasts until an end. */
  ghost predicate Lasts<S, E>(states: seq<S>, events: seq<E>, inside: S -> bool, begins: (S, E) -> bool,
      ends: (S, E) -> bool)
    requires |events| < |states|
  {
    !inside(states[0]) &&
    forall k :: 0 <= k < |events| ==>
      (inside(states[k + 1]) <==>
       begins(states[k], events[k]) || (inside(states[k]) && !ends(states[k], events[k])))
  }

  lemma {:induction false} LastsSince<S, E>(states: seq<S>, events: seq<E>, inside: S -> bool, begins: (S, E) -> bool,
      ends: (S, E) -> bool, n: nat)
    requires n <= |events| < |states| && Lasts(states, events, inside, begins, ends)
    ensures inside(states[n]) <==> SinceLast(states, events, begins, ends, n)
  {
    if n > 0 {
      var k := n - 1;
      LastsSince(states, events, inside, begins, ends, k);
      assert inside(states[k + 1]) <==>
             begins(states[k], events[k]) || (inside(states[k]) && !ends(states[k], events[k]));
    }
  }

  // -------------------------------------------------------------- values

  /** From the a-th state to the n-th, what stays as it is except where it is set. */
  ghost predicate Keeps<S, E, V>(states: seq<S>, events: seq<E>, a: nat, n: nat, value: S -> V, sets: (S, E) -> bool,
      given: E -> V)
    requires a <= n <= |events| < |states|
  {
    forall k :: a <= k < n ==>
      value(states[k + 1]) == if sets(states[k], events[k]) then given(events[k]) else value(states[k])
  }

  /** The value is the last one set from the a-th event on and before the n-th, or the first
      one if none was. */
  ghost predicate LastSet<S, E, V>(states: seq<S>, events: seq<E>, a: nat, n: nat, first: V, sets: (S, E) -> bool,
      given: E -> V, value: V)
    requires a <= n <= |events| < |states|
  {
    if exists m :: a <= m < n && sets(states[m], events[m]) then
      exists m :: a <= m < n && sets(states[m], events[m]) && value == given(events[m]) &&
                  forall k :: m < k < n ==> !sets(states[k], events[k])
    else value == first
  }

  lemma {:induction false} KeepsLast<S, E, V>(states: seq<S>, events: seq<E>, a: nat, n: nat, value: S -> V,
      sets: (S, E) -> bool, given: E -> V)
    requires a <= n <= |events| < |states| && Keeps(states, events, a, n, value, sets, given)
    ensures LastSet(states, events, a, n, value(states[a]), sets, given, value(states[n]))
  {
    if n > a {
      var k := n - 1;
      KeepsLast(states, events, a, k, value, sets, given);
      assert value(states[k + 1]) == if sets(states[k], events[k]) then given(events[k]) else value(states[k]);
    }
  }
}
