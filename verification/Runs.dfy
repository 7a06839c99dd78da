/** Sequences of states that take steps and sometimes stand still. */
module Runs {

  function Last<T>(states: seq<T>): T
    requires states != []
  {
    states[|states| - 1]
  }

  /** The states with repetitions of the one before left out. */
  function Moves<T(==)>(states: seq<T>): (r: seq<T>)
    ensures (r == []) == (states == [])
    ensures states != [] ==> r[0] == states[0] && r[|r| - 1] == states[|states| - 1]
  {
    var last := |states| - 1;
    if |states| <= 1 then states
    else if states[last] == states[last - 1] then Moves(states[..last])
    else Moves(states[..last]) + [states[last]]
  }

  /** Neighbours are related, or equal. */
  ghost predicate Walks<T(!new)>(states: seq<T>, next: (T, T) -> bool) {
    forall i, j {:trigger next(states[i], states[j])} :: 0 <= i < |states| - 1 && j == i + 1 ==>
      next(states[i], states[j]) || states[j] == states[i]
  }

  ghost predicate Steps<T(!new)>(states: seq<T>, next: (T, T) -> bool) {
    forall i, j {:trigger next(states[i], states[j])} :: 0 <= i < |states| - 1 && j == i + 1 ==>
      next(states[i], states[j])
  }

  /** But for the standing still, such a sequence takes a step at every position. */
  lemma {:induction false} MovesStep<T(!new)>(states: seq<T>, next: (T, T) -> bool)
    requires Walks(states, next)
    ensures Steps(Moves(states), next)
  {
    if |states| > 1 {
      var last := |states| - 1;
      var before := states[..last];
      forall i, j {:trigger next(before[i], before[j])} | 0 <= i < |before| - 1 && j == i + 1
        ensures next(before[i], before[j]) || before[j] == before[i]
      {
        assert next(states[i], states[j]) || states[j] == states[i];
      }
      MovesStep(before, next);
      assert next(states[last - 1], states[last]) || states[last] == states[last - 1];
    }
  }
}
