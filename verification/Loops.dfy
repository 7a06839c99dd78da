/**
  Processes that go round loops: passes completed, read off from where processes stand,
  and runs that go on until everyone under way is back at the top or asleep.
 */
module Loops {
  import opened Runs

  /** The processes that come back to the top, given who is at the top before and after. */
  ghost function Returns(before: seq<bool>, after: seq<bool>): set<nat> {
    set q | 0 <= q < |before| && q < |after| && !before[q] && after[q]
  }

  /** The passes that the processes in `who` complete, given who is at the top in each state. */
  ghost function Passes(tops: seq<seq<bool>>, who: set<nat>): nat {
    if |tops| <= 1 then 0
    else
      var last := |tops| - 1;
      Passes(tops[..last], who) + |Returns(tops[last - 1], tops[last]) * who|
  }

  lemma PassesOneMore(tops: seq<seq<bool>>, top: seq<bool>, who: set<nat>)
    requires tops != []
    ensures Passes(tops + [top], who) == Passes(tops, who) + |Returns(tops[|tops| - 1], top) * who|
  {
    assert (tops + [top])[..|tops|] == tops;
  }

  /** When one process moves, it is the only one that can come back. */
  lemma OneMoves(before: seq<bool>, p: nat, top: bool, who: set<nat>)
    requires p < |before|
    ensures Returns(before, before[p := top]) == if !before[p] && top then {p} else {}
    ensures |Returns(before, before[p := top]) * who| == if !before[p] && top && p in who then 1 else 0
  {
    var r := Returns(before, before[p := top]);
    assert r == if !before[p] && top then {p} else {};
    assert r * who == if !before[p] && top && p in who then {p} else {};
  }

  lemma NobodyMoves(top: seq<bool>, who: set<nat>)
    ensures |Returns(top, top) * who| == 0
  {
    assert Returns(top, top) == {};
  }

  /** Who is at the top stays there. */
  ghost predicate NobodyStarts(before: seq<bool>, after: seq<bool>) {
    |before| == |after| && forall q :: 0 <= q < |before| && before[q] ==> after[q]
  }

  /** While nobody starts, the passes completed are those of the processes that came back. */
  lemma ReturnsCompose(a: seq<bool>, b: seq<bool>, c: seq<bool>, who: set<nat>)
    requires NobodyStarts(a, b) && NobodyStarts(b, c)
    ensures NobodyStarts(a, c)
    ensures |Returns(a, c) * who| == |Returns(a, b) * who| + |Returns(b, c) * who|
  {
    assert Returns(a, c) * who == Returns(a, b) * who + Returns(b, c) * who;
    assert (Returns(a, b) * who) !! (Returns(b, c) * who);
  }

  // ---------------------------------------------------------------------
  // Statements left
  // ---------------------------------------------------------------------

  function Total(left: seq<nat>): nat {
    if left == [] then 0 else Total(left[..|left| - 1]) + left[|left| - 1]
  }

  lemma {:induction false} TotalUpdate(left: seq<nat>, p: nat, n: nat)
    requires p < |left|
    ensures Total(left[p := n]) == Total(left) - left[p] + n
  {
    var last := |left| - 1;
    if p == last {
      assert left[p := n][..last] == left[..last];
    } else {
      assert left[p := n][..last] == left[..last][p := n];
      TotalUpdate(left[..last], p, n);
    }
  }

  // ---------------------------------------------------------------------
  // Going on until rest
  // ---------------------------------------------------------------------

  /**
    Processes in loops, on states of type S: the steps, the invariant, who is at the top,
    when everyone awake is, and a count of the statements left to those under way.
   */
  datatype Loop<!S> = Loop(
    next: (S, S) -> bool,
    inv: S -> bool,
    tops: S -> seq<bool>,
    rest: S -> bool,
    left: S -> nat)

  function Outline<S>(l: Loop<S>, states: seq<S>): (r: seq<seq<bool>>)
    ensures |r| == |states| && forall i :: 0 <= i < |r| ==> r[i] == l.tops(states[i])
  {
    seq(|states|, i requires 0 <= i < |states| => l.tops(states[i]))
  }

  /** The passes that `who` completes in the run. */
  ghost function PassesIn<S>(l: Loop<S>, states: seq<S>, who: set<nat>): nat {
    Passes(Outline(l, states), who)
  }

  /** A step of a process under way. */
  ghost predicate Onward<S>(l: Loop<S>, s: S, s': S) {
    l.next(s, s') && l.inv(s') && NobodyStarts(l.tops(s), l.tops(s')) && l.left(s') < l.left(s)
  }

  /** Until rest, some process under way can take a step. */
  ghost predicate CanFinish<S(!new)>(l: Loop<S>) {
    forall s :: l.inv(s) && !l.rest(s) ==> exists s' :: Onward(l, s, s')
  }

  lemma PassesAfter<S>(l: Loop<S>, states: seq<S>, s: S, who: set<nat>)
    requires states != []
    ensures PassesIn(l, states + [s], who) == PassesIn(l, states, who) + |Returns(l.tops(Last(states)), l.tops(s)) * who|
  {
    assert Outline(l, states + [s]) == Outline(l, states) + [l.tops(s)];
    PassesOneMore(Outline(l, states), l.tops(s), who);
  }

  lemma OneMoreStep<S(!new)>(states: seq<S>, s: S, next: (S, S) -> bool)
    requires states != [] && Steps(states, next) && next(Last(states), s)
    ensures Steps(states + [s], next)
  {
    var longer := states + [s];
    forall i, j {:trigger next(longer[i], longer[j])} | 0 <= i < |longer| - 1 && j == i + 1
      ensures next(longer[i], longer[j])
    {
      assert i < |states| - 1 ==> next(states[i], states[j]);
    }
  }

  /** The run goes on; nobody at the top by `top` has started, and these are the passes completed since. */
  ghost predicate GoesOn<S(!new)>(l: Loop<S>, states: seq<S>, top: seq<bool>, longer: seq<S>) {
    && states != [] && states <= longer && Steps(longer, l.next) && l.inv(Last(longer))
    && NobodyStarts(top, l.tops(Last(longer)))
    && forall who: set<nat> {:trigger PassesIn(l, longer, who)} ::
         PassesIn(l, longer, who) == PassesIn(l, states, who) + |Returns(top, l.tops(Last(longer))) * who|
  }

  lemma OneMore<S(!new)>(l: Loop<S>, states: seq<S>, top: seq<bool>, some: seq<S>, s: S)
    requires GoesOn(l, states, top, some) && Onward(l, Last(some), s)
    ensures GoesOn(l, states, top, some + [s])
  {
    OneMoreStep(some, s, l.next);
    forall who: set<nat> {:trigger PassesIn(l, some + [s], who)}
      ensures PassesIn(l, some + [s], who) == PassesIn(l, states, who) + |Returns(top, l.tops(s)) * who|
    {
      PassesAfter(l, some, s, who);
      ReturnsCompose(top, l.tops(Last(some)), l.tops(s), who);
    }
    ReturnsCompose(top, l.tops(Last(some)), l.tops(s), {});
  }

  /** Those under way go on until they are back at the top or asleep. */
  lemma {:induction false} Settle<S(!new)>(l: Loop<S>, states: seq<S>, top: seq<bool>, some: seq<S>)
    returns (longer: seq<S>)
    requires CanFinish(l) && GoesOn(l, states, top, some)
    ensures GoesOn(l, states, top, longer) && l.rest(Last(longer))
    decreases l.left(Last(some))
  {
    if l.rest(Last(some)) {
      longer := some;
    } else {
      var s :| Onward(l, Last(some), s);
      OneMore(l, states, top, some, s);
      longer := Settle(l, states, top, some + [s]);
    }
  }

  /** From any state of a run. */
  lemma ToRest<S(!new)>(l: Loop<S>, states: seq<S>) returns (longer: seq<S>)
    requires CanFinish(l) && states != [] && Steps(states, l.next) && l.inv(Last(states))
    ensures GoesOn(l, states, l.tops(Last(states)), longer) && l.rest(Last(longer))
  {
    forall who: set<nat> ensures |Returns(l.tops(Last(states)), l.tops(Last(states))) * who| == 0 {
      NobodyMoves(l.tops(Last(states)), who);
    }
    longer := Settle(l, states, l.tops(Last(states)), states);
  }

  /** Process q starts, with a step to s, and everyone goes on to rest. */
  lemma Start<S(!new)>(l: Loop<S>, states: seq<S>, q: nat, s: S) returns (longer: seq<S>)
    requires CanFinish(l) && states != [] && Steps(states, l.next) && l.next(Last(states), s) && l.inv(s)
    requires q < |l.tops(Last(states))| && l.tops(s) == l.tops(Last(states))[q := false]
    ensures GoesOn(l, states, l.tops(s), longer) && l.rest(Last(longer))
  {
    var some := states + [s];
    OneMoreStep(states, s, l.next);
    forall who: set<nat> {:trigger PassesIn(l, some, who)}
      ensures PassesIn(l, some, who) == PassesIn(l, states, who) + |Returns(l.tops(s), l.tops(s)) * who|
    {
      PassesAfter(l, states, s, who);
      OneMoves(l.tops(Last(states)), q, false, who);
      NobodyMoves(l.tops(s), who);
    }
    longer := Settle(l, states, l.tops(s), some);
  }

  /** Passes completed stay completed. */
  lemma {:induction false} PassesGrow<S>(l: Loop<S>, states: seq<S>, longer: seq<S>, who: set<nat>)
    requires states != [] && states <= longer
    ensures PassesIn(l, longer, who) >= PassesIn(l, states, who)
    decreases |longer|
  {
    var n := |longer| - 1;
    if |states| <= n {
      assert states <= longer[..n] && longer == longer[..n] + [longer[n]];
      PassesGrow(l, states, longer[..n], who);
      PassesAfter(l, longer[..n], longer[n], who);
    } else {
      assert states == longer;
    }
  }

  // ---------------------------------------------------------------------
  // Accounts
  // ---------------------------------------------------------------------

  /** Each pass of an adder adds one to items and each pass of a taker takes one off, counted as they come back. */
  ghost predicate Accounts<S(!new)>(l: Loop<S>, items: S -> int, good: S -> bool, adders: set<nat>, takers: set<nat>) {
    forall s, s' {:trigger l.next(s, s')} :: good(s) && l.next(s, s') ==>
      && good(s')
      && items(s') == items(s) + |Returns(l.tops(s), l.tops(s')) * adders| - |Returns(l.tops(s), l.tops(s')) * takers|
  }

  /** So over a run, with or without repetitions, items grows by the passes of adders less those of takers. */
  lemma {:induction false} Conserved<S(!new)>(l: Loop<S>, items: S -> int, good: S -> bool,
                                              adders: set<nat>, takers: set<nat>, states: seq<S>)
    requires Accounts(l, items, good, adders, takers)
    requires states != [] && good(states[0]) && Walks(states, l.next)
    ensures good(Last(states))
    ensures items(Last(states)) == items(states[0]) + PassesIn(l, states, adders) - PassesIn(l, states, takers)
    decreases |states|
  {
    var n := |states| - 1;
    if n > 0 {
      var before := states[..n];
      WalkPrefix(states, l.next);
      Conserved(l, items, good, adders, takers, before);
      assert states == before + [states[n]];
      PassesAfter(l, before, states[n], adders);
      PassesAfter(l, before, states[n], takers);
      NobodyMoves(l.tops(states[n]), adders);
      NobodyMoves(l.tops(states[n]), takers);
    }
  }

  lemma WalkPrefix<S(!new)>(states: seq<S>, next: (S, S) -> bool)
    requires Walks(states, next) && |states| > 1
    ensures Walks(states[..|states| - 1], next)
    ensures next(states[|states| - 2], states[|states| - 1]) || states[|states| - 1] == states[|states| - 2]
  {
    var before, l, m := states[..|states| - 1], |states| - 2, |states| - 1;
    assert next(states[l], states[m]) || states[m] == states[l];
    forall i, j {:trigger next(before[i], before[j])} | 0 <= i < |before| - 1 && j == i + 1
      ensures next(before[i], before[j]) || before[j] == before[i]
    {
      assert next(states[i], states[j]) || states[j] == states[i];
    }
  }

  /** Over a stretch in which nobody starts it changes by those who came back. */
  lemma StretchItems<S(!new)>(l: Loop<S>, items: S -> int, good: S -> bool, adders: set<nat>, takers: set<nat>,
                              states: seq<S>, top: seq<bool>, longer: seq<S>)
    requires Accounts(l, items, good, adders, takers) && GoesOn(l, states, top, longer)
    requires good(states[0]) && Steps(states, l.next)
    ensures good(Last(states)) && good(Last(longer))
    ensures items(Last(longer)) == items(Last(states)) + |Returns(top, l.tops(Last(longer))) * adders|
                                                        - |Returns(top, l.tops(Last(longer))) * takers|
  {
    assert longer[0] == states[0];
    Conserved(l, items, good, adders, takers, states);
    Conserved(l, items, good, adders, takers, longer);
  }
}
