/**
  Prime-implicant generation (`find_prime_implicants`): rounds of combining
  adjacent groups, collecting the uncombined members of each round, until a
  round in which no group was combined.
 */
module PrimeImplicants {
  import opened Types
  import opened Collaborators

  /**
    Result of the round loop. `Underflow` is the panic of
    `groups.len() - 1` when a round starts with no groups.
   */
  datatype Found<I> = Found(primes: seq<I>) | Underflow

  /** One round: the next round's groups, and this round's groups after marking. */
  datatype Round<G> = Round(next: seq<G>, marked: seq<G>)

  /**
    Lines 414-416 from index `i` on: `groups[i].combine(&groups[i + 1])` for
    each adjacent pair, left to right, each call marking both of its groups.
   */
  function CombineFrom<I(!new), G(!new), C>(e: Engine<I, G, C>, groups: seq<G>, i: nat): (r: Round<G>)
    requires i <= |groups|
    ensures |r.marked| == |groups|
    ensures |r.next| == if i < |groups| then |groups| - 1 - i else 0
    ensures forall k :: 0 <= k < i ==> r.marked[k] == groups[k]
    decreases |groups| - i
  {
    if i + 1 >= |groups| then Round([], groups)
    else
      var c := e.combine(groups[i], groups[i + 1]);
      var rest := CombineFrom(e, groups[i := c.left][i + 1 := c.right], i + 1);
      Round([c.next] + rest.next, rest.marked)
  }

  /** A whole round of combination over `groups`. */
  function CombineRound<I(!new), G(!new), C>(e: Engine<I, G, C>, groups: seq<G>): Round<G> {
    CombineFrom(e, groups, 0)
  }

  /** The groups of a round that is not the last are all produced by `combine`, hence unmarked. */
  lemma {:induction false} NextGroupsUnmarked<I(!new), G(!new), C>(e: Engine<I, G, C>, groups: seq<G>, i: nat)
    requires GroupsStartUnmarked(e)
    requires i <= |groups|
    ensures forall k :: 0 <= k < |CombineFrom(e, groups, i).next| ==> !e.wasCombined(CombineFrom(e, groups, i).next[k])
    decreases |groups| - i
  {
    if i + 1 < |groups| {
      var c := e.combine(groups[i], groups[i + 1]);
      NextGroupsUnmarked(e, groups[i := c.left][i + 1 := c.right], i + 1);
    }
  }

  /** `flat_map(|group| group.get_prime_implicants(dont_cares))` (lines 418-422). */
  function Collect<I(!new), G(!new), C>(e: Engine<I, G, C>, groups: seq<G>, dontCares: set<Term>): (r: seq<I>)
    ensures forall x :: x in r <==> exists k :: 0 <= k < |groups| && x in e.primeImplicants(groups[k], dontCares)
  {
    if groups == [] then []
    else
      var rest := Collect(e, groups[1..], dontCares);
      assert forall k :: 1 <= k < |groups| ==> groups[k] == groups[1..][k - 1];
      e.primeImplicants(groups[0], dontCares) + rest
  }

  /** The termination test of line 424: no group of the round was combined. */
  predicate NoneCombined<I(!new), G(!new), C>(e: Engine<I, G, C>, groups: seq<G>) {
    forall k :: 0 <= k < |groups| ==> !e.wasCombined(groups[k])
  }

  /**
    The loop of lines 413-429 from the current `groups`, with `acc` the prime
    implicants collected so far. The primes of a round are collected before
    its termination test, so the last round contributes too.
   */
  function RoundsFrom<I(!new), G(!new), C>(e: Engine<I, G, C>, groups: seq<G>, dontCares: set<Term>, acc: seq<I>): (r: Found<I>)
    ensures r.Found? ==> acc <= r.primes
    decreases |groups|
  {
    if |groups| == 0 then Underflow
    else
      var round := CombineRound(e, groups);
      var primes := acc + Collect(e, round.marked, dontCares);
      if NoneCombined(e, round.marked) then Found(primes)
      else RoundsFrom(e, round.next, dontCares, primes)
  }

  /**
    `find_prime_implicants`, seeded with the grouping of terms and
    don't-cares. It returns normally exactly when the last of its rounds saw
    no combination, and then holds the primes of every round in order.
   */
  function FindPrimes<I(!new), G(!new), C>(e: Engine<I, G, C>, variableCount: nat, terms: set<Term>, dontCares: set<Term>, form: Form)
    : (r: Found<I>)
    ensures r == Outcome(e, Trace(e, e.groupTerms(variableCount, terms + dontCares, form)), dontCares, [])
  {
    var groups := e.groupTerms(variableCount, terms + dontCares, form);
    RoundsFromTrace(e, groups, dontCares, []);
    RoundsFrom(e, groups, dontCares, [])
  }

  // ---------------------------------------------------------------------------
  // An independent description of the rounds
  // ---------------------------------------------------------------------------

  /**
    The marked groups of every round the loop runs, in order. Round k works on
    exactly |groups| - k groups, so there are at most |groups| rounds, and
    every round but the last saw a combination.
   */
  function Trace<I(!new), G(!new), C>(e: Engine<I, G, C>, groups: seq<G>): seq<seq<G>>
    decreases |groups|
  {
    if |groups| == 0 then []
    else
      var round := CombineRound(e, groups);
      if NoneCombined(e, round.marked) then [round.marked]
      else [round.marked] + Trace(e, round.next)
  }

  /** Round k works on |groups| - k groups, and every round but the last saw a combination. */
  lemma {:induction false} TraceShape<I(!new), G(!new), C>(e: Engine<I, G, C>, groups: seq<G>)
    ensures var t := Trace(e, groups);
            && |t| <= |groups|
            && (forall k :: 0 <= k < |t| ==> |t[k]| == |groups| - k)
            && (forall k :: 0 <= k < |t| - 1 ==> !NoneCombined(e, t[k]))
    decreases |groups|
  {
    if |groups| > 0 {
      var round := CombineRound(e, groups);
      if !NoneCombined(e, round.marked) {
        var rest := Trace(e, round.next);
        TraceShape(e, round.next);
        var t := [round.marked] + rest;
        assert Trace(e, groups) == t;
        assert forall k :: 1 <= k < |t| ==> t[k] == rest[k - 1];
      }
    }
  }

  /** The primes collected over a sequence of rounds, concatenated in order. */
  function CollectAll<I(!new), G(!new), C>(e: Engine<I, G, C>, rounds: seq<seq<G>>, dontCares: set<Term>): seq<I> {
    if rounds == [] then [] else Collect(e, rounds[0], dontCares) + CollectAll(e, rounds[1..], dontCares)
  }

  /**
    What the loop returns after running the given rounds with `acc` already
    collected: the primes of all of them if the last saw no combination,
    the underflow panic otherwise (or when there were no rounds at all).
   */
  function Outcome<I(!new), G(!new), C>(e: Engine<I, G, C>, rounds: seq<seq<G>>, dontCares: set<Term>, acc: seq<I>): Found<I> {
    if rounds != [] && NoneCombined(e, rounds[|rounds| - 1]) then Found(acc + CollectAll(e, rounds, dontCares)) else Underflow
  }

  /** A round that saw a combination only moves its primes into the accumulator. */
  lemma OutcomeCons<I(!new), G(!new), C>(e: Engine<I, G, C>, first: seq<G>, rest: seq<seq<G>>, dontCares: set<Term>, acc: seq<I>)
    requires !NoneCombined(e, first)
    ensures Outcome(e, [first] + rest, dontCares, acc) == Outcome(e, rest, dontCares, acc + Collect(e, first, dontCares))
  {
    var t := [first] + rest;
    CollectAllCons(e, first, rest, dontCares);
    assert acc + CollectAll(e, t, dontCares) == (acc + Collect(e, first, dontCares)) + CollectAll(e, rest, dontCares);
    if rest != [] {
      assert t[|t| - 1] == rest[|rest| - 1];
    } else {
      assert t[|t| - 1] == first;
    }
  }

  /**
    The loop ends normally exactly when its last round saw no combination, and
    then returns the primes of all rounds, in round order, after `acc`.
   */
  lemma {:induction false} RoundsFromTrace<I(!new), G(!new), C>(e: Engine<I, G, C>, groups: seq<G>, dontCares: set<Term>, acc: seq<I>)
    ensures RoundsFrom(e, groups, dontCares, acc) == Outcome(e, Trace(e, groups), dontCares, acc)
    decreases |groups|
  {
    if |groups| > 0 {
      var round := CombineRound(e, groups);
      var primes := acc + Collect(e, round.marked, dontCares);
      TraceStep(e, groups);
      if NoneCombined(e, round.marked) {
        CollectAllCons(e, round.marked, [], dontCares);
        assert primes == acc + CollectAll(e, [round.marked], dontCares);
      } else {
        assert RoundsFrom(e, groups, dontCares, acc) == RoundsFrom(e, round.next, dontCares, primes);
        RoundsFromTrace(e, round.next, dontCares, primes);
        OutcomeCons(e, round.marked, Trace(e, round.next), dontCares, acc);
      }
    }
  }

  /** One unfolding of `Trace`. */
  lemma TraceStep<I(!new), G(!new), C>(e: Engine<I, G, C>, groups: seq<G>)
    requires |groups| > 0
    ensures var round := CombineRound(e, groups);
            Trace(e, groups)
            == if NoneCombined(e, round.marked) then [round.marked] else [round.marked] + Trace(e, round.next)
  {
  }

  lemma CollectAllCons<I(!new), G(!new), C>(e: Engine<I, G, C>, first: seq<G>, rest: seq<seq<G>>, dontCares: set<Term>)
    ensures CollectAll(e, [first] + rest, dontCares) == Collect(e, first, dontCares) + CollectAll(e, rest, dontCares)
  {
    assert ([first] + rest)[1..] == rest;
  }

  /**
    With groups that start unmarked, the loop never reaches a round without
    groups: a single group is combined with nothing, so that round is the last.
   */
  lemma {:induction false} RoundsFromFound<I(!new), G(!new), C>(e: Engine<I, G, C>, groups: seq<G>, dontCares: set<Term>, acc: seq<I>)
    requires GroupsStartUnmarked(e)
    requires |groups| > 0 && NoneCombined(e, groups)
    ensures RoundsFrom(e, groups, dontCares, acc).Found?
    decreases |groups|
  {
    var round := CombineRound(e, groups);
    if |groups| == 1 {
      assert round.marked == groups;
    } else if !NoneCombined(e, round.marked) {
      NextGroupsUnmarked(e, groups, 0);
      RoundsFromFound(e, round.next, dontCares, acc + Collect(e, round.marked, dontCares));
    }
  }

  /** `find_prime_implicants` never underflows when the grouping module behaves as assumed. */
  lemma FindPrimesFound<I(!new), G(!new), C>(e: Engine<I, G, C>, variableCount: nat, terms: set<Term>, dontCares: set<Term>, form: Form)
    requires GroupsStartUnmarked(e)
    ensures FindPrimes(e, variableCount, terms, dontCares, form).Found?
  {
    RoundsFromFound(e, e.groupTerms(variableCount, terms + dontCares, form), dontCares, []);
  }

  // ---------------------------------------------------------------------------
  // The loop itself
  // ---------------------------------------------------------------------------

  /** `find_prime_implicants` (lines 403-432). */
  method FindPrimeImplicants<I(!new), G(!new), C>(e: Engine<I, G, C>, variableCount: nat, terms: set<Term>, dontCares: set<Term>, form: Form)
    returns (r: Found<I>)
    ensures r == FindPrimes(e, variableCount, terms, dontCares, form)
  {
    var groups := e.groupTerms(variableCount, terms + dontCares, form);
    var primes: seq<I> := [];

    while true
      invariant RoundsFrom(e, groups, dontCares, primes) == FindPrimes(e, variableCount, terms, dontCares, form)
      decreases |groups|
    {
      if |groups| == 0 {
        return Underflow;
      }

      ghost var before := primes;
      var next, current := NextGroups(e, groups);
      primes := primes + Collect(e, current, dontCares);

      if NoneCombined(e, current) {
        return Found(primes);
      }

      assert RoundsFrom(e, groups, dontCares, before) == RoundsFrom(e, next, dontCares, primes);
      groups := next;
    }
  }

  /**
    `next_groups` of lines 414-416: `groups[i].combine(&groups[i + 1])` for
    i in 0..groups.len() - 1, which also marks the combined members of the
    current groups. `groups.len() - 1` underflows on no groups; the caller
    handles that case first.
   */
  method NextGroups<I(!new), G(!new), C>(e: Engine<I, G, C>, groups: seq<G>) returns (next: seq<G>, marked: seq<G>)
    requires |groups| > 0
    ensures Round(next, marked) == CombineRound(e, groups)
    ensures |next| == |groups| - 1 && |marked| == |groups|
  {
    next := [];
    marked := groups;
    var i := 0;
    while i + 1 < |marked|
      invariant |marked| == |groups| && i < |marked|
      invariant CombineRound(e, groups)
             == Round(next + CombineFrom(e, marked, i).next, CombineFrom(e, marked, i).marked)
      decreases |marked| - i
    {
      var c := e.combine(marked[i], marked[i + 1]);
      ghost var rest := CombineFrom(e, marked[i := c.left][i + 1 := c.right], i + 1);
      assert next + CombineFrom(e, marked, i).next == (next + [c.next]) + rest.next;
      next := next + [c.next];
      marked := marked[i := c.left][i + 1 := c.right];
      i := i + 1;
    }
  }
}
