/**
  Don't-care derivation (`get_dont_cares`) and the coverage check every
  returned solution must pass (`check_solution`).

  `Implicant::get_terms` is not part of this model: it is the parameter
  `getTerms`, so every statement here holds for whatever term set an
  implicant expands to.
 */
module Coverage {
  import opened Types

  // ---------------------------------------------------------------------------
  // Don't-cares
  // ---------------------------------------------------------------------------

  /**
    `get_dont_cares`: the terms of `0..1 << n` that are neither minterms nor
    maxterms. `1u32 << n` overflows for n >= 32, hence the precondition.
   */
  function DontCares(n: nat, minterms: set<Term>, maxterms: set<Term>): (r: set<Term>)
    requires n < 32
    ensures r !! minterms && r !! maxterms
    ensures forall t :: t in r ==> t < Pow2(n)
    ensures forall t: Term :: t < Pow2(n) ==> t in minterms || t in maxterms || t in r
  {
    Pow2BelowWordSize(n);
    TermsBelow(Pow2(n)) - (minterms + maxterms)
  }

  /**
    For validated input (all terms below 2^n, minterms and maxterms
    disjoint) the three sets partition the truth table `0..2^n`, and the
    don't-cares are exactly the rows left over.
   */
  lemma {:induction false} TruthTablePartition(n: nat, minterms: set<Term>, maxterms: set<Term>)
    requires n < 32
    requires forall t :: t in minterms + maxterms ==> t < Pow2(n)
    requires minterms !! maxterms
    ensures forall t: Term :: t in minterms + maxterms + DontCares(n, minterms, maxterms) <==> t < Pow2(n)
    ensures |DontCares(n, minterms, maxterms)| == Pow2(n) - |minterms| - |maxterms|
  {
    Pow2BelowWordSize(n);
    var all := TermsBelow(Pow2(n));
    var cares := minterms + maxterms;
    var dc := DontCares(n, minterms, maxterms);
    assert cares <= all;
    assert dc == all - cares;
    DifferenceSize(all, cares);
    assert |cares| == |minterms| + |maxterms|;
  }

  lemma DifferenceSize(all: set<Term>, part: set<Term>)
    requires part <= all
    ensures |all - part| == |all| - |part|
  {
    assert all == (all - part) + part;
    assert (all - part) !! part;
  }

  // ---------------------------------------------------------------------------
  // Coverage of a solution
  // ---------------------------------------------------------------------------

  /** The union of the terms the implicants of `solution` cover. */
  function Covered<I>(getTerms: I -> set<Term>, solution: seq<I>): (r: set<Term>)
    ensures forall t :: t in r <==> exists k :: 0 <= k < |solution| && t in getTerms(solution[k])
  {
    if solution == [] then {}
    else
      var rest := Covered(getTerms, solution[1..]);
      assert forall k :: 1 <= k < |solution| ==> solution[k] == solution[1..][k - 1];
      getTerms(solution[0]) + rest
  }

  /**
    `check_solution`: every required term is covered, and nothing outside the
    required terms and the don't-cares is. Implicant by implicant: each
    required term has an implicant covering it, and each implicant covers
    only required terms and don't-cares. An empty solution passes exactly
    when nothing is required.
   */
  predicate CheckSolution<I>(getTerms: I -> set<Term>, terms: set<Term>, dontCares: set<Term>, solution: seq<I>)
    ensures CheckSolution(getTerms, terms, dontCares, solution)
        <==> && (forall t :: t in terms ==> exists k :: 0 <= k < |solution| && t in getTerms(solution[k]))
             && (forall k :: 0 <= k < |solution| ==> getTerms(solution[k]) <= terms + dontCares)
    ensures solution == [] ==> (CheckSolution(getTerms, terms, dontCares, solution) <==> terms == {})
  {
    var covered := Covered(getTerms, solution);
    terms <= covered && covered <= terms + dontCares
  }

  /** Coverage of a concatenation is the union of the coverages. */
  lemma CoveredConcat<I>(getTerms: I -> set<Term>, a: seq<I>, b: seq<I>)
    ensures Covered(getTerms, a + b) == Covered(getTerms, a) + Covered(getTerms, b)
  {
    var ab := a + b;
    forall t | t in Covered(getTerms, ab)
      ensures t in Covered(getTerms, a) + Covered(getTerms, b)
    {
      var k :| 0 <= k < |ab| && t in getTerms(ab[k]);
      if k < |a| {
        assert ab[k] == a[k];
      } else {
        assert ab[k] == b[k - |a|];
      }
    }
    forall t | t in Covered(getTerms, b)
      ensures t in Covered(getTerms, ab)
    {
      var k :| 0 <= k < |b| && t in getTerms(b[k]);
      assert ab[k + |a|] == b[k];
    }
    forall t | t in Covered(getTerms, a)
      ensures t in Covered(getTerms, ab)
    {
      var k :| 0 <= k < |a| && t in getTerms(a[k]);
      assert ab[k] == a[k];
    }
  }

  /** Reordering the implicants of a solution does not change what it covers. */
  lemma CoveredPermutation<I>(getTerms: I -> set<Term>, a: seq<I>, b: seq<I>)
    requires multiset(a) == multiset(b)
    ensures Covered(getTerms, a) == Covered(getTerms, b)
  {
    forall t | t in Covered(getTerms, a)
      ensures t in Covered(getTerms, b)
    {
      var k :| 0 <= k < |a| && t in getTerms(a[k]);
      assert a[k] in multiset(b);
      var m :| 0 <= m < |b| && b[m] == a[k];
    }
    forall t | t in Covered(getTerms, b)
      ensures t in Covered(getTerms, a)
    {
      var k :| 0 <= k < |b| && t in getTerms(b[k]);
      assert b[k] in multiset(a);
      var m :| 0 <= m < |a| && a[m] == b[k];
    }
  }
}
