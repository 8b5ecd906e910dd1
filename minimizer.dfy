/**
  Orchestration: solution assembly and the internal coverage assertion
  (`minimize_internal`), and the public entry points that validate the input,
  derive the don't-cares and choose the terms for the requested form
  (`minimize`, `minimize_minterms`, `minimize_maxterms`). The timeout path is
  not part of this model: these are the entry points called with no timeout.
 */
module Minimizer {
  import opened Types
  import opened InputValidation
  import opened Coverage
  import opened Collaborators
  import opened PrimeImplicants

  /** The two ways the core panics instead of returning. */
  datatype Abort =
    | RoundUnderflow       // `groups.len() - 1` on an empty group list (line 414)
    | CoverageCheckFailed  // `assert!(check_solution(..))` failed (line 397)

  datatype Run<T> = Returned(value: T) | Aborted(cause: Abort)

  // ---------------------------------------------------------------------------
  // minimize_internal
  // ---------------------------------------------------------------------------

  /**
    Lines 390-396: each Petrick covering prefixed with the essential prime
    implicants, then reordered by `variable_sort`.
   */
  function Assemble<I(!new), G(!new), C>(e: Engine<I, G, C>, essentials: seq<I>, coverings: seq<seq<I>>, form: Form)
    : (r: seq<seq<I>>)
    ensures |r| == |coverings|
    ensures SortPermutes(e) ==>
              forall k :: 0 <= k < |r| ==> multiset(r[k]) == multiset(essentials) + multiset(coverings[k])
  {
    seq(|coverings|, k requires 0 <= k < |coverings| => e.variableSort(essentials + coverings[k], form))
  }

  /** Lines 385-400 as a value: the solutions, or the panic that ends the run. */
  function Internal<I(!new), G(!new), C>(e: Engine<I, G, C>, variableCount: nat, terms: set<Term>, dontCares: set<Term>,
                                         form: Form, findAllSolutions: bool): (r: Run<seq<seq<I>>>)
    ensures r.Returned? ==>
              forall k :: 0 <= k < |r.value| ==> CheckSolution(e.getTerms, terms, dontCares, r.value[k])
    ensures r == Aborted(RoundUnderflow) <==> FindPrimes(e, variableCount, terms, dontCares, form).Underflow?
  {
    match FindPrimes(e, variableCount, terms, dontCares, form)
    case Underflow => Aborted(RoundUnderflow)
    case Found(primes) =>
      var simplified := e.simplify(e.newChart(primes, dontCares), findAllSolutions);
      Checked(e, terms, dontCares, Assemble(e, simplified.essentials, e.solve(simplified.chart), form))
  }

  /**
    The assertion of line 397 over all assembled solutions: they come back
    unchanged when each covers every required term and nothing outside the
    required terms and don't-cares; otherwise the run panics.
   */
  function Checked<I(!new), G(!new), C>(e: Engine<I, G, C>, terms: set<Term>, dontCares: set<Term>, solutions: seq<seq<I>>)
    : (r: Run<seq<seq<I>>>)
    ensures r.Returned? ==>
              && r.value == solutions
              && forall k :: 0 <= k < |solutions| ==>
                   terms <= Covered(e.getTerms, solutions[k]) <= terms + dontCares
    ensures r.Aborted? ==>
              && r.cause == CoverageCheckFailed
              && exists k :: 0 <= k < |solutions| &&
                   !(terms <= Covered(e.getTerms, solutions[k]) <= terms + dontCares)
  {
    if forall k :: 0 <= k < |solutions| ==> CheckSolution(e.getTerms, terms, dontCares, solutions[k]) then
      Returned(solutions)
    else
      Aborted(CoverageCheckFailed)
  }

  /** `minimize_internal` (lines 378-401), sorting and checking each solution in place. */
  method MinimizeInternal<I(!new), G(!new), C>(e: Engine<I, G, C>, variableCount: nat, terms: set<Term>, dontCares: set<Term>,
                                               form: Form, findAllSolutions: bool)
    returns (r: Run<seq<seq<I>>>)
    ensures r == Internal(e, variableCount, terms, dontCares, form, findAllSolutions)
  {
    var found := FindPrimeImplicants(e, variableCount, terms, dontCares, form);
    if found.Underflow? {
      return Aborted(RoundUnderflow);
    }
    var chart := e.newChart(found.primes, dontCares);
    var simplified := e.simplify(chart, findAllSolutions);
    chart := simplified.chart;
    var essentials := simplified.essentials;
    var coverings := e.solve(chart);

    r := SortAndCheck(e, terms, dontCares, essentials, coverings, form);
  }

  /** Lines 390-398: assemble the solutions, then sort and check each one in place. */
  method SortAndCheck<I(!new), G(!new), C>(e: Engine<I, G, C>, terms: set<Term>, dontCares: set<Term>,
                                           essentials: seq<I>, coverings: seq<seq<I>>, form: Form)
    returns (r: Run<seq<seq<I>>>)
    ensures r == Checked(e, terms, dontCares, Assemble(e, essentials, coverings, form))
  {
    var solutions := new seq<I>[|coverings|](k requires 0 <= k < |coverings| => essentials + coverings[k]);
    ghost var assembled := Assemble(e, essentials, coverings, form);
    for k := 0 to solutions.Length
      invariant forall m :: 0 <= m < k ==> solutions[m] == assembled[m]
      invariant forall m :: 0 <= m < k ==> CheckSolution(e.getTerms, terms, dontCares, assembled[m])
      invariant forall m :: k <= m < solutions.Length ==> solutions[m] == essentials + coverings[m]
    {
      solutions[k] := e.variableSort(solutions[k], form);
      assert solutions[k] == assembled[k];
      if !CheckSolution(e.getTerms, terms, dontCares, solutions[k]) {
        return Aborted(CoverageCheckFailed);
      }
    }
    assert solutions[..] == assembled;
    return Returned(solutions[..]);
  }

  /**
    What the chart and Petrick modules are expected to deliver: the
    essentials together with each covering reach every required term and
    nothing outside the required terms and don't-cares.
   */
  ghost predicate CoveringsSound<I(!new), G(!new), C>(e: Engine<I, G, C>, primes: seq<I>, terms: set<Term>,
                                                      dontCares: set<Term>, findAllSolutions: bool)
  {
    var simplified := e.simplify(e.newChart(primes, dontCares), findAllSolutions);
    var coverings := e.solve(simplified.chart);
    forall k :: 0 <= k < |coverings| ==>
      var covered := Covered(e.getTerms, simplified.essentials) + Covered(e.getTerms, coverings[k]);
      terms <= covered <= terms + dontCares
  }

  /**
    The run never panics when the collaborators keep their promises: grouping
    starts unmarked, `variable_sort` only reorders, and each Petrick covering
    completes the essentials. There is then one solution per covering.
   */
  lemma InternalReturns<I(!new), G(!new), C>(e: Engine<I, G, C>, variableCount: nat, terms: set<Term>, dontCares: set<Term>,
                                             form: Form, findAllSolutions: bool)
    requires GroupsStartUnmarked(e) && SortPermutes(e)
    requires FindPrimes(e, variableCount, terms, dontCares, form).Found? ==>
               CoveringsSound(e, FindPrimes(e, variableCount, terms, dontCares, form).primes, terms, dontCares, findAllSolutions)
    ensures FindPrimes(e, variableCount, terms, dontCares, form).Found?
    ensures var primes := FindPrimes(e, variableCount, terms, dontCares, form).primes;
            var simplified := e.simplify(e.newChart(primes, dontCares), findAllSolutions);
            && Internal(e, variableCount, terms, dontCares, form, findAllSolutions).Returned?
            && |Internal(e, variableCount, terms, dontCares, form, findAllSolutions).value| == |e.solve(simplified.chart)|
  {
    FindPrimesFound(e, variableCount, terms, dontCares, form);
    var primes := FindPrimes(e, variableCount, terms, dontCares, form).primes;
    var simplified := e.simplify(e.newChart(primes, dontCares), findAllSolutions);
    var coverings := e.solve(simplified.chart);
    var solutions := Assemble(e, simplified.essentials, coverings, form);
    forall k | 0 <= k < |solutions|
      ensures CheckSolution(e.getTerms, terms, dontCares, solutions[k])
    {
      var joined := simplified.essentials + coverings[k];
      assert multiset(solutions[k]) == multiset(joined);
      CoveredPermutation(e.getTerms, solutions[k], joined);
      CoveredConcat(e.getTerms, simplified.essentials, coverings[k]);
    }
  }

  // ---------------------------------------------------------------------------
  // Entry points
  // ---------------------------------------------------------------------------

  /** `HashSet::from_iter(terms.iter().copied())`. */
  function SetOf(terms: seq<Term>): set<Term> {
    set t | t in terms
  }

  /** The `?` on the internal result: solutions become `Ok`, panics stay panics. */
  function Lift<T>(run: Run<T>): Run<Result<T>> {
    match run
    case Returned(v) => Returned(Ok(v))
    case Aborted(c) => Aborted(c)
  }

  /**
    `minimize` with no timeout (lines 126-158): validate, derive the
    don't-cares from the two term sets, and minimise the terms of the form.
   */
  function Minimize<I(!new), G(!new), C>(e: Engine<I, G, C>, variables: seq<string>, minterms: seq<Term>, maxterms: seq<Term>,
                                         form: Form, findAllSolutions: bool): (r: Run<Result<seq<seq<I>>>>)
    ensures Validation(variables, SetOf(minterms), SetOf(maxterms)).Err?
            ==> r == Returned(Err(Validation(variables, SetOf(minterms), SetOf(maxterms)).error))
    ensures r.Returned? && r.value.Ok? ==> Validation(variables, SetOf(minterms), SetOf(maxterms)) == Ok(())
  {
    var mins, maxs := SetOf(minterms), SetOf(maxterms);
    match Validation(variables, mins, maxs)
    case Err(error) => Returned(Err(error))
    case Ok(_) =>
      var n := |variables|;
      var terms := if form == SOP then mins else maxs;  // line 143
      Lift(Internal(e, n, terms, DontCares(n, mins, maxs), form, findAllSolutions))
  }

  /** `minimize_minterms` with no timeout (lines 197-225): the second set holds don't-cares; form SOP. */
  function MinimizeMinterms<I(!new), G(!new), C>(e: Engine<I, G, C>, variables: seq<string>, minterms: seq<Term>,
                                                 dontCares: seq<Term>, findAllSolutions: bool): (r: Run<Result<seq<seq<I>>>>)
    ensures Validation(variables, SetOf(minterms), SetOf(dontCares)).Err?
            ==> r == Returned(Err(Validation(variables, SetOf(minterms), SetOf(dontCares)).error))
    ensures r.Returned? && r.value.Ok? ==>
              && Validation(variables, SetOf(minterms), SetOf(dontCares)) == Ok(())
              && forall k :: 0 <= k < |r.value.value| ==>
                   CheckSolution(e.getTerms, SetOf(minterms), SetOf(dontCares), r.value.value[k])
  {
    var mins, dcs := SetOf(minterms), SetOf(dontCares);
    match Validation(variables, mins, dcs)
    case Err(error) => Returned(Err(error))
    case Ok(_) =>
      Lift(Internal(e, |variables|, mins, dcs, SOP, findAllSolutions))
  }

  /** `minimize_maxterms` with no timeout (lines 264-292): the second set holds don't-cares; form POS. */
  function MinimizeMaxterms<I(!new), G(!new), C>(e: Engine<I, G, C>, variables: seq<string>, maxterms: seq<Term>,
                                                 dontCares: seq<Term>, findAllSolutions: bool): (r: Run<Result<seq<seq<I>>>>)
    ensures Validation(variables, SetOf(maxterms), SetOf(dontCares)).Err?
            ==> r == Returned(Err(Validation(variables, SetOf(maxterms), SetOf(dontCares)).error))
    ensures r.Returned? && r.value.Ok? ==>
              && Validation(variables, SetOf(maxterms), SetOf(dontCares)) == Ok(())
              && forall k :: 0 <= k < |r.value.value| ==>
                   CheckSolution(e.getTerms, SetOf(maxterms), SetOf(dontCares), r.value.value[k])
  {
    var maxs, dcs := SetOf(maxterms), SetOf(dontCares);
    match Validation(variables, maxs, dcs)
    case Err(error) => Returned(Err(error))
    case Ok(_) =>
      Lift(Internal(e, |variables|, maxs, dcs, POS, findAllSolutions))
  }

  // ---------------------------------------------------------------------------
  // What the entry points guarantee
  // ---------------------------------------------------------------------------

  /**
    Every solution `minimize` returns reproduces the truth table: in SOP form
    its implicants cover every minterm and no maxterm, in POS form every
    maxterm and no minterm, and they cover no term beyond 2^n.
   */
  lemma MinimizeReproducesTruthTable<I(!new), G(!new), C>(e: Engine<I, G, C>, variables: seq<string>, minterms: seq<Term>,
                                                          maxterms: seq<Term>, form: Form, findAllSolutions: bool,
                                                          k: nat)
    ensures var r := Minimize(e, variables, minterms, maxterms, form, findAllSolutions);
            r.Returned? && r.value.Ok? && k < |r.value.value| ==>
              var covered := Covered(e.getTerms, r.value.value[k]);
              var (on, off) := if form == SOP then (SetOf(minterms), SetOf(maxterms)) else (SetOf(maxterms), SetOf(minterms));
              && on <= covered
              && covered !! off
              && forall t :: t in covered ==> t < Pow2(|variables|)
  {
    var r := Minimize(e, variables, minterms, maxterms, form, findAllSolutions);
    if r.Returned? && r.value.Ok? && k < |r.value.value| {
      var mins, maxs := SetOf(minterms), SetOf(maxterms);
      ValidationOkIff(variables, mins, maxs);
      var dc := DontCares(|variables|, mins, maxs);
      assert CheckSolution(e.getTerms, if form == SOP then mins else maxs, dc, r.value.value[k]);
    }
  }

  /**
    Well-formed input is always minimised: when the collaborators keep their
    promises, `minimize` returns `Ok`, with one solution per Petrick covering.
   */
  lemma MinimizeSucceeds<I(!new), G(!new), C>(e: Engine<I, G, C>, variables: seq<string>, minterms: seq<Term>,
                                              maxterms: seq<Term>, form: Form, findAllSolutions: bool)
    requires WellFormedInput(variables, SetOf(minterms), SetOf(maxterms))
    requires GroupsStartUnmarked(e) && SortPermutes(e)
    requires var mins, maxs := SetOf(minterms), SetOf(maxterms);
             var terms, dc := if form == SOP then mins else maxs, DontCares(|variables|, mins, maxs);
             var found := FindPrimes(e, |variables|, terms, dc, form);
             found.Found? ==> CoveringsSound(e, found.primes, terms, dc, findAllSolutions)
    ensures Minimize(e, variables, minterms, maxterms, form, findAllSolutions).Returned?
    ensures Minimize(e, variables, minterms, maxterms, form, findAllSolutions).value.Ok?
    ensures var mins, maxs := SetOf(minterms), SetOf(maxterms);
            var terms, dc := if form == SOP then mins else maxs, DontCares(|variables|, mins, maxs);
            var found := FindPrimes(e, |variables|, terms, dc, form);
            && found.Found?
            && var simplified := e.simplify(e.newChart(found.primes, dc), findAllSolutions);
               |Minimize(e, variables, minterms, maxterms, form, findAllSolutions).value.value| == |e.solve(simplified.chart)|
  {
    var mins, maxs := SetOf(minterms), SetOf(maxterms);
    ValidationOkIff(variables, mins, maxs);
    var terms, dc := if form == SOP then mins else maxs, DontCares(|variables|, mins, maxs);
    InternalReturns(e, |variables|, terms, dc, form, findAllSolutions);
  }

  /**
    Overlapping term sets never yield a solution; once the variables and the
    term bounds are fine, the error is exactly `TermConflict` of the overlap.
   */
  lemma OverlapNeverSolved<I(!new), G(!new), C>(e: Engine<I, G, C>, variables: seq<string>, minterms: seq<Term>,
                                                maxterms: seq<Term>, form: Form, findAllSolutions: bool)
    requires SetOf(minterms) * SetOf(maxterms) != {}
    ensures Minimize(e, variables, minterms, maxterms, form, findAllSolutions).Returned?
    ensures Minimize(e, variables, minterms, maxterms, form, findAllSolutions).value.Err?
    ensures var mins, maxs := SetOf(minterms), SetOf(maxterms);
            && 1 <= |variables| <= MaxVariables
            && (forall k :: 0 <= k < |variables| ==> !BreaksNamingRule(variables[k]))
            && DuplicateNames(variables) == {}
            && (forall t :: t in mins + maxs ==> t < Pow2(|variables|))
            ==> Minimize(e, variables, minterms, maxterms, form, findAllSolutions).value.error == TermConflict(mins * maxs)
  {
    OverlapRejected(variables, SetOf(minterms), SetOf(maxterms));
  }

  /**
    `minimize` in SOP form is `minimize_minterms` given the derived
    don't-cares: same validation verdict, same solutions.
   */
  lemma MinimizeAsMinterms<I(!new), G(!new), C>(e: Engine<I, G, C>, variables: seq<string>, minterms: seq<Term>,
                                                maxterms: seq<Term>, dontCares: seq<Term>, findAllSolutions: bool)
    requires Validation(variables, SetOf(minterms), SetOf(maxterms)) == Ok(())
    requires SetOf(dontCares) == DontCares(|variables|, SetOf(minterms), SetOf(maxterms))
    ensures Minimize(e, variables, minterms, maxterms, SOP, findAllSolutions)
         == MinimizeMinterms(e, variables, minterms, dontCares, findAllSolutions)
  {
    var mins, maxs, dcs := SetOf(minterms), SetOf(maxterms), SetOf(dontCares);
    ValidationOkIff(variables, mins, maxs);
    ValidationOkIff(variables, mins, dcs);
  }

  /**
    `minimize` in POS form is `minimize_maxterms` given the derived
    don't-cares: same validation verdict, same solutions.
   */
  lemma MinimizeAsMaxterms<I(!new), G(!new), C>(e: Engine<I, G, C>, variables: seq<string>, minterms: seq<Term>,
                                                maxterms: seq<Term>, dontCares: seq<Term>, findAllSolutions: bool)
    requires Validation(variables, SetOf(minterms), SetOf(maxterms)) == Ok(())
    requires SetOf(dontCares) == DontCares(|variables|, SetOf(minterms), SetOf(maxterms))
    ensures Minimize(e, variables, minterms, maxterms, POS, findAllSolutions)
         == MinimizeMaxterms(e, variables, maxterms, dontCares, findAllSolutions)
  {
    var mins, maxs, dcs := SetOf(minterms), SetOf(maxterms), SetOf(dontCares);
    ValidationOkIff(variables, mins, maxs);
    ValidationOkIff(variables, maxs, dcs);
  }
}
