/**
  The collaborators whose source is not part of this model: `Implicant`,
  `Group`, `PrimeImplicantChart`, `Petrick` and the `VariableSort` of a
  solution. Each operation the orchestration calls is a field of `Engine`
  holding a function value, so every statement about the orchestration holds
  for all possible behaviours of these modules; where a statement needs one
  of their properties, it names it as a predicate below.

  Type parameters: `I` an implicant, `G` a group of implicants, `C` a
  prime-implicant chart.
 */
module Collaborators {
  import opened Types

  /**
    `Group::combine(&self, other)` returns the next-round group and, through
    the groups' interior state, marks the members of both groups that took
    part in a combination. The marked copies are returned explicitly here.
   */
  datatype Combination<G> = Combination(next: G, left: G, right: G)

  /** `PrimeImplicantChart::simplify` shrinks the chart in place and returns the essentials. */
  datatype Simplified<I, C> = Simplified(chart: C, essentials: seq<I>)

  datatype Engine<!I, !G, !C> = Engine(
    // Implicant::get_terms
    getTerms: I -> set<Term>,
    // Group::group_terms(variable_count, terms, form)
    groupTerms: (nat, set<Term>, Form) -> seq<G>,
    // Group::combine
    combine: (G, G) -> Combination<G>,
    // Group::was_combined
    wasCombined: G -> bool,
    // Group::get_prime_implicants(dont_cares)
    primeImplicants: (G, set<Term>) -> seq<I>,
    // PrimeImplicantChart::new(prime_implicants, dont_cares)
    newChart: (seq<I>, set<Term>) -> C,
    // PrimeImplicantChart::simplify(find_all_solutions)
    simplify: (C, bool) -> Simplified<I, C>,
    // Petrick::solve
    solve: C -> seq<seq<I>>,
    // VariableSort::variable_sort(form), an in-place reordering of a solution
    variableSort: (seq<I>, Form) -> seq<I>)

  /**
    Groups as the grouping module hands them out are not yet marked: the
    initial grouping and every group `combine` produces report
    `was_combined() == false` until they take part in a combination.
    Grouping always yields at least one group (the source's own tests call
    it on empty term sets without a panic).
   */
  ghost predicate GroupsStartUnmarked<I, G(!new), C>(e: Engine<I, G, C>) {
    && (forall n, terms, form :: |e.groupTerms(n, terms, form)| > 0)
    && (forall n, terms, form, k :: 0 <= k < |e.groupTerms(n, terms, form)|
          ==> !e.wasCombined(e.groupTerms(n, terms, form)[k]))
    && (forall a, b :: !e.wasCombined(e.combine(a, b).next))
  }

  /** `variable_sort` only reorders the implicants of a solution. */
  ghost predicate SortPermutes<I(!new), G, C>(e: Engine<I, G, C>) {
    forall s, form :: multiset(e.variableSort(s, form)) == multiset(s)
  }
}
