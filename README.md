# quine-mccluskey: the minimisation driver, modelled in Dafny

This project models the driver layer of the `quine-mccluskey` crate, found in
`src/lib.rs`. The driver takes variable names and two term sets and
validates them. It derives the don't-care terms, runs the
Quine–McCluskey prime-implicant rounds, hands the primes to the chart and
to Petrick's method, and assembles the solutions. It then asserts that
every solution covers every required term and nothing outside the required
terms and the don't-cares. The public entry points are
`minimize` (minterms and maxterms, SOP or POS), `minimize_minterms` (SOP)
and `minimize_maxterms` (POS).

The implicant, group, chart and Petrick modules are not part of this model.
They are the fields of `Collaborators.Engine`, and each field is an arbitrary
function value. So every result below holds for every behaviour of those
modules. Where a result needs a promise from them, it names that promise:
- `GroupsStartUnmarked`: grouping yields at least one group, and fresh groups are unmarked.
- `SortPermutes`: `variable_sort` only reorders.
- `CoveringsSound`: the essentials plus each Petrick covering cover the required terms and nothing outside them and the don't-cares.

Files:
- `types.dfy` holds the shared vocabulary: `u32` terms, `Form`, the `Error` enum and `Pow2` for `1 << n`.
- `validation.dfy` covers `validate_input`.
- `coverage.dfy` covers `get_dont_cares` and `check_solution`.
- `collaborators.dfy` declares the abstract modules.
- `prime_implicants.dfy` covers `find_prime_implicants`.
- `minimizer.dfy` covers `minimize_internal` and the entry points.

Panics are modelled as explicit outcomes. `groups.len() - 1` on an empty
group list becomes `Underflow` / `Aborted(RoundUnderflow)`. A failing
`assert!(check_solution(..))` becomes `Aborted(CoverageCheckFailed)`.

Overlapping term sets are always rejected. They are rejected as
`TermConflict` only once the count, name, duplicate and bound checks pass
(lines 465-507). Otherwise the earlier failing check decides the error.
`OverlapNeverSolved` proves both facts.

## Model

| member | source | states |
|---|---|---|
| Types.ShiftFits | src/lib.rs:490-494 | with at most 26 variables, `1 << n` is at most 2^26 and fits in a `u32`, so the bounds check cannot overflow |
| Types.Pow2BelowWordSize | src/lib.rs:439 | for n < 32, `1u32 << n` does not overflow |
| Types.TermsBelow | src/lib.rs:439 | `HashSet::from_iter(0..limit)` has exactly `limit` elements: the terms below `limit` |
| InputValidation.TrimChangesIff | src/lib.rs:470 | a name differs from its `trim()` exactly when its first or last character is Unicode whitespace |
| InputValidation.InvalidName | src/lib.rs:470 | the name check rejects exactly "0", "1", the empty name and names with leading or trailing whitespace |
| InputValidation.DuplicateNames | src/lib.rs:476-484 | the duplicate set holds only given names, and it is empty exactly when all names are pairwise distinct |
| InputValidation.CollectDuplicates | src/lib.rs:476-484 | the nested scan over index pairs i < j collects exactly the duplicate set |
| InputValidation.DuplicateNamesRepeated | src/lib.rs:476-484 | the duplicate set gathered over index pairs i < j holds a name exactly when it occurs at least twice |
| InputValidation.Validation | src/lib.rs:460-510 | `Ok` is returned only when the variable count is between 1 and 26 |
| InputValidation.ValidateInput | src/lib.rs:460-510 | the loops (name check, nested duplicate scan) return exactly the verdict of the five-check cascade, payload included |
| InputValidation.ValidationOkIff | src/lib.rs:460-510 | `Ok(())` exactly when the count is in 1..26, every name follows the naming rule, names are distinct, every term is below 2^n and the sets are disjoint |
| InputValidation.CountCheckedFirst | src/lib.rs:465-467 | `InvalidVariableCount(len)` is reported exactly when the count is 0 or above 26, whatever else is wrong |
| InputValidation.InvalidVariableIff | src/lib.rs:469-474 | `InvalidVariable` is reported exactly when the count is fine and some name breaks the rule |
| InputValidation.DuplicatesReported | src/lib.rs:476-488 | once the count and name checks pass, a repeated name always gives `DuplicateVariables` with the full duplicate set |
| InputValidation.OutOfBoundsReported | src/lib.rs:490-501 | once the variable checks pass, a term at or above 2^n always gives `TermOutOfBounds` with every such term |
| InputValidation.DuplicatesPayload | src/lib.rs:476-488 | `DuplicateVariables(names)` comes only after the count and name checks pass; `names` is non-empty and holds exactly the repeated names |
| InputValidation.OutOfBoundsPayload | src/lib.rs:490-501 | `TermOutOfBounds` comes only after the variable checks pass; it carries the variable count and exactly the terms at least 2^count |
| InputValidation.ConflictPayload | src/lib.rs:503-507 | `TermConflict` comes only when every other check passes, and carries exactly the terms in both sets |
| InputValidation.OverlapRejected | src/lib.rs:460-510 | overlapping sets are always rejected, and with `TermConflict` of the overlap once the earlier checks pass |
| InputValidation.TermFourNeedsThreeVariables | src/lib.rs:490-501 | variables A, B with term 4 give `TermOutOfBounds({4}, 2)` |
| Coverage.DontCares | src/lib.rs:434-443 | don't-cares are below 2^n and disjoint from both sets; every term below 2^n is a minterm, a maxterm or a don't-care |
| Coverage.TruthTablePartition | src/lib.rs:434-443 | for validated input the three sets partition `0..2^n`, and there are 2^n - \|minterms\| - \|maxterms\| don't-cares |
| Coverage.Covered | src/lib.rs:446-447 | a term is covered exactly when some implicant of the solution expands to it |
| Coverage.CheckSolution | src/lib.rs:445-451 | the check passes exactly when every required term has a covering implicant and every implicant stays within the required terms and don't-cares; an empty solution passes exactly when nothing is required |
| Coverage.CoveredConcat | src/lib.rs:390-393 | the coverage of essentials + covering is the union of their coverages |
| Coverage.CoveredPermutation | src/lib.rs:396 | reordering a solution does not change its coverage |
| PrimeImplicants.CombineFrom | src/lib.rs:414-416 | a round yields one next group per adjacent pair (\|groups\| - 1), keeps the group count, and leaves the groups before the current pair as they were |
| PrimeImplicants.NextGroups | src/lib.rs:414-416 | the pairwise combining loop produces the next groups and the marked current groups of `CombineRound` |
| PrimeImplicants.NextGroupsUnmarked | src/lib.rs:414-416 | under `GroupsStartUnmarked`, every next-round group is unmarked |
| PrimeImplicants.Collect | src/lib.rs:418-422 | an implicant is collected exactly when some group of the round reports it as prime |
| PrimeImplicants.RoundsFrom | src/lib.rs:413-429 | the primes collected before a round are kept: the result extends the accumulator |
| PrimeImplicants.TraceShape | src/lib.rs:413-429 | there are at most \|groups\| rounds; round k has \|groups\| - k groups; every round but the last saw a combination |
| PrimeImplicants.OutcomeCons | src/lib.rs:418-428 | a round that saw a combination only moves its primes into the accumulator |
| PrimeImplicants.RoundsFromTrace | src/lib.rs:403-432 | the loop returns normally exactly when its last round saw no combination, with the primes of every round in order, the last round's included |
| PrimeImplicants.RoundsFromFound | src/lib.rs:413-429 | starting from unmarked groups, the loop never reaches an empty round |
| PrimeImplicants.FindPrimes | src/lib.rs:403-432 | the loop, seeded with the grouping of terms and don't-cares, returns normally exactly when its last round saw no combination, with the primes of every round in order |
| PrimeImplicants.FindPrimesFound | src/lib.rs:403-432 | under `GroupsStartUnmarked`, `find_prime_implicants` never panics |
| PrimeImplicants.FindPrimeImplicants | src/lib.rs:403-432 | the imperative loop computes the round-by-round result, panic included |
| Minimizer.Assemble | src/lib.rs:390-396 | one solution per Petrick covering; under `SortPermutes` each is a permutation of the essentials followed by the covering |
| Minimizer.Internal | src/lib.rs:378-401 | every returned solution passes `check_solution`; the run panics with underflow exactly when prime finding does |
| Minimizer.Checked | src/lib.rs:395-398 | the solutions come back unchanged when each covers every required term and nothing outside the required terms and don't-cares; otherwise the run panics with the assertion failure, and some solution fails that test |
| Minimizer.MinimizeInternal | src/lib.rs:378-401 | the imperative pipeline computes `Internal` |
| Minimizer.SortAndCheck | src/lib.rs:390-398 | sorting and checking the assembled solutions in place returns them all, or the assertion failure if any fails the check |
| Minimizer.InternalReturns | src/lib.rs:378-401 | under the three collaborator promises the run never panics, and returns one solution per covering |
| Minimizer.Minimize | src/lib.rs:126-158 | a validation error is returned unchanged, before any minimisation; a solution list is returned only for input that passed validation |
| Minimizer.MinimizeSucceeds | src/lib.rs:126-158 | well-formed input, with collaborators that keep their promises, always gives `Ok`, with one solution per Petrick covering |
| Minimizer.MinimizeMinterms | src/lib.rs:197-225 | validation errors pass through; any returned solution covers all minterms and nothing beyond minterms and don't-cares |
| Minimizer.MinimizeMaxterms | src/lib.rs:264-292 | validation errors pass through; any returned solution covers all maxterms and nothing beyond maxterms and don't-cares |
| Minimizer.MinimizeReproducesTruthTable | src/lib.rs:137-149 | every solution of `minimize` covers all on-terms (minterms for SOP, maxterms for POS), no off-term, and nothing at or above 2^n |
| Minimizer.OverlapNeverSolved | src/lib.rs:137-140 | overlapping minterms and maxterms always give a returned error, which is `TermConflict` of the overlap once the earlier checks pass |
| Minimizer.MinimizeAsMinterms | src/lib.rs:126-158 | `minimize` in SOP form equals `minimize_minterms` given the derived don't-cares |
| Minimizer.MinimizeAsMaxterms | src/lib.rs:126-158 | `minimize` in POS form equals `minimize_maxterms` given the derived don't-cares |

## Left out

- The timeout path (`minimize_internal_with_timeout`, lines 337-376) is left out. It runs the minimisation on a thread with a channel and a deadline, which involves concurrency and a clock. The model is the path taken with no timeout, and `Error::Timeout` is never produced.
- The internals of `Implicant`, `Group`, `PrimeImplicantChart`, `Petrick` and `VariableSort` are not part of this model. They are the uninterpreted functions of `Collaborators.Engine`, and their promises are hypotheses (`GroupsStartUnmarked`, `SortPermutes`, `CoveringsSound`), not proofs.
- Group::combine marks its groups through interior mutability. The model returns the marked copies explicitly and writes them back in order. Aliasing between groups is not modelled.
- Minimizer.Minimize returns the internal implicant lists. `Solution::new`, `Display` and the rendering of solutions as expressions are left out; the same holds for `MinimizeMinterms` and `MinimizeMaxterms`.
- `own_variables` (lines 453-458) only copies the names into owned strings. Names are used directly.
- Error messages (`thiserror` formats) and `serde` derivations are left out. They are presentation only.
- Hash-set iteration order is not modelled. All term sets are Dafny sets, and the order of prime implicants is kept as a sequence.
- The unit tests (lines 512 onward) compare prime-implicant sets that depend on `Group` internals. Those expected values are not restated.
- Coverage.DontCares: requires fewer than 32 variables, because `1u32 << n` overflows beyond that. It is only called after validation, which limits n to 26.
