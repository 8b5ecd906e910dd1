/**
  Input validation (`validate_input`): a fixed cascade of five checks over the
  variable names and the two term sets, tried in the order
  count -> names -> duplicates -> bounds -> conflict. The first check that
  fails decides the error and its payload.
 */
module InputValidation {
  import opened Types

  // ---------------------------------------------------------------------------
  // Whitespace trimming, as Rust's `str::trim` does it
  // ---------------------------------------------------------------------------

  /** Rust's `char::is_whitespace`: the Unicode `White_Space` property. */
  predicate IsWhitespace(c: char) {
    var k := c as int;
    || (0x9 <= k <= 0xD) || k == 0x20 || k == 0x85 || k == 0xA0 || k == 0x1680
    || (0x2000 <= k <= 0x200A) || k == 0x2028 || k == 0x2029 || k == 0x202F
    || k == 0x205F || k == 0x3000
  }

  /** Drops leading whitespace; the result is a suffix of `s`. */
  function TrimStart(s: string): (r: string)
    ensures |r| <= |s| && r == s[|s| - |r|..]
    ensures r == [] || !IsWhitespace(r[0])
  {
    if |s| > 0 && IsWhitespace(s[0]) then TrimStart(s[1..]) else s
  }

  /** Drops trailing whitespace; the result is a prefix of `s`. */
  function TrimEnd(s: string): (r: string)
    ensures |r| <= |s| && r == s[..|r|]
    ensures r == [] || !IsWhitespace(r[|r| - 1])
  {
    if |s| > 0 && IsWhitespace(s[|s| - 1]) then TrimEnd(s[..|s| - 1]) else s
  }

  /** `str::trim`. */
  function Trim(s: string): string {
    TrimEnd(TrimStart(s))
  }

  /**
    A name differs from its trimmed form exactly when its first or its last
    character is whitespace.
   */
  lemma TrimChangesIff(s: string)
    ensures Trim(s) != s <==> |s| > 0 && (IsWhitespace(s[0]) || IsWhitespace(s[|s| - 1]))
  {
    if |s| > 0 && IsWhitespace(s[0]) {
      // trimming the start already shortens the name
      assert |TrimStart(s)| <= |s[1..]|;
      assert |Trim(s)| < |s|;
    } else if |s| > 0 && IsWhitespace(s[|s| - 1]) {
      assert TrimStart(s) == s;
      assert |TrimEnd(s)| <= |s[..|s| - 1]|;
      assert |Trim(s)| < |s|;
    } else {
      assert TrimStart(s) == s;
      assert TrimEnd(s) == s;
    }
  }

  // ---------------------------------------------------------------------------
  // The five checks
  // ---------------------------------------------------------------------------

  /**
    The name check of lines 469-474: "0", "1", empty, or not trimmed. It
    rejects exactly the names that break the naming rule character-wise.
   */
  predicate InvalidName(v: string)
    ensures InvalidName(v) <==> BreaksNamingRule(v)
  {
    TrimChangesIff(v);
    v == "0" || v == "1" || v == "" || v != Trim(v)
  }

  /**
    Names `variables[i]` for which some later `variables[j]` is equal. The set
    holds only given names, and it is empty exactly when all names are
    pairwise distinct.
   */
  function DuplicateNames(variables: seq<string>): (r: set<string>)
    ensures forall v :: v in r ==> v in variables
    ensures r == {}
        <==> forall i, j :: 0 <= i < |variables| && 0 <= j < |variables| && i != j ==> variables[i] != variables[j]
  {
    var r := set i, j | 0 <= i < j < |variables| && variables[i] == variables[j] :: variables[i];
    assert forall i, j :: 0 <= i < j < |variables| && variables[i] == variables[j] ==> variables[i] in r;
    r
  }

  /** Terms that need more than `n` variables: `term >= 1 << n`. */
  function OutOfBounds(terms: set<Term>, n: nat): (r: set<Term>)
    ensures r <= terms
    ensures forall t :: t in terms ==> (t in r <==> t >= Pow2(n))
  {
    set t | t in terms && t >= Pow2(n)
  }

  /**
    The verdict of `validate_input`, stated check by check in the order the
    source performs them.
   */
  function Validation(variables: seq<string>, terms1: set<Term>, terms2: set<Term>): (r: Result<()>)
    ensures r.Ok? ==> 1 <= |variables| <= MaxVariables
  {
    if |variables| == 0 || |variables| > MaxVariables then
      Err(InvalidVariableCount(|variables|))
    else if exists k :: 0 <= k < |variables| && InvalidName(variables[k]) then
      Err(InvalidVariable)
    else if DuplicateNames(variables) != {} then
      Err(DuplicateVariables(DuplicateNames(variables)))
    else if OutOfBounds(terms1 + terms2, |variables|) != {} then
      Err(TermOutOfBounds(OutOfBounds(terms1 + terms2, |variables|), |variables|))
    else if terms1 * terms2 != {} then
      Err(TermConflict(terms1 * terms2))
    else
      Ok(())
  }

  /** Duplicate names recorded for the index pairs (a, b), a < b, visited before (i, j). */
  ghost function DuplicatesSeen(variables: seq<string>, i: nat, j: nat): set<string> {
    set a, b | 0 <= a < b < |variables| && (a < i || (a == i && b < j)) && variables[a] == variables[b]
      :: variables[a]
  }

  /** `validate_input`, with its loops (lines 460-510). */
  method ValidateInput(variables: seq<string>, terms1: set<Term>, terms2: set<Term>) returns (r: Result<()>)
    ensures r == Validation(variables, terms1, terms2)
  {
    var n := |variables|;
    if n == 0 || n > MaxVariables {
      return Err(InvalidVariableCount(n));
    }

    for k := 0 to n
      invariant forall m :: 0 <= m < k ==> !InvalidName(variables[m])
    {
      if InvalidName(variables[k]) {
        return Err(InvalidVariable);
      }
    }

    var duplicates := CollectDuplicates(variables);

    if duplicates != {} {
      return Err(DuplicateVariables(duplicates));
    }

    ShiftFits(n);
    var outOfBounds := set t | t in terms1 + terms2 && t >= Pow2(n);
    if outOfBounds != {} {
      return Err(TermOutOfBounds(outOfBounds, n));
    }

    var conflicts := terms1 * terms2;
    if conflicts != {} {
      return Err(TermConflict(conflicts));
    }

    return Ok(());
  }

  /** The nested scan of lines 476-484 over all index pairs i < j. */
  method CollectDuplicates(variables: seq<string>) returns (duplicates: set<string>)
    ensures duplicates == DuplicateNames(variables)
  {
    duplicates := {};
    for i := 0 to |variables|
      invariant duplicates == DuplicatesSeen(variables, i, 0)
    {
      for j := i + 1 to |variables|
        invariant duplicates == DuplicatesSeen(variables, i, j)
      {
        if variables[i] == variables[j] {
          duplicates := duplicates + {variables[i]};
        }
        SeenStep(variables, i, j);
      }
      SeenNextRow(variables, i);
    }
    SeenAll(variables);
  }

  lemma SeenStep(variables: seq<string>, i: nat, j: nat)
    requires i < j < |variables|
    ensures DuplicatesSeen(variables, i, j + 1)
         == DuplicatesSeen(variables, i, j) + (if variables[i] == variables[j] then {variables[i]} else {})
  {
    if variables[i] == variables[j] {
      assert variables[i] in DuplicatesSeen(variables, i, j + 1) by {
        assert 0 <= i < j < |variables| && i == i && j < j + 1;
      }
    }
  }

  lemma SeenNextRow(variables: seq<string>, i: nat)
    requires i < |variables|
    ensures DuplicatesSeen(variables, i, |variables|) == DuplicatesSeen(variables, i + 1, 0)
  {
  }

  lemma SeenAll(variables: seq<string>)
    ensures DuplicatesSeen(variables, |variables|, 0) == DuplicateNames(variables)
  {
  }

  // ---------------------------------------------------------------------------
  // What the cascade guarantees
  // ---------------------------------------------------------------------------

  /** The naming rule in terms of characters: the trim test of line 470 unfolded. */
  predicate BreaksNamingRule(v: string) {
    v == "0" || v == "1" || v == "" || IsWhitespace(v[0]) || IsWhitespace(v[|v| - 1])
  }

  /** A name is reported as duplicate exactly when it occurs at least twice. */
  lemma DuplicateNamesRepeated(variables: seq<string>, v: string)
    ensures v in DuplicateNames(variables) <==> multiset(variables)[v] >= 2
  {
    RepeatedCount(variables, v);
  }

  /** `v` sits at two distinct positions of `variables`. */
  predicate Repeated(variables: seq<string>, v: string) {
    exists i, j :: 0 <= i < j < |variables| && variables[i] == v && variables[j] == v
  }

  lemma {:induction false} RepeatedCount(variables: seq<string>, v: string)
    ensures Repeated(variables, v) <==> multiset(variables)[v] >= 2
  {
    if variables != [] {
      var x, rest := variables[0], variables[1..];
      assert variables == [x] + rest;
      RepeatedCount(rest, v);
      if Repeated(variables, v) {
        var i, j :| 0 <= i < j < |variables| && variables[i] == v && variables[j] == v;
        if i == 0 {
          assert rest[j - 1] == v;
          assert v in multiset(rest);
        } else {
          assert rest[i - 1] == v && rest[j - 1] == v;
          assert Repeated(rest, v);
        }
      }
      if multiset(variables)[v] >= 2 {
        if multiset(rest)[v] >= 2 {
          var i, j :| 0 <= i < j < |rest| && rest[i] == v && rest[j] == v;
          assert variables[i + 1] == v && variables[j + 1] == v;
        } else {
          assert x == v && v in rest;
          var j :| 0 <= j < |rest| && rest[j] == v;
          assert variables[0] == v && variables[j + 1] == v;
        }
      }
    }
  }

  /** Everything `Ok(())` stands for: all five checks passed. */
  ghost predicate WellFormedInput(variables: seq<string>, terms1: set<Term>, terms2: set<Term>) {
    && 1 <= |variables| <= MaxVariables
    && (forall k :: 0 <= k < |variables| ==> !BreaksNamingRule(variables[k]))
    && (forall i, j :: 0 <= i < |variables| && 0 <= j < |variables| && i != j ==> variables[i] != variables[j])
    && (forall t :: t in terms1 + terms2 ==> t < Pow2(|variables|))
    && terms1 !! terms2
  }

  /** `validate_input` returns `Ok(())` exactly on well-formed input. */
  lemma ValidationOkIff(variables: seq<string>, terms1: set<Term>, terms2: set<Term>)
    ensures Validation(variables, terms1, terms2) == Ok(()) <==> WellFormedInput(variables, terms1, terms2)
  {
  }

  /** The count check comes first: it fires exactly on 0 or more than 26 names, whatever the rest. */
  lemma CountCheckedFirst(variables: seq<string>, terms1: set<Term>, terms2: set<Term>)
    ensures Validation(variables, terms1, terms2).Err?
         && Validation(variables, terms1, terms2).error.InvalidVariableCount?
        <==> |variables| == 0 || |variables| > MaxVariables
    ensures |variables| == 0 || |variables| > MaxVariables
        ==> Validation(variables, terms1, terms2) == Err(InvalidVariableCount(|variables|))
  {
  }

  /** `InvalidVariable` is reported exactly when the count is fine and some name breaks the rule. */
  lemma InvalidVariableIff(variables: seq<string>, terms1: set<Term>, terms2: set<Term>)
    ensures Validation(variables, terms1, terms2) == Err(InvalidVariable)
        <==> && 1 <= |variables| <= MaxVariables
             && exists k :: 0 <= k < |variables| && BreaksNamingRule(variables[k])
  {
  }

  /**
    `DuplicateVariables` is reported only after the count and name checks
    passed, and carries exactly the names that occur twice or more.
   */
  lemma DuplicatesPayload(variables: seq<string>, terms1: set<Term>, terms2: set<Term>, names: set<string>)
    requires Validation(variables, terms1, terms2) == Err(DuplicateVariables(names))
    ensures 1 <= |variables| <= MaxVariables
    ensures forall k :: 0 <= k < |variables| ==> !BreaksNamingRule(variables[k])
    ensures names != {}
    ensures forall v :: v in names <==> multiset(variables)[v] >= 2
  {
    forall v {
      DuplicateNamesRepeated(variables, v);
    }
  }

  /**
    `TermOutOfBounds` is reported only after the variable checks passed, so
    1 <= count <= 26 and `1 << count` fits in a `u32`; it carries exactly the
    terms of either set that are at least 2^count.
   */
  lemma OutOfBoundsPayload(variables: seq<string>, terms1: set<Term>, terms2: set<Term>, offending: set<Term>, count: nat)
    requires Validation(variables, terms1, terms2) == Err(TermOutOfBounds(offending, count))
    ensures count == |variables| && 1 <= count <= MaxVariables
    ensures Pow2(count) <= 0x400_0000
    ensures forall k :: 0 <= k < |variables| ==> !BreaksNamingRule(variables[k])
    ensures forall i, j :: 0 <= i < |variables| && 0 <= j < |variables| && i != j ==> variables[i] != variables[j]
    ensures offending != {}
    ensures forall t :: t in offending <==> (t in terms1 || t in terms2) && t >= Pow2(count)
  {
    ShiftFits(count);
  }

  /**
    `TermConflict` is reported only when everything else is fine, and carries
    exactly the terms found in both sets.
   */
  lemma ConflictPayload(variables: seq<string>, terms1: set<Term>, terms2: set<Term>, conflicts: set<Term>)
    requires Validation(variables, terms1, terms2) == Err(TermConflict(conflicts))
    ensures 1 <= |variables| <= MaxVariables
    ensures forall k :: 0 <= k < |variables| ==> !BreaksNamingRule(variables[k])
    ensures forall i, j :: 0 <= i < |variables| && 0 <= j < |variables| && i != j ==> variables[i] != variables[j]
    ensures forall t :: t in terms1 + terms2 ==> t < Pow2(|variables|)
    ensures conflicts != {}
    ensures forall t :: t in conflicts <==> t in terms1 && t in terms2
  {
  }

  /**
    Overlapping term sets are always rejected; once the variable and bound
    checks pass, the rejection is `TermConflict` of exactly the overlap.
   */
  lemma OverlapRejected(variables: seq<string>, terms1: set<Term>, terms2: set<Term>)
    requires terms1 * terms2 != {}
    ensures Validation(variables, terms1, terms2).Err?
    ensures && 1 <= |variables| <= MaxVariables
            && (forall k :: 0 <= k < |variables| ==> !BreaksNamingRule(variables[k]))
            && DuplicateNames(variables) == {}
            && (forall t :: t in terms1 + terms2 ==> t < Pow2(|variables|))
            ==> Validation(variables, terms1, terms2) == Err(TermConflict(terms1 * terms2))
  {
    if && 1 <= |variables| <= MaxVariables
       && (forall k :: 0 <= k < |variables| ==> !BreaksNamingRule(variables[k]))
       && DuplicateNames(variables) == {}
       && (forall t :: t in terms1 + terms2 ==> t < Pow2(|variables|))
    {
      assert OutOfBounds(terms1 + terms2, |variables|) == {};
    }
  }

  /**
    Once the count and name checks pass, any repeated name is reported, and
    the payload is the full duplicate set.
   */
  lemma DuplicatesReported(variables: seq<string>, terms1: set<Term>, terms2: set<Term>)
    requires 1 <= |variables| <= MaxVariables
    requires forall k :: 0 <= k < |variables| ==> !BreaksNamingRule(variables[k])
    requires exists i, j :: 0 <= i < j < |variables| && variables[i] == variables[j]
    ensures Validation(variables, terms1, terms2) == Err(DuplicateVariables(DuplicateNames(variables)))
  {
    var i, j :| 0 <= i < j < |variables| && variables[i] == variables[j];
    assert !(forall a, b :: 0 <= a < |variables| && 0 <= b < |variables| && a != b ==> variables[a] != variables[b]);
  }

  /**
    Once the variable checks pass, any term at or above 2^n is reported, and
    the payload is every such term of either set.
   */
  lemma OutOfBoundsReported(variables: seq<string>, terms1: set<Term>, terms2: set<Term>, t: Term)
    requires 1 <= |variables| <= MaxVariables
    requires forall k :: 0 <= k < |variables| ==> !BreaksNamingRule(variables[k])
    requires DuplicateNames(variables) == {}
    requires t in terms1 + terms2 && t >= Pow2(|variables|)
    ensures Validation(variables, terms1, terms2)
         == Err(TermOutOfBounds(OutOfBounds(terms1 + terms2, |variables|), |variables|))
  {
    assert t in OutOfBounds(terms1 + terms2, |variables|);
  }

  /** Two variables and term 4: the bounds check names {4} and the count 2. */
  lemma TermFourNeedsThreeVariables()
    ensures Validation(["A", "B"], {4}, {}) == Err(TermOutOfBounds({4}, 2))
  {
    var vs := ["A", "B"];
    NamesAB(vs);
    assert Pow2(2) == 4;
    var both: set<Term> := {4} + {};
    assert OutOfBounds(both, 2) == {4};
  }

  lemma NamesAB(vs: seq<string>)
    requires vs == ["A", "B"]
    ensures !exists k :: 0 <= k < |vs| && InvalidName(vs[k])
    ensures DuplicateNames(vs) == {}
  {
    forall k | 0 <= k < |vs|
      ensures !InvalidName(vs[k])
    {
      LetterNameValid(vs[k]);
    }
    DistinctAB(vs);
  }

  lemma DistinctAB(vs: seq<string>)
    requires vs == ["A", "B"]
    ensures DuplicateNames(vs) == {}
  {
    assert vs[0] != vs[1];
  }

  lemma LetterNameValid(v: string)
    requires v == "A" || v == "B"
    ensures !InvalidName(v)
  {
    assert !BreaksNamingRule(v);
  }
}
