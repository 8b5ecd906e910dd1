/**
  Shared vocabulary of the minimiser: terms, expression forms, the public
  error taxonomy and the power-of-two bound that `1 << n` computes.
 */
module Types {

  /** `DEFAULT_VARIABLES.len()`: the largest number of variables accepted. */
  const MaxVariables: nat := 26

  /** The source's `u32`. */
  type u32 = x: int | 0 <= x < 0x1_0000_0000

  /** A term encodes one assignment of all variables; bit i is variable i. */
  type Term = u32

  /** Sum of products or product of sums. */
  datatype Form = SOP | POS

  /** The errors a caller can receive (`Error` in the source). */
  datatype Error =
    | InvalidVariableCount(count: nat)
    | InvalidVariable
    | DuplicateVariables(names: set<string>)
    | TermOutOfBounds(offendingTerms: set<Term>, variableCount: nat)
    | TermConflict(conflicts: set<Term>)
    | Timeout

  datatype Result<T> = Ok(value: T) | Err(error: Error)

  /** 2^n, the value of `1 << n` when it does not overflow. */
  function Pow2(n: nat): (r: nat)
    ensures r >= 1
    ensures n > 0 ==> r % 2 == 0
  {
    if n == 0 then 1 else 2 * Pow2(n - 1)
  }

  lemma {:induction false} Pow2Monotone(m: nat, n: nat)
    requires m <= n
    ensures Pow2(m) <= Pow2(n)
  {
    if m < n {
      Pow2Monotone(m, n - 1);
    }
  }

  lemma {:induction false} Pow2Add(a: nat, b: nat)
    ensures Pow2(a + b) == Pow2(a) * Pow2(b)
  {
    if b > 0 {
      calc {
        Pow2(a + b);
      ==  // a + b > 0
        2 * Pow2(a + b - 1);
      ==  { Pow2Add(a, b - 1); }
        2 * (Pow2(a) * Pow2(b - 1));
      ==
        Pow2(a) * (2 * Pow2(b - 1));
      ==
        Pow2(a) * Pow2(b);
      }
    }
  }

  /** The two powers the word-size bounds need: 2^26 and 2^31. */
  lemma Pow2Landmarks()
    ensures Pow2(26) == 0x400_0000
    ensures Pow2(31) == 0x8000_0000
  {
    assert Pow2(2) == 4;
    assert Pow2(3) == 8;
    assert Pow2(4) == 16 by { Pow2Add(2, 2); }
    assert Pow2(7) == 128 by { Pow2Add(4, 3); }
    assert Pow2(8) == 256 by { Pow2Add(4, 4); }
    assert Pow2(16) == 0x1_0000 by { Pow2Add(8, 8); }
    assert Pow2(24) == 0x100_0000 by { Pow2Add(16, 8); }
    assert Pow2(26) == 0x400_0000 by { Pow2Add(24, 2); }
    assert Pow2(31) == 0x8000_0000 by { Pow2Add(24, 7); }
  }

  /** With at most 26 variables `1u32 << n` cannot overflow: 2^n <= 2^26. */
  lemma ShiftFits(n: nat)
    requires n <= MaxVariables
    ensures Pow2(n) <= 0x400_0000 < 0x1_0000_0000
  {
    Pow2Monotone(n, MaxVariables);
    Pow2Landmarks();
  }

  /** Below 32 variables `1u32 << n` does not overflow. */
  lemma Pow2BelowWordSize(n: nat)
    requires n < 32
    ensures Pow2(n) < 0x1_0000_0000
  {
    Pow2Monotone(n, 31);
    Pow2Landmarks();
  }

  /** The set of terms `0..limit`, as `HashSet::from_iter(0..limit)` builds it. */
  function TermsBelow(limit: nat): (r: set<Term>)
    requires limit <= 0x1_0000_0000
    ensures |r| == limit
    ensures forall t: Term :: t in r <==> t < limit
  {
    if limit == 0 then {}
    else
      var prev := TermsBelow(limit - 1);
      assert (limit - 1) !in prev;
      prev + {(limit - 1) as Term}
  }
}
