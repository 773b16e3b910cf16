/** Vocabulary shared by the components: optional values, JavaScript arithmetic on exact
    reals, and decimal digits. */
module Basics {

  datatype Option<+T> = None | Some(value: T)

  function Max(x: real, y: real): real { if x < y then y else x }

  function Min(x: real, y: real): real { if x < y then x else y }

  function Abs(x: real): real { if x < 0.0 then -x else x }

  /** `Math.max(lo, Math.min(hi, x))`. */
  function Clamp(lo: real, hi: real, x: real): real { Max(lo, Min(hi, x)) }

  /** `Math.round`: halves go up. */
  function Round(x: real): int { (x + 0.5).Floor }

  lemma RoundMonotone(x: real, y: real)
    requires x <= y
    ensures Round(x) <= Round(y)
  {}

  /** The nearest whole number, and of two the greater. */
  lemma RoundIsNearest(x: real)
    ensures Round(x) as real - 0.5 <= x < Round(x) as real + 0.5
  {}

  // ---- decimal digits, most significant first

  function Digits(n: nat): seq<int>
  {
    if n < 10 then [n] else Digits(n / 10) + [n % 10]
  }

  function DigitsValue(ds: seq<int>): int
  {
    if ds == [] then 0 else 10 * DigitsValue(ds[..|ds| - 1]) + ds[|ds| - 1]
  }

  lemma {:induction false} DigitsRoundTrip(n: nat)
    ensures DigitsValue(Digits(n)) == n
    ensures Digits(n) != [] && forall i | 0 <= i < |Digits(n)| :: 0 <= Digits(n)[i] < 10
  {
    if n < 10 {
      assert [n][..0] == [];
    } else {
      DigitsRoundTrip(n / 10);
      assert (Digits(n / 10) + [n % 10])[..|Digits(n / 10)|] == Digits(n / 10);
    }
  }
}
