/** Ceiling division of U68F60 fixed-point numbers in both forms that
    `audit-report/poc/C-1-div_ceil_off_by_one.rs` compares. */
module FixedPoint {
  import opened Common

  const TWO_60: int := 0x1000_0000_0000_0000
  const TWO_68: int := 0x10_0000_0000_0000_0000
  const TWO_128: int := 0x1_0000_0000_0000_0000_0000_0000_0000_0000

  type u128 = x: nat | x < TWO_128

  datatype Panic = DivideByZero | Overflow

  /** `num << 60` on u128: bits shifted out are lost without a panic. */
  function Shifted(num: u128): (r: u128) { num * TWO_60 % TWO_128 }

  /** `((num << 60) + den - 1) / den`, with checked addition. */
  function DivCeilAdding(num: u128, den: u128): (r: Result<u128, Panic>) {
    if den == 0 then Err(DivideByZero)
    else if Shifted(num) + den >= TWO_128 then Err(Overflow)
    else
      DivWithin(Shifted(num) + den - 1, den);
      Ok((Shifted(num) + den - 1) / den)
  }

  /** `((num << 60) - 1) / den + 1`, with checked subtraction. */
  function DivCeilSubtracting(num: u128, den: u128): (r: Result<u128, Panic>) {
    if den == 0 then Err(DivideByZero)
    else if Shifted(num) == 0 then Err(Overflow)
    else
      DivWithin(Shifted(num) - 1, den);
      Ok((Shifted(num) - 1) / den + 1)
  }

  lemma {:induction false} DivMod(x: nat, d: nat)
    requires d > 0
    ensures x == d * (x / d) + x % d && 0 <= x % d < d && 0 <= x / d
  {
  }

  lemma {:induction false} QuotientBounds(x: nat, d: nat, q: nat, r: nat)
    requires x == d * q + r && 0 <= r < d
    ensures q * d <= x < q * d + d && q <= x
  {
    MulMonotone(1, d, q);
  }

  lemma {:induction false} DivWithin(x: nat, d: nat)
    requires d > 0
    ensures x / d * d <= x < x / d * d + d && 0 <= x / d <= x
  {
    DivMod(x, d);
    QuotientBounds(x, d, x / d, x % d);
  }

  /** `q` is the least number with q times the denominator at least x. */
  ghost predicate LeastCovering(q: int, x: nat, den: nat) {
    q * den >= x && forall p: nat :: p * den >= x ==> q <= p
  }

  lemma {:induction false} LeastByBounds(q: nat, x: nat, den: nat)
    requires den > 0 && x <= q * den && (q - 1) * den < x
    ensures LeastCovering(q, x, den)
  {
    forall p: nat | p * den >= x
      ensures q <= p
    {
      if p <= q - 1 {
        MulMonotone(p, q - 1, den);
      }
    }
  }

  lemma {:induction false} MulMonotone(a: int, b: int, c: nat)
    requires a <= b
    ensures a * c <= b * c
  {
  }

  /** What each form returns covers the shifted numerator, and no smaller number does. */
  lemma {:induction false} FormsAreCeilings(num: u128, den: u128)
    ensures DivCeilAdding(num, den).Ok? ==> LeastCovering(DivCeilAdding(num, den).value, Shifted(num), den)
    ensures DivCeilSubtracting(num, den).Ok? ==> LeastCovering(DivCeilSubtracting(num, den).value, Shifted(num), den)
  {
    if DivCeilAdding(num, den).Ok? {
      AddingCovers(Shifted(num), den);
    }
    if DivCeilSubtracting(num, den).Ok? {
      SubtractingCovers(Shifted(num), den);
    }
  }

  lemma {:induction false} AddingCovers(x: nat, den: nat)
    requires den > 0
    ensures LeastCovering((x + den - 1) / den, x, den)
  {
    DivWithin(x + den - 1, den);
    var q := (x + den - 1) / den;
    Distribute(q, den);
    LeastByBounds(q, x, den);
  }

  lemma {:induction false} SubtractingCovers(x: nat, den: nat)
    requires den > 0 && x > 0
    ensures LeastCovering((x - 1) / den + 1, x, den)
  {
    DivWithin(x - 1, den);
    var q := (x - 1) / den;
    Distribute(q + 1, den);
    LeastByBounds(q + 1, x, den);
  }

  lemma {:induction false} Distribute(q: nat, den: nat)
    ensures (q - 1) * den == q * den - den
  {
  }

  /** The two forms agree on every input on which both are defined; the file's claim that the first is
      one too large on exact ratios does not hold of its code. */
  lemma {:induction false} FormsAgree(num: u128, den: u128)
    requires DivCeilAdding(num, den).Ok? && DivCeilSubtracting(num, den).Ok?
    ensures DivCeilAdding(num, den) == DivCeilSubtracting(num, den)
  {
    FormsAreCeilings(num, den);
  }

  /** Where each is defined: only the first at a zero shifted numerator, only the second when the sum
      leaves u128. */
  lemma {:induction false} FormsDefinedIff(num: u128, den: u128)
    ensures DivCeilAdding(num, den).Ok? <==> den != 0 && Shifted(num) + den < TWO_128
    ensures DivCeilSubtracting(num, den).Ok? <==> den != 0 && num % TWO_68 != 0
    ensures DivCeilAdding(num, den) == Err(DivideByZero) <==> den == 0
    ensures DivCeilSubtracting(num, den) == Err(DivideByZero) <==> den == 0
  {
    var q, r := num / TWO_68, num % TWO_68;
    assert num * TWO_60 == q * TWO_128 + r * TWO_60;
    assert 0 <= r * TWO_60 < TWO_128;
    ModIsRemainder(num * TWO_60, q, r * TWO_60);
  }

  lemma {:induction false} ModIsRemainder(x: nat, q: nat, r: nat)
    requires x == q * TWO_128 + r && r < TWO_128
    ensures x % TWO_128 == r
  {
  }

  /** Each form is the ceiling of the real quotient exactly when the shift loses no bit, that is, when
      the numerator is below 2^68. */
  lemma {:induction false} CeilingOfQuotientIff(num: u128, den: u128, q: u128)
    requires DivCeilAdding(num, den) == Ok(q) || DivCeilSubtracting(num, den) == Ok(q)
    ensures LeastCovering(q, num * TWO_60, den) <==> num < TWO_68
  {
    FormsAreCeilings(num, den);
    if num < TWO_68 {
      assert Shifted(num) == num * TWO_60;
    } else {
      var x := Shifted(num);
      LostBits(num);
      if q > 0 {
        assert (q - 1) * den < x;
        assert q * den == (q - 1) * den + den;
      }
      assert q * den < num * TWO_60;
    }
  }

  lemma {:induction false} LostBits(num: u128)
    requires num >= TWO_68
    ensures Shifted(num) + TWO_128 <= num * TWO_60
  {
    var x := num * TWO_60;
    assert x == x / TWO_128 * TWO_128 + x % TWO_128;
    assert x >= TWO_128;
  }
}
