/** Where the constants of SHA-256 come from: sections 4.2.2 and 5.3.3 of FIPS 180-4 define them as the
    leading fractional bits of roots of the first 64 primes. */
module Sha256Constants {
  import opened Sha256Spec

  // ----- The first 64 primes -----

  ghost predicate IsPrime(n: nat) { n >= 2 && forall d :: 2 <= d < n ==> n % d != 0 }

  /** No prime below 19 divides `n`, unless it is `n`. */
  predicate Sieved(n: nat) {
    && (n % 2 != 0 || n == 2) && (n % 3 != 0 || n == 3) && (n % 5 != 0 || n == 5) && (n % 7 != 0 || n == 7)
    && (n % 11 != 0 || n == 11) && (n % 13 != 0 || n == 13) && (n % 17 != 0 || n == 17)
  }

  const SIEVE: set<nat> := {2, 3, 5, 7, 11, 13, 17}

  lemma {:induction false} FactorOfFactor(n: nat, d: nat, q: nat, f: nat)
    requires n == d * q && f in SIEVE && q % f == 0
    ensures n % f == 0
  {
    var k := q / f;
    assert d * (f * k) == f * (d * k);
    MultipleHasNoRest(f, d * k);
  }

  lemma {:induction false} MultipleHasNoRest(f: nat, k: nat)
    requires f in SIEVE
    ensures (f * k) % f == 0
  {
    assert (2 * k) % 2 == 0 && (3 * k) % 3 == 0 && (5 * k) % 5 == 0 && (7 * k) % 7 == 0;
    assert (11 * k) % 11 == 0 && (13 * k) % 13 == 0 && (17 * k) % 17 == 0;
  }

  /** Every number from 2 to 18 has one of the seven factors. */
  lemma {:induction false} SmallFactor(q: nat) returns (f: nat)
    requires 2 <= q < 19
    ensures f in SIEVE && q % f == 0
  {
    f := if q % 2 == 0 then 2 else if q % 3 == 0 then 3 else if q % 5 == 0 then 5 else q;
  }

  lemma {:induction false} Cofactor(n: nat, d: nat) returns (q: nat)
    requires 2 <= d < n && n % d == 0
    ensures n == d * q && 2 <= q < n
    ensures d >= 19 && n < 361 ==> q < 19
  {
    q := n / d;
    assert d * 1 == d;
    if d >= 19 && q >= 19 {
      ProductGrows(19, d, 19, q);
    }
    ProductGrows(2, d, q, q);
  }

  lemma {:induction false} ProductGrows(a: nat, b: nat, c: nat, d: nat)
    requires a <= b && c <= d
    ensures a * c <= b * d
  {
  }

  /** Below 361 the seven factors decide primality. */
  lemma {:induction false} SieveDecides(n: nat)
    requires 2 <= n < 361
    ensures Sieved(n) <==> IsPrime(n)
  {
    if Sieved(n) {
      forall d | 2 <= d < n
        ensures n % d != 0
      {
        if n % d == 0 {
          var q := Cofactor(n, d);
          var small := if d < 19 then d else q;
          var f := SmallFactor(small);
          assert n == (if d < 19 then q else d) * small;
          FactorOfFactor(n, if d < 19 then q else d, small, f);
        }
      }
    }
  }

  /** In rows of eight, as the table of round constants. */
  function PrimeRow(r: nat): (row: seq<nat>)
    requires r < 8
    ensures |row| == 8
  {
    if r == 0 then [2, 3, 5, 7, 11, 13, 17, 19]
    else if r == 1 then [23, 29, 31, 37, 41, 43, 47, 53]
    else if r == 2 then [59, 61, 67, 71, 73, 79, 83, 89]
    else if r == 3 then [97, 101, 103, 107, 109, 113, 127, 131]
    else if r == 4 then [137, 139, 149, 151, 157, 163, 167, 173]
    else if r == 5 then [179, 181, 191, 193, 197, 199, 211, 223]
    else if r == 6 then [227, 229, 233, 239, 241, 251, 257, 263]
    else [269, 271, 277, 281, 283, 293, 307, 311]
  }

  lemma {:induction false} Sieve2To19(n: nat)
    requires 2 <= n < 20
    ensures Sieved(n) <==> n in [2, 3, 5, 7, 11, 13, 17, 19]
  {
  }

  lemma {:induction false} Sieve20To53(n: nat)
    requires 20 <= n < 54
    ensures Sieved(n) <==> n in [23, 29, 31, 37, 41, 43, 47, 53]
  {
  }

  lemma {:induction false} Sieve54To71(n: nat)
    requires 54 <= n < 72
    ensures Sieved(n) <==> n in [59, 61, 67, 71]
  {
  }

  lemma {:induction false} Sieve72To89(n: nat)
    requires 72 <= n < 90
    ensures Sieved(n) <==> n in [73, 79, 83, 89]
  {
  }

  lemma {:induction false} Sieve90To111(n: nat)
    requires 90 <= n < 112
    ensures Sieved(n) <==> n in [97, 101, 103, 107, 109]
  {
  }

  lemma {:induction false} Sieve112To131(n: nat)
    requires 112 <= n < 132
    ensures Sieved(n) <==> n in [113, 127, 131]
  {
  }

  lemma {:induction false} Sieve132To151(n: nat)
    requires 132 <= n < 152
    ensures Sieved(n) <==> n in [137, 139, 149, 151]
  {
  }

  lemma {:induction false} Sieve152To173(n: nat)
    requires 152 <= n < 174
    ensures Sieved(n) <==> n in [157, 163, 167, 173]
  {
  }

  lemma {:induction false} Sieve174To197(n: nat)
    requires 174 <= n < 198
    ensures Sieved(n) <==> n in [179, 181, 191, 193, 197]
  {
  }

  lemma {:induction false} Sieve198To223(n: nat)
    requires 198 <= n < 224
    ensures Sieved(n) <==> n in [199, 211, 223]
  {
  }

  lemma {:induction false} Sieve224To242(n: nat)
    requires 224 <= n < 243
    ensures Sieved(n) <==> n in [227, 229, 233, 239, 241]
  {
  }

  lemma {:induction false} Sieve243To263(n: nat)
    requires 243 <= n < 264
    ensures Sieved(n) <==> n in [251, 257, 263]
  {
  }

  lemma {:induction false} Sieve264To287(n: nat)
    requires 264 <= n < 288
    ensures Sieved(n) <==> n in [269, 271, 277, 281, 283]
  {
  }

  lemma {:induction false} Sieve288To311(n: nat)
    requires 288 <= n < 312
    ensures Sieved(n) <==> n in [293, 307, 311]
  {
  }

  /** Where row `r` begins; the last row ends before 312. */
  function RowStart(r: nat): (low: nat)
    requires r <= 8
  {
    if r == 0 then 2 else if r == 1 then 20 else if r == 2 then 54 else if r == 3 then 90 else if r == 4 then 132
    else if r == 5 then 174 else if r == 6 then 224 else if r == 7 then 264 else 312
  }

  /** Row by row, the table holds exactly the primes below 312: eight times eight of them. */
  lemma {:induction false} RowsHoldThePrimes(r: nat, n: nat)
    requires r < 8 && RowStart(r) <= n < RowStart(r + 1)
    ensures IsPrime(n) <==> n in PrimeRow(r)
  {
    hide IsPrime, Sieved;
    SieveDecides(n);
    if n < 20 {
      Sieve2To19(n);
    } else if n < 54 {
      Sieve20To53(n);
    } else if n < 72 {
      Sieve54To71(n);
    } else if n < 90 {
      Sieve72To89(n);
    } else if n < 112 {
      Sieve90To111(n);
    } else if n < 132 {
      Sieve112To131(n);
    } else if n < 152 {
      Sieve132To151(n);
    } else if n < 174 {
      Sieve152To173(n);
    } else if n < 198 {
      Sieve174To197(n);
    } else if n < 224 {
      Sieve198To223(n);
    } else if n < 243 {
      Sieve224To242(n);
    } else if n < 264 {
      Sieve243To263(n);
    } else if n < 288 {
      Sieve264To287(n);
    } else {
      Sieve288To311(n);
    }
  }

  // ----- The constants -----

  /** The whole part of the cube root of a number below 343. */
  function CubeWhole(p: nat): (whole: nat) {
    if p < 8 then 1 else if p < 27 then 2 else if p < 64 then 3 else if p < 125 then 4 else if p < 216 then 5 else 6
  }

  /** `k` is the first 32 fractional bits of the cube root of `p`. */
  ghost predicate CubeRootFraction(k: Word, p: nat) {
    var n := CubeWhole(p) * 0x1_0000_0000 + k as int;
    n * n * n <= p * 0x1_0000_0000_0000_0000_0000_0000 < (n + 1) * (n + 1) * (n + 1)
  }

  ghost predicate CubeRow(ks: seq<Word>, ps: seq<nat>) {
    && |ks| == |ps| == 8
    && CubeRootFraction(ks[0], ps[0]) && CubeRootFraction(ks[1], ps[1])
    && CubeRootFraction(ks[2], ps[2]) && CubeRootFraction(ks[3], ps[3])
    && CubeRootFraction(ks[4], ps[4]) && CubeRootFraction(ks[5], ps[5])
    && CubeRootFraction(ks[6], ps[6]) && CubeRootFraction(ks[7], ps[7])
  }

  lemma {:induction false} CubeRow0()
    ensures CubeRow(K0, PrimeRow(0))
  {
  }

  lemma {:induction false} CubeRow1()
    ensures CubeRow(K1, PrimeRow(1))
  {
  }

  lemma {:induction false} CubeRow2()
    ensures CubeRow(K2, PrimeRow(2))
  {
  }

  lemma {:induction false} CubeRow3()
    ensures CubeRow(K3, PrimeRow(3))
  {
  }

  lemma {:induction false} CubeRow4()
    ensures CubeRow(K4, PrimeRow(4))
  {
  }

  lemma {:induction false} CubeRow5()
    ensures CubeRow(K5, PrimeRow(5))
  {
  }

  lemma {:induction false} CubeRow6()
    ensures CubeRow(K6, PrimeRow(6))
  {
  }

  lemma {:induction false} CubeRow7()
    ensures CubeRow(K7, PrimeRow(7))
  {
  }

  /** Every round constant is the fraction of the cube root of its prime. */
  lemma {:induction false} RoundConstantsAreCubeRoots(t: nat)
    requires t < 64
    ensures CubeRootFraction(K(t), PrimeRow(t / 8)[t % 8])
  {
    hide CubeRootFraction, PrimeRow;
    CubeRow0();
    CubeRow1();
    CubeRow2();
    CubeRow3();
    CubeRow4();
    CubeRow5();
    CubeRow6();
    CubeRow7();
  }

  /** The whole part of the square root of a number below 25. */
  function SquareWhole(p: nat): (whole: nat) {
    if p < 4 then 1 else if p < 9 then 2 else if p < 16 then 3 else 4
  }

  /** `h` is the first 32 fractional bits of the square root of `p`. */
  ghost predicate SquareRootFraction(h: Word, p: nat) {
    var n := SquareWhole(p) * 0x1_0000_0000 + h as int;
    n * n <= p * 0x1_0000_0000_0000_0000 < (n + 1) * (n + 1)
  }

  /** Every word of the initial hash value is the fraction of the square root of its prime. */
  lemma {:induction false} InitialHashIsSquareRoots(i: nat)
    requires i < 8
    ensures SquareRootFraction(H0[i], PrimeRow(0)[i])
  {
    hide SquareRootFraction;
    SquareRow();
  }

  lemma {:induction false} SquareRow()
    ensures var ps := PrimeRow(0);
      && SquareRootFraction(H0[0], ps[0]) && SquareRootFraction(H0[1], ps[1])
      && SquareRootFraction(H0[2], ps[2]) && SquareRootFraction(H0[3], ps[3])
      && SquareRootFraction(H0[4], ps[4]) && SquareRootFraction(H0[5], ps[5])
      && SquareRootFraction(H0[6], ps[6]) && SquareRootFraction(H0[7], ps[7])
  {
  }
}
