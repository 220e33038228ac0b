/** As much of double precision as the length filter and the scores depend on. */
module Doubles {

  function Pow2(e: nat): (p: nat)
    ensures p > 0
  {
    if e == 0 then 1 else 2 * Pow2(e - 1)
  }

  const TWO_48: nat := 0x1_0000_0000_0000
  const TWO_52: nat := 0x10_0000_0000_0000
  const TWO_53: nat := 0x20_0000_0000_0000

  /** The distance of the numbers with 53 significant bits around n. */
  function Unit(n: nat): (u: nat)
    ensures u > 0 && n < u * TWO_53 && (u > 1 ==> u * TWO_52 <= n)
  {
    if n < TWO_53 then 1 else 2 * Unit(n / 2)
  }

  /** n to 53 significant bits: the nearest such number, ties to the even one. */
  function Rounded(n: nat): nat {
    var u := Unit(n);
    var q, r := n / u, n % u;
    if 2 * r < u || (2 * r == u && q % 2 == 0) then q * u else q * u + u
  }

  // ---------- powers of two ----------

  lemma {:induction false} UnitIsPower(n: nat) returns (e: nat)
    ensures Unit(n) == Pow2(e)
  {
    e := 0;
    if n >= TWO_53 {
      var d := UnitIsPower(n / 2);
      e := d + 1;
    }
  }

  /** Powers of two apart are apart by a factor of two at least. */
  lemma {:induction false} PowersApart(d: nat, e: nat)
    requires d < e
    ensures 2 * Pow2(d) <= Pow2(e)
  {
    if d < e - 1 {
      PowersApart(d, e - 1);
    }
  }

  /** No power of two is a multiple of 11 or of 23. */
  lemma {:induction false} NotMultiple(e: nat, k: int)
    ensures Pow2(e) != 11 * k && Pow2(e) != 23 * k
  {
    if e > 0 {
      NotMultiple(e - 1, k / 2);
    }
  }

  /** The unit of a number below 2^(53 + e) divides 2^e. */
  lemma {:induction false} UnitDivides(n: nat, e: nat) returns (c: nat)
    requires n < Pow2(e) * TWO_53
    ensures Pow2(e) == c * Unit(n)
  {
    if n < TWO_53 {
      c := Pow2(e);
    } else {
      c := UnitDivides(n / 2, e - 1);
    }
  }

  // ---------- comparing with a rounded number ----------

  lemma AtMost(a: nat, b: nat, u: nat)
    requires a <= b
    ensures a * u <= b * u
  {
  }

  lemma Successor(q: nat, u: nat)
    ensures (q + 1) * u == q * u + u
  {
  }

  lemma Divided(n: nat, u: nat)
    requires u > 0
    ensures n == n / u * u + n % u && n % u < u
  {
  }

  /** Where c units lie, seen from q units and a rest. */
  lemma Located(t: nat, c: nat, q: nat, u: nat)
    requires u > 0 && t == c * u
    ensures c <= q ==> t <= q * u
    ensures c == q + 1 ==> t == q * u + u
    ensures c >= q + 2 ==> t >= q * u + 2 * u
  {
    Successor(q, u);
    Successor(q + 1, u);
    if c <= q {
      AtMost(c, q, u);
    } else if c >= q + 2 {
      AtMost(q + 2, c, u);
    }
  }

  /** The same comparison, with the multiple of the unit given by its value p. */
  lemma AtMostNearest(n: nat, t: nat, c: nat, q: nat, p: nat, r: nat, u: nat, rounded: nat)
    requires u > 0 && r < u && n == p + r
    requires c <= q ==> t <= p
    requires c == q + 1 ==> t == p + u
    requires c >= q + 2 ==> t >= p + 2 * u
    requires rounded == if 2 * r < u || (2 * r == u && q % 2 == 0) then p else p + u
    ensures t <= rounded <==> t <= n || 2 * (t - n) < u || (2 * (t - n) == u && c % 2 == 0)
  {
  }

  /** A multiple of the unit is at most the rounded number exactly when it is at most the number, or
      above it by less than half a unit, or by half a unit and even. */
  lemma AtMostRounded(n: nat, t: nat, c: nat)
    requires t == c * Unit(n)
    ensures t <= Rounded(n) <==> t <= n || 2 * (t - n) < Unit(n) || (2 * (t - n) == Unit(n) && c % 2 == 0)
  {
    var u := Unit(n);
    Divided(n, u);
    Located(t, c, n / u, u);
    AtMostNearest(n, t, c, n / u, n / u * u, n % u, u, Rounded(n));
  }

  // ---------- quotients ----------

  const HALF_UNIT: real := 1.0 / TWO_53 as real

  /** Rounding to the nearest double moves a number from 0 to 1 by at most 2^-53 of itself. */
  ghost predicate RoundsToDouble(f: real -> real) {
    forall x :: 0.0 <= x <= 1.0 ==> -x * HALF_UNIT <= f(x) - x <= x * HALF_UNIT
  }

  lemma FractionsDiffer(a: nat, b: nat, c: nat, d: nat)
    requires b > 0 && d > 0 && a * d < c * b
    ensures c as real / d as real - a as real / b as real >= 1.0 / (b * d) as real
  {
    var x, y, z := a as real / b as real, c as real / d as real, (b * d) as real;
    assert x * z == (a * d) as real && y * z == (c * b) as real;
    assert (y - x) * z >= 1.0;
    AtLeastOneOver(y - x, z);
  }

  lemma AtLeastOneOver(x: real, z: real)
    requires z > 0.0 && x * z >= 1.0
    ensures x >= 1.0 / z
  {
  }

  /** Scores of texts and option sets that are not too long compare as doubles as they do exactly: of two
      fractions from 0 to 1 the smaller one also has the smaller double. */
  lemma FractionsKeepTheirOrder(f: real -> real, a: nat, b: nat, c: nat, d: nat)
    requires RoundsToDouble(f) && a <= b && c <= d && 0 < b * d <= TWO_48 && a * d < c * b
    ensures f(a as real / b as real) < f(c as real / d as real)
  {
    var x, y := a as real / b as real, c as real / d as real;
    FractionsDiffer(a, b, c, d);
    AtMostOne(a, b);
    AtMostOne(c, d);
    Reciprocals((b * d) as real, TWO_48 as real);
    StillBelow(x, y, f(x), f(y));
  }

  lemma StillBelow(x: real, y: real, fx: real, fy: real)
    requires 0.0 <= x <= 1.0 && 0.0 <= y <= 1.0 && y - x >= 1.0 / TWO_48 as real
    requires fx - x <= x * HALF_UNIT && -y * HALF_UNIT <= fy - y
    ensures fx < fy
  {
  }

  lemma AtMostOne(a: nat, b: nat)
    requires a <= b && b > 0
    ensures 0.0 <= a as real / b as real <= 1.0
  {
  }

  lemma Reciprocals(x: real, y: real)
    requires 0.0 < x <= y
    ensures 1.0 / x >= 1.0 / y
  {
  }
}
