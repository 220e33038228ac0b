/** The length filter of the duplicate finder, with the constant and the product in double precision. */
module LengthFilter {
  import opened Doubles

  /** (2 - 0.85) / 0.85 as a double, times 2^52; it is 11/17 of a unit below 23/17. */
  const MAX_LENGTH_RATIO: nat := 6093105378207141

  /** The longer length against the shorter one times the ratio. */
  predicate LengthCouldMatch(a: nat, b: nat) {
    if a == 0 || b == 0 then a == b
    else if a <= b then b * TWO_52 <= Rounded(a * MAX_LENGTH_RATIO)
    else a * TWO_52 <= Rounded(b * MAX_LENGTH_RATIO)
  }

  /** Of the lengths 17 k and 23 k the product is rounded up to 23 k, so that the filter lets them pass. */
  ghost predicate RoundedUp(k: nat) {
    exists e: nat :: 22 * k < Pow2(e) <= 23 * k
  }

  lemma PowersOfTwo()
    ensures Pow2(48) == TWO_48 && Pow2(52) == TWO_52
  {
    assert Pow2(8) == 0x100;
    assert Pow2(16) == 0x1_0000;
    assert Pow2(24) == 0x100_0000;
    assert Pow2(32) == 0x1_0000_0000;
    assert Pow2(40) == 0x100_0000_0000;
    assert Pow2(48) == TWO_48;
  }

  /** The product is close to 23/17 of the length, and whole numbers are multiples of its unit. */
  lemma Product(s: nat, l: nat) returns (c: nat)
    requires 0 < s <= l < TWO_48
    ensures var n := s * MAX_LENGTH_RATIO;
      && 17 * n == 23 * s * TWO_52 - 11 * s
      && l * TWO_52 == c * Unit(n) && Unit(n) <= TWO_48
  {
    var n := s * MAX_LENGTH_RATIO;
    PowersOfTwo();
    assert n < TWO_48 * TWO_53;
    var d := UnitDivides(n, 48);
    AtMost(1, if d > 0 then d else 1, Unit(n));
    var e := UnitDivides(n, 52);
    c := l * e;
    Regrouped(l, e, Unit(n));
  }

  lemma Regrouped(l: nat, e: nat, u: nat)
    ensures l * (e * u) == l * e * u
  {
  }

  /** On the bound: whether half a unit of the product exceeds what is missing to 23 k. */
  lemma OnTheBound(k: nat, u: nat, e: nat)
    requires k > 0 && 23 * k < TWO_48 && u == Pow2(e)
    requires u * TWO_52 <= 17 * k * MAX_LENGTH_RATIO < u * TWO_53
    ensures 22 * k != u && (22 * k < u <==> RoundedUp(k))
  {
    assert 17 * k * MAX_LENGTH_RATIO == 23 * k * TWO_52 - 11 * k;
    assert u < 23 * k <= 2 * u;
    NotMultiple(e, 2 * k);
    if RoundedUp(k) {
      var d: nat :| 22 * k < Pow2(d) <= 23 * k;
      if e < d {
        PowersApart(e, d);
        NotMultiple(d, k);
      } else if d < e {
        PowersApart(d, e);
      }
    }
  }

  /** How a length compares with the product before it is rounded. */
  lemma BesideTheBound(s: nat, l: nat, n: nat, t: nat, u: nat)
    requires 0 < s <= l < TWO_48 && t == l * TWO_52 && 17 * n == 23 * s * TWO_52 - 11 * s && u <= TWO_48
    ensures 17 * l < 23 * s ==> t <= n
    ensures 17 * l > 23 * s ==> t > n && 2 * (t - n) > u
    ensures 17 * l == 23 * s ==> t > n && 17 * (t - n) == 11 * s
  {
  }

  /** The comparison of the filter, up to half a unit. */
  lemma Compared(s: nat, l: nat) returns (u: nat, e: nat)
    requires 0 < s <= l < TWO_48
    ensures u == Pow2(e) && u <= TWO_48
    ensures (u == 1 || u * TWO_52 <= s * MAX_LENGTH_RATIO) && s * MAX_LENGTH_RATIO < u * TWO_53
    ensures var n, t := s * MAX_LENGTH_RATIO, l * TWO_52;
      && (LengthCouldMatch(s, l) ==> t <= n || 2 * (t - n) <= u)
      && (t <= n || 2 * (t - n) < u ==> LengthCouldMatch(s, l))
  {
    var n := s * MAX_LENGTH_RATIO;
    u := Unit(n);
    e := UnitIsPower(n);
    var c := Product(s, l);
    AtMostRounded(n, l * TWO_52, c);
  }

  /** For texts of less than 2^48 characters the filter lets a pair of lengths pass exactly when the longer
      is below 23/17 of the shorter, or equal to it and the product happens to be rounded up. */
  lemma LengthCouldMatchIff(s: nat, l: nat)
    requires 0 < s <= l < TWO_48
    ensures LengthCouldMatch(s, l) <==> 17 * l < 23 * s || (17 * l == 23 * s && RoundedUp(l / 23))
  {
    var u, e := Compared(s, l);
    Passes(s, l, u, e, LengthCouldMatch(s, l));
  }

  lemma Passes(s: nat, l: nat, u: nat, e: nat, passes: bool)
    requires 0 < s <= l < TWO_48 && u == Pow2(e) && u <= TWO_48
    requires (u == 1 || u * TWO_52 <= s * MAX_LENGTH_RATIO) && s * MAX_LENGTH_RATIO < u * TWO_53
    requires var n, t := s * MAX_LENGTH_RATIO, l * TWO_52;
      && (passes ==> t <= n || 2 * (t - n) <= u)
      && (t <= n || 2 * (t - n) < u ==> passes)
    ensures passes <==> 17 * l < 23 * s || (17 * l == 23 * s && RoundedUp(l / 23))
  {
    BesideTheBound(s, l, s * MAX_LENGTH_RATIO, l * TWO_52, u);
    if 17 * l == 23 * s {
      var k := l / 23;
      Multiple(s, l, k);
      OnTheBound(k, u, e);
    }
  }

  lemma Multiple(s: nat, l: nat, k: nat)
    requires 0 < s && 17 * l == 23 * s && k == l / 23
    ensures s == 17 * k && l == 23 * k && k > 0
  {
  }

  lemma FilterIsSymmetric(a: nat, b: nat)
    ensures LengthCouldMatch(a, b) == LengthCouldMatch(b, a)
  {
  }

  /** Equal lengths pass, whatever they are. */
  lemma EqualLengthsMatch(n: nat)
    ensures LengthCouldMatch(n, n)
  {
    if n > 0 {
      var p := n * MAX_LENGTH_RATIO;
      Divided(p, Unit(p));
      assert Rounded(p) + Unit(p) >= p;
    }
  }

  lemma NoneFrom17To31(e: nat)
    ensures Pow2(e) <= 16 || Pow2(e) >= 32
  {
    assert Pow2(4) == 16 && Pow2(5) == 32;
    if e < 4 {
      PowersApart(e, 4);
    } else if e > 5 {
      PowersApart(5, e);
    }
  }

  /** 17 and 23 are on the bound and are dropped; 391 and 529 are on it too and pass. */
  lemma SomeLengthsOnTheBound()
    ensures !LengthCouldMatch(17, 23) && LengthCouldMatch(391, 529)
  {
    LengthCouldMatchIff(17, 23);
    forall e: nat
      ensures !(22 < Pow2(e) <= 23)
    {
      NoneFrom17To31(e);
    }
    LengthCouldMatchIff(391, 529);
    assert Pow2(9) == 512;
  }
}
