/** Public ids and slugs (academics/models.py): numbers are written out in decimal, so the questions
    are when two different allocations can spell the same string, and whether the search ends. */
module Allocators {
  import opened Wrappers

  // ---------- decimal numbers ----------

  predicate IsDigit(c: char) {
    '0' <= c <= '9'
  }

  predicate Digits(s: string) {
    forall i :: 0 <= i < |s| ==> IsDigit(s[i])
  }

  function Digit(d: nat): char
    requires d < 10
  {
    '0' + d as char
  }

  function Decimal(n: nat): (s: string)
    ensures s != [] && Digits(s) && (s[0] == '0' ==> n == 0 && s == "0")
  {
    if n < 10 then [Digit(n)] else Decimal(n / 10) + [Digit(n % 10)]
  }

  function Value(s: string): nat
    requires Digits(s)
  {
    if s == [] then 0 else 10 * Value(s[..|s| - 1]) + (s[|s| - 1] - '0') as nat
  }

  lemma {:induction false} ValueOfDecimal(n: nat)
    ensures Value(Decimal(n)) == n
  {
    if n >= 10 {
      ValueOfDecimal(n / 10);
      var s := Decimal(n);
      assert s[..|s| - 1] == Decimal(n / 10);
    }
  }

  lemma {:induction false} ValuePositive(s: string)
    requires Digits(s) && s != [] && s[0] != '0'
    ensures Value(s) > 0
  {
    if |s| > 1 {
      ValuePositive(s[..|s| - 1]);
    }
  }

  lemma {:induction false} DecimalOfValue(s: string)
    requires Digits(s) && s != [] && s[0] != '0'
    ensures Decimal(Value(s)) == s
  {
    var n := |s| - 1;
    if n > 0 {
      ValuePositive(s[..n]);
      DecimalOfValue(s[..n]);
      assert Value(s) / 10 == Value(s[..n]) && Value(s) % 10 == (s[n] - '0') as nat;
      assert s == s[..n] + [s[n]];
    }
  }

  // ---------- public ids ----------

  function Zeros(k: nat): (s: string)
    ensures |s| == k && Digits(s)
  {
    if k == 0 then "" else Zeros(k - 1) + "0"
  }

  /** At least four digits, padded with zeros on the left. */
  function Padded(n: nat): (s: string)
    ensures |s| >= 4 && Digits(s) && (|s| > 4 ==> s == Decimal(n))
  {
    var s := Decimal(n);
    if |s| < 4 then Zeros(4 - |s|) + s else s
  }

  lemma {:induction false} LeadingZeros(k: nat, s: string)
    requires Digits(s)
    ensures Digits(Zeros(k) + s) && Value(Zeros(k) + s) == Value(s)
  {
    if s == [] {
      assert Zeros(k) + s == Zeros(k);
      if k > 0 {
        LeadingZeros(k - 1, []);
        assert Zeros(k - 1) + [] == Zeros(k - 1);
        assert Zeros(k)[..k - 1] == Zeros(k - 1);
      }
    } else {
      var n := |s| - 1;
      LeadingZeros(k, s[..n]);
      assert (Zeros(k) + s)[..k + n] == Zeros(k) + s[..n];
    }
  }

  lemma ValueOfPadded(n: nat)
    ensures Value(Padded(n)) == n
  {
    ValueOfDecimal(n);
    LeadingZeros(if |Decimal(n)| < 4 then 4 - |Decimal(n)| else 0, Decimal(n));
    assert Zeros(0) + Decimal(n) == Decimal(n);
  }

  function PublicId(prefix: string, n: nat): string {
    prefix + Padded(n)
  }

  /** A public id is the prefix and the number, with zeros in front up to four digits and none beyond. */
  lemma PublicIdSpells(prefix: string, n: nat)
    ensures var id := PublicId(prefix, n); var number := id[|prefix|..];
      && id[..|prefix|] == prefix && |number| >= 4 && Digits(number) && Value(number) == n
      && (|number| > 4 ==> number[0] != '0')
  {
    var id := PublicId(prefix, n);
    assert id[..|prefix|] == prefix && id[|prefix|..] == Padded(n);
    ValueOfPadded(n);
  }

  /** q is p followed by a number without a leading zero. */
  ghost predicate ExtendsByNumber(p: string, q: string) {
    |p| < |q| && q[..|p|] == p && Digits(q[|p|..]) && q[|p|] != '0'
  }

  lemma SameLengthSharesNothing(p: string, n: nat, q: string, m: nat)
    requires |p| == |q| && PublicId(p, n) == PublicId(q, m)
    ensures p == q && n == m
  {
    assert PublicId(p, n)[..|p|] == p && PublicId(q, m)[..|q|] == q;
    assert PublicId(p, n)[|p|..] == Padded(n) && PublicId(q, m)[|q|..] == Padded(m);
    ValueOfPadded(n);
    ValueOfPadded(m);
  }

  lemma SharedIdExtends(p: string, n: nat, q: string, m: nat)
    requires |p| < |q| && PublicId(p, n) == PublicId(q, m)
    ensures ExtendsByNumber(p, q)
  {
    var k, id := |q| - |p|, PublicId(p, n);
    assert id[..|q|] == q && id[|p|..] == Padded(n) && |id| == |q| + |Padded(m)|;
    assert q[..|p|] == id[..|p|] == p;
    assert q[|p|..] == Padded(n)[..k];
    assert |Padded(n)| > 4;
    assert q[|p|] == Decimal(n)[0];
  }

  lemma PaddedOfValue(s: string)
    requires Digits(s) && |s| > 4 && s[0] != '0'
    ensures Padded(Value(s)) == s
  {
    DecimalOfValue(s);
  }

  lemma ExtensionSharesId(p: string, q: string, m: nat)
    requires ExtendsByNumber(p, q)
    ensures exists n :: PublicId(p, n) == PublicId(q, m)
  {
    hide Decimal, Value, Zeros;
    var t, d := q[|p|..], Padded(m);
    var s := t + d;
    assert s[0] == t[0] == q[|p|];
    PaddedOfValue(s);
    assert q + d == p + s by {
      assert q == p + t;
      assert (p + t) + d == p + (t + d);
    }
    assert PublicId(p, Value(s)) == PublicId(q, m);
  }

  /** Two different prefixes can ever spell the same public id exactly when one of them is the other
      followed by a number; then even every id of the longer one is an id of the shorter. */
  lemma PrefixesClashIff(p: string, q: string)
    requires p != q
    ensures (exists n, m :: PublicId(p, n) == PublicId(q, m)) <==> ExtendsByNumber(p, q) || ExtendsByNumber(q, p)
  {
    if n: nat, m: nat :| PublicId(p, n) == PublicId(q, m) {
      if |p| == |q| {
        SameLengthSharesNothing(p, n, q, m);
        assert false;
      } else if |p| < |q| {
        SharedIdExtends(p, n, q, m);
      } else {
        SharedIdExtends(q, m, p, n);
      }
    }
    if ExtendsByNumber(p, q) {
      ExtensionSharesId(p, q, 1);
      var n: nat :| PublicId(p, n) == PublicId(q, 1);
    } else if ExtendsByNumber(q, p) {
      ExtensionSharesId(q, p, 1);
      var n: nat :| PublicId(q, n) == PublicId(p, 1);
    }
  }

  predicate NoDigits(s: string) {
    forall i :: 0 <= i < |s| ==> !IsDigit(s[i])
  }

  lemma ExtensionHasDigit(p: string, q: string)
    requires ExtendsByNumber(p, q)
    ensures !NoDigits(q)
  {
    assert IsDigit(q[|p|..][0]);
    assert IsDigit(q[|p|]);
  }

  /** Under prefixes without digits, a public id determines its prefix and its number, also beyond
      four digits. */
  lemma PublicIdsAreUnique(p: string, n: nat, q: string, m: nat)
    requires NoDigits(p) && NoDigits(q) && PublicId(p, n) == PublicId(q, m)
    ensures p == q && n == m
  {
    if |p| == |q| {
      SameLengthSharesNothing(p, n, q, m);
    } else if |p| < |q| {
      SharedIdExtends(p, n, q, m);
      ExtensionHasDigit(p, q);
    } else {
      SharedIdExtends(q, m, p, n);
      ExtensionHasDigit(q, p);
    }
  }

  // ---------- numbers under the counter lock ----------

  /** A save that allocates an id: it waits, holds the counter row of its prefix with the value it
      sees, has incremented it, and has its number once it commits. */
  datatype Save =
    | Waiting(prefix: string)
    | Holding(prefix: string, seen: nat)
    | Incremented(prefix: string, seen: nat)
    | Committed(prefix: string, number: nat)

  datatype State = State(counters: map<string, nat>, saves: seq<Save>)

  datatype Step = Lock(save: nat) | Increment(save: nat) | Commit(save: nat) | Rollback(save: nat)

  function Counter(s: State, prefix: string): nat {
    if prefix in s.counters then s.counters[prefix] else 0
  }

  predicate Holds(save: Save, prefix: string) {
    (save.Holding? || save.Incremented?) && save.prefix == prefix
  }

  /** The row of a prefix, created if need be, is locked by at most one save until it commits. */
  function Apply(s: State, step: Step): State {
    if step.save >= |s.saves| then s
    else
      var i, save := step.save, s.saves[step.save];
      match step
      case Lock(_) =>
        if save.Waiting? && forall j :: 0 <= j < |s.saves| ==> !Holds(s.saves[j], save.prefix) then
          s.(saves := s.saves[i := Holding(save.prefix, Counter(s, save.prefix))])
        else s
      case Increment(_) =>
        if save.Holding? then s.(saves := s.saves[i := Incremented(save.prefix, save.seen + 1)]) else s
      case Commit(_) =>
        if save.Incremented? then
          State(s.counters[save.prefix := save.seen], s.saves[i := Committed(save.prefix, save.seen)])
        else s
      case Rollback(_) =>
        if save.Holding? || save.Incremented? then s.(saves := s.saves[i := Waiting(save.prefix)]) else s
  }

  function Run(s: State, steps: seq<Step>): State
    decreases |steps|
  {
    if steps == [] then s else Apply(Run(s, steps[..|steps| - 1]), steps[|steps| - 1])
  }

  predicate SaveFits(s: State, save: Save) {
    match save
    case Waiting(_) => true
    case Holding(p, seen) => seen == Counter(s, p)
    case Incremented(p, seen) => seen == Counter(s, p) + 1
    case Committed(p, number) => number <= Counter(s, p)
  }

  /** One holder per prefix, nobody behind the counter, and no number given twice. */
  ghost predicate Sound(s: State) {
    && (forall i :: 0 <= i < |s.saves| ==> SaveFits(s, s.saves[i]))
    && (forall i, j :: 0 <= i < j < |s.saves| ==>
          !((s.saves[i].Holding? || s.saves[i].Incremented?) && Holds(s.saves[j], s.saves[i].prefix)))
    && (forall i, j :: 0 <= i < j < |s.saves| && s.saves[i].Committed? && s.saves[j].Committed? ==>
          s.saves[i] != s.saves[j])
  }

  lemma ApplySound(s: State, step: Step)
    requires Sound(s)
    ensures Sound(Apply(s, step))
  {
    var t := Apply(s, step);
    if step.save < |s.saves| && step.Commit? && s.saves[step.save].Incremented? {
      var p := s.saves[step.save].prefix;
      assert SaveFits(s, s.saves[step.save]);
      forall i | 0 <= i < |t.saves|
        ensures SaveFits(t, t.saves[i])
      {
        assert SaveFits(s, s.saves[i]);
      }
      forall i | 0 <= i < |s.saves| && s.saves[i].Committed?
        ensures s.saves[i] != t.saves[step.save]
      {
        assert SaveFits(s, s.saves[i]);
      }
    }
  }

  /** However the saves interleave, commit and roll back, no two of them get the same public id, as
      long as the prefixes have no digits. */
  lemma {:induction false} ConcurrentIdsAreDistinct(s: State, steps: seq<Step>, i: nat, j: nat)
    requires forall k :: 0 <= k < |s.saves| ==> s.saves[k].Waiting?
    ensures Sound(Run(s, steps))
    ensures var t := Run(s, steps);
      i < j < |t.saves| && t.saves[i].Committed? && t.saves[j].Committed?
      && NoDigits(t.saves[i].prefix) && NoDigits(t.saves[j].prefix) ==>
        PublicId(t.saves[i].prefix, t.saves[i].number) != PublicId(t.saves[j].prefix, t.saves[j].number)
    decreases |steps|
  {
    if steps != [] {
      ConcurrentIdsAreDistinct(s, steps[..|steps| - 1], i, j);
      ApplySound(Run(s, steps[..|steps| - 1]), steps[|steps| - 1]);
    }
    var t := Run(s, steps);
    if i < j < |t.saves| && t.saves[i].Committed? && t.saves[j].Committed?
       && NoDigits(t.saves[i].prefix) && NoDigits(t.saves[j].prefix)
       && PublicId(t.saves[i].prefix, t.saves[i].number) == PublicId(t.saves[j].prefix, t.saves[j].number) {
      PublicIdsAreUnique(t.saves[i].prefix, t.saves[i].number, t.saves[j].prefix, t.saves[j].number);
      assert false;
    }
  }

  /** A save that finds its counter row free locks it, increments it and commits: its number is the next one,
      and only its counter has moved. */
  lemma SaveAlone(s: State, i: nat)
    requires i < |s.saves| && s.saves[i].Waiting? && forall j :: 0 <= j < |s.saves| ==> !Holds(s.saves[j], s.saves[i].prefix)
    ensures
      var p := s.saves[i].prefix;
      var t := Apply(Apply(Apply(s, Lock(i)), Increment(i)), Commit(i));
      var next := (if p in s.counters then s.counters[p] else 0) + 1;
      t == State(s.counters[p := next], s.saves[i := Committed(p, next)])
  {
    var p := s.saves[i].prefix;
    var s1 := Apply(s, Lock(i));
    assert s1.saves[i] == Holding(p, Counter(s, p));
    var s2 := Apply(s1, Increment(i));
    assert s2.saves[i] == Incremented(p, Counter(s, p) + 1);
    assert Apply(s2, Commit(i)).saves == s.saves[i := Committed(p, Counter(s, p) + 1)];
  }

  /** A save that is rolled back waits again; its counter stands as it did, and its row is free. */
  lemma RollbackGivesUp(s: State, i: nat)
    requires Sound(s) && i < |s.saves| && (s.saves[i].Holding? || s.saves[i].Incremented?)
    ensures
      var p, t := s.saves[i].prefix, Apply(s, Rollback(i));
      && t == State(s.counters, s.saves[i := Waiting(p)])
      && forall j :: 0 <= j < |t.saves| ==> !Holds(t.saves[j], p)
  {
  }

  // ---------- slugs ----------

  /** The candidates in order: the base, then the base with -2, -3 and so on. */
  function Candidate(base: string, suffix: nat): string {
    if suffix <= 1 then base else base + "-" + Decimal(suffix)
  }

  lemma CandidatesDiffer(base: string, a: nat, b: nat)
    requires 1 <= a < b
    ensures Candidate(base, a) != Candidate(base, b)
  {
    if a > 1 {
      var x, y := Candidate(base, a), Candidate(base, b);
      assert x[|base| + 1..] == Decimal(a) && y[|base| + 1..] == Decimal(b);
      ValueOfDecimal(a);
      ValueOfDecimal(b);
    }
  }

  lemma SubsetSize<T>(a: set<T>, b: set<T>)
    requires a <= b
    ensures |a| <= |b|
  {
    assert b == a + (b - a);
  }

  /** n written out in decimal, without leading zeros. */
  ghost predicate Spells(s: string, n: nat) {
    s != "" && Digits(s) && Value(s) == n && (s[0] == '0' ==> s == "0")
  }

  /** The base itself if it is free, and otherwise the base with the least number from 2 on with which it is. */
  ghost predicate IsFirstFree(slug: string, base: string, taken: set<string>) {
    slug !in taken
    && (slug == base
        || (base in taken
            && exists k, s :: k >= 2 && Spells(s, k) && slug == base + "-" + s
                              && forall j, t :: 2 <= j < k && Spells(t, j) ==> base + "-" + t in taken))
  }

  lemma SpelledOnce(s: string, n: nat)
    requires Spells(s, n)
    ensures s == Decimal(n)
  {
    if s[0] != '0' {
      DecimalOfValue(s);
    } else {
      assert |s| == 1 && Value(s[..0]) == 0;
      assert Decimal(0)[0] == Digit(0);
    }
  }

  lemma FreeCandidateIsFirst(base: string, k: nat, taken: set<string>)
    requires k >= 1 && Candidate(base, k) !in taken && forall j :: 1 <= j < k ==> Candidate(base, j) in taken
    ensures IsFirstFree(Candidate(base, k), base, taken)
  {
    if k > 1 {
      assert Candidate(base, 1) in taken;
      ValueOfDecimal(k);
      assert Spells(Decimal(k), k);
      forall j, t | 2 <= j < k && Spells(t, j)
        ensures base + "-" + t in taken
      {
        SpelledOnce(t, j);
        assert Candidate(base, j) in taken;
      }
    }
  }

  /** The search ends because the candidates are pairwise distinct and only finitely many slugs are
      taken; it returns the first candidate that is free. */
  method GenerateSlug(base: string, taken: set<string>) returns (slug: string)
    ensures slug !in taken && IsFirstFree(slug, base, taken)
    ensures exists k :: k >= 1 && slug == Candidate(base, k) && forall j :: 1 <= j < k ==> Candidate(base, j) in taken
  {
    slug := base;
    var suffix := 1;
    ghost var tried: set<string> := {};
    while slug in taken
      invariant suffix >= 1 && slug == Candidate(base, suffix)
      invariant forall j :: 1 <= j < suffix ==> Candidate(base, j) in taken
      invariant tried <= taken && forall c :: c in tried ==> exists j :: 1 <= j < suffix && c == Candidate(base, j)
      decreases |taken| - |tried|
    {
      assert slug !in tried by {
        if slug in tried {
          var j :| 1 <= j < suffix && slug == Candidate(base, j);
          CandidatesDiffer(base, j, suffix);
        }
      }
      SubsetSize(tried + {slug}, taken);
      tried := tried + {slug};
      suffix := suffix + 1;
      slug := base + "-" + Decimal(suffix);
    }
    FreeCandidateIsFirst(base, suffix, taken);
  }
}
