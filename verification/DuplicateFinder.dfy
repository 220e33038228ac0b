/** The duplicate finder of the bulk import (academics/import_dedup.py): scores as exact rationals, which
    compare like the doubles of the original, behind a length filter that does not. */
module DuplicateFinder {
  import opened Wrappers
  import opened Doubles
  import opened LengthFilter

  /** The similarity a pair has to reach both on the text and on the options: 0.85. */
  const THRESHOLD: real := 17.0 / 20.0

  // ---------- what is used of the sequence matcher ----------

  /** A stretch of `size` equal characters at `a` in the one text and at `b` in the other. */
  datatype Block = Block(a: nat, b: nat, size: nat)

  /** Matching blocks lie inside both texts, agree with them, and come in order without overlapping
      in either. */
  ghost predicate Matching(blocks: seq<Block>, x: string, y: string) {
    && (forall k :: 0 <= k < |blocks| ==>
          && blocks[k].a + blocks[k].size <= |x| && blocks[k].b + blocks[k].size <= |y|
          && x[blocks[k].a..blocks[k].a + blocks[k].size] == y[blocks[k].b..blocks[k].b + blocks[k].size])
    && (forall j, k :: 0 <= j < k < |blocks| ==>
          blocks[j].a + blocks[j].size <= blocks[k].a && blocks[j].b + blocks[j].size <= blocks[k].b)
  }

  type Matcher = (string, string) -> seq<Block>

  ghost predicate Sound(matcher: Matcher) {
    forall x, y :: Matching(matcher(x, y), x, y)
  }

  /** The number of matched characters. */
  function Matched(blocks: seq<Block>): nat {
    if blocks == [] then 0 else Matched(blocks[..|blocks| - 1]) + blocks[|blocks| - 1].size
  }

  /** Blocks in order can only use up the characters of a text once. */
  lemma {:induction false} MatchedFits(blocks: seq<Block>, x: string, y: string)
    requires Matching(blocks, x, y)
    ensures Matched(blocks) <= |x| && Matched(blocks) <= |y|
    ensures blocks != [] ==>
      var last := blocks[|blocks| - 1];
      Matched(blocks) <= last.a + last.size && Matched(blocks) <= last.b + last.size
  {
    if blocks != [] {
      MatchedFits(blocks[..|blocks| - 1], x, y);
    }
  }

  // ---------- scores ----------

  /** Twice the matched characters over all characters; two empty texts are alike. */
  function Ratio(matcher: Matcher, x: string, y: string): real {
    if |x| + |y| == 0 then 1.0 else 2.0 * Matched(matcher(x, y)) as real / (|x| + |y|) as real
  }

  /** Shared options over all options, zero when either side has none. */
  function OptionsSimilarity(a: set<string>, b: set<string>): real {
    if a == {} || b == {} then 0.0
    else
      assert a + b != {};
      |a * b| as real / |a + b| as real
  }

  datatype Entry = Entry(text: string, options: set<string>)

  /** The weaker of the two scores, if both reach the threshold. */
  function Score(matcher: Matcher, candidate: Entry, other: Entry): Option<real> {
    if other.text == "" then None
    else
      var text, options := Ratio(matcher, candidate.text, other.text), OptionsSimilarity(candidate.options, other.options);
      if text < THRESHOLD || options < THRESHOLD then None else Some(if text <= options then text else options)
  }

  // ---------- the length filter ----------

  /** The bound 2 * min / (a + b) that the lengths alone put on the ratio. */
  function LengthBound(a: nat, b: nat): real
    requires a + b > 0
  {
    2.0 * (if a <= b then a else b) as real / (a + b) as real
  }

  lemma DivideAtLeast(p: real, q: real, t: real)
    requires q > 0.0
    ensures p / q >= t <==> p >= t * q
    ensures p / q == t <==> p == t * q
  {
    assert p == (p / q) * q;
  }

  /** Twice m over n against the threshold, in whole numbers. */
  lemma AgainstThreshold(m: nat, n: nat)
    requires n > 0
    ensures 2.0 * m as real / n as real >= THRESHOLD <==> 40 * m >= 17 * n
    ensures 2.0 * m as real / n as real == THRESHOLD <==> 40 * m == 17 * n
  {
    DivideAtLeast(2.0 * m as real, n as real, THRESHOLD);
  }

  /** What the filter is meant to pass are the lengths whose bound reaches the threshold.  It passes those
      above it, and of those on it only the ones whose product is rounded up. */
  lemma FilterPassesIff(a: nat, b: nat)
    requires 0 < a < TWO_48 && 0 < b < TWO_48
    ensures LengthCouldMatch(a, b) <==>
      LengthBound(a, b) > THRESHOLD || (LengthBound(a, b) == THRESHOLD && RoundedUp((if a <= b then b else a) / 23))
  {
    AgainstThreshold(if a <= b then a else b, a + b);
    if a <= b {
      LengthCouldMatchIff(a, b);
    } else {
      LengthCouldMatchIff(b, a);
      FilterIsSymmetric(a, b);
    }
  }

  /** Lengths 17 k and 23 k whose product is not rounded up. */
  ghost predicate LostOnBound(a: nat, b: nat) {
    var s, l := if a <= b then a else b, if a <= b then b else a;
    0 < s && 17 * l == 23 * s && !RoundedUp(l / 23)
  }

  lemma DroppedRatio(m: nat, s: nat, l: nat)
    requires m <= s && 0 < l && 17 * l >= 23 * s
    ensures 2.0 * m as real / (s + l) as real <= THRESHOLD
    ensures 2.0 * m as real / (s + l) as real >= THRESHOLD <==> m == s && 17 * l == 23 * s
  {
    AgainstThreshold(m, s + l);
  }

  /** Exactly which pairs the filter loses: lengths on the bound, not rounded up, and every character of the
      shorter text matched.  Their ratio is the threshold itself. */
  lemma FilterLosesIff(matcher: Matcher, x: string, y: string)
    requires Sound(matcher) && |x| < TWO_48 && |y| < TWO_48
    ensures !LengthCouldMatch(|x|, |y|) && Ratio(matcher, x, y) >= THRESHOLD <==>
      LostOnBound(|x|, |y|) && Matched(matcher(x, y)) == if |x| <= |y| then |x| else |y|
    ensures !LengthCouldMatch(|x|, |y|) ==> Ratio(matcher, x, y) <= THRESHOLD
  {
    MatchedFits(matcher(x, y), x, y);
    var m := Matched(matcher(x, y));
    if |x| == 0 || |y| == 0 {
      EmptyText(matcher, x, y);
    } else if |x| <= |y| {
      LengthCouldMatchIff(|x|, |y|);
      if 17 * |y| >= 23 * |x| {
        DroppedRatio(m, |x|, |y|);
      }
    } else {
      FilterIsSymmetric(|x|, |y|);
      LengthCouldMatchIff(|y|, |x|);
      if 17 * |x| >= 23 * |y| {
        DroppedRatio(m, |y|, |x|);
      }
    }
  }

  lemma EmptyText(matcher: Matcher, x: string, y: string)
    requires Matched(matcher(x, y)) <= |x| && Matched(matcher(x, y)) <= |y| && (|x| == 0 || |y| == 0)
    ensures !LengthCouldMatch(|x|, |y|) ==> Ratio(matcher, x, y) == 0.0
  {
  }

  /** The score as the search computes it, behind the filter. */
  function FilteredScore(matcher: Matcher, candidate: Entry, other: Entry): Option<real> {
    if LengthCouldMatch(|candidate.text|, |other.text|) then Score(matcher, candidate, other) else None
  }

  // ---------- the search ----------

  /** A question of the bank, or another row of the same file. */
  datatype Ref = Question(id: nat) | RowOf(id: nat)

  datatype Match = Match(ref: Ref, score: real)

  /** An entry takes the lead if it qualifies with a strictly higher score. */
  function Lead(best: Option<Match>, ref: Ref, score: Option<real>): Option<Match> {
    if score.Some? && (best.None? || score.value > best.value.score) then Some(Match(ref, score.value)) else best
  }

  /** An entry visited, with its score if it qualifies. */
  type Scored = (Ref, Option<real>)

  /** The leader after all entries, in the order in which they are visited. */
  function BestOf(scored: seq<Scored>): Option<Match> {
    if scored == [] then None
    else Lead(BestOf(scored[..|scored| - 1]), scored[|scored| - 1].0, scored[|scored| - 1].1)
  }

  /** Entry k wins: nothing before it scores as high, nothing after it scores higher. */
  ghost predicate FirstBest(scored: seq<Scored>, k: nat, m: Match)
    requires k < |scored|
  {
    && scored[k] == (m.ref, Some(m.score))
    && (forall j :: 0 <= j < k && scored[j].1.Some? ==> scored[j].1.value < m.score)
    && (forall j :: k < j < |scored| && scored[j].1.Some? ==> scored[j].1.value <= m.score)
  }

  /** The result is the first entry with the highest score among those that reach the threshold on
      both counts, and there is none exactly when no entry does. */
  lemma {:induction false} BestIsFirstBest(scored: seq<Scored>)
    ensures BestOf(scored).None? <==> forall k :: 0 <= k < |scored| ==> scored[k].1.None?
    ensures BestOf(scored).Some? ==> exists k :: 0 <= k < |scored| && FirstBest(scored, k, BestOf(scored).value)
  {
    if scored != [] {
      var n := |scored| - 1;
      BestIsFirstBest(scored[..n]);
      var before, best := BestOf(scored[..n]), BestOf(scored);
      if before.Some? {
        var k :| 0 <= k < n && FirstBest(scored[..n], k, before.value);
        if best == before {
          assert FirstBest(scored, k, best.value);
        } else {
          assert FirstBest(scored, n, best.value);
        }
      } else if best.Some? {
        forall j | 0 <= j < n
          ensures scored[j].1.None?
        {
          assert scored[..n][j].1.None?;
        }
        assert FirstBest(scored, n, best.value);
      }
    }
  }

  function Tagged(rows: bool, entries: seq<(nat, Entry)>): seq<(Ref, Entry)> {
    seq(|entries|, i requires 0 <= i < |entries| =>
      (if rows then RowOf(entries[i].0) else Question(entries[i].0), entries[i].1))
  }

  /** The other rows of the file. */
  function Without(rows: seq<(nat, Entry)>, self: nat): seq<(nat, Entry)> {
    if rows == [] then []
    else
      var rest, last := Without(rows[..|rows| - 1], self), rows[|rows| - 1];
      if last.0 == self then rest else rest + [last]
  }

  lemma {:induction false} WithoutHas(rows: seq<(nat, Entry)>, self: nat, r: (nat, Entry))
    ensures r in Without(rows, self) <==> r in rows && r.0 != self
  {
    if rows != [] {
      WithoutHas(rows[..|rows| - 1], self, r);
      assert rows == rows[..|rows| - 1] + [rows[|rows| - 1]];
    }
  }

  /** Existing questions first, then the other rows. */
  function Visits(existing: seq<(nat, Entry)>, rows: seq<(nat, Entry)>, self: nat): seq<(Ref, Entry)> {
    Tagged(false, existing) + Tagged(true, Without(rows, self))
  }

  function Scores(matcher: Matcher, candidate: Entry, visits: seq<(Ref, Entry)>): seq<Scored> {
    seq(|visits|, i requires 0 <= i < |visits| => (visits[i].0, FilteredScore(matcher, candidate, visits[i].1)))
  }

  /** What the search finds. */
  function Found(matcher: Matcher, candidate: Entry, existing: seq<(nat, Entry)>, rows: seq<(nat, Entry)>, self: nat): Option<Match> {
    if candidate.text == "" then None else BestOf(Scores(matcher, candidate, Visits(existing, rows, self)))
  }

  function FullScores(matcher: Matcher, candidate: Entry, visits: seq<(Ref, Entry)>): seq<Scored> {
    seq(|visits|, i requires 0 <= i < |visits| => (visits[i].0, Score(matcher, candidate, visits[i].1)))
  }

  /** What it is meant to find: every entry is compared in full. */
  function FoundInFull(matcher: Matcher, candidate: Entry, existing: seq<(nat, Entry)>, rows: seq<(nat, Entry)>, self: nat): Option<Match> {
    if candidate.text == "" then None else BestOf(FullScores(matcher, candidate, Visits(existing, rows, self)))
  }

  /** The pair passes the filter and reaches the threshold on both counts. */
  predicate Qualifies(matcher: Matcher, candidate: Entry, other: Entry) {
    FilteredScore(matcher, candidate, other).Some?
  }

  predicate ShortText(e: Entry) {
    |e.text| < TWO_48
  }

  /** A pair that reaches the threshold on both counts qualifies unless its lengths are lost on the bound;
      its score is then the threshold itself. */
  lemma QualifiesIff(matcher: Matcher, candidate: Entry, other: Entry)
    requires Sound(matcher) && ShortText(candidate) && ShortText(other)
    ensures Qualifies(matcher, candidate, other) <==>
      Score(matcher, candidate, other).Some? && !LostOnBound(|candidate.text|, |other.text|)
    ensures Score(matcher, candidate, other).Some? && LostOnBound(|candidate.text|, |other.text|) ==>
      Score(matcher, candidate, other) == Some(THRESHOLD)
  {
    FilterLosesIff(matcher, candidate.text, other.text);
    if LostOnBound(|candidate.text|, |other.text|) {
      LostIsDropped(|candidate.text|, |other.text|);
    }
  }

  lemma LostIsDropped(a: nat, b: nat)
    requires a < TWO_48 && b < TWO_48 && LostOnBound(a, b)
    ensures !LengthCouldMatch(a, b)
  {
    if a <= b {
      LengthCouldMatchIff(a, b);
    } else {
      LengthCouldMatchIff(b, a);
      FilterIsSymmetric(a, b);
    }
  }

  ghost predicate AnyQualifies(matcher: Matcher, candidate: Entry, entries: seq<(nat, Entry)>) {
    exists e :: e in entries && Qualifies(matcher, candidate, e.1)
  }

  /** Some row other than row `self` qualifies. */
  ghost predicate OtherQualifies(matcher: Matcher, candidate: Entry, rows: seq<(nat, Entry)>, self: nat) {
    exists r :: r in rows && r.0 != self && Qualifies(matcher, candidate, r.1)
  }

  lemma OthersQualify(matcher: Matcher, candidate: Entry, rows: seq<(nat, Entry)>, self: nat)
    ensures AnyQualifies(matcher, candidate, Without(rows, self)) <==> OtherQualifies(matcher, candidate, rows, self)
  {
    forall r | r in rows || r in Without(rows, self)
      ensures r in Without(rows, self) <==> r in rows && r.0 != self
    {
      WithoutHas(rows, self, r);
    }
  }

  lemma SomeScoreIff(matcher: Matcher, candidate: Entry, existing: seq<(nat, Entry)>, others: seq<(nat, Entry)>)
    ensures
      var scores := Scores(matcher, candidate, Tagged(false, existing) + Tagged(true, others));
      (exists k :: 0 <= k < |scores| && scores[k].1.Some?) <==>
        AnyQualifies(matcher, candidate, existing) || AnyQualifies(matcher, candidate, others)
  {
    var visits := Tagged(false, existing) + Tagged(true, others);
    var scores := Scores(matcher, candidate, visits);
    hide FilteredScore;
    if k :| 0 <= k < |scores| && scores[k].1.Some? {
      if k < |existing| {
        assert existing[k] in existing;
      } else {
        assert others[k - |existing|] in others;
      }
    }
    if e :| e in existing && Qualifies(matcher, candidate, e.1) {
      var k :| 0 <= k < |existing| && existing[k] == e;
      assert scores[k].1.Some?;
    }
    if e :| e in others && Qualifies(matcher, candidate, e.1) {
      var k :| 0 <= k < |others| && others[k] == e;
      assert scores[|existing| + k].1.Some?;
    }
  }

  /** Something is found exactly when the candidate has a text and some question of the bank, or some
      other row of the file, earlier or later, qualifies. */
  lemma FoundIff(matcher: Matcher, candidate: Entry, existing: seq<(nat, Entry)>, rows: seq<(nat, Entry)>, self: nat)
    ensures Found(matcher, candidate, existing, rows, self).Some? <==>
      && candidate.text != ""
      && (AnyQualifies(matcher, candidate, existing) || OtherQualifies(matcher, candidate, rows, self))
  {
    OthersQualify(matcher, candidate, rows, self);
    SomeScoreIff(matcher, candidate, existing, Without(rows, self));
    BestIsFirstBest(Scores(matcher, candidate, Visits(existing, rows, self)));
  }

  lemma OneMoreVisit(matcher: Matcher, candidate: Entry, visits: seq<(Ref, Entry)>, v: (Ref, Entry))
    ensures BestOf(Scores(matcher, candidate, visits + [v])) ==
      Lead(BestOf(Scores(matcher, candidate, visits)), v.0, FilteredScore(matcher, candidate, v.1))
  {
    var longer := Scores(matcher, candidate, visits + [v]);
    assert longer[..|visits|] == Scores(matcher, candidate, visits);
  }

  lemma OneMoreQuestion(existing: seq<(nat, Entry)>, i: nat)
    requires i < |existing|
    ensures Tagged(false, existing[..i + 1]) == Tagged(false, existing[..i]) + [(Question(existing[i].0), existing[i].1)]
  {
  }

  lemma OneMoreRow(questions: seq<(Ref, Entry)>, rows: seq<(nat, Entry)>, self: nat, k: nat)
    requires k < |rows|
    ensures questions + Tagged(true, Without(rows[..k + 1], self)) ==
      if rows[k].0 == self then questions + Tagged(true, Without(rows[..k], self))
      else questions + Tagged(true, Without(rows[..k], self)) + [(RowOf(rows[k].0), rows[k].1)]
  {
    assert rows[..k + 1][..k] == rows[..k];
  }

  // ---------- the search in whole numbers ----------

  /** The options of both, and of either. */
  function Shared(a: Entry, b: Entry): nat {
    |a.options * b.options|
  }

  function Union(a: Entry, b: Entry): nat {
    |a.options + b.options|
  }

  function Letters(matcher: Matcher, a: Entry, b: Entry): nat {
    Matched(matcher(a.text, b.text))
  }

  /** The other text is not blank, 17 in 20 characters of both texts are matched, both have options, and 17
      in 20 of all options are shared. */
  ghost predicate Reaches(matcher: Matcher, candidate: Entry, other: Entry) {
    && other.text != ""
    && 40 * Letters(matcher, candidate, other) >= 17 * (|candidate.text| + |other.text|)
    && candidate.options != {} && other.options != {}
    && 20 * Shared(candidate, other) >= 17 * Union(candidate, other)
  }

  /** r is the smaller one of the two quotients. */
  ghost predicate IsWeaker(matcher: Matcher, candidate: Entry, other: Entry, r: real) {
    var total := |candidate.text| + |other.text|;
    && total > 0 && Union(candidate, other) > 0
    && var text, options := 2.0 * Letters(matcher, candidate, other) as real / total as real,
                            Shared(candidate, other) as real / Union(candidate, other) as real;
       r <= text && r <= options && (r == text || r == options)
  }

  lemma OptionsReach(candidate: Entry, other: Entry)
    ensures OptionsSimilarity(candidate.options, other.options) >= THRESHOLD <==>
      candidate.options != {} && other.options != {} && 20 * Shared(candidate, other) >= 17 * Union(candidate, other)
    ensures candidate.options != {} && other.options != {} ==>
      (Union(candidate, other) > 0
       && OptionsSimilarity(candidate.options, other.options) == Shared(candidate, other) as real / Union(candidate, other) as real)
  {
    if candidate.options != {} && other.options != {} {
      assert candidate.options + other.options != {};
      DivideAtLeast(Shared(candidate, other) as real, Union(candidate, other) as real, THRESHOLD);
    }
  }

  /** There is a score exactly when the pair reaches the threshold on both counts, and it is the weaker one
      of the text's and the options' quotients. */
  lemma ScoreIff(matcher: Matcher, candidate: Entry, other: Entry)
    ensures Score(matcher, candidate, other).Some? <==> Reaches(matcher, candidate, other)
    ensures Score(matcher, candidate, other).Some? ==> IsWeaker(matcher, candidate, other, Score(matcher, candidate, other).value)
  {
    OptionsReach(candidate, other);
    if other.text != "" {
      AgainstThreshold(Letters(matcher, candidate, other), |candidate.text| + |other.text|);
    }
  }

  /** The entry is compared in full and taken up with this score. */
  ghost predicate TakenUp(matcher: Matcher, candidate: Entry, other: Entry, r: real) {
    LengthCouldMatch(|candidate.text|, |other.text|) && Reaches(matcher, candidate, other) && IsWeaker(matcher, candidate, other, r)
  }

  lemma TakenUpIff(matcher: Matcher, candidate: Entry, other: Entry, r: real)
    ensures TakenUp(matcher, candidate, other, r) <==> FilteredScore(matcher, candidate, other) == Some(r)
  {
    ScoreIff(matcher, candidate, other);
  }

  /** No entry is taken up with as much as r; or, if `equal`, with more. */
  ghost predicate NoneBetter(matcher: Matcher, candidate: Entry, entries: seq<(nat, Entry)>, r: real, equal: bool) {
    forall k, x :: 0 <= k < |entries| && TakenUp(matcher, candidate, entries[k].1, x) ==> x < r || (equal && x == r)
  }

  /** Entry k is the first of these with the highest score. */
  ghost predicate Leads(matcher: Matcher, candidate: Entry, entries: seq<(nat, Entry)>, k: nat, id: nat, r: real) {
    && k < |entries| && entries[k].0 == id && TakenUp(matcher, candidate, entries[k].1, r)
    && NoneBetter(matcher, candidate, entries[..k], r, false) && NoneBetter(matcher, candidate, entries[k..], r, true)
  }

  /** What the search is to return, given the bank and the other rows: nothing if nothing is taken up; else the
      question of the bank with the highest score, the first of them, unless some row scores higher, and
      then the first such row. */
  ghost predicate RightlyFound(
    matcher: Matcher, candidate: Entry, existing: seq<(nat, Entry)>, others: seq<(nat, Entry)>, best: Option<Match>)
  {
    match best
    case None =>
      candidate.text == ""
      || forall e, x :: e in existing + others ==> !TakenUp(matcher, candidate, e.1, x)
    case Some(Match(Question(id), r)) =>
      && candidate.text != "" && NoneBetter(matcher, candidate, others, r, true)
      && exists k :: Leads(matcher, candidate, existing, k, id, r)
    case Some(Match(RowOf(id), r)) =>
      && candidate.text != "" && NoneBetter(matcher, candidate, existing, r, false)
      && exists k :: Leads(matcher, candidate, others, k, id, r)
  }

  ghost predicate ScoredAs(matcher: Matcher, candidate: Entry, existing: seq<(nat, Entry)>, others: seq<(nat, Entry)>, scored: seq<Scored>) {
    && |scored| == |existing| + |others|
    && (forall k :: 0 <= k < |existing| ==>
          scored[k] == (Question(existing[k].0), FilteredScore(matcher, candidate, existing[k].1)))
    && (forall k :: 0 <= k < |others| ==>
          scored[|existing| + k] == (RowOf(others[k].0), FilteredScore(matcher, candidate, others[k].1)))
  }

  lemma ScoresAre(matcher: Matcher, candidate: Entry, existing: seq<(nat, Entry)>, others: seq<(nat, Entry)>)
    ensures ScoredAs(matcher, candidate, existing, others,
      Scores(matcher, candidate, Tagged(false, existing) + Tagged(true, others)))
  {
  }

  lemma TakenUpIffScored(matcher: Matcher, candidate: Entry)
    ensures forall e: Entry, x: real :: TakenUp(matcher, candidate, e, x) <==> FilteredScore(matcher, candidate, e) == Some(x)
  {
    forall e: Entry, x: real
      ensures TakenUp(matcher, candidate, e, x) <==> FilteredScore(matcher, candidate, e) == Some(x)
    {
      TakenUpIff(matcher, candidate, e, x);
    }
  }

  lemma BestIsRight(matcher: Matcher, candidate: Entry, existing: seq<(nat, Entry)>, others: seq<(nat, Entry)>)
    requires candidate.text != ""
    ensures RightlyFound(matcher, candidate, existing, others,
      BestOf(Scores(matcher, candidate, Tagged(false, existing) + Tagged(true, others))))
  {
    hide TakenUp, FilteredScore, Leads, NoneBetter;
    var scored := Scores(matcher, candidate, Tagged(false, existing) + Tagged(true, others));
    ScoresAre(matcher, candidate, existing, others);
    BestIsFirstBest(scored);
    TakenUpIffScored(matcher, candidate);
    if BestOf(scored).Some? {
      var m := BestOf(scored).value;
      var k :| 0 <= k < |scored| && FirstBest(scored, k, m);
      if k < |existing| {
        LeadsInBank(matcher, candidate, existing, others, scored, k, m);
      } else {
        LeadsInFile(matcher, candidate, existing, others, scored, k - |existing|, m);
      }
    } else {
      forall e, x | e in existing + others
        ensures !TakenUp(matcher, candidate, e.1, x)
      {
        var j :| 0 <= j < |existing + others| && (existing + others)[j] == e;
        assert scored[j].1.None?;
      }
    }
  }

  lemma LeadsInBank(
    matcher: Matcher, candidate: Entry, existing: seq<(nat, Entry)>, others: seq<(nat, Entry)>, scored: seq<Scored>, k: nat, m: Match)
    requires ScoredAs(matcher, candidate, existing, others, scored) && k < |existing| && FirstBest(scored, k, m)
    requires forall e: Entry, x: real :: TakenUp(matcher, candidate, e, x) <==> FilteredScore(matcher, candidate, e) == Some(x)
    ensures m.ref == Question(existing[k].0) && NoneBetter(matcher, candidate, others, m.score, true)
    ensures Leads(matcher, candidate, existing, k, existing[k].0, m.score)
  {
    hide TakenUp, FilteredScore;
    forall j, x | 0 <= j < |others| && TakenUp(matcher, candidate, others[j].1, x)
      ensures x <= m.score
    {
      assert scored[|existing| + j].1 == Some(x);
    }
    forall j, x | 0 <= j < |existing| && TakenUp(matcher, candidate, existing[j].1, x)
      ensures x <= m.score && (j < k ==> x < m.score)
    {
      assert scored[j].1 == Some(x);
    }
  }

  lemma LeadsInFile(
    matcher: Matcher, candidate: Entry, existing: seq<(nat, Entry)>, others: seq<(nat, Entry)>, scored: seq<Scored>, k: nat, m: Match)
    requires ScoredAs(matcher, candidate, existing, others, scored) && k < |others| && FirstBest(scored, |existing| + k, m)
    requires forall e: Entry, x: real :: TakenUp(matcher, candidate, e, x) <==> FilteredScore(matcher, candidate, e) == Some(x)
    ensures m.ref == RowOf(others[k].0) && NoneBetter(matcher, candidate, existing, m.score, false)
    ensures Leads(matcher, candidate, others, k, others[k].0, m.score)
  {
    hide TakenUp, FilteredScore;
    forall j, x | 0 <= j < |existing| && TakenUp(matcher, candidate, existing[j].1, x)
      ensures x < m.score
    {
      assert scored[j].1 == Some(x);
    }
    forall j, x | 0 <= j < |others| && TakenUp(matcher, candidate, others[j].1, x)
      ensures x <= m.score && (j < k ==> x < m.score)
    {
      assert scored[|existing| + j].1 == Some(x);
    }
  }

  lemma {:induction false} WithoutNone(rows: seq<(nat, Entry)>, self: nat)
    requires forall i :: 0 <= i < |rows| ==> rows[i].0 != self
    ensures Without(rows, self) == rows
  {
    if rows != [] {
      var n := |rows| - 1;
      WithoutNone(rows[..n], self);
      assert rows == rows[..n] + [rows[n]];
    }
  }

  /** The other rows are all rows but the candidate's own, in their order. */
  lemma {:induction false} WithoutIs(rows: seq<(nat, Entry)>, self: nat, s: nat)
    requires s < |rows| && rows[s].0 == self && forall i :: 0 <= i < |rows| && i != s ==> rows[i].0 != self
    ensures Without(rows, self) == rows[..s] + rows[s + 1..]
  {
    var n := |rows| - 1;
    if s == n {
      WithoutNone(rows[..n], self);
      assert rows[s + 1..] == [] && rows[..n] + [] == rows[..n];
    } else {
      WithoutIs(rows[..n], self, s);
      assert rows[..n][..s] == rows[..s];
      assert rows[s + 1..] == rows[..n][s + 1..] + [rows[n]];
    }
  }

  /** What the search returns. */
  lemma FoundIsRight(matcher: Matcher, candidate: Entry, existing: seq<(nat, Entry)>, rows: seq<(nat, Entry)>, self: nat)
    ensures RightlyFound(matcher, candidate, existing, Without(rows, self), Found(matcher, candidate, existing, rows, self))
  {
    if candidate.text != "" {
      BestIsRight(matcher, candidate, existing, Without(rows, self));
    }
  }

  /** A candidate that shares no option with anything has no duplicate, however alike the texts are. */
  lemma DisjointOptionsFindNothing(matcher: Matcher, candidate: Entry, existing: seq<(nat, Entry)>, rows: seq<(nat, Entry)>, self: nat)
    requires forall e :: e in existing || e in rows ==> e.1.options !! candidate.options
    ensures Found(matcher, candidate, existing, rows, self).None?
  {
    FoundIff(matcher, candidate, existing, rows, self);
    forall e | e in existing || e in rows
      ensures !Qualifies(matcher, candidate, e.1)
    {
      ScoreIff(matcher, candidate, e.1);
      assert candidate.options * e.1.options == {};
      if candidate.options != {} {
        assert candidate.options + e.1.options != {};
      }
    }
  }

  /** One entry, with the filter in front of the expensive comparison. */
  method Consider(matcher: Matcher, candidate: Entry, ref: Ref, other: Entry, best: Option<Match>)
    returns (r: Option<Match>)
    ensures r == Lead(best, ref, FilteredScore(matcher, candidate, other))
    ensures r != best ==>
      (r.Some? && r.value.ref == ref && TakenUp(matcher, candidate, other, r.value.score)
       && (best.Some? ==> r.value.score > best.value.score))
    ensures r == best ==> forall x :: TakenUp(matcher, candidate, other, x) ==> best.Some? && x <= best.value.score
  {
    ScoreIff(matcher, candidate, other);
    if other.text == "" {
      return best;
    }
    if !LengthCouldMatch(|candidate.text|, |other.text|) {
      return best;
    }
    var text := Ratio(matcher, candidate.text, other.text);
    if text < THRESHOLD {
      return best;
    }
    var options := OptionsSimilarity(candidate.options, other.options);
    if options < THRESHOLD {
      return best;
    }
    var combined := if text <= options then text else options;
    if best.None? || combined > best.value.score {
      return Some(Match(ref, combined));
    }
    return best;
  }

  /** The search: questions first, then the other rows, each behind the filter. */
  method FindDuplicate(matcher: Matcher, candidate: Entry, existing: seq<(nat, Entry)>, rows: seq<(nat, Entry)>, self: nat)
    returns (best: Option<Match>)
    ensures best == Found(matcher, candidate, existing, rows, self)
    ensures RightlyFound(matcher, candidate, existing, Without(rows, self), best)
  {
    hide RightlyFound;
    FoundIsRight(matcher, candidate, existing, rows, self);
    best := None;
    if candidate.text == "" {
      return;
    }
    ghost var visits := [];
    var i := 0;
    while i < |existing|
      invariant 0 <= i <= |existing|
      invariant visits == Tagged(false, existing[..i]) && best == BestOf(Scores(matcher, candidate, visits))
    {
      OneMoreQuestion(existing, i);
      OneMoreVisit(matcher, candidate, visits, (Question(existing[i].0), existing[i].1));
      visits := visits + [(Question(existing[i].0), existing[i].1)];
      best := Consider(matcher, candidate, Question(existing[i].0), existing[i].1, best);
      i := i + 1;
    }
    assert existing[..i] == existing;
    var k := 0;
    while k < |rows|
      invariant 0 <= k <= |rows|
      invariant visits == Tagged(false, existing) + Tagged(true, Without(rows[..k], self))
      invariant best == BestOf(Scores(matcher, candidate, visits))
    {
      OneMoreRow(Tagged(false, existing), rows, self, k);
      if rows[k].0 != self {
        OneMoreVisit(matcher, candidate, visits, (RowOf(rows[k].0), rows[k].1));
        visits := visits + [(RowOf(rows[k].0), rows[k].1)];
        best := Consider(matcher, candidate, RowOf(rows[k].0), rows[k].1, best);
      }
      k := k + 1;
    }
    assert rows[..k] == rows;
  }

  // ---------- what the filter costs ----------

  ghost predicate DistinctRefs(visits: seq<(Ref, Entry)>) {
    forall i, j :: 0 <= i < j < |visits| ==> visits[i].0 != visits[j].0
  }

  ghost predicate DistinctIds(entries: seq<(nat, Entry)>) {
    forall i, j :: 0 <= i < j < |entries| ==> entries[i].0 != entries[j].0
  }

  lemma {:induction false} WithoutDistinct(rows: seq<(nat, Entry)>, self: nat)
    requires DistinctIds(rows)
    ensures DistinctIds(Without(rows, self))
  {
    if rows != [] {
      var n := |rows| - 1;
      WithoutDistinct(rows[..n], self);
      forall r | r in Without(rows[..n], self)
        ensures r.0 != rows[n].0
      {
        WithoutHas(rows[..n], self, r);
      }
      var rest := Without(rows[..n], self);
      forall i | 0 <= i < |rest|
        ensures rest[i].0 != rows[n].0
      {
        assert rest[i] in rest;
      }
    }
  }

  lemma VisitsDistinct(existing: seq<(nat, Entry)>, rows: seq<(nat, Entry)>, self: nat)
    requires DistinctIds(existing) && DistinctIds(rows)
    ensures DistinctRefs(Visits(existing, rows, self))
  {
    WithoutDistinct(rows, self);
  }

  /** The winner is determined by where it stands. */
  lemma FirstBestIsBest(scored: seq<Scored>, k: nat, m: Match)
    requires k < |scored| && FirstBest(scored, k, m)
    ensures BestOf(scored) == Some(m)
  {
    BestIsFirstBest(scored);
    var best := BestOf(scored).value;
    var j :| 0 <= j < |scored| && FirstBest(scored, j, best);
    assert scored[j].1 == Some(best.score) && scored[k].1 == Some(m.score);
  }

  /** Entry k would win the full comparison and passes the filter. */
  ghost predicate WinnerPasses(matcher: Matcher, candidate: Entry, visits: seq<(Ref, Entry)>, m: Match) {
    exists k :: 0 <= k < |visits| && FirstBest(FullScores(matcher, candidate, visits), k, m)
                && LengthCouldMatch(|candidate.text|, |visits[k].1.text|)
  }

  lemma PassingWinnerWins(matcher: Matcher, candidate: Entry, visits: seq<(Ref, Entry)>, m: Match)
    requires WinnerPasses(matcher, candidate, visits, m)
    ensures BestOf(Scores(matcher, candidate, visits)) == Some(m)
  {
    var k :| 0 <= k < |visits| && FirstBest(FullScores(matcher, candidate, visits), k, m)
             && LengthCouldMatch(|candidate.text|, |visits[k].1.text|);
    var part, full := Scores(matcher, candidate, visits), FullScores(matcher, candidate, visits);
    forall j | 0 <= j < |visits|
      ensures part[j].1.Some? ==> part[j] == full[j]
    {
    }
    assert FirstBest(part, k, m);
    FirstBestIsBest(part, k, m);
  }

  lemma DroppedWinnerLoses(matcher: Matcher, candidate: Entry, visits: seq<(Ref, Entry)>, k: nat, m: Match)
    requires DistinctRefs(visits) && k < |visits| && FirstBest(FullScores(matcher, candidate, visits), k, m)
    requires !LengthCouldMatch(|candidate.text|, |visits[k].1.text|)
    ensures BestOf(Scores(matcher, candidate, visits)) != Some(m)
  {
    var part := Scores(matcher, candidate, visits);
    BestIsFirstBest(part);
    if BestOf(part).Some? {
      var best := BestOf(part).value;
      var j :| 0 <= j < |part| && FirstBest(part, j, best);
      assert part[j].1.Some? && part[k].1.None?;
      assert visits[j].0 != visits[k].0;
    }
  }

  /** The search finds what comparing everything in full would find exactly when the winner of the full
      comparison is not dropped by the filter. */
  lemma FilterKeepsResultIff(matcher: Matcher, candidate: Entry, existing: seq<(nat, Entry)>, rows: seq<(nat, Entry)>, self: nat)
    requires DistinctIds(existing) && DistinctIds(rows)
    ensures
      var full := FoundInFull(matcher, candidate, existing, rows, self);
      Found(matcher, candidate, existing, rows, self) == full <==>
        full.None? || WinnerPasses(matcher, candidate, Visits(existing, rows, self), full.value)
  {
    if candidate.text != "" {
      var visits := Visits(existing, rows, self);
      VisitsDistinct(existing, rows, self);
      var part, full := Scores(matcher, candidate, visits), FullScores(matcher, candidate, visits);
      BestIsFirstBest(full);
      if BestOf(full).None? {
        assert forall k :: 0 <= k < |part| ==> full[k].1.None? && part[k].1.None?;
        BestIsFirstBest(part);
      } else {
        var m := BestOf(full).value;
        var k :| 0 <= k < |full| && FirstBest(full, k, m);
        if LengthCouldMatch(|candidate.text|, |visits[k].1.text|) {
          assert WinnerPasses(matcher, candidate, visits, m);
        } else {
          DroppedWinnerLoses(matcher, candidate, visits, k, m);
        }
        if WinnerPasses(matcher, candidate, visits, m) {
          PassingWinnerWins(matcher, candidate, visits, m);
        }
      }
    }
  }

  /** What the filter costs is a duplicate of score 17/20 exactly; any better one is found. */
  lemma FilterCostsThresholdOnly(matcher: Matcher, candidate: Entry, existing: seq<(nat, Entry)>, rows: seq<(nat, Entry)>, self: nat)
    requires Sound(matcher) && DistinctIds(existing) && DistinctIds(rows) && ShortText(candidate)
    requires (forall e :: e in existing ==> ShortText(e.1)) && forall r :: r in rows ==> ShortText(r.1)
    ensures
      var full := FoundInFull(matcher, candidate, existing, rows, self);
      Found(matcher, candidate, existing, rows, self) != full ==> full.Some? && full.value.score == THRESHOLD
  {
    FilterKeepsResultIff(matcher, candidate, existing, rows, self);
    var full := FoundInFull(matcher, candidate, existing, rows, self);
    if Found(matcher, candidate, existing, rows, self) != full {
      var visits := Visits(existing, rows, self);
      BestIsFirstBest(FullScores(matcher, candidate, visits));
      var k :| 0 <= k < |visits| && FirstBest(FullScores(matcher, candidate, visits), k, full.value);
      VisitIsEntry(existing, rows, self, k);
      QualifiesIff(matcher, candidate, visits[k].1);
    }
  }

  lemma VisitIsEntry(existing: seq<(nat, Entry)>, rows: seq<(nat, Entry)>, self: nat, k: nat)
    requires k < |Visits(existing, rows, self)|
    ensures var e := Visits(existing, rows, self)[k].1;
      (exists x :: x in existing && x.1 == e) || exists x :: x in rows && x.1 == e
  {
    if k < |existing| {
      assert existing[k] in existing;
    } else {
      WithoutHas(rows, self, Without(rows, self)[k - |existing|]);
    }
  }

  /** A text of 17 characters, another of 23 that contains it, and the same options: compared in full the
      pair is a duplicate of score 17/20, but the filter drops it and nothing is found. */
  lemma FilterLosesADuplicate(matcher: Matcher, candidate: Entry, other: Entry)
    requires |candidate.text| == 17 && |other.text| == 23 && Matched(matcher(candidate.text, other.text)) == 17
    requires candidate.options == other.options != {}
    ensures FoundInFull(matcher, candidate, [(0, other)], [], 1) == Some(Match(Question(0), THRESHOLD))
    ensures Found(matcher, candidate, [(0, other)], [], 1).None?
  {
    SomeLengthsOnTheBound();
    ScoreOf17And23(matcher, candidate, other);
    var visits := Visits([(0, other)], [], 1);
    assert visits == [(Question(0), other)];
    var full, part := FullScores(matcher, candidate, visits), Scores(matcher, candidate, visits);
    assert full == [(Question(0), Some(THRESHOLD))] && part == [(Question(0), None)];
    assert FirstBest(full, 0, Match(Question(0), THRESHOLD));
    FirstBestIsBest(full, 0, Match(Question(0), THRESHOLD));
    BestIsFirstBest(part);
  }

  lemma SameOptions(options: set<string>)
    requires options != {}
    ensures OptionsSimilarity(options, options) == 1.0
  {
    assert options * options == options && options + options == options;
    var n := |options| as real;
    assert n > 0.0 && n / n == 1.0;
  }

  lemma ScoreOf17And23(matcher: Matcher, candidate: Entry, other: Entry)
    requires |candidate.text| == 17 && |other.text| == 23 && Matched(matcher(candidate.text, other.text)) == 17
    requires candidate.options == other.options != {}
    ensures Score(matcher, candidate, other) == Some(THRESHOLD)
  {
    AgainstThreshold(17, 40);
    SameOptions(other.options);
    assert Ratio(matcher, candidate.text, other.text) == THRESHOLD;
  }
}
