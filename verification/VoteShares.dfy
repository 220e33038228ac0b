/** The published percentages: every pick belongs to one option, and the shares add up to about 100. */
module VoteShares {
  import opened Wrappers
  import opened Votes
  import VoteProofs

  // ---------- rounding ----------

  /** n / d to the nearest integer, ties to the even one: what exact arithmetic would give. */
  function HalfEven(n: int, d: int): int {
    if d <= 0 then 0
    else
      var q, r := n / d, n % d;
      if 2 * r < d then q else if 2 * r > d then q + 1 else if q % 2 == 0 then q else q + 1
  }

  lemma HalfEvenIsNearest()
    ensures Nearest(HalfEven)
  {
    forall n, d | d > 0
      ensures -d <= 2 * (d * HalfEven(n, d) - n) <= d
    {
      Quotient(n, d);
    }
  }

  lemma Quotient(n: int, d: int)
    requires d > 0
    ensures n == d * (n / d) + n % d && 0 <= n % d < d && d * (n / d + 1) == d * (n / d) + d
  {
  }

  /** A rounding that is off by at most one half is decided by the rest of the division, but for ties: 23 of
      40 picks are 57.5 percent, and may become 57 as well as 58. */
  lemma NearestDecidesButTies(round: Rounding, n: int, d: int)
    requires Nearest(round) && d > 0
    ensures 2 * (n % d) < d ==> round(n, d) == n / d
    ensures 2 * (n % d) > d ==> round(n, d) == n / d + 1
    ensures 2 * (n % d) == d ==> round(n, d) in {n / d, n / d + 1}
  {
    var x := round(n, d);
    assert -d <= 2 * (d * x - n) <= d;
    Quotient(n, d);
    WithinOne(d, n / d, n % d, x);
  }

  /** A percentage is within one half of a hundred picks over the total, whatever their signs, and zero without a
      total. */
  lemma PercentageIs(round: Rounding, picks: int, total: int)
    requires Nearest(round)
    ensures total == 0 ==> Percentage(round, picks, total) == 0
    ensures total != 0 ==>
      var error, d := 2 * (total * Percentage(round, picks, total) - 100 * picks), if total > 0 then total else -total;
      -d <= error <= d
  {
    if total != 0 {
      var d, n := if total > 0 then total else -total, if total > 0 then 100 * picks else -100 * picks;
      var x := round(n, d);
      assert -d <= 2 * (d * x - n) <= d;
      assert (-d) * x == -(d * x);
    }
  }

  lemma WithinOne(d: int, q: int, r: int, x: int)
    requires d > 0 && 0 <= r < d && -d <= 2 * (d * x - (d * q + r)) <= d
    ensures (x == q && 2 * r <= d) || (x == q + 1 && 2 * r >= d)
  {
    var y := x - q;
    assert d * x - d * q == d * y;
    if y >= 2 {
      Factor(d, 2, y);
    } else if y <= -1 {
      Factor(d, y, -1);
    }
  }

  lemma Factor(d: int, y: int, z: int)
    requires d > 0 && y <= z
    ensures d * y <= d * z
  {
  }

  // ---------- the picks of a question ----------

  ghost function PickSum(options: seq<AnswerOption>): int {
    if options == [] then 0 else PickSum(options[..|options| - 1]) + options[|options| - 1].pickCount
  }

  ghost function ShareSum(options: seq<AnswerOption>): int {
    if options == [] then 0 else ShareSum(options[..|options| - 1]) + options[|options| - 1].pickPercentage
  }

  /** The changes to the first k options. */
  ghost function ChangeSum(changes: map<nat, int>, k: nat): int {
    if k == 0 then 0 else ChangeSum(changes, k - 1) + Change(changes, k - 1)
  }

  ghost predicate Balanced(q: Question) {
    PickSum(q.options) == q.totalAttempts
  }

  ghost predicate Priced(round: Rounding, q: Question) {
    forall o :: 0 <= o < |q.options| ==>
      q.options[o].pickPercentage == Percentage(round, q.options[o].pickCount, q.totalAttempts)
  }

  ghost predicate QuestionsSound(round: Rounding, qs: seq<Question>) {
    forall i :: 0 <= i < |qs| ==> Balanced(qs[i]) && Priced(round, qs[i])
  }

  /** A delta moves as many picks as voters. */
  ghost predicate BalancedDelta(qs: seq<Question>, d: Delta) {
    d.question < |qs| ==> ChangeSum(d.options, |qs[d.question].options|) == d.total
  }

  // ---------- the shares of one question ----------

  lemma PercentageNearPicks(round: Rounding, picks: int, total: int)
    requires Nearest(round) && total > 0
    ensures -total <= 2 * (total * Percentage(round, picks, total) - 100 * picks) <= total
  {
    assert -total <= 2 * (total * round(100 * picks, total) - 100 * picks) <= total;
  }

  lemma AddShare(total: int, n: nat, shares: int, picks: int, share: int, pick: int)
    requires -(n * total) <= 2 * (total * shares - 100 * picks) <= n * total
    requires -total <= 2 * (total * share - 100 * pick) <= total
    ensures -((n + 1) * total) <= 2 * (total * (shares + share) - 100 * (picks + pick)) <= (n + 1) * total
  {
    assert total * (shares + share) == total * shares + total * share;
    assert (n + 1) * total == n * total + total;
  }

  lemma CancelFactor(t: int, a: int, b: int)
    requires t > 0 && t * a <= t * b
    ensures a <= b
  {
  }

  lemma CancelTotal(total: int, k: int, shares: int)
    requires total > 0
    requires -(k * total) <= 2 * (total * shares - 100 * total) <= k * total
    ensures -k <= 2 * shares - 200 <= k
  {
    assert total * (2 * shares - 200) == 2 * (total * shares - 100 * total);
    CancelFactor(total, 2 * shares - 200, k);
    assert total * (-k) == -(k * total);
    CancelFactor(total, -k, 2 * shares - 200);
  }

  lemma {:induction false} SharesNearPicks(round: Rounding, options: seq<AnswerOption>, total: int)
    requires Nearest(round) && total > 0
    requires forall o :: 0 <= o < |options| ==> options[o].pickPercentage == Percentage(round, options[o].pickCount, total)
    ensures -(|options| * total) <= 2 * (total * ShareSum(options) - 100 * PickSum(options)) <= |options| * total
  {
    if options != [] {
      var n := |options| - 1;
      var last := options[n];
      SharesNearPicks(round, options[..n], total);
      PercentageNearPicks(round, last.pickCount, total);
      AddShare(total, n, ShareSum(options[..n]), PickSum(options[..n]), last.pickPercentage, last.pickCount);
    }
  }

  /** With any voter at all, the k percentages of a question add up to 100 within k/2. */
  lemma SharesSumTo100(round: Rounding, q: Question)
    requires Nearest(round) && Balanced(q) && Priced(round, q) && q.totalAttempts > 0
    ensures -|q.options| <= 2 * ShareSum(q.options) - 200 <= |q.options|
  {
    SharesNearPicks(round, q.options, q.totalAttempts);
    CancelTotal(q.totalAttempts, |q.options|, ShareSum(q.options));
  }

  // ---------- deltas keep the balance ----------

  lemma {:induction false} RepricedSum(round: Rounding, options: seq<AnswerOption>, changes: map<nat, int>, total: int)
    ensures PickSum(Repriced(round, options, changes, total)) == PickSum(options) + ChangeSum(changes, |options|)
  {
    if options != [] {
      var n := |options| - 1;
      RepricedSum(round, options[..n], changes, total);
      assert Repriced(round, options, changes, total)[..n] == Repriced(round, options[..n], changes, total);
    }
  }

  lemma MovedSound(round: Rounding, q: Question, d: Delta)
    requires Balanced(q) && ChangeSum(d.options, |q.options|) == d.total
    ensures Balanced(Moved(round, q, d)) && Priced(round, Moved(round, q, d))
  {
    RepricedSum(round, q.options, d.options, q.totalAttempts + d.total);
    MovedPriced(round, q, d);
  }

  lemma MovedPriced(round: Rounding, q: Question, d: Delta)
    ensures Priced(round, Moved(round, q, d))
  {
  }

  lemma ApplyDeltaSound(round: Rounding, qs: seq<Question>, d: Delta)
    requires QuestionsSound(round, qs) && BalancedDelta(qs, d)
    ensures QuestionsSound(round, ApplyDelta(round, qs, d)) && SameShape(qs, ApplyDelta(round, qs, d))
  {
    if d.question < |qs| {
      assert Balanced(qs[d.question]);
      MovedSound(round, qs[d.question], d);
      var m := Moved(round, qs[d.question], d);
      assert |m.options| == |qs[d.question].options|;
      var rs := qs[d.question := m];
      forall i | 0 <= i < |rs|
        ensures Balanced(rs[i]) && Priced(round, rs[i]) && |rs[i].options| == |qs[i].options|
      {
        assert i != d.question ==> rs[i] == qs[i];
      }
    }
  }

  ghost predicate SameShape(qs: seq<Question>, rs: seq<Question>) {
    |rs| == |qs| && forall i :: 0 <= i < |qs| ==> |rs[i].options| == |qs[i].options|
  }

  lemma {:induction false} ApplyAllSound(round: Rounding, qs: seq<Question>, ds: seq<Delta>)
    requires QuestionsSound(round, qs) && forall d :: d in ds ==> BalancedDelta(qs, d)
    ensures QuestionsSound(round, ApplyAll(round, qs, ds)) && SameShape(qs, ApplyAll(round, qs, ds))
  {
    if ds != [] {
      var n := |ds| - 1;
      ApplyAllSound(round, qs, ds[..n]);
      assert BalancedDelta(qs, ds[n]);
      ApplyDeltaSound(round, ApplyAll(round, qs, ds[..n]), ds[n]);
    }
  }

  /** A single changed option, or one gaining what another loses. */
  lemma {:induction false} ChangeSumOfMove(to: nat, from: nat, gain: int, loss: int, k: nat)
    requires to != from
    ensures ChangeSum(map[to := gain, from := loss], k) == (if to < k then gain else 0) + (if from < k then loss else 0)
    ensures ChangeSum(map[to := gain], k) == if to < k then gain else 0
  {
    if k > 0 {
      ChangeSumOfMove(to, from, gain, loss, k - 1);
    }
  }

  // ---------- every reachable state ----------

  /** Rows point at options that exist. */
  ghost predicate ChoicesExist(s: Stats) {
    forall k :: k in s.attempts && s.attempts[k].selected.Some? ==> Answerable(s, k.1, s.attempts[k].selected.value)
  }

  ghost predicate TaskBalanced(qs: seq<Question>, t: Task) {
    forall d :: d in t.deltas ==> BalancedDelta(qs, d)
  }

  ghost predicate TasksBalanced(qs: seq<Question>, tasks: seq<Task>) {
    forall i :: 0 <= i < |tasks| ==> TaskBalanced(qs, tasks[i])
  }

  ghost predicate SharesSound(round: Rounding, s: Stats) {
    QuestionsSound(round, s.questions) && ChoicesExist(s) && TasksBalanced(s.questions, s.tasks)
  }

  lemma AnswerDeltaBalanced(s: Stats, u: UserId, q: QuestionId, o: nat)
    requires ChoicesExist(s) && Answerable(s, q, o)
    ensures
      var right := s.questions[q].options[o].isCorrect;
      var d := DeltaFor(q, AttemptOf(s, u, q), right, Some(o));
      && (d.Some? ==> BalancedDelta(s.questions, d.value))
      && ChoicesExist(Log(s, u, q, right, Some(o)))
  {
    var before := AttemptOf(s, u, q);
    var k := |s.questions[q].options|;
    if before.selected.Some? && before.selected.value != o {
      assert (u, q) in s.attempts;
      ChangeSumOfMove(o, before.selected.value, 1, -1, k);
    } else {
      ChangeSumOfMove(o, o + 1, 1, 0, k);
    }
  }

  lemma ShapeKeepsBalance(qs: seq<Question>, rs: seq<Question>, tasks: seq<Task>)
    requires SameShape(qs, rs) && TasksBalanced(qs, tasks)
    ensures TasksBalanced(rs, tasks)
  {
    forall i | 0 <= i < |tasks|
      ensures TaskBalanced(rs, tasks[i])
    {
      assert TaskBalanced(qs, tasks[i]);
    }
  }

  lemma PracticeKeepsShares(round: Rounding, s: Stats, u: UserId, q: QuestionId, o: nat)
    requires SharesSound(round, s)
    ensures SharesSound(round, Practice(round, s, u, q, o))
  {
    if Answerable(s, q, o) {
      AnswerDeltaBalanced(s, u, q, o);
      var right := s.questions[q].options[o].isCorrect;
      var d := DeltaFor(q, AttemptOf(s, u, q), right, Some(o));
      if d.Some? {
        ApplyDeltaSound(round, s.questions, d.value);
      }
      ShapeKeepsBalance(s.questions, Practice(round, s, u, q, o).questions, s.tasks);
    }
  }

  lemma {:induction false} LogTestKeepsShares(round: Rounding, s: Stats, u: UserId, answers: seq<(QuestionId, nat)>)
    requires SharesSound(round, s)
    ensures
      var (t, ds) := LogTest(s, u, answers);
      && t.questions == s.questions && t.tasks == s.tasks && ChoicesExist(t)
      && forall d :: d in ds ==> BalancedDelta(s.questions, d)
    decreases |answers|
  {
    if answers != [] {
      var n := |answers| - 1;
      LogTestKeepsShares(round, s, u, answers[..n]);
      var (t, _) := LogTest(s, u, answers[..n]);
      var (q, o) := answers[n];
      if Answerable(t, q, o) {
        AnswerDeltaBalanced(t, u, q, o);
      }
    }
  }

  lemma DeliverKeepsShares(round: Rounding, s: Stats, i: nat, succeeds: bool)
    requires SharesSound(round, s)
    ensures SharesSound(round, Deliver(round, s, i, succeeds))
  {
    var r := Deliver(round, s, i, succeeds);
    if r != s {
      var task := s.tasks[i];
      assert TaskBalanced(s.questions, task);
      SortedIsPermutation(task.deltas);
      forall d | d in SortedByQuestion(task.deltas)
        ensures BalancedDelta(s.questions, d)
      {
        assert d in multiset(SortedByQuestion(task.deltas));
      }
      ApplyAllSound(round, s.questions, SortedByQuestion(task.deltas));
      assert TasksBalanced(s.questions, r.tasks);
      ShapeKeepsBalance(s.questions, r.questions, r.tasks);
    }
  }

  lemma StepKeepsShares(round: Rounding, s: Stats, step: Step)
    ensures SharesSound(round, s) ==> SharesSound(round, Apply(round, s, step))
  {
    if SharesSound(round, s) {
      match step {
        case DoPractice(u, q, o) => PracticeKeepsShares(round, s, u, q, o);
        case DoPass(u, q) =>
        case DoSubmitTest(u, answers) => LogTestKeepsShares(round, s, u, answers);
        case DoDeliver(i, succeeds) => DeliverKeepsShares(round, s, i, succeeds);
        case DoBookmark(u, q, on) =>
      }
    }
  }

  lemma {:induction false} SharesStaySound(round: Rounding, s: Stats, steps: seq<Step>)
    requires SharesSound(round, s)
    ensures SharesSound(round, Run(round, s, steps))
    decreases |steps|
  {
    if steps != [] {
      StepKeepsShares(round, s, steps[0]);
      SharesStaySound(round, Apply(round, s, steps[0]), steps[1..]);
    }
  }

  lemma {:induction false} NoPicks(options: seq<AnswerOption>)
    requires forall o :: 0 <= o < |options| ==> options[o].pickCount == 0
    ensures PickSum(options) == 0
  {
    if options != [] {
      NoPicks(options[..|options| - 1]);
    }
  }

  /** A bank without answers is where every run starts. */
  lemma BlankIsSound(round: Rounding, s: Stats)
    requires VoteProofs.Blank(s)
    ensures SharesSound(round, s)
  {
    forall i | 0 <= i < |s.questions|
      ensures Balanced(s.questions[i]) && Priced(round, s.questions[i])
    {
      NoPicks(s.questions[i].options);
    }
  }

  /** From an empty bank, in every reachable state: the picks of each question add up to its voters, each
      percentage is within one half of the share of its picks, and the percentages of a question with
      voters add up to 100 within half a point for each option. */
  lemma SharesAlwaysSound(round: Rounding, s: Stats, steps: seq<Step>, i: nat)
    requires Nearest(round) && VoteProofs.Blank(s) && i < |Run(round, s, steps).questions|
    ensures var q := Run(round, s, steps).questions[i]; var total := q.totalAttempts;
      && PickSum(q.options) == total
      && (forall o :: 0 <= o < |q.options| ==>
            && (total == 0 ==> q.options[o].pickPercentage == 0)
            && (total > 0 ==> -total <= 2 * (total * q.options[o].pickPercentage - 100 * q.options[o].pickCount) <= total))
      && (total > 0 ==> -|q.options| <= 2 * ShareSum(q.options) - 200 <= |q.options|)
  {
    BlankIsSound(round, s);
    SharesStaySound(round, s, steps);
    var q := Run(round, s, steps).questions[i];
    assert Balanced(q) && Priced(round, q);
    if q.totalAttempts > 0 {
      SharesSumTo100(round, q);
      forall o | 0 <= o < |q.options|
        ensures var total := q.totalAttempts;
          -total <= 2 * (total * q.options[o].pickPercentage - 100 * q.options[o].pickCount) <= total
      {
        PercentageNearPicks(round, q.options[o].pickCount, q.totalAttempts);
      }
    }
  }
}
