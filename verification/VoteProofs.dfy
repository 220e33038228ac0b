/** How far the aggregates agree with the attempts, whatever is answered, deferred, delivered or bookmarked. */
module VoteProofs {
  import opened Wrappers
  import opened Votes

  // ---------- three kinds of tally, treated alike ----------

  /** The students who answered, those who are right, and those who chose one option. */
  datatype Tally = Voters | RightVoters | Pickers(option: nat)

  ghost predicate CountsFor(a: Attempt, t: Tally) {
    match t
    case Voters => a.selected.Some?
    case RightVoters => a.selected.Some? && a.isCorrect
    case Pickers(o) => a.selected == Some(o)
  }

  /** The students whose current answer counts in a tally. */
  ghost function Electorate(attempts: map<(UserId, QuestionId), Attempt>, q: QuestionId, t: Tally): set<(UserId, QuestionId)> {
    set k | k in attempts && k.1 == q && CountsFor(attempts[k], t)
  }

  ghost function Stored(question: Question, t: Tally): int
    requires t.Pickers? ==> t.option < |question.options|
  {
    match t
    case Voters => question.totalAttempts
    case RightVoters => question.correctAttempts
    case Pickers(o) => question.options[o].pickCount
  }

  ghost function Part(d: Delta, q: QuestionId, t: Tally): int {
    if d.question != q then 0
    else
      match t
      case Voters => d.total
      case RightVoters => d.correct
      case Pickers(o) => Change(d.options, o)
  }

  // ---------- a delta is the difference of two ballots ----------

  /** What an answer changes in a tally without any delta: a row that stays with its option, because none
      is given or the same one again, but is no longer right, or is right again. */
  ghost function Drift(before: Attempt, isCorrect: bool, selected: Option<nat>, t: Tally): int {
    if t.RightVoters? && before.selected.Some? && (selected.None? || selected == before.selected)
    then Bit(before.isCorrect) - Bit(isCorrect) else 0
  }

  /** The delta of an answer, with an option or without, moves every tally by what the student's own vote
      moved, up to the drift. */
  lemma DeltaIsVoteDifference(q: QuestionId, before: Attempt, isCorrect: bool, selected: Option<nat>, t: Tally)
    ensures
      var after := Answered(before, isCorrect, selected);
      var d := DeltaFor(q, before, isCorrect, selected);
      (if d.Some? then Part(d.value, q, t) else 0) ==
        Bit(CountsFor(after, t)) - Bit(CountsFor(before, t)) + Drift(before, isCorrect, selected, t)
  {
  }

  /** Two sets that differ at most in k differ in size by what k contributes to each. */
  lemma CountOneKey<T>(earlier: set<T>, later: set<T>, k: T)
    requires earlier - {k} == later - {k}
    ensures |later| == |earlier| + Bit(k in later) - Bit(k in earlier)
  {
    if k in earlier {
      assert |earlier - {k}| == |earlier| - 1;
    } else {
      assert earlier - {k} == earlier;
    }
    if k in later {
      assert |later - {k}| == |later| - 1;
    } else {
      assert later - {k} == later;
    }
  }

  lemma ElectorateAfter(attempts: map<(UserId, QuestionId), Attempt>, u: UserId, q: QuestionId, a: Attempt, r: QuestionId, t: Tally)
    ensures
      var before := if (u, q) in attempts then attempts[(u, q)] else NoAttempt;
      |Electorate(attempts[(u, q) := a], r, t)| ==
        |Electorate(attempts, r, t)| + (if r == q then Bit(CountsFor(a, t)) - Bit(CountsFor(before, t)) else 0)
  {
    var k := (u, q);
    var earlier, later := Electorate(attempts, r, t), Electorate(attempts[k := a], r, t);
    forall x: (UserId, QuestionId)
      ensures x != k ==> (x in later <==> x in earlier)
    {
    }
    assert earlier - {k} == later - {k};
    CountOneKey(earlier, later, k);
  }

  // ---------- sums of deltas ----------

  ghost function Sum(ds: seq<Delta>, q: QuestionId, t: Tally): int {
    if ds == [] then 0 else Sum(ds[..|ds| - 1], q, t) + Part(ds[|ds| - 1], q, t)
  }

  lemma SumAppend(ds: seq<Delta>, d: Delta, q: QuestionId, t: Tally)
    ensures Sum(ds + [d], q, t) == Sum(ds, q, t) + Part(d, q, t)
  {
    assert (ds + [d])[..|ds|] == ds;
  }

  lemma {:induction false} SumRemove(ds: seq<Delta>, i: nat, q: QuestionId, t: Tally)
    requires i < |ds|
    ensures Sum(ds, q, t) == Sum(ds[..i] + ds[i + 1..], q, t) + Part(ds[i], q, t)
  {
    var n := |ds| - 1;
    if i == n {
      assert ds[..i] + ds[i + 1..] == ds[..n];
    } else {
      SumRemove(ds[..n], i, q, t);
      assert ds[..n][..i] + ds[..n][i + 1..] == ds[..i] + ds[i + 1..n];
      assert ds[..i] + ds[i + 1..] == (ds[..i] + ds[i + 1..n]) + [ds[n]];
      SumAppend(ds[..i] + ds[i + 1..n], ds[n], q, t);
    }
  }

  lemma RemoveOne(ds: seq<Delta>, es: seq<Delta>) returns (i: nat)
    requires multiset(ds) == multiset(es) && ds != []
    ensures i < |es| && es[i] == ds[|ds| - 1]
    ensures multiset(ds[..|ds| - 1]) == multiset(es[..i] + es[i + 1..])
  {
    var n := |ds| - 1;
    assert ds == ds[..n] + [ds[n]];
    assert ds[n] in multiset(es);
    i :| 0 <= i < |es| && es[i] == ds[n];
    assert es == es[..i] + [es[i]] + es[i + 1..];
    assert multiset(es[..i] + es[i + 1..]) == multiset(es) - multiset{es[i]};
    assert multiset(ds[..n]) == multiset(ds) - multiset{ds[n]};
  }

  /** The sum of a batch does not depend on its order. */
  lemma {:induction false} SumOfPermutation(ds: seq<Delta>, es: seq<Delta>, q: QuestionId, t: Tally)
    requires multiset(ds) == multiset(es)
    ensures Sum(ds, q, t) == Sum(es, q, t)
    decreases |ds|
  {
    if ds == [] {
      assert |multiset(es)| == 0;
    } else {
      var i := RemoveOne(ds, es);
      SumRemove(es, i, q, t);
      SumOfPermutation(ds[..|ds| - 1], es[..i] + es[i + 1..], q, t);
    }
  }

  lemma ApplyDeltaMoves(round: Rounding, qs: seq<Question>, d: Delta, q: QuestionId, t: Tally)
    requires q < |qs| && (t.Pickers? ==> t.option < |qs[q].options|)
    ensures
      var rs := ApplyDelta(round, qs, d);
      && |rs| == |qs| && |rs[q].options| == |qs[q].options|
      && Stored(rs[q], t) == Stored(qs[q], t) + Part(d, q, t)
  {
  }

  /** Applying a batch adds its sum to every tally. */
  lemma {:induction false} ApplyAllAddsSum(round: Rounding, qs: seq<Question>, ds: seq<Delta>, q: QuestionId, t: Tally)
    requires q < |qs| && (t.Pickers? ==> t.option < |qs[q].options|)
    ensures
      var rs := ApplyAll(round, qs, ds);
      && |rs| == |qs| && |rs[q].options| == |qs[q].options|
      && Stored(rs[q], t) == Stored(qs[q], t) + Sum(ds, q, t)
  {
    if ds != [] {
      ApplyAllAddsSum(round, qs, ds[..|ds| - 1], q, t);
      ApplyDeltaMoves(round, ApplyAll(round, qs, ds[..|ds| - 1]), ds[|ds| - 1], q, t);
    }
  }

  /** The sorted batch adds up to the batch as it was collected: each delta exactly once. */
  lemma SortedBatchAddsSum(round: Rounding, qs: seq<Question>, ds: seq<Delta>, q: QuestionId, t: Tally)
    requires q < |qs| && (t.Pickers? ==> t.option < |qs[q].options|)
    ensures
      var rs := ApplyAll(round, qs, SortedByQuestion(ds));
      && |rs| == |qs| && |rs[q].options| == |qs[q].options|
      && Stored(rs[q], t) == Stored(qs[q], t) + Sum(ds, q, t)
  {
    SortedIsPermutation(ds);
    SumOfPermutation(ds, SortedByQuestion(ds), q, t);
    ApplyAllAddsSum(round, qs, SortedByQuestion(ds), q, t);
  }

  /** Two deltas may change places, even on the same question: percentages follow the last one. */
  lemma DeltasCommute(round: Rounding, qs: seq<Question>, d: Delta, e: Delta)
    ensures ApplyDelta(round, ApplyDelta(round, qs, d), e) == ApplyDelta(round, ApplyDelta(round, qs, e), d)
  {
    if d.question == e.question && d.question < |qs| {
      var q := qs[d.question];
      assert Moved(round, Moved(round, q, d), e).options == Moved(round, Moved(round, q, e), d).options;
    }
  }

  lemma {:induction false} AnyDeltaLast(round: Rounding, qs: seq<Question>, ds: seq<Delta>, i: nat)
    requires i < |ds|
    ensures ApplyAll(round, qs, ds) == ApplyDelta(round, ApplyAll(round, qs, ds[..i] + ds[i + 1..]), ds[i])
  {
    var n := |ds| - 1;
    if i == n {
      assert ds[..i] + ds[i + 1..] == ds[..n];
    } else {
      var rest := ds[..i] + ds[i + 1..n];
      AnyDeltaLast(round, qs, ds[..n], i);
      assert ds[..n][..i] + ds[..n][i + 1..] == rest;
      assert ds[..i] + ds[i + 1..] == rest + [ds[n]];
      assert (rest + [ds[n]])[..|rest|] == rest;
      DeltasCommute(round, ApplyAll(round, qs, rest), ds[i], ds[n]);
    }
  }

  /** A batch leaves the same questions behind in whatever order it is applied. */
  lemma {:induction false} OrderIrrelevant(round: Rounding, qs: seq<Question>, ds: seq<Delta>, es: seq<Delta>)
    requires multiset(ds) == multiset(es)
    ensures ApplyAll(round, qs, ds) == ApplyAll(round, qs, es)
    decreases |ds|
  {
    if ds == [] {
      assert |multiset(es)| == 0;
    } else {
      var i := RemoveOne(ds, es);
      AnyDeltaLast(round, qs, es, i);
      OrderIrrelevant(round, qs, ds[..|ds| - 1], es[..i] + es[i + 1..]);
    }
  }

  ghost function Pending(tasks: seq<Task>, q: QuestionId, t: Tally): int {
    if tasks == [] then 0
    else
      var last := tasks[|tasks| - 1];
      Pending(tasks[..|tasks| - 1], q, t) + (if last.applied then 0 else Sum(last.deltas, q, t))
  }

  lemma {:induction false} PendingDelivered(tasks: seq<Task>, i: nat, q: QuestionId, t: Tally)
    requires i < |tasks| && !tasks[i].applied
    ensures Pending(tasks[i := tasks[i].(applied := true)], q, t) == Pending(tasks, q, t) - Sum(tasks[i].deltas, q, t)
  {
    var n := |tasks| - 1;
    var after := tasks[i := tasks[i].(applied := true)];
    if i == n {
      assert after[..n] == tasks[..n];
    } else {
      assert after[..n] == tasks[..n][i := tasks[i].(applied := true)];
      PendingDelivered(tasks[..n], i, q, t);
    }
  }

  // ---------- agreement ----------

  ghost predicate ValidTally(s: Stats, q: QuestionId, t: Tally) {
    q < |s.questions| && (t.Pickers? ==> t.option < |s.questions[q].options|)
  }

  /** How far a stored counter and the deltas on their way exceed the votes in the attempt rows. */
  ghost function Excess(s: Stats, q: QuestionId, t: Tally): int
    requires ValidTally(s, q, t)
  {
    Stored(s.questions[q], t) + Pending(s.tasks, q, t) - |Electorate(s.attempts, q, t)|
  }

  /** The events of a student and a question. */
  ghost function EventCount(events: seq<Event>, u: UserId, q: QuestionId, right: bool): nat {
    if events == [] then 0
    else
      var e := events[|events| - 1];
      EventCount(events[..|events| - 1], u, q, right) + (if e == Event(u, q, right) then 1 else 0)
  }

  /** An attempt row counts the student's events.  A row that is right has chosen a right option; in the
      strict form it is right exactly when it has. */
  ghost predicate RowAgrees(s: Stats, u: UserId, q: QuestionId, strict: bool) {
    var a := AttemptOf(s, u, q);
    && a.attempts == a.correct + a.incorrect
    && a.correct == EventCount(s.events, u, q, true)
    && a.incorrect == EventCount(s.events, u, q, false)
    && (a.selected.Some? && Answerable(s, q, a.selected.value) && (strict || a.isCorrect) ==>
          a.isCorrect == s.questions[q].options[a.selected.value].isCorrect)
  }

  ghost predicate RowsAgree(s: Stats, strict: bool) {
    forall u: UserId, q: QuestionId :: RowAgrees(s, u, q, strict)
  }

  /** Every stored counter and the deltas still on their way make up the votes in the attempt rows. */
  ghost predicate Agrees(s: Stats) {
    && RowsAgree(s, true)
    && forall q: QuestionId, t: Tally :: ValidTally(s, q, t) ==> Excess(s, q, t) == 0
  }

  lemma AgreesIsLoose(s: Stats)
    requires RowsAgree(s, true)
    ensures RowsAgree(s, false)
  {
    forall u: UserId, q: QuestionId
      ensures RowAgrees(s, u, q, false)
    {
      assert RowAgrees(s, u, q, true);
    }
  }

  // ---------- the answers that leave no delta ----------

  /** The student is right on the question, by a chosen option. */
  ghost predicate IsRight(s: Stats, u: UserId, q: QuestionId) {
    CountsFor(AttemptOf(s, u, q), RightVoters)
  }

  /** The step blanks a right row: an answer without an option. */
  ghost predicate Blanks(s: Stats, step: Step, q: QuestionId) {
    step.DoPass? && step.question == q < |s.questions| && IsRight(s, step.user, q)
  }

  /** The same right option again, on a row that was blanked. */
  ghost predicate RestoresAt(s: Stats, u: UserId, q: QuestionId, o: nat) {
    var a := AttemptOf(s, u, q);
    Answerable(s, q, o) && a.selected == Some(o) && !a.isCorrect && s.questions[q].options[o].isCorrect
  }

  ghost function TestRestores(s: Stats, u: UserId, answers: seq<(QuestionId, nat)>, q: QuestionId): nat
    decreases |answers|
  {
    if answers == [] then 0
    else
      var n := |answers| - 1;
      TestRestores(s, u, answers[..n], q)
        + Bit(answers[n].0 == q && RestoresAt(LogTest(s, u, answers[..n]).0, u, q, answers[n].1))
  }

  /** How many blanked rows of a question a step sets right again. */
  ghost function Restores(s: Stats, step: Step, q: QuestionId): nat {
    match step
    case DoPractice(u, p, o) => Bit(p == q && RestoresAt(s, u, q, o))
    case DoSubmitTest(u, answers) => TestRestores(s, u, answers, q)
    case _ => 0
  }

  // ---------- rows ----------

  lemma LogKeepsRows(s: Stats, u: UserId, q: QuestionId, isCorrect: bool, selected: Option<nat>, strict: bool)
    requires RowsAgree(s, strict) && q < |s.questions|
    requires selected.Some? ==> Answerable(s, q, selected.value) && isCorrect == s.questions[q].options[selected.value].isCorrect
    requires selected.None? ==> !isCorrect && (strict ==> !IsRight(s, u, q))
    ensures RowsAgree(Log(s, u, q, isCorrect, selected), strict)
  {
    var r := Log(s, u, q, isCorrect, selected);
    assert r.events[..|s.events|] == s.events;
    forall v: UserId, p: QuestionId
      ensures RowAgrees(r, v, p, strict)
    {
      assert RowAgrees(s, v, p, strict);
    }
  }

  /** The attempt rows do not depend on the aggregate columns. */
  lemma QuestionsMovedKeepRows(s: Stats, qs: seq<Question>, strict: bool)
    requires RowsAgree(s, strict) && |qs| == |s.questions|
    requires forall q :: 0 <= q < |qs| ==>
      |qs[q].options| == |s.questions[q].options|
      && forall o :: 0 <= o < |qs[q].options| ==> qs[q].options[o].isCorrect == s.questions[q].options[o].isCorrect
    ensures RowsAgree(s.(questions := qs), strict)
  {
    forall u: UserId, q: QuestionId
      ensures RowAgrees(s.(questions := qs), u, q, strict)
    {
      assert RowAgrees(s, u, q, strict);
    }
  }

  lemma {:induction false} ApplyAllKeepsFlags(round: Rounding, qs: seq<Question>, ds: seq<Delta>)
    ensures
      var rs := ApplyAll(round, qs, ds);
      |rs| == |qs| && forall q :: 0 <= q < |rs| ==>
        |rs[q].options| == |qs[q].options|
        && forall o :: 0 <= o < |rs[q].options| ==> rs[q].options[o].isCorrect == qs[q].options[o].isCorrect
  {
    if ds != [] {
      ApplyAllKeepsFlags(round, qs, ds[..|ds| - 1]);
    }
  }

  lemma PracticeKeepsRows(round: Rounding, s: Stats, u: UserId, q: QuestionId, o: nat, strict: bool)
    requires RowsAgree(s, strict)
    ensures RowsAgree(Practice(round, s, u, q, o), strict)
  {
    if Answerable(s, q, o) {
      var right := s.questions[q].options[o].isCorrect;
      LogKeepsRows(s, u, q, right, Some(o), strict);
      QuestionsMovedKeepRows(Log(s, u, q, right, Some(o)), Practice(round, s, u, q, o).questions, strict);
    }
  }

  lemma {:induction false} LogTestKeepsRows(s: Stats, u: UserId, answers: seq<(QuestionId, nat)>, strict: bool)
    requires RowsAgree(s, strict)
    ensures var (r, _) := LogTest(s, u, answers);
      RowsAgree(r, strict) && r.questions == s.questions && r.tasks == s.tasks
    decreases |answers|
  {
    if answers != [] {
      var n := |answers| - 1;
      LogTestKeepsRows(s, u, answers[..n], strict);
      var (t, _) := LogTest(s, u, answers[..n]);
      var (q, o) := answers[n];
      if Answerable(t, q, o) {
        LogKeepsRows(t, u, q, t.questions[q].options[o].isCorrect, Some(o), strict);
      }
    }
  }

  lemma DeliverKeepsRows(round: Rounding, s: Stats, i: nat, succeeds: bool, strict: bool)
    requires RowsAgree(s, strict)
    ensures RowsAgree(Deliver(round, s, i, succeeds), strict)
  {
    var r := Deliver(round, s, i, succeeds);
    if r != s {
      ApplyAllKeepsFlags(round, s.questions, SortedByQuestion(s.tasks[i].deltas));
      QuestionsMovedKeepRows(s, r.questions, strict);
      SameRows(s.(questions := r.questions), r, strict);
    }
  }

  lemma SameRows(s: Stats, r: Stats, strict: bool)
    requires RowsAgree(s, strict) && r.questions == s.questions && r.events == s.events
    requires forall u: UserId, q: QuestionId :: AttemptOf(r, u, q) == AttemptOf(s, u, q).(bookmarked := AttemptOf(r, u, q).bookmarked)
    ensures RowsAgree(r, strict)
  {
    forall u: UserId, q: QuestionId
      ensures RowAgrees(r, u, q, strict)
    {
      assert RowAgrees(s, u, q, strict);
    }
  }

  /** Every step keeps the rows counting their events and right only by a right option; and being right
      whenever the option is, unless it blanks a right row. */
  lemma StepKeepsRows(round: Rounding, s: Stats, step: Step, strict: bool)
    requires RowsAgree(s, strict) && (strict ==> forall q :: !Blanks(s, step, q))
    ensures RowsAgree(Apply(round, s, step), strict)
  {
    match step
    case DoPractice(u, q, o) => PracticeKeepsRows(round, s, u, q, o, strict);
    case DoPass(u, q) =>
      if q < |s.questions| {
        assert strict ==> !Blanks(s, step, q);
        LogKeepsRows(s, u, q, false, None, strict);
      }
    case DoSubmitTest(u, answers) =>
      LogTestKeepsRows(s, u, answers, strict);
      SameRows(LogTest(s, u, answers).0, SubmitTest(s, u, answers), strict);
    case DoDeliver(i, succeeds) => DeliverKeepsRows(round, s, i, succeeds, strict);
    case DoBookmark(u, q, on) => SameRows(s, Bookmark(s, u, q, on), strict);
  }

  // ---------- one answer ----------

  /** One logged answer moves the votes by its delta, less the drift. */
  lemma LogMovesVotes(s: Stats, u: UserId, q: QuestionId, isCorrect: bool, selected: Option<nat>, r: QuestionId, t: Tally)
    ensures
      var a := AttemptOf(s, u, q);
      var d := DeltaFor(q, a, isCorrect, selected);
      |Electorate(Log(s, u, q, isCorrect, selected).attempts, r, t)| ==
        |Electorate(s.attempts, r, t)| + (if d.Some? then Part(d.value, r, t) else 0)
        - (if q == r then Drift(a, isCorrect, selected, t) else 0)
  {
    var a := AttemptOf(s, u, q);
    ElectorateAfter(s.attempts, u, q, Answered(a, isCorrect, selected), r, t);
    DeltaIsVoteDifference(q, a, isCorrect, selected, t);
  }

  /** With an option, the drift is a blanked row set right again. */
  lemma DriftRestores(s: Stats, u: UserId, q: QuestionId, o: nat, t: Tally)
    requires RowAgrees(s, u, q, false) && Answerable(s, q, o)
    ensures Drift(AttemptOf(s, u, q), s.questions[q].options[o].isCorrect, Some(o), t) ==
      if t.RightVoters? then -Bit(RestoresAt(s, u, q, o)) else 0
  {
  }

  lemma PracticeExcess(round: Rounding, s: Stats, u: UserId, q: QuestionId, o: nat, r: QuestionId, t: Tally)
    requires RowsAgree(s, false) && ValidTally(s, r, t)
    ensures var after := Practice(round, s, u, q, o);
      ValidTally(after, r, t)
      && Excess(after, r, t) == Excess(s, r, t) - (if t.RightVoters? then Restores(s, DoPractice(u, q, o), r) else 0)
  {
    if Answerable(s, q, o) {
      var right := s.questions[q].options[o].isCorrect;
      var d := DeltaFor(q, AttemptOf(s, u, q), right, Some(o));
      LogMovesVotes(s, u, q, right, Some(o), r, t);
      assert RowAgrees(s, u, q, false);
      DriftRestores(s, u, q, o, t);
      if d.Some? {
        ApplyDeltaMoves(round, s.questions, d.value, r, t);
      }
    }
  }

  lemma PassExcess(s: Stats, u: UserId, q: QuestionId, r: QuestionId, t: Tally)
    requires ValidTally(s, r, t)
    ensures var after := Pass(s, u, q);
      ValidTally(after, r, t)
      && Excess(after, r, t) == Excess(s, r, t) + (if t.RightVoters? then Bit(Blanks(s, DoPass(u, q), r)) else 0)
  {
    if q < |s.questions| {
      LogMovesVotes(s, u, q, false, None, r, t);
    }
  }

  // ---------- the other steps ----------

  lemma {:induction false} LogTestVotes(s: Stats, u: UserId, answers: seq<(QuestionId, nat)>, r: QuestionId, t: Tally)
    requires RowsAgree(s, false)
    ensures
      var (after, ds) := LogTest(s, u, answers);
      |Electorate(after.attempts, r, t)| ==
        |Electorate(s.attempts, r, t)| + Sum(ds, r, t) + (if t.RightVoters? then TestRestores(s, u, answers, r) else 0)
    decreases |answers|
  {
    if answers != [] {
      var n := |answers| - 1;
      LogTestVotes(s, u, answers[..n], r, t);
      LogTestKeepsRows(s, u, answers[..n], false);
      var (before, ds) := LogTest(s, u, answers[..n]);
      var (q, o) := answers[n];
      if Answerable(before, q, o) {
        var right := before.questions[q].options[o].isCorrect;
        var d := DeltaFor(q, AttemptOf(before, u, q), right, Some(o));
        LogMovesVotes(before, u, q, right, Some(o), r, t);
        assert RowAgrees(before, u, q, false);
        DriftRestores(before, u, q, o, t);
        if d.Some? {
          SumAppend(ds, d.value, r, t);
        }
      }
    }
  }

  lemma SubmitTestExcess(s: Stats, u: UserId, answers: seq<(QuestionId, nat)>, r: QuestionId, t: Tally)
    requires RowsAgree(s, false) && ValidTally(s, r, t)
    ensures var after := SubmitTest(s, u, answers);
      ValidTally(after, r, t)
      && Excess(after, r, t) == Excess(s, r, t) - (if t.RightVoters? then TestRestores(s, u, answers, r) else 0)
  {
    LogTestVotes(s, u, answers, r, t);
    LogTestKeepsRows(s, u, answers, false);
    var after := SubmitTest(s, u, answers);
    assert after.tasks[..|s.tasks|] == s.tasks;
  }

  lemma DeliverExcess(round: Rounding, s: Stats, i: nat, succeeds: bool, r: QuestionId, t: Tally)
    requires ValidTally(s, r, t)
    ensures var after := Deliver(round, s, i, succeeds);
      ValidTally(after, r, t) && Excess(after, r, t) == Excess(s, r, t)
  {
    if Deliver(round, s, i, succeeds) != s {
      SortedBatchAddsSum(round, s.questions, s.tasks[i].deltas, r, t);
      PendingDelivered(s.tasks, i, r, t);
    }
  }

  lemma BookmarkExcess(s: Stats, u: UserId, q: QuestionId, on: bool, r: QuestionId, t: Tally)
    requires ValidTally(s, r, t)
    ensures var after := Bookmark(s, u, q, on);
      ValidTally(after, r, t) && Excess(after, r, t) == Excess(s, r, t)
  {
    ElectorateAfter(s.attempts, u, q, AttemptOf(s, u, q).(bookmarked := on), r, t);
  }

  /** Every step keeps the voters and the picks of every option exact.  Of those who are right it loses
      one when it blanks a right row, and regains one for each blanked row that it sets right again. */
  lemma StepExcess(round: Rounding, s: Stats, step: Step, q: QuestionId, t: Tally)
    requires RowsAgree(s, false) && ValidTally(s, q, t)
    ensures var after := Apply(round, s, step);
      ValidTally(after, q, t)
      && Excess(after, q, t) ==
           Excess(s, q, t) + (if t.RightVoters? then Bit(Blanks(s, step, q)) - Restores(s, step, q) else 0)
  {
    match step
    case DoPractice(u, p, o) => PracticeExcess(round, s, u, p, o, q, t);
    case DoPass(u, p) => PassExcess(s, u, p, q, t);
    case DoSubmitTest(u, answers) => SubmitTestExcess(s, u, answers, q, t);
    case DoDeliver(i, succeeds) => DeliverExcess(round, s, i, succeeds, q, t);
    case DoBookmark(u, p, on) => BookmarkExcess(s, u, p, on, q, t);
  }

  // ---------- histories ----------

  /** How often a history blanks a right row of a question. */
  ghost function BlankCount(round: Rounding, s: Stats, steps: seq<Step>, q: QuestionId): nat
    decreases |steps|
  {
    if steps == [] then 0
    else Bit(Blanks(s, steps[0], q)) + BlankCount(round, Apply(round, s, steps[0]), steps[1..], q)
  }

  /** How often a history sets a blanked row of a question right again, by the option chosen before. */
  ghost function RestoreCount(round: Rounding, s: Stats, steps: seq<Step>, q: QuestionId): nat
    decreases |steps|
  {
    if steps == [] then 0
    else Restores(s, steps[0], q) + RestoreCount(round, Apply(round, s, steps[0]), steps[1..], q)
  }

  lemma {:induction false} RowsStayLoose(round: Rounding, s: Stats, steps: seq<Step>)
    requires RowsAgree(s, false)
    ensures RowsAgree(Run(round, s, steps), false)
    decreases |steps|
  {
    if steps != [] {
      StepKeepsRows(round, s, steps[0], false);
      RowsStayLoose(round, Apply(round, s, steps[0]), steps[1..]);
    }
  }

  /** Whatever mix of practice answers with and without an option, submitted tests, bookmarks and successful,
      failed or repeated deliveries has happened: the voters and the picks of every option are exact, and
      those who are right are exceeded by the rows blanked, less those set right again. */
  lemma {:induction false} ExcessIsExact(round: Rounding, s: Stats, steps: seq<Step>, q: QuestionId, t: Tally)
    requires RowsAgree(s, false) && ValidTally(s, q, t)
    ensures var after := Run(round, s, steps);
      ValidTally(after, q, t)
      && Excess(after, q, t) == Excess(s, q, t)
           + (if t.RightVoters? then BlankCount(round, s, steps, q) - RestoreCount(round, s, steps, q) else 0)
    decreases |steps|
  {
    if steps != [] {
      StepExcess(round, s, steps[0], q, t);
      StepKeepsRows(round, s, steps[0], false);
      ExcessIsExact(round, Apply(round, s, steps[0]), steps[1..], q, t);
    }
  }

  /** The right votes of a question agree after a history exactly when every row blanked in it was set
      right again. */
  lemma RightVotesAgreeIff(round: Rounding, s: Stats, steps: seq<Step>, q: QuestionId)
    requires Agrees(s) && q < |s.questions|
    ensures ValidTally(Run(round, s, steps), q, RightVoters)
    ensures Excess(Run(round, s, steps), q, RightVoters) == 0 <==>
      BlankCount(round, s, steps, q) == RestoreCount(round, s, steps, q)
  {
    AgreesIsLoose(s);
    ExcessIsExact(round, s, steps, q, RightVoters);
  }

  // ---------- full agreement ----------

  /** Where rows are right whenever their option is, there is nothing to set right again. */
  lemma {:induction false} NothingToRestore(s: Stats, u: UserId, answers: seq<(QuestionId, nat)>, q: QuestionId)
    requires RowsAgree(s, true)
    ensures TestRestores(s, u, answers, q) == 0
    decreases |answers|
  {
    if answers != [] {
      var n := |answers| - 1;
      NothingToRestore(s, u, answers[..n], q);
      LogTestKeepsRows(s, u, answers[..n], true);
      assert RowAgrees(LogTest(s, u, answers[..n]).0, u, q, true);
    }
  }

  lemma NoRestores(s: Stats, step: Step, q: QuestionId)
    requires RowsAgree(s, true)
    ensures Restores(s, step, q) == 0
  {
    match step
    case DoPractice(u, _, _) => assert RowAgrees(s, u, q, true);
    case DoSubmitTest(u, answers) => NothingToRestore(s, u, answers, q);
    case _ =>
  }

  /** A step keeps everything in agreement exactly when it blanks no right row. */
  lemma StepAgreesIff(round: Rounding, s: Stats, step: Step)
    requires Agrees(s)
    ensures Agrees(Apply(round, s, step)) <==> forall q :: !Blanks(s, step, q)
  {
    AgreesIsLoose(s);
    var after := Apply(round, s, step);
    forall q: QuestionId, t: Tally | ValidTally(s, q, t)
      ensures ValidTally(after, q, t) && Excess(after, q, t) == if t.RightVoters? then Bit(Blanks(s, step, q)) else 0
    {
      StepExcess(round, s, step, q, t);
      NoRestores(s, step, q);
    }
    if q: QuestionId :| Blanks(s, step, q) {
      assert ValidTally(s, q, RightVoters);
      assert Excess(after, q, RightVoters) == 1;
    } else {
      StepKeepsRows(round, s, step, true);
      SameQuestions(round, s, step);
    }
  }

  lemma SameQuestions(round: Rounding, s: Stats, step: Step)
    ensures forall q: QuestionId, t: Tally :: ValidTally(Apply(round, s, step), q, t) ==> ValidTally(s, q, t)
  {
    match step
    case DoSubmitTest(u, answers) => LogTestKeepsQuestions(s, u, answers);
    case DoDeliver(i, _) =>
      if i < |s.tasks| {
        ApplyAllKeepsFlags(round, s.questions, SortedByQuestion(s.tasks[i].deltas));
      }
    case _ =>
  }

  lemma {:induction false} LogTestKeepsQuestions(s: Stats, u: UserId, answers: seq<(QuestionId, nat)>)
    ensures LogTest(s, u, answers).0.questions == s.questions
    decreases |answers|
  {
    if answers != [] {
      LogTestKeepsQuestions(s, u, answers[..|answers| - 1]);
    }
  }

  /** For an answer without an option: it keeps agreement exactly when the student had chosen no option
      or was not right. */
  lemma PassAgreesIff(round: Rounding, s: Stats, u: UserId, q: QuestionId)
    requires Agrees(s) && q < |s.questions|
    ensures Agrees(Pass(s, u, q)) <==> AttemptOf(s, u, q).selected.None? || !AttemptOf(s, u, q).isCorrect
  {
    StepAgreesIff(round, s, DoPass(u, q));
    assert Blanks(s, DoPass(u, q), q) == IsRight(s, u, q);
  }

  ghost predicate NeverBlanks(round: Rounding, s: Stats, steps: seq<Step>)
    decreases |steps|
  {
    steps == [] ||
    ((forall q :: !Blanks(s, steps[0], q)) && NeverBlanks(round, Apply(round, s, steps[0]), steps[1..]))
  }

  /** As long as no answer without an option comes from a student who was right, everything agrees after
      any history: every stored counter plus the deltas not yet delivered equals the votes in the attempt
      rows, and every row counts its events and is right exactly when its option is. */
  lemma {:induction false} VotesAlwaysAgree(round: Rounding, s: Stats, steps: seq<Step>)
    requires Agrees(s) && NeverBlanks(round, s, steps)
    ensures Agrees(Run(round, s, steps))
    decreases |steps|
  {
    if steps != [] {
      StepAgreesIff(round, s, steps[0]);
      VotesAlwaysAgree(round, Apply(round, s, steps[0]), steps[1..]);
    }
  }

  // ---------- from an empty bank ----------

  /** No answers yet, and all counters at zero. */
  ghost predicate Blank(s: Stats) {
    && s.attempts == map[] && s.events == [] && s.tasks == []
    && forall q :: 0 <= q < |s.questions| ==>
         s.questions[q].totalAttempts == 0 && s.questions[q].correctAttempts == 0
         && forall o :: 0 <= o < |s.questions[q].options| ==>
              s.questions[q].options[o].pickCount == 0 && s.questions[q].options[o].pickPercentage == 0
  }

  lemma BlankAgrees(s: Stats)
    requires Blank(s)
    ensures Agrees(s)
  {
    forall u: UserId, q: QuestionId
      ensures RowAgrees(s, u, q, true)
    {
    }
    forall q: QuestionId, t: Tally | ValidTally(s, q, t)
      ensures Excess(s, q, t) == 0
    {
      assert Electorate(s.attempts, q, t) == {};
    }
  }

  lemma {:induction false} NothingPending(tasks: seq<Task>, q: QuestionId, t: Tally)
    requires forall i :: 0 <= i < |tasks| ==> tasks[i].applied
    ensures Pending(tasks, q, t) == 0
  {
    if tasks != [] {
      NothingPending(tasks[..|tasks| - 1], q, t);
    }
  }

  /** Once every task is delivered, total attempts and picks are the votes themselves, and correct attempts
      exceed those who are right by the rows blanked and not set right again. */
  lemma CountersCatchUp(round: Rounding, s: Stats, steps: seq<Step>, q: QuestionId, t: Tally)
    requires Blank(s) && ValidTally(s, q, t)
    requires forall i :: 0 <= i < |Run(round, s, steps).tasks| ==> Run(round, s, steps).tasks[i].applied
    ensures var after := Run(round, s, steps);
      ValidTally(after, q, t)
      && Stored(after.questions[q], t) == |Electorate(after.attempts, q, t)|
           + (if t.RightVoters? then BlankCount(round, s, steps, q) - RestoreCount(round, s, steps, q) else 0)
  {
    BlankAgrees(s);
    AgreesIsLoose(s);
    ExcessIsExact(round, s, steps, q, t);
    NothingPending(Run(round, s, steps).tasks, q, t);
  }

  /** From an empty bank, a student's attempts at a question are the right and the wrong ones, and
      they are the events of that student and question. */
  lemma AttemptsAreEvents(round: Rounding, s: Stats, steps: seq<Step>, u: UserId, q: QuestionId)
    requires Blank(s)
    ensures var t := Run(round, s, steps); var a := AttemptOf(t, u, q);
      && a.attempts == a.correct + a.incorrect
      && a.correct == EventCount(t.events, u, q, true) && a.incorrect == EventCount(t.events, u, q, false)
  {
    BlankAgrees(s);
    AgreesIsLoose(s);
    RowsStayLoose(round, s, steps);
    assert RowAgrees(Run(round, s, steps), u, q, false);
  }

  // ---------- an example ----------

  /** One question, of which option 0 is right. */
  const ONE_QUESTION: Stats :=
    Stats([Question(0, 0, [AnswerOption(true, 0, 0), AnswerOption(false, 0, 0)])], map[], [], [])

  lemma ThreeSteps(round: Rounding, s: Stats, a: Step, b: Step, c: Step)
    ensures Run(round, s, [a, b, c]) == Apply(round, Apply(round, Apply(round, s, a), b), c)
  {
    var s1 := Apply(round, s, a);
    var s2 := Apply(round, s1, b);
    assert [a, b, c][1..] == [b, c] && [b, c][1..] == [c] && [c][1..] == [];
    assert Run(round, s2, [c]) == Apply(round, s2, c);
    assert Run(round, s1, [b, c]) == Run(round, s2, [c]);
  }

  /** A student answers right, answers without an option and answers wrong: nothing is pending, nobody is
      right, and one correct attempt is stored. */
  lemma BlankedAnswerStaysCounted(round: Rounding, u: UserId)
    ensures
      var t := Run(round, ONE_QUESTION, [DoPractice(u, 0, 0), DoPass(u, 0), DoPractice(u, 0, 1)]);
      && Blank(ONE_QUESTION) && t.tasks == [] && |t.questions| == 1
      && t.questions[0].correctAttempts == 1 && Electorate(t.attempts, 0, RightVoters) == {}
  {
    ThreeSteps(round, ONE_QUESTION, DoPractice(u, 0, 0), DoPass(u, 0), DoPractice(u, 0, 1));
    var s1 := Practice(round, ONE_QUESTION, u, 0, 0);
    var s2 := Pass(s1, u, 0);
    var s3 := Practice(round, s2, u, 0, 1);
    assert s1.attempts == map[(u, 0) := Attempt(Some(0), true, 1, 1, 0, false)];
    assert s2.attempts == map[(u, 0) := Attempt(Some(0), false, 2, 1, 1, false)];
    assert s3.attempts == map[(u, 0) := Attempt(Some(1), false, 3, 1, 2, false)];
  }
}
