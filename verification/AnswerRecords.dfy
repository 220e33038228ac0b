/** What each step of the statistics writes, told by the answers and the question table alone. */
module AnswerRecords {
  import opened Wrappers
  import opened Votes
  import opened VoteProofs

  type Answer = (QuestionId, nat)

  /** The answer names an option that exists. */
  ghost predicate Recordable(qs: seq<Question>, a: Answer) {
    a.0 < |qs| && a.1 < |qs[a.0].options|
  }

  ghost function Flag(qs: seq<Question>, a: Answer): bool
    requires Recordable(qs, a)
  {
    qs[a.0].options[a.1].isCorrect
  }

  /** One event for each answer that names an option that exists, in order, with that option's flag. */
  ghost function EventsOf(qs: seq<Question>, u: UserId, answers: seq<Answer>): seq<Event> {
    if answers == [] then []
    else
      var n := |answers| - 1;
      EventsOf(qs, u, answers[..n]) + (if Recordable(qs, answers[n]) then [Event(u, answers[n].0, Flag(qs, answers[n]))] else [])
  }

  /** The right, or wrong, answers to a question. */
  ghost function Given(qs: seq<Question>, answers: seq<Answer>, q: QuestionId, right: bool): nat {
    if answers == [] then 0
    else
      var n := |answers| - 1;
      Given(qs, answers[..n], q, right)
        + Bit(answers[n].0 == q && Recordable(qs, answers[n]) && Flag(qs, answers[n]) == right)
  }

  /** The option given last to a question, if any. */
  ghost function Last(qs: seq<Question>, answers: seq<Answer>, q: QuestionId): (o: Option<nat>)
    ensures o.Some? ==> Recordable(qs, (q, o.value))
  {
    if answers == [] then None
    else
      var n := |answers| - 1;
      if answers[n].0 == q && Recordable(qs, answers[n]) then Some(answers[n].1) else Last(qs, answers[..n], q)
  }

  /** The row of a student who gave these answers to a question: it has the option given last and that
      option's flag, and counts the right and the wrong ones. */
  ghost predicate RowRecords(s: Stats, t: Stats, u: UserId, answers: seq<Answer>, q: QuestionId) {
    var before, after, last := AttemptOf(s, u, q), AttemptOf(t, u, q), Last(s.questions, answers, q);
    if last.None? then after == before && ((u, q) in t.attempts <==> (u, q) in s.attempts)
    else
      && (u, q) in t.attempts
      && after.selected == last && after.isCorrect == Flag(s.questions, (q, last.value))
      && after.correct == before.correct + Given(s.questions, answers, q, true)
      && after.incorrect == before.incorrect + Given(s.questions, answers, q, false)
      && after.attempts == before.attempts + Given(s.questions, answers, q, true) + Given(s.questions, answers, q, false)
      && after.bookmarked == before.bookmarked
  }

  /** The answers of one student are recorded, and nothing else happens to rows and events. */
  ghost predicate Records(s: Stats, t: Stats, u: UserId, answers: seq<Answer>) {
    && t.events == s.events + EventsOf(s.questions, u, answers)
    && (forall q: QuestionId :: RowRecords(s, t, u, answers, q))
    && (forall v: UserId, q: QuestionId :: v != u ==> AttemptOf(t, v, q) == AttemptOf(s, v, q) && ((v, q) in t.attempts <==> (v, q) in s.attempts))
  }

  /** One more answer of the same student. */
  lemma OneMoreRecord(s: Stats, t: Stats, u: UserId, answers: seq<Answer>, a: Answer)
    requires Records(s, t, u, answers) && t.questions == s.questions && Recordable(s.questions, a)
    ensures Records(s, Log(t, u, a.0, Flag(s.questions, a), Some(a.1)), u, answers + [a])
  {
    var r := Log(t, u, a.0, Flag(s.questions, a), Some(a.1));
    var more := answers + [a];
    assert more[..|answers|] == answers;
    assert r.events == s.events + EventsOf(s.questions, u, more);
    forall q: QuestionId
      ensures RowRecords(s, r, u, more, q)
    {
      assert RowRecords(s, t, u, answers, q);
      NoneGiven(s.questions, answers, q);
    }
    forall v: UserId, q: QuestionId | v != u
      ensures AttemptOf(r, v, q) == AttemptOf(s, v, q) && ((v, q) in r.attempts <==> (v, q) in s.attempts)
    {
      assert AttemptOf(t, v, q) == AttemptOf(s, v, q);
    }
  }

  lemma {:induction false} NoneGiven(qs: seq<Question>, answers: seq<Answer>, q: QuestionId)
    ensures Last(qs, answers, q).None? ==> Given(qs, answers, q, true) == 0 && Given(qs, answers, q, false) == 0
  {
    if answers != [] {
      NoneGiven(qs, answers[..|answers| - 1], q);
    }
  }

  lemma SkippedRecord(s: Stats, t: Stats, u: UserId, answers: seq<Answer>, a: Answer)
    requires Records(s, t, u, answers) && !Recordable(s.questions, a)
    ensures Records(s, t, u, answers + [a])
  {
    var more := answers + [a];
    assert more[..|answers|] == answers;
    assert EventsOf(s.questions, u, more) == EventsOf(s.questions, u, answers);
    forall q: QuestionId
      ensures RowRecords(s, t, u, more, q)
    {
      assert RowRecords(s, t, u, answers, q);
    }
  }

  lemma NothingRecorded(s: Stats, u: UserId)
    ensures Records(s, s, u, [])
  {
    assert s.events + [] == s.events;
  }

  lemma {:induction false} LogTestRecords(s: Stats, u: UserId, answers: seq<Answer>)
    ensures var (t, _) := LogTest(s, u, answers);
      Records(s, t, u, answers) && t.questions == s.questions && t.tasks == s.tasks
    decreases |answers|
  {
    if answers == [] {
      NothingRecorded(s, u);
    } else {
      var n := |answers| - 1;
      LogTestRecords(s, u, answers[..n]);
      var (t, _) := LogTest(s, u, answers[..n]);
      assert answers == answers[..n] + [answers[n]];
      if Recordable(s.questions, answers[n]) {
        OneMoreRecord(s, t, u, answers[..n], answers[n]);
      } else {
        SkippedRecord(s, t, u, answers[..n], answers[n]);
      }
    }
  }

  /** The submission of a test records every answer that names an option that exists, whether or not the
      student has met the question before; it touches no counter and leaves one task to be applied. */
  lemma SubmissionRecords(s: Stats, u: UserId, answers: seq<Answer>)
    ensures var t := SubmitTest(s, u, answers);
      && Records(s, t, u, answers) && t.questions == s.questions
      && |t.tasks| == |s.tasks| + 1 && t.tasks[..|s.tasks|] == s.tasks && !t.tasks[|s.tasks|].applied
  {
    LogTestRecords(s, u, answers);
    SameRecords(s, LogTest(s, u, answers).0, SubmitTest(s, u, answers), u, answers);
  }

  lemma SameRecords(s: Stats, t: Stats, r: Stats, u: UserId, answers: seq<Answer>)
    requires Records(s, t, u, answers) && r.attempts == t.attempts && r.events == t.events
    ensures Records(s, r, u, answers)
  {
    forall q: QuestionId
      ensures RowRecords(s, r, u, answers, q)
    {
      assert RowRecords(s, t, u, answers, q);
    }
    forall v: UserId, q: QuestionId | v != u
      ensures AttemptOf(r, v, q) == AttemptOf(s, v, q) && ((v, q) in r.attempts <==> (v, q) in s.attempts)
    {
      assert AttemptOf(t, v, q) == AttemptOf(s, v, q);
    }
  }

  /** A practice answer that names an option that exists is recorded, and moves the counters of its question
      by what the student's vote moved, up to a blanked row set right again; any other changes nothing. */
  lemma PracticeRecords(round: Rounding, s: Stats, u: UserId, q: QuestionId, o: nat)
    ensures var t := Practice(round, s, u, q, o);
      && Records(s, t, u, [(q, o)]) && t.tasks == s.tasks && |t.questions| == |s.questions|
      && (!Recordable(s.questions, (q, o)) ==> t == s)
      && (forall p :: 0 <= p < |s.questions| && p != q ==> t.questions[p] == s.questions[p])
  {
    var a := (q, o);
    assert [] + [a] == [a];
    NothingRecorded(s, u);
    if Recordable(s.questions, a) {
      OneMoreRecord(s, s, u, [], a);
      SameRecords(s, Log(s, u, q, Flag(s.questions, a), Some(o)), Practice(round, s, u, q, o), u, [a]);
    } else {
      SkippedRecord(s, s, u, [], a);
    }
  }

  /** An answer without an option to an existing question counts as wrong, keeps the option chosen before
      and touches no counter. */
  lemma PassRecords(s: Stats, u: UserId, q: QuestionId)
    ensures var t := Pass(s, u, q);
      && t.questions == s.questions && t.tasks == s.tasks
      && (q >= |s.questions| ==> t == s)
      && (q < |s.questions| ==>
            var before, after := AttemptOf(s, u, q), AttemptOf(t, u, q);
            && t.events == s.events + [Event(u, q, false)] && (u, q) in t.attempts
            && after.selected == before.selected && !after.isCorrect && after.bookmarked == before.bookmarked
            && after.correct == before.correct && after.incorrect == before.incorrect + 1
            && after.attempts == before.attempts + 1)
      && (forall v: UserId, p: QuestionId :: (v, p) != (u, q) ==> AttemptOf(t, v, p) == AttemptOf(s, v, p))
  {
  }

  /** A bookmark changes the mark of one row and nothing else. */
  lemma BookmarkRecords(s: Stats, u: UserId, q: QuestionId, on: bool)
    ensures var t := Bookmark(s, u, q, on);
      && t.questions == s.questions && t.events == s.events && t.tasks == s.tasks
      && (q >= |s.questions| ==> t == s)
      && (q < |s.questions| ==> AttemptOf(t, u, q) == AttemptOf(s, u, q).(bookmarked := on) && (u, q) in t.attempts)
      && (forall v: UserId, p: QuestionId :: (v, p) != (u, q) ==> AttemptOf(t, v, p) == AttemptOf(s, v, p))
  {
  }

  // ---------- deliveries ----------

  lemma {:induction false} OtherQuestionsKept(round: Rounding, qs: seq<Question>, ds: seq<Delta>, q: QuestionId)
    requires q < |qs| && forall d :: d in ds ==> d.question != q
    ensures |ApplyAll(round, qs, ds)| == |qs| && ApplyAll(round, qs, ds)[q] == qs[q]
  {
    if ds == [] {
    } else {
      OtherQuestionsKept(round, qs, ds[..|ds| - 1], q);
      assert ds[|ds| - 1] in ds;
    }
  }

  /** Every counter has moved by the sum of these deltas. */
  ghost predicate CountersMoved(s: Stats, r: Stats, ds: seq<Delta>) {
    forall q: QuestionId, t: Tally :: ValidTally(s, q, t) ==>
      ValidTally(r, q, t) && Stored(r.questions[q], t) == Stored(s.questions[q], t) + Sum(ds, q, t)
  }

  /** Questions that none of these deltas is about are as they were. */
  ghost predicate OthersKept(s: Stats, r: Stats, ds: seq<Delta>) {
    && |r.questions| == |s.questions|
    && forall q: QuestionId :: q < |s.questions| && (forall d :: d in ds ==> d.question != q) ==> r.questions[q] == s.questions[q]
  }

  lemma BatchMovesCounters(round: Rounding, s: Stats, r: Stats, ds: seq<Delta>)
    requires r.questions == ApplyAll(round, s.questions, SortedByQuestion(ds))
    ensures CountersMoved(s, r, ds)
  {
    forall q: QuestionId, t: Tally | ValidTally(s, q, t)
      ensures ValidTally(r, q, t) && Stored(r.questions[q], t) == Stored(s.questions[q], t) + Sum(ds, q, t)
    {
      SortedBatchAddsSum(round, s.questions, ds, q, t);
    }
  }

  lemma BatchKeepsOthers(round: Rounding, s: Stats, r: Stats, ds: seq<Delta>)
    requires r.questions == ApplyAll(round, s.questions, SortedByQuestion(ds))
    ensures OthersKept(s, r, ds)
  {
    SortedIsPermutation(ds);
    ApplyAllKeepsFlags(round, s.questions, SortedByQuestion(ds));
    forall q: QuestionId | q < |s.questions| && (forall d :: d in ds ==> d.question != q)
      ensures r.questions[q] == s.questions[q]
    {
      forall d | d in SortedByQuestion(ds)
        ensures d.question != q
      {
        assert d in multiset(SortedByQuestion(ds));
      }
      OtherQuestionsKept(round, s.questions, SortedByQuestion(ds), q);
    }
  }

  /** A delivery that succeeds on deltas not yet applied moves every counter by their sum, leaves alone the
      questions that none of them is about, and marks them applied; any other does nothing. */
  lemma DeliveryMovesCounters(round: Rounding, s: Stats, i: nat, succeeds: bool)
    ensures var r := Deliver(round, s, i, succeeds);
      if i < |s.tasks| && !s.tasks[i].applied && succeeds then
        && r.attempts == s.attempts && r.events == s.events
        && r.tasks == s.tasks[i := Task(s.tasks[i].deltas, true)]
        && CountersMoved(s, r, s.tasks[i].deltas) && OthersKept(s, r, s.tasks[i].deltas)
      else r == s
  {
    hide CountersMoved, OthersKept;
    if i < |s.tasks| && !s.tasks[i].applied && succeeds {
      BatchMovesCounters(round, s, Deliver(round, s, i, succeeds), s.tasks[i].deltas);
      BatchKeepsOthers(round, s, Deliver(round, s, i, succeeds), s.tasks[i].deltas);
    }
  }
}
