/** Recording answers and applying statistics as the services do it: in place, one delta at a time,
    retrying what the database refuses.  Every method is proved against the functions on values. */
module StatsService {
  import opened Wrappers
  import opened Votes
  import VoteProofs
  import VoteShares
  import AnswerRecords
  import L = StatsLocks

  /** What can stop an apply: a database error with its number, or a question that is gone. */
  datatype Failure = Operational(errno: int) | Missing

  const DEADLOCK := 1213
  const LOCK_TIMEOUT := 1205
  const MAX_ATTEMPTS: nat := 3

  predicate Retryable(errno: int)
    ensures Retryable(errno) <==> errno in {1205, 1213}
  {
    errno == DEADLOCK || errno == LOCK_TIMEOUT
  }

  /** The database error each try of one delta would meet, if any. */
  type Faults = nat -> Option<int>

  /** Try i is reached: everything before it failed in a retryable way. */
  ghost predicate Reached(faults: Faults, i: nat) {
    i < 3 && forall j :: 0 <= j < i ==> faults(j).Some? && Retryable(faults(j).value)
  }

  /** The options with their new picks, before the percentages follow. */
  ghost function Picked(options: seq<AnswerOption>, changes: map<nat, int>): seq<AnswerOption> {
    seq(|options|, o requires 0 <= o < |options| =>
      options[o].(pickCount := options[o].pickCount + Change(changes, o)))
  }

  /** A step other than an answer without an option keeps full agreement. */
  lemma AgreementKept(round: Rounding, s: Stats, step: Step)
    requires !step.DoPass?
    ensures VoteProofs.Agrees(s) ==> VoteProofs.Agrees(Apply(round, s, step))
  {
    if VoteProofs.Agrees(s) {
      VoteProofs.StepAgreesIff(round, s, step);
    }
  }

  lemma DeliveryKept(round: Rounding, s: Stats, id: nat, succeeds: bool)
    ensures VoteProofs.Agrees(s) ==> VoteProofs.Agrees(Deliver(round, s, id, succeeds))
    ensures VoteShares.SharesSound(round, s) ==> VoteShares.SharesSound(round, Deliver(round, s, id, succeeds))
  {
    AgreementKept(round, s, DoDeliver(id, succeeds));
    VoteShares.StepKeepsShares(round, s, DoDeliver(id, succeeds));
  }

  /** The questions whose answers name an option that exists. */
  ghost function Recorded(qs: seq<Question>, answers: seq<(QuestionId, nat)>): seq<QuestionId> {
    if answers == [] then []
    else
      var n := |answers| - 1;
      Recorded(qs, answers[..n]) + (if AnswerRecords.Recordable(qs, answers[n]) then [answers[n].0] else [])
  }

  /** A practice answer locks the attempt row, and the question only if its statistics move. */
  ghost function LocksOfAnswer(s: Stats, u: UserId, q: QuestionId, o: nat): seq<L.Row> {
    if !AnswerRecords.Recordable(s.questions, (q, o)) then []
    else if AttemptOf(s, u, q).selected == Some(o) then L.Program(L.QuietAnswer(u, q))
    else L.Program(L.PracticeAnswer(u, q))
  }

  /** What one more answer adds. */
  lemma OneMoreRecorded(qs: seq<Question>, answers: seq<(QuestionId, nat)>, i: nat)
    requires i < |answers|
    ensures Recorded(qs, answers[..i + 1]) ==
      if AnswerRecords.Recordable(qs, answers[i]) then Recorded(qs, answers[..i]) + [answers[i].0] else Recorded(qs, answers[..i])
  {
    assert answers[..i + 1][..i] == answers[..i];
    assert Recorded(qs, answers[..i]) + [] == Recorded(qs, answers[..i]);
  }

  lemma NoRows()
    ensures L.QuestionRows([]) == [] && forall u :: L.AttemptRows(u, []) == []
    ensures forall qs :: Recorded(qs, []) == []
  {
  }

  lemma Regroup(a: seq<L.Row>, b: seq<L.Row>, c: seq<L.Row>)
    ensures (a + b) + c == a + (b + c)
  {
  }

  class Service {
    const round: Rounding
    var questions: seq<Question>
    var attempts: map<(UserId, QuestionId), Attempt>
    var events: seq<Event>
    var tasks: seq<Task>
    /** The row locks taken, in order; a try that is rolled back gives its lock up again. */
    ghost var locked: seq<L.Row>

    constructor (round: Rounding, questions: seq<Question>)
      ensures State() == Stats(questions, map[], [], []) && this.round == round && locked == []
    {
      this.round, this.questions := round, questions;
      attempts, events, tasks, locked := map[], [], [], [];
    }

    ghost function State(): Stats
      reads this
    {
      Stats(questions, attempts, events, tasks)
    }

    // ---------- one delta ----------

    /** Adds the option changes of a delta, one option at a time. */
    method AddPicks(d: Delta)
      requires d.question < |questions|
      modifies this`questions
      ensures |questions| == |old(questions)|
      ensures var q := old(questions[d.question]);
        questions == old(questions)[d.question := q.(options := Picked(q.options, d.options))]
    {
      var todo := d.options.Keys;
      ghost var before := questions[d.question];
      while todo != {}
        invariant todo <= d.options.Keys
        invariant |questions| == |old(questions)| && |questions[d.question].options| == |before.options|
        invariant questions == old(questions)[d.question := before.(options := questions[d.question].options)]
        invariant forall o :: 0 <= o < |before.options| ==>
          questions[d.question].options[o] == before.options[o].(pickCount := before.options[o].pickCount + (if o in todo then 0 else Change(d.options, o)))
        decreases |todo|
      {
        var o: nat :| o in todo;
        todo := todo - {o};
        var q := questions[d.question];
        if d.options[o] != 0 && o < |q.options| {
          var changed := q.options[o].(pickCount := q.options[o].pickCount + d.options[o]);
          questions := questions[d.question := q.(options := q.options[o := changed])];
        }
      }
      assert questions[d.question].options == Picked(before.options, d.options);
    }

    /** Recomputes the percentages of a question, writing only those that changed. */
    method Reprice(id: QuestionId)
      requires id < |questions|
      modifies this`questions
      ensures |questions| == |old(questions)|
      ensures var q := old(questions[id]);
        questions == old(questions)[id := q.(options := Repriced(round, q.options, map[], q.totalAttempts))]
    {
      ghost var before := questions[id];
      var total := questions[id].totalAttempts;
      var o := 0;
      while o < |questions[id].options|
        invariant |questions| == |old(questions)| && |questions[id].options| == |before.options|
        invariant 0 <= o <= |before.options|
        invariant questions == old(questions)[id := before.(options := questions[id].options)]
        invariant forall p :: 0 <= p < |before.options| ==>
          questions[id].options[p] ==
          if p < o then before.options[p].(pickPercentage := Percentage(round, before.options[p].pickCount, total))
          else before.options[p]
      {
        var option := questions[id].options[o];
        var share := Percentage(round, option.pickCount, total);
        if option.pickPercentage != share {
          var q := questions[id];
          questions := questions[id := q.(options := q.options[o := option.(pickPercentage := share)])];
        }
        o := o + 1;
      }
      assert questions[id].options == Repriced(round, before.options, map[], total);
    }

    /** One delta under the question's row lock; false when the question is gone. */
    method ApplyQuestionStatDelta(d: Delta) returns (found: bool)
      modifies this`questions, this`locked
      ensures found == (d.question < |old(questions)|)
      ensures locked == old(locked) + (if found then [L.QuestionRow(d.question)] else [])
      ensures questions == ApplyDelta(round, old(questions), d)
    {
      if d.question >= |questions| {
        return false;
      }
      locked := locked + [L.QuestionRow(d.question)];
      found := true;
      ghost var before := questions;
      if d.total != 0 || d.correct != 0 {
        var q := questions[d.question];
        questions := questions[d.question :=
          q.(totalAttempts := q.totalAttempts + d.total, correctAttempts := q.correctAttempts + d.correct)];
      }
      assert questions == before[d.question := before[d.question].(
        totalAttempts := before[d.question].totalAttempts + d.total,
        correctAttempts := before[d.question].correctAttempts + d.correct)];
      AddPicks(d);
      Reprice(d.question);
      assert questions[d.question].options == Moved(round, before[d.question], d).options;
      assert questions == ApplyDelta(round, before, d);
    }

    /** Up to three tries of one delta.  It is applied exactly once or not at all, and it is applied
        exactly when the question exists and a try without a database error is reached. */
    method ApplyOneDeltaWithRetry(d: Delta, faults: Faults) returns (failure: Option<Failure>)
      modifies this`questions, this`locked
      ensures locked == old(locked) + (if failure.None? then [L.QuestionRow(d.question)] else [])
      ensures questions == if failure.None? then ApplyDelta(round, old(questions), d) else old(questions)
      ensures failure.None? <==> d.question < |old(questions)| && exists i :: Reached(faults, i) && faults(i).None?
      ensures failure.Some? && failure.value.Operational? ==>
        exists i :: Reached(faults, i) && faults(i) == Some(failure.value.errno)
                    && (Retryable(failure.value.errno) ==> i == 2)
    {
      var tryNo := 0;
      while true
        invariant questions == old(questions) && locked == old(locked) && Reached(faults, tryNo)
        decreases MAX_ATTEMPTS - tryNo
      {
        var fault := faults(tryNo);
        if fault.None? {
          var found := ApplyQuestionStatDelta(d);
          return if found then None else Some(Missing);
        }
        if !Retryable(fault.value) || tryNo == MAX_ATTEMPTS - 1 {
          return Some(Operational(fault.value));
        }
        tryNo := tryNo + 1;
      }
    }

    /** A batch in ascending question order.  A normal return has applied every delta once, with the
        effect of any other order; an error leaves exactly a prefix of the sorted batch applied. */
    method ApplyQuestionStatsDeltas(ds: seq<Delta>, faults: nat -> Faults) returns (failure: Option<Failure>)
      modifies this`questions, this`locked
      ensures failure.None? ==> questions == ApplyAll(round, old(questions), SortedByQuestion(ds))
      ensures failure.None? ==> questions == ApplyAll(round, old(questions), ds)
      ensures failure.None? ==> locked == old(locked) + L.QuestionRows(SortedByQuestion(ds))
      ensures failure.Some? ==>
        exists k :: 0 <= k < |SortedByQuestion(ds)| && questions == ApplyAll(round, old(questions), SortedByQuestion(ds)[..k])
                    && locked == old(locked) + L.QuestionRows(SortedByQuestion(ds)[..k])
    {
      hide L.QuestionRows;
      var sorted := SortedByQuestion(ds);
      var k := 0;
      NoRows();
      assert locked == locked + [];
      while k < |sorted|
        invariant 0 <= k <= |sorted|
        invariant questions == ApplyAll(round, old(questions), sorted[..k])
        invariant locked == old(locked) + L.QuestionRows(sorted[..k])
      {
        failure := ApplyOneDeltaWithRetry(sorted[k], faults(k));
        if failure.Some? {
          return;
        }
        assert sorted[..k + 1][..k] == sorted[..k] && sorted[..k + 1] == sorted[..k] + [sorted[k]];
        L.OneMoreQuestion(sorted[..k], sorted[k]);
        Regroup(old(locked), L.QuestionRows(sorted[..k]), [L.QuestionRow(sorted[k].question)]);
        k := k + 1;
      }
      failure := None;
      assert sorted[..k] == sorted;
      SortedIsPermutation(ds);
      VoteProofs.OrderIrrelevant(round, old(questions), sorted, ds);
    }

    // ---------- answers ----------

    /** Counts the answer in the locked attempt row, made if need be, and adds the event. */
    method WriteRow(u: UserId, q: QuestionId, isCorrect: bool, selected: Option<nat>) returns (previous: Attempt)
      modifies this`attempts, this`events, this`locked
      ensures previous == AttemptOf(old(State()), u, q) && locked == old(locked) + [L.AttemptRow(u, q)]
      ensures State() == Log(old(State()), u, q, isCorrect, selected)
    {
      locked := locked + [L.AttemptRow(u, q)];
      if (u, q) !in attempts {
        attempts := attempts[(u, q) := NoAttempt];
      }
      previous := attempts[(u, q)];
      var attempt := previous.(attempts := previous.attempts + 1);
      if isCorrect {
        attempt := attempt.(correct := attempt.correct + 1);
      } else {
        attempt := attempt.(incorrect := attempt.incorrect + 1);
      }
      attempt := attempt.(isCorrect := isCorrect);
      if selected.Some? {
        attempt := attempt.(selected := selected);
      }
      attempts := attempts[(u, q) := attempt];
      events := events + [Event(u, q, isCorrect)];
      assert attempts == Log(old(State()), u, q, isCorrect, selected).attempts;
    }

    /** Writes the attempt row and the event, and applies the delta or hands it back. */
    method RecordQuestionResult(u: UserId, q: QuestionId, isCorrect: bool, selected: Option<nat>, deferStats: bool)
      returns (delta: Option<Delta>)
      modifies this`attempts, this`events, this`questions, this`locked
      ensures locked == old(locked) + [L.AttemptRow(u, q)] +
        (if !deferStats && selected.Some? && selected != AttemptOf(old(State()), u, q).selected && q < |old(questions)|
         then [L.QuestionRow(q)] else [])
      ensures delta == if deferStats then DeltaFor(q, AttemptOf(old(State()), u, q), isCorrect, selected) else None
      ensures
        var logged := Log(old(State()), u, q, isCorrect, selected);
        var d := DeltaFor(q, AttemptOf(old(State()), u, q), isCorrect, selected);
        State() == if deferStats || d.None? then logged
                   else logged.(questions := ApplyDelta(round, logged.questions, d.value))
    {
      hide ApplyDelta, Answered;
      var previous := WriteRow(u, q, isCorrect, selected);
      delta := None;
      if selected.Some? && selected != previous.selected {
        var picks: map<nat, int> := map[selected.value := 1];
        var total, correct;
        if previous.selected.Some? {
          picks := picks[previous.selected.value := -1];
          total := 0;
          if previous.isCorrect && !isCorrect {
            correct := -1;
          } else if !previous.isCorrect && isCorrect {
            correct := 1;
          } else {
            correct := 0;
          }
        } else {
          total, correct := 1, if isCorrect then 1 else 0;
        }
        if deferStats {
          delta := Some(Delta(q, total, correct, picks));
        } else {
          var _ := ApplyQuestionStatDelta(Delta(q, total, correct, picks));
        }
      }
    }

    /** A practice answer. */
    method Answer(u: UserId, q: QuestionId, o: nat)
      modifies this`attempts, this`events, this`questions, this`locked
      ensures locked == old(locked) + LocksOfAnswer(old(State()), u, q, o)
      ensures State() == Practice(round, old(State()), u, q, o)
      ensures AnswerRecords.Records(old(State()), State(), u, [(q, o)])
      ensures VoteProofs.Agrees(old(State())) ==> VoteProofs.Agrees(State())
      ensures VoteShares.SharesSound(round, old(State())) ==> VoteShares.SharesSound(round, State())
    {
      hide AnswerRecords.Records;
      AnswerRecords.PracticeRecords(round, State(), u, q, o);
      AgreementKept(round, State(), DoPractice(u, q, o));
      VoteShares.StepKeepsShares(round, State(), DoPractice(u, q, o));
      if q < |questions| && o < |questions[q].options| {
        var _ := RecordQuestionResult(u, q, questions[q].options[o].isCorrect, Some(o), false);
      }
    }

    /** An answer without an option, as a practice session may send it. */
    method AnswerWithoutOption(u: UserId, q: QuestionId)
      modifies this`attempts, this`events, this`questions, this`locked
      ensures locked == old(locked) + (if q < |questions| then L.Program(L.QuietAnswer(u, q)) else [])
      ensures State() == Pass(old(State()), u, q)
      ensures VoteProofs.Agrees(old(State())) && q < |questions| ==>
        (VoteProofs.Agrees(State()) <==>
           var a := AttemptOf(old(State()), u, q); a.selected.None? || !a.isCorrect)
      ensures VoteShares.SharesSound(round, old(State())) ==> VoteShares.SharesSound(round, State())
    {
      if VoteProofs.Agrees(State()) && q < |questions| {
        VoteProofs.PassAgreesIff(round, State(), u, q);
      }
      VoteShares.StepKeepsShares(round, State(), DoPass(u, q));
      if q < |questions| {
        var _ := RecordQuestionResult(u, q, false, None, false);
      }
    }

    /** Every answer of a test is recorded, in order; the deltas are handed back. */
    method LogAnswers(u: UserId, answers: seq<(QuestionId, nat)>) returns (deltas: seq<Delta>)
      modifies this`attempts, this`events, this`questions, this`locked
      ensures (State(), deltas) == LogTest(old(State()), u, answers)
      ensures locked == old(locked) + L.AttemptRows(u, Recorded(old(questions), answers))
    {
      hide L.AttemptRows, DeltaFor, Recorded;
      deltas := [];
      var i := 0;
      NoRows();
      assert answers[..0] == [] && locked == locked + [];
      while i < |answers|
        invariant 0 <= i <= |answers| && questions == old(questions)
        invariant tasks == old(tasks) && (State(), deltas) == LogTest(old(State()), u, answers[..i])
        invariant locked == old(locked) + L.AttemptRows(u, Recorded(questions, answers[..i]))
      {
        assert answers[..i + 1][..i] == answers[..i];
        OneMoreRecorded(questions, answers, i);
        var (q, o) := answers[i];
        if q < |questions| && o < |questions[q].options| {
          L.OneMoreAttempt(u, Recorded(questions, answers[..i]), q);
          Regroup(old(locked), L.AttemptRows(u, Recorded(questions, answers[..i])), [L.AttemptRow(u, q)]);
          assert locked + [L.AttemptRow(u, q)] + [] == locked + [L.AttemptRow(u, q)];
          var delta := RecordQuestionResult(u, q, questions[q].options[o].isCorrect, Some(o), true);
          if delta.Some? {
            deltas := deltas + [delta.value];
          }
        }
        i := i + 1;
      }
      assert answers[..i] == answers;
    }

    /** The submission of a test: every answer is recorded, the statistics are left to a task. */
    method Finalize(ghost attempt: nat, ghost test: nat, u: UserId, answers: seq<(QuestionId, nat)>)
      modifies this`attempts, this`events, this`questions, this`tasks, this`locked
      ensures locked == old(locked) + L.Program(L.Submission(attempt, test, u, Recorded(old(questions), answers)))
      ensures State() == SubmitTest(old(State()), u, answers)
      ensures AnswerRecords.Records(old(State()), State(), u, answers)
      ensures VoteProofs.Agrees(old(State())) ==> VoteProofs.Agrees(State())
      ensures VoteShares.SharesSound(round, old(State())) ==> VoteShares.SharesSound(round, State())
    {
      hide AnswerRecords.Records, LogTest, L.AttemptRows, Recorded;
      AnswerRecords.SubmissionRecords(State(), u, answers);
      AgreementKept(round, State(), DoSubmitTest(u, answers));
      VoteShares.StepKeepsShares(round, State(), DoSubmitTest(u, answers));
      hide VoteProofs.Agrees, VoteShares.SharesSound;
      ghost var rows := L.AttemptRows(u, Recorded(questions, answers));
      Regroup(locked, [L.TestAttemptRow(attempt)], rows);
      Regroup(locked, [L.TestAttemptRow(attempt)] + rows, [L.TestRow(test)]);
      locked := locked + [L.TestAttemptRow(attempt)];
      var deltas := LogAnswers(u, answers);
      locked := locked + [L.TestRow(test)];
      tasks := tasks + [Task(deltas, false)];
    }

    // ---------- the worker ----------

    /** One delivery of a submitted test's statistics: claim, apply and mark in one transaction. */
    method ProcessQuestionStats(id: nat, faults: nat -> Faults) returns (failure: Option<Failure>)
      modifies this`questions, this`tasks, this`locked
      ensures failure.None? && id < |old(tasks)| && !old(tasks[id]).applied ==>
        locked == old(locked) + L.Program(L.StatsWorker(id, old(tasks[id]).deltas))
      ensures State() == Deliver(round, old(State()), id, failure.None?)
      ensures id < |old(tasks)| && old(tasks[id]).applied ==> failure.None? && State() == old(State())
      ensures VoteProofs.Agrees(old(State())) ==> VoteProofs.Agrees(State())
      ensures VoteShares.SharesSound(round, old(State())) ==> VoteShares.SharesSound(round, State())
    {
      hide L.QuestionRows, VoteProofs.Agrees, VoteShares.SharesSound;
      ghost var before := State();
      if id >= |tasks| || tasks[id].applied {
        assert State() == Deliver(round, before, id, true);
        DeliveryKept(round, before, id, true);
        return None;
      }
      Regroup(locked, [L.TestAttemptRow(id)], L.QuestionRows(SortedByQuestion(tasks[id].deltas)));
      locked := locked + [L.TestAttemptRow(id)];
      var savepoint := questions;
      failure := ApplyQuestionStatsDeltas(tasks[id].deltas, faults);
      if failure.Some? {
        questions := savepoint;
      } else {
        tasks := tasks[id := tasks[id].(applied := true)];
      }
      assert State() == Deliver(round, before, id, failure.None?);
      DeliveryKept(round, before, id, failure.None?);
    }
  }
}
