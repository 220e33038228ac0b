/** Question statistics with one vote per student (academics/services.py), as functions on values. */
module Votes {
  import opened Wrappers

  type UserId = nat
  type QuestionId = nat

  /** One answer option with its aggregate columns.  The columns are integers, not naturals: a late
      +1 may arrive after the -1 that undoes it. */
  datatype AnswerOption = AnswerOption(isCorrect: bool, pickCount: int, pickPercentage: int)

  /** A question with its aggregate columns; an option is known by its position. */
  datatype Question = Question(totalAttempts: int, correctAttempts: int, options: seq<AnswerOption>)

  /** The one row of a student and a question. */
  datatype Attempt = Attempt(
    selected: Option<nat>, isCorrect: bool, attempts: nat, correct: nat, incorrect: nat, bookmarked: bool)

  const NoAttempt := Attempt(None, false, 0, 0, 0, false)

  datatype Event = Event(user: UserId, question: QuestionId, isCorrect: bool)

  /** A change to one question's aggregates, to be applied now or later. */
  datatype Delta = Delta(question: QuestionId, total: int, correct: int, options: map<nat, int>)

  // ---------- recording an answer ----------

  /** The row after one more answer. */
  function Answered(a: Attempt, isCorrect: bool, selected: Option<nat>): Attempt {
    a.(attempts := a.attempts + 1,
       correct := if isCorrect then a.correct + 1 else a.correct,
       incorrect := if isCorrect then a.incorrect else a.incorrect + 1,
       isCorrect := isCorrect,
       selected := if selected.Some? then selected else a.selected)
  }

  /** The change to the aggregates: none unless another option is now selected. */
  function DeltaFor(q: QuestionId, before: Attempt, isCorrect: bool, selected: Option<nat>): Option<Delta> {
    if selected.None? || selected == before.selected then None
    else if before.selected.Some? then
      Some(Delta(q, 0,
                 if before.isCorrect && !isCorrect then -1 else if !before.isCorrect && isCorrect then 1 else 0,
                 map[selected.value := 1, before.selected.value := -1]))
    else Some(Delta(q, 1, if isCorrect then 1 else 0, map[selected.value := 1]))
  }

  // ---------- applying a delta ----------

  /** How a quotient becomes a whole percentage.  The original divides and rounds doubles, so that a tie
      may go either way; all that is known is Nearest. */
  type Rounding = (int, int) -> int

  /** The result is off by at most one half. */
  ghost predicate Nearest(round: Rounding) {
    forall n, d :: d > 0 ==> -d <= 2 * (d * round(n, d) - n) <= d
  }

  function Percentage(round: Rounding, picks: int, total: int): int {
    if total == 0 then 0
    else if total > 0 then round(100 * picks, total) else round(-100 * picks, -total)
  }

  function Change(options: map<nat, int>, o: nat): int {
    if o in options then options[o] else 0
  }

  function Repriced(round: Rounding, options: seq<AnswerOption>, changes: map<nat, int>, total: int): seq<AnswerOption> {
    seq(|options|, o requires 0 <= o < |options| =>
      var picks := options[o].pickCount + Change(changes, o);
      options[o].(pickCount := picks, pickPercentage := Percentage(round, picks, total)))
  }

  /** The question after a delta: counters moved, every percentage recomputed. */
  function Moved(round: Rounding, q: Question, d: Delta): Question {
    var total := q.totalAttempts + d.total;
    Question(total, q.correctAttempts + d.correct, Repriced(round, q.options, d.options, total))
  }

  function ApplyDelta(round: Rounding, qs: seq<Question>, d: Delta): seq<Question> {
    if d.question < |qs| then qs[d.question := Moved(round, qs[d.question], d)] else qs
  }

  function ApplyAll(round: Rounding, qs: seq<Question>, ds: seq<Delta>): seq<Question> {
    if ds == [] then qs else ApplyDelta(round, ApplyAll(round, qs, ds[..|ds| - 1]), ds[|ds| - 1])
  }

  // ---------- the order of a batch ----------

  predicate Ascending(ds: seq<Delta>) {
    forall i, j :: 0 <= i < j < |ds| ==> ds[i].question <= ds[j].question
  }

  /** Puts d behind the deltas of lower and equal questions. */
  function InsertDelta(ds: seq<Delta>, d: Delta): seq<Delta> {
    if ds == [] || ds[|ds| - 1].question <= d.question then ds + [d]
    else InsertDelta(ds[..|ds| - 1], d) + [ds[|ds| - 1]]
  }

  lemma {:induction false} InsertDeltaKeeps(ds: seq<Delta>, d: Delta)
    ensures multiset(InsertDelta(ds, d)) == multiset(ds) + multiset{d}
  {
    if ds != [] && ds[|ds| - 1].question > d.question {
      InsertDeltaKeeps(ds[..|ds| - 1], d);
      assert ds == ds[..|ds| - 1] + [ds[|ds| - 1]];
    }
  }

  lemma {:induction false} InsertDeltaSorts(ds: seq<Delta>, d: Delta)
    requires Ascending(ds)
    ensures Ascending(InsertDelta(ds, d))
    ensures forall i :: 0 <= i < |InsertDelta(ds, d)| ==>
      InsertDelta(ds, d)[i] == d || (ds != [] && InsertDelta(ds, d)[i].question <= ds[|ds| - 1].question)
  {
    if ds != [] && ds[|ds| - 1].question > d.question {
      InsertDeltaSorts(ds[..|ds| - 1], d);
    }
  }

  /** The deltas in ascending question order. */
  function SortedByQuestion(ds: seq<Delta>): seq<Delta> {
    if ds == [] then [] else InsertDelta(SortedByQuestion(ds[..|ds| - 1]), ds[|ds| - 1])
  }

  /** Sorting a batch loses nothing and adds nothing. */
  lemma {:induction false} SortedIsPermutation(ds: seq<Delta>)
    ensures Ascending(SortedByQuestion(ds)) && multiset(SortedByQuestion(ds)) == multiset(ds)
  {
    if ds != [] {
      var n := |ds| - 1;
      SortedIsPermutation(ds[..n]);
      InsertDeltaSorts(SortedByQuestion(ds[..n]), ds[n]);
      InsertDeltaKeeps(SortedByQuestion(ds[..n]), ds[n]);
      assert ds == ds[..n] + [ds[n]];
    }
  }

  // ---------- the store ----------

  /** The deferred deltas of one submitted test, delivered at least once. */
  datatype Task = Task(deltas: seq<Delta>, applied: bool)

  datatype Stats = Stats(
    questions: seq<Question>, attempts: map<(UserId, QuestionId), Attempt>, events: seq<Event>, tasks: seq<Task>)

  function AttemptOf(s: Stats, u: UserId, q: QuestionId): Attempt {
    if (u, q) in s.attempts then s.attempts[(u, q)] else NoAttempt
  }

  /** Writes the attempt row and the event; the aggregates are left to the delta. */
  function Log(s: Stats, u: UserId, q: QuestionId, isCorrect: bool, selected: Option<nat>): Stats {
    s.(attempts := s.attempts[(u, q) := Answered(AttemptOf(s, u, q), isCorrect, selected)],
       events := s.events + [Event(u, q, isCorrect)])
  }

  /** The answer refers to an existing option. */
  predicate Answerable(s: Stats, q: QuestionId, o: nat) {
    q < |s.questions| && o < |s.questions[q].options|
  }

  /** A practice answer: its delta is applied at once. */
  function Practice(round: Rounding, s: Stats, u: UserId, q: QuestionId, o: nat): Stats {
    if !Answerable(s, q, o) then s
    else
      var isCorrect := s.questions[q].options[o].isCorrect;
      var d := DeltaFor(q, AttemptOf(s, u, q), isCorrect, Some(o));
      var t := Log(s, u, q, isCorrect, Some(o));
      if d.Some? then t.(questions := ApplyDelta(round, t.questions, d.value)) else t
  }

  /** An answer without an option, as a practice session may send it: the row turns wrong and keeps the
      option chosen before, and no delta is made. */
  function Pass(s: Stats, u: UserId, q: QuestionId): Stats {
    if q < |s.questions| then Log(s, u, q, false, None) else s
  }

  /** The answers of one test: each is logged, and the deltas are collected. */
  function LogTest(s: Stats, u: UserId, answers: seq<(QuestionId, nat)>): (Stats, seq<Delta>)
    decreases |answers|
  {
    if answers == [] then (s, [])
    else
      var n := |answers| - 1;
      var (t, ds) := LogTest(s, u, answers[..n]);
      var (q, o) := answers[n];
      if !Answerable(t, q, o) then (t, ds)
      else
        var isCorrect := t.questions[q].options[o].isCorrect;
        var d := DeltaFor(q, AttemptOf(t, u, q), isCorrect, Some(o));
        (Log(t, u, q, isCorrect, Some(o)), if d.Some? then ds + [d.value] else ds)
  }

  function SubmitTest(s: Stats, u: UserId, answers: seq<(QuestionId, nat)>): Stats {
    var (t, ds) := LogTest(s, u, answers);
    t.(tasks := t.tasks + [Task(ds, false)])
  }

  /** One delivery of a task: all of it or, when it fails part-way, none of it; never twice. */
  function Deliver(round: Rounding, s: Stats, i: nat, succeeds: bool): Stats {
    if i >= |s.tasks| || s.tasks[i].applied || !succeeds then s
    else
      s.(questions := ApplyAll(round, s.questions, SortedByQuestion(s.tasks[i].deltas)),
         tasks := s.tasks[i := s.tasks[i].(applied := true)])
  }

  function Bookmark(s: Stats, u: UserId, q: QuestionId, on: bool): Stats {
    if q >= |s.questions| then s
    else s.(attempts := s.attempts[(u, q) := AttemptOf(s, u, q).(bookmarked := on)])
  }

  datatype Step =
    | DoPractice(user: UserId, question: QuestionId, option: nat)
    | DoPass(user: UserId, question: QuestionId)
    | DoSubmitTest(user: UserId, answers: seq<(QuestionId, nat)>)
    | DoDeliver(task: nat, succeeds: bool)
    | DoBookmark(user: UserId, question: QuestionId, on: bool)

  function Apply(round: Rounding, s: Stats, step: Step): Stats {
    match step
    case DoPractice(u, q, o) => Practice(round, s, u, q, o)
    case DoPass(u, q) => Pass(s, u, q)
    case DoSubmitTest(u, answers) => SubmitTest(s, u, answers)
    case DoDeliver(i, succeeds) => Deliver(round, s, i, succeeds)
    case DoBookmark(u, q, on) => Bookmark(s, u, q, on)
  }

  function Run(round: Rounding, s: Stats, steps: seq<Step>): Stats
    decreases |steps|
  {
    if steps == [] then s else Run(round, Apply(round, s, steps[0]), steps[1..])
  }
}
