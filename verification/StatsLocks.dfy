/** Row locks of the statistics writers: who can wait for whom, and why nobody waits in a circle. */
module StatsLocks {
  import opened Votes

  /** The rows that are locked explicitly. */
  datatype Row =
    | TestAttemptRow(id: nat)
    | AttemptRow(user: UserId, question: QuestionId)
    | TestRow(id: nat)
    | QuestionRow(question: QuestionId)

  /** A stats worker, a practice answer with a delta or without one, or the submission of a test. */
  datatype Job =
    | StatsWorker(attempt: nat, deltas: seq<Delta>)
    | PracticeAnswer(user: UserId, question: QuestionId)
    | QuietAnswer(user: UserId, question: QuestionId)
    | Submission(attempt: nat, test: nat, user: UserId, answers: seq<QuestionId>)

  ghost function QuestionRows(ds: seq<Delta>): seq<Row> {
    seq(|ds|, i requires 0 <= i < |ds| => QuestionRow(ds[i].question))
  }

  ghost function AttemptRows(u: UserId, qs: seq<QuestionId>): seq<Row> {
    seq(|qs|, i requires 0 <= i < |qs| => AttemptRow(u, qs[i]))
  }

  lemma OneMoreQuestion(ds: seq<Delta>, d: Delta)
    ensures QuestionRows(ds + [d]) == QuestionRows(ds) + [QuestionRow(d.question)]
  {
  }

  lemma OneMoreAttempt(u: UserId, qs: seq<QuestionId>, q: QuestionId)
    ensures AttemptRows(u, qs + [q]) == AttemptRows(u, qs) + [AttemptRow(u, q)]
  {
  }

  /** The rows a job locks, in the order it locks them. */
  ghost function Program(job: Job): seq<Row> {
    match job
    case StatsWorker(attempt, ds) => [TestAttemptRow(attempt)] + QuestionRows(SortedByQuestion(ds))
    case PracticeAnswer(u, q) => [AttemptRow(u, q), QuestionRow(q)]
    case QuietAnswer(u, q) => [AttemptRow(u, q)]
    case Submission(attempt, test, u, answers) => [TestAttemptRow(attempt)] + AttemptRows(u, answers) + [TestRow(test)]
  }

  // ---------- the lock table ----------

  /** What each worker locks, how far it is, and what it holds. */
  datatype System = System(programs: seq<seq<Row>>, pcs: seq<nat>, held: seq<set<Row>>)

  /** A lock may be given up at any time, so both short transactions and one transaction for the
      whole batch are covered; a restart is a rolled back or redelivered job. */
  datatype Move = Acquire(worker: nat) | Release(worker: nat, row: Row) | Restart(worker: nat)

  ghost function Start(programs: seq<seq<Row>>): System {
    System(programs, seq(|programs|, _ => 0), seq(|programs|, _ => {}))
  }

  ghost predicate WellFormed(s: System) {
    && |s.pcs| == |s.held| == |s.programs|
    && forall w :: 0 <= w < |s.pcs| ==> s.pcs[w] <= |s.programs[w]|
  }

  ghost predicate HeldByOther(s: System, w: nat, r: Row)
    requires WellFormed(s)
  {
    exists v :: 0 <= v < |s.held| && v != w && r in s.held[v]
  }

  ghost function Apply(s: System, m: Move): System
    requires WellFormed(s)
  {
    if m.worker >= |s.pcs| then s
    else
      var w := m.worker;
      match m
      case Acquire(_) =>
        if s.pcs[w] == |s.programs[w]| || HeldByOther(s, w, s.programs[w][s.pcs[w]]) then s
        else s.(pcs := s.pcs[w := s.pcs[w] + 1], held := s.held[w := s.held[w] + {s.programs[w][s.pcs[w]]}])
      case Release(_, r) => s.(held := s.held[w := s.held[w] - {r}])
      case Restart(_) => s.(pcs := s.pcs[w := 0], held := s.held[w := {}])
  }

  /** A worker holds only rows it has asked for, and no row has two holders. */
  ghost predicate Sound(s: System) {
    && WellFormed(s)
    && (forall w, r :: 0 <= w < |s.held| && r in s.held[w] ==> r in s.programs[w][..s.pcs[w]])
    && (forall v, w :: 0 <= v < w < |s.held| ==> s.held[v] !! s.held[w])
  }

  lemma ApplySound(s: System, m: Move)
    requires Sound(s)
    ensures Sound(Apply(s, m)) && Apply(s, m).programs == s.programs
  {
    var t := Apply(s, m);
    if m.worker < |s.pcs| {
      var w := m.worker;
      assert forall v :: 0 <= v < |s.held| && v != w ==> t.held[v] == s.held[v] && t.pcs[v] == s.pcs[v];
      if m.Acquire? && t != s {
        var p, pc := s.programs[w], s.pcs[w];
        assert p[..pc + 1] == p[..pc] + [p[pc]];
        assert t.held[w] == s.held[w] + {p[pc]};
      }
    }
  }

  ghost function Run(s: System, moves: seq<Move>): (t: System)
    requires Sound(s)
    ensures Sound(t) && t.programs == s.programs
    decreases |moves|
  {
    if moves == [] then s
    else
      ApplySound(s, moves[0]);
      Run(Apply(s, moves[0]), moves[1..])
  }

  // ---------- an order of the rows ----------

  datatype Rank = Rank(tier: nat, position: nat)

  ghost predicate Below(a: Rank, b: Rank) {
    a.tier < b.tier || (a.tier == b.tier && a.position < b.position)
  }

  /** A program that never goes back in the order, except to a row it has locked already. */
  ghost predicate Climbs(rank: Row -> Rank, p: seq<Row>) {
    forall i, j :: 0 <= i < j < |p| ==> Below(rank(p[i]), rank(p[j])) || p[i] == p[j]
  }

  ghost predicate AllClimb(rank: Row -> Rank, programs: seq<seq<Row>>) {
    forall w :: 0 <= w < |programs| ==> Climbs(rank, programs[w])
  }

  /** v holds the row that w is waiting for. */
  ghost predicate WaitsFor(s: System, w: nat, v: nat)
    requires WellFormed(s)
  {
    w < |s.pcs| && v < |s.pcs| && v != w && s.pcs[w] < |s.programs[w]| && s.programs[w][s.pcs[w]] in s.held[v]
  }

  ghost predicate Waiting(s: System, w: nat)
    requires WellFormed(s)
  {
    w < |s.pcs| && s.pcs[w] < |s.programs[w]|
  }

  ghost function Wanted(s: System, w: nat): Row
    requires WellFormed(s) && Waiting(s, w)
  {
    s.programs[w][s.pcs[w]]
  }

  /** Whoever is waited for waits higher up. */
  lemma WaitingClimbs(rank: Row -> Rank, s: System, u: nat, v: nat, w: nat)
    requires Sound(s) && AllClimb(rank, s.programs)
    requires WaitsFor(s, u, v) && WaitsFor(s, v, w)
    ensures Below(rank(Wanted(s, u)), rank(Wanted(s, v)))
  {
    var p, pc := s.programs[v], s.pcs[v];
    assert Wanted(s, u) in p[..pc];
    var i :| 0 <= i < pc && p[i] == Wanted(s, u);
    assert Climbs(rank, p);
    assert s.held[v] !! s.held[w];
    assert Wanted(s, u) in s.held[v] && p[pc] in s.held[w];
    assert p[i] != p[pc];
  }

  /** Each worker of the list waits for the next one. */
  ghost predicate WaitingChain(s: System, c: seq<nat>)
    requires WellFormed(s)
  {
    forall i, j :: 0 <= i && j == i + 1 && j < |c| ==> WaitsFor(s, c[i], c[j])
  }

  ghost predicate WaitingCycle(s: System, c: seq<nat>)
    requires WellFormed(s)
  {
    |c| > 0 && WaitingChain(s, c) && WaitsFor(s, c[|c| - 1], c[0])
  }

  lemma {:induction false} ChainClimbs(rank: Row -> Rank, s: System, c: seq<nat>, j: nat)
    requires Sound(s) && AllClimb(rank, s.programs) && WaitingChain(s, c) && 0 < j < |c| - 1
    requires Waiting(s, c[0]) && Waiting(s, c[j])
    ensures Below(rank(Wanted(s, c[0])), rank(Wanted(s, c[j])))
  {
    assert WaitsFor(s, c[j - 1], c[j]) && WaitsFor(s, c[j], c[j + 1]);
    WaitingClimbs(rank, s, c[j - 1], c[j], c[j + 1]);
    if j > 1 {
      ChainClimbs(rank, s, c, j - 1);
    }
  }

  /** With rows locked in one order, no circle of waiting workers exists in any reachable state. */
  lemma NoWaitingCycle(rank: Row -> Rank, programs: seq<seq<Row>>, moves: seq<Move>, c: seq<nat>)
    requires AllClimb(rank, programs)
    ensures !WaitingCycle(Run(Start(programs), moves), c)
  {
    var s := Run(Start(programs), moves);
    if WaitingCycle(s, c) {
      var n := |c|;
      assert n > 1;
      var around := c + [c[0]] + [c[1]];
      assert WaitingChain(s, around) by {
        forall i, j | 0 <= i && j == i + 1 && j < |around|
          ensures WaitsFor(s, around[i], around[j])
        {
          if i < n - 1 {
            assert WaitsFor(s, c[i], c[j]);
          } else if i == n {
            assert WaitsFor(s, c[0], c[1]);
          }
        }
      }
      ChainClimbs(rank, s, around, n);
      assert false;
    }
  }

  // ---------- progress ----------

  /** Every program is through and everything is released. */
  ghost predicate Done(s: System) {
    WellFormed(s) && forall w :: 0 <= w < |s.pcs| ==> s.pcs[w] == |s.programs[w]| && s.held[w] == {}
  }

  /** w can lock its next row, or has locked them all and can commit. */
  ghost predicate CanMove(s: System, w: nat)
    requires WellFormed(s)
  {
    && w < |s.pcs|
    && if s.pcs[w] < |s.programs[w]| then !HeldByOther(s, w, Wanted(s, w)) else s.held[w] != {}
  }

  ghost function Workers(n: nat): (r: set<nat>)
    ensures forall w: nat :: w in r <==> w < n
  {
    if n == 0 then {} else Workers(n - 1) + {n - 1}
  }

  /** Follows the wait-for edges: each worker visited wants a higher row than the one before, so
      none is visited twice and the walk ends at one that can move. */
  lemma {:induction false} FollowWaiting(rank: Row -> Rank, s: System, w: nat, seen: set<nat>) returns (m: nat)
    requires Sound(s) && AllClimb(rank, s.programs) && Waiting(s, w) && w !in seen
    requires forall v :: v in seen ==> Waiting(s, v) && Below(rank(Wanted(s, v)), rank(Wanted(s, w)))
    ensures CanMove(s, m)
    decreases Workers(|s.pcs|) - seen
  {
    if !HeldByOther(s, w, Wanted(s, w)) {
      return w;
    }
    var v :| 0 <= v < |s.held| && v != w && Wanted(s, w) in s.held[v];
    if s.pcs[v] == |s.programs[v]| || !HeldByOther(s, v, Wanted(s, v)) {
      return v;
    }
    var x :| 0 <= x < |s.held| && x != v && Wanted(s, v) in s.held[x];
    WaitingClimbs(rank, s, w, v, x);
    m := FollowWaiting(rank, s, v, seen + {w});
  }

  /** Unless everything is done, some worker can always go on. */
  lemma SomeoneCanMove(rank: Row -> Rank, s: System)
    requires Sound(s) && AllClimb(rank, s.programs) && !Done(s)
    ensures exists w :: CanMove(s, w)
  {
    var w :| 0 <= w < |s.pcs| && !(s.pcs[w] == |s.programs[w]| && s.held[w] == {});
    if s.pcs[w] == |s.programs[w]| {
      assert CanMove(s, w);
    } else {
      var m := FollowWaiting(rank, s, w, {});
    }
  }

  // ---------- the jobs of this system ----------

  /** Test attempts come first, then the rows of students and questions, tests, and questions last,
      each question after those with a lower id.  Within a student, rows follow the given order. */
  ghost function RankOf(order: (UserId, QuestionId) -> nat): Row -> Rank {
    (r: Row) => match r
      case TestAttemptRow(_) => Rank(0, 0)
      case AttemptRow(u, q) => Rank(1, order(u, q))
      case TestRow(_) => Rank(2, 0)
      case QuestionRow(q) => Rank(3, q)
  }

  /** A student's answers come in the student's order. */
  ghost predicate Follows(order: (UserId, QuestionId) -> nat, job: Job) {
    job.Submission? ==>
      forall i, j :: 0 <= i < j < |job.answers| ==> order(job.user, job.answers[i]) < order(job.user, job.answers[j])
  }

  lemma WorkerClimbs(order: (UserId, QuestionId) -> nat, attempt: nat, ds: seq<Delta>)
    ensures Climbs(RankOf(order), Program(StatsWorker(attempt, ds)))
  {
    var rank, p, sorted := RankOf(order), Program(StatsWorker(attempt, ds)), SortedByQuestion(ds);
    SortedIsPermutation(ds);
    hide SortedByQuestion;
    forall i, j | 0 <= i < j < |p|
      ensures Below(rank(p[i]), rank(p[j])) || p[i] == p[j]
    {
      assert p[j] == QuestionRow(sorted[j - 1].question);
      if i > 0 {
        assert p[i] == QuestionRow(sorted[i - 1].question);
        assert sorted[i - 1].question <= sorted[j - 1].question;
      }
    }
  }

  lemma SubmissionClimbs(order: (UserId, QuestionId) -> nat, job: Job)
    requires job.Submission? && Follows(order, job)
    ensures Climbs(RankOf(order), Program(job))
  {
    var rank, p := RankOf(order), Program(job);
    forall i, j | 0 <= i < j < |p|
      ensures Below(rank(p[i]), rank(p[j])) || p[i] == p[j]
    {
      assert 0 < i <= |job.answers| ==> p[i] == AttemptRow(job.user, job.answers[i - 1]);
      assert j <= |job.answers| ==> p[j] == AttemptRow(job.user, job.answers[j - 1]);
      assert j == |job.answers| + 1 ==> p[j] == TestRow(job.test);
    }
  }

  lemma JobClimbs(order: (UserId, QuestionId) -> nat, job: Job)
    requires Follows(order, job)
    ensures Climbs(RankOf(order), Program(job))
  {
    match job
    case StatsWorker(attempt, ds) => WorkerClimbs(order, attempt, ds);
    case PracticeAnswer(_, _) =>
    case QuietAnswer(_, _) =>
    case Submission(attempt, test, u, answers) => SubmissionClimbs(order, job);
  }

  ghost function Programs(jobs: seq<Job>): seq<seq<Row>> {
    seq(|jobs|, i requires 0 <= i < |jobs| => Program(jobs[i]))
  }

  /** Any number of stats workers with any overlapping batches, practice answers, and submissions
      whose answers agree on one order per student: in every reachable state nobody waits in a
      circle, and unless all are done someone can go on. */
  lemma JobsNeverDeadlock(order: (UserId, QuestionId) -> nat, jobs: seq<Job>, moves: seq<Move>)
    requires forall i :: 0 <= i < |jobs| ==> Follows(order, jobs[i])
    ensures var s := Run(Start(Programs(jobs)), moves);
      && (forall c :: !WaitingCycle(s, c))
      && (!Done(s) ==> exists w :: CanMove(s, w))
  {
    var rank, programs := RankOf(order), Programs(jobs);
    forall i | 0 <= i < |programs|
      ensures Climbs(rank, programs[i])
    {
      JobClimbs(order, jobs[i]);
    }
    var s := Run(Start(programs), moves);
    forall c
      ensures !WaitingCycle(s, c)
    {
      NoWaitingCycle(rank, programs, moves, c);
    }
    if !Done(s) {
      SomeoneCanMove(rank, s);
    }
  }

  // ---------- which submissions are covered ----------

  ghost function IndexOf(answers: seq<QuestionId>, q: QuestionId): nat
  {
    if answers == [] || answers[0] == q then 0 else 1 + IndexOf(answers[1..], q)
  }

  lemma {:induction false} IndexOfAt(answers: seq<QuestionId>, i: nat)
    requires i < |answers| && forall a, b :: 0 <= a < b < |answers| ==> answers[a] != answers[b]
    ensures IndexOf(answers, answers[i]) == i
  {
    if i > 0 {
      IndexOfAt(answers[1..], i - 1);
    }
  }

  ghost predicate SubmitsFor(job: Job, u: UserId) {
    job.Submission? && job.user == u
  }

  /** The order in which a student's one submission answers. */
  ghost function OrderOf(jobs: seq<Job>): (UserId, QuestionId) -> nat {
    (u: UserId, q: QuestionId) =>
      if exists i :: 0 <= i < |jobs| && SubmitsFor(jobs[i], u) then
        var i :| 0 <= i < |jobs| && SubmitsFor(jobs[i], u);
        IndexOf(jobs[i].answers, q)
      else 0
  }

  ghost predicate OneEach(jobs: seq<Job>) {
    forall i, j :: 0 <= i < j < |jobs| && jobs[i].Submission? && jobs[j].Submission? ==> jobs[i].user != jobs[j].user
  }

  lemma FollowsOwnOrder(jobs: seq<Job>, i: nat)
    requires OneEach(jobs) && i < |jobs|
    requires jobs[i].Submission? ==>
      forall a, b :: 0 <= a < b < |jobs[i].answers| ==> jobs[i].answers[a] != jobs[i].answers[b]
    ensures Follows(OrderOf(jobs), jobs[i])
  {
    if jobs[i].Submission? {
      var order, u, answers := OrderOf(jobs), jobs[i].user, jobs[i].answers;
      assert SubmitsFor(jobs[i], u);
      forall a | 0 <= a < |answers|
        ensures order(u, answers[a]) == a
      {
        IndexOfAt(answers, a);
      }
    }
  }

  /** As long as no student submits two tests at once, any order of the answers will do. */
  lemma OneSubmissionPerStudent(jobs: seq<Job>, moves: seq<Move>)
    requires OneEach(jobs)
    requires forall i :: 0 <= i < |jobs| && jobs[i].Submission? ==>
      forall a, b :: 0 <= a < b < |jobs[i].answers| ==> jobs[i].answers[a] != jobs[i].answers[b]
    ensures var s := Run(Start(Programs(jobs)), moves);
      && (forall c :: !WaitingCycle(s, c))
      && (!Done(s) ==> exists w :: CanMove(s, w))
  {
    var order := OrderOf(jobs);
    forall i | 0 <= i < |jobs|
      ensures Follows(order, jobs[i])
    {
      FollowsOwnOrder(jobs, i);
    }
    JobsNeverDeadlock(order, jobs, moves);
  }

  lemma {:induction false} RunConcat(s: System, ms: seq<Move>, ns: seq<Move>)
    requires Sound(s)
    ensures Run(s, ms + ns) == Run(Run(s, ms), ns)
    decreases |ms|
  {
    if ms == [] {
      assert ms + ns == ns;
    } else {
      ApplySound(s, ms[0]);
      RunConcat(Apply(s, ms[0]), ms[1..], ns);
      assert (ms + ns)[0] == ms[0] && (ms + ns)[1..] == ms[1..] + ns;
    }
  }

  lemma RunOne(s: System, m: Move)
    requires Sound(s)
    ensures Sound(Apply(s, m)) && Run(s, [m]) == Apply(s, m)
  {
    ApplySound(s, m);
    assert [m][1..] == [];
  }

  /** One step of a worker whose next row is free. */
  lemma Lock(s: System, w: nat)
    requires Sound(s) && Waiting(s, w) && !HeldByOther(s, w, Wanted(s, w))
    ensures var t := Apply(s, Acquire(w));
      Sound(t) && t.programs == s.programs && t.pcs == s.pcs[w := s.pcs[w] + 1] && t.held == s.held[w := s.held[w] + {Wanted(s, w)}]
  {
    ApplySound(s, Acquire(w));
  }

  ghost function Acquires(w: nat, n: nat): seq<Move> {
    if n == 0 then [] else Acquires(w, n - 1) + [Acquire(w)]
  }

  /** Nobody else holds a row that worker w asks for. */
  ghost predicate RowsFree(s: System, w: nat)
    requires WellFormed(s) && w < |s.programs|
  {
    forall v, r :: 0 <= v < |s.held| && v != w && r in s.held[v] ==> r !in s.programs[w]
  }

  /** A worker that is rolled back gives up all it holds; started again, it locks the rows of its program one
      after the other as long as nobody else holds one, and nothing else happens to anybody. */
  lemma {:induction false} RestartGetsThrough(s: System, w: nat, n: nat)
    requires Sound(s) && w < |s.programs| && RowsFree(s, w) && n <= |s.programs[w]|
    ensures
      var t := Run(s, [Restart(w)] + Acquires(w, n));
      && t.programs == s.programs && t.pcs == s.pcs[w := n]
      && |t.held| == |s.held| && (forall v :: 0 <= v < |s.held| && v != w ==> t.held[v] == s.held[v])
      && forall r :: r in t.held[w] <==> r in s.programs[w][..n]
  {
    if n == 0 {
      assert [Restart(w)] + Acquires(w, 0) == [Restart(w)];
      RunOne(s, Restart(w));
    } else {
      RestartGetsThrough(s, w, n - 1);
      var t := Run(s, [Restart(w)] + Acquires(w, n - 1));
      assert [Restart(w)] + Acquires(w, n) == ([Restart(w)] + Acquires(w, n - 1)) + [Acquire(w)];
      RunConcat(s, [Restart(w)] + Acquires(w, n - 1), [Acquire(w)]);
      var row := s.programs[w][n - 1];
      assert Wanted(t, w) == row && row in s.programs[w];
      Lock(t, w);
      RunOne(t, Acquire(w));
      assert s.programs[w][..n] == s.programs[w][..n - 1] + [row];
    }
  }

  /** Without the sort, two stats workers that share two questions may wait for each other. */
  lemma UnsortedBatchesMayDeadlock()
    ensures exists programs: seq<seq<Row>>, moves: seq<Move>, c: seq<nat> ::
      && programs == [[QuestionRow(1), QuestionRow(2)], [QuestionRow(2), QuestionRow(1)]]
      && WaitingCycle(Run(Start(programs), moves), c)
  {
    var programs := [[QuestionRow(1), QuestionRow(2)], [QuestionRow(2), QuestionRow(1)]];
    var s0 := Start(programs);
    RunOne(s0, Acquire(0));
    Lock(s0, 0);
    var s1 := Apply(s0, Acquire(0));
    assert s1.held[0] == {QuestionRow(1)} && s1.held[1] == {};
    RunOne(s1, Acquire(1));
    Lock(s1, 1);
    var s2 := Apply(s1, Acquire(1));
    assert s2.held[0] == {QuestionRow(1)} && s2.held[1] == {QuestionRow(2)};
    RunConcat(s0, [Acquire(0)], [Acquire(1)]);
    assert WaitsFor(s2, 0, 1) && WaitsFor(s2, 1, 0);
    assert WaitingCycle(s2, [0, 1]);
  }
}
