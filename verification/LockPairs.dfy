/** Two transactions that lock rows one after another: exactly when they can come to wait for each
    other, and what that means for two tests of one student submitted at once. */
module LockPairs {
  import V = Votes
  import opened StatsLocks

  ghost predicate Distinct<T(!new)>(s: seq<T>) {
    forall i, j :: 0 <= i < j < |s| ==> s[i] != s[j]
  }

  /** Two rows that p locks in the one order and q in the other. */
  ghost predicate Crossed(p: seq<Row>, q: seq<Row>, a: nat, b: nat, c: nat, d: nat) {
    a < b < |p| && c < d < |q| && p[a] == q[d] && p[b] == q[c]
  }

  ghost predicate OppositeOrders(p: seq<Row>, q: seq<Row>) {
    exists a: nat, b: nat, c: nat, d: nat :: Crossed(p, q, a, b, c, d)
  }

  /** Some schedule leads two transactions into a circle. */
  ghost predicate MayDeadlock(p: seq<Row>, q: seq<Row>) {
    exists moves: seq<Move>, c: seq<nat> :: WaitingCycle(Run(Start([p, q]), moves), c)
  }

  // ---------- a circle of two ----------

  /** A circle between two workers is each waiting for the other. */
  lemma CircleOfTwo(s: System, c: seq<nat>)
    requires Sound(s) && |s.pcs| == 2 && WaitingCycle(s, c)
    ensures WaitsFor(s, 0, 1) && WaitsFor(s, 1, 0)
  {
    assert |c| > 1;
    assert WaitsFor(s, c[0], c[1]);
    if |c| == 2 {
      assert WaitsFor(s, c[1], c[0]);
    } else {
      assert WaitsFor(s, c[1], c[2]);
    }
  }

  lemma CircleCrosses(s: System)
    requires Sound(s) && |s.pcs| == 2 && WaitsFor(s, 0, 1) && WaitsFor(s, 1, 0)
    ensures OppositeOrders(s.programs[0], s.programs[1])
  {
    var p, q := s.programs[0], s.programs[1];
    var b, d := s.pcs[0], s.pcs[1];
    assert p[b] in q[..d] && q[d] in p[..b];
    var c :| 0 <= c < d && q[c] == p[b];
    var a :| 0 <= a < b && p[a] == q[d];
    assert Crossed(p, q, a, b, c, d);
  }

  // ---------- schedules ----------

  ghost function RowSet(p: seq<Row>, from: nat, to: nat): set<Row>
    requires from <= to <= |p|
  {
    set r | r in p[from..to]
  }

  ghost predicate OnlyAcquires(moves: seq<Move>) {
    forall m :: m in moves ==> m.Acquire?
  }

  /** A worker locks its next rows as long as the other holds none of them. */
  lemma {:induction false} LockUpTo(s: System, w: nat, n: nat) returns (moves: seq<Move>, t: System)
    requires Sound(s) && w < |s.pcs| && s.pcs[w] <= n <= |s.programs[w]|
    requires forall i :: s.pcs[w] <= i < n ==> !HeldByOther(s, w, s.programs[w][i])
    ensures Sound(t) && t == Run(s, moves) && t.programs == s.programs && OnlyAcquires(moves)
    ensures t.pcs == s.pcs[w := n] && t.held == s.held[w := s.held[w] + RowSet(s.programs[w], s.pcs[w], n)]
    decreases n - s.pcs[w]
  {
    var p, from := s.programs[w], s.pcs[w];
    if from == n {
      moves, t := [], s;
      assert s.held[w] + RowSet(p, from, n) == s.held[w];
    } else {
      Lock(s, w);
      RunOne(s, Acquire(w));
      var s1 := Apply(s, Acquire(w));
      var more;
      more, t := LockUpTo(s1, w, n);
      moves := [Acquire(w)] + more;
      RunConcat(s, [Acquire(w)], more);
      assert p[from..n] == [p[from]] + p[from + 1..n];
      assert s.held[w] + RowSet(p, from, n) == s.held[w] + {p[from]} + RowSet(p, from + 1, n);
    }
  }

  /** The same at the end of a schedule. */
  lemma LockMore(start: System, before: seq<Move>, s: System, w: nat, n: nat) returns (moves: seq<Move>, t: System)
    requires Sound(start) && s == Run(start, before) && w < |s.pcs| && s.pcs[w] <= n <= |s.programs[w]|
    requires forall i :: s.pcs[w] <= i < n ==> !HeldByOther(s, w, s.programs[w][i])
    ensures Sound(t) && t == Run(start, moves) && t.programs == s.programs
    ensures OnlyAcquires(before) ==> OnlyAcquires(moves)
    ensures t.pcs == s.pcs[w := n] && t.held == s.held[w := s.held[w] + RowSet(s.programs[w], s.pcs[w], n)]
  {
    var more;
    more, t := LockUpTo(s, w, n);
    moves := before + more;
    RunConcat(start, before, more);
  }

  /** A worker gives up all but one of its rows. */
  lemma {:induction false} KeepOne(start: System, before: seq<Move>, s: System, w: nat, r: Row)
    returns (moves: seq<Move>, t: System)
    requires Sound(start) && s == Run(start, before) && w < |s.pcs| && r in s.held[w]
    ensures Sound(t) && t == Run(start, moves) && t == s.(held := s.held[w := {r}])
    decreases |s.held[w]|
  {
    if x: Row :| x in s.held[w] && x != r {
      RunOne(s, Release(w, x));
      RunConcat(start, before, [Release(w, x)]);
      var s1 := Apply(s, Release(w, x));
      assert s1.held[w] == s.held[w] - {x};
      moves, t := KeepOne(start, before + [Release(w, x)], s1, w, r);
    } else {
      moves, t := before, s;
      assert s.held[w] == {r};
    }
  }

  // ---------- locks that may be given up early ----------

  lemma CrossedMayDeadlock(p: seq<Row>, q: seq<Row>, a: nat, b: nat, c: nat, d: nat)
    requires Distinct(p) && Distinct(q) && Crossed(p, q, a, b, c, d)
    ensures MayDeadlock(p, q)
  {
    var s0 := Start([p, q]);
    var m1, s1 := LockMore(s0, [], s0, 0, b);
    assert p[a] in p[0..b];
    var m2, s2 := KeepOne(s0, m1, s1, 0, p[a]);
    var m3, s3 := LockMore(s0, m2, s2, 1, d);
    assert q[c] in q[0..d];
    assert WaitsFor(s3, 0, 1) && WaitsFor(s3, 1, 0);
    assert WaitingCycle(s3, [0, 1]);
  }

  /** Where locks may be given up at any time, two transactions can come to wait for each other exactly
      when they lock two shared rows in opposite orders. */
  lemma MayDeadlockIff(p: seq<Row>, q: seq<Row>)
    requires Distinct(p) && Distinct(q)
    ensures MayDeadlock(p, q) <==> OppositeOrders(p, q)
  {
    if MayDeadlock(p, q) {
      var moves: seq<Move>, c: seq<nat> :| WaitingCycle(Run(Start([p, q]), moves), c);
      var s := Run(Start([p, q]), moves);
      CircleOfTwo(s, c);
      CircleCrosses(s);
    }
    if OppositeOrders(p, q) {
      var a: nat, b: nat, c: nat, d: nat :| Crossed(p, q, a, b, c, d);
      CrossedMayDeadlock(p, q, a, b, c, d);
    }
  }

  // ---------- locks that are held to the end ----------

  /** A lock is given up only when the transaction is through, or rolled back as a whole. */
  ghost predicate HeldToTheEnd(s: System, moves: seq<Move>)
    requires Sound(s)
    decreases |moves|
  {
    if moves == [] then true
    else
      var m := moves[0];
      ApplySound(s, m);
      && (m.Release? && m.worker < |s.pcs| ==> s.pcs[m.worker] == |s.programs[m.worker]|)
      && HeldToTheEnd(Apply(s, m), moves[1..])
  }

  /** Whoever is not through holds everything locked so far. */
  ghost predicate AllHeld(s: System)
    requires WellFormed(s)
  {
    forall w, i :: 0 <= w < |s.pcs| && 0 <= i < s.pcs[w] < |s.programs[w]| ==> s.programs[w][i] in s.held[w]
  }

  lemma {:induction false} RunAllHeld(s: System, moves: seq<Move>)
    requires Sound(s) && AllHeld(s) && HeldToTheEnd(s, moves)
    ensures AllHeld(Run(s, moves))
    decreases |moves|
  {
    if moves != [] {
      ApplySound(s, moves[0]);
      ApplyAllHeld(s, moves[0]);
      RunAllHeld(Apply(s, moves[0]), moves[1..]);
    }
  }

  lemma ApplyAllHeld(s: System, m: Move)
    requires Sound(s) && AllHeld(s)
    requires m.Release? && m.worker < |s.pcs| ==> s.pcs[m.worker] == |s.programs[m.worker]|
    ensures AllHeld(Apply(s, m))
  {
  }

  /** The first rows that p shares with q, and q with p, are different ones. */
  ghost predicate FirstSharedDiffer(p: seq<Row>, q: seq<Row>) {
    exists i: nat, j: nat :: FirstShared(p, q, i) && FirstShared(q, p, j) && p[i] != q[j]
  }

  ghost predicate FirstShared(p: seq<Row>, q: seq<Row>, i: nat) {
    i < |p| && p[i] in q && forall x :: 0 <= x < i ==> p[x] !in q
  }

  ghost predicate MayDeadlockHolding(p: seq<Row>, q: seq<Row>) {
    exists moves: seq<Move>, c: seq<nat> ::
      HeldToTheEnd(Start([p, q]), moves) && WaitingCycle(Run(Start([p, q]), moves), c)
  }

  lemma {:induction false} FindShared(p: seq<Row>, q: seq<Row>, k: nat) returns (i: nat)
    requires k < |p| && p[k] in q
    ensures i <= k && FirstShared(p, q, i)
  {
    i := 0;
    while p[i] !in q
      invariant i <= k && forall x :: 0 <= x < i ==> p[x] !in q
      decreases k - i
    {
      i := i + 1;
    }
  }

  lemma CircleSharesFirst(s: System)
    requires Sound(s) && |s.pcs| == 2 && AllHeld(s) && WaitsFor(s, 0, 1) && WaitsFor(s, 1, 0)
    ensures FirstSharedDiffer(s.programs[0], s.programs[1])
  {
    var p, q := s.programs[0], s.programs[1];
    assert p[s.pcs[0]] in q[..s.pcs[1]] && q[s.pcs[1]] in p[..s.pcs[0]];
    var k :| 0 <= k < s.pcs[0] && p[k] == q[s.pcs[1]];
    var m :| 0 <= m < s.pcs[1] && q[m] == p[s.pcs[0]];
    var i := FindShared(p, q, k);
    var j := FindShared(q, p, m);
    assert p[i] in s.held[0] && q[j] in s.held[1];
    assert s.held[0] !! s.held[1];
  }

  /** While only locks are taken, they are held to the end. */
  lemma {:induction false} AcquiringHolds(s: System, moves: seq<Move>)
    requires Sound(s) && OnlyAcquires(moves)
    ensures HeldToTheEnd(s, moves)
    decreases |moves|
  {
    if moves != [] {
      assert moves[0] in moves;
      ApplySound(s, moves[0]);
      AcquiringHolds(Apply(s, moves[0]), moves[1..]);
    }
  }

  /** Each has locked up to its first shared row. */
  lemma BothAtFirst(p: seq<Row>, q: seq<Row>, i: nat, j: nat) returns (moves: seq<Move>, s: System)
    requires Distinct(p) && Distinct(q) && FirstShared(p, q, i) && FirstShared(q, p, j) && p[i] != q[j]
    ensures s == Run(Start([p, q]), moves) && OnlyAcquires(moves) && s.pcs == [i + 1, j + 1]
    ensures s.held == [RowSet(p, 0, i + 1), RowSet(q, 0, j + 1)]
  {
    var s0 := Start([p, q]);
    var m1, s1 := OneAtFirst(p, q, i);
    forall y | 0 <= y < j + 1
      ensures q[y] !in RowSet(p, 0, i + 1)
    {
      NotAmongFirst(p, q, i, j, y);
    }
    moves, s := LockMore(s0, m1, s1, 1, j + 1);
    assert {} + RowSet(q, 0, j + 1) == RowSet(q, 0, j + 1);
  }

  lemma OneAtFirst(p: seq<Row>, q: seq<Row>, i: nat) returns (moves: seq<Move>, s: System)
    requires Distinct(p) && Distinct(q) && i < |p|
    ensures s == Run(Start([p, q]), moves) && OnlyAcquires(moves) && s.pcs == [i + 1, 0]
    ensures s.held == [RowSet(p, 0, i + 1), {}] && s.programs == [p, q] && WellFormed(s)
  {
    var s0 := Start([p, q]);
    moves, s := LockMore(s0, [], s0, 0, i + 1);
    assert {} + RowSet(p, 0, i + 1) == RowSet(p, 0, i + 1);
    assert s.held[0] == RowSet(p, 0, i + 1) && s.held[1] == {};
  }

  lemma NotAmongFirst(p: seq<Row>, q: seq<Row>, i: nat, j: nat, y: nat)
    requires FirstShared(p, q, i) && FirstShared(q, p, j) && p[i] != q[j] && y <= j
    ensures q[y] !in RowSet(p, 0, i + 1)
  {
    if y == j {
      forall x | 0 <= x < i + 1
        ensures p[x] != q[j]
      {
        assert x < i ==> p[x] !in q;
      }
    } else {
      assert q[y] !in p;
    }
  }

  /** Worker 0 goes on until it needs the first shared row of worker 1. */
  lemma FirstGoesOn(p: seq<Row>, q: seq<Row>, i: nat, j: nat, k: nat, moves: seq<Move>, s: System)
    returns (more: seq<Move>, t: System)
    requires Distinct(p) && Distinct(q) && FirstShared(q, p, j) && i < k < |p| && p[k] == q[j]
    requires s == Run(Start([p, q]), moves) && OnlyAcquires(moves) && s.pcs == [i + 1, j + 1]
    requires s.held == [RowSet(p, 0, i + 1), RowSet(q, 0, j + 1)]
    ensures t == Run(Start([p, q]), more) && OnlyAcquires(more) && t.pcs == [k, j + 1]
    ensures t.held[1] == s.held[1] && s.held[0] <= t.held[0]
  {
    forall x | i + 1 <= x < k
      ensures p[x] !in RowSet(q, 0, j + 1)
    {
      assert p[x] in p && p[x] != p[k];
      forall y | 0 <= y < j + 1
        ensures q[y] != p[x]
      {
        assert y < j ==> q[y] !in p;
      }
    }
    more, t := LockMore(Start([p, q]), moves, s, 0, k);
  }

  lemma FirstSharedMayDeadlock(p: seq<Row>, q: seq<Row>, i: nat, j: nat)
    requires Distinct(p) && Distinct(q) && FirstShared(p, q, i) && FirstShared(q, p, j) && p[i] != q[j]
    ensures MayDeadlockHolding(p, q)
  {
    var k: nat :| k < |p| && p[k] == q[j];
    var m: nat :| m < |q| && q[m] == p[i];
    assert k > i && m > j;
    var m2, s2 := BothAtFirst(p, q, i, j);
    assert p[i] in p[0..i + 1] && q[j] in q[0..j + 1];
    var m3, s3 := FirstGoesOn(p, q, i, j, k, m2, s2);
    SecondIsCaught(p, q, k, m, m3, s3);
  }

  /** Worker 0 needs a row of worker 1, which goes on until it needs one of worker 0. */
  lemma SecondIsCaught(p: seq<Row>, q: seq<Row>, k: nat, m: nat, moves: seq<Move>, s: System)
    requires s == Run(Start([p, q]), moves) && OnlyAcquires(moves) && k < |p| && m < |q|
    requires s.pcs[0] == k && s.pcs[1] <= m && p[k] in s.held[1] && q[m] in s.held[0]
    ensures MayDeadlockHolding(p, q)
  {
    var s0 := Start([p, q]);
    var z := FirstHeld(s, m);
    var more, t := LockMore(s0, moves, s, 1, z);
    AcquiringHolds(s0, more);
    assert WaitsFor(t, 0, 1) && WaitsFor(t, 1, 0);
    assert WaitingCycle(t, [0, 1]);
  }

  /** The first row, from where worker 1 stands, that worker 0 holds. */
  lemma FirstHeld(s: System, m: nat) returns (z: nat)
    requires Sound(s) && |s.pcs| == 2 && s.pcs[1] <= m < |s.programs[1]| && s.programs[1][m] in s.held[0]
    ensures s.pcs[1] <= z <= m && s.programs[1][z] in s.held[0]
    ensures forall i :: s.pcs[1] <= i < z ==> !HeldByOther(s, 1, s.programs[1][i])
  {
    z := s.pcs[1];
    while s.programs[1][z] !in s.held[0]
      invariant s.pcs[1] <= z <= m && forall i :: s.pcs[1] <= i < z ==> s.programs[1][i] !in s.held[0]
      decreases m - z
    {
      z := z + 1;
    }
  }

  /** Where locks are held to the end, two transactions can come to wait for each other exactly when
      the first row that each shares with the other is not the same. */
  lemma MayDeadlockHoldingIff(p: seq<Row>, q: seq<Row>)
    requires Distinct(p) && Distinct(q)
    ensures MayDeadlockHolding(p, q) <==> FirstSharedDiffer(p, q)
  {
    if MayDeadlockHolding(p, q) {
      var moves: seq<Move>, c: seq<nat> :| HeldToTheEnd(Start([p, q]), moves) && WaitingCycle(Run(Start([p, q]), moves), c);
      RunAllHeld(Start([p, q]), moves);
      CircleOfTwo(Run(Start([p, q]), moves), c);
      CircleSharesFirst(Run(Start([p, q]), moves));
    }
    if FirstSharedDiffer(p, q) {
      var i: nat, j: nat :| FirstShared(p, q, i) && FirstShared(q, p, j) && p[i] != q[j];
      FirstSharedMayDeadlock(p, q, i, j);
    }
  }

  // ---------- two tests of one student ----------

  ghost predicate AnsweredInOppositeOrders(a: seq<V.QuestionId>, b: seq<V.QuestionId>) {
    exists i, j, k, l :: 0 <= i < j < |a| && 0 <= k < l < |b| && a[i] == b[l] && a[j] == b[k]
  }

  ghost predicate FirstSharedQuestion(a: seq<V.QuestionId>, b: seq<V.QuestionId>, i: nat) {
    i < |a| && a[i] in b && forall x :: 0 <= x < i ==> a[x] !in b
  }

  ghost predicate FirstSharedQuestionsDiffer(a: seq<V.QuestionId>, b: seq<V.QuestionId>) {
    exists i: nat, j: nat :: FirstSharedQuestion(a, b, i) && FirstSharedQuestion(b, a, j) && a[i] != b[j]
  }

  /** The rows of a submission: its attempt, one row for each answer, its test. */
  ghost predicate RowsOf(p: seq<Row>, u: V.UserId, a: seq<V.QuestionId>) {
    && |p| == |a| + 2 && p[0].TestAttemptRow? && p[|a| + 1].TestRow?
    && forall i :: 0 <= i < |a| ==> p[i + 1] == AttemptRow(u, a[i])
  }

  lemma RowKind(p: seq<Row>, u: V.UserId, a: seq<V.QuestionId>, i: nat)
    requires RowsOf(p, u, a) && i < |p|
    ensures p[i].TestAttemptRow? <==> i == 0
    ensures p[i].TestRow? <==> i == |a| + 1
    ensures 0 < i <= |a| ==> p[i] == AttemptRow(u, a[i - 1])
  {
    if 0 < i <= |a| {
      assert p[i - 1 + 1] == AttemptRow(u, a[i - 1]);
    }
  }

  lemma OppositeRows(p: seq<Row>, q: seq<Row>, u: V.UserId, a: seq<V.QuestionId>, b: seq<V.QuestionId>)
    requires RowsOf(p, u, a) && RowsOf(q, u, b) && p[0] != q[0]
    ensures OppositeOrders(p, q) <==> AnsweredInOppositeOrders(a, b)
  {
    if OppositeOrders(p, q) {
      var i: nat, j: nat, k: nat, l: nat :| Crossed(p, q, i, j, k, l);
      RowKind(p, u, a, i);
      RowKind(p, u, a, j);
      RowKind(q, u, b, k);
      RowKind(q, u, b, l);
      assert a[i - 1] == b[l - 1] && a[j - 1] == b[k - 1];
    }
    if AnsweredInOppositeOrders(a, b) {
      var i, j, k, l :| 0 <= i < j < |a| && 0 <= k < l < |b| && a[i] == b[l] && a[j] == b[k];
      assert Crossed(p, q, i + 1, j + 1, k + 1, l + 1);
    }
  }

  lemma SubmissionRows(attempt: nat, test: nat, u: V.UserId, a: seq<V.QuestionId>)
    requires Distinct(a)
    ensures var p := Program(Submission(attempt, test, u, a));
      Distinct(p) && RowsOf(p, u, a) && p[0] == TestAttemptRow(attempt)
  {
    var p := Program(Submission(attempt, test, u, a));
    forall i, j | 0 <= i < j < |p|
      ensures p[i] != p[j]
    {
      if 0 < i && j <= |a| {
        assert p[i] == AttemptRow(u, a[i - 1]) && p[j] == AttemptRow(u, a[j - 1]);
      }
    }
  }

  /** Two tests of one student submitted at once: if locks could be given up early, they could come to
      wait for each other exactly when two questions they share were answered in opposite orders. */
  lemma SubmissionsMayDeadlockIff(attempts: (nat, nat), tests: (nat, nat), u: V.UserId, a: seq<V.QuestionId>, b: seq<V.QuestionId>)
    requires attempts.0 != attempts.1 && Distinct(a) && Distinct(b)
    ensures MayDeadlock(Program(Submission(attempts.0, tests.0, u, a)), Program(Submission(attempts.1, tests.1, u, b))) <==>
      AnsweredInOppositeOrders(a, b)
  {
    var p, q := Program(Submission(attempts.0, tests.0, u, a)), Program(Submission(attempts.1, tests.1, u, b));
    SubmissionRows(attempts.0, tests.0, u, a);
    SubmissionRows(attempts.1, tests.1, u, b);
    MayDeadlockIff(p, q);
    OppositeRows(p, q, u, a, b);
  }

  lemma SharedRow(p: seq<Row>, q: seq<Row>, u: V.UserId, a: seq<V.QuestionId>, b: seq<V.QuestionId>, i: nat)
    requires RowsOf(p, u, a) && RowsOf(q, u, b) && i < |a|
    ensures p[i + 1] in q <==> a[i] in b
  {
    if a[i] in b {
      var k :| 0 <= k < |b| && b[k] == a[i];
      assert q[k + 1] == p[i + 1];
    }
    if p[i + 1] in q {
      var k :| 0 <= k < |q| && q[k] == p[i + 1];
      assert q[k - 1 + 1] == AttemptRow(u, b[k - 1]);
      assert b[k - 1] == a[i];
    }
  }

  lemma AttemptNotShared(p: seq<Row>, q: seq<Row>, u: V.UserId, a: seq<V.QuestionId>, b: seq<V.QuestionId>)
    requires RowsOf(p, u, a) && RowsOf(q, u, b) && p[0] != q[0]
    ensures p[0] !in q
  {
    forall k | 0 <= k < |q|
      ensures q[k] != p[0]
    {
      if 0 < k <= |b| {
        assert q[k - 1 + 1] == AttemptRow(u, b[k - 1]);
      }
    }
  }

  /** The first shared row is the one of the first shared question, if there is any. */
  lemma FirstSharedRow(p: seq<Row>, q: seq<Row>, u: V.UserId, a: seq<V.QuestionId>, b: seq<V.QuestionId>, i: nat)
    requires RowsOf(p, u, a) && RowsOf(q, u, b) && p[0] != q[0] && i < |a|
    ensures FirstShared(p, q, i + 1) <==> FirstSharedQuestion(a, b, i)
  {
    AttemptNotShared(p, q, u, a, b);
    forall x | 0 <= x < |a|
      ensures p[x + 1] in q <==> a[x] in b
    {
      SharedRow(p, q, u, a, b, x);
    }
    if FirstShared(p, q, i + 1) {
      forall x | 0 <= x < i
        ensures a[x] !in b
      {
        assert p[x + 1] !in q;
      }
    }
    if FirstSharedQuestion(a, b, i) {
      forall x | 0 <= x < i + 1
        ensures p[x] !in q
      {
        if x > 0 {
          assert p[x - 1 + 1] in q <==> a[x - 1] in b;
        }
      }
    }
  }

  lemma FirstSharedRows(p: seq<Row>, q: seq<Row>, u: V.UserId, a: seq<V.QuestionId>, b: seq<V.QuestionId>)
    requires RowsOf(p, u, a) && RowsOf(q, u, b) && p[0] != q[0]
    ensures FirstSharedDiffer(p, q) <==> FirstSharedQuestionsDiffer(a, b)
  {
    if FirstSharedDiffer(p, q) {
      var i: nat, j: nat :| FirstShared(p, q, i) && FirstShared(q, p, j) && p[i] != q[j];
      AttemptNotShared(p, q, u, a, b);
      AttemptNotShared(q, p, u, b, a);
      if i == |a| + 1 {
        LastShared(p, q, u, a, b, i, j);
      } else if j == |b| + 1 {
        LastShared(q, p, u, b, a, j, i);
      } else {
        FirstSharedRow(p, q, u, a, b, i - 1);
        FirstSharedRow(q, p, u, b, a, j - 1);
        assert FirstSharedQuestion(a, b, i - 1) && FirstSharedQuestion(b, a, j - 1) && a[i - 1] != b[j - 1];
      }
    }
    if FirstSharedQuestionsDiffer(a, b) {
      var i: nat, j: nat :| FirstSharedQuestion(a, b, i) && FirstSharedQuestion(b, a, j) && a[i] != b[j];
      FirstSharedRow(p, q, u, a, b, i);
      FirstSharedRow(q, p, u, b, a, j);
      assert FirstShared(p, q, i + 1) && FirstShared(q, p, j + 1) && p[i + 1] != q[j + 1];
    }
  }

  /** Attempts at one test that share no question share only the row of the test. */
  lemma LastShared(p: seq<Row>, q: seq<Row>, u: V.UserId, a: seq<V.QuestionId>, b: seq<V.QuestionId>, i: nat, j: nat)
    requires RowsOf(p, u, a) && RowsOf(q, u, b) && p[0] != q[0]
    requires FirstShared(p, q, i) && FirstShared(q, p, j) && i == |a| + 1
    ensures p[i] == q[j]
  {
    var k: nat :| k < |q| && q[k] == p[i];
    RowKind(p, u, a, i);
    RowKind(q, u, b, k);
    var x: nat :| x < |p| && p[x] == q[j];
    assert p[x] in q;
    RowKind(p, u, a, x);
    RowKind(q, u, b, j);
  }

  /** As the source holds every lock to the end, they can come to wait for each other exactly when the
      first shared question is not the same in both. */
  lemma HoldingSubmissionsMayDeadlockIff(attempts: (nat, nat), tests: (nat, nat), u: V.UserId, a: seq<V.QuestionId>, b: seq<V.QuestionId>)
    requires attempts.0 != attempts.1 && Distinct(a) && Distinct(b)
    ensures
      MayDeadlockHolding(Program(Submission(attempts.0, tests.0, u, a)), Program(Submission(attempts.1, tests.1, u, b))) <==>
        FirstSharedQuestionsDiffer(a, b)
  {
    var p, q := Program(Submission(attempts.0, tests.0, u, a)), Program(Submission(attempts.1, tests.1, u, b));
    SubmissionRows(attempts.0, tests.0, u, a);
    SubmissionRows(attempts.1, tests.1, u, b);
    MayDeadlockHoldingIff(p, q);
    FirstSharedRows(p, q, u, a, b);
  }
}
