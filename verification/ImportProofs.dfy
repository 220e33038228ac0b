/** What any sequence of import runs, each cut off anywhere, keeps and achieves. */
module ImportProofs {
  import opened Wrappers
  import opened ImportTypes
  import opened ImportRun

  // ---------- finished rows ----------

  /** How many rows have a status of this kind. */
  ghost function CountWhere(rows: seq<ImportRow>, kind: RowStatus -> bool): nat {
    if rows == [] then 0
    else CountWhere(rows[..|rows| - 1], kind) + (if kind(rows[|rows| - 1].status) then 1 else 0)
  }

  lemma {:induction false} CountUpdate(rows: seq<ImportRow>, kind: RowStatus -> bool, i: nat, row: ImportRow)
    requires i < |rows|
    ensures CountWhere(rows[i := row], kind) ==
      CountWhere(rows, kind) + Bit(kind(row.status)) - Bit(kind(rows[i].status))
  {
    var n := |rows| - 1;
    if i < n {
      CountUpdate(rows[..n], kind, i, row);
      assert rows[i := row][..n] == rows[..n][i := row];
    } else {
      assert rows[i := row][..n] == rows[..n];
    }
  }

  ghost predicate SameStatuses(rows: seq<ImportRow>, others: seq<ImportRow>) {
    |rows| == |others| && forall i :: 0 <= i < |rows| ==> rows[i].status == others[i].status
  }

  lemma {:induction false} SameStatusesSameCount(rows: seq<ImportRow>, others: seq<ImportRow>, kind: RowStatus -> bool)
    requires SameStatuses(rows, others)
    ensures CountWhere(rows, kind) == CountWhere(others, kind)
  {
    if rows != [] {
      SameStatusesSameCount(rows[..|rows| - 1], others[..|rows| - 1], kind);
    }
  }

  const FINISHED: RowStatus -> bool := s => s in {Error, Imported, Skipped}
  const IMPORTED: RowStatus -> bool := s => s == Imported

  ghost function Finished(rows: seq<ImportRow>): nat {
    CountWhere(rows, FINISHED)
  }

  /** Only row i may have a new status, and rows keep their warnings unless it is theirs. */
  ghost predicate OnlyRow(rows: seq<ImportRow>, others: seq<ImportRow>, i: nat) {
    |rows| == |others| && forall j :: 0 <= j < |rows| && j != i ==>
      others[j].status == rows[j].status && others[j].warnings == rows[j].warnings
  }

  ghost function Total(c: Counts): nat {
    c.created + c.failed + c.skipped
  }

  lemma ReplacedKeepsStatuses(p: Progress, row: ImportRow, referenced: set<nat>)
    ensures var q := Replaced(p, row, referenced);
      && SameStatuses(p.rows, q.rows) && Finished(q.rows) == Finished(p.rows)
      && q.counts == p.counts && q.stored == p.stored && q.unflushed == p.unflushed
      && forall j :: 0 <= j < |p.rows| ==> q.rows[j].warnings == p.rows[j].warnings
  {
    SameStatusesSameCount(p.rows, Replaced(p, row, referenced).rows, FINISHED);
  }

  /** Handling a row is: perhaps forgetting a question, then writing this row and counting it once. */
  lemma HandledWritesRow(p: Progress, row: ImportRow, i: nat, fault: Fault, referenced: set<nat>)
    requires i < |p.rows|
    ensures var q := Handled(p, row, i, fault, referenced);
      && |q.rows| == |p.rows| && Terminal(q.rows[i])
      && (q.rows == p.rows[i := q.rows[i]] || q.rows == Replaced(p, row, referenced).rows[i := q.rows[i]])
      && Total(q.counts) == Total(p.counts) + 1 && q.stored == p.stored && q.unflushed == p.unflushed
  {
  }

  /** A row that is handled is finished, counts once, and no other row changes its status. */
  lemma HandledFinishesRow(p: Progress, row: ImportRow, i: nat, fault: Fault, referenced: set<nat>)
    requires i < |p.rows| && !Terminal(p.rows[i])
    ensures var q := Handled(p, row, i, fault, referenced);
      && OnlyRow(p.rows, q.rows, i) && Terminal(q.rows[i])
      && Finished(q.rows) == Finished(p.rows) + 1 && Total(q.counts) == Total(p.counts) + 1
      && q.stored == p.stored && q.unflushed == p.unflushed
  {
    HandledWritesRow(p, row, i, fault, referenced);
    ReplacedKeepsStatuses(p, row, referenced);
    var q, d := Handled(p, row, i, fault, referenced), Replaced(p, row, referenced).rows;
    CountUpdate(p.rows, FINISHED, i, q.rows[i]);
    CountUpdate(d, FINISHED, i, q.rows[i]);
  }

  lemma CutoffKeepsStatuses(p: Progress, row: ImportRow, i: nat, fault: Fault, referenced: set<nat>, stage: Stage)
    requires i < |p.rows| && stage != AfterSave
    ensures var q := Cutoff(p, row, i, fault, referenced, stage);
      && SameStatuses(p.rows, q.rows) && q.stored == p.stored
      && forall j :: 0 <= j < |p.rows| ==> q.rows[j].warnings == p.rows[j].warnings
  {
  }

  // ---------- the loop ----------

  /** After n rows: those are finished, the rest are as they were, memory counts exactly what was
      finished, and storage lags by what has not been flushed yet, less than twenty. */
  ghost predicate LoopSound(b: Batch, p: Progress, n: nat) {
    && |p.rows| == |b.rows|
    && (forall i :: 0 <= i < n && i < |b.rows| ==> Terminal(p.rows[i]))
    && (forall i :: 0 <= i < |b.rows| && (i >= n || Terminal(b.rows[i])) ==>
          p.rows[i].status == b.rows[i].status && p.rows[i].warnings == b.rows[i].warnings)
    && Total(p.counts) - Total(b.stored) == Finished(p.rows) - Finished(b.rows)
    && Total(p.counts) - Total(p.stored) == p.unflushed < FLUSH_EVERY
  }

  lemma OneMoreRow(b: Batch, p: Progress, q: Progress, n: nat)
    requires n < |b.rows| && LoopSound(b, p, n) && !Terminal(b.rows[n])
    requires OnlyRow(p.rows, q.rows, n) && Terminal(q.rows[n]) && Finished(q.rows) == Finished(p.rows) + 1
    requires Total(q.counts) == Total(p.counts) + 1 && q.stored == p.stored && q.unflushed == p.unflushed
    ensures LoopSound(b, Counted(q), n + 1)
  {
  }

  lemma TurnIsSound(b: Batch, p: Progress, faults: nat -> Fault, referenced: set<nat>, n: nat)
    requires n < |b.rows| && LoopSound(b, p, n)
    ensures LoopSound(b, Turn(b, p, faults, referenced, n), n + 1)
  {
    if !Terminal(b.rows[n]) {
      HandledFinishesRow(p, b.rows[n], n, faults(n), referenced);
      OneMoreRow(b, p, Handled(p, b.rows[n], n, faults(n), referenced), n);
    }
  }

  /** What every turn of the loop keeps, the loop keeps. */
  lemma {:induction false} WorkedKeeps(inv: (nat, Progress) -> bool, b: Batch, faults: nat -> Fault, referenced: set<nat>, n: nat)
    requires n <= |b.rows| && inv(0, Begin(b))
    requires forall m: nat, p: Progress :: m < |b.rows| == |p.rows| && inv(m, p) ==>
      inv(m + 1, Turn(b, p, faults, referenced, m))
    ensures inv(n, Worked(b, faults, referenced, n))
  {
    if n > 0 {
      WorkedKeeps(inv, b, faults, referenced, n - 1);
    }
  }

  lemma WorkedIsSound(b: Batch, faults: nat -> Fault, referenced: set<nat>, n: nat)
    requires n <= |b.rows|
    ensures LoopSound(b, Worked(b, faults, referenced, n), n)
  {
    var inv := (m: nat, p: Progress) => LoopSound(b, p, m);
    forall m: nat, p: Progress | m < |b.rows| == |p.rows| && inv(m, p)
      ensures inv(m + 1, Turn(b, p, faults, referenced, m))
    {
      TurnIsSound(b, p, faults, referenced, m);
    }
    WorkedKeeps(inv, b, faults, referenced, n);
  }

  // ---------- one run, and any number of them ----------

  /** What any run keeps: finished rows stay as they are, and stored counts lag behind the rows that
      were finished by at most `lag`. */
  ghost predicate Kept(b: Batch, c: Batch, lag: nat) {
    && |c.rows| == |b.rows|
    && (forall i :: 0 <= i < |b.rows| && Terminal(b.rows[i]) ==>
          c.rows[i].status == b.rows[i].status && c.rows[i].warnings == b.rows[i].warnings)
    && 0 <= (Finished(c.rows) - Finished(b.rows)) - (Total(c.stored) - Total(b.stored)) <= lag
  }

  ghost function Interruptions(attempts: seq<Attempt>): nat {
    if attempts == [] then 0
    else Interruptions(attempts[..|attempts| - 1]) + (if attempts[|attempts| - 1].cut.Some? then 1 else 0)
  }

  lemma DiedKeeps(b: Batch, faults: nat -> Fault, referenced: set<nat>, cut: Cut)
    ensures var p := Died(b, faults, referenced, cut);
      && |p.rows| == |b.rows|
      && (forall i :: 0 <= i < |b.rows| && Terminal(b.rows[i]) ==>
            p.rows[i].status == b.rows[i].status && p.rows[i].warnings == b.rows[i].warnings)
      && 0 <= (Finished(p.rows) - Finished(b.rows)) - (Total(p.stored) - Total(b.stored)) <= FLUSH_EVERY
  {
    WorkedIsSound(b, faults, referenced, if cut.at >= |b.rows| then |b.rows| else cut.at);
    if cut.at < |b.rows| && !Terminal(b.rows[cut.at]) {
      var p := Worked(b, faults, referenced, cut.at);
      if cut.stage == AfterSave {
        HandledFinishesRow(p, b.rows[cut.at], cut.at, faults(cut.at), referenced);
      } else {
        CutoffKeepsStatuses(p, b.rows[cut.at], cut.at, faults(cut.at), referenced, cut.stage);
        SameStatusesSameCount(p.rows, Died(b, faults, referenced, cut).rows, FINISHED);
      }
    }
  }

  lemma RunKeeps(b: Batch, a: Attempt, referenced: set<nat>)
    ensures Kept(b, Run(b, a, referenced), if a.cut.Some? then FLUSH_EVERY else 0)
  {
    if Claimable(b, a.now) {
      if a.cut.None? {
        WorkedIsSound(b, a.faults, referenced, |b.rows|);
      } else {
        DiedKeeps(b, a.faults, referenced, a.cut.value);
      }
    }
  }

  /** Over any sequence of runs that do not overlap, each cut off at any point or not at all: a row
      that was finished is never touched again, and the stored created, failed and skipped counts
      fall short of the rows that were finished by at most twenty for each interruption. */
  lemma {:induction false} RunsKeepFinishedRows(b: Batch, attempts: seq<Attempt>, referenced: set<nat>)
    ensures Kept(b, RunAll(b, attempts, referenced), FLUSH_EVERY * Interruptions(attempts))
    decreases |attempts|
  {
    if attempts != [] {
      var n := |attempts| - 1;
      RunsKeepFinishedRows(b, attempts[..n], referenced);
      RunKeeps(RunAll(b, attempts[..n], referenced), attempts[n], referenced);
    }
  }

  /** A claimed run that is not cut off leaves nothing to do, and all it did is counted. */
  lemma UncutRunFinishesAll(b: Batch, a: Attempt, referenced: set<nat>)
    requires Claimable(b, a.now) && a.cut.None?
    ensures var c := Run(b, a, referenced);
      && c.status == Completed
      && (forall i :: 0 <= i < |c.rows| ==> Terminal(c.rows[i]))
      && Total(c.stored) - Total(b.stored) == Finished(c.rows) - Finished(b.rows)
  {
    WorkedIsSound(b, a.faults, referenced, |b.rows|);
  }

  lemma {:induction false} NothingLeftToDo(b: Batch, faults: nat -> Fault, referenced: set<nat>, n: nat)
    requires n <= |b.rows| && forall i :: 0 <= i < |b.rows| ==> Terminal(b.rows[i])
    ensures Worked(b, faults, referenced, n) == Begin(b)
  {
    if n > 0 {
      NothingLeftToDo(b, faults, referenced, n - 1);
    }
  }

  /** Once everything is finished, further runs change nothing but the claim and the status. */
  lemma FinishedBatchStaysAsItIs(b: Batch, a: Attempt, referenced: set<nat>)
    requires forall i :: 0 <= i < |b.rows| ==> Terminal(b.rows[i])
    ensures var c := Run(b, a, referenced);
      c.rows == b.rows && c.stored == b.stored && c.questions == b.questions && c.nextId == b.nextId
  {
    NothingLeftToDo(b, a.faults, referenced, |b.rows|);
    if a.cut.Some? && a.cut.value.at < |b.rows| {
      NothingLeftToDo(b, a.faults, referenced, a.cut.value.at);
    }
  }

  // ---------- the claim ----------

  /** Nothing gives a claim back, so a run that died leaves the batch closed: the next delivery does
      work exactly when the stale window has passed, and otherwise succeeds without doing any. */
  lemma RetryWorksOnlyAfterWindow(b: Batch, a: Attempt, retry: Attempt, referenced: set<nat>)
    requires Claimable(b, a.now)
    ensures var c := Run(b, a, referenced);
      && (Claimable(c, retry.now) <==> retry.now - a.now > CLAIM_STALE_MINUTES)
      && (retry.now - a.now <= CLAIM_STALE_MINUTES ==> Run(c, retry, referenced) == c)
  {
  }

  // ---------- questions ----------

  /** Questions made, less rows imported. */
  ghost function Surplus(rows: seq<ImportRow>, nextId: nat): int {
    nextId - CountWhere(rows, IMPORTED)
  }

  /** An exception after the question row exists leaves that question without an import row. */
  predicate Strands(row: ImportRow, fault: Fault) {
    !Terminal(row) && !Skips(row) && fault in {OnOptions, OnSave}
  }

  /** How many of the first n rows strand a question. */
  ghost function Stranded(rows: seq<ImportRow>, faults: nat -> Fault, n: nat): nat
    requires n <= |rows|
  {
    if n == 0 then 0 else Stranded(rows, faults, n - 1) + Bit(Strands(rows[n - 1], faults(n - 1)))
  }

  /** How many rows a run goes through to their end. */
  function Through(b: Batch, a: Attempt): (n: nat)
    ensures n <= |b.rows|
  {
    if !Claimable(b, a.now) then 0
    else if a.cut.None? || a.cut.value.at >= |b.rows| then |b.rows|
    else if a.cut.value.stage == AfterSave then a.cut.value.at + 1
    else a.cut.value.at
  }

  ghost function StrandedBy(b: Batch, a: Attempt): nat {
    Stranded(b.rows, a.faults, Through(b, a))
  }

  /** How many questions a sequence of runs strands. */
  ghost function StrandedByAll(b: Batch, attempts: seq<Attempt>, referenced: set<nat>): nat
    decreases |attempts|
  {
    if attempts == [] then 0
    else
      var n := |attempts| - 1;
      StrandedByAll(b, attempts[..n], referenced) + StrandedBy(RunAll(b, attempts[..n], referenced), attempts[n])
  }

  /** A run that dies after making the row's question leaves it without an import row. */
  predicate LeavesOne(row: ImportRow, fault: Fault, stage: Stage) {
    && !Terminal(row) && stage == AfterCreate && !(row.status == Duplicate && row.action == Skip)
    && fault != OnCreate && (fault == OnReplace ==> !(row.status == Duplicate && row.action == Replace && row.duplicateOf.Some?))
  }

  predicate CutLeavesOne(b: Batch, a: Attempt) {
    Claimable(b, a.now) && a.cut.Some? && a.cut.value.at < |b.rows|
    && LeavesOne(b.rows[a.cut.value.at], a.faults(a.cut.value.at), a.cut.value.stage)
  }

  /** How many runs of the sequence die like that. */
  ghost function LeftByCuts(b: Batch, attempts: seq<Attempt>, referenced: set<nat>): nat
    decreases |attempts|
  {
    if attempts == [] then 0
    else
      var n := |attempts| - 1;
      LeftByCuts(b, attempts[..n], referenced) + Bit(CutLeavesOne(RunAll(b, attempts[..n], referenced), attempts[n]))
  }

  /** A new question comes with an imported row, or is stranded. */
  lemma HandledMakesOne(p: Progress, row: ImportRow, i: nat, fault: Fault, referenced: set<nat>)
    requires i < |p.rows| && !Terminal(row)
    ensures var q := Handled(p, row, i, fault, referenced);
      q.nextId == p.nextId + Bit(q.rows[i].status == Imported) + Bit(Strands(row, fault))
  {
  }

  lemma HandledSurplus(p: Progress, row: ImportRow, i: nat, fault: Fault, referenced: set<nat>)
    requires i < |p.rows| && !Terminal(p.rows[i]) && !Terminal(row)
    ensures var q := Handled(p, row, i, fault, referenced);
      Surplus(q.rows, q.nextId) == Surplus(p.rows, p.nextId) + Bit(Strands(row, fault))
  {
    HandledWritesRow(p, row, i, fault, referenced);
    HandledMakesOne(p, row, i, fault, referenced);
    ReplacedKeepsStatuses(p, row, referenced);
    var q, d := Handled(p, row, i, fault, referenced), Replaced(p, row, referenced).rows;
    SameStatusesSameCount(p.rows, d, IMPORTED);
    CountUpdate(p.rows, IMPORTED, i, q.rows[i]);
    CountUpdate(d, IMPORTED, i, q.rows[i]);
  }

  /** The surplus so far is what was stranded so far. */
  ghost predicate SurplusIsStranded(b: Batch, faults: nat -> Fault, p: Progress, n: nat)
    requires n <= |b.rows|
  {
    Surplus(p.rows, p.nextId) == Surplus(b.rows, b.nextId) + Stranded(b.rows, faults, n)
  }

  lemma TurnSurplus(b: Batch, p: Progress, faults: nat -> Fault, referenced: set<nat>, n: nat)
    requires n < |b.rows| && LoopSound(b, p, n) && SurplusIsStranded(b, faults, p, n)
    ensures SurplusIsStranded(b, faults, Turn(b, p, faults, referenced, n), n + 1)
  {
    if !Terminal(b.rows[n]) {
      HandledSurplus(p, b.rows[n], n, faults(n), referenced);
    }
  }

  lemma WorkedSurplus(b: Batch, faults: nat -> Fault, referenced: set<nat>, n: nat)
    requires n <= |b.rows|
    ensures SurplusIsStranded(b, faults, Worked(b, faults, referenced, n), n)
  {
    var inv := (m: nat, p: Progress) => m <= |b.rows| && LoopSound(b, p, m) && SurplusIsStranded(b, faults, p, m);
    forall m: nat, p: Progress | m < |b.rows| == |p.rows| && inv(m, p)
      ensures inv(m + 1, Turn(b, p, faults, referenced, m))
    {
      TurnIsSound(b, p, faults, referenced, m);
      TurnSurplus(b, p, faults, referenced, m);
    }
    WorkedKeeps(inv, b, faults, referenced, n);
  }

  lemma CutoffSurplus(p: Progress, row: ImportRow, i: nat, fault: Fault, referenced: set<nat>, stage: Stage)
    requires i < |p.rows| && stage != AfterSave && !Terminal(row)
    ensures var q := Cutoff(p, row, i, fault, referenced, stage);
      Surplus(q.rows, q.nextId) == Surplus(p.rows, p.nextId) + Bit(LeavesOne(row, fault, stage))
  {
    CutoffKeepsStatuses(p, row, i, fault, referenced, stage);
    SameStatusesSameCount(p.rows, Cutoff(p, row, i, fault, referenced, stage).rows, IMPORTED);
  }

  /** A run that dies leaves one question more exactly when it dies after making the question of a row. */
  lemma DiedSurplus(b: Batch, a: Attempt, referenced: set<nat>)
    requires Claimable(b, a.now) && a.cut.Some?
    ensures var p := Died(b, a.faults, referenced, a.cut.value);
      Surplus(p.rows, p.nextId) == Surplus(b.rows, b.nextId) + StrandedBy(b, a) + Bit(CutLeavesOne(b, a))
  {
    var cut := a.cut.value;
    WorkedSurplus(b, a.faults, referenced, if cut.at >= |b.rows| then |b.rows| else cut.at);
    if cut.at < |b.rows| && !Terminal(b.rows[cut.at]) {
      var p := Worked(b, a.faults, referenced, cut.at);
      WorkedIsSound(b, a.faults, referenced, cut.at);
      if cut.stage == AfterSave {
        HandledSurplus(p, b.rows[cut.at], cut.at, a.faults(cut.at), referenced);
      } else {
        CutoffSurplus(p, b.rows[cut.at], cut.at, a.faults(cut.at), referenced, cut.stage);
      }
    }
  }

  /** No row is imported twice: the questions made exceed the rows imported by exactly those that an
      exception stranded and, for each interruption after a row's question was made, one more. */
  lemma {:induction false} OneQuestionPerRow(b: Batch, attempts: seq<Attempt>, referenced: set<nat>)
    ensures var c := RunAll(b, attempts, referenced);
      Surplus(c.rows, c.nextId) - Surplus(b.rows, b.nextId) ==
        StrandedByAll(b, attempts, referenced) + LeftByCuts(b, attempts, referenced)
    ensures LeftByCuts(b, attempts, referenced) <= Interruptions(attempts)
    decreases |attempts|
  {
    if attempts != [] {
      var n := |attempts| - 1;
      OneQuestionPerRow(b, attempts[..n], referenced);
      var c, a := RunAll(b, attempts[..n], referenced), attempts[n];
      if Claimable(c, a.now) {
        if a.cut.None? {
          WorkedSurplus(c, a.faults, referenced, |c.rows|);
        } else {
          DiedSurplus(c, a, referenced);
        }
      }
    }
  }

  /** No question leaves the bank but by replacing one that no test uses. */
  ghost predicate KeepsReferenced(before: set<nat>, after: set<nat>, referenced: set<nat>) {
    forall q :: q in before && q in referenced ==> q in after
  }

  lemma HandledKeepsReferenced(p: Progress, row: ImportRow, i: nat, fault: Fault, referenced: set<nat>)
    requires i < |p.rows|
    ensures KeepsReferenced(p.questions, Handled(p, row, i, fault, referenced).questions, referenced)
  {
  }

  lemma CutoffKeepsReferenced(p: Progress, row: ImportRow, i: nat, fault: Fault, referenced: set<nat>, stage: Stage)
    requires i < |p.rows|
    ensures KeepsReferenced(p.questions, Cutoff(p, row, i, fault, referenced, stage).questions, referenced)
  {
    HandledKeepsReferenced(p, row, i, fault, referenced);
  }

  lemma WorkedKeepsReferenced(b: Batch, faults: nat -> Fault, referenced: set<nat>, n: nat)
    requires n <= |b.rows|
    ensures KeepsReferenced(b.questions, Worked(b, faults, referenced, n).questions, referenced)
  {
    var inv := (m: nat, p: Progress) => KeepsReferenced(b.questions, p.questions, referenced);
    forall m: nat, p: Progress | m < |b.rows| == |p.rows| && inv(m, p)
      ensures inv(m + 1, Turn(b, p, faults, referenced, m))
    {
      HandledKeepsReferenced(p, b.rows[m], m, faults(m), referenced);
    }
    WorkedKeeps(inv, b, faults, referenced, n);
  }

  lemma RunKeepsReferenced(b: Batch, a: Attempt, referenced: set<nat>)
    ensures KeepsReferenced(b.questions, Run(b, a, referenced).questions, referenced)
  {
    WorkedKeepsReferenced(b, a.faults, referenced, |b.rows|);
    if a.cut.Some? && a.cut.value.at < |b.rows| {
      var at := a.cut.value.at;
      WorkedKeepsReferenced(b, a.faults, referenced, at);
      CutoffKeepsReferenced(Worked(b, a.faults, referenced, at), b.rows[at], at, a.faults(at), referenced, a.cut.value.stage);
    }
  }

  /** A question that a test uses survives every sequence of runs. */
  lemma {:induction false} ReferencedQuestionsSurvive(b: Batch, attempts: seq<Attempt>, referenced: set<nat>)
    ensures KeepsReferenced(b.questions, RunAll(b, attempts, referenced).questions, referenced)
    decreases |attempts|
  {
    if attempts != [] {
      var n := |attempts| - 1;
      ReferencedQuestionsSurvive(b, attempts[..n], referenced);
      RunKeepsReferenced(RunAll(b, attempts[..n], referenced), attempts[n], referenced);
    }
  }
}
