/** What becomes of one row, and of one question, over any sequence of import runs. */
module ImportOutcomes {
  import opened Wrappers
  import opened ImportTypes
  import opened ImportRun
  import opened ImportProofs

  // ---------- one row ----------

  /** Going through the row makes a question and imports it. */
  predicate Succeeds(row: ImportRow, fault: Fault) {
    !Skips(row) && (fault == NoFault || (fault == OnReplace && !Replaces(row)))
  }

  /** The status a row ends with once a run goes through it. */
  function Ending(row: ImportRow, fault: Fault): RowStatus {
    if Succeeds(row, fault) then Imported
    else if Skips(row) && fault != OnSave then Skipped
    else Error
  }

  /** The run goes through a row that was not finished. */
  predicate Finishes(b: Batch, a: Attempt, i: nat) {
    i < Through(b, a) && !Terminal(b.rows[i])
  }

  predicate Imports(b: Batch, a: Attempt, i: nat) {
    Finishes(b, a, i) && Succeeds(b.rows[i], a.faults(i))
  }

  /** Imported, as a question with a number from m on. */
  predicate New(row: ImportRow, m: nat) {
    row.status == Imported && row.created.Some? && row.created.value >= m
  }

  /** No row is a duplicate of a question from m on. */
  ghost predicate PointsBelow(rows: seq<ImportRow>, m: nat) {
    forall i :: 0 <= i < |rows| && rows[i].duplicateOf.Some? ==> rows[i].duplicateOf.value < m
  }

  /** Row i after n turns of a run. */
  ghost predicate RowAfter(b: Batch, p: Progress, faults: nat -> Fault, m: nat, i: nat, n: nat)
    requires i < |b.rows|
  {
    var done := i < n && !Terminal(b.rows[i]);
    && |p.rows| == |b.rows| && p.nextId >= b.nextId && PointsBelow(p.rows, m)
    && p.rows[i].action == b.rows[i].action
    && p.rows[i].status == (if done then Ending(b.rows[i], faults(i)) else b.rows[i].status)
    && (New(p.rows[i], m) <==> New(b.rows[i], m) || (done && Succeeds(b.rows[i], faults(i))))
  }

  lemma HandledOwnRow(p: Progress, row: ImportRow, i: nat, fault: Fault, referenced: set<nat>, m: nat)
    requires i < |p.rows| && !Terminal(row) && m <= p.nextId
    ensures var q := Handled(p, row, i, fault, referenced);
      && |q.rows| == |p.rows| && q.rows[i].action == p.rows[i].action
      && q.rows[i].status == Ending(row, fault) && (New(q.rows[i], m) <==> Succeeds(row, fault))
  {
  }

  /** Replacing an old question does not touch a new one. */
  lemma HandledOtherRow(p: Progress, row: ImportRow, n: nat, fault: Fault, referenced: set<nat>, m: nat, i: nat)
    requires n < |p.rows| && i < |p.rows| && i != n && (row.duplicateOf.Some? ==> row.duplicateOf.value < m)
    ensures var q := Handled(p, row, n, fault, referenced);
      && |q.rows| == |p.rows| && q.rows[i].action == p.rows[i].action && q.rows[i].status == p.rows[i].status
      && (New(q.rows[i], m) <==> New(p.rows[i], m))
  {
    HandledWritesRow(p, row, n, fault, referenced);
  }

  lemma HandledPointsBelow(p: Progress, row: ImportRow, n: nat, fault: Fault, referenced: set<nat>, m: nat)
    requires n < |p.rows| && PointsBelow(p.rows, m)
    ensures var q := Handled(p, row, n, fault, referenced); PointsBelow(q.rows, m) && q.nextId >= p.nextId
  {
  }

  lemma TurnRowAfter(b: Batch, p: Progress, faults: nat -> Fault, referenced: set<nat>, m: nat, i: nat, n: nat)
    requires i < |b.rows| && n < |b.rows| && m <= b.nextId && PointsBelow(b.rows, m)
    requires RowAfter(b, p, faults, m, i, n)
    ensures RowAfter(b, Turn(b, p, faults, referenced, n), faults, m, i, n + 1)
  {
    if !Terminal(b.rows[n]) {
      HandledPointsBelow(p, b.rows[n], n, faults(n), referenced, m);
      if i == n {
        HandledOwnRow(p, b.rows[n], n, faults(n), referenced, m);
      } else {
        HandledOtherRow(p, b.rows[n], n, faults(n), referenced, m, i);
      }
    }
  }

  lemma WorkedRowAfter(b: Batch, faults: nat -> Fault, referenced: set<nat>, m: nat, i: nat, n: nat)
    requires i < |b.rows| && n <= |b.rows| && m <= b.nextId && PointsBelow(b.rows, m)
    ensures RowAfter(b, Worked(b, faults, referenced, n), faults, m, i, n)
  {
    var inv := (k: nat, p: Progress) => RowAfter(b, p, faults, m, i, k);
    forall k: nat, p: Progress | k < |b.rows| == |p.rows| && inv(k, p)
      ensures inv(k + 1, Turn(b, p, faults, referenced, k))
    {
      TurnRowAfter(b, p, faults, referenced, m, i, k);
    }
    WorkedKeeps(inv, b, faults, referenced, n);
  }

  lemma CutoffRowAfter(
    b: Batch, p: Progress, faults: nat -> Fault, referenced: set<nat>, m: nat, i: nat, at: nat, stage: Stage)
    requires i < |b.rows| && at < |b.rows| && stage != AfterSave
    requires RowAfter(b, p, faults, m, i, at) && m <= b.nextId && PointsBelow(b.rows, m)
    ensures RowAfter(b, Cutoff(p, b.rows[at], at, faults(at), referenced, stage), faults, m, i, at)
  {
  }

  lemma DiedRowAfter(b: Batch, a: Attempt, referenced: set<nat>, m: nat, i: nat)
    requires i < |b.rows| && m <= b.nextId && PointsBelow(b.rows, m) && Claimable(b, a.now) && a.cut.Some?
    ensures RowAfter(b, Died(b, a.faults, referenced, a.cut.value), a.faults, m, i, Through(b, a))
  {
    var cut := a.cut.value;
    WorkedRowAfter(b, a.faults, referenced, m, i, if cut.at >= |b.rows| then |b.rows| else cut.at);
    if cut.at < |b.rows| && !Terminal(b.rows[cut.at]) {
      var p := Worked(b, a.faults, referenced, cut.at);
      if cut.stage == AfterSave {
        TurnRowAfter(b, p, a.faults, referenced, m, i, cut.at);
      } else {
        CutoffRowAfter(b, p, a.faults, referenced, m, i, cut.at, cut.stage);
      }
    }
  }

  /** One run, cut off or not, ends every unfinished row that it goes through, and no other, with the
      status that its decision and the exceptions call for. */
  lemma RunEndsRow(b: Batch, a: Attempt, referenced: set<nat>, m: nat, i: nat)
    requires i < |b.rows| && m <= b.nextId && PointsBelow(b.rows, m)
    ensures var c := Run(b, a, referenced);
      && |c.rows| == |b.rows| && c.nextId >= b.nextId && PointsBelow(c.rows, m)
      && c.rows[i].action == b.rows[i].action
      && c.rows[i].status == (if Finishes(b, a, i) then Ending(b.rows[i], a.faults(i)) else b.rows[i].status)
      && (New(c.rows[i], m) <==> New(b.rows[i], m) || Imports(b, a, i))
  {
    if Claimable(b, a.now) {
      if a.cut.None? {
        WorkedRowAfter(b, a.faults, referenced, m, i, |b.rows|);
      } else {
        DiedRowAfter(b, a, referenced, m, i);
      }
    }
  }

  /** Some run of the sequence imports the row. */
  ghost predicate ImportedBy(b: Batch, attempts: seq<Attempt>, referenced: set<nat>, i: nat) {
    exists k :: 0 <= k < |attempts| && Imports(RunAll(b, attempts[..k], referenced), attempts[k], i)
  }

  lemma SamePrefix(attempts: seq<Attempt>, n: nat, k: nat)
    requires k < n <= |attempts|
    ensures attempts[..n][..k] == attempts[..k] && attempts[..n][k] == attempts[k]
  {
  }

  lemma ImportedByOneMore(b: Batch, attempts: seq<Attempt>, referenced: set<nat>, i: nat)
    requires attempts != []
    ensures var n := |attempts| - 1;
      ImportedBy(b, attempts, referenced, i) <==>
        ImportedBy(b, attempts[..n], referenced, i) || Imports(RunAll(b, attempts[..n], referenced), attempts[n], i)
  {
    hide Imports, RunAll;
    var n := |attempts| - 1;
    if ImportedBy(b, attempts[..n], referenced, i) {
      var k :| 0 <= k < n && Imports(RunAll(b, attempts[..n][..k], referenced), attempts[..n][k], i);
      SamePrefix(attempts, n, k);
    }
    if ImportedBy(b, attempts, referenced, i) {
      var k :| 0 <= k < |attempts| && Imports(RunAll(b, attempts[..k], referenced), attempts[k], i);
      if k < n {
        SamePrefix(attempts, n, k);
      }
    }
  }

  /** A row comes out of any sequence of runs with a new question exactly when one of them imports
      it; its decision stays, and it never becomes unfinished. */
  lemma {:induction false} RunsImportRow(b: Batch, attempts: seq<Attempt>, referenced: set<nat>, m: nat, i: nat)
    requires i < |b.rows| && m <= b.nextId && PointsBelow(b.rows, m)
    ensures var c := RunAll(b, attempts, referenced);
      && |c.rows| == |b.rows| && c.nextId >= b.nextId && PointsBelow(c.rows, m)
      && c.rows[i].action == b.rows[i].action
      && (c.rows[i].status == b.rows[i].status || Terminal(c.rows[i]))
      && (Terminal(b.rows[i]) ==> c.rows[i].status == b.rows[i].status)
      && (c.rows[i].status == Skipped ==> b.rows[i].status == Skipped || b.rows[i].action == Skip)
      && (New(c.rows[i], m) <==> New(b.rows[i], m) || ImportedBy(b, attempts, referenced, i))
      && (c.rows[i].status == Imported <==> b.rows[i].status == Imported || ImportedBy(b, attempts, referenced, i))
    decreases |attempts|
  {
    if attempts != [] {
      var n := |attempts| - 1;
      RunsImportRow(b, attempts[..n], referenced, m, i);
      RunEndsRow(RunAll(b, attempts[..n], referenced), attempts[n], referenced, m, i);
      ImportedByOneMore(b, attempts, referenced, i);
    }
  }

  // ---------- one question ----------

  /** The row is to take the place of question q. */
  predicate Asks(row: ImportRow, q: nat) {
    Replaces(row) && row.duplicateOf == Some(q)
  }

  /** How many rows a run gets to, as far as replacing goes. */
  function Entered(b: Batch, a: Attempt): (n: nat)
    ensures Through(b, a) <= n <= |b.rows|
  {
    if Claimable(b, a.now) && a.cut.Some? && a.cut.value.at < |b.rows| && a.cut.value.stage != BeforeRow
    then a.cut.value.at + 1 else Through(b, a)
  }

  predicate Removes(row: ImportRow, fault: Fault, q: nat) {
    Asks(row, q) && fault != OnReplace
  }

  /** One of the first n rows removes q. */
  ghost predicate RemovedBefore(rows: seq<ImportRow>, faults: nat -> Fault, q: nat, n: nat)
    requires n <= |rows|
  {
    exists i :: 0 <= i < n && Removes(rows[i], faults(i), q)
  }

  ghost predicate QuestionAfter(
    b: Batch, p: Progress, faults: nat -> Fault, referenced: set<nat>, q: nat, n: nat)
    requires n <= |b.rows|
  {
    && q < p.nextId
    && (q in p.questions <==> q in b.questions && (q in referenced || !RemovedBefore(b.rows, faults, q, n)))
  }

  /** What one row does to one question. */
  lemma HandledQuestion(p: Progress, row: ImportRow, i: nat, fault: Fault, referenced: set<nat>, q: nat)
    requires i < |p.rows| && q < p.nextId
    ensures var r := Handled(p, row, i, fault, referenced);
      && q < r.nextId
      && (q in r.questions <==> q in p.questions && (q in referenced || !Removes(row, fault, q)))
  {
  }

  lemma CutoffQuestion(p: Progress, row: ImportRow, i: nat, fault: Fault, referenced: set<nat>, stage: Stage, q: nat)
    requires i < |p.rows| && q < p.nextId
    ensures var r := Cutoff(p, row, i, fault, referenced, stage);
      && q < r.nextId
      && (q in r.questions <==> q in p.questions && (q in referenced || stage == BeforeRow || !Removes(row, fault, q)))
  {
    HandledQuestion(p, row, i, fault, referenced, q);
  }

  lemma TurnQuestion(b: Batch, p: Progress, faults: nat -> Fault, referenced: set<nat>, q: nat, n: nat)
    requires n < |b.rows| == |p.rows| && QuestionAfter(b, p, faults, referenced, q, n)
    ensures QuestionAfter(b, Turn(b, p, faults, referenced, n), faults, referenced, q, n + 1)
  {
    if !Terminal(b.rows[n]) {
      HandledQuestion(p, b.rows[n], n, faults(n), referenced, q);
    }
  }

  lemma WorkedQuestion(b: Batch, faults: nat -> Fault, referenced: set<nat>, q: nat, n: nat)
    requires n <= |b.rows| && q < b.nextId
    ensures QuestionAfter(b, Worked(b, faults, referenced, n), faults, referenced, q, n)
  {
    var inv := (k: nat, p: Progress) => k <= |b.rows| && QuestionAfter(b, p, faults, referenced, q, k);
    forall k: nat, p: Progress | k < |b.rows| == |p.rows| && inv(k, p)
      ensures inv(k + 1, Turn(b, p, faults, referenced, k))
    {
      TurnQuestion(b, p, faults, referenced, q, k);
    }
    WorkedKeeps(inv, b, faults, referenced, n);
  }

  ghost predicate RemovedBy(b: Batch, a: Attempt, q: nat) {
    RemovedBefore(b.rows, a.faults, q, Entered(b, a))
  }

  /** One run, cut off or not, takes a question out of the bank exactly when no test uses it and the
      run gets to a row that is to replace it, with no exception in looking it up. */
  lemma RunRemovesIff(b: Batch, a: Attempt, referenced: set<nat>, q: nat)
    requires q < b.nextId
    ensures var c := Run(b, a, referenced);
      q < c.nextId && (q in c.questions <==> q in b.questions && (q in referenced || !RemovedBy(b, a, q)))
  {
    if Claimable(b, a.now) {
      if a.cut.None? || a.cut.value.at >= |b.rows| {
        WorkedQuestion(b, a.faults, referenced, q, |b.rows|);
      } else {
        var at := a.cut.value.at;
        var p := Worked(b, a.faults, referenced, at);
        WorkedQuestion(b, a.faults, referenced, q, at);
        if !Terminal(b.rows[at]) {
          CutoffQuestion(p, b.rows[at], at, a.faults(at), referenced, a.cut.value.stage, q);
        }
      }
    }
  }

  /** Some run of the sequence removes the question. */
  ghost predicate RemovedByAny(b: Batch, attempts: seq<Attempt>, referenced: set<nat>, q: nat) {
    exists k :: 0 <= k < |attempts| && RemovedBy(RunAll(b, attempts[..k], referenced), attempts[k], q)
  }

  lemma RemovedByOneMore(b: Batch, attempts: seq<Attempt>, referenced: set<nat>, q: nat)
    requires attempts != []
    ensures var n := |attempts| - 1;
      RemovedByAny(b, attempts, referenced, q) <==>
        RemovedByAny(b, attempts[..n], referenced, q) || RemovedBy(RunAll(b, attempts[..n], referenced), attempts[n], q)
  {
    hide RemovedBy, RunAll;
    var n := |attempts| - 1;
    if RemovedByAny(b, attempts[..n], referenced, q) {
      var k :| 0 <= k < n && RemovedBy(RunAll(b, attempts[..n][..k], referenced), attempts[..n][k], q);
      SamePrefix(attempts, n, k);
    }
    if RemovedByAny(b, attempts, referenced, q) {
      var k :| 0 <= k < |attempts| && RemovedBy(RunAll(b, attempts[..k], referenced), attempts[k], q);
      if k < n {
        SamePrefix(attempts, n, k);
      }
    }
  }

  lemma {:induction false} RunsRemoveIff(b: Batch, attempts: seq<Attempt>, referenced: set<nat>, q: nat)
    requires q < b.nextId
    ensures var c := RunAll(b, attempts, referenced);
      && q < c.nextId
      && (q in c.questions <==> q in b.questions && (q in referenced || !RemovedByAny(b, attempts, referenced, q)))
    decreases |attempts|
  {
    if attempts != [] {
      var n := |attempts| - 1;
      RunsRemoveIff(b, attempts[..n], referenced, q);
      RunRemovesIff(RunAll(b, attempts[..n], referenced), attempts[n], referenced, q);
      RemovedByOneMore(b, attempts, referenced, q);
    }
  }

  // ---------- lost questions ----------

  /** Question q is gone, and no row that was to replace it has been imported. */
  ghost predicate Lost(b: Batch, c: Batch, q: nat) {
    && q in b.questions && q !in c.questions && |c.rows| == |b.rows|
    && forall i :: 0 <= i < |b.rows| && Asks(b.rows[i], q) ==> c.rows[i].status != Imported
  }

  /** Over any sequence of runs, each cut off anywhere, a question of the bank is lost exactly when no
      test uses it, some run removes it, and none imports a row that was to replace it. */
  lemma LostIff(b: Batch, attempts: seq<Attempt>, referenced: set<nat>, q: nat)
    requires q in b.questions && q < b.nextId && PointsBelow(b.rows, b.nextId)
    ensures Lost(b, RunAll(b, attempts, referenced), q) <==>
      && q !in referenced && RemovedByAny(b, attempts, referenced, q)
      && forall i :: 0 <= i < |b.rows| && Asks(b.rows[i], q) ==> !ImportedBy(b, attempts, referenced, i)
  {
    RunsRemoveIff(b, attempts, referenced, q);
    RunsKeepFinishedRows(b, attempts, referenced);
    forall i: nat | i < |b.rows| && Asks(b.rows[i], q)
      ensures RunAll(b, attempts, referenced).rows[i].status == Imported <==> ImportedBy(b, attempts, referenced, i)
    {
      RunsImportRow(b, attempts, referenced, b.nextId, i);
    }
  }

  /** For the one row that is to replace an unused question, in one run: the question is lost exactly
      when the run dies between deleting it and saving the row, or an exception hits in between. */
  lemma ReplaceLosesIff(b: Batch, a: Attempt, referenced: set<nat>, q: nat, i: nat)
    requires q in b.questions && q < b.nextId && q !in referenced && PointsBelow(b.rows, b.nextId)
    requires i < |b.rows| && Asks(b.rows[i], q) && forall j :: 0 <= j < |b.rows| && j != i ==> !Asks(b.rows[j], q)
    ensures Lost(b, Run(b, a, referenced), q) <==>
      && Claimable(b, a.now)
      && (if a.cut.Some? && a.cut.value.at == i && a.cut.value.stage in {AfterDelete, AfterCreate} then a.faults(i) != OnReplace
          else i < Through(b, a) && a.faults(i) in {OnCreate, OnOptions, OnSave})
  {
    RunRemovesIff(b, a, referenced, q);
    RunEndsRow(b, a, referenced, b.nextId, i);
    if Removes(b.rows[i], a.faults(i), q) && i < Entered(b, a) {
      assert RemovedBy(b, a, q);
    }
  }

  /** The delivery that does everything, once the window has passed. */
  function CleanRetry(c: Batch): (a: Attempt)
    ensures Claimable(c, a.now)
  {
    Attempt(if c.claimedAt.Some? then c.claimedAt.value + CLAIM_STALE_MINUTES + 1 else 0, _ => NoFault, None)
  }

  lemma FinishedOrSkippedStaysOut(c: Batch, later: seq<Attempt>, referenced: set<nat>, m: nat, i: nat)
    requires i < |c.rows| && m <= c.nextId && PointsBelow(c.rows, m) && (Terminal(c.rows[i]) || Skips(c.rows[i]))
    ensures !ImportedBy(c, later, referenced, i)
  {
    forall k | 0 <= k < |later|
      ensures !Imports(RunAll(c, later[..k], referenced), later[k], i)
    {
      RunsImportRow(c, later[..k], referenced, m, i);
    }
  }

  /** Later runs can still import a row exactly when it is not finished and not to be skipped. */
  lemma CanBeImportedIff(c: Batch, referenced: set<nat>, m: nat, i: nat)
    requires i < |c.rows| && m <= c.nextId && PointsBelow(c.rows, m)
    ensures (exists later :: ImportedBy(c, later, referenced, i)) <==> !Terminal(c.rows[i]) && !Skips(c.rows[i])
  {
    if Terminal(c.rows[i]) || Skips(c.rows[i]) {
      forall later
        ensures !ImportedBy(c, later, referenced, i)
      {
        FinishedOrSkippedStaysOut(c, later, referenced, m, i);
      }
    } else {
      var later := [CleanRetry(c)];
      assert later[..0] == [];
      assert Imports(RunAll(c, later[..0], referenced), later[0], i);
      assert ImportedBy(c, later, referenced, i);
    }
  }

  /** No row can be left to replace q: all of them have failed. */
  ghost predicate AllFailed(b: Batch, c: Batch, q: nat)
    requires |b.rows| == |c.rows|
  {
    forall i :: 0 <= i < |b.rows| && Asks(b.rows[i], q) ==> c.rows[i].status == Error
  }

  /** A question that is lost after any sequence of runs stays lost, whatever runs follow, exactly when
      every row that was to replace it has failed: what a kill lost a later run makes good, what an
      exception lost stays lost. */
  lemma LossIsFinalIff(b: Batch, attempts: seq<Attempt>, referenced: set<nat>, q: nat)
    requires q in b.questions && q < b.nextId && PointsBelow(b.rows, b.nextId)
    requires Lost(b, RunAll(b, attempts, referenced), q)
    ensures
      (forall later :: Lost(b, RunAll(RunAll(b, attempts, referenced), later, referenced), q)) <==>
        AllFailed(b, RunAll(b, attempts, referenced), q)
  {
    var c := RunAll(b, attempts, referenced);
    RunsRemoveIff(b, attempts, referenced, q);
    if AllFailed(b, c, q) {
      forall later
        ensures Lost(b, RunAll(c, later, referenced), q)
      {
        FailedLossStays(b, c, later, referenced, q);
      }
    } else {
      var i :| 0 <= i < |b.rows| && Asks(b.rows[i], q) && c.rows[i].status != Error;
      RunsImportRow(b, attempts, referenced, b.nextId, i);
      UnfinishedIsRepaired(b, c, referenced, q, i);
    }
  }

  lemma FailedLossStays(b: Batch, c: Batch, later: seq<Attempt>, referenced: set<nat>, q: nat)
    requires Lost(b, c, q) && AllFailed(b, c, q) && q < c.nextId
    ensures Lost(b, RunAll(c, later, referenced), q)
  {
    RunsRemoveIff(c, later, referenced, q);
    RunsKeepFinishedRows(c, later, referenced);
  }

  lemma UnfinishedIsRepaired(b: Batch, c: Batch, referenced: set<nat>, q: nat, i: nat)
    requires |b.rows| == |c.rows| && i < |b.rows| && PointsBelow(c.rows, b.nextId) && b.nextId <= c.nextId
    requires Asks(b.rows[i], q) && !Terminal(c.rows[i]) && !Skips(c.rows[i])
    ensures exists later :: !Lost(b, RunAll(c, later, referenced), q)
  {
    CanBeImportedIff(c, referenced, b.nextId, i);
    var later :| ImportedBy(c, later, referenced, i);
    RunsImportRow(c, later, referenced, b.nextId, i);
    assert !Lost(b, RunAll(c, later, referenced), q);
  }
}
