/** The questions that import rows refer to: the one a row duplicates, and the one made from it. */
module ImportReferences {
  import opened Wrappers
  import opened ImportTypes
  import opened ImportRun
  import opened ImportProofs
  import opened ImportOutcomes

  /** A reference is cleared when its question is gone, and otherwise as it was. */
  ghost predicate Follows(before: Option<nat>, after: Option<nat>, had: set<nat>, have: set<nat>) {
    after == if before.Some? && before.value in had && before.value !in have then None else before
  }

  /** The row was imported as a question that is there, with a number from m on. */
  ghost predicate HasNew(row: ImportRow, questions: set<nat>, m: nat) {
    row.status == Imported && row.created.Some? && row.created.value >= m && row.created.value in questions
  }

  /** The rows duplicate questions from before m, and numbers from `next` on are free. */
  ghost predicate Numbered(rows: seq<ImportRow>, questions: set<nat>, next: nat, m: nat) {
    && m <= next && PointsBelow(rows, m)
    && (forall i :: 0 <= i < |rows| && rows[i].created.Some? ==> rows[i].created.value < next)
    && forall q :: q in questions ==> q < next
  }

  /** No old question came back, no new one went, and numbers only grow. */
  ghost predicate OldGo(had: set<nat>, have: set<nat>, next: nat, next2: nat, m: nat) {
    && next <= next2
    && (forall q :: q in have ==> q in had || q >= next)
    && forall q :: q in had && q >= m ==> q in have
  }

  /** What row i refers to, from before to after some work on the rows. */
  ghost predicate Refers(before: ImportRow, after: ImportRow, had: set<nat>, have: set<nat>, next: nat) {
    && (Terminal(before) ==> after.status == before.status)
    && Follows(before.duplicateOf, after.duplicateOf, had, have)
    && (if !Terminal(before) && after.status == Imported then HasNew(after, have, next)
        else Follows(before.created, after.created, had, have))
  }

  /** The run stands as p after the first n rows. */
  ghost predicate RefersAfter(b: Batch, p: Progress, m: nat, i: nat, n: nat)
    requires i < |b.rows|
  {
    && |p.rows| == |b.rows| && Numbered(p.rows, p.questions, p.nextId, m)
    && OldGo(b.questions, p.questions, b.nextId, p.nextId, m)
    && (i >= n ==> p.rows[i].status == b.rows[i].status)
    && Refers(b.rows[i], p.rows[i], b.questions, p.questions, b.nextId)
  }

  lemma ReplacedRefers(b: Batch, p: Progress, row: ImportRow, referenced: set<nat>, m: nat, i: nat, n: nat)
    requires i < |b.rows| && Numbered(b.rows, b.questions, b.nextId, m) && RefersAfter(b, p, m, i, n)
    requires row.duplicateOf.Some? ==> row.duplicateOf.value < m
    ensures RefersAfter(b, Replaced(p, row, referenced), m, i, n)
  {
  }

  lemma CreatedRefers(b: Batch, p: Progress, m: nat, i: nat, n: nat)
    requires i < |b.rows| && Numbered(b.rows, b.questions, b.nextId, m) && RefersAfter(b, p, m, i, n)
    ensures RefersAfter(b, Created(p), m, i, n)
  {
  }

  /** Row n is written with the status that ends it; imported, it refers to a question made by this run. */
  lemma EndedRefers(b: Batch, p: Progress, q: Progress, m: nat, i: nat, n: nat)
    requires i < |b.rows| && n < |b.rows| && RefersAfter(b, p, m, i, n) && !Terminal(b.rows[n])
    requires |q.rows| == |p.rows| && q.rows == p.rows[n := q.rows[n]]
    requires q.questions == p.questions && q.nextId == p.nextId && q.rows[n].duplicateOf == p.rows[n].duplicateOf
    requires
      if q.rows[n].status == Imported
      then q.rows[n].created.Some? && b.nextId <= q.rows[n].created.value < p.nextId && q.rows[n].created.value in p.questions
      else q.rows[n].created == p.rows[n].created
    ensures RefersAfter(b, q, m, i, n + 1)
  {
  }

  lemma HandledRefers(b: Batch, p: Progress, fault: Fault, referenced: set<nat>, m: nat, i: nat, n: nat)
    requires i < |b.rows| && n < |b.rows| && Numbered(b.rows, b.questions, b.nextId, m)
    requires RefersAfter(b, p, m, i, n) && !Terminal(b.rows[n])
    ensures RefersAfter(b, Handled(p, b.rows[n], n, fault, referenced), m, i, n + 1)
  {
    var row := b.rows[n];
    var p1, q := Replaced(p, row, referenced), Handled(p, row, n, fault, referenced);
    ReplacedRefers(b, p, row, referenced, m, i, n);
    CreatedRefers(b, p1, m, i, n);
    var p2 := if Skips(row) || (Replaces(row) && fault == OnReplace) then p else if fault == OnCreate then p1 else Created(p1);
    assert b.nextId <= p1.nextId && |p1.rows| == |b.rows|;
    hide Replaced, RefersAfter, Numbered;
    EndedRefers(b, p2, q, m, i, n);
  }

  lemma CutoffRefers(b: Batch, p: Progress, fault: Fault, referenced: set<nat>, stage: Stage, m: nat, i: nat, n: nat)
    requires i < |b.rows| && n < |b.rows| && Numbered(b.rows, b.questions, b.nextId, m)
    requires RefersAfter(b, p, m, i, n) && stage != AfterSave
    ensures RefersAfter(b, Cutoff(p, b.rows[n], n, fault, referenced, stage), m, i, n)
  {
    ReplacedRefers(b, p, b.rows[n], referenced, m, i, n);
    CreatedRefers(b, Replaced(p, b.rows[n], referenced), m, i, n);
    hide Replaced, RefersAfter;
  }

  lemma WorkedRefers(b: Batch, faults: nat -> Fault, referenced: set<nat>, m: nat, i: nat, n: nat)
    requires i < |b.rows| && n <= |b.rows| && Numbered(b.rows, b.questions, b.nextId, m)
    ensures RefersAfter(b, Worked(b, faults, referenced, n), m, i, n)
  {
    var inv := (k: nat, p: Progress) => RefersAfter(b, p, m, i, k);
    forall k: nat, p: Progress | k < |b.rows| == |p.rows| && inv(k, p)
      ensures inv(k + 1, Turn(b, p, faults, referenced, k))
    {
      if !Terminal(b.rows[k]) {
        HandledRefers(b, p, faults(k), referenced, m, i, k);
      }
    }
    WorkedKeeps(inv, b, faults, referenced, n);
  }

  /** From one stored batch to a later one. */
  ghost predicate RowRefers(b: Batch, c: Batch, m: nat, i: nat)
    requires i < |b.rows|
  {
    && |c.rows| == |b.rows| && Numbered(c.rows, c.questions, c.nextId, m)
    && OldGo(b.questions, c.questions, b.nextId, c.nextId, m)
    && Refers(b.rows[i], c.rows[i], b.questions, c.questions, b.nextId)
  }

  lemma RunRefers(b: Batch, a: Attempt, referenced: set<nat>, m: nat, i: nat)
    requires i < |b.rows| && Numbered(b.rows, b.questions, b.nextId, m)
    ensures RowRefers(b, Run(b, a, referenced), m, i)
  {
    if Claimable(b, a.now) {
      if a.cut.None? {
        WorkedRefers(b, a.faults, referenced, m, i, |b.rows|);
      } else {
        var at := a.cut.value.at;
        WorkedRefers(b, a.faults, referenced, m, i, if at >= |b.rows| then |b.rows| else at);
        if at < |b.rows| && !Terminal(b.rows[at]) {
          var p := Worked(b, a.faults, referenced, at);
          if a.cut.value.stage == AfterSave {
            HandledRefers(b, p, a.faults(at), referenced, m, i, at);
          } else {
            CutoffRefers(b, p, a.faults(at), referenced, a.cut.value.stage, m, i, at);
          }
        }
      }
    }
  }

  lemma OneMoreRun(b: Batch, c: Batch, d: Batch, m: nat, i: nat)
    requires i < |b.rows| && Numbered(b.rows, b.questions, b.nextId, m)
    requires RowRefers(b, c, m, i) && RowRefers(c, d, m, i)
    ensures RowRefers(b, d, m, i)
  {
  }

  /** However many runs there are and however they end, a reference of a row is cleared exactly when its
      question is gone; only a row that one of them imports gets another one, to a question made by these
      runs that is still there. */
  lemma {:induction false} RunsKeepReferences(b: Batch, attempts: seq<Attempt>, referenced: set<nat>, m: nat, i: nat)
    requires i < |b.rows| && Numbered(b.rows, b.questions, b.nextId, m)
    ensures RowRefers(b, RunAll(b, attempts, referenced), m, i)
    decreases |attempts|
  {
    if attempts != [] {
      var n := |attempts| - 1;
      RunsKeepReferences(b, attempts[..n], referenced, m, i);
      var c := RunAll(b, attempts[..n], referenced);
      RunRefers(c, attempts[n], referenced, m, i);
      OneMoreRun(b, c, RunAll(b, attempts, referenced), m, i);
    }
  }
}
