/** What an import run counts, stores and notes, kind by kind. */
module ImportCounts {
  import opened Wrappers
  import opened ImportTypes
  import opened ImportRun
  import opened ImportProofs

  const FAILED: RowStatus -> bool := s => s == Error
  const SKIPPED: RowStatus -> bool := s => s == RowStatus.Skipped

  /** Created, failed and skipped have each grown by the rows that became imported, failed and skipped. */
  ghost predicate CountsMatch(before: Counts, rows: seq<ImportRow>, now: Counts, after: seq<ImportRow>) {
    && now.created - before.created == CountWhere(after, IMPORTED) - CountWhere(rows, IMPORTED)
    && now.failed - before.failed == CountWhere(after, FAILED) - CountWhere(rows, FAILED)
    && now.skipped - before.skipped == CountWhere(after, SKIPPED) - CountWhere(rows, SKIPPED)
  }

  /** Each row is counted once, as what it became. */
  lemma HandledCounters(p: Progress, row: ImportRow, i: nat, fault: Fault, referenced: set<nat>)
    requires i < |p.rows|
    ensures var q := Handled(p, row, i, fault, referenced);
      && |q.rows| == |p.rows| && q.rows[i].status in {Imported, Error, RowStatus.Skipped}
      && q.counts.created == p.counts.created + Bit(q.rows[i].status == Imported)
      && q.counts.failed == p.counts.failed + Bit(q.rows[i].status == Error)
      && q.counts.skipped == p.counts.skipped + Bit(q.rows[i].status == RowStatus.Skipped)
      && q.unflushed == p.unflushed && q.stored == p.stored
  {
  }

  lemma HandledDuplicates(p: Progress, row: ImportRow, i: nat, fault: Fault, referenced: set<nat>)
    requires i < |p.rows| && !Terminal(row)
    ensures Handled(p, row, i, fault, referenced).counts.duplicates ==
      p.counts.duplicates + Bit(CountsAsDuplicate(row, fault))
  {
  }

  lemma HandledCounts(p: Progress, row: ImportRow, i: nat, fault: Fault, referenced: set<nat>)
    requires i < |p.rows| && !Terminal(p.rows[i])
    ensures var q := Handled(p, row, i, fault, referenced);
      CountsMatch(p.counts, p.rows, q.counts, q.rows)
  {
    HandledCounters(p, row, i, fault, referenced);
    HandledWritesRow(p, row, i, fault, referenced);
    ReplacedKeepsStatuses(p, row, referenced);
    hide Handled;
    var q, d := Handled(p, row, i, fault, referenced), Replaced(p, row, referenced).rows;
    KindCount(p.rows, d, q.rows, i, IMPORTED);
    KindCount(p.rows, d, q.rows, i, FAILED);
    KindCount(p.rows, d, q.rows, i, SKIPPED);
  }

  lemma KindCount(rows: seq<ImportRow>, forgotten: seq<ImportRow>, after: seq<ImportRow>, i: nat, kind: RowStatus -> bool)
    requires i < |rows| == |after| && SameStatuses(rows, forgotten)
    requires after == rows[i := after[i]] || after == forgotten[i := after[i]]
    ensures CountWhere(after, kind) == CountWhere(rows, kind) + Bit(kind(after[i].status)) - Bit(kind(rows[i].status))
  {
    SameStatusesSameCount(rows, forgotten, kind);
    CountUpdate(rows, kind, i, after[i]);
    CountUpdate(forgotten, kind, i, after[i]);
  }

  /** The rows among the first n that a run finds unfinished. */
  ghost function Unfinished(rows: seq<ImportRow>, n: nat): nat
    requires n <= |rows|
  {
    if n == 0 then 0 else Unfinished(rows, n - 1) + Bit(!Terminal(rows[n - 1]))
  }

  /** The row gets its question and options although it is a duplicate of another one. */
  ghost predicate CountsAsDuplicate(row: ImportRow, fault: Fault) {
    && !Terminal(row) && row.duplicateOf.Some? && !(row.status == Duplicate && row.action == Skip)
    && (fault in {NoFault, OnSave} || (fault == OnReplace && !(row.status == Duplicate && row.action == Replace)))
  }

  ghost function Duplicates(rows: seq<ImportRow>, faults: nat -> Fault, n: nat): nat
    requires n <= |rows|
  {
    if n == 0 then 0 else Duplicates(rows, faults, n - 1) + Bit(CountsAsDuplicate(rows[n - 1], faults(n - 1)))
  }

  /** The counters in memory after n rows, and how many rows they are ahead of what is stored. */
  ghost predicate Counting(b: Batch, faults: nat -> Fault, p: Progress, n: nat)
    requires n <= |b.rows|
  {
    && LoopSound(b, p, n) && CountsMatch(b.stored, b.rows, p.counts, p.rows)
    && p.counts.duplicates == b.stored.duplicates + Duplicates(b.rows, faults, n)
    && p.unflushed == Unfinished(b.rows, n) % 20
  }

  lemma TurnCounts(b: Batch, p: Progress, faults: nat -> Fault, referenced: set<nat>, n: nat)
    requires n < |b.rows| && Counting(b, faults, p, n)
    ensures Counting(b, faults, Turn(b, p, faults, referenced, n), n + 1)
  {
    hide Handled, LoopSound, CountsMatch;
    TurnIsSound(b, p, faults, referenced, n);
    if !Terminal(b.rows[n]) {
      StillUnfinished(b, p, n);
      HandledCounts(p, b.rows[n], n, faults(n), referenced);
      HandledCounters(p, b.rows[n], n, faults(n), referenced);
      HandledDuplicates(p, b.rows[n], n, faults(n), referenced);
      MatchesOn(b.stored, b.rows, p.counts, p.rows, Handled(p, b.rows[n], n, faults(n), referenced).counts,
                Handled(p, b.rows[n], n, faults(n), referenced).rows);
    }
  }

  lemma StillUnfinished(b: Batch, p: Progress, n: nat)
    requires n < |b.rows| && LoopSound(b, p, n) && !Terminal(b.rows[n])
    ensures !Terminal(p.rows[n]) && p.unflushed < 20
  {
  }

  lemma MatchesOn(c: Counts, rows: seq<ImportRow>, d: Counts, next: seq<ImportRow>, e: Counts, last: seq<ImportRow>)
    requires CountsMatch(c, rows, d, next) && CountsMatch(d, next, e, last)
    ensures CountsMatch(c, rows, e, last)
  {
  }

  lemma WorkedCounts(b: Batch, faults: nat -> Fault, referenced: set<nat>, n: nat)
    requires n <= |b.rows|
    ensures Counting(b, faults, Worked(b, faults, referenced, n), n)
  {
    var inv := (m: nat, p: Progress) => m <= |b.rows| && Counting(b, faults, p, m);
    forall m: nat, p: Progress | m < |b.rows| == |p.rows| && inv(m, p)
      ensures inv(m + 1, Turn(b, p, faults, referenced, m))
    {
      TurnCounts(b, p, faults, referenced, m);
    }
    WorkedKeeps(inv, b, faults, referenced, n);
  }

  /** A claimed run that is not cut off stores exactly what it did: created, failed and skipped each grow by the
      rows that became imported, failed and skipped, and duplicates by the rows that got a question
      although they are duplicates of one. */
  lemma UncutRunCounts(b: Batch, a: Attempt, referenced: set<nat>)
    requires Claimable(b, a.now) && a.cut.None?
    ensures var c := Run(b, a, referenced);
      && CountsMatch(b.stored, b.rows, c.stored, c.rows)
      && c.stored.duplicates == b.stored.duplicates + Duplicates(b.rows, a.faults, |b.rows|)
  {
    WorkedCounts(b, a.faults, referenced, |b.rows|);
  }

  /** A run that dies has stored its counters at every twentieth row: they fall short of the rows finished by
      the rest, and by one more when it dies right after a row. */
  lemma KilledRunLag(b: Batch, a: Attempt, referenced: set<nat>)
    requires Claimable(b, a.now) && a.cut.Some?
    ensures var c, at := Run(b, a, referenced), if a.cut.value.at < |b.rows| then a.cut.value.at else |b.rows|;
      (Finished(c.rows) - Finished(b.rows)) - (Total(c.stored) - Total(b.stored)) ==
        Unfinished(b.rows, at) % 20 + Bit(at < |b.rows| && a.cut.value.stage == AfterSave && !Terminal(b.rows[at]))
  {
    var cut := a.cut.value;
    var at := if cut.at < |b.rows| then cut.at else |b.rows|;
    WorkedCounts(b, a.faults, referenced, at);
    var p := Worked(b, a.faults, referenced, at);
    if at < |b.rows| && !Terminal(b.rows[at]) {
      if cut.stage == AfterSave {
        HandledFinishesRow(p, b.rows[at], at, a.faults(at), referenced);
      } else {
        CutoffKeepsStatuses(p, b.rows[at], at, a.faults(at), referenced, cut.stage);
        SameStatusesSameCount(p.rows, Died(b, a.faults, referenced, cut).rows, FINISHED);
      }
    }
  }

  /** A delivery does nothing without a claim; with one it stamps the claim, and ends completed, failed when an
      exception cut it off, or importing when it was killed. */
  lemma RunStamps(b: Batch, a: Attempt, referenced: set<nat>)
    ensures var c := Run(b, a, referenced);
      if b.claimedAt.Some? && a.now - b.claimedAt.value <= 30 then c == b
      else
        && c.claimedAt == Some(a.now)
        && c.status == (if a.cut.None? then Completed else if a.cut.value.raised then Failed else Importing)
  {
  }

  // ---------- notes on the rows ----------

  /** The row is to replace a question that a test uses. */
  ghost predicate AsksForUsed(row: ImportRow, questions: set<nat>, referenced: set<nat>) {
    row.status == Duplicate && row.action == Replace && row.duplicateOf.Some?
    && row.duplicateOf.value in questions && row.duplicateOf.value in referenced
  }

  /** What row i says after n turns: a row that was imported as the successor of a question in use says that
      it could not replace it; its text, and every other row's notes, are as they were. */
  ghost predicate NotesAfter(b: Batch, p: Progress, referenced: set<nat>, i: nat, n: nat)
    requires i < |b.rows|
  {
    && |p.rows| == |b.rows| && KeepsReferenced(b.questions, p.questions, referenced)
    && (forall q :: q in p.questions && q in referenced ==> q in b.questions || q >= b.nextId)
    && p.nextId >= b.nextId
    && p.rows[i].entry == b.rows[i].entry
    && (i >= n || Terminal(b.rows[i]) ==> p.rows[i].status == b.rows[i].status)
    && p.rows[i].warnings == b.rows[i].warnings +
         (if i < n && !Terminal(b.rows[i]) && p.rows[i].status == Imported && AsksForUsed(b.rows[i], b.questions, referenced)
          then [NotReplaced] else [])
  }

  lemma TurnNotes(b: Batch, p: Progress, faults: nat -> Fault, referenced: set<nat>, i: nat, n: nat)
    requires i < |b.rows| && n < |b.rows| && NotesAfter(b, p, referenced, i, n)
    requires b.rows[n].duplicateOf.Some? ==> b.rows[n].duplicateOf.value < b.nextId
    ensures NotesAfter(b, Turn(b, p, faults, referenced, n), referenced, i, n + 1)
  {
    if !Terminal(b.rows[n]) {
      HandledKeepsReferenced(p, b.rows[n], n, faults(n), referenced);
      if i == n {
        OwnNotes(b, p, faults(n), referenced, n);
      } else {
        OtherNotes(p, b.rows[n], n, faults(n), referenced, i);
      }
    }
  }

  lemma OwnNotes(b: Batch, p: Progress, fault: Fault, referenced: set<nat>, n: nat)
    requires n < |b.rows| && NotesAfter(b, p, referenced, n, n) && !Terminal(b.rows[n])
    requires b.rows[n].duplicateOf.Some? ==> b.rows[n].duplicateOf.value < b.nextId
    ensures var q := Handled(p, b.rows[n], n, fault, referenced);
      && q.rows[n].entry == b.rows[n].entry
      && q.rows[n].warnings == b.rows[n].warnings +
           (if q.rows[n].status == Imported && AsksForUsed(b.rows[n], b.questions, referenced) then [NotReplaced] else [])
  {
    assert b.rows[n].warnings + [] == b.rows[n].warnings;
  }

  lemma OtherNotes(p: Progress, row: ImportRow, n: nat, fault: Fault, referenced: set<nat>, i: nat)
    requires n < |p.rows| && i < |p.rows| && i != n
    ensures var q := Handled(p, row, n, fault, referenced);
      && |q.rows| == |p.rows| && q.rows[i].entry == p.rows[i].entry && q.rows[i].warnings == p.rows[i].warnings
      && q.rows[i].status == p.rows[i].status
  {
    HandledWritesRow(p, row, n, fault, referenced);
    ReplacedKeepsStatuses(p, row, referenced);
  }

  /** An uncut run notes on a row that it imports, and on no other, that the question to replace is in use. */
  lemma RunNotes(b: Batch, a: Attempt, referenced: set<nat>, i: nat)
    requires Claimable(b, a.now) && a.cut.None? && i < |b.rows|
    requires forall j :: 0 <= j < |b.rows| && b.rows[j].duplicateOf.Some? ==> b.rows[j].duplicateOf.value < b.nextId
    ensures var c := Run(b, a, referenced);
      && |c.rows| == |b.rows| && c.rows[i].entry == b.rows[i].entry
      && c.rows[i].warnings == b.rows[i].warnings +
           (if !Terminal(b.rows[i]) && c.rows[i].status == Imported && AsksForUsed(b.rows[i], b.questions, referenced)
            then [NotReplaced] else [])
  {
    var n := |b.rows|;
    var inv := (m: nat, p: Progress) => NotesAfter(b, p, referenced, i, m);
    forall m: nat, p: Progress | m < |b.rows| == |p.rows| && inv(m, p)
      ensures inv(m + 1, Turn(b, p, a.faults, referenced, m))
    {
      TurnNotes(b, p, a.faults, referenced, i, m);
    }
    assert b.rows[i].warnings + [] == b.rows[i].warnings;
    WorkedKeeps(inv, b, a.faults, referenced, n);
  }
}
