/** The import run as it works: rows saved one by one, counters in memory, a flush every twenty. */
module ImportService {
  import opened Wrappers
  import opened ImportTypes
  import opened ImportRun
  import opened ImportProofs

  class Importer {
    var status: BatchStatus
    var claimedAt: Option<int>
    var rows: seq<ImportRow>
    var stored: Counts
    var questions: set<nat>
    var nextId: nat

    constructor (rows: seq<ImportRow>, questions: set<nat>, nextId: nat)
      ensures Stored() == Batch(Ready, None, rows, Counts(0, 0, 0, 0), questions, nextId)
    {
      status, claimedAt, stored := Ready, None, Counts(0, 0, 0, 0);
      this.rows, this.questions, this.nextId := rows, questions, nextId;
    }

    ghost function Stored(): Batch
      reads this
    {
      Batch(status, claimedAt, rows, stored, questions, nextId)
    }

    /** The stored part of a run in progress, with its counters in memory. */
    ghost function InProgress(counts: Counts, unflushed: nat): Progress
      reads this
    {
      Progress(rows, questions, nextId, counts, stored, unflushed)
    }

    method Claim(now: int) returns (claimed: bool)
      modifies this`claimedAt
      ensures claimed == Claimable(old(Stored()), now)
      ensures claimedAt == if claimed then Some(now) else old(claimedAt)
      ensures claimed ==> forall later :: later <= now + CLAIM_STALE_MINUTES ==> !Claimable(Stored(), later)
    {
      claimed := claimedAt.None? || claimedAt.value < now - CLAIM_STALE_MINUTES;
      if claimed {
        claimedAt := Some(now);
      }
    }

    /** Deletes a question and clears the references to it, row by row. */
    method DeleteQuestion(q: nat)
      modifies this`rows, this`questions
      ensures questions == old(questions) - {q} && rows == Forget(old(rows), q)
    {
      questions := questions - {q};
      var i := 0;
      while i < |rows|
        invariant 0 <= i <= |rows| == |old(rows)| && questions == old(questions) - {q}
        invariant forall j :: 0 <= j < |rows| ==> rows[j] == if j < i then Forget(old(rows), q)[j] else old(rows)[j]
      {
        var row := rows[i];
        if row.duplicateOf == Some(q) {
          row := row.(duplicateOf := None);
        }
        if row.created == Some(q) {
          row := row.(created := None);
        }
        rows := rows[i := row];
        i := i + 1;
      }
    }

    method FailRow(i: nat, counts: Counts) returns (after: Counts)
      requires i < |rows|
      modifies this`rows
      ensures |rows| == |old(rows)|
      ensures forall u :: InProgress(after, u) == Erred(old(InProgress(counts, u)), i)
    {
      rows := rows[i := rows[i].(status := Error)];
      after := counts.(failed := counts.failed + 1);
    }

    /** One row as it was loaded; an exception anywhere turns it into an error and goes no further. */
    method HandleRow(i: nat, row: ImportRow, fault: Fault, referenced: set<nat>, counts: Counts) returns (after: Counts)
      requires i < |rows|
      modifies this`rows, this`questions, this`nextId
      ensures |rows| == |old(rows)|
      ensures forall u :: InProgress(after, u) == Handled(old(InProgress(counts, u)), row, i, fault, referenced)
    {
      after := counts;
      if row.status == Duplicate && row.action == Skip {
        if fault == OnSave {
          after := FailRow(i, after);
        } else {
          rows := rows[i := rows[i].(status := Skipped)];
          after := after.(skipped := after.skipped + 1);
        }
        return;
      }
      var warnings := row.warnings;
      if row.status == Duplicate && row.action == Replace && row.duplicateOf.Some? {
        if fault == OnReplace {
          after := FailRow(i, after);
          return;
        }
        var target := row.duplicateOf.value;
        if target in questions {
          if target !in referenced {
            DeleteQuestion(target);
          } else {
            warnings := warnings + [NotReplaced];
          }
        }
      }
      if fault == OnCreate {
        after := FailRow(i, after);
        return;
      }
      var question := nextId;
      questions, nextId := questions + {question}, nextId + 1;
      if fault == OnOptions {
        after := FailRow(i, after);
        return;
      }
      if row.duplicateOf.Some? {
        after := after.(duplicates := after.duplicates + 1);
      }
      if fault == OnSave {
        after := FailRow(i, after);
        return;
      }
      rows := rows[i := rows[i].(status := Imported, created := Some(question), warnings := warnings)];
      after := after.(created := after.created + 1);
    }

    /** A delivery that is not cut off: nothing without the claim, everything with it. */
    method RunImport(now: int, faults: nat -> Fault, referenced: set<nat>)
      modifies this
      ensures Stored() == Run(old(Stored()), Attempt(now, faults, None), referenced)
      ensures ImportProofs.Kept(old(Stored()), Stored(), 0)
      ensures Claimable(old(Stored()), now) ==>
        && status == Completed && (forall i :: 0 <= i < |rows| ==> Terminal(rows[i]))
        && Total(stored) - Total(old(stored)) == Finished(rows) - Finished(old(rows))
      ensures KeepsReferenced(old(questions), questions, referenced)
    {
      ghost var delivery := Attempt(now, faults, None);
      RunKeeps(Stored(), delivery, referenced);
      RunKeepsReferenced(Stored(), delivery, referenced);
      if Claimable(Stored(), now) {
        UncutRunFinishesAll(Stored(), delivery, referenced);
      }
      var claimed := Claim(now);
      if !claimed {
        return;
      }
      status := Importing;
      var loaded, counts, unflushed := rows, stored, 0;
      ghost var b := old(Stored());
      var i := 0;
      while i < |loaded|
        invariant 0 <= i <= |loaded| == |rows| && loaded == b.rows
        invariant claimedAt == Some(now)
        invariant InProgress(counts, unflushed) == Worked(b, faults, referenced, i)
      {
        if loaded[i].status !in {Error, Imported, Skipped} {
          counts := HandleRow(i, loaded[i], faults(i), referenced, counts);
          unflushed := unflushed + 1;
          if unflushed >= FLUSH_EVERY {
            stored, unflushed := counts, 0;
          }
        }
        i := i + 1;
      }
      stored := counts;
      status := Completed;
    }
  }
}
