/** A duplicate check on a batch that was imported in part, and what the runs after it do. */
module ImportAgain {
  import opened Wrappers
  import opened DuplicateFinder
  import opened ImportTypes
  import opened ImportRun
  import opened ImportOutcomes
  import R = RunDedup

  type Bank = seq<(nat, Entry)>

  /** The batch after a check that went through all its rows. */
  function Checked(matcher: Matcher, bank: Bank, b: Batch): Batch {
    b.(rows := R.MarkedAll(matcher, bank, b.rows))
  }

  /** Rows and bank refer to questions that have been numbered. */
  ghost predicate Numbered(bank: Bank, b: Batch) {
    && PointsBelow(b.rows, b.nextId)
    && (forall i :: 0 <= i < |b.rows| && b.rows[i].created.Some? ==> b.rows[i].created.value < b.nextId)
    && (forall k :: 0 <= k < |bank| ==> bank[k].0 < b.nextId)
  }

  /** The confirm view lets a batch through once every duplicate has a decision. */
  ghost predicate Decided(rows: seq<ImportRow>) {
    forall i :: 0 <= i < |rows| && rows[i].status == Duplicate ==> rows[i].action != Undecided
  }

  /** A match with a question is a match with one of the bank. */
  lemma VerdictIsKnown(matcher: Matcher, bank: Bank, b: Batch, i: nat)
    requires i < |b.rows| && Numbered(bank, b)
    ensures var found := R.Verdict(matcher, bank, b.rows, i);
      found.Some? && found.value.ref.Question? ==> found.value.ref.id < b.nextId
  {
    var found := R.Verdict(matcher, bank, b.rows, i);
    var visits := Visits(bank, R.Texts(b.rows), i);
    var scores := Scores(matcher, b.rows[i].entry, visits);
    BestIsFirstBest(scores);
    if found.Some? {
      var k :| 0 <= k < |scores| && FirstBest(scores, k, found.value);
      assert visits[k].0 == found.value.ref;
    }
  }

  lemma CheckedPointsBelow(matcher: Matcher, bank: Bank, b: Batch)
    requires Numbered(bank, b)
    ensures PointsBelow(Checked(matcher, bank, b).rows, b.nextId)
  {
    forall i: nat | i < |b.rows|
      ensures var row := Checked(matcher, bank, b).rows[i]; row.duplicateOf.Some? ==> row.duplicateOf.value < b.nextId
    {
      VerdictIsKnown(matcher, bank, b, i);
    }
  }

  // ---------- imported a second time ----------

  /** Some run of the sequence goes through the row, making a question. */
  ghost predicate GoneThrough(b: Batch, attempts: seq<Attempt>, referenced: set<nat>, i: nat) {
    exists k :: 0 <= k < |attempts| && MakesQuestion(RunAll(b, attempts[..k], referenced), attempts[k], i)
  }

  /** The run goes through the row, with no exception on the way. */
  predicate MakesQuestion(b: Batch, a: Attempt, i: nat) {
    Finishes(b, a, i) && (a.faults(i) == NoFault || (a.faults(i) == OnReplace && !Replaces(b.rows[i])))
  }

  /** A row that was imported gets a second question, over any sequence of runs after a check, exactly
      when the check finds it a match, nobody ever decided to skip it, and a run goes through it. */
  lemma ImportedAgainIff(
    matcher: Matcher, bank: Bank, b: Batch, attempts: seq<Attempt>, referenced: set<nat>, i: nat)
    requires Numbered(bank, b) && i < |b.rows| && b.rows[i].status == Imported
    ensures
      var checked := Checked(matcher, bank, b);
      var c := RunAll(checked, attempts, referenced);
      && i < |c.rows|
      && (New(c.rows[i], b.nextId) <==>
            && R.Verdict(matcher, bank, b.rows, i).Some? && b.rows[i].action != Skip
            && GoneThrough(checked, attempts, referenced, i))
  {
    var checked := Checked(matcher, bank, b);
    CheckedPointsBelow(matcher, bank, b);
    RunsImportRow(checked, attempts, referenced, b.nextId, i);
    if checked.rows[i].status == Imported || checked.rows[i].action == Skip {
      FinishedOrSkippedStaysOut(checked, attempts, referenced, b.nextId, i);
    } else {
      forall k | 0 <= k < |attempts|
        ensures MakesQuestion(RunAll(checked, attempts[..k], referenced), attempts[k], i) <==>
          Imports(RunAll(checked, attempts[..k], referenced), attempts[k], i)
      {
        RunsImportRow(checked, attempts[..k], referenced, b.nextId, i);
      }
    }
  }

  /** A row whose own question is in the bank always finds a match. */
  lemma ImportedRowMatchesItself(matcher: Matcher, bank: Bank, rows: seq<ImportRow>, i: nat, q: nat)
    requires R.FindsItself(matcher) && i < |rows| && rows[i].entry.text != "" && rows[i].entry.options != {}
    requires (q, rows[i].entry) in bank
    ensures R.Verdict(matcher, bank, rows, i).Some?
  {
    R.ItselfQualifies(matcher, rows[i].entry);
    R.FlaggedIff(matcher, bank, rows, i);
  }

  // ---------- which questions are replaced ----------

  /** The row was to replace its match before the check, and its match is now question q. */
  ghost predicate NowAsks(matcher: Matcher, bank: Bank, rows: seq<ImportRow>, i: nat, q: nat)
    requires i < |rows|
  {
    var found := R.Verdict(matcher, bank, rows, i);
    rows[i].status != Error && rows[i].action == Replace && found.Some? && found.value.ref == Question(q)
  }

  lemma AsksAfterCheck(matcher: Matcher, bank: Bank, rows: seq<ImportRow>, i: nat, q: nat)
    requires i < |rows|
    ensures Asks(R.MarkedAll(matcher, bank, rows)[i], q) <==> NowAsks(matcher, bank, rows, i, q)
  {
  }

  /** After a check, a run takes a question out of the bank exactly when no test uses it and the run
      gets to a row whose earlier decision was to replace, whatever it was to replace then, and
      which matches that question best now. */
  lemma CheckedRunRemovesIff(matcher: Matcher, bank: Bank, b: Batch, a: Attempt, referenced: set<nat>, q: nat)
    requires q in b.questions && q < b.nextId
    ensures
      var checked := Checked(matcher, bank, b);
      q !in Run(checked, a, referenced).questions <==>
        && q !in referenced
        && exists i :: 0 <= i < Entered(checked, a) && NowAsks(matcher, bank, b.rows, i, q) && a.faults(i) != OnReplace
  {
    var checked := Checked(matcher, bank, b);
    RunRemovesIff(checked, a, referenced, q);
    forall i: nat | i < |b.rows|
      ensures Asks(checked.rows[i], q) <==> NowAsks(matcher, bank, b.rows, i, q)
    {
      AsksAfterCheck(matcher, bank, b.rows, i, q);
    }
  }

  // ---------- examples ----------

  /** A batch of one row that matched question 0, with a decision taken. */
  function OneRow(entry: Entry, action: DedupAction): Batch {
    Batch(Ready, None, [ImportRow(entry, Duplicate, [], Some(0), action, None)], Counts(0, 0, 0, 0), {0, 1}, 2)
  }

  /** A run at this minute, without exceptions. */
  function Clean(now: int, cut: Option<Cut>): Attempt {
    Attempt(now, _ => NoFault, cut)
  }

  /** With one entry in the bank that is the row's own, the row matches that one. */
  lemma OnlyMatch(matcher: Matcher, row: ImportRow, q: nat)
    requires R.FindsItself(matcher) && row.entry.text != "" && row.entry.options != {} && row.status != Error
    ensures R.Verdict(matcher, [(q, row.entry)], [row], 0) == Some(Match(Question(q), 1.0))
  {
    R.ItselfQualifies(matcher, row.entry);
    var bank := [(q, row.entry)];
    var texts := R.Texts([row]);
    assert [row][..0] == [] && R.Eligible([row]) == [0];
    assert texts[..0] == [] && texts == [(0, row.entry)];
    assert Without(texts, 0) == [];
    var scores := Scores(matcher, row.entry, Visits(bank, texts, 0));
    assert scores == [(Question(q), Some(1.0))];
    assert scores[..0] == [] && BestOf(scores) == Lead(BestOf(scores[..0]), Question(q), Some(1.0));
    assert R.Verdict(matcher, bank, [row], 0) == Found(matcher, row.entry, bank, texts, 0);
  }

  /** A row kept beside its match is imported; the run fails at its end; another Subject is chosen and
      the first one again; the check finds the row's own question, the old decision lets it through,
      and the next run makes a second question of the same row. */
  lemma RowIsImportedTwice(matcher: Matcher, entry: Entry)
    requires R.FindsItself(matcher) && entry.text != "" && entry.options != {}
    ensures
      var first := Run(OneRow(entry, KeepBoth), Clean(0, Some(Cut(1, BeforeRow, true))), {});
      var checked := Checked(matcher, [(2, entry)], first);
      var second := Run(checked, Clean(31, None), {});
      && first.status == Failed && first.rows[0].status == Imported && first.rows[0].created == Some(2)
      && Decided(checked.rows)
      && second.rows[0].created == Some(3) && second.questions == {0, 1, 2, 3}
  {
    var b, a := OneRow(entry, KeepBoth), Clean(0, Some(Cut(1, BeforeRow, true)));
    assert Worked(b, a.faults, {}, 1) == Turn(b, Worked(b, a.faults, {}, 0), a.faults, {}, 0);
    var first := Run(b, a, {});
    OnlyMatch(matcher, first.rows[0], 2);
    assert first.rows == [first.rows[0]];
    var checked := Checked(matcher, [(2, entry)], first);
    var again := Clean(31, None);
    assert Worked(checked, again.faults, {}, 1) == Turn(checked, Worked(checked, again.faults, {}, 0), again.faults, {}, 0);
  }

  /** A decision to replace question 0 stands when the check for another Subject matches question 1
      instead, and the run deletes question 1. */
  lemma DecisionHitsAnotherQuestion(matcher: Matcher, entry: Entry)
    requires R.FindsItself(matcher) && entry.text != "" && entry.options != {}
    ensures
      var b := OneRow(entry, Replace);
      var checked := Checked(matcher, [(1, entry)], b);
      && b.rows[0].duplicateOf == Some(0)
      && Decided(checked.rows) && Run(checked, Clean(0, None), {}).questions == {0, 2}
  {
    var b := OneRow(entry, Replace);
    OnlyMatch(matcher, b.rows[0], 1);
    assert b.rows == [b.rows[0]];
    var checked, a := Checked(matcher, [(1, entry)], b), Clean(0, None);
    assert Worked(checked, a.faults, {}, 1) == Turn(checked, Worked(checked, a.faults, {}, 0), a.faults, {}, 0);
  }

  /** A run killed between deleting question 0 and making its successor loses it; a later run makes
      the successor.  An exception at the same place loses it for good. */
  lemma KilledReplaceIsRepaired(entry: Entry)
    ensures
      var b := OneRow(entry, Replace);
      var killed := Run(b, Clean(0, Some(Cut(0, AfterDelete, false))), {});
      var failed := Run(b, Attempt(0, _ => OnCreate, None), {});
      && Lost(b, killed, 0) && !Lost(b, Run(killed, Clean(31, None), {}), 0)
      && Lost(b, failed, 0) && Lost(b, Run(failed, Clean(31, None), {}), 0)
  {
    var b := OneRow(entry, Replace);
    var killed := Run(b, Clean(0, Some(Cut(0, AfterDelete, false))), {});
    var again := Clean(31, None);
    assert Worked(killed, again.faults, {}, 1) == Turn(killed, Worked(killed, again.faults, {}, 0), again.faults, {}, 0);
    assert Asks(b.rows[0], 0);
    var bad := Attempt(0, _ => OnCreate, None);
    assert Worked(b, bad.faults, {}, 1) == Turn(b, Worked(b, bad.faults, {}, 0), bad.faults, {}, 0);
    var failed := Run(b, bad, {});
    assert Worked(failed, again.faults, {}, 1) == Turn(failed, Worked(failed, again.faults, {}, 0), again.faults, {}, 0);
  }
}
