/** The row loop of the duplicate check: it can stop early and be started again. */
module RunDedup {
  import opened Wrappers
  import opened DuplicateFinder
  import LengthFilter
  import opened ImportTypes
  import P = DedupProtocol

  // ---------- the rows that take part ----------

  /** The positions of the rows without errors, in file order. */
  function Eligible(rows: seq<ImportRow>): (order: seq<nat>)
    ensures forall i :: i in order <==> 0 <= i < |rows| && rows[i].status != Error
    ensures forall j, k :: 0 <= j < k < |order| ==> order[j] < order[k]
  {
    if rows == [] then []
    else
      var n := |rows| - 1;
      var order := Eligible(rows[..n]);
      assert forall j :: 0 <= j < |order| ==> order[j] in order;
      if rows[n].status == Error then order else order + [n]
  }

  /** Their texts, which every row is also compared with. */
  function Texts(rows: seq<ImportRow>): seq<(nat, Entry)> {
    var order := Eligible(rows);
    assert forall k :: 0 <= k < |order| ==> order[k] in order;
    seq(|order|, k requires 0 <= k < |order| => (order[k], rows[order[k]].entry))
  }

  /** What the finder says of row i, given the bank of the Subject. */
  function Verdict(matcher: Matcher, bank: seq<(nat, Entry)>, rows: seq<ImportRow>, i: nat): Option<Match>
    requires i < |rows|
  {
    Found(matcher, rows[i].entry, bank, Texts(rows), i)
  }

  // ---------- one row ----------

  /** A score to three decimals, ties to the even one, and then cut to whole percent. */
  function Percent(score: real): int {
    var scaled := score * 1000.0;
    var down := scaled.Floor;
    var rest := scaled - down as real;
    (if rest < 0.5 || (rest == 0.5 && down % 2 == 0) then down else down + 1) / 10
  }

  function Marked(row: ImportRow, found: Option<Match>): ImportRow {
    if found.Some? then
      var note := Similar(Percent(found.value.score));
      row.(status := Duplicate,
           duplicateOf := if found.value.ref.Question? then Some(found.value.ref.id) else None,
           warnings := if note in row.warnings then row.warnings else row.warnings + [note])
    else if row.status == Duplicate then
      row.(status := if row.warnings != [] then Warning else Valid, duplicateOf := None, action := Undecided)
    else row
  }

  /** What the check writes into a row, column by column.  A match is noted once; a row that matches nothing
      any more gets back the status that its notes call for, and loses its decision. */
  lemma MarkedWrites(row: ImportRow, found: Option<Match>)
    ensures var after := Marked(row, found);
      && after.entry == row.entry && after.created == row.created
      && (found.Some? ==>
            && after.status == Duplicate && after.action == row.action
            && after.duplicateOf == (if found.value.ref.Question? then Some(found.value.ref.id) else None)
            && exists p :: IsPercent(found.value.score, p)
                           && after.warnings == row.warnings + (if Similar(p) in row.warnings then [] else [Similar(p)]))
      && (found.None? && row.status == Duplicate ==>
            && after.status == (if row.warnings == [] then Valid else Warning)
            && after.duplicateOf.None? && after.action == Undecided && after.warnings == row.warnings)
      && (found.None? && row.status != Duplicate ==> after == row)
  {
    if found.Some? {
      PercentIs(found.value.score);
      assert row.warnings + [] == row.warnings;
    }
  }

  /** p is a tenth, rounded down, of a whole number of thousandths nearest to the score. */
  ghost predicate IsPercent(score: real, p: int) {
    exists k: int :: -1.0 <= 2.0 * (1000.0 * score - k as real) <= 1.0 && p == k / 10
  }

  lemma PercentIs(score: real)
    ensures IsPercent(score, Percent(score))
  {
    var scaled := score * 1000.0;
    var down := scaled.Floor;
    var rest := scaled - down as real;
    var k := if rest < 0.5 || (rest == 0.5 && down % 2 == 0) then down else down + 1;
    assert -1.0 <= 2.0 * (1000.0 * score - k as real) <= 1.0;
  }

  // ---------- the loop ----------

  /** The rows after those before `bound` have been gone through. */
  function MarkedBefore(matcher: Matcher, bank: seq<(nat, Entry)>, rows: seq<ImportRow>, bound: nat): seq<ImportRow> {
    seq(|rows|, i requires 0 <= i < |rows| =>
      if i < bound && rows[i].status != Error then Marked(rows[i], Verdict(matcher, bank, rows, i)) else rows[i])
  }

  function MarkedAll(matcher: Matcher, bank: seq<(nat, Entry)>, rows: seq<ImportRow>): seq<ImportRow> {
    MarkedBefore(matcher, bank, rows, |rows|)
  }

  /** How many rows are gone through before a check of the generation fails. */
  function StopAt(isStale: nat -> bool, n: nat, from: nat): (k: nat)
    requires from <= n
    ensures from <= k <= n
    ensures k < n ==> k % P.STALE_CHECK_EVERY == 0 && isStale(k)
    ensures forall j :: from <= j < k && j % P.STALE_CHECK_EVERY == 0 ==> !isStale(j)
    decreases n - from
  {
    if from == n || (from % P.STALE_CHECK_EVERY == 0 && isStale(from)) then from else StopAt(isStale, n, from + 1)
  }

  /** The row position at which a run stops that has gone through k rows. */
  function BoundOf(rows: seq<ImportRow>, k: nat): nat {
    if k < |Eligible(rows)| then Eligible(rows)[k] else |rows|
  }

  /** One row more is exactly the next eligible one. */
  lemma BoundMoves(rows: seq<ImportRow>, k: nat, i: nat)
    requires k < |Eligible(rows)| && i < |rows| && rows[i].status != Error
    ensures i < BoundOf(rows, k + 1) <==> i < BoundOf(rows, k) || i == Eligible(rows)[k]
  {
    var order := Eligible(rows);
    assert i in order;
    var j :| 0 <= j < |order| && order[j] == i;
    assert order[k] in order;
  }

  lemma MarkedOneMore(matcher: Matcher, bank: seq<(nat, Entry)>, rows: seq<ImportRow>, k: nat)
    requires k < |Eligible(rows)|
    ensures
      var i := Eligible(rows)[k];
      && i < |rows| && rows[i].status != Error
      && MarkedBefore(matcher, bank, rows, BoundOf(rows, k))[i] == rows[i]
      && MarkedBefore(matcher, bank, rows, BoundOf(rows, k + 1)) ==
           MarkedBefore(matcher, bank, rows, BoundOf(rows, k))[i := Marked(rows[i], Verdict(matcher, bank, rows, i))]
  {
    var i := Eligible(rows)[k];
    assert i in Eligible(rows);
    var verdict := (j: nat) requires j < |rows| => Verdict(matcher, bank, rows, j);
    var less, more := MarkedBefore(matcher, bank, rows, BoundOf(rows, k)), MarkedBefore(matcher, bank, rows, BoundOf(rows, k + 1));
    forall j | 0 <= j < |rows|
      ensures more[j] == if j == i then Marked(rows[i], verdict(i)) else less[j]
    {
      if rows[j].status != Error {
        BoundMoves(rows, k, j);
      }
    }
  }

  class DedupBatch {
    var batch: P.Batch
    var rows: seq<ImportRow>

    constructor (rows: seq<ImportRow>)
      ensures batch == P.Batch(None, 0, P.Blank, None) && this.rows == rows
    {
      batch, this.rows := P.Batch(None, 0, P.Blank, None), rows;
    }

    /** The row loop; `isStale` tells what the check before a row would see.  Texts and verdicts are
        those of the rows as loaded, whatever has been written since. */
    method MarkRows(matcher: Matcher, bank: P.SubjectId -> seq<(nat, Entry)>, isStale: nat -> bool)
      modifies this`rows
      ensures batch.subject.None? ==> rows == old(rows)
      ensures batch.subject.Some? ==>
        rows == MarkedBefore(matcher, bank(batch.subject.value), old(rows),
                             BoundOf(old(rows), StopAt(isStale, |Eligible(old(rows))|, 0)))
    {
      if batch.subject.None? {
        return;
      }
      ghost var before := rows;
      var existing := bank(batch.subject.value);
      var order := Eligible(rows);
      var texts := Texts(rows);
      var k := 0;
      assert rows == MarkedBefore(matcher, existing, before, BoundOf(before, 0));
      while k < |order|
        invariant 0 <= k <= |order| && |rows| == |before|
        invariant rows == MarkedBefore(matcher, existing, before, BoundOf(before, k))
        invariant StopAt(isStale, |order|, 0) == StopAt(isStale, |order|, k)
      {
        if k % P.STALE_CHECK_EVERY == 0 && isStale(k) {
          return;
        }
        MarkedOneMore(matcher, existing, before, k);
        var i := order[k];
        var found := FindDuplicate(matcher, rows[i].entry, existing, texts, i);
        var row := rows[i];
        if found.Some? {
          var note := Similar(Percent(found.value.score));
          row := row.(status := Duplicate,
                      duplicateOf := if found.value.ref.Question? then Some(found.value.ref.id) else None);
          if note !in row.warnings {
            row := row.(warnings := row.warnings + [note]);
          }
          rows := rows[i := row];
        } else if row.status == Duplicate {
          row := row.(status := if row.warnings != [] then Warning else Valid, duplicateOf := None, action := Undecided);
          rows := rows[i := row];
        }
        k := k + 1;
      }
    }

    /** The conditional update that claims a generation. */
    method Claim(g: P.Generation, now: int) returns (claimed: bool)
      modifies this`batch
      ensures claimed == P.Claimable(old(batch), g, now)
      ensures batch == if claimed then old(batch).(status := P.Processing, claimedAt := Some(now)) else old(batch)
      ensures claimed ==> forall g, later :: later <= now + P.CLAIM_STALE_MINUTES ==> !P.Claimable(batch, g, later)
    {
      claimed := false;
      if batch.generation == g {
        if batch.status == P.Pending
           || (batch.status == P.Processing && batch.claimedAt.Some? && batch.claimedAt.value < now - P.CLAIM_STALE_MINUTES) {
          batch := batch.(status := P.Processing, claimedAt := Some(now));
          claimed := true;
        }
      }
    }

    /** A task run without interference: it does all the work of a claimable generation, exactly
        once, and nothing of any other. */
    method RunTask(g: P.Generation, now: int, matcher: Matcher, bank: P.SubjectId -> seq<(nat, Entry)>)
      modifies this`batch, this`rows
      ensures
        if old(batch).generation == g
           && (old(batch).status == P.Pending
               || (old(batch).status == P.Processing && old(batch).claimedAt.Some? && now - old(batch).claimedAt.value > 30)) then
          && batch == old(batch).(status := P.Completed, claimedAt := Some(now))
          && rows == if old(batch).subject.Some? then MarkedAll(matcher, bank(old(batch).subject.value), old(rows)) else old(rows)
        else batch == old(batch) && rows == old(rows)
      ensures !P.Claimable(batch, g, now)
    {
      var claimed := Claim(g, now);
      if !claimed {
        return;
      }
      MarkRows(matcher, bank, _ => false);
      if batch.generation == g {
        batch := batch.(status := P.Completed);
      }
    }

    /** A taxonomy request without interference, with the check run inline: only another Subject moves
        the generation, and then every row is checked against it. */
    method SetSubject(chosen: Option<P.SubjectId>, now: int, matcher: Matcher, bank: P.SubjectId -> seq<(nat, Entry)>)
      modifies this`batch, this`rows
      ensures batch.subject == chosen
      ensures chosen == old(batch).subject ==> batch == old(batch) && rows == old(rows)
      ensures chosen != old(batch).subject ==>
        && batch == P.Batch(chosen, old(batch).generation + 1, P.Completed, Some(now))
        && rows == if chosen.Some? then MarkedAll(matcher, bank(chosen.value), old(rows)) else old(rows)
      ensures chosen != old(batch).subject && chosen.Some? && Tidy(old(rows)) ==>
        |rows| == |old(rows)| && forall i :: 0 <= i < |rows| && old(rows)[i].status != Error ==>
          Says(rows[i], Verdict(matcher, bank(chosen.value), old(rows), i))
    {
      var previous := batch.subject;
      batch := batch.(subject := chosen);
      if chosen != previous {
        batch := batch.(generation := batch.generation + 1, status := P.Pending, claimedAt := None);
        RunTask(batch.generation, now, matcher, bank);
      }
    }
  }

  // ---------- restarts ----------

  /** What the check decides about a row. */
  ghost predicate Says(row: ImportRow, found: Option<Match>) {
    && (row.status == Duplicate <==> found.Some?)
    && row.duplicateOf == (if found.Some? && found.value.ref.Question? then Some(found.value.ref.id) else None)
  }

  /** Not yet imported, and only duplicates point at a question. */
  ghost predicate Tidy(rows: seq<ImportRow>) {
    forall i :: 0 <= i < |rows| ==>
      rows[i].status !in {Imported, Skipped} && (rows[i].status != Duplicate ==> rows[i].duplicateOf == None)
  }

  /** The same file: same texts, and the same rows in error. */
  ghost predicate SameFile(rows: seq<ImportRow>, others: seq<ImportRow>) {
    |rows| == |others| && forall i :: 0 <= i < |rows| ==>
      rows[i].entry == others[i].entry && (rows[i].status == Error <==> others[i].status == Error)
  }

  lemma {:induction false} SameFileSameEligible(rows: seq<ImportRow>, others: seq<ImportRow>)
    requires SameFile(rows, others)
    ensures Eligible(rows) == Eligible(others)
  {
    if rows != [] {
      SameFileSameEligible(rows[..|rows| - 1], others[..|rows| - 1]);
    }
  }

  lemma SameFileSameVerdict(matcher: Matcher, bank: seq<(nat, Entry)>, rows: seq<ImportRow>, others: seq<ImportRow>, i: nat)
    requires SameFile(rows, others) && i < |rows|
    ensures Verdict(matcher, bank, rows, i) == Verdict(matcher, bank, others, i)
  {
    SameFileSameEligible(rows, others);
    assert Texts(rows) == Texts(others);
  }

  lemma MarkingKeepsFile(matcher: Matcher, bank: seq<(nat, Entry)>, rows: seq<ImportRow>, bound: nat)
    ensures SameFile(rows, MarkedBefore(matcher, bank, rows, bound))
    ensures Tidy(rows) ==> Tidy(MarkedBefore(matcher, bank, rows, bound))
  {
  }

  /** An earlier run: the bank of its Subject, and the row before which it was cut off. */
  type Attempt = (seq<(nat, Entry)>, nat)

  /** The rows that any earlier runs leave behind, each with its own Subject and cut off anywhere. */
  function AfterAttempts(matcher: Matcher, rows: seq<ImportRow>, attempts: seq<Attempt>): seq<ImportRow>
    decreases |attempts|
  {
    if attempts == [] then rows
    else
      var n := |attempts| - 1;
      MarkedBefore(matcher, attempts[n].0, AfterAttempts(matcher, rows, attempts[..n]), attempts[n].1)
  }

  lemma {:induction false} AttemptsKeepFile(matcher: Matcher, rows: seq<ImportRow>, attempts: seq<Attempt>)
    requires Tidy(rows)
    ensures SameFile(rows, AfterAttempts(matcher, rows, attempts)) && Tidy(AfterAttempts(matcher, rows, attempts))
    decreases |attempts|
  {
    if attempts != [] {
      var n := |attempts| - 1;
      AttemptsKeepFile(matcher, rows, attempts[..n]);
      MarkingKeepsFile(matcher, attempts[n].0, AfterAttempts(matcher, rows, attempts[..n]), attempts[n].1);
    }
  }

  /** After any earlier runs, for whatever Subjects and cut off wherever, one run to the end says of
      every row exactly what a single uninterrupted run would have said. */
  lemma RestartsConverge(matcher: Matcher, rows: seq<ImportRow>, attempts: seq<Attempt>, bank: seq<(nat, Entry)>, i: nat)
    requires Tidy(rows) && i < |rows| && rows[i].status != Error
    ensures |MarkedAll(matcher, bank, AfterAttempts(matcher, rows, attempts))| == |rows|
    ensures Says(MarkedAll(matcher, bank, AfterAttempts(matcher, rows, attempts))[i], Verdict(matcher, bank, rows, i))
    ensures Says(MarkedAll(matcher, bank, rows)[i], Verdict(matcher, bank, rows, i))
  {
    AttemptsKeepFile(matcher, rows, attempts);
    SameFileSameVerdict(matcher, bank, rows, AfterAttempts(matcher, rows, attempts), i);
  }

  // ---------- which rows are flagged ----------

  /** Row j is another row of the file that takes part and qualifies, earlier or later. */
  ghost predicate Twin(matcher: Matcher, rows: seq<ImportRow>, i: nat, j: nat)
    requires i < |rows| && j < |rows|
  {
    j != i && rows[j].status != Error && Qualifies(matcher, rows[i].entry, rows[j].entry)
  }

  /** A row is flagged exactly when it has a text and qualifies with some question of the bank or with
      any other row of the same file, whether that row comes before it or after it. */
  lemma FlaggedIff(matcher: Matcher, bank: seq<(nat, Entry)>, rows: seq<ImportRow>, i: nat)
    requires i < |rows|
    ensures Verdict(matcher, bank, rows, i).Some? <==>
      && rows[i].entry.text != ""
      && (AnyQualifies(matcher, rows[i].entry, bank)
          || exists j :: 0 <= j < |rows| && Twin(matcher, rows, i, j))
  {
    var texts := Texts(rows);
    FoundIff(matcher, rows[i].entry, bank, texts, i);
    if r :| r in texts && r.0 != i && Qualifies(matcher, rows[i].entry, r.1) {
      var k :| 0 <= k < |texts| && texts[k] == r;
      assert Eligible(rows)[k] in Eligible(rows);
      assert Twin(matcher, rows, i, r.0);
    }
    if j :| 0 <= j < |rows| && Twin(matcher, rows, i, j) {
      assert j in Eligible(rows);
      var k :| 0 <= k < |texts| && Eligible(rows)[k] == j;
      assert texts[k] == (j, rows[j].entry);
    }
  }

  /** The matcher finds all of a text in the text itself. */
  ghost predicate FindsItself(matcher: Matcher) {
    forall x :: Matched(matcher(x, x)) == |x|
  }

  lemma ItselfQualifies(matcher: Matcher, entry: Entry)
    requires FindsItself(matcher) && entry.text != "" && entry.options != {}
    ensures FilteredScore(matcher, entry, entry) == Some(1.0)
  {
    LengthFilter.EqualLengthsMatch(|entry.text|);
    SameOptions(entry.options);
    var n := |entry.text|;
    DivideAtLeast(2.0 * n as real, (n + n) as real, 1.0);
    assert Ratio(matcher, entry.text, entry.text) == 1.0;
  }

  /** With an empty bank, the first row of a file is a duplicate because of the second one. */
  lemma FirstRowFlaggedByTheSecond(matcher: Matcher, entry: Entry)
    requires FindsItself(matcher) && entry.text != "" && entry.options != {}
    ensures
      var row := ImportRow(entry, Valid, [], None, Undecided, None);
      && Verdict(matcher, [], [row, row], 0) == Some(Match(RowOf(1), 1.0))
      && MarkedAll(matcher, [], [row, row])[0].status == Duplicate
  {
    ItselfQualifies(matcher, entry);
    var row := ImportRow(entry, Valid, [], None, Undecided, None);
    var rows := [row, row];
    assert Twin(matcher, rows, 0, 1);
    FlaggedIff(matcher, [], rows, 0);
    var texts := Texts(rows);
    var visits := Visits([], texts, 0);
    BestIsFirstBest(Scores(matcher, entry, visits));
    var best := Verdict(matcher, [], rows, 0).value;
    var k :| 0 <= k < |visits| && FirstBest(Scores(matcher, entry, visits), k, best);
    WithoutHas(texts, 0, Without(texts, 0)[k]);
    assert Eligible(rows)[..] == Eligible(rows);
  }
}
