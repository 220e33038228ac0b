/** The bulk import: claimed, interrupted anywhere, resumed from the rows' own state. */
module ImportRun {
  import opened Wrappers
  import opened ImportTypes

  const FLUSH_EVERY: nat := 20
  const CLAIM_STALE_MINUTES: int := 30

  datatype BatchStatus = Ready | Importing | Completed | Failed

  datatype Counts = Counts(created: nat, failed: nat, skipped: nat, duplicates: nat)

  /** What is stored: the batch, its rows, and the question bank with the next free id. */
  datatype Batch = Batch(
    status: BatchStatus, claimedAt: Option<int>, rows: seq<ImportRow>, stored: Counts, questions: set<nat>, nextId: nat)

  /** Where an exception hits a row, if anywhere: looking up or deleting the question to replace,
      creating the new one, adding its options, or saving the row. */
  datatype Fault = NoFault | OnReplace | OnCreate | OnOptions | OnSave

  /** How much of a row is done when a run dies. */
  datatype Stage = BeforeRow | AfterDelete | AfterCreate | AfterSave

  /** A run dies at a row, either killed or by an exception that marks the batch failed. */
  datatype Cut = Cut(at: nat, stage: Stage, raised: bool)

  /** One delivery of the import task. */
  datatype Attempt = Attempt(now: int, faults: nat -> Fault, cut: Option<Cut>)

  // ---------- one row ----------

  /** A run in progress; `counts` lives in memory and is lost with the run. */
  datatype Progress = Progress(
    rows: seq<ImportRow>, questions: set<nat>, nextId: nat, counts: Counts, stored: Counts, unflushed: nat)

  predicate Skips(row: ImportRow) {
    row.status == Duplicate && row.action == Skip
  }

  predicate Replaces(row: ImportRow) {
    row.status == Duplicate && row.action == Replace && row.duplicateOf.Some?
  }

  /** Deleting a question clears every reference to it. */
  function Forget(rows: seq<ImportRow>, q: nat): seq<ImportRow> {
    seq(|rows|, i requires 0 <= i < |rows| =>
      rows[i].(duplicateOf := if rows[i].duplicateOf == Some(q) then None else rows[i].duplicateOf,
               created := if rows[i].created == Some(q) then None else rows[i].created))
  }

  /** The old question goes, unless a test uses it. */
  function Replaced(p: Progress, row: ImportRow, referenced: set<nat>): Progress {
    if Replaces(row) && row.duplicateOf.value in p.questions && row.duplicateOf.value !in referenced then
      p.(questions := p.questions - {row.duplicateOf.value}, rows := Forget(p.rows, row.duplicateOf.value))
    else p
  }

  function Kept(row: ImportRow, questions: set<nat>, referenced: set<nat>): seq<Note> {
    if Replaces(row) && row.duplicateOf.value in questions && row.duplicateOf.value in referenced
    then row.warnings + [NotReplaced] else row.warnings
  }

  function Created(p: Progress): Progress {
    p.(questions := p.questions + {p.nextId}, nextId := p.nextId + 1)
  }

  function Erred(p: Progress, i: nat): Progress
    requires i < |p.rows|
  {
    p.(rows := p.rows[i := p.rows[i].(status := Error)], counts := p.counts.(failed := p.counts.failed + 1))
  }

  function CountDuplicate(p: Progress, row: ImportRow): Progress {
    if row.duplicateOf.Some? then p.(counts := p.counts.(duplicates := p.counts.duplicates + 1)) else p
  }

  /** Row i, as it was loaded, from start to end. */
  function Handled(p: Progress, row: ImportRow, i: nat, fault: Fault, referenced: set<nat>): Progress
    requires i < |p.rows|
  {
    if Skips(row) then
      if fault == OnSave then Erred(p, i)
      else p.(rows := p.rows[i := p.rows[i].(status := Skipped)], counts := p.counts.(skipped := p.counts.skipped + 1))
    else if Replaces(row) && fault == OnReplace then Erred(p, i)
    else
      var p1 := Replaced(p, row, referenced);
      if fault == OnCreate then Erred(p1, i)
      else if fault == OnOptions then Erred(Created(p1), i)
      else
        var p2 := CountDuplicate(Created(p1), row);
        if fault == OnSave then Erred(p2, i)
        else
          p2.(rows := p2.rows[i := p2.rows[i].(status := Imported, created := Some(p1.nextId),
                                               warnings := Kept(row, p.questions, referenced))],
              counts := p2.counts.(created := p2.counts.created + 1))
  }

  function Flushed(p: Progress): Progress {
    p.(stored := p.counts, unflushed := 0)
  }

  function Counted(p: Progress): Progress {
    var q := p.(unflushed := p.unflushed + 1);
    if q.unflushed >= FLUSH_EVERY then Flushed(q) else q
  }

  /** What is left of a row when the run dies at a stage of it. */
  function Cutoff(p: Progress, row: ImportRow, i: nat, fault: Fault, referenced: set<nat>, stage: Stage): Progress
    requires i < |p.rows|
  {
    if stage == AfterSave then Handled(p, row, i, fault, referenced)
    else if stage == BeforeRow || Skips(row) || (Replaces(row) && fault == OnReplace) then p
    else if stage == AfterDelete || fault == OnCreate then Replaced(p, row, referenced)
    else Created(Replaced(p, row, referenced))
  }

  // ---------- a run ----------

  function Begin(b: Batch): Progress {
    Progress(b.rows, b.questions, b.nextId, b.stored, b.stored, 0)
  }

  /** The loop's turn for row n, as loaded: nothing for a row that was finished already. */
  function Turn(b: Batch, p: Progress, faults: nat -> Fault, referenced: set<nat>, n: nat): (q: Progress)
    requires n < |b.rows| == |p.rows|
    ensures |q.rows| == |p.rows|
  {
    if Terminal(b.rows[n]) then p else Counted(Handled(p, b.rows[n], n, faults(n), referenced))
  }

  /** The run after the first n rows. */
  function Worked(b: Batch, faults: nat -> Fault, referenced: set<nat>, n: nat): (p: Progress)
    requires n <= |b.rows|
    ensures |p.rows| == |b.rows|
  {
    if n == 0 then Begin(b) else Turn(b, Worked(b, faults, referenced, n - 1), faults, referenced, n - 1)
  }

  predicate Claimable(b: Batch, now: int) {
    b.claimedAt.None? || b.claimedAt.value < now - CLAIM_STALE_MINUTES
  }

  /** Where a run stands when it dies; past the last row, only the final flush is missing. */
  function Died(b: Batch, faults: nat -> Fault, referenced: set<nat>, cut: Cut): Progress {
    if cut.at >= |b.rows| then Worked(b, faults, referenced, |b.rows|)
    else
      var p := Worked(b, faults, referenced, cut.at);
      if Terminal(b.rows[cut.at]) then p
      else Cutoff(p, b.rows[cut.at], cut.at, faults(cut.at), referenced, cut.stage)
  }

  function Run(b: Batch, a: Attempt, referenced: set<nat>): Batch {
    if !Claimable(b, a.now) then b
    else if a.cut.None? then
      var p := Flushed(Worked(b, a.faults, referenced, |b.rows|));
      Batch(Completed, Some(a.now), p.rows, p.stored, p.questions, p.nextId)
    else
      var p := Died(b, a.faults, referenced, a.cut.value);
      Batch(if a.cut.value.raised then Failed else Importing, Some(a.now), p.rows, p.stored, p.questions, p.nextId)
  }

  function RunAll(b: Batch, attempts: seq<Attempt>, referenced: set<nat>): Batch
    decreases |attempts|
  {
    if attempts == [] then b
    else Run(RunAll(b, attempts[..|attempts| - 1], referenced), attempts[|attempts| - 1], referenced)
  }
}
