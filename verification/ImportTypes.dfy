/** The rows of an import batch (academics/models.py). */
module ImportTypes {
  import opened Wrappers
  import opened DuplicateFinder

  datatype RowStatus = Unvalidated | Valid | Warning | Error | Imported | Skipped | Duplicate

  /** What the admin decided about a row flagged as a duplicate. */
  datatype DedupAction = Undecided | Skip | Replace | KeepBoth

  datatype Note = Similar(percent: int) | NotReplaced | Other(text: string)

  /** One parsed question; `entry` is its normalized text and option set. */
  datatype ImportRow = ImportRow(
    entry: Entry, status: RowStatus, warnings: seq<Note>, duplicateOf: Option<nat>, action: DedupAction,
    created: Option<nat>)

  /** The import is through with the row. */
  predicate Terminal(row: ImportRow) {
    row.status in {Error, Imported, Skipped}
  }
}
