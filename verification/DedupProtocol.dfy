/** The duplicate check of an import batch as a protocol: Subject changes by any number of admins,
    deliveries and crashes of any number of workers, interleaved at every read and write. */
module DedupProtocol {
  import opened Wrappers

  type SubjectId = nat
  type Generation = nat

  /** Minutes after which a claim counts as abandoned. */
  const CLAIM_STALE_MINUTES: int := 30
  const STALE_CHECK_EVERY: nat := 5

  datatype DedupStatus = Blank | Pending | Processing | Completed

  datatype Batch = Batch(subject: Option<SubjectId>, generation: Generation, status: DedupStatus, claimedAt: Option<int>)

  /** What the duplicate finder says of a row. */
  datatype Flag = Clear | Duplicate(of: Option<nat>)

  /** The verdict of every row against every Subject, with the bank and the file as they are. */
  type Finder = (SubjectId, nat) -> Flag

  /** A row's stored flag; `lateBy` is the worker that wrote it last, if the batch had moved on by then. */
  datatype Row = Row(flag: Flag, lateBy: Option<nat>)

  datatype Phase = Claimed | Running | Through | Ended

  /** A run started by a successful claim.  It loads the Subject and the rows once, looks at the
      generation before every fifth row, and ends with the completion write or a crash. */
  datatype Worker = Worker(
    generation: Generation,
    phase: Phase,
    loaded: bool,
    subject: Option<SubjectId>,
    wasDuplicate: seq<bool>,  // the rows as loaded
    next: nat,
    checks: nat,              // checks that passed, at rows 0, 5, 10 and so on
    sawStale: bool,
    late: nat)                // rows gone through after the batch had moved on

  /** One request that sets the taxonomy: it reads the batch, saves the Subject, then bumps the
      generation computed from what it read. */
  datatype Patch = Idle | HasRead(subject: Option<SubjectId>, generation: Generation)
                 | HasSaved(previous: Option<SubjectId>, generation: Generation, chosen: Option<SubjectId>)

  datatype Event = ClaimedAt(generation: Generation, at: int) | CompletedAt(generation: Generation)

  datatype State = State(
    now: int, batch: Batch, rows: seq<Row>, workers: seq<Worker>, patches: seq<Patch>, log: seq<Event>)

  datatype Step =
    | Tick(minutes: nat)
    | Read(admin: nat)
    | SaveSubject(admin: nat, chosen: Option<SubjectId>)
    | Bump(admin: nat)
    | Deliver(generation: Generation)
    | Load(worker: nat)
    | Check(worker: nat)
    | GoThrough(worker: nat)
    | Finish(worker: nat)
    | Crash(worker: nat)

  // ---------- the request ----------

  function DoRead(s: State, a: nat): State {
    if a >= |s.patches| || s.patches[a] != Idle then s
    else s.(patches := s.patches[a := HasRead(s.batch.subject, s.batch.generation)])
  }

  function DoSave(s: State, a: nat, chosen: Option<SubjectId>): State {
    if a >= |s.patches| || !s.patches[a].HasRead? then s
    else s.(batch := s.batch.(subject := chosen),
            patches := s.patches[a := HasSaved(s.patches[a].subject, s.patches[a].generation, chosen)])
  }

  function DoBump(s: State, a: nat): State {
    if a >= |s.patches| || !s.patches[a].HasSaved? then s
    else
      var p := s.patches[a];
      var t := s.(patches := s.patches[a := Idle]);
      if p.chosen == p.previous then t
      else t.(batch := t.batch.(generation := p.generation + 1, status := Pending, claimedAt := None))
  }

  // ---------- the worker ----------

  /** The conditional update of a claim. */
  predicate Claimable(b: Batch, g: Generation, now: int) {
    && b.generation == g
    && (b.status == Pending
        || (b.status == Processing && b.claimedAt.Some? && b.claimedAt.value < now - CLAIM_STALE_MINUTES))
  }

  function DoDeliver(s: State, g: Generation): State {
    if !Claimable(s.batch, g, s.now) then s
    else s.(batch := s.batch.(status := Processing, claimedAt := Some(s.now)),
            workers := s.workers + [Worker(g, Claimed, false, None, [], 0, 0, false, 0)],
            log := s.log + [ClaimedAt(g, s.now)])
  }

  function DoLoad(s: State, w: nat): State {
    if w >= |s.workers| || s.workers[w].phase != Claimed then s
    else
      var worker := s.workers[w];
      var after :=
        if s.batch.generation != worker.generation then worker.(phase := Ended)
        else worker.(phase := if s.batch.subject.Some? then Running else Through,
                     loaded := true,
                     subject := s.batch.subject,
                     wasDuplicate := seq(|s.rows|, r requires 0 <= r < |s.rows| => s.rows[r].flag.Duplicate?));
      s.(workers := s.workers[w := after])
  }

  /** The next row is one before which the generation has to be looked at, and has not been yet. */
  predicate CheckDue(worker: Worker) {
    worker.next % STALE_CHECK_EVERY == 0 && worker.checks == worker.next / STALE_CHECK_EVERY
  }

  function DoCheck(s: State, w: nat): State {
    if w >= |s.workers| || s.workers[w].phase != Running || s.workers[w].next >= |s.rows| || !CheckDue(s.workers[w]) then s
    else
      var worker := s.workers[w];
      var after :=
        if s.batch.generation != worker.generation then worker.(phase := Through, sawStale := true)
        else worker.(checks := worker.checks + 1);
      s.(workers := s.workers[w := after])
  }

  /** One row: a duplicate is written; a row loaded as a duplicate is cleared; otherwise nothing. */
  function DoGoThrough(s: State, w: nat, finder: Finder): State {
    if w >= |s.workers| || s.workers[w].phase != Running || s.workers[w].next >= |s.rows| || CheckDue(s.workers[w])
       || s.workers[w].subject.None? || |s.workers[w].wasDuplicate| != |s.rows| then s
    else
      var worker, r := s.workers[w], s.workers[w].next;
      var flag := finder(worker.subject.value, r);
      var stale := s.batch.generation != worker.generation;
      var write := flag.Duplicate? || worker.wasDuplicate[r];
      s.(rows := if write then s.rows[r := Row(flag, if stale then Some(w) else None)] else s.rows,
         workers := s.workers[w := worker.(next := r + 1, late := if stale then worker.late + 1 else worker.late)])
  }

  /** The end of the loop and the conditional completion write. */
  function DoFinish(s: State, w: nat): State {
    if w >= |s.workers| then s
    else
      var worker := s.workers[w];
      if worker.phase == Running && worker.next >= |s.rows| then
        s.(workers := s.workers[w := worker.(phase := Through)])
      else if worker.phase == Through then
        var t := s.(workers := s.workers[w := worker.(phase := Ended)]);
        if s.batch.generation == worker.generation then
          t.(batch := t.batch.(status := Completed), log := t.log + [CompletedAt(worker.generation)])
        else t
      else s
  }

  function DoCrash(s: State, w: nat): State {
    if w >= |s.workers| then s else s.(workers := s.workers[w := s.workers[w].(phase := Ended)])
  }

  function Apply(s: State, step: Step, finder: Finder): State {
    match step
    case Tick(d) => s.(now := s.now + d)
    case Read(a) => DoRead(s, a)
    case SaveSubject(a, chosen) => DoSave(s, a, chosen)
    case Bump(a) => DoBump(s, a)
    case Deliver(g) => DoDeliver(s, g)
    case Load(w) => DoLoad(s, w)
    case Check(w) => DoCheck(s, w)
    case GoThrough(w) => DoGoThrough(s, w, finder)
    case Finish(w) => DoFinish(s, w)
    case Crash(w) => DoCrash(s, w)
  }

  function Run(s: State, steps: seq<Step>, finder: Finder): State
    decreases |steps|
  {
    if steps == [] then s else Apply(Run(s, steps[..|steps| - 1], finder), steps[|steps| - 1], finder)
  }

  /** The part of the confirm request that looks at the duplicate check. */
  predicate ConfirmPasses(s: State) {
    s.batch.subject.Some? && s.batch.status == Completed
  }

  // ---------- where runs start and which runs are considered ----------

  predicate Fresh(s: State) {
    && s.batch == Batch(None, 0, Blank, None)
    && s.workers == [] && s.log == []
    && (forall a :: 0 <= a < |s.patches| ==> s.patches[a] == Idle)
    && (forall r :: 0 <= r < |s.rows| ==> s.rows[r].lateBy == None)
  }

  predicate AllIdle(s: State) {
    forall a :: 0 <= a < |s.patches| ==> s.patches[a] == Idle
  }

  /** No taxonomy request starts while another one is under way. */
  predicate OneAtATime(s: State, steps: seq<Step>, finder: Finder)
    decreases |steps|
  {
    steps == [] ||
    (var n := |steps| - 1;
     OneAtATime(s, steps[..n], finder) && (steps[n].Read? ==> AllIdle(Run(s, steps[..n], finder))))
  }

  /** A Subject is saved but its generation is not: a request is between its two writes. */
  predicate HalfSaved(p: Patch) {
    p.HasSaved? && p.chosen != p.previous
  }

  /** What a request writes, it writes on the batch as it knows it: it saves a Subject over the one it
      read, and bumps the generation it read while its own Subject is in place. */
  predicate StillFits(s: State, step: Step) {
    match step
    case SaveSubject(a, _) =>
      a < |s.patches| && s.patches[a].HasRead? ==>
        s.patches[a].subject == s.batch.subject && s.patches[a].generation == s.batch.generation
    case Bump(a) =>
      a < |s.patches| && HalfSaved(s.patches[a]) ==>
        s.patches[a].chosen == s.batch.subject && s.patches[a].generation == s.batch.generation
    case _ => true
  }

  /** Requests may overlap, as long as none that goes on to write has been overtaken by another. */
  predicate Undisturbed(s: State, steps: seq<Step>, finder: Finder)
    decreases |steps|
  {
    steps == [] ||
    (var n := |steps| - 1;
     Undisturbed(s, steps[..n], finder) && StillFits(Run(s, steps[..n], finder), steps[n]))
  }

  /** No request that could still bump the generation is between its two writes. */
  predicate Settled(s: State) {
    forall a :: 0 <= a < |s.patches| && HalfSaved(s.patches[a]) ==>
      s.patches[a].chosen != s.batch.subject || s.patches[a].generation != s.batch.generation
  }
}
