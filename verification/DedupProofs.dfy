/** What the duplicate-check protocol guarantees as long as no taxonomy request is overtaken. */
module DedupProofs {
  import opened Wrappers
  import opened DedupProtocol

  // ---------- requests and generations ----------

  /** What a request under way has read still holds. */
  ghost predicate PatchFits(b: Batch, p: Patch) {
    match p
    case Idle => true
    case HasRead(subject, g) => g == b.generation && subject == b.subject
    case HasSaved(_, g, chosen) => g == b.generation && chosen == b.subject
  }

  ghost predicate PatchesSound(s: State) {
    && (forall a :: 0 <= a < |s.patches| ==> PatchFits(s.batch, s.patches[a]))
    && (forall a, b :: 0 <= a < b < |s.patches| ==> s.patches[a] == Idle || s.patches[b] == Idle)
  }

  lemma PatchesStaySound(s: State, step: Step, finder: Finder)
    requires PatchesSound(s) && (step.Read? ==> AllIdle(s))
    ensures PatchesSound(Apply(s, step, finder))
  {
    if step.Bump? && step.admin < |s.patches| {
      assert PatchFits(s.batch, s.patches[step.admin]);
    }
  }

  /** Requests that do not overlap at all are never overtaken. */
  lemma {:induction false} OneAtATimeIsUndisturbed(s: State, steps: seq<Step>, finder: Finder)
    requires Fresh(s) && OneAtATime(s, steps, finder)
    ensures Undisturbed(s, steps, finder) && PatchesSound(Run(s, steps, finder))
    decreases |steps|
  {
    if steps != [] {
      var n := |steps| - 1;
      OneAtATimeIsUndisturbed(s, steps[..n], finder);
      PatchesStaySound(Run(s, steps[..n], finder), steps[n], finder);
    }
  }

  lemma GenerationGrows(s: State, step: Step, finder: Finder)
    requires StillFits(s, step)
    ensures Apply(s, step, finder).batch.generation >= s.batch.generation
  {
  }

  // ---------- one worker ----------

  /** How far a run is, how many of its checks passed, and how much it did too late. */
  ghost predicate WorkerSound(generation: Generation, n: nat, w: Worker) {
    && w.generation <= generation
    && (w.phase == Claimed ==> !w.loaded)
    && (!w.loaded ==> w.phase in {Claimed, Ended} && w.next == w.checks == w.late == 0)
    && (w.loaded ==> |w.wasDuplicate| == n && (w.phase == Running ==> w.subject.Some?))
    && w.next <= n
    && (if w.checks == 0 then w.next == 0
        else STALE_CHECK_EVERY * (w.checks - 1) < n
             && STALE_CHECK_EVERY * (w.checks - 1) <= w.next <= STALE_CHECK_EVERY * w.checks
             && w.late <= w.next - STALE_CHECK_EVERY * (w.checks - 1))
    && (w.late > 0 || w.sawStale ==> w.generation < generation)
    && (w.checks == 0 ==> w.late == 0)
    && (w.loaded && w.phase == Through && !w.sawStale ==> w.subject.None? || w.next == n)
  }

  ghost predicate WorkersSound(s: State) {
    forall w :: 0 <= w < |s.workers| ==> WorkerSound(s.batch.generation, |s.rows|, s.workers[w])
  }

  /** One worker is replaced; nothing else matters to the others. */
  lemma ReplaceWorker(s: State, t: State, w: nat)
    requires WorkersSound(s) && w < |s.workers| && |t.workers| == |s.workers| && |t.rows| == |s.rows|
    requires t.batch.generation == s.batch.generation && t.workers == s.workers[w := t.workers[w]]
    requires WorkerSound(s.batch.generation, |s.rows|, t.workers[w])
    ensures WorkersSound(t)
  {
    forall v | 0 <= v < |t.workers|
      ensures WorkerSound(t.batch.generation, |t.rows|, t.workers[v])
    {
      assert v != w ==> t.workers[v] == s.workers[v];
    }
  }

  lemma WorkersAfterLoad(s: State, w: nat)
    requires WorkersSound(s)
    ensures WorkersSound(DoLoad(s, w))
  {
    if w < |s.workers| && s.workers[w].phase == Claimed {
      assert WorkerSound(s.batch.generation, |s.rows|, s.workers[w]);
      ReplaceWorker(s, DoLoad(s, w), w);
    }
  }

  lemma WorkersAfterCheck(s: State, w: nat)
    requires WorkersSound(s)
    ensures WorkersSound(DoCheck(s, w))
  {
    if DoCheck(s, w) != s {
      assert WorkerSound(s.batch.generation, |s.rows|, s.workers[w]);
      ReplaceWorker(s, DoCheck(s, w), w);
    }
  }

  lemma WorkersAfterGoThrough(s: State, w: nat, finder: Finder)
    requires WorkersSound(s)
    ensures WorkersSound(DoGoThrough(s, w, finder))
  {
    if DoGoThrough(s, w, finder) != s {
      assert WorkerSound(s.batch.generation, |s.rows|, s.workers[w]);
      ReplaceWorker(s, DoGoThrough(s, w, finder), w);
    }
  }

  lemma WorkersAfterFinish(s: State, w: nat)
    requires WorkersSound(s)
    ensures WorkersSound(DoFinish(s, w))
  {
    if DoFinish(s, w) != s {
      assert WorkerSound(s.batch.generation, |s.rows|, s.workers[w]);
      ReplaceWorker(s, DoFinish(s, w), w);
    }
  }

  lemma WorkersAfterCrash(s: State, w: nat)
    requires WorkersSound(s)
    ensures WorkersSound(DoCrash(s, w))
  {
    if w < |s.workers| {
      assert WorkerSound(s.batch.generation, |s.rows|, s.workers[w]);
      ReplaceWorker(s, DoCrash(s, w), w);
    }
  }

  lemma WorkersAfterBump(s: State, a: nat)
    requires StillFits(s, Bump(a)) && WorkersSound(s)
    ensures WorkersSound(DoBump(s, a))
  {
    var t := DoBump(s, a);
    forall w | 0 <= w < |t.workers|
      ensures WorkerSound(t.batch.generation, |t.rows|, t.workers[w])
    {
      assert WorkerSound(s.batch.generation, |s.rows|, s.workers[w]);
    }
  }

  lemma WorkersAfterDeliver(s: State, g: Generation)
    requires WorkersSound(s)
    ensures WorkersSound(DoDeliver(s, g))
  {
  }

  lemma WorkersStaySound(s: State, step: Step, finder: Finder)
    requires StillFits(s, step) && WorkersSound(s)
    ensures WorkersSound(Apply(s, step, finder))
  {
    match step
    case Bump(a) => WorkersAfterBump(s, a);
    case Deliver(g) => WorkersAfterDeliver(s, g);
    case Load(w) => WorkersAfterLoad(s, w);
    case Check(w) => WorkersAfterCheck(s, w);
    case GoThrough(w) => WorkersAfterGoThrough(s, w, finder);
    case Finish(w) => WorkersAfterFinish(s, w);
    case Crash(w) => WorkersAfterCrash(s, w);
    case _ =>
  }

  // ---------- the Subject a run works for ----------

  /** Between requests, every run of the current generation works for the current Subject. */
  ghost predicate SubjectsAgree(s: State) {
    Settled(s) ==> forall w :: 0 <= w < |s.workers| && s.workers[w].loaded && s.workers[w].generation == s.batch.generation ==>
      s.workers[w].subject == s.batch.subject
  }

  lemma SettledBefore(s: State, step: Step, finder: Finder)
    requires StillFits(s, step) && Settled(Apply(s, step, finder))
    ensures Settled(s) || (step.Bump? && Apply(s, step, finder).batch.generation > s.batch.generation)
  {
    var t := Apply(s, step, finder);
    if t.batch.generation == s.batch.generation {
      forall a | 0 <= a < |s.patches| && HalfSaved(s.patches[a])
        ensures s.patches[a].chosen != s.batch.subject || s.patches[a].generation != s.batch.generation
      {
        if step.SaveSubject? && step.admin < |s.patches| && s.patches[step.admin].HasRead? {
          assert !HalfSaved(t.patches[step.admin]);
        }
        assert t.patches[a] == s.patches[a];
      }
    }
  }

  lemma SubjectsStayAgreed(s: State, step: Step, finder: Finder)
    requires StillFits(s, step) && WorkersSound(s) && SubjectsAgree(s)
    ensures SubjectsAgree(Apply(s, step, finder))
  {
    var t := Apply(s, step, finder);
    if Settled(t) {
      SettledBefore(s, step, finder);
      if step.SaveSubject? && step.admin < |s.patches| && s.patches[step.admin].HasRead? {
        assert !HalfSaved(t.patches[step.admin]);
      }
      forall w | 0 <= w < |t.workers| && t.workers[w].loaded && t.workers[w].generation == t.batch.generation
        ensures t.workers[w].subject == t.batch.subject
      {
        if w < |s.workers| {
          assert WorkerSound(s.batch.generation, |s.rows|, s.workers[w]);
        }
      }
    }
  }

  // ---------- the rows a run has dealt with ----------

  /** The row says what the finder says, unless a superseded run wrote it last. */
  ghost predicate RowRight(row: Row, flag: Flag) {
    row.lateBy.Some? || row.flag == flag
  }

  /** The rows behind a run are right; a row ahead of it that is flagged is one the run knows of. */
  ghost predicate RowsRight(rows: seq<Row>, w: Worker, finder: Finder) {
    w.loaded && w.subject.Some? && |w.wasDuplicate| == |rows| ==>
      forall r :: 0 <= r < |rows| ==>
        RowRight(rows[r], finder(w.subject.value, r)) || (r >= w.next && (rows[r].flag.Duplicate? ==> w.wasDuplicate[r]))
  }

  ghost predicate RowsSound(s: State, finder: Finder) {
    Settled(s) ==> forall w :: 0 <= w < |s.workers| && s.workers[w].generation == s.batch.generation ==>
      RowsRight(s.rows, s.workers[w], finder)
  }

  lemma GoThroughKeepsRows(s: State, v: nat, w: nat, finder: Finder)
    requires WorkersSound(s) && SubjectsAgree(s) && Settled(s)
    requires w < |s.workers| && s.workers[w].generation == s.batch.generation && RowsRight(s.rows, s.workers[w], finder)
    ensures var t := DoGoThrough(s, v, finder); RowsRight(t.rows, t.workers[w], finder)
  {
    assert WorkerSound(s.batch.generation, |s.rows|, s.workers[w]);
    if v < |s.workers| {
      assert WorkerSound(s.batch.generation, |s.rows|, s.workers[v]);
    }
  }

  lemma RowsAfterGoThrough(s: State, v: nat, finder: Finder)
    requires WorkersSound(s) && SubjectsAgree(s) && RowsSound(s, finder)
    ensures RowsSound(DoGoThrough(s, v, finder), finder)
  {
    var t := DoGoThrough(s, v, finder);
    if Settled(t) {
      assert Settled(s);
      forall w | 0 <= w < |t.workers| && t.workers[w].generation == t.batch.generation
        ensures RowsRight(t.rows, t.workers[w], finder)
      {
        GoThroughKeepsRows(s, v, w, finder);
      }
    }
  }

  lemma RowsStaySound(s: State, step: Step, finder: Finder)
    requires StillFits(s, step) && WorkersSound(s) && SubjectsAgree(s) && RowsSound(s, finder)
    ensures RowsSound(Apply(s, step, finder), finder)
  {
    if step.GoThrough? {
      RowsAfterGoThrough(s, step.worker, finder);
      return;
    }
    var t := Apply(s, step, finder);
    if Settled(t) {
      SettledBefore(s, step, finder);
      forall w | 0 <= w < |t.workers| && t.workers[w].generation == t.batch.generation
        ensures RowsRight(t.rows, t.workers[w], finder)
      {
        if w < |s.workers| {
          assert WorkerSound(s.batch.generation, |s.rows|, s.workers[w]);
        }
      }
    }
  }

  // ---------- completion ----------

  /** A run of the current generation that met no newer one, went through every row and passed the
      check before every fifth. */
  ghost predicate CleanRun(s: State, w: nat) {
    && w < |s.workers|
    && s.workers[w].loaded && s.workers[w].generation == s.batch.generation && !s.workers[w].sawStale
    && (s.workers[w].subject.Some? ==>
          s.workers[w].next == |s.rows|
          && s.workers[w].checks == (|s.rows| + STALE_CHECK_EVERY - 1) / STALE_CHECK_EVERY)
  }

  ghost predicate CompletionSound(s: State) {
    s.batch.status == Completed ==> exists w: nat :: CleanRun(s, w)
  }

  lemma CompletionAfterFinish(s: State, w: nat)
    requires WorkersSound(s) && CompletionSound(s)
    ensures CompletionSound(DoFinish(s, w))
  {
    var t := DoFinish(s, w);
    if t.batch.status == Completed {
      if s.batch.status == Completed {
        var v: nat :| CleanRun(s, v);
        assert CleanRun(t, v);
      } else {
        assert WorkerSound(s.batch.generation, |s.rows|, s.workers[w]);
        assert CleanRun(t, w);
      }
    }
  }

  /** A run that has been through everything is not changed any more, but for its phase. */
  lemma CleanRunStays(s: State, step: Step, finder: Finder, w: nat)
    requires WorkersSound(s) && CleanRun(s, w) && !step.Bump?
    ensures CleanRun(Apply(s, step, finder), w)
  {
    assert WorkerSound(s.batch.generation, |s.rows|, s.workers[w]);
  }

  lemma CompletionStaysSound(s: State, step: Step, finder: Finder)
    requires StillFits(s, step) && WorkersSound(s) && CompletionSound(s)
    ensures CompletionSound(Apply(s, step, finder))
  {
    var t := Apply(s, step, finder);
    match step
    case Finish(w) => CompletionAfterFinish(s, w);
    case Bump(a) =>
      if t.batch.status == Completed {
        var w: nat :| CleanRun(s, w);
        assert CleanRun(t, w);
      }
    case _ =>
      if t.batch.status == Completed {
        var w: nat :| CleanRun(s, w);
        CleanRunStays(s, step, finder, w);
      }
  }

  // ---------- claims ----------

  ghost predicate IsClaim(e: Event, g: Generation) {
    e.ClaimedAt? && e.generation == g
  }

  /** Claims of one generation are further apart than the stale window, and none follows its
      completion. */
  ghost predicate Spaced(log: seq<Event>) {
    && (forall i, j :: 0 <= i < j < |log| && log[i].ClaimedAt? && IsClaim(log[j], log[i].generation) ==>
          log[j].at - log[i].at > CLAIM_STALE_MINUTES)
    && (forall i, j :: 0 <= i < j < |log| && log[i].CompletedAt? ==> !IsClaim(log[j], log[i].generation))
  }

  ghost predicate ClaimsSound(s: State) {
    && Spaced(s.log)
    && (forall e :: e in s.log ==> e.generation <= s.batch.generation)
    && (s.batch.status in {Blank, Pending} ==> forall e :: e in s.log ==> e.generation < s.batch.generation)
    && (s.batch.status == Processing ==>
          s.batch.claimedAt.Some? && forall e :: e in s.log && e.generation == s.batch.generation ==>
            e.ClaimedAt? && e.at <= s.batch.claimedAt.value)
  }

  lemma ClaimsAfterDeliver(s: State, g: Generation)
    requires ClaimsSound(s)
    ensures ClaimsSound(DoDeliver(s, g))
  {
    if Claimable(s.batch, g, s.now) {
      var t := DoDeliver(s, g);
      var n := |s.log|;
      forall i | 0 <= i < n && s.log[i].generation == g
        ensures s.log[i].ClaimedAt? && s.now - s.log[i].at > CLAIM_STALE_MINUTES
      {
        assert s.log[i] in s.log;
      }
      assert Spaced(t.log);
      forall e | e in t.log
        ensures e.generation <= t.batch.generation
        ensures e.generation == t.batch.generation ==> e.ClaimedAt? && e.at <= s.now
      {
        var i :| 0 <= i <= n && t.log[i] == e;
      }
    }
  }

  lemma ClaimsAfterFinish(s: State, w: nat)
    requires ClaimsSound(s)
    ensures ClaimsSound(DoFinish(s, w))
  {
    var t := DoFinish(s, w);
    if t.log != s.log {
      assert Spaced(t.log);
    }
  }

  lemma ClaimsAfterBump(s: State, a: nat)
    requires StillFits(s, Bump(a)) && ClaimsSound(s)
    ensures ClaimsSound(DoBump(s, a))
  {
  }

  /** The log, the generation, the status and the claim are all that spacing is about. */
  lemma ClaimsUntouched(s: State, t: State)
    requires ClaimsSound(s) && t.log == s.log
    requires t.batch == s.batch.(subject := t.batch.subject)
    ensures ClaimsSound(t)
  {
  }

  lemma ClaimsStaySound(s: State, step: Step, finder: Finder)
    requires StillFits(s, step) && ClaimsSound(s)
    ensures ClaimsSound(Apply(s, step, finder))
  {
    match step
    case Bump(a) => ClaimsAfterBump(s, a);
    case Deliver(g) => ClaimsAfterDeliver(s, g);
    case Finish(w) => ClaimsAfterFinish(s, w);
    case _ => ClaimsUntouched(s, Apply(s, step, finder));
  }

  // ---------- late rows ----------

  /** The rows whose stored flag a superseded run wrote last. */
  ghost function LateRows(rows: seq<Row>, w: nat): set<nat> {
    set r | 0 <= r < |rows| && rows[r].lateBy == Some(w)
  }

  ghost predicate LateRowsCounted(s: State) {
    && (forall r :: 0 <= r < |s.rows| && s.rows[r].lateBy.Some? ==> s.rows[r].lateBy.value < |s.workers|)
    && (forall w :: 0 <= w < |s.workers| ==> |LateRows(s.rows, w)| <= s.workers[w].late)
  }

  lemma WriteLate(rows: seq<Row>, i: nat, row: Row, w: nat)
    requires i < |rows|
    ensures |LateRows(rows[i := row], w)| <= |LateRows(rows, w)| + (if row.lateBy == Some(w) then 1 else 0)
  {
    var before, after := LateRows(rows, w), LateRows(rows[i := row], w);
    if row.lateBy == Some(w) {
      assert after == before + {i};
    } else {
      assert after == before - {i};
      Smaller(before, i);
    }
  }

  lemma Smaller(before: set<nat>, i: nat)
    ensures |before - {i}| <= |before|
  {
    if i in before {
      assert |before - {i}| == |before| - 1;
    } else {
      assert before - {i} == before;
    }
  }

  lemma LateRowsAfterGoThrough(s: State, v: nat, finder: Finder)
    requires LateRowsCounted(s)
    ensures LateRowsCounted(DoGoThrough(s, v, finder))
  {
    var t := DoGoThrough(s, v, finder);
    forall w | 0 <= w < |t.workers|
      ensures |LateRows(t.rows, w)| <= t.workers[w].late
    {
      assert |LateRows(s.rows, w)| <= s.workers[w].late;
      if t.rows != s.rows {
        var r := s.workers[v].next;
        WriteLate(s.rows, r, t.rows[r], w);
        assert t.rows == s.rows[r := t.rows[r]];
      }
    }
  }

  lemma LateRowsUntouched(s: State, t: State)
    requires LateRowsCounted(s) && t.rows == s.rows && |t.workers| >= |s.workers|
    requires forall w :: 0 <= w < |s.workers| ==> t.workers[w].late == s.workers[w].late
    ensures LateRowsCounted(t)
  {
    forall w | 0 <= w < |t.workers|
      ensures |LateRows(t.rows, w)| <= t.workers[w].late
    {
      if w < |s.workers| {
        assert |LateRows(s.rows, w)| <= s.workers[w].late;
      } else {
        assert LateRows(t.rows, w) == {};
      }
    }
  }

  lemma LateRowsStayCounted(s: State, step: Step, finder: Finder)
    requires LateRowsCounted(s)
    ensures LateRowsCounted(Apply(s, step, finder))
  {
    match step
    case GoThrough(w) => LateRowsAfterGoThrough(s, w, finder);
    case _ => LateRowsUntouched(s, Apply(s, step, finder));
  }
}
