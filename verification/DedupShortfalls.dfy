/** Where the duplicate check falls short of its own documentation. */
module DedupShortfalls {
  import opened Wrappers
  import opened DedupProtocol
  import opened DedupProofs
  import opened DedupTheorems

  /** A request that saves another Subject leaves the old completion standing until it bumps the
      generation: confirming passes meanwhile, and it is backed by a run for the saved Subject
      exactly when the Subject did not change. */
  lemma HalfSavedRequestOpensTheGate(s: State, steps: seq<Step>, finder: Finder, admin: nat, chosen: SubjectId)
    requires Fresh(s) && Undisturbed(s, steps, finder) && Settled(Run(s, steps, finder))
    requires admin < |Run(s, steps, finder).patches| && Run(s, steps, finder).patches[admin] == Idle
    requires Run(s, steps, finder).batch.status == Completed && Run(s, steps, finder).batch.subject.Some?
    ensures
      var before := Run(s, steps, finder);
      var t := DoSave(DoRead(before, admin), admin, Some(chosen));
      && ConfirmPasses(t)
      && ((exists w: nat :: CleanRun(t, w) && t.workers[w].subject == t.batch.subject) <==>
            before.batch.subject == Some(chosen))
  {
    ReachableInvariant(s, steps, finder);
    var before := Run(s, steps, finder);
    var t := DoSave(DoRead(before, admin), admin, Some(chosen));
    assert t.batch.subject == Some(chosen) && t.workers == before.workers;
    if before.batch.subject == Some(chosen) {
      var w: nat :| CleanRun(before, w);
      assert CleanRun(t, w);
    }
  }

  // ---------- concrete histories ----------

  /** A finder under which a row's verdict names the Subject it was compared with. */
  const F: Finder := (subject: SubjectId, row: nat) => Duplicate(Some(subject))

  /** t can be reached; if `serial`, without overlapping requests. */
  ghost predicate Reaches(s: State, t: State, serial: bool) {
    exists steps: seq<Step> :: Run(s, steps, F) == t && (serial ==> OneAtATime(s, steps, F))
  }

  lemma Begin(s: State, serial: bool)
    ensures Reaches(s, s, serial)
  {
    assert Run(s, [], F) == s && OneAtATime(s, [], F);
  }

  lemma Next(s: State, t: State, step: Step, serial: bool)
    requires Reaches(s, t, serial) && (serial && step.Read? ==> AllIdle(t))
    ensures Reaches(s, Apply(t, step, F), serial)
  {
    var steps: seq<Step> :| Run(s, steps, F) == t && (serial ==> OneAtATime(s, steps, F));
    var longer := steps + [step];
    assert longer[..|steps|] == steps;
    assert Run(s, longer, F) == Apply(t, step, F);
  }

  /** A batch of one row and two admins, before any Subject is chosen. */
  const Start := State(0, Batch(None, 0, Blank, None), [Row(Clear, None)], [], [Idle, Idle], [])

  /** The first admin chooses another Subject, from read to bump. */
  lemma ChooseSubject(s: State, x: SubjectId, serial: bool) returns (t: State)
    requires Reaches(Start, s, serial) && |s.patches| == 2 && s.patches[0] == Idle && s.batch.subject != Some(x)
    requires serial ==> AllIdle(s)
    ensures t == s.(batch := Batch(Some(x), s.batch.generation + 1, Pending, None)) && Reaches(Start, t, serial)
  {
    Next(Start, s, Read(0), serial);
    var s1 := Apply(s, Read(0), F);
    Next(Start, s1, SaveSubject(0, Some(x)), serial);
    var s2 := Apply(s1, SaveSubject(0, Some(x)), F);
    Next(Start, s2, Bump(0), serial);
    t := Apply(s2, Bump(0), F);
    assert t.patches == s.patches;
  }

  /** A new worker claims the pending check of one row, loads it and passes its first check. */
  lemma StartRun(s: State, x: SubjectId, serial: bool) returns (t: State)
    requires Reaches(Start, s, serial) && s.batch.subject == Some(x) && s.batch.status == Pending && |s.rows| == 1
    ensures Reaches(Start, t, serial) && t.batch == s.batch.(status := Processing, claimedAt := Some(s.now))
    ensures t.rows == s.rows && t.patches == s.patches && |t.workers| == |s.workers| + 1
    ensures forall w :: 0 <= w < |s.workers| ==> t.workers[w] == s.workers[w]
    ensures t.workers[|s.workers|] ==
      Worker(s.batch.generation, Running, true, Some(x), [s.rows[0].flag.Duplicate?], 0, 1, false, 0)
  {
    var g, w := s.batch.generation, |s.workers|;
    Next(Start, s, Deliver(g), serial);
    var s1 := Apply(s, Deliver(g), F);
    Next(Start, s1, Load(w), serial);
    var s2 := Apply(s1, Load(w), F);
    assert s2.workers[w].wasDuplicate == [s.rows[0].flag.Duplicate?];
    Next(Start, s2, Check(w), serial);
    t := Apply(s2, Check(w), F);
  }

  /** A started run of the current generation goes through its row and completes. */
  lemma EndRun(s: State, w: nat, x: SubjectId, serial: bool) returns (t: State)
    requires Reaches(Start, s, serial) && |s.rows| == 1 && w < |s.workers|
    requires s.workers[w] == Worker(s.batch.generation, Running, true, Some(x), [false], 0, 1, false, 0)
    ensures Reaches(Start, t, serial) && t.batch == s.batch.(status := Completed) && t.rows == [Row(F(x, 0), None)]
    ensures t.patches == s.patches && t.workers == s.workers[w := s.workers[w].(phase := Ended, next := 1)]
  {
    Next(Start, s, GoThrough(w), serial);
    var s1 := Apply(s, GoThrough(w), F);
    Next(Start, s1, Finish(w), serial);
    var s2 := Apply(s1, Finish(w), F);
    Next(Start, s2, Finish(w), serial);
    t := Apply(s2, Finish(w), F);
  }

  /** No request is under way and confirming passes for Subject x, but the row says what the finder
      says for Subject y. */
  ghost predicate WronglyConfirmed(t: State, x: SubjectId, y: SubjectId) {
    && AllIdle(t) && ConfirmPasses(t) && t.batch.subject == Some(x)
    && |t.rows| == 1 && t.rows[0].flag == F(y, 0) != F(x, 0)
  }

  ghost predicate NobodyWorkedForSubject(t: State) {
    forall w :: 0 <= w < |t.workers| ==> t.workers[w].subject != t.batch.subject
  }

  /** The first admin has chosen a Subject in a batch that nobody has checked, and a run for it is
      about to go through the row. */
  lemma OneStarted(s0: State, x: SubjectId, serial: bool) returns (s: State)
    requires Reaches(Start, s0, serial) && (serial ==> AllIdle(s0))
    requires s0.workers == [] && s0.rows == [Row(Clear, None)] && s0.batch == Batch(None, 0, Blank, None)
    requires |s0.patches| == 2 && s0.patches[0] == Idle
    ensures Reaches(Start, s, serial) && s.batch == Batch(Some(x), 1, Processing, s.batch.claimedAt)
    ensures s.rows == s0.rows && s.patches == s0.patches
    ensures s.workers == [Worker(1, Running, true, Some(x), [false], 0, 1, false, 0)]
  {
    var s1 := ChooseSubject(s0, x, serial);
    s := StartRun(s1, x, serial);
  }

  /** A run for Subject 1 that passed its check goes through its row after the run for Subject 2 has
      finished: the check is completed for Subject 2 while the row carries the verdict for
      Subject 1.  No requests overlap. */
  lemma LateRunOverwritesNewerVerdict()
    ensures exists t: State :: Reaches(Start, t, true) && WronglyConfirmed(t, 2, 1)
  {
    Begin(Start, true);
    var s2 := OneStarted(Start, 1, true);
    var s3 := ChooseSubject(s2, 2, true);
    var s4 := StartRun(s3, 2, true);
    var s5 := EndRun(s4, 1, 2, true);
    LateGoThrough(s5);
  }

  lemma LateGoThrough(s: State)
    requires Reaches(Start, s, true) && AllIdle(s) && |s.rows| == 1 && |s.workers| > 0
    requires s.batch.subject == Some(2) && s.batch.generation == 2 && s.batch.status == Completed
    requires s.workers[0] == Worker(1, Running, true, Some(1), [false], 0, 1, false, 0)
    ensures exists t: State :: Reaches(Start, t, true) && WronglyConfirmed(t, 2, 1)
  {
    Next(Start, s, GoThrough(0), true);
    assert WronglyConfirmed(Apply(s, GoThrough(0), F), 2, 1);
  }

  /** The second admin's request, which read the batch first, ends after the first admin's: it brings
      in its own Subject under the same generation. */
  lemma SecondAdminFinishes(s: State) returns (t: State)
    requires Reaches(Start, s, false) && s.patches == [Idle, HasRead(None, 0)]
    ensures Reaches(Start, t, false) && t.batch == Batch(Some(1), 1, Pending, None)
    ensures t.rows == s.rows && t.workers == s.workers && AllIdle(t)
  {
    Next(Start, s, SaveSubject(1, Some(1)), false);
    var s1 := Apply(s, SaveSubject(1, Some(1)), F);
    Next(Start, s1, Bump(1), false);
    t := Apply(s1, Bump(1), F);
  }

  /** Two overlapping requests compute the same next generation: a run for the Subject of the one
      then completes the check for the Subject of the other. */
  lemma OverlappingRequestsShareAGeneration()
    ensures exists t: State :: Reaches(Start, t, false) && WronglyConfirmed(t, 1, 2) && NobodyWorkedForSubject(t)
  {
    Begin(Start, false);
    Next(Start, Start, Read(1), false);
    var s0 := Apply(Start, Read(1), F);
    assert s0.patches == [Idle, HasRead(None, 0)];
    var s2 := OneStarted(s0, 2, false);
    var s4 := SecondAdminFinishes(s2);
    var t := EndRun(s4, 0, 2, false);
    assert WronglyConfirmed(t, 1, 2) && NobodyWorkedForSubject(t);
  }

  /** The check is completed for a Subject that nobody worked for, by a run that had seen itself superseded
      and has gone through no row. */
  ghost predicate CompletedByStaleRun(t: State) {
    && AllIdle(t) && ConfirmPasses(t) && NobodyWorkedForSubject(t) && t.rows == Start.rows
    && |t.workers| == 1 && t.workers[0].sawStale && t.workers[0].next == 0 && t.workers[0].phase == Ended
  }

  /** A run for generation 1 that meets generation 2 at its first check. */
  lemma MeetsNewer(s0: State) returns (s: State)
    requires Reaches(Start, s0, false) && s0 == Start.(patches := [Idle, HasRead(None, 0)])
    ensures Reaches(Start, s, false) && s.batch == Batch(Some(2), 2, Pending, None)
    ensures s.rows == s0.rows && s.patches == s0.patches
    ensures s.workers == [Worker(1, Through, true, Some(1), [false], 0, 0, true, 0)]
  {
    hide Reaches;
    var s1 := ChooseSubject(s0, 1, false);
    Next(Start, s1, Deliver(1), false);
    var s2 := Apply(s1, Deliver(1), F);
    Next(Start, s2, Load(0), false);
    var s3 := Apply(s2, Load(0), F);
    assert s3.workers[0].wasDuplicate == [false];
    var s4 := ChooseSubject(s3, 2, false);
    Next(Start, s4, Check(0), false);
    s := Apply(s4, Check(0), F);
  }

  /** A request that read generation 0 and bumps after two others moves the batch from 2 back to 1; the run
      that had stopped for generation 2 then completes the check for a third Subject. */
  lemma GenerationGoesBack()
    ensures exists before: State, t: State ::
      Reaches(Start, before, false) && before.batch.generation == 2
      && Reaches(before, t, false) && t.batch.generation == 1 && CompletedByStaleRun(t)
  {
    hide Reaches;
    Begin(Start, false);
    Next(Start, Start, Read(1), false);
    var s0 := Apply(Start, Read(1), F);
    assert s0.patches == [Idle, HasRead(None, 0)];
    var before := MeetsNewer(s0);
    Begin(before, false);
    Next(before, before, SaveSubject(1, Some(3)), false);
    var s1 := Apply(before, SaveSubject(1, Some(3)), F);
    Next(before, s1, Bump(1), false);
    var s2 := Apply(s1, Bump(1), F);
    Next(before, s2, Finish(0), false);
    var t := Apply(s2, Finish(0), F);
    assert CompletedByStaleRun(t);
  }
}
