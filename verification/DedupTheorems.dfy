/** The main results about the duplicate-check protocol, over every interleaving in which no taxonomy
    request is overtaken by another. */
module DedupTheorems {
  import opened Wrappers
  import opened DedupProtocol
  import opened DedupProofs

  ghost predicate Invariant(s: State, finder: Finder) {
    && WorkersSound(s) && SubjectsAgree(s) && RowsSound(s, finder)
    && CompletionSound(s) && ClaimsSound(s) && LateRowsCounted(s)
  }

  lemma {:induction false} ReachableInvariant(s: State, steps: seq<Step>, finder: Finder)
    requires Fresh(s) && Undisturbed(s, steps, finder)
    ensures Invariant(Run(s, steps, finder), finder)
    decreases |steps|
  {
    if steps != [] {
      var n := |steps| - 1;
      var before := Run(s, steps[..n], finder);
      ReachableInvariant(s, steps[..n], finder);
      WorkersStaySound(before, steps[n], finder);
      SubjectsStayAgreed(before, steps[n], finder);
      RowsStaySound(before, steps[n], finder);
      CompletionStaysSound(before, steps[n], finder);
      ClaimsStaySound(before, steps[n], finder);
      LateRowsStayCounted(before, steps[n], finder);
    }
  }

  /** Whenever no request is between its two writes and the check is marked completed for a Subject,
      some run of the current generation worked for that Subject, met no newer generation, went
      through every row and passed every check; and every row carries the finder's verdict for that
      Subject, or was last written by a superseded run. */
  lemma CompletionIsSound(s: State, steps: seq<Step>, finder: Finder)
    requires Fresh(s) && Undisturbed(s, steps, finder)
    ensures var t := Run(s, steps, finder);
      t.batch.status == Completed && Settled(t) && t.batch.subject.Some? ==>
        && (exists w: nat :: CleanRun(t, w) && t.workers[w].subject == t.batch.subject)
        && forall r :: 0 <= r < |t.rows| ==> RowRight(t.rows[r], finder(t.batch.subject.value, r))
  {
    ReachableInvariant(s, steps, finder);
    var t := Run(s, steps, finder);
    if t.batch.status == Completed && Settled(t) && t.batch.subject.Some? {
      var w: nat :| CleanRun(t, w);
      assert WorkerSound(t.batch.generation, |t.rows|, t.workers[w]);
      assert t.workers[w].subject == t.batch.subject;
      assert RowsRight(t.rows, t.workers[w], finder);
    }
  }

  /** What passes the confirm gate between requests has a Subject, and a run of the current generation for
      that Subject has gone through every row; and what has a completed check and a Subject passes. */
  lemma ConfirmIsBacked(s: State, steps: seq<Step>, finder: Finder)
    requires Fresh(s) && Undisturbed(s, steps, finder) && Settled(Run(s, steps, finder))
    ensures var t := Run(s, steps, finder);
      && (ConfirmPasses(t) ==>
            t.batch.subject.Some? && exists w: nat :: CleanRun(t, w) && t.workers[w].subject == t.batch.subject)
      && (t.batch.subject.Some? && t.batch.status == Completed ==> ConfirmPasses(t))
  {
    CompletionIsSound(s, steps, finder);
  }

  /** A superseded run still goes through at most five rows, and at most that many rows carry what it
      wrote then. */
  lemma LatenessIsBounded(s: State, steps: seq<Step>, finder: Finder, w: nat)
    requires Fresh(s) && Undisturbed(s, steps, finder) && w < |Run(s, steps, finder).workers|
    ensures var t := Run(s, steps, finder);
      && |LateRows(t.rows, w)| <= t.workers[w].late <= STALE_CHECK_EVERY
      && (t.workers[w].late > 0 ==> t.workers[w].generation < t.batch.generation)
  {
    ReachableInvariant(s, steps, finder);
    var t := Run(s, steps, finder);
    assert WorkerSound(t.batch.generation, |t.rows|, t.workers[w]);
  }

  /** Generations never go back. */
  lemma {:induction false} GenerationsGrow(s: State, steps: seq<Step>, finder: Finder, k: nat)
    requires Fresh(s) && Undisturbed(s, steps, finder) && k <= |steps|
    ensures Undisturbed(s, steps[..k], finder)
    ensures Run(s, steps[..k], finder).batch.generation <= Run(s, steps, finder).batch.generation
    decreases |steps|
  {
    var n := |steps| - 1;
    if k <= n {
      GenerationsGrow(s, steps[..n], finder, k);
      assert steps[..n][..k] == steps[..k];
      ReachableInvariant(s, steps[..n], finder);
      GenerationGrows(Run(s, steps[..n], finder), steps[n], finder);
    } else {
      assert steps[..k] == steps;
    }
  }

  ghost predicate SawStale(s: State, w: nat) {
    w < |s.workers| && s.workers[w].sawStale
  }

  lemma SawStaleStays(s: State, step: Step, finder: Finder, w: nat)
    requires SawStale(s, w)
    ensures SawStale(Apply(s, step, finder), w)
  {
  }

  lemma {:induction false} SawStaleForever(s: State, steps: seq<Step>, finder: Finder, k: nat, w: nat)
    requires k <= |steps| && SawStale(Run(s, steps[..k], finder), w)
    ensures SawStale(Run(s, steps, finder), w)
    decreases |steps|
  {
    var n := |steps| - 1;
    if k <= n {
      assert steps[..n][..k] == steps[..k];
      SawStaleForever(s, steps[..n], finder, k, w);
      SawStaleStays(Run(s, steps[..n], finder), steps[n], finder, w);
    } else {
      assert steps[..k] == steps;
    }
  }

  /** A run that has once seen a newer generation can never mark the check completed, whatever
      happens afterwards. */
  lemma StaleRunNeverCompletes(s: State, steps: seq<Step>, finder: Finder, k: nat, w: nat)
    requires Fresh(s) && Undisturbed(s, steps, finder) && k <= |steps|
    requires SawStale(Run(s, steps[..k], finder), w)
    ensures DoFinish(Run(s, steps, finder), w).batch == Run(s, steps, finder).batch
  {
    SawStaleForever(s, steps, finder, k, w);
    ReachableInvariant(s, steps, finder);
    var t := Run(s, steps, finder);
    assert WorkerSound(t.batch.generation, |t.rows|, t.workers[w]);
  }

  /** Two successful claims of one generation are more than the stale window apart, and no claim of a
      generation succeeds after it was completed. */
  lemma ClaimsAreSpaced(s: State, steps: seq<Step>, finder: Finder)
    requires Fresh(s) && Undisturbed(s, steps, finder)
    ensures Spaced(Run(s, steps, finder).log)
  {
    ReachableInvariant(s, steps, finder);
  }

  // ---------- without any condition on the requests ----------

  /** The highest generation that a history has been through. */
  ghost function Highest(s: State, steps: seq<Step>, finder: Finder): Generation
    decreases |steps|
  {
    if steps == [] then s.batch.generation
    else
      var before, now := Highest(s, steps[..|steps| - 1], finder), Run(s, steps, finder).batch.generation;
      if now > before then now else before
  }

  lemma {:induction false} NoneHigher(s: State, steps: seq<Step>, finder: Finder, k: nat)
    requires k <= |steps|
    ensures Run(s, steps[..k], finder).batch.generation <= Highest(s, steps, finder)
    decreases |steps|
  {
    if k == |steps| {
      assert steps[..k] == steps;
    } else {
      assert steps[..|steps| - 1][..k] == steps[..k];
      NoneHigher(s, steps[..|steps| - 1], finder, k);
    }
  }

  lemma {:induction false} OneIsHighest(s: State, steps: seq<Step>, finder: Finder) returns (k: nat)
    ensures k <= |steps| && Run(s, steps[..k], finder).batch.generation == Highest(s, steps, finder)
    decreases |steps|
  {
    k := |steps|;
    assert steps[..k] == steps;
    if steps != [] && Run(s, steps, finder).batch.generation < Highest(s, steps, finder) {
      k := OneIsHighest(s, steps[..|steps| - 1], finder);
      assert steps[..|steps| - 1][..k] == steps[..k];
    }
  }

  /** A request under way has read a generation that the batch has been through. */
  ghost predicate ReadBelow(p: Patch, h: Generation) {
    match p
    case Idle => true
    case HasRead(_, g) => g <= h
    case HasSaved(_, g, _) => g <= h
  }

  lemma {:induction false} RequestsReadBelow(s: State, steps: seq<Step>, finder: Finder, a: nat)
    requires Fresh(s) && a < |Run(s, steps, finder).patches|
    ensures ReadBelow(Run(s, steps, finder).patches[a], Highest(s, steps, finder))
    decreases |steps|
  {
    if steps != [] {
      var n := |steps| - 1;
      var before := Run(s, steps[..n], finder);
      NoneHigher(s, steps[..n], finder, n);
      assert steps[..n][..n] == steps[..n];
      assert before.batch.generation <= Highest(s, steps[..n], finder);
      if a < |before.patches| {
        RequestsReadBelow(s, steps[..n], finder, a);
      }
      StepReadsBelow(before, steps[n], finder, a, Highest(s, steps[..n], finder));
    }
  }

  lemma StepReadsBelow(s: State, step: Step, finder: Finder, a: nat, h: Generation)
    requires s.batch.generation <= h && (a < |s.patches| ==> ReadBelow(s.patches[a], h))
    ensures var t := Apply(s, step, finder); a < |t.patches| ==> ReadBelow(t.patches[a], h)
  {
  }

  /** Whatever requests overlap: the bump of a changed Subject leaves the generation above every earlier one
      exactly when its request had read the highest of them. */
  lemma BumpGoesAboveIff(s: State, steps: seq<Step>, finder: Finder, a: nat)
    requires Fresh(s) && a < |Run(s, steps, finder).patches| && HalfSaved(Run(s, steps, finder).patches[a])
    ensures
      var t := Run(s, steps, finder);
      (forall k :: 0 <= k <= |steps| ==> Run(s, steps[..k], finder).batch.generation < DoBump(t, a).batch.generation) <==>
        t.patches[a].generation == Highest(s, steps, finder)
  {
    RequestsReadBelow(s, steps, finder, a);
    forall k | 0 <= k <= |steps|
      ensures Run(s, steps[..k], finder).batch.generation <= Highest(s, steps, finder)
    {
      NoneHigher(s, steps, finder, k);
    }
    var k := OneIsHighest(s, steps, finder);
  }
}
