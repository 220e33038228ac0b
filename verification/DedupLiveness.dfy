/** What the duplicate check gets done: which deliveries start a run, and that a run nobody disturbs
    completes the check, also after another one was abandoned. */
module DedupLiveness {
  import opened Wrappers
  import opened DedupProtocol

  /** The delivery starts a new run of generation g. */
  ghost predicate StartsRun(s: State, t: State, g: Generation) {
    && t.batch == s.batch.(status := Processing, claimedAt := Some(s.now))
    && t.workers == s.workers + [Worker(g, Claimed, false, None, [], 0, 0, false, 0)]
    && t.log == s.log + [ClaimedAt(g, s.now)]
    && t.rows == s.rows && t.patches == s.patches && t.now == s.now
  }

  /** A delivery starts a run exactly when it is for the current generation and this is either pending or
      under a claim of more than thirty minutes; otherwise it does nothing. */
  lemma DeliveryIff(s: State, g: Generation, finder: Finder)
    ensures var t := Apply(s, Deliver(g), finder);
      if g == s.batch.generation
         && (s.batch.status == Pending
             || (s.batch.status == Processing && s.batch.claimedAt.Some? && s.now - s.batch.claimedAt.value > 30))
      then StartsRun(s, t, g) else t == s
  {
  }

  // ---------- takeover ----------

  /** Anything but a bump, a delivery or the end of a run: the clock, requests up to their first save, work on
      rows by any runs, and crashes. */
  ghost predicate Quiet(step: Step) {
    !step.Bump? && !step.Deliver? && !step.Finish?
  }

  lemma {:induction false} ClaimStays(s: State, steps: seq<Step>, finder: Finder)
    requires forall k :: 0 <= k < |steps| ==> Quiet(steps[k])
    ensures var u := Run(s, steps, finder);
      u.batch.generation == s.batch.generation && u.batch.status == s.batch.status && u.batch.claimedAt == s.batch.claimedAt
    decreases |steps|
  {
    if steps != [] {
      ClaimStays(s, steps[..|steps| - 1], finder);
    }
  }

  /** A pending check is claimed, and its run dies anywhere, or hangs.  However its work, other runs and
      requests go on meanwhile, as long as no Subject change is completed: a further delivery starts a new
      run exactly when more than thirty minutes have passed since the claim. */
  lemma TakeoverIff(s: State, g: Generation, steps: seq<Step>, finder: Finder)
    requires s.batch.status == Pending && s.batch.generation == g
    requires forall k :: 0 <= k < |steps| ==> Quiet(steps[k])
    ensures
      var claimed := Apply(s, Deliver(g), finder);
      var u := Run(claimed, steps, finder);
      var again := Apply(u, Deliver(g), finder);
      && StartsRun(s, claimed, g)
      && (if u.now - s.now > 30 then StartsRun(u, again, g) else again == u)
  {
    DeliveryIff(s, g, finder);
    var claimed := Apply(s, Deliver(g), finder);
    ClaimStays(claimed, steps, finder);
    DeliveryIff(Run(claimed, steps, finder), g, finder);
  }

  lemma EndedStaysEnded(s: State, step: Step, w: nat, finder: Finder)
    requires w < |s.workers| && s.workers[w].phase == Ended
    ensures var t := Apply(s, step, finder); w < |t.workers| && t.workers[w] == s.workers[w]
  {
  }

  /** A crash ends its run and writes nothing; whatever happens afterwards, that run neither goes on nor
      writes anything. */
  lemma {:induction false} CrashEndsRun(s: State, w: nat, steps: seq<Step>, next: Step, finder: Finder)
    requires w < |s.workers| && next in {Load(w), Check(w), GoThrough(w), Finish(w)}
    ensures Apply(s, Crash(w), finder) == s.(workers := s.workers[w := s.workers[w].(phase := Ended)])
    ensures
      var t := Run(Apply(s, Crash(w), finder), steps, finder);
      && w < |t.workers| && t.workers[w] == s.workers[w].(phase := Ended) && Apply(t, next, finder) == t
    decreases |steps|
  {
    if steps != [] {
      var n := |steps| - 1;
      CrashEndsRun(s, w, steps[..n], next, finder);
      EndedStaysEnded(Run(Apply(s, Crash(w), finder), steps[..n], finder), steps[n], w, finder);
    }
  }

  // ---------- a run from start to end ----------

  /** What run w does up to its first r rows: it loads, and looks at the generation before every fifth row. */
  ghost function Through(w: nat, r: nat): seq<Step> {
    if r == 0 then [Load(w)]
    else Through(w, r - 1) + (if (r - 1) % 5 == 0 then [Check(w), GoThrough(w)] else [GoThrough(w)])
  }

  /** All of it, for a batch of n rows: the end of the loop, and the completion. */
  ghost function WholeRun(w: nat, n: nat): seq<Step> {
    Through(w, n) + [Finish(w), Finish(w)]
  }

  lemma {:induction false} RunOn(s: State, first: seq<Step>, second: seq<Step>, finder: Finder)
    ensures Run(s, first + second, finder) == Run(Run(s, first, finder), second, finder)
    decreases |second|
  {
    if second == [] {
      assert first + second == first;
    } else {
      var n := |second| - 1;
      RunOn(s, first, second[..n], finder);
      assert (first + second)[..|first| + n] == first + second[..n];
    }
  }

  lemma OneStep(s: State, a: Step, finder: Finder)
    ensures Run(s, [a], finder) == Apply(s, a, finder)
  {
    assert [a][..0] == [] && Run(s, [], finder) == s;
  }

  lemma TwoSteps(s: State, a: Step, b: Step, finder: Finder)
    ensures Run(s, [a, b], finder) == Apply(Apply(s, a, finder), b, finder)
  {
    assert [a, b] == [a] + [b];
    RunOn(s, [a], [b], finder);
    OneStep(s, a, finder);
    OneStep(Apply(s, a, finder), b, finder);
  }

  /** Run w has gone through r rows for Subject x, undisturbed: those rows say what the finder says. */
  ghost predicate GoneThrough(s: State, t: State, w: nat, x: SubjectId, r: nat, finder: Finder) {
    && w < |s.workers| == |t.workers|
    && t.batch == s.batch && t.now == s.now && t.patches == s.patches && t.log == s.log
    && (forall v :: 0 <= v < |s.workers| && v != w ==> t.workers[v] == s.workers[v])
    && |t.rows| == |s.rows| && r <= |s.rows|
    && (var worker := t.workers[w];
        && worker.generation == s.batch.generation && worker.phase == Running && worker.loaded && worker.subject == Some(x)
        && worker.next == r && worker.checks == (r + 4) / 5 && !worker.sawStale && worker.late == s.workers[w].late
        && |worker.wasDuplicate| == |s.rows|
        && forall j :: 0 <= j < |s.rows| ==> worker.wasDuplicate[j] == s.rows[j].flag.Duplicate?)
    && (forall j :: 0 <= j < |s.rows| ==> if j < r then t.rows[j].flag == finder(x, j) else t.rows[j] == s.rows[j])
  }

  /** The run is claimed for the current generation and has not started. */
  ghost predicate ReadyToRun(s: State, w: nat) {
    && w < |s.workers|
    && s.workers[w] == Worker(s.batch.generation, Claimed, false, None, [], 0, 0, false, 0)
  }

  lemma LoadedRun(s: State, w: nat, x: SubjectId, finder: Finder)
    requires ReadyToRun(s, w) && s.batch.subject == Some(x)
    ensures GoneThrough(s, Apply(s, Load(w), finder), w, x, 0, finder)
  {
  }

  lemma CheckedRow(s: State, t: State, w: nat, x: SubjectId, r: nat, finder: Finder)
    requires GoneThrough(s, t, w, x, r, finder) && r < |s.rows| && r % 5 == 0
    ensures var u := Apply(t, Check(w), finder);
      && u == t.(workers := t.workers[w := t.workers[w].(checks := t.workers[w].checks + 1)])
  {
  }

  lemma OneMoreRow(s: State, t: State, w: nat, x: SubjectId, r: nat, finder: Finder)
    requires GoneThrough(s, t, w, x, r, finder) && r < |s.rows|
    ensures
      var u := if r % 5 == 0 then Apply(t, Check(w), finder) else t;
      GoneThrough(s, Apply(u, GoThrough(w), finder), w, x, r + 1, finder)
  {
    if r % 5 == 0 {
      CheckedRow(s, t, w, x, r, finder);
    }
  }

  lemma {:induction false} RunGoesThrough(s: State, w: nat, x: SubjectId, r: nat, finder: Finder)
    requires ReadyToRun(s, w) && s.batch.subject == Some(x) && r <= |s.rows|
    ensures GoneThrough(s, Run(s, Through(w, r), finder), w, x, r, finder)
  {
    hide GoneThrough;
    if r == 0 {
      OneStep(s, Load(w), finder);
      LoadedRun(s, w, x, finder);
    } else {
      RunGoesThrough(s, w, x, r - 1, finder);
      var t := Run(s, Through(w, r - 1), finder);
      OneMoreRow(s, t, w, x, r - 1, finder);
      if (r - 1) % 5 == 0 {
        RunOn(s, Through(w, r - 1), [Check(w), GoThrough(w)], finder);
        TwoSteps(t, Check(w), GoThrough(w), finder);
      } else {
        RunOn(s, Through(w, r - 1), [GoThrough(w)], finder);
        OneStep(t, GoThrough(w), finder);
      }
    }
  }

  lemma Finished(s: State, t: State, w: nat, x: SubjectId, finder: Finder)
    requires GoneThrough(s, t, w, x, |s.rows|, finder)
    ensures Completes(s, Apply(Apply(t, Finish(w), finder), Finish(w), finder), x, finder)
  {
  }

  /** The check is completed, and every row carries the finder's verdict for the Subject. */
  ghost predicate Completes(s: State, t: State, x: SubjectId, finder: Finder) {
    && t.batch == s.batch.(status := Completed) && t.now == s.now
    && t.log == s.log + [CompletedAt(s.batch.generation)]
    && |t.rows| == |s.rows| && forall j :: 0 <= j < |t.rows| ==> t.rows[j].flag == finder(x, j)
  }

  /** A claimed run that does all its steps while nobody else does anything completes the check. */
  lemma WholeRunCompletes(s: State, w: nat, x: SubjectId, finder: Finder)
    requires ReadyToRun(s, w) && s.batch.subject == Some(x)
    ensures Completes(s, Run(s, WholeRun(w, |s.rows|), finder), x, finder)
  {
    var n := |s.rows|;
    RunGoesThrough(s, w, x, n, finder);
    var t := Run(s, Through(w, n), finder);
    RunOn(s, Through(w, n), [Finish(w), Finish(w)], finder);
    TwoSteps(t, Finish(w), Finish(w), finder);
    Finished(s, t, w, x, finder);
  }

  /** Without a Subject there is nothing to go through: the run completes at once. */
  lemma EmptyRunCompletes(s: State, w: nat, finder: Finder)
    requires ReadyToRun(s, w) && s.batch.subject.None?
    ensures var t := Run(s, [Load(w), Finish(w)], finder);
      t.batch == s.batch.(status := Completed) && t.rows == s.rows && t.log == s.log + [CompletedAt(s.batch.generation)]
  {
    TwoSteps(s, Load(w), Finish(w), finder);
  }

  // ---------- an abandoned run and its successor ----------

  /** The run of a pending check is claimed, loads and crashes; after thirty-one minutes the check is delivered
      again and its run is left alone: the check is completed and every row is right. */
  lemma TakeoverCompletes(s: State, x: SubjectId, finder: Finder)
    requires s.batch.status == Pending && s.batch.subject == Some(x)
    ensures
      var g, w := s.batch.generation, |s.workers|;
      var crashed := [Deliver(g), Load(w), Crash(w), Tick(31), Deliver(g)];
      var t := Run(Run(s, crashed, finder), WholeRun(w + 1, |s.rows|), finder);
      && t.batch.status == Completed && t.batch.generation == g && t.batch.subject == Some(x)
      && |t.rows| == |s.rows| && forall j :: 0 <= j < |t.rows| ==> t.rows[j].flag == finder(x, j)
  {
    var g, w := s.batch.generation, |s.workers|;
    var dies := [Load(w), Crash(w), Tick(31)];
    TakeoverIff(s, g, dies, finder);
    var s1 := Apply(s, Deliver(g), finder);
    var u := Run(s1, dies, finder);
    DyingRun(s1, w, x, finder);
    var again := Apply(u, Deliver(g), finder);
    OneStep(s, Deliver(g), finder);
    OneStep(u, Deliver(g), finder);
    RunOn(s, [Deliver(g)], dies, finder);
    RunOn(s, [Deliver(g)] + dies, [Deliver(g)], finder);
    assert [Deliver(g)] + dies + [Deliver(g)] == [Deliver(g), Load(w), Crash(w), Tick(31), Deliver(g)];
    WholeRunCompletes(again, w + 1, x, finder);
  }

  lemma DyingRun(s: State, w: nat, x: SubjectId, finder: Finder)
    requires ReadyToRun(s, w) && s.batch.subject == Some(x)
    ensures var u := Run(s, [Load(w), Crash(w), Tick(31)], finder);
      u.now == s.now + 31 && u.batch == s.batch && u.rows == s.rows && |u.workers| == |s.workers|
  {
    assert [Load(w), Crash(w), Tick(31)] == [Load(w), Crash(w)] + [Tick(31)];
    RunOn(s, [Load(w), Crash(w)], [Tick(31)], finder);
    TwoSteps(s, Load(w), Crash(w), finder);
    OneStep(Apply(Apply(s, Load(w), finder), Crash(w), finder), Tick(31), finder);
  }

  // ---------- a request from start to end ----------

  /** A taxonomy request that nobody disturbs: the Subject is the one chosen, and if it is another one, the
      check is pending under the next generation and nobody has claimed it. */
  lemma RequestChangesSubject(s: State, a: nat, chosen: Option<SubjectId>, finder: Finder)
    requires a < |s.patches| && s.patches[a] == Idle
    ensures
      var t := Run(s, [Read(a), SaveSubject(a, chosen), Bump(a)], finder);
      && t == s.(batch := t.batch)
      && t.batch == if chosen == s.batch.subject then s.batch else Batch(chosen, s.batch.generation + 1, Pending, None)
  {
    var s1 := Apply(s, Read(a), finder);
    var s2 := Apply(s1, SaveSubject(a, chosen), finder);
    var s3 := Apply(s2, Bump(a), finder);
    assert s3.patches == s.patches;
    assert [Read(a), SaveSubject(a, chosen), Bump(a)] == [Read(a), SaveSubject(a, chosen)] + [Bump(a)];
    RunOn(s, [Read(a), SaveSubject(a, chosen)], [Bump(a)], finder);
    TwoSteps(s, Read(a), SaveSubject(a, chosen), finder);
    OneStep(s2, Bump(a), finder);
  }

  /** Choosing another Subject, delivering its check and leaving the run alone completes the check for it. */
  lemma SubjectIsChecked(s: State, a: nat, x: SubjectId, finder: Finder)
    requires a < |s.patches| && s.patches[a] == Idle && s.batch.subject != Some(x)
    ensures
      var chosen := Run(s, [Read(a), SaveSubject(a, Some(x)), Bump(a)], finder);
      var claimed := Apply(chosen, Deliver(s.batch.generation + 1), finder);
      var t := Run(claimed, WholeRun(|s.workers|, |s.rows|), finder);
      && t.batch.subject == Some(x) && t.batch.status == Completed && t.batch.generation == s.batch.generation + 1
      && |t.rows| == |s.rows| && forall j :: 0 <= j < |t.rows| ==> t.rows[j].flag == finder(x, j)
  {
    RequestChangesSubject(s, a, Some(x), finder);
    var chosen := Run(s, [Read(a), SaveSubject(a, Some(x)), Bump(a)], finder);
    DeliveryIff(chosen, s.batch.generation + 1, finder);
    WholeRunCompletes(Apply(chosen, Deliver(s.batch.generation + 1), finder), |s.workers|, x, finder);
  }
}
