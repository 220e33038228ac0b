/** The promises of the payment service, and where it falls short of them. */
module PaymentTheorems {
  import opened Wrappers
  import opened BillingTypes
  import opened Entitlements
  import opened EntitlementInvariants
  import opened ProvideProofs
  import opened WithdrawProofs
  import opened Payments
  import opened PaymentInvariants
  import opened PaymentHistories
  import opened ConservationProofs

  // ---------- currency of subscriptions ----------

  /** At every clock reading of every history, two rows of one user, course, product and origin
      that both cover now are the same row. */
  lemma AtMostOneCurrent(st: Store, steps: seq<Step>, i: nat, j: nat)
    requires Fresh(st)
    requires i < |Run(st, steps).access.subs| && j < |Run(st, steps).access.subs|
    requires
      var s := Run(st, steps);
      SameRowSeries(s.access.subs[i], s.access.subs[j]) && s.access.subs[i].Covers(s.now) && s.access.subs[j].Covers(s.now)
    ensures i == j
  {
    ReachableSound(st, steps);
  }

  ghost predicate Lapsed(st: Store, i: nat) {
    i < |st.access.subs| && !st.access.subs[i].Covers(st.now)
  }

  lemma ExtendKeepsLapsed(a: Access, now: Time, r: Request, recordFor: Option<Id>, i: nat)
    requires i < |a.subs| && !a.subs[i].Covers(now)
    ensures
      var b := ExtendOrCreate(a, now, r, recordFor);
      i < |b.subs| && !b.subs[i].Covers(now)
  {
    ExtendShape(a, now, r, recordFor);
  }

  lemma {:induction false} ComboKeepsLapsed(a: Access, now: Time, pid: Id, user: Id, items: seq<Plan>, i: nat)
    requires i < |a.subs| && !a.subs[i].Covers(now)
    ensures
      var b := ProvideCombo(a, now, pid, user, items);
      i < |b.subs| && !b.subs[i].Covers(now)
    decreases |items|
  {
    if items != [] {
      var rest := items[..|items| - 1];
      ComboKeepsLapsed(a, now, pid, user, rest, i);
      ExtendKeepsLapsed(ProvideCombo(a, now, pid, user, rest), now, PlanRequest(user, items[|items| - 1]), Some(pid), i);
    }
  }

  lemma {:induction false} PackageKeepsSubs(a: Access, now: Time, pid: Id, user: Id, tests: seq<Id>)
    ensures ProvidePackage(a, now, pid, user, tests).subs == a.subs
    decreases |tests|
  {
    if tests != [] {
      PackageKeepsSubs(a, now, pid, user, tests[..|tests| - 1]);
    }
  }

  lemma ProvideKeepsLapsed(a: Access, now: Time, pid: Id, user: Id, kind: Kind, i: nat)
    requires i < |a.subs| && !a.subs[i].Covers(now)
    ensures
      var b := Provide(a, now, pid, user, kind);
      i < |b.subs| && !b.subs[i].Covers(now)
  {
    match kind
    case SingleSubscription(plan) => ExtendKeepsLapsed(a, now, PlanRequest(user, plan), Some(pid), i);
    case Combo(items) => ComboKeepsLapsed(a, now, pid, user, items, i);
    case GrandTestPackage(tests) => PackageKeepsSubs(a, now, pid, user, tests);
    case GrandTest(_) =>
    case TeacherCourse(_, _) =>
  }

  lemma StepKeepsLapsed(st: Store, step: Step, i: nat)
    requires LedgerSound(st) && Lapsed(st, i)
    ensures Lapsed(Apply(st, step).0, i)
  {
    match step
    case DoActivate(pid, allowUnpaid) =>
      if RefusalToActivate(st, pid, allowUnpaid).None? {
        ProvideKeepsLapsed(st.access, st.now, pid, st.purchases[pid].user, st.purchases[pid].kind, i);
      }
    case DoRefund(pid, reason) =>
      WithdrawNeverGrants(st.purchases, st.access, st.now, pid, |st.access.grants|, i);
    case DoGrantAccess(r) => ExtendKeepsLapsed(st.access, st.now, r, None, i);
    case _ =>
  }

  /** A row that has expired or been deactivated never covers the present again, whatever happens. */
  lemma {:induction false} NeverCurrentAgain(st: Store, steps: seq<Step>, i: nat)
    requires LedgerSound(st) && Lapsed(st, i)
    ensures Lapsed(Run(st, steps), i)
    decreases |steps|
  {
    if steps != [] {
      StepSound(st, steps[0]);
      StepKeepsLapsed(st, steps[0], i);
      NeverCurrentAgain(Apply(st, steps[0]).0, steps[1..], i);
    }
  }

  // ---------- an approval gives what was bought ----------

  /** The buyer holds a live grant of this purchase on a row for the plan, for the plan's full time from now. */
  ghost predicate PlanProvided(a: Access, now: Time, pid: Id, user: Id, plan: Plan) {
    exists k :: 0 <= k < |a.grants| && ProvidedBy(a, now, pid, user, plan, k)
  }

  ghost predicate ProvidedBy(a: Access, now: Time, pid: Id, user: Id, plan: Plan, k: nat)
    requires k < |a.grants|
  {
    var g := a.grants[k];
    && g.purchase == pid && g.Live() && g.target.SubscriptionRow? && g.target.sub < |a.subs|
    && var row := a.subs[g.target.sub];
       SameSeries(row, PlanRequest(user, plan)) && row.Covers(now + plan.Duration())
  }

  lemma ExtendProvides(a: Access, now: Time, pid: Id, user: Id, plan: Plan)
    ensures PlanProvided(ExtendOrCreate(a, now, PlanRequest(user, plan), Some(pid)), now, pid, user, plan)
  {
    var b := ExtendOrCreate(a, now, PlanRequest(user, plan), Some(pid));
    ExtendShape(a, now, PlanRequest(user, plan), Some(pid));
    assert ProvidedBy(b, now, pid, user, plan, |a.grants|);
  }

  lemma ExtendKeepsProvided(a: Access, now: Time, pid: Id, user: Id, plan: Plan, other: Plan)
    requires PlanProvided(a, now, pid, user, plan)
    requires plan.course != other.course || plan.product != other.product
    ensures PlanProvided(ExtendOrCreate(a, now, PlanRequest(user, other), Some(pid)), now, pid, user, plan)
  {
    var k :| 0 <= k < |a.grants| && ProvidedBy(a, now, pid, user, plan, k);
    var b := ExtendOrCreate(a, now, PlanRequest(user, other), Some(pid));
    ExtendShape(a, now, PlanRequest(user, other), Some(pid));
    assert b.grants[k] == a.grants[k];
    assert ProvidedBy(b, now, pid, user, plan, k);
  }

  lemma {:induction false} ComboProvides(a: Access, now: Time, pid: Id, user: Id, items: seq<Plan>, j: nat)
    requires DistinctPlans(items) && j < |items|
    ensures PlanProvided(ProvideCombo(a, now, pid, user, items), now, pid, user, items[j])
    decreases |items|
  {
    var n := |items| - 1;
    var before := ProvideCombo(a, now, pid, user, items[..n]);
    if j == n {
      ExtendProvides(before, now, pid, user, items[n]);
    } else {
      ComboProvides(a, now, pid, user, items[..n], j);
      assert items[..n][j] == items[j];
      ExtendKeepsProvided(before, now, pid, user, items[j], items[n]);
    }
  }

  lemma {:induction false} PackageProvides(a: Access, now: Time, pid: Id, user: Id, tests: seq<Id>, j: nat)
    requires j < |tests|
    ensures TestOpen(ProvidePackage(a, now, pid, user, tests), user, tests[j])
    decreases |tests|
  {
    var n := |tests| - 1;
    var before := ProvidePackage(a, now, pid, user, tests[..n]);
    if j == n {
      PackageTestOpens(before, now, pid, user, tests[n]);
    } else {
      PackageProvides(a, now, pid, user, tests[..n], j);
      assert tests[..n][j] == tests[j];
      PackageTestKeepsOpen(before, now, pid, user, tests[n], user, tests[j]);
    }
  }

  /** The student can enter this Grand Test. */
  ghost predicate TestOpen(a: Access, user: Id, test: Id) {
    exists i :: 0 <= i < |a.tests| && a.tests[i].user == user && a.tests[i].test == test && a.tests[i].revokedAt.None?
  }

  lemma PackageTestOpens(a: Access, now: Time, pid: Id, user: Id, test: Id)
    ensures TestOpen(ProvidePackageTest(a, now, pid, user, test), user, test)
  {
    var b := ProvidePackageTest(a, now, pid, user, test);
    var found := FindAccess(a.tests, |a.tests|, user, test);
    var i := if found.Some? then found.value else |a.tests|;
    assert b.tests[i].user == user && b.tests[i].test == test && b.tests[i].revokedAt.None?;
  }

  lemma PackageTestKeepsOpen(a: Access, now: Time, pid: Id, user: Id, test: Id, u: Id, t: Id)
    requires TestOpen(a, u, t)
    ensures TestOpen(ProvidePackageTest(a, now, pid, user, test), u, t)
  {
    var b := ProvidePackageTest(a, now, pid, user, test);
    var i :| 0 <= i < |a.tests| && a.tests[i].user == u && a.tests[i].test == t && a.tests[i].revokedAt.None?;
    assert b.tests[i].user == u && b.tests[i].test == t && b.tests[i].revokedAt.None?;
  }

  /** The buyer's enrollment is active until the end of the time bought from now on, with a live grant of
      this purchase that says so. */
  ghost predicate CourseProvided(a: Access, now: Time, pid: Id, user: Id, course: Id, access: CourseAccess) {
    exists k :: 0 <= k < |a.grants| && CourseProvidedBy(a, now, pid, user, course, access, k)
  }

  ghost predicate CourseProvidedBy(a: Access, now: Time, pid: Id, user: Id, course: Id, access: CourseAccess, k: nat)
    requires k < |a.grants|
  {
    var g := a.grants[k];
    && g.purchase == pid && g.Live() && g.target.EnrollmentRow? && g.target.enrollment < |a.courses|
    && var row := a.courses[g.target.enrollment];
       var end := if CourseDuration(access).Some? then Some(now + CourseDuration(access).value) else None;
       && row.user == user && row.course == course && row.active && row.expiresAt == end
       && g.grantedExpiresAt == end
  }

  lemma CourseProvides(a: Access, now: Time, pid: Id, user: Id, course: Id, access: CourseAccess)
    ensures CourseProvided(ProvideCourse(a, now, pid, user, course, access), now, pid, user, course, access)
  {
    assert CourseProvidedBy(ProvideCourse(a, now, pid, user, course, access), now, pid, user, course, access, |a.grants|);
  }

  lemma TestProvides(a: Access, now: Time, pid: Id, user: Id, test: Id)
    ensures TestOpen(ProvideTest(a, now, pid, user, test), user, test)
  {
    var found := FindAccess(a.tests, |a.tests|, user, test);
    var i := if found.Some? then found.value else |a.tests|;
    assert ProvideTest(a, now, pid, user, test).tests[i].user == user;
  }

  /** Everything in an order of this kind is open to its buyer. */
  ghost predicate Delivered(a: Access, now: Time, pid: Id, user: Id, kind: Kind) {
    && (forall j :: 0 <= j < |Plans(kind)| ==> PlanProvided(a, now, pid, user, Plans(kind)[j]))
    && (kind.GrandTest? ==> TestOpen(a, user, kind.test))
    && (kind.GrandTestPackage? ==> forall j :: 0 <= j < |kind.tests| ==> TestOpen(a, user, kind.tests[j]))
    && (kind.TeacherCourse? ==> CourseProvided(a, now, pid, user, kind.course, kind.access))
  }

  lemma ProvideDelivers(a: Access, now: Time, pid: Id, user: Id, kind: Kind)
    requires SoundKind(kind)
    ensures Delivered(Provide(a, now, pid, user, kind), now, pid, user, kind)
  {
    match kind
    case SingleSubscription(plan) => ExtendProvides(a, now, pid, user, plan);
    case Combo(items) =>
      forall j | 0 <= j < |items|
        ensures PlanProvided(Provide(a, now, pid, user, kind), now, pid, user, items[j])
      {
        ComboProvides(a, now, pid, user, items, j);
      }
    case GrandTestPackage(tests) =>
      forall j | 0 <= j < |tests|
        ensures TestOpen(Provide(a, now, pid, user, kind), user, tests[j])
      {
        PackageProvides(a, now, pid, user, tests, j);
      }
    case GrandTest(test) => TestProvides(a, now, pid, user, test);
    case TeacherCourse(course, access) => CourseProvides(a, now, pid, user, course, access);
  }

  /** An approval opens everything that was ordered: each plan for its full time from now on a row of
      the buyer, with a live grant of this purchase; each Grand Test; and a teacher's course until the
      end of the time bought, with a live grant that says so. */
  lemma ApprovalGivesWhatWasBought(st: Store, pid: Id, allowUnpaid: bool)
    requires LedgerSound(st) && Activate(st, pid, allowUnpaid).1.Accepted?
    ensures
      var s := Activate(st, pid, allowUnpaid).0;
      var p := st.purchases[pid];
      s.purchases[pid].status == Approved && Delivered(s.access, st.now, pid, p.user, p.kind)
  {
    assert SoundKind(st.purchases[pid].kind);
    ProvideDelivers(st.access, st.now, pid, st.purchases[pid].user, st.purchases[pid].kind);
  }

  // ---------- what exactly conserves paid time ----------

  /** Approving a plan on a row that adds up, or on a new one, leaves a row that adds up exactly when
      the plan lasts some time: a plan of duration zero leaves its row without an end. */
  lemma ApprovalKeepsRowIff(ps: seq<Purchase>, a: Access, now: Time, pid: Id, plan: Plan)
    requires Sound(ps, a, now) && pid < |ps| && ps[pid].kind == SingleSubscription(plan)
    requires
      var h := Hit(a, now, PlanRequest(ps[pid].user, plan));
      h < |a.subs| ==> RowPaid(ps, a, h)
    ensures
      var h := Hit(a, now, PlanRequest(ps[pid].user, plan));
      RowPaid(ps, Provide(a, now, pid, ps[pid].user, ps[pid].kind), h) <==>
        plan.durationValue > 0 || plan.durationUnit == OtherUnit
  {
    var r := PlanRequest(ps[pid].user, plan);
    assert plan.Duration() > 0 <==> plan.durationValue > 0 || plan.durationUnit == OtherUnit;
    if plan.Duration() > 0 {
      assert Plans(ps[pid].kind)[0] == plan;
      HitRowKept(ps, a, now, plan, pid);
    } else {
      ExtendShape(a, now, r, Some(pid));
    }
  }
}
