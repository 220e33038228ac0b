/** Refunds of teachers' courses.  A second purchase of a course replaces the expiry of its row instead
    of extending it, so a refund of the first takes time from the second. */
module CourseRefunds {
  import opened Wrappers
  import opened BillingTypes
  import opened Entitlements
  import opened EntitlementInvariants
  import opened ProvideProofs
  import opened WithdrawProofs
  import opened Payments
  import opened PaymentInvariants
  import opened PaymentHistories
  import opened RefundShortfalls

  /** When access bought at an instant ends. */
  function Until(start: Time, access: CourseAccess): Option<Time> {
    var d := CourseDuration(access);
    if d.Some? then Some(start + d.value) else None
  }

  /** A grant that opened an enrollment is for the course that its purchase bought, runs from the
      enrollment for the time bought, and is the first on its row. */
  ghost predicate OpenedRight(ps: seq<Purchase>, a: Access, k: nat) {
    k < |a.grants| && a.grants[k].target.EnrollmentRow? && a.grants[k].wasCreated ==>
      var g := a.grants[k];
      && g.target.enrollment < |a.courses| && g.purchase < |ps| && ps[g.purchase].kind.TeacherCourse?
      && g.previousExpiresAt == None
      && g.grantedExpiresAt == Until(a.courses[g.target.enrollment].enrolledAt, ps[g.purchase].kind.access)
      && forall j :: 0 <= j < k ==> a.grants[j].target != g.target
  }

  // ---------- every step keeps that ----------

  /** The grants that were there are the same but for their revocation, and enrollments start when they did. */
  ghost predicate Later(ps: seq<Purchase>, a: Access, qs: seq<Purchase>, b: Access) {
    && |ps| <= |qs| && (forall q :: 0 <= q < |ps| ==> qs[q].kind == ps[q].kind)
    && |a.grants| <= |b.grants|
    && (forall k :: 0 <= k < |a.grants| ==> b.grants[k] == a.grants[k].(revokedAt := b.grants[k].revokedAt))
    && |a.courses| <= |b.courses|
    && (forall i :: 0 <= i < |a.courses| ==> b.courses[i].enrolledAt == a.courses[i].enrolledAt)
  }

  lemma LaterKeepsOpened(ps: seq<Purchase>, a: Access, qs: seq<Purchase>, b: Access, k: nat)
    requires OpenedRight(ps, a, k) && Later(ps, a, qs, b) && k < |a.grants|
    ensures OpenedRight(qs, b, k)
  {
  }

  /** The grant of a course on a row that was not there before. */
  lemma CourseOpened(ps: seq<Purchase>, a: Access, now: Time, pid: Id, k: nat)
    requires GrantsRefer(ps, a) && pid < |ps| && ps[pid].kind.TeacherCourse? && OpenedRight(ps, a, k)
    ensures OpenedRight(ps, Provide(a, now, pid, ps[pid].user, ps[pid].kind), k)
  {
    var b := Provide(a, now, pid, ps[pid].user, ps[pid].kind);
    if k < |a.grants| {
      LaterKeepsOpened(ps, a, ps, b, k);
    } else {
      forall j | 0 <= j < |a.grants|
        ensures a.grants[j].target != EnrollmentRow(|a.courses|)
      {
        assert InRange(a, a.grants[j].target);
      }
    }
  }

  lemma {:induction false} ComboOpensNone(a: Access, now: Time, pid: Id, user: Id, items: seq<Plan>)
    ensures
      var b := ProvideCombo(a, now, pid, user, items);
      && b.courses == a.courses && a.grants <= b.grants
      && forall j :: |a.grants| <= j < |b.grants| ==> !b.grants[j].target.EnrollmentRow?
    decreases |items|
  {
    if items != [] {
      ComboOpensNone(a, now, pid, user, items[..|items| - 1]);
    }
  }

  lemma {:induction false} PackageOpensNone(a: Access, now: Time, pid: Id, user: Id, tests: seq<Id>)
    ensures
      var b := ProvidePackage(a, now, pid, user, tests);
      && b.courses == a.courses && a.grants <= b.grants
      && forall j :: |a.grants| <= j < |b.grants| ==> !b.grants[j].target.EnrollmentRow?
    decreases |tests|
  {
    if tests != [] {
      PackageOpensNone(a, now, pid, user, tests[..|tests| - 1]);
    }
  }

  lemma ProvideKeepsOpened(ps: seq<Purchase>, a: Access, now: Time, pid: Id, k: nat)
    requires GrantsRefer(ps, a) && pid < |ps| && OpenedRight(ps, a, k)
    ensures OpenedRight(ps, Provide(a, now, pid, ps[pid].user, ps[pid].kind), k)
  {
    var p := ps[pid];
    var b := Provide(a, now, pid, p.user, p.kind);
    match p.kind
    case TeacherCourse(_, _) => CourseOpened(ps, a, now, pid, k);
    case Combo(items) =>
      ComboOpensNone(a, now, pid, p.user, items);
      if k < |a.grants| {
        LaterKeepsOpened(ps, a, ps, b, k);
      }
    case GrandTestPackage(tests) =>
      PackageOpensNone(a, now, pid, p.user, tests);
      if k < |a.grants| {
        LaterKeepsOpened(ps, a, ps, b, k);
      }
    case _ =>
      if k < |a.grants| {
        LaterKeepsOpened(ps, a, ps, b, k);
      }
  }

  lemma RevokeKeepsCourses(a: Access, loaded: Access, now: Time, k: nat, i: nat)
    requires SameShape(a, loaded) && k < |a.grants| && i < |a.courses|
    ensures RevokeGrant(a, loaded, now, k).courses[i].enrolledAt == a.courses[i].enrolledAt
  {
  }

  lemma WithdrawKeepsCourses(a: Access, now: Time, pid: Id, n: nat, i: nat)
    requires n <= |a.grants| && i < |a.courses|
    ensures Withdraw(a, now, pid, n).courses[i].enrolledAt == a.courses[i].enrolledAt
  {
    var p := (b: Access) => i < |b.courses| && b.courses[i].enrolledAt == a.courses[i].enrolledAt;
    forall m | 0 <= m < |a.grants| && p(Withdraw(a, now, pid, m))
      ensures p(Withdraw(a, now, pid, m + 1))
    {
      RevokeKeepsCourses(Withdraw(a, now, pid, m), a, now, m, i);
    }
    WithdrawKeeps(p, a, now, pid, 0, n);
  }

  lemma RefundKeepsOpened(st: Store, pid: Id, reason: string, k: nat)
    requires OpenedRight(st.purchases, st.access, k)
    ensures var s := Refund(st, pid, reason).0; OpenedRight(s.purchases, s.access, k)
  {
    var s := Refund(st, pid, reason).0;
    if s != st && k < |st.access.grants| {
      forall i | 0 <= i < |st.access.courses|
        ensures s.access.courses[i].enrolledAt == st.access.courses[i].enrolledAt
      {
        WithdrawKeepsCourses(st.access, st.now, pid, |st.access.grants|, i);
      }
      LaterKeepsOpened(st.purchases, st.access, s.purchases, s.access, k);
    }
  }

  lemma ActivateKeepsOpened(st: Store, pid: Id, allowUnpaid: bool, k: nat)
    requires LedgerSound(st) && OpenedRight(st.purchases, st.access, k)
    ensures var s := Activate(st, pid, allowUnpaid).0; OpenedRight(s.purchases, s.access, k)
  {
    if RefusalToActivate(st, pid, allowUnpaid).None? {
      var qs := st.purchases[pid := st.purchases[pid].(status := Approved, decidedAt := Some(st.now))];
      assert OpenedRight(qs, st.access, k);
      ProvideKeepsOpened(qs, st.access, st.now, pid, k);
    }
  }

  lemma SameTablesKeepOpened(st: Store, s: Store, k: nat)
    requires OpenedRight(st.purchases, st.access, k) && |st.purchases| <= |s.purchases|
    requires s.access.grants == st.access.grants && s.access.courses == st.access.courses
    requires forall q :: 0 <= q < |st.purchases| ==> s.purchases[q].kind == st.purchases[q].kind
    ensures OpenedRight(s.purchases, s.access, k)
  {
  }

  lemma OtherStepSameTables(st: Store, step: Step)
    requires !step.DoActivate? && !step.DoRefund?
    ensures var s := Apply(st, step).0;
      && |st.purchases| <= |s.purchases|
      && s.access.grants == st.access.grants && s.access.courses == st.access.courses
      && forall q :: 0 <= q < |st.purchases| ==> s.purchases[q].kind == st.purchases[q].kind
  {
    if step.DoGrantAccess? {
      ExtendShape(st.access, st.now, step.request, None);
    }
  }

  lemma StepKeepsOpened(st: Store, step: Step, k: nat)
    requires LedgerSound(st) && OpenedRight(st.purchases, st.access, k)
    ensures var s := Apply(st, step).0; OpenedRight(s.purchases, s.access, k)
  {
    match step
    case DoActivate(pid, allowUnpaid) => ActivateKeepsOpened(st, pid, allowUnpaid, k);
    case DoRefund(pid, reason) => RefundKeepsOpened(st, pid, reason, k);
    case _ =>
      OtherStepSameTables(st, step);
      SameTablesKeepOpened(st, Apply(st, step).0, k);
  }

  lemma {:induction false} HistoryKeepsOpened(st: Store, steps: seq<Step>, k: nat)
    requires LedgerSound(st) && OpenedRight(st.purchases, st.access, k)
    ensures var s := Run(st, steps); OpenedRight(s.purchases, s.access, k)
    decreases |steps|
  {
    if steps != [] {
      StepKeepsOpened(st, steps[0], k);
      StepSound(st, steps[0]);
      HistoryKeepsOpened(Apply(st, steps[0]).0, steps[1..], k);
    }
  }

  // ---------- the refund ----------

  /** While another grant is live on an enrollment, a refund takes what the refunded grant recorded off
      its expiry, and nothing if either has no end. */
  ghost function CutBy(g: Grant, row: Enrollment): Option<Time> {
    var c := Contribution(g, row.enrolledAt);
    if c.None? || row.expiresAt.None? then row.expiresAt else Some(row.expiresAt.value - c.value)
  }

  lemma WithdrawCuts(a: Access, now: Time, pid: Id, k: nat, i: nat)
    requires GrantsInRange(a) && OwnTargets(a) && k < |a.grants|
    requires a.grants[k].purchase == pid && a.grants[k].Live() && a.grants[k].target == EnrollmentRow(i)
    requires OtherLive(a.grants, k)
    ensures i < |a.courses|
    ensures Withdraw(a, now, pid, |a.grants|).courses[i] == a.courses[i].(expiresAt := CutBy(a.grants[k], a.courses[i]))
  {
    assert InRange(a, a.grants[k].target);
    WithdrawUnfold(a, now, pid, k);
    assert !LiveTargetOf(a, pid, k, EnrollmentRow(i));
    WithdrawTouchesOwnRows(a, now, pid, k, EnrollmentRow(i));
    OthersUntouched(a, now, pid, k);
    RestKeepsCourse(a, now, pid, k + 1, i, a.courses[i].(expiresAt := CutBy(a.grants[k], a.courses[i])));
  }

  /** Once undone, an enrollment is not touched by the rest of the loop. */
  lemma RestKeepsCourse(a: Access, now: Time, pid: Id, from: nat, i: nat, row: Enrollment)
    requires GrantsInRange(a) && OwnTargets(a) && 0 < from <= |a.grants|
    requires a.grants[from - 1].purchase == pid && a.grants[from - 1].Live() && a.grants[from - 1].target == EnrollmentRow(i)
    requires i < |a.courses| && Withdraw(a, now, pid, from).courses[i] == row
    ensures Withdraw(a, now, pid, |a.grants|).courses[i] == row
  {
    var p := (b: Access) => i < |b.courses| && b.courses[i] == row;
    forall m | from <= m < |a.grants| && p(Withdraw(a, now, pid, m))
      ensures p(Withdraw(a, now, pid, m + 1))
    {
      if a.grants[m].purchase == pid && a.grants[m].Live() {
        RevokeTouchesItsRow(Withdraw(a, now, pid, m), a, now, m, EnrollmentRow(i));
      }
    }
    WithdrawKeeps(p, a, now, pid, from, |a.grants|);
  }

  /** The time bought with fixed-length access. */
  lemma AccessLasts(access: CourseAccess)
    ensures CourseDuration(access).Some? ==> CourseDuration(access).value > 0
  {
  }

  /** Purchase pid opened enrollment i with grant k, and another purchase's grant j is live on it too. */
  ghost predicate OpenedAndRenewed(a: Access, pid: Id, k: nat, j: nat, i: nat) {
    && k < |a.grants| && j < |a.grants| && j != k
    && a.grants[k].purchase == pid && a.grants[k].Live() && a.grants[k].wasCreated && a.grants[k].target == EnrollmentRow(i)
    && a.grants[j].Live() && a.grants[j].target == EnrollmentRow(i)
  }

  /** The opening purchase is the earlier one.  The row keeps its end exactly when that purchase was for
      access without an end or the row has none now; otherwise the whole length of the purchase is cut. */
  ghost predicate FirstIsCut(a: Access, b: Access, kind: Kind, k: nat, j: nat, i: nat) {
    && k < j && i < |a.courses| && i < |b.courses| && kind.TeacherCourse?
    && var row, cut, bought := a.courses[i], b.courses[i], CourseDuration(kind.access);
       && cut.active == row.active
       && (cut.expiresAt == row.expiresAt <==> bought.None? || row.expiresAt.None?)
       && (bought.Some? && row.expiresAt.Some? ==> cut.expiresAt == Some(row.expiresAt.value - bought.value))
  }

  lemma WithdrawOfFirst(ps: seq<Purchase>, a: Access, now: Time, pid: Id, k: nat, j: nat, i: nat)
    requires GrantsInRange(a) && OwnTargets(a) && OpenedRight(ps, a, k) && pid < |ps| && OpenedAndRenewed(a, pid, k, j, i)
    ensures FirstIsCut(a, Withdraw(a, now, pid, |a.grants|), ps[pid].kind, k, j, i)
  {
    assert OtherLive(a.grants, k);
    WithdrawCuts(a, now, pid, k, i);
    AccessLasts(ps[pid].kind.access);
    assert a.grants[j].target == a.grants[k].target;
  }

  lemma RefundOfFirst(st: Store, pid: Id, reason: string, k: nat, j: nat, i: nat)
    requires LedgerSound(st) && OpenedRight(st.purchases, st.access, k) && OpenedAndRenewed(st.access, pid, k, j, i)
    requires Strip(reason) != "" && pid < |st.purchases| && st.purchases[pid].status == Approved
    ensures FirstIsCut(st.access, Refund(st, pid, reason).0.access, st.purchases[pid].kind, k, j, i)
  {
    assert GrantsInRange(st.access);
    WithdrawOfFirst(st.purchases, st.access, st.now, pid, k, j, i);
  }

  lemma OpenedInHistory(st: Store, steps: seq<Step>, k: nat)
    requires Fresh(st)
    ensures var s := Run(st, steps); LedgerSound(s) && OpenedRight(s.purchases, s.access, k)
  {
    FreshSound(st);
    HistorySound(st, steps);
    HistoryKeepsOpened(st, steps, k);
  }

  /** In every reachable state in which the purchase that opened an enrollment and another one both hold
      a live grant on it, the other one is the later.  Refunding the first leaves the expiry as it is
      exactly when it bought access without an end or the row has none now; otherwise it takes the whole
      length of the first purchase off the time that the later one paid for. */
  lemma RefundOfFirstCutsLaterIff(st: Store, steps: seq<Step>, pid: Id, reason: string, k: nat, j: nat, i: nat)
    requires Fresh(st) && pid < |Run(st, steps).purchases| && Run(st, steps).purchases[pid].status == Approved
    requires Strip(reason) != "" && OpenedAndRenewed(Run(st, steps).access, pid, k, j, i)
    ensures
      var before := Run(st, steps);
      FirstIsCut(before.access, Refund(before, pid, reason).0.access, before.purchases[pid].kind, k, j, i)
  {
    OpenedInHistory(st, steps, k);
    RefundOfFirst(Run(st, steps), pid, reason, k, j, i);
  }
}
