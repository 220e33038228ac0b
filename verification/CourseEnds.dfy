/** What a refund leaves of a teacher's course, with one purchase on its row or with several. */
module CourseEnds {
  import opened Wrappers
  import opened BillingTypes
  import opened Entitlements
  import opened EntitlementInvariants
  import opened ProvideProofs
  import opened WithdrawProofs
  import opened Payments
  import opened PaymentInvariants
  import opened PaymentHistories
  import opened RefundShortfalls
  import CourseRefunds
  import PaymentTheorems
  import opened Scenarios

  /** Grant k of purchase pid is live on enrollment i. */
  ghost predicate HoldsCourse(a: Access, pid: Id, k: nat, i: nat) {
    k < |a.grants| && a.grants[k].purchase == pid && a.grants[k].Live() && a.grants[k].target == EnrollmentRow(i)
  }

  /** Another grant is live on the same enrollment. */
  ghost predicate HeldBesides(a: Access, k: nat, i: nat) {
    exists j :: 0 <= j < |a.grants| && j != k && a.grants[j].Live() && a.grants[j].target == EnrollmentRow(i)
  }

  /** What undoing grant g makes of its enrollment.  It is closed when g opened it and nothing else holds it.
      Otherwise it stays as open as it was, and the time that g had added is taken off its end: the time
      from the end before g, or from the enrollment if there was none, to the end that g gave. */
  ghost predicate Undone(row: Enrollment, after: Enrollment, g: Grant, besides: bool) {
    && after.user == row.user && after.course == row.course && after.enrolledAt == row.enrolledAt
    && (after.active <==> row.active && (besides || !g.wasCreated))
    && (if (g.wasCreated && !besides) || g.grantedExpiresAt.None? || row.expiresAt.None? then after.expiresAt == row.expiresAt
        else
          var from := if g.previousExpiresAt.Some? then g.previousExpiresAt.value else row.enrolledAt;
          after.expiresAt == Some(row.expiresAt.value - (g.grantedExpiresAt.value - from)))
  }

  lemma RevokeUndoes(a: Access, now: Time, pid: Id, k: nat, i: nat)
    requires HoldsCourse(a, pid, k, i) && i < |a.courses|
    ensures Undone(a.courses[i], RevokeGrant(a, a, now, k).courses[i], a.grants[k], HeldBesides(a, k, i))
  {
    assert OtherLive(a.grants, k) <==> HeldBesides(a, k, i);
  }

  lemma WithdrawUndoes(a: Access, now: Time, pid: Id, k: nat, i: nat)
    requires GrantsInRange(a) && OwnTargets(a) && HoldsCourse(a, pid, k, i)
    ensures i < |a.courses|
    ensures Undone(a.courses[i], Withdraw(a, now, pid, |a.grants|).courses[i], a.grants[k], HeldBesides(a, k, i))
  {
    assert InRange(a, a.grants[k].target);
    WithdrawUnfold(a, now, pid, k);
    var b := Withdraw(a, now, pid, k);
    assert !LiveTargetOf(a, pid, k, EnrollmentRow(i));
    WithdrawTouchesOwnRows(a, now, pid, k, EnrollmentRow(i));
    OthersUntouched(a, now, pid, k);
    assert HeldBesides(b, k, i) <==> OtherLive(b.grants, k);
    assert HeldBesides(a, k, i) <==> OtherLive(a.grants, k);
    RevokeUndoes(b, now, pid, k, i);
    CourseRefunds.RestKeepsCourse(a, now, pid, k + 1, i, Withdraw(a, now, pid, k + 1).courses[i]);
  }

  /** A refund leaves an enrollment that its purchase holds open exactly when it was open and another grant
      holds it or the refunded one did not open it; and this is what becomes of its end. */
  lemma RefundUndoesCourse(st: Store, pid: Id, reason: string, k: nat, i: nat)
    requires LedgerSound(st) && Strip(reason) != "" && pid < |st.purchases| && st.purchases[pid].status == Approved
    requires HoldsCourse(st.access, pid, k, i)
    ensures var a, b := st.access, Refund(st, pid, reason).0.access;
      && i < |a.courses| && i < |b.courses|
      && (b.courses[i].active <==> a.courses[i].active && (HeldBesides(a, k, i) || !a.grants[k].wasCreated))
      && Undone(a.courses[i], b.courses[i], a.grants[k], HeldBesides(a, k, i))
  {
    WithdrawUndoes(st.access, st.now, pid, k, i);
  }

  // ---------- renewals ----------

  /** The enrollment of the buyer in the course, if there is one. */
  ghost predicate IsEnrollment(a: Access, user: Id, course: Id, i: nat) {
    i < |a.courses| && a.courses[i].user == user && a.courses[i].course == course
    && forall j :: 0 <= j < |a.courses| && a.courses[j].user == user && a.courses[j].course == course ==> j == i
  }

  lemma {:induction false} FoundEnrollment(courses: seq<Enrollment>, n: nat, user: Id, course: Id, i: nat)
    requires i < n <= |courses| && courses[i].user == user && courses[i].course == course
    requires forall j :: 0 <= j < n && courses[j].user == user && courses[j].course == course ==> j == i
    ensures FindEnrollment(courses, n, user, course) == Some(i)
  {
    if i < n - 1 {
      FoundEnrollment(courses, n - 1, user, course, i);
    }
  }

  /** Renewing an enrollment and refunding the renewal gives it back its end, if the renewal was for a limited
      time and there was an end; but it stays open, also when the refund of an earlier purchase had closed
      it and nothing else holds it. */
  lemma RenewalRoundTrip(st: Store, pid: Id, allowUnpaid: bool, reason: string, i: nat)
    requires LedgerSound(st) && Activate(st, pid, allowUnpaid).1.Accepted? && Strip(reason) != ""
    requires st.purchases[pid].kind.TeacherCourse?
    requires IsEnrollment(st.access, st.purchases[pid].user, st.purchases[pid].kind.course, i)
    ensures
      var bought := CourseDuration(st.purchases[pid].kind.access);
      var renewed := Activate(st, pid, allowUnpaid).0;
      var row, after := st.access.courses[i], Refund(renewed, pid, reason).0.access.courses;
      && i < |after| && after[i].active
      && (bought.Some? && row.expiresAt.Some? ==> after[i].expiresAt == row.expiresAt)
  {
    var p := st.purchases[pid];
    var a, s := st.access, Activate(st, pid, allowUnpaid).0;
    FoundEnrollment(a.courses, |a.courses|, p.user, p.kind.course, i);
    ActivateSound(st, pid, allowUnpaid);
    var k := |a.grants|;
    assert s.access == ProvideCourse(a, st.now, pid, p.user, p.kind.course, p.kind.access);
    assert HoldsCourse(s.access, pid, k, i);
    RefundUndoesCourse(s, pid, reason, k, i);
  }

  // ---------- a course bought and refunded twice ----------

  ghost function RefundedTwice(): seq<Step> {
    [DoOrder(7, TeacherCourse(1, Days30), None, None), DoActivate(0, true), DoRefund(0, "asked"), Tick(10 * DAY),
     DoOrder(7, TeacherCourse(1, Days30), None, None), DoActivate(1, true), DoRefund(1, "asked")]
  }

  ghost function FirstGrant(revoked: Option<Time>): Grant {
    Grant(0, EnrollmentRow(0), true, None, Some(30 * DAY), revoked)
  }

  lemma OpenedThenClosed(s: Store)
    requires s.access.courses == [Enrollment(7, 1, 0, Some(30 * DAY), true)] && s.access.grants == [FirstGrant(None)]
    requires |s.purchases| == 1 && s.purchases[0].status == Approved && s.now == 0
    ensures
      var t := Apply(s, DoRefund(0, "asked")).0;
      && t.access.courses == [Enrollment(7, 1, 0, Some(30 * DAY), false)] && t.access.grants == [FirstGrant(Some(0))]
      && |t.purchases| == 1 && t.purchases[0].status == Refunded && t.now == 0
  {
    var a := s.access;
    assert Strip("asked") == "asked";
    assert Withdraw(a, 0, 0, 0) == a;
    assert !OtherLive(a.grants, 0);
  }

  lemma ReopenedByRenewal(a: Access)
    requires a.courses == [Enrollment(7, 1, 0, Some(30 * DAY), false)] && a.grants == [FirstGrant(Some(0))]
    ensures
      var b := Provide(a, 10 * DAY, 1, 7, TeacherCourse(1, Days30));
      && b.courses == [Enrollment(7, 1, 0, Some(40 * DAY), true)]
      && b.grants == [FirstGrant(Some(0)), Grant(1, EnrollmentRow(0), false, Some(30 * DAY), Some(40 * DAY), None)]
  {
    assert FindEnrollment(a.courses, 1, 7, 1) == Some(0);
  }

  lemma StaysOpen(s: Store)
    requires s.access.courses == [Enrollment(7, 1, 0, Some(40 * DAY), true)]
    requires s.access.grants == [FirstGrant(Some(0)), Grant(1, EnrollmentRow(0), false, Some(30 * DAY), Some(40 * DAY), None)]
    requires |s.purchases| == 2 && s.purchases[0].status == Refunded && s.purchases[1].status == Approved
    ensures
      var t := Apply(s, DoRefund(1, "asked")).0;
      && t.access.courses == [Enrollment(7, 1, 0, Some(30 * DAY), true)]
      && |t.purchases| == 2 && t.purchases[0].status == Refunded && t.purchases[1].status == Refunded
  {
    var a := s.access;
    assert Strip("asked") == "asked";
    assert Withdraw(a, s.now, 1, 0) == a;
    assert Withdraw(a, s.now, 1, 1) == a;
    assert Withdraw(a, s.now, 1, 2) == RevokeGrant(a, a, s.now, 1);
  }

  lemma FirstOpened(start: Store, steps: seq<Step>) returns (s: Store)
    requires start == Empty() && steps == RefundedTwice()
    ensures s == Run(start, steps[..2]) && s.now == 0
    ensures s.access.courses == [Enrollment(7, 1, 0, Some(30 * DAY), true)] && s.access.grants == [FirstGrant(None)]
    ensures |s.purchases| == 1 && s.purchases[0].status == Approved
  {
    OrderPlaced(start, TeacherCourse(1, Days30), None);
    var s1 := GoOn(start, [], start, steps[0]);
    OrderApproved(s1, 0, true);
    FirstCourse(s1.access);
    s := GoOn(start, [] + [steps[0]], s1, steps[1]);
    assert steps[..2] == [] + [steps[0]] + [steps[1]];
  }

  lemma CourseClosed(start: Store, steps: seq<Step>) returns (s: Store)
    requires start == Empty() && steps == RefundedTwice()
    ensures s == Run(start, steps[..4]) && s.now == 10 * DAY
    ensures s.access.courses == [Enrollment(7, 1, 0, Some(30 * DAY), false)] && s.access.grants == [FirstGrant(Some(0))]
    ensures |s.purchases| == 1 && s.purchases[0].status == Refunded
  {
    hide Run, Refund, Activate;
    var s2 := FirstOpened(start, steps);
    OpenedThenClosed(s2);
    var s3 := GoOn(start, steps[..2], s2, steps[2]);
    s := GoOn(start, steps[..2] + [steps[2]], s3, steps[3]);
    assert steps[..4] == steps[..2] + [steps[2]] + [steps[3]];
  }

  /** Both purchases are refunded, and the student keeps the thirty days of the first. */
  lemma RefundedCourseStaysOpen(start: Store, steps: seq<Step>)
    requires start == Empty() && steps == RefundedTwice()
    ensures
      var s := Run(start, steps);
      && s.access.courses == [Enrollment(7, 1, 0, Some(30 * DAY), true)]
      && |s.purchases| == 2 && s.purchases[0].status == Refunded && s.purchases[1].status == Refunded
  {
    var s4 := CourseClosed(start, steps);
    OrderPlaced(s4, TeacherCourse(1, Days30), None);
    var s5 := GoOn(start, steps[..4], s4, steps[4]);
    OrderApproved(s5, 1, true);
    ReopenedByRenewal(s5.access);
    var s6 := GoOn(start, steps[..4] + [steps[4]], s5, steps[5]);
    StaysOpen(s6);
    var s7 := GoOn(start, steps[..4] + [steps[4]] + [steps[5]], s6, steps[6]);
    assert steps == steps[..4] + [steps[4]] + [steps[5]] + [steps[6]];
  }

  // ---------- lengths ----------

  /** How long each kind of access lasts, in microseconds. */
  lemma CourseLengths(days: nat)
    ensures CourseDuration(Days30) == Some(30 * 86_400_000_000) && CourseDuration(Days90) == Some(90 * 86_400_000_000)
    ensures CourseDuration(Days180) == Some(180 * 86_400_000_000) && CourseDuration(OneYear) == Some(365 * 86_400_000_000)
    ensures CourseDuration(Lifetime).None? && CourseDuration(UnknownAccess).None? && CourseDuration(CustomDays(None)).None?
    ensures CourseDuration(CustomDays(Some(days))) == if days == 0 then None else Some(days * 86_400_000_000)
  {
  }

  /** How long a plan lasts, in microseconds; an unknown unit means thirty days. */
  lemma PlanLengths(p: Plan)
    ensures p.durationUnit.Day? ==> p.Duration() == p.durationValue * 86_400_000_000
    ensures p.durationUnit.Week? ==> p.Duration() == p.durationValue * 604_800_000_000
    ensures p.durationUnit.Month? ==> p.Duration() == p.durationValue * 2_592_000_000_000
    ensures p.durationUnit.Year? ==> p.Duration() == p.durationValue * 31_536_000_000_000
    ensures p.durationUnit.OtherUnit? ==> p.Duration() == 2_592_000_000_000
  {
  }
}
