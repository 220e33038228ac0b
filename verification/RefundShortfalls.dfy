/** Histories in which a refund takes more than the refunded purchase gave, and exactly when. */
module RefundShortfalls {
  import opened Wrappers
  import opened BillingTypes
  import opened Entitlements
  import opened EntitlementInvariants
  import opened WithdrawProofs
  import opened Payments
  import opened PaymentInvariants
  import opened PaymentHistories
  import opened RefundTheorems
  import opened Scenarios

  // ---------- Grand Tests ----------

  /** A test ordered and paid for twice before either payment was approved; both are approved, the first
      is refunded. */
  ghost function BuyTwiceRefundOne(): seq<Step> {
    [DoOrder(7, GrandTest(1), None, Some(DAY)), DoOrder(7, GrandTest(1), None, Some(DAY)),
     DoSubmit(0, "A"), DoSubmit(1, "B"), DoActivate(0, false), DoActivate(1, false), DoRefund(0, "duplicate")]
  }

  /** Both orders are paid for and waiting. */
  lemma BothPaid(start: Store, steps: seq<Step>) returns (s: Store)
    requires start == Empty() && steps == BuyTwiceRefundOne()
    ensures s == Run(start, steps[..4]) && s.now == 0 && s.access == Access([], [], [], [], {})
    ensures s.purchases == [NewOrder(GrandTest(1), Some(DAY)).(reference := "A", status := Pending),
                            NewOrder(GrandTest(1), Some(DAY)).(reference := "B", status := Pending)]
  {
    var k := GrandTest(1);
    OrderPlaced(start, k, Some(DAY));
    var s1 := GoOn(start, [], start, steps[0]);
    OrderPlaced(s1, k, Some(DAY));
    var s2 := GoOn(start, [] + [steps[0]], s1, steps[1]);
    assert Strip("A") == "A" && Strip("B") == "B";
    ProofSubmitted(s2, 0, "A");
    var s3 := GoOn(start, [] + [steps[0]] + [steps[1]], s2, steps[2]);
    ProofSubmitted(s3, 1, "B");
    s := GoOn(start, [] + [steps[0]] + [steps[1]] + [steps[2]], s3, steps[3]);
    assert steps[..4] == [] + [steps[0]] + [steps[1]] + [steps[2]] + [steps[3]];
  }

  lemma FirstTest(a: Access)
    requires a == Access([], [], [], [], {})
    ensures
      var b := Provide(a, 0, 0, 7, GrandTest(1));
      && b.tests == [GrandTestAccess(7, 1, Some(0), Some(0), None)]
      && b.grants == [Grant(0, AccessRow(0), true, None, None, None)]
  {
  }

  lemma SecondTest(a: Access)
    requires a.tests == [GrandTestAccess(7, 1, Some(0), Some(0), None)]
    requires a.grants == [Grant(0, AccessRow(0), true, None, None, None)]
    ensures
      var b := Provide(a, 0, 1, 7, GrandTest(1));
      && b.tests == [GrandTestAccess(7, 1, Some(1), Some(0), None)]
      && b.grants == [Grant(0, AccessRow(0), true, None, None, None), Grant(1, AccessRow(0), false, None, None, None)]
  {
    assert FindAccess(a.tests, 1, 7, 1) == Some(0);
  }

  lemma BothApproved(start: Store, steps: seq<Step>) returns (s: Store)
    requires start == Empty() && steps == BuyTwiceRefundOne()
    ensures s == Run(start, steps[..6])
    ensures s.access.tests == [GrandTestAccess(7, 1, Some(1), Some(0), None)]
    ensures s.access.grants ==
            [Grant(0, AccessRow(0), true, None, None, None), Grant(1, AccessRow(0), false, None, None, None)]
    ensures |s.purchases| == 2 && s.purchases[0].status == Approved && s.purchases[1].status == Approved
  {
    var s4 := BothPaid(start, steps);
    OrderApproved(s4, 0, false);
    FirstTest(s4.access);
    var s5 := GoOn(start, steps[..4], s4, steps[4]);
    OrderApproved(s5, 1, false);
    SecondTest(s5.access);
    s := GoOn(start, steps[..4] + [steps[4]], s5, steps[5]);
    assert steps[..6] == steps[..4] + [steps[4]] + [steps[5]];
  }

  /** The second of two purchases is approved, its grant is live, and the test is closed. */
  ghost predicate LockedOut(s: Store) {
    && |s.purchases| == 2 && s.purchases[1].status == Approved
    && |s.access.grants| == 2 && s.access.grants[1] == Grant(1, AccessRow(0), false, None, None, None)
    && |s.access.tests| == 1 && s.access.tests[0].revokedAt.Some?
  }

  lemma RefundLocksOut(before: Store, step: Step)
    requires before.access.tests == [GrandTestAccess(7, 1, Some(1), Some(0), None)]
    requires before.access.grants ==
             [Grant(0, AccessRow(0), true, None, None, None), Grant(1, AccessRow(0), false, None, None, None)]
    requires |before.purchases| == 2 && before.purchases[0].status == Approved && before.purchases[1].status == Approved
    requires step.DoRefund? && step.pid == 0 && Strip(step.reason) != ""
    ensures LockedOut(Apply(before, step).0)
  {
    var g := before.access.grants;
    assert g[0].purchase == 0 && g[0].Live() && g[0].target == AccessRow(0);
    assert LiveTargetOf(before.access, 0, 2, AccessRow(0));
    WithdrawTests(before.access, before.now, 0, 2, 0);
  }

  /** The second purchase stays approved and paid for, its grant stays live, and the student is locked out. */
  lemma OtherPurchaseLosesGrandTest(start: Store, steps: seq<Step>)
    requires start == Empty() && steps == BuyTwiceRefundOne()
    ensures LockedOut(Run(start, steps))
  {
    var before := BothApproved(start, steps);
    assert Strip("duplicate") == "duplicate";
    RefundLocksOut(before, steps[6]);
    var after := GoOn(start, steps[..6], before, steps[6]);
    assert steps == steps[..6] + [steps[6]];
  }

  // ---------- time granted by hand ----------

  /** On a row where the refunded purchase has a live grant, the row stays active exactly when
      another live grant is left on it or the refunded one did not open it. */
  lemma RefundDeactivatesExactly(st: Store, pid: Id, reason: string, k: nat, i: nat)
    requires LedgerSound(st) && Refund(st, pid, reason).1.Accepted?
    requires k < |st.access.grants| && st.access.grants[k].purchase == pid && LiveOn(st.access.grants[k], i)
    ensures
      var s := Refund(st, pid, reason).0;
      && i < |st.access.subs| && i < |s.access.subs|
      && (s.access.subs[i].active <==>
            st.access.subs[i].active && (OtherLive(st.access.grants, k) || !st.access.grants[k].wasCreated))
  {
    assert GrantsInRange(st.access) && OwnTargets(st.access);
    assert st.purchases[pid].status == Approved;
    WithdrawActive(st.access, st.now, pid, k, |st.access.grants|, i);
  }

  /** The step of a refund that undoes grant k itself. */
  lemma OwnReversalDecides(a: Access, now: Time, pid: Id, k: nat, i: nat)
    requires GrantsInRange(a) && OwnTargets(a) && k < |a.grants|
    requires a.grants[k].purchase == pid && LiveOn(a.grants[k], i) && i < |a.subs|
    ensures
      var b := Withdraw(a, now, pid, k + 1);
      b.subs[i].active <==> a.subs[i].active && (OtherLive(a.grants, k) || !a.grants[k].wasCreated)
  {
    WithdrawUnfold(a, now, pid, k);
    assert !LiveTargetOf(a, pid, k, SubscriptionRow(i));
    WithdrawTouchesOwnRows(a, now, pid, k, SubscriptionRow(i));
    OthersUntouched(a, now, pid, k);
  }

  /** Any later step of the refund is on another row. */
  lemma LaterReversalElsewhere(a: Access, now: Time, pid: Id, k: nat, n: nat, i: nat)
    requires GrantsInRange(a) && OwnTargets(a) && k < n < |a.grants|
    requires a.grants[k].purchase == pid && LiveOn(a.grants[k], i) && i < |a.subs|
    ensures Withdraw(a, now, pid, n + 1).subs[i] == Withdraw(a, now, pid, n).subs[i]
  {
    if a.grants[n].purchase == pid && a.grants[n].Live() {
      RevokeTouchesItsRow(Withdraw(a, now, pid, n), a, now, n, SubscriptionRow(i));
    }
  }

  lemma WithdrawActive(a: Access, now: Time, pid: Id, k: nat, n: nat, i: nat)
    requires GrantsInRange(a) && OwnTargets(a) && k < n <= |a.grants|
    requires a.grants[k].purchase == pid && LiveOn(a.grants[k], i)
    ensures
      var b := Withdraw(a, now, pid, n);
      && i < |a.subs|
      && (b.subs[i].active <==> a.subs[i].active && (OtherLive(a.grants, k) || !a.grants[k].wasCreated))
  {
    assert InRange(a, a.grants[k].target);
    OwnReversalDecides(a, now, pid, k, i);
    var stays := a.subs[i].active && (OtherLive(a.grants, k) || !a.grants[k].wasCreated);
    var p := (b: Access) => i < |b.subs| && b.subs[i].active == stays;
    forall m | k + 1 <= m < |a.grants| && p(Withdraw(a, now, pid, m))
      ensures p(Withdraw(a, now, pid, m + 1))
    {
      LaterReversalElsewhere(a, now, pid, k, m, i);
    }
    WithdrawKeeps(p, a, now, pid, k + 1, n);
  }

  /** The earlier reversals of a refund do not change what else is live on a row. */
  lemma OthersUntouched(a: Access, now: Time, pid: Id, k: nat)
    requires OwnTargets(a) && k < |a.grants| && a.grants[k].purchase == pid
    ensures OtherLive(Withdraw(a, now, pid, k).grants, k) <==> OtherLive(a.grants, k)
  {
    var b := Withdraw(a, now, pid, k);
    if OtherLive(a.grants, k) {
      var j :| 0 <= j < |a.grants| && j != k && a.grants[j].Live() && a.grants[j].target == a.grants[k].target;
      assert b.grants[j] == a.grants[j];
    }
    if OtherLive(b.grants, k) {
      var j :| 0 <= j < |b.grants| && j != k && b.grants[j].Live() && b.grants[j].target == b.grants[k].target;
      assert a.grants[j].Live() && a.grants[j].target == a.grants[k].target;
    }
  }

  ghost function DayPlan(): Plan {
    Plan(1, QBank, 1, Day, None)
  }

  /** A day bought, thirty days added by an administrator, the day refunded. */
  ghost function BuyAddRefund(): seq<Step> {
    [DoOrder(7, SingleSubscription(DayPlan()), None, None), DoActivate(0, true),
     DoGrantAccess(Request(7, 1, QBank, 30 * DAY, None, None, false)), DoRefund(0, "asked")]
  }

  lemma DayBought(a: Access)
    requires a == Access([], [], [], [], {})
    ensures
      var b := Provide(a, 0, 0, 7, SingleSubscription(DayPlan()));
      && b.subs == [Subscription(7, 1, QBank, Some(DayPlan()), 0, Some(DAY), None, true, false)]
      && b.grants == [Grant(0, SubscriptionRow(0), true, None, Some(DAY), None)]
  {
  }

  lemma DaysAdded(s: Store)
    requires s.access.subs == [Subscription(7, 1, QBank, Some(DayPlan()), 0, Some(DAY), None, true, false)] && s.now == 0
    ensures
      var t := GrantAccess(s, Request(7, 1, QBank, 30 * DAY, None, None, false)).0;
      && t.access.subs == [Subscription(7, 1, QBank, Some(DayPlan()), 0, Some(31 * DAY), None, true, false)]
      && t.access.grants == s.access.grants && t.purchases == s.purchases && t.now == s.now
  {
    var r := Request(7, 1, QBank, 30 * DAY, None, None, false);
    assert FindExisting(s.access.subs, 1, 0, r) == Some(0);
  }

  lemma DayRefunded(s: Store, reason: string)
    requires |s.access.subs| == 1 && s.access.subs[0].active
    requires s.access.grants == [Grant(0, SubscriptionRow(0), true, None, Some(DAY), None)]
    requires |s.purchases| == 1 && s.purchases[0].status == Approved && Strip(reason) != ""
    ensures
      var t := Refund(s, 0, reason).0;
      |t.access.subs| == 1 && !t.access.subs[0].active
  {
    assert !OtherLive(s.access.grants, 0);
    WithdrawActive(s.access, s.now, 0, 0, 1, 0);
  }

  lemma DayExtended(start: Store, steps: seq<Step>) returns (s: Store)
    requires start == Empty() && steps == BuyAddRefund()
    ensures s == Run(start, steps[..3])
    ensures s.access.subs == [Subscription(7, 1, QBank, Some(DayPlan()), 0, Some(31 * DAY), None, true, false)]
    ensures s.access.grants == [Grant(0, SubscriptionRow(0), true, None, Some(DAY), None)]
    ensures |s.purchases| == 1 && s.purchases[0].status == Approved
  {
    var k := SingleSubscription(DayPlan());
    OrderPlaced(start, k, None);
    var s1 := GoOn(start, [], start, steps[0]);
    OrderApproved(s1, 0, true);
    DayBought(s1.access);
    var s2 := GoOn(start, [] + [steps[0]], s1, steps[1]);
    DaysAdded(s2);
    s := GoOn(start, [] + [steps[0]] + [steps[1]], s2, steps[2]);
    assert steps[..3] == [] + [steps[0]] + [steps[1]] + [steps[2]];
  }

  /** The refund of the day ends the administrator's thirty days too. */
  lemma RefundEndsTimeGrantedByHand(start: Store, steps: seq<Step>)
    requires start == Empty() && steps == BuyAddRefund()
    ensures
      var before, after := Run(start, steps[..3]), Run(start, steps);
      && |before.access.subs| == 1 && before.access.subs[0].active
      && before.access.subs[0].expiresAt == Some(31 * DAY)
      && |after.access.subs| == 1 && !after.access.subs[0].active
  {
    var s3 := DayExtended(start, steps);
    assert Strip("asked") == "asked";
    DayRefunded(s3, "asked");
    var s4 := GoOn(start, steps[..3], s3, steps[3]);
    assert steps == steps[..3] + [steps[3]];
  }

  // ---------- teachers' courses ----------

  /** Thirty days bought and used up, ninety more bought, the first purchase refunded. */
  ghost function LapseRenewRefund(): seq<Step> {
    [DoOrder(7, TeacherCourse(1, Days30), None, None), DoActivate(0, true), Tick(40 * DAY),
     DoOrder(7, TeacherCourse(1, Days90), None, None), DoActivate(1, true), DoRefund(0, "asked")]
  }

  lemma FirstCourse(a: Access)
    requires a == Access([], [], [], [], {})
    ensures
      var b := Provide(a, 0, 0, 7, TeacherCourse(1, Days30));
      && b.courses == [Enrollment(7, 1, 0, Some(30 * DAY), true)]
      && b.grants == [Grant(0, EnrollmentRow(0), true, None, Some(30 * DAY), None)]
  {
  }

  lemma SecondCourse(a: Access)
    requires a.courses == [Enrollment(7, 1, 0, Some(30 * DAY), true)]
    requires a.grants == [Grant(0, EnrollmentRow(0), true, None, Some(30 * DAY), None)]
    ensures
      var b := Provide(a, 40 * DAY, 1, 7, TeacherCourse(1, Days90));
      && b.courses == [Enrollment(7, 1, 0, Some(130 * DAY), true)]
      && b.grants == [Grant(0, EnrollmentRow(0), true, None, Some(30 * DAY), None),
                      Grant(1, EnrollmentRow(0), false, Some(30 * DAY), Some(130 * DAY), None)]
  {
    assert FindEnrollment(a.courses, 1, 7, 1) == Some(0);
  }

  lemma CourseLapsed(start: Store, steps: seq<Step>) returns (s: Store)
    requires start == Empty() && steps == LapseRenewRefund()
    ensures s == Run(start, steps[..3]) && s.now == 40 * DAY
    ensures s.access.courses == [Enrollment(7, 1, 0, Some(30 * DAY), true)]
    ensures s.access.grants == [Grant(0, EnrollmentRow(0), true, None, Some(30 * DAY), None)]
    ensures |s.purchases| == 1 && s.purchases[0].status == Approved
  {
    var k := TeacherCourse(1, Days30);
    OrderPlaced(start, k, None);
    var s1 := GoOn(start, [], start, steps[0]);
    OrderApproved(s1, 0, true);
    FirstCourse(s1.access);
    var s2 := GoOn(start, [] + [steps[0]], s1, steps[1]);
    s := GoOn(start, [] + [steps[0]] + [steps[1]], s2, steps[2]);
    assert steps[..3] == [] + [steps[0]] + [steps[1]] + [steps[2]];
  }

  lemma CourseRenewed(start: Store, steps: seq<Step>) returns (s: Store)
    requires start == Empty() && steps == LapseRenewRefund()
    ensures s == Run(start, steps[..5])
    ensures s.access.courses == [Enrollment(7, 1, 0, Some(130 * DAY), true)]
    ensures s.access.grants == [Grant(0, EnrollmentRow(0), true, None, Some(30 * DAY), None),
                                Grant(1, EnrollmentRow(0), false, Some(30 * DAY), Some(130 * DAY), None)]
    ensures |s.purchases| == 2 && s.purchases[0].status == Approved && s.purchases[1].status == Approved
  {
    var k := TeacherCourse(1, Days90);
    var s3 := CourseLapsed(start, steps);
    OrderPlaced(s3, k, None);
    var s4 := GoOn(start, steps[..3], s3, steps[3]);
    OrderApproved(s4, 1, true);
    SecondCourse(s4.access);
    s := GoOn(start, steps[..3] + [steps[3]], s4, steps[4]);
    assert steps[..5] == steps[..3] + [steps[3]] + [steps[4]];
  }

  /** One course, open until some instant, and two purchases of which the later is approved. */
  ghost predicate CourseUntil(s: Store, expiry: Time) {
    && |s.access.courses| == 1 && s.access.courses[0].expiresAt == Some(expiry)
    && |s.purchases| == 2 && s.purchases[1].status == Approved
  }

  lemma EarlierRefundCuts(before: Store, step: Step)
    requires before.access.courses == [Enrollment(7, 1, 0, Some(130 * DAY), true)]
    requires before.access.grants == [Grant(0, EnrollmentRow(0), true, None, Some(30 * DAY), None),
                                      Grant(1, EnrollmentRow(0), false, Some(30 * DAY), Some(130 * DAY), None)]
    requires |before.purchases| == 2 && before.purchases[0].status == Approved && before.purchases[1].status == Approved
    requires step.DoRefund? && step.pid == 0 && Strip(step.reason) != ""
    ensures CourseUntil(Apply(before, step).0, 100 * DAY)
  {
    var a := before.access;
    assert a.grants[1].Live() && a.grants[1].target == a.grants[0].target && OtherLive(a.grants, 0);
    assert Withdraw(a, before.now, 0, 0) == a;
    assert Withdraw(a, before.now, 0, 1) == RevokeGrant(a, a, before.now, 0);
    assert Withdraw(a, before.now, 0, 2) == Withdraw(a, before.now, 0, 1);
  }

  /** The refund cuts thirty of the ninety days that the second purchase paid for. */
  lemma RefundCutsLaterCourse(start: Store, steps: seq<Step>)
    requires start == Empty() && steps == LapseRenewRefund()
    ensures CourseUntil(Run(start, steps[..5]), 130 * DAY)
    ensures CourseUntil(Run(start, steps), 100 * DAY)
  {
    var s := CourseRenewed(start, steps);
    assert Strip("asked") == "asked";
    EarlierRefundCuts(s, steps[5]);
    var t := GoOn(start, steps[..5], s, steps[5]);
    assert steps == steps[..5] + [steps[5]];
  }
}
