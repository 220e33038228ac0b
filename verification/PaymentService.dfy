/** The payment service as it works: methods that update the tables in place, each proved to
    take the state to what the transition on values says. */
module PaymentService {
  import opened Wrappers
  import opened BillingTypes
  import opened Entitlements
  import opened EntitlementInvariants
  import opened Payments
  import opened PaymentInvariants
  import opened PaymentHistories
  import opened ConservationProofs
  import LedgerTheorems
  import PaymentTheorems
  import RefundTheorems
  import RefundOrder

  lemma OthersUnaffected(ps: seq<Purchase>, qs: seq<Purchase>, user: Id, pid: Id)
    requires pid < |ps| == |qs| && qs == ps[pid := qs[pid]]
    ensures HasOtherApproved(ps, user, pid) == HasOtherApproved(qs, user, pid)
  {
    forall q | 0 <= q < |ps| && q != pid
      ensures ps[q] == qs[q]
    {
    }
  }

  lemma CheckedCoupon(st: Store, p: Purchase, pid: Id)
    ensures
      (CouponsSound(st.purchases, st.coupons) && pid < |st.purchases| && p == st.purchases[pid]
       && p.status != Approved && p.status != Refunded && p.coupon.Some? && p.coupon.value < |st.coupons|) ==>
        (CouponRefusal(st, p, pid).None? <==> CapsSurvive(st, p, pid))
  {
    if CouponsSound(st.purchases, st.coupons) && pid < |st.purchases| && p == st.purchases[pid]
       && p.status != Approved && p.status != Refunded && p.coupon.Some? && p.coupon.value < |st.coupons| {
      CouponRefusalIff(st, pid);
    }
  }

  /** What an approval means for the ledger, the buyer and every paid row. */
  lemma ApprovalResults(st: Store, pid: Id, allowUnpaid: bool)
    ensures LedgerSound(st) ==> LedgerSound(Activate(st, pid, allowUnpaid).0)
    ensures LedgerSound(st) && Activate(st, pid, allowUnpaid).1.Accepted? ==>
      var s := Activate(st, pid, allowUnpaid).0;
      && pid < |s.purchases| && s.purchases[pid].status == Approved && s.now == st.now
      && PaymentTheorems.Delivered(s.access, s.now, pid, s.purchases[pid].user, s.purchases[pid].kind)
    ensures LedgerSound(st) ==>
      var s := Activate(st, pid, allowUnpaid).0;
      forall i: nat :: Kept(st.purchases, st.access, i) ==> Kept(s.purchases, s.access, i)
  {
    StepKeepsLedger(st, DoActivate(pid, allowUnpaid));
    if LedgerSound(st) {
      var s := Activate(st, pid, allowUnpaid).0;
      if Activate(st, pid, allowUnpaid).1.Accepted? {
        PaymentTheorems.ApprovalGivesWhatWasBought(st, pid, allowUnpaid);
      }
      forall i: nat | Kept(st.purchases, st.access, i)
        ensures Kept(s.purchases, s.access, i)
      {
        LedgerTheorems.ActivateKeepsOrder(st, pid, allowUnpaid, i, |st.access.grants| + |s.access.grants|);
      }
    }
  }

  /** What a refund means for the ledger, its own grants and every paid row. */
  lemma RefundResults(st: Store, pid: Id, reason: string)
    ensures LedgerSound(st) ==> LedgerSound(Refund(st, pid, reason).0)
    ensures LedgerSound(st) && Refund(st, pid, reason).1.Accepted? ==>
      var grants := Refund(st, pid, reason).0.access.grants;
      forall k :: 0 <= k < |grants| && grants[k].purchase == pid ==> !grants[k].Live()
    ensures LedgerSound(st) ==>
      var s := Refund(st, pid, reason).0;
      forall i: nat :: RowPaid(st.purchases, st.access, i) ==> RowPaid(s.purchases, s.access, i)
  {
    StepKeepsLedger(st, DoRefund(pid, reason));
    if LedgerSound(st) {
      if Refund(st, pid, reason).1.Accepted? {
        RefundTheorems.RefundSettlesItsGrants(st, pid, reason);
      }
      forall i: nat | RowPaid(st.purchases, st.access, i)
        ensures var s := Refund(st, pid, reason).0; RowPaid(s.purchases, s.access, i)
      {
        RefundOrder.RefundKeepsPaid(st, pid, reason, i);
      }
    }
  }

  class Service {
    var now: Time
    var purchases: seq<Purchase>
    var coupons: seq<Coupon>
    const referredBy: map<Id, Id>
    var wallets: map<Id, int>
    var subs: seq<Subscription>
    var tests: seq<GrandTestAccess>
    var courses: seq<Enrollment>
    var grants: seq<Grant>
    var members: set<(Id, Id)>
    var audit: seq<AuditEntry>

    constructor (coupons: seq<Coupon>, referredBy: map<Id, Id>, now: Time)
      ensures State() == Store(now, [], coupons, referredBy, map[], Access([], [], [], [], {}), [])
    {
      this.now := now;
      this.coupons := coupons;
      this.referredBy := referredBy;
      purchases, wallets, audit := [], map[], [];
      subs, tests, courses, grants, members := [], [], [], [], {};
    }

    ghost function Tables(): Access
      reads this
    {
      Access(subs, tests, courses, grants, members)
    }

    ghost function State(): Store
      reads this
    {
      Store(now, purchases, coupons, referredBy, wallets, Tables(), audit)
    }

    // ---------- granting ----------

    method ExtendOrCreateSubscription(r: Request, recordFor: Option<Id>)
      modifies this`subs, this`grants, this`members
      ensures Tables() == ExtendOrCreate(old(Tables()), now, r, recordFor)
    {
      var existing := FindExisting(subs, |subs|, now, r);
      var startFrom := now;
      if existing.Some? && subs[existing.value].expiresAt.Some? && subs[existing.value].expiresAt.value > now {
        startFrom := subs[existing.value].expiresAt.value;
      }
      var expiry := if r.duration != 0 then Some(startFrom + r.duration) else None;
      assert existing.Some? ==> expiry == NewExpiry(StartFrom(subs[existing.value].expiresAt, now), r.duration);
      assert existing.None? ==> expiry == NewExpiry(now, r.duration);
      members := members + {(r.user, r.course)};
      if existing.Some? {
        var i := existing.value;
        var previous := subs[i].expiresAt;
        var row := subs[i].(expiresAt := expiry);
        if r.plan.Some? {
          row := row.(plan := r.plan);
        }
        if r.quota.Some? {
          row := row.(quota := Some((if row.quota.Some? then row.quota.value else 0) + r.quota.value));
        }
        assert row == subs[i].(expiresAt := expiry, plan := if r.plan.Some? then r.plan else subs[i].plan,
                               quota := AddQuota(subs[i].quota, r.quota));
        subs := subs[i := row];
        RecordGrant(recordFor, SubscriptionRow(i), false, previous, expiry);
      } else {
        subs := subs + [Subscription(r.user, r.course, r.product, r.plan, now, expiry, r.quota, true, r.scholarship)];
        RecordGrant(recordFor, SubscriptionRow(|subs| - 1), true, None, expiry);
      }
    }

    method RecordGrant(purchase: Option<Id>, target: Target, created: bool, previous: Option<Time>, granted: Option<Time>)
      modifies this`grants
      ensures grants == Recorded(old(grants), purchase, target, created, previous, granted)
    {
      if purchase.Some? {
        grants := grants + [Grant(purchase.value, target, created, previous, granted, None)];
      }
    }

    method ActivateTest(pid: Id, user: Id, test: Id)
      modifies this`tests, this`grants
      ensures Tables() == ProvideTest(old(Tables()), now, pid, user, test)
    {
      var found := FindAccess(tests, |tests|, user, test);
      var i := |tests|;
      if found.Some? {
        i := found.value;
      } else {
        tests := tests + [GrandTestAccess(user, test, Some(pid), None, None)];
      }
      tests := tests[i := tests[i].(purchase := Some(pid), grantedAt := Some(now), revokedAt := None)];
      RecordGrant(Some(pid), AccessRow(i), found.None?, None, None);
      assert found.None? ==> tests == old(tests) + [GrandTestAccess(user, test, Some(pid), Some(now), None)];
    }

    method ActivatePackageTest(pid: Id, user: Id, test: Id)
      modifies this`tests, this`grants
      ensures Tables() == ProvidePackageTest(old(Tables()), now, pid, user, test)
    {
      var found := FindAccess(tests, |tests|, user, test);
      var i := |tests|;
      if found.Some? {
        i := found.value;
      } else {
        tests := tests + [GrandTestAccess(user, test, None, None, None)];
      }
      if found.None? || tests[i].revokedAt.Some? {
        tests := tests[i := tests[i].(grantedAt := Some(now), revokedAt := None)];
        RecordGrant(Some(pid), AccessRow(i), found.None?, None, None);
      }
      assert found.None? ==> tests == old(tests) + [GrandTestAccess(user, test, None, Some(now), None)];
    }

    method ActivateCourse(pid: Id, user: Id, course: Id, access: CourseAccess)
      modifies this`courses, this`grants
      ensures Tables() == ProvideCourse(old(Tables()), now, pid, user, course, access)
    {
      var duration := CourseDuration(access);
      var expiry := if duration.Some? then Some(now + duration.value) else None;
      var found := FindEnrollment(courses, |courses|, user, course);
      if found.None? {
        courses := courses + [Enrollment(user, course, now, expiry, true)];
        RecordGrant(Some(pid), EnrollmentRow(|courses| - 1), true, None, expiry);
      } else {
        var i := found.value;
        var previous := courses[i].expiresAt;
        courses := courses[i := courses[i].(expiresAt := expiry, active := true)];
        RecordGrant(Some(pid), EnrollmentRow(i), false, previous, expiry);
      }
    }

    /** Creates or extends the access rows that the purchase bought. */
    method ActivateProduct(pid: Id)
      requires pid < |purchases|
      modifies this`subs, this`tests, this`courses, this`grants, this`members
      ensures Tables() == Provide(old(Tables()), now, pid, purchases[pid].user, purchases[pid].kind)
    {
      var user := purchases[pid].user;
      ghost var before := Tables();
      match purchases[pid].kind
      case SingleSubscription(plan) => ExtendOrCreateSubscription(PlanRequest(user, plan), Some(pid));
      case GrandTest(test) => ActivateTest(pid, user, test);
      case TeacherCourse(course, access) => ActivateCourse(pid, user, course, access);
      case Combo(items) =>
        var n := 0;
        while n < |items|
          invariant n <= |items|
          invariant Tables() == ProvideCombo(before, now, pid, user, items[..n])
        {
          assert items[..n + 1][..n] == items[..n];
          ExtendOrCreateSubscription(PlanRequest(user, items[n]), Some(pid));
          n := n + 1;
        }
        assert items[..n] == items;
      case GrandTestPackage(list) =>
        var n := 0;
        while n < |list|
          invariant n <= |list|
          invariant Tables() == ProvidePackage(before, now, pid, user, list[..n])
        {
          assert list[..n + 1][..n] == list[..n];
          ActivatePackageTest(pid, user, list[n]);
          n := n + 1;
        }
        assert list[..n] == list;
    }

    // ---------- transitions ----------

    method Record(pid: Id, action: Action, before: Status, after: Status)
      modifies this`audit
      ensures audit == old(audit) + [AuditEntry(pid, action, before, after)]
    {
      audit := audit + [AuditEntry(pid, action, before, after)];
    }

    method SubmitPayment(pid: Id, rawReference: string) returns (outcome: Outcome)
      modifies this`purchases, this`audit
      ensures (State(), outcome) == Submit(old(State()), pid, rawReference)
      ensures LedgerSound(old(State())) ==> LedgerSound(State())
    {
      hide LedgerSound;
      StepKeepsLedger(State(), DoSubmit(pid, rawReference));
      if pid >= |purchases| {
        return Refused(NotFound);
      }
      var purchase := purchases[pid];
      if purchase.status != Unpaid && purchase.status != ResubmissionRequested {
        return Refused(NotAwaitingSubmission);
      }
      if purchase.status == Unpaid && purchase.IsExpired(now) {
        return Refused(WindowExpired);
      }
      var reference := Strip(rawReference);
      if reference == "" {
        return Refused(ReferenceRequired);
      }
      if ReferenceUsed(purchases, pid, reference, true) {
        return Refused(ReferenceTaken);
      }
      purchases := purchases[pid := purchase.(reference := reference, status := Pending, adminNote := "")];
      Record(pid, Submitted, purchase.status, Pending);
      return Accepted;
    }

    method MaybeRewardReferrer(pid: Id)
      requires pid < |purchases|
      modifies this`wallets
      ensures wallets == RewardReferrer(old(State()), purchases[pid].user, pid)
    {
      var user := purchases[pid].user;
      if user in referredBy && !HasOtherApproved(purchases, user, pid) {
        var r := referredBy[user];
        wallets := wallets[r := Wallet(wallets, r) + REWARD];
      }
    }

    /** Both caps, as they stand under the coupon's row lock. */
    method CheckCoupon(purchase: Purchase, pid: Id) returns (refusal: Option<Error>)
      ensures refusal == CouponRefusal(State(), purchase, pid)
      ensures
        (CouponsSound(purchases, coupons) && pid < |purchases| && purchase == purchases[pid]
         && purchase.status != Approved && purchase.status != Refunded
         && purchase.coupon.Some? && purchase.coupon.value < |coupons|) ==>
          (refusal.None? <==> CapsSurvive(State(), purchase, pid))
    {
      CheckedCoupon(State(), purchase, pid);
      if purchase.coupon.None? {
        return None;
      }
      if purchase.coupon.value >= |coupons| {
        return Some(NotFound);
      }
      var coupon := coupons[purchase.coupon.value];
      if coupon.maxUses.Some? && coupon.usageCount >= coupon.maxUses.value {
        return Some(CouponExhausted);
      }
      if coupon.maxUsesPerUser != 0 {
        var redeemed := CountRedeemed(purchases, purchase.user, purchase.coupon.value, Some(pid));
        if redeemed >= coupon.maxUsesPerUser {
          return Some(CouponUserLimit);
        }
      }
      return None;
    }

    method RedeemCoupon(coupon: Option<Id>)
      requires coupon.Some? ==> coupon.value < |coupons|
      modifies this`coupons
      ensures coupons == CountUse(old(coupons), coupon)
    {
      if coupon.Some? {
        var c := coupons[coupon.value];
        coupons := coupons[coupon.value := c.(usageCount := c.usageCount + 1)];
      }
    }

    /** What an approval does once nothing speaks against it. */
    method Approve(pid: Id, ghost allowUnpaid: bool)
      requires RefusalToActivate(State(), pid, allowUnpaid).None?
      modifies this
      ensures State() == Activate(old(State()), pid, allowUnpaid).0
    {
      ghost var expected := Activate(State(), pid, allowUnpaid).0;
      var purchase := purchases[pid];
      ActivateProduct(pid);
      assert Tables() == expected.access;
      purchases := purchases[pid := purchase.(status := Approved, decidedAt := Some(now))];
      assert purchases == expected.purchases;
      RedeemCoupon(purchase.coupon);
      assert coupons == expected.coupons;
      OthersUnaffected(old(purchases), purchases, purchase.user, pid);
      MaybeRewardReferrer(pid);
      assert wallets == expected.wallets;
      Record(pid, WasApproved, purchase.status, Approved);
      assert audit == expected.audit;
    }

    method ApprovePurchase(pid: Id, allowUnpaid: bool) returns (outcome: Outcome)
      modifies this
      ensures (State(), outcome) == Activate(old(State()), pid, allowUnpaid)
      ensures LedgerSound(old(State())) ==> LedgerSound(State())
      ensures LedgerSound(old(State())) && outcome.Accepted? ==>
        pid < |purchases| && purchases[pid].status == Approved
        && PaymentTheorems.Delivered(Tables(), now, pid, purchases[pid].user, purchases[pid].kind)
      ensures LedgerSound(old(State())) ==>
        forall i: nat :: Kept(old(purchases), old(Tables()), i) ==> Kept(purchases, Tables(), i)
    {
      hide LedgerSound;
      ApprovalResults(State(), pid, allowUnpaid);
      if pid >= |purchases| {
        return Refused(NotFound);
      }
      var purchase := purchases[pid];
      if purchase.status != Pending && !(allowUnpaid && purchase.status == Unpaid) {
        return Refused(AlreadyDecided);
      }
      if purchase.reference != "" && ReferenceUsed(purchases, pid, purchase.reference, false) {
        return Refused(ReferenceAlreadyApproved);
      }
      var refusal := CheckCoupon(purchase, pid);
      if refusal.Some? {
        return Refused(refusal.value);
      }
      Approve(pid, allowUnpaid);
      return Accepted;
    }

    method RejectPurchase(pid: Id, rawReason: string) returns (outcome: Outcome)
      modifies this`purchases, this`audit
      ensures (State(), outcome) == Reject(old(State()), pid, rawReason)
      ensures LedgerSound(old(State())) ==> LedgerSound(State())
    {
      hide LedgerSound;
      ghost var expected := Reject(State(), pid, rawReason);
      StepKeepsLedger(State(), DoReject(pid, rawReason));
      var reason := Strip(rawReason);
      if reason == "" {
        return Refused(ReasonRequired);
      }
      if pid >= |purchases| {
        return Refused(NotFound);
      }
      var purchase := purchases[pid];
      if purchase.status != Pending && purchase.status != ResubmissionRequested {
        return Refused(AlreadyDecided);
      }
      purchases := purchases[pid := purchase.(status := Rejected, adminNote := reason, decidedAt := Some(now))];
      Record(pid, WasRejected, purchase.status, Rejected);
      assert State() == expected.0;
      return Accepted;
    }

    method AskForNewProof(pid: Id, rawReason: string) returns (outcome: Outcome)
      modifies this`purchases, this`audit
      ensures (State(), outcome) == RequestResubmission(old(State()), pid, rawReason)
      ensures LedgerSound(old(State())) ==> LedgerSound(State())
    {
      hide LedgerSound;
      ghost var expected := RequestResubmission(State(), pid, rawReason);
      StepKeepsLedger(State(), DoRequestResubmission(pid, rawReason));
      var reason := Strip(rawReason);
      if reason == "" {
        return Refused(ReasonRequired);
      }
      if pid >= |purchases| {
        return Refused(NotFound);
      }
      var purchase := purchases[pid];
      if purchase.status != Pending {
        return Refused(NotAwaitingVerification);
      }
      purchases := purchases[pid := purchase.(status := ResubmissionRequested, adminNote := reason)];
      Record(pid, AskedAgain, Pending, ResubmissionRequested);
      assert State() == expected.0;
      return Accepted;
    }

    method ExpirePurchase(pid: Id) returns (outcome: Outcome)
      modifies this`purchases, this`audit
      ensures (State(), outcome) == Expire(old(State()), pid)
      ensures LedgerSound(old(State())) ==> LedgerSound(State())
    {
      hide LedgerSound;
      StepKeepsLedger(State(), DoExpire(pid));
      if pid >= |purchases| {
        return Refused(NotFound);
      }
      var purchase := purchases[pid];
      if purchase.status != Unpaid || !purchase.IsExpired(now) {
        return Accepted;
      }
      purchases := purchases[pid := purchase.(status := Expired)];
      Record(pid, RanOut, Unpaid, Expired);
      return Accepted;
    }

    method CancelPurchase(pid: Id) returns (outcome: Outcome)
      modifies this`purchases, this`audit
      ensures (State(), outcome) == Cancel(old(State()), pid)
      ensures LedgerSound(old(State())) ==> LedgerSound(State())
    {
      hide LedgerSound;
      ghost var expected := Cancel(State(), pid);
      StepKeepsLedger(State(), DoCancel(pid));
      if pid >= |purchases| {
        return Refused(NotFound);
      }
      var purchase := purchases[pid];
      if purchase.status != Unpaid && purchase.status != ResubmissionRequested {
        return Refused(CannotCancel);
      }
      purchases := purchases[pid := purchase.(status := Cancelled)];
      Record(pid, WasCancelled, purchase.status, Cancelled);
      assert State() == expected.0;
      return Accepted;
    }

    // ---------- refunds ----------

    /** Undoes one grant; oldSubs and oldCourses are the rows loaded together with the grants. */
    method ReverseOne(k: nat, oldSubs: seq<Subscription>, oldCourses: seq<Enrollment>)
      requires k < |grants| && |oldSubs| == |subs| && |oldCourses| == |courses|
      modifies this`subs, this`tests, this`courses
      ensures Tables() ==
              ReverseGrant(old(Tables()), old(Tables()).(subs := oldSubs, courses := oldCourses), now, k)
    {
      var g := grants[k];
      match g.target
      case SubscriptionRow(i) =>
        if i < |subs| {
          var r := ReversalOf(g, OtherLive(grants, k), oldSubs[i].expiresAt, oldSubs[i].startsAt);
          subs := subs[i := ReverseSub(subs[i], r)];
        }
      case AccessRow(i) =>
        if i < |tests| {
          tests := tests[i := tests[i].(revokedAt := Some(now))];
        }
      case EnrollmentRow(i) =>
        if i < |courses| {
          var r := ReversalOf(g, OtherLive(grants, k), oldCourses[i].expiresAt, oldCourses[i].enrolledAt);
          courses := courses[i := ReverseEnrollment(courses[i], r)];
        }
    }

    /** Reverses and stamps every live grant of the purchase. */
    method WithdrawGrants(pid: Id)
      modifies this`subs, this`tests, this`courses, this`grants
      ensures Tables() == Withdraw(old(Tables()), now, pid, |old(grants)|)
    {
      var loaded, oldSubs, oldCourses := grants, subs, courses;
      ghost var before := Tables();
      var k := 0;
      while k < |loaded|
        invariant k <= |loaded| == |grants|
        invariant Tables() == Withdraw(before, now, pid, k)
      {
        if loaded[k].purchase == pid && loaded[k].revokedAt.None? {
          ReverseOne(k, oldSubs, oldCourses);
          grants := grants[k := grants[k].(revokedAt := Some(now))];
        }
        k := k + 1;
      }
    }

    method RefundPurchase(pid: Id, rawReason: string) returns (outcome: Outcome)
      modifies this
      ensures (State(), outcome) == Refund(old(State()), pid, rawReason)
      ensures LedgerSound(old(State())) ==> LedgerSound(State())
      ensures LedgerSound(old(State())) && outcome.Accepted? ==>
        forall k :: 0 <= k < |grants| && grants[k].purchase == pid ==> !grants[k].Live()
      ensures LedgerSound(old(State())) ==>
        forall i: nat :: RowPaid(old(purchases), old(Tables()), i) ==> RowPaid(purchases, Tables(), i)
    {
      hide LedgerSound;
      RefundResults(State(), pid, rawReason);
      var reason := Strip(rawReason);
      if reason == "" {
        return Refused(ReasonRequired);
      }
      if pid >= |purchases| {
        return Refused(NotFound);
      }
      var purchase := purchases[pid];
      if purchase.status == Refunded {
        return Accepted;
      }
      if purchase.status != Approved {
        return Refused(OnlyApprovedRefunded);
      }
      WithdrawGrants(pid);
      purchases := purchases[pid := purchase.(status := Refunded, refundedAt := Some(now), refundReason := reason)];
      Record(pid, WasRefunded, Approved, Refunded);
      return Accepted;
    }
  }
}
