/** The invariants over whole payment histories. */
module PaymentHistories {
  import opened Wrappers
  import opened BillingTypes
  import opened Entitlements
  import opened EntitlementInvariants
  import opened ProvideProofs
  import opened WithdrawProofs
  import opened Payments
  import opened PaymentInvariants

  // ---------- one transition ----------

  lemma ActivateSound(st: Store, pid: Id, allowUnpaid: bool)
    requires LedgerSound(st)
    ensures LedgerSound(Activate(st, pid, allowUnpaid).0)
  {
    if RefusalToActivate(st, pid, allowUnpaid).None? {
      var p := st.purchases[pid].(status := Approved, decidedAt := Some(st.now));
      var qs := st.purchases[pid := p];
      UndecidedHasNoGrants(st.purchases, st.access, pid);
      PurchasesMatter(st.purchases, qs, st.access, st.now);
      ProvideSound(qs, st.access, st.now, pid);
      CouponsApproved(st, pid, p);
      AuditedLogged(st, pid, WasApproved, p);
      ApprovalKeepsReferences(st, pid, allowUnpaid);
    }
  }

  lemma ApprovalKeepsReferences(st: Store, pid: Id, allowUnpaid: bool)
    requires ReferencesDistinct(st.purchases) && UnpaidBlank(st.purchases)
    requires RefusalToActivate(st, pid, allowUnpaid).None?
    ensures
      var qs := st.purchases[pid := st.purchases[pid].(status := Approved, decidedAt := Some(st.now))];
      ReferencesDistinct(qs) && UnpaidBlank(qs)
  {
    ReferencesKept(st.purchases, pid, st.purchases[pid].(status := Approved, decidedAt := Some(st.now)));
  }

  /** The access tables after a refund. */
  lemma RefundAccessSound(st: Store, pid: Id, p: Purchase)
    requires Sound(st.purchases, st.access, st.now) && pid < |st.purchases| && st.purchases[pid].status == Approved
    requires p.user == st.purchases[pid].user && p.kind == st.purchases[pid].kind && p.status == Refunded
    ensures Sound(st.purchases[pid := p], Withdraw(st.access, st.now, pid, |st.access.grants|), st.now)
  {
    WithdrawSound(st.purchases, st.access, st.now, pid, |st.access.grants|);
    RefundSettlesGrants(st.purchases, Withdraw(st.access, st.now, pid, |st.access.grants|), st.now, pid, p);
  }

  lemma RefundSettlesGrants(ps: seq<Purchase>, b: Access, now: Time, pid: Id, p: Purchase)
    requires Sound(ps, b, now) && pid < |ps| && p.user == ps[pid].user && p.kind == ps[pid].kind && p.status == Refunded
    requires forall k :: 0 <= k < |b.grants| && b.grants[k].purchase == pid ==> !b.grants[k].Live()
    ensures Sound(ps[pid := p], b, now)
  {
    PurchasesMatter(ps, ps[pid := p], b, now);
  }

  /** The coupons, the references and the trail after a decision on a purchase that keeps its coupon. */
  ghost predicate PapersSound(st: Store) {
    && KindsSound(st.purchases) && CouponsSound(st.purchases, st.coupons)
    && ReferencesDistinct(st.purchases) && UnpaidBlank(st.purchases) && Audited(st.purchases, st.audit)
  }

  lemma RefundPapersSound(st: Store, pid: Id, p: Purchase)
    requires PapersSound(st) && pid < |st.purchases| && st.purchases[pid].status == Approved
    requires p == st.purchases[pid].(status := Refunded, refundedAt := p.refundedAt, refundReason := p.refundReason)
    ensures PapersSound(Logged(st, pid, WasRefunded, p))
  {
    CouponsKept(st.purchases, st.coupons, pid, p);
    ReferencesKept(st.purchases, pid, p);
    AuditedLogged(st, pid, WasRefunded, p);
  }

  lemma RefundSound(st: Store, pid: Id, reason: string)
    requires LedgerSound(st)
    ensures LedgerSound(Refund(st, pid, reason).0)
  {
    var s := Refund(st, pid, reason).0;
    if s != st {
      RefundAccessSound(st, pid, s.purchases[pid]);
      RefundPapersSound(st, pid, s.purchases[pid]);
    }
  }

  lemma OrderPapersSound(st: Store, p: Purchase)
    requires PapersSound(st) && SoundKind(p.kind) && p.status == Unpaid && p.reference == ""
    requires p.coupon.Some? ==> p.coupon.value < |st.coupons|
    ensures PapersSound(st.(purchases := st.purchases + [p]))
  {
    CouponsNewOrder(st.purchases, st.coupons, p);
    ReplayUnknown(st.audit, |st.purchases|);
  }

  lemma OrderSound(st: Store, user: Id, kind: Kind, coupon: Option<Id>, window: Option<Time>)
    requires LedgerSound(st)
    ensures LedgerSound(Order(st, user, kind, coupon, window).0)
  {
    var s := Order(st, user, kind, coupon, window).0;
    if s != st {
      var p := s.purchases[|st.purchases|];
      assert s.purchases == st.purchases + [p];
      PurchasesMatter(st.purchases, s.purchases, st.access, st.now);
      OrderPapersSound(st, p);
    }
  }

  /** An administrator's grant keeps the invariants. */
  lemma GrantAccessSound(st: Store, r: Request)
    requires LedgerSound(st)
    ensures LedgerSound(GrantAccess(st, r).0)
  {
    var a := st.access;
    var b := ExtendOrCreate(a, st.now, r, None);
    ExtendShape(a, st.now, r, None);
    ExtendKeepsOneCurrent(a, st.now, r, None);
    ExtendKeepsTests(a, st.now, r, None);
    assert GrantsInRange(a);
    forall k | 0 <= k < |b.grants|
      ensures InRange(b, b.grants[k].target)
      ensures b.grants[k].target.SubscriptionRow? ==>
        var i := b.grants[k].target.sub;
        i < |a.subs| && SameRowSeries(a.subs[i], b.subs[i]) && b.subs[i].startsAt == a.subs[i].startsAt
    {
      assert InRange(a, a.grants[k].target);
    }
  }

  /** Deactivating a row that no purchase paid for. */
  lemma DeactivateScholarship(ps: seq<Purchase>, a: Access, now: Time, i: Id)
    requires Sound(ps, a, now) && i < |a.subs| && a.subs[i].scholarship
    ensures Sound(ps, a.(subs := a.subs[i := a.subs[i].(active := false)]), now)
  {
    var b := a.(subs := a.subs[i := a.subs[i].(active := false)]);
    forall k | 0 <= k < |b.grants|
      ensures InRange(b, b.grants[k].target)
    {
      assert InRange(a, a.grants[k].target);
    }
  }

  lemma RevokeScholarshipSound(st: Store, i: Id)
    requires LedgerSound(st)
    ensures LedgerSound(RevokeScholarship(st, i).0)
  {
    if RevokeScholarship(st, i).1.Accepted? {
      DeactivateScholarship(st.purchases, st.access, st.now, i);
    }
  }

  lemma SubmitSound(st: Store, pid: Id, reference: string)
    requires LedgerSound(st)
    ensures LedgerSound(Submit(st, pid, reference).0)
  {
    if Submit(st, pid, reference).1.Accepted? {
      StatusMoveSound(st, pid, Submitted,
        st.purchases[pid].(reference := Strip(reference), status := Pending, adminNote := ""));
    }
  }

  lemma RejectSound(st: Store, pid: Id, reason: string)
    requires LedgerSound(st)
    ensures LedgerSound(Reject(st, pid, reason).0)
  {
    if Reject(st, pid, reason).1.Accepted? {
      StatusMoveSound(st, pid, WasRejected,
        st.purchases[pid].(status := Rejected, adminNote := Strip(reason), decidedAt := Some(st.now)));
    }
  }

  lemma RequestResubmissionSound(st: Store, pid: Id, reason: string)
    requires LedgerSound(st)
    ensures LedgerSound(RequestResubmission(st, pid, reason).0)
  {
    if RequestResubmission(st, pid, reason).1.Accepted? {
      StatusMoveSound(st, pid, AskedAgain,
        st.purchases[pid].(status := ResubmissionRequested, adminNote := Strip(reason)));
    }
  }

  lemma ExpireSound(st: Store, pid: Id)
    requires LedgerSound(st)
    ensures LedgerSound(Expire(st, pid).0)
  {
    if Expire(st, pid).0 != st {
      StatusMoveSound(st, pid, RanOut, st.purchases[pid].(status := Expired));
    }
  }

  lemma CancelSound(st: Store, pid: Id)
    requires LedgerSound(st)
    ensures LedgerSound(Cancel(st, pid).0)
  {
    if Cancel(st, pid).1.Accepted? {
      StatusMoveSound(st, pid, WasCancelled, st.purchases[pid].(status := Cancelled));
    }
  }

  /** The steps that decide about a purchase and touch no access row. */
  ghost predicate StatusOnly(step: Step) {
    step.DoSubmit? || step.DoReject? || step.DoRequestResubmission? || step.DoExpire? || step.DoCancel?
  }

  lemma StatusStepSound(st: Store, step: Step)
    requires LedgerSound(st) && StatusOnly(step)
    ensures LedgerSound(Apply(st, step).0)
  {
    match step
    case DoSubmit(pid, reference) =>
      assert Apply(st, step) == Submit(st, pid, reference);
      SubmitSound(st, pid, reference);
    case DoReject(pid, reason) =>
      assert Apply(st, step) == Reject(st, pid, reason);
      RejectSound(st, pid, reason);
    case DoRequestResubmission(pid, reason) =>
      assert Apply(st, step) == RequestResubmission(st, pid, reason);
      RequestResubmissionSound(st, pid, reason);
    case DoExpire(pid) =>
      assert Apply(st, step) == Expire(st, pid);
      ExpireSound(st, pid);
    case DoCancel(pid) =>
      assert Apply(st, step) == Cancel(st, pid);
      CancelSound(st, pid);
  }

  lemma TickSound(st: Store, elapsed: nat)
    ensures LedgerSound(st) ==> LedgerSound(st.(now := st.now + elapsed))
  {
  }

  lemma AccessStepSound(st: Store, step: Step)
    requires LedgerSound(st) && !StatusOnly(step)
    ensures LedgerSound(Apply(st, step).0)
  {
    match step
    case DoOrder(user, kind, coupon, window) =>
      assert Apply(st, step) == Order(st, user, kind, coupon, window);
      OrderSound(st, user, kind, coupon, window);
    case DoActivate(pid, allowUnpaid) =>
      assert Apply(st, step) == Activate(st, pid, allowUnpaid);
      ActivateSound(st, pid, allowUnpaid);
    case DoRefund(pid, reason) =>
      assert Apply(st, step) == Refund(st, pid, reason);
      RefundSound(st, pid, reason);
    case DoGrantAccess(r) =>
      assert Apply(st, step) == GrantAccess(st, r);
      GrantAccessSound(st, r);
    case DoRevokeScholarship(i) =>
      assert Apply(st, step) == RevokeScholarship(st, i);
      RevokeScholarshipSound(st, i);
    case Tick(elapsed) => TickSound(st, elapsed);
  }

  lemma StepSound(st: Store, step: Step)
    requires LedgerSound(st)
    ensures LedgerSound(Apply(st, step).0)
  {
    if StatusOnly(step) {
      StatusStepSound(st, step);
    } else {
      AccessStepSound(st, step);
    }
  }

  lemma StepKeepsLedger(st: Store, step: Step)
    ensures LedgerSound(st) ==> LedgerSound(Apply(st, step).0)
  {
    if LedgerSound(st) {
      StepSound(st, step);
    }
  }

  // ---------- whole histories ----------

  /** A new deployment: no order, no access row, unused coupons. */
  ghost predicate Fresh(st: Store) {
    && st.purchases == [] && st.audit == []
    && st.access == Access([], [], [], [], {})
    && forall c :: 0 <= c < |st.coupons| ==> st.coupons[c].usageCount == 0
  }

  lemma {:induction false} HistorySound(st: Store, steps: seq<Step>)
    requires LedgerSound(st)
    ensures LedgerSound(Run(st, steps))
    decreases |steps|
  {
    if steps != [] {
      StepSound(st, steps[0]);
      HistorySound(Apply(st, steps[0]).0, steps[1..]);
    }
  }

  lemma FreshPapers(st: Store)
    requires Fresh(st)
    ensures PapersSound(st)
  {
    forall c | 0 <= c < |st.coupons|
      ensures CouponSound(st.purchases, st.coupons, c)
    {
    }
  }

  lemma NothingGranted(now: Time)
    ensures Sound([], Access([], [], [], [], {}), now)
  {
  }

  lemma FreshSound(st: Store)
    requires Fresh(st)
    ensures LedgerSound(st)
  {
    FreshPapers(st);
    NothingGranted(st.now);
  }

  /** Every reachable state satisfies the ledger invariants. */
  lemma ReachableSound(st: Store, steps: seq<Step>)
    requires Fresh(st)
    ensures LedgerSound(Run(st, steps))
  {
    FreshSound(st);
    HistorySound(st, steps);
  }
}
