/** What the invariants of every payment history come to, written out. */
module LedgerTheorems {
  import opened Wrappers
  import opened BillingTypes
  import opened Entitlements
  import opened EntitlementInvariants
  import opened ProvideProofs
  import opened ConservationProofs
  import opened Payments
  import opened PaymentInvariants
  import opened PaymentHistories

  /** In every reachable state an unrevoked grant belongs to an approved purchase, a refunded purchase
      has no unrevoked grant, and a Grand Test that can be entered is backed by an unrevoked grant. */
  lemma LedgerAndAccessAgree(st: Store, steps: seq<Step>)
    requires Fresh(st)
    ensures var s := Run(st, steps); var grants := s.access.grants;
      && (forall k :: 0 <= k < |grants| ==>
            grants[k].purchase < |s.purchases| && InRange(s.access, grants[k].target)
            && (grants[k].Live() ==> s.purchases[grants[k].purchase].status == Approved))
      && (forall i :: 0 <= i < |s.access.tests| && s.access.tests[i].revokedAt.None? ==>
            exists k :: 0 <= k < |grants| && grants[k].Live() && grants[k].target == AccessRow(i))
  {
    ReachableSound(st, steps);
    var s := Run(st, steps);
    forall i | 0 <= i < |s.access.tests| && s.access.tests[i].revokedAt.None?
      ensures exists k :: 0 <= k < |s.access.grants| && s.access.grants[k].Live() && s.access.grants[k].target == AccessRow(i)
    {
      assert HasLiveGrant(s.access.grants, AccessRow(i));
    }
  }

  // ---------- paid time, row by row ----------

  /** The step gives time on row i by hand, or opens it so: an administrator's grant without a
      scholarship leaves no ledger line. */
  ghost predicate ByHand(st: Store, step: Step, i: nat) {
    step.DoGrantAccess? && !step.request.scholarship && Hit(st.access, st.now, step.request) == i
  }

  ghost predicate NeverByHand(st: Store, steps: seq<Step>, i: nat)
    decreases |steps|
  {
    steps == [] || (!ByHand(st, steps[0], i) && NeverByHand(Apply(st, steps[0]).0, steps[1..], i))
  }

  lemma ActivateKeepsOrder(st: Store, pid: Id, allowUnpaid: bool, i: nat, k: nat)
    requires LedgerSound(st) && InOrder(st.purchases, st.access, i, k)
    ensures var s := Activate(st, pid, allowUnpaid).0; InOrder(s.purchases, s.access, i, k)
  {
    if RefusalToActivate(st, pid, allowUnpaid).None? {
      var p := st.purchases[pid].(status := Approved, decidedAt := Some(st.now));
      var qs := st.purchases[pid := p];
      UndecidedHasNoGrants(st.purchases, st.access, pid);
      PurchasesMatter(st.purchases, qs, st.access, st.now);
      PurchasesKeepOrder(st.purchases, qs, st.access, i, k);
      ProvideKeeps(qs, st.access, st.now, pid, i, k);
    }
  }

  lemma RefundKeepsOrder(st: Store, pid: Id, reason: string, i: nat, k: nat)
    requires LedgerSound(st) && InOrder(st.purchases, st.access, i, k)
    ensures var s := Refund(st, pid, reason).0; InOrder(s.purchases, s.access, i, k)
  {
    var s := Refund(st, pid, reason).0;
    if s != st {
      WithdrawKeepsOrder(st.purchases, st.access, st.now, pid, i, k);
      PurchasesKeepOrder(st.purchases, s.purchases, s.access, i, k);
    }
  }

  lemma StatusStepKeepsOrder(st: Store, step: Step, i: nat, k: nat)
    requires InOrder(st.purchases, st.access, i, k) && (StatusOnly(step) || step.DoOrder? || step.Tick?)
    ensures var s := Apply(st, step).0; InOrder(s.purchases, s.access, i, k)
  {
    var s := Apply(st, step).0;
    assert s.access == st.access && |st.purchases| <= |s.purchases|;
    assert forall q :: 0 <= q < |st.purchases| ==> s.purchases[q].kind == st.purchases[q].kind;
    PurchasesKeepOrder(st.purchases, s.purchases, s.access, i, k);
  }

  /** Every step keeps a row that adds up adding up and a grant worth its plan, unless it gives time on
      that very row by hand. */
  lemma StepKeepsOrder(st: Store, step: Step, i: nat, k: nat)
    requires LedgerSound(st) && InOrder(st.purchases, st.access, i, k) && !ByHand(st, step, i)
    ensures var s := Apply(st, step).0; InOrder(s.purchases, s.access, i, k)
  {
    match step
    case DoActivate(pid, allowUnpaid) => ActivateKeepsOrder(st, pid, allowUnpaid, i, k);
    case DoRefund(pid, reason) => RefundKeepsOrder(st, pid, reason, i, k);
    case DoGrantAccess(r) =>
      assert GrantsInRange(st.access);
      HandGrantKeeps(st.purchases, st.access, st.now, r, i, k);
    case DoRevokeScholarship(s) =>
      if RevokeScholarship(st, s).1.Accepted? {
        assert GrantsInRange(st.access);
        RevokedScholarshipKeeps(st.purchases, st.access, s, i, k);
      }
    case _ => StatusStepKeepsOrder(st, step, i, k);
  }

  lemma {:induction false} HistoryKeepsRow(st: Store, steps: seq<Step>, i: nat)
    requires LedgerSound(st) && Kept(st.purchases, st.access, i) && NeverByHand(st, steps, i)
    ensures var s := Run(st, steps); Kept(s.purchases, s.access, i)
    decreases |steps|
  {
    if steps != [] {
      var k := |st.access.grants| + |Apply(st, steps[0]).0.access.grants|;
      StepKeepsOrder(st, steps[0], i, k);
      StepSound(st, steps[0]);
      HistoryKeepsRow(Apply(st, steps[0]).0, steps[1..], i);
    }
  }

  lemma {:induction false} HistoryKeepsWorth(st: Store, steps: seq<Step>, k: nat)
    requires LedgerSound(st) && Worth(st.purchases, st.access, k)
    ensures var s := Run(st, steps); Worth(s.purchases, s.access, k)
    decreases |steps|
  {
    if steps != [] {
      var i := |st.access.subs| + |Apply(st, steps[0]).0.access.subs|;
      if steps[0].DoGrantAccess? {
        ExtendShape(st.access, st.now, steps[0].request, None);
      }
      StepKeepsOrder(st, steps[0], i, k);
      StepSound(st, steps[0]);
      HistoryKeepsWorth(Apply(st, steps[0]).0, steps[1..], k);
    }
  }

  lemma KeptFromFresh(st: Store, steps: seq<Step>, i: nat)
    requires Fresh(st) && NeverByHand(st, steps, i)
    ensures var s := Run(st, steps); Kept(s.purchases, s.access, i)
  {
    FreshSound(st);
    HistoryKeepsRow(st, steps, i);
  }

  lemma PaidRowAddsUp(ps: seq<Purchase>, a: Access, i: nat)
    requires Kept(ps, a, i) && i < |a.subs| && !a.subs[i].scholarship && !Endless(a, i)
    ensures RowPaid(ps, a, i)
    ensures var row := a.subs[i];
      if row.active then row.expiresAt == Some(row.startsAt + LiveTime(a.grants, i, row.startsAt))
      else forall k :: 0 <= k < |a.grants| && a.grants[k].target == SubscriptionRow(i) ==> !a.grants[k].Live()
  {
  }

  /** A subscription that is no scholarship, that nobody ever gave time by hand, and on which no plan
      without a duration was approved: as long as it is active it ends where it started plus the
      contributions of its unrevoked grants, each of which is the duration of a plan that was bought,
      and once it is deactivated no grant on it is left.  What happened to other rows is irrelevant. */
  lemma PaidTimeAddsUp(st: Store, steps: seq<Step>, i: nat)
    requires Fresh(st) && NeverByHand(st, steps, i)
    requires i < |Run(st, steps).access.subs| && !Run(st, steps).access.subs[i].scholarship
    requires !Endless(Run(st, steps).access, i)
    ensures var s := Run(st, steps); RowPaid(s.purchases, s.access, i)
    ensures var a := Run(st, steps).access; var row := a.subs[i];
      if row.active then row.expiresAt == Some(row.startsAt + LiveTime(a.grants, i, row.startsAt))
      else forall k :: 0 <= k < |a.grants| && a.grants[k].target == SubscriptionRow(i) ==> !a.grants[k].Live()
  {
    KeptFromFresh(st, steps, i);
    PaidRowAddsUp(Run(st, steps).purchases, Run(st, steps).access, i);
  }

  lemma WorthSays(ps: seq<Purchase>, a: Access, k: nat)
    requires Worth(ps, a, k) && k < |a.grants| && a.grants[k].target.SubscriptionRow? && Bounded(a.grants[k])
    ensures var g := a.grants[k];
      && g.target.sub < |a.subs| && g.purchase < |ps|
      && var row := a.subs[g.target.sub];
         exists j :: 0 <= j < |Plans(ps[g.purchase].kind)|
           && Plans(ps[g.purchase].kind)[j].course == row.course
           && Plans(ps[g.purchase].kind)[j].product == row.product
           && Contribution(g, row.startsAt) == Some(Plans(ps[g.purchase].kind)[j].Duration())
  {
  }

  /** In every history the contribution of a grant on a subscription is the duration of a plan that its
      purchase bought, unless the grant gave time without an end or extended such time. */
  lemma ContributionIsPlan(st: Store, steps: seq<Step>, k: nat)
    requires Fresh(st)
    requires k < |Run(st, steps).access.grants| && Run(st, steps).access.grants[k].target.SubscriptionRow?
    requires Bounded(Run(st, steps).access.grants[k])
    ensures var s := Run(st, steps); var g := s.access.grants[k];
      && g.target.sub < |s.access.subs| && g.purchase < |s.purchases|
      && var row := s.access.subs[g.target.sub];
         exists j :: 0 <= j < |Plans(s.purchases[g.purchase].kind)|
           && Plans(s.purchases[g.purchase].kind)[j].course == row.course
           && Plans(s.purchases[g.purchase].kind)[j].product == row.product
           && Contribution(g, row.startsAt) == Some(Plans(s.purchases[g.purchase].kind)[j].Duration())
  {
    FreshSound(st);
    HistoryKeepsWorth(st, steps, k);
    WorthSays(Run(st, steps).purchases, Run(st, steps).access, k);
  }

  /** A coupon's usage count is the number of its purchases that were approved, refunded since or not;
      neither cap is ever exceeded. */
  lemma CouponsAreCounted(st: Store, steps: seq<Step>, c: Id)
    requires Fresh(st) && c < |Run(st, steps).coupons|
    ensures var s := Run(st, steps);
      && s.coupons[c].usageCount == CountUsed(s.purchases, c)
      && (s.coupons[c].maxUses.Some? ==> s.coupons[c].usageCount <= s.coupons[c].maxUses.value)
      && (s.coupons[c].maxUsesPerUser != 0 ==>
            forall u: Id :: CountRedeemed(s.purchases, u, c, None) <= s.coupons[c].maxUsesPerUser)
  {
    ReachableSound(st, steps);
    assert CouponSound(Run(st, steps).purchases, Run(st, steps).coupons, c);
  }

  /** Over serial histories no two pending or approved purchases share a payment reference. */
  lemma ReferencesAreDistinct(st: Store, steps: seq<Step>, i: nat, j: nat)
    requires Fresh(st) && i < j < |Run(st, steps).purchases|
    requires Run(st, steps).purchases[i].status in {Pending, Approved} && Run(st, steps).purchases[j].status in {Pending, Approved}
    ensures var ps := Run(st, steps).purchases; ps[i].reference == ps[j].reference ==> ps[i].reference == ""
  {
    ReachableSound(st, steps);
    assert Holds(Run(st, steps).purchases[i]) && Holds(Run(st, steps).purchases[j]);
  }

  /** A purchase's audit entries lead from unpaid along allowed edges to its present status. */
  lemma AuditTellsTheStatus(st: Store, steps: seq<Step>, pid: Id)
    requires Fresh(st) && pid < |Run(st, steps).purchases|
    ensures Replay(Run(st, steps).audit, pid) == Some(Run(st, steps).purchases[pid].status)
  {
    ReachableSound(st, steps);
  }
}
