/** What every payment history keeps true, one transition at a time. */
module PaymentInvariants {
  import opened Wrappers
  import opened BillingTypes
  import opened Entitlements
  import opened EntitlementInvariants
  import opened ProvideProofs
  import opened WithdrawProofs
  import opened Payments

  // ---------- coupons ----------

  ghost predicate UsedCoupon(p: Purchase, c: Id) {
    p.coupon == Some(c) && (p.status == Approved || p.status == Refunded)
  }

  /** How many purchases were approved with coupon c, refunded since or not. */
  ghost function CountUsed(ps: seq<Purchase>, c: Id): nat {
    if ps == [] then 0
    else CountUsed(ps[..|ps| - 1], c) + (if UsedCoupon(ps[|ps| - 1], c) then 1 else 0)
  }

  lemma {:induction false} CountUsedUpdate(ps: seq<Purchase>, i: nat, p: Purchase, c: Id)
    requires i < |ps|
    ensures CountUsed(ps[i := p], c) == CountUsed(ps, c) - Bit(UsedCoupon(ps[i], c)) + Bit(UsedCoupon(p, c))
  {
    var n := |ps| - 1;
    if i == n {
      assert ps[i := p][..n] == ps[..n];
    } else {
      assert ps[i := p][..n] == ps[..n][i := p];
      CountUsedUpdate(ps[..n], i, p, c);
    }
  }

  lemma {:induction false} CountRedeemedUpdate(ps: seq<Purchase>, i: nat, p: Purchase, u: Id, c: Id)
    requires i < |ps|
    ensures CountRedeemed(ps[i := p], u, c, None) ==
            CountRedeemed(ps, u, c, None) - Bit(Redeems(ps[i], u, c)) + Bit(Redeems(p, u, c))
  {
    var n := |ps| - 1;
    if i == n {
      assert ps[i := p][..n] == ps[..n];
    } else {
      assert ps[i := p][..n] == ps[..n][i := p];
      CountRedeemedUpdate(ps[..n], i, p, u, c);
    }
  }

  lemma {:induction false} CountRedeemedExcept(ps: seq<Purchase>, u: Id, c: Id, i: nat)
    requires i < |ps| ==> !Redeems(ps[i], u, c)
    ensures CountRedeemed(ps, u, c, Some(i)) == CountRedeemed(ps, u, c, None)
  {
    if ps != [] {
      CountRedeemedExcept(ps[..|ps| - 1], u, c, i);
    }
  }

  /** A coupon counts its redemptions, stays under its cap and under its cap per user. */
  ghost predicate CouponSound(ps: seq<Purchase>, coupons: seq<Coupon>, c: Id)
    requires c < |coupons|
  {
    && coupons[c].usageCount == CountUsed(ps, c)
    && (coupons[c].maxUses.Some? ==> coupons[c].usageCount <= coupons[c].maxUses.value)
    && (coupons[c].maxUsesPerUser != 0 ==>
          forall u: Id :: CountRedeemed(ps, u, c, None) <= coupons[c].maxUsesPerUser)
  }

  ghost predicate CouponsSound(ps: seq<Purchase>, coupons: seq<Coupon>) {
    forall c :: 0 <= c < |coupons| ==> CouponSound(ps, coupons, c)
  }

  /** A transition that leaves a purchase used, or unused, and redeems nothing new. */
  lemma CouponsKept(ps: seq<Purchase>, coupons: seq<Coupon>, i: nat, p: Purchase)
    requires CouponsSound(ps, coupons) && i < |ps| && p.coupon == ps[i].coupon
    requires p.status != Approved
    requires (p.status == Refunded) == (ps[i].status == Approved || ps[i].status == Refunded)
    ensures CouponsSound(ps[i := p], coupons)
  {
    var qs := ps[i := p];
    forall c | 0 <= c < |coupons|
      ensures CouponSound(qs, coupons, c)
    {
      assert CouponSound(ps, coupons, c);
      CountUsedUpdate(ps, i, p, c);
      forall u: Id
        ensures CountRedeemed(qs, u, c, None) <= CountRedeemed(ps, u, c, None)
      {
        CountRedeemedUpdate(ps, i, p, u, c);
      }
    }
  }

  lemma CouponsNewOrder(ps: seq<Purchase>, coupons: seq<Coupon>, p: Purchase)
    requires CouponsSound(ps, coupons) && p.status == Unpaid
    ensures CouponsSound(ps + [p], coupons)
  {
    assert (ps + [p])[..|ps|] == ps;
    forall c | 0 <= c < |coupons|
      ensures CouponSound(ps + [p], coupons, c)
    {
      assert CouponSound(ps, coupons, c);
      assert forall u: Id :: CountRedeemed(ps + [p], u, c, None) == CountRedeemed(ps, u, c, None);
    }
  }

  /** An approval that passed the check under the lock keeps both caps. */
  lemma CouponsApproved(st: Store, i: nat, p: Purchase)
    requires CouponsSound(st.purchases, st.coupons) && i < |st.purchases|
    requires st.purchases[i].status != Approved && st.purchases[i].status != Refunded
    requires p.status == Approved && p.coupon == st.purchases[i].coupon && p.user == st.purchases[i].user
    requires CouponRefusal(st, st.purchases[i], i).None?
    ensures CouponsSound(st.purchases[i := p], CountUse(st.coupons, p.coupon))
  {
    var ps := st.purchases;
    var qs := ps[i := p];
    var after := CountUse(st.coupons, p.coupon);
    forall c | 0 <= c < |after|
      ensures CouponSound(qs, after, c)
    {
      assert CouponSound(ps, st.coupons, c);
      CountUsedUpdate(ps, i, p, c);
      CountRedeemedExcept(ps, p.user, c, i);
      forall u: Id
        ensures CountRedeemed(qs, u, c, None) == CountRedeemed(ps, u, c, None) + Bit(Redeems(p, u, c))
        ensures after[c].maxUsesPerUser != 0 ==> CountRedeemed(qs, u, c, None) <= after[c].maxUsesPerUser
      {
        CountRedeemedUpdate(ps, i, p, u, c);
      }
    }
  }

  /** The caps of coupon c still hold once the purchase is approved and counted. */
  ghost predicate CapsSurvive(st: Store, p: Purchase, pid: Id)
    requires pid < |st.purchases| && p.coupon.Some? && p.coupon.value < |st.coupons|
  {
    CouponSound(st.purchases[pid := p.(status := Approved)], CountUse(st.coupons, p.coupon), p.coupon.value)
  }

  /** Where the caps hold, the check under the lock refuses an undecided purchase exactly when approving
      it would break one of them. */
  lemma CouponRefusalIff(st: Store, pid: Id)
    requires CouponsSound(st.purchases, st.coupons) && pid < |st.purchases|
    requires st.purchases[pid].status != Approved && st.purchases[pid].status != Refunded
    requires st.purchases[pid].coupon.Some? && st.purchases[pid].coupon.value < |st.coupons|
    ensures CouponRefusal(st, st.purchases[pid], pid).None? <==> CapsSurvive(st, st.purchases[pid], pid)
  {
    var p := st.purchases[pid].(status := Approved);
    var c := p.coupon.value;
    if CouponRefusal(st, st.purchases[pid], pid).None? {
      CouponsApproved(st, pid, p);
    } else {
      assert CouponSound(st.purchases, st.coupons, c);
      CountUsedUpdate(st.purchases, pid, p, c);
      CountRedeemedExcept(st.purchases, p.user, c, pid);
      CountRedeemedUpdate(st.purchases, pid, p, p.user, c);
    }
  }

  // ---------- payment references ----------

  ghost predicate Holds(p: Purchase) {
    p.status == Pending || p.status == Approved
  }

  /** No two pending or approved purchases carry the same payment reference. */
  ghost predicate ReferencesDistinct(ps: seq<Purchase>) {
    forall i, j :: 0 <= i < j < |ps| && Holds(ps[i]) && Holds(ps[j]) && ps[i].reference != "" ==>
      ps[i].reference != ps[j].reference
  }

  ghost predicate UnpaidBlank(ps: seq<Purchase>) {
    forall i :: 0 <= i < |ps| && ps[i].status == Unpaid ==> ps[i].reference == ""
  }

  lemma ReferencesKept(ps: seq<Purchase>, i: nat, p: Purchase)
    requires ReferencesDistinct(ps) && UnpaidBlank(ps) && i < |ps| && p.status != Unpaid
    requires Holds(p) ==>
      (Holds(ps[i]) && p.reference == ps[i].reference) || p.reference == "" || !ReferenceUsed(ps, i, p.reference, true)
    ensures ReferencesDistinct(ps[i := p]) && UnpaidBlank(ps[i := p])
  {
  }

  // ---------- the audit trail ----------

  ghost predicate Allowed(before: Status, action: Action, after: Status) {
    match action
    case Submitted => (before == Unpaid || before == ResubmissionRequested) && after == Pending
    case WasApproved => (before == Pending || before == Unpaid) && after == Approved
    case WasRejected => (before == Pending || before == ResubmissionRequested) && after == Rejected
    case AskedAgain => before == Pending && after == ResubmissionRequested
    case RanOut => before == Unpaid && after == Expired
    case WasCancelled => (before == Unpaid || before == ResubmissionRequested) && after == Cancelled
    case WasRefunded => before == Approved && after == Refunded
  }

  /** The status that a purchase's audit entries lead to, if they chain from unpaid along allowed edges. */
  ghost function Replay(audit: seq<AuditEntry>, pid: Id): Option<Status> {
    if audit == [] then Some(Unpaid)
    else
      var earlier := Replay(audit[..|audit| - 1], pid);
      var e := audit[|audit| - 1];
      if e.purchase != pid then earlier
      else if earlier == Some(e.before) && Allowed(e.before, e.action, e.after) then Some(e.after)
      else None
  }

  lemma ReplayAppend(audit: seq<AuditEntry>, e: AuditEntry, pid: Id)
    ensures Replay(audit + [e], pid) ==
            if e.purchase != pid then Replay(audit, pid)
            else if Replay(audit, pid) == Some(e.before) && Allowed(e.before, e.action, e.after) then Some(e.after)
            else None
  {
    assert (audit + [e])[..|audit|] == audit;
  }

  lemma {:induction false} ReplayUnknown(audit: seq<AuditEntry>, pid: Id)
    requires forall k :: 0 <= k < |audit| ==> audit[k].purchase != pid
    ensures Replay(audit, pid) == Some(Unpaid)
  {
    if audit != [] {
      ReplayUnknown(audit[..|audit| - 1], pid);
    }
  }

  /** The trail tells every purchase's story, ending at its current status. */
  ghost predicate Audited(ps: seq<Purchase>, audit: seq<AuditEntry>) {
    && (forall k :: 0 <= k < |audit| ==> audit[k].purchase < |ps|)
    && (forall i :: 0 <= i < |ps| ==> Replay(audit, i) == Some(ps[i].status))
  }

  lemma AuditedLogged(st: Store, pid: Id, action: Action, p: Purchase)
    requires Audited(st.purchases, st.audit) && pid < |st.purchases|
    requires Allowed(st.purchases[pid].status, action, p.status)
    ensures
      var s := Logged(st, pid, action, p);
      Audited(s.purchases, s.audit)
  {
    var s := Logged(st, pid, action, p);
    var e := AuditEntry(pid, action, st.purchases[pid].status, p.status);
    forall i | 0 <= i < |s.purchases|
      ensures Replay(s.audit, i) == Some(s.purchases[i].status)
    {
      ReplayAppend(st.audit, e, i);
    }
  }

  // ---------- the whole ledger ----------

  ghost predicate KindsSound(ps: seq<Purchase>) {
    forall i :: 0 <= i < |ps| ==> SoundKind(ps[i].kind)
  }

  /** What every history keeps true, whatever is ordered, approved, granted or refunded. */
  ghost predicate LedgerSound(st: Store) {
    && KindsSound(st.purchases)
    && Sound(st.purchases, st.access, st.now)
    && CouponsSound(st.purchases, st.coupons)
    && ReferencesDistinct(st.purchases) && UnpaidBlank(st.purchases)
    && Audited(st.purchases, st.audit)
  }

  /** The access tables depend on a purchase only through its buyer, its order and being decided. */
  lemma PurchasesMatter(ps: seq<Purchase>, qs: seq<Purchase>, a: Access, now: Time)
    requires Sound(ps, a, now) && |ps| <= |qs|
    requires forall i :: 0 <= i < |ps| ==> qs[i].user == ps[i].user && qs[i].kind == ps[i].kind
    requires forall k :: 0 <= k < |a.grants| ==>
      var s := qs[a.grants[k].purchase].status;
      s == Approved || (s == Refunded && !a.grants[k].Live())
    ensures Sound(qs, a, now)
  {
    forall k | 0 <= k < |a.grants|
      ensures a.grants[k].purchase < |qs| && InRange(a, a.grants[k].target)
    {
    }
  }

  /** An undecided purchase has no grants. */
  lemma UndecidedHasNoGrants(ps: seq<Purchase>, a: Access, pid: Id)
    requires GrantsRefer(ps, a) && GrantsDecided(ps, a) && pid < |ps|
    requires ps[pid].status != Approved && ps[pid].status != Refunded
    ensures forall k :: 0 <= k < |a.grants| ==> a.grants[k].purchase != pid
  {
  }

  lemma StatusMoveSound(st: Store, pid: Id, action: Action, p: Purchase)
    requires LedgerSound(st) && pid < |st.purchases|
    requires st.purchases[pid].status != Approved && st.purchases[pid].status != Refunded
    requires p.user == st.purchases[pid].user && p.kind == st.purchases[pid].kind && p.coupon == st.purchases[pid].coupon
    requires p.status != Approved && p.status != Refunded && p.status != Unpaid
    requires p.status == Pending ==> p.reference == "" || !ReferenceUsed(st.purchases, pid, p.reference, true)
    requires Allowed(st.purchases[pid].status, action, p.status)
    ensures LedgerSound(Logged(st, pid, action, p))
  {
    var s := Logged(st, pid, action, p);
    UndecidedHasNoGrants(st.purchases, st.access, pid);
    PurchasesMatter(st.purchases, s.purchases, st.access, st.now);
    CouponsKept(st.purchases, st.coupons, pid, p);
    ReferencesKept(st.purchases, pid, p);
    AuditedLogged(st, pid, action, p);
  }
}
