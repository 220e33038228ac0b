/** What refunds take back, in any order, and what they take that they should not. */
module RefundTheorems {
  import opened Wrappers
  import opened BillingTypes
  import opened Entitlements
  import opened EntitlementInvariants
  import opened WithdrawProofs
  import opened Payments
  import opened PaymentInvariants
  import opened PaymentHistories
  import opened ConservationProofs

  /** The same row up to its expiry and its active flag. */
  ghost predicate SameButWindow(s: Subscription, t: Subscription) {
    t == s.(expiresAt := t.expiresAt, active := t.active)
  }

  lemma RevokeWritesWindow(a: Access, loaded: Access, now: Time, k: nat, i: nat)
    requires SameShape(a, loaded) && k < |a.grants| && i < |a.subs|
    ensures SameButWindow(a.subs[i], RevokeGrant(a, loaded, now, k).subs[i])
  {
  }

  lemma WithdrawWritesWindow(a: Access, now: Time, pid: Id, n: nat, i: nat)
    requires n <= |a.grants| && i < |a.subs|
    ensures SameButWindow(a.subs[i], Withdraw(a, now, pid, n).subs[i])
  {
    var p := (b: Access) => i < |b.subs| && SameButWindow(a.subs[i], b.subs[i]);
    forall m | 0 <= m < |a.grants| && p(Withdraw(a, now, pid, m))
      ensures p(Withdraw(a, now, pid, m + 1))
    {
      RevokeWritesWindow(Withdraw(a, now, pid, m), a, now, m, i);
    }
    WithdrawKeeps(p, a, now, pid, 0, n);
  }

  // ---------- one refund ----------

  /** A second refund of the same purchase changes nothing, and is accepted. */
  lemma RefundIsIdempotent(st: Store, pid: Id, reason: string, again: string)
    requires Refund(st, pid, reason).1.Accepted? && Strip(again) != ""
    ensures
      var s := Refund(st, pid, reason).0;
      Refund(s, pid, again) == (s, Accepted)
  {
  }

  /** After a refund none of the purchase's grants is live, and no other purchase, grant, coupon or wallet moved. */
  lemma RefundSettlesItsGrants(st: Store, pid: Id, reason: string)
    requires LedgerSound(st) && Refund(st, pid, reason).1.Accepted?
    ensures
      var s := Refund(st, pid, reason).0;
      && LedgerSound(s)
      && s.purchases[pid].status == Refunded
      && |s.access.grants| == |st.access.grants|
      && (forall k :: 0 <= k < |s.access.grants| && s.access.grants[k].purchase == pid ==> !s.access.grants[k].Live())
      && (forall k :: 0 <= k < |s.access.grants| && s.access.grants[k].purchase != pid ==>
            s.access.grants[k] == st.access.grants[k])
      && (forall q :: 0 <= q < |st.purchases| && q != pid ==> s.purchases[q] == st.purchases[q])
      && s.coupons == st.coupons && s.wallets == st.wallets && s.access.members == st.access.members
  {
    RefundSound(st, pid, reason);
  }

  /** A refund writes no access row on which the purchase holds no live grant. */
  lemma RefundLeavesOtherRows(st: Store, pid: Id, reason: string, t: Target)
    requires LedgerSound(st) && InRange(st.access, t)
    requires !LiveTargetOf(st.access, pid, |st.access.grants|, t)
    ensures
      var s := Refund(st, pid, reason).0;
      InRange(s.access, t) && SameRow(st.access, s.access, t)
  {
    var s := Refund(st, pid, reason).0;
    if s.access != st.access {
      assert GrantsInRange(st.access);
      WithdrawTouchesOwnRows(st.access, st.now, pid, |st.access.grants|, t);
    }
  }

  /** On a row that another purchase still pays for, a refund takes exactly the duration of the plan it bought. */
  lemma RefundTakesExactlyItsPlan(st: Store, pid: Id, reason: string, k: nat, i: nat)
    requires LedgerSound(st) && Refund(st, pid, reason).1.Accepted? && RowPaid(st.purchases, st.access, i)
    requires k < |st.access.grants| && st.access.grants[k].purchase == pid && LiveOn(st.access.grants[k], i)
    requires OtherLive(st.access.grants, k)
    ensures
      var before, after := st.access.subs, Refund(st, pid, reason).0.access.subs;
      && i < |before| && i < |after| && before[i].active && after[i].active
      && before[i].expiresAt.Some? && after[i].expiresAt.Some? && pid < |st.purchases|
      && BoughtTime(st.purchases[pid].kind, before[i].course, before[i].product,
                    before[i].expiresAt.value - after[i].expiresAt.value)
  {
    TakesExactlyItsPlan(st.purchases, st.access, st.now, pid, k, i);
  }

  lemma TakesExactlyItsPlan(ps: seq<Purchase>, a: Access, now: Time, pid: Id, k: nat, i: nat)
    requires Sound(ps, a, now) && RowPaid(ps, a, i)
    requires k < |a.grants| && a.grants[k].purchase == pid && LiveOn(a.grants[k], i) && OtherLive(a.grants, k)
    ensures
      var before, after := a.subs, Withdraw(a, now, pid, |a.grants|).subs;
      && i < |before| && i < |after| && before[i].active && after[i].active
      && before[i].expiresAt.Some? && after[i].expiresAt.Some? && pid < |ps|
      && BoughtTime(ps[pid].kind, before[i].course, before[i].product,
                    before[i].expiresAt.value - after[i].expiresAt.value)
  {
    RefundedRow(ps, a, now, pid, k, i);
    WithdrawKeepsPaid(ps, a, now, pid, |a.grants|, i);
    StillPaid(ps, Withdraw(a, now, pid, |a.grants|), i);
  }

  lemma StillPaid(ps: seq<Purchase>, b: Access, i: nat)
    requires RowPaid(ps, b, i) && HasLiveGrant(b.grants, SubscriptionRow(i))
    ensures b.subs[i].active && b.subs[i].expiresAt == Some(b.subs[i].startsAt + LiveTime(b.grants, i, b.subs[i].startsAt))
  {
  }

  lemma RefundedRow(ps: seq<Purchase>, a: Access, now: Time, pid: Id, k: nat, i: nat)
    requires GrantsRefer(ps, a) && OwnTargets(a) && RowPaid(ps, a, i)
    requires k < |a.grants| && a.grants[k].purchase == pid && LiveOn(a.grants[k], i) && OtherLive(a.grants, k)
    ensures
      var b := Withdraw(a, now, pid, |a.grants|);
      && i < |a.subs| && !a.subs[i].scholarship && SameButWindow(a.subs[i], b.subs[i])
      && HasLiveGrant(b.grants, SubscriptionRow(i))
      && a.subs[i].active && a.subs[i].expiresAt.Some?
      && BoughtTime(ps[pid].kind, a.subs[i].course, a.subs[i].product,
                    a.subs[i].expiresAt.value - (a.subs[i].startsAt + LiveTime(b.grants, i, a.subs[i].startsAt)))
  {
    var b := Withdraw(a, now, pid, |a.grants|);
    WithdrawWritesWindow(a, now, pid, |a.grants|, i);
    assert GrantWorthPlan(ps, a, k);
    assert HasLiveGrant(a.grants, SubscriptionRow(i));
    var j :| 0 <= j < |a.grants| && j != k && a.grants[j].Live() && a.grants[j].target == a.grants[k].target;
    assert b.grants[j].Live() && b.grants[j].target == SubscriptionRow(i);
    RefundedTime(a, b, now, pid, k, i);
  }

  /** Settling one purchase takes the time of its single live grant off the row's total. */
  lemma RefundedTime(a: Access, b: Access, now: Time, pid: Id, k: nat, i: nat)
    requires OwnTargets(a) && |a.grants| == |b.grants| && k < |a.grants| && i < |a.subs|
    requires a.grants[k].purchase == pid && LiveOn(a.grants[k], i)
    requires forall j :: 0 <= j < |a.grants| ==>
      b.grants[j] == if a.grants[j].purchase == pid && a.grants[j].Live()
                     then a.grants[j].(revokedAt := Some(now)) else a.grants[j]
    ensures
      var start := a.subs[i].startsAt;
      LiveTime(b.grants, i, start) == LiveTime(a.grants, i, start) - GrantTime(a.grants[k], start)
  {
    var start := a.subs[i].startsAt;
    LiveTimeRevoke(a.grants, k, now, i, start);
    LiveTimeSame(Stamped(a.grants, k, now), b.grants, i, start);
  }

  // ---------- where a refund takes more than its own ----------

  /** A Grand Test survives a refund exactly when the refunded purchase holds no live grant on it:
      the grants of other purchases do not protect it. */
  lemma RefundClosesGrandTest(st: Store, pid: Id, reason: string, i: nat)
    requires LedgerSound(st) && i < |st.access.tests|
    requires Strip(reason) != "" && pid < |st.purchases| && st.purchases[pid].status == Approved
    ensures
      var s := Refund(st, pid, reason).0;
      && i < |s.access.tests|
      && (s.access.tests[i].revokedAt.None? <==>
            st.access.tests[i].revokedAt.None? && !LiveTargetOf(st.access, pid, |st.access.grants|, AccessRow(i)))
  {
    assert GrantsInRange(st.access);
    WithdrawTests(st.access, st.now, pid, |st.access.grants|, i);
  }

  lemma {:induction false} WithdrawTests(a: Access, now: Time, pid: Id, n: nat, i: nat)
    requires n <= |a.grants| && i < |a.tests| && GrantsInRange(a)
    ensures
      var b := Withdraw(a, now, pid, n);
      b.tests[i].revokedAt.None? <==> a.tests[i].revokedAt.None? && !LiveTargetOf(a, pid, n, AccessRow(i))
  {
    if n > 0 {
      WithdrawTests(a, now, pid, n - 1, i);
      var b := Withdraw(a, now, pid, n - 1);
      if a.grants[n - 1].purchase == pid && a.grants[n - 1].Live() && a.grants[n - 1].target == AccessRow(i) {
        assert LiveTargetOf(a, pid, n, AccessRow(i));
      } else {
        assert LiveTargetOf(a, pid, n, AccessRow(i)) ==> LiveTargetOf(a, pid, n - 1, AccessRow(i));
      }
    }
  }
}
