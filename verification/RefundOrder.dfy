/** Many refunds, at any instants and in any order. */
module RefundOrder {
  import opened Wrappers
  import opened BillingTypes
  import opened Entitlements
  import opened EntitlementInvariants
  import opened WithdrawProofs
  import opened Payments
  import opened PaymentInvariants
  import opened PaymentHistories
  import opened ConservationProofs
  import opened RefundTheorems

  /** A purchase to refund, and how long after the one before it. */
  type Settlement = (nat, Id)

  /** The purchase is refunded after a while. */
  ghost function RefundLater(st: Store, e: Settlement, reason: string): Store {
    Refund(Later(st, e.0), e.1, reason).0
  }

  ghost function Later(st: Store, elapsed: nat): (s: Store)
    ensures LedgerSound(st) ==> LedgerSound(s)
    ensures s == st.(now := st.now + elapsed)
  {
    TickSound(st, elapsed);
    st.(now := st.now + elapsed)
  }

  ghost function RefundAll(st: Store, plan: seq<Settlement>, reason: string): Store
    decreases |plan|
  {
    if plan == [] then st else RefundAll(RefundLater(st, plan[0], reason), plan[1..], reason)
  }

  /** One of these purchases holds a live grant on the target. */
  ghost predicate LiveTargetOfAny(a: Access, pids: set<Id>, t: Target) {
    exists k :: 0 <= k < |a.grants| && a.grants[k].purchase in pids && a.grants[k].Live() && a.grants[k].target == t
  }

  /** The same grants, of which those of the refunded purchases are no longer live. */
  ghost predicate GrantsSettled(a: Access, b: Access, refunded: set<Id>) {
    |a.grants| == |b.grants| && forall k :: 0 <= k < |a.grants| ==>
      && b.grants[k] == a.grants[k].(revokedAt := b.grants[k].revokedAt)
      && (b.grants[k].Live() <==> a.grants[k].Live() && a.grants[k].purchase !in refunded)
  }

  /** The same Grand Test rows, of which those with a live grant of a refunded purchase are closed. */
  ghost predicate TestsSettled(a: Access, b: Access, refunded: set<Id>) {
    |a.tests| == |b.tests| && forall i :: 0 <= i < |a.tests| ==>
      && b.tests[i] == a.tests[i].(revokedAt := b.tests[i].revokedAt)
      && (b.tests[i].revokedAt.None? <==> a.tests[i].revokedAt.None? && !LiveTargetOfAny(a, refunded, AccessRow(i)))
  }

  ghost predicate SubsSettled(a: Access, b: Access) {
    |a.subs| == |b.subs| && forall i :: 0 <= i < |a.subs| ==> SameButWindow(a.subs[i], b.subs[i])
  }

  ghost predicate StatusesSettled(ps: seq<Purchase>, qs: seq<Purchase>, refunded: set<Id>) {
    |ps| == |qs| && forall q :: 0 <= q < |ps| ==>
      qs[q].status == if q in refunded && ps[q].status == Approved then Refunded else ps[q].status
  }

  /** What a sequence of refunds does, told by the set of refunded purchases alone. */
  ghost predicate Settled(st: Store, s: Store, refunded: set<Id>) {
    && s.coupons == st.coupons && s.wallets == st.wallets
    && StatusesSettled(st.purchases, s.purchases, refunded)
    && GrantsSettled(st.access, s.access, refunded)
    && TestsSettled(st.access, s.access, refunded)
    && SubsSettled(st.access, s.access)
  }

  // ---------- one after another ----------

  lemma RevokeKeepsTestRow(a: Access, loaded: Access, now: Time, k: nat, i: nat)
    requires SameShape(a, loaded) && k < |a.grants| && i < |a.tests|
    ensures var b := RevokeGrant(a, loaded, now, k);
      b.tests[i] == a.tests[i].(revokedAt := b.tests[i].revokedAt)
  {
  }

  lemma WithdrawKeepsTestRow(a: Access, now: Time, pid: Id, n: nat, i: nat)
    requires n <= |a.grants| && i < |a.tests|
    ensures var b := Withdraw(a, now, pid, n);
      b.tests[i] == a.tests[i].(revokedAt := b.tests[i].revokedAt)
  {
    var p := (b: Access) => i < |b.tests| && b.tests[i] == a.tests[i].(revokedAt := b.tests[i].revokedAt);
    forall m | 0 <= m < |a.grants| && p(Withdraw(a, now, pid, m))
      ensures p(Withdraw(a, now, pid, m + 1))
    {
      RevokeKeepsTestRow(Withdraw(a, now, pid, m), a, now, m, i);
    }
    WithdrawKeeps(p, a, now, pid, 0, n);
  }

  lemma WithdrawSettles(a: Access, now: Time, pid: Id)
    requires GrantsInRange(a)
    ensures var b := Withdraw(a, now, pid, |a.grants|);
      GrantsSettled(a, b, {pid}) && TestsSettled(a, b, {pid}) && SubsSettled(a, b)
  {
    var n := |a.grants|;
    forall i | 0 <= i < |a.tests|
      ensures var b := Withdraw(a, now, pid, n);
        b.tests[i] == a.tests[i].(revokedAt := b.tests[i].revokedAt)
        && (b.tests[i].revokedAt.None? <==> a.tests[i].revokedAt.None? && !LiveTargetOfAny(a, {pid}, AccessRow(i)))
    {
      WithdrawKeepsTestRow(a, now, pid, n, i);
      WithdrawTests(a, now, pid, n, i);
      assert LiveTargetOf(a, pid, n, AccessRow(i)) <==> LiveTargetOfAny(a, {pid}, AccessRow(i));
    }
    forall i | 0 <= i < |a.subs|
      ensures SameButWindow(a.subs[i], Withdraw(a, now, pid, n).subs[i])
    {
      WithdrawWritesWindow(a, now, pid, n, i);
    }
  }

  /** A purchase that is not approved has nothing to settle. */
  lemma NothingToSettle(st: Store, pid: Id)
    requires GrantsRefer(st.purchases, st.access) && GrantsDecided(st.purchases, st.access)
    requires pid < |st.purchases| ==> st.purchases[pid].status != Approved
    ensures Settled(st, st, {pid})
  {
    forall i | 0 <= i < |st.access.tests|
      ensures !LiveTargetOfAny(st.access, {pid}, AccessRow(i))
    {
    }
  }

  lemma SettleOne(st: Store, pid: Id, reason: string)
    requires LedgerSound(st) && Strip(reason) != ""
    ensures Settled(st, Refund(st, pid, reason).0, {pid})
  {
    if pid < |st.purchases| && st.purchases[pid].status == Approved {
      assert GrantsInRange(st.access);
      WithdrawSettles(st.access, st.now, pid);
    } else {
      NothingToSettle(st, pid);
    }
  }

  lemma TestsSettledTwice(a: Access, b: Access, c: Access, r1: set<Id>, r2: set<Id>)
    requires GrantsSettled(a, b, r1) && TestsSettled(a, b, r1) && TestsSettled(b, c, r2)
    ensures TestsSettled(a, c, r1 + r2)
  {
    forall i | 0 <= i < |a.tests|
      ensures LiveTargetOfAny(a, r1 + r2, AccessRow(i)) <==>
        LiveTargetOfAny(a, r1, AccessRow(i)) || LiveTargetOfAny(b, r2, AccessRow(i))
    {
      if LiveTargetOfAny(a, r1 + r2, AccessRow(i)) {
        var k :| 0 <= k < |a.grants| && a.grants[k].purchase in r1 + r2 && a.grants[k].Live() && a.grants[k].target == AccessRow(i);
        assert a.grants[k].purchase !in r1 ==> b.grants[k].Live() && b.grants[k].purchase in r2 && b.grants[k].target == AccessRow(i);
      }
      if LiveTargetOfAny(b, r2, AccessRow(i)) {
        var k :| 0 <= k < |b.grants| && b.grants[k].purchase in r2 && b.grants[k].Live() && b.grants[k].target == AccessRow(i);
        assert a.grants[k].Live() && a.grants[k].purchase in r1 + r2 && a.grants[k].target == AccessRow(i);
      }
    }
  }

  lemma SettleTwice(a: Store, b: Store, c: Store, r1: set<Id>, r2: set<Id>)
    requires Settled(a, b, r1) && Settled(b, c, r2)
    ensures Settled(a, c, r1 + r2)
  {
    TestsSettledTwice(a.access, b.access, c.access, r1, r2);
    forall i | 0 <= i < |a.access.subs|
      ensures SameButWindow(a.access.subs[i], c.access.subs[i])
    {
      assert SameButWindow(a.access.subs[i], b.access.subs[i]) && SameButWindow(b.access.subs[i], c.access.subs[i]);
    }
  }

  ghost function Members(plan: seq<Settlement>): set<Id> {
    set k | 0 <= k < |plan| :: plan[k].1
  }

  lemma MembersFirst(plan: seq<Settlement>)
    requires plan != []
    ensures Members(plan) == {plan[0].1} + Members(plan[1..])
  {
    forall k | 0 < k < |plan|
      ensures plan[k].1 in Members(plan[1..])
    {
      assert plan[1..][k - 1] == plan[k];
    }
    forall k | 0 <= k < |plan| - 1
      ensures plan[1..][k].1 in Members(plan)
    {
      assert plan[1..][k] == plan[k + 1];
    }
  }

  lemma SameButClock(st: Store, later: Store, s: Store, refunded: set<Id>)
    requires Settled(later, s, refunded) && st == later.(now := st.now)
    ensures Settled(st, s, refunded)
  {
  }

  lemma SettleLater(st: Store, e: Settlement, reason: string)
    requires LedgerSound(st) && Strip(reason) != ""
    ensures Settled(st, RefundLater(st, e, reason), {e.1})
  {
    var later := Later(st, e.0);
    SettleOne(later, e.1, reason);
    SameButClock(st, later, RefundLater(st, e, reason), {e.1});
  }

  lemma RefundLaterSound(st: Store, e: Settlement, reason: string)
    requires LedgerSound(st)
    ensures LedgerSound(RefundLater(st, e, reason))
  {
    RefundSound(Later(st, e.0), e.1, reason);
  }

  /** After any sequence of refunds, each some time after the one before, the statuses, the live grants
      and the open Grand Tests are determined by the set of refunded purchases alone. */
  lemma {:induction false} RefundAllSettles(st: Store, plan: seq<Settlement>, reason: string)
    requires LedgerSound(st) && Strip(reason) != ""
    ensures Settled(st, RefundAll(st, plan, reason), Members(plan)) && LedgerSound(RefundAll(st, plan, reason))
    decreases |plan|
  {
    if plan != [] {
      var s := RefundLater(st, plan[0], reason);
      RefundLaterSound(st, plan[0], reason);
      SettleLater(st, plan[0], reason);
      RefundAllSettles(s, plan[1..], reason);
      SettleTwice(st, s, RefundAll(s, plan[1..], reason), {plan[0].1}, Members(plan[1..]));
      MembersFirst(plan);
    } else {
      assert Members(plan) == {};
    }
  }

  /** A refund keeps a paid row adding up. */
  lemma RefundKeepsPaid(st: Store, pid: Id, reason: string, i: nat)
    requires LedgerSound(st) && RowPaid(st.purchases, st.access, i)
    ensures var s := Refund(st, pid, reason).0; RowPaid(s.purchases, s.access, i)
  {
    var s := Refund(st, pid, reason).0;
    if s != st {
      WithdrawKeepsPaid(st.purchases, st.access, st.now, pid, |st.access.grants|, i);
      SameKindsKeepPaid(st.purchases, s.purchases, s.access, i);
    }
  }

  lemma SameKindsKeepPaid(ps: seq<Purchase>, qs: seq<Purchase>, a: Access, i: nat)
    requires RowPaid(ps, a, i) && |ps| <= |qs| && forall q :: 0 <= q < |ps| ==> qs[q].kind == ps[q].kind
    ensures RowPaid(qs, a, i)
  {
    forall j | 0 <= j < |a.grants| && a.grants[j].target == SubscriptionRow(i)
      ensures GrantWorthPlan(qs, a, j)
    {
      assert GrantWorthPlan(ps, a, j);
    }
  }

  lemma RefundLaterKeepsPaid(st: Store, e: Settlement, reason: string, i: nat)
    requires LedgerSound(st) && RowPaid(st.purchases, st.access, i)
    ensures var s := RefundLater(st, e, reason); RowPaid(s.purchases, s.access, i)
  {
    RefundKeepsPaid(Later(st, e.0), e.1, reason, i);
  }

  lemma {:induction false} RefundAllKeepsPaid(st: Store, plan: seq<Settlement>, reason: string, i: nat)
    requires LedgerSound(st) && RowPaid(st.purchases, st.access, i)
    ensures var s := RefundAll(st, plan, reason); RowPaid(s.purchases, s.access, i)
    decreases |plan|
  {
    if plan != [] {
      RefundLaterSound(st, plan[0], reason);
      RefundLaterKeepsPaid(st, plan[0], reason, i);
      RefundAllKeepsPaid(RefundLater(st, plan[0], reason), plan[1..], reason, i);
    }
  }

  // ---------- what is left ----------

  /** The row covers no instant after it started. */
  ghost predicate NothingLeft(row: Subscription) {
    forall at :: row.Covers(at) ==> at <= row.startsAt
  }

  /** What is left of a paid row is decided by the grants that are left. */
  lemma PaidRow(ps: seq<Purchase>, a: Access, i: nat)
    requires RowPaid(ps, a, i)
    ensures
      var row := a.subs[i];
      && (HasLiveGrant(a.grants, SubscriptionRow(i)) ==>
            row.active && row.expiresAt == Some(row.startsAt + LiveTime(a.grants, i, row.startsAt)))
      && (!HasLiveGrant(a.grants, SubscriptionRow(i)) ==> NothingLeft(row))
  {
    if !HasLiveGrant(a.grants, SubscriptionRow(i)) {
      LiveTimeNone(a.grants, i, a.subs[i].startsAt);
    }
  }

  /** A row after some refunds: what is left of it is decided by the grants that are left. */
  ghost predicate RowDecided(st: Store, s: Store, i: nat) {
    && i < |st.access.subs| && i < |s.access.subs|
    && var before, row := st.access.subs[i], s.access.subs[i];
       if HasLiveGrant(s.access.grants, SubscriptionRow(i)) then
         row == before.(active := true, expiresAt := Some(before.startsAt + LiveTime(s.access.grants, i, before.startsAt)))
       else NothingLeft(row)
  }

  lemma SettledRowDecided(st: Store, s: Store, refunded: set<Id>, i: nat)
    requires Settled(st, s, refunded) && RowPaid(s.purchases, s.access, i)
    ensures RowDecided(st, s, i)
  {
    assert SameButWindow(st.access.subs[i], s.access.subs[i]);
    PaidRow(s.purchases, s.access, i);
  }

  lemma RefundAllDecidesRow(st: Store, plan: seq<Settlement>, reason: string, i: nat)
    requires LedgerSound(st) && RowPaid(st.purchases, st.access, i) && Strip(reason) != ""
    ensures RowDecided(st, RefundAll(st, plan, reason), i)
  {
    RefundAllSettles(st, plan, reason);
    RefundAllKeepsPaid(st, plan, reason, i);
    SettledRowDecided(st, RefundAll(st, plan, reason), Members(plan), i);
  }

  /** The same statuses, live grants and open Grand Tests; and, on a paid row i, the same row wherever
      some grant survives, and otherwise a row that covers nothing after its start. */
  ghost predicate SameOutcome(s: Store, t: Store, i: nat) {
    && |s.purchases| == |t.purchases| && |s.access.grants| == |t.access.grants| && |s.access.tests| == |t.access.tests|
    && (forall q :: 0 <= q < |s.purchases| ==> s.purchases[q].status == t.purchases[q].status)
    && (forall k :: 0 <= k < |s.access.grants| ==>
          t.access.grants[k] == s.access.grants[k].(revokedAt := t.access.grants[k].revokedAt)
          && (s.access.grants[k].Live() <==> t.access.grants[k].Live()))
    && (forall j :: 0 <= j < |s.access.tests| ==>
          (s.access.tests[j].revokedAt.None? <==> t.access.tests[j].revokedAt.None?))
    && i < |s.access.subs| && i < |t.access.subs|
    && if HasLiveGrant(s.access.grants, SubscriptionRow(i))
       then s.access.subs[i] == t.access.subs[i] && s.access.subs[i].active
       else NothingLeft(s.access.subs[i]) && NothingLeft(t.access.subs[i])
  }

  /** Ledgers that differ in when grants were revoked add up to the same. */
  lemma {:induction false} SameLiveTime(g1: seq<Grant>, g2: seq<Grant>, i: Id, start: Time)
    requires |g1| == |g2| && forall k :: 0 <= k < |g1| ==>
      g2[k] == g1[k].(revokedAt := g2[k].revokedAt) && (g1[k].Live() <==> g2[k].Live())
    ensures LiveTime(g1, i, start) == LiveTime(g2, i, start)
    ensures HasLiveGrant(g1, SubscriptionRow(i)) <==> HasLiveGrant(g2, SubscriptionRow(i))
  {
    LiveTimeSame(g1, g2, i, start);
    if HasLiveGrant(g1, SubscriptionRow(i)) {
      var k :| 0 <= k < |g1| && g1[k].Live() && g1[k].target == SubscriptionRow(i);
      assert g2[k].Live() && g2[k].target == SubscriptionRow(i);
    }
    if HasLiveGrant(g2, SubscriptionRow(i)) {
      var k :| 0 <= k < |g2| && g2[k].Live() && g2[k].target == SubscriptionRow(i);
      assert g1[k].Live() && g1[k].target == SubscriptionRow(i);
    }
  }

  lemma SettledAgree(st: Store, s: Store, t: Store, refunded: set<Id>, i: nat)
    requires Settled(st, s, refunded) && Settled(st, t, refunded)
    requires RowDecided(st, s, i) && RowDecided(st, t, i)
    ensures SameOutcome(s, t, i)
  {
    SameLiveTime(s.access.grants, t.access.grants, i, st.access.subs[i].startsAt);
  }

  /** Refunding the same purchases in two orders, at whatever instants, comes to the same. */
  lemma RefundOrderIrrelevant(st: Store, some: seq<Settlement>, others: seq<Settlement>, reason: string, i: nat)
    requires LedgerSound(st) && RowPaid(st.purchases, st.access, i)
    requires Strip(reason) != "" && Members(some) == Members(others)
    ensures SameOutcome(RefundAll(st, some, reason), RefundAll(st, others, reason), i)
  {
    RefundAllSettles(st, some, reason);
    RefundAllSettles(st, others, reason);
    RefundAllDecidesRow(st, some, reason, i);
    RefundAllDecidesRow(st, others, reason, i);
    SettledAgree(st, RefundAll(st, some, reason), RefundAll(st, others, reason), Members(some), i);
  }
}
