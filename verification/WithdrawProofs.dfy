/** Refunding a purchase keeps every entitlement invariant and touches nothing but its own rows. */
module WithdrawProofs {
  import opened Wrappers
  import opened BillingTypes
  import opened Entitlements
  import opened EntitlementInvariants

  ghost predicate SameRow(a: Access, b: Access, t: Target)
    requires InRange(a, t) && InRange(b, t)
  {
    match t
    case SubscriptionRow(i) => a.subs[i] == b.subs[i]
    case AccessRow(i) => a.tests[i] == b.tests[i]
    case EnrollmentRow(i) => a.courses[i] == b.courses[i]
  }

  /** Purchase pid has a grant on t, among the first n, that is still live. */
  ghost predicate LiveTargetOf(a: Access, pid: Id, n: nat, t: Target) {
    exists k :: 0 <= k < n && k < |a.grants| && a.grants[k].purchase == pid && a.grants[k].Live() && a.grants[k].target == t
  }

  /** Undoing grant k writes no other row. */
  lemma RevokeTouchesItsRow(a: Access, loaded: Access, now: Time, k: nat, t: Target)
    requires SameShape(a, loaded) && k < |a.grants| && InRange(a, a.grants[k].target) && InRange(a, t)
    requires a.grants[k].target != t
    ensures SameRow(a, RevokeGrant(a, loaded, now, k), t)
  {
  }

  /** A refund leaves every row alone that it holds no live grant on. */
  lemma {:induction false} WithdrawTouchesOwnRows(a: Access, now: Time, pid: Id, n: nat, t: Target)
    requires GrantsInRange(a) && n <= |a.grants| && InRange(a, t)
    requires !LiveTargetOf(a, pid, n, t)
    ensures SameRow(a, Withdraw(a, now, pid, n), t)
  {
    if n > 0 {
      WithdrawTouchesOwnRows(a, now, pid, n - 1, t);
      if a.grants[n - 1].purchase == pid && a.grants[n - 1].Live() {
        var b := Withdraw(a, now, pid, n - 1);
        RevokeTouchesItsRow(b, a, now, n - 1, t);
      }
    }
  }

  /** The loaded copy of a row is as good as the row, as long as nothing wrote it since. */
  lemma FreshCopy(a: Access, loaded: Access, now: Time, k: nat)
    requires SameShape(a, loaded) && k < |a.grants| && InRange(a, a.grants[k].target)
    requires SameRow(a, loaded, a.grants[k].target)
    ensures RevokeGrant(a, loaded, now, k) == RevokeGrant(a, a, now, k)
  {
  }

  lemma RevokeKeepsLedger(ps: seq<Purchase>, a: Access, now: Time, k: nat)
    requires GrantsRefer(ps, a) && GrantsDecided(ps, a) && OwnTargets(a) && k < |a.grants|
    ensures
      var b := RevokeGrant(a, a, now, k);
      GrantsRefer(ps, b) && GrantsDecided(ps, b) && OwnTargets(b)
  {
    var b := RevokeGrant(a, a, now, k);
    assert forall j :: 0 <= j < |a.grants| ==>
      b.grants[j].purchase == a.grants[j].purchase && b.grants[j].target == a.grants[j].target
      && (b.grants[j].Live() ==> a.grants[j].Live());
  }

  lemma RevokeKeepsTests(a: Access, now: Time, k: nat)
    requires k < |a.grants| && InRange(a, a.grants[k].target) && OneAccessRow(a) && AccessBacked(a)
    ensures
      var b := RevokeGrant(a, a, now, k);
      OneAccessRow(b) && AccessBacked(b)
  {
    var b := RevokeGrant(a, a, now, k);
    forall i | 0 <= i < |b.tests| && b.tests[i].revokedAt.None?
      ensures HasLiveGrant(b.grants, AccessRow(i))
    {
      assert a.grants[k].target != AccessRow(i);
      assert HasLiveGrant(a.grants, AccessRow(i));
      var j :| 0 <= j < |a.grants| && a.grants[j].Live() && a.grants[j].target == AccessRow(i);
      assert b.grants[j] == a.grants[j];
    }
  }

  /** A refund never gives access: what covers afterwards covered before. */
  lemma RevokeShape(a: Access, now: Time, k: nat, i: nat)
    requires k < |a.grants| && InRange(a, a.grants[k].target) && NoNegativeGrant(a) && i < |a.subs|
    ensures
      var b := RevokeGrant(a, a, now, k);
      && |b.subs| == |a.subs| && SameRowSeries(a.subs[i], b.subs[i]) && b.subs[i].startsAt == a.subs[i].startsAt
      && (forall t :: b.subs[i].Covers(t) ==> a.subs[i].Covers(t))
  {
  }

  lemma RevokeKeepsTimeline(a: Access, now: Time, k: nat)
    requires k < |a.grants| && GrantsInRange(a)
    requires NoNegativeGrant(a) && Started(a, now) && OneCurrent(a, now) && MembersEnrolled(a)
    ensures
      var b := RevokeGrant(a, a, now, k);
      NoNegativeGrant(b) && Started(b, now) && OneCurrent(b, now) && MembersEnrolled(b)
  {
    var b := RevokeGrant(a, a, now, k);
    forall i | 0 <= i < |a.subs|
      ensures SameRowSeries(a.subs[i], b.subs[i]) && b.subs[i].startsAt == a.subs[i].startsAt
      ensures b.subs[i].Covers(now) ==> a.subs[i].Covers(now)
    {
      RevokeShape(a, now, k, i);
    }
    forall j | 0 <= j < |b.grants| && b.grants[j].target.SubscriptionRow? && b.grants[j].target.sub < |b.subs|
      ensures GrantTime(b.grants[j], b.subs[b.grants[j].target.sub].startsAt) >= 0
    {
      assert GrantTime(b.grants[j], b.subs[b.grants[j].target.sub].startsAt) ==
             GrantTime(a.grants[j], a.subs[a.grants[j].target.sub].startsAt);
    }
  }

  lemma RevokeKeepsOrders(ps: seq<Purchase>, a: Access, now: Time, k: nat)
    requires GrantsRefer(ps, a) && GrantsMatchOrders(ps, a) && NoNegativeGrant(a) && k < |a.grants|
    ensures
      var b := RevokeGrant(a, a, now, k);
      GrantsRefer(ps, b) && GrantsMatchOrders(ps, b)
  {
    var b := RevokeGrant(a, a, now, k);
    forall i | 0 <= i < |a.subs|
      ensures SameRowSeries(a.subs[i], b.subs[i])
    {
      RevokeShape(a, now, k, i);
    }
    assert forall j :: 0 <= j < |a.grants| ==>
      b.grants[j].purchase == a.grants[j].purchase && b.grants[j].target == a.grants[j].target;
  }

  /** One ledger line of a refund, on up-to-date rows. */
  lemma RevokeSound(ps: seq<Purchase>, a: Access, now: Time, k: nat)
    requires Sound(ps, a, now) && k < |a.grants| && a.grants[k].Live()
    ensures Sound(ps, RevokeGrant(a, a, now, k), now)
  {
    assert GrantsInRange(a);
    RevokeKeepsLedger(ps, a, now, k);
    RevokeKeepsTests(a, now, k);
    RevokeKeepsTimeline(a, now, k);
    RevokeKeepsOrders(ps, a, now, k);
  }

  /** Although each step reads rows loaded before the first, it works on up-to-date values. */
  lemma WithdrawUnfold(a: Access, now: Time, pid: Id, n: nat)
    requires GrantsInRange(a) && OwnTargets(a) && n < |a.grants|
    requires a.grants[n].purchase == pid && a.grants[n].Live()
    ensures
      var b := Withdraw(a, now, pid, n);
      && b.grants[n] == a.grants[n]
      && Withdraw(a, now, pid, n + 1) == RevokeGrant(b, b, now, n)
  {
    var b := Withdraw(a, now, pid, n);
    assert !LiveTargetOf(a, pid, n, a.grants[n].target);
    WithdrawTouchesOwnRows(a, now, pid, n, a.grants[n].target);
    FreshCopy(b, a, now, n);
  }

  lemma WithdrawStep(ps: seq<Purchase>, a: Access, now: Time, pid: Id, n: nat)
    requires Sound(ps, a, now) && n < |a.grants|
    requires Sound(ps, Withdraw(a, now, pid, n), now)
    ensures Sound(ps, Withdraw(a, now, pid, n + 1), now)
  {
    if a.grants[n].purchase == pid && a.grants[n].Live() {
      assert GrantsInRange(a);
      WithdrawUnfold(a, now, pid, n);
      RevokeSound(ps, Withdraw(a, now, pid, n), now, n);
    }
  }

  /** What every step of the refund loop keeps from some line on, the rest of the loop keeps. */
  lemma {:induction false} WithdrawKeeps(p: Access -> bool, a: Access, now: Time, pid: Id, from: nat, n: nat)
    requires from <= n <= |a.grants| && p(Withdraw(a, now, pid, from))
    requires forall m :: from <= m < |a.grants| && p(Withdraw(a, now, pid, m)) ==> p(Withdraw(a, now, pid, m + 1))
    ensures p(Withdraw(a, now, pid, n))
    decreases n
  {
    if n > from {
      WithdrawKeeps(p, a, now, pid, from, n - 1);
    }
  }

  /** The refund loop keeps every invariant. */
  lemma WithdrawSound(ps: seq<Purchase>, a: Access, now: Time, pid: Id, n: nat)
    requires Sound(ps, a, now) && n <= |a.grants|
    ensures Sound(ps, Withdraw(a, now, pid, n), now)
  {
    var p := (b: Access) => Sound(ps, b, now);
    forall m | 0 <= m < |a.grants| && p(Withdraw(a, now, pid, m))
      ensures p(Withdraw(a, now, pid, m + 1))
    {
      WithdrawStep(ps, a, now, pid, m);
    }
    WithdrawKeeps(p, a, now, pid, 0, n);
  }

  /** The row is the same student's and covers no instant that it did not cover before. */
  ghost predicate NotExtended(s: Subscription, t: Subscription) {
    SameRowSeries(s, t) && t.startsAt == s.startsAt && forall at :: t.Covers(at) ==> s.Covers(at)
  }

  lemma RevokeNotExtended(ps: seq<Purchase>, a: Access, now: Time, k: nat, i: nat)
    requires Sound(ps, a, now) && k < |a.grants| && i < |a.subs|
    ensures
      var b := RevokeGrant(a, a, now, k);
      i < |b.subs| && NotExtended(a.subs[i], b.subs[i])
  {
    assert GrantsInRange(a);
    RevokeShape(a, now, k, i);
  }

  lemma WithdrawOneMore(ps: seq<Purchase>, a: Access, now: Time, pid: Id, n: nat, i: nat)
    requires Sound(ps, a, now) && n < |a.grants| && i < |a.subs|
    requires NotExtended(a.subs[i], Withdraw(a, now, pid, n).subs[i])
    ensures NotExtended(a.subs[i], Withdraw(a, now, pid, n + 1).subs[i])
  {
    if a.grants[n].purchase == pid && a.grants[n].Live() {
      WithdrawSound(ps, a, now, pid, n);
      assert GrantsInRange(a);
      WithdrawUnfold(a, now, pid, n);
      RevokeNotExtended(ps, Withdraw(a, now, pid, n), now, n, i);
    }
  }

  /** No row covers an instant after a refund that it did not cover before. */
  lemma WithdrawNeverGrants(ps: seq<Purchase>, a: Access, now: Time, pid: Id, n: nat, i: nat)
    requires Sound(ps, a, now) && n <= |a.grants| && i < |a.subs|
    ensures NotExtended(a.subs[i], Withdraw(a, now, pid, n).subs[i])
  {
    var p := (b: Access) => i < |b.subs| && NotExtended(a.subs[i], b.subs[i]);
    forall m | 0 <= m < |a.grants| && p(Withdraw(a, now, pid, m))
      ensures p(Withdraw(a, now, pid, m + 1))
    {
      WithdrawOneMore(ps, a, now, pid, m, i);
    }
    WithdrawKeeps(p, a, now, pid, 0, n);
  }
}
