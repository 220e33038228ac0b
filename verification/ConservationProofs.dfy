/** Paid time, row by row: what each change of the access tables does to one subscription. */
module ConservationProofs {
  import opened Wrappers
  import opened BillingTypes
  import opened Entitlements
  import opened EntitlementInvariants
  import opened ProvideProofs
  import opened WithdrawProofs

  // ---------- a change elsewhere ----------

  /** Row i and the grants on it are the same in b; grants elsewhere may have been added or revoked. */
  ghost predicate SameOnRow(a: Access, b: Access, i: nat) {
    && i < |a.subs| && i < |b.subs| && b.subs[i] == a.subs[i] && |a.grants| <= |b.grants|
    && (forall k :: 0 <= k < |a.grants| ==>
          b.grants[k].purchase == a.grants[k].purchase && b.grants[k].target == a.grants[k].target
          && (a.grants[k].target == SubscriptionRow(i) ==> b.grants[k] == a.grants[k]))
    && (forall k :: |a.grants| <= k < |b.grants| ==> b.grants[k].target != SubscriptionRow(i))
  }

  lemma {:induction false} SameOnRowSameTime(g1: seq<Grant>, g2: seq<Grant>, i: nat, start: Time)
    requires |g1| <= |g2|
    requires forall k :: 0 <= k < |g1| ==>
      g2[k].target == g1[k].target && (g1[k].target == SubscriptionRow(i) ==> g2[k] == g1[k])
    requires forall k :: |g1| <= k < |g2| ==> g2[k].target != SubscriptionRow(i)
    ensures LiveTime(g2, i, start) == LiveTime(g1, i, start)
    decreases |g2|
  {
    if |g1| < |g2| {
      SameOnRowSameTime(g1, g2[..|g2| - 1], i, start);
    } else {
      LiveTimeSame(g1, g2, i, start);
    }
  }

  lemma SameRowKept(ps: seq<Purchase>, a: Access, b: Access, i: nat)
    requires Kept(ps, a, i) && SameOnRow(a, b, i)
    ensures Kept(ps, b, i)
  {
    if !b.subs[i].scholarship && !Endless(b, i) {
      forall k | 0 <= k < |a.grants| && a.grants[k].target == SubscriptionRow(i)
        ensures a.grants[k].grantedExpiresAt.Some?
      {
        assert b.grants[k] == a.grants[k];
      }
      assert RowPaid(ps, a, i);
      SameOnRowSameTime(a.grants, b.grants, i, a.subs[i].startsAt);
      forall k | 0 <= k < |b.grants| && b.grants[k].target == SubscriptionRow(i)
        ensures b.grants[k].purchase < |ps| && GrantWorthPlan(ps, b, k)
      {
        assert b.grants[k] == a.grants[k] && GrantWorthPlan(ps, a, k);
      }
      if HasLiveGrant(b.grants, SubscriptionRow(i)) {
        var k :| 0 <= k < |b.grants| && b.grants[k].Live() && b.grants[k].target == SubscriptionRow(i);
        assert a.grants[k].Live() && a.grants[k].target == SubscriptionRow(i);
      }
    }
  }

  // ---------- one plan ----------

  /** The new grant of one plan, unless the plan or the row has no end. */
  lemma NewGrantWorth(ps: seq<Purchase>, a: Access, now: Time, plan: Plan, pid: Id)
    requires GrantsRefer(ps, a) && Started(a, now) && pid < |ps|
    requires BoughtTime(ps[pid].kind, plan.course, plan.product, plan.Duration())
    ensures Worth(ps, ExtendOrCreate(a, now, PlanRequest(ps[pid].user, plan), Some(pid)), |a.grants|)
  {
    var r := PlanRequest(ps[pid].user, plan);
    ExtendShape(a, now, r, Some(pid));
    ExtendWorth(a, now, r, pid);
  }

  /** The row that a plan renews or opens. */
  lemma HitRowKept(ps: seq<Purchase>, a: Access, now: Time, plan: Plan, pid: Id)
    requires GrantsRefer(ps, a) && Started(a, now) && pid < |ps|
    requires BoughtTime(ps[pid].kind, plan.course, plan.product, plan.Duration()) && plan.Duration() > 0
    requires
      var h := Hit(a, now, PlanRequest(ps[pid].user, plan));
      h < |a.subs| ==> RowPaid(ps, a, h)
    ensures
      var r := PlanRequest(ps[pid].user, plan);
      RowPaid(ps, ExtendOrCreate(a, now, r, Some(pid)), Hit(a, now, r))
  {
    var r := PlanRequest(ps[pid].user, plan);
    var b := ExtendOrCreate(a, now, r, Some(pid));
    var h := Hit(a, now, r);
    ExtendShape(a, now, r, Some(pid));
    ExtendWorth(a, now, r, pid);
    NewGrantWorth(ps, a, now, plan, pid);
    var g := b.grants[|a.grants|];
    assert b.grants == a.grants + [g];
    LiveTimeAppend(a.grants, g, h, b.subs[h].startsAt);
    if h == |a.subs| {
      forall k | 0 <= k < |a.grants|
        ensures !LiveOn(a.grants[k], h) && a.grants[k].target != SubscriptionRow(h)
      {
        assert InRange(a, a.grants[k].target);
      }
      LiveTimeNone(a.grants, h, now);
    }
    forall k | 0 <= k < |b.grants| && b.grants[k].target == SubscriptionRow(h)
      ensures b.grants[k].purchase < |ps| && GrantWorthPlan(ps, b, k)
    {
      if k < |a.grants| {
        assert b.grants[k] == a.grants[k];
        assert GrantWorthPlan(ps, a, k);
      }
    }
  }

  lemma ExtendKeepsRow(ps: seq<Purchase>, a: Access, now: Time, plan: Plan, pid: Id, i: nat)
    requires GrantsRefer(ps, a) && Started(a, now) && pid < |ps|
    requires BoughtTime(ps[pid].kind, plan.course, plan.product, plan.Duration()) && Kept(ps, a, i)
    ensures Kept(ps, ExtendOrCreate(a, now, PlanRequest(ps[pid].user, plan), Some(pid)), i)
  {
    var r := PlanRequest(ps[pid].user, plan);
    var b := ExtendOrCreate(a, now, r, Some(pid));
    ExtendShape(a, now, r, Some(pid));
    if i < |b.subs| && !b.subs[i].scholarship && !Endless(b, i) {
      assert forall k :: 0 <= k < |a.grants| ==> b.grants[k] == a.grants[k];
      if i == Hit(a, now, r) {
        assert b.grants[|a.grants|].target == SubscriptionRow(i);
        HitRowKept(ps, a, now, plan, pid);
      } else {
        SameRowKept(ps, a, b, i);
      }
    }
  }

  /** Grant k is what it was, on a row that starts where it did and is for the same course and product. */
  lemma SameGrantWorth(ps: seq<Purchase>, a: Access, b: Access, k: nat)
    requires Worth(ps, a, k) && k < |a.grants| && k < |b.grants| && InRange(a, a.grants[k].target) && |a.subs| <= |b.subs|
    requires b.grants[k] == a.grants[k].(revokedAt := b.grants[k].revokedAt)
    requires forall i :: 0 <= i < |a.subs| ==> SameRowSeries(a.subs[i], b.subs[i]) && b.subs[i].startsAt == a.subs[i].startsAt
    ensures Worth(ps, b, k)
  {
  }

  lemma ExtendKeepsWorth(ps: seq<Purchase>, a: Access, now: Time, plan: Plan, pid: Id, k: nat)
    requires GrantsRefer(ps, a) && Started(a, now) && pid < |ps|
    requires BoughtTime(ps[pid].kind, plan.course, plan.product, plan.Duration()) && Worth(ps, a, k)
    ensures Worth(ps, ExtendOrCreate(a, now, PlanRequest(ps[pid].user, plan), Some(pid)), k)
  {
    var r := PlanRequest(ps[pid].user, plan);
    ExtendShape(a, now, r, Some(pid));
    if k < |a.grants| {
      SameGrantWorth(ps, a, ExtendOrCreate(a, now, r, Some(pid)), k);
    } else {
      NewGrantWorth(ps, a, now, plan, pid);
    }
  }

  // ---------- whole purchases ----------

  /** Both facts at once: row i adds up and grant k is worth its plan. */
  ghost predicate InOrder(ps: seq<Purchase>, a: Access, i: nat, k: nat) {
    Kept(ps, a, i) && Worth(ps, a, k)
  }

  lemma {:induction false} ComboKeeps(ps: seq<Purchase>, a: Access, now: Time, pid: Id, n: nat, i: nat, k: nat)
    requires Sound(ps, a, now) && pid < |ps| && ps[pid].status == Approved
    requires n <= |Plans(ps[pid].kind)| && DistinctPlans(Plans(ps[pid].kind))
    requires forall j :: 0 <= j < |a.grants| ==> a.grants[j].purchase != pid
    requires InOrder(ps, a, i, k)
    ensures InOrder(ps, ProvideCombo(a, now, pid, ps[pid].user, Plans(ps[pid].kind)[..n]), i, k)
    decreases n
  {
    if n > 0 {
      var items := Plans(ps[pid].kind);
      assert items[..n][..n - 1] == items[..n - 1];
      ComboKeeps(ps, a, now, pid, n - 1, i, k);
      ComboSound(ps, a, now, pid, n - 1);
      var b := ProvideCombo(a, now, pid, ps[pid].user, items[..n - 1]);
      assert BoughtTime(ps[pid].kind, items[n - 1].course, items[n - 1].product, items[n - 1].Duration());
      ExtendKeepsRow(ps, b, now, items[n - 1], pid, i);
      ExtendKeepsWorth(ps, b, now, items[n - 1], pid, k);
    }
  }

  /** New grants that are not on subscriptions. */
  lemma OtherGrantsKeep(ps: seq<Purchase>, a: Access, b: Access, i: nat, k: nat)
    requires InOrder(ps, a, i, k) && GrantsInRange(a) && b.subs == a.subs && a.grants <= b.grants
    requires forall j :: |a.grants| <= j < |b.grants| ==> !b.grants[j].target.SubscriptionRow?
    ensures InOrder(ps, b, i, k)
  {
    if i < |a.subs| {
      SameRowKept(ps, a, b, i);
    }
    if k < |a.grants| {
      SameGrantWorth(ps, a, b, k);
    }
  }

  lemma {:induction false} PackageShape(a: Access, now: Time, pid: Id, user: Id, tests: seq<Id>)
    ensures
      var b := ProvidePackage(a, now, pid, user, tests);
      && b.subs == a.subs && a.grants <= b.grants
      && forall j :: |a.grants| <= j < |b.grants| ==> !b.grants[j].target.SubscriptionRow?
    decreases |tests|
  {
    if tests != [] {
      PackageShape(a, now, pid, user, tests[..|tests| - 1]);
    }
  }

  /** What an approval grants leaves every row adding up and every grant worth its plan. */
  lemma ProvideKeeps(ps: seq<Purchase>, a: Access, now: Time, pid: Id, i: nat, k: nat)
    requires Sound(ps, a, now) && pid < |ps| && ps[pid].status == Approved && SoundKind(ps[pid].kind)
    requires forall j :: 0 <= j < |a.grants| ==> a.grants[j].purchase != pid
    requires InOrder(ps, a, i, k)
    ensures InOrder(ps, Provide(a, now, pid, ps[pid].user, ps[pid].kind), i, k)
  {
    var p := ps[pid];
    assert GrantsInRange(a);
    match p.kind
    case SingleSubscription(plan) =>
      assert BoughtTime(p.kind, plan.course, plan.product, plan.Duration()) by {
        assert Plans(p.kind)[0] == plan;
      }
      ExtendKeepsRow(ps, a, now, plan, pid, i);
      ExtendKeepsWorth(ps, a, now, plan, pid, k);
    case Combo(items) =>
      ComboKeeps(ps, a, now, pid, |items|, i, k);
      assert items[..|items|] == items;
    case GrandTest(test) => OtherGrantsKeep(ps, a, ProvideTest(a, now, pid, p.user, test), i, k);
    case GrandTestPackage(tests) =>
      PackageShape(a, now, pid, p.user, tests);
      OtherGrantsKeep(ps, a, ProvidePackage(a, now, pid, p.user, tests), i, k);
    case TeacherCourse(course, access) =>
      OtherGrantsKeep(ps, a, ProvideCourse(a, now, pid, p.user, course, access), i, k);
  }

  // ---------- refunds ----------

  /** Undoing a live grant takes exactly its contribution off its row, or deactivates a row with
      nothing left. */
  lemma RevokeKeepsPaid(ps: seq<Purchase>, a: Access, now: Time, k: nat, i: nat)
    requires GrantsRefer(ps, a) && NoNegativeGrant(a) && k < |a.grants| && a.grants[k].Live()
    requires RowPaid(ps, a, i)
    ensures RowPaid(ps, RevokeGrant(a, a, now, k), i)
  {
    var b := RevokeGrant(a, a, now, k);
    RevokeShape(a, now, k, i);
    RevokeKeepsRow(ps, a, now, k, i);
    forall j | 0 <= j < |b.grants| && b.grants[j].target == SubscriptionRow(i)
      ensures b.grants[j].purchase < |ps| && GrantWorthPlan(ps, b, j)
    {
      assert GrantWorthPlan(ps, a, j);
    }
  }

  lemma RevokeKeepsRow(ps: seq<Purchase>, a: Access, now: Time, k: nat, i: nat)
    requires GrantsRefer(ps, a) && k < |a.grants| && a.grants[k].Live() && RowPaid(ps, a, i)
    ensures
      var b := RevokeGrant(a, a, now, k);
      i < |b.subs| && RowConserved(b, i)
  {
    var b := RevokeGrant(a, a, now, k);
    var start := a.subs[i].startsAt;
    LiveTimeRevoke(a.grants, k, now, i, start);
    if a.grants[k].target == SubscriptionRow(i) {
      assert HasLiveGrant(a.grants, SubscriptionRow(i));
      assert GrantWorthPlan(ps, a, k);
      if !OtherLive(a.grants, k) {
        assert forall j :: 0 <= j < |b.grants| ==> !LiveOn(b.grants[j], i);
      }
    } else if !a.subs[i].active {
      assert forall j :: 0 <= j < |b.grants| && b.grants[j].Live() ==> a.grants[j].Live() && b.grants[j] == a.grants[j];
    }
  }

  lemma RevokeKeepsWorth(ps: seq<Purchase>, a: Access, now: Time, k: nat, j: nat)
    requires GrantsRefer(ps, a) && NoNegativeGrant(a) && k < |a.grants| && Worth(ps, a, j)
    ensures Worth(ps, RevokeGrant(a, a, now, k), j)
  {
    if j < |a.grants| {
      forall i | 0 <= i < |a.subs|
        ensures SameRowSeries(a.subs[i], RevokeGrant(a, a, now, k).subs[i])
        ensures RevokeGrant(a, a, now, k).subs[i].startsAt == a.subs[i].startsAt
      {
        RevokeShape(a, now, k, i);
      }
      SameGrantWorth(ps, a, RevokeGrant(a, a, now, k), j);
    }
  }

  /** The refund loop keeps a paid row paid. */
  lemma WithdrawKeepsPaid(ps: seq<Purchase>, a: Access, now: Time, pid: Id, n: nat, i: nat)
    requires Sound(ps, a, now) && n <= |a.grants| && RowPaid(ps, a, i)
    ensures RowPaid(ps, Withdraw(a, now, pid, n), i)
  {
    var p := (b: Access) => RowPaid(ps, b, i);
    forall m | 0 <= m < |a.grants| && p(Withdraw(a, now, pid, m))
      ensures p(Withdraw(a, now, pid, m + 1))
    {
      if a.grants[m].purchase == pid && a.grants[m].Live() {
        WithdrawSound(ps, a, now, pid, m);
        assert GrantsInRange(a);
        WithdrawUnfold(a, now, pid, m);
        RevokeKeepsPaid(ps, Withdraw(a, now, pid, m), now, m, i);
      }
    }
    WithdrawKeeps(p, a, now, pid, 0, n);
  }

  lemma WithdrawKeepsWorth(ps: seq<Purchase>, a: Access, now: Time, pid: Id, n: nat, k: nat)
    requires Sound(ps, a, now) && n <= |a.grants| && Worth(ps, a, k)
    ensures Worth(ps, Withdraw(a, now, pid, n), k)
  {
    var p := (b: Access) => Worth(ps, b, k);
    forall m | 0 <= m < |a.grants| && p(Withdraw(a, now, pid, m))
      ensures p(Withdraw(a, now, pid, m + 1))
    {
      if a.grants[m].purchase == pid && a.grants[m].Live() {
        WithdrawSound(ps, a, now, pid, m);
        assert GrantsInRange(a);
        WithdrawUnfold(a, now, pid, m);
        RevokeKeepsWorth(ps, Withdraw(a, now, pid, m), now, m, k);
      }
    }
    WithdrawKeeps(p, a, now, pid, 0, n);
  }

  lemma WithdrawKeepsOrder(ps: seq<Purchase>, a: Access, now: Time, pid: Id, i: nat, k: nat)
    requires Sound(ps, a, now) && InOrder(ps, a, i, k)
    ensures InOrder(ps, Withdraw(a, now, pid, |a.grants|), i, k)
  {
    var b := Withdraw(a, now, pid, |a.grants|);
    WithdrawKeepsWorth(ps, a, now, pid, |a.grants|, k);
    if i < |b.subs| && !b.subs[i].scholarship && !Endless(b, i) {
      assert forall j :: 0 <= j < |a.grants| ==>
        b.grants[j].target == a.grants[j].target && b.grants[j].grantedExpiresAt == a.grants[j].grantedExpiresAt;
      WithdrawNeverGrants(ps, a, now, pid, |a.grants|, i);
      WithdrawKeepsPaid(ps, a, now, pid, |a.grants|, i);
    }
  }

  // ---------- everything else ----------

  /** Rows depend on a purchase only through what it bought. */
  lemma PurchasesKeepOrder(ps: seq<Purchase>, qs: seq<Purchase>, a: Access, i: nat, k: nat)
    requires InOrder(ps, a, i, k) && |ps| <= |qs| && forall q :: 0 <= q < |ps| ==> qs[q].kind == ps[q].kind
    ensures InOrder(qs, a, i, k)
  {
    if RowPaid(ps, a, i) {
      forall j | 0 <= j < |a.grants| && a.grants[j].target == SubscriptionRow(i)
        ensures GrantWorthPlan(qs, a, j)
      {
        assert GrantWorthPlan(ps, a, j);
      }
    }
  }

  /** A grant without a purchase matters only to the row that it hits, and to none if it is a scholarship. */
  lemma HandGrantKeeps(ps: seq<Purchase>, a: Access, now: Time, r: Request, i: nat, k: nat)
    requires InOrder(ps, a, i, k) && GrantsInRange(a) && (r.scholarship || Hit(a, now, r) != i)
    ensures InOrder(ps, ExtendOrCreate(a, now, r, None), i, k)
  {
    var b := ExtendOrCreate(a, now, r, None);
    ExtendShape(a, now, r, None);
    if i != Hit(a, now, r) && i < |a.subs| {
      SameRowKept(ps, a, b, i);
    }
    if k < |a.grants| {
      SameGrantWorth(ps, a, b, k);
    }
  }

  /** Deactivating a scholarship matters to no paid row. */
  lemma RevokedScholarshipKeeps(ps: seq<Purchase>, a: Access, s: nat, i: nat, k: nat)
    requires InOrder(ps, a, i, k) && GrantsInRange(a) && s < |a.subs| && a.subs[s].scholarship
    ensures InOrder(ps, a.(subs := a.subs[s := a.subs[s].(active := false)]), i, k)
  {
    var b := a.(subs := a.subs[s := a.subs[s].(active := false)]);
    if i != s && i < |a.subs| {
      SameRowKept(ps, a, b, i);
    }
    if k < |a.grants| {
      SameGrantWorth(ps, a, b, k);
    }
  }
}
