/** What every history of activations and refunds keeps true of the access tables. */
module EntitlementInvariants {
  import opened Wrappers
  import opened BillingTypes
  import opened Entitlements

  // ---------- how much time the unrevoked grants put on a row ----------

  ghost function GrantTime(g: Grant, start: Time): Time {
    var c := Contribution(g, start);
    if c.Some? then c.value else 0
  }

  ghost predicate LiveOn(g: Grant, i: Id) {
    g.Live() && g.target == SubscriptionRow(i)
  }

  /** The sum of the contributions of the unrevoked grants on subscription i. */
  ghost function LiveTime(grants: seq<Grant>, i: Id, start: Time): Time {
    if grants == [] then 0
    else
      var last := grants[|grants| - 1];
      LiveTime(grants[..|grants| - 1], i, start) + (if LiveOn(last, i) then GrantTime(last, start) else 0)
  }

  lemma LiveTimeAppend(grants: seq<Grant>, g: Grant, i: Id, start: Time)
    ensures LiveTime(grants + [g], i, start) ==
            LiveTime(grants, i, start) + (if LiveOn(g, i) then GrantTime(g, start) else 0)
  {
    assert (grants + [g])[..|grants|] == grants;
  }

  lemma {:induction false} LiveTimeRevoke(grants: seq<Grant>, k: nat, now: Time, i: Id, start: Time)
    requires k < |grants|
    ensures LiveTime(Stamped(grants, k, now), i, start) ==
            LiveTime(grants, i, start) - (if LiveOn(grants[k], i) then GrantTime(grants[k], start) else 0)
  {
    var n := |grants| - 1;
    var after := Stamped(grants, k, now);
    if k == n {
      assert after[..n] == grants[..n];
    } else {
      assert after[..n] == Stamped(grants[..n], k, now);
      LiveTimeRevoke(grants[..n], k, now, i, start);
    }
  }

  lemma {:induction false} LiveTimeNone(grants: seq<Grant>, i: Id, start: Time)
    requires forall k :: 0 <= k < |grants| ==> !LiveOn(grants[k], i)
    ensures LiveTime(grants, i, start) == 0
  {
    if grants != [] {
      LiveTimeNone(grants[..|grants| - 1], i, start);
    }
  }

  /** Two ledgers that agree on what is live agree on the time it adds up to. */
  lemma {:induction false} LiveTimeSame(g1: seq<Grant>, g2: seq<Grant>, i: Id, start: Time)
    requires |g1| == |g2|
    requires forall k :: 0 <= k < |g1| ==>
      LiveOn(g1[k], i) == LiveOn(g2[k], i) && (LiveOn(g1[k], i) ==> GrantTime(g1[k], start) == GrantTime(g2[k], start))
    ensures LiveTime(g1, i, start) == LiveTime(g2, i, start)
  {
    if g1 != [] {
      LiveTimeSame(g1[..|g1| - 1], g2[..|g2| - 1], i, start);
    }
  }

  // ---------- what was bought ----------

  ghost function Plans(kind: Kind): seq<Plan> {
    match kind
    case SingleSubscription(plan) => [plan]
    case Combo(items) => items
    case _ => []
  }

  ghost predicate DistinctPlans(items: seq<Plan>) {
    forall i, j :: 0 <= i < j < |items| ==> items[i].course != items[j].course || items[i].product != items[j].product
  }

  ghost predicate DistinctTests(tests: seq<Id>) {
    forall i, j :: 0 <= i < j < |tests| ==> tests[i] != tests[j]
  }

  /** One plan per product in a combo, one line per test in a package. */
  ghost predicate SoundKind(kind: Kind) {
    DistinctPlans(Plans(kind)) && (kind.GrandTestPackage? ==> DistinctTests(kind.tests))
  }

  ghost predicate Bought(kind: Kind, course: Id, product: Product) {
    exists j :: 0 <= j < |Plans(kind)| && Plans(kind)[j].course == course && Plans(kind)[j].product == product
  }

  ghost predicate BoughtTime(kind: Kind, course: Id, product: Product, time: Time) {
    exists j :: 0 <= j < |Plans(kind)| && Plans(kind)[j].course == course && Plans(kind)[j].product == product
                && Plans(kind)[j].Duration() == time
  }

  // ---------- the invariants ----------

  ghost predicate GrantsRefer(ps: seq<Purchase>, a: Access) {
    forall k :: 0 <= k < |a.grants| ==> a.grants[k].purchase < |ps| && InRange(a, a.grants[k].target)
  }

  /** An unrevoked grant belongs to an approved purchase; a revoked one to an approved or refunded one. */
  ghost predicate GrantsDecided(ps: seq<Purchase>, a: Access)
    requires GrantsRefer(ps, a)
  {
    forall k :: 0 <= k < |a.grants| ==>
      var s := ps[a.grants[k].purchase].status;
      s == Approved || (s == Refunded && !a.grants[k].Live())
  }

  /** No purchase has two grants on the same row. */
  ghost predicate OwnTargets(a: Access) {
    forall j, k :: 0 <= j < k < |a.grants| && a.grants[j].purchase == a.grants[k].purchase ==>
      a.grants[j].target != a.grants[k].target
  }

  ghost predicate OneAccessRow(a: Access) {
    forall i, j :: 0 <= i < j < |a.tests| ==> a.tests[i].user != a.tests[j].user || a.tests[i].test != a.tests[j].test
  }

  ghost predicate HasLiveGrant(grants: seq<Grant>, t: Target) {
    exists k :: 0 <= k < |grants| && grants[k].Live() && grants[k].target == t
  }

  /** A Grand Test that can be entered is backed by an unrevoked grant. */
  ghost predicate AccessBacked(a: Access) {
    forall i :: 0 <= i < |a.tests| && a.tests[i].revokedAt.None? ==> HasLiveGrant(a.grants, AccessRow(i))
  }

  ghost predicate SameRowSeries(s: Subscription, t: Subscription) {
    s.user == t.user && s.course == t.course && s.product == t.product && s.scholarship == t.scholarship
  }

  /** Among the rows of one user, course, product and origin only the newest can cover now. */
  ghost predicate OneCurrent(a: Access, now: Time) {
    forall i, j :: 0 <= i < j < |a.subs| && SameRowSeries(a.subs[i], a.subs[j]) ==> !a.subs[i].Covers(now)
  }

  ghost predicate Started(a: Access, now: Time) {
    forall i :: 0 <= i < |a.subs| ==> a.subs[i].startsAt <= now
  }

  ghost predicate NoNegativeGrant(a: Access) {
    forall k :: 0 <= k < |a.grants| && a.grants[k].target.SubscriptionRow? && a.grants[k].target.sub < |a.subs| ==>
      GrantTime(a.grants[k], a.subs[a.grants[k].target.sub].startsAt) >= 0
  }

  /** A grant on a subscription is for a plan its purchase contains, on a row of its buyer. */
  ghost predicate GrantsMatchOrders(ps: seq<Purchase>, a: Access)
    requires GrantsRefer(ps, a)
  {
    forall k :: 0 <= k < |a.grants| && a.grants[k].target.SubscriptionRow? ==>
      var row := a.subs[a.grants[k].target.sub];
      var p := ps[a.grants[k].purchase];
      row.user == p.user && !row.scholarship && Bought(p.kind, row.course, row.product)
  }

  ghost predicate MembersEnrolled(a: Access) {
    forall i :: 0 <= i < |a.subs| ==> (a.subs[i].user, a.subs[i].course) in a.members
  }

  /** What holds after every history, whatever was bought and granted. */
  ghost predicate Sound(ps: seq<Purchase>, a: Access, now: Time) {
    && GrantsRefer(ps, a) && GrantsDecided(ps, a) && OwnTargets(a)
    && OneAccessRow(a) && AccessBacked(a)
    && OneCurrent(a, now) && Started(a, now) && NoNegativeGrant(a)
    && GrantsMatchOrders(ps, a) && MembersEnrolled(a)
  }

  /** A paid row holds exactly the time its unrevoked grants paid for; a deactivated one has none left. */
  ghost predicate RowConserved(a: Access, i: nat)
    requires i < |a.subs|
  {
    var row := a.subs[i];
    && row.expiresAt.Some?
    && (row.active ==> row.expiresAt.value == row.startsAt + LiveTime(a.grants, i, row.startsAt))
    && (!row.active ==> !HasLiveGrant(a.grants, SubscriptionRow(i)))
  }

  /** A grant on a subscription contributes the duration of the plan that it bought. */
  ghost predicate GrantWorthPlan(ps: seq<Purchase>, a: Access, k: nat)
    requires k < |a.grants| && a.grants[k].purchase < |ps|
    requires a.grants[k].target.SubscriptionRow? && a.grants[k].target.sub < |a.subs|
  {
    var row := a.subs[a.grants[k].target.sub];
    var c := Contribution(a.grants[k], row.startsAt);
    c.Some? && BoughtTime(ps[a.grants[k].purchase].kind, row.course, row.product, c.value)
  }

  /** A grant without an end was recorded on row i: a plan of no duration was approved on it. */
  ghost predicate Endless(a: Access, i: nat) {
    exists k :: 0 <= k < |a.grants| && a.grants[k].target == SubscriptionRow(i) && a.grants[k].grantedExpiresAt.None?
  }

  /** Row i is a paid one that adds up, and each grant on it is worth the plan that it bought. */
  ghost predicate RowPaid(ps: seq<Purchase>, a: Access, i: nat) {
    && i < |a.subs| && !a.subs[i].scholarship && RowConserved(a, i)
    && forall k :: 0 <= k < |a.grants| && a.grants[k].target == SubscriptionRow(i) ==>
         a.grants[k].purchase < |ps| && GrantWorthPlan(ps, a, k)
  }

  /** Row i is a paid one that adds up, unless it is a scholarship, endless or not there yet. */
  ghost predicate Kept(ps: seq<Purchase>, a: Access, i: nat) {
    i < |a.subs| && !a.subs[i].scholarship && !Endless(a, i) ==> RowPaid(ps, a, i)
  }

  /** A grant that neither gave nor extended time without an end. */
  ghost predicate Bounded(g: Grant) {
    g.grantedExpiresAt.Some? && (g.wasCreated || g.previousExpiresAt.Some?)
  }

  /** Grant k, if it is a bounded one on a subscription, is worth a plan that its purchase bought. */
  ghost predicate Worth(ps: seq<Purchase>, a: Access, k: nat) {
    k < |a.grants| && a.grants[k].target.SubscriptionRow? && Bounded(a.grants[k]) ==>
      a.grants[k].purchase < |ps| && a.grants[k].target.sub < |a.subs| && GrantWorthPlan(ps, a, k)
  }
}
