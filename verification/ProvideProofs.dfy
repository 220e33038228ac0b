/** Approving a purchase keeps every entitlement invariant. */
module ProvideProofs {
  import opened Wrappers
  import opened BillingTypes
  import opened Entitlements
  import opened EntitlementInvariants

  /** The purchase may be granted something on target t: it is approved and holds no grant there yet. */
  ghost predicate MayRecord(ps: seq<Purchase>, a: Access, pid: Id, t: Target) {
    && pid < |ps| && ps[pid].status == Approved
    && forall k :: 0 <= k < |a.grants| && a.grants[k].purchase == pid ==> a.grants[k].target != t
  }

  ghost function Hit(a: Access, now: Time, r: Request): Id {
    var found := FindExisting(a.subs, |a.subs|, now, r);
    if found.Some? then found.value else |a.subs|
  }

  /** What one extend-or-create call leaves alone and what it writes. */
  lemma ExtendShape(a: Access, now: Time, r: Request, recordFor: Option<Id>)
    ensures
      var b := ExtendOrCreate(a, now, r, recordFor);
      var h := Hit(a, now, r);
      && b.tests == a.tests && b.courses == a.courses
      && b.members == a.members + {(r.user, r.course)}
      && |a.subs| <= |b.subs| <= |a.subs| + 1 && h < |b.subs|
      && (forall i :: 0 <= i < |a.subs| && i != h ==> b.subs[i] == a.subs[i])
      && SameSeries(b.subs[h], r) && b.subs[h].active
      && (h < |a.subs| ==> a.subs[h].Covers(now) && SameSeries(a.subs[h], r)
                           && b.subs[h].startsAt == a.subs[h].startsAt && |b.subs| == |a.subs|)
      && (h == |a.subs| ==> b.subs[h].startsAt == now && |b.subs| == |a.subs| + 1)
      && (recordFor.None? ==> b.grants == a.grants)
      && (recordFor.Some? ==> exists g ::
            b.grants == a.grants + [g] && g.purchase == recordFor.value && g.target == SubscriptionRow(h)
            && g.Live() && g.wasCreated == (h == |a.subs|) && g.grantedExpiresAt == b.subs[h].expiresAt
            && g.previousExpiresAt == if h < |a.subs| then a.subs[h].expiresAt else None)
  {
    var b := ExtendOrCreate(a, now, r, recordFor);
    if recordFor.Some? {
      var g := b.grants[|a.grants|];
      assert b.grants == a.grants + [g];
    }
  }

  lemma ExtendKeepsOneCurrent(a: Access, now: Time, r: Request, recordFor: Option<Id>)
    requires OneCurrent(a, now)
    ensures OneCurrent(ExtendOrCreate(a, now, r, recordFor), now)
  {
    ExtendShape(a, now, r, recordFor);
    var b := ExtendOrCreate(a, now, r, recordFor);
    var h := Hit(a, now, r);
    forall i, j | 0 <= i < j < |b.subs| && SameRowSeries(b.subs[i], b.subs[j])
      ensures !b.subs[i].Covers(now)
    {
      if i == h {
        assert SameRowSeries(a.subs[i], a.subs[j]);
        assert false;
      } else if j == h && h == |a.subs| {
        assert SameSeries(a.subs[i], r);
      } else {
        assert SameRowSeries(a.subs[i], a.subs[j]);
      }
    }
  }

  /** The new time never starts before what was there: a grant is never worth less than its plan. */
  lemma ExtendWorth(a: Access, now: Time, r: Request, pid: Id)
    requires r.duration >= 0 && Started(a, now)
    ensures
      var b := ExtendOrCreate(a, now, r, Some(pid));
      var h := Hit(a, now, r);
      var g := b.grants[|a.grants|];
      && h < |b.subs| && |b.grants| == |a.grants| + 1
      && GrantTime(g, b.subs[h].startsAt) >= 0
      && (r.duration > 0 && (h < |a.subs| ==> a.subs[h].expiresAt.Some?) ==>
            Contribution(g, b.subs[h].startsAt) == Some(r.duration)
            && b.subs[h].expiresAt == Some((if h < |a.subs| then a.subs[h].expiresAt.value else now) + r.duration))
  {
  }

  lemma ExtendKeepsLedger(ps: seq<Purchase>, a: Access, now: Time, r: Request, pid: Id)
    requires GrantsRefer(ps, a) && GrantsDecided(ps, a) && OwnTargets(a)
    requires MayRecord(ps, a, pid, SubscriptionRow(Hit(a, now, r)))
    ensures
      var b := ExtendOrCreate(a, now, r, Some(pid));
      GrantsRefer(ps, b) && GrantsDecided(ps, b) && OwnTargets(b)
  {
    ExtendShape(a, now, r, Some(pid));
    var b := ExtendOrCreate(a, now, r, Some(pid));
    var h := Hit(a, now, r);
    forall k | 0 <= k < |b.grants|
      ensures b.grants[k].purchase < |ps| && InRange(b, b.grants[k].target)
      ensures ps[b.grants[k].purchase].status == Approved
              || (ps[b.grants[k].purchase].status == Refunded && !b.grants[k].Live())
    {
      if k < |a.grants| {
        assert b.grants[k] == a.grants[k];
      }
    }
    forall j, k | 0 <= j < k < |b.grants| && b.grants[j].purchase == b.grants[k].purchase
      ensures b.grants[j].target != b.grants[k].target
    {
      assert b.grants[j] == a.grants[j];
      if k < |a.grants| {
        assert b.grants[k] == a.grants[k];
      }
    }
  }

  lemma ExtendKeepsTests(a: Access, now: Time, r: Request, recordFor: Option<Id>)
    requires OneAccessRow(a) && AccessBacked(a)
    ensures
      var b := ExtendOrCreate(a, now, r, recordFor);
      OneAccessRow(b) && AccessBacked(b)
  {
    ExtendShape(a, now, r, recordFor);
    MoreGrantsStillBack(a, ExtendOrCreate(a, now, r, recordFor));
  }

  lemma MoreGrantsStillBack(a: Access, b: Access)
    requires AccessBacked(a) && b.tests == a.tests && a.grants <= b.grants
    ensures AccessBacked(b)
  {
    forall i | 0 <= i < |b.tests| && b.tests[i].revokedAt.None?
      ensures HasLiveGrant(b.grants, AccessRow(i))
    {
      var k :| 0 <= k < |a.grants| && a.grants[k].Live() && a.grants[k].target == AccessRow(i);
      assert b.grants[k].Live() && b.grants[k].target == AccessRow(i);
    }
  }

  lemma ExtendKeepsTimeline(a: Access, now: Time, r: Request, pid: Id)
    requires Started(a, now) && NoNegativeGrant(a) && MembersEnrolled(a) && GrantsInRange(a) && r.duration >= 0
    ensures
      var b := ExtendOrCreate(a, now, r, Some(pid));
      Started(b, now) && NoNegativeGrant(b) && MembersEnrolled(b)
  {
    ExtendShape(a, now, r, Some(pid));
    ExtendWorth(a, now, r, pid);
    var b := ExtendOrCreate(a, now, r, Some(pid));
    forall k | 0 <= k < |b.grants| && b.grants[k].target.SubscriptionRow? && b.grants[k].target.sub < |b.subs|
      ensures GrantTime(b.grants[k], b.subs[b.grants[k].target.sub].startsAt) >= 0
    {
      if k < |a.grants| {
        assert b.grants[k] == a.grants[k];
        assert InRange(a, a.grants[k].target);
      }
    }
  }

  lemma ExtendKeepsOrders(ps: seq<Purchase>, a: Access, now: Time, r: Request, pid: Id)
    requires GrantsRefer(ps, a) && GrantsMatchOrders(ps, a)
    requires pid < |ps| && ps[pid].user == r.user && !r.scholarship && Bought(ps[pid].kind, r.course, r.product)
    ensures
      var b := ExtendOrCreate(a, now, r, Some(pid));
      GrantsRefer(ps, b) && GrantsMatchOrders(ps, b)
  {
    ExtendShape(a, now, r, Some(pid));
    var b := ExtendOrCreate(a, now, r, Some(pid));
    forall k | 0 <= k < |b.grants|
      ensures b.grants[k].purchase < |ps| && InRange(b, b.grants[k].target)
      ensures b.grants[k].target.SubscriptionRow? ==>
        var row := b.subs[b.grants[k].target.sub];
        var p := ps[b.grants[k].purchase];
        row.user == p.user && !row.scholarship && Bought(p.kind, row.course, row.product)
    {
      if k < |a.grants| {
        assert b.grants[k] == a.grants[k];
        assert InRange(a, a.grants[k].target);
      }
    }
  }

  /** One plan of an approved purchase keeps the entitlement invariants. */
  lemma ExtendSound(ps: seq<Purchase>, a: Access, now: Time, plan: Plan, pid: Id)
    requires Sound(ps, a, now) && pid < |ps|
    requires Bought(ps[pid].kind, plan.course, plan.product)
    requires MayRecord(ps, a, pid, SubscriptionRow(Hit(a, now, PlanRequest(ps[pid].user, plan))))
    ensures Sound(ps, ExtendOrCreate(a, now, PlanRequest(ps[pid].user, plan), Some(pid)), now)
  {
    var r := PlanRequest(ps[pid].user, plan);
    assert GrantsInRange(a);
    ExtendKeepsLedger(ps, a, now, r, pid);
    ExtendKeepsTests(a, now, r, Some(pid));
    ExtendKeepsOneCurrent(a, now, r, Some(pid));
    ExtendKeepsTimeline(a, now, r, pid);
    ExtendKeepsOrders(ps, a, now, r, pid);
  }

  // ---------- combos ----------

  /** The subscriptions this purchase has been recorded on hold plans from these items. */
  ghost predicate RecordedWithin(a: Access, pid: Id, items: seq<Plan>) {
    forall k :: 0 <= k < |a.grants| && a.grants[k].purchase == pid ==>
      && a.grants[k].target.SubscriptionRow? && a.grants[k].target.sub < |a.subs|
      && exists j :: 0 <= j < |items| && items[j].course == a.subs[a.grants[k].target.sub].course
                     && items[j].product == a.subs[a.grants[k].target.sub].product
  }

  lemma FreshPlanMayRecord(ps: seq<Purchase>, a: Access, now: Time, plan: Plan, pid: Id, items: seq<Plan>)
    requires pid < |ps| && ps[pid].status == Approved && GrantsRefer(ps, a)
    requires RecordedWithin(a, pid, items)
    requires forall j :: 0 <= j < |items| ==> items[j].course != plan.course || items[j].product != plan.product
    ensures MayRecord(ps, a, pid, SubscriptionRow(Hit(a, now, PlanRequest(ps[pid].user, plan))))
  {
    var r := PlanRequest(ps[pid].user, plan);
    ExtendShape(a, now, r, None);
  }

  lemma ExtendRecordsWithin(a: Access, now: Time, user: Id, plan: Plan, pid: Id, items: seq<Plan>)
    requires RecordedWithin(a, pid, items)
    ensures RecordedWithin(ExtendOrCreate(a, now, PlanRequest(user, plan), Some(pid)), pid, items + [plan])
  {
    var r := PlanRequest(user, plan);
    var b := ExtendOrCreate(a, now, r, Some(pid));
    ExtendShape(a, now, r, Some(pid));
    var all := items + [plan];
    forall k | 0 <= k < |b.grants| && b.grants[k].purchase == pid
      ensures b.grants[k].target.SubscriptionRow? && b.grants[k].target.sub < |b.subs|
      ensures exists j :: 0 <= j < |all| && all[j].course == b.subs[b.grants[k].target.sub].course
                          && all[j].product == b.subs[b.grants[k].target.sub].product
    {
      if k < |a.grants| {
        assert b.grants[k] == a.grants[k];
        var i := a.grants[k].target.sub;
        var j :| 0 <= j < |items| && items[j].course == a.subs[i].course && items[j].product == a.subs[i].product;
        assert all[j] == items[j];
      } else {
        assert all[|items|] == plan;
      }
    }
  }

  /** The first n plans of an approved combo. */
  lemma {:induction false} ComboSound(ps: seq<Purchase>, a: Access, now: Time, pid: Id, n: nat)
    requires Sound(ps, a, now) && pid < |ps| && ps[pid].status == Approved
    requires n <= |Plans(ps[pid].kind)| && DistinctPlans(Plans(ps[pid].kind))
    requires forall k :: 0 <= k < |a.grants| ==> a.grants[k].purchase != pid
    ensures
      var b := ProvideCombo(a, now, pid, ps[pid].user, Plans(ps[pid].kind)[..n]);
      Sound(ps, b, now) && RecordedWithin(b, pid, Plans(ps[pid].kind)[..n])
    decreases n
  {
    if n > 0 {
      var items := Plans(ps[pid].kind);
      assert items[..n][..n - 1] == items[..n - 1];
      assert items[..n] == items[..n - 1] + [items[n - 1]];
      ComboSound(ps, a, now, pid, n - 1);
      var b := ProvideCombo(a, now, pid, ps[pid].user, items[..n - 1]);
      var plan := items[n - 1];
      assert Bought(ps[pid].kind, plan.course, plan.product);
      FreshPlanMayRecord(ps, b, now, plan, pid, items[..n - 1]);
      ExtendSound(ps, b, now, plan, pid);
      ExtendRecordsWithin(b, now, ps[pid].user, plan, pid, items[..n - 1]);
    }
  }

  // ---------- Grand Tests and teachers' courses ----------

  /** A step that adds at most one grant and leaves the subscriptions alone. */
  lemma OtherRowSound(ps: seq<Purchase>, a: Access, b: Access, now: Time, g: Grant)
    requires Sound(ps, a, now)
    requires b.subs == a.subs && b.members == a.members && b.grants == a.grants + [g]
    requires |a.tests| <= |b.tests| && |a.courses| <= |b.courses|
    requires !g.target.SubscriptionRow? && InRange(b, g.target) && g.Live()
    requires MayRecord(ps, a, g.purchase, g.target)
    requires OneAccessRow(b)
    requires forall i :: 0 <= i < |b.tests| && b.tests[i].revokedAt.None? ==>
      g.target == AccessRow(i) || (i < |a.tests| && a.tests[i].revokedAt.None?)
    ensures Sound(ps, b, now)
  {
    forall k | 0 <= k < |b.grants|
      ensures b.grants[k].purchase < |ps| && InRange(b, b.grants[k].target)
      ensures ps[b.grants[k].purchase].status == Approved
              || (ps[b.grants[k].purchase].status == Refunded && !b.grants[k].Live())
    {
      if k < |a.grants| {
        assert b.grants[k] == a.grants[k] && InRange(a, a.grants[k].target);
      }
    }
    forall i | 0 <= i < |b.tests| && b.tests[i].revokedAt.None?
      ensures HasLiveGrant(b.grants, AccessRow(i))
    {
      if g.target == AccessRow(i) {
        assert b.grants[|a.grants|] == g;
      } else {
        assert HasLiveGrant(a.grants, AccessRow(i));
        var k :| 0 <= k < |a.grants| && a.grants[k].Live() && a.grants[k].target == AccessRow(i);
        assert b.grants[k].Live() && b.grants[k].target == AccessRow(i);
      }
    }
  }

  lemma TestSound(ps: seq<Purchase>, a: Access, now: Time, pid: Id, user: Id, test: Id)
    requires Sound(ps, a, now) && pid < |ps| && ps[pid].status == Approved
    requires forall k :: 0 <= k < |a.grants| ==> a.grants[k].purchase != pid
    ensures Sound(ps, ProvideTest(a, now, pid, user, test), now)
  {
    var b := ProvideTest(a, now, pid, user, test);
    OtherRowSound(ps, a, b, now, b.grants[|a.grants|]);
  }

  lemma CourseSound(ps: seq<Purchase>, a: Access, now: Time, pid: Id, user: Id, course: Id, access: CourseAccess)
    requires Sound(ps, a, now) && pid < |ps| && ps[pid].status == Approved
    requires forall k :: 0 <= k < |a.grants| ==> a.grants[k].purchase != pid
    ensures Sound(ps, ProvideCourse(a, now, pid, user, course, access), now)
  {
    var b := ProvideCourse(a, now, pid, user, course, access);
    OtherRowSound(ps, a, b, now, b.grants[|a.grants|]);
  }

  /** The Grand Tests this purchase has been recorded on are among these. */
  ghost predicate TestsWithin(a: Access, pid: Id, tests: seq<Id>) {
    forall k :: 0 <= k < |a.grants| && a.grants[k].purchase == pid ==>
      a.grants[k].target.AccessRow? && a.grants[k].target.access < |a.tests| && a.tests[a.grants[k].target.access].test in tests
  }

  lemma PackageTestWithin(a: Access, now: Time, pid: Id, user: Id, tests: seq<Id>, test: Id)
    requires GrantsInRange(a) && TestsWithin(a, pid, tests)
    ensures TestsWithin(ProvidePackageTest(a, now, pid, user, test), pid, tests + [test])
  {
    var b := ProvidePackageTest(a, now, pid, user, test);
    forall k | 0 <= k < |b.grants| && b.grants[k].purchase == pid
      ensures b.grants[k].target.AccessRow? && b.grants[k].target.access < |b.tests|
      ensures b.tests[b.grants[k].target.access].test in tests + [test]
    {
      if k < |a.grants| {
        assert b.grants[k] == a.grants[k];
      }
    }
  }

  lemma PackageTestSound(ps: seq<Purchase>, a: Access, now: Time, pid: Id, user: Id, tests: seq<Id>, test: Id)
    requires Sound(ps, a, now) && pid < |ps| && ps[pid].status == Approved
    requires TestsWithin(a, pid, tests) && test !in tests
    ensures
      var b := ProvidePackageTest(a, now, pid, user, test);
      Sound(ps, b, now) && TestsWithin(b, pid, tests + [test])
  {
    assert GrantsInRange(a);
    PackageTestWithin(a, now, pid, user, tests, test);
    var b := ProvidePackageTest(a, now, pid, user, test);
    if b != a {
      OtherRowSound(ps, a, b, now, b.grants[|a.grants|]);
    }
  }

  lemma {:induction false} PackageSound(ps: seq<Purchase>, a: Access, now: Time, pid: Id, user: Id, tests: seq<Id>)
    requires Sound(ps, a, now) && pid < |ps| && ps[pid].status == Approved && DistinctTests(tests)
    requires forall k :: 0 <= k < |a.grants| ==> a.grants[k].purchase != pid
    ensures
      var b := ProvidePackage(a, now, pid, user, tests);
      Sound(ps, b, now) && TestsWithin(b, pid, tests)
    decreases |tests|
  {
    if tests != [] {
      var rest, test := tests[..|tests| - 1], tests[|tests| - 1];
      PackageSound(ps, a, now, pid, user, rest);
      PackageTestSound(ps, ProvidePackage(a, now, pid, user, rest), now, pid, user, rest, test);
      assert rest + [test] == tests;
    }
  }

  /** Providing what an approved purchase bought keeps every invariant. */
  lemma ProvideSound(ps: seq<Purchase>, a: Access, now: Time, pid: Id)
    requires Sound(ps, a, now) && pid < |ps| && ps[pid].status == Approved && SoundKind(ps[pid].kind)
    requires forall k :: 0 <= k < |a.grants| ==> a.grants[k].purchase != pid
    ensures Sound(ps, Provide(a, now, pid, ps[pid].user, ps[pid].kind), now)
  {
    var p := ps[pid];
    match p.kind
    case SingleSubscription(plan) =>
      var items := Plans(p.kind);
      ComboSound(ps, a, now, pid, 1);
      assert items[..1] == [plan] && [plan][..0] == [];
      assert ProvideCombo(a, now, pid, p.user, [plan]) == Provide(a, now, pid, p.user, p.kind);
    case Combo(items) =>
      ComboSound(ps, a, now, pid, |items|);
      assert items[..|items|] == items;
    case GrandTest(test) => TestSound(ps, a, now, pid, p.user, test);
    case GrandTestPackage(tests) => PackageSound(ps, a, now, pid, p.user, tests);
    case TeacherCourse(course, access) => CourseSound(ps, a, now, pid, p.user, course, access);
  }
}
