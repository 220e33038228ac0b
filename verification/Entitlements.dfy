/** What an approved purchase grants and what a refund takes back: the access rows and
    the grant ledger, as functions on values (billing/payment_service.py). */
module Entitlements {
  import opened Wrappers
  import opened BillingTypes

  /** The access tables, the grant ledger and the catalog memberships. */
  datatype Access = Access(
    subs: seq<Subscription>, tests: seq<GrandTestAccess>, courses: seq<Enrollment>,
    grants: seq<Grant>, members: set<(Id, Id)>)

  /** The arguments of one extend-or-create call. */
  datatype Request = Request(
    user: Id, course: Id, product: Product, duration: Time, plan: Option<Plan>, quota: Option<nat>,
    scholarship: bool)

  function PlanRequest(user: Id, plan: Plan): Request {
    Request(user, plan.course, plan.product, plan.Duration(), Some(plan), plan.quota, false)
  }

  predicate SameSeries(s: Subscription, r: Request) {
    s.user == r.user && s.course == r.course && s.product == r.product && s.scholarship == r.scholarship
  }

  /** The newest row, among the first n, that the request would extend. */
  function FindExisting(subs: seq<Subscription>, n: nat, now: Time, r: Request): (found: Option<nat>)
    requires n <= |subs|
    ensures found.Some? ==> found.value < n && SameSeries(subs[found.value], r) && subs[found.value].Covers(now)
    ensures found.None? ==> forall i :: 0 <= i < n && SameSeries(subs[i], r) ==> !subs[i].Covers(now)
  {
    if n == 0 then None
    else if SameSeries(subs[n - 1], r) && subs[n - 1].Covers(now) then Some(n - 1)
    else FindExisting(subs, n - 1, now, r)
  }

  function AddQuota(had: Option<nat>, more: Option<nat>): Option<nat> {
    if more.None? then had else Some((if had.Some? then had.value else 0) + more.value)
  }

  /** Where the new time starts: at the end of what is already paid for, or now. */
  function StartFrom(expiry: Option<Time>, now: Time): Time {
    if expiry.Some? && expiry.value > now then expiry.value else now
  }

  function NewExpiry(start: Time, duration: Time): Option<Time> {
    if duration != 0 then Some(start + duration) else None
  }

  function Recorded(grants: seq<Grant>, recordFor: Option<Id>, target: Target, created: bool,
                    previous: Option<Time>, granted: Option<Time>): seq<Grant>
  {
    if recordFor.None? then grants
    else grants + [Grant(recordFor.value, target, created, previous, granted, None)]
  }

  /** Renews the row the student already holds, or opens a new one. */
  function ExtendOrCreate(a: Access, now: Time, r: Request, recordFor: Option<Id>): Access {
    var found := FindExisting(a.subs, |a.subs|, now, r);
    var members := a.members + {(r.user, r.course)};
    if found.Some? then
      var i := found.value;
      var row := a.subs[i];
      var expiry := NewExpiry(StartFrom(row.expiresAt, now), r.duration);
      var renewed := row.(
        expiresAt := expiry,
        plan := if r.plan.Some? then r.plan else row.plan,
        quota := AddQuota(row.quota, r.quota));
      a.(subs := a.subs[i := renewed], members := members,
         grants := Recorded(a.grants, recordFor, SubscriptionRow(i), false, row.expiresAt, expiry))
    else
      var expiry := NewExpiry(now, r.duration);
      var row := Subscription(
        r.user, r.course, r.product, r.plan, now, expiry, r.quota, true, r.scholarship);
      a.(subs := a.subs + [row], members := members,
         grants := Recorded(a.grants, recordFor, SubscriptionRow(|a.subs|), true, None, expiry))
  }

  /** Every plan of a combo in turn. */
  function ProvideCombo(a: Access, now: Time, pid: Id, user: Id, items: seq<Plan>): Access
    decreases |items|
  {
    if items == [] then a
    else
      var rest := items[..|items| - 1];
      ExtendOrCreate(ProvideCombo(a, now, pid, user, rest), now, PlanRequest(user, items[|items| - 1]), Some(pid))
  }

  /** The single row of a user and a Grand Test, if there is one. */
  function FindAccess(tests: seq<GrandTestAccess>, n: nat, user: Id, test: Id): (found: Option<nat>)
    requires n <= |tests|
    ensures found.Some? ==> found.value < n && tests[found.value].user == user && tests[found.value].test == test
    ensures found.None? ==> forall i :: 0 <= i < n ==> !(tests[i].user == user && tests[i].test == test)
  {
    if n == 0 then None
    else if tests[n - 1].user == user && tests[n - 1].test == test then Some(n - 1)
    else FindAccess(tests, n - 1, user, test)
  }

  /** One Grand Test bought by itself: always re-stamped, always recorded. */
  function ProvideTest(a: Access, now: Time, pid: Id, user: Id, test: Id): Access {
    var found := FindAccess(a.tests, |a.tests|, user, test);
    var i := if found.Some? then found.value else |a.tests|;
    var row := GrandTestAccess(user, test, Some(pid), Some(now), None);
    a.(tests := if found.Some? then a.tests[i := row] else a.tests + [row],
       grants := a.grants + [Grant(pid, AccessRow(i), found.None?, None, None, None)])
  }

  /** One Grand Test of a package: a row that is already valid is left untouched. */
  function ProvidePackageTest(a: Access, now: Time, pid: Id, user: Id, test: Id): Access {
    var found := FindAccess(a.tests, |a.tests|, user, test);
    if found.None? then
      a.(tests := a.tests + [GrandTestAccess(user, test, None, Some(now), None)],
         grants := a.grants + [Grant(pid, AccessRow(|a.tests|), true, None, None, None)])
    else if a.tests[found.value].revokedAt.Some? then
      var i := found.value;
      a.(tests := a.tests[i := a.tests[i].(grantedAt := Some(now), revokedAt := None)],
         grants := a.grants + [Grant(pid, AccessRow(i), false, None, None, None)])
    else a
  }

  function ProvidePackage(a: Access, now: Time, pid: Id, user: Id, tests: seq<Id>): Access
    decreases |tests|
  {
    if tests == [] then a
    else
      ProvidePackageTest(ProvidePackage(a, now, pid, user, tests[..|tests| - 1]), now, pid, user, tests[|tests| - 1])
  }

  function CourseDuration(c: CourseAccess): Option<Time> {
    match c
    case Lifetime => None
    case CustomDays(days) => if days.Some? && days.value != 0 then Some(days.value * DAY) else None
    case Days30 => Some(30 * DAY)
    case Days90 => Some(90 * DAY)
    case Days180 => Some(180 * DAY)
    case OneYear => Some(365 * DAY)
    case UnknownAccess => None
  }

  function FindEnrollment(courses: seq<Enrollment>, n: nat, user: Id, course: Id): (found: Option<nat>)
    requires n <= |courses|
    ensures found.Some? ==> found.value < n && courses[found.value].user == user && courses[found.value].course == course
    ensures found.None? ==> forall i :: 0 <= i < n ==> !(courses[i].user == user && courses[i].course == course)
  {
    if n == 0 then None
    else if courses[n - 1].user == user && courses[n - 1].course == course then Some(n - 1)
    else FindEnrollment(courses, n - 1, user, course)
  }

  /** A teacher's course: the expiry is replaced, never extended. */
  function ProvideCourse(a: Access, now: Time, pid: Id, user: Id, course: Id, access: CourseAccess): Access {
    var duration := CourseDuration(access);
    var expiry := if duration.Some? then Some(now + duration.value) else None;
    var found := FindEnrollment(a.courses, |a.courses|, user, course);
    if found.None? then
      a.(courses := a.courses + [Enrollment(user, course, now, expiry, true)],
         grants := a.grants + [Grant(pid, EnrollmentRow(|a.courses|), true, None, expiry, None)])
    else
      var i := found.value;
      a.(courses := a.courses[i := a.courses[i].(expiresAt := expiry, active := true)],
         grants := a.grants + [Grant(pid, EnrollmentRow(i), false, a.courses[i].expiresAt, expiry, None)])
  }

  /** Everything a purchase of this kind grants. */
  function Provide(a: Access, now: Time, pid: Id, user: Id, kind: Kind): Access {
    match kind
    case SingleSubscription(plan) => ExtendOrCreate(a, now, PlanRequest(user, plan), Some(pid))
    case Combo(items) => ProvideCombo(a, now, pid, user, items)
    case GrandTest(test) => ProvideTest(a, now, pid, user, test)
    case GrandTestPackage(tests) => ProvidePackage(a, now, pid, user, tests)
    case TeacherCourse(course, access) => ProvideCourse(a, now, pid, user, course, access)
  }

  /** The time a grant added to its row; none when it cannot be expressed as time. */
  function Contribution(g: Grant, recordStart: Time): Option<Time> {
    if g.grantedExpiresAt.None? then None
    else
      var baseline := if g.previousExpiresAt.Some? then g.previousExpiresAt.value else recordStart;
      Some(g.grantedExpiresAt.value - baseline)
  }

  datatype Reversal = Deactivate | ReduceTo(expiry: Time) | LeaveUnchanged

  /** The rule shared by the two time-bounded access rows. */
  function ReversalOf(g: Grant, otherLive: bool, expiry: Option<Time>, recordStart: Time): Reversal {
    if !otherLive && g.wasCreated then Deactivate
    else
      var c := Contribution(g, recordStart);
      if c.None? || expiry.None? then LeaveUnchanged else ReduceTo(expiry.value - c.value)
  }

  /** Another unrevoked grant, whoever bought it, points at the same row. */
  predicate OtherLive(grants: seq<Grant>, k: nat)
    requires k < |grants|
  {
    exists j :: 0 <= j < |grants| && j != k && grants[j].Live() && grants[j].target == grants[k].target
  }

  function ReverseSub(row: Subscription, r: Reversal): Subscription {
    match r
    case Deactivate => row.(active := false)
    case ReduceTo(e) => row.(expiresAt := Some(e))
    case LeaveUnchanged => row
  }

  function ReverseEnrollment(row: Enrollment, r: Reversal): Enrollment {
    match r
    case Deactivate => row.(active := false)
    case ReduceTo(e) => row.(expiresAt := Some(e))
    case LeaveUnchanged => row
  }

  predicate InRange(a: Access, t: Target) {
    match t
    case SubscriptionRow(i) => i < |a.subs|
    case AccessRow(i) => i < |a.tests|
    case EnrollmentRow(i) => i < |a.courses|
  }

  predicate GrantsInRange(a: Access) {
    forall k :: 0 <= k < |a.grants| ==> InRange(a, a.grants[k].target)
  }

  predicate SameShape(a: Access, b: Access) {
    |a.subs| == |b.subs| && |a.tests| == |b.tests| && |a.courses| == |b.courses| && |a.grants| == |b.grants|
  }

  /** Undoes grant k.  The row it reads is the copy loaded with the list of grants
      (loaded); what it writes is one column of the current row.  A row that is gone
      leaves nothing to undo. */
  function ReverseGrant(a: Access, loaded: Access, now: Time, k: nat): (b: Access)
    requires SameShape(a, loaded) && k < |a.grants|
    ensures SameShape(a, b) && b.grants == a.grants && b.members == a.members
  {
    var g := a.grants[k];
    if !InRange(a, g.target) then a
    else
      match g.target
      case SubscriptionRow(i) =>
        var r := ReversalOf(g, OtherLive(a.grants, k), loaded.subs[i].expiresAt, loaded.subs[i].startsAt);
        a.(subs := a.subs[i := ReverseSub(a.subs[i], r)])
      case AccessRow(i) =>
        a.(tests := a.tests[i := a.tests[i].(revokedAt := Some(now))])
      case EnrollmentRow(i) =>
        var r := ReversalOf(g, OtherLive(a.grants, k), loaded.courses[i].expiresAt, loaded.courses[i].enrolledAt);
        a.(courses := a.courses[i := ReverseEnrollment(a.courses[i], r)])
  }

  function Stamped(grants: seq<Grant>, k: nat, now: Time): seq<Grant>
    requires k < |grants|
  {
    grants[k := grants[k].(revokedAt := Some(now))]
  }

  /** Undoes grant k and stamps it, so that it is never undone twice. */
  function RevokeGrant(a: Access, loaded: Access, now: Time, k: nat): (b: Access)
    requires SameShape(a, loaded) && k < |a.grants|
    ensures SameShape(a, b) && b.members == a.members && b.grants == Stamped(a.grants, k, now)
  {
    ReverseGrant(a, loaded, now, k).(grants := Stamped(a.grants, k, now))
  }

  /** The refund loop over the first n ledger lines. */
  function Withdraw(a: Access, now: Time, pid: Id, n: nat): (b: Access)
    requires n <= |a.grants|
    ensures SameShape(a, b) && b.members == a.members
    ensures forall k :: 0 <= k < |a.grants| ==>
      b.grants[k] == if k < n && a.grants[k].purchase == pid && a.grants[k].Live()
                     then a.grants[k].(revokedAt := Some(now)) else a.grants[k]
    decreases n
  {
    if n == 0 then a
    else
      var b := Withdraw(a, now, pid, n - 1);
      if a.grants[n - 1].purchase == pid && a.grants[n - 1].Live() then RevokeGrant(b, a, now, n - 1) else b
  }
}
