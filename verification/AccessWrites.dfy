/** What one purchase, or one grant by hand, writes into the access tables and the ledger, on their columns. */
module AccessWrites {
  import opened Wrappers
  import opened BillingTypes
  import opened Entitlements
  import opened Payments

  /** The row is for the same student, course and product, of the same origin, and gives access now. */
  ghost predicate Extendable(row: Subscription, now: Time, r: Request) {
    && row.user == r.user && row.course == r.course && row.product == r.product && row.scholarship == r.scholarship
    && row.active && (row.expiresAt.Some? ==> row.expiresAt.value >= now)
  }

  /** The ledger is the old one, with this line if there is a purchase to record it for. */
  ghost predicate Booked(before: seq<Grant>, after: seq<Grant>, recordFor: Option<Id>, target: Target, created: bool,
                         previous: Option<Time>, granted: Option<Time>)
  {
    after == if recordFor.None? then before
             else before + [Grant(recordFor.value, target, created, previous, granted, None)]
  }

  ghost function Plus(had: Option<nat>, more: Option<nat>): Option<nat> {
    match (had, more)
    case (_, None) => had
    case (None, Some(m)) => Some(m)
    case (Some(h), Some(m)) => Some(h + m)
  }

  /** Row i is renewed: its new end is the requested time after its present end, or after now if it has none
      or has run out, and none at all for a request without time; plan and quota follow the request. */
  ghost predicate Renewed(a: Access, b: Access, now: Time, r: Request, recordFor: Option<Id>, i: nat)
    requires i < |a.subs|
  {
    var row := a.subs[i];
    var from := if row.expiresAt.Some? && row.expiresAt.value > now then row.expiresAt.value else now;
    var end := if r.duration == 0 then None else Some(from + r.duration);
    && Extendable(row, now, r)
    && |b.subs| == |a.subs| && (forall j :: 0 <= j < |a.subs| && j != i ==> b.subs[j] == a.subs[j])
    && b.subs[i] == Subscription(row.user, row.course, row.product, if r.plan.Some? then r.plan else row.plan, row.startsAt,
                                 end, Plus(row.quota, r.quota), true, row.scholarship)
    && Booked(a.grants, b.grants, recordFor, SubscriptionRow(i), false, row.expiresAt, end)
  }

  /** A row is opened from now on. */
  ghost predicate Opened(a: Access, b: Access, now: Time, r: Request, recordFor: Option<Id>) {
    var end := if r.duration == 0 then None else Some(now + r.duration);
    && (forall i :: 0 <= i < |a.subs| ==> !Extendable(a.subs[i], now, r))
    && b.subs == a.subs + [Subscription(r.user, r.course, r.product, r.plan, now, end, r.quota, true, r.scholarship)]
    && Booked(a.grants, b.grants, recordFor, SubscriptionRow(|a.subs|), true, None, end)
  }

  /** A request renews a current row of its kind, or opens one if there is none; it enrols the student in the
      course and touches neither Grand Tests nor teachers' courses. */
  lemma ExtendWrites(a: Access, now: Time, r: Request, recordFor: Option<Id>)
    ensures var b := ExtendOrCreate(a, now, r, recordFor);
      && ((exists i :: 0 <= i < |a.subs| && Renewed(a, b, now, r, recordFor, i)) || Opened(a, b, now, r, recordFor))
      && b.members == a.members + {(r.user, r.course)} && b.tests == a.tests && b.courses == a.courses
  {
    var b := ExtendOrCreate(a, now, r, recordFor);
    var found := FindExisting(a.subs, |a.subs|, now, r);
    if found.Some? {
      assert Renewed(a, b, now, r, recordFor, found.value);
    } else {
      assert Opened(a, b, now, r, recordFor);
    }
  }

  /** A grant by an administrator is such a request without a purchase. */
  lemma GrantByHandWrites(st: Store, r: Request)
    ensures var (s, outcome) := GrantAccess(st, r);
      && outcome.Accepted? && s == st.(access := s.access)
      && ((exists i :: 0 <= i < |st.access.subs| && Renewed(st.access, s.access, st.now, r, None, i))
          || Opened(st.access, s.access, st.now, r, None))
  {
    ExtendWrites(st.access, st.now, r, None);
  }

  /** Revoking a scholarship deactivates its row and nothing else. */
  lemma RevokeScholarshipWrites(st: Store, i: Id)
    ensures var (s, outcome) := RevokeScholarship(st, i);
      && (outcome.Accepted? <==> i < |st.access.subs| && st.access.subs[i].scholarship)
      && (if outcome.Accepted? then
            && s == st.(access := st.access.(subs := s.access.subs))
            && |s.access.subs| == |st.access.subs| && s.access.subs[i] == st.access.subs[i].(active := false)
            && forall j :: 0 <= j < |st.access.subs| && j != i ==> s.access.subs[j] == st.access.subs[j]
          else s == st)
  {
  }

  // ---------- Grand Tests ----------

  ghost predicate HasAccessRow(a: Access, user: Id, test: Id, i: nat) {
    i < |a.tests| && a.tests[i].user == user && a.tests[i].test == test
  }

  /** Row i of the Grand Test table, the next one or one that is there, is written, and a grant on it recorded. */
  ghost predicate WritesTest(a: Access, b: Access, pid: Id, i: nat, row: GrandTestAccess) {
    && i <= |a.tests|
    && b == a.(tests := b.tests, grants := a.grants + [Grant(pid, AccessRow(i), i == |a.tests|, None, None, None)])
    && b.tests == if i == |a.tests| then a.tests + [row] else a.tests[i := row]
  }

  /** A Grand Test bought by itself: the student's row, new or not, is stamped with the purchase, opened
      from now on and recorded, whatever it was. */
  lemma TestWrites(a: Access, now: Time, pid: Id, user: Id, test: Id)
    ensures var b := ProvideTest(a, now, pid, user, test);
      exists i: nat :: WritesTest(a, b, pid, i, GrandTestAccess(user, test, Some(pid), Some(now), None))
        && (i < |a.tests| ==> HasAccessRow(a, user, test, i))
        && (i == |a.tests| ==> forall j: nat :: !HasAccessRow(a, user, test, j))
  {
    var b := ProvideTest(a, now, pid, user, test);
    var found := FindAccess(a.tests, |a.tests|, user, test);
    var i := if found.Some? then found.value else |a.tests|;
    assert i < |a.tests| ==> HasAccessRow(a, user, test, i);
    assert WritesTest(a, b, pid, i, GrandTestAccess(user, test, Some(pid), Some(now), None));
  }

  /** A Grand Test of a package: a new row without a stamp, or a revoked one opened again, is recorded; one
      that is open is left as it is, without a grant. */
  lemma PackageTestWrites(a: Access, now: Time, pid: Id, user: Id, test: Id)
    ensures var b := ProvidePackageTest(a, now, pid, user, test);
      || ((forall j: nat :: !HasAccessRow(a, user, test, j))
          && WritesTest(a, b, pid, |a.tests|, GrandTestAccess(user, test, None, Some(now), None)))
      || (exists i: nat :: HasAccessRow(a, user, test, i)
            && if a.tests[i].revokedAt.None? then b == a
               else WritesTest(a, b, pid, i, a.tests[i].(grantedAt := Some(now), revokedAt := None)))
  {
    var found := FindAccess(a.tests, |a.tests|, user, test);
    if found.Some? {
      assert HasAccessRow(a, user, test, found.value);
    }
  }

  // ---------- teachers' courses ----------

  ghost predicate HasEnrollment(a: Access, user: Id, course: Id, i: nat) {
    i < |a.courses| && a.courses[i].user == user && a.courses[i].course == course
  }

  /** A course bought opens an enrollment from now on, or opens the student's own again with a new end,
      and records the end that it had. */
  lemma CourseWrites(a: Access, now: Time, pid: Id, user: Id, course: Id, access: CourseAccess)
    ensures
      var b := ProvideCourse(a, now, pid, user, course, access);
      var end := if CourseDuration(access).Some? then Some(now + CourseDuration(access).value) else None;
      && b == a.(courses := b.courses, grants := b.grants)
      && (|| ((forall j: nat :: !HasEnrollment(a, user, course, j))
              && b.courses == a.courses + [Enrollment(user, course, now, end, true)]
              && b.grants == a.grants + [Grant(pid, EnrollmentRow(|a.courses|), true, None, end, None)])
          || (exists i: nat :: HasEnrollment(a, user, course, i)
                && b.courses == a.courses[i := a.courses[i].(expiresAt := end, active := true)]
                && b.grants == a.grants + [Grant(pid, EnrollmentRow(i), false, a.courses[i].expiresAt, end, None)]))
  {
    var found := FindEnrollment(a.courses, |a.courses|, user, course);
    if found.Some? {
      assert HasEnrollment(a, user, course, found.value);
    }
  }

  /** What a purchase provides, by its kind: one plan, all plans of a combo in order, one Grand Test, all
      Grand Tests of a package in order, or one course; always recorded for the purchase. */
  lemma KindDecides(a: Access, now: Time, pid: Id, user: Id, kind: Kind)
    ensures
      var b := Provide(a, now, pid, user, kind);
      match kind
      case SingleSubscription(plan) => b == ExtendOrCreate(a, now, PlanRequest(user, plan), Some(pid))
      case Combo(items) =>
        if items == [] then b == a
        else
          var n := |items| - 1;
          b == ExtendOrCreate(Provide(a, now, pid, user, Combo(items[..n])), now, PlanRequest(user, items[n]), Some(pid))
      case GrandTest(test) => b == ProvideTest(a, now, pid, user, test)
      case GrandTestPackage(tests) =>
        if tests == [] then b == a
        else
          var n := |tests| - 1;
          b == ProvidePackageTest(Provide(a, now, pid, user, GrandTestPackage(tests[..n])), now, pid, user, tests[n])
      case TeacherCourse(course, access) => b == ProvideCourse(a, now, pid, user, course, access)
  {
  }

  /** The request of a plan asks for its course, product, time and quota, as a paid row. */
  lemma PlanAsks(user: Id, plan: Plan)
    ensures PlanRequest(user, plan) ==
      Request(user, plan.course, plan.product, plan.Duration(), Some(plan), plan.quota, false)
  {
  }
}
