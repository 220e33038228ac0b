/** The rows of the billing tables, as values.  A table is a sequence of rows and a
    primary key is an index into it; instants and durations are whole microseconds. */
module BillingTypes {
  import opened Wrappers

  type Id = nat
  type Time = int

  const DAY: Time := 86_400_000_000

  datatype Product = QBank | DailyTest | MockTest | Video | Pyq

  datatype DurationUnit = Day | Week | Month | Year | OtherUnit

  /** A purchasable plan, with the fields that decide what it grants. */
  datatype Plan = Plan(
    course: Id, product: Product, durationValue: nat, durationUnit: DurationUnit, quota: Option<nat>)
  {
    /** The access time the plan buys.  An unknown unit means thirty days. */
    function Duration(): Time {
      match durationUnit
      case Day => durationValue * DAY
      case Week => durationValue * (7 * DAY)
      case Month => durationValue * (30 * DAY)
      case Year => durationValue * (365 * DAY)
      case OtherUnit => 30 * DAY
    }
  }

  /** How long a teacher's course stays open; only the first two can be without an end. */
  datatype CourseAccess = Lifetime | CustomDays(days: Option<nat>) | Days30 | Days90 | Days180 | OneYear | UnknownAccess

  /** What an order buys. */
  datatype Kind =
    | SingleSubscription(plan: Plan)
    | Combo(items: seq<Plan>)
    | GrandTest(test: Id)
    | GrandTestPackage(tests: seq<Id>)
    | TeacherCourse(course: Id, access: CourseAccess)

  datatype Status =
    Unpaid | Pending | ResubmissionRequested | Approved | Rejected | Expired | Cancelled | Refunded

  datatype Purchase = Purchase(
    user: Id, kind: Kind, coupon: Option<Id>, status: Status, reference: string,
    expiresAt: Option<Time>, adminNote: string, decidedAt: Option<Time>,
    refundedAt: Option<Time>, refundReason: string)
  {
    /** The payment window has closed before any proof was sent. */
    predicate IsExpired(now: Time) {
      expiresAt.Some? && status == Unpaid && now > expiresAt.value
    }
  }

  datatype Subscription = Subscription(
    user: Id, course: Id, product: Product, plan: Option<Plan>, startsAt: Time,
    expiresAt: Option<Time>, quota: Option<nat>, active: bool, scholarship: bool)
  {
    /** The row gives access at this instant (quota aside). */
    predicate Covers(now: Time) {
      active && (expiresAt.None? || expiresAt.value >= now)
    }
  }

  datatype GrandTestAccess = GrandTestAccess(
    user: Id, test: Id, purchase: Option<Id>, grantedAt: Option<Time>, revokedAt: Option<Time>)

  datatype Enrollment = Enrollment(
    user: Id, course: Id, enrolledAt: Time, expiresAt: Option<Time>, active: bool)

  datatype Target = SubscriptionRow(sub: Id) | AccessRow(access: Id) | EnrollmentRow(enrollment: Id)

  /** One reversible ledger line: what one purchase did to one access row. */
  datatype Grant = Grant(
    purchase: Id, target: Target, wasCreated: bool,
    previousExpiresAt: Option<Time>, grantedExpiresAt: Option<Time>, revokedAt: Option<Time>)
  {
    predicate Live() {
      revokedAt.None?
    }
  }

  datatype Coupon = Coupon(maxUses: Option<nat>, maxUsesPerUser: nat, usageCount: nat)

  datatype Action =
    Submitted | WasApproved | WasRejected | AskedAgain | RanOut | WasCancelled | WasRefunded

  datatype AuditEntry = AuditEntry(purchase: Id, action: Action, before: Status, after: Status)
}
