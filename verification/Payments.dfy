/** The payment lifecycle as a state machine on values: every transition of
    billing/payment_service.py, the order screen that starts it and the clock. */
module Payments {
  import opened Wrappers
  import opened BillingTypes
  import opened Entitlements

  /** The credit a referrer earns (settings.REFERRAL_REWARD_AMOUNT). */
  const REWARD: int := 100

  datatype Store = Store(
    now: Time, purchases: seq<Purchase>, coupons: seq<Coupon>,
    referredBy: map<Id, Id>, wallets: map<Id, int>, access: Access, audit: seq<AuditEntry>)

  datatype Error =
    | NotFound | NotAwaitingSubmission | WindowExpired | ReferenceRequired | ReferenceTaken
    | AlreadyDecided | ReferenceAlreadyApproved | CouponExhausted | CouponUserLimit
    | ReasonRequired | NotAwaitingVerification | CannotCancel | OnlyApprovedRefunded | BadOrder

  datatype Outcome = Accepted | Refused(error: Error)

  // ---------- text ----------

  /** Text without the blanks at its two ends. */
  function Strip(s: string): (t: string)
    ensures t != "" ==> !IsSpace(t[0]) && !IsSpace(t[|t| - 1])
    ensures t == "" <==> forall i :: 0 <= i < |s| ==> IsSpace(s[i])
  {
    if s == "" then ""
    else if IsSpace(s[0]) then Strip(s[1..])
    else if IsSpace(s[|s| - 1]) then Strip(s[..|s| - 1])
    else s
  }

  // ---------- queries ----------

  /** Another purchase in one of these statuses carries the reference. */
  predicate ReferenceUsed(ps: seq<Purchase>, pid: Id, reference: string, pendingToo: bool) {
    exists q :: 0 <= q < |ps| && q != pid && ps[q].reference == reference
                && (ps[q].status == Approved || (pendingToo && ps[q].status == Pending))
  }

  predicate Redeems(p: Purchase, user: Id, coupon: Id) {
    p.user == user && p.coupon == Some(coupon) && p.status == Approved
  }

  /** How many approved purchases, other than one, a user redeemed a coupon on. */
  function CountRedeemed(ps: seq<Purchase>, user: Id, coupon: Id, except: Option<Id>): nat {
    if ps == [] then 0
    else
      var n := |ps| - 1;
      CountRedeemed(ps[..n], user, coupon, except) + (if Redeems(ps[n], user, coupon) && except != Some(n) then 1 else 0)
  }

  /** The user has another approved purchase. */
  predicate HasOtherApproved(ps: seq<Purchase>, user: Id, except: Id) {
    exists q :: 0 <= q < |ps| && q != except && ps[q].user == user && ps[q].status == Approved
  }

  function Wallet(wallets: map<Id, int>, user: Id): int {
    if user in wallets then wallets[user] else 0
  }

  // ---------- transitions ----------

  function Logged(st: Store, pid: Id, action: Action, p: Purchase): Store
    requires pid < |st.purchases|
  {
    st.(purchases := st.purchases[pid := p],
        audit := st.audit + [AuditEntry(pid, action, st.purchases[pid].status, p.status)])
  }

  function Submit(st: Store, pid: Id, rawReference: string): (Store, Outcome) {
    if pid >= |st.purchases| then (st, Refused(NotFound))
    else
      var p := st.purchases[pid];
      var reference := Strip(rawReference);
      if p.status != Unpaid && p.status != ResubmissionRequested then (st, Refused(NotAwaitingSubmission))
      else if p.status == Unpaid && p.IsExpired(st.now) then (st, Refused(WindowExpired))
      else if reference == "" then (st, Refused(ReferenceRequired))
      else if ReferenceUsed(st.purchases, pid, reference, true) then (st, Refused(ReferenceTaken))
      else (Logged(st, pid, Submitted, p.(reference := reference, status := Pending, adminNote := "")), Accepted)
  }

  /** Whether the coupon, checked under its row lock, still allows one more redemption. */
  function CouponRefusal(st: Store, p: Purchase, pid: Id): Option<Error> {
    if p.coupon.None? then None
    else if p.coupon.value >= |st.coupons| then Some(NotFound)
    else
      var c := st.coupons[p.coupon.value];
      if c.maxUses.Some? && c.usageCount >= c.maxUses.value then Some(CouponExhausted)
      else if c.maxUsesPerUser != 0 && CountRedeemed(st.purchases, p.user, p.coupon.value, Some(pid)) >= c.maxUsesPerUser
      then Some(CouponUserLimit)
      else None
  }

  function RefusalToActivate(st: Store, pid: Id, allowUnpaid: bool): Option<Error> {
    if pid >= |st.purchases| then Some(NotFound)
    else
      var p := st.purchases[pid];
      if p.status != Pending && !(allowUnpaid && p.status == Unpaid) then Some(AlreadyDecided)
      else if p.reference != "" && ReferenceUsed(st.purchases, pid, p.reference, false) then Some(ReferenceAlreadyApproved)
      else CouponRefusal(st, p, pid)
  }

  function CountUse(coupons: seq<Coupon>, coupon: Option<Id>): seq<Coupon>
    requires coupon.Some? ==> coupon.value < |coupons|
  {
    if coupon.None? then coupons
    else coupons[coupon.value := coupons[coupon.value].(usageCount := coupons[coupon.value].usageCount + 1)]
  }

  /** The referrer is credited when no other purchase of this user is approved. */
  function RewardReferrer(st: Store, user: Id, pid: Id): map<Id, int> {
    if user in st.referredBy && !HasOtherApproved(st.purchases, user, pid) then
      var r := st.referredBy[user];
      st.wallets[r := Wallet(st.wallets, r) + REWARD]
    else st.wallets
  }

  function Activate(st: Store, pid: Id, allowUnpaid: bool): (Store, Outcome) {
    var refusal := RefusalToActivate(st, pid, allowUnpaid);
    if refusal.Some? then (st, Refused(refusal.value))
    else
      var p := st.purchases[pid];
      var s := Logged(st, pid, WasApproved, p.(status := Approved, decidedAt := Some(st.now)));
      (s.(access := Provide(st.access, st.now, pid, p.user, p.kind),
          coupons := CountUse(st.coupons, p.coupon),
          wallets := RewardReferrer(st, p.user, pid)), Accepted)
  }

  function Reject(st: Store, pid: Id, rawReason: string): (Store, Outcome) {
    var reason := Strip(rawReason);
    if reason == "" then (st, Refused(ReasonRequired))
    else if pid >= |st.purchases| then (st, Refused(NotFound))
    else
      var p := st.purchases[pid];
      if p.status != Pending && p.status != ResubmissionRequested then (st, Refused(AlreadyDecided))
      else
        (Logged(st, pid, WasRejected, p.(status := Rejected, adminNote := reason, decidedAt := Some(st.now))), Accepted)
  }

  function RequestResubmission(st: Store, pid: Id, rawReason: string): (Store, Outcome) {
    var reason := Strip(rawReason);
    if reason == "" then (st, Refused(ReasonRequired))
    else if pid >= |st.purchases| then (st, Refused(NotFound))
    else
      var p := st.purchases[pid];
      if p.status != Pending then (st, Refused(NotAwaitingVerification))
      else (Logged(st, pid, AskedAgain, p.(status := ResubmissionRequested, adminNote := reason)), Accepted)
  }

  function Expire(st: Store, pid: Id): (Store, Outcome) {
    if pid >= |st.purchases| then (st, Refused(NotFound))
    else
      var p := st.purchases[pid];
      if p.status != Unpaid || !p.IsExpired(st.now) then (st, Accepted)
      else (Logged(st, pid, RanOut, p.(status := Expired)), Accepted)
  }

  function Cancel(st: Store, pid: Id): (Store, Outcome) {
    if pid >= |st.purchases| then (st, Refused(NotFound))
    else
      var p := st.purchases[pid];
      if p.status != Unpaid && p.status != ResubmissionRequested then (st, Refused(CannotCancel))
      else (Logged(st, pid, WasCancelled, p.(status := Cancelled)), Accepted)
  }

  function Refund(st: Store, pid: Id, rawReason: string): (Store, Outcome) {
    var reason := Strip(rawReason);
    if reason == "" then (st, Refused(ReasonRequired))
    else if pid >= |st.purchases| then (st, Refused(NotFound))
    else
      var p := st.purchases[pid];
      if p.status == Refunded then (st, Accepted)
      else if p.status != Approved then (st, Refused(OnlyApprovedRefunded))
      else
        var s := Logged(st, pid, WasRefunded, p.(status := Refunded, refundedAt := Some(st.now), refundReason := reason));
        (s.(access := Withdraw(st.access, st.now, pid, |st.access.grants|)), Accepted)
  }

  // ---------- around the service ----------

  /** The order screens sell one plan per product in a combo and each test once in a package. */
  predicate Orderable(kind: Kind) {
    match kind
    case Combo(items) => items != [] && forall i, j :: 0 <= i < j < |items| ==> items[i].product != items[j].product
    case GrandTestPackage(tests) => tests != [] && forall i, j :: 0 <= i < j < |tests| ==> tests[i] != tests[j]
    case _ => true
  }

  function Order(st: Store, user: Id, kind: Kind, coupon: Option<Id>, window: Option<Time>): (Store, Outcome) {
    if !Orderable(kind) then (st, Refused(BadOrder))
    else if coupon.Some? && coupon.value >= |st.coupons| then (st, Refused(NotFound))
    else
      var expiry := if window.Some? then Some(st.now + window.value) else None;
      (st.(purchases := st.purchases +
           [Purchase(user, kind, coupon, Unpaid, "", expiry, "", None, None, "")]), Accepted)
  }

  /** An administrator's grant: no purchase, no ledger line. */
  function GrantAccess(st: Store, r: Request): (Store, Outcome) {
    (st.(access := ExtendOrCreate(st.access, st.now, r, None)), Accepted)
  }

  function RevokeScholarship(st: Store, i: Id): (Store, Outcome) {
    if i >= |st.access.subs| || !st.access.subs[i].scholarship then (st, Refused(NotFound))
    else (st.(access := st.access.(subs := st.access.subs[i := st.access.subs[i].(active := false)])), Accepted)
  }

  // ---------- histories ----------

  datatype Step =
    | DoOrder(user: Id, kind: Kind, coupon: Option<Id>, window: Option<Time>)
    | DoSubmit(pid: Id, reference: string)
    | DoActivate(pid: Id, allowUnpaid: bool)
    | DoReject(pid: Id, reason: string)
    | DoRequestResubmission(pid: Id, reason: string)
    | DoExpire(pid: Id)
    | DoCancel(pid: Id)
    | DoRefund(pid: Id, reason: string)
    | DoGrantAccess(request: Request)
    | DoRevokeScholarship(sub: Id)
    | Tick(elapsed: nat)

  function Apply(st: Store, step: Step): (Store, Outcome) {
    match step
    case DoOrder(user, kind, coupon, window) => Order(st, user, kind, coupon, window)
    case DoSubmit(pid, reference) => Submit(st, pid, reference)
    case DoActivate(pid, allowUnpaid) => Activate(st, pid, allowUnpaid)
    case DoReject(pid, reason) => Reject(st, pid, reason)
    case DoRequestResubmission(pid, reason) => RequestResubmission(st, pid, reason)
    case DoExpire(pid) => Expire(st, pid)
    case DoCancel(pid) => Cancel(st, pid)
    case DoRefund(pid, reason) => Refund(st, pid, reason)
    case DoGrantAccess(r) => GrantAccess(st, r)
    case DoRevokeScholarship(i) => RevokeScholarship(st, i)
    case Tick(elapsed) => (st.(now := st.now + elapsed), Accepted)
  }

  /** The state after a history. */
  function Run(st: Store, steps: seq<Step>): Store
    decreases |steps|
  {
    if steps == [] then st else Run(Apply(st, steps[0]).0, steps[1..])
  }
}
