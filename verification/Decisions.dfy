/** When each decision about a purchase is accepted and what it writes, on the columns of the tables, and
    what that means over whole histories. */
module Decisions {
  import opened Wrappers
  import opened BillingTypes
  import opened Entitlements
  import opened Payments
  import opened PaymentInvariants
  import PaymentHistories

  // ---------- text and counts ----------

  ghost predicate Blanks(s: string) {
    forall i :: 0 <= i < |s| ==> IsSpace(s[i])
  }

  /** The piece from i to j, with blanks around it. */
  ghost predicate MiddleOf(s: string, i: nat, j: nat, t: string) {
    i <= j <= |s| && s[i..j] == t && Blanks(s[..i]) && Blanks(s[j..])
  }

  lemma BlanksJoin(a: string, b: string)
    requires Blanks(a) && Blanks(b)
    ensures Blanks(a + b)
  {
  }

  lemma BlankInFront(s: string, i: nat, j: nat, t: string)
    requires s != "" && IsSpace(s[0]) && MiddleOf(s[1..], i, j, t)
    ensures MiddleOf(s, i + 1, j + 1, t)
  {
    var u := s[1..];
    assert s == [s[0]] + u;
    assert s[i + 1..j + 1] == u[i..j];
    assert s[j + 1..] == u[j..];
    assert s[..i + 1] == [s[0]] + u[..i];
    BlanksJoin([s[0]], u[..i]);
  }

  lemma BlankBehind(s: string, i: nat, j: nat, t: string)
    requires s != "" && IsSpace(s[|s| - 1]) && MiddleOf(s[..|s| - 1], i, j, t)
    ensures MiddleOf(s, i, j, t)
  {
    var n := |s| - 1;
    assert s[i..j] == s[..n][i..j] && s[..i] == s[..n][..i];
    assert s[j..] == s[..n][j..] + [s[n]];
    BlanksJoin(s[..n][j..], [s[n]]);
  }

  /** Stripping takes blanks off the two ends and nothing else. */
  lemma {:induction false} StripIsMiddle(s: string) returns (i: nat, j: nat)
    ensures MiddleOf(s, i, j, Strip(s))
  {
    hide MiddleOf;
    if s != "" && IsSpace(s[0]) {
      i, j := StripIsMiddle(s[1..]);
      BlankInFront(s, i, j, Strip(s[1..]));
      i, j := i + 1, j + 1;
    } else if s != "" && IsSpace(s[|s| - 1]) {
      i, j := StripIsMiddle(s[..|s| - 1]);
      BlankBehind(s, i, j, Strip(s[..|s| - 1]));
    } else {
      i, j := 0, |s|;
      WholeIsMiddle(s);
    }
  }

  lemma WholeIsMiddle(s: string)
    ensures MiddleOf(s, 0, |s|, s)
  {
  }

  /** The approved purchases of a user with a coupon, other than one. */
  ghost function Redemptions(ps: seq<Purchase>, user: Id, c: Id, except: Option<Id>): set<nat> {
    set q | 0 <= q < |ps| && ps[q].user == user && ps[q].coupon == Some(c) && ps[q].status == Approved && except != Some(q)
  }

  lemma LastRedemption(ps: seq<Purchase>, user: Id, c: Id, except: Option<Id>)
    requires ps != []
    ensures
      var n := |ps| - 1;
      var fewer := Redemptions(ps[..n], user, c, except);
      n !in fewer
      && Redemptions(ps, user, c, except) == fewer + (if Redeems(ps[n], user, c) && except != Some(n) then {n} else {})
  {
  }

  lemma {:induction false} CountIsRedemptions(ps: seq<Purchase>, user: Id, c: Id, except: Option<Id>)
    ensures CountRedeemed(ps, user, c, except) == |Redemptions(ps, user, c, except)|
  {
    if ps != [] {
      hide Redemptions;
      CountIsRedemptions(ps[..|ps| - 1], user, c, except);
      LastRedemption(ps, user, c, except);
    } else {
      assert Redemptions(ps, user, c, except) == {};
    }
  }

  /** The coupon of the purchase exists and has room under both caps. */
  ghost predicate CouponHasRoom(st: Store, pid: Id)
    requires pid < |st.purchases|
  {
    var p := st.purchases[pid];
    p.coupon.Some? ==>
      && p.coupon.value < |st.coupons|
      && var c := st.coupons[p.coupon.value];
         && (c.maxUses.Some? ==> c.usageCount < c.maxUses.value)
         && (c.maxUsesPerUser != 0 ==> |Redemptions(st.purchases, p.user, p.coupon.value, Some(pid))| < c.maxUsesPerUser)
  }

  /** Nobody else holds the reference, among purchases with one of these statuses. */
  ghost predicate ReferenceFree(ps: seq<Purchase>, pid: Id, reference: string, statuses: set<Status>) {
    forall q :: 0 <= q < |ps| && q != pid && ps[q].status in statuses ==> ps[q].reference != reference
  }

  // ---------- what a decision writes ----------

  /** Purchase pid becomes p, and one audit entry says so; no other purchase, coupon, wallet or access row
      is written. */
  ghost predicate OnlyDecides(st: Store, s: Store, pid: Id, action: Action, p: Purchase)
    requires pid < |st.purchases|
  {
    && s == st.(purchases := s.purchases, audit := s.audit)
    && |s.purchases| == |st.purchases| && s.purchases[pid] == p
    && (forall q :: 0 <= q < |st.purchases| && q != pid ==> s.purchases[q] == st.purchases[q])
    && s.audit == st.audit + [AuditEntry(pid, action, st.purchases[pid].status, p.status)]
  }

  /** A proof of payment is taken for an unpaid order whose window is open, or one sent back, with a
      reference that no other pending or approved purchase carries. */
  lemma SubmitIff(st: Store, pid: Id, raw: string)
    ensures var (s, outcome) := Submit(st, pid, raw);
      && (outcome.Accepted? <==>
            && pid < |st.purchases|
            && var p := st.purchases[pid];
               && (p.status == ResubmissionRequested
                   || (p.status == Unpaid && (p.expiresAt.Some? ==> st.now <= p.expiresAt.value)))
               && Strip(raw) != "" && ReferenceFree(st.purchases, pid, Strip(raw), {Pending, Approved}))
      && (outcome.Accepted? ==>
            OnlyDecides(st, s, pid, Submitted,
              st.purchases[pid].(status := Pending, reference := Strip(raw), adminNote := "")))
      && (!outcome.Accepted? ==> s == st)
  {
  }

  /** An approval is accepted exactly for a purchase whose payment is pending, or an unpaid one where that is
      allowed; whose reference no other approved purchase carries; and whose coupon has room. */
  lemma ActivateIff(st: Store, pid: Id, allowUnpaid: bool)
    ensures Activate(st, pid, allowUnpaid).1.Accepted? <==>
      && pid < |st.purchases|
      && var p := st.purchases[pid];
         && (p.status == Pending || (p.status == Unpaid && allowUnpaid))
         && (p.reference == "" || ReferenceFree(st.purchases, pid, p.reference, {Approved}))
         && CouponHasRoom(st, pid)
    ensures !Activate(st, pid, allowUnpaid).1.Accepted? ==> Activate(st, pid, allowUnpaid).0 == st
  {
    if pid < |st.purchases| && st.purchases[pid].coupon.Some? {
      CountIsRedemptions(st.purchases, st.purchases[pid].user, st.purchases[pid].coupon.value, Some(pid));
    }
  }

  /** What an accepted approval writes besides access rows and the referrer's wallet. */
  lemma ActivateWrites(st: Store, pid: Id, allowUnpaid: bool)
    requires Activate(st, pid, allowUnpaid).1.Accepted?
    ensures var s := Activate(st, pid, allowUnpaid).0; var p := st.purchases[pid];
      && OnlyDecides(st, s.(access := st.access, wallets := st.wallets, coupons := st.coupons), pid, WasApproved,
           p.(status := Approved, decidedAt := Some(st.now)))
      && |s.coupons| == |st.coupons|
      && forall c :: 0 <= c < |st.coupons| ==>
           s.coupons[c] == st.coupons[c].(usageCount := st.coupons[c].usageCount + Bit(p.coupon == Some(c)))
  {
  }

  lemma RejectIff(st: Store, pid: Id, raw: string)
    ensures var (s, outcome) := Reject(st, pid, raw);
      && (outcome.Accepted? <==>
            && Strip(raw) != "" && pid < |st.purchases|
            && st.purchases[pid].status in {Pending, ResubmissionRequested})
      && (outcome.Accepted? ==>
            OnlyDecides(st, s, pid, WasRejected,
              st.purchases[pid].(status := Rejected, adminNote := Strip(raw), decidedAt := Some(st.now))))
      && (!outcome.Accepted? ==> s == st)
  {
  }

  lemma RequestResubmissionIff(st: Store, pid: Id, raw: string)
    ensures var (s, outcome) := RequestResubmission(st, pid, raw);
      && (outcome.Accepted? <==> Strip(raw) != "" && pid < |st.purchases| && st.purchases[pid].status == Pending)
      && (outcome.Accepted? ==>
            OnlyDecides(st, s, pid, AskedAgain,
              st.purchases[pid].(status := ResubmissionRequested, adminNote := Strip(raw))))
      && (!outcome.Accepted? ==> s == st)
  {
  }

  /** Only an unpaid order whose window has closed expires; any other is left alone without complaint. */
  lemma ExpireIff(st: Store, pid: Id)
    ensures var (s, outcome) := Expire(st, pid);
      && (outcome.Accepted? <==> pid < |st.purchases|)
      && (if pid < |st.purchases| && st.purchases[pid].status == Unpaid
             && st.purchases[pid].expiresAt.Some? && st.now > st.purchases[pid].expiresAt.value
          then OnlyDecides(st, s, pid, RanOut, st.purchases[pid].(status := Expired))
          else s == st)
  {
  }

  lemma CancelIff(st: Store, pid: Id)
    ensures var (s, outcome) := Cancel(st, pid);
      && (outcome.Accepted? <==>
            pid < |st.purchases| && st.purchases[pid].status in {Unpaid, ResubmissionRequested})
      && (outcome.Accepted? ==>
            OnlyDecides(st, s, pid, WasCancelled, st.purchases[pid].(status := Cancelled)))
      && (!outcome.Accepted? ==> s == st)
  {
  }

  /** Only an approved purchase is refunded; a refunded one is left as it is. */
  lemma RefundIff(st: Store, pid: Id, raw: string)
    ensures var (s, outcome) := Refund(st, pid, raw);
      && (outcome.Accepted? <==>
            Strip(raw) != "" && pid < |st.purchases| && st.purchases[pid].status in {Approved, Refunded})
      && (if outcome.Accepted? && st.purchases[pid].status == Approved
          then OnlyDecides(st, s.(access := st.access), pid, WasRefunded,
                 st.purchases[pid].(status := Refunded, refundedAt := Some(st.now), refundReason := Strip(raw)))
          else s == st)
  {
  }

  /** An order is taken if its kind can be sold and its coupon exists; it is unpaid, without a reference,
      and its window counts from now. */
  lemma OrderIff(st: Store, user: Id, kind: Kind, coupon: Option<Id>, window: Option<Time>)
    ensures var (s, outcome) := Order(st, user, kind, coupon, window);
      && (outcome.Accepted? <==>
            && (coupon.Some? ==> coupon.value < |st.coupons|)
            && (kind.Combo? ==>
                  (kind.items != [] && forall i, j :: 0 <= i < j < |kind.items| ==> kind.items[i].product != kind.items[j].product))
            && (kind.GrandTestPackage? ==>
                  (kind.tests != [] && forall i, j :: 0 <= i < j < |kind.tests| ==> kind.tests[i] != kind.tests[j])))
      && (outcome.Accepted? ==>
            && s == st.(purchases := s.purchases) && |s.purchases| == |st.purchases| + 1
            && (forall q :: 0 <= q < |st.purchases| ==> s.purchases[q] == st.purchases[q])
            && var p := s.purchases[|st.purchases|];
               && p.user == user && p.kind == kind && p.coupon == coupon && p.status == Unpaid && p.reference == ""
               && p.expiresAt == (if window.Some? then Some(st.now + window.value) else None)
               && p.decidedAt.None? && p.refundedAt.None?)
      && (!outcome.Accepted? ==> s == st)
  {
  }

  // ---------- no approval without a proof ----------

  ghost predicate HasProof(audit: seq<AuditEntry>, pid: Id) {
    exists k :: 0 <= k < |audit| && audit[k].purchase == pid && audit[k].action == Submitted
  }

  /** The step approves the purchase although it is unpaid, which is meant for free orders. */
  ghost predicate WaivesNow(st: Store, step: Step, pid: Id) {
    step == DoActivate(pid, true) && pid < |st.purchases| && st.purchases[pid].status == Unpaid
    && Activate(st, pid, true).1.Accepted?
  }

  ghost predicate Waived(st: Store, steps: seq<Step>, pid: Id)
    decreases |steps|
  {
    steps != [] && (WaivesNow(st, steps[0], pid) || Waived(Apply(st, steps[0]).0, steps[1..], pid))
  }

  /** Beyond the first two ends, every status of a purchase needs a proof or a waiver. */
  ghost predicate ProofKnown(st: Store, pid: Id, waived: bool) {
    pid < |st.purchases| && st.purchases[pid].status in {Pending, ResubmissionRequested, Rejected, Approved, Refunded} ==>
      HasProof(st.audit, pid) || (waived && st.purchases[pid].status in {Approved, Refunded})
  }

  lemma ProofStays(st: Store, s: Store, pid: Id)
    requires st.audit <= s.audit && HasProof(st.audit, pid)
    ensures HasProof(s.audit, pid)
  {
    var k :| 0 <= k < |st.audit| && st.audit[k].purchase == pid && st.audit[k].action == Submitted;
    assert s.audit[k] == st.audit[k];
  }

  lemma DecidedKeepsProof(st: Store, s: Store, pid: Id, q: Id, action: Action, p: Purchase, waived: bool)
    requires q < |st.purchases| && OnlyDecides(st, s, q, action, p) && ProofKnown(st, pid, waived)
    requires action == Submitted || p.status in {Expired, Cancelled}
             || st.purchases[q].status in {Pending, ResubmissionRequested, Rejected}
             || (st.purchases[q].status in {Approved, Refunded} && p.status in {Approved, Refunded})
             || (q == pid ==> waived && p.status == Approved)
    ensures ProofKnown(s, pid, waived)
  {
    if HasProof(st.audit, pid) {
      ProofStays(st, s, pid);
    }
    assert s.audit[|st.audit|] == AuditEntry(q, action, st.purchases[q].status, p.status);
  }

  lemma StepKeepsProof(st: Store, step: Step, pid: Id, waived: bool)
    requires ProofKnown(st, pid, waived)
    requires WaivesNow(st, step, pid) ==> waived
    ensures ProofKnown(Apply(st, step).0, pid, waived)
  {
    match step
    case DoOrder(user, kind, coupon, window) => OrderIff(st, user, kind, coupon, window);
    case DoSubmit(q, raw) =>
      SubmitIff(st, q, raw);
      if Submit(st, q, raw).1.Accepted? {
        DecidedKeepsProof(st, Submit(st, q, raw).0, pid, q, Submitted, Submit(st, q, raw).0.purchases[q], waived);
      }
    case DoActivate(q, allowUnpaid) => ActivateKeepsProof(st, q, allowUnpaid, pid, waived);
    case DoReject(q, raw) =>
      RejectIff(st, q, raw);
      if Reject(st, q, raw).1.Accepted? {
        DecidedKeepsProof(st, Reject(st, q, raw).0, pid, q, WasRejected, Reject(st, q, raw).0.purchases[q], waived);
      }
    case DoRequestResubmission(q, raw) =>
      RequestResubmissionIff(st, q, raw);
      if RequestResubmission(st, q, raw).1.Accepted? {
        var s := RequestResubmission(st, q, raw).0;
        DecidedKeepsProof(st, s, pid, q, AskedAgain, s.purchases[q], waived);
      }
    case DoExpire(q) =>
      ExpireIff(st, q);
      if Expire(st, q).0 != st {
        DecidedKeepsProof(st, Expire(st, q).0, pid, q, RanOut, Expire(st, q).0.purchases[q], waived);
      }
    case DoCancel(q) =>
      CancelIff(st, q);
      if Cancel(st, q).1.Accepted? {
        DecidedKeepsProof(st, Cancel(st, q).0, pid, q, WasCancelled, Cancel(st, q).0.purchases[q], waived);
      }
    case DoRefund(q, raw) => RefundKeepsProof(st, q, raw, pid, waived);
    case DoGrantAccess(_) =>
    case DoRevokeScholarship(_) =>
    case Tick(_) =>
  }

  lemma ActivateKeepsProof(st: Store, q: Id, allowUnpaid: bool, pid: Id, waived: bool)
    requires ProofKnown(st, pid, waived)
    requires WaivesNow(st, DoActivate(q, allowUnpaid), pid) ==> waived
    ensures ProofKnown(Activate(st, q, allowUnpaid).0, pid, waived)
  {
    ActivateIff(st, q, allowUnpaid);
    if Activate(st, q, allowUnpaid).1.Accepted? {
      ActivateWrites(st, q, allowUnpaid);
      var s := Activate(st, q, allowUnpaid).0;
      var t := s.(access := st.access, wallets := st.wallets, coupons := st.coupons);
      DecidedKeepsProof(st, t, pid, q, WasApproved, t.purchases[q], waived);
    }
  }

  lemma RefundKeepsProof(st: Store, q: Id, raw: string, pid: Id, waived: bool)
    requires ProofKnown(st, pid, waived)
    ensures ProofKnown(Refund(st, q, raw).0, pid, waived)
  {
    RefundIff(st, q, raw);
    if Refund(st, q, raw).0 != st {
      var t := Refund(st, q, raw).0.(access := st.access);
      DecidedKeepsProof(st, t, pid, q, WasRefunded, t.purchases[q], waived);
    }
  }

  lemma {:induction false} HistoryKeepsProof(st: Store, steps: seq<Step>, pid: Id, waived: bool)
    requires ProofKnown(st, pid, waived) && (Waived(st, steps, pid) ==> waived)
    ensures ProofKnown(Run(st, steps), pid, waived)
    decreases |steps|
  {
    if steps != [] {
      StepKeepsProof(st, steps[0], pid, waived);
      HistoryKeepsProof(Apply(st, steps[0]).0, steps[1..], pid, waived);
    }
  }

  /** In every history a purchase that is approved, or was and is refunded, has a submitted proof on its audit
      trail, or was approved unpaid by a step that waived it. */
  lemma ApprovedWasPaidOrWaived(st: Store, steps: seq<Step>, pid: Id)
    requires PaymentHistories.Fresh(st) && pid < |Run(st, steps).purchases|
    requires Run(st, steps).purchases[pid].status in {Approved, Refunded}
    ensures HasProof(Run(st, steps).audit, pid) || Waived(st, steps, pid)
  {
    HistoryKeepsProof(st, steps, pid, Waived(st, steps, pid));
  }

  ghost predicate NoneWaived(steps: seq<Step>) {
    forall k :: 0 <= k < |steps| && steps[k].DoActivate? ==> !steps[k].allowUnpaid
  }

  lemma {:induction false} NoneWaivedIsNone(st: Store, steps: seq<Step>, pid: Id)
    requires NoneWaived(steps)
    ensures !Waived(st, steps, pid)
    decreases |steps|
  {
    if steps != [] {
      NoneWaivedIsNone(Apply(st, steps[0]).0, steps[1..], pid);
    }
  }

  /** Where no approval waives the payment, everything approved or refunded was paid for. */
  lemma ApprovedWasPaid(st: Store, steps: seq<Step>, pid: Id)
    requires PaymentHistories.Fresh(st) && NoneWaived(steps) && pid < |Run(st, steps).purchases|
    requires Run(st, steps).purchases[pid].status in {Approved, Refunded}
    ensures HasProof(Run(st, steps).audit, pid)
  {
    ApprovedWasPaidOrWaived(st, steps, pid);
    NoneWaivedIsNone(st, steps, pid);
  }
}
