/** How one purchase and its referrer fare over whole histories. */
module PurchaseLifecycle {
  import opened Wrappers
  import opened BillingTypes
  import opened Entitlements
  import opened Payments
  import PaymentInvariants
  import opened Scenarios

  // ---------- statuses ----------

  ghost predicate IsFinal(s: Status) {
    s == Rejected || s == Expired || s == Cancelled || s == Refunded
  }

  /** From a to b in any number of transitions. */
  ghost predicate MayBecome(a: Status, b: Status) {
    a == b || (a == Approved && b == Refunded) || (!IsFinal(a) && a != Approved && b != Unpaid)
  }

  lemma StepKeepsDecided(st: Store, step: Step, q: nat)
    requires q < |st.purchases|
    ensures
      var s := Apply(st, step).0;
      && |st.purchases| <= |s.purchases|
      && (IsFinal(st.purchases[q].status) ==> s.purchases[q] == st.purchases[q])
      && s.purchases[q].user == st.purchases[q].user && s.purchases[q].kind == st.purchases[q].kind
      && MayBecome(st.purchases[q].status, s.purchases[q].status)
  {
  }

  /** A rejected, expired, cancelled or refunded purchase is never touched again; an approved one can
      only be refunded; no purchase becomes unpaid again, and none changes its buyer or its content. */
  lemma {:induction false} DecisionsLast(st: Store, steps: seq<Step>, q: nat)
    requires q < |st.purchases|
    ensures
      var s := Run(st, steps);
      && |st.purchases| <= |s.purchases|
      && (IsFinal(st.purchases[q].status) ==> s.purchases[q] == st.purchases[q])
      && s.purchases[q].user == st.purchases[q].user && s.purchases[q].kind == st.purchases[q].kind
      && MayBecome(st.purchases[q].status, s.purchases[q].status)
    decreases |steps|
  {
    if steps != [] {
      StepKeepsDecided(st, steps[0], q);
      DecisionsLast(Apply(st, steps[0]).0, steps[1..], q);
    }
  }

  /** Sending a pending purchase back and handing in the same reference again is a round trip: in a
      sound ledger nobody else can have taken the reference, and only the two audit entries are left. */
  lemma ResubmissionRestores(st: Store, pid: Id, reason: string, reference: string)
    requires PaymentInvariants.ReferencesDistinct(st.purchases)
    requires pid < |st.purchases| && st.purchases[pid].status == Pending && Strip(reason) != ""
    requires Strip(reference) == st.purchases[pid].reference != ""
    ensures
      var asked := RequestResubmission(st, pid, reason).0;
      var (again, outcome) := Submit(asked, pid, reference);
      && asked.purchases[pid].status == ResubmissionRequested && outcome == Accepted
      && again == st.(purchases := st.purchases[pid := st.purchases[pid].(adminNote := "")],
                      audit := st.audit + [AuditEntry(pid, AskedAgain, Pending, ResubmissionRequested),
                                           AuditEntry(pid, Submitted, ResubmissionRequested, Pending)])
  {
    var asked := RequestResubmission(st, pid, reason).0;
    var p := st.purchases[pid];
    assert !ReferenceUsed(asked.purchases, pid, p.reference, true) by {
      forall q | 0 <= q < |asked.purchases| && q != pid && asked.purchases[q].reference == p.reference
        ensures asked.purchases[q].status != Approved && asked.purchases[q].status != Pending
      {
        assert asked.purchases[q] == st.purchases[q];
      }
    }
  }

  // ---------- the referral credit ----------

  ghost predicate Bought(ps: seq<Purchase>, user: Id, status: Status) {
    exists q :: 0 <= q < |ps| && ps[q].user == user && ps[q].status == status
  }

  /** The user has, or had and gave back, an approved purchase. */
  ghost predicate EverBought(ps: seq<Purchase>, user: Id) {
    Bought(ps, user, Approved) || Bought(ps, user, Refunded)
  }

  /** The students a referrer brought in who ever had an approved purchase. */
  ghost function Brought(st: Store, referrer: Id): set<Id> {
    set u | u in st.referredBy && st.referredBy[u] == referrer && EverBought(st.purchases, u)
  }

  /** Every referrer holds one reward for each student brought in who ever had an approved purchase. */
  ghost predicate PaidOnceEach(st: Store) {
    forall r: Id :: Wallet(st.wallets, r) == REWARD * |Brought(st, r)|
  }

  /** The step approves a purchase of a student of r whose approved purchases were all given back. */
  ghost predicate Repeats(st: Store, step: Step, r: Id) {
    && step.DoActivate? && RefusalToActivate(st, step.pid, step.allowUnpaid).None?
    && var u := st.purchases[step.pid].user;
       u in st.referredBy && st.referredBy[u] == r
       && Bought(st.purchases, u, Refunded) && !Bought(st.purchases, u, Approved)
  }

  /** What r holds beyond one reward for each student brought in. */
  ghost function Excess(st: Store, r: Id): int {
    Wallet(st.wallets, r) - REWARD * |Brought(st, r)|
  }

  lemma BoughtElsewhere(ps: seq<Purchase>, pid: Id, p: Purchase, u: Id, status: Status)
    requires pid < |ps| && ps[pid].user != u && p.user != u
    ensures Bought(ps[pid := p], u, status) == Bought(ps, u, status)
  {
    var qs := ps[pid := p];
    if Bought(ps, u, status) {
      var q :| 0 <= q < |ps| && ps[q].user == u && ps[q].status == status;
      assert qs[q] == ps[q];
    }
    if Bought(qs, u, status) {
      var q :| 0 <= q < |qs| && qs[q].user == u && qs[q].status == status;
      assert qs[q] == ps[q];
    }
  }

  /** An approval adds its buyer, and nobody else, to those who ever bought. */
  lemma EverBoughtAfter(ps: seq<Purchase>, pid: Id, p: Purchase, v: Id)
    requires pid < |ps| && p.user == ps[pid].user && p.status == Approved
    ensures EverBought(ps[pid := p], v) <==> EverBought(ps, v) || v == p.user
  {
    var qs := ps[pid := p];
    if v == p.user {
      assert qs[pid].user == v && qs[pid].status == Approved;
    } else {
      BoughtElsewhere(ps, pid, p, v, Approved);
      BoughtElsewhere(ps, pid, p, v, Refunded);
    }
  }

  lemma ApprovalCredit(st: Store, pid: Id, allowUnpaid: bool, r: Id)
    requires RefusalToActivate(st, pid, allowUnpaid).None?
    ensures Excess(Activate(st, pid, allowUnpaid).0, r) ==
      Excess(st, r) + (if Repeats(st, DoActivate(pid, allowUnpaid), r) then REWARD else 0)
  {
    var u, p := st.purchases[pid].user, st.purchases[pid].(status := Approved, decidedAt := Some(st.now));
    UndecidedOtherwise(st.purchases, u, pid);
    CreditAfter(st, Activate(st, pid, allowUnpaid).0, pid, p, r);
  }

  lemma UndecidedOtherwise(ps: seq<Purchase>, u: Id, pid: Id)
    requires pid < |ps| && ps[pid].status != Approved
    ensures HasOtherApproved(ps, u, pid) == Bought(ps, u, Approved)
  {
  }

  lemma CreditAfter(st: Store, s: Store, pid: Id, p: Purchase, r: Id)
    requires pid < |st.purchases| && s.purchases == st.purchases[pid := p] && s.referredBy == st.referredBy
    requires p.user == st.purchases[pid].user && p.status == Approved
    requires s.wallets == RewardReferrer(st, p.user, pid)
    requires HasOtherApproved(st.purchases, p.user, pid) == Bought(st.purchases, p.user, Approved)
    ensures
      var again := p.user in st.referredBy && st.referredBy[p.user] == r
                   && Bought(st.purchases, p.user, Refunded) && !Bought(st.purchases, p.user, Approved);
      Excess(s, r) == Excess(st, r) + (if again then REWARD else 0)
  {
    forall v: Id
      ensures EverBought(s.purchases, v) <==> EverBought(st.purchases, v) || v == p.user
    {
      EverBoughtAfter(st.purchases, pid, p, v);
    }
    EverBoughtIs(st.purchases, p.user);
    if p.user in st.referredBy && st.referredBy[p.user] == r && !EverBought(st.purchases, p.user) {
      assert Brought(s, r) == Brought(st, r) + {p.user} && p.user !in Brought(st, r);
      assert |Brought(s, r)| == |Brought(st, r)| + 1;
    } else {
      assert Brought(s, r) == Brought(st, r);
    }
  }

  lemma EverBoughtIs(ps: seq<Purchase>, u: Id)
    ensures EverBought(ps, u) <==> Bought(ps, u, Approved) || Bought(ps, u, Refunded)
  {
    if EverBought(ps, u) {
      var q :| 0 <= q < |ps| && ps[q].user == u && (ps[q].status == Approved || ps[q].status == Refunded);
      assert Bought(ps, u, ps[q].status);
    }
  }

  /** The same buyers, of whom the same ever had an approved purchase. */
  ghost predicate SameBuyers(ps: seq<Purchase>, qs: seq<Purchase>) {
    && |ps| <= |qs|
    && (forall q :: 0 <= q < |ps| ==>
          qs[q].user == ps[q].user
          && (qs[q].status == Approved || qs[q].status == Refunded <==> ps[q].status == Approved || ps[q].status == Refunded))
    && (forall q :: |ps| <= q < |qs| ==> qs[q].status != Approved && qs[q].status != Refunded)
  }

  lemma SameEverBought(ps: seq<Purchase>, qs: seq<Purchase>, u: Id)
    requires SameBuyers(ps, qs)
    ensures EverBought(qs, u) == EverBought(ps, u)
  {
    if EverBought(ps, u) {
      var q :| 0 <= q < |ps| && ps[q].user == u && (ps[q].status == Approved || ps[q].status == Refunded);
      assert qs[q].user == u;
    }
    if EverBought(qs, u) {
      var q :| 0 <= q < |qs| && qs[q].user == u && (qs[q].status == Approved || qs[q].status == Refunded);
      assert ps[q].user == u;
    }
  }

  lemma OtherStepBuyers(st: Store, step: Step)
    requires !step.DoActivate?
    ensures
      var s := Apply(st, step).0;
      s.wallets == st.wallets && s.referredBy == st.referredBy && SameBuyers(st.purchases, s.purchases)
  {
    match step
    case DoRefund(pid, reason) => RefundBuyers(st, pid, reason);
    case DoSubmit(_, _) => TurnBuyers(st, step);
    case DoReject(_, _) => TurnBuyers(st, step);
    case DoRequestResubmission(_, _) => TurnBuyers(st, step);
    case DoExpire(_) => TurnBuyers(st, step);
    case DoCancel(_) => TurnBuyers(st, step);
    case _ =>
  }

  lemma TurnBuyers(st: Store, step: Step)
    requires step.DoSubmit? || step.DoReject? || step.DoRequestResubmission? || step.DoExpire? || step.DoCancel?
    ensures
      var s := Apply(st, step).0;
      s.wallets == st.wallets && s.referredBy == st.referredBy && SameBuyers(st.purchases, s.purchases)
  {
  }

  lemma RefundBuyers(st: Store, pid: Id, reason: string)
    ensures
      var s := Refund(st, pid, reason).0;
      s.wallets == st.wallets && s.referredBy == st.referredBy && SameBuyers(st.purchases, s.purchases)
  {
  }

  /** Every other step moves neither a wallet nor anyone into or out of those who ever bought. */
  lemma OtherStepCredit(st: Store, step: Step, r: Id)
    requires !step.DoActivate?
    ensures Excess(Apply(st, step).0, r) == Excess(st, r)
  {
    OtherStepBuyers(st, step);
    SameCredit(st, Apply(st, step).0, r);
  }

  lemma SameCredit(st: Store, s: Store, r: Id)
    requires s.wallets == st.wallets && s.referredBy == st.referredBy && SameBuyers(st.purchases, s.purchases)
    ensures Excess(s, r) == Excess(st, r)
  {
    forall u: Id
      ensures EverBought(s.purchases, u) == EverBought(st.purchases, u)
    {
      SameEverBought(st.purchases, s.purchases, u);
    }
    assert Brought(s, r) == Brought(st, r);
  }

  lemma StepCredit(st: Store, step: Step, r: Id)
    ensures Excess(Apply(st, step).0, r) == Excess(st, r) + (if Repeats(st, step, r) then REWARD else 0)
  {
    if step.DoActivate? {
      if RefusalToActivate(st, step.pid, step.allowUnpaid).None? {
        ApprovalCredit(st, step.pid, step.allowUnpaid, r);
      } else {
        assert Apply(st, step).0 == st;
      }
    } else {
      OtherStepCredit(st, step, r);
    }
  }

  /** An approval pays each referrer once for each student, if that was so before, exactly when the
      buyer was not referred, has another approved purchase, or never had one. */
  lemma ApprovalPaysOnceIff(st: Store, pid: Id, allowUnpaid: bool)
    requires PaidOnceEach(st) && Activate(st, pid, allowUnpaid).1.Accepted?
    ensures
      var u := st.purchases[pid].user;
      PaidOnceEach(Activate(st, pid, allowUnpaid).0) <==>
        u !in st.referredBy || Bought(st.purchases, u, Approved) || !Bought(st.purchases, u, Refunded)
  {
    var s := Activate(st, pid, allowUnpaid).0;
    var step := DoActivate(pid, allowUnpaid);
    forall r: Id
      ensures Wallet(s.wallets, r) - REWARD * |Brought(s, r)| == if Repeats(st, step, r) then REWARD else 0
    {
      ApprovalCredit(st, pid, allowUnpaid, r);
      assert Excess(st, r) == 0;
    }
    var u := st.purchases[pid].user;
    if u in st.referredBy && Bought(st.purchases, u, Refunded) && !Bought(st.purchases, u, Approved) {
      assert Repeats(st, step, st.referredBy[u]);
    }
  }

  /** How often a history pays r for a student again. */
  ghost function RepeatCount(st: Store, steps: seq<Step>, r: Id): nat
    decreases |steps|
  {
    if steps == [] then 0
    else (if Repeats(st, steps[0], r) then 1 else 0) + RepeatCount(Apply(st, steps[0]).0, steps[1..], r)
  }

  /** Over any history a referrer gains one reward for each student newly brought in, and one more for
      every approval of a student whose approved purchases were all given back: none is paid for twice
      exactly when there is no such approval. */
  lemma {:induction false} CreditIsExact(st: Store, steps: seq<Step>, r: Id)
    ensures Excess(Run(st, steps), r) == Excess(st, r) + REWARD * RepeatCount(st, steps, r)
    ensures Excess(st, r) == 0 ==> (Excess(Run(st, steps), r) == 0 <==> RepeatCount(st, steps, r) == 0)
    decreases |steps|
  {
    if steps != [] {
      StepCredit(st, steps[0], r);
      CreditIsExact(Apply(st, steps[0]).0, steps[1..], r);
    }
  }

  ghost predicate NoneRefunded(st: Store) {
    forall q :: 0 <= q < |st.purchases| ==> st.purchases[q].status != Refunded
  }

  lemma {:induction false} NoRefundNoRepeat(st: Store, steps: seq<Step>, r: Id)
    requires NoneRefunded(st) && forall k :: 0 <= k < |steps| ==> !steps[k].DoRefund?
    ensures RepeatCount(st, steps, r) == 0
    decreases |steps|
  {
    if steps != [] {
      StepRefundsNone(st, steps[0]);
      NoRefundNoRepeat(Apply(st, steps[0]).0, steps[1..], r);
    }
  }

  lemma StepRefundsNone(st: Store, step: Step)
    requires NoneRefunded(st) && !step.DoRefund?
    ensures NoneRefunded(Apply(st, step).0)
  {
  }

  /** As long as nothing is refunded a referrer is paid exactly once for each referred buyer. */
  lemma ReferrersPaidOnce(st: Store, steps: seq<Step>)
    requires NoneRefunded(st) && PaidOnceEach(st) && forall k :: 0 <= k < |steps| ==> !steps[k].DoRefund?
    ensures PaidOnceEach(Run(st, steps))
  {
    forall r: Id
      ensures Wallet(Run(st, steps).wallets, r) == REWARD * |Brought(Run(st, steps), r)|
    {
      NoRefundNoRepeat(st, steps, r);
      CreditIsExact(st, steps, r);
      assert Excess(st, r) == 0;
    }
  }

  // ---------- a double credit ----------

  ghost function WeekPlan(): Kind {
    SingleSubscription(Plan(1, QBank, 1, Week, None))
  }

  /** A free week ordered and approved, refunded, and ordered and approved once more. */
  ghost function BuyRefundBuy(): seq<Step> {
    [DoOrder(7, WeekPlan(), None, None), DoActivate(0, true), DoRefund(0, "asked"),
     DoOrder(7, WeekPlan(), None, None), DoActivate(1, true)]
  }

  lemma FirstBought(start: Store, steps: seq<Step>) returns (s: Store)
    requires start == Empty().(referredBy := map[7 := 9]) && steps == BuyRefundBuy()
    ensures s == Run(start, steps[..2]) && s.referredBy == start.referredBy && Wallet(s.wallets, 9) == REWARD
    ensures |s.purchases| == 1 && s.purchases[0].user == 7 && s.purchases[0].status == Approved
  {
    OrderPlaced(start, WeekPlan(), None);
    var s1 := GoOn(start, [], start, steps[0]);
    OrderApproved(s1, 0, true);
    s := GoOn(start, [] + [steps[0]], s1, steps[1]);
    assert steps[..2] == [] + [steps[0]] + [steps[1]];
  }

  lemma GivenBack(s: Store, step: Step)
    requires |s.purchases| == 1 && s.purchases[0].user == 7 && s.purchases[0].status == Approved
    requires step.DoRefund? && step.pid == 0 && Strip(step.reason) != ""
    ensures
      var t := Apply(s, step).0;
      && t.wallets == s.wallets && t.referredBy == s.referredBy
      && |t.purchases| == 1 && t.purchases[0].user == 7 && t.purchases[0].status == Refunded
  {
  }

  lemma BoughtAgain(start: Store, steps: seq<Step>) returns (s: Store)
    requires start == Empty().(referredBy := map[7 := 9]) && steps == BuyRefundBuy()
    ensures s == Run(start, steps[..4]) && s.referredBy == start.referredBy && Wallet(s.wallets, 9) == REWARD
    ensures |s.purchases| == 2 && s.purchases[0].user == 7 && s.purchases[0].status == Refunded
    ensures s.purchases[1] == NewOrder(WeekPlan(), None)
  {
    var s2 := FirstBought(start, steps);
    assert Strip("asked") == "asked";
    GivenBack(s2, steps[2]);
    var s3 := GoOn(start, steps[..2], s2, steps[2]);
    OrderPlaced(s3, WeekPlan(), None);
    s := GoOn(start, steps[..2] + [steps[2]], s3, steps[3]);
    assert steps[..4] == steps[..2] + [steps[2]] + [steps[3]];
  }

  /** A student brought in by 9 buys, gives back and buys again: 9 holds two rewards for one student. */
  lemma RefundedBuyerIsPaidForAgain(start: Store, steps: seq<Step>)
    requires start == Empty().(referredBy := map[7 := 9]) && steps == BuyRefundBuy()
    ensures PaidOnceEach(start) && Wallet(Run(start, steps).wallets, 9) == 2 * REWARD
    ensures Brought(Run(start, steps), 9) == {7} && !PaidOnceEach(Run(start, steps))
  {
    var s4 := BoughtAgain(start, steps);
    OrderApproved(s4, 1, true);
    var s5 := GoOn(start, steps[..4], s4, steps[4]);
    assert steps == steps[..4] + [steps[4]];
    assert s5.purchases[1].user == 7 && s5.purchases[1].status == Approved;
    assert Wallet(s5.wallets, 9) == 2 * REWARD;
    OneStudent(start, s5);
  }

  lemma OneStudent(start: Store, s: Store)
    requires start.referredBy == s.referredBy == map[7 := 9] && start.purchases == [] && start.wallets == map[]
    requires Bought(s.purchases, 7, Approved)
    ensures PaidOnceEach(start) && Brought(s, 9) == {7}
    ensures PaidOnceEach(s) ==> Wallet(s.wallets, 9) == REWARD
  {
    forall r: Id
      ensures Brought(start, r) == {}
    {
    }
    assert Brought(s, 9) == {7};
  }
}
