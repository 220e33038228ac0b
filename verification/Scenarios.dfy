/** Concrete histories, one step at a time. */
module Scenarios {
  import opened Wrappers
  import opened BillingTypes
  import opened Entitlements
  import opened Payments

  /** An empty deployment at instant zero. */
  ghost function Empty(): Store {
    Store(0, [], [], map[], map[], Access([], [], [], [], {}), [])
  }

  lemma {:induction false} RunLast(st: Store, steps: seq<Step>, step: Step)
    ensures Run(st, steps + [step]) == Apply(Run(st, steps), step).0
    decreases |steps|
  {
    if steps == [] {
      assert [step][1..] == [];
      assert Run(st, [step]) == Run(Apply(st, step).0, []);
    } else {
      assert (steps + [step])[1..] == steps[1..] + [step];
      RunLast(Apply(st, steps[0]).0, steps[1..], step);
    }
  }

  /** A history that goes on by one step. */
  lemma GoOn(start: Store, steps: seq<Step>, s: Store, step: Step) returns (t: Store)
    requires s == Run(start, steps)
    ensures t == Apply(s, step).0 && t == Run(start, steps + [step])
  {
    RunLast(start, steps, step);
    t := Apply(s, step).0;
  }

  /** What student 7 orders, with or without a payment window. */
  ghost function NewOrder(kind: Kind, until: Option<Time>): Purchase {
    Purchase(7, kind, None, Unpaid, "", until, "", None, None, "")
  }

  lemma OrderPlaced(s: Store, kind: Kind, window: Option<Time>)
    requires Orderable(kind)
    ensures
      var until := if window.Some? then Some(s.now + window.value) else None;
      Apply(s, DoOrder(7, kind, None, window)).0 == s.(purchases := s.purchases + [NewOrder(kind, until)])
  {
  }

  /** An order that is free, or whose proof of payment is in, is approved. */
  lemma OrderApproved(s: Store, pid: Id, free: bool)
    requires pid < |s.purchases| && s.purchases[pid].coupon == None
    requires s.purchases[pid].status == (if free then Unpaid else Pending)
    requires s.purchases[pid].reference == "" || !ReferenceUsed(s.purchases, pid, s.purchases[pid].reference, false)
    ensures
      var t := Apply(s, DoActivate(pid, free)).0;
      && t.access == Provide(s.access, s.now, pid, s.purchases[pid].user, s.purchases[pid].kind)
      && t.now == s.now && t.referredBy == s.referredBy && t.wallets == RewardReferrer(s, s.purchases[pid].user, pid)
      && t.purchases == s.purchases[pid := s.purchases[pid].(status := Approved, decidedAt := Some(s.now))]
  {
  }

  /** Proof of payment comes in within the window, under a reference of its own. */
  lemma ProofSubmitted(s: Store, pid: Id, reference: string)
    requires pid < |s.purchases| && s.purchases[pid].status == Unpaid && !s.purchases[pid].IsExpired(s.now)
    requires Strip(reference) == reference != "" && !ReferenceUsed(s.purchases, pid, reference, true)
    ensures
      var t := Apply(s, DoSubmit(pid, reference)).0;
      && t.purchases == s.purchases[pid := s.purchases[pid].(reference := reference, status := Pending, adminNote := "")]
      && t == s.(purchases := t.purchases, audit := t.audit)
  {
  }
}
