/** Approvals of many purchases at once, interleaved at the locks they take: each holds its own
    purchase row from the first check to its commit, and its coupon row from the cap check on. */
module CouponRace {
  import opened Wrappers
  import opened BillingTypes
  import opened Payments
  import opened PaymentInvariants
  import Decisions

  /** Where one approval stands.  PassedCaps means that it holds the coupon row and passed both checks. */
  datatype Phase = Idle | HoldsPurchase(pid: Id) | PassedCaps(pid: Id)

  datatype World = World(purchases: seq<Purchase>, coupons: seq<Coupon>, workers: seq<Phase>)

  predicate Holding(p: Phase, pid: Id) {
    (p.HoldsPurchase? || p.PassedCaps?) && p.pid == pid
  }

  predicate PurchaseFree(s: World, pid: Id) {
    forall w :: 0 <= w < |s.workers| ==> !Holding(s.workers[w], pid)
  }

  predicate HoldsCoupon(s: World, w: nat, c: Id)
    requires w < |s.workers|
  {
    s.workers[w].PassedCaps? && s.workers[w].pid < |s.purchases| && s.purchases[s.workers[w].pid].coupon == Some(c)
  }

  predicate CouponFree(s: World, c: Id) {
    forall w :: 0 <= w < |s.workers| ==> !HoldsCoupon(s, w, c)
  }

  datatype Event =
    | Start(worker: nat, pid: Id, allowUnpaid: bool)
    | TakeCoupon(worker: nat)
    | Commit(worker: nat)
    | Abort(worker: nat)
    | Refunds(pid: Id)
    | Submits(pid: Id)
    | Turns(pid: Id, after: Status)
    | Orders(user: Id, coupon: Option<Id>)

  /** The statuses that an approval starts from; a free order is approved unpaid, by the request that
      creates it. */
  predicate Approvable(status: Status, allowUnpaid: bool) {
    status == Pending || (allowUnpaid && status == Unpaid)
  }

  /** The ends other than an approval or a refund: rejected, sent back, expired or cancelled. */
  predicate TurnsInto(before: Status, after: Status) {
    match after
    case Rejected => before == Pending || before == ResubmissionRequested
    case ResubmissionRequested => before == Pending
    case Expired => before == Unpaid
    case Cancelled => before == Unpaid || before == ResubmissionRequested
    case _ => false
  }

  predicate CapsAllow(s: World, pid: Id, c: Id)
    requires pid < |s.purchases| && c < |s.coupons|
  {
    && (s.coupons[c].maxUses.Some? ==> s.coupons[c].usageCount < s.coupons[c].maxUses.value)
    && (s.coupons[c].maxUsesPerUser != 0 ==>
          CountRedeemed(s.purchases, s.purchases[pid].user, c, Some(pid)) < s.coupons[c].maxUsesPerUser)
  }

  /** One event.  An event that is not enabled, because a lock is taken or a guard fails, changes
      nothing.  With locking false the coupon row is read without its lock. */
  function Next(s: World, e: Event, locking: bool): World {
    match e
    case Start(w, pid, allowUnpaid) =>
      if w < |s.workers| && s.workers[w].Idle? && pid < |s.purchases| && PurchaseFree(s, pid)
         && Approvable(s.purchases[pid].status, allowUnpaid)
      then s.(workers := s.workers[w := HoldsPurchase(pid)]) else s
    case TakeCoupon(w) =>
      if w < |s.workers| && s.workers[w].HoldsPurchase? && s.workers[w].pid < |s.purchases| then
        var pid := s.workers[w].pid;
        var c := s.purchases[pid].coupon;
        if c.None? || c.value >= |s.coupons| || (locking && !CouponFree(s, c.value)) then s
        else if CapsAllow(s, pid, c.value) then s.(workers := s.workers[w := PassedCaps(pid)])
        else s.(workers := s.workers[w := Idle])
      else s
    case Commit(w) =>
      if w >= |s.workers| || s.workers[w].Idle? || s.workers[w].pid >= |s.purchases| then s
      else
        var pid := s.workers[w].pid;
        var p := s.purchases[pid];
        if s.workers[w].HoldsPurchase? && p.coupon.Some? then s
        else if p.coupon.Some? && p.coupon.value >= |s.coupons| then s
        else World(s.purchases[pid := p.(status := Approved)], CountUse(s.coupons, p.coupon), s.workers[w := Idle])
    case Abort(w) =>
      if w < |s.workers| then s.(workers := s.workers[w := Idle]) else s
    case Refunds(pid) =>
      if pid < |s.purchases| && PurchaseFree(s, pid) && s.purchases[pid].status == Approved
      then s.(purchases := s.purchases[pid := s.purchases[pid].(status := Refunded)]) else s
    case Submits(pid) =>
      if pid < |s.purchases| && PurchaseFree(s, pid)
         && (s.purchases[pid].status == Unpaid || s.purchases[pid].status == ResubmissionRequested)
      then s.(purchases := s.purchases[pid := s.purchases[pid].(status := Pending)]) else s
    case Turns(pid, after) =>
      if pid < |s.purchases| && PurchaseFree(s, pid) && TurnsInto(s.purchases[pid].status, after)
      then s.(purchases := s.purchases[pid := s.purchases[pid].(status := after)]) else s
    case Orders(user, coupon) =>
      s.(purchases := s.purchases + [Purchase(user, GrandTest(0), coupon, Unpaid, "", None, "", None, None, "")])
  }

  function RunEvents(s: World, events: seq<Event>, locking: bool): World
    decreases |events|
  {
    if events == [] then s else RunEvents(Next(s, events[0], locking), events[1..], locking)
  }

  // ---------- the invariant ----------

  /** No two approvals hold the same purchase, and a held purchase is still awaiting its decision. */
  ghost predicate PurchasesHeldOnce(s: World) {
    && (forall w :: 0 <= w < |s.workers| && !s.workers[w].Idle? ==>
          s.workers[w].pid < |s.purchases| && Approvable(s.purchases[s.workers[w].pid].status, true))
    && (forall v, w :: 0 <= v < w < |s.workers| && !s.workers[v].Idle? && !s.workers[w].Idle? ==>
          s.workers[v].pid != s.workers[w].pid)
  }

  /** For an approval past the cap checks both caps still have room. */
  ghost predicate Reserved(s: World, w: nat)
    requires w < |s.workers|
  {
    s.workers[w].PassedCaps? ==>
      var pid := s.workers[w].pid;
      && pid < |s.purchases| && s.purchases[pid].coupon.Some?
      && var c := s.purchases[pid].coupon.value;
         && c < |s.coupons|
         && (s.coupons[c].maxUses.Some? ==> s.coupons[c].usageCount < s.coupons[c].maxUses.value)
         && (s.coupons[c].maxUsesPerUser != 0 ==>
               CountRedeemed(s.purchases, s.purchases[pid].user, c, None) < s.coupons[c].maxUsesPerUser)
  }

  /** No two approvals hold the same coupon. */
  ghost predicate CouponsHeldOnce(s: World)
    requires PurchasesHeldOnce(s)
  {
    forall v, w :: 0 <= v < w < |s.workers| && s.workers[v].PassedCaps? && s.workers[w].PassedCaps? ==>
      s.purchases[s.workers[v].pid].coupon != s.purchases[s.workers[w].pid].coupon
  }

  ghost predicate RaceSound(s: World) {
    && PurchasesHeldOnce(s) && CouponsHeldOnce(s)
    && CouponsSound(s.purchases, s.coupons)
    && forall w :: 0 <= w < |s.workers| ==> Reserved(s, w)
  }

  lemma TakeCouponSound(s: World, w: nat)
    requires RaceSound(s)
    ensures RaceSound(Next(s, TakeCoupon(w), true))
  {
    var t := Next(s, TakeCoupon(w), true);
    if t != s {
      var pid := s.workers[w].pid;
      var c := s.purchases[pid].coupon.value;
      CountRedeemedExcept(s.purchases, s.purchases[pid].user, c, pid);
      forall v | 0 <= v < |t.workers|
        ensures Reserved(t, v)
        ensures v != w && t.workers[v].PassedCaps? ==> t.purchases[t.workers[v].pid].coupon != Some(c)
      {
        assert Reserved(s, v);
        assert !HoldsCoupon(s, v, c);
      }
    }
  }

  lemma CommitKeepsCoupons(s: World, w: nat)
    requires RaceSound(s) && w < |s.workers| && Next(s, Commit(w), true) != s
    ensures
      var t := Next(s, Commit(w), true);
      CouponsSound(t.purchases, t.coupons)
  {
    var pid := s.workers[w].pid;
    var p := s.purchases[pid];
    assert Reserved(s, w);
    var qs := s.purchases[pid := p.(status := Approved)];
    var after := CountUse(s.coupons, p.coupon);
    forall c | 0 <= c < |after|
      ensures CouponSound(qs, after, c)
    {
      assert CouponSound(s.purchases, s.coupons, c);
      CountUsedUpdate(s.purchases, pid, p.(status := Approved), c);
      forall u: Id
        ensures CountRedeemed(qs, u, c, None) ==
                CountRedeemed(s.purchases, u, c, None) + Bit(Redeems(p.(status := Approved), u, c))
      {
        CountRedeemedUpdate(s.purchases, pid, p.(status := Approved), u, c);
      }
    }
  }

  lemma CommitSound(s: World, w: nat)
    requires RaceSound(s)
    ensures RaceSound(Next(s, Commit(w), true))
  {
    var t := Next(s, Commit(w), true);
    if t != s {
      CommitKeepsCoupons(s, w);
      var pid := s.workers[w].pid;
      var p := s.purchases[pid];
      forall v | 0 <= v < |t.workers|
        ensures Reserved(t, v)
      {
        assert Reserved(s, v) && Reserved(s, w);
        if t.workers[v].PassedCaps? {
          var c := s.purchases[s.workers[v].pid].coupon.value;
          assert s.workers[w].PassedCaps? ==> p.coupon != Some(c);
          CountRedeemedUpdate(s.purchases, pid, p.(status := Approved), s.purchases[s.workers[v].pid].user, c);
        }
      }
    }
  }

  /** A transition of a purchase nobody holds, which redeems nothing, leaves every reservation valid. */
  lemma FreePurchaseMoves(s: World, pid: Id, p: Purchase)
    requires RaceSound(s) && pid < |s.purchases| && PurchaseFree(s, pid)
    requires p.coupon == s.purchases[pid].coupon && p.user == s.purchases[pid].user && p.status != Approved
    requires (p.status == Refunded) == (s.purchases[pid].status == Approved || s.purchases[pid].status == Refunded)
    ensures RaceSound(s.(purchases := s.purchases[pid := p]))
  {
    var t := s.(purchases := s.purchases[pid := p]);
    CouponsKept(s.purchases, s.coupons, pid, p);
    forall v | 0 <= v < |t.workers|
      ensures Reserved(t, v)
    {
      assert Reserved(s, v);
      if t.workers[v].PassedCaps? {
        var c := s.purchases[s.workers[v].pid].coupon.value;
        CountRedeemedUpdate(s.purchases, pid, p, s.purchases[s.workers[v].pid].user, c);
      }
    }
    forall w | 0 <= w < |t.workers| && !t.workers[w].Idle?
      ensures t.workers[w].pid < |t.purchases| && Approvable(t.purchases[t.workers[w].pid].status, true)
    {
      assert !Holding(s.workers[w], pid);
    }
  }

  lemma OrdersSound(s: World, user: Id, coupon: Option<Id>)
    requires RaceSound(s)
    ensures RaceSound(Next(s, Orders(user, coupon), true))
  {
    var t := Next(s, Orders(user, coupon), true);
    var p := t.purchases[|s.purchases|];
    CouponsNewOrder(s.purchases, s.coupons, p);
    assert t.purchases[..|s.purchases|] == s.purchases;
    forall v | 0 <= v < |t.workers|
      ensures Reserved(t, v)
    {
      assert Reserved(s, v);
    }
  }

  lemma NextSound(s: World, e: Event)
    requires RaceSound(s)
    ensures RaceSound(Next(s, e, true))
  {
    match e
    case TakeCoupon(w) => TakeCouponSound(s, w);
    case Commit(w) => CommitSound(s, w);
    case Refunds(pid) =>
      if Next(s, e, true) != s {
        FreePurchaseMoves(s, pid, s.purchases[pid].(status := Refunded));
      }
    case Submits(pid) =>
      if Next(s, e, true) != s {
        FreePurchaseMoves(s, pid, s.purchases[pid].(status := Pending));
      }
    case Turns(pid, after) =>
      if Next(s, e, true) != s {
        FreePurchaseMoves(s, pid, s.purchases[pid].(status := after));
      }
    case Orders(user, coupon) => OrdersSound(s, user, coupon);
    case Start(w, pid, allowUnpaid) => WorkerMoves(s, Next(s, e, true), w);
    case Abort(w) => WorkerMoves(s, Next(s, e, true), w);
  }

  lemma WorkerMoves(s: World, t: World, w: nat)
    requires RaceSound(s) && t.purchases == s.purchases && t.coupons == s.coupons && |t.workers| == |s.workers|
    requires forall v :: 0 <= v < |s.workers| && v != w ==> t.workers[v] == s.workers[v]
    requires w < |s.workers| ==> t.workers[w] == s.workers[w] || !t.workers[w].PassedCaps?
    requires PurchasesHeldOnce(t) && CouponsHeldOnce(t)
    ensures RaceSound(t)
  {
    forall v | 0 <= v < |t.workers|
      ensures Reserved(t, v)
    {
      assert Reserved(s, v);
    }
  }

  // ---------- the theorem and why the lock is needed ----------

  ghost predicate Quiet(s: World) {
    && (forall w :: 0 <= w < |s.workers| ==> s.workers[w].Idle?)
    && s.purchases == []
    && (forall c :: 0 <= c < |s.coupons| ==> s.coupons[c].usageCount == 0)
  }

  /** However approvals of pending and of free orders, refunds, submissions, rejections, requests for new
      proof, expiries, cancellations and crashes interleave, every coupon counts exactly its
      approved and refunded purchases, within its cap, and no user exceeds the cap per user. */
  lemma {:induction false} CapsHoldUnderRaces(s: World, events: seq<Event>)
    requires RaceSound(s)
    ensures RaceSound(RunEvents(s, events, true))
    decreases |events|
  {
    if events != [] {
      NextSound(s, events[0]);
      CapsHoldUnderRaces(Next(s, events[0], true), events[1..]);
    }
  }

  lemma CapsHold(s: World, events: seq<Event>, c: Id)
    requires Quiet(s) && c < |s.coupons|
    ensures
      var t := RunEvents(s, events, true);
      c < |t.coupons| && CouponSound(t.purchases, t.coupons, c)
  {
    CapsHoldUnderRaces(s, events);
    CouponsStay(s, events, true);
  }

  lemma {:induction false} CouponsStay(s: World, events: seq<Event>, locking: bool)
    ensures |RunEvents(s, events, locking).coupons| == |s.coupons|
    decreases |events|
  {
    if events != [] {
      CouponsStay(Next(s, events[0], locking), events[1..], locking);
    }
  }

  ghost function OneUseCoupon(): World {
    var order := Purchase(1, GrandTest(0), Some(0), Unpaid, "", None, "", None, None, "");
    World([order, order.(user := 2)], [Coupon(Some(1), 1, 0)], [Idle, Idle])
  }

  lemma OneUseCouponSound(s: World)
    requires s == OneUseCoupon()
    ensures RaceSound(s)
  {
    assert CountUsed(s.purchases[..1], 0) == 0;
    forall u: Id, o: Option<Id>
      ensures CountRedeemed(s.purchases, u, 0, o) == 0
    {
      assert CountRedeemed(s.purchases[..1], u, 0, o) == 0;
    }
    assert CouponSound(s.purchases, s.coupons, 0);
  }

  lemma BothPassTheCheck(s: World) returns (t: World)
    requires s == OneUseCoupon()
    ensures t == Next(Next(Next(Next(s, Start(0, 0, true), false), Start(1, 1, true), false), TakeCoupon(0), false), TakeCoupon(1), false)
    ensures t == s.(workers := [PassedCaps(0), PassedCaps(1)])
  {
    var s1 := Next(s, Start(0, 0, true), false);
    assert s1 == s.(workers := [HoldsPurchase(0), Idle]);
    var s2 := Next(s1, Start(1, 1, true), false);
    assert s2 == s.(workers := [HoldsPurchase(0), HoldsPurchase(1)]);
    CapsOpen(s2, 0);
    var s3 := Next(s2, TakeCoupon(0), false);
    assert s3 == s.(workers := [PassedCaps(0), HoldsPurchase(1)]);
    CapsOpen(s3, 1);
    t := Next(s3, TakeCoupon(1), false);
  }

  lemma CapsOpen(s: World, pid: Id)
    requires s.purchases == OneUseCoupon().purchases && s.coupons == OneUseCoupon().coupons && pid < 2
    ensures CapsAllow(s, pid, 0)
  {
    assert CountRedeemed(s.purchases[..1], s.purchases[pid].user, 0, Some(pid)) == 0;
  }

  /** Without the lock on the coupon row two free orders, approved by the requests that create them, both
      pass the check of a one-use coupon. */
  lemma WithoutLockCapBreaks(s: World)
    requires s == OneUseCoupon()
    ensures RaceSound(s)
    ensures
      var t := Next(Next(Next(Next(s, Start(0, 0, true), false), Start(1, 1, true), false), TakeCoupon(0), false), TakeCoupon(1), false);
      Next(Next(t, Commit(0), false), Commit(1), false).coupons == [Coupon(Some(1), 1, 2)]
  {
    OneUseCouponSound(s);
    var t := BothPassTheCheck(s);
    assert Next(t, Commit(0), false).coupons == [Coupon(Some(1), 1, 1)];
  }

  // ---------- what gets through ----------

  /** The coupon of the purchase, if any, exists and has room under both caps. */
  ghost predicate HasRoom(s: World, pid: Id)
    requires pid < |s.purchases|
  {
    var p := s.purchases[pid];
    p.coupon.Some? ==>
      && p.coupon.value < |s.coupons|
      && var c := s.coupons[p.coupon.value];
         && (c.maxUses.Some? ==> c.usageCount < c.maxUses.value)
         && (c.maxUsesPerUser != 0 ==>
               |Decisions.Redemptions(s.purchases, p.user, p.coupon.value, Some(pid))| < c.maxUsesPerUser)
  }

  /** No other approval is at work on the purchase or past the cap check of its coupon. */
  ghost predicate Unrivalled(s: World, pid: Id)
    requires pid < |s.purchases|
  {
    forall v :: 0 <= v < |s.workers| ==>
      match s.workers[v]
      case Idle => true
      case HoldsPurchase(q) => q != pid
      case PassedCaps(q) =>
        q != pid && (q < |s.purchases| && s.purchases[pid].coupon.Some? ==> s.purchases[q].coupon != s.purchases[pid].coupon)
  }

  /** An approval that meets no other on its purchase and coupon goes through exactly when the purchase may be
      approved and its coupon has room; then the purchase is approved, its coupon is counted once more
      and the locks are given up.  Otherwise nothing has changed. */
  lemma ApprovalUnrivalled(s: World, w: nat, pid: Id, allowUnpaid: bool)
    requires w < |s.workers| && s.workers[w].Idle? && pid < |s.purchases| && Unrivalled(s, pid)
    requires s.purchases[pid].coupon.Some? ==> s.purchases[pid].coupon.value < |s.coupons|
    ensures
      var p := s.purchases[pid];
      var t := Next(Next(Next(s, Start(w, pid, allowUnpaid), true), TakeCoupon(w), true), Commit(w), true);
      if (p.status == Pending || (p.status == Unpaid && allowUnpaid)) && HasRoom(s, pid) then
        && t.purchases == s.purchases[pid := p.(status := Approved)] && t.workers == s.workers
        && |t.coupons| == |s.coupons|
        && forall c :: 0 <= c < |s.coupons| ==>
             t.coupons[c] == s.coupons[c].(usageCount := s.coupons[c].usageCount + Bit(p.coupon == Some(c)))
      else t == s
  {
    var p := s.purchases[pid];
    var s1 := Next(s, Start(w, pid, allowUnpaid), true);
    assert s1 == if Approvable(p.status, allowUnpaid) then s.(workers := s.workers[w := HoldsPurchase(pid)]) else s;
    var s2 := Next(s1, TakeCoupon(w), true);
    assert s.workers[w := Idle] == s.workers;
    if p.coupon.Some? {
      Decisions.CountIsRedemptions(s.purchases, p.user, p.coupon.value, Some(pid));
      assert CapsAllow(s1, pid, p.coupon.value) <==> HasRoom(s, pid);
      if Approvable(p.status, allowUnpaid) {
        assert CouponFree(s1, p.coupon.value);
        assert s2.workers == s.workers[w := if HasRoom(s, pid) then PassedCaps(pid) else Idle];
      }
    }
  }

  /** A purchase under decision waits; otherwise a refund takes an approved purchase, a submission one that
      waits for its proof, and the remaining ends are reached as listed, by nothing else. */
  lemma OtherEventsIff(s: World, pid: Id, after: Status)
    requires pid < |s.purchases|
    ensures
      var free := forall v :: 0 <= v < |s.workers| ==> s.workers[v].Idle? || s.workers[v].pid != pid;
      var before := s.purchases[pid].status;
      var Moved := (to: Status) => s.(purchases := s.purchases[pid := s.purchases[pid].(status := to)]);
      && Next(s, Refunds(pid), true) == (if free && before == Approved then Moved(Refunded) else s)
      && Next(s, Submits(pid), true) == (if free && before in {Unpaid, ResubmissionRequested} then Moved(Pending) else s)
      && Next(s, Turns(pid, after), true) ==
           if free && (before, after) in {(Pending, Rejected), (ResubmissionRequested, Rejected),
                                          (Pending, ResubmissionRequested), (Unpaid, Expired),
                                          (Unpaid, Cancelled), (ResubmissionRequested, Cancelled)}
           then Moved(after) else s
  {
    var free := forall v :: 0 <= v < |s.workers| ==> s.workers[v].Idle? || s.workers[v].pid != pid;
    assert free <==> PurchaseFree(s, pid) by {
      if free {
        forall v | 0 <= v < |s.workers|
          ensures !Holding(s.workers[v], pid)
        {
        }
      }
      if PurchaseFree(s, pid) {
        forall v | 0 <= v < |s.workers|
          ensures s.workers[v].Idle? || s.workers[v].pid != pid
        {
          assert !Holding(s.workers[v], pid);
        }
      }
    }
  }

  /** An approval that breaks off writes nothing, and purchase and coupon are free again. */
  lemma AbortGivesUp(s: World, w: nat)
    requires RaceSound(s) && w < |s.workers| && !s.workers[w].Idle?
    ensures
      var t, pid := Next(s, Abort(w), true), s.workers[w].pid;
      && t == s.(workers := s.workers[w := Idle])
      && pid < |s.purchases| && PurchaseFree(t, pid)
      && (s.workers[w].PassedCaps? ==> s.purchases[pid].coupon.Some? && CouponFree(t, s.purchases[pid].coupon.value))
  {
    assert Reserved(s, w);
  }

  /** A new order is unpaid, for its user and with its coupon; nothing else changes. */
  lemma OrderWaits(s: World, user: Id, coupon: Option<Id>)
    ensures
      var t, n := Next(s, Orders(user, coupon), true), |s.purchases|;
      && |t.purchases| == n + 1 && t.purchases[..n] == s.purchases && t.coupons == s.coupons && t.workers == s.workers
      && t.purchases[n].user == user && t.purchases[n].coupon == coupon && t.purchases[n].status == Unpaid
  {
  }
}
