/** Approvals that overlap.  The row to extend is read without a lock, so that a second approval may write
    what it had read before the first one wrote. */
module Overlaps {
  import opened Wrappers
  import opened BillingTypes
  import opened Entitlements

  /** Extends or creates on tables a, by what was read from them earlier. */
  function ExtendFrom(a: Access, loaded: Access, now: Time, r: Request, recordFor: Option<Id>): Access
    requires |loaded.subs| <= |a.subs|
  {
    var found := FindExisting(loaded.subs, |loaded.subs|, now, r);
    var members := a.members + {(r.user, r.course)};
    if found.Some? then
      var i := found.value;
      var row := loaded.subs[i];
      var expiry := NewExpiry(StartFrom(row.expiresAt, now), r.duration);
      var renewed := row.(
        expiresAt := expiry,
        plan := if r.plan.Some? then r.plan else row.plan,
        quota := AddQuota(row.quota, r.quota));
      a.(subs := a.subs[i := renewed], members := members,
         grants := Recorded(a.grants, recordFor, SubscriptionRow(i), false, row.expiresAt, expiry))
    else
      var expiry := NewExpiry(now, r.duration);
      var row := Subscription(
        r.user, r.course, r.product, r.plan, now, expiry, r.quota, true, r.scholarship);
      a.(subs := a.subs + [row], members := members,
         grants := Recorded(a.grants, recordFor, SubscriptionRow(|a.subs|), true, None, expiry))
  }

  /** Nobody wrote a row of the student, course, product and origin since they were read. */
  ghost predicate SeriesUntouched(a: Access, loaded: Access, r: Request) {
    && |loaded.subs| <= |a.subs|
    && (forall i :: 0 <= i < |loaded.subs| && (SameSeries(loaded.subs[i], r) || SameSeries(a.subs[i], r)) ==>
          a.subs[i] == loaded.subs[i])
    && (forall i :: |loaded.subs| <= i < |a.subs| ==> !SameSeries(a.subs[i], r))
  }

  lemma {:induction false} FoundAlike(a: Access, loaded: Access, now: Time, r: Request, n: nat)
    requires SeriesUntouched(a, loaded, r) && n <= |a.subs|
    ensures FindExisting(a.subs, n, now, r) ==
      FindExisting(loaded.subs, if n <= |loaded.subs| then n else |loaded.subs|, now, r)
  {
    if n > 0 {
      FoundAlike(a, loaded, now, r, n - 1);
    }
  }

  /** As long as nobody writes those rows between the read and the write, an approval does what it would
      do alone, whatever happens to other rows meanwhile. */
  lemma UntouchedSeriesIsSerial(a: Access, loaded: Access, now: Time, r: Request, recordFor: Option<Id>)
    requires SeriesUntouched(a, loaded, r)
    ensures ExtendFrom(a, loaded, now, r, recordFor) == ExtendOrCreate(a, now, r, recordFor)
  {
    FoundAlike(a, loaded, now, r, |a.subs|);
  }

  predicate SameKey(r: Request, s: Request) {
    r.user == s.user && r.course == s.course && r.product == s.product && r.scholarship == s.scholarship
  }

  /** The second request's read comes before the first one's write. */
  function Overlapped(a: Access, now: Time, first: Request, p: Id, second: Request, q: Id): Access {
    ExtendFrom(ExtendOrCreate(a, now, first, Some(p)), a, now, second, Some(q))
  }

  function Serial(a: Access, now: Time, first: Request, p: Id, second: Request, q: Id): Access {
    ExtendOrCreate(ExtendOrCreate(a, now, first, Some(p)), now, second, Some(q))
  }

  lemma OtherSeriesUntouched(a: Access, now: Time, first: Request, p: Id, second: Request)
    requires !SameKey(first, second)
    ensures SeriesUntouched(ExtendOrCreate(a, now, first, Some(p)), a, second)
  {
  }

  /** Two approvals that overlap come to the same as one after the other exactly when they are for different
      students, courses, products or origins. */
  lemma OverlapIsSerialIff(a: Access, now: Time, first: Request, p: Id, second: Request, q: Id)
    requires first.duration > 0
    ensures Overlapped(a, now, first, p, second, q) == Serial(a, now, first, p, second, q) <==> !SameKey(first, second)
  {
    var b := ExtendOrCreate(a, now, first, Some(p));
    if SameKey(first, second) {
      SameRowAgain(a, now, first, p, second);
      var n := |b.grants|;
      assert Overlapped(a, now, first, p, second, q).grants[n] != Serial(a, now, first, p, second, q).grants[n];
    } else {
      OtherSeriesUntouched(a, now, first, p, second);
      UntouchedSeriesIsSerial(b, a, now, second, Some(q));
    }
  }

  /** One after the other, the second extends what the first wrote, from a later end. */
  lemma SameRowAgain(a: Access, now: Time, first: Request, p: Id, second: Request)
    requires first.duration > 0 && SameKey(first, second)
    ensures
      var b := ExtendOrCreate(a, now, first, Some(p));
      var before, after := FindExisting(a.subs, |a.subs|, now, second), FindExisting(b.subs, |b.subs|, now, second);
      && after.Some? && (before.Some? ==> after == before && b.subs[after.value].expiresAt != a.subs[before.value].expiresAt)
  {
    var b := ExtendOrCreate(a, now, first, Some(p));
    SameFound(a, now, first, second, |a.subs|);
    var before := FindExisting(a.subs, |a.subs|, now, first);
    if before.Some? {
      StillFound(a, b, now, second, before.value, |a.subs|);
    }
  }

  lemma {:induction false} SameFound(a: Access, now: Time, r: Request, s: Request, n: nat)
    requires SameKey(r, s) && n <= |a.subs|
    ensures FindExisting(a.subs, n, now, r) == FindExisting(a.subs, n, now, s)
  {
    if n > 0 {
      SameFound(a, now, r, s, n - 1);
    }
  }

  /** Renewing the row that was found keeps it the one that is found. */
  lemma {:induction false} StillFound(a: Access, b: Access, now: Time, r: Request, i: nat, n: nat)
    requires i < n <= |a.subs| == |b.subs| && FindExisting(a.subs, n, now, r) == Some(i)
    requires forall j :: 0 <= j < |a.subs| && j != i ==> b.subs[j] == a.subs[j]
    requires SameSeries(b.subs[i], r) && b.subs[i].Covers(now)
    ensures FindExisting(b.subs, n, now, r) == Some(i)
  {
    if i < n - 1 {
      StillFound(a, b, now, r, i, n - 1);
    }
  }

  /** Without a row to start from, both open one: the student has two current rows of the same kind. */
  lemma OverlapOpensTwoRows(a: Access, now: Time, first: Request, p: Id, second: Request, q: Id)
    requires SameKey(first, second) && first.duration > 0 && second.duration > 0
    requires FindExisting(a.subs, |a.subs|, now, first).None?
    ensures
      var subs := Overlapped(a, now, first, p, second, q).subs; var n := |a.subs|;
      && |subs| == n + 2 && SameSeries(subs[n], first) && SameSeries(subs[n + 1], first)
      && subs[n].Covers(now) && subs[n + 1].Covers(now)
  {
    SameFound(a, now, first, second, |a.subs|);
  }

  /** With a row to start from, the time of the first approval is lost although its grant is recorded. */
  lemma OverlapLosesTime(a: Access, now: Time, first: Request, p: Id, second: Request, q: Id, i: nat)
    requires SameKey(first, second) && first.duration > 0 && second.duration > 0
    requires FindExisting(a.subs, |a.subs|, now, first) == Some(i) && a.subs[i].expiresAt.Some?
    ensures
      var b := Overlapped(a, now, first, p, second, q); var n := |a.grants|;
      var end := a.subs[i].expiresAt.value;
      && b.subs[i].expiresAt == Some(end + second.duration)
      && |b.grants| == n + 2
      && b.grants[n] == Grant(p, SubscriptionRow(i), false, Some(end), Some(end + first.duration), None)
      && b.grants[n + 1] == Grant(q, SubscriptionRow(i), false, Some(end), Some(end + second.duration), None)
  {
    SameFound(a, now, first, second, |a.subs|);
  }
}
