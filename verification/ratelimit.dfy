/** The per-user rate limiter: a five-minute active window followed by a
    two-minute cooldown, with privileged users exempt.  Time is an integer
    count of microseconds, the resolution of the timestamps it replaces. */
module RateLimit {
  import opened Options
  import opened Roles

  const Second: int := 1_000_000
  const Minute: int := 60 * Second
  const ActiveWindow: int := 5 * Minute
  const Cooldown: int := 2 * Minute

  /** One user's entry: when the current window started, or until when the
      user is cooling down. */
  datatype Stamps = Stamps(start: Option<int>, restUntil: Option<int>)

  type Timestamps = map<int, Stamps>

  /** The entry assumed for a user the limiter has not seen yet. */
  const Unseen := Stamps(None, None)

  function Lookup(ts: Timestamps, userId: int): Stamps {
    if userId in ts then ts[userId] else Unseen
  }

  /** Every stored entry is either a running window or a cooldown, never both. */
  ghost predicate Valid(ts: Timestamps) {
    forall u :: u in ts ==> (ts[u].start.Some? <==> ts[u].restUntil.None?)
  }

  /** The decision for one request and the map that results from it. */
  datatype Verdict = Verdict(allowed: bool, stamps: Timestamps)

  /** The user is cooling down at time `now`. */
  predicate Resting(s: Stamps, now: int) {
    s.restUntil.Some? && now < s.restUntil.value
  }

  /** Whether `userId` may talk to the model at time `now`. */
  function CanTalk(ts: Timestamps, userId: int, level: RoleLevel, now: int): (v: Verdict)
    // privileged users always pass and leave no trace
    ensures Privileged(userId, level) ==> v.allowed && v.stamps == ts
    // during a cooldown: denied, nothing recorded
    ensures !Privileged(userId, level) && Resting(Lookup(ts, userId), now) ==>
      !v.allowed && v.stamps == ts
    // no window running (first request, or cooldown over): a window opens now
    ensures !Privileged(userId, level) && !Resting(Lookup(ts, userId), now) && Lookup(ts, userId).start.None? ==>
      v.allowed && v.stamps == ts[userId := Stamps(Some(now), None)]
    // the window has lasted five minutes or more: denied, cooldown starts now
    ensures (!Privileged(userId, level) && !Resting(Lookup(ts, userId), now) && Lookup(ts, userId).start.Some? &&
             now - Lookup(ts, userId).start.value >= ActiveWindow) ==>
      !v.allowed && v.stamps == ts[userId := Stamps(None, Some(now + Cooldown))]
    // inside the window: allowed, nothing recorded
    ensures (!Privileged(userId, level) && !Resting(Lookup(ts, userId), now) && Lookup(ts, userId).start.Some? &&
             now - Lookup(ts, userId).start.value < ActiveWindow) ==>
      v.allowed && v.stamps == ts
    // only the caller's entry may change, and the invariant is kept
    ensures forall u :: u != userId ==> Lookup(v.stamps, u) == Lookup(ts, u) && (u in v.stamps <==> u in ts)
    ensures Valid(ts) ==> Valid(v.stamps)
  {
    if Privileged(userId, level) then
      Verdict(true, ts)
    else
      var stamps := Lookup(ts, userId);
      if Resting(stamps, now) then
        Verdict(false, ts)
      else if stamps.start.None? then
        Verdict(true, ts[userId := Stamps(Some(now), None)])
      else if now - stamps.start.value >= ActiveWindow then
        Verdict(false, ts[userId := Stamps(None, Some(now + Cooldown))])
      else
        Verdict(true, ts)
  }

  /** After any request by a non-privileged user, an allowed request leaves the
      user inside a running window that began less than five minutes ago, and
      a denied one leaves the user cooling down beyond `now`. */
  lemma VerdictMeaning(ts: Timestamps, userId: int, level: RoleLevel, now: int)
    requires Valid(ts)
    requires !Privileged(userId, level)
    ensures var v := CanTalk(ts, userId, level, now);
      var e := Lookup(v.stamps, userId);
      && (v.allowed <==> e.start.Some? && now - e.start.value < ActiveWindow)
      && (!v.allowed <==> Resting(e, now))
  {
  }

  // ---------------------------------------------------------------------
  // Sequences of requests by one user

  /** The verdicts for a user's requests at the given times, in order. */
  function Run(ts: Timestamps, userId: int, level: RoleLevel, times: seq<int>): (vs: seq<Verdict>)
    ensures |vs| == |times|
    decreases |times|
  {
    if |times| == 0 then []
    else
      var v := CanTalk(ts, userId, level, times[0]);
      [v] + Run(v.stamps, userId, level, times[1..])
  }

  /** The map in force before the k-th request. */
  function Before(ts: Timestamps, vs: seq<Verdict>, k: nat): Timestamps
    requires k <= |vs|
  {
    if k == 0 then ts else vs[k - 1].stamps
  }

  /** Each verdict of a run is the limiter applied to the map left by the previous one. */
  lemma {:induction false} RunStep(ts: Timestamps, userId: int, level: RoleLevel, times: seq<int>, k: nat)
    requires k < |times|
    ensures var vs := Run(ts, userId, level, times);
      vs[k] == CanTalk(Before(ts, vs, k), userId, level, times[k])
    decreases k
  {
    var vs := Run(ts, userId, level, times);
    if k > 0 {
      var v0 := CanTalk(ts, userId, level, times[0]);
      RunStep(v0.stamps, userId, level, times[1..], k - 1);
      var rest := Run(v0.stamps, userId, level, times[1..]);
      assert vs == [v0] + rest;
      assert vs[k] == rest[k - 1];
      assert Before(ts, vs, k) == Before(v0.stamps, rest, k - 1);
    }
  }

  ghost predicate NonDecreasing(times: seq<int>) {
    forall i, j :: 0 <= i <= j < |times| ==> times[i] <= times[j]
  }

  /** No window in `ts` for this user started after `now`. */
  ghost predicate StartedBy(ts: Timestamps, userId: int, now: int) {
    Lookup(ts, userId).start.Some? ==> Lookup(ts, userId).start.value <= now
  }

  /** With time running forward, the start of the user's window never lies in the future. */
  lemma {:induction false} StartNeverAhead(ts: Timestamps, userId: int, level: RoleLevel, times: seq<int>, k: nat)
    requires 0 < |times| && NonDecreasing(times) && StartedBy(ts, userId, times[0])
    requires k < |times|
    ensures StartedBy(Run(ts, userId, level, times)[k].stamps, userId, times[k])
    decreases k
  {
    var vs := Run(ts, userId, level, times);
    RunStep(ts, userId, level, times, k);
    if k > 0 {
      StartNeverAhead(ts, userId, level, times, k - 1);
    }
  }

  /** Allowed requests with no denial between them are less than five minutes
      apart: a user never gets more than one active window's worth of
      uninterrupted access. */
  lemma {:induction false} WindowBoundsAccess(ts: Timestamps, userId: int, level: RoleLevel, times: seq<int>, i: nat, j: nat)
    requires !Privileged(userId, level) && Valid(ts)
    requires 0 < |times| && NonDecreasing(times) && StartedBy(ts, userId, times[0])
    requires i <= j < |times|
    requires forall k :: i <= k <= j ==> Run(ts, userId, level, times)[k].allowed
    ensures times[j] - times[i] < ActiveWindow
  {
    var vs := Run(ts, userId, level, times);
    var s := SameWindow(ts, userId, level, times, i, j);
    StartNeverAhead(ts, userId, level, times, i);
    RunStep(ts, userId, level, times, j);
    ValidAlong(ts, userId, level, times, j);
    VerdictMeaning(Before(ts, vs, j), userId, level, times[j]);
  }

  /** The invariant holds before and after every request of a run. */
  lemma {:induction false} ValidAlong(ts: Timestamps, userId: int, level: RoleLevel, times: seq<int>, k: nat)
    requires Valid(ts) && k < |times|
    ensures Valid(Before(ts, Run(ts, userId, level, times), k))
    ensures Valid(Run(ts, userId, level, times)[k].stamps)
    decreases k
  {
    var vs := Run(ts, userId, level, times);
    RunStep(ts, userId, level, times, k);
    if k > 0 {
      ValidAlong(ts, userId, level, times, k - 1);
    }
  }

  /** Through a stretch of allowed requests the window start stays the one
      fixed by the first of them. */
  lemma {:induction false} SameWindow(ts: Timestamps, userId: int, level: RoleLevel, times: seq<int>, i: nat, j: nat)
    returns (s: int)
    requires !Privileged(userId, level) && Valid(ts)
    requires i <= j < |times|
    requires forall k :: i <= k <= j ==> Run(ts, userId, level, times)[k].allowed
    ensures Lookup(Run(ts, userId, level, times)[i].stamps, userId).start == Some(s)
    ensures Lookup(Run(ts, userId, level, times)[j].stamps, userId).start == Some(s)
    decreases j - i
  {
    var vs := Run(ts, userId, level, times);
    RunStep(ts, userId, level, times, i);
    ValidAlong(ts, userId, level, times, i);
    VerdictMeaning(Before(ts, vs, i), userId, level, times[i]);
    if i == j {
      s := Lookup(vs[i].stamps, userId).start.value;
    } else {
      s := SameWindow(ts, userId, level, times, i, j - 1);
      RunStep(ts, userId, level, times, j);
      ValidAlong(ts, userId, level, times, j - 1);
      assert Before(ts, vs, j) == vs[j - 1].stamps;
      assert vs[j].allowed;
    }
  }

  /** A user who is cut off at the end of a window must wait the full two
      minutes: once request k is denied right after an allowed request, any
      later allowed request comes at least `Cooldown` after it. */
  lemma {:induction false} CutOffWaitsFullCooldown(ts: Timestamps, userId: int, level: RoleLevel, times: seq<int>, k: nat, j: nat)
    requires !Privileged(userId, level) && Valid(ts)
    requires NonDecreasing(times)
    requires 0 < k < j < |times|
    requires Run(ts, userId, level, times)[k - 1].allowed && !Run(ts, userId, level, times)[k].allowed
    requires Run(ts, userId, level, times)[j].allowed
    ensures times[j] >= times[k] + Cooldown
  {
    var vs := Run(ts, userId, level, times);
    RunStep(ts, userId, level, times, k - 1);
    RunStep(ts, userId, level, times, k);
    ValidAlong(ts, userId, level, times, k - 1);
    VerdictMeaning(Before(ts, vs, k - 1), userId, level, times[k - 1]);
    assert Before(ts, vs, k) == vs[k - 1].stamps;
    var e := Lookup(vs[k - 1].stamps, userId);
    assert e.start.Some?;
    assert userId in vs[k - 1].stamps;
    assert e.restUntil.None?;
    assert !Resting(e, times[k]);
    assert vs[k].stamps == vs[k - 1].stamps[userId := Stamps(None, Some(times[k] + Cooldown))];
    assert Lookup(vs[k].stamps, userId) == Stamps(None, Some(times[k] + Cooldown));
    var m := FirstAllowedAfter(ts, userId, level, times, k, j);
    StillResting(ts, userId, level, times, k, m);
  }

  /** The first allowed request after position k, no later than j. */
  lemma {:induction false} FirstAllowedAfter(ts: Timestamps, userId: int, level: RoleLevel, times: seq<int>, k: nat, j: nat)
    returns (m: nat)
    requires k < j < |times|
    requires Run(ts, userId, level, times)[j].allowed
    ensures k < m <= j
    ensures Run(ts, userId, level, times)[m].allowed
    ensures forall n :: k < n < m ==> !Run(ts, userId, level, times)[n].allowed
    decreases j - k
  {
    var vs := Run(ts, userId, level, times);
    if vs[k + 1].allowed {
      m := k + 1;
    } else {
      m := FirstAllowedAfter(ts, userId, level, times, k + 1, j);
    }
  }

  /** While a cooldown entered at position k lasts, denials leave it in place,
      so the next allowed request comes only after it expired. */
  lemma {:induction false} StillResting(ts: Timestamps, userId: int, level: RoleLevel, times: seq<int>, k: nat, m: nat)
    requires !Privileged(userId, level)
    requires NonDecreasing(times)
    requires k < m < |times|
    requires Lookup(Run(ts, userId, level, times)[k].stamps, userId).start.None?
    requires Lookup(Run(ts, userId, level, times)[k].stamps, userId).restUntil.Some?
    requires forall n :: k < n < m ==> !Run(ts, userId, level, times)[n].allowed
    requires Run(ts, userId, level, times)[m].allowed
    ensures times[m] >= Lookup(Run(ts, userId, level, times)[k].stamps, userId).restUntil.value
    decreases m - k
  {
    var vs := Run(ts, userId, level, times);
    RunStep(ts, userId, level, times, k + 1);
    assert Before(ts, vs, k + 1) == vs[k].stamps;
    if k + 1 < m {
      assert !vs[k + 1].allowed;
      assert vs[k + 1].stamps == vs[k].stamps;
      StillResting(ts, userId, level, times, k + 1, m);
    }
  }

  /** The worked example: starting from no record, requests at T, T+4min,
      T+5min01s, T+6min and T+7min02s are allowed, allowed, denied (cooldown
      until T+7min01s), denied, allowed (a new window starts). */
  lemma Scenario(t: int, userId: int)
    requires userId != OwnerId
    ensures var times := [t, t + 4 * Minute, t + 5 * Minute + Second, t + 6 * Minute, t + 7 * Minute + 2 * Second];
      var vs := Run(map[], userId, User, times);
      && [vs[0].allowed, vs[1].allowed, vs[2].allowed, vs[3].allowed, vs[4].allowed] == [true, true, false, false, true]
      && Lookup(vs[2].stamps, userId) == Stamps(None, Some(t + 7 * Minute + Second))
      && Lookup(vs[4].stamps, userId) == Stamps(Some(t + 7 * Minute + 2 * Second), None)
  {
    var times := [t, t + 4 * Minute, t + 5 * Minute + Second, t + 6 * Minute, t + 7 * Minute + 2 * Second];
    var vs := Run(map[], userId, User, times);
    RunStep(map[], userId, User, times, 0);
    RunStep(map[], userId, User, times, 1);
    RunStep(map[], userId, User, times, 2);
    RunStep(map[], userId, User, times, 3);
    RunStep(map[], userId, User, times, 4);
  }
}
