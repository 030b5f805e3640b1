/**
  `RateLimiter`: a per-user sliding window over an in-memory map from user
  to request timestamps (whole seconds). The age of a request is measured
  with `timedelta.seconds`, which is only the within-a-day part of the
  difference, so a request is counted again on every later day at the same
  time of day.
 */
module RateLimiter {

  const SecondsPerDay: int := 86400

  datatype Limiter = Limiter(maxRequests: int, windowSeconds: int, requests: map<string, seq<int>>)

  /** `RateLimiter()` with its default budget of 100 requests per 3600 seconds. */
  const Default: Limiter := Limiter(100, 3600, map[])

  /** `self.requests.get(user_id, [])`. */
  function History(l: Limiter, user: string): seq<int> {
    if user in l.requests then l.requests[user] else []
  }

  /** The elements of `s` that satisfy `keep`, in order. */
  function Filter(s: seq<int>, keep: int -> bool): (r: seq<int>)
    ensures |r| <= |s|
    ensures forall i :: 0 <= i < |r| ==> keep(r[i])
    ensures forall x :: x in r <==> x in s && keep(x)
    decreases |s|
  {
    if |s| == 0 then []
    else if keep(s[0]) then [s[0]] + Filter(s[1..], keep)
    else Filter(s[1..], keep)
  }

  lemma {:induction false} FilterAppend(a: seq<int>, b: seq<int>, keep: int -> bool)
    ensures Filter(a + b, keep) == Filter(a, keep) + Filter(b, keep)
    decreases |a|
  {
    if |a| > 0 {
      FilterAppend(a[1..], b, keep);
      var h := if keep(a[0]) then [a[0]] else [];
      assert (a + b)[0] == a[0] && (a + b)[1..] == a[1..] + b;
      assert Filter(a + b, keep) == h + Filter(a[1..] + b, keep);
      assert Filter(a, keep) == h + Filter(a[1..], keep);
    } else {
      assert a + b == b;
    }
  }

  lemma {:induction false} FilterKeepsAll(s: seq<int>, keep: int -> bool)
    requires forall i :: 0 <= i < |s| ==> keep(s[i])
    ensures Filter(s, keep) == s
    decreases |s|
  {
    if |s| > 0 {
      FilterKeepsAll(s[1..], keep);
      assert s == [s[0]] + s[1..];
    }
  }

  /** `(now - t).seconds`: the age with whole days discarded. */
  function AgeSeconds(now: int, t: int): (a: int)
    ensures 0 <= a < SecondsPerDay
    ensures 0 <= now - t < SecondsPerDay ==> a == now - t
  {
    (now - t) % SecondsPerDay
  }

  /** The requests of `user` that count against the window at time `now`. */
  function Recent(l: Limiter, user: string, now: int): (r: seq<int>)
    ensures forall t :: t in r <==> t in History(l, user) && AgeSeconds(now, t) < l.windowSeconds
  {
    Filter(History(l, user), t => AgeSeconds(now, t) < l.windowSeconds)
  }

  datatype Decision = Decision(allowed: bool, limiter: Limiter)

  /** The admission step shared by both age measures: admit while the counted
      requests are under budget, storing them plus `now`; otherwise change nothing. */
  function Admit(l: Limiter, user: string, counted: seq<int>, now: int): (d: Decision)
    ensures d.allowed <==> |counted| < l.maxRequests
    ensures !d.allowed ==> d.limiter == l
    ensures d.allowed ==> d.limiter == l.(requests := l.requests[user := counted + [now]])
  {
    if |counted| < l.maxRequests then Decision(true, l.(requests := l.requests[user := counted + [now]]))
    else Decision(false, l)
  }

  /** Every stored history fits in the budget. */
  predicate Bounded(l: Limiter) {
    forall u :: u in l.requests ==> |l.requests[u]| <= l.maxRequests
  }

  /** `is_allowed`. */
  function IsAllowed(l: Limiter, user: string, now: int): (d: Decision)
    ensures d.allowed <==> |Recent(l, user, now)| < l.maxRequests
    ensures !d.allowed ==> d.limiter == l
    ensures d.allowed ==> user in d.limiter.requests && d.limiter.requests[user] == Recent(l, user, now) + [now]
    ensures d.allowed ==> |d.limiter.requests[user]| <= l.maxRequests
    ensures d.limiter.maxRequests == l.maxRequests && d.limiter.windowSeconds == l.windowSeconds
    ensures d.limiter.requests.Keys == l.requests.Keys + (if d.allowed then {user} else {})
    ensures forall u :: u != user && u in l.requests ==> d.limiter.requests[u] == l.requests[u]
    ensures Bounded(l) ==> Bounded(d.limiter)
  {
    Admit(l, user, Recent(l, user, now), now)
  }

  /** `get_remaining_requests`: reads the state without changing it. */
  function RemainingRequests(l: Limiter, user: string, now: int): (n: int)
    ensures n >= 0
    ensures l.maxRequests >= 0 ==> n <= l.maxRequests
    ensures n == 0 <==> |Recent(l, user, now)| >= l.maxRequests
    ensures n > 0 ==> n == l.maxRequests - |Recent(l, user, now)|
  {
    var left := l.maxRequests - |Recent(l, user, now)|;
    if left > 0 then left else 0
  }

  /** The two queries agree: a request is admitted exactly when some budget remains. */
  lemma RemainingAgreesWithIsAllowed(l: Limiter, user: string, now: int)
    ensures IsAllowed(l, user, now).allowed <==> RemainingRequests(l, user, now) > 0
  {
  }

  /** An admitted request uses up exactly one unit of the remaining budget at
      the same instant (for a positive window, so that `now` itself is counted). */
  lemma AdmissionConsumesOne(l: Limiter, user: string, now: int)
    requires l.windowSeconds > 0
    requires IsAllowed(l, user, now).allowed
    ensures RemainingRequests(IsAllowed(l, user, now).limiter, user, now) == RemainingRequests(l, user, now) - 1
  {
    var keep := t => AgeSeconds(now, t) < l.windowSeconds;
    var recent := Recent(l, user, now);
    var l' := IsAllowed(l, user, now).limiter;
    assert History(l', user) == recent + [now];
    FilterAppend(recent, [now], keep);
    FilterKeepsAll(recent, keep);
    FilterKeepsAll([now], keep);
    assert Recent(l', user, now) == recent + [now];
  }

  // A request made more than a day ago counts again when its time of day
  // comes round; measuring the whole elapsed time fixes that.

  /** `(now - t).total_seconds()` in whole seconds. */
  function ElapsedSeconds(now: int, t: int): int {
    now - t
  }

  function RecentCorrected(l: Limiter, user: string, now: int): (r: seq<int>)
    ensures forall t :: t in r <==> t in History(l, user) && ElapsedSeconds(now, t) < l.windowSeconds
  {
    Filter(History(l, user), t => ElapsedSeconds(now, t) < l.windowSeconds)
  }

  /** `is_allowed` with the whole elapsed time: no request older than the
      window is ever counted, so a user whose requests are all older is admitted. */
  function IsAllowedCorrected(l: Limiter, user: string, now: int): (d: Decision)
    ensures d.allowed <==> |RecentCorrected(l, user, now)| < l.maxRequests
    ensures !d.allowed ==> d.limiter == l
    ensures d.allowed ==> user in d.limiter.requests && d.limiter.requests[user] == RecentCorrected(l, user, now) + [now]
    ensures forall t :: t in RecentCorrected(l, user, now) ==> now - t < l.windowSeconds
    ensures ((forall t :: t in History(l, user) ==> now - t >= l.windowSeconds) && l.maxRequests > 0) ==> d.allowed
  {
    var counted := RecentCorrected(l, user, now);
    assert (forall t :: t in History(l, user) ==> now - t >= l.windowSeconds) ==> |counted| == 0 by {
      if |counted| > 0 { assert counted[0] in counted; }
    }
    Admit(l, user, counted, now)
  }

  /** The source as written refuses a user whose only request is a day and ten
      seconds old under a one-request-per-hour budget; the corrected check admits it. */
  lemma DayOldRequestStillCounts()
    ensures var l := Limiter(1, 3600, map["alice" := [0]]);
      && !IsAllowed(l, "alice", 86410).allowed
      && IsAllowedCorrected(l, "alice", 86410).allowed
  {
    var l := Limiter(1, 3600, map["alice" := [0]]);
    assert AgeSeconds(86410, 0) == 10;
    assert Recent(l, "alice", 86410) == [0];
    assert RecentCorrected(l, "alice", 86410) == [];
  }

  /** The default limiter admits anyone's first request and leaves 99 more in the window. */
  lemma DefaultAdmitsFirstRequest(user: string, now: int)
    ensures IsAllowed(Default, user, now).allowed
    ensures RemainingRequests(IsAllowed(Default, user, now).limiter, user, now) == 99
  {
    assert Recent(Default, user, now) == [];
    AdmissionConsumesOne(Default, user, now);
  }
}
