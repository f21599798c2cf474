/**
 * RateLimiter: a per-user sliding window. Each user has the list of the times of
 * their admitted requests; a request prunes the entries that are 60 seconds old or
 * older, is admitted when fewer than 5 remain, and is then appended.
 */
module RateLimit {

  const MaxRequestsPerMinute: nat := 5
  const WindowSeconds: int := 60

  /** The list comprehension that keeps only the times strictly newer than now - 60, in order. */
  function Recent(ts: seq<int>, now: int): (r: seq<int>)
    ensures |r| <= |ts|
    ensures forall t :: t in r <==> t in ts && t > now - WindowSeconds
    ensures forall t :: multiset(r)[t] == if t > now - WindowSeconds then multiset(ts)[t] else 0
  {
    if ts == [] then []
    else
      var last := ts[|ts| - 1];
      assert ts == ts[..|ts| - 1] + [last];
      var kept := Recent(ts[..|ts| - 1], now);
      if last > now - WindowSeconds then kept + [last] else kept
  }

  /**
   * One call of is_allowed on one user's list: the decision and the list left behind.
   * The request is admitted exactly when fewer than the maximum survive pruning;
   * an admitted request appends `now`, a refused one appends nothing.
   */
  function Step(ts: seq<int>, now: int): (r: (seq<int>, bool))
    ensures r.1 <==> |Recent(ts, now)| < MaxRequestsPerMinute
    ensures r.1 ==> r.0 == Recent(ts, now) + [now]
    ensures !r.1 ==> r.0 == Recent(ts, now)
    ensures |ts| <= MaxRequestsPerMinute ==> |r.0| <= MaxRequestsPerMinute
  {
    var kept := Recent(ts, now);
    if |kept| < MaxRequestsPerMinute then (kept + [now], true) else (kept, false)
  }

  /** A user with no list yet is treated as having an empty one. */
  function History(requests: map<int, seq<int>>, userId: int): seq<int> {
    if userId in requests then requests[userId] else []
  }

  /** Every user's list is within the limit: the invariant the limiter keeps. */
  predicate Bounded(requests: map<int, seq<int>>) {
    forall u :: u in requests ==> |requests[u]| <= MaxRequestsPerMinute
  }

  /**
   * is_allowed on the whole table: only the caller's list changes (it is created if
   * missing), and the table stays within the limit.
   */
  function Admit(requests: map<int, seq<int>>, userId: int, now: int): (r: (map<int, seq<int>>, bool))
    ensures r.0.Keys == requests.Keys + {userId}
    ensures forall u :: u in requests && u != userId ==> r.0[u] == requests[u]
    ensures (r.0[userId], r.1) == Step(History(requests, userId), now)
    ensures Bounded(requests) ==> Bounded(r.0)
  {
    var s := Step(History(requests, userId), now);
    (requests[userId := s.0], s.1)
  }

  /** A run of calls by one user: the list left behind and how many were admitted. */
  function Replay(ts: seq<int>, calls: seq<int>): (r: (seq<int>, nat))
    ensures r.1 <= |calls|
    ensures |ts| <= MaxRequestsPerMinute ==> |r.0| <= MaxRequestsPerMinute
    decreases |calls|
  {
    if calls == [] then (ts, 0)
    else
      var s := Step(ts, calls[0]);
      var rest := Replay(s.0, calls[1..]);
      (rest.0, rest.1 + if s.1 then 1 else 0)
  }

  lemma RecentAppend(ts: seq<int>, x: int, now: int)
    ensures Recent(ts + [x], now) == Recent(ts, now) + (if x > now - WindowSeconds then [x] else [])
  {
  }

  /** Pruning at an earlier time and then at a later one is pruning at the later one. */
  lemma {:induction false} RecentNarrows(ts: seq<int>, earlier: int, later: int)
    requires earlier <= later
    ensures Recent(Recent(ts, earlier), later) == Recent(ts, later)
  {
    if ts != [] {
      var init, last := ts[..|ts| - 1], ts[|ts| - 1];
      RecentNarrows(init, earlier, later);
      if last > earlier - WindowSeconds {
        RecentAppend(Recent(init, earlier), last, later);
      }
    }
  }

  /** A list whose times are all inside the window survives pruning whole. */
  lemma {:induction false} RecentKeepsFresh(ts: seq<int>, now: int)
    requires forall i :: 0 <= i < |ts| ==> ts[i] > now - WindowSeconds
    ensures Recent(ts, now) == ts
  {
    if ts != [] {
      RecentKeepsFresh(ts[..|ts| - 1], now);
      assert ts == ts[..|ts| - 1] + [ts[|ts| - 1]];
    }
  }

  /**
   * Within any window of 60 seconds (end - 60, end], the admitted calls together with
   * the list's entries already in that window never exceed the maximum.
   */
  lemma {:induction false} WindowCap(ts: seq<int>, calls: seq<int>, end: int)
    requires |ts| <= MaxRequestsPerMinute
    requires forall i :: 0 <= i < |calls| ==> end - WindowSeconds < calls[i] <= end
    ensures Replay(ts, calls).1 + |Recent(ts, end)| <= MaxRequestsPerMinute
    decreases |calls|
  {
    if calls != [] {
      var c := calls[0];
      var kept := Recent(ts, c);
      var s := Step(ts, c);
      RecentNarrows(ts, c, end);
      WindowCap(s.0, calls[1..], end);
      if s.1 {
        RecentAppend(kept, c, end);
      }
    }
  }

  /** So no more than 5 calls are admitted in any 60-second window. */
  lemma AtMostMaxPerWindow(ts: seq<int>, calls: seq<int>, end: int)
    requires |ts| <= MaxRequestsPerMinute
    requires forall i :: 0 <= i < |calls| ==> end - WindowSeconds < calls[i] <= end
    ensures Replay(ts, calls).1 <= MaxRequestsPerMinute
  {
    WindowCap(ts, calls, end);
  }

  /** A run split in two is the first part followed by the second, from the list the first part left. */
  lemma {:induction false} ReplayAppend(ts: seq<int>, first: seq<int>, second: seq<int>)
    ensures var a := Replay(ts, first);
      var b := Replay(a.0, second);
      Replay(ts, first + second) == (b.0, a.1 + b.1)
    decreases |first|
  {
    if first != [] {
      var s := Step(ts, first[0]);
      assert (first + second)[0] == first[0];
      assert (first + second)[1..] == first[1..] + second;
      ReplayAppend(s.0, first[1..], second);
    } else {
      assert first + second == second;
    }
  }

  /**
   * Whatever came before, the calls of a run that fall inside one 60-second window
   * add at most 5 admissions to the run's count.
   */
  lemma AtMostMaxInAnyWindowOfRun(ts: seq<int>, before: seq<int>, inside: seq<int>, end: int)
    requires |ts| <= MaxRequestsPerMinute
    requires forall i :: 0 <= i < |inside| ==> end - WindowSeconds < inside[i] <= end
    ensures Replay(ts, before + inside).1 <= Replay(ts, before).1 + MaxRequestsPerMinute
  {
    ReplayAppend(ts, before, inside);
    AtMostMaxPerWindow(Replay(ts, before).0, inside, end);
  }

  /**
   * A burst inside one window, starting from a list whose entries are all in that
   * window, admits exactly as many calls as there is room for.
   */
  lemma {:induction false} BurstAdmitsExactly(ts: seq<int>, calls: seq<int>, end: int)
    requires |ts| <= MaxRequestsPerMinute
    requires forall i :: 0 <= i < |ts| ==> end - WindowSeconds < ts[i]
    requires forall i :: 0 <= i < |calls| ==> end - WindowSeconds < calls[i] <= end
    ensures Replay(ts, calls).1 == if |calls| <= MaxRequestsPerMinute - |ts| then |calls| else MaxRequestsPerMinute - |ts|
    decreases |calls|
  {
    if calls != [] {
      var c := calls[0];
      RecentKeepsFresh(ts, c);
      var s := Step(ts, c);
      BurstAdmitsExactly(s.0, calls[1..], end);
    }
  }

  /** From a fresh user, k calls within one minute: exactly min(k, 5) are admitted. */
  lemma FreshUserBurst(calls: seq<int>, end: int)
    requires forall i :: 0 <= i < |calls| ==> end - WindowSeconds < calls[i] <= end
    ensures Replay([], calls).1 == if |calls| <= MaxRequestsPerMinute then |calls| else MaxRequestsPerMinute
  {
    BurstAdmitsExactly([], calls, end);
  }

  /** The limiter's table of request times, updated in place by IsAllowed. */
  class RateLimiter {
    var requests: map<int, seq<int>>

    ghost predicate Valid()
      reads this
    {
      Bounded(requests)
    }

    constructor ()
      ensures Valid() && requests == map[]
    {
      requests := map[];
    }

    /** is_allowed(user_id) with the clock passed in as `now`. */
    method IsAllowed(userId: int, now: int) returns (allowed: bool)
      requires Valid()
      modifies this
      ensures Valid()
      ensures (requests, allowed) == Admit(old(requests), userId, now)
    {
      ghost var before := requests;
      if userId !in requests {
        requests := requests[userId := []];
      }
      assert requests[userId] == History(before, userId);
      requests := requests[userId := Recent(requests[userId], now)];
      if |requests[userId]| < MaxRequestsPerMinute {
        requests := requests[userId := requests[userId] + [now]];
        allowed := true;
      } else {
        allowed := false;
      }
      assert requests == before[userId := requests[userId]];
    }
  }
}
