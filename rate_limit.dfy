/** The per-user rate limiter of the free-chat path: isRateLimited
    (Bot.js:115-132). The clock (`Date.now()`) is a parameter, in
    milliseconds. */
module RateLimit {
  import opened Base

  const WindowMs: int := 60000
  const MaxRequestsPerMinute: nat := 5

  /** `userRequests[userId]`: requests counted since `lastReset`. */
  datatype Record = Record(count: nat, lastReset: int)

  type Requests = map<UserId, Record>

  /** The new table and the answer of one `isRateLimited(userId)` call at `now`. */
  datatype Decision = Decision(requests: Requests, limited: bool)

  /** True when the call at `now` opens a new window for the user: there is
      no record yet, or more than a minute has passed since its reset. */
  predicate StartsWindow(requests: Requests, user: UserId, now: int)
  {
    user !in requests || now - requests[user].lastReset > WindowMs
  }

  function Step(requests: Requests, user: UserId, now: int): Decision
  {
    if StartsWindow(requests, user, now) then
      Decision(requests[user := Record(1, now)], false)
    else
      var rec := requests[user];
      var counted := rec.(count := rec.count + 1);
      Decision(requests[user := counted], counted.count > MaxRequestsPerMinute)
  }

  /** One call: a new window resets the count to 1 and allows the call;
      any other call increments the count, rejected or not, and is rejected
      exactly when the count then exceeds the maximum. Other users' records
      are untouched. */
  lemma StepSpec(requests: Requests, user: UserId, now: int)
    ensures var d := Step(requests, user, now);
      && d.requests.Keys == requests.Keys + {user}
      && (forall u | u in requests && u != user :: d.requests[u] == requests[u])
      && (StartsWindow(requests, user, now) ==> d.requests[user] == Record(1, now) && !d.limited)
      && (!StartsWindow(requests, user, now) ==>
            && d.requests[user].count == requests[user].count + 1
            && d.requests[user].lastReset == requests[user].lastReset
            && d.limited == (d.requests[user].count > MaxRequestsPerMinute))
  {
  }

  /** The record of `user` after a run of calls at `times`, and the answers. */
  function Run(requests: Requests, user: UserId, times: seq<int>): (res: (Requests, seq<bool>))
    ensures |res.1| == |times|
    decreases |times|
  {
    if times == [] then (requests, [])
    else
      var d := Step(requests, user, times[0]);
      var rest := Run(d.requests, user, times[1..]);
      (rest.0, [d.limited] + rest.1)
  }

  /** Calls that all fall within one minute of a window's start: the k-th
      of them (counting from 0 at the start) is rejected exactly when k >= 5,
      so the 6th call inside a window is its first rejection, and the count
      afterwards is the number of calls. */
  lemma {:induction false} WindowRun(requests: Requests, user: UserId, start: int, times: seq<int>)
    requires user in requests && requests[user].lastReset == start
    requires forall i | 0 <= i < |times| :: times[i] - start <= WindowMs
    ensures var res := Run(requests, user, times);
      && user in res.0 && res.0[user].lastReset == start
      && res.0[user].count == requests[user].count + |times|
      && forall i | 0 <= i < |times| :: res.1[i] == (requests[user].count + i + 1 > MaxRequestsPerMinute)
  {
    if times != [] {
      var d := Step(requests, user, times[0]);
      assert !StartsWindow(requests, user, times[0]);
      WindowRun(d.requests, user, start, times[1..]);
      var rest := Run(d.requests, user, times[1..]);
      forall i | 0 <= i < |times|
        ensures Run(requests, user, times).1[i] == (requests[user].count + i + 1 > MaxRequestsPerMinute)
      {
        if i > 0 {
          assert Run(requests, user, times).1[i] == rest.1[i - 1];
        }
      }
    }
  }

  /** A first call, or one more than a minute after the last reset, opens a
      window; the following calls up to a minute after it are answered
      false, false, false, false, then true from the 6th call on. */
  lemma SixthCallIsFirstRejection(requests: Requests, user: UserId, times: seq<int>)
    requires |times| >= 1 && StartsWindow(requests, user, times[0])
    requires forall i | 0 <= i < |times| :: times[i] - times[0] <= WindowMs
    ensures forall i | 0 <= i < |times| :: Run(requests, user, times).1[i] == (i >= MaxRequestsPerMinute)
  {
    var d := Step(requests, user, times[0]);
    WindowRun(d.requests, user, times[0], times[1..]);
    var rest := Run(d.requests, user, times[1..]);
    forall i | 0 <= i < |times| ensures Run(requests, user, times).1[i] == (i >= MaxRequestsPerMinute) {
      if i > 0 {
        assert Run(requests, user, times).1[i] == rest.1[i - 1];
      }
    }
  }

  /** The table of isRateLimited, `userRequests`, as a field updated in place. */
  class RateLimiter {
    var userRequests: Requests

    constructor ()
      ensures userRequests == map[]
    {
      userRequests := map[];
    }

    /** `isRateLimited(userId)` at time `now`. */
    method IsRateLimited(userId: UserId, now: int) returns (limited: bool)
      modifies this
      ensures Decision(userRequests, limited) == Step(old(userRequests), userId, now)
    {
      if userId !in userRequests {
        userRequests := userRequests[userId := Record(1, now)];
        return false;
      }
      if now - userRequests[userId].lastReset > WindowMs {
        userRequests := userRequests[userId := Record(1, now)];
        return false;
      }
      var rec := userRequests[userId];
      userRequests := userRequests[userId := rec.(count := rec.count + 1)];
      return userRequests[userId].count > MaxRequestsPerMinute;
    }
  }
}
