/** The sliding-window rate limiter: `RateLimiter.check`, sentinel_os/api_key_auth.py. */
module Limiter {
  // `Broken` is the IndexError of reading q[0] when the queue is empty.
  datatype Answer = Admitted | Limited(retryAfter: int) | Broken

  type Hits = map<string, seq<real>>

  // How many hits at the left of the deque are before the cutoff.
  function Stale(q: seq<real>, cutoff: real): (n: nat)
    ensures n <= |q|
    ensures forall i | 0 <= i < n :: q[i] < cutoff
    ensures n < |q| ==> q[n] >= cutoff
  {
    if q == [] || q[0] >= cutoff then 0 else 1 + Stale(q[1..], cutoff)
  }

  // The deque once those have been popped.
  function Popped(q: seq<real>, cutoff: real): seq<real> {
    q[Stale(q, cutoff)..]
  }

  function QueueOf(hits: Hits, identity: string): seq<real> {
    if identity in hits then hits[identity] else []
  }

  // int(max(0.0, window - (now - oldest))) + 1
  function RetryAfter(window: real, now: real, oldest: real): int {
    var wait := window - (now - oldest);
    (if wait < 0.0 then 0.0 else wait).Floor + 1
  }

  function Answered(maxRequests: int, window: real, q: seq<real>, now: real): Answer {
    if |q| < maxRequests then Admitted
    else if q == [] then Broken
    else Limited(RetryAfter(window, now, q[0]))
  }

  function After(q: seq<real>, now: real, a: Answer): seq<real> {
    if a == Admitted then q + [now] else q
  }

  lemma PopLeft(q: seq<real>, cutoff: real)
    requires q != [] && q[0] < cutoff
    ensures Popped(q[1..], cutoff) == Popped(q, cutoff)
  {
  }

  lemma NothingStale(q: seq<real>, cutoff: real)
    requires q == [] || q[0] >= cutoff
    ensures Popped(q, cutoff) == q
  {
  }

  class RateLimiter {
    const maxRequests: int
    const window: real
    var hits: Hits

    constructor (maxRequests: int, window: real)
      ensures this.maxRequests == maxRequests && this.window == window && hits == map[]
    {
      this.maxRequests, this.window := maxRequests, window;
      hits := map[];
    }

    method Check(identity: string, now: real) returns (a: Answer)
      modifies this
      ensures var q := Popped(QueueOf(old(hits), identity), now - window);
              && a == Answered(maxRequests, window, q, now)
              && hits == old(hits)[identity := After(q, now, a)]
    {
      hide RetryAfter, Stale, Popped;
      var q := if identity in hits then hits[identity] else [];
      var cutoff := now - window;
      while q != [] && q[0] < cutoff
        invariant hits == old(hits)
        invariant Popped(q, cutoff) == Popped(QueueOf(old(hits), identity), cutoff)
        decreases |q|
      {
        PopLeft(q, cutoff);
        q := q[1..];
      }
      NothingStale(q, cutoff);
      if |q| >= maxRequests {
        hits := hits[identity := q];
        return if q == [] then Broken else Limited(RetryAfter(window, now, q[0]));
      }
      hits := hits[identity := q + [now]];
      return Admitted;
    }
  }

  /* -------- runs -------- */

  datatype Call = Call(identity: string, now: real)

  // The clock is monotonic.
  ghost predicate InTimeOrder(calls: seq<Call>) {
    forall i, j | 0 <= i <= j < |calls| :: calls[i].now <= calls[j].now
  }

  // The limiter's table after a run.
  function Table(maxRequests: int, window: real, calls: seq<Call>): Hits {
    if calls == [] then map[]
    else
      var call := calls[|calls| - 1];
      var hits := Table(maxRequests, window, calls[..|calls| - 1]);
      var q := Popped(QueueOf(hits, call.identity), call.now - window);
      hits[call.identity := After(q, call.now, Answered(maxRequests, window, q, call.now))]
  }

  // What the limiter would answer one more call.
  function Answers(maxRequests: int, window: real, calls: seq<Call>, call: Call): Answer {
    var q := Popped(QueueOf(Table(maxRequests, window, calls), call.identity), call.now - window);
    Answered(maxRequests, window, q, call.now)
  }

  /* -------- the plain history -------- */

  // How many of the times are lo or later.
  function CountSince(times: seq<real>, lo: real): nat {
    if times == [] then 0
    else CountSince(times[..|times| - 1], lo) + if times[|times| - 1] >= lo then 1 else 0
  }

  // How many of the times lie in [lo, hi].
  function CountIn(times: seq<real>, lo: real, hi: real): nat {
    if times == [] then 0
    else CountIn(times[..|times| - 1], lo, hi) + if lo <= times[|times| - 1] <= hi then 1 else 0
  }

  /** The times at which an identity was let through, by the rule alone: a call is let through
      when fewer than maxRequests of its earlier ones lie in the closed window before it. */
  function LetThrough(maxRequests: int, window: real, calls: seq<Call>, identity: string): seq<real> {
    if calls == [] then []
    else
      var call := calls[|calls| - 1];
      var earlier := LetThrough(maxRequests, window, calls[..|calls| - 1], identity);
      if call.identity == identity && CountSince(earlier, call.now - window) < maxRequests
      then earlier + [call.now] else earlier
  }

  ghost predicate Sorted(times: seq<real>) {
    forall i, j | 0 <= i <= j < |times| :: times[i] <= times[j]
  }

  // The queue is what is left of the history after dropping times no window can reach again.
  ghost predicate Remembers(q: seq<real>, times: seq<real>, horizon: real) {
    && |q| <= |times| && q == times[|times| - |q|..]
    && forall i | 0 <= i < |times| - |q| :: times[i] < horizon
  }

  lemma CountPopped(q: seq<real>, times: seq<real>, horizon: real, cutoff: real)
    requires Sorted(times) && Remembers(q, times, horizon) && horizon <= cutoff
    ensures Remembers(Popped(q, cutoff), times, cutoff)
    ensures |Popped(q, cutoff)| == CountSince(times, cutoff)
  {
    hide Stale, CountSince;
    var front := |times| - |q|;
    var n := Stale(q, cutoff);
    assert forall i | 0 <= i < |q| :: times[front + i] == q[i];
    forall i | 0 <= i < front + n
      ensures times[i] < cutoff
    {
      if i >= front {
        assert times[i] == q[i - front];
      }
    }
    forall i | front + n <= i < |times|
      ensures times[i] >= cutoff
    {
      assert times[front + n] == q[n];
      assert times[front + n] <= times[i];
    }
    assert Popped(q, cutoff) == times[front + n..];
    CountSplit(times, front + n, cutoff);
  }

  lemma {:induction false} CountSplit(times: seq<real>, k: nat, lo: real)
    requires k <= |times|
    requires forall i | 0 <= i < k :: times[i] < lo
    requires forall i | k <= i < |times| :: times[i] >= lo
    ensures CountSince(times, lo) == |times| - k
  {
    if times != [] {
      var n := |times| - 1;
      CountSplit(times[..n], if k <= n then k else n, lo);
    }
  }

  // Before a call at `now`: the table remembers every identity's history up to the last call.
  ghost predicate TableRemembers(maxRequests: int, window: real, calls: seq<Call>, identity: string) {
    var times := LetThrough(maxRequests, window, calls, identity);
    var q := QueueOf(Table(maxRequests, window, calls), identity);
    && Sorted(times)
    && (calls == [] ==> q == times == [])
    && (calls != [] ==>
          var last := calls[|calls| - 1].now;
          && Remembers(q, times, last - window)
          && forall i | 0 <= i < |times| :: times[i] <= last)
  }

  lemma RemembersSnoc(q: seq<real>, times: seq<real>, horizon: real, now: real)
    requires Sorted(times) && Remembers(q, times, horizon)
    requires forall i | 0 <= i < |times| :: times[i] <= now
    ensures Sorted(times + [now]) && Remembers(q + [now], times + [now], horizon)
  {
    var longer := times + [now];
    assert longer[|times| - |q|..] == q + [now];
  }

  lemma {:induction false} TableFollowsHistory(maxRequests: int, window: real, calls: seq<Call>, identity: string)
    requires InTimeOrder(calls)
    ensures TableRemembers(maxRequests, window, calls, identity)
  {
    hide Popped, RetryAfter, CountSince, Sorted, Remembers;
    if calls != [] {
      var n := |calls| - 1;
      var earlier, call := calls[..n], calls[n];
      TableFollowsHistory(maxRequests, window, earlier, identity);
      var times := LetThrough(maxRequests, window, earlier, identity);
      var q := QueueOf(Table(maxRequests, window, earlier), identity);
      var horizon := if n == 0 then call.now - window else calls[n - 1].now - window;
      assert Sorted(times) && Remembers(q, times, horizon) by {
        NoHistory(q, times, horizon);
      }
      assert forall i | 0 <= i < |times| :: times[i] <= call.now by {
        assert n > 0 ==> calls[n - 1].now <= calls[n].now;
      }
      var times', q' :=
        LetThrough(maxRequests, window, calls, identity), QueueOf(Table(maxRequests, window, calls), identity);
      if call.identity == identity {
        CountPopped(q, times, horizon, call.now - window);
        var r := Popped(q, call.now - window);
        assert q' == After(r, call.now, Answered(maxRequests, window, r, call.now));
        assert times' == if |r| < maxRequests then times + [call.now] else times;
        hide Table, LetThrough;
        RemembersSnoc(r, times, call.now - window, call.now);
      } else {
        assert q' == q && times' == times;
        hide Table, LetThrough;
        RemembersLater(q, times, horizon, call.now - window);
      }
    } else {
      NoHistory([], [], 0.0);
    }
  }

  lemma NoHistory(q: seq<real>, times: seq<real>, horizon: real)
    ensures q == times == [] ==> Sorted(times) && Remembers(q, times, horizon)
  {
  }

  lemma RemembersLater(q: seq<real>, times: seq<real>, horizon: real, later: real)
    requires Remembers(q, times, horizon) && horizon <= later
    ensures Remembers(q, times, later)
  {
  }

  /** The queue refines the history: over every run with a monotonic clock a call is admitted
      exactly when fewer than maxRequests admitted calls of its identity lie in the closed window
      ending now. */
  lemma AdmitsExactly(maxRequests: int, window: real, calls: seq<Call>, call: Call)
    requires InTimeOrder(calls + [call])
    ensures Answers(maxRequests, window, calls, call) == Admitted <==>
              CountSince(LetThrough(maxRequests, window, calls, call.identity), call.now - window) < maxRequests
  {
    hide Popped, RetryAfter, CountSince, LetThrough, Table;
    var all := calls + [call];
    assert forall i | 0 <= i < |calls| :: all[i] == calls[i];
    TableFollowsHistory(maxRequests, window, calls, call.identity);
    var times := LetThrough(maxRequests, window, calls, call.identity);
    var q := QueueOf(Table(maxRequests, window, calls), call.identity);
    var horizon := if calls == [] then call.now - window else calls[|calls| - 1].now - window;
    if calls != [] {
      assert all[|calls| - 1] == calls[|calls| - 1] && all[|calls|] == call;
    }
    CountPopped(q, times, horizon, call.now - window);
  }

  // Every time was let through by the rule, given the ones before it.
  ghost predicate Paced(maxRequests: int, window: real, times: seq<real>) {
    && Sorted(times)
    && forall j | 0 <= j < |times| :: CountSince(times[..j], times[j] - window) < maxRequests
  }

  lemma {:induction false} LetThroughIsPaced(maxRequests: int, window: real, calls: seq<Call>, identity: string)
    requires InTimeOrder(calls)
    ensures Paced(maxRequests, window, LetThrough(maxRequests, window, calls, identity))
  {
    hide Table, CountSince;
    TableFollowsHistory(maxRequests, window, calls, identity);
    if calls != [] {
      var n := |calls| - 1;
      LetThroughIsPaced(maxRequests, window, calls[..n], identity);
      var earlier := LetThrough(maxRequests, window, calls[..n], identity);
      var times := LetThrough(maxRequests, window, calls, identity);
      forall j | 0 <= j < |times|
        ensures CountSince(times[..j], times[j] - window) < maxRequests
      {
        if j < |earlier| {
          assert times[..j] == earlier[..j];
        } else {
          assert times[..j] == earlier;
        }
      }
    }
  }

  lemma {:induction false} CountIsMonotone(times: seq<real>, lo: real, lower: real, hi: real)
    requires lower <= lo
    ensures CountIn(times, lo, hi) <= CountSince(times, lo) <= CountSince(times, lower)
  {
    if times != [] {
      CountIsMonotone(times[..|times| - 1], lo, lower, hi);
    }
  }

  lemma {:induction false} PacedBoundsWindow(maxRequests: int, window: real, times: seq<real>, t: real)
    requires maxRequests >= 0 && Paced(maxRequests, window, times)
    ensures CountIn(times, t - window, t) <= maxRequests
  {
    if times != [] {
      var n := |times| - 1;
      FewerArePaced(maxRequests, window, times);
      PacedBoundsWindow(maxRequests, window, times[..n], t);
      hide Paced, CountSince;
      if t - window <= times[n] <= t {
        CountIsMonotone(times[..n], t - window, times[n] - window, t);
      }
    }
  }

  lemma FewerArePaced(maxRequests: int, window: real, times: seq<real>)
    requires Paced(maxRequests, window, times) && times != []
    ensures var n := |times| - 1;
            Paced(maxRequests, window, times[..n]) && CountSince(times[..n], times[n] - window) < maxRequests
  {
    hide CountSince;
    var n := |times| - 1;
    forall j | 0 <= j < n
      ensures CountSince(times[..n][..j], times[..n][j] - window) < maxRequests
    {
      assert times[..n][..j] == times[..j];
    }
  }

  /** No window of the configured length, wherever it is placed, holds more than maxRequests
      admitted calls of one identity. */
  lemma NoWindowOverflows(maxRequests: int, window: real, calls: seq<Call>, identity: string, t: real)
    requires maxRequests >= 0 && InTimeOrder(calls)
    ensures CountIn(LetThrough(maxRequests, window, calls, identity), t - window, t) <= maxRequests
  {
    LetThroughIsPaced(maxRequests, window, calls, identity);
    PacedBoundsWindow(maxRequests, window, LetThrough(maxRequests, window, calls, identity), t);
  }

  lemma {:induction false} QueueIsBounded(maxRequests: int, window: real, calls: seq<Call>, identity: string)
    requires maxRequests >= 1
    ensures |QueueOf(Table(maxRequests, window, calls), identity)| <= maxRequests
  {
    if calls != [] {
      QueueIsBounded(maxRequests, window, calls[..|calls| - 1], identity);
    }
  }

  // Calls of other identities do not touch this one's queue.
  lemma {:induction false} OthersLeaveQueue(maxRequests: int, window: real, calls: seq<Call>, others: seq<Call>,
                                            identity: string)
    requires forall o | o in others :: o.identity != identity
    ensures QueueOf(Table(maxRequests, window, calls + others), identity)
            == QueueOf(Table(maxRequests, window, calls), identity)
  {
    hide Popped, Answered;
    if others == [] {
      assert calls + others == calls;
    } else {
      var n := |others| - 1;
      assert others[n] in others;
      OthersLeaveQueue(maxRequests, window, calls, others[..n], identity);
      assert (calls + others)[..|calls + others| - 1] == calls + others[..n];
    }
  }

  /** Retry-After is honest: an identity that is refused and then stays silent that many seconds
      is admitted, whatever other identities do meanwhile. */
  lemma RetryAfterIsHonoured(maxRequests: int, window: real, calls: seq<Call>, call: Call, others: seq<Call>,
                             later: real)
    requires maxRequests >= 1
    requires Answers(maxRequests, window, calls, call).Limited?
    requires forall o | o in others :: o.identity != call.identity
    requires later >= call.now + Answers(maxRequests, window, calls, call).retryAfter as real
    ensures Answers(maxRequests, window, calls + [call] + others, Call(call.identity, later)) == Admitted
  {
    hide Table, Stale, RetryAfter;
    var id := call.identity;
    QueueIsBounded(maxRequests, window, calls, id);
    OthersLeaveQueue(maxRequests, window, calls + [call], others, id);
    RefusedQueue(maxRequests, window, calls, call);
    var q := Popped(QueueOf(Table(maxRequests, window, calls), id), call.now - window);
    OldestExpires(window, call.now, q[0], later);
    PopLeft(q, later - window);
  }

  lemma RefusedQueue(maxRequests: int, window: real, calls: seq<Call>, call: Call)
    requires Answers(maxRequests, window, calls, call).Limited?
    ensures QueueOf(Table(maxRequests, window, calls + [call]), call.identity)
            == Popped(QueueOf(Table(maxRequests, window, calls), call.identity), call.now - window)
  {
    hide Popped, RetryAfter;
    assert (calls + [call])[..|calls|] == calls;
  }

  lemma OldestExpires(window: real, now: real, oldest: real, later: real)
    requires later >= now + RetryAfter(window, now, oldest) as real
    ensures oldest < later - window
  {
  }

  /** With a limit below one nobody is admitted, and an identity with no hits is not refused
      either: the check raises instead. */
  lemma NoLimitNoAnswer(maxRequests: int, window: real, calls: seq<Call>, call: Call)
    requires maxRequests <= 0
    ensures Answers(maxRequests, window, calls, call) == Broken
  {
    NobodyHits(maxRequests, window, calls, call.identity);
  }

  lemma {:induction false} NobodyHits(maxRequests: int, window: real, calls: seq<Call>, identity: string)
    requires maxRequests <= 0
    ensures QueueOf(Table(maxRequests, window, calls), identity) == []
  {
    if calls != [] {
      NobodyHits(maxRequests, window, calls[..|calls| - 1], identity);
      NobodyHits(maxRequests, window, calls[..|calls| - 1], calls[|calls| - 1].identity);
    }
  }
}
