// guardrails/rate_limiter.py: the token bucket in front of every exchange call.
//
// TokenBucket is the specification: what a list of dated calls does to a bucket, and
// which of the calls are granted. RateLimiting is the class that the bot uses; its ghost
// history ties every run of the class to the specification.

module TokenBucket {
  import opened Averages

  datatype Limits = Limits(capacity: real, rate: real)

  datatype Bucket = Bucket(tokens: real, last: real)

  /** One refill of the bucket: Look only reads it, Take also consumes a token if one is there. */
  datatype Call = Look(at: real) | Take(at: real)

  ghost predicate ValidLimits(c: Limits) {
    0.0 <= c.capacity && 0.0 < c.rate
  }

  /** The tokens that come in from s to t. */
  function Earned(c: Limits, s: real, t: real): real {
    (t - s) * c.rate
  }

  function Full(c: Limits, at: real): Bucket {
    Bucket(c.capacity, at)
  }

  function Refill(c: Limits, b: Bucket, now: real): Bucket {
    var tokens := b.tokens + Earned(c, b.last, now);
    Bucket(if c.capacity <= tokens then c.capacity else tokens, now)
  }

  predicate Grants(c: Limits, b: Bucket, call: Call) {
    call.Take? && 1.0 <= Refill(c, b, call.at).tokens
  }

  function Step(c: Limits, b: Bucket, call: Call): Bucket {
    var r := Refill(c, b, call.at);
    if Grants(c, b, call) then r.(tokens := r.tokens - 1.0) else r
  }

  /** The bucket after all `calls`, in order. */
  function Run(c: Limits, b: Bucket, calls: seq<Call>): Bucket {
    if calls == [] then b
    else Step(c, Run(c, b, calls[..|calls| - 1]), calls[|calls| - 1])
  }

  predicate Granted(c: Limits, b: Bucket, calls: seq<Call>, i: nat)
    requires i < |calls|
  {
    Grants(c, Run(c, b, calls[..i]), calls[i])
  }

  /** How many of the calls lo..hi were granted. */
  function Count(c: Limits, b: Bucket, calls: seq<Call>, lo: nat, hi: nat): nat
    requires hi <= |calls|
    decreases hi
  {
    if hi <= lo then 0
    else Count(c, b, calls, lo, hi - 1) + if Granted(c, b, calls, hi - 1) then 1 else 0
  }

  /** How many tokens were granted at clock readings in [s, t]. */
  function GrantsWithin(c: Limits, b: Bucket, calls: seq<Call>, s: real, t: real, hi: nat): nat
    requires hi <= |calls|
  {
    if hi == 0 then 0
    else
      GrantsWithin(c, b, calls, s, t, hi - 1)
      + if s <= calls[hi - 1].at <= t && Granted(c, b, calls, hi - 1) then 1 else 0
  }

  /** Clock readings never go back. */
  ghost predicate Ordered(start: real, calls: seq<Call>) {
    && (forall i :: 0 <= i < |calls| ==> start <= calls[i].at)
    && (forall i, j :: 0 <= i < j < |calls| ==> calls[i].at <= calls[j].at)
  }

  // ... and the latest of them was at t or before.
  ghost predicate OrderedUpTo(start: real, calls: seq<Call>, t: real) {
    Ordered(start, calls) && start <= t && forall i :: 0 <= i < |calls| ==> calls[i].at <= t
  }

  lemma NextCall(c: Limits, b: Bucket, start: real, calls: seq<Call>, t: real, e: Call)
    requires OrderedUpTo(start, calls, t) && t <= e.at
    ensures OrderedUpTo(start, calls + [e], e.at)
    ensures Run(c, b, calls + [e]) == Step(c, Run(c, b, calls), e)
    ensures Granted(c, b, calls + [e], |calls|) <==> Grants(c, Run(c, b, calls), e)
  {
    assert (calls + [e])[..|calls|] == calls;
  }

  lemma EarnedAdds(c: Limits, s: real, m: real, t: real)
    ensures Earned(c, s, t) == Earned(c, s, m) + Earned(c, m, t)
  {
  }

  lemma EarnedGrows(c: Limits, s: real, m: real, t: real)
    requires ValidLimits(c) && m <= t
    ensures Earned(c, s, m) <= Earned(c, s, t)
    ensures Earned(c, m, m) == 0.0
  {
  }

  lemma OrderedPrefix(start: real, calls: seq<Call>, n: nat)
    requires Ordered(start, calls) && n <= |calls|
    ensures Ordered(start, calls[..n])
  {
  }

  lemma GrantedPrefix(c: Limits, b: Bucket, calls: seq<Call>, more: seq<Call>, i: nat)
    requires i < |calls|
    ensures Granted(c, b, calls + more, i) <==> Granted(c, b, calls, i)
  {
    assert (calls + more)[..i] == calls[..i];
  }

  ghost predicate NoneGranted(c: Limits, b: Bucket, calls: seq<Call>, lo: nat, hi: nat)
    requires hi <= |calls|
  {
    forall i :: lo <= i < hi ==> !Granted(c, b, calls, i)
  }

  lemma NoneGrantedYet(c: Limits, b: Bucket, calls: seq<Call>)
    ensures NoneGranted(c, b, calls, |calls|, |calls|)
  {
  }

  lemma NoneGrantedMore(c: Limits, b: Bucket, calls: seq<Call>, call: Call, lo: nat)
    requires NoneGranted(c, b, calls, lo, |calls|)
    ensures NoneGranted(c, b, calls + [call], lo, |calls|)
    ensures !Granted(c, b, calls + [call], |calls|) ==> NoneGranted(c, b, calls + [call], lo, |calls| + 1)
  {
    forall i | lo <= i < |calls|
      ensures !Granted(c, b, calls + [call], i)
    {
      GrantedPrefix(c, b, calls, [call], i);
    }
  }

  lemma RunPrefix(c: Limits, b: Bucket, calls: seq<Call>, n: nat)
    requires n < |calls|
    ensures Run(c, b, calls[..n + 1]) == Step(c, Run(c, b, calls[..n]), calls[n])
  {
    assert calls[..n + 1][..n] == calls[..n];
  }

  /** 0 <= tokens <= capacity after every call, and `last` is the last reading. */
  lemma {:induction false} TokensInRange(c: Limits, start: real, calls: seq<Call>)
    requires ValidLimits(c) && Ordered(start, calls)
    ensures 0.0 <= Run(c, Full(c, start), calls).tokens <= c.capacity
    ensures Run(c, Full(c, start), calls).last == if calls == [] then start else calls[|calls| - 1].at
  {
    hide Earned;
    if calls != [] {
      var n := |calls| - 1;
      OrderedPrefix(start, calls, n);
      TokensInRange(c, start, calls[..n]);
      var b := Run(c, Full(c, start), calls[..n]);
      EarnedGrows(c, b.last, b.last, calls[n].at);
    }
  }

  // The window starting at call k (k < n), or at the start of the run (k == n), leaves room
  // for this many more tokens at time t after n calls.
  ghost function Room(c: Limits, start: real, calls: seq<Call>, k: nat, n: nat, t: real): real
    requires k <= n <= |calls|
  {
    if k == n then c.capacity + Earned(c, start, t) - Count(c, Full(c, start), calls, 0, n) as real
    else c.capacity + Earned(c, calls[k].at, t) - Count(c, Full(c, start), calls, k, n) as real
  }

  ghost predicate LeastRoom(c: Limits, start: real, calls: seq<Call>, n: nat, b: Bucket)
    requires n <= |calls|
  {
    && (forall k: nat :: k <= n ==> b.tokens <= Room(c, start, calls, k, n, b.last))
    && (exists k: nat :: k <= n && b.tokens == Room(c, start, calls, k, n, b.last))
  }

  /** The tokens after n calls are exactly the least room that any window leaves. */
  lemma {:induction false} TokensAreLeastRoom(c: Limits, start: real, calls: seq<Call>, n: nat)
    requires ValidLimits(c) && Ordered(start, calls) && n <= |calls|
    ensures LeastRoom(c, start, calls, n, Run(c, Full(c, start), calls[..n]))
  {
    hide Earned;
    var f := Full(c, start);
    var b := Run(c, f, calls[..n]);
    if n == 0 {
      assert calls[..0] == [];
      EarnedGrows(c, start, start, start);
      assert b == f;
      assert b.tokens == Room(c, start, calls, n, n, b.last);
    } else {
      var m := n - 1;
      var a := Run(c, f, calls[..m]);
      var t := calls[m].at;
      TokensAreLeastRoom(c, start, calls, m);
      RunPrefix(c, f, calls, m);
      OrderedPrefix(start, calls, m);
      TokensInRange(c, start, calls[..m]);
      assert a.last <= t;
      var taken := if Granted(c, f, calls, m) then 1.0 else 0.0;
      assert b.tokens == Refill(c, a, t).tokens - taken;
      assert b.last == t;
      forall k: nat | k <= n
        ensures b.tokens <= Room(c, start, calls, k, n, t)
      {
        RoomStep(c, start, calls, k, m, a.last, t);
      }
      if c.capacity <= a.tokens + Earned(c, a.last, t) {
        RoomStep(c, start, calls, m, m, a.last, t);
        assert b.tokens == Room(c, start, calls, m, n, t);
      } else {
        var k: nat :| k <= m && a.tokens == Room(c, start, calls, k, m, a.last);
        var k' := if k == m then n else k;
        RoomStep(c, start, calls, k', m, a.last, t);
        assert b.tokens == Room(c, start, calls, k', n, t);
      }
    }
  }

  // How the room of each window changes with call m at time t.
  lemma RoomStep(c: Limits, start: real, calls: seq<Call>, k: nat, m: nat, s: real, t: real)
    requires ValidLimits(c) && m < |calls| && k <= m + 1 && t == calls[m].at
    ensures var taken := if Granted(c, Full(c, start), calls, m) then 1.0 else 0.0;
      Room(c, start, calls, k, m + 1, t)
      == (if k == m then c.capacity
          else Room(c, start, calls, if k == m + 1 then m else k, m, s) + Earned(c, s, t)) - taken
  {
    hide Earned;
    var f := Full(c, start);
    if k == m {
      assert Count(c, f, calls, m, m) == 0;
      EarnedGrows(c, t, t, t);
    } else if k == m + 1 {
      EarnedAdds(c, start, s, t);
    } else {
      EarnedAdds(c, calls[k].at, s, t);
    }
  }

  // The grant rule, with what came in by name.
  lemma GrantByEarned(c: Limits, start: real, calls: seq<Call>, n: nat)
    requires ValidLimits(c) && Ordered(start, calls) && n < |calls| && calls[n].Take?
    ensures Granted(c, Full(c, start), calls, n) <==>
      && 1.0 <= c.capacity
      && Count(c, Full(c, start), calls, 0, n) as real + 1.0 <= c.capacity + Earned(c, start, calls[n].at)
      && (forall k: nat :: k < n ==>
            Count(c, Full(c, start), calls, k, n) as real + 1.0
            <= c.capacity + Earned(c, calls[k].at, calls[n].at))
  {
    hide Earned;
    var f := Full(c, start);
    var b := Run(c, f, calls[..n]);
    var t := calls[n].at;
    TokensAreLeastRoom(c, start, calls, n);
    OrderedPrefix(start, calls, n);
    TokensInRange(c, start, calls[..n]);
    forall k: nat | k <= n
      ensures Room(c, start, calls, k, n, t) == Room(c, start, calls, k, n, b.last) + Earned(c, b.last, t)
    {
      if k == n {
        EarnedAdds(c, start, b.last, t);
      } else {
        EarnedAdds(c, calls[k].at, b.last, t);
      }
    }
    var k: nat :| k <= n && b.tokens == Room(c, start, calls, k, n, b.last);
    assert b.tokens + Earned(c, b.last, t) == Room(c, start, calls, k, n, t);
    assert Room(c, start, calls, n, n, t)
        == c.capacity + Earned(c, start, t) - Count(c, f, calls, 0, n) as real;
    forall j: nat | j < n
      ensures Room(c, start, calls, j, n, t)
           == c.capacity + Earned(c, calls[j].at, t) - Count(c, f, calls, j, n) as real
    {
    }
    assert b.tokens + Earned(c, b.last, t) <= Room(c, start, calls, n, n, t);
    forall j: nat | j < n
      ensures b.tokens + Earned(c, b.last, t) <= Room(c, start, calls, j, n, t)
    {
      assert b.tokens <= Room(c, start, calls, j, n, b.last);
    }
  }

  /** From s to t the tokens come in at the rate. */
  lemma EarnedAtRate(c: Limits, s: real, t: real)
    ensures Earned(c, s, t) == Times(c.rate, t - s)
  {
  }

  lemma GrantsMeans(c: Limits, b: Bucket, now: real)
    ensures Grants(c, b, Take(now)) <==> 1.0 <= c.capacity && 1.0 <= b.tokens + Times(c.rate, now - b.last)
  {
    EarnedAtRate(c, b.last, now);
    hide Earned, Times;
  }

  /** One more grant at call n keeps the window from a reading on, with `count` grants in it, within
      capacity + rate * length. */
  ghost predicate KeepsWindow(c: Limits, from: real, to: real, count: nat) {
    count as real + 1.0 <= c.capacity + Times(c.rate, to - from)
  }

  lemma WindowByEarned(c: Limits, from: real, to: real, count: nat)
    ensures KeepsWindow(c, from, to, count) <==> count as real + 1.0 <= c.capacity + Earned(c, from, to)
  {
    EarnedAtRate(c, from, to);
    hide Earned, Times;
  }

  /** The grant rule: a Take is granted exactly when granting it keeps every window that
      ends now, from each earlier call and from the start, within capacity + rate * length. */
  lemma GrantRule(c: Limits, start: real, calls: seq<Call>, n: nat)
    requires ValidLimits(c) && Ordered(start, calls) && n < |calls| && calls[n].Take?
    ensures Granted(c, Full(c, start), calls, n) <==>
      && 1.0 <= c.capacity
      && KeepsWindow(c, start, calls[n].at, Count(c, Full(c, start), calls, 0, n))
      && forall k: nat :: k < n ==> KeepsWindow(c, calls[k].at, calls[n].at, Count(c, Full(c, start), calls, k, n))
  {
    GrantByEarned(c, start, calls, n);
    hide Earned, Granted, Count, Ordered, KeepsWindow;
    var f, now := Full(c, start), calls[n].at;
    WindowByEarned(c, start, now, Count(c, f, calls, 0, n));
    forall k: nat | k < n
      ensures KeepsWindow(c, calls[k].at, now, Count(c, f, calls, k, n))
              <==> Count(c, f, calls, k, n) as real + 1.0 <= c.capacity + Earned(c, calls[k].at, now)
    {
      WindowByEarned(c, calls[k].at, now, Count(c, f, calls, k, n));
    }
  }

  // A window holds no grant, or it holds the grants from some call k up to a granted call j.
  lemma {:induction false} WindowIsARange(
    c: Limits, b: Bucket, calls: seq<Call>, start: real, s: real, t: real, hi: nat) returns (k: nat, j: nat)
    requires Ordered(start, calls) && hi <= |calls|
    ensures GrantsWithin(c, b, calls, s, t, hi) == 0
      || (&& k <= j < hi && s <= calls[k].at && calls[j].at <= t && Granted(c, b, calls, j)
          && GrantsWithin(c, b, calls, s, t, hi) <= Count(c, b, calls, k, j) + 1)
  {
    k, j := 0, 0;
    if hi > 0 {
      k, j := WindowIsARange(c, b, calls, start, s, t, hi - 1);
      var i := hi - 1;
      if s <= calls[i].at <= t && Granted(c, b, calls, i) {
        if GrantsWithin(c, b, calls, s, t, i) == 0 {
          k, j := i, i;
        } else {
          CountMonotone(c, b, calls, k, j + 1, i);
          j := i;
        }
      }
    }
  }

  lemma {:induction false} CountMonotone(c: Limits, b: Bucket, calls: seq<Call>, lo: nat, m: nat, hi: nat)
    requires m <= hi <= |calls|
    ensures Count(c, b, calls, lo, m) <= Count(c, b, calls, lo, hi)
    decreases hi
  {
    if m < hi && lo < hi {
      CountMonotone(c, b, calls, lo, m, hi - 1);
    }
  }

  /** The sliding-window bound: between any two clock readings s <= t, no more than
      capacity + rate * (t - s) tokens are granted, whatever calls were made. */
  lemma SlidingWindow(c: Limits, start: real, calls: seq<Call>, s: real, t: real)
    requires ValidLimits(c) && Ordered(start, calls) && s <= t
    ensures GrantsWithin(c, Full(c, start), calls, s, t, |calls|) as real <= c.capacity + c.rate * (t - s)
  {
    var f := Full(c, start);
    var k, j := WindowIsARange(c, f, calls, start, s, t, |calls|);
    var g := GrantsWithin(c, f, calls, s, t, |calls|);
    assert Earned(c, s, t) == c.rate * (t - s);
    assert 0.0 <= Earned(c, s, t);
    if g != 0 {
      GrantByEarned(c, start, calls, j);
      EarnedAdds(c, s, calls[k].at, t);
      EarnedGrows(c, calls[k].at, calls[j].at, t);
      EarnedGrows(c, s, s, calls[k].at);
    }
  }

  /** Refilling in two steps is refilling once. */
  lemma RefillComposes(c: Limits, b: Bucket, s: real, t: real)
    requires ValidLimits(c) && b.last <= s <= t
    ensures Refill(c, Refill(c, b, s), t) == Refill(c, b, t)
  {
    hide Earned;
    EarnedAdds(c, b.last, s, t);
    EarnedGrows(c, s, s, t);
  }

  // One call more or less that takes no token leaves every later refill the same.
  ghost predicate SameLater(c: Limits, a: Bucket, b: Bucket, from: real) {
    forall t :: from <= t ==> Refill(c, a, t) == Refill(c, b, t)
  }

  lemma UngrantedIsSameLater(c: Limits, b: Bucket, e: Call)
    requires ValidLimits(c) && b.last <= e.at && !Grants(c, b, e)
    ensures SameLater(c, Step(c, b, e), b, e.at)
  {
    forall t | e.at <= t
      ensures Refill(c, Step(c, b, e), t) == Refill(c, b, t)
    {
      RefillComposes(c, b, e.at, t);
    }
  }

  /** Polling is invisible: an extra read, or an extra attempt that gets no token, changes the
      outcome of no later call and leaves the bucket as it would have been. */
  lemma {:induction false} PollingIsInvisible(c: Limits, b: Bucket, e: Call, rest: seq<Call>)
    requires ValidLimits(c) && b.last <= e.at && Ordered(e.at, rest) && !Grants(c, b, e)
    ensures forall i: nat :: i < |rest| ==> (Granted(c, Step(c, b, e), rest, i) <==> Granted(c, b, rest, i))
    ensures SameLater(c, Run(c, Step(c, b, e), rest), Run(c, b, rest), if rest == [] then e.at else rest[|rest| - 1].at)
    ensures rest != [] ==> Run(c, Step(c, b, e), rest) == Run(c, b, rest)
  {
    if rest == [] {
      UngrantedIsSameLater(c, b, e);
    } else {
      var n := |rest| - 1;
      var before := rest[..n];
      PollingIsInvisible(c, b, e, before);
      forall i: nat | i < n
        ensures Granted(c, Step(c, b, e), rest, i) <==> Granted(c, b, rest, i)
      {
        assert rest[..i] == before[..i];
        assert Granted(c, Step(c, b, e), before, i) <==> Granted(c, b, before, i);
      }
      assert Refill(c, Run(c, Step(c, b, e), before), rest[n].at) == Refill(c, Run(c, b, before), rest[n].at);
    }
  }

  /** The calls of a run that were granted. */
  function Kept(c: Limits, b: Bucket, calls: seq<Call>): seq<Call> {
    if calls == [] then []
    else
      var n := |calls| - 1;
      Kept(c, b, calls[..n]) + if Granted(c, b, calls, n) then [calls[n]] else []
  }

  /** Only the granted calls matter: replaying them alone grants all of them and leaves a
      bucket that no later call can tell apart. */
  lemma {:induction false} OnlyGrantsMatter(c: Limits, start: real, calls: seq<Call>)
    requires ValidLimits(c) && Ordered(start, calls)
    ensures var b, kept := Full(c, start), Kept(c, Full(c, start), calls);
      && |kept| == Count(c, b, calls, 0, |calls|)
      && (forall i: nat :: i < |kept| ==> Granted(c, b, kept, i))
      && SameLater(c, Run(c, b, kept), Run(c, b, calls), if calls == [] then start else calls[|calls| - 1].at)
  {
    if calls != [] {
      var n := |calls| - 1;
      var b := Full(c, start);
      var before, e := calls[..n], calls[n];
      OrderedPrefix(start, calls, n);
      OnlyGrantsMatter(c, start, before);
      TokensInRange(c, start, before);
      CountPrefix(c, b, calls, 0, n);
      var kept := Kept(c, b, before);
      assert Refill(c, Run(c, b, kept), e.at) == Refill(c, Run(c, b, before), e.at);
      if Granted(c, b, calls, n) {
        var kept' := kept + [e];
        assert kept'[..|kept|] == kept;
        assert Granted(c, b, kept', |kept|);
        forall i: nat | i < |kept'|
          ensures Granted(c, b, kept', i)
        {
          if i < |kept| {
            assert kept'[..i] == kept[..i];
            assert Granted(c, b, kept, i);
          }
        }
        assert Run(c, b, kept') == Run(c, b, calls);
      } else {
        UngrantedIsSameLater(c, Run(c, b, before), e);
        assert Kept(c, b, calls) == kept;
        var x, y := Run(c, b, kept), Run(c, b, calls);
        forall t | e.at <= t
          ensures Refill(c, x, t) == Refill(c, y, t)
        {
          assert Refill(c, y, t) == Refill(c, Run(c, b, before), t);
        }
      }
    }
  }

  lemma {:induction false} CountPrefix(c: Limits, b: Bucket, calls: seq<Call>, lo: nat, n: nat)
    requires n <= |calls|
    ensures Count(c, b, calls[..n], lo, n) == Count(c, b, calls, lo, n)
  {
    CountAgrees(c, b, calls, lo, n, n);
  }

  lemma {:induction false} CountAgrees(c: Limits, b: Bucket, calls: seq<Call>, lo: nat, m: nat, n: nat)
    requires m <= n <= |calls|
    ensures Count(c, b, calls[..n], lo, m) == Count(c, b, calls, lo, m)
    decreases m
  {
    if lo < m {
      CountAgrees(c, b, calls, lo, m - 1, n);
      assert calls[..n][..m - 1] == calls[..m - 1];
    }
  }
}

module RateLimiting {
  import opened Types
  import opened Averages
  import opened Clocks
  import opened TokenBucket

  /** One turn of the waiting loop: the reading that refilled, and the reading that was
      compared with the deadline (the same reading again when the turn got a token). */
  datatype Poll = Poll(refillAt: real, checkAt: real)

  /** The bucket attempts that a list of polls makes. */
  function Attempts(polls: seq<Poll>): (calls: seq<Call>)
    ensures |calls| == |polls|
    ensures forall i :: 0 <= i < |polls| ==> calls[i] == Take(polls[i].refillAt)
  {
    seq(|polls|, i requires 0 <= i < |polls| => Take(polls[i].refillAt))
  }

  lemma AttemptsAppend(polls: seq<Poll>, p: Poll)
    ensures Attempts(polls + [p]) == Attempts(polls) + [Take(p.refillAt)]
  {
  }

  /** The most turns that a wait of `maxWait` seconds can take, polling every 50 ms. */
  function MaxPolls(maxWait: real): (n: int)
    ensures 0.0 <= maxWait ==> 1.0 + maxWait * 20.0 <= n as real < 2.0 + maxWait * 20.0
  {
    1 + TurnsLeft(maxWait)
  }

  function TurnsLeft(remaining: real): nat {
    if remaining <= 0.0 then 0 else -((0.0 - remaining * 20.0).Floor)
  }

  // A nap of 50 ms, or of all that remains, costs at least one turn.
  lemma FewerTurnsLeft(remaining: real, nap: real, left: real)
    requires 0.0 < remaining && left <= remaining - nap
    requires nap == if remaining < 0.05 then remaining else 0.05
    ensures TurnsLeft(left) < TurnsLeft(remaining)
  {
  }

  lemma TurnsLeftGrows(a: real, b: real)
    requires a <= b
    ensures TurnsLeft(a) <= TurnsLeft(b)
  {
  }

  // A failed turn keeps every token that came in since the wait began.
  lemma FailedTurn(c: Limits, b: Bucket, began: real, later: bool, now: real)
    requires ValidLimits(c) && 0.0 <= b.tokens && b.last <= now && began <= now
    requires b.last <= began || later
    requires later ==> Earned(c, began, b.last) <= b.tokens
    requires !Grants(c, b, Take(now)) && 1.0 <= c.capacity
    ensures Earned(c, began, now) <= Step(c, b, Take(now)).tokens
  {
    hide Earned;
    EarnedAdds(c, began, b.last, now);
    if !later {
      EarnedAdds(c, b.last, began, now);
      EarnedGrows(c, b.last, b.last, began);
    }
  }

  lemma EnoughWaiting(c: Limits, began: real, maxWait: real, refillAt: real)
    requires 0.0 < c.rate && began + maxWait <= refillAt
    ensures Earned(c, 0.0, maxWait) <= Earned(c, began, refillAt)
  {
  }

  class RateLimiter {
    const limits: Limits
    const maxWait: real
    var tokens: real
    var lastRefill: real

    // Every call since construction or the last reset, and when that was.
    ghost var start: real
    ghost var history: seq<Call>

    ghost predicate Valid()
      reads this
    {
      && ValidLimits(limits) && 0.0 <= maxWait
      && OrderedUpTo(start, history, lastRefill)
      && Bucket(tokens, lastRefill) == Run(limits, Full(limits, start), history)
    }

    constructor (burst: nat, rate: real, maxWaitSec: real, now: real)
      requires 0.0 < rate && 0.0 <= maxWaitSec
      ensures Valid() && history == [] && start == now
      ensures limits == Limits(burst as real, rate) && maxWait == maxWaitSec
    {
      limits := Limits(burst as real, rate);
      maxWait := maxWaitSec;
      tokens := burst as real;
      lastRefill := now;
      start := now;
      history := [];
    }

    /** The constructor's own parameter check. */
    static method Create(burst: int, rate: real, maxWaitSec: real, clock: Clock) returns (r: Created<RateLimiter>)
      modifies clock
      ensures r.Ok? <==> 0 <= burst && 0.0 < rate && 0.0 <= maxWaitSec
      ensures r.Ok? ==>
        && fresh(r.value) && r.value.Valid() && r.value.history == [] && r.value.start == clock.now
        && r.value.limits == Limits(burst as real, rate) && r.value.maxWait == maxWaitSec
      ensures old(clock.now) <= clock.now
    {
      if burst < 0 || rate <= 0.0 || maxWaitSec < 0.0 {
        return BadParameter;
      }
      var now := clock.Read();
      var limiter := new RateLimiter(burst, rate, maxWaitSec, now);
      r := Ok(limiter);
    }

    // Refills at a new reading and records `call` there; a Take also consumes.
    method Serve(clock: Clock, take: bool) returns (ok: bool)
      requires Valid() && lastRefill <= clock.now
      modifies this, clock
      ensures Valid() && start == old(start) && old(clock.now) <= clock.now == lastRefill
      ensures history == old(history) + [if take then Take(clock.now) else Look(clock.now)]
      ensures ok <==> Granted(limits, Full(limits, start), history, |history| - 1)
      ensures Bucket(tokens, lastRefill) == Step(limits, Bucket(old(tokens), old(lastRefill)), history[|history| - 1])
      ensures take ==> (ok <==> Grants(limits, Bucket(old(tokens), old(lastRefill)), Take(clock.now)))
      ensures take && !ok ==> tokens < 1.0
    {
      hide Earned, Run, Granted, OrderedUpTo;
      var now := clock.Read();
      ghost var call := if take then Take(now) else Look(now);
      NextCall(limits, Full(limits, start), start, history, lastRefill, call);
      var refilled := tokens + Earned(limits, lastRefill, now);
      tokens := if limits.capacity <= refilled then limits.capacity else refilled;
      lastRefill := now;
      ok := take && 1.0 <= tokens;
      if ok {
        tokens := tokens - 1.0;
      }
      history := history + [call];
    }

    /** Takes a token if there is one; says which by the grant rule. */
    method TryAcquire(clock: Clock) returns (ok: bool)
      requires Valid() && lastRefill <= clock.now
      modifies this, clock
      ensures Valid() && start == old(start) && old(clock.now) <= clock.now == lastRefill
      ensures history == old(history) + [Take(clock.now)]
      ensures ok <==> Granted(limits, Full(limits, start), history, |history| - 1)
      ensures ok <==> 1.0 <= limits.capacity && 1.0 <= old(tokens) + Times(limits.rate, clock.now - old(lastRefill))
    {
      hide Grants, Granted, Run, Times, OrderedUpTo;
      ghost var held := Bucket(tokens, lastRefill);
      ok := Serve(clock, true);
      GrantsMeans(limits, held, clock.now);
    }

    /** The current token count. */
    method Available(clock: Clock) returns (count: real)
      requires Valid() && lastRefill <= clock.now
      modifies this, clock
      ensures Valid() && start == old(start) && old(clock.now) <= clock.now == lastRefill
      ensures history == old(history) + [Look(clock.now)]
      ensures count == tokens && 0.0 <= count <= limits.capacity
    {
      var _ := Serve(clock, false);
      TokensInRange(limits, start, history);
      count := tokens;
    }

    /** Refills to capacity: a new run starts here. */
    method Reset(clock: Clock)
      requires Valid() && lastRefill <= clock.now
      modifies this, clock
      ensures Valid() && history == [] && old(clock.now) <= clock.now == start == lastRefill
    {
      tokens := limits.capacity;
      lastRefill := clock.Read();
      start, history := lastRefill, [];
    }

    // One attempt of the waiting loop that began at `first` after `served` calls.
    method Turn(clock: Clock, first: real, ghost later: bool, ghost served: nat) returns (ok: bool)
      requires Valid() && lastRefill <= clock.now && first <= clock.now && served <= |history|
      requires if later then 1.0 <= limits.capacity ==> Earned(limits, first, lastRefill) <= tokens
               else lastRefill <= first
      requires 0.0 <= tokens && NoneGranted(limits, Full(limits, start), history, served, |history|)
      modifies this, clock
      ensures Valid() && start == old(start) && old(clock.now) <= clock.now == lastRefill && 0.0 <= tokens
      ensures history == old(history) + [Take(lastRefill)]
      ensures NoneGranted(limits, Full(limits, start), history, served, |history| - 1)
      ensures !ok ==> NoneGranted(limits, Full(limits, start), history, served, |history|)
      ensures ok <==> Granted(limits, Full(limits, start), history, |history| - 1)
      ensures !ok && 1.0 <= limits.capacity ==> Earned(limits, first, lastRefill) <= tokens < 1.0
    {
      hide Earned, Run, Granted, NoneGranted, Ordered;
      ghost var held := Bucket(tokens, lastRefill);
      ok := Serve(clock, true);
      TokensInRange(limits, start, history);
      NoneGrantedMore(limits, Full(limits, start), old(history), Take(lastRefill), served);
      if !ok && 1.0 <= limits.capacity {
        FailedTurn(limits, held, first, later, lastRefill);
      }
    }

    /** Polls until a token is granted or the deadline has passed, for a caller that has the
        limiter to itself while it waits. */
    method Acquire(clock: Clock) returns (ok: bool, ghost began: real, ghost polls: seq<Poll>)
      requires Valid() && lastRefill <= clock.now
      modifies this, clock
      ensures Valid() && start == old(start) && old(clock.now) <= began <= clock.now && lastRefill <= clock.now
      // The attempts are recorded; all but the last fail, and the last one decides.
      ensures polls != [] && history == old(history) + Attempts(polls)
      ensures NoneGranted(limits, Full(limits, start), history, |old(history)|, |history| - 1)
      ensures ok <==> Granted(limits, Full(limits, start), history, |history| - 1)
      // The wait is bounded, and giving up means the whole wait was served.
      ensures |polls| <= MaxPolls(maxWait)
      ensures !ok ==> began + maxWait <= polls[|polls| - 1].checkAt
      // Giving up also means that no whole token came in between the start and the last refill.
      ensures !ok ==> limits.capacity < 1.0 || Times(limits.rate, polls[|polls| - 1].refillAt - began) < 1.0
      // So with one clock value a turn, a caller prepared to wait for a token's worth always succeeds.
      ensures 1.0 <= limits.capacity && 1.0 <= Times(limits.rate, maxWait)
        ==> polls[|polls| - 1].refillAt == polls[|polls| - 1].checkAt ==> ok
    {
      EarnedAtRate(limits, 0.0, maxWait);
      hide Earned, Times, TurnsLeft, Run, Step, Granted, Attempts, NoneGranted, Ordered;
      var first := clock.Read();
      began := first;
      var deadline := first + maxWait;
      polls := [];
      TokensInRange(limits, start, history);
      assert Attempts([]) == [];
      NoneGrantedYet(limits, Full(limits, start), history);
      while true
        invariant Valid() && start == old(start) && old(clock.now) <= first <= clock.now && lastRefill <= clock.now
        invariant history == old(history) + Attempts(polls)
        invariant NoneGranted(limits, Full(limits, start), history, |old(history)|, |history|)
        invariant 0.0 <= tokens
        invariant polls != [] && 1.0 <= limits.capacity ==> Earned(limits, first, lastRefill) <= tokens
        invariant polls == [] ==> lastRefill <= first
        invariant |polls| + TurnsLeft(deadline - clock.now) <= TurnsLeft(maxWait)
        decreases TurnsLeft(deadline - clock.now)
      {
        ghost var earlier := deadline - clock.now;
        ok := Turn(clock, first, polls != [], |old(history)|);
        AttemptsAppend(polls, Poll(lastRefill, lastRefill));
        if ok {
          polls := polls + [Poll(lastRefill, lastRefill)];
          return;
        }
        var now := clock.Read();
        var remaining := deadline - now;
        AttemptsAppend(polls, Poll(lastRefill, clock.now));
        polls := polls + [Poll(lastRefill, clock.now)];
        if remaining <= 0.0 {
          EarnedAtRate(limits, first, lastRefill);
          if lastRefill == clock.now && 1.0 <= limits.capacity {
            EnoughWaiting(limits, first, maxWait, lastRefill);
          }
          return;
        }
        var nap := if remaining < 0.05 then remaining else 0.05;
        clock.Sleep(nap);
        TurnsLeftGrows(remaining, earlier);
        FewerTurnsLeft(remaining, nap, deadline - clock.now);
      }
    }
  }
}
