/** The per-user token bucket of route/v1/user_2fa.go: burst 5, one token every twelve seconds. */
module Limiter {

  const BURST := 5.0
  const SECONDS_PER_TOKEN := 12.0

  /** last is a reading of the monotonic clock, in seconds. */
  datatype Bucket = Bucket(tokens: real, last: real)

  function Full(now: real): Bucket {
    Bucket(BURST, now)
  }

  function Refilled(b: Bucket, now: real): real {
    var t := b.tokens + (now - b.last) / SECONDS_PER_TOKEN;
    if t > BURST then BURST else t
  }

  predicate Allowed(b: Bucket, now: real) {
    Refilled(b, now) >= 1.0
  }

  /** A refusal leaves the bucket as it was. */
  function Taken(b: Bucket, now: real): Bucket {
    if Allowed(b, now) then Bucket(Refilled(b, now) - 1.0, now) else b
  }

  ghost predicate OwesAt(b: Bucket, admitted: seq<real>, i: nat)
    requires i < |admitted|
  {
    (|admitted| - i) as real + b.tokens <= BURST + (b.last - admitted[i]) / SECONDS_PER_TOKEN
  }

  ghost predicate Between(admitted: seq<real>, i: nat, j: nat)
    requires i <= j < |admitted|
  {
    admitted[i] <= admitted[j] && (j - i + 1) as real <= BURST + (admitted[j] - admitted[i]) / SECONDS_PER_TOKEN
  }

  /** The bucket was last full at admission i, and has lost nothing but the tokens given out. */
  ghost predicate FullAt(b: Bucket, admitted: seq<real>, i: nat)
    requires i < |admitted|
  {
    (|admitted| - i) as real + b.tokens == BURST + (b.last - admitted[i]) / SECONDS_PER_TOKEN
  }

  /** What the bucket still holds and what it has given out since any admission add up to no more
      than the burst and the refill since, and to just that since some admission. */
  ghost predicate Accounts(b: Bucket, admitted: seq<real>) {
    && 0.0 <= b.tokens <= BURST
    && (if admitted == [] then b.tokens == BURST else exists i :: 0 <= i < |admitted| && FullAt(b, admitted, i))
    && (forall i :: 0 <= i < |admitted| ==> admitted[i] <= b.last)
    && (forall i :: 0 <= i < |admitted| ==> OwesAt(b, admitted, i))
    && (forall i, j :: 0 <= i <= j < |admitted| ==> Between(admitted, i, j))
  }

  lemma TakingKeepsAccounts(b: Bucket, admitted: seq<real>, now: real)
    requires Accounts(b, admitted) && b.last <= now
    ensures Accounts(Taken(b, now), if Allowed(b, now) then admitted + [now] else admitted)
    ensures Taken(b, now).last <= now
  {
    if Allowed(b, now) {
      var after, list := Taken(b, now), admitted + [now];
      if admitted == [] || Refilled(b, now) == BURST {
        assert FullAt(after, list, |admitted|);
      } else {
        var i :| 0 <= i < |admitted| && FullAt(b, admitted, i);
        assert (now - list[i]) / SECONDS_PER_TOKEN
            == (now - b.last) / SECONDS_PER_TOKEN + (b.last - list[i]) / SECONDS_PER_TOKEN;
        assert FullAt(after, list, i);
      }
      forall i | 0 <= i < |list|
        ensures OwesAt(after, list, i)
      {
        if i < |admitted| {
          assert OwesAt(b, admitted, i);
          assert (now - list[i]) / SECONDS_PER_TOKEN
              == (now - b.last) / SECONDS_PER_TOKEN + (b.last - list[i]) / SECONDS_PER_TOKEN;
        }
      }
      forall i, j | 0 <= i <= j < |list|
        ensures Between(list, i, j)
      {
        if j < |admitted| {
          assert Between(admitted, i, j);
        } else {
          assert OwesAt(after, list, i);
        }
      }
    }
  }

  /** One more admission now keeps the window that began with admission i within the budget. */
  ghost predicate FitsSince(admitted: seq<real>, i: nat, now: real)
    requires i < |admitted|
  {
    (|admitted| - i + 1) as real <= 5.0 + (now - admitted[i]) / 12.0
  }

  /** The bucket is exact: it refuses just what would put some window over the budget. */
  lemma AllowedIff(b: Bucket, admitted: seq<real>, now: real)
    requires Accounts(b, admitted) && b.last <= now
    ensures Allowed(b, now) <==> forall i :: 0 <= i < |admitted| ==> FitsSince(admitted, i, now)
  {
    if Allowed(b, now) {
      TakingKeepsAccounts(b, admitted, now);
      var list := admitted + [now];
      forall i | 0 <= i < |admitted|
        ensures FitsSince(admitted, i, now)
      {
        assert Between(list, i, |admitted|);
      }
    } else if admitted != [] {
      var i :| 0 <= i < |admitted| && FullAt(b, admitted, i);
      assert (now - admitted[i]) / SECONDS_PER_TOKEN
          == (now - b.last) / SECONDS_PER_TOKEN + (b.last - admitted[i]) / SECONDS_PER_TOKEN;
      assert !FitsSince(admitted, i, now);
    }
  }

  /** The admissions in the window of w seconds from start. */
  ghost function InWindow(admitted: seq<real>, start: real, w: real): set<nat> {
    set i: nat | i < |admitted| && start <= admitted[i] <= start + w
  }

  ghost function Interval(lo: nat, hi: nat): (s: set<nat>)
    requires lo <= hi
    ensures |s| == hi - lo + 1
    ensures forall i :: i in s <==> lo <= i <= hi
    decreases hi - lo
  {
    if lo == hi then {lo} else {lo} + Interval(lo + 1, hi)
  }

  lemma SubsetSize(a: set<nat>, b: set<nat>)
    requires a <= b
    ensures |a| <= |b|
  {
    assert b == a + (b - a);
  }

  lemma {:induction false} Extremes(s: set<nat>) returns (lo: nat, hi: nat)
    requires s != {}
    ensures lo in s && hi in s && forall i :: i in s ==> lo <= i <= hi
  {
    var x :| x in s;
    var rest := s - {x};
    if rest == {} {
      lo, hi := x, x;
    } else {
      lo, hi := Extremes(rest);
      lo, hi := if x < lo then x else lo, if x > hi then x else hi;
    }
    forall i | i in s
      ensures lo <= i <= hi
    {
      assert i == x || i in rest;
    }
  }

  /** In any window of w seconds at most 5 + floor(w / 12) admissions. */
  lemma WindowBudget(b: Bucket, admitted: seq<real>, start: real, w: real)
    requires Accounts(b, admitted) && w >= 0.0
    ensures |InWindow(admitted, start, w)| <= 5 + (w / SECONDS_PER_TOKEN).Floor
  {
    var s := InWindow(admitted, start, w);
    if s != {} {
      var lo, hi := Extremes(s);
      SubsetSize(s, Interval(lo, hi));
      assert Between(admitted, lo, hi);
      var between := admitted[hi] - admitted[lo];
      assert between / SECONDS_PER_TOKEN <= w / SECONDS_PER_TOKEN;
      assert (hi - lo + 1) as real <= BURST + w / SECONDS_PER_TOKEN;
      FloorBound((hi as int) - lo - 4, w / SECONDS_PER_TOKEN);
    }
  }

  lemma FloorBound(n: int, x: real)
    requires n as real <= x
    ensures n <= x.Floor
  {
  }

  /** A bucket that was charged for these admissions, the first of which it was made for. */
  ghost predicate Charged(b: Bucket, admitted: seq<real>) {
    Accounts(b, admitted) && admitted != [] && b.last == admitted[|admitted| - 1]
  }

  /** What one request does to a bucket, new or charged before. */
  lemma Serving(b: Bucket, was: seq<real>, now: real, clock: real)
    requires clock <= now && (if was == [] then b == Full(now) else Charged(b, was) && b.last <= clock)
    ensures Allowed(b, now) <==> forall i :: 0 <= i < |was| ==> FitsSince(was, i, now)
    ensures was == [] || now - was[|was| - 1] >= 12.0 ==> Allowed(b, now)
    ensures Charged(Taken(b, now), if Allowed(b, now) then was + [now] else was) && Taken(b, now).last <= now
  {
    if was == [] {
      assert Accounts(b, was);
    }
    AllowedIff(b, was, now);
    TakingKeepsAccounts(b, was, now);
    hide Accounts;
    if was != [] && now - was[|was| - 1] >= 12.0 {
      PeriodRefillsOne(b, now);
    }
  }

  lemma PeriodRefillsOne(b: Bucket, now: real)
    requires b.tokens >= 0.0 && now - b.last >= 12.0
    ensures Allowed(b, now)
  {
    assert (now - b.last) / SECONDS_PER_TOKEN >= 1.0;
  }

  /** userLimiters: one bucket per user id, made full on first use and never dropped. */
  class Limiters {
    var buckets: map<int, Bucket>
    ghost var admitted: map<int, seq<real>> // when a request of the user was let through
    ghost var clock: real

    ghost predicate Valid()
      reads this
    {
      && buckets.Keys == admitted.Keys
      && forall id :: id in buckets ==> Charged(buckets[id], admitted[id]) && buckets[id].last <= clock
    }

    ghost function Admitted(id: int): seq<real>
      reads this
    {
      if id in admitted then admitted[id] else []
    }

    constructor (ghost now: real)
      ensures Valid() && clock == now && forall id :: Admitted(id) == []
    {
      buckets, admitted, clock := map[], map[], now;
    }

    /** No user gets more than five requests and one for every twelve seconds into any window. */
    lemma EveryWindow(id: int, start: real, w: real)
      requires Valid() && w >= 0.0
      ensures |InWindow(Admitted(id), start, w)| <= 5 + (w / 12.0).Floor
    {
      if id in admitted {
        WindowBudget(buckets[id], admitted[id], start, w);
      } else {
        assert InWindow([], start, w) == {};
      }
    }

    /** userLimiter(id).Allow(): what it lets through stays within the budget of that user and costs no
        other user anything, and it refuses just what would not. So a first request, and one twelve
        seconds after the last that was let through, is never refused. */
    method Allow(id: int, now: real) returns (ok: bool)
      requires Valid() && clock <= now
      modifies this
      ensures Valid() && clock == now
      ensures Admitted(id) == if ok then old(Admitted(id)) + [now] else old(Admitted(id))
      ensures forall other :: other != id ==> Admitted(other) == old(Admitted(other))
      ensures forall start: real, w: real :: w >= 0.0 ==> |InWindow(Admitted(id), start, w)| <= 5 + (w / 12.0).Floor
      ensures var was := old(Admitted(id)); was == [] || now - was[|was| - 1] >= 12.0 ==> ok
      ensures ok <==> forall i :: 0 <= i < |old(Admitted(id))| ==> FitsSince(old(Admitted(id)), i, now)
    {
      hide Accounts, Allowed, Taken, InWindow, FitsSince, Full;
      ghost var was := Admitted(id);
      if id !in buckets {
        buckets := buckets[id := Full(now)];
      }
      var bucket := buckets[id];
      ok := Allowed(bucket, now);
      Serving(bucket, was, now, clock);
      buckets := buckets[id := Taken(bucket, now)];
      admitted := admitted[id := if ok then was + [now] else was];
      clock := now;
      forall start: real, w: real | w >= 0.0
        ensures |InWindow(Admitted(id), start, w)| <= 5 + (w / 12.0).Floor
      {
        EveryWindow(id, start, w);
      }
    }
  }
}
