/**
 * Admission of connections: a token bucket on top of the peer quota
 * (internal/transport/shared/acceptor.go). Times are in seconds; float64 arithmetic is
 * modelled by reals.
 */
module Acceptor {
  import opened Basics
  import opened Quota

  datatype Reason = AcceptOK | RejectCapacity | RejectRate | RejectPeer

  function Burst(rate: real): (b: real)
    ensures b >= 1.0 && b >= rate
  {
    if rate < 1.0 then 1.0 else rate
  }

  // What the bucket holds at `now`, before any token is taken.
  function Refill(allowance: real, rate: real, last: real, now: real): (r: real) {
    Topped(allowance, rate, Forward(last, now))
  }

  // How far the clock has gone forward; a step back counts as standing still.
  function Forward(last: real, now: real): real { if now < last then 0.0 else now - last }

  function Topped(allowance: real, rate: real, elapsed: real): real {
    var full := allowance + elapsed * rate;
    if full > Burst(rate) then Burst(rate) else full
  }

  // Any stretch of accepted connections, from the i-th to the j-th.
  predicate WithinRate(times: seq<real>, rate: real) {
    forall i, j :: 0 <= i <= j < |times| ==> Bounded(times[i], times[j], j - i + 1, rate)
  }

  predicate Bounded(from: real, to: real, n: int, rate: real) {
    n as real <= Burst(rate) + rate * (to - from)
  }

  // The same, plus the tokens left, up to the last reading of the clock.
  predicate Funded(times: seq<real>, rate: real, allowance: real, last: real) {
    forall i :: 0 <= i < |times| ==> Owed(times[i], |times| - i, rate, allowance, last)
  }

  predicate Owed(from: real, n: int, rate: real, allowance: real, last: real) {
    allowance + n as real <= Burst(rate) + rate * (last - from)
  }

  predicate Ascending(times: seq<real>, last: real) {
    && (forall i, j :: 0 <= i < j < |times| ==> times[i] <= times[j])
    && (forall i :: 0 <= i < |times| ==> times[i] <= last)
  }

  predicate Paced(times: seq<real>, rate: real, allowance: real, last: real) {
    Ascending(times, last) && WithinRate(times, rate) && Funded(times, rate, allowance, last)
  }

  lemma Distributes(rate: real, from: real, last: real, now: real)
    ensures rate * (last - from) + (now - last) * rate == rate * (now - from)
  {
  }

  lemma Refilled(times: seq<real>, rate: real, allowance: real, last: real, now: real)
    requires Paced(times, rate, allowance, last) && now >= last && rate > 0.0
    ensures Paced(times, rate, Refill(allowance, rate, last, now), now)
  {
    var a := Refill(allowance, rate, last, now);
    forall i | 0 <= i < |times| ensures Owed(times[i], |times| - i, rate, a, now) {
      assert Owed(times[i], |times| - i, rate, allowance, last);
      Distributes(rate, times[i], last, now);
    }
  }

  lemma Taken(times: seq<real>, rate: real, allowance: real, now: real)
    requires Paced(times, rate, allowance, now) && 1.0 <= allowance <= Burst(rate)
    ensures Paced(times + [now], rate, allowance - 1.0, now)
  {
    var times' := times + [now];
    var n := |times|;
    forall i | 0 <= i < |times'| ensures Owed(times'[i], n + 1 - i, rate, allowance - 1.0, now) {
      assert i < n ==> Owed(times[i], n - i, rate, allowance, now);
      assert (n + 1 - i) as real == (n - i) as real + 1.0;
      assert i == n ==> rate * (now - times'[i]) == 0.0;
    }
    forall i, j | 0 <= i <= j < |times'| ensures Bounded(times'[i], times'[j], j - i + 1, rate) {
      if j < n {
        assert Bounded(times[i], times[j], j - i + 1, rate);
      } else {
        assert Owed(times'[i], n + 1 - i, rate, allowance - 1.0, now);
      }
    }
  }

  lemma RefillRange(allowance: real, rate: real, last: real, now: real)
    requires rate > 0.0 && 0.0 <= allowance
    ensures 0.0 <= Refill(allowance, rate, last, now) <= Burst(rate)
  {
    assert Forward(last, now) * rate >= 0.0;
  }

  // One look at the bucket, with or without a token in it.
  lemma TokenPaced(times: seq<real>, rate: real, allowance: real, last: real, now: real)
    requires Paced(times, rate, allowance, last) && now >= last && rate > 0.0 && allowance >= 0.0
    ensures var full := Refill(allowance, rate, last, now);
            if full >= 1.0 then Paced(times + [now], rate, full - 1.0, now) else Paced(times, rate, full, now)
  {
    RefillRange(allowance, rate, last, now);
    Refilled(times, rate, allowance, last, now);
    var full := Refill(allowance, rate, last, now);
    if full >= 1.0 {
      Taken(times, rate, full, now);
    }
  }

  // How many times lie before s, or up to and including s.
  lemma Position(times: seq<real>, last: real, s: real, inclusive: bool) returns (k: nat)
    requires Ascending(times, last)
    ensures k <= |times|
    ensures forall i :: 0 <= i < |times| ==> (i < k <==> times[i] < s || (inclusive && times[i] == s))
  {
    k := 0;
    while k < |times| && (times[k] < s || (inclusive && times[k] == s))
      invariant k <= |times| && forall i :: 0 <= i < k ==> times[i] < s || (inclusive && times[i] == s)
    {
      k := k + 1;
    }
  }

  lemma Widened(rate: real, from: real, to: real, s: real, t: real)
    requires rate > 0.0 && s <= from <= to <= t
    ensures rate * (to - from) <= rate * (t - s)
  {
  }

  ghost function Inside(times: seq<real>, s: real, t: real): set<nat> {
    set i: nat | i < |times| && s <= times[i] <= t
  }

  // The times in [s, t] are a stretch of the sequence.
  lemma Stretch(times: seq<real>, last: real, s: real, t: real) returns (lo: nat, hi: nat)
    requires Ascending(times, last)
    ensures lo < hi ==> hi <= |times| && s <= times[lo] <= times[hi - 1] <= t && |Inside(times, s, t)| <= hi - lo
    ensures lo >= hi ==> |Inside(times, s, t)| == 0
  {
    lo := Position(times, last, s, false);
    hi := Position(times, last, t, true);
    if lo < hi {
      SubsetIsSmaller(Inside(times, s, t), Interval(lo, hi - lo));
    } else {
      assert Inside(times, s, t) == {};
    }
  }

  // Accepted connections in [s, t] number at most the burst plus what the rate allows for
  // its length.
  lemma PacedInterval(times: seq<real>, rate: real, allowance: real, last: real, s: real, t: real)
    requires Paced(times, rate, allowance, last) && rate > 0.0 && s <= t
    ensures |Inside(times, s, t)| as real <= Burst(rate) + rate * (t - s)
  {
    var lo, hi := Stretch(times, last, s, t);
    if lo < hi {
      var last := hi - 1;
      assert Bounded(times[lo], times[last], last - lo + 1, rate);
      WithinInterval(|Inside(times, s, t)|, last - lo + 1, rate, times[lo], times[last], s, t);
    } else {
      Widened(rate, s, s, s, t);
    }
  }

  lemma WithinInterval(n: nat, m: nat, rate: real, from: real, to: real, s: real, t: real)
    requires n <= m && Bounded(from, to, m, rate) && rate > 0.0 && s <= from <= to <= t
    ensures n as real <= Burst(rate) + rate * (t - s)
  {
    Widened(rate, from, to, s, t);
    assert n as real <= m as real;
  }

  predicate Shifted(times: seq<real>, ticks: seq<real>, start: real) {
    |times| == |ticks| && forall i :: 0 <= i < |times| ==> times[i] == ticks[i] + start
  }

  // The same, for a clock that may step back: what counts is how far it went forward.
  lemma Looked(ticks: seq<real>, rate: real, allowance: real, uptime: real, last: real, now: real, elapsed: real)
    requires Paced(ticks, rate, allowance, uptime) && rate > 0.0 && allowance >= 0.0
    requires elapsed == Forward(last, now)
    ensures var full := Refill(allowance, rate, last, now);
            && 0.0 <= full <= Burst(rate)
            && (if full >= 1.0 then Paced(ticks + [uptime + elapsed], rate, full - 1.0, uptime + elapsed)
                else Paced(ticks, rate, full, uptime + elapsed))
  {
    RefillRange(allowance, rate, last, now);
    assert Forward(uptime, uptime + elapsed) == elapsed;
    TokenPaced(ticks, rate, allowance, uptime, uptime + elapsed);
  }

  class Acceptor {
    const quota: PeerQuota
    const rate: real
    var allowance: real
    var lastCheck: real
    // Of the accepted connections, the clock readings and how far the clock had gone
    // forward by then; how far it has gone by now, and whether it has ever stepped back.
    ghost const start: real
    ghost var times: seq<real>
    ghost var ticks: seq<real>
    ghost var uptime: real
    ghost var steady: bool

    ghost predicate Valid()
      reads this, quota
    {
      && quota.Valid()
      && (rate > 0.0 ==> 0.0 <= allowance <= Burst(rate))
      && (rate > 0.0 ==> Paced(ticks, rate, allowance, uptime) && |times| == |ticks|)
      && (rate > 0.0 && steady ==> lastCheck == start + uptime && Shifted(times, ticks, start))
    }

    // Whatever the clock does, the connections accepted while it went forward from s to t
    // number at most max(rate, 1) + rate * (t - s).
    lemma ForwardIntervalHolds(s: real, t: real)
      requires Valid() && rate > 0.0 && s <= t
      ensures |Inside(ticks, s, t)| as real <= Burst(rate) + rate * (t - s)
    {
      PacedInterval(ticks, rate, allowance, uptime, s, t);
    }

    // As long as the clock has not stepped back, that is so of its readings.
    lemma IntervalHolds(s: real, t: real)
      requires Valid() && rate > 0.0 && steady && s <= t
      ensures |Inside(times, s, t)| as real <= Burst(rate) + rate * (t - s)
    {
      ForwardIntervalHolds(s - start, t - start);
      assert Inside(times, s, t) == Inside(ticks, s - start, t - start);
      assert (t - start) - (s - start) == t - s;
    }

    constructor (maxConns: int, acceptRate: real, maxPerPeer: int, now: real)
      ensures Valid() && fresh(quota) && rate == acceptRate && times == [] && steady && lastCheck == now
      ensures allowance == acceptRate
      ensures quota.maxTotal == maxConns && quota.maxPeer == maxPerPeer && quota.total == 0 && quota.peers == map[]
    {
      quota := new PeerQuota(maxConns, maxPerPeer);
      rate, allowance, lastCheck := acceptRate, acceptRate, now;
      start, times, ticks, uptime, steady := now, [], [], 0.0, true;
    }

    method TryAccept(peer: Addr, now: real) returns (r: Reason)
      requires Valid()
      modifies this, quota
      ensures Valid()
      ensures var v := old(Judge(quota.maxTotal, quota.maxPeer, quota.total, quota.peers, peer));
              && (r == RejectCapacity <==> v.QuotaFull?) && (r == RejectPeer <==> v.QuotaPeerFull?)
              && (v.QuotaOK? ==>
                    (r == AcceptOK <==> rate <= 0.0 || Refill(old(allowance), rate, old(lastCheck), now) >= 1.0))
      ensures r == AcceptOK ==>
                && quota.total == old(quota.total) + 1 && quota.peers == old(Charge(quota.peers, peer))
                && times == old(times) + [now]
      ensures r != AcceptOK ==>
                quota.total == old(quota.total) && quota.peers == old(quota.peers) && times == old(times)
      ensures if rate > 0.0 && r in {AcceptOK, RejectRate} then
                && lastCheck == now && steady == (old(steady) && now >= old(lastCheck))
                && allowance == Refill(old(allowance), rate, old(lastCheck), now) - if r == AcceptOK then 1.0 else 0.0
              else
                allowance == old(allowance) && lastCheck == old(lastCheck) && steady == old(steady)
    {
      var v := quota.Acquire(peer);
      if v.QuotaFull? {
        return RejectCapacity;
      }
      if v.QuotaPeerFull? {
        return RejectPeer;
      }
      if rate <= 0.0 {
        times := times + [now];
        return AcceptOK;
      }
      var ok := TakeToken(now);
      if !ok {
        RefundUndoesCharge(old(quota.peers), peer);
        quota.Release(peer);
        return RejectRate;
      }
      return AcceptOK;
    }

    // What a look at the bucket needs and keeps.
    ghost predicate BucketOk()
      reads this
    {
      && rate > 0.0 && 0.0 <= allowance <= Burst(rate)
      && Paced(ticks, rate, allowance, uptime) && |times| == |ticks|
      && (steady ==> lastCheck == start + uptime && Shifted(times, ticks, start))
    }

    method TopUp(elapsed: real)
      modifies this`allowance
      ensures allowance == Topped(old(allowance), rate, elapsed)
    {
      allowance := allowance + elapsed * rate;
      if allowance > Burst(rate) {
        allowance := Burst(rate);
      }
    }

    // The bucket under its lock.
    method TakeToken(now: real) returns (ok: bool)
      requires BucketOk()
      modifies this
      ensures BucketOk()
      ensures var full := Refill(old(allowance), rate, old(lastCheck), now);
              (ok <==> full >= 1.0) && allowance == full - if ok then 1.0 else 0.0
      ensures lastCheck == now && steady == (old(steady) && now >= old(lastCheck))
      ensures times == if ok then old(times) + [now] else old(times)
    {
      var elapsed := now - lastCheck;
      if elapsed < 0.0 {
        elapsed := 0.0;
      }
      Looked(ticks, rate, allowance, uptime, lastCheck, now, elapsed);
      TopUp(elapsed);
      steady, uptime := steady && now >= lastCheck, uptime + elapsed;
      lastCheck := now;
      ok := allowance >= 1.0;
      if ok {
        allowance := allowance - 1.0;
        times, ticks := times + [now], ticks + [uptime];
      }
    }

    method Done(peer: Addr)
      requires Valid() && quota.total > 0 && (peer.Peer? ==> peer in quota.peers)
      modifies quota
      ensures Valid() && quota.total == old(quota.total) - 1 && quota.peers == old(Refund(quota.peers, peer))
    {
      quota.Release(peer);
    }
  }

  // After a clock has stepped back the readings prove nothing: with one connection a second,
  // any number can be accepted at the same reading.
  method StepBackBreaksTheBound(peer: Addr, n: nat) returns (a: Acceptor)
    ensures a.Valid() && a.rate == 1.0 && |Inside(a.times, 1.0, 1.0)| == n
  {
    a := new Acceptor(0, 1.0, 0, 0.0);
    var r := a.TryAccept(peer, 0.0);
    var k := 0;
    NoneAt(a.times);
    while k < n
      invariant 0 <= k <= n && fresh(a) && fresh(a.quota) && a.Valid() && a.rate == 1.0 && a.allowance == 0.0
      invariant a.quota.maxTotal == 0 && a.quota.maxPeer == 0
      invariant 0.0 <= a.lastCheck && |Inside(a.times, 1.0, 1.0)| == k
    {
      r := a.TryAccept(peer, 0.0);
      OneMore(a.times, 1.0, 1.0, 1.0);
      r := a.TryAccept(peer, 1.0);
      k := k + 1;
    }
  }

  lemma NoneAt(times: seq<real>)
    requires times == [0.0]
    ensures |Inside(times, 1.0, 1.0)| == 0
  {
    assert Inside(times, 1.0, 1.0) == {};
  }

  lemma OneMore(times: seq<real>, now: real, s: real, t: real)
    ensures |Inside(times + [now], s, t)| == |Inside(times, s, t)| + if s <= now <= t then 1 else 0
  {
    assert Inside(times + [now], s, t) == Inside(times, s, t) + if s <= now <= t then {|times|} else {};
  }
}
