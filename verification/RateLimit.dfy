/**
 * The sliding-window rate limiter (internal/plugin/ratelimit.go). The lists are pruned on
 * every message and by a periodic sweep; the ghost history keeps everything, and each
 * decision is shown to be the one the full history would give.
 */
module RateLimit {
  import opened Basics

  type Key = string

  const SECOND := 1_000_000_000

  predicate Sorted(s: seq<int>) { forall i, j :: 0 <= i < j < |s| ==> s[i] <= s[j] }

  predicate AllBefore(s: seq<int>, t: int) { forall i :: 0 <= i < |s| ==> s[i] < t }

  // How many of the accepted times are not before the cutoff.
  function CountSince(s: seq<int>, cutoff: int): (n: nat)
    ensures n <= |s|
  {
    if s == [] then 0 else CountSince(s[..|s| - 1], cutoff) + if s[|s| - 1] < cutoff then 0 else 1
  }

  // In every stretch of rate + 1 accepted messages, the last comes more than a window after
  // the first.
  ghost predicate Spaced(s: seq<int>, rate: nat, window: int) {
    forall i, j :: 0 <= i && i + rate == j < |s| ==> s[i] + window < s[j]
  }

  lemma {:induction false} NoneSince(s: seq<int>, cutoff: int)
    requires AllBefore(s, cutoff)
    ensures CountSince(s, cutoff) == 0
  {
    if s != [] {
      NoneSince(s[..|s| - 1], cutoff);
    }
  }

  lemma {:induction false} AllSince(expired: seq<int>, recent: seq<int>, cutoff: int)
    requires AllBefore(expired, cutoff) && forall i :: 0 <= i < |recent| ==> recent[i] >= cutoff
    ensures CountSince(expired + recent, cutoff) == |recent|
    decreases |recent|
  {
    if recent == [] {
      assert expired + recent == expired;
      NoneSince(expired, cutoff);
    } else {
      var init := recent[..|recent| - 1];
      AllSince(expired, init, cutoff);
      assert (expired + recent)[..|expired + recent| - 1] == expired + init;
    }
  }

  // Accepting one more message when fewer than rate are recent keeps the spacing.
  lemma AcceptKeepsSpacing(expired: seq<int>, recent: seq<int>, rate: nat, window: int, now: int)
    requires Spaced(expired + recent, rate, window) && AllBefore(expired, now - window) && |recent| < rate
    ensures Spaced(expired + recent + [now], rate, window)
  {
    var s, s' := expired + recent, expired + recent + [now];
    forall i, j | 0 <= i && i + rate == j < |s'| ensures s'[i] + window < s'[j] {
      if j == |s| {
        assert s'[i] == expired[i];
      } else {
        assert s'[i] == s[i] && s'[j] == s[j];
      }
    }
  }

  lemma Beyond(s: seq<int>, rate: nat, window: int, lo: nat, i: nat)
    requires Sorted(s) && Spaced(s, rate, window) && lo <= i < |s|
    ensures lo + rate <= i ==> s[lo] + window < s[i]
  {
    var j := lo + rate;
    assert j <= i ==> s[lo] + window < s[j] <= s[i];
  }

  // What falls into the closed interval that begins at `from`.
  function InWindow(s: seq<int>, from: int, window: int): set<nat> {
    set i | 0 <= i < |s| && from <= s[i] <= from + window
  }

  // Every closed interval one window long holds at most rate accepted messages.
  lemma ClosedWindow(s: seq<int>, rate: nat, window: int, from: int)
    requires Sorted(s) && Spaced(s, rate, window)
    ensures |InWindow(s, from, window)| <= rate
  {
    var lo := First(s, from);
    InARow(s, rate, window, from, lo);
    SubsetIsSmaller(InWindow(s, from, window), Interval(lo, rate));
  }

  lemma InARow(s: seq<int>, rate: nat, window: int, from: int, lo: nat)
    requires Sorted(s) && Spaced(s, rate, window) && lo <= |s| && AllBefore(s[..lo], from) &&
             (lo < |s| ==> from <= s[lo])
    ensures InWindow(s, from, window) <= Interval(lo, rate)
  {
    forall i | i in InWindow(s, from, window) ensures i in Interval(lo, rate) {
      Beyond(s, rate, window, lo, i);
    }
  }

  lemma First(s: seq<int>, from: int) returns (lo: nat)
    requires Sorted(s)
    ensures lo <= |s| && AllBefore(s[..lo], from) && (lo < |s| ==> from <= s[lo])
  {
    lo := 0;
    while lo < |s| && s[lo] < from
      invariant lo <= |s| && AllBefore(s[..lo], from)
    {
      lo := lo + 1;
    }
  }

  // One key: what was pruned, what is kept, and the latest clock reading that pruned it.
  ghost predicate KeyOk(dropped: seq<int>, list: seq<int>, clock: int, rate: nat, window: int) {
    && Sorted(dropped + list) && AllBefore(dropped + list, clock + 1) && |list| <= rate
    && AllBefore(dropped, clock - window) && Recent(list, clock - window) && Spaced(dropped + list, rate, window)
  }

  predicate Recent(s: seq<int>, t: int) { forall i :: 0 <= i < |s| ==> s[i] >= t }

  // Removing expired times from the front.
  lemma PruneOk(dropped: seq<int>, list: seq<int>, i: nat, clock: int, now: int, rate: nat, window: int)
    requires KeyOk(dropped, list, clock, rate, window) && clock <= now && i <= |list|
    requires AllBefore(list[..i], now - window) && (i < |list| ==> list[i] >= now - window)
    ensures dropped + list[..i] + list[i..] == dropped + list
    ensures KeyOk(dropped + list[..i], list[i..], now, rate, window)
  {
    assert dropped + list[..i] + list[i..] == dropped + list;
    assert AllBefore(dropped, now - window);
    RestIsRecent(dropped, list, i, now - window);
  }

  lemma RestIsRecent(dropped: seq<int>, list: seq<int>, i: nat, cutoff: int)
    requires Sorted(dropped + list) && i <= |list| && (i < |list| ==> list[i] >= cutoff)
    ensures Recent(list[i..], cutoff)
  {
    forall k | 0 <= k < |list[i..]| ensures list[i..][k] >= cutoff {
      assert (dropped + list)[|dropped| + i] == list[i] && (dropped + list)[|dropped| + (i + k)] == list[i + k];
    }
  }

  lemma AcceptOk(dropped: seq<int>, list: seq<int>, clock: int, rate: nat, window: int)
    requires KeyOk(dropped, list, clock, rate, window) && |list| < rate && window > 0
    ensures dropped + (list + [clock]) == dropped + list + [clock]
    ensures KeyOk(dropped, list + [clock], clock, rate, window)
  {
    AcceptKeepsSpacing(dropped, list, rate, window, clock);
    assert dropped + (list + [clock]) == dropped + list + [clock];
  }

  // One message: the times i.. of the list are those in the window.
  lemma Decision(gone: seq<int>, stamps: seq<int>, i: nat, clock: int, now: int, rate: nat, window: int)
    requires KeyOk(gone, stamps, clock, rate, window) && clock <= now && i <= |stamps| && window > 0
    requires AllBefore(stamps[..i], now - window) && (i < |stamps| ==> stamps[i] >= now - window)
    ensures CountSince(gone + stamps, now - window) == |stamps[i..]|
    ensures gone + stamps[..i] + stamps[i..] == gone + stamps
    ensures KeyOk(gone + stamps[..i], stamps[i..], now, rate, window)
    ensures gone + stamps[..i] + (stamps[i..] + [now]) == gone + stamps + [now]
    ensures |stamps[i..]| < rate ==> KeyOk(gone + stamps[..i], stamps[i..] + [now], now, rate, window)
  {
    PruneOk(gone, stamps, i, clock, now, rate, window);
    Decided(gone + stamps[..i], stamps[i..], now, rate, window);
  }

  lemma Decided(gone: seq<int>, recent: seq<int>, now: int, rate: nat, window: int)
    requires KeyOk(gone, recent, now, rate, window) && window > 0
    ensures CountSince(gone + recent, now - window) == |recent|
    ensures gone + (recent + [now]) == gone + recent + [now]
    ensures |recent| < rate ==> KeyOk(gone, recent + [now], now, rate, window)
  {
    AllSince(gone, recent, now - window);
    if |recent| < rate {
      AcceptOk(gone, recent, now, rate, window);
    }
    assert gone + (recent + [now]) == gone + recent + [now];
  }

  // A message that comes with a clock reading from before the last pruning.
  lemma LateDecision(gone: seq<int>, stamps: seq<int>, i: nat, clock: int, now: int, rate: nat, window: int)
    requires KeyOk(gone, stamps, clock, rate, window) && now < clock
    requires i <= |stamps| && AllBefore(stamps[..i], now - window)
    ensures i == 0 && CountSince(gone + stamps, clock - window) == |stamps|
  {
    assert forall k :: 0 <= k < i ==> stamps[k] == stamps[..i][k];
    assert |stamps| == 0 || stamps[0] >= clock - window;
    AllSince(gone, stamps, clock - window);
  }

  // ------------------------------------------------------------------ overtaken messages

  // How many times lie in [from, to).
  function Count(s: seq<int>, from: int, to: int): nat {
    if s == [] then 0 else Count(s[..|s| - 1], from, to) + if from <= s[|s| - 1] < to then 1 else 0
  }

  // The history as it was at `now` when messages come in clock order.
  function UpTo(s: seq<int>, now: int): seq<int> {
    if s == [] then [] else UpTo(s[..|s| - 1], now) + if s[|s| - 1] <= now then [s[|s| - 1]] else []
  }

  lemma {:induction false} CountSplits(s: seq<int>, from: int, mid: int, to: int)
    requires from <= mid <= to
    ensures Count(s, from, to) == Count(s, from, mid) + Count(s, mid, to)
  {
    if s != [] {
      CountSplits(s[..|s| - 1], from, mid, to);
    }
  }

  lemma {:induction false} CountUpTo(s: seq<int>, from: int, now: int)
    ensures CountSince(UpTo(s, now), from) == Count(s, from, now + 1)
  {
    if s != [] {
      var init := s[..|s| - 1];
      CountUpTo(init, from, now);
      if s[|s| - 1] <= now {
        assert UpTo(s, now)[..|UpTo(init, now)|] == UpTo(init, now);
      } else {
        assert UpTo(s, now) == UpTo(init, now);
      }
    }
  }

  lemma {:induction false} CountAll(s: seq<int>, from: int, to: int)
    requires AllBefore(s, to)
    ensures CountSince(s, from) == Count(s, from, to)
  {
    if s != [] {
      CountAll(s[..|s| - 1], from, to);
    }
  }

  lemma {:induction false} CountIsSize(s: seq<int>, from: int, window: int)
    ensures Count(s, from, from + window + 1) == |InWindow(s, from, window)|
  {
    if s != [] {
      var n := |s| - 1;
      CountIsSize(s[..n], from, window);
      assert InWindow(s, from, window) ==
             InWindow(s[..n], from, window) + if from <= s[n] <= from + window then {n} else {};
    }
  }

  function Later(a: int, b: int): int { if a > b then a else b }

  // Of what a message at `now` would have counted, this has left the window at `clock` ...
  function Expiries(s: seq<int>, now: int, clock: int, window: int): nat {
    Count(s, now - window, if clock - window < now + 1 then clock - window else now + 1)
  }

  // ... and this has come since and is still in it.
  function Arrivals(s: seq<int>, now: int, clock: int, window: int): nat {
    Count(s, Later(clock - window, now + 1), clock + 1)
  }

  // Between two clock readings the window loses the expiries and gains the arrivals.
  lemma WindowMoves(s: seq<int>, now: int, clock: int, window: int)
    requires now < clock && window > 0 && AllBefore(s, clock + 1)
    ensures CountSince(s, clock - window) + Expiries(s, now, clock, window) ==
            CountSince(UpTo(s, now), now - window) + Arrivals(s, now, clock, window)
  {
    var mid := clock - window;
    CountUpTo(s, now - window, now);
    CountAll(s, mid, clock + 1);
    if mid < now + 1 {
      CountSplits(s, now - window, mid, now + 1);
      CountSplits(s, mid, now + 1, clock + 1);
    }
  }

  lemma InOrderAtMost(s: seq<int>, rate: nat, window: int, now: int)
    requires Sorted(s) && Spaced(s, rate, window)
    ensures CountSince(UpTo(s, now), now - window) <= rate
  {
    CountUpTo(s, now - window, now);
    CountIsSize(s, now - window, window);
    ClosedWindow(s, rate, window, now - window);
  }

  // rate accepted times in a row that, with `now`, fall into one closed window.
  predicate Crowded(s: seq<int>, i: nat, rate: nat, window: int, now: int) {
    rate > 0 && i + rate <= |s| && Later(s[i + rate - 1], now) - Earlier(s[i], now) <= window
  }

  function Earlier(a: int, b: int): int { if a < b then a else b }

  lemma CrowdedBreaks(s: seq<int>, i: nat, rate: nat, window: int, now: int)
    requires Sorted(s) && Crowded(s, i, rate, window, now)
    ensures |InWindow(s + [now], Earlier(s[i], now), window)| > rate
  {
    var t, from := s + [now], Earlier(s[i], now);
    var crowd := Interval(i, rate) + {|s|};
    forall k | k in crowd ensures k in InWindow(t, from, window) {
      if k < |s| {
        assert s[i] <= s[k] <= s[i + rate - 1];
      }
    }
    SubsetIsSmaller(crowd, InWindow(t, from, window));
  }

  lemma OverfullIsCrowded(s: seq<int>, rate: nat, window: int, now: int, from: int) returns (i: nat)
    requires Sorted(s) && Spaced(s, rate, window) && rate > 0
    requires |InWindow(s + [now], from, window)| > rate
    ensures Crowded(s, i, rate, window, now)
  {
    ClosedWindow(s, rate, window, from);
    OneMore(s, now, from, window);
    i := Filled(s, rate, window, from);
  }

  lemma OneMore(s: seq<int>, now: int, from: int, window: int)
    ensures |InWindow(s + [now], from, window)| ==
            |InWindow(s, from, window)| + if from <= now <= from + window then 1 else 0
  {
    assert InWindow(s + [now], from, window) ==
           InWindow(s, from, window) + if from <= now <= from + window then {|s|} else {};
  }

  // A full window holds rate times in a row.
  lemma Filled(s: seq<int>, rate: nat, window: int, from: int) returns (lo: nat)
    requires Sorted(s) && Spaced(s, rate, window) && rate > 0 && |InWindow(s, from, window)| == rate
    ensures lo + rate <= |s| && from <= s[lo] && s[lo + rate - 1] <= from + window
  {
    lo := First(s, from);
    InARow(s, rate, window, from, lo);
    SameSize(InWindow(s, from, window), Interval(lo, rate));
    Ends(s, rate, window, from, lo);
  }

  lemma Ends(s: seq<int>, rate: nat, window: int, from: int, lo: nat)
    requires rate > 0 && InWindow(s, from, window) == Interval(lo, rate)
    ensures lo + rate <= |s| && from <= s[lo] && s[lo + rate - 1] <= from + window
  {
    assert lo in Interval(lo, rate) && lo + rate - 1 in Interval(lo, rate);
  }

  // When a message that was overtaken is let through, every closed window still holds at
  // most rate messages if and only if no rate of the others crowd it.
  lemma LateAcceptHoldsIff(s: seq<int>, rate: nat, window: int, now: int)
    requires Sorted(s) && Spaced(s, rate, window) && rate > 0
    ensures (forall from :: |InWindow(s + [now], from, window)| <= rate) <==>
            (forall i: nat :: !Crowded(s, i, rate, window, now))
  {
    if i: nat :| Crowded(s, i, rate, window, now) {
      CrowdedBreaks(s, i, rate, window, now);
    } else if from :| |InWindow(s + [now], from, window)| > rate {
      var i := OverfullIsCrowded(s, rate, window, now, from);
    }
  }

  // ------------------------------------------------------------------ the limiter

  function Added(now: int, accepted: bool): seq<int> { if accepted then [now] else [] }

  function At<V>(m: map<Key, V>, key: Key, none: V): V { if key in m then m[key] else none }

  class Limiter {
    const rate: nat
    const window: int
    var counters: map<Key, seq<int>>
    ghost var dropped: map<Key, seq<int>>  // pruned from the front of each list
    ghost var pruned: map<Key, int>        // the latest clock reading that pruned each list
    ghost const start: int
    ghost var late: set<Key>               // keys with an accepted message that was overtaken

    // Every message of the key that was ever let through.
    ghost function History(key: Key): seq<int>
      reads this
    {
      At(dropped, key, []) + At(counters, key, [])
    }

    // When the key's list was last pruned, by a message or a sweep.
    ghost function Clock(key: Key): int
      reads this
    {
      At(pruned, key, start)
    }

    ghost predicate Ok(key: Key)
      reads this
    {
      && |At(counters, key, [])| <= rate
      && (key !in late ==> KeyOk(At(dropped, key, []), At(counters, key, []), Clock(key), rate, window))
    }

    ghost predicate Valid()
      reads this
    {
      rate > 0 && window > 0 && forall key {:trigger Ok(key)} :: Ok(key)
    }

    // At any time a key's list has at most rate entries, and every closed window of its
    // history holds at most rate messages unless an overtaken one was let through.
    lemma WindowHolds(key: Key, from: int)
      requires Valid()
      ensures key !in late ==> |InWindow(History(key), from, window)| <= rate
      ensures |At(counters, key, [])| <= rate
    {
      assert Ok(key);
      if key !in late {
        ClosedWindow(History(key), rate, window, from);
      }
    }

    // NewRateLimit with its defaults.
    constructor (r: int, w: int, ghost now: int)
      ensures Valid() && rate == (if r <= 0 then 1 else r) && window == (if w <= 0 then SECOND else w)
      ensures late == {} && forall key :: History(key) == [] && Clock(key) == now
    {
      rate := if r <= 0 then 1 else r;
      window := if w <= 0 then SECOND else w;
      counters, dropped, pruned, start, late := map[], map[], map[], now, {};
    }

    // The expired prefix of a list.
    method Expired(stamps: seq<int>, cutoff: int) returns (i: nat)
      ensures i <= |stamps| && AllBefore(stamps[..i], cutoff) && (i < |stamps| ==> stamps[i] >= cutoff)
    {
      i := 0;
      while i < |stamps| && stamps[i] < cutoff
        invariant i <= |stamps| && AllBefore(stamps[..i], cutoff)
      {
        i := i + 1;
      }
    }

    // The decision is that of a limiter which keeps the whole history and counts it. For a
    // message that read its clock before the list was last pruned (the reading is taken
    // before the lock) it is the one at the time of the pruning.
    method OnMessage(key: Key, now: int) returns (accepted: bool)
      requires Valid()
      modifies this
      ensures Valid() && key in counters && Clock(key) == Later(now, old(Clock(key)))
      ensures late == if accepted && now < old(Clock(key)) then old(late) + {key} else old(late)
      ensures key !in old(late) ==>
                (accepted <==> CountSince(old(History(key)), Later(now, old(Clock(key))) - window) < rate)
      ensures History(key) == old(History(key)) + Added(now, accepted)
      ensures forall k :: k != key ==> History(k) == old(History(k)) && Clock(k) == old(Clock(k))
    {
      var i;
      i, accepted := Examine(key, now);
      var stamps := At(counters, key, []);
      ghost var gone, clock := At(dropped, key, []), Clock(key);
      ghost var astray := if accepted && now < clock then late + {key} else late;
      Store(key, stamps[i..] + Added(now, accepted), gone + stamps[..i], Later(now, clock), astray);
    }

    // How much of the list has expired, and whether what is left makes room.
    method Examine(key: Key, now: int) returns (i: nat, accepted: bool)
      requires Valid()
      ensures i <= |At(counters, key, [])| && |At(counters, key, [])[i..] + Added(now, accepted)| <= rate
      ensures key !in late ==>
                (accepted <==> CountSince(History(key), Later(now, Clock(key)) - window) < rate)
      ensures var gone, stamps := At(dropped, key, []), At(counters, key, []);
              && gone + stamps[..i] + (stamps[i..] + Added(now, accepted)) == History(key) + Added(now, accepted)
              && (key !in late && (now >= Clock(key) || !accepted) ==>
                    KeyOk(gone + stamps[..i], stamps[i..] + Added(now, accepted), Later(now, Clock(key)), rate, window))
    {
      var stamps := At(counters, key, []);
      ghost var gone := At(dropped, key, []);
      assert Ok(key);
      i := Expired(stamps, now - window);
      accepted := |stamps[i..]| < rate;
      if key !in late {
        Handled(gone, stamps, i, Clock(key), now, rate, window);
      }
      Whole(gone, stamps, i, now, accepted);
    }

    // The decision alone.
    method Decides(key: Key, now: int) returns (accepted: bool)
      requires Valid() && key !in late
      ensures accepted <==> CountSince(History(key), Later(now, Clock(key)) - window) < rate
    {
      var i;
      i, accepted := Examine(key, now);
    }

    // When a sweep or other messages overtake a message, it is decided at the time of the
    // last of them and not in clock order. It is let through although it would have been
    // refused exactly when its window was full and more times have expired since than have
    // been added; and it is refused although it would have been let through exactly when
    // what was added has filled the room that was left and that expiries made.
    lemma OvertakenDiffersIff(key: Key, now: int)
      requires Valid() && key !in late && now < Clock(key)
      ensures var h, clock := History(key), Clock(key);
              var inOrder := CountSince(UpTo(h, now), now - window);
              var expired, added := Expiries(h, now, clock, window), Arrivals(h, now, clock, window);
              var accepted := CountSince(h, Later(now, clock) - window) < rate;
              && (accepted && !(inOrder < rate) <==> inOrder == rate && added < expired)
              && (!accepted && inOrder < rate <==> inOrder < rate && added == rate - inOrder + expired)
    {
      assert Ok(key);
      var gone, stamps := At(dropped, key, []), At(counters, key, []);
      WindowMoves(gone + stamps, now, Clock(key), window);
      InOrderAtMost(gone + stamps, rate, window, now);
      assert stamps[..0] == [];
      LateDecision(gone, stamps, 0, Clock(key), now, rate, window);
    }

    method Store(key: Key, stamps: seq<int>, ghost gone: seq<int>, ghost now: int, ghost astray: set<Key>)
      requires Valid() && |stamps| <= rate && late <= astray <= late + {key}
      requires key !in astray ==> KeyOk(gone, stamps, now, rate, window)
      modifies this
      ensures Valid() && Clock(key) == now && History(key) == gone + stamps && late == astray
      ensures counters == old(counters)[key := stamps]
      ensures forall k :: k != key ==> History(k) == old(History(k)) && Clock(k) == old(Clock(k))
    {
      counters := counters[key := stamps];
      dropped := dropped[key := gone];
      pruned := pruned[key := now];
      late := astray;
      assert forall k :: k != key ==> old(Ok(k)) ==> Ok(k);
    }

    // An empty list and no list are the same.
    method Forget(key: Key)
      requires Valid() && At(counters, key, []) == []
      modifies this`counters
      ensures Valid() && counters == old(counters) - {key}
      ensures forall k :: History(k) == old(History(k)) && Clock(k) == old(Clock(k))
    {
      counters := counters - {key};
      forall k ensures Ok(k) {
        assert old(Ok(k)) && At(counters, k, []) == old(At(counters, k, []));
      }
    }

    // One key of a sweep: a list without times in the window goes altogether.
    method SweepKey(key: Key, now: int)
      requires Valid() && key in counters
      modifies this
      ensures Valid() && late == old(late) && forall k :: History(k) == old(History(k))
      ensures forall k :: Clock(k) == if k == key then Later(old(Clock(k)), now) else old(Clock(k))
      ensures forall k :: k != key && k in old(counters) ==> k in counters
    {
      var stamps := counters[key];
      ghost var gone, clock := At(dropped, key, []), Clock(key);
      assert Ok(key);
      var j := Expired(stamps, now - window);
      if key !in late {
        Swept(gone, stamps, j, clock, now, rate, window);
      }
      Whole(gone, stamps, j, now, false);
      assert stamps[j..] + [] == stamps[j..] && gone + stamps + [] == gone + stamps;
      Store(key, stamps[j..], gone + stamps[..j], Later(clock, now), late);
      if j >= |stamps| {
        Forget(key);
      }
    }

    // A sweep that reads the clock at `now` changes no history. It changes no decision of a
    // later message either, unless that message had read its clock before the sweep did.
    method Sweep(now: int)
      requires Valid()
      modifies this
      ensures Valid() && late == old(late) && forall key :: History(key) == old(History(key))
      ensures forall key :: Clock(key) == if key in old(counters) then Later(old(Clock(key)), now) else old(Clock(key))
    {
      var todo := counters.Keys;
      ghost var all := counters.Keys;
      while todo != {}
        invariant Valid() && todo <= counters.Keys && late == old(late) && todo <= all
        invariant forall key :: History(key) == old(History(key))
        invariant forall key :: Clock(key) ==
                    if key in all && key !in todo then Later(old(Clock(key)), now) else old(Clock(key))
        decreases todo
      {
        var key :| key in todo;
        todo := todo - {key};
        SweepKey(key, now);
      }
    }
  }

  lemma Whole(gone: seq<int>, stamps: seq<int>, i: nat, now: int, accepted: bool)
    requires i <= |stamps|
    ensures gone + stamps[..i] + (stamps[i..] + Added(now, accepted)) == gone + stamps + Added(now, accepted)
  {
  }

  // One message, in clock order or not.
  lemma Handled(gone: seq<int>, stamps: seq<int>, i: nat, clock: int, now: int, rate: nat, window: int)
    requires KeyOk(gone, stamps, clock, rate, window) && i <= |stamps| && window > 0
    requires AllBefore(stamps[..i], now - window) && (i < |stamps| ==> stamps[i] >= now - window)
    ensures CountSince(gone + stamps, Later(now, clock) - window) == |stamps[i..]|
    ensures KeyOk(gone + stamps[..i], stamps[i..] + [], Later(now, clock), rate, window)
    ensures var accepted := |stamps[i..]| < rate;
            now >= clock || !accepted ==>
              KeyOk(gone + stamps[..i], stamps[i..] + Added(now, accepted), Later(now, clock), rate, window)
  {
    assert stamps[i..] + [] == stamps[i..];
    if now >= clock {
      Decision(gone, stamps, i, clock, now, rate, window);
    } else {
      LateDecision(gone, stamps, i, clock, now, rate, window);
      assert gone + stamps[..i] == gone && stamps[i..] == stamps;
    }
  }

  lemma Swept(gone: seq<int>, stamps: seq<int>, j: nat, clock: int, now: int, rate: nat, window: int)
    requires KeyOk(gone, stamps, clock, rate, window) && j <= |stamps| && window > 0
    requires AllBefore(stamps[..j], now - window) && (j < |stamps| ==> stamps[j] >= now - window)
    ensures KeyOk(gone + stamps[..j], stamps[j..], Later(clock, now), rate, window)
  {
    Handled(gone, stamps, j, clock, now, rate, window);
    assert stamps[j..] + [] == stamps[j..];
  }

  // ------------------------------------------------------------------ three runs

  // A message that reads its clock first and takes the lock second is refused.
  method OvertakenByMessage(key: Key) returns (inOrder: bool, overtaken: bool)
    ensures inOrder && !overtaken
  {
    var l := new Limiter(1, 10, 0);
    inOrder := l.OnMessage(key, 5);
    l := new Limiter(1, 10, 0);
    var other := l.OnMessage(key, 6);
    assert l.History(key) == [6];
    overtaken := l.OnMessage(key, 5);
  }

  // A message that a sweep overtakes is let through.
  method OvertakenBySweep(key: Key) returns (inOrder: bool, overtaken: bool)
    ensures !inOrder && overtaken
  {
    var l := new Limiter(1, 10, 0);
    var other := l.OnMessage(key, 0);
    assert l.History(key) == [0];
    inOrder := l.OnMessage(key, 5);
    l := new Limiter(1, 10, 0);
    other := l.OnMessage(key, 0);
    assert l.History(key) == [0];
    l.Sweep(11);
    overtaken := l.OnMessage(key, 5);
  }

  // As many messages at time 0 as the limit lets through.
  method Fill(l: Limiter, key: Key)
    requires l.Valid() && l.late == {} && l.History(key) == [] && l.Clock(key) == 0
    modifies l
    ensures l.Valid() && l.late == {} && l.Clock(key) == 0 && key in l.counters
    ensures l.History(key) == seq(l.rate, _ => 0)
  {
    var n: nat := 0;
    while n < l.rate
      invariant n <= l.rate && l.Valid() && l.late == {} && l.Clock(key) == 0 && (n > 0 ==> key in l.counters)
      invariant l.History(key) == seq(n, _ => 0)
    {
      var accepted := l.OnMessage(key, 0);
      n := n + 1;
    }
  }

  // Whatever the limit, a window can come to hold one message too many: a full one is
  // swept away before a message that belongs to it takes the lock.
  method LateBreaksTheWindow(key: Key, rate: nat, window: nat) returns (l: Limiter)
    requires rate > 0 && window > 0
    ensures l.Valid() && l.rate == rate && l.window == window
    ensures |InWindow(l.History(key), 0, window)| == rate + 1
  {
    l := new Limiter(rate, window, 0);
    Fill(l, key);
    l.Sweep(window + 1);
    NoneSince(l.History(key), 1);
    var accepted := l.OnMessage(key, window);
    assert l.History(key) == seq(rate, _ => 0) + [window];
    assert InWindow(l.History(key), 0, window) == Interval(0, rate + 1);
  }
}
