/**
 * Retransmission of CON notifications (internal/transport/coap/retransmit.go and the
 * pending table of server.go), section 4.2 of RFC 7252. Times are nanoseconds.
 */
module Retransmit {
  import opened Bytes

  const SECOND := 1_000_000_000
  const ACK_TIMEOUT := 2 * SECOND
  const SPREAD := ACK_TIMEOUT / 2
  const MAX_RETRANSMIT := 4
  const TICK := 250_000_000

  datatype Pending = Pending(attempts: nat, timeout: int, deadline: int)
  datatype Action = Wait | Send | GiveUp

  function InitialTimeout(draw: int): (t: int)
    ensures ACK_TIMEOUT <= t < 3 * SECOND
    ensures 0 <= draw < SPREAD ==> t == ACK_TIMEOUT + draw
  {
    ACK_TIMEOUT + (if draw < 0 then 0 else draw) % SPREAD
  }

  function Decide(p: Pending, now: int): Action {
    if now < p.deadline then Wait
    else if p.attempts >= MAX_RETRANSMIT then GiveUp
    else Send
  }

  function Advance(p: Pending, now: int): Pending {
    var timeout := p.timeout * 2;
    var next := p.deadline + timeout;
    Pending(p.attempts + 1, timeout, if next < now then now + timeout else next)
  }

  function Track(now: int, timeout: int): Pending { Pending(0, timeout, now + timeout) }

  // ------------------------------------------------------------------ the schedule of one entry

  // One tracked message and what has been done with it so far.
  datatype Entry = Entry(live: bool, p: Pending, sent: seq<int>, abandoned: seq<int>)

  function Tracked(t0: int, timeout: int): Entry { Entry(true, Track(t0, timeout), [], []) }

  function Tick(e: Entry, now: int): Entry {
    if !e.live then e
    else
      match Decide(e.p, now)
      case Wait => e
      case Send => e.(p := Advance(e.p, now), sent := e.sent + [now])
      case GiveUp => e.(live := false, abandoned := e.abandoned + [now])
  }

  function Run(e: Entry, ticks: seq<int>): Entry {
    if ticks == [] then e else Tick(Run(e, ticks[..|ticks| - 1]), ticks[|ticks| - 1])
  }

  function Last(t0: int, ticks: seq<int>): int { if ticks == [] then t0 else ticks[|ticks| - 1] }

  // timeout * 2^k
  function Doubled(timeout: int, k: nat): int {
    if k == 0 then timeout else 2 * Doubled(timeout, k - 1)
  }

  // The k-th transmission after the first is due (2^k - 1) timeouts after it.
  function Due(t0: int, timeout: int, k: nat): int { t0 + Doubled(timeout, k) - timeout }

  predicate NotEarly(e: Entry, t0: int, timeout: int) {
    && e.p.attempts == |e.sent| <= MAX_RETRANSMIT
    && e.p.timeout == Doubled(timeout, e.p.attempts) > 0
    && e.p.deadline >= Due(t0, timeout, e.p.attempts + 1)
    && (forall k :: 0 <= k < |e.sent| ==> e.sent[k] >= Due(t0, timeout, k + 1))
    && |e.abandoned| == (if e.live then 0 else 1)
    && (!e.live ==> |e.sent| == MAX_RETRANSMIT && e.abandoned[0] >= Due(t0, timeout, MAX_RETRANSMIT + 1))
  }

  lemma TickNotEarly(e: Entry, now: int, t0: int, timeout: int)
    requires NotEarly(e, t0, timeout)
    ensures NotEarly(Tick(e, now), t0, timeout)
    ensures |Tick(e, now).sent| > |e.sent| ==> Tick(e, now).p.deadline >= now && Tick(e, now).sent == e.sent + [now]
  {
    if e.live && Decide(e.p, now).Send? {
      var k := e.p.attempts;
      assert Doubled(timeout, k + 2) == 2 * Doubled(timeout, k + 1) &&
        Doubled(timeout, k + 1) == 2 * Doubled(timeout, k);
    }
  }

  // For any clock readings at all, in any order: at most four retransmissions, none early,
  // abandonment not early and only after the fourth. (By TickNotEarly, no deadline is ever
  // set in the past.)
  lemma {:induction false} NeverEarly(t0: int, timeout: int, ticks: seq<int>)
    requires timeout > 0
    ensures NotEarly(Run(Tracked(t0, timeout), ticks), t0, timeout)
    decreases |ticks|
  {
    if ticks != [] {
      NeverEarly(t0, timeout, ticks[..|ticks| - 1]);
      TickNotEarly(Run(Tracked(t0, timeout), ticks[..|ticks| - 1]), ticks[|ticks| - 1], t0, timeout);
    }
  }

  // The same in the numbers of RFC 7252: not before 1, 3, 7, 15 timeouts, giving up not
  // before 31.
  lemma ScheduleInTimeouts(t0: int, timeout: int, ticks: seq<int>)
    requires timeout > 0
    ensures var e := Run(Tracked(t0, timeout), ticks);
            && |e.sent| <= 4 && |e.abandoned| <= 1
            && (|e.sent| > 0 ==> e.sent[0] >= t0 + timeout)
            && (|e.sent| > 1 ==> e.sent[1] >= t0 + 3 * timeout)
            && (|e.sent| > 2 ==> e.sent[2] >= t0 + 7 * timeout)
            && (|e.sent| > 3 ==> e.sent[3] >= t0 + 15 * timeout)
            && (e.abandoned != [] ==> |e.sent| == 4 && e.abandoned[0] >= t0 + 31 * timeout)
  {
    NeverEarly(t0, timeout, ticks);
    DoubledIs(timeout);
  }

  lemma DoubledIs(timeout: int)
    ensures Doubled(timeout, 1) == 2 * timeout && Doubled(timeout, 2) == 4 * timeout
    ensures Doubled(timeout, 3) == 8 * timeout && Doubled(timeout, 4) == 16 * timeout
    ensures Doubled(timeout, 5) == 32 * timeout
  {
    assert Doubled(timeout, 2) == 2 * Doubled(timeout, 1);
    assert Doubled(timeout, 4) == 2 * Doubled(timeout, 3);
  }

  // ------------------------------------------------------------------ punctual ticks

  // Ticks that start at t0 and come at most gap apart.
  predicate Regular(t0: int, ticks: seq<int>, gap: int) {
    ticks == [] ||
    (var before := ticks[..|ticks| - 1];
     Regular(t0, before, gap) && Last(t0, before) <= ticks[|ticks| - 1] <= Last(t0, before) + gap)
  }

  // Everything due by `now` has been done, and was done within gap of its time.
  predicate OnTime(e: Entry, t0: int, timeout: int, gap: int, now: int) {
    && NotEarly(e, t0, timeout)
    && (forall k :: 0 <= k < |e.sent| ==> e.sent[k] < Due(t0, timeout, k + 1) + gap)
    && (e.live ==> now < e.p.deadline == Due(t0, timeout, e.p.attempts + 1))
    && (!e.live ==> e.abandoned[0] < Due(t0, timeout, MAX_RETRANSMIT + 1) + gap)
  }

  lemma {:induction false} DoubledGrows(timeout: int, k: nat)
    requires timeout > 0 && k > 0
    ensures Doubled(timeout, k) >= 2 * timeout
  {
    if k > 1 {
      DoubledGrows(timeout, k - 1);
    }
  }

  lemma TickOnTime(e: Entry, t0: int, timeout: int, gap: int, was: int, now: int)
    requires timeout > 0 && OnTime(e, t0, timeout, gap, was) && was <= now <= was + gap && gap <= 2 * timeout
    ensures OnTime(Tick(e, now), t0, timeout, gap, now)
  {
    TickNotEarly(e, now, t0, timeout);
    if e.live && Decide(e.p, now).Send? {
      var k := e.p.attempts;
      DoubledGrows(timeout, k + 1);
      assert Doubled(timeout, k + 2) == 2 * Doubled(timeout, k + 1);
      assert Doubled(timeout, k + 1) == 2 * Doubled(timeout, k);
    }
  }

  // Ticks at most gap apart, gap up to two timeouts: every retransmission and the
  // abandonment happens, and less than gap late.
  lemma {:induction false} RegularTicksAreOnTime(t0: int, timeout: int, gap: int, ticks: seq<int>)
    requires timeout > 0 && 0 <= gap <= 2 * timeout && Regular(t0, ticks, gap)
    ensures OnTime(Run(Tracked(t0, timeout), ticks), t0, timeout, gap, Last(t0, ticks))
    decreases |ticks|
  {
    if ticks != [] {
      var before := ticks[..|ticks| - 1];
      RegularTicksAreOnTime(t0, timeout, gap, before);
      TickOnTime(Run(Tracked(t0, timeout), before), t0, timeout, gap, Last(t0, before), ticks[|ticks| - 1]);
    }
  }

  lemma {:induction false} DueAscends(t0: int, timeout: int, j: nat, k: nat)
    requires timeout > 0 && j <= k
    ensures Due(t0, timeout, j) <= Due(t0, timeout, k) && Doubled(timeout, k) > 0
  {
    if j < k {
      DueAscends(t0, timeout, j, k - 1);
    } else if k > 0 {
      DueAscends(t0, timeout, k - 1, k - 1);
    }
  }

  // With the server's 250 ms ticks and any jitter: the k-th retransmission has happened once
  // its time has passed, and the entry is gone once 31 timeouts have.
  lemma DueIsDone(t0: int, draw: int, ticks: seq<int>, k: nat)
    requires Regular(t0, ticks, TICK) && 1 <= k <= MAX_RETRANSMIT + 1
    requires Last(t0, ticks) >= Due(t0, InitialTimeout(draw), k)
    ensures var e, due := Run(Tracked(t0, InitialTimeout(draw)), ticks), Due(t0, InitialTimeout(draw), k);
            if k <= MAX_RETRANSMIT then |e.sent| >= k && due <= e.sent[k - 1] < due + TICK
            else !e.live && |e.abandoned| == 1 && due <= e.abandoned[0] < due + TICK
  {
    var timeout := InitialTimeout(draw);
    RegularTicksAreOnTime(t0, timeout, TICK, ticks);
    var e := Run(Tracked(t0, timeout), ticks);
    if e.live && e.p.attempts < k {
      DueAscends(t0, timeout, e.p.attempts + 1, k);
      assert false;
    }
  }

  // ------------------------------------------------------------------ the pending table

  datatype Key = Key(remote: seq<Byte>, msgID: nat)

  class Scheduler {
    var pending: map<Key, Pending>

    constructor ()
      ensures pending == map[]
    {
      pending := map[];
    }

    method TrackNotify(key: Key, now: int, draw: int)
      modifies this
      ensures pending == old(pending)[key := Track(now, InitialTimeout(draw))]
    {
      pending := pending[key := Track(now, InitialTimeout(draw))];
    }

    // An ACK, or an RST whose relation is then cancelled.
    method Untrack(key: Key)
      modifies this
      ensures pending == old(pending) - {key}
    {
      pending := pending - {key};
    }

    // One tick of the loop. `reachable` holds the keys whose session exists and takes the
    // bytes; the rest stop being tracked. Each entry moves as the schedule above says.
    method RetransmitDue(now: int, reachable: set<Key>) returns (sent: seq<Key>, abandoned: set<Key>)
      modifies this
      ensures forall key :: key in pending <==>
                key in old(pending) && (Decide(old(pending)[key], now).Wait? ||
                                        (Decide(old(pending)[key], now).Send? && key in reachable))
      ensures forall key :: key in pending ==>
                pending[key] == Tick(Entry(true, old(pending)[key], [], []), now).p
      ensures forall key :: key in abandoned <==> key in old(pending) && Decide(old(pending)[key], now).GiveUp?
      ensures forall key :: key in sent <==>
                key in old(pending) && Decide(old(pending)[key], now).Send? && key in reachable
      ensures forall i, j :: 0 <= i < j < |sent| ==> sent[i] != sent[j]
    {
      var due: set<Key>;
      due, abandoned := Sort(now);
      pending := pending - abandoned;
      sent := [];
      ghost var was := old(pending);
      var todo := due;
      while todo != {}
        invariant todo <= due
        invariant forall key :: key in pending <==>
                  key in was && key !in abandoned && (key in due - todo ==> key in reachable)
        invariant forall key :: key in pending ==>
                    pending[key] == if key in due - todo then Advance(was[key], now) else was[key]
        invariant forall key :: key in sent <==> key in due - todo && key in reachable
        invariant forall i, j :: 0 <= i < j < |sent| ==> sent[i] != sent[j]
        decreases |todo|
      {
        var key :| key in todo;
        todo := todo - {key};
        pending := pending[key := Advance(pending[key], now)];
        if key in reachable {
          sent := sent + [key];
        } else {
          pending := pending - {key};
        }
      }
    }

    // The snapshot taken under the lock.
    method Sort(now: int) returns (due: set<Key>, abandoned: set<Key>)
      ensures forall key :: key in due <==> key in pending && Decide(pending[key], now).Send?
      ensures forall key :: key in abandoned <==> key in pending && Decide(pending[key], now).GiveUp?
    {
      due, abandoned := {}, {};
      var todo := pending.Keys;
      while todo != {}
        invariant todo <= pending.Keys
        invariant forall key :: key in due <==> key in pending.Keys - todo && Decide(pending[key], now).Send?
        invariant forall key :: key in abandoned <==> key in pending.Keys - todo && Decide(pending[key], now).GiveUp?
        decreases |todo|
      {
        var key :| key in todo;
        todo := todo - {key};
        match Decide(pending[key], now)
        case Wait =>
        case Send => due := due + {key};
        case GiveUp => abandoned := abandoned + {key};
      }
    }
  }
}
