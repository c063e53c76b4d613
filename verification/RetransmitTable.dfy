/**
 * The pending table under interleaving (trackNotify, untrackNotify, takePendingNotify and
 * retransmitDue, internal/transport/coap/server.go). A tick first drops what is to be
 * abandoned and takes a snapshot of what is due, under the lock; it then transmits the
 * snapshot one key at a time, taking the lock anew for each, while notifications are
 * tracked, acknowledged and rejected in between.
 */
module RetransmitTable {
  import opened Retransmit

  // A tracked notification with what has been done with it: when it was tracked, its first
  // timeout, and when it was retransmitted.
  datatype Slot = Slot(t0: int, timeout: int, p: Pending, sent: seq<int>)

  datatype Ended = Ended(slot: Slot, at: int)

  datatype State = State(
    table: map<Key, Slot>,
    due: set<Key>,            // what the tick in progress has yet to transmit
    now: int,                 // its clock reading
    abandoned: seq<Ended>)    // history

  // The snapshot is a series of Abandons and then Snapshot.
  datatype Step =
    | Tracks(key: Key, at: int, draw: int)
    | Untracks(key: Key)      // an ACK, an RST, or a transmission that failed
    | Abandons(key: Key, at: int)
    | Snapshot(at: int)
    | Transmits(key: Key)

  function Fresh(at: int, draw: int): Slot {
    Slot(at, InitialTimeout(draw), Track(at, InitialTimeout(draw)), [])
  }

  function Transmitted(slot: Slot, now: int): Slot {
    slot.(p := Advance(slot.p, now), sent := slot.sent + [now])
  }

  predicate Enabled(s: State, a: Step) {
    match a
    case Abandons(key, at) => s.due == {} && key in s.table && Decide(s.table[key].p, at).GiveUp?
    case Snapshot(at) => s.due == {} && forall key :: key in s.table ==> !Decide(s.table[key].p, at).GiveUp?
    case Transmits(key) => key in s.due
    case _ => true
  }

  // A key that is gone by the time it is to be transmitted is skipped.
  function Apply(s: State, a: Step): State
    requires Enabled(s, a)
  {
    match a
    case Tracks(key, at, draw) => s.(table := s.table[key := Fresh(at, draw)])
    case Untracks(key) => s.(table := s.table - {key})
    case Abandons(key, at) => s.(table := s.table - {key}, abandoned := s.abandoned + [Ended(s.table[key], at)])
    case Snapshot(at) => s.(due := (set key | key in s.table && Decide(s.table[key].p, at).Send?), now := at)
    case Transmits(key) =>
      s.(due := s.due - {key},
         table := if key in s.table then s.table[key := Transmitted(s.table[key], s.now)] else s.table)
  }

  ghost predicate Runs(s: State, run: seq<Step>, s': State)
    decreases |run|
  {
    if run == [] then s == s'
    else Enabled(s, run[0]) && Runs(Apply(s, run[0]), run[1..], s')
  }

  function Init(): State { State(map[], {}, 0, []) }

  // ------------------------------------------------------------------ on schedule

  // At most four retransmissions, the k-th not before t0 + (2^k - 1) timeouts.
  predicate SlotOk(slot: Slot) {
    NotEarly(Entry(true, slot.p, slot.sent, []), slot.t0, slot.timeout)
  }

  // Given up after four of them and not before t0 + 31 timeouts.
  predicate EndedOk(e: Ended) {
    SlotOk(e.slot) && |e.slot.sent| == MAX_RETRANSMIT && e.at >= Due(e.slot.t0, e.slot.timeout, MAX_RETRANSMIT + 1)
  }

  predicate Scheduled(s: State) {
    && (forall key :: key in s.table ==> SlotOk(s.table[key]))
    && (forall i :: 0 <= i < |s.abandoned| ==> EndedOk(s.abandoned[i]))
  }

  ghost predicate AlwaysScheduled(s: State, run: seq<Step>, s': State)
    requires Runs(s, run, s')
    decreases |run|
  {
    Scheduled(s) && (run == [] || AlwaysScheduled(Apply(s, run[0]), run[1..], s'))
  }

  // What the tick transmits was due when it was taken, or has been tracked since.
  predicate Chosen(slot: Slot, now: int) {
    Decide(slot.p, now).Send? || (slot.sent == [] && slot.p == Track(slot.t0, slot.timeout))
  }

  predicate Inv(s: State) {
    Scheduled(s) && forall key :: key in s.table && key in s.due ==> Chosen(s.table[key], s.now)
  }

  // A transmission that finds, under its key, an entry whose deadline is still to come.
  predicate Overtaken(s: State, a: Step) {
    a.Transmits? && a.key in s.table && s.now < s.table[a.key].p.deadline
  }

  ghost predicate NeverOvertaken(s: State, run: seq<Step>, s': State)
    requires Runs(s, run, s')
    decreases |run|
  {
    run == [] || (!Overtaken(s, run[0]) && NeverOvertaken(Apply(s, run[0]), run[1..], s'))
  }

  lemma FreshOk(at: int, draw: int)
    ensures SlotOk(Fresh(at, draw)) && Chosen(Fresh(at, draw), at)
  {
    NeverEarly(at, InitialTimeout(draw), []);
  }

  lemma TransmittedOkIff(slot: Slot, now: int)
    requires SlotOk(slot) && Chosen(slot, now)
    ensures SlotOk(Transmitted(slot, now)) <==> now >= slot.p.deadline
  {
    var was, e := Entry(true, slot.p, slot.sent, []), Entry(true, Advance(slot.p, now), slot.sent + [now], []);
    if now >= slot.p.deadline {
      TickNotEarly(was, now, slot.t0, slot.timeout);
      assert e == Tick(was, now);
    } else {
      assert e.sent[0] == now && Due(slot.t0, slot.timeout, 1) == slot.p.deadline;
    }
  }

  lemma EndOk(slot: Slot, at: int)
    requires SlotOk(slot) && Decide(slot.p, at).GiveUp?
    ensures EndedOk(Ended(slot, at))
  {
    TickNotEarly(Entry(true, slot.p, slot.sent, []), at, slot.t0, slot.timeout);
  }

  lemma StepKeepsIff(s: State, a: Step)
    requires Inv(s) && Enabled(s, a)
    ensures Scheduled(Apply(s, a)) <==> !Overtaken(s, a)
    ensures !Overtaken(s, a) ==> Inv(Apply(s, a))
  {
    match a
    case Tracks(key, at, draw) => FreshOk(at, draw);
    case Abandons(key, at) => EndOk(s.table[key], at);
    case Transmits(key) =>
      if key in s.table {
        TransmittedOkIff(s.table[key], s.now);
        assert Apply(s, a).table[key] == Transmitted(s.table[key], s.now);
      }
    case _ =>
  }

  // Over every run, with ticks, trackings and acknowledgements in any order and any clock
  // readings: every notification keeps its schedule if and only if no transmission finds an
  // entry that is not due.
  lemma {:induction false} ScheduleKeptIff(s: State, run: seq<Step>, s': State)
    requires Inv(s) && Runs(s, run, s')
    ensures AlwaysScheduled(s, run, s') <==> NeverOvertaken(s, run, s')
    decreases |run|
  {
    if run != [] {
      var t := Apply(s, run[0]);
      StepKeepsIff(s, run[0]);
      if Overtaken(s, run[0]) {
        assert !AlwaysScheduled(t, run[1..], s');
      } else {
        ScheduleKeptIff(t, run[1..], s');
      }
    }
  }

  // ------------------------------------------------------------------ message IDs

  // No key is tracked again while a tick is about to transmit it.
  ghost predicate KeysDistinct(s: State, run: seq<Step>, s': State)
    requires Runs(s, run, s')
    decreases |run|
  {
    run == [] || ((run[0].Tracks? ==> run[0].key !in s.due) && KeysDistinct(Apply(s, run[0]), run[1..], s'))
  }

  predicate AllDue(s: State) {
    forall key :: key in s.table && key in s.due ==> s.now >= s.table[key].p.deadline
  }

  // That is enough, and message IDs see to it unless 65536 are drawn during one tick.
  lemma {:induction false} DistinctKeysKeepSchedule(s: State, run: seq<Step>, s': State)
    requires Inv(s) && AllDue(s) && Runs(s, run, s') && KeysDistinct(s, run, s')
    ensures AlwaysScheduled(s, run, s') && NeverOvertaken(s, run, s')
    decreases |run|
  {
    if run != [] {
      var t := Apply(s, run[0]);
      StepKeepsIff(s, run[0]);
      assert AllDue(t);
      DistinctKeysKeepSchedule(t, run[1..], s');
    }
  }

  // Without it: tracked anew between snapshot and transmission, a notification is sent a
  // second time at the moment of the first.
  lemma ReusedKeyIsEarly(key: Key, draw: int) returns (run: seq<Step>, s: State)
    ensures Runs(Init(), run, s) && !AlwaysScheduled(Init(), run, s)
    ensures key in s.table && s.table[key].sent == [s.table[key].t0]
  {
    var t := InitialTimeout(draw);
    FreshOk(0, draw);
    var a, b, d, e := Tracks(key, 0, draw), Snapshot(t), Tracks(key, t, draw), Transmits(key);
    var s1 := Apply(Init(), a);
    var s2 := Apply(s1, b);
    var s3 := Apply(s2, d);
    s := Apply(s3, e);
    run := [a, b, d, e];
    assert run[1..] == [b, d, e] && [b, d, e][1..] == [d, e] && [d, e][1..] == [e] && [e][1..] == [];
    assert Runs(s3, [e], s);
    assert Runs(s2, [d, e], s);
    assert Runs(s1, [b, d, e], s);
    assert Overtaken(s3, e);
    assert !NeverOvertaken(s3, [e], s) && !NeverOvertaken(s2, [d, e], s) && !NeverOvertaken(s1, [b, d, e], s);
    ScheduleKeptIff(Init(), run, s);
  }
}
