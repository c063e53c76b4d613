/**
 * A snapshot while others register and unregister (Snapshot and CloseAll,
 * internal/runtime/session_manager.go). Each shard is read under its own lock, so what
 * enters a shard the walk has passed is not in the list, and CloseAll, which returns when a
 * list comes back empty, does not see it.
 */
module SessionWalk {
  import opened Sessions

  datatype Step =
    | Registers(sess: Session)
    | Unregisters(id: nat)
    | ReadsShard

  // The next shard to read, and the IDs listed so far.
  datatype State = State(table: map<nat, Session>, next: nat, listed: set<nat>)

  function Stored(table: map<nat, Session>, sess: Session): map<nat, Session> {
    if sess.id in table then table else table[sess.id := sess]
  }

  predicate Enabled(s: State, a: Step) { a.ReadsShard? ==> s.next < SESSION_SHARDS }

  function Apply(s: State, a: Step): State {
    match a
    case Registers(sess) => s.(table := Stored(s.table, sess))
    case Unregisters(id) => s.(table := s.table - {id})
    case ReadsShard =>
      s.(next := s.next + 1, listed := s.listed + (set id | id in s.table && ShardOf(id) == s.next))
  }

  ghost predicate Runs(s: State, run: seq<Step>, s': State)
    decreases |run|
  {
    if run == [] then s == s'
    else Enabled(s, run[0]) && Runs(Apply(s, run[0]), run[1..], s')
  }

  // A run from the first shard to the last.
  ghost predicate Walk(table: map<nat, Session>, run: seq<Step>, s: State) {
    Runs(State(table, 0, {}), run, s) && s.next == SESSION_SHARDS
  }

  // What has entered the shards already passed and has not left again; `behind` is what had
  // when the run began and `next` the shards passed by then.
  function Behind(run: seq<Step>, next: nat, behind: map<nat, Session>): map<nat, Session>
    decreases |run|
  {
    if run == [] then behind
    else
      match run[0]
      case Registers(sess) => Behind(run[1..], next, if ShardOf(sess.id) < next then Stored(behind, sess) else behind)
      case Unregisters(id) => Behind(run[1..], next, behind - {id})
      case ReadsShard => Behind(run[1..], next + 1, behind)
  }

  // Of the shards passed, the table holds exactly `behind`.
  predicate Agrees(s: State, behind: map<nat, Session>) {
    && (forall id :: id in behind ==> id in s.table && behind[id] == s.table[id])
    && (forall id :: id in s.table && ShardOf(id) < s.next ==> id in behind)
  }

  lemma {:induction false} ListedGrows(s: State, run: seq<Step>, s': State)
    requires Runs(s, run, s')
    ensures s.listed <= s'.listed
    decreases |run|
  {
    if run != [] {
      ListedGrows(Apply(s, run[0]), run[1..], s');
    }
  }

  lemma {:induction false} AgreesThroughout(s: State, run: seq<Step>, s': State, behind: map<nat, Session>)
    requires Runs(s, run, s') && s'.listed == {} && Agrees(s, behind)
    requires forall id :: id in behind ==> ShardOf(id) < s.next
    ensures Agrees(s', Behind(run, s.next, behind))
    decreases |run|
  {
    if run != [] {
      var t := Apply(s, run[0]);
      ListedGrows(t, run[1..], s');
      var behind' :=
        match run[0]
        case Registers(sess) => if ShardOf(sess.id) < s.next then Stored(behind, sess) else behind
        case Unregisters(id) => behind - {id}
        case ReadsShard => behind;
      assert run[0].ReadsShard? ==> forall id :: id in s.table && ShardOf(id) == s.next ==> id in t.listed;
      AgreesThroughout(t, run[1..], s', behind');
    }
  }

  // When a snapshot comes back empty the table holds what entered behind the walk, so it is
  // empty if and only if all of that has left again.
  lemma EmptyWalkLeaves(table: map<nat, Session>, run: seq<Step>, s: State)
    requires Walk(table, run, s) && s.listed == {}
    ensures s.table == Behind(run, 0, map[])
  {
    AgreesThroughout(State(table, 0, {}), run, s, map[]);
  }

  // ------------------------------------------------------------------ nobody leaves

  predicate OnlyRegisters(run: seq<Step>) { forall i :: 0 <= i < |run| ==> !run[i].Unregisters? }

  // Some session enters a shard already passed.
  predicate Overtaken(run: seq<Step>, next: nat)
    decreases |run|
  {
    run != [] &&
    ((run[0].Registers? && ShardOf(run[0].sess.id) < next) ||
     Overtaken(run[1..], if run[0].ReadsShard? then next + 1 else next))
  }

  lemma {:induction false} BehindIff(run: seq<Step>, next: nat, behind: map<nat, Session>)
    requires OnlyRegisters(run)
    ensures Behind(run, next, behind) == map[] <==> behind == map[] && !Overtaken(run, next)
    decreases |run|
  {
    if run != [] {
      match run[0]
      case Registers(sess) =>
        var behind' := if ShardOf(sess.id) < next then Stored(behind, sess) else behind;
        assert ShardOf(sess.id) < next ==> sess.id in behind';
        BehindIff(run[1..], next, behind');
      case ReadsShard => BehindIff(run[1..], next + 1, behind);
    }
  }

  // "A session registered mid-shutdown is not leaked" holds of an empty last snapshot if and
  // only if none was registered behind it.
  lemma NothingLeftIff(table: map<nat, Session>, run: seq<Step>, s: State)
    requires Walk(table, run, s) && s.listed == {} && OnlyRegisters(run)
    ensures s.table == map[] <==> !Overtaken(run, 0)
  {
    EmptyWalkLeaves(table, run, s);
    BehindIff(run, 0, map[]);
  }

  function Reads(n: nat): seq<Step> { seq(n, _ => ReadsShard) }

  lemma {:induction false} ReadsNothing(s: State, n: nat)
    requires s.next + n == SESSION_SHARDS
    requires forall id :: id in s.table ==> ShardOf(id) < s.next
    ensures Runs(s, Reads(n), s.(next := SESSION_SHARDS))
    decreases n
  {
    if n > 0 {
      var t := Apply(s, ReadsShard);
      assert t == s.(next := s.next + 1);
      ReadsNothing(t, n - 1);
      assert Reads(n)[1..] == Reads(n - 1);
    }
  }

  // Every session whose shard is not the last can be left: it is registered right after its
  // shard was read.
  lemma {:induction false} LeftBehind(sess: Session) returns (run: seq<Step>, s: State)
    requires ShardOf(sess.id) + 1 < SESSION_SHARDS
    ensures Walk(map[], run, s) && s.listed == {} && s.table == map[sess.id := sess]
  {
    var n := ShardOf(sess.id) + 1;
    s := State(map[sess.id := sess], SESSION_SHARDS, {});
    ReadsNothing(State(map[sess.id := sess], n, {}), SESSION_SHARDS - n);
    run := [Registers(sess)] + Reads(SESSION_SHARDS - n);
    assert run[1..] == Reads(SESSION_SHARDS - n);
    run := ReadsFirst(n, 0, run, s);
  }

  // An empty table, n shards read before a run.
  lemma {:induction false} ReadsFirst(n: nat, next: nat, run: seq<Step>, s: State) returns (whole: seq<Step>)
    requires next + n < SESSION_SHARDS && Runs(State(map[], next + n, {}), run, s)
    ensures Runs(State(map[], next, {}), whole, s)
    decreases n
  {
    whole := run;
    if n > 0 {
      var rest := ReadsFirst(n - 1, next + 1, run, s);
      whole := [ReadsShard] + rest;
      assert whole[1..] == rest;
      assert Apply(State(map[], next, {}), ReadsShard) == State(map[], next + 1, {});
    }
  }
}
