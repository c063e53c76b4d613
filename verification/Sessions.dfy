/**
  The sharded session table.  `Sessions` is the manager as one caller sees it, with the
  loops of Snapshot, Broadcast and CloseAll; `SessionMachine` interleaves Register and
  Unregister at lock, load, compare-and-swap and store granularity.
 */
module Sessions {
  import opened Basics

  const SESSION_SHARDS: nat := 64

  // A session as the manager uses it: its ID, and whether it implements SharedSender.
  datatype Session = Session(id: nat, shares: bool)

  type Shards = seq<map<nat, Session>>
  type Table = map<nat, Session>

  datatype Result = Ok | ErrInvalidArgument | ErrDuplicateSession | ErrSessionCapacity

  function ShardOf(id: nat): (sh: nat)
    ensures sh < SESSION_SHARDS
  {
    id % SESSION_SHARDS
  }

  // Every session sits in the shard of its own ID.
  ghost predicate WellSharded(shards: Shards) {
    && |shards| == SESSION_SHARDS
    && forall i, id :: 0 <= i < SESSION_SHARDS && id in shards[i] ==>
         id % SESSION_SHARDS == i && shards[i][id].id == id
  }

  ghost function Ids(shards: Shards): set<nat> {
    set i, id | 0 <= i < |shards| && id in shards[i] :: id
  }

  // The one map the shards stand for.
  ghost function Union(shards: Shards): (m: Table)
    requires WellSharded(shards)
    ensures forall id: nat :: id in m <==> id in shards[ShardOf(id)]
    ensures forall id :: id in m ==> m[id] == shards[ShardOf(id)][id] && m[id].id == id
  {
    map id | id in Ids(shards) :: shards[ShardOf(id)][id]
  }

  lemma UnionInsert(shards: Shards, sess: Session)
    requires WellSharded(shards)
    ensures var sh := ShardOf(sess.id);
            var shards' := shards[sh := Put(shards[sh], sess)];
            WellSharded(shards') && Union(shards') == Union(shards)[sess.id := sess]
  {
    var sh := ShardOf(sess.id);
    var shards' := shards[sh := Put(shards[sh], sess)];
    assert WellSharded(shards');
    assert forall id: nat :: id in Union(shards') <==> id in Union(shards)[sess.id := sess];
  }

  lemma UnionDelete(shards: Shards, id: nat)
    requires WellSharded(shards)
    ensures var sh := ShardOf(id);
            var shards' := shards[sh := shards[sh] - {id}];
            WellSharded(shards') && Union(shards') == Union(shards) - {id}
  {
    var sh := ShardOf(id);
    var shards' := shards[sh := shards[sh] - {id}];
    assert WellSharded(shards');
    assert forall k: nat :: k in Union(shards') <==> k in Union(shards) - {id};
  }

  function Put(m: Table, sess: Session): Table { m[sess.id := sess] }

  // What a manager with a single table answers to Register.
  function RegisterAnswer(max: int, m: Table, sess: Option<Session>): Result {
    if sess.None? then ErrInvalidArgument
    else if sess.value.id in m then ErrDuplicateSession
    else if max > 0 && |m| >= max then ErrSessionCapacity
    else Ok
  }

  // The list holds each session of the table exactly once.
  ghost predicate Lists(m: Table, list: seq<Session>) {
    && (forall i, j :: 0 <= i < j < |list| ==> list[i].id != list[j].id)
    && (forall id :: id in m ==> m[id] in list)
    && (forall sess :: sess in list ==> sess.id in m && m[sess.id] == sess)
  }

  class SessionManager {
    const max: int
    var count: int
    var shards: Shards

    ghost predicate Valid() reads this {
      WellSharded(shards) && count == |Union(shards)| && (max > 0 ==> count <= max)
    }

    ghost function Contents(): Table
      requires Valid()
      reads this
    {
      Union(shards)
    }

    constructor (max: int)
      ensures Valid() && Contents() == map[] && this.max == max
    {
      this.max := max;
      count := 0;
      shards := seq(SESSION_SHARDS, _ => map[]);
    }

    // A duplicate is reported ahead of capacity; only success changes the table.
    method Register(sess: Option<Session>) returns (r: Result)
      requires Valid()
      modifies this
      ensures Valid()
      ensures r == RegisterAnswer(max, old(Contents()), sess)
      ensures Contents() == if r.Ok? then old(Contents())[sess.value.id := sess.value] else old(Contents())
    {
      if sess.None? {
        return ErrInvalidArgument;
      }
      var id := sess.value.id;
      var sh := ShardOf(id);
      if id in shards[sh] {
        return ErrDuplicateSession;
      }
      if max > 0 && count >= max {
        return ErrSessionCapacity;
      }
      UnionInsert(shards, sess.value);
      count := count + 1;
      shards := shards[sh := Put(shards[sh], sess.value)];
      return Ok;
    }

    method Unregister(id: nat) returns (ok: bool)
      requires Valid()
      modifies this
      ensures Valid()
      ensures ok == (id in old(Contents()))
      ensures Contents() == old(Contents()) - {id}
    {
      var sh := ShardOf(id);
      ok := id in shards[sh];
      UnionDelete(shards, id);
      shards := shards[sh := shards[sh] - {id}];
      if ok {
        count := count - 1;
      }
    }

    method Get(id: nat) returns (r: Option<Session>)
      requires Valid()
      ensures r == if id in Contents() then Some(Contents()[id]) else None
    {
      var sh := shards[ShardOf(id)];
      if id in sh {
        return Some(sh[id]);
      }
      return None;
    }

    // Walks the shards one after the other.
    method Snapshot() returns (list: seq<Session>)
      requires Valid()
      ensures Lists(Contents(), list)
    {
      list := [];
      for i := 0 to SESSION_SHARDS
        invariant ListsUpTo(shards, list, i)
      {
        var part := ListShard(shards[i]);
        ListedShard(shards, list, i, part);
        list := list + part;
      }
      ListedAll(shards, list);
    }

    // Closes and unregisters every session until a snapshot comes back empty.  late[i] are
    // the sessions that other goroutines register during round i; closeFails is what each
    // session's Close returns; the context is cancelled before round cancelAt.
    method CloseAll(late: seq<seq<Session>>, closeFails: set<nat>, cancelAt: Option<nat>)
      returns (failed: bool)
      requires Valid()
      modifies this
      ensures Valid()
      ensures cancelAt.None? ==> Contents() == map[] && count == 0
      ensures cancelAt.None? && late == [] ==> failed == AnyKey(old(Contents()), closeFails)
    {
      failed := false;
      var round := 0;
      while true
        invariant Valid() && 0 <= round
        invariant round == 0 ==> Contents() == old(Contents()) && !failed
        invariant round > 0 && late == [] ==> Contents() == map[] && failed == AnyKey(old(Contents()), closeFails)
        decreases if round < |late| then |late| - round else 0, |Contents()|
      {
        if cancelAt == Some(round) {
          return;
        }
        var sessions := Snapshot();
        if sessions == [] {
          assert Contents() == map[];
          return;
        }
        ghost var before := Contents();
        var f := UnregisterEach(sessions, closeFails);
        RemovedAll(before, sessions, closeFails);
        failed := failed || f;
        if round < |late| {
          RegisterEach(late[round]);
        }
        round := round + 1;
      }
    }

    // One round of CloseAll: every listed session is closed, then removed.
    method UnregisterEach(sessions: seq<Session>, closeFails: set<nat>) returns (failed: bool)
      requires Valid()
      modifies this
      ensures Valid()
      ensures Contents() == Removed(old(Contents()), sessions, |sessions|)
      ensures failed == AnyIn(sessions, |sessions|, closeFails)
    {
      failed := false;
      ghost var before := Contents();
      for i := 0 to |sessions|
        invariant Valid()
        invariant Contents() == Removed(before, sessions, i)
        invariant failed == AnyIn(sessions, i, closeFails)
      {
        var _ := Unregister(sessions[i].id);
        failed := failed || sessions[i].id in closeFails;
      }
    }

    method RegisterEach(sessions: seq<Session>)
      requires Valid()
      modifies this
      ensures Valid()
    {
      for i := 0 to |sessions|
        invariant Valid()
      {
        var _ := Register(Some(sessions[i]));
      }
    }
  }

  predicate AnyIn(list: seq<Session>, n: nat, ids: set<nat>)
    requires n <= |list|
  {
    n != 0 && (AnyIn(list, n - 1, ids) || list[n - 1].id in ids)
  }

  // The table without the first n listed sessions.
  function Removed(m: Table, list: seq<Session>, n: nat): Table
    requires n <= |list|
  {
    if n == 0 then m else Removed(m, list, n - 1) - {list[n - 1].id}
  }

  lemma {:induction false} RemovedWithin(m: Table, list: seq<Session>, n: nat)
    requires n <= |list|
    ensures Removed(m, list, n).Keys <= m.Keys
    ensures forall i :: 0 <= i < n ==> list[i].id !in Removed(m, list, n)
  {
    if n != 0 { RemovedWithin(m, list, n - 1); }
  }

  predicate AnyKey(m: Table, ids: set<nat>) { m.Keys * ids != {} }

  lemma {:induction false} AnyInMeans(list: seq<Session>, n: nat, ids: set<nat>)
    requires n <= |list|
    ensures AnyIn(list, n, ids) <==> exists i :: 0 <= i < n && list[i].id in ids
  {
    if n != 0 { AnyInMeans(list, n - 1, ids); }
  }

  // Removing everything a snapshot lists empties the table it listed.
  lemma RemovedAll(m: Table, list: seq<Session>, ids: set<nat>)
    requires Lists(m, list) && forall id :: id in m ==> m[id].id == id
    ensures Removed(m, list, |list|) == map[]
    ensures AnyIn(list, |list|, ids) == AnyKey(m, ids)
  {
    RemovedWithin(m, list, |list|);
    AnyInMeans(list, |list|, ids);
    var r := Removed(m, list, |list|);
    forall id | id in m ensures id !in r {
      var i :| 0 <= i < |list| && list[i] == m[id];
    }
    assert r.Keys == {};
    if AnyKey(m, ids) {
      var id :| id in m && id in ids;
      assert m[id] in list;
      var i :| 0 <= i < |list| && list[i] == m[id];
    }
  }

  // The sessions of the first n shards.
  ghost predicate ListsUpTo(shards: Shards, list: seq<Session>, n: nat)
    requires WellSharded(shards)
  {
    && (forall sess :: sess in list <==>
       ShardOf(sess.id) < n && sess.id in shards[ShardOf(sess.id)] && shards[ShardOf(sess.id)][sess.id] == sess)
    && (forall a, b :: 0 <= a < b < |list| ==> list[a].id != list[b].id)
  }

  lemma ListedShard(shards: Shards, list: seq<Session>, n: nat, part: seq<Session>)
    requires WellSharded(shards) && n < SESSION_SHARDS && ListsUpTo(shards, list, n) && Lists(shards[n], part)
    ensures ListsUpTo(shards, list + part, n + 1)
  {
    forall a, b | 0 <= a < b < |list + part| ensures (list + part)[a].id != (list + part)[b].id {
      if a < |list| <= b {
        assert list[a] in list && part[b - |list|] in part;
      }
    }
  }

  lemma ListedAll(shards: Shards, list: seq<Session>)
    requires WellSharded(shards) && ListsUpTo(shards, list, SESSION_SHARDS)
    ensures Lists(Union(shards), list)
  {
    forall id | id in Union(shards) ensures Union(shards)[id] in list {
      assert ShardOf(id) < SESSION_SHARDS;
    }
  }

  // One shard's sessions, in an arbitrary map order.
  method ListShard(m: Table) returns (list: seq<Session>)
    requires forall id :: id in m ==> m[id].id == id
    ensures Lists(m, list)
  {
    list := [];
    var rest := m.Keys;
    while rest != {}
      invariant rest <= m.Keys
      invariant forall sess :: sess in list <==> sess.id in m && m[sess.id] == sess && sess.id !in rest
      invariant forall a, b :: 0 <= a < b < |list| ==> list[a].id != list[b].id
      decreases |rest|
    {
      var id :| id in rest;
      list := list + [m[id]];
      rest := rest - {id};
    }
  }

  // ---------------------------------------------------------------- Broadcast

  function Sharing(list: seq<Session>): seq<Session> {
    if list == [] then []
    else (if list[0].shares then [list[0]] else []) + Sharing(list[1..])
  }

  function Plain(list: seq<Session>): seq<Session> {
    if list == [] then []
    else (if list[0].shares then [] else [list[0]]) + Plain(list[1..])
  }

  // Who is offered the payload, in order.  Below two sharing recipients the whole snapshot
  // is appended to a list that already holds the plain sessions.
  function Offers(list: seq<Session>): seq<Session> {
    if |Sharing(list)| > 1 then Sharing(list) + Plain(list) else Plain(list) + list
  }

  // Broadcast over a snapshot; `refuses` are the sessions whose Send or SendShared fails.
  // refs is the frame's reference count when the offering loop ends.
  method Broadcast(list: seq<Session>, refuses: set<nat>)
    returns (offers: seq<Session>, refs: int, firstErr: Option<nat>)
    ensures offers == Offers(list)
    ensures |Sharing(list)| > 1 ==> refs == Accepting(Sharing(list), refuses)
    ensures firstErr == FirstRefusal(offers, refuses)
  {
    var shared, plain := Split(list);
    offers, refs, firstErr := [], 0, None;
    if |shared| > 1 {
      refs, firstErr := OfferShared(shared, refuses);
      offers := shared;
    } else {
      plain := plain + list;
    }
    offers, firstErr := OfferPlain(offers, plain, refuses, firstErr);
  }

  // The sessions offered a copy each, after those already offered the frame.
  method OfferPlain(offered: seq<Session>, plain: seq<Session>, refuses: set<nat>, err: Option<nat>)
    returns (offers: seq<Session>, firstErr: Option<nat>)
    requires err == FirstRefusal(offered, refuses)
    ensures offers == offered + plain && firstErr == FirstRefusal(offers, refuses)
  {
    offers, firstErr := offered, err;
    for i := 0 to |plain|
      invariant offers == offered + plain[..i] && firstErr == FirstRefusal(offers, refuses)
    {
      FirstRefusalGrows(offers, plain[i], refuses);
      assert plain[..i + 1] == plain[..i] + [plain[i]];
      offers := offers + [plain[i]];
      if plain[i].id in refuses && firstErr.None? {
        firstErr := Some(plain[i].id);
      }
    }
    assert plain[..|plain|] == plain;
  }

  method Split(list: seq<Session>) returns (shared: seq<Session>, plain: seq<Session>)
    ensures shared == Sharing(list) && plain == Plain(list)
  {
    shared, plain := [], [];
    for i := 0 to |list|
      invariant Sharing(list) == shared + Sharing(list[i..])
      invariant Plain(list) == plain + Plain(list[i..])
    {
      if list[i].shares {
        shared := shared + [list[i]];
      } else {
        plain := plain + [list[i]];
      }
    }
  }

  // The frame starts with one reference per recipient; a refused one is released at once.
  method OfferShared(shared: seq<Session>, refuses: set<nat>) returns (refs: int, firstErr: Option<nat>)
    ensures refs == Accepting(shared, refuses)
    ensures firstErr == FirstRefusal(shared, refuses)
  {
    refs, firstErr := |shared|, None;
    for i := 0 to |shared|
      invariant refs == Accepting(shared[..i], refuses) + |shared| - i
      invariant firstErr == FirstRefusal(shared[..i], refuses)
    {
      assert shared[..i + 1] == shared[..i] + [shared[i]];
      FirstRefusalGrows(shared[..i], shared[i], refuses);
      if shared[i].id in refuses {
        refs := refs - 1;
        if firstErr.None? { firstErr := Some(shared[i].id); }
      }
    }
    assert shared[..|shared|] == shared;
  }

  // Recipients that took the frame, and the first one that did not.
  function Accepting(list: seq<Session>, refuses: set<nat>): nat {
    if list == [] then 0
    else Accepting(list[..|list| - 1], refuses) + (if list[|list| - 1].id in refuses then 0 else 1)
  }

  function FirstRefusal(list: seq<Session>, refuses: set<nat>): Option<nat> {
    if list == [] then None
    else if list[0].id in refuses then Some(list[0].id)
    else FirstRefusal(list[1..], refuses)
  }

  lemma {:induction false} FirstRefusalGrows(list: seq<Session>, sess: Session, refuses: set<nat>)
    ensures FirstRefusal(list + [sess], refuses) ==
            if FirstRefusal(list, refuses).Some? then FirstRefusal(list, refuses)
            else if sess.id in refuses then Some(sess.id) else None
    decreases |list|
  {
    if list != [] {
      FirstRefusalGrows(list[1..], sess, refuses);
      assert (list + [sess])[1..] == list[1..] + [sess];
    }
  }

  lemma {:induction false} SplitKeepsAll(list: seq<Session>)
    ensures multiset(Sharing(list)) + multiset(Plain(list)) == multiset(list)
    decreases |list|
  {
    if list != [] {
      SplitKeepsAll(list[1..]);
      assert list == [list[0]] + list[1..];
    }
  }

  // Each snapshotted session is offered the payload exactly once if and only if at least
  // two of them share, or none is plain.
  lemma OfferedExactlyOnce(list: seq<Session>)
    ensures multiset(Offers(list)) == multiset(list) <==> |Sharing(list)| > 1 || Plain(list) == []
  {
    SplitKeepsAll(list);
    if |Sharing(list)| <= 1 {
      assert multiset(Offers(list)) == multiset(Plain(list)) + multiset(list);
      if Plain(list) != [] {
        assert Plain(list)[0] in multiset(Plain(list));
        assert multiset(Offers(list))[Plain(list)[0]] > multiset(list)[Plain(list)[0]];
      }
    }
  }

  // In the fallback every plain session is offered the payload twice.
  lemma FallbackOffersTwice(list: seq<Session>, sess: Session)
    requires multiset(list)[sess] == 1 && !sess.shares && |Sharing(list)| <= 1
    ensures multiset(Offers(list))[sess] == 2
  {
    SplitKeepsAll(list);
    SharingShares(list);
  }

  lemma {:induction false} SharingShares(list: seq<Session>)
    ensures forall sess :: sess in Sharing(list) ==> sess.shares
    decreases |list|
  {
    if list != [] { SharingShares(list[1..]); }
  }
}

module SessionMachine {
  import opened Basics
  import opened Sessions

  type Tid = nat

  datatype Pc =
    // Register
    | Calling(sess: Session)
    | Locked(sess: Session)               // shard lock held, duplicate not yet checked
    | Claiming(sess: Session)             // lock held, about to load count
    | Swapping(sess: Session, seen: int)  // lock held, about to compare-and-swap
    | Storing(sess: Session)              // lock held, slot claimed, not inserted
    | Registered(sess: Session, answer: Result)
    // Unregister
    | Removing(id: nat)                   // before the shard lock
    | Deleted(id: nat)                    // deleted, count not yet decremented
    | Unregistered(id: nat, found: bool)

  type Threads = map<Tid, Pc>

  datatype State = State(count: int, table: Table, lock: map<nat, Tid>, threads: Threads)

  const Init := State(0, map[], map[], map[])

  datatype Step =
    | Register(s: Session) | Lock | CheckDuplicate | LoadCount | Swap | Store
    | Unregister(id: nat) | Delete | Decrement

  predicate Enabled(s: State, t: Tid, a: Step) {
    if a.Register? || a.Unregister? then t !in s.threads
    else
      && t in s.threads
      && var pc := s.threads[t];
         match a
         case Lock => pc.Calling? && ShardOf(pc.sess.id) !in s.lock
         case CheckDuplicate => pc.Locked?
         case LoadCount => pc.Claiming?
         case Swap => pc.Swapping?
         case Store => pc.Storing?
         case Delete => pc.Removing? && ShardOf(pc.id) !in s.lock
         case Decrement => pc.Deleted?
         case _ => true
  }

  function Next(max: int, s: State, t: Tid, a: Step): Pc
    requires Enabled(s, t, a)
  {
    match a
    case Register(sess) => Calling(sess)
    case Unregister(id) => Removing(id)
    case Lock => Locked(s.threads[t].sess)
    case CheckDuplicate =>
      var sess := s.threads[t].sess;
      if sess.id in s.table then Registered(sess, ErrDuplicateSession) else Claiming(sess)
    case LoadCount =>
      var sess := s.threads[t].sess;
      if max > 0 && s.count >= max then Registered(sess, ErrSessionCapacity) else Swapping(sess, s.count)
    case Swap =>
      var pc := s.threads[t];
      if s.count == pc.seen then Storing(pc.sess) else Claiming(pc.sess)
    case Store => Registered(s.threads[t].sess, Ok)
    case Delete =>
      var id := s.threads[t].id;
      if id in s.table then Deleted(id) else Unregistered(id, false)
    case Decrement => Unregistered(s.threads[t].id, true)
  }

  function Apply(max: int, s: State, t: Tid, a: Step): State
    requires Enabled(s, t, a)
  {
    var pc := Next(max, s, t, a);
    var threads := s.threads[t := pc];
    match a
    case Lock => s.(threads := threads, lock := s.lock[ShardOf(pc.sess.id) := t])
    case CheckDuplicate => s.(threads := threads, lock := Unlock(s.lock, pc))
    case LoadCount => s.(threads := threads, lock := Unlock(s.lock, pc))
    case Swap => s.(threads := threads, count := if pc.Storing? then s.count + 1 else s.count)
    case Store => s.(threads := threads, lock := Unlock(s.lock, pc), table := Put(s.table, pc.sess))
    case Delete => s.(threads := threads, table := s.table - {pc.id})
    case Decrement => s.(threads := threads, count := s.count - 1)
    case _ => s.(threads := threads)
  }

  // Register's deferred unlock runs when it returns.
  function Unlock(lock: map<nat, Tid>, pc: Pc): map<nat, Tid> {
    if pc.Registered? then lock - {ShardOf(pc.sess.id)} else lock
  }

  ghost predicate Runs(max: int, s: State, run: seq<(Tid, Step)>, s': State)
    decreases |run|
  {
    if run == [] then s == s'
    else Enabled(s, run[0].0, run[0].1) && Runs(max, Apply(max, s, run[0].0, run[0].1), run[1..], s')
  }

  ghost predicate Reachable(max: int, s: State) {
    exists run :: Runs(max, Init, run, s)
  }

  // -------------------------------------------------------------- invariants

  predicate InLock(pc: Pc) { pc.Locked? || pc.Claiming? || pc.Swapping? || pc.Storing? }

  // Claimed but not inserted, or deleted but not yet decremented.
  function Between(threads: Threads): set<Tid> {
    set t | t in threads && (threads[t].Storing? || threads[t].Deleted?)
  }

  ghost predicate LockInv(threads: Threads, lock: map<nat, Tid>) {
    && (forall t :: t in threads && InLock(threads[t]) ==>
          ShardOf(threads[t].sess.id) in lock && lock[ShardOf(threads[t].sess.id)] == t)
    && (forall sh :: sh in lock ==>
          lock[sh] in threads && InLock(threads[lock[sh]]) && ShardOf(threads[lock[sh]].sess.id) == sh)
  }

  // Past the duplicate check the ID stays absent until the holder inserts it.
  ghost predicate FreshInv(max: int, threads: Threads, table: Table) {
    && (forall t :: t in threads && (threads[t].Claiming? || threads[t].Swapping? || threads[t].Storing?) ==>
          threads[t].sess.id !in table)
    && (forall t :: t in threads && threads[t].Swapping? ==> !(max > 0 && threads[t].seen >= max))
    && (forall id :: id in table ==> table[id].id == id)
  }

  ghost predicate CountInv(max: int, s: State) {
    s.count == |s.table| + |Between(s.threads)| && (max > 0 ==> s.count <= max)
  }

  ghost predicate Inv(max: int, s: State) {
    LockInv(s.threads, s.lock) && FreshInv(max, s.threads, s.table) && CountInv(max, s)
  }

  lemma BetweenMoves(threads: Threads, t: Tid, pc: Pc)
    ensures Between(threads[t := pc]) ==
            if pc.Storing? || pc.Deleted? then Between(threads) + {t} else Between(threads) - {t}
  {
  }

  lemma LockKept(max: int, s: State, t: Tid, a: Step)
    requires LockInv(s.threads, s.lock) && Enabled(s, t, a)
    ensures var s' := Apply(max, s, t, a); LockInv(s'.threads, s'.lock)
  {
  }

  lemma FreshKept(max: int, s: State, t: Tid, a: Step)
    requires LockInv(s.threads, s.lock) && FreshInv(max, s.threads, s.table) && Enabled(s, t, a)
    ensures var s' := Apply(max, s, t, a); FreshInv(max, s'.threads, s'.table)
  {
  }

  lemma CountKept(max: int, s: State, t: Tid, a: Step)
    requires FreshInv(max, s.threads, s.table) && CountInv(max, s) && Enabled(s, t, a)
    ensures CountInv(max, Apply(max, s, t, a))
  {
    BetweenMoves(s.threads, t, Next(max, s, t, a));
  }

  lemma {:induction false} RunKeepsInv(max: int, s: State, run: seq<(Tid, Step)>, s': State)
    requires Inv(max, s) && Runs(max, s, run, s')
    ensures Inv(max, s')
    decreases |run|
  {
    if run != [] {
      LockKept(max, s, run[0].0, run[0].1);
      FreshKept(max, s, run[0].0, run[0].1);
      CountKept(max, s, run[0].0, run[0].1);
      RunKeepsInv(max, Apply(max, s, run[0].0, run[0].1), run[1..], s');
    }
  }

  lemma ReachableInv(max: int, s: State)
    requires Reachable(max, s)
    ensures Inv(max, s)
  {
    var run :| Runs(max, Init, run, s);
    assert Between(map[]) == {};
    RunKeepsInv(max, Init, run, s);
  }

  // ------------------------------------------------------------ main results

  // The sessions of one shard.
  function ShardIds(table: Table, sh: nat): set<nat> { set id | id in table && ShardOf(id) == sh }

  // The sizes of the first n shards together.
  function ShardSizes(table: Table, n: nat): nat {
    if n == 0 then 0 else ShardSizes(table, n - 1) + |ShardIds(table, n - 1)|
  }

  lemma {:induction false} ShardSizesAre(table: Table, n: nat)
    ensures ShardSizes(table, n) == |set id | id in table && ShardOf(id) < n|
  {
    var below := set id | id in table && ShardOf(id) < n;
    if n == 0 {
      assert below == {};
    } else {
      ShardSizesAre(table, n - 1);
      var fewer := set id | id in table && ShardOf(id) < n - 1;
      assert below == fewer + ShardIds(table, n - 1) && fewer !! ShardIds(table, n - 1);
    }
  }

  // In every interleaving the counter is the sum of the shard sizes plus the threads
  // between their two updates, and never exceeds the ceiling.
  lemma CounterAccountsForEveryone(max: int, s: State)
    requires Reachable(max, s)
    ensures s.count == ShardSizes(s.table, SESSION_SHARDS) + |Between(s.threads)|
    ensures max > 0 ==> s.count <= max && |s.table| <= max
    ensures ShardSizes(s.table, SESSION_SHARDS) == |s.table|
  {
    ReachableInv(max, s);
    ShardSizesAre(s.table, SESSION_SHARDS);
    assert (set id | id in s.table && ShardOf(id) < SESSION_SHARDS) == s.table.Keys;
  }

  // Each Register reports a duplicate exactly when a manager with one table would at the
  // instant it decides, and inserts only what that manager would accept.
  lemma AnswersAsOneTable(max: int, s: State, t: Tid, a: Step)
    requires Reachable(max, s) && Enabled(s, t, a) && (a.CheckDuplicate? || a.Store?)
    ensures var sess := s.threads[t].sess;
            var one := RegisterAnswer(max, s.table, Some(sess));
            && (a.CheckDuplicate? ==>
                  (Next(max, s, t, a) == Registered(sess, ErrDuplicateSession) <==> one.ErrDuplicateSession?))
            && (a.Store? ==> one.Ok? && Apply(max, s, t, a).table == s.table[sess.id := sess])
  {
    ReachableInv(max, s);
    if a.Store? {
      assert t in Between(s.threads);
    }
  }

  // Capacity counts the threads between their updates as well. So Register refuses although
  // one table would accept exactly when the table has room but not for them too.
  lemma CapacityRefusedIff(max: int, s: State, t: Tid)
    requires Reachable(max, s) && Enabled(s, t, LoadCount)
    ensures var sess := s.threads[t].sess;
            var refused := Next(max, s, t, LoadCount) == Registered(sess, ErrSessionCapacity);
            var one := RegisterAnswer(max, s.table, Some(sess));
            && (refused <==> max > 0 && |s.table| + |Between(s.threads)| >= max)
            && (one.ErrSessionCapacity? ==> refused)
            && (refused && one.Ok? <==> |s.table| < max <= |s.table| + |Between(s.threads)|)
  {
    ReachableInv(max, s);
  }

  lemma {:induction false} RunExtends(max: int, s: State, run: seq<(Tid, Step)>, m: State, t: Tid, a: Step)
    requires Runs(max, s, run, m) && Enabled(m, t, a)
    ensures Runs(max, s, run + [(t, a)], Apply(max, m, t, a))
    decreases |run|
  {
    if run == [] {
      assert [(t, a)][1..] == [];
      assert Runs(max, Apply(max, m, t, a), [], Apply(max, m, t, a));
    } else {
      RunExtends(max, Apply(max, s, run[0].0, run[0].1), run[1..], m, t, a);
      assert (run + [(t, a)])[1..] == run[1..] + [(t, a)];
    }
  }

  lemma Move(max: int, s: State, t: Tid, a: Step) returns (s': State)
    requires Reachable(max, s) && Enabled(s, t, a)
    ensures s' == Apply(max, s, t, a) && Reachable(max, s')
  {
    var run :| Runs(max, Init, run, s);
    RunExtends(max, Init, run, s, t, a);
    s' := Apply(max, s, t, a);
    assert Runs(max, Init, run + [(t, a)], s');
  }

  // Thread t registers a session while nobody else is in the way.
  lemma RegistersOne(max: int, s0: State, t: Tid, sess: Session) returns (s: State)
    requires Reachable(max, s0) && t !in s0.threads && s0.lock == map[] && sess.id !in s0.table
    requires max <= 0 || s0.count < max
    ensures Reachable(max, s) && s.lock == map[] && s.table == s0.table[sess.id := sess] && s.count == s0.count + 1
    ensures s.threads == s0.threads[t := Registered(sess, Ok)]
  {
    s := Claims(max, s0, t, sess);
    s := Move(max, s, t, Swap);
    s := Move(max, s, t, Store);
    assert s.lock == map[] && s.threads == s0.threads[t := Registered(sess, Ok)];
  }

  lemma Claims(max: int, s0: State, t: Tid, sess: Session) returns (s: State)
    requires Reachable(max, s0) && t !in s0.threads && s0.lock == map[] && sess.id !in s0.table
    requires max <= 0 || s0.count < max
    ensures Reachable(max, s) &&
            s == s0.(lock := map[ShardOf(sess.id) := t], threads := s0.threads[t := Swapping(sess, s0.count)])
  {
    s := Asks(max, s0, t, sess);
    s := Move(max, s, t, CheckDuplicate);
    s := Move(max, s, t, LoadCount);
    assert s.threads == s0.threads[t := Swapping(sess, s0.count)];
  }

  lemma Asks(max: int, s0: State, t: Tid, sess: Session) returns (s: State)
    requires Reachable(max, s0) && t !in s0.threads && s0.lock == map[]
    ensures Reachable(max, s) && s == s0.(lock := map[ShardOf(sess.id) := t], threads := s0.threads[t := Locked(sess)])
  {
    s := Move(max, s0, t, Register(sess));
    s := Move(max, s, t, Lock);
    assert s.lock == map[ShardOf(sess.id) := t] && s.threads == s0.threads[t := Locked(sess)];
  }

  // Such a refusal happens: the only session has been deleted and its thread has not yet
  // counted down when another is refused, although the table is empty.
  lemma RefusedWithRoom(a: Session, b: Session) returns (s: State)
    ensures Reachable(1, s) && s.table == map[] && Enabled(s, 2, LoadCount) && s.threads[2].sess == b
    ensures Next(1, s, 2, LoadCount) == Registered(b, ErrSessionCapacity)
    ensures RegisterAnswer(1, s.table, Some(b)).Ok?
  {
    assert Runs(1, Init, [], Init);
    s := RegistersOne(1, Init, 0, a);
    s := Move(1, s, 1, Unregister(a.id));
    s := Move(1, s, 1, Delete);
    assert s.table == map[];
    s := Asks(1, s, 2, b);
    s := Move(1, s, 2, CheckDuplicate);
  }
}
