/**
 * The durable message log (internal/infra/store/message_log.go): messages are stored under
 * the 8-byte big-endian form of their sequence number, and replayed in the byte-wise order
 * of the keys. The bucket of the backing store is a map; keys that are too short to carry
 * a sequence number belong to someone else and are skipped.
 */
module MessageLog {
  import opened Bytes

  type Key = seq<Byte>
  type Store = map<Key, seq<Byte>>
  type Message = (nat, seq<Byte>)

  const LIMIT := 0x1_0000_0000_0000_0000

  function SeqKey(n: nat): (k: Key)
    ensures |k| == 8
  {
    Put(n, 8)
  }

  // The sequence number a key starts with.
  function SeqOf(k: Key): nat
    requires |k| >= 8
  {
    Value(k[..8])
  }

  // ------------------------------------------------------------------ byte-wise order

  predicate Lex(a: Key, b: Key) {
    b != [] && (a == [] || a[0] < b[0] || (a[0] == b[0] && Lex(a[1..], b[1..])))
  }

  lemma {:induction false} LexTotal(a: Key, b: Key)
    ensures a == b || Lex(a, b) || Lex(b, a)
  {
    if a != [] && b != [] && a[0] == b[0] {
      LexTotal(a[1..], b[1..]);
      assert a == [a[0]] + a[1..] && b == [b[0]] + b[1..];
    }
  }

  lemma {:induction false} LexTrans(a: Key, b: Key, c: Key)
    requires Lex(a, b) && Lex(b, c)
    ensures Lex(a, c)
  {
    if a != [] && a[0] == b[0] == c[0] {
      LexTrans(a[1..], b[1..], c[1..]);
    }
  }

  lemma {:induction false} LexIrreflexive(a: Key)
    ensures !Lex(a, a)
  {
    if a != [] {
      LexIrreflexive(a[1..]);
    }
  }

  lemma {:induction false} ValueOfCons(x: Byte, t: Key)
    ensures Value([x] + t) == x as int * Pow256(|t|) + Value(t)
    decreases |t|
  {
    if t == [] {
      assert [x] + t == [] + [x];
    } else {
      var init := t[..|t| - 1];
      ValueOfCons(x, init);
      assert ([x] + t)[..|t|] == [x] + init;
    }
  }

  lemma CompareHeads(x: nat, y: nat, p: nat, u: nat, v: nat)
    requires x < y && u < p && v < p
    ensures x * p + u < y * p + v
  {
    assert (x + 1) * p <= y * p;
  }

  // For keys of one length, byte-wise order is numeric order.
  lemma {:induction false} LexIsNumeric(a: Key, b: Key)
    requires |a| == |b|
    ensures Lex(a, b) <==> Value(a) < Value(b)
  {
    if a != [] {
      var s, t := a[1..], b[1..];
      assert a == [a[0]] + s && b == [b[0]] + t;
      ValueOfCons(a[0], s);
      ValueOfCons(b[0], t);
      ValueBound(s);
      ValueBound(t);
      LexIsNumeric(s, t);
      if a[0] < b[0] {
        CompareHeads(a[0], b[0], Pow256(|s|), Value(s), Value(t));
      } else if b[0] < a[0] {
        CompareHeads(b[0], a[0], Pow256(|s|), Value(t), Value(s));
      }
    }
  }

  lemma {:induction false} LexByPrefix(a: Key, b: Key, n: nat)
    requires n <= |a| && n <= |b| && Lex(a[..n], b[..n])
    ensures Lex(a, b)
  {
    if n > 0 && a[0] == b[0] {
      assert a[..n][1..] == a[1..][..n - 1] && b[..n][1..] == b[1..][..n - 1];
      LexByPrefix(a[1..], b[1..], n - 1);
    }
  }

  lemma SeqKeyValue(n: nat)
    requires n < LIMIT
    ensures Value(SeqKey(n)) == n && SeqOf(SeqKey(n)) == n
  {
    assert Pow256(8) == LIMIT by {
      assert Pow256(2) == 0x1_0000;
      assert Pow256(4) == Pow256(2) * 256 * 256;
      assert Pow256(6) == Pow256(4) * 256 * 256;
    }
    ValueOfPut(n, 8);
    assert SeqKey(n)[..8] == SeqKey(n);
  }

  // ------------------------------------------------------------------ sorted keys

  predicate Ascending(keys: seq<Key>) {
    forall i, j :: 0 <= i < j < |keys| ==> Lex(keys[i], keys[j])
  }

  ghost predicate IsSorted(keys: seq<Key>, all: set<Key>) {
    Ascending(keys) && forall k :: k in keys <==> k in all
  }

  function Insert(keys: seq<Key>, k: Key): seq<Key> {
    if keys == [] || Lex(k, keys[0]) then [k] + keys else [keys[0]] + Insert(keys[1..], k)
  }

  lemma {:induction false} InsertMembers(keys: seq<Key>, k: Key)
    ensures forall x :: x in Insert(keys, k) <==> x == k || x in keys
  {
    if keys != [] && !Lex(k, keys[0]) {
      InsertMembers(keys[1..], k);
      assert keys == [keys[0]] + keys[1..];
    }
  }

  lemma {:induction false} InsertSorted(keys: seq<Key>, k: Key)
    requires Ascending(keys) && k !in keys
    ensures Ascending(Insert(keys, k))
  {
    if keys == [] {
    } else if Lex(k, keys[0]) {
      forall j | 0 < j < |keys| ensures Lex(k, keys[j]) {
        LexTrans(k, keys[0], keys[j]);
      }
    } else {
      LexTotal(k, keys[0]);
      var rest := Insert(keys[1..], k);
      InsertSorted(keys[1..], k);
      InsertMembers(keys[1..], k);
      forall j | 0 <= j < |rest| ensures Lex(keys[0], rest[j]) {
        if rest[j] != k {
          assert rest[j] in keys[1..];
        }
      }
    }
  }

  lemma {:induction false} SortExists(all: set<Key>)
    ensures exists keys :: IsSorted(keys, all)
  {
    if all == {} {
      assert IsSorted([], all);
    } else {
      var k :| k in all;
      SortExists(all - {k});
      var keys :| IsSorted(keys, all - {k});
      InsertSorted(keys, k);
      InsertMembers(keys, k);
      assert IsSorted(Insert(keys, k), all);
    }
  }

  ghost function SortedKeys(all: set<Key>): (keys: seq<Key>)
    ensures IsSorted(keys, all)
  {
    SortExists(all);
    var keys :| IsSorted(keys, all);
    keys
  }

  lemma {:induction false} SortedIsUnique(a: seq<Key>, b: seq<Key>)
    requires Ascending(a) && Ascending(b) && forall k :: k in a <==> k in b
    ensures a == b
  {
    if a == [] {
      assert forall i :: 0 <= i < |b| ==> b[i] in b;
    } else {
      assert a[0] in b;
      FirstIsLeast(a, b);
      FirstIsLeast(b, a);
      LexIrreflexive(a[0]);
      assert a[0] == b[0] by {
        if Lex(a[0], b[0]) && Lex(b[0], a[0]) {
          LexTrans(a[0], b[0], a[0]);
        }
      }
      TailMembers(a);
      TailMembers(b);
      SortedIsUnique(a[1..], b[1..]);
    }
  }

  lemma FirstIsLeast(a: seq<Key>, b: seq<Key>)
    requires Ascending(a) && a != [] && b != [] && b[0] in a
    ensures a[0] == b[0] || Lex(a[0], b[0])
  {
  }

  lemma TailMembers(a: seq<Key>)
    requires Ascending(a) && a != []
    ensures forall k :: k in a[1..] <==> k in a && k != a[0]
  {
    LexIrreflexive(a[0]);
    assert a == [a[0]] + a[1..];
  }

  // ------------------------------------------------------------------ replay

  // The keys that carry a sequence number of at least `from`, in order.
  function Keep(keys: seq<Key>, from: nat): (kept: seq<Key>)
    ensures forall k :: k in kept <==> k in keys && |k| >= 8 && SeqOf(k) >= from
  {
    if keys == [] then []
    else
      var rest := Keep(keys[..|keys| - 1], from);
      var k := keys[|keys| - 1];
      assert keys == keys[..|keys| - 1] + [k];
      if |k| >= 8 && SeqOf(k) >= from then rest + [k] else rest
  }

  lemma {:induction false} KeepAscends(keys: seq<Key>, from: nat)
    requires Ascending(keys)
    ensures Ascending(Keep(keys, from))
    decreases |keys|
  {
    if keys != [] {
      var init := keys[..|keys| - 1];
      KeepAscends(init, from);
      var rest := Keep(init, from);
      forall i | 0 <= i < |rest| ensures Lex(rest[i], keys[|keys| - 1]) {
        assert rest[i] in init;
      }
    }
  }

  function Entries(store: Store, keys: seq<Key>): seq<Message>
    requires forall k :: k in keys ==> |k| >= 8 && k in store
  {
    if keys == [] then []
    else
      var k := keys[|keys| - 1];
      Entries(store, keys[..|keys| - 1]) + [(SeqOf(k), store[k])]
  }

  // What Replay hands out.
  ghost function Replayed(store: Store): seq<Message> { Entries(store, Keep(SortedKeys(store.Keys), 0)) }

  // The messages numbered at least `from`, in the same order.
  function Since(ms: seq<Message>, from: nat): seq<Message> {
    if ms == [] then []
    else
      var rest := Since(ms[..|ms| - 1], from);
      if ms[|ms| - 1].0 >= from then rest + [ms[|ms| - 1]] else rest
  }

  // Numbers never go down along a replay.
  lemma ReplayIsOrdered(store: Store, keys: seq<Key>, i: nat, j: nat)
    requires keys == Keep(SortedKeys(store.Keys), 0) && i < j < |keys|
    ensures |Replayed(store)| == |keys| && Replayed(store)[i].0 <= Replayed(store)[j].0
    ensures |keys[i]| == 8 && |keys[j]| == 8 ==> Replayed(store)[i].0 < Replayed(store)[j].0
  {
    KeepAscends(SortedKeys(store.Keys), 0);
    EntriesAt(store, keys, i);
    EntriesAt(store, keys, j);
    LexIsNumeric(keys[j][..8], keys[i][..8]);
    if Lex(keys[j][..8], keys[i][..8]) {
      LexByPrefix(keys[j], keys[i], 8);
      LexTrans(keys[i], keys[j], keys[i]);
      LexIrreflexive(keys[i]);
    }
    if |keys[i]| == 8 && |keys[j]| == 8 {
      assert keys[i][..8] == keys[i] && keys[j][..8] == keys[j];
      LexIsNumeric(keys[i], keys[j]);
    }
  }

  lemma {:induction false} EntriesAt(store: Store, keys: seq<Key>, i: nat)
    requires (forall k :: k in keys ==> |k| >= 8 && k in store) && i < |keys|
    ensures |Entries(store, keys)| == |keys| && Entries(store, keys)[i] == (SeqOf(keys[i]), store[keys[i]])
    decreases |keys|
  {
    var init := keys[..|keys| - 1];
    if init != [] {
      EntriesAt(store, init, if i < |init| then i else 0);
    }
  }

  // ------------------------------------------------------------------ append

  // Every stored number is below n.
  ghost predicate Above(store: Store, n: nat) {
    forall k :: k in store && |k| >= 8 ==> SeqOf(k) < n
  }

  // An appended message is new, and comes last in the replay.
  lemma AppendComesLast(store: Store, n: nat, data: seq<Byte>)
    requires Above(store, n) && n < LIMIT
    ensures SeqKey(n) !in store
    ensures Replayed(store[SeqKey(n) := data]) == Replayed(store) + [(n, data)]
  {
    SeqKeyValue(n);
    var key := SeqKey(n);
    var store' := store[key := data];
    var keys, keys' := Keep(SortedKeys(store.Keys), 0), Keep(SortedKeys(store'.Keys), 0);
    KeepAscends(SortedKeys(store.Keys), 0);
    KeepAscends(SortedKeys(store'.Keys), 0);
    forall i | 0 <= i < |keys| ensures Lex(keys[i], key) {
      assert keys[i] in keys;
      LexIsNumeric(keys[i][..8], key[..8]);
      LexByPrefix(keys[i], key, 8);
    }
    SortedIsUnique(keys', keys + [key]);
    SameEntries(store, store', keys);
  }

  lemma AppendStaysBelow(store: Store, n: nat, data: seq<Byte>)
    requires Above(store, n) && n < LIMIT
    ensures Above(store[SeqKey(n) := data], n + 1)
  {
    SeqKeyValue(n);
  }

  lemma {:induction false} SameEntries(store: Store, store': Store, keys: seq<Key>)
    requires forall k :: k in keys ==> |k| >= 8 && k in store && k in store' && store[k] == store'[k]
    ensures Entries(store, keys) == Entries(store', keys)
    decreases |keys|
  {
    if keys != [] {
      SameEntries(store, store', keys[..|keys| - 1]);
    }
  }

  // ------------------------------------------------------------------ prune

  predicate Below(k: Key, bound: nat) { |k| >= 8 && SeqOf(k) < bound }

  function Pruned(store: Store, bound: nat): Store { store - (set k | k in store && Below(k, bound)) }

  lemma {:induction false} SinceOfEntries(store: Store, keys: seq<Key>, from: nat)
    requires forall k :: k in keys ==> k in store
    ensures Since(Entries(store, Keep(keys, 0)), from) == Entries(store, Keep(keys, from))
    decreases |keys|
  {
    if keys != [] {
      var init, k := keys[..|keys| - 1], keys[|keys| - 1];
      SinceOfEntries(store, init, from);
      if |k| >= 8 {
        var all := Entries(store, Keep(init, 0));
        assert (all + [(SeqOf(k), store[k])])[..|all|] == all;
        KeepSnoc(store, init, k, 0);
        KeepSnoc(store, init, k, from);
      }
    }
  }

  lemma KeepSnoc(store: Store, init: seq<Key>, k: Key, from: nat)
    requires |k| >= 8 && k in store && forall x :: x in init ==> x in store
    ensures Entries(store, Keep(init + [k], from)) ==
            Entries(store, Keep(init, from)) + if SeqOf(k) >= from then [(SeqOf(k), store[k])] else []
  {
    assert (init + [k])[..|init|] == init;
    var kept := Keep(init, from);
    assert (kept + [k])[..|kept|] == kept;
  }

  lemma ReplayTurn(store: Store, keys: seq<Key>, i: nat)
    requires i < |keys| && forall x :: x in keys ==> x in store
    ensures Entries(store, Keep(keys[..i + 1], 0)) ==
            Entries(store, Keep(keys[..i], 0)) + if |keys[i]| >= 8 then [(SeqOf(keys[i]), store[keys[i]])] else []
  {
    var init := keys[..i];
    assert keys[..i + 1] == init + [keys[i]] && (init + [keys[i]])[..i] == init;
    if |keys[i]| >= 8 {
      KeepSnoc(store, init, keys[i], 0);
    }
  }

  // A pruned log replays exactly the messages at or above the bound, as before.
  lemma PruneKeepsTheRest(store: Store, bound: nat)
    ensures Replayed(Pruned(store, bound)) == Since(Replayed(store), bound)
  {
    var store' := Pruned(store, bound);
    var keys, keys' := SortedKeys(store.Keys), SortedKeys(store'.Keys);
    KeepAscends(keys, bound);
    KeepAscends(keys', 0);
    SortedIsUnique(Keep(keys', 0), Keep(keys, bound));
    SameEntries(store, store', Keep(keys, bound));
    SinceOfEntries(store, keys, bound);
  }

  // ------------------------------------------------------------------ the log

  // uint64 increment.
  function Bump(n: nat): nat { if n == LIMIT - 1 then 0 else n + 1 }

  predicate Readable(store: Store, unreadable: set<Key>) {
    forall k :: k in store && |k| >= 8 ==> k !in unreadable
  }

  // All messages, or those up to the first call that returns an error.
  predicate HandedOut(messages: seq<Message>, errors: set<nat>, handed: seq<Message>, failed: bool) {
    && handed <= messages
    && (forall i :: 0 <= i < |handed| && i in errors ==> i == |handed| - 1)
    && (if failed then handed != [] && |handed| - 1 in errors
        else handed == messages && forall i :: 0 <= i < |handed| ==> i !in errors)
  }

  class Log {
    var store: Store
    var next: nat

    // NewMessageLog: resumes above every number still stored, unless the largest possible
    // one is among them; then the uint64 counter wraps to zero.
    constructor (existing: Store)
      ensures store == existing && 0 <= next < LIMIT
      ensures Above(store, next) <==> forall k :: k in store && |k| >= 8 ==> SeqOf(k) != LIMIT - 1
    {
      var maxSeq: nat := 0;
      var todo := existing.Keys;
      ghost var top: Key := [];
      while todo != {}
        invariant todo <= existing.Keys && maxSeq < LIMIT
        invariant forall k :: k in existing.Keys - todo && |k| >= 8 ==> SeqOf(k) <= maxSeq
        invariant maxSeq > 0 ==> top in existing && |top| >= 8 && SeqOf(top) == maxSeq
        decreases todo
      {
        var k :| k in todo;
        todo := todo - {k};
        if |k| >= 8 && SeqOf(k) > maxSeq {
          SeqBound(k);
          maxSeq := SeqOf(k);
          top := k;
        }
      }
      store := existing;
      next := Bump(maxSeq);
    }

    // `saved` is whether the backing store took the write.
    method Append(data: seq<Byte>, saved: bool) returns (r: nat)
      requires next < LIMIT
      modifies this
      ensures !saved ==> store == old(store) && next == old(next)
      ensures saved ==> r == old(next) && store == old(store)[SeqKey(r) := data] && next == Bump(old(next))
      ensures saved && Above(old(store), old(next)) ==>
                SeqKey(r) !in old(store) && Replayed(store) == Replayed(old(store)) + [(r, data)]
      ensures Above(old(store), old(next)) && next != 0 ==> Above(store, next)
    {
      if !saved {
        return 0;
      }
      if Above(store, next) {
        AppendComesLast(store, next, data);
        AppendStaysBelow(store, next, data);
      }
      store := store[SeqKey(next) := data];
      r := next;
      next := Bump(next);
    }

    method SortKeys(all: set<Key>) returns (keys: seq<Key>)
      ensures keys == SortedKeys(all)
    {
      keys := [];
      var todo := all;
      while todo != {}
        invariant todo <= all && IsSorted(keys, all - todo)
        decreases todo
      {
        var k :| k in todo;
        todo := todo - {k};
        InsertSorted(keys, k);
        InsertMembers(keys, k);
        keys := Insert(keys, k);
      }
      SortedIsUnique(keys, SortedKeys(all));
    }

    // The snapshot, under the lock; unreadable holds the keys whose Load fails.
    method Collect(unreadable: set<Key>) returns (messages: seq<Message>, ok: bool)
      ensures ok <==> Readable(store, unreadable)
      ensures ok ==> messages == Replayed(store)
    {
      var keys := SortKeys(store.Keys);
      messages := [];
      for i := 0 to |keys|
        invariant messages == Entries(store, Keep(keys[..i], 0))
        invariant forall j :: 0 <= j < i && |keys[j]| >= 8 ==> keys[j] !in unreadable
      {
        ReplayTurn(store, keys, i);
        if |keys[i]| >= 8 {
          if keys[i] in unreadable {
            return messages, false;
          }
          messages := messages + [(SeqOf(keys[i]), store[keys[i]])];
        }
      }
      assert keys[..|keys|] == keys;
      ok := true;
    }

    // What is handed to the callback, whose call number i returns an error for i in errors:
    // nothing if the store cannot be read, and otherwise the replay, up to the first error.
    method Replay(unlisted: bool, unreadable: set<Key>, errors: set<nat>) returns (handed: seq<Message>, failed: bool)
      ensures unlisted || !Readable(store, unreadable) ==> failed && handed == []
      ensures !unlisted && Readable(store, unreadable) ==> HandedOut(Replayed(store), errors, handed, failed)
    {
      handed, failed := [], true;
      if !unlisted {
        var messages, ok := Collect(unreadable);
        if ok {
          handed, failed := HandOut(messages, errors);
        }
      }
    }

    method HandOut(messages: seq<Message>, errors: set<nat>) returns (handed: seq<Message>, failed: bool)
      ensures HandedOut(messages, errors, handed, failed)
    {
      handed, failed := [], false;
      for i := 0 to |messages|
        invariant handed == messages[..i] && forall j :: 0 <= j < i ==> j !in errors
      {
        handed := handed + [messages[i]];
        if i in errors {
          failed := true;
          return;
        }
      }
    }

    method Prune(bound: nat)
      modifies this`store
      ensures store == Pruned(old(store), bound)
      ensures Replayed(store) == Since(Replayed(old(store)), bound)
    {
      var doomed := {};
      var todo := store.Keys;
      while todo != {}
        invariant todo <= store.Keys && store == old(store)
        invariant forall k :: k in doomed <==> k in store.Keys - todo && Below(k, bound)
        decreases todo
      {
        var k :| k in todo;
        todo := todo - {k};
        if |k| >= 8 && SeqOf(k) < bound {
          doomed := doomed + {k};
        }
      }
      PruneKeepsTheRest(store, bound);
      assert doomed == set k | k in store && Below(k, bound);
      store := store - doomed;
    }
  }

  lemma SeqBound(k: Key)
    requires |k| >= 8
    ensures SeqOf(k) < LIMIT
  {
    ValueBound(k[..8]);
    assert Pow256(8) == LIMIT by {
      assert Pow256(2) == 0x1_0000;
      assert Pow256(4) == Pow256(2) * 256 * 256;
      assert Pow256(6) == Pow256(4) * 256 * 256;
    }
  }
}
