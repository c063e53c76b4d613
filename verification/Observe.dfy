/**
 * The observer registry (internal/transport/coap/observe.go), section 4.1 of RFC 7641:
 * nested maps with redundant counters, shown to behave as one flat table with a single
 * relation per resource and remote. Go strings are byte strings here.
 */
module Observe {
  import opened Basics
  import opened Bytes

  type Text = seq<Byte>
  datatype Observer = Observer(token: Text, remote: Text, resource: Text, seqNo: nat)
  type Relations = map<(Text, Text), Observer>

  const PER_REMOTE := 64
  const IN_TOTAL := 4096
  const SLASH: Byte := 47

  // ------------------------------------------------------------------ relation keys

  function Key(remote: Text, token: Text): Text { remote + [SLASH] + token }

  predicate SlashFree(s: Text) { forall i :: 0 <= i < |s| ==> s[i] != SLASH }

  lemma NoEarlierSlash(r: Text, t: Text, i: nat)
    requires SlashFree(r) && i < |Key(r, t)| && Key(r, t)[i] == SLASH
    ensures i >= |r|
  {
  }

  // Remotes are host:port texts without a slash; then the concatenated key tells remote and
  // token apart.
  lemma KeyIsInjective(r: Text, t: Text, r': Text, t': Text)
    requires SlashFree(r) && SlashFree(r') && Key(r, t) == Key(r', t')
    ensures r == r' && t == t'
  {
    var k := Key(r, t);
    NoEarlierSlash(r, t, |r'|);
    NoEarlierSlash(r', t', |r|);
    assert k[..|r|] == r && k[..|r'|] == r' && k[|r| + 1..] == t && k[|r'| + 1..] == t';
  }

  // With a slash in one remote two different clients can share a key.
  lemma KeyCollides(a: Text, b: Text, c: Text)
    ensures Key(a + [SLASH] + b, c) == Key(a, b + [SLASH] + c)
  {
  }

  // ------------------------------------------------------------------ the flat table

  function Held(rel: Relations, remote: Text): set<(Text, Text)> { set p | p in rel && p.1 == remote }

  function Fresh(resource: Text, remote: Text, token: Text): Observer { Observer(token, remote, resource, 0) }

  // Some(observer) when the relation exists afterwards.
  function Registered(rel: Relations, resource: Text, remote: Text, token: Text): (Relations, bool) {
    var p := (resource, remote);
    if p in rel && rel[p].token == token then (rel, true)
    else if p in rel then (rel[p := Fresh(resource, remote, token)], true)
    else if |Held(rel, remote)| >= PER_REMOTE || |rel| >= IN_TOTAL then (rel, false)
    else (rel[p := Fresh(resource, remote, token)], true)
  }

  function Removed(rel: Relations, resource: Text, remote: Text, token: Text): Relations {
    var p := (resource, remote);
    if p in rel && rel[p].token == token then rel - {p} else rel
  }

  function WithToken(rel: Relations, remote: Text, token: Text): set<(Text, Text)> {
    set p | p in rel && p.1 == remote && rel[p].token == token
  }

  // ------------------------------------------------------------------ counting

  lemma Added(rel: Relations, p: (Text, Text), o: Observer)
    requires p !in rel
    ensures |rel[p := o]| == |rel| + 1
    ensures forall r :: |Held(rel[p := o], r)| == |Held(rel, r)| + if r == p.1 then 1 else 0
  {
    var rel' := rel[p := o];
    assert rel'.Keys == rel.Keys + {p};
    forall r ensures |Held(rel', r)| == |Held(rel, r)| + if r == p.1 then 1 else 0 {
      HeldAfterAdd(rel, p, o, r);
    }
  }

  lemma HeldAfterAdd(rel: Relations, p: (Text, Text), o: Observer, r: Text)
    requires p !in rel
    ensures |Held(rel[p := o], r)| == |Held(rel, r)| + if r == p.1 then 1 else 0
  {
    if r == p.1 {
      assert Held(rel[p := o], r) == Held(rel, r) + {p};
    } else {
      assert Held(rel[p := o], r) == Held(rel, r);
    }
  }

  lemma Dropped(rel: Relations, p: (Text, Text))
    requires p in rel
    ensures |rel - {p}| == |rel| - 1
    ensures forall r :: |Held(rel - {p}, r)| == |Held(rel, r)| - if r == p.1 then 1 else 0
  {
    assert (rel - {p})[p := rel[p]] == rel;
    Added(rel - {p}, p, rel[p]);
  }

  lemma Replaced(rel: Relations, p: (Text, Text), o: Observer)
    requires p in rel
    ensures |rel[p := o]| == |rel|
    ensures forall r :: Held(rel[p := o], r) == Held(rel, r)
  {
    assert rel[p := o].Keys == rel.Keys;
  }

  // ------------------------------------------------------------------ the invariant

  function CountOf(counts: map<Text, int>, remote: Text): int { if remote in counts then counts[remote] else 0 }

  predicate Listed(subs: map<Text, map<Text, Observer>>, rel: Relations, resource: Text, key: Text)
    requires resource in subs && key in subs[resource]
  {
    var o := subs[resource][key];
    && key == Key(o.remote, o.token) && o.resource == resource && SlashFree(o.remote)
    && (resource, o.remote) in rel && rel[(resource, o.remote)] == o
  }

  predicate Stored(subs: map<Text, map<Text, Observer>>, o: Observer, p: (Text, Text)) {
    && o.resource == p.0 && o.remote == p.1 && SlashFree(o.remote)
    && p.0 in subs && Key(o.remote, o.token) in subs[p.0] && subs[p.0][Key(o.remote, o.token)] == o
  }

  // The nested maps hold exactly the flat table.
  ghost predicate Indexed(subs: map<Text, map<Text, Observer>>, rel: Relations) {
    && (forall r, k {:trigger Listed(subs, rel, r, k)} :: r in subs && k in subs[r] ==> Listed(subs, rel, r, k))
    && (forall p {:trigger Stored(subs, rel[p], p)} :: p in rel ==> Stored(subs, rel[p], p))
  }

  ghost predicate Counted(rel: Relations, counts: map<Text, int>) {
    forall r {:trigger CountOf(counts, r)} :: CountOf(counts, r) == |Held(rel, r)|
  }

  ghost predicate Capped(rel: Relations) {
    |rel| <= IN_TOTAL && forall r {:trigger Held(rel, r)} :: |Held(rel, r)| <= PER_REMOTE
  }

  lemma CountedAfterAdd(rel: Relations, counts: map<Text, int>, p: (Text, Text), o: Observer)
    requires Counted(rel, counts) && p !in rel
    ensures Counted(rel[p := o], counts[p.1 := CountOf(counts, p.1) + 1]) && |rel[p := o]| == |rel| + 1
  {
    Added(rel, p, o);
    var counts' := counts[p.1 := CountOf(counts, p.1) + 1];
    forall r ensures CountOf(counts', r) == |Held(rel[p := o], r)| {
      assert CountOf(counts, r) == |Held(rel, r)|;
    }
  }

  lemma CountedAfterDrop(rel: Relations, counts: map<Text, int>, p: (Text, Text))
    requires Counted(rel, counts) && p in rel
    ensures CountOf(counts, p.1) > 0 && |rel - {p}| == |rel| - 1
    ensures Counted(rel - {p}, counts[p.1 := CountOf(counts, p.1) - 1])
  {
    Dropped(rel, p);
    assert p in Held(rel, p.1);
    var counts' := counts[p.1 := CountOf(counts, p.1) - 1];
    forall r ensures CountOf(counts', r) == |Held(rel - {p}, r)| {
      assert CountOf(counts, r) == |Held(rel, r)|;
    }
  }

  lemma CountedWithout(rel: Relations, counts: map<Text, int>, remote: Text)
    requires Counted(rel, counts) && CountOf(counts, remote) == 0
    ensures Counted(rel, counts - {remote})
  {
    forall r ensures CountOf(counts - {remote}, r) == |Held(rel, r)| {
      assert CountOf(counts, r) == |Held(rel, r)|;
    }
  }

  lemma CappedAfterAdd(rel: Relations, p: (Text, Text), o: Observer)
    requires Capped(rel) && (p in rel || (|rel| < IN_TOTAL && |Held(rel, p.1)| < PER_REMOTE))
    ensures Capped(rel[p := o])
  {
    if p in rel {
      Replaced(rel, p, o);
    } else {
      Added(rel, p, o);
    }
    var rel' := rel[p := o];
    forall r ensures |Held(rel', r)| <= PER_REMOTE {
      assert |Held(rel, r)| <= PER_REMOTE;
    }
  }

  lemma CappedAfterDrop(rel: Relations, p: (Text, Text))
    requires Capped(rel) && p in rel
    ensures Capped(rel - {p})
  {
    Dropped(rel, p);
    forall r ensures |Held(rel - {p}, r)| <= PER_REMOTE {
      assert |Held(rel, r)| <= PER_REMOTE;
    }
  }

  // Registering keeps both caps; a client that comes back with another token keeps its one
  // relation and its place in the counts even when they are full.
  lemma RegisteringIsFair(rel: Relations, resource: Text, remote: Text, token: Text)
    requires Capped(rel)
    ensures var (rel', ok) := Registered(rel, resource, remote, token);
            && Capped(rel')
            && ((resource, remote) in rel ==> ok && |rel'| == |rel| && Held(rel', remote) == Held(rel, remote))
            && (ok <==> (resource, remote) in rel')
            && (ok ==> rel'[(resource, remote)].token == token)
  {
    var p, o := (resource, remote), Fresh(resource, remote, token);
    if p in rel {
      Replaced(rel, p, o);
      CappedAfterAdd(rel, p, o);
    } else if |rel| < IN_TOTAL && |Held(rel, remote)| < PER_REMOTE {
      CappedAfterAdd(rel, p, o);
    }
  }

  lemma IndexedAfterAdd(subs: map<Text, map<Text, Observer>>, rel: Relations, o: Observer)
    requires Indexed(subs, rel) && SlashFree(o.remote) && o.resource in subs
    requires (o.resource, o.remote) !in rel
    ensures var inner := subs[o.resource][Key(o.remote, o.token) := o];
            Indexed(subs[o.resource := inner], rel[(o.resource, o.remote) := o])
  {
    var key, p := Key(o.remote, o.token), (o.resource, o.remote);
    var subs' := subs[o.resource := subs[o.resource][key := o]];
    var rel' := rel[p := o];
    forall r, k | r in subs' && k in subs'[r] ensures Listed(subs', rel', r, k) {
      if r in subs && k in subs[r] {
        assert Listed(subs, rel, r, k);
      }
    }
    forall q | q in rel' ensures Stored(subs', rel'[q], q) {
      if q != p {
        assert Stored(subs, rel[q], q);
        if q.0 == o.resource && Key(rel[q].remote, rel[q].token) == key {
          KeyIsInjective(rel[q].remote, rel[q].token, o.remote, o.token);
        }
      }
    }
  }

  // Removing a relation from its inner map; an emptied map may stay or go.
  lemma IndexedAfterDrop(subs: map<Text, map<Text, Observer>>, rel: Relations, resource: Text, key: Text)
    requires Indexed(subs, rel) && resource in subs && key in subs[resource]
    ensures var rel' := rel - {(resource, subs[resource][key].remote)};
            && Indexed(subs[resource := subs[resource] - {key}], rel')
            && (subs[resource] - {key} == map[] ==> Indexed(subs - {resource}, rel'))
  {
    assert Listed(subs, rel, resource, key);
    var o := subs[resource][key];
    var p := (resource, o.remote);
    var inner := subs[resource] - {key};
    var subs', rel' := subs[resource := inner], rel - {p};
    forall r, k | r in subs' && k in subs'[r] ensures Listed(subs', rel', r, k) {
      assert Listed(subs, rel, r, k);
    }
    forall q | q in rel' ensures Stored(subs', rel'[q], q) {
      assert Stored(subs, rel[q], q);
    }
    if inner == map[] {
      IndexedWithoutEmpty(subs', rel', resource);
      assert subs' - {resource} == subs - {resource};
    }
  }

  lemma IndexedWithoutEmpty(subs: map<Text, map<Text, Observer>>, rel: Relations, resource: Text)
    requires Indexed(subs, rel) && resource in subs && subs[resource] == map[]
    ensures Indexed(subs - {resource}, rel)
  {
    var subs' := subs - {resource};
    forall r, k | r in subs' && k in subs'[r] ensures Listed(subs', rel, r, k) {
      assert Listed(subs, rel, r, k);
    }
    forall q | q in rel ensures Stored(subs', rel[q], q) {
      assert Stored(subs, rel[q], q);
    }
  }

  lemma IndexedWithEmpty(subs: map<Text, map<Text, Observer>>, rel: Relations, resource: Text)
    requires Indexed(subs, rel) && resource !in subs
    ensures Indexed(subs[resource := map[]], rel)
  {
    var subs' := subs[resource := map[]];
    forall r, k | r in subs' && k in subs'[r] ensures Listed(subs', rel, r, k) {
      assert Listed(subs, rel, r, k);
    }
    forall q | q in rel ensures Stored(subs', rel[q], q) {
      assert Stored(subs, rel[q], q);
    }
  }

  // A new sequence number does not move the relation.
  lemma IndexedAfterBump(subs: map<Text, map<Text, Observer>>, rel: Relations, p: (Text, Text), o: Observer)
    requires Indexed(subs, rel) && p in rel && o == rel[p].(seqNo := o.seqNo)
    ensures p.0 in subs && Indexed(subs[p.0 := subs[p.0][Key(o.remote, o.token) := o]], rel[p := o])
  {
    assert Stored(subs, rel[p], p);
    var key := Key(o.remote, o.token);
    var subs', rel' := subs[p.0 := subs[p.0][key := o]], rel[p := o];
    forall r, k | r in subs' && k in subs'[r] ensures Listed(subs', rel', r, k) {
      assert Listed(subs, rel, r, k);
    }
    forall q | q in rel' ensures Stored(subs', rel'[q], q) {
      assert Stored(subs, rel[q], q);
    }
  }

  ghost predicate CountedBut(rel: Relations, counts: map<Text, int>, remote: Text) {
    forall r {:trigger CountOf(counts, r)} :: r != remote ==> CountOf(counts, r) == |Held(rel, r)|
  }

  lemma CountedButAfterDrop(rel: Relations, counts: map<Text, int>, p: (Text, Text))
    requires CountedBut(rel, counts, p.1) && p in rel
    ensures CountedBut(rel - {p}, counts, p.1) && |rel - {p}| == |rel| - 1
  {
    Dropped(rel, p);
    forall r | r != p.1 ensures CountOf(counts, r) == |Held(rel - {p}, r)| {
      assert CountOf(counts, r) == |Held(rel, r)|;
    }
  }

  // What holds while the relations of one remote are being swept out.
  ghost predicate Sweeping(subs: map<Text, map<Text, Observer>>, rel: Relations, counts: map<Text, int>,
      total: int, remote: Text)
  {
    Indexed(subs, rel) && CountedBut(rel, counts, remote) && total == |rel|
  }

  lemma SweepOne(subs: map<Text, map<Text, Observer>>, rel: Relations, counts: map<Text, int>, total: int,
      p: (Text, Text), key: Text)
    requires Sweeping(subs, rel, counts, total, p.1)
    requires p.0 in subs && key in subs[p.0] && subs[p.0][key].remote == p.1
    ensures p in rel && Sweeping(subs[p.0 := subs[p.0] - {key}], rel - {p}, counts, total - 1, p.1)
  {
    assert Listed(subs, rel, p.0, key);
    IndexedAfterDrop(subs, rel, p.0, key);
    CountedButAfterDrop(rel, counts, p);
  }

  lemma OthersKey(subs: map<Text, map<Text, Observer>>, rel: Relations, p: (Text, Text), key: Text)
    requires Indexed(subs, rel) && p in rel && p.0 in subs && key in subs[p.0]
    ensures Key(p.1, rel[p].token) in subs[p.0]
    ensures subs[p.0][key].remote != p.1 ==> key != Key(p.1, rel[p].token)
  {
    assert Stored(subs, rel[p], p);
  }

  lemma CountedAgain(rel: Relations, counts: map<Text, int>, remote: Text)
    requires CountedBut(rel, counts, remote) && Held(rel, remote) == {}
    ensures Counted(rel, counts - {remote})
  {
    forall r ensures CountOf(counts - {remote}, r) == |Held(rel, r)| {
      assert r != remote ==> CountOf(counts, r) == |Held(rel, r)|;
    }
  }

  // ------------------------------------------------------------------ emptied resources

  // Resources that are listed although nobody observes them.
  function Empty(subs: map<Text, map<Text, Observer>>): set<Text> { set r | r in subs && subs[r] == map[] }

  function Resources(keys: set<(Text, Text)>): set<Text> { set p | p in keys :: p.0 }

  lemma ResourcesLess(keys: set<(Text, Text)>, p: (Text, Text))
    requires p in keys
    ensures |Resources(keys)| <= |Resources(keys - {p})| + 1
  {
    var fewer := Resources(keys - {p});
    forall r | r in Resources(keys) ensures r in fewer + {p.0} {
      var q :| q in keys && q.0 == r;
      assert q == p || q in keys - {p};
    }
    SubsetIsSmaller(Resources(keys), fewer + {p.0});
  }

  lemma {:induction false} ResourcesAtMost(keys: set<(Text, Text)>)
    ensures |Resources(keys)| <= |keys|
    decreases keys
  {
    if keys != {} {
      var p :| p in keys;
      ResourcesAtMost(keys - {p});
      ResourcesLess(keys, p);
    } else {
      assert Resources(keys) == {};
    }
  }

  // The outer map has an entry for every observed resource and for every empty one, so its
  // size is bounded by the relations only as far as there are no empty ones.
  lemma ListedResources(subs: map<Text, map<Text, Observer>>, rel: Relations)
    requires Indexed(subs, rel)
    ensures subs.Keys == Resources(rel.Keys) + Empty(subs)
    ensures |subs| <= |rel| + |Empty(subs)|
  {
    forall r | r in subs && subs[r] != map[] ensures r in Resources(rel.Keys) {
      var k :| k in subs[r];
      assert Listed(subs, rel, r, k);
      assert (r, subs[r][k].remote).0 == r;
    }
    forall r | r in Resources(rel.Keys) ensures r in subs {
      var p :| p in rel.Keys && p.0 == r;
      assert Stored(subs, rel[p], p);
    }
    ResourcesAtMost(rel.Keys);
    UnionAtMost(Resources(rel.Keys), Empty(subs));
  }

  lemma UnionAtMost(a: set<Text>, b: set<Text>)
    ensures |a + b| <= |a| + |b|
  {
    assert a + b == a + (b - a);
    SubsetIsSmaller(b - a, b);
  }

  lemma EmptyAfter(subs: map<Text, map<Text, Observer>>, resource: Text, inner: map<Text, Observer>)
    ensures inner != map[] ==> Empty(subs[resource := inner]) == Empty(subs) - {resource}
    ensures Empty(subs - {resource}) == Empty(subs) - {resource}
  {
  }

  // ------------------------------------------------------------------ the registry

  class Registry {
    var subs: map<Text, map<Text, Observer>>
    var remoteCount: map<Text, int>
    var total: int
    ghost var rel: Relations

    ghost predicate Valid()
      reads this
    {
      Indexed(subs, rel) && Counted(rel, remoteCount) && total == |rel| && Capped(rel)
    }

    constructor ()
      ensures Valid() && rel == map[]
    {
      subs, remoteCount, total, rel := map[], map[], 0, map[];
    }

    // Drops subs[resource][key] and both its counts, as Register and removeLocked do;
    // what is left of the counts and the inner map is up to the caller.
    method Drop(resource: Text, key: Text)
      requires Indexed(subs, rel) && resource in subs && key in subs[resource]
      requires Counted(rel, remoteCount) && total == |rel|
      modifies this
      ensures subs == old(subs)[resource := old(subs)[resource] - {key}] && Empty(subs) <= Empty(old(subs)) + {resource}
      ensures rel == old(rel) - {(resource, old(subs)[resource][key].remote)}
      ensures Indexed(subs, rel) && Counted(rel, remoteCount) && total == |rel|
    {
      var remote := subs[resource][key].remote;
      assert Listed(subs, rel, resource, key);
      IndexedAfterDrop(subs, rel, resource, key);
      CountedAfterDrop(rel, remoteCount, (resource, remote));
      subs := subs[resource := subs[resource] - {key}];
      rel := rel - {(resource, remote)};
      if CountOf(remoteCount, remote) > 0 {
        remoteCount := remoteCount[remote := CountOf(remoteCount, remote) - 1];
      }
      total := total - 1;
    }

    // The scan for an earlier relation of this client.
    method FindRemote(resource: Text, remote: Text) returns (found: bool, key: Text)
      requires resource in subs
      ensures found ==> key in subs[resource] && subs[resource][key].remote == remote
      ensures !found ==> forall k :: k in subs[resource] ==> subs[resource][k].remote != remote
    {
      var todo := subs[resource].Keys;
      while todo != {}
        invariant todo <= subs[resource].Keys
        invariant forall k :: k in subs[resource] && k !in todo ==> subs[resource][k].remote != remote
        decreases todo
      {
        key :| key in todo;
        if subs[resource][key].remote == remote {
          return true, key;
        }
        todo := todo - {key};
      }
      return false, [];
    }

    // An entry for the resource, empty if it is new.
    method Open(resource: Text)
      requires Indexed(subs, rel)
      modifies this`subs
      ensures Indexed(subs, rel) && resource in subs && Empty(subs) <= Empty(old(subs)) + {resource}
      ensures subs == if resource in old(subs) then old(subs) else old(subs)[resource := map[]]
    {
      if resource !in subs {
        IndexedWithEmpty(subs, rel, resource);
        subs := subs[resource := map[]];
      }
    }

    method Register(resource: Text, remote: Text, token: Text) returns (ok: bool)
      requires Valid() && SlashFree(remote)
      modifies this
      ensures Valid() && (rel, ok) == Registered(old(rel), resource, remote, token)
      ensures ok ==> Empty(subs) <= Empty(old(subs))
      ensures !ok ==> subs == if resource in old(subs) then old(subs) else old(subs)[resource := map[]]
    {
      Open(resource);
      var key := Key(remote, token);
      ghost var p := (resource, remote);
      if key in subs[resource] {
        SameKey(subs, rel, resource, remote, token);
        return true;
      }
      NotHere(subs, rel, resource, remote, token);
      var replacing, oldKey := FindRemote(resource, remote);
      if replacing {
        assert Listed(subs, rel, resource, oldKey);
        Drop(resource, oldKey);
      } else {
        NoRelation(subs, rel, resource, remote);
        if CountOf(remoteCount, remote) >= PER_REMOTE || total >= IN_TOTAL {
          return false;
        }
      }
      assert !replacing ==> CountOf(remoteCount, remote) == |Held(rel, remote)|;
      ghost var obs := Fresh(resource, remote, token);
      CappedAfterAdd(old(rel), p, obs);
      Insert(resource, remote, token);
      assert rel == old(rel)[p := obs];
      ok := true;
    }

    method Insert(resource: Text, remote: Text, token: Text)
      requires Indexed(subs, rel) && Counted(rel, remoteCount) && total == |rel|
      requires SlashFree(remote) && resource in subs && (resource, remote) !in rel
      modifies this
      ensures Indexed(subs, rel) && Counted(rel, remoteCount) && total == |rel|
      ensures rel == old(rel)[(resource, remote) := Fresh(resource, remote, token)]
      ensures Empty(subs) == Empty(old(subs)) - {resource}
    {
      var obs := Fresh(resource, remote, token);
      IndexedAfterAdd(subs, rel, obs);
      CountedAfterAdd(rel, remoteCount, (resource, remote), obs);
      subs := subs[resource := subs[resource][Key(remote, token) := obs]];
      rel := rel[(resource, remote) := obs];
      remoteCount := remoteCount[remote := CountOf(remoteCount, remote) + 1];
      total := total + 1;
      assert Key(remote, token) in subs[resource];
      EmptyAfter(old(subs), resource, subs[resource]);
    }

    method Remove(resource: Text, remote: Text, token: Text)
      requires Valid() && SlashFree(remote)
      modifies this
      ensures Valid() && rel == Removed(old(rel), resource, remote, token)
      ensures Empty(subs) <= Empty(old(subs))
    {
      var key := Key(remote, token);
      if resource in subs && key in subs[resource] {
        SameKey(subs, rel, resource, remote, token);
        CappedAfterDrop(rel, (resource, remote));
        Drop(resource, key);
        if subs[resource] == map[] {
          IndexedWithoutEmpty(subs, rel, resource);
          subs := subs - {resource};
        }
        if CountOf(remoteCount, remote) == 0 {
          CountedWithout(rel, remoteCount, remote);
          remoteCount := remoteCount - {remote};
        }
      } else {
        NotRelated(subs, rel, resource, remote, token);
      }
    }

    // The relations of one remote and token, whatever the resource.
    method RemoveByToken(remote: Text, token: Text)
      requires Valid() && SlashFree(remote)
      modifies this
      ensures Valid() && rel == old(rel) - WithToken(old(rel), remote, token)
      ensures Empty(subs) <= Empty(old(subs))
    {
      var todo := subs.Keys;
      ghost var gone: set<(Text, Text)> := {};
      ghost var was := rel;
      assert forall p :: p in rel ==> Stored(subs, rel[p], p);
      while todo != {}
        invariant Valid() && rel == was - gone && TokenSoFar(was, gone, remote, token, todo)
        invariant Empty(subs) <= Empty(old(subs))
        decreases todo
      {
        var resource :| resource in todo;
        Remove(resource, remote, token);
        gone := NextGone(was, gone, todo, resource, remote, token);
        todo := todo - {resource};
      }
      assert gone == WithToken(was, remote, token);
    }

    method Delete(resource: Text, key: Text, remote: Text)
      requires Sweeping(subs, rel, remoteCount, total, remote)
      requires resource in subs && key in subs[resource] && subs[resource][key].remote == remote
      modifies this`subs, this`rel, this`total
      ensures Sweeping(subs, rel, remoteCount, total, remote)
      ensures (resource, remote) in old(rel) && rel == old(rel) - {(resource, remote)}
      ensures subs.Keys == old(subs).Keys && subs[resource] == old(subs)[resource] - {key}
      ensures Empty(subs) <= Empty(old(subs)) + {resource}
    {
      SweepOne(subs, rel, remoteCount, total, (resource, remote), key);
      subs := subs[resource := subs[resource] - {key}];
      rel := rel - {(resource, remote)};
      total := total - 1;
    }

    // One resource of RemoveBySession: at most one of its keys belongs to the remote.
    method SweepResource(resource: Text, remote: Text)
      requires Sweeping(subs, rel, remoteCount, total, remote) && resource in subs
      modifies this`subs, this`rel, this`total
      ensures Sweeping(subs, rel, remoteCount, total, remote)
      ensures rel == old(rel) - {(resource, remote)} && subs.Keys == old(subs).Keys
      ensures Empty(subs) <= Empty(old(subs)) + {resource}
    {
      ghost var p, was, keys, empty := (resource, remote), rel, subs.Keys, Empty(subs);
      var todo := subs[resource].Keys;
      assert p in rel ==> Stored(subs, rel[p], p);
      while todo != {}
        invariant Sweeping(subs, rel, remoteCount, total, remote)
        invariant subs.Keys == keys && todo <= subs[resource].Keys && Empty(subs) <= empty + {resource}
        invariant rel == was || (p !in rel && rel == was - {p})
        invariant p in rel ==> Key(remote, rel[p].token) in todo
        decreases todo
      {
        var key :| key in todo;
        todo := todo - {key};
        if subs[resource][key].remote == remote {
          Delete(resource, key, remote);
        } else if p in rel {
          OthersKey(subs, rel, p, key);
        }
      }
    }

    method PruneEmpty(resource: Text, remote: Text)
      requires Sweeping(subs, rel, remoteCount, total, remote) && resource in subs
      modifies this`subs
      ensures Sweeping(subs, rel, remoteCount, total, remote)
      ensures old(subs).Keys - {resource} <= subs.Keys && Empty(subs) == Empty(old(subs)) - {resource}
    {
      if subs[resource] == map[] {
        IndexedWithoutEmpty(subs, rel, resource);
        subs := subs - {resource};
      }
    }

    method Sweep(resource: Text, remote: Text)
      requires Sweeping(subs, rel, remoteCount, total, remote) && resource in subs
      modifies this`subs, this`rel, this`total
      ensures Sweeping(subs, rel, remoteCount, total, remote)
      ensures rel == old(rel) - {(resource, remote)} && old(subs).Keys - {resource} <= subs.Keys
      ensures Empty(subs) <= Empty(old(subs)) - {resource}
    {
      SweepResource(resource, remote);
      PruneEmpty(resource, remote);
    }

    method SweepAll(remote: Text)
      requires Sweeping(subs, rel, remoteCount, total, remote)
      requires forall p :: p in Held(rel, remote) ==> p.0 in subs.Keys
      modifies this`subs, this`rel, this`total
      ensures Sweeping(subs, rel, remoteCount, total, remote)
      ensures rel == old(rel) - Held(old(rel), remote) && Empty(subs) == {}
    {
      var todo := subs.Keys;
      ghost var gone: set<(Text, Text)> := {};
      ghost var was := rel;
      while todo != {}
        invariant Sweeping(subs, rel, remoteCount, total, remote) && Empty(subs) <= todo <= subs.Keys
        invariant rel == was - gone && SoFar(was, gone, remote, todo)
        decreases todo
      {
        var resource :| resource in todo;
        Sweep(resource, remote);
        gone := SessionGone(was, gone, todo, (resource, remote));
        todo := todo - {resource};
      }
      AllGone(was, gone, remote);
    }

    // Every relation of one remote.
    method RemoveBySession(remote: Text)
      requires Valid()
      modifies this
      ensures Valid() && rel == old(rel) - Held(old(rel), remote) && Empty(subs) == {}
    {
      StartSweep(subs, rel, remoteCount, total, remote);
      SweepAll(remote);
      NothingHeld(old(rel), remote);
      CountedAgain(rel, remoteCount, remote);
      remoteCount := remoteCount - {remote};
    }

    // The sequence number for the next notification of a relation (uint32).
    method NextSeq(resource: Text, remote: Text, token: Text) returns (found: bool, seqNo: nat)
      requires Valid() && SlashFree(remote)
      modifies this
      ensures Valid()
      ensures found == ((resource, remote) in old(rel) && old(rel)[(resource, remote)].token == token)
      ensures !found ==> rel == old(rel) && seqNo == 0
      ensures found ==> seqNo == old(rel)[(resource, remote)].seqNo
      ensures found ==>
                var o := old(rel)[(resource, remote)];
                rel == old(rel)[(resource, remote) := o.(seqNo := (seqNo + 1) % 0x1_0000_0000)]
    {
      var key := Key(remote, token);
      if resource in subs && key in subs[resource] {
        SameKey(subs, rel, resource, remote, token);
        var o := subs[resource][key];
        var o' := o.(seqNo := (o.seqNo + 1) % 0x1_0000_0000);
        ghost var p := (resource, remote);
        IndexedAfterBump(subs, rel, p, o');
        Replaced(rel, p, o');
        ghost var rel' := rel[p := o'];
        assert forall r :: CountOf(remoteCount, r) == |Held(rel', r)|;
        subs := subs[resource := subs[resource][key := o']];
        rel := rel';
        return true, o.seqNo;
      }
      NotRelated(subs, rel, resource, remote, token);
      return false, 0;
    }

    method HasObservers(remote: Text) returns (some: bool)
      requires Valid()
      ensures some <==> Held(rel, remote) != {}
    {
      some := CountOf(remoteCount, remote) > 0;
    }
  }

  lemma StartSweep(subs: map<Text, map<Text, Observer>>, rel: Relations, counts: map<Text, int>, total: int,
      remote: Text)
    requires Indexed(subs, rel) && Counted(rel, counts) && total == |rel|
    ensures Sweeping(subs, rel, counts, total, remote)
    ensures forall p :: p in Held(rel, remote) ==> p.0 in subs
  {
    forall p | p in Held(rel, remote) ensures p.0 in subs {
      assert Stored(subs, rel[p], p);
    }
  }

  lemma NothingHeld(rel: Relations, remote: Text)
    requires Capped(rel)
    ensures Held(rel - Held(rel, remote), remote) == {} && Capped(rel - Held(rel, remote))
  {
    var rel' := rel - Held(rel, remote);
    assert rel'.Keys <= rel.Keys;
    SubsetIsSmaller(rel'.Keys, rel.Keys);
    forall r ensures |Held(rel', r)| <= PER_REMOTE {
      SubsetIsSmaller(Held(rel', r), Held(rel, r));
    }
  }

  // The relations of the remote gone so far; the others lie in resources still to do.
  ghost predicate SoFar(was: Relations, gone: set<(Text, Text)>, remote: Text, todo: set<Text>) {
    gone <= Held(was, remote) && forall p :: p in Held(was, remote) && p !in gone ==> p.0 in todo
  }

  lemma AllGone(was: Relations, gone: set<(Text, Text)>, remote: Text)
    requires SoFar(was, gone, remote, {})
    ensures gone == Held(was, remote)
  {
  }

  lemma SessionGone(was: Relations, gone: set<(Text, Text)>, todo: set<Text>, p: (Text, Text))
    returns (gone': set<(Text, Text)>)
    requires SoFar(was, gone, p.1, todo)
    ensures SoFar(was, gone', p.1, todo - {p.0}) && was - gone - {p} == was - gone'
  {
    gone' := gone + Held(was, p.1) * {p};
  }

  ghost predicate TokenSoFar(was: Relations, gone: set<(Text, Text)>, remote: Text, token: Text, todo: set<Text>) {
    && gone <= WithToken(was, remote, token)
    && forall p :: p in WithToken(was, remote, token) && p !in gone ==> p.0 in todo
  }

  lemma NextGone(was: Relations, gone: set<(Text, Text)>, todo: set<Text>, resource: Text, remote: Text, token: Text)
    returns (gone': set<(Text, Text)>)
    requires TokenSoFar(was, gone, remote, token, todo)
    ensures TokenSoFar(was, gone', remote, token, todo - {resource})
    ensures Removed(was - gone, resource, remote, token) == was - gone'
  {
    var p := (resource, remote);
    gone' := if p in WithToken(was, remote, token) then gone + {p} else gone;
    assert p !in was - gone ==> was - gone == was - gone';
    assert p in was - gone && was[p].token == token ==> was - gone - {p} == was - gone';
  }

  // ------------------------------------------------------------------ what a key says

  lemma SameKey(subs: map<Text, map<Text, Observer>>, rel: Relations, resource: Text, remote: Text, token: Text)
    requires Indexed(subs, rel) && SlashFree(remote) && resource in subs && Key(remote, token) in subs[resource]
    ensures var o := subs[resource][Key(remote, token)];
            o.remote == remote && o.token == token && (resource, remote) in rel && rel[(resource, remote)] == o
  {
    var key := Key(remote, token);
    assert Listed(subs, rel, resource, key);
    KeyIsInjective(subs[resource][key].remote, subs[resource][key].token, remote, token);
  }

  lemma NotHere(subs: map<Text, map<Text, Observer>>, rel: Relations, resource: Text, remote: Text, token: Text)
    requires Indexed(subs, rel) && resource in subs && Key(remote, token) !in subs[resource]
    ensures (resource, remote) in rel ==> rel[(resource, remote)].token != token
  {
    if (resource, remote) in rel {
      assert Stored(subs, rel[(resource, remote)], (resource, remote));
    }
  }

  lemma NotRelated(subs: map<Text, map<Text, Observer>>, rel: Relations, resource: Text, remote: Text, token: Text)
    requires Indexed(subs, rel) && !(resource in subs && Key(remote, token) in subs[resource])
    ensures (resource, remote) in rel ==> rel[(resource, remote)].token != token
  {
    if (resource, remote) in rel {
      assert Stored(subs, rel[(resource, remote)], (resource, remote));
    }
  }

  lemma NoRelation(subs: map<Text, map<Text, Observer>>, rel: Relations, resource: Text, remote: Text)
    requires Indexed(subs, rel) && resource in subs
    requires forall k :: k in subs[resource] ==> subs[resource][k].remote != remote
    ensures (resource, remote) !in rel
  {
    var p := (resource, remote);
    assert p in rel ==> Stored(subs, rel[p], p);
  }
}
