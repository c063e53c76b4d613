/**
 * The plugin chain (internal/runtime/plugin_chain.go): plugins ordered by priority with
 * ties in append order, and callbacks that undo what they did when one plugin fails.
 */
module PluginChain {
  import opened Basics

  datatype Outcome = Ok | Error | Panic

  // ------------------------------------------------------------------ the order

  const HALF := 0x8000_0000_0000_0000

  predicate Int64(n: int) { -HALF <= n < HALF }

  type Priority = n: int | -HALF <= n < HALF

  datatype Plugin = Plugin(name: nat, priority: Priority, lifecycle: bool)

  // The comparator's subtraction on 64-bit ints, which wraps around.
  function Compare(a: Priority, b: Priority): Priority {
    var d := a - b;
    if d < -HALF then d + 2 * HALF else if d < HALF then d else d - 2 * HALF
  }

  // The subtraction orders two priorities exactly when it does not overflow.
  lemma CompareIsOrder(a: Priority, b: Priority)
    ensures ((Compare(a, b) < 0 <==> a < b) && (Compare(a, b) > 0 <==> a > b)) <==> Int64(a - b)
  {
  }

  // No comparison of two plugins overflows.
  predicate Comparable(s: seq<Plugin>) {
    forall p, q :: p in s && q in s ==> Int64(p.priority - q.priority)
  }

  predicate Sorted(s: seq<Plugin>) {
    forall i, j :: 0 <= i < j < |s| ==> s[i].priority <= s[j].priority
  }

  // The plugins of one priority, in order.
  function Level(s: seq<Plugin>, v: int): seq<Plugin> {
    if s == [] then [] else (if s[0].priority == v then [s[0]] else []) + Level(s[1..], v)
  }

  lemma {:induction false} LevelMembers(s: seq<Plugin>, v: int)
    ensures forall p :: p in Level(s, v) <==> p in s && p.priority == v
  {
    if s != [] {
      LevelMembers(s[1..], v);
      assert s == [s[0]] + s[1..];
    }
  }

  lemma {:induction false} NoLevel(s: seq<Plugin>, v: int)
    requires forall i :: 0 <= i < |s| ==> s[i].priority > v
    ensures Level(s, v) == []
  {
    if s != [] {
      NoLevel(s[1..], v);
    }
  }

  // t is s, sorted stably: in order, and each priority's plugins as they stood.
  ghost predicate StableSortOf(t: seq<Plugin>, s: seq<Plugin>) {
    Sorted(t) && SameLevels(t, s)
  }

  ghost predicate SameLevels(t: seq<Plugin>, s: seq<Plugin>) {
    forall v :: Level(t, v) == Level(s, v)
  }

  lemma {:induction false} LevelOfConcat(a: seq<Plugin>, b: seq<Plugin>, v: int)
    ensures Level(a + b, v) == Level(a, v) + Level(b, v)
  {
    if a == [] {
      assert a + b == b;
    } else {
      assert (a + b)[0] == a[0] && (a + b)[1..] == a[1..] + b;
      LevelOfConcat(a[1..], b, v);
      var h := if a[0].priority == v then [a[0]] else [];
      assert h + (Level(a[1..], v) + Level(b, v)) == (h + Level(a[1..], v)) + Level(b, v);
    }
  }

  // There is only one stable sort.
  lemma {:induction false} StableSortIsUnique(a: seq<Plugin>, b: seq<Plugin>)
    requires Sorted(a) && Sorted(b) && SameLevels(a, b)
    ensures a == b
  {
    if a == [] {
      if b != [] {
        SameHead(b, a);
      }
    } else {
      SameHead(a, b);
      TailLevels(a, b);
      StableSortIsUnique(a[1..], b[1..]);
      assert a == [a[0]] + a[1..] && b == [b[0]] + b[1..];
    }
  }

  lemma SameHead(a: seq<Plugin>, b: seq<Plugin>)
    requires Sorted(a) && Sorted(b) && SameLevels(a, b) && a != []
    ensures b != [] && a[0] == b[0]
  {
    var v := a[0].priority;
    LevelMembers(a, v);
    LevelMembers(b, v);
    assert Level(a, v) == Level(b, v) && a[0] in Level(a, v);
    assert a[0] in b;
    var w := b[0].priority;
    LevelMembers(a, w);
    LevelMembers(b, w);
    assert Level(a, w) == Level(b, w) && b[0] in Level(b, w);
    assert b[0] in a;
    assert Level(a, v)[0] == a[0] && Level(b, v)[0] == b[0];
  }

  lemma TailLevels(a: seq<Plugin>, b: seq<Plugin>)
    requires SameLevels(a, b) && a != [] && b != [] && a[0] == b[0]
    ensures SameLevels(a[1..], b[1..])
  {
    forall v ensures Level(a[1..], v) == Level(b[1..], v) {
      var h := if a[0].priority == v then [a[0]] else [];
      assert h + Level(a[1..], v) == Level(a, v) == Level(b, v) == h + Level(b[1..], v);
      assert (h + Level(a[1..], v))[|h|..] == Level(a[1..], v);
      assert (h + Level(b[1..], v))[|h|..] == Level(b[1..], v);
    }
  }

  // ------------------------------------------------------------------ the library sort

  // slices.SortStableFunc sorts blocks of up to this many elements by insertion.
  const BLOCK := 20

  // A plugin moves forward past every neighbour it compares less than.
  function Insert(s: seq<Plugin>, p: Plugin): seq<Plugin> {
    if s == [] || Compare(p.priority, s[|s| - 1].priority) >= 0 then s + [p]
    else Insert(s[..|s| - 1], p) + [s[|s| - 1]]
  }

  function Sort(s: seq<Plugin>): seq<Plugin> {
    if s == [] then [] else Insert(Sort(s[..|s| - 1]), s[|s| - 1])
  }

  // p finds its place among s: no plugin is so far above p that the comparison with it
  // overflows, and if one is so far below, then another one that is not above p is near.
  ghost predicate Lands(s: seq<Plugin>, p: Plugin) {
    && (forall q :: q in s ==> q.priority - p.priority <= HALF)
    && ((exists q :: q in s && p.priority - q.priority >= HALF) ==> exists r :: Near(s, p, r))
  }

  predicate Near(s: seq<Plugin>, p: Plugin, r: Plugin) { r in s && 0 <= p.priority - r.priority < HALF }

  // Each plugin finds its place among those before it.
  ghost predicate AllLand(s: seq<Plugin>) { forall i :: 0 <= i < |s| ==> Lands(s[..i], s[i]) }

  lemma {:induction false} InsertAdds(s: seq<Plugin>, p: Plugin)
    ensures multiset(Insert(s, p)) == multiset(s) + multiset{p}
  {
    if s != [] {
      InsertAdds(s[..|s| - 1], p);
      assert s == s[..|s| - 1] + [s[|s| - 1]];
    }
  }

  lemma InsertMembers(s: seq<Plugin>, p: Plugin)
    ensures forall q :: q in Insert(s, p) <==> q in s || q == p
  {
    InsertAdds(s, p);
    SameMembers(Insert(s, p), s + [p]);
  }

  lemma SameMembers(t: seq<Plugin>, s: seq<Plugin>)
    requires multiset(t) == multiset(s)
    ensures forall q :: q in t <==> q in s
  {
    forall q ensures q in t <==> q in s {
      assert q in t <==> q in multiset(t);
      assert q in s <==> q in multiset(s);
    }
  }

  lemma SortedWithLast(s: seq<Plugin>, p: Plugin)
    ensures Sorted(s + [p]) <==> Sorted(s) && forall q :: q in s ==> q.priority <= p.priority
  {
    var t := s + [p];
    if Sorted(t) {
      forall i, j | 0 <= i < j < |s| ensures s[i].priority <= s[j].priority {
        assert t[i] == s[i] && t[j] == s[j];
      }
      forall q | q in s ensures q.priority <= p.priority {
        var i :| 0 <= i < |s| && s[i] == q;
        assert t[i] == q && t[|s|] == p;
      }
    }
  }

  // Past a greater last plugin, what matters is the rest.
  lemma LandsBefore(s: seq<Plugin>, last: Plugin, p: Plugin)
    requires 0 < last.priority - p.priority <= HALF
    ensures Lands(s + [last], p) <==> Lands(s, p)
  {
    assert forall q :: q in s + [last] <==> q in s || q == last;
    assert forall r :: Near(s + [last], p, r) <==> Near(s, p, r);
  }

  lemma {:induction false} InsertSortsIff(s: seq<Plugin>, p: Plugin)
    requires Sorted(s)
    ensures Sorted(Insert(s, p)) <==> Lands(s, p)
  {
    if s != [] {
      var init, last := s[..|s| - 1], s[|s| - 1];
      assert s == init + [last];
      SortedWithLast(init, last);
      if Compare(p.priority, last.priority) >= 0 {
        StopsAtLast(s, last, p);
      } else if last.priority > p.priority {
        InsertSortsIff(init, p);
        InsertMembers(init, p);
        SortedWithLast(Insert(init, p), last);
        LandsBefore(init, last, p);
      } else {
        InsertMembers(init, p);
        SortedWithLast(Insert(init, p), last);
        PassedWrongly(s, last, p);
      }
    }
  }

  lemma StopsAtLast(s: seq<Plugin>, last: Plugin, p: Plugin)
    requires Sorted(s) && s != [] && last == s[|s| - 1] && Compare(p.priority, last.priority) >= 0
    ensures Sorted(s + [p]) <==> Lands(s, p)
  {
    SortedWithLast(s, p);
    assert forall q :: q in s ==> q.priority <= last.priority;
    if last.priority <= p.priority {
      assert Near(s, p, last);
    } else {
      assert last in s && last.priority - p.priority > HALF;
    }
  }

  lemma PassedWrongly(s: seq<Plugin>, last: Plugin, p: Plugin)
    requires Sorted(s) && s != [] && last == s[|s| - 1]
    requires Compare(p.priority, last.priority) < 0 && last.priority <= p.priority
    ensures last.priority < p.priority && !Lands(s, p)
  {
    assert last in s && p.priority - last.priority >= HALF;
    assert forall q :: q in s ==> q.priority <= last.priority;
  }

  // Plugins out of order stay so.
  lemma {:induction false} DisorderStays(s: seq<Plugin>, p: Plugin)
    requires !Sorted(s)
    ensures !Sorted(Insert(s, p))
  {
    if s != [] {
      var init, last := s[..|s| - 1], s[|s| - 1];
      assert s == init + [last];
      SortedWithLast(init, last);
      SortedWithLast(s, p);
      InsertMembers(init, p);
      SortedWithLast(Insert(init, p), last);
      if !Sorted(init) {
        DisorderStays(init, p);
      }
    }
  }

  lemma StillLands(init: seq<Plugin>, last: Plugin, p: Plugin)
    requires Sorted(init + [last]) && Lands(init + [last], p) && Compare(p.priority, last.priority) < 0
    ensures Sorted(init) && Lands(init, p) && p.priority < last.priority
  {
    SortedWithLast(init, last);
    if last.priority <= p.priority {
      PassedWrongly(init + [last], last, p);
    }
    assert last in init + [last];
    LandsBefore(init, last, p);
  }

  lemma LevelMoved(init: seq<Plugin>, t: seq<Plugin>, last: Plugin, p: Plugin, v: int)
    requires Level(t, v) == Level(init, v) + (if p.priority == v then [p] else []) && p.priority < last.priority
    ensures Level(t + [last], v) == Level(init + [last], v) + if p.priority == v then [p] else []
  {
    LevelOfConcat(init, [last], v);
    LevelOfConcat(t, [last], v);
    LevelOfOne(last, v);
    var a := Level(init, v);
    assert a + [p] + [] == a + [] + [p];
  }

  lemma {:induction false} InsertLevel(s: seq<Plugin>, p: Plugin, v: int)
    requires Sorted(s) && Lands(s, p)
    ensures Level(Insert(s, p), v) == Level(s, v) + if p.priority == v then [p] else []
  {
    if s == [] || Compare(p.priority, s[|s| - 1].priority) >= 0 {
      LevelOfConcat(s, [p], v);
      LevelOfOne(p, v);
    } else {
      var init, last := s[..|s| - 1], s[|s| - 1];
      assert s == init + [last];
      StillLands(init, last, p);
      InsertLevel(init, p, v);
      LevelMoved(init, Insert(init, p), last, p, v);
    }
  }

  lemma LevelOfOne(p: Plugin, v: int)
    ensures Level([p], v) == if p.priority == v then [p] else []
  {
    assert [p][1..] == [];
  }

  lemma {:induction false} SortPermutes(s: seq<Plugin>)
    ensures multiset(Sort(s)) == multiset(s)
  {
    if s != [] {
      SortPermutes(s[..|s| - 1]);
      InsertAdds(Sort(s[..|s| - 1]), s[|s| - 1]);
      assert s == s[..|s| - 1] + [s[|s| - 1]];
    }
  }

  lemma SameLanding(t: seq<Plugin>, s: seq<Plugin>, p: Plugin)
    requires multiset(t) == multiset(s)
    ensures Lands(t, p) <==> Lands(s, p)
  {
    SameMembers(t, s);
    assert forall r :: Near(t, p, r) <==> Near(s, p, r);
  }

  lemma AllLandInit(s: seq<Plugin>)
    requires s != []
    ensures AllLand(s) <==> AllLand(s[..|s| - 1]) && Lands(s[..|s| - 1], s[|s| - 1])
  {
    var init := s[..|s| - 1];
    forall i | 0 <= i < |init| ensures Lands(init[..i], init[i]) <==> Lands(s[..i], s[i]) {
      assert init[..i] == s[..i];
    }
  }

  // Whatever the priorities: the insertion sort of a list is its stable sort, and sorted at
  // all, if and only if each plugin finds its place among those before it.
  lemma {:induction false} SortsIff(s: seq<Plugin>)
    ensures Sorted(Sort(s)) <==> AllLand(s)
    ensures AllLand(s) ==> StableSortOf(Sort(s), s)
  {
    if s != [] {
      var init, p := s[..|s| - 1], s[|s| - 1];
      SortsIff(init);
      SortPermutes(init);
      SameLanding(Sort(init), init, p);
      AllLandInit(s);
      if Sorted(Sort(init)) {
        InsertSortsIff(Sort(init), p);
        if Lands(init, p) {
          InsertLevels(Sort(init), init, p);
          assert s == init + [p];
        }
      } else {
        DisorderStays(Sort(init), p);
      }
    }
  }

  lemma InsertLevels(t: seq<Plugin>, s: seq<Plugin>, p: Plugin)
    requires Sorted(t) && Lands(t, p) && SameLevels(t, s)
    ensures SameLevels(Insert(t, p), s + [p])
  {
    forall v ensures Level(Insert(t, p), v) == Level(s + [p], v) {
      InsertLevel(t, p, v);
      LevelOfConcat(s, [p], v);
      LevelOfOne(p, v);
      assert Level(t, v) == Level(s, v);
    }
  }

  lemma ComparableLand(s: seq<Plugin>)
    requires Comparable(s)
    ensures AllLand(s)
  {
    forall i | 0 <= i < |s| ensures Lands(s[..i], s[i]) {
      assert forall q :: q in s[..i] ==> q in s;
    }
  }

  // Two plugins already come out in the wrong order exactly when the comparison of the
  // second with the first overflows: 0 after -2^63, but not -2^63 after 0.
  lemma OverflowMisorders(a: Plugin, b: Plugin)
    ensures Sorted(Sort([a, b])) <==> Int64(b.priority - a.priority)
  {
    SortsIff([a, b]);
    AllLandInit([a, b]);
    assert [a, b][..1] == [a] && [a][..0] == [];
    assert Lands([], a) && AllLand([a]);
    assert a in [a];
  }

  // So a chain that is in order can lose it when it is sorted again, as every Append does.
  lemma SortingAgainMisorders(a: Plugin, b: Plugin)
    requires a.priority == -HALF && b.priority == 0
    ensures Sort([b, a]) == [a, b] && !Sorted(Sort([a, b]))
  {
    assert [b, a][..1] == [b] && [b][..0] == [] && Sort([b]) == [b];
    assert Insert([b], a) == Insert([], a) + [b];
    OverflowMisorders(a, b);
  }

  // slices.SortStableFunc.
  method SortStable(s: seq<Plugin>) returns (t: seq<Plugin>)
    ensures multiset(t) == multiset(s) && (|s| <= BLOCK ==> t == Sort(s))
    ensures Comparable(s) ==> StableSortOf(t, s)
  {
    t := [];
    for i := 0 to |s|
      invariant t == Sort(s[..i])
    {
      assert s[..i + 1][..i] == s[..i];
      t := Insert(t, s[i]);
    }
    assert s[..|s|] == s;
    SortPermutes(s);
    SortsIff(s);
    if Comparable(s) {
      ComparableLand(s);
    }
  }

  // ------------------------------------------------------------------ undoing

  function Reversed<T>(s: seq<T>): (r: seq<T>)
    ensures |r| == |s| && forall i :: 0 <= i < |s| ==> r[i] == s[|s| - 1 - i]
  {
    if s == [] then [] else [s[|s| - 1]] + Reversed(s[..|s| - 1])
  }

  // The plugins that implement Start and Stop.
  function Active(s: seq<Plugin>): seq<Plugin> {
    if s == [] then []
    else Active(s[..|s| - 1]) + if s[|s| - 1].lifecycle then [s[|s| - 1]] else []
  }

  // The first failing index, |s| if none; passive plugins cannot fail to start.
  function Failing(s: seq<Plugin>, outcomes: seq<Outcome>, starting: bool): (k: nat)
    requires |outcomes| == |s|
    ensures k <= |s|
    ensures k < |s| ==> outcomes[k] != Ok && (starting ==> s[k].lifecycle)
    ensures forall i :: 0 <= i < k && (starting ==> s[i].lifecycle) ==> outcomes[i] == Ok
  {
    if s == [] then 0
    else if outcomes[0] != Ok && (starting ==> s[0].lifecycle) then 0
    else 1 + Failing(s[1..], outcomes[1..], starting)
  }

  class Chain {
    var plugins: seq<Plugin>
    ghost var appended: seq<Plugin>  // everything ever appended, in order

    ghost predicate Valid()
      reads this
    {
      multiset(plugins) == multiset(appended) && (Comparable(appended) ==> StableSortOf(plugins, appended))
    }

    constructor ()
      ensures Valid() && appended == []
    {
      plugins, appended := [], [];
    }

    // After any series of Appends the chain is one stable sort of everything appended,
    // provided no comparison overflows. One Append of a chain that is not too long sorts it
    // exactly when each plugin finds its place.
    method Append(more: seq<Option<Plugin>>)
      requires Valid()
      modifies this
      ensures Valid() && appended == old(appended) + Present(more)
      ensures var list := old(plugins) + Present(more);
              |list| <= BLOCK ==>
                (Sorted(plugins) <==> AllLand(list)) && (AllLand(list) ==> StableSortOf(plugins, list))
    {
      var added := [];
      for i := 0 to |more|
        invariant added == Present(more[..i])
      {
        assert more[..i + 1][..i] == more[..i];
        if more[i].Some? {
          added := added + [more[i].value];
        }
      }
      assert more[..|more|] == more;
      var t := SortStable(plugins + added);
      SortsIff(plugins + added);
      Regrouped(plugins, appended, added, t);
      plugins := t;
      appended := appended + added;
    }

    // Plugins that accepted before the failing one are closed, last first, each once.
    method OnAccept(outcomes: seq<Outcome>) returns (r: Outcome, closed: seq<Plugin>)
      requires |outcomes| == |plugins|
      ensures var k := Failing(plugins, outcomes, false);
              if k == |plugins| then r == Ok && closed == []
              else r == outcomes[k] && closed == Reversed(plugins[..k])
    {
      closed := [];
      for i := 0 to |plugins|
        invariant closed == [] && forall j :: 0 <= j < i ==> outcomes[j] == Ok
      {
        if outcomes[i] != Ok {
          closed := CloseBack(i);
          r := outcomes[i];
          return;
        }
      }
      r := Ok;
    }

    method CloseBack(n: nat) returns (closed: seq<Plugin>)
      requires n <= |plugins|
      ensures closed == Reversed(plugins[..n])
    {
      closed := [];
      var j := n;
      while j > 0
        invariant 0 <= j <= n && |closed| == n - j
        invariant forall i :: 0 <= i < n - j ==> closed[i] == plugins[n - 1 - i]
      {
        j := j - 1;
        closed := closed + [plugins[j]];
      }
      assert forall i :: 0 <= i < n ==> Reversed(plugins[..n])[i] == plugins[..n][n - 1 - i];
    }

    method OnClose() returns (closed: seq<Plugin>)
      ensures closed == Reversed(plugins)
    {
      closed := CloseBack(|plugins|);
      assert plugins[..|plugins|] == plugins;
    }

    // Plugins started before the failing one are stopped, last first, each once.
    method StartAll(outcomes: seq<Outcome>) returns (r: Outcome, started: seq<Plugin>, stopped: seq<Plugin>)
      requires |outcomes| == |plugins|
      ensures var k := Failing(plugins, outcomes, true);
              && started == Active(plugins[..k])
              && (if k == |plugins| then r == Ok && stopped == []
                  else r == outcomes[k] && stopped == Reversed(started))
    {
      started, stopped := [], [];
      for i := 0 to |plugins|
        invariant stopped == [] && started == Active(plugins[..i])
        invariant forall j :: 0 <= j < i && plugins[j].lifecycle ==> outcomes[j] == Ok
      {
        assert plugins[..i + 1][..i] == plugins[..i];
        if plugins[i].lifecycle {
          if outcomes[i] != Ok {
            stopped := StopBack(started);
            r := outcomes[i];
            return;
          }
          started := started + [plugins[i]];
        }
      }
      r := Ok;
    }

    method StopBack(started: seq<Plugin>) returns (stopped: seq<Plugin>)
      ensures stopped == Reversed(started)
    {
      stopped := [];
      var i := |started|;
      while i > 0
        invariant 0 <= i <= |started| && |stopped| == |started| - i
        invariant forall j :: 0 <= j < |started| - i ==> stopped[j] == started[|started| - 1 - j]
      {
        i := i - 1;
        stopped := stopped + [started[i]];
      }
    }

    // Stops what a full StartAll started, last first.
    method StopAll() returns (stopped: seq<Plugin>)
      ensures stopped == Reversed(Active(plugins))
    {
      stopped := [];
      var i := |plugins|;
      assert plugins[..i] == plugins;
      while i > 0
        invariant 0 <= i <= |plugins| && stopped + Reversed(Active(plugins[..i])) == Reversed(Active(plugins))
      {
        i := i - 1;
        assert plugins[..i + 1][..i] == plugins[..i];
        ghost var before := Active(plugins[..i]);
        if plugins[i].lifecycle {
          assert (before + [plugins[i]])[..|before|] == before;
          assert stopped + ([plugins[i]] + Reversed(before)) == stopped + [plugins[i]] + Reversed(before);
          stopped := stopped + [plugins[i]];
        } else {
          assert before + [] == before;
        }
      }
    }
  }

  function Present(s: seq<Option<Plugin>>): seq<Plugin> {
    if s == [] then []
    else Present(s[..|s| - 1]) + if s[|s| - 1].Some? then [s[|s| - 1].value] else []
  }

  // Sorting a sorted part with what is added is sorting it all.
  lemma Regrouped(part: seq<Plugin>, s: seq<Plugin>, added: seq<Plugin>, t: seq<Plugin>)
    requires multiset(part) == multiset(s) && multiset(t) == multiset(part + added)
    requires Comparable(s) ==> StableSortOf(part, s)
    requires Comparable(part + added) ==> StableSortOf(t, part + added)
    ensures multiset(t) == multiset(s + added)
    ensures Comparable(s + added) ==> StableSortOf(t, s + added)
  {
    if Comparable(s + added) {
      assert Comparable(s) by {
        assert forall q :: q in s ==> q in s + added;
      }
      SameMembers(part + added, s + added);
      forall v ensures Level(t, v) == Level(s + added, v) {
        LevelOfConcat(part, added, v);
        LevelOfConcat(s, added, v);
        assert Level(t, v) == Level(part + added, v) && Level(part, v) == Level(s, v);
      }
    }
  }

  // So a chain depends on what was appended and in which order, not on how the appends
  // were grouped.
  lemma GroupingDoesNotMatter(a: seq<Plugin>, b: seq<Plugin>, appended: seq<Plugin>)
    requires StableSortOf(a, appended) && StableSortOf(b, appended)
    ensures a == b
  {
    forall v ensures Level(a, v) == Level(b, v) {
      assert Level(a, v) == Level(appended, v) && Level(b, v) == Level(appended, v);
    }
    StableSortIsUnique(a, b);
  }
}
