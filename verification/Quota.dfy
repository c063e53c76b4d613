/**
  The two-dimensional admission quota.  `PeerQuota` is the object as one caller sees it;
  `QuotaMachine` interleaves any number of callers at lock, load, compare-and-swap and
  store granularity.
 */
module Quota {
  import opened Bytes

  // netip.Addr: the zero value, or an address given by the three bytes that choose its
  // shard and everything else about it (remaining bytes, family, zone).
  datatype Addr = Unattributed | Peer(b13: Byte, b14: Byte, b15: Byte, rest: nat)

  const QUOTA_SHARDS := 16

  function ShardOf(ip: Addr): (sh: nat)
    ensures sh < QUOTA_SHARDS
  {
    if ip.Unattributed? then 0 else (ip.b15 + ip.b14 + ip.b13) % QUOTA_SHARDS
  }

  datatype Verdict = QuotaOK | QuotaFull | QuotaPeerFull

  // The per-peer tables; the shard tables partition this map by ShardOf.
  type Table = map<Addr, int>

  function Count(peers: Table, ip: Addr): int {
    if ip in peers then peers[ip] else 0
  }

  function Limit(max: int, n: int): bool { max > 0 && n >= max }

  // The answer of one undisturbed Acquire.
  function Judge(maxTotal: int, maxPeer: int, total: int, peers: Table, ip: Addr): Verdict {
    if ip.Peer? && Limit(maxPeer, Count(peers, ip)) then QuotaPeerFull
    else if Limit(maxTotal, total) then QuotaFull
    else QuotaOK
  }

  function Charge(peers: Table, ip: Addr): Table {
    if ip.Peer? then peers[ip := Count(peers, ip) + 1] else peers
  }

  // Release's switch on the current count.
  function Refund(peers: Table, ip: Addr): Table {
    if !ip.Peer? then peers
    else if Count(peers, ip) > 1 then peers[ip := Count(peers, ip) - 1]
    else if Count(peers, ip) == 1 then peers - {ip}
    else peers
  }

  class PeerQuota {
    const maxTotal: int
    const maxPeer: int
    var total: int
    var peers: Table

    // Only live admissions are in the table, and none exceeds its ceiling.
    ghost predicate Valid() reads this {
      && (forall ip :: ip in peers ==> ip.Peer? && peers[ip] > 0)
      && (maxPeer > 0 ==> forall ip :: ip in peers ==> peers[ip] <= maxPeer)
      && 0 <= total
      && (maxTotal > 0 ==> total <= maxTotal)
    }

    constructor (maxTotal: int, maxPeer: int)
      ensures Valid() && total == 0 && peers == map[]
      ensures this.maxTotal == maxTotal && this.maxPeer == maxPeer
    {
      this.maxTotal, this.maxPeer := maxTotal, maxPeer;
      total, peers := 0, map[];
    }

    // A slot is taken in both dimensions or in neither.
    method Acquire(ip: Addr) returns (r: Verdict)
      requires Valid()
      modifies this
      ensures Valid()
      ensures r == old(Judge(maxTotal, maxPeer, total, peers, ip))
      ensures r.QuotaOK? ==> total == old(total) + 1 && peers == old(Charge(peers, ip))
      ensures !r.QuotaOK? ==> total == old(total) && peers == old(peers)
    {
      var cur := Count(peers, ip);
      if ip.Peer? && maxPeer > 0 && cur >= maxPeer {
        return QuotaPeerFull;
      }
      if maxTotal > 0 && total >= maxTotal {
        return QuotaFull;
      }
      total := total + 1;
      if ip.Peer? {
        peers := peers[ip := cur + 1];
      }
      return QuotaOK;
    }

    method Release(ip: Addr)
      requires Valid() && total > 0 && (ip.Peer? ==> ip in peers)
      modifies this
      ensures Valid()
      ensures total == old(total) - 1 && peers == old(Refund(peers, ip))
    {
      if ip.Peer? {
        var cur := Count(peers, ip);
        if cur > 1 {
          peers := peers[ip := cur - 1];
        } else if cur == 1 {
          peers := peers - {ip};
        }
      }
      total := total - 1;
    }
  }

  // Release undoes a successful Acquire exactly: the table is as it was before.
  lemma RefundUndoesCharge(peers: Table, ip: Addr)
    requires forall q :: q in peers ==> q.Peer? && peers[q] > 0
    ensures Refund(Charge(peers, ip), ip) == peers
  {
  }
}

module QuotaMachine {
  import opened Quota

  type Tid = nat

  datatype Config = Config(maxTotal: int, maxPeer: int)

  datatype Pc =
    | Calling(ip: Addr)                        // before the shard lock
    | Locked(ip: Addr)                         // shard lock held
    | Claiming(ip: Addr, cur: int)             // lock held, about to load total
    | Swapping(ip: Addr, cur: int, seen: int)  // lock held, about to compare-and-swap
    | Storing(ip: Addr, cur: int)              // lock held, total claimed, count not stored
    | Refused(ip: Addr, why: Verdict)
    | Holding(ip: Addr)
    | Releasing(ip: Addr)                      // before the shard lock of Release
    | Returning(ip: Addr)                      // count dropped, total not yet
    | Returned(ip: Addr)

  type Threads = map<Tid, Pc>

  datatype State = State(total: int, peers: Table, lock: map<nat, Tid>, threads: Threads)

  const Init := State(0, map[], map[], map[])

  datatype Step = Acquire(a: Addr) | Lock | ReadPeer | LoadTotal | Swap | Store | Release | DropPeer | DropTotal

  predicate Enabled(s: State, t: Tid, a: Step) {
    if a.Acquire? then t !in s.threads
    else
      && t in s.threads
      && var pc := s.threads[t];
         match a
         case Lock => pc.Calling? && ShardOf(pc.ip) !in s.lock
         case ReadPeer => pc.Locked?
         case LoadTotal => pc.Claiming?
         case Swap => pc.Swapping?
         case Store => pc.Storing?
         case Release => pc.Holding?
         case DropPeer => pc.Releasing? && ShardOf(pc.ip) !in s.lock
         case DropTotal => pc.Returning?
         case _ => true
  }

  function Next(c: Config, s: State, t: Tid, a: Step): Pc
    requires Enabled(s, t, a)
  {
    if a.Acquire? then Calling(a.a)
    else
      var pc := s.threads[t];
      var ip := pc.ip;
      match a
      case Acquire(_) => pc
      case Lock => Locked(ip)
      case ReadPeer =>
        if ip.Peer? && Limit(c.maxPeer, Count(s.peers, ip)) then Refused(ip, QuotaPeerFull)
        else Claiming(ip, Count(s.peers, ip))
      case LoadTotal =>
        if Limit(c.maxTotal, s.total) then Refused(ip, QuotaFull) else Swapping(ip, pc.cur, s.total)
      case Swap => if s.total == pc.seen then Storing(ip, pc.cur) else Claiming(ip, pc.cur)
      case Store => Holding(ip)
      case Release => if ip.Peer? then Releasing(ip) else Returning(ip)
      case DropPeer => Returning(ip)
      case DropTotal => Returned(ip)
  }

  function Apply(c: Config, s: State, t: Tid, a: Step): State
    requires Enabled(s, t, a)
  {
    var pc := Next(c, s, t, a);
    var threads := s.threads[t := pc];
    match a
    case Lock => s.(threads := threads, lock := s.lock[ShardOf(pc.ip) := t])
    case ReadPeer => s.(threads := threads, lock := Unlock(s.lock, pc))
    case LoadTotal => s.(threads := threads, lock := Unlock(s.lock, pc))
    case Swap => s.(threads := threads, total := if pc.Storing? then s.total + 1 else s.total)
    case Store =>
      s.(threads := threads, lock := s.lock - {ShardOf(pc.ip)},
         peers := if pc.ip.Peer? then s.peers[pc.ip := s.threads[t].cur + 1] else s.peers)
    case DropPeer => s.(threads := threads, peers := Refund(s.peers, pc.ip))
    case DropTotal => s.(threads := threads, total := s.total - 1)
    case _ => s.(threads := threads)
  }

  // A refusal unlocks the shard.
  function Unlock(lock: map<nat, Tid>, pc: Pc): map<nat, Tid> {
    if pc.Refused? then lock - {ShardOf(pc.ip)} else lock
  }

  ghost predicate Runs(c: Config, s: State, run: seq<(Tid, Step)>, s': State)
    decreases |run|
  {
    if run == [] then s == s'
    else Enabled(s, run[0].0, run[0].1) && Runs(c, Apply(c, s, run[0].0, run[0].1), run[1..], s')
  }

  // -------------------------------------------------------------- invariants

  predicate InLock(pc: Pc) { pc.Locked? || pc.Claiming? || pc.Swapping? || pc.Storing? }

  predicate Charged(pc: Pc) { pc.Storing? || pc.Holding? || pc.Releasing? || pc.Returning? }

  predicate Owns(pc: Pc, ip: Addr) { (pc.Holding? || pc.Releasing?) && pc.ip == ip }

  // Threads whose admission the total counts, and those a peer's count counts.
  function ChargedThreads(threads: Threads): set<Tid> {
    set t | t in threads && Charged(threads[t])
  }

  function Owners(threads: Threads, ip: Addr): set<Tid> {
    set t | t in threads && Owns(threads[t], ip)
  }

  ghost predicate LockInv(threads: Threads, lock: map<nat, Tid>) {
    && (forall t :: t in threads && InLock(threads[t]) ==>
          ShardOf(threads[t].ip) in lock && lock[ShardOf(threads[t].ip)] == t)
    && (forall sh :: sh in lock ==>
          lock[sh] in threads && InLock(threads[lock[sh]]) && ShardOf(threads[lock[sh]].ip) == sh)
  }

  // What a lock holder read is still true.
  ghost predicate ReadInv(c: Config, threads: Threads, peers: Table) {
    && (forall t :: t in threads && (threads[t].Claiming? || threads[t].Swapping? || threads[t].Storing?) ==>
          threads[t].cur == Count(peers, threads[t].ip) &&
          !(threads[t].ip.Peer? && Limit(c.maxPeer, threads[t].cur)))
    && (forall t :: t in threads && threads[t].Swapping? ==> !Limit(c.maxTotal, threads[t].seen))
    && (forall t :: t in threads && threads[t].Releasing? ==> threads[t].ip.Peer?)
  }

  ghost predicate PeerInv(c: Config, threads: Threads, peers: Table) {
    && (forall ip :: ip in peers ==> ip.Peer? && peers[ip] > 0)
    && (forall ip: Addr :: ip.Peer? ==> Count(peers, ip) == |Owners(threads, ip)|)
    && (c.maxPeer > 0 ==> forall ip :: ip in peers ==> peers[ip] <= c.maxPeer)
  }

  ghost predicate TotalInv(c: Config, threads: Threads, total: int) {
    total == |ChargedThreads(threads)| && (c.maxTotal > 0 ==> total <= c.maxTotal)
  }

  ghost predicate Inv(c: Config, s: State) {
    && LockInv(s.threads, s.lock)
    && ReadInv(c, s.threads, s.peers)
    && PeerInv(c, s.threads, s.peers)
    && TotalInv(c, s.threads, s.total)
  }

  // ------------------------------------------------------------ preservation

  lemma ChargedMoves(threads: Threads, t: Tid, pc: Pc)
    ensures |ChargedThreads(threads[t := pc])| ==
            |ChargedThreads(threads)| + (if Charged(pc) then 1 else 0) -
            (if t in threads && Charged(threads[t]) then 1 else 0)
  {
    var before, after := ChargedThreads(threads), ChargedThreads(threads[t := pc]);
    assert t in before <==> t in threads && Charged(threads[t]);
    if Charged(pc) {
      assert after == before + {t};
    } else {
      assert after == before - {t};
    }
  }

  lemma OwnersMove(threads: Threads, t: Tid, pc: Pc, ip: Addr)
    ensures Owners(threads[t := pc], ip) ==
            if Owns(pc, ip) then Owners(threads, ip) + {t} else Owners(threads, ip) - {t}
  {
  }

  lemma LockKept(c: Config, s: State, t: Tid, a: Step)
    requires LockInv(s.threads, s.lock) && Enabled(s, t, a)
    ensures var s' := Apply(c, s, t, a); LockInv(s'.threads, s'.lock)
  {
  }

  lemma TotalKept(c: Config, s: State, t: Tid, a: Step)
    requires TotalInv(c, s.threads, s.total) && ReadInv(c, s.threads, s.peers) && Enabled(s, t, a)
    ensures var s' := Apply(c, s, t, a); TotalInv(c, s'.threads, s'.total)
  {
    ChargedMoves(s.threads, t, Next(c, s, t, a));
  }

  lemma ReadKept(c: Config, s: State, t: Tid, a: Step)
    requires LockInv(s.threads, s.lock) && ReadInv(c, s.threads, s.peers) && Enabled(s, t, a)
    ensures var s' := Apply(c, s, t, a); ReadInv(c, s'.threads, s'.peers)
  {
  }

  // The owner of a tracked address, if the thread owns one.
  predicate Tracks(pc: Pc) { (pc.Holding? || pc.Releasing?) && pc.ip.Peer? }

  lemma PeersFramed(c: Config, threads: Threads, peers: Table, t: Tid, pc: Pc)
    requires PeerInv(c, threads, peers)
    requires Tracks(pc) <==> t in threads && Tracks(threads[t])
    requires Tracks(pc) ==> pc.ip == threads[t].ip
    ensures PeerInv(c, threads[t := pc], peers)
  {
    forall ip: Addr | ip.Peer? ensures Owners(threads[t := pc], ip) == Owners(threads, ip) {
      OwnersMove(threads, t, pc, ip);
    }
  }

  lemma PeersStored(c: Config, threads: Threads, peers: Table, t: Tid, ip: Addr)
    requires PeerInv(c, threads, peers) && ip.Peer?
    requires t in threads && !Tracks(threads[t]) && !Limit(c.maxPeer, Count(peers, ip))
    ensures PeerInv(c, threads[t := Holding(ip)], Charge(peers, ip))
  {
    var threads' := threads[t := Holding(ip)];
    forall q: Addr | q.Peer? ensures Count(Charge(peers, ip), q) == |Owners(threads', q)| {
      StoredAt(threads, peers, t, ip, q);
    }
  }

  lemma StoredAt(threads: Threads, peers: Table, t: Tid, ip: Addr, q: Addr)
    requires ip.Peer? && q.Peer? && t in threads && !Tracks(threads[t]) && Count(peers, q) == |Owners(threads, q)|
    ensures Count(Charge(peers, ip), q) == |Owners(threads[t := Holding(ip)], q)|
  {
    OwnersMove(threads, t, Holding(ip), q);
    assert t !in Owners(threads, q);
  }

  lemma PeersDropped(c: Config, threads: Threads, peers: Table, t: Tid, ip: Addr)
    requires PeerInv(c, threads, peers) && ip.Peer?
    requires t in threads && threads[t] == Releasing(ip)
    ensures PeerInv(c, threads[t := Returning(ip)], Refund(peers, ip))
  {
    assert t in Owners(threads, ip);
    forall q: Addr | q.Peer?
      ensures Count(Refund(peers, ip), q) == |Owners(threads[t := Returning(ip)], q)|
    {
      OwnersMove(threads, t, Returning(ip), q);
    }
  }

  lemma PeerKept(c: Config, s: State, t: Tid, a: Step)
    requires ReadInv(c, s.threads, s.peers) && PeerInv(c, s.threads, s.peers) && Enabled(s, t, a)
    ensures var s' := Apply(c, s, t, a); PeerInv(c, s'.threads, s'.peers)
  {
    if a.Store? && s.threads[t].ip.Peer? {
      PeersStored(c, s.threads, s.peers, t, s.threads[t].ip);
    } else if a.DropPeer? {
      PeersDropped(c, s.threads, s.peers, t, s.threads[t].ip);
    } else {
      PeersFramed(c, s.threads, s.peers, t, Next(c, s, t, a));
    }
  }

  lemma InvKept(c: Config, s: State, t: Tid, a: Step)
    requires Inv(c, s) && Enabled(s, t, a)
    ensures Inv(c, Apply(c, s, t, a))
  {
    LockKept(c, s, t, a);
    ReadKept(c, s, t, a);
    PeerKept(c, s, t, a);
    TotalKept(c, s, t, a);
  }

  lemma InitInv(c: Config)
    ensures Inv(c, Init)
  {
    assert ChargedThreads(map[]) == {};
    forall ip ensures Owners(map[], ip) == {} {}
  }

  lemma {:induction false} RunKeepsInv(c: Config, s: State, run: seq<(Tid, Step)>, s': State)
    requires Inv(c, s) && Runs(c, s, run, s')
    ensures Inv(c, s')
    decreases |run|
  {
    if run != [] {
      InvKept(c, s, run[0].0, run[0].1);
      RunKeepsInv(c, Apply(c, s, run[0].0, run[0].1), run[1..], s');
    }
  }

  ghost predicate Reachable(c: Config, s: State) {
    exists run :: Runs(c, Init, run, s)
  }

  lemma ReachableInv(c: Config, s: State)
    requires Reachable(c, s)
    ensures Inv(c, s)
  {
    var run :| Runs(c, Init, run, s);
    InitInv(c);
    RunKeepsInv(c, Init, run, s);
  }

  // ------------------------------------------------------------ main results

  ghost function SumCounts(peers: Table): int {
    if peers == map[] then 0
    else var ip :| ip in peers; peers[ip] + SumCounts(peers - {ip})
  }

  // Threads that own an address of `ips`.
  function OwnersAmong(threads: Threads, ips: set<Addr>): set<Tid> {
    set t | t in threads && (threads[t].Holding? || threads[t].Releasing?) && threads[t].ip in ips
  }

  lemma {:induction false} SumIsOwners(threads: Threads, peers: Table)
    requires forall ip :: ip in peers ==> peers[ip] == |Owners(threads, ip)|
    ensures SumCounts(peers) == |OwnersAmong(threads, peers.Keys)|
    decreases |peers|
  {
    if peers == map[] {
      assert OwnersAmong(threads, peers.Keys) == {};
    } else {
      var ip :| ip in peers && SumCounts(peers) == peers[ip] + SumCounts(peers - {ip});
      var rest := peers - {ip};
      SumIsOwners(threads, rest);
      assert OwnersAmong(threads, peers.Keys) == Owners(threads, ip) + OwnersAmong(threads, rest.Keys);
    }
  }

  function LooseHolders(threads: Threads): set<Tid> {
    set t | t in threads && threads[t].Holding? && threads[t].ip.Unattributed?
  }

  // Threads between their two updates: claimed but not stored, or dropped but not returned.
  function Between(threads: Threads): set<Tid> {
    set t | t in threads && (threads[t].Storing? || threads[t].Returning?)
  }

  lemma PartitionCharged(threads: Threads, ips: set<Addr>)
    requires forall t :: t in threads && Tracks(threads[t]) ==> threads[t].ip in ips
    requires forall t :: t in threads && threads[t].Releasing? ==> threads[t].ip.Peer?
    requires forall ip :: ip in ips ==> ip.Peer?
    ensures |ChargedThreads(threads)| ==
            |OwnersAmong(threads, ips)| + |LooseHolders(threads)| + |Between(threads)|
  {
    var owned, loose, between := OwnersAmong(threads, ips), LooseHolders(threads), Between(threads);
    assert ChargedThreads(threads) == (owned + loose) + between;
    assert owned !! loose;
    assert (owned + loose) !! between;
  }

  // In every interleaving the global counter is the sum of the per-peer counts, plus the
  // unattributed holders, plus the threads between their two updates.
  lemma TotalAccountsForEveryone(c: Config, s: State)
    requires Reachable(c, s)
    ensures s.total == SumCounts(s.peers) + |LooseHolders(s.threads)| + |Between(s.threads)|
  {
    ReachableInv(c, s);
    forall t | t in s.threads && Tracks(s.threads[t]) ensures s.threads[t].ip in s.peers {
      assert t in Owners(s.threads, s.threads[t].ip);
    }
    PartitionCharged(s.threads, s.peers.Keys);
    forall ip | ip in s.peers ensures s.peers[ip] == |Owners(s.threads, ip)| {
      assert Count(s.peers, ip) == s.peers[ip];
    }
    SumIsOwners(s.threads, s.peers);
  }

  // Neither ceiling is ever exceeded, not even for an instant.
  lemma CeilingsHold(c: Config, s: State, ip: Addr)
    requires Reachable(c, s)
    ensures 0 <= s.total && (c.maxTotal > 0 ==> s.total <= c.maxTotal)
    ensures ip in s.peers ==> s.peers[ip] > 0 && (c.maxPeer > 0 ==> s.peers[ip] <= c.maxPeer)
    ensures ip.Peer? ==> Count(s.peers, ip) == |Owners(s.threads, ip)|
  {
    ReachableInv(c, s);
  }

  // When every slot has been returned, nothing is left behind.
  lemma QuiescentIsEmpty(c: Config, s: State)
    requires Reachable(c, s)
    requires forall t :: t in s.threads ==> !Charged(s.threads[t])
    ensures s.total == 0 && s.peers == map[]
  {
    ReachableInv(c, s);
    assert ChargedThreads(s.threads) == {};
    forall ip ensures ip !in s.peers {
      assert Owners(s.threads, ip) == {};
      assert ip in s.peers ==> Count(s.peers, ip) == |Owners(s.threads, ip)|;
    }
  }

  // The count a lock holder stores is never a lost update.
  lemma StoreIsNotLost(c: Config, s: State, t: Tid)
    requires Reachable(c, s) && Enabled(s, t, Store)
    ensures Apply(c, s, t, Store).peers == Charge(s.peers, s.threads[t].ip)
  {
    ReachableInv(c, s);
  }
}
