/**
  The reference-counted broadcast frame as an interleaved machine of broadcasters, session
  write loops and session closes.  A ticket is one recipient's reference to one frame.
 */
module Frames {

  type Frame = nat
  type Sid = nat

  datatype Ticket = Ticket(f: Frame, i: nat)

  // One element of a session's write queue: a shared frame, or a private copy.
  datatype Entry = Shared(ticket: Ticket) | Copy

  // What NewSession fixes: queue capacity, high-water mark (0 disables), whether a write
  // timeout is set and whether writes are buffered.
  datatype Options = Options(capacity: nat, highWater: real, writeTimeout: bool, buffered: bool)

  // The clamped high-water threshold; -1 when the check is disabled.
  function Threshold(o: Options): int {
    if o.highWater <= 0.0 then -1
    else
      var n := (o.capacity as real * o.highWater).Floor;
      if n < 1 then 1 else n
  }

  datatype WriterPc =
    | Waiting               // at the select of writeLoop
    | Got(entry: Entry)     // in writeBatch, before SetWriteDeadline
    | Writing(entry: Entry) // before writeOne
    | Batching              // buffered: at the check of the queue length
    | BatchReceiving        // buffered: at the receive
    | Exited

  datatype CloserPc =
    | Open
    | Marked                // state is closed, context not yet cancelled
    | Draining              // in releaseQueuedFrames
    | Dropping(entry: Entry)
    | Closed

  datatype Session = Session(opts: Options, queue: seq<Entry>, writer: WriterPc, closer: CloserPc)

  predicate Active(x: Session) { x.closer.Open? }
  predicate Cancelled(x: Session) { x.closer.Draining? || x.closer.Dropping? || x.closer.Closed? }

  datatype OfferPc = Idle | Checked | Sending | Rejecting

  // A broadcast in progress: `next` is the recipient being offered the frame.
  datatype Cast = Cast(to: seq<Sid>, next: nat, pc: OfferPc)

  datatype Place = Unoffered | Queued(s: Sid) | InWriter(s: Sid) | InCloser(s: Sid) | Dropped | Released

  type Casts = map<Frame, Cast>
  type Sessions = map<Sid, Session>
  type Places = map<Ticket, Place>

  datatype State = State(refs: map<Frame, int>, casts: Casts, sess: Sessions,
                         place: Places)  // history: where each reference is

  // Sessions as newSession leaves them.
  predicate Fresh(sess: Sessions) {
    forall s :: s in sess ==> sess[s].queue == [] && sess[s].writer.Waiting? && sess[s].closer.Open?
  }

  function Init(sess: Sessions): State { State(map[], map[], sess, map[]) }

  // ------------------------------------------------------------- broadcasting

  datatype CastStep = Start(to: seq<Sid>) | CheckState | CheckWater | Enqueue | SeeClosed | SeeFull | Reject

  // The session being offered the frame.
  predicate Offering(st: State, f: Frame) {
    f in st.casts && st.casts[f].next < |st.casts[f].to| && st.casts[f].to[st.casts[f].next] in st.sess
  }

  function Target(st: State, f: Frame): Session
    requires Offering(st, f)
  {
    st.sess[st.casts[f].to[st.casts[f].next]]
  }

  predicate CastEnabled(st: State, f: Frame, a: CastStep) {
    if a.Start? then f !in st.casts && |a.to| > 1 && forall s :: s in a.to ==> s in st.sess
    else
      && Offering(st, f)
      && var pc, x := st.casts[f].pc, Target(st, f);
         match a
         case CheckState => pc.Idle?
         case CheckWater => pc.Checked?
         case Enqueue => pc.Sending? && |x.queue| < x.opts.capacity
         case SeeClosed => pc.Sending? && Cancelled(x)
         case SeeFull => pc.Sending? && |x.queue| >= x.opts.capacity && !Cancelled(x)
         case Reject => pc.Rejecting?
         case _ => true
  }

  function CastNext(st: State, f: Frame, a: CastStep): Cast
    requires CastEnabled(st, f, a)
  {
    match a
    case Start(to) => Cast(to, 0, Idle)
    case CheckState => st.casts[f].(pc := if Active(Target(st, f)) then Checked else Rejecting)
    case CheckWater =>
      var x := Target(st, f);
      var n := Threshold(x.opts);
      st.casts[f].(pc := if n >= 0 && |x.queue| >= n then Rejecting else Sending)
    case Enqueue => st.casts[f].(next := st.casts[f].next + 1, pc := Idle)
    case SeeClosed => st.casts[f].(pc := Rejecting)
    case SeeFull => st.casts[f].(pc := Rejecting)
    case Reject => st.casts[f].(next := st.casts[f].next + 1, pc := Idle)
  }

  // SharedFrame.Release
  function Drop(refs: map<Frame, int>, f: Frame): map<Frame, int> {
    if f in refs then refs[f := refs[f] - 1] else refs
  }

  function CastApply(st: State, f: Frame, a: CastStep): State
    requires CastEnabled(st, f, a)
  {
    var casts := st.casts[f := CastNext(st, f, a)];
    match a
    case Start(to) =>
      st.(casts := casts, refs := st.refs[f := |to|], place := st.place + NewTickets(f, |to|))
    case Enqueue =>
      var c := st.casts[f];
      var s, t := c.to[c.next], Ticket(f, c.next);
      st.(casts := casts, sess := st.sess[s := st.sess[s].(queue := st.sess[s].queue + [Shared(t)])],
          place := st.place[t := Queued(s)])
    case Reject =>
      st.(casts := casts, refs := Drop(st.refs, f),
          place := st.place[Ticket(f, st.casts[f].next) := Released])
    case _ => st.(casts := casts)
  }

  function NewTickets(f: Frame, n: nat): Places {
    if n == 0 then map[] else NewTickets(f, n - 1)[Ticket(f, n - 1) := Unoffered]
  }

  // ---------------------------------------------------- write loop and Close

  datatype SessStep =
    | SendCopy                               // Send: a private copy is enqueued
    | Receive | SeeDone                      // writeLoop's select
    | DeadlineOk | DeadlineFails             // SetWriteDeadline
    | Write(ok: bool) | QueueMore | QueueEmpty(flushed: bool) | BatchReceive
    | Mark | Cancel | DropOne | DropRelease | DropEmpty  // Close, once

  predicate SessEnabled(x: Session, a: SessStep) {
    match a
    case SendCopy => |x.queue| < x.opts.capacity
    case Receive => x.writer.Waiting? && x.queue != []
    case SeeDone => x.writer.Waiting? && Cancelled(x)
    case DeadlineOk => x.writer.Got?
    case DeadlineFails => x.writer.Got? && x.opts.writeTimeout
    case Write(_) => x.writer.Writing?
    case QueueMore => x.writer.Batching? && x.queue != []
    case QueueEmpty(_) => x.writer.Batching? && x.queue == []
    case BatchReceive => x.writer.BatchReceiving? && x.queue != []
    case Mark => x.closer.Open?
    case Cancel => x.closer.Marked?
    case DropOne => x.closer.Draining? && x.queue != []
    case DropRelease => x.closer.Dropping?
    case DropEmpty => x.closer.Draining? && x.queue == []
  }

  function SessNext(x: Session, a: SessStep): Session
    requires SessEnabled(x, a)
  {
    match a
    case SendCopy => x.(queue := x.queue + [Copy])
    case Receive => x.(queue := x.queue[1..], writer := Got(x.queue[0]))
    case SeeDone => x.(writer := Exited)
    case DeadlineOk => x.(writer := Writing(x.writer.entry))
    case DeadlineFails => x.(writer := Exited)
    case Write(ok) => x.(writer := if !ok then Exited else if x.opts.buffered then Batching else Waiting)
    case QueueMore => x.(writer := BatchReceiving)
    case QueueEmpty(ok) => x.(writer := if ok then Waiting else Exited)
    case BatchReceive => x.(queue := x.queue[1..], writer := Writing(x.queue[0]))
    case Mark => x.(closer := Marked)
    case Cancel => x.(closer := Draining)
    case DropOne => x.(queue := x.queue[1..], closer := Dropping(x.queue[0]))
    case DropRelease => x.(closer := Draining)
    case DropEmpty => x.(closer := Closed)
  }

  // The entry a step moves, and where its reference goes.
  function Moved(x: Session, a: SessStep): Entry
    requires SessEnabled(x, a)
  {
    match a
    case Receive => x.queue[0]
    case BatchReceive => x.queue[0]
    case DropOne => x.queue[0]
    case DeadlineFails => x.writer.entry
    case Write(_) => x.writer.entry
    case DropRelease => x.closer.entry
    case _ => Copy
  }

  function PlaceAfter(s: Sid, a: SessStep): Place {
    match a
    case DropOne => InCloser(s)
    case DeadlineFails => Dropped
    case Write(_) => Released
    case DropRelease => Released
    case _ => InWriter(s)
  }

  function SessApply(st: State, s: Sid, a: SessStep): State
    requires s in st.sess && SessEnabled(st.sess[s], a)
  {
    var e := Moved(st.sess[s], a);
    var sess := st.sess[s := SessNext(st.sess[s], a)];
    if e.Copy? then st.(sess := sess)
    else
      var p := PlaceAfter(s, a);
      st.(sess := sess, place := st.place[e.ticket := p],
          refs := if p.Released? then Drop(st.refs, e.ticket.f) else st.refs)
  }

  // -------------------------------------------------------------- invariants

  predicate Holds(x: Session, e: Entry) {
    (x.writer.Got? || x.writer.Writing?) && x.writer.entry == e
  }

  predicate NoDuplicates(q: seq<Entry>) {
    forall i, j :: 0 <= i < j < |q| && q[i].Shared? ==> q[i] != q[j]
  }

  // A session's queue, writer and closer hold exactly the tickets placed there.
  ghost predicate SessInv(place: Places, s: Sid, x: Session) {
    && NoDuplicates(x.queue)
    && (forall t :: Shared(t) in x.queue <==> t in place && place[t] == Queued(s))
    && (forall t :: Holds(x, Shared(t)) <==> t in place && place[t] == InWriter(s))
    && (forall t :: x.closer == Dropping(Shared(t)) <==> t in place && place[t] == InCloser(s))
  }

  // A broadcast has tickets for its recipients; those from `next` on are unoffered.
  ghost predicate CastInv(place: Places, casts: Casts) {
    && (forall t :: t in place <==> t.f in casts && t.i < |casts[t.f].to|)
    && (forall t :: t in place ==> (place[t].Unoffered? <==> t.i >= casts[t.f].next))
    && (forall f :: f in casts ==> casts[f].next <= |casts[f].to|)
  }

  // The references of f that are still outstanding.
  ghost function Outstanding(place: Places, f: Frame): set<Ticket> {
    set t | t in place && t.f == f && !place[t].Released?
  }

  ghost predicate RefInv(place: Places, casts: Casts, refs: map<Frame, int>) {
    refs.Keys == casts.Keys && forall f :: f in refs ==> refs[f] == |Outstanding(place, f)|
  }

  ghost predicate WhereInv(place: Places, sess: Sessions, casts: Casts) {
    && (forall s :: s in sess ==> SessInv(place, s, sess[s]))
    && (forall t :: t in place && (place[t].Queued? || place[t].InWriter? || place[t].InCloser?) ==> place[t].s in sess)
    && (forall f, i :: f in casts && 0 <= i < |casts[f].to| ==> casts[f].to[i] in sess)
  }

  ghost predicate Inv(st: State) {
    CastInv(st.place, st.casts) && RefInv(st.place, st.casts, st.refs) && WhereInv(st.place, st.sess, st.casts)
  }

  // ------------------------------------------------------------ preservation

  predicate At(p: Place, s: Sid) { p == Queued(s) || p == InWriter(s) || p == InCloser(s) }

  lemma OutstandingMoves(place: Places, t: Ticket, p: Place, f: Frame)
    ensures Outstanding(place[t := p], f) ==
            if t.f != f then Outstanding(place, f)
            else if p.Released? then Outstanding(place, f) - {t} else Outstanding(place, f) + {t}
  {
  }

  lemma RefsMove(place: Places, casts: Casts, refs: map<Frame, int>, t: Ticket, p: Place)
    requires RefInv(place, casts, refs) && t in place && t.f in refs && !place[t].Released?
    ensures RefInv(place[t := p], casts, if p.Released? then Drop(refs, t.f) else refs)
  {
    var refs' := if p.Released? then Drop(refs, t.f) else refs;
    assert refs'.Keys == refs.Keys;
    assert t in Outstanding(place, t.f);
    forall f | f in refs' ensures refs'[f] == |Outstanding(place[t := p], f)| {
      OutstandingMoves(place, t, p, f);
      assert refs[f] == |Outstanding(place, f)|;
      assert !p.Released? && f == t.f ==> Outstanding(place, f) + {t} == Outstanding(place, f);
    }
  }

  lemma OtherSession(place: Places, s: Sid, x: Session, t: Ticket, p: Place)
    requires SessInv(place, s, x)
    requires t in place ==> !At(place[t], s)
    requires !At(p, s)
    ensures SessInv(place[t := p], s, x)
  {
  }

  lemma QueueHead(q: seq<Entry>, e: Entry)
    requires NoDuplicates(q) && q != []
    ensures NoDuplicates(q[1..])
    ensures e.Shared? ==> (e in q[1..] <==> e in q && e != q[0])
  {
    assert q == [q[0]] + q[1..];
  }

  // A receive: the head of the queue moves into somebody's hands.
  lemma DequeueKeepsSession(place: Places, s: Sid, x: Session, x': Session, p: Place)
    requires SessInv(place, s, x) && x.queue != [] && x'.queue == x.queue[1..]
    requires (p == InWriter(s) && x'.closer == x.closer && !x.writer.Got? && !x.writer.Writing? &&
                Holds(x', x.queue[0])) ||
             (p == InCloser(s) && x'.writer == x.writer && !x.closer.Dropping? && x'.closer == Dropping(x.queue[0]))
    ensures var e := x.queue[0];
            (e.Copy? ==> SessInv(place, s, x')) &&
            (e.Shared? ==> e.ticket in place && place[e.ticket] == Queued(s) && SessInv(place[e.ticket := p], s, x'))
  {
    forall e: Entry ensures e.Shared? ==> (e in x'.queue <==> e in x.queue && e != x.queue[0]) {
      QueueHead(x.queue, e);
    }
    QueueHead(x.queue, Copy);
    assert x.queue[0] in x.queue;
  }

  lemma OwnStepKeepsSession(place: Places, s: Sid, x: Session, a: SessStep)
    requires SessInv(place, s, x) && SessEnabled(x, a)
    ensures var e := Moved(x, a);
            (e.Copy? ==> SessInv(place, s, SessNext(x, a))) &&
            (e.Shared? ==> e.ticket in place && At(place[e.ticket], s) &&
                           SessInv(place[e.ticket := PlaceAfter(s, a)], s, SessNext(x, a)))
  {
    if a.Receive? || a.BatchReceive? || a.DropOne? {
      DequeueKeepsSession(place, s, x, SessNext(x, a), PlaceAfter(s, a));
    }
  }

  lemma SessStepKeepsInv(st: State, s: Sid, a: SessStep)
    requires Inv(st) && s in st.sess && SessEnabled(st.sess[s], a)
    ensures Inv(SessApply(st, s, a))
  {
    if Moved(st.sess[s], a).Shared? {
      SharedStepKeepsInv(st, s, a);
    } else {
      OwnStepKeepsSession(st.place, s, st.sess[s], a);
    }
  }

  lemma SharedStepKeepsInv(st: State, s: Sid, a: SessStep)
    requires Inv(st) && s in st.sess && SessEnabled(st.sess[s], a) && Moved(st.sess[s], a).Shared?
    ensures Inv(SessApply(st, s, a))
  {
    var t, p := Moved(st.sess[s], a).ticket, PlaceAfter(s, a);
    OwnStepKeepsSession(st.place, s, st.sess[s], a);
    HeldKeepsCasts(st.place, st.casts, t, p);
    RefsMove(st.place, st.casts, st.refs, t, p);
    HeldKeepsWhere(st.place, st.sess, st.casts, s, SessNext(st.sess[s], a), t, p);
  }

  // A ticket moves within its session, or is released.
  lemma HeldKeepsCasts(place: Places, casts: Casts, t: Ticket, p: Place)
    requires CastInv(place, casts) && t in place && !place[t].Unoffered? && !p.Unoffered?
    ensures CastInv(place[t := p], casts) && t.f in casts
  {
  }

  lemma HeldKeepsWhere(place: Places, sess: Sessions, casts: Casts, s: Sid, x: Session, t: Ticket, p: Place)
    requires WhereInv(place, sess, casts) && s in sess && t in place && At(place[t], s) &&
             (At(p, s) || p.Dropped? || p.Released?)
    requires SessInv(place[t := p], s, x)
    ensures WhereInv(place[t := p], sess[s := x], casts)
  {
    forall s2 | s2 in sess && s2 != s ensures SessInv(place[t := p], s2, sess[s2]) {
      OtherSession(place, s2, sess[s2], t, p);
    }
  }

  lemma EnqueueKeepsSession(place: Places, s: Sid, x: Session, t: Ticket)
    requires SessInv(place, s, x) && t in place && place[t].Unoffered?
    ensures SessInv(place[t := Queued(s)], s, x.(queue := x.queue + [Shared(t)]))
  {
    var q := x.queue + [Shared(t)];
    assert Shared(t) !in x.queue;
    assert forall e :: e in q <==> e in x.queue || e == Shared(t);
  }

  lemma MoveKeepsCasts(place: Places, casts: Casts, f: Frame, p: Place, c: Cast)
    requires CastInv(place, casts) && f in casts && casts[f].next < |casts[f].to| && !p.Unoffered?
    requires c.to == casts[f].to && c.next == casts[f].next + 1
    ensures CastInv(place[Ticket(f, casts[f].next) := p], casts[f := c])
  {
  }

  // The reference being offered is unoffered, hence outstanding.
  lemma OfferedTicket(place: Places, casts: Casts, refs: map<Frame, int>, f: Frame)
    requires CastInv(place, casts) && RefInv(place, casts, refs) && f in casts && casts[f].next < |casts[f].to|
    ensures f in refs && Ticket(f, casts[f].next) in place && place[Ticket(f, casts[f].next)].Unoffered?
  {
  }

  lemma OfferMovesRefs(place: Places, casts: Casts, refs: map<Frame, int>, t: Ticket, p: Place, c: Cast)
    requires RefInv(place, casts, refs) && t in place && t.f in refs && t.f in casts && place[t].Unoffered?
    ensures RefInv(place[t := p], casts[t.f := c], if p.Released? then Drop(refs, t.f) else refs)
  {
    RefsMove(place, casts, refs, t, p);
    assert casts[t.f := c].Keys == casts.Keys;
  }

  lemma RejectKeepsWhere(place: Places, sess: Sessions, casts: Casts, t: Ticket, c: Cast)
    requires WhereInv(place, sess, casts) && t in place && place[t].Unoffered?
    requires t.f in casts && c.to == casts[t.f].to
    ensures WhereInv(place[t := Released], sess, casts[t.f := c])
  {
    forall s | s in sess ensures SessInv(place[t := Released], s, sess[s]) {
      OtherSession(place, s, sess[s], t, Released);
    }
  }

  lemma RejectKeepsInv(st: State, f: Frame)
    requires Inv(st) && CastEnabled(st, f, Reject)
    ensures Inv(CastApply(st, f, Reject))
  {
    var t, c := Ticket(f, st.casts[f].next), CastNext(st, f, Reject);
    OfferedTicket(st.place, st.casts, st.refs, f);
    MoveKeepsCasts(st.place, st.casts, f, Released, c);
    OfferMovesRefs(st.place, st.casts, st.refs, t, Released, c);
    RejectKeepsWhere(st.place, st.sess, st.casts, t, c);
  }

  lemma EnqueueKeepsWhere(place: Places, sess: Sessions, casts: Casts, t: Ticket, s: Sid, c: Cast)
    requires WhereInv(place, sess, casts) && t in place && place[t].Unoffered? && s in sess
    requires t.f in casts && c.to == casts[t.f].to
    ensures WhereInv(place[t := Queued(s)], sess[s := sess[s].(queue := sess[s].queue + [Shared(t)])], casts[t.f := c])
  {
    EnqueueKeepsSession(place, s, sess[s], t);
    forall s2 | s2 in sess && s2 != s ensures SessInv(place[t := Queued(s)], s2, sess[s2]) {
      OtherSession(place, s2, sess[s2], t, Queued(s));
    }
  }

  lemma EnqueueKeepsInv(st: State, f: Frame)
    requires Inv(st) && CastEnabled(st, f, Enqueue)
    ensures Inv(CastApply(st, f, Enqueue))
  {
    var t, s, c := Ticket(f, st.casts[f].next), st.casts[f].to[st.casts[f].next], CastNext(st, f, Enqueue);
    OfferedTicket(st.place, st.casts, st.refs, f);
    MoveKeepsCasts(st.place, st.casts, f, Queued(s), c);
    OfferMovesRefs(st.place, st.casts, st.refs, t, Queued(s), c);
    EnqueueKeepsWhere(st.place, st.sess, st.casts, t, s, c);
  }

  lemma {:induction false} TicketCount(f: Frame, n: nat)
    ensures forall t :: t in NewTickets(f, n) <==> t.f == f && t.i < n
    ensures forall t :: t in NewTickets(f, n) ==> NewTickets(f, n)[t].Unoffered?
    ensures |NewTickets(f, n).Keys| == n
  {
    if n > 0 {
      TicketCount(f, n - 1);
      assert NewTickets(f, n).Keys == NewTickets(f, n - 1).Keys + {Ticket(f, n - 1)};
    }
  }

  lemma OutstandingAfterIssue(place: Places, issued: Places, f: Frame, g: Frame)
    requires forall t :: t in place ==> t.f != f
    requires forall t :: t in issued ==> t.f == f && issued[t].Unoffered?
    ensures Outstanding(place + issued, g) == if g == f then issued.Keys else Outstanding(place, g)
  {
  }

  lemma NewCastKeepsRefs(place: Places, casts: Casts, refs: map<Frame, int>, f: Frame, issued: Places, c: Cast)
    requires RefInv(place, casts, refs)
    requires forall t :: t in place ==> t.f != f
    requires forall t :: t in issued ==> t.f == f && issued[t].Unoffered?
    ensures RefInv(place + issued, casts[f := c], refs[f := |issued.Keys|])
  {
    var place', refs' := place + issued, refs[f := |issued.Keys|];
    assert refs'.Keys == casts[f := c].Keys;
    forall g | g in refs' ensures refs'[g] == |Outstanding(place', g)| {
      OutstandingAfterIssue(place, issued, f, g);
    }
  }

  lemma NewCastKeepsSession(place: Places, s: Sid, x: Session, f: Frame, issued: Places)
    requires SessInv(place, s, x) && forall t :: t in place ==> t.f != f
    requires forall t :: t in issued ==> t.f == f && issued[t].Unoffered?
    ensures SessInv(place + issued, s, x)
  {
  }

  lemma NewCastKeepsWhere(place: Places, sess: Sessions, casts: Casts, f: Frame, issued: Places, c: Cast)
    requires WhereInv(place, sess, casts) && forall t :: t in place ==> t.f != f
    requires forall t :: t in issued ==> t.f == f && issued[t].Unoffered?
    requires forall s :: s in c.to ==> s in sess
    ensures WhereInv(place + issued, sess, casts[f := c])
  {
    forall s | s in sess ensures SessInv(place + issued, s, sess[s]) {
      NewCastKeepsSession(place, s, sess[s], f, issued);
    }
  }

  lemma NewCastKeepsCasts(place: Places, casts: Casts, f: Frame, issued: Places, to: seq<Sid>)
    requires CastInv(place, casts) && f !in casts
    requires forall t :: t in issued <==> t.f == f && t.i < |to|
    requires forall t :: t in issued ==> issued[t].Unoffered?
    ensures CastInv(place + issued, casts[f := Cast(to, 0, Idle)])
    ensures forall t :: t in place ==> t.f != f
  {
  }

  lemma StartKeepsInv(st: State, f: Frame, to: seq<Sid>)
    requires Inv(st) && CastEnabled(st, f, Start(to))
    ensures Inv(CastApply(st, f, Start(to)))
  {
    var issued, c := NewTickets(f, |to|), Cast(to, 0, Idle);
    TicketCount(f, |to|);
    NewCastKeepsCasts(st.place, st.casts, f, issued, to);
    NewCastKeepsRefs(st.place, st.casts, st.refs, f, issued, c);
    NewCastKeepsWhere(st.place, st.sess, st.casts, f, issued, c);
  }

  lemma CastStepKeepsInv(st: State, f: Frame, a: CastStep)
    requires Inv(st) && CastEnabled(st, f, a)
    ensures Inv(CastApply(st, f, a))
  {
    match a
    case Start(to) => StartKeepsInv(st, f, to);
    case Enqueue => EnqueueKeepsInv(st, f);
    case Reject => RejectKeepsInv(st, f);
    case _ =>
  }

  // --------------------------------------------------------------------- runs

  datatype Action = OfCast(f: Frame, cast: CastStep) | OfSess(s: Sid, sess: SessStep)

  predicate Enabled(st: State, a: Action) {
    match a
    case OfCast(f, x) => CastEnabled(st, f, x)
    case OfSess(s, x) => s in st.sess && SessEnabled(st.sess[s], x)
  }

  function Apply(st: State, a: Action): State
    requires Enabled(st, a)
  {
    match a
    case OfCast(f, x) => CastApply(st, f, x)
    case OfSess(s, x) => SessApply(st, s, x)
  }

  ghost predicate Runs(st: State, run: seq<Action>, st': State)
    decreases |run|
  {
    if run == [] then st == st'
    else Enabled(st, run[0]) && Runs(Apply(st, run[0]), run[1..], st')
  }

  lemma StepKeepsInv(st: State, a: Action)
    requires Inv(st) && Enabled(st, a)
    ensures Inv(Apply(st, a))
  {
    match a
    case OfCast(f, x) => CastStepKeepsInv(st, f, x);
    case OfSess(s, x) => SessStepKeepsInv(st, s, x);
  }

  lemma {:induction false} RunKeepsInv(st: State, run: seq<Action>, st': State)
    requires Inv(st) && Runs(st, run, st')
    ensures Inv(st')
    decreases |run|
  {
    if run != [] {
      StepKeepsInv(st, run[0]);
      RunKeepsInv(Apply(st, run[0]), run[1..], st');
    }
  }

  ghost predicate Reachable(st: State) {
    exists sess, run :: Fresh(sess) && Runs(Init(sess), run, st)
  }

  lemma ReachableInv(st: State)
    requires Reachable(st)
    ensures Inv(st)
  {
    var sess, run :| Fresh(sess) && Runs(Init(sess), run, st);
    RunKeepsInv(Init(sess), run, st);
  }

  // ------------------------------------------------------------ main results

  // Recipients of f that have not been offered the frame yet.
  function Waitlist(st: State, f: Frame): nat
    requires f in st.casts
  {
    if st.casts[f].next <= |st.casts[f].to| then |st.casts[f].to| - st.casts[f].next else 0
  }

  // References held by write queues.
  ghost function InQueues(st: State, f: Frame): set<Ticket> {
    set t | t in st.place && t.f == f && exists s :: s in st.sess && Shared(t) in st.sess[s].queue
  }

  // References in the hands of a write loop or of a close.
  ghost function InHands(st: State, f: Frame): set<Ticket> {
    set t | t in st.place && t.f == f &&
            exists s :: s in st.sess && (Holds(st.sess[s], Shared(t)) || st.sess[s].closer == Dropping(Shared(t)))
  }

  // References thrown away when SetWriteDeadline failed.
  ghost function Lost(st: State, f: Frame): set<Ticket> {
    set t | t in st.place && t.f == f && st.place[t].Dropped?
  }

  ghost function Range(f: Frame, lo: nat, hi: nat): set<Ticket> {
    set i | lo <= i < hi :: Ticket(f, i)
  }

  lemma RangeSize(f: Frame, lo: nat, hi: nat)
    requires lo <= hi
    ensures |Range(f, lo, hi)| == hi - lo
    decreases hi - lo
  {
    if lo < hi {
      RangeSize(f, lo + 1, hi);
      assert Range(f, lo, hi) == {Ticket(f, lo)} + Range(f, lo + 1, hi);
    } else {
      assert Range(f, lo, hi) == {};
    }
  }

  lemma WhereTicketsAre(st: State, f: Frame)
    requires Inv(st) && f in st.casts
    ensures InQueues(st, f) == set t | t in st.place && t.f == f && st.place[t].Queued?
    ensures InHands(st, f) == set t | t in st.place && t.f == f && (st.place[t].InWriter? || st.place[t].InCloser?)
    ensures Range(f, st.casts[f].next, |st.casts[f].to|) == set t | t in st.place && t.f == f && st.place[t].Unoffered?
  {
    forall t | t in st.place && t.f == f
      ensures t in InQueues(st, f) <==> st.place[t].Queued?
      ensures t in InHands(st, f) <==> st.place[t].InWriter? || st.place[t].InCloser?
    {
      if st.place[t].Queued? || st.place[t].InWriter? || st.place[t].InCloser? {
        assert SessInv(st.place, st.place[t].s, st.sess[st.place[t].s]);
      }
    }
  }

  // In every interleaving a frame's reference count is the number of recipients not yet
  // offered it, plus the queue entries holding it, plus the entries in hand, plus the
  // entries abandoned on a failed deadline; so it is never negative.
  lemma RefsAreAccountedFor(st: State, f: Frame)
    requires Reachable(st) && f in st.casts
    ensures f in st.refs
    ensures st.refs[f] == Waitlist(st, f) + |InQueues(st, f)| + |InHands(st, f)| + |Lost(st, f)|
  {
    ReachableInv(st);
    WhereTicketsAre(st, f);
    var waiting := Range(f, st.casts[f].next, |st.casts[f].to|);
    RangeSize(f, st.casts[f].next, |st.casts[f].to|);
    SplitOutstanding(st.place, f, waiting, InQueues(st, f), InHands(st, f), Lost(st, f));
  }

  lemma SplitOutstanding(place: Places, f: Frame, w: set<Ticket>, q: set<Ticket>, h: set<Ticket>, l: set<Ticket>)
    requires forall t :: t in w <==> t in place && t.f == f && place[t].Unoffered?
    requires forall t :: t in q <==> t in place && t.f == f && place[t].Queued?
    requires forall t :: t in h <==> t in place && t.f == f && (place[t].InWriter? || place[t].InCloser?)
    requires forall t :: t in l <==> t in place && t.f == f && place[t].Dropped?
    ensures |Outstanding(place, f)| == |w| + |q| + |h| + |l|
  {
    assert Outstanding(place, f) == ((w + q) + h) + l;
    assert w !! q;
    assert (w + q) !! h;
    assert ((w + q) + h) !! l;
  }

  // Once every recipient was offered the frame and no queue or hand holds it, its count is
  // zero exactly when no entry was abandoned on a failed deadline.
  lemma SettledFrame(st: State, f: Frame)
    requires Reachable(st) && f in st.casts && Waitlist(st, f) == 0
    requires InQueues(st, f) == {} && InHands(st, f) == {}
    ensures f in st.refs && (st.refs[f] == 0 <==> Lost(st, f) == {})
  {
    RefsAreAccountedFor(st, f);
  }

  // --------------------------------------------------- references that leak

  // A session that is closed for good: its close has drained the queue and its write loop
  // is gone.
  predicate Gone(x: Session) { x.closer.Closed? && x.writer.Exited? }

  // The ticket can never be released again.
  predicate Stranded(place: Places, sess: Sessions, t: Ticket) {
    t in place && (place[t].Dropped? || (place[t].Queued? && place[t].s in sess && Gone(sess[place[t].s])))
  }

  lemma StrandedThroughCast(st: State, t: Ticket, f: Frame, a: CastStep)
    requires Inv(st) && Stranded(st.place, st.sess, t) && CastEnabled(st, f, a)
    ensures var st' := CastApply(st, f, a); Stranded(st'.place, st'.sess, t)
  {
    assert t.f in st.casts;
    assert !st.place[t].Unoffered?;
    if a.Start? { TicketCount(f, |a.to|); }
  }

  lemma StrandedThroughSess(st: State, t: Ticket, s: Sid, a: SessStep)
    requires Inv(st) && Stranded(st.place, st.sess, t) && s in st.sess && SessEnabled(st.sess[s], a)
    ensures var st' := SessApply(st, s, a); Stranded(st'.place, st'.sess, t)
  {
    var x, x' := st.sess[s], SessNext(st.sess[s], a);
    if Gone(x) {
      GoneOnlyFills(x, a);
    }
    StrandedKept(st.place, st.sess, s, x', t);
    if Moved(x, a).Shared? {
      OwnStepKeepsSession(st.place, s, x, a);
      StrandedElsewhere(st.place, st.sess[s := x'], Moved(x, a).ticket, PlaceAfter(s, a), t);
    }
  }

  lemma StrandedKept(place: Places, sess: Sessions, s: Sid, x: Session, t: Ticket)
    requires Stranded(place, sess, t) && s in sess && (Gone(sess[s]) ==> Gone(x))
    ensures Stranded(place, sess[s := x], t)
  {
  }

  lemma StrandedElsewhere(place: Places, sess: Sessions, u: Ticket, p: Place, t: Ticket)
    requires Stranded(place, sess, t) && u != t
    ensures Stranded(place[u := p], sess, t)
  {
  }

  lemma GoneOnlyFills(x: Session, a: SessStep)
    requires Gone(x) && SessEnabled(x, a)
    ensures a.SendCopy? && Gone(SessNext(x, a))
  {
  }

  // A pinned reference keeps the frame's count above zero in every continuation.
  lemma {:induction false} PinnedForever(st: State, t: Ticket, run: seq<Action>, st': State)
    requires Inv(st) && Stranded(st.place, st.sess, t) && Runs(st, run, st')
    ensures t.f in st'.refs && st'.refs[t.f] >= 1
    decreases |run|
  {
    if run == [] {
      assert t in Outstanding(st.place, t.f);
    } else {
      StepKeepsInv(st, run[0]);
      match run[0] {
        case OfCast(f, x) => StrandedThroughCast(st, t, f, x);
        case OfSess(s, x) => StrandedThroughSess(st, t, s, x);
      }
      PinnedForever(Apply(st, run[0]), t, run[1..], st');
    }
  }

  lemma {:induction false} RunExtends(st: State, run: seq<Action>, m: State, a: Action)
    requires Runs(st, run, m) && Enabled(m, a)
    ensures Runs(st, run + [a], Apply(m, a))
    decreases |run|
  {
    if run == [] {
      assert [a][1..] == [];
      assert Runs(Apply(m, a), [], Apply(m, a));
    } else {
      RunExtends(Apply(st, run[0]), run[1..], m, a);
      assert (run + [a])[1..] == run[1..] + [a];
    }
  }

  lemma {:induction false} Step(st: State, a: Action) returns (st': State)
    requires Reachable(st) && Enabled(st, a)
    ensures Reachable(st') && st' == Apply(st, a)
  {
    var sess, run :| Fresh(sess) && Runs(Init(sess), run, st);
    RunExtends(Init(sess), run, st, a);
    assert Runs(Init(sess), run + [a], Apply(st, a));
    st' := Apply(st, a);
  }

  const Plain: Options := Options(1, 0.0, true, false)

  // Frame 0 is on its way into the queue of session 0.
  lemma DemoSending() returns (st: State)
    ensures Reachable(st) && st.casts == map[0 := Cast([0, 1], 0, Sending)]
    ensures st.sess == map[0 := Session(Plain, [], Waiting, Open), 1 := Session(Plain, [], Waiting, Open)]
  {
    var x := Session(Plain, [], Waiting, Open);
    var sess := map[0 := x, 1 := x];
    st := Init(sess);
    assert Fresh(sess) && Runs(Init(sess), [], st);
    st := Step(st, OfCast(0, Start([0, 1])));
    st := Step(st, OfCast(0, CheckState));
    st := Step(st, OfCast(0, CheckWater));
  }

  // A close that runs between SendShared's state check and its select strands the entry:
  // the count of that frame never returns to zero.
  lemma LateEnqueueLeaks() returns (st: State)
    ensures Reachable(st) && Stranded(st.place, st.sess, Ticket(0, 0)) && st.place[Ticket(0, 0)] == Queued(0)
  {
    st := DemoSending();
    st := Step(st, OfSess(0, Mark));
    st := Step(st, OfSess(0, Cancel));
    st := Step(st, OfSess(0, SeeDone));
    st := Step(st, OfSess(0, DropEmpty));
    st := Step(st, OfCast(0, Enqueue));
  }

  // A failed SetWriteDeadline abandons the entry that woke the write loop.
  lemma DeadlineFailureLeaks() returns (st: State)
    ensures Reachable(st) && Stranded(st.place, st.sess, Ticket(0, 0)) && st.place[Ticket(0, 0)] == Dropped
  {
    st := DemoSending();
    st := Step(st, OfCast(0, Enqueue));
    st := Step(st, OfSess(0, Receive));
    st := Step(st, OfSess(0, DeadlineFails));
  }

  // ------------------------------------------------- when no reference leaks

  predicate InQueue(x: Session, f: Frame) {
    exists i :: 0 <= i < |x.queue| && x.queue[i].Shared? && x.queue[i].ticket.f == f
  }

  // The write loop ends with this step.
  predicate Exits(x: Session, a: SessStep)
    requires SessEnabled(x, a)
  {
    !x.writer.Exited? && SessNext(x, a).writer.Exited?
  }

  // The steps that strand a reference of f: it is enqueued to a session that is gone, a
  // failing deadline abandons it, or the write loop ends after Close's drain and leaves it
  // in the queue.
  predicate Strands(st: State, a: Action, f: Frame)
    requires Enabled(st, a)
  {
    match a
    case OfCast(g, x) => g == f && x.Enqueue? && Gone(Target(st, f))
    case OfSess(s, x) =>
      || (x.DeadlineFails? && Moved(st.sess[s], x).Shared? && Moved(st.sess[s], x).ticket.f == f)
      || (Exits(st.sess[s], x) && st.sess[s].closer.Closed? && InQueue(st.sess[s], f))
  }

  ghost predicate StrandedDuring(st: State, run: seq<Action>, f: Frame)
    decreases |run|
  {
    run != [] && Enabled(st, run[0]) && (Strands(st, run[0], f) || StrandedDuring(Apply(st, run[0]), run[1..], f))
  }

  // No reference of f is stranded.
  predicate Clean(place: Places, sess: Sessions, f: Frame) {
    && (forall t :: t in place && t.f == f ==> !place[t].Dropped?)
    && (forall t :: t in place && t.f == f && place[t].Queued? && place[t].s in sess ==> !Gone(sess[place[t].s]))
  }

  lemma CleanCast(st: State, g: Frame, a: CastStep, f: Frame)
    requires Inv(st) && Clean(st.place, st.sess, f) && CastEnabled(st, g, a) && !Strands(st, OfCast(g, a), f)
    ensures var st' := CastApply(st, g, a); Clean(st'.place, st'.sess, f)
  {
    match a
    case Start(to) =>
      TicketCount(g, |to|);
      CleanStart(st.place, st.sess, NewTickets(g, |to|), f);
    case Enqueue =>
      var c := st.casts[g];
      CleanEnqueue(st.place, st.sess, Ticket(g, c.next), c.to[c.next], f);
    case Reject => CleanPlace(st.place, st.sess, Ticket(g, st.casts[g].next), Released, f);
    case _ =>
  }

  lemma CleanStart(place: Places, sess: Sessions, added: Places, f: Frame)
    requires Clean(place, sess, f) && forall t :: t in added ==> added[t].Unoffered?
    ensures Clean(place + added, sess, f)
  {
  }

  lemma CleanEnqueue(place: Places, sess: Sessions, t: Ticket, s: Sid, f: Frame)
    requires Clean(place, sess, f) && s in sess && (t.f == f ==> !Gone(sess[s]))
    ensures Clean(place[t := Queued(s)], sess[s := sess[s].(queue := sess[s].queue + [Shared(t)])], f)
  {
  }

  lemma CleanSess(st: State, s: Sid, a: SessStep, f: Frame)
    requires Inv(st) && Clean(st.place, st.sess, f) && s in st.sess && SessEnabled(st.sess[s], a)
    requires !Strands(st, OfSess(s, a), f)
    ensures var st' := SessApply(st, s, a); Clean(st'.place, st'.sess, f)
  {
    var x, x' := st.sess[s], SessNext(st.sess[s], a);
    if Gone(x') && !Gone(x) {
      NothingLeft(st.place, s, x, a, f);
    }
    CleanMove(st.place, st.sess, s, x', f);
    if Moved(x, a).Shared? {
      OwnStepKeepsSession(st.place, s, x, a);
      CleanPlace(st.place, st.sess[s := x'], Moved(x, a).ticket, PlaceAfter(s, a), f);
    }
  }

  // A session that is gone after the step has no reference of f in its queue.
  lemma NothingLeft(place: Places, s: Sid, x: Session, a: SessStep, f: Frame)
    requires SessInv(place, s, x) && SessEnabled(x, a) && Gone(SessNext(x, a)) && !Gone(x)
    requires !(Exits(x, a) && x.closer.Closed? && InQueue(x, f))
    ensures forall t :: t in place && t.f == f ==> place[t] != Queued(s)
  {
    forall t | t in place && t.f == f ensures place[t] != Queued(s) {
      FoundInQueue(x, t);
    }
  }

  lemma FoundInQueue(x: Session, t: Ticket)
    ensures Shared(t) in x.queue ==> InQueue(x, t.f)
  {
  }

  lemma CleanMove(place: Places, sess: Sessions, s: Sid, x: Session, f: Frame)
    requires Clean(place, sess, f) && s in sess
    requires Gone(x) && !Gone(sess[s]) ==> forall t :: t in place && t.f == f ==> place[t] != Queued(s)
    ensures Clean(place, sess[s := x], f)
  {
  }

  lemma CleanPlace(place: Places, sess: Sessions, t: Ticket, p: Place, f: Frame)
    requires Clean(place, sess, f) && !p.Queued? && !(p.Dropped? && t.f == f)
    ensures Clean(place[t := p], sess, f)
  {
  }

  lemma {:induction false} CleanRun(st: State, run: seq<Action>, st': State, f: Frame)
    requires Inv(st) && Clean(st.place, st.sess, f) && Runs(st, run, st') && !StrandedDuring(st, run, f)
    ensures Inv(st') && Clean(st'.place, st'.sess, f)
    decreases |run|
  {
    if run != [] {
      StepKeepsInv(st, run[0]);
      match run[0] {
        case OfCast(g, x) => CleanCast(st, g, x, f);
        case OfSess(s, x) => CleanSess(st, s, x, f);
      }
      CleanRun(Apply(st, run[0]), run[1..], st', f);
    }
  }

  lemma StepStrands(st: State, a: Action, f: Frame) returns (t: Ticket)
    requires Inv(st) && Enabled(st, a) && Strands(st, a, f)
    ensures var st' := Apply(st, a); t.f == f && Stranded(st'.place, st'.sess, t)
  {
    match a
    case OfCast(g, x) => t := Ticket(f, st.casts[f].next);
    case OfSess(s, x) =>
      if x.DeadlineFails? && Moved(st.sess[s], x).Shared? && Moved(st.sess[s], x).ticket.f == f {
        t := Moved(st.sess[s], x).ticket;
      } else {
        t := ExitStrands(st, s, x, f);
      }
  }

  lemma ExitStrands(st: State, s: Sid, a: SessStep, f: Frame) returns (t: Ticket)
    requires Inv(st) && s in st.sess && SessEnabled(st.sess[s], a)
    requires Exits(st.sess[s], a) && st.sess[s].closer.Closed? && InQueue(st.sess[s], f)
    ensures var st' := SessApply(st, s, a); t.f == f && Stranded(st'.place, st'.sess, t)
  {
    var x := st.sess[s];
    var i :| 0 <= i < |x.queue| && x.queue[i].Shared? && x.queue[i].ticket.f == f;
    t := x.queue[i].ticket;
    assert Shared(t) in x.queue;
    assert st.place[t] == Queued(s);
    if Moved(x, a).Shared? {
      OwnStepKeepsSession(st.place, s, x, a);
      assert Holds(x, Moved(x, a));
    }
  }

  lemma {:induction false} StrandedStays(st: State, run: seq<Action>, st': State, f: Frame)
    requires Inv(st) && Runs(st, run, st') && StrandedDuring(st, run, f)
    ensures f in st'.refs && st'.refs[f] >= 1
    decreases |run|
  {
    StepKeepsInv(st, run[0]);
    if Strands(st, run[0], f) {
      var t := StepStrands(st, run[0], f);
      PinnedForever(Apply(st, run[0]), t, run[1..], st');
    } else {
      StrandedStays(Apply(st, run[0]), run[1..], st', f);
    }
  }

  // Nothing is under way: the session is gone, or its queue is empty and neither its write
  // loop nor its close has an entry in hand. The loop may wait, in the select or in vain.
  predicate AtRest(x: Session) {
    Gone(x) || (x.queue == [] && !x.writer.Got? && !x.writer.Writing? && !x.closer.Dropping?)
  }

  lemma NothingRemains(st: State, f: Frame)
    requires CastInv(st.place, st.casts) && WhereInv(st.place, st.sess, st.casts) && Clean(st.place, st.sess, f)
    requires f in st.casts && st.casts[f].next == |st.casts[f].to|
    requires forall s :: s in st.sess ==> AtRest(st.sess[s])
    ensures Outstanding(st.place, f) == {}
  {
    assert forall t :: t in st.place && t.f == f ==>
             !st.place[t].InWriter? && !st.place[t].InCloser? && !st.place[t].Queued?;
  }

  // When the broadcast of f is over and every session is at rest, all references of f have
  // been returned if and only if no step of the run stranded one.
  lemma ReturnedIffNoneStranded(sess: Sessions, run: seq<Action>, st: State, f: Frame)
    requires Fresh(sess) && Runs(Init(sess), run, st) && f in st.casts
    requires st.casts[f].next == |st.casts[f].to|
    requires forall s :: s in st.sess ==> AtRest(st.sess[s])
    ensures f in st.refs && (st.refs[f] == 0 <==> !StrandedDuring(Init(sess), run, f))
  {
    RunKeepsInv(Init(sess), run, st);
    if StrandedDuring(Init(sess), run, f) {
      StrandedStays(Init(sess), run, st, f);
    } else {
      CleanRun(Init(sess), run, st, f);
      NothingRemains(st, f);
    }
  }

  // ------------------------------------------------- a guard that is enough

  // No enqueue comes after Close's drain, and no deadline fails.
  predicate Calm(st: State, a: Action)
    requires Enabled(st, a)
  {
    match a
    case OfCast(f, x) => x.Enqueue? ==> !Target(st, f).closer.Closed?
    case OfSess(s, x) => !x.DeadlineFails?
  }

  ghost predicate CalmRuns(st: State, run: seq<Action>, st': State)
    decreases |run|
  {
    if run == [] then st == st'
    else Enabled(st, run[0]) && Calm(st, run[0]) && CalmRuns(Apply(st, run[0]), run[1..], st')
  }

  // A drained queue holds no reference any more.
  ghost predicate Drained(sess: Sessions) {
    forall s, f :: s in sess && sess[s].closer.Closed? ==> !InQueue(sess[s], f)
  }

  lemma CalmKeepsDrained(st: State, a: Action)
    requires Drained(st.sess) && Enabled(st, a) && Calm(st, a)
    ensures Drained(Apply(st, a).sess)
  {
    match a
    case OfCast(f, x) =>
    case OfSess(s, x) => DrainedStep(st.sess[s], x);
  }

  lemma DrainedStep(x: Session, a: SessStep)
    requires SessEnabled(x, a) && (x.closer.Closed? ==> forall f :: !InQueue(x, f))
    ensures SessNext(x, a).closer.Closed? ==> forall f :: !InQueue(SessNext(x, a), f)
  {
    var x' := SessNext(x, a);
    forall f | x'.closer.Closed? ensures !InQueue(x', f) {
      if x.closer.Closed? {
        assert !InQueue(x, f);
      }
    }
  }

  lemma {:induction false} CalmStrandsNothing(st: State, run: seq<Action>, st': State, f: Frame)
    requires Drained(st.sess) && CalmRuns(st, run, st')
    ensures Runs(st, run, st') && !StrandedDuring(st, run, f)
    decreases |run|
  {
    if run != [] {
      CalmKeepsDrained(st, run[0]);
      CalmStrandsNothing(Apply(st, run[0]), run[1..], st', f);
    }
  }

  // On such a run every reference is back once all is at rest, however Close and the
  // broadcasters interleave otherwise.
  lemma CalmRunsReturnEverything(sess: Sessions, run: seq<Action>, st: State, f: Frame)
    requires Fresh(sess) && CalmRuns(Init(sess), run, st) && f in st.casts
    requires st.casts[f].next == |st.casts[f].to|
    requires forall s :: s in st.sess ==> AtRest(st.sess[s])
    ensures f in st.refs && st.refs[f] == 0
  {
    CalmStrandsNothing(Init(sess), run, st, f);
    ReturnedIffNoneStranded(sess, run, st, f);
  }

  // ------------------------------------------------- a write loop that waits in vain

  // Close has drained the queue between the write loop's look at its length and the receive.
  predicate Stuck(x: Session) { x.writer.BatchReceiving? && x.queue == [] && x.closer.Closed? }

  // An entry is put into the queue of session s.
  predicate Enqueues(st: State, a: Action, s: Sid)
    requires Enabled(st, a)
  {
    match a
    case OfCast(f, x) => x.Enqueue? && st.casts[f].to[st.casts[f].next] == s
    case OfSess(r, x) => r == s && x.SendCopy?
  }

  ghost predicate EnqueuedDuring(st: State, run: seq<Action>, s: Sid)
    decreases |run|
  {
    run != [] && Enabled(st, run[0]) && (Enqueues(st, run[0], s) || EnqueuedDuring(Apply(st, run[0]), run[1..], s))
  }

  // Nothing but a late enqueue wakes it.
  lemma {:induction false} StuckUntilEnqueued(st: State, run: seq<Action>, st': State, s: Sid)
    requires s in st.sess && Stuck(st.sess[s]) && Runs(st, run, st') && !EnqueuedDuring(st, run, s)
    ensures s in st'.sess && Stuck(st'.sess[s])
    decreases |run|
  {
    if run != [] {
      StuckUntilEnqueued(Apply(st, run[0]), run[1..], st', s);
    }
  }

  const Buffered: Options := Options(2, 0.0, false, true)

  lemma WriteLoopLooks() returns (st: State)
    ensures Reachable(st) && 0 in st.sess && st.sess[0] == Session(Buffered, [Copy], BatchReceiving, Open)
  {
    var sess := map[0 := Session(Buffered, [], Waiting, Open)];
    st := Init(sess);
    assert Fresh(sess) && Runs(Init(sess), [], st);
    st := SessionStep(st, SendCopy, Session(Buffered, [Copy], Waiting, Open));
    st := SessionStep(st, SendCopy, Session(Buffered, [Copy, Copy], Waiting, Open));
    st := SessionStep(st, Receive, Session(Buffered, [Copy], Got(Copy), Open));
    st := SessionStep(st, DeadlineOk, Session(Buffered, [Copy], Writing(Copy), Open));
    st := SessionStep(st, Write(true), Session(Buffered, [Copy], Batching, Open));
    st := SessionStep(st, QueueMore, Session(Buffered, [Copy], BatchReceiving, Open));
  }

  // And it happens: two copies are sent, the first is written, the second seen, then Close
  // takes it away.
  lemma WriteLoopGetsStuck() returns (st: State)
    ensures Reachable(st) && 0 in st.sess && Stuck(st.sess[0])
  {
    st := WriteLoopLooks();
    st := SessionStep(st, Mark, Session(Buffered, [Copy], BatchReceiving, Marked));
    st := SessionStep(st, Cancel, Session(Buffered, [Copy], BatchReceiving, Draining));
    st := SessionStep(st, DropOne, Session(Buffered, [], BatchReceiving, Dropping(Copy)));
    st := SessionStep(st, DropRelease, Session(Buffered, [], BatchReceiving, Draining));
    st := SessionStep(st, DropEmpty, Session(Buffered, [], BatchReceiving, Closed));
  }

  lemma SessionStep(st: State, a: SessStep, x: Session) returns (st': State)
    requires Reachable(st) && 0 in st.sess && SessEnabled(st.sess[0], a) && x == SessNext(st.sess[0], a)
    ensures Reachable(st') && 0 in st'.sess && st'.sess[0] == x
  {
    st' := Step(st, OfSess(0, a));
  }
}
