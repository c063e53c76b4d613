/**
 * How the CoAP server treats one message after another (handleCoAPMessage and what it
 * calls, internal/transport/coap/server.go): acknowledgements and resets, pings,
 * deduplication of confirmable requests, refusal of Block1 uploads, observe registration,
 * plugins, the user's handler, and the recorded response (section 4.5 of RFC 7252).
 *
 * A request is taken in three steps, because plugins and the handler are user code and
 * anything may happen meanwhile: Receive up to the plugins, Plugins up to the handler,
 * Return with what the handler gave. Between any two steps the dedup table may be cleared,
 * a session may be closed, and the rest of the server may change observers and pending
 * notifications. Nothing is sent on a closed session.
 */
module CoapServer {
  import opened Basics
  import opened Bytes
  import opened CoapMessage
  import Blockwise
  import Observe
  import Retransmit

  type Key = Retransmit.Key
  type Text = Observe.Text

  const CON := 0
  const NON := 1
  const ACK := 2
  const RST := 3
  const GET: Byte := 1
  const OBSERVE := 6
  const BLOCK2 := 23
  const BLOCK1 := 27
  const CONTENT: Byte := 69
  const BAD_OPTION: Byte := 130
  const TOO_LARGE: Byte := 141
  const INTERNAL_ERROR: Byte := 160

  datatype Config = Config(maxBlock: int, responder: bool, handler: bool)

  // A notification waiting for its acknowledgement.
  datatype Notice = Notice(token: Text, pending: Retransmit.Pending)

  // When and for whom a dedup entry was made: the number of clears before it, and the key.
  datatype Birth = Birth(epoch: nat, key: Key)

  // A request between Receive and its response. `entry` numbers its dedup entry; `open`
  // says whether a response gets out: its session is open and the write does not fail.
  datatype Call = Call(remote: Text, req: Message, entry: Option<nat>, observing: bool, running: bool, open: bool)

  // A start of the user's handler.
  datatype Start = Start(entry: Option<nat>, remote: Text, req: Message)

  // A message sent; `entry` if it is the response of a request with that dedup entry.
  datatype Sent = Sent(remote: Text, data: seq<Byte>, entry: Option<nat>)

  datatype State = State(
    seen: map<Key, nat>,                    // the dedup table
    epoch: nat,                             // how often it was cleared
    born: seq<Birth>,                       // every dedup entry ever made ...
    resp: seq<Option<seq<Byte>>>,           // ... and the response recorded in it
    calls: map<nat, Call>,
    next: nat,
    rel: Observe.Relations,
    pending: map<Key, Notice>,
    // history
    handled: seq<Start>,
    shut: set<nat>,                         // entries whose response could not get out
    sent: seq<Sent>,                        // what was sent, except ...
    replayed: seq<(Text, seq<Byte>)>)       // ... the answers to duplicates

  // How a request's session is closed on its behalf: a DTLS session by itself, a UDP session
  // with its relations, or not at all, because another closer has already taken a UDP
  // session off the table (and closes it sooner or later).
  datatype Closing = Dtls | Udp | Taken

  datatype Verdict = Pass | Drop | Refuse(how: Closing)
  datatype Outcome = Answer(payload: seq<Byte>) | Failed(how: Closing)
  datatype Action =
    | Receive(remote: Text, m: Message, open: bool)
    | Plugins(call: nat, verdict: Verdict)
    | Return(call: nat, outcome: Outcome)
    | Shut(call: nat)                       // another closer closes its session, or its write will fail
    | Clear
    | Elsewhere(rel: Observe.Relations, pending: map<Key, Notice>)

  // ------------------------------------------------------------------ messages sent

  function Reply(req: Message, code: Byte, options: Options, payload: seq<Byte>): Message {
    Message(ACK, code, req.id, req.token, options, payload)
  }

  function ResponseCode(code: Byte): Byte {
    if code == 2 then 65 else if code == 3 then 68 else if code == 4 then 66 else CONTENT
  }

  // A message as Parse delivers it.
  predicate Decoded(m: Message) { Typed(m) && m.typ <= 3 && |m.token| <= 8 }

  lemma ParsedIsDecoded(data: seq<Byte>)
    requires Parse(data).Ok?
    ensures Decoded(Parse(data).value)
  {
    ParsedOptions(data[4 + data[0] % 16..], 0, map[], |data|);
  }

  ghost function Wire(m: Message): seq<Byte>
    requires Decoded(m)
  {
    Marshal(m).value
  }

  // encodeObserveSeq: one, two or three bytes; from 2^24 on the high byte is lost.
  function SeqBytes(n: nat): seq<Byte> {
    if n <= 0xff then [n]
    else if n <= 0xffff then [n / 256, n % 256]
    else [n / 0x1_0000 % 256, n / 256 % 256, n % 256]
  }

  lemma Digits(a: Byte, b: Byte, c: Byte)
    ensures Value([c]) == c as int && Value([b, c]) == b as int * 256 + c as int
    ensures Value([a, b, c]) == a as int * 0x1_0000 + b as int * 256 + c as int
  {
    var none: seq<Byte> := [];
    assert none + [a] == [a] && none + [b] == [b] && none + [c] == [c];
    assert [b] + [c] == [b, c] && [a] + [b] == [a, b] && [a, b] + [c] == [a, b, c];
    Blockwise.ValueOfAppend(none, a);
    Blockwise.ValueOfAppend(none, b);
    Blockwise.ValueOfAppend(none, c);
    Blockwise.ValueOfAppend([b], c);
    Blockwise.ValueOfAppend([a], b);
    Blockwise.ValueOfAppend([a, b], c);
  }

  // The observe number on the wire is the sequence number modulo 2^24.
  lemma SeqBytesValue(n: nat)
    requires n < 0x1_0000_0000
    ensures Value(SeqBytes(n)) == n % 0x100_0000
  {
    Digits(n / 0x1_0000 % 256, n / 256 % 256, n % 256);
    if n > 0xffff {
      Split24(n);
    }
  }

  lemma Split24(n: nat)
    ensures n / 0x1_0000 % 256 * 0x1_0000 + n / 256 % 256 * 256 + n % 256 == n % 0x100_0000
  {
    Blockwise.Mod24(n);
    SplitTop(n / 256, n / 0x1_0000);
  }

  lemma SplitTop(h: nat, top: nat)
    requires top == h / 256
    ensures h % 0x1_0000 == top % 256 * 256 + h % 256
  {
  }

  function EmptyAck(id: nat): Message { Message(ACK, 0, id, [], map[], []) }

  // ------------------------------------------------------------------ small steps

  function Send(s: State, remote: Text, data: seq<Byte>, entry: Option<nat>, open: bool): State {
    if open then s.(sent := s.sent + [Sent(remote, data, entry)]) else s
  }

  // setResponse and the send that follows.
  function Respond(s: State, remote: Text, entry: Option<nat>, data: seq<Byte>, open: bool): State
    requires entry.Some? ==> entry.value < |s.resp|
  {
    Send(s.(resp := Record(s.resp, entry, data)), remote, data, entry, open)
  }

  function Record(resp: seq<Option<seq<Byte>>>, entry: Option<nat>, data: seq<Byte>): seq<Option<seq<Byte>>>
    requires entry.Some? ==> entry.value < |resp|
  {
    if entry.Some? then resp[entry.value := Some(data)] else resp
  }

  function Shutting(shut: set<nat>, entry: Option<nat>): set<nat> {
    if entry.Some? then shut + {entry.value} else shut
  }

  function Closed(rel: Observe.Relations, remote: Text, how: Closing): Observe.Relations {
    if how.Udp? then rel - Observe.Held(rel, remote) else rel
  }

  // handleObserve.
  function Observing(rel: Observe.Relations, remote: Text, m: Message): (Observe.Relations, bool) {
    if m.code != GET || OBSERVE !in m.options then (rel, false)
    else
      var v := m.options[OBSERVE];
      var reg := if |v| > 0 then v[0] else 0;
      if reg == 0 then Observe.Registered(rel, m.payload, remote, m.token)
      else if reg == 1 then (Observe.Removed(rel, m.payload, remote, m.token), false)
      else (rel, false)
  }

  // observerSeq: the relation a GET refers to and its next sequence number.
  function NextSeq(rel: Observe.Relations, remote: Text, m: Message): (Observe.Relations, Option<nat>) {
    var p := (m.payload, remote);
    if m.code == GET && p in rel && rel[p].token == m.token then
      (rel[p := rel[p].(seqNo := (rel[p].seqNo + 1) % 0x1_0000_0000)], Some(rel[p].seqNo))
    else (rel, None)
  }

  // ------------------------------------------------------------------ receiving

  function Acked(s: State, key: Key): State { s.(pending := s.pending - {key}) }

  function Reset(s: State, key: Key): State {
    if key !in s.pending then s
    else
      var token := s.pending[key].token;
      var rel := if token == [] then s.rel else s.rel - Observe.WithToken(s.rel, key.remote, token);
      s.(pending := s.pending - {key}, rel := rel)
  }

  // replyToDuplicate: the recorded response, or an empty acknowledgement.
  ghost function Replay(s: State, key: Key): seq<Byte>
    requires key in s.seen && s.seen[key] < |s.resp| && key.msgID < 0x1_0000
  {
    var r := s.resp[s.seen[key]];
    if r.Some? then r.value else Wire(EmptyAck(key.msgID))
  }

  ghost function Duplicate(s: State, key: Key, open: bool): State
    requires key in s.seen && s.seen[key] < |s.resp| && key.msgID < 0x1_0000
  {
    if open then s.(replayed := s.replayed + [(key.remote, Replay(s, key))]) else s
  }

  // LoadOrStore of a fresh entry.
  function Admit(s: State, key: Key, open: bool): State {
    s.(seen := s.seen[key := |s.born|], born := s.born + [Birth(s.epoch, key)], resp := s.resp + [None],
       shut := if open then s.shut else s.shut + {|s.born|})
  }

  ghost function Refusal(m: Message): seq<Byte>
    requires Decoded(m)
  {
    Wire(Reply(m, TOO_LARGE, map[BLOCK1 := Blockwise.Marshal(Blockwise.Block(0, false, 0))], []))
  }

  function Begin(s: State, remote: Text, m: Message, entry: Option<nat>, open: bool): State {
    var (rel, observing) := Observing(s.rel, remote, m);
    s.(rel := rel, calls := s.calls[s.next := Call(remote, m, entry, observing, false, open)], next := s.next + 1)
  }

  ghost function Fresh(s: State, remote: Text, m: Message, open: bool): State
    requires Decoded(m) && |s.resp| == |s.born|
  {
    var key := Retransmit.Key(remote, m.id);
    var s' := if m.typ == CON then Admit(s, key, open) else s;
    var entry := if m.typ == CON then Some(|s.born|) else None;
    if BLOCK1 in m.options then Respond(s', remote, entry, Refusal(m), open) else Begin(s', remote, m, entry, open)
  }

  predicate IsDuplicate(s: State, remote: Text, m: Message) {
    m.typ == CON && m.code != 0 && Retransmit.Key(remote, m.id) in s.seen
  }

  ghost function Ping(s: State, remote: Text, m: Message, open: bool): State
    requires Decoded(m)
  {
    if m.typ == CON then Send(s, remote, Wire(Message(RST, 0, m.id, [], map[], [])), None, open) else s
  }

  ghost function Received(s: State, remote: Text, m: Message, open: bool): State
    requires Decoded(m) && Table(s)
  {
    var key := Retransmit.Key(remote, m.id);
    if m.typ == ACK then Acked(s, key)
    else if m.typ == RST then Reset(s, key)
    else if m.code == 0 then Ping(s, remote, m, open)
    else if IsDuplicate(s, remote, m) then Duplicate(s, key, open)
    else Fresh(s, remote, m, open)
  }

  // ------------------------------------------------------------------ plugins and handler

  ghost function PluginsRan(c: Config, s: State, n: nat, verdict: Verdict): State
    requires n in s.calls && CallOk(s.calls[n], s.resp)
  {
    var call := s.calls[n];
    match verdict
    case Pass =>
      var started := Start(call.entry, call.remote, call.req);
      var handled := if c.responder || c.handler then s.handled + [started] else s.handled;
      s.(calls := s.calls[n := call.(running := true)], handled := handled)
    case Drop => Rejected(s.(calls := s.calls - {n}), call)
    case Refuse(how) => Rejected(Hung(s, n, how), HungUp(call, how))
  }

  // The request is over and its session is to be closed.
  function Hung(s: State, n: nat, how: Closing): State
    requires n in s.calls
  {
    var call := s.calls[n];
    s.(calls := s.calls - {n}, rel := Closed(s.rel, call.remote, how),
       shut := if how.Taken? then s.shut else Shutting(s.shut, call.entry))
  }

  function HungUp(call: Call, how: Closing): Call { if how.Taken? then call else call.(open := false) }

  ghost function Rejected(s: State, call: Call): State
    requires CallOk(call, s.resp)
  {
    if call.req.typ == CON then
      Respond(s, call.remote, call.entry, Wire(Reply(call.req, INTERNAL_ERROR, map[], [])), call.open)
    else s
  }

  ghost function Returned(c: Config, s: State, n: nat, outcome: Outcome): State
    requires n in s.calls && CallOk(s.calls[n], s.resp)
  {
    var call := s.calls[n];
    if outcome.Answer? then Finished(c, s.(calls := s.calls - {n}), call, if c.responder then outcome.payload else [])
    else if c.responder then Hung(s, n, outcome.how)
    else Finished(c, Hung(s, n, outcome.how), HungUp(call, outcome.how), [])
  }

  // The options of the response: the observe number, if any, then the block option, if any.
  function ResponseOptions(seqNo: Option<nat>, part: Blockwise.Reply): Options {
    var observe: Options := if seqNo.Some? then map[OBSERVE := SeqBytes(seqNo.value)] else map[];
    if part.Part? && Blockwise.Typed(part.block) then observe[BLOCK2 := Blockwise.Marshal(part.block)] else observe
  }

  function ResponseMessage(c: Config, req: Message, payload: seq<Byte>, seqNo: Option<nat>): Message {
    var v := if BLOCK2 in req.options then Some(req.options[BLOCK2]) else None;
    var part := Blockwise.Answer(payload, Blockwise.Read(v), c.maxBlock);
    var options := ResponseOptions(seqNo, part);
    match part
    case BadOption => Reply(req, BAD_OPTION, options, [])
    case Whole(body) => Reply(req, ResponseCode(req.code), options, body)
    case Part(chunk, _) => Reply(req, ResponseCode(req.code), options, chunk)
  }

  ghost function Finished(c: Config, s: State, call: Call, payload: seq<Byte>): State
    requires CallOk(call, s.resp)
  {
    var (rel, seqNo) := NextSeq(s.rel, call.remote, call.req);
    if call.req.typ == CON then
      Respond(s.(rel := rel), call.remote, call.entry, Wire(ResponseMessage(c, call.req, payload, seqNo)), call.open)
    else if call.req.typ == NON && call.observing then
      Send(s.(rel := rel), call.remote, FirstNotice(call.req, seqNo, payload), None, call.open)
    else s
  }

  // The first notification of a relation registered by a NON request.
  ghost function FirstNotice(req: Message, seqNo: Option<nat>, payload: seq<Byte>): seq<Byte>
    requires Decoded(req)
  {
    var n := if seqNo.Some? then seqNo.value else 0;
    Wire(Message(NON, CONTENT, req.id, req.token, map[OBSERVE := SeqBytes(n)], payload))
  }

  // ------------------------------------------------------------------ runs

  ghost predicate Enabled(s: State, a: Action) {
    match a
    case Receive(_, m, _) => Decoded(m) && Table(s)
    case Plugins(n, _) => n in s.calls && !s.calls[n].running && CallOk(s.calls[n], s.resp)
    case Return(n, _) => n in s.calls && s.calls[n].running && CallOk(s.calls[n], s.resp)
    case Shut(n) => n in s.calls
    case Clear => true
    case Elsewhere(_, _) => true
  }

  ghost function Apply(c: Config, s: State, a: Action): State
    requires Enabled(s, a)
  {
    match a
    case Receive(remote, m, open) => Received(s, remote, m, open)
    case Plugins(n, verdict) => PluginsRan(c, s, n, verdict)
    case Return(n, outcome) => Returned(c, s, n, outcome)
    case Shut(n) =>
      s.(calls := s.calls[n := s.calls[n].(open := false)], shut := Shutting(s.shut, s.calls[n].entry))
    case Clear => s.(seen := map[], epoch := s.epoch + 1)
    case Elsewhere(rel, pending) => s.(rel := rel, pending := pending)
  }

  function Init(): State { State(map[], 0, [], [], map[], 0, map[], map[], [], {}, [], []) }

  ghost predicate Runs(c: Config, s: State, actions: seq<Action>, s': State)
    decreases |actions|
  {
    if actions == [] then s == s'
    else Enabled(s, actions[0]) && Runs(c, Apply(c, s, actions[0]), actions[1..], s')
  }

  // ------------------------------------------------------------------ what every step keeps

  // The table points at entries of the current epoch, and lists all of them.
  predicate TableOk(seen: map<Key, nat>, epoch: nat, born: seq<Birth>) {
    && (forall k :: k in seen ==> seen[k] < |born| && born[seen[k]] == Birth(epoch, k))
    && (forall e :: 0 <= e < |born| ==> born[e].epoch <= epoch)
    && (forall e :: 0 <= e < |born| && born[e].epoch == epoch ==> born[e].key in seen && seen[born[e].key] == e)
  }

  predicate Distinct(born: seq<Birth>) {
    forall e, e' :: 0 <= e < e' < |born| ==> born[e] != born[e']
  }

  predicate Table(s: State) { TableOk(s.seen, s.epoch, s.born) && |s.resp| == |s.born| }

  predicate CallOk(call: Call, resp: seq<Option<seq<Byte>>>) {
    && Decoded(call.req) && BLOCK1 !in call.req.options && call.req.code != 0
    && (call.entry.Some? <==> call.req.typ == CON)
    && (call.entry.Some? ==> call.entry.value < |resp| && resp[call.entry.value] == None)
  }

  predicate CallsOk(calls: map<nat, Call>, next: nat, resp: seq<Option<seq<Byte>>>) {
    forall n :: n in calls ==> n < next && CallOk(calls[n], resp)
  }

  // No two calls share an entry.
  predicate CallsApart(calls: map<nat, Call>) {
    forall n, n' :: n in calls && n' in calls && n != n' && calls[n].entry.Some? ==> calls[n].entry != calls[n'].entry
  }

  predicate HandledOk(handled: seq<Start>, bound: nat) {
    forall i :: 0 <= i < |handled| ==>
      && BLOCK1 !in handled[i].req.options
      && (handled[i].entry.Some? <==> handled[i].req.typ == CON)
      && (handled[i].entry.Some? ==> handled[i].entry.value < bound)
  }

  predicate OncePerEntry(handled: seq<Start>) {
    forall i, j :: 0 <= i < j < |handled| && handled[i].entry.Some? ==> handled[i].entry != handled[j].entry
  }

  // A call whose handler has not started is not in the history.
  predicate NotYet(calls: map<nat, Call>, handled: seq<Start>) {
    forall n, i :: n in calls && !calls[n].running && calls[n].entry.Some? && 0 <= i < |handled| ==>
      handled[i].entry != calls[n].entry
  }

  // Entries belong to the remote and message ID of their request.
  predicate Owned(calls: map<nat, Call>, handled: seq<Start>, born: seq<Birth>) {
    && (forall n :: n in calls && calls[n].entry.Some? ==>
          calls[n].entry.value < |born| &&
              born[calls[n].entry.value].key == Retransmit.Key(calls[n].remote, calls[n].req.id))
    && (forall i :: 0 <= i < |handled| && handled[i].entry.Some? ==>
          handled[i].entry.value < |born| &&
              born[handled[i].entry.value].key == Retransmit.Key(handled[i].remote, handled[i].req.id))
  }

  // A session is marked as closed for exactly the requests it is closed for.
  predicate ShutOk(calls: map<nat, Call>, shut: set<nat>, bound: nat) {
    && (forall e :: e in shut ==> e < bound)
    && (forall n :: n in calls && calls[n].entry.Some? ==> (calls[n].open <==> calls[n].entry.value !in shut))
  }

  predicate OwnResponse(x: Sent, e: nat, resp: seq<Option<seq<Byte>>>, born: seq<Birth>) {
    e < |resp| && e < |born| && resp[e] == Some(x.data) && x.remote == born[e].key.remote
  }

  // What was sent as the response of an entry is the recorded one, on an open session; and
  // unless the session had closed it was sent.
  predicate SentOk(resp: seq<Option<seq<Byte>>>, born: seq<Birth>, shut: set<nat>, sent: seq<Sent>)
    requires |resp| == |born|
  {
    && (forall i :: 0 <= i < |sent| && sent[i].entry.Some? ==>
          OwnResponse(sent[i], sent[i].entry.value, resp, born) && sent[i].entry.value !in shut)
    && (forall e :: 0 <= e < |resp| && resp[e].Some? && e !in shut ==>
       Sent(born[e].key.remote, resp[e].value, Some(e)) in sent)
  }

  predicate Inv(s: State) {
    && Table(s) && Distinct(s.born) && CallsOk(s.calls, s.next, s.resp) && CallsApart(s.calls)
    && HandledOk(s.handled, |s.born|) && OncePerEntry(s.handled) && NotYet(s.calls, s.handled)
    && Owned(s.calls, s.handled, s.born) && ShutOk(s.calls, s.shut, |s.born|) && SentOk(s.resp, s.born, s.shut, s.sent)
  }

  // ------------------------------------------------------------------ preservation

  lemma SendKeeps(s: State, remote: Text, data: seq<Byte>, open: bool)
    requires Inv(s)
    ensures Inv(Send(s, remote, data, None, open))
  {
  }

  lemma AdmitKeepsTable(seen: map<Key, nat>, epoch: nat, born: seq<Birth>, key: Key)
    requires TableOk(seen, epoch, born) && Distinct(born) && key !in seen
    ensures TableOk(seen[key := |born|], epoch, born + [Birth(epoch, key)]) && Distinct(born + [Birth(epoch, key)])
  {
  }

  lemma AdmitKeeps(s: State, key: Key, open: bool)
    requires Inv(s) && key !in s.seen
    ensures Inv(Admit(s, key, open))
  {
    AdmitKeepsTable(s.seen, s.epoch, s.born, key);
  }

  predicate Free(calls: map<nat, Call>, entry: Option<nat>) {
    forall n :: n in calls && calls[n].entry.Some? ==> calls[n].entry != entry
  }

  predicate Unhandled(handled: seq<Start>, entry: Option<nat>) {
    forall i :: 0 <= i < |handled| && handled[i].entry.Some? ==> handled[i].entry != entry
  }

  lemma BeginKeeps(s: State, remote: Text, m: Message, entry: Option<nat>, open: bool)
    requires Inv(s) && CallOk(Call(remote, m, entry, false, false, open), s.resp)
    requires Free(s.calls, entry) && Unhandled(s.handled, entry)
    requires entry.Some? ==>
               s.born[entry.value].key == Retransmit.Key(remote, m.id) && (open <==> entry.value !in s.shut)
    ensures Inv(Begin(s, remote, m, entry, open))
  {
  }

  lemma RecordKeepsSent(resp: seq<Option<seq<Byte>>>, born: seq<Birth>, shut: set<nat>, sent: seq<Sent>, e: nat,
      data: seq<Byte>, open: bool)
    requires |resp| == |born| && SentOk(resp, born, shut, sent) && e < |resp| && resp[e] == None &&
             (open <==> e !in shut)
    ensures var x := Sent(born[e].key.remote, data, Some(e));
            SentOk(resp[e := Some(data)], born, shut, if open then sent + [x] else sent)
  {
  }

  lemma RespondKeeps(s: State, remote: Text, entry: Option<nat>, data: seq<Byte>, open: bool)
    requires Inv(s) && Free(s.calls, entry)
    requires entry.Some? ==> entry.value < |s.born| && s.born[entry.value].key.remote == remote
                             && s.resp[entry.value] == None && (open <==> entry.value !in s.shut)
    ensures Inv(Respond(s, remote, entry, data, open))
  {
    if entry.Some? {
      RecordKeepsSent(s.resp, s.born, s.shut, s.sent, entry.value, data, open);
    }
  }

  // A request that is over.
  lemma EndCallKeeps(s: State, n: nat)
    requires Inv(s) && n in s.calls
    ensures Inv(s.(calls := s.calls - {n})) && Free(s.calls - {n}, s.calls[n].entry)
  {
  }

  lemma ShutKeepsSent(s: State, e: nat)
    requires Inv(s) && e < |s.born| && s.resp[e] == None
    ensures SentOk(s.resp, s.born, s.shut + {e}, s.sent)
  {
  }

  lemma HungKeeps(s: State, n: nat, how: Closing)
    requires Inv(s) && n in s.calls
    ensures Inv(Hung(s, n, how)) && Free(s.calls - {n}, s.calls[n].entry)
  {
    if s.calls[n].entry.Some? {
      ShutKeepsSent(s, s.calls[n].entry.value);
    }
  }

  lemma ShutKeeps(s: State, n: nat)
    requires Inv(s) && n in s.calls
    ensures Inv(s.(calls := s.calls[n := s.calls[n].(open := false)], shut := Shutting(s.shut, s.calls[n].entry)))
  {
    if s.calls[n].entry.Some? {
      ShutKeepsSent(s, s.calls[n].entry.value);
    }
  }

  lemma StartKeeps(s: State, n: nat, started: bool)
    requires Inv(s) && n in s.calls && !s.calls[n].running
    ensures var call := s.calls[n];
            var handled := if started then s.handled + [Start(call.entry, call.remote, call.req)] else s.handled;
            Inv(s.(calls := s.calls[n := call.(running := true)], handled := handled))
  {
  }

  lemma ClearKeeps(s: State)
    requires Inv(s)
    ensures Inv(s.(seen := map[], epoch := s.epoch + 1))
  {
  }

  lemma FreshKeeps(s: State, remote: Text, m: Message, open: bool)
    requires Inv(s) && Decoded(m) && m.typ < ACK && m.code != 0 && !IsDuplicate(s, remote, m)
    ensures Inv(Fresh(s, remote, m, open))
  {
    var key := Retransmit.Key(remote, m.id);
    var s' := if m.typ == CON then Admit(s, key, open) else s;
    var entry := if m.typ == CON then Some(|s.born|) else None;
    if m.typ == CON {
      AdmitKeeps(s, key, open);
      assert s'.born[|s.born|] == Birth(s.epoch, key);
    }
    assert Free(s'.calls, entry) && Unhandled(s'.handled, entry);
    if BLOCK1 in m.options {
      RespondKeeps(s', remote, entry, Refusal(m), open);
    } else {
      BeginKeeps(s', remote, m, entry, open);
    }
  }

  lemma ReceivedKeeps(s: State, remote: Text, m: Message, open: bool)
    requires Inv(s) && Decoded(m)
    ensures Inv(Received(s, remote, m, open))
  {
    if m.typ < ACK && m.code != 0 {
      if !IsDuplicate(s, remote, m) {
        FreshKeeps(s, remote, m, open);
      }
    } else if m.typ == CON {
      SendKeeps(s, remote, Wire(Message(RST, 0, m.id, [], map[], [])), open);
    }
  }

  lemma RejectedKeeps(s: State, call: Call)
    requires Inv(s) && CallOk(call, s.resp) && Free(s.calls, call.entry)
    requires call.entry.Some? ==>
               s.born[call.entry.value].key.remote == call.remote && (call.open <==> call.entry.value !in s.shut)
    ensures Inv(Rejected(s, call))
  {
    if call.req.typ == CON {
      RespondKeeps(s, call.remote, call.entry, Wire(Reply(call.req, INTERNAL_ERROR, map[], [])), call.open);
    }
  }

  lemma PluginsKeep(c: Config, s: State, n: nat, verdict: Verdict)
    requires Inv(s) && n in s.calls && !s.calls[n].running
    ensures Inv(PluginsRan(c, s, n, verdict))
  {
    match verdict
    case Pass => StartKeeps(s, n, c.responder || c.handler);
    case Drop =>
      EndCallKeeps(s, n);
      RejectedKeeps(s.(calls := s.calls - {n}), s.calls[n]);
    case Refuse(how) =>
      HungKeeps(s, n, how);
      RejectedKeeps(Hung(s, n, how), HungUp(s.calls[n], how));
  }

  lemma FinishedKeeps(c: Config, s: State, call: Call, payload: seq<Byte>)
    requires Inv(s) && CallOk(call, s.resp) && Free(s.calls, call.entry)
    requires call.entry.Some? ==>
               s.born[call.entry.value].key.remote == call.remote && (call.open <==> call.entry.value !in s.shut)
    ensures Inv(Finished(c, s, call, payload))
  {
    var (rel, seqNo) := NextSeq(s.rel, call.remote, call.req);
    if call.req.typ == CON {
      var data := Wire(ResponseMessage(c, call.req, payload, seqNo));
      RespondKeeps(s.(rel := rel), call.remote, call.entry, data, call.open);
    } else {
      SendKeeps(s.(rel := rel), call.remote, FirstNotice(call.req, seqNo, payload), call.open);
    }
  }

  lemma ReturnedKeeps(c: Config, s: State, n: nat, outcome: Outcome)
    requires Inv(s) && n in s.calls
    ensures Inv(Returned(c, s, n, outcome))
  {
    var call := s.calls[n];
    if outcome.Answer? {
      EndCallKeeps(s, n);
      FinishedKeeps(c, s.(calls := s.calls - {n}), call, if c.responder then outcome.payload else []);
    } else {
      HungKeeps(s, n, outcome.how);
      if !c.responder {
        FinishedKeeps(c, Hung(s, n, outcome.how), HungUp(call, outcome.how), []);
      }
    }
  }

  lemma StepKeeps(c: Config, s: State, a: Action)
    requires Inv(s) && Enabled(s, a)
    ensures Inv(Apply(c, s, a))
  {
    match a
    case Receive(remote, m, open) => ReceivedKeeps(s, remote, m, open);
    case Plugins(n, verdict) => PluginsKeep(c, s, n, verdict);
    case Return(n, outcome) => ReturnedKeeps(c, s, n, outcome);
    case Shut(n) => ShutKeeps(s, n);
    case Clear => ClearKeeps(s);
    case Elsewhere(_, _) =>
  }

  lemma {:induction false} RunKeeps(c: Config, s: State, actions: seq<Action>, s': State)
    requires Inv(s) && Runs(c, s, actions, s')
    ensures Inv(s')
    decreases |actions|
  {
    if actions != [] {
      StepKeeps(c, s, actions[0]);
      RunKeeps(c, Apply(c, s, actions[0]), actions[1..], s');
    }
  }
}
