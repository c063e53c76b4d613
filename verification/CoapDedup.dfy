/**
 * What the CoAP server promises about repeated requests (section 4.5 of RFC 7252), over
 * every run of CoapServer: the handler starts once, duplicates are answered with the
 * recorded response and change nothing else.
 */
module CoapDedup {
  import opened Basics
  import opened Bytes
  import opened CoapMessage
  import opened CoapServer
  import Retransmit

  // Over every run, the handler starts at most once for all the confirmable requests that
  // one remote sent with one message ID and that were taken in between two clears of the
  // table; and it never sees a Block1 request.
  lemma HandlerRunsOnce(c: Config, actions: seq<Action>, s: State)
    requires Runs(c, Init(), actions, s)
    ensures forall i :: 0 <= i < |s.handled| ==> BLOCK1 !in s.handled[i].req.options
    ensures forall i :: 0 <= i < |s.handled| && s.handled[i].req.typ == CON ==>
              var e := s.handled[i].entry;
              e.Some? && e.value < |s.born| &&
                  s.born[e.value].key == Retransmit.Key(s.handled[i].remote, s.handled[i].req.id)
    ensures forall i, j :: 0 <= i < j < |s.handled| && s.handled[i].req.typ == CON && s.handled[j].req.typ == CON ==>
              s.born[s.handled[i].entry.value] != s.born[s.handled[j].entry.value]
  {
    RunKeeps(c, Init(), actions, s);
  }

  // ------------------------------------------------------------------ duplicates

  ghost predicate Repeats(s: State, a: Action) {
    a.Receive? && Decoded(a.m) && Table(s) && IsDuplicate(s, a.remote, a.m)
  }

  // A run without its repeated requests.
  ghost function Without(c: Config, s: State, actions: seq<Action>): seq<Action>
    decreases |actions|
  {
    if actions == [] || !Enabled(s, actions[0]) then []
    else if Repeats(s, actions[0]) then Without(c, Apply(c, s, actions[0]), actions[1..])
    else [actions[0]] + Without(c, Apply(c, s, actions[0]), actions[1..])
  }

  lemma RespondIgnoresReplays(s: State, remote: Text, entry: Option<nat>, data: seq<Byte>, open: bool,
      r: seq<(Text, seq<Byte>)>)
    requires entry.Some? ==> entry.value < |s.resp|
    ensures Respond(s.(replayed := r), remote, entry, data, open) ==
            Respond(s, remote, entry, data, open).(replayed := r)
  {
  }

  lemma BeginIgnoresReplays(s: State, remote: Text, m: Message, entry: Option<nat>, open: bool,
      r: seq<(Text, seq<Byte>)>)
    ensures Begin(s.(replayed := r), remote, m, entry, open) == Begin(s, remote, m, entry, open).(replayed := r)
  {
  }

  lemma FreshIgnoresReplays(s: State, remote: Text, m: Message, open: bool, r: seq<(Text, seq<Byte>)>)
    requires Decoded(m) && |s.resp| == |s.born|
    ensures Fresh(s.(replayed := r), remote, m, open) == Fresh(s, remote, m, open).(replayed := r)
  {
    var key := Retransmit.Key(remote, m.id);
    var s' := if m.typ == CON then Admit(s, key, open) else s;
    var entry := if m.typ == CON then Some(|s.born|) else None;
    if BLOCK1 in m.options {
      RespondIgnoresReplays(s', remote, entry, Refusal(m), open, r);
    } else {
      BeginIgnoresReplays(s', remote, m, entry, open, r);
    }
  }

  lemma ReceiveIgnoresReplays(s: State, remote: Text, m: Message, open: bool, r: seq<(Text, seq<Byte>)>)
    requires Decoded(m) && Table(s) && !IsDuplicate(s, remote, m)
    ensures Received(s.(replayed := r), remote, m, open) == Received(s, remote, m, open).(replayed := r)
  {
    if m.typ < ACK && m.code != 0 {
      FreshIgnoresReplays(s, remote, m, open, r);
    }
  }

  lemma FinishIgnoresReplays(c: Config, s: State, call: Call, payload: seq<Byte>, r: seq<(Text, seq<Byte>)>)
    requires CallOk(call, s.resp)
    ensures Finished(c, s.(replayed := r), call, payload) == Finished(c, s, call, payload).(replayed := r)
  {
  }

  lemma ReturnIgnoresReplays(c: Config, s: State, n: nat, outcome: Outcome, r: seq<(Text, seq<Byte>)>)
    requires n in s.calls && CallOk(s.calls[n], s.resp)
    ensures Returned(c, s.(replayed := r), n, outcome) == Returned(c, s, n, outcome).(replayed := r)
  {
    var call := s.calls[n];
    if outcome.Answer? {
      FinishIgnoresReplays(c, s.(calls := s.calls - {n}), call, if c.responder then outcome.payload else [], r);
    } else if !c.responder {
      FinishIgnoresReplays(c, Hung(s, n, outcome.how), HungUp(call, outcome.how), [], r);
    }
  }

  lemma PluginsIgnoreReplays(c: Config, s: State, n: nat, verdict: Verdict, r: seq<(Text, seq<Byte>)>)
    requires n in s.calls && CallOk(s.calls[n], s.resp)
    ensures PluginsRan(c, s.(replayed := r), n, verdict) == PluginsRan(c, s, n, verdict).(replayed := r)
  {
  }

  lemma StepIgnoresReplays(c: Config, s: State, a: Action, r: seq<(Text, seq<Byte>)>)
    requires Enabled(s, a) && !Repeats(s, a)
    ensures Enabled(s.(replayed := r), a) && Apply(c, s.(replayed := r), a) == Apply(c, s, a).(replayed := r)
  {
    match a
    case Receive(remote, m, open) => ReceiveIgnoresReplays(s, remote, m, open, r);
    case Plugins(n, verdict) => PluginsIgnoreReplays(c, s, n, verdict, r);
    case Return(n, outcome) => ReturnIgnoresReplays(c, s, n, outcome, r);
    case _ =>
  }

  lemma RepeatOnlyReplays(c: Config, s: State, a: Action)
    requires Repeats(s, a)
    ensures Enabled(s, a) && Apply(c, s, a).(replayed := s.replayed) == s
  {
  }

  // Leave all repetitions out of a run and it ends in the same state, apart from the
  // answers to them: the same handler starts, responses, relations, sequence numbers and
  // pending notifications.
  lemma {:induction false} DuplicatesAreInert(c: Config, s: State, actions: seq<Action>, s': State,
      r: seq<(Text, seq<Byte>)>)
    requires Runs(c, s, actions, s')
    ensures Runs(c, s.(replayed := r), Without(c, s, actions), s'.(replayed := r))
    decreases |actions|
  {
    if actions != [] {
      var a, next := actions[0], Apply(c, s, actions[0]);
      var rest := Without(c, next, actions[1..]);
      DuplicatesAreInert(c, next, actions[1..], s', r);
      if Repeats(s, a) {
        RepeatOnlyReplays(c, s, a);
        assert next.(replayed := r) == s.(replayed := r);
      } else {
        StepIgnoresReplays(c, s, a, r);
        assert ([a] + rest)[0] == a && ([a] + rest)[1..] == rest;
      }
    }
  }

  predicate NoClear(actions: seq<Action>) {
    forall i :: 0 <= i < |actions| ==> !actions[i].Clear?
  }

  // Entries stay in the table, and what is recorded in them stays as it is.
  predicate Extends(s: State, s': State) {
    && (forall k :: k in s.seen ==> k in s'.seen && s'.seen[k] == s.seen[k])
    && |s.resp| <= |s'.resp|
    && (forall e :: 0 <= e < |s.resp| && s.resp[e].Some? ==> s'.resp[e] == s.resp[e])
  }

  lemma FreshExtends(s: State, remote: Text, m: Message, open: bool)
    requires Inv(s) && Decoded(m) && !(m.typ == CON && Retransmit.Key(remote, m.id) in s.seen)
    ensures Extends(s, Fresh(s, remote, m, open))
  {
  }

  lemma ReceivedExtends(s: State, remote: Text, m: Message, open: bool)
    requires Inv(s) && Decoded(m)
    ensures Extends(s, Received(s, remote, m, open))
  {
    if m.typ < ACK && m.code != 0 && !IsDuplicate(s, remote, m) {
      FreshExtends(s, remote, m, open);
    }
  }

  lemma PluginsExtend(c: Config, s: State, n: nat, verdict: Verdict)
    requires Inv(s) && n in s.calls
    ensures Extends(s, PluginsRan(c, s, n, verdict))
  {
  }

  lemma FinishedExtends(c: Config, s: State, call: Call, payload: seq<Byte>)
    requires CallOk(call, s.resp)
    ensures Extends(s, Finished(c, s, call, payload))
  {
  }

  lemma ReturnedExtends(c: Config, s: State, n: nat, outcome: Outcome)
    requires Inv(s) && n in s.calls
    ensures Extends(s, Returned(c, s, n, outcome))
  {
    var call := s.calls[n];
    if outcome.Answer? {
      FinishedExtends(c, s.(calls := s.calls - {n}), call, if c.responder then outcome.payload else []);
    } else if !c.responder {
      FinishedExtends(c, Hung(s, n, outcome.how), HungUp(call, outcome.how), []);
    }
  }

  lemma StepExtends(c: Config, s: State, a: Action)
    requires Inv(s) && Enabled(s, a) && !a.Clear?
    ensures Extends(s, Apply(c, s, a))
  {
    match a
    case Receive(remote, m, open) => ReceivedExtends(s, remote, m, open);
    case Plugins(n, verdict) => PluginsExtend(c, s, n, verdict);
    case Return(n, outcome) => ReturnedExtends(c, s, n, outcome);
    case _ =>
  }

  lemma {:induction false} RunExtends(c: Config, s: State, actions: seq<Action>, s': State)
    requires Inv(s) && Runs(c, s, actions, s') && NoClear(actions)
    ensures Inv(s') && Extends(s, s')
    decreases |actions|
  {
    if actions != [] {
      StepKeeps(c, s, actions[0]);
      StepExtends(c, s, actions[0]);
      RunExtends(c, Apply(c, s, actions[0]), actions[1..], s');
    }
  }

  // What is recorded for a request: a response once there is one, an empty acknowledgement
  // until then.
  ghost function Recorded(s: State, remote: Text, m: Message): seq<Byte>
    requires Inv(s) && Decoded(m) && IsDuplicate(s, remote, m)
  {
    var r := s.resp[s.seen[Retransmit.Key(remote, m.id)]];
    if r.Some? then r.value else Wire(EmptyAck(m.id))
  }

  // Once a response is recorded, every repetition until the next clear is answered with
  // exactly those bytes, whatever happens in between; one that comes before the response is
  // recorded is answered with an empty acknowledgement.
  lemma ReplaysTheSameBytes(c: Config, before: seq<Action>, s: State, between: seq<Action>, s': State,
                            remote: Text, m: Message)
    requires Runs(c, Init(), before, s) && Runs(c, s, between, s') && NoClear(between)
    requires Decoded(m) && IsDuplicate(s, remote, m)
    ensures Inv(s) && Inv(s') && IsDuplicate(s', remote, m)
    ensures var r := s.resp[s.seen[Retransmit.Key(remote, m.id)]];
            r.Some? ==> Recorded(s', remote, m) == r.value
    ensures Apply(c, s', Receive(remote, m, true)) ==
            s'.(replayed := s'.replayed + [(remote, Recorded(s', remote, m))])
  {
    RunKeeps(c, Init(), before, s);
    RunExtends(c, s, between, s');
    Replays(c, s', remote, m);
  }

  lemma Replays(c: Config, s: State, remote: Text, m: Message)
    requires Inv(s) && Decoded(m) && IsDuplicate(s, remote, m)
    ensures Apply(c, s, Receive(remote, m, true)) ==
            s.(replayed := s.replayed + [(remote, Recorded(s, remote, m))])
  {
  }

  // ------------------------------------------------------------------ closed sessions

  // The step keeps the response of the request with dedup entry e from getting out: it came
  // on a session that was already closed, a plugin refused it or its handler failed and the
  // session was closed for that, or another closer closed the session or the write failed.
  ghost predicate Closes(s: State, a: Action, e: nat) {
    match a
    case Receive(remote, m, open) => !open && m.typ == CON && m.code != 0 && !IsDuplicate(s, remote, m) && e == |s.born|
    case Plugins(n, verdict) => verdict.Refuse? && !verdict.how.Taken? && n in s.calls && s.calls[n].entry == Some(e)
    case Return(n, outcome) => outcome.Failed? && !outcome.how.Taken? && n in s.calls && s.calls[n].entry == Some(e)
    case Shut(n) => n in s.calls && s.calls[n].entry == Some(e)
    case _ => false
  }

  ghost predicate ClosedDuring(c: Config, s: State, actions: seq<Action>, e: nat)
    decreases |actions|
  {
    actions != [] && Enabled(s, actions[0]) &&
    (Closes(s, actions[0], e) || ClosedDuring(c, Apply(c, s, actions[0]), actions[1..], e))
  }

  lemma StepShuts(c: Config, s: State, a: Action, e: nat)
    requires Enabled(s, a)
    ensures e in Apply(c, s, a).shut <==> e in s.shut || Closes(s, a, e)
  {
    match a
    case Receive(remote, m, open) => ReceivedShuts(s, remote, m, open, e);
    case Return(n, outcome) => ReturnedShuts(c, s, n, outcome, e);
    case _ =>
  }

  lemma ReceivedShuts(s: State, remote: Text, m: Message, open: bool, e: nat)
    requires Decoded(m) && Table(s)
    ensures e in Received(s, remote, m, open).shut <==> e in s.shut || Closes(s, Receive(remote, m, open), e)
  {
    if m.typ < ACK && m.code != 0 && !IsDuplicate(s, remote, m) {
      FreshShuts(s, remote, m, open, e);
    }
  }

  lemma FreshShuts(s: State, remote: Text, m: Message, open: bool, e: nat)
    requires Decoded(m) && |s.resp| == |s.born|
    ensures e in Fresh(s, remote, m, open).shut <==> e in s.shut || (!open && m.typ == CON && e == |s.born|)
  {
  }

  lemma ReturnedShuts(c: Config, s: State, n: nat, outcome: Outcome, e: nat)
    requires n in s.calls && CallOk(s.calls[n], s.resp)
    ensures e in Returned(c, s, n, outcome).shut <==> e in s.shut || Closes(s, Return(n, outcome), e)
  {
  }

  lemma {:induction false} RunShuts(c: Config, s: State, actions: seq<Action>, s': State, e: nat)
    requires Runs(c, s, actions, s')
    ensures e in s'.shut <==> e in s.shut || ClosedDuring(c, s, actions, e)
    decreases |actions|
  {
    if actions != [] {
      StepShuts(c, s, actions[0], e);
      RunShuts(c, Apply(c, s, actions[0]), actions[1..], s', e);
    }
  }

  // A recorded response was sent to its client by the request itself exactly when no step of
  // the run kept it from getting out.
  lemma RecordedWasSentIff(c: Config, actions: seq<Action>, s: State, e: nat)
    requires Runs(c, Init(), actions, s) && e < |s.resp| && s.resp[e].Some?
    ensures e < |s.born|
    ensures Sent(s.born[e].key.remote, s.resp[e].value, Some(e)) in s.sent <==> !ClosedDuring(c, Init(), actions, e)
  {
    RunKeeps(c, Init(), actions, s);
    RunShuts(c, Init(), actions, s, e);
  }

  // Requests of one remote come through one read loop, so the next is received when the
  // last is over.
  ghost predicate RunsSerially(c: Config, s: State, actions: seq<Action>, s': State)
    decreases |actions|
  {
    if actions == [] then s == s'
    else
      var a := actions[0];
      && Enabled(s, a) && (a.Receive? ==> forall n :: n in s.calls ==> s.calls[n].remote != a.remote)
      && RunsSerially(c, Apply(c, s, a), actions[1..], s')
  }

  lemma {:induction false} SerialRuns(c: Config, s: State, actions: seq<Action>, s': State)
    requires RunsSerially(c, s, actions, s')
    ensures Runs(c, s, actions, s')
    decreases |actions|
  {
    if actions != [] {
      SerialRuns(c, Apply(c, s, actions[0]), actions[1..], s');
    }
  }

  // A request that reaches plugins and handler.
  predicate Plain(m: Message) { Decoded(m) && m.typ == CON && m.code != 0 && BLOCK1 !in m.options }

  lemma FirstReceived(c: Config, s: State, remote: Text, m: Message, s': State)
    requires Inv(s) && Plain(m) && Retransmit.Key(remote, m.id) !in s.seen &&
             s' == Apply(c, s, Receive(remote, m, true))
    requires forall n :: n in s.calls ==> s.calls[n].remote != remote
    ensures Inv(s') && RunsSerially(c, s, [Receive(remote, m, true)], s')
    ensures s'.seen == s.seen[Retransmit.Key(remote, m.id) := |s.born|] && s'.next == s.next + 1
    ensures s'.calls.Keys == s.calls.Keys + {s.next} && forall n :: n in s.calls ==> s'.calls[n] == s.calls[n]
    ensures var call := s'.calls[s.next];
            call.remote == remote && call.req == m && call.entry == Some(|s.born|) && !call.running
    ensures s'.handled == s.handled && s'.sent == s.sent && s'.replayed == s.replayed
  {
    var a := Receive(remote, m, true);
    StepKeeps(c, s, a);
    assert [a][1..] == [] && RunsSerially(c, s', [], s');
  }

  lemma OneStep(c: Config, s: State, a: Action, s': State)
    requires Inv(s) && Enabled(s, a) && !a.Receive? && s' == Apply(c, s, a)
    ensures Inv(s') && RunsSerially(c, s, [a], s')
  {
    StepKeeps(c, s, a);
    assert [a][1..] == [] && RunsSerially(c, s', [], s');
  }

  lemma {:induction false} Then(c: Config, s: State, first: seq<Action>, m: State, second: seq<Action>, s': State)
    requires RunsSerially(c, s, first, m) && RunsSerially(c, m, second, s')
    ensures RunsSerially(c, s, first + second, s')
    decreases |first|
  {
    if first == [] {
      assert first + second == second;
    } else {
      Then(c, Apply(c, s, first[0]), first[1..], m, second, s');
      assert (first + second)[1..] == first[1..] + second;
    }
  }

  // A plugin refuses a request, which closes the session: the response is recorded but not
  // sent, and the first time the client gets it is as the answer to a repetition.
  lemma DuplicateGetsItFirst(c: Config, remote: Text, m: Message, how: Closing) returns (s: State)
    requires Plain(m) && !how.Taken?
    ensures var again := Receive(remote, m, true);
            RunsSerially(c, Init(), [again] + [Plugins(0, Refuse(how))] + [again], s)
    ensures s.sent == [] && s.replayed == [(remote, Wire(Reply(m, INTERNAL_ERROR, map[], [])))]
  {
    var s0, again, data := Init(), Receive(remote, m, true), Wire(Reply(m, INTERNAL_ERROR, map[], []));
    var s1 := Apply(c, s0, again);
    FirstReceived(c, s0, remote, m, s1);
    var s2 := PluginRefuses(c, s1, 0, how);
    s := Answered(c, s2, remote, m, data);
    Then(c, s0, [again], s1, [Plugins(0, Refuse(how))], s2);
    Then(c, s0, [again] + [Plugins(0, Refuse(how))], s2, [again], s);
  }

  lemma PluginRefuses(c: Config, s: State, n: nat, how: Closing) returns (s': State)
    requires Inv(s) && n in s.calls && !s.calls[n].running && s.calls[n].req.typ == CON && !how.Taken?
    ensures Inv(s') && RunsSerially(c, s, [Plugins(n, Refuse(how))], s')
    ensures s'.calls == s.calls - {n} && s'.seen == s.seen && s'.sent == s.sent && s'.replayed == s.replayed
    ensures s'.resp == s.resp[s.calls[n].entry.value := Some(Wire(Reply(s.calls[n].req, INTERNAL_ERROR, map[], [])))]
  {
    s' := Apply(c, s, Plugins(n, Refuse(how)));
    OneStep(c, s, Plugins(n, Refuse(how)), s');
  }

  lemma Answered(c: Config, s: State, remote: Text, m: Message, data: seq<Byte>) returns (s': State)
    requires Inv(s) && Plain(m) && IsDuplicate(s, remote, m) &&
             s.resp[s.seen[Retransmit.Key(remote, m.id)]] == Some(data)
    requires forall n :: n in s.calls ==> s.calls[n].remote != remote
    ensures s' == s.(replayed := s.replayed + [(remote, data)]) && RunsSerially(c, s, [Receive(remote, m, true)], s')
  {
    var a := Receive(remote, m, true);
    s' := Apply(c, s, a);
    assert [a][1..] == [] && RunsSerially(c, s', [], s');
  }

  // ------------------------------------------------------------------ clears during a request

  predicate Waiting(s: State, entry: Option<nat>) {
    exists n :: n in s.calls && !s.calls[n].running && s.calls[n].entry == entry
  }

  // Since s0: handlers that started, or may start, for an entry of that time belong to
  // calls that were waiting then.
  predicate Since(s0: State, s: State) {
    && s0.epoch == s.epoch && |s0.born| <= |s.born| && |s0.handled| <= |s.handled|
    && (forall e :: |s0.born| <= e < |s.born| ==> s.born[e].epoch == s.epoch)
    && (forall n :: n in s.calls && !s.calls[n].running && IsBelow(s.calls[n].entry, |s0.born|) ==>
          Waiting(s0, s.calls[n].entry))
    && (forall i :: |s0.handled| <= i < |s.handled| && IsBelow(s.handled[i].entry, |s0.born|) ==>
          Waiting(s0, s.handled[i].entry))
  }

  predicate IsBelow(entry: Option<nat>, bound: nat) { entry.Some? && entry.value < bound }

  lemma BeginSince(s0: State, s: State, remote: Text, m: Message, entry: Option<nat>, open: bool)
    requires Inv(s) && Since(s0, s) && (entry.Some? ==> entry.value >= |s0.born|)
    ensures Since(s0, Begin(s, remote, m, entry, open))
  {
  }

  lemma AdmitSince(s0: State, s: State, key: Key, open: bool)
    requires Since(s0, s)
    ensures Since(s0, Admit(s, key, open))
  {
  }

  lemma FreshSince(s0: State, s: State, remote: Text, m: Message, open: bool)
    requires Inv(s) && Decoded(m) && m.typ < ACK && m.code != 0 && !IsDuplicate(s, remote, m) && Since(s0, s)
    ensures Since(s0, Fresh(s, remote, m, open))
  {
    var key := Retransmit.Key(remote, m.id);
    var entry := if m.typ == CON then Some(|s.born|) else None;
    if m.typ == CON {
      AdmitKeeps(s, key, open);
      AdmitSince(s0, s, key, open);
    }
    if BLOCK1 !in m.options {
      BeginSince(s0, if m.typ == CON then Admit(s, key, open) else s, remote, m, entry, open);
    }
  }

  lemma ReceivedSince(s0: State, s: State, remote: Text, m: Message, open: bool)
    requires Inv(s) && Decoded(m) && Since(s0, s)
    ensures Since(s0, Received(s, remote, m, open))
  {
    if m.typ < ACK && m.code != 0 && !IsDuplicate(s, remote, m) {
      FreshSince(s0, s, remote, m, open);
    }
  }

  lemma PluginsSince(c: Config, s0: State, s: State, n: nat, verdict: Verdict)
    requires Inv(s) && n in s.calls && !s.calls[n].running && Since(s0, s)
    ensures Since(s0, PluginsRan(c, s, n, verdict))
  {
  }

  lemma ReturnedSince(c: Config, s0: State, s: State, n: nat, outcome: Outcome)
    requires Inv(s) && n in s.calls && Since(s0, s)
    ensures Since(s0, Returned(c, s, n, outcome))
  {
  }

  lemma StepSince(c: Config, s0: State, s: State, a: Action)
    requires Inv(s) && Enabled(s, a) && !a.Clear? && Since(s0, s)
    ensures Since(s0, Apply(c, s, a))
  {
    match a
    case Receive(remote, m, open) => ReceivedSince(s0, s, remote, m, open);
    case Plugins(n, verdict) => PluginsSince(c, s0, s, n, verdict);
    case Return(n, outcome) => ReturnedSince(c, s0, s, n, outcome);
    case _ =>
  }

  lemma {:induction false} RunSince(c: Config, s0: State, s: State, actions: seq<Action>, s': State)
    requires Inv(s) && Since(s0, s) && Runs(c, s, actions, s') && NoClear(actions)
    ensures Inv(s') && Since(s0, s')
    decreases |actions|
  {
    if actions != [] {
      StepKeeps(c, s, actions[0]);
      StepSince(c, s0, s, actions[0]);
      RunSince(c, s0, Apply(c, s, actions[0]), actions[1..], s');
    }
  }

  // Counting starts of the handler rather than requests taken in: between two clears it can
  // start twice for one remote and message ID only if a request of theirs was waiting for
  // its plugins when the table was cleared ...
  lemma TwiceOnlyIfWaiting(c: Config, s: State, between: seq<Action>, s': State, i: nat, j: nat)
    requires Inv(s) && s.seen == map[] && Runs(c, s, between, s') && NoClear(between)
    requires |s.handled| <= i < j < |s'.handled| && s'.handled[i].req.typ == CON && s'.handled[j].req.typ == CON
    requires s'.handled[i].remote == s'.handled[j].remote && s'.handled[i].req.id == s'.handled[j].req.id
    ensures Waiting(s, s'.handled[i].entry) || Waiting(s, s'.handled[j].entry)
  {
    RunSince(c, s, s, between, s');
    var e, e' := s'.handled[i].entry.value, s'.handled[j].entry.value;
    assert s'.born[e] != s'.born[e'] && s'.born[e].key == s'.born[e'].key;
  }

  // ... and then it does, if the client repeats the request after its answer: so literally
  // "once between two clears" fails, exactly in that case.
  lemma WaitingRunsTwice(c: Config, s: State, n: nat) returns (s': State)
    requires Inv(s) && s.seen == map[] && (c.responder || c.handler)
    requires n in s.calls && !s.calls[n].running && Plain(s.calls[n].req)
    requires forall k :: k in s.calls && k != n ==> s.calls[k].remote != s.calls[n].remote
    ensures var call := s.calls[n];
            && RunsSerially(c, s, HandledTwice(n, call.remote, call.req, s.next), s')
            && s'.handled == s.handled + [Start(call.entry, call.remote, call.req),
               Start(Some(|s.born|), call.remote, call.req)]
  {
    var call := s.calls[n];
    var s1 := HandlerRuns(c, s, n);
    s' := StartsAgain(c, s1, call.remote, call.req);
    InTurn(c, s, n, s1, call.remote, call.req, s.next, s');
  }

  lemma HandlerRuns(c: Config, s: State, n: nat) returns (s': State)
    requires Inv(s) && n in s.calls && !s.calls[n].running && (c.responder || c.handler)
    ensures s'.calls == s.calls - {n} && s'.seen == s.seen && s'.born == s.born && s'.next == s.next
    ensures s'.handled == s.handled + [Start(s.calls[n].entry, s.calls[n].remote, s.calls[n].req)]
    ensures Inv(s') && RunsSerially(c, s, [Plugins(n, Pass)] + [Return(n, Answer([]))], s')
  {
    var s1 := HandlerStarts(c, s, n);
    s' := HandlerAnswers(c, s1, n);
    assert s'.calls == s.calls - {n};
    Then(c, s, [Plugins(n, Pass)], s1, [Return(n, Answer([]))], s');
  }

  // The handler runs for request n, and again for its repetition.
  function HandledTwice(n: nat, remote: Text, m: Message, next: nat): seq<Action> {
    [Plugins(n, Pass), Return(n, Answer([])), Receive(remote, m, true), Plugins(next, Pass)]
  }

  lemma InTurn(c: Config, s: State, n: nat, s1: State, remote: Text, m: Message, next: nat, s': State)
    requires RunsSerially(c, s, [Plugins(n, Pass)] + [Return(n, Answer([]))], s1)
    requires RunsSerially(c, s1, [Receive(remote, m, true)] + [Plugins(next, Pass)], s')
    ensures RunsSerially(c, s, HandledTwice(n, remote, m, next), s')
  {
    var first, second := [Plugins(n, Pass)] + [Return(n, Answer([]))],
      [Receive(remote, m, true)] + [Plugins(next, Pass)];
    Then(c, s, first, s1, second, s');
    assert first + second == HandledTwice(n, remote, m, next);
  }

  lemma StartsAgain(c: Config, s: State, remote: Text, m: Message) returns (s': State)
    requires Inv(s) && s.seen == map[] && Plain(m) && (c.responder || c.handler)
    requires forall k :: k in s.calls ==> s.calls[k].remote != remote
    ensures RunsSerially(c, s, [Receive(remote, m, true)] + [Plugins(s.next, Pass)], s')
    ensures s'.handled == s.handled + [Start(Some(|s.born|), remote, m)]
  {
    var s1 := Apply(c, s, Receive(remote, m, true));
    FirstReceived(c, s, remote, m, s1);
    s' := HandlerStarts(c, s1, s.next);
    Then(c, s, [Receive(remote, m, true)], s1, [Plugins(s.next, Pass)], s');
  }

  lemma HandlerStarts(c: Config, s: State, n: nat) returns (s': State)
    requires Inv(s) && n in s.calls && !s.calls[n].running && (c.responder || c.handler)
    ensures s'.calls == s.calls[n := s.calls[n].(running := true)] && s'.seen == s.seen && s'.born == s.born
    ensures s'.next == s.next && s'.handled == s.handled + [Start(s.calls[n].entry, s.calls[n].remote, s.calls[n].req)]
    ensures Inv(s') && RunsSerially(c, s, [Plugins(n, Pass)], s')
  {
    s' := Apply(c, s, Plugins(n, Pass));
    OneStep(c, s, Plugins(n, Pass), s');
  }

  lemma HandlerAnswers(c: Config, s: State, n: nat) returns (s': State)
    requires Inv(s) && n in s.calls && s.calls[n].running
    ensures s'.calls == s.calls - {n} && s'.seen == s.seen && s'.born == s.born
    ensures s'.next == s.next && s'.handled == s.handled
    ensures Inv(s') && RunsSerially(c, s, [Return(n, Answer([]))], s')
  {
    s' := Apply(c, s, Return(n, Answer([])));
    OneStep(c, s, Return(n, Answer([])), s');
  }

  // Such a state is reached: a request is received and the table cleared before its plugins
  // have run. So between that clear and the next the handler starts twice.
  lemma TwiceBetweenClears(c: Config, remote: Text, m: Message) returns (s: State, s': State)
    requires Plain(m) && (c.responder || c.handler)
    ensures var receive := Receive(remote, m, true);
            && RunsSerially(c, Init(), [receive] + [Clear], s)
            && RunsSerially(c, s, HandledTwice(0, remote, m, 1), s')
    ensures s.handled == [] && s'.handled == [Start(Some(0), remote, m), Start(Some(1), remote, m)]
  {
    var s0, receive := Init(), Receive(remote, m, true);
    var s1 := Apply(c, s0, receive);
    FirstReceived(c, s0, remote, m, s1);
    s := Apply(c, s1, Clear);
    OneStep(c, s1, Clear, s);
    Then(c, s0, [receive], s1, [Clear], s);
    assert s1.born == [Birth(0, Retransmit.Key(remote, m.id))];
    s' := WaitingRunsTwice(c, s, 0);
  }
}
