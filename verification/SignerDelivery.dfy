/**
 * What the signer protocol achieves: on a live connection a request is sent, and a genuine response
 * or a rejection reaches its caller; and what an answer that is not a signature tells the caller.
 */
module SignerDelivery {
  import opened Basics
  import opened SignerQueue
  import opened SignerProtocol
  import opened SignerInvariants
  import opened SignerSteps
  import opened SignerTheorems

  /** `run` ends with connection `c`, the hub's for its DID, being `k`, and with the caller `id` being `u`. */
  ghost predicate Reaches(cr: Crypto, run: seq<Action>, c: ConnId, k: Conn, id: RequestId, u: Caller) {
    var s := Exec(cr, run);
    && s.Some?
    && c in s.value.conns && s.value.conns[c] == k
    && id in s.value.callers && s.value.callers[id] == u
    && k.did in s.value.hub && s.value.hub[k.did] == c
  }

  // ---- the answer on its way

  /** The request is in flight, and its caller still waits for the answer. */
  predicate Awaited(k: Conn, id: RequestId, u: Caller) {
    id in k.q.inflight && u.pc == Waiting && u.buffer.None?
  }

  /** From the hub lookup to the caller's return. */
  function RouteSteps(c: ConnId, id: RequestId): seq<Action> {
    [Lookup(c), TakeInflight(c), Send(c), Wake(c), Receive(id)]
  }

  /** The connection once an answer has gone out: the passkey is free, and the pump will look for the next request. */
  function Freed(k: Conn, id: RequestId): Conn {
    k.(q := Settle(k.q, id), notify := true, loop := Selecting)
  }

  function Answer(u: Caller, outcome: Result<Signature, Error>): Caller {
    u.(pc := Returned(outcome), sends := u.sends + 1)
  }

  lemma {:induction false} RoutedToTaking(cr: Crypto, run: seq<Action>, c: ConnId, k: Conn, id: RequestId, u: Caller,
                                          reply: Reply)
    requires Reaches(cr, run, c, k, id, u) && k.loop == Delivering(id, reply) && Awaited(k, id, u)
    ensures Reaches(cr, run + [Lookup(c)] + [TakeInflight(c)], c,
                    k.(q := Settle(k.q, id), loop := Sending(c, id, reply)), id, u)
  {
    assert LocalEnabled(Exec(cr, run).value, Lookup(c));
    Then(cr, run, Lookup(c));
    assert Reaches(cr, run + [Lookup(c)], c, k.(loop := Taking(c, id, reply)), id, u);
    assert CrossEnabled(Exec(cr, run + [Lookup(c)]).value, TakeInflight(c));
    Then(cr, run + [Lookup(c)], TakeInflight(c));
  }

  lemma {:induction false} Deposited(cr: Crypto, run: seq<Action>, c: ConnId, k: Conn, id: RequestId, u: Caller,
                                     reply: Reply)
    requires Reaches(cr, run, c, k, id, u) && k.loop == Sending(c, id, reply) && u.pc == Waiting && u.buffer.None?
    ensures Reaches(cr, run + [Send(c)], c, k.(loop := Waking(c)), id,
                    u.(buffer := Some(reply), sends := u.sends + 1))
  {
    assert AnswerEnabled(Exec(cr, run).value, Send(c));
    Then(cr, run, Send(c));
  }

  lemma {:induction false} NotifiedAndRead(cr: Crypto, run: seq<Action>, c: ConnId, k: Conn, id: RequestId, u: Caller)
    requires Reaches(cr, run, c, k, id, u) && k.loop == Waking(c) && u.pc == Waiting && u.buffer.Some?
    ensures Reaches(cr, run + [Wake(c)] + [Receive(id)], c, k.(notify := true, loop := Selecting), id,
                    u.(buffer := None, pc := Returned(Outcome(u.buffer.value))))
  {
    assert CrossEnabled(Exec(cr, run).value, Wake(c));
    Then(cr, run, Wake(c));
    assert Reaches(cr, run + [Wake(c)], c, k.(notify := true, loop := Selecting), id, u);
    assert CallerEnabled(Exec(cr, run + [Wake(c)]).value, Receive(id));
    Then(cr, run + [Wake(c)], Receive(id));
  }

  /** An answer that a loop is about to deliver for a request in flight reaches the caller. */
  lemma {:induction false} AnswerRouted(cr: Crypto, run: seq<Action>, c: ConnId, k: Conn, id: RequestId, u: Caller,
                                        reply: Reply)
    requires Reaches(cr, run, c, k, id, u) && k.loop == Delivering(id, reply) && Awaited(k, id, u)
    ensures Reaches(cr, run + RouteSteps(c, id), c, Freed(k, id), id, Answer(u, Outcome(reply)))
  {
    hide Exec, Enabled, Next;
    RoutedToTaking(cr, run, c, k, id, u, reply);
    var taken := run + [Lookup(c)] + [TakeInflight(c)];
    var sending := k.(q := Settle(k.q, id), loop := Sending(c, id, reply));
    Deposited(cr, taken, c, sending, id, u, reply);
    NotifiedAndRead(cr, taken + [Send(c)], c, sending.(loop := Waking(c)), id,
                    u.(buffer := Some(reply), sends := u.sends + 1));
    assert run + RouteSteps(c, id) == taken + [Send(c)] + [Wake(c)] + [Receive(id)];
  }

  /**
   * A genuine response to a request in flight, on the connection that sent it, makes the waiting caller
   * return that very signature.
   */
  lemma {:induction false} SignatureReturned(cr: Crypto, run: seq<Action>, c: ConnId, k: Conn, u: Caller, m: Incoming,
                                             payload: string, sig: Signature)
    requires Reaches(cr, run, c, k, m.requestId, u) && k.loop == Selecting && Awaited(k, m.requestId, u)
    requires m.requestId in k.payloads && ExtractPayload(u.msg) == Some(payload)
    requires Genuine(cr, k.authKey, k.signingKey, payload, m, sig)
    ensures Reaches(cr, run + [Respond(c, m)] + RouteSteps(c, m.requestId), c,
                    Freed(k, m.requestId).(payloads := k.payloads - {m.requestId}), m.requestId, Answer(u, Ok(sig)))
  {
    var s, id := Exec(cr, run).value, m.requestId;
    Always(cr, run);
    assert PayloadAt(s, c, id);
    assert LocalEnabled(s, Respond(c, m));
    Then(cr, run, Respond(c, m));
    var told := k.(payloads := k.payloads - {id}, loop := Delivering(id, Signed(sig)));
    assert Reaches(cr, run + [Respond(c, m)], c, told, id, u);
    AnswerRouted(cr, run + [Respond(c, m)], c, told, id, u, Signed(sig));
  }

  /** A rejection of a request in flight makes the waiting caller return that it was rejected. */
  lemma {:induction false} RejectionReturned(cr: Crypto, run: seq<Action>, c: ConnId, k: Conn, id: RequestId, u: Caller)
    requires Reaches(cr, run, c, k, id, u) && k.loop == Selecting && Awaited(k, id, u)
    ensures Reaches(cr, run + [Reject(c, id)] + RouteSteps(c, id), c,
                    Freed(k, id).(payloads := k.payloads - {id}), id, Answer(u, Err(SignerRejected)))
  {
    assert LocalEnabled(Exec(cr, run).value, Reject(c, id));
    Then(cr, run, Reject(c, id));
    var told := k.(payloads := k.payloads - {id}, loop := Delivering(id, Rejected));
    assert Reaches(cr, run + [Reject(c, id)], c, told, id, u);
    AnswerRouted(cr, run + [Reject(c, id)], c, told, id, u, Rejected);
  }

  /**
   * A response that is not genuine, or to a request this loop has not sent or has seen an answer to, only
   * spends the kept payload: the request stays in flight and its caller waits on.
   */
  lemma {:induction false} ResponseRefused(cr: Crypto, run: seq<Action>, c: ConnId, k: Conn, m: Incoming)
    requires Exec(cr, run).Some? && c in Exec(cr, run).value.conns && Exec(cr, run).value.conns[c] == k
    requires k.loop == Selecting
    requires forall sig {:trigger Genuine(cr, k.authKey, k.signingKey, k.payloads[m.requestId], m, sig)} ::
               m.requestId in k.payloads ==> !Genuine(cr, k.authKey, k.signingKey, k.payloads[m.requestId], m, sig)
    ensures Exec(cr, run + [Respond(c, m)])
         == Some(SetConn(Exec(cr, run).value, c, k.(payloads := k.payloads - {m.requestId})))
  {
    assert LocalEnabled(Exec(cr, run).value, Respond(c, m));
    Then(cr, run, Respond(c, m));
    if m.requestId !in k.payloads {
      assert k.payloads - {m.requestId} == k.payloads;
    }
  }

  /** The connection the hub names for an answer of `k` does not wait for it. */
  predicate Unroutable(s: State, k: Conn, id: RequestId) {
    k.did in s.hub ==> s.hub[k.did] in s.conns && id !in s.conns[s.hub[k.did]].q.inflight
                       && !Locked(s.conns[s.hub[k.did]])
  }

  function LookupSteps(s: State, c: ConnId, k: Conn): seq<Action> {
    if k.did in s.hub then [Lookup(c), TakeInflight(c)] else [Lookup(c)]
  }

  lemma NotTaken(cr: Crypto, s: State, c: ConnId)
    requires CrossEnabled(s, TakeInflight(c))
    requires s.conns[c].loop.id !in s.conns[s.conns[c].loop.target].q.inflight
    ensures DoCross(s, TakeInflight(c)) == SetLoop(s, c, Selecting)
  {
    var pc := s.conns[c].loop;
    assert Settle(s.conns[pc.target].q, pc.id) == s.conns[pc.target].q;
    assert CrossTarget(s, TakeInflight(c)) == s.conns[pc.target];
    assert SetConn(s, pc.target, s.conns[pc.target]).conns == s.conns;
  }

  /** An answer for a request that is not in flight on the hub's connection is dropped, and the loop goes on. */
  lemma {:induction false} AnswerDropped(cr: Crypto, run: seq<Action>, c: ConnId, k: Conn, id: RequestId, reply: Reply)
    requires Exec(cr, run).Some? && c in Exec(cr, run).value.conns && Exec(cr, run).value.conns[c] == k
    requires k.loop == Delivering(id, reply) && Unroutable(Exec(cr, run).value, k, id)
    ensures Exec(cr, run + LookupSteps(Exec(cr, run).value, c, k)) == Some(SetLoop(Exec(cr, run).value, c, Selecting))
  {
    var s := Exec(cr, run).value;
    assert LocalEnabled(s, Lookup(c));
    Then(cr, run, Lookup(c));
    if k.did in s.hub {
      var t := SetLoop(s, c, Taking(s.hub[k.did], id, reply));
      assert Exec(cr, run + [Lookup(c)]) == Some(t) && CrossEnabled(t, TakeInflight(c));
      Then(cr, run + [Lookup(c)], TakeInflight(c));
      NotTaken(cr, t, c);
      assert run + LookupSteps(s, c, k) == run + [Lookup(c)] + [TakeInflight(c)];
      LoopSetTwice(s, c, Taking(s.hub[k.did], id, reply));
    }
  }

  lemma LoopSetTwice(s: State, c: ConnId, pc: LoopPc)
    requires c in s.conns
    ensures SetLoop(SetLoop(s, c, pc), c, Selecting) == SetLoop(s, c, Selecting)
  {
    assert SetLoop(SetLoop(s, c, pc), c, Selecting).conns == SetLoop(s, c, Selecting).conns;
  }

  // ---- coming and going

  /** Nobody is queued on the connection, and its loop and its pump have nothing to do. */
  predicate AtRest(k: Conn) {
    && k.q == EMPTY && k.slot.None? && k.loop == Selecting
    && (k.pump == Checking || k.pump == Blocked)
  }

  /**
   * A caller whose context ends can leave whenever the lock is free: it returns the reason, its request
   * goes from the queue if it was not sent yet, and nobody else's does.
   */
  lemma {:induction false} CallerGivesUp(cr: Crypto, run: seq<Action>, c: ConnId, k: Conn, id: RequestId, u: Caller,
                                         deadline: bool)
    requires Reaches(cr, run, c, k, id, u) && u.conn == c && u.pc == Waiting && !Locked(k)
    ensures Reaches(cr, run + [Expire(id, deadline)] + [Abandon(id)], c,
                    k.(q := k.q.(pending := Without(k.q.pending, {id})),
                       dropped := k.dropped + if id in k.q.pending then {id} else {}),
                    id, u.(pc := Returned(Err(if deadline then TimedOut else ContextCancelled))))
  {
    Always(cr, run);
    assert QueueAt(Exec(cr, run).value, c);
    PendingDistinct(k);
    RemoveFirstIsWithout(k.q.pending, id);
    assert CallerEnabled(Exec(cr, run).value, Expire(id, deadline));
    Then(cr, run, Expire(id, deadline));
    assert Reaches(cr, run + [Expire(id, deadline)], c, k, id, u.(pc := Cancelling(deadline)));
    assert CallerEnabled(Exec(cr, run + [Expire(id, deadline)]).value, Abandon(id));
    Then(cr, run + [Expire(id, deadline)], Abandon(id));
  }

  /** A caller whose connection was closed returns at once, even while the lock is held. */
  lemma {:induction false} CallerSeesDone(cr: Crypto, run: seq<Action>, id: RequestId)
    requires Exec(cr, run).Some? && id in Exec(cr, run).value.callers
    requires var u := Exec(cr, run).value.callers[id];
             u.pc == Waiting && u.conn in Exec(cr, run).value.conns && Exec(cr, run).value.conns[u.conn].done
    ensures Exec(cr, run + [SeeDone(id)]) ==
            Some(SetCaller(Exec(cr, run).value, id,
                           Exec(cr, run).value.callers[id].(pc := Returned(Err(NotConnected)))))
  {
    assert CallerEnabled(Exec(cr, run).value, SeeDone(id));
    Then(cr, run, SeeDone(id));
  }

  /** A new connection can always take over: it is the hub's from then on, and its predecessor is closed. */
  lemma {:induction false} NewestTakesOver(cr: Crypto, run: seq<Action>, c: ConnId, did: Did, authKey: Key,
                                           signingKey: Key)
    requires Exec(cr, run).Some? && c !in Exec(cr, run).value.conns
    ensures var s, t := Exec(cr, run).value, Exec(cr, run + [Register(c, did, authKey, signingKey)]);
            && t.Some? && t.value.callers == s.callers && !t.value.doubleClose
            && t.value.hub == s.hub[did := c]
            && c in t.value.conns && t.value.conns[c].authKey == authKey && t.value.conns[c].signingKey == signingKey
            && !t.value.conns[c].done && AtRest(t.value.conns[c])
            && (forall d :: d in s.conns ==>
                  && d in t.value.conns
                  && t.value.conns[d]
                     == if did in s.hub && s.hub[did] == d then s.conns[d].(done := true) else s.conns[d])
  {
    Always(cr, run);
    var s := Exec(cr, run).value;
    assert DidAt(s, did);
    var a := Register(c, did, authKey, signingKey);
    assert HubEnabled(s, a);
    Then(cr, run, a);
    InvKept(cr, s, a);
  }

  // ---- from the call to the prompt

  function AskSteps(id: RequestId, did: Did, msg: Message): seq<Action> {
    [Call(id, did, msg), Append(id), Notify(id)]
  }

  /** A call queues its request on the hub's connection and wakes its pump. */
  lemma {:induction false} CallQueued(cr: Crypto, run: seq<Action>, id: RequestId, did: Did, msg: Message)
    requires Exec(cr, run).Some? && id !in Exec(cr, run).value.callers && did in Exec(cr, run).value.hub
    requires Exec(cr, run).value.hub[did] in Exec(cr, run).value.conns
    requires !Locked(Exec(cr, run).value.conns[Exec(cr, run).value.hub[did]])
    requires Exec(cr, run).value.conns[Exec(cr, run).value.hub[did]].did == did
    ensures var c := Exec(cr, run).value.hub[did]; var k := Exec(cr, run).value.conns[c];
            Reaches(cr, run + AskSteps(id, did, msg), c,
                    k.(q := Enqueue(k.q, id), appended := k.appended + [id], notify := true), id,
                    Caller(did, msg, c, Waiting, None, 0, false))
  {
    var s := Exec(cr, run).value;
    var c := s.hub[did];
    var k, u := s.conns[c], Caller(did, msg, c, LookedUp, None, 0, false);
    var queued := k.(q := Enqueue(k.q, id), appended := k.appended + [id]);
    assert CallerEnabled(s, Call(id, did, msg));
    Then(cr, run, Call(id, did, msg));
    var called := run + [Call(id, did, msg)];
    assert Reaches(cr, called, c, k, id, u);
    assert CallerEnabled(Exec(cr, called).value, Append(id));
    Then(cr, called, Append(id));
    assert Reaches(cr, called + [Append(id)], c, queued, id, u.(pc := Appended));
    assert CallerEnabled(Exec(cr, called + [Append(id)]).value, Notify(id));
    Then(cr, called + [Append(id)], Notify(id));
    assert run + AskSteps(id, did, msg) == called + [Append(id)] + [Notify(id)];
  }

  /** What the pump does with a lone request, woken if it sleeps. */
  function PumpSteps(c: ConnId, sleeps: bool): seq<Action> {
    (if sleeps then [PumpWake(c)] else []) + [PumpCheck(c), PumpHand(c)]
  }

  lemma {:induction false} Woken(cr: Crypto, run: seq<Action>, c: ConnId, k: Conn, id: RequestId, u: Caller)
    requires Reaches(cr, run, c, k, id, u) && k.pump == Blocked && k.notify
    ensures Reaches(cr, run + [PumpWake(c)], c, k.(notify := false, pump := Checking), id, u)
  {
    assert LocalEnabled(Exec(cr, run).value, PumpWake(c));
    Then(cr, run, PumpWake(c));
  }

  lemma {:induction false} CheckedAndHanded(cr: Crypto, run: seq<Action>, c: ConnId, k: Conn, id: RequestId, u: Caller)
    requires Reaches(cr, run, c, k, id, u) && k.q == Queue([id], {}) && k.pump == Checking
    requires k.slot.None? && k.loop == Selecting
    ensures Reaches(cr, run + [PumpCheck(c)] + [PumpHand(c)], c,
                    k.(q := Queue([], {id}), taken := k.taken + [id], slot := Some(id)), id, u)
  {
    assert LocalEnabled(Exec(cr, run).value, PumpCheck(c));
    Then(cr, run, PumpCheck(c));
    assert TakeHead(k.q) == Queue([], {id});
    var taken := k.(q := Queue([], {id}), taken := k.taken + [id], pump := Handing(id));
    assert Reaches(cr, run + [PumpCheck(c)], c, taken, id, u);
    assert LocalEnabled(Exec(cr, run + [PumpCheck(c)]).value, PumpHand(c));
    Then(cr, run + [PumpCheck(c)], PumpHand(c));
  }

  lemma {:induction false} Pumped(cr: Crypto, run: seq<Action>, c: ConnId, k: Conn, id: RequestId, u: Caller)
    returns (l: Conn)
    requires Reaches(cr, run, c, k, id, u) && k.q == Queue([id], {}) && k.notify
    requires (k.pump == Checking || k.pump == Blocked) && k.slot.None? && k.loop == Selecting
    ensures Reaches(cr, run + PumpSteps(c, k.pump == Blocked), c, l, id, u)
    ensures l == k.(q := Queue([], {id}), taken := k.taken + [id], slot := Some(id), pump := Checking,
                    notify := l.notify)
  {
    if k.pump == Blocked {
      Woken(cr, run, c, k, id, u);
      var woken := k.(notify := false, pump := Checking);
      CheckedAndHanded(cr, run + [PumpWake(c)], c, woken, id, u);
      l := woken.(q := Queue([], {id}), taken := k.taken + [id], slot := Some(id));
      assert run + PumpSteps(c, true) == run + [PumpWake(c)] + [PumpCheck(c)] + [PumpHand(c)];
    } else {
      CheckedAndHanded(cr, run, c, k, id, u);
      l := k.(q := Queue([], {id}), taken := k.taken + [id], slot := Some(id));
      assert run + PumpSteps(c, false) == run + [PumpCheck(c)] + [PumpHand(c)];
    }
  }

  /** A request that the pump has handed over is written to the socket, and its payload is kept for the response. */
  lemma {:induction false} Written(cr: Crypto, run: seq<Action>, c: ConnId, k: Conn, id: RequestId, u: Caller,
                                   payload: string)
    requires Reaches(cr, run, c, k, id, u) && k.slot == Some(id) && k.loop == Selecting
    requires ExtractPayload(u.msg) == Some(payload)
    ensures Reaches(cr, run + [TakeSlot(c)] + [WriteOk(c)], c,
                    k.(slot := None, payloads := k.payloads[id := payload]), id, u)
  {
    assert LocalEnabled(Exec(cr, run).value, TakeSlot(c));
    Then(cr, run, TakeSlot(c));
    assert Reaches(cr, run + [TakeSlot(c)], c, k.(slot := None, loop := Writing(id)), id, u);
    assert LocalEnabled(Exec(cr, run + [TakeSlot(c)]).value, WriteOk(c));
    Then(cr, run + [TakeSlot(c)], WriteOk(c));
  }

  /** From the call until its request is written to the socket. */
  function PromptSteps(c: ConnId, sleeps: bool, id: RequestId, did: Did, msg: Message): seq<Action> {
    AskSteps(id, did, msg) + PumpSteps(c, sleeps) + [TakeSlot(c), WriteOk(c)]
  }

  /** The connection with the request in flight and its payload kept. */
  predicate PromptedWith(k: Conn, l: Conn, id: RequestId, payload: string) {
    && l.q == Queue([], {id}) && id in l.payloads && l.payloads[id] == payload
    && l.slot.None? && l.loop == Selecting && l.pump == Checking
    && l.did == k.did && l.authKey == k.authKey && l.signingKey == k.signingKey
  }

  /** On a live connection at rest a call leads to a prompt. */
  lemma {:induction false} CallPrompts(cr: Crypto, run: seq<Action>, c: ConnId, id: RequestId, did: Did, msg: Message,
                                       payload: string) returns (l: Conn)
    requires Exec(cr, run).Some? && did in Exec(cr, run).value.hub && Exec(cr, run).value.hub[did] == c
    requires c in Exec(cr, run).value.conns && AtRest(Exec(cr, run).value.conns[c])
    requires id !in Exec(cr, run).value.callers && ExtractPayload(msg) == Some(payload)
    ensures var k := Exec(cr, run).value.conns[c];
            && PromptedWith(k, l, id, payload)
            && Reaches(cr, run + PromptSteps(c, k.pump == Blocked, id, did, msg), c, l, id,
                       Caller(did, msg, c, Waiting, None, 0, false))
  {
    hide Exec, Enabled, Next;
    var s := Exec(cr, run).value;
    var k, u := s.conns[c], Caller(did, msg, c, Waiting, None, 0, false);
    Always(cr, run);
    assert DidAt(s, did);
    CallQueued(cr, run, id, did, msg);
    var asked := run + AskSteps(id, did, msg);
    assert Enqueue(k.q, id).pending == [id];
    var handed := Pumped(cr, asked, c, k.(q := Enqueue(k.q, id), appended := k.appended + [id], notify := true), id, u);
    var pumped := asked + PumpSteps(c, k.pump == Blocked);
    Written(cr, pumped, c, handed, id, u, payload);
    l := handed.(slot := None, payloads := handed.payloads[id := payload]);
    assert run + PromptSteps(c, k.pump == Blocked, id, did, msg) == pumped + [TakeSlot(c)] + [WriteOk(c)];
  }

  /** The steps of a call on a connection at rest whose request is answered by `m`. */
  function SigningSteps(c: ConnId, sleeps: bool, did: Did, msg: Message, m: Incoming): seq<Action> {
    PromptSteps(c, sleeps, m.requestId, did, msg) + [Respond(c, m)] + RouteSteps(c, m.requestId)
  }

  /**
   * The protocol signs: from every reachable state with a live connection at rest, a call whose message
   * has a payload, met by a genuine response, returns the signature, and the connection is at rest again.
   */
  lemma {:induction false} RequestSigned(cr: Crypto, run: seq<Action>, c: ConnId, did: Did, msg: Message, m: Incoming,
                                         payload: string, sig: Signature)
    requires Exec(cr, run).Some? && did in Exec(cr, run).value.hub && Exec(cr, run).value.hub[did] == c
    requires c in Exec(cr, run).value.conns && AtRest(Exec(cr, run).value.conns[c])
    requires m.requestId !in Exec(cr, run).value.callers && ExtractPayload(msg) == Some(payload)
    requires var k := Exec(cr, run).value.conns[c]; Genuine(cr, k.authKey, k.signingKey, payload, m, sig)
    ensures var t := Exec(cr, run + SigningSteps(c, Exec(cr, run).value.conns[c].pump == Blocked, did, msg, m));
            && t.Some? && m.requestId in t.value.callers
            && t.value.callers[m.requestId].pc == Returned(Ok(sig))
            && c in t.value.conns && AtRest(t.value.conns[c])
  {
    var k, id := Exec(cr, run).value.conns[c], m.requestId;
    var l := CallPrompts(cr, run, c, id, did, msg, payload);
    var prompted := run + PromptSteps(c, k.pump == Blocked, id, did, msg);
    SignatureReturned(cr, prompted, c, l, Caller(did, msg, c, Waiting, None, 0, false), m, payload, sig);
    assert run + SigningSteps(c, k.pump == Blocked, did, msg, m) == prompted + [Respond(c, m)] + RouteSteps(c, id);
    assert Settle(l.q, id) == EMPTY;
  }
}
