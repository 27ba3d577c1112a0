/**
 * The signer protocol as a transition system. Every section that holds a lock and every
 * channel operation of signer_hub.go, handle_signer_connect.go and handle_account_signer.go
 * is one action; request handlers, queue pumps and socket loops interleave freely.
 */
module SignerProtocol {
  import opened Basics
  import opened SignerQueue

  type Did = string
  type ConnId = nat
  type Key = Bytes
  type Signature = Bytes

  /** The two payload fields of a sign_request or sign_jwt_request; None when the JSON does not parse. */
  datatype Message = Unreadable | Message(payload: string, jwtPayload: string)

  /** extractPayloadFromMsg: the commit payload first, the JWT payload otherwise. */
  function ExtractPayload(m: Message): (r: Option<string>)
    ensures r.Some? ==> m.Message? && r.value != "" && r.value in {m.payload, m.jwtPayload}
    ensures r.Some? && r.value != m.payload ==> m.payload == ""
    ensures r.None? <==> m.Unreadable? || (m.payload == "" && m.jwtPayload == "")
  {
    if m.Unreadable? then None
    else if m.payload != "" then Some(m.payload)
    else if m.jwtPayload != "" then Some(m.jwtPayload)
    else None
  }

  /** The fields of an incoming sign_response. */
  datatype Incoming = Incoming(requestId: RequestId, authenticatorData: string, clientDataJSON: string,
                               signature: string, commitSignature: string)

  /** The library calls of the verification step; nothing is assumed about them. */
  datatype Crypto = Crypto(
    decode: string -> Option<Bytes>,
    assertion: (Key, Bytes, Bytes, Bytes, Bytes) -> bool,
    parsesKey: Key -> bool,
    verifies: (Key, Bytes, Signature) -> bool)

  /**
   * verifyWebAuthnSignResponse: the raw signature, or None for any of its error returns. It is accepted
   * if and only if it is genuine.
   */
  function VerifyResponse(cr: Crypto, authKey: Key, signingKey: Key, payload: string, m: Incoming)
    : (r: Option<Signature>)
    ensures r.Some? ==> Genuine(cr, authKey, signingKey, payload, m, r.value)
    ensures forall sig {:trigger Genuine(cr, authKey, signingKey, payload, m, sig)} ::
              Genuine(cr, authKey, signingKey, payload, m, sig) ==> r == Some(sig)
  {
    if m.authenticatorData == "" || m.clientDataJSON == "" || m.signature == "" || m.commitSignature == "" then None
    else
      var challenge, clientData := cr.decode(payload), cr.decode(m.clientDataJSON);
      var authData, der := cr.decode(m.authenticatorData), cr.decode(m.signature);
      var sig := cr.decode(m.commitSignature);
      if challenge.None? || clientData.None? || authData.None? || der.None? then None
      else if !cr.assertion(authKey, challenge.value, clientData.value, authData.value, der.value) then None
      else if sig.None? || |sig.value| != 64 || !cr.parsesKey(signingKey) then None
      else if !cr.verifies(signingKey, challenge.value, sig.value) then None
      else sig
  }

  /** The passkey's assertion for the payload verifies under the account's authentication key. */
  predicate Attested(cr: Crypto, authKey: Key, payload: string, m: Incoming) {
    var challenge, clientData := cr.decode(payload), cr.decode(m.clientDataJSON);
    var authData, der := cr.decode(m.authenticatorData), cr.decode(m.signature);
    && challenge.Some? && clientData.Some? && authData.Some? && der.Some?
    && cr.assertion(authKey, challenge.value, clientData.value, authData.value, der.value)
  }

  /** `sig` verifies under `key` over the bytes that `payload` encodes. */
  predicate Certified(cr: Crypto, key: Key, payload: string, sig: Signature) {
    var challenge := cr.decode(payload);
    challenge.Some? && cr.verifies(key, challenge.value, sig)
  }

  /**
   * `m` carries the signature `sig` of 64 octets, certified over the payload under a well-formed signing
   * key, together with a passkey assertion for the payload; it leaves no field empty.
   */
  predicate Genuine(cr: Crypto, authKey: Key, signingKey: Key, payload: string, m: Incoming, sig: Signature) {
    && "" !in {m.authenticatorData, m.clientDataJSON, m.signature, m.commitSignature}
    && cr.decode(m.commitSignature) == Some(sig) && |sig| == 64
    && cr.parsesKey(signingKey) && Certified(cr, signingKey, payload, sig)
    && Attested(cr, authKey, payload, m)
  }

  datatype Error = NotConnected | SignerRejected | TimedOut | ContextCancelled

  datatype Reply = Signed(sig: Signature) | Rejected | Failed(error: Error)

  /** What RequestSignature makes of the reply it receives. */
  function Outcome(r: Reply): Result<Signature, Error> {
    match r
    case Signed(sig) => Ok(sig)
    case Rejected => Err(SignerRejected)
    case Failed(e) => Err(e)
  }

  /** Program counter of one RequestSignature call. */
  datatype CallerPc =
    | LookedUp
    | Appended                         // appended to pending, not yet notified
    | Waiting
    | Cancelling(deadline: bool)
    | Returned(outcome: Result<Signature, Error>)

  /**
   * One RequestSignature call; `buffer` is its reply channel of capacity one. `sends` counts the
   * values ever put there and `bounced` records that one of them came from a failed socket write.
   */
  datatype Caller = Caller(did: Did, msg: Message, conn: ConnId, pc: CallerPc,
                           buffer: Option<Reply>, sends: nat, bounced: bool)

  /** Program counter of the queue pump, inside NextRequest or handing over its result. */
  datatype PumpPc = Checking | Blocked | Handing(id: RequestId) | Stopped

  /** Program counter of the socket loop, through deliver and the deferred Unregister and failAll. */
  datatype LoopPc =
    | Selecting
    | Writing(id: RequestId)
    | Bouncing(id: RequestId)                                  // write failed, reply not yet sent
    | Delivering(id: RequestId, reply: Reply)                  // before the hub lookup
    | Taking(target: ConnId, id: RequestId, reply: Reply)      // before the inflight section
    | Sending(target: ConnId, id: RequestId, reply: Reply)     // removed from inflight, reply not yet sent
    | Waking(target: ConnId)                                   // reply sent, not yet notified
    | Leaving
    | Unregistered
    | Failing(left: seq<RequestId>)                            // in failAll, holding conn.mu
    | Gone

  /**
   * One connection with its pump and its socket loop. `slot` is the nextReq channel; `appended`,
   * `taken` and `dropped` are history: the ids ever queued, ever moved to inflight, and ever
   * cancelled or drained.
   */
  datatype Conn = Conn(did: Did, authKey: Key, signingKey: Key, q: Queue, notify: bool, done: bool,
                       pump: PumpPc, slot: Option<RequestId>, loop: LoopPc, payloads: map<RequestId, string>,
                       appended: seq<RequestId>, taken: seq<RequestId>, dropped: set<RequestId>)

  /** `doubleClose` records the run-time panic of closing a closed done channel. */
  datatype State = State(hub: map<Did, ConnId>, conns: map<ConnId, Conn>, callers: map<RequestId, Caller>,
                         doubleClose: bool)

  const INIT := State(map[], map[], map[], false)

  datatype Action =
    | Register(c: ConnId, did: Did, authKey: Key, signingKey: Key)
    // RequestSignature
    | Call(id: RequestId, did: Did, msg: Message)
    | Append(id: RequestId)
    | Notify(id: RequestId)
    | Receive(id: RequestId)
    | SeeDone(id: RequestId)
    | Expire(id: RequestId, deadline: bool)
    | Abandon(id: RequestId)
    // queue pump
    | PumpCheck(c: ConnId)
    | PumpWake(c: ConnId)
    | PumpStop(c: ConnId)
    | PumpHand(c: ConnId)
    // socket loop
    | TakeSlot(c: ConnId)
    | WriteOk(c: ConnId)
    | WriteFail(c: ConnId)
    | Bounce(c: ConnId)
    | Respond(c: ConnId, m: Incoming)
    | Reject(c: ConnId, id: RequestId)
    | Lookup(c: ConnId)
    | TakeInflight(c: ConnId)
    | Send(c: ConnId)
    | Wake(c: ConnId)
    | Leave(c: ConnId)
    | Unregister(c: ConnId)
    | FailStart(c: ConnId, order: seq<RequestId>)
    | FailSend(c: ConnId)
    | FailEnd(c: ConnId)

  /** conn.mu is held across steps only by failAll. */
  predicate Locked(k: Conn) {
    k.loop.Failing?
  }

  predicate Enumerates(order: seq<RequestId>, s: set<RequestId>) {
    NoDuplicates(order) && (set x | x in order) == s
  }

  predicate CallerEnabled(s: State, a: Action) {
    match a
    case Call(id, did, msg) => id !in s.callers
    case Append(id) =>
      id in s.callers && s.callers[id].pc.LookedUp? &&
      s.callers[id].conn in s.conns && !Locked(s.conns[s.callers[id].conn])
    case Notify(id) => id in s.callers && s.callers[id].pc.Appended? && s.callers[id].conn in s.conns
    case Receive(id) => id in s.callers && s.callers[id].pc.Waiting? && s.callers[id].buffer.Some?
    case SeeDone(id) =>
      id in s.callers && s.callers[id].pc.Waiting? &&
      s.callers[id].conn in s.conns && s.conns[s.callers[id].conn].done
    case Expire(id, _) => id in s.callers && s.callers[id].pc.Waiting?
    case Abandon(id) =>
      id in s.callers && s.callers[id].pc.Cancelling? &&
      s.callers[id].conn in s.conns && !Locked(s.conns[s.callers[id].conn])
    case _ => false
  }

  /** Actions of a pump or a socket loop that change nothing but their own connection. */
  predicate LocalEnabled(s: State, a: Action) {
    match a
    case PumpCheck(c) => c in s.conns && s.conns[c].pump.Checking? && !Locked(s.conns[c])
    case PumpWake(c) => c in s.conns && s.conns[c].pump.Blocked? && s.conns[c].notify
    case PumpStop(c) => c in s.conns && (s.conns[c].pump.Blocked? || s.conns[c].pump.Handing?)
    case PumpHand(c) => c in s.conns && s.conns[c].pump.Handing? && s.conns[c].slot.None?
    case TakeSlot(c) => c in s.conns && s.conns[c].loop.Selecting? && s.conns[c].slot.Some?
    case WriteOk(c) => c in s.conns && s.conns[c].loop.Writing? && s.conns[c].loop.id in s.callers
    case WriteFail(c) => c in s.conns && s.conns[c].loop.Writing?
    case Respond(c, _) => c in s.conns && s.conns[c].loop.Selecting?
    case Reject(c, _) => c in s.conns && s.conns[c].loop.Selecting?
    case Lookup(c) => c in s.conns && s.conns[c].loop.Delivering?
    case Leave(c) => c in s.conns && s.conns[c].loop.Selecting?
    case FailStart(c, order) =>
      c in s.conns && s.conns[c].loop.Unregistered? && Enumerates(order, s.conns[c].q.inflight)
    case FailEnd(c) => c in s.conns && s.conns[c].loop.Failing? && s.conns[c].loop.left == []
    case _ => false
  }

  /** A send on a reply channel is enabled only while the channel's one slot is empty. */
  predicate CanDeposit(s: State, id: RequestId) {
    id in s.callers && s.callers[id].buffer.None?
  }

  predicate AnswerEnabled(s: State, a: Action) {
    match a
    case Bounce(c) => c in s.conns && s.conns[c].loop.Bouncing? && CanDeposit(s, s.conns[c].loop.id)
    case Send(c) => c in s.conns && s.conns[c].loop.Sending? && CanDeposit(s, s.conns[c].loop.id)
    case FailSend(c) =>
      c in s.conns && s.conns[c].loop.Failing? && s.conns[c].loop.left != [] && CanDeposit(s, s.conns[c].loop.left[0])
    case _ => false
  }

  /** Actions of a deliverer on the connection the hub named, which may be another one than its own. */
  predicate CrossEnabled(s: State, a: Action) {
    match a
    case TakeInflight(c) =>
      c in s.conns && s.conns[c].loop.Taking? &&
      s.conns[c].loop.target in s.conns && !Locked(s.conns[s.conns[c].loop.target])
    case Wake(c) => c in s.conns && s.conns[c].loop.Waking? && s.conns[c].loop.target in s.conns
    case _ => false
  }

  predicate HubEnabled(s: State, a: Action) {
    match a
    case Register(c, did, _, _) => c !in s.conns && (did in s.hub ==> s.hub[did] in s.conns)
    case Unregister(c) => c in s.conns && s.conns[c].loop.Leaving?
    case _ => false
  }

  predicate Enabled(s: State, a: Action) {
    HubEnabled(s, a) || CallerEnabled(s, a) || LocalEnabled(s, a) || AnswerEnabled(s, a) || CrossEnabled(s, a)
  }

  function SetConn(s: State, c: ConnId, k: Conn): State {
    s.(conns := s.conns[c := k])
  }

  function SetCaller(s: State, id: RequestId, u: Caller): State {
    s.(callers := s.callers[id := u])
  }

  function SetLoop(s: State, c: ConnId, pc: LoopPc): State
    requires c in s.conns
  {
    SetConn(s, c, s.conns[c].(loop := pc))
  }

  function CloseDone(s: State, c: ConnId): State
    requires c in s.conns
  {
    SetConn(s, c, s.conns[c].(done := true)).(doubleClose := s.doubleClose || s.conns[c].done)
  }

  function Fresh(did: Did, authKey: Key, signingKey: Key): Conn {
    Conn(did, authKey, signingKey, EMPTY, false, false, Checking, None, Selecting, map[], [], [], {})
  }

  function DoHub(s: State, a: Action): State
    requires HubEnabled(s, a)
  {
    match a
    case Register(c, did, authKey, signingKey) =>
      var t := if did in s.hub then CloseDone(s, s.hub[did]) else s;
      t.(hub := t.hub[did := c], conns := t.conns[c := Fresh(did, authKey, signingKey)])
    case Unregister(c) =>
      var k := s.conns[c];
      var t := SetLoop(s, c, Unregistered);
      if k.did in s.hub && s.hub[k.did] == c
      then
        var u := t.(hub := t.hub - {k.did});
        if k.done then u else CloseDone(u, c)
      else t
  }

  function DoCaller(s: State, a: Action): State
    requires CallerEnabled(s, a)
  {
    match a
    case Call(id, did, msg) =>
      // Without a connection the call returns NotConnected at once and leaves no trace.
      if did in s.hub then SetCaller(s, id, Caller(did, msg, s.hub[did], LookedUp, None, 0, false)) else s
    case Append(id) =>
      var u := s.callers[id];
      var k := s.conns[u.conn];
      SetCaller(SetConn(s, u.conn, k.(q := Enqueue(k.q, id), appended := k.appended + [id])), id, u.(pc := Appended))
    case Notify(id) =>
      var u := s.callers[id];
      SetCaller(SetConn(s, u.conn, s.conns[u.conn].(notify := true)), id, u.(pc := Waiting))
    case Receive(id) =>
      var u := s.callers[id];
      SetCaller(s, id, u.(buffer := None, pc := Returned(Outcome(u.buffer.value))))
    case SeeDone(id) =>
      SetCaller(s, id, s.callers[id].(pc := Returned(Err(NotConnected))))
    case Expire(id, deadline) =>
      SetCaller(s, id, s.callers[id].(pc := Cancelling(deadline)))
    case Abandon(id) =>
      var u := s.callers[id];
      var k := s.conns[u.conn];
      var gone := if id in k.q.pending then {id} else {};
      SetCaller(SetConn(s, u.conn, k.(q := Withdraw(k.q, id), dropped := k.dropped + gone)), id,
                u.(pc := Returned(Err(if u.pc.deadline then TimedOut else ContextCancelled))))
  }

  /** The connection after one of its local actions. */
  function LocalStep(cr: Crypto, s: State, a: Action): Conn
    requires LocalEnabled(s, a)
  {
    var k := s.conns[a.c];
    match a
    case PumpCheck(_) =>
      if Ready(k.q)
      then k.(q := TakeHead(k.q), taken := k.taken + [k.q.pending[0]], pump := Handing(k.q.pending[0]))
      else k.(pump := Blocked)
    case PumpWake(_) => k.(notify := false, pump := Checking)
    case PumpStop(_) => k.(pump := Stopped)
    case PumpHand(_) => k.(slot := Some(k.pump.id), pump := Checking)
    case TakeSlot(_) => k.(slot := None, loop := Writing(k.slot.value))
    case WriteOk(_) =>
      var p := ExtractPayload(s.callers[k.loop.id].msg);
      k.(loop := Selecting, payloads := if p.Some? then k.payloads[k.loop.id := p.value] else k.payloads)
    case WriteFail(_) => k.(loop := Bouncing(k.loop.id))
    case Respond(_, m) =>
      if m.requestId !in k.payloads then k
      else
        var sig := VerifyResponse(cr, k.authKey, k.signingKey, k.payloads[m.requestId], m);
        k.(payloads := k.payloads - {m.requestId},
           loop := if sig.Some? then Delivering(m.requestId, Signed(sig.value)) else Selecting)
    case Reject(_, id) => k.(payloads := k.payloads - {id}, loop := Delivering(id, Rejected))
    case Lookup(_) =>
      k.(loop := if k.did in s.hub then Taking(s.hub[k.did], k.loop.id, k.loop.reply) else Selecting)
    case Leave(_) => k.(loop := Leaving)
    case FailStart(_, order) => k.(loop := Failing(order + k.q.pending))
    case FailEnd(_) => k.(loop := Gone, q := EMPTY, dropped := k.dropped + (set x | x in k.q.pending))
  }

  function DoLocal(cr: Crypto, s: State, a: Action): State
    requires LocalEnabled(s, a)
  {
    SetConn(s, a.c, LocalStep(cr, s, a))
  }

  /** The caller an answer goes to. */
  function Answered(s: State, a: Action): RequestId
    requires AnswerEnabled(s, a)
  {
    if a.FailSend? then s.conns[a.c].loop.left[0] else s.conns[a.c].loop.id
  }

  function DoAnswer(s: State, a: Action): State
    requires AnswerEnabled(s, a)
  {
    var pc := s.conns[a.c].loop;
    var u := s.callers[Answered(s, a)];
    var reply := if a.Send? then pc.reply else Failed(NotConnected);
    var next := if a.Bounce? then Leaving else if a.Send? then Waking(pc.target) else Failing(pc.left[1..]);
    SetCaller(SetLoop(s, a.c, next), Answered(s, a),
              u.(buffer := Some(reply), sends := u.sends + 1, bounced := u.bounced || a.Bounce?))
  }

  /** The connection a deliverer works on, afterwards. */
  function CrossTarget(s: State, a: Action): Conn
    requires CrossEnabled(s, a)
  {
    var pc := s.conns[a.c].loop;
    var d := s.conns[pc.target];
    if a.Wake? then d.(notify := true) else d.(q := Settle(d.q, pc.id))
  }

  function DoCross(s: State, a: Action): State
    requires CrossEnabled(s, a)
  {
    var pc := s.conns[a.c].loop;
    var next :=
      if a.TakeInflight? && pc.id in s.conns[pc.target].q.inflight then Sending(pc.target, pc.id, pc.reply)
      else Selecting;
    SetLoop(SetConn(s, pc.target, CrossTarget(s, a)), a.c, next)
  }

  function Next(cr: Crypto, s: State, a: Action): State
    requires Enabled(s, a)
  {
    if HubEnabled(s, a) then DoHub(s, a)
    else if CallerEnabled(s, a) then DoCaller(s, a)
    else if LocalEnabled(s, a) then DoLocal(cr, s, a)
    else if AnswerEnabled(s, a) then DoAnswer(s, a)
    else DoCross(s, a)
  }

  /** The state after the actions of `run` in order, or None when one of them was not enabled. */
  function Exec(cr: Crypto, run: seq<Action>): Option<State>
    decreases |run|
  {
    if run == [] then Some(INIT)
    else
      var last := |run| - 1;
      var s := Exec(cr, run[..last]);
      if s.Some? && Enabled(s.value, run[last]) then Some(Next(cr, s.value, run[last])) else None
  }
}
