/**
 * The invariants of the signer protocol. Each is a predicate of one connection, one DID or one
 * caller in its state, so that a proof looks only at what an action touches.
 */
module SignerInvariants {
  import opened Basics
  import opened SignerQueue
  import opened SignerProtocol

  predicate Closing(pc: LoopPc) {
    pc.Unregistered? || pc.Failing? || pc.Gone?
  }

  // ---- a connection is in the hub exactly while its done channel is open

  ghost predicate HubAt(s: State, c: ConnId) {
    c in s.conns ==>
      && (!s.conns[c].done ==> s.conns[c].did in s.hub && s.hub[s.conns[c].did] == c)
      && (Closing(s.conns[c].loop) ==> s.conns[c].done)
  }

  ghost predicate DidAt(s: State, d: Did) {
    d in s.hub ==> s.hub[d] in s.conns && s.conns[s.hub[d]].did == d && !s.conns[s.hub[d]].done
  }

  ghost predicate HubOk(s: State) {
    && !s.doubleClose
    && (forall c {:trigger HubAt(s, c)} :: HubAt(s, c))
    && (forall d {:trigger DidAt(s, d)} :: DidAt(s, d))
  }

  // ---- order and conservation on one connection

  /** Ids the pump or the socket loop of the connection is working on. */
  predicate Handles(k: Conn, id: RequestId) {
    || k.pump == Handing(id)
    || k.slot == Some(id)
    || k.loop == Writing(id)
    || k.loop == Bouncing(id)
    || id in k.payloads
  }

  predicate Queued(k: Conn, id: RequestId) {
    id in k.q.pending || id in k.q.inflight
  }

  /**
   * What was appended and not dropped is what was taken, in order, followed by what is still
   * pending; at most one request is in flight.
   */
  ghost predicate OrderOk(k: Conn) {
    && NoDuplicates(k.appended)
    && Without(k.appended, k.dropped) == k.taken + k.q.pending
    && |k.q.inflight| <= 1
  }

  ghost predicate MembersOk(k: Conn) {
    && (forall id :: id in k.q.pending ==> id in k.appended && id !in k.dropped && id !in k.taken)
    && (forall id :: id in k.taken ==> id in k.appended && id !in k.dropped)
    && (forall id :: id in k.dropped ==> id in k.appended)
    && (forall id :: id in k.q.inflight ==> id in k.taken)
    && (forall id :: Handles(k, id) ==> id in k.taken)
    && (k.loop.Failing? ==> NoDuplicates(k.loop.left) && forall id :: id in k.loop.left ==> Queued(k, id))
  }

  ghost predicate QueueAt(s: State, c: ConnId) {
    c in s.conns ==> OrderOk(s.conns[c]) && MembersOk(s.conns[c])
  }

  ghost predicate QueuesOk(s: State) {
    forall c {:trigger QueueAt(s, c)} :: QueueAt(s, c)
  }

  // ---- each queued id belongs to a caller of that very connection

  ghost predicate CallerAt(s: State, id: RequestId) {
    id in s.callers ==>
      s.callers[id].conn in s.conns && s.conns[s.callers[id].conn].did == s.callers[id].did
  }

  ghost predicate OwnedAt(s: State, c: ConnId, id: RequestId) {
    c in s.conns && id in s.conns[c].appended ==>
      id in s.callers && s.callers[id].conn == c && !s.callers[id].pc.LookedUp?
  }

  ghost predicate OwnersOk(s: State) {
    && (forall id {:trigger CallerAt(s, id)} :: CallerAt(s, id))
    && (forall c, id {:trigger OwnedAt(s, c, id)} :: OwnedAt(s, c, id))
  }

  /** A deliverer works on an existing connection, with an id it has taken out of inflight. */
  ghost predicate TargetAt(s: State, c: ConnId) {
    c in s.conns ==>
      && (s.conns[c].loop.Taking? || s.conns[c].loop.Waking? || s.conns[c].loop.Sending? ==>
            s.conns[c].loop.target in s.conns)
      && (s.conns[c].loop.Sending? ==>
            s.conns[c].loop.id in s.conns[s.conns[c].loop.target].taken &&
            s.conns[c].loop.id !in s.conns[s.conns[c].loop.target].q.inflight)
  }

  ghost predicate TargetsOk(s: State) {
    forall c {:trigger TargetAt(s, c)} :: TargetAt(s, c)
  }

  // ---- no wakeup is lost

  ghost predicate WillNotify(s: State, id: RequestId, c: ConnId) {
    id in s.callers && s.callers[id].conn == c && s.callers[id].pc.Appended?
  }

  ghost predicate WillWake(s: State, d: ConnId, c: ConnId) {
    d in s.conns && (s.conns[d].loop.Sending? || s.conns[d].loop.Waking?) && s.conns[d].loop.target == c
  }

  ghost predicate WakeAt(s: State, c: ConnId) {
    c in s.conns && s.conns[c].pump.Blocked? && !s.conns[c].done && Ready(s.conns[c].q) ==>
      s.conns[c].notify || (exists id :: WillNotify(s, id, c)) || (exists d :: WillWake(s, d, c))
  }

  ghost predicate WakeOk(s: State) {
    forall c {:trigger WakeAt(s, c)} :: WakeAt(s, c)
  }

  // ---- somebody owes every caller an answer, or it can see that nobody will give one

  ghost predicate Sends(s: State, d: ConnId, id: RequestId) {
    d in s.conns && s.conns[d].loop.Sending? && s.conns[d].loop.id == id
  }

  predicate InCall(pc: CallerPc) {
    pc.Appended? || pc.Waiting? || pc.Cancelling?
  }

  ghost predicate ServedAt(s: State, id: RequestId) {
    id in s.callers && s.callers[id].conn in s.conns && InCall(s.callers[id].pc) ==>
      || s.conns[s.callers[id].conn].done
      || s.callers[id].buffer.Some?
      || Queued(s.conns[s.callers[id].conn], id)
      || (exists d :: Sends(s, d, id))
  }

  ghost predicate ServedOk(s: State) {
    forall id {:trigger ServedAt(s, id)} :: ServedAt(s, id)
  }

  // ---- a reply channel gets one value, plus one if the write of that very request failed

  function Bounces(u: Caller): nat {
    if u.bounced then 1 else 0
  }

  ghost predicate CountAt(s: State, id: RequestId) {
    id in s.callers ==>
      && s.callers[id].sends <= 1 + Bounces(s.callers[id])
      && (s.callers[id].buffer.Some? ==> s.callers[id].sends >= 1)
      && (s.callers[id].pc.LookedUp? ==> s.callers[id].sends == 0 && !s.callers[id].bounced)
      && (s.callers[id].bounced && s.callers[id].conn in s.conns ==>
            s.conns[s.callers[id].conn].loop.Leaving? || Closing(s.conns[s.callers[id].conn].loop))
  }

  /** Nothing but a failed write has answered `id` yet. */
  ghost predicate Unanswered(s: State, id: RequestId) {
    id in s.callers && s.callers[id].sends == Bounces(s.callers[id])
  }

  ghost predicate OwedAt(s: State, c: ConnId, id: RequestId) {
    c in s.conns ==>
      && (Queued(s.conns[c], id) && !s.conns[c].loop.Failing? ==> Unanswered(s, id))
      && (s.conns[c].loop.Failing? && id in s.conns[c].loop.left ==> Unanswered(s, id))
      && (Sends(s, c, id) ==> Unanswered(s, id))
  }

  ghost predicate SoleSender(s: State, c: ConnId, d: ConnId, id: RequestId) {
    Sends(s, c, id) && Sends(s, d, id) ==> c == d
  }

  ghost predicate CountsOk(s: State) {
    forall id {:trigger CountAt(s, id)} :: CountAt(s, id)
  }

  ghost predicate OwedOk(s: State) {
    forall c, id {:trigger OwedAt(s, c, id)} :: OwedAt(s, c, id)
  }

  ghost predicate SolesOk(s: State) {
    forall c, d, id {:trigger SoleSender(s, c, d, id)} :: SoleSender(s, c, d, id)
  }

  // ---- the right signature

  /** `sig` came with a passkey assertion for `payload` that verifies under `authKey`. */
  ghost predicate Vouched(cr: Crypto, authKey: Key, payload: string, sig: Signature) {
    exists m :: Attested(cr, authKey, payload, m) && cr.decode(m.commitSignature) == Some(sig)
  }

  /**
   * `sig` is a signature over the payload of `msg` under the signing key captured by connection `k`, and
   * came with an assertion for that payload under the authentication key captured by `k`.
   */
  ghost predicate CertifiedFor(cr: Crypto, k: Conn, msg: Message, sig: Signature) {
    var p := ExtractPayload(msg);
    && p.Some? && |sig| == 64
    && Certified(cr, k.signingKey, p.value, sig) && Vouched(cr, k.authKey, p.value, sig)
  }

  ghost predicate PayloadAt(s: State, c: ConnId, id: RequestId) {
    c in s.conns && id in s.conns[c].payloads ==>
      id in s.callers && ExtractPayload(s.callers[id].msg) == Some(s.conns[c].payloads[id])
  }

  ghost predicate CarriedAt(cr: Crypto, s: State, c: ConnId) {
    c in s.conns && (s.conns[c].loop.Delivering? || s.conns[c].loop.Taking? || s.conns[c].loop.Sending?) &&
    s.conns[c].loop.reply.Signed? ==>
      && s.conns[c].loop.id in s.callers
      && s.callers[s.conns[c].loop.id].conn == c
      && CertifiedFor(cr, s.conns[c], s.callers[s.conns[c].loop.id].msg, s.conns[c].loop.reply.sig)
  }

  ghost predicate ReceivedAt(cr: Crypto, s: State, id: RequestId) {
    id in s.callers && s.callers[id].conn in s.conns ==>
      && (s.callers[id].buffer.Some? && s.callers[id].buffer.value.Signed? ==>
            CertifiedFor(cr, s.conns[s.callers[id].conn], s.callers[id].msg, s.callers[id].buffer.value.sig))
      && (s.callers[id].pc.Returned? && s.callers[id].pc.outcome.Ok? ==>
            CertifiedFor(cr, s.conns[s.callers[id].conn], s.callers[id].msg, s.callers[id].pc.outcome.value))
  }

  ghost predicate PayloadsOk(s: State) {
    forall c, id {:trigger PayloadAt(s, c, id)} :: PayloadAt(s, c, id)
  }

  ghost predicate SignaturesOk(cr: Crypto, s: State) {
    && (forall c {:trigger CarriedAt(cr, s, c)} :: CarriedAt(cr, s, c))
    && (forall id {:trigger ReceivedAt(cr, s, id)} :: ReceivedAt(cr, s, id))
  }

  ghost predicate Inv(cr: Crypto, s: State) {
    && HubOk(s) && QueuesOk(s) && OwnersOk(s) && TargetsOk(s)
    && WakeOk(s) && ServedOk(s) && CountsOk(s) && OwedOk(s) && SolesOk(s)
    && PayloadsOk(s) && SignaturesOk(cr, s)
  }
}
