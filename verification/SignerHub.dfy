/**
 * SignerHub and signerConn as objects. Each method is one or more lock-held sections run without
 * interruption; its effect on the queue is the function of SignerQueue that the protocol uses.
 */
module SignerHub {
  import opened Basics
  import opened SignerQueue
  import opened SignerProtocol

  /** A reply channel of capacity one. */
  class ReplyChannel {
    var buffer: Option<Reply>

    constructor ()
      ensures buffer == None
    {
      buffer := None;
    }

    /** A send: false when the slot is taken, and then the sender waits. */
    method Send(r: Reply) returns (sent: bool)
      modifies this
      ensures sent <==> old(buffer).None?
      ensures buffer == if sent then Some(r) else old(buffer)
    {
      sent := buffer.None?;
      if sent {
        buffer := Some(r);
      }
    }
  }

  /** What becomes of an answer; Stuck means that its sender waits at a full reply channel. */
  datatype Delivery = Delivered | NotFound | Stuck

  datatype SignerRequest = SignerRequest(requestId: RequestId, msg: Message, reply: ReplyChannel)

  function Ids(s: seq<SignerRequest>): (r: seq<RequestId>)
    ensures |r| == |s| && forall i :: 0 <= i < |s| ==> r[i] == s[i].requestId
  {
    seq(|s|, i requires 0 <= i < |s| => s[i].requestId)
  }

  lemma IdsConcat(a: seq<SignerRequest>, b: seq<SignerRequest>)
    ensures Ids(a + b) == Ids(a) + Ids(b)
  {
  }

  lemma {:induction false} RemoveFirstAt(s: seq<RequestId>, id: RequestId, i: nat)
    requires i <= |s| && id !in s[..i]
    ensures i < |s| && s[i] == id ==> RemoveFirst(s, id) == s[..i] + s[i + 1..]
    ensures i == |s| ==> RemoveFirst(s, id) == s
  {
    if i == |s| {
      assert s[..i] == s;
      RemoveFirstAbsent(s, id);
    } else if i > 0 {
      assert s[0] == s[..i][0];
      assert s[1..][..i - 1] == s[..i][1..];
      RemoveFirstAt(s[1..], id, i - 1);
    }
  }

  lemma IdsRemove(s: seq<SignerRequest>, i: nat)
    requires i < |s|
    ensures Ids(s[..i] + s[i + 1..]) == Ids(s)[..i] + Ids(s)[i + 1..]
  {
    var rest := s[..i] + s[i + 1..];
    forall k | 0 <= k < |rest|
      ensures Ids(rest)[k] == (Ids(s)[..i] + Ids(s)[i + 1..])[k]
    {
      assert rest[k] == if k < i then s[k] else s[k + 1];
    }
  }

  class SignerConn {
    var pending: seq<SignerRequest>
    var inflight: map<RequestId, SignerRequest>
    var notify: bool
    var done: bool

    /** At most one request is in flight, under its own id. */
    ghost predicate Valid()
      reads this
    {
      && (forall c, d :: c in inflight && d in inflight ==> c == d)
      && (forall id :: id in inflight ==> inflight[id].requestId == id)
    }

    ghost function View(): Queue
      reads this
    {
      Queue(Ids(pending), inflight.Keys)
    }

    /** The reply channels of everybody queued here. */
    function Channels(): set<ReplyChannel>
      reads this
    {
      (set r | r in pending :: r.reply) + (set id | id in inflight :: inflight[id].reply)
    }

    /** No two queued requests share a reply channel. */
    ghost predicate Separate()
      reads this
    {
      && (forall i, j :: 0 <= i < j < |pending| ==> pending[i].reply != pending[j].reply)
      && (forall i, id :: 0 <= i < |pending| && id in inflight ==> pending[i].reply != inflight[id].reply)
      && (forall c, d :: c in inflight && d in inflight && c != d ==> inflight[c].reply != inflight[d].reply)
    }

    constructor ()
      ensures Valid() && View() == EMPTY && !notify && !done
    {
      pending, inflight, notify, done := [], map[], false, false;
    }

    /** The enqueueing half of RequestSignature, with its non-blocking notify. */
    method Enqueue(req: SignerRequest)
      requires Valid()
      modifies this
      ensures Valid() && notify && done == old(done) && inflight == old(inflight)
      ensures pending == old(pending) + [req]
      ensures View() == SignerQueue.Enqueue(old(View()), req.requestId)
    {
      IdsConcat(pending, [req]);
      pending := pending + [req];
      notify := true;
    }

    /** The cancellation branch of RequestSignature. */
    method Withdraw(id: RequestId)
      requires Valid()
      modifies this
      ensures Valid() && notify == old(notify) && done == old(done) && inflight == old(inflight)
      ensures View() == SignerQueue.Withdraw(old(View()), id)
      ensures forall r :: r in pending ==> r in old(pending)
    {
      var i := 0;
      while i < |pending|
        invariant i <= |pending|
        invariant id !in Ids(pending)[..i]
        invariant unchanged(this)
      {
        if pending[i].requestId == id {
          RemoveFirstAt(Ids(pending), id, i);
          IdsRemove(pending, i);
          pending := pending[..i] + pending[i + 1..];
          return;
        }
        i := i + 1;
      }
      RemoveFirstAt(Ids(pending), id, i);
    }

    /** One locked section of NextRequest: the head of the queue, if the passkey is free. */
    method TryNext() returns (req: Option<SignerRequest>)
      requires Valid()
      modifies this
      ensures Valid() && notify == old(notify) && done == old(done)
      ensures req.Some? <==> Ready(old(View()))
      ensures req.Some? ==> req.value == old(pending[0]) && View() == TakeHead(old(View())) &&
                            inflight == map[req.value.requestId := req.value]
      ensures req.None? ==> pending == old(pending) && inflight == old(inflight)
    {
      if |pending| > 0 && |inflight| == 0 {
        assert inflight.Keys == {};
        var head := pending[0];
        assert Ids(pending)[1..] == Ids(pending[1..]);
        pending := pending[1..];
        inflight := inflight[head.requestId := head];
        return Some(head);
      }
      return None;
    }

    /** The locked section of deliver. */
    method Settle(id: RequestId) returns (req: Option<SignerRequest>)
      requires Valid()
      modifies this
      ensures Valid() && notify == old(notify) && done == old(done) && pending == old(pending)
      ensures req == if id in old(inflight) then Some(old(inflight)[id]) else None
      ensures View() == SignerQueue.Settle(old(View()), id)
    {
      if id in inflight {
        req := Some(inflight[id]);
        inflight := inflight - {id};
      } else {
        req := None;
      }
    }

    /**
     * failAll, for requests that do not share reply channels. Every queued request gets `err` and
     * nothing stays queued, unless some channel is full: then it is stuck there, with conn.mu held.
     */
    method FailAll(err: Error) returns (stuck: bool)
      requires Valid() && Separate()
      modifies this, Channels()
      ensures Valid() && notify == old(notify) && done == old(done)
      ensures stuck <==> exists ch :: ch in old(Channels()) && old(ch.buffer).Some?
      ensures !stuck ==> View() == EMPTY && forall ch :: ch in old(Channels()) ==> ch.buffer == Some(Failed(err))
      ensures stuck ==> pending == old(pending) && (inflight == old(inflight) || inflight == map[])
      ensures forall ch :: ch in old(Channels()) ==>
                if old(ch.buffer).Some? then ch.buffer == old(ch.buffer)
                else ch.buffer == None || ch.buffer == Some(Failed(err))
    {
      ghost var waiting, flying := pending, inflight;
      stuck := FailInflight(err);
      if stuck {
        return;
      }
      inflight := map[];
      stuck := FailPending(err);
      if stuck {
        return;
      }
      pending := [];
      forall ch | ch in old(Channels())
        ensures old(ch.buffer).None? && ch.buffer == Some(Failed(err))
      {
        if r :| r in waiting && r.reply == ch {
          var j :| 0 <= j < |waiting| && waiting[j] == r;
        } else {
          var id :| id in flying && flying[id].reply == ch;
        }
      }
    }

    /** The replies of requests that are in flight. */
    function FlyingChannels(): set<ReplyChannel>
      reads this
    {
      set id | id in inflight :: inflight[id].reply
    }

    /** The replies of requests that wait. */
    function WaitingChannels(): set<ReplyChannel>
      reads this
    {
      set r | r in pending :: r.reply
    }

    /** The first loop of failAll. */
    method FailInflight(err: Error) returns (stuck: bool)
      requires Valid() && Separate()
      modifies FlyingChannels()
      ensures stuck <==> exists id :: id in inflight && old(inflight[id].reply.buffer).Some?
      ensures forall id :: id in inflight ==>
                if old(inflight[id].reply.buffer).Some? then inflight[id].reply.buffer == old(inflight[id].reply.buffer)
                else inflight[id].reply.buffer == None || inflight[id].reply.buffer == Some(Failed(err))
      ensures !stuck ==> forall id :: id in inflight ==> inflight[id].reply.buffer == Some(Failed(err))
    {
      var ids := inflight.Keys;
      while ids != {}
        invariant ids <= inflight.Keys
        invariant forall id :: id in inflight && id !in ids ==>
                    old(inflight[id].reply.buffer).None? && inflight[id].reply.buffer == Some(Failed(err))
        invariant forall id :: id in ids ==> inflight[id].reply.buffer == old(inflight[id].reply.buffer)
        decreases ids
      {
        var id :| id in ids;
        assert inflight[id].reply in FlyingChannels();
        var sent := inflight[id].reply.Send(Failed(err));
        if !sent {
          return true;
        }
        ids := ids - {id};
      }
      return false;
    }

    /** The second loop of failAll. */
    method FailPending(err: Error) returns (stuck: bool)
      requires Separate()
      modifies WaitingChannels()
      ensures stuck <==> exists i :: 0 <= i < |pending| && old(pending[i].reply.buffer).Some?
      ensures forall i :: 0 <= i < |pending| ==>
                if old(pending[i].reply.buffer).Some? then pending[i].reply.buffer == old(pending[i].reply.buffer)
                else pending[i].reply.buffer == None || pending[i].reply.buffer == Some(Failed(err))
      ensures !stuck ==> forall i :: 0 <= i < |pending| ==> pending[i].reply.buffer == Some(Failed(err))
    {
      for i := 0 to |pending|
        invariant forall j :: 0 <= j < i ==>
                    old(pending[j].reply.buffer).None? && pending[j].reply.buffer == Some(Failed(err))
        invariant forall j :: i <= j < |pending| ==> pending[j].reply.buffer == old(pending[j].reply.buffer)
      {
        assert pending[i] in pending && pending[i].reply in WaitingChannels();
        var sent := pending[i].reply.Send(Failed(err));
        if !sent {
          return true;
        }
      }
      return false;
    }
  }

  class SignerHub {
    var conns: map<Did, SignerConn>

    /** Every registered connection is live, and registered once. */
    ghost predicate Valid()
      reads this, conns.Values
    {
      && (forall d :: d in conns ==> conns[d].Valid() && !conns[d].done)
      && (forall d, e :: d in conns && e in conns && conns[d] == conns[e] ==> d == e)
    }

    /** The request whose reply channel an answer for `id` would use, if any. */
    ghost function Target(did: Did, id: RequestId): Option<SignerRequest>
      reads this, conns.Values
    {
      if did in conns && id in conns[did].inflight then Some(conns[did].inflight[id]) else None
    }

    constructor ()
      ensures Valid() && conns == map[]
    {
      conns := map[];
    }

    /** A fresh connection takes over; the evicted one, and only that one, is closed. */
    method Register(did: Did) returns (conn: SignerConn)
      requires Valid()
      modifies this, if did in conns then {conns[did]} else {}
      ensures Valid() && fresh(conn) && conn.View() == EMPTY && !conn.notify
      ensures conns == old(conns)[did := conn]
      ensures did in old(conns) ==> old(conns)[did].done && old(conns)[did].View() == old(conns[did].View())
    {
      if did in conns {
        conns[did].done := true;
      }
      conn := new SignerConn();
      conns := conns[did := conn];
    }

    /** Only the connection that is still registered is removed and closed. */
    method Unregister(did: Did, conn: SignerConn)
      requires Valid() && conn.Valid()
      modifies this`conns, conn`done
      ensures Valid() && conn.Valid()
      ensures if did in old(conns) && old(conns)[did] == conn
              then conns == old(conns) - {did} && conn.done
              else conns == old(conns) && conn.done == old(conn.done)
    {
      if did in conns && conns[did] == conn {
        conns := conns - {did};
        if !conn.done {
          conn.done := true;
        }
      }
    }

    method IsConnected(did: Did) returns (ok: bool)
      ensures ok <==> did in conns
    {
      ok := did in conns;
    }

    /** RequestSignature up to the point where it blocks: the connection and the reply channel to wait on. */
    method BeginRequest(did: Did, id: RequestId, msg: Message)
      returns (r: Result<(SignerConn, ReplyChannel), Error>)
      requires Valid()
      modifies if did in conns then {conns[did]} else {}
      ensures Valid()
      ensures did !in conns ==> r == Err(NotConnected)
      ensures did in conns ==> r.Ok? && r.value.0 == conns[did] && fresh(r.value.1) && r.value.1.buffer.None? &&
                               conns[did].pending == old(conns[did].pending) + [SignerRequest(id, msg, r.value.1)] &&
                               conns[did].inflight == old(conns[did].inflight) && conns[did].notify
    {
      if did !in conns {
        return Err(NotConnected);
      }
      var reply := new ReplyChannel();
      conns[did].Enqueue(SignerRequest(id, msg, reply));
      return Ok((conns[did], reply));
    }

    /**
     * deliver: routes the reply to the caller in flight under `id` on the connection now registered.
     * At a full reply channel the sender waits, with the request gone from the inflight map.
     */
    method Deliver(did: Did, id: RequestId, reply: Reply) returns (r: Delivery)
      requires Valid()
      modifies if did in conns then {conns[did]} else {}
      modifies if Target(did, id).Some? then {Target(did, id).value.reply} else {}
      ensures Valid() && conns == old(conns)
      ensures r.NotFound? <==> old(Target(did, id)).None?
      ensures r.Stuck? <==> old(Target(did, id)).Some? && old(Target(did, id).value.reply.buffer).Some?
      ensures r.Delivered? ==> old(Target(did, id)).value.reply.buffer == Some(reply) && conns[did].notify
      ensures r.Stuck? ==> old(Target(did, id)).value.reply.buffer == old(Target(did, id).value.reply.buffer) &&
                             conns[did].notify == old(conns[did].notify)
      ensures did in conns ==> conns[did].View() == SignerQueue.Settle(old(conns[did].View()), id)
    {
      if did !in conns {
        return NotFound;
      }
      var conn := conns[did];
      var req := conn.Settle(id);
      if req.None? {
        return NotFound;
      }
      var sent := req.value.reply.Send(reply);
      if !sent {
        return Stuck;
      }
      conn.notify := true;
      return Delivered;
    }
  }

  /** What a socket loop does after a request: the next message, the end, or waiting at a full reply channel. */
  datatype Turn = Continues | Leaves | Hangs

  /**
   * The state a socket loop keeps for one connection: the account's keys as they were when it
   * opened and, per request sent, the payload its signature must cover.
   */
  class SignerSession {
    const did: Did
    const authKey: Key
    const signingKey: Key
    const hub: SignerHub
    var pendingPayloads: map<RequestId, string>

    constructor (did: Did, authKey: Key, signingKey: Key, hub: SignerHub)
      ensures this.did == did && this.authKey == authKey && this.signingKey == signingKey && this.hub == hub
      ensures pendingPayloads == map[]
    {
      this.did, this.authKey, this.signingKey, this.hub := did, authKey, signingKey, hub;
      pendingPayloads := map[];
    }

    /**
     * A queued request is written to the socket. When the write fails the request is answered, while it
     * stays in flight, and the loop ends; at a full reply channel it would wait instead.
     */
    method OnRequest(req: SignerRequest, written: bool) returns (turn: Turn)
      modifies this, if written then {} else {req.reply}
      ensures turn == if written then Continues else if old(req.reply.buffer).None? then Leaves else Hangs
      ensures turn.Leaves? ==> req.reply.buffer == Some(Failed(NotConnected))
      ensures turn.Hangs? ==> req.reply.buffer == old(req.reply.buffer)
      ensures var p := ExtractPayload(req.msg);
              pendingPayloads ==
              if written && p.Some? then old(pendingPayloads)[req.requestId := p.value] else old(pendingPayloads)
    {
      if !written {
        var sent := req.reply.Send(Failed(NotConnected));
        return if sent then Leaves else Hangs;
      }
      var payload := ExtractPayload(req.msg);
      if payload.Some? {
        pendingPayloads := pendingPayloads[req.requestId := payload.value];
      }
      return Continues;
    }

    /** The signature that a response earns: of a payload this loop has sent and not seen an answer to. */
    function Earned(cr: Crypto, m: Incoming): Option<Signature>
      reads this
    {
      if m.requestId !in pendingPayloads then None
      else VerifyResponse(cr, authKey, signingKey, pendingPayloads[m.requestId], m)
    }

    /**
     * sign_response: delivered only for a payload this loop has sent, and only once; what is
     * delivered is certified over that payload. A response that fails verification leaves the
     * request in flight.
     */
    method OnResponse(cr: Crypto, m: Incoming) returns (r: Delivery)
      requires hub.Valid()
      modifies this
      modifies if did in hub.conns then {hub.conns[did]} else {}
      modifies if hub.Target(did, m.requestId).Some? then {hub.Target(did, m.requestId).value.reply} else {}
      ensures hub.Valid() && hub.conns == old(hub.conns)
      ensures pendingPayloads == old(pendingPayloads) - {m.requestId}
      ensures var target, sig := old(hub.Target(did, m.requestId)), old(Earned(cr, m));
              && (r.NotFound? <==> sig.None? || target.None?)
              && (r.Stuck? <==> sig.Some? && target.Some? && old(hub.Target(did, m.requestId).value.reply.buffer).Some?)
              && (r.Delivered? ==> target.value.reply.buffer == Some(Signed(sig.value)))
              && (sig.None? ==> hub.Target(did, m.requestId) == target)
              && (r.Delivered? ==> hub.conns[did].notify)
      ensures did in hub.conns ==>
                var before, sig := old(hub.conns[did].View()), old(Earned(cr, m));
                hub.conns[did].View() == if sig.Some? then SignerQueue.Settle(before, m.requestId) else before
    {
      if m.requestId !in pendingPayloads {
        return NotFound;
      }
      var payload := pendingPayloads[m.requestId];
      pendingPayloads := pendingPayloads - {m.requestId};
      var sig := VerifyResponse(cr, authKey, signingKey, payload, m);
      if sig.None? {
        return NotFound;
      }
      r := hub.Deliver(did, m.requestId, Signed(sig.value));
    }

    method OnReject(id: RequestId) returns (r: Delivery)
      requires hub.Valid()
      modifies this
      modifies if did in hub.conns then {hub.conns[did]} else {}
      modifies if hub.Target(did, id).Some? then {hub.Target(did, id).value.reply} else {}
      ensures hub.Valid() && hub.conns == old(hub.conns)
      ensures pendingPayloads == old(pendingPayloads) - {id}
      ensures did in hub.conns ==>
                hub.conns[did].View() == SignerQueue.Settle(old(hub.conns[did].View()), id) &&
                (r.Delivered? ==> hub.conns[did].notify)
      ensures r.NotFound? <==> old(hub.Target(did, id)).None?
      ensures r.Stuck? <==> old(hub.Target(did, id)).Some? && old(hub.Target(did, id).value.reply.buffer).Some?
      ensures r.Delivered? ==> old(hub.Target(did, id)).value.reply.buffer == Some(Rejected)
    {
      pendingPayloads := pendingPayloads - {id};
      r := hub.Deliver(did, id, Rejected);
    }

    /** The deferred end of the loop: leave the hub, then answer everybody still queued, or hang on the way. */
    method Close(conn: SignerConn) returns (stuck: bool)
      requires hub.Valid() && conn.Valid() && conn.Separate()
      modifies hub, conn, conn.Channels()
      ensures stuck <==> exists ch :: ch in old(conn.Channels()) && old(ch.buffer).Some?
      ensures !stuck ==> conn.View() == EMPTY &&
                         forall ch :: ch in old(conn.Channels()) ==> ch.buffer == Some(Failed(NotConnected))
      ensures if did in old(hub.conns) && old(hub.conns)[did] == conn
              then hub.conns == old(hub.conns) - {did} && conn.done
              else hub.conns == old(hub.conns) && conn.done == old(conn.done)
    {
      hub.Unregister(did, conn);
      stuck := conn.FailAll(NotConnected);
    }
  }
}
