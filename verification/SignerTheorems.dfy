/** What the signer protocol guarantees over every run, whatever the interleaving. */
module SignerTheorems {
  import opened Basics
  import opened SignerQueue
  import opened SignerProtocol
  import opened SignerInvariants
  import opened SignerSteps

  lemma {:induction false} Always(cr: Crypto, run: seq<Action>)
    requires Exec(cr, run).Some?
    ensures Inv(cr, Exec(cr, run).value)
    decreases |run|
  {
    if run != [] {
      var last := |run| - 1;
      Always(cr, run[..last]);
      InvKept(cr, Exec(cr, run[..last]).value, run[last]);
    }
  }

  /** One more action. */
  lemma Then(cr: Crypto, run: seq<Action>, a: Action)
    requires Exec(cr, run).Some? && Enabled(Exec(cr, run).value, a)
    ensures Exec(cr, run + [a]) == Some(Next(cr, Exec(cr, run).value, a))
  {
    assert (run + [a])[..|run + [a]| - 1] == run;
  }

  /** A connection is the hub's connection for its DID exactly while its done channel is open. */
  lemma {:induction false} SingleLiveConnection(cr: Crypto, run: seq<Action>, c: ConnId)
    requires Exec(cr, run).Some? && c in Exec(cr, run).value.conns
    ensures var s := Exec(cr, run).value; var k := s.conns[c];
            !s.doubleClose && (!k.done <==> k.did in s.hub && s.hub[k.did] == c)
  {
    Always(cr, run);
    var s := Exec(cr, run).value;
    assert HubAt(s, c) && DidAt(s, s.conns[c].did);
  }

  /** The deferred Unregister of an evicted handler leaves its successor, and every other DID, alone. */
  lemma {:induction false} LateUnregister(cr: Crypto, run: seq<Action>, c: ConnId, d: Did)
    requires Exec(cr, run).Some? && HubEnabled(Exec(cr, run).value, Unregister(c))
    requires d in Exec(cr, run).value.hub
    ensures var s := Exec(cr, run).value; var t := Next(cr, s, Unregister(c));
            if s.hub[d] == c then d !in t.hub && t.conns[c].done
            else d in t.hub && t.hub[d] == s.hub[d] && t.hub[d] in t.conns && !t.conns[t.hub[d]].done
  {
    Always(cr, run);
    var s := Exec(cr, run).value;
    assert DidAt(s, d);
    InvKept(cr, s, Unregister(c));
    assert DidAt(Next(cr, s, Unregister(c)), d);
  }

  /** A pump that sleeps although it could serve somebody has a token waiting, or is about to get one. */
  lemma {:induction false} NoLostWakeup(cr: Crypto, run: seq<Action>, c: ConnId)
    requires Exec(cr, run).Some? && c in Exec(cr, run).value.conns
    requires var k := Exec(cr, run).value.conns[c];
             k.pump.Blocked? && !k.done && k.q.pending != [] && k.q.inflight == {}
    ensures var s := Exec(cr, run).value;
            s.conns[c].notify || (exists id :: WillNotify(s, id, c)) || (exists d :: WillWake(s, d, c))
  {
    Always(cr, run);
    assert WakeAt(Exec(cr, run).value, c);
  }

  /** Every pending call can still get its answer or see that it will not get one. */
  lemma {:induction false} NoStrandedCaller(cr: Crypto, run: seq<Action>, id: RequestId)
    requires Exec(cr, run).Some? && id in Exec(cr, run).value.callers
    requires InCall(Exec(cr, run).value.callers[id].pc)
    ensures var s := Exec(cr, run).value; var u := s.callers[id];
            && u.conn in s.conns
            && (var k := s.conns[u.conn];
                && (k.done || u.buffer.Some? || Queued(k, id) || exists d :: Sends(s, d, id))
                && !(id in k.q.pending && id in k.q.inflight))
  {
    Always(cr, run);
    var s := Exec(cr, run).value;
    assert ServedAt(s, id) && CallerAt(s, id) && QueueAt(s, s.callers[id].conn);
  }

  /**
   * A signature returned for a request was verified, under the signing key captured by the very
   * connection the request was queued on, over the payload of the message submitted with it.
   */
  lemma {:induction false} RightSignature(cr: Crypto, run: seq<Action>, id: RequestId, sig: Signature)
    requires Exec(cr, run).Some? && id in Exec(cr, run).value.callers
    requires Exec(cr, run).value.callers[id].pc == Returned(Ok(sig))
    ensures var s := Exec(cr, run).value; var u := s.callers[id];
            && u.conn in s.conns && s.conns[u.conn].did == u.did
            && CertifiedFor(cr, s.conns[u.conn], u.msg, sig)
  {
    Always(cr, run);
    var s := Exec(cr, run).value;
    assert CallerAt(s, id) && ReceivedAt(cr, s, id);
  }

  // ---- the reply channel

  predicate WritesSucceed(run: seq<Action>) {
    forall i :: 0 <= i < |run| ==> !run[i].WriteFail?
  }

  ghost predicate Bounceless(s: State) {
    && (forall c :: c in s.conns ==> !s.conns[c].loop.Bouncing?)
    && (forall id :: id in s.callers ==> !s.callers[id].bounced)
  }

  lemma BouncelessLocal(cr: Crypto, s: State, a: Action)
    requires LocalEnabled(s, a) && Bounceless(s) && !a.WriteFail?
    ensures Bounceless(DoLocal(cr, s, a))
  {
    assert !LocalStep(cr, s, a).loop.Bouncing?;
  }

  lemma BouncelessCaller(s: State, a: Action)
    requires CallerEnabled(s, a) && Bounceless(s)
    ensures Bounceless(DoCaller(s, a))
  {
    forall c | c in DoCaller(s, a).conns ensures !DoCaller(s, a).conns[c].loop.Bouncing? {
      CallerFrame(s, a, c);
    }
    forall id | id in DoCaller(s, a).callers ensures !DoCaller(s, a).callers[id].bounced {
      if id != a.id { CallerAlone(s, a, id); }
    }
  }

  lemma BouncelessHub(s: State, a: Action)
    requires HubEnabled(s, a) && Bounceless(s)
    ensures Bounceless(DoHub(s, a))
  {
    HubKeepsCallers(s, a);
    forall c | c in DoHub(s, a).conns ensures !DoHub(s, a).conns[c].loop.Bouncing? {
      if c in s.conns { HubCloses(s, a, c); }
    }
  }

  lemma BouncelessAnswer(s: State, a: Action)
    requires AnswerEnabled(s, a) && Bounceless(s)
    ensures Bounceless(DoAnswer(s, a))
  {
  }

  lemma BouncelessCross(s: State, a: Action)
    requires CrossEnabled(s, a) && Bounceless(s)
    ensures Bounceless(DoCross(s, a))
  {
  }

  lemma {:induction false} NoBounce(cr: Crypto, run: seq<Action>)
    requires Exec(cr, run).Some? && WritesSucceed(run)
    ensures Bounceless(Exec(cr, run).value)
    decreases |run|
  {
    if run != [] {
      var last := |run| - 1;
      NoBounce(cr, run[..last]);
      var s, a := Exec(cr, run[..last]).value, run[last];
      if HubEnabled(s, a) {
        BouncelessHub(s, a);
      } else if CallerEnabled(s, a) {
        BouncelessCaller(s, a);
      } else if LocalEnabled(s, a) {
        BouncelessLocal(cr, s, a);
      } else if AnswerEnabled(s, a) {
        BouncelessAnswer(s, a);
      } else {
        BouncelessCross(s, a);
      }
    }
  }

  /** A socket loop is about to put a value into the reply channel of `id`. */
  ghost predicate AboutToSend(s: State, c: ConnId, id: RequestId) {
    c in s.conns &&
    (Sends(s, c, id) || (s.conns[c].loop.Failing? && s.conns[c].loop.left != [] && s.conns[c].loop.left[0] == id))
  }

  /** A sender of deliver or failAll finds the reply channel full only after a failed write of that request. */
  lemma {:induction false} SenderFindsRoom(cr: Crypto, run: seq<Action>, id: RequestId)
    requires Exec(cr, run).Some? && id in Exec(cr, run).value.callers
    ensures var s := Exec(cr, run).value;
            forall c :: AboutToSend(s, c, id) && !s.callers[id].bounced ==> CanDeposit(s, id)
  {
    Always(cr, run);
    var s := Exec(cr, run).value;
    assert CountAt(s, id);
    forall c | AboutToSend(s, c, id)
      ensures Unanswered(s, id)
    {
      assert OwedAt(s, c, id);
    }
  }

  // ---- first come, first served

  /** Order and conservation: at most one prompt is out; nothing queued is lost, duplicated or reordered. */
  lemma {:induction false} FirstInFirstOut(cr: Crypto, run: seq<Action>, c: ConnId)
    requires Exec(cr, run).Some? && c in Exec(cr, run).value.conns
    ensures var k := Exec(cr, run).value.conns[c];
            && |k.q.inflight| <= 1
            && (forall id :: id in k.q.inflight ==> id in k.taken)
            && NoDuplicates(k.appended)
            && Without(k.appended, k.dropped) == k.taken + k.q.pending
            && (forall id :: id in k.taken + k.q.pending ==> id !in k.dropped)
  {
    Always(cr, run);
    assert QueueAt(Exec(cr, run).value, c);
  }

  /** What one action may do to the queue of a connection, seen from request `id`. */
  ghost predicate Advances(k: Conn, l: Conn, id: RequestId) {
    && (id in k.appended ==> id in l.appended)
    && (id in k.taken ==> id in l.taken)
    && (id in k.dropped ==> id in l.dropped)
    && (id in k.q.pending && id in l.q.pending ==>
          |l.taken| + Ahead(l.q.pending, id) <= |k.taken| + Ahead(k.q.pending, id))
  }

  /** What happens to the queue of a connection in one action. */
  datatype Move = Stays | Appends(id: RequestId) | Takes | Withdraws(id: RequestId) | Drains

  predicate Moved(k: Conn, l: Conn, m: Move) {
    match m
    case Stays =>
      l.q.pending == k.q.pending && l.appended == k.appended && l.taken == k.taken && l.dropped == k.dropped
    case Appends(x) =>
      l.q.pending == k.q.pending + [x] && l.appended == k.appended + [x] && l.taken == k.taken && l.dropped == k.dropped
    case Takes =>
      k.q.pending != [] && l.q.pending == k.q.pending[1..] && l.taken == k.taken + [k.q.pending[0]] &&
      l.appended == k.appended && l.dropped == k.dropped
    case Withdraws(x) =>
      l.q.pending == RemoveFirst(k.q.pending, x) && k.dropped <= l.dropped &&
      l.appended == k.appended && l.taken == k.taken
    case Drains =>
      l.q.pending == [] && k.dropped <= l.dropped && l.appended == k.appended && l.taken == k.taken
  }

  function MoveOf(s: State, a: Action, c: ConnId): Move
    requires c in s.conns
  {
    match a
    case Append(id) => if id in s.callers && s.callers[id].conn == c then Appends(id) else Stays
    case Abandon(id) => if id in s.callers && s.callers[id].conn == c then Withdraws(id) else Stays
    case PumpCheck(d) => if d == c && Ready(s.conns[c].q) then Takes else Stays
    case FailEnd(d) => if d == c then Drains else Stays
    case _ => Stays
  }

  lemma HubMoves(s: State, a: Action, c: ConnId)
    requires HubEnabled(s, a) && c in s.conns
    ensures c in DoHub(s, a).conns && Moved(s.conns[c], DoHub(s, a).conns[c], MoveOf(s, a, c))
  {
    HubCloses(s, a, c);
  }

  lemma CallerMoves(s: State, a: Action, c: ConnId)
    requires CallerEnabled(s, a) && c in s.conns
    ensures c in DoCaller(s, a).conns && Moved(s.conns[c], DoCaller(s, a).conns[c], MoveOf(s, a, c))
  {
    CallerFrame(s, a, c);
    if a.Append? {
      AppendMoves(s, a, c);
    } else if a.Abandon? {
      AbandonMoves(s, a, c);
    }
  }

  lemma AppendMoves(s: State, a: Action, c: ConnId)
    requires a.Append? && CallerEnabled(s, a) && c in s.conns && c in DoCaller(s, a).conns
    ensures Moved(s.conns[c], DoCaller(s, a).conns[c], MoveOf(s, a, c))
  {
  }

  lemma AbandonMoves(s: State, a: Action, c: ConnId)
    requires a.Abandon? && CallerEnabled(s, a) && c in s.conns && c in DoCaller(s, a).conns
    ensures Moved(s.conns[c], DoCaller(s, a).conns[c], MoveOf(s, a, c))
  {
  }

  lemma LocalMoves(cr: Crypto, s: State, a: Action, c: ConnId)
    requires LocalEnabled(s, a) && c in s.conns
    ensures c in DoLocal(cr, s, a).conns && Moved(s.conns[c], DoLocal(cr, s, a).conns[c], MoveOf(s, a, c))
  {
    LocalKeepsCallers(cr, s, a);
  }

  lemma AnswerMoves(s: State, a: Action, c: ConnId)
    requires AnswerEnabled(s, a) && c in s.conns
    ensures c in DoAnswer(s, a).conns && Moved(s.conns[c], DoAnswer(s, a).conns[c], MoveOf(s, a, c))
  {
  }

  lemma CrossMoves(s: State, a: Action, c: ConnId)
    requires CrossEnabled(s, a) && c in s.conns
    ensures c in DoCross(s, a).conns && Moved(s.conns[c], DoCross(s, a).conns[c], MoveOf(s, a, c))
  {
  }

  lemma NextMoves(cr: Crypto, s: State, a: Action, c: ConnId)
    requires Enabled(s, a) && c in s.conns
    ensures c in Next(cr, s, a).conns && Moved(s.conns[c], Next(cr, s, a).conns[c], MoveOf(s, a, c))
  {
    if HubEnabled(s, a) {
      HubMoves(s, a, c);
    } else if CallerEnabled(s, a) {
      CallerMoves(s, a, c);
    } else if LocalEnabled(s, a) {
      LocalMoves(cr, s, a, c);
    } else if AnswerEnabled(s, a) {
      AnswerMoves(s, a, c);
    } else {
      CrossMoves(s, a, c);
    }
  }

  /** No move of a sound queue undoes history or puts a queued request further back. */
  lemma MoveAdvances(k: Conn, l: Conn, m: Move, id: RequestId)
    requires OrderOk(k) && Moved(k, l, m)
    ensures Advances(k, l, id)
  {
    PendingDistinct(k);
    if id in k.q.pending {
      match m
      case Stays =>
      case Appends(x) => AheadAppend(k.q.pending, id, x);
      case Takes =>
      case Withdraws(x) =>
        if x == id {
          WithdrawnGone(k.q.pending, id);
        } else {
          AheadWithdraw(k.q.pending, id, x);
        }
      case Drains =>
    }
  }

  lemma StepAdvances(cr: Crypto, s: State, a: Action, c: ConnId, id: RequestId)
    requires Enabled(s, a) && c in s.conns && QueueAt(s, c)
    ensures c in Next(cr, s, a).conns && Advances(s.conns[c], Next(cr, s, a).conns[c], id)
  {
    NextMoves(cr, s, a, c);
    MoveAdvances(s.conns[c], Next(cr, s, a).conns[c], MoveOf(s, a, c), id);
  }

  /**
   * While a request stays queued, no more requests are taken on its connection than were ahead of it:
   * nobody overtakes.
   */
  lemma {:induction false} NeverOvertaken(cr: Crypto, run: seq<Action>, more: seq<Action>, c: ConnId, id: RequestId)
    requires Exec(cr, run).Some? && Exec(cr, run + more).Some?
    requires c in Exec(cr, run).value.conns && id in Exec(cr, run).value.conns[c].q.pending
    ensures c in Exec(cr, run + more).value.conns
    ensures var k, l := Exec(cr, run).value.conns[c], Exec(cr, run + more).value.conns[c];
            && Advances(k, l, id)
            && (id in l.q.pending ==> |l.taken| - |k.taken| <= Ahead(k.q.pending, id) - Ahead(l.q.pending, id))
    decreases |more|
  {
    if more == [] {
      assert run + more == run;
    } else {
      var last := |more| - 1;
      assert (run + more)[..|run + more| - 1] == run + more[..last];
      NeverOvertaken(cr, run, more[..last], c, id);
      Always(cr, run);
      Always(cr, run + more[..last]);
      var s := Exec(cr, run + more[..last]).value;
      assert QueueAt(Exec(cr, run).value, c) && QueueAt(s, c);
      StepAdvances(cr, s, more[last], c, id);
      Always(cr, run + more);
      assert QueueAt(Exec(cr, run + more).value, c);
      StillQueued(s.conns[c], id);
    }
  }

  /** An appended request is dropped, taken or pending. */
  lemma StillQueued(k: Conn, id: RequestId)
    requires OrderOk(k)
    ensures id in k.appended && id !in k.dropped && id !in k.taken ==> id in k.q.pending
  {
    WithoutMembers(k.appended, k.dropped);
    assert id in k.taken + k.q.pending ==> id in k.taken || id in k.q.pending;
  }
}
