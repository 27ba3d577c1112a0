/**
 * Every action of the signer protocol keeps every invariant: for each invariant, one lemma per
 * kind of action. What an action does not touch is carried over by naming the old fact.
 */
module SignerSteps {
  import opened Basics
  import opened SignerQueue
  import opened SignerProtocol
  import opened SignerInvariants

  // ---- the hub

  lemma HubHub(s: State, a: Action)
    requires HubEnabled(s, a) && HubOk(s)
    ensures HubOk(DoHub(s, a))
  {
    var t := DoHub(s, a);
    if a.Register? { assert DidAt(s, a.did); }
    forall c ensures HubAt(t, c) { assert HubAt(s, c); }
    forall d ensures DidAt(t, d) { assert DidAt(s, d); }
  }

  lemma HubCaller(s: State, a: Action)
    requires CallerEnabled(s, a) && HubOk(s)
    ensures HubOk(DoCaller(s, a))
  {
    var t := DoCaller(s, a);
    forall c ensures HubAt(t, c) { assert HubAt(s, c); }
    forall d ensures DidAt(t, d) { assert DidAt(s, d); }
  }

  lemma HubLocal(cr: Crypto, s: State, a: Action)
    requires LocalEnabled(s, a) && HubOk(s)
    ensures HubOk(DoLocal(cr, s, a))
  {
    var t := DoLocal(cr, s, a);
    forall c ensures HubAt(t, c) { assert HubAt(s, c); }
    forall d ensures DidAt(t, d) { assert DidAt(s, d); }
  }

  lemma HubAnswer(s: State, a: Action)
    requires AnswerEnabled(s, a) && HubOk(s)
    ensures HubOk(DoAnswer(s, a))
  {
    var t := DoAnswer(s, a);
    forall c ensures HubAt(t, c) { assert HubAt(s, c); }
    forall d ensures DidAt(t, d) { assert DidAt(s, d); }
  }

  lemma HubCross(s: State, a: Action)
    requires CrossEnabled(s, a) && HubOk(s)
    ensures HubOk(DoCross(s, a))
  {
    var t := DoCross(s, a);
    forall c ensures HubAt(t, c) { assert HubAt(s, c); }
    forall d ensures DidAt(t, d) { assert DidAt(s, d); }
  }

  // ---- ownership

  lemma OwnersHub(s: State, a: Action)
    requires HubEnabled(s, a) && HubOk(s) && OwnersOk(s)
    ensures OwnersOk(DoHub(s, a))
  {
    var t := DoHub(s, a);
    forall id ensures CallerAt(t, id) { assert CallerAt(s, id); }
    forall c, id ensures OwnedAt(t, c, id) { assert OwnedAt(s, c, id); }
  }

  lemma OwnersCaller(s: State, a: Action)
    requires CallerEnabled(s, a) && HubOk(s) && OwnersOk(s)
    ensures OwnersOk(DoCaller(s, a))
  {
    var t := DoCaller(s, a);
    if a.Call? { assert DidAt(s, a.did); }
    forall id ensures CallerAt(t, id) { assert CallerAt(s, id); }
    forall c, id ensures OwnedAt(t, c, id) { assert OwnedAt(s, c, id); }
  }

  lemma OwnersLocal(cr: Crypto, s: State, a: Action)
    requires LocalEnabled(s, a) && HubOk(s) && OwnersOk(s)
    ensures OwnersOk(DoLocal(cr, s, a))
  {
    var t := DoLocal(cr, s, a);
    forall id ensures CallerAt(t, id) { assert CallerAt(s, id); }
    forall c, id ensures OwnedAt(t, c, id) { assert OwnedAt(s, c, id); }
  }

  lemma OwnersAnswer(s: State, a: Action)
    requires AnswerEnabled(s, a) && HubOk(s) && OwnersOk(s)
    ensures OwnersOk(DoAnswer(s, a))
  {
    var t := DoAnswer(s, a);
    forall id ensures CallerAt(t, id) { assert CallerAt(s, id); }
    forall c, id ensures OwnedAt(t, c, id) { assert OwnedAt(s, c, id); }
  }

  lemma OwnersCross(s: State, a: Action)
    requires CrossEnabled(s, a) && HubOk(s) && OwnersOk(s)
    ensures OwnersOk(DoCross(s, a))
  {
    var t := DoCross(s, a);
    forall id ensures CallerAt(t, id) { assert CallerAt(s, id); }
    forall c, id ensures OwnedAt(t, c, id) { assert OwnedAt(s, c, id); }
  }

  // ---- delivery targets

  lemma TargetsHub(s: State, a: Action)
    requires HubEnabled(s, a) && HubOk(s) && QueuesOk(s) && TargetsOk(s)
    ensures TargetsOk(DoHub(s, a))
  {
    var t := DoHub(s, a);
    forall c ensures TargetAt(t, c) { assert TargetAt(s, c); }
  }

  lemma TargetsCaller(s: State, a: Action)
    requires CallerEnabled(s, a) && HubOk(s) && QueuesOk(s) && TargetsOk(s)
    ensures TargetsOk(DoCaller(s, a))
  {
    var t := DoCaller(s, a);
    forall c ensures TargetAt(t, c) { assert TargetAt(s, c); }
  }

  lemma TargetsLocal(cr: Crypto, s: State, a: Action)
    requires LocalEnabled(s, a) && HubOk(s) && QueuesOk(s) && TargetsOk(s)
    ensures TargetsOk(DoLocal(cr, s, a))
  {
    var t := DoLocal(cr, s, a);
    assert QueueAt(s, a.c);
    TakenOnlyNew(cr, s, a);
    forall c ensures TargetAt(t, c) {
      assert TargetAt(s, c) && DidAt(s, s.conns[a.c].did);
      if c == a.c {
        TargetLocalSelf(cr, s, a);
      } else {
        TargetLocalOther(cr, s, a, c);
      }
    }
  }

  lemma TargetLocalSelf(cr: Crypto, s: State, a: Action)
    requires LocalEnabled(s, a) && TargetAt(s, a.c) && DidAt(s, s.conns[a.c].did)
    requires var k, l := s.conns[a.c], LocalStep(cr, s, a);
             && (forall id :: id in k.taken ==> id in l.taken)
             && (forall id :: id in k.taken && id !in k.q.inflight ==> id !in l.q.inflight)
    ensures TargetAt(DoLocal(cr, s, a), a.c)
  {
  }

  lemma TargetLocalOther(cr: Crypto, s: State, a: Action, c: ConnId)
    requires LocalEnabled(s, a) && TargetAt(s, c) && c != a.c
    requires var k, l := s.conns[a.c], LocalStep(cr, s, a);
             && (forall id :: id in k.taken ==> id in l.taken)
             && (forall id :: id in k.taken && id !in k.q.inflight ==> id !in l.q.inflight)
    ensures TargetAt(DoLocal(cr, s, a), c)
  {
  }

  /** A local action takes no request a second time. */
  lemma TakenOnlyNew(cr: Crypto, s: State, a: Action)
    requires LocalEnabled(s, a) && MembersOk(s.conns[a.c])
    ensures var k, l := s.conns[a.c], LocalStep(cr, s, a);
            && (forall id :: id in k.taken ==> id in l.taken)
            && (forall id :: id in k.taken && id !in k.q.inflight ==> id !in l.q.inflight)
  {
  }

  lemma TargetsAnswer(s: State, a: Action)
    requires AnswerEnabled(s, a) && HubOk(s) && QueuesOk(s) && TargetsOk(s)
    ensures TargetsOk(DoAnswer(s, a))
  {
    var t := DoAnswer(s, a);
    forall c ensures TargetAt(t, c) { assert TargetAt(s, c); }
  }

  lemma TargetsCross(s: State, a: Action)
    requires CrossEnabled(s, a) && HubOk(s) && QueuesOk(s) && TargetsOk(s)
    ensures TargetsOk(DoCross(s, a))
  {
    var t := DoCross(s, a);
    forall c ensures TargetAt(t, c) {
      assert TargetAt(s, c);
      if c in s.conns && (s.conns[c].loop.Taking? || s.conns[c].loop.Sending?) {
        assert QueueAt(s, s.conns[c].loop.target);
      }
    }
  }

  // ---- wakeups

  lemma WakeHub(s: State, a: Action)
    requires HubEnabled(s, a) && HubOk(s) && OwnersOk(s) && WakeOk(s)
    ensures WakeOk(DoHub(s, a))
  {
    var t := DoHub(s, a);
    forall c ensures WakeAt(t, c) {
      assert WakeAt(s, c);
      if id :| WillNotify(s, id, c) {
        assert WillNotify(t, id, c);
      } else if d :| WillWake(s, d, c) {
        assert WillWake(t, d, c);
      }
    }
  }

  lemma WakeCaller(s: State, a: Action)
    requires CallerEnabled(s, a) && HubOk(s) && OwnersOk(s) && WakeOk(s)
    ensures WakeOk(DoCaller(s, a))
  {
    var t := DoCaller(s, a);
    forall c ensures WakeAt(t, c) {
      assert WakeAt(s, c);
      if a.Append? && s.callers[a.id].conn == c { assert WillNotify(t, a.id, c); }
      if id :| WillNotify(s, id, c) {
        assert WillNotify(t, id, c) || t.conns[c].notify;
      } else if d :| WillWake(s, d, c) {
        assert WillWake(t, d, c);
      }
    }
  }

  lemma WakeLocal(cr: Crypto, s: State, a: Action)
    requires LocalEnabled(s, a) && HubOk(s) && OwnersOk(s) && WakeOk(s)
    ensures WakeOk(DoLocal(cr, s, a))
  {
    var t := DoLocal(cr, s, a);
    forall c ensures WakeAt(t, c) {
      assert WakeAt(s, c);
      if id :| WillNotify(s, id, c) {
        assert WillNotify(t, id, c);
      } else if d :| WillWake(s, d, c) {
        assert WillWake(t, d, c);
      }
    }
  }

  lemma WakeAnswer(s: State, a: Action)
    requires AnswerEnabled(s, a) && HubOk(s) && OwnersOk(s) && WakeOk(s)
    ensures WakeOk(DoAnswer(s, a))
  {
    var t := DoAnswer(s, a);
    forall c ensures WakeAt(t, c) {
      assert WakeAt(s, c);
      if id :| WillNotify(s, id, c) {
        assert WillNotify(t, id, c);
      } else if d :| WillWake(s, d, c) {
        assert WillWake(t, d, c);
      }
    }
  }

  lemma WakeCross(s: State, a: Action)
    requires CrossEnabled(s, a) && HubOk(s) && OwnersOk(s) && WakeOk(s)
    ensures WakeOk(DoCross(s, a))
  {
    var t := DoCross(s, a);
    forall c ensures WakeAt(t, c) {
      assert WakeAt(s, c);
      if a.TakeInflight? && s.conns[a.c].loop.target == c {
        assert WillWake(t, a.c, c) || t.conns[c].q == s.conns[c].q;
      }
      if id :| WillNotify(s, id, c) {
        assert WillNotify(t, id, c);
      } else if d :| WillWake(s, d, c) {
        assert WillWake(t, d, c) || t.conns[c].notify;
      }
    }
  }

  // ---- nobody stranded

  lemma ServedHub(s: State, a: Action)
    requires HubEnabled(s, a) && HubOk(s) && OwnersOk(s) && TargetsOk(s) && ServedOk(s)
    ensures ServedOk(DoHub(s, a))
  {
    var t := DoHub(s, a);
    forall id ensures ServedAt(t, id) {
      assert ServedAt(s, id) && CallerAt(s, id);
      if d :| Sends(s, d, id) { assert Sends(t, d, id); }
    }
  }

  lemma ServedCaller(s: State, a: Action)
    requires CallerEnabled(s, a) && HubOk(s) && OwnersOk(s) && TargetsOk(s) && ServedOk(s)
    ensures ServedOk(DoCaller(s, a))
  {
    var t := DoCaller(s, a);
    if a.Abandon? { RemoveFirstMembers(s.conns[s.callers[a.id].conn].q.pending, a.id); }
    forall id ensures ServedAt(t, id) {
      assert ServedAt(s, id) && CallerAt(s, id);
      if d :| Sends(s, d, id) { assert Sends(t, d, id); }
    }
  }

  lemma ServedLocal(cr: Crypto, s: State, a: Action)
    requires LocalEnabled(s, a) && HubOk(s) && OwnersOk(s) && TargetsOk(s) && ServedOk(s)
    ensures ServedOk(DoLocal(cr, s, a))
  {
    var t := DoLocal(cr, s, a);
    assert HubAt(s, a.c);
    forall id ensures ServedAt(t, id) {
      assert ServedAt(s, id) && CallerAt(s, id);
      if d :| Sends(s, d, id) { assert Sends(t, d, id); }
    }
  }

  lemma ServedAnswer(s: State, a: Action)
    requires AnswerEnabled(s, a) && HubOk(s) && OwnersOk(s) && TargetsOk(s) && ServedOk(s)
    ensures ServedOk(DoAnswer(s, a))
  {
    var t := DoAnswer(s, a);
    forall id ensures ServedAt(t, id) {
      assert ServedAt(s, id) && CallerAt(s, id);
      if d :| Sends(s, d, id) { assert Sends(t, d, id) || t.callers[id].buffer.Some?; }
    }
  }

  lemma ServedCross(s: State, a: Action)
    requires CrossEnabled(s, a) && HubOk(s) && OwnersOk(s) && TargetsOk(s) && ServedOk(s)
    ensures ServedOk(DoCross(s, a))
  {
    var t := DoCross(s, a);
    forall id ensures ServedAt(t, id) {
      assert ServedAt(s, id) && CallerAt(s, id);
      if a.TakeInflight? {
        var pc := s.conns[a.c].loop;
        assert Sends(t, a.c, pc.id) || pc.id !in s.conns[pc.target].q.inflight;
      }
      if d :| Sends(s, d, id) { assert Sends(t, d, id); }
    }
  }

  // ---- how often a reply channel is used

  /** An answer goes to a caller that is past its append and that nothing but a failed write has answered. */
  lemma AnswerOwed(s: State, a: Action)
    requires AnswerEnabled(s, a)
    requires QueuesOk(s) && OwnersOk(s) && TargetsOk(s) && CountsOk(s) && OwedOk(s)
    ensures !s.callers[Answered(s, a)].pc.LookedUp?
    ensures if a.Bounce? then !s.callers[Answered(s, a)].bounced else Unanswered(s, Answered(s, a))
    ensures !a.Send? ==> s.callers[Answered(s, a)].conn == a.c
    ensures a.Send? ==> s.conns[a.c].loop.target in s.conns &&
                        s.callers[Answered(s, a)].conn == s.conns[a.c].loop.target &&
                        !Queued(s.conns[s.conns[a.c].loop.target], Answered(s, a))
    ensures a.FailSend? ==> Answered(s, a) !in s.conns[a.c].loop.left[1..]
  {
    var id, k := Answered(s, a), s.conns[a.c];
    assert a.FailSend? ==> id in k.loop.left;
    assert a.Bounce? ==> Handles(k, id);
    assert QueueAt(s, a.c) && OwnedAt(s, a.c, id) && TargetAt(s, a.c) && CountAt(s, id);
    if a.Send? {
      assert QueueAt(s, k.loop.target) && OwnedAt(s, k.loop.target, id);
    }
    assert OwedAt(s, a.c, id);
  }

  lemma CountsHub(s: State, a: Action)
    requires HubEnabled(s, a) && QueuesOk(s) && OwnersOk(s) && TargetsOk(s) && CountsOk(s) && OwedOk(s)
    ensures CountsOk(DoHub(s, a))
  {
    var t := DoHub(s, a);
    forall id ensures CountAt(t, id) { assert CountAt(s, id) && CallerAt(s, id); }
  }

  lemma CountsCaller(s: State, a: Action)
    requires CallerEnabled(s, a) && QueuesOk(s) && OwnersOk(s) && TargetsOk(s) && CountsOk(s) && OwedOk(s)
    ensures CountsOk(DoCaller(s, a))
  {
    var t := DoCaller(s, a);
    forall id ensures CountAt(t, id) { assert CountAt(s, id) && CallerAt(s, id); }
  }

  lemma CountsLocal(cr: Crypto, s: State, a: Action)
    requires LocalEnabled(s, a) && QueuesOk(s) && OwnersOk(s) && TargetsOk(s) && CountsOk(s) && OwedOk(s)
    ensures CountsOk(DoLocal(cr, s, a))
  {
    var t := DoLocal(cr, s, a);
    forall id ensures CountAt(t, id) { assert CountAt(s, id) && CallerAt(s, id); }
  }

  lemma CountsAnswer(s: State, a: Action)
    requires AnswerEnabled(s, a) && QueuesOk(s) && OwnersOk(s) && TargetsOk(s) && CountsOk(s) && OwedOk(s)
    ensures CountsOk(DoAnswer(s, a))
  {
    var t := DoAnswer(s, a);
    AnswerOwed(s, a);
    forall id ensures CountAt(t, id) { assert CountAt(s, id) && CallerAt(s, id); }
  }

  lemma CountsCross(s: State, a: Action)
    requires CrossEnabled(s, a) && QueuesOk(s) && OwnersOk(s) && TargetsOk(s) && CountsOk(s) && OwedOk(s)
    ensures CountsOk(DoCross(s, a))
  {
    var t := DoCross(s, a);
    forall id ensures CountAt(t, id) { assert CountAt(s, id) && CallerAt(s, id); }
  }

  // ---- who is still owed an answer

  /** Nobody is delivering a request that is still queued. */
  lemma NotSentWhileQueued(s: State, k: ConnId, id: RequestId, d: ConnId)
    requires QueuesOk(s) && OwnersOk(s) && TargetsOk(s)
    requires k in s.conns && Queued(s.conns[k], id)
    ensures !Sends(s, d, id)
  {
    assert QueueAt(s, k) && OwnedAt(s, k, id);
    if d in s.conns && s.conns[d].loop.Sending? {
      var e := s.conns[d].loop.target;
      assert TargetAt(s, d) && QueueAt(s, e) && OwnedAt(s, e, id);
    }
  }

  lemma OwedHub(s: State, a: Action)
    requires HubEnabled(s, a) && QueuesOk(s) && OwnersOk(s) && TargetsOk(s) && CountsOk(s) && OwedOk(s) && SolesOk(s)
    ensures OwedOk(DoHub(s, a))
  {
    var t := DoHub(s, a);
    forall c, id ensures OwedAt(t, c, id) {
      assert OwedAt(s, c, id);
      OwedHubAt(s, a, c, id);
    }
  }

  lemma OwedHubAt(s: State, a: Action, c: ConnId, id: RequestId)
    requires HubEnabled(s, a) && OwedAt(s, c, id)
    ensures OwedAt(DoHub(s, a), c, id)
  {
    var t := DoHub(s, a);
    if c in s.conns {
      assert t.conns[c].q == s.conns[c].q;
    }
  }

  lemma OwedCaller(s: State, a: Action)
    requires CallerEnabled(s, a) && QueuesOk(s) && OwnersOk(s) && TargetsOk(s) && CountsOk(s) && OwedOk(s) && SolesOk(s)
    ensures OwedOk(DoCaller(s, a))
  {
    var t := DoCaller(s, a);
    forall c, id ensures OwedAt(t, c, id) {
      assert OwedAt(s, c, id) && QueueAt(s, c) && OwnedAt(s, c, id) && CountAt(s, id);
      OwedCallerAt(s, a, c, id);
    }
  }

  lemma OwedCallerAt(s: State, a: Action, c: ConnId, id: RequestId)
    requires CallerEnabled(s, a) && OwedAt(s, c, id) && CountAt(s, id)
    ensures OwedAt(DoCaller(s, a), c, id)
  {
    if a.Abandon? { RemoveFirstMembers(s.conns[s.callers[a.id].conn].q.pending, a.id); }
  }

  lemma OwedLocal(cr: Crypto, s: State, a: Action)
    requires LocalEnabled(s, a) && QueuesOk(s) && OwnersOk(s) && TargetsOk(s) && CountsOk(s) && OwedOk(s) && SolesOk(s)
    ensures OwedOk(DoLocal(cr, s, a))
  {
    forall c, id ensures OwedAt(DoLocal(cr, s, a), c, id) {
      assert OwedAt(s, c, id);
      if c in s.conns { OwedLocalAt(cr, s, a, c, id); }
    }
  }

  lemma OwedLocalAt(cr: Crypto, s: State, a: Action, c: ConnId, id: RequestId)
    requires LocalEnabled(s, a) && c in s.conns && OwedAt(s, c, id)
    ensures OwedAt(DoLocal(cr, s, a), c, id)
  {
    LocalKeepsCallers(cr, s, a);
    if c == a.c { LocalOwesNothingNew(cr, s, a, id); }
  }

  /** A local action queues nobody, lists nobody who was not queued, and starts no delivery. */
  lemma LocalOwesNothingNew(cr: Crypto, s: State, a: Action, id: RequestId)
    requires LocalEnabled(s, a)
    ensures var k, l := s.conns[a.c], LocalStep(cr, s, a);
            && (Queued(l, id) && !l.loop.Failing? ==> Queued(k, id) && !k.loop.Failing?)
            && (l.loop.Failing? && id in l.loop.left ==>
                  (k.loop.Failing? && id in k.loop.left) || (Queued(k, id) && !k.loop.Failing?))
            && (l.loop.Sending? ==> l.loop == k.loop)
  {
    if a.FailStart? { assert id in s.conns[a.c].q.inflight <==> id in (set x | x in a.order); }
  }

  /** After its answer, nobody owes the caller another one. */
  lemma AnsweredOnce(s: State, a: Action, c: ConnId)
    requires AnswerEnabled(s, a)
    requires QueuesOk(s) && OwnersOk(s) && TargetsOk(s) && CountsOk(s) && OwedOk(s) && SolesOk(s)
    ensures OwedAt(DoAnswer(s, a), c, Answered(s, a))
  {
    var id := Answered(s, a);
    AnswerOwed(s, a);
    assert OwedAt(s, c, id) && QueueAt(s, c) && OwnedAt(s, c, id) && SoleSender(s, a.c, c, id);
    if a.FailSend? {
      assert id in s.conns[a.c].loop.left && QueueAt(s, a.c);
      NotSentWhileQueued(s, a.c, id, c);
    }
  }

  lemma OwedAnswer(s: State, a: Action)
    requires AnswerEnabled(s, a) && QueuesOk(s) && OwnersOk(s) && TargetsOk(s) && CountsOk(s) && OwedOk(s) && SolesOk(s)
    ensures OwedOk(DoAnswer(s, a))
  {
    var t := DoAnswer(s, a);
    AnswerOwed(s, a);
    forall c, id ensures OwedAt(t, c, id) {
      assert OwedAt(s, c, id) && QueueAt(s, c) && OwnedAt(s, c, id);
      if id == Answered(s, a) { AnsweredOnce(s, a, c); }
    }
  }

  lemma OwedCross(s: State, a: Action)
    requires CrossEnabled(s, a) && QueuesOk(s) && OwnersOk(s) && TargetsOk(s) && CountsOk(s) && OwedOk(s) && SolesOk(s)
    ensures OwedOk(DoCross(s, a))
  {
    var t := DoCross(s, a);
    forall c, id ensures OwedAt(t, c, id) {
      assert OwedAt(s, c, id) && QueueAt(s, c) && OwnedAt(s, c, id);
      assert OwedAt(s, s.conns[a.c].loop.target, id);
    }
  }

  // ---- one deliverer per request

  lemma SoleHub(s: State, a: Action)
    requires HubEnabled(s, a) && QueuesOk(s) && OwnersOk(s) && TargetsOk(s) && SolesOk(s)
    ensures SolesOk(DoHub(s, a))
  {
    var t := DoHub(s, a);
    forall c, d, id ensures SoleSender(t, c, d, id) { assert SoleSender(s, c, d, id); }
  }

  lemma SoleCaller(s: State, a: Action)
    requires CallerEnabled(s, a) && QueuesOk(s) && OwnersOk(s) && TargetsOk(s) && SolesOk(s)
    ensures SolesOk(DoCaller(s, a))
  {
    var t := DoCaller(s, a);
    forall c, d, id ensures SoleSender(t, c, d, id) { assert SoleSender(s, c, d, id); }
  }

  lemma SoleLocal(cr: Crypto, s: State, a: Action)
    requires LocalEnabled(s, a) && QueuesOk(s) && OwnersOk(s) && TargetsOk(s) && SolesOk(s)
    ensures SolesOk(DoLocal(cr, s, a))
  {
    var t := DoLocal(cr, s, a);
    forall c, d, id ensures SoleSender(t, c, d, id) { assert SoleSender(s, c, d, id); }
  }

  lemma SoleAnswer(s: State, a: Action)
    requires AnswerEnabled(s, a) && QueuesOk(s) && OwnersOk(s) && TargetsOk(s) && SolesOk(s)
    ensures SolesOk(DoAnswer(s, a))
  {
    var t := DoAnswer(s, a);
    forall c, d, id ensures SoleSender(t, c, d, id) { assert SoleSender(s, c, d, id); }
  }

  lemma SoleCross(s: State, a: Action)
    requires CrossEnabled(s, a) && QueuesOk(s) && OwnersOk(s) && TargetsOk(s) && SolesOk(s)
    ensures SolesOk(DoCross(s, a))
  {
    var t := DoCross(s, a);
    forall c, d, id ensures SoleSender(t, c, d, id) {
      assert SoleSender(s, c, d, id);
      var k := s.conns[a.c].loop.target;
      if id in s.conns[k].q.inflight {
        NotSentWhileQueued(s, k, id, c);
        NotSentWhileQueued(s, k, id, d);
      }
    }
  }

  // ---- recorded payloads

  lemma PayloadsHub(s: State, a: Action)
    requires HubEnabled(s, a) && QueuesOk(s) && OwnersOk(s) && PayloadsOk(s)
    ensures PayloadsOk(DoHub(s, a))
  {
    var t := DoHub(s, a);
    forall c, id ensures PayloadAt(t, c, id) { assert PayloadAt(s, c, id); }
  }

  lemma PayloadsCaller(s: State, a: Action)
    requires CallerEnabled(s, a) && QueuesOk(s) && OwnersOk(s) && PayloadsOk(s)
    ensures PayloadsOk(DoCaller(s, a))
  {
    var t := DoCaller(s, a);
    forall c, id ensures PayloadAt(t, c, id) { assert PayloadAt(s, c, id); }
  }

  lemma PayloadsLocal(cr: Crypto, s: State, a: Action)
    requires LocalEnabled(s, a) && QueuesOk(s) && OwnersOk(s) && PayloadsOk(s)
    ensures PayloadsOk(DoLocal(cr, s, a))
  {
    var t := DoLocal(cr, s, a);
    forall c, id ensures PayloadAt(t, c, id) {
      assert PayloadAt(s, c, id);
      if c == a.c { PayloadLocalAt(cr, s, a, id); }
    }
  }

  lemma PayloadLocalAt(cr: Crypto, s: State, a: Action, id: RequestId)
    requires LocalEnabled(s, a) && PayloadAt(s, a.c, id)
    ensures PayloadAt(DoLocal(cr, s, a), a.c, id)
  {
  }

  lemma PayloadsAnswer(s: State, a: Action)
    requires AnswerEnabled(s, a) && QueuesOk(s) && OwnersOk(s) && PayloadsOk(s)
    ensures PayloadsOk(DoAnswer(s, a))
  {
    var t := DoAnswer(s, a);
    forall c, id ensures PayloadAt(t, c, id) { assert PayloadAt(s, c, id); }
  }

  lemma PayloadsCross(s: State, a: Action)
    requires CrossEnabled(s, a) && QueuesOk(s) && OwnersOk(s) && PayloadsOk(s)
    ensures PayloadsOk(DoCross(s, a))
  {
    var t := DoCross(s, a);
    forall c, id ensures PayloadAt(t, c, id) { assert PayloadAt(s, c, id); }
  }

  // ---- signatures

  /** An action of a caller changes nothing of a connection but its queue, its history and its notify channel. */
  lemma CallerFrame(s: State, a: Action, c: ConnId)
    requires CallerEnabled(s, a)
    ensures c in DoCaller(s, a).conns <==> c in s.conns
    ensures c in s.conns ==>
              var k, l := s.conns[c], DoCaller(s, a).conns[c];
              && l == k.(q := l.q, notify := l.notify, appended := l.appended, dropped := l.dropped)
              && (!a.Append? && !a.Abandon? ==> l == k.(notify := l.notify))
  {
  }

  /** It changes no other caller. */
  lemma CallerAlone(s: State, a: Action, id: RequestId)
    requires CallerEnabled(s, a) && a.id != id
    ensures id in DoCaller(s, a).callers <==> id in s.callers
    ensures id in s.callers ==> DoCaller(s, a).callers[id] == s.callers[id]
  {
  }

  /** Where callers and captured keys stay, a connection that carries no new signature keeps an old one right. */
  lemma CarriedFrame(cr: Crypto, s: State, t: State, c: ConnId)
    requires CarriedAt(cr, s, c) && c in s.conns && c in t.conns
    requires t.conns[c].signingKey == s.conns[c].signingKey && t.conns[c].authKey == s.conns[c].authKey
    requires t.conns[c].loop == s.conns[c].loop || Idle(t.conns[c].loop)
    requires forall id :: id in s.callers ==>
               id in t.callers && t.callers[id].conn == s.callers[id].conn && t.callers[id].msg == s.callers[id].msg
    ensures CarriedAt(cr, t, c)
  {
  }

  predicate Idle(pc: LoopPc) {
    !pc.Delivering? && !pc.Taking? && !pc.Sending?
  }

  lemma ReceivedFrame(cr: Crypto, s: State, t: State, id: RequestId)
    requires ReceivedAt(cr, s, id) && CallerAt(s, id) && id in s.callers && id in t.callers
    requires t.callers[id] == s.callers[id] && s.callers[id].conn in t.conns
    requires t.conns[s.callers[id].conn].signingKey == s.conns[s.callers[id].conn].signingKey
    requires t.conns[s.callers[id].conn].authKey == s.conns[s.callers[id].conn].authKey
    ensures ReceivedAt(cr, t, id)
  {
  }

  lemma HubKeepsCallers(s: State, a: Action)
    requires HubEnabled(s, a)
    ensures DoHub(s, a).callers == s.callers
    ensures forall c :: c in DoHub(s, a).conns && c !in s.conns ==> DoHub(s, a).conns[c].loop == Selecting
  {
  }

  lemma SignaturesHub(cr: Crypto, s: State, a: Action)
    requires HubEnabled(s, a) && QueuesOk(s) && OwnersOk(s) && PayloadsOk(s) && SignaturesOk(cr, s)
    ensures SignaturesOk(cr, DoHub(s, a))
  {
    var t := DoHub(s, a);
    HubKeepsCallers(s, a);
    forall c ensures CarriedAt(cr, t, c) {
      assert CarriedAt(cr, s, c);
      if c in s.conns {
        HubCloses(s, a, c);
        CarriedFrame(cr, s, t, c);
      }
    }
    forall id ensures ReceivedAt(cr, t, id) {
      assert ReceivedAt(cr, s, id) && CallerAt(s, id);
      if id in s.callers {
        HubCloses(s, a, s.callers[id].conn);
        ReceivedFrame(cr, s, t, id);
      }
    }
  }

  lemma SignaturesCaller(cr: Crypto, s: State, a: Action)
    requires CallerEnabled(s, a) && QueuesOk(s) && OwnersOk(s) && PayloadsOk(s) && SignaturesOk(cr, s)
    ensures SignaturesOk(cr, DoCaller(s, a))
  {
    var t := DoCaller(s, a);
    forall c ensures CarriedAt(cr, t, c) {
      assert CarriedAt(cr, s, c);
      if c in s.conns { CarriedFrame(cr, s, t, c); }
    }
    forall id ensures ReceivedAt(cr, t, id) {
      assert ReceivedAt(cr, s, id) && CallerAt(s, id);
      ReceivedCallerAt(cr, s, a, id);
    }
  }

  lemma ReceivedCallerAt(cr: Crypto, s: State, a: Action, id: RequestId)
    requires CallerEnabled(s, a) && ReceivedAt(cr, s, id) && CallerAt(s, id)
    ensures ReceivedAt(cr, DoCaller(s, a), id)
  {
    if id in s.callers {
      CallerFrame(s, a, s.callers[id].conn);
      if a.id != id {
        CallerAlone(s, a, id);
        ReceivedFrame(cr, s, DoCaller(s, a), id);
      } else {
        ReceivedOwn(cr, s, a);
      }
    } else if a.id != id {
      CallerAlone(s, a, id);
    }
  }

  lemma ReceivedOwn(cr: Crypto, s: State, a: Action)
    requires CallerEnabled(s, a) && a.id in s.callers && ReceivedAt(cr, s, a.id) && CallerAt(s, a.id)
    requires DoCaller(s, a).conns.Keys == s.conns.Keys
    requires var k, l := s.conns[s.callers[a.id].conn], DoCaller(s, a).conns[s.callers[a.id].conn];
             l.signingKey == k.signingKey && l.authKey == k.authKey
    ensures ReceivedAt(cr, DoCaller(s, a), a.id)
  {
  }

  lemma LocalKeepsCallers(cr: Crypto, s: State, a: Action)
    requires LocalEnabled(s, a)
    ensures var t := DoLocal(cr, s, a); t.callers == s.callers && t.conns == s.conns[a.c := LocalStep(cr, s, a)]
    ensures var k, l := s.conns[a.c], LocalStep(cr, s, a); l.signingKey == k.signingKey && l.authKey == k.authKey
  {
  }

  lemma SignaturesLocal(cr: Crypto, s: State, a: Action)
    requires LocalEnabled(s, a) && QueuesOk(s) && OwnersOk(s) && PayloadsOk(s) && SignaturesOk(cr, s)
    ensures SignaturesOk(cr, DoLocal(cr, s, a))
  {
    var t := DoLocal(cr, s, a);
    LocalKeepsCallers(cr, s, a);
    forall c ensures CarriedAt(cr, t, c) {
      assert CarriedAt(cr, s, c);
      if c == a.c {
        if a.Respond? {
          assert PayloadAt(s, c, a.m.requestId) && QueueAt(s, c) && OwnedAt(s, c, a.m.requestId);
        }
        CarriedLocalAt(cr, s, a);
      } else if c in s.conns {
        CarriedFrame(cr, s, t, c);
      }
    }
    forall id ensures ReceivedAt(cr, t, id) {
      assert ReceivedAt(cr, s, id) && CallerAt(s, id);
      if id in s.callers { ReceivedFrame(cr, s, t, id); }
    }
  }

  lemma CarriedLocalAt(cr: Crypto, s: State, a: Action)
    requires LocalEnabled(s, a) && CarriedAt(cr, s, a.c)
    requires a.Respond? ==>
               PayloadAt(s, a.c, a.m.requestId) && MembersOk(s.conns[a.c]) && OwnedAt(s, a.c, a.m.requestId)
    ensures CarriedAt(cr, DoLocal(cr, s, a), a.c)
  {
    if a.Respond? {
      RespondCarries(cr, s, a);
    }
  }

  /** A response that verifies is carried with the payload of its own request. */
  lemma RespondCarries(cr: Crypto, s: State, a: Action)
    requires a.Respond? && LocalEnabled(s, a) && CarriedAt(cr, s, a.c)
    requires PayloadAt(s, a.c, a.m.requestId) && MembersOk(s.conns[a.c]) && OwnedAt(s, a.c, a.m.requestId)
    ensures CarriedAt(cr, DoLocal(cr, s, a), a.c)
  {
    var k, id := s.conns[a.c], a.m.requestId;
    if id in k.payloads {
      assert Handles(k, id);
      var sig := VerifyResponse(cr, k.authKey, k.signingKey, k.payloads[id], a.m);
      if sig.Some? {
        assert Vouched(cr, k.authKey, k.payloads[id], sig.value);
      }
    }
  }

  lemma SignaturesAnswer(cr: Crypto, s: State, a: Action)
    requires AnswerEnabled(s, a) && QueuesOk(s) && OwnersOk(s) && PayloadsOk(s) && SignaturesOk(cr, s)
    ensures SignaturesOk(cr, DoAnswer(s, a))
  {
    var t := DoAnswer(s, a);
    assert CarriedAt(cr, s, a.c);
    forall c ensures CarriedAt(cr, t, c) { assert CarriedAt(cr, s, c); }
    forall id ensures ReceivedAt(cr, t, id) { assert ReceivedAt(cr, s, id) && CallerAt(s, id); }
  }

  lemma SignaturesCross(cr: Crypto, s: State, a: Action)
    requires CrossEnabled(s, a) && QueuesOk(s) && OwnersOk(s) && PayloadsOk(s) && SignaturesOk(cr, s)
    ensures SignaturesOk(cr, DoCross(s, a))
  {
    var t := DoCross(s, a);
    forall c ensures CarriedAt(cr, t, c) { assert CarriedAt(cr, s, c); }
    forall id ensures ReceivedAt(cr, t, id) { assert ReceivedAt(cr, s, id) && CallerAt(s, id); }
  }

  // ---- order and conservation

  /** Anything that only lets go of ids keeps the queue invariant. */
  lemma QueueRelease(k: Conn, l: Conn)
    requires OrderOk(k) && MembersOk(k)
    requires l.q.pending == k.q.pending && l.q.inflight <= k.q.inflight
    requires l.appended == k.appended && l.taken == k.taken && l.dropped == k.dropped
    requires forall id :: Handles(l, id) ==> Handles(k, id)
    requires l.loop.Failing? ==> NoDuplicates(l.loop.left) && forall id :: id in l.loop.left ==> Queued(l, id)
    ensures OrderOk(l) && MembersOk(l)
  {
    SubsetSize(l.q.inflight, k.q.inflight);
  }

  lemma SubsetSize(a: set<RequestId>, b: set<RequestId>)
    requires a <= b
    ensures |a| <= |b|
  {
    assert b == a + (b - a);
  }

  lemma PendingDistinct(k: Conn)
    requires OrderOk(k)
    ensures NoDuplicates(k.q.pending)
  {
    WithoutKeepsDistinct(k.appended, k.dropped);
    assert forall i :: 0 <= i < |k.q.pending| ==> (k.taken + k.q.pending)[|k.taken| + i] == k.q.pending[i];
  }

  lemma QueueAppend(k: Conn, id: RequestId, l: Conn)
    requires OrderOk(k) && MembersOk(k) && !k.loop.Failing? && id !in k.appended
    requires l == k.(q := Enqueue(k.q, id), appended := k.appended + [id])
    ensures OrderOk(l) && MembersOk(l)
  {
    WithoutConcat(k.appended, [id], k.dropped);
    assert forall x :: Handles(l, x) <==> Handles(k, x);
  }

  lemma QueueTake(k: Conn, l: Conn)
    requires OrderOk(k) && MembersOk(k) && !k.loop.Failing? && Ready(k.q)
    requires l == k.(q := TakeHead(k.q), taken := k.taken + [k.q.pending[0]], pump := Handing(k.q.pending[0]))
    ensures OrderOk(l) && MembersOk(l)
  {
    var head := k.q.pending[0];
    WithoutKeepsDistinct(k.appended, k.dropped);
    assert l.taken + l.q.pending == k.taken + k.q.pending;
    assert (k.taken + k.q.pending)[|k.taken|] == head;
    forall id | id in l.q.pending
      ensures id in k.q.pending && id !in l.taken
    {
      var i :| 0 <= i < |l.q.pending| && l.q.pending[i] == id;
      assert (k.taken + k.q.pending)[|k.taken| + 1 + i] == id;
    }
    assert forall id :: Handles(l, id) ==> Handles(k, id) || id == head;
  }

  lemma QueueWithdraw(k: Conn, id: RequestId, l: Conn)
    requires OrderOk(k) && MembersOk(k) && !k.loop.Failing?
    requires l == k.(q := Withdraw(k.q, id), dropped := k.dropped + (if id in k.q.pending then {id} else {}))
    ensures OrderOk(l) && MembersOk(l)
  {
    RemoveFirstMembers(k.q.pending, id);
    assert forall x :: Handles(l, x) <==> Handles(k, x);
    if id in k.q.pending {
      PendingDistinct(k);
      RemoveFirstIsWithout(k.q.pending, id);
      WithoutMembers(k.q.pending, {id});
      WithoutTwice(k.appended, k.dropped, {id});
      WithoutConcat(k.taken, k.q.pending, {id});
      WithoutDisjoint(k.taken, {id});
    } else {
      RemoveFirstAbsent(k.q.pending, id);
      assert l.dropped == k.dropped;
    }
  }

  lemma QueueDrain(k: Conn, l: Conn)
    requires OrderOk(k) && MembersOk(k)
    requires l == k.(loop := Gone, q := EMPTY, dropped := k.dropped + (set x | x in k.q.pending))
    ensures OrderOk(l) && MembersOk(l)
  {
    var all := set x | x in k.q.pending;
    WithoutTwice(k.appended, k.dropped, all);
    WithoutConcat(k.taken, k.q.pending, all);
    WithoutDisjoint(k.taken, all);
    WithoutAll(k.q.pending, all);
    assert forall x :: Handles(l, x) ==> Handles(k, x);
  }

  lemma StartDistinct(k: Conn, order: seq<RequestId>)
    requires OrderOk(k) && MembersOk(k) && Enumerates(order, k.q.inflight)
    ensures NoDuplicates(order + k.q.pending)
    ensures forall id :: id in order + k.q.pending ==> Queued(k, id)
  {
    PendingDistinct(k);
    forall id | id in order
      ensures id in k.q.inflight && id !in k.q.pending
    {
      assert id in (set x | x in order);
    }
    forall i, j | 0 <= i < j < |order + k.q.pending|
      ensures (order + k.q.pending)[i] != (order + k.q.pending)[j]
    {
      if i < |order| <= j { assert order[i] in order && k.q.pending[j - |order|] in k.q.pending; }
    }
  }

  lemma LocalQueue(cr: Crypto, s: State, a: Action)
    requires LocalEnabled(s, a) && QueueAt(s, a.c)
    ensures OrderOk(LocalStep(cr, s, a)) && MembersOk(LocalStep(cr, s, a))
  {
    var k, l := s.conns[a.c], LocalStep(cr, s, a);
    if a.PumpCheck? && Ready(k.q) {
      QueueTake(k, l);
    } else if a.FailEnd? {
      QueueDrain(k, l);
    } else if a.FailStart? {
      StartDistinct(k, a.order);
      QueueRelease(k, l);
    } else {
      LocalReleases(cr, s, a);
      QueueRelease(k, l);
    }
  }

  lemma LocalReleases(cr: Crypto, s: State, a: Action)
    requires LocalEnabled(s, a) && !a.FailEnd? && !a.FailStart? && !(a.PumpCheck? && Ready(s.conns[a.c].q))
    ensures var k, l := s.conns[a.c], LocalStep(cr, s, a);
            && l.q == k.q && l.appended == k.appended && l.taken == k.taken && l.dropped == k.dropped
            && (forall id :: Handles(l, id) ==> Handles(k, id))
            && (l.loop.Failing? ==> l.loop == k.loop)
  {
  }

  lemma AnswerQueue(s: State, a: Action)
    requires AnswerEnabled(s, a) && QueueAt(s, a.c)
    ensures QueueAt(DoAnswer(s, a), a.c)
  {
    var k, l := s.conns[a.c], DoAnswer(s, a).conns[a.c];
    assert forall id :: Handles(l, id) ==> Handles(k, id);
    assert a.FailSend? ==> forall id :: id in k.loop.left[1..] ==> id in k.loop.left;
    QueueRelease(k, l);
  }

  lemma CrossQueue(s: State, a: Action, c: ConnId)
    requires CrossEnabled(s, a) && c in s.conns && QueueAt(s, c)
    ensures QueueAt(DoCross(s, a), c)
  {
    QueueRelease(s.conns[c], DoCross(s, a).conns[c]);
  }

  /** The hub's actions change nothing of a connection but its done channel and its loop. */
  predicate Closes(k: Conn, l: Conn) {
    l == k.(done := l.done, loop := l.loop) && (l.loop == k.loop || l.loop == Unregistered)
  }

  lemma RegisterCloses(s: State, a: Action, c: ConnId)
    requires a.Register? && HubEnabled(s, a) && c in s.conns
    ensures c in DoHub(s, a).conns && Closes(s.conns[c], DoHub(s, a).conns[c])
  {
  }

  lemma UnregisterCloses(s: State, a: Action, c: ConnId)
    requires a.Unregister? && HubEnabled(s, a) && c in s.conns
    ensures c in DoHub(s, a).conns && Closes(s.conns[c], DoHub(s, a).conns[c])
  {
  }

  lemma HubCloses(s: State, a: Action, c: ConnId)
    requires HubEnabled(s, a) && c in s.conns
    ensures c in DoHub(s, a).conns && Closes(s.conns[c], DoHub(s, a).conns[c])
  {
    if a.Register? {
      RegisterCloses(s, a, c);
    } else {
      UnregisterCloses(s, a, c);
    }
  }

  lemma FreshQueue(s: State, a: Action, c: ConnId)
    requires HubEnabled(s, a) && c !in s.conns && c in DoHub(s, a).conns
    ensures DoHub(s, a).conns[c].q == EMPTY && DoHub(s, a).conns[c] == Fresh(a.did, a.authKey, a.signingKey)
  {
  }

  lemma FreshQueueOk(k: Conn)
    requires k == Fresh(k.did, k.authKey, k.signingKey)
    ensures OrderOk(k) && MembersOk(k)
  {
  }

  lemma QueueClosed(k: Conn, l: Conn)
    requires OrderOk(k) && MembersOk(k) && Closes(k, l)
    ensures OrderOk(l) && MembersOk(l)
  {
    QueueRelease(k, l);
  }

  lemma QueuesHub(s: State, a: Action)
    requires HubEnabled(s, a) && QueuesOk(s) && OwnersOk(s)
    ensures QueuesOk(DoHub(s, a))
  {
    var t := DoHub(s, a);
    forall c ensures QueueAt(t, c) {
      assert QueueAt(s, c);
      if c in s.conns {
        HubCloses(s, a, c);
        QueueClosed(s.conns[c], t.conns[c]);
      } else if c in t.conns {
        FreshQueue(s, a, c);
        FreshQueueOk(t.conns[c]);
      }
    }
  }

  lemma AppendQueue(s: State, a: Action)
    requires a.Append? && CallerEnabled(s, a) && QueueAt(s, s.callers[a.id].conn)
    requires a.id !in s.conns[s.callers[a.id].conn].appended
    ensures QueueAt(DoCaller(s, a), s.callers[a.id].conn)
  {
    var c := s.callers[a.id].conn;
    QueueAppend(s.conns[c], a.id, DoCaller(s, a).conns[c]);
  }

  lemma AbandonQueue(s: State, a: Action)
    requires a.Abandon? && CallerEnabled(s, a) && QueueAt(s, s.callers[a.id].conn)
    ensures QueueAt(DoCaller(s, a), s.callers[a.id].conn)
  {
    var c := s.callers[a.id].conn;
    QueueWithdraw(s.conns[c], a.id, DoCaller(s, a).conns[c]);
  }

  /** Whatever else a caller does leaves a queue as it is. */
  lemma CallerLeavesQueue(s: State, a: Action, c: ConnId)
    requires CallerEnabled(s, a) && c in s.conns
    requires a.Append? || a.Abandon? ==> s.callers[a.id].conn != c
    ensures c in DoCaller(s, a).conns
    ensures DoCaller(s, a).conns[c] == s.conns[c].(notify := DoCaller(s, a).conns[c].notify)
  {
  }

  lemma QueueNotified(k: Conn, l: Conn)
    requires OrderOk(k) && MembersOk(k) && l == k.(notify := l.notify)
    ensures OrderOk(l) && MembersOk(l)
  {
    QueueRelease(k, l);
  }

  lemma QueuesCaller(s: State, a: Action)
    requires CallerEnabled(s, a) && QueuesOk(s) && OwnersOk(s)
    ensures QueuesOk(DoCaller(s, a))
  {
    forall c ensures QueueAt(DoCaller(s, a), c) {
      assert QueueAt(s, c) && OwnedAt(s, c, a.id);
      CallerFrame(s, a, c);
      if c in s.conns { CallerQueue(s, a, c); }
    }
  }

  lemma CallerQueue(s: State, a: Action, c: ConnId)
    requires CallerEnabled(s, a) && c in s.conns && QueueAt(s, c) && OwnedAt(s, c, a.id)
    ensures QueueAt(DoCaller(s, a), c)
  {
    if a.Append? && s.callers[a.id].conn == c {
      AppendQueue(s, a);
    } else if a.Abandon? && s.callers[a.id].conn == c {
      AbandonQueue(s, a);
    } else {
      CallerLeavesQueue(s, a, c);
      QueueNotified(s.conns[c], DoCaller(s, a).conns[c]);
    }
  }

  lemma QueuesLocal(cr: Crypto, s: State, a: Action)
    requires LocalEnabled(s, a) && QueuesOk(s) && OwnersOk(s)
    ensures QueuesOk(DoLocal(cr, s, a))
  {
    var t := DoLocal(cr, s, a);
    forall c ensures QueueAt(t, c) {
      assert QueueAt(s, c);
      if c == a.c { LocalQueue(cr, s, a); }
    }
  }

  lemma QueuesAnswer(s: State, a: Action)
    requires AnswerEnabled(s, a) && QueuesOk(s) && OwnersOk(s)
    ensures QueuesOk(DoAnswer(s, a))
  {
    var t := DoAnswer(s, a);
    forall c ensures QueueAt(t, c) {
      assert QueueAt(s, c);
      if c == a.c { AnswerQueue(s, a); }
    }
  }

  lemma QueuesCross(s: State, a: Action)
    requires CrossEnabled(s, a) && QueuesOk(s) && OwnersOk(s)
    ensures QueuesOk(DoCross(s, a))
  {
    var t := DoCross(s, a);
    forall c ensures QueueAt(t, c) {
      assert QueueAt(s, c);
      if c in s.conns { CrossQueue(s, a, c); }
    }
  }

  // ---- every invariant, every action

  lemma InvHub(cr: Crypto, s: State, a: Action)
    requires HubEnabled(s, a) && Inv(cr, s)
    ensures Inv(cr, DoHub(s, a))
  {
    HubHub(s, a);
    OwnersHub(s, a);
    TargetsHub(s, a);
    WakeHub(s, a);
    ServedHub(s, a);
    CountsHub(s, a);
    OwedHub(s, a);
    SoleHub(s, a);
    PayloadsHub(s, a);
    SignaturesHub(cr, s, a);
    QueuesHub(s, a);
  }

  lemma InvCaller(cr: Crypto, s: State, a: Action)
    requires CallerEnabled(s, a) && Inv(cr, s)
    ensures Inv(cr, DoCaller(s, a))
  {
    HubCaller(s, a);
    OwnersCaller(s, a);
    TargetsCaller(s, a);
    WakeCaller(s, a);
    ServedCaller(s, a);
    CountsCaller(s, a);
    OwedCaller(s, a);
    SoleCaller(s, a);
    PayloadsCaller(s, a);
    SignaturesCaller(cr, s, a);
    QueuesCaller(s, a);
  }

  lemma InvLocal(cr: Crypto, s: State, a: Action)
    requires LocalEnabled(s, a) && Inv(cr, s)
    ensures Inv(cr, DoLocal(cr, s, a))
  {
    HubLocal(cr, s, a);
    OwnersLocal(cr, s, a);
    TargetsLocal(cr, s, a);
    WakeLocal(cr, s, a);
    ServedLocal(cr, s, a);
    CountsLocal(cr, s, a);
    OwedLocal(cr, s, a);
    SoleLocal(cr, s, a);
    PayloadsLocal(cr, s, a);
    SignaturesLocal(cr, s, a);
    QueuesLocal(cr, s, a);
  }

  lemma InvAnswer(cr: Crypto, s: State, a: Action)
    requires AnswerEnabled(s, a) && Inv(cr, s)
    ensures Inv(cr, DoAnswer(s, a))
  {
    HubAnswer(s, a);
    OwnersAnswer(s, a);
    TargetsAnswer(s, a);
    WakeAnswer(s, a);
    ServedAnswer(s, a);
    CountsAnswer(s, a);
    OwedAnswer(s, a);
    SoleAnswer(s, a);
    PayloadsAnswer(s, a);
    SignaturesAnswer(cr, s, a);
    QueuesAnswer(s, a);
  }

  lemma InvCross(cr: Crypto, s: State, a: Action)
    requires CrossEnabled(s, a) && Inv(cr, s)
    ensures Inv(cr, DoCross(s, a))
  {
    HubCross(s, a);
    OwnersCross(s, a);
    TargetsCross(s, a);
    WakeCross(s, a);
    ServedCross(s, a);
    CountsCross(s, a);
    OwedCross(s, a);
    SoleCross(s, a);
    PayloadsCross(s, a);
    SignaturesCross(cr, s, a);
    QueuesCross(s, a);
  }

  lemma InvKept(cr: Crypto, s: State, a: Action)
    requires Enabled(s, a) && Inv(cr, s)
    ensures Inv(cr, Next(cr, s, a))
  {
    if HubEnabled(s, a) {
      InvHub(cr, s, a);
    } else if CallerEnabled(s, a) {
      InvCaller(cr, s, a);
    } else if LocalEnabled(s, a) {
      InvLocal(cr, s, a);
    } else if AnswerEnabled(s, a) {
      InvAnswer(cr, s, a);
    } else {
      InvCross(cr, s, a);
    }
  }
}
