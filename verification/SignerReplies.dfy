/**
 * How many values a reply channel gets: exactly one per request that somebody has answered, and one
 * more if the socket write of that request failed.
 */
module SignerReplies {
  import opened Basics
  import opened SignerQueue
  import opened SignerProtocol
  import opened SignerInvariants
  import opened SignerSteps
  import opened SignerTheorems

  /** Somebody will still send a reply to `id`: it is queued and not yet reached by failAll, or a deliverer has it. */
  ghost predicate Owes(s: State, c: ConnId, id: RequestId) {
    || (c in s.conns && QueueOwes(s.conns[c], id))
    || exists d :: Sends(s, d, id)
  }

  predicate QueueOwes(k: Conn, id: RequestId) {
    if k.loop.Failing? then id in k.loop.left else Queued(k, id)
  }

  /** The reply of deliver or failAll has been sent. */
  ghost predicate Paid(s: State, id: RequestId) {
    id in s.callers && s.callers[id].sends == 1 + Bounces(s.callers[id])
  }

  /** The caller took its request out of the queue before the passkey saw it. */
  ghost predicate Withdrawn(s: State, c: ConnId, id: RequestId) {
    && c in s.conns && id in s.conns[c].dropped && Unanswered(s, id)
    && s.callers[id].pc.Returned? && s.callers[id].pc.outcome.Err?
    && (s.callers[id].pc.outcome.error.TimedOut? || s.callers[id].pc.outcome.error.ContextCancelled?)
  }

  ghost predicate AccountAt(s: State, c: ConnId, id: RequestId) {
    c in s.conns && id in s.conns[c].appended ==> Owes(s, c, id) || Paid(s, id) || Withdrawn(s, c, id)
  }

  /** A value sent to a caller that has not returned is in its channel; a failed write was of a taken request. */
  ghost predicate HeardAt(s: State, id: RequestId) {
    id in s.callers && s.callers[id].conn in s.conns ==>
      && (InCall(s.callers[id].pc) && s.callers[id].sends > 0 ==> s.callers[id].buffer.Some?)
      && (s.callers[id].bounced ==> id in s.conns[s.callers[id].conn].taken)
  }

  ghost predicate Accounted(s: State) {
    && (forall c, id {:trigger AccountAt(s, c, id)} :: AccountAt(s, c, id))
    && (forall id {:trigger HeardAt(s, id)} :: HeardAt(s, id))
  }

  // ---- every action keeps the accounts

  lemma AccountHub(s: State, a: Action, c: ConnId, id: RequestId)
    requires HubEnabled(s, a) && AccountAt(s, c, id)
    ensures AccountAt(DoHub(s, a), c, id)
  {
    var t := DoHub(s, a);
    if c in s.conns && id in s.conns[c].appended {
      HubCloses(s, a, c);
      if d :| Sends(s, d, id) {
        HubCloses(s, a, d);
        assert Sends(t, d, id);
      }
    }
  }

  lemma AccountCaller(s: State, a: Action, c: ConnId, id: RequestId)
    requires CallerEnabled(s, a) && AccountAt(s, c, id) && OwedAt(s, c, id) && OwnedAt(s, c, id)
    ensures AccountAt(DoCaller(s, a), c, id)
  {
    var t := DoCaller(s, a);
    if d :| Sends(s, d, id) { assert Sends(t, d, id); }
    if a.Abandon? { RemoveFirstMembers(s.conns[s.callers[a.id].conn].q.pending, a.id); }
  }

  lemma AccountLocal(cr: Crypto, s: State, a: Action, c: ConnId, id: RequestId)
    requires LocalEnabled(s, a) && AccountAt(s, c, id)
    ensures AccountAt(DoLocal(cr, s, a), c, id)
  {
    var t := DoLocal(cr, s, a);
    LocalKeepsCallers(cr, s, a);
    LocalStillOwes(cr, s, a, id);
    if d :| Sends(s, d, id) { assert Sends(t, d, id); }
  }

  /** Somebody who is owed a reply by a connection's queue, or by its loop, still is after a local action. */
  lemma LocalStillOwes(cr: Crypto, s: State, a: Action, id: RequestId)
    requires LocalEnabled(s, a)
    ensures var k, l := s.conns[a.c], LocalStep(cr, s, a);
            && (QueueOwes(k, id) ==> QueueOwes(l, id))
            && l.appended == k.appended && k.dropped <= l.dropped && k.taken <= l.taken
            && (k.loop.Sending? ==> l.loop == k.loop)
  {
    if a.FailStart? { assert id in s.conns[a.c].q.inflight <==> id in (set x | x in a.order); }
  }

  /** An answer never goes to a request that was dropped from its queue. */
  lemma AnswerNotDropped(s: State, a: Action, c: ConnId)
    requires AnswerEnabled(s, a) && QueuesOk(s) && OwnersOk(s) && TargetsOk(s)
    requires c in s.conns && Answered(s, a) in s.conns[c].appended
    ensures Answered(s, a) !in s.conns[c].dropped
    ensures a.Bounce? ==> Answered(s, a) in s.conns[c].taken
  {
    var id, k := Answered(s, a), s.conns[a.c];
    var e := if a.Send? then k.loop.target else a.c;
    assert a.FailSend? ==> id in k.loop.left;
    assert a.Bounce? ==> Handles(k, id);
    assert TargetAt(s, a.c) && QueueAt(s, a.c) && QueueAt(s, e) && OwnedAt(s, e, id) && OwnedAt(s, c, id);
  }

  lemma AccountAnswer(s: State, a: Action, c: ConnId, id: RequestId)
    requires AnswerEnabled(s, a) && AccountAt(s, c, id)
    requires id == Answered(s, a) ==>
               !Withdrawn(s, c, id) && if a.Bounce? then !s.callers[id].bounced else Unanswered(s, id)
    ensures AccountAt(DoAnswer(s, a), c, id)
  {
    var t := DoAnswer(s, a);
    if d :| Sends(s, d, id) { assert Sends(t, d, id) || (d == a.c && a.Send?); }
    if a.FailSend? && c == a.c {
      var left := s.conns[c].loop.left;
      assert id in left ==> id == left[0] || id in left[1..];
    }
  }

  lemma AccountCross(s: State, a: Action, c: ConnId, id: RequestId)
    requires CrossEnabled(s, a) && AccountAt(s, c, id) && OwnedAt(s, c, id)
    ensures AccountAt(DoCross(s, a), c, id)
  {
    var t := DoCross(s, a);
    if d :| Sends(s, d, id) { assert Sends(t, d, id); }
    if a.TakeInflight? && id == s.conns[a.c].loop.id && id in s.conns[s.conns[a.c].loop.target].q.inflight {
      assert Sends(t, a.c, id);
    }
  }

  lemma HeardHub(s: State, a: Action, id: RequestId)
    requires HubEnabled(s, a) && HeardAt(s, id) && CallerAt(s, id)
    ensures HeardAt(DoHub(s, a), id)
  {
    if id in s.callers { HubCloses(s, a, s.callers[id].conn); }
  }

  lemma HeardCaller(s: State, a: Action, id: RequestId)
    requires CallerEnabled(s, a) && HeardAt(s, id) && CallerAt(s, id) && CountAt(s, id)
    ensures HeardAt(DoCaller(s, a), id)
  {
    if id in s.callers { CallerFrame(s, a, s.callers[id].conn); }
    if a.id != id { CallerAlone(s, a, id); }
  }

  lemma HeardLocal(cr: Crypto, s: State, a: Action, id: RequestId)
    requires LocalEnabled(s, a) && HeardAt(s, id)
    ensures HeardAt(DoLocal(cr, s, a), id)
  {
    LocalKeepsCallers(cr, s, a);
    LocalStillOwes(cr, s, a, id);
  }

  lemma HeardAnswer(s: State, a: Action, id: RequestId)
    requires AnswerEnabled(s, a) && HeardAt(s, id) && CallerAt(s, id)
    requires id == Answered(s, a) && a.Bounce? ==> id in s.conns[s.callers[id].conn].taken
    ensures HeardAt(DoAnswer(s, a), id)
  {
  }

  lemma HeardCross(s: State, a: Action, id: RequestId)
    requires CrossEnabled(s, a) && HeardAt(s, id)
    ensures HeardAt(DoCross(s, a), id)
  {
  }

  lemma AnswersAccounted(cr: Crypto, s: State, a: Action)
    requires AnswerEnabled(s, a) && Inv(cr, s) && Accounted(s)
    ensures Accounted(DoAnswer(s, a))
  {
    var t, who := DoAnswer(s, a), Answered(s, a);
    AnswerOwed(s, a);
    forall c, id ensures AccountAt(t, c, id) {
      assert AccountAt(s, c, id);
      if c in s.conns && id in s.conns[c].appended {
        if id == who { AnswerNotDropped(s, a, c); }
        AccountAnswer(s, a, c, id);
      }
    }
    forall id ensures HeardAt(t, id) {
      assert HeardAt(s, id) && CallerAt(s, id);
      if id == who && a.Bounce? {
        assert Handles(s.conns[a.c], id) && QueueAt(s, a.c);
      }
      HeardAnswer(s, a, id);
    }
  }

  lemma AccountedKept(cr: Crypto, s: State, a: Action)
    requires Enabled(s, a) && Inv(cr, s) && Accounted(s)
    ensures Accounted(Next(cr, s, a))
  {
    var t := Next(cr, s, a);
    if AnswerEnabled(s, a) && !HubEnabled(s, a) && !CallerEnabled(s, a) && !LocalEnabled(s, a) {
      AnswersAccounted(cr, s, a);
    } else {
      forall c, id ensures AccountAt(t, c, id) {
        assert AccountAt(s, c, id) && OwedAt(s, c, id) && OwnedAt(s, c, id);
        if HubEnabled(s, a) {
          AccountHub(s, a, c, id);
        } else if CallerEnabled(s, a) {
          AccountCaller(s, a, c, id);
        } else if LocalEnabled(s, a) {
          AccountLocal(cr, s, a, c, id);
        } else {
          AccountCross(s, a, c, id);
        }
      }
      forall id ensures HeardAt(t, id) {
        assert HeardAt(s, id) && CallerAt(s, id) && CountAt(s, id);
        if HubEnabled(s, a) {
          HeardHub(s, a, id);
        } else if CallerEnabled(s, a) {
          HeardCaller(s, a, id);
        } else if LocalEnabled(s, a) {
          HeardLocal(cr, s, a, id);
        } else {
          HeardCross(s, a, id);
        }
      }
    }
  }

  lemma {:induction false} AlwaysAccounted(cr: Crypto, run: seq<Action>)
    requires Exec(cr, run).Some?
    ensures Accounted(Exec(cr, run).value)
    decreases |run|
  {
    if run != [] {
      var last := |run| - 1;
      AlwaysAccounted(cr, run[..last]);
      Always(cr, run[..last]);
      AccountedKept(cr, Exec(cr, run[..last]).value, run[last]);
    }
  }

  // ---- the reply channel

  /** Who is still owed a reply has had none but that of a failed write. */
  lemma {:induction false} OwedIsUnanswered(cr: Crypto, run: seq<Action>, c: ConnId, id: RequestId)
    requires Exec(cr, run).Some? && Owes(Exec(cr, run).value, c, id)
    ensures Unanswered(Exec(cr, run).value, id)
  {
    Always(cr, run);
    var s := Exec(cr, run).value;
    assert OwedAt(s, c, id);
    if d :| Sends(s, d, id) { assert OwedAt(s, d, id); }
  }

  /**
   * Every request that the pump took gets exactly one value, and exactly one more if its own socket
   * write failed: the count is short by one just while somebody still owes the reply.
   */
  lemma {:induction false} ReplyDiscipline(cr: Crypto, run: seq<Action>, c: ConnId, id: RequestId)
    requires Exec(cr, run).Some? && c in Exec(cr, run).value.conns && id in Exec(cr, run).value.conns[c].taken
    ensures var s := Exec(cr, run).value;
            && id in s.callers
            && s.callers[id].sends + (if Owes(s, c, id) then 1 else 0) == if s.callers[id].bounced then 2 else 1
  {
    Always(cr, run);
    AlwaysAccounted(cr, run);
    var s := Exec(cr, run).value;
    assert QueueAt(s, c) && OwnedAt(s, c, id) && AccountAt(s, c, id);
    if Owes(s, c, id) { OwedIsUnanswered(cr, run, c, id); }
  }

  lemma DroppedNotSent(s: State, c: ConnId, id: RequestId)
    requires QueuesOk(s) && OwnersOk(s) && TargetsOk(s) && c in s.conns && id in s.conns[c].dropped
    ensures forall d :: !Sends(s, d, id)
  {
    assert QueueAt(s, c) && OwnedAt(s, c, id);
    forall d ensures !Sends(s, d, id) {
      if d in s.conns && s.conns[d].loop.Sending? {
        var e := s.conns[d].loop.target;
        assert TargetAt(s, d) && QueueAt(s, e) && OwnedAt(s, e, s.conns[d].loop.id);
      }
    }
  }

  /**
   * A request that left the queue untaken was either withdrawn by its own caller, which has returned
   * and gets nothing, or drained by failAll, and then it got exactly one value.
   */
  lemma {:induction false} DroppedReplies(cr: Crypto, run: seq<Action>, c: ConnId, id: RequestId)
    requires Exec(cr, run).Some? && c in Exec(cr, run).value.conns && id in Exec(cr, run).value.conns[c].dropped
    ensures var s := Exec(cr, run).value;
            && id in s.callers && !s.callers[id].bounced
            && s.callers[id].sends == if Withdrawn(s, c, id) then 0 else 1
  {
    Always(cr, run);
    AlwaysAccounted(cr, run);
    var s := Exec(cr, run).value;
    assert QueueAt(s, c) && OwnedAt(s, c, id) && AccountAt(s, c, id) && HeardAt(s, id);
    DroppedNotSent(s, c, id);
  }

  /** In a run whose socket writes succeed a taken request gets exactly one value, and its sender never blocks. */
  lemma {:induction false} OneReplyWithoutWriteFailure(cr: Crypto, run: seq<Action>, c: ConnId, id: RequestId)
    requires Exec(cr, run).Some? && c in Exec(cr, run).value.conns && id in Exec(cr, run).value.conns[c].taken
    requires WritesSucceed(run)
    ensures var s := Exec(cr, run).value;
            && id in s.callers
            && s.callers[id].sends == (if Owes(s, c, id) then 0 else 1)
            && forall d :: AboutToSend(s, d, id) ==> CanDeposit(s, id)
  {
    NoBounce(cr, run);
    ReplyDiscipline(cr, run, c, id);
    SenderFindsRoom(cr, run, id);
  }

  /** The value arrives: a caller that is still in RequestSignature and is owed nothing more has it in its channel. */
  lemma {:induction false} ReplyArrives(cr: Crypto, run: seq<Action>, c: ConnId, id: RequestId)
    requires Exec(cr, run).Some? && c in Exec(cr, run).value.conns && id in Exec(cr, run).value.conns[c].appended
    requires id in Exec(cr, run).value.callers && InCall(Exec(cr, run).value.callers[id].pc)
    ensures var s := Exec(cr, run).value;
            && (!Owes(s, c, id) ==> s.callers[id].buffer.Some?)
            && (Owes(s, c, id) ==> (s.callers[id].buffer.Some? <==> s.callers[id].bounced))
  {
    Always(cr, run);
    AlwaysAccounted(cr, run);
    var s := Exec(cr, run).value;
    assert OwnedAt(s, c, id) && AccountAt(s, c, id) && HeardAt(s, id) && CountAt(s, id);
    if Owes(s, c, id) { OwedIsUnanswered(cr, run, c, id); }
  }
}
