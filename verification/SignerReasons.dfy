/** What an error that RequestSignature returns says about the run. */
module SignerReasons {
  import opened Basics
  import opened SignerQueue
  import opened SignerProtocol
  import opened SignerInvariants
  import opened SignerSteps
  import opened SignerTheorems

  /** The connection has been closed by the hub, or its socket loop has ended. */
  predicate Departed(k: Conn) {
    k.done || k.loop.Leaving? || Closing(k.loop)
  }

  ghost predicate HasDeparted(s: State, id: RequestId) {
    id in s.callers && s.callers[id].conn in s.conns && Departed(s.conns[s.callers[id].conn])
  }

  /** What each error needs to have happened. */
  ghost predicate Reason(run: seq<Action>, s: State, id: RequestId, e: Error) {
    match e
    case SignerRejected => exists c :: Reject(c, id) in run
    case TimedOut => Expire(id, true) in run
    case ContextCancelled => Expire(id, false) in run
    case NotConnected => HasDeparted(s, id)
  }

  ghost predicate ReplyReason(run: seq<Action>, s: State, id: RequestId, r: Reply) {
    match r
    case Signed(_) => true
    case Rejected => Reason(run, s, id, SignerRejected)
    case Failed(e) => e == NotConnected && Reason(run, s, id, NotConnected)
  }

  ghost predicate ToldAt(run: seq<Action>, s: State, id: RequestId) {
    id in s.callers ==>
      var u := s.callers[id];
      && (u.pc.Cancelling? ==> Expire(id, u.pc.deadline) in run)
      && (u.buffer.Some? ==> ReplyReason(run, s, id, u.buffer.value))
      && (u.pc.Returned? && u.pc.outcome.Err? ==> Reason(run, s, id, u.pc.outcome.error))
  }

  /** A deliverer carries a signature, or a rejection that was received. */
  ghost predicate BearsAt(run: seq<Action>, s: State, c: ConnId) {
    c in s.conns && (s.conns[c].loop.Delivering? || s.conns[c].loop.Taking? || s.conns[c].loop.Sending?) ==>
      && !s.conns[c].loop.reply.Failed?
      && (s.conns[c].loop.reply.Rejected? ==> exists d :: Reject(d, s.conns[c].loop.id) in run)
  }

  ghost predicate AllTold(run: seq<Action>, s: State) {
    && (forall id {:trigger ToldAt(run, s, id)} :: ToldAt(run, s, id))
    && (forall c {:trigger BearsAt(run, s, c)} :: BearsAt(run, s, c))
  }

  // ---- a departed connection stays so

  lemma DepartedHub(s: State, a: Action, c: ConnId)
    requires HubEnabled(s, a) && c in s.conns && Departed(s.conns[c])
    ensures c in DoHub(s, a).conns && Departed(DoHub(s, a).conns[c])
  {
    HubCloses(s, a, c);
  }

  lemma DepartedCaller(s: State, a: Action, c: ConnId)
    requires CallerEnabled(s, a) && c in s.conns && Departed(s.conns[c])
    ensures c in DoCaller(s, a).conns && Departed(DoCaller(s, a).conns[c])
  {
    CallerFrame(s, a, c);
  }

  lemma DepartedLocal(cr: Crypto, s: State, a: Action, c: ConnId)
    requires LocalEnabled(s, a) && c in s.conns && Departed(s.conns[c])
    ensures c in DoLocal(cr, s, a).conns && Departed(DoLocal(cr, s, a).conns[c])
  {
  }

  lemma DepartedAnswer(s: State, a: Action, c: ConnId)
    requires AnswerEnabled(s, a) && c in s.conns && Departed(s.conns[c])
    ensures c in DoAnswer(s, a).conns && Departed(DoAnswer(s, a).conns[c])
  {
  }

  lemma DepartedCross(s: State, a: Action, c: ConnId)
    requires CrossEnabled(s, a) && c in s.conns && Departed(s.conns[c])
    ensures c in DoCross(s, a).conns && Departed(DoCross(s, a).conns[c])
  {
  }

  lemma DepartedStays(cr: Crypto, s: State, a: Action, c: ConnId)
    requires Enabled(s, a) && c in s.conns && Departed(s.conns[c])
    ensures c in Next(cr, s, a).conns && Departed(Next(cr, s, a).conns[c])
  {
    if HubEnabled(s, a) {
      DepartedHub(s, a, c);
    } else if CallerEnabled(s, a) {
      DepartedCaller(s, a, c);
    } else if LocalEnabled(s, a) {
      DepartedLocal(cr, s, a, c);
    } else if AnswerEnabled(s, a) {
      DepartedAnswer(s, a, c);
    } else {
      DepartedCross(s, a, c);
    }
  }

  // ---- reasons last, and each step has its reason

  lemma ReasonStays(cr: Crypto, run: seq<Action>, s: State, a: Action, id: RequestId, e: Error)
    requires Enabled(s, a) && id in s.callers && Reason(run, s, id, e)
    requires id in Next(cr, s, a).callers && Next(cr, s, a).callers[id].conn == s.callers[id].conn
    ensures Reason(run + [a], Next(cr, s, a), id, e)
  {
    match e
    case SignerRejected =>
      var c :| Reject(c, id) in run;
      assert Reject(c, id) in run + [a];
    case TimedOut =>
    case ContextCancelled =>
    case NotConnected => DepartedStays(cr, s, a, s.callers[id].conn);
  }

  lemma ToldStays(cr: Crypto, run: seq<Action>, s: State, a: Action, id: RequestId)
    requires Enabled(s, a) && ToldAt(run, s, id) && id in s.callers
    requires id in Next(cr, s, a).callers && Next(cr, s, a).callers[id] == s.callers[id]
    ensures ToldAt(run + [a], Next(cr, s, a), id)
  {
    var u := s.callers[id];
    if u.buffer.Some? && !u.buffer.value.Signed? {
      ReasonStays(cr, run, s, a, id, if u.buffer.value.Rejected? then SignerRejected else NotConnected);
    }
    if u.pc.Returned? && u.pc.outcome.Err? {
      ReasonStays(cr, run, s, a, id, u.pc.outcome.error);
    }
  }

  lemma ToldCaller(cr: Crypto, run: seq<Action>, s: State, a: Action, id: RequestId)
    requires Enabled(s, a) && !HubEnabled(s, a) && CallerEnabled(s, a) && ToldAt(run, s, id)
    ensures ToldAt(run + [a], Next(cr, s, a), id)
  {
    if a.id != id {
      CallerAlone(s, a, id);
      if id in s.callers { ToldStays(cr, run, s, a, id); }
    } else if id in s.callers {
      ToldOwn(cr, run, s, a);
    }
  }

  /** The caller's own step. */
  lemma ToldOwn(cr: Crypto, run: seq<Action>, s: State, a: Action)
    requires Enabled(s, a) && !HubEnabled(s, a) && CallerEnabled(s, a) && a.id in s.callers && ToldAt(run, s, a.id)
    ensures ToldAt(run + [a], Next(cr, s, a), a.id)
  {
    var id := a.id;
    var u, t := s.callers[id], Next(cr, s, a);
    assert id in t.callers && t.callers[id].conn == u.conn;
    if u.buffer.Some? && !u.buffer.value.Signed? {
      ReasonStays(cr, run, s, a, id, if u.buffer.value.Rejected? then SignerRejected else NotConnected);
    }
    if a.SeeDone? {
      DepartedStays(cr, s, a, u.conn);
    } else if u.pc.Cancelling? {
      assert Expire(id, u.pc.deadline) in run + [a];
    }
  }

  /** Whoever answers has a reason. */
  lemma AnswerHasReason(cr: Crypto, run: seq<Action>, s: State, a: Action)
    requires AnswerEnabled(s, a) && Inv(cr, s) && BearsAt(run, s, a.c)
    ensures ReplyReason(run + [a], DoAnswer(s, a), Answered(s, a),
                        if a.Send? then s.conns[a.c].loop.reply else Failed(NotConnected))
  {
    var id := Answered(s, a);
    if a.Send? {
      if s.conns[a.c].loop.reply.Rejected? {
        var d :| Reject(d, id) in run;
        assert Reject(d, id) in run + [a];
      }
    } else {
      assert QueueAt(s, a.c) && OwnedAt(s, a.c, id);
      assert if a.Bounce? then Handles(s.conns[a.c], id) else id in s.conns[a.c].loop.left;
      assert Departed(DoAnswer(s, a).conns[a.c]);
    }
  }

  lemma ToldAnswer(cr: Crypto, run: seq<Action>, s: State, a: Action, id: RequestId)
    requires Enabled(s, a) && !HubEnabled(s, a) && !CallerEnabled(s, a) && !LocalEnabled(s, a) && AnswerEnabled(s, a)
    requires Inv(cr, s) && ToldAt(run, s, id) && BearsAt(run, s, a.c)
    ensures ToldAt(run + [a], Next(cr, s, a), id)
  {
    if id != Answered(s, a) {
      if id in s.callers { ToldStays(cr, run, s, a, id); }
    } else {
      AnswerHasReason(cr, run, s, a);
      var u := s.callers[id];
      if u.pc.Returned? && u.pc.outcome.Err? {
        ReasonStays(cr, run, s, a, id, u.pc.outcome.error);
      }
    }
  }

  lemma ToldNext(cr: Crypto, run: seq<Action>, s: State, a: Action, id: RequestId)
    requires Enabled(s, a) && Inv(cr, s) && AllTold(run, s)
    ensures ToldAt(run + [a], Next(cr, s, a), id)
  {
    assert ToldAt(run, s, id);
    if HubEnabled(s, a) {
      HubKeepsCallers(s, a);
      if id in s.callers { ToldStays(cr, run, s, a, id); }
    } else if CallerEnabled(s, a) {
      ToldCaller(cr, run, s, a, id);
    } else if LocalEnabled(s, a) {
      LocalKeepsCallers(cr, s, a);
      if id in s.callers { ToldStays(cr, run, s, a, id); }
    } else if AnswerEnabled(s, a) {
      assert BearsAt(run, s, a.c);
      ToldAnswer(cr, run, s, a, id);
    } else if id in s.callers {
      ToldStays(cr, run, s, a, id);
    }
  }

  // ---- what deliverers carry

  /** The loop carries what it carried, or nothing. */
  predicate CarriesNothingNew(k: Conn, l: Conn) {
    || Idle(l.loop)
    || ((k.loop.Delivering? || k.loop.Taking? || k.loop.Sending?) &&
        l.loop.id == k.loop.id && l.loop.reply == k.loop.reply)
  }

  lemma BearsStays(run: seq<Action>, a: Action, s: State, t: State, c: ConnId)
    requires BearsAt(run, s, c) && c in s.conns && c in t.conns && CarriesNothingNew(s.conns[c], t.conns[c])
    ensures BearsAt(run + [a], t, c)
  {
    if !Idle(t.conns[c].loop) && t.conns[c].loop.reply.Rejected? {
      var d :| Reject(d, s.conns[c].loop.id) in run;
      assert Reject(d, t.conns[c].loop.id) in run + [a];
    }
  }

  lemma BearsOwn(cr: Crypto, run: seq<Action>, s: State, a: Action)
    requires LocalEnabled(s, a) && BearsAt(run, s, a.c)
    ensures BearsAt(run + [a], DoLocal(cr, s, a), a.c)
  {
    if a.Reject? {
      assert Reject(a.c, a.id) in run + [a];
    } else if !a.Respond? {
      BearsStays(run, a, s, DoLocal(cr, s, a), a.c);
    }
  }

  lemma BearsLocal(cr: Crypto, run: seq<Action>, s: State, a: Action, c: ConnId)
    requires LocalEnabled(s, a) && BearsAt(run, s, c)
    ensures BearsAt(run + [a], DoLocal(cr, s, a), c)
  {
    LocalKeepsCallers(cr, s, a);
    if c == a.c {
      BearsOwn(cr, run, s, a);
    } else if c in s.conns {
      BearsStays(run, a, s, DoLocal(cr, s, a), c);
    }
  }

  lemma BearsHub(run: seq<Action>, s: State, a: Action, c: ConnId)
    requires HubEnabled(s, a) && BearsAt(run, s, c)
    ensures BearsAt(run + [a], DoHub(s, a), c)
  {
    HubKeepsCallers(s, a);
    if c in s.conns {
      HubCloses(s, a, c);
      BearsStays(run, a, s, DoHub(s, a), c);
    }
  }

  lemma BearsCaller(run: seq<Action>, s: State, a: Action, c: ConnId)
    requires CallerEnabled(s, a) && BearsAt(run, s, c)
    ensures BearsAt(run + [a], DoCaller(s, a), c)
  {
    CallerFrame(s, a, c);
    if c in s.conns { BearsStays(run, a, s, DoCaller(s, a), c); }
  }

  lemma BearsAnswer(run: seq<Action>, s: State, a: Action, c: ConnId)
    requires AnswerEnabled(s, a) && BearsAt(run, s, c)
    ensures BearsAt(run + [a], DoAnswer(s, a), c)
  {
    if c in s.conns { BearsStays(run, a, s, DoAnswer(s, a), c); }
  }

  lemma BearsCross(run: seq<Action>, s: State, a: Action, c: ConnId)
    requires CrossEnabled(s, a) && BearsAt(run, s, c)
    ensures BearsAt(run + [a], DoCross(s, a), c)
  {
    if c in s.conns { BearsStays(run, a, s, DoCross(s, a), c); }
  }

  lemma BearsNext(cr: Crypto, run: seq<Action>, s: State, a: Action, c: ConnId)
    requires Enabled(s, a) && BearsAt(run, s, c)
    ensures BearsAt(run + [a], Next(cr, s, a), c)
  {
    if HubEnabled(s, a) {
      BearsHub(run, s, a, c);
    } else if CallerEnabled(s, a) {
      BearsCaller(run, s, a, c);
    } else if LocalEnabled(s, a) {
      BearsLocal(cr, run, s, a, c);
    } else if AnswerEnabled(s, a) {
      BearsAnswer(run, s, a, c);
    } else {
      BearsCross(run, s, a, c);
    }
  }

  lemma {:induction false} AlwaysTold(cr: Crypto, run: seq<Action>)
    requires Exec(cr, run).Some?
    ensures AllTold(run, Exec(cr, run).value)
    decreases |run|
  {
    if run != [] {
      var front, a := run[..|run| - 1], run[|run| - 1];
      AlwaysTold(cr, front);
      Always(cr, front);
      var s := Exec(cr, front).value;
      assert run == front + [a];
      forall id ensures ToldAt(run, Next(cr, s, a), id) { ToldNext(cr, front, s, a, id); }
      forall c ensures BearsAt(run, Next(cr, s, a), c) {
        assert BearsAt(front, s, c);
        BearsNext(cr, front, s, a, c);
      }
    }
  }

  /**
   * Errors tell the truth: a call returns that it was rejected only if its rejection was received, that
   * it timed out or was cancelled only if its context did so, and that the signer is not connected only
   * if the connection it was queued on has been closed or its socket loop has ended.
   */
  lemma {:induction false} ErrorsTellWhy(cr: Crypto, run: seq<Action>, id: RequestId, e: Error)
    requires Exec(cr, run).Some? && id in Exec(cr, run).value.callers
    requires Exec(cr, run).value.callers[id].pc == Returned(Err(e))
    ensures match e
            case SignerRejected => exists c :: Reject(c, id) in run
            case TimedOut => Expire(id, true) in run
            case ContextCancelled => Expire(id, false) in run
            case NotConnected => HasDeparted(Exec(cr, run).value, id)
  {
    AlwaysTold(cr, run);
    assert ToldAt(run, Exec(cr, run).value, id);
  }
}
