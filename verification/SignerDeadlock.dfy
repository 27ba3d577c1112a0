/**
 * The one path that breaks "reply receives exactly one value": after a failed socket write the
 * request is answered while it is still in the inflight map, and failAll answers it again. When
 * the caller has meanwhile left through the done channel, failAll blocks for good, holding conn.mu.
 */
module SignerDeadlock {
  import opened Basics
  import opened SignerQueue
  import opened SignerProtocol
  import opened SignerInvariants
  import opened SignerSteps
  import opened SignerTheorems

  const FRESH := Fresh("d", [], [])
  const SENT := FRESH.(q := Queue([], {"r"}), appended := ["r"], taken := ["r"], notify := true)

  function Asker(pc: CallerPc, buffer: Option<Reply>, sends: nat): Caller {
    Caller("d", Unreadable, 0, pc, buffer, sends, sends > 0)
  }

  /** `run` ends with connection 0 being `k` and the caller "r" being `u`. */
  ghost predicate EndsIn(cr: Crypto, run: seq<Action>, k: Conn, u: Caller) {
    var s := Exec(cr, run);
    && s.Some?
    && 0 in s.value.conns && s.value.conns[0] == k
    && "r" in s.value.callers && s.value.callers["r"] == u
    && (!k.done ==> "d" in s.value.hub && s.value.hub["d"] == 0)
  }

  lemma Asked(cr: Crypto) returns (run: seq<Action>)
    ensures EndsIn(cr, run, FRESH, Asker(LookedUp, None, 0))
  {
    Then(cr, [], Register(0, "d", [], []));
    Then(cr, [] + [Register(0, "d", [], [])], Call("r", "d", Unreadable));
    run := [] + [Register(0, "d", [], [])] + [Call("r", "d", Unreadable)];
  }

  lemma AskedAndQueued(cr: Crypto) returns (run: seq<Action>)
    ensures EndsIn(cr, run, FRESH.(q := Queue(["r"], {}), appended := ["r"], notify := true), Asker(Waiting, None, 0))
  {
    run := Asked(cr);
    Then(cr, run, Append("r"));
    run := run + [Append("r")];
    assert EndsIn(cr, run, FRESH.(q := Queue(["r"], {}), appended := ["r"]), Asker(Appended, None, 0));
    Then(cr, run, Notify("r"));
    run := run + [Notify("r")];
  }

  /** Connect, ask, and let the pump take the request. */
  lemma Taken(cr: Crypto) returns (run: seq<Action>)
    ensures EndsIn(cr, run, SENT.(pump := Handing("r")), Asker(Waiting, None, 0))
  {
    run := AskedAndQueued(cr);
    Then(cr, run, PumpCheck(0));
    run := run + [PumpCheck(0)];
  }

  /** The socket loop takes the request from the pump, and its write fails. */
  lemma WriteFailed(cr: Crypto) returns (run: seq<Action>)
    ensures EndsIn(cr, run, SENT.(loop := Bouncing("r")), Asker(Waiting, None, 0))
  {
    run := Taken(cr);
    Then(cr, run, PumpHand(0));
    run := run + [PumpHand(0)];
    assert EndsIn(cr, run, SENT.(slot := Some("r")), Asker(Waiting, None, 0));
    Then(cr, run, TakeSlot(0));
    run := run + [TakeSlot(0)];
    assert EndsIn(cr, run, SENT.(loop := Writing("r")), Asker(Waiting, None, 0));
    Then(cr, run, WriteFail(0));
    run := run + [WriteFail(0)];
  }

  const REFUSAL: Reply := Failed(NotConnected)

  /** The reply is sent while the request stays in flight; then Unregister closes done. */
  lemma Closed(cr: Crypto) returns (run: seq<Action>)
    ensures EndsIn(cr, run, SENT.(loop := Unregistered, done := true), Asker(Waiting, Some(REFUSAL), 1))
  {
    run := WriteFailed(cr);
    Then(cr, run, Bounce(0));
    run := run + [Bounce(0)];
    assert EndsIn(cr, run, SENT.(loop := Leaving), Asker(Waiting, Some(REFUSAL), 1));
    Then(cr, run, Unregister(0));
    run := run + [Unregister(0)];
  }

  lemma Started(cr: Crypto, run: seq<Action>, u: Caller)
    requires EndsIn(cr, run, SENT.(loop := Unregistered, done := true), u)
    ensures EndsIn(cr, run + [FailStart(0, ["r"])], SENT.(loop := Failing(["r"]), done := true), u)
  {
    assert (set x | x in ["r"]) == {"r"};
    assert Enabled(Exec(cr, run).value, FailStart(0, ["r"]));
    Then(cr, run, FailStart(0, ["r"]));
    assert ["r"] + [] == ["r"];
  }

  const GAVE_UP := Returned(Err(NotConnected))

  /** The bound of two values is reached when the caller reads the first one in time. */
  lemma TwoReplies(cr: Crypto) returns (run: seq<Action>)
    ensures Exec(cr, run).Some? && "r" in Exec(cr, run).value.callers
    ensures Exec(cr, run).value.callers["r"].sends == 2
  {
    run := Closed(cr);
    Then(cr, run, Receive("r"));
    run := run + [Receive("r")];
    Started(cr, run, Asker(GAVE_UP, None, 1));
    run := run + [FailStart(0, ["r"])];
    Then(cr, run, FailSend(0));
    run := run + [FailSend(0)];
  }

  /** failAll of connection `c` waits, holding conn.mu, for a reader that has already returned. */
  ghost predicate Wedged(s: State, c: ConnId) {
    && c in s.conns && s.conns[c].loop.Failing? && s.conns[c].loop.left != []
    && s.conns[c].loop.left[0] in s.callers
    && s.callers[s.conns[c].loop.left[0]].buffer.Some?
    && s.callers[s.conns[c].loop.left[0]].pc.Returned?
  }

  /** The same run with the caller leaving through done instead: the second send never happens. */
  lemma WriteFailureWedges(cr: Crypto) returns (run: seq<Action>)
    ensures Exec(cr, run).Some? && Wedged(Exec(cr, run).value, 0)
  {
    run := Closed(cr);
    Then(cr, run, SeeDone("r"));
    run := run + [SeeDone("r")];
    Started(cr, run, Asker(GAVE_UP, Some(REFUSAL), 1));
    run := run + [FailStart(0, ["r"])];
  }

  lemma WedgedLocal(cr: Crypto, s: State, a: Action, c: ConnId)
    requires LocalEnabled(s, a) && Wedged(s, c)
    ensures Wedged(DoLocal(cr, s, a), c)
  {
  }

  lemma WedgedHub(s: State, a: Action, c: ConnId)
    requires HubEnabled(s, a) && Wedged(s, c)
    ensures Wedged(DoHub(s, a), c)
  {
    HubCloses(s, a, c);
  }

  lemma WedgedAnswer(s: State, a: Action, c: ConnId)
    requires AnswerEnabled(s, a) && Wedged(s, c)
    ensures Wedged(DoAnswer(s, a), c)
  {
  }

  lemma WedgedCross(s: State, a: Action, c: ConnId)
    requires CrossEnabled(s, a) && Wedged(s, c)
    ensures Wedged(DoCross(s, a), c)
  {
  }

  lemma WedgedCaller(s: State, a: Action, c: ConnId)
    requires CallerEnabled(s, a) && Wedged(s, c)
    ensures Wedged(DoCaller(s, a), c)
  {
    CallerFrame(s, a, c);
    if a.id != s.conns[c].loop.left[0] { CallerAlone(s, a, s.conns[c].loop.left[0]); }
  }

  lemma WedgedKept(cr: Crypto, s: State, a: Action, c: ConnId)
    requires Enabled(s, a) && Wedged(s, c)
    ensures Wedged(Next(cr, s, a), c)
  {
    if HubEnabled(s, a) {
      WedgedHub(s, a, c);
    } else if CallerEnabled(s, a) {
      WedgedCaller(s, a, c);
    } else if LocalEnabled(s, a) {
      WedgedLocal(cr, s, a, c);
    } else if AnswerEnabled(s, a) {
      WedgedAnswer(s, a, c);
    } else {
      WedgedCross(s, a, c);
    }
  }

  lemma {:induction false} WedgedStays(cr: Crypto, run: seq<Action>, more: seq<Action>, c: ConnId)
    requires Exec(cr, run).Some? && Wedged(Exec(cr, run).value, c) && Exec(cr, run + more).Some?
    ensures Wedged(Exec(cr, run + more).value, c)
    decreases |more|
  {
    if more == [] {
      assert run + more == run;
    } else {
      var last := |more| - 1;
      assert (run + more)[..|run + more| - 1] == run + more[..last];
      WedgedStays(cr, run, more[..last], c);
      WedgedKept(cr, Exec(cr, run + more[..last]).value, more[last], c);
    }
  }

  /** Everything that needs conn.mu of `c` waits: its callers, its pump, and every deliverer that was sent to it. */
  ghost predicate LockedOut(s: State, c: ConnId) {
    && (forall id :: id in s.callers && s.callers[id].conn == c ==> !Enabled(s, Append(id)) && !Enabled(s, Abandon(id)))
    && !Enabled(s, PumpCheck(c))
    && (forall d :: d in s.conns && s.conns[d].loop.Taking? && s.conns[d].loop.target == c ==>
          !Enabled(s, TakeInflight(d)))
  }

  lemma WedgedLocksOut(s: State, c: ConnId)
    requires Wedged(s, c)
    ensures LockedOut(s, c)
  {
    forall id | id in s.callers && s.callers[id].conn == c
      ensures !Enabled(s, Append(id)) && !Enabled(s, Abandon(id))
    {
      assert Locked(s.conns[c]);
    }
  }

  /** Nothing that can happen afterwards frees the lock, and whoever needs it hangs with it. */
  lemma {:induction false} WedgedForever(cr: Crypto, run: seq<Action>, more: seq<Action>, c: ConnId)
    requires Exec(cr, run).Some? && Wedged(Exec(cr, run).value, c) && Exec(cr, run + more).Some?
    ensures var s := Exec(cr, run + more).value;
            && Wedged(s, c)
            && LockedOut(s, c)
  {
    WedgedStays(cr, run, more, c);
    WedgedLocksOut(Exec(cr, run + more).value, c);
  }

  /** A wedged state needs a failed write of that very request, so working writes rule it out. */
  lemma {:induction false} WedgedOnlyAfterWriteFailure(cr: Crypto, run: seq<Action>, c: ConnId)
    requires Exec(cr, run).Some? && Wedged(Exec(cr, run).value, c)
    ensures Exec(cr, run).value.callers[Exec(cr, run).value.conns[c].loop.left[0]].bounced
    ensures !WritesSucceed(run)
  {
    var s := Exec(cr, run).value;
    var id := s.conns[c].loop.left[0];
    assert AboutToSend(s, c, id);
    SenderFindsRoom(cr, run, id);
    if WritesSucceed(run) { NoBounce(cr, run); }
  }
}
