/**
 * Steps that are always possible: a live connection with a free passkey and a waiting request gets
 * its next prompt by actions of the server alone.
 */
module SignerProgress {
  import opened Basics
  import opened SignerQueue
  import opened SignerProtocol
  import opened SignerInvariants
  import opened SignerSteps
  import opened SignerTheorems

  /** Connection `c` is live and has a request to serve; its pump is inside NextRequest. */
  predicate CanServe(s: State, c: ConnId) {
    && c in s.conns && !s.conns[c].done && !s.conns[c].loop.Leaving?
    && Ready(s.conns[c].q) && (s.conns[c].pump.Checking? || s.conns[c].pump.Blocked?)
  }

  /** A step of the server itself, for connection `c`: no message, timeout, disconnect or new request is needed. */
  ghost predicate Serves(s: State, a: Action, c: ConnId) {
    match a
    case PumpCheck(d) => d == c
    case PumpWake(d) => d == c
    case Notify(id) => WillNotify(s, id, c)
    case Send(d) => WillWake(s, d, c)
    case Wake(d) => WillWake(s, d, c)
    case _ => false
  }

  /** The head of the queue that `k` had is the only request in flight, just taken. */
  predicate Prompted(k: Conn, l: Conn)
    requires Ready(k.q)
  {
    && l.q.inflight == {k.q.pending[0]} && l.q.pending == k.q.pending[1..]
    && l.taken == k.taken + [k.q.pending[0]]
  }

  /** While the connection is not leaving, the deliverer that is to wake its pump finds room for its reply. */
  lemma {:induction false} DelivererFindsRoom(cr: Crypto, run: seq<Action>, d: ConnId, c: ConnId)
    requires Exec(cr, run).Some? && CanServe(Exec(cr, run).value, c)
    requires WillWake(Exec(cr, run).value, d, c) && Exec(cr, run).value.conns[d].loop.Sending?
    ensures Enabled(Exec(cr, run).value, Send(d))
  {
    Always(cr, run);
    var s := Exec(cr, run).value;
    var id := s.conns[d].loop.id;
    assert TargetAt(s, d) && QueueAt(s, c) && OwnedAt(s, c, id) && CountAt(s, id) && HubAt(s, c);
    assert Sends(s, d, id) && OwedAt(s, d, id);
    assert AnswerEnabled(s, Send(d));
  }

  /** Some step of the server for this connection is enabled, and it prompts or leaves the request servable. */
  lemma {:induction false} PumpProgress(cr: Crypto, run: seq<Action>, c: ConnId) returns (a: Action)
    requires Exec(cr, run).Some? && CanServe(Exec(cr, run).value, c)
    ensures var s := Exec(cr, run).value;
            && Serves(s, a, c) && Enabled(s, a)
            && (a.PumpCheck? <==> s.conns[c].pump.Checking?)
            && (a.PumpWake? <==> s.conns[c].pump.Blocked? && s.conns[c].notify)
  {
    Always(cr, run);
    var s := Exec(cr, run).value;
    assert HubAt(s, c);
    if s.conns[c].pump.Checking? {
      a := PumpCheck(c);
      assert LocalEnabled(s, a);
    } else if s.conns[c].notify {
      a := PumpWake(c);
      assert LocalEnabled(s, a);
    } else {
      NoLostWakeup(cr, run, c);
      if id :| WillNotify(s, id, c) {
        a := Notify(id);
        assert CallerEnabled(s, a);
      } else {
        var d :| WillWake(s, d, c);
        if s.conns[d].loop.Sending? {
          a := Send(d);
          DelivererFindsRoom(cr, run, d, c);
        } else {
          a := Wake(d);
          assert CrossEnabled(s, a);
        }
      }
    }
  }

  // ---- the next prompt

  /** The request is as servable as before. */
  predicate CarriesOn(s: State, t: State, c: ConnId)
    requires CanServe(s, c)
  {
    CanServe(t, c) && t.conns[c].q == s.conns[c].q && t.conns[c].taken == s.conns[c].taken
  }

  lemma CheckPrompts(cr: Crypto, s: State, c: ConnId)
    requires CanServe(s, c) && s.conns[c].pump.Checking? && Enabled(s, PumpCheck(c))
    ensures var t := Next(cr, s, PumpCheck(c)); c in t.conns && Prompted(s.conns[c], t.conns[c])
  {
    assert LocalEnabled(s, PumpCheck(c));
    assert s.conns[c].q.inflight == {};
  }

  lemma WakeChecks(cr: Crypto, s: State, c: ConnId)
    requires CanServe(s, c) && s.conns[c].pump.Blocked? && Enabled(s, PumpWake(c))
    ensures var t := Next(cr, s, PumpWake(c)); CarriesOn(s, t, c) && t.conns[c].pump.Checking?
  {
    assert LocalEnabled(s, PumpWake(c));
  }

  lemma NotifyWakes(cr: Crypto, s: State, a: Action, c: ConnId)
    requires CanServe(s, c) && s.conns[c].pump.Blocked? && Serves(s, a, c) && (a.Notify? || a.Wake?) && Enabled(s, a)
    ensures var t := Next(cr, s, a); CarriesOn(s, t, c) && t.conns[c].pump.Blocked? && t.conns[c].notify
  {
    assert if a.Notify? then CallerEnabled(s, a) else CrossEnabled(s, a);
  }

  lemma SendWakes(cr: Crypto, s: State, d: ConnId, c: ConnId)
    requires CanServe(s, c) && s.conns[c].pump.Blocked? && WillWake(s, d, c) && Enabled(s, Send(d))
    ensures var t := Next(cr, s, Send(d));
            && CarriesOn(s, t, c) && t.conns[c].pump.Blocked?
            && d in t.conns && t.conns[d].loop == Waking(c)
  {
    assert AnswerEnabled(s, Send(d));
  }

  /** After `run`, the steps `more` are the server's own, for connection `c`, and end with its next prompt. */
  ghost predicate Prompts(cr: Crypto, run: seq<Action>, more: seq<Action>, c: ConnId)
    requires Exec(cr, run).Some? && CanServe(Exec(cr, run).value, c)
  {
    && (forall i :: 0 <= i < |more| ==> ServesAt(cr, run, more, i, c))
    && Exec(cr, run + more).Some?
    && c in Exec(cr, run + more).value.conns
    && Prompted(Exec(cr, run).value.conns[c], Exec(cr, run + more).value.conns[c])
  }

  ghost predicate ServesAt(cr: Crypto, run: seq<Action>, more: seq<Action>, i: nat, c: ConnId)
    requires i < |more|
  {
    Exec(cr, run + more[..i]).Some? && Serves(Exec(cr, run + more[..i]).value, more[i], c)
  }

  lemma {:induction false} ServesAfter(cr: Crypto, run: seq<Action>, a: Action, rest: seq<Action>, i: nat, c: ConnId)
    requires i < |rest| && ServesAt(cr, run + [a], rest, i, c)
    ensures ServesAt(cr, run, [a] + rest, i + 1, c)
  {
    assert run + ([a] + rest)[..i + 1] == run + [a] + rest[..i];
  }

  lemma {:induction false} ServesFirst(cr: Crypto, run: seq<Action>, a: Action, rest: seq<Action>, c: ConnId)
    requires Exec(cr, run).Some? && Serves(Exec(cr, run).value, a, c)
    ensures ServesAt(cr, run, [a] + rest, 0, c)
  {
    assert run + ([a] + rest)[..0] == run;
  }

  lemma {:induction false} PromptsAfter(cr: Crypto, run: seq<Action>, a: Action, rest: seq<Action>, c: ConnId)
    requires Exec(cr, run).Some? && CanServe(Exec(cr, run).value, c)
    requires Serves(Exec(cr, run).value, a, c) && Exec(cr, run + [a]).Some?
    requires CarriesOn(Exec(cr, run).value, Exec(cr, run + [a]).value, c) && Prompts(cr, run + [a], rest, c)
    ensures Prompts(cr, run, [a] + rest, c)
  {
    assert run + ([a] + rest) == run + [a] + rest;
    forall i | 0 <= i < |[a] + rest| ensures ServesAt(cr, run, [a] + rest, i, c) {
      if i == 0 {
        ServesFirst(cr, run, a, rest, c);
      } else {
        ServesAfter(cr, run, a, rest, i - 1, c);
      }
    }
  }

  lemma {:induction false} PromptByCheck(cr: Crypto, run: seq<Action>, c: ConnId) returns (more: seq<Action>)
    requires Exec(cr, run).Some? && CanServe(Exec(cr, run).value, c)
    requires Exec(cr, run).value.conns[c].pump.Checking?
    ensures |more| == 1 && Prompts(cr, run, more, c)
  {
    var s := Exec(cr, run).value;
    var a := PumpProgress(cr, run, c);
    assert a == PumpCheck(c);
    Then(cr, run, a);
    CheckPrompts(cr, s, c);
    more := [a];
    assert run + more[..0] == run;
    assert ServesAt(cr, run, more, 0, c);
  }

  lemma {:induction false} PromptByWake(cr: Crypto, run: seq<Action>, c: ConnId) returns (more: seq<Action>)
    requires Exec(cr, run).Some? && CanServe(Exec(cr, run).value, c)
    requires Exec(cr, run).value.conns[c].pump.Blocked? && Exec(cr, run).value.conns[c].notify
    ensures |more| == 2 && Prompts(cr, run, more, c)
  {
    var a := PumpProgress(cr, run, c);
    assert a == PumpWake(c);
    Then(cr, run, a);
    WakeChecks(cr, Exec(cr, run).value, c);
    var rest := PromptByCheck(cr, run + [a], c);
    PromptsAfter(cr, run, a, rest, c);
    more := [a] + rest;
  }

  lemma {:induction false} PromptByNotify(cr: Crypto, run: seq<Action>, a: Action, c: ConnId)
    returns (more: seq<Action>)
    requires Exec(cr, run).Some? && CanServe(Exec(cr, run).value, c)
    requires Exec(cr, run).value.conns[c].pump.Blocked? && Serves(Exec(cr, run).value, a, c)
    requires (a.Notify? || a.Wake?) && Enabled(Exec(cr, run).value, a)
    ensures |more| == 3 && Prompts(cr, run, more, c)
  {
    Then(cr, run, a);
    NotifyWakes(cr, Exec(cr, run).value, a, c);
    var rest := PromptByWake(cr, run + [a], c);
    PromptsAfter(cr, run, a, rest, c);
    more := [a] + rest;
  }

  lemma {:induction false} PromptBySend(cr: Crypto, run: seq<Action>, d: ConnId, c: ConnId) returns (more: seq<Action>)
    requires Exec(cr, run).Some? && CanServe(Exec(cr, run).value, c)
    requires Exec(cr, run).value.conns[c].pump.Blocked? && WillWake(Exec(cr, run).value, d, c)
    requires Enabled(Exec(cr, run).value, Send(d))
    ensures |more| == 4 && Prompts(cr, run, more, c)
  {
    Then(cr, run, Send(d));
    SendWakes(cr, Exec(cr, run).value, d, c);
    var t := Exec(cr, run + [Send(d)]).value;
    assert CrossEnabled(t, Wake(d));
    var rest := PromptByNotify(cr, run + [Send(d)], Wake(d), c);
    PromptsAfter(cr, run, Send(d), rest, c);
    more := [Send(d)] + rest;
  }

  /**
   * From every reachable state in which a live connection has a waiting request, a free passkey and
   * its pump in NextRequest, at most four steps of the server alone put the head of its queue, and
   * nothing else, in flight.
   */
  lemma {:induction false} PromptWithinFour(cr: Crypto, run: seq<Action>, c: ConnId) returns (more: seq<Action>)
    requires Exec(cr, run).Some? && CanServe(Exec(cr, run).value, c)
    ensures |more| <= 4 && Prompts(cr, run, more, c)
  {
    var k := Exec(cr, run).value.conns[c];
    if k.pump.Checking? {
      more := PromptByCheck(cr, run, c);
    } else if k.notify {
      more := PromptByWake(cr, run, c);
    } else {
      var a := PumpProgress(cr, run, c);
      if a.Send? {
        more := PromptBySend(cr, run, a.c, c);
      } else {
        more := PromptByNotify(cr, run, a, c);
      }
    }
  }
}
