/**
 * The request queue of one signer connection: what each section of signer_hub.go that
 * holds conn.mu does to `pending` and `inflight`. Requests are named by their request id.
 */
module SignerQueue {
  import opened Basics

  type RequestId = string

  datatype Queue = Queue(pending: seq<RequestId>, inflight: set<RequestId>)

  const EMPTY := Queue([], {})

  function Enqueue(q: Queue, id: RequestId): Queue {
    q.(pending := q.pending + [id])
  }

  /** The passkey is free and somebody waits for it. */
  predicate Ready(q: Queue) {
    |q.pending| > 0 && |q.inflight| == 0
  }

  function TakeHead(q: Queue): Queue
    requires Ready(q)
  {
    Queue(q.pending[1..], q.inflight + {q.pending[0]})
  }

  function RemoveFirst(s: seq<RequestId>, id: RequestId): seq<RequestId> {
    if s == [] then []
    else if s[0] == id then s[1..]
    else [s[0]] + RemoveFirst(s[1..], id)
  }

  lemma {:induction false} RemoveFirstMembers(s: seq<RequestId>, id: RequestId)
    ensures forall x :: x in RemoveFirst(s, id) ==> x in s
    ensures forall x :: x in s && x != id ==> x in RemoveFirst(s, id)
  {
    if s != [] && s[0] != id {
      RemoveFirstMembers(s[1..], id);
    }
  }

  function Withdraw(q: Queue, id: RequestId): Queue {
    q.(pending := RemoveFirst(q.pending, id))
  }

  function Settle(q: Queue, id: RequestId): Queue {
    q.(inflight := q.inflight - {id})
  }

  /** `s` without the elements of `gone`, in the order of `s`. */
  function Without(s: seq<RequestId>, gone: set<RequestId>): seq<RequestId> {
    if s == [] then []
    else (if s[0] in gone then [] else [s[0]]) + Without(s[1..], gone)
  }

  lemma {:induction false} WithoutConcat(a: seq<RequestId>, b: seq<RequestId>, gone: set<RequestId>)
    ensures Without(a + b, gone) == Without(a, gone) + Without(b, gone)
  {
    if a == [] {
      assert a + b == b;
    } else {
      assert (a + b)[1..] == a[1..] + b;
      WithoutConcat(a[1..], b, gone);
    }
  }

  lemma {:induction false} WithoutMembers(s: seq<RequestId>, gone: set<RequestId>)
    ensures forall x :: x in Without(s, gone) <==> x in s && x !in gone
    ensures |Without(s, gone)| <= |s|
  {
    if s != [] {
      WithoutMembers(s[1..], gone);
      assert s == [s[0]] + s[1..];
    }
  }

  lemma {:induction false} WithoutTwice(s: seq<RequestId>, a: set<RequestId>, b: set<RequestId>)
    ensures Without(Without(s, a), b) == Without(s, a + b)
  {
    if s != [] {
      WithoutTwice(s[1..], a, b);
      WithoutConcat(if s[0] in a then [] else [s[0]], Without(s[1..], a), b);
    }
  }

  lemma {:induction false} WithoutDisjoint(s: seq<RequestId>, gone: set<RequestId>)
    requires forall x :: x in s ==> x !in gone
    ensures Without(s, gone) == s
  {
    if s != [] {
      WithoutDisjoint(s[1..], gone);
    }
  }

  lemma {:induction false} WithoutAll(s: seq<RequestId>, gone: set<RequestId>)
    requires forall x :: x in s ==> x in gone
    ensures Without(s, gone) == []
  {
    if s != [] {
      WithoutAll(s[1..], gone);
    }
  }

  lemma {:induction false} WithoutKeepsDistinct(s: seq<RequestId>, gone: set<RequestId>)
    requires NoDuplicates(s)
    ensures NoDuplicates(Without(s, gone))
  {
    if s != [] {
      WithoutKeepsDistinct(s[1..], gone);
      WithoutMembers(s[1..], gone);
      var t := Without(s[1..], gone);
      forall x | x in t
        ensures x != s[0]
      {
        assert x in s[1..];
      }
    }
  }

  /** Cancelling a caller removes its own entry and nobody else's. */
  lemma {:induction false} RemoveFirstIsWithout(s: seq<RequestId>, id: RequestId)
    requires NoDuplicates(s)
    ensures RemoveFirst(s, id) == Without(s, {id})
  {
    if s != [] {
      if s[0] == id {
        WithoutDisjoint(s[1..], {id});
      } else {
        RemoveFirstIsWithout(s[1..], id);
      }
    }
  }

  lemma {:induction false} RemoveFirstAbsent(s: seq<RequestId>, id: RequestId)
    requires id !in s
    ensures RemoveFirst(s, id) == s
  {
    if s != [] {
      RemoveFirstAbsent(s[1..], id);
    }
  }

  /** The number of requests queued ahead of `id`; the queue length when it is not queued. */
  function Ahead(s: seq<RequestId>, id: RequestId): nat {
    if s == [] || s[0] == id then 0 else 1 + Ahead(s[1..], id)
  }

  lemma {:induction false} AheadAppend(s: seq<RequestId>, id: RequestId, x: RequestId)
    requires id in s
    ensures Ahead(s + [x], id) == Ahead(s, id)
  {
    assert (s + [x])[0] == s[0];
    if s[0] != id {
      assert (s + [x])[1..] == s[1..] + [x];
      AheadAppend(s[1..], id, x);
    }
  }

  lemma {:induction false} AheadWithdraw(s: seq<RequestId>, id: RequestId, x: RequestId)
    requires id in s && x != id
    ensures id in RemoveFirst(s, x)
    ensures Ahead(RemoveFirst(s, x), id) <= Ahead(s, id)
  {
    if s[0] != id && s[0] != x {
      AheadWithdraw(s[1..], id, x);
    }
  }

  lemma WithdrawnGone(s: seq<RequestId>, id: RequestId)
    requires NoDuplicates(s)
    ensures id !in RemoveFirst(s, id)
  {
    RemoveFirstIsWithout(s, id);
    WithoutMembers(s, {id});
  }
}
