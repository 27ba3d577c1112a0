/**
 * Playback, which reads the log in pages while it may change between two of them, and the persister
 * object itself.
 */
module EventPersister {
  import opened Basics
  import opened EventLog

  const PAGE_SIZE: nat := 500

  // ---- pages

  /** The rows with a greater number. */
  function Above(table: Table, cursor: int): seq<Row> {
    if table == [] then []
    else (if table[0].num > cursor then [table[0]] else []) + Above(table[1..], cursor)
  }

  function Page(table: Table, cursor: int): seq<Row> {
    var rows := Above(table, cursor);
    if |rows| <= PAGE_SIZE then rows else rows[..PAGE_SIZE]
  }

  /**
   * The rows that playback reads when its k-th query finds the table `history[k]`; a query after the
   * end of the history fails.
   */
  function Pages(history: seq<Table>, cursor: int): seq<Row> {
    if history == [] then []
    else
      var page := Page(history[0], cursor);
      if |page| < PAGE_SIZE then page
      else page + Pages(history[1..], page[PAGE_SIZE - 1].num)
  }

  /** Whether playback gets to a page that is not full. */
  predicate Ends(history: seq<Table>, cursor: int) {
    history != [] &&
    var page := Page(history[0], cursor);
    |page| < PAGE_SIZE || Ends(history[1..], page[PAGE_SIZE - 1].num)
  }

  /** How many of the tables playback looks at. */
  function Looked(history: seq<Table>, cursor: int): (r: nat)
    ensures r <= |history|
  {
    if history == [] then 0
    else
      var page := Page(history[0], cursor);
      if |page| < PAGE_SIZE then 1 else 1 + Looked(history[1..], page[PAGE_SIZE - 1].num)
  }

  lemma {:induction false} AboveMembers(table: Table, cursor: int, r: Row)
    ensures r in Above(table, cursor) <==> r in table && r.num > cursor
  {
    if table != [] {
      assert r in table <==> r == table[0] || r in table[1..];
      AboveMembers(table[1..], cursor, r);
    }
  }

  lemma {:induction false} AboveAscending(table: Table, cursor: int)
    requires Ascending(table)
    ensures Ascending(Above(table, cursor))
  {
    if table != [] {
      var rest := Above(table[1..], cursor);
      AboveAscending(table[1..], cursor);
      forall i | 0 <= i < |rest| ensures table[0].num < rest[i].num {
        assert rest[i] in rest;
        AboveMembers(table[1..], cursor, rest[i]);
      }
    }
  }

  /** A page is ascending, above the cursor, and leaves out only rows above its last one, if it is full. */
  lemma PageRows(table: Table, cursor: int)
    requires Ascending(table)
    ensures var page := Page(table, cursor);
            && Ascending(page) && |page| <= 500
            && (forall r :: r in page ==> r in table && r.num > cursor)
            && (forall r :: r in table && r.num > cursor ==>
                  r in page || (|page| == 500 && page[499].num < r.num))
  {
    var rows, page := Above(table, cursor), Page(table, cursor);
    AboveAscending(table, cursor);
    forall r | r in page ensures r in table && r.num > cursor {
      AboveMembers(table, cursor, r);
    }
    forall r | r in table && r.num > cursor
      ensures r in page || (|page| == PAGE_SIZE && page[PAGE_SIZE - 1].num < r.num)
    {
      AboveMembers(table, cursor, r);
      var i :| 0 <= i < |rows| && rows[i] == r;
      assert i < |page| ==> page[i] == r;
    }
  }

  ghost predicate AllAscending(history: seq<Table>) {
    forall table :: table in history ==> Ascending(table)
  }

  /** Whatever changes between the pages: rows come strictly ascending, each from some table read. */
  lemma {:induction false} PagesAscend(history: seq<Table>, cursor: int)
    requires AllAscending(history)
    ensures Ascending(Pages(history, cursor))
    ensures forall r :: r in Pages(history, cursor) ==> r.num > cursor && exists table :: table in history && r in table
  {
    if history != [] {
      var page := Page(history[0], cursor);
      PageRows(history[0], cursor);
      assert history[0] in history;
      if |page| == PAGE_SIZE {
        var last := page[PAGE_SIZE - 1];
        var rest := Pages(history[1..], last.num);
        PagesAscend(history[1..], last.num);
        forall i | 0 <= i < |rest| ensures last.num < rest[i].num {
          assert rest[i] in rest;
        }
        assert last in page;
      }
    }
  }

  /** A row that is there at every query is played back, if playback ends. */
  lemma {:induction false} PagesComplete(history: seq<Table>, cursor: int, r: Row)
    requires AllAscending(history) && Ends(history, cursor) && r.num > cursor
    requires forall k :: 0 <= k < Looked(history, cursor) ==> r in history[k]
    ensures r in Pages(history, cursor)
  {
    var page := Page(history[0], cursor);
    PageRows(history[0], cursor);
    assert history[0] in history && r in history[0];
    if r !in page {
      var last := page[PAGE_SIZE - 1].num;
      forall k | 0 <= k < Looked(history[1..], last) ensures r in history[1..][k] {
        assert history[1..][k] == history[k + 1];
      }
      PagesComplete(history[1..], last, r);
    }
  }

  // ---- a log that does not change

  function Same(table: Table, queries: nat): seq<Table> {
    seq(queries, k => table)
  }

  lemma {:induction false} AboveAgain(table: Table, cursor: int, higher: int)
    requires cursor <= higher
    ensures Above(Above(table, cursor), higher) == Above(table, higher)
  {
    if table != [] {
      AboveAgain(table[1..], cursor, higher);
      var rest := Above(table[1..], cursor);
      if table[0].num > cursor {
        assert ([table[0]] + rest)[1..] == rest;
      } else {
        assert [] + rest == rest;
      }
    }
  }

  /** What lies above the n-th of ascending rows is what follows it. */
  lemma {:induction false} AboveDrops(rows: seq<Row>, n: nat)
    requires Ascending(rows) && n < |rows|
    ensures Above(rows, rows[n].num) == rows[n + 1..]
  {
    var rest := rows[1..];
    if n == 0 {
      AboveAll(rest, rows[0].num);
    } else {
      assert rest[n - 1] == rows[n] && rest[n..] == rows[n + 1..];
      AboveDrops(rest, n - 1);
    }
  }

  lemma {:induction false} AboveAll(rows: seq<Row>, cursor: int)
    requires forall i :: 0 <= i < |rows| ==> rows[i].num > cursor
    ensures Above(rows, cursor) == rows
  {
    if rows != [] {
      AboveAll(rows[1..], cursor);
    }
  }

  /** On an unchanging log playback reads exactly the rows above the cursor and ends, whatever its size. */
  lemma {:induction false} FixedLogPages(table: Table, cursor: int, queries: nat)
    requires Ascending(table) && |Above(table, cursor)| < queries * PAGE_SIZE
    ensures Pages(Same(table, queries), cursor) == Above(table, cursor) && Ends(Same(table, queries), cursor)
    decreases queries
  {
    var rows, page := Above(table, cursor), Page(table, cursor);
    assert Same(table, queries)[1..] == Same(table, queries - 1);
    if |page| == PAGE_SIZE {
      var last := rows[PAGE_SIZE - 1];
      assert page == rows[..PAGE_SIZE];
      AboveAscending(table, cursor);
      assert last in rows;
      AboveMembers(table, cursor, last);
      AboveDrops(rows, PAGE_SIZE - 1);
      AboveAgain(table, cursor, last.num);
      assert Above(table, last.num) == rows[PAGE_SIZE..];
      FixedLogPages(table, last.num, queries - 1);
    }
  }

  // ---- delivery

  datatype Outcome = Done | QueryFailed | BadRow(num: int) | CallbackFailed

  /**
   * The events that are called back for rows, where the k-th callback succeeds if `accepts(k)`, and
   * what stops the playback, if anything does.
   */
  function Deliver(codec: Codec, accepts: nat -> bool, first: nat, rows: seq<Row>): (seq<Event>, Option<Outcome>)
    decreases rows
  {
    if rows == [] then ([], None)
    else
      var e := Deserialize(codec, rows[0].kind, rows[0].data);
      if e.None? then ([], Some(BadRow(rows[0].num)))
      else if !accepts(first) then ([e.value], Some(CallbackFailed))
      else
        var (events, stop) := Deliver(codec, accepts, first + 1, rows[1..]);
        ([e.value] + events, stop)
  }

  /** Playback over a history, with `called` called back before. */
  function Resumed(codec: Codec, accepts: nat -> bool, history: seq<Table>, cursor: int, called: seq<Event>)
    : (seq<Event>, Outcome)
  {
    var (events, stop) := Deliver(codec, accepts, |called|, Pages(history, cursor));
    (called + events, if stop.Some? then stop.value else if Ends(history, cursor) then Done else QueryFailed)
  }

  function Played(codec: Codec, accepts: nat -> bool, history: seq<Table>, since: int): (seq<Event>, Outcome) {
    Resumed(codec, accepts, history, since, [])
  }

  lemma {:induction false} DeliverConcat(codec: Codec, accepts: nat -> bool, first: nat, a: seq<Row>, b: seq<Row>)
    ensures var (events, stop) := Deliver(codec, accepts, first, a);
            var (more, last) := Deliver(codec, accepts, first + |a|, b);
            && (stop.None? ==> |events| == |a|)
            && Deliver(codec, accepts, first, a + b) == if stop.Some? then (events, stop) else (events + more, last)
    decreases a
  {
    if a == [] {
      var more := Deliver(codec, accepts, first, b).0;
      assert a + b == b && [] + more == more;
    } else {
      assert (a + b)[1..] == a[1..] + b;
      DeliverConcat(codec, accepts, first + 1, a[1..], b);
      var e := Deserialize(codec, a[0].kind, a[0].data);
      if e.Some? && accepts(first) {
        var (events, stop) := Deliver(codec, accepts, first + 1, a[1..]);
        var (more, last) := Deliver(codec, accepts, first + |a|, b);
        assert [e.value] + (events + more) == [e.value] + events + more;
      }
    }
  }

  /** What becomes of row i, when nothing stopped the playback before. */
  lemma DeliverNext(codec: Codec, accepts: nat -> bool, first: nat, rows: seq<Row>, i: nat)
    requires i < |rows| && Deliver(codec, accepts, first, rows[..i]).1.None?
    ensures var events := Deliver(codec, accepts, first, rows[..i]).0;
            var e := Deserialize(codec, rows[i].kind, rows[i].data);
            if e.None? then Deliver(codec, accepts, first, rows) == (events, Some(BadRow(rows[i].num)))
            else if !accepts(first + i)
            then Deliver(codec, accepts, first, rows) == (events + [e.value], Some(CallbackFailed))
            else Deliver(codec, accepts, first, rows[..i + 1]) == (events + [e.value], None)
  {
    DeliverConcat(codec, accepts, first, rows[..i], rows[i..]);
    DeliverConcat(codec, accepts, first, rows[..i], [rows[i]]);
    assert rows[..i] + rows[i..] == rows && rows[..i] + [rows[i]] == rows[..i + 1];
    assert |rows[..i]| == i && rows[i..][0] == rows[i];
    var events, e := Deliver(codec, accepts, first, rows[..i]).0, Deserialize(codec, rows[i].kind, rows[i].data);
    assert events + [] == events;
    if e.Some? && accepts(first + i) {
      assert [rows[i]][1..] == [];
      assert Deliver(codec, accepts, first + i, [rows[i]]).0 == [e.value] + [] == [e.value];
    }
  }

  /** Rows are called back in their order, from the first one on, all of them unless something stops it. */
  lemma {:induction false} DeliverPrefix(codec: Codec, accepts: nat -> bool, first: nat, rows: seq<Row>)
    ensures var (events, stop) := Deliver(codec, accepts, first, rows);
            && |events| <= |rows|
            && (stop.None? ==> |events| == |rows|)
            && (forall i :: 0 <= i < |events| ==> Deserialize(codec, rows[i].kind, rows[i].data) == Some(events[i]))
    decreases rows
  {
    if rows != [] {
      DeliverPrefix(codec, accepts, first + 1, rows[1..]);
    }
  }

  /**
   * What stops a playback: it ends with a refusal exactly when the last callback was refused, at an
   * unreadable row exactly when the next row cannot be decoded, which it names, and with neither when all
   * rows were called back; every callback before was accepted.
   */
  lemma {:induction false} DeliverStops(codec: Codec, accepts: nat -> bool, first: nat, rows: seq<Row>)
    ensures var (events, stop) := Deliver(codec, accepts, first, rows);
            var n := |events|;
            && n <= |rows|
            && (forall k :: first <= k < first + n - 1 ==> accepts(k))
            && (match stop
                case None => n == |rows| && (n > 0 ==> accepts(first + n - 1))
                case Some(CallbackFailed) => n > 0 && !accepts(first + n - 1)
                case Some(BadRow(num)) =>
                  && n < |rows| && (n > 0 ==> accepts(first + n - 1))
                  && Deserialize(codec, rows[n].kind, rows[n].data).None? && num == rows[n].num
                case Some(_) => false)
    decreases rows
  {
    if rows != [] {
      DeliverStops(codec, accepts, first + 1, rows[1..]);
    }
  }

  lemma {:induction false} DeliverAll(codec: Codec, accepts: nat -> bool, first: nat, rows: seq<Row>)
    requires forall k :: accepts(k)
    requires forall i :: 0 <= i < |rows| ==> Deserialize(codec, rows[i].kind, rows[i].data).Some?
    ensures Deliver(codec, accepts, first, rows).1.None?
    decreases rows
  {
    if rows != [] {
      assert Deserialize(codec, rows[0].kind, rows[0].data).Some?;
      DeliverAll(codec, accepts, first + 1, rows[1..]);
    }
  }

  /** The number an event carries. */
  function NumberOf(e: Event): Option<int> {
    if PayloadOf(e).None? then None else Some(PayloadOf(e).value.num)
  }

  /** The row decodes to an event that carries the row's number. */
  predicate Numbered(codec: Codec, r: Row) {
    var e := Deserialize(codec, r.kind, r.data);
    e.Some? && NumberOf(e.value) == Some(r.num)
  }

  ghost predicate AllNumbered(codec: Codec, history: seq<Table>) {
    forall table, r :: table in history && r in table ==> Numbered(codec, r)
  }

  lemma LogsAreNumbered(codec: Codec, s: Log, r: Row)
    requires Base(codec, s) && r in s.table
    ensures Numbered(codec, r)
  {
    var i :| 0 <= i < |s.stored| && s.stored[i] == r;
    assert Tells(codec, s.stored[i], s.sent[i]);
  }

  function Tables(logs: seq<Log>): seq<Table> {
    seq(|logs|, i requires 0 <= i < |logs| => logs[i].table)
  }

  /** The tables of sound logs are what playback can rely on. */
  lemma SoundHistory(codec: Codec, logs: seq<Log>)
    requires forall i :: 0 <= i < |logs| ==> Base(codec, logs[i])
    ensures AllAscending(Tables(logs)) && AllNumbered(codec, Tables(logs))
  {
    forall table, r | table in Tables(logs) && r in table ensures Numbered(codec, r) {
      var i :| 0 <= i < |logs| && Tables(logs)[i] == table;
      LogsAreNumbered(codec, logs[i], r);
    }
  }

  /** The events called back carry strictly ascending numbers above `since`, whatever changes meanwhile. */
  lemma PlaybackAscends(codec: Codec, accepts: nat -> bool, history: seq<Table>, since: int)
    requires AllAscending(history) && AllNumbered(codec, history)
    ensures var events := Played(codec, accepts, history, since).0;
            && (forall i :: 0 <= i < |events| ==> NumberOf(events[i]).Some? && NumberOf(events[i]).value > since)
            && (forall i, j :: 0 <= i < j < |events| ==> NumberOf(events[i]).value < NumberOf(events[j]).value)
  {
    var rows := Pages(history, since);
    PagesAscend(history, since);
    DeliverPrefix(codec, accepts, 0, rows);
    var events := Played(codec, accepts, history, since).0;
    forall i | 0 <= i < |events| ensures NumberOf(events[i]) == Some(rows[i].num) && rows[i].num > since {
      assert rows[i] in rows;
      assert Numbered(codec, rows[i]);
    }
  }

  /** A playback that is done has called back every row above `since` that was there all the time. */
  lemma PlaybackComplete(codec: Codec, accepts: nat -> bool, history: seq<Table>, since: int, r: Row)
    requires AllAscending(history) && Played(codec, accepts, history, since).1 == Done
    requires r.num > since && forall k :: 0 <= k < Looked(history, since) ==> r in history[k]
    ensures exists i :: 0 <= i < |Played(codec, accepts, history, since).0|
                     && Deserialize(codec, r.kind, r.data) == Some(Played(codec, accepts, history, since).0[i])
  {
    hide Pages, Ends, Looked, Deliver, Deserialize;
    var rows := Pages(history, since);
    DeliverPrefix(codec, accepts, 0, rows);
    NeverDoneByStop(codec, accepts, 0, rows);
    PagesComplete(history, since, r);
    var i :| 0 <= i < |rows| && rows[i] == r;
    assert Deserialize(codec, rows[i].kind, rows[i].data) == Some(Played(codec, accepts, history, since).0[i]);
  }

  lemma {:induction false} NeverDoneByStop(codec: Codec, accepts: nat -> bool, first: nat, rows: seq<Row>)
    ensures var stop := Deliver(codec, accepts, first, rows).1;
            stop.None? || stop.value.BadRow? || stop.value.CallbackFailed?
    decreases rows
  {
    if rows != [] {
      NeverDoneByStop(codec, accepts, first + 1, rows[1..]);
    }
  }

  /**
   * On a log that does not change, playback with willing callbacks is the filter: it ends, and calls
   * back exactly the events of the rows above `since`, in order.
   */
  lemma PlaybackIsFilter(codec: Codec, accepts: nat -> bool, s: Log, since: int, queries: nat)
    requires Base(codec, s) && (forall k :: accepts(k)) && |Above(s.table, since)| < queries * PAGE_SIZE
    ensures var (events, outcome) := Played(codec, accepts, Same(s.table, queries), since);
            var rows := Above(s.table, since);
            && outcome == Done && |events| == |rows|
            && (forall i :: 0 <= i < |rows| ==> Deserialize(codec, rows[i].kind, rows[i].data) == Some(events[i]))
            && (forall i :: 0 <= i < |rows| ==> NumberOf(events[i]) == Some(rows[i].num))
  {
    var rows := Above(s.table, since);
    FixedLogPages(s.table, since, queries);
    forall i | 0 <= i < |rows| ensures Numbered(codec, rows[i]) {
      assert rows[i] in rows;
      AboveMembers(s.table, since, rows[i]);
      LogsAreNumbered(codec, s, rows[i]);
    }
    DeliverPrefix(codec, accepts, 0, rows);
    DeliverAll(codec, accepts, 0, rows);
    assert forall i :: 0 <= i < |rows| ==> Numbered(codec, rows[i]);
  }

  /** One page of playback, and what comes after it. */
  lemma ResumePage(codec: Codec, accepts: nat -> bool, history: seq<Table>, cursor: int, called: seq<Event>)
    requires history != []
    ensures var page := Page(history[0], cursor);
            var (events, stop) := Deliver(codec, accepts, |called|, page);
            Resumed(codec, accepts, history, cursor, called)
            == if stop.Some? then (called + events, stop.value)
               else if |page| < PAGE_SIZE then (called + events, Done)
               else Resumed(codec, accepts, history[1..], page[PAGE_SIZE - 1].num, called + events)
  {
    var page := Page(history[0], cursor);
    if |page| == PAGE_SIZE {
      var later := Pages(history[1..], page[PAGE_SIZE - 1].num);
      DeliverConcat(codec, accepts, |called|, page, later);
      var events := Deliver(codec, accepts, |called|, page).0;
      var more := Deliver(codec, accepts, |called| + |page|, later).0;
      assert called + (events + more) == called + events + more;
    }
  }

  // ---- the object

  datatype PersistError = UnknownType | SerializeFailed | InsertFailed

  const HOUR: int := 3600 * SECOND

  class DbPersister {
    const codec: Codec
    const retention: int
    var num: int
    var broadcasting: bool

    // The table of event records, which outlives the object, and what went to the broadcaster.
    var table: Table
    var sent: seq<Event>

    ghost var stored: seq<Row>
    ghost var seed: int
    ghost var taken: nat

    ghost function State(): Log
      reads this
    {
      Log(num, table, stored, sent, seed, taken)
    }

    /** A new process on the table that an earlier one left. */
    constructor (codec: Codec, retention: int, now: int, table: Table, sent: seq<Event>, ghost before: Log)
      requires before.table == table && before.sent == sent
      ensures State() == Restarted(before, now) && !broadcasting
      ensures if table == [] then num * 1_000_000_000 <= now < (num + 1) * 1_000_000_000
              else num == table[|table| - 1].num
      ensures this.codec == codec && this.retention == if retention == 0 then 72 * HOUR else retention
    {
      this.codec := codec;
      this.retention := if retention == 0 then 72 * HOUR else retention;
      this.table, this.sent, broadcasting := table, sent, false;
      num := if table == [] then Seconds(now) else table[|table| - 1].num;
      stored := before.stored;
      seed := if table == [] then now else before.seed;
      taken := if table == [] then 0 else before.taken;
    }

    method SetEventBroadcaster()
      modifies this`broadcasting
      ensures broadcasting
    {
      broadcasting := true;
    }

    /** `inserted` says whether the database accepts the row, if the number is not in use. */
    method Persist(e: Event, now: int, inserted: bool) returns (stamped: Event, error: Option<PersistError>)
      modifies this
      ensures broadcasting == old(broadcasting) && num == old(num) + 1
      ensures var t := Persisted(codec, old(State()), e, now, inserted);
              State() == if broadcasting then t else t.(sent := old(sent))
      ensures stamped == Stamped(e, old(num) + 1)
      ensures error.None? <==> |stored| == |old(stored)| + 1
      ensures error == Some(UnknownType) <==> KindOf(e).None?
      ensures error == Some(SerializeFailed) <==> KindOf(e).Some? && Serialize(codec, stamped).None?
    {
      num := num + 1;
      taken := taken + 1;
      var did, kind;
      if e.commit.Some? {
        stamped := e.(commit := Some(e.commit.value.(num := num)));
        did, kind := e.commit.value.did, "commit";
      } else if e.sync.Some? {
        stamped := e.(sync := Some(e.sync.value.(num := num)));
        did, kind := e.sync.value.did, "sync";
      } else if e.identity.Some? {
        stamped := e.(identity := Some(e.identity.value.(num := num)));
        did, kind := e.identity.value.did, "identity";
      } else if e.account.Some? {
        stamped := e.(account := Some(e.account.value.(num := num)));
        did, kind := e.account.value.did, "account";
      } else {
        return e, Some(UnknownType);
      }
      var data := Serialize(codec, stamped);
      if data.None? {
        return stamped, Some(SerializeFailed);
      }
      var row := Row(num, now, did, kind, data.value);
      if !inserted || Holds(table, num) {
        return stamped, Some(InsertFailed);
      }
      table := Insert(table, row);
      stored := stored + [row];
      if broadcasting {
        sent := sent + [stamped];
      }
      return stamped, None;
    }

    /** One tick of the cleanup routine. */
    method Cleanup(now: int)
      modifies this`table
      ensures State() == Apply(codec, retention, old(State()), EventLog.Cleanup(now))
    {
      table := Kept(table, now - retention);
    }

    /** `history[k]` is what the database holds when the k-th page is queried. */
    method Playback(history: seq<Table>, since: int, accepts: nat -> bool)
      returns (called: seq<Event>, outcome: Outcome)
      ensures (called, outcome) == Played(codec, accepts, history, since)
    {
      called := [];
      var cursor, k := since, 0;
      while k < |history|
        invariant k <= |history|
        invariant Played(codec, accepts, history, since) == Resumed(codec, accepts, history[k..], cursor, called)
      {
        var page := Page(history[k], cursor);
        ResumePage(codec, accepts, history[k..], cursor, called);
        assert history[k..][0] == history[k] && history[k..][1..] == history[k + 1..];
        var stop;
        called, stop, cursor := PlayPage(page, called, cursor, accepts);
        if stop.Some? {
          return called, stop.value;
        }
        if |page| < PAGE_SIZE {
          return called, Done;
        }
        k := k + 1;
      }
      assert history[k..] == [] && called + [] == called;
      return called, QueryFailed;
    }

    /** The callbacks for one page; the cursor follows the rows that were called back. */
    method PlayPage(page: seq<Row>, before: seq<Event>, from: int, accepts: nat -> bool)
      returns (called: seq<Event>, stop: Option<Outcome>, cursor: int)
      ensures var (events, end) := Deliver(codec, accepts, |before|, page); called == before + events && stop == end
      ensures stop.None? ==> cursor == if page == [] then from else page[|page| - 1].num
    {
      called, cursor := before, from;
      for i := 0 to |page|
        invariant called == before + Deliver(codec, accepts, |before|, page[..i]).0 && |called| == |before| + i
        invariant Deliver(codec, accepts, |before|, page[..i]).1.None?
        invariant cursor == if i == 0 then from else page[i - 1].num
      {
        DeliverNext(codec, accepts, |before|, page, i);
        var e := Deserialize(codec, page[i].kind, page[i].data);
        if e.None? {
          return called, Some(BadRow(page[i].num)), cursor;
        }
        var accepted := accepts(|called|);
        called := called + [e.value];
        if !accepted {
          return called, Some(CallbackFailed), cursor;
        }
        cursor := page[i].num;
      }
      assert page[..|page|] == page;
      stop := None;
    }
  }
}
