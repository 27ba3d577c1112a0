/**
 * The log behind the firehose: how events become rows, which sequence numbers they get over
 * cleanups and restarts, and how this agrees with what is broadcast.
 */
module EventLog {
  import opened Basics

  // ---- events and their encoding

  /** The parts of an event body that the persister touches, and the rest of it. */
  datatype Payload = Payload(num: int, did: string, body: Bytes)

  /** A stream event: a record of pointers of which at least one should be set. */
  datatype Event = Event(commit: Option<Payload>, sync: Option<Payload>,
                         identity: Option<Payload>, account: Option<Payload>)

  const NO_EVENT := Event(None, None, None, None)

  /** The CBOR library, per event type: encoding may fail, decoding may fail. */
  datatype Codec = Codec(marshal: (string, Payload) -> Option<Bytes>, unmarshal: (string, Bytes) -> Option<Payload>)

  ghost predicate Faithful(codec: Codec) {
    forall kind, p {:trigger codec.marshal(kind, p)} :: codec.marshal(kind, p).Some? ==>
      codec.unmarshal(kind, codec.marshal(kind, p).value) == Some(p)
  }

  function KindOf(e: Event): Option<string> {
    if e.commit.Some? then Some("commit")
    else if e.sync.Some? then Some("sync")
    else if e.identity.Some? then Some("identity")
    else if e.account.Some? then Some("account")
    else None
  }

  /** The payload that a row of this kind is about. */
  function PayloadOf(e: Event): Option<Payload> {
    if e.commit.Some? then e.commit
    else if e.sync.Some? then e.sync
    else if e.identity.Some? then e.identity
    else e.account
  }

  /** The event with the sequence number written into the payload that decides its kind. */
  function Stamped(e: Event, num: int): Event {
    if e.commit.Some? then e.(commit := Some(e.commit.value.(num := num)))
    else if e.sync.Some? then e.(sync := Some(e.sync.value.(num := num)))
    else if e.identity.Some? then e.(identity := Some(e.identity.value.(num := num)))
    else if e.account.Some? then e.(account := Some(e.account.value.(num := num)))
    else e
  }

  function Serialize(codec: Codec, e: Event): Option<Bytes> {
    if e.commit.Some? then codec.marshal("commit", e.commit.value)
    else if e.sync.Some? then codec.marshal("sync", e.sync.value)
    else if e.identity.Some? then codec.marshal("identity", e.identity.value)
    else if e.account.Some? then codec.marshal("account", e.account.value)
    else None
  }

  function Deserialize(codec: Codec, kind: string, data: Bytes): Option<Event> {
    var p := codec.unmarshal(kind, data);
    if p.None? then None
    else if kind == "commit" then Some(NO_EVENT.(commit := p))
    else if kind == "sync" then Some(NO_EVENT.(sync := p))
    else if kind == "identity" then Some(NO_EVENT.(identity := p))
    else if kind == "account" then Some(NO_EVENT.(account := p))
    else None
  }

  /** The event without the payloads that a row does not keep. */
  function Main(e: Event): Event {
    if e.commit.Some? then NO_EVENT.(commit := e.commit)
    else if e.sync.Some? then NO_EVENT.(sync := e.sync)
    else if e.identity.Some? then NO_EVENT.(identity := e.identity)
    else NO_EVENT.(account := e.account)
  }

  predicate OnePayload(e: Event) {
    && (e.commit.Some? ==> e.sync.None?)
    && (e.commit.Some? || e.sync.Some? ==> e.identity.None?)
    && (e.commit.Some? || e.sync.Some? || e.identity.Some? ==> e.account.None?)
  }

  /** Decoding what was encoded gives back the event exactly when it had one payload. */
  lemma RoundTripIff(codec: Codec, e: Event)
    requires Faithful(codec) && Serialize(codec, e).Some?
    ensures KindOf(e).Some?
    ensures Deserialize(codec, KindOf(e).value, Serialize(codec, e).value) == Some(Main(e))
    ensures Main(e) == e <==> OnePayload(e)
  {
  }

  lemma StampedKeepsMeaning(e: Event, num: int)
    ensures KindOf(Stamped(e, num)) == KindOf(e) && (OnePayload(Stamped(e, num)) <==> OnePayload(e))
    ensures PayloadOf(Stamped(e, num))
         == if PayloadOf(e).Some? then Some(PayloadOf(e).value.(num := num)) else None
  {
  }

  // ---- the table

  datatype Row = Row(num: int, createdAt: int, did: string, kind: string, data: Bytes)

  /** The table of event records in the order of its primary key. */
  type Table = seq<Row>

  predicate Ascending(rows: seq<Row>) {
    forall i, j :: 0 <= i < j < |rows| ==> rows[i].num < rows[j].num
  }

  predicate Holds(table: Table, num: int) {
    exists i :: 0 <= i < |table| && table[i].num == num
  }

  function Insert(table: Table, row: Row): Table {
    if table == [] || row.num < table[0].num then [row] + table
    else [table[0]] + Insert(table[1..], row)
  }

  /** DELETE of the rows created before the cutoff. */
  function Kept(table: Table, cutoff: int): Table {
    if table == [] then []
    else (if table[0].createdAt < cutoff then [] else [table[0]]) + Kept(table[1..], cutoff)
  }

  lemma {:induction false} InsertMembers(table: Table, row: Row)
    ensures multiset(Insert(table, row)) == multiset(table) + multiset{row}
  {
    if table == [] || row.num < table[0].num {
    } else {
      assert table == [table[0]] + table[1..];
      InsertMembers(table[1..], row);
    }
  }

  lemma {:induction false} InsertAscending(table: Table, row: Row)
    requires Ascending(table) && !Holds(table, row.num)
    ensures Ascending(Insert(table, row))
  {
    if table == [] || row.num < table[0].num {
    } else {
      var rest := Insert(table[1..], row);
      assert forall i :: 0 <= i < |table[1..]| ==> table[1..][i] == table[i + 1];
      InsertAscending(table[1..], row);
      InsertMembers(table[1..], row);
      forall r | r in rest ensures table[0].num < r.num {
        assert r in multiset(rest);
        assert r == row || r in table[1..];
      }
    }
  }

  lemma {:induction false} InsertLast(table: Table, row: Row)
    requires forall r :: r in table ==> r.num < row.num
    ensures Insert(table, row) == table + [row]
  {
    if table != [] {
      InsertLast(table[1..], row);
      assert table == [table[0]] + table[1..];
    }
  }

  lemma {:induction false} KeptMembers(table: Table, cutoff: int, row: Row)
    ensures row in Kept(table, cutoff) <==> row in table && row.createdAt >= cutoff
  {
    if table != [] {
      assert row in table <==> row == table[0] || row in table[1..];
      KeptMembers(table[1..], cutoff, row);
    }
  }

  lemma {:induction false} KeptAscending(table: Table, cutoff: int)
    requires Ascending(table)
    ensures Ascending(Kept(table, cutoff))
  {
    if table != [] {
      var rest := Kept(table[1..], cutoff);
      KeptAscending(table[1..], cutoff);
      forall i | 0 <= i < |rest| ensures table[0].num < rest[i].num {
        assert rest[i] in rest;
        KeptMembers(table[1..], cutoff, rest[i]);
      }
    }
  }

  /** Whatever is kept, a last row that is kept stays last. */
  lemma {:induction false} KeptLast(table: Table, cutoff: int)
    requires table != [] && table[|table| - 1].createdAt >= cutoff
    ensures var kept := Kept(table, cutoff); kept != [] && kept[|kept| - 1] == table[|table| - 1]
  {
    if |table| > 1 {
      KeptLast(table[1..], cutoff);
    }
  }

  // ---- the log over its whole life

  const SECOND: int := 1_000_000_000

  function Seconds(now: int): int { now / SECOND }

  /**
   * `num` is the number allocated last and `table` what the database holds; `stored` is every row
   * ever inserted and `sent` every event ever broadcast, in order; `seed` is the clock reading, in
   * nanoseconds, that the numbering last started from, and `taken` counts the numbers taken since.
   */
  datatype Log = Log(num: int, table: Table, stored: seq<Row>, sent: seq<Event>, seed: int, taken: nat)

  datatype Step =
    | Persist(event: Event, now: int, inserted: bool)
    | Cleanup(now: int)
    | Restart(now: int)

  function Fresh(now: int): Log {
    Log(Seconds(now), [], [], [], now, 0)
  }

  /** The row of an event, if it has a known type and can be encoded. */
  function RowOf(codec: Codec, e: Event, num: int, now: int): Option<Row> {
    var data := Serialize(codec, Stamped(e, num));
    if KindOf(e).None? || data.None? then None
    else Some(Row(num, now, PayloadOf(e).value.did, KindOf(e).value, data.value))
  }

  /** A number is used up even when no row comes of it. */
  function Persisted(codec: Codec, s: Log, e: Event, now: int, inserted: bool): Log {
    var next := s.(num := s.num + 1, taken := s.taken + 1);
    var row := RowOf(codec, e, s.num + 1, now);
    if row.None? || !inserted || Holds(s.table, s.num + 1) then next
    else next.(table := Insert(s.table, row.value), stored := s.stored + [row.value],
                sent := s.sent + [Stamped(e, s.num + 1)])
  }

  /** The number a new process resumes from. */
  function Resume(table: Table, now: int): int {
    if table == [] then Seconds(now) else table[|table| - 1].num
  }

  function Restarted(s: Log, now: int): Log {
    if s.table == [] then s.(num := Seconds(now), seed := now, taken := 0)
    else s.(num := Resume(s.table, now))
  }

  function Apply(codec: Codec, retention: int, s: Log, step: Step): Log {
    match step
    case Persist(e, now, inserted) => Persisted(codec, s, e, now, inserted)
    case Cleanup(now) => s.(table := Kept(s.table, now - retention))
    case Restart(now) => Restarted(s, now)
  }

  function After(codec: Codec, retention: int, start: int, run: seq<Step>): Log {
    if run == [] then Fresh(start)
    else Apply(codec, retention, After(codec, retention, start, run[..|run| - 1]), run[|run| - 1])
  }

  // ---- safety

  /** What the rows say is what was broadcast: row i decodes to event i, which carries the row's number. */
  ghost predicate Streams(codec: Codec, stored: seq<Row>, sent: seq<Event>) {
    |stored| == |sent| && forall i :: 0 <= i < |stored| ==> Tells(codec, stored[i], sent[i])
  }

  predicate Tells(codec: Codec, row: Row, e: Event) {
    && Deserialize(codec, row.kind, row.data) == Some(Main(e))
    && KindOf(e) == Some(row.kind)
    && PayloadOf(e).Some? && PayloadOf(e).value.num == row.num && PayloadOf(e).value.did == row.did
  }

  /** The number of the newest row ever inserted. */
  function HighWater(s: Log): Option<int> {
    if s.stored == [] then None else Some(s.stored[|s.stored| - 1].num)
  }

  predicate SafeAt(s: Log, step: Step) {
    step.Restart? && HighWater(s).Some? ==> HighWater(s).value <= Resume(s.table, step.now)
  }

  ghost predicate Base(codec: Codec, s: Log) {
    && Ascending(s.table) && Ascending(s.stored)
    && (forall r :: r in s.table ==> r in s.stored)
    && (HighWater(s).Some? ==> HighWater(s).value <= s.num)
    && Streams(codec, s.stored, s.sent)
  }

  lemma AscendingLast(rows: seq<Row>, r: Row)
    requires Ascending(rows) && r in rows
    ensures r.num <= rows[|rows| - 1].num
  {
  }

  lemma PersistTells(codec: Codec, e: Event, num: int, now: int)
    requires Faithful(codec) && RowOf(codec, e, num, now).Some?
    ensures Tells(codec, RowOf(codec, e, num, now).value, Stamped(e, num))
  {
    RoundTripIff(codec, Stamped(e, num));
    StampedKeepsMeaning(e, num);
  }

  /** A persisted event goes to the end of the table. */
  lemma PersistAppends(codec: Codec, s: Log, e: Event, now: int, inserted: bool)
    requires Base(codec, s)
    ensures !Holds(s.table, s.num + 1)
    ensures var t, row := Persisted(codec, s, e, now, inserted), RowOf(codec, e, s.num + 1, now);
            if row.Some? && inserted then t.table == s.table + [row.value] && t.stored == s.stored + [row.value]
            else t.table == s.table && t.stored == s.stored
  {
    NumberedBelow(s.table, s.stored, s.num + 1);
    assert forall i :: 0 <= i < |s.table| ==> s.table[i] in s.table;
    var row := RowOf(codec, e, s.num + 1, now);
    if row.Some? {
      InsertLast(s.table, row.value);
    }
  }

  lemma BasePersist(codec: Codec, s: Log, e: Event, now: int, inserted: bool)
    requires Faithful(codec) && Base(codec, s)
    ensures Base(codec, Persisted(codec, s, e, now, inserted))
  {
    PersistAppends(codec, s, e, now, inserted);
    var row := RowOf(codec, e, s.num + 1, now);
    if row.Some? && inserted {
      PersistTells(codec, e, s.num + 1, now);
      NumberedBelow(s.table, s.stored, s.num + 1);
      AppendAscendingIff(s.table, row.value);
      AppendAscendingIff(s.stored, row.value);
      forall r | r in s.table + [row.value] ensures r in s.stored + [row.value] {
        assert r == row.value || r in s.table;
      }
      StreamsAppend(codec, s.stored, s.sent, row.value, Stamped(e, s.num + 1));
    }
  }

  lemma AppendAscendingIff(rows: seq<Row>, row: Row)
    requires Ascending(rows)
    ensures Ascending(rows + [row]) <==> rows == [] || rows[|rows| - 1].num < row.num
  {
    var more := rows + [row];
    if rows != [] && rows[|rows| - 1].num >= row.num {
      assert more[|rows| - 1].num >= more[|rows|].num;
    }
  }

  lemma StreamsAppend(codec: Codec, stored: seq<Row>, sent: seq<Event>, row: Row, e: Event)
    requires Streams(codec, stored, sent) && Tells(codec, row, e)
    ensures Streams(codec, stored + [row], sent + [e])
  {
  }

  lemma NumberedBelow(table: Table, stored: seq<Row>, num: int)
    requires Ascending(stored) && (forall r :: r in table ==> r in stored)
    requires stored != [] ==> stored[|stored| - 1].num < num
    ensures forall r :: r in table || r in stored ==> r.num < num
  {
    forall r | r in stored ensures r.num < num {
      AscendingLast(stored, r);
    }
  }

  lemma BaseKept(codec: Codec, retention: int, s: Log, step: Step)
    requires Faithful(codec) && Base(codec, s) && SafeAt(s, step)
    ensures Base(codec, Apply(codec, retention, s, step))
  {
    match step
    case Persist(e, now, inserted) => BasePersist(codec, s, e, now, inserted);
    case Cleanup(now) =>
      KeptAscending(s.table, now - retention);
      forall r | r in Kept(s.table, now - retention) ensures r in s.stored {
        KeptMembers(s.table, now - retention, r);
      }
    case Restart(now) =>
  }

  ghost predicate SafeRestarts(codec: Codec, retention: int, start: int, run: seq<Step>) {
    forall k {:trigger run[k]} :: 0 <= k < |run| ==> SafeAt(After(codec, retention, start, run[..k]), run[k])
  }

  /** While each restart resumes at or above every number stored, nothing goes wrong. */
  lemma {:induction false} SafeRunsKeepOrder(codec: Codec, retention: int, start: int, run: seq<Step>)
    requires Faithful(codec) && SafeRestarts(codec, retention, start, run)
    ensures Base(codec, After(codec, retention, start, run))
  {
    if run != [] {
      var front := run[..|run| - 1];
      forall k | 0 <= k < |front| ensures SafeAt(After(codec, retention, start, front[..k]), front[k]) {
        assert front[..k] == run[..k] && front[k] == run[k];
      }
      SafeRunsKeepOrder(codec, retention, start, front);
      assert SafeAt(After(codec, retention, start, run[..|run| - 1]), run[|run| - 1]);
      BaseKept(codec, retention, After(codec, retention, start, front), run[|run| - 1]);
    }
  }

  /** A restart keeps the numbers ascending if and only if it resumes at or above every number stored. */
  lemma RestartSafeIff(codec: Codec, s: Log, now: int, e: Event, later: int)
    requires Base(codec, s)
    requires RowOf(codec, e, Resume(s.table, now) + 1, later).Some?
    ensures var t := Persisted(codec, Restarted(s, now), e, later, true);
            |t.stored| == |s.stored| + 1 && (Ascending(t.stored) <==> SafeAt(s, Restart(now)))
  {
    var u := Restarted(s, now);
    var row := RowOf(codec, e, u.num + 1, later).value;
    forall i | 0 <= i < |s.table| ensures s.table[i].num != u.num + 1 {
      AscendingLast(s.table, s.table[i]);
    }
    AppendAscendingIff(s.stored, row);
  }

  // ---- when restarts are safe

  /** What holds while the clock never falls back. */
  ghost predicate Timed(s: Log, time: int) {
    && (forall i, j :: 0 <= i < j < |s.stored| ==> s.stored[i].createdAt <= s.stored[j].createdAt)
    && (forall i :: 0 <= i < |s.stored| ==> s.stored[i].createdAt <= time)
    && (s.table != [] && s.stored != [] ==> s.table[|s.table| - 1] == s.stored[|s.stored| - 1])
    && s.num <= Seconds(s.seed) + s.taken
  }

  /**
   * A restart on an emptied log comes no sooner than a second for each number taken after the second in
   * which the numbering last started had begun. Clock readings are in nanoseconds.
   */
  predicate PacedAt(s: Log, step: Step) {
    step.Restart? && s.table == [] ==> s.seed - s.seed % 1_000_000_000 + s.taken * 1_000_000_000 <= step.now
  }

  lemma SafeWhenPaced(codec: Codec, s: Log, time: int, step: Step)
    requires Base(codec, s) && Timed(s, time) && PacedAt(s, step)
    ensures SafeAt(s, step)
  {
    if s.table != [] {
      assert s.table[|s.table| - 1] in s.stored;
    }
  }

  lemma TimedPersist(codec: Codec, s: Log, time: int, e: Event, now: int, inserted: bool)
    requires Base(codec, s) && Timed(s, time) && time <= now
    ensures Timed(Persisted(codec, s, e, now, inserted), now)
  {
    PersistAppends(codec, s, e, now, inserted);
  }

  lemma TimedCleanup(codec: Codec, s: Log, time: int, now: int, cutoff: int)
    requires Base(codec, s) && Timed(s, time) && time <= now
    ensures Timed(s.(table := Kept(s.table, cutoff)), now)
  {
    var kept := Kept(s.table, cutoff);
    if kept != [] {
      KeptMembers(s.table, cutoff, kept[0]);
      NewestLast(s.stored, kept[0]);
      KeptLast(s.table, cutoff);
    }
  }

  lemma NewestLast(stored: seq<Row>, r: Row)
    requires forall i, j :: 0 <= i < j < |stored| ==> stored[i].createdAt <= stored[j].createdAt
    requires r in stored
    ensures r.createdAt <= stored[|stored| - 1].createdAt
  {
  }

  lemma TimedKept(codec: Codec, retention: int, s: Log, time: int, step: Step)
    requires Base(codec, s) && Timed(s, time) && time <= step.now
    ensures Timed(Apply(codec, retention, s, step), step.now)
  {
    match step
    case Persist(e, now, inserted) => TimedPersist(codec, s, time, e, now, inserted);
    case Cleanup(now) => TimedCleanup(codec, s, time, now, now - retention);
    case Restart(now) =>
      if s.table != [] {
        assert s.table[|s.table| - 1] in s.stored;
      }
  }

  predicate Clocked(start: int, run: seq<Step>) {
    forall k {:trigger run[k]} :: 0 <= k < |run| ==> (if k == 0 then start else run[k - 1].now) <= run[k].now
  }

  ghost predicate Paced(codec: Codec, retention: int, start: int, run: seq<Step>) {
    forall k {:trigger run[k]} :: 0 <= k < |run| ==> PacedAt(After(codec, retention, start, run[..k]), run[k])
  }

  lemma FrontClockedAndPaced(codec: Codec, retention: int, start: int, run: seq<Step>)
    requires run != [] && Clocked(start, run) && Paced(codec, retention, start, run)
    ensures Clocked(start, run[..|run| - 1]) && Paced(codec, retention, start, run[..|run| - 1])
  {
    var front := run[..|run| - 1];
    forall k | 0 <= k < |front|
      ensures PacedAt(After(codec, retention, start, front[..k]), front[k])
      ensures (if k == 0 then start else front[k - 1].now) <= front[k].now
    {
      assert front[..k] == run[..k] && front[k] == run[k];
    }
  }

  /**
   * With a clock that never falls back, over any number of restarts, cleanups and failures: numbers
   * ascend and the broadcast stream is the stored one, provided that numbers were not taken faster
   * than one a second before a restart that finds the log empty.
   */
  lemma {:induction false} SequenceSafety(codec: Codec, retention: int, start: int, run: seq<Step>)
    requires Faithful(codec) && Clocked(start, run) && Paced(codec, retention, start, run)
    ensures Base(codec, After(codec, retention, start, run))
    ensures Timed(After(codec, retention, start, run), if run == [] then start else run[|run| - 1].now)
  {
    if run != [] {
      var front, step := run[..|run| - 1], run[|run| - 1];
      FrontClockedAndPaced(codec, retention, start, run);
      SequenceSafety(codec, retention, start, front);
      var s, time := After(codec, retention, start, front), if front == [] then start else front[|front| - 1].now;
      assert PacedAt(After(codec, retention, start, run[..|run| - 1]), run[|run| - 1]);
      SafeWhenPaced(codec, s, time, step);
      BaseKept(codec, retention, s, step);
      TimedKept(codec, retention, s, time, step);
    }
  }

  // ---- which numbers are given

  /** An empty log starts from the Unix time, in whole seconds. */
  lemma SeedIsUnixTime(now: int)
    ensures Fresh(now).num * 1_000_000_000 <= now < (Fresh(now).num + 1) * 1_000_000_000
    ensures Fresh(now).table == [] && Fresh(now).stored == [] && Fresh(now).sent == []
  {
  }

  /** The attempts to persist an event among the first `n` steps. */
  function Attempts(run: seq<Step>, n: nat): nat
    requires n <= |run|
  {
    if n == 0 then 0 else Attempts(run, n - 1) + if run[n - 1].Persist? then 1 else 0
  }

  predicate Uninterrupted(run: seq<Step>) {
    forall i :: 0 <= i < |run| ==> !run[i].Restart?
  }

  /** While a process lives each attempt to persist an event takes one number, whether or not a row comes of it. */
  lemma {:induction false} EveryAttemptTakesOne(codec: Codec, retention: int, start: int, run: seq<Step>, n: nat)
    requires n <= |run| && Uninterrupted(run)
    ensures After(codec, retention, start, run[..n]).num == Fresh(start).num + Attempts(run, n)
  {
    if n == 0 {
      assert run[..0] == [];
    } else {
      EveryAttemptTakesOne(codec, retention, start, run, n - 1);
      assert run[..n] == run[..n - 1] + [run[n - 1]];
      AfterMore(codec, retention, start, run[..n - 1], run[n - 1]);
    }
  }

  /** A process that finds rows goes on after the last of them, though its predecessor may have used more numbers. */
  lemma RestartContinues(codec: Codec, s: Log, now: int, e: Event, later: int)
    requires Base(codec, s) && s.table != []
    requires RowOf(codec, e, s.table[|s.table| - 1].num + 1, later).Some?
    ensures var t := Persisted(codec, Restarted(s, now), e, later, true);
            && |t.stored| == |s.stored| + 1
            && t.stored[|s.stored|].num == s.table[|s.table| - 1].num + 1
            && t.stored[..|s.stored|] == s.stored
  {
    forall i | 0 <= i < |s.table| ensures s.table[i].num != s.table[|s.table| - 1].num + 1 {
      AscendingLast(s.table, s.table[i]);
    }
  }

  // ---- when they are not

  /** The event can be encoded under every number. */
  ghost predicate Encodes(codec: Codec, e: Event) {
    KindOf(e).Some? && forall num {:trigger Stamped(e, num)} :: Serialize(codec, Stamped(e, num)).Some?
  }

  lemma EncodesRow(codec: Codec, e: Event, num: int, now: int)
    requires Encodes(codec, e)
    ensures RowOf(codec, e, num, now).Some?
  {
    assert Serialize(codec, Stamped(e, num)).Some?;
  }

  function Burst(e: Event, now: int, count: nat): seq<Step> {
    if count == 0 then [] else Burst(e, now, count - 1) + [Persist(e, now, true)]
  }

  /** The log a burst leaves: sound, numbered without a gap, and all of its rows of the same age. */
  ghost predicate Bursted(codec: Codec, s: Log, start: int, count: nat) {
    && Base(codec, s) && s.num == Seconds(start) + count
    && HighWater(s) == (if count == 0 then None else Some(s.num))
    && forall r :: r in s.table ==> r.createdAt == start
  }

  lemma BurstGrows(codec: Codec, s: Log, e: Event, start: int, count: nat)
    requires Faithful(codec) && Encodes(codec, e) && Bursted(codec, s, start, count)
    ensures Bursted(codec, Persisted(codec, s, e, start, true), start, count + 1)
  {
    var row := PersistOne(codec, s, e, start);
    forall r | r in s.table + [row] ensures r.createdAt == start {
      assert r in s.table || r == row;
    }
  }

  lemma {:induction false} AfterBurst(codec: Codec, retention: int, start: int, e: Event, count: nat)
    requires Faithful(codec) && Encodes(codec, e)
    ensures Bursted(codec, After(codec, retention, start, Burst(e, start, count)), start, count)
  {
    if count == 0 {
      FreshBursted(codec, start);
    } else {
      var before := Burst(e, start, count - 1);
      AfterBurst(codec, retention, start, e, count - 1);
      BurstGrows(codec, After(codec, retention, start, before), e, start, count - 1);
      AfterMore(codec, retention, start, before, Persist(e, start, true));
    }
  }

  lemma FreshBursted(codec: Codec, start: int)
    ensures Bursted(codec, Fresh(start), start, 0)
  {
  }

  lemma {:induction false} NoneKept(table: Table, cutoff: int)
    requires forall r :: r in table ==> r.createdAt < cutoff
    ensures Kept(table, cutoff) == []
  {
    if table != [] {
      NoneKept(table[1..], cutoff);
    }
  }

  lemma AfterMore(codec: Codec, retention: int, start: int, run: seq<Step>, step: Step)
    ensures After(codec, retention, start, run + [step])
         == Apply(codec, retention, After(codec, retention, start, run), step)
  {
    assert (run + [step])[..|run|] == run;
  }

  /** A cleanup, a restart and one more event. */
  function Reopened(codec: Codec, retention: int, s: Log, cleanup: int, restart: int, e: Event, later: int): Log {
    Persisted(codec, Restarted(s.(table := Kept(s.table, cleanup - retention)), restart), e, later, true)
  }

  function ReopenSteps(cleanup: int, restart: int, e: Event, later: int): seq<Step> {
    [Cleanup(cleanup), Restart(restart), Persist(e, later, true)]
  }

  lemma AfterReopening(codec: Codec, retention: int, start: int, run: seq<Step>,
                       cleanup: int, restart: int, e: Event, later: int)
    ensures After(codec, retention, start, run + ReopenSteps(cleanup, restart, e, later))
         == Reopened(codec, retention, After(codec, retention, start, run), cleanup, restart, e, later)
  {
    var a, b, c := Cleanup(cleanup), Restart(restart), Persist(e, later, true);
    assert run + ReopenSteps(cleanup, restart, e, later) == run + [a] + [b] + [c];
    AfterMore(codec, retention, start, run, a);
    AfterMore(codec, retention, start, run + [a], b);
    AfterMore(codec, retention, start, run + [a] + [b], c);
  }

  lemma ReopenSafeIff(codec: Codec, retention: int, s: Log, cleanup: int, restart: int, e: Event, later: int)
    requires Faithful(codec) && Encodes(codec, e) && Base(codec, s)
    ensures var cleaned := s.(table := Kept(s.table, cleanup - retention));
            Ascending(Reopened(codec, retention, s, cleanup, restart, e, later).stored)
            <==> SafeAt(cleaned, Restart(restart))
  {
    var cleaned := s.(table := Kept(s.table, cleanup - retention));
    BaseKept(codec, retention, s, Cleanup(cleanup));
    EncodesRow(codec, e, Resume(cleaned.table, restart) + 1, later);
    RestartSafeIff(codec, cleaned, restart, e, later);
  }

  lemma EmptiedSafeIff(codec: Codec, retention: int, s: Log, e: Event, later: int)
    requires Faithful(codec) && Encodes(codec, e) && Base(codec, s) && HighWater(s).Some?
    requires forall r :: r in s.table ==> r.createdAt < later - retention
    ensures Ascending(Reopened(codec, retention, s, later, later, e, later).stored)
            <==> HighWater(s).value * 1_000_000_000 <= later
  {
    NoneKept(s.table, later - retention);
    ReopenSafeIff(codec, retention, s, later, later, e, later);
  }

  /**
   * A log that is emptied by the cleanup and reopened hands out an old number again exactly when
   * more numbers were taken than seconds passed since the one in which the numbering started began.
   */
  lemma EmptiedLogReuses(codec: Codec, retention: int, start: int, e: Event, count: nat, later: int)
    requires Faithful(codec) && Encodes(codec, e) && count > 0 && later - retention > start
    ensures var run := Burst(e, start, count) + ReopenSteps(later, later, e, later);
            Ascending(After(codec, retention, start, run).stored) <==>
            start - start % 1_000_000_000 + count * 1_000_000_000 <= later
  {
    AfterBurst(codec, retention, start, e, count);
    EmptiedSafeIff(codec, retention, After(codec, retention, start, Burst(e, start, count)), e, later);
    AfterReopening(codec, retention, start, Burst(e, start, count), later, later, e, later);
  }

  /** The log with one more row. */
  lemma PersistOne(codec: Codec, s: Log, e: Event, now: int) returns (row: Row)
    requires Faithful(codec) && Encodes(codec, e) && Base(codec, s)
    ensures var t := Persisted(codec, s, e, now, true);
            && Base(codec, t) && t.table == s.table + [row] && t.num == s.num + 1
            && row.createdAt == now && row.num == t.num && HighWater(t) == Some(t.num)
  {
    EncodesRow(codec, e, s.num + 1, now);
    BasePersist(codec, s, e, now, true);
    PersistAppends(codec, s, e, now, true);
    row := RowOf(codec, e, s.num + 1, now).value;
  }

  lemma PersistTwo(codec: Codec, retention: int, start: int, e: Event, first: int, second: int)
    requires Faithful(codec) && Encodes(codec, e)
    ensures var s := After(codec, retention, start, [Persist(e, first, true), Persist(e, second, true)]);
            && Base(codec, s) && |s.table| == 2 && HighWater(s) == Some(s.table[0].num + 1)
            && s.table[0].createdAt == first && s.table[1].createdAt == second
  {
    var a, b, s := Persist(e, first, true), Persist(e, second, true), Fresh(start);
    assert [a, b] == [] + [a] + [b];
    AfterMore(codec, retention, start, [], a);
    AfterMore(codec, retention, start, [] + [a], b);
    var older := PersistOne(codec, s, e, first);
    var newest := PersistOne(codec, Persisted(codec, s, e, first, true), e, second);
  }

  /** When the clock falls back, the cleanup may drop the newest row first, and its number is used again. */
  lemma BackwardClockReuses(codec: Codec, retention: int, start: int, e: Event,
                            first: int, second: int, cleanup: int, restart: int, later: int)
    requires Faithful(codec) && Encodes(codec, e) && second < cleanup - retention <= first
    ensures var run := [Persist(e, first, true), Persist(e, second, true)] + ReopenSteps(cleanup, restart, e, later);
            !Ascending(After(codec, retention, start, run).stored)
  {
    var run := [Persist(e, first, true), Persist(e, second, true)];
    var s := After(codec, retention, start, run);
    PersistTwo(codec, retention, start, e, first, second);
    TwoRowsKept(s.table, cleanup - retention);
    AfterReopening(codec, retention, start, run, cleanup, restart, e, later);
    ReopenSafeIff(codec, retention, s, cleanup, restart, e, later);
  }

  lemma TwoRowsKept(table: Table, cutoff: int)
    requires |table| == 2 && table[1].createdAt < cutoff <= table[0].createdAt
    ensures Kept(table, cutoff) == [table[0]]
  {
    NoneKept(table[1..], cutoff);
  }
}
