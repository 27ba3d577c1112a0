/**
 * One applyWrites batch: what it does to the Merkle search tree, to the SQL record index and to
 * the firehose, as functions, and why the three stay in step.
 */
module RepoWrites {
  import opened Basics

  type Path = string
  type Cid = Bytes
  type Tree = map<Path, Cid>

  // ---- record coordinates

  /** The primary key of a record row within one account. */
  datatype Coord = Coord(nsid: string, rkey: string)

  function PathOf(c: Coord): Path {
    c.nsid + "/" + c.rkey
  }

  predicate RecordKeyChar(ch: char) {
    'a' <= ch <= 'z' || 'A' <= ch <= 'Z' || '0' <= ch <= '9' ||
    ch == '_' || ch == '~' || ch == '.' || ch == ':' || ch == '-'
  }

  /** syntax.ParseRecordKey accepts. */
  predicate ValidRecordKey(s: string) {
    1 <= |s| <= 512 && s != "." && s != ".." && forall i :: 0 <= i < |s| ==> RecordKeyChar(s[i])
  }

  /** A path determines its record: a valid record key contains no slash. */
  lemma PathInjective(c: Coord, d: Coord)
    requires ValidRecordKey(c.rkey) && ValidRecordKey(d.rkey) && PathOf(c) == PathOf(d)
    ensures c == d
  {
    var p, q := PathOf(c), PathOf(d);
    assert p[|c.nsid|] == '/' && q[|d.nsid|] == '/';
    assert |c.nsid| < |d.nsid| ==> !RecordKeyChar(p[|d.nsid|]);
    assert |d.nsid| < |c.nsid| ==> !RecordKeyChar(q[|c.nsid|]);
    assert p[..|c.nsid|] == c.nsid && q[..|d.nsid|] == d.nsid;
    assert p[|c.nsid| + 1..] == c.rkey && q[|d.nsid| + 1..] == d.rkey;
  }

  // ---- the library

  type Record = Bytes

  /** A request names its operations by strings; any other string is carried along and does nothing. */
  datatype OpType = Create | Update | Delete | Other(name: string)

  /** A request may leave out the record of any write. */
  datatype Op = Op(kind: OpType, collection: string, rkey: Option<string>, record: Option<Record>)

  /** The calls applyWrites makes into CBOR, CID and TID libraries. */
  datatype Library = Library(
    encode: (OpType, string, Record) -> Bytes,   // the record block for a create or an update
    hash: Bytes -> Cid,
    tid: nat -> string)

  // ---- phase 1

  /** The effect of one atp.ApplyOp, with the value it found and the one it left. */
  datatype TreeOp = TreeOp(path: Path, prev: Option<Cid>, value: Option<Cid>)

  /** A row to write (cid is Some) or to delete once the commit is signed. */
  datatype Entry = Entry(at: Coord, cid: Option<Cid>, value: Bytes)

  datatype WriteResult = WriteResult(kind: OpType, at: Option<Coord>, cid: Option<Cid>)

  datatype Row = Row(cid: Cid, value: Bytes)

  type Index = map<Coord, Row>

  datatype Building = Building(tree: Tree, clock: nat, ops: seq<TreeOp>, entries: seq<Entry>, results: seq<WriteResult>)

  datatype WriteError =
    | InvalidRecordKey | LibraryFailure | SignerFailure | BadSignature | PersistFailure | RepoUnreadable
    | Panicked                         // not an error that is returned: the nil record of a create or update

  function Lookup(t: Tree, p: Path): Option<Cid> {
    if p in t then Some(t[p]) else None
  }

  function PutOp(b: Building, at: Coord, kind: OpType, cid: Cid, value: Bytes): Building {
    var p := PathOf(at);
    Building(b.tree[p := cid], b.clock, b.ops + [TreeOp(p, Lookup(b.tree, p), Some(cid))],
             b.entries + [Entry(at, Some(cid), value)], b.results + [WriteResult(kind, Some(at), Some(cid))])
  }

  function DeleteOp(b: Building, at: Coord, index: Index): Building {
    var p := PathOf(at);
    var kept := b.results + [WriteResult(Delete, None, None)];
    if p !in b.tree then b.(results := kept)
    else
      var prior := if at in index then index[at].value else [];
      Building(b.tree - {p}, b.clock, b.ops + [TreeOp(p, Some(b.tree[p]), None)],
               b.entries + [Entry(at, None, prior)], kept)
  }

  /**
   * The body of the loop over the writes; `index` is the record table while the batch runs and
   * `faulty` says that one of the library calls for this write fails.
   */
  function WriteOne(lib: Library, index: Index, b: Building, op: Op, faulty: bool): (r: Result<Building, WriteError>)
    ensures r.Err? ==> r.error == InvalidRecordKey || r.error == LibraryFailure || r.error == Panicked
  {
    if op.kind != Create && op.rkey.None? then Err(InvalidRecordKey)
    else
      var generated := op.rkey.None?;
      var rkey := if generated then lib.tid(b.clock) else op.rkey.value;
      var at := Coord(op.collection, rkey);
      var kind := if op.kind == Create && !generated && PathOf(at) in b.tree then Update else op.kind;
      var c := b.(clock := if generated then b.clock + 1 else b.clock);
      if !ValidRecordKey(rkey) then Err(InvalidRecordKey)
      else if kind.Other? then Ok(c)
      else if kind == Delete then
        if faulty && PathOf(at) in b.tree then Err(LibraryFailure) else Ok(DeleteOp(c, at, index))
      else if op.record.None? then Err(Panicked)
      else if faulty then Err(LibraryFailure)
      else
        var block := lib.encode(kind, op.collection, op.record.value);
        Ok(PutOp(c, at, kind, lib.hash(block), block))
  }

  /** The first `n` writes of the batch. */
  function Build(lib: Library, index: Index, tree: Tree, clock: nat, writes: seq<Op>, faulty: nat -> bool, n: nat)
    : (r: Result<Building, WriteError>)
    requires n <= |writes|
    ensures r.Err? ==> r.error == InvalidRecordKey || r.error == LibraryFailure || r.error == Panicked
  {
    if n == 0 then Ok(Building(tree, clock, [], [], []))
    else
      var b := Build(lib, index, tree, clock, writes, faulty, n - 1);
      if b.Err? then b else WriteOne(lib, index, b.value, writes[n - 1], faulty(n - 1))
  }

  /** What the first `n` writes had built when one of them failed, or all of it. */
  function Reached(lib: Library, index: Index, tree: Tree, clock: nat, writes: seq<Op>, faulty: nat -> bool, n: nat)
    : Building
    requires n <= |writes|
  {
    var b := Build(lib, index, tree, clock, writes, faulty, n);
    if b.Ok? then b.value else Reached(lib, index, tree, clock, writes, faulty, n - 1)
  }

  lemma {:induction false} ReachedIsBuilt(lib: Library, index: Index, tree: Tree, clock: nat, writes: seq<Op>,
                                          faulty: nat -> bool, n: nat) returns (k: nat)
    requires n <= |writes|
    ensures k <= n && Build(lib, index, tree, clock, writes, faulty, k)
                      == Ok(Reached(lib, index, tree, clock, writes, faulty, n))
  {
    k := n;
    while Build(lib, index, tree, clock, writes, faulty, k).Err?
      invariant k <= n
      invariant Reached(lib, index, tree, clock, writes, faulty, k)
             == Reached(lib, index, tree, clock, writes, faulty, n)
      decreases k
    {
      k := k - 1;
    }
  }

  predicate Recordless(op: Op) {
    (op.kind == Create || op.kind == Update) && op.record.None?
  }

  /** A check before the call: with a record in every create and update, no batch panics. */
  lemma {:induction false} RecordsPreventPanic(lib: Library, index: Index, tree: Tree, clock: nat, writes: seq<Op>,
                                               faulty: nat -> bool, n: nat)
    requires n <= |writes| && forall op :: op in writes ==> !Recordless(op)
    ensures Build(lib, index, tree, clock, writes, faulty, n) != Err(Panicked)
  {
    if n > 0 {
      RecordsPreventPanic(lib, index, tree, clock, writes, faulty, n - 1);
      assert writes[n - 1] in writes;
    }
  }

  // ---- the record index

  function ApplyEntry(ix: Index, e: Entry): Index {
    if e.cid.Some? then ix[e.at := Row(e.cid.value, e.value)] else ix - {e.at}
  }

  function ApplyEntries(ix: Index, es: seq<Entry>): Index
    decreases |es|
  {
    if es == [] then ix else ApplyEntry(ApplyEntries(ix, es[..|es| - 1]), es[|es| - 1])
  }

  function Touched(es: seq<Entry>): set<Coord> {
    set e | e in es :: e.at
  }

  /** Index and tree say the same about one record, and the row's value is what its CID names. */
  predicate AgreeAt(lib: Library, t: Tree, ix: Index, c: Coord) {
    && (c in ix <==> PathOf(c) in t)
    && (c in ix ==> ix[c].cid == t[PathOf(c)] && lib.hash(ix[c].value) == ix[c].cid)
  }

  /** The record table of an account is exactly its tree. */
  ghost predicate Agree(lib: Library, t: Tree, ix: Index) {
    && (forall c :: c in ix ==> ValidRecordKey(c.rkey))
    && (forall c: Coord {:trigger AgreeAt(lib, t, ix, c)} :: ValidRecordKey(c.rkey) ==> AgreeAt(lib, t, ix, c))
    && (forall p :: p in t ==> IsRecordPath(p))
  }

  ghost predicate IsRecordPath(p: Path) {
    exists c: Coord :: ValidRecordKey(c.rkey) && PathOf(c) == p
  }

  lemma ApplyEntriesAppend(ix: Index, es: seq<Entry>, e: Entry)
    ensures ApplyEntries(ix, es + [e]) == ApplyEntry(ApplyEntries(ix, es), e)
  {
    assert (es + [e])[..|es + [e]| - 1] == es;
  }

  /**
   * What holds of a batch under construction, started on tree `t0` while the table was `ix`: it
   * agrees with the table-to-be wherever it wrote, and is `t0` everywhere else.
   */
  ghost predicate InStep(lib: Library, ix: Index, t0: Tree, b: Building) {
    var after := ApplyEntries(ix, b.entries);
    && (forall c :: c in Touched(b.entries) ==> ValidRecordKey(c.rkey) && AgreeAt(lib, b.tree, after, c))
    && (forall c :: c !in Touched(b.entries) ==> (c in after <==> c in ix) && (c in ix ==> after[c] == ix[c]))
    && (forall p :: Lookup(b.tree, p) != Lookup(t0, p) ==> exists c :: c in Touched(b.entries) && PathOf(c) == p)
  }

  /** An entry as applied to the tree. */
  function Patched(t: Tree, e: Entry): Tree {
    if e.cid.Some? then t[PathOf(e.at) := e.cid.value] else t - {PathOf(e.at)}
  }

  /** The entry has a valid key, and its CID names its value. */
  predicate EntryOk(lib: Library, e: Entry) {
    ValidRecordKey(e.at.rkey) && (e.cid.Some? ==> lib.hash(e.value) == e.cid.value)
  }

  /** A write adds at most one entry, and does to the tree what the entry says. */
  lemma OneEntry(lib: Library, index: Index, b: Building, op: Op, faulty: bool)
    requires WriteOne(lib, index, b, op, faulty).Ok?
    ensures var d := WriteOne(lib, index, b, op, faulty).value;
            || (d.entries == b.entries && d.tree == b.tree)
            || (|d.entries| == |b.entries| + 1 && d.entries == b.entries + [d.entries[|b.entries|]] &&
                var e := d.entries[|b.entries|];
                EntryOk(lib, e) && d.tree == Patched(b.tree, e))
  {
  }

  /** One more entry, together with the tree update at its path, keeps a batch in step. */
  lemma EntryInStep(lib: Library, ix: Index, t0: Tree, b: Building, d: Building, e: Entry)
    requires InStep(lib, ix, t0, b) && EntryOk(lib, e)
    requires d.entries == b.entries + [e] && d.tree == Patched(b.tree, e)
    ensures InStep(lib, ix, t0, d)
  {
    ApplyEntriesAppend(ix, b.entries, e);
    assert forall c :: c in Touched(d.entries) <==> c in Touched(b.entries) || c == e.at;
    forall c | c in Touched(d.entries)
      ensures ValidRecordKey(c.rkey) && AgreeAt(lib, d.tree, ApplyEntries(ix, d.entries), c)
    {
      if c != e.at {
        assert AgreeAt(lib, b.tree, ApplyEntries(ix, b.entries), c);
        if PathOf(c) == PathOf(e.at) { PathInjective(c, e.at); }
      }
    }
    forall p | Lookup(d.tree, p) != Lookup(t0, p)
      ensures exists c :: c in Touched(d.entries) && PathOf(c) == p
    {
      if p == PathOf(e.at) {
        assert e.at in Touched(d.entries);
      } else {
        var c :| c in Touched(b.entries) && PathOf(c) == p;
        assert c in Touched(d.entries);
      }
    }
  }

  lemma WriteInStep(lib: Library, ix: Index, t0: Tree, b: Building, op: Op, faulty: bool)
    requires InStep(lib, ix, t0, b) && WriteOne(lib, ix, b, op, faulty).Ok?
    ensures InStep(lib, ix, t0, WriteOne(lib, ix, b, op, faulty).value)
  {
    var d := WriteOne(lib, ix, b, op, faulty).value;
    OneEntry(lib, ix, b, op, faulty);
    if d.entries != b.entries {
      EntryInStep(lib, ix, t0, b, d, d.entries[|b.entries|]);
    }
  }

  lemma {:induction false} BuildInStep(lib: Library, ix: Index, t0: Tree, clock: nat, writes: seq<Op>,
                                       faulty: nat -> bool, n: nat)
    requires n <= |writes| && Build(lib, ix, t0, clock, writes, faulty, n).Ok?
    ensures InStep(lib, ix, t0, Build(lib, ix, t0, clock, writes, faulty, n).value)
  {
    hide WriteOne;
    if n > 0 {
      BuildInStep(lib, ix, t0, clock, writes, faulty, n - 1);
      var b := Build(lib, ix, t0, clock, writes, faulty, n - 1).value;
      WriteInStep(lib, ix, t0, b, writes[n - 1], faulty(n - 1));
    }
  }

  predicate SameAt(t: Tree, u: Tree, p: Path) {
    Lookup(t, p) == Lookup(u, p)
  }

  /** Two trees agree except at records that the entries write. */
  ghost predicate DifferOnlyIn(t: Tree, u: Tree, es: seq<Entry>) {
    forall p :: SameAt(t, u, p) || exists c :: c in Touched(es) && PathOf(c) == p
  }

  /**
   * A batch built on `t0` is finalised while the table agrees with `t1`. Afterwards the table agrees
   * with the new tree if and only if `t0` and `t1` agree outside what the batch wrote: always for a
   * batch built on the current root, and for a stale one exactly when it loses no update.
   */
  lemma {:induction false} IndexAgreesIff(lib: Library, ix: Index, t0: Tree, t1: Tree, clock: nat, writes: seq<Op>,
                                          faulty: nat -> bool)
    requires Build(lib, ix, t0, clock, writes, faulty, |writes|).Ok? && Agree(lib, t1, ix)
    ensures var b := Build(lib, ix, t0, clock, writes, faulty, |writes|).value;
            Agree(lib, b.tree, ApplyEntries(ix, b.entries)) <==>
            DifferOnlyIn(t0, t1, b.entries)
  {
    BuildInStep(lib, ix, t0, clock, writes, faulty, |writes|);
    var b := Build(lib, ix, t0, clock, writes, faulty, |writes|).value;
    if DifferOnlyIn(t0, t1, b.entries) {
      AgreesWhenCurrent(lib, ix, t0, t1, b);
    }
    if Agree(lib, b.tree, ApplyEntries(ix, b.entries)) {
      CurrentWhenAgrees(lib, ix, t0, t1, b);
    }
  }

  lemma AgreesWhenCurrent(lib: Library, ix: Index, t0: Tree, t1: Tree, b: Building)
    requires InStep(lib, ix, t0, b) && Agree(lib, t1, ix)
    requires DifferOnlyIn(t0, t1, b.entries)
    ensures Agree(lib, b.tree, ApplyEntries(ix, b.entries))
  {
    var after := ApplyEntries(ix, b.entries);
    forall c: Coord | ValidRecordKey(c.rkey)
      ensures AgreeAt(lib, b.tree, after, c)
    {
      if c !in Touched(b.entries) {
        assert AgreeAt(lib, t1, ix, c);
        UntouchedPath(b, c);
        assert SameAt(t0, t1, PathOf(c)) && SameAt(b.tree, t0, PathOf(c));
      }
    }
    forall p | p in b.tree
      ensures IsRecordPath(p)
    {
      assert SameAt(t0, t1, p) || exists c :: c in Touched(b.entries) && PathOf(c) == p;
      if !SameAt(b.tree, t1, p) {
        assert SameAt(b.tree, t0, p) || Lookup(b.tree, p) != Lookup(t0, p);
        var c :| c in Touched(b.entries) && PathOf(c) == p;
      }
    }
  }

  /** No written path is the path of an unwritten record. */
  lemma UntouchedPath(b: Building, c: Coord)
    requires ValidRecordKey(c.rkey) && c !in Touched(b.entries)
    requires forall d :: d in Touched(b.entries) ==> ValidRecordKey(d.rkey)
    ensures forall d :: d in Touched(b.entries) ==> PathOf(d) != PathOf(c)
  {
    forall d | d in Touched(b.entries)
      ensures PathOf(d) != PathOf(c)
    {
      if PathOf(d) == PathOf(c) { PathInjective(c, d); }
    }
  }

  lemma CurrentWhenAgrees(lib: Library, ix: Index, t0: Tree, t1: Tree, b: Building)
    requires InStep(lib, ix, t0, b) && Agree(lib, t1, ix)
    requires Agree(lib, b.tree, ApplyEntries(ix, b.entries))
    ensures DifferOnlyIn(t0, t1, b.entries)
  {
    var after := ApplyEntries(ix, b.entries);
    forall p
      ensures SameAt(t0, t1, p) || exists c :: c in Touched(b.entries) && PathOf(c) == p
    {
      if !exists c :: c in Touched(b.entries) && PathOf(c) == p {
        assert SameAt(b.tree, t0, p);
        if IsRecordPath(p) {
          var c: Coord :| ValidRecordKey(c.rkey) && PathOf(c) == p;
          assert AgreeAt(lib, t1, ix, c) && AgreeAt(lib, b.tree, after, c);
        }
      }
    }
  }

  // ---- rows without their commit

  /** The tree that differs from `t` by the entries `es`. */
  function EntryTree(t: Tree, es: seq<Entry>): Tree
    decreases |es|
  {
    if es == [] then t
    else
      Patched(EntryTree(t, es[..|es| - 1]), es[|es| - 1])
  }

  lemma {:induction false} BuildEntriesOk(lib: Library, ix: Index, t0: Tree, clock: nat, writes: seq<Op>,
                                          faulty: nat -> bool, n: nat)
    requires n <= |writes| && Build(lib, ix, t0, clock, writes, faulty, n).Ok?
    ensures forall e :: e in Build(lib, ix, t0, clock, writes, faulty, n).value.entries ==> EntryOk(lib, e)
  {
    hide WriteOne;
    if n > 0 {
      BuildEntriesOk(lib, ix, t0, clock, writes, faulty, n - 1);
      var b := Build(lib, ix, t0, clock, writes, faulty, n - 1).value;
      OneEntry(lib, ix, b, writes[n - 1], faulty(n - 1));
    }
  }

  /** A batch builds the tree that its entries describe. */
  lemma {:induction false} BuildIsEntryTree(lib: Library, ix: Index, t0: Tree, clock: nat, writes: seq<Op>,
                                            faulty: nat -> bool, n: nat)
    requires n <= |writes| && Build(lib, ix, t0, clock, writes, faulty, n).Ok?
    ensures var b := Build(lib, ix, t0, clock, writes, faulty, n).value; EntryTree(t0, b.entries) == b.tree
  {
    hide WriteOne;
    if n > 0 {
      BuildIsEntryTree(lib, ix, t0, clock, writes, faulty, n - 1);
      var b := Build(lib, ix, t0, clock, writes, faulty, n - 1).value;
      OneEntry(lib, ix, b, writes[n - 1], faulty(n - 1));
      var d := Build(lib, ix, t0, clock, writes, faulty, n).value;
      if d.entries != b.entries {
        assert d.entries[..|d.entries| - 1] == b.entries;
      }
    }
  }

  lemma EntryAgrees(lib: Library, t: Tree, ix: Index, e: Entry)
    requires Agree(lib, t, ix) && EntryOk(lib, e)
    ensures Agree(lib, Patched(t, e), ApplyEntry(ix, e))
  {
    var u := Patched(t, e);
    forall c: Coord | ValidRecordKey(c.rkey)
      ensures AgreeAt(lib, u, ApplyEntry(ix, e), c)
    {
      assert AgreeAt(lib, t, ix, c);
      if c != e.at && PathOf(c) == PathOf(e.at) { PathInjective(c, e.at); }
    }
    assert IsRecordPath(PathOf(e.at));
  }

  lemma {:induction false} EntriesAgree(lib: Library, t: Tree, ix: Index, es: seq<Entry>)
    requires Agree(lib, t, ix) && forall e :: e in es ==> EntryOk(lib, e)
    ensures Agree(lib, EntryTree(t, es), ApplyEntries(ix, es))
    decreases |es|
  {
    if es != [] {
      EntriesAgree(lib, t, ix, es[..|es| - 1]);
      EntryAgrees(lib, EntryTree(t, es[..|es| - 1]), ApplyEntries(ix, es[..|es| - 1]), es[|es| - 1]);
    }
  }

  lemma SameTree(t: Tree, u: Tree)
    requires forall p :: SameAt(t, u, p)
    ensures t == u
  {
    forall p ensures (p in t <==> p in u) && (p in t ==> t[p] == u[p]) {
      assert SameAt(t, u, p);
    }
  }

  /** A table agrees with one tree only. */
  lemma TreeDetermined(lib: Library, t: Tree, u: Tree, ix: Index)
    requires Agree(lib, t, ix) && Agree(lib, u, ix)
    ensures t == u
  {
    forall p ensures SameAt(t, u, p) {
      if IsRecordPath(p) {
        var c: Coord :| ValidRecordKey(c.rkey) && PathOf(c) == p;
        assert AgreeAt(lib, t, ix, c) && AgreeAt(lib, u, ix, c);
      }
    }
    SameTree(t, u);
  }

  lemma {:induction false} EntryTreeTouches(t: Tree, es: seq<Entry>, p: Path)
    requires forall c :: c in Touched(es) ==> PathOf(c) != p
    ensures SameAt(EntryTree(t, es), t, p)
    decreases |es|
  {
    if es != [] {
      var front, e := es[..|es| - 1], es[|es| - 1];
      assert e in es && forall x :: x in front ==> x in es;
      assert e.at in Touched(es);
      forall c | c in Touched(front) ensures PathOf(c) != p {
        assert c in Touched(es);
      }
      EntryTreeTouches(t, front, p);
    }
  }

  /** The entries put back, at every record they touch, what the tree already has there. */
  predicate Harmless(t: Tree, es: seq<Entry>) {
    forall c :: c in Touched(es) ==> SameAt(EntryTree(t, es), t, PathOf(c))
  }

  lemma HarmlessIff(t: Tree, es: seq<Entry>)
    ensures Harmless(t, es) <==> EntryTree(t, es) == t
  {
    if Harmless(t, es) {
      var u := EntryTree(t, es);
      forall p ensures SameAt(u, t, p) {
        if c :| c in Touched(es) && PathOf(c) == p {
        } else {
          EntryTreeTouches(t, es, p);
        }
      }
      SameTree(u, t);
    }
  }

  /**
   * Rows that are written while the root stays where it is leave the table in agreement with the
   * tree if and only if they are harmless.
   */
  lemma StrandedRowsIff(lib: Library, t: Tree, ix: Index, es: seq<Entry>)
    requires Agree(lib, t, ix) && forall e :: e in es ==> EntryOk(lib, e)
    ensures Agree(lib, t, ApplyEntries(ix, es)) <==> Harmless(t, es)
  {
    EntriesAgree(lib, t, ix, es);
    HarmlessIff(t, es);
    if Agree(lib, t, ApplyEntries(ix, es)) {
      TreeDetermined(lib, t, EntryTree(t, es), ApplyEntries(ix, es));
    }
  }

  /** Rows of different records are harmless exactly when each of them is what the tree has. */
  lemma {:induction false} DistinctRowsHarmless(lib: Library, t: Tree, es: seq<Entry>)
    requires forall e :: e in es ==> EntryOk(lib, e)
    requires forall i, j :: 0 <= i < j < |es| ==> es[i].at != es[j].at
    ensures Harmless(t, es) <==> forall e :: e in es ==> e.cid == Lookup(t, PathOf(e.at))
  {
    forall e | e in es ensures Lookup(EntryTree(t, es), PathOf(e.at)) == e.cid {
      LastWordIsOwn(lib, t, es, e);
    }
    if Harmless(t, es) {
      forall e | e in es ensures e.cid == Lookup(t, PathOf(e.at)) {
        assert e.at in Touched(es);
      }
    }
  }

  lemma {:induction false} LastWordIsOwn(lib: Library, t: Tree, es: seq<Entry>, e: Entry)
    requires forall x :: x in es ==> EntryOk(lib, x)
    requires forall i, j :: 0 <= i < j < |es| ==> es[i].at != es[j].at
    requires e in es
    ensures Lookup(EntryTree(t, es), PathOf(e.at)) == e.cid
    decreases |es|
  {
    var front, last := es[..|es| - 1], es[|es| - 1];
    if e != last {
      assert e in front && last in es && EntryOk(lib, e) && EntryOk(lib, last);
      assert forall x :: x in front ==> x in es;
      LastWordIsOwn(lib, t, front, e);
      var i :| 0 <= i < |front| && front[i] == e;
      assert es[i].at != es[|es| - 1].at;
      if PathOf(e.at) == PathOf(last.at) { PathInjective(e.at, last.at); }
    }
  }

  const NO_FAULT: nat -> bool := i => false

  /** One create of record "c"/rkey. */
  function CreateOf(rkey: string): seq<Op> {
    [Op(Create, "c", Some(rkey), Some([]))]
  }

  /** That create as a batch, built on the empty tree while the table was `ix`. */
  function LoneCreate(lib: Library, ix: Index, rkey: string): Result<Building, WriteError> {
    Build(lib, ix, map[], 0, CreateOf(rkey), NO_FAULT, 1)
  }

  lemma LoneCreateResult(lib: Library, ix: Index, rkey: string)
    requires ValidRecordKey(rkey)
    ensures LoneCreate(lib, ix, rkey).Ok?
    ensures var v, at := lib.encode(Create, "c", []), Coord("c", rkey);
            var b := LoneCreate(lib, ix, rkey).value;
            b.tree == map[PathOf(at) := lib.hash(v)] && Touched(b.entries) == {at}
  {
    var writes, start := CreateOf(rkey), Building(map[], 0, [], [], []);
    assert Build(lib, ix, map[], 0, writes, NO_FAULT, 0) == Ok(start);
    assert Build(lib, ix, map[], 0, writes, NO_FAULT, 1) == WriteOne(lib, ix, start, writes[0], false);
  }

  lemma EmptyAgrees(lib: Library)
    ensures Agree(lib, map[], map[])
  {
  }

  /** Building on the empty tree while the table holds another record leaves table and tree apart. */
  lemma StaleCreateDisagrees(lib: Library, ix: Index, t: Tree, rkey: string, lost: Coord)
    requires ValidRecordKey(rkey) && ValidRecordKey(lost.rkey) && lost != Coord("c", rkey)
    requires Agree(lib, t, ix) && PathOf(lost) in t
    ensures LoneCreate(lib, ix, rkey).Ok?
    ensures var b := LoneCreate(lib, ix, rkey).value; !Agree(lib, b.tree, ApplyEntries(ix, b.entries))
  {
    LoneCreateResult(lib, ix, rkey);
    var at := Coord("c", rkey);
    if PathOf(at) == PathOf(lost) { PathInjective(at, lost); }
    assert !SameAt(map[], t, PathOf(lost));
    IndexAgreesIff(lib, ix, map[], t, 0, CreateOf(rkey), NO_FAULT);
  }

  /**
   * Two overlapping batches, both built on the same (empty) root and finalised one after the other:
   * the record of the first is gone from the tree but still in the table.
   */
  lemma OverlapLosesUpdate(lib: Library)
    ensures LoneCreate(lib, map[], "1").Ok?
    ensures var first := LoneCreate(lib, map[], "1").value;
            var ix := ApplyEntries(map[], first.entries);
            && LoneCreate(lib, ix, "2").Ok?
            && (var second := LoneCreate(lib, ix, "2").value;
                Agree(lib, first.tree, ix) && !Agree(lib, second.tree, ApplyEntries(ix, second.entries)))
  {
    LoneCreateResult(lib, map[], "1");
    var first := LoneCreate(lib, map[], "1").value;
    EmptyAgrees(lib);
    assert forall p :: SameAt(map[], map[], p);
    IndexAgreesIff(lib, map[], map[], map[], 0, CreateOf("1"), NO_FAULT);
    var ix := ApplyEntries(map[], first.entries);
    StaleCreateDisagrees(lib, ix, first.tree, "2", Coord("c", "1"));
  }

  // ---- the firehose

  datatype RepoAction = Created(cid: Cid) | Updated(cid: Cid) | Deleted(prev: Cid)

  datatype RepoOp = RepoOp(path: Path, action: RepoAction)

  /** Which operations are announced, and how; an update that leaves the CID alone is not. */
  function Announce(op: TreeOp): seq<RepoOp> {
    match (op.prev, op.value)
    case (None, Some(v)) => [RepoOp(op.path, Created(v))]
    case (Some(p), Some(v)) => if p != v then [RepoOp(op.path, Updated(v))] else []
    case (Some(p), None) => [RepoOp(op.path, Deleted(p))]
    case (None, None) => []
  }

  function AnnounceAll(ops: seq<TreeOp>): seq<RepoOp>
    decreases |ops|
  {
    if ops == [] then [] else AnnounceAll(ops[..|ops| - 1]) + Announce(ops[|ops| - 1])
  }

  /** What a strict subscriber does with one operation; None when it does not fit its copy. */
  function ReplayOne(t: Tree, op: RepoOp): Option<Tree> {
    match op.action
    case Created(c) => if op.path in t then None else Some(t[op.path := c])
    case Updated(c) => if op.path in t && t[op.path] != c then Some(t[op.path := c]) else None
    case Deleted(p) => if op.path in t && t[op.path] == p then Some(t - {op.path}) else None
  }

  function Replay(t: Tree, ops: seq<RepoOp>): Option<Tree>
    decreases |ops|
  {
    if ops == [] then Some(t)
    else
      var u := Replay(t, ops[..|ops| - 1]);
      if u.None? then None else ReplayOne(u.value, ops[|ops| - 1])
  }

  lemma {:induction false} ReplayConcat(t: Tree, a: seq<RepoOp>, b: seq<RepoOp>)
    requires Replay(t, a).Some?
    ensures Replay(t, a + b) == Replay(Replay(t, a).value, b)
    decreases |b|
  {
    if b == [] {
      assert a + b == a;
    } else {
      assert (a + b)[..|a + b| - 1] == a + b[..|b| - 1];
      ReplayConcat(t, a, b[..|b| - 1]);
    }
  }

  lemma AnnounceAppend(ops: seq<TreeOp>, op: TreeOp)
    ensures AnnounceAll(ops + [op]) == AnnounceAll(ops) + Announce(op)
  {
    assert (ops + [op])[..|ops + [op]| - 1] == ops;
  }

  lemma ReplaySaid(u: Tree, op: TreeOp)
    requires op.prev == Lookup(u, op.path) && (op.prev.Some? || op.value.Some?)
    ensures Replay(u, Announce(op)) == Some(if op.value.Some? then u[op.path := op.value.value] else u - {op.path})
  {
    var said := Announce(op);
    if said == [] {
      assert u[op.path := op.value.value] == u;
    } else {
      assert said[..|said| - 1] == [];
      assert Replay(u, said) == ReplayOne(u, said[0]);
    }
  }

  /** One tree operation is replayed from its announcement. */
  lemma ReplayStep(t: Tree, ops: seq<TreeOp>, u: Tree, op: TreeOp)
    requires Replay(t, AnnounceAll(ops)) == Some(u)
    requires op.prev == Lookup(u, op.path) && (op.prev.Some? || op.value.Some?)
    ensures Replay(t, AnnounceAll(ops + [op])) ==
            Some(if op.value.Some? then u[op.path := op.value.value] else u - {op.path})
  {
    hide AnnounceAll, Replay;
    AnnounceAppend(ops, op);
    ReplayConcat(t, AnnounceAll(ops), Announce(op));
    ReplaySaid(u, op);
  }

  /** A write does at most one tree operation, and its record names what it found and what it left. */
  lemma OneTreeOp(lib: Library, index: Index, b: Building, op: Op, faulty: bool)
    requires WriteOne(lib, index, b, op, faulty).Ok?
    ensures var d := WriteOne(lib, index, b, op, faulty).value;
            || (d.ops == b.ops && d.tree == b.tree)
            || (|d.ops| == |b.ops| + 1 && d.ops == b.ops + [d.ops[|b.ops|]] &&
                var o := d.ops[|b.ops|];
                && o.prev == Lookup(b.tree, o.path) && (o.prev.Some? || o.value.Some?)
                && d.tree == if o.value.Some? then b.tree[o.path := o.value.value] else b.tree - {o.path})
  {
  }

  lemma WriteReplays(lib: Library, index: Index, t0: Tree, b: Building, op: Op, faulty: bool)
    requires Replay(t0, AnnounceAll(b.ops)) == Some(b.tree) && WriteOne(lib, index, b, op, faulty).Ok?
    ensures var d := WriteOne(lib, index, b, op, faulty).value; Replay(t0, AnnounceAll(d.ops)) == Some(d.tree)
  {
    var d := WriteOne(lib, index, b, op, faulty).value;
    OneTreeOp(lib, index, b, op, faulty);
    if d.ops != b.ops {
      ReplayStep(t0, b.ops, b.tree, d.ops[|b.ops|]);
    }
  }

  /**
   * A strict subscriber that replays the operations of a batch over the previous tree arrives at the
   * new tree: creations are of absent paths, updates change a present one, deletions name what goes.
   */
  lemma {:induction false} FirehoseReplays(lib: Library, ix: Index, t0: Tree, clock: nat, writes: seq<Op>,
                                           faulty: nat -> bool, n: nat)
    requires n <= |writes| && Build(lib, ix, t0, clock, writes, faulty, n).Ok?
    ensures var b := Build(lib, ix, t0, clock, writes, faulty, n).value;
            Replay(t0, AnnounceAll(b.ops)) == Some(b.tree)
  {
    hide WriteOne;
    if n > 0 {
      FirehoseReplays(lib, ix, t0, clock, writes, faulty, n - 1);
      var b := Build(lib, ix, t0, clock, writes, faulty, n - 1).value;
      WriteReplays(lib, ix, t0, b, writes[n - 1], faulty(n - 1));
    }
  }

  /** How many of the first `n` tree operations change the value they found. */
  function Changes(ops: seq<TreeOp>, n: nat): nat
    requires n <= |ops|
  {
    if n == 0 then 0 else Changes(ops, n - 1) + if ops[n - 1].prev != ops[n - 1].value then 1 else 0
  }

  /** The announcement names the path, what became of it, and the value it has now or had before. */
  predicate Says(said: RepoOp, op: TreeOp) {
    && said.path == op.path
    && (said.action.Created? <==> op.prev.None?)
    && (said.action.Deleted? <==> op.value.None?)
    && Some(if said.action.Deleted? then said.action.prev else said.action.cid)
       == if op.value.Some? then op.value else op.prev
  }

  predicate SaidInPlace(ops: seq<TreeOp>, said: seq<RepoOp>, i: nat)
    requires i < |ops|
  {
    Changes(ops, i) < |said| && Says(said[Changes(ops, i)], ops[i])
  }

  lemma {:induction false} ChangesPrefix(ops: seq<TreeOp>, m: nat, n: nat)
    requires n <= m <= |ops|
    ensures Changes(ops[..m], n) == Changes(ops, n)
    decreases n
  {
    if n > 0 {
      ChangesPrefix(ops, m, n - 1);
    }
  }

  /** The operations announced so far stay announced in their places. */
  lemma SaidStays(ops: seq<TreeOp>, op: TreeOp, said: seq<RepoOp>, more: seq<RepoOp>, i: nat)
    requires i < |ops| && SaidInPlace(ops, said, i)
    ensures SaidInPlace(ops + [op], said + more, i)
  {
    assert (ops + [op])[..|ops|] == ops;
    ChangesPrefix(ops + [op], |ops|, i);
  }

  lemma SaidLast(ops: seq<TreeOp>, op: TreeOp, said: seq<RepoOp>)
    requires |said| == Changes(ops, |ops|)
    ensures |said + Announce(op)| == Changes(ops + [op], |ops| + 1)
    ensures op.prev != op.value ==> SaidInPlace(ops + [op], said + Announce(op), |ops|)
  {
    assert (ops + [op])[..|ops|] == ops;
    ChangesPrefix(ops + [op], |ops|, |ops|);
  }

  lemma {:induction false} AnnouncedCount(ops: seq<TreeOp>)
    ensures |AnnounceAll(ops)| == Changes(ops, |ops|)
    decreases |ops|
  {
    hide Announce;
    if ops != [] {
      var front, op := ops[..|ops| - 1], ops[|ops| - 1];
      AnnouncedCount(front);
      SaidLast(front, op, AnnounceAll(front));
      assert front + [op] == ops;
    }
  }

  lemma {:induction false} AnnouncedAt(ops: seq<TreeOp>, i: nat)
    requires i < |ops| && ops[i].prev != ops[i].value
    ensures SaidInPlace(ops, AnnounceAll(ops), i)
    decreases |ops|
  {
    hide SaidInPlace, Announce, Changes;
    var front, op := ops[..|ops| - 1], ops[|ops| - 1];
    assert front + [op] == ops;
    if i < |front| {
      AnnouncedAt(front, i);
      SaidStays(front, op, AnnounceAll(front), Announce(op), i);
    } else {
      AnnouncedCount(front);
      SaidLast(front, op, AnnounceAll(front));
    }
  }

  /** Each operation that changes something is announced once, in order; nothing else is. */
  lemma {:induction false} AnnouncedInOrder(ops: seq<TreeOp>)
    ensures |AnnounceAll(ops)| == Changes(ops, |ops|)
    ensures forall i :: 0 <= i < |ops| && ops[i].prev != ops[i].value ==> SaidInPlace(ops, AnnounceAll(ops), i)
  {
    AnnouncedCount(ops);
    forall i | 0 <= i < |ops| && ops[i].prev != ops[i].value ensures SaidInPlace(ops, AnnounceAll(ops), i) {
      AnnouncedAt(ops, i);
    }
  }

  lemma OneResult(lib: Library, index: Index, b: Building, op: Op, faulty: bool)
    requires WriteOne(lib, index, b, op, faulty).Ok?
    ensures var d := WriteOne(lib, index, b, op, faulty).value;
            && |d.ops| - |b.ops| == |d.entries| - |b.entries|
            && |d.results| == |b.results| + (if op.kind.Other? then 0 else 1)
            && |d.ops| >= |b.ops| && (|d.ops| == |b.ops| ==> d.tree == b.tree)
  {
  }

  /** The writes of a type that is known. */
  function Known(writes: seq<Op>): nat
    decreases |writes|
  {
    if writes == [] then 0
    else Known(writes[..|writes| - 1]) + if writes[|writes| - 1].kind.Other? then 0 else 1
  }

  lemma KnownSnoc(writes: seq<Op>, n: nat)
    requires 0 < n <= |writes|
    ensures Known(writes[..n]) == Known(writes[..n - 1]) + if writes[n - 1].kind.Other? then 0 else 1
  {
    assert writes[..n][..n - 1] == writes[..n - 1];
  }

  /** A batch that announces no tree operation, so that no commit is made, has left tree and table alone. */
  lemma {:induction false} NothingToCommit(lib: Library, ix: Index, t0: Tree, clock: nat, writes: seq<Op>,
                                           faulty: nat -> bool, n: nat)
    requires n <= |writes| && Build(lib, ix, t0, clock, writes, faulty, n).Ok?
    ensures var b := Build(lib, ix, t0, clock, writes, faulty, n).value;
            |b.ops| == |b.entries| && |b.results| == Known(writes[..n]) && (b.ops == [] ==> b.tree == t0)
  {
    hide WriteOne;
    if n > 0 {
      NothingToCommit(lib, ix, t0, clock, writes, faulty, n - 1);
      var b := Build(lib, ix, t0, clock, writes, faulty, n - 1).value;
      OneResult(lib, ix, b, writes[n - 1], faulty(n - 1));
      KnownSnoc(writes, n);
    }
  }

  // ---- a subscriber whose copy is another tree

  /** What the operations first do to a path. */
  function FirstAt(ops: seq<RepoOp>, p: Path): Option<RepoAction>
    decreases |ops|
  {
    if ops == [] then None
    else
      var first := FirstAt(ops[..|ops| - 1], p);
      if first.Some? || ops[|ops| - 1].path != p then first else Some(ops[|ops| - 1].action)
  }

  /** The operations take over a path at which the copy has some other value than they first give it. */
  predicate Overwrites(t: Tree, ops: seq<RepoOp>, p: Path) {
    var first := FirstAt(ops, p);
    first.Some? && first.value.Updated? && p in t && t[p] != first.value.cid
  }

  /** At every path they touch, operations made for `s` fit `t`. */
  ghost predicate Fits(s: Tree, t: Tree, ops: seq<RepoOp>) {
    forall p :: FirstAt(ops, p).Some? ==> SameAt(t, s, p) || Overwrites(t, ops, p)
  }

  /** `w` is `u` where the operations touch it, and `t` elsewhere. */
  ghost predicate Blended(s: Tree, t: Tree, ops: seq<RepoOp>, u: Tree, w: Tree) {
    && (forall p :: FirstAt(ops, p).Some? ==> SameAt(w, u, p))
    && (forall p :: FirstAt(ops, p).None? ==> SameAt(w, t, p) && SameAt(u, s, p))
  }

  lemma {:induction false} ReplayElsewhere(s: Tree, t: Tree, ops: seq<RepoOp>)
    requires Replay(s, ops).Some?
    ensures Replay(t, ops).Some? <==> Fits(s, t, ops)
    ensures Replay(t, ops).Some? ==> Blended(s, t, ops, Replay(s, ops).value, Replay(t, ops).value)
    decreases |ops|
  {
    if ops != [] {
      var front, op := ops[..|ops| - 1], ops[|ops| - 1];
      ReplayElsewhere(s, t, front);
      FitsOneMore(s, t, front, op);
      assert front + [op] == ops;
      if Replay(t, front).Some? {
        OneElsewhere(s, t, front, op, Replay(s, front).value, Replay(t, front).value);
      }
    }
  }

  lemma FirstAtSnoc(ops: seq<RepoOp>, op: RepoOp, p: Path)
    ensures FirstAt(ops + [op], p)
         == if FirstAt(ops, p).Some? || op.path != p then FirstAt(ops, p) else Some(op.action)
  {
    assert (ops + [op])[..|ops|] == ops;
  }

  lemma FitsOneMore(s: Tree, t: Tree, ops: seq<RepoOp>, op: RepoOp)
    ensures Fits(s, t, ops + [op]) <==>
            Fits(s, t, ops) &&
            (FirstAt(ops, op.path).None? ==> SameAt(t, s, op.path) || Overwrites(t, ops + [op], op.path))
  {
    forall p ensures FirstAt(ops + [op], p)
                  == if FirstAt(ops, p).Some? || op.path != p then FirstAt(ops, p) else Some(op.action) {
      FirstAtSnoc(ops, op, p);
    }
    if Fits(s, t, ops + [op]) {
      forall p | FirstAt(ops, p).Some? ensures SameAt(t, s, p) || Overwrites(t, ops, p) {
        assert FirstAt(ops + [op], p) == FirstAt(ops, p);
      }
      assert FirstAt(ops + [op], op.path).Some?;
    } else {
      var p :| FirstAt(ops + [op], p).Some? && !SameAt(t, s, p) && !Overwrites(t, ops + [op], p);
    }
  }

  /** What an operation does to the value at its path; None when it does not fit. */
  function Act(x: Option<Cid>, action: RepoAction): Option<Option<Cid>> {
    match action
    case Created(c) => if x.Some? then None else Some(Some(c))
    case Updated(c) => if x.Some? && x.value != c then Some(Some(c)) else None
    case Deleted(p) => if x == Some(p) then Some(None) else None
  }

  lemma ReplayOneActs(t: Tree, op: RepoOp)
    ensures ReplayOne(t, op).Some? <==> Act(Lookup(t, op.path), op.action).Some?
    ensures ReplayOne(t, op).Some? ==>
              && Some(Lookup(ReplayOne(t, op).value, op.path)) == Act(Lookup(t, op.path), op.action)
              && forall p :: p != op.path ==> SameAt(ReplayOne(t, op).value, t, p)
  {
  }

  lemma OneElsewhere(s: Tree, t: Tree, ops: seq<RepoOp>, op: RepoOp, u: Tree, w: Tree)
    requires Blended(s, t, ops, u, w) && ReplayOne(u, op).Some?
    ensures ReplayOne(w, op).Some? <==>
            (FirstAt(ops, op.path).None? ==> SameAt(t, s, op.path) || Overwrites(t, ops + [op], op.path))
    ensures ReplayOne(w, op).Some? ==>
            Blended(s, t, ops + [op], ReplayOne(u, op).value, ReplayOne(w, op).value)
  {
    ReplayOneActs(u, op);
    ReplayOneActs(w, op);
    FirstAtSnoc(ops, op, op.path);
    if FirstAt(ops, op.path).Some? {
      assert SameAt(w, u, op.path);
    } else {
      assert SameAt(w, t, op.path) && SameAt(u, s, op.path);
    }
    if ReplayOne(w, op).Some? {
      BlendedOneMore(s, t, ops, op, u, w, ReplayOne(u, op).value, ReplayOne(w, op).value);
    }
  }

  lemma BlendedOneMore(s: Tree, t: Tree, ops: seq<RepoOp>, op: RepoOp, u: Tree, w: Tree, u1: Tree, w1: Tree)
    requires Blended(s, t, ops, u, w) && SameAt(w1, u1, op.path)
    requires forall p :: p != op.path ==> SameAt(u1, u, p)
    requires forall p :: p != op.path ==> SameAt(w1, w, p)
    ensures Blended(s, t, ops + [op], u1, w1)
  {
    forall p
      ensures FirstAt(ops + [op], p).Some? ==> SameAt(w1, u1, p)
      ensures FirstAt(ops + [op], p).None? ==> SameAt(w1, t, p) && SameAt(u1, s, p)
    {
      FirstAtSnoc(ops, op, p);
      if p != op.path {
        assert SameAt(u1, u, p) && SameAt(w1, w, p);
        assert FirstAt(ops, p).Some? ==> SameAt(w, u, p);
        assert FirstAt(ops, p).None? ==> SameAt(w, t, p) && SameAt(u, s, p);
      }
    }
  }

  /**
   * Operations that lead from tree `s` to `u` lead a strict subscriber from its copy `t` to `u` as well
   * if and only if wherever the two differ they begin with an update to a third value.
   */
  lemma {:induction false} ReplayElsewhereIff(s: Tree, t: Tree, ops: seq<RepoOp>, u: Tree)
    requires Replay(s, ops) == Some(u)
    ensures Replay(t, ops) == Some(u) <==> forall p :: SameAt(t, s, p) || Overwrites(t, ops, p)
  {
    ReplayElsewhere(s, t, ops);
    if Replay(t, ops) == Some(u) {
      forall p ensures SameAt(t, s, p) || Overwrites(t, ops, p) {
        if FirstAt(ops, p).None? {
          assert SameAt(u, t, p) && SameAt(u, s, p);
        }
      }
    }
    if forall p :: SameAt(t, s, p) || Overwrites(t, ops, p) {
      assert Fits(s, t, ops);
      var w := Replay(t, ops).value;
      forall p ensures SameAt(w, u, p) {
        if FirstAt(ops, p).None? {
          assert SameAt(w, t, p) && SameAt(u, s, p) && !Overwrites(t, ops, p);
          assert SameAt(t, s, p) || Overwrites(t, ops, p);
        }
      }
      SameTree(w, u);
    }
  }
}
