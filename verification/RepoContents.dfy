/**
 * What a batch of writes means, write by write: which record every path ends up with, what the client
 * is told, and which batches can be built at all.
 */
module RepoContents {
  import opened Basics
  import opened RepoWrites

  // ---- the record a write is about

  /** The write leaves the choice of its record key to the server. */
  predicate Keyless(op: Op) {
    op.kind == Create && op.rkey.None?
  }

  /** How many of the first `n` writes do. */
  function Drawn(writes: seq<Op>, n: nat): nat
    requires n <= |writes|
  {
    if n == 0 then 0 else Drawn(writes, n - 1) + if Keyless(writes[n - 1]) then 1 else 0
  }

  /** The record key of write `i`: its own, or the next number drawn from the clock. */
  function KeyOf(lib: Library, clock: nat, writes: seq<Op>, i: nat): string
    requires i < |writes|
  {
    if writes[i].rkey.Some? then writes[i].rkey.value else lib.tid(clock + Drawn(writes, i))
  }

  function CoordOf(lib: Library, clock: nat, writes: seq<Op>, i: nat): Coord
    requires i < |writes|
  {
    Coord(writes[i].collection, KeyOf(lib, clock, writes, i))
  }

  function PathIn(lib: Library, clock: nat, writes: seq<Op>, i: nat): Path
    requires i < |writes|
  {
    writes[i].collection + "/" + KeyOf(lib, clock, writes, i)
  }

  /** Write `i` is of a known type and about the record at `p`. */
  predicate Names(lib: Library, clock: nat, writes: seq<Op>, i: nat, p: Path)
    requires i < |writes|
  {
    !writes[i].kind.Other? && PathIn(lib, clock, writes, i) == p
  }

  ghost predicate Unnamed(lib: Library, clock: nat, writes: seq<Op>, from: nat, n: nat, p: Path)
    requires n <= |writes|
  {
    forall j {:trigger Names(lib, clock, writes, j, p)} :: from <= j < n ==> !Names(lib, clock, writes, j, p)
  }

  /** Write `i` is the last of the first `n` that names `p`. */
  ghost predicate LastNaming(lib: Library, clock: nat, writes: seq<Op>, n: nat, p: Path, i: nat)
    requires n <= |writes|
  {
    i < n && Names(lib, clock, writes, i, p) && Unnamed(lib, clock, writes, i + 1, n, p)
  }

  /** The type under which write `i` is stored, on the tree it finds: a create of a present record is an update. */
  function KindIn(lib: Library, clock: nat, writes: seq<Op>, i: nat, found: Tree): OpType
    requires i < |writes|
  {
    var op := writes[i];
    if op.kind == Create && op.rkey.Some? && PathIn(lib, clock, writes, i) in found then Update else op.kind
  }

  /** The block that a create or update asks for. */
  function BlockOf(lib: Library, clock: nat, writes: seq<Op>, i: nat, found: Tree): Bytes
    requires i < |writes| && writes[i].record.Some?
  {
    lib.encode(KindIn(lib, clock, writes, i, found), writes[i].collection, writes[i].record.value)
  }

  predicate Stores(op: Op) {
    op.kind == Create || op.kind == Update
  }

  // ---- one write

  /** The record key and the path that a write uses on what was built so far. */
  function KeyOn(lib: Library, b: Building, op: Op): string {
    if op.rkey.Some? then op.rkey.value else lib.tid(b.clock)
  }

  /** Row `c` of the table-to-be. */
  function RowAt(ix: Index, es: seq<Entry>, c: Coord): Option<Row> {
    var after := ApplyEntries(ix, es);
    if c in after then Some(after[c]) else None
  }

  lemma WriteDraws(lib: Library, ix: Index, b: Building, op: Op, faulty: bool)
    requires WriteOne(lib, ix, b, op, faulty).Ok?
    ensures WriteOne(lib, ix, b, op, faulty).value.clock == b.clock + if Keyless(op) then 1 else 0
    ensures ValidRecordKey(KeyOn(lib, b, op)) && (Stores(op) ==> op.record.Some?)
  {
  }

  /** A write leaves every record alone that it does not name. */
  lemma WriteElsewhere(lib: Library, ix: Index, b: Building, op: Op, faulty: bool, p: Path)
    requires WriteOne(lib, ix, b, op, faulty).Ok?
    requires op.kind.Other? || op.collection + "/" + KeyOn(lib, b, op) != p
    ensures var d := WriteOne(lib, ix, b, op, faulty).value;
            && SameAt(d.tree, b.tree, p)
            && forall c {:trigger RowAt(ix, d.entries, c)} :: PathOf(c) == p ==>
                 RowAt(ix, d.entries, c) == RowAt(ix, b.entries, c)
  {
    var d := WriteOne(lib, ix, b, op, faulty).value;
    OneEntry(lib, ix, b, op, faulty);
    if d.entries != b.entries {
      var e := d.entries[|b.entries|];
      assert PathOf(e.at) == op.collection + "/" + KeyOn(lib, b, op);
      ApplyEntriesAppend(ix, b.entries, e);
    }
  }

  /** A create or update puts its own record at its path, into the tree and into the rows. */
  lemma WriteStores(lib: Library, ix: Index, b: Building, op: Op, faulty: bool)
    requires WriteOne(lib, ix, b, op, faulty).Ok? && Stores(op) && op.record.Some?
    ensures var d, at := WriteOne(lib, ix, b, op, faulty).value, Coord(op.collection, KeyOn(lib, b, op));
            var p := op.collection + "/" + KeyOn(lib, b, op);
            var kind := if op.kind == Create && op.rkey.Some? && p in b.tree then Update else op.kind;
            var block := lib.encode(kind, op.collection, op.record.value);
            && Lookup(d.tree, p) == Some(lib.hash(block))
            && RowAt(ix, d.entries, at) == Some(Row(lib.hash(block), block))
            && d.results == b.results + [WriteResult(kind, Some(at), Some(lib.hash(block)))]
            && |d.ops| == |b.ops| + 1
  {
    var d, at := WriteOne(lib, ix, b, op, faulty).value, Coord(op.collection, KeyOn(lib, b, op));
    assert PathOf(at) == op.collection + "/" + KeyOn(lib, b, op);
    ApplyEntriesAppend(ix, b.entries, d.entries[|b.entries|]);
  }

  /** A delete takes the record out of the tree, and out of the rows if it was in the tree. */
  lemma WriteDeletes(lib: Library, ix: Index, b: Building, op: Op, faulty: bool)
    requires WriteOne(lib, ix, b, op, faulty).Ok? && op.kind == Delete
    ensures var d, at := WriteOne(lib, ix, b, op, faulty).value, Coord(op.collection, KeyOn(lib, b, op));
            var p := op.collection + "/" + KeyOn(lib, b, op);
            && p !in d.tree
            && RowAt(ix, d.entries, at) == (if p in b.tree then None else RowAt(ix, b.entries, at))
            && d.results == b.results + [WriteResult(Delete, None, None)]
            && |d.ops| == |b.ops| + if p in b.tree then 1 else 0
  {
    var d, at := WriteOne(lib, ix, b, op, faulty).value, Coord(op.collection, KeyOn(lib, b, op));
    assert PathOf(at) == op.collection + "/" + KeyOn(lib, b, op);
    if PathOf(at) in b.tree {
      ApplyEntriesAppend(ix, b.entries, d.entries[|b.entries|]);
    }
  }

  // ---- the batch

  /** The last of the first `n` writes, and what it was done to. */
  lemma LastStep(lib: Library, ix: Index, t0: Tree, clock: nat, writes: seq<Op>, faulty: nat -> bool, n: nat)
    returns (b: Building, d: Building)
    requires 0 < n <= |writes| && Build(lib, ix, t0, clock, writes, faulty, n).Ok?
    ensures Build(lib, ix, t0, clock, writes, faulty, n - 1) == Ok(b)
    ensures Build(lib, ix, t0, clock, writes, faulty, n) == Ok(d)
    ensures WriteOne(lib, ix, b, writes[n - 1], faulty(n - 1)) == Ok(d)
  {
    hide WriteOne;
    b := Build(lib, ix, t0, clock, writes, faulty, n - 1).value;
    d := Build(lib, ix, t0, clock, writes, faulty, n).value;
  }

  /** The numbers of the clock are taken one by one, by the creates that come without a record key. */
  lemma {:induction false} BuildDraws(lib: Library, ix: Index, t0: Tree, clock: nat, writes: seq<Op>,
                                      faulty: nat -> bool, n: nat)
    requires n <= |writes| && Build(lib, ix, t0, clock, writes, faulty, n).Ok?
    ensures Build(lib, ix, t0, clock, writes, faulty, n).value.clock == clock + Drawn(writes, n)
  {
    hide WriteOne;
    if n > 0 {
      var b, d := LastStep(lib, ix, t0, clock, writes, faulty, n);
      BuildDraws(lib, ix, t0, clock, writes, faulty, n - 1);
      WriteDraws(lib, ix, b, writes[n - 1], faulty(n - 1));
    }
  }

  /** The record key that a write uses is the one its place in the batch gives it. */
  lemma {:induction false} KeyInPlace(lib: Library, ix: Index, t0: Tree, clock: nat, writes: seq<Op>,
                                      faulty: nat -> bool, i: nat, b: Building)
    requires i < |writes| && Build(lib, ix, t0, clock, writes, faulty, i) == Ok(b)
    ensures KeyOn(lib, b, writes[i]) == KeyOf(lib, clock, writes, i)
  {
    hide WriteOne;
    BuildDraws(lib, ix, t0, clock, writes, faulty, i);
  }

  lemma {:induction false} BuiltBefore(lib: Library, ix: Index, t0: Tree, clock: nat, writes: seq<Op>,
                                       faulty: nat -> bool, i: nat, n: nat)
    requires i <= n <= |writes| && Build(lib, ix, t0, clock, writes, faulty, n).Ok?
    ensures Build(lib, ix, t0, clock, writes, faulty, i).Ok?
    decreases n
  {
    hide WriteOne;
    if i < n {
      BuiltBefore(lib, ix, t0, clock, writes, faulty, i, n - 1);
    }
  }

  /** Records that no write names are as they were, in the tree and in the rows. */
  lemma {:induction false} KeepsUnnamed(lib: Library, ix: Index, t0: Tree, clock: nat, writes: seq<Op>,
                                        faulty: nat -> bool, from: nat, n: nat, p: Path)
    requires from <= n <= |writes| && Build(lib, ix, t0, clock, writes, faulty, n).Ok?
    requires Unnamed(lib, clock, writes, from, n, p)
    ensures Build(lib, ix, t0, clock, writes, faulty, from).Ok?
    ensures var a := Build(lib, ix, t0, clock, writes, faulty, from).value;
            var b := Build(lib, ix, t0, clock, writes, faulty, n).value;
            && SameAt(b.tree, a.tree, p)
            && forall c {:trigger RowAt(ix, b.entries, c)} :: PathOf(c) == p ==>
                 RowAt(ix, b.entries, c) == RowAt(ix, a.entries, c)
    decreases n
  {
    hide WriteOne;
    if from < n {
      var b, d := LastStep(lib, ix, t0, clock, writes, faulty, n);
      KeepsUnnamed(lib, ix, t0, clock, writes, faulty, from, n - 1, p);
      KeyInPlace(lib, ix, t0, clock, writes, faulty, n - 1, b);
      assert !Names(lib, clock, writes, n - 1, p);
      WriteElsewhere(lib, ix, b, writes[n - 1], faulty(n - 1), p);
    }
  }

  /** What write `i` leaves of the record it names, once nothing names it any more. */
  lemma {:induction false} LastWriteStays(lib: Library, ix: Index, t0: Tree, clock: nat, writes: seq<Op>,
                                          faulty: nat -> bool, n: nat, p: Path, i: nat)
    returns (a: Building, d: Building)
    requires n <= |writes| && Build(lib, ix, t0, clock, writes, faulty, n).Ok?
    requires LastNaming(lib, clock, writes, n, p, i)
    ensures Build(lib, ix, t0, clock, writes, faulty, i) == Ok(a)
    ensures WriteOne(lib, ix, a, writes[i], faulty(i)) == Ok(d)
    ensures KeyOn(lib, a, writes[i]) == KeyOf(lib, clock, writes, i)
    ensures var b, at := Build(lib, ix, t0, clock, writes, faulty, n).value, CoordOf(lib, clock, writes, i);
            PathOf(at) == p && SameAt(b.tree, d.tree, p) && RowAt(ix, b.entries, at) == RowAt(ix, d.entries, at)
  {
    hide WriteOne;
    BuiltBefore(lib, ix, t0, clock, writes, faulty, i + 1, n);
    a, d := LastStep(lib, ix, t0, clock, writes, faulty, i + 1);
    KeyInPlace(lib, ix, t0, clock, writes, faulty, i, a);
    KeepsUnnamed(lib, ix, t0, clock, writes, faulty, i + 1, n, p);
  }

  /**
   * The last write that names a path decides: after a create or update the tree and the rows-to-be hold
   * the block of the record it came with, in the collection and under the record key it names, encoded
   * as an update exactly when it is one or the path was there; after a delete neither has the record,
   * if the table had a row for it only if the tree had the path.
   */
  lemma {:induction false} StoresLastWrite(lib: Library, ix: Index, t0: Tree, clock: nat, writes: seq<Op>,
                                           faulty: nat -> bool, n: nat, p: Path, i: nat)
    requires n <= |writes| && Build(lib, ix, t0, clock, writes, faulty, n).Ok?
    requires LastNaming(lib, clock, writes, n, p, i)
    ensures Build(lib, ix, t0, clock, writes, faulty, i).Ok? && (Stores(writes[i]) ==> writes[i].record.Some?)
    ensures var found := Build(lib, ix, t0, clock, writes, faulty, i).value.tree;
            var b, at := Build(lib, ix, t0, clock, writes, faulty, n).value, CoordOf(lib, clock, writes, i);
            if Stores(writes[i]) then
              var block := BlockOf(lib, clock, writes, i, found);
              && Lookup(b.tree, p) == Some(lib.hash(block))
              && RowAt(ix, b.entries, at) == Some(Row(lib.hash(block), block))
            else
              p !in b.tree && ((at in ix ==> p in t0) ==> RowAt(ix, b.entries, at) == None)
  {
    hide WriteOne;
    var a, d := LastWriteStays(lib, ix, t0, clock, writes, faulty, n, p, i);
    WriteDraws(lib, ix, a, writes[i], faulty(i));
    if Stores(writes[i]) {
      WriteStores(lib, ix, a, writes[i], faulty(i));
    } else {
      WriteDeletes(lib, ix, a, writes[i], faulty(i));
      var at := CoordOf(lib, clock, writes, i);
      if at in ix ==> p in t0 {
        BuildInStep(lib, ix, t0, clock, writes, faulty, n);
        GoneFromRows(lib, ix, t0, Build(lib, ix, t0, clock, writes, faulty, n).value, at);
      }
    }
  }

  /** A record that a batch in step leaves out of the tree has no row. */
  lemma GoneFromRows(lib: Library, ix: Index, t0: Tree, b: Building, at: Coord)
    requires InStep(lib, ix, t0, b) && ValidRecordKey(at.rkey) && PathOf(at) !in b.tree
    requires at in ix ==> PathOf(at) in t0
    ensures RowAt(ix, b.entries, at) == None
  {
    if at in Touched(b.entries) {
      assert AgreeAt(lib, b.tree, ApplyEntries(ix, b.entries), at);
    } else {
      UntouchedPath(b, at);
      assert Lookup(b.tree, PathOf(at)) == Lookup(t0, PathOf(at));
    }
  }

  ghost predicate DistinctNumbers(lib: Library) {
    forall a, b {:trigger lib.tid(a), lib.tid(b)} :: lib.tid(a) == lib.tid(b) ==> a == b
  }

  lemma {:induction false} DrawnGrows(writes: seq<Op>, i: nat, j: nat)
    requires i <= j <= |writes|
    ensures Drawn(writes, i) <= Drawn(writes, j)
    decreases j
  {
    if i < j {
      DrawnGrows(writes, i, j - 1);
    }
  }

  /** No two writes of a batch are given the same record key. */
  lemma GeneratedKeysDiffer(lib: Library, clock: nat, writes: seq<Op>, i: nat, j: nat)
    requires DistinctNumbers(lib) && i < j < |writes| && Keyless(writes[i]) && Keyless(writes[j])
    ensures KeyOf(lib, clock, writes, i) != KeyOf(lib, clock, writes, j)
  {
    DrawnGrows(writes, i + 1, j);
  }

  // ---- what the client is told

  /** The result for write `i`, which found the tree `found`. */
  function ResultOf(lib: Library, clock: nat, writes: seq<Op>, i: nat, found: Tree): WriteResult
    requires i < |writes| && (Stores(writes[i]) ==> writes[i].record.Some?)
  {
    if Stores(writes[i]) then
      WriteResult(KindIn(lib, clock, writes, i, found), Some(CoordOf(lib, clock, writes, i)),
                  Some(lib.hash(BlockOf(lib, clock, writes, i, found))))
    else WriteResult(Delete, None, None)
  }

  /** The first `n` writes have, in order, one result each, if they are of a known type. */
  ghost predicate ResultsTell(lib: Library, ix: Index, t0: Tree, clock: nat, writes: seq<Op>, faulty: nat -> bool,
                              n: nat, results: seq<WriteResult>)
    requires n <= |writes|
  {
    && |results| == Known(writes[..n])
    && forall i {:trigger writes[i]} :: 0 <= i < n && !writes[i].kind.Other? ==>
         ResultTells(lib, ix, t0, clock, writes, faulty, i, results)
  }

  predicate ResultTells(lib: Library, ix: Index, t0: Tree, clock: nat, writes: seq<Op>, faulty: nat -> bool, i: nat,
                        results: seq<WriteResult>)
    requires i < |writes|
  {
    var b, k := Build(lib, ix, t0, clock, writes, faulty, i), Known(writes[..i]);
    && b.Ok? && (Stores(writes[i]) ==> writes[i].record.Some?)
    && k < |results| && results[k] == ResultOf(lib, clock, writes, i, b.value.tree)
  }

  lemma LastResult(lib: Library, ix: Index, b: Building, op: Op, faulty: bool)
    requires WriteOne(lib, ix, b, op, faulty).Ok? && !op.kind.Other?
    ensures Stores(op) ==> op.record.Some?
    ensures var at, p := Coord(op.collection, KeyOn(lib, b, op)), op.collection + "/" + KeyOn(lib, b, op);
            var kind := if op.kind == Create && op.rkey.Some? && p in b.tree then Update else op.kind;
            WriteOne(lib, ix, b, op, faulty).value.results == b.results +
              [if Stores(op) then
                 WriteResult(kind, Some(at), Some(lib.hash(lib.encode(kind, op.collection, op.record.value))))
               else WriteResult(Delete, None, None)]
  {
    WriteDraws(lib, ix, b, op, faulty);
    if Stores(op) {
      WriteStores(lib, ix, b, op, faulty);
    } else {
      WriteDeletes(lib, ix, b, op, faulty);
    }
  }

  lemma OneMoreResult(lib: Library, ix: Index, b: Building, op: Op, faulty: bool)
    requires WriteOne(lib, ix, b, op, faulty).Ok?
    ensures b.results <= WriteOne(lib, ix, b, op, faulty).value.results
    ensures op.kind.Other? ==> WriteOne(lib, ix, b, op, faulty).value.results == b.results
  {
  }

  lemma {:induction false} ResultsGrow(lib: Library, ix: Index, t0: Tree, clock: nat, writes: seq<Op>,
                                       faulty: nat -> bool, i: nat, n: nat)
    requires i <= n <= |writes| && Build(lib, ix, t0, clock, writes, faulty, n).Ok?
    ensures Build(lib, ix, t0, clock, writes, faulty, i).Ok?
    ensures Build(lib, ix, t0, clock, writes, faulty, i).value.results
         <= Build(lib, ix, t0, clock, writes, faulty, n).value.results
    decreases n
  {
    hide WriteOne;
    if i < n {
      var b, d := LastStep(lib, ix, t0, clock, writes, faulty, n);
      ResultsGrow(lib, ix, t0, clock, writes, faulty, i, n - 1);
      OneMoreResult(lib, ix, b, writes[n - 1], faulty(n - 1));
    }
  }

  lemma {:induction false} ResultThere(lib: Library, ix: Index, t0: Tree, clock: nat, writes: seq<Op>,
                                       faulty: nat -> bool, i: nat, b: Building, results: seq<WriteResult>)
    requires i < |writes| && Build(lib, ix, t0, clock, writes, faulty, i) == Ok(b) && !writes[i].kind.Other?
    requires WriteOne(lib, ix, b, writes[i], faulty(i)).Ok?
    requires WriteOne(lib, ix, b, writes[i], faulty(i)).value.results <= results
    ensures ResultTells(lib, ix, t0, clock, writes, faulty, i, results)
  {
    hide WriteOne;
    NothingToCommit(lib, ix, t0, clock, writes, faulty, i);
    KeyInPlace(lib, ix, t0, clock, writes, faulty, i, b);
    LastResult(lib, ix, b, writes[i], faulty(i));
  }

  lemma {:induction false} ResultTold(lib: Library, ix: Index, t0: Tree, clock: nat, writes: seq<Op>,
                                      faulty: nat -> bool, n: nat, i: nat)
    requires i < n <= |writes| && Build(lib, ix, t0, clock, writes, faulty, n).Ok? && !writes[i].kind.Other?
    ensures ResultTells(lib, ix, t0, clock, writes, faulty, i,
                        Build(lib, ix, t0, clock, writes, faulty, n).value.results)
  {
    hide WriteOne;
    ResultsGrow(lib, ix, t0, clock, writes, faulty, i + 1, n);
    var b, d := LastStep(lib, ix, t0, clock, writes, faulty, i + 1);
    ResultThere(lib, ix, t0, clock, writes, faulty, i, b, Build(lib, ix, t0, clock, writes, faulty, n).value.results);
  }

  /** The results are one per write of a known type, in order, with the coordinates and the CID it left. */
  lemma {:induction false} ResultsInOrder(lib: Library, ix: Index, t0: Tree, clock: nat, writes: seq<Op>,
                                          faulty: nat -> bool, n: nat)
    requires n <= |writes| && Build(lib, ix, t0, clock, writes, faulty, n).Ok?
    ensures ResultsTell(lib, ix, t0, clock, writes, faulty, n,
                        Build(lib, ix, t0, clock, writes, faulty, n).value.results)
  {
    hide WriteOne;
    var results := Build(lib, ix, t0, clock, writes, faulty, n).value.results;
    NothingToCommit(lib, ix, t0, clock, writes, faulty, n);
    forall i {:trigger writes[i]} | 0 <= i < n && !writes[i].kind.Other?
      ensures ResultTells(lib, ix, t0, clock, writes, faulty, i, results)
    {
      ResultTold(lib, ix, t0, clock, writes, faulty, n, i);
    }
  }

  lemma DeleteCarriesRow(lib: Library, ix: Index, b: Building, op: Op, faulty: bool)
    requires WriteOne(lib, ix, b, op, faulty).Ok?
    ensures forall e :: e in WriteOne(lib, ix, b, op, faulty).value.entries ==>
              e in b.entries || (e.cid.None? ==> e.value == if e.at in ix then ix[e.at].value else [])
  {
  }

  /** A delete's entry carries the row that the table had when the batch began, for the references in it. */
  lemma {:induction false} DeletesCarryRows(lib: Library, ix: Index, t0: Tree, clock: nat, writes: seq<Op>,
                                            faulty: nat -> bool, n: nat)
    requires n <= |writes| && Build(lib, ix, t0, clock, writes, faulty, n).Ok?
    ensures forall e :: e in Build(lib, ix, t0, clock, writes, faulty, n).value.entries && e.cid.None? ==>
              e.value == if e.at in ix then ix[e.at].value else []
  {
    hide WriteOne;
    if n > 0 {
      var b, d := LastStep(lib, ix, t0, clock, writes, faulty, n);
      DeletesCarryRows(lib, ix, t0, clock, writes, faulty, n - 1);
      DeleteCarriesRow(lib, ix, b, writes[n - 1], faulty(n - 1));
    }
  }

  // ---- which batches can be built

  /** Write `i` can be done after the ones before it. */
  predicate Admissible(lib: Library, ix: Index, t0: Tree, clock: nat, writes: seq<Op>, faulty: nat -> bool, i: nat)
    requires i < |writes|
  {
    && (writes[i].rkey.None? ==> writes[i].kind == Create)
    && ValidRecordKey(KeyOf(lib, clock, writes, i))
    && (Stores(writes[i]) ==> writes[i].record.Some? && !faulty(i))
    && (writes[i].kind == Delete && faulty(i) ==> Absent(lib, ix, t0, clock, writes, faulty, i))
  }

  /** The writes before write `i` leave nothing at its path. */
  predicate Absent(lib: Library, ix: Index, t0: Tree, clock: nat, writes: seq<Op>, faulty: nat -> bool, i: nat)
    requires i < |writes|
  {
    var b := Build(lib, ix, t0, clock, writes, faulty, i);
    b.Ok? ==> PathIn(lib, clock, writes, i) !in b.value.tree
  }

  lemma WriteSucceedsIff(lib: Library, ix: Index, b: Building, op: Op, faulty: bool)
    ensures WriteOne(lib, ix, b, op, faulty).Ok? <==>
            && (op.rkey.None? ==> op.kind == Create)
            && ValidRecordKey(KeyOn(lib, b, op))
            && (Stores(op) ==> op.record.Some? && !faulty)
            && (op.kind == Delete && faulty ==> op.collection + "/" + KeyOn(lib, b, op) !in b.tree)
  {
    assert PathOf(Coord(op.collection, KeyOn(lib, b, op))) == op.collection + "/" + KeyOn(lib, b, op);
  }

  lemma {:induction false} NextBuildsIff(lib: Library, ix: Index, t0: Tree, clock: nat, writes: seq<Op>,
                                         faulty: nat -> bool, i: nat)
    requires i < |writes| && Build(lib, ix, t0, clock, writes, faulty, i).Ok?
    ensures Build(lib, ix, t0, clock, writes, faulty, i + 1).Ok? <==>
            Admissible(lib, ix, t0, clock, writes, faulty, i)
  {
    hide WriteOne;
    var b := Build(lib, ix, t0, clock, writes, faulty, i).value;
    KeyInPlace(lib, ix, t0, clock, writes, faulty, i, b);
    WriteSucceedsIff(lib, ix, b, writes[i], faulty(i));
  }

  ghost predicate AllAdmissible(lib: Library, ix: Index, t0: Tree, clock: nat, writes: seq<Op>, faulty: nat -> bool,
                                n: nat)
    requires n <= |writes|
  {
    forall i {:trigger Admissible(lib, ix, t0, clock, writes, faulty, i)} :: 0 <= i < n ==>
      Admissible(lib, ix, t0, clock, writes, faulty, i)
  }

  lemma {:induction false} AdmissibleBuilds(lib: Library, ix: Index, t0: Tree, clock: nat, writes: seq<Op>,
                                            faulty: nat -> bool, n: nat)
    requires n <= |writes| && AllAdmissible(lib, ix, t0, clock, writes, faulty, n)
    ensures Build(lib, ix, t0, clock, writes, faulty, n).Ok?
  {
    hide WriteOne;
    if n > 0 {
      AdmissibleBuilds(lib, ix, t0, clock, writes, faulty, n - 1);
      NextBuildsIff(lib, ix, t0, clock, writes, faulty, n - 1);
    }
  }

  lemma {:induction false} BuiltIsAdmissible(lib: Library, ix: Index, t0: Tree, clock: nat, writes: seq<Op>,
                                             faulty: nat -> bool, i: nat, n: nat)
    requires i < n <= |writes| && Build(lib, ix, t0, clock, writes, faulty, n).Ok?
    ensures Admissible(lib, ix, t0, clock, writes, faulty, i)
  {
    hide WriteOne;
    BuiltBefore(lib, ix, t0, clock, writes, faulty, i + 1, n);
    BuiltBefore(lib, ix, t0, clock, writes, faulty, i, n);
    NextBuildsIff(lib, ix, t0, clock, writes, faulty, i);
  }

  /**
   * A batch can be built if and only if every update and delete names its record key, all record keys are
   * valid, every create and update has its record, and no library call that a write needs fails.
   */
  lemma {:induction false} BuildsIff(lib: Library, ix: Index, t0: Tree, clock: nat, writes: seq<Op>,
                                     faulty: nat -> bool, n: nat)
    requires n <= |writes|
    ensures Build(lib, ix, t0, clock, writes, faulty, n).Ok? <==>
            AllAdmissible(lib, ix, t0, clock, writes, faulty, n)
  {
    hide WriteOne;
    if Build(lib, ix, t0, clock, writes, faulty, n).Ok? {
      forall i | 0 <= i < n ensures Admissible(lib, ix, t0, clock, writes, faulty, i) {
        BuiltIsAdmissible(lib, ix, t0, clock, writes, faulty, i, n);
      }
    } else if AllAdmissible(lib, ix, t0, clock, writes, faulty, n) {
      AdmissibleBuilds(lib, ix, t0, clock, writes, faulty, n);
    }
  }

  /** The first write that is not admissible decides the error. */
  lemma {:induction false} FirstFaultAnswers(lib: Library, ix: Index, t0: Tree, clock: nat, writes: seq<Op>,
                                             faulty: nat -> bool, n: nat, i: nat)
    requires i < n <= |writes| && Build(lib, ix, t0, clock, writes, faulty, i).Ok?
    requires !Admissible(lib, ix, t0, clock, writes, faulty, i)
    ensures Build(lib, ix, t0, clock, writes, faulty, n) == Err(
              if (writes[i].rkey.None? && writes[i].kind != Create) || !ValidRecordKey(KeyOf(lib, clock, writes, i))
              then InvalidRecordKey
              else if Recordless(writes[i]) then Panicked
              else LibraryFailure)
    decreases n
  {
    hide WriteOne;
    if i < n - 1 {
      FirstFaultAnswers(lib, ix, t0, clock, writes, faulty, n - 1, i);
    } else {
      var b := Build(lib, ix, t0, clock, writes, faulty, i).value;
      KeyInPlace(lib, ix, t0, clock, writes, faulty, i, b);
      WriteSucceedsIff(lib, ix, b, writes[i], faulty(i));
      FaultyWriteAnswers(lib, ix, b, writes[i], faulty(i));
    }
  }

  lemma FaultyWriteAnswers(lib: Library, ix: Index, b: Building, op: Op, faulty: bool)
    requires WriteOne(lib, ix, b, op, faulty).Err?
    ensures WriteOne(lib, ix, b, op, faulty).error ==
            if (op.rkey.None? && op.kind != Create) || !ValidRecordKey(KeyOn(lib, b, op)) then InvalidRecordKey
            else if Recordless(op) then Panicked
            else LibraryFailure
  {
  }

  /** How many of the first `n` writes are begun: all, or those up to the first that fails. */
  function Attempted(lib: Library, ix: Index, t0: Tree, clock: nat, writes: seq<Op>, faulty: nat -> bool, n: nat)
    : (r: nat)
    requires n <= |writes|
    ensures r <= n
  {
    if n == 0 || Build(lib, ix, t0, clock, writes, faulty, n - 1).Ok? then n
    else Attempted(lib, ix, t0, clock, writes, faulty, n - 1)
  }

  /** Write `i` changes nothing on a tree without its path. */
  predicate Idle(lib: Library, t0: Tree, clock: nat, writes: seq<Op>, i: nat)
    requires i < |writes|
  {
    writes[i].kind.Other? || (writes[i].kind == Delete && PathIn(lib, clock, writes, i) !in t0)
  }

  lemma WriteIdleIff(lib: Library, ix: Index, b: Building, op: Op, faulty: bool)
    requires WriteOne(lib, ix, b, op, faulty).Ok?
    ensures WriteOne(lib, ix, b, op, faulty).value.ops == [] <==>
            b.ops == [] && (op.kind.Other? || (op.kind == Delete && op.collection + "/" + KeyOn(lib, b, op) !in b.tree))
  {
    WriteDraws(lib, ix, b, op, faulty);
    OneResult(lib, ix, b, op, faulty);
    if Stores(op) {
      WriteStores(lib, ix, b, op, faulty);
    } else if op.kind == Delete {
      WriteDeletes(lib, ix, b, op, faulty);
    }
  }

  ghost predicate AllIdle(lib: Library, t0: Tree, clock: nat, writes: seq<Op>, n: nat)
    requires n <= |writes|
  {
    forall i {:trigger Idle(lib, t0, clock, writes, i)} :: 0 <= i < n ==> Idle(lib, t0, clock, writes, i)
  }

  lemma AllIdleSnoc(lib: Library, t0: Tree, clock: nat, writes: seq<Op>, n: nat)
    requires n < |writes|
    ensures AllIdle(lib, t0, clock, writes, n + 1) <==>
            AllIdle(lib, t0, clock, writes, n) && Idle(lib, t0, clock, writes, n)
  {
  }

  lemma {:induction false} NextIdleIff(lib: Library, ix: Index, t0: Tree, clock: nat, writes: seq<Op>,
                                       faulty: nat -> bool, i: nat, b: Building, d: Building)
    requires i < |writes| && Build(lib, ix, t0, clock, writes, faulty, i) == Ok(b)
    requires WriteOne(lib, ix, b, writes[i], faulty(i)) == Ok(d)
    ensures d.ops == [] <==> b.ops == [] && Idle(lib, t0, clock, writes, i)
  {
    hide WriteOne;
    NothingToCommit(lib, ix, t0, clock, writes, faulty, i);
    KeyInPlace(lib, ix, t0, clock, writes, faulty, i, b);
    WriteIdleIff(lib, ix, b, writes[i], faulty(i));
  }

  /** A batch has nothing to commit if and only if it holds only deletes of absent records and unknown types. */
  lemma {:induction false} NothingDoneIff(lib: Library, ix: Index, t0: Tree, clock: nat, writes: seq<Op>,
                                          faulty: nat -> bool, n: nat)
    requires n <= |writes| && Build(lib, ix, t0, clock, writes, faulty, n).Ok?
    ensures Build(lib, ix, t0, clock, writes, faulty, n).value.ops == [] <==> AllIdle(lib, t0, clock, writes, n)
  {
    hide WriteOne;
    if n > 0 {
      var b, d := LastStep(lib, ix, t0, clock, writes, faulty, n);
      NothingDoneIff(lib, ix, t0, clock, writes, faulty, n - 1);
      NextIdleIff(lib, ix, t0, clock, writes, faulty, n - 1, b, d);
      AllIdleSnoc(lib, t0, clock, writes, n - 1);
    }
  }
}
