/**
 * RepoMan as an object: the cache of mutable trees, shared by all accounts, and its two users,
 * applyWrites and getRecordProof.
 */
module RepoManager {
  import opened Basics
  import opened RepoWrites
  import opened RepoCache
  import opened RepoRuns
  import opened RepoContents

  type Did = string

  class CachedRepo {
    var repo: Option<Tree>
    var root: Option<Cid>

    constructor ()
      ensures View() == Cached(None, None)
    {
      repo, root := None, None;
    }

    ghost function View(): Cached
      reads this
    {
      Cached(repo, root)
    }
  }

  class RepoMan {
    const lib: Library
    const cs: Commits
    var clock: nat
    var cache: map<Did, CachedRepo>
    var blocks: set<Cid>
    var accounts: map<Did, Account>

    /** One cache entry per DID. */
    ghost predicate Valid()
      reads this
    {
      forall d, e {:trigger cache[d], cache[e]} :: d in cache && e in cache && cache[d] == cache[e] ==> d == e
    }

    /** The cache entry of an account; one that was never used is empty. */
    ghost function EntryOf(did: Did): Cached
      reads this, cache.Values
    {
      if did in cache then cache[did].View() else EMPTY_ENTRY
    }

    ghost function State(did: Did): Repo
      requires did in accounts
      reads this, cache.Values
    {
      Repo(accounts[did], EntryOf(did))
    }

    constructor (lib: Library, cs: Commits)
      ensures Valid() && this.lib == lib && this.cs == cs && cache == map[] && accounts == map[]
    {
      this.lib, this.cs, clock := lib, cs, 0;
      cache, blocks, accounts := map[], {}, map[];
    }

    /** withRepo up to fn, on the entry of the account. */
    method OpenRepo(did: Did, root: Cid) returns (r: Result<CachedRepo, WriteError>)
      requires Valid()
      modifies this`cache, cache.Values
      ensures Valid() && did in cache
      ensures r.Ok? <==> Open(cs, blocks, old(EntryOf(did)), Some(root)).Some?
      ensures r.Ok? ==> r.value == cache[did] && r.value.View() == Open(cs, blocks, old(EntryOf(did)), Some(root)).value
      ensures r.Err? ==> r.error == RepoUnreadable && EntryOf(did) == old(EntryOf(did))
      ensures did in old(cache) ==> cache == old(cache)
      ensures did !in old(cache) ==> fresh(cache[did]) && cache == old(cache)[did := cache[did]]
      ensures forall d :: d in old(cache) && d != did ==> cache[d].View() == old(cache[d].View())
    {
      if did !in cache {
        var added := new CachedRepo();
        cache := cache[did := added];
      }
      var cr := cache[did];
      if cr.repo.None? || cr.root != Some(root) {
        if root !in blocks {
          return Err(RepoUnreadable);
        }
        cr.repo := Some(cs.treeAt(root));
        cr.root := Some(root);
      }
      return Ok(cr);
    }

    /**
     * The body of the loop over the writes: the cached tree and the three lists grow by one write, or
     * the write fails, or panics on a missing record, with the tree as it was. A create without a record
     * key takes a number from the clock, even if it fails.
     */
    method WriteStep(cr: CachedRepo, did: Did, op: Op, faulty: bool,
                     ops: seq<TreeOp>, entries: seq<Entry>, results: seq<WriteResult>)
      returns (r: Result<(seq<TreeOp>, seq<Entry>, seq<WriteResult>), WriteError>)
      requires cr.repo.Some? && did in accounts
      modifies this`clock, cr`repo
      ensures var before := Building(old(cr.repo).value, old(clock), ops, entries, results);
              var w := WriteOne(lib, accounts[did].index, before, op, faulty);
              if r.Err? then w == Err(r.error) && cr.repo == old(cr.repo)
              else cr.repo.Some? && w == Ok(Building(cr.repo.value, clock, r.value.0, r.value.1, r.value.2))
      ensures clock == old(clock) + if Keyless(op) then 1 else 0
    {
      var kind, rkey := op.kind, op.rkey;
      if kind != Create && rkey.None? {
        return Err(InvalidRecordKey);
      } else if kind == Create && rkey.Some? {
        // a create of a present record becomes an update
        if PathOf(Coord(op.collection, rkey.value)) in cr.repo.value {
          kind := Update;
        }
      } else if rkey.None? {
        rkey := Some(lib.tid(clock));
        clock := clock + 1;
      }
      var at := Coord(op.collection, rkey.value);
      var path := PathOf(at);
      if !ValidRecordKey(rkey.value) {
        return Err(InvalidRecordKey);
      }
      if kind.Other? {
        return Ok((ops, entries, results));
      }
      var tree := cr.repo.value;
      if kind == Delete {
        var gone := WriteResult(Delete, None, None);
        if path !in tree {
          return Ok((ops, entries, results + [gone]));
        }
        if faulty {
          return Err(LibraryFailure);
        }
        var index := accounts[did].index;
        var prior := if at in index then index[at].value else [];
        cr.repo := Some(tree - {path});
        return Ok((ops + [TreeOp(path, Some(tree[path]), None)], entries + [Entry(at, None, prior)], results + [gone]));
      }
      if op.record.None? {
        return Err(Panicked);
      }
      if faulty {
        return Err(LibraryFailure);
      }
      var block := lib.encode(kind, op.collection, op.record.value);
      var cid := lib.hash(block);
      cr.repo := Some(tree[path := cid]);
      return Ok((ops + [TreeOp(path, Lookup(tree, path), Some(cid))],
                 entries + [Entry(at, Some(cid), block)],
                 results + [WriteResult(kind, Some(at), Some(cid))]));
    }

    /** getRecordProof as far as the cache goes. */
    method GetRecord(did: Did, root: Cid, path: Path, unreadable: bool) returns (r: Result<Cid, WriteError>)
      requires Valid()
      modifies this`cache, cache.Values
      ensures Valid()
      ensures (EntryOf(did), r) == ReadOne(cs, blocks, old(EntryOf(did)), root, path, unreadable)
      ensures forall d :: d != did ==> EntryOf(d) == old(EntryOf(d))
    {
      var entry := OpenRepo(did, root);
      if entry.Err? {
        return Err(entry.error);
      }
      var cr := entry.value;
      var found := Lookup(cr.repo.value, path);
      if found.None? || unreadable {
        cr.repo, cr.root := None, None;
        return Err(LibraryFailure);
      }
      cr.root := Some(root);
      return Ok(found.value);
    }

    /** The loop over the writes, on the cached tree, which stays as the last write left it. */
    method BuildTree(cr: CachedRepo, did: Did, writes: seq<Op>, faulty: nat -> bool)
      returns (r: Result<Building, WriteError>)
      requires did in accounts && cr.repo.Some?
      modifies this`clock, cr`repo
      ensures r == Build(lib, accounts[did].index, old(cr.repo).value, old(clock), writes, faulty, |writes|)
      ensures cr.repo ==
              Some(Reached(lib, accounts[did].index, old(cr.repo).value, old(clock), writes, faulty, |writes|).tree)
      ensures var index, tree := accounts[did].index, old(cr.repo).value;
              clock == old(clock) + Drawn(writes, Attempted(lib, index, tree, old(clock), writes, faulty, |writes|))
    {
      hide WriteOne;
      var ops: seq<TreeOp>, entries: seq<Entry>, results: seq<WriteResult> := [], [], [];
      ghost var index, tree, start := accounts[did].index, cr.repo.value, clock;
      var i := 0;
      while i < |writes|
        invariant i <= |writes| && cr.repo.Some?
        invariant Build(lib, index, tree, start, writes, faulty, i)
                  == Ok(Building(cr.repo.value, clock, ops, entries, results))
        invariant clock == start + Drawn(writes, i)
        invariant Attempted(lib, index, tree, start, writes, faulty, i) == i
      {
        ghost var b := Building(cr.repo.value, clock, ops, entries, results);
        var e := WriteStep(cr, did, writes[i], faulty(i), ops, entries, results);
        if e.Err? {
          BuildFails(lib, index, tree, start, writes, faulty, i, b, e.error);
          return Err(e.error);
        }
        ops, entries, results := e.value.0, e.value.1, e.value.2;
        BuildGrows(lib, index, tree, start, writes, faulty, i, b,
                   Building(cr.repo.value, clock, ops, entries, results));
        i := i + 1;
      }
      return Ok(Building(cr.repo.value, clock, ops, entries, results));
    }

    /** withRepo after fn: an error empties the entry, Undef keeps the tree without a root, a panic keeps both. */
    method CloseRepo(cr: CachedRepo, failed: Option<WriteError>)
      requires cr.repo.Some?
      modifies cr
      ensures cr.View() == Close(old(cr.root), old(cr.repo).value, if failed.Some? then Err(failed.value) else Ok(None))
    {
      if failed == Some(Panicked) {
        return;
      }
      if failed.Some? {
        cr.repo := None;
      }
      cr.root := None;
    }

    /** The numbers that phase 1 of a batch takes from the clock. */
    ghost function DrawnBy(s: Repo, root: Cid, start: nat, writes: seq<Op>, env: Env): nat
      reads this`blocks
    {
      if Open(cs, blocks, s.cache, Some(root)).None? then 0
      else Drawn(writes, Attempted(lib, s.account.index, Seen(cs, s.cache, root), start, writes, env.faulty, |writes|))
    }

    /** Phase 1, run by withRepo: the cached tree is mutated in place. */
    method BuildUnsigned(did: Did, root: Cid, writes: seq<Op>, env: Env) returns (r: Result<Building, WriteError>)
      requires Valid() && did in accounts
      modifies this`clock, this`cache, cache.Values
      ensures Valid()
      ensures var s := old(State(did));
              var b := Built(lib, cs, s, root, old(clock), writes, env);
              if Open(cs, blocks, s.cache, Some(root)).None? then r == Err(RepoUnreadable) && EntryOf(did) == s.cache
              else
                var outcome := if b.Ok? && env.commitFails then Err(LibraryFailure) else b;
                && r == outcome
                && EntryOf(did) == Close(Some(root), Got(lib, cs, s, root, old(clock), writes, env).tree,
                                         if outcome.Err? then Err(outcome.error) else Ok(None))
      ensures clock == old(clock) + DrawnBy(old(State(did)), root, old(clock), writes, env)
      ensures forall d :: d != did ==> EntryOf(d) == old(EntryOf(d))
    {
      var entry := OpenRepo(did, root);
      if entry.Err? {
        return Err(entry.error);
      }
      var cr := entry.value;
      assert cr.repo.value == Seen(cs, old(EntryOf(did)), root);
      r := BuildTree(cr, did, writes, env.faulty);
      if r.Ok? && env.commitFails {
        r := Err(LibraryFailure);
      }
      CloseRepo(cr, if r.Err? then Some(r.error) else None);
    }

    /** Phases 2 to 5: announce, have the commit signed, check the signature, write the rows, move the root. */
    method Finalise(did: Did, snap: Snapshot, b: Building, env: Env) returns (r: Result<Committed, WriteError>)
      requires did in accounts
      modifies this`accounts, this`blocks
      ensures var (after, answer) := Finish(cs, old(accounts)[did], snap, b, env);
              r == answer && accounts == old(accounts)[did := after]
      ensures old(blocks) <= blocks
      ensures accounts[did].root == old(accounts)[did].root || accounts[did].root in blocks
    {
      ghost var before := accounts;
      assert before[did := before[did]] == before && before[did].events + [] == before[did].events;
      if b.ops == [] {
        return Ok(Committed(b.results, snap.root, snap.rev));
      }
      if env.signature.None? {
        return Err(SignerFailure);
      }
      var sig := env.signature.value;
      if snap.signingKey == [] || !cs.verifies(snap.signingKey, cs.unsigned(b.tree, env.rev), sig) {
        return Err(BadSignature);
      }
      if env.blocksFail {
        return Err(PersistFailure);
      }
      var root := cs.commitCid(b.tree, env.rev, sig);
      blocks := blocks + {root};
      var repoOps := RepoOps(b.ops);
      var index, written := WriteRows(accounts[did].index, b.entries, env);
      accounts := accounts[did := accounts[did].(index := index)];
      if !written {
        return Err(PersistFailure);
      }
      if !env.eventLost {
        var event := CommitEvent(root, env.rev, snap.rev, repoOps);
        accounts := accounts[did := accounts[did].(events := accounts[did].events + [event])];
      }
      if env.database.RootFailure? {
        return Err(PersistFailure);
      }
      accounts := accounts[did := accounts[did].(root := root, rev := env.rev)];
      return Ok(Committed(b.results, root, env.rev));
    }

    static method RepoOps(ops: seq<TreeOp>) returns (repoOps: seq<RepoOp>)
      ensures repoOps == AnnounceAll(ops)
    {
      repoOps := [];
      for i := 0 to |ops|
        invariant repoOps == AnnounceAll(ops[..i])
      {
        AnnounceAppend(ops[..i], ops[i]);
        assert ops[..i] + [ops[i]] == ops[..i + 1];
        var prev, value := ops[i].prev, ops[i].value;
        if prev.None? && value.Some? {
          repoOps := repoOps + [RepoOp(ops[i].path, Created(value.value))];
        } else if prev.Some? && value.Some? && prev != value {
          repoOps := repoOps + [RepoOp(ops[i].path, Updated(value.value))];
        } else if prev.Some? && value.None? {
          repoOps := repoOps + [RepoOp(ops[i].path, Deleted(prev.value))];
        }
      }
      assert ops[..|ops|] == ops;
    }

    /** Upserts and deletes of record rows, in the order of the batch, until the database fails. */
    static method WriteRows(rows: Index, entries: seq<Entry>, env: Env) returns (index: Index, written: bool)
      ensures index == ApplyEntries(rows, entries[..RowsWritten(env, entries)])
      ensures written <==> !env.database.RowFailure?
    {
      index := rows;
      for i := 0 to |entries|
        invariant env.database.RowFailure? ==> i <= env.database.written
        invariant index == ApplyEntries(rows, entries[..i])
      {
        if env.database.RowFailure? && env.database.written == i {
          return index, false;
        }
        var entry := entries[i];
        ApplyEntriesAppend(rows, entries[..i], entry);
        assert entries[..i] + [entry] == entries[..i + 1];
        if entry.cid.Some? {
          index := index[entry.at := Row(entry.cid.value, entry.value)];
        } else {
          index := index - {entry.at};
        }
      }
      written := !env.database.RowFailure?;
    }

    /**
     * applyWrites. Phase 1 mutates the cached tree in place; however the call ends, account and cache
     * entry are what the batch function says, and no other account is touched.
     */
    method ApplyWrites(did: Did, snap: Snapshot, writes: seq<Op>, env: Env) returns (r: Result<Committed, WriteError>)
      requires Valid() && did in accounts
      modifies this, cache.Values
      ensures Valid() && accounts.Keys == old(accounts).Keys
      ensures (State(did), r) == Batch(lib, cs, old(blocks), old(State(did)), snap, old(clock), writes, env)
      ensures forall d :: d in accounts && d != did ==> State(d) == old(State(d))
      ensures clock == old(clock) + old(DrawnBy(State(did), snap.root, clock, writes, env))
      ensures old(blocks) <= blocks
      ensures accounts[did].root == old(accounts)[did].root || accounts[did].root in blocks
    {
      var b := BuildUnsigned(did, snap.root, writes, env);
      if b.Err? {
        return Err(b.error);
      }
      r := Finalise(did, snap, b.value, env);
    }
  }

  lemma BuildGrows(lib: Library, ix: Index, t0: Tree, clock: nat, writes: seq<Op>, faulty: nat -> bool, i: nat,
                   b: Building, d: Building)
    requires i < |writes| && Build(lib, ix, t0, clock, writes, faulty, i) == Ok(b)
    requires WriteOne(lib, ix, b, writes[i], faulty(i)) == Ok(d)
    ensures Build(lib, ix, t0, clock, writes, faulty, i + 1) == Ok(d)
  {
  }

  lemma BuildFails(lib: Library, ix: Index, t0: Tree, clock: nat, writes: seq<Op>, faulty: nat -> bool, i: nat,
                   b: Building, error: WriteError)
    requires i < |writes| && Build(lib, ix, t0, clock, writes, faulty, i) == Ok(b)
    requires WriteOne(lib, ix, b, writes[i], faulty(i)) == Err(error)
    ensures Build(lib, ix, t0, clock, writes, faulty, |writes|) == Err(error)
    ensures Reached(lib, ix, t0, clock, writes, faulty, |writes|) == b
    ensures Attempted(lib, ix, t0, clock, writes, faulty, |writes|) == i + 1
  {
    hide WriteOne;
    BuildStaysFailed(lib, ix, t0, clock, writes, faulty, i + 1, |writes|);
    assert Reached(lib, ix, t0, clock, writes, faulty, i) == b;
  }

  lemma {:induction false} BuildStaysFailed(lib: Library, ix: Index, t0: Tree, clock: nat, writes: seq<Op>,
                                            faulty: nat -> bool, i: nat, n: nat)
    requires i <= n <= |writes| && Build(lib, ix, t0, clock, writes, faulty, i).Err?
    ensures Build(lib, ix, t0, clock, writes, faulty, n) == Build(lib, ix, t0, clock, writes, faulty, i)
    ensures Reached(lib, ix, t0, clock, writes, faulty, n) == Reached(lib, ix, t0, clock, writes, faulty, i)
    ensures Attempted(lib, ix, t0, clock, writes, faulty, n) == Attempted(lib, ix, t0, clock, writes, faulty, i)
    decreases n
  {
    hide WriteOne;
    if i < n {
      BuildStaysFailed(lib, ix, t0, clock, writes, faulty, i, n - 1);
    }
  }
}
