/**
 * applyWrites on one account over whole runs: what becomes of the account, of its cache entry and of
 * the events, and when tree, record index and firehose stay in step.
 */
module RepoRuns {
  import opened Basics
  import opened RepoWrites
  import opened RepoCache

  // ---- finishing a batch

  /** The #commit event of a batch. */
  datatype CommitEvent = CommitEvent(root: Cid, rev: string, since: string, ops: seq<RepoOp>)

  /** What the database and the firehose hold for one account. */
  datatype Account = Account(root: Cid, rev: string, index: Index, events: seq<CommitEvent>)

  /** The account row a request handler read before it called applyWrites. */
  datatype Snapshot = Snapshot(root: Cid, rev: string, signingKey: Key)

  /** Where the database fails while a signed batch is written, if it does. */
  datatype DbFailure =
    | NoDbFailure
    | RowFailure(written: nat)   // with this many rows written; also a failing update of blob counts
    | RootFailure                // with all rows written and the event sent, in UpdateRepo

  /** What the libraries, the signer, the network and the database decide. */
  datatype Env = Env(
    faulty: nat -> bool,
    commitFails: bool,
    rev: string,
    signature: Option<Signature>,
    blocksFail: bool,            // storing or reading blocks, after the signature and before the first row
    database: DbFailure,
    eventLost: bool)

  datatype Committed = Committed(results: seq<WriteResult>, root: Cid, rev: string)

  /** The signer's answer is a signature of the unsigned commit under the account's key. */
  predicate Accepted(cs: Commits, snap: Snapshot, b: Building, env: Env) {
    && env.signature.Some? && snap.signingKey != []
    && cs.verifies(snap.signingKey, cs.unsigned(b.tree, env.rev), env.signature.value)
  }

  /** How many rows get written. */
  function RowsWritten(env: Env, entries: seq<Entry>): (n: nat)
    ensures n <= |entries|
  {
    if env.database.RowFailure? && env.database.written < |entries| then env.database.written else |entries|
  }

  /** Phases 2 to 5 of applyWrites, on the product of phase 1. Rows and root move without a transaction. */
  function Finish(cs: Commits, a: Account, snap: Snapshot, b: Building, env: Env)
    : (Account, Result<Committed, WriteError>)
  {
    if b.ops == [] then (a, Ok(Committed(b.results, snap.root, snap.rev)))
    else if env.signature.None? then (a, Err(SignerFailure))
    else if !Accepted(cs, snap, b, env) then (a, Err(BadSignature))
    else if env.blocksFail then (a, Err(PersistFailure))
    else
      var root := cs.commitCid(b.tree, env.rev, env.signature.value);
      var said := if env.eventLost then [] else [CommitEvent(root, env.rev, snap.rev, AnnounceAll(b.ops))];
      var index := ApplyEntries(a.index, b.entries[..RowsWritten(env, b.entries)]);
      match env.database
      case RowFailure(_) => (a.(index := index), Err(PersistFailure))
      case RootFailure => (a.(index := index, events := a.events + said), Err(PersistFailure))
      case NoDbFailure => (Account(root, env.rev, index, a.events + said), Ok(Committed(b.results, root, env.rev)))
  }

  /** The account as stored and its cache entry. */
  datatype Repo = Repo(account: Account, cache: Cached)

  /** What phase 1 builds, on the tree that the cache hands out. */
  function Built(lib: Library, cs: Commits, s: Repo, root: Cid, clock: nat, writes: seq<Op>, env: Env)
    : Result<Building, WriteError>
  {
    Build(lib, s.account.index, Seen(cs, s.cache, root), clock, writes, env.faulty, |writes|)
  }

  /** What phase 1 had built when it ended, however it ended. */
  function Got(lib: Library, cs: Commits, s: Repo, root: Cid, clock: nat, writes: seq<Op>, env: Env): Building {
    Reached(lib, s.account.index, Seen(cs, s.cache, root), clock, writes, env.faulty, |writes|)
  }

  /** applyWrites; the answer Panicked stands for the panic. */
  function Batch(lib: Library, cs: Commits, blocks: set<Cid>, s: Repo, snap: Snapshot, clock: nat, writes: seq<Op>,
                 env: Env): (Repo, Result<Committed, WriteError>)
  {
    var b := Built(lib, cs, s, snap.root, clock, writes, env);
    if Open(cs, blocks, s.cache, Some(snap.root)).None? then (s, Err(RepoUnreadable))
    else if b == Err(Panicked) then
      var left := Got(lib, cs, s, snap.root, clock, writes, env).tree;
      (s.(cache := Close(Some(snap.root), left, Err(Panicked))), Err(Panicked))
    else if b.Err? then (s.(cache := EMPTY_ENTRY), Err(b.error))
    else if env.commitFails then (s.(cache := EMPTY_ENTRY), Err(LibraryFailure))
    else
      var (after, answer) := Finish(cs, s.account, snap, b.value, env);
      (Repo(after, Close(Some(snap.root), b.value.tree, Ok(None))), answer)
  }

  /** getRecordProof as far as the cache goes; `unreadable` says that a block of the proof cannot be read. */
  function ReadOne(cs: Commits, blocks: set<Cid>, c: Cached, root: Cid, path: Path, unreadable: bool)
    : (Cached, Result<Cid, WriteError>)
  {
    var entry := Open(cs, blocks, c, Some(root));
    if entry.None? then (c, Err(RepoUnreadable))
    else
      var tree := entry.value.repo.value;
      if path !in tree || unreadable then (Close(Some(root), tree, Err(LibraryFailure)), Err(LibraryFailure))
      else (Close(Some(root), tree, Ok(Some(root))), Ok(tree[path]))
  }

  // ---- runs

  /** A request that starts from the account row as it stands. */
  datatype Call =
    | Write(signingKey: Key, blocks: set<Cid>, clock: nat, writes: seq<Op>, env: Env)
    | Read(blocks: set<Cid>, path: Path, unreadable: bool)

  function Step(lib: Library, cs: Commits, s: Repo, call: Call): Repo {
    match call
    case Write(key, blocks, clock, writes, env) =>
      Batch(lib, cs, blocks, s, Snapshot(s.account.root, s.account.rev, key), clock, writes, env).0
    case Read(blocks, path, unreadable) =>
      s.(cache := ReadOne(cs, blocks, s.cache, s.account.root, path, unreadable).0)
  }

  function Run(lib: Library, cs: Commits, s: Repo, calls: seq<Call>): Repo
    decreases |calls|
  {
    if calls == [] then s
    else Step(lib, cs, Run(lib, cs, s, calls[..|calls| - 1]), calls[|calls| - 1])
  }

  // ---- the cache over a batch

  /** When the batch panics, the writes before had changed the tree at no path that they touched. */
  predicate PanicHarmless(lib: Library, cs: Commits, s: Repo, root: Cid, clock: nat, writes: seq<Op>, env: Env) {
    Built(lib, cs, s, root, clock, writes, env) == Err(Panicked) ==>
      Harmless(Seen(cs, s.cache, root), Got(lib, cs, s, root, clock, writes, env).entries)
  }

  lemma {:induction false} GotIsEntryTree(lib: Library, cs: Commits, s: Repo, root: Cid, clock: nat, writes: seq<Op>,
                                          env: Env)
    ensures var b := Got(lib, cs, s, root, clock, writes, env); EntryTree(Seen(cs, s.cache, root), b.entries) == b.tree
  {
    var t := Seen(cs, s.cache, root);
    var k := ReachedIsBuilt(lib, s.account.index, t, clock, writes, env.faulty, |writes|);
    BuildIsEntryTree(lib, s.account.index, t, clock, writes, env.faulty, k);
  }

  /**
   * After a batch on a coherent entry that can be opened, every later reader at a defined root sees its
   * own tree if and only if the batch did not panic on a missing record after changing the tree.
   */
  lemma {:induction false} BatchReadersSafeIff(lib: Library, cs: Commits, blocks: set<Cid>, s: Repo, snap: Snapshot,
                                               clock: nat, writes: seq<Op>, env: Env)
    requires Coherent(cs, s.cache) && Open(cs, blocks, s.cache, Some(snap.root)).Some?
    ensures ReadersSafe(cs, Batch(lib, cs, blocks, s, snap, clock, writes, env).0.cache)
            <==> PanicHarmless(lib, cs, s, snap.root, clock, writes, env)
  {
    var t, b := Seen(cs, s.cache, snap.root), Got(lib, cs, s, snap.root, clock, writes, env);
    GotIsEntryTree(lib, cs, s, snap.root, clock, writes, env);
    HarmlessIff(t, b.entries);
    ReadersSafeIffCoherent(cs, Batch(lib, cs, blocks, s, snap, clock, writes, env).0.cache);
  }

  /** A batch as a use of the cache. */
  function UseOf(lib: Library, cs: Commits, blocks: set<Cid>, s: Repo, snap: Snapshot, clock: nat, writes: seq<Op>,
                 env: Env): Use
  {
    var b := Built(lib, cs, s, snap.root, clock, writes, env);
    Use(Some(snap.root), blocks, Got(lib, cs, s, snap.root, clock, writes, env).tree,
        if b.Err? then Err(b.error) else if env.commitFails then Err(LibraryFailure) else Ok(None))
  }

  /** What a batch does to its cache entry is a use, disciplined if and only if a panic changes nothing. */
  lemma {:induction false} BatchIsUse(lib: Library, cs: Commits, blocks: set<Cid>, s: Repo, snap: Snapshot, clock: nat,
                                      writes: seq<Op>, env: Env)
    requires Open(cs, blocks, s.cache, Some(snap.root)).Some?
    ensures var u := UseOf(lib, cs, blocks, s, snap, clock, writes, env);
            && Batch(lib, cs, blocks, s, snap, clock, writes, env).0.cache == Close(u.root, u.left, u.outcome)
            && (Disciplined(u, Seen(cs, s.cache, snap.root))
                <==> PanicHarmless(lib, cs, s, snap.root, clock, writes, env))
  {
    GotIsEntryTree(lib, cs, s, snap.root, clock, writes, env);
    HarmlessIff(Seen(cs, s.cache, snap.root), Got(lib, cs, s, snap.root, clock, writes, env).entries);
  }

  lemma {:induction false} StepCoherent(lib: Library, cs: Commits, s: Repo, call: Call)
    requires Coherent(cs, s.cache)
    requires call.Write? ==> PanicHarmless(lib, cs, s, s.account.root, call.clock, call.writes, call.env)
    ensures Coherent(cs, Step(lib, cs, s, call).cache)
  {
    if call.Write? && Open(cs, call.blocks, s.cache, Some(s.account.root)).Some? {
      var snap := Snapshot(s.account.root, s.account.rev, call.signingKey);
      BatchReadersSafeIff(lib, cs, call.blocks, s, snap, call.clock, call.writes, call.env);
      ReadersSafeIffCoherent(cs, Step(lib, cs, s, call).cache);
    }
  }

  // ---- index and tree

  /** What is built becomes the tree at a new root. */
  predicate Moves(cs: Commits, snap: Snapshot, b: Building, env: Env) {
    b.ops != [] && Accepted(cs, snap, b, env) && !env.blocksFail && env.database.NoDbFailure?
  }

  /** The rows that a finished batch leaves behind although the root did not move to its commit. */
  function Stranded(cs: Commits, snap: Snapshot, b: Building, env: Env): seq<Entry> {
    if b.ops == [] || !Accepted(cs, snap, b, env) || env.blocksFail || env.database.NoDbFailure? then []
    else b.entries[..RowsWritten(env, b.entries)]
  }

  lemma FinishMoves(cs: Commits, a: Account, snap: Snapshot, b: Building, env: Env)
    requires ContentAddressed(cs) && Moves(cs, snap, b, env)
    ensures var z := Finish(cs, a, snap, b, env).0;
            cs.treeAt(z.root) == b.tree && z.rev == env.rev && z.index == ApplyEntries(a.index, b.entries)
  {
    assert b.entries[..|b.entries|] == b.entries;
  }

  lemma FinishStays(cs: Commits, a: Account, snap: Snapshot, b: Building, env: Env)
    requires !Moves(cs, snap, b, env)
    ensures var z := Finish(cs, a, snap, b, env).0;
            z.root == a.root && z.rev == a.rev && z.index == ApplyEntries(a.index, Stranded(cs, snap, b, env))
  {
  }

  /** A batch gets as far as finishing. */
  predicate Finishes(lib: Library, cs: Commits, blocks: set<Cid>, s: Repo, snap: Snapshot, clock: nat, writes: seq<Op>,
                     env: Env)
  {
    && Open(cs, blocks, s.cache, Some(snap.root)).Some? && !env.commitFails
    && Built(lib, cs, s, snap.root, clock, writes, env).Ok?
  }

  /**
   * When a batch starts from agreement at the stored root, whatever tree the cache hands it, index and
   * tree agree afterwards if and only if:
   * for a batch that commits, that tree differs from the stored one only at records the batch writes;
   * for one that gets to the rows and fails, the rows it leaves behind are what the stored tree has.
   */
  ghost predicate StaysInStep(lib: Library, cs: Commits, blocks: set<Cid>, s: Repo, snap: Snapshot, clock: nat,
                        writes: seq<Op>, env: Env)
  {
    Finishes(lib, cs, blocks, s, snap, clock, writes, env) ==>
      var b := Built(lib, cs, s, snap.root, clock, writes, env).value;
      var t := cs.treeAt(s.account.root);
      if Moves(cs, snap, b, env) then DifferOnlyIn(Seen(cs, s.cache, snap.root), t, b.entries)
      else Harmless(t, Stranded(cs, snap, b, env))
  }

  lemma {:induction false} BatchAgreesIff(lib: Library, cs: Commits, blocks: set<Cid>, s: Repo, snap: Snapshot,
                                          clock: nat, writes: seq<Op>, env: Env)
    requires ContentAddressed(cs) && snap.root == s.account.root
    requires Agree(lib, cs.treeAt(s.account.root), s.account.index)
    ensures var z := Batch(lib, cs, blocks, s, snap, clock, writes, env).0.account;
            Agree(lib, cs.treeAt(z.root), z.index) <==> StaysInStep(lib, cs, blocks, s, snap, clock, writes, env)
  {
    if Finishes(lib, cs, blocks, s, snap, clock, writes, env) {
      var b := Built(lib, cs, s, snap.root, clock, writes, env).value;
      var t, seen := cs.treeAt(s.account.root), Seen(cs, s.cache, snap.root);
      BuildEntriesOk(lib, s.account.index, seen, clock, writes, env.faulty, |writes|);
      if Moves(cs, snap, b, env) {
        FinishMoves(cs, s.account, snap, b, env);
        IndexAgreesIff(lib, s.account.index, seen, t, clock, writes, env.faulty);
      } else {
        FinishStays(cs, s.account, snap, b, env);
        var es := Stranded(cs, snap, b, env);
        assert forall e :: e in es ==> e in b.entries;
        StrandedRowsIff(lib, t, s.account.index, es);
      }
    }
  }

  /**
   * After a batch that stranded rows, the next batch that commits puts index and tree back in
   * agreement if and only if it writes every record at which the stranded rows differ from the tree.
   */
  lemma {:induction false} NextBatchHealsIff(lib: Library, t: Tree, ix: Index, stranded: seq<Entry>, clock: nat,
                                             writes: seq<Op>, faulty: nat -> bool)
    requires Agree(lib, t, ix) && forall e :: e in stranded ==> EntryOk(lib, e)
    requires Build(lib, ApplyEntries(ix, stranded), t, clock, writes, faulty, |writes|).Ok?
    ensures var now := ApplyEntries(ix, stranded);
            var b := Build(lib, now, t, clock, writes, faulty, |writes|).value;
            Agree(lib, b.tree, ApplyEntries(now, b.entries)) <==> DifferOnlyIn(t, EntryTree(t, stranded), b.entries)
  {
    EntriesAgree(lib, t, ix, stranded);
    IndexAgreesIff(lib, ApplyEntries(ix, stranded), t, EntryTree(t, stranded), clock, writes, faulty);
  }

  /** No panic of the run leaves a changed tree behind, and no database failure a differing row. */
  predicate Careful(lib: Library, cs: Commits, s: Repo, calls: seq<Call>)
    decreases |calls|
  {
    calls == [] ||
    var r, c := Run(lib, cs, s, calls[..|calls| - 1]), calls[|calls| - 1];
    Careful(lib, cs, s, calls[..|calls| - 1]) && CarefulCall(lib, cs, r, c)
  }

  predicate CarefulCall(lib: Library, cs: Commits, s: Repo, c: Call) {
    c.Write? ==>
      && PanicHarmless(lib, cs, s, s.account.root, c.clock, c.writes, c.env)
      && (var snap := Snapshot(s.account.root, s.account.rev, c.signingKey);
          Finishes(lib, cs, c.blocks, s, snap, c.clock, c.writes, c.env) ==>
            Harmless(cs.treeAt(s.account.root),
                     Stranded(cs, snap, Built(lib, cs, s, snap.root, c.clock, c.writes, c.env).value, c.env)))
  }

  /** Two checks that need no state: every create and update has its record, and the database does not fail. */
  predicate Plain(c: Call) {
    c.Write? ==> (forall op :: op in c.writes ==> !Recordless(op)) && c.env.database.NoDbFailure?
  }

  lemma {:induction false} PlainIsCareful(lib: Library, cs: Commits, s: Repo, calls: seq<Call>)
    requires forall c :: c in calls ==> Plain(c)
    ensures Careful(lib, cs, s, calls)
    decreases |calls|
  {
    if calls != [] {
      PlainIsCareful(lib, cs, s, calls[..|calls| - 1]);
      var r, c := Run(lib, cs, s, calls[..|calls| - 1]), calls[|calls| - 1];
      assert c in calls;
      if c.Write? {
        RecordsPreventPanic(lib, r.account.index, Seen(cs, r.cache, r.account.root), c.clock, c.writes, c.env.faulty,
                            |c.writes|);
      }
    }
  }

  /**
   * After any reads and batches that do not overlap, accepted, rejected or failed in any of the ways
   * modelled, the record table is exactly the tree at the stored root and every reader sees its own
   * tree, as long as the run is careful.
   */
  lemma {:induction false} IndexAlwaysAgrees(lib: Library, cs: Commits, s: Repo, calls: seq<Call>)
    requires ContentAddressed(cs) && Agree(lib, cs.treeAt(s.account.root), s.account.index) && Coherent(cs, s.cache)
    requires Careful(lib, cs, s, calls)
    ensures var z := Run(lib, cs, s, calls);
            Agree(lib, cs.treeAt(z.account.root), z.account.index) && Coherent(cs, z.cache)
    decreases |calls|
  {
    if calls != [] {
      IndexAlwaysAgrees(lib, cs, s, calls[..|calls| - 1]);
      StepAgrees(lib, cs, Run(lib, cs, s, calls[..|calls| - 1]), calls[|calls| - 1]);
    }
  }

  lemma {:induction false} StepAgrees(lib: Library, cs: Commits, s: Repo, c: Call)
    requires ContentAddressed(cs) && Agree(lib, cs.treeAt(s.account.root), s.account.index) && Coherent(cs, s.cache)
    requires CarefulCall(lib, cs, s, c)
    ensures var z := Step(lib, cs, s, c);
            Agree(lib, cs.treeAt(z.account.root), z.account.index) && Coherent(cs, z.cache)
  {
    StepCoherent(lib, cs, s, c);
    if c.Write? {
      var snap := Snapshot(s.account.root, s.account.rev, c.signingKey);
      BatchAgreesIff(lib, cs, c.blocks, s, snap, c.clock, c.writes, c.env);
    }
  }

  // ---- the firehose

  function ReplayEvents(t: Tree, events: seq<CommitEvent>): Option<Tree>
    decreases |events|
  {
    if events == [] then Some(t)
    else
      var u := ReplayEvents(t, events[..|events| - 1]);
      if u.None? then None else Replay(u.value, events[|events| - 1].ops)
  }

  /** Each event names its predecessor's revision, the first one the revision `since`. */
  predicate Chained(since: string, events: seq<CommitEvent>) {
    forall i :: 0 <= i < |events| ==> events[i].since == RevBefore(since, events, i)
  }

  function RevBefore(since: string, events: seq<CommitEvent>, i: nat): string
    requires i < |events|
  {
    if i == 0 then since else events[i - 1].rev
  }

  /** Finishing sends one event, of what was built, or none; without a database failure the root moves with it. */
  lemma FinishAnnounces(cs: Commits, a: Account, snap: Snapshot, b: Building, env: Env)
    requires ContentAddressed(cs) && !env.eventLost
    ensures var z := Finish(cs, a, snap, b, env).0;
            || (z.root == a.root && z.rev == a.rev && z.events == a.events)
            || (|z.events| == |a.events| + 1 && z.events == a.events + [z.events[|a.events|]] &&
                Announces(cs, a, snap, b, env, z, z.events[|a.events|]))
  {
  }

  predicate Announces(cs: Commits, a: Account, snap: Snapshot, b: Building, env: Env, z: Account, e: CommitEvent) {
    && e.rev == env.rev && e.since == snap.rev && e.ops == AnnounceAll(b.ops) && cs.treeAt(e.root) == b.tree
    && (if env.database.RootFailure? then z.root == a.root && z.rev == a.rev else z.root == e.root && z.rev == e.rev)
  }

  /**
   * The one event of a batch leads from the tree that the cache handed out to the tree the batch built,
   * which is the tree at the new root.
   */
  lemma {:induction false} BatchAnnounces(lib: Library, cs: Commits, blocks: set<Cid>, s: Repo, snap: Snapshot,
                                          clock: nat, writes: seq<Op>, env: Env)
    requires ContentAddressed(cs) && !env.eventLost
    ensures var z := Batch(lib, cs, blocks, s, snap, clock, writes, env).0.account;
            Announced(cs, Seen(cs, s.cache, snap.root), s.account, snap, env, z)
  {
    if Finishes(lib, cs, blocks, s, snap, clock, writes, env) {
      var b := Built(lib, cs, s, snap.root, clock, writes, env).value;
      FinishAnnounces(cs, s.account, snap, b, env);
      FirehoseReplays(lib, s.account.index, Seen(cs, s.cache, snap.root), clock, writes, env.faulty, |writes|);
    }
  }

  predicate LeadsFrom(cs: Commits, t: Tree, a: Account, snap: Snapshot, env: Env, z: Account, e: CommitEvent) {
    && e.rev == env.rev && e.since == snap.rev && Replay(t, e.ops) == Some(cs.treeAt(e.root))
    && (if env.database.RootFailure? then z.root == a.root && z.rev == a.rev else z.root == e.root && z.rev == e.rev)
  }

  /**
   * A subscriber that has the stored tree follows the event of a batch if and only if, wherever the tree
   * the cache handed out differs from the stored one, the event begins with an update to a third value.
   */
  lemma {:induction false} SubscriberFollowsIff(lib: Library, cs: Commits, blocks: set<Cid>, s: Repo, snap: Snapshot,
                                                clock: nat, writes: seq<Op>, env: Env)
    requires ContentAddressed(cs) && !env.eventLost
    requires Batch(lib, cs, blocks, s, snap, clock, writes, env).0.account.events != s.account.events
    ensures var z, t := Batch(lib, cs, blocks, s, snap, clock, writes, env).0.account, cs.treeAt(snap.root);
            && |z.events| == |s.account.events| + 1
            && (var e := z.events[|s.account.events|];
                Replay(t, e.ops) == Some(cs.treeAt(e.root)) <==>
                forall p :: SameAt(t, Seen(cs, s.cache, snap.root), p) || Overwrites(t, e.ops, p))
  {
    BatchAnnounces(lib, cs, blocks, s, snap, clock, writes, env);
    var z := Batch(lib, cs, blocks, s, snap, clock, writes, env).0.account;
    var e := z.events[|s.account.events|];
    ReplayElsewhereIff(Seen(cs, s.cache, snap.root), cs.treeAt(snap.root), e.ops, cs.treeAt(e.root));
  }

  /** Following the events from tree `t` at revision `rev` leads to the account's tree and revision. */
  predicate Follows(cs: Commits, t: Tree, root: Cid, rev: string, z: Account) {
    && ReplayEvents(t, z.events) == Some(cs.treeAt(z.root))
    && Chained(rev, z.events)
    && (if z.events == [] then z.root == root && z.rev == rev
        else z.root == z.events[|z.events| - 1].root && z.rev == z.events[|z.events| - 1].rev)
  }

  lemma FollowsOneMore(cs: Commits, t: Tree, root: Cid, rev: string, b: Account, z: Account, e: CommitEvent)
    requires Follows(cs, t, root, rev, b) && z.events == b.events + [e]
    requires e.root == z.root && e.rev == z.rev && e.since == b.rev
    requires Replay(cs.treeAt(b.root), e.ops) == Some(cs.treeAt(z.root))
    ensures Follows(cs, t, root, rev, z)
  {
    hide Replay;
    assert z.events[..|z.events| - 1] == b.events;
    forall i | 0 <= i < |z.events|
      ensures z.events[i].since == RevBefore(rev, z.events, i)
    {
      if i < |b.events| {
        assert b.events[i].since == RevBefore(rev, b.events, i);
      }
    }
  }

  /** Panics of the run leave the tree as it was. */
  predicate PanicsHarmless(lib: Library, cs: Commits, s: Repo, calls: seq<Call>)
    decreases |calls|
  {
    calls == [] ||
    var r, c := Run(lib, cs, s, calls[..|calls| - 1]), calls[|calls| - 1];
    && PanicsHarmless(lib, cs, s, calls[..|calls| - 1])
    && (c.Write? ==> PanicHarmless(lib, cs, r, r.account.root, c.clock, c.writes, c.env))
  }

  /**
   * A subscriber that follows the firehose from an account's tree ends with the tree at the root the
   * last event names, through an unbroken chain of revisions, as long as no event was lost, none was
   * sent for a commit whose root could not be stored, and no panic left a changed tree behind.
   */
  lemma {:induction false} FirehoseFollowsRoot(lib: Library, cs: Commits, s: Repo, calls: seq<Call>)
    requires ContentAddressed(cs) && s.account.events == [] && Coherent(cs, s.cache)
    requires forall c :: c in calls && c.Write? ==> !c.env.eventLost && !c.env.database.RootFailure?
    requires PanicsHarmless(lib, cs, s, calls)
    ensures var z := Run(lib, cs, s, calls);
            Follows(cs, cs.treeAt(s.account.root), s.account.root, s.account.rev, z.account) && Coherent(cs, z.cache)
    decreases |calls|
  {
    if calls != [] {
      var front, c := calls[..|calls| - 1], calls[|calls| - 1];
      assert c in calls && forall x :: x in front ==> x in calls;
      FirehoseFollowsRoot(lib, cs, s, front);
      var r := Run(lib, cs, s, front);
      StepCoherent(lib, cs, r, c);
      if c.Write? {
        FollowsBatch(lib, cs, cs.treeAt(s.account.root), s.account.root, s.account.rev, r, c);
      }
    }
  }

  /** What a batch does to an account and its events, for a batch on the tree `seen`. */
  predicate Announced(cs: Commits, seen: Tree, a: Account, snap: Snapshot, env: Env, z: Account) {
    || (z.root == a.root && z.rev == a.rev && z.events == a.events)
    || (|z.events| == |a.events| + 1 && z.events == a.events + [z.events[|a.events|]] &&
        LeadsFrom(cs, seen, a, snap, env, z, z.events[|a.events|]))
  }

  lemma FollowsAnnounced(cs: Commits, t: Tree, root: Cid, rev: string, a: Account, snap: Snapshot, env: Env, z: Account)
    requires Follows(cs, t, root, rev, a) && Announced(cs, cs.treeAt(a.root), a, snap, env, z)
    requires snap.rev == a.rev && !env.database.RootFailure?
    ensures Follows(cs, t, root, rev, z)
  {
    if z.events != a.events {
      FollowsOneMore(cs, t, root, rev, a, z, z.events[|a.events|]);
    }
  }

  lemma {:induction false} FollowsBatch(lib: Library, cs: Commits, t: Tree, root: Cid, rev: string, s: Repo, c: Call)
    requires ContentAddressed(cs) && c.Write? && !c.env.eventLost && !c.env.database.RootFailure?
    requires Follows(cs, t, root, rev, s.account) && Coherent(cs, s.cache)
    ensures Follows(cs, t, root, rev, Step(lib, cs, s, c).account)
  {
    hide Batch;
    var snap := Snapshot(s.account.root, s.account.rev, c.signingKey);
    BatchAnnounces(lib, cs, c.blocks, s, snap, c.clock, c.writes, c.env);
    FollowsAnnounced(cs, t, root, rev, s.account, snap, c.env, Step(lib, cs, s, c).account);
  }

  /**
   * When the root cannot be stored after the event was sent, the subscriber still has the stored tree if
   * and only if the batch changed the tree at no path that it touched.
   */
  lemma {:induction false} RootFailureMisleads(lib: Library, cs: Commits, blocks: set<Cid>, s: Repo, snap: Snapshot,
                                               clock: nat, writes: seq<Op>, env: Env)
    requires ContentAddressed(cs) && Coherent(cs, s.cache) && !env.eventLost && env.database.RootFailure?
    requires snap.root == s.account.root
    requires Batch(lib, cs, blocks, s, snap, clock, writes, env).0.account.events != s.account.events
    ensures var t, z := cs.treeAt(s.account.root), Batch(lib, cs, blocks, s, snap, clock, writes, env).0.account;
            && z.root == s.account.root && |z.events| == |s.account.events| + 1
            && Built(lib, cs, s, snap.root, clock, writes, env).Ok?
            && (Replay(t, z.events[|s.account.events|].ops) == Some(cs.treeAt(z.root))
                <==> Harmless(t, Built(lib, cs, s, snap.root, clock, writes, env).value.entries))
  {
    var t, b := cs.treeAt(s.account.root), Built(lib, cs, s, snap.root, clock, writes, env).value;
    BatchAnnounces(lib, cs, blocks, s, snap, clock, writes, env);
    FinishAnnounces(cs, s.account, snap, b, env);
    FirehoseReplays(lib, s.account.index, t, clock, writes, env.faulty, |writes|);
    BuildIsEntryTree(lib, s.account.index, t, clock, writes, env.faulty, |writes|);
    HarmlessIff(t, b.entries);
  }

  // ---- a write without its record

  /** Creates of "c"/1 and "c"/2, the second without a record. */
  const RECORDLESS: seq<Op> := [Op(Create, "c", Some("1"), Some([])), Op(Create, "c", Some("2"), None)]

  /** An account with nothing in it, and nothing cached. */
  function Blank(root: Cid, rev: string): Repo {
    Repo(Account(root, rev, map[], []), EMPTY_ENTRY)
  }

  lemma RecordlessPanics(lib: Library)
    ensures Build(lib, map[], map[], 0, RECORDLESS, NO_FAULT, 2) == Err(Panicked)
    ensures Reached(lib, map[], map[], 0, RECORDLESS, NO_FAULT, 2).tree
         == map["c/1" := lib.hash(lib.encode(Create, "c", []))]
  {
    var start := Building(map[], 0, [], [], []);
    assert PathOf(Coord("c", "1")) == "c/1";
    assert Build(lib, map[], map[], 0, RECORDLESS, NO_FAULT, 0) == Ok(start);
    var one := WriteOne(lib, map[], start, RECORDLESS[0], false);
    assert Build(lib, map[], map[], 0, RECORDLESS, NO_FAULT, 1) == one && one.Ok?;
    assert WriteOne(lib, map[], one.value, RECORDLESS[1], false) == Err(Panicked);
    assert Build(lib, map[], map[], 0, RECORDLESS, NO_FAULT, 2) == Err(Panicked);
    assert Reached(lib, map[], map[], 0, RECORDLESS, NO_FAULT, 1) == one.value;
  }

  /** After the panic the account is as before, and the cache hands out a tree that is stored nowhere. */
  lemma {:induction false} PanicLeavesTree(lib: Library, cs: Commits, root: Cid, rev: string, key: Key, env: Env)
    requires cs.treeAt(root) == map[] && env.faulty == NO_FAULT
    ensures var r := Batch(lib, cs, {root}, Blank(root, rev), Snapshot(root, rev, key), 0, RECORDLESS, env);
            && r.1 == Err(Panicked) && r.0.account == Blank(root, rev).account
            && Seen(cs, r.0.cache, root) == map["c/1" := lib.hash(lib.encode(Create, "c", []))]
            && !ReadersSafe(cs, r.0.cache)
  {
    RecordlessPanics(lib);
    var r := Batch(lib, cs, {root}, Blank(root, rev), Snapshot(root, rev, key), 0, RECORDLESS, env).0;
    assert "c/1" in Seen(cs, r.cache, root);
    ReadersSafeIffCoherent(cs, r.cache);
  }

  /** The create of "c"/2 on the tree that the panic left. */
  lemma CreateOnLeftover(lib: Library, x: Cid)
    ensures var b := Build(lib, map[], map["c/1" := x], 0, CreateOf("2"), NO_FAULT, 1);
            b.Ok? && Touched(b.value.entries) == {Coord("c", "2")} && b.value.ops != []
  {
    var t: Tree := map["c/1" := x];
    var writes, start := CreateOf("2"), Building(t, 0, [], [], []);
    assert Build(lib, map[], t, 0, writes, NO_FAULT, 0) == Ok(start);
    assert Build(lib, map[], t, 0, writes, NO_FAULT, 1) == WriteOne(lib, map[], start, writes[0], false);
  }

  /**
   * The next create commits the leftover along with itself: the record "c"/1 is in the tree and has no
   * row, and a subscriber that has the stored tree does not arrive at the new one.
   */
  lemma {:induction false} RecordlessWriteBreaks(lib: Library, cs: Commits, root: Cid, rev: string, key: Key,
                                                 first: Env, second: Env)
    requires ContentAddressed(cs) && cs.treeAt(root) == map[]
    requires first.faulty == NO_FAULT && second.faulty == NO_FAULT && !second.commitFails && !second.eventLost
    requires !second.blocksFail && second.database.NoDbFailure?
    requires var leftover := map["c/1" := lib.hash(lib.encode(Create, "c", []))];
             var b := Build(lib, map[], leftover, 0, CreateOf("2"), NO_FAULT, 1);
             b.Ok? && Accepted(cs, Snapshot(root, rev, key), b.value, second)
    ensures var snap := Snapshot(root, rev, key);
            var s := Batch(lib, cs, {root}, Blank(root, rev), snap, 0, RECORDLESS, first).0;
            var r := Batch(lib, cs, {root}, s, snap, 0, CreateOf("2"), second);
            var z := r.0.account;
            && r.1.Ok? && |z.events| == 1
            && !Agree(lib, cs.treeAt(z.root), z.index)
            && Replay(cs.treeAt(root), z.events[0].ops) != Some(cs.treeAt(z.events[0].root))
  {
    var snap := Snapshot(root, rev, key);
    PanicLeavesTree(lib, cs, root, rev, key, first);
    var s := Batch(lib, cs, {root}, Blank(root, rev), snap, 0, RECORDLESS, first).0;
    var seen := Seen(cs, s.cache, root);
    CreateOnLeftover(lib, seen["c/1"]);
    EmptyAgrees(lib);
    BatchAgreesIff(lib, cs, {root}, s, snap, 0, CreateOf("2"), second);
    assert PathOf(Coord("c", "2")) == "c/2" && "c/1"[2] != "c/2"[2];
    assert !SameAt(seen, map[], "c/1");
    assert !StaysInStep(lib, cs, {root}, s, snap, 0, CreateOf("2"), second);
    var z := Batch(lib, cs, {root}, s, snap, 0, CreateOf("2"), second).0.account;
    SubscriberFollowsIff(lib, cs, {root}, s, snap, 0, CreateOf("2"), second);
    assert !SameAt(map[], seen, "c/1") && !Overwrites(map[], z.events[0].ops, "c/1");
  }

  // ---- signatures

  /**
   * The account changes only for a commit whose signature verifies under its signing key, and its root
   * only to that commit. An error never moves the root; short of a database failure it changes nothing
   * but the cache.
   */
  lemma RootNeedsSignature(lib: Library, cs: Commits, blocks: set<Cid>, s: Repo, snap: Snapshot, clock: nat,
                           writes: seq<Op>, env: Env)
    ensures var a, r := s.account, Batch(lib, cs, blocks, s, snap, clock, writes, env);
            var z := r.0.account;
            && (r.1.Err? ==> z.root == a.root && z.rev == a.rev)
            && (r.1.Err? && env.database.NoDbFailure? ==> z == a)
            && (z != a ==> exists t, sig, root :: SignedCommit(cs, snap.signingKey, t, env.rev, sig, root) &&
                                                  (z.root == a.root || z.root == root))
  {
    var z := Batch(lib, cs, blocks, s, snap, clock, writes, env).0.account;
    if z != s.account {
      var b := Built(lib, cs, s, snap.root, clock, writes, env).value;
      var sig := env.signature.value;
      assert SignedCommit(cs, snap.signingKey, b.tree, env.rev, sig, cs.commitCid(b.tree, env.rev, sig));
    }
  }

  predicate SignedCommit(cs: Commits, key: Key, t: Tree, rev: string, sig: Signature, root: Cid) {
    root == cs.commitCid(t, rev, sig) && cs.verifies(key, cs.unsigned(t, rev), sig)
  }
}
