/**
 * What applyWrites and getRecordProof answer: when a batch succeeds and what it then commits, what each
 * error means and leaves behind, and what readers are told afterwards.
 */
module RepoAnswers {
  import opened Basics
  import opened RepoWrites
  import opened RepoCache
  import opened RepoRuns
  import opened RepoContents

  /** The client's signature of the unsigned commit verifies under the account's key. */
  predicate Signs(cs: Commits, snap: Snapshot, t: Tree, env: Env) {
    && env.signature.Some? && snap.signingKey != []
    && cs.verifies(snap.signingKey, cs.unsigned(t, env.rev), env.signature.value)
  }

  /** The batch can be built on the tree that the cache hands out, and it changes something. */
  ghost predicate AsksSigner(lib: Library, cs: Commits, blocks: set<Cid>, s: Repo, snap: Snapshot, clock: nat,
                             writes: seq<Op>, env: Env)
  {
    var seen := Seen(cs, s.cache, snap.root);
    && Open(cs, blocks, s.cache, Some(snap.root)).Some? && !env.commitFails
    && AllAdmissible(lib, s.account.index, seen, clock, writes, env.faulty, |writes|)
    && !AllIdle(lib, seen, clock, writes, |writes|)
  }

  lemma {:induction false} FinishesIff(lib: Library, cs: Commits, blocks: set<Cid>, s: Repo, snap: Snapshot, clock: nat,
                                       writes: seq<Op>, env: Env)
    ensures var seen, b := Seen(cs, s.cache, snap.root), Got(lib, cs, s, snap.root, clock, writes, env);
            && (Finishes(lib, cs, blocks, s, snap, clock, writes, env) <==>
                && Open(cs, blocks, s.cache, Some(snap.root)).Some? && !env.commitFails
                && AllAdmissible(lib, s.account.index, seen, clock, writes, env.faulty, |writes|))
            && (Finishes(lib, cs, blocks, s, snap, clock, writes, env) ==>
                && Built(lib, cs, s, snap.root, clock, writes, env) == Ok(b)
                && (b.ops == [] <==> AllIdle(lib, seen, clock, writes, |writes|)))
  {
    hide WriteOne;
    var seen := Seen(cs, s.cache, snap.root);
    BuildsIff(lib, s.account.index, seen, clock, writes, env.faulty, |writes|);
    if Built(lib, cs, s, snap.root, clock, writes, env).Ok? {
      NothingDoneIff(lib, s.account.index, seen, clock, writes, env.faulty, |writes|);
    }
  }

  /**
   * A batch succeeds if and only if the account can be opened, each write can be done, and, unless all of
   * them leave things as they are, the signer's signature verifies and nothing fails to be stored.
   */
  lemma {:induction false} BatchSucceedsIff(lib: Library, cs: Commits, blocks: set<Cid>, s: Repo, snap: Snapshot,
                                            clock: nat, writes: seq<Op>, env: Env)
    ensures var seen, t := Seen(cs, s.cache, snap.root), Got(lib, cs, s, snap.root, clock, writes, env).tree;
            Batch(lib, cs, blocks, s, snap, clock, writes, env).1.Ok? <==>
              && Open(cs, blocks, s.cache, Some(snap.root)).Some? && !env.commitFails
              && AllAdmissible(lib, s.account.index, seen, clock, writes, env.faulty, |writes|)
              && (|| AllIdle(lib, seen, clock, writes, |writes|)
                  || (Signs(cs, snap, t, env) && !env.blocksFail && env.database.NoDbFailure?))
  {
    hide WriteOne, Build;
    FinishesIff(lib, cs, blocks, s, snap, clock, writes, env);
  }

  /** The account `z` is `a` with the batch committed. */
  predicate HasCommitted(cs: Commits, a: Account, snap: Snapshot, b: Building, env: Env, z: Account) {
    && env.signature.Some? && z.root == cs.commitCid(b.tree, env.rev, env.signature.value) && z.rev == env.rev
    && z.index == ApplyEntries(a.index, b.entries)
    && z.events == a.events +
                   if env.eventLost then [] else [CommitEvent(z.root, z.rev, snap.rev, AnnounceAll(b.ops))]
  }

  /**
   * A successful batch tells the client, in order, what each write left, and the root and revision that
   * the account now has: those of the new commit, or the old ones if there was nothing to do.
   */
  lemma {:induction false} SuccessTells(lib: Library, cs: Commits, blocks: set<Cid>, s: Repo, snap: Snapshot,
                                        clock: nat, writes: seq<Op>, env: Env)
    requires Batch(lib, cs, blocks, s, snap, clock, writes, env).1.Ok?
    ensures var r, seen := Batch(lib, cs, blocks, s, snap, clock, writes, env), Seen(cs, s.cache, snap.root);
            var told, z, b := r.1.value, r.0.account, Got(lib, cs, s, snap.root, clock, writes, env);
            && ResultsTell(lib, s.account.index, seen, clock, writes, env.faulty, |writes|, told.results)
            && (if AllIdle(lib, seen, clock, writes, |writes|)
                then z == s.account && told.root == snap.root && told.rev == snap.rev
                else HasCommitted(cs, s.account, snap, b, env, z) && told.root == z.root && told.rev == z.rev)
            && (snap.root == s.account.root && snap.rev == s.account.rev ==> told.root == z.root && told.rev == z.rev)
  {
    hide WriteOne, Build;
    FinishesIff(lib, cs, blocks, s, snap, clock, writes, env);
    var seen, b := Seen(cs, s.cache, snap.root), Got(lib, cs, s, snap.root, clock, writes, env);
    ResultsInOrder(lib, s.account.index, seen, clock, writes, env.faulty, |writes|);
    assert b.entries[..|b.entries|] == b.entries;
  }

  /** Each error of a batch says how far it got. */
  lemma {:induction false} ErrorTells(lib: Library, cs: Commits, blocks: set<Cid>, s: Repo, snap: Snapshot, clock: nat,
                                      writes: seq<Op>, env: Env)
    ensures var answer, t := Batch(lib, cs, blocks, s, snap, clock, writes, env).1,
                             Got(lib, cs, s, snap.root, clock, writes, env).tree;
            var opens := Open(cs, blocks, s.cache, Some(snap.root)).Some?;
            var built := Built(lib, cs, s, snap.root, clock, writes, env);
            var asks := AsksSigner(lib, cs, blocks, s, snap, clock, writes, env);
            && (answer == Err(RepoUnreadable) <==> !opens)
            && (!opens ==> Batch(lib, cs, blocks, s, snap, clock, writes, env).0 == s)
            && (answer == Err(InvalidRecordKey) <==> opens && built == Err(InvalidRecordKey))
            && (answer == Err(Panicked) <==> opens && built == Err(Panicked))
            && (answer == Err(LibraryFailure) <==>
                opens && (built == Err(LibraryFailure) || (built.Ok? && env.commitFails)))
            && (answer == Err(SignerFailure) <==> asks && env.signature.None?)
            && (answer == Err(BadSignature) <==> asks && env.signature.Some? && !Signs(cs, snap, t, env))
            && (answer == Err(PersistFailure) <==>
                asks && Signs(cs, snap, t, env) && (env.blocksFail || !env.database.NoDbFailure?))
  {
    hide WriteOne;
    FinishesIff(lib, cs, blocks, s, snap, clock, writes, env);
  }

  // ---- what a failing database leaves

  /** Entry `i` is the last of the first `n` about record `c`. */
  predicate LastEntry(es: seq<Entry>, n: nat, c: Coord, i: nat)
    requires n <= |es|
  {
    i < n && es[i].at == c && forall j :: i < j < n ==> es[j].at != c
  }

  predicate Untouched(es: seq<Entry>, n: nat, c: Coord)
    requires n <= |es|
  {
    forall j :: 0 <= j < n ==> es[j].at != c
  }

  predicate SameRow(ix: Index, jx: Index, c: Coord) {
    (c in ix <==> c in jx) && (c in ix ==> ix[c] == jx[c])
  }

  predicate HasRow(ix: Index, e: Entry) {
    if e.cid.Some? then e.at in ix && ix[e.at] == Row(e.cid.value, e.value) else e.at !in ix
  }

  /** The first `n` rows of a batch have been written to the table `ix`, in order, and no others. */
  ghost predicate FirstRows(ix: Index, es: seq<Entry>, n: nat, after: Index)
    requires n <= |es|
  {
    && (forall c: Coord, i: nat {:trigger LastEntry(es, n, c, i)} :: LastEntry(es, n, c, i) ==> HasRow(after, es[i]))
    && (forall c {:trigger Untouched(es, n, c)} :: Untouched(es, n, c) ==> SameRow(after, ix, c))
  }

  lemma {:induction false} FirstRowsWritten(ix: Index, es: seq<Entry>, n: nat)
    requires n <= |es|
    ensures FirstRows(ix, es, n, ApplyEntries(ix, es[..n]))
    decreases n
  {
    if n > 0 {
      FirstRowsWritten(ix, es, n - 1);
      assert es[..n] == es[..n - 1] + [es[n - 1]];
      ApplyEntriesAppend(ix, es[..n - 1], es[n - 1]);
      var before, after := ApplyEntries(ix, es[..n - 1]), ApplyEntries(ix, es[..n]);
      forall c: Coord, i: nat | LastEntry(es, n, c, i) ensures HasRow(after, es[i]) {
        if i < n - 1 { assert LastEntry(es, n - 1, c, i); }
      }
      forall c | Untouched(es, n, c) ensures SameRow(after, ix, c) {
        assert Untouched(es, n - 1, c);
      }
    }
  }

  /**
   * Nothing is rolled back: a database that fails at a row leaves the rows before it written, and one
   * that cannot store the root leaves all rows written and the event sent. The root stays.
   */
  lemma {:induction false} FailureLeaves(lib: Library, cs: Commits, blocks: set<Cid>, s: Repo, snap: Snapshot,
                                         clock: nat, writes: seq<Op>, env: Env)
    requires AsksSigner(lib, cs, blocks, s, snap, clock, writes, env) && !env.blocksFail
    requires Signs(cs, snap, Got(lib, cs, s, snap.root, clock, writes, env).tree, env)
    requires !env.database.NoDbFailure?
    ensures var z, b := Batch(lib, cs, blocks, s, snap, clock, writes, env).0.account,
                        Got(lib, cs, s, snap.root, clock, writes, env);
            var root, all := cs.commitCid(b.tree, env.rev, env.signature.value), |b.entries|;
            var event := CommitEvent(root, env.rev, snap.rev, AnnounceAll(b.ops));
            && z.root == s.account.root && z.rev == s.account.rev
            && (match env.database
                case RowFailure(k) =>
                  && z.events == s.account.events
                  && FirstRows(s.account.index, b.entries, if k < all then k else all, z.index)
                case RootFailure =>
                  && FirstRows(s.account.index, b.entries, all, z.index)
                  && z.events == s.account.events + if env.eventLost then [] else [event]
                case NoDbFailure => true)
  {
    hide WriteOne;
    FinishesIff(lib, cs, blocks, s, snap, clock, writes, env);
    var b := Got(lib, cs, s, snap.root, clock, writes, env);
    FirstRowsWritten(s.account.index, b.entries, RowsWritten(env, b.entries));
  }

  /** A lost event costs the event and nothing else. */
  lemma {:induction false} LostEventAlone(lib: Library, cs: Commits, blocks: set<Cid>, s: Repo, snap: Snapshot,
                                          clock: nat, writes: seq<Op>, env: Env)
    ensures var lost := Batch(lib, cs, blocks, s, snap, clock, writes, env.(eventLost := true));
            var sent := Batch(lib, cs, blocks, s, snap, clock, writes, env.(eventLost := false));
            && lost.1 == sent.1 && lost.0.cache == sent.0.cache
            && lost.0.account == sent.0.account.(events := s.account.events)
  {
    hide WriteOne, Build, Reached;
  }

  // ---- readers

  /**
   * After a proof was read, later uses at its root need not read the commit; after a read that failed, or
   * a batch, they must.
   */
  lemma {:induction false} WhoReloads(lib: Library, cs: Commits, blocks: set<Cid>, s: Repo, snap: Snapshot, clock: nat,
                                      writes: seq<Op>, env: Env, root: Cid, path: Path, unreadable: bool,
                                      later: set<Cid>)
    ensures ReadOne(cs, blocks, s.cache, root, path, unreadable).1.Ok? ==>
              Open(cs, later, ReadOne(cs, blocks, s.cache, root, path, unreadable).0, Some(root)).Some?
    ensures var r := ReadOne(cs, blocks, s.cache, root, path, unreadable);
            && (r.1 == Err(LibraryFailure) ==> (Open(cs, later, r.0, Some(root)).Some? <==> root in later))
            && (r.1 == Err(RepoUnreadable) ==> r.0 == s.cache)
    ensures var r := Batch(lib, cs, blocks, s, snap, clock, writes, env);
            r.1 != Err(RepoUnreadable) && r.1 != Err(Panicked) ==>
              (Open(cs, later, r.0.cache, Some(root)).Some? <==> root in later)
  {
    hide WriteOne, Build, Reached;
  }

  /**
   * Readers are told what the record table says: after a careful run, a read at the stored root that can
   * be opened and whose blocks can be read answers the CID of the record's row, or an error if it has none.
   */
  lemma {:induction false} ReadTellsRow(lib: Library, cs: Commits, s: Repo, calls: seq<Call>, blocks: set<Cid>,
                                        c: Coord, unreadable: bool)
    requires ContentAddressed(cs) && Agree(lib, cs.treeAt(s.account.root), s.account.index) && Coherent(cs, s.cache)
    requires Careful(lib, cs, s, calls) && ValidRecordKey(c.rkey)
    ensures var z := Run(lib, cs, s, calls);
            var answer := ReadOne(cs, blocks, z.cache, z.account.root, c.nsid + "/" + c.rkey, unreadable).1;
            if Open(cs, blocks, z.cache, Some(z.account.root)).None? then answer == Err(RepoUnreadable)
            else if unreadable || c !in z.account.index then answer == Err(LibraryFailure)
            else answer == Ok(z.account.index[c].cid)
  {
    hide Batch;
    IndexAlwaysAgrees(lib, cs, s, calls);
    var z := Run(lib, cs, s, calls);
    assert AgreeAt(lib, cs.treeAt(z.account.root), z.account.index, c);
    assert PathOf(c) == c.nsid + "/" + c.rkey;
  }

  /** A read answers what the tree at the root has. */
  lemma ReadFreshTree(cs: Commits, blocks: set<Cid>, c: Cached, root: Cid, path: Path)
    requires Open(cs, blocks, c, Some(root)).Some? && c.root.None?
    ensures ReadOne(cs, blocks, c, root, path, false).1
         == if path in cs.treeAt(root) then Ok(cs.treeAt(root)[path]) else Err(LibraryFailure)
  {
  }

  /**
   * Clients read their writes: after a batch that succeeded, a read at the account's root answers, for the
   * last write of every path, the very CID that the client was told for it, and an error after a delete.
   */
  lemma {:induction false} ReadYourWrites(lib: Library, cs: Commits, blocks: set<Cid>, s: Repo, snap: Snapshot,
                                          clock: nat, writes: seq<Op>, env: Env, path: Path, i: nat, later: set<Cid>)
    requires ContentAddressed(cs) && Coherent(cs, s.cache) && snap.root == s.account.root
    requires Batch(lib, cs, blocks, s, snap, clock, writes, env).1.Ok?
    requires LastNaming(lib, clock, writes, |writes|, path, i)
    requires Batch(lib, cs, blocks, s, snap, clock, writes, env).0.account.root in later
    ensures var r, k := Batch(lib, cs, blocks, s, snap, clock, writes, env), Known(writes[..i]);
            && k < |r.1.value.results|
            && (var told := r.1.value.results[k].cid;
                && (told.Some? <==> Stores(writes[i]))
                && ReadOne(cs, later, r.0.cache, r.0.account.root, path, false).1
                   == if told.Some? then Ok(told.value) else Err(LibraryFailure))
  {
    hide WriteOne, Build;
    var r, seen := Batch(lib, cs, blocks, s, snap, clock, writes, env), Seen(cs, s.cache, snap.root);
    var b := Got(lib, cs, s, snap.root, clock, writes, env);
    FinishesIff(lib, cs, blocks, s, snap, clock, writes, env);
    SuccessTells(lib, cs, blocks, s, snap, clock, writes, env);
    assert ResultTells(lib, s.account.index, seen, clock, writes, env.faulty, i, r.1.value.results);
    StoresLastWrite(lib, s.account.index, seen, clock, writes, env.faulty, |writes|, path, i);
    NothingToCommit(lib, s.account.index, seen, clock, writes, env.faulty, |writes|);
    assert cs.treeAt(r.0.account.root) == b.tree;
    ReadFreshTree(cs, later, r.0.cache, r.0.account.root, path);
  }
}
