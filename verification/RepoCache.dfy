/**
 * withRepo: the per-account cache of a mutable tree, which is to behave like reopening the repository
 * at every use. Trees are maps here; see MerkleTree for the nodes of a proof.
 */
module RepoCache {
  import opened Basics
  import opened RepoWrites

  type Key = Bytes
  type Signature = Bytes

  /** Commits and signatures. A commit's CID determines the tree it commits to. */
  datatype Commits = Commits(
    treeAt: Cid -> Tree,
    commitCid: (Tree, string, Signature) -> Cid,
    unsigned: (Tree, string) -> Bytes,
    verifies: (Key, Bytes, Signature) -> bool)

  ghost predicate ContentAddressed(cs: Commits) {
    forall t, rev, sig :: cs.treeAt(cs.commitCid(t, rev, sig)) == t
  }

  /** A cachedRepo; a root of None is cid.Undef. */
  datatype Cached = Cached(repo: Option<Tree>, root: Option<Cid>)

  const EMPTY_ENTRY := Cached(None, None)

  predicate Coherent(cs: Commits, c: Cached) {
    c.repo.Some? && c.root.Some? ==> c.repo.value == cs.treeAt(c.root.value)
  }

  /** withRepo up to the call of fn; None when openRepo cannot read the commit. */
  function Open(cs: Commits, blocks: set<Cid>, c: Cached, root: Option<Cid>): (r: Option<Cached>)
    ensures r.Some? ==> r.value.repo.Some? && r.value.root == root
  {
    if c.repo.None? || c.root != root
    then (if root.Some? && root.value in blocks then Some(Cached(Some(cs.treeAt(root.value)), root)) else None)
    else Some(c)
  }

  /**
   * withRepo from the call of fn on, for an entry opened at `root`: fn leaves the tree as `left` and
   * returns a root or an error, or it panics. A panic runs the deferred unlock and nothing else, so
   * the entry keeps the tree as it was left, under the root it was opened at.
   */
  function Close(root: Option<Cid>, left: Tree, outcome: Result<Option<Cid>, WriteError>): Cached {
    if outcome == Err(Panicked) then Cached(Some(left), root)
    else if outcome.Err? then EMPTY_ENTRY
    else Cached(Some(left), outcome.value)
  }

  /** The tree that withRepo hands to fn at a defined root. */
  function Seen(cs: Commits, c: Cached, root: Cid): Tree {
    if c.repo.None? || c.root != Some(root) then cs.treeAt(root) else c.repo.value
  }

  /** One use of the cache: the root asked for, what fn makes of the tree, and how it ends. */
  datatype Use = Use(root: Option<Cid>, blocks: set<Cid>, left: Tree, outcome: Result<Option<Cid>, WriteError>)

  /**
   * The two functions run by withRepo: applyWrites may leave any tree if it returns Undef or an error;
   * getRecordProof leaves the tree alone and returns its root or an error. A panic is harmless if it
   * comes before the tree was changed.
   */
  predicate Disciplined(u: Use, seen: Tree) {
    if u.outcome == Err(Panicked) then u.left == seen
    else u.outcome.Err? || u.outcome.value.None? || (u.left == seen && u.outcome.value == u.root)
  }

  /** The cache entry after `uses`; a use that cannot open the repo leaves it alone. */
  function AfterUses(cs: Commits, uses: seq<Use>): Cached
    decreases |uses|
  {
    if uses == [] then EMPTY_ENTRY
    else
      var u := uses[|uses| - 1];
      var c := AfterUses(cs, uses[..|uses| - 1]);
      if Open(cs, u.blocks, c, u.root).None? then c else Close(u.root, u.left, u.outcome)
  }

  predicate AllDisciplined(cs: Commits, uses: seq<Use>)
    decreases |uses|
  {
    uses == [] ||
    var u := uses[|uses| - 1];
    var entry := Open(cs, u.blocks, AfterUses(cs, uses[..|uses| - 1]), u.root);
    AllDisciplined(cs, uses[..|uses| - 1]) && (entry.Some? ==> Disciplined(u, entry.value.repo.value))
  }

  lemma {:induction false} CacheStaysCoherent(cs: Commits, uses: seq<Use>)
    requires AllDisciplined(cs, uses)
    ensures Coherent(cs, AfterUses(cs, uses))
    decreases |uses|
  {
    if uses != [] {
      CacheStaysCoherent(cs, uses[..|uses| - 1]);
    }
  }

  /**
   * Whatever readers and writers did before, panics that changed no tree included, a function run at a
   * defined root sees the very tree openRepo would load for it.
   */
  lemma {:induction false} SeesItsRoot(cs: Commits, uses: seq<Use>, blocks: set<Cid>, root: Cid)
    requires AllDisciplined(cs, uses)
    ensures var entry := Open(cs, blocks, AfterUses(cs, uses), Some(root));
            entry.Some? ==> entry.value == Cached(Some(cs.treeAt(root)), Some(root))
  {
    CacheStaysCoherent(cs, uses);
  }

  /** Every reader at a defined root sees its own tree. */
  ghost predicate ReadersSafe(cs: Commits, c: Cached) {
    forall root, blocks {:trigger Open(cs, blocks, c, Some(root))} ::
      var entry := Open(cs, blocks, c, Some(root)); entry.Some? ==> entry.value.repo == Some(cs.treeAt(root))
  }

  lemma ReadersSafeIffCoherent(cs: Commits, c: Cached)
    ensures ReadersSafe(cs, c) <==> Coherent(cs, c)
  {
    if c.repo.Some? && c.root.Some? {
      assert Open(cs, {}, c, Some(c.root.value)) == Some(c);
    }
  }

  /**
   * After fn was run at `root`, left the tree as `left` and ended, every later reader at a defined root
   * sees the tree of its root if and only if fn returned an error, no root, or the root of what it left,
   * or panicked with the tree of its root unchanged.
   */
  lemma ReadersSafeIff(cs: Commits, root: Cid, left: Tree, outcome: Result<Option<Cid>, WriteError>)
    ensures ReadersSafe(cs, Close(Some(root), left, outcome)) <==>
            if outcome == Err(Panicked) then left == cs.treeAt(root)
            else outcome.Err? || outcome.value.None? || left == cs.treeAt(outcome.value.value)
  {
    ReadersSafeIffCoherent(cs, Close(Some(root), left, outcome));
  }

  /** With an undefined root the cache hands out the leftovers of the last writer, stored nowhere. */
  lemma {:induction false} UndefSeesLeftovers(cs: Commits, uses: seq<Use>, left: Tree, root: Cid, blocks: set<Cid>)
    requires Open(cs, blocks, AfterUses(cs, uses), Some(root)).Some?
    ensures Open(cs, blocks, AfterUses(cs, uses + [Use(Some(root), blocks, left, Ok(None))]), None)
            == Some(Cached(Some(left), None))
  {
    var more := uses + [Use(Some(root), blocks, left, Ok(None))];
    assert more[..|more| - 1] == uses;
  }
}
