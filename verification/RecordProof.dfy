/**
 * getRecordProof: the blocks it hands out for a record, and a verifier that has nothing else.
 */
module RecordProof {
  import opened Basics
  import opened MerkleTree
  import RepoWrites

  datatype Stored = CommitBlock(data: Cid) | NodeBlock(node: Block) | RecordBlock(octets: Bytes)

  type Store = map<Cid, Stored>

  datatype ProofError = RecordNotFound | BlockMissing(cid: Cid)

  function Nodes(store: Store): map<Cid, Block> {
    map c | c in store && store[c].NodeBlock? :: store[c].node
  }

  /** The part of a store that a list of blocks makes up. */
  function Only(store: Store, cids: seq<Cid>): Store {
    map c | c in cids && c in store :: store[c]
  }

  /** `tree` is the tree of the commit, as the cache holds it. */
  predicate TreeOf(store: Store, commit: Cid, tree: Node) {
    && commit in store && store[commit].CommitBlock?
    && Loaded(Nodes(store), tree) && store[commit].data == tree.cid.value
  }

  /** What a proof consists of. */
  function ProofCids(heightOf: Key -> nat, commit: Cid, tree: Node, key: Key): seq<Cid>
    requires Find(tree, key).Some?
  {
    [commit] + PathCids(heightOf, tree, key) + [Find(tree, key).value]
  }

  predicate AllIn(cids: seq<Cid>, store: Store) {
    forall c :: c in cids ==> c in store
  }

  /** The blocks of a store that a list of CIDs names. */
  function Blocks(store: Store, cids: seq<Cid>): (r: seq<(Cid, Stored)>)
    requires AllIn(cids, store)
    ensures |r| == |cids|
  {
    seq(|cids|, i requires 0 <= i < |cids| => (cids[i], store[cids[i]]))
  }

  method GetRecordProof(heightOf: Key -> nat, store: Store, commit: Cid, tree: Node, key: Key)
    returns (r: Result<seq<(Cid, Stored)>, ProofError>)
    ensures r == Err(RecordNotFound) <==> Find(tree, key).None?
    ensures Find(tree, key).Some? ==>
              var cids := ProofCids(heightOf, commit, tree, key);
              && (r.Ok? <==> AllIn(cids, store))
              && (r.Ok? ==> r.value == Blocks(store, cids))
              && (r.Err? ==> r.error.BlockMissing? && r.error.cid in cids && r.error.cid !in store)
  {
    var nodeCIDs := CollectPathNodeCIDs(heightOf, Some(tree), key);
    var record := Find(tree, key);
    if record.None? {
      return Err(RecordNotFound);
    }
    r := ReadBlocks(store, [commit] + nodeCIDs + [record.value]);
  }

  /** The blocks in order, or the first CID that has none. */
  method ReadBlocks(store: Store, cids: seq<Cid>) returns (r: Result<seq<(Cid, Stored)>, ProofError>)
    ensures r.Ok? <==> AllIn(cids, store)
    ensures r.Ok? ==> r.value == Blocks(store, cids)
    ensures r.Err? ==> r.error.BlockMissing? && r.error.cid in cids && r.error.cid !in store
  {
    var blocks: seq<(Cid, Stored)> := [];
    for i := 0 to |cids|
      invariant |blocks| == i
      invariant forall k :: 0 <= k < i ==> cids[k] in store && blocks[k] == (cids[k], store[cids[k]])
    {
      if cids[i] !in store {
        return Err(BlockMissing(cids[i]));
      }
      blocks := blocks + [(cids[i], store[cids[i]])];
    }
    return Ok(blocks);
  }

  /** What somebody has who is given a list of blocks. */
  function Given(blocks: seq<(Cid, Stored)>): Store
    decreases |blocks|
  {
    if blocks == [] then map[]
    else Given(blocks[..|blocks| - 1])[blocks[|blocks| - 1].0 := blocks[|blocks| - 1].1]
  }

  lemma {:induction false} GivenBlocks(store: Store, cids: seq<Cid>)
    requires AllIn(cids, store)
    ensures Given(Blocks(store, cids)) == Only(store, cids)
    decreases |cids|
  {
    if cids != [] {
      var front := cids[..|cids| - 1];
      assert Blocks(store, cids)[..|cids| - 1] == Blocks(store, front);
      assert forall c :: c in cids <==> c in front || c == cids[|cids| - 1];
      GivenBlocks(store, front);
    }
  }

  /** A verifier that reads the commit, walks the tree and reads the record. */
  function VerifyRecord(heightOf: Key -> nat, proof: Store, commit: Cid, key: Key, limit: nat): Option<Cid> {
    if commit !in proof || !proof[commit].CommitBlock? then None
    else
      var found := Lookup(heightOf, Nodes(proof), proof[commit].data, key, limit);
      if found.Present? && found.val in proof then Some(found.val) else None
  }

  /** The blocks that such a verifier reads, in order. */
  function VerifierReads(heightOf: Key -> nat, proof: Store, commit: Cid, key: Key, limit: nat): seq<Cid> {
    [commit] +
    if commit !in proof || !proof[commit].CommitBlock? then []
    else
      var found := Lookup(heightOf, Nodes(proof), proof[commit].data, key, limit);
      Reads(heightOf, Nodes(proof), proof[commit].data, key, limit) + if found.Present? then [found.val] else []
  }

  /** The blocks of a proof come in the order in which a verifier reads them. */
  lemma {:induction false} ProofInReadingOrder(heightOf: Key -> nat, store: Store, commit: Cid, tree: Node, key: Key,
                                               limit: nat)
    requires Proper(heightOf, tree) && TreeOf(store, commit, tree) && tree.height < limit
    requires Find(tree, key).Some?
    ensures ProofCids(heightOf, commit, tree, key) == VerifierReads(heightOf, store, commit, key, limit)
  {
    PathStored(heightOf, Nodes(store), tree, key);
    CollectedInReadingOrder(heightOf, Nodes(store), tree, key, limit);
    ProofSuffices(heightOf, Nodes(store), tree, key, Nodes(store), limit);
  }

  lemma {:induction false} PathStored(heightOf: Key -> nat, blocks: map<Cid, Block>, n: Node, key: Key)
    requires Loaded(blocks, n)
    ensures forall c :: c in PathCids(heightOf, n, key) ==> c in blocks
    decreases n
  {
    var i := Covering(n.entries, key);
    if heightOf(key) < n.height && i >= 0 {
      PathStored(heightOf, blocks, n.entries[i].sub.value, key);
    }
  }

  /** The blocks of a proof, and nothing else, convince the verifier of the record in the commit's tree. */
  lemma {:induction false} RecordProofVerifies(heightOf: Key -> nat, store: Store, commit: Cid, tree: Node, key: Key,
                                               limit: nat)
    requires Proper(heightOf, tree) && TreeOf(store, commit, tree) && tree.height < limit
    requires Find(tree, key).Some? && Find(tree, key).value in store
    ensures var cids := ProofCids(heightOf, commit, tree, key);
            && AllIn(cids, store)
            && VerifyRecord(heightOf, Given(Blocks(store, cids)), commit, key, limit) == Find(tree, key)
  {
    var cids := ProofCids(heightOf, commit, tree, key);
    PathStored(heightOf, Nodes(store), tree, key);
    GivenBlocks(store, cids);
    ProofSuffices(heightOf, Nodes(store), tree, key, Nodes(Only(store, cids)), limit);
  }

  /**
   * Whatever blocks a verifier is given, if they are right where the store has one too, it is never
   * led to a record that the commit's tree does not hold.
   */
  lemma {:induction false} RecordProofSound(heightOf: Key -> nat, store: Store, commit: Cid, tree: Node, key: Key,
                                            limit: nat, proof: Store)
    requires Proper(heightOf, tree) && TreeOf(store, commit, tree) && tree.height < limit
    requires forall c :: c in proof && c in store ==> proof[c] == store[c]
    ensures var claimed := VerifyRecord(heightOf, proof, commit, key, limit);
            claimed.Some? ==> claimed == Find(tree, key)
  {
    if VerifyRecord(heightOf, proof, commit, key, limit).Some? {
      PartialAnswers(heightOf, Nodes(store), tree, key, Nodes(proof), limit);
    }
  }

  /** With any blocks that are right where the tree has one, a lookup gives the right answer or gets stuck. */
  lemma {:induction false} PartialAnswers(heightOf: Key -> nat, blocks: map<Cid, Block>, n: Node, key: Key,
                                          part: map<Cid, Block>, limit: nat)
    requires Proper(heightOf, n) && Loaded(blocks, n) && n.height < limit
    requires forall c :: c in part && c in blocks ==> part[c] == blocks[c]
    ensures var answer := Lookup(heightOf, part, n.cid.value, key, limit);
            answer.MissingBlock? || answer == Expected(Find(n, key))
    decreases n
  {
    PathStored(heightOf, blocks, n, key);
    if c :| c in PathCids(heightOf, n, key) && c !in part {
      StuckWithout(heightOf, blocks, n, key, part, limit, c);
    } else {
      ProofSuffices(heightOf, blocks, n, key, part, limit);
    }
  }

  lemma {:induction false} StuckWithout(heightOf: Key -> nat, blocks: map<Cid, Block>, n: Node, key: Key,
                                        part: map<Cid, Block>, limit: nat, c: Cid)
    requires Proper(heightOf, n) && Loaded(blocks, n) && n.height < limit
    requires forall x :: x in part && x in blocks ==> part[x] == blocks[x]
    requires c in PathCids(heightOf, n, key) && c !in part
    ensures Lookup(heightOf, part, n.cid.value, key, limit).MissingBlock?
    decreases n
  {
    if n.cid.value in part {
      LowerKey(heightOf, n, key);
      CoveringLinkOf(n, key);
      var i := Covering(n.entries, key);
      StuckWithout(heightOf, blocks, n.entries[i].sub.value, key, part, n.height, c);
    }
  }

  // ---- the map of the write path

  ghost predicate Injective(octets: RepoWrites.Path -> Key) {
    forall p, q {:trigger octets(p), octets(q)} :: octets(p) == octets(q) ==> p == q
  }

  /** The node tree holds the records of the map, under the octets of their paths. */
  ghost predicate Represents(octets: RepoWrites.Path -> Key, n: Node, t: RepoWrites.Tree) {
    && (forall p :: p in t ==> octets(p) in Contents(n) && Contents(n)[octets(p)] == t[p])
    && (forall key :: key in Contents(n) ==> exists p :: p in t && octets(p) == key)
  }

  lemma RepresentsLookup(octets: RepoWrites.Path -> Key, n: Node, t: RepoWrites.Tree, path: RepoWrites.Path)
    requires Injective(octets) && Represents(octets, n, t)
    ensures Find(n, octets(path)) == RepoWrites.Lookup(t, path)
  {
    FindIsLookup(n, octets(path));
  }

  /**
   * A proof of a path, read from the nodes of the stored tree, convinces the verifier of what the map
   * of the write path holds there; and no blocks convince it of anything else.
   */
  lemma {:induction false} PathProofVerifies(heightOf: Key -> nat, octets: RepoWrites.Path -> Key, store: Store,
                                             commit: Cid, tree: Node, t: RepoWrites.Tree, path: RepoWrites.Path,
                                             limit: nat, proof: Store)
    requires Proper(heightOf, tree) && TreeOf(store, commit, tree) && tree.height < limit
    requires Injective(octets) && Represents(octets, tree, t)
    requires forall p :: p in t ==> t[p] in store
    requires forall c :: c in proof && c in store ==> proof[c] == store[c]
    ensures path in t ==>
              && Find(tree, octets(path)).Some?
              && (var cids := ProofCids(heightOf, commit, tree, octets(path));
                  AllIn(cids, store) &&
                  VerifyRecord(heightOf, Given(Blocks(store, cids)), commit, octets(path), limit) == Some(t[path]))
    ensures var claimed := VerifyRecord(heightOf, proof, commit, octets(path), limit);
            claimed.Some? ==> path in t && claimed.value == t[path]
  {
    RepresentsLookup(octets, tree, t, path);
    if path in t {
      RecordProofVerifies(heightOf, store, commit, tree, octets(path), limit);
    }
    RecordProofSound(heightOf, store, commit, tree, octets(path), limit, proof);
  }
}
