/**
 * The record proof of getRecordProof: the nodes collectPathNodeCIDs picks from a Merkle search
 * tree are exactly the ones a verifier needs, for keys that are present and for keys that are not.
 */
module MerkleTree {
  import opened Basics

  type Key = Bytes
  type Cid = Bytes

  // ---- bytes.Compare

  function Compare(a: Key, b: Key): int {
    if a == [] then (if b == [] then 0 else -1)
    else if b == [] then 1
    else if a[0] != b[0] then (if a[0] < b[0] then -1 else 1)
    else Compare(a[1..], b[1..])
  }

  predicate Less(a: Key, b: Key) {
    Compare(a, b) < 0
  }

  lemma {:induction false} CompareEqual(a: Key, b: Key)
    ensures Compare(a, b) == 0 <==> a == b
  {
    if a != [] && b != [] && a[0] == b[0] {
      CompareEqual(a[1..], b[1..]);
      assert a == [a[0]] + a[1..] && b == [b[0]] + b[1..];
    }
  }

  lemma {:induction false} CompareSwap(a: Key, b: Key)
    ensures Compare(a, b) == -Compare(b, a)
  {
    if a != [] && b != [] && a[0] == b[0] {
      CompareSwap(a[1..], b[1..]);
    }
  }

  lemma {:induction false} LessTransitive(a: Key, b: Key, c: Key)
    requires Less(a, b) && Less(b, c)
    ensures Less(a, c)
  {
    if a != [] && b != [] && c != [] && a[0] == b[0] && b[0] == c[0] {
      LessTransitive(a[1..], b[1..], c[1..]);
    }
  }

  /** `i` is where two keys first part: at a smaller octet of `a`, or at its end. */
  predicate PartsBelow(a: Key, b: Key, i: nat) {
    i <= |a| && i < |b| && a[..i] == b[..i] && (i < |a| ==> a[i] < b[i])
  }

  /** Keys are ordered as in a dictionary. */
  lemma {:induction false} LessIsLexicographic(a: Key, b: Key)
    ensures Less(a, b) <==> exists i: nat :: PartsBelow(a, b, i)
  {
    if Less(a, b) {
      var i := WherePartsBelow(a, b);
    }
    if i: nat :| PartsBelow(a, b, i) {
      PartingIsLess(a, b, i);
    }
  }

  lemma {:induction false} WherePartsBelow(a: Key, b: Key) returns (i: nat)
    requires Less(a, b)
    ensures PartsBelow(a, b, i)
  {
    if a == [] || a[0] != b[0] {
      i := 0;
    } else {
      var j := WherePartsBelow(a[1..], b[1..]);
      i := j + 1;
      assert a[..i] == [a[0]] + a[1..][..j] && b[..i] == [b[0]] + b[1..][..j];
    }
  }

  lemma {:induction false} PartingIsLess(a: Key, b: Key, i: nat)
    requires PartsBelow(a, b, i)
    ensures Less(a, b)
  {
    if i > 0 {
      assert a[0] == a[..i][0] && b[0] == b[..i][0];
      assert a[1..][..i - 1] == a[..i][1..] && b[1..][..i - 1] == b[..i][1..];
      PartingIsLess(a[1..], b[1..], i - 1);
    }
  }

  // ---- trees

  /** A node in memory; `cid` is None while the node is dirty. */
  datatype Node = Node(cid: Option<Cid>, height: nat, entries: seq<Entry>)

  /** A child that is not loaded is known by its link only. */
  datatype Entry = Value(key: Key, val: Cid) | Child(link: Cid, sub: Option<Node>)

  /** The reference: search every entry of every loaded node, using neither order nor heights. */
  function Find(n: Node, key: Key): Option<Cid>
    decreases n, 1
  {
    FindIn(n, n.entries, key)
  }

  function FindIn(ghost parent: Node, es: seq<Entry>, key: Key): Option<Cid>
    requires forall e :: e in es ==> e in parent.entries
    decreases parent, 0, |es|
  {
    if es == [] then None
    else
      var e := es[0];
      assert e in parent.entries;
      var here :=
        if e.Value? then (if e.key == key then Some(e.val) else None)
        else if e.sub.Some? then Find(e.sub.value, key)
        else None;
      if here.Some? then here else FindIn(parent, es[1..], key)
  }

  /** The records of a tree as a map; of entries with the same key the first counts. */
  function Contents(n: Node): map<Key, Cid>
    decreases n, 1
  {
    ContentsIn(n, n.entries)
  }

  function ContentsIn(ghost parent: Node, es: seq<Entry>): map<Key, Cid>
    requires forall e :: e in es ==> e in parent.entries
    decreases parent, 0, |es|
  {
    if es == [] then map[]
    else
      var e := es[0];
      assert e in parent.entries;
      ContentsIn(parent, es[1..]) +
      if e.Value? then map[e.key := e.val]
      else if e.sub.Some? then Contents(e.sub.value)
      else map[]
  }

  /** Searching a tree is looking its map up. */
  lemma {:induction false} FindIsLookup(n: Node, key: Key)
    ensures Find(n, key) == if key in Contents(n) then Some(Contents(n)[key]) else None
    decreases n, 1
  {
    FindInIsLookup(n, n.entries, key);
  }

  lemma {:induction false} FindInIsLookup(n: Node, es: seq<Entry>, key: Key)
    requires forall e :: e in es ==> e in n.entries
    ensures FindIn(n, es, key) == if key in ContentsIn(n, es) then Some(ContentsIn(n, es)[key]) else None
    decreases n, 0, |es|
  {
    if es != [] {
      assert es[0] in n.entries;
      FindInIsLookup(n, es[1..], key);
      if es[0].Child? && es[0].sub.Some? {
        FindIsLookup(es[0].sub.value, key);
      }
    }
  }

  // ---- well-formed trees

  type Bound = Option<Key>

  predicate Above(lo: Bound, key: Key) {
    lo.None? || Less(lo.value, key)
  }

  predicate Below(key: Key, hi: Bound) {
    hi.None? || Less(key, hi.value)
  }

  function NextKey(es: seq<Entry>, hi: Bound): Bound {
    if es != [] && es[0].Value? then Some(es[0].key) else hi
  }

  /**
   * Keys sorted and at their own height, children lower than their parent with keys strictly between
   * the neighbouring ones, no two children side by side, everything loaded.
   */
  predicate WellFormed(heightOf: Key -> nat, n: Node, lo: Bound, hi: Bound)
    decreases n, 1
  {
    WellFormedIn(heightOf, n, n.entries, lo, hi, false)
  }

  predicate WellFormedIn(heightOf: Key -> nat, n: Node, es: seq<Entry>, lo: Bound, hi: Bound, afterChild: bool)
    requires forall e :: e in es ==> e in n.entries
    decreases n, 0, |es|
  {
    es != [] ==>
      var e := es[0];
      assert e in n.entries;
      if e.Value? then
        && heightOf(e.key) == n.height && Above(lo, e.key) && Below(e.key, hi)
        && WellFormedIn(heightOf, n, es[1..], Some(e.key), hi, false)
      else
        && !afterChild && e.sub.Some? && e.sub.value.height < n.height
        && WellFormed(heightOf, e.sub.value, lo, NextKey(es[1..], hi))
        && WellFormedIn(heightOf, n, es[1..], lo, hi, true)
  }

  /** Well-formed between some bounds. */
  ghost predicate Proper(heightOf: Key -> nat, n: Node) {
    exists lo, hi :: WellFormed(heightOf, n, lo, hi)
  }

  /** Every key of a well-formed node lies within its bounds and no higher than the node. */
  lemma {:induction false} FoundInRange(heightOf: Key -> nat, n: Node, lo: Bound, hi: Bound, key: Key)
    requires WellFormed(heightOf, n, lo, hi) && Find(n, key).Some?
    ensures Above(lo, key) && Below(key, hi) && heightOf(key) <= n.height
    decreases n, 1
  {
    FoundInRangeIn(heightOf, n, n.entries, lo, hi, false, key);
  }

  lemma {:induction false} FoundInRangeIn(heightOf: Key -> nat, n: Node, es: seq<Entry>, lo: Bound, hi: Bound,
                                          afterChild: bool, key: Key)
    requires forall e :: e in es ==> e in n.entries
    requires WellFormedIn(heightOf, n, es, lo, hi, afterChild) && FindIn(n, es, key).Some?
    ensures Above(lo, key) && Below(key, hi) && heightOf(key) <= n.height
    decreases n, 0, |es|
  {
    var e := es[0];
    assert e in n.entries;
    if e.Value? {
      if e.key != key {
        FoundInRangeIn(heightOf, n, es[1..], Some(e.key), hi, false, key);
        if lo.Some? { LessTransitive(lo.value, e.key, key); }
      }
    } else if Find(e.sub.value, key).Some? {
      var next := NextKey(es[1..], hi);
      FoundInRange(heightOf, e.sub.value, lo, next, key);
      if next != hi && hi.Some? { LessTransitive(key, next.value, hi.value); }
    } else {
      FoundInRangeIn(heightOf, n, es[1..], lo, hi, true, key);
    }
  }

  // ---- collectPathNodeCIDs

  /** The covering child as the loop of collectPathNodeCIDs finds it from index i on; -1 for none. */
  function CoveringFrom(es: seq<Entry>, key: Key, i: nat, best: int): (r: int)
    requires i <= |es| && -1 <= best < i && (best >= 0 ==> es[best].Child?)
    ensures -1 <= r < |es| && (r >= 0 ==> es[r].Child?)
    decreases |es| - i
  {
    if i == |es| then best
    else if es[i].Child? then CoveringFrom(es, key, i + 1, i)
    else if Compare(key, es[i].key) <= 0 then best
    else CoveringFrom(es, key, i + 1, -1)
  }

  function Covering(es: seq<Entry>, key: Key): (r: int)
    ensures -1 <= r < |es| && (r >= 0 ==> es[r].Child?)
  {
    CoveringFrom(es, key, 0, -1)
  }

  function PathCids(heightOf: Key -> nat, n: Node, key: Key): seq<Cid> {
    (if n.cid.Some? then [n.cid.value] else []) +
    if heightOf(key) >= n.height then []
    else
      var i := Covering(n.entries, key);
      if i >= 0 && n.entries[i].sub.Some? then PathCids(heightOf, n.entries[i].sub.value, key) else []
  }

  method CollectPathNodeCIDs(heightOf: Key -> nat, n: Option<Node>, key: Key) returns (cids: seq<Cid>)
    ensures cids == if n.None? then [] else PathCids(heightOf, n.value, key)
    decreases n
  {
    if n.None? {
      return [];
    }
    var node := n.value;
    cids := if node.cid.Some? then [node.cid.value] else [];
    if heightOf(key) >= node.height {
      return;
    }
    var childIdx := -1;
    var i := 0;
    while i < |node.entries|
      invariant i <= |node.entries| && -1 <= childIdx < i && (childIdx >= 0 ==> node.entries[childIdx].Child?)
      invariant CoveringFrom(node.entries, key, i, childIdx) == Covering(node.entries, key)
    {
      var e := node.entries[i];
      if e.Child? {
        childIdx := i;
      } else {
        if Compare(key, e.key) <= 0 {
          break;
        }
        childIdx := -1;
      }
      i := i + 1;
    }
    if childIdx >= 0 && node.entries[childIdx].sub.Some? {
      var rest := CollectPathNodeCIDs(heightOf, node.entries[childIdx].sub, key);
      cids := cids + rest;
    }
  }

  // ---- the covering child is the only place a lower key can be

  lemma {:induction false} NotBelowLaterKey(heightOf: Key -> nat, n: Node, i: nat, lo: Bound, hi: Bound, key: Key)
    requires i < |n.entries| && n.entries[i].Value? && Compare(key, n.entries[i].key) <= 0
    requires || WellFormedIn(heightOf, n, n.entries[i..], lo, hi, false)
             || WellFormedIn(heightOf, n, n.entries[i..], lo, hi, true)
    requires heightOf(key) != n.height
    ensures FindIn(n, n.entries[i..], key).None?
  {
    var es, k := n.entries[i..], n.entries[i].key;
    assert es[0] == n.entries[i] && es[1..] == n.entries[i + 1..];
    if FindIn(n, es[1..], key).Some? {
      FoundInRangeIn(heightOf, n, es[1..], Some(k), hi, false, key);
      CompareSwap(key, k);
      CompareEqual(key, k);
    }
  }

  /** `Find` in the child at index i, if that is an index. */
  function FindAt(n: Node, i: int, key: Key): Option<Cid>
    requires -1 <= i < |n.entries|
  {
    if i >= 0 && n.entries[i].Child? && n.entries[i].sub.Some? then Find(n.entries[i].sub.value, key) else None
  }

  /**
   * `best` is the child just before index i, if there is one, and every key before i is smaller.
   */
  lemma {:induction false} CoveringFinds(heightOf: Key -> nat, n: Node, i: nat, best: int,
                                         lo: Bound, hi: Bound, key: Key)
    requires i <= |n.entries| && (best == -1 || (best == i - 1 && best >= 0 && n.entries[best].Child?))
    requires WellFormedIn(heightOf, n, n.entries[i..], lo, hi, best >= 0)
    requires best >= 0 ==> n.entries[best].sub.Some? && n.entries[best].sub.value.height < n.height
    requires best >= 0 ==> WellFormed(heightOf, n.entries[best].sub.value, lo, NextKey(n.entries[i..], hi))
    requires heightOf(key) < n.height
    ensures FindAt(n, CoveringFrom(n.entries, key, i, best), key) ==
            if FindAt(n, best, key).Some? then FindAt(n, best, key) else FindIn(n, n.entries[i..], key)
    ensures var c := CoveringFrom(n.entries, key, i, best);
            c >= 0 ==> n.entries[c].sub.Some? && n.entries[c].sub.value.height < n.height &&
                       Proper(heightOf, n.entries[c].sub.value)
    decreases |n.entries| - i
  {
    if i < |n.entries| {
      var es, e := n.entries[i..], n.entries[i];
      assert es[0] == e && es[1..] == n.entries[i + 1..];
      if e.Child? {
        CoveringFinds(heightOf, n, i + 1, i, lo, hi, key);
      } else if Compare(key, e.key) <= 0 {
        NotBelowLaterKey(heightOf, n, i, lo, hi, key);
      } else {
        CoveringFinds(heightOf, n, i + 1, -1, Some(e.key), hi, key);
        if FindAt(n, best, key).Some? {
          FoundInRange(heightOf, n.entries[best].sub.value, lo, Some(e.key), key);
        }
      }
    }
  }

  lemma LowerKey(heightOf: Key -> nat, n: Node, key: Key)
    requires Proper(heightOf, n) && heightOf(key) < n.height
    ensures var c := Covering(n.entries, key);
            && Find(n, key) == FindAt(n, c, key)
            && (c >= 0 ==> n.entries[c].sub.Some? && n.entries[c].sub.value.height < n.height &&
                           Proper(heightOf, n.entries[c].sub.value))
  {
    var lo, hi :| WellFormed(heightOf, n, lo, hi);
    assert n.entries[0..] == n.entries;
    CoveringFinds(heightOf, n, 0, -1, lo, hi, key);
  }

  // ---- the verifier's side

  /** A tree node as stored: children are links. */
  datatype Block = Block(height: nat, entries: seq<BlockEntry>)

  datatype BlockEntry = Leaf(key: Key, val: Cid) | Link(cid: Cid)

  function EncodeEntries(es: seq<Entry>): (r: seq<BlockEntry>)
    ensures |r| == |es|
    ensures forall i :: 0 <= i < |es| ==>
              r[i] == if es[i].Value? then Leaf(es[i].key, es[i].val) else Link(es[i].link)
  {
    if es == [] then []
    else [if es[0].Value? then Leaf(es[0].key, es[0].val) else Link(es[0].link)] + EncodeEntries(es[1..])
  }

  /** `n` is the whole tree that `blocks` stores under its CID, as openRepo loads it. */
  predicate Loaded(blocks: map<Cid, Block>, n: Node) {
    && n.cid.Some? && n.cid.value in blocks
    && blocks[n.cid.value] == Block(n.height, EncodeEntries(n.entries))
    && forall i :: 0 <= i < |n.entries| && n.entries[i].Child? ==>
         n.entries[i].sub.Some? && n.entries[i].sub.value.cid == Some(n.entries[i].link) &&
         Loaded(blocks, n.entries[i].sub.value)
  }

  datatype Answer = Present(val: Cid) | Absent | MissingBlock(cid: Cid) | Malformed

  /** The child link that covers `key`, None when there is none. */
  function CoveringLink(es: seq<BlockEntry>, key: Key, best: Option<Cid>): Option<Cid> {
    if es == [] then best
    else if es[0].Link? then CoveringLink(es[1..], key, Some(es[0].cid))
    else if Compare(key, es[0].key) <= 0 then best
    else CoveringLink(es[1..], key, None)
  }

  function LeafValue(es: seq<BlockEntry>, key: Key): Option<Cid> {
    if es == [] then None
    else if es[0].Leaf? && es[0].key == key then Some(es[0].val)
    else LeafValue(es[1..], key)
  }

  /**
   * Looks `key` up below the block named `cid`, reading only `blocks`; a node has to be lower than
   * the one that links to it.
   */
  function Lookup(heightOf: Key -> nat, blocks: map<Cid, Block>, cid: Cid, key: Key, limit: nat): Answer
    decreases limit
  {
    if cid !in blocks then MissingBlock(cid)
    else
      var b := blocks[cid];
      if b.height >= limit then Malformed
      else if heightOf(key) > b.height then Absent
      else if heightOf(key) == b.height then
        var v := LeafValue(b.entries, key);
        if v.Some? then Present(v.value) else Absent
      else
        var child := CoveringLink(b.entries, key, None);
        if child.None? then Absent else Lookup(heightOf, blocks, child.value, key, b.height)
  }

  lemma {:induction false} CoveringLinkAgrees(es: seq<Entry>, bs: seq<BlockEntry>, key: Key, i: nat, best: int)
    requires i <= |es| && -1 <= best < i && (best >= 0 ==> es[best].Child?)
    requires |bs| == |es| && forall k :: 0 <= k < |es| ==>
               bs[k] == if es[k].Value? then Leaf(es[k].key, es[k].val) else Link(es[k].link)
    ensures var c := CoveringFrom(es, key, i, best);
            CoveringLink(bs[i..], key, if best >= 0 then Some(es[best].link) else None) ==
            if c >= 0 then Some(es[c].link) else None
    decreases |es| - i
  {
    if i < |es| {
      assert bs[i..][0] == bs[i] && bs[i..][1..] == bs[i + 1..];
      if es[i].Child? {
        CoveringLinkAgrees(es, bs, key, i + 1, i);
      } else if Compare(key, es[i].key) > 0 {
        CoveringLinkAgrees(es, bs, key, i + 1, -1);
      }
    }
  }

  lemma CoveringLinkOf(n: Node, key: Key)
    ensures var c := Covering(n.entries, key);
            CoveringLink(EncodeEntries(n.entries), key, None) == if c >= 0 then Some(n.entries[c].link) else None
  {
    var bs := EncodeEntries(n.entries);
    CoveringLinkAgrees(n.entries, bs, key, 0, -1);
    assert bs[0..] == bs;
  }

  /** At its own height a key is a leaf of the node or not in the tree. */
  lemma {:induction false} LeafValueFinds(heightOf: Key -> nat, n: Node, i: nat, lo: Bound, hi: Bound,
                                          afterChild: bool, key: Key)
    requires i <= |n.entries| && WellFormedIn(heightOf, n, n.entries[i..], lo, hi, afterChild)
    requires heightOf(key) == n.height
    ensures LeafValue(EncodeEntries(n.entries)[i..], key) == FindIn(n, n.entries[i..], key)
    decreases |n.entries| - i
  {
    if i < |n.entries| {
      var es, e := n.entries[i..], n.entries[i];
      assert es[0] == e && es[1..] == n.entries[i + 1..];
      var bs := EncodeEntries(n.entries);
      assert bs[i..][0] == bs[i] && bs[i..][1..] == bs[i + 1..];
      if e.Value? {
        LeafValueFinds(heightOf, n, i + 1, Some(e.key), hi, false, key);
      } else {
        LeafValueFinds(heightOf, n, i + 1, lo, hi, true, key);
        if Find(e.sub.value, key).Some? {
          FoundInRange(heightOf, e.sub.value, lo, NextKey(es[1..], hi), key);
        }
      }
    }
  }

  function Expected(v: Option<Cid>): Answer {
    if v.Some? then Present(v.value) else Absent
  }

  predicate Agrees(proof: map<Cid, Block>, blocks: map<Cid, Block>, cids: seq<Cid>) {
    forall c :: c in cids ==> c in proof && c in blocks && proof[c] == blocks[c]
  }

  /**
   * The collected nodes suffice: a lookup that can read them, whatever else it can or cannot read,
   * answers exactly what the whole tree holds for the key, present or absent.
   */
  lemma {:induction false} ProofSuffices(heightOf: Key -> nat, blocks: map<Cid, Block>, n: Node, key: Key,
                                         proof: map<Cid, Block>, limit: nat)
    requires Proper(heightOf, n) && Loaded(blocks, n) && n.height < limit
    requires Agrees(proof, blocks, PathCids(heightOf, n, key))
    ensures Lookup(heightOf, proof, n.cid.value, key, limit) == Expected(Find(n, key))
    decreases n
  {
    assert n.cid.value in PathCids(heightOf, n, key);
    if heightOf(key) < n.height {
      LowerKey(heightOf, n, key);
      CoveringLinkOf(n, key);
      var i := Covering(n.entries, key);
      if i >= 0 {
        ProofSuffices(heightOf, blocks, n.entries[i].sub.value, key, proof, n.height);
      }
    } else {
      var lo, hi :| WellFormed(heightOf, n, lo, hi);
      if heightOf(key) == n.height {
        assert n.entries[0..] == n.entries && EncodeEntries(n.entries)[0..] == EncodeEntries(n.entries);
        LeafValueFinds(heightOf, n, 0, lo, hi, false, key);
      } else if Find(n, key).Some? {
        FoundInRange(heightOf, n, lo, hi, key);
      }
    }
  }

  /** The blocks that a lookup reads, in order. */
  function Reads(heightOf: Key -> nat, blocks: map<Cid, Block>, cid: Cid, key: Key, limit: nat): seq<Cid>
    decreases limit
  {
    [cid] +
    if cid !in blocks || blocks[cid].height >= limit || heightOf(key) >= blocks[cid].height then []
    else
      var child := CoveringLink(blocks[cid].entries, key, None);
      if child.None? then [] else Reads(heightOf, blocks, child.value, key, blocks[cid].height)
  }

  /** The nodes are collected in the order in which a verifier reads them, from the root downward. */
  lemma {:induction false} CollectedInReadingOrder(heightOf: Key -> nat, blocks: map<Cid, Block>, n: Node, key: Key,
                                                   limit: nat)
    requires Proper(heightOf, n) && Loaded(blocks, n) && n.height < limit
    ensures PathCids(heightOf, n, key) == Reads(heightOf, blocks, n.cid.value, key, limit)
    decreases n
  {
    if heightOf(key) < n.height {
      LowerKey(heightOf, n, key);
      CoveringLinkOf(n, key);
      var i := Covering(n.entries, key);
      if i >= 0 {
        CollectedInReadingOrder(heightOf, blocks, n.entries[i].sub.value, key, n.height);
      }
    }
  }

  /** Every collected node is needed: without any one of them the lookup gets stuck. */
  lemma {:induction false} ProofMinimal(heightOf: Key -> nat, blocks: map<Cid, Block>, n: Node, key: Key, c: Cid,
                                        limit: nat)
    requires Proper(heightOf, n) && Loaded(blocks, n) && n.height < limit
    requires c in PathCids(heightOf, n, key)
    ensures Lookup(heightOf, blocks - {c}, n.cid.value, key, limit) == MissingBlock(c)
    decreases n
  {
    if c != n.cid.value {
      LowerKey(heightOf, n, key);
      CoveringLinkOf(n, key);
      var i := Covering(n.entries, key);
      ProofMinimal(heightOf, blocks, n.entries[i].sub.value, key, c, n.height);
    }
  }

  /** A proof has at most one node per level of the tree. */
  lemma {:induction false} ProofLength(heightOf: Key -> nat, n: Node, key: Key)
    requires Proper(heightOf, n)
    ensures |PathCids(heightOf, n, key)| <= n.height + 1
    decreases n
  {
    if heightOf(key) < n.height {
      LowerKey(heightOf, n, key);
      var i := Covering(n.entries, key);
      if i >= 0 {
        ProofLength(heightOf, n.entries[i].sub.value, key);
      }
    }
  }
}
