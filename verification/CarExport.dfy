/**
 * The export of a repository as a CAR file: writeRepoBlocksFromBlockstore walks the blocks breadth
 * first from the commit, over the links that the byte scanner finds.
 */
module CarExport {
  import opened Basics
  import opened CborScan

  type Store = map<Cid, Bytes>

  /** What the CID library decides: which octets are a CID, and which CIDs name DAG-CBOR blocks. */
  datatype Cids = Cids(isCid: Bytes -> bool, isDagCbor: Cid -> bool)

  /** The CIDs the walk sees in the block `c`. */
  function LinksOf(cids: Cids, store: Store, c: Cid): seq<Cid> {
    if c in store && cids.isDagCbor(c) then Scan(cids.isCid, store[c]) else []
  }

  // ---- reachability

  type Graph = Cid -> seq<Cid>

  function Scanned(cids: Cids, store: Store): Graph {
    c => LinksOf(cids, store, c)
  }

  predicate Path(graph: Graph, path: seq<Cid>) {
    forall i {:trigger path[i]} :: 0 < i < |path| ==> path[i] in graph(path[i - 1])
  }

  predicate PathTo(graph: Graph, path: seq<Cid>, root: Cid, c: Cid) {
    path != [] && path[0] == root && path[|path| - 1] == c && Path(graph, path)
  }

  ghost predicate Reachable(graph: Graph, root: Cid, c: Cid) {
    exists path :: PathTo(graph, path, root, c)
  }

  lemma RootReachable(graph: Graph, root: Cid)
    ensures Reachable(graph, root, root)
  {
    assert PathTo(graph, [root], root, root);
  }

  lemma LinkReachable(graph: Graph, root: Cid, a: Cid, b: Cid)
    requires Reachable(graph, root, a) && b in graph(a)
    ensures Reachable(graph, root, b)
  {
    var path :| PathTo(graph, path, root, a);
    assert PathTo(graph, path + [b], root, b);
  }

  /** A set that holds the root and is closed under links holds all that is reachable. */
  lemma {:induction false} ReachableInClosed(graph: Graph, root: Cid, closed: set<Cid>, c: Cid)
    requires root in closed
    requires forall a, b :: a in closed && b in graph(a) ==> b in closed
    requires Reachable(graph, root, c)
    ensures c in closed
  {
    var path :| PathTo(graph, path, root, c);
    var i := 0;
    while i < |path| - 1
      invariant i < |path| && path[i] in closed
    {
      i := i + 1;
      assert path[i] in graph(path[i - 1]);
    }
  }

  // ---- the order of first mention

  /** The elements of `s` outside `seen`, each where it first occurs. */
  function Firsts(s: seq<Cid>, seen: set<Cid>): seq<Cid> {
    if s == [] then []
    else if s[0] in seen then Firsts(s[1..], seen)
    else [s[0]] + Firsts(s[1..], seen + {s[0]})
  }

  function SetOf(s: seq<Cid>): set<Cid> {
    set c | c in s
  }

  /** All links of the blocks `out`, block by block. */
  function Mentions(graph: Graph, out: seq<Cid>): seq<Cid> {
    if out == [] then [] else Mentions(graph, out[..|out| - 1]) + graph(out[|out| - 1])
  }

  function Unseen(links: seq<Cid>, visited: set<Cid>): seq<Cid> {
    if links == [] then []
    else (if links[0] in visited then [] else [links[0]]) + Unseen(links[1..], visited)
  }

  lemma {:induction false} FirstsMembers(s: seq<Cid>, seen: set<Cid>)
    ensures SetOf(Firsts(s, seen)) == SetOf(s) - seen
  {
    if s == [] {
    } else {
      assert SetOf(s) == {s[0]} + SetOf(s[1..]) by {
        assert s == [s[0]] + s[1..];
      }
      if s[0] in seen {
        FirstsMembers(s[1..], seen);
      } else {
        var rest := Firsts(s[1..], seen + {s[0]});
        FirstsMembers(s[1..], seen + {s[0]});
        assert SetOf([s[0]] + rest) == {s[0]} + SetOf(rest);
      }
    }
  }

  lemma {:induction false} FirstsConcat(a: seq<Cid>, b: seq<Cid>, seen: set<Cid>)
    ensures Firsts(a + b, seen) == Firsts(a, seen) + Firsts(b, seen + SetOf(a))
  {
    if a == [] {
      assert a + b == b && seen + SetOf(a) == seen;
    } else {
      var more := if a[0] in seen then seen else seen + {a[0]};
      assert (a + b)[1..] == a[1..] + b;
      FirstsConcat(a[1..], b, more);
      assert more + SetOf(a[1..]) == seen + SetOf(a) by {
        assert a == [a[0]] + a[1..];
      }
    }
  }

  /** Leaving out CIDs that are known to be seen changes no first mention. */
  lemma {:induction false} FirstsUnseen(links: seq<Cid>, visited: set<Cid>, seen: set<Cid>)
    requires visited <= seen
    ensures Firsts(Unseen(links, visited), seen) == Firsts(links, seen)
  {
    if links != [] {
      var rest := Unseen(links[1..], visited);
      var more := if links[0] in seen then seen else seen + {links[0]};
      FirstsUnseen(links[1..], visited, more);
      if links[0] in visited {
        assert [] + rest == rest;
      } else {
        assert ([links[0]] + rest)[1..] == rest;
      }
    }
  }

  lemma {:induction false} UnseenSnoc(links: seq<Cid>, visited: set<Cid>, i: nat)
    requires i < |links|
    ensures Unseen(links[..i + 1], visited)
         == Unseen(links[..i], visited) + if links[i] in visited then [] else [links[i]]
  {
    if i > 0 {
      UnseenSnoc(links[1..], visited, i - 1);
      assert links[..i + 1][1..] == links[1..][..i] && links[..i][1..] == links[1..][..i - 1];
    }
  }

  lemma UnseenMembers(links: seq<Cid>, visited: set<Cid>)
    ensures forall c :: c in Unseen(links, visited) ==> c in links
  {
  }

  // ---- the walk

  /** The root comes first, and every other block after one that links to it. */
  predicate Grown(graph: Graph, root: Cid, out: seq<Cid>) {
    forall i {:trigger out[i]} :: 0 <= i < |out| ==>
      if i == 0 then out[i] == root else out[i] in Mentions(graph, out[..i])
  }

  /** The walk has written `out` and still has `queue` to look at. */
  ghost predicate Walked(graph: Graph, root: Cid, out: seq<Cid>, queue: seq<Cid>) {
    && NoDuplicates(out)
    && Grown(graph, root, out)
    && Firsts([root] + Mentions(graph, out), {}) == out + Firsts(queue, SetOf(out))
    && (forall c :: c in out || c in queue ==> Reachable(graph, root, c))
  }

  /** All that is reachable, once each, the root first, in the order in which earlier blocks mention it. */
  ghost predicate Exact(graph: Graph, root: Cid, out: seq<Cid>) {
    && out != []
    && NoDuplicates(out)
    && (forall c :: c in out <==> Reachable(graph, root, c))
    && Grown(graph, root, out)
    && out == Firsts([root] + Mentions(graph, out), {})
  }

  lemma WalkStarts(graph: Graph, root: Cid)
    ensures Walked(graph, root, [], [root])
  {
    RootReachable(graph, root);
    assert [root] + Mentions(graph, []) == [root];
  }

  lemma WalkSkips(graph: Graph, root: Cid, out: seq<Cid>, queue: seq<Cid>)
    requires Walked(graph, root, out, queue) && queue != [] && queue[0] in out
    ensures Walked(graph, root, out, queue[1..])
  {
  }

  lemma WalkVisits(graph: Graph, root: Cid, out: seq<Cid>, queue: seq<Cid>)
    requires Walked(graph, root, out, queue) && queue != [] && queue[0] !in out
    ensures var next := out + [queue[0]];
            Walked(graph, root, next, queue[1..] + Unseen(graph(queue[0]), SetOf(next)))
  {
    var current := queue[0];
    var links, next := graph(current), out + [current];
    MentionedSoFar(graph, root, out, queue);
    VisitKeepsOrder([root] + Mentions(graph, out), out, queue, links);
    VisitGrows(graph, root, out, queue);
    MentionsSnoc(graph, root, out, current);
    UnseenMembers(links, SetOf(next));
    forall c | c in next || c in queue[1..] + Unseen(links, SetOf(next))
      ensures Reachable(graph, root, c)
    {
      if c in out || c in queue {
      } else {
        assert c in links;
        LinkReachable(graph, root, current, c);
      }
    }
  }

  lemma VisitGrows(graph: Graph, root: Cid, out: seq<Cid>, queue: seq<Cid>)
    requires Walked(graph, root, out, queue) && queue != [] && queue[0] !in out
    ensures Grown(graph, root, out + [queue[0]])
  {
    var next := out + [queue[0]];
    MentionedSoFar(graph, root, out, queue);
    assert queue[0] in SetOf([root] + Mentions(graph, out));
    forall i | 0 <= i < |next|
      ensures if i == 0 then next[i] == root else next[i] in Mentions(graph, next[..i])
    {
      if i < |out| {
        assert next[i] == out[i] && next[..i] == out[..i];
      } else {
        assert next[..i] == out;
        assert out != [] ==> out[0] == root;
        assert out == [] ==> Mentions(graph, out) == [];
      }
    }
  }

  lemma MentionsSnoc(graph: Graph, root: Cid, out: seq<Cid>, c: Cid)
    ensures [root] + Mentions(graph, out + [c]) == [root] + Mentions(graph, out) + graph(c)
  {
    assert (out + [c])[..|out|] == out;
  }

  /** Writing the head of the queue and queueing its unseen links keeps the order of first mention. */
  lemma VisitKeepsOrder(before: seq<Cid>, out: seq<Cid>, queue: seq<Cid>, links: seq<Cid>)
    requires queue != [] && queue[0] !in out
    requires Firsts(before, {}) == out + Firsts(queue, SetOf(out)) && SetOf(before) == SetOf(out) + SetOf(queue)
    ensures var next := out + [queue[0]];
            Firsts(before + links, {}) == next + Firsts(queue[1..] + Unseen(links, SetOf(next)), SetOf(next))
  {
    var q, rest := queue[0], queue[1..];
    var seen := SetOf(out + [q]);
    VisitSets(before, out, queue);
    MentionLinks(before, links);
    QueueLinks(rest, links, seen);
    Regroup(out, q, Firsts(rest, seen), Firsts(links, SetOf(before)));
  }

  lemma MentionLinks(before: seq<Cid>, links: seq<Cid>)
    ensures Firsts(before + links, {}) == Firsts(before, {}) + Firsts(links, SetOf(before))
  {
    FirstsConcat(before, links, {});
    assert {} + SetOf(before) == SetOf(before);
  }

  lemma QueueLinks(rest: seq<Cid>, links: seq<Cid>, seen: set<Cid>)
    ensures Firsts(rest + Unseen(links, seen), seen) == Firsts(rest, seen) + Firsts(links, seen + SetOf(rest))
  {
    FirstsConcat(rest, Unseen(links, seen), seen);
    FirstsUnseen(links, seen, seen + SetOf(rest));
  }

  lemma Regroup(a: seq<Cid>, q: Cid, b: seq<Cid>, c: seq<Cid>)
    ensures a + ([q] + b) + c == a + [q] + (b + c)
  {
  }

  lemma VisitSets(before: seq<Cid>, out: seq<Cid>, queue: seq<Cid>)
    requires queue != [] && SetOf(before) == SetOf(out) + SetOf(queue)
    ensures SetOf(out + [queue[0]]) == SetOf(out) + {queue[0]}
    ensures SetOf(out + [queue[0]]) + SetOf(queue[1..]) == SetOf(before)
    ensures SetOf(out + [queue[0]]) <= SetOf(before)
  {
    assert queue == [queue[0]] + queue[1..];
  }

  /** What was mentioned so far is what was written or is waiting. */
  lemma MentionedSoFar(graph: Graph, root: Cid, out: seq<Cid>, queue: seq<Cid>)
    requires Walked(graph, root, out, queue)
    ensures SetOf([root] + Mentions(graph, out)) == SetOf(out) + SetOf(queue)
  {
    var mentioned := [root] + Mentions(graph, out);
    FirstsMembers(mentioned, {});
    FirstsMembers(queue, SetOf(out));
    assert SetOf(out + Firsts(queue, SetOf(out))) == SetOf(out) + SetOf(Firsts(queue, SetOf(out)));
  }

  lemma {:induction false} MentionsMembers(graph: Graph, out: seq<Cid>, a: Cid, b: Cid)
    requires a in out && b in graph(a)
    ensures b in Mentions(graph, out)
  {
    if a != out[|out| - 1] {
      MentionsMembers(graph, out[..|out| - 1], a, b);
    }
  }

  /** A walk that ends has written what is reachable, in the order of first mention. */
  lemma WalkEnds(graph: Graph, root: Cid, out: seq<Cid>)
    requires Walked(graph, root, out, [])
    ensures Exact(graph, root, out)
  {
    MentionedSoFar(graph, root, out, []);
    assert root in SetOf([root] + Mentions(graph, out));
    assert ([root] + Mentions(graph, out))[0] == root;
    forall a, b | a in SetOf(out) && b in graph(a) ensures b in SetOf(out) {
      MentionsMembers(graph, out, a, b);
      assert b in SetOf([root] + Mentions(graph, out));
    }
    forall c | Reachable(graph, root, c) ensures c in out {
      ReachableInClosed(graph, root, SetOf(out), c);
    }
  }

  /** The CIDs of written blocks. */
  function Names(blocks: seq<(Cid, Bytes)>): (r: seq<Cid>)
    ensures |r| == |blocks| && forall i :: 0 <= i < |r| ==> r[i] == blocks[i].0
  {
    seq(|blocks|, i requires 0 <= i < |blocks| => blocks[i].0)
  }

  lemma AllStored(graph: Graph, store: Store, root: Cid, buf: seq<(Cid, Bytes)>)
    requires Exact(graph, root, Names(buf))
    requires forall block :: block in buf ==> block.0 in store && store[block.0] == block.1
    ensures forall c :: Reachable(graph, root, c) ==> c in store
  {
    forall c | c in Names(buf) ensures c in store {
      var i :| 0 <= i < |buf| && Names(buf)[i] == c;
      assert buf[i] in buf;
    }
  }

  lemma NamesSnoc(buf: seq<(Cid, Bytes)>, block: (Cid, Bytes))
    ensures Names(buf + [block]) == Names(buf) + [block.0]
    ensures SetOf(Names(buf + [block])) == SetOf(Names(buf)) + {block.0}
  {
    assert Names(buf + [block]) == Names(buf) + [block.0];
  }

  /**
   * On success the CAR holds every reachable block once, the root first and the others in the order
   * in which the blocks before them mention them; it fails just when a reachable block is missing.
   */
  method WriteRepoBlocks(cids: Cids, store: Store, root: Cid) returns (r: Result<seq<(Cid, Bytes)>, Cid>)
    ensures r.Err? <==> exists c :: Reachable(Scanned(cids, store), root, c) && c !in store
    ensures r.Err? ==> Reachable(Scanned(cids, store), root, r.error) && r.error !in store
    ensures r.Ok? ==>
      && Exact(Scanned(cids, store), root, Names(r.value))
      && (forall block :: block in r.value ==> block.0 in store && store[block.0] == block.1)
  {
    ghost var graph := Scanned(cids, store);
    var visited: set<Cid>, queue, buf := {}, [root], [];
    WalkStarts(graph, root);
    while queue != []
      invariant visited == SetOf(Names(buf))
      invariant Walked(graph, root, Names(buf), queue)
      invariant forall block :: block in buf ==> block.0 in store && store[block.0] == block.1
      decreases store.Keys - visited, |queue|
    {
      var current := queue[0];
      ghost var was, out := queue, Names(buf);
      queue := queue[1..];
      if current in visited {
        WalkSkips(graph, root, out, was);
        continue;
      }
      visited := visited + {current};
      if current !in store {
        assert current in was;
        return Err(current);
      }
      NamesSnoc(buf, (current, store[current]));
      buf := buf + [(current, store[current])];
      WalkVisits(graph, root, out, was);
      if cids.isDagCbor(current) {
        var links := ExtractCBORLinks(cids.isCid, store[current]);
        queue := AppendUnseen(queue, links, visited);
      } else {
        assert queue + [] == queue;
      }
    }
    WalkEnds(graph, root, Names(buf));
    AllStored(graph, store, root, buf);
    return Ok(buf);
  }

  method AppendUnseen(waiting: seq<Cid>, links: seq<Cid>, visited: set<Cid>) returns (queue: seq<Cid>)
    ensures queue == waiting + Unseen(links, visited)
  {
    queue := waiting;
    for i := 0 to |links|
      invariant queue == waiting + Unseen(links[..i], visited)
    {
      UnseenSnoc(links, visited, i);
      if links[i] !in visited {
        queue := queue + [links[i]];
      }
    }
    assert links[..|links|] == links;
  }

  // ---- the links that are meant

  /** The DAG as the encoder wrote it. */
  function Linked(values: map<Cid, Value>): Graph {
    c => if c in values then Links(values[c]) else []
  }

  /** Every block that is truly linked from the root is reachable for the walk, hence exported. */
  lemma {:induction false} TrueLinksCovered(cids: Cids, store: Store, values: map<Cid, Value>, root: Cid, c: Cid)
    requires forall a :: a in values ==> a in store && cids.isDagCbor(a) && store[a] == Encode(values[a])
    requires forall a, b :: a in values && b in Links(values[a]) ==> Scannable(cids.isCid, b)
    requires Reachable(Linked(values), root, c)
    ensures Reachable(Scanned(cids, store), root, c)
  {
    var path :| PathTo(Linked(values), path, root, c);
    forall i | 0 < i < |path| ensures path[i] in Scanned(cids, store)(path[i - 1]) {
      assert path[i] in Linked(values)(path[i - 1]);
      LinkCovered(cids.isCid, values[path[i - 1]], path[i]);
    }
    assert PathTo(Scanned(cids, store), path, root, c);
  }

  // ---- when the export is exactly the DAG that is meant

  /** The store holds the encoding of a value, with scannable links, under `a`, or no DAG-CBOR block at all. */
  predicate Encoded(cids: Cids, store: Store, values: map<Cid, Value>, a: Cid) {
    && (a in values <==> a in store && cids.isDagCbor(a))
    && (a in values ==> store[a] == Encode(values[a]) &&
                        forall b :: b in Links(values[a]) ==> Scannable(cids.isCid, b))
  }

  lemma {:induction false} AllScannable(isCid: Bytes -> bool, links: seq<Cid>)
    requires forall c :: c in links ==> Scannable(isCid, c)
    ensures ScannableOf(isCid, links) == links
  {
    if links != [] {
      AllScannable(isCid, links[1..]);
    }
  }

  lemma {:induction false} BlockIsTrueIff(cids: Cids, store: Store, values: map<Cid, Value>, a: Cid)
    requires Encoded(cids, store, values, a)
    ensures Scanned(cids, store)(a) == Linked(values)(a)
        <==> (a in values ==> NoLookAlikes(cids.isCid, values[a]))
  {
    if a in values {
      ScannerExactIff(cids.isCid, values[a]);
      AllScannable(cids.isCid, Links(values[a]));
    }
  }

  /** Two graphs with the same links at everything that the first one reaches. */
  ghost predicate SameFrom(g: Graph, h: Graph, root: Cid) {
    forall c {:trigger Reachable(g, root, c)} :: Reachable(g, root, c) ==> g(c) == h(c)
  }

  /**
   * If the blocks that the walk can reach are encoded values with scannable links, it follows the links
   * that are meant, and no others, if and only if none of these blocks has look-alikes.
   */
  lemma {:induction false} WalkIsTrueIff(cids: Cids, store: Store, values: map<Cid, Value>, root: Cid)
    requires forall a :: Reachable(Scanned(cids, store), root, a) ==> Encoded(cids, store, values, a)
    ensures SameFrom(Scanned(cids, store), Linked(values), root)
        <==> forall a {:trigger Reachable(Scanned(cids, store), root, a)} ::
               Reachable(Scanned(cids, store), root, a) && a in values ==> NoLookAlikes(cids.isCid, values[a])
  {
    forall a | Reachable(Scanned(cids, store), root, a)
      ensures Scanned(cids, store)(a) == Linked(values)(a)
          <==> (a in values ==> NoLookAlikes(cids.isCid, values[a]))
    {
      BlockIsTrueIff(cids, store, values, a);
    }
  }

  lemma {:induction false} SameMentions(g: Graph, h: Graph, out: seq<Cid>)
    requires forall c :: c in out ==> g(c) == h(c)
    ensures Mentions(g, out) == Mentions(h, out)
  {
    if out != [] {
      SameMentions(g, h, out[..|out| - 1]);
    }
  }

  lemma {:induction false} SameReachable(g: Graph, h: Graph, root: Cid, path: seq<Cid>, c: Cid)
    requires SameFrom(g, h, root) && PathTo(g, path, root, c)
    ensures PathTo(h, path, root, c)
  {
    forall i | 0 < i < |path| ensures path[i] in h(path[i - 1]) {
      assert PathTo(g, path[..i], root, path[i - 1]);
      assert path[i] in g(path[i - 1]) && Reachable(g, root, path[i - 1]);
    }
  }

  lemma {:induction false} SameExact(g: Graph, h: Graph, root: Cid, out: seq<Cid>)
    requires SameFrom(g, h, root) && Exact(g, root, out)
    ensures Exact(h, root, out)
  {
    assert forall c :: c in out ==> g(c) == h(c);
    SameMentions(g, h, out);
    forall c ensures c in out <==> Reachable(h, root, c) {
      if c in out {
        var path :| PathTo(g, path, root, c);
        SameReachable(g, h, root, path, c);
      } else if Reachable(h, root, c) {
        forall a, b | a in SetOf(out) && b in h(a) ensures b in SetOf(out) {
          assert Reachable(g, root, a) && b in g(a);
          LinkReachable(g, root, a, b);
        }
        RootReachable(g, root);
        ReachableInClosed(h, root, SetOf(out), c);
      }
    }
    forall i | 0 <= i < |out|
      ensures if i == 0 then out[i] == root else out[i] in Mentions(h, out[..i])
    {
      SameMentions(g, h, out[..i]);
    }
  }

  /**
   * If the blocks that the walk can reach are encoded values with scannable links and tagged byte strings
   * nowhere but at their links, an export that succeeds is the DAG that is meant: all of it, each block
   * once, and nothing else. Other blocks of the store do not matter.
   */
  lemma {:induction false} ExportIsTrueDag(cids: Cids, store: Store, values: map<Cid, Value>, root: Cid, out: seq<Cid>)
    requires forall a :: Reachable(Scanned(cids, store), root, a) ==> Encoded(cids, store, values, a)
    requires forall a :: Reachable(Scanned(cids, store), root, a) && a in values ==> WholeTagsAtLinks(values[a])
    requires Exact(Scanned(cids, store), root, out)
    ensures Exact(Linked(values), root, out)
  {
    forall a | Reachable(Scanned(cids, store), root, a) && a in values
      ensures NoLookAlikes(cids.isCid, values[a])
    {
      ExactWhenWhole(cids.isCid, values[a]);
    }
    WalkIsTrueIff(cids, store, values, root);
    SameExact(Scanned(cids, store), Linked(values), root, out);
  }

  /** A look-alike that names a block of the store puts that block into the export of a commit that has no links. */
  lemma LookAlikeExported(cids: Cids, store: Store, c: Cid, root: Cid)
    requires Scannable(cids.isCid, c) && cids.isDagCbor(root) && root in store
    requires store[root] == Encode(ByteString(EncodeLink(c)))
    ensures Reachable(Scanned(cids, store), root, c)
    ensures Links(ByteString(EncodeLink(c))) == []
  {
    ScannerOvershoots(cids.isCid, c);
    RootReachable(Scanned(cids, store), root);
    LinkReachable(Scanned(cids, store), root, root, c);
  }
}
