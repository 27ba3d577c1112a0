/**
 * extractCBORLinks: the scanner that finds CID links in a DAG-CBOR block without parsing it, and
 * the encoding it has to cope with (RFC 8949 sections 3.1 and 3.4; tag 42 marks a link).
 */
module CborScan {
  import opened Basics

  type Cid = Bytes

  // ---- DAG-CBOR

  datatype Value =
    | UInt(n: nat)
    | NInt(n: nat)
    | ByteString(octets: Bytes)
    | Text(octets: Bytes)
    | Array(items: seq<Value>)
    | Map(entries: seq<Pair>)
    | Link(cid: Cid)
    | Simple(code: Byte)
    | Float(octets: Bytes)

  datatype Pair = Pair(key: Bytes, value: Value)

  function BigEndian(n: nat, width: nat): (r: Bytes)
    ensures |r| == width
  {
    if width == 0 then [] else BigEndian(n / 256, width - 1) + [(n % 256) as Byte]
  }

  /** The initial byte and the argument of a data item, in the shortest form. */
  function Head(major: nat, n: nat): (r: Bytes)
    requires major < 8
    ensures |r| > 0
  {
    if n < 24 then [(32 * major + n) as Byte]
    else if n < 0x100 then [(32 * major + 24) as Byte] + BigEndian(n, 1)
    else if n < 0x1_0000 then [(32 * major + 25) as Byte] + BigEndian(n, 2)
    else if n < 0x1_0000_0000 then [(32 * major + 26) as Byte] + BigEndian(n, 4)
    else [(32 * major + 27) as Byte] + BigEndian(n, 8)
  }

  /** Tag 42 around a byte string that holds the CID after a zero octet. */
  function EncodeLink(cid: Cid): Bytes {
    [0xd8, 0x2a] + Head(2, 1 + |cid|) + [0] + cid
  }

  function Encode(v: Value): Bytes {
    match v
    case UInt(n) => Head(0, n)
    case NInt(n) => Head(1, n)
    case ByteString(b) => Head(2, |b|) + b
    case Text(b) => Head(3, |b|) + b
    case Array(items) => Head(4, |items|) + EncodeItems(items)
    case Map(entries) => Head(5, |entries|) + EncodePairs(entries)
    case Link(c) => EncodeLink(c)
    case Simple(code) => [code]
    case Float(b) => [0xfb] + b
  }

  function EncodeItems(items: seq<Value>): Bytes {
    if items == [] then [] else Encode(items[0]) + EncodeItems(items[1..])
  }

  function EncodePairs(entries: seq<Pair>): Bytes {
    if entries == [] then []
    else EncodePair(entries[0]) + EncodePairs(entries[1..])
  }

  function EncodePair(p: Pair): Bytes {
    Head(3, |p.key|) + p.key + Encode(p.value)
  }

  /** The links of a value in the order of its encoding. */
  function Links(v: Value): seq<Cid> {
    match v
    case Array(items) => LinksOfItems(items)
    case Map(entries) => LinksOfPairs(entries)
    case Link(c) => [c]
    case _ => []
  }

  function LinksOfItems(items: seq<Value>): seq<Cid> {
    if items == [] then [] else Links(items[0]) + LinksOfItems(items[1..])
  }

  function LinksOfPairs(entries: seq<Pair>): seq<Cid> {
    if entries == [] then [] else Links(entries[0].value) + LinksOfPairs(entries[1..])
  }

  // ---- the scanner

  /** Where the byte string that starts at `pos` has its content, and how long it is. */
  function Content(data: Bytes, pos: nat): Option<(nat, nat)>
    requires pos < |data|
  {
    var info := (data[pos] % 32) as nat;
    if data[pos] / 32 != 2 then None
    else if info < 24 then Some((pos + 1, info))
    else if info == 24 then
      if pos + 1 >= |data| then None else Some((pos + 2, data[pos + 1] as nat))
    else if info == 25 then
      if pos + 2 >= |data| then None else Some((pos + 3, 256 * (data[pos + 1] as nat) + data[pos + 2] as nat))
    else None
  }

  /** The link the scanner reports for index i; `isCid` says what cid.Cast accepts. */
  function ScanAt(isCid: Bytes -> bool, data: Bytes, i: nat): Option<Cid> {
    if i + 2 >= |data| || data[i] != 0xd8 || data[i + 1] != 0x2a then None
    else
      var at := Content(data, i + 2);
      if at.None? then None
      else
        var (pos, len) := at.value;
        if pos + len > |data| || len < 2 then None
        else
          var bytes := if data[pos] == 0 then data[pos + 1..pos + len] else data[pos..pos + len];
          if isCid(bytes) then Some(bytes) else None
  }

  function ScanRange(isCid: Bytes -> bool, data: Bytes, lo: nat, hi: nat): seq<Cid>
    decreases hi - lo
  {
    if lo >= hi then []
    else
      var here := ScanAt(isCid, data, lo);
      (if here.Some? then [here.value] else []) + ScanRange(isCid, data, lo + 1, hi)
  }

  function Scan(isCid: Bytes -> bool, data: Bytes): seq<Cid> {
    ScanRange(isCid, data, 0, |data|)
  }

  lemma {:induction false} ScanSplit(isCid: Bytes -> bool, data: Bytes, lo: nat, mid: nat, hi: nat)
    requires lo <= mid <= hi
    ensures ScanRange(isCid, data, lo, hi) == ScanRange(isCid, data, lo, mid) + ScanRange(isCid, data, mid, hi)
    decreases mid - lo
  {
    if lo < mid {
      ScanSplit(isCid, data, lo + 1, mid, hi);
    }
  }

  method ExtractCBORLinks(isCid: Bytes -> bool, data: Bytes) returns (links: seq<Cid>)
    ensures links == Scan(isCid, data)
  {
    links := [];
    var i := 0;
    while i + 2 < |data|
      invariant i <= |data|
      invariant links == ScanRange(isCid, data, 0, i)
    {
      ScanSplit(isCid, data, 0, i, i + 1);
      var link := LinkAt(isCid, data, i);
      if link.Some? {
        links := links + [link.value];
      }
      i := i + 1;
    }
    ScanSplit(isCid, data, 0, i, |data|);
    ScanTail(isCid, data, i);
  }

  /** The body of the loop, with its early exits. */
  method LinkAt(isCid: Bytes -> bool, data: Bytes, i: nat) returns (link: Option<Cid>)
    requires i + 2 < |data|
    ensures link == ScanAt(isCid, data, i)
  {
    if data[i] != 0xd8 || data[i + 1] != 0x2a {
      return None;
    }
    var content := ContentAt(data, i + 2);
    if content.None? {
      return None;
    }
    var (pos, bsLen) := content.value;
    if pos + bsLen > |data| || bsLen < 2 {
      return None;
    }
    var cidBytes := data[pos..pos + bsLen];
    if cidBytes[0] == 0 {
      cidBytes := cidBytes[1..];
      assert cidBytes == data[pos + 1..pos + bsLen];
    }
    return if isCid(cidBytes) then Some(cidBytes) else None;
  }

  /** The part of the loop body that reads the length of the byte string. */
  method ContentAt(data: Bytes, start: nat) returns (content: Option<(nat, nat)>)
    requires start < |data|
    ensures content == Content(data, start)
  {
    var pos, bsLen: nat := start, 0;
    var major, info := 32 * (data[pos] / 32), data[pos] % 32;
    if major != 0x40 {
      return None;
    }
    if info < 24 {
      bsLen := info as nat;
      pos := pos + 1;
    } else if info == 24 {
      if pos + 1 >= |data| {
        return None;
      }
      bsLen := data[pos + 1] as nat;
      pos := pos + 2;
    } else if info == 25 {
      if pos + 2 >= |data| {
        return None;
      }
      bsLen := 256 * (data[pos + 1] as nat) + data[pos + 2] as nat;
      pos := pos + 3;
    } else {
      return None;
    }
    return Some((pos, bsLen));
  }

  /** Nothing is reported for the last two indices. */
  lemma {:induction false} ScanTail(isCid: Bytes -> bool, data: Bytes, i: nat)
    requires i + 2 >= |data|
    ensures ScanRange(isCid, data, i, |data|) == []
    decreases |data| - i
  {
    if i < |data| {
      ScanTail(isCid, data, i + 1);
    }
  }

  // ---- completeness

  /** `a` occurs in `b` in order, possibly with other elements in between. */
  predicate Subsequence(a: seq<Cid>, b: seq<Cid>) {
    a == [] || (b != [] && if a[0] == b[0] then Subsequence(a[1..], b[1..]) else Subsequence(a, b[1..]))
  }

  lemma {:induction false} SubsequenceTail(a: seq<Cid>, b: seq<Cid>)
    requires a != [] && Subsequence(a, b)
    ensures Subsequence(a[1..], b)
    decreases |b|, 0
  {
    if a[0] == b[0] {
      SubsequencePrepend(b[0], a[1..], b[1..]);
      assert b == [b[0]] + b[1..];
    } else {
      SubsequenceTail(a, b[1..]);
      SubsequencePrepend(b[0], a[1..], b[1..]);
      assert b == [b[0]] + b[1..];
    }
  }

  lemma {:induction false} SubsequencePrepend(x: Cid, a: seq<Cid>, b: seq<Cid>)
    requires Subsequence(a, b)
    ensures Subsequence(a, [x] + b)
    decreases |b|, 1
  {
    assert ([x] + b)[1..] == b;
    if a != [] && a[0] == x {
      SubsequenceTail(a, b);
    }
  }

  /** A CID the library accepts and whose byte string the scanner's length forms cover. */
  predicate Scannable(isCid: Bytes -> bool, c: Cid) {
    c != [] && isCid(c) && |c| + 1 < 0x1_0000
  }

  /** The links of `links` that are scannable, in order. */
  function ScannableOf(isCid: Bytes -> bool, links: seq<Cid>): seq<Cid> {
    if links == [] then []
    else (if Scannable(isCid, links[0]) then [links[0]] else []) + ScannableOf(isCid, links[1..])
  }

  /** `data` holds `part` at index `at`. */
  predicate HasAt(data: Bytes, at: nat, part: Bytes) {
    at + |part| <= |data| && forall k :: 0 <= k < |part| ==> part[k] == data[at + k]
  }

  lemma HasParts(data: Bytes, at: nat, a: Bytes, b: Bytes)
    requires HasAt(data, at, a + b)
    ensures HasAt(data, at, a) && HasAt(data, at + |a|, b)
  {
    assert forall k :: 0 <= k < |a| ==> (a + b)[k] == a[k];
    forall k | 0 <= k < |b| ensures b[k] == data[at + |a| + k] {
      assert (a + b)[|a| + k] == b[k];
    }
  }

  /** The scanner reads a byte string's length whenever it is below 64 KiB. */
  lemma ContentOfHead(data: Bytes, i: nat, n: nat)
    requires HasAt(data, i, Head(2, n))
    ensures Content(data, i) == if n < 0x1_0000 then Some((i + |Head(2, n)|, n)) else None
  {
    var head := Head(2, n);
    assert data[i] == head[0];
    if 24 <= n < 0x100 {
      assert BigEndian(n, 1) == BigEndian(n / 256, 0) + [(n % 256) as Byte];
      assert data[i + 1] == head[1];
    } else if 0x100 <= n < 0x1_0000 {
      assert BigEndian(n, 2) == BigEndian(n / 256, 1) + [(n % 256) as Byte];
      assert BigEndian(n / 256, 1) == BigEndian(n / 256 / 256, 0) + [(n / 256 % 256) as Byte];
      assert data[i + 1] == head[1] && data[i + 2] == head[2];
    }
  }

  lemma HasByte(data: Bytes, at: nat, b: Byte, rest: Bytes)
    requires HasAt(data, at, [b] + rest)
    ensures at < |data| && data[at] == b && HasAt(data, at + 1, rest)
  {
    HasParts(data, at, [b], rest);
    assert [b][0] == data[at + 0];
  }

  /** Where the parts of an encoded link lie. */
  lemma LinkParts(data: Bytes, at: nat, head: Bytes, c: Cid)
    requires HasAt(data, at, [0xd8] + ([0x2a] + (head + ([0] + c))))
    ensures at + 2 <= at + 2 + |head| < |data| && data[at] == 0xd8 && data[at + 1] == 0x2a
    ensures HasAt(data, at + 2, head) && data[at + 2 + |head|] == 0 && HasAt(data, at + 2 + |head| + 1, c)
  {
    HasByte(data, at, 0xd8, [0x2a] + (head + ([0] + c)));
    HasByte(data, at + 1, 0x2a, head + ([0] + c));
    HasParts(data, at + 2, head, [0] + c);
    HasByte(data, at + 2 + |head|, 0, c);
  }

  lemma LinkSplits(c: Cid)
    ensures EncodeLink(c) == [0xd8] + ([0x2a] + (Head(2, |c| + 1) + ([0] + c)))
  {
  }

  /** An encoded link as the scanner reads it; `size` is the length of the head of its byte string. */
  lemma LinkLies(data: Bytes, at: nat, c: Cid) returns (size: nat)
    requires HasAt(data, at, EncodeLink(c))
    ensures 0 < size && at + 2 + size < |data| && data[at] == 0xd8 && data[at + 1] == 0x2a
    ensures data[at + 2 + size] == 0 && HasAt(data, at + 2 + size + 1, c)
    ensures Content(data, at + 2) == if |c| + 1 < 0x1_0000 then Some((at + 2 + size, |c| + 1)) else None
  {
    LinkSplits(c);
    LinkParts(data, at, Head(2, |c| + 1), c);
    ContentOfHead(data, at + 2, |c| + 1);
    size := |Head(2, |c| + 1)|;
  }

  /** A link at any place of any block is reported exactly when it is scannable. */
  lemma {:induction false} LinkFoundIff(isCid: Bytes -> bool, data: Bytes, at: nat, c: Cid)
    requires HasAt(data, at, EncodeLink(c))
    ensures ScanAt(isCid, data, at) == if Scannable(isCid, c) then Some(c) else None
  {
    var size := LinkLies(data, at, c);
    ScanOfContent(isCid, data, at, size, c);
  }

  lemma ScanOfContent(isCid: Bytes -> bool, data: Bytes, at: nat, size: nat, c: Cid)
    requires 0 < size && at + 2 + size < |data| && data[at] == 0xd8 && data[at + 1] == 0x2a
    requires data[at + 2 + size] == 0 && HasAt(data, at + 2 + size + 1, c)
    requires Content(data, at + 2) == if |c| + 1 < 0x1_0000 then Some((at + 2 + size, |c| + 1)) else None
    ensures ScanAt(isCid, data, at) == if Scannable(isCid, c) then Some(c) else None
  {
    var pos := at + 2 + size;
    assert data[pos + 1..pos + 1 + |c|] == c;
  }

  // ---- what is reported, over a whole block

  /** The indices at which the encoding of a value has its links; the encoding starts at `at`. */
  function LinkPositions(v: Value, at: nat): seq<nat> {
    match v
    case Array(items) => ItemPositions(items, at + |Head(4, |items|)|)
    case Map(entries) => PairPositions(entries, at + |Head(5, |entries|)|)
    case Link(_) => [at]
    case _ => []
  }

  function ItemPositions(items: seq<Value>, at: nat): seq<nat> {
    if items == [] then []
    else LinkPositions(items[0], at) + ItemPositions(items[1..], at + |Encode(items[0])|)
  }

  function PairPositions(entries: seq<Pair>, at: nat): seq<nat> {
    if entries == [] then []
    else
      var p := entries[0];
      LinkPositions(p.value, at + |Head(3, |p.key|) + p.key|) + PairPositions(entries[1..], at + |EncodePair(p)|)
  }

  /** Between `lo` and `hi`, `here` holds of the links `links` at the ascending indices `at`. */
  predicate Placed(here: (nat, Cid) -> bool, lo: nat, hi: nat, links: seq<Cid>, at: seq<nat>) {
    && |at| == |links|
    && (forall i :: 0 <= i < |at| ==> lo <= at[i] < hi)
    && (forall i, j :: 0 <= i < j < |at| ==> at[i] < at[j])
    && (forall i :: 0 <= i < |at| ==> here(at[i], links[i]))
  }

  /** `here` holds wherever the block has an encoded link. */
  ghost predicate HoldsAtLinks(here: (nat, Cid) -> bool, data: Bytes) {
    forall i, c {:trigger HasAt(data, i, EncodeLink(c))} :: HasAt(data, i, EncodeLink(c)) ==> here(i, c)
  }

  lemma PlacedConcat(here: (nat, Cid) -> bool, lo: nat, mid: nat, hi: nat,
                     a: seq<Cid>, at: seq<nat>, b: seq<Cid>, bt: seq<nat>)
    requires lo <= mid <= hi && Placed(here, lo, mid, a, at) && Placed(here, mid, hi, b, bt)
    ensures Placed(here, lo, hi, a + b, at + bt)
  {
  }

  lemma LinkPlaced(here: (nat, Cid) -> bool, lo: nat, hi: nat, c: Cid)
    requires here(lo, c) && lo < hi
    ensures Placed(here, lo, hi, [c], [lo])
  {
  }

  /** The encoding of a value has its links, in order, at the positions of its links. */
  lemma {:induction false} LinksPlaced(here: (nat, Cid) -> bool, data: Bytes, at: nat, v: Value)
    requires HasAt(data, at, Encode(v)) && HoldsAtLinks(here, data)
    ensures Placed(here, at, at + |Encode(v)|, Links(v), LinkPositions(v, at))
    decreases v, 2
  {
    if v.Array? {
      ArrayPlaced(here, data, at, v);
    } else if v.Map? {
      MapPlaced(here, data, at, v);
    } else if v.Link? {
      assert HasAt(data, at, EncodeLink(v.cid));
      LinkPlaced(here, at, at + |Encode(v)|, v.cid);
    }
  }

  /** Where the body of an array or a map lies, and how long the whole is. */
  lemma BodyAt(data: Bytes, at: nat, whole: Bytes, head: Bytes, body: Bytes)
    requires whole == head + body && HasAt(data, at, whole)
    ensures HasAt(data, at + |head|, body) && |whole| == |head| + |body|
  {
    HasParts(data, at, head, body);
  }

  lemma {:induction false} ArrayPlaced(here: (nat, Cid) -> bool, data: Bytes, at: nat, v: Value)
    requires v.Array? && HasAt(data, at, Encode(v)) && HoldsAtLinks(here, data)
    ensures Placed(here, at, at + |Encode(v)|, Links(v), LinkPositions(v, at))
    decreases v, 1
  {
    BodyAt(data, at, Encode(v), Head(4, |v.items|), EncodeItems(v.items));
    BodyPlaced(here, data, at, v, |Head(4, |v.items|)|, |Encode(v)|);
  }

  lemma {:induction false} BodyPlaced(here: (nat, Cid) -> bool, data: Bytes, at: nat, v: Value, head: nat, size: nat)
    requires v.Array? && size == head + |EncodeItems(v.items)|
    requires HasAt(data, at + head, EncodeItems(v.items)) && HoldsAtLinks(here, data)
    ensures Placed(here, at, at + size, LinksOfItems(v.items), ItemPositions(v.items, at + head))
    decreases v, 0, |v.items| + 1
  {
    ItemsPlaced(here, data, at + head, v, v.items);
  }

  lemma {:induction false} MapPlaced(here: (nat, Cid) -> bool, data: Bytes, at: nat, v: Value)
    requires v.Map? && HasAt(data, at, Encode(v)) && HoldsAtLinks(here, data)
    ensures Placed(here, at, at + |Encode(v)|, Links(v), LinkPositions(v, at))
    decreases v, 1
  {
    BodyAt(data, at, Encode(v), Head(5, |v.entries|), EncodePairs(v.entries));
    PairBodyPlaced(here, data, at, v, |Head(5, |v.entries|)|, |Encode(v)|);
  }

  lemma {:induction false} PairBodyPlaced(here: (nat, Cid) -> bool, data: Bytes, at: nat, v: Value,
                                          head: nat, size: nat)
    requires v.Map? && size == head + |EncodePairs(v.entries)|
    requires HasAt(data, at + head, EncodePairs(v.entries)) && HoldsAtLinks(here, data)
    ensures Placed(here, at, at + size, LinksOfPairs(v.entries), PairPositions(v.entries, at + head))
    decreases v, 0, |v.entries| + 1
  {
    PairsPlaced(here, data, at + head, v, v.entries);
  }

  lemma {:induction false} ItemsPlaced(here: (nat, Cid) -> bool, data: Bytes, at: nat, v: Value, items: seq<Value>)
    requires v.Array? && forall w :: w in items ==> w in v.items
    requires HasAt(data, at, EncodeItems(items)) && HoldsAtLinks(here, data)
    ensures Placed(here, at, at + |EncodeItems(items)|, LinksOfItems(items), ItemPositions(items, at))
    decreases v, 0, |items|
  {
    if items != [] {
      var first := Encode(items[0]);
      assert items[0] in v.items;
      HasParts(data, at, first, EncodeItems(items[1..]));
      LinksPlaced(here, data, at, items[0]);
      ItemsPlaced(here, data, at + |first|, v, items[1..]);
      PlacedConcat(here, at, at + |first|, at + |EncodeItems(items)|,
                   Links(items[0]), LinkPositions(items[0], at),
                   LinksOfItems(items[1..]), ItemPositions(items[1..], at + |first|));
    }
  }

  lemma {:induction false} PairsPlaced(here: (nat, Cid) -> bool, data: Bytes, at: nat, v: Value, entries: seq<Pair>)
    requires v.Map? && forall e :: e in entries ==> e in v.entries
    requires HasAt(data, at, EncodePairs(entries)) && HoldsAtLinks(here, data)
    ensures Placed(here, at, at + |EncodePairs(entries)|, LinksOfPairs(entries), PairPositions(entries, at))
    decreases v, 0, |entries|
  {
    if entries != [] {
      var p := entries[0];
      var key, first := Head(3, |p.key|) + p.key, EncodePair(p);
      assert p in v.entries;
      HasParts(data, at, first, EncodePairs(entries[1..]));
      HasParts(data, at, key, Encode(p.value));
      LinksPlaced(here, data, at + |key|, p.value);
      PairsPlaced(here, data, at + |first|, v, entries[1..]);
      PlacedConcat(here, at, at + |first|, at + |EncodePairs(entries)|,
                   Links(p.value), LinkPositions(p.value, at + |key|),
                   LinksOfPairs(entries[1..]), PairPositions(entries[1..], at + |first|));
    }
  }

  // ---- the reports of a scanner that is right about links, whatever it says elsewhere

  type Scanner = nat -> Option<Cid>

  function Reports(scan: Scanner, lo: nat, hi: nat): seq<Cid>
    decreases hi - lo
  {
    if lo >= hi then []
    else (if scan(lo).Some? then [scan(lo).value] else []) + Reports(scan, lo + 1, hi)
  }

  lemma {:induction false} ScanIsReports(isCid: Bytes -> bool, data: Bytes, scan: Scanner, lo: nat, hi: nat)
    requires forall i :: scan(i) == ScanAt(isCid, data, i)
    ensures Reports(scan, lo, hi) == ScanRange(isCid, data, lo, hi)
    decreases hi - lo
  {
    if lo < hi {
      ScanIsReports(isCid, data, scan, lo + 1, hi);
    }
  }

  /** The scanner reports a scannable link where it is, and not the others. */
  ghost predicate RightAboutLinks(isCid: Bytes -> bool, scan: Scanner, here: (nat, Cid) -> bool) {
    forall i, c {:trigger here(i, c)} :: here(i, c) ==> scan(i) == if Scannable(isCid, c) then Some(c) else None
  }

  /** Between `lo` and `hi`, the scanner reports something only at the indices `at`. */
  ghost predicate OnlyAt(scan: Scanner, lo: nat, hi: nat, at: seq<nat>) {
    forall i :: lo <= i < hi && scan(i).Some? ==> i in at
  }

  /**
   * Over any stretch of a block the scannable links are reported in order, and nothing else is if
   * and only if nothing is reported where no link is.
   */
  lemma {:induction false} StretchScanned(isCid: Bytes -> bool, scan: Scanner, here: (nat, Cid) -> bool,
                                          lo: nat, hi: nat, links: seq<Cid>, at: seq<nat>)
    requires Placed(here, lo, hi, links, at) && RightAboutLinks(isCid, scan, here)
    ensures Subsequence(ScannableOf(isCid, links), Reports(scan, lo, hi))
    ensures Reports(scan, lo, hi) == ScannableOf(isCid, links) <==> OnlyAt(scan, lo, hi, at)
    decreases hi - lo
  {
    if lo < hi {
      if at != [] && at[0] == lo {
        StretchScanned(isCid, scan, here, lo + 1, hi, links[1..], at[1..]);
        assert here(at[0], links[0]);
        LinkHere(isCid, scan, lo, hi, links, at);
      } else {
        StretchScanned(isCid, scan, here, lo + 1, hi, links, at);
        NoLinkHere(scan, lo, hi, ScannableOf(isCid, links), at);
      }
    } else {
      assert links == [];
    }
  }

  lemma {:induction false} LinkHere(isCid: Bytes -> bool, scan: Scanner, lo: nat, hi: nat,
                                    links: seq<Cid>, at: seq<nat>)
    requires lo < hi && links != [] && at != [] && at[0] == lo
    requires scan(lo) == if Scannable(isCid, links[0]) then Some(links[0]) else None
    requires Subsequence(ScannableOf(isCid, links[1..]), Reports(scan, lo + 1, hi))
    requires Reports(scan, lo + 1, hi) == ScannableOf(isCid, links[1..]) <==> OnlyAt(scan, lo + 1, hi, at[1..])
    ensures Subsequence(ScannableOf(isCid, links), Reports(scan, lo, hi))
    ensures Reports(scan, lo, hi) == ScannableOf(isCid, links) <==> OnlyAt(scan, lo, hi, at)
  {
    var c, rest, others := links[0], Reports(scan, lo + 1, hi), ScannableOf(isCid, links[1..]);
    assert OnlyAt(scan, lo, hi, at) <==> OnlyAt(scan, lo + 1, hi, at[1..]) by {
      assert forall i :: i > lo ==> (i in at <==> i in at[1..]);
      assert lo in at;
    }
    var prefix: seq<Cid> := if Scannable(isCid, c) then [c] else [];
    assert Reports(scan, lo, hi) == prefix + rest && ScannableOf(isCid, links) == prefix + others;
    assert (prefix + rest)[|prefix|..] == rest && (prefix + others)[|prefix|..] == others;
  }

  lemma {:induction false} NoLinkHere(scan: Scanner, lo: nat, hi: nat, found: seq<Cid>, at: seq<nat>)
    requires lo < hi && lo !in at
    requires Subsequence(found, Reports(scan, lo + 1, hi))
    requires Reports(scan, lo + 1, hi) == found <==> OnlyAt(scan, lo + 1, hi, at)
    ensures Subsequence(found, Reports(scan, lo, hi))
    ensures Reports(scan, lo, hi) == found <==> OnlyAt(scan, lo, hi, at)
  {
    var rest := Reports(scan, lo + 1, hi);
    if scan(lo).Some? {
      SubsequencePrepend(scan(lo).value, found, rest);
      SubsequenceShorter(found, rest);
      assert Reports(scan, lo, hi) == [scan(lo).value] + rest;
    } else {
      assert Reports(scan, lo, hi) == [] + rest;
      assert [] + rest == rest;
    }
  }

  lemma {:induction false} SubsequenceShorter(a: seq<Cid>, b: seq<Cid>)
    requires Subsequence(a, b)
    ensures |a| <= |b|
    decreases |b|
  {
    if a != [] {
      SubsequenceShorter(if a[0] == b[0] then a[1..] else a, b[1..]);
    }
  }

  /** No octets of the block look like an accepted link except where a link is. */
  ghost predicate NoLookAlikes(isCid: Bytes -> bool, v: Value) {
    forall i :: 0 <= i < |Encode(v)| && ScanAt(isCid, Encode(v), i).Some? ==> i in LinkPositions(v, 0)
  }

  lemma {:induction false} BlockScanned(isCid: Bytes -> bool, v: Value)
    ensures Subsequence(ScannableOf(isCid, Links(v)), Scan(isCid, Encode(v)))
    ensures Scan(isCid, Encode(v)) == ScannableOf(isCid, Links(v)) <==> NoLookAlikes(isCid, v)
  {
    var data := Encode(v);
    var here := (i: nat, c: Cid) => ScanAt(isCid, data, i) == if Scannable(isCid, c) then Some(c) else None;
    var scan := (i: nat) => ScanAt(isCid, data, i);
    forall i, c | HasAt(data, i, EncodeLink(c)) ensures here(i, c) {
      LinkFoundIff(isCid, data, i, c);
    }
    LinksPlaced(here, data, 0, v);
    StretchScanned(isCid, scan, here, 0, |data|, Links(v), LinkPositions(v, 0));
    ScanIsReports(isCid, data, scan, 0, |data|);
  }

  /** Every scannable link of every DAG-CBOR value is reported, in order. */
  lemma {:induction false} ScannerComplete(isCid: Bytes -> bool, v: Value)
    ensures Subsequence(ScannableOf(isCid, Links(v)), Scan(isCid, Encode(v)))
  {
    BlockScanned(isCid, v);
  }

  /** The scanner reports the scannable links and nothing else if and only if the block has no look-alikes. */
  lemma {:induction false} ScannerExactIff(isCid: Bytes -> bool, v: Value)
    ensures Scan(isCid, Encode(v)) == ScannableOf(isCid, Links(v)) <==> NoLookAlikes(isCid, v)
  {
    BlockScanned(isCid, v);
  }

  /** Tag 42 and a complete byte string of two octets or more, in a length form that the scanner knows. */
  predicate Whole(data: Bytes, i: nat) {
    && i + 2 < |data| && data[i] == 0xd8 && data[i + 1] == 0x2a
    && Content(data, i + 2).Some?
    && (var (pos, len) := Content(data, i + 2).value; pos + len <= |data| && len >= 2)
  }

  /** The block has such octets only where a link starts: a check on the octets alone. */
  predicate WholeTagsAtLinks(v: Value) {
    forall i {:trigger Whole(Encode(v), i)} :: 0 <= i < |Encode(v)| && Whole(Encode(v), i) ==> i in LinkPositions(v, 0)
  }

  predicate ExactScan(isCid: Bytes -> bool, v: Value) {
    Scan(isCid, Encode(v)) == ScannableOf(isCid, Links(v))
  }

  lemma OnlyWholeReported(isCid: Bytes -> bool, data: Bytes, i: nat)
    ensures ScanAt(isCid, data, i).Some? ==> Whole(data, i)
    ensures Whole(data, i) ==> ScanAt((b: Bytes) => true, data, i).Some?
  {
  }

  /**
   * Whatever the library accepts as a CID, the scanner reports the scannable links and nothing else, if
   * and only if the block has tagged byte strings only where links start.
   */
  lemma {:induction false} ExactForAllIff(v: Value)
    ensures (forall isCid {:trigger ExactScan(isCid, v)} :: ExactScan(isCid, v)) <==> WholeTagsAtLinks(v)
  {
    var data := Encode(v);
    if WholeTagsAtLinks(v) {
      forall isCid ensures ExactScan(isCid, v) {
        ExactWhenWhole(isCid, v);
      }
    } else {
      var i :| 0 <= i < |data| && Whole(data, i) && i !in LinkPositions(v, 0);
      var all := (b: Bytes) => true;
      OnlyWholeReported(all, data, i);
      ScannerExactIff(all, v);
      assert ScanAt(all, data, i).Some?;
      assert !ExactScan(all, v);
    }
  }

  lemma {:induction false} ExactWhenWhole(isCid: Bytes -> bool, v: Value)
    requires WholeTagsAtLinks(v)
    ensures NoLookAlikes(isCid, v) && ExactScan(isCid, v)
  {
    forall i | 0 <= i < |Encode(v)| && ScanAt(isCid, Encode(v), i).Some?
      ensures i in LinkPositions(v, 0)
    {
      OnlyWholeReported(isCid, Encode(v), i);
    }
    ScannerExactIff(isCid, v);
  }

  lemma {:induction false} SubsequenceMembers(a: seq<Cid>, b: seq<Cid>)
    requires Subsequence(a, b)
    ensures forall c :: c in a ==> c in b
    decreases |b|
  {
    if a != [] {
      SubsequenceMembers(if a[0] == b[0] then a[1..] else a, b[1..]);
      forall c | c in a ensures c in b {
        assert c == a[0] || c in a[1..];
      }
    }
  }

  lemma {:induction false} ScannableOfMembers(isCid: Bytes -> bool, links: seq<Cid>, c: Cid)
    ensures c in ScannableOf(isCid, links) <==> c in links && Scannable(isCid, c)
  {
    if links != [] {
      ScannableOfMembers(isCid, links[1..], c);
      assert c in links <==> c == links[0] || c in links[1..];
    }
  }

  lemma {:induction false} LinkCovered(isCid: Bytes -> bool, v: Value, c: Cid)
    requires c in Links(v) && Scannable(isCid, c)
    ensures c in Scan(isCid, Encode(v))
  {
    ScannerComplete(isCid, v);
    ScannableOfMembers(isCid, Links(v), c);
    SubsequenceMembers(ScannableOf(isCid, Links(v)), Scan(isCid, Encode(v)));
  }

  /** What the scanner reports is a CID the library accepts and shorter than 64 KiB: a longer link is never found. */
  lemma {:induction false} ReportedIsShort(isCid: Bytes -> bool, data: Bytes, lo: nat, hi: nat, c: Cid)
    requires c in ScanRange(isCid, data, lo, hi)
    ensures isCid(c) && 0 < |c| < 0x1_0000
    decreases hi - lo
  {
    if ScanAt(isCid, data, lo) != Some(c) {
      ReportedIsShort(isCid, data, lo + 1, hi, c);
    }
  }

  lemma LongLinkMissed(isCid: Bytes -> bool, c: Cid)
    requires |c| >= 0x1_0000
    ensures c in Links(Link(c)) && c !in Scan(isCid, Encode(Link(c)))
  {
    var data := Encode(Link(c));
    if c in Scan(isCid, data) {
      ReportedIsShort(isCid, data, 0, |data|, c);
    }
  }

  /** The scanner may report more than the links: a byte string that looks like one is taken for one. */
  lemma ScannerOvershoots(isCid: Bytes -> bool, c: Cid)
    requires Scannable(isCid, c)
    ensures var v := ByteString(EncodeLink(c));
            Links(v) == [] && c in Scan(isCid, Encode(v))
  {
    var v := ByteString(EncodeLink(c));
    var head := Head(2, |EncodeLink(c)|);
    HasParts(Encode(v), 0, head, EncodeLink(c));
    LinkFoundIff(isCid, Encode(v), |head|, c);
    ScanSplit(isCid, Encode(v), 0, |head|, |Encode(v)|);
  }
}
