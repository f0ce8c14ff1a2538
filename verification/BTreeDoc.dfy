/** The tree's document: nested, checksummed pages. */
module BTreeDoc {
  import opened Types
  import opened Codec
  import opened Crc
  import opened BTree
  import opened BTreeStore

  const MAGIC: nat := 0x4254_5252
  const MAX_DEPTH: nat := 64

  // ---- a checksummed envelope: the magic, a body, the body's checksum ----

  function Wrap(body: Bytes): (b: Bytes)
    ensures |b| == |body| + 8
  {
    U32(MAGIC) + (body + U32(Crc32(body)))
  }

  function Unwrap(b: Bytes): (body: Option<Bytes>)
    ensures body.Some? ==> |body.value| == |b| - 8
  {
    if |b| < 8 || FromLE(b[..4]) != MAGIC then None
    else
      var body, crc := b[4..|b| - 4], FromLE(b[|b| - 4..]);
      if crc != Crc32(body) then None else Some(body)
  }

  lemma UnwrapOf(body: Bytes, crc: nat)
    requires crc < U32_LIMIT
    ensures Unwrap(U32(MAGIC) + (body + U32(crc))) == if crc == Crc32(body) then Some(body) else None
  {
    hide U32, FromLE, Crc32;
    var b := U32(MAGIC) + (body + U32(crc));
    assert b[..4] == U32(MAGIC);
    assert b[4..|b| - 4] == body;
    assert b[|b| - 4..] == U32(crc);
  }

  // ---- writing ----

  function KVLen(es: seq<KV>): nat {
    if es == [] then 0 else 8 + |es[0].key| + |es[0].value| + KVLen(es[1..])
  }

  function KeysLen(keys: seq<Bytes>): nat {
    if keys == [] then 0 else 4 + |keys[0]| + KeysLen(keys[1..])
  }

  /** The size of a node's page. */
  function PageLen(node: Node): nat
    decreases node
  {
    match node
    case Leaf(es) => 8 + 5 + KVLen(es)
    case Internal(keys, children) => 8 + 5 + KeysLen(keys) + 4 + KidsLen(children)
  }

  function KidsLen(children: seq<Node>): nat
    decreases children
  {
    if children == [] then 0 else 8 + PageLen(children[0]) + KidsLen(children[1..])
  }

  predicate KVFits(es: seq<KV>) {
    forall i :: 0 <= i < |es| ==> |es[i].key| < U32_LIMIT && |es[i].value| < U32_LIMIT
  }

  predicate KeysFit(keys: seq<Bytes>) {
    forall i :: 0 <= i < |keys| ==> |keys[i]| < U32_LIMIT
  }

  /** Every length fits the field that frames it. */
  predicate Fits(node: Node)
    decreases node
  {
    match node
    case Leaf(es) => |es| < U32_LIMIT && KVFits(es)
    case Internal(keys, children) =>
      |keys| < U32_LIMIT && KeysFit(keys) && |children| < U32_LIMIT && KidsFit(children)
  }

  predicate KidsFit(children: seq<Node>)
    decreases children
  {
    children != [] ==> Fits(children[0]) && PageLen(children[0]) < U64_LIMIT && KidsFit(children[1..])
  }

  function EncodeKVs(es: seq<KV>): (b: Bytes)
    requires KVFits(es)
    ensures |b| == KVLen(es)
  {
    if es == [] then [] else Chunk(es[0].key) + (Chunk(es[0].value) + EncodeKVs(es[1..]))
  }

  function EncodeKeys(keys: seq<Bytes>): (b: Bytes)
    requires KeysFit(keys)
    ensures |b| == KeysLen(keys)
  {
    if keys == [] then [] else Chunk(keys[0]) + EncodeKeys(keys[1..])
  }

  function Page(node: Node): (b: Bytes)
    requires Fits(node)
    ensures |b| == PageLen(node)
    decreases node
  {
    match node
    case Leaf(es) => Wrap([0] + (U32(|es|) + EncodeKVs(es)))
    case Internal(keys, children) =>
      Wrap([1] + (U32(|keys|) + (EncodeKeys(keys) + (U32(|children|) + EncodeKids(children)))))
  }

  function EncodeKids(children: seq<Node>): (b: Bytes)
    requires KidsFit(children)
    ensures |b| == KidsLen(children)
    decreases children
  {
    if children == [] then [] else LongChunk(Page(children[0])) + EncodeKids(children[1..])
  }

  /** The document of a tree; `None` when a length does not fit its field. */
  function TreeDocument(root: Node): Option<Bytes> {
    if Fits(root) then Some(Wrap(Page(root))) else None
  }

  /** A page starts with 0x42545252 and ends with the checksum of what is between; that starts with 0 and the
      number of entries in a leaf, with 1 and the number of keys in an internal node. */
  lemma PageBytes(node: Node)
    requires Fits(node)
    ensures var b := Page(node);
            && |b| >= 13 && FromLE(b[..4]) == 0x4254_5252 && FromLE(b[|b| - 4..]) == Crc32(b[4..|b| - 4])
            && b[4] == (if node.Leaf? then 0 else 1)
            && FromLE(b[5..9]) == if node.Leaf? then |node.entries| else |node.keys|
  {
    hide FromLE, Crc32, EncodeKVs, EncodeKeys, EncodeKids, U32;
    match node
    case Leaf(es) => EnvelopeBytes(0, |es|, EncodeKVs(es));
    case Internal(keys, children) =>
      EnvelopeBytes(1, |keys|, EncodeKeys(keys) + (U32(|children|) + EncodeKids(children)));
  }

  lemma EnvelopeBytes(tag: Byte, n: nat, rest: Bytes)
    requires n < U32_LIMIT
    ensures var b := Wrap([tag] + (U32(n) + rest));
            && |b| >= 13 && FromLE(b[..4]) == MAGIC && FromLE(b[|b| - 4..]) == Crc32(b[4..|b| - 4])
            && b[4] == tag && FromLE(b[5..9]) == n
  {
    hide FromLE, Crc32;
    var body := [tag] + (U32(n) + rest);
    var b := Wrap(body);
    assert b[..4] == U32(MAGIC);
    assert b[4..|b| - 4] == body && b[|b| - 4..] == U32(Crc32(body));
    assert b[5..9] == U32(n);
  }

  // ---- reading ----

  function ParseKVs(n: nat, b: Bytes): (r: Option<(seq<KV>, Bytes)>)
    ensures r.Some? ==> |r.value.1| <= |b|
    decreases n
  {
    if n == 0 then Some(([], b))
    else
      var k := ReadChunk(b);
      if k.None? then None
      else
        var v := ReadChunk(k.value.1);
        if v.None? then None
        else
          var rest := ParseKVs(n - 1, v.value.1);
          if rest.None? then None else Some(([KV(k.value.0, v.value.0)] + rest.value.0, rest.value.1))
  }

  function ParseKeys(n: nat, b: Bytes): (r: Option<(seq<Bytes>, Bytes)>)
    ensures r.Some? ==> |r.value.1| <= |b|
    decreases n
  {
    if n == 0 then Some(([], b))
    else
      var k := ReadChunk(b);
      if k.None? then None
      else
        var rest := ParseKeys(n - 1, k.value.1);
        if rest.None? then None else Some(([k.value.0] + rest.value.0, rest.value.1))
  }

  function ParsePage(b: Bytes, depth: nat): Option<Node>
    decreases |b|
  {
    if depth > MAX_DEPTH then None
    else
      var body := Unwrap(b);
      if body.None? || body.value == [] then None
      else
        var n := ReadU32(body.value[1..]);
        if n.None? then None
        else if body.value[0] == 0 then ParseLeaf(n.value.0, n.value.1)
        else if body.value[0] == 1 then ParseInternal(n.value.0, n.value.1, depth)
        else None
  }

  function ParseLeaf(n: nat, b: Bytes): Option<Node> {
    if n > |b| / 8 then None
    else
      var es := ParseKVs(n, b);
      if es.None? || es.value.1 != [] then None else Some(Leaf(es.value.0))
  }

  function ParseInternal(n: nat, b: Bytes, depth: nat): Option<Node>
    decreases |b|
  {
    if n > |b| / 4 then None
    else
      var keys := ParseKeys(n, b);
      if keys.None? then None
      else
        var cn := ReadU32(keys.value.1);
        if cn.None? || n == 0 || cn.value.0 != n + 1 then None
        else
          var kids := ParseKids(cn.value.0, cn.value.1, depth);
          if kids.None? || kids.value.1 != [] then None else Some(Internal(keys.value.0, kids.value.0))
  }

  function ParseKids(n: nat, b: Bytes, depth: nat): Option<(seq<Node>, Bytes)>
    decreases |b|
  {
    if n == 0 then Some(([], b))
    else
      var page := ReadLongChunk(b);
      if page.None? then None
      else
        var child := ParsePage(page.value.0, depth + 1);
        if child.None? then None
        else
          var rest := ParseKids(n - 1, page.value.1, depth);
          if rest.None? then None else Some(([child.value] + rest.value.0, rest.value.1))
  }

  /** What `open` makes of a document: the tree and its key count. */
  function Open(doc: Bytes): Option<(Node, nat)> {
    var body := Unwrap(doc);
    if body.None? then None
    else
      var root := ParsePage(body.value, 0);
      if root.None? then None else Some((root.value, Count(root.value)))
  }

  function Count(node: Node): nat
    decreases node
  {
    match node
    case Leaf(es) => |es|
    case Internal(_, children) => CountKids(children)
  }

  function CountKids(children: seq<Node>): nat
    decreases children
  {
    if children == [] then 0 else Count(children[0]) + CountKids(children[1..])
  }

  lemma {:induction false} CountIsEntries(node: Node)
    ensures Count(node) == |Entries(node)|
    decreases node
  {
    match node
    case Leaf(_) =>
    case Internal(_, children) => CountKidsIsEntries(children);
  }

  lemma {:induction false} CountKidsIsEntries(children: seq<Node>)
    ensures CountKids(children) == |AllEntries(children)|
    decreases children
  {
    if children != [] {
      CountIsEntries(children[0]);
      CountKidsIsEntries(children[1..]);
    }
  }

  // ---- round trip ----

  lemma {:induction false} ParseKVsOf(es: seq<KV>)
    requires KVFits(es)
    ensures ParseKVs(|es|, EncodeKVs(es)) == Some((es, []))
  {
    hide Chunk, ReadChunk;
    if es != [] {
      var more := EncodeKVs(es[1..]);
      ParseKVsOf(es[1..]);
      ReadChunkOf(es[0].key, Chunk(es[0].value) + more);
      ReadChunkOf(es[0].value, more);
      assert [KV(es[0].key, es[0].value)] + es[1..] == es;
    }
  }

  lemma {:induction false} ParseKeysOf(keys: seq<Bytes>, rest: Bytes)
    requires KeysFit(keys)
    ensures ParseKeys(|keys|, EncodeKeys(keys) + rest) == Some((keys, rest))
  {
    hide Chunk, ReadChunk;
    if keys == [] {
      assert EncodeKeys(keys) + rest == rest;
    } else {
      var more := EncodeKeys(keys[1..]);
      ParseKeysOf(keys[1..], rest);
      Reassociate(Chunk(keys[0]), more, rest);
      ReadChunkOf(keys[0], more + rest);
      assert [keys[0]] + keys[1..] == keys;
    }
  }

  lemma {:induction false} LenBounds(es: seq<KV>, keys: seq<Bytes>)
    ensures 8 * |es| <= KVLen(es) && 4 * |keys| <= KeysLen(keys)
    decreases |es| + |keys|
  {
    if es != [] {
      LenBounds(es[1..], keys);
    } else if keys != [] {
      LenBounds(es, keys[1..]);
    }
  }

  lemma LeafRoundTrip(es: seq<KV>, depth: nat)
    requires Fits(Leaf(es)) && depth <= MAX_DEPTH
    ensures ParsePage(Page(Leaf(es)), depth) == Some(Leaf(es))
  {
    hide U32, ReadU32, Crc32, EncodeKVs, ParseKVs, KVFits, Unwrap;
    var body := [0] + (U32(|es|) + EncodeKVs(es));
    UnwrapOf(body, Crc32(body));
    assert body[1..] == U32(|es|) + EncodeKVs(es);
    ReadU32Of(|es|, EncodeKVs(es));
    LenBounds(es, []);
    ParseKVsOf(es);
  }

  lemma InternalRoundTrip(keys: seq<Bytes>, children: seq<Node>, depth: nat)
    requires Fits(Internal(keys, children)) && depth <= MAX_DEPTH && keys != [] && |children| == |keys| + 1
    requires ParseKids(|children|, EncodeKids(children), depth) == Some((children, []))
    ensures ParsePage(Page(Internal(keys, children)), depth) == Some(Internal(keys, children))
  {
    hide U32, ReadU32, Crc32, EncodeKeys, ParseKeys, KeysFit, Unwrap, EncodeKids, ParseKids, KidsFit;
    var tail := U32(|children|) + EncodeKids(children);
    var body := [1] + (U32(|keys|) + (EncodeKeys(keys) + tail));
    UnwrapOf(body, Crc32(body));
    assert body[1..] == U32(|keys|) + (EncodeKeys(keys) + tail);
    ReadU32Of(|keys|, EncodeKeys(keys) + tail);
    LenBounds([], keys);
    ParseKeysOf(keys, tail);
    ReadU32Of(|children|, EncodeKids(children));
  }

  /** Parsing the page of a well-formed tree that stays within the depth limit gives the tree back. */
  lemma {:induction false} PageRoundTrip(node: Node, depth: nat, lo: Option<Bytes>, hi: Option<Bytes>, h: nat, min: nat)
    requires Ok(node, lo, hi, h, min) && min >= 2 && Fits(node) && depth + h <= MAX_DEPTH
    ensures ParsePage(Page(node), depth) == Some(node)
    decreases node
  {
    hide LeafOk, KidsOk, KidsFit, ParsePage, Page, KVFits, KeysFit, EncodeKids, ParseKids, LowOf, HighOf;
    match node
    case Leaf(es) => LeafRoundTrip(es, depth);
    case Internal(keys, children) =>
      KidsLength(keys, children, lo, hi, h - 1);
      assert children[0..] == children;
      KidsRoundTrip(children, 0, depth, keys, lo, hi, h - 1);
      InternalRoundTrip(keys, children, depth);
  }

  lemma {:induction false} KidsRoundTrip(children: seq<Node>, i: nat, depth: nat, keys: seq<Bytes>,
                                         lo: Option<Bytes>, hi: Option<Bytes>, h: nat)
    requires KidsOk(keys, children, lo, hi, h) && i <= |children| && KidsFit(children[i..])
    requires depth + 1 + h <= MAX_DEPTH
    ensures ParseKids(|children| - i, EncodeKids(children[i..]), depth) == Some((children[i..], []))
    decreases children, |children| - i
  {
    hide KidsOk, Ok, ParsePage, Page, LowOf, HighOf, LongChunk, ReadLongChunk;
    if i < |children| {
      var page := Page(children[i]);
      KidsLength(keys, children, lo, hi, h);
      KidOk(keys, children, lo, hi, h, i);
      PageRoundTrip(children[i], depth + 1, LowOf(lo, keys, i), HighOf(hi, keys, i), h, MIN_CHILDREN);
      assert children[i..][1..] == children[i + 1..];
      KidsRoundTrip(children, i + 1, depth, keys, lo, hi, h);
      ReadLongChunkOf(page, EncodeKids(children[i + 1..]));
      assert [children[i]] + children[i + 1..] == children[i..];
    }
  }

  /**
   * Document round trip: the document of any tree reachable with fewer than 2^64 inserts whose lengths
   * fit their fields opens as that tree, with its key count; the depth limit is never hit.
   */
  lemma DocumentRoundTrip(root: Node, h: nat, inserts: nat)
    requires Ok(root, None, None, h, 2) && Leaves(root) <= 1 + inserts && inserts < Pow(2, 64)
    requires Fits(root)
    ensures TreeDocument(root).Some? && Open(TreeDocument(root).value) == Some((root, |Entries(root)|))
  {
    hide Ok, Fits, Page, ParsePage, Leaves, Pow, Unwrap, Crc32;
    HeightBound(root, h, inserts);
    UnwrapOf(Page(root), Crc32(Page(root)));
    PageRoundTrip(root, 0, None, None, h, 2);
    CountIsEntries(root);
  }

  /** A page nested past the depth limit is refused, however well formed. */
  lemma {:induction false} TooDeep(node: Node, depth: nat, lo: Option<Bytes>, hi: Option<Bytes>, h: nat, min: nat)
    requires Ok(node, lo, hi, h, min) && min >= 2 && Fits(node) && depth + h > 64
    ensures ParsePage(Page(node), depth).None?
    decreases node
  {
    hide LeafOk, KidsOk, KVFits, KeysFit, LowOf, HighOf, ParsePage, Page, EncodeKids, ParseKids, LongChunk, KeysOk;
    if depth > 64 {
      PastTheLimit(Page(node), depth);
    } else {
      var keys, children := node.keys, node.children;
      KidsLength(keys, children, lo, hi, h - 1);
      KidOk(keys, children, lo, hi, h - 1, 0);
      TooDeep(children[0], depth + 1, LowOf(lo, keys, 0), HighOf(hi, keys, 0), h - 1, MIN_CHILDREN);
      BadFirstKid(children, depth);
      BadKids(keys, children, depth);
    }
  }

  lemma PastTheLimit(b: Bytes, depth: nat)
    requires depth > 64
    ensures ParsePage(b, depth).None?
  {
  }

  lemma BadFirstKid(children: seq<Node>, depth: nat)
    requires children != [] && KidsFit(children) && ParsePage(Page(children[0]), depth + 1).None?
    ensures ParseKids(|children|, EncodeKids(children), depth).None?
  {
    hide ParsePage, Page, LongChunk, ReadLongChunk;
    ReadLongChunkOf(Page(children[0]), EncodeKids(children[1..]));
  }

  lemma BadKids(keys: seq<Bytes>, children: seq<Node>, depth: nat)
    requires Fits(Internal(keys, children)) && ParseKids(|children|, EncodeKids(children), depth).None?
    ensures ParsePage(Page(Internal(keys, children)), depth).None?
  {
    hide U32, ReadU32, Crc32, EncodeKeys, ParseKeys, KeysFit, Unwrap, EncodeKids, ParseKids, KidsFit;
    var tail := U32(|children|) + EncodeKids(children);
    var body := [1] + (U32(|keys|) + (EncodeKeys(keys) + tail));
    UnwrapOf(body, Crc32(body));
    assert body[1..] == U32(|keys|) + (EncodeKeys(keys) + tail);
    ReadU32Of(|keys|, EncodeKeys(keys) + tail);
    ParseKeysOf(keys, tail);
    ReadU32Of(|children|, EncodeKids(children));
  }

  /** The document of a well-formed tree opens, as that tree, exactly when the tree is at most 64 levels deep
      below its root. */
  lemma OpensExactlyWhenShallow(root: Node, h: nat)
    requires Ok(root, None, None, h, 2) && Fits(root)
    ensures TreeDocument(root).Some?
    ensures Open(TreeDocument(root).value) == if h <= 64 then Some((root, |Entries(root)|)) else None
  {
    hide Ok, Fits, Page, ParsePage, Unwrap, Crc32;
    UnwrapOf(Page(root), Crc32(Page(root)));
    if h <= 64 {
      PageRoundTrip(root, 0, None, None, h, 2);
      CountIsEntries(root);
    } else {
      TooDeep(root, 0, None, None, h, 2);
    }
  }

  /** Damage confined to four consecutive bytes of a document's page is always rejected. */
  lemma DamagedDocument(page: Bytes, i: nat, j: nat, v: Bytes)
    requires i <= j <= |page| && j - i == |v| <= 4 && v != page[i..j]
    ensures Open(U32(MAGIC) + (page[..i] + v + page[j..] + U32(Crc32(page)))) == None
  {
    hide U32, Crc32, Unwrap, ParsePage;
    assert page == page[..i] + page[i..j] + page[j..];
    FourByteBurstDetected(page[..i], page[i..j], v, page[j..]);
    UnwrapOf(page[..i] + v + page[j..], Crc32(page));
  }

  lemma Middle(a: Bytes, b: Bytes, c: Bytes)
    ensures var s := a + b + c;
      s[..|a|] == a && s[|a|..|a| + |b|] == b && s[|a| + |b|..] == c
  {
  }

  /** An edit inside `s[lo..hi]` changes that part and nothing else. */
  lemma EditInside(s: Bytes, i: nat, j: nat, v: Bytes, lo: nat, hi: nat)
    requires lo <= i <= j <= hi <= |s| && j - i == |v| && v != s[i..j]
    ensures var s' := s[..i] + v + s[j..];
      && |s'| == |s| && s'[..lo] == s[..lo] && s'[hi..] == s[hi..] && s'[lo..hi] != s[lo..hi]
      && s[lo..hi] == s[lo..i] + s[i..j] + s[j..hi] && s'[lo..hi] == s[lo..i] + v + s[j..hi]
  {
    var s' := s[..i] + v + s[j..];
    var a, z := s[lo..i], s[j..hi];
    assert s == s[..lo] + (a + s[i..j] + z) + s[hi..];
    assert s' == s[..lo] + (a + v + z) + s[hi..];
    Middle(s[..lo], a + s[i..j] + z, s[hi..]);
    Middle(s[..lo], a + v + z, s[hi..]);
    Middle(a, s[i..j], z);
    Middle(a, v, z);
  }

  /** Changing up to four consecutive bytes of the magic, of the body or of the checksum opens the envelope no more. */
  lemma DamageUnwraps(doc: Bytes, i: nat, j: nat, v: Bytes)
    requires Unwrap(doc).Some? && i <= j <= |doc| && j - i == |v| <= 4 && v != doc[i..j]
    requires j <= 4 || (4 <= i && j <= |doc| - 4) || |doc| - 4 <= i
    ensures Unwrap(doc[..i] + v + doc[j..]) == None
  {
    hide FromLE, Crc32;
    var n, doc' := |doc|, doc[..i] + v + doc[j..];
    if j <= 4 {
      EditInside(doc, i, j, v, 0, 4);
      LEInjective(doc'[..4], doc[..4]);
    } else if i >= n - 4 {
      EditInside(doc, i, j, v, n - 4, n);
      LEInjective(doc'[n - 4..], doc[n - 4..]);
    } else {
      EditInside(doc, i, j, v, 4, n - 4);
      FourByteBurstDetected(doc[4..i], doc[i..j], v, doc[j..n - 4]);
    }
  }

  /** Changing any one byte of any document that opens, whatever wrote it, is always rejected. */
  lemma OneByteDamage(doc: Bytes, i: nat, x: Byte)
    requires Open(doc).Some? && i < |doc| && x != doc[i]
    ensures Open(doc[i := x]) == None
  {
    hide Unwrap, ParsePage, Count;
    assert doc[i := x] == doc[..i] + [x] + doc[i + 1..];
    assert doc[i..i + 1] == [doc[i]];
    DamageUnwraps(doc, i, i + 1, [x]);
  }

  // ---- what opens can be routed ----

  /** Every tree a page parses to, whatever its bytes, has one more child than separators at every node. */
  lemma {:induction false} ParsedIsRoutable(b: Bytes, depth: nat)
    ensures ParsePage(b, depth).Some? ==> Routable(ParsePage(b, depth).value)
    decreases |b|, 1
  {
    hide Routable, Unwrap, ReadU32, ParseLeaf, ParseInternal;
    if ParsePage(b, depth).Some? {
      var body := Unwrap(b).value;
      var n := ReadU32(body[1..]).value;
      if body[0] == 0 {
        ParsedLeaf(n.0, n.1);
      } else {
        ParsedInternal(n.0, n.1, depth);
      }
    }
  }

  lemma ParsedLeaf(n: nat, b: Bytes)
    requires ParseLeaf(n, b).Some?
    ensures Routable(ParseLeaf(n, b).value)
  {
    hide ParseKVs;
  }

  lemma {:induction false} ParsedInternal(n: nat, b: Bytes, depth: nat)
    requires ParseInternal(n, b, depth).Some?
    ensures Routable(ParseInternal(n, b, depth).value)
    decreases |b|, 0
  {
    hide ParseKeys, ReadU32, ParseKids;
    var keys := ParseKeys(n, b).value;
    var cn := ReadU32(keys.1).value;
    ParsedKeys(n, b);
    ParsedKids(cn.0, cn.1, depth);
  }

  lemma {:induction false} ParsedKeys(n: nat, b: Bytes)
    requires ParseKeys(n, b).Some?
    ensures |ParseKeys(n, b).value.0| == n
  {
    hide ReadChunk;
    if n > 0 {
      ParsedKeys(n - 1, ReadChunk(b).value.1);
    }
  }

  lemma {:induction false} ParsedKids(n: nat, b: Bytes, depth: nat)
    requires ParseKids(n, b, depth).Some?
    ensures var kids := ParseKids(n, b, depth).value.0;
      |kids| == n && forall i {:trigger kids[i]} :: 0 <= i < n ==> Routable(kids[i])
    decreases |b|, 0
  {
    hide ReadLongChunk, ParsePage, Routable;
    if n > 0 {
      var page := ReadLongChunk(b).value;
      ParsedIsRoutable(page.0, depth + 1);
      ParsedKids(n - 1, page.1, depth);
    }
  }

  /** A document that opens can be searched, inserted into and deleted from without a missing child. */
  lemma OpenedIsRoutable(doc: Bytes)
    ensures Open(doc).Some? ==> Routable(Open(doc).value.0) && Open(doc).value.1 == |Entries(Open(doc).value.0)|
  {
    hide Unwrap, ParsePage, Routable, Count, Entries;
    if Open(doc).Some? {
      ParsedIsRoutable(Unwrap(doc).value, 0);
      CountIsEntries(Open(doc).value.0);
    }
  }

  /**
   * The document of the tree after any sequence of edits with fewer than 2^64 insertions, however many
   * deletes, opens as that tree, with the map's size.
   */
  lemma EveryRunRoundTrips(edits: seq<Edit>)
    requires Inserts(edits) < Pow(2, 64) && Fits(RunTree(edits))
    ensures TreeDocument(RunTree(edits)).Some?
    ensures Open(TreeDocument(RunTree(edits)).value) == Some((RunTree(edits), |RunMap(edits)|))
  {
    hide Ok, Fits, Pow, Leaves, RunTree, RunMap, Open, TreeDocument, Entries, MapOf, Sorted;
    var h := EveryRunRefines(edits);
    RootSorted(RunTree(edits), h);
    MapSize(Entries(RunTree(edits)));
    DocumentRoundTrip(RunTree(edits), h, Inserts(edits));
  }

  // ---- the page writer and reader as they run ----

  /** `node_page`: a page's fields pushed to a buffer one after another. */
  method WritePage(node: Node, out: Bytes) returns (r: Bytes)
    requires Fits(node)
    ensures r == out + Page(node)
    decreases node
  {
    hide U32, Crc32, Chunk, LongChunk, Wrap;
    var body: Bytes;
    match node {
      case Leaf(es) =>
        body := [0] + U32(|es|);
        var i := 0;
        assert es[0..] == es;
        while i < |es|
          invariant i <= |es| && body + EncodeKVs(es[i..]) == [0] + (U32(|es|) + EncodeKVs(es))
        {
          assert es[i..][0] == es[i] && es[i..][1..] == es[i + 1..];
          MoreFields(body, Chunk(es[i].key), Chunk(es[i].value), EncodeKVs(es[i + 1..]));
          body := body + Chunk(es[i].key);
          body := body + Chunk(es[i].value);
          i := i + 1;
        }
        assert body + [] == body;
      case Internal(keys, children) =>
        body := [1] + U32(|keys|);
        var i := 0;
        assert keys[0..] == keys;
        while i < |keys|
          invariant i <= |keys| && body + EncodeKeys(keys[i..]) == [1] + (U32(|keys|) + EncodeKeys(keys))
        {
          assert keys[i..][0] == keys[i] && keys[i..][1..] == keys[i + 1..];
          Reassociate(body, Chunk(keys[i]), EncodeKeys(keys[i + 1..]));
          body := body + Chunk(keys[i]);
          i := i + 1;
        }
        assert body + [] == body;
        ghost var head := body;
        body := body + U32(|children|);
        i := 0;
        assert children[0..] == children;
        while i < |children|
          invariant i <= |children| && KidsFit(children[i..])
          invariant body + EncodeKids(children[i..]) == head + (U32(|children|) + EncodeKids(children))
        {
          assert children[i..][0] == children[i] && children[i..][1..] == children[i + 1..];
          var child := WritePage(children[i], []);
          assert child == Page(children[i]);
          Reassociate(body, LongChunk(child), EncodeKids(children[i + 1..]));
          body := body + LongChunk(child);
          i := i + 1;
        }
        assert body + [] == body;
        InternalBody([1], U32(|keys|), EncodeKeys(keys), U32(|children|) + EncodeKids(children));
    }
    r := out + Wrap(body);
  }

  lemma MoreFields(a: Bytes, b: Bytes, c: Bytes, d: Bytes)
    ensures a + b + c + d == a + (b + (c + d))
  {
  }

  lemma InternalBody(a: Bytes, b: Bytes, c: Bytes, d: Bytes)
    ensures a + (b + c) + d == a + (b + (c + d))
  {
  }

  /** Items read so far, then whatever the rest of the cursor gives. */
  function Joined<T>(xs: seq<T>, r: Option<(seq<T>, Bytes)>): Option<(seq<T>, Bytes)> {
    if r.None? then None else Some((xs + r.value.0, r.value.1))
  }

  lemma JoinedOne<T>(xs: seq<T>, x: T, r: Option<(seq<T>, Bytes)>)
    ensures Joined(xs, Joined([x], r)) == Joined(xs + [x], r)
  {
    if r.Some? {
      Reassociate(xs, [x], r.value.0);
    }
  }

  lemma JoinedNone<T>(r: Option<(seq<T>, Bytes)>)
    ensures Joined([], r) == r
  {
    if r.Some? {
      assert [] + r.value.0 == r.value.0;
    }
  }

  method ReadKVs(n: nat, b: Bytes) returns (r: Option<(seq<KV>, Bytes)>)
    ensures r == ParseKVs(n, b)
  {
    hide ReadChunk;
    var es, c, i := [], b, 0;
    JoinedNone(ParseKVs(n, b));
    while i < n
      invariant i <= n && ParseKVs(n, b) == Joined(es, ParseKVs(n - i, c))
    {
      var k := ReadChunk(c);
      if k.None? {
        return None;
      }
      var v := ReadChunk(k.value.1);
      if v.None? {
        return None;
      }
      JoinedOne(es, KV(k.value.0, v.value.0), ParseKVs(n - i - 1, v.value.1));
      es, c, i := es + [KV(k.value.0, v.value.0)], v.value.1, i + 1;
    }
    assert es + [] == es;
    r := Some((es, c));
  }

  method ReadKeys(n: nat, b: Bytes) returns (r: Option<(seq<Bytes>, Bytes)>)
    ensures r == ParseKeys(n, b)
  {
    hide ReadChunk;
    var keys, c, i := [], b, 0;
    JoinedNone(ParseKeys(n, b));
    while i < n
      invariant i <= n && ParseKeys(n, b) == Joined(keys, ParseKeys(n - i, c))
    {
      var k := ReadChunk(c);
      if k.None? {
        return None;
      }
      JoinedOne(keys, k.value.0, ParseKeys(n - i - 1, k.value.1));
      keys, c, i := keys + [k.value.0], k.value.1, i + 1;
    }
    assert keys + [] == keys;
    r := Some((keys, c));
  }

  /** `parse_page`: a bounded cursor moved over a page's fields. */
  method ReadPage(b: Bytes, depth: nat) returns (r: Option<Node>)
    ensures r == ParsePage(b, depth)
    decreases |b|
  {
    hide ReadChunk, ReadLongChunk, Unwrap, ReadU32, ParseKVs, ParseKeys;
    if depth > MAX_DEPTH {
      return None;
    }
    var body := Unwrap(b);
    if body.None? || body.value == [] {
      return None;
    }
    var n := ReadU32(body.value[1..]);
    if n.None? {
      return None;
    }
    if body.value[0] == 0 {
      if n.value.0 > |n.value.1| / 8 {
        return None;
      }
      var es := ReadKVs(n.value.0, n.value.1);
      return if es.None? || es.value.1 != [] then None else Some(Leaf(es.value.0));
    }
    if body.value[0] != 1 || n.value.0 > |n.value.1| / 4 {
      return None;
    }
    var keys := ReadKeys(n.value.0, n.value.1);
    if keys.None? {
      return None;
    }
    var cn := ReadU32(keys.value.1);
    if cn.None? || n.value.0 == 0 || cn.value.0 != n.value.0 + 1 {
      return None;
    }
    var kids := ReadKids(cn.value.0, cn.value.1, depth);
    r := if kids.None? || kids.value.1 != [] then None else Some(Internal(keys.value.0, kids.value.0));
  }

  method ReadKids(n: nat, b: Bytes, depth: nat) returns (r: Option<(seq<Node>, Bytes)>)
    ensures r == ParseKids(n, b, depth)
    decreases |b|
  {
    hide ReadLongChunk, ParsePage;
    var kids, c, i := [], b, 0;
    JoinedNone(ParseKids(n, b, depth));
    while i < n
      invariant i <= n && |c| <= |b| && ParseKids(n, b, depth) == Joined(kids, ParseKids(n - i, c, depth))
    {
      var page := ReadLongChunk(c);
      if page.None? {
        return None;
      }
      var child := ReadPage(page.value.0, depth + 1);
      if child.None? {
        return None;
      }
      JoinedOne(kids, child.value, ParseKids(n - i - 1, page.value.1, depth));
      kids, c, i := kids + [child.value], page.value.1, i + 1;
    }
    assert kids + [] == kids;
    r := Some((kids, c));
  }
}
