/** A B+ tree that splits on insert and never rebalances on delete. */
module BTree {
  import opened Types
  import opened Order

  datatype KV = KV(key: Bytes, value: Bytes)

  datatype Node = Leaf(entries: seq<KV>) | Internal(keys: seq<Bytes>, children: seq<Node>)

  const ORDER: nat := 5
  const MIN_CHILDREN: nat := 3

  // ---- the ordered map a tree stands for ----

  /** Every entry, left to right. */
  function Entries(node: Node): seq<KV>
    decreases node
  {
    match node
    case Leaf(entries) => entries
    case Internal(_, children) => AllEntries(children)
  }

  function AllEntries(children: seq<Node>): seq<KV>
    decreases children
  {
    if children == [] then [] else Entries(children[0]) + AllEntries(children[1..])
  }

  ghost predicate Sorted(es: seq<KV>) {
    forall i, j :: 0 <= i < j < |es| ==> Less(es[i].key, es[j].key)
  }

  /** How many of the leading entries are below `key`. */
  function CountBelow(es: seq<KV>, key: Bytes): (n: nat)
    ensures n <= |es|
    ensures forall i :: 0 <= i < n ==> Less(es[i].key, key)
    ensures n < |es| ==> !Less(es[n].key, key)
  {
    if es == [] || !Less(es[0].key, key) then 0 else 1 + CountBelow(es[1..], key)
  }

  /** `s` with `s[n..m]` replaced by `xs`. */
  function Splice<T>(s: seq<T>, n: nat, m: nat, xs: seq<T>): (r: seq<T>)
    requires n <= m <= |s|
    ensures |r| == |s| - (m - n) + |xs|
  {
    s[..n] + xs + s[m..]
  }

  lemma SpliceAt<T>(s: seq<T>, n: nat, m: nat, xs: seq<T>, j: nat)
    requires n <= m <= |s| && j < |Splice(s, n, m, xs)|
    ensures Splice(s, n, m, xs)[j] ==
      if j < n then s[j] else if j < n + |xs| then xs[j - n] else s[j - |xs| + (m - n)]
  {
  }

  /** Whether `es` has an entry at `key`, given where it would stand. */
  predicate Hit(es: seq<KV>, pos: nat, key: Bytes) { pos < |es| && es[pos].key == key }

  /** The entries with `key` bound to `value`. */
  function Bind(es: seq<KV>, key: Bytes, value: Bytes): seq<KV> {
    var pos := CountBelow(es, key);
    Splice(es, pos, if Hit(es, pos, key) then pos + 1 else pos, [KV(key, value)])
  }

  function Unbind(es: seq<KV>, key: Bytes): seq<KV> {
    var pos := CountBelow(es, key);
    if Hit(es, pos, key) then Splice(es, pos, pos + 1, []) else es
  }

  predicate Has(es: seq<KV>, key: Bytes) {
    exists i :: 0 <= i < |es| && es[i].key == key
  }

  // ---- shape ----

  function LowOf(lo: Option<Bytes>, keys: seq<Bytes>, i: nat): Option<Bytes>
    requires i <= |keys|
  {
    if i == 0 then lo else Some(keys[i - 1])
  }

  function HighOf(hi: Option<Bytes>, keys: seq<Bytes>, i: nat): Option<Bytes>
    requires i <= |keys|
  {
    if i == |keys| then hi else Some(keys[i])
  }

  ghost predicate Increasing(keys: seq<Bytes>) {
    forall i, j :: 0 <= i < j < |keys| ==> Less(keys[i], keys[j])
  }

  /** A separator: strictly above the lower bound, strictly below the upper. */
  predicate Between(k: Bytes, lo: Option<Bytes>, hi: Option<Bytes>) {
    (lo.Some? ==> Less(lo.value, k)) && (hi.Some? ==> Less(k, hi.value))
  }

  ghost predicate KeysOk(keys: seq<Bytes>, lo: Option<Bytes>, hi: Option<Bytes>) {
    Increasing(keys) && forall i :: 0 <= i < |keys| ==> Between(keys[i], lo, hi)
  }

  ghost predicate LeafOk(es: seq<KV>, lo: Option<Bytes>, hi: Option<Bytes>) {
    Sorted(es) && forall i :: 0 <= i < |es| ==> Within(es[i].key, lo, hi)
  }

  /**
   * A tree of height `h` for the keys of `[lo, hi)`: separators are strict upper bounds on their left
   * and lower bounds on their right, every leaf is at depth `h`, a leaf holds fewer than `ORDER`
   * entries, and an internal node has at most `ORDER` children, the top one at least `min` and every
   * other at least `MIN_CHILDREN`.
   */
  ghost predicate Ok(node: Node, lo: Option<Bytes>, hi: Option<Bytes>, h: nat, min: nat)
    decreases node
  {
    match node
    case Leaf(es) => h == 0 && |es| < ORDER && LeafOk(es, lo, hi)
    case Internal(keys, children) =>
      h > 0 && min <= |children| <= ORDER && KidsOk(keys, children, lo, hi, h - 1)
  }

  /** Children of height `h` and the separators between them. */
  ghost predicate KidsOk(keys: seq<Bytes>, children: seq<Node>, lo: Option<Bytes>, hi: Option<Bytes>, h: nat)
    decreases children
  {
    && |children| == |keys| + 1 && KeysOk(keys, lo, hi)
    && forall i {:trigger children[i]} ::
      0 <= i < |children| ==> Ok(children[i], LowOf(lo, keys, i), HighOf(hi, keys, i), h, MIN_CHILDREN)
  }

  /** Every internal node has one more child than separators. */
  ghost predicate Routable(node: Node)
    decreases node
  {
    node.Internal? ==>
      |node.children| == |node.keys| + 1 &&
      forall i {:trigger node.children[i]} :: 0 <= i < |node.children| ==> Routable(node.children[i])
  }

  lemma {:induction false} OkIsRoutable(node: Node, lo: Option<Bytes>, hi: Option<Bytes>, h: nat, min: nat)
    requires Ok(node, lo, hi, h, min)
    ensures Routable(node)
    decreases node
  {
    hide LeafOk, KeysOk;
    if node.Internal? {
      forall i | 0 <= i < |node.children| ensures Routable(node.children[i]) {
        OkIsRoutable(node.children[i], LowOf(lo, node.keys, i), HighOf(hi, node.keys, i), h - 1, MIN_CHILDREN);
      }
    }
  }

  // ---- operations ----

  /** The child that owns `key`: past every separator at or below it. */
  function Route(keys: seq<Bytes>, key: Bytes): (n: nat)
    ensures n <= |keys|
    ensures forall i :: 0 <= i < n ==> !Less(key, keys[i])
    ensures n < |keys| ==> Less(key, keys[n])
  {
    if keys == [] || Less(key, keys[0]) then 0 else 1 + Route(keys[1..], key)
  }

  datatype Split = Split(median: Bytes, right: Node)

  datatype Inserted = Inserted(node: Node, added: bool, split: Option<Split>)

  function InsertLeaf(es: seq<KV>, key: Bytes, value: Bytes): Inserted {
    var pos := CountBelow(es, key);
    var added := !Hit(es, pos, key);
    var es' := Bind(es, key, value);
    var mid := |es'| / 2;
    if |es'| > ORDER - 1 then
      Inserted(Leaf(es'[..mid]), added, Some(Split(es'[mid].key, Leaf(es'[mid..]))))
    else Inserted(Leaf(es'), added, None)
  }

  /** A child's split lifted into its parent, which may split in turn. */
  function Lift(keys: seq<Bytes>, children: seq<Node>, i: nat, r: Inserted): Inserted
    requires |children| == |keys| + 1 && i < |children|
  {
    if r.split.None? then Inserted(Internal(keys, children[i := r.node]), r.added, None)
    else
      var keys' := Splice(keys, i, i, [r.split.value.median]);
      var kids' := Splice(children, i, i + 1, [r.node, r.split.value.right]);
      var mid := |keys'| / 2;
      if |kids'| > ORDER then
        Inserted(Internal(keys'[..mid], kids'[..mid + 1]), r.added,
                 Some(Split(keys'[mid], Internal(keys'[mid + 1..], kids'[mid + 1..]))))
      else Inserted(Internal(keys', kids'), r.added, None)
  }

  function InsertRec(node: Node, key: Bytes, value: Bytes): Inserted
    requires Routable(node)
    decreases node
  {
    match node
    case Leaf(es) => InsertLeaf(es, key, value)
    case Internal(keys, children) =>
      var i := Route(keys, key);
      Lift(keys, children, i, InsertRec(children[i], key, value))
  }

  function GetRec(node: Node, key: Bytes): Option<Bytes>
    requires Routable(node)
    decreases node
  {
    match node
    case Leaf(es) => Find(es, key)
    case Internal(keys, children) => GetRec(children[Route(keys, key)], key)
  }

  /** The value of the first entry at `key`. */
  function Find(es: seq<KV>, key: Bytes): Option<Bytes> {
    if es == [] then None
    else if es[0].key == key then Some(es[0].value)
    else Find(es[1..], key)
  }

  datatype Deleted = Deleted(node: Node, removed: bool)

  function DeleteRec(node: Node, key: Bytes): Deleted
    requires Routable(node)
    decreases node
  {
    match node
    case Leaf(es) => Deleted(Leaf(Unbind(es, key)), Hit(es, CountBelow(es, key), key))
    case Internal(keys, children) =>
      var i := Route(keys, key);
      var r := DeleteRec(children[i], key);
      Deleted(Internal(keys, children[i := r.node]), r.removed)
  }

  // ---- entries of a tree ----

  lemma {:induction false} AllEntriesConcat(a: seq<Node>, b: seq<Node>)
    ensures AllEntries(a + b) == AllEntries(a) + AllEntries(b)
    decreases |a|
  {
    hide Entries;
    if a == [] {
      assert a + b == b;
    } else {
      AllEntriesConcat(a[1..], b);
      assert (a + b)[0] == a[0] && (a + b)[1..] == a[1..] + b;
    }
  }

  lemma AllEntriesOne(n: Node)
    ensures AllEntries([n]) == Entries(n)
  {
    hide Entries;
    assert AllEntries([n]) == Entries(n) + AllEntries([]);
  }

  lemma ThreeParts<T>(s: seq<T>, i: nat)
    requires i < |s|
    ensures s == s[..i] + [s[i]] + s[i + 1..]
  {
  }

  /** The entries before, in and after child `i`. */
  lemma Around(children: seq<Node>, i: nat)
    requires i < |children|
    ensures AllEntries(children) ==
      AllEntries(children[..i]) + Entries(children[i]) + AllEntries(children[i + 1..])
  {
    hide Entries, AllEntries;
    ThreeParts(children, i);
    AllEntriesConcat(children[..i] + [children[i]], children[i + 1..]);
    AllEntriesConcat(children[..i], [children[i]]);
    AllEntriesOne(children[i]);
  }

  ghost predicate AllBelow(es: seq<KV>, k: Bytes) {
    forall i :: 0 <= i < |es| ==> Less(es[i].key, k)
  }

  lemma LeafOkJoin(a: seq<KV>, b: seq<KV>, lo: Option<Bytes>, k: Bytes, hi: Option<Bytes>)
    requires LeafOk(a, lo, Some(k)) && LeafOk(b, Some(k), hi) && Between(k, lo, hi)
    ensures LeafOk(a + b, lo, hi)
  {
    hide Less;
    TotalOrder();
  }

  /** The entries of children `i..j` lie between the separators on either side. */
  lemma {:induction false} KidsEntries(keys: seq<Bytes>, children: seq<Node>, lo: Option<Bytes>, hi: Option<Bytes>,
                                       h: nat, i: nat, j: nat)
    requires KidsOk(keys, children, lo, hi, h) && i < j <= |children|
    ensures LeafOk(AllEntries(children[i..j]), LowOf(lo, keys, i), HighOf(hi, keys, j - 1))
    decreases children, j
  {
    hide Less, LeafOk, AllEntries, Entries;
    EntriesOk(children[j - 1], LowOf(lo, keys, j - 1), HighOf(hi, keys, j - 1), h, MIN_CHILDREN);
    if j == i + 1 {
      assert children[i..j] == [children[i]];
      AllEntriesOne(children[i]);
    } else {
      KidsEntries(keys, children, lo, hi, h, i, j - 1);
      assert children[i..j] == children[i..j - 1] + [children[j - 1]];
      AllEntriesConcat(children[i..j - 1], [children[j - 1]]);
      AllEntriesOne(children[j - 1]);
      SeparatorBetween(keys, lo, hi, i, j - 2, j - 1);
      LeafOkJoin(AllEntries(children[i..j - 1]), Entries(children[j - 1]),
                 LowOf(lo, keys, i), keys[j - 2], HighOf(hi, keys, j - 1));
    }
  }

  lemma SeparatorBetween(keys: seq<Bytes>, lo: Option<Bytes>, hi: Option<Bytes>, i: nat, m: nat, j: nat)
    requires KeysOk(keys, lo, hi) && i <= m < j <= |keys|
    ensures Between(keys[m], LowOf(lo, keys, i), HighOf(hi, keys, j))
  {
    hide Less;
  }

  /** A tree's entries are sorted and within its bounds. */
  lemma {:induction false} EntriesOk(node: Node, lo: Option<Bytes>, hi: Option<Bytes>, h: nat, min: nat)
    requires Ok(node, lo, hi, h, min)
    ensures LeafOk(Entries(node), lo, hi)
    decreases node
  {
    hide Less, LeafOk, KeysOk, AllEntries;
    if node.Internal? {
      var n := |node.children|;
      assert node.children[0..n] == node.children;
      KidsEntries(node.keys, node.children, lo, hi, h - 1, 0, n);
    }
  }

  // ---- inserting into a run of entries ----

  lemma CountBelowIs(es: seq<KV>, key: Bytes, n: nat)
    requires Sorted(es) && n <= |es|
    requires forall i :: 0 <= i < n ==> Less(es[i].key, key)
    requires n < |es| ==> !Less(es[n].key, key)
    ensures CountBelow(es, key) == n
  {
    hide Less;
    TotalOrder();
  }

  /** Only the run that owns `key` sees it counted. */
  lemma CountBelowInside(a: seq<KV>, b: seq<KV>, c: seq<KV>, key: Bytes)
    requires Sorted(a + b + c) && AllBelow(a, key)
    requires forall i :: 0 <= i < |c| ==> Less(key, c[i].key)
    ensures CountBelow(a + b + c, key) == |a| + CountBelow(b, key)
    ensures CountBelow(b, key) == |b| ==> |a| + |b| == |a + b + c| || (a + b + c)[|a| + |b|].key != key
  {
    hide Less;
    TotalOrder();
    var n := CountBelow(b, key);
    var all := a + b + c;
    forall i | 0 <= i < |a| + n ensures Less(all[i].key, key) {
      assert all[i] == if i < |a| then a[i] else b[i - |a|];
    }
    if |a| + n < |all| {
      assert all[|a| + n] == if n < |b| then b[n] else c[0];
    }
    CountBelowIs(all, key, |a| + n);
  }

  /** Editing the middle of three runs edits their concatenation. */
  lemma EditInside<T>(a: seq<T>, b: seq<T>, c: seq<T>, n: nat, m: nat, xs: seq<T>)
    requires n <= m <= |b|
    ensures Splice(a + b + c, |a| + n, |a| + m, xs) == a + Splice(b, n, m, xs) + c
  {
    var all := a + b + c;
    assert all[..|a| + n] == a + b[..n];
    assert all[|a| + m..] == b[m..] + c;
  }

  lemma InMiddle<T>(a: seq<T>, b: seq<T>, c: seq<T>, n: nat)
    ensures n < |b| ==> (a + b + c)[|a| + n] == b[n]
  {
  }

  lemma BindInside(a: seq<KV>, b: seq<KV>, c: seq<KV>, key: Bytes, value: Bytes)
    requires Sorted(a + b + c) && AllBelow(a, key)
    requires forall i :: 0 <= i < |c| ==> Less(key, c[i].key)
    ensures Bind(a + b + c, key, value) == a + Bind(b, key, value) + c
  {
    hide Less, CountBelow, Sorted, Splice;
    CountBelowInside(a, b, c, key);
    var n := CountBelow(b, key);
    InMiddle(a, b, c, n);
    EditInside(a, b, c, n, if Hit(b, n, key) then n + 1 else n, [KV(key, value)]);
  }

  lemma UnbindInside(a: seq<KV>, b: seq<KV>, c: seq<KV>, key: Bytes)
    requires Sorted(a + b + c) && AllBelow(a, key)
    requires forall i :: 0 <= i < |c| ==> Less(key, c[i].key)
    ensures Unbind(a + b + c, key) == a + Unbind(b, key) + c
  {
    hide Less, CountBelow, Sorted, Splice;
    CountBelowInside(a, b, c, key);
    var n := CountBelow(b, key);
    InMiddle(a, b, c, n);
    if Hit(b, n, key) {
      EditInside(a, b, c, n, n + 1, []);
    }
  }

  lemma HasAtCount(es: seq<KV>, key: Bytes)
    requires Sorted(es)
    ensures Has(es, key) <==> Hit(es, CountBelow(es, key), key)
  {
    hide Less, CountBelow;
    TotalOrder();
    var n := CountBelow(es, key);
    forall i | 0 <= i < |es| && i != n ensures es[i].key != key {
      if i < n {
        assert Less(es[i].key, key);
      } else {
        assert Less(es[n].key, es[i].key);
      }
    }
  }

  lemma BindSorted(es: seq<KV>, key: Bytes, value: Bytes)
    requires Sorted(es)
    ensures Sorted(Bind(es, key, value))
  {
    hide Less, CountBelow;
    TotalOrder();
    var n, es' := CountBelow(es, key), Bind(es, key, value);
    if Hit(es, n, key) {
      assert forall i :: 0 <= i < |es| ==> es'[i].key == es[i].key;
    } else {
      forall i, j | 0 <= i < j < |es'| ensures Less(es'[i].key, es'[j].key) {
        assert n <= |es| && (i < n ==> es'[i] == es[i]) && (i > n ==> es'[i] == es[i - 1]);
        assert (j < n ==> es'[j] == es[j]) && (j > n ==> es'[j] == es[j - 1]);
        if i == n {
          assert Less(key, es[n].key);
        }
      }
    }
  }

  lemma BindOk(es: seq<KV>, key: Bytes, value: Bytes, lo: Option<Bytes>, hi: Option<Bytes>)
    requires LeafOk(es, lo, hi) && Within(key, lo, hi)
    ensures LeafOk(Bind(es, key, value), lo, hi)
    ensures |Bind(es, key, value)| == |es| + (if Has(es, key) then 0 else 1)
  {
    hide Less, CountBelow, Sorted, Within;
    HasAtCount(es, key);
    BindSorted(es, key, value);
  }

  lemma UnbindOk(es: seq<KV>, key: Bytes, lo: Option<Bytes>, hi: Option<Bytes>)
    requires LeafOk(es, lo, hi)
    ensures LeafOk(Unbind(es, key), lo, hi)
  {
    hide Less, CountBelow;
  }

  // ---- insert ----

  /** What inserting `key` into a tree whose entries were `es` promises. */
  ghost predicate InsertedOk(r: Inserted, es: seq<KV>, key: Bytes, value: Bytes,
                             lo: Option<Bytes>, hi: Option<Bytes>, h: nat, min: nat)
  {
    && (r.added <==> !Has(es, key))
    && match r.split
       case None => Ok(r.node, lo, hi, h, min) && Entries(r.node) == Bind(es, key, value)
       case Some(s) =>
         && Between(s.median, lo, hi)
         && Ok(r.node, lo, Some(s.median), h, MIN_CHILDREN) && Ok(s.right, Some(s.median), hi, h, MIN_CHILDREN)
         && Entries(r.node) + Entries(s.right) == Bind(es, key, value)
  }

  lemma LeafSplit(es: seq<KV>, mid: nat, lo: Option<Bytes>, hi: Option<Bytes>)
    requires LeafOk(es, lo, hi) && 0 < mid < |es|
    ensures Between(es[mid].key, lo, hi)
    ensures LeafOk(es[..mid], lo, Some(es[mid].key)) && LeafOk(es[mid..], Some(es[mid].key), hi)
  {
    hide Less;
    TotalOrder();
    assert Less(es[0].key, es[mid].key);
    assert lo.Some? ==> !Less(es[0].key, lo.value);
    assert lo.Some? ==> (Less(lo.value, es[mid].key) <==> Rank(lo.value) < Rank(es[mid].key));
    assert forall i :: mid < i < |es| ==> Less(es[mid].key, es[i].key);
    assert forall i :: mid <= i < |es| ==> !Less(es[i].key, es[mid].key);
  }

  lemma InsertLeafOk(es: seq<KV>, key: Bytes, value: Bytes, lo: Option<Bytes>, hi: Option<Bytes>, min: nat)
    requires Ok(Leaf(es), lo, hi, 0, min) && Within(key, lo, hi)
    ensures InsertedOk(InsertLeaf(es, key, value), es, key, value, lo, hi, 0, min)
  {
    hide Less, LeafOk, Bind, CountBelow, Has, Hit;
    var es' := Bind(es, key, value);
    BindOk(es, key, value, lo, hi);
    assert Sorted(es) by { LeafSorted(es, lo, hi); }
    HasAtCount(es, key);
    if |es'| > ORDER - 1 {
      LeafSplit(es', 2, lo, hi);
      assert es'[..2] + es'[2..] == es';
    }
  }

  lemma LeafSorted(es: seq<KV>, lo: Option<Bytes>, hi: Option<Bytes>)
    requires LeafOk(es, lo, hi)
    ensures Sorted(es)
  {
  }

  /** Splitting a row of children at a separator gives two rows on either side of it. */
  lemma KidsSplit(keys: seq<Bytes>, children: seq<Node>, lo: Option<Bytes>, hi: Option<Bytes>, h: nat, mid: nat)
    requires KidsOk(keys, children, lo, hi, h) && mid < |keys|
    ensures Between(keys[mid], lo, hi)
    ensures KidsOk(keys[..mid], children[..mid + 1], lo, Some(keys[mid]), h)
    ensures KidsOk(keys[mid + 1..], children[mid + 1..], Some(keys[mid]), hi, h)
  {
    hide Less, Ok;
    forall i | 0 <= i < mid + 1
      ensures Ok(children[..mid + 1][i],
                 LowOf(lo, keys[..mid], i), HighOf(Some(keys[mid]), keys[..mid], i), h, MIN_CHILDREN)
    {
      assert children[..mid + 1][i] == children[i];
    }
    var keys', children' := keys[mid + 1..], children[mid + 1..];
    forall i | 0 <= i < |children'|
      ensures Ok(children'[i], LowOf(Some(keys[mid]), keys', i), HighOf(hi, keys', i), h, MIN_CHILDREN)
    {
      assert children'[i] == children[mid + 1 + i];
    }
  }

  lemma KidsReplace(keys: seq<Bytes>, children: seq<Node>, lo: Option<Bytes>, hi: Option<Bytes>, h: nat, i: nat,
                    n: Node)
    requires KidsOk(keys, children, lo, hi, h) && i < |children|
    requires Ok(n, LowOf(lo, keys, i), HighOf(hi, keys, i), h, MIN_CHILDREN)
    ensures KidsOk(keys, children[i := n], lo, hi, h)
  {
    hide Less, Ok, KeysOk;
    var kids := children[i := n];
    forall j | 0 <= j < |kids| ensures Ok(kids[j], LowOf(lo, keys, j), HighOf(hi, keys, j), h, MIN_CHILDREN) {
      if j != i { assert kids[j] == children[j]; }
    }
  }

  lemma KeysInsert(keys: seq<Bytes>, lo: Option<Bytes>, hi: Option<Bytes>, i: nat, k: Bytes)
    requires KeysOk(keys, lo, hi) && i <= |keys| && Between(k, LowOf(lo, keys, i), HighOf(hi, keys, i))
    ensures KeysOk(Splice(keys, i, i, [k]), lo, hi)
  {
    hide Less;
    TotalOrder();
    var keys' := Splice(keys, i, i, [k]);
    assert i > 0 ==> Between(keys[i - 1], lo, hi);
    assert i < |keys| ==> Between(keys[i], lo, hi);
    forall a, b | 0 <= a < b < |keys'| ensures Less(keys'[a], keys'[b]) {
      assert a < i ==> keys'[a] == keys[a];
      assert a > i ==> keys'[a] == keys[a - 1];
      assert b < i ==> keys'[b] == keys[b];
      assert b > i ==> keys'[b] == keys[b - 1];
      if b == i && a < i - 1 {
        assert Less(keys[a], keys[i - 1]);
      }
      if a == i && b > i + 1 {
        assert Less(keys[i], keys[b - 1]);
      }
    }
    forall a | 0 <= a < |keys'| ensures Between(keys'[a], lo, hi) {
      assert a < i ==> keys'[a] == keys[a];
      assert a > i ==> keys'[a] == keys[a - 1];
      if a == i {
        BetweenWidens(keys, lo, hi, i, k);
      }
    }
  }

  lemma BetweenWidens(keys: seq<Bytes>, lo: Option<Bytes>, hi: Option<Bytes>, i: nat, k: Bytes)
    requires KeysOk(keys, lo, hi) && i <= |keys| && Between(k, LowOf(lo, keys, i), HighOf(hi, keys, i))
    ensures Between(k, lo, hi)
  {
    hide Less;
    TotalOrder();
    assert i > 0 ==> Between(keys[i - 1], lo, hi);
    assert i < |keys| ==> Between(keys[i], lo, hi);
  }

  /** A child and the half split off it take the child's place, with the median between them. */
  lemma KidsInsert(keys: seq<Bytes>, children: seq<Node>, lo: Option<Bytes>, hi: Option<Bytes>, h: nat, i: nat,
                   l: Node, median: Bytes, r: Node)
    requires KidsOk(keys, children, lo, hi, h) && i < |children|
    requires Between(median, LowOf(lo, keys, i), HighOf(hi, keys, i))
    requires Ok(l, LowOf(lo, keys, i), Some(median), h, MIN_CHILDREN)
    requires Ok(r, Some(median), HighOf(hi, keys, i), h, MIN_CHILDREN)
    ensures KidsOk(Splice(keys, i, i, [median]), Splice(children, i, i + 1, [l, r]), lo, hi, h)
  {
    hide Less, Ok, KeysOk, Splice;
    KeysInsert(keys, lo, hi, i, median);
    var keys', kids' := Splice(keys, i, i, [median]), Splice(children, i, i + 1, [l, r]);
    forall j | 0 <= j < |kids'| ensures Ok(kids'[j], LowOf(lo, keys', j), HighOf(hi, keys', j), h, MIN_CHILDREN) {
      SpliceAt(children, i, i + 1, [l, r], j);
      if j > 0 { SpliceAt(keys, i, i, [median], j - 1); }
      if j < |keys'| { SpliceAt(keys, i, i, [median], j); }
    }
  }

  /** The entries left and right of the child that owns `key` are all below it, or all above. */
  lemma RouteSeparates(keys: seq<Bytes>, children: seq<Node>, lo: Option<Bytes>, hi: Option<Bytes>, h: nat, key: Bytes)
    requires KidsOk(keys, children, lo, hi, h) && Within(key, lo, hi)
    ensures var i := Route(keys, key);
      && Within(key, LowOf(lo, keys, i), HighOf(hi, keys, i))
      && AllBelow(AllEntries(children[..i]), key)
      && AllAbove(AllEntries(children[i + 1..]), key)
  {
    hide Less, AllEntries, Ok;
    TotalOrder();
    var i := Route(keys, key);
    if i > 0 {
      KidsEntries(keys, children, lo, hi, h, 0, i);
      assert children[0..i] == children[..i];
    } else {
      NoEntries();
      assert children[..i] == [];
    }
    if i < |keys| {
      KidsEntries(keys, children, lo, hi, h, i + 1, |children|);
      assert children[i + 1..|children|] == children[i + 1..];
    } else {
      NoEntries();
      assert children[i + 1..] == [];
    }
  }

  lemma NoEntries()
    ensures AllEntries([]) == []
  {
  }

  ghost predicate AllAbove(es: seq<KV>, k: Bytes) {
    forall i :: 0 <= i < |es| ==> Less(k, es[i].key)
  }

  lemma HasConcat(a: seq<KV>, b: seq<KV>, key: Bytes)
    ensures Has(a + b, key) <==> Has(a, key) || Has(b, key)
  {
    if Has(a, key) {
      var i :| 0 <= i < |a| && a[i].key == key;
      assert (a + b)[i].key == key;
    }
    if Has(b, key) {
      var i :| 0 <= i < |b| && b[i].key == key;
      assert (a + b)[|a| + i].key == key;
    }
  }

  lemma HasInside(a: seq<KV>, b: seq<KV>, c: seq<KV>, key: Bytes)
    requires AllBelow(a, key) && AllAbove(c, key)
    ensures Has(a + b + c, key) <==> Has(b, key)
  {
    hide Has, AllBelow, AllAbove;
    Misses(a, key);
    Misses(c, key);
    HasConcat(a + b, c, key);
    HasConcat(a, b, key);
  }

  /** The entries of a row of children with child `i` replaced. */
  lemma AroundSplice(children: seq<Node>, i: nat, kids: seq<Node>)
    requires i < |children|
    ensures AllEntries(Splice(children, i, i + 1, kids)) ==
      AllEntries(children[..i]) + AllEntries(kids) + AllEntries(children[i + 1..])
  {
    hide Entries, AllEntries;
    AllEntriesConcat(children[..i] + kids, children[i + 1..]);
    AllEntriesConcat(children[..i], kids);
  }

  lemma UpdateIsSplice<T>(s: seq<T>, i: nat, x: T)
    requires i < |s|
    ensures s[i := x] == Splice(s, i, i + 1, [x])
  {
  }

  lemma AllEntriesTwo(l: Node, r: Node)
    ensures AllEntries([l, r]) == Entries(l) + Entries(r)
  {
    hide Entries, AllEntries;
    assert [l, r] == [l] + [r];
    AllEntriesConcat([l], [r]);
    AllEntriesOne(l);
    AllEntriesOne(r);
  }

  /** What the child owes its parent becomes what the parent owes its own. */
  lemma LiftOk(keys: seq<Bytes>, children: seq<Node>, i: nat, r: Inserted, key: Bytes, value: Bytes,
               lo: Option<Bytes>, hi: Option<Bytes>, h: nat, min: nat)
    requires KidsOk(keys, children, lo, hi, h) && min <= |children| <= ORDER && i < |children| && min <= MIN_CHILDREN
    requires InsertedOk(r, Entries(children[i]), key, value, LowOf(lo, keys, i), HighOf(hi, keys, i), h, MIN_CHILDREN)
    requires Has(AllEntries(children), key) <==> Has(Entries(children[i]), key)
    requires Bind(AllEntries(children), key, value) ==
      AllEntries(children[..i]) + Bind(Entries(children[i]), key, value) + AllEntries(children[i + 1..])
    ensures InsertedOk(Lift(keys, children, i, r), AllEntries(children), key, value, lo, hi, h + 1, min)
  {
    hide Less, Bind, Has, AllEntries, KidsOk, Between, LowOf, HighOf, Splice;
    KidsLength(keys, children, lo, hi, h);
    if r.split.None? {
      hide Ok;
      UpdateIsSplice(children, i, r.node);
      AroundSplice(children, i, [r.node]);
      AllEntriesOne(r.node);
      KidsReplace(keys, children, lo, hi, h, i, r.node);
      InternalOk(keys, children[i := r.node], lo, hi, h, min);
    } else {
      hide Ok;
      var l, m, right := r.node, r.split.value.median, r.split.value.right;
      var keys', kids' := Splice(keys, i, i, [m]), Splice(children, i, i + 1, [l, right]);
      AroundSplice(children, i, [l, right]);
      AllEntriesTwo(l, right);
      KidsInsert(keys, children, lo, hi, h, i, l, m, right);
      SplitOk(keys', kids', lo, hi, h, min);
    }
  }

  lemma InternalOk(keys: seq<Bytes>, children: seq<Node>, lo: Option<Bytes>, hi: Option<Bytes>, h: nat, min: nat)
    requires KidsOk(keys, children, lo, hi, h) && min <= |children| <= ORDER
    ensures Ok(Internal(keys, children), lo, hi, h + 1, min)
  {
  }

  lemma KidsLength(keys: seq<Bytes>, children: seq<Node>, lo: Option<Bytes>, hi: Option<Bytes>, h: nat)
    requires KidsOk(keys, children, lo, hi, h)
    ensures |children| == |keys| + 1
  {
  }

  /** A row of up to six children: one node if they fit, two halves of three otherwise. */
  lemma SplitOk(keys: seq<Bytes>, children: seq<Node>, lo: Option<Bytes>, hi: Option<Bytes>, h: nat, min: nat)
    requires KidsOk(keys, children, lo, hi, h) && min <= |children| <= ORDER + 1
    ensures |children| == |keys| + 1
    ensures |children| <= ORDER ==>
      Ok(Internal(keys, children), lo, hi, h + 1, min) && Entries(Internal(keys, children)) == AllEntries(children)
    ensures |children| > ORDER ==>
      var mid := |keys| / 2;
      var l, r := Internal(keys[..mid], children[..mid + 1]), Internal(keys[mid + 1..], children[mid + 1..]);
      && Between(keys[mid], lo, hi)
      && Ok(l, lo, Some(keys[mid]), h + 1, MIN_CHILDREN) && Ok(r, Some(keys[mid]), hi, h + 1, MIN_CHILDREN)
      && Entries(l) + Entries(r) == AllEntries(children)
  {
    hide Less, KidsOk, Between, AllEntries;
    KidsLength(keys, children, lo, hi, h);
    if |children| > ORDER {
      var mid := |keys| / 2;
      assert mid == 2;
      KidsSplit(keys, children, lo, hi, h, mid);
      assert children == children[..mid + 1] + children[mid + 1..];
      AllEntriesConcat(children[..mid + 1], children[mid + 1..]);
    }
  }

  /** Inserting refines the ordered map, whatever splits on the way up. */
  lemma {:induction false} InsertOk(node: Node, key: Bytes, value: Bytes, lo: Option<Bytes>, hi: Option<Bytes>,
                                    h: nat, min: nat)
    requires Ok(node, lo, hi, h, min) && Routable(node) && Within(key, lo, hi) && min <= MIN_CHILDREN
    ensures InsertedOk(InsertRec(node, key, value), Entries(node), key, value, lo, hi, h, min)
    decreases node
  {
    hide Less, LeafOk, InsertedOk, KidsOk, Bind, Has, AllEntries, Lift, InsertLeaf, Within, LowOf, HighOf;
    match node
    case Leaf(es) => InsertLeafOk(es, key, value, lo, hi, min);
    case Internal(keys, children) =>
      KidsLength(keys, children, lo, hi, h - 1);
      var i := Route(keys, key);
      RouteSeparates(keys, children, lo, hi, h - 1, key);
      KidOk(keys, children, lo, hi, h - 1, i);
      InsertOk(children[i], key, value, LowOf(lo, keys, i), HighOf(hi, keys, i), h - 1, MIN_CHILDREN);
      OwnerOnly(keys, children, lo, hi, h - 1, min, key, value);
      LiftOk(keys, children, i, InsertRec(children[i], key, value), key, value, lo, hi, h - 1, min);
  }

  lemma KidOk(keys: seq<Bytes>, children: seq<Node>, lo: Option<Bytes>, hi: Option<Bytes>, h: nat, i: nat)
    requires KidsOk(keys, children, lo, hi, h) && i <= |keys|
    ensures Ok(children[i], LowOf(lo, keys, i), HighOf(hi, keys, i), h, MIN_CHILDREN)
  {
    hide Ok, KeysOk;
  }

  /** Reading or changing `key` in a row of children is reading or changing it in the child that owns it. */
  lemma OwnerOnly(keys: seq<Bytes>, children: seq<Node>, lo: Option<Bytes>, hi: Option<Bytes>, h: nat, min: nat,
                  key: Bytes, value: Bytes)
    requires KidsOk(keys, children, lo, hi, h) && Within(key, lo, hi)
    ensures var i := Route(keys, key);
      var before, owned, after := AllEntries(children[..i]), Entries(children[i]), AllEntries(children[i + 1..]);
      && AllEntries(children) == before + owned + after && Sorted(AllEntries(children))
      && (Has(AllEntries(children), key) <==> Has(owned, key))
      && Bind(AllEntries(children), key, value) == before + Bind(owned, key, value) + after
      && Unbind(AllEntries(children), key) == before + Unbind(owned, key) + after
  {
    hide Less, Bind, Unbind, Has, AllEntries, Entries, KidsOk;
    KidsLength(keys, children, lo, hi, h);
    var i := Route(keys, key);
    var before, owned, after := AllEntries(children[..i]), Entries(children[i]), AllEntries(children[i + 1..]);
    RouteSeparates(keys, children, lo, hi, h, key);
    Around(children, i);
    KidsEntries(keys, children, lo, hi, h, 0, |children|);
    assert children[0..|children|] == children;
    HasInside(before, owned, after, key);
    BindInside(before, owned, after, key, value);
    UnbindInside(before, owned, after, key);
  }

  // ---- get and delete ----

  lemma {:induction false} FindHas(es: seq<KV>, key: Bytes)
    ensures Find(es, key).Some? <==> Has(es, key)
  {
    if es != [] {
      FindHas(es[1..], key);
      if Has(es, key) && es[0].key != key {
        var i :| 0 <= i < |es| && es[i].key == key;
        assert es[1..][i - 1].key == key;
      }
    }
  }

  lemma {:induction false} FindSkips(a: seq<KV>, b: seq<KV>, key: Bytes)
    requires !Has(a, key)
    ensures Find(a + b, key) == Find(b, key)
  {
    if a == [] {
      assert a + b == b;
    } else {
      assert a[0].key != key;
      forall i | 0 <= i < |a[1..]| ensures a[1..][i].key != key {
        assert a[1..][i] == a[i + 1];
      }
      FindSkips(a[1..], b, key);
      assert (a + b)[0] == a[0] && (a + b)[1..] == a[1..] + b;
    }
  }

  lemma {:induction false} FindStops(a: seq<KV>, b: seq<KV>, key: Bytes)
    requires !Has(b, key)
    ensures Find(a + b, key) == Find(a, key)
  {
    if a == [] {
      assert a + b == b;
      FindHas(b, key);
    } else {
      FindStops(a[1..], b, key);
      assert (a + b)[0] == a[0] && (a + b)[1..] == a[1..] + b;
    }
  }

  lemma Misses(es: seq<KV>, key: Bytes)
    ensures AllBelow(es, key) ==> !Has(es, key)
    ensures AllAbove(es, key) ==> !Has(es, key)
  {
    hide Less;
    TotalOrder();
    if Has(es, key) {
      var i :| 0 <= i < |es| && es[i].key == key;
      assert Less(es[i].key, key) <==> Rank(es[i].key) < Rank(key);
    }
  }

  /** A lookup that follows the separators finds what the whole run of entries holds. */
  lemma {:induction false} GetOk(node: Node, key: Bytes, lo: Option<Bytes>, hi: Option<Bytes>, h: nat, min: nat)
    requires Ok(node, lo, hi, h, min) && Routable(node) && Within(key, lo, hi)
    ensures GetRec(node, key) == Find(Entries(node), key)
    decreases node
  {
    hide Less, LeafOk, KidsOk, Has, AllEntries, Within, LowOf, HighOf, AllBelow, AllAbove, Find;
    match node
    case Leaf(es) =>
    case Internal(keys, children) =>
      KidsLength(keys, children, lo, hi, h - 1);
      var i := Route(keys, key);
      var before, owned, after := AllEntries(children[..i]), Entries(children[i]), AllEntries(children[i + 1..]);
      RouteSeparates(keys, children, lo, hi, h - 1, key);
      KidOk(keys, children, lo, hi, h - 1, i);
      GetOk(children[i], key, LowOf(lo, keys, i), HighOf(hi, keys, i), h - 1, MIN_CHILDREN);
      Around(children, i);
      Misses(before, key);
      Misses(after, key);
      FindStops(before + owned, after, key);
      FindSkips(before, owned, key);
  }

  /** A delete removes the key's entry, and keeps every separator, depth and fan-out as it was. */
  lemma {:induction false} DeleteOk(node: Node, key: Bytes, lo: Option<Bytes>, hi: Option<Bytes>, h: nat, min: nat)
    requires Ok(node, lo, hi, h, min) && Routable(node) && Within(key, lo, hi)
    ensures Ok(DeleteRec(node, key).node, lo, hi, h, min)
    ensures Entries(DeleteRec(node, key).node) == Unbind(Entries(node), key)
    ensures DeleteRec(node, key).removed <==> Has(Entries(node), key)
    decreases node
  {
    hide Less, LeafOk, KidsOk, Has, AllEntries, Within, LowOf, HighOf, AllBelow, AllAbove, Unbind, Bind;
    match node
    case Leaf(es) =>
      DeleteLeafOk(es, key, lo, hi);
      LeafSorted(es, lo, hi);
      HasAtCount(es, key);
    case Internal(keys, children) =>
      KidsLength(keys, children, lo, hi, h - 1);
      var i := Route(keys, key);
      RouteSeparates(keys, children, lo, hi, h - 1, key);
      KidOk(keys, children, lo, hi, h - 1, i);
      DeleteOk(children[i], key, LowOf(lo, keys, i), HighOf(hi, keys, i), h - 1, MIN_CHILDREN);
      OwnerOnly(keys, children, lo, hi, h - 1, min, key, []);
      var child := DeleteRec(children[i], key).node;
      KidsReplace(keys, children, lo, hi, h - 1, i, child);
      UpdateIsSplice(children, i, child);
      AroundSplice(children, i, [child]);
      AllEntriesOne(child);
  }

  lemma DeleteLeafOk(es: seq<KV>, key: Bytes, lo: Option<Bytes>, hi: Option<Bytes>)
    requires LeafOk(es, lo, hi)
    ensures LeafOk(Unbind(es, key), lo, hi) && |Unbind(es, key)| <= |es|
  {
    hide LeafOk, CountBelow;
    UnbindOk(es, key, lo, hi);
  }
}
