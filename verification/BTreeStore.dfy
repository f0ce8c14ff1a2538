/** The tree as a mutable ordered map. */
module BTreeStore {
  import opened Types
  import opened Codec
  import opened Order
  import opened BTree

  // ---- entries and maps ----

  function MapOf(es: seq<KV>): map<Bytes, Bytes> {
    if es == [] then map[] else MapOf(es[..|es| - 1])[es[|es| - 1].key := es[|es| - 1].value]
  }

  lemma {:induction false} MapHas(es: seq<KV>, key: Bytes)
    ensures key in MapOf(es) <==> Has(es, key)
  {
    if es != [] {
      var n := |es| - 1;
      MapHas(es[..n], key);
      if Has(es[..n], key) {
        var i :| 0 <= i < n && es[..n][i].key == key;
        assert es[i].key == key;
      }
      if es[n].key == key {
        assert Has(es, key);
      } else if Has(es, key) {
        var i :| 0 <= i < |es| && es[i].key == key;
        assert es[..n][i].key == key;
      }
    }
  }

  /** Every entry of a sorted run is in its map. */
  lemma {:induction false} MapAt(es: seq<KV>, i: nat)
    requires Sorted(es) && i < |es|
    ensures es[i].key in MapOf(es) && MapOf(es)[es[i].key] == es[i].value
  {
    hide Less;
    var n := |es| - 1;
    if i < n {
      assert Sorted(es[..n]) by { SortedPart(es, 0, n); assert es[0..n] == es[..n]; }
      MapAt(es[..n], i);
      TotalOrder();
      assert Less(es[i].key, es[n].key);
    }
  }

  lemma SortedPart(es: seq<KV>, i: nat, j: nat)
    requires Sorted(es) && i <= j <= |es|
    ensures Sorted(es[i..j])
  {
    hide Less;
  }

  lemma {:induction false} FindAt(es: seq<KV>, key: Bytes) returns (i: nat)
    requires Has(es, key)
    ensures i < |es| && es[i].key == key && Find(es, key) == Some(es[i].value)
  {
    if es[0].key == key {
      i := 0;
    } else {
      var j :| 0 <= j < |es| && es[j].key == key;
      assert es[1..][j - 1].key == key;
      i := FindAt(es[1..], key);
      i := i + 1;
    }
  }

  /** A lookup in a sorted run is a lookup in its map. */
  lemma FindIsMap(es: seq<KV>, key: Bytes)
    requires Sorted(es)
    ensures Find(es, key) == if key in MapOf(es) then Some(MapOf(es)[key]) else None
  {
    hide Sorted, MapOf, Find, Has;
    MapHas(es, key);
    FindHas(es, key);
    if Has(es, key) {
      var i := FindAt(es, key);
      MapAt(es, i);
    }
  }

  lemma {:induction false} MapSize(es: seq<KV>)
    requires Sorted(es)
    ensures |MapOf(es)| == |es|
  {
    hide Less;
    if es != [] {
      var n := |es| - 1;
      SortedPart(es, 0, n);
      assert es[0..n] == es[..n];
      MapSize(es[..n]);
      MapHas(es[..n], es[n].key);
      assert !Has(es[..n], es[n].key) by { LastIsNew(es); }
    }
  }

  lemma LastIsNew(es: seq<KV>)
    requires Sorted(es) && es != []
    ensures !Has(es[..|es| - 1], es[|es| - 1].key)
  {
    hide Less;
    TotalOrder();
    var n := |es| - 1;
    forall i | 0 <= i < n ensures es[..n][i].key != es[n].key {
      assert Less(es[i].key, es[n].key);
    }
  }

  /** Binding a key in a sorted run binds it in its map, and nothing else changes. */
  lemma BindIsMap(es: seq<KV>, key: Bytes, value: Bytes)
    requires Sorted(es)
    ensures MapOf(Bind(es, key, value)) == MapOf(es)[key := value]
  {
    hide Sorted, MapOf, Bind, Has, CountBelow;
    var es' := Bind(es, key, value);
    BindSorted(es, key, value);
    BindAt(es, key, value);
    forall k | k in MapOf(es') ensures k in MapOf(es)[key := value] && MapOf(es')[k] == MapOf(es)[key := value][k] {
      MapHas(es', k);
      var i := FindAt(es', k);
      MapAt(es', i);
      MapOldOrNew(es, key, value, i);
    }
    forall k | k in MapOf(es)[key := value] ensures k in MapOf(es') {
      MapHas(es', k);
      if k != key {
        MapHas(es, k);
        var i := FindAt(es, k);
        OldStays(es, key, value, i);
      }
    }
  }

  lemma BindAt(es: seq<KV>, key: Bytes, value: Bytes)
    ensures Has(Bind(es, key, value), key) && key in MapOf(Bind(es, key, value))
  {
    hide CountBelow, MapOf;
    var es' := Bind(es, key, value);
    assert es'[CountBelow(es, key)].key == key;
    MapHas(es', key);
  }

  lemma MapOldOrNew(es: seq<KV>, key: Bytes, value: Bytes, i: nat)
    requires Sorted(es) && i < |Bind(es, key, value)|
    ensures var e := Bind(es, key, value)[i];
      if e.key == key then e.value == value else e.key in MapOf(es) && MapOf(es)[e.key] == e.value
  {
    hide CountBelow, MapOf, Less;
    var n, es' := CountBelow(es, key), Bind(es, key, value);
    if i < n {
      assert es'[i] == es[i];
      MapAt(es, i);
      TotalOrder();
      assert Less(es[i].key, key);
    } else if i > n {
      var j := if Hit(es, n, key) then i else i - 1;
      assert es'[i] == es[j];
      MapAt(es, j);
      TotalOrder();
      assert !Less(es[n].key, key) && (n < j ==> Less(es[n].key, es[j].key));
      assert Less(es[j].key, key) <==> Rank(es[j].key) < Rank(key);
    }
  }

  lemma OldStays(es: seq<KV>, key: Bytes, value: Bytes, i: nat)
    requires i < |es| && es[i].key != key
    ensures Has(Bind(es, key, value), es[i].key)
  {
    hide CountBelow;
    var n, es' := CountBelow(es, key), Bind(es, key, value);
    if i < n {
      assert es'[i] == es[i];
    } else if Hit(es, n, key) {
      assert es'[i] == es[i];
    } else {
      assert es'[i + 1] == es[i];
    }
  }

  /** Removing a key from a sorted run removes it from its map, and nothing else changes. */
  lemma UnbindIsMap(es: seq<KV>, key: Bytes)
    requires Sorted(es)
    ensures MapOf(Unbind(es, key)) == MapOf(es) - {key}
    ensures |Unbind(es, key)| == |es| - (if Has(es, key) then 1 else 0)
  {
    hide Sorted, MapOf, Has, CountBelow;
    var n, es' := CountBelow(es, key), Unbind(es, key);
    HasAtCount(es, key);
    UnbindSorted(es, key);
    if Hit(es, n, key) {
      forall k | k in MapOf(es') ensures k in MapOf(es) && k != key && MapOf(es')[k] == MapOf(es)[k] {
        MapHas(es', k);
        var i := FindAt(es', k);
        MapAt(es', i);
        var j := if i < n then i else i + 1;
        assert es'[i] == es[j];
        MapAt(es, j);
        OnlyOne(es, n, j);
      }
      forall k | k in MapOf(es) && k != key ensures k in MapOf(es') {
        MapHas(es, k);
        var i := FindAt(es, k);
        var j := if i < n then i else i - 1;
        assert es'[j] == es[i];
        AtHas(es', j);
        MapHas(es', k);
      }
    } else {
      MapHas(es, key);
    }
  }

  lemma AtHas(es: seq<KV>, i: nat)
    requires i < |es|
    ensures Has(es, es[i].key)
  {
  }

  lemma OnlyOne(es: seq<KV>, i: nat, j: nat)
    requires Sorted(es) && i < |es| && j < |es| && i != j
    ensures es[i].key != es[j].key
  {
    hide Less;
    TotalOrder();
    assert i < j ==> Less(es[i].key, es[j].key);
    assert j < i ==> Less(es[j].key, es[i].key);
  }

  lemma UnbindSorted(es: seq<KV>, key: Bytes)
    requires Sorted(es)
    ensures Sorted(Unbind(es, key))
  {
    hide Less, CountBelow;
  }

  // ---- ranges ----

  /** The entries that satisfy `p`, in order. */
  function Filter(es: seq<KV>, p: KV -> bool): seq<KV> {
    if es == [] then [] else Kept(es[0], p) + Filter(es[1..], p)
  }

  function Kept(e: KV, p: KV -> bool): seq<KV> { if p(e) then [e] else [] }

  function Inside(lo: Bytes, hi: Bytes): KV -> bool {
    (e: KV) => !Less(e.key, lo) && Less(e.key, hi)
  }

  lemma {:induction false} FilterConcat(a: seq<KV>, b: seq<KV>, p: KV -> bool)
    ensures Filter(a + b, p) == Filter(a, p) + Filter(b, p)
  {
    hide Kept;
    if a == [] {
      assert a + b == b;
    } else {
      FilterConcat(a[1..], b, p);
      assert (a + b)[0] == a[0] && (a + b)[1..] == a[1..] + b;
      Reassociate(Kept(a[0], p), Filter(a[1..], p), Filter(b, p));
    }
  }

  lemma {:induction false} FilterNone(es: seq<KV>, p: KV -> bool)
    requires forall i :: 0 <= i < |es| ==> !p(es[i])
    ensures Filter(es, p) == []
  {
    if es != [] {
      FilterNone(es[1..], p);
    }
  }

  lemma {:induction false} FilterAll(es: seq<KV>, p: KV -> bool)
    requires forall i :: 0 <= i < |es| ==> p(es[i])
    ensures Filter(es, p) == es
  {
    if es != [] {
      FilterAll(es[1..], p);
    }
  }

  /** A filtered run holds exactly the entries that satisfy `p`, still in order. */
  lemma {:induction false} FilterExact(es: seq<KV>, p: KV -> bool)
    requires Sorted(es)
    ensures Sorted(Filter(es, p))
    ensures forall e :: e in Filter(es, p) <==> e in es && p(e)
  {
    hide Less;
    if es != [] {
      assert es == [es[0]] + es[1..];
      SortedPart(es, 1, |es|);
      assert es[1..|es|] == es[1..];
      FilterExact(es[1..], p);
      var rest := Filter(es[1..], p);
      forall i | 0 <= i < |rest| ensures Less(es[0].key, rest[i].key) {
        assert rest[i] in es[1..];
        var j :| 0 <= j < |es[1..]| && es[1..][j] == rest[i];
        assert Less(es[0].key, es[j + 1].key);
      }
    }
  }

  lemma BeforeRange(es: seq<KV>, lo: Bytes, hi: Bytes)
    requires forall i :: 0 <= i < |es| ==> Less(es[i].key, lo)
    ensures Filter(es, Inside(lo, hi)) == []
  {
    hide Less, Filter;
    FilterNone(es, Inside(lo, hi));
  }

  lemma InRange(es: seq<KV>, lo: Bytes, hi: Bytes)
    requires Sorted(es) && (es != [] ==> !Less(es[0].key, lo))
    requires forall i :: 0 <= i < |es| ==> Less(es[i].key, hi)
    ensures Filter(es, Inside(lo, hi)) == es
  {
    hide Less, Filter;
    TotalOrder();
    forall i | 0 <= i < |es| ensures Inside(lo, hi)(es[i]) {
      assert i > 0 ==> Less(es[0].key, es[i].key);
      assert Less(es[i].key, lo) <==> Rank(es[i].key) < Rank(lo);
    }
    FilterAll(es, Inside(lo, hi));
  }

  lemma PastRange(es: seq<KV>, lo: Bytes, hi: Bytes)
    requires Sorted(es) && (es != [] ==> !Less(es[0].key, hi))
    ensures Filter(es, Inside(lo, hi)) == []
  {
    hide Less, Filter;
    TotalOrder();
    forall i | 0 <= i < |es| ensures !Inside(lo, hi)(es[i]) {
      assert i > 0 ==> Less(es[0].key, es[i].key);
      assert Less(es[i].key, hi) <==> Rank(es[i].key) < Rank(hi);
    }
    FilterNone(es, Inside(lo, hi));
  }

  lemma LeafRange(es: seq<KV>, lo: Bytes, hi: Bytes, start: nat, stop: nat)
    requires Sorted(es) && start == CountBelow(es, lo) && start <= stop <= |es|
    requires forall i :: start <= i < stop ==> Less(es[i].key, hi)
    requires stop < |es| ==> !Less(es[stop].key, hi)
    ensures es[start..stop] == Filter(es, Inside(lo, hi))
  {
    hide Less, CountBelow, Filter, Sorted;
    var a, b, c := es[..start], es[start..stop], es[stop..];
    SortedPart(es, start, stop);
    SortedPart(es, stop, |es|);
    assert es[stop..|es|] == c;
    BeforeRange(a, lo, hi);
    InRange(b, lo, hi);
    PastRange(c, lo, hi);
    assert es == a + b + c;
    FilterConcat(a + b, c, Inside(lo, hi));
    FilterConcat(a, b, Inside(lo, hi));
  }

  /** Entries below `lo`'s child, or at or past a separator not below `hi`, are outside the range. */
  lemma OutsideRange(es: seq<KV>, low: Option<Bytes>, high: Option<Bytes>, lo: Bytes, hi: Bytes)
    requires LeafOk(es, low, high)
    requires (high.Some? && !Less(lo, high.value)) || (low.Some? && !Less(low.value, hi))
    ensures Filter(es, Inside(lo, hi)) == []
  {
    hide Less, Filter;
    TotalOrder();
    forall i | 0 <= i < |es| ensures !Inside(lo, hi)(es[i]) {
      assert Within(es[i].key, low, high);
      assert Less(es[i].key, lo) <==> Rank(es[i].key) < Rank(lo);
    }
    FilterNone(es, Inside(lo, hi));
  }

  /** `collect_range`: a walk that descends only into children the separators say can hold such keys. */
  method CollectRange(node: Node, lo: Bytes, hi: Bytes, out: seq<KV>,
                      ghost low: Option<Bytes>, ghost high: Option<Bytes>, ghost h: nat, ghost min: nat)
    returns (r: seq<KV>)
    requires Ok(node, low, high, h, min)
    ensures r == out + Filter(Entries(node), Inside(lo, hi))
    decreases node
  {
    hide Less, LeafOk, KidsOk, Filter, AllEntries, LowOf, HighOf, CountBelow;
    r := out;
    match node
    case Leaf(es) =>
      LeafSorted(es, low, high);
      var start := CountBelow(es, lo);
      var i := start;
      while i < |es| && Less(es[i].key, hi)
        invariant start <= i <= |es| && r == out + es[start..i]
        invariant forall j :: start <= j < i ==> Less(es[j].key, hi)
      {
        r := r + [es[i]];
        i := i + 1;
      }
      LeafRange(es, lo, hi, start, i);
    case Internal(keys, children) =>
      KidsLength(keys, children, low, high, h - 1);
      var first := Route(keys, lo);
      var i := first;
      SkippedBelow(keys, children, low, high, h - 1, lo, hi);
      while i < |children| && (i == 0 || Less(keys[i - 1], hi))
        invariant first <= i <= |children|
        invariant r == out + Filter(AllEntries(children[..i]), Inside(lo, hi))
      {
        ghost var sofar := r;
        KidOk(keys, children, low, high, h - 1, i);
        r := CollectRange(children[i], lo, hi, r, LowOf(low, keys, i), HighOf(high, keys, i), h - 1, MIN_CHILDREN);
        NextChild(children, i, Inside(lo, hi));
        i := i + 1;
      }
      RangeDone(keys, children, low, high, h - 1, lo, hi, i);
  }

  lemma NextChild(children: seq<Node>, i: nat, p: KV -> bool)
    requires i < |children|
    ensures Filter(AllEntries(children[..i + 1]), p) ==
      Filter(AllEntries(children[..i]), p) + Filter(Entries(children[i]), p)
  {
    hide Filter, AllEntries, Entries;
    assert children[..i + 1] == children[..i] + [children[i]];
    AllEntriesConcat(children[..i], [children[i]]);
    AllEntriesOne(children[i]);
    FilterConcat(AllEntries(children[..i]), Entries(children[i]), p);
  }

  lemma SkippedBelow(keys: seq<Bytes>, children: seq<Node>, low: Option<Bytes>, high: Option<Bytes>, h: nat,
                     lo: Bytes, hi: Bytes)
    requires KidsOk(keys, children, low, high, h)
    ensures |children| == |keys| + 1
    ensures Filter(AllEntries(children[..Route(keys, lo)]), Inside(lo, hi)) == []
  {
    hide Less, Filter, AllEntries, KidsOk, LeafOk;
    KidsLength(keys, children, low, high, h);
    var i := Route(keys, lo);
    if i == 0 {
      assert children[..i] == [];
      NoEntries();
      FilterNone([], Inside(lo, hi));
    } else {
      KidsEntries(keys, children, low, high, h, 0, i);
      assert children[0..i] == children[..i];
      OutsideRange(AllEntries(children[..i]), LowOf(low, keys, 0), HighOf(high, keys, i - 1), lo, hi);
    }
  }

  lemma RangeDone(keys: seq<Bytes>, children: seq<Node>, low: Option<Bytes>, high: Option<Bytes>, h: nat, lo: Bytes,
                  hi: Bytes, i: nat)
    requires KidsOk(keys, children, low, high, h)
    requires i <= |children| && |children| == |keys| + 1 && (i < |children| ==> i > 0 && !Less(keys[i - 1], hi))
    ensures Filter(AllEntries(children[..i]), Inside(lo, hi)) == Filter(AllEntries(children), Inside(lo, hi))
  {
    hide Less, Filter, AllEntries, KidsOk, LeafOk;
    if i < |children| {
      KidsEntries(keys, children, low, high, h, i, |children|);
      assert children[i..|children|] == children[i..];
      OutsideRange(AllEntries(children[i..]), LowOf(low, keys, i), HighOf(high, keys, |keys|), lo, hi);
      assert children == children[..i] + children[i..];
      AllEntriesConcat(children[..i], children[i..]);
      FilterConcat(AllEntries(children[..i]), AllEntries(children[i..]), Inside(lo, hi));
    } else {
      assert children[..i] == children;
    }
  }

  /** `collect`: the whole tree, left to right, kept where `p` says so. */
  method Collect(node: Node, p: KV -> bool, out: seq<KV>) returns (r: seq<KV>)
    ensures r == out + Filter(Entries(node), p)
    decreases node
  {
    hide Filter, AllEntries;
    r := out;
    match node
    case Leaf(es) =>
      var i := 0;
      FilterNone([], p);
      while i < |es|
        invariant i <= |es| && r == out + Filter(es[..i], p)
      {
        assert es[..i + 1] == es[..i] + [es[i]];
        FilterConcat(es[..i], [es[i]], p);
        if p(es[i]) {
          FilterAll([es[i]], p);
          r := r + [es[i]];
        } else {
          FilterNone([es[i]], p);
        }
        i := i + 1;
      }
      assert es[..i] == es;
    case Internal(keys, children) =>
      var i := 0;
      NoEntries();
      FilterNone([], p);
      while i < |children|
        invariant i <= |children| && r == out + Filter(AllEntries(children[..i]), p)
      {
        r := Collect(children[i], p, r);
        NextChild(children, i, p);
        i := i + 1;
      }
      assert children[..i] == children;
  }

  // ---- how tall a tree can be ----

  function Leaves(node: Node): nat
    decreases node
  {
    match node
    case Leaf(_) => 1
    case Internal(_, children) => AllLeaves(children)
  }

  function AllLeaves(children: seq<Node>): nat
    decreases children
  {
    if children == [] then 0 else Leaves(children[0]) + AllLeaves(children[1..])
  }

  function Pow(b: nat, n: nat): nat { if n == 0 then 1 else b * Pow(b, n - 1) }

  lemma {:induction false} AllLeavesConcat(a: seq<Node>, b: seq<Node>)
    ensures AllLeaves(a + b) == AllLeaves(a) + AllLeaves(b)
    decreases |a|
  {
    hide Leaves;
    if a == [] {
      assert a + b == b;
    } else {
      AllLeavesConcat(a[1..], b);
      assert (a + b)[0] == a[0] && (a + b)[1..] == a[1..] + b;
    }
  }

  lemma {:induction false} KidsLeaves(children: seq<Node>, each: nat)
    requires forall i :: 0 <= i < |children| ==> Leaves(children[i]) >= each
    ensures AllLeaves(children) >= |children| * each
    decreases |children|
  {
    hide Leaves;
    if children != [] {
      KidsLeaves(children[1..], each);
      assert Leaves(children[0]) >= each;
      assert |children| * each == each + |children[1..]| * each;
    }
  }

  /** A tree of height `h` has at least `min * 3^(h-1)` leaves: two thirds of `3^h` at the root, `3^h` below it. */
  lemma {:induction false} TallTreesAreWide(node: Node, lo: Option<Bytes>, hi: Option<Bytes>, h: nat, min: nat)
    requires Ok(node, lo, hi, h, min)
    ensures h == 0 ==> Leaves(node) == 1
    ensures h > 0 ==> Leaves(node) >= min * Pow(3, h - 1)
    decreases node
  {
    hide LeafOk, KidsOk, AllLeaves, LowOf, HighOf;
    match node
    case Leaf(_) =>
    case Internal(keys, children) =>
      KidsLength(keys, children, lo, hi, h - 1);
      forall i | 0 <= i < |children| ensures Leaves(children[i]) >= Pow(3, h - 1) {
        KidOk(keys, children, lo, hi, h - 1, i);
        TallTreesAreWide(children[i], LowOf(lo, keys, i), HighOf(hi, keys, i), h - 1, MIN_CHILDREN);
      }
      KidsLeaves(children, Pow(3, h - 1));
      MoreOf(min, |children|, Pow(3, h - 1));
  }

  lemma MoreOf(a: nat, b: nat, c: nat)
    requires a <= b
    ensures a * c <= b * c
  {
  }

  function LeavesAfter(r: Inserted): nat {
    Leaves(r.node) + if r.split.Some? then Leaves(r.split.value.right) else 0
  }

  lemma SpliceLeaves(children: seq<Node>, i: nat, kids: seq<Node>)
    requires i < |children|
    ensures AllLeaves(Splice(children, i, i + 1, kids)) == AllLeaves(children) - Leaves(children[i]) + AllLeaves(kids)
  {
    hide Leaves, AllLeaves;
    ThreeParts(children, i);
    AllLeavesConcat(children[..i] + kids, children[i + 1..]);
    AllLeavesConcat(children[..i], kids);
    AllLeavesConcat(children[..i] + [children[i]], children[i + 1..]);
    AllLeavesConcat(children[..i], [children[i]]);
    OneLeaves(children[i]);
  }

  lemma OneLeaves(n: Node)
    ensures AllLeaves([n]) == Leaves(n)
  {
    hide Leaves;
    assert AllLeaves([n]) == Leaves(n) + AllLeaves([]);
  }

  lemma TwoLeaves(l: Node, r: Node)
    ensures AllLeaves([l, r]) == Leaves(l) + Leaves(r)
  {
    hide Leaves, AllLeaves;
    assert [l, r] == [l] + [r];
    AllLeavesConcat([l], [r]);
    OneLeaves(l);
    OneLeaves(r);
  }

  lemma LiftLeaves(keys: seq<Bytes>, children: seq<Node>, i: nat, r: Inserted)
    requires |children| == |keys| + 1 && i < |children|
    ensures LeavesAfter(Lift(keys, children, i, r)) == AllLeaves(children) - Leaves(children[i]) + LeavesAfter(r)
  {
    hide AllLeaves, Splice;
    if r.split.None? {
      UpdateIsSplice(children, i, r.node);
      SpliceLeaves(children, i, [r.node]);
      OneLeaves(r.node);
    } else {
      var kids := Splice(children, i, i + 1, [r.node, r.split.value.right]);
      SpliceLeaves(children, i, [r.node, r.split.value.right]);
      TwoLeaves(r.node, r.split.value.right);
      if |kids| > ORDER {
        var mid := |Splice(keys, i, i, [r.split.value.median])| / 2;
        assert kids == kids[..mid + 1] + kids[mid + 1..];
        AllLeavesConcat(kids[..mid + 1], kids[mid + 1..]);
      }
    }
  }

  /** An insert adds at most one leaf. */
  lemma {:induction false} InsertLeaves(node: Node, key: Bytes, value: Bytes)
    requires Routable(node)
    ensures LeavesAfter(InsertRec(node, key, value)) <= Leaves(node) + 1
    decreases node
  {
    hide AllLeaves, Lift, Bind, LeavesAfter;
    match node
    case Leaf(es) => LeafLeaves(es, key, value);
    case Internal(keys, children) =>
      var i := Route(keys, key);
      InsertLeaves(children[i], key, value);
      LiftLeaves(keys, children, i, InsertRec(children[i], key, value));
  }

  lemma LeafLeaves(es: seq<KV>, key: Bytes, value: Bytes)
    ensures LeavesAfter(InsertLeaf(es, key, value)) <= 2
  {
    hide Bind, CountBelow;
  }

  lemma {:induction false} DeleteLeaves(node: Node, key: Bytes)
    requires Routable(node)
    ensures Leaves(DeleteRec(node, key).node) == Leaves(node)
    decreases node
  {
    hide AllLeaves, Unbind;
    match node
    case Leaf(_) =>
    case Internal(keys, children) =>
      var i := Route(keys, key);
      DeleteLeaves(children[i], key);
      var child := DeleteRec(children[i], key).node;
      UpdateIsSplice(children, i, child);
      SpliceLeaves(children, i, [child]);
      OneLeaves(child);
  }

  // ---- the tree as a map ----

  /** A split of the root lifts a new root over the two halves. */
  function Grow(r: Inserted): Node {
    if r.split.None? then r.node else Internal([r.split.value.median], [r.node, r.split.value.right])
  }

  lemma EntriesInternal(keys: seq<Bytes>, children: seq<Node>)
    ensures Entries(Internal(keys, children)) == AllEntries(children)
    ensures Leaves(Internal(keys, children)) == AllLeaves(children)
  {
  }

  lemma NewRoot(l: Node, m: Bytes, r: Node, h: nat)
    requires Ok(l, None, Some(m), h, MIN_CHILDREN) && Ok(r, Some(m), None, h, MIN_CHILDREN)
    ensures Ok(Internal([m], [l, r]), None, None, h + 1, 2)
    ensures Entries(Internal([m], [l, r])) == Entries(l) + Entries(r)
    ensures Leaves(Internal([m], [l, r])) == Leaves(l) + Leaves(r)
  {
    hide Less, Entries, Leaves;
    AllEntriesTwo(l, r);
    TwoLeaves(l, r);
    EntriesInternal([m], [l, r]);
  }

  /** The tree is a well-formed tree of height `h` for the map `m`, reached with at most `inserts` inserts. */
  ghost predicate Refines(root: Node, m: map<Bytes, Bytes>, h: nat, inserts: nat) {
    Ok(root, None, None, h, 2) && MapOf(Entries(root)) == m && Leaves(root) <= 1 + inserts
  }

  lemma RootSorted(root: Node, h: nat)
    requires Ok(root, None, None, h, 2)
    ensures Sorted(Entries(root)) && Routable(root) && LeafOk(Entries(root), None, None)
  {
    hide Ok, Entries, Less, LeafOk;
    OkIsRoutable(root, None, None, h, 2);
    EntriesOk(root, None, None, h, 2);
    LeafSorted(Entries(root), None, None);
  }

  lemma InsertRefines(root: Node, m: map<Bytes, Bytes>, h: nat, inserts: nat, key: Bytes,
                      value: Bytes) returns (h': nat)
    requires Refines(root, m, h, inserts) && Routable(root)
    ensures var r := InsertRec(root, key, value);
      && Refines(Grow(r), m[key := value], h', inserts + 1)
      && (r.added <==> key !in m)
      && |Entries(Grow(r))| == |Entries(root)| + if r.added then 1 else 0
  {
    hide Less, Ok, Entries, Bind, MapOf, Sorted, Has, Leaves;
    var es, r := Entries(root), InsertRec(root, key, value);
    RootSorted(root, h);
    InsertOk(root, key, value, None, None, h, 2);
    BindIsMap(es, key, value);
    BindOk(es, key, value, None, None);
    MapHas(es, key);
    InsertLeaves(root, key, value);
    h' := h;
    if r.split.Some? {
      NewRoot(r.node, r.split.value.median, r.split.value.right, h);
      h' := h + 1;
    }
  }

  lemma DeleteRefines(root: Node, m: map<Bytes, Bytes>, h: nat, inserts: nat, key: Bytes)
    requires Refines(root, m, h, inserts) && Routable(root)
    ensures var r := DeleteRec(root, key);
      && Refines(r.node, m - {key}, h, inserts)
      && (r.removed <==> key in m)
      && |Entries(r.node)| == |Entries(root)| - if r.removed then 1 else 0
  {
    hide Less, Ok, Entries, MapOf, Sorted, Unbind, Has, Leaves;
    var es := Entries(root);
    RootSorted(root, h);
    MapHas(es, key);
    DeleteOk(root, key, None, None, h, 2);
    UnbindIsMap(es, key);
    DeleteLeaves(root, key);
  }

  lemma GetRefines(root: Node, m: map<Bytes, Bytes>, h: nat, inserts: nat, key: Bytes)
    requires Refines(root, m, h, inserts) && Routable(root)
    ensures GetRec(root, key) == if key in m then Some(m[key]) else None
  {
    hide Less, Ok, Entries, MapOf, Sorted, Find, Leaves;
    RootSorted(root, h);
    GetOk(root, key, None, None, h, 2);
    FindIsMap(Entries(root), key);
  }

  datatype Edit = Insertion(key: Bytes, value: Bytes) | Deletion(key: Bytes)

  /** The tree after a sequence of edits. */
  ghost function RunTree(edits: seq<Edit>): Node {
    if edits == [] then Leaf([])
    else
      var t := RunTree(edits[..|edits| - 1]);
      if !Routable(t) then t
      else match edits[|edits| - 1]
        case Insertion(key, value) => Grow(InsertRec(t, key, value))
        case Deletion(key) => DeleteRec(t, key).node
  }

  /** The ordered map after the same edits. */
  function RunMap(edits: seq<Edit>): map<Bytes, Bytes> {
    if edits == [] then map[]
    else
      var m := RunMap(edits[..|edits| - 1]);
      match edits[|edits| - 1]
      case Insertion(key, value) => m[key := value]
      case Deletion(key) => m - {key}
  }

  /** How many of the edits are insertions. */
  function Inserts(edits: seq<Edit>): nat {
    if edits == [] then 0
    else Inserts(edits[..|edits| - 1]) + if edits[|edits| - 1].Insertion? then 1 else 0
  }

  /**
   * For every sequence of inserts, replacements and deletes the tree is well formed (strict separators,
   * all leaves at one depth, 3 to 5 children below the root) and stands for exactly the map.
   */
  lemma {:induction false} EveryRunRefines(edits: seq<Edit>) returns (h: nat)
    ensures Refines(RunTree(edits), RunMap(edits), h, Inserts(edits)) && Routable(RunTree(edits))
  {
    hide Refines, Routable, InsertRec, DeleteRec, Grow;
    if edits == [] {
      h := 0;
      EmptyRefines();
    } else {
      var init := edits[..|edits| - 1];
      h := EveryRunRefines(init);
      match edits[|edits| - 1] {
        case Insertion(key, value) => h := InsertRefines(RunTree(init), RunMap(init), h, Inserts(init), key, value);
        case Deletion(key) => DeleteRefines(RunTree(init), RunMap(init), h, Inserts(init), key);
      }
      RefinesRoutes(RunTree(edits), RunMap(edits), h, Inserts(edits));
    }
  }

  lemma EmptyRefines()
    ensures Refines(Leaf([]), map[], 0, 0) && Routable(Leaf([]))
  {
  }

  lemma RefinesRoutes(root: Node, m: map<Bytes, Bytes>, h: nat, inserts: nat)
    requires Refines(root, m, h, inserts)
    ensures Routable(root)
  {
    hide Ok, Entries, MapOf, Leaves;
    RootSorted(root, h);
  }

  // ---- the tree, updated in place ----

  class Tree {
    var root: Node
    var len: nat
    ghost var height: nat
    /** How many inserts ever ran. */
    ghost var inserts: nat

    ghost predicate Valid()
      reads this
    {
      Refines(root, Contents(), height, inserts) && len == |Entries(root)|
    }

    /** The map the tree stands for. */
    ghost function Contents(): map<Bytes, Bytes>
      reads this
    {
      MapOf(Entries(root))
    }

    constructor ()
      ensures Valid() && Contents() == map[] && inserts == 0
    {
      root, len, height, inserts := Leaf([]), 0, 0, 0;
    }

    method Insert(key: Bytes, value: Bytes)
      requires Valid()
      modifies this
      ensures Valid() && Contents() == old(Contents())[key := value] && inserts == old(inserts) + 1
    {
      hide Ok, Entries, MapOf, Leaves, InsertRec, Grow;
      RootSorted(root, height);
      ghost var h := InsertRefines(root, Contents(), height, inserts, key, value);
      var r := InsertRec(root, key, value);
      if r.added {
        len := len + 1;
      }
      root := Grow(r);
      height, inserts := h, inserts + 1;
    }

    method Get(key: Bytes) returns (v: Option<Bytes>)
      requires Valid()
      ensures v == if key in Contents() then Some(Contents()[key]) else None
    {
      hide Ok, Entries, MapOf, Leaves, GetRec;
      RootSorted(root, height);
      GetRefines(root, Contents(), height, inserts, key);
      v := GetRec(root, key);
    }

    method Delete(key: Bytes) returns (removed: bool)
      requires Valid()
      modifies this`root, this`len
      ensures Valid() && Contents() == old(Contents()) - {key}
      ensures removed <==> key in old(Contents())
    {
      hide Ok, Entries, MapOf, Leaves, DeleteRec;
      RootSorted(root, height);
      DeleteRefines(root, Contents(), height, inserts, key);
      var r := DeleteRec(root, key);
      root, removed := r.node, r.removed;
      if removed {
        len := len - 1;
      }
    }

    method Len() returns (n: nat)
      requires Valid()
      ensures n == |Contents()|
    {
      hide Less, Ok, Entries, MapOf, Sorted, Leaves;
      RootSorted(root, height);
      MapSize(Entries(root));
      n := len;
    }

    /** Every entry of the map in `[lo, hi)`, in key order, and nothing else. */
    method Range(lo: Bytes, hi: Bytes) returns (out: seq<KV>)
      requires Valid()
      ensures Sorted(out)
      ensures forall e :: e in out <==>
        e.key in Contents() && Contents()[e.key] == e.value && !Less(e.key, lo) && Less(e.key, hi)
    {
      hide Less, Ok, Entries, MapOf, Sorted, Filter, Leaves;
      ghost var es := Entries(root);
      RootSorted(root, height);
      FilterExact(es, Inside(lo, hi));
      EntryIsBinding(es);
      out := [];
      if Less(lo, hi) {
        out := CollectRange(root, lo, hi, [], None, None, height, 2);
        assert out == Filter(es, Inside(lo, hi));
      } else {
        EmptyRange(es, lo, hi);
      }
    }

    /** Every entry of the map that satisfies `p`, in key order, and nothing else. */
    method Scan(p: KV -> bool) returns (out: seq<KV>)
      requires Valid()
      ensures Sorted(out)
      ensures forall e :: e in out <==> e.key in Contents() && Contents()[e.key] == e.value && p(e)
    {
      hide Less, Ok, Entries, MapOf, Sorted, Filter, Leaves;
      ghost var es := Entries(root);
      RootSorted(root, height);
      FilterExact(es, p);
      EntryIsBinding(es);
      out := Collect(root, p, []);
      assert out == Filter(es, p);
    }
  }

  lemma EntryIsBinding(es: seq<KV>)
    requires Sorted(es)
    ensures forall e :: e in es <==> e.key in MapOf(es) && MapOf(es)[e.key] == e.value
  {
    hide Sorted, MapOf;
    forall e | e in es ensures e.key in MapOf(es) && MapOf(es)[e.key] == e.value {
      var i :| 0 <= i < |es| && es[i] == e;
      MapAt(es, i);
    }
    forall e: KV | e.key in MapOf(es) && MapOf(es)[e.key] == e.value ensures e in es {
      MapHas(es, e.key);
      var i := FindAt(es, e.key);
      MapAt(es, i);
      assert es[i] == e;
    }
  }

  lemma EmptyRange(es: seq<KV>, lo: Bytes, hi: Bytes)
    requires !Less(lo, hi)
    ensures Filter(es, Inside(lo, hi)) == []
  {
    hide Less, Filter;
    TotalOrder();
    forall i | 0 <= i < |es| ensures !Inside(lo, hi)(es[i]) {
      assert Less(es[i].key, lo) <==> Rank(es[i].key) < Rank(lo);
    }
    FilterNone(es, Inside(lo, hi));
  }

  // ---- the depth limit is out of reach ----

  lemma {:induction false} PowerGrows(n: nat)
    ensures Pow(3, n) >= Pow(2, n) >= 1
  {
    if n > 0 {
      PowerGrows(n - 1);
    }
  }

  lemma {:induction false} PowerMonotone(b: nat, m: nat, n: nat)
    requires b > 0 && m <= n
    ensures Pow(b, m) <= Pow(b, n)
    decreases n
  {
    if m < n {
      PowerMonotone(b, m, n - 1);
      assert Pow(b, n) == b * Pow(b, n - 1);
      MoreOf(1, b, Pow(b, n - 1));
    }
  }

  /** A tree built with fewer than 2^64 inserts, and any number of deletes, is at most 64 levels deep. */
  lemma HeightBound(node: Node, h: nat, inserts: nat)
    requires Ok(node, None, None, h, 2) && Leaves(node) <= 1 + inserts && inserts < Pow(2, 64)
    ensures h <= 64
  {
    hide Ok, Leaves, Pow;
    if h > 64 {
      TallTreesAreWide(node, None, None, h, 2);
      PowerMonotone(3, 64, h - 1);
      PowerGrows(64);
    }
  }
}
