/** Prefix scans of an ordered map, as the snapshot and the cluster driver run them. */
module PrefixScan {
  import opened Types
  import opened Order

  /** The exclusive upper bound of the keys that start with `prefix`; `None` when there is none. */
  function PrefixEnd(prefix: Bytes): Option<Bytes> {
    if prefix == [] then None
    else
      var init, last := prefix[..|prefix| - 1], prefix[|prefix| - 1];
      if last < 255 then Some(init + [last + 1]) else PrefixEnd(init)
  }

  /** `prefix_end` as it runs: bytes popped until one can be incremented. */
  method PrefixEndLoop(prefix: Bytes) returns (r: Option<Bytes>)
    ensures r == PrefixEnd(prefix)
  {
    var end := prefix;
    while end != []
      invariant PrefixEnd(end) == PrefixEnd(prefix)
      decreases |end|
    {
      var last := end[|end| - 1];
      end := end[..|end| - 1];
      if last < 255 {
        return Some(end + [last + 1]);
      }
    }
    r := None;
  }

  /** The bound in terms of the first byte and the rest. */
  lemma {:induction false} PrefixEndFirst(h: Byte, t: Bytes)
    ensures PrefixEnd([h] + t) ==
      if PrefixEnd(t).Some? then Some([h] + PrefixEnd(t).value) else if h < 255 then Some([h + 1]) else None
    decreases |t|
  {
    var p := [h] + t;
    if t == [] {
      assert p == [h] && p[..0] == [];
      if h < 255 {
        assert p[..0] + [p[0] + 1] == [h + 1];
      }
    } else {
      var n := |t| - 1;
      assert p[..|p| - 1] == [h] + t[..n] && p[|p| - 1] == t[n];
      if t[n] == 255 {
        PrefixEndFirst(h, t[..n]);
      } else {
        assert [h] + t[..n] + [t[n] + 1] == [h] + (t[..n] + [t[n] + 1]);
      }
    }
  }

  /** A key starts with `prefix` exactly when it lies in the half-open range the scan asks for. */
  lemma {:induction false} StartsWithIsRange(prefix: Bytes, key: Bytes)
    ensures prefix <= key <==> Within(key, Some(prefix), PrefixEnd(prefix))
    decreases |prefix|
  {
    if prefix != [] {
      var h, t := prefix[0], prefix[1..];
      assert prefix == [h] + t;
      PrefixEndFirst(h, t);
      if key != [] {
        var k := key[1..];
        assert key == [key[0]] + k;
        StartsWithIsRange(t, k);
        assert prefix <= key <==> h == key[0] && t <= k;
        var e := PrefixEnd(t);
        if e.Some? {
          assert ([h] + e.value)[1..] == e.value;
        } else if h < 255 {
          var up: Bytes := [h + 1];
          assert up[1..] == [] && !Less(k, up[1..]);
          assert Less(key, up) <==> key[0] <= h;
        }
      }
    }
  }

  // ---- the driver's scan: from the prefix on, while keys start with it ----

  ghost predicate Ascending(keys: seq<Bytes>) {
    forall i, j :: 0 <= i < j < |keys| ==> Less(keys[i], keys[j])
  }

  /** The leading keys that start with `prefix`. */
  function TakeWhile(keys: seq<Bytes>, prefix: Bytes): seq<Bytes> {
    if keys == [] || !(prefix <= keys[0]) then [] else [keys[0]] + TakeWhile(keys[1..], prefix)
  }

  /** The keys at or after `prefix`. */
  function From(keys: seq<Bytes>, prefix: Bytes): seq<Bytes> {
    if keys == [] || !Less(keys[0], prefix) then keys else From(keys[1..], prefix)
  }

  lemma AscendingTail(keys: seq<Bytes>)
    requires Ascending(keys) && keys != []
    ensures Ascending(keys[1..]) && forall i :: 0 <= i < |keys[1..]| ==> Less(keys[0], keys[1..][i])
  {
    hide Less;
  }

  lemma AscendingMore(k: Bytes, keys: seq<Bytes>)
    requires Ascending(keys) && forall i :: 0 <= i < |keys| ==> Less(k, keys[i])
    ensures Ascending([k] + keys)
  {
    hide Less;
  }

  lemma {:induction false} TakeWhileExact(keys: seq<Bytes>, prefix: Bytes)
    requires Ascending(keys) && forall i :: 0 <= i < |keys| ==> !Less(keys[i], prefix)
    ensures forall k :: k in TakeWhile(keys, prefix) <==> k in keys && prefix <= k
    ensures Ascending(TakeWhile(keys, prefix))
  {
    hide Less;
    if keys != [] {
      AscendingTail(keys);
      if prefix <= keys[0] {
        TakeWhileExact(keys[1..], prefix);
        assert keys == [keys[0]] + keys[1..];
        var more := TakeWhile(keys[1..], prefix);
        forall i | 0 <= i < |more| ensures Less(keys[0], more[i]) {
          assert more[i] in keys[1..];
        }
        AscendingMore(keys[0], more);
      } else {
        TotalOrder();
        StartsWithIsRange(prefix, keys[0]);
        forall i | 0 <= i < |keys| ensures !(prefix <= keys[i]) {
          StartsWithIsRange(prefix, keys[i]);
          if i > 0 {
            assert Less(keys[0], keys[i]);
          }
        }
      }
    }
  }

  /** The driver's scan of a sorted map gives exactly the keys that start with the prefix, in order. */
  lemma {:induction false} ScanExact(keys: seq<Bytes>, prefix: Bytes)
    requires Ascending(keys)
    ensures forall k :: k in TakeWhile(From(keys, prefix), prefix) <==> k in keys && prefix <= k
    ensures Ascending(TakeWhile(From(keys, prefix), prefix))
  {
    hide Less;
    TotalOrder();
    if keys == [] {
    } else if Less(keys[0], prefix) {
      AscendingTail(keys);
      ScanExact(keys[1..], prefix);
      StartsWithIsRange(prefix, keys[0]);
      assert keys == [keys[0]] + keys[1..];
    } else {
      AscendingTail(keys);
      forall i | 0 <= i < |keys| ensures !Less(keys[i], prefix) {
        assert i > 0 ==> Less(keys[0], keys[i]);
        assert Less(keys[i], prefix) <==> Rank(keys[i]) < Rank(prefix);
      }
      TakeWhileExact(keys, prefix);
    }
  }

  // ---- the scan as it runs ----

  /** The keys of an ordered map, as it iterates them. */
  method KeysInOrder(ks: set<Bytes>) returns (keys: seq<Bytes>)
    ensures Ascending(keys) && forall k :: k in keys <==> k in ks
  {
    hide Less;
    var rest := ks;
    keys := [];
    while rest != {}
      invariant rest <= ks && Ascending(keys) && forall k :: k in keys <==> k in ks - rest
      invariant forall k, i :: k in rest && 0 <= i < |keys| ==> Less(k, keys[i])
      decreases |rest|
    {
      ghost var last := LastKey(rest);
      var k :| k in rest && forall j :: j in rest && j != k ==> Less(j, k);
      AscendingMore(k, keys);
      keys, rest := [k] + keys, rest - {k};
    }
  }

  ghost predicate InKeyOrder(ps: seq<(Bytes, Bytes)>) {
    forall i, j :: 0 <= i < j < |ps| ==> Less(ps[i].0, ps[j].0)
  }

  /** `ps` is what `m` holds under `keys`, in that order. */
  ghost predicate Lists(ps: seq<(Bytes, Bytes)>, keys: seq<Bytes>, m: Map) {
    |ps| == |keys| && forall i :: 0 <= i < |keys| ==> keys[i] in m && ps[i] == (keys[i], m[keys[i]].value)
  }

  lemma ListsExactly(ps: seq<(Bytes, Bytes)>, keys: seq<Bytes>, m: Map, prefix: Bytes)
    requires Lists(ps, keys, m) && Ascending(keys) && forall k :: k in keys <==> k in m && prefix <= k
    ensures InKeyOrder(ps) && forall k, v :: (k, v) in ps <==> k in m && prefix <= k && v == m[k].value
  {
    hide Less;
    forall k, v ensures (k, v) in ps <==> k in m && prefix <= k && v == m[k].value {
      if k in m && prefix <= k {
        assert k in keys;
        var j :| 0 <= j < |keys| && keys[j] == k;
        assert ps[j] == (k, m[k].value);
      }
    }
  }

  lemma TakeMore(keys: seq<Bytes>, i: nat, prefix: Bytes)
    requires i < |keys| && TakeWhile(keys, prefix) == keys[..i] + TakeWhile(keys[i..], prefix)
    ensures if prefix <= keys[i]
      then TakeWhile(keys, prefix) == keys[..i + 1] + TakeWhile(keys[i + 1..], prefix)
      else TakeWhile(keys, prefix) == keys[..i]
  {
    assert keys[i..][1..] == keys[i + 1..] && keys[i..][0] == keys[i];
    assert keys[..i + 1] == keys[..i] + [keys[i]];
  }

  /** The leading pairs whose key starts with `prefix`, one after another. */
  method TakePairs(keys: seq<Bytes>, m: Map, prefix: Bytes) returns (out: seq<(Bytes, Bytes)>)
    requires forall k :: k in keys ==> k in m
    ensures Lists(out, TakeWhile(keys, prefix), m)
  {
    hide TakeWhile;
    out := [];
    var i := 0;
    assert TakeWhile(keys[0..], prefix) == TakeWhile(keys, prefix) by { assert keys[0..] == keys; }
    while i < |keys|
      invariant i <= |keys| && TakeWhile(keys, prefix) == keys[..i] + TakeWhile(keys[i..], prefix)
      invariant Lists(out, keys[..i], m)
    {
      TakeMore(keys, i, prefix);
      if !(prefix <= keys[i]) {
        return;
      }
      out, i := out + [(keys[i], m[keys[i]].value)], i + 1;
    }
    TakeNone(prefix);
    assert keys[..i] == keys && keys[i..] == [] && keys + [] == keys;
  }

  lemma TakeNone(prefix: Bytes)
    ensures TakeWhile([], prefix) == []
  {
  }

  /** Exactly the bindings whose key starts with `prefix`, in key order. */
  method ScanLoop(m: Map, prefix: Bytes) returns (out: seq<(Bytes, Bytes)>)
    ensures InKeyOrder(out)
    ensures forall k, v :: (k, v) in out <==> k in m && prefix <= k && v == m[k].value
  {
    hide Less, From, TakeWhile, Ascending, InKeyOrder, Lists;
    var keys := KeysInOrder(m.Keys);
    FromIsTail(keys, prefix);
    ScanExact(keys, prefix);
    out := TakePairs(From(keys, prefix), m, prefix);
    ListsExactly(out, TakeWhile(From(keys, prefix), prefix), m, prefix);
  }

  lemma {:induction false} FromIsTail(keys: seq<Bytes>, prefix: Bytes)
    ensures forall k :: k in From(keys, prefix) ==> k in keys
  {
    hide Less;
    if keys != [] && Less(keys[0], prefix) {
      FromIsTail(keys[1..], prefix);
    }
  }
}
