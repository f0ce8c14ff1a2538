/** The byte order of keys. */
module Order {
  import opened Types

  /** Lexicographic order, a proper prefix first. */
  predicate Less(a: Bytes, b: Bytes) {
    b != [] && (a == [] || a[0] < b[0] || (a[0] == b[0] && Less(a[1..], b[1..])))
  }

  /** A key read as the digits, one up, of a fraction in base 257: numbers in the order of keys. */
  ghost function Rank(s: Bytes): (r: real)
    ensures 0.0 <= r < 1.0
  {
    if s == [] then 0.0 else (s[0] as real + 1.0 + Rank(s[1..])) / 257.0
  }

  lemma {:induction false} LessIsRank(a: Bytes, b: Bytes)
    ensures Less(a, b) <==> Rank(a) < Rank(b)
    ensures Rank(a) == Rank(b) ==> a == b
  {
    if a != [] && b != [] {
      LessIsRank(a[1..], b[1..]);
      assert a == [a[0]] + a[1..] && b == [b[0]] + b[1..];
    }
  }

  /** Keys are totally ordered: they compare as their ranks do, and equal ranks are equal keys. */
  lemma TotalOrder()
    ensures forall a, b {:trigger Less(a, b)} ::
      (Less(a, b) <==> Rank(a) < Rank(b)) && (Rank(a) == Rank(b) ==> a == b)
  {
    forall a: Bytes, b: Bytes
      ensures (Less(a, b) <==> Rank(a) < Rank(b)) && (Rank(a) == Rank(b) ==> a == b)
    {
      LessIsRank(a, b);
    }
  }

  /** A half-open interval of keys, unbounded where a bound is missing. */
  predicate Within(k: Bytes, lo: Option<Bytes>, hi: Option<Bytes>) {
    (lo.Some? ==> !Less(k, lo.value)) && (hi.Some? ==> Less(k, hi.value))
  }

  /** Every non-empty finite set of keys has a greatest one. */
  lemma {:induction false} LastKey(keys: set<Bytes>) returns (k: Bytes)
    requires keys != {}
    ensures k in keys && forall k' :: k' in keys && k' != k ==> Less(k', k)
    decreases |keys|
  {
    hide Less;
    TotalOrder();
    var x :| x in keys;
    if keys == {x} {
      k := x;
    } else {
      var rest := keys - {x};
      assert |rest| < |keys|;
      k := LastKey(rest);
      if Less(k, x) {
        forall k' | k' in keys && k' != x ensures Less(k', x) {
          assert k' in rest && (k' != k ==> Less(k', k));
          assert Less(k', x) <==> Rank(k') < Rank(x);
        }
        k := x;
      } else {
        assert Less(x, k) <==> Rank(x) < Rank(k);
      }
    }
  }
}
