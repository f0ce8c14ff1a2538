/** Fixed-width integers as bytes, in either order. */
module Codec {
  import opened Types

  const U32_LIMIT: nat := 0x1_0000_0000
  const U64_LIMIT: nat := 0x1_0000_0000_0000_0000

  /** The bytes of `n`, least significant first, in width `w`. */
  function LE(n: nat, w: nat): (b: Bytes)
    ensures |b| == w
  {
    if w == 0 then [] else [n % 256] + LE(n / 256, w - 1)
  }

  function FromLE(b: Bytes): nat {
    if b == [] then 0 else b[0] + 256 * FromLE(b[1..])
  }

  /** The bytes of `n`, most significant first, in width `w`. */
  function BE(n: nat, w: nat): (b: Bytes)
    ensures |b| == w
  {
    if w == 0 then [] else BE(n / 256, w - 1) + [n % 256]
  }

  function FromBE(b: Bytes): nat {
    if b == [] then 0 else 256 * FromBE(b[..|b| - 1]) + b[|b| - 1]
  }

  function Limit(w: nat): nat { if w == 0 then 1 else 256 * Limit(w - 1) }

  lemma {:induction false} FromLEOfLE(n: nat, w: nat)
    requires n < Limit(w)
    ensures FromLE(LE(n, w)) == n
  {
    if w > 0 {
      FromLEOfLE(n / 256, w - 1);
      assert LE(n, w)[1..] == LE(n / 256, w - 1);
    }
  }

  lemma {:induction false} LEOfFromLE(b: Bytes)
    ensures FromLE(b) < Limit(|b|) && LE(FromLE(b), |b|) == b
  {
    if b != [] {
      LEOfFromLE(b[1..]);
      assert FromLE(b) % 256 == b[0] && FromLE(b) / 256 == FromLE(b[1..]);
    }
  }

  lemma {:induction false} FromBEOfBE(n: nat, w: nat)
    requires n < Limit(w)
    ensures FromBE(BE(n, w)) == n
  {
    if w > 0 {
      FromBEOfBE(n / 256, w - 1);
      assert BE(n, w)[..w - 1] == BE(n / 256, w - 1);
    }
  }

  lemma {:induction false} FromBEBound(b: Bytes)
    ensures FromBE(b) < Limit(|b|)
  {
    if b != [] {
      FromBEBound(b[..|b| - 1]);
    }
  }

  lemma LEInjective(a: Bytes, b: Bytes)
    requires |a| == |b|
    ensures FromLE(a) == FromLE(b) ==> a == b
  {
    hide FromLE, LE;
    LEOfFromLE(a);
    LEOfFromLE(b);
  }

  lemma Limits()
    ensures Limit(4) == U32_LIMIT && Limit(8) == U64_LIMIT
  {
    assert Limit(4) == U32_LIMIT;
  }

  function U32(n: nat): (b: Bytes)
    requires n < U32_LIMIT
    ensures |b| == 4 && FromLE(b) == n
  {
    Limits();
    FromLEOfLE(n, 4);
    LE(n, 4)
  }

  function U64(n: nat): (b: Bytes)
    requires n < U64_LIMIT
    ensures |b| == 8 && FromLE(b) == n
  {
    Limits();
    FromLEOfLE(n, 8);
    LE(n, 8)
  }

  function U64BE(n: nat): (b: Bytes)
    requires n < U64_LIMIT
    ensures |b| == 8 && FromBE(b) == n
  {
    Limits();
    FromBEOfBE(n, 8);
    BE(n, 8)
  }

  function U32BE(n: nat): (b: Bytes)
    requires n < U32_LIMIT
    ensures |b| == 4 && FromBE(b) == n
  {
    Limits();
    FromBEOfBE(n, 4);
    BE(n, 4)
  }

  /** The first `k` bytes count ones, the others 256 to the `k`. */
  lemma {:induction false} LittleEndian(b: Bytes, k: nat)
    requires k <= |b|
    ensures FromLE(b) == FromLE(b[..k]) + Limit(k) * FromLE(b[k..])
    ensures |b| == 1 ==> FromLE(b) == b[0]
  {
    if k > 0 {
      LittleEndian(b[1..], k - 1);
      assert b[1..][..k - 1] == b[..k][1..] && b[1..][k - 1..] == b[k..];
      Times256(Limit(k - 1), FromLE(b[k..]));
    }
  }

  lemma Times256(x: nat, y: nat)
    ensures 256 * x * y == 256 * (x * y)
  {
  }

  /** In the other order the last `k` bytes count ones. */
  lemma {:induction false} BigEndian(b: Bytes, k: nat)
    requires k <= |b|
    ensures FromBE(b) == Limit(k) * FromBE(b[..|b| - k]) + FromBE(b[|b| - k..])
    ensures |b| == 1 ==> FromBE(b) == b[0]
  {
    if k == 0 {
      assert b[..|b|] == b;
    } else {
      var init, high, low := b[..|b| - 1], b[..|b| - k], b[|b| - k..];
      BigEndian(init, k - 1);
      assert init[..|init| - (k - 1)] == high && init[|init| - (k - 1)..] == low[..k - 1];
      BigEndianStep(b, high, low, Limit(k - 1));
    }
  }

  lemma BigEndianStep(b: Bytes, high: Bytes, low: Bytes, x: nat)
    requires b != [] && low != [] && low[|low| - 1] == b[|b| - 1]
    requires FromBE(b[..|b| - 1]) == x * FromBE(high) + FromBE(low[..|low| - 1])
    ensures FromBE(b) == 256 * x * FromBE(high) + FromBE(low)
  {
    Times256(x, FromBE(high));
  }

  // ---- length-prefixed chunks ----

  /** `x` with its length in front of it. */
  function Chunk(x: Bytes): (b: Bytes)
    requires |x| < U32_LIMIT
    ensures |b| == 4 + |x|
  {
    U32(|x|) + x
  }

  /** A length, then that many bytes: the bytes, and what follows them; `None` if either is cut short. */
  function ReadChunk(b: Bytes): (r: Option<(Bytes, Bytes)>)
    ensures r.Some? ==> |b| == 4 + |r.value.0| + |r.value.1|
  {
    if |b| < 4 || |b| - 4 < FromLE(b[..4]) then None
    else var len := FromLE(b[..4]); Some((b[4..4 + len], b[4 + len..]))
  }

  lemma ReadChunkOf(x: Bytes, rest: Bytes)
    requires |x| < U32_LIMIT
    ensures ReadChunk(Chunk(x) + rest) == Some((x, rest))
  {
    hide U32, FromLE;
    var b := Chunk(x) + rest;
    assert b[..4] == U32(|x|);
    assert b[4..4 + |x|] == x && b[4 + |x|..] == rest;
  }

  /** What was read as a chunk is that chunk. */
  lemma ChunkRead(b: Bytes)
    requires ReadChunk(b).Some?
    ensures var (x, rest) := ReadChunk(b).value;
      |x| == FromLE(b[..4]) < U32_LIMIT && b == Chunk(x) + rest
  {
    hide FromLE, LE;
    LEOfFromLE(b[..4]);
    Limits();
    assert b == b[..4] + b[4..4 + FromLE(b[..4])] + b[4 + FromLE(b[..4])..];
  }

  /** `x` with its length in front of it, as eight bytes. */
  function LongChunk(x: Bytes): (b: Bytes)
    requires |x| < U64_LIMIT
    ensures |b| == 8 + |x|
  {
    U64(|x|) + x
  }

  function ReadLongChunk(b: Bytes): (r: Option<(Bytes, Bytes)>)
    ensures r.Some? ==> |b| == 8 + |r.value.0| + |r.value.1|
  {
    if |b| < 8 || |b| - 8 < FromLE(b[..8]) then None
    else var len := FromLE(b[..8]); Some((b[8..8 + len], b[8 + len..]))
  }

  lemma ReadLongChunkOf(x: Bytes, rest: Bytes)
    requires |x| < U64_LIMIT
    ensures ReadLongChunk(LongChunk(x) + rest) == Some((x, rest))
  {
    hide U64, FromLE;
    var b := LongChunk(x) + rest;
    assert b[..8] == U64(|x|);
    assert b[8..8 + |x|] == x && b[8 + |x|..] == rest;
  }

  /** A four-byte number, and what follows it. */
  function ReadU32(b: Bytes): (r: Option<(nat, Bytes)>)
    ensures r.Some? ==> |b| == 4 + |r.value.1|
  {
    if |b| < 4 then None else Some((FromLE(b[..4]), b[4..]))
  }

  lemma ReadU32Of(n: nat, rest: Bytes)
    requires n < U32_LIMIT
    ensures ReadU32(U32(n) + rest) == Some((n, rest))
  {
    hide U32, FromLE;
    Halves(U32(n), rest);
  }

  // ---- taking joined sequences apart ----

  lemma Halves<T>(a: seq<T>, b: seq<T>)
    ensures (a + b)[..|a|] == a && (a + b)[|a|..] == b
  {
  }

  lemma Reassociate<T>(a: seq<T>, b: seq<T>, c: seq<T>)
    ensures a + b + c == a + (b + c)
  {
  }

  lemma Around<T>(s: seq<T>, k: nat)
    requires k < |s|
    ensures s[..k + 1] == s[..k] + [s[k]] && s == s[..k + 1] + s[k + 1..]
  {
  }
}
