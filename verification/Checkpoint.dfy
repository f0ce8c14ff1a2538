/** The checkpoint file: its encoding, its decoding, and which file recovery loads. */
module Checkpoint {
  import opened Types
  import opened Codec
  import opened Crc
  import opened Order
  import opened Replay
  import DurableStore

  const MAGIC: Bytes := [75, 83, 78, 49]
  const FORMAT: nat := 1
  const HEADER_LEN: nat := 24
  const MIN_ENTRY_LEN: nat := 16

  datatype Item = Item(key: Bytes, entry: Entry)

  // ---- a map in key order ----

  function ItemMap(items: seq<Item>): Map {
    if items == [] then map[] else ItemMap(items[..|items| - 1])[items[|items| - 1].key := items[|items| - 1].entry]
  }

  ghost predicate Ascending(items: seq<Item>) {
    forall i, j :: 0 <= i < j < |items| ==> Less(items[i].key, items[j].key)
  }

  /** `items` is `m` in key order, as an ordered map iterates. */
  ghost predicate Enumerates(items: seq<Item>, m: Map) { Ascending(items) && ItemMap(items) == m }

  /** Every map can be enumerated. */
  lemma {:induction false} Enumeration(m: Map) returns (items: seq<Item>)
    ensures Enumerates(items, m)
    decreases |m|
  {
    hide Less;
    if m == map[] {
      items := [];
    } else {
      var k := LastKey(m.Keys);
      var rest := Enumeration(m - {k});
      items := rest + [Item(k, m[k])];
      assert items[..|rest|] == rest;
      assert ItemMap(items) == m;
      forall i | 0 <= i < |rest| ensures Less(rest[i].key, k) {
        ItemInMap(rest, i);
        assert rest[i].key in (m - {k}).Keys;
      }
    }
  }

  lemma {:induction false} ItemInMap(items: seq<Item>, i: nat)
    requires i < |items|
    ensures items[i].key in ItemMap(items)
  {
    if i < |items| - 1 {
      assert items[..|items| - 1][i] == items[i];
      ItemInMap(items[..|items| - 1], i);
    }
  }

  lemma {:induction false} ItemMapKeys(items: seq<Item>, k: Bytes)
    requires k in ItemMap(items)
    ensures exists i :: 0 <= i < |items| && items[i].key == k
  {
    var n := |items| - 1;
    if items[n].key != k {
      ItemMapKeys(items[..n], k);
      var i :| 0 <= i < n && items[..n][i].key == k;
      assert items[i].key == k;
    }
  }

  /** In an ascending run each item is new to the items before it. */
  lemma NextIsNew(items: seq<Item>, n: nat)
    requires Ascending(items) && n < |items|
    ensures items[n].key !in ItemMap(items[..n])
  {
    hide Less, ItemMap;
    TotalOrder();
    forall i | 0 <= i < n ensures items[..n][i].key != items[n].key {
      assert Less(items[i].key, items[n].key);
    }
    if items[n].key in ItemMap(items[..n]) {
      ItemMapKeys(items[..n], items[n].key);
    }
  }

  lemma {:induction false} ItemCount(items: seq<Item>)
    requires Ascending(items)
    ensures |ItemMap(items)| == |items|
  {
    hide Less;
    if items != [] {
      var n := |items| - 1;
      ItemCount(items[..n]);
      NextIsNew(items, n);
    }
  }

  // ---- writing ----

  predicate ItemFits(item: Item) {
    |item.key| < U32_LIMIT && |item.entry.value| < U32_LIMIT && item.entry.version < U64_LIMIT
  }

  predicate ItemsFit(items: seq<Item>) {
    forall i :: 0 <= i < |items| ==> ItemFits(items[i])
  }

  function EncodeItem(item: Item): (b: Bytes)
    requires ItemFits(item)
    ensures |b| >= MIN_ENTRY_LEN
  {
    Chunk(item.key) + (Chunk(item.entry.value) + U64(item.entry.version))
  }

  function EncodeItems(items: seq<Item>): (b: Bytes)
    requires ItemsFit(items)
    ensures |b| >= MIN_ENTRY_LEN * |items|
  {
    if items == [] then [] else EncodeItem(items[0]) + EncodeItems(items[1..])
  }

  function Header(index: nat, count: nat): (b: Bytes)
    requires index < U64_LIMIT && count < U64_LIMIT
    ensures |b| == HEADER_LEN
  {
    MAGIC + U32(FORMAT) + (U64(index) + U64(count))
  }

  function Body(index: nat, items: seq<Item>): (b: Bytes)
    requires index < U64_LIMIT && |items| < U64_LIMIT && ItemsFit(items)
    ensures |b| >= HEADER_LEN + MIN_ENTRY_LEN * |items|
  {
    Header(index, |items|) + EncodeItems(items)
  }

  function Encode(index: nat, items: seq<Item>): Bytes
    requires index < U64_LIMIT && |items| < U64_LIMIT && ItemsFit(items)
  {
    Seal(Body(index, items))
  }

  /** A body followed by its checksum. */
  function Seal(body: Bytes): (b: Bytes)
    ensures |b| == |body| + 4
  {
    body + U32(Crc32(body))
  }

  /** A checkpoint starts with KSN1, the format 1, the index and the number of entries, and ends with the
      checksum of everything before it. */
  lemma FileBytes(index: nat, items: seq<Item>)
    requires index < U64_LIMIT && |items| < U64_LIMIT && ItemsFit(items)
    ensures var b := Encode(index, items);
            && |b| >= 28 && b[..4] == [0x4B, 0x53, 0x4E, 0x31] && FromLE(b[4..8]) == 1
            && FromLE(b[8..16]) == index && FromLE(b[16..24]) == |items|
            && b[24..|b| - 4] == EncodeItems(items) && FromLE(b[|b| - 4..]) == Crc32(b[..|b| - 4])
  {
    hide FromLE, Crc32, EncodeItems, U32, U64;
    var b, body := Encode(index, items), Body(index, items);
    assert b[..|b| - 4] == body && b[|b| - 4..] == U32(Crc32(body));
    assert b[..24] == Header(index, |items|) && b[24..|b| - 4] == EncodeItems(items);
    assert b[4..8] == b[..24][4..8] == U32(FORMAT);
    assert b[8..16] == b[..24][8..16] == U64(index);
    assert b[16..24] == b[..24][16..24] == U64(|items|);
  }

  /** An entry is its key and its value, each after its length, and its version. */
  lemma ItemBytes(item: Item)
    requires ItemFits(item)
    ensures var b, k, v := EncodeItem(item), |item.key|, |item.entry.value|;
            && |b| == 16 + k + v && FromLE(b[..4]) == k && b[4..4 + k] == item.key
            && FromLE(b[4 + k..8 + k]) == v && b[8 + k..8 + k + v] == item.entry.value
            && FromLE(b[8 + k + v..]) == item.entry.version
  {
    hide FromLE;
    var b, k, v := EncodeItem(item), |item.key|, |item.entry.value|;
    assert b[..4] == U32(k) && b[4..4 + k] == item.key;
    assert b[4 + k..8 + k] == U32(v) && b[8 + k..8 + k + v] == item.entry.value;
    assert b[8 + k + v..] == U64(item.entry.version);
  }

  // ---- reading ----

  datatype Decoded = Decoded(snap: Snapshot) | InvalidData | Unsupported

  /** One entry, and what follows it. */
  function ReadItem(b: Bytes): (r: Option<(Item, Bytes)>)
    ensures r.Some? ==> |r.value.1| < |b|
  {
    var k := ReadChunk(b);
    if k.None? then None
    else
      var v := ReadChunk(k.value.1);
      if v.None? || |v.value.1| < 8 then None
      else Some((Item(k.value.0, Entry(v.value.0, FromLE(v.value.1[..8]))), v.value.1[8..]))
  }

  /** Read `n` entries with distinct keys into `data`. */
  function ReadItems(n: nat, b: Bytes, data: Map): Option<(Map, Bytes)>
    decreases n
  {
    if n == 0 then Some((data, b))
    else
      var item := ReadItem(b);
      if item.None? || item.value.0.key in data then None
      else ReadItems(n - 1, item.value.1, data[item.value.0.key := item.value.0.entry])
  }

  /** Magic and checksum, which every format version shares. */
  predicate Sealed(b: Bytes) {
    |b| >= 12 && b[..4] == MAGIC && Crc32(b[..|b| - 4]) == FromLE(b[|b| - 4..])
  }

  function DecodeBody(body: Bytes): Decoded
    requires |body| >= 8
  {
    if FromLE(body[4..8]) != FORMAT then Unsupported
    else if |body| < HEADER_LEN then InvalidData
    else
      var count := FromLE(body[16..24]);
      if count > (|body| - HEADER_LEN) / MIN_ENTRY_LEN then InvalidData
      else
        var data := ReadItems(count, body[HEADER_LEN..], map[]);
        if data.None? || data.value.1 != [] then InvalidData
        else Decoded(Snapshot(FromLE(body[8..16]), data.value.0))
  }

  function Decode(b: Bytes): Decoded {
    if !Sealed(b) then InvalidData else DecodeBody(b[..|b| - 4])
  }

  // ---- round trip ----

  lemma ReadItemOf(item: Item, rest: Bytes)
    requires ItemFits(item)
    ensures ReadItem(EncodeItem(item) + rest) == Some((item, rest))
  {
    hide Chunk, ReadChunk, U64, FromLE;
    var k, v, n := Chunk(item.key), Chunk(item.entry.value), U64(item.entry.version);
    Reassociate(k, v + n, rest);
    Reassociate(v, n, rest);
    ReadChunkOf(item.key, v + (n + rest));
    ReadChunkOf(item.entry.value, n + rest);
    Halves(n, rest);
  }

  lemma {:induction false} ReadItemsOf(items: seq<Item>, i: nat)
    requires Ascending(items) && ItemsFit(items) && i <= |items| && ItemsFit(items[i..])
    ensures ReadItems(|items| - i, EncodeItems(items[i..]), ItemMap(items[..i])) == Some((ItemMap(items), []))
    decreases |items| - i
  {
    hide ReadItem, EncodeItem, Less;
    if i == |items| {
      assert items[..i] == items;
    } else {
      var rest := items[i + 1..];
      assert items[i..][0] == items[i] && items[i..][1..] == rest;
      ReadItemOf(items[i], EncodeItems(rest));
      NextIsNew(items, i);
      assert items[..i + 1][..i] == items[..i];
      assert ItemMap(items[..i + 1]) == ItemMap(items[..i])[items[i].key := items[i].entry];
      ReadItemsOf(items, i + 1);
    }
  }

  lemma HeaderFields(index: nat, count: nat, rest: Bytes)
    requires index < U64_LIMIT && count < U64_LIMIT
    ensures var b := Header(index, count) + rest;
      && b[..4] == MAGIC && FromLE(b[4..8]) == FORMAT
      && FromLE(b[8..16]) == index && FromLE(b[16..24]) == count && b[HEADER_LEN..] == rest
  {
    hide U32, U64, FromLE;
    var b := Header(index, count) + rest;
    assert b[4..8] == U32(FORMAT);
    assert b[8..16] == U64(index);
    assert b[16..24] == U64(count);
  }

  lemma SealFields(body: Bytes, crc: nat)
    requires crc < U32_LIMIT
    ensures var b := body + U32(crc);
      b[..|b| - 4] == body && FromLE(b[|b| - 4..]) == crc
  {
    hide U32, FromLE;
    Halves(body, U32(crc));
  }

  /** Every snapshot that fits the framing decodes back to itself. */
  lemma RoundTrip(index: nat, items: seq<Item>, m: Map)
    requires index < U64_LIMIT && |items| < U64_LIMIT && ItemsFit(items) && Enumerates(items, m)
    ensures Decode(Encode(index, items)) == Decoded(Snapshot(index, m))
  {
    hide Crc32, U32, FromLE, Header, EncodeItems, ReadItems, Less, ItemMap, ItemsFit;
    var rest := EncodeItems(items);
    var body := Body(index, items);
    SealFields(body, Crc32(body));
    HeaderFields(index, |items|, rest);
    assert Encode(index, items)[..4] == body[..4];
    assert items[0..] == items && items[..0] == [];
    ReadItemsOf(items, 0);
    NoItems();
  }

  lemma NoItems()
    ensures ItemMap([]) == map[]
  {
  }

  // ---- the other way round ----

  /** No key appears twice. */
  ghost predicate Distinct(items: seq<Item>) {
    forall i, j :: 0 <= i < j < |items| ==> items[i].key != items[j].key
  }

  lemma ItemRead(b: Bytes)
    requires ReadItem(b).Some?
    ensures var (item, rest) := ReadItem(b).value; ItemFits(item) && b == EncodeItem(item) + rest
  {
    hide Chunk, ReadChunk, FromLE;
    var k := ReadChunk(b).value;
    var v := ReadChunk(k.1).value;
    ChunkRead(b);
    ChunkRead(k.1);
    LEOfFromLE(v.1[..8]);
    Limits();
    assert v.1 == v.1[..8] + v.1[8..];
    Reassociate(Chunk(v.0), v.1[..8], v.1[8..]);
    Reassociate(Chunk(k.0), Chunk(v.0) + v.1[..8], v.1[8..]);
  }

  lemma {:induction false} ItemsRead(n: nat, b: Bytes, data: Map) returns (items: seq<Item>)
    requires ReadItems(n, b, data).Some?
    ensures |items| == n && ItemsFit(items) && Distinct(items)
    ensures forall i :: 0 <= i < n ==> items[i].key !in data
    ensures b == EncodeItems(items) + ReadItems(n, b, data).value.1
    ensures ReadItems(n, b, data).value.0 == data + ItemMap(items)
    decreases n
  {
    hide ReadItem, EncodeItem;
    if n == 0 {
      items := [];
    } else {
      var (item, rest) := ReadItem(b).value;
      ItemRead(b);
      var more := ItemsRead(n - 1, rest, data[item.key := item.entry]);
      items := [item] + more;
      assert items[0] == item && items[1..] == more;
      Reassociate(EncodeItem(item), EncodeItems(more), ReadItems(n, b, data).value.1);
      ItemMapCons(item, more);
    }
  }

  lemma {:induction false} ItemMapCons(item: Item, more: seq<Item>)
    ensures ItemMap([item] + more) == map[item.key := item.entry] + ItemMap(more)
  {
    if more == [] {
      assert [item] + more == [item] && [item][..0] == [];
    } else {
      var n := |more| - 1;
      ItemMapCons(item, more[..n]);
      assert ([item] + more)[..|more|] == [item] + more[..n];
    }
  }

  /**
   * Every file that decodes is, byte for byte, the encoding of its index and of entries with distinct keys
   * that make up its map; one whose magic and checksum hold is of another version exactly when it says so.
   */
  lemma DecodedIsEncoded(b: Bytes) returns (items: seq<Item>)
    ensures Decode(b) == Unsupported <==>
              && |b| >= 12 && b[..4] == [0x4B, 0x53, 0x4E, 0x31] && FromLE(b[|b| - 4..]) == Crc32(b[..|b| - 4])
              && FromLE(b[4..8]) != 1
    ensures Decode(b).Decoded? ==>
              && ItemsFit(items) && Distinct(items) && |items| < U64_LIMIT && Decode(b).snap.index < U64_LIMIT
              && b == Encode(Decode(b).snap.index, items) && Decode(b).snap.data == ItemMap(items)
  {
    hide Crc32, ReadItems, FromLE, EncodeItems, ItemMap, ItemsFit, Distinct;
    items := [];
    if Sealed(b) {
      var body := b[..|b| - 4];
      assert body[4..8] == b[4..8];
      if Decode(b).Decoded? {
        items := ItemsRead(FromLE(body[16..24]), body[HEADER_LEN..], map[]);
        BodyRead(body, items);
        LEOfFromLE(b[|b| - 4..]);
        Limits();
        assert b == body + b[|b| - 4..];
      }
    }
  }

  lemma BodyRead(body: Bytes, items: seq<Item>)
    requires |body| >= HEADER_LEN && body[..4] == MAGIC && FromLE(body[4..8]) == FORMAT
    requires |items| == FromLE(body[16..24]) && ItemsFit(items) && body[HEADER_LEN..] == EncodeItems(items)
    ensures |items| < U64_LIMIT && FromLE(body[8..16]) < U64_LIMIT && body == Body(FromLE(body[8..16]), items)
  {
    hide EncodeItems, ItemsFit, FromLE;
    LEOfFromLE(body[4..8]);
    LEOfFromLE(body[8..16]);
    LEOfFromLE(body[16..24]);
    Limits();
    assert body == body[..4] + body[4..8] + (body[8..16] + body[16..24]) + body[HEADER_LEN..];
  }

  // ---- damage ----

  /** Changing up to four consecutive bytes of a sealed file's body, or its checksum field, unseals it. */
  lemma DamageUnseals(b: Bytes, i: nat, j: nat, v: Bytes)
    requires Sealed(b) && i <= j <= |b| && j - i == |v| <= 4 && v != b[i..j]
    requires j <= |b| - 4 || i >= |b| - 4
    ensures !Sealed(b[..i] + v + b[j..])
  {
    hide Crc32, FromLE;
    var n := |b| - 4;
    var b' := b[..i] + v + b[j..];
    if j <= n {
      var body := b[..n];
      assert body == body[..i] + body[i..j] + body[j..];
      assert b'[..n] == body[..i] + v + body[j..];
      assert body[i..j] == b[i..j];
      FourByteBurstDetected(body[..i], body[i..j], v, body[j..]);
      assert b'[n..] == b[n..];
    } else {
      assert b'[..n] == b[..n];
      assert b'[i..j] == v;
      SliceOfRest(b', n, i, j);
      SliceOfRest(b, n, i, j);
      LEInjective(b'[n..], b[n..]);
    }
  }

  lemma SliceOfRest(s: Bytes, n: nat, i: nat, j: nat)
    requires n <= i <= j <= |s|
    ensures s[n..][i - n..j - n] == s[i..j]
  {
  }

  /** One changed byte of a sealed file is always seen as damage: never another version, never another map. */
  lemma OneByteDamage(b: Bytes, i: nat, x: Byte)
    requires Sealed(b) && i < |b| && x != b[i]
    ensures Decode(b[i := x]) == InvalidData
  {
    hide Sealed, DecodeBody;
    assert b[i..i + 1] == [b[i]];
    assert b[i := x] == b[..i] + [x] + b[i + 1..];
    assert |b| >= 12 by { SealedLength(b); }
    DamageUnseals(b, i, i + 1, [x]);
  }

  lemma SealedLength(b: Bytes)
    requires Sealed(b)
    ensures |b| >= 12
  {
  }

  lemma EncodedIsSealed(index: nat, items: seq<Item>)
    requires index < U64_LIMIT && |items| < U64_LIMIT && ItemsFit(items)
    ensures Sealed(Encode(index, items))
  {
    hide Crc32, U32, FromLE, Header, EncodeItems, ItemsFit;
    var body := Body(index, items);
    SealFields(body, Crc32(body));
    HeaderFields(index, |items|, EncodeItems(items));
    assert Encode(index, items)[..4] == body[..4];
  }

  // ---- which file is loaded ----

  datatype LoadResult = Loaded(snap: Option<Snapshot>, latestDamaged: bool) | Failed(error: Decoded)

  /** `load`: `snap.dat` when it is intact, else `snap.prev`. */
  function Load(dat: Option<Bytes>, prev: Option<Bytes>): LoadResult {
    if dat.None? then LoadPrevious(prev, false, Loaded(None, false))
    else
      match Decode(dat.value)
      case Decoded(snap) => Loaded(Some(snap), false)
      case InvalidData => LoadPrevious(prev, true, Failed(InvalidData))
      case Unsupported => Failed(Unsupported)
  }

  function LoadPrevious(prev: Option<Bytes>, latestDamaged: bool, absent: LoadResult): LoadResult {
    if prev.None? then absent
    else
      match Decode(prev.value)
      case Decoded(snap) => Loaded(Some(snap), latestDamaged)
      case InvalidData => Failed(InvalidData)
      case Unsupported => Failed(Unsupported)
  }

  /** A checkpoint file as the engine's model sees it. */
  function View(f: Option<Bytes>): DurableStore.Ckpt {
    if f.None? then DurableStore.Absent
    else if Decode(f.value).Decoded? then DurableStore.Intact(Decode(f.value).snap)
    else DurableStore.Damaged
  }

  /** Without files of another version, loading bytes is loading what the engine's model sees in them. */
  lemma LoadIsModelled(dat: Option<Bytes>, prev: Option<Bytes>)
    requires dat.Some? ==> !Decode(dat.value).Unsupported?
    requires prev.Some? ==> !Decode(prev.value).Unsupported?
    ensures var l, m := Load(dat, prev), DurableStore.Load(View(dat), View(prev));
      && (l.Loaded? <==> m.Loaded?)
      && (l.Loaded? ==> m.snap == l.snap.GetOr(Snapshot(0, map[])) && m.latestDamaged == l.latestDamaged)
  {
    hide Decode;
  }

  /** `load` falls back to `snap.prev` when, and only when, a byte of the written `snap.dat` changed. */
  lemma FallsBackOnDamage(index: nat, items: seq<Item>, m: Map, i: nat, x: Byte, prev: Bytes)
    requires index < U64_LIMIT && |items| < U64_LIMIT && ItemsFit(items) && Enumerates(items, m)
    requires i < |Encode(index, items)| && Decode(prev).Decoded?
    ensures Load(Some(Encode(index, items)[i := x]), Some(prev)) ==
      if x == Encode(index, items)[i] then Loaded(Some(Snapshot(index, m)), false)
      else Loaded(Some(Decode(prev).snap), true)
  {
    hide Decode, Encode, Sealed, ItemsFit, Enumerates;
    var f := Encode(index, items);
    RoundTrip(index, items, m);
    EncodedIsSealed(index, items);
    if x == f[i] {
      assert f[i := x] == f;
    } else {
      OneByteDamage(f, i, x);
    }
  }

  // ---- the writer and reader as they run ----

  /** A sink whose every byte is also folded into the checksum. */
  class Emitter {
    var out: Bytes
    const crc: Accumulator

    ghost predicate Valid()
      reads this, crc, crc.table
    {
      crc.Valid() && crc.crc == Update(POLY, Ones(), out)
    }

    constructor ()
      ensures Valid() && out == [] && fresh(crc) && fresh(crc.table)
    {
      hide Accumulator.Valid;
      out := [];
      crc := new Accumulator();
    }

    method Emit(b: Bytes)
      requires Valid()
      modifies this`out, crc`crc
      ensures Valid() && out == old(out) + b
    {
      hide Accumulator.Valid, Update;
      crc.Feed(b);
      UpdateConcat(POLY, Ones(), out, b);
      out := out + b;
    }
  }

  /** `write_body` and its checksum; refused when a key or value does not fit its length field. */
  method WriteCheckpoint(index: nat, items: seq<Item>) returns (file: Option<Bytes>)
    requires index < U64_LIMIT && |items| < U64_LIMIT
    requires forall i :: 0 <= i < |items| ==> items[i].entry.version < U64_LIMIT
    ensures file.Some? <==> ItemsFit(items)
    ensures file.Some? ==> file.value == Encode(index, items)
  {
    hide U32, U64, EncodeItem, Update, Emitter.Valid, Crc32, Accumulator.Valid;
    var e := new Emitter();
    e.Emit(MAGIC);
    e.Emit(U32(FORMAT));
    e.Emit(U64(index));
    e.Emit(U64(|items|));
    assert e.out == Header(index, |items|);
    var i := 0;
    ghost var head := e.out;
    EncodeNothing();
    assert items[..0] == [] && head + [] == head;
    while i < |items|
      invariant i <= |items| && e.Valid() && ItemsFit(items[..i])
      invariant e.out == head + EncodeItems(items[..i])
      invariant fresh(e) && fresh(e.crc)
    {
      var item := items[i];
      if |item.key| >= U32_LIMIT || |item.entry.value| >= U32_LIMIT {
        return None;
      }
      e.Emit(U32(|item.key|));
      e.Emit(item.key);
      e.Emit(U32(|item.entry.value|));
      e.Emit(item.entry.value);
      e.Emit(U64(item.entry.version));
      EncodeNext(items, i, head);
      i := i + 1;
    }
    assert items[..i] == items;
    var crc := e.crc.Finish();
    assert crc == Crc32(e.out) by { Finished(e.crc.crc, e.out); FinishedValid(e); }
    file := Some(e.out + U32(crc));
  }

  lemma EncodeNothing()
    ensures EncodeItems([]) == []
  {
  }

  lemma FinishedValid(e: Emitter)
    requires e.Valid()
    ensures e.crc.crc == Update(POLY, Ones(), e.out)
  {
    hide Update, Accumulator.Valid;
  }

  lemma Finished(w: Word, data: Bytes)
    ensures w == Update(POLY, Ones(), data) ==> Value(Not(w)) == Crc32(data)
  {
    hide Update, Value, Not;
  }

  lemma EncodeNext(items: seq<Item>, i: nat, head: Bytes)
    requires i < |items| && ItemsFit(items[..i]) && ItemFits(items[i])
    ensures ItemsFit(items[..i + 1])
    ensures var item := items[i];
      head + EncodeItems(items[..i]) + U32(|item.key|) + item.key + U32(|item.entry.value|) + item.entry.value +
        U64(item.entry.version) == head + EncodeItems(items[..i + 1])
  {
    hide U32, U64, EncodeItems;
    var item := items[i];
    EncodeSnoc(items[..i], item);
    assert items[..i + 1] == items[..i] + [item];
    SixParts(head + EncodeItems(items[..i]), U32(|item.key|), item.key, U32(|item.entry.value|), item.entry.value,
             U64(item.entry.version));
    Reassociate(head, EncodeItems(items[..i]), EncodeItem(item));
  }

  lemma SixParts(a: Bytes, b: Bytes, c: Bytes, d: Bytes, e: Bytes, f: Bytes)
    ensures a + b + c + d + e + f == a + ((b + c) + ((d + e) + f))
  {
  }

  lemma {:induction false} EncodeSnoc(items: seq<Item>, item: Item)
    requires ItemsFit(items) && ItemFits(item)
    ensures ItemsFit(items + [item]) && EncodeItems(items + [item]) == EncodeItems(items) + EncodeItem(item)
  {
    hide EncodeItem, ItemFits;
    if items == [] {
      assert items + [item] == [item] && [item][1..] == [];
    } else {
      EncodeSnoc(items[1..], item);
      assert (items + [item])[0] == items[0] && (items + [item])[1..] == items[1..] + [item];
      Reassociate(EncodeItem(items[0]), EncodeItems(items[1..]), EncodeItem(item));
    }
  }

  /** `decode` as it runs: the shared checks, then a position moved over the entries into a map. */
  method DecodeLoop(bytes: Bytes) returns (r: Decoded)
    ensures r == Decode(bytes)
  {
    hide FromLE, Crc32, ReadItem;
    if |bytes| < 12 || bytes[..4] != MAGIC {
      return InvalidData;
    }
    var body := bytes[..|bytes| - 4];
    if Crc32(body) != FromLE(bytes[|bytes| - 4..]) {
      return InvalidData;
    }
    assert body[4..8] == bytes[4..8];
    if FromLE(bytes[4..8]) != FORMAT {
      return Unsupported;
    }
    if |bytes| < HEADER_LEN + 4 {
      return InvalidData;
    }
    var index, count := FromLE(body[8..16]), FromLE(body[16..24]);
    if count > (|body| - HEADER_LEN) / MIN_ENTRY_LEN {
      return InvalidData;
    }
    var pos, data, i := HEADER_LEN, map[], 0;
    while i < count
      invariant i <= count && HEADER_LEN <= pos <= |body|
      invariant ReadItems(count, body[HEADER_LEN..], map[]) == ReadItems(count - i, body[pos..], data)
    {
      var item := ReadItem(body[pos..]);
      if item.None? || item.value.0.key in data {
        return InvalidData;
      }
      ReadItemRest(body[pos..]);
      var next := |body| - |item.value.1|;
      assert body[next..] == body[pos..][next - pos..];
      pos, data, i := next, data[item.value.0.key := item.value.0.entry], i + 1;
    }
    if pos != |body| {
      return InvalidData;
    }
    r := Decoded(Snapshot(index, data));
  }

  lemma ReadItemRest(b: Bytes)
    requires ReadItem(b).Some?
    ensures var rest := ReadItem(b).value.1; |rest| < |b| && rest == b[|b| - |rest|..]
  {
    hide FromLE;
  }
}
