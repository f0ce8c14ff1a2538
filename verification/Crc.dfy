/** The IEEE 802.3 CRC-32: the table-driven loop, the bit-serial division it stands for, and what
    damage it is certain to catch. A 32-bit word is its bits, least significant first. */
module Crc {
  import opened Types

  type Bits = seq<bool>

  type Word = w: Bits | |w| == 32 witness Zeros(32)

  function Zeros(n: nat): Bits { seq(n, _ => false) }

  // ---- numbers and bits ----

  /** The `w` low bits of `n`. */
  function ToBits(n: nat, w: nat): (b: Bits)
    ensures |b| == w
  {
    if w == 0 then [] else [n % 2 == 1] + ToBits(n / 2, w - 1)
  }

  function Value(b: Bits): nat {
    if b == [] then 0 else (if b[0] then 1 else 0) + 2 * Value(b[1..])
  }

  function Pow2(w: nat): nat { if w == 0 then 1 else 2 * Pow2(w - 1) }

  lemma {:induction false} ValueBound(b: Bits)
    ensures Value(b) < Pow2(|b|)
  {
    if b != [] {
      ValueBound(b[1..]);
    }
  }

  lemma {:induction false} BitsOfValue(b: Bits)
    ensures ToBits(Value(b), |b|) == b
  {
    if b != [] {
      BitsOfValue(b[1..]);
      assert Value(b) / 2 == Value(b[1..]);
    }
  }

  lemma {:induction false} ValueOfBits(n: nat, w: nat)
    requires n < Pow2(w)
    ensures Value(ToBits(n, w)) == n
  {
    if w > 0 {
      ValueOfBits(n / 2, w - 1);
      assert ToBits(n, w)[1..] == ToBits(n / 2, w - 1);
    }
  }

  lemma {:induction false} BitsOfSmall(n: nat, w: nat, k: nat)
    requires n < Pow2(w)
    ensures ToBits(n, w + k) == ToBits(n, w) + Zeros(k)
    decreases w, k
  {
    if w > 0 {
      BitsOfSmall(n / 2, w - 1, k);
    } else if k > 0 {
      BitsOfSmall(0, 0, k - 1);
      assert Zeros(k) == [false] + Zeros(k - 1);
    }
  }

  lemma WordBound(w: Bits)
    requires |w| == 32
    ensures Value(w) < 0x1_0000_0000
  {
    ValueBound(w);
    assert Pow2(8) == 0x100;
    assert Pow2(16) == 0x1_0000;
    assert Pow2(24) == 0x100_0000;
  }

  // ---- words ----

  function Xor(x: Word, y: Word): Word { seq(32, i requires 0 <= i < 32 => x[i] != y[i]) }

  function Not(x: Word): Word { seq(32, i requires 0 <= i < 32 => !x[i]) }

  function ShiftRight(x: Word, k: nat): Word
    requires k <= 32
  {
    x[k..] + Zeros(k)
  }

  function Ones(): Word { seq(32, _ => true) }

  /** The reflected polynomial 0xEDB88320, least significant bit first. */
  const POLY: Word := ByteOf(false, false, false, false, false, true, false, false)
                      + ByteOf(true, true, false, false, false, false, false, true)
                      + ByteOf(false, false, false, true, true, true, false, true)
                      + ByteOf(true, false, true, true, false, true, true, true)

  function ByteOf(a: bool, b: bool, c: bool, d: bool, e: bool, f: bool, g: bool, h: bool): (r: Bits)
    ensures |r| == 8
  {
    [a, b, c, d, e, f, g, h]
  }

  function Num(b: bool): nat { if b then 1 else 0 }

  lemma ByteOfValue(a: bool, b: bool, c: bool, d: bool, e: bool, f: bool, g: bool, h: bool, rest: Bits)
    ensures Value(ByteOf(a, b, c, d, e, f, g, h) + rest)
            == Num(a) + 2 * Num(b) + 4 * Num(c) + 8 * Num(d) + 16 * Num(e) + 32 * Num(f) + 64 * Num(g) + 128 * Num(h)
               + 256 * Value(rest)
  {
    ValueCons(h, rest);
    ValueCons(g, [h] + rest);
    ValueCons(f, [g] + ([h] + rest));
    ValueCons(e, [f] + ([g] + ([h] + rest)));
    var high := [e] + ([f] + ([g] + ([h] + rest)));
    ValueCons(d, high);
    ValueCons(c, [d] + high);
    ValueCons(b, [c] + ([d] + high));
    ValueCons(a, [b] + ([c] + ([d] + high)));
    assert ByteOf(a, b, c, d, e, f, g, h) + rest == [a] + ([b] + ([c] + ([d] + high)));
  }

  lemma ValueCons(b: bool, rest: Bits)
    ensures Value([b] + rest) == Num(b) + 2 * Value(rest)
  {
    assert ([b] + rest)[1..] == rest;
  }

  lemma PolyValue()
    ensures Value(POLY) == 0xEDB8_8320
  {
    var d := ByteOf(true, false, true, true, false, true, true, true);
    var c := ByteOf(false, false, false, true, true, true, false, true);
    var b := ByteOf(true, true, false, false, false, false, false, true);
    ByteOfValue(true, false, true, true, false, true, true, true, []);
    assert d + [] == d;
    ByteOfValue(false, false, false, true, true, true, false, true, d);
    ByteOfValue(true, true, false, false, false, false, false, true, c + d);
    ByteOfValue(false, false, false, false, false, true, false, false, b + (c + d));
    assert POLY == ByteOf(false, false, false, false, false, true, false, false) + (b + (c + d));
  }

  /** Complementing a word subtracts its number from the largest there is. */
  lemma NotValue(x: Word)
    ensures Value(Not(x)) == 0xFFFF_FFFF - Value(x)
  {
    ComplementValue(Not(x), x);
    assert Pow2(8) == 0x100;
    assert Pow2(16) == 0x1_0000;
    assert Pow2(24) == 0x100_0000;
  }

  lemma {:induction false} ComplementValue(a: Bits, b: Bits)
    requires |a| == |b| && forall i :: 0 <= i < |a| ==> a[i] == !b[i]
    ensures Value(a) + Value(b) == Pow2(|a|) - 1
  {
    if a != [] {
      ComplementValue(a[1..], b[1..]);
    }
  }

  lemma {:induction false} ZerosValue(n: nat)
    ensures Value(Zeros(n)) == 0
  {
    if n > 0 {
      ZerosValue(n - 1);
      assert Zeros(n)[1..] == Zeros(n - 1);
    }
  }

  lemma OnesValue()
    ensures Value(Ones()) == 0xFFFF_FFFF && Ones() == ToBits(0xFFFF_FFFF, 32)
  {
    ZerosValue(32);
    NotValue(Zeros(32));
    assert Not(Zeros(32)) == Ones();
    BitsOfValue(Ones());
  }

  // ---- the reference: one bit of the message at a time ----

  /** One step of division by the polynomial: shift, and subtract it if a one was shifted out. */
  function BitStep(p: Word, c: Word): Word {
    if c[0] then Xor(p, ShiftRight(c, 1)) else ShiftRight(c, 1)
  }

  function FlipLow(c: Word, bit: bool): Word { [c[0] != bit] + c[1..] }

  /** Divide a message, bit by bit, starting from register `c`. */
  function Divide(p: Word, c: Word, bits: Bits): Word
    decreases |bits|
  {
    if bits == [] then c else Divide(p, BitStep(p, FlipLow(c, bits[0])), bits[1..])
  }

  /** The message, least significant bit of each byte first. */
  function MessageBits(data: Bytes): Bits {
    if data == [] then [] else ToBits(data[0], 8) + MessageBits(data[1..])
  }

  /** The checksum as section 3.2.9 of IEEE 802.3 defines it: complement, divide, complement. */
  function Checksum(data: Bytes): Word {
    Not(Divide(POLY, Ones(), MessageBits(data)))
  }

  // ---- the table-driven form ----

  function Steps(p: Word, c: Word, n: nat): Word
    decreases n
  {
    if n == 0 then c else Steps(p, BitStep(p, c), n - 1)
  }

  function TableEntry(p: Word, i: nat): Word { Steps(p, ToBits(i, 32), 8) }

  /** The table index: the low byte of the register and the message byte, exclusive-ored. */
  function Index(c: Word, b: Byte): nat { Value(Xor(c, ToBits(b, 32))[..8]) }

  function ByteStep(p: Word, c: Word, b: Byte): Word { Xor(ShiftRight(c, 8), TableEntry(p, Index(c, b))) }

  function Update(p: Word, c: Word, data: Bytes): Word
    decreases |data|
  {
    if data == [] then c else Update(p, ByteStep(p, c, data[0]), data[1..])
  }

  /** The checksum as the number that is stored. */
  function Crc32(data: Bytes): (r: nat)
    ensures r < 0x1_0000_0000
  {
    var w := Not(Update(POLY, Ones(), data));
    WordBound(w);
    Value(w)
  }

  // ---- linearity and injectivity ----

  lemma BitStepLinear(p: Word, x: Word, y: Word)
    ensures BitStep(p, Xor(x, y)) == Xor(BitStep(p, x), BitStep(p, y))
  {
  }

  lemma {:induction false} StepsLinear(p: Word, x: Word, y: Word, n: nat)
    ensures Steps(p, Xor(x, y), n) == Xor(Steps(p, x, n), Steps(p, y, n))
    decreases n
  {
    if n > 0 {
      BitStepLinear(p, x, y);
      StepsLinear(p, BitStep(p, x), BitStep(p, y), n - 1);
    }
  }

  /** The top bit of a step tells which bit was shifted out, so nothing is lost. */
  lemma BitStepInjective(p: Word, x: Word, y: Word)
    requires p[31] && BitStep(p, x) == BitStep(p, y)
    ensures x == y
  {
    assert BitStep(p, x)[31] == x[0] && BitStep(p, y)[31] == y[0];
    forall i | 1 <= i < 32
      ensures x[i] == y[i]
    {
      assert BitStep(p, x)[i - 1] == BitStep(p, y)[i - 1];
    }
  }

  lemma {:induction false} StepsInjective(p: Word, x: Word, y: Word, n: nat)
    requires p[31] && Steps(p, x, n) == Steps(p, y, n)
    ensures x == y
    decreases n
  {
    if n > 0 {
      StepsInjective(p, BitStep(p, x), BitStep(p, y), n - 1);
      BitStepInjective(p, x, y);
    }
  }

  lemma {:induction false} StepsShift(p: Word, x: Word, n: nat)
    requires n <= 32 && x[..n] == Zeros(n)
    ensures Steps(p, x, n) == ShiftRight(x, n)
    decreases n
  {
    if n > 0 {
      assert !x[..n][0];
      var y := BitStep(p, x);
      assert y[..n - 1] == x[1..n];
      assert x[1..n] == x[..n][1..] == Zeros(n - 1);
      StepsShift(p, y, n - 1);
      assert ShiftRight(y, n - 1) == ShiftRight(x, n);
    } else {
      assert ShiftRight(x, 0) == x;
    }
  }

  // ---- the table-driven form computes the division ----

  /** Dividing up to 32 bits is the same as exclusive-oring them in and stepping. */
  lemma {:induction false} DivideIsSteps(p: Word, c: Word, bits: Bits)
    requires |bits| <= 32
    ensures Divide(p, c, bits) == Steps(p, Xor(c, bits + Zeros(32 - |bits|)), |bits|)
    decreases |bits|
  {
    if bits == [] {
      assert Xor(c, bits + Zeros(32)) == c;
    } else {
      var n := |bits|;
      var d := FlipLow(c, bits[0]);
      var rest: Word := [false] + bits[1..] + Zeros(32 - n);
      FlipThenXor(p, c, bits, rest);
      hide Xor, BitStep, FlipLow, Zeros;
      BitStepLinear(p, d, rest);
      DivideIsSteps(p, BitStep(p, d), bits[1..]);
    }
  }

  /** The message's first bit flips the register's; the others wait their turn. */
  lemma FlipThenXor(p: Word, c: Word, bits: Bits, rest: Word)
    requires 0 < |bits| <= 32 && rest == [false] + bits[1..] + Zeros(32 - |bits|)
    ensures Xor(c, bits + Zeros(32 - |bits|)) == Xor(FlipLow(c, bits[0]), rest)
    ensures BitStep(p, rest) == bits[1..] + Zeros(32 - (|bits| - 1))
  {
  }

  /** A word is its low byte and its high bytes, exclusive-ored. */
  lemma SplitWord(x: Word)
    ensures Xor(x[..8] + Zeros(24), Zeros(8) + x[8..]) == x && (Zeros(8) + x[8..])[..8] == Zeros(8)
  {
  }

  lemma HighBytes(c: Word, low: Bits)
    requires |low| == 8
    ensures ShiftRight(Zeros(8) + Xor(c, low + Zeros(24))[8..], 8) == ShiftRight(c, 8)
  {
  }

  /** A table lookup does eight steps of division at once. */
  lemma ByteStepDivides(p: Word, c: Word, b: Byte)
    ensures ByteStep(p, c, b) == Divide(p, c, ToBits(b, 8))
  {
    assert Pow2(8) == 256;
    hide ToBits, Steps, Divide, Value, Pow2, Xor, ShiftRight;
    BitsOfSmall(b, 8, 24);
    DivideIsSteps(p, c, ToBits(b, 8));
    var x := Xor(c, ToBits(b, 32));
    var low: Word := x[..8] + Zeros(24);
    var high: Word := Zeros(8) + x[8..];
    SplitWord(x);
    StepsLinear(p, low, high, 8);
    StepsShift(p, high, 8);
    HighBytes(c, ToBits(b, 8));
    IndexBits(x[..8]);
    assert Steps(p, low, 8) == TableEntry(p, Index(c, b));
    XorSymmetric(Steps(p, low, 8), ShiftRight(c, 8));
  }

  lemma XorSymmetric(x: Word, y: Word)
    ensures Xor(x, y) == Xor(y, x)
  {
  }

  lemma IndexBits(b: Bits)
    requires |b| == 8
    ensures ToBits(Value(b), 32) == b + Zeros(24) && Value(b) < 256
  {
    ValueBound(b);
    assert Pow2(8) == 256;
    BitsOfValue(b);
    BitsOfSmall(Value(b), 8, 24);
  }

  lemma {:induction false} DivideConcat(p: Word, c: Word, a: Bits, b: Bits)
    ensures Divide(p, c, a + b) == Divide(p, Divide(p, c, a), b)
    decreases |a|
  {
    if a == [] {
      assert a + b == b;
    } else {
      assert (a + b)[1..] == a[1..] + b;
      DivideConcat(p, BitStep(p, FlipLow(c, a[0])), a[1..], b);
    }
  }

  lemma {:induction false} UpdateDivides(p: Word, c: Word, data: Bytes)
    ensures Update(p, c, data) == Divide(p, c, MessageBits(data))
    decreases |data|
  {
    if data != [] {
      ByteStepDivides(p, c, data[0]);
      DivideConcat(p, c, ToBits(data[0], 8), MessageBits(data[1..]));
      UpdateDivides(p, ByteStep(p, c, data[0]), data[1..]);
    }
  }

  /** The number the loop computes is the checksum the standard defines: the message divided by the polynomial
      0xEDB88320, starting from the register 0xFFFFFFFF, and the remainder taken from 0xFFFFFFFF. */
  lemma Crc32IsChecksum(data: Bytes)
    ensures Crc32(data) == Value(Checksum(data))
    ensures Crc32(data)
            == 0xFFFF_FFFF - Value(Divide(ToBits(0xEDB8_8320, 32), ToBits(0xFFFF_FFFF, 32), MessageBits(data)))
  {
    hide ToBits, Value, Divide, Not, MessageBits, Update;
    UpdateDivides(POLY, Ones(), data);
    NotValue(Update(POLY, Ones(), data));
    PolyValue();
    BitsOfValue(POLY);
    OnesValue();
  }

  // ---- the same on numbers ----

  /** The exclusive or of the `w` low bits of two numbers. */
  function XorNum(a: nat, b: nat, w: nat): nat {
    if w == 0 then 0 else (if a % 2 == b % 2 then 0 else 1) + 2 * XorNum(a / 2, b / 2, w - 1)
  }

  /** `n` steps of the division on a register that is a number. */
  function NumSteps(c: nat, n: nat): nat
    decreases n
  {
    if n == 0 then c
    else NumSteps(if c % 2 == 1 then XorNum(0xEDB8_8320, c / 2, 32) else c / 2, n - 1)
  }

  function NumDivide(c: nat, data: Bytes): nat
    decreases |data|
  {
    if data == [] then c else NumDivide(NumSteps(XorNum(c, data[0], 32), 8), data[1..])
  }

  lemma {:induction false} XorBitsValue(a: Bits, b: Bits, r: Bits)
    requires |a| == |b| == |r| && forall i :: 0 <= i < |r| ==> r[i] == (a[i] != b[i])
    ensures Value(r) == XorNum(Value(a), Value(b), |r|)
  {
    if r != [] {
      XorBitsValue(a[1..], b[1..], r[1..]);
      assert Value(a) / 2 == Value(a[1..]) && Value(b) / 2 == Value(b[1..]);
    }
  }

  lemma {:induction false} PadValue(b: Bits)
    ensures Value(b + [false]) == Value(b)
  {
    if b != [] {
      PadValue(b[1..]);
      assert (b + [false])[1..] == b[1..] + [false];
    }
  }

  lemma ShiftValue(c: Word)
    ensures Value(ShiftRight(c, 1)) == Value(c) / 2 && (c[0] <==> Value(c) % 2 == 1)
  {
    PadValue(c[1..]);
    assert ShiftRight(c, 1) == c[1..] + [false];
  }

  lemma {:induction false} StepsValue(c: Word, n: nat)
    ensures Value(Steps(POLY, c, n)) == NumSteps(Value(c), n)
    decreases n
  {
    hide Value, Xor, ShiftRight, XorNum;
    if n > 0 {
      ShiftValue(c);
      PolyValue();
      XorValue(POLY, ShiftRight(c, 1));
      StepsValue(BitStep(POLY, c), n - 1);
    }
  }

  lemma XorValue(x: Word, y: Word)
    ensures Value(Xor(x, y)) == XorNum(Value(x), Value(y), 32)
  {
    XorBitsValue(x, y, Xor(x, y));
  }

  lemma ByteStepValue(c: Word, b: Byte)
    ensures Value(ByteStep(POLY, c, b)) == NumSteps(XorNum(Value(c), b, 32), 8)
  {
    assert Pow2(8) == 256;
    hide Value, Xor, XorNum, ToBits, Steps, NumSteps, Pow2, ByteStep, Divide;
    ByteStepDivides(POLY, c, b);
    DivideIsSteps(POLY, c, ToBits(b, 8));
    BitsOfSmall(b, 8, 24);
    var bits: Word := ToBits(b, 32);
    StepsValue(Xor(c, bits), 8);
    XorValue(c, bits);
    assert Value(bits) == b by {
      ByteFits(b);
      ValueOfBits(b, 32);
    }
  }

  lemma ByteFits(b: Byte)
    ensures b < Pow2(32)
  {
    assert Pow2(8) == 256;
    assert Pow2(16) == 0x1_0000;
    assert Pow2(24) == 0x100_0000;
  }

  lemma {:induction false} UpdateValue(c: Word, data: Bytes)
    ensures Value(Update(POLY, c, data)) == NumDivide(Value(c), data)
    decreases |data|
  {
    hide Value, ByteStep, NumSteps, XorNum;
    if data != [] {
      ByteStepValue(c, data[0]);
      UpdateValue(ByteStep(POLY, c, data[0]), data[1..]);
    }
  }

  /** The checksum is one division of numbers, started from and taken from 0xFFFFFFFF. */
  lemma Crc32IsNumeric(data: Bytes)
    ensures Crc32(data) == 0xFFFF_FFFF - NumDivide(0xFFFF_FFFF, data)
  {
    hide Value, Update, NumDivide, Not, Ones;
    UpdateValue(Ones(), data);
    OnesValue();
    NotValue(Update(POLY, Ones(), data));
  }

  lemma EmptyChecksum()
    ensures Crc32([]) == 0
  {
    Crc32IsNumeric([]);
  }

  lemma {:induction false} MessageBitsConcat(a: Bytes, b: Bytes)
    ensures MessageBits(a + b) == MessageBits(a) + MessageBits(b)
  {
    hide ToBits;
    if a == [] {
      assert a + b == b;
    } else {
      MessageBitsConcat(a[1..], b);
      assert (a + b)[0] == a[0] && (a + b)[1..] == a[1..] + b;
      var first, x, y := ToBits(a[0], 8), MessageBits(a[1..]), MessageBits(b);
      assert MessageBits(a) == first + x && MessageBits(a + b) == first + (x + y);
      assert first + (x + y) == (first + x) + y;
    }
  }

  /** Feeding a message in chunks is feeding it whole. */
  lemma UpdateConcat(p: Word, c: Word, a: Bytes, b: Bytes)
    ensures Update(p, c, a + b) == Update(p, Update(p, c, a), b)
  {
    UpdateDivides(p, c, a + b);
    UpdateDivides(p, c, a);
    UpdateDivides(p, Update(p, c, a), b);
    MessageBitsConcat(a, b);
    DivideConcat(p, c, MessageBits(a), MessageBits(b));
  }

  // ---- what damage is certain to be caught ----

  lemma FlipLowInjective(x: Word, y: Word, bit: bool)
    requires FlipLow(x, bit) == FlipLow(y, bit)
    ensures x == y
  {
    forall i | 0 <= i < 32
      ensures x[i] == y[i]
    {
      assert FlipLow(x, bit)[i] == FlipLow(y, bit)[i];
    }
  }

  /** Whatever follows, two different registers stay different. */
  lemma {:induction false} DivideInjective(p: Word, x: Word, y: Word, bits: Bits)
    requires p[31] && Divide(p, x, bits) == Divide(p, y, bits)
    ensures x == y
    decreases |bits|
  {
    if bits != [] {
      DivideInjective(p, BitStep(p, FlipLow(x, bits[0])), BitStep(p, FlipLow(y, bits[0])), bits[1..]);
      BitStepInjective(p, FlipLow(x, bits[0]), FlipLow(y, bits[0]));
      FlipLowInjective(x, y, bits[0]);
    }
  }

  /** Any two different bursts of up to 32 bits take one register to two. */
  lemma BurstChanges(p: Word, c: Word, u: Bits, v: Bits)
    requires p[31] && |u| == |v| <= 32 && Divide(p, c, u) == Divide(p, c, v)
    ensures u == v
  {
    var z := Zeros(32 - |u|);
    DivideIsSteps(p, c, u);
    DivideIsSteps(p, c, v);
    StepsInjective(p, Xor(c, u + z), Xor(c, v + z), |u|);
    forall i | 0 <= i < |u|
      ensures u[i] == v[i]
    {
      assert Xor(c, u + z)[i] == Xor(c, v + z)[i];
    }
  }

  /** A change confined to any 32 consecutive bits of a message of any length changes the division. */
  lemma BitBurstDetected(p: Word, c: Word, before: Bits, u: Bits, v: Bits, after: Bits)
    requires p[31] && |u| == |v| <= 32 && u != v
    ensures Divide(p, c, before + u + after) != Divide(p, c, before + v + after)
  {
    DivideConcat(p, c, before + u, after);
    DivideConcat(p, c, before + v, after);
    DivideConcat(p, c, before, u);
    DivideConcat(p, c, before, v);
    if Divide(p, c, before + u + after) == Divide(p, c, before + v + after) {
      DivideInjective(p, Divide(p, c, before + u), Divide(p, c, before + v), after);
      BurstChanges(p, Divide(p, c, before), u, v);
    }
  }

  lemma {:induction false} MessageBitsInjective(a: Bytes, b: Bytes)
    requires |a| == |b| && MessageBits(a) == MessageBits(b)
    ensures a == b
  {
    if a != [] {
      var x, y := MessageBits(a), MessageBits(b);
      assert ToBits(a[0], 8) == x[..8] == y[..8] == ToBits(b[0], 8);
      assert MessageBits(a[1..]) == x[8..] == y[8..] == MessageBits(b[1..]);
      assert Pow2(8) == 256;
      ValueOfBits(a[0], 8);
      ValueOfBits(b[0], 8);
      MessageBitsInjective(a[1..], b[1..]);
    }
  }

  lemma {:induction false} MessageBitsLength(a: Bytes)
    ensures |MessageBits(a)| == 8 * |a|
  {
    if a != [] {
      MessageBitsLength(a[1..]);
    }
  }

  lemma NotInjective(x: Word, y: Word)
    requires Value(Not(x)) == Value(Not(y))
    ensures x == y
  {
    BitsOfValue(Not(x));
    BitsOfValue(Not(y));
    forall i | 0 <= i < 32
      ensures x[i] == y[i]
    {
      assert Not(x)[i] == Not(y)[i];
    }
  }

  /** A change confined to four consecutive bytes of an input of any length changes the checksum. */
  lemma FourByteBurstDetected(before: Bytes, u: Bytes, v: Bytes, after: Bytes)
    requires |u| == |v| <= 4 && u != v
    ensures Crc32(before + u + after) != Crc32(before + v + after)
  {
    MessageBitsConcat(before + u, after);
    MessageBitsConcat(before + v, after);
    MessageBitsConcat(before, u);
    MessageBitsConcat(before, v);
    MessageBitsLength(u);
    MessageBitsLength(v);
    UpdateDivides(POLY, Ones(), before + u + after);
    UpdateDivides(POLY, Ones(), before + v + after);
    if MessageBits(u) == MessageBits(v) {
      MessageBitsInjective(u, v);
    }
    BitBurstDetected(POLY, Ones(), MessageBits(before), MessageBits(u), MessageBits(v), MessageBits(after));
    if Crc32(before + u + after) == Crc32(before + v + after) {
      NotInjective(Update(POLY, Ones(), before + u + after), Update(POLY, Ones(), before + v + after));
    }
  }

  // ---- the loops ----

  method BuildEntry(p: Word, i: nat) returns (c: Word)
    ensures c == TableEntry(p, i)
  {
    c := ToBits(i, 32);
    var j := 0;
    while j < 8
      invariant 0 <= j <= 8
      invariant Steps(p, c, 8 - j) == TableEntry(p, i)
    {
      c := if c[0] then Xor(p, ShiftRight(c, 1)) else ShiftRight(c, 1);
      j := j + 1;
    }
  }

  method BuildTable(p: Word) returns (table: array<Word>)
    ensures fresh(table) && table.Length == 256
    ensures forall i :: 0 <= i < 256 ==> table[i] == TableEntry(p, i)
  {
    hide TableEntry, ToBits;
    table := new Word[256](_ => Zeros(32));
    var i := 0;
    while i < 256
      invariant 0 <= i <= 256
      invariant forall k :: 0 <= k < i ==> table[k] == TableEntry(p, k)
    {
      var c := BuildEntry(p, i);
      table[i] := c;
      i := i + 1;
    }
  }

  /** An incremental accumulator. */
  class Accumulator {
    var crc: Word
    const table: array<Word>

    ghost predicate Valid()
      reads this, table
    {
      table.Length == 256 && forall i :: 0 <= i < 256 ==> table[i] == TableEntry(POLY, i)
    }

    constructor ()
      ensures Valid() && crc == Ones() && fresh(table)
      ensures Value(crc) == 0xFFFF_FFFF
    {
      hide TableEntry;
      OnesValue();
      var t := BuildTable(POLY);
      table := t;
      crc := Ones();
    }

    method Feed(data: Bytes)
      requires Valid()
      modifies this`crc
      ensures Valid() && crc == Update(POLY, old(crc), data)
    {
      for i := 0 to |data|
        invariant Update(POLY, crc, data[i..]) == Update(POLY, old(crc), data)
        invariant Valid()
      {
        var e := Value(Xor(crc, ToBits(data[i], 32))[..8]);
        IndexBits(Xor(crc, ToBits(data[i], 32))[..8]);
        assert data[i..][0] == data[i] && data[i..][1..] == data[i + 1..];
        crc := Xor(ShiftRight(crc, 8), table[e]);
      }
    }

    method Finish() returns (r: nat)
      ensures r == Value(Not(crc)) && r == 0xFFFF_FFFF - Value(crc)
    {
      NotValue(crc);
      r := Value(Not(crc));
    }
  }

  /** The one-shot checksum is what the standard defines, however the input is chunked. */
  method Checksum32(a: Bytes, b: Bytes) returns (r: nat)
    ensures r == Crc32(a + b) == Value(Checksum(a + b))
    ensures r == 0xFFFF_FFFF - NumDivide(0xFFFF_FFFF, a + b)
  {
    hide NumDivide, Value, Not, Update;
    Crc32IsNumeric(a + b);
    var acc := new Accumulator();
    acc.Feed(a);
    acc.Feed(b);
    r := acc.Finish();
    UpdateConcat(POLY, Ones(), a, b);
    Crc32IsChecksum(a + b);
  }
}
