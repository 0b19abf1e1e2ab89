/** Folding a sequence into a state, and what an injective step lets one conclude. */
module Folds {

  function Fold<S, T>(step: (S, T) -> S, start: S, data: seq<T>): S {
    if data == [] then start
    else step(Fold(step, start, data[..|data| - 1]), data[|data| - 1])
  }

  ghost predicate Injective<S(!new), T(!new)>(step: (S, T) -> S) {
    forall a, b, x :: step(a, x) == step(b, x) ==> a == b
  }

  ghost predicate PairInjective<S(!new), T(!new)>(step: (S, T) -> S) {
    forall s, x0, x1, y0, y1 :: step(step(s, x0), x1) == step(step(s, y0), y1) ==> x0 == y0 && x1 == y1
  }

  lemma {:induction false} FoldInjective<S(!new), T(!new)>(step: (S, T) -> S, a: S, b: S, data: seq<T>)
    requires Injective(step) && Fold(step, a, data) == Fold(step, b, data)
    ensures a == b
  {
    if data != [] {
      FoldInjective(step, a, b, data[..|data| - 1]);
    }
  }

  lemma {:induction false} FoldConcat<S, T>(step: (S, T) -> S, start: S, a: seq<T>, b: seq<T>)
    ensures Fold(step, start, a + b) == Fold(step, Fold(step, start, a), b)
  {
    if b == [] {
      assert a + b == a;
    } else {
      assert (a + b)[..|a + b| - 1] == a + b[..|b| - 1];
      FoldConcat(step, start, a, b[..|b| - 1]);
    }
  }

  lemma FoldPair<S, T>(step: (S, T) -> S, start: S, x: T, y: T)
    ensures Fold(step, start, [x, y]) == step(step(start, x), y)
  {
    assert [x, y][..1] == [x];
    assert Fold(step, start, [x]) == step(start, x);
  }

  lemma FoldAroundPair<S, T>(step: (S, T) -> S, start: S, x: seq<T>, k: nat)
    requires k + 2 <= |x|
    ensures Fold(step, start, x)
         == Fold(step, step(step(Fold(step, start, x[..k]), x[k]), x[k + 1]), x[k + 2..])
  {
    var pair := [x[k], x[k + 1]];
    assert x == (x[..k] + pair) + x[k + 2..];
    FoldConcat(step, start, x[..k] + pair, x[k + 2..]);
    FoldConcat(step, start, x[..k], pair);
    FoldPair(step, Fold(step, start, x[..k]), x[k], x[k + 1]);
  }

  /** Two sequences that differ only inside a window of two adjacent positions never fold to
      the same state. */
  lemma WindowChangesFold<S(!new), T(!new)>(step: (S, T) -> S, start: S, x: seq<T>, y: seq<T>, k: nat)
    requires Injective(step) && PairInjective(step)
    requires |x| == |y| && k + 2 <= |x|
    requires x[..k] == y[..k] && x[k + 2..] == y[k + 2..]
    requires Fold(step, start, x) == Fold(step, start, y)
    ensures x == y
  {
    FoldAroundPair(step, start, x, k);
    FoldAroundPair(step, start, y, k);
    var s := Fold(step, start, x[..k]);
    FoldInjective(step, step(step(s, x[k]), x[k + 1]), step(step(s, y[k]), y[k + 1]), x[k + 2..]);
    assert x[k] == y[k] && x[k + 1] == y[k + 1];
    assert x == x[..k] + [x[k], x[k + 1]] + x[k + 2..];
    assert y == y[..k] + [y[k], y[k + 1]] + y[k + 2..];
  }
}

/** The MODBUS CRC-16 of `frame_codec.cpp`: the byte and bit loops, and the facts about the
    register that decide which corruptions of a frame the checksum cannot miss. */
module Crc16 {
  import opened Folds

  type Byte = bv8

  const INITIAL: bv16 := 0xFFFF
  const POLYNOMIAL: bv16 := 0xA001
  const BITS_PER_BYTE: nat := 8

  /** One turn of the bit loop. */
  function ShiftBit(crc: bv16): bv16 {
    if crc & 1 != 0 then (crc >> 1) ^ POLYNOMIAL else crc >> 1
  }

  function ShiftBits(crc: bv16, n: nat): bv16 {
    if n == 0 then crc else ShiftBit(ShiftBits(crc, n - 1))
  }

  /** Folding one data byte into the register. */
  function Absorb(crc: bv16, b: Byte): bv16 {
    ShiftBits(crc ^ (b as bv16), BITS_PER_BYTE)
  }

  /** The register after a whole message, started from `crc`. */
  function Register(crc: bv16, data: seq<Byte>): bv16 {
    Fold(Absorb, crc, data)
  }

  method Compute(data: array<Byte>, from: nat, size: nat) returns (crc: bv16)
    requires from + size <= data.Length
    ensures crc == Register(INITIAL, data[from..from + size])
  {
    crc := INITIAL;
    for index := 0 to size
      invariant crc == Register(INITIAL, data[from..from + index])
    {
      ghost var before := crc;
      crc := crc ^ (data[from + index] as bv16);
      for bit := 0 to BITS_PER_BYTE
        invariant crc == ShiftBits(before ^ (data[from + index] as bv16), bit)
      {
        crc := if crc & 1 != 0 then (crc >> 1) ^ POLYNOMIAL else crc >> 1;
      }
      assert data[from..from + index + 1][..index] == data[from..from + index];
    }
  }

  // ----- different registers never merge on equal data -----

  lemma ShiftBitInjective(a: bv16, b: bv16)
    requires ShiftBit(a) == ShiftBit(b)
    ensures a == b
  {}

  lemma {:induction false} ShiftBitsInjective(a: bv16, b: bv16, n: nat)
    requires ShiftBits(a, n) == ShiftBits(b, n)
    ensures a == b
  {
    if n != 0 {
      ShiftBitInjective(ShiftBits(a, n - 1), ShiftBits(b, n - 1));
      ShiftBitsInjective(a, b, n - 1);
    }
  }

  lemma XorEqual(a: bv16, b: bv16, x: Byte, y: Byte)
    requires a ^ (x as bv16) == b ^ (y as bv16)
    ensures a >> 8 == b >> 8
    ensures x == y ==> a == b
    ensures a == b ==> x == y
  {}

  lemma AbsorbEqual(a: bv16, b: bv16, x: Byte, y: Byte)
    requires Absorb(a, x) == Absorb(b, y)
    ensures a >> 8 == b >> 8
    ensures x == y ==> a == b
    ensures a == b ==> x == y
  {
    ShiftBitsInjective(a ^ (x as bv16), b ^ (y as bv16), BITS_PER_BYTE);
    XorEqual(a, b, x, y);
  }

  lemma AbsorbInjective()
    ensures Injective(Absorb)
  {
    forall a: bv16, b: bv16, x: Byte | Absorb(a, x) == Absorb(b, x) ensures a == b {
      AbsorbEqual(a, b, x, x);
    }
  }

  // ----- a different pair of bytes always gives a different register -----

  function ShiftByte(crc: bv16): bv16 {
    ShiftBit(ShiftBit(ShiftBit(ShiftBit(ShiftBit(ShiftBit(ShiftBit(ShiftBit(crc))))))))
  }

  lemma ShiftTwoBits(crc: bv16, n: nat)
    ensures ShiftBits(crc, n + 2) == ShiftBit(ShiftBit(ShiftBits(crc, n)))
  {}

  lemma ShiftByteIsEightBits(crc: bv16)
    ensures ShiftBits(crc, BITS_PER_BYTE) == ShiftByte(crc)
  {
    ShiftTwoBits(crc, 0);
    ShiftTwoBits(crc, 2);
    ShiftTwoBits(crc, 4);
    ShiftTwoBits(crc, 6);
  }

  lemma ShiftByteKeepsLowByteApart(u: bv16, v: bv16)
    requires u >> 8 == v >> 8
    requires ShiftByte(u) >> 8 == ShiftByte(v) >> 8
    ensures u == v
  {}

  lemma EightBitsKeepLowByteApart(u: bv16, v: bv16)
    requires u >> 8 == v >> 8
    requires ShiftBits(u, BITS_PER_BYTE) >> 8 == ShiftBits(v, BITS_PER_BYTE) >> 8
    ensures u == v
  {
    ShiftByteIsEightBits(u);
    ShiftByteIsEightBits(v);
    ShiftByteKeepsLowByteApart(u, v);
  }

  lemma XorHighByte(c: bv16, x: Byte, y: Byte)
    ensures (c ^ (x as bv16)) >> 8 == (c ^ (y as bv16)) >> 8
    ensures c ^ (x as bv16) == c ^ (y as bv16) ==> x == y
  {}

  lemma AbsorbKeepsBytesApart(crc: bv16, x: Byte, y: Byte)
    requires Absorb(crc, x) >> 8 == Absorb(crc, y) >> 8
    ensures x == y
  {
    XorHighByte(crc, x, y);
    EightBitsKeepLowByteApart(crc ^ (x as bv16), crc ^ (y as bv16));
  }

  /** Two adjacent bytes are recovered from the register they lead to. */
  lemma AbsorbTwo(crc: bv16, x0: Byte, x1: Byte, y0: Byte, y1: Byte)
    requires Absorb(Absorb(crc, x0), x1) == Absorb(Absorb(crc, y0), y1)
    ensures x0 == y0 && x1 == y1
  {
    AbsorbEqual(Absorb(crc, x0), Absorb(crc, y0), x1, y1);
    AbsorbKeepsBytesApart(crc, x0, y0);
  }

  lemma AbsorbPairInjective()
    ensures PairInjective(Absorb)
  {
    forall c: bv16, x0: Byte, x1: Byte, y0: Byte, y1: Byte
      | Absorb(Absorb(c, x0), x1) == Absorb(Absorb(c, y0), y1)
      ensures x0 == y0 && x1 == y1
    {
      AbsorbTwo(c, x0, x1, y0, y1);
    }
  }

  // ----- the checksum bytes themselves -----

  function LowByte(v: bv16): Byte { (v & 0x00FF) as Byte }

  function HighByte(v: bv16): Byte { ((v >> 8) & 0x00FF) as Byte }

  function Word(low: Byte, high: Byte): bv16 { (low as bv16) | ((high as bv16) << 8) }

  lemma WordOfBytes(v: bv16)
    ensures Word(LowByte(v), HighByte(v)) == v
  {}

  lemma BytesOfWord(low: Byte, high: Byte)
    ensures LowByte(Word(low, high)) == low && HighByte(Word(low, high)) == high
  {}

  lemma ShiftByteClears(crc: bv16)
    ensures ShiftByte(ShiftByte(crc ^ (LowByte(crc) as bv16)) ^ (HighByte(crc) as bv16)) == 0
  {}

  lemma ChecksumClears(crc: bv16)
    ensures Absorb(Absorb(crc, LowByte(crc)), HighByte(crc)) == 0
  {
    ShiftByteIsEightBits(crc ^ (LowByte(crc) as bv16));
    ShiftByteIsEightBits(ShiftByte(crc ^ (LowByte(crc) as bv16)) ^ (HighByte(crc) as bv16));
    ShiftByteClears(crc);
  }

  /** The register reaches zero exactly when the two bytes that follow are its own value,
      low byte first: how section 6.2.2 of the MODBUS serial line guide places the CRC. */
  lemma ZeroIffOwnChecksum(crc: bv16, low: Byte, high: Byte)
    ensures Absorb(Absorb(crc, low), high) == 0 <==> Word(low, high) == crc
  {
    ChecksumClears(crc);
    WordOfBytes(crc);
    BytesOfWord(low, high);
    if Absorb(Absorb(crc, low), high) == 0 {
      AbsorbTwo(crc, low, high, LowByte(crc), HighByte(crc));
    }
  }
}
