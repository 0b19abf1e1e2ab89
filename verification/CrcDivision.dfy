/** What the CRC register is, apart from the bit loop that computes it: the remainder of a polynomial
    division over the two-element field, as CRC-16 is defined for MODBUS. */
module CrcDivision {
  import opened Folds
  import opened Crc16

  /** The coefficients, those of the highest powers first. */
  type Polynomial = seq<bool>

  const DEGREE: nat := 16

  function Zeros(n: nat): (p: Polynomial)
    ensures |p| == n
  {
    seq(n, _ => false)
  }

  function Ones(n: nat): (p: Polynomial)
    ensures |p| == n
  {
    seq(n, _ => true)
  }

  /** x^16 + x^15 + x^2 + 1. */
  function Generator(): (g: Polynomial)
    ensures |g| == DEGREE + 1
  {
    [true, true] + Zeros(12) + [true, false, true]
  }

  /** Adds `q` to the leading coefficients of `p`. */
  function AddLeading(p: Polynomial, q: Polynomial): (r: Polynomial)
    requires |q| <= |p|
    ensures |r| == |p|
  {
    seq(|p|, i requires 0 <= i < |p| => if i < |q| then p[i] != q[i] else p[i])
  }

  /** Long division by the generator; what is left when no power is high enough any more. */
  function Remainder(p: Polynomial): (r: Polynomial)
    ensures |p| >= DEGREE ==> |r| == DEGREE
    decreases |p|
  {
    if |p| <= DEGREE then p
    else if p[0] then Remainder(AddLeading(p, Generator())[1..])
    else Remainder(p[1..])
  }

  predicate Odd(v: bv16) { v & 1 != 0 }

  function Halved(v: bv16, n: nat): bv16 {
    if n == 0 then v else Halved(v, n - 1) >> 1
  }

  /** Bit `k` of a word. */
  predicate Bit(v: bv16, k: nat) {
    Odd(Halved(v, k))
  }

  /** The lowest bits go first. */
  function LowBits(v: bv16, n: nat): (p: Polynomial)
    ensures |p| == n
  {
    seq(n, k requires 0 <= k < n => Bit(v, k))
  }

  function MessageBits(data: seq<Byte>): Polynomial {
    if data == [] then []
    else MessageBits(data[..|data| - 1]) + LowBits(data[|data| - 1] as bv16, BITS_PER_BYTE)
  }

  /** The message times x^16, its first sixteen coefficients inverted. */
  function Dividend(data: seq<Byte>): Polynomial {
    AddLeading(MessageBits(data) + Zeros(DEGREE), Ones(DEGREE))
  }

  /** The lowest bit of the register is the coefficient of x^15. */
  function RegisterBits(crc: bv16): (p: Polynomial)
    ensures |p| == DEGREE
  {
    LowBits(crc, DEGREE)
  }

  // ----- bits of words -----

  lemma OddAdds(a: bv16, b: bv16)
    ensures Odd(a ^ b) == (Odd(a) != Odd(b))
  {}

  lemma HalfAdds(a: bv16, b: bv16)
    ensures (a ^ b) >> 1 == (a >> 1) ^ (b >> 1)
  {}

  lemma {:induction false} HalvedAdds(a: bv16, b: bv16, n: nat)
    ensures Halved(a ^ b, n) == Halved(a, n) ^ Halved(b, n)
  {
    if n > 0 {
      HalvedAdds(a, b, n - 1);
      HalfAdds(Halved(a, n - 1), Halved(b, n - 1));
    }
  }

  lemma BitAdds(a: bv16, b: bv16, k: nat)
    ensures Bit(a ^ b, k) == (Bit(a, k) != Bit(b, k))
  {
    HalvedAdds(a, b, k);
    OddAdds(Halved(a, k), Halved(b, k));
  }

  lemma {:induction false} HalvedTwice(v: bv16, m: nat, n: nat)
    ensures Halved(Halved(v, m), n) == Halved(v, m + n)
  {
    if n > 0 {
      HalvedTwice(v, m, n - 1);
    }
  }

  lemma BitOfHalf(v: bv16, k: nat)
    ensures Bit(v >> 1, k) == Bit(v, k + 1)
  {
    HalvedTwice(v, 1, k);
    HalvedOnce(v);
  }

  lemma HalvedOnce(v: bv16)
    ensures Halved(v, 1) == v >> 1
  {}

  lemma HalvedNext(v: bv16, n: nat)
    ensures Halved(v, n + 1) == Halved(v, n) >> 1
  {}

  lemma HalvedFourTimes(v: bv16)
    ensures Halved(v, 4) == Quarter(v)
  {
    HalvedOnce(v);
    HalvedNext(v, 1);
    HalvedNext(v, 2);
    HalvedNext(v, 3);
  }

  function Quarter(v: bv16): bv16 {
    (((v >> 1) >> 1) >> 1) >> 1
  }

  lemma QuartersVanish(v: bv16, b: Byte)
    ensures Quarter(Quarter(b as bv16)) == 0
    ensures Quarter(Quarter(Quarter(Quarter(v)))) == 0
  {}

  lemma HalvedVanishes(v: bv16, b: Byte)
    ensures Halved(b as bv16, BITS_PER_BYTE) == 0 && Halved(v, DEGREE) == 0
  {
    var q, r, t := Quarter(v), Quarter(Quarter(v)), Quarter(Quarter(Quarter(v)));
    HalvedFourTimes(v);
    HalvedFourTimes(q);
    HalvedFourTimes(r);
    HalvedFourTimes(t);
    HalvedTwice(v, 4, 4);
    HalvedTwice(v, 8, 4);
    HalvedTwice(v, 12, 4);
    HalvedFourTimes(b as bv16);
    HalvedFourTimes(Quarter(b as bv16));
    HalvedTwice(b as bv16, 4, 4);
    QuartersVanish(v, b);
  }

  lemma {:induction false} InitialIsOnes(k: nat)
    requires k < DEGREE
    ensures Bit(INITIAL, k)
  {
    assert Halved(INITIAL, 1) == 0x7FFF;
    assert Halved(INITIAL, 2) == 0x3FFF;
    assert Halved(INITIAL, 3) == 0x1FFF;
    assert Halved(INITIAL, 4) == 0x0FFF;
    assert Halved(INITIAL, 5) == 0x07FF;
    assert Halved(INITIAL, 6) == 0x03FF;
    assert Halved(INITIAL, 7) == 0x01FF;
    assert Halved(INITIAL, 8) == 0x00FF;
    assert Halved(INITIAL, 9) == 0x007F;
    assert Halved(INITIAL, 10) == 0x003F;
    assert Halved(INITIAL, 11) == 0x001F;
    assert Halved(INITIAL, 12) == 0x000F;
    assert Halved(INITIAL, 13) == 0x0007;
    assert Halved(INITIAL, 14) == 0x0003;
    assert Halved(INITIAL, 15) == 0x0001;
  }

  lemma PolynomialIsGenerator(k: nat)
    requires k < DEGREE
    ensures Bit(POLYNOMIAL, k) == Generator()[k + 1]
  {
    assert Halved(POLYNOMIAL, 1) == 0x5000;
    assert Halved(POLYNOMIAL, 2) == 0x2800;
    assert Halved(POLYNOMIAL, 3) == 0x1400;
    assert Halved(POLYNOMIAL, 4) == 0x0A00;
    assert Halved(POLYNOMIAL, 5) == 0x0500;
    assert Halved(POLYNOMIAL, 6) == 0x0280;
    assert Halved(POLYNOMIAL, 7) == 0x0140;
    assert Halved(POLYNOMIAL, 8) == 0x00A0;
    assert Halved(POLYNOMIAL, 9) == 0x0050;
    assert Halved(POLYNOMIAL, 10) == 0x0028;
    assert Halved(POLYNOMIAL, 11) == 0x0014;
    assert Halved(POLYNOMIAL, 12) == 0x000A;
    assert Halved(POLYNOMIAL, 13) == 0x0005;
    assert Halved(POLYNOMIAL, 14) == 0x0002;
    assert Halved(POLYNOMIAL, 15) == 0x0001;
  }

  // ----- one bit at a time -----

  /** Shifting moves every coefficient one power up; what falls out brings the generator back in. */
  lemma ShiftBitShifts(crc: bv16, k: nat)
    requires k < DEGREE
    ensures Bit(ShiftBit(crc), k) == (Bit(crc, k + 1) != (Odd(crc) && Generator()[k + 1]))
  {
    BitOfHalf(crc, k);
    BitAdds(crc >> 1, POLYNOMIAL, k);
    PolynomialIsGenerator(k);
  }

  /** What is still to be divided: the register stands for the leading coefficients. */
  function Pending(crc: bv16, rest: Polynomial): (p: Polynomial)
    ensures |p| == |rest| + DEGREE
  {
    AddLeading(rest + Zeros(DEGREE), RegisterBits(crc))
  }

  /** One step of the division is one turn of the bit loop. */
  lemma ShiftDivides(crc: bv16, rest: Polynomial)
    ensures Remainder(Pending(crc, [false] + rest)) == Remainder(Pending(ShiftBit(crc), rest))
  {
    var p := Pending(crc, [false] + rest);
    HalvedVanishes(crc, 0);
    forall k: nat | k < DEGREE
      ensures Bit(ShiftBit(crc), k) == (Bit(crc, k + 1) != (Odd(crc) && Generator()[k + 1]))
    {
      ShiftBitShifts(crc, k);
    }
    assert Bit(crc, 0) == Odd(crc) == p[0] && !Bit(crc, DEGREE);
    var next := if p[0] then AddLeading(p, Generator())[1..] else p[1..];
    assert next == Pending(ShiftBit(crc), rest);
  }

  lemma {:induction false} ShiftsDivide(crc: bv16, n: nat, rest: Polynomial)
    ensures Remainder(Pending(crc, Zeros(n) + rest)) == Remainder(Pending(ShiftBits(crc, n), rest))
    decreases n
  {
    if n == 0 {
      assert Zeros(0) + rest == rest;
    } else {
      assert Zeros(n) + rest == Zeros(n - 1) + ([false] + rest);
      ShiftsDivide(crc, n - 1, [false] + rest);
      ShiftDivides(ShiftBits(crc, n - 1), rest);
    }
  }

  // ----- one byte at a time -----

  lemma BitsAreAdded(crc: bv16, v: bv16, sum: bv16, rest: Polynomial)
    requires forall k: nat | k < DEGREE :: Bit(sum, k) == (Bit(crc, k) != Bit(v, k))
    requires forall k: nat | BITS_PER_BYTE <= k < DEGREE :: !Bit(v, k)
    ensures Pending(crc, LowBits(v, BITS_PER_BYTE) + rest) == Pending(sum, Zeros(BITS_PER_BYTE) + rest)
  {}

  lemma NoHighBits(v: bv16, k: nat)
    requires Halved(v, BITS_PER_BYTE) == 0 && k >= BITS_PER_BYTE
    ensures !Bit(v, k)
  {
    HalvedTwice(v, BITS_PER_BYTE, k - BITS_PER_BYTE);
    ZeroHasNoBits(k - BITS_PER_BYTE);
  }

  /** A byte may be added to the register instead. */
  lemma ByteIsAdded(crc: bv16, b: Byte, rest: Polynomial)
    ensures Pending(crc, LowBits(b as bv16, BITS_PER_BYTE) + rest) == Pending(crc ^ (b as bv16), Zeros(BITS_PER_BYTE) + rest)
  {
    var v := b as bv16;
    HalvedVanishes(0, b);
    forall k: nat | k < DEGREE ensures Bit(crc ^ v, k) == (Bit(crc, k) != Bit(v, k)) {
      BitAdds(crc, v, k);
    }
    forall k: nat | BITS_PER_BYTE <= k < DEGREE ensures !Bit(v, k) {
      NoHighBits(v, k);
    }
    BitsAreAdded(crc, v, crc ^ v, rest);
  }

  lemma {:induction false} ZeroHasNoBits(k: nat)
    ensures Halved(0, k) == 0
  {
    if k > 0 {
      ZeroHasNoBits(k - 1);
    }
  }

  lemma AbsorbDivides(crc: bv16, b: Byte, rest: Polynomial)
    ensures Remainder(Pending(crc, LowBits(b as bv16, BITS_PER_BYTE) + rest)) == Remainder(Pending(Absorb(crc, b), rest))
  {
    ByteIsAdded(crc, b, rest);
    ShiftsDivide(crc ^ (b as bv16), BITS_PER_BYTE, rest);
  }

  lemma {:induction false} RegisterDivides(crc: bv16, data: seq<Byte>, rest: Polynomial)
    ensures Remainder(Pending(crc, MessageBits(data) + rest)) == Remainder(Pending(Register(crc, data), rest))
    decreases |data|
  {
    if data == [] {
      assert MessageBits(data) + rest == rest;
    } else {
      var init, last := data[..|data| - 1], data[|data| - 1];
      var bits := LowBits(last as bv16, BITS_PER_BYTE);
      assert MessageBits(data) + rest == MessageBits(init) + (bits + rest);
      RegisterDivides(crc, init, bits + rest);
      AbsorbDivides(Register(crc, init), last, rest);
    }
  }

  // ----- main results -----

  /** The register after any message is the remainder of its dividend. */
  lemma RegisterIsRemainder(data: seq<Byte>)
    ensures RegisterBits(Register(INITIAL, data)) == Remainder(Dividend(data))
  {
    var crc := Register(INITIAL, data);
    forall k: nat | k < DEGREE ensures Bit(INITIAL, k) {
      InitialIsOnes(k);
    }
    assert RegisterBits(INITIAL) == Ones(DEGREE);
    assert MessageBits(data) + [] == MessageBits(data);
    RegisterDivides(INITIAL, data, []);
    assert Pending(crc, []) == RegisterBits(crc);
  }

  lemma RegisterNext(data: seq<Byte>, k: nat, crc: bv16, next: bv16)
    requires k < |data| && Register(INITIAL, data[..k]) == crc && ShiftByte(crc ^ (data[k] as bv16)) == next
    ensures Register(INITIAL, data[..k + 1]) == next
  {
    assert data[..k + 1][..k] == data[..k];
    ShiftByteIsEightBits(crc ^ (data[k] as bv16));
  }

  const DIGITS: seq<Byte> := [0x31, 0x32, 0x33, 0x34, 0x35, 0x36, 0x37, 0x38, 0x39]

  lemma FirstDigits()
    ensures Register(INITIAL, DIGITS[..3]) == 0x7A75
  {
    assert Register(INITIAL, DIGITS[..0]) == 0xFFFF;
    RegisterNext(DIGITS, 0, 0xFFFF, 0x947E);
    RegisterNext(DIGITS, 1, 0x947E, 0xF595);
    RegisterNext(DIGITS, 2, 0xF595, 0x7A75);
  }

  lemma MiddleDigits()
    ensures Register(INITIAL, DIGITS[..6]) == 0x32E4
  {
    FirstDigits();
    RegisterNext(DIGITS, 3, 0x7A75, 0x30BA);
    RegisterNext(DIGITS, 4, 0x30BA, 0xA471);
    RegisterNext(DIGITS, 5, 0xA471, 0x32E4);
  }

  lemma OneZeroByte()
    ensures Register(INITIAL, [0x00]) == 0x40BF
  {
    RegisterNext([0x00], 0, 0xFFFF, 0x40BF);
    assert [0x00][..1] == [0x00];
  }

  /** The published check value of the MODBUS CRC, that of the digits 1 to 9, and those of shorter messages. */
  lemma CheckValues()
    ensures Register(INITIAL, []) == 0xFFFF
    ensures Register(INITIAL, [0x00]) == 0x40BF
    ensures Register(INITIAL, [0x31, 0x32, 0x33, 0x34, 0x35, 0x36, 0x37, 0x38, 0x39]) == 0x4B37
  {
    OneZeroByte();
    MiddleDigits();
    RegisterNext(DIGITS, 6, 0x32E4, 0x9D73);
    RegisterNext(DIGITS, 7, 0x9D73, 0x37DD);
    RegisterNext(DIGITS, 8, 0x37DD, 0x4B37);
    assert DIGITS[..9] == DIGITS;
  }
}
