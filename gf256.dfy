/** Arithmetic in GF(2^8) under the QR Code reducing polynomial
    x^8 + x^4 + x^3 + x^2 + 1 (0x11D), as used by the Reed-Solomon stage
    (reedSolomonMultiply in assets/qr-generator.js). */
module GaloisField {
  import opened Wrappers
  import opened Bits

  /** Number of bits of a byte; the multiplication loop takes one step per bit. */
  const Width: nat := 8

  /** The operand `x` if bit `i` of `y` is set, otherwise 0: the source's
      `((y >>> i) & 1) * x`. */
  function PartialProduct(x: Byte, y: Byte, i: nat): Byte
    requires i < 8
  {
    if (y >> i) & 1 == 1 then x else 0
  }

  /** One step of the shift-and-reduce loop: multiply by x and reduce modulo
      0x11D.  The source XORs 0x11D into `z << 1` when bit 7 of `z` is set;
      the ninth bit that 0x11D clears is dropped by the 8-bit type. */
  function Xtime(z: Byte): Byte
  {
    if z >> 7 == 1 then (z << 1) ^ 0x1D else z << 1
  }

  /** The product after the `k` most significant bits of `y` have been folded
      in (multiplication most significant bit first). */
  function MulSteps(x: Byte, y: Byte, k: nat): Byte
    requires k <= 8
  {
    if k == 0 then 0
    else Xtime(MulSteps(x, y, k - 1)) ^ PartialProduct(x, y, 8 - k)
  }

  /** GF(256) product of two bytes, as computed by the source's loop. */
  function Mul(x: Byte, y: Byte): Byte
  {
    MulSteps(x, y, Width)
  }

  /** The byte-typed core of reedSolomonMultiply: the loop over the bits of `y`,
      most significant first. */
  method MultiplyBytes(x: Byte, y: Byte) returns (z: Byte)
    ensures z == Mul(x, y)
  {
    z := 0;
    var i := 7;
    while i >= 0
      invariant -1 <= i <= 7
      invariant z == MulSteps(x, y, 7 - i)
    {
      z := Xtime(z) ^ PartialProduct(x, y, i);
      i := i - 1;
    }
  }

  /** The engine's `v >>> 8 === 0` test.  `>>>` first converts its operand to
      an unsigned 32-bit integer, so the test is on `v` modulo 2^32. */
  predicate IsByteOperand(v: int)
  {
    v % 0x1_0000_0000 < 256
  }

  /** The byte that an accepted operand denotes inside the loop. */
  function OperandByte(v: int): Byte
    requires IsByteOperand(v)
  {
    (v % 0x1_0000_0000) as Byte
  }

  /** reedSolomonMultiply: throws "Byte out of range" when an operand is not a
      byte; otherwise the field product of the two bytes. */
  method ReedSolomonMultiply(x: int, y: int) returns (r: Result<Byte>)
    ensures r.Success? <==> IsByteOperand(x) && IsByteOperand(y)
    ensures r.Failure? ==> r.error == ByteOutOfRange
    ensures r.Success? ==> r.value == Mul(OperandByte(x), OperandByte(y))
  {
    if !IsByteOperand(x) || !IsByteOperand(y) {
      return Failure(ByteOutOfRange);
    }
    var z := MultiplyBytes(OperandByte(x), OperandByte(y));
    return Success(z);
  }

  /** Every operand in 0..255 is accepted and denotes itself. */
  lemma ByteOperandsAccepted(v: int)
    requires 0 <= v < 256
    ensures IsByteOperand(v) && OperandByte(v) == v as Byte
  {
    assert v % 0x1_0000_0000 == v;
  }

  /** Operands 256..2^32-1 and negative operands down to -2^32+256 are
      rejected. */
  lemma LargeOperandsRejected(v: int)
    requires 256 <= v < 0x1_0000_0000 || -0x1_0000_0000 + 256 <= v < 0
    ensures !IsByteOperand(v)
  {
  }

  /** While the bits of `y` folded in so far are all zero, the product is 0. */
  lemma {:induction false} LeadingZeroSteps(x: Byte, y: Byte, k: nat)
    requires k <= 8
    requires forall i :: 8 - k <= i < 8 ==> PartialProduct(x, y, i) == 0
    ensures MulSteps(x, y, k) == 0
  {
    if k > 0 {
      LeadingZeroSteps(x, y, k - 1);
    }
  }

  /** Zero absorbs: the Reed-Solomon remainder relies on a zero factor adding
      nothing. */
  lemma MulZero(x: Byte)
    ensures Mul(x, 0) == 0 && Mul(0, x) == 0
  {
    LeadingZeroSteps(x, 0, Width);
    LeadingZeroSteps(0, x, Width);
  }

  /** 1 is the multiplicative identity (the divisor's first root is 1). */
  lemma MulOne(x: Byte)
    ensures Mul(x, 1) == x
  {
    LeadingZeroSteps(x, 1, 7);
  }

  /** Multiplying by 2 is one shift-and-reduce step; the divisor computation
      steps its root through the powers of 2 this way. */
  lemma MulTwo(x: Byte)
    ensures Mul(x, 2) == Xtime(x)
  {
    LeadingZeroSteps(x, 2, 6);
    assert MulSteps(x, 2, 7) == x;
  }

  /** The reduction: 2^8 = 0x1D in this field, so 0x11D is the modulus. */
  lemma ReducingPolynomial()
    ensures Mul(0x80, 2) == 0x1D
  {
    MulTwo(0x80);
  }
}
