/** Reed-Solomon error correction over GF(256) (section 7.5 of
    ISO/IEC 18004): the generator polynomial and the remainder computed by
    a shift register. */
module ReedSolomon {
  import opened Wrappers
  import opened Bits
  import opened GaloisField
  import opened Tables

  function Zeros(n: nat): (r: seq<Byte>)
    ensures |r| == n && forall i :: 0 <= i < n ==> r[i] == 0
  {
    seq(n, _ => 0)
  }

  // ---------------------------------------------------------------------
  // The generator polynomial

  /** alpha^i, alpha = 2: the roots of the generator polynomial. */
  function Power(i: nat): Byte
  {
    if i == 0 then 1 else Mul(Power(i - 1), 2)
  }

  /** One pass of reedSolomonComputeDivisor's inner loop over the stored
      coefficients: every entry is multiplied by `root` and the entry after
      it (not yet updated) is added. */
  function MulRootStep(p: seq<Byte>, root: Byte): (r: seq<Byte>)
    ensures |r| == |p|
  {
    seq(|p|, j requires 0 <= j < |p| => Mul(p[j], root) ^ (if j + 1 < |p| then p[j + 1] else 0))
  }

  /** The stored coefficients after `k` passes. */
  function DivisorAfter(degree: nat, k: nat): (r: seq<Byte>)
    requires k <= degree
    ensures |r| == if degree == 0 then 1 else degree
  {
    if k == 0 then (if degree == 0 then [1] else Zeros(degree - 1) + [1])
    else MulRootStep(DivisorAfter(degree, k - 1), Power(k - 1))
  }

  /** Independent reference: the full coefficient list, highest power first,
      of the product (x - alpha^0)(x - alpha^1)...(x - alpha^(k-1)); in
      characteristic 2, subtraction is XOR. */
  function Generator(k: nat): (r: seq<Byte>)
    ensures |r| == k + 1 && r[0] == 1
  {
    if k == 0 then [1] else MulLinear(Generator(k - 1), Power(k - 1))
  }

  /** p(x) * (x - r) for p highest power first. */
  function MulLinear(p: seq<Byte>, root: Byte): (q: seq<Byte>)
    requires |p| >= 1
    ensures |q| == |p| + 1 && q[0] == p[0]
  {
    seq(|p| + 1, j requires 0 <= j <= |p| =>
      (if j < |p| then p[j] else 0) ^ (if j >= 1 then Mul(p[j - 1], root) else 0))
  }

  /** The `d` lowest coefficients of a polynomial, padded with zeros above. */
  function Window(p: seq<Byte>, d: nat): (r: seq<Byte>)
    ensures |r| == d
  {
    seq(d, i requires 0 <= i < d => if i + |p| < d then 0 else p[i + |p| - d])
  }

  /** One pass of the inner loop multiplies the polynomial held in the window
      by (x - root). */
  lemma MulRootStepIsMulLinear(p: seq<Byte>, root: Byte, d: nat)
    requires 1 <= |p| <= d
    ensures MulRootStep(Window(p, d), root) == Window(MulLinear(p, root), d)
  {
    var lhs, rhs := MulRootStep(Window(p, d), root), Window(MulLinear(p, root), d);
    forall j | 0 <= j < d
      ensures lhs[j] == rhs[j]
    {
      if j < d - |p| {
        WindowZeroStepAt(p, root, d, j);
      } else {
        WindowStepAt(p, root, d, j);
      }
    }
  }

  /** Below the polynomial the window holds zeros, and a zero times the
      root adds nothing. */
  lemma WindowZeroStepAt(p: seq<Byte>, root: Byte, d: nat, j: nat)
    requires 1 <= |p| <= d && j < d - |p|
    ensures MulRootStep(Window(p, d), root)[j] == Window(MulLinear(p, root), d)[j]
  {
    MulZero(root);
  }

  /** Inside the polynomial, entry `j` of one pass is the coefficient of the
      product with (x - root) that lands there. */
  lemma WindowStepAt(p: seq<Byte>, root: Byte, d: nat, j: nat)
    requires 1 <= |p| <= d && d - |p| <= j < d
    ensures MulRootStep(Window(p, d), root)[j] == Window(MulLinear(p, root), d)[j]
  {
    var w, q := Window(p, d), MulLinear(p, root);
    var t := j + |p| + 1 - d;
    assert w[j] == p[t - 1];
    assert Window(q, d)[j] == q[t];
  }

  /** After `k` passes the stored coefficients are the product of the first
      `k` factors, without their leading 1 once all `degree` factors are in. */
  lemma {:induction false} DivisorAfterIsGenerator(degree: nat, k: nat)
    requires 1 <= degree && k <= degree
    ensures DivisorAfter(degree, k) == Window(Generator(k), degree)
  {
    if k > 0 {
      DivisorAfterIsGenerator(degree, k - 1);
      MulRootStepIsMulLinear(Generator(k - 1), Power(k - 1), degree);
    }
  }

  /** The divisor of a degree is the generator polynomial of that degree
      with its implicit leading coefficient 1 dropped. */
  lemma DivisorIsGenerator(degree: nat)
    requires degree >= 1
    ensures DivisorAfter(degree, degree) == Generator(degree)[1..]
  {
    DivisorAfterIsGenerator(degree, degree);
  }

  /** reedSolomonComputeDivisor: the coefficients, highest power first and
      without the leading 1, of the generator polynomial of `degree` roots. */
  method ComputeDivisor(degree: nat) returns (r: seq<Byte>)
    ensures r == DivisorAfter(degree, degree)
    ensures degree >= 1 ==> r == Generator(degree)[1..]
  {
    var result := InitialDivisor(degree);
    var root: Byte := 1;
    var i := 0;
    while i < degree
      invariant 0 <= i <= degree
      invariant root == Power(i)
      invariant result[..] == DivisorAfter(degree, i)
    {
      MulRootPass(result, root);
      assert result[..] == MulRootStep(DivisorAfter(degree, i), Power(i)) == DivisorAfter(degree, i + 1);
      root := MultiplyBytes(root, 0x02);
      i := i + 1;
    }
    r := result[..];
    if degree >= 1 {
      DivisorIsGenerator(degree);
    }
  }

  /** The divisor array before the first pass: the coefficients of the
      polynomial 1 (a single entry for degree 0). */
  method InitialDivisor(degree: nat) returns (result: array<Byte>)
    ensures fresh(result) && result[..] == DivisorAfter(degree, 0)
  {
    var n := if degree == 0 then 1 else degree;
    result := new Byte[n](_ => 0);
    result[n - 1] := 1;
    if degree > 0 {
      assert result[..] == Zeros(degree - 1) + [1];
    }
  }

  /** The inner loop of reedSolomonComputeDivisor, in place: each entry is
      replaced by itself times `root` plus the following entry. */
  method MulRootPass(result: array<Byte>, root: Byte)
    modifies result
    ensures result[..] == MulRootStep(old(result[..]), root)
  {
    ghost var before := result[..];
    var j := 0;
    while j < result.Length
      invariant 0 <= j <= result.Length
      invariant forall t :: 0 <= t < j ==> result[t] == MulRootStep(before, root)[t]
      invariant forall t :: j <= t < result.Length ==> result[t] == before[t]
    {
      var m := MultiplyBytes(result[j], root);
      result[j] := m;
      if j + 1 < result.Length {
        result[j] := result[j] ^ result[j + 1];
      }
      j := j + 1;
    }
  }

  // ---------------------------------------------------------------------
  // The remainder

  /** One step of reedSolomonComputeRemainder: shift the register, then add
      the divisor scaled by the incoming byte plus the byte shifted out. */
  function RemainderStep(state: seq<Byte>, b: Byte, divisor: seq<Byte>): (r: seq<Byte>)
    requires |state| == |divisor| >= 1
    ensures |r| == |divisor|
  {
    var factor := b ^ state[0];
    var shifted := state[1..] + [0];
    seq(|divisor|, i requires 0 <= i < |divisor| => shifted[i] ^ Mul(divisor[i], factor))
  }

  /** The register after feeding `data` in order, starting from `state`. */
  function Feed(state: seq<Byte>, data: seq<Byte>, divisor: seq<Byte>): (r: seq<Byte>)
    requires |state| == |divisor| >= 1
    ensures |r| == |divisor|
    decreases |data|
  {
    if |data| == 0 then state else Feed(RemainderStep(state, data[0], divisor), data[1..], divisor)
  }

  /** The ECC codewords of a data block: the remainder of the data
      polynomial times x^|divisor| modulo the generator. */
  function Remainder(data: seq<Byte>, divisor: seq<Byte>): (r: seq<Byte>)
    requires |divisor| >= 1
    ensures |r| == |divisor|
  {
    Feed(Zeros(|divisor|), data, divisor)
  }

  lemma {:induction false} FeedAppend(state: seq<Byte>, a: seq<Byte>, b: seq<Byte>, divisor: seq<Byte>)
    requires |state| == |divisor| >= 1
    ensures Feed(state, a + b, divisor) == Feed(Feed(state, a, divisor), b, divisor)
    decreases |a|
  {
    if |a| > 0 {
      assert (a + b)[0] == a[0];
      assert (a + b)[1..] == a[1..] + b;
      FeedAppend(RemainderStep(state, a[0], divisor), a[1..], b, divisor);
    } else {
      assert a + b == b;
    }
  }

  /** reedSolomonComputeRemainder: the register of |divisor| bytes after
      feeding every data byte. */
  method ComputeRemainder(data: seq<Byte>, divisor: seq<Byte>) returns (result: seq<Byte>)
    requires |divisor| >= 1
    ensures result == Remainder(data, divisor)
  {
    result := Zeros(|divisor|);
    var k := 0;
    while k < |data|
      invariant 0 <= k <= |data|
      invariant result == Feed(Zeros(|divisor|), data[..k], divisor)
    {
      ghost var before := result;
      var b := data[k];
      var factor := b ^ result[0];
      result := result[1..] + [0];
      ghost var shifted := result;
      var i := 0;
      while i < |divisor|
        invariant 0 <= i <= |divisor| && |result| == |divisor|
        invariant forall t :: 0 <= t < i ==> result[t] == shifted[t] ^ Mul(divisor[t], factor)
        invariant forall t :: i <= t < |divisor| ==> result[t] == shifted[t]
      {
        var m := MultiplyBytes(divisor[i], factor);
        result := result[i := result[i] ^ m];
        i := i + 1;
      }
      assert result == RemainderStep(before, b, divisor);
      FeedAppend(Zeros(|divisor|), data[..k], [b], divisor);
      assert data[..k + 1] == data[..k] + [b];
      k := k + 1;
    }
    assert data[..k] == data;
  }

  /** Feeding a register its own contents shifts them out: every factor is
      zero. */
  lemma {:induction false} ShiftOut(state: seq<Byte>, m: nat, divisor: seq<Byte>)
    requires |state| == |divisor| >= 1 && m <= |state|
    ensures Feed(state, state[..m], divisor) == state[m..] + Zeros(m)
    decreases m
  {
    if m > 0 {
      var next := RemainderStep(state, state[0], divisor);
      forall i | 0 <= i < |divisor|
        ensures next[i] == (state[1..] + [0])[i]
      {
        MulZero(divisor[i]);
      }
      assert next == state[1..] + [0];
      assert state[..m][1..] == next[..m - 1];
      ShiftOut(next, m - 1, divisor);
      assert next[m - 1..] + Zeros(m - 1) == state[m..] + Zeros(m);
    }
  }

  /** A block followed by its ECC codewords is a codeword: running the
      remainder over both leaves the register all zero. */
  lemma RemainderOfCodewordIsZero(data: seq<Byte>, divisor: seq<Byte>)
    requires |divisor| >= 1
    ensures Remainder(data + Remainder(data, divisor), divisor) == Zeros(|divisor|)
  {
    var r := Remainder(data, divisor);
    FeedAppend(Zeros(|divisor|), data, r, divisor);
    ShiftOut(r, |r|, divisor);
    assert r[..|r|] == r;
  }
}
