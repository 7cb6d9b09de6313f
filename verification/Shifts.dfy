/** The arithmetic of op_shift (opcodes.py): what its byte loop means for the
    number an atom stands for. */
module Shifts {
  import opened Integers
  import opened Costs
  import opened Opcodes

  lemma {:induction false} Pow2Sum(a: nat, b: nat)
    ensures Pow2(a + b) == Pow2(a) * Pow2(b)
  {
    if a > 0 {
      Pow2Sum(a - 1, b);
      Regroup(2, Pow2(a - 1), Pow2(b));
    }
  }

  lemma Regroup(a: int, b: int, c: int)
    ensures (a * b) * c == a * (b * c)
  {
  }

  lemma Distribute(p: int, a: int, b: int)
    ensures p * (a + b) == p * a + p * b
  {
  }

  lemma {:induction false} Pow2Bytes(n: nat)
    ensures Pow2(8 * n) == Pow256(n)
  {
    if n > 0 {
      Pow2Bytes(n - 1);
      Pow2Sum(8, 8 * (n - 1));
      Pow2Eight();
    }
  }

  lemma Pow2Eight()
    ensures Pow2(8) == 256
  {
    assert Pow2(4) == 16;
    Pow2Sum(4, 4);
  }

  lemma {:induction false} Pow2Below(a: nat, b: nat)
    requires a <= b
    ensures Pow2(a) <= Pow2(b)
    decreases b
  {
    if a < b {
      Pow2Below(a, b - 1);
    }
  }

  /** The overflow carried between bytes stays below the bit offset's range. */
  lemma OverflowBound(x: byte, bits: nat, overflow: nat)
    requires overflow < Pow2(bits)
    ensures (Scaled(x, bits) + overflow) / 256 < Pow2(bits)
  {
    MulMonotonic(Pow2(bits), x, 255);
  }

  /** One byte's worth of the shifted number. */
  lemma ShiftOne(x: byte, rest: nat, bits: nat, overflow: nat)
    ensures var y := Scaled(x, bits) + overflow;
      Scaled(x + 256 * rest, bits) + overflow == y % 256 + 256 * (Scaled(rest, bits) + y / 256)
  {
    var p := Pow2(bits);
    Distribute(p, x, 256 * rest);
    Regroup(256, rest, p);
  }

  /** The byte loop multiplies by a power of two and adds what it carried in, in
      one byte more than it read. */
  lemma {:induction false} ShiftUpValue(b: Bytes, bits: nat, overflow: nat)
    requires bits < 8 && overflow < Pow2(bits)
    ensures Unsigned(ShiftUp(b, bits, overflow)) == Scaled(Unsigned(b), bits) + overflow
    ensures |ShiftUp(b, bits, overflow)| == |b| + 1
  {
    hide Scaled, Pow2;
    if b == [] {
      ScaledZero(bits);
      OverflowByte(bits, overflow);
      UnsignedCons(overflow, []);
    } else {
      var x := Scaled(b[0], bits) + overflow;
      OverflowBound(b[0], bits, overflow);
      ShiftUpValue(b[1..], bits, x / 256);
      ShiftOne(b[0], Unsigned(b[1..]), bits, overflow);
      UnsignedCons(x % 256, ShiftUp(b[1..], bits, x / 256));
    }
  }

  lemma ScaledZero(bits: nat)
    ensures Scaled(0, bits) == 0
  {
  }

  lemma OverflowByte(bits: nat, overflow: nat)
    requires bits < 8 && overflow < Pow2(bits)
    ensures overflow < 256
  {
    Pow2Below(bits, 8);
    Pow2Eight();
  }

  lemma UnsignedCons(x: byte, r: Bytes)
    ensures Unsigned([x] + r) == x + 256 * Unsigned(r)
  {
    assert ([x] + r)[1..] == r;
  }

  lemma {:induction false} UnsignedZeros(n: nat, b: Bytes)
    ensures Unsigned(Zeros(n) + b) == Pow256(n) * Unsigned(b)
  {
    if n == 0 {
      assert Zeros(n) + b == b;
    } else {
      UnsignedZeros(n - 1, b);
      assert (Zeros(n) + b)[1..] == Zeros(n - 1) + b;
      Regroup(256, Pow256(n - 1), Unsigned(b));
    }
  }

  /** A left shift by n multiplies by 2^n in exactly the charged number of bytes. */
  lemma LeftShift(b: Bytes, n: nat)
    requires n > 0
    ensures Unsigned(ShiftBy(b, n)) == Unsigned(b) * Pow2(n)
    ensures |ShiftBy(b, n)| == n / 8 + |b| + 1 == ShiftBound(b, n)
  {
    ShiftUpValue(b, n % 8, 0);
    var r := ShiftUp(b, n % 8, 0);
    UnsignedZeros(n / 8, r);
    Pow2Bytes(n / 8);
    Pow2Sum(8 * (n / 8), n % 8);
    var p, q, u: int := Pow256(n / 8), Pow2(n % 8), Unsigned(b);
    Regroup(u, q, p);
    assert p * (u * q) == u * (p * q);
  }

  lemma DivideByte(x: byte, rest: nat, k: nat)
    requires 0 < k <= 8
    ensures (x + 256 * rest) / Pow2(k) == Scaled(rest, 8 - k) + HighBits(x, k)
    ensures HighBits(x, k) < Pow2(8 - k)
  {
    Pow2Sum(k, 8 - k);
    Pow2Eight();
    hide Pow2;
    var p, q: int := Pow2(k), Pow2(8 - k);
    Regroup(p, q, rest);
    DivideSum(x, q * rest, p);
    MulOrder(p, q, x / p);
  }

  lemma DivideSum(x: int, m: int, p: int)
    requires p > 0
    ensures (x + p * m) / p == x / p + m
  {
    var q, r := x / p, x % p;
    Distribute(p, q, m);
    assert x + p * m == p * (q + m) + r;
    QuotientUnique(x + p * m, p, q + m, r);
  }

  lemma MulOrder(p: int, a: int, b: int)
    requires p > 0
    ensures a <= b ==> p * a <= p * b
  {
    if a <= b {
      MulMonotonic(p, 0, b - a);
      Distribute(p, a, b - a);
    }
  }

  lemma QuotientUnique(n: int, p: int, q: int, r: int)
    requires p > 0 && n == p * q + r && 0 <= r < p
    ensures n / p == q
  {
    var d := n / p;
    MulOrder(p, d + 1, q);
    MulOrder(p, q + 1, d);
    Distribute(p, d, 1);
    Distribute(p, q, 1);
  }

  /** The remaining loop of a right shift divides by a power of two. */
  lemma {:induction false} ShiftDownValue(b: Bytes, k: nat)
    requires k > 0
    ensures Unsigned(ShiftDown(b, k)) == Unsigned(b) / Pow2(k)
    ensures |ShiftDown(b, k)| == Max(1, |b| - Min((k - 1) / 8, |b|))
    decreases |b|
  {
    hide Pow2, Scaled, HighBits, ShiftUp;
    if b == [] {
    } else if k > 8 {
      ShiftDownValue(b[1..], k - 8);
      DivideTwice(b[0], Unsigned(b[1..]), k);
    } else {
      DivideByte(b[0], Unsigned(b[1..]), k);
      ShiftUpValue(b[1..], 8 - k, HighBits(b[0], k));
    }
  }

  /** Dropping a byte divides by 256. */
  lemma DivideTwice(x: byte, rest: nat, k: nat)
    requires k > 8
    ensures (x + 256 * rest) / Pow2(k) == rest / Pow2(k - 8)
  {
    Pow2Sum(8, k - 8);
    Pow2Eight();
    var p: int := Pow2(k - 8);
    var q, r := rest / p, rest % p;
    Regroup(256, p, q);
    QuotientUnique(x + 256 * rest, 256 * p, q, x + 256 * r);
  }

  /** A right shift by k is the floor of dividing by 2^k, and never outgrows the
      charged bound. */
  lemma RightShift(b: Bytes, k: int)
    requires k > 0
    ensures Unsigned(ShiftBy(b, -k)) == Unsigned(b) / Pow2(k)
    ensures |ShiftBy(b, -k)| == Max(1, |b| - Min((k - 1) / 8, |b|)) <= ShiftBound(b, -k)
  {
    ShiftDownValue(b, k);
  }

  /** What the byte loop of op_shift has still to emit. */
  ghost function Emitted(b: Bytes, delta: int, overflow: nat): Bytes {
    if delta >= 0 then ShiftUp(b, delta, overflow) else ShiftDown(b, -delta)
  }

  /** One turn of the loop. */
  lemma EmittedStep(b: Bytes, delta: int, overflow: nat)
    requires b != [] && delta < 8
    ensures delta < -8 ==> Emitted(b, delta, 0) == Emitted(b[1..], delta + 8, 0)
    ensures -8 <= delta < 0 ==> Emitted(b, delta, 0) == Emitted(b[1..], delta + 8, HighBits(b[0], -delta))
    ensures delta >= 0 ==>
              var x := Scaled(b[0], delta) + overflow;
              Emitted(b, delta, overflow) == [x % 256] + Emitted(b[1..], delta, x / 256)
  {
  }

  /** Where the loop starts and ends. */
  lemma EmittedEnds(b: Bytes, n: int)
    requires n != 0
    ensures ShiftBy(b, n) == if n > 0 then Zeros(n / 8) + Emitted(b, n % 8, 0) else Emitted(b, n, 0)
    ensures forall delta: int, overflow: byte | delta < 8 && (delta < 0 ==> overflow == 0) ::
            Emitted([], delta, overflow) == [overflow]
  {
  }

  /** op_shift's loop over the input bytes. */
  method ShiftBytes(inp: Bytes, n: int) returns (bb: Bytes)
    requires n != 0
    ensures bb == ShiftBy(inp, n)
  {
    hide Pow2, HighBits, Scaled, Emitted;
    EmittedEnds(inp, n);
    var delta, overflow: nat, i := n, 0, 0;
    bb := if delta > 0 then Zeros(delta / 8) else [];
    if delta > 0 {
      delta := delta % 8;
    }
    while i < |inp|
      invariant i <= |inp| && delta < 8
      invariant delta >= 0 ==> overflow < Pow2(delta)
      invariant delta < 0 ==> overflow == 0
      invariant bb + Emitted(inp[i..], delta, overflow) == ShiftBy(inp, n)
    {
      var b := inp[i];
      assert inp[i..][1..] == inp[i + 1..];
      EmittedStep(inp[i..], delta, overflow);
      if delta < -8 {
        delta := delta + 8;
      } else if delta < 0 {
        DivideByte(b, 0, -delta);
        overflow := HighBits(b, -delta);
        delta := delta + 8;
      } else {
        var x := Scaled(b, delta) + overflow;
        OverflowBound(b, delta, overflow);
        bb := bb + [x % 256];
        overflow := x / 256;
      }
      i := i + 1;
    }
    if delta >= 0 {
      OverflowByte(delta, overflow);
    }
    assert inp[i..] == [];
    bb := bb + [overflow];
  }
}
