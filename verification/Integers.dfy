/** Byte strings read as numbers (element.py, int_to_bytes and bytes_to_int):
    little-endian magnitudes whose top bit is the sign. */
module Integers {
  type byte = b: int | 0 <= b < 256 witness 0
  type Bytes = seq<byte>

  function Zeros(n: nat): Bytes {
    seq(n, _ => 0)
  }

  /** 256 to the power n. */
  function Pow256(n: nat): (r: nat)
    ensures r >= 1
  {
    if n == 0 then 1 else 256 * Pow256(n - 1)
  }

  /** The unsigned little-endian reading. */
  function Unsigned(b: Bytes): nat {
    if b == [] then 0 else b[0] + 256 * Unsigned(b[1..])
  }

  /** bytes_to_int: the top bit of the last byte is the sign. */
  function BytesToInt(b: Bytes): int {
    if b == [] then 0
    else
      var last := b[|b| - 1];
      var magnitude: int := Unsigned(b[..|b| - 1] + [last % 128]);
      if last >= 128 then -magnitude else magnitude
  }

  /** The shortest unsigned encoding, as int.to_bytes of the byte length. */
  function Digits(n: nat): (b: Bytes)
    ensures b == [] <==> n == 0
  {
    if n == 0 then [] else [n % 256] + Digits(n / 256)
  }

  /** int_to_bytes: the magnitude, one more byte when its top bit is taken, then
      the sign bit. */
  function IntToBytes(i: int): Bytes {
    if i == 0 then []
    else
      var magnitude := Digits(if i < 0 then -i else i);
      var last := magnitude[|magnitude| - 1];
      var body := if last < 128 then magnitude[..|magnitude| - 1] else magnitude;
      var top := if last < 128 then last else 0;
      body + [if i < 0 then top + 128 else top]
  }

  lemma Scale(p: nat, u: nat)
    ensures (256 * p) * u == 256 * (p * u)
  {
  }

  lemma {:induction false} UnsignedAppend(a: Bytes, b: Bytes)
    ensures Unsigned(a + b) == Unsigned(a) + Pow256(|a|) * Unsigned(b)
  {
    if a == [] {
      assert a + b == b;
    } else {
      UnsignedAppend(a[1..], b);
      assert (a + b)[1..] == a[1..] + b;
      Scale(Pow256(|a| - 1), Unsigned(b));
    }
  }

  lemma {:induction false} UnsignedBound(b: Bytes)
    ensures Unsigned(b) < Pow256(|b|)
  {
    if b != [] {
      UnsignedBound(b[1..]);
    }
  }

  lemma {:induction false} DigitsValue(n: nat)
    ensures Unsigned(Digits(n)) == n
    ensures n > 0 ==> Digits(n)[|Digits(n)| - 1] != 0
    ensures n > 0 ==> Pow256(|Digits(n)| - 1) <= n
  {
    if n > 0 {
      DigitsValue(n / 256);
      assert Digits(n)[1..] == Digits(n / 256);
    }
  }

  /** Reading undoes writing, for every integer. */
  lemma IntRoundTrip(i: int)
    ensures BytesToInt(IntToBytes(i)) == i
  {
    hide Unsigned;
    if i != 0 {
      var n: nat := if i < 0 then -i else i;
      SignedBytes(i);
      MagnitudeValue(n);
    }
  }

  /** The magnitude with a clear top bit: the digits, or one more zero. */
  function MagnitudeBytes(n: nat): Bytes
    requires n > 0
  {
    var d := Digits(n);
    if d[|d| - 1] < 128 then d else d + [0]
  }

  /** What is written is the magnitude with the sign in its top bit. */
  lemma SignedBytes(i: int)
    requires i != 0
    ensures var e, m := IntToBytes(i), MagnitudeBytes(if i < 0 then -i else i);
      e != [] && e[..|e| - 1] + [e[|e| - 1] % 128] == m && (e[|e| - 1] >= 128 <==> i < 0)
  {
    hide Digits;
  }

  lemma MagnitudeValue(n: nat)
    requires n > 0
    ensures Unsigned(MagnitudeBytes(n)) == n
  {
    DigitsValue(n);
    var d := Digits(n);
    hide Digits;
    UnsignedAppend(d, [0]);
    assert Unsigned([0]) == 0 && Pow256(|d|) * 0 == 0;
  }

  /** Nothing is zero, in either direction. */
  lemma EmptyIsZero()
    ensures Unsigned([]) == 0 && BytesToInt([]) == 0 && IntToBytes(0) == []
  {
  }

  /** The loop of bytes_to_int. */
  method ReadInteger(b: Bytes) returns (i: int)
    ensures i == BytesToInt(b)
  {
    if b == [] {
      return 0;
    }
    hide Unsigned;
    var m: nat, last := 1, b[|b| - 1];
    i := 0;
    EmptyIsZero();
    for k := 0 to |b| - 1
      invariant i == Unsigned(b[..k]) && m == Pow256(k)
    {
      TopByte(b[..k], b[k]);
      assert b[..k + 1] == b[..k] + [b[k]];
      i := i + m * b[k];
      m := m * 256;
    }
    TopByte(b[..|b| - 1], last % 128);
    i := i + m * (last % 128);
    if last >= 128 {
      i := -i;
    }
  }

  lemma MulMonotonic(p: nat, a: nat, b: nat)
    requires a <= b
    ensures p * a <= p * b
  {
  }

  /** The last byte weighs 256 to the number of bytes before it. */
  lemma TopByte(init: Bytes, top: byte)
    ensures Unsigned(init + [top]) == Unsigned(init) + Pow256(|init|) * top
    ensures Pow256(|init|) * top <= Unsigned(init + [top]) < Pow256(|init|) * (top + 1)
  {
    UnsignedAppend(init, [top]);
    UnsignedBound(init);
    assert Unsigned([top]) == top;
  }

  /** The magnitude a byte string can carry is bounded by its width. */
  lemma MagnitudeBound(b: Bytes)
    requires b != []
    ensures -128 * Pow256(|b| - 1) < BytesToInt(b) < 128 * Pow256(|b| - 1)
  {
    var init, top := b[..|b| - 1], b[|b| - 1] % 128;
    TopByte(init, top);
    MulMonotonic(Pow256(|init|), top + 1, 128);
  }

  lemma Pow256Monotonic(a: nat, b: nat)
    requires a <= b
    ensures Pow256(a) <= Pow256(b)
  {
  }

  /** The shortest digits: the last one is needed. */
  lemma DigitsWidth(n: nat, last: int)
    requires n > 0 && last == Digits(n)[|Digits(n)| - 1]
    ensures Pow256(|Digits(n)| - 1) * last <= n < Pow256(|Digits(n)| - 1) * (last + 1)
    ensures 1 <= last < 256
  {
    var d := Digits(n);
    DigitsValue(n);
    assert d[..|d| - 1] + [d[|d| - 1]] == d;
    TopByte(d[..|d| - 1], d[|d| - 1]);
  }

  /** The width of a written integer: its magnitude needs every byte. */
  lemma WrittenWidth(i: int)
    requires i != 0
    ensures var e := IntToBytes(i); var n: nat := if i < 0 then -i else i;
      && |e| >= 1
      && n < 128 * Pow256(|e| - 1)
      && (|e| >= 2 ==> 128 * Pow256(|e| - 2) <= n)
  {
    hide Unsigned, Digits;
    var n: nat := if i < 0 then -i else i;
    var e, d := IntToBytes(i), Digits(n);
    var last: int := d[|d| - 1];
    DigitsWidth(n, last);
    var p := Pow256(|d| - 1);
    if last < 128 {
      MulMonotonic(p, last + 1, 128);
      MulMonotonic(p, 1, last);
      if |e| >= 2 {
        assert p == 256 * Pow256(|e| - 2);
      }
    } else {
      assert Pow256(|e| - 1) == 256 * p;
      MulMonotonic(p, 128, last);
      MulMonotonic(p, last + 1, 256);
    }
  }

  /** int_to_bytes is the shortest encoding: no shorter byte string reads as i. */
  lemma ShortestEncoding(b: Bytes)
    ensures |IntToBytes(BytesToInt(b))| <= |b|
  {
    var i := BytesToInt(b);
    if i != 0 {
      WrittenWidth(i);
      MagnitudeBound(b);
      var e := IntToBytes(i);
      if |e| > |b| {
        Pow256Monotonic(|b| - 1, |e| - 2);
      }
    }
  }
}
