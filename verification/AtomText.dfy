/** How atoms are written (element.py, Atom.__str__ and simplenum) and read back
    (SExpr.parse). */
module AtomText {
  import opened Integers
  import opened Elements

  // ----- decimal -----

  predicate IsDigit(c: char) {
    '0' <= c <= '9'
  }

  function Digit(n: nat): (c: char)
    requires n < 10
    ensures IsDigit(c)
  {
    '0' + n as char
  }

  function DigitValue(c: char): (n: nat)
    requires IsDigit(c)
    ensures n < 10
  {
    (c - '0') as nat
  }

  predicate AllDigits(s: string) {
    forall i | 0 <= i < |s| :: IsDigit(s[i])
  }

  function Natural(n: nat): (s: string)
    ensures s != "" && AllDigits(s)
  {
    if n < 10 then [Digit(n)] else Natural(n / 10) + [Digit(n % 10)]
  }

  function ReadNatural(s: string): nat
    requires AllDigits(s)
  {
    if s == "" then 0 else 10 * ReadNatural(s[..|s| - 1]) + DigitValue(s[|s| - 1])
  }

  function Decimal(i: int): string {
    if i < 0 then "-" + Natural(-i) else Natural(i)
  }

  /** re_int. */
  predicate IsInt(s: string) {
    if s != "" && s[0] == '-' then s[1..] != "" && AllDigits(s[1..]) else s != "" && AllDigits(s)
  }

  function ReadInt(s: string): int
    requires IsInt(s)
  {
    if s[0] == '-' then 0 - ReadNatural(s[1..]) else ReadNatural(s)
  }

  lemma {:induction false} NaturalRoundTrip(n: nat)
    ensures ReadNatural(Natural(n)) == n
    decreases n
  {
    if n < 10 {
      assert Natural(n)[..0] == "";
    } else {
      NaturalRoundTrip(n / 10);
      assert Natural(n)[..|Natural(n)| - 1] == Natural(n / 10);
    }
  }

  lemma DecimalRoundTrip(i: int)
    ensures IsInt(Decimal(i)) && ReadInt(Decimal(i)) == i
  {
    NaturalRoundTrip(if i < 0 then -i else i);
    if i < 0 {
      assert Decimal(i)[1..] == Natural(-i);
    } else {
      assert IsDigit(Natural(i)[0]);
    }
  }

  // ----- hexadecimal -----

  function HexDigit(n: nat): char
    requires n < 16
  {
    if n < 10 then '0' + n as char else 'a' + (n - 10) as char
  }

  predicate IsHexDigit(c: char) {
    IsDigit(c) || 'a' <= c <= 'f' || 'A' <= c <= 'F'
  }

  function HexValue(c: char): (n: nat)
    requires IsHexDigit(c)
    ensures n < 16
  {
    if IsDigit(c) then (c - '0') as nat else if 'a' <= c <= 'f' then (c - 'a') as nat + 10 else (c - 'A') as nat + 10
  }

  function Hex(b: Bytes): string {
    if b == [] then "" else [HexDigit(b[0] / 16), HexDigit(b[0] % 16)] + Hex(b[1..])
  }

  /** bytes.fromhex; None for an odd number of digits. */
  function FromHex(s: string): Option<Bytes>
    requires forall i | 0 <= i < |s| :: IsHexDigit(s[i])
  {
    if s == "" then Some([])
    else if |s| == 1 then None
    else
      var rest := FromHex(s[2..]);
      if rest.None? then None else Some([16 * HexValue(s[0]) + HexValue(s[1])] + rest.value)
  }

  /** re_hex. */
  predicate IsHex(s: string) {
    |s| >= 3 && s[..2] == "0x" && forall i | 2 <= i < |s| :: IsHexDigit(s[i])
  }

  lemma HexDigitValue(n: nat)
    requires n < 16
    ensures IsHexDigit(HexDigit(n)) && HexValue(HexDigit(n)) == n
  {
  }

  lemma {:induction false} HexDigits(b: Bytes)
    ensures forall i | 0 <= i < |Hex(b)| :: IsHexDigit(Hex(b)[i])
  {
    hide IsHexDigit, HexDigit;
    if b != [] {
      HexDigits(b[1..]);
      HexDigitValue(b[0] / 16);
      HexDigitValue(b[0] % 16);
    }
  }

  lemma {:induction false} HexRoundTrip(b: Bytes)
    ensures forall i | 0 <= i < |Hex(b)| :: IsHexDigit(Hex(b)[i])
    ensures FromHex(Hex(b)) == Some(b)
  {
    hide IsHexDigit, HexDigit, HexValue;
    HexDigits(b);
    if b != [] {
      HexRoundTrip(b[1..]);
      HexDigitValue(b[0] / 16);
      HexDigitValue(b[0] % 16);
      assert Hex(b)[2..] == Hex(b[1..]);
      assert Hex(b)[0] == HexDigit(b[0] / 16) && Hex(b)[1] == HexDigit(b[0] % 16);
      assert b == [b[0]] + b[1..];
    }
  }

  /** Digits a to f in either case. */
  function Lower(s: string): (t: string)
    ensures |t| == |s|
  {
    seq(|s|, i requires 0 <= i < |s| => if 'A' <= s[i] <= 'F' then s[i] - 'A' + 'a' else s[i])
  }

  lemma HexDigitIs(c: char, n: nat)
    requires IsHexDigit(c) && n < 16
    ensures HexValue(c) == n <==> Lower([c])[0] == HexDigit(n)
  {
  }

  /** Hexadecimal text reads as the bytes whose printed form it is, in either case; an
      odd number of digits as nothing. */
  lemma {:induction false} HexReading(s: string, b: Bytes)
    requires forall i | 0 <= i < |s| :: IsHexDigit(s[i])
    ensures FromHex(s) == Some(b) <==> Lower(s) == Hex(b)
    decreases |s|
  {
    hide IsHexDigit, HexDigit, HexValue, Lower;
    HexLength(b);
    if |s| >= 2 && b != [] {
      HexReading(s[2..], b[1..]);
      HexDigitIs(s[0], b[0] / 16);
      HexDigitIs(s[1], b[0] % 16);
      LowerPair(s);
      assert Hex(b) == [HexDigit(b[0] / 16), HexDigit(b[0] % 16)] + Hex(b[1..]);
      assert b == [b[0]] + b[1..];
      var x, y := HexValue(s[0]), HexValue(s[1]);
      assert 16 * x + y == b[0] <==> x == b[0] / 16 && y == b[0] % 16;
      TwoAndMore(Lower([s[0]])[0], Lower([s[1]])[0], Lower(s[2..]), HexDigit(b[0] / 16), HexDigit(b[0] % 16),
                 Hex(b[1..]));
    }
  }

  lemma LowerPair(s: string)
    requires |s| >= 2
    ensures Lower(s) == [Lower([s[0]])[0], Lower([s[1]])[0]] + Lower(s[2..])
  {
  }

  lemma TwoAndMore(a: char, b: char, s: string, c: char, d: char, t: string)
    ensures [a, b] + s == [c, d] + t <==> a == c && b == d && s == t
  {
    var x, y := [a, b] + s, [c, d] + t;
    assert x[0] == a && x[1] == b && x[2..] == s && y[0] == c && y[1] == d && y[2..] == t;
  }

  lemma {:induction false} HexLength(b: Bytes)
    ensures |Hex(b)| == 2 * |b|
  {
    if b != [] {
      HexLength(b[1..]);
    }
  }

  function ZeroText(k: nat): (s: string)
    ensures AllDigits(s)
  {
    seq(k, _ => '0')
  }

  /** A printed number behind so many zeros. */
  function Padded(k: nat, n: nat): (s: string)
    ensures s != "" && AllDigits(s)
  {
    ZeroText(k) + Natural(n)
  }

  lemma {:induction false} ZeroReads(k: nat)
    ensures ReadNatural(ZeroText(k)) == 0
  {
    if k > 0 {
      assert ZeroText(k)[..k - 1] == ZeroText(k - 1);
      ZeroReads(k - 1);
    }
  }

  lemma {:induction false} PaddedReads(k: nat, n: nat)
    ensures ReadNatural(Padded(k, n)) == n
    decreases n
  {
    var s := Padded(k, n);
    if n < 10 {
      assert s[..|s| - 1] == ZeroText(k);
      ZeroReads(k);
    } else {
      PaddedReads(k, n / 10);
      assert s[..|s| - 1] == Padded(k, n / 10);
    }
  }

  /** Digits are a printed number behind zeros, and read as that number. */
  lemma {:induction false} DigitsRead(s: string) returns (k: nat)
    requires AllDigits(s) && s != ""
    ensures s == Padded(k, ReadNatural(s))
    decreases |s|
  {
    hide ReadNatural, Natural, Padded;
    var init, d := s[..|s| - 1], DigitValue(s[|s| - 1]);
    LastDigit(s);
    if init == "" {
      k := 0;
      assert s == [Digit(d)];
      PaddedOnes(0, 0, d);
    } else {
      k := DigitsRead(init);
      PaddedOnes(k, ReadNatural(init), d);
      k := if ReadNatural(init) == 0 then k + 1 else k;
    }
  }

  lemma LastDigit(s: string)
    requires AllDigits(s) && s != ""
    ensures var init, d := s[..|s| - 1], DigitValue(s[|s| - 1]);
      s == init + [Digit(d)] && ReadNatural(s) == 10 * ReadNatural(init) + d && (init == "" ==> ReadNatural(init) == 0)
  {
  }

  /** One digit more. */
  lemma PaddedOnes(k: nat, m: nat, d: nat)
    requires d < 10
    ensures Padded(k, m) + [Digit(d)] == Padded(if m == 0 then k + 1 else k, 10 * m + d)
    ensures Padded(0, d) == [Digit(d)]
  {
    assert ZeroText(k + 1) == ZeroText(k) + "0";
  }

  // ----- minimal encodings -----

  /** simplenum: at most four bytes, and none of them spare. */
  predicate SimpleNum(a: Bytes) {
    && |a| <= 4
    && !(|a| == 1 && a[0] % 128 == 0)
    && !(|a| >= 2 && a[|a| - 1] % 128 == 0 && a[|a| - 2] < 128)
  }

  lemma {:induction false} DigitsOf(b: Bytes)
    requires b != [] ==> b[|b| - 1] != 0
    ensures Digits(Unsigned(b)) == b
  {
    if b != [] {
      DigitsOf(b[1..]);
      if |b| > 1 {
        DigitsValue(Unsigned(b[1..]));
      }
      assert b == [b[0]] + b[1..];
    }
  }

  /** A trailing zero byte does not change the number. */
  lemma TrailingZero(b: Bytes)
    ensures Unsigned(b + [0]) == Unsigned(b)
  {
    UnsignedAppend(b, [0]);
    assert Unsigned([0]) == 0;
  }

  /** Without a spare byte, writing undoes reading. */
  lemma MinimalRoundTrip(a: Bytes)
    requires a != [] && !(|a| == 1 && a[0] % 128 == 0)
    requires !(|a| >= 2 && a[|a| - 1] % 128 == 0 && a[|a| - 2] < 128)
    ensures IntToBytes(BytesToInt(a)) == a
  {
    hide BytesToInt, IntToBytes;
    if a[|a| - 1] % 128 != 0 {
      NeededByte(a);
    } else {
      SignByte(a);
    }
  }

  /** The last byte carries bits of the magnitude. */
  lemma NeededByte(a: Bytes)
    requires a != [] && a[|a| - 1] % 128 != 0
    ensures IntToBytes(BytesToInt(a)) == a
  {
    hide Digits, Unsigned;
    var init, last := a[..|a| - 1], a[|a| - 1];
    var m := init + [last % 128];
    DigitsOf(m);
    NonZero(m);
    assert m[..|m| - 1] == init && a == init + [last];
  }

  /** The last byte carries the sign alone, because the one before uses its top bit. */
  lemma SignByte(a: Bytes)
    requires |a| >= 2 && a[|a| - 1] % 128 == 0 && a[|a| - 2] >= 128
    ensures IntToBytes(BytesToInt(a)) == a
  {
    hide Digits, Unsigned;
    var init, last := a[..|a| - 1], a[|a| - 1];
    TrailingZero(init);
    DigitsOf(init);
    NonZero(init);
    assert a == init + [last];
  }

  lemma NonZero(b: Bytes)
    requires b != [] && b[|b| - 1] != 0
    ensures Unsigned(b) > 0
  {
    TopByte(b[..|b| - 1], b[|b| - 1]);
    assert b == b[..|b| - 1] + [b[|b| - 1]];
  }

  /** With a spare byte, a shorter string reads the same. */
  lemma SpareByte(a: Bytes)
    requires |a| >= 1 && a[|a| - 1] % 128 == 0 && (|a| >= 2 ==> a[|a| - 2] < 128)
    ensures |IntToBytes(BytesToInt(a))| < |a|
  {
    hide Unsigned, IntToBytes;
    var init, last := a[..|a| - 1], a[|a| - 1];
    TrailingZero(init);
    if init == [] {
      EmptyIsZero();
    } else {
      var front, prev := init[..|init| - 1], init[|init| - 1];
      var b := front + [if last >= 128 then prev + 128 else prev];
      assert b[..|b| - 1] == front && front + [prev] == init;
      ShortestEncoding(b);
    }
  }

  /** simplenum picks decimal exactly for the minimal encodings of at most four
      bytes. */
  lemma SimpleNumIsMinimal(a: Bytes)
    ensures SimpleNum(a) <==> |a| <= 4 && IntToBytes(BytesToInt(a)) == a
  {
    hide IntToBytes, BytesToInt;
    if a == [] {
      EmptyIsZero();
    } else if (|a| == 1 && a[0] % 128 == 0) || (|a| >= 2 && a[|a| - 1] % 128 == 0 && a[|a| - 2] < 128) {
      SpareByte(a);
    } else {
      MinimalRoundTrip(a);
    }
  }
}
