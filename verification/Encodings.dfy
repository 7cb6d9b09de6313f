/** What rd accepts: besides the canonical encoding, every longer length prefix that
    says the same (element.py, SerDeser). */
module Encodings {
  import opened Integers
  import opened Elements
  import opened Codec
  import O = Opcodes
  import M = OpcodeMeaning
  import Canonical
  import PartialApplication

  /** A length prefix, in any of its three widths that can say the length. */
  predicate Prefixes(p: Bytes, n: nat) {
    || (n <= 0x3f && p == [0x80 + n])
    || (n <= 0x1fff && p == [0xc0 + n / 0x100, n % 0x100])
    || (n <= 0xfffff && p == [0xe0 + n / 0x10000, n / 0x100 % 0x100, n % 0x100])
  }

  /** The bytes encode the element, canonically or not. */
  ghost predicate Encodes(b: Bytes, e: Element)
    decreases e
  {
    match e
    case Atom(a) => (|a| == 1 && a[0] < 0x80 && b == a) || exists p :: Prefixes(p, |a|) && b == p + a
    case Cons(l, r) => exists x, y :: Encodes(x, l) && Encodes(y, r) && b == [0xff] + x + y
    case Func(_) => false
  }

  /** The bytes at i..s say that n bytes follow. */
  predicate PrefixSays(b: Bytes, i: nat, s: nat, n: nat) {
    && i < s <= |b|
    && (|| (s == i + 1 && 0x80 <= b[i] < 0xc0 && n == b[i] - 0x80)
        || (s == i + 2 && 0xc0 <= b[i] < 0xe0 && n == (b[i] as int - 0xc0) * 0x100 + b[i + 1])
        || (s == i + 3 && 0xe0 <= b[i] < 0xf0
            && n == (b[i] as int - 0xe0) * 0x10000 + b[i + 1] as int * 0x100 + b[i + 2]))
  }

  lemma SaysPrefix(b: Bytes, i: nat, s: nat, n: nat)
    requires PrefixSays(b, i, s, n)
    ensures Prefixes(b[i..s], n)
  {
    if s == i + 3 {
      ThreeDigits(b[i] - 0xe0, b[i + 1], b[i + 2], n);
      assert b[i..s] == [b[i], b[i + 1], b[i + 2]];
    } else if s == i + 2 {
      TwoDigits(b[i] - 0xc0, b[i + 1], n);
      assert b[i..s] == [b[i], b[i + 1]];
    }
  }

  lemma PrefixSaysIt(b: Bytes, i: nat, s: nat, n: nat)
    requires i <= s <= |b| && Prefixes(b[i..s], n)
    ensures PrefixSays(b, i, s, n)
  {
    var p := b[i..s];
    assert |p| == s - i >= 1 && p[0] == b[i];
    if |p| >= 2 {
      assert p[1] == b[i + 1];
      Digits2(n);
    }
    if |p| == 3 {
      assert p[2] == b[i + 2];
      Digits3(n);
    }
  }

  lemma Digits2(n: nat)
    ensures n / 0x100 * 0x100 + n % 0x100 == n
  {
  }

  lemma Digits3(n: nat)
    ensures n / 0x10000 * 0x10000 + n / 0x100 % 0x100 * 0x100 + n % 0x100 == n
  {
    assert n / 0x100 / 0x100 == n / 0x10000;
  }

  lemma TwoDigits(x: nat, y: byte, n: nat)
    requires n == x * 0x100 + y
    ensures n / 0x100 == x && n % 0x100 == y
  {
  }

  lemma ThreeDigits(x: nat, y: byte, z: byte, n: nat)
    requires n == x * 0x10000 + y * 0x100 + z
    ensures n / 0x10000 == x && n / 0x100 % 0x100 == y && n % 0x100 == z
  {
    assert n / 0x100 == x * 0x100 + y;
  }

  lemma SaidDecodes(b: Bytes, i: nat, s: nat, n: nat, rates: Rates)
    requires PrefixSays(b, i, s, n) && s + n <= |b|
    ensures Decode(b, i, rates).value == Got(Atom(b[s..s + n]), s + n)
  {
    hide Bill;
    assert n == 0 ==> b[s..s + n] == [];
  }

  lemma DecodedSays(b: Bytes, i: nat, rates: Rates) returns (s: nat)
    requires i < |b| && 0x80 <= b[i] && b[i] != 0xff && Decode(b, i, rates).value.Got?
    ensures var d := Decode(b, i, rates).value;
      s <= d.next <= |b| && PrefixSays(b, i, s, d.next - s) && d.e == Atom(b[s..d.next])
  {
    hide Bill;
    s := if b[i] < 0xc0 then i + 1 else if b[i] < 0xe0 then i + 2 else i + 3;
    assert b[i] == 0x80 ==> b[i + 1..i + 1] == [];
  }

  lemma ByteDecodes(b: Bytes, i: nat, rates: Rates)
    requires i < |b| && b[i] < 0x80
    ensures Decode(b, i, rates).value == Got(Atom([b[i]]), i + 1)
  {
  }

  lemma AtomDecodes(b: Bytes, i: nat, j: nat, a: Bytes, rates: Rates)
    requires i <= j <= |b| && Encodes(b[i..j], Atom(a))
    ensures Decode(b, i, rates).value == Got(Atom(a), j)
  {
    hide Decode, Prefixes;
    if |a| == 1 && a[0] < 0x80 && b[i..j] == a {
      assert b[i] == b[i..j][0] && a == [b[i]];
      ByteDecodes(b, i, rates);
    } else {
      var p :| Prefixes(p, |a|) && b[i..j] == p + a;
      PrefixedDecodes(b, i, j, p, a, rates);
    }
  }

  lemma PrefixedDecodes(b: Bytes, i: nat, j: nat, p: Bytes, a: Bytes, rates: Rates)
    requires i <= j <= |b| && Prefixes(p, |a|) && b[i..j] == p + a
    ensures Decode(b, i, rates).value == Got(Atom(a), j)
  {
    hide Decode, Prefixes, PrefixSays, Encodes;
    var s := i + |p|;
    Joint(p, a);
    assert j - i == |p| + |a|;
    Slices(b, i, j, 0, |p|);
    Slices(b, i, j, |p|, j - i);
    assert b[i..s] == p && b[s..j] == a;
    PrefixSaysIt(b, i, s, |a|);
    SaidDecodes(b, i, s, |a|, rates);
  }

  lemma Joint(p: Bytes, a: Bytes)
    ensures |p + a| == |p| + |a| && (p + a)[0..|p|] == p && (p + a)[|p|..|p + a|] == a
  {
  }

  lemma {:induction false} EncodingDecodes(b: Bytes, i: nat, j: nat, e: Element, rates: Rates)
    requires i <= j <= |b| && Encodes(b[i..j], e)
    ensures Decode(b, i, rates).value == Got(e, j)
    decreases e
  {
    match e {
      case Atom(a) => AtomDecodes(b, i, j, a, rates);
      case Cons(l, r) =>
        hide Encodes, Decode;
        var m := SplitPair(b, i, j, l, r);
        EncodingDecodes(b, i + 1, m, l, rates);
        EncodingDecodes(b, m, j, r, rates);
        PairDecodes(b, i, l, m, r, j, rates);
    }
  }

  lemma SplitPair(b: Bytes, i: nat, j: nat, l: Element, r: Element) returns (m: nat)
    requires i <= j <= |b| && Encodes(b[i..j], Cons(l, r))
    ensures i < m <= j && b[i] == 0xff && Encodes(b[i + 1..m], l) && Encodes(b[m..j], r)
  {
    hide Prefixes;
    var x, y :| Encodes(x, l) && Encodes(y, r) && b[i..j] == [0xff] + x + y;
    m := i + 1 + |x|;
    PairParts(b, i, j, x, y);
  }

  lemma PairParts(b: Bytes, i: nat, j: nat, x: Bytes, y: Bytes)
    requires i <= j <= |b| && b[i..j] == [0xff] + x + y
    ensures var m := i + 1 + |x|;
      m <= j && b[i] == 0xff && b[i + 1..m] == x && b[m..j] == y
  {
    assert b[i] == b[i..j][0];
    Parts(x, y);
    assert j - i == 1 + |x| + |y|;
    Slices(b, i, j, 1, 1 + |x|);
    Slices(b, i, j, 1 + |x|, j - i);
  }

  lemma Slices(b: Bytes, i: nat, j: nat, u: nat, v: nat)
    requires i <= j <= |b| && u <= v <= j - i
    ensures b[i..j][u..v] == b[i + u..i + v]
  {
    var s, t := b[i..j][u..v], b[i + u..i + v];
    assert |s| == |t| && forall k | 0 <= k < |s| :: s[k] == b[i..j][u + k] == t[k];
  }

  lemma Parts(x: Bytes, y: Bytes)
    ensures ([0xff] + x + y)[1..1 + |x|] == x && ([0xff] + x + y)[1 + |x|..1 + |x| + |y|] == y
  {
  }

  lemma PairDecodes(b: Bytes, i: nat, l: Element, m: nat, r: Element, j: nat, rates: Rates)
    requires i < m <= |b| && b[i] == 0xff
    requires Decode(b, i + 1, rates).value == Got(l, m) && Decode(b, m, rates).value == Got(r, j)
    ensures Decode(b, i, rates).value == Got(Cons(l, r), j)
  {
  }

  lemma {:induction false} DecodedIsEncoding(b: Bytes, i: nat, rates: Rates)
    requires i <= |b| && Decode(b, i, rates).value.Got?
    ensures var d := Decode(b, i, rates).value; Encodes(b[i..d.next], d.e)
    decreases |b| - i
  {
    hide Encodes, Prefixes, Decode;
    NotAtEnd(b, i, rates);
    if b[i] == 0xff {
      DecodedPair(b, i, rates);
      var l := Decode(b, i + 1, rates).value;
      var r := Decode(b, l.next, rates).value;
      DecodedIsEncoding(b, i + 1, rates);
      DecodedIsEncoding(b, l.next, rates);
      assert b[i..r.next] == [0xff] + b[i + 1..l.next] + b[l.next..r.next];
      PairEncodes(b[i + 1..l.next], b[l.next..r.next], l.e, r.e);
    } else {
      DecodedAtom(b, i, rates);
    }
  }

  lemma NotAtEnd(b: Bytes, i: nat, rates: Rates)
    requires i <= |b| && Decode(b, i, rates).value.Got?
    ensures i < |b|
  {
  }

  lemma DecodedPair(b: Bytes, i: nat, rates: Rates)
    requires i < |b| && b[i] == 0xff && Decode(b, i, rates).value.Got?
    ensures Decode(b, i + 1, rates).value.Got?
    ensures var l := Decode(b, i + 1, rates).value; var r := Decode(b, l.next, rates).value;
      r.Got? && Decode(b, i, rates).value == Got(Cons(l.e, r.e), r.next)
  {
  }

  lemma PairEncodes(x: Bytes, y: Bytes, l: Element, r: Element)
    requires Encodes(x, l) && Encodes(y, r)
    ensures Encodes([0xff] + x + y, Cons(l, r))
  {
    hide Prefixes;
  }

  lemma PrefixEncodes(b: Bytes, i: nat, s: nat, j: nat)
    requires i <= s <= j <= |b| && Prefixes(b[i..s], j - s)
    ensures Encodes(b[i..j], Atom(b[s..j]))
  {
    hide Prefixes;
    assert b[i..j] == b[i..s] + b[s..j];
  }

  lemma DecodedAtom(b: Bytes, i: nat, rates: Rates)
    requires i < |b| && b[i] != 0xff && Decode(b, i, rates).value.Got?
    ensures var d := Decode(b, i, rates).value; Encodes(b[i..d.next], d.e)
  {
    hide Encodes, Decode, Prefixes, PrefixSays;
    if b[i] < 0x80 {
      ByteDecodes(b, i, rates);
      assert b[i..i + 1] == [b[i]];
      ByteEncodes(b[i]);
    } else {
      var s := DecodedSays(b, i, rates);
      var j := Decode(b, i, rates).value.next;
      SaysPrefix(b, i, s, j - s);
      SaysWithin(b, i, s, j - s);
      PrefixEncodes(b, i, s, j);
    }
  }

  lemma SaysWithin(b: Bytes, i: nat, s: nat, n: nat)
    requires PrefixSays(b, i, s, n)
    ensures i < s <= |b|
  {
  }

  lemma ByteEncodes(x: byte)
    requires x < 0x80
    ensures Encodes([x], Atom([x]))
  {
  }

  /** rd yields exactly the elements its argument encodes, canonically or not. */
  lemma ReadsExactly(b: Bytes, e: Element)
    ensures O.DoRd(Atom(b)).value == Value(e) <==> Encodes(b, e)
  {
    hide Decode, Encodes;
    assert b[0..|b|] == b;
    if O.DoRd(Atom(b)).value == Value(e) {
      DecodedIsEncoding(b, 0, O.RD_RATES);
    }
    if Encodes(b, e) {
      EncodingDecodes(b, 0, |b|, e, O.RD_RATES);
    }
  }

  /** rd and wr over any argument list: rd delivers what its argument encodes, and wr
      the canonical encoding. */
  lemma CodecMeaning(o: O.Oracle, vs: seq<Element>)
    ensures var r := M.ResultOf(o, 0x20, vs);
      if |vs| > 1 then r == Failure(TooManyArguments)
      else if vs == [] then r == Failure(TooFewArguments)
      else if !vs[0].Atom? then r == Failure(NeedsAtoms)
      else forall e :: r == Value(e) <==> Encodes(vs[0].bytes, e)
    ensures var r := M.ResultOf(o, 0x21, vs);
      if |vs| > 1 then r == Failure(TooManyArguments)
      else if vs == [] then r == Failure(TooFewArguments)
      else if Canonical.Encodable(vs[0]) then r == Value(Atom(Canonical.Serialized(vs[0])))
      else r.Failure?
  {
    hide Decode, Encodes, PartialApplication.Applied, O.DoRd, O.DoWr, Canonical.Serialized;
    M.FixedResult(o, OpRd, vs);
    M.FixedResult(o, OpWr, vs);
    if |vs| == 1 {
      Canonical.WriteOutput(vs[0]);
      if vs[0].Atom? {
        forall e
          ensures O.DoRd(vs[0]).value == Value(e) <==> Encodes(vs[0].bytes, e)
        {
          ReadsExactly(vs[0].bytes, e);
        }
      } else {
        NoList(vs[0]);
      }
    }
  }

  lemma NoList(e: Element)
    requires !e.Atom?
    ensures O.DoRd(e).value == Failure(NeedsAtoms)
  {
  }
}
