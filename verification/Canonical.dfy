/** The canonical decoder of spend.py: one accepted encoding for every element,
    charged like the decoder behind rd. */
module Canonical {
  import opened Integers
  import opened Costs
  import opened Budgets
  import opened Elements
  import opened Codec
  import opened Opcodes
  import opened Evaluator

  /** An atom of n bytes at i whose length prefix may have been too wide. */
  function NarrowAtom(b: Bytes, i: nat, n: nat, narrower: nat, rates: Rates): (r: Metered<Decoded>)
    requires i <= |b|
    ensures r.value.Got? ==> r.value.next == i + n <= |b|
  {
    if n <= narrower then Metered(0, Bad(CodecNotCanonical)) else AtomAt(b, i, n, rates)
  }

  /** One atom whose first byte is at i. */
  function CanonicalAtom(b: Bytes, i: nat, rates: Rates): (r: Metered<Decoded>)
    requires i < |b| && b[i] != 0xff
    ensures r.value.Got? ==> i < r.value.next <= |b|
  {
    if b[i] == 0x80 then Metered(rates.element, Got(Nil, i + 1))
    else if b[i] < 0x80 then Metered(rates.element, Got(Atom([b[i]]), i + 1))
    else if b[i] < 0xc0 then
      var n := b[i] - 0x80;
      if i + 1 + n > |b| then Metered(0, Bad(CodecTruncated))
      else if n == 1 && b[i + 1] < 0x80 then Metered(0, Bad(CodecNotCanonical))
      else AtomAt(b, i + 1, n, rates)
    else if b[i] < 0xe0 then
      if i + 2 > |b| then Metered(0, Bad(CodecTruncated))
      else NarrowAtom(b, i + 2, (b[i] as int - 0xc0) * 0x100 + b[i + 1], 0x3f, rates)
    else if b[i] < 0xf0 then
      if i + 3 > |b| then Metered(0, Bad(CodecTruncated))
      else NarrowAtom(b, i + 3, (b[i] as int - 0xe0) * 0x10000 + b[i + 1] as int * 0x100 + b[i + 2], 0x1fff, rates)
    else Metered(0, Bad(CodecTooLarge))
  }

  /** One canonically encoded element whose first byte is at i. */
  function Canon(b: Bytes, i: nat, rates: Rates): (r: Metered<Decoded>)
    requires i <= |b|
    ensures r.value.Got? ==> i < r.value.next <= |b|
    decreases |b| - i
  {
    if i == |b| then Metered(0, Bad(CodecTruncated))
    else if b[i] != 0xff then CanonicalAtom(b, i, rates)
    else
      var l := Canon(b, i + 1, rates);
      if !l.value.Got? then Metered(rates.element + l.cost, l.value)
      else
        var r := Canon(b, l.value.next, rates);
        if !r.value.Got? then Metered(rates.element + l.cost + r.cost, r.value)
        else Metered(rates.element + l.cost + r.cost, Got(Cons(l.value.e, r.value.e), r.value.next))
  }

  /** deserialize_canonical: the whole input must be one element. */
  function CanonicalElement(b: Bytes): Metered<Result> {
    var d := Canon(b, 0, RD_RATES);
    Metered(RD_BASE + d.cost,
            if !d.value.Got? then Failure(d.value.error)
            else if d.value.next != |b| then Failure(CodecTrailing)
            else Value(d.value.e))
  }

  // ----- the encoding -----

  /** What the grammar can encode. */
  predicate Encodable(e: Element) {
    match e
    case Atom(a) => |a| <= ATOM_MAX
    case Cons(l, r) => Encodable(l) && Encodable(r)
    case Func(_) => false
  }

  /** SerDeser.Serialize. */
  function Serialized(e: Element): (b: Bytes)
    requires Encodable(e)
    ensures |b| >= 1
  {
    match e
    case Atom(a) => AtomBytes(a)
    case Cons(l, r) => [0xff] + Serialized(l) + Serialized(r)
  }

  /** The bytes that ride with a length prefix. */
  function Payload(e: Element): nat {
    match e
    case Atom(a) => if |a| == 0 || (|a| == 1 && a[0] < 0x80) then 0 else |a|
    case Cons(l, r) => Payload(l) + Payload(r)
    case Func(_) => 0
  }

  /** The atom s stands at i in b. */
  predicate At(b: Bytes, i: nat, s: Bytes) {
    i + |s| <= |b| && b[i..i + |s|] == s
  }

  lemma AtSplits(b: Bytes, i: nat, s: Bytes, t: Bytes)
    ensures At(b, i, s + t) <==> At(b, i, s) && At(b, i + |s|, t)
  {
    if At(b, i, s + t) {
      assert b[i..i + |s|] == b[i..i + |s + t|][..|s|] == s;
      assert b[i + |s|..i + |s| + |t|] == b[i..i + |s + t|][|s|..] == t;
    }
  }

  lemma PayloadRead(a: Bytes, b: Bytes, i: nat, rates: Rates)
    requires At(b, i, a)
    ensures AtomAt(b, i, |a|, rates) == Metered(rates.element + Bill(rates.byte, |a|), Got(Atom(a), i + |a|))
  {
  }

  /** What the first bytes of an encoding say about the width that follows. */
  lemma PrefixRead(n: nat, b: Bytes, i: nat)
    requires n <= ATOM_MAX && At(b, i, SizePrefix(n))
    ensures n <= 0x3f ==> b[i] == 0x80 + n
    ensures 0x3f < n <= 0x1fff ==>
              0xc0 <= b[i] < 0xe0 && (b[i] as int - 0xc0) * 0x100 + b[i + 1] == n
    ensures 0x1fff < n ==>
              0xe0 <= b[i] < 0xf0 && (b[i] as int - 0xe0) * 0x10000 + b[i + 1] as int * 0x100 + b[i + 2] == n
  {
    var p := SizePrefix(n);
    assert b[i] == b[i..i + |p|][0];
    if |p| >= 2 {
      assert b[i + 1] == b[i..i + |p|][1];
    }
    if |p| == 3 {
      assert b[i + 2] == b[i..i + |p|][2];
    }
  }

  /** Every encodable atom decodes from its encoding. */
  lemma AtomAccepted(a: Bytes, b: Bytes, i: nat, rates: Rates)
    requires |a| <= ATOM_MAX && At(b, i, AtomBytes(a))
    ensures b[i] != 0xff
    ensures CanonicalAtom(b, i, rates) ==
            Metered(rates.element + Bill(rates.byte, Payload(Atom(a))), Got(Atom(a), i + |AtomBytes(a)|))
  {
    assert b[i] == b[i..i + |AtomBytes(a)|][0];
    if Payload(Atom(a)) == 0 {
      NoBytes(rates.byte);
      assert |a| == 1 ==> a == [b[i]];
    } else {
      WideAtomAccepted(a, b, i, rates);
    }
  }

  lemma NoBytes(rate: nat)
    ensures Bill(rate, 0) == 0
  {
  }

  lemma WideAtomAccepted(a: Bytes, b: Bytes, i: nat, rates: Rates)
    requires 0 < Payload(Atom(a)) == |a| <= ATOM_MAX && At(b, i, SizePrefix(|a|) + a)
    ensures b[i] != 0xff
    ensures CanonicalAtom(b, i, rates) ==
            Metered(rates.element + Bill(rates.byte, |a|), Got(Atom(a), i + |SizePrefix(|a|)| + |a|))
  {
    hide AtomAt, Bill;
    var n := |a|;
    AtSplits(b, i, SizePrefix(n), a);
    PrefixRead(n, b, i);
    PayloadRead(a, b, i + |SizePrefix(n)|, rates);
    if n == 1 {
      assert b[i + 1] == b[i + 1..i + 2][0];
    }
  }

  lemma PairDecodes(b: Bytes, i: nat, rates: Rates, l: Metered<Decoded>, r: Metered<Decoded>)
    requires i < |b| && b[i] == 0xff
    requires l == Canon(b, i + 1, rates) && l.value.Got?
    requires r == Canon(b, l.value.next, rates) && r.value.Got?
    ensures Canon(b, i, rates) ==
            Metered(rates.element + l.cost + r.cost, Got(Cons(l.value.e, r.value.e), r.value.next))
  {
    hide CanonicalAtom;
  }

  lemma PairSize(l: Element, r: Element)
    ensures Nodes(Cons(l, r)) == 1 + Nodes(l) + Nodes(r)
    ensures Payload(Cons(l, r)) == Payload(l) + Payload(r)
  {
  }

  /** The bill of a pair. */
  lemma PairBill(rates: Rates, l: Element, r: Element)
    ensures Bill(rates.element, Nodes(Cons(l, r))) ==
            rates.element + Bill(rates.element, Nodes(l)) + Bill(rates.element, Nodes(r))
    ensures Bill(rates.byte, Payload(Cons(l, r))) == Bill(rates.byte, Payload(l)) + Bill(rates.byte, Payload(r))
  {
    hide Bill, Nodes, Payload;
    PairSize(l, r);
    ByteBill(rates.element, Nodes(l), Nodes(r));
    BillSum(rates.byte, Payload(l), Payload(r));
  }

  /** Every encodable element decodes from its encoding, at the price of its nodes
      and its payload bytes. */
  lemma {:induction false} EncodingAccepted(e: Element, b: Bytes, i: nat, rates: Rates)
    requires Encodable(e) && At(b, i, Serialized(e))
    ensures Canon(b, i, rates) ==
            Metered(Bill(rates.element, Nodes(e)) + Bill(rates.byte, Payload(e)), Got(e, i + |Serialized(e)|))
    decreases e
  {
    hide CanonicalAtom, AtomBytes, Bill;
    match e {
      case Atom(a) =>
        AtomAccepted(a, b, i, rates);
        BillOne(rates.element);
      case Cons(l, r) =>
        hide Canon, At, Payload, Nodes;
        AtSplits(b, i, [0xff] + Serialized(l), Serialized(r));
        AtSplits(b, i, [0xff], Serialized(l));
        AtByte(b, i, 0xff);
        EncodingAccepted(l, b, i + 1, rates);
        EncodingAccepted(r, b, i + 1 + |Serialized(l)|, rates);
        PairDecodes(b, i, rates, Canon(b, i + 1, rates), Canon(b, i + 1 + |Serialized(l)|, rates));
        PairBill(rates, l, r);
    }
  }

  lemma AtByte(b: Bytes, i: nat, x: byte)
    requires At(b, i, [x])
    ensures i < |b| && b[i] == x
  {
    assert b[i] == b[i..i + 1][0];
  }

  lemma BillSum(rate: nat, m: nat, n: nat)
    ensures Bill(rate, m + n) == Bill(rate, m) + Bill(rate, n)
  {
  }

  lemma BillOne(rate: nat)
    ensures Bill(rate, 1) == rate
  {
  }

  /** e stands encoded at i, and ends at next. */
  predicate EncodedAt(b: Bytes, i: nat, d: Decoded) {
    d.Got? && Encodable(d.e) && At(b, i, Serialized(d.e)) && d.next == i + |Serialized(d.e)|
  }

  /** The bytes after a prefix of the right width complete an encoding. */
  lemma PrefixedIsEncoding(b: Bytes, i: nat, start: nat, n: nat, rates: Rates)
    requires start <= |b| && AtomAt(b, start, n, rates).value.Got?
    requires 0 < n <= ATOM_MAX && start == i + PrefixWidth(n)
    requires n == 1 ==> b[start] >= 0x80
    requires PrefixSays(b, i, n)
    ensures EncodedAt(b, i, AtomAt(b, start, n, rates).value)
  {
    hide Bill, SizePrefix, PrefixSays;
    var a := b[start..start + n];
    PrefixWritten(b, i, n);
    AtSplits(b, i, SizePrefix(n), a);
  }

  /** Whatever the canonical decoder accepts is an encoding of what it returns. */
  lemma AtomIsEncoding(b: Bytes, i: nat, rates: Rates)
    requires i < |b| && b[i] != 0xff && CanonicalAtom(b, i, rates).value.Got?
    ensures EncodedAt(b, i, CanonicalAtom(b, i, rates).value)
  {
    hide AtomAt, EncodedAt;
    if b[i] <= 0x80 {
      ByteIsEncoding(b, i);
    } else if b[i] < 0xc0 {
      PrefixedIsEncoding(b, i, i + 1, b[i] - 0x80, rates);
    } else if b[i] < 0xe0 {
      PrefixedIsEncoding(b, i, i + 2, (b[i] as int - 0xc0) * 0x100 + b[i + 1], rates);
    } else {
      PrefixedIsEncoding(b, i, i + 3, (b[i] as int - 0xe0) * 0x10000 + b[i + 1] as int * 0x100 + b[i + 2], rates);
    }
  }

  /** Nil and the single bytes below 0x80. */
  lemma ByteIsEncoding(b: Bytes, i: nat)
    requires i < |b| && b[i] <= 0x80
    ensures EncodedAt(b, i, Got(if b[i] == 0x80 then Nil else Atom([b[i]]), i + 1))
  {
    assert b[i..i + 1] == [b[i]];
  }

  predicate PrefixSays(b: Bytes, i: nat, n: nat)
    requires i + PrefixWidth(n) <= |b|
  {
    if n <= 0x3f then b[i] == 0x80 + n
    else if n <= 0x1fff then 0xc0 <= b[i] < 0xe0 && (b[i] as int - 0xc0) * 0x100 + b[i + 1] == n
    else 0xe0 <= b[i] < 0xf0 && (b[i] as int - 0xe0) * 0x10000 + b[i + 1] as int * 0x100 + b[i + 2] == n
  }

  function PrefixWidth(n: nat): nat {
    if n <= 0x3f then 1 else if n <= 0x1fff then 2 else 3
  }

  /** A prefix read in the right width is the prefix that would be written. */
  lemma PrefixWritten(b: Bytes, i: nat, n: nat)
    requires n <= ATOM_MAX && i + PrefixWidth(n) <= |b| && PrefixSays(b, i, n)
    ensures At(b, i, SizePrefix(n)) && |SizePrefix(n)| == PrefixWidth(n)
  {
    if n <= 0x3f {
      assert b[i..i + 1] == [b[i]];
    } else if n <= 0x1fff {
      TwoDigits(b[i] - 0xc0, b[i + 1], n);
      assert b[i..i + 2] == [b[i], b[i + 1]];
    } else {
      TwoDigits((b[i] as int - 0xe0) * 0x100 + b[i + 1], b[i + 2], n);
      TwoDigits(b[i] as int - 0xe0, b[i + 1], n / 0x100);
      assert b[i..i + 3] == [b[i], b[i + 1], b[i + 2]];
    }
  }

  lemma TwoDigits(x: int, y: byte, n: int)
    requires n == x * 0x100 + y
    ensures n / 0x100 == x && n % 0x100 == y
  {
  }

  lemma {:induction false} AcceptedIsEncoding(b: Bytes, i: nat, rates: Rates)
    requires i <= |b| && Canon(b, i, rates).value.Got?
    ensures EncodedAt(b, i, Canon(b, i, rates).value)
    decreases |b| - i
  {
    hide CanonicalAtom, AtomBytes;
    if b[i] != 0xff {
      AtomIsEncoding(b, i, rates);
    } else {
      AcceptedIsEncoding(b, i + 1, rates);
      var l := Canon(b, i + 1, rates).value;
      AcceptedIsEncoding(b, l.next, rates);
      var r := Canon(b, l.next, rates).value;
      assert b[i..i + 1] == [0xff];
      AtSplits(b, i, [0xff], Serialized(l.e));
      AtSplits(b, i, [0xff] + Serialized(l.e), Serialized(r.e));
    }
  }

  /** The codec is a bijection between encodable elements and accepted inputs:
      an input decodes to e exactly if it is e's encoding. */
  lemma CodecBijection(b: Bytes, e: Element)
    ensures CanonicalElement(b).value == Value(e) <==> Encodable(e) && b == Serialized(e)
  {
    hide Canon, Serialized;
    if Encodable(e) && b == Serialized(e) {
      assert b[0..|b|] == b;
      EncodingAccepted(e, b, 0, RD_RATES);
    }
    if CanonicalElement(b).value == Value(e) {
      AcceptedIsEncoding(b, 0, RD_RATES);
      assert b[0..|b|] == b;
    }
  }

  /** No element has two accepted encodings, no input two readings. */
  lemma UniqueEncoding(a: Bytes, b: Bytes)
    requires CanonicalElement(a).value.Value? && CanonicalElement(a).value == CanonicalElement(b).value
    ensures a == b
  {
    hide CanonicalElement, Serialized;
    CodecBijection(a, CanonicalElement(a).value.value);
    CodecBijection(b, CanonicalElement(a).value.value);
  }

  // ----- against the codec of rd and wr -----

  lemma AtomDecodesAlike(b: Bytes, i: nat, rates: Rates)
    requires i < |b| && b[i] != 0xff && CanonicalAtom(b, i, rates).value.Got?
    ensures Decode(b, i, rates) == CanonicalAtom(b, i, rates)
  {
    hide AtomAt;
  }

  lemma {:induction false} DecodesAlike(b: Bytes, i: nat, rates: Rates)
    requires i <= |b| && Canon(b, i, rates).value.Got?
    ensures Decode(b, i, rates) == Canon(b, i, rates)
    decreases |b| - i
  {
    hide CanonicalAtom, AtomAt;
    if b[i] != 0xff {
      AtomDecodesAlike(b, i, rates);
    } else {
      DecodesAlike(b, i + 1, rates);
      DecodesAlike(b, Canon(b, i + 1, rates).value.next, rates);
    }
  }

  /** On canonical inputs rd and the witness decoder agree on the element and on
      every unit charged, so they latch for the same budgets. */
  lemma EqualCharges(b: Bytes)
    requires CanonicalElement(b).value.Value?
    ensures DoRd(Atom(b)) == CanonicalElement(b)
  {
    hide Canon, Decode;
    DecodesAlike(b, 0, RD_RATES);
  }

  /** rd undoes wr. */
  lemma ReadUndoesWrite(e: Element)
    requires Encodable(e)
    ensures DoRd(Atom(Serialized(e))).value == Value(e)
  {
    hide CanonicalElement, DoRd;
    CodecBijection(Serialized(e), e);
    EqualCharges(Serialized(e));
  }

  predicate Overflows(cap: Option<nat>, size: nat) {
    cap.Some? && size > cap.value
  }

  /** wr's encoder: an encodable element is refused exactly when its output would
      exceed the cap, and otherwise costs its nodes and its output bytes. */
  lemma {:induction false} EncodeOutput(e: Element, emitted: nat, cap: Option<nat>, rates: Rates)
    requires Encodable(e)
    ensures var r := Encode(e, emitted, cap, rates); var size := |Serialized(e)|;
      if Overflows(cap, emitted + size) then r.value == Refused(SizeLimit)
      else r == Metered(Bill(rates.element, Nodes(e)) + Bill(rates.byte, size), Encoded.Bytes(Serialized(e)))
    decreases e
  {
    hide Bill, AtomBytes, Nodes;
    match e {
      case Atom(a) => AtomBill(rates.element, a);
      case Cons(l, r) =>
        EncodeOutput(l, emitted + 1, cap, rates);
        EncodeOutput(r, emitted + 1 + |Serialized(l)|, cap, rates);
        PairBill(rates, l, r);
        ByteBill(rates.byte, |Serialized(l)|, |Serialized(r)|);
    }
  }

  lemma AtomBill(rate: nat, a: Bytes)
    ensures Bill(rate, Nodes(Atom(a))) == rate
  {
  }

  lemma ByteBill(rate: nat, m: nat, n: nat)
    ensures Bill(rate, 1 + m + n) == rate + Bill(rate, m) + Bill(rate, n)
  {
    hide Bill;
    BillOne(rate);
    BillSum(rate, 1, m);
    BillSum(rate, 1 + m, n);
  }

  lemma {:induction false} EncodeRefuses(e: Element, emitted: nat, cap: Option<nat>, rates: Rates)
    requires !Encodable(e)
    ensures Encode(e, emitted, cap, rates).value.Refused?
    decreases e
  {
    if e.Cons? {
      if Encodable(e.left) {
        EncodeOutput(e.left, emitted + 1, cap, rates);
        EncodeRefuses(e.right, emitted + 1 + |Serialized(e.left)|, cap, rates);
      } else {
        EncodeRefuses(e.left, emitted + 1, cap, rates);
      }
    }
  }

  /** wr: what it delivers, for which elements, and at what price. */
  lemma WriteOutput(e: Element)
    ensures DoWr(e).value.Value? <==> Encodable(e)
    ensures Encodable(e) ==>
              DoWr(e) ==
              Metered(WR_BASE + WR_PER_ELEMENT * Nodes(e) + (WR_PER_BYTE + MALLOC_PER_BYTE) * |Serialized(e)|,
                                 Value(Atom(Serialized(e))))
  {
    hide Encode, Serialized, Nodes;
    if Encodable(e) {
      EncodeOutput(e, 0, None, WR_RATES);
    } else {
      EncodeRefuses(e, 0, None, WR_RATES);
    }
  }

  // ----- the loop of deserialize_canonical -----

  /** What the frames waiting around an element make of it: None is a pair whose
      left side is being read, Some a left side waiting for its right. */
  ghost function Resume(b: Bytes, frames: seq<Option<Element>>, d: Metered<Decoded>,
                        rates: Rates): (r: Metered<Decoded>)
    requires d.value.Got? ==> d.value.next <= |b|
    ensures r.value.Got? ==> r.value.next <= |b|
    decreases |frames|
  {
    if !d.value.Got? || frames == [] then d
    else
      var outer, top := frames[..|frames| - 1], frames[|frames| - 1];
      match top
      case Some(left) => Resume(b, outer, Metered(d.cost, Got(Cons(left, d.value.e), d.value.next)), rates)
      case None =>
        var r := Canon(b, d.value.next, rates);
        if !r.value.Got? then Metered(d.cost + r.cost, r.value)
        else Resume(b, outer, Metered(d.cost + r.cost, Got(Cons(d.value.e, r.value.e), r.value.next)), rates)
  }

  /** A charge made earlier stays a charge. */
  lemma {:induction false} ResumeShift(b: Bytes, frames: seq<Option<Element>>, d: Metered<Decoded>, extra: nat,
                                       rates: Rates)
    requires d.value.Got? ==> d.value.next <= |b|
    ensures var r := Resume(b, frames, d, rates);
      Resume(b, frames, Metered(extra + d.cost, d.value), rates) == Metered(extra + r.cost, r.value)
    decreases |frames|
  {
    hide Canon;
    if d.value.Got? && frames != [] {
      var outer, top := frames[..|frames| - 1], frames[|frames| - 1];
      match top {
        case Some(left) =>
          ResumeShift(b, outer, Metered(d.cost, Got(Cons(left, d.value.e), d.value.next)), extra, rates);
        case None =>
          var r := Canon(b, d.value.next, rates);
          if r.value.Got? {
            var joined := Got(Cons(d.value.e, r.value.e), r.value.next);
            ResumeShift(b, outer, Metered(d.cost + r.cost, joined), extra, rates);
          }
      }
    }
  }

  /** What is left of the decoding when the byte at pos is next. */
  ghost function Rest(b: Bytes, frames: seq<Option<Element>>, pos: nat, rates: Rates): Metered<Decoded>
    requires pos <= |b|
  {
    Resume(b, frames, Canon(b, pos, rates), rates)
  }

  /** Reading a pair marker opens a frame. */
  lemma MarkerOpens(b: Bytes, frames: seq<Option<Element>>, pos: nat, rates: Rates)
    requires pos < |b| && b[pos] == 0xff
    ensures var r := Rest(b, frames + [None], pos + 1, rates);
      Rest(b, frames, pos, rates) == Metered(rates.element + r.cost, r.value)
  {
    hide CanonicalAtom;
    assert (frames + [None])[..|frames|] == frames;
    var l := Canon(b, pos + 1, rates);
    if l.value.Got? {
      var r := Canon(b, l.value.next, rates);
      if r.value.Got? {
        var joined := Got(Cons(l.value.e, r.value.e), r.value.next);
        ResumeShift(b, frames, Metered(l.cost + r.cost, joined), rates.element, rates);
      }
    }
  }

  /** An element delivered to the innermost frame. */
  lemma Delivered(b: Bytes, outer: seq<Option<Element>>, e: Element, pos: nat, rates: Rates)
    requires pos <= |b|
    ensures Resume(b, outer + [None], Metered(0, Got(e, pos)), rates) == Rest(b, outer + [Some(e)], pos, rates)
    ensures forall left :: Resume(b, outer + [Some(left)], Metered(0, Got(e, pos)), rates)
                           == Resume(b, outer, Metered(0, Got(Cons(left, e), pos)), rates)
  {
    hide Canon;
    assert (outer + [None])[..|outer|] == outer;
    assert forall x: Element :: (outer + [Some(x)])[..|outer|] == outer;
  }

  /** The branches of deserialize_canonical that read one atom, each charged after
      its checks. None when the charge failed. */
  method ReadAtom(data: Bytes, pos: nat, budget: Budget) returns (r: Option<Decoded>)
    requires pos < |data| && data[pos] != 0xff
    requires budget.Valid() && !budget.Latched()
    modifies budget
    ensures budget.Valid() && budget.View() == Costs.Charge(old(budget.View()), CanonicalAtom(data, pos, RD_RATES).cost)
    ensures r == if budget.Latched() then None else Some(CanonicalAtom(data, pos, RD_RATES).value)
  {
    hide Costs.Charge;
    ChargeNothing(budget.View());
    var b, start, n: int, narrower := data[pos], pos + 1, 0, 0;
    if b <= 0x80 {
      var ok := budget.Charge(RD_RATES.element);
      if !ok {
        return None;
      }
      return Some(Got(if b == 0x80 then Nil else Atom([b]), start));
    } else if b < 0xc0 {
      n := b - 0x80;
      if start + n > |data| {
        return Some(Bad(CodecTruncated));
      }
      if n == 1 && data[start] < 0x80 {
        return Some(Bad(CodecNotCanonical));
      }
    } else if b < 0xe0 {
      if start + 1 > |data| {
        return Some(Bad(CodecTruncated));
      }
      n, start, narrower := (b as int - 0xc0) * 0x100 + data[start], start + 1, 0x3f;
    } else if b < 0xf0 {
      if start + 2 > |data| {
        return Some(Bad(CodecTruncated));
      }
      n := (b as int - 0xe0) * 0x10000 + data[start] as int * 0x100 + data[start + 1];
      start, narrower := start + 2, 0x1fff;
    } else {
      return Some(Bad(CodecTooLarge));
    }
    if n <= narrower {
      return Some(Bad(CodecNotCanonical));
    }
    if start + n > |data| {
      return Some(Bad(CodecTruncated));
    }
    var ok := budget.Charge(RD_RATES.element + Bill(RD_RATES.byte, n));
    if !ok {
      return None;
    }
    return Some(Got(Atom(data[start..start + n]), start + n));
  }

  /** The completed element goes to the innermost frame, folding up every pair it
      completes; with no frame left it is the whole. */
  method FoldFrames(data: Bytes, pos: nat, frames: seq<Option<Element>>, el: Element)
    returns (waiting: seq<Option<Element>>, whole: Element)
    requires pos <= |data|
    ensures Resume(data, frames, Metered(0, Got(el, pos)), RD_RATES) ==
            if waiting == [] then Metered(0, Got(whole, pos)) else Rest(data, waiting, pos, RD_RATES)
  {
    hide Resume, Canon;
    waiting, whole := frames, el;
    while waiting != []
      invariant Resume(data, waiting, Metered(0, Got(whole, pos)), RD_RATES)
             == Resume(data, frames, Metered(0, Got(el, pos)), RD_RATES)
      decreases |waiting|
    {
      var top := waiting[|waiting| - 1];
      assert waiting == waiting[..|waiting| - 1] + [top];
      Delivered(data, waiting[..|waiting| - 1], whole, pos, RD_RATES);
      waiting := waiting[..|waiting| - 1];
      if top.None? {
        waiting := waiting + [Some(whole)];
        return;
      }
      whole := Cons(top.value, whole);
    }
    NoFrames(data, Metered(0, Got(whole, pos)), RD_RATES);
  }

  /** deserialize_canonical: pending pairs on an explicit list of frames. None when
      a charge failed. */
  method DeserializeCanonical(data: Bytes, budget: Budget) returns (r: Option<Result>)
    requires budget.Valid() && !budget.Latched()
    modifies budget
    ensures budget.Valid() && Alike(budget.View(), Costs.Charge(old(budget.View()), CanonicalElement(data).cost))
    ensures r == if budget.Latched() then None else Some(CanonicalElement(data).value)
  {
    hide Costs.Charge, Canon, CanonicalAtom, Resume;
    ghost var start, whole, spent: nat := budget.View(), CanonicalElement(data).cost, RD_BASE;
    ChargeMore(start, RD_BASE, whole - RD_BASE);
    var ok := budget.Charge(RD_BASE);
    if !ok {
      return None;
    }
    var frames: seq<Option<Element>>, pos: nat := [], 0;
    NoFrames(data, Canon(data, 0, RD_RATES), RD_RATES);
    while true
      invariant pos <= |data| && budget.Valid() && !budget.Latched()
      invariant budget.View() == Costs.Charge(start, spent)
      invariant var rest := Rest(data, frames, pos, RD_RATES);
        RD_BASE + Canon(data, 0, RD_RATES).cost == spent + rest.cost && Canon(data, 0, RD_RATES).value == rest.value
      decreases |data| - pos
    {
      ghost var rest := Rest(data, frames, pos, RD_RATES);
      if pos == |data| {
        EndOfData(data, frames, RD_RATES);
        return Some(Failure(CodecTruncated));
      }
      if data[pos] == 0xff {
        MarkerOpens(data, frames, pos, RD_RATES);
        ChargeMore(start, spent, RD_RATES.element);
        ChargeMore(start, spent + RD_RATES.element, rest.cost - RD_RATES.element);
        ok := budget.Charge(RD_RATES.element);
        if !ok {
          return None;
        }
        spent := spent + RD_RATES.element;
        frames := frames + [None];
        pos := pos + 1;
        continue;
      }
      ghost var atom := CanonicalAtom(data, pos, RD_RATES);
      AtomDelivered(data, frames, pos, RD_RATES);
      ChargeMore(start, spent, atom.cost);
      ChargeMore(start, spent + atom.cost, rest.cost - atom.cost);
      var d := ReadAtom(data, pos, budget);
      if d.None? {
        return None;
      }
      spent := spent + atom.cost;
      if !d.value.Got? {
        return Some(Failure(d.value.error));
      }
      pos := d.value.next;
      var el;
      frames, el := FoldFrames(data, pos, frames, d.value.e);
      if frames == [] {
        return Some(if pos != |data| then Failure(CodecTrailing) else Value(el));
      }
    }
  }

  lemma NoFrames(b: Bytes, d: Metered<Decoded>, rates: Rates)
    requires d.value.Got? ==> d.value.next <= |b|
    ensures Resume(b, [], d, rates) == d
  {
  }

  lemma EndOfData(b: Bytes, frames: seq<Option<Element>>, rates: Rates)
    ensures Rest(b, frames, |b|, rates) == Metered(0, Bad(CodecTruncated))
  {
  }

  /** An atom is paid for and handed to the frames. */
  lemma AtomDelivered(b: Bytes, frames: seq<Option<Element>>, pos: nat, rates: Rates)
    requires pos < |b| && b[pos] != 0xff
    ensures var d := CanonicalAtom(b, pos, rates);
      Rest(b, frames, pos, rates) ==
      if !d.value.Got? then d
      else
        var r := Resume(b, frames, Metered(0, d.value), rates);
        Metered(d.cost + r.cost, r.value)
  {
    hide CanonicalAtom;
    var d := CanonicalAtom(b, pos, rates);
    ResumeShift(b, frames, Metered(0, d.value), d.cost, rates);
  }
}
