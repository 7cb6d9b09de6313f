/** The element codec of element.py (SerDeser): the recursive metered decoder
    and the recursive metered encoder behind the rd and wr opcodes. */
module Codec {
  import opened Integers
  import opened Elements

  const ATOM_MAX: nat := 0xFFFFF

  /** The charging rates of one codec call. */
  datatype Rates = Rates(element: nat, byte: nat)

  /** n bytes at a rate. */
  function Bill(rate: nat, n: nat): nat {
    rate * n
  }

  /** What reading an element comes to: the element and the cursor past it; an
      input cut short; or an error in place of an element, the cursor past the
      byte that gave it. */
  datatype Decoded = Got(e: Element, next: nat) | Bad(error: Error) | Stopped(error: Error, next: nat)

  function AtomAt(b: Bytes, i: nat, n: nat, rates: Rates): (r: Metered<Decoded>)
    requires i <= |b|
    ensures !r.value.Stopped?
    ensures r.value.Got? ==> r.value.next == i + n <= |b|
  {
    if i + n > |b| then Metered(0, Bad(CodecTruncated))
    else Metered(rates.element + Bill(rates.byte, n), Got(Atom(b[i..i + n]), i + n))
  }

  /** SerDeser._Deserialize at index i. */
  function Decode(b: Bytes, i: nat, rates: Rates): (r: Metered<Decoded>)
    requires i <= |b|
    ensures !r.value.Bad? ==> i < r.value.next <= |b|
    ensures r.value.Stopped? ==> r.value.error == CodecTooLarge
    decreases |b| - i
  {
    if i == |b| then Metered(0, Bad(CodecTruncated))
    else if b[i] == 0x80 then Metered(rates.element, Got(Nil, i + 1))
    else if b[i] < 0x80 then Metered(rates.element, Got(Atom([b[i]]), i + 1))
    else if b[i] < 0xc0 then AtomAt(b, i + 1, b[i] - 0x80, rates)
    else if b[i] < 0xe0 then
      if i + 2 > |b| then Metered(0, Bad(CodecTruncated))
      else AtomAt(b, i + 2, (b[i] as int - 0xc0) * 0x100 + b[i + 1], rates)
    else if b[i] < 0xf0 then
      if i + 3 > |b| then Metered(0, Bad(CodecTruncated))
      else AtomAt(b, i + 3, (b[i] as int - 0xe0) * 0x10000 + b[i + 1] as int * 0x100 + b[i + 2], rates)
    else if b[i] < 0xff then Metered(0, Stopped(CodecTooLarge, i + 1))
    else
      var l := Decode(b, i + 1, rates);
      if !l.value.Got? then Metered(rates.element + l.cost, l.value)
      else
        var r := Decode(b, l.value.next, rates);
        if !r.value.Got? then Metered(rates.element + l.cost + r.cost, r.value)
        else Metered(rates.element + l.cost + r.cost, Got(Cons(l.value.e, r.value.e), r.value.next))
  }

  /** SerDeser.DeserializeCharged: the whole input must be one element. Bytes past
      the cursor are an error of their own, also after an error element. */
  function Deserialize(b: Bytes, rates: Rates): Metered<Result> {
    var d := Decode(b, 0, rates);
    if d.value.Bad? then Metered(d.cost, Failure(d.value.error))
    else if d.value.next != |b| then
      Metered(d.cost + Bill(2 * rates.byte, |b| - d.value.next), Failure(CodecTrailing))
    else Metered(d.cost, if d.value.Got? then Value(d.value.e) else Failure(d.value.error))
  }

  function SizePrefix(n: nat): (p: Bytes)
    requires n <= ATOM_MAX
    ensures 1 <= |p| <= 3
  {
    if n <= 0x3f then [0x80 + n]
    else if n <= 0x1fff then [0xc0 + n / 0x100, n % 0x100]
    else [0xe0 + n / 0x10000, n / 0x100 % 0x100, n % 0x100]
  }

  function AtomBytes(a: Bytes): (r: Bytes)
    requires |a| <= ATOM_MAX
    ensures |r| >= 1
  {
    if a == [] then [0x80]
    else if |a| == 1 && a[0] < 0x80 then a
    else SizePrefix(|a|) + a
  }

  datatype Encoded = Bytes(bytes: Bytes) | Refused(error: Error)

  /** SerDeser._Serialize, the size cap checked against the bytes emitted so far
      in output order. */
  function Encode(e: Element, emitted: nat, cap: Option<nat>, rates: Rates): (r: Metered<Encoded>)
    decreases e, 1
  {
    match e
    case Cons(left, right) => EncodePair(left, right, emitted, cap, rates)
    case Atom(a) => EncodeAtom(a, emitted, cap, rates)
    case Func(_) => Metered(0, Refused(NotAValue))
  }

  function EncodeAtom(a: Bytes, emitted: nat, cap: Option<nat>, rates: Rates): Metered<Encoded> {
    if |a| > ATOM_MAX then Metered(0, Refused(CodecTooLarge))
    else
      var out := AtomBytes(a);
      var cost := rates.element + Bill(rates.byte, |out|);
      if cap.Some? && emitted + |out| > cap.value then Metered(cost, Refused(SizeLimit))
      else Metered(cost, Bytes(out))
  }

  function EncodePair(left: Element, right: Element, emitted: nat, cap: Option<nat>, rates: Rates): Metered<Encoded>
    decreases Cons(left, right), 0
  {
    var head := rates.element + rates.byte;
    if cap.Some? && emitted + 1 > cap.value then Metered(head, Refused(SizeLimit))
    else
      var l := Encode(left, emitted + 1, cap, rates);
      if l.value.Refused? then Metered(head + l.cost, l.value)
      else
        var r := Encode(right, emitted + 1 + |l.value.bytes|, cap, rates);
        if r.value.Refused? then Metered(head + l.cost + r.cost, r.value)
        else Metered(head + l.cost + r.cost, Bytes([0xff] + l.value.bytes + r.value.bytes))
  }
}
