/** SerDeser as element.py runs it: a cursor over the input, a count of the bytes
    emitted, and a budget charged on the way, in two recursive walks. */
module SerDesers {
  import opened Integers
  import opened Costs
  import opened Budgets
  import opened Elements
  import opened Codec
  import opened Evaluator

  class SerDeser {
    const b: Bytes
    const rates: Rates
    const budget: Budget
    var i: nat
    var emitted: nat

    constructor (b: Bytes, rates: Rates, budget: Budget)
      ensures this.b == b && this.rates == rates && this.budget == budget && i == 0 && emitted == 0
    {
      this.b, this.rates, this.budget := b, rates, budget;
      i, emitted := 0, 0;
    }

    /** read_atom: availability is checked before the charge. */
    method ReadAtom(n: nat) returns (r: Option<Decoded>)
      requires i <= |b| && budget.Valid() && !budget.Latched()
      modifies this`i, budget
      ensures budget.Valid() && budget.View() == Costs.Charge(old(budget.View()), AtomAt(b, old(i), n, rates).cost)
      ensures r == if budget.Latched() then None else Some(AtomAt(b, old(i), n, rates).value)
      ensures r.Some? && !r.value.Bad? ==> i == r.value.next
    {
      hide Costs.Charge;
      ChargeNothing(budget.View());
      if i + n > |b| {
        return Some(Bad(CodecTruncated));
      }
      var ok := budget.Charge(rates.element + Bill(rates.byte, n));
      if !ok {
        return None;
      }
      r := Some(Got(Atom(b[i..i + n]), i + n));
      i := i + n;
    }

    /** A length prefix's further bytes, highest first. */
    method ReadLength(first: nat, more: nat) returns (n: Option<nat>)
      requires i <= |b| && more <= 2
      modifies this`i
      ensures n.None? <==> old(i) + more > |b|
      ensures n.Some? ==> i == old(i) + more &&
                          n.value == (if more == 0 then first
                                      else if more == 1 then first * 0x100 + b[old(i)]
                                      else first * 0x10000 + b[old(i)] as int * 0x100 + b[old(i) + 1])
      ensures n.None? ==> i <= |b|
    {
      if i + more > |b| {
        return None;
      }
      var x: nat := first;
      for k := 0 to more
        invariant i == old(i) + k
        invariant x == if k == 0 then first
                       else if k == 1 then first * 0x100 + b[old(i)]
                       else first * 0x10000 + b[old(i)] as int * 0x100 + b[old(i) + 1]
      {
        x := x * 0x100 + b[i];
        i := i + 1;
      }
      return Some(x);
    }

    /** _Deserialize at the cursor. None when a charge failed. */
    method Deserialize() returns (r: Option<Decoded>)
      requires i <= |b| && budget.Valid() && !budget.Latched()
      modifies this`i, budget
      ensures budget.Valid() && Alike(budget.View(), Costs.Charge(old(budget.View()), Decode(b, old(i), rates).cost))
      ensures r == if budget.Latched() then None else Some(Decode(b, old(i), rates).value)
      ensures r.Some? && !r.value.Bad? ==> i == r.value.next
      decreases |b| - i, 0
    {
      hide Costs.Charge, AtomAt, Bill;
      ChargeNothing(budget.View());
      if i == |b| {
        return Some(Bad(CodecTruncated));
      }
      var first := b[i];
      i := i + 1;
      if first <= 0x80 {
        var ok := budget.Charge(rates.element);
        return if ok then Some(Got(if first == 0x80 then Nil else Atom([first]), i)) else None;
      }
      if first == 0xff {
        r := DeserializePair();
        return;
      }
      if first >= 0xf0 {
        return Some(Stopped(CodecTooLarge, i));
      }
      var n;
      if first < 0xc0 {
        n := ReadLength(first - 0x80, 0);
      } else if first < 0xe0 {
        n := ReadLength(first - 0xc0, 1);
      } else {
        n := ReadLength(first - 0xe0, 2);
      }
      if n.None? {
        return Some(Bad(CodecTruncated));
      }
      r := ReadAtom(n.value);
    }

    /** A pair past its marker: charged before either child is decoded. */
    method DeserializePair() returns (r: Option<Decoded>)
      requires 0 < i <= |b| && b[i - 1] == 0xff && budget.Valid() && !budget.Latched()
      modifies this`i, budget
      ensures budget.Valid() && Alike(budget.View(),
              Costs.Charge(old(budget.View()), Decode(b, old(i) - 1, rates).cost))
      ensures r == if budget.Latched() then None else Some(Decode(b, old(i) - 1, rates).value)
      ensures r.Some? && !r.value.Bad? ==> i == r.value.next
      decreases |b| - i, 1
    {
      hide Costs.Charge, Alike;
      ghost var m, whole, dl := budget.View(), Decode(b, i - 1, rates), Decode(b, i, rates);
      var ok := budget.Charge(rates.element);
      ChargeNothing(m);
      AlikeItself(budget.View());
      Paying(m, 0, rates.element, whole.cost - rates.element, m, budget.View());
      if !ok {
        return None;
      }
      var left := Deserialize();
      Paying(m, rates.element, dl.cost, whole.cost - rates.element - dl.cost, Costs.Charge(m, rates.element),
          budget.View());
      if left.None? || !left.value.Got? {
        return left;
      }
      ghost var m2 := budget.View();
      var right := Deserialize();
      Paying(m, rates.element + dl.cost, whole.cost - rates.element - dl.cost, 0, m2, budget.View());
      if right.None? || !right.value.Got? {
        return right;
      }
      return Some(Got(Cons(left.value.e, right.value.e), i));
    }

    /** DeserializeCharged: trailing bytes are an error charged for its message. */
    method DeserializeTop() returns (r: Option<Result>)
      requires i == 0 && budget.Valid() && !budget.Latched()
      modifies this`i, budget
      ensures budget.Valid() && Alike(budget.View(), Costs.Charge(old(budget.View()), Codec.Deserialize(b, rates).cost))
      ensures r == if budget.Latched() then None else Some(Codec.Deserialize(b, rates).value)
    {
      hide Costs.Charge, Decode, Bill;
      ghost var m, d := budget.View(), Decode(b, 0, rates);
      ChargeMore(m, d.cost, Codec.Deserialize(b, rates).cost - d.cost);
      var el := Deserialize();
      if el.None? {
        return None;
      }
      if el.value.Bad? {
        return Some(Failure(el.value.error));
      }
      if i != |b| {
        var ok := budget.Charge(Bill(2 * rates.byte, |b| - i));
        return if ok then Some(Failure(CodecTrailing)) else None;
      }
      return Some(if el.value.Got? then Value(el.value.e) else Failure(el.value.error));
    }

    /** _Serialize: charges and the size cap follow the output order. None when a
        charge failed. */
    method Serialize(e: Element, cap: Option<nat>) returns (r: Option<Encoded>)
      requires budget.Valid() && !budget.Latched()
      modifies this`emitted, budget
      ensures budget.Valid() && Alike(budget.View(),
              Costs.Charge(old(budget.View()), Encode(e, old(emitted), cap, rates).cost))
      ensures r == if budget.Latched() then None else Some(Encode(e, old(emitted), cap, rates).value)
      ensures r.Some? && r.value.Bytes? ==> emitted == old(emitted) + |r.value.bytes|
      decreases e, 1
    {
      hide Costs.Charge, EncodePair, EncodeAtom;
      ChargeNothing(budget.View());
      match e
      case Func(_) => r := Some(Refused(NotAValue));
      case Atom(a) => r := SerializeAtom(a, cap);
      case Cons(left, right) => r := SerializePair(left, right, cap);
    }

    method SerializeAtom(a: Bytes, cap: Option<nat>) returns (r: Option<Encoded>)
      requires budget.Valid() && !budget.Latched()
      modifies this`emitted, budget
      ensures budget.Valid() && budget.View() ==
              Costs.Charge(old(budget.View()), EncodeAtom(a, old(emitted), cap, rates).cost)
      ensures r == if budget.Latched() then None else Some(EncodeAtom(a, old(emitted), cap, rates).value)
      ensures r.Some? && r.value.Bytes? ==> emitted == old(emitted) + |r.value.bytes|
    {
      hide Costs.Charge, Bill, AtomBytes;
      ChargeNothing(budget.View());
      if |a| > ATOM_MAX {
        return Some(Refused(CodecTooLarge));
      }
      var out := AtomBytes(a);
      var ok := budget.Charge(rates.element + Bill(rates.byte, |out|));
      if !ok {
        return None;
      }
      emitted := emitted + |out|;
      if cap.Some? && emitted > cap.value {
        return Some(Refused(SizeLimit));
      }
      return Some(Encoded.Bytes(out));
    }

    /** A pair: its marker is charged and counted before the children are walked. */
    method SerializePair(left: Element, right: Element, cap: Option<nat>) returns (r: Option<Encoded>)
      requires budget.Valid() && !budget.Latched()
      modifies this`emitted, budget
      ensures budget.Valid()
      ensures Alike(budget.View(),
              Costs.Charge(old(budget.View()), EncodePair(left, right, old(emitted), cap, rates).cost))
      ensures r == if budget.Latched() then None else Some(EncodePair(left, right, old(emitted), cap, rates).value)
      ensures r.Some? && r.value.Bytes? ==> emitted == old(emitted) + |r.value.bytes|
      decreases Cons(left, right), 0
    {
      hide Costs.Charge, Bill, AtomBytes, Encode, Alike;
      var head := rates.element + rates.byte;
      ghost var m, at := budget.View(), emitted;
      ghost var whole, dl := EncodePair(left, right, at, cap, rates), Encode(left, at + 1, cap, rates);
      var ok := budget.Charge(head);
      ChargeNothing(m);
      AlikeItself(budget.View());
      Paying(m, 0, head, whole.cost - head, m, budget.View());
      if !ok {
        return None;
      }
      emitted := emitted + 1;
      if cap.Some? && emitted > cap.value {
        return Some(Refused(SizeLimit));
      }
      var l := Serialize(left, cap);
      Paying(m, head, dl.cost, whole.cost - head - dl.cost, Costs.Charge(m, head), budget.View());
      if l.None? || l.value.Refused? {
        return l;
      }
      ghost var m2 := budget.View();
      var r2 := Serialize(right, cap);
      Paying(m, head + dl.cost, whole.cost - head - dl.cost, 0, m2, budget.View());
      if r2.None? || r2.value.Refused? {
        return r2;
      }
      return Some(Encoded.Bytes([0xff] + l.value.bytes + r2.value.bytes));
    }
  }

  lemma AlikeItself(m: Meter)
    ensures Alike(m, m)
  {
  }

  /** A stage of a row of charges: `done` units are charged, `now` is the budget
      after charging `next` more; `rest` is still to come. */
  lemma Paying(m: Meter, done: nat, next: nat, rest: nat, before: Meter, now: Meter)
    requires before == Charge(m, done) && Alike(now, Charge(before, next))
    ensures now.Latched() || rest == 0 ==> Alike(now, Charge(m, done + next + rest))
    ensures !now.Latched() ==> now == Charge(m, done + next)
  {
    hide Costs.Charge;
    ChargeMore(m, done, next);
    ChargeMore(m, done + next, rest);
  }
}
