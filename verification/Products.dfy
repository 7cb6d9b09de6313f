/** Widths and charges of multiplication (opcodes.py, op_mul and op_unknown). */
module Products {
  import opened Integers
  import opened Costs
  import opened Elements
  import opened OpTable
  import opened Opcodes

  lemma {:induction false} Pow256Sum(a: nat, b: nat)
    ensures Pow256(a + b) == Pow256(a) * Pow256(b)
  {
    if a > 0 {
      Pow256Sum(a - 1, b);
      Scale(Pow256(a - 1), Pow256(b));
    }
  }

  lemma ProductBelow(x: nat, y: nat, p: nat, q: nat)
    requires x <= p && y <= q
    ensures x * y <= p * q
  {
    MulMonotonic(x, y, q);
    MulMonotonic(q, x, p);
  }

  function Magnitude(i: int): nat {
    if i < 0 then -i else i
  }

  lemma MagnitudeProduct(x: int, y: int)
    ensures Magnitude(x * y) == Magnitude(x) * Magnitude(y)
  {
    if x >= 0 {
      if y < 0 { assert x * y == -(x * -y); MulMonotonic(x, 0, -y); } else { MulMonotonic(x, 0, y); }
    } else {
      if y < 0 {
        assert x * y == -x * -y;
        MulMonotonic(-x, 0, -y);
      } else {
        assert x * y == -(-x * y);
        MulMonotonic(-x, 0, y);
      }
    }
  }

  lemma Spread(p: nat, q: nat)
    ensures (128 * p) * (128 * q) == 16384 * (p * q)
  {
  }

  /** The encoding of a product is no wider than its factors together. */
  lemma ProductWidth(a: Bytes, b: Bytes)
    ensures |IntToBytes(BytesToInt(a) * BytesToInt(b))| <= |a| + |b|
  {
    hide BytesToInt, IntToBytes;
    var x, y := BytesToInt(a), BytesToInt(b);
    if a == [] || b == [] {
      EmptyIsZero();
    } else if x * y == 0 {
      EmptyIsZero();
    } else {
      var e, p, q := IntToBytes(x * y), Pow256(|a| - 1), Pow256(|b| - 1);
      MagnitudeBound(a);
      MagnitudeBound(b);
      MagnitudeProduct(x, y);
      ProductBelow(Magnitude(x), Magnitude(y), 128 * p, 128 * q);
      Spread(p, q);
      Pow256Sum(|a| - 1, |b| - 1);
      WrittenWidth(x * y);
      if |e| > |a| + |b| {
        Pow256Monotonic(|a| + |b| - 1, |e| - 2);
      }
    }
  }

  /** What op_mul charges as base and fold work over atoms, without the memory of
      its intermediate products. */
  function MulSpends(o: Oracle, b: Bound, args: seq<Bytes>): nat
    requires b.Product?
    decreases |args|
  {
    if args == [] then 0
    else
      var fed := Feed(o, b, Atom(args[0]));
      fed.cost - MALLOC_PER_BYTE * |fed.value.bound.total| + MulSpends(o, fed.value.bound, args[1..])
  }

  /** The state of an unknown operator fed atoms. */
  function Tallied(o: Oracle, b: Bound, args: seq<Bytes>): (r: Bound)
    requires b.Tally?
    ensures r.Tally? && r.selector == b.selector && r.multiplier == b.multiplier
    decreases |args|
  {
    if args == [] then b else Tallied(o, Feed(o, b, Atom(args[0])).value.bound, args[1..])
  }

  lemma QuotientMonotonic(x: nat, y: nat)
    requires x <= y
    ensures x / MUL_PRODUCT_DIV <= y / MUL_PRODUCT_DIV
  {
  }

  /** The tally keeps a width at least that of the running product, and so works
      at least as hard. */
  lemma {:induction false} TallyCovers(o: Oracle, b: Bound, product: Bound, args: seq<Bytes>)
    requires b.Tally? && b.selector == 2 && b.count > 0
    requires product.Product? && |product.total| <= b.bytes
    ensures Tallied(o, b, args).work >= b.work + MulSpends(o, product, args)
    decreases |args|
  {
    hide IntToBytes, BytesToInt;
    if args != [] {
      var arg := args[0];
      ProductWidth(product.total, arg);
      MulMonotonic(|arg|, |product.total|, b.bytes);
      QuotientMonotonic(|product.total| * |arg|, b.bytes * |arg|);
      TallyCovers(o, Feed(o, b, Atom(arg)).value.bound, Feed(o, product, Atom(arg)).value.bound, args[1..]);
    }
  }

  lemma FinishCovers(o: Oracle, t: Bound, k: nat)
    requires t.Tally? && t.selector == 2 && t.work >= k
    ensures Finish(o, t).cost >= (t.multiplier + 1) * k
  {
    MulMonotonic(t.multiplier + 1, k, Max(t.work, 1));
  }

  /** The product of a first atom is its value, no wider than the atom. */
  lemma FirstFactor(o: Oracle, a: Bytes)
    ensures Feed(o, Product([1]), Atom(a)).value == Next(Product(IntToBytes(BytesToInt(a))))
    ensures |IntToBytes(BytesToInt(a))| <= |a|
  {
    ShortestEncoding(a);
    hide IntToBytes;
    assert Unsigned([1]) == 1;
    assert [][..0] + [1] == [1];
    assert BytesToInt([1]) == 1;
  }

  /** The weight-class promise: an unknown operator of the mul shape charges at
      least what op_mul would charge as base and fold work for its folds after the
      first, times its multiplier plus one. */
  lemma UnknownCoversMul(o: Oracle, num: nat, args: seq<Bytes>)
    requires num / 64 % 4 == 2 && args != []
    ensures var first := Feed(o, Product([1]), Atom(args[0])).value.bound;
      Finish(o, Tallied(o, UnknownOp(num), args)).cost >= (num / 256 + 1) * MulSpends(o, first, args[1..])
  {
    hide MulFoldWork, IntToBytes, BytesToInt, MulSpends, Finish;
    FirstFactor(o, args[0]);
    var first := Feed(o, Product([1]), Atom(args[0])).value.bound;
    var b := Feed(o, UnknownOp(num), Atom(args[0])).value.bound;
    TallyCovers(o, b, first, args[1..]);
    FinishCovers(o, Tallied(o, b, args[1..]), MulSpends(o, first, args[1..]));
  }
}
