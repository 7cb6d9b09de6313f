/** What the folds of opcodes.py come to over a whole argument list. */
module OpcodeMeaning {
  import opened Integers
  import opened Elements
  import opened OpTable
  import opened Opcodes
  import opened StandardRules
  import opened PartialApplication
  import opened Layout
  import S = Shifts
  import Costs

  /** The result of a table opcode over argument values. */
  function ResultOf(o: Oracle, num: int, vs: seq<Element>): Result
    requires TableOp(num).Some?
  {
    Applied(Standard(o, false), TableOp(num).value, vs)
  }

  predicate Atoms(vs: seq<Element>) {
    forall i | 0 <= i < |vs| :: vs[i].Atom?
  }

  function Fold(o: Oracle, b: Bound, vs: seq<Element>): Fed {
    FeedAll(Standard(o, false), b, vs)
  }

  lemma FoldNext(o: Oracle, b: Bound, vs: seq<Element>)
    requires vs != []
    ensures var fed := Feed(o, b, vs[0]).value;
            Fold(o, b, vs) == if fed.Fault? then fed else Fold(o, fed.bound, vs[1..])
  {
    hide Feed;
  }

  /** A finished fold. */
  lemma FoldResult(o: Oracle, b: Bound, vs: seq<Element>)
    ensures Applied(Standard(o, false), b, vs) ==
            match Fold(o, b, vs)
            case Next(b') => Opcodes.Finish(o, b').value
            case Fault(e) => Failure(e)
  {
    hide FeedAll, Opcodes.Finish;
  }

  // ----- arithmetic -----

  function Total(vs: seq<Element>): int
    requires Atoms(vs)
  {
    if vs == [] then 0 else BytesToInt(vs[0].bytes) + Total(vs[1..])
  }

  function ProductOf(vs: seq<Element>): int
    requires Atoms(vs)
  {
    if vs == [] then 1 else BytesToInt(vs[0].bytes) * ProductOf(vs[1..])
  }

  lemma {:induction false} SumFold(o: Oracle, i: int, vs: seq<Element>)
    ensures Fold(o, Sum(IntToBytes(i)), vs) ==
            if Atoms(vs) then Next(Sum(IntToBytes(i + Total(vs)))) else Fault(NeedsAtoms)
    decreases |vs|
  {
    hide IntToBytes, BytesToInt;
    if vs != [] {
      FoldNext(o, Sum(IntToBytes(i)), vs);
      IntRoundTrip(i);
      if vs[0].Atom? {
        SumFold(o, i + BytesToInt(vs[0].bytes), vs[1..]);
      }
    }
  }

  /** + is the sum. */
  lemma AddIsSum(o: Oracle, vs: seq<Element>)
    ensures ResultOf(o, 0x17, vs) == if Atoms(vs) then Value(Num(Total(vs))) else Failure(NeedsAtoms)
  {
    hide Applied, Fold, BytesToInt, IntToBytes, Total, TableOp;
    ArithmeticTable();
    EmptyIsZero();
    SumFold(o, 0, vs);
    FoldResult(o, Sum([]), vs);
  }

  lemma {:induction false} ProductFold(o: Oracle, i: int, vs: seq<Element>)
    ensures Fold(o, Product(IntToBytes(i)), vs)
         == if Atoms(vs) then Next(Product(IntToBytes(i * ProductOf(vs)))) else Fault(NeedsAtoms)
    decreases |vs|
  {
    hide IntToBytes, BytesToInt;
    if vs != [] {
      FoldNext(o, Product(IntToBytes(i)), vs);
      IntRoundTrip(i);
      if vs[0].Atom? {
        var x := BytesToInt(vs[0].bytes);
        ProductFold(o, i * x, vs[1..]);
        if Atoms(vs[1..]) {
          S.Regroup(i, x, ProductOf(vs[1..]));
        }
      }
    }
  }

  lemma OneIsOne()
    ensures IntToBytes(1) == [1]
  {
    assert Digits(0) == [] && Digits(1) == [1];
  }

  /** * is the product. */
  lemma MulIsProduct(o: Oracle, vs: seq<Element>)
    ensures ResultOf(o, 0x19, vs) == if Atoms(vs) then Value(Num(ProductOf(vs))) else Failure(NeedsAtoms)
  {
    hide Applied, Fold, BytesToInt, IntToBytes, ProductOf, TableOp;
    ArithmeticTable();
    OneIsOne();
    ProductFold(o, 1, vs);
    FoldResult(o, Product([1]), vs);
  }

  lemma {:induction false} RunningFold(o: Oracle, i: int, vs: seq<Element>)
    ensures Fold(o, Minus(Running(IntToBytes(i))), vs)
         == if Atoms(vs) then Next(Minus(Running(IntToBytes(i - Total(vs))))) else Fault(NeedsAtoms)
    decreases |vs|
  {
    hide IntToBytes, BytesToInt;
    if vs != [] {
      FoldNext(o, Minus(Running(IntToBytes(i))), vs);
      IntRoundTrip(i);
      if vs[0].Atom? {
        RunningFold(o, i - BytesToInt(vs[0].bytes), vs[1..]);
      }
    }
  }

  /** The fold from a stored minuend. */
  lemma MinuendFold(o: Oracle, m: Bytes, vs: seq<Element>)
    ensures Fold(o, Minus(Minuend(m)), vs) ==
            if !Atoms(vs) then Fault(NeedsAtoms)
            else if vs == [] then Next(Minus(Minuend(m)))
            else Next(Minus(Running(IntToBytes(BytesToInt(m) - Total(vs)))))
  {
    hide BytesToInt, IntToBytes;
    if vs != [] {
      FoldNext(o, Minus(Minuend(m)), vs);
      if vs[0].Atom? {
        RunningFold(o, BytesToInt(m) - BytesToInt(vs[0].bytes), vs[1..]);
      }
    }
  }

  /** - is the first less the others, or the negation of a single one. */
  lemma SubIsDifference(o: Oracle, vs: seq<Element>)
    ensures ResultOf(o, 0x18, vs) ==
            if !Atoms(vs) then Failure(NeedsAtoms)
            else if |vs| <= 1 then Value(Num(-Total(vs)))
            else Value(Num(BytesToInt(vs[0].bytes) - Total(vs[1..])))
  {
    hide BytesToInt, IntToBytes, Fold, Applied, TableOp, Opcodes.Finish, Total;
    ArithmeticTable();
    EmptyIsZero();
    FoldResult(o, Minus(NoMinuend), vs);
    if vs == [] {
      NothingFolded(o, Minus(NoMinuend));
      TotalOfFew(vs);
      Negation(o, NoMinuend);
    } else {
      FoldNext(o, Minus(NoMinuend), vs);
      if vs[0].Atom? {
        MinuendFold(o, vs[0].bytes, vs[1..]);
        assert Atoms(vs) <==> Atoms(vs[1..]) by {
          assert vs == [vs[0]] + vs[1..];
        }
        TotalOfFew(vs);
        Negation(o, Minuend(vs[0].bytes));
      }
    }
  }

  lemma TotalOfFew(vs: seq<Element>)
    requires |vs| <= 1 ==> Atoms(vs)
    ensures vs == [] ==> Total(vs) == 0
    ensures |vs| == 1 ==> Total(vs) == BytesToInt(vs[0].bytes)
  {
    hide BytesToInt;
  }

  /** A difference without a subtrahend finishes as a negation, a running one as it
      is. */
  lemma Negation(o: Oracle, d: Difference)
    ensures var r := Opcodes.Finish(o, Minus(d)).value;
      match d
      case NoMinuend => r == Value(Num(-BytesToInt([])))
      case Minuend(m) => r == Value(Num(-BytesToInt(m)))
      case Running(total) => r == Value(Atom(total))
    ensures forall total :: Opcodes.Finish(o, Minus(Running(total))).value == Value(Atom(total))
  {
    hide BytesToInt, IntToBytes;
  }

  lemma NothingFolded(o: Oracle, b: Bound)
    ensures Fold(o, b, []) == Next(b)
  {
  }

  lemma ArithmeticTable()
    ensures TableOp(0x10) == Some(Length([])) && TableOp(0x17) == Some(Sum([]))
    ensures TableOp(0x18) == Some(Minus(NoMinuend)) && TableOp(0x19) == Some(Product([1]))
  {
  }

  // ----- opcodes that collect their arguments -----

  lemma {:induction false} CollectFold(o: Oracle, op: FixedOp, args: seq<Element>, vs: seq<Element>)
    requires |args| <= MaxArgs(op)
    ensures Fold(o, Collect(op, args), vs)
         == if |args| + |vs| <= MaxArgs(op) then Next(Collect(op, args + vs)) else Fault(TooManyArguments)
    decreases |vs|
  {
    if vs == [] {
      assert args + vs == args;
    } else {
      FoldNext(o, Collect(op, args), vs);
      if |args| < MaxArgs(op) {
        CollectFold(o, op, args + [vs[0]], vs[1..]);
        assert args + [vs[0]] + vs[1..] == args + vs;
      }
    }
  }

  /** An opcode of fixed arity: too many arguments are noticed first, too few at
      finish. */
  lemma FixedResult(o: Oracle, op: FixedOp, vs: seq<Element>)
    ensures Applied(Standard(o, false), Collect(op, []), vs) ==
            if |vs| > MaxArgs(op) then Failure(TooManyArguments)
            else if |vs| < MinArgs(op) then Failure(TooFewArguments)
            else Operate(op, vs).value
  {
    hide Operate, Fold, Applied;
    CollectFold(o, op, [], vs);
    FoldResult(o, Collect(op, []), vs);
    assert [] + vs == vs;
  }

  /** h and t over any argument list: the parts of one pair. */
  lemma PartsMeaning(o: Oracle, vs: seq<Element>)
    ensures ResultOf(o, 0x07, vs) ==
            if |vs| > 1 then Failure(TooManyArguments)
            else if vs == [] then Failure(TooFewArguments)
            else match vs[0] case Cons(l, _) => Value(l) case _ => Failure(NotAList)
    ensures ResultOf(o, 0x08, vs) ==
            if |vs| > 1 then Failure(TooManyArguments)
            else if vs == [] then Failure(TooFewArguments)
            else match vs[0] case Cons(_, r) => Value(r) case _ => Failure(NotAList)
  {
    hide Applied;
    FixedResult(o, OpH, vs);
    FixedResult(o, OpT, vs);
  }

  /** l over any argument list: 1 exactly of a pair, nil exactly of an atom. */
  lemma ListMeaning(o: Oracle, vs: seq<Element>)
    ensures ResultOf(o, 0x09, vs) ==
            if |vs| > 1 then Failure(TooManyArguments)
            else if vs == [] then Failure(TooFewArguments)
            else match vs[0] case Cons(_, _) => Value(One) case Atom(_) => Value(Nil) case Func(_) => Failure(NotAValue)
  {
    hide Applied;
    FixedResult(o, OpL, vs);
  }

  /** x fails, whatever its arguments; more than ten are refused. */
  lemma RaiseMeaning(o: Oracle, vs: seq<Element>)
    ensures ResultOf(o, 0x04, vs) == Failure(if |vs| > 10 then TooManyArguments else RaisedByProgram)
  {
    hide Applied;
    FixedResult(o, OpX, vs);
  }

  /** i over any argument list: the second argument, or the third if the first is nil;
      they default to 1 and nil. */
  lemma SelectMeaning(o: Oracle, vs: seq<Element>)
    ensures ResultOf(o, 0x05, vs) ==
            if |vs| > 3 then Failure(TooManyArguments)
            else if vs == [] then Failure(TooFewArguments)
            else if vs[0].Func? then Failure(NotAValue)
            else Value((vs + [One, Nil][|vs| - 1..])[if vs[0] == Nil then 2 else 1])
  {
    hide Applied;
    FixedResult(o, OpI, vs);
  }

  /** A remainder with the divisor's sign, as in Python. */
  ghost predicate IsRemainder(n: int, d: int, r: int) {
    && (if d > 0 then 0 <= r < d else d < r <= 0)
    && exists q :: n == q * d + r
  }

  lemma FloorModIsRemainder(n: int, d: int)
    requires d != 0
    ensures IsRemainder(n, d, FloorMod(n, d))
  {
    if d > 0 {
      assert n == (n / d) * d + FloorMod(n, d);
    } else {
      var e := -d;
      assert n == (n / e) * e + n % e;
      if n % e == 0 {
        assert n == (-(n / e)) * d + FloorMod(n, d);
      } else {
        assert n == (-(n / e) - 1) * d + FloorMod(n, d);
      }
    }
  }

  /** % over any argument list: the errors in the order they are noticed, else the
      remainder of the two numbers. */
  lemma ModIsRemainder(o: Oracle, vs: seq<Element>)
    ensures ResultOf(o, 0x1a, vs) ==
            if |vs| > 2 then Failure(TooManyArguments)
            else if |vs| < 2 then Failure(TooFewArguments)
            else if !Atoms(vs) then Failure(NeedsAtoms)
            else
              var n, d := BytesToInt(vs[0].bytes), BytesToInt(vs[1].bytes);
              if d == 0 then Failure(DivisionByZero) else Value(Num(FloorMod(n, d)))
    ensures forall n, d | d != 0 :: IsRemainder(n, d, FloorMod(n, d))
  {
    hide Applied, BytesToInt, IntToBytes, FloorMod, IsRemainder;
    FixedResult(o, OpMod, vs);
    forall n, d | d != 0
      ensures IsRemainder(n, d, FloorMod(n, d))
    {
      FloorModIsRemainder(n, d);
    }
  }

  /** shift over any argument list: the first argument times or over a power of two,
      read unsigned, in a stated number of bytes. */
  lemma ShiftMeaning(o: Oracle, vs: seq<Element>)
    ensures ResultOf(o, 0x1b, vs) ==
            if |vs| > 2 then Failure(TooManyArguments)
            else if |vs| < 2 then Failure(TooFewArguments)
            else if !Atoms(vs) then Failure(NeedsAtoms)
            else Value(Atom(ShiftBy(vs[0].bytes, BytesToInt(vs[1].bytes))))
    ensures forall b: Bytes, n: int :: ShiftedBy(b, n, ShiftBy(b, n))
  {
    hide Applied, BytesToInt, ShiftBy, ShiftedBy;
    FixedResult(o, OpShift, vs);
    forall b: Bytes, n: int
      ensures ShiftedBy(b, n, ShiftBy(b, n))
    {
      ShiftIsShifted(b, n);
    }
    if |vs| == 2 && Atoms(vs) {
      ZeroShift(vs[0].bytes);
    }
  }

  lemma ZeroShift(b: Bytes)
    ensures ShiftBy(b, 0) == b
  {
  }

  predicate ShiftedBy(b: Bytes, n: int, out: Bytes) {
    if n > 0 then Unsigned(out) == Unsigned(b) * Pow2(n) && |out| == n / 8 + |b| + 1
    else if n == 0 then out == b
    else Unsigned(out) == Unsigned(b) / Pow2(-n) && |out| == Costs.Max(1, |b| - Costs.Min((-n - 1) / 8, |b|))
  }

  lemma ShiftIsShifted(b: Bytes, n: int)
    ensures ShiftedBy(b, n, ShiftBy(b, n))
  {
    if n > 0 {
      S.LeftShift(b, n);
    } else if n < 0 {
      S.RightShift(b, -n);
    }
  }

  // ----- bytes -----

  function Concatenation(vs: seq<Element>): Bytes
    requires Atoms(vs)
  {
    if vs == [] then [] else vs[0].bytes + Concatenation(vs[1..])
  }

  lemma {:induction false} JoinedFold(o: Oracle, total: Bytes, vs: seq<Element>)
    ensures Fold(o, Joined(total), vs) ==
            if Atoms(vs) then Next(Joined(total + Concatenation(vs))) else Fault(NeedsAtoms)
    decreases |vs|
  {
    if vs == [] {
      assert total + [] == total;
    } else {
      FoldNext(o, Joined(total), vs);
      if vs[0].Atom? {
        JoinedFold(o, total + vs[0].bytes, vs[1..]);
        if Atoms(vs[1..]) {
          assert total + vs[0].bytes + Concatenation(vs[1..]) == total + (vs[0].bytes + Concatenation(vs[1..]));
        }
      }
    }
  }

  /** cat is the concatenation. */
  lemma CatIsConcatenation(o: Oracle, vs: seq<Element>)
    ensures ResultOf(o, 0x12, vs) == if Atoms(vs) then Value(Atom(Concatenation(vs))) else Failure(NeedsAtoms)
  {
    hide Feed;
    JoinedFold(o, [], vs);
    if Atoms(vs) {
      assert [] + Concatenation(vs) == Concatenation(vs);
    }
  }

  lemma {:induction false} LengthFold(o: Oracle, i: int, vs: seq<Element>)
    ensures Fold(o, Length(IntToBytes(i)), vs)
         == if Atoms(vs) then Next(Length(IntToBytes(i + |Concatenation(vs)|))) else Fault(NeedsAtoms)
    decreases |vs|
  {
    hide IntToBytes, BytesToInt;
    if vs != [] {
      FoldNext(o, Length(IntToBytes(i)), vs);
      IntRoundTrip(i);
      if vs[0].Atom? {
        LengthFold(o, i + |vs[0].bytes|, vs[1..]);
      }
    }
  }

  /** strlen is the length of the concatenation. */
  lemma StrlenIsLength(o: Oracle, vs: seq<Element>)
    ensures ResultOf(o, 0x10, vs) == if Atoms(vs) then Value(Num(|Concatenation(vs)|)) else Failure(NeedsAtoms)
  {
    hide Applied, Fold, BytesToInt, IntToBytes, Concatenation, TableOp;
    ArithmeticTable();
    EmptyIsZero();
    LengthFold(o, 0, vs);
    FoldResult(o, Length([]), vs);
  }

  lemma {:induction false} MidstateFold(o: Oracle, h: HashKind, absorbed: Bytes, vs: seq<Element>)
    ensures Fold(o, Midstate(h, absorbed), vs)
         == if Atoms(vs) then Next(Midstate(h, absorbed + Concatenation(vs))) else Fault(NeedsAtoms)
    decreases |vs|
  {
    if vs == [] {
      assert absorbed + [] == absorbed;
    } else {
      FoldNext(o, Midstate(h, absorbed), vs);
      if vs[0].Atom? {
        MidstateFold(o, h, absorbed + vs[0].bytes, vs[1..]);
        if Atoms(vs[1..]) {
          assert absorbed + vs[0].bytes + Concatenation(vs[1..]) == absorbed + (vs[0].bytes + Concatenation(vs[1..]));
        }
      }
    }
  }

  /** A hash opcode digests the concatenation, however it is cut into arguments. */
  lemma HashIsDigest(o: Oracle, h: HashKind, vs: seq<Element>)
    ensures Applied(Standard(o, false), Midstate(h, []), vs)
         == if Atoms(vs) then Value(Atom(o.digest(h, Concatenation(vs)))) else Failure(NeedsAtoms)
  {
    hide Feed;
    MidstateFold(o, h, [], vs);
    if Atoms(vs) {
      assert [] + Concatenation(vs) == Concatenation(vs);
    }
  }

  function DigestOf(o: Oracle, h: HashKind, vs: seq<Element>): Result {
    if Atoms(vs) then Value(Atom(o.digest(h, Concatenation(vs)))) else Failure(NeedsAtoms)
  }

  /** The hash opcodes by number. */
  lemma ShaMeaning(o: Oracle, vs: seq<Element>)
    ensures ResultOf(o, 0x22, vs) == DigestOf(o, Sha256, vs) && ResultOf(o, 0x25, vs) == DigestOf(o, Hash256, vs)
  {
    hide Applied, Concatenation;
    HashIsDigest(o, Sha256, vs);
    HashIsDigest(o, Hash256, vs);
  }

  lemma RipemdMeaning(o: Oracle, vs: seq<Element>)
    ensures ResultOf(o, 0x23, vs) == DigestOf(o, Ripemd160, vs) && ResultOf(o, 0x24, vs) == DigestOf(o, Hash160, vs)
  {
    hide Applied, Concatenation;
    HashIsDigest(o, Ripemd160, vs);
    HashIsDigest(o, Hash160, vs);
  }

  /** A Python slice bound: negative from the end, and never past it. */
  function SliceBound(i: int, length: nat): (r: nat)
    ensures r <= length
  {
    if i < 0 then (if i + length < 0 then 0 else i + length) else if i < length then i else length
  }

  /** substr's shortcuts agree with plain slicing, whatever the bounds. */
  lemma SliceIsPlain(b: Bytes, start: int, end: int, base: nat)
    ensures var low, high := SliceBound(start, |b|), SliceBound(end, |b|);
      Slice(b, start, end, base).value == Value(Atom(if low < high then b[low..high] else []))
  {
    if start == 0 && end >= |b| {
      assert b[0..|b|] == b;
    }
  }

  /** substr over any argument list: the slice between the bounds, which default to
      the whole string. */
  lemma SubstrIsSlice(o: Oracle, vs: seq<Element>)
    ensures ResultOf(o, 0x11, vs) ==
            if |vs| > 3 then Failure(TooManyArguments)
            else if !Atoms(vs) then Failure(NeedsAtoms)
            else Value(Atom(if vs == [] then [] else
                              var b := vs[0].bytes;
                              var low := if |vs| < 2 then 0 else SliceBound(BytesToInt(vs[1].bytes), |b|);
                              var high := if |vs| < 3 then |b| else SliceBound(BytesToInt(vs[2].bytes), |b|);
                              if low < high then b[low..high] else []))
  {
    hide Applied, BytesToInt, Slice;
    FixedResult(o, OpSubstr, vs);
    if 2 <= |vs| <= 3 && Atoms(vs) {
      var b := vs[0].bytes;
      var base := Costs.SUBSTR_BASE + Costs.AtomScan(|vs[1].bytes|);
      if |vs| == 2 {
        SliceIsPlain(b, BytesToInt(vs[1].bytes), |b|, base);
      } else {
        SliceIsPlain(b, BytesToInt(vs[1].bytes), BytesToInt(vs[2].bytes), base + Costs.AtomScan(|vs[2].bytes|));
      }
    }
  }

  // ----- lists and truth -----

  /** rc lists its arguments in reverse, the first one as the tail. */
  function Reversed(vs: seq<Element>): Element
    requires vs != []
  {
    if |vs| == 1 then vs[0] else Cons(vs[|vs| - 1], Reversed(vs[..|vs| - 1]))
  }

  lemma {:induction false} SpineFold(o: Oracle, seen: seq<Element>, vs: seq<Element>)
    requires seen != []
    ensures Fold(o, Spine(Some(Reversed(seen))), vs) == Next(Spine(Some(Reversed(seen + vs))))
    decreases |vs|
  {
    if vs == [] {
      assert seen + vs == seen;
    } else {
      FoldNext(o, Spine(Some(Reversed(seen))), vs);
      assert (seen + [vs[0]])[..|seen|] == seen;
      SpineFold(o, seen + [vs[0]], vs[1..]);
      assert seen + [vs[0]] + vs[1..] == seen + vs;
    }
  }

  lemma RcReverses(o: Oracle, vs: seq<Element>)
    ensures ResultOf(o, 0x06, vs) == Value(if vs == [] then Nil else Reversed(vs))
  {
    assert vs != [] ==> Feed(o, Spine(None), vs[0]).value == Next(Spine(Some(vs[0])));
    hide Feed;
    if vs != [] {
      SpineFold(o, [vs[0]], vs[1..]);
      assert [vs[0]] + vs[1..] == vs;
    }
  }

  /** h and t undo rc: they give back its last argument, and what rc makes of the
      arguments before. */
  lemma PartsUndoRc(o: Oracle, seen: seq<Element>, v: Element)
    requires seen != []
    ensures var list := ResultOf(o, 0x06, seen + [v]);
      && list.Value?
      && ResultOf(o, 0x07, [list.value]) == Value(v)
      && ResultOf(o, 0x08, [list.value]) == ResultOf(o, 0x06, seen)
  {
    hide ResultOf;
    RcReverses(o, seen + [v]);
    RcReverses(o, seen);
    assert (seen + [v])[..|seen|] == seen;
    PartsMeaning(o, [Reversed(seen + [v])]);
  }

  lemma {:induction false} CounterFold(o: Oracle, seen: seq<Element>, vs: seq<Element>)
    ensures Fold(o, Counter(|seen|, Trees(seen)), vs) == Next(Counter(|seen| + |vs|, Trees(seen + vs)))
    decreases |vs|
  {
    hide Carry;
    if vs == [] {
      assert seen + vs == seen;
    } else {
      FoldNext(o, Counter(|seen|, Trees(seen)), vs);
      assert (seen + [vs[0]])[..|seen|] == seen;
      CounterFold(o, seen + [vs[0]], vs[1..]);
      assert seen + [vs[0]] + vs[1..] == seen + vs;
    }
  }

  /** b builds the environment tree in which SymbolIndex places names. */
  lemma BBuildsTree(o: Oracle, vs: seq<Element>)
    ensures ResultOf(o, 0x0a, vs) == Value(TreeOf(vs))
  {
    hide Applied, Fold, Gather, Trees;
    NoTrees();
    CounterFold(o, [], vs);
    assert [] + vs == vs;
    FoldResult(o, Counter(0, []), vs);
  }

  lemma NoTrees()
    ensures Trees([]) == []
  {
  }

  predicate Values(vs: seq<Element>) {
    forall i | 0 <= i < |vs| :: !vs[i].Func?
  }

  /** The flag after more arguments. */
  function FlagAfter(op: LogicOp, flag: bool, vs: seq<Element>): bool {
    match op
    case NotAll => flag || Nil in vs
    case All => flag && Nil !in vs
    case Any => flag || exists i | 0 <= i < |vs| :: vs[i] != Nil
  }

  lemma {:induction false} FlagFold(o: Oracle, op: LogicOp, flag: bool, vs: seq<Element>)
    ensures Fold(o, Flag(op, flag), vs) ==
            if Values(vs) then Next(Flag(op, FlagAfter(op, flag, vs))) else Fault(NotAValue)
    decreases |vs|
  {
    if vs != [] {
      FoldNext(o, Flag(op, flag), vs);
      if !vs[0].Func? {
        var flag' := Feed(o, Flag(op, flag), vs[0]).value.bound.flag;
        FlagFold(o, op, flag', vs[1..]);
        FlagNext(op, flag, vs);
      }
    }
  }

  lemma FlagNext(op: LogicOp, flag: bool, vs: seq<Element>)
    requires vs != []
    ensures FlagAfter(op, flag, vs) == FlagAfter(op, FlagAfter(op, flag, [vs[0]]), vs[1..])
    ensures FlagAfter(op, flag, [vs[0]]) == match op
      case NotAll => flag || vs[0] == Nil
      case All => flag && vs[0] != Nil
      case Any => flag || vs[0] != Nil
  {
    assert vs == [vs[0]] + vs[1..];
    assert [vs[0]][0] == vs[0];
  }

  /** A truth value, unless an argument is a function object. */
  function TruthOf(vs: seq<Element>, b: bool): Result {
    if Values(vs) then Truth(b) else Failure(NotAValue)
  }

  /** notall, all and any ask which arguments are nil. */
  lemma LogicMeaning(o: Oracle, vs: seq<Element>)
    ensures ResultOf(o, 0x0b, vs) == TruthOf(vs, Nil in vs)
    ensures ResultOf(o, 0x0c, vs) == TruthOf(vs, Nil !in vs)
    ensures ResultOf(o, 0x0d, vs) == TruthOf(vs, exists i | 0 <= i < |vs| :: vs[i] != Nil)
  {
    hide Feed;
    FlagFold(o, NotAll, false, vs);
    FlagFold(o, All, true, vs);
    FlagFold(o, Any, false, vs);
  }

  // ----- comparisons -----

  /** Comparing the pairs of nodes, right children first, meets a function object
      before it meets a difference. */
  predicate Meets(a: Element, b: Element) {
    a.Func? || b.Func?
    || (a.Cons? && b.Cons? && (Meets(a.right, b.right) || (a.right == b.right && Meets(a.left, b.left))))
  }

  lemma {:induction false} CompareDecides(a: Element, b: Element)
    ensures Compare(a, b).value == if Meets(a, b) then Unexaminable else if a == b then Equal else Unequal
    decreases a
  {
    if a.Cons? && b.Cons? {
      CompareDecides(a.right, b.right);
      CompareDecides(a.left, b.left);
    }
  }

  predicate AllEqual(x: Element, vs: seq<Element>) {
    forall i | 0 <= i < |vs| :: vs[i] == x
  }

  lemma {:induction false} SameFold(o: Oracle, c: Chain<Bytes>, vs: seq<Element>)
    ensures var r := Fold(o, Same(c), vs);
      if !Values(vs) then r == Fault(NotAValue)
      else if c.Last? && AllEqual(Atom(c.value), vs) then r == Next(Same(c))
      else if c.First? then
        r == if vs == [] then Next(Same(c))
             else if vs[0].Atom? && AllEqual(vs[0], vs) then Next(Same(Last(vs[0].bytes)))
             else Next(Same(Broken))
      else r == Next(Same(Broken))
    decreases |vs|
  {
    if vs != [] {
      FoldNext(o, Same(c), vs);
      if !vs[0].Func? {
        SameFold(o, Feed(o, Same(c), vs[0]).value.bound.atoms, vs[1..]);
      }
    }
  }

  /** = holds of atoms that are all the same. */
  lemma EqMeaning(o: Oracle, vs: seq<Element>)
    ensures ResultOf(o, 0x0e, vs) == TruthOf(vs, Atoms(vs) && forall i | 0 <= i < |vs| :: vs[i] == vs[0])
  {
    hide Feed;
    SameFold(o, First, vs);
  }

  /** After some arguments equal to x comes one whose comparison with x meets a
      function object. */
  predicate Stumbles(x: Element, vs: seq<Element>) {
    exists k | 0 <= k < |vs| :: Meets(x, vs[k]) && forall j | 0 <= j < k :: vs[j] == x
  }

  lemma StumblesNext(x: Element, vs: seq<Element>)
    ensures vs == [] ==> !Stumbles(x, vs)
    ensures vs != [] ==> (Stumbles(x, vs) <==> Meets(x, vs[0]) || (vs[0] == x && Stumbles(x, vs[1..])))
  {
    hide Meets;
    if vs != [] && Stumbles(x, vs) {
      var k :| 0 <= k < |vs| && Meets(x, vs[k]) && forall j | 0 <= j < k :: vs[j] == x;
      if k > 0 {
        StumblesAt(x, vs[1..], k - 1);
      }
    }
    if vs != [] && Meets(x, vs[0]) {
      StumblesAt(x, vs, 0);
    }
    if vs != [] && vs[0] == x && Stumbles(x, vs[1..]) {
      var rest := vs[1..];
      var k :| 0 <= k < |rest| && Meets(x, rest[k]) && forall j | 0 <= j < k :: rest[j] == x;
      assert forall j | 1 <= j < k + 1 :: vs[j] == rest[j - 1];
      StumblesAt(x, vs, k + 1);
    }
  }

  lemma StumblesAt(x: Element, vs: seq<Element>, k: nat)
    requires k < |vs| && Meets(x, vs[k]) && forall j | 0 <= j < k :: vs[j] == x
    ensures Stumbles(x, vs)
  {
  }

  lemma {:induction false} SameTreeFold(o: Oracle, c: Chain<Element>, vs: seq<Element>)
    requires !c.First?
    ensures Fold(o, SameTree(c), vs) ==
            if !Values(vs) || (c.Last? && Stumbles(c.value, vs)) then Fault(NotAValue)
            else Next(SameTree(if c.Last? && AllEqual(c.value, vs) then c else Broken))
    decreases |vs|
  {
    hide Compare, Meets, Stumbles;
    if c.Last? {
      StumblesNext(c.value, vs);
    }
    if vs != [] {
      FoldNext(o, SameTree(c), vs);
      if c.Last? {
        CompareDecides(c.value, vs[0]);
      }
      var fed := Feed(o, SameTree(c), vs[0]).value;
      if fed.Next? {
        SameTreeFold(o, fed.bound.tree, vs[1..]);
      }
    }
  }

  /** === holds of arguments that are all the same tree, unless one is a function
      object or a comparison with the first meets one before any difference. */
  lemma BigEqMeaning(o: Oracle, vs: seq<Element>)
    ensures ResultOf(o, 0xff, vs) ==
            if vs != [] && Stumbles(vs[0], vs[1..]) then Failure(NotAValue)
            else TruthOf(vs, forall i | 0 <= i < |vs| :: vs[i] == vs[0])
  {
    hide Feed, Stumbles;
    if vs != [] {
      FoldNext(o, SameTree(First), vs);
      BigEqFirst(o, vs[0]);
      SameTreeFold(o, Last(vs[0]), vs[1..]);
      assert forall i | 1 <= i < |vs| :: vs[i] == vs[1..][i - 1];
    }
  }

  lemma BigEqFirst(o: Oracle, v: Element)
    ensures Feed(o, SameTree(First), v).value == if v.Func? then Fault(NotAValue) else Next(SameTree(Last(v)))
  {
  }

  /** On bll values === is equality. */
  lemma BigEqOnValues(o: Oracle, vs: seq<Element>)
    requires forall i | 0 <= i < |vs| :: IsBll(vs[i])
    ensures ResultOf(o, 0xff, vs) == Truth(forall i | 0 <= i < |vs| :: vs[i] == vs[0])
  {
    hide ResultOf;
    BigEqMeaning(o, vs);
    if vs != [] && Stumbles(vs[0], vs[1..]) {
      var k :| 0 <= k < |vs| - 1 && Meets(vs[0], vs[1..][k]);
      MeetsNone(vs[0], vs[k + 1]);
      assert false;
    }
  }

  lemma {:induction false} MeetsNone(a: Element, b: Element)
    requires IsBll(a) && IsBll(b)
    ensures !Meets(a, b)
  {
    if a.Cons? && b.Cons? {
      MeetsNone(a.right, b.right);
      MeetsNone(a.left, b.left);
    }
  }

  // ----- ascending chains -----

  /** Each atom above the one before it. */
  predicate Climbing(below: (Bytes, Bytes) -> bool, prev: Bytes, vs: seq<Element>)
    decreases |vs|
  {
    vs == [] || (vs[0].Atom? && below(prev, vs[0].bytes) && Climbing(below, vs[0].bytes, vs[1..]))
  }

  /** The arguments are atoms, each below all that follow it. */
  predicate Ascending(below: (Bytes, Bytes) -> bool, vs: seq<Element>) {
    Atoms(vs) && forall i, j | 0 <= i < j < |vs| :: below(vs[i].bytes, vs[j].bytes)
  }

  ghost predicate Transitive(below: (Bytes, Bytes) -> bool) {
    forall a, b, c :: below(a, b) && below(b, c) ==> below(a, c)
  }

  lemma {:induction false} ClimbingPairs(below: (Bytes, Bytes) -> bool, prev: Bytes, vs: seq<Element>)
    requires Transitive(below)
    ensures Climbing(below, prev, vs) <==>
            Ascending(below, vs) && forall i | 0 <= i < |vs| :: below(prev, vs[i].bytes)
    decreases |vs|
  {
    if vs != [] && vs[0].Atom? {
      var rest := vs[1..];
      ClimbingPairs(below, vs[0].bytes, rest);
      AscendingNext(below, vs);
      assert forall i | 1 <= i < |vs| :: vs[i] == rest[i - 1];
    }
  }

  lemma AscendingNext(below: (Bytes, Bytes) -> bool, vs: seq<Element>)
    requires vs != []
    ensures Ascending(below, vs) <==>
            && vs[0].Atom? && Ascending(below, vs[1..])
            && forall i | 0 <= i < |vs| - 1 :: below(vs[0].bytes, vs[1..][i].bytes)
  {
    var rest := vs[1..];
    assert forall i | 1 <= i < |vs| :: vs[i] == rest[i - 1];
    assert forall i | 0 <= i < |rest| :: rest[i] == vs[i + 1];
  }

  /** The arguments carry a chain on without breaking it. */
  predicate Climbs(below: (Bytes, Bytes) -> bool, c: Chain<Bytes>, vs: seq<Element>) {
    match c
    case First => vs == [] || (vs[0].Atom? && Climbing(below, vs[0].bytes, vs[1..]))
    case Last(prev) => Climbing(below, prev, vs)
    case Broken => false
  }

  lemma ClimbsFromFirst(below: (Bytes, Bytes) -> bool, vs: seq<Element>)
    requires Transitive(below)
    ensures Climbs(below, First, vs) <==> Ascending(below, vs)
  {
    if vs != [] && vs[0].Atom? {
      ClimbingPairs(below, vs[0].bytes, vs[1..]);
      AscendingNext(below, vs);
    }
  }

  // ----- < -----

  const BelowAsNumber := (a: Bytes, b: Bytes) => BytesToInt(a) < BytesToInt(b)

  lemma {:induction false} RisingFold(o: Oracle, c: Chain<Bytes>, vs: seq<Element>)
    ensures var r := Fold(o, Rising(c), vs);
      if !Values(vs) then r == Fault(NotAValue)
      else r.Next? && r.bound.Rising? && (r.bound.numbers.Broken? <==> !Climbs(BelowAsNumber, c, vs))
    decreases |vs|
  {
    hide BytesToInt;
    if vs != [] {
      FoldNext(o, Rising(c), vs);
      if !vs[0].Func? {
        RisingFold(o, Feed(o, Rising(c), vs[0]).value.bound.numbers, vs[1..]);
      }
    }
  }

  /** < holds of atoms that rise strictly as numbers. */
  lemma LessMeaning(o: Oracle, vs: seq<Element>)
    ensures ResultOf(o, 0x1e, vs) == TruthOf(vs, Atoms(vs) &&
              forall i, j | 0 <= i < j < |vs| :: BytesToInt(vs[i].bytes) < BytesToInt(vs[j].bytes))
  {
    hide Feed, BytesToInt, Climbing;
    RisingFold(o, First, vs);
    ClimbsFromFirst(BelowAsNumber, vs);
  }

  // ----- <s -----

  /** The texts differ first at a byte that is smaller in a, or a is a proper
      prefix of b. */
  predicate FirstDifference(a: Bytes, b: Bytes, k: nat) {
    && k <= |a| && k < |b|
    && a[..k] == b[..k]
    && (k == |a| || a[k] < b[k])
  }

  ghost predicate InBytesOrder(a: Bytes, b: Bytes) {
    exists k :: FirstDifference(a, b, k)
  }

  lemma {:induction false} LexLessIs(a: Bytes, b: Bytes)
    ensures LexLess(a, b) <==> InBytesOrder(a, b)
    decreases |a|
  {
    if b != [] && (a == [] || a[0] < b[0]) {
      assert FirstDifference(a, b, 0);
    }
    if a != [] && b != [] {
      LexLessIs(a[1..], b[1..]);
      if a[0] == b[0] && LexLess(a[1..], b[1..]) {
        var k: nat :| FirstDifference(a[1..], b[1..], k);
        assert a[..k + 1] == [a[0]] + a[1..][..k] && b[..k + 1] == [b[0]] + b[1..][..k];
        assert FirstDifference(a, b, k + 1);
      }
      if k: nat :| FirstDifference(a, b, k) && k > 0 {
        assert a[0] == a[..k][0] && b[0] == b[..k][0];
        assert a[1..][..k - 1] == a[..k][1..] && b[1..][..k - 1] == b[..k][1..];
        assert FirstDifference(a[1..], b[1..], k - 1);
      }
    }
  }

  lemma {:induction false} LexTransitive(a: Bytes, b: Bytes, c: Bytes)
    requires LexLess(a, b) && LexLess(b, c)
    ensures LexLess(a, c)
    decreases |a|
  {
    if a != [] && a[0] == b[0] && b[0] == c[0] {
      LexTransitive(a[1..], b[1..], c[1..]);
    }
  }

  lemma {:induction false} TextFold(o: Oracle, c: Chain<Bytes>, vs: seq<Element>)
    ensures var r := Fold(o, RisingText(c), vs);
      if !Values(vs) then r == Fault(NotAValue)
      else r.Next? && r.bound.RisingText? && (r.bound.texts.Broken? <==> !Climbs(LexLess, c, vs))
    decreases |vs|
  {
    hide LexLess;
    if vs != [] {
      FoldNext(o, RisingText(c), vs);
      if !vs[0].Func? {
        TextFold(o, Feed(o, RisingText(c), vs[0]).value.bound.texts, vs[1..]);
      }
    }
  }

  /** <s holds of atoms that rise strictly in the order of bytes. */
  lemma TextLessMeaning(o: Oracle, vs: seq<Element>)
    ensures ResultOf(o, 0x0f, vs) == TruthOf(vs, Atoms(vs) &&
              forall i, j | 0 <= i < j < |vs| :: InBytesOrder(vs[i].bytes, vs[j].bytes))
  {
    hide Feed, LexLess, Climbing, InBytesOrder;
    TextFold(o, First, vs);
    forall a, b, c | LexLess(a, b) && LexLess(b, c) ensures LexLess(a, c) {
      LexTransitive(a, b, c);
    }
    ClimbsFromFirst(LexLess, vs);
    forall a, b ensures LexLess(a, b) <==> InBytesOrder(a, b) {
      LexLessIs(a, b);
    }
  }

  // ----- names -----

  /** What the opcodes stated here are called in symbolic programs. */
  function NameOf(num: nat): Option<string> {
    match num
    case 0x04 => Some("x")
    case 0x05 => Some("i")
    case 0x06 => Some("rc")
    case 0x07 => Some("h")
    case 0x08 => Some("t")
    case 0x09 => Some("l")
    case 0x0a => Some("b")
    case 0x0b => Some("notall")
    case 0x0c => Some("all")
    case 0x0d => Some("any")
    case 0x0e => Some("=")
    case 0x0f => Some("<s")
    case 0x10 => Some("strlen")
    case 0x11 => Some("substr")
    case 0x12 => Some("cat")
    case 0x17 => Some("+")
    case 0x18 => Some("-")
    case 0x19 => Some("*")
    case 0x1a => Some("%")
    case 0x1b => Some("shift")
    case 0x1e => Some("<")
    case 0x20 => Some("rd")
    case 0x21 => Some("wr")
    case 0x22 => Some("sha256")
    case 0x23 => Some("ripemd160")
    case 0x24 => Some("hash160")
    case 0x25 => Some("hash256")
    case 0xff => Some("===")
    case _ => None
  }

  /** A symbolic program that reaches one of these opcodes has called it by its name. */
  lemma CalledByName(name: string, num: nat)
    requires OpNumber(name) == Some(num) && NameOf(num).Some?
    ensures name == NameOf(num).value
  {
    hide TableOp;
  }
}
