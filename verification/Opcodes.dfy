/** The opcode folds of opcodes.py: what feeding an argument to a bound opcode
    and finishing it charge and yield. */
module Opcodes {
  import opened Integers
  import opened Costs
  import opened Elements
  import Codec

  const RD_RATES := Codec.Rates(RD_PER_ELEMENT, RD_PER_BYTE + MALLOC_PER_BYTE)
  const WR_RATES := Codec.Rates(WR_PER_ELEMENT, WR_PER_BYTE + MALLOC_PER_BYTE)

  /** Digests, and the opcodes not described here: bitwise operators, signature
      checks and transaction lookups may do whatever the oracle says. */
  datatype Oracle = Oracle(
    digest: (HashKind, Bytes) -> Bytes,
    feed: (nat, Element, Element) -> Metered<Option<Element>>,
    done: (nat, Element) -> Metered<Option<Element>>)

  function MinArgs(op: FixedOp): nat {
    match op
    case OpX => 0
    case OpSubstr => 0
    case OpMod => 2
    case OpShift => 2
    case _ => 1
  }

  function MaxArgs(op: FixedOp): nat {
    match op
    case OpX => 10
    case OpI => 3
    case OpSubstr => 3
    case OpMod => 2
    case OpShift => 2
    case _ => 1
  }

  /** The binary counter's carry: the new leaf merges with one finished tree per
      trailing one bit of the count. */
  function Carry(n: nat, v: Element, trees: seq<Element>): (r: seq<Element>)
    ensures |r| >= 1
    decreases |trees|
  {
    if n % 2 == 1 && trees != [] then Carry(n / 2, Cons(trees[0], v), trees[1..])
    else [v] + trees
  }

  /** Folding the finished trees together, newest innermost on the right. */
  function Gather(tree: Element, rest: seq<Element>): Element
    decreases |rest|
  {
    if rest == [] then tree else Gather(Cons(rest[0], tree), rest[1..])
  }

  /** Python's bytes ordering. */
  predicate LexLess(a: Bytes, b: Bytes) {
    b != [] && (a == [] || a[0] < b[0] || (a[0] == b[0] && LexLess(a[1..], b[1..])))
  }

  datatype Comparison = Equal | Unequal | Unexaminable

  /** ===: node pairs compared right child first, each paid for as it is met. */
  function Compare(a: Element, b: Element): Metered<Comparison> {
    if a.Func? || b.Func? then Metered(BIGEQ_PER_NODE, Unexaminable)
    else if a.Atom? then
      if !b.Atom? || |a.bytes| != |b.bytes| then Metered(BIGEQ_PER_NODE, Unequal)
      else Metered(BIGEQ_PER_NODE + COMPARE_PER_BYTE * |a.bytes|, if a == b then Equal else Unequal)
    else if b.Atom? then Metered(BIGEQ_PER_NODE, Unequal)
    else
      var r := Compare(a.right, b.right);
      if r.value != Equal then Metered(BIGEQ_PER_NODE + r.cost, r.value)
      else
        var l := Compare(a.left, b.left);
        Metered(BIGEQ_PER_NODE + r.cost + l.cost, l.value)
  }

  /** The running total of +, - or * after encoding a new value. */
  function Encoded(work: nat, i: int, wrap: Bytes -> Bound): Metered<Fed> {
    var enc := IntToBytes(i);
    Metered(work + MALLOC_PER_BYTE * |enc|, Next(wrap(enc)))
  }

  function FeedRising(numbers: Chain<Bytes>, arg: Element): Metered<Fed> {
    if arg.Func? then Metered(COMPARE_ARG, Fault(NotAValue))
    else if numbers.Broken? then Metered(COMPARE_ARG, Next(Rising(Broken)))
    else if !arg.Atom? then Metered(COMPARE_ARG, Next(Rising(Broken)))
    else if numbers.First? then Metered(COMPARE_ARG, Next(Rising(Last(arg.bytes))))
    else
      Metered(COMPARE_ARG + LT_NUM_PER_BYTE * (|numbers.value| + |arg.bytes|),
              Next(Rising(if BytesToInt(numbers.value) < BytesToInt(arg.bytes) then Last(arg.bytes) else Broken)))
  }

  function FeedText(texts: Chain<Bytes>, arg: Element): Metered<Fed> {
    if arg.Func? then Metered(COMPARE_ARG, Fault(NotAValue))
    else if texts.Broken? then Metered(COMPARE_ARG, Next(RisingText(Broken)))
    else if !arg.Atom? then Metered(COMPARE_ARG, Next(RisingText(Broken)))
    else if texts.First? then Metered(COMPARE_ARG, Next(RisingText(Last(arg.bytes))))
    else
      Metered(COMPARE_ARG + COMPARE_PER_BYTE * |arg.bytes|,
              Next(RisingText(if LexLess(texts.value, arg.bytes) then Last(arg.bytes) else Broken)))
  }

  function FeedSame(atoms: Chain<Bytes>, arg: Element): Metered<Fed> {
    if arg.Func? then Metered(COMPARE_ARG, Fault(NotAValue))
    else if atoms.Broken? then Metered(COMPARE_ARG, Next(Same(Broken)))
    else if !arg.Atom? then Metered(COMPARE_ARG, Next(Same(Broken)))
    else if atoms.First? then Metered(COMPARE_ARG, Next(Same(Last(arg.bytes))))
    else
      Metered(COMPARE_ARG + COMPARE_PER_BYTE * |arg.bytes|,
              Next(Same(if atoms.value == arg.bytes then atoms else Broken)))
  }

  function FeedSameTree(tree: Chain<Element>, arg: Element): Metered<Fed> {
    if arg.Func? then Metered(COMPARE_ARG, Fault(NotAValue))
    else if tree.Broken? then Metered(COMPARE_ARG, Next(SameTree(Broken)))
    else if tree.First? then Metered(COMPARE_ARG, Next(SameTree(Last(arg))))
    else
      var c := Compare(tree.value, arg);
      match c.value
      case Unexaminable => Metered(COMPARE_ARG + c.cost, Fault(NotAValue))
      case Unequal => Metered(COMPARE_ARG + c.cost, Next(SameTree(Broken)))
      case Equal => Metered(COMPARE_ARG + c.cost, Next(SameTree(tree)))
  }

  function FeedMinus(difference: Difference, arg: Element): Metered<Fed> {
    if !arg.Atom? then Metered(ARITH_ARG, Fault(NeedsAtoms))
    else
      match difference
      case NoMinuend => Metered(ARITH_ARG, Next(Minus(Minuend(arg.bytes))))
      case Minuend(m) => Subtract(m, arg.bytes)
      case Running(m) => Subtract(m, arg.bytes)
  }

  function Subtract(m: Bytes, s: Bytes): Metered<Fed> {
    Encoded(ARITH_ARG + ARITH_PER_BYTE * (|m| + |s|), BytesToInt(m) - BytesToInt(s),
            enc => Minus(Running(enc)))
  }

  function FeedTally(b: Bound, arg: Element): Metered<Fed>
    requires b.Tally?
  {
    if b.selector == 0 then Metered(0, Next(b))
    else if !arg.Atom? then Metered(0, Fault(NeedsAtoms))
    else
      var width := |arg.bytes|;
      var work := if b.selector == 2 && b.count > 0
                  then b.work + ARITH_ARG + MulFoldWork(b.bytes, width) else b.work;
      Metered(0, Next(b.(count := b.count + 1, bytes := b.bytes + width, work := work)))
  }

  function FeedLogic(op: LogicOp, flag: bool, arg: Element): Metered<Fed> {
    if arg.Func? then Metered(LOGIC_ARG, Fault(NotAValue))
    else
      var flag' := match op
        case NotAll => flag || arg == Nil
        case All => flag && arg != Nil
        case Any => flag || arg != Nil;
      Metered(LOGIC_ARG, Next(Flag(op, flag')))
  }

  /** Opcode.argument: one more argument for a bound opcode. */
  function Feed(o: Oracle, b: Bound, arg: Element): Metered<Fed> {
    match b
    case Collect(op, args) =>
      Metered(FIX_COLLECT,
              if |args| >= MaxArgs(op) then Fault(TooManyArguments) else Next(Collect(op, args + [arg])))
    case Spine(list) => Metered(RC_ARG, Next(Spine(Some(if list.Some? then Cons(arg, list.value) else arg))))
    case Counter(n, trees) => Metered(B_ARG, Next(Counter(n + 1, Carry(n, arg, trees))))
    case Flag(op, flag) => FeedLogic(op, flag, arg)
    case Same(atoms) => FeedSame(atoms, arg)
    case SameTree(tree) => FeedSameTree(tree, arg)
    case Rising(numbers) => FeedRising(numbers, arg)
    case RisingText(texts) => FeedText(texts, arg)
    case Length(total) =>
      if !arg.Atom? then Metered(STRLEN_ARG, Fault(NeedsAtoms))
      else Metered(STRLEN_ARG, Next(Length(IntToBytes(BytesToInt(total) + |arg.bytes|))))
    case Joined(total) =>
      if !arg.Atom? then Metered(CAT_ARG, Fault(NeedsAtoms))
      else Metered(CAT_ARG + (COPY_PER_BYTE + MALLOC_PER_BYTE) * (|total| + |arg.bytes|),
                   Next(Joined(total + arg.bytes)))
    case Sum(total) =>
      if !arg.Atom? then Metered(ARITH_ARG, Fault(NeedsAtoms))
      else Encoded(ARITH_ARG + ARITH_PER_BYTE * (|total| + |arg.bytes|),
                   BytesToInt(total) + BytesToInt(arg.bytes), enc => Sum(enc))
    case Minus(difference) => FeedMinus(difference, arg)
    case Product(total) =>
      if !arg.Atom? then Metered(ARITH_ARG, Fault(NeedsAtoms))
      else Encoded(ARITH_ARG + MulFoldWork(|total|, |arg.bytes|),
                   BytesToInt(total) * BytesToInt(arg.bytes), enc => Product(enc))
    case Midstate(h, absorbed) =>
      if !arg.Atom? then Metered(HASH_ARG, Fault(NeedsAtoms))
      else Metered(HASH_ARG + HASH_PER_BYTE * |arg.bytes|, Next(Midstate(h, absorbed + arg.bytes)))
    case Tally(_, _, _, _, _) => FeedTally(b, arg)
    case External(num, state) =>
      var r := o.feed(num, state, arg);
      Metered(r.cost, if r.value.Some? then Next(External(num, r.value.value)) else Fault(FromOracle(num)))
  }

  function DigestSize(h: HashKind): nat {
    match h
    case Sha256 => 32
    case Hash256 => 32
    case Ripemd160 => 20
    case Hash160 => 20
  }

  /** Two to the power n. */
  function Pow2(n: nat): (r: nat)
    ensures r >= 1
  {
    if n == 0 then 1 else 2 * Pow2(n - 1)
  }

  function Quotient(n: nat, d: nat): nat
    requires d > 0
  {
    n / d
  }

  /** n shifted left by some bits. */
  function Scaled(n: nat, bits: nat): nat {
    n * Pow2(bits)
  }

  /** The bits of b above the lowest k. */
  function HighBits(b: byte, k: nat): nat {
    Quotient(b, Pow2(k))
  }

  /** The byte loop of op_shift once the bit offset is between 0 and 7. */
  function ShiftUp(b: Bytes, bits: nat, overflow: nat): Bytes {
    if b == [] then [overflow % 256]
    else
      var x := Scaled(b[0], bits) + overflow;
      [x % 256] + ShiftUp(b[1..], bits, x / 256)
  }

  /** The byte loop of op_shift for a right shift by k bits. */
  function ShiftDown(b: Bytes, k: nat): Bytes
    requires k > 0
  {
    if b == [] then [0]
    else if k > 8 then ShiftDown(b[1..], k - 8)
    else ShiftUp(b[1..], 8 - k, HighBits(b[0], k))
  }

  function ShiftBy(b: Bytes, delta: int): Bytes {
    if delta == 0 then b
    else if delta > 0 then Zeros(delta / 8) + ShiftUp(b, delta % 8, 0)
    else ShiftDown(b, -delta)
  }

  /** The output size bound op_shift charges for. */
  function ShiftBound(b: Bytes, delta: int): nat {
    if delta > 0 then delta / 8 + |b| + 1 else |b| + 1
  }

  function DoShift(inp: Element, n: Element): Metered<Result> {
    if !inp.Atom? || !n.Atom? then Metered(SHIFT_BASE, Failure(NeedsAtoms))
    else
      var base := SHIFT_BASE + AtomScan(|n.bytes|);
      var delta := BytesToInt(n.bytes);
      if delta == 0 then Metered(base, Value(inp))
      else
        Metered(base + (COPY_PER_BYTE + MALLOC_PER_BYTE) * ShiftBound(inp.bytes, delta),
                Value(Atom(ShiftBy(inp.bytes, delta))))
  }

  /** Python's remainder, which takes the divisor's sign. */
  function FloorMod(n: int, d: int): int
    requires d != 0
  {
    if d > 0 then n % d
    else if n % -d == 0 then 0 else n % -d + d
  }

  function DoMod(num: Element, den: Element): Metered<Result> {
    if !num.Atom? || !den.Atom? then Metered(MOD_BASE, Failure(NeedsAtoms))
    else
      var a, b := |num.bytes|, |den.bytes|;
      var work := MOD_BASE + MOD_PER_BYTE * (a + b) + MULDIV_LIMB_PER_BYTE * Max(a, b) + a * b / MUL_PRODUCT_DIV;
      var d := BytesToInt(den.bytes);
      if d == 0 then Metered(work, Failure(DivisionByZero))
      else
        var enc := IntToBytes(FloorMod(BytesToInt(num.bytes), d));
        Metered(work + MALLOC_PER_BYTE * |enc|, Value(Atom(enc)))
  }

  function DoSubstr(args: seq<Element>): Metered<Result> {
    if args == [] then Metered(SUBSTR_BASE, Value(Nil))
    else if !args[0].Atom? then Metered(SUBSTR_BASE, Failure(NeedsAtoms))
    else if |args| == 1 then Metered(SUBSTR_BASE, Value(args[0]))
    else if !args[1].Atom? then Metered(SUBSTR_BASE, Failure(NeedsAtoms))
    else
      var b, start := args[0].bytes, BytesToInt(args[1].bytes);
      var base := SUBSTR_BASE + AtomScan(|args[1].bytes|);
      if |args| == 2 then Slice(b, start, |b|, base)
      else if !args[2].Atom? then Metered(base, Failure(NeedsAtoms))
      else Slice(b, start, BytesToInt(args[2].bytes), base + AtomScan(|args[2].bytes|))
  }

  function Slice(b: Bytes, start: int, end: int, base: nat): Metered<Result> {
    if start == 0 && end >= |b| then Metered(base, Value(Atom(b)))
    else if start > |b| then Metered(base, Value(Nil))
    else
      var low := if start < 0 then (if start + |b| < 0 then 0 else start + |b|) else start;
      var high := if end < 0 then (if end + |b| < 0 then 0 else end + |b|)
                  else if end < |b| then end else |b|;
      if low >= high then Metered(base, Value(Nil))
      else Metered(base + (COPY_PER_BYTE + MALLOC_PER_BYTE) * (high - low), Value(Atom(b[low..high])))
  }

  function DoWr(e: Element): Metered<Result> {
    var r := Codec.Encode(e, 0, None, WR_RATES);
    Metered(WR_BASE + r.cost, if r.value.Bytes? then Value(Atom(r.value.bytes)) else Failure(r.value.error))
  }

  function DoRd(e: Element): Metered<Result> {
    if !e.Atom? then Metered(RD_BASE, Failure(NeedsAtoms))
    else
      var r := Codec.Deserialize(e.bytes, RD_RATES);
      Metered(RD_BASE + r.cost, r.value)
  }

  /** FixOpcode.operation, once the argument count is known to be right. */
  function Operate(op: FixedOp, args: seq<Element>): Metered<Result>
    requires MinArgs(op) <= |args|
  {
    match op
    case OpX => Metered(CONTROL_BASE, Failure(RaisedByProgram))
    case OpI =>
      Metered(CONTROL_BASE,
              if args[0].Func? then Failure(NotAValue)
              else if args[0] == Nil then Value(if |args| > 2 then args[2] else Nil)
              else Value(if |args| > 1 then args[1] else One))
    case OpH => Metered(CONTROL_BASE, if args[0].Cons? then Value(args[0].left) else Failure(NotAList))
    case OpT => Metered(CONTROL_BASE, if args[0].Cons? then Value(args[0].right) else Failure(NotAList))
    case OpL =>
      Metered(CONTROL_BASE,
              if args[0].Func? then Failure(NotAValue) else Value(if args[0].Cons? then One else Nil))
    case OpSubstr => DoSubstr(args)
    case OpMod => DoMod(args[0], args[1])
    case OpShift => DoShift(args[0], args[1])
    case OpRd => DoRd(args[0])
    case OpWr => DoWr(args[0])
  }

  function Truth(b: bool): Result {
    Value(if b then One else Nil)
  }

  function FinishMinus(difference: Difference): Metered<Result> {
    match difference
    case Running(total) => Metered(ELEMENT_ALLOC, Value(Atom(total)))
    case Minuend(stored) => Negate(stored)
    case NoMinuend => Negate([])
  }

  function Negate(stored: Bytes): Metered<Result> {
    var enc := IntToBytes(0 - BytesToInt(stored));
    Metered(ARITH_ARG + ELEMENT_ALLOC + ARITH_PER_BYTE * |stored| + MALLOC_PER_BYTE * |enc|, Value(Atom(enc)))
  }

  function TallyTotal(b: Bound): nat
    requires b.Tally?
  {
    match b.selector
    case 1 => ARITH_ARG * b.count + ARITH_PER_BYTE * b.bytes
    case 2 => b.work
    case 3 => CAT_ARG * b.count + (COPY_PER_BYTE + MALLOC_PER_BYTE) * b.bytes
    case _ => 0
  }

  /** Opcode.finish: the result of a bound opcode. */
  function Finish(o: Oracle, b: Bound): Metered<Result> {
    match b
    case Collect(op, args) =>
      if |args| < MinArgs(op) then Metered(0, Failure(TooFewArguments)) else Operate(op, args)
    case Spine(list) => Metered(0, Value(if list.Some? then list.value else Nil))
    case Counter(_, trees) =>
      if trees == [] then Metered(0, Value(Nil))
      else Metered(ELEMENT_ALLOC * (|trees| - 1), Value(Gather(trees[0], trees[1..])))
    case Flag(_, flag) => Metered(0, Truth(flag))
    case Same(c) => Metered(0, Truth(!c.Broken?))
    case SameTree(c) => Metered(0, Truth(!c.Broken?))
    case Rising(c) => Metered(0, Truth(!c.Broken?))
    case RisingText(c) => Metered(0, Truth(!c.Broken?))
    case Length(total) => Metered(ELEMENT_ALLOC, Value(Atom(total)))
    case Joined(total) => Metered(ELEMENT_ALLOC, Value(Atom(total)))
    case Sum(total) => Metered(ELEMENT_ALLOC, Value(Atom(total)))
    case Minus(difference) => FinishMinus(difference)
    case Product(total) => Metered(ELEMENT_ALLOC, Value(Atom(total)))
    case Midstate(h, absorbed) =>
      Metered(HASH_BASE + MALLOC_PER_BYTE * DigestSize(h), Value(Atom(o.digest(h, absorbed))))
    case Tally(_, multiplier, _, _, _) =>
      Metered(Max(TallyTotal(b), 1) * (multiplier + 1), Value(Nil))
    case External(num, state) =>
      var r := o.done(num, state);
      Metered(r.cost, if r.value.Some? then Value(r.value.value) else Failure(FromOracle(num)))
  }
}
