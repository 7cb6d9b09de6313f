/** Every byte an opcode allocates is paid for: accumulators as they grow, and results
    that are not passed through. */
module BytesPaid {
  import opened Integers
  import opened Costs
  import opened Elements
  import opened Opcodes
  import S = Shifts
  import Canonical

  /** The bytes of an accumulator that a fold has just built anew. */
  function Built(b: Bound): nat {
    match b
    case Joined(total) => |total|
    case Sum(total) => |total|
    case Product(total) => |total|
    case Minus(Running(total)) => |total|
    case _ => 0
  }

  /** A fold pays for the accumulator it builds. */
  lemma FeedPays(o: Oracle, b: Bound, arg: Element)
    requires !b.External?
    ensures var fed := Feed(o, b, arg);
      fed.value.Next? ==> MALLOC_PER_BYTE * Built(fed.value.bound) <= fed.cost
  {
    hide BytesToInt, IntToBytes, MulFoldWork, LexLess, Compare, Carry;
  }

  /** Digests have their sizes. */
  ghost predicate Sized(o: Oracle) {
    forall h, m :: |o.digest(h, m)| == DigestSize(h)
  }

  /** The atoms an opcode holds and may pass through. */
  predicate Holds(b: Bound, a: Bytes) {
    match b
    case Collect(_, args) => Atom(a) in args || a == [] || a == [1]
    case Length(total) => a == total
    case Joined(total) => a == total
    case Sum(total) => a == total
    case Product(total) => a == total
    case Minus(Running(total)) => a == total
    case Spine(list) => list == Some(Atom(a)) || a == []
    case Counter(_, trees) => Atom(a) in trees || a == []
    case _ => a == [] || a == [1]
  }

  /** An atom that an opcode delivers was held already, or is paid for by the byte. */
  lemma FinishPays(o: Oracle, b: Bound)
    requires Sized(o) && !b.External? && !(b.Collect? && b.op in {OpH, OpT, OpRd})
    ensures var r := Finish(o, b);
      r.value.Value? && r.value.value.Atom? ==>
        Holds(b, r.value.value.bytes) || MALLOC_PER_BYTE * |r.value.value.bytes| <= r.cost
  {
    hide BytesToInt, IntToBytes, ShiftBy, ShiftBound, DoWr, DoShift, DoMod, DoSubstr, Gather;
    match b {
      case Collect(op, args) =>
        match op {
          case OpShift => if |args| >= 2 { ShiftPays(args[0], args[1]); }
          case OpMod => if |args| >= 2 { ModPays(args[0], args[1]); }
          case OpSubstr => SubstrPays(args);
          case OpWr => if |args| >= 1 { WritePays(args[0]); }
          case _ =>
        }
      case Counter(_, trees) => if trees != [] { GatheredAtom(trees[0], trees[1..]); }
      case _ =>
    }
  }

  lemma {:induction false} GatheredAtom(tree: Element, rest: seq<Element>)
    ensures Gather(tree, rest).Atom? ==> Gather(tree, rest) == tree
    decreases |rest|
  {
    if rest != [] {
      GatheredAtom(Cons(rest[0], tree), rest[1..]);
    }
  }

  lemma ShiftPays(inp: Element, n: Element)
    ensures var r := DoShift(inp, n);
      r.value.Value? ==> r.value == Value(inp) || MALLOC_PER_BYTE * |r.value.value.bytes| <= r.cost
    ensures DoShift(inp, n).value.Value? ==> DoShift(inp, n).value.value.Atom?
  {
    hide BytesToInt, ShiftBy;
    if inp.Atom? && n.Atom? {
      var delta := BytesToInt(n.bytes);
      if delta > 0 {
        S.LeftShift(inp.bytes, delta);
      } else if delta < 0 {
        S.RightShift(inp.bytes, -delta);
      }
    }
  }

  lemma ModPays(num: Element, den: Element)
    ensures var r := DoMod(num, den);
      r.value.Value? ==> r.value.value.Atom? && MALLOC_PER_BYTE * |r.value.value.bytes| <= r.cost
  {
    hide BytesToInt, IntToBytes, FloorMod;
  }

  lemma SubstrPays(args: seq<Element>)
    ensures var r := DoSubstr(args);
      r.value.Value? ==>
        r.value.value == Nil || (args != [] && r.value.value == args[0])
        || (r.value.value.Atom? && MALLOC_PER_BYTE * |r.value.value.bytes| <= r.cost)
  {
    hide BytesToInt;
  }

  lemma WritePays(e: Element)
    ensures var r := DoWr(e);
      r.value.Value? ==> r.value.value.Atom? && MALLOC_PER_BYTE * |r.value.value.bytes| <= r.cost
  {
    hide Codec.Encode, Canonical.Serialized, Nodes;
    Canonical.WriteOutput(e);
  }
}
