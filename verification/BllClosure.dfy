/** Opcodes fed bll values deliver bll values: only partial makes function
    objects. */
module BllClosure {
  import opened Integers
  import opened Elements
  import opened Opcodes
  import Codec

  /** The oracle's own opcodes deliver bll values. */
  ghost predicate Plain(o: Oracle) {
    && (forall n, s, a :: o.feed(n, s, a).value.Some? && IsBll(s) && IsBll(a) ==> IsBll(o.feed(n, s, a).value.value))
    && (forall n, s :: o.done(n, s).value.Some? && IsBll(s) ==> IsBll(o.done(n, s).value.value))
  }

  predicate AllBll(es: seq<Element>) {
    forall i | 0 <= i < |es| :: IsBll(es[i])
  }

  /** Every value a bound opcode holds is bll. */
  predicate BllBound(b: Bound) {
    match b
    case Collect(_, args) => AllBll(args)
    case Spine(list) => list.Some? ==> IsBll(list.value)
    case Counter(_, trees) => AllBll(trees)
    case SameTree(t) => t.Last? ==> IsBll(t.value)
    case External(_, s) => IsBll(s)
    case _ => true
  }

  lemma {:induction false} CarryBll(n: nat, v: Element, trees: seq<Element>)
    requires IsBll(v) && AllBll(trees)
    ensures AllBll(Carry(n, v, trees))
    decreases |trees|
  {
    if n % 2 == 1 && trees != [] {
      CarryBll(n / 2, Cons(trees[0], v), trees[1..]);
    }
  }

  lemma {:induction false} GatherBll(tree: Element, rest: seq<Element>)
    requires IsBll(tree) && AllBll(rest)
    ensures IsBll(Gather(tree, rest))
    decreases |rest|
  {
    if rest != [] {
      GatherBll(Cons(rest[0], tree), rest[1..]);
    }
  }

  lemma {:induction false} DecodeBll(b: Bytes, i: nat, rates: Codec.Rates)
    requires i <= |b|
    ensures Codec.Decode(b, i, rates).value.Got? ==> IsBll(Codec.Decode(b, i, rates).value.e)
    decreases |b| - i
  {
    if i < |b| && b[i] == 0xff {
      DecodeBll(b, i + 1, rates);
      var l := Codec.Decode(b, i + 1, rates).value;
      if l.Got? {
        DecodeBll(b, l.next, rates);
      }
    }
  }

  lemma FeedBll(o: Oracle, b: Bound, arg: Element)
    requires Plain(o) && BllBound(b) && IsBll(arg)
    ensures Feed(o, b, arg).value.Next? ==> BllBound(Feed(o, b, arg).value.bound)
  {
    if b.Counter? {
      CarryBll(b.count, arg, b.trees);
    }
  }

  lemma OperateBll(op: FixedOp, args: seq<Element>)
    requires MinArgs(op) <= |args| && AllBll(args)
    ensures Operate(op, args).value.Value? ==> IsBll(Operate(op, args).value.value)
  {
    if op.OpRd? && args[0].Atom? {
      DecodeBll(args[0].bytes, 0, RD_RATES);
    }
  }

  /** A finished opcode delivers a bll value. */
  lemma FinishBll(o: Oracle, b: Bound)
    requires Plain(o) && BllBound(b)
    ensures Finish(o, b).value.Value? ==> IsBll(Finish(o, b).value.value)
  {
    hide Operate;
    match b {
      case Collect(op, args) =>
        if MinArgs(op) <= |args| {
          OperateBll(op, args);
        }
      case Counter(_, trees) =>
        if trees != [] {
          GatherBll(trees[0], trees[1..]);
        }
      case _ =>
    }
  }
}
