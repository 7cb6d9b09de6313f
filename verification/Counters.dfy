/** How large a binary counter a program can hold for the money it has spent. */
module Counters {
  import opened Integers
  import opened Costs
  import opened Elements
  import opened Opcodes
  import opened Shifts
  import Codec

  /** The one bits of n: the finished trees of a counter at n. */
  function Ones(n: nat): nat {
    if n == 0 then 0 else n % 2 + Ones(n / 2)
  }

  /** Every binary counter in the element, however deep, has finished trees for
      the one bits of its count, and k paid for its arguments. */
  predicate Tame(e: Element, k: int) {
    match e
    case Atom(_) => true
    case Cons(l, r) => Tame(l, k) && Tame(r, k)
    case Func(b) => TameBound(b, k)
  }

  predicate TameBound(b: Bound, k: int) {
    match b
    case Collect(_, args) => forall i | 0 <= i < |args| :: Tame(args[i], k)
    case Spine(list) => list.Some? ==> Tame(list.value, k)
    case Counter(n, trees) =>
      B_ARG * n <= k && |trees| == Ones(n) && forall i | 0 <= i < |trees| :: Tame(trees[i], k)
    case SameTree(t) => t.Last? ==> Tame(t.value, k)
    case External(_, s) => Tame(s, k)
    case _ => true
  }

  predicate AllTame(es: seq<Element>, k: int) {
    forall i | 0 <= i < |es| :: Tame(es[i], k)
  }

  lemma {:induction false} TameLater(e: Element, k: int)
    requires Tame(e, k)
    ensures forall later | k <= later :: Tame(e, later)
    decreases e
  {
    match e {
      case Atom(_) =>
      case Cons(l, r) => TameLater(l, k); TameLater(r, k);
      case Func(b) => TameBoundLater(b, k);
    }
  }

  lemma {:induction false} TameBoundLater(b: Bound, k: int)
    requires TameBound(b, k)
    ensures forall later | k <= later :: TameBound(b, later)
    decreases b
  {
    match b {
      case Collect(_, args) => forall i | 0 <= i < |args| { TameLater(args[i], k); }
      case Spine(list) => if list.Some? { TameLater(list.value, k); }
      case Counter(_, trees) => forall i | 0 <= i < |trees| { TameLater(trees[i], k); }
      case SameTree(t) => if t.Last? { TameLater(t.value, k); }
      case External(_, s) => TameLater(s, k);
      case _ =>
    }
  }

  lemma {:induction false} BllIsTame(e: Element, k: nat)
    requires IsBll(e)
    ensures Tame(e, k)
    decreases e
  {
    if e.Cons? {
      BllIsTame(e.left, k);
      BllIsTame(e.right, k);
    }
  }

  lemma {:induction false} CarryTame(n: nat, v: Element, trees: seq<Element>, k: nat)
    requires Tame(v, k) && AllTame(trees, k) && |trees| == Ones(n)
    ensures AllTame(Carry(n, v, trees), k) && |Carry(n, v, trees)| == Ones(n + 1)
    decreases |trees|
  {
    hide TameBound;
    assert Tame(v, k) && (trees != [] ==> Tame(trees[0], k));
    if n % 2 == 1 && trees != [] {
      CarryTame(n / 2, Cons(trees[0], v), trees[1..], k);
    }
  }

  lemma {:induction false} GatherTame(tree: Element, rest: seq<Element>, k: nat)
    requires Tame(tree, k) && AllTame(rest, k)
    ensures Tame(Gather(tree, rest), k)
    decreases |rest|
  {
    if rest != [] {
      GatherTame(Cons(rest[0], tree), rest[1..], k);
    }
  }

  /** The opcodes not described here build no counters of their own. */
  ghost predicate Harmless(o: Oracle) {
    && (forall n, s, a, k :: Tame(s, k) && Tame(a, k) && o.feed(n, s, a).value.Some? ==>
        Tame(o.feed(n, s, a).value.value, k))
    && (forall n, s, k :: Tame(s, k) && o.done(n, s).value.Some? ==> Tame(o.done(n, s).value.value, k))
  }

  lemma FeedTame(o: Oracle, b: Bound, arg: Element, k: nat)
    requires Harmless(o) && TameBound(b, k) && Tame(arg, k)
    ensures var r := Feed(o, b, arg); r.value.Next? ==> TameBound(r.value.bound, k + r.cost)
  {
    hide Carry, MulFoldWork, BytesToInt, IntToBytes, LexLess, Compare;
    TameLater(arg, k);
    TameBoundLater(b, k);
    match b {
      case Counter(n, trees) => CounterTame(n, trees, arg, k);
      case Collect(_, _) => assert TameBound(b, k + FIX_COLLECT);
      case Spine(_) => assert TameBound(b, k + RC_ARG) && Tame(arg, k + RC_ARG);
      case SameTree(tree) =>
        var c := FeedSameTree(tree, arg).cost;
        assert TameBound(b, k + c) && Tame(arg, k + c);
      case External(num, s) =>
        var r := o.feed(num, s, arg);
        if r.value.Some? {
          TameLater(r.value.value, k);
        }
      case _ =>
    }
  }

  lemma CounterTame(n: nat, trees: seq<Element>, arg: Element, k: nat)
    requires TameBound(Counter(n, trees), k) && Tame(arg, k)
    ensures TameBound(Counter(n + 1, Carry(n, arg, trees)), k + B_ARG)
  {
    hide Carry, Ones;
    CarryTame(n, arg, trees, k);
    var r := Carry(n, arg, trees);
    forall i | 0 <= i < |r|
      ensures Tame(r[i], k + B_ARG)
    {
      TameLater(r[i], k);
    }
  }

  lemma {:induction false} DecodeTame(b: Bytes, i: nat, rates: Codec.Rates, k: nat)
    requires i <= |b|
    ensures Codec.Decode(b, i, rates).value.Got? ==> Tame(Codec.Decode(b, i, rates).value.e, k)
    decreases |b| - i
  {
    if i < |b| && b[i] == 0xff {
      DecodeTame(b, i + 1, rates, k);
      var l := Codec.Decode(b, i + 1, rates).value;
      if l.Got? {
        DecodeTame(b, l.next, rates, k);
      }
    }
  }

  lemma FinishTame(o: Oracle, b: Bound, k: nat)
    requires Harmless(o) && TameBound(b, k)
    ensures Finish(o, b).value.Value? ==> Tame(Finish(o, b).value.value, k)
  {
    hide Codec.Decode, BytesToInt, IntToBytes;
    match b {
      case Collect(op, args) =>
        if op.OpRd? && MinArgs(op) <= |args| && args[0].Atom? {
          DecodeTame(args[0].bytes, 0, RD_RATES, k);
        }
      case Counter(_, trees) =>
        if trees != [] {
          GatherTame(trees[0], trees[1..], k);
        }
      case _ =>
    }
  }

  // ----- how many trees -----

  lemma {:induction false} OnesBound(n: nat)
    ensures Pow2(Ones(n)) <= n + 1
  {
    if n > 0 {
      OnesBound(n / 2);
    }
  }

  /** A counter that a block's largest budget can pay for has at most 22 trees. */
  lemma FewTrees(n: nat)
    requires B_ARG * n <= BUDGET_MAX
    ensures Ones(n) <= 22
  {
    OnesBound(n);
    if Ones(n) >= 23 {
      Pow2Below(23, Ones(n));
      assert Pow2(23) == 0x80_0000 by {
        assert Pow2(8) == 0x100;
        assert Pow2(16) == 0x1_0000;
      }
    }
  }
}
