/** The opcodes of opcodes.py that work in loops, charging as they go: each loop
    is proved against the fold of `Opcodes` it implements. */
module OpcodeLoops {
  import opened Costs
  import opened Budgets
  import opened Elements
  import opened Opcodes
  import opened Evaluator

  /** op_b.binop: the binary counter's carry. None when the charge failed. */
  method AddLeaf(budget: Budget, n: nat, trees: seq<Element>, arg: Element)
    returns (r: Option<(nat, seq<Element>)>)
    requires budget.Valid()
    modifies budget
    ensures budget.Valid() && budget.View() == Costs.Charge(old(budget.View()), B_ARG)
    ensures r == if budget.Latched() then None else Some((n + 1, Carry(n, arg, trees)))
  {
    var ok := budget.Charge(B_ARG);
    if !ok {
      return None;
    }
    var i, v, m := n, arg, trees;
    while i % 2 == 1 && m != []
      invariant Carry(i, v, m) == Carry(n, arg, trees)
      decreases |m|
    {
      i := i / 2;
      v := Cons(m[0], v);
      m := m[1..];
    }
    return Some((n + 1, [v] + m));
  }

  /** op_b.finish: every escaping cons is charged before it is built. */
  method FoldTrees(budget: Budget, trees: seq<Element>) returns (r: Option<Element>)
    requires budget.Valid() && !budget.Latched() && trees != []
    modifies budget
    ensures budget.Valid()
    ensures Alike(budget.View(), Costs.Charge(old(budget.View()), ELEMENT_ALLOC * (|trees| - 1)))
    ensures r == if budget.Latched() then None else Some(Gather(trees[0], trees[1..]))
  {
    hide Costs.Charge;
    var l, rest := trees[0], trees[1..];
    ghost var start, spent: nat := budget.View(), 0;
    ChargeNothing(start);
    while rest != []
      invariant budget.Valid() && !budget.Latched()
      invariant budget.View() == Costs.Charge(start, spent)
      invariant spent + ELEMENT_ALLOC * |rest| == ELEMENT_ALLOC * (|trees| - 1)
      invariant Gather(l, rest) == Gather(trees[0], trees[1..])
      decreases |rest|
    {
      ChargeMore(start, spent, ELEMENT_ALLOC);
      ChargeMore(start, spent + ELEMENT_ALLOC, ELEMENT_ALLOC * (|rest| - 1));
      var ok := budget.Charge(ELEMENT_ALLOC);
      if !ok {
        return None;
      }
      spent := spent + ELEMENT_ALLOC;
      l := Cons(rest[0], l);
      rest := rest[1..];
    }
    return Some(l);
  }

  /** Comparing the pairs of a work list, the last one first, until one differs. */
  ghost function CompareAll(pairs: seq<(Element, Element)>): Metered<Comparison> {
    if pairs == [] then Metered(0, Equal)
    else
      var last := pairs[|pairs| - 1];
      var r := Compare(last.0, last.1);
      if r.value != Equal then r
      else
        var rest := CompareAll(pairs[..|pairs| - 1]);
        Metered(r.cost + rest.cost, rest.value)
  }

  /** A pair of pairs is its two halves on the work list, the right one on top. */
  lemma CompareSplits(init: seq<(Element, Element)>, a: Element, b: Element)
    requires a.Cons? && b.Cons?
    ensures var split := CompareAll(init + [(a.left, b.left), (a.right, b.right)]);
      CompareAll(init + [(a, b)]) == Metered(BIGEQ_PER_NODE + split.cost, split.value)
  {
    var one, two := init + [(a.left, b.left)], init + [(a.left, b.left), (a.right, b.right)];
    assert (init + [(a, b)])[..|init|] == init && one[..|init|] == init && two[..|init| + 1] == one;
  }

  /** What the top pair of a work list leads to. */
  lemma CompareTop(init: seq<(Element, Element)>, a: Element, b: Element)
    ensures var all, rest := CompareAll(init + [(a, b)]), CompareAll(init);
      if a.Func? || b.Func? then all == Metered(BIGEQ_PER_NODE, Unexaminable)
      else if a.Cons? && b.Cons? then
        var split := CompareAll(init + [(a.left, b.left), (a.right, b.right)]);
        all == Metered(BIGEQ_PER_NODE + split.cost, split.value)
      else if a.Cons? || b.Cons? || |a.bytes| != |b.bytes| then all == Metered(BIGEQ_PER_NODE, Unequal)
      else
        var scan := COMPARE_PER_BYTE * |a.bytes|;
        all == if a == b then Metered(BIGEQ_PER_NODE + scan + rest.cost, rest.value)
               else Metered(BIGEQ_PER_NODE + scan, Unequal)
  {
    assert (init + [(a, b)])[..|init|] == init;
    if a.Cons? && b.Cons? {
      CompareSplits(init, a, b);
    }
  }

  /** How many nodes of its left trees a work list has yet to visit, at most. */
  ghost function Pending(pairs: seq<(Element, Element)>): nat {
    if pairs == [] then 0 else Pending(pairs[..|pairs| - 1]) + Nodes(pairs[|pairs| - 1].0)
  }

  lemma PendingSplits(init: seq<(Element, Element)>, a: Element, b: Element)
    requires a.Cons? && b.Cons?
    ensures Pending(init + [(a.left, b.left), (a.right, b.right)]) == Pending(init) + Nodes(a) - 1
  {
    var one, two := init + [(a.left, b.left)], init + [(a.left, b.left), (a.right, b.right)];
    assert one[..|init|] == init && two[..|init| + 1] == one;
  }

  /** op_bigeq's walk: node pairs on an explicit work list, each charged before
      it is examined, the bytes of equal-width atoms before they are read. */
  method CompareTrees(budget: Budget, left: Element, right: Element) returns (r: Option<Comparison>)
    requires budget.Valid() && !budget.Latched()
    modifies budget
    ensures budget.Valid()
    ensures Alike(budget.View(), Costs.Charge(old(budget.View()), Compare(left, right).cost))
    ensures r == if budget.Latched() then None else Some(Compare(left, right).value)
  {
    hide Costs.Charge, Pending, Compare, CompareAll;
    CompareOne(left, right);
    var chk := [(left, right)];
    ghost var start, spent: nat := budget.View(), 0;
    ChargeNothing(start);
    while chk != []
      invariant budget.Valid() && !budget.Latched()
      invariant budget.View() == Costs.Charge(start, spent)
      invariant Compare(left, right) == Metered(spent + CompareAll(chk).cost, CompareAll(chk).value)
      decreases Pending(chk)
    {
      ghost var whole := CompareAll(chk);
      PendingPop(chk);
      assert chk == chk[..|chk| - 1] + [chk[|chk| - 1]];
      CompareTop(chk[..|chk| - 1], chk[|chk| - 1].0, chk[|chk| - 1].1);
      ChargeMore(start, spent, BIGEQ_PER_NODE);
      ChargeMore(start, spent + BIGEQ_PER_NODE, whole.cost - BIGEQ_PER_NODE);
      var ok := budget.Charge(BIGEQ_PER_NODE);
      if !ok {
        return None;
      }
      spent := spent + BIGEQ_PER_NODE;
      var (a, b) := chk[|chk| - 1];
      chk := chk[..|chk| - 1];
      if a.Func? || b.Func? {
        return Some(Unexaminable);
      } else if a.Atom? {
        if !b.Atom? || |a.bytes| != |b.bytes| {
          return Some(Unequal);
        }
        var scan := COMPARE_PER_BYTE * |a.bytes|;
        ChargeMore(start, spent, scan);
        ChargeMore(start, spent + scan, whole.cost - BIGEQ_PER_NODE - scan);
        ok := budget.Charge(scan);
        if !ok {
          return None;
        }
        spent := spent + scan;
        if a.bytes != b.bytes {
          return Some(Unequal);
        }
      } else if b.Atom? {
        return Some(Unequal);
      } else {
        PendingSplits(chk, a, b);
        chk := chk + [(a.left, b.left), (a.right, b.right)];
      }
    }
    return Some(Equal);
  }

  lemma CompareOne(a: Element, b: Element)
    ensures CompareAll([(a, b)]) == Compare(a, b)
    ensures CompareAll([]) == Metered(0, Equal)
  {
    hide Compare;
  }

  lemma PendingPop(pairs: seq<(Element, Element)>)
    requires pairs != []
    ensures Pending(pairs) == Pending(pairs[..|pairs| - 1]) + Nodes(pairs[|pairs| - 1].0)
  {
  }
}
