/** The tree of n values has n places, whatever the depth at which an index of
    fewer names looks for them: some name then finds a pair. */
module Coverage {
  import opened Elements
  import opened Opcodes
  import opened Machine
  import opened Layout

  function Leaves(t: Element): nat {
    if t.Cons? then Leaves(t.left) + Leaves(t.right) else 1
  }

  predicate FindsPair(t: Element, pos: nat) {
    var r := Walk(t, pos).value;
    r.Value? && r.value.Cons?
  }

  /** No entry leads to a pair. */
  predicate Shallow(t: Element, es: seq<Entry>) {
    forall i | 0 <= i < |es| :: !FindsPair(t, es[i].pos)
  }

  /** The entries' positions leave no part of a tree out. */
  ghost predicate Covers(es: seq<Entry>) {
    forall t: Element :: CoversTree(t, es)
  }

  predicate CoversTree(t: Element, es: seq<Entry>) {
    && es != []
    && (forall i | 0 <= i < |es| :: es[i].pos >= 1)
    && (Shallow(t, es) ==> Leaves(t) <= |es|)
  }

  lemma OneCovers(name: string)
    ensures Covers([Entry(name, 1)])
  {
    var es := [Entry(name, 1)];
    forall t: Element
      ensures CoversTree(t, es)
    {
      assert Walk(t, 1).value == Value(t);
      assert Shallow(t, es) ==> !FindsPair(t, es[0].pos);
    }
  }

  lemma JoinCovers(ls: seq<Entry>, rs: seq<Entry>)
    requires Covers(ls) && Covers(rs)
    ensures Covers(Lefts(ls) + Rights(rs))
  {
    hide Walk;
    var es := Lefts(ls) + Rights(rs);
    assert CoversTree(Nil, ls) && CoversTree(Nil, rs);
    forall t: Element
      ensures CoversTree(t, es)
    {
      if t.Cons? && Shallow(t, es) {
        forall i | 0 <= i < |ls|
          ensures !FindsPair(t.left, ls[i].pos)
        {
          assert !FindsPair(t, es[i].pos);
          WalkDown(t.left, t.right, ls[i].pos);
        }
        forall i | 0 <= i < |rs|
          ensures !FindsPair(t.right, rs[i].pos)
        {
          assert !FindsPair(t, es[|ls| + i].pos);
          WalkDown(t.left, t.right, rs[i].pos);
        }
        assert CoversTree(t.left, ls) && CoversTree(t.right, rs);
      }
    }
  }

  function Total(groups: seq<Group>): nat {
    if groups == [] then 0 else |groups[0].entries| + Total(groups[1..])
  }

  ghost predicate AllCover(groups: seq<Group>) {
    forall i | 0 <= i < |groups| :: Covers(groups[i].entries)
  }

  lemma {:induction false} InsertCovers(groups: seq<Group>, g: Group)
    requires AllCover(groups) && Covers(g.entries)
    ensures AllCover(Insert(groups, g)) && Total(Insert(groups, g)) == Total(groups) + |g.entries|
    decreases |groups|
  {
    hide Covers;
    if groups != [] && groups[0].count == g.count {
      JoinCovers(groups[0].entries, g.entries);
      InsertCovers(groups[1..], Group(2 * g.count, Lefts(groups[0].entries) + Rights(g.entries)));
    } else {
      assert ([g] + groups)[1..] == groups;
    }
  }

  lemma {:induction false} GroupsCover(names: seq<string>)
    ensures AllCover(GroupsOf(names)) && Total(GroupsOf(names)) == |names|
    decreases |names|
  {
    hide Covers;
    if names != [] {
      var last := names[|names| - 1];
      GroupsCover(names[..|names| - 1]);
      OneCovers(last);
      InsertCovers(GroupsOf(names[..|names| - 1]), Group(1, [Entry(last, 1)]));
    }
  }

  lemma {:induction false} FoldCovers(es: seq<Entry>, older: seq<Group>)
    requires Covers(es) && AllCover(older)
    ensures Covers(Join(es, older)) && |Join(es, older)| == |es| + Total(older)
    decreases |older|
  {
    hide Covers;
    if older != [] {
      JoinCovers(older[0].entries, es);
      FoldCovers(Lefts(older[0].entries) + Rights(es), older[1..]);
    }
  }

  /** An index of some names covers every tree, one entry for each. */
  lemma EntriesCover(names: seq<string>)
    requires names != []
    ensures Covers(EntriesOf(names)) && |EntriesOf(names)| == |names|
  {
    hide Covers;
    GroupsCover(names);
    var groups := GroupsOf(names);
    FoldCovers(groups[0].entries, groups[1..]);
  }

  // ----- the tree of n values -----

  predicate Flat(values: seq<Element>) {
    forall i | 0 <= i < |values| :: !values[i].Cons?
  }

  function AllLeaves(trees: seq<Element>): nat {
    if trees == [] then 0 else Leaves(trees[0]) + AllLeaves(trees[1..])
  }

  lemma {:induction false} CarryLeaves(n: nat, v: Element, trees: seq<Element>)
    ensures AllLeaves(Carry(n, v, trees)) == Leaves(v) + AllLeaves(trees)
    decreases |trees|
  {
    if n % 2 == 1 && trees != [] {
      CarryLeaves(n / 2, Cons(trees[0], v), trees[1..]);
    } else {
      assert ([v] + trees)[1..] == trees;
    }
  }

  lemma {:induction false} TreesLeaves(values: seq<Element>)
    requires Flat(values)
    ensures AllLeaves(Trees(values)) == |values|
    decreases |values|
  {
    if values != [] {
      var last := |values| - 1;
      TreesLeaves(values[..last]);
      CarryLeaves(last, values[last], Trees(values[..last]));
    }
  }

  lemma {:induction false} GatherLeaves(tree: Element, rest: seq<Element>)
    ensures Leaves(Gather(tree, rest)) == Leaves(tree) + AllLeaves(rest)
    decreases |rest|
  {
    if rest != [] {
      GatherLeaves(Cons(rest[0], tree), rest[1..]);
    }
  }

  lemma TreeLeaves(values: seq<Element>)
    requires values != [] && Flat(values)
    ensures Leaves(TreeOf(values)) == |values|
  {
    TreesLeaves(values);
    var trees := Trees(values);
    GatherLeaves(trees[0], trees[1..]);
  }

  /** With more values than names, some name finds a pair of values. */
  lemma SomePair(names: seq<string>, values: seq<Element>) returns (i: nat)
    requires names != [] && |names| < |values| && Flat(values)
    ensures i < |EntriesOf(names)| && EntriesOf(names)[i].pos >= 1
    ensures FindsPair(TreeOf(values), EntriesOf(names)[i].pos)
  {
    hide EntriesOf, TreeOf, FindsPair, Leaves;
    EntriesCover(names);
    TreeLeaves(values);
    assert CoversTree(TreeOf(values), EntriesOf(names));
    assert !Shallow(TreeOf(values), EntriesOf(names));
    i :| 0 <= i < |EntriesOf(names)| && FindsPair(TreeOf(values), EntriesOf(names)[i].pos);
  }
}
