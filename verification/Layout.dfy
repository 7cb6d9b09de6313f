/** Environment layout: three independent algorithms agree on where the i-th
    binding lives. SymbolIndex (symbll.py) assigns positions, the b opcode
    (opcodes.py) builds the tree, and ResolveEnv (bll.py) walks it. */
module Layout {
  import opened Elements
  import opened Opcodes
  import opened Machine

  // ----- SymbolIndex -----

  /** A name with its position inside its group. */
  datatype Entry = Entry(name: string, pos: nat)

  /** Names merged into one subtree, with their count. */
  datatype Group = Group(count: nat, entries: seq<Entry>)

  function Lefts(es: seq<Entry>): (r: seq<Entry>)
    ensures |r| == |es| && forall i | 0 <= i < |es| :: r[i] == Entry(es[i].name, 2 * es[i].pos)
  {
    seq(|es|, i requires 0 <= i < |es| => Entry(es[i].name, 2 * es[i].pos))
  }

  function Rights(es: seq<Entry>): (r: seq<Entry>)
    ensures |r| == |es| && forall i | 0 <= i < |es| :: r[i] == Entry(es[i].name, 2 * es[i].pos + 1)
  {
    seq(|es|, i requires 0 <= i < |es| => Entry(es[i].name, 2 * es[i].pos + 1))
  }

  /** SymbolIndex.add: equal-sized groups merge, the older one to the left.
      Groups are listed newest first. */
  function Insert(groups: seq<Group>, g: Group): seq<Group>
    decreases |groups|
  {
    if groups != [] && groups[0].count == g.count then
      Insert(groups[1..], Group(2 * g.count, Lefts(groups[0].entries) + Rights(g.entries)))
    else [g] + groups
  }

  function GroupsOf(names: seq<string>): seq<Group> {
    if names == [] then []
    else Insert(GroupsOf(names[..|names| - 1]), Group(1, [Entry(names[|names| - 1], 1)]))
  }

  /** SymbolIndex.finish: the newest group ends up deepest on the right. */
  function Join(es: seq<Entry>, older: seq<Group>): seq<Entry>
    decreases |older|
  {
    if older == [] then es else Join(Lefts(older[0].entries) + Rights(es), older[1..])
  }

  function EntriesOf(names: seq<string>): seq<Entry> {
    var groups := GroupsOf(names);
    if groups == [] then [] else Join(groups[0].entries, groups[1..])
  }

  /** The highest power of two not above the offset. */
  function TopBit(offset: nat): nat {
    if offset <= 1 then 1 else 2 * TopBit(offset / 2)
  }

  /** A position moved below the node at the given offset. */
  function Place(pos: nat, offset: nat): int {
    pos * TopBit(offset) + (offset - TopBit(offset))
  }

  // ----- the b opcode -----

  function Trees(values: seq<Element>): seq<Element> {
    if values == [] then []
    else Carry(|values| - 1, values[|values| - 1], Trees(values[..|values| - 1]))
  }

  /** The environment tree of a list of values: what b delivers. */
  function TreeOf(values: seq<Element>): Element {
    var trees := Trees(values);
    if trees == [] then Nil else Gather(trees[0], trees[1..])
  }

  // ----- agreement -----

  /** Every entry's position leads to the value of its name. */
  ghost predicate Leads(tree: Element, es: seq<Entry>, values: map<string, Element>) {
    forall i | 0 <= i < |es| ::
      && es[i].pos >= 1
      && es[i].name in values
      && Walk(tree, es[i].pos).value == Value(values[es[i].name])
  }

  /** Below a pair a position continues on the side its lowest bit names. */
  lemma WalkDown(left: Element, right: Element, pos: nat)
    requires pos >= 1
    ensures Walk(Cons(left, right), 2 * pos).value == Walk(left, pos).value
    ensures Walk(Cons(left, right), 2 * pos + 1).value == Walk(right, pos).value
  {
    hide Walk;
    WalkOne(Cons(left, right), 2 * pos);
    WalkOne(Cons(left, right), 2 * pos + 1);
  }

  lemma WalkOne(env: Element, idx: int)
    requires env.Cons? && idx > 1
    ensures Walk(env, idx).value == Walk(if idx % 2 == 0 then env.left else env.right, idx / 2).value
  {
  }

  lemma LeadsJoin(left: Element, ls: seq<Entry>, right: Element, rs: seq<Entry>, values: map<string, Element>)
    requires Leads(left, ls, values) && Leads(right, rs, values)
    ensures Leads(Cons(left, right), Lefts(ls) + Rights(rs), values)
  {
    hide Walk;
    var es, tree := Lefts(ls) + Rights(rs), Cons(left, right);
    forall i | 0 <= i < |es|
      ensures es[i].pos >= 1 && es[i].name in values && Walk(tree, es[i].pos).value == Value(values[es[i].name])
    {
      if i < |ls| {
        assert es[i] == Entry(ls[i].name, 2 * ls[i].pos);
        WalkDown(left, right, ls[i].pos);
      } else {
        assert es[i] == Entry(rs[i - |ls|].name, 2 * rs[i - |ls|].pos + 1);
        WalkDown(left, right, rs[i - |ls|].pos);
      }
    }
  }

  /** The groups are the set bits of the count, smallest first. */
  ghost predicate Binary(n: nat, groups: seq<Group>, size: nat)
    decreases n
  {
    if n == 0 then groups == []
    else if n % 2 == 1 then groups != [] && groups[0].count == size && Binary(n / 2, groups[1..], 2 * size)
    else Binary(n / 2, groups, 2 * size)
  }

  lemma {:induction false} BinaryLarge(n: nat, groups: seq<Group>, size: nat)
    requires Binary(n, groups, size) && size >= 1
    ensures groups != [] ==> groups[0].count >= size
    decreases n
  {
    if n > 0 && n % 2 == 0 {
      BinaryLarge(n / 2, groups, 2 * size);
    }
  }

  /** Trees and groups in step. */
  ghost predicate Match(trees: seq<Element>, groups: seq<Group>, values: map<string, Element>) {
    |trees| == |groups| && forall i | 0 <= i < |trees| :: Leads(trees[i], groups[i].entries, values)
  }

  /** The carry of the binary counter and the merge of equal-sized groups are
      the same walk over the set bits. */
  lemma {:induction false} CarryIsInsert(n: nat, v: Element, trees: seq<Element>, groups: seq<Group>, g: Group,
                                         values: map<string, Element>)
    requires g.count >= 1 && Binary(n, groups, g.count)
    requires Match(trees, groups, values) && Leads(v, g.entries, values)
    ensures Match(Carry(n, v, trees), Insert(groups, g), values)
    ensures Binary(n + 1, Insert(groups, g), g.count)
    decreases n
  {
    if n % 2 == 1 {
      var merged := Group(2 * g.count, Lefts(groups[0].entries) + Rights(g.entries));
      LeadsJoin(trees[0], groups[0].entries, v, g.entries, values);
      CarryIsInsert(n / 2, Cons(trees[0], v), trees[1..], groups[1..], merged, values);
      assert (n + 1) / 2 == n / 2 + 1;
    } else {
      BinaryLarge(n / 2, groups, 2 * g.count);
      assert Insert(groups, g) == [g] + groups;
      assert ([g] + groups)[1..] == groups;
      assert (n + 1) / 2 == n / 2;
      CarryEven(n, v, trees);
    }
  }

  lemma CarryEven(n: nat, v: Element, trees: seq<Element>)
    requires n % 2 == 0
    ensures Carry(n, v, trees) == [v] + trees
  {
  }

  /** The names bound to the values, in order. */
  ghost predicate Bound(names: seq<string>, list: seq<Element>, values: map<string, Element>) {
    && |names| == |list|
    && forall i | 0 <= i < |names| :: names[i] in values && values[names[i]] == list[i]
  }

  lemma {:induction false} TreesMatchGroups(names: seq<string>, list: seq<Element>, values: map<string, Element>)
    requires Bound(names, list, values)
    ensures Match(Trees(list), GroupsOf(names), values)
    ensures Binary(|names|, GroupsOf(names), 1)
  {
    if names != [] {
      var last := |names| - 1;
      TreesMatchGroups(names[..last], list[..last], values);
      CarryIsInsert(last, list[last], Trees(list[..last]), GroupsOf(names[..last]),
                    Group(1, [Entry(names[last], 1)]), values);
    }
  }

  lemma {:induction false} GatherMatchesJoin(tree: Element, rest: seq<Element>, es: seq<Entry>, older: seq<Group>,
                                             values: map<string, Element>)
    requires Leads(tree, es, values) && Match(rest, older, values)
    ensures Leads(Gather(tree, rest), Join(es, older), values)
    decreases |rest|
  {
    if rest != [] {
      LeadsJoin(rest[0], older[0].entries, tree, es, values);
      GatherMatchesJoin(Cons(rest[0], tree), rest[1..], Lefts(older[0].entries) + Rights(es), older[1..], values);
    }
  }

  /** Walking the b-tree at the index SymbolIndex assigns to a name yields that
      name's value, for any number of names. */
  lemma LayoutAgrees(names: seq<string>, list: seq<Element>, values: map<string, Element>)
    requires Bound(names, list, values)
    ensures Leads(TreeOf(list), EntriesOf(names), values)
  {
    TreesMatchGroups(names, list, values);
    var trees, groups := Trees(list), GroupsOf(names);
    if groups != [] {
      GatherMatchesJoin(trees[0], trees[1..], groups[0].entries, groups[1..], values);
    }
  }

  // ----- every name is indexed -----

  ghost predicate Names(es: seq<Entry>, name: string) {
    exists i | 0 <= i < |es| :: es[i].name == name
  }

  ghost predicate InGroups(groups: seq<Group>, name: string) {
    exists i | 0 <= i < |groups| :: Names(groups[i].entries, name)
  }

  lemma NamesJoin(ls: seq<Entry>, rs: seq<Entry>, name: string)
    ensures Names(Lefts(ls) + Rights(rs), name) <==> Names(ls, name) || Names(rs, name)
  {
    var es := Lefts(ls) + Rights(rs);
    if i :| 0 <= i < |ls| && ls[i].name == name {
      assert es[i].name == name;
    }
    if i :| 0 <= i < |rs| && rs[i].name == name {
      assert es[|ls| + i].name == name;
    }
    if i :| 0 <= i < |es| && es[i].name == name {
      if i < |ls| {
        assert ls[i].name == name;
      } else {
        assert rs[i - |ls|].name == name;
      }
    }
  }

  lemma InGroupsCons(groups: seq<Group>, name: string)
    requires groups != []
    ensures InGroups(groups, name) <==> Names(groups[0].entries, name) || InGroups(groups[1..], name)
  {
    if i :| 0 <= i < |groups| && Names(groups[i].entries, name) {
      if i > 0 {
        assert groups[1..][i - 1] == groups[i];
      }
    }
    if i :| 0 <= i < |groups[1..]| && Names(groups[1..][i].entries, name) {
      assert groups[i + 1] == groups[1..][i];
    }
  }

  lemma {:induction false} InsertNames(groups: seq<Group>, g: Group, name: string)
    ensures InGroups(Insert(groups, g), name) <==> InGroups(groups, name) || Names(g.entries, name)
    decreases |groups|
  {
    if groups != [] && groups[0].count == g.count {
      NamesJoin(groups[0].entries, g.entries, name);
      InsertNames(groups[1..], Group(2 * g.count, Lefts(groups[0].entries) + Rights(g.entries)), name);
      InGroupsCons(groups, name);
    } else {
      InGroupsCons([g] + groups, name);
      assert ([g] + groups)[1..] == groups;
    }
  }

  lemma {:induction false} JoinNames(es: seq<Entry>, older: seq<Group>, name: string)
    ensures Names(Join(es, older), name) <==> Names(es, name) || InGroups(older, name)
    decreases |older|
  {
    if older != [] {
      NamesJoin(older[0].entries, es, name);
      JoinNames(Lefts(older[0].entries) + Rights(es), older[1..], name);
      InGroupsCons(older, name);
    }
  }

  lemma {:induction false} GroupsOfNames(names: seq<string>, name: string)
    ensures InGroups(GroupsOf(names), name) <==> name in names
  {
    if names != [] {
      var init, last := names[..|names| - 1], names[|names| - 1];
      assert names == init + [last];
      GroupsOfNames(init, name);
      var g := Group(1, [Entry(last, 1)]);
      assert g.entries[0].name == last;
      InsertNames(GroupsOf(init), g, name);
    }
  }

  /** SymbolIndex knows exactly the names it was given. */
  lemma IndexedNames(names: seq<string>, name: string)
    ensures Names(EntriesOf(names), name) <==> name in names
  {
    GroupsOfNames(names, name);
    var groups := GroupsOf(names);
    if groups != [] {
      InGroupsCons(groups, name);
      JoinNames(groups[0].entries, groups[1..], name);
    }
  }

  // ----- offsets -----

  lemma {:induction false} TopBitBelow(offset: nat)
    requires offset >= 1
    ensures 1 <= TopBit(offset) <= offset
  {
    if offset > 1 {
      TopBitBelow(offset / 2);
    }
  }

  /** Place, one bit of the offset at a time. */
  lemma PlaceStep(pos: nat, offset: nat)
    requires offset >= 2
    ensures Place(pos, offset) == 2 * Place(pos, offset / 2) + offset % 2
  {
    var t := TopBit(offset / 2);
    assert pos * (2 * t) == 2 * (pos * t);
  }

  lemma {:induction false} PlacePositive(pos: nat, offset: nat)
    requires pos >= 1 && offset >= 1
    ensures Place(pos, offset) >= 1
    decreases offset
  {
    if offset > 1 {
      PlaceStep(pos, offset);
      PlacePositive(pos, offset / 2);
    }
  }

  /** Walking to a placed position is walking the offset, then the position. */
  lemma {:induction false} WalkPlace(env: Element, node: Element, pos: nat, offset: nat)
    requires pos >= 1 && offset >= 1
    requires Walk(env, offset).value == Value(node)
    ensures Place(pos, offset) >= 1
    ensures Walk(env, Place(pos, offset)).value == Walk(node, pos).value
    decreases offset
  {
    PlacePositive(pos, offset);
    if offset > 1 {
      PlaceStep(pos, offset);
      PlacePositive(pos, offset / 2);
      var next := if offset % 2 == 0 then env.left else env.right;
      WalkPlace(next, node, pos, offset / 2);
      var idx := Place(pos, offset);
      assert idx / 2 == Place(pos, offset / 2) && idx % 2 == offset % 2;
    } else {
      assert Place(pos, 1) == pos;
    }
  }
}
