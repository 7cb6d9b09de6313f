/** The reference-counted element heap of element.py: which elements are live, how
    often each is referenced, and the allocator's account of their sizes. */
module Heap {

  /** Atoms, errors and symbols store bytes; a function object refers to its state
      alone. */
  datatype Content = Store(length: nat) | Pair(left: Node, right: Node) | Func(state: Node)

  /** An element object. Only its count ever changes. */
  class Node {
    const content: Content
    /** The allocation counter at its construction. */
    const serial: nat
    var refcnt: nat

    constructor (content: Content, serial: nat)
      ensures this.content == content && this.serial == serial && refcnt == 1
    {
      this.content := content;
      this.serial := serial;
      refcnt := 1;
    }

    function AllocSize(): nat {
      match content
      case Store(length) => 24 + 16 + (length + 15) / 16 * 16
      case Pair(_, _) => 24
      case Func(_) => 24
    }

    function Children(): seq<Node> {
      match content
      case Store(_) => []
      case Pair(l, r) => [l, r]
      case Func(state) => [state]
    }
  }

  /** The references held by the elements of a set, counted. */
  ghost function Edges(live: set<Node>): multiset<Node> {
    if live == {} then multiset{}
    else
      var n :| n in live;
      multiset(n.Children()) + Edges(live - {n})
  }

  lemma {:induction false} EdgesWithout(live: set<Node>, n: Node)
    requires n in live
    ensures Edges(live) == multiset(n.Children()) + Edges(live - {n})
    decreases |live|
  {
    var m :| m in live && Edges(live) == multiset(m.Children()) + Edges(live - {m});
    if m != n {
      EdgesWithout(live - {m}, n);
      EdgesWithout(live - {n}, m);
      assert live - {m} - {n} == live - {n} - {m};
    }
  }

  lemma EdgeCounted(live: set<Node>, parent: Node, child: Node)
    requires parent in live && child in parent.Children()
    ensures child in Edges(live)
  {
    EdgesWithout(live, parent);
  }

  /** A counted edge comes from somewhere. */
  lemma {:induction false} EdgeOrigin(live: set<Node>, child: Node) returns (parent: Node)
    requires child in Edges(live)
    ensures parent in live && child in parent.Children()
    decreases |live|
  {
    var m :| m in live && Edges(live) == multiset(m.Children()) + Edges(live - {m});
    if child in m.Children() {
      parent := m;
    } else {
      parent := EdgeOrigin(live - {m}, child);
    }
  }

  ghost function Sizes(live: set<Node>): nat {
    if live == {} then 0
    else
      var n :| n in live;
      n.AllocSize() + Sizes(live - {n})
  }

  lemma {:induction false} SizesWithout(live: set<Node>, n: Node)
    requires n in live
    ensures Sizes(live) == n.AllocSize() + Sizes(live - {n})
    decreases |live|
  {
    var m :| m in live && Sizes(live) == m.AllocSize() + Sizes(live - {m});
    if m != n {
      SizesWithout(live - {m}, n);
      SizesWithout(live - {n}, m);
      assert live - {m} - {n} == live - {n} - {m};
    }
  }

  /** Every live element refers to older live elements only. */
  ghost predicate Closed(live: set<Node>) {
    forall n, c | n in live && c in n.Children() :: c in live && c.serial < n.serial
  }

  /** Every live element is referenced, as often as its count says, by live
      elements and by the given outstanding handles. */
  ghost predicate Counted(live: set<Node>, handles: multiset<Node>)
    reads live
  {
    && Closed(live)
    && (forall h | h in handles :: h in live)
    && (forall n | n in live :: n.refcnt > 0 && n.refcnt == Edges(live)[n] + handles[n])
  }

  /** Elements whose last reference is a pending release. */
  ghost predicate Last(stk: seq<Node>)
    reads stk
  {
    forall n | n in stk :: n.refcnt == 1
  }

  /** Giving up one of several references. */
  method Decrement(el: Node, ghost live: set<Node>, ghost handles: multiset<Node>)
    requires Counted(live, handles) && el in handles && el.refcnt > 1
    modifies el
    ensures Counted(live, handles - multiset{el})
    ensures el.refcnt >= 1
  {
    el.refcnt := el.refcnt - 1;
  }

  /** One more reference. */
  method Increment(el: Node, ghost live: set<Node>, ghost handles: multiset<Node>)
    requires Counted(live, handles) && el in live
    modifies el
    ensures Counted(live, handles + multiset{el})
  {
    el.refcnt := el.refcnt + 1;
  }

  lemma ChildrenLive(live: set<Node>, handles: multiset<Node>, el: Node)
    requires Counted(live, handles) && el in handles
    ensures el in live && forall c | c in el.Children() :: c in live && c != el
  {
    hide Edges;
  }

  lemma HandlesCounted(live: set<Node>, handles: multiset<Node>, hs: seq<Node>)
    requires Counted(live, handles) && multiset(hs) <= handles
    ensures forall h | h in hs :: h in live
  {
    assert forall h | h in hs :: h in multiset(hs);
  }

  /** deref_add_to_stack: gives up handles, leaving on the stack the elements of
      which the last one was given up. */
  method DerefAddToStack(stk: seq<Node>, els: seq<Node>, ghost live: set<Node>, ghost handles: multiset<Node>)
    returns (out: seq<Node>)
    requires Counted(live, handles + multiset(stk) + multiset(els)) && Last(stk)
    modifies live
    ensures Counted(live, handles + multiset(out)) && Last(out)
  {
    hide Counted;
    out := stk;
    assert els[0..] == els;
    for i := 0 to |els|
      invariant Counted(live, handles + multiset(out) + multiset(els[i..])) && Last(out)
    {
      var el := els[i];
      ghost var pending := handles + multiset(out) + multiset(els[i..]);
      assert els[i..] == [el] + els[i + 1..];
      HandleCounted(live, pending, el);
      if el.refcnt <= 1 {
        out := out + [el];
        assert pending == handles + multiset(out) + multiset(els[i + 1..]);
      } else {
        Decrement(el, live, pending);
        assert pending - multiset{el} == handles + multiset(out) + multiset(els[i + 1..]);
      }
    }
    assert els[|els|..] == [];
    assert handles + multiset(out) + multiset{} == handles + multiset(out);
  }

  lemma HandleCounted(live: set<Node>, handles: multiset<Node>, h: Node)
    requires Counted(live, handles) && h in handles
    ensures h in live && h.refcnt == Edges(live)[h] + handles[h] > 0
  {
  }

  /** Taking an element out of the heap turns the references it held into handles
      and leaves every count right. */
  lemma CountsWithout(live: set<Node>, handles: multiset<Node>, el: Node, n: Node)
    requires el in live && el in handles && n != el
    ensures Edges(live)[n] + handles[n]
         == Edges(live - {el})[n] + (handles - multiset{el} + multiset(el.Children()))[n]
  {
    EdgesWithout(live, el);
  }

  /** Nothing refers to an element whose only reference is a handle. */
  lemma Unreferenced(live: set<Node>, handles: multiset<Node>, el: Node)
    requires Counted(live, handles) && el in handles && el.refcnt == 1
    ensures el in live && el !in handles - multiset{el}
    ensures Closed(live - {el})
  {
    hide Edges;
    forall n, c | n in live && c in n.Children()
      ensures c != el
    {
      EdgeCounted(live, n, c);
    }
  }

  /** An element whose last reference is released leaves the heap, and the
      references it held become releases. */
  lemma LastReleased(live: set<Node>, handles: multiset<Node>, el: Node)
    requires Counted(live, handles) && el in handles && el.refcnt == 1
    ensures el in live
    ensures Counted(live - {el}, handles - multiset{el} + multiset(el.Children()))
  {
    hide Edges;
    Unreferenced(live, handles, el);
    ChildrenLive(live, handles, el);
    hide Closed;
    var rest, refs := live - {el}, handles - multiset{el} + multiset(el.Children());
    forall n | n in rest
      ensures n.refcnt > 0 && n.refcnt == Edges(rest)[n] + refs[n]
    {
      CountsWithout(live, handles, el, n);
    }
    forall h | h in refs
      ensures h in rest
    {
      assert h in handles - multiset{el} || h in el.Children();
    }
  }

  // ----- what stays referenced -----

  ghost function Younger(live: set<Node>, n: Node): set<Node> {
    set m | m in live && m.serial > n.serial
  }

  lemma YoungerShrinks(live: set<Node>, n: Node, m: Node)
    requires m in live && m.serial > n.serial
    ensures |Younger(live, m)| < |Younger(live, n)|
  {
    assert m in Younger(live, n) && m !in Younger(live, m);
    SmallerSet(Younger(live, m), Younger(live, n));
  }

  lemma SmallerSet(a: set<Node>, b: set<Node>)
    requires a < b
    ensures |a| < |b|
  {
    var d := b - a;
    assert a + d == b;
  }

  /** Referenced by an outstanding handle, directly or through held elements. */
  ghost predicate Held(live: set<Node>, handles: multiset<Node>, n: Node)
    decreases |Younger(live, n)|
  {
    n in handles ||
    exists m | m in live && m.serial > n.serial && n in m.Children() ::
      (YoungerShrinks(live, n, m); Held(live, handles, m))
  }

  /** What is live in a well-counted heap is held. */
  lemma {:induction false} LiveIsHeld(live: set<Node>, all: set<Node>, handles: multiset<Node>, n: Node)
    requires Counted(live, handles) && live <= all && n in live
    ensures Held(all, handles, n)
    decreases |Younger(all, n)|
  {
    if n !in handles {
      var m := EdgeOrigin(live, n);
      YoungerShrinks(all, n, m);
      LiveIsHeld(live, all, handles, m);
    }
  }

  /** What is held of an older heap is still live in a closed younger one. */
  lemma {:induction false} HeldIsLive(live: set<Node>, all: set<Node>, handles: multiset<Node>, n: Node)
    requires Closed(live) && (forall h | h in handles :: h in live)
    requires Held(all, handles, n)
    ensures n in live
    decreases |Younger(all, n)|
  {
    if n !in handles {
      var m :| m in all && m.serial > n.serial && n in m.Children() && Held(all, handles, m);
      YoungerShrinks(all, n, m);
      HeldIsLive(live, all, handles, m);
    }
  }

  // ----- the allocator -----

  /** ALLOCATOR: the total size of live elements, and which they are. The handles
      are the references held outside the heap. */
  class Allocator {
    var x: int
    var counter: nat
    var records: map<Node, nat>
    ghost var handles: multiset<Node>

    ghost function Live(): set<Node>
      reads this`records
    {
      records.Keys
    }

    ghost predicate Booked()
      reads this`x, this`counter, this`records
    {
      && x == Sizes(records.Keys)
      && forall n | n in records :: records[n] == n.AllocSize() && n.serial <= counter
    }

    ghost predicate Valid()
      reads this, Live()
    {
      Booked() && Counted(Live(), handles)
    }

    constructor ()
      ensures Valid() && Live() == {} && x == 0 && handles == multiset{}
    {
      x, counter, records, handles := 0, 0, map[], multiset{};
    }

    method Free(n: nat, w: Node)
      requires Booked() && w in records && records[w] == n
      modifies this`x, this`records
      ensures Booked() && records == old(records) - {w} && x == old(x) - n
    {
      SizesWithout(records.Keys, w);
      x := x - n;
      records := records - {w};
      assert records.Keys == old(records.Keys) - {w};
    }

    method Alloc(n: nat, w: Node)
      requires Booked() && w !in records && w.AllocSize() == n && w.serial == counter + 1
      modifies this`x, this`counter, this`records
      ensures Booked() && records == old(records)[w := n] && x == old(x) + n && counter == old(counter) + 1
    {
      x := x + n;
      counter := counter + 1;
      records := records[w := n];
      SizesWithout(records.Keys, w);
      assert records.Keys - {w} == old(records.Keys);
    }

    /** One turn of deref_stack: the element's children are released, then it is
        freed. */
    method Release(rest: seq<Node>, el: Node) returns (stk: seq<Node>)
      requires Booked() && Last(rest + [el])
      requires Counted(Live(), handles + multiset(rest + [el]))
      modifies this`x, this`records, Live()
      ensures Booked() && Live() == old(Live()) - {el} && el in old(Live())
      ensures Counted(Live(), handles + multiset(stk)) && Last(stk)
    {
      hide Counted, Edges, Sizes;
      ghost var refs := handles + multiset(rest + [el]);
      assert refs - multiset{el} + multiset(el.Children()) == handles + multiset(rest) + multiset(el.Children());
      assert el in rest + [el];
      LastReleased(Live(), refs, el);
      stk := DerefAddToStack(rest, el.Children(), Live() - {el}, handles);
      Dropped(Live() - {el}, handles + multiset(stk), stk, el);
      el.refcnt := 0;
      Free(el.AllocSize(), el);
    }

    /** deref_stack: an explicit stack in place of recursion into the children. */
    method DerefStack(pending: seq<Node>)
      requires Booked() && Counted(Live(), handles + multiset(pending)) && Last(pending)
      modifies this`x, this`records, Live()
      ensures Valid() && Live() <= old(Live())
    {
      hide Counted, Booked;
      var stk := pending;
      while stk != []
        invariant Booked() && Live() <= old(Live())
        invariant Counted(Live(), handles + multiset(stk)) && Last(stk)
        decreases |Live()|
      {
        var el, rest := stk[|stk| - 1], stk[..|stk| - 1];
        assert stk == rest + [el];
        ghost var before := Live();
        stk := Release(rest, el);
        SmallerSet(Live(), before);
      }
      assert handles + multiset(stk) == handles;
    }

    /** deref_all: gives up handles. What stays live is exactly what the handles
        that are left still reach. */
    method DerefAll(els: seq<Node>)
      requires Valid() && multiset(els) <= handles
      modifies this`x, this`records, this`handles, Live()
      ensures Valid() && handles == old(handles) - multiset(els)
      ensures Live() == set n | n in old(Live()) && Held(old(Live()), handles, n)
    {
      hide Counted, Booked, Held;
      ghost var before := Live();
      handles := handles - multiset(els);
      assert Counted(Live(), old(handles)) && Booked();
      assert old(handles) == handles + multiset([]) + multiset(els);
      var stk := DerefAddToStack([], els, Live(), handles);
      DerefStack(stk);
      StillHeld(Live(), before, handles);
    }

    method Deref(el: Node)
      requires Valid() && el in handles
      modifies this`x, this`records, this`handles, Live()
      ensures Valid() && handles == old(handles) - multiset{el}
      ensures Live() == set n | n in old(Live()) && Held(old(Live()), handles, n)
    {
      assert multiset([el]) == multiset{el};
      DerefAll([el]);
    }

    /** bumpref: one more handle on a live element. */
    method BumpRef(el: Node)
      requires Valid() && el in Live()
      modifies this`handles, el
      ensures Valid() && handles == old(handles) + multiset{el}
    {
      hide Counted;
      Increment(el, Live(), handles);
      handles := handles + multiset{el};
    }

    /** A constructed element is counted with the handle its maker holds; the
        handles on its children become its own references. */
    method Register(el: Node, ghost kept: multiset<Node>)
      requires Booked() && Counted(Live(), kept + multiset(el.Children()))
      requires el !in Live() && el.refcnt == 1 && el.serial == counter + 1
      requires forall c | c in el.Children() :: c.serial < el.serial
      modifies this
      ensures Valid() && handles == kept + multiset{el} && Live() == old(Live()) + {el}
    {
      hide Counted, Sizes;
      Admitted(Live(), kept, el);
      Alloc(el.AllocSize(), el);
      handles := kept + multiset{el};
      assert Live() == old(Live()) + {el};
    }

    /** A new atom, error or symbol. */
    method NewStore(length: nat) returns (el: Node)
      requires Valid()
      modifies this
      ensures Valid() && fresh(el) && el.content == Store(length)
      ensures handles == old(handles) + multiset{el} && Live() == old(Live()) + {el}
    {
      hide Counted, Sizes;
      el := new Node(Store(length), counter + 1);
      assert handles + multiset(el.Children()) == handles;
      Register(el, handles);
    }

    /** A new pair takes over a handle on each of its children. */
    method NewPair(left: Node, right: Node) returns (el: Node)
      requires Valid() && multiset{left, right} <= handles
      modifies this
      ensures Valid() && fresh(el) && el.content == Pair(left, right)
      ensures handles == old(handles) - multiset{left, right} + multiset{el} && Live() == old(Live()) + {el}
    {
      hide Counted, Sizes;
      HandlesCounted(Live(), handles, [left, right]);
      el := new Node(Pair(left, right), counter + 1);
      ghost var kept := handles - multiset{left, right};
      assert kept + multiset(el.Children()) == handles;
      Register(el, kept);
    }

    /** A new function object takes over a handle on its state. */
    method NewFunc(state: Node) returns (el: Node)
      requires Valid() && state in handles
      modifies this
      ensures Valid() && fresh(el) && el.content == Func(state)
      ensures handles == old(handles) - multiset{state} + multiset{el} && Live() == old(Live()) + {el}
    {
      hide Counted, Sizes;
      HandlesCounted(Live(), handles, [state]);
      el := new Node(Func(state), counter + 1);
      ghost var kept := handles - multiset{state};
      assert kept + multiset(el.Children()) == handles;
      Register(el, kept);
    }

    /** steal_func: the handle on a function object becomes one on its state. */
    method StealFunc(el: Node) returns (state: Node)
      requires Valid() && el in handles && el.content.Func?
      modifies this`x, this`records, this`handles, Live()
      ensures Valid() && el.content == Func(state)
      ensures handles == old(handles) - multiset{el} + multiset{state}
      ensures Live() == set n | n in old(Live()) && Held(old(Live()), handles, n)
    {
      hide Counted, Booked, Held;
      state := el.content.state;
      ChildrenLive(Live(), handles, el);
      BumpRef(state);
      ghost var now := handles;
      Deref(el);
      assert now - multiset{el} == old(handles) - multiset{el} + multiset{state};
    }

    /** steal_children: the handle on a pair becomes handles on its children. */
    method StealChildren(el: Node) returns (left: Node, right: Node)
      requires Valid() && el in handles && el.content.Pair?
      modifies this`x, this`records, this`handles, Live()
      ensures Valid() && el.content == Pair(left, right)
      ensures handles == old(handles) - multiset{el} + multiset{left, right}
      ensures Live() == set n | n in old(Live()) && Held(old(Live()), handles, n)
    {
      hide Counted, Booked, Held;
      left, right := el.content.left, el.content.right;
      ChildrenLive(Live(), handles, el);
      BumpRef(left);
      BumpRef(right);
      ghost var now := handles;
      assert now == old(handles) + multiset{left} + multiset{right};
      Deref(el);
      assert now - multiset{el} == old(handles) - multiset{el} + multiset{left, right};
    }
  }

  /** Counted edges end in the heap. */
  lemma EdgeTarget(live: set<Node>, c: Node)
    requires Closed(live) && c in Edges(live)
    ensures c in live
  {
    hide Edges;
    var parent := EdgeOrigin(live, c);
  }

  lemma CountsWith(live: set<Node>, left: multiset<Node>, el: Node, n: Node)
    requires el !in live
    ensures Edges(live + {el})[n] + left[n] == Edges(live)[n] + (left + multiset(el.Children()))[n]
  {
    EdgesWithout(live + {el}, el);
    assert live + {el} - {el} == live;
  }

  /** A new element admitted to the heap: nothing refers to it but its handle. */
  lemma Admitted(live: set<Node>, left: multiset<Node>, el: Node)
    requires Counted(live, left + multiset(el.Children())) && el !in live && el.refcnt == 1
    requires forall c | c in el.Children() :: c.serial < el.serial
    ensures Counted(live + {el}, left + multiset{el})
  {
    hide Edges, Node.Children;
    var handles, grown := left + multiset(el.Children()), live + {el};
    assert forall c | c in el.Children() :: c in handles;
    assert Closed(grown);
    forall c | c in Edges(live)
      ensures c in live
    {
      EdgeTarget(live, c);
    }
    assert forall h | h in left :: h in handles;
    assert el !in Edges(live) && el !in handles;
    hide Closed;
    forall n | n in grown
      ensures n.refcnt > 0 && n.refcnt == Edges(grown)[n] + (left + multiset{el})[n]
    {
      CountsWith(live, left, el, n);
    }
  }

  lemma StillHeld(live: set<Node>, all: set<Node>, handles: multiset<Node>)
    requires Counted(live, handles) && live <= all
    ensures live == set n | n in all && Held(all, handles, n)
  {
    hide Held;
    forall n | n in live
      ensures Held(all, handles, n)
    {
      LiveIsHeld(live, all, handles, n);
    }
    forall n | n in all && Held(all, handles, n)
      ensures n in live
    {
      HeldIsLive(live, all, handles, n);
    }
  }

  lemma Dropped(live: set<Node>, handles: multiset<Node>, stk: seq<Node>, el: Node)
    requires Counted(live, handles) && multiset(stk) <= handles && el !in live
    ensures el !in stk
  {
    assert forall s | s in stk :: s in multiset(stk);
  }
}
