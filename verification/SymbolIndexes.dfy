/** SymbolIndex as symbll.py builds it: the lists of `add` and `finish`, the loop
    over the offset's bits, and the dictionary of positions. */
module SymbolIndexes {
  import opened Elements
  import opened Layout
  import C = Compiler

  /** The groups newest first. */
  ghost function Newest(sofar: seq<Group>): seq<Group> {
    if sofar == [] then [] else [sofar[|sofar| - 1]] + Newest(sofar[..|sofar| - 1])
  }

  lemma NewestPush(sofar: seq<Group>, g: Group)
    ensures Newest(sofar + [g]) == [g] + Newest(sofar)
  {
    assert (sofar + [g])[..|sofar|] == sofar;
  }

  /** SymbolIndex.add: the new name is a group, and equal-sized groups at the end
      merge. */
  method Add(sofar: seq<Group>, name: string) returns (out: seq<Group>)
    ensures Newest(out) == Insert(Newest(sofar), Group(1, [Entry(name, 1)]))
  {
    hide Insert;
    out := sofar + [Group(1, [Entry(name, 1)])];
    assert out[..|sofar|] == sofar;
    while |out| > 1 && out[|out| - 1].count == out[|out| - 2].count
      invariant |out| >= 1
      invariant Insert(Newest(out[..|out| - 1]), out[|out| - 1]) == Insert(Newest(sofar), Group(1, [Entry(name, 1)]))
      decreases |out|
    {
      var older, a, b := out[..|out| - 2], out[|out| - 2], out[|out| - 1];
      var c := Group(a.count + b.count, Lefts(a.entries) + Rights(b.entries));
      assert out[..|out| - 1] == older + [a];
      NewestPush(older, a);
      Merges(Newest(older), a, b);
      out := older + [c];
      assert out[..|out| - 1] == older;
    }
    ghost var last := out[|out| - 1];
    assert out == out[..|out| - 1] + [last];
    NewestPush(out[..|out| - 1], last);
    Settles(Newest(out[..|out| - 1]), last);
  }

  lemma Merges(older: seq<Group>, a: Group, b: Group)
    requires a.count == b.count
    ensures Insert([a] + older, b) == Insert(older, Group(a.count + b.count, Lefts(a.entries) + Rights(b.entries)))
  {
    assert ([a] + older)[1..] == older;
  }

  lemma Settles(older: seq<Group>, g: Group)
    requires older != [] ==> older[0].count != g.count
    ensures Insert(older, g) == [g] + older
  {
  }

  /** SymbolIndex.finish: the groups join from the newest on. */
  method Finish(sofar: seq<Group>) returns (res: seq<Entry>)
    ensures res == if sofar == [] then [] else Join(Newest(sofar)[0].entries, Newest(sofar)[1..])
  {
    if sofar == [] {
      return [];
    }
    var rest := sofar[..|sofar| - 1];
    res := sofar[|sofar| - 1].entries;
    while rest != []
      invariant Join(res, Newest(rest)) == Join(Newest(sofar)[0].entries, Newest(sofar)[1..])
      decreases |rest|
    {
      var a := rest[|rest| - 1];
      rest := rest[..|rest| - 1];
      res := Lefts(a.entries) + Rights(res);
    }
  }

  /** The entries of a list of names, one added at a time. */
  method Index(names: seq<string>) returns (es: seq<Entry>)
    ensures es == EntriesOf(names)
  {
    var x: seq<Group> := [];
    for i := 0 to |names|
      invariant Newest(x) == GroupsOf(names[..i])
    {
      assert names[..i + 1][..i] == names[..i];
      x := Add(x, names[i]);
    }
    assert names[..|names|] == names;
    es := Finish(x);
  }

  /** The highest bit of the offset, and the bits below it. */
  method SplitOffset(offset: nat) returns (m: nat, a: int)
    ensures m == TopBit(offset) && a == offset - TopBit(offset)
  {
    var o := offset;
    m := 1;
    while o > 1
      invariant m * TopBit(o) == TopBit(offset)
    {
      Twice(m, TopBit(o / 2));
      m := m * 2;
      o := o / 2;
    }
    a := offset - m;
  }

  lemma Twice(m: nat, t: nat)
    ensures m * (2 * t) == (m * 2) * t
  {
  }

  // ----- the dictionary -----

  /** A dictionary that answers every name as the compiler's index does. */
  ghost predicate Answers(indexes: map<string, int>, idx: C.Index) {
    forall name: string :: C.Position(idx, name) == if name in indexes then Some(indexes[name]) else None
  }

  lemma NothingAnswers(offset: nat)
    ensures Answers(map[], C.Index([], offset))
  {
  }

  /** One more entry takes its name over. */
  lemma AnswersNext(indexes: map<string, int>, es: seq<Entry>, i: nat, offset: nat, at: int)
    requires i < |es| && Answers(indexes, C.Index(es[..i], offset)) && at == Place(es[i].pos, offset)
    ensures Answers(indexes[es[i].name := at], C.Index(es[..i + 1], offset))
  {
    hide Place;
    var less, more := C.Index(es[..i], offset), C.Index(es[..i + 1], offset);
    assert more.entries[..i] == less.entries && more.entries[i] == es[i];
    forall name: string
      ensures C.Position(more, name) == if name == es[i].name then Some(at) else C.Position(less, name)
    {
      assert C.FindEntry(more.entries, name)
          == if es[i].name == name then Some(es[i].pos) else C.FindEntry(more.entries[..i], name);
    }
  }

  /** Such a dictionary has the indexed names as its keys. */
  lemma AnswersNames(indexes: map<string, int>, names: seq<string>, offset: nat)
    requires Answers(indexes, C.IndexOf(names, offset))
    ensures indexes.Keys == set name | name in names
  {
    hide EntriesOf, Place;
    forall name: string
      ensures name in indexes <==> name in names
    {
      IndexedNames(names, name);
      assert C.Position(C.IndexOf(names, offset), name).Some? <==> name in indexes;
    }
  }

  // ----- the order -----

  ghost function NamesIn(es: seq<Entry>): seq<string> {
    seq(|es|, i requires 0 <= i < |es| => es[i].name)
  }

  /** The names in groups listed newest first, oldest name first. */
  ghost function GroupNames(groups: seq<Group>): seq<string> {
    if groups == [] then [] else GroupNames(groups[1..]) + NamesIn(groups[0].entries)
  }

  lemma NamesMerge(older: seq<Entry>, newer: seq<Entry>)
    ensures NamesIn(Lefts(older) + Rights(newer)) == NamesIn(older) + NamesIn(newer)
  {
  }

  lemma {:induction false} InsertOrder(groups: seq<Group>, g: Group)
    ensures GroupNames(Insert(groups, g)) == GroupNames(groups) + NamesIn(g.entries)
    decreases |groups|
  {
    if groups != [] && groups[0].count == g.count {
      NamesMerge(groups[0].entries, g.entries);
      InsertOrder(groups[1..], Group(2 * g.count, Lefts(groups[0].entries) + Rights(g.entries)));
    } else {
      assert ([g] + groups)[1..] == groups;
    }
  }

  lemma {:induction false} JoinOrder(es: seq<Entry>, older: seq<Group>)
    ensures NamesIn(Join(es, older)) == GroupNames(older) + NamesIn(es)
    decreases |older|
  {
    if older != [] {
      NamesMerge(older[0].entries, es);
      JoinOrder(Lefts(older[0].entries) + Rights(es), older[1..]);
    }
  }

  lemma {:induction false} GroupsOrder(names: seq<string>)
    ensures GroupNames(GroupsOf(names)) == names
  {
    if names != [] {
      var init, last := names[..|names| - 1], names[|names| - 1];
      GroupsOrder(init);
      InsertOrder(GroupsOf(init), Group(1, [Entry(last, 1)]));
      assert names == init + [last];
    }
  }

  /** The index lists the names in the order they were given in, which is the order
      the globals are compiled in. */
  lemma OrderIsGiven(names: seq<string>)
    ensures NamesIn(EntriesOf(names)) == names
  {
    GroupsOrder(names);
    var groups := GroupsOf(names);
    if groups != [] {
      JoinOrder(groups[0].entries, groups[1..]);
    }
  }

  /** Where every name of a list is found below a node. */
  class SymbolIndex {
    var ordering: seq<string>
    var indexes: map<string, int>

    ghost predicate Represents(names: seq<string>, offset: nat)
      reads this
    {
      Answers(indexes, C.IndexOf(names, offset))
    }

    constructor (names: seq<string>, offset: nat)
      ensures Represents(names, offset)
      ensures indexes.Keys == set name | name in names
      ensures ordering == names
    {
      ordering := [];
      indexes := map[];
      new;
      hide Answers, EntriesOf;
      var es := Index(names);
      var m, a := SplitOffset(offset);
      NothingAnswers(offset);
      assert es[..0] == [];
      for i := 0 to |es|
        invariant ordering == NamesIn(es[..i])
        invariant Answers(indexes, C.Index(es[..i], offset))
      {
        var at := es[i].pos * m + a;
        AnswersNext(indexes, es, i, offset, at);
        indexes := indexes[es[i].name := at];
        ordering := ordering + [es[i].name];
      }
      assert es[..|es|] == es;
      AnswersNames(indexes, names, offset);
      OrderIsGiven(names);
    }
  }
}
