/** The compiler of symbll.py: expressions to bll code over an environment of
    compiled globals and local values. */
module Compiler {
  import opened Elements
  import opened OpTable
  import opened Symbll
  import opened Layout

  /** SymbolIndex: the position of every name below an offset. */
  datatype Index = Index(entries: seq<Entry>, offset: nat)

  function IndexOf(names: seq<string>, offset: nat): Index {
    Index(EntriesOf(names), offset)
  }

  /** The position of a name; a later entry overrides an earlier one. */
  function FindEntry(es: seq<Entry>, name: string): (r: Option<nat>)
    ensures r.Some? ==> exists i | 0 <= i < |es| :: es[i] == Entry(name, r.value)
    ensures r.None? ==> forall i | 0 <= i < |es| :: es[i].name != name
  {
    if es == [] then None
    else if es[|es| - 1].name == name then Some(es[|es| - 1].pos)
    else FindEntry(es[..|es| - 1], name)
  }

  function Position(idx: Index, name: string): Option<int> {
    match FindEntry(idx.entries, name)
    case None => None
    case Some(pos) => Some(Place(pos, idx.offset))
  }

  /** ResolveIndex: locals override globals. */
  function ResolveIndex(name: string, globals: Index, locals: Index): Option<int> {
    var l := Position(locals, name);
    if l.Some? then l else Position(globals, name)
  }

  // SExpr.list_to_element, for the lists the compiler makes.
  function List2(a: Element, b: Element): Element { Cons(a, Cons(b, Nil)) }

  function List3(a: Element, b: Element, c: Element): Element { Cons(a, List2(b, c)) }

  function List4(a: Element, b: Element, c: Element, d: Element): Element { Cons(a, List3(b, c, d)) }

  function Op(num: nat): Element { Num(num) }

  function Quoted(e: Element): Element { Cons(Nil, e) }

  function CompileArgs(args: SExpr, globals: Index, locals: Index): Option<Element>
    decreases args
  {
    match args
    case SAtom(b) => if b == [] then Some(Nil) else None
    case Symbol(_) => None
    case SPair(arg, rest) =>
      var a, r := CompileExpr(arg, globals, locals), CompileArgs(rest, globals, locals);
      if a.None? || r.None? then None else Some(Cons(a.value, r.value))
  }

  /** compile_expr; None where the compiler raises an exception, and for the
      report and partial forms. */
  function CompileExpr(e: SExpr, globals: Index, locals: Index): Option<Element>
    decreases e
  {
    match e
    case SAtom(b) => Some(if b == [] then Nil else Quoted(Atom(b)))
    case Symbol(name) =>
      var p := ResolveIndex(name, globals, locals);
      if p.None? then None else Some(Num(p.value))
    case SPair(op, args) =>
      if !op.Symbol? then None
      else if op.name == "q" then
        var v := ToBll(args);
        if v.None? then None else Some(Quoted(v.value))
      else if op.name == "report" || op.name == "partial" then None
      else if op.name == "if" then CompileIf(args, globals, locals)
      else
        var l := CompileArgs(args, globals, locals);
        if l.None? then None
        else if op.name == "a" then
          if args.SPair? && args.right.SPair? then
            if args.right.right == SNil then Some(Cons(Op(1), l.value)) else None
          else None
        else if OpNumber(op.name).Some? then Some(Cons(Op(OpNumber(op.name).value), l.value))
        else
          var p := ResolveIndex(op.name, globals, locals);
          if p.None? then None else Some(CallCode(p.value, l.value))
  }

  /** (a POSITION (rc (b ARGS...) 2)): run the code at the position over the
      globals and a fresh environment of arguments. */
  function CallCode(position: int, args: Element): Element {
    List3(Op(1), Num(position), List3(Op(6), Cons(Op(10), args), Num(2)))
  }

  function CompileIf(args: SExpr, globals: Index, locals: Index): Option<Element>
    decreases args
  {
    if !args.SPair? then None
    else
      var c := CompileExpr(args.left, globals, locals);
      if c.None? then None
      else if !args.right.SPair? then
        if args.right == SNil then Some(List2(Op(5), c.value)) else None
      else
        var t := CompileExpr(args.right.left, globals, locals);
        if t.None? then None
        else if !args.right.right.SPair? then
          if args.right.right == SNil then Some(List2(Op(1), List3(Op(5), c.value, Quoted(t.value)))) else None
        else
          var e := CompileExpr(args.right.right.left, globals, locals);
          if e.None? || args.right.right.right != SNil then None
          else Some(List2(Op(1), List4(Op(5), c.value, Quoted(t.value), Quoted(e.value))))
  }

  function NamesOf(G: Globals): (r: seq<string>)
    ensures |r| == |G| && forall i | 0 <= i < |G| :: r[i] == G[i].name
  {
    seq(|G|, i requires 0 <= i < |G| => G[i].name)
  }

  function GlobalIndex(G: Globals): Index {
    IndexOf(NamesOf(G), 2)
  }

  /** The keys of a symbol table the names were set in, in order. */
  function Keys(names: seq<string>): seq<string> {
    if names == [] then []
    else
      var init, last := Keys(names[..|names| - 1]), names[|names| - 1];
      if last in init then init else init + [last]
  }

  /** compile_fn: the body over the global index and its own parameters. */
  function CompileFn(d: Define, globals: Index): Option<Element> {
    CompileExpr(d.body, globals, IndexOf(Keys(d.params), 3))
  }

  function CompileAll(G: Globals, globals: Index): (r: Option<seq<Element>>)
    ensures r.Some? ==> |r.value| == |G| && forall i | 0 <= i < |G| :: CompileFn(G[i], globals) == Some(r.value[i])
  {
    if G == [] then Some([])
    else
      var c, rest := CompileFn(G[0], globals), CompileAll(G[1..], globals);
      if c.None? || rest.None? then None else Some([c.value] + rest.value)
  }

  function QuoteAll(codes: seq<Element>): Element {
    if codes == [] then Nil else Cons(Quoted(codes[0]), QuoteAll(codes[1..]))
  }

  /** compile_program: (a (q a N) (rc 1 (b (q . CODE)...))). */
  function CompileProgram(name: string, G: Globals): Option<Element> {
    var globals := GlobalIndex(G);
    var codes, p := CompileAll(G, globals), Position(globals, name);
    if codes.None? || p.None? then None
    else
      Some(List3(Op(1),
                   Quoted(List2(Op(1), Num(p.value))),
                   List3(Op(6), Num(1), Cons(Op(10), QuoteAll(codes.value)))))
  }
}
