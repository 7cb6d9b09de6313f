/** Which programs compile: exactly those that keep to the forms of the language and
    mention no unknown name. */
module Compilable {
  import opened OpTable
  import opened Symbll
  import opened SymbllDirect
  import C = Compiler
  import Layout

  predicate NoSymbols(e: SExpr) {
    match e
    case SAtom(_) => true
    case Symbol(_) => false
    case SPair(l, r) => NoSymbols(l) && NoSymbols(r)
  }

  /** An expression within the language, in which names stand for parameters or globals. */
  predicate InLanguage(e: SExpr, names: set<string>)
    decreases e
  {
    match e
    case SAtom(_) => true
    case Symbol(name) => name in names
    case SPair(op, args) =>
      && op.Symbol?
      && if op.name == "q" then NoSymbols(args)
         else
           && op.name != "report" && op.name != "partial"
           && (op.name in {"if", "a"} || OpNumber(op.name).Some? || op.name in names)
           && Tail(args) == SNil && AllInLanguage(args, names)
           && (op.name == "if" ==> 1 <= |Items(args)| <= 3)
           && (op.name == "a" ==> |Items(args)| == 2)
  }

  predicate AllInLanguage(args: SExpr, names: set<string>)
    decreases args
  {
    args.SPair? ==> InLanguage(args.left, names) && AllInLanguage(args.right, names)
  }

  /** The names the indexes find. */
  ghost predicate Known(globals: C.Index, locals: C.Index, names: set<string>) {
    forall name: string :: name in names <==> C.ResolveIndex(name, globals, locals).Some?
  }

  lemma {:induction false} QuotesValues(e: SExpr)
    ensures ToBll(e).Some? <==> NoSymbols(e)
  {
    if e.SPair? {
      QuotesValues(e.left);
      QuotesValues(e.right);
    }
  }

  lemma {:induction false} ExprCompiles(e: SExpr, globals: C.Index, locals: C.Index, names: set<string>)
    requires Known(globals, locals, names)
    ensures C.CompileExpr(e, globals, locals).Some? <==> InLanguage(e, names)
    decreases e
  {
    hide C.ResolveIndex, OpNumber, C.CompileIf, C.CompileArgs, AllInLanguage;
    match e {
      case SAtom(_) =>
      case Symbol(_) =>
      case SPair(op, args) =>
        QuotesValues(args);
        ArgsCompile(args, globals, locals, names);
        IfCompiles(args, globals, locals, names);
        TwoItems(args);
    }
  }

  lemma TwoItems(args: SExpr)
    ensures |Items(args)| == 2 && Tail(args) == SNil <==>
            args.SPair? && args.right.SPair? && args.right.right == SNil
  {
    if args.SPair? && args.right.SPair? {
      assert Items(args) == [args.left, args.right.left] + Items(args.right.right);
      assert Tail(args) == Tail(args.right.right);
    }
  }

  lemma {:induction false} ArgsCompile(args: SExpr, globals: C.Index, locals: C.Index, names: set<string>)
    requires Known(globals, locals, names)
    ensures C.CompileArgs(args, globals, locals).Some? <==> Tail(args) == SNil && AllInLanguage(args, names)
    decreases args
  {
    hide C.CompileExpr, InLanguage, Known;
    if args.SPair? {
      ExprCompiles(args.left, globals, locals, names);
      ArgsCompile(args.right, globals, locals, names);
    }
  }

  lemma {:induction false} IfCompiles(args: SExpr, globals: C.Index, locals: C.Index, names: set<string>)
    requires Known(globals, locals, names)
    ensures C.CompileIf(args, globals, locals).Some? <==>
            Tail(args) == SNil && AllInLanguage(args, names) && 1 <= |Items(args)| <= 3
    decreases args
  {
    hide C.CompileExpr, InLanguage, Known;
    if args.SPair? {
      var a := args.right;
      ExprCompiles(args.left, globals, locals, names);
      assert Items(args) == [args.left] + Items(a) && Tail(args) == Tail(a);
      assert AllInLanguage(args, names) <==> InLanguage(args.left, names) && AllInLanguage(a, names);
      if a.SPair? {
        var b := a.right;
        ExprCompiles(a.left, globals, locals, names);
        assert Items(a) == [a.left] + Items(b) && Tail(a) == Tail(b);
        assert AllInLanguage(a, names) <==> InLanguage(a.left, names) && AllInLanguage(b, names);
        if b.SPair? {
          ExprCompiles(b.left, globals, locals, names);
          assert Items(b) == [b.left] + Items(b.right) && Tail(b) == Tail(b.right);
          assert AllInLanguage(b, names) <==> InLanguage(b.left, names) && AllInLanguage(b.right, names);
          assert b.right.SPair? <==> Items(b.right) != [];
          assert !b.right.SPair? ==> Tail(b.right) == b.right;
        }
      }
    }
  }

  // ----- whole programs -----

  lemma PositionOf(names: seq<string>, offset: nat, name: string)
    ensures C.Position(C.IndexOf(names, offset), name).Some? <==> name in names
  {
    hide Layout.EntriesOf, Layout.Place;
    Layout.IndexedNames(names, name);
  }

  lemma {:induction false} KeysAreNames(names: seq<string>, name: string)
    ensures name in C.Keys(names) <==> name in names
    decreases |names|
  {
    if names != [] {
      KeysAreNames(names[..|names| - 1], name);
      assert names == names[..|names| - 1] + [names[|names| - 1]];
    }
  }

  /** The names that stand for something in the body of a definition. */
  function Scope(G: Globals, d: Define): set<string> {
    (set x | x in C.NamesOf(G)) + (set x | x in d.params)
  }

  lemma ScopeKnown(G: Globals, d: Define)
    ensures Known(C.GlobalIndex(G), C.IndexOf(C.Keys(d.params), 3), Scope(G, d))
  {
    hide C.Position, C.NamesOf;
    var globals, locals := C.GlobalIndex(G), C.IndexOf(C.Keys(d.params), 3);
    forall name: string
      ensures name in Scope(G, d) <==> C.ResolveIndex(name, globals, locals).Some?
    {
      PositionOf(C.NamesOf(G), 2, name);
      PositionOf(C.Keys(d.params), 3, name);
      KeysAreNames(d.params, name);
    }
  }

  lemma {:induction false} AllCompile(G: Globals, globals: C.Index)
    ensures C.CompileAll(G, globals).Some? <==> forall i | 0 <= i < |G| :: C.CompileFn(G[i], globals).Some?
  {
    hide C.CompileFn;
    if G != [] {
      AllCompile(G[1..], globals);
      assert forall i | 1 <= i < |G| :: G[i] == G[1..][i - 1];
    }
  }

  /** A program compiles if and only if its function is defined and every definition
      keeps to the language over the globals and its own parameters. */
  lemma CompilesExactly(name: string, G: Globals)
    ensures C.CompileProgram(name, G).Some? <==>
            (exists d | d in G :: d.name == name) && forall d | d in G :: InLanguage(d.body, Scope(G, d))
  {
    hide C.CompileExpr, InLanguage, Scope, C.Keys, C.Position, C.CompileAll;
    var globals := C.GlobalIndex(G);
    AllCompile(G, globals);
    forall d | d in G
      ensures C.CompileFn(d, globals).Some? <==> InLanguage(d.body, Scope(G, d))
    {
      ScopeKnown(G, d);
      ExprCompiles(d.body, globals, C.IndexOf(C.Keys(d.params), 3), Scope(G, d));
    }
    PositionOf(C.NamesOf(G), 2, name);
    DefinedNames(G, name);
  }

  lemma DefinedNames(G: Globals, name: string)
    ensures name in C.NamesOf(G) <==> exists d | d in G :: d.name == name
  {
    if d :| d in G && d.name == name {
      var i :| 0 <= i < |G| && G[i] == d;
      assert C.NamesOf(G)[i] == name;
    }
  }
}
