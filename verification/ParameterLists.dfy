/** Which parameter lists the compiler may be given: a repeated name makes some body
    come out differently, as soon as the symbolic evaluator can collect the
    arguments at all. */
module ParameterLists {
  import opened Costs
  import opened Elements
  import opened OpTable
  import opened Opcodes
  import opened StandardRules
  import opened BllClosure
  import opened Layout
  import opened Symbll
  import opened SymbllRuns
  import opened EnoughBudget
  import opened CompiledCode
  import opened CompilerCorrectness
  import opened CompilerLimits
  import opened Coverage
  import Bll = Machine
  import C = Compiler

  // ----- names -----

  lemma {:induction false} DistinctCount(names: seq<string>)
    ensures |set n | n in names| <= |names|
    ensures |set n | n in names| == |names| <==> Distinct(names)
    decreases |names|
  {
    if names != [] {
      var init, last := names[..|names| - 1], names[|names| - 1];
      DistinctCount(init);
      assert names == init + [last];
      assert (set n | n in names) == (set n | n in init) + {last};
      if last in init {
        var i :| 0 <= i < |init| && init[i] == last;
        assert names[i] == names[|init|];
        assert (set n | n in names) == (set n | n in init);
      } else {
        assert Distinct(names) <==> Distinct(init);
      }
    }
  }

  lemma {:induction false} KeysNames(names: seq<string>)
    ensures Distinct(C.Keys(names)) && (forall n :: n in C.Keys(names) <==> n in names)
    decreases |names|
  {
    if names != [] {
      KeysNames(names[..|names| - 1]);
      assert names == names[..|names| - 1] + [names[|names| - 1]];
    }
  }

  /** A repeated name leaves fewer keys than parameters. */
  lemma FewerKeys(names: seq<string>)
    requires !Distinct(names)
    ensures 0 < |C.Keys(names)| < |names|
  {
    hide C.Keys;
    KeysNames(names);
    DistinctCount(names);
    DistinctCount(C.Keys(names));
    assert (set n | n in names) == (set n | n in C.Keys(names));
    assert names[0] in C.Keys(names);
  }

  function EntryNames(es: seq<Entry>): seq<string> {
    seq(|es|, i requires 0 <= i < |es| => es[i].name)
  }

  /** Distinct names are found where their entries say. */
  lemma EntryFound(names: seq<string>, i: nat)
    requires Distinct(names) && names != [] && i < |EntriesOf(names)|
    ensures var e := EntriesOf(names)[i]; e.name in names && C.FindEntry(EntriesOf(names), e.name) == Some(e.pos)
  {
    hide EntriesOf, Covers, C.FindEntry;
    var es := EntriesOf(names);
    EntriesCover(names);
    forall n: string
      ensures n in EntryNames(es) <==> n in names
    {
      IndexedNames(names, n);
      if Names(es, n) {
        var k :| 0 <= k < |es| && es[k].name == n;
        assert EntryNames(es)[k] == n;
      }
      if n in EntryNames(es) {
        var k :| 0 <= k < |es| && EntryNames(es)[k] == n;
        assert es[k].name == n;
      }
    }
    assert (set n | n in EntryNames(es)) == (set n | n in names);
    DistinctCount(names);
    DistinctCount(EntryNames(es));
    assert EntryNames(es)[i] == es[i].name;
    var pos := C.FindEntry(es, es[i].name).value;
    var j :| 0 <= j < |es| && es[j] == Entry(es[i].name, pos);
    assert EntryNames(es)[j] == EntryNames(es)[i];
  }

  // ----- the symbolic side -----

  function Nils(n: nat): seq<Element> {
    seq(n, _ => Nil)
  }

  predicate AllNil(env: Locals) {
    forall name | name in env :: env[name] == Nil
  }

  /** A call of a function on nils that returns one of its parameters. */
  lemma {:induction false} NilCall(mem: Memory, G: Globals, cfg: Bll.Validator, x: string, dangling: seq<string>,
                                   env: Locals, left: int, m: Meter)
    requires Quiet(mem) && !Builtin(x) && AllNil(env) && (x in env || x in dangling)
    requires left >= 3 * |dangling| + 2 && !m.Latched()
    ensures RunFor(mem, G, cfg,
            State(Push(Empty, Call(User(Symbol(x), dangling, env), QuotedArgs(Nils(|dangling|)), map[])), left, m),
                   3 * |dangling| + 2) == Some(Value(Nil))
    decreases |dangling|
  {
    hide RunFor, OpNumber, FromBll;
    var body := Symbol(x);
    var s := State(Push(Empty, Call(User(body, dangling, env), QuotedArgs(Nils(|dangling|)), map[])), left, m);
    if dangling == [] {
      var t, r := State(Push(Empty, Eval(body, env)), left - 1, m), State(Push(Empty, Fin(Value(Nil))), left - 2, m);
      Goes(mem, G, cfg, s, t, 1);
      Goes(mem, G, cfg, t, r, 0);
      NilReported(mem, G, cfg, r);
    } else {
      var rest := Nils(|dangling|)[1..];
      assert rest == Nils(|dangling| - 1);
      var q, args := SPair(Symbol("q"), FromBll(Nil)), QuotedArgs(rest);
      var K := Push(Empty, Call(User(body, dangling, env), args, map[]));
      var env' := env[dangling[0] := Nil];
      Goes(mem, G, cfg, s, State(Push(K, Eval(q, map[])), left - 1, m), 3 * |dangling| + 1);
      QuoteArgument(mem, G, cfg, K, Nil, map[], left - 1, m, 3 * |dangling| - 1);
      assert Settle(mem, Deliver(cfg, Empty, K.top, Nil, left - 2, m))
          == State(Push(Empty, Call(User(body, dangling[1..], env'), args, map[])), left - 3, m);
      NilCall(mem, G, cfg, x, dangling[1..], env', left - 3, m);
    }
  }

  lemma NilReported(mem: Memory, G: Globals, cfg: Bll.Validator, s: State)
    requires s.frames == Push(Empty, Fin(Value(Nil)))
    ensures RunFor(mem, G, cfg, s, 0) == Some(Value(Nil))
  {
  }

  /** The call of the function that returns a parameter, on nils. */
  lemma NilsEvaluate(mem: Memory, cfg: Bll.Validator, name: string, params: seq<string>, x: string)
    requires Quiet(mem) && !Builtin(name) && !Builtin(x) && x in params && 3 * |params| + 3 <= STEP_ALLOWANCE
    ensures RunFor(mem, [Define(name, params, Symbol(x))], cfg, Begin(CallOn(name, Nils(|params|))), 3 * |params| + 3)
         == Some(Value(Nil))
  {
    hide RunFor, OpNumber, QuotedArgs;
    var G, m, args := [Define(name, params, Symbol(x))], Fresh(DEFAULT_BUDGET), QuotedArgs(Nils(|params|));
    assert ResolveCall(G, map[], name) == Lookup.Calls(User(Symbol(x), params, map[]));
    Goes(mem, G, cfg, Begin(CallOn(name, Nils(|params|))),
         State(Push(Empty, Call(User(Symbol(x), params, map[]), args, map[])), STEP_ALLOWANCE - 1, m),
         3 * |params| + 2);
    NilCall(mem, G, cfg, x, params, map[], STEP_ALLOWANCE - 1, m);
  }

  /** A call on quoted values that ends in a value has three steps for every
      parameter and two more. */
  lemma {:induction false} CallAllowance(mem: Memory, G: Globals, cfg: Bll.Validator, body: SExpr,
                                         dangling: seq<string>, env: Locals,
                                         values: seq<Element>, left: int, m: Meter, n: nat, res: Element)
    requires AllBll(values)
    requires Alive(mem, G, cfg, State(Push(Empty, Call(User(body, dangling, env), QuotedArgs(values), map[])), left, m),
             n, res)
    ensures left >= 3 * |dangling| + 2
    decreases |dangling|
  {
    hide Alive, Settle, OpNumber, FromBll;
    var args := QuotedArgs(values);
    var fn := User(body, dangling, env);
    StepAlive(mem, G, cfg, Empty, Call(fn, args, map[]), left, m, n, res);
    var s := StepFrame(mem, G, cfg, Empty, Call(fn, args, map[]), left, m);
    SettleAlive(mem, G, cfg, s, n - 1, res);
    if OnFin(s.frames) {
      FailureRuns(mem, G, cfg, Empty, s.frames.top.result.error, left - 1, m, n - 1, res);
    }
    SettledLeft(mem, s);
    if dangling != [] {
      var v, rest := values[0], QuotedArgs(values[1..]);
      var K := Push(Empty, Call(fn, rest, map[]));
      QuoteAlive(mem, G, cfg, K, v, left - 1, m, n - 1, res);
      var t := Deliver(cfg, Empty, K.top, v, left - 2, m);
      SettleAlive(mem, G, cfg, t, n - 3, res);
      CallAllowance(mem, G, cfg, body, dangling[1..], env[dangling[0] := v], values[1..], left - 3, m, n - 3, res);
    }
  }

  /** A state that passes the checks unchanged has a step left. */
  lemma SettledLeft(mem: Memory, s: State)
    requires Settle(mem, s) == s.(left := s.left - 1) && !OnFin(s.frames)
    ensures s.left >= 2
  {
  }

  /** A quoted value takes two steps to reach the frame below. */
  lemma QuoteAlive(mem: Memory, G: Globals, cfg: Bll.Validator, K: Stack, v: Element, left: int, m: Meter, n: nat,
                   res: Element)
    requires IsBll(v) && K.Push?
    requires Alive(mem, G, cfg, State(Push(K, Eval(SPair(Symbol("q"), FromBll(v)), map[])), left, m), n, res)
    ensures n >= 2 && Alive(mem, G, cfg, Settle(mem, Deliver(cfg, K.rest, K.top, v, left - 1, m)), n - 2, res)
  {
    hide Alive, Settle, OpNumber, Deliver;
    FromBllRoundTrip(v);
    var e := SPair(Symbol("q"), FromBll(v));
    StepAlive(mem, G, cfg, K, Eval(e, map[]), left, m, n, res);
    SettleAlive(mem, G, cfg, State(Push(K, Call(Quote, FromBll(v), map[])), left, m), n - 1, res);
    StepAlive(mem, G, cfg, K, Call(Quote, FromBll(v), map[]), left - 1, m, n - 1, res);
  }

  /** The symbolic evaluator can collect only so many arguments. */
  lemma CollectsOnly(mem: Memory, cfg: Bll.Validator, d: Define, values: seq<Element>, n: nat, res: Element)
    requires !Builtin(d.name) && AllBll(values)
    requires Alive(mem, [d], cfg, Begin(CallOn(d.name, values)), n, res)
    ensures 3 * |d.params| + 3 <= STEP_ALLOWANCE
  {
    hide Alive, Settle, OpNumber, QuotedArgs;
    var m, fn := Fresh(DEFAULT_BUDGET), User(d.body, d.params, map[]);
    StepAlive(mem, [d], cfg, Empty, Eval(CallOn(d.name, values), map[]), STEP_ALLOWANCE, m, n, res);
    var s := State(Push(Empty, Call(fn, QuotedArgs(values), map[])), STEP_ALLOWANCE, m);
    assert ResolveCall([d], map[], d.name) == Lookup.Calls(fn);
    SettleAlive(mem, [d], cfg, s, n - 1, res);
    CallAllowance(mem, [d], cfg, d.body, d.params, map[], values, STEP_ALLOWANCE - 1, m, n - 1, res);
  }

  // ----- the compiled side -----

  lemma {:induction false} TreesBll(values: seq<Element>)
    requires AllBll(values)
    ensures AllBll(Trees(values))
    decreases |values|
  {
    if values != [] {
      var last := |values| - 1;
      TreesBll(values[..last]);
      CarryBll(last, values[last], Trees(values[..last]));
    }
  }

  lemma TreeBll(values: seq<Element>)
    requires AllBll(values)
    ensures IsBll(TreeOf(values))
  {
    TreesBll(values);
    var trees := Trees(values);
    if trees != [] {
      GatherBll(trees[0], trees[1..]);
    }
  }

  lemma {:induction false} PartBll(t: Element, pos: int)
    requires IsBll(t)
    ensures Bll.Walk(t, pos).value.Value? ==> IsBll(Bll.Walk(t, pos).value.value)
    decreases pos
  {
    if pos > 1 && t.Cons? {
      PartBll(if pos % 2 == 0 then t.left else t.right, pos / 2);
    }
  }

  /** Compiled, the function that returns a parameter is a reference. */
  lemma ReferenceCode(name: string, params: seq<string>, x: string, pos: nat)
    requires C.FindEntry(EntriesOf(C.Keys(params)), x) == Some(pos)
    ensures var G := [Define(name, params, Symbol(x))]; C.CompileAll(G, C.GlobalIndex(G)) == Some([Num(Place(pos, 3))])
  {
    hide C.GlobalIndex, EntriesOf, C.Keys, Place;
    var d := Define(name, params, Symbol(x));
    assert C.CompileFn(d, C.GlobalIndex([d])) == Some(Num(Place(pos, 3)));
    assert [d][1..] == [] && C.CompileAll([d][1..], C.GlobalIndex([d])) == Some([]);
    assert [Num(Place(pos, 3))] + [] == [Num(Place(pos, 3))];
  }

  ghost predicate ComesFrom(cfg: Bll.Validator, code: Element, tree: Element, v: Element, enough: nat) {
    forall limit: nat | limit >= enough ::
      Bll.Run(cfg, Bll.Start(code, tree, limit)) == Bll.Verdict(Value(v), enough, false)
  }

  /** The compiled program that looks at pos below the arguments comes to what is
      there. */
  lemma ReferenceRuns(o: Oracle, aware: bool, name: string, params: seq<string>, x: string, pos: nat,
                      tree: Element, v: Element) returns (enough: nat)
    requires Plain(o) && pos >= 1 && C.FindEntry(EntriesOf(C.Keys(params)), x) == Some(pos)
    requires Bll.Walk(tree, pos).value == Value(v) && IsBll(v)
    ensures var G := [Define(name, params, Symbol(x))];
      && C.CompileProgram(name, G).Some?
      && ComesFrom(Standard(o, aware), C.CompileProgram(name, G).value, tree, v, enough)
  {
    hide Bll.Walk, Bll.Run, Yields, C.CompileAll, C.CompileProgram, C.CompileFn, C.GlobalIndex, EntriesOf, C.Keys,
         TreeOf, Place, Plain, Leads;
    var d := Define(name, params, Symbol(x));
    var code := Num(Place(pos, 3));
    ReferenceCode(name, params, x, pos);
    var w := WorldOf(o, aware, _ => false, [d], [code]);
    PairWalk(w.tree, tree);
    WalkPlace(Cons(w.tree, tree), tree, pos, 3);
    ReferenceYields(Cfg(w), Place(pos, 3), Cons(w.tree, tree), v);
    assert d in w.G && w.codes[name] == code by {
      assert C.CompileAll([d], GI(w)) == Some([code]);
      assert C.CompileFn([d][0], GI(w)) == Some([code][0]);
    }
    ProgramYields(w, d, [code], tree, v);
    enough := YieldsOnMachine(Standard(o, aware), C.CompileProgram(name, [d]).value, tree, v);
  }

  // ----- exactly which lists -----

  /** The compiled program, run on the b-tree of the values, comes to v on every
      budget that is large enough. */
  ghost predicate Comes(o: Oracle, aware: bool, code: Element, values: seq<Element>, v: Element) {
    exists enough: nat :: ComesFrom(Standard(o, aware), code, TreeOf(values), v, enough)
  }

  /** Whatever the arguments, if the call evaluates symbolically to a value the
      compiled program comes to it; a program that does not compile has nothing to
      answer for. */
  ghost predicate Faithful(o: Oracle, aware: bool, mem: Memory, G: Globals, name: string) {
    C.CompileProgram(name, G).Some? ==>
      forall values, steps: nat, v |
        AllBll(values) && RunFor(mem, G, Standard(o, aware), Begin(CallOn(name, values)), steps) == Some(Value(v)) ::
        Comes(o, aware, C.CompileProgram(name, G).value, values, v)
  }

  lemma DistinctFaithful(o: Oracle, aware: bool, mem: Memory, d: Define)
    requires Plain(o) && !Builtin(d.name) && Distinct(d.params)
    ensures Faithful(o, aware, mem, [d], d.name)
  {
    hide RunFor, C.CompileProgram, TreeOf, Bll.Run, CallOn, Plain;
    if C.CompileProgram(d.name, [d]).Some? {
      forall values, steps: nat, v |
        AllBll(values) && RunFor(mem, [d], Standard(o, aware), Begin(CallOn(d.name, values)), steps) == Some(Value(v))
        ensures Comes(o, aware, C.CompileProgram(d.name, [d]).value, values, v)
      {
        var enough := CompilerCorrect(o, aware, mem, [d], d.name, values, steps, v);
        assert ComesFrom(Standard(o, aware), C.CompileProgram(d.name, [d]).value, TreeOf(values), v, enough);
      }
    }
  }

  lemma LongFaithful(o: Oracle, aware: bool, mem: Memory, d: Define)
    requires !Builtin(d.name) && 3 * |d.params| + 3 > STEP_ALLOWANCE
    ensures Faithful(o, aware, mem, [d], d.name)
  {
    hide RunFor, C.CompileProgram, Bll.Run, CallOn, Comes;
    forall values, steps: nat, v |
      AllBll(values) && RunFor(mem, [d], Standard(o, aware), Begin(CallOn(d.name, values)), steps) == Some(Value(v))
      ensures false
    {
      CollectsOnly(mem, Standard(o, aware), d, values, steps, v);
    }
  }

  lemma NilsPlain(n: nat)
    ensures Flat(Nils(n)) && AllBll(Nils(n)) && |Nils(n)| == n
  {
  }

  lemma OneVerdict(cfg: Bll.Validator, code: Element, tree: Element, v: Element, enough: nat, w: Element, least: nat)
    requires ComesFrom(cfg, code, tree, v, enough) && ComesFrom(cfg, code, tree, w, least)
    ensures v == w
  {
    hide Bll.Run;
    var limit := if least < enough then enough else least;
    assert Bll.Run(cfg, Bll.Start(code, tree, limit)) == Bll.Verdict(Value(v), enough, false);
  }

  /** With a name repeated, some body is compiled wrongly: called on nils it
      evaluates to nil, and compiled it comes to a pair. */
  lemma RepeatedUnfaithful(o: Oracle, aware: bool, mem: Memory, name: string, params: seq<string>) returns (x: string)
    requires Quiet(mem) && Plain(o) && !Builtin(name) && (forall p | p in params :: !Builtin(p))
    requires !Distinct(params) && 3 * |params| + 3 <= STEP_ALLOWANCE
    ensures !Faithful(o, aware, mem, [Define(name, params, Symbol(x))], name)
  {
    hide RunFor, ComesFrom, C.CompileProgram, TreeOf, Bll.Run, CallOn, Plain, EntriesOf, C.Keys, Builtin, Bll.Walk,
         Nils, Standard;
    var keys, values := C.Keys(params), Nils(|params|);
    FewerKeys(params);
    KeysNames(params);
    NilsPlain(|params|);
    var tree := TreeOf(values);
    var i := SomePair(keys, values);
    x := EntriesOf(keys)[i].name;
    EntryFound(keys, i);
    var pos := EntriesOf(keys)[i].pos;
    var pair := Bll.Walk(tree, pos).value.value;
    TreeBll(values);
    PartBll(tree, pos);
    var enough := ReferenceRuns(o, aware, name, params, x, pos, tree, pair);
    NilsEvaluate(mem, Standard(o, aware), name, params, x);
    var G := [Define(name, params, Symbol(x))];
    if Faithful(o, aware, mem, G, name) {
      var code := C.CompileProgram(name, G).value;
      assert Comes(o, aware, code, values, Nil);
      var least: nat :| ComesFrom(Standard(o, aware), code, tree, Nil, least);
      OneVerdict(Standard(o, aware), code, tree, pair, enough, Nil, least);
    }
  }

  /** A parameter list is safe, for all bodies and all arguments, exactly if no name
      stands in it twice, or if it is too long for any call of it to be evaluated
      symbolically. */
  lemma ParametersExactly(o: Oracle, aware: bool, mem: Memory, name: string, params: seq<string>)
    requires Quiet(mem) && Plain(o) && !Builtin(name) && (forall p | p in params :: !Builtin(p))
    ensures Distinct(params) || 3 * |params| + 3 > STEP_ALLOWANCE
            <==> forall body: SExpr :: Faithful(o, aware, mem, [Define(name, params, body)], name)
  {
    hide Faithful, Distinct, Plain, Builtin, Quiet;
    if Distinct(params) {
      forall body: SExpr
        ensures Faithful(o, aware, mem, [Define(name, params, body)], name)
      {
        DistinctFaithful(o, aware, mem, Define(name, params, body));
      }
    } else if 3 * |params| + 3 > STEP_ALLOWANCE {
      forall body: SExpr
        ensures Faithful(o, aware, mem, [Define(name, params, body)], name)
      {
        LongFaithful(o, aware, mem, Define(name, params, body));
      }
    } else {
      var x := RepeatedUnfaithful(o, aware, mem, name, params);
    }
  }

  // ----- a parameter named twice -----

  const TWICE: Globals := [Define("F", ["X", "X"], Symbol("X"))]

  const VALUES: seq<Element> := [Num(1), Num(2)]

  /** Symbolically, the second argument wins. */
  lemma TwiceSymbolic(mem: Memory, cfg: Bll.Validator)
    requires Quiet(mem)
    ensures RunFor(mem, TWICE, cfg, Begin(CallOn("F", VALUES)), 9) == Some(Value(Num(2)))
  {
    hide RunFor, OpNumber, QuotedArgs, FromBll;
    var m := Fresh(DEFAULT_BUDGET);
    var q1, a2 := SPair(Symbol("q"), FromBll(Num(1))), SPair(SPair(Symbol("q"), FromBll(Num(2))), SNil);
    var a1 := SPair(q1, a2);
    TwiceArguments();
    TwiceResolves();
    assert ["X", "X"][1..] == ["X"];
    var f0, f1 := User(Symbol("X"), ["X", "X"], map[]), User(Symbol("X"), ["X"], map["X" := Num(1)]);
    Goes(mem, TWICE, cfg, Begin(CallOn("F", VALUES)), State(Push(Empty, Call(f0, a1, map[])), 99999, m), 8);
    Goes(mem, TWICE, cfg, State(Push(Empty, Call(f0, a1, map[])), 99999, m),
         State(Push(Push(Empty, Call(f0, a2, map[])), Eval(q1, map[])), 99998, m), 7);
    QuoteArgument(mem, TWICE, cfg, Push(Empty, Call(f0, a2, map[])), Num(1), map[], 99998, m, 5);
    TwiceSecond(mem, cfg, m);
  }

  lemma TwiceSecond(mem: Memory, cfg: Bll.Validator, m: Meter)
    requires Quiet(mem) && !m.Latched()
    ensures var f1 := User(Symbol("X"), ["X"], map["X" := Num(1)]);
      var a2 := SPair(SPair(Symbol("q"), FromBll(Num(2))), SNil);
      RunFor(mem, TWICE, cfg, State(Push(Empty, Call(f1, a2, map[])), 99996, m), 5) == Some(Value(Num(2)))
  {
    hide RunFor, OpNumber, FromBll;
    var q2, f1 := SPair(Symbol("q"), FromBll(Num(2))), User(Symbol("X"), ["X"], map["X" := Num(1)]);
    assert ["X"][1..] == [] && map["X" := Num(1)]["X" := Num(2)] == map["X" := Num(2)];
    TwiceResolves();
    Goes(mem, TWICE, cfg, State(Push(Empty, Call(f1, SPair(q2, SNil), map[])), 99996, m),
         State(Push(Push(Empty, Call(f1, SNil, map[])), Eval(q2, map[])), 99995, m), 4);
    QuoteArgument(mem, TWICE, cfg, Push(Empty, Call(f1, SNil, map[])), Num(2), map[], 99995, m, 2);
    TwiceBody(mem, cfg, map["X" := Num(2)], m);
  }

  lemma TwiceBody(mem: Memory, cfg: Bll.Validator, env: Locals, m: Meter)
    requires Quiet(mem) && env == map["X" := Num(2)] && !m.Latched()
    ensures RunFor(mem, TWICE, cfg, State(Push(Empty, Call(User(Symbol("X"), [], env), SNil, map[])), 99993, m), 2)
            == Some(Value(Num(2)))
  {
    hide OpNumber;
    TwiceResolves();
    var s, r := State(Push(Empty, Eval(Symbol("X"), env)), 99992, m), State(Push(Empty, Fin(Value(Num(2)))), 99991, m);
    Goes(mem, TWICE, cfg, State(Push(Empty, Call(User(Symbol("X"), [], env), SNil, map[])), 99993, m), s, 1);
    Goes(mem, TWICE, cfg, s, r, 0);
    assert RunFor(mem, TWICE, cfg, r, 0) == Some(Value(Num(2)));
  }

  lemma TwiceArguments()
    ensures QuotedArgs(VALUES) ==
            SPair(SPair(Symbol("q"), FromBll(Num(1))), SPair(SPair(Symbol("q"), FromBll(Num(2))), SNil))
  {
    assert VALUES[1..] == [Num(2)] && [Num(2)][1..] == [];
    assert QuotedArgs([Num(2)]) == SPair(SPair(Symbol("q"), FromBll(Num(2))), SNil);
  }

  lemma TwiceResolves()
    ensures OpNumber("F").None? && OpNumber("X").None?
    ensures ResolveCall(TWICE, map[], "F") == Lookup.Calls(User(Symbol("X"), ["X", "X"], map[]))
  {
  }

  lemma TwiceTree()
    ensures TreeOf(VALUES) == Cons(Num(1), Num(2))
  {
    assert VALUES[..1] == [Num(1)] && [Num(1)][..0] == [];
    assert Trees([Num(1)]) == [Num(1)];
    assert Carry(1, Num(2), [Num(1)]) == Carry(0, Cons(Num(1), Num(2)), []);
    assert Trees(VALUES) == [Cons(Num(1), Num(2))];
  }

  lemma TwiceFound()
    ensures C.FindEntry(EntriesOf(C.Keys(["X", "X"])), "X") == Some(1)
  {
    assert C.Keys(["X", "X"]) == ["X"] by {
      assert ["X", "X"][..1] == ["X"] && ["X"][..0] == [];
      assert C.Keys(["X"]) == ["X"];
    }
    hide C.Keys;
    assert EntriesOf(["X"]) == [Entry("X", 1)] by {
      assert GroupsOf(["X"]) == [Group(1, [Entry("X", 1)])];
    }
    hide EntriesOf;
    assert C.FindEntry([Entry("X", 1)], "X") == Some(1);
  }

  /** The least input that shows it: evaluated symbolically the call gives the second
      argument, compiled it gives the pair of both. */
  lemma DuplicateParametersDiverge(o: Oracle, aware: bool, mem: Memory) returns (enough: nat)
    requires Quiet(mem) && Plain(o)
    ensures RunFor(mem, TWICE, Standard(o, aware), Begin(CallOn("F", VALUES)), 9) == Some(Value(Num(2)))
    ensures C.CompileProgram("F", TWICE).Some?
    ensures ComesFrom(Standard(o, aware), C.CompileProgram("F", TWICE).value, TreeOf(VALUES), Cons(Num(1), Num(2)),
            enough)
  {
    hide RunFor, Bll.Run, C.CompileProgram, TreeOf, QuotedArgs, Begin, Plain, C.Keys, EntriesOf, C.FindEntry, ComesFrom;
    TwiceSymbolic(mem, Standard(o, aware));
    TwiceTree();
    TwiceFound();
    var tree := TreeOf(VALUES);
    assert Bll.Walk(tree, 1).value == Value(tree);
    enough := ReferenceRuns(o, aware, "F", ["X", "X"], "X", 1, tree, tree);
  }
}
