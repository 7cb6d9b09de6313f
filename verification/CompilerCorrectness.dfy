/** Compiler correctness: what the symbolic evaluator computes, the compiled
    program computes on the bll machine. */
module CompilerCorrectness {
  import opened Costs
  import opened Elements
  import opened OpTable
  import opened Opcodes
  import opened StandardRules
  import opened BllClosure
  import opened Layout
  import opened Symbll
  import opened SymbllRuns
  import opened EnoughBudget
  import opened CompiledCode
  import Bll = Machine
  import D = SymbllDirect
  import C = Compiler

  /** The globals of a program with their compiled bodies and the tree of them, and
      the allocator of the symbolic run. */
  datatype World = World(o: Oracle, aware: bool, mem: Memory, G: Globals, codes: map<string, Element>, tree: Element)

  function Cfg(w: World): Bll.Validator { Standard(w.o, w.aware) }

  function GI(w: World): C.Index { C.GlobalIndex(w.G) }

  function LI(names: seq<string>): C.Index { C.IndexOf(names, 3) }

  function Env(w: World, list: seq<Element>): Element { Cons(w.tree, TreeOf(list)) }

  predicate Distinct(names: seq<string>) {
    forall i, j | 0 <= i < j < |names| :: names[i] != names[j]
  }

  ghost predicate Sound(w: World) {
    && Plain(w.o)
    && (forall d | d in w.G :: d.name in w.codes && C.CompileFn(d, GI(w)) == Some(w.codes[d.name]))
    && Leads(w.tree, EntriesOf(C.NamesOf(w.G)), w.codes)
  }

  /** No function names a parameter twice. */
  predicate Proper(G: Globals) {
    forall d | d in G :: Distinct(d.params)
  }

  lemma {:induction false} DistinctKeys(names: seq<string>)
    requires Distinct(names)
    ensures C.Keys(names) == names
  {
    if names != [] {
      var init := names[..|names| - 1];
      DistinctKeys(init);
      assert names == init + [names[|names| - 1]];
    }
  }

  /** The locals hold the listed values under the listed names. */
  ghost predicate Scope(names: seq<string>, list: seq<Element>, env: Locals) {
    && Layout.Bound(names, list, env)
    && (forall name | name in env :: name in names)
    && AllBll(list)
  }

  // ----- references -----

  lemma LocalReference(w: World, names: seq<string>, list: seq<Element>, env: Locals, name: string)
    requires Scope(names, list, env)
    ensures name !in env ==> C.Position(LI(names), name).None?
    ensures name in env ==>
              && C.Position(LI(names), name).Some?
              && C.Position(LI(names), name).value >= 1
              && Bll.Walk(Env(w, list), C.Position(LI(names), name).value).value == Value(env[name])
              && IsBll(env[name])
  {
    hide Bll.Walk, Leads;
    LayoutAgrees(names, list, env);
    IndexedNames(names, name);
    if name in env {
      var i :| 0 <= i < |names| && names[i] == name;
      assert env[name] == list[i];
      PairWalk(w.tree, TreeOf(list));
      ReferenceAt(Env(w, list), TreeOf(list), EntriesOf(names), env, name, 3);
    }
  }

  lemma PairWalk(l: Element, r: Element)
    ensures Bll.Walk(Cons(l, r), 2).value == Value(l) && Bll.Walk(Cons(l, r), 3).value == Value(r)
  {
    assert Bll.Walk(l, 1).value == Value(l) && Bll.Walk(r, 1).value == Value(r);
  }

  lemma ReferenceAt(env: Element, tree: Element, es: seq<Entry>, values: map<string, Element>, name: string,
                    offset: nat)
    requires offset >= 1 && Bll.Walk(env, offset).value == Value(tree)
    requires Leads(tree, es, values) && Names(es, name)
    ensures name in values
    ensures var p := C.Position(C.Index(es, offset), name);
      p.Some? && p.value >= 1 && Bll.Walk(env, p.value).value == Value(values[name])
  {
    hide Bll.Walk;
    var pos := C.FindEntry(es, name).value;
    var i :| 0 <= i < |es| && es[i] == Entry(name, pos);
    WalkPlace(env, tree, pos, offset);
  }

  lemma GlobalReference(w: World, list: seq<Element>, d: Define)
    requires Sound(w) && d in w.G
    ensures var p := C.Position(GI(w), d.name);
      p.Some? && p.value >= 1 && Bll.Walk(Env(w, list), p.value).value == Value(w.codes[d.name])
  {
    hide Bll.Walk, Leads, TreeOf;
    var names := C.NamesOf(w.G);
    var i :| 0 <= i < |w.G| && w.G[i] == d;
    assert names[i] == d.name;
    IndexedNames(names, d.name);
    PairWalk(w.tree, TreeOf(list));
    ReferenceAt(Env(w, list), w.tree, EntriesOf(names), w.codes, d.name, 2);
  }

  // ----- the simulation -----

  predicate Usable(m: Meter) {
    !m.Latched() && m.guards.Outside?
  }

  type UsableMeter = m: Meter | Usable(m) witness Fresh(0)

  type BllValue = e: Element | IsBll(e) witness Nil

  /** A bll value on its way to the frames K, with a usable budget. */
  datatype Handed = Handed(v: BllValue, left: int, m: UsableMeter, n: nat)

  ghost predicate Hands(w: World, K: Stack, h: Handed, n: nat, res: Element) {
    && h.n < n
    && if K.Empty? then h.v == res
       else Alive(w.mem, w.G, Cfg(w), Settle(w.mem, Feedback(Cfg(w), K, Value(h.v), h.left, h.m)), h.n, res)
  }

  /** The value of an expression that says it outright. */
  function Literal(e: SExpr): Option<Element> {
    match e
    case SAtom(b) => Some(Atom(b))
    case Symbol(_) => None
    case SPair(op, args) => if op == Symbol("q") then ToBll(args) else None
  }

  function LiteralArgs(args: SExpr): Option<seq<Element>> {
    match args
    case SAtom(b) => if b == [] then Some([]) else None
    case Symbol(_) => None
    case SPair(arg, rest) =>
      var v, vs := Literal(arg), LiteralArgs(rest);
      if v.None? || vs.None? then None else Some([v.value] + vs.value)
  }

  /** A call that both machines collect and finish alike. */
  predicate Shared(fn: Fn) {
    match fn
    case Op(b) => BllBound(b)
    case Apply(_) => true
    case _ => false
  }

  type SharedFn = fn: Fn | Shared(fn) witness Apply(Bll.NoOperand)

  function Lower(fn: Fn): Bll.Fn
    requires Shared(fn)
  {
    match fn
    case Op(b) => Bll.Op(b)
    case Apply(operands) => Bll.Apply(operands)
  }

  lemma ValueStep(w: World, K: Stack, v: Element, left: int, m: Meter, n: nat, res: Element) returns (h: Handed)
    requires n > 0 && Usable(m) && IsBll(v)
    requires Alive(w.mem, w.G, Cfg(w), Settle(w.mem, Return(K, Value(v), left, m)), n - 1, res)
    ensures Hands(w, K, h, n, res) && h.v == v
  {
    hide Alive, Settle, Feedback;
    var n' := ReturnAlive(w.mem, w.G, Cfg(w), K, Value(v), left, m, n - 1, res);
    h := Handed(v, left - 1, m, n');
  }

  /** A run that raises does not end in a value. */
  lemma NoRaise(w: World, K: Stack, e: Error, left: int, m: Meter, n: nat, res: Element)
    ensures !Alive(w.mem, w.G, Cfg(w), Settle(w.mem, Raise(K, e, left, m)), n, res)
  {
    hide Alive;
    var s := Settle(w.mem, Raise(K, e, left, m));
    assert OnFin(s.frames) && s.frames.top.result.Failure?;
    FailureRuns(w.mem, w.G, Cfg(w), s.frames.rest, s.frames.top.result.error, s.left, s.m, n, res);
  }

  lemma {:induction false} SimEval(w: World, K: Stack, e: SExpr, names: seq<string>, list: seq<Element>, env: Locals,
                                   left: int, m: Meter, n: nat, res: Element) returns (h: Handed)
    requires Sound(w) && Proper(w.G) && Scope(names, list, env) && Usable(m) && !OnFin(K)
    requires Alive(w.mem, w.G, Cfg(w), State(Push(K, Eval(e, env)), left, m), n, res)
    requires C.CompileExpr(e, GI(w), LI(names)).Some?
    ensures Hands(w, K, h, n, res)
    ensures Yields(Cfg(w), C.CompileExpr(e, GI(w), LI(names)).value, Env(w, list), h.v)
    ensures Literal(e).Some? ==> h.v == Literal(e).value
    decreases n, 4
  {
    hide Alive, Settle, Feedback, Sound, Scope, Yields, C.CompileIf, C.CompileArgs, C.CallCode, TreeOf, RunFor;
    StepAlive(w.mem, w.G, Cfg(w), K, Eval(e, env), left, m, n, res);
    match e {
      case SAtom(b) =>
        h := ValueStep(w, K, Atom(b), left, m, n, res);
        if b == [] {
          NilYields(Cfg(w), Env(w, list));
        } else {
          QuoteYields(Cfg(w), Atom(b), Env(w, list));
        }
      case Symbol(name) => h := SimSymbol(w, K, name, names, list, env, left, m, n, res);
      case SPair(op, args) => h := SimPair(w, K, op.name, args, names, list, env, left, m, n, res);
    }
  }

  lemma SimSymbol(w: World, K: Stack, name: string, names: seq<string>, list: seq<Element>, env: Locals,
                  left: int, m: Meter, n: nat, res: Element) returns (h: Handed)
    requires Sound(w) && Proper(w.G) && Scope(names, list, env) && Usable(m) && n > 0
    requires Alive(w.mem, w.G, Cfg(w), Settle(w.mem, StepEval(w.G, K, Symbol(name), env, left, m)), n - 1, res)
    requires C.ResolveIndex(name, GI(w), LI(names)).Some?
    ensures Hands(w, K, h, n, res)
    ensures Yields(Cfg(w), Num(C.ResolveIndex(name, GI(w), LI(names)).value), Env(w, list), h.v)
  {
    hide Alive, Settle, Sound, Scope, Yields, C.Position, TreeOf;
    h := Handed(Nil, 0, m, 0);
    match ResolveCall(w.G, env, name) {
      case Holds(v) =>
        LocalReference(w, names, list, env, name);
        h := ValueStep(w, K, v, left, m, n, res);
        ReferenceYields(Cfg(w), C.Position(LI(names), name).value, Env(w, list), v);
      case Calls(_) => NoRaise(w, K, OutsideModel, left, m, n - 1, res);
      case Missing(err) => NoRaise(w, K, err, left, m, n - 1, res);
    }
  }

  lemma {:induction false} SimPair(w: World, K: Stack, name: string, args: SExpr, names: seq<string>,
                                   list: seq<Element>,
                                   env: Locals, left: int, m: Meter, n: nat, res: Element) returns (h: Handed)
    requires Sound(w) && Proper(w.G) && Scope(names, list, env) && Usable(m) && !OnFin(K) && n > 0
    requires Alive(w.mem, w.G, Cfg(w), Settle(w.mem, StepEval(w.G, K, SPair(Symbol(name), args), env, left, m)), n - 1,
             res)
    requires C.CompileExpr(SPair(Symbol(name), args), GI(w), LI(names)).Some?
    ensures Hands(w, K, h, n, res)
    ensures Yields(Cfg(w), C.CompileExpr(SPair(Symbol(name), args), GI(w), LI(names)).value, Env(w, list), h.v)
    ensures name == "q" ==> Some(h.v) == ToBll(args)
    decreases n, 3
  {
    hide Alive, Settle, Feedback, Sound, Scope, Yields, C.CompileIf, C.CompileArgs, C.CallCode, TreeOf, RunFor,
         TableOp, OpNumber, Shared, C.ResolveIndex, Proper, Find;
    var code := C.CompileExpr(SPair(Symbol(name), args), GI(w), LI(names)).value;
    h := Handed(Nil, 0, m, 0);
    match ResolveCall(w.G, env, name) {
      case Holds(_) => NoRaise(w, K, NotAFunction, left, m, n - 1, res);
      case Missing(err) => NoRaise(w, K, err, left, m, n - 1, res);
      case Calls(fn) =>
        CallAlive(w, K, fn, args, env, left, m, n - 1, res);
        if name == "q" {
          h := SimQuote(w, K, args, env, left - 1, m, n - 1, res);
          ToBllIsBll(args);
          QuoteYields(Cfg(w), h.v, Env(w, list));
        } else if name == "if" {
          h := SimIf(w, K, args, names, list, env, left - 1, m, n - 1, res);
          HandsLater(w, K, h, n - 1, n, res);
        } else if fn.User? {
          h := SimUserCall(w, K, name, args, names, list, env, left - 1, m, n - 1, res);
          HandsLater(w, K, h, n - 1, n, res);
        } else {
          h := SimBuiltin(w, K, fn, name, args, names, list, env, left - 1, m, n - 1, res);
          HandsLater(w, K, h, n - 1, n, res);
        }
    }
  }

  /** A call of apply or of a table opcode. */
  lemma {:induction false} SimBuiltin(w: World, K: Stack, fn: Fn, name: string, args: SExpr, names: seq<string>,
                                      list: seq<Element>, env: Locals, left: int, m: Meter, n: nat, res: Element)
    returns (h: Handed)
    requires Sound(w) && Proper(w.G) && Scope(names, list, env) && Usable(m) && !OnFin(K)
    requires ResolveCall(w.G, env, name) == Calls(fn) && !fn.Quote? && !fn.If? && !fn.User?
    requires Alive(w.mem, w.G, Cfg(w), State(Push(K, Call(fn, args, env)), left, m), n, res)
    requires C.CompileExpr(SPair(Symbol(name), args), GI(w), LI(names)).Some?
    ensures Hands(w, K, h, n, res)
    ensures Yields(Cfg(w), C.CompileExpr(SPair(Symbol(name), args), GI(w), LI(names)).value, Env(w, list), h.v)
    decreases n, 2
  {
    hide Alive, Settle, Feedback, Sound, Scope, Yields, CallYields, C.CompileIf, C.CompileArgs, C.CallCode, TreeOf,
         RunFor, TableOp, Shared, C.ResolveIndex, OpNumber;
    FreshShared(fn, name);
    h := SimCall(w, K, fn, args, names, list, env, left, m, n, res);
    ArgsAreBll(args, GI(w), LI(names));
    BuiltinYields(w, fn, name, args, names, Env(w, list), h.v);
  }

  lemma BuiltinYields(w: World, fn: Fn, name: string, args: SExpr, names: seq<string>, env: Element, v: Element)
    requires Shared(fn) && ResolveCall(w.G, map[], name) == Calls(fn) && !fn.User?
    requires C.CompileExpr(SPair(Symbol(name), args), GI(w), LI(names)).Some?
    requires C.CompileArgs(args, GI(w), LI(names)).Some? && IsBll(C.CompileArgs(args, GI(w), LI(names)).value)
    requires CallYields(Cfg(w), Lower(fn), C.CompileArgs(args, GI(w), LI(names)).value, env, v)
    ensures Yields(Cfg(w), C.CompileExpr(SPair(Symbol(name), args), GI(w), LI(names)).value, env, v)
  {
    hide Yields, CallYields, C.CompileIf, C.CompileArgs, C.CallCode, TableOp, C.ResolveIndex;
    var cargs := C.CompileArgs(args, GI(w), LI(names)).value;
    if name == "a" {
      ApplyCodeYields(Cfg(w), cargs, env, v);
    } else {
      TableYields(Cfg(w), OpNumber(name).value, fn.bound, cargs, env, v);
    }
  }

  lemma CallAlive(w: World, K: Stack, fn: Fn, args: SExpr, env: Locals, left: int, m: Meter, n: nat, res: Element)
    requires Alive(w.mem, w.G, Cfg(w), Settle(w.mem, State(Push(K, Call(fn, args, env)), left, m)), n, res)
    ensures Alive(w.mem, w.G, Cfg(w), State(Push(K, Call(fn, args, env)), left - 1, m), n, res)
  {
    hide Alive, Settle;
    SettleAlive(w.mem, w.G, Cfg(w), State(Push(K, Call(fn, args, env)), left, m), n, res);
  }

  lemma HandsLater(w: World, K: Stack, h: Handed, n: nat, n': nat, res: Element)
    requires Hands(w, K, h, n, res) && n <= n'
    ensures Hands(w, K, h, n', res)
  {
    hide Alive;
  }

  /** A fresh binding from the table holds no values yet. */
  lemma FreshShared(fn: Fn, name: string)
    requires match fn
      case Apply(operands) => operands.NoOperand?
      case Op(b) => OpNumber(name).Some? && TableOp(OpNumber(name).value) == Some(b)
      case _ => false
    ensures Shared(fn)
  {
    hide OpNumber;
  }

  /** A value handed over with nothing below it is the result. */
  lemma TopValue(w: World, v: Element, left: int, m: Meter, n: nat, res: Element)
    requires Alive(w.mem, w.G, Cfg(w), Settle(w.mem, Feedback(Cfg(w), Empty, Value(v), left, m)), n, res)
    ensures v == res
  {
    hide RunFor;
    var n' := ReturnAlive(w.mem, w.G, Cfg(w), Empty, Value(v), left, m, n, res);
  }

  lemma SimQuote(w: World, K: Stack, args: SExpr, env: Locals, left: int, m: Meter, n: nat, res: Element)
    returns (h: Handed)
    requires Usable(m) && Alive(w.mem, w.G, Cfg(w), State(Push(K, Call(Quote, args, env)), left, m), n, res)
    requires ToBll(args).Some?
    ensures Hands(w, K, h, n + 1, res) && h.v == ToBll(args).value
  {
    hide Alive, Settle, Feedback;
    StepAlive(w.mem, w.G, Cfg(w), K, Call(Quote, args, env), left, m, n, res);
    ToBllIsBll(args);
    h := Handed(ToBll(args).value, left, m, n - 1);
    if K.Empty? {
      TopValue(w, h.v, left, m, n - 1, res);
    }
  }

  /** Pushing an argument's evaluation over the call that waits for it. */
  lemma ArgumentAlive(w: World, K: Stack, fn: Fn, args: SExpr, env: Locals, left: int, m: Meter, n: nat, res: Element)
    requires args.SPair? && !fn.Quote? && !(fn.User? && fn.dangling == [])
    requires Alive(w.mem, w.G, Cfg(w), State(Push(K, Call(fn, args, env)), left, m), n, res)
    ensures n > 0
    ensures Alive(w.mem, w.G, Cfg(w),
            State(Push(Push(K, Call(fn, args.right, env)), Eval(args.left, env)), left - 1, m), n - 1, res)
  {
    hide Alive, Settle;
    StepAlive(w.mem, w.G, Cfg(w), K, Call(fn, args, env), left, m, n, res);
    SettleAlive(w.mem, w.G, Cfg(w), State(Push(Push(K, Call(fn, args.right, env)), Eval(args.left, env)), left, m),
        n - 1, res);
  }

  lemma {:induction false} SimCall(w: World, K: Stack, fn: Fn, args: SExpr, names: seq<string>, list: seq<Element>,
                                   env: Locals, left: int, m: Meter, n: nat, res: Element) returns (h: Handed)
    requires Sound(w) && Proper(w.G) && Scope(names, list, env) && Usable(m) && !OnFin(K) && Shared(fn)
    requires Alive(w.mem, w.G, Cfg(w), State(Push(K, Call(fn, args, env)), left, m), n, res)
    requires C.CompileArgs(args, GI(w), LI(names)).Some?
    ensures Hands(w, K, h, n, res)
    ensures CallYields(Cfg(w), Lower(fn), C.CompileArgs(args, GI(w), LI(names)).value, Env(w, list), h.v)
    decreases n, 0
  {
    hide Alive, Settle, Feedback, Sound, Scope, Yields, CallYields, C.CompileExpr, TreeOf, RunFor, Deliver, StepCall,
         Shared, Lower, Env;
    if args == SNil {
      h := SimFinish(w, K, fn, Env(w, list), env, left, m, n, res);
    } else {
      SharedNotQuote(fn);
      ArgumentAlive(w, K, fn, args, env, left, m, n, res);
      var J := Push(K, Call(fn, args.right, env));
      var h1 := SimEval(w, J, args.left, names, list, env, left - 1, m, n - 1, res);
      var fn', m' := SimReceive(w, K, fn, args.right, env, h1, n - 1, res,
                                C.CompileArgs(args.right, GI(w), LI(names)).value == Nil);
      h := SimCall(w, K, fn', args.right, names, list, env, h1.left - 1, m', h1.n, res);
      HandsLater(w, K, h, h1.n, n, res);
      var arg, rest := C.CompileExpr(args.left, GI(w), LI(names)).value,
          C.CompileArgs(args.right, GI(w), LI(names)).value;
      ArgumentYields(Cfg(w), Lower(fn), arg, h1.v, Lower(fn'), rest, Env(w, list), h.v);
    }
  }

  lemma SharedNotQuote(fn: Fn)
    requires Shared(fn)
    ensures !Lower(fn).Quote? && !fn.Quote? && !fn.User? && !fn.If?
  {
  }

  /** A shared call takes delivery of a value exactly as on the bll machine. */
  lemma SimReceive(w: World, K: Stack, fn: Fn, rest: SExpr, env: Locals, h: Handed, n: nat, res: Element, last: bool)
    returns (fn': SharedFn, m': UsableMeter)
    requires Sound(w) && Shared(fn) && !OnFin(K)
    requires Hands(w, Push(K, Call(fn, rest, env)), h, n, res)
    ensures Bll.Receive(Cfg(w), Lower(fn), h.v, last).value == Bll.Then(Lower(fn'))
    ensures Alive(w.mem, w.G, Cfg(w), State(Push(K, Call(fn', rest, env)), h.left - 1, m'), h.n, res)
  {
    hide Alive, Settle, Sound, Feed, RunFor;
    var s := Deliver(Cfg(w), K, Call(fn, rest, env), h.v, h.left, h.m);
    SettleAlive(w.mem, w.G, Cfg(w), s, h.n, res);
    match fn {
      case Op(b) =>
        PlainWorld(w);
        FeedBll(w.o, b, h.v);
        m' := s.m;
        var fed := Feed(w.o, b, h.v).value;
        fn' := fn;
        if fed.Fault? {
          NoRaise(w, K, fed.error, h.left, m', h.n, res);
        } else {
          fn' := Op(fed.bound);
        }
      case Apply(NoOperand) => fn', m' := Apply(Bll.Program(h.v)), h.m;
      case Apply(Program(p)) => fn', m' := Apply(Bll.Both(p, h.v)), h.m;
      case Apply(Both(_, _)) =>
        fn', m' := fn, h.m;
        NoRaise(w, K, TooManyArguments, h.left, h.m, h.n, res);
    }
  }

  lemma PlainWorld(w: World)
    requires Sound(w)
    ensures Plain(w.o)
  {
  }

  /** A shared call finishes exactly as on the bll machine. */
  lemma SimFinish(w: World, K: Stack, fn: Fn, bllEnv: Element, env: Locals, left: int, m: Meter, n: nat, res: Element)
    returns (h: Handed)
    requires Sound(w) && Usable(m) && !OnFin(K) && Shared(fn)
    requires Alive(w.mem, w.G, Cfg(w), State(Push(K, Call(fn, SNil, env)), left, m), n, res)
    ensures Hands(w, K, h, n, res)
    ensures CallYields(Cfg(w), Lower(fn), Nil, bllEnv, h.v)
  {
    hide Alive, Settle, Sound, Opcodes.Finish, RunFor, CallYields, Bll.Halt, Drive, Bll.Report;
    StepAlive(w.mem, w.G, Cfg(w), K, Call(fn, SNil, env), left, m, n, res);
    h := Handed(Nil, 0, m, 0);
    match fn {
      case Op(b) =>
        PlainWorld(w);
        FinishBll(w.o, b);
        var r := Opcodes.Finish(w.o, b);
        var paid := Charge(m, r.cost);
        if paid.Latched() {
          SettleAlive(w.mem, w.G, Cfg(w), State(K, left, paid), n - 1, res);
        }
        if r.value.Failure? {
          NoRaise(w, K, r.value.error, left, paid, n - 1, res);
        }
        h := ValueStep(w, K, r.value.value, left, paid, n, res);
        OpFinish(w.o, w.aware, b, bllEnv, h.v);
      case Apply(Both(p, e)) =>
        h := SimNested(w, K, p, e, left, m, n, res);
        ApplyYields(Cfg(w), Bll.Both(p, e), bllEnv, h.v);
      case Apply(_) =>
        NoRaise(w, K, TooFewArguments, left, m, n - 1, res);
    }
  }

  lemma SimNested(w: World, K: Stack, p: Element, e: Element, left: int, m: Meter, n: nat, res: Element)
    returns (h: Handed)
    requires n > 0 && Usable(m)
    requires Alive(w.mem, w.G, Cfg(w), Settle(w.mem, Nested(w.mem, Cfg(w), K, p, e, left, m)), n - 1, res)
    ensures Hands(w, K, h, n, res) && Yields(Cfg(w), p, e, h.v)
  {
    hide Alive, Settle, RunFor, Yields, Bll.Halt, Drive, Bll.Report;
    var d := Drive(w.mem, Cfg(w), Bll.State(Bll.Push(Bll.Empty, Bll.Eval(p, e)), m), left);
    if d.aborted.Some? {
      NoRaise(w, K, d.aborted.value, d.left, ClearAllowances(d.s.m), n - 1, res);
    }
    var r := Bll.Report(d.s).result;
    if r.Failure? {
      NoRaise(w, K, r.error, d.left, if d.s.m.alloc || d.s.m.exhausted then ClearAllowances(d.s.m) else d.s.m, n - 1,
          res);
    }
    NestedYields(Cfg(w), p, e, m, r.value);
    h := ValueStep(w, K, r.value, d.left, d.s.m, n, res);
  }

  // ----- if -----

  lemma {:induction false} SimIf(w: World, K: Stack, args: SExpr, names: seq<string>, list: seq<Element>, env: Locals,
                                 left: int, m: Meter, n: nat, res: Element) returns (h: Handed)
    requires Sound(w) && Proper(w.G) && Scope(names, list, env) && Usable(m) && !OnFin(K)
    requires Alive(w.mem, w.G, Cfg(w), State(Push(K, Call(If, args, env)), left, m), n, res)
    requires C.CompileIf(args, GI(w), LI(names)).Some?
    ensures Hands(w, K, h, n, res)
    ensures Yields(Cfg(w), C.CompileIf(args, GI(w), LI(names)).value, Env(w, list), h.v)
    decreases n, 0
  {
    hide Alive, Settle, Sound, Scope, Yields, C.CompileExpr, TreeOf, RunFor, StepCall, Env, C.List2, C.List3, C.List4;
    ArgumentAlive(w, K, If, args, env, left, m, n, res);
    var J, rest := Push(K, Call(If, args.right, env)), args.right;
    var h1 := SimEval(w, J, args.left, names, list, env, left - 1, m, n - 1, res);
    var b := SimBranch(w, K, rest, env, h1, n - 1, res);
    BranchCompiles(h1.v, rest, b, GI(w), LI(names), args.left);
    h := SimEval(w, K, b, names, list, env, h1.left - 1, h1.m, h1.n, res);
    HandsLater(w, K, h, h1.n, n, res);
    SelectedYields(w, args.left, h1.v, rest, b, h.v, names, Env(w, list));
  }

  lemma SimBranch(w: World, K: Stack, rest: SExpr, env: Locals, h: Handed, n: nat, res: Element) returns (b: SExpr)
    requires !OnFin(K) && Hands(w, Push(K, Call(If, rest, env)), h, n, res)
    ensures Branch(h.v, rest) == Selected(b)
    ensures Alive(w.mem, w.G, Cfg(w), State(Push(K, Eval(b, env)), h.left - 1, h.m), h.n, res)
  {
    hide Alive, Settle, RunFor, Branch;
    SettleAlive(w.mem, w.G, Cfg(w), Deliver(Cfg(w), K, Call(If, rest, env), h.v, h.left, h.m), h.n, res);
    match Branch(h.v, rest) {
      case Selected(branch) => b := branch;
      case Refused(e) => NoRaise(w, K, e, h.left, h.m, h.n, res);
      case Unassigned => NoException(w, K, h.left, h.m, h.n, res);
    }
  }

  lemma NoException(w: World, K: Stack, left: int, m: Meter, n: nat, res: Element)
    ensures !Alive(w.mem, w.G, Cfg(w), Settle(w.mem, State(Push(K, Exception), left, m)), n, res)
  {
  }

  lemma BranchCompiles(v: Element, rest: SExpr, b: SExpr, globals: C.Index, locals: C.Index, cond: SExpr)
    requires Branch(v, rest) == Selected(b)
    requires C.CompileIf(SPair(cond, rest), globals, locals).Some?
    ensures C.CompileExpr(b, globals, locals).Some?
  {
    assert C.CompileExpr(SAtom([1]), globals, locals).Some? && C.CompileExpr(SNil, globals, locals).Some?;
    hide C.CompileExpr;
  }

  /** The compiled if yields the selected branch's value. */
  lemma SelectedYields(w: World, cond: SExpr, vc: Element, rest: SExpr, b: SExpr, v: Element, names: seq<string>,
                       env: Element)
    requires IsBll(vc) && Branch(vc, rest) == Selected(b)
    requires C.CompileIf(SPair(cond, rest), GI(w), LI(names)).Some?
    requires Yields(Cfg(w), C.CompileExpr(cond, GI(w), LI(names)).value, env, vc)
    requires C.CompileExpr(b, GI(w), LI(names)).Some?
    requires Yields(Cfg(w), C.CompileExpr(b, GI(w), LI(names)).value, env, v)
    requires Literal(b).Some? ==> v == Literal(b).value
    ensures Yields(Cfg(w), C.CompileIf(SPair(cond, rest), GI(w), LI(names)).value, env, v)
  {
    hide Yields, C.CompileExpr, C.List2, C.List3, C.List4, C.Quoted;
    var gi, li := GI(w), LI(names);
    var c := C.CompileExpr(cond, gi, li).value;
    ExprIsBll(cond, gi, li);
    BranchDefaults(vc, rest, b);
    hide Branch;
    if !rest.SPair? {
      Select0Yields(w.o, w.aware, c, vc, env);
    } else {
      var t := C.CompileExpr(rest.left, gi, li).value;
      ExprIsBll(rest.left, gi, li);
      QuotedBll(t);
      if !rest.right.SPair? {
        Select1Yields(w.o, w.aware, c, vc, t, env);
        var sel := C.List3(Num(5), c, C.Quoted(t));
        List3Bll(Num(5), c, C.Quoted(t));
        NilYields(Cfg(w), env);
        Apply1Yields(Cfg(w), sel, env, Chosen(vc, [t]), v);
      } else {
        var e := C.CompileExpr(rest.right.left, gi, li).value;
        ExprIsBll(rest.right.left, gi, li);
        QuotedBll(e);
        Select2Yields(w.o, w.aware, c, vc, t, e, env);
        List4Bll(Num(5), c, C.Quoted(t), C.Quoted(e));
        Apply1Yields(Cfg(w), C.List4(Num(5), c, C.Quoted(t), C.Quoted(e)), env, Chosen(vc, [t, e]), v);
      }
    }
  }

  lemma BranchDefaults(v: Element, rest: SExpr, b: SExpr)
    requires Branch(v, rest) == Selected(b)
    ensures b == if v == Nil then (if rest.SPair? && rest.right.SPair? then rest.right.left else SNil)
                 else if rest.SPair? then rest.left else SAtom([1])
  {
  }

  // ----- user functions -----

  lemma {:induction false} SimUserCall(w: World, K: Stack, name: string, args: SExpr, names: seq<string>,
                                       list: seq<Element>,
                                       env: Locals, left: int, m: Meter, n: nat, res: Element) returns (h: Handed)
    requires Sound(w) && Proper(w.G) && Scope(names, list, env) && Usable(m) && !OnFin(K)
    requires !Builtin(name) && name !in env && Find(w.G, name).Some?
    requires var d := Find(w.G, name).value;
      Alive(w.mem, w.G, Cfg(w), State(Push(K, Call(User(d.body, d.params, map[]), args, env)), left, m), n, res)
    requires C.CompileExpr(SPair(Symbol(name), args), GI(w), LI(names)).Some?
    ensures Hands(w, K, h, n, res)
    ensures Yields(Cfg(w), C.CompileExpr(SPair(Symbol(name), args), GI(w), LI(names)).value, Env(w, list), h.v)
    decreases n, 2
  {
    hide Alive, Settle, Sound, Scope, Yields, CallYields, C.CompileArgs, TreeOf, RunFor, C.CallCode, C.CompileIf,
         C.Position;
    var d := Find(w.G, name).value;
    var cargs := C.CompileArgs(args, GI(w), LI(names)).value;
    assert d.params[0..] == d.params;
    EmptyScope(d.params);
    var vs;
    h, vs := SimUser(w, K, d, [], map[], args, names, list, env, left, m, n, res);
    LocalReference(w, names, list, env, name);
    GlobalReference(w, list, d);
    ArgsAreBll(args, GI(w), LI(names));
    CallCodeYields(w.o, w.aware, C.Position(GI(w), name).value, cargs, w.tree, TreeOf(list), w.codes[name], TreeOf(vs),
        h.v);
  }

  /** Collecting the arguments of a user function while b builds the tree of
      them, then running its body. */
  lemma {:induction false} SimUser(w: World, K: Stack, d: Define, done: seq<Element>, sat: Locals, args: SExpr,
                                   names: seq<string>, list: seq<Element>, env: Locals,
                                   left: int, m: Meter, n: nat, res: Element) returns (h: Handed, vs: seq<Element>)
    requires Sound(w) && Proper(w.G) && Scope(names, list, env) && Usable(m) && !OnFin(K)
    requires d in w.G && |done| <= |d.params| && Scope(d.params[..|done|], done, sat)
    requires Alive(w.mem, w.G, Cfg(w), State(Push(K, Call(User(d.body, d.params[|done|..], sat), args, env)), left, m),
             n, res)
    requires C.CompileArgs(args, GI(w), LI(names)).Some?
    ensures Hands(w, K, h, n, res)
    ensures CallYields(Cfg(w), Bll.Op(Counter(|done|, Trees(done))), C.CompileArgs(args, GI(w), LI(names)).value,
                       Env(w, list), TreeOf(vs))
    ensures d.name in w.codes && Yields(Cfg(w), w.codes[d.name], Cons(w.tree, TreeOf(vs)), h.v)
    ensures LiteralArgs(args).Some? ==> vs == done + LiteralArgs(args).value
    decreases n, 1
  {
    hide Alive, Settle, Sound, Scope, Yields, CallYields, C.CompileExpr, TreeOf, Trees, RunFor, Deliver, StepCall;
    var fn := User(d.body, d.params[|done|..], sat);
    if args == SNil {
      vs := done;
      h := SimBody(w, K, d, done, sat, args, env, left, m, n, res);
      TreeFinish(w, done, Env(w, list));
    } else {
      UserAlive(w, K, fn, args, env, left, m, n, res);
      ArgumentAlive(w, K, fn, args, env, left, m, n, res);
      var J := Push(K, Call(fn, args.right, env));
      var h1 := SimEval(w, J, args.left, names, list, env, left - 1, m, n - 1, res);
      var v, k := h1.v, |done|;
      AssignAlive(w, K, fn, args.right, env, h1, n - 1, res);
      ExtendScope(w, d, done, sat, v);
      assert d.params[k..][1..] == d.params[k + 1..];
      h, vs := SimUser(w, K, d, done + [v], sat[d.params[k] := v], args.right, names, list, env, h1.left - 1, h1.m,
          h1.n, res);
      HandsLater(w, K, h, h1.n, n, res);
      TreeArgument(w, done, v, C.CompileExpr(args.left, GI(w), LI(names)).value,
                   C.CompileArgs(args.right, GI(w), LI(names)).value, Env(w, list), TreeOf(vs));
    }
  }

  lemma BodyCode(w: World, d: Define)
    requires Sound(w) && Proper(w.G) && d in w.G
    ensures d.name in w.codes && C.CompileExpr(d.body, GI(w), LI(d.params)) == Some(w.codes[d.name])
  {
    hide C.CompileExpr, Leads, Plain, C.Keys;
    DistinctKeys(d.params);
  }

  lemma {:induction false} SimBody(w: World, K: Stack, d: Define, done: seq<Element>, sat: Locals, args: SExpr,
                                   env: Locals, left: int, m: Meter, n: nat, res: Element) returns (h: Handed)
    requires Sound(w) && Proper(w.G) && Usable(m) && !OnFin(K) && args == SNil
    requires d in w.G && |done| <= |d.params| && Scope(d.params[..|done|], done, sat)
    requires Alive(w.mem, w.G, Cfg(w), State(Push(K, Call(User(d.body, d.params[|done|..], sat), args, env)), left, m),
             n, res)
    ensures Hands(w, K, h, n, res)
    ensures d.name in w.codes && Yields(Cfg(w), w.codes[d.name], Cons(w.tree, TreeOf(done)), h.v)
    decreases n, 0
  {
    hide Alive, Settle, Scope, Yields, C.CompileExpr, TreeOf, RunFor, Deliver, Sound, Proper, Distinct;
    BodyCode(w, d);
    var fn := User(d.body, d.params[|done|..], sat);
    StepAlive(w.mem, w.G, Cfg(w), K, Call(fn, args, env), left, m, n, res);
    if |done| < |d.params| {
      NoRaise(w, K, TooFewArguments, left, m, n - 1, res);
    }
    assert d.params[..|done|] == d.params;
    SettleAlive(w.mem, w.G, Cfg(w), State(Push(K, Eval(d.body, sat)), left, m), n - 1, res);
    h := SimEval(w, K, d.body, d.params, done, sat, left - 1, m, n - 1, res);
    HandsLater(w, K, h, n - 1, n, res);
  }

  lemma UserAlive(w: World, K: Stack, fn: Fn, args: SExpr, env: Locals, left: int, m: Meter, n: nat, res: Element)
    requires fn.User? && args.SPair?
    requires Alive(w.mem, w.G, Cfg(w), State(Push(K, Call(fn, args, env)), left, m), n, res)
    ensures fn.dangling != []
  {
    hide Alive, Settle;
    StepAlive(w.mem, w.G, Cfg(w), K, Call(fn, args, env), left, m, n, res);
    if fn.dangling == [] {
      NoRaise(w, K, TooManyArguments, left, m, n - 1, res);
    }
  }

  lemma AssignAlive(w: World, K: Stack, fn: Fn, rest: SExpr, env: Locals, h: Handed, n: nat, res: Element)
    requires fn.User? && fn.dangling != [] && Hands(w, Push(K, Call(fn, rest, env)), h, n, res)
    ensures Alive(w.mem, w.G, Cfg(w),
                  State(Push(K, Call(User(fn.body, fn.dangling[1..], fn.satisfied[fn.dangling[0] := h.v]), rest, env)),
                        h.left - 1, h.m), h.n, res)
  {
    hide Alive, Settle;
    SettleAlive(w.mem, w.G, Cfg(w), Deliver(Cfg(w), K, Call(fn, rest, env), h.v, h.left, h.m), h.n, res);
  }

  lemma EmptyScope(names: seq<string>)
    ensures Scope(names[..0], [], map[])
  {
  }

  lemma ExtendScope(w: World, d: Define, done: seq<Element>, sat: Locals, v: Element)
    requires Proper(w.G) && d in w.G && |done| < |d.params| && Scope(d.params[..|done|], done, sat) && IsBll(v)
    ensures Scope(d.params[..|done| + 1], done + [v], sat[d.params[|done|] := v])
  {
    hide Scope;
    var names, name := d.params[..|done|], d.params[|done|];
    assert name !in names;
    assert d.params[..|done| + 1] == names + [name];
    OneMoreName(names, done, sat, name, v);
  }

  lemma OneMoreName(names: seq<string>, list: seq<Element>, env: Locals, name: string, v: Element)
    requires Scope(names, list, env) && name !in names && IsBll(v)
    ensures Scope(names + [name], list + [v], env[name := v])
  {
    hide IsBll;
    assert (names + [name])[|names|] == name;
  }

  lemma TreeFinish(w: World, done: seq<Element>, env: Element)
    ensures CallYields(Cfg(w), Bll.Op(Counter(|done|, Trees(done))), Nil, env, TreeOf(done))
  {
    hide Trees, CallYields, Gather;
    OpFinish(w.o, w.aware, Counter(|done|, Trees(done)), env, TreeOf(done));
  }

  lemma FeedCounter(o: Oracle, n: nat, trees: seq<Element>, v: Element)
    ensures Feed(o, Counter(n, trees), v).value == Next(Counter(n + 1, Carry(n, v, trees)))
  {
    hide Carry;
  }

  lemma TreesSnoc(done: seq<Element>, v: Element)
    ensures Trees(done + [v]) == Carry(|done|, v, Trees(done))
  {
    hide Carry;
    assert (done + [v])[..|done|] == done;
  }

  lemma TreeArgument(w: World, done: seq<Element>, v: Element, arg: Element, rest: Element, env: Element, tree: Element)
    requires Yields(Cfg(w), arg, env, v)
    requires CallYields(Cfg(w), Bll.Op(Counter(|done| + 1, Trees(done + [v]))), rest, env, tree)
    ensures CallYields(Cfg(w), Bll.Op(Counter(|done|, Trees(done))), Cons(arg, rest), env, tree)
  {
    hide CallYields, Yields, Carry, Trees, Feed;
    TreesSnoc(done, v);
    FeedCounter(w.o, |done|, Trees(done), v);
    OpArgument(w.o, w.aware, Counter(|done|, Trees(done)), arg, v, Counter(|done| + 1, Trees(done + [v])), rest, env,
        tree);
  }

  // ----- whole programs -----

  /** The argument list ((q . v1) ... (q . vn)). */
  function QuotedArgs(values: seq<Element>): SExpr
    requires AllBll(values)
  {
    if values == [] then SNil
    else SPair(SPair(Symbol("q"), FromBll(values[0])), QuotedArgs(values[1..]))
  }

  lemma {:induction false} QuotedArgsLiteral(values: seq<Element>, globals: C.Index, locals: C.Index)
    requires AllBll(values)
    ensures LiteralArgs(QuotedArgs(values)) == Some(values)
    ensures C.CompileArgs(QuotedArgs(values), globals, locals).Some?
  {
    if values != [] {
      FromBllRoundTrip(values[0]);
      QuotedArgsLiteral(values[1..], globals, locals);
      assert values == [values[0]] + values[1..];
      var q := SPair(Symbol("q"), FromBll(values[0]));
      assert Literal(q) == Some(values[0]);
      assert C.CompileExpr(q, globals, locals).Some?;
    }
  }

  /** The b-tree of the compiled globals, built by the program itself. */
  lemma {:induction false} GlobalsYield(w: World, done: seq<Element>, rest: seq<Element>, env: Element)
    requires AllBll(rest)
    ensures CallYields(Cfg(w), Bll.Op(Counter(|done|, Trees(done))), C.QuoteAll(rest), env, TreeOf(done + rest))
    ensures IsBll(C.QuoteAll(rest))
    decreases |rest|
  {
    hide CallYields, Yields, TreeOf, Trees;
    if rest == [] {
      assert done + rest == done;
      TreeFinish(w, done, env);
    } else {
      GlobalsYield(w, done + [rest[0]], rest[1..], env);
      assert done + [rest[0]] + rest[1..] == done + rest;
      QuoteYields(Cfg(w), rest[0], env);
      TreeArgument(w, done, rest[0], C.Quoted(rest[0]), C.QuoteAll(rest[1..]), env, TreeOf(done + rest));
    }
  }

  /** The compiled program rebuilds the globals and runs the chosen function over
      them and its own environment. */
  lemma ProgramYields(w: World, d: Define, codes: seq<Element>, args: Element, v: Element)
    requires Sound(w) && d in w.G && w.tree == TreeOf(codes) && AllBll(codes)
    requires Yields(Cfg(w), w.codes[d.name], Cons(w.tree, args), v)
    requires C.CompileAll(w.G, GI(w)) == Some(codes)
    ensures C.CompileProgram(d.name, w.G).Some?
    ensures Yields(Cfg(w), C.CompileProgram(d.name, w.G).value, args, v)
  {
    hide Yields, CallYields, TreeOf, Sound, C.QuoteAll, C.CompileAll, C.Position, C.List2, C.List3, Bll.Walk;
    var cfg, p := Cfg(w), C.Position(GI(w), d.name);
    ProgramReference(w, d, args);
    var inner, whole := C.List2(Num(1), Num(p.value)), Cons(w.tree, args);
    List2Bll(Num(1), Num(p.value));
    QuotedBll(inner);
    QuoteYields(cfg, inner, args);
    var build := EnvironmentYields(w, codes, args);
    ReferenceYields(cfg, p.value, whole, w.codes[d.name]);
    Apply1Yields(cfg, Num(p.value), whole, w.codes[d.name], v);
    Apply2Yields(cfg, C.Quoted(inner), build, args, inner, whole, v);
  }

  /** (rc 1 (b (q . CODE)...)) is the environment of globals and arguments. */
  lemma EnvironmentYields(w: World, codes: seq<Element>, args: Element) returns (build: Element)
    requires w.tree == TreeOf(codes) && AllBll(codes)
    ensures build == C.List3(Num(6), Num(1), Cons(Num(10), C.QuoteAll(codes)))
    ensures IsBll(build) && Yields(Cfg(w), build, args, Cons(w.tree, args))
  {
    hide Yields, CallYields, TreeOf, C.QuoteAll;
    GlobalsYield(w, [], codes, args);
    assert [] + codes == codes;
    assert Trees([]) == [];
    TableYields(Cfg(w), 10, Counter(0, []), C.QuoteAll(codes), args, w.tree);
    assert Bll.Walk(args, 1).value == Value(args);
    ReferenceYields(Cfg(w), 1, args, args);
    var b := Cons(Num(10), C.QuoteAll(codes));
    assert IsBll(b);
    build := C.List3(Num(6), Num(1), b);
    PairYields(w.o, w.aware, Num(1), b, args, args, w.tree);
    List3Bll(Num(6), Num(1), b);
  }

  lemma ProgramReference(w: World, d: Define, args: Element)
    requires Sound(w) && d in w.G
    ensures d.name in w.codes
    ensures var p := C.Position(GI(w), d.name);
      p.Some? && p.value >= 1 && Bll.Walk(Cons(w.tree, args), p.value).value == Value(w.codes[d.name])
  {
    hide Bll.Walk, Leads;
    var names := C.NamesOf(w.G);
    var i :| 0 <= i < |w.G| && w.G[i] == d;
    assert names[i] == d.name;
    IndexedNames(names, d.name);
    PairWalk(w.tree, args);
    ReferenceAt(Cons(w.tree, args), w.tree, EntriesOf(names), w.codes, d.name, 2);
  }

  lemma WorldOf(o: Oracle, aware: bool, mem: Memory, G: Globals, codes: seq<Element>) returns (w: World)
    requires Plain(o) && Distinct(C.NamesOf(G))
    requires C.CompileAll(G, C.GlobalIndex(G)) == Some(codes)
    ensures Sound(w) && w.o == o && w.aware == aware && w.mem == mem && w.G == G && w.tree == TreeOf(codes)
            && AllBll(codes)
  {
    var names := C.NamesOf(G);
    var code := CodesByName(G, codes);
    w := World(o, aware, mem, G, code, TreeOf(codes));
    LayoutAgrees(names, codes, code);
    forall i | 0 <= i < |codes|
      ensures IsBll(codes[i])
    {
      ExprIsBll(G[i].body, C.GlobalIndex(G), LI(C.Keys(G[i].params)));
    }
    forall d | d in G
      ensures d.name in code && C.CompileFn(d, GI(w)) == Some(code[d.name])
    {
      var i :| 0 <= i < |G| && G[i] == d;
      assert names[i] == d.name;
    }
  }

  lemma CodesByName(G: Globals, codes: seq<Element>) returns (code: map<string, Element>)
    requires |codes| == |G| && Distinct(C.NamesOf(G))
    ensures Layout.Bound(C.NamesOf(G), codes, code)
  {
    var names := C.NamesOf(G);
    code := map[];
    var i := 0;
    while i < |names|
      invariant 0 <= i <= |names|
      invariant forall k | 0 <= k < i :: names[k] in code && code[names[k]] == codes[k]
    {
      code := code[names[i] := codes[i]];
      i := i + 1;
    }
  }

  /** The expression that calls a global on quoted values. */
  function CallOn(name: string, values: seq<Element>): SExpr
    requires AllBll(values)
  {
    SPair(Symbol(name), QuotedArgs(values))
  }

  /** Compiler correctness. Take globals with distinct names and parameters, all
      of which compile. If the symbolic evaluator, in any number of steps and
      whatever the allocator does, takes a call of a global on given values to a
      value, then the compiled program, run on the b-tree of those values, comes to
      the same value on every budget that is large enough. (Names of builtins used
      as values, parameters called like a builtin among them, are outside the
      symbolic machine.) */
  lemma CompilerCorrect(o: Oracle, aware: bool, mem: Memory, G: Globals, name: string, values: seq<Element>,
                        steps: nat, v: Element)
    returns (enough: nat)
    requires Plain(o) && Distinct(C.NamesOf(G)) && Proper(G)
    requires !Builtin(name) && AllBll(values)
    requires C.CompileProgram(name, G).Some?
    requires RunFor(mem, G, Standard(o, aware), Begin(CallOn(name, values)), steps) == Some(Value(v))
    ensures forall limit | limit >= enough ::
              Bll.Run(Standard(o, aware), Bll.Start(C.CompileProgram(name, G).value, TreeOf(values), limit))
              == Bll.Verdict(Value(v), enough, false)
  {
    hide RunFor, Yields, CallYields, TreeOf, Bll.Run, C.CompileArgs, C.CompileExpr, Plain, Sound;
    var codes := C.CompileAll(G, C.GlobalIndex(G)).value;
    var w := WorldOf(o, aware, mem, G, codes);
    var h := SimCallOn(w, name, values, steps, v);
    var d := Find(G, name).value;
    ProgramYields(w, d, codes, TreeOf(values), v);
    enough := YieldsOnMachine(Standard(o, aware), C.CompileProgram(name, G).value, TreeOf(values), v);
  }

  /** The symbolic run of the call, and what its body's code yields. */
  lemma SimCallOn(w: World, name: string, values: seq<Element>, steps: nat, v: Element) returns (h: Handed)
    requires Sound(w) && Proper(w.G) && !Builtin(name) && AllBll(values)
    requires Alive(w.mem, w.G, Cfg(w), Begin(CallOn(name, values)), steps, v)
    requires C.Position(GI(w), name).Some?
    ensures Hands(w, Empty, h, steps, v) && h.v == v
    ensures Find(w.G, name).Some? && name in w.codes
    ensures Yields(Cfg(w), w.codes[name], Cons(w.tree, TreeOf(values)), v)
  {
    hide Alive, Yields, CallYields, TreeOf, C.CompileArgs, C.CompileExpr, Sound, Settle, RunFor;
    var args, m := QuotedArgs(values), Fresh(DEFAULT_BUDGET);
    StepAlive(w.mem, w.G, Cfg(w), Empty, Eval(CallOn(name, values), map[]), STEP_ALLOWANCE, m, steps, v);
    if Find(w.G, name).None? {
      NoRaise(w, Empty, UndefinedSymbol, STEP_ALLOWANCE, m, steps - 1, v);
    }
    var d := Find(w.G, name).value;
    CallAlive(w, Empty, User(d.body, d.params, map[]), args, map[], STEP_ALLOWANCE, m, steps - 1, v);
    QuotedArgsLiteral(values, GI(w), LI([]));
    EmptyScope([]);
    EmptyScope(d.params);
    assert d.params[0..] == d.params;
    var vs;
    var none: seq<string> := [];
    assert none[..0] == none;
    h, vs := SimUser(w, Empty, d, [], map[], args, none, [], map[], STEP_ALLOWANCE - 1, m, steps - 1, v);
    assert [] + values == values;
  }

  /** What the direct evaluator says of a call, the compiled program comes to. */
  lemma CompilesDirect(o: Oracle, aware: bool, G: Globals, name: string, values: seq<Element>, v: Element)
    returns (enough: nat)
    requires Plain(o) && Distinct(C.NamesOf(G)) && Proper(G)
    requires !Builtin(name) && AllBll(values)
    requires C.CompileProgram(name, G).Some?
    requires D.Verdict(G, Standard(o, aware), CallOn(name, values)) == Value(v)
    ensures forall limit | limit >= enough ::
              Bll.Run(Standard(o, aware), Bll.Start(C.CompileProgram(name, G).value, TreeOf(values), limit))
              == Bll.Verdict(Value(v), enough, false)
  {
    hide RunFor, D.Verdict, CallOn, TreeOf, Bll.Run, C.CompileProgram, Plain, Proper, Builtin;
    var quiet: Memory := left => false;
    D.SymbolicIsDirect(quiet, G, Standard(o, aware), CallOn(name, values));
    enough := CompilerCorrect(o, aware, quiet, G, name, values, STEP_ALLOWANCE + 2, v);
  }
}
