/** The shapes of compiled code yield what they should on the bll evaluator. */
module CompiledCode {
  import opened Integers
  import opened Elements
  import opened OpTable
  import opened Opcodes
  import opened StandardRules
  import opened Machine
  import opened EnoughBudget
  import C = Compiler
  import S = Symbll

  lemma List2Bll(a: Element, b: Element)
    requires IsBll(a) && IsBll(b)
    ensures IsBll(C.List2(a, b))
  {
    assert IsBll(Cons(b, Nil));
  }

  lemma List3Bll(a: Element, b: Element, c: Element)
    requires IsBll(a) && IsBll(b) && IsBll(c)
    ensures IsBll(C.List3(a, b, c))
  {
    List2Bll(b, c);
  }

  lemma List4Bll(a: Element, b: Element, c: Element, d: Element)
    requires IsBll(a) && IsBll(b) && IsBll(c) && IsBll(d)
    ensures IsBll(C.List4(a, b, c, d))
  {
    List3Bll(b, c, d);
  }

  lemma QuotedBll(e: Element)
    requires IsBll(e)
    ensures IsBll(C.Quoted(e))
  {
  }

  lemma OpcodeNum(num: nat)
    ensures ResolveOpcode(Num(num)).value == OpcodeOf(num)
  {
    hide OpcodeOf;
    IntRoundTrip(num);
  }

  /** A positive number written as code is an environment reference. */
  lemma ReferenceYields(cfg: Validator, pos: int, env: Element, v: Element)
    requires pos >= 1 && Walk(env, pos).value == Value(v)
    ensures Yields(cfg, Num(pos), env, v)
  {
    hide Walk;
    IntRoundTrip(pos);
    AtomYields(cfg, IntToBytes(pos), env, v);
  }

  lemma NilYields(cfg: Validator, env: Element)
    ensures Yields(cfg, Nil, env, Nil)
  {
    AtomYields(cfg, [], env, Nil);
  }

  /** An opcode call collects a value. */
  lemma OpArgument(o: Oracle, aware: bool, b: Elements.Bound, arg: Element, v: Element, b': Elements.Bound,
                   rest: Element, env: Element, w: Element)
    requires Yields(Standard(o, aware), arg, env, v)
    requires Feed(o, b, v).value == Next(b')
    requires CallYields(Standard(o, aware), Op(b'), rest, env, w)
    ensures CallYields(Standard(o, aware), Op(b), Cons(arg, rest), env, w)
  {
    hide Feed;
    ArgumentYields(Standard(o, aware), Op(b), arg, v, Op(b'), rest, env, w);
  }

  lemma OpFinish(o: Oracle, aware: bool, b: Elements.Bound, env: Element, v: Element)
    requires Finish(o, b).value == Value(v)
    ensures CallYields(Standard(o, aware), Op(b), Nil, env, v)
  {
    hide Opcodes.Finish;
    FinishYields(Standard(o, aware), b, env, v);
  }

  lemma TableYields(cfg: Validator, num: nat, b: Elements.Bound, args: Element, env: Element, v: Element)
    requires 4 <= num && TableOp(num) == Some(b) && IsBll(args)
    requires CallYields(cfg, Op(b), args, env, v)
    ensures Yields(cfg, Cons(Num(num), args), env, v)
  {
    hide TableOp, Yields, CallYields;
    OpcodeNum(num);
    OperatorYields(cfg, Num(num), Op(b), args, env, v);
  }

  lemma ApplyCodeYields(cfg: Validator, args: Element, env: Element, v: Element)
    requires IsBll(args) && CallYields(cfg, Apply(NoOperand), args, env, v)
    ensures Yields(cfg, Cons(Num(1), args), env, v)
  {
    OpcodeNum(1);
    OperatorYields(cfg, Num(1), Apply(NoOperand), args, env, v);
  }

  /** (rc A B) is the pair of B's value and A's. */
  lemma PairYields(o: Oracle, aware: bool, a: Element, b: Element, env: Element, va: Element, vb: Element)
    requires IsBll(a) && IsBll(b)
    requires Yields(Standard(o, aware), a, env, va) && Yields(Standard(o, aware), b, env, vb)
    ensures Yields(Standard(o, aware), C.List3(Num(6), a, b), env, Cons(vb, va))
  {
    hide Yields, CallYields;
    var cfg := Standard(o, aware);
    var s2 := Spine(Some(Cons(vb, va)));
    assert Finish(o, s2).value == Value(Cons(vb, va));
    OpFinish(o, aware, s2, env, Cons(vb, va));
    assert Feed(o, Spine(Some(va)), vb).value == Next(s2);
    OpArgument(o, aware, Spine(Some(va)), b, vb, s2, Nil, env, Cons(vb, va));
    assert Feed(o, Spine(None), va).value == Next(Spine(Some(va)));
    OpArgument(o, aware, Spine(None), a, va, Spine(Some(va)), Cons(b, Nil), env, Cons(vb, va));
    List2Bll(a, b);
    TableYields(cfg, 6, Spine(None), Cons(a, Cons(b, Nil)), env, Cons(vb, va));
  }

  /** (a P E): the program's code and its environment are evaluated, then the
      code runs there. */
  lemma Apply2Yields(cfg: Validator, p: Element, e: Element, env: Element, code: Element, inner: Element, v: Element)
    requires IsBll(p) && IsBll(e)
    requires Yields(cfg, p, env, code) && Yields(cfg, e, env, inner) && Yields(cfg, code, inner, v)
    ensures Yields(cfg, C.List3(Num(1), p, e), env, v)
  {
    hide Yields, CallYields, Opcodes.Feed, Opcodes.Finish;
    ApplyYields(cfg, Both(code, inner), env, v);
    ArgumentYields(cfg, Apply(Program(code)), e, inner, Apply(Both(code, inner)), Nil, env, v);
    ArgumentYields(cfg, Apply(NoOperand), p, code, Apply(Program(code)), Cons(e, Nil), env, v);
    ApplyCodeYields(cfg, Cons(p, Cons(e, Nil)), env, v);
  }

  /** (a P): the code runs in the current environment. */
  lemma Apply1Yields(cfg: Validator, p: Element, env: Element, code: Element, v: Element)
    requires IsBll(p)
    requires Yields(cfg, p, env, code) && Yields(cfg, code, env, v)
    ensures Yields(cfg, C.List2(Num(1), p), env, v)
  {
    hide Yields, CallYields, Opcodes.Feed, Opcodes.Finish;
    ApplyYields(cfg, Program(code), env, v);
    ArgumentYields(cfg, Apply(NoOperand), p, code, Apply(Program(code)), Nil, env, v);
    ApplyCodeYields(cfg, Cons(p, Nil), env, v);
  }

  /** A compiled call of a user function. */
  lemma CallCodeYields(o: Oracle, aware: bool, pos: int, args: Element, globals: Element, locals: Element,
                       code: Element, tree: Element, v: Element)
    requires pos >= 1 && Walk(Cons(globals, locals), pos).value == Value(code)
    requires IsBll(args) && CallYields(Standard(o, aware), Op(Counter(0, [])), args, Cons(globals, locals), tree)
    requires Yields(Standard(o, aware), code, Cons(globals, tree), v)
    ensures Yields(Standard(o, aware), C.CallCode(pos, args), Cons(globals, locals), v)
  {
    hide Yields, CallYields, Opcodes.Feed, Opcodes.Finish;
    var cfg, env := Standard(o, aware), Cons(globals, locals);
    ReferenceYields(cfg, pos, env, code);
    TableYields(cfg, 10, Counter(0, []), args, env, tree);
    assert Walk(env, 2).value == Value(globals);
    ReferenceYields(cfg, 2, env, globals);
    PairYields(o, aware, Cons(Num(10), args), Num(2), env, tree, globals);
    assert IsBll(Cons(Num(10), args));
    List3Bll(Num(6), Cons(Num(10), args), Num(2));
    Apply2Yields(cfg, Num(pos), C.List3(Num(6), Cons(Num(10), args), Num(2)), env, code, Cons(globals, tree), v);
  }

  /** What the eager i makes of a condition and up to two branches. */
  function Chosen(c: Element, branches: seq<Element>): Element
    requires |branches| <= 2
  {
    if c == Nil then (if |branches| > 1 then branches[1] else Nil)
    else if |branches| > 0 then branches[0] else One
  }

  lemma CollectArgument(o: Oracle, aware: bool, got: seq<Element>, arg: Element, v: Element, rest: Element,
                        env: Element, w: Element)
    requires |got| < 3 && Yields(Standard(o, aware), arg, env, v)
    requires CallYields(Standard(o, aware), Op(Collect(OpI, got + [v])), rest, env, w)
    ensures CallYields(Standard(o, aware), Op(Collect(OpI, got)), Cons(arg, rest), env, w)
  {
    hide Yields, CallYields;
    OpArgument(o, aware, Collect(OpI, got), arg, v, Collect(OpI, got + [v]), rest, env, w);
  }

  lemma CollectFinish(o: Oracle, aware: bool, c: Element, branches: seq<Element>, env: Element)
    requires !c.Func? && |branches| <= 2
    ensures CallYields(Standard(o, aware), Op(Collect(OpI, [c] + branches)), Nil, env, Chosen(c, branches))
  {
    hide CallYields;
    assert Finish(o, Collect(OpI, [c] + branches)).value == Value(Chosen(c, branches));
    OpFinish(o, aware, Collect(OpI, [c] + branches), env, Chosen(c, branches));
  }

  lemma SelectYields(o: Oracle, aware: bool, c: Element, vc: Element, args: Element, env: Element, v: Element)
    requires IsBll(c) && IsBll(args) && Yields(Standard(o, aware), c, env, vc)
    requires CallYields(Standard(o, aware), Op(Collect(OpI, [vc])), args, env, v)
    ensures Yields(Standard(o, aware), Cons(Num(5), Cons(c, args)), env, v)
  {
    hide Yields, CallYields, Opcodes.Feed, Opcodes.Finish;
    assert [] + [vc] == [vc];
    CollectArgument(o, aware, [], c, vc, args, env, v);
    TableYields(Standard(o, aware), 5, Collect(OpI, []), Cons(c, args), env, v);
  }

  /** (i C), (i C (q . T)) and (i C (q . T) (q . E)). */
  lemma Select0Yields(o: Oracle, aware: bool, c: Element, vc: Element, env: Element)
    requires IsBll(c) && !vc.Func? && Yields(Standard(o, aware), c, env, vc)
    ensures Yields(Standard(o, aware), C.List2(Num(5), c), env, Chosen(vc, []))
  {
    hide Yields, CallYields, Opcodes.Feed, Opcodes.Finish;
    assert [vc] + [] == [vc];
    CollectFinish(o, aware, vc, [], env);
    SelectYields(o, aware, c, vc, Nil, env, Chosen(vc, []));
  }

  lemma Select1Yields(o: Oracle, aware: bool, c: Element, vc: Element, t: Element, env: Element)
    requires IsBll(c) && IsBll(t) && !vc.Func? && Yields(Standard(o, aware), c, env, vc)
    ensures Yields(Standard(o, aware), C.List3(Num(5), c, C.Quoted(t)), env, Chosen(vc, [t]))
  {
    hide Yields, CallYields, Opcodes.Feed, Opcodes.Finish;
    CollectFinish(o, aware, vc, [t], env);
    QuoteYields(Standard(o, aware), t, env);
    CollectArgument(o, aware, [vc], C.Quoted(t), t, Nil, env, Chosen(vc, [t]));
    QuotedBll(t);
    assert IsBll(Cons(C.Quoted(t), Nil));
    SelectYields(o, aware, c, vc, Cons(C.Quoted(t), Nil), env, Chosen(vc, [t]));
  }

  lemma Select2Yields(o: Oracle, aware: bool, c: Element, vc: Element, t: Element, e: Element, env: Element)
    requires IsBll(c) && IsBll(t) && IsBll(e) && !vc.Func? && Yields(Standard(o, aware), c, env, vc)
    ensures Yields(Standard(o, aware), C.List4(Num(5), c, C.Quoted(t), C.Quoted(e)), env, Chosen(vc, [t, e]))
  {
    hide Yields, CallYields, Opcodes.Feed, Opcodes.Finish;
    var v := Chosen(vc, [t, e]);
    CollectFinish(o, aware, vc, [t, e], env);
    QuoteYields(Standard(o, aware), t, env);
    QuoteYields(Standard(o, aware), e, env);
    assert [vc, t] + [e] == [vc] + [t, e];
    CollectArgument(o, aware, [vc, t], C.Quoted(e), e, Nil, env, v);
    assert [vc] + [t] == [vc, t];
    CollectArgument(o, aware, [vc], C.Quoted(t), t, Cons(C.Quoted(e), Nil), env, v);
    QuotedBll(t);
    QuotedBll(e);
    List2Bll(C.Quoted(t), C.Quoted(e));
    SelectYields(o, aware, c, vc, Cons(C.Quoted(t), Cons(C.Quoted(e), Nil)), env, v);
  }

  // ----- compiled code is bll -----

  lemma {:induction false} ToBllIsBll(e: S.SExpr)
    ensures S.ToBll(e).Some? ==> IsBll(S.ToBll(e).value)
  {
    if e.SPair? {
      ToBllIsBll(e.left);
      ToBllIsBll(e.right);
    }
  }

  lemma CallCodeIsBll(pos: int, args: Element)
    requires IsBll(args)
    ensures IsBll(C.CallCode(pos, args))
  {
    assert IsBll(Cons(Num(10), args));
    List3Bll(Num(6), Cons(Num(10), args), Num(2));
    List3Bll(Num(1), Num(pos), C.List3(Num(6), Cons(Num(10), args), Num(2)));
  }

  lemma {:induction false} ArgsAreBll(args: S.SExpr, globals: C.Index, locals: C.Index)
    ensures C.CompileArgs(args, globals, locals).Some? ==> IsBll(C.CompileArgs(args, globals, locals).value)
    decreases args
  {
    if args.SPair? {
      ExprIsBll(args.left, globals, locals);
      ArgsAreBll(args.right, globals, locals);
    }
  }

  lemma {:induction false} ExprIsBll(e: S.SExpr, globals: C.Index, locals: C.Index)
    ensures C.CompileExpr(e, globals, locals).Some? ==> IsBll(C.CompileExpr(e, globals, locals).value)
    decreases e
  {
    hide C.ResolveIndex, C.CallCode, C.CompileIf, C.CompileArgs;
    if e.SPair? && e.left.Symbol? {
      var name := e.left.name;
      ToBllIsBll(e.right);
      ArgsAreBll(e.right, globals, locals);
      IfIsBll(e.right, globals, locals);
      var l, p := C.CompileArgs(e.right, globals, locals), C.ResolveIndex(name, globals, locals);
      if l.Some? && p.Some? {
        CallCodeIsBll(p.value, l.value);
      }
    }
  }

  lemma {:induction false} IfIsBll(args: S.SExpr, globals: C.Index, locals: C.Index)
    ensures C.CompileIf(args, globals, locals).Some? ==> IsBll(C.CompileIf(args, globals, locals).value)
    decreases args
  {
    hide C.CompileExpr, C.List2, C.List3, C.List4, C.Quoted;
    if args.SPair? && C.CompileIf(args, globals, locals).Some? {
      ExprIsBll(args.left, globals, locals);
      var c := C.CompileExpr(args.left, globals, locals).value;
      if !args.right.SPair? {
        List2Bll(Num(5), c);
      } else {
        ExprIsBll(args.right.left, globals, locals);
        var t := C.CompileExpr(args.right.left, globals, locals).value;
        QuotedBll(t);
        if !args.right.right.SPair? {
          List3Bll(Num(5), c, C.Quoted(t));
          List2Bll(Num(1), C.List3(Num(5), c, C.Quoted(t)));
        } else {
          ExprIsBll(args.right.right.left, globals, locals);
          var e := C.CompileExpr(args.right.right.left, globals, locals).value;
          QuotedBll(e);
          List4Bll(Num(5), c, C.Quoted(t), C.Quoted(e));
          List2Bll(Num(1), C.List4(Num(5), c, C.Quoted(t), C.Quoted(e)));
        }
      }
    }
  }
}
