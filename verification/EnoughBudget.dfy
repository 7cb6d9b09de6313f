/** Programs that come to a value once the budget is large enough, and how such
    programs compose. */
module EnoughBudget {
  import opened Costs
  import opened Elements
  import opened Machine
  import opened BigStep
  import opened Replay

  /** With enough money the program comes to v. */
  ghost predicate Yields(cfg: Validator, p: Element, env: Element, v: Element) {
    exists rem :: Evaluate(cfg, p, env, rem).Ready? && Evaluate(cfg, p, env, rem).value == v
  }

  /** With enough money the call over these argument expressions comes to v. */
  ghost predicate CallYields(cfg: Validator, fn: Fn, args: Element, env: Element, v: Element) {
    exists rem :: Invoke(cfg, fn, args, env, rem).Ready? && Invoke(cfg, fn, args, env, rem).value == v
  }

  /** The least budget, on which and above which the outcome is the same. */
  lemma EnoughFor(cfg: Validator, p: Element, env: Element, v: Element) returns (c: nat, fin: bool)
    requires Yields(cfg, p, env, v)
    ensures forall r | r >= c :: Evaluate(cfg, p, env, r) == Ready(v, c, fin)
  {
    hide Evaluate;
    var rem :| Evaluate(cfg, p, env, rem).Ready? && Evaluate(cfg, p, env, rem).value == v;
    var oc := Evaluate(cfg, p, env, rem);
    c, fin := oc.cost, oc.fin;
    forall r | r >= c
      ensures Evaluate(cfg, p, env, r) == Ready(v, c, fin)
    {
      EvaluateReplays(cfg, p, env, rem, r);
    }
  }

  lemma EnoughForCall(cfg: Validator, fn: Fn, args: Element, env: Element, v: Element) returns (c: nat, fin: bool)
    requires CallYields(cfg, fn, args, env, v)
    ensures forall r | r >= c :: Invoke(cfg, fn, args, env, r) == Ready(v, c, fin)
  {
    hide Invoke;
    var rem :| Invoke(cfg, fn, args, env, rem).Ready? && Invoke(cfg, fn, args, env, rem).value == v;
    var oc := Invoke(cfg, fn, args, env, rem);
    c, fin := oc.cost, oc.fin;
    forall r | r >= c
      ensures Invoke(cfg, fn, args, env, r) == Ready(v, c, fin)
    {
      InvokeReplays(cfg, fn, args, env, rem, r);
    }
  }

  /** An atom resolved in its environment. */
  lemma AtomYields(cfg: Validator, a: Integers.Bytes, env: Element, v: Element)
    requires ResolveAtom(a, env).value == Value(v)
    ensures Yields(cfg, Atom(a), env, v)
  {
    hide ResolveAtom;
    var r := ResolveAtom(a, env);
    assert Outright(r, r.cost) == Ready(v, r.cost, true);
    assert Resolve(cfg, Atom(a), env, r.cost) == Ready(v, r.cost, true);
    assert Evaluate(cfg, Atom(a), env, STEP + r.cost).Ready?;
  }

  /** A pair whose head names an operator. */
  lemma OperatorYields(cfg: Validator, op: Element, fn: Fn, args: Element, env: Element, v: Element)
    requires IsBll(op) && IsBll(args)
    requires ResolveOpcode(op).value == Some(fn)
    requires CallYields(cfg, fn, args, env, v)
    ensures Yields(cfg, Cons(op, args), env, v)
  {
    hide ResolveOpcode, Invoke;
    var c, fin := EnoughForCall(cfg, fn, args, env, v);
    var r := ResolveOpcode(op);
    var rem := r.cost + c;
    assert IsBll(Cons(op, args));
    assert Operate(cfg, op, args, env, rem) == After(r.cost, Invoke(cfg, fn, args, env, c));
    assert Resolve(cfg, Cons(op, args), env, rem) == Operate(cfg, op, args, env, rem);
    EvaluateOf(cfg, Cons(op, args), env, rem);
  }

  /** A quoted value. */
  lemma QuoteYields(cfg: Validator, v: Element, env: Element)
    requires IsBll(v)
    ensures Yields(cfg, Cons(Nil, v), env, v)
  {
    assert Invoke(cfg, Quote, v, env, STEP) == Ready(v, STEP, false);
    assert CallYields(cfg, Quote, v, env, v);
    OperatorYields(cfg, Nil, Quote, v, env, v);
  }

  lemma EvaluateOf(cfg: Validator, p: Element, env: Element, rem: nat)
    ensures Evaluate(cfg, p, env, STEP + rem) == After(STEP, Resolve(cfg, p, env, rem))
  {
    hide Resolve;
  }

  lemma InvokeOf(cfg: Validator, fn: Fn, args: Element, env: Element, rem: nat)
    ensures Invoke(cfg, fn, args, env, STEP + rem) == After(STEP, Advance(cfg, fn, args, env, rem))
  {
    hide Advance;
  }

  lemma AdvanceOf(cfg: Validator, fn: Fn, arg: Element, rest: Element, env: Element, rem: nat)
    requires !fn.Quote?
    ensures Advance(cfg, fn, Cons(arg, rest), env, rem) ==
            Consume(cfg, fn, Evaluate(cfg, arg, env, rem), rest, env, rem)
  {
    hide Consume, Evaluate;
  }

  lemma ConsumeOf(cfg: Validator, fn: Fn, v: Element, c: nat, fin: bool, rest: Element, env: Element, rem: nat)
    ensures var h := c + Handover(fin);
      Consume(cfg, fn, Ready(v, c, fin), rest, env, h + rem) == After(h, Accept(cfg, fn, v, rest, env, rem))
  {
    hide Accept;
  }

  lemma AcceptOf(cfg: Validator, fn: Fn, v: Element, fn': Fn, rest: Element, env: Element, rem: nat)
    requires Receive(cfg, fn, v, rest == Nil).value == Then(fn')
    ensures var r := Receive(cfg, fn, v, rest == Nil);
      Accept(cfg, fn, v, rest, env, r.cost + rem) == After(r.cost, Invoke(cfg, fn', rest, env, rem))
  {
    hide Invoke, Receive;
  }

  /** A call takes one argument and goes on. */
  lemma ArgumentYields(cfg: Validator, fn: Fn, arg: Element, v: Element, fn': Fn, rest: Element, env: Element,
                       w: Element)
    requires !fn.Quote?
    requires Yields(cfg, arg, env, v)
    requires Receive(cfg, fn, v, rest == Nil).value == Then(fn')
    requires CallYields(cfg, fn', rest, env, w)
    ensures CallYields(cfg, fn, Cons(arg, rest), env, w)
  {
    hide Evaluate, Invoke, Receive, Accept, Consume, Advance;
    var c1, fin1 := EnoughFor(cfg, arg, env, v);
    var c2, fin2 := EnoughForCall(cfg, fn', rest, env, w);
    var r, h := Receive(cfg, fn, v, rest == Nil), c1 + Handover(fin1);
    var rem := h + (r.cost + c2);
    AcceptOf(cfg, fn, v, fn', rest, env, c2);
    ConsumeOf(cfg, fn, v, c1, fin1, rest, env, r.cost + c2);
    AdvanceOf(cfg, fn, arg, rest, env, rem);
    InvokeOf(cfg, fn, Cons(arg, rest), env, rem);
  }

  /** An opcode finishes. */
  lemma FinishYields(cfg: Validator, b: Elements.Bound, env: Element, v: Element)
    requires cfg.finish(b).value == Value(v)
    ensures CallYields(cfg, Op(b), Nil, env, v)
  {
    var c := cfg.finish(b).cost;
    assert Complete(cfg, Op(b), env, c) == Ready(v, c, true);
    assert Advance(cfg, Op(b), Nil, env, c) == Ready(v, c, true);
    InvokeOf(cfg, Op(b), Nil, env, c);
    assert Invoke(cfg, Op(b), Nil, env, STEP + c).Ready?;
  }

  /** Apply runs its program in the environment it was given. */
  lemma ApplyYields(cfg: Validator, operands: Operands, env: Element, v: Element)
    requires match operands
      case NoOperand => Yields(cfg, Nil, env, v)
      case Program(p) => Yields(cfg, p, env, v)
      case Both(p, e) => Yields(cfg, p, e, v)
    ensures CallYields(cfg, Apply(operands), Nil, env, v)
  {
    hide Evaluate, Advance, Invoke;
    var p := if operands.NoOperand? then Nil else operands.p;
    var e := if operands.Both? then operands.e else env;
    var c, fin := EnoughFor(cfg, p, e, v);
    assert Complete(cfg, Apply(operands), env, c) == Evaluate(cfg, p, e, c);
    AdvanceDone(cfg, Apply(operands), env, c);
    InvokeOf(cfg, Apply(operands), Nil, env, c);
    assert Invoke(cfg, Apply(operands), Nil, env, STEP + c).Ready?;
  }

  lemma AdvanceDone(cfg: Validator, fn: Fn, env: Element, rem: nat)
    requires !fn.Quote?
    ensures Advance(cfg, fn, Nil, env, rem) == Complete(cfg, fn, env, rem)
  {
    hide Complete;
  }

  /** A program that yields a bll value is evaluated to it by the machine, on
      every budget from some point on. */
  lemma YieldsOnMachine(cfg: Validator, p: Element, env: Element, v: Element) returns (enough: nat)
    requires Yields(cfg, p, env, v) && IsBll(v)
    ensures forall limit | limit >= enough :: Run(cfg, Start(p, env, limit)) == Verdict(Value(v), enough, false)
  {
    hide Evaluate, Run;
    var c, fin := EnoughFor(cfg, p, env, v);
    enough := c;
    forall limit | limit >= enough
      ensures Run(cfg, Start(p, env, limit)) == Verdict(Value(v), enough, false)
    {
      MachineIsDirect(cfg, p, env, limit);
    }
  }
}
