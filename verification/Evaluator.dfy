/** The evaluator as bll.py and workitem.py run it: a WorkItem whose list of
    continuations and whose budget are updated in place. Every method is proved
    against the transition function of `Machine`. */
module Evaluator {
  import opened Integers
  import opened Costs
  import opened Budgets
  import opened Elements
  import opened OpTable
  import opened Machine

  /** The stack held in a list of continuations, whose last entry is the top. */
  ghost function StackOf(fs: seq<Frame>): Stack {
    if fs == [] then Empty else Push(StackOf(fs[..|fs| - 1]), fs[|fs| - 1])
  }

  lemma StackPush(fs: seq<Frame>, f: Frame)
    ensures StackOf(fs + [f]) == Push(StackOf(fs), f)
  {
    assert (fs + [f])[..|fs|] == fs;
  }

  lemma StackShape(fs: seq<Frame>)
    ensures StackOf(fs).Empty? <==> fs == []
    ensures (StackOf(fs).Push? && StackOf(fs).rest.Empty?) <==> |fs| == 1
  {
    if |fs| >= 2 {
      StackShape(fs[..|fs| - 1]);
    }
  }

  /** Two budgets no later step can tell apart: a breach abandons the guards, so
      what a breached guard had spent does not matter. */
  ghost predicate Alike(a: Meter, b: Meter) {
    a == b || (a.breach && b.breach && ClearAllowances(a) == ClearAllowances(b))
  }

  ghost predicate Matches(s: State, t: State) {
    Alike(s.m, t.m) && (s.m.breach || s.frames == t.frames)
  }

  lemma SettledUnbreached(s: State)
    ensures !Settle(s).m.breach
  {
  }

  lemma MatchesSettle(s: State, t: State)
    requires Matches(s, t)
    ensures Settle(s) == Settle(t)
  {
  }

  /** Charging in two parts ends like charging the sum, a first part that fails
      included. */
  lemma ChargeMore(m: Meter, a: nat, b: nat)
    ensures Alike(Charge(Charge(m, a), b), Charge(m, a + b))
    ensures Charge(m, a).Latched() ==> Charge(Charge(m, a), b) == Charge(m, a)
  {
  }

  lemma ChargeNothing(m: Meter)
    ensures Charge(m, 0) == m
  {
  }

  /** The bit walk of an environment reference, each edge charged before it is
      looked at. None when a charge failed. */
  method ResolveEnv(base: Element, idx: int, budget: Budget) returns (r: Option<Result>)
    requires budget.Valid() && !budget.Latched()
    modifies budget
    ensures budget.Valid() && Alike(budget.View(), Costs.Charge(old(budget.View()), Walk(base, idx).cost))
    ensures r == if budget.Latched() then None else Some(Walk(base, idx).value)
  {
    hide Costs.Charge;
    var env, i := base, idx;
    ghost var start, spent: nat := budget.View(), 0;
    ChargeNothing(start);
    while i > 1
      invariant budget.Valid() && !budget.Latched()
      invariant budget.View() == Costs.Charge(start, spent)
      invariant Walk(base, idx) == Metered(spent + Walk(env, i).cost, Walk(env, i).value)
    {
      ChargeMore(start, spent, ENV_EDGE);
      ChargeMore(start, spent + ENV_EDGE, Walk(env, i).cost - ENV_EDGE);
      ghost var whole := Walk(env, i).cost;
      var ok := budget.Charge(ENV_EDGE);
      if !ok {
        return None;
      }
      spent := spent + ENV_EDGE;
      if !env.Cons? {
        return Some(Failure(InvalidEnvReference));
      }
      env := if i % 2 == 0 then env.left else env.right;
      i := i / 2;
    }
    return Some(Value(env));
  }

  /** One evaluation: its pending continuations, the last one on top, and what it
      may still spend. */
  class WorkItem {
    const budget: Budget
    var continuations: seq<Frame>

    ghost predicate Valid()
      reads budget
    {
      budget.Valid()
    }

    ghost function Frames(): Stack
      reads this
    {
      StackOf(continuations)
    }

    ghost function View(): State
      reads this, budget
      requires Valid()
    {
      State(Frames(), budget.View())
    }

    constructor (p: Element, env: Element, budget: Budget)
      requires budget.Valid()
      ensures this.budget == budget && Valid()
      ensures Frames() == Push(Empty, Frame.Eval(p, env))
    {
      this.budget := budget;
      continuations := [Frame.Eval(p, env)];
      new;
      StackPush([], Frame.Eval(p, env));
    }

    method NewContinuation(f: Frame)
      modifies this
      ensures Frames() == Push(old(Frames()), f)
    {
      StackPush(continuations, f);
      continuations := continuations + [f];
    }

    method FinValue(r: Result)
      modifies this
      ensures Frames() == Push(old(Frames()), Fin(r))
    {
      NewContinuation(Fin(r));
    }

    method EvalArg(p: Element, env: Element)
      modifies this
      ensures Frames() == Push(old(Frames()), Frame.Eval(p, env))
    {
      NewContinuation(Frame.Eval(p, env));
    }

    method Pop() returns (f: Frame)
      requires continuations != []
      modifies this
      ensures old(Frames()) == Push(Frames(), f)
    {
      f := continuations[|continuations| - 1];
      continuations := continuations[..|continuations| - 1];
    }

    /** Abandoning pending work abandons the open guards with it. */
    method Unwind()
      requires Valid()
      modifies this, budget
      ensures Valid() && View() == State(Empty, Costs.ClearAllowances(old(budget.View())))
    {
      continuations := [];
      budget.ClearAllowances();
    }

    /** A result that has to be paid for before it is returned. */
    method PayReturn(r: Metered<Result>)
      requires Valid()
      modifies this, budget
      ensures Valid() && View() == Machine.PayReturn(old(Frames()), r, old(budget.View()))
    {
      var ok := budget.Charge(r.cost);
      if ok {
        FinValue(r.value);
      }
    }

    /** fn_blleval.step on an atom. */
    method EvalAtom(a: Bytes, env: Element)
      requires Valid() && !budget.Latched()
      modifies this, budget
      ensures Valid() && Matches(View(), Machine.PayReturn(old(Frames()), ResolveAtom(a, env), old(budget.View())))
    {
      hide Costs.Charge, Walk, BytesToInt, AtomScan;
      var ok := budget.Charge(AtomScan(|a|));
      ghost var cost := Walk(env, BytesToInt(a)).cost;
      ChargeMore(old(budget.View()), AtomScan(|a|), cost);
      if !ok {
        return;
      }
      var v := BytesToInt(a);
      if v >= 1 {
        var r := ResolveEnv(env, v, budget);
        if r.Some? {
          FinValue(r.value);
        }
      } else {
        FinValue(Value(Atom(a)));
      }
    }

    /** fn_blleval.step on a pair: its head names the operator. */
    method EvalPair(op: Element, args: Element, env: Element)
      requires Valid() && !budget.Latched()
      modifies this, budget
      ensures Valid() && View() == Machine.StepOperator(old(Frames()), op, args, env, old(budget.View()))
    {
      hide Costs.Charge, BytesToInt, AtomScan, OpcodeOf;
      if !op.Atom? {
        ChargeNothing(budget.View());
        FinValue(Failure(InvalidOpcode));
        return;
      }
      var ok := budget.Charge(AtomScan(|op.bytes|));
      if !ok {
        return;
      }
      var fn := OpcodeOf(BytesToInt(op.bytes));
      if fn.None? {
        FinValue(Failure(InvalidOpcode));
      } else {
        NewContinuation(Call(fn.value, args, env));
      }
    }

    /** fn_blleval.step. */
    method EvalStep(p: Element, env: Element)
      requires Valid() && !budget.Latched()
      modifies this, budget
      ensures Valid() && Matches(View(), Machine.StepEval(old(Frames()), p, env, old(budget.View())))
    {
      hide Machine.PayReturn, Machine.StepOperator, ResolveAtom, Costs.Charge;
      if p.Func? || !IsBll(p) {
        FinValue(Failure(NotCode));
      } else if p.Atom? {
        EvalAtom(p.bytes, env);
      } else {
        EvalPair(p.left, p.right, env);
      }
    }

    /** fn_softfork.finish: cost scan, lump, extension scan and guard machinery
        are charged one by one. */
    method SoftforkFinish(cfg: Validator, values: seq<Element>)
      requires Valid() && !budget.Latched()
      modifies this, budget
      ensures Valid() && Matches(View(), Machine.FinishSoftfork(cfg, old(Frames()), values, old(budget.View())))
    {
      hide Costs.Charge, BytesToInt, AtomScan, Machine.EnterGuard;
      ghost var m := budget.View();
      ghost var d, ext := DeclaredCost(values), Recognised(cfg, values);
      ChargeNothing(m);
      if values == [] || !values[0].Atom? {
        FinValue(Failure(SoftforkCost));
        return;
      }
      var ok := budget.Charge(AtomScan(|values[0].bytes|));
      var declared := BytesToInt(values[0].bytes);
      if !(1 <= declared <= SOFTFORK_COST_MAX) {
        if ok {
          FinValue(Failure(SoftforkCost));
        }
        return;
      }
      ChargeMore(m, d.cost, declared);
      ChargeMore(m, d.cost + declared, ext.cost);
      ChargeMore(Costs.Charge(m, d.cost), declared, ext.cost);
      if !ok {
        return;
      }
      ok := budget.Charge(declared);
      if !ok {
        return;
      }
      var recognised := false;
      ChargeNothing(budget.View());
      if |values| == 4 && values[1].Atom? {
        ok := budget.Charge(AtomScan(|values[1].bytes|));
        if !ok {
          return;
        }
        recognised := cfg.aware && BytesToInt(values[1].bytes) == 0;
      }
      if recognised {
        GuardEnter(declared, values[2], values[3]);
      } else {
        FinValue(Value(Nil));
      }
    }

    /** The guarded program runs against an allowance of its own, the guard's flat
        charge spent out of it first. */
    method GuardEnter(declared: nat, p: Element, env: Element)
      requires Valid()
      modifies this, budget
      ensures Valid() && View() == Machine.EnterGuard(old(Frames()), declared, p, env, old(budget.View()))
    {
      budget.PushAllowance(declared);
      var ok := budget.Charge(GUARD);
      if ok {
        NewContinuation(ExitGuard);
        EvalArg(p, env);
      }
    }

    /** The step methods once the arguments are used up. */
    method CallFinish(cfg: Validator, fn: Fn, env: Element)
      requires Valid() && !budget.Latched() && !fn.Quote?
      modifies this, budget
      ensures Valid() && Matches(View(), Machine.FinishCall(cfg, old(Frames()), fn, env, old(budget.View())))
    {
      hide Machine.PayReturn, Machine.FinishSoftfork, Costs.Charge;
      match fn
      case Apply(NoOperand) => EvalArg(Nil, env);
      case Apply(Program(p)) => EvalArg(p, env);
      case Apply(Both(p, e)) => EvalArg(p, e);
      case Softfork(values) => SoftforkFinish(cfg, values);
      case Op(b) => PayReturn(cfg.finish(b));
      case Partial(None) => FinValue(Failure(NotAnOpcode));
      case Partial(Some(b)) => FinValue(Value(Func(b)));
    }

    /** The step methods of callables: the next argument is evaluated above a
        frame holding the rest. */
    method CallStep(cfg: Validator, fn: Fn, args: Element, env: Element)
      requires Valid() && !budget.Latched()
      modifies this, budget
      ensures Valid() && Matches(View(), Machine.StepCall(cfg, old(Frames()), fn, args, env, old(budget.View())))
    {
      hide Machine.Feedback, Machine.FinishCall, Costs.Charge;
      if fn.Quote? {
        Feedback(cfg, Value(args));
      } else if args == Nil {
        CallFinish(cfg, fn, env);
      } else if args.Cons? {
        NewContinuation(Call(fn, args.right, env));
        EvalArg(args.left, env);
      } else {
        FinValue(Failure(ImproperList));
      }
    }

    /** get_partial_func and what fn_partial.feedback does with its answer. */
    method BindFeedback(v: Element, args: Element, env: Element)
      requires Valid() && !budget.Latched()
      modifies this, budget
      ensures Valid() && Matches(View(),
              Machine.Received(BindTarget(v, args == Nil), old(Frames()), args, env, old(budget.View())))
    {
      hide Costs.Charge, BytesToInt, AtomScan, TableOp;
      ghost var m := budget.View();
      ChargeNothing(m);
      match v
      case Func(b) => NewContinuation(Call(if args == Nil then Op(b) else Partial(Some(b)), args, env));
      case Cons(_, _) => FinValue(Failure(NotAnOpcode));
      case Atom(a) =>
        ChargeMore(m, AtomScan(|a|), ELEMENT_ALLOC);
        var ok := budget.Charge(AtomScan(|a|));
        if !ok {
          return;
        }
        var op := TableOp(BytesToInt(a));
        if op.None? {
          FinValue(Failure(NotAnOpcode));
          return;
        }
        ok := budget.Charge(ELEMENT_ALLOC);
        if ok {
          NewContinuation(Call(Partial(op), args, env));
        }
    }

    /** fn_partial.feedback on a bound opcode: every rebind is a new element. */
    method RebindFeedback(cfg: Validator, b: Bound, v: Element, args: Element, env: Element)
      requires Valid() && !budget.Latched()
      modifies this, budget
      ensures Valid() && Matches(View(),
              Machine.TakeArgument(cfg, old(Frames()), Partial(Some(b)), v, args, env, old(budget.View())))
    {
      hide Costs.Charge;
      var fed := cfg.feed(b, v);
      ChargeMore(budget.View(), fed.cost, ELEMENT_ALLOC);
      var ok := budget.Charge(fed.cost);
      if !ok {
        return;
      }
      if fed.value.Fault? {
        FinValue(Failure(fed.value.error));
        return;
      }
      ok := budget.Charge(ELEMENT_ALLOC);
      if ok {
        NewContinuation(Call(Partial(Some(fed.value.bound)), args, env));
      }
    }

    method OpFeedback(cfg: Validator, b: Bound, v: Element, args: Element, env: Element)
      requires Valid() && !budget.Latched()
      modifies this, budget
      ensures Valid() && View() == Machine.TakeArgument(cfg, old(Frames()), Op(b), v, args, env, old(budget.View()))
    {
      var fed := cfg.feed(b, v);
      var ok := budget.Charge(fed.cost);
      if !ok {
        return;
      }
      if fed.value.Fault? {
        FinValue(Failure(fed.value.error));
      } else {
        NewContinuation(Call(Op(fed.value.bound), args, env));
      }
    }

    /** The feedback methods of callables. */
    method TakeArgument(cfg: Validator, fn: Fn, v: Element, args: Element, env: Element)
      requires Valid() && !budget.Latched()
      modifies this, budget
      ensures Valid() && Matches(View(), Machine.TakeArgument(cfg, old(Frames()), fn, v, args, env, old(budget.View())))
    {
      hide Costs.Charge, BindTarget;
      ChargeNothing(budget.View());
      match fn
      case Quote => FinValue(Failure(Unreachable));
      case Apply(NoOperand) => NewContinuation(Call(Apply(Program(v)), args, env));
      case Apply(Program(p)) => NewContinuation(Call(Apply(Both(p, v)), args, env));
      case Apply(Both(_, _)) => FinValue(Failure(TooManyArguments));
      case Softfork(values) =>
        var kept := if |values| < 4 then values + [v] else if |values| == 4 then values + [Nil] else values;
        NewContinuation(Call(Softfork(kept), args, env));
      case Op(b) => OpFeedback(cfg, b, v, args, env);
      case Partial(None) => BindFeedback(v, args, env);
      case Partial(Some(b)) => RebindFeedback(cfg, b, v, args, env);
    }

    /** fn_exitguard.feedback. */
    method GuardExit()
      requires Valid()
      modifies this, budget
      ensures Valid() && View() == Machine.LeaveGuard(old(Frames()), old(budget.View()))
    {
      if budget.allowances == [] {
        FinValue(Failure(Unreachable));
        return;
      }
      var exact := budget.PopAllowance();
      if exact {
        FinValue(Value(Nil));
      } else {
        FinValue(Failure(SoftforkMismatch));
      }
    }

    /** WorkItem.feedback. */
    method Feedback(cfg: Validator, r: Result)
      requires Valid() && !budget.Latched()
      modifies this, budget
      ensures Valid() && Matches(View(), Machine.Feedback(cfg, old(Frames()), r, old(budget.View())))
    {
      hide Costs.Charge, Machine.TakeArgument, Machine.LeaveGuard;
      if r.Failure? {
        Unwind();
      }
      if continuations == [] {
        FinValue(r);
        return;
      }
      var ok := budget.Charge(STEP);
      if !ok {
        return;
      }
      var c := Pop();
      match c
      case Call(fn, args, env) => TakeArgument(cfg, fn, r.value, args, env);
      case ExitGuard => GuardExit();
      case Fin(_) => FinValue(Failure(Unreachable));
      case Eval(_, _) => FinValue(Failure(Unreachable));
    }

    /** WorkItem.step before its check for a breach. */
    method Dispatch(cfg: Validator, c: Frame)
      requires Valid() && !budget.Latched()
      modifies this, budget
      ensures Valid() && Matches(View(), Machine.StepFrame(cfg, old(Frames()), c, old(budget.View())))
    {
      hide Machine.Feedback, Machine.StepEval, Machine.StepCall;
      match c
      case Fin(r) => Feedback(cfg, r);
      case Eval(p, env) => EvalStep(p, env);
      case Call(fn, args, env) => CallStep(cfg, fn, args, env);
      case ExitGuard => FinValue(Failure(Unreachable));
    }

    /** WorkItem.step: one STEP per popped frame, and a breached guard abandons
        everything. */
    method Step(cfg: Validator)
      requires Valid() && continuations != []
      modifies this, budget
      ensures Valid() && View() == Machine.Step(cfg, old(View()))
    {
      hide Costs.Charge, Machine.StepFrame;
      ghost var K, f := Frames().rest, Frames().top;
      var ok := budget.Charge(STEP);
      ghost var paid := budget.View();
      if ok {
        var c := Pop();
        Dispatch(cfg, c);
      }
      ghost var t := if ok then Machine.StepFrame(cfg, K, f, paid) else State(old(Frames()), paid);
      MatchesSettle(View(), t);
      if budget.guardBreach {
        Unwind();
        FinValue(Failure(SoftforkMismatch));
      }
    }

    predicate Finished()
      reads this
      ensures Valid() ==> (Finished() <==> Machine.Finished(View()))
    {
      StackShape(continuations);
      |continuations| == 1 && continuations[0].Fin?
    }
  }

  lemma StepUnbreached(cfg: Validator, s: State)
    requires s.frames.Push?
    ensures !Machine.Step(cfg, s).m.breach
  {
    hide Settle, StepFrame;
    SettledUnbreached(if Charge(s.m, STEP).Latched() then State(s.frames, Charge(s.m, STEP))
                      else StepFrame(cfg, s.frames.rest, s.frames.top, Charge(s.m, STEP)));
  }

  /** eval: the driver loop and the result gate. */
  method Eval(cfg: Validator, p: Element, env: Element, b: Budget) returns (v: Verdict)
    requires b.Valid() && !b.guardBreach
    modifies b
    ensures b.Valid() && v == Run(cfg, State(Push(Empty, Frame.Eval(p, env)), old(b.View())))
  {
    hide Machine.Step;
    ghost var start := State(Push(Empty, Frame.Eval(p, env)), b.View());
    var w := new WorkItem(p, env, b);
    while !w.Finished() && !b.exhausted && !b.allocBreach
      invariant w.budget == b && w.Valid()
      invariant (w.Frames().Push? || w.View().m.Latched()) && !b.guardBreach
      invariant Run(cfg, w.View()) == Run(cfg, start)
      decreases if Done(w.View()) then 0 else 1 + Money(b.View())
    {
      StackShape(w.continuations);
      StepSpends(cfg, w.View());
      StepUnbreached(cfg, w.View());
      StepLeavesWork(cfg, w.View());
      w.Step(cfg);
    }
    if b.allocBreach {
      v := Verdict(Failure(AllocationLimit), b.used, b.exhausted);
      w.Unwind();
    } else if b.exhausted {
      v := Verdict(Failure(BudgetExhausted), b.used, true);
      w.Unwind();
    } else {
      v := Verdict(Gate(w.continuations[0].result), b.used, false);
    }
  }
}
