/** The symbolic evaluator as symbll.py runs it: a WorkItem updated in place, its
    nested bll programs stepped on the evaluator of bll.py. Every method is proved
    against the transition function of `Symbll`. */
module SymbolicEvaluator {
  import opened Costs
  import opened Budgets
  import opened Elements
  import opened Symbll
  import opened CompilerLimits
  import E = Evaluator
  import Bll = Machine

  /** The stack held in a list of continuations, whose last entry is the top. */
  ghost function StackOf(fs: seq<Frame>): Stack {
    if fs == [] then Empty else Push(StackOf(fs[..|fs| - 1]), fs[|fs| - 1])
  }

  lemma StackPush(fs: seq<Frame>, f: Frame)
    ensures StackOf(fs + [f]) == Push(StackOf(fs), f)
  {
    assert (fs + [f])[..|fs|] == fs;
  }

  lemma OneFrame(f: Frame)
    ensures StackOf([f]) == Push(Empty, f)
  {
    assert [f][..0] == [];
  }

  lemma StackShape(fs: seq<Frame>)
    ensures StackOf(fs).Empty? <==> fs == []
    ensures (StackOf(fs).Push? && StackOf(fs).rest.Empty?) <==> |fs| == 1
  {
    if |fs| >= 2 {
      StackShape(fs[..|fs| - 1]);
    }
  }

  class WorkItem {
    const globals: Globals
    const budget: Budget
    /** The allocator: over its limit at the check with that much allowance left? */
    const mem: Memory
    var continuations: seq<Frame>
    var costLeft: int

    ghost predicate Valid()
      reads budget
    {
      budget.Valid()
    }

    ghost function Frames(): Stack
      reads this`continuations
    {
      StackOf(continuations)
    }

    ghost function View(): State
      reads this, budget
      requires Valid()
    {
      State(Frames(), costLeft, budget.View())
    }

    constructor (e: SExpr, globals: Globals, budget: Budget, mem: Memory)
      requires budget.Valid()
      ensures this.globals == globals && this.budget == budget && this.mem == mem && Valid()
      ensures Frames() == Push(Empty, Eval(e, map[])) && costLeft == STEP_ALLOWANCE
    {
      this.globals, this.budget, this.mem := globals, budget, mem;
      continuations := [Eval(e, map[])];
      costLeft := STEP_ALLOWANCE;
      new;
      OneFrame(Eval(e, map[]));
    }

    method NewContinuation(f: Frame)
      modifies this`continuations
      ensures Frames() == Push(old(Frames()), f)
    {
      StackPush(continuations, f);
      continuations := continuations + [f];
    }

    method FinValue(r: Result)
      modifies this`continuations
      ensures Frames() == Push(old(Frames()), Fin(r))
    {
      NewContinuation(Fin(r));
    }

    method EvalArg(e: SExpr, env: Locals)
      modifies this`continuations
      ensures Frames() == Push(old(Frames()), Eval(e, env))
    {
      NewContinuation(Eval(e, env));
    }

    method Pop() returns (f: Frame)
      requires continuations != []
      modifies this`continuations
      ensures old(Frames()) == Push(Frames(), f)
    {
      f := continuations[|continuations| - 1];
      continuations := continuations[..|continuations| - 1];
    }

    /** fn_symbll_eval.step. */
    method EvalStep(e: SExpr, env: Locals)
      requires Valid()
      modifies this`continuations
      ensures View() == Symbll.StepEval(globals, old(Frames()), e, env, old(costLeft), old(budget.View()))
    {
      hide Symbll.ResolveCall;
      match e
      case SAtom(b) => FinValue(Value(Atom(b)));
      case Symbol(name) =>
        var r := ResolveCall(globals, env, name);
        match r {
          case Holds(v) => FinValue(Value(v));
          case Calls(_) => FinValue(Failure(OutsideModel));
          case Missing(err) => FinValue(Failure(err));
        }
      case SPair(op, args) =>
        if !op.Symbol? {
          FinValue(Failure(NoOperator));
          return;
        }
        var r := ResolveCall(globals, env, op.name);
        match r {
          case Calls(fn) => NewContinuation(Call(fn, args, env));
          case Holds(_) => FinValue(Failure(NotAFunction));
          case Missing(err) => FinValue(Failure(err));
        }
    }

    /** The loop of fn_symbll_apply.step: every nested step counts against the
        allowance and is followed by a look at the allocator. */
    method NestedSteps(cfg: Bll.Validator, sub: E.WorkItem) returns (aborted: Option<Error>)
      requires Valid() && sub.budget == budget && sub.Valid() && sub.Frames().Push?
      modifies this`costLeft, sub, budget
      ensures Valid() && sub.Valid()
      ensures Drive(mem, cfg, old(sub.View()), old(costLeft)) == Nest(sub.View(), costLeft, aborted)
      ensures aborted.None? ==> sub.Finished() || budget.exhausted || budget.allocBreach
    {
      hide Bll.Step, Bll.Halt;
      while !sub.Finished() && !budget.exhausted && !budget.allocBreach
        invariant sub.Valid()
        invariant sub.Frames().Push? || budget.exhausted || budget.allocBreach
        invariant Drive(mem, cfg, old(sub.View()), old(costLeft)) == Drive(mem, cfg, sub.View(), costLeft)
        decreases if Bll.Done(sub.View()) then 0 else 1 + Money(budget.View())
      {
        E.StackShape(sub.continuations);
        Bll.StepSpends(cfg, sub.View());
        E.StepUnbreached(cfg, sub.View());
        Bll.StepLeavesWork(cfg, sub.View());
        sub.Step(cfg);
        costLeft := costLeft - 1;
        if costLeft <= 0 {
          return Some(StepLimit);
        }
        if mem(costLeft) {
          return Some(MemoryOverrun);
        }
      }
      return None;
    }

    /** fn_symbll_apply.step on both operands: the program is stepped here, and a run
        without a result is unwound. */
    method RunNested(cfg: Bll.Validator, p: Element, e: Element)
      requires Valid()
      modifies this`continuations, this`costLeft, budget
      ensures Valid() && View() == Symbll.Nested(mem, cfg, old(Frames()), p, e, old(costLeft), old(budget.View()))
    {
      hide Drive;
      var sub := new E.WorkItem(p, e, budget);
      var aborted := NestedSteps(cfg, sub);
      if aborted.Some? {
        sub.Unwind();
        FinValue(Failure(aborted.value));
      } else if budget.allocBreach {
        sub.Unwind();
        FinValue(Failure(AllocationLimit));
      } else if budget.exhausted {
        sub.Unwind();
        FinValue(Failure(BudgetExhausted));
      } else {
        FinValue(Bll.Gate(sub.continuations[0].result));
      }
    }

    /** The step methods once the arguments are used up. */
    method CallFinish(cfg: Bll.Validator, fn: Fn, env: Locals)
      requires Valid() && !fn.Quote? && !fn.If?
      modifies this`continuations, this`costLeft, budget
      ensures Valid() && View() ==
              Symbll.FinishCall(mem, cfg, old(Frames()), fn, env, old(costLeft), old(budget.View()))
    {
      hide Symbll.Nested, Costs.Charge;
      match fn
      case Op(b) =>
        var r := cfg.finish(b);
        var ok := budget.Charge(r.cost);
        if ok {
          FinValue(r.value);
        }
      case User(body, dangling, satisfied) =>
        if dangling == [] {
          EvalArg(body, satisfied);
        } else {
          FinValue(Failure(TooFewArguments));
        }
      case Apply(Both(p, e)) => RunNested(cfg, p, e);
      case Apply(_) => FinValue(Failure(TooFewArguments));
    }

    /** The step methods of callables. */
    method CallStep(cfg: Bll.Validator, fn: Fn, args: SExpr, env: Locals)
      requires Valid()
      modifies this`continuations, this`costLeft, budget
      ensures Valid() && View() ==
              Symbll.StepCall(mem, cfg, old(Frames()), fn, args, env, old(costLeft), old(budget.View()))
    {
      hide Symbll.Feedback, Symbll.FinishCall, ToBll;
      if fn.Quote? {
        var v := ToBll(args);
        Feedback(cfg, if v.Some? then Value(v.value) else Failure(OutsideModel));
      } else if fn.If? && !args.SPair? {
        FinValue(Failure(TooFewArguments));
      } else if args == SNil {
        CallFinish(cfg, fn, env);
      } else if !args.SPair? {
        FinValue(Failure(ImproperList));
      } else if fn.User? && fn.dangling == [] {
        FinValue(Failure(TooManyArguments));
      } else {
        NewContinuation(Call(fn, args.right, env));
        EvalArg(args.left, env);
      }
    }

    /** The feedback methods. */
    method TakeValue(cfg: Bll.Validator, top: Frame, v: Element)
      requires Valid()
      modifies this`continuations, budget
      ensures Valid() && View() == Symbll.Deliver(cfg, old(Frames()), top, v, old(costLeft), old(budget.View()))
    {
      hide Costs.Charge, Branch;
      match top
      case Call(If, args, env) =>
        var b := Branch(v, args);
        match b {
          case Selected(branch) => EvalArg(branch, env);
          case Refused(e) => FinValue(Failure(e));
          case Unassigned => NewContinuation(Exception);
        }
      case Call(Apply(NoOperand), args, env) => NewContinuation(Call(Apply(Bll.Program(v)), args, env));
      case Call(Apply(Program(p)), args, env) => NewContinuation(Call(Apply(Bll.Both(p, v)), args, env));
      case Call(Apply(Both(_, _)), args, env) => FinValue(Failure(TooManyArguments));
      case Call(Op(b), args, env) =>
        var fed := cfg.feed(b, v);
        var ok := budget.Charge(fed.cost);
        if ok {
          if fed.value.Fault? {
            FinValue(Failure(fed.value.error));
          } else {
            NewContinuation(Call(Op(fed.value.bound), args, env));
          }
        }
      case Call(User(body, dangling, satisfied), args, env) =>
        if dangling == [] {
          FinValue(Failure(Unreachable));
        } else {
          NewContinuation(Call(User(body, dangling[1..], satisfied[dangling[0] := v]), args, env));
        }
      case _ => FinValue(Failure(Unreachable));
    }

    /** WorkItem.feedback: an error discards the stack, a delivery is free. */
    method Feedback(cfg: Bll.Validator, r: Result)
      requires Valid()
      modifies this`continuations, budget
      ensures Valid() && View() == Symbll.Feedback(cfg, old(Frames()), r, old(costLeft), old(budget.View()))
    {
      hide Symbll.Deliver;
      if r.Failure? {
        continuations := [];
      }
      if continuations == [] {
        FinValue(r);
      } else {
        var c := Pop();
        TakeValue(cfg, c, r.value);
      }
    }

    method Dispatch(cfg: Bll.Validator, c: Frame)
      requires Valid()
      modifies this`continuations, this`costLeft, budget
      ensures Valid() && View() ==
              Symbll.StepFrame(mem, globals, cfg, old(Frames()), c, old(costLeft), old(budget.View()))
    {
      hide Symbll.Feedback, Symbll.StepEval, Symbll.StepCall;
      match c
      case Fin(r) => Feedback(cfg, r);
      case Eval(e, env) => EvalStep(e, env);
      case Call(fn, args, env) => CallStep(cfg, fn, args, env);
      case Exception => NewContinuation(Exception);
    }

    /** The checks after a step. */
    method Checks()
      requires Valid()
      modifies this`continuations, this`costLeft
      ensures View() == Settle(mem, old(View()))
    {
      if Threw() {
        return;
      }
      if budget.exhausted || budget.guardBreach || budget.allocBreach {
        var fin := OnFin();
        if !fin {
          FinValue(Failure(BudgetExhausted));
        }
      }
      costLeft := costLeft - 1;
      if costLeft <= 0 {
        var fin := OnFin();
        if !fin {
          FinValue(Failure(StepLimit));
        }
      }
      if mem(costLeft) {
        FinValue(Failure(MemoryOverrun));
      }
    }

    /** WorkItem.step: a latched budget and a spent allowance abort, unless a
        finished value is on top; an allocator over its limit aborts whatever is. */
    method Step(cfg: Bll.Validator)
      requires Valid() && continuations != []
      modifies this`continuations, this`costLeft, budget
      ensures Valid() && View() == Symbll.Step(mem, globals, cfg, old(View()))
    {
      hide Symbll.StepFrame, Settle;
      var c := Pop();
      Dispatch(cfg, c);
      Checks();
    }

    method OnFin() returns (fin: bool)
      ensures fin == Symbll.OnFin(Frames())
    {
      fin := continuations != [] && continuations[|continuations| - 1].Fin?;
    }

    predicate Threw()
      reads this, budget
      ensures Valid() ==> (Threw() <==> Symbll.Threw(View()))
    {
      continuations != [] && continuations[|continuations| - 1].Exception?
    }

    predicate Finished()
      reads this, budget
      ensures Valid() ==> (Finished() <==> Symbll.Finished(View()))
    {
      StackShape(continuations);
      |continuations| == 1 && continuations[0].Fin?
    }
  }

  /** symbolic_eval, where it ends: with the result of the transition function, or
      the exception. */
  method SymbolicEval(mem: Memory, globals: Globals, cfg: Bll.Validator, e: SExpr) returns (r: Result)
    requires Ends(mem, globals, cfg, Begin(e))
    ensures exists n: nat :: RunFor(mem, globals, cfg, Begin(e), n) == Some(r)
  {
    hide Symbll.Step;
    ghost var all: nat :| RunFor(mem, globals, cfg, Begin(e), all).Some?;
    var b := new Budget(DEFAULT_BUDGET);
    var w := new WorkItem(e, globals, b, mem);
    ghost var n := all;
    while !w.Finished() && !w.Threw()
      invariant w.budget == b && w.globals == globals && w.mem == mem && w.Valid()
      invariant RunFor(mem, globals, cfg, w.View(), n) == RunFor(mem, globals, cfg, Begin(e), all)
      decreases n
    {
      StackShape(w.continuations);
      w.Step(cfg);
      n := n - 1;
    }
    if w.Threw() {
      return Failure(UncaughtException);
    }
    return Bll.Gate(w.continuations[0].result);
  }
}
