/** Exact-budget replay: the charged total of a run is the least budget on which
    it happens, and every smaller budget is exhausted to the last unit. */
module Replay {
  import opened Costs
  import opened Elements
  import opened Machine
  import opened BigStep

  /** What an outcome reached with money to spare becomes on r units: nothing
      without its cost, and otherwise the same outcome. */
  predicate Replays(oc: Outcome, r: nat, again: Outcome) {
    oc.Out? || again == if r < oc.cost then Out else oc
  }

  lemma AfterReplays(paid: nat, oc: Outcome, r: nat, again: Outcome)
    requires Replays(oc, r, again)
    ensures Replays(After(paid, oc), paid + r, After(paid, again))
  {
  }

  /** An outcome that costs more than there is. */
  lemma ShortReplays(paid: nat, oc: Outcome, r: nat)
    requires r < paid
    ensures Replays(After(paid, oc), r, Out)
  {
  }

  lemma {:induction false} EvaluateReplays(cfg: Validator, p: Element, env: Element, rem: nat, r: nat)
    ensures Replays(Evaluate(cfg, p, env, rem), r, Evaluate(cfg, p, env, r))
    decreases rem, 0
  {
    hide Resolve, After, Replays;
    if rem < STEP {
      OutReplays(r, Evaluate(cfg, p, env, r));
    } else if r < STEP {
      ShortReplays(STEP, Resolve(cfg, p, env, rem - STEP), r);
    } else {
      ResolveReplays(cfg, p, env, rem - STEP, r - STEP);
      AfterReplays(STEP, Resolve(cfg, p, env, rem - STEP), r - STEP, Resolve(cfg, p, env, r - STEP));
    }
  }

  lemma OutReplays(r: nat, again: Outcome)
    ensures Replays(Out, r, again)
  {
  }

  lemma {:induction false} ResolveReplays(cfg: Validator, p: Element, env: Element, rem: nat, r: nat)
    ensures Replays(Resolve(cfg, p, env, rem), r, Resolve(cfg, p, env, r))
    decreases rem, 2
  {
    hide Operate, IsBll, ResolveAtom;
    if p.Cons? {
      OperateReplays(cfg, p.left, p.right, env, rem, r);
    }
  }

  lemma {:induction false} OperateReplays(cfg: Validator, op: Element, args: Element, env: Element, rem: nat, r: nat)
    ensures Replays(Operate(cfg, op, args, env, rem), r, Operate(cfg, op, args, env, r))
    decreases rem, 1
  {
    hide Invoke, After, ResolveOpcode;
    var fn := ResolveOpcode(op);
    if rem >= fn.cost && fn.value.Some? {
      if r < fn.cost {
        ShortReplays(fn.cost, Invoke(cfg, fn.value.value, args, env, rem - fn.cost), r);
      } else {
        InvokeReplays(cfg, fn.value.value, args, env, rem - fn.cost, r - fn.cost);
        AfterReplays(fn.cost, Invoke(cfg, fn.value.value, args, env, rem - fn.cost), r - fn.cost,
                     Invoke(cfg, fn.value.value, args, env, r - fn.cost));
      }
    }
  }

  lemma {:induction false} InvokeReplays(cfg: Validator, fn: Fn, args: Element, env: Element, rem: nat, r: nat)
    ensures Replays(Invoke(cfg, fn, args, env, rem), r, Invoke(cfg, fn, args, env, r))
    decreases rem, 0
  {
    hide Advance, After, Replays;
    if rem < STEP {
      OutReplays(r, Invoke(cfg, fn, args, env, r));
    } else if r < STEP {
      ShortReplays(STEP, Advance(cfg, fn, args, env, rem - STEP), r);
    } else {
      AdvanceReplays(cfg, fn, args, env, rem - STEP, r - STEP);
      AfterReplays(STEP, Advance(cfg, fn, args, env, rem - STEP), r - STEP, Advance(cfg, fn, args, env, r - STEP));
    }
  }

  lemma {:induction false} AdvanceReplays(cfg: Validator, fn: Fn, args: Element, env: Element, rem: nat, r: nat)
    ensures Replays(Advance(cfg, fn, args, env, rem), r, Advance(cfg, fn, args, env, r))
    decreases rem, 4
  {
    hide Complete, Consume, Evaluate;
    if fn.Quote? {
    } else if args == Nil {
      CompleteReplays(cfg, fn, env, rem, r);
    } else if args.Cons? {
      EvaluateReplays(cfg, args.left, env, rem, r);
      ConsumeReplays(cfg, fn, Evaluate(cfg, args.left, env, rem), Evaluate(cfg, args.left, env, r), args.right, env,
          rem, r);
    }
  }

  lemma {:induction false} ConsumeReplays(cfg: Validator, fn: Fn, a: Outcome, b: Outcome, rest: Element, env: Element,
                                          rem: nat, r: nat)
    requires Fits(a, rem) && Fits(b, r) && Replays(a, r, b)
    ensures Replays(Consume(cfg, fn, a, rest, env, rem), r, Consume(cfg, fn, b, rest, env, r))
    decreases rem, 3
  {
    hide Pass;
    if a.Ready? {
      var h := a.cost + Handover(a.fin);
      PassReplays(cfg, fn, a.value, h, rest, env, rem, r);
      PassShort(cfg, fn, a.value, h, rest, env, r);
    }
  }

  lemma {:induction false} PassReplays(cfg: Validator, fn: Fn, v: Element, h: nat, rest: Element, env: Element,
                                       rem: nat, r: nat)
    requires h >= STEP
    ensures Replays(Pass(cfg, fn, v, h, rest, env, rem), r, Pass(cfg, fn, v, h, rest, env, r))
    decreases rem, 2
  {
    hide Accept, After, Replays;
    if rem < h {
      OutReplays(r, Pass(cfg, fn, v, h, rest, env, r));
    } else if r < h {
      ShortReplays(h, Accept(cfg, fn, v, rest, env, rem - h), r);
    } else {
      AcceptReplays(cfg, fn, v, rest, env, rem - h, r - h);
      AfterReplays(h, Accept(cfg, fn, v, rest, env, rem - h), r - h, Accept(cfg, fn, v, rest, env, r - h));
    }
  }

  lemma {:induction false} AcceptReplays(cfg: Validator, fn: Fn, v: Element, rest: Element, env: Element, rem: nat,
                                         r: nat)
    ensures Replays(Accept(cfg, fn, v, rest, env, rem), r, Accept(cfg, fn, v, rest, env, r))
    decreases rem, 1
  {
    hide Invoke, After, Receive;
    var got := Receive(cfg, fn, v, rest == Nil);
    if rem >= got.cost && got.value.Then? {
      if r < got.cost {
        ShortReplays(got.cost, Invoke(cfg, got.value.fn, rest, env, rem - got.cost), r);
      } else {
        InvokeReplays(cfg, got.value.fn, rest, env, rem - got.cost, r - got.cost);
        AfterReplays(got.cost, Invoke(cfg, got.value.fn, rest, env, rem - got.cost), r - got.cost,
                     Invoke(cfg, got.value.fn, rest, env, r - got.cost));
      }
    }
  }

  lemma {:induction false} CompleteReplays(cfg: Validator, fn: Fn, env: Element, rem: nat, r: nat)
    requires !fn.Quote?
    ensures Replays(Complete(cfg, fn, env, rem), r, Complete(cfg, fn, env, r))
    decreases rem, 3
  {
    hide Evaluate, Fork;
    match fn {
      case Apply(NoOperand) => EvaluateReplays(cfg, Nil, env, rem, r);
      case Apply(Program(p)) => EvaluateReplays(cfg, p, env, rem, r);
      case Apply(Both(p, e)) => EvaluateReplays(cfg, p, e, rem, r);
      case Softfork(values) => ForkReplays(cfg, values, rem, r);
      case Op(_) =>
      case Partial(_) =>
    }
  }

  /** A guard's run depends on its declared cost, not on the outer budget. */
  lemma ForkReplays(cfg: Validator, values: seq<Element>, rem: nat, r: nat)
    ensures Replays(Fork(cfg, values, rem), r, Fork(cfg, values, r))
  {
    hide Evaluate, DeclaredCost, Recognised;
  }

  /** The boundary replay contract, on the machine. */
  lemma ExactBudgetReplay(cfg: Validator, p: Element, env: Element, limit: nat, again: nat)
    requires !Run(cfg, Start(p, env, limit)).exhausted
    ensures var first := Run(cfg, Start(p, env, limit));
      Run(cfg, Start(p, env, again)) ==
      if again < first.used then Verdict(Failure(BudgetExhausted), again, true) else first
  {
    hide Run, Evaluate;
    MachineIsDirect(cfg, p, env, limit);
    MachineIsDirect(cfg, p, env, again);
    EvaluateReplays(cfg, p, env, limit, again);
  }
}
