/** A direct recursive evaluator with compositional costs, and the proof that
    the frame machine computes exactly it. */
module BigStep {
  import opened Costs
  import opened Elements
  import opened Machine

  /** How evaluating in `rem` units of money ends. `Ready` is a value about to be
      handed over, by a FIN frame or directly by a quote; `Raised` is an error
      in a FIN frame above the frames of its context; `Dead` is an error that
      has already discarded every frame; `Out` is a charge that did not fit. */
  datatype Outcome =
    | Ready(value: Element, cost: nat, fin: bool)
    | Raised(error: Error, cost: nat)
    | Dead(error: Error, cost: nat)
    | Out

  predicate Fits(oc: Outcome, rem: nat) {
    oc.Out? || oc.cost <= rem
  }

  function After(paid: nat, oc: Outcome): Outcome {
    match oc
    case Ready(v, c, fin) => Ready(v, paid + c, fin)
    case Raised(e, c) => Raised(e, paid + c)
    case Dead(e, c) => Dead(e, paid + c)
    case Out => Out
  }

  /** Handing a value to the frame below: one STEP, and one more to pop a FIN
      frame. */
  function Handover(fin: bool): nat {
    if fin then 2 * STEP else STEP
  }

  function Outright(r: Metered<Result>, rem: nat): (oc: Outcome)
    ensures Fits(oc, rem)
  {
    if rem < r.cost then Out
    else
      match r.value
      case Value(v) => Ready(v, r.cost, true)
      case Failure(e) => Raised(e, r.cost)
  }

  /** Evaluating a program. */
  function Evaluate(cfg: Validator, p: Element, env: Element, rem: nat): (oc: Outcome)
    ensures Fits(oc, rem)
    decreases rem, 0
  {
    if rem < STEP then Out else After(STEP, Resolve(cfg, p, env, rem - STEP))
  }

  function Resolve(cfg: Validator, p: Element, env: Element, rem: nat): (oc: Outcome)
    ensures Fits(oc, rem)
    decreases rem, 2
  {
    if p.Func? || !IsBll(p) then Raised(NotCode, 0)
    else if p.Atom? then Outright(ResolveAtom(p.bytes, env), rem)
    else Operate(cfg, p.left, p.right, env, rem)
  }

  function Operate(cfg: Validator, op: Element, args: Element, env: Element, rem: nat): (oc: Outcome)
    ensures Fits(oc, rem)
    decreases rem, 1
  {
    var r := ResolveOpcode(op);
    if rem < r.cost then Out
    else
      match r.value
      case None => Raised(InvalidOpcode, r.cost)
      case Some(fn) => After(r.cost, Invoke(cfg, fn, args, env, rem - r.cost))
  }

  /** Running a call over its remaining argument expressions. */
  function Invoke(cfg: Validator, fn: Fn, args: Element, env: Element, rem: nat): (oc: Outcome)
    ensures Fits(oc, rem)
    decreases rem, 0
  {
    if rem < STEP then Out else After(STEP, Advance(cfg, fn, args, env, rem - STEP))
  }

  function Advance(cfg: Validator, fn: Fn, args: Element, env: Element, rem: nat): (oc: Outcome)
    ensures Fits(oc, rem)
    decreases rem, 4
  {
    if fn.Quote? then Ready(args, 0, false)
    else if args == Nil then Complete(cfg, fn, env, rem)
    else if args.Cons? then Consume(cfg, fn, Evaluate(cfg, args.left, env, rem), args.right, env, rem)
    else Raised(ImproperList, 0)
  }

  /** Continuing a call with what its next argument came to. */
  function Consume(cfg: Validator, fn: Fn, arg: Outcome, rest: Element, env: Element, rem: nat): (oc: Outcome)
    requires Fits(arg, rem)
    ensures Fits(oc, rem)
    decreases rem, 3
  {
    if arg.Ready? then Pass(cfg, fn, arg.value, arg.cost + Handover(arg.fin), rest, env, rem)
    else Abort(arg, rem)
  }

  /** An argument that did not come to a value: an error in a FIN frame pays STEP
      to be popped and then discards every frame. */
  function Abort(arg: Outcome, rem: nat): (oc: Outcome)
    requires !arg.Ready? && Fits(arg, rem)
    ensures Fits(oc, rem)
  {
    match arg
    case Raised(e, c) => if rem < c + STEP then Out else Dead(e, c + STEP)
    case Dead(_, _) => arg
    case Out => Out
  }

  /** Paying h for a value to reach the call. */
  function Pass(cfg: Validator, fn: Fn, v: Element, h: nat, rest: Element, env: Element, rem: nat): (oc: Outcome)
    requires h >= STEP
    ensures Fits(oc, rem)
    decreases rem, 0
  {
    if rem < h then Out else After(h, Accept(cfg, fn, v, rest, env, rem - h))
  }

  /** Without the money for the handover, the call never gets the value. */
  lemma PassShort(cfg: Validator, fn: Fn, v: Element, h: nat, rest: Element, env: Element, rem: nat)
    requires h >= STEP
    ensures rem < h ==> Pass(cfg, fn, v, h, rest, env, rem) == Out
  {
    hide Accept;
  }

  /** The call takes the value and goes on to its next argument. */
  function Accept(cfg: Validator, fn: Fn, v: Element, rest: Element, env: Element, rem: nat): (oc: Outcome)
    ensures Fits(oc, rem)
    decreases rem, 1
  {
    var r := Receive(cfg, fn, v, rest == Nil);
    if rem < r.cost then Out
    else
      match r.value
      case Then(fn') => After(r.cost, Invoke(cfg, fn', rest, env, rem - r.cost))
      case Stop(e) => Raised(e, r.cost)
  }

  /** Finishing a call. */
  function Complete(cfg: Validator, fn: Fn, env: Element, rem: nat): (oc: Outcome)
    requires !fn.Quote?
    ensures Fits(oc, rem)
    decreases rem, 3
  {
    match fn
    case Apply(NoOperand) => Evaluate(cfg, Nil, env, rem)
    case Apply(Program(p)) => Evaluate(cfg, p, env, rem)
    case Apply(Both(p, e)) => Evaluate(cfg, p, e, rem)
    case Softfork(values) => Fork(cfg, values, rem)
    case Op(b) => Outright(cfg.finish(b), rem)
    case Partial(None) => Raised(NotAnOpcode, 0)
    case Partial(Some(b)) => Ready(Func(b), 0, true)
  }

  /** A softfork: whatever runs inside the guard, the price is the lump. */
  function Fork(cfg: Validator, values: seq<Element>, rem: nat): (oc: Outcome)
    ensures Fits(oc, rem)
    decreases rem, 2
  {
    var d := DeclaredCost(values);
    if d.value.None? then
      if rem < d.cost then Out else Raised(SoftforkCost, d.cost)
    else
      var declared := d.value.value;
      var ext := Recognised(cfg, values);
      var total := d.cost + declared + ext.cost;
      if rem < total then Out
      else if !ext.value then Ready(Nil, total, true)
      else if declared < GUARD then Dead(SoftforkMismatch, total)
      else Exit(Evaluate(cfg, values[2], values[3], declared - GUARD), declared - GUARD, total)
  }

  /** Leaving a guard that had `allowed` left for the program. */
  function Exit(oc: Outcome, allowed: nat, total: nat): Outcome {
    match oc
    case Ready(_, c, fin) =>
      if c + Handover(fin) > allowed then Dead(SoftforkMismatch, total)
      else if c + Handover(fin) == allowed then Ready(Nil, total, true)
      else Raised(SoftforkMismatch, total)
    case Raised(e, c) => Dead(if c + STEP > allowed then SoftforkMismatch else e, total)
    case Dead(e, _) => Dead(e, total)
    case Out => Dead(SoftforkMismatch, total)
  }

  /** A whole evaluation within a budget. */
  function Whole(cfg: Validator, p: Element, env: Element, limit: nat): Verdict {
    match Evaluate(cfg, p, env, limit)
    case Ready(v, c, _) => Verdict(Gate(Value(v)), c, false)
    case Raised(e, c) => Verdict(Failure(e), c, false)
    case Dead(e, c) => Verdict(Failure(e), c, false)
    case Out => Verdict(Failure(BudgetExhausted), limit, true)
  }

  // ----- the machine from an outcome on -----

  /** The machine over frames K and budget m once an evaluation has come to oc. */
  function Continue(cfg: Validator, K: Stack, oc: Outcome, m: Meter): Verdict
    requires Fits(oc, Avail(m))
  {
    match oc
    case Ready(v, c, fin) =>
      if fin then Run(cfg, State(Push(K, Fin(Value(v))), Spend(m, c)))
      else Run(cfg, Settle(Feedback(cfg, K, Value(v), Spend(m, c))))
    case Raised(e, c) => Run(cfg, State(Push(K, Fin(Failure(e))), Spend(m, c)))
    case Dead(e, c) => Verdict(Failure(e), Spend(m, c).used, false)
    case Out => RunOut(m)
  }

  /** A charge did not fit: the guard is breached, or the budget exhausted. */
  function RunOut(m: Meter): Verdict {
    if m.guards.Outside? then Verdict(Failure(BudgetExhausted), m.used + m.left, true)
    else Verdict(Failure(SoftforkMismatch), m.used, false)
  }

  lemma ContinueAfter(cfg: Validator, K: Stack, paid: nat, oc: Outcome, m: Meter)
    requires paid <= Avail(m) && Fits(oc, Avail(m) - paid)
    ensures Continue(cfg, K, After(paid, oc), m) == Continue(cfg, K, oc, Spend(m, paid))
  {
    hide Run;
    if !oc.Out? {
    }
  }

  /** One driver iteration from a state whose top frame is f. */
  lemma RunFrame(cfg: Validator, K: Stack, f: Frame, m: Meter)
    requires !m.Latched() && !(K.Empty? && f.Fin?)
    ensures Run(cfg, State(Push(K, f), m)) ==
            if Avail(m) < STEP then RunOut(m)
            else Run(cfg, Settle(StepFrame(cfg, K, f, Spend(m, STEP))))
  {
    var s := State(Push(K, f), m);
    assert !Done(s);
    if Avail(m) < STEP {
      LatchedRun(cfg, s.frames, m, STEP);
    }
  }

  /** A failed charge anywhere in a step ends the run. */
  lemma LatchedRun(cfg: Validator, K: Stack, m: Meter, amount: nat)
    requires !m.Latched() && Avail(m) < amount
    ensures Run(cfg, Settle(State(K, Charge(m, amount)))) == RunOut(m)
  {
  }

  lemma RunRaised(cfg: Validator, K: Stack, e: Error, m: Meter)
    requires !m.Latched() && K.Push?
    ensures Run(cfg, State(Push(K, Fin(Failure(e))), m)) ==
            if Avail(m) < STEP then RunOut(m) else Verdict(Failure(e), Spend(m, STEP).used, false)
  {
    RunFrame(cfg, K, Fin(Failure(e)), m);
  }

  /** Handing a value over to a waiting frame. */
  lemma RunReady(cfg: Validator, K: Stack, top: Frame, v: Element, fin: bool, m: Meter)
    requires !m.Latched()
    ensures Continue(cfg, Push(K, top), Ready(v, 0, fin), m) ==
            if Avail(m) < Handover(fin) then RunOut(m)
            else Run(cfg, Settle(Deliver(cfg, K, top, v, Spend(m, Handover(fin)))))
  {
    hide Run, Settle, Deliver;
    var J := Push(K, top);
    if fin {
      RunFrame(cfg, J, Fin(Value(v)), m);
      if Avail(m) >= STEP {
        FeedbackTo(cfg, K, top, v, Spend(m, STEP));
        if Avail(m) >= 2 * STEP {
        }
      }
    } else {
      FeedbackTo(cfg, K, top, v, m);
    }
  }

  lemma FeedbackTo(cfg: Validator, K: Stack, top: Frame, v: Element, m: Meter)
    requires !m.Latched()
    ensures Run(cfg, Settle(Feedback(cfg, Push(K, top), Value(v), m))) ==
            if Avail(m) < STEP then RunOut(m)
            else Run(cfg, Settle(Deliver(cfg, K, top, v, Spend(m, STEP))))
  {
    hide Run, Deliver, Receive;
    if Avail(m) < STEP {
      LatchedRun(cfg, Push(K, top), m, STEP);
    }
  }

  /** A charge inside a step, and what the step goes on to. */
  lemma RunPaid(cfg: Validator, K: Stack, r: Metered<Result>, m: Meter)
    requires !m.Latched()
    ensures Run(cfg, Settle(PayReturn(K, r, m))) == Continue(cfg, K, Outright(r, Avail(m)), m)
  {
    hide Run;
    if Avail(m) < r.cost {
      LatchedRun(cfg, K, m, r.cost);
    }
  }

  lemma Settled(s: State)
    requires !s.m.breach
    ensures Settle(s) == s
  {
  }

  // ----- refinement -----

  lemma {:induction false} EvaluateRefines(cfg: Validator, K: Stack, p: Element, env: Element, m: Meter)
    requires !m.Latched()
    ensures Run(cfg, State(Push(K, Eval(p, env)), m)) == Continue(cfg, K, Evaluate(cfg, p, env, Avail(m)), m)
    decreases Avail(m), 0
  {
    hide Run, Continue, Resolve, StepEval, Settle, After;
    RunFrame(cfg, K, Eval(p, env), m);
    if Avail(m) < STEP {
      ContinueOut(cfg, K, m);
    } else {
      var m1 := Spend(m, STEP);
      ResolveRefines(cfg, K, p, env, m1);
      ContinueAfter(cfg, K, STEP, Resolve(cfg, p, env, Avail(m1)), m);
    }
  }

  lemma ContinueOut(cfg: Validator, K: Stack, m: Meter)
    ensures Continue(cfg, K, Out, m) == RunOut(m)
  {
    hide Run;
  }

  lemma ContinueRaised(cfg: Validator, K: Stack, e: Error, c: nat, m: Meter)
    requires c <= Avail(m) && !m.Latched()
    ensures Continue(cfg, K, Raised(e, c), m) == Run(cfg, Settle(Raise(K, e, Spend(m, c))))
  {
    hide Run;
  }

  lemma {:induction false} ResolveRefines(cfg: Validator, K: Stack, p: Element, env: Element, m: Meter)
    requires !m.Latched()
    ensures Run(cfg, Settle(StepEval(K, p, env, m))) == Continue(cfg, K, Resolve(cfg, p, env, Avail(m)), m)
    decreases Avail(m), 2
  {
    hide Run, Continue, IsBll, ResolveAtom, PayReturn, Outright, Operate, StepOperator, Settle, Raise;
    if p.Func? || !IsBll(p) {
      ContinueRaised(cfg, K, NotCode, 0, m);
      assert Spend(m, 0) == m;
    } else if p.Atom? {
      RunPaid(cfg, K, ResolveAtom(p.bytes, env), m);
    } else {
      OperateRefines(cfg, K, p.left, p.right, env, m);
    }
  }

  lemma {:induction false} OperateRefines(cfg: Validator, K: Stack, op: Element, args: Element, env: Element, m: Meter)
    requires !m.Latched()
    ensures Run(cfg, Settle(StepOperator(K, op, args, env, m))) ==
            Continue(cfg, K, Operate(cfg, op, args, env, Avail(m)), m)
    decreases Avail(m), 1
  {
    hide Run, Continue, ResolveOpcode, Invoke, Settle, Raise, After;
    var r := ResolveOpcode(op);
    if Avail(m) < r.cost {
      LatchedRun(cfg, K, m, r.cost);
      ContinueOut(cfg, K, m);
    } else {
      var m1 := Spend(m, r.cost);
      match r.value {
        case None => ContinueRaised(cfg, K, InvalidOpcode, r.cost, m);
        case Some(fn) =>
          Settled(State(Push(K, Call(fn, args, env)), m1));
          InvokeRefines(cfg, K, fn, args, env, m1);
          ContinueAfter(cfg, K, r.cost, Invoke(cfg, fn, args, env, Avail(m1)), m);
      }
    }
  }

  lemma {:induction false} InvokeRefines(cfg: Validator, K: Stack, fn: Fn, args: Element, env: Element, m: Meter)
    requires !m.Latched()
    ensures Run(cfg, State(Push(K, Call(fn, args, env)), m)) ==
            Continue(cfg, K, Invoke(cfg, fn, args, env, Avail(m)), m)
    decreases Avail(m), 0
  {
    hide Run, Continue, Advance, StepCall, Settle, After;
    RunFrame(cfg, K, Call(fn, args, env), m);
    if Avail(m) < STEP {
      ContinueOut(cfg, K, m);
    } else {
      var m1 := Spend(m, STEP);
      AdvanceRefines(cfg, K, fn, args, env, m1);
      ContinueAfter(cfg, K, STEP, Advance(cfg, fn, args, env, Avail(m1)), m);
    }
  }

  lemma {:induction false} AdvanceRefines(cfg: Validator, K: Stack, fn: Fn, args: Element, env: Element, m: Meter)
    requires !m.Latched()
    ensures Run(cfg, Settle(StepCall(cfg, K, fn, args, env, m))) ==
            Continue(cfg, K, Advance(cfg, fn, args, env, Avail(m)), m)
    decreases Avail(m), 4
  {
    hide Run, Continue, Complete, FinishCall, Consume, Evaluate, Settle, Raise, Feedback;
    assert Spend(m, 0) == m;
    if fn.Quote? {
      ContinueQuoted(cfg, K, args, m);
    } else if args == Nil {
      CompleteRefines(cfg, K, fn, env, m);
    } else if args.Cons? {
      var J := Push(K, Call(fn, args.right, env));
      Settled(State(Push(J, Eval(args.left, env)), m));
      EvaluateRefines(cfg, J, args.left, env, m);
      ConsumeRefines(cfg, K, fn, Evaluate(cfg, args.left, env, Avail(m)), args.right, env, m);
    } else {
      ContinueRaised(cfg, K, ImproperList, 0, m);
    }
  }

  lemma ContinueQuoted(cfg: Validator, K: Stack, v: Element, m: Meter)
    ensures Continue(cfg, K, Ready(v, 0, false), m) == Run(cfg, Settle(Feedback(cfg, K, Value(v), m)))
  {
    hide Run, Feedback;
  }

  lemma {:induction false} ConsumeRefines(cfg: Validator, K: Stack, fn: Fn, arg: Outcome, rest: Element, env: Element,
                                          m: Meter)
    requires !m.Latched() && Fits(arg, Avail(m))
    ensures Continue(cfg, Push(K, Call(fn, rest, env)), arg, m) ==
            Continue(cfg, K, Consume(cfg, fn, arg, rest, env, Avail(m)), m)
    decreases Avail(m), 3
  {
    hide Run, Continue, Pass, Abort;
    if arg.Ready? {
      PassRefines(cfg, K, fn, arg.value, arg.cost, arg.fin, rest, env, m);
    } else {
      AbortRefines(cfg, K, Call(fn, rest, env), arg, m);
    }
  }

  lemma AbortRefines(cfg: Validator, K: Stack, top: Frame, arg: Outcome, m: Meter)
    requires !m.Latched() && !arg.Ready? && Fits(arg, Avail(m))
    ensures Continue(cfg, Push(K, top), arg, m) == Continue(cfg, K, Abort(arg, Avail(m)), m)
  {
    hide Run;
    if arg.Raised? {
      RunRaised(cfg, Push(K, top), arg.error, Spend(m, arg.cost));
    }
  }

  lemma {:induction false} PassRefines(cfg: Validator, K: Stack, fn: Fn, v: Element, c: nat, fin: bool, rest: Element,
                                       env: Element, m: Meter)
    requires !m.Latched() && c <= Avail(m)
    ensures Continue(cfg, Push(K, Call(fn, rest, env)), Ready(v, c, fin), m) ==
            Continue(cfg, K, Pass(cfg, fn, v, c + Handover(fin), rest, env, Avail(m)), m)
    decreases Avail(m), 2
  {
    hide Run, Continue, Accept, TakeArgument, Settle;
    var top, m1, h := Call(fn, rest, env), Spend(m, c), Handover(fin);
    assert Ready(v, c, fin) == After(c, Ready(v, 0, fin));
    ContinueAfter(cfg, Push(K, top), c, Ready(v, 0, fin), m);
    RunReady(cfg, K, top, v, fin, m1);
    if Avail(m1) < h {
      ContinueOut(cfg, K, m);
    } else {
      var m2 := Spend(m, c + h);
      assert Spend(m1, h) == m2;
      AcceptRefines(cfg, K, fn, v, rest, env, m2);
      ContinueAfter(cfg, K, c + h, Accept(cfg, fn, v, rest, env, Avail(m2)), m);
    }
  }

  lemma {:induction false} AcceptRefines(cfg: Validator, K: Stack, fn: Fn, v: Element, rest: Element, env: Element,
                                         m: Meter)
    requires !m.Latched()
    ensures Run(cfg, Settle(TakeArgument(cfg, K, fn, v, rest, env, m))) ==
            Continue(cfg, K, Accept(cfg, fn, v, rest, env, Avail(m)), m)
    decreases Avail(m), 1
  {
    hide Run, Continue, Receive, Invoke, Settle, Raise, After;
    var r := Receive(cfg, fn, v, rest == Nil);
    if Avail(m) < r.cost {
      LatchedRun(cfg, K, m, r.cost);
      ContinueOut(cfg, K, m);
    } else {
      var m1 := Spend(m, r.cost);
      match r.value {
        case Then(fn') =>
          Settled(State(Push(K, Call(fn', rest, env)), m1));
          InvokeRefines(cfg, K, fn', rest, env, m1);
          ContinueAfter(cfg, K, r.cost, Invoke(cfg, fn', rest, env, Avail(m1)), m);
        case Stop(e) => ContinueRaised(cfg, K, e, r.cost, m);
      }
    }
  }

  lemma {:induction false} CompleteRefines(cfg: Validator, K: Stack, fn: Fn, env: Element, m: Meter)
    requires !m.Latched() && !fn.Quote?
    ensures Run(cfg, Settle(FinishCall(cfg, K, fn, env, m))) ==
            Continue(cfg, K, Complete(cfg, fn, env, Avail(m)), m)
    decreases Avail(m), 3
  {
    hide Run, Evaluate, Fork, FinishSoftfork;
    match fn {
      case Apply(NoOperand) => EvaluateRefines(cfg, K, Nil, env, m);
      case Apply(Program(p)) => EvaluateRefines(cfg, K, p, env, m);
      case Apply(Both(p, e)) => EvaluateRefines(cfg, K, p, e, m);
      case Softfork(values) => ForkRefines(cfg, K, values, m);
      case Op(b) => RunPaid(cfg, K, cfg.finish(b), m);
      case Partial(None) =>
      case Partial(Some(b)) =>
    }
  }

  lemma {:induction false} ForkRefines(cfg: Validator, K: Stack, values: seq<Element>, m: Meter)
    requires !m.Latched()
    ensures Run(cfg, Settle(FinishSoftfork(cfg, K, values, m))) ==
            Continue(cfg, K, Fork(cfg, values, Avail(m)), m)
    decreases Avail(m), 2
  {
    hide Run, Evaluate, Settle, EnterGuard, DeclaredCost, Recognised;
    var d, ext := DeclaredCost(values), Recognised(cfg, values);
    var total := d.cost + (if d.value.Some? then d.value.value + ext.cost else 0);
    if Avail(m) < total {
      LatchedRun(cfg, K, m, total);
    } else if d.value.None? {
      Settled(Raise(K, SoftforkCost, Spend(m, total)));
    } else if ext.value {
      var declared, m1 := d.value.value, Spend(m, total);
      GuardRefines(cfg, K, declared, values[2], values[3], m1);
      if declared >= GUARD {
        var allowed := declared - GUARD;
        var oc := Evaluate(cfg, values[2], values[3], allowed);
        ContinueAfter(cfg, K, total, Exit(oc, allowed, 0), m);
      }
    } else {
      Settled(Return(K, Value(Nil), Spend(m, total)));
    }
  }

  lemma {:induction false} GuardRefines(cfg: Validator, K: Stack, declared: nat, p: Element, env: Element, m: Meter)
    requires !m.Latched()
    ensures Run(cfg, Settle(EnterGuard(K, declared, p, env, m))) ==
            if declared < GUARD then Verdict(Failure(SoftforkMismatch), m.used, false)
            else Continue(cfg, K, Exit(Evaluate(cfg, p, env, declared - GUARD), declared - GUARD, 0), m)
    decreases declared, 1
  {
    hide Run, Evaluate, Continue, Exit;
    var g := PushAllowance(m, declared);
    if declared < GUARD {
      LatchedRun(cfg, K, g, GUARD);
    } else {
      var g1 := Spend(g, GUARD);
      EvaluateRefines(cfg, Push(K, ExitGuard), p, env, g1);
      ExitRefines(cfg, K, Evaluate(cfg, p, env, declared - GUARD), m, declared);
    }
  }

  /** Leaving a guard entered with m as the outer budget. */
  lemma ExitRefines(cfg: Validator, K: Stack, oc: Outcome, m: Meter, declared: nat)
    requires !m.Latched() && declared >= GUARD && Fits(oc, declared - GUARD)
    ensures Continue(cfg, Push(K, ExitGuard), oc, Spend(PushAllowance(m, declared), GUARD)) ==
            Continue(cfg, K, Exit(oc, declared - GUARD, 0), m)
  {
    hide Run;
    match oc {
      case Ready(v, c, fin) => ExitReadyRefines(cfg, K, v, c, fin, m, declared);
      case Raised(e, c) =>
        RunRaised(cfg, Push(K, ExitGuard), e, Spend(Spend(PushAllowance(m, declared), GUARD), c));
      case Dead(e, c) =>
      case Out =>
    }
  }

  lemma ExitReadyRefines(cfg: Validator, K: Stack, v: Element, c: nat, fin: bool, m: Meter, declared: nat)
    requires !m.Latched() && GUARD + c <= declared
    ensures Continue(cfg, Push(K, ExitGuard), Ready(v, c, fin), Spend(PushAllowance(m, declared), GUARD)) ==
            Continue(cfg, K, Exit(Ready(v, c, fin), declared - GUARD, 0), m)
  {
    hide Run;
    var g := Spend(PushAllowance(m, declared), GUARD);
    ContinueAfter(cfg, Push(K, ExitGuard), c, Ready(v, 0, fin), g);
    RunReady(cfg, K, ExitGuard, v, fin, Spend(g, c));
  }

  /** The frame machine computes the direct evaluator: same result or error,
      same charged total, for every program, environment and budget. */
  lemma MachineIsDirect(cfg: Validator, p: Element, env: Element, limit: nat)
    ensures Run(cfg, Start(p, env, limit)) == Whole(cfg, p, env, limit)
  {
    hide Evaluate;
    EvaluateRefines(cfg, Empty, p, env, Fresh(limit));
  }
}
