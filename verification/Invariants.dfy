/** What every step of the machine keeps: guards match exit frames, only the top
    frame can be a finished value or an evaluation, and the outer budget stands
    still while a guard is open. */
module Invariants {
  import opened Costs
  import opened Elements
  import opened Machine
  import opened BigStep

  /** A frame that waits for a value: a call collecting arguments or a guard. */
  predicate Waiting(f: Frame) {
    f.ExitGuard? || (f.Call? && !f.fn.Quote?)
  }

  predicate AllWaiting(K: Stack) {
    K.Empty? || (Waiting(K.top) && AllWaiting(K.rest))
  }

  function ExitFrames(K: Stack): nat {
    match K
    case Empty => 0
    case Push(rest, top) => ExitFrames(rest) + if top.ExitGuard? then 1 else 0
  }

  function Depth(g: Guards): nat {
    match g
    case Outside => 0
    case Within(_, _, outer) => 1 + Depth(outer)
  }

  /** The invariant of an unlatched step boundary. */
  predicate Inv(s: State) {
    && s.frames.Push?
    && !s.frames.top.ExitGuard?
    && AllWaiting(s.frames.rest)
    && ExitFrames(s.frames) == Depth(s.m.guards)
  }

  predicate Kept(s: State) {
    !s.m.Latched() ==> Inv(s)
  }

  /** The outer budget of m2 is that of m1, while a guard of m1 is open. */
  predicate Frozen(m1: Meter, m2: Meter) {
    m1.guards.Within? ==> m2.used == m1.used && m2.left == m1.left && m2.exhausted == m1.exhausted
  }

  lemma ChargeKeeps(m: Meter, amount: nat)
    ensures var r := Charge(m, amount);
      && Frozen(m, r)
      && (!r.Latched() ==> Depth(r.guards) == Depth(m.guards) && r.guards.Within? == m.guards.Within?)
      && r.guards.Within? == m.guards.Within?
      && (r.breach && !m.breach ==> !r.exhausted || m.exhausted)
  {
  }

  lemma DeliverKeeps(cfg: Validator, K: Stack, top: Frame, v: Element, m: Meter)
    requires !m.Latched() && AllWaiting(Push(K, top)) && ExitFrames(Push(K, top)) == Depth(m.guards)
    ensures Kept(Deliver(cfg, K, top, v, m)) && Frozen(m, Deliver(cfg, K, top, v, m).m)
    ensures top.Call? ==> !top.fn.Quote?
    ensures top.ExitGuard? ==> m.guards.Within?
  {
    hide Receive;
    if top.Call? {
      ChargeKeeps(m, Receive(cfg, top.fn, v, top.args == Nil).cost);
      ReceiveNeverQuotes(cfg, top.fn, v, top.args == Nil);
    }
  }

  /** An argument never turns a collecting call into a quote. */
  lemma ReceiveNeverQuotes(cfg: Validator, fn: Fn, v: Element, last: bool)
    ensures Receive(cfg, fn, v, last).value.Then? ==> !Receive(cfg, fn, v, last).value.fn.Quote?
  {
  }

  lemma FeedbackKeeps(cfg: Validator, K: Stack, r: Result, m: Meter)
    requires !m.Latched() && AllWaiting(K) && ExitFrames(K) == Depth(m.guards)
    ensures Kept(Feedback(cfg, K, r, m)) && Frozen(m, Feedback(cfg, K, r, m).m)
  {
    hide Deliver;
    ChargeKeeps(m, STEP);
    var paid := Charge(m, STEP);
    if r.Failure? {
      assert ExitFrames(Empty) == 0;
    } else if K.Push? && !paid.Latched() {
      assert K == Push(K.rest, K.top);
      DeliverKeeps(cfg, K.rest, K.top, r.value, paid);
    }
  }

  lemma SoftforkKeeps(cfg: Validator, K: Stack, values: seq<Element>, m: Meter)
    requires !m.Latched() && AllWaiting(K) && ExitFrames(K) == Depth(m.guards)
    ensures Kept(FinishSoftfork(cfg, K, values, m)) && Frozen(m, FinishSoftfork(cfg, K, values, m).m)
  {
    hide DeclaredCost, Recognised;
    var d, ext := DeclaredCost(values), Recognised(cfg, values);
    if d.value.None? {
      ChargeKeeps(m, d.cost);
    } else {
      var total := d.cost + d.value.value + ext.cost;
      ChargeKeeps(m, total);
      var g := PushAllowance(Charge(m, total), d.value.value);
      ChargeKeeps(g, GUARD);
      assert ExitFrames(Push(K, ExitGuard)) == ExitFrames(K) + 1;
      assert AllWaiting(Push(K, ExitGuard));
    }
  }

  lemma CallKeeps(cfg: Validator, K: Stack, fn: Fn, args: Element, env: Element, m: Meter)
    requires !m.Latched() && AllWaiting(K) && ExitFrames(K) == Depth(m.guards)
    ensures Kept(StepCall(cfg, K, fn, args, env, m)) && Frozen(m, StepCall(cfg, K, fn, args, env, m).m)
  {
    hide FinishSoftfork, Feedback;
    if fn.Quote? {
      FeedbackKeeps(cfg, K, Value(args), m);
    } else if args == Nil {
      if fn.Softfork? {
        SoftforkKeeps(cfg, K, fn.values, m);
      } else if fn.Op? {
        ChargeKeeps(m, cfg.finish(fn.bound).cost);
      }
    } else if args.Cons? {
      var J := Push(K, Call(fn, args.right, env));
      assert AllWaiting(J) && ExitFrames(J) == ExitFrames(K);
    }
  }

  lemma EvalKeeps(K: Stack, p: Element, env: Element, m: Meter)
    requires !m.Latched() && AllWaiting(K) && ExitFrames(K) == Depth(m.guards)
    ensures Kept(StepEval(K, p, env, m)) && Frozen(m, StepEval(K, p, env, m).m)
  {
    hide ResolveAtom, ResolveOpcode, IsBll;
    if p.Atom? {
      ChargeKeeps(m, ResolveAtom(p.bytes, env).cost);
    } else if p.Cons? {
      ChargeKeeps(m, ResolveOpcode(p.left).cost);
    }
  }

  /** One step keeps the invariant, never moves the outer budget while a guard
      is open, leaves no breach behind, and exhausts only outside any guard. */
  lemma StepKeeps(cfg: Validator, s: State)
    requires Inv(s) && !s.m.Latched()
    ensures var r := Step(cfg, s);
      && Kept(r)
      && Frozen(s.m, r.m)
      && !r.m.breach
  {
    hide StepEval, StepCall, Feedback;
    ChargeKeeps(s.m, STEP);
    var paid, K := Charge(s.m, STEP), s.frames.rest;
    if !paid.Latched() {
      match s.frames.top {
        case Fin(r) => FeedbackKeeps(cfg, K, r, paid);
        case Eval(p, env) => EvalKeeps(K, p, env, paid);
        case Call(fn, args, env) => CallKeeps(cfg, K, fn, args, env, paid);
        case ExitGuard =>
      }
    }
  }

  /** The state after n iterations of the driver loop. */
  function Along(cfg: Validator, s: State, n: nat): State
    decreases n
  {
    if n == 0 || Done(s) then s else Along(cfg, Step(cfg, s), n - 1)
  }

  lemma {:induction false} AlwaysKept(cfg: Validator, s: State)
    requires Inv(s) && !s.m.Latched()
    ensures forall n: nat :: var t := Along(cfg, s, n); Kept(t) && !t.m.breach
    decreases if Done(s) then 0 else 1 + Money(s.m)
  {
    hide Step, Inv;
    if !Done(s) {
      StepKeeps(cfg, s);
      StepSpends(cfg, s);
      if !Step(cfg, s).m.Latched() {
        AlwaysKept(cfg, Step(cfg, s));
      }
    }
  }

  /** Along every run, at every unlatched boundary: open allowances match exit
      frames one to one, so a pop of an empty stack, a guard popped by a step,
      and a value handed to a frame that takes none never happen. */
  lemma EveryBoundary(cfg: Validator, p: Element, env: Element, limit: nat)
    ensures forall n: nat :: var s := Along(cfg, Start(p, env, limit), n); Kept(s) && !s.m.breach
  {
    assert ExitFrames(Empty) == 0;
    AlwaysKept(cfg, Start(p, env, limit));
  }

  lemma {:induction false} HaltAlong(cfg: Validator, s: State) returns (n: nat)
    ensures Halt(cfg, s) == Along(cfg, s, n)
    decreases if Done(s) then 0 else 1 + Money(s.m)
  {
    hide Step;
    n := 0;
    if !Done(s) {
      StepSpends(cfg, s);
      n := HaltAlong(cfg, Step(cfg, s));
      n := n + 1;
    }
  }

  // ----- the unreachable frames -----

  /** Opcodes do not use the error that marks unreachable frames. */
  ghost predicate Clean(cfg: Validator) {
    && (forall b, v :: cfg.feed(b, v).value != Fault(Unreachable))
    && (forall b :: cfg.finish(b).value != Failure(Unreachable))
  }

  predicate Sane(oc: Outcome) {
    (oc.Raised? || oc.Dead?) ==> oc.error != Unreachable
  }

  lemma {:induction false} WalkSane(env: Element, idx: int)
    ensures Walk(env, idx).value != Failure(Unreachable)
    decreases idx
  {
    if idx > 1 && env.Cons? {
      WalkSane(if idx % 2 == 0 then env.left else env.right, idx / 2);
    }
  }

  lemma AfterSane(paid: nat, oc: Outcome)
    requires Sane(oc)
    ensures Sane(After(paid, oc))
  {
  }

  lemma {:induction false} EvaluateSane(cfg: Validator, p: Element, env: Element, rem: nat)
    requires Clean(cfg)
    ensures Sane(Evaluate(cfg, p, env, rem))
    decreases rem, 0
  {
    hide Resolve, Clean;
    if rem >= STEP {
      ResolveSane(cfg, p, env, rem - STEP);
    }
  }

  lemma {:induction false} ResolveSane(cfg: Validator, p: Element, env: Element, rem: nat)
    requires Clean(cfg)
    ensures Sane(Resolve(cfg, p, env, rem))
    decreases rem, 2
  {
    hide Operate, IsBll, Clean, ResolveAtom;
    if p.Atom? {
      AtomSane(p.bytes, env);
    } else if p.Cons? {
      OperateSane(cfg, p.left, p.right, env, rem);
    }
  }

  lemma AtomSane(a: Integers.Bytes, env: Element)
    ensures ResolveAtom(a, env).value != Failure(Unreachable)
  {
    hide Walk;
    WalkSane(env, Integers.BytesToInt(a));
  }

  lemma {:induction false} OperateSane(cfg: Validator, op: Element, args: Element, env: Element, rem: nat)
    requires Clean(cfg)
    ensures Sane(Operate(cfg, op, args, env, rem))
    decreases rem, 1
  {
    hide Invoke, ResolveOpcode, Clean;
    var r := ResolveOpcode(op);
    if rem >= r.cost && r.value.Some? {
      InvokeSane(cfg, r.value.value, args, env, rem - r.cost);
    }
  }

  lemma {:induction false} InvokeSane(cfg: Validator, fn: Fn, args: Element, env: Element, rem: nat)
    requires Clean(cfg)
    ensures Sane(Invoke(cfg, fn, args, env, rem))
    decreases rem, 0
  {
    hide Advance, Clean;
    if rem >= STEP {
      AdvanceSane(cfg, fn, args, env, rem - STEP);
    }
  }

  lemma {:induction false} AdvanceSane(cfg: Validator, fn: Fn, args: Element, env: Element, rem: nat)
    requires Clean(cfg)
    ensures Sane(Advance(cfg, fn, args, env, rem))
    decreases rem, 4
  {
    hide Complete, Consume, Evaluate, Clean;
    if fn.Quote? {
    } else if args == Nil {
      CompleteSane(cfg, fn, env, rem);
    } else if args.Cons? {
      EvaluateSane(cfg, args.left, env, rem);
      ConsumeSane(cfg, fn, Evaluate(cfg, args.left, env, rem), args.right, env, rem);
    }
  }

  lemma {:induction false} ConsumeSane(cfg: Validator, fn: Fn, arg: Outcome, rest: Element, env: Element, rem: nat)
    requires Clean(cfg) && !fn.Quote? && Fits(arg, rem) && Sane(arg)
    ensures Sane(Consume(cfg, fn, arg, rest, env, rem))
    decreases rem, 3
  {
    hide Accept, Clean;
    if arg.Ready? {
      var h := arg.cost + Handover(arg.fin);
      if h <= rem {
        AcceptSane(cfg, fn, arg.value, rest, env, rem - h);
      }
    }
  }

  lemma ReceiveSane(cfg: Validator, fn: Fn, v: Element, last: bool)
    requires Clean(cfg) && !fn.Quote?
    ensures Receive(cfg, fn, v, last).value != Stop(Unreachable)
  {
  }

  lemma {:induction false} AcceptSane(cfg: Validator, fn: Fn, v: Element, rest: Element, env: Element, rem: nat)
    requires Clean(cfg) && !fn.Quote?
    ensures Sane(Accept(cfg, fn, v, rest, env, rem))
    decreases rem, 1
  {
    hide Invoke, Receive, Clean, After;
    ReceiveSane(cfg, fn, v, rest == Nil);
    var r := Receive(cfg, fn, v, rest == Nil);
    if rem >= r.cost && r.value.Then? {
      InvokeSane(cfg, r.value.fn, rest, env, rem - r.cost);
      AfterSane(r.cost, Invoke(cfg, r.value.fn, rest, env, rem - r.cost));
    }
  }

  lemma {:induction false} CompleteSane(cfg: Validator, fn: Fn, env: Element, rem: nat)
    requires Clean(cfg) && !fn.Quote?
    ensures Sane(Complete(cfg, fn, env, rem))
    decreases rem, 3
  {
    hide Evaluate, Fork;
    match fn {
      case Apply(NoOperand) => EvaluateSane(cfg, Nil, env, rem);
      case Apply(Program(p)) => EvaluateSane(cfg, p, env, rem);
      case Apply(Both(p, e)) => EvaluateSane(cfg, p, e, rem);
      case Softfork(values) => ForkSane(cfg, values, rem);
      case Op(_) =>
      case Partial(_) =>
    }
  }

  lemma {:induction false} ForkSane(cfg: Validator, values: seq<Element>, rem: nat)
    requires Clean(cfg)
    ensures Sane(Fork(cfg, values, rem))
    decreases rem, 2
  {
    hide Evaluate, DeclaredCost, Recognised, Clean;
    var d := DeclaredCost(values);
    if d.value.Some? && Recognised(cfg, values).value && GUARD <= d.value.value <= rem {
      EvaluateSane(cfg, values[2], values[3], d.value.value - GUARD);
    }
  }
}
