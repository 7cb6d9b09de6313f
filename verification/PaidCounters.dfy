/** What the machine holds is always paid for: every binary counter within reach
    has had B_ARG spent on each of its arguments. */
module PaidCounters {
  import opened Integers
  import opened Costs
  import opened Elements
  import opened OpTable
  import opened Opcodes
  import opened StandardRules
  import opened Counters
  import opened Machine

  predicate TameOperands(x: Operands, k: int) {
    match x
    case NoOperand => true
    case Program(p) => Tame(p, k)
    case Both(p, e) => Tame(p, k) && Tame(e, k)
  }

  predicate TameFn(fn: Fn, k: int) {
    match fn
    case Quote => true
    case Apply(x) => TameOperands(x, k)
    case Softfork(values) => AllTame(values, k)
    case Op(b) => TameBound(b, k)
    case Partial(target) => target.Some? ==> TameBound(target.value, k)
  }

  predicate TameFrame(f: Frame, k: int) {
    match f
    case Fin(r) => r.Value? ==> Tame(r.value, k)
    case Eval(p, env) => Tame(p, k) && Tame(env, k)
    case Call(fn, args, env) => TameFn(fn, k) && Tame(args, k) && Tame(env, k)
    case ExitGuard => true
  }

  predicate TameStack(K: Stack, k: int) {
    K.Empty? || (TameFrame(K.top, k) && TameStack(K.rest, k))
  }

  lemma TameFnLater(fn: Fn, k: int)
    requires TameFn(fn, k)
    ensures forall later | k <= later :: TameFn(fn, later)
  {
    match fn {
      case Quote =>
      case Apply(x) =>
        if !x.NoOperand? { TameLater(x.p, k); }
        if x.Both? { TameLater(x.e, k); }
      case Softfork(values) => forall i | 0 <= i < |values| { TameLater(values[i], k); }
      case Op(b) => TameBoundLater(b, k);
      case Partial(target) => if target.Some? { TameBoundLater(target.value, k); }
    }
  }

  lemma {:induction false} TameStackLater(K: Stack, k: int)
    requires TameStack(K, k)
    ensures forall later | k <= later :: TameStack(K, later)
  {
    if K.Push? {
      TameStackLater(K.rest, k);
      match K.top {
        case Fin(r) => if r.Value? { TameLater(r.value, k); }
        case Eval(p, env) => TameLater(p, k); TameLater(env, k);
        case Call(fn, args, env) => TameFnLater(fn, k); TameLater(args, k); TameLater(env, k);
        case ExitGuard =>
      }
    }
  }

  /** The frames of s are tame at what has been spent: k before, on budget m. */
  predicate Keeps(k: int, m: Meter, s: State) {
    s.m.Latched() || TameStack(s.frames, k + Money(m) - Money(s.m))
  }

  lemma {:induction false} WalkTame(env: Element, idx: int, k: nat)
    requires Tame(env, k)
    ensures Walk(env, idx).value.Value? ==> Tame(Walk(env, idx).value.value, k)
    decreases idx
  {
    if idx > 1 && env.Cons? {
      WalkTame(if idx % 2 == 0 then env.left else env.right, idx / 2, k);
    }
  }

  lemma TableTame(num: int, k: nat)
    ensures TableOp(num).Some? ==> TameBound(TableOp(num).value, k)
  {
  }

  lemma ReceiveTame(o: Oracle, aware: bool, fn: Fn, v: Element, last: bool, k: nat)
    requires Harmless(o) && TameFn(fn, k) && Tame(v, k)
    ensures var r := Receive(Standard(o, aware), fn, v, last);
      r.value.Then? ==> TameFn(r.value.fn, k + r.cost)
  {
    hide Feed, TableOp, BytesToInt;
    match fn {
      case Op(b) => FeedTame(o, b, v, k);
      case Partial(None) =>
        if v.Atom? {
          TableTame(BytesToInt(v.bytes), k + AtomScan(|v.bytes|) + ELEMENT_ALLOC);
        }
      case Partial(Some(b)) =>
        FeedTame(o, b, v, k);
        var r := Feed(o, b, v);
        if r.value.Next? {
          TameBoundLater(r.value.bound, k + r.cost);
        }
      case _ =>
    }
  }

  /** A charge, and a stack left as it was. */
  lemma PaidKeeps(K: Stack, m: Meter, cost: nat, k: nat)
    requires TameStack(K, k)
    ensures var paid := Charge(m, cost);
      paid.Latched() || (Money(m) == Money(paid) + cost && TameStack(K, k + cost))
  {
    ChargeMoney(m, cost);
    TameStackLater(K, k);
  }

  lemma TakeArgumentKeeps(o: Oracle, aware: bool, K: Stack, fn: Fn, v: Element, args: Element, env: Element, m: Meter,
                          k: nat)
    requires Harmless(o) && TameStack(K, k) && TameFn(fn, k) && Tame(v, k) && Tame(args, k) && Tame(env, k)
    ensures Keeps(k, m, TakeArgument(Standard(o, aware), K, fn, v, args, env, m))
  {
    hide Receive, Received, Tame, TameFn, Keeps;
    ReceiveTame(o, aware, fn, v, args == Nil, k);
    ReceivedKeeps(Receive(Standard(o, aware), fn, v, args == Nil), K, args, env, m, k);
  }

  lemma ReceivedKeeps(r: Metered<Receipt>, K: Stack, args: Element, env: Element, m: Meter, k: nat)
    requires TameStack(K, k) && Tame(args, k) && Tame(env, k)
    requires r.value.Then? ==> TameFn(r.value.fn, k + r.cost)
    ensures Keeps(k, m, Received(r, K, args, env, m))
  {
    hide Charge, Tame, TameFn, Money;
    PaidKeeps(K, m, r.cost, k);
    TameLater(args, k);
    TameLater(env, k);
  }

  lemma FeedbackKeeps(o: Oracle, aware: bool, K: Stack, r: Result, m: Meter, k: nat)
    requires Harmless(o) && TameStack(K, k) && (r.Value? ==> Tame(r.value, k))
    ensures Keeps(k, m, Feedback(Standard(o, aware), K, r, m))
  {
    hide Deliver, Tame, TameFn, Charge;
    assert TameStack(Empty, k) && TameStack(Push(Empty, Fin(r)), k);
    if r.Failure? {
      assert TameStack(Push(Empty, Fin(r)), k + Money(m) - m.left);
    }
    if r.Value? && K.Push? {
      var paid := Charge(m, STEP);
      PaidKeeps(K, m, STEP, k);
      TameLater(r.value, k);
      if !paid.Latched() {
        DeliverKeeps(o, aware, K.rest, K.top, r.value, paid, k + STEP);
      }
    }
  }

  lemma DeliverKeeps(o: Oracle, aware: bool, K: Stack, top: Frame, v: Element, m: Meter, k: nat)
    requires Harmless(o) && TameStack(K, k) && TameFrame(top, k) && Tame(v, k)
    ensures Keeps(k, m, Deliver(Standard(o, aware), K, top, v, m))
  {
    hide TakeArgument, TameFn;
    match top {
      case Call(fn, args, env) => TakeArgumentKeeps(o, aware, K, fn, v, args, env, m, k);
      case ExitGuard =>
        if m.guards.Within? {
          TameStackLater(K, k);
          assert TameStack(K, k + m.guards.left);
        }
      case _ =>
    }
  }

  lemma SoftforkKeeps(o: Oracle, aware: bool, K: Stack, values: seq<Element>, m: Meter, k: nat)
    requires TameStack(K, k) && AllTame(values, k)
    ensures Keeps(k, m, FinishSoftfork(Standard(o, aware), K, values, m))
  {
    hide Charge, Tame, DeclaredCost, Recognised, EnterGuard;
    var cfg := Standard(o, aware);
    var d, ext := DeclaredCost(values), Recognised(cfg, values);
    if d.value.None? {
      PaidKeeps(K, m, d.cost, k);
    } else {
      var total := d.cost + d.value.value + ext.cost;
      var paid := Charge(m, total);
      PaidKeeps(K, m, total, k);
      if !paid.Latched() {
        if ext.value {
          EnterKeeps(K, d.value.value, values[2], values[3], paid, k, k + total - d.value.value + GUARD);
        } else {
          assert Tame(Nil, k + total) by {
            BllIsTame(Nil, k + total);
          }
        }
      }
    }
  }

  /** Entering a guard gives back as allowance what its lump was. */
  lemma EnterKeeps(K: Stack, declared: nat, p: Element, env: Element, m: Meter, k: nat, later: nat)
    requires k <= later && TameStack(K, k) && Tame(p, k) && Tame(env, k)
    ensures var s := EnterGuard(K, declared, p, env, m);
      s.m.Latched() || (Money(s.m) + GUARD == Money(m) + declared && TameStack(s.frames, later))
  {
    hide Charge, Tame;
    ChargeMoney(PushAllowance(m, declared), GUARD);
    TameStackLater(K, k);
    TameLater(p, k);
    TameLater(env, k);
    assert TameStack(Push(K, ExitGuard), later);
  }

  lemma PayReturnKeeps(K: Stack, r: Metered<Result>, m: Meter, k: nat)
    requires TameStack(K, k) && (r.value.Value? ==> Tame(r.value.value, k))
    ensures Keeps(k, m, PayReturn(K, r, m))
  {
    hide Charge, Tame;
    PaidKeeps(K, m, r.cost, k);
    if r.value.Value? {
      TameLater(r.value.value, k);
    }
  }

  lemma FinishCallKeeps(o: Oracle, aware: bool, K: Stack, fn: Fn, env: Element, m: Meter, k: nat)
    requires Harmless(o) && TameStack(K, k) && TameFn(fn, k) && Tame(env, k) && !fn.Quote?
    ensures Keeps(k, m, FinishCall(Standard(o, aware), K, fn, env, m))
  {
    hide PayReturn, FinishSoftfork, Opcodes.Finish;
    match fn {
      case Apply(_) => BllIsTame(Nil, k);
      case Softfork(values) => SoftforkKeeps(o, aware, K, values, m, k);
      case Op(b) =>
        FinishTame(o, b, k);
        PayReturnKeeps(K, Opcodes.Finish(o, b), m, k);
      case Partial(_) =>
    }
  }

  lemma StepCallKeeps(o: Oracle, aware: bool, K: Stack, fn: Fn, args: Element, env: Element, m: Meter, k: nat)
    requires Harmless(o) && TameStack(K, k) && TameFn(fn, k) && Tame(args, k) && Tame(env, k)
    ensures Keeps(k, m, StepCall(Standard(o, aware), K, fn, args, env, m))
  {
    hide Feedback, FinishCall, TameFn;
    if fn.Quote? {
      FeedbackKeeps(o, aware, K, Value(args), m, k);
    } else if args == Nil {
      FinishCallKeeps(o, aware, K, fn, env, m, k);
    } else if args.Cons? {
      assert TameStack(Push(K, Call(fn, args.right, env)), k);
    }
  }

  lemma StepEvalKeeps(K: Stack, p: Element, env: Element, m: Meter, k: nat)
    requires TameStack(K, k) && Tame(p, k) && Tame(env, k)
    ensures Keeps(k, m, StepEval(K, p, env, m))
  {
    hide PayReturn, StepOperator, IsBll, BytesToInt, Walk;
    if p.Atom? {
      WalkTame(env, BytesToInt(p.bytes), k);
      PayReturnKeeps(K, ResolveAtom(p.bytes, env), m, k);
    } else if p.Cons? {
      OperatorKeeps(K, p.left, p.right, env, m, k);
    }
  }

  lemma OperatorKeeps(K: Stack, op: Element, args: Element, env: Element, m: Meter, k: nat)
    requires TameStack(K, k) && Tame(args, k) && Tame(env, k)
    ensures Keeps(k, m, StepOperator(K, op, args, env, m))
  {
    hide StepOperator, Received, Tame, TameFn, Keeps, ResolveOpcode;
    var r := ResolveOpcode(op);
    OperatorReceived(K, op, args, env, m);
    ResolvedTame(op, k + r.cost);
    ReceivedKeeps(Resolved(op), K, args, env, m, k);
  }

  /** Resolving an operator, as the receipt that puts its frame in place. */
  function Resolved(op: Element): Metered<Receipt> {
    var r := ResolveOpcode(op);
    Metered(r.cost, if r.value.None? then Stop(InvalidOpcode) else Then(r.value.value))
  }

  lemma OperatorReceived(K: Stack, op: Element, args: Element, env: Element, m: Meter)
    ensures StepOperator(K, op, args, env, m) == Received(Resolved(op), K, args, env, m)
  {
    hide Charge, ResolveOpcode;
  }

  lemma ResolvedTame(op: Element, k: nat)
    ensures ResolveOpcode(op).value.Some? ==> TameFn(ResolveOpcode(op).value.value, k)
  {
    hide TableOp, BytesToInt;
    if op.Atom? {
      TableTame(BytesToInt(op.bytes), k);
    }
  }

  lemma StepFrameKeeps(o: Oracle, aware: bool, K: Stack, f: Frame, m: Meter, k: nat)
    requires Harmless(o) && TameStack(K, k) && TameFrame(f, k)
    ensures Keeps(k, m, StepFrame(Standard(o, aware), K, f, m))
  {
    hide Feedback, StepEval, StepCall, TameFn;
    match f {
      case Fin(r) => FeedbackKeeps(o, aware, K, r, m, k);
      case Eval(p, env) => StepEvalKeeps(K, p, env, m, k);
      case Call(fn, args, env) => StepCallKeeps(o, aware, K, fn, args, env, m, k);
      case ExitGuard =>
    }
  }

  /** The invariant of a run within a budget: every counter was paid for out of
      the money that is gone. */
  predicate Paid(s: State, limit: nat) {
    Money(s.m) <= limit && TameStack(s.frames, limit - Money(s.m))
  }

  lemma StepKeepsPaid(o: Oracle, aware: bool, s: State, limit: nat)
    requires Harmless(o) && !Done(s) && Paid(s, limit)
    ensures var r := Step(Standard(o, aware), s); Done(r) || Paid(r, limit)
  {
    hide StepFrame, Charge, Money;
    var k := limit - Money(s.m);
    var paid := Charge(s.m, STEP);
    PaidKeeps(s.frames, s.m, STEP, k);
    ChargeMoney(s.m, STEP);
    if !paid.Latched() {
      StepFrameKeeps(o, aware, s.frames.rest, s.frames.top, paid, k + STEP);
      StepFrameMoney(Standard(o, aware), s.frames.rest, s.frames.top, paid);
    }
  }
}
