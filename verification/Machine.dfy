/** The bll evaluator of bll.py and workitem.py as a transition function over a
    stack of continuation frames and a budget. */
module Machine {
  import opened Integers
  import opened Costs
  import opened Elements
  import opened OpTable

  const SOFTFORK_COST_MAX: int := 0x7fff_ffff_ffff_ffff

  /** A validator: what its opcodes do with an argument and at finish, and
      whether softfork extension 0 is recognised or treated as opaque. Nothing
      about the machine depends on what the opcodes compute. */
  datatype Validator = Validator(
    feed: (Bound, Element) -> Metered<Fed>,
    finish: Bound -> Metered<Result>,
    aware: bool)

  datatype Operands = NoOperand | Program(p: Element) | Both(p: Element, e: Element)

  /** The callable part of a continuation. */
  datatype Fn =
    | Quote
    | Apply(operands: Operands)
    | Softfork(values: seq<Element>)       // oldest first, capped at five
    | Op(bound: Bound)
    | Partial(target: Option<Bound>)

  datatype Frame =
    | Fin(result: Result)
    | Eval(program: Element, env: Element)
    | Call(fn: Fn, args: Element, env: Element)
    | ExitGuard

  /** The continuations of a WorkItem, the top one outermost. */
  datatype Stack = Empty | Push(rest: Stack, top: Frame)

  /** WorkItem: the continuations and the budget. */
  datatype State = State(frames: Stack, m: Meter)

  // ----- resolution -----

  /** ResolveEnv: the low bit of the index picks the child, every edge is paid
      for, the one that discovers an invalid reference included. */
  function Walk(env: Element, idx: int): Metered<Result>
    decreases idx
  {
    if idx <= 1 then Metered(0, Value(env))
    else if !env.Cons? then Metered(ENV_EDGE, Failure(InvalidEnvReference))
    else
      var rest := Walk(if idx % 2 == 0 then env.left else env.right, idx / 2);
      Metered(ENV_EDGE + rest.cost, rest.value)
  }

  /** An atom run as a program: a positive number is an environment reference,
      any other atom is its own value. */
  function ResolveAtom(a: Bytes, env: Element): Metered<Result> {
    var scan, v := AtomScan(|a|), BytesToInt(a);
    if v >= 1 then var w := Walk(env, v); Metered(scan + w.cost, w.value)
    else Metered(scan, Value(Atom(a)))
  }

  function OpcodeOf(num: int): Option<Fn> {
    match num
    case 0 => Some(Quote)
    case 1 => Some(Apply(NoOperand))
    case 2 => Some(Softfork([]))
    case 3 => Some(Partial(None))
    case _ =>
      var op := TableOp(num);
      if op.Some? then Some(Op(op.value))
      else if 0 <= num < UNKNOWN_OP_RANGE then Some(Op(UnknownOp(num)))
      else None
  }

  function ResolveOpcode(op: Element): Metered<Option<Fn>> {
    if !op.Atom? then Metered(0, None)
    else Metered(AtomScan(|op.bytes|), OpcodeOf(BytesToInt(op.bytes)))
  }

  // ----- collecting arguments -----

  datatype Receipt = Then(fn: Fn) | Stop(error: Error)

  /** The first value fed to partial: an opcode number, or a bound function,
      which with no further arguments is finalised. */
  function BindTarget(v: Element, last: bool): Metered<Receipt> {
    match v
    case Atom(a) =>
      var op := TableOp(BytesToInt(a));
      if op.Some? then Metered(AtomScan(|a|) + ELEMENT_ALLOC, Then(Partial(op)))
      else Metered(AtomScan(|a|), Stop(NotAnOpcode))
    case Func(b) => Metered(0, Then(if last then Op(b) else Partial(Some(b))))
    case Cons(_, _) => Metered(0, Stop(NotAnOpcode))
  }

  /** The feedback methods: a call takes delivery of one evaluated argument. */
  function Receive(cfg: Validator, fn: Fn, v: Element, last: bool): Metered<Receipt> {
    match fn
    case Quote => Metered(0, Stop(Unreachable))
    case Apply(NoOperand) => Metered(0, Then(Apply(Program(v))))
    case Apply(Program(p)) => Metered(0, Then(Apply(Both(p, v))))
    case Apply(Both(_, _)) => Metered(0, Stop(TooManyArguments))
    case Softfork(values) =>
      Metered(0, Then(Softfork(if |values| < 4 then values + [v]
                               else if |values| == 4 then values + [Nil]
                               else values)))
    case Op(b) =>
      var fed := cfg.feed(b, v);
      Metered(fed.cost, if fed.value.Next? then Then(Op(fed.value.bound)) else Stop(fed.value.error))
    case Partial(None) => BindTarget(v, last)
    case Partial(Some(b)) =>
      var fed := cfg.feed(b, v);
      if fed.value.Fault? then Metered(fed.cost, Stop(fed.value.error))
      else Metered(fed.cost + ELEMENT_ALLOC, Then(Partial(Some(fed.value.bound))))
  }

  // ----- softfork -----

  /** The declared cost of a softfork, if it is a positive machine integer. */
  function DeclaredCost(values: seq<Element>): Metered<Option<nat>> {
    if values == [] || !values[0].Atom? then Metered(0, None)
    else
      var v := BytesToInt(values[0].bytes);
      Metered(AtomScan(|values[0].bytes|), if 1 <= v <= SOFTFORK_COST_MAX then Some(v) else None)
  }

  /** Whether the four values name an extension this validator knows. */
  function Recognised(cfg: Validator, values: seq<Element>): (r: Metered<bool>)
    ensures r.value ==> cfg.aware && |values| == 4
  {
    if |values| == 4 && values[1].Atom? then
      Metered(AtomScan(|values[1].bytes|), cfg.aware && BytesToInt(values[1].bytes) == 0)
    else Metered(0, false)
  }

  // ----- steps -----

  function Return(K: Stack, r: Result, m: Meter): State {
    State(Push(K, Fin(r)), m)
  }

  function Raise(K: Stack, e: Error, m: Meter): State {
    Return(K, Failure(e), m)
  }

  /** fn_exitguard.feedback: nil if the allowance was spent exactly. */
  function LeaveGuard(K: Stack, m: Meter): State {
    if m.guards.Outside? then Raise(K, Unreachable, m)
    else if Avail(m) == 0 then Return(K, Value(Nil), PopAllowance(m))
    else Raise(K, SoftforkMismatch, PopAllowance(m))
  }

  function Received(r: Metered<Receipt>, K: Stack, args: Element, env: Element, m: Meter): State {
    var paid := Charge(m, r.cost);
    if paid.Latched() then State(K, paid)
    else
      match r.value
      case Then(fn) => State(Push(K, Call(fn, args, env)), paid)
      case Stop(e) => Raise(K, e, paid)
  }

  function TakeArgument(cfg: Validator, K: Stack, fn: Fn, v: Element, args: Element, env: Element, m: Meter): State {
    Received(Receive(cfg, fn, v, args == Nil), K, args, env, m)
  }

  /** What the frame below does with a value it has been paid for. */
  function Deliver(cfg: Validator, K: Stack, top: Frame, v: Element, m: Meter): State {
    match top
    case Call(fn, args, env) => TakeArgument(cfg, K, fn, v, args, env, m)
    case ExitGuard => LeaveGuard(K, m)
    case Fin(_) => Raise(K, Unreachable, m)
    case Eval(_, _) => Raise(K, Unreachable, m)
  }

  /** WorkItem.feedback: an error discards the stack, a value pays STEP to reach
      the frame below. */
  function Feedback(cfg: Validator, K: Stack, r: Result, m: Meter): State {
    if r.Failure? then State(Push(Empty, Fin(r)), ClearAllowances(m))
    else if K.Empty? then State(Push(Empty, Fin(r)), m)
    else
      var paid := Charge(m, STEP);
      if paid.Latched() then State(K, paid)
      else
        Deliver(cfg, K.rest, K.top, r.value, paid)
  }

  function EnterGuard(K: Stack, declared: nat, p: Element, env: Element, m: Meter): State {
    var paid := Charge(PushAllowance(m, declared), GUARD);
    if paid.Latched() then State(K, paid)
    else State(Push(Push(K, ExitGuard), Eval(p, env)), paid)
  }

  /** fn_softfork.finish: the declared cost is one lump whether or not a guard
      runs; everything the validator does not recognise delivers nil. */
  function FinishSoftfork(cfg: Validator, K: Stack, values: seq<Element>, m: Meter): State {
    var d := DeclaredCost(values);
    if d.value.None? then
      var paid := Charge(m, d.cost);
      if paid.Latched() then State(K, paid) else Raise(K, SoftforkCost, paid)
    else
      var ext := Recognised(cfg, values);
      var paid := Charge(m, d.cost + d.value.value + ext.cost);
      if paid.Latched() then State(K, paid)
      else if !ext.value then Return(K, Value(Nil), paid)
      else EnterGuard(K, d.value.value, values[2], values[3], paid)
  }

  /** A call whose arguments are used up. */
  function FinishCall(cfg: Validator, K: Stack, fn: Fn, env: Element, m: Meter): State
    requires !fn.Quote?
  {
    match fn
    case Apply(NoOperand) => State(Push(K, Eval(Nil, env)), m)
    case Apply(Program(p)) => State(Push(K, Eval(p, env)), m)
    case Apply(Both(p, e)) => State(Push(K, Eval(p, e)), m)
    case Softfork(values) => FinishSoftfork(cfg, K, values, m)
    case Op(b) => PayReturn(K, cfg.finish(b), m)
    case Partial(None) => Raise(K, NotAnOpcode, m)
    case Partial(Some(b)) => Return(K, Value(Func(b)), m)
  }

  function StepCall(cfg: Validator, K: Stack, fn: Fn, args: Element, env: Element, m: Meter): State {
    if fn.Quote? then Feedback(cfg, K, Value(args), m)
    else if args == Nil then FinishCall(cfg, K, fn, env, m)
    else if args.Cons? then State(Push(Push(K, Call(fn, args.right, env)), Eval(args.left, env)), m)
    else Raise(K, ImproperList, m)
  }

  /** A pair run as a program: its head names the operator. */
  function StepOperator(K: Stack, op: Element, args: Element, env: Element, m: Meter): State {
    var r := ResolveOpcode(op);
    var paid := Charge(m, r.cost);
    if paid.Latched() then State(K, paid)
    else
      match r.value
      case None => Raise(K, InvalidOpcode, paid)
      case Some(fn) => State(Push(K, Call(fn, args, env)), paid)
  }

  /** A result that has to be paid for before it is returned. */
  function PayReturn(K: Stack, r: Metered<Result>, m: Meter): State {
    var paid := Charge(m, r.cost);
    if paid.Latched() then State(K, paid) else Return(K, r.value, paid)
  }

  /** fn_blleval.step: code is bll, with no function object in it. */
  function StepEval(K: Stack, p: Element, env: Element, m: Meter): State {
    if p.Func? || !IsBll(p) then Raise(K, NotCode, m)
    else if p.Atom? then PayReturn(K, ResolveAtom(p.bytes, env), m)
    else StepOperator(K, p.left, p.right, env, m)
  }

  function StepFrame(cfg: Validator, K: Stack, f: Frame, m: Meter): State {
    match f
    case Fin(r) => Feedback(cfg, K, r, m)
    case Eval(p, env) => StepEval(K, p, env, m)
    case Call(fn, args, env) => StepCall(cfg, K, fn, args, env, m)
    case ExitGuard => Raise(K, Unreachable, m)
  }

  /** A breached guard abandons everything and ends in the mismatch error. */
  function Settle(s: State): State
  {
    if s.m.breach then State(Push(Empty, Fin(Failure(SoftforkMismatch))), ClearAllowances(s.m)) else s
  }

  /** WorkItem.step: one STEP per popped frame. */
  function Step(cfg: Validator, s: State): State
    requires s.frames.Push?
  {
    var paid := Charge(s.m, STEP);
    Settle(if paid.Latched() then State(s.frames, paid)
           else StepFrame(cfg, s.frames.rest, s.frames.top, paid))
  }

  predicate Finished(s: State) {
    s.frames.Push? && s.frames.rest.Empty? && s.frames.top.Fin?
  }

  predicate Done(s: State) {
    Finished(s) || s.m.exhausted || s.m.alloc || s.frames.Empty?
  }

  /** What an evaluation reports: its result, the charged total, and whether the
      budget gave out. */
  datatype Verdict = Verdict(result: Result, used: nat, exhausted: bool)

  /** The result gate: a program's result is a bll value or an error. */
  function Gate(r: Result): Result {
    if r.Value? && !IsBll(r.value) then Failure(ResultNotAValue) else r
  }

  function Report(s: State): Verdict
    requires Done(s)
  {
    if s.m.alloc then Verdict(Failure(AllocationLimit), s.m.used, s.m.exhausted)
    else if s.m.exhausted then Verdict(Failure(BudgetExhausted), s.m.used, true)
    else if s.frames.Empty? then Verdict(Failure(Unreachable), s.m.used, false)
    else Verdict(Gate(s.frames.top.result), s.m.used, false)
  }

  /** The driver loop of eval. */
  function Run(cfg: Validator, s: State): Verdict
    decreases if Done(s) then 0 else 1 + Money(s.m)
  {
    if Done(s) then Report(s)
    else
      StepSpends(cfg, s);
      Run(cfg, Step(cfg, s))
  }

  /** The state the driver loop stops in. */
  function Halt(cfg: Validator, s: State): (r: State)
    ensures Done(r)
    decreases if Done(s) then 0 else 1 + Money(s.m)
  {
    if Done(s) then s
    else
      StepSpends(cfg, s);
      Halt(cfg, Step(cfg, s))
  }

  lemma {:induction false} RunReportsHalt(cfg: Validator, s: State)
    ensures Run(cfg, s) == Report(Halt(cfg, s))
    decreases if Done(s) then 0 else 1 + Money(s.m)
  {
    if !Done(s) {
      StepSpends(cfg, s);
      RunReportsHalt(cfg, Step(cfg, s));
    }
  }

  function Start(p: Element, env: Element, limit: nat): State {
    State(Push(Empty, Eval(p, env)), Fresh(limit))
  }

  /** A step that does not latch the budget leaves a frame to pop. */
  lemma StepLeavesWork(cfg: Validator, s: State)
    requires s.frames.Push?
    ensures Step(cfg, s).m.Latched() || Step(cfg, s).frames.Push?
  {
    hide Charge, Receive, ResolveAtom, ResolveOpcode, DeclaredCost, Recognised, IsBll;
  }

  // ----- money -----

  lemma ChargeMoney(m: Meter, amount: nat)
    ensures var r := Charge(m, amount);
      r.Latched() || Money(r) + amount == Money(m)
  {
  }

  lemma FeedbackMoney(cfg: Validator, K: Stack, r: Result, m: Meter)
    ensures var s := Feedback(cfg, K, r, m); s.m.Latched() || Money(s.m) <= Money(m)
  {
    if r.Value? && K.Push? {
      ChargeMoney(m, STEP);
      var paid := Charge(m, STEP);
      if !paid.Latched() && K.top.Call? {
        ChargeMoney(paid, Receive(cfg, K.top.fn, r.value, K.top.args == Nil).cost);
      }
    }
  }

  /** Entering a guard is neutral: its allowance was paid for as a lump. */
  lemma SoftforkMoney(cfg: Validator, K: Stack, values: seq<Element>, m: Meter)
    ensures var s := FinishSoftfork(cfg, K, values, m); s.m.Latched() || Money(s.m) <= Money(m)
  {
    var d, ext := DeclaredCost(values), Recognised(cfg, values);
    if d.value.None? {
      ChargeMoney(m, d.cost);
    } else {
      var total := d.cost + d.value.value + ext.cost;
      ChargeMoney(m, total);
      var paid := Charge(m, total);
      if !paid.Latched() && ext.value {
        ChargeMoney(PushAllowance(paid, d.value.value), GUARD);
      }
    }
  }

  lemma StepFrameMoney(cfg: Validator, K: Stack, f: Frame, m: Meter)
    ensures var s := StepFrame(cfg, K, f, m); s.m.Latched() || Money(s.m) <= Money(m)
  {
    match f {
      case Fin(r) => FeedbackMoney(cfg, K, r, m);
      case Eval(p, env) =>
        if IsBll(p) {
          if p.Atom? {
            ChargeMoney(m, ResolveAtom(p.bytes, env).cost);
          } else {
            ChargeMoney(m, ResolveOpcode(p.left).cost);
          }
        }
      case Call(fn, args, env) =>
        if fn.Quote? {
          FeedbackMoney(cfg, K, Value(args), m);
        } else if fn.Op? {
          ChargeMoney(m, cfg.finish(fn.bound).cost);
        } else if fn.Softfork? {
          SoftforkMoney(cfg, K, fn.values, m);
        }
      case ExitGuard =>
    }
  }

  /** Every iteration of the driver loop ends the run or spends at least STEP of
      the money left anywhere. */
  lemma StepSpends(cfg: Validator, s: State)
    requires !Done(s)
    ensures Done(Step(cfg, s)) || Money(Step(cfg, s).m) + STEP <= Money(s.m)
  {
    ChargeMoney(s.m, STEP);
    var paid := Charge(s.m, STEP);
    if !paid.Latched() {
      StepFrameMoney(cfg, s.frames.rest, s.frames.top, paid);
    }
  }

  /** The number of driver loop iterations. */
  function Iterations(cfg: Validator, s: State): nat
    decreases if Done(s) then 0 else 1 + Money(s.m)
  {
    if Done(s) then 0
    else
      StepSpends(cfg, s);
      1 + Iterations(cfg, Step(cfg, s))
  }

  lemma {:induction false} IterationsBounded(cfg: Validator, s: State)
    ensures STEP * Iterations(cfg, s) <= Money(s.m) + STEP
    decreases if Done(s) then 0 else 1 + Money(s.m)
  {
    if !Done(s) {
      StepSpends(cfg, s);
      IterationsBounded(cfg, Step(cfg, s));
    }
  }

  /** Termination by remaining money: whatever the program, a run takes at most
      limit / STEP + 1 steps. */
  lemma EvaluationTerminates(cfg: Validator, p: Element, env: Element, limit: nat)
    ensures Iterations(cfg, Start(p, env, limit)) <= limit / STEP + 1
  {
    IterationsBounded(cfg, Start(p, env, limit));
  }
}
