/** A direct recursive evaluator of symbolic expressions, with its count of steps and
    its charge, and the proof that the symbolic machine computes exactly it. */
module SymbllDirect {
  import opened Costs
  import opened Elements
  import opened OpTable
  import opened Symbll
  import opened L = CompilerLimits
  import Bll = Machine
  import Big = BigStep
  import R = SymbllRuns
  import X = Constructions

  // ----- the evaluator -----

  /** How evaluating ends: a value, after so many steps in all and so much charged in
      all, an error, or an exception. */
  datatype Outcome = Ready(value: Element, steps: nat, used: nat) | Fails(error: Error) | Throws

  /** The outcome comes later than the steps and at no smaller charge. */
  predicate Later(oc: Outcome, steps: nat, used: nat) {
    oc.Ready? ==> oc.steps >= steps && used <= oc.used <= DEFAULT_BUDGET
  }

  /** The members of an argument list, and what stands behind the last. */
  function Items(args: SExpr): seq<SExpr> {
    if args.SPair? then [args.left] + Items(args.right) else []
  }

  function Tail(args: SExpr): SExpr {
    if args.SPair? then Tail(args.right) else args
  }

  /** The arguments by the names of the parameters. Where a name stands twice, the
      later argument counts. */
  function Bindings(params: seq<string>, values: seq<Element>): Locals
    requires |params| == |values|
  {
    if params == [] then map[]
    else
      var k := |params| - 1;
      Bindings(params[..k], values[..k])[params[k] := values[k]]
  }

  /** How many turns bll's own driver loop takes. */
  function Turns(cfg: Bll.Validator, s: Bll.State): nat
    decreases if Bll.Done(s) then 0 else 1 + Money(s.m)
  {
    if Bll.Done(s) then 0
    else
      Bll.StepSpends(cfg, s);
      1 + Turns(cfg, Bll.Step(cfg, s))
  }

  /** The symbolic evaluator's budget when so much has been charged. */
  function Paid(used: nat): Meter
    requires used <= DEFAULT_BUDGET
  {
    Meter(used, DEFAULT_BUDGET - used, Outside, false, false, false)
  }

  /** An expression, evaluated when so many steps have been taken and so much has been
      charged. */
  function Evaluate(G: Globals, cfg: Bll.Validator, e: SExpr, env: Locals, steps: nat, used: nat): (oc: Outcome)
    requires used <= DEFAULT_BUDGET
    ensures Later(oc, steps + 1, used)
    decreases STEP_ALLOWANCE - steps, 2
  {
    if steps >= STEP_ALLOWANCE then Fails(StepLimit)
    else
      match e
      case SAtom(b) => Ready(Atom(b), steps + 1, used)
      case Symbol(name) => Name(G, name, env, steps, used)
      case SPair(op, args) =>
        if op.Symbol? then Operator(G, cfg, op.name, args, env, steps + 1, used) else Fails(NoOperator)
  }

  /** A name as a value. Function objects are no values here. */
  function Name(G: Globals, name: string, env: Locals, steps: nat, used: nat): (oc: Outcome)
    requires used <= DEFAULT_BUDGET
    ensures Later(oc, steps + 1, used)
  {
    if Builtin(name) then Fails(OutsideModel)
    else if name in env then Ready(env[name], steps + 1, used)
    else if exists d | d in G :: d.name == name then Fails(OutsideModel)
    else Fails(UndefinedSymbol)
  }

  /** A call by name: builtins come before parameters, and those before globals. */
  function Operator(G: Globals, cfg: Bll.Validator, name: string, args: SExpr, env: Locals, steps: nat, used: nat)
    : (oc: Outcome)
    requires used <= DEFAULT_BUDGET
    ensures Later(oc, steps, used)
    decreases STEP_ALLOWANCE - steps, 1
  {
    if name == "q" then Quoted(args, steps, used)
    else if name == "if" then Conditional(G, cfg, args, env, steps, used)
    else if name == "a" then Application(G, cfg, [], args, env, steps, used)
    else if name == "report" || name == "partial" then Fails(OutsideModel)
    else if OpNumber(name).Some? then Operation(G, cfg, TableOp(OpNumber(name).value).value, args, env, steps, used)
    else if name in env then Fails(NotAFunction)
    else if exists d | d in G :: d.name == name then
      UserCall(G, cfg, Find(G, name).value, [], args, env, steps, used)
    else Fails(UndefinedSymbol)
  }

  function Quoted(args: SExpr, steps: nat, used: nat): (oc: Outcome)
    requires used <= DEFAULT_BUDGET
    ensures Later(oc, steps, used)
  {
    if steps >= STEP_ALLOWANCE then Fails(StepLimit)
    else
      match ToBll(args)
      case Some(v) => Ready(v, steps, used)
      case None => Fails(OutsideModel)
  }

  /** if: the first argument decides between the second and the third, which default
      to 1 and nil. */
  function Conditional(G: Globals, cfg: Bll.Validator, args: SExpr, env: Locals, steps: nat, used: nat): (oc: Outcome)
    requires used <= DEFAULT_BUDGET
    ensures Later(oc, steps, used)
    decreases STEP_ALLOWANCE - steps, 0
  {
    var xs := Items(args);
    if steps >= STEP_ALLOWANCE then Fails(StepLimit)
    else if xs == [] then Fails(TooFewArguments)
    else
      var c := Evaluate(G, cfg, xs[0], env, steps + 1, used);
      if !c.Ready? then c
      else if |xs| > 3 then Fails(TooManyArguments)
      else if Tail(args) != SNil then (if |xs| == 3 then Fails(ImproperList) else Throws)
      else
        var branch := if c.value != Nil then (if |xs| >= 2 then xs[1] else SAtom([1]))
                      else if |xs| == 3 then xs[2] else SNil;
        Evaluate(G, cfg, branch, env, c.steps + 1, c.used)
  }

  /** A table opcode: its arguments are fed as they are evaluated. */
  function Operation(G: Globals, cfg: Bll.Validator, b: Bound, args: SExpr, env: Locals, steps: nat, used: nat)
    : (oc: Outcome)
    requires used <= DEFAULT_BUDGET
    ensures Later(oc, steps, used)
    decreases STEP_ALLOWANCE - steps, 0
  {
    if steps >= STEP_ALLOWANCE then Fails(StepLimit)
    else if args == SNil then
      var r := cfg.finish(b);
      if used + r.cost > DEFAULT_BUDGET then Fails(BudgetExhausted)
      else if r.value.Failure? then Fails(r.value.error)
      else Ready(r.value.value, steps + 1, used + r.cost)
    else if !args.SPair? then Fails(ImproperList)
    else
      var v := Evaluate(G, cfg, args.left, env, steps + 1, used);
      if !v.Ready? then v
      else
        var fed := cfg.feed(b, v.value);
        if v.used + fed.cost > DEFAULT_BUDGET then Fails(BudgetExhausted)
        else if fed.value.Fault? then Fails(fed.value.error)
        else Operation(G, cfg, fed.value.bound, args.right, env, v.steps + 1, v.used + fed.cost)
  }

  /** a: exactly a program and an environment. */
  function Application(G: Globals, cfg: Bll.Validator, operands: seq<Element>, args: SExpr, env: Locals, steps: nat,
                       used: nat): (oc: Outcome)
    requires used <= DEFAULT_BUDGET && |operands| <= 2
    ensures Later(oc, steps, used)
    decreases STEP_ALLOWANCE - steps, 0
  {
    if steps >= STEP_ALLOWANCE then Fails(StepLimit)
    else if args == SNil then
      if |operands| == 2 then Program(cfg, operands[0], operands[1], steps, used) else Fails(TooFewArguments)
    else if !args.SPair? then Fails(ImproperList)
    else
      var v := Evaluate(G, cfg, args.left, env, steps + 1, used);
      if !v.Ready? then v
      else if |operands| == 2 then Fails(TooManyArguments)
      else Application(G, cfg, operands + [v.value], args.right, env, v.steps + 1, v.used)
  }

  /** A bll program: its own steps and its own charge count. */
  function Program(cfg: Bll.Validator, p: Element, e: Element, steps: nat, used: nat): (oc: Outcome)
    requires used <= DEFAULT_BUDGET
    ensures Later(oc, steps, used)
  {
    var v := Big.Whole(cfg, p, e, DEFAULT_BUDGET - used);
    var turns := Turns(cfg, Bll.State(Bll.Push(Bll.Empty, Bll.Eval(p, e)), Paid(used)));
    if steps + turns >= STEP_ALLOWANCE then Fails(StepLimit)
    else if v.result.Failure? then Fails(v.result.error)
    else Ready(v.result.value, steps + turns + 1, used + v.used)
  }

  /** A user function: its body over the arguments by name. */
  function UserCall(G: Globals, cfg: Bll.Validator, d: Define, values: seq<Element>, args: SExpr, env: Locals,
                    steps: nat, used: nat): (oc: Outcome)
    requires used <= DEFAULT_BUDGET && |values| <= |d.params|
    ensures Later(oc, steps, used)
    decreases STEP_ALLOWANCE - steps, 0
  {
    if steps >= STEP_ALLOWANCE then Fails(StepLimit)
    else if args == SNil then
      if |values| < |d.params| then Fails(TooFewArguments)
      else Evaluate(G, cfg, d.body, Bindings(d.params, values), steps + 1, used)
    else if !args.SPair? then Fails(ImproperList)
    else if |values| == |d.params| then Fails(TooManyArguments)
    else
      var v := Evaluate(G, cfg, args.left, env, steps + 1, used);
      if !v.Ready? then v
      else UserCall(G, cfg, d, values + [v.value], args.right, env, v.steps + 1, v.used)
  }

  /** A whole evaluation. */
  function Verdict(G: Globals, cfg: Bll.Validator, e: SExpr): Result {
    match Evaluate(G, cfg, e, map[], 0, 0)
    case Ready(v, _, _) => Bll.Gate(Value(v))
    case Fails(err) => Failure(err)
    case Throws => Failure(UncaughtException)
  }

  // ----- where the machine gets to -----

  datatype Setting = Setting(mem: Memory, G: Globals, cfg: Bll.Validator)

  /** A frame about to hand this value to the frame below. */
  predicate Hands(f: Frame, v: Element) {
    f == Fin(Value(v)) || (f.Call? && f.fn.Quote? && ToBll(f.args) == Some(v))
  }

  /** The state in which an evaluation over the frames K has come to its outcome. */
  predicate At(t: State, K: Stack, oc: Outcome) {
    match oc
    case Ready(v, steps, used) =>
      && t.frames.Push? && t.frames.rest == K && Hands(t.frames.top, v)
      && used <= DEFAULT_BUDGET && t.left == STEP_ALLOWANCE - steps && t.m == Paid(used)
    case Fails(e) => OnFin(t.frames) && t.frames.top.result == Failure(e)
    case Throws => Threw(t)
  }

  function Reached(w: Setting, s: State, k: nat): State {
    After(w.mem, w.G, w.cfg, s, k)
  }

  ghost predicate Leads(w: Setting, s: State, K: Stack, oc: Outcome) {
    exists k: nat :: At(Reached(w, s, k), K, oc)
  }

  /** A frame put on top when so many steps have been taken, the checks made. */
  function Here(w: Setting, K: Stack, f: Frame, steps: nat, used: nat): State
    requires used <= DEFAULT_BUDGET
  {
    Settle(w.mem, State(Push(K, f), STEP_ALLOWANCE - steps + 1, Paid(used)))
  }

  lemma HereIs(w: Setting, K: Stack, f: Frame, steps: nat, used: nat)
    requires Quiet(w.mem) && used <= DEFAULT_BUDGET && !f.Exception?
    ensures var s := Here(w, K, f, steps, used);
      if f.Fin? || steps < STEP_ALLOWANCE then s == State(Push(K, f), STEP_ALLOWANCE - steps, Paid(used))
      else At(s, K, Fails(StepLimit))
  {
  }

  lemma LeadsNow(w: Setting, s: State, K: Stack, oc: Outcome)
    requires At(s, K, oc)
    ensures Leads(w, s, K, oc)
  {
    hide At;
    assert Reached(w, s, 0) == s;
  }

  lemma LeadsStep(w: Setting, s: State, K: Stack, oc: Outcome)
    requires s.frames.Push? && !Stopped(s) && Leads(w, Step(w.mem, w.G, w.cfg, s), K, oc)
    ensures Leads(w, s, K, oc)
  {
    hide At, Step;
    var k: nat :| At(Reached(w, Step(w.mem, w.G, w.cfg, s), k), K, oc);
    assert Reached(w, s, k + 1) == Reached(w, Step(w.mem, w.G, w.cfg, s), k);
  }

  lemma {:induction false} ReachedOn(w: Setting, s: State, j: nat, k: nat)
    ensures Reached(w, s, j + k) == Reached(w, Reached(w, s, j), k)
    decreases j
  {
    hide Step;
    if j > 0 && !Stopped(s) && s.frames.Push? {
      ReachedOn(w, Step(w.mem, w.G, w.cfg, s), j - 1, k);
    }
  }

  /** A value is handed to the frame below, and the evaluation goes on from there. */
  lemma Delivered(w: Setting, s: State, K: Stack, top: Frame, v: Element, steps: nat, used: nat, oc: Outcome)
    requires used <= DEFAULT_BUDGET && Leads(w, s, Push(K, top), Ready(v, steps, used))
    requires Leads(w, Settle(w.mem, Deliver(w.cfg, K, top, v, STEP_ALLOWANCE - steps, Paid(used))), K, oc)
    ensures Leads(w, s, K, oc)
  {
    hide Deliver, Settle, Reached, Step;
    var j: nat :| At(Reached(w, s, j), Push(K, top), Ready(v, steps, used));
    var t := Reached(w, s, j);
    HandsSteps(w, K, top, t.frames.top, v, t.left, t.m);
    LeadsStep(w, t, K, oc);
    hide At;
    var k: nat :| At(Reached(w, t, k), K, oc);
    ReachedOn(w, s, j, k);
  }

  lemma HandsSteps(w: Setting, K: Stack, top: Frame, f: Frame, v: Element, left: int, m: Meter)
    requires Hands(f, v)
    ensures var s := State(Push(Push(K, top), f), left, m);
      && !Stopped(s)
      && Step(w.mem, w.G, w.cfg, s) == Settle(w.mem, Deliver(w.cfg, K, top, v, left, m))
  {
    hide Deliver, Settle;
  }

  /** What an argument comes to, if it is no value, the whole call comes to. */
  lemma Unfinished(w: Setting, s: State, J: Stack, K: Stack, oc: Outcome)
    requires !oc.Ready? && Leads(w, s, J, oc)
    ensures Leads(w, s, K, oc)
  {
    hide Reached;
    var k: nat :| At(Reached(w, s, k), J, oc);
    assert At(Reached(w, s, k), K, oc);
  }

  /** One step of a frame that has work to do. */
  lemma Through(w: Setting, K: Stack, f: Frame, steps: nat, used: nat, oc: Outcome)
    requires Quiet(w.mem) && used <= DEFAULT_BUDGET && steps < STEP_ALLOWANCE && !f.Fin? && !f.Exception?
    requires var left := STEP_ALLOWANCE - steps;
      Leads(w, Settle(w.mem, StepFrame(w.mem, w.G, w.cfg, K, f, left, Paid(used))), K, oc)
    ensures Leads(w, Here(w, K, f, steps, used), K, oc)
  {
    hide Here, StepFrame, Settle, Leads;
    HereIs(w, K, f, steps, used);
    LeadsStep(w, Here(w, K, f, steps, used), K, oc);
  }

  /** Without steps left, an evaluation fails. */
  lemma NoSteps(w: Setting, K: Stack, f: Frame, steps: nat, used: nat)
    requires Quiet(w.mem) && used <= DEFAULT_BUDGET && steps >= STEP_ALLOWANCE && !f.Fin? && !f.Exception?
    ensures Leads(w, Here(w, K, f, steps, used), K, Fails(StepLimit))
  {
    HereIs(w, K, f, steps, used);
    LeadsNow(w, Here(w, K, f, steps, used), K, Fails(StepLimit));
  }

  lemma Raises(w: Setting, K: Stack, e: Error, left: int, m: Meter)
    requires Quiet(w.mem)
    ensures Leads(w, Settle(w.mem, Raise(K, e, left, m)), K, Fails(e))
  {
    LeadsNow(w, Settle(w.mem, Raise(K, e, left, m)), K, Fails(e));
  }

  lemma Returns(w: Setting, K: Stack, v: Element, steps: nat, used: nat)
    requires Quiet(w.mem) && used <= DEFAULT_BUDGET
    ensures Leads(w, Settle(w.mem, Return(K, Value(v), STEP_ALLOWANCE - steps, Paid(used))), K,
                  Ready(v, steps + 1, used))
  {
    LeadsNow(w, Settle(w.mem, Return(K, Value(v), STEP_ALLOWANCE - steps, Paid(used))), K, Ready(v, steps + 1, used));
  }

  lemma Exhausts(w: Setting, K: Stack, used: nat, amount: nat, left: int)
    requires Quiet(w.mem) && L.Calls(K) && used <= DEFAULT_BUDGET < used + amount
    ensures Leads(w, Settle(w.mem, State(K, left, Charge(Paid(used), amount))), K, Fails(BudgetExhausted))
  {
    LeadsNow(w, Settle(w.mem, State(K, left, Charge(Paid(used), amount))), K, Fails(BudgetExhausted));
  }

  lemma Charged(used: nat, amount: nat)
    requires used + amount <= DEFAULT_BUDGET
    ensures Charge(Paid(used), amount) == Paid(used + amount) && !Paid(used + amount).Latched()
  {
  }

  // ----- the machine computes the evaluator -----

  lemma {:induction false} EvaluateLeads(w: Setting, K: Stack, e: SExpr, env: Locals, steps: nat, used: nat)
    requires Quiet(w.mem) && L.Calls(K) && used <= DEFAULT_BUDGET
    ensures Leads(w, Here(w, K, Eval(e, env), steps, used), K, Evaluate(w.G, w.cfg, e, env, steps, used))
    decreases STEP_ALLOWANCE - steps, 2
  {
    hide Leads, Settle, Operator, OpNumber, Builtin, TableOp;
    var f, left, m := Eval(e, env), STEP_ALLOWANCE - steps, Paid(used);
    if steps >= STEP_ALLOWANCE {
      NoSteps(w, K, f, steps, used);
    } else {
      match e {
        case SAtom(b) => Returns(w, K, Atom(b), steps, used);
        case Symbol(name) => SymbolLeads(w, K, name, env, steps, used);
        case SPair(op, args) =>
          if op.Symbol? {
            OperatorLeads(w, K, op.name, args, env, steps, used);
          } else {
            Raises(w, K, NoOperator, left, m);
          }
      }
      Through(w, K, f, steps, used, Evaluate(w.G, w.cfg, e, env, steps, used));
    }
  }

  lemma SymbolLeads(w: Setting, K: Stack, name: string, env: Locals, steps: nat, used: nat)
    requires Quiet(w.mem) && used <= DEFAULT_BUDGET
    ensures Leads(w, Settle(w.mem, StepEval(w.G, K, Symbol(name), env, STEP_ALLOWANCE - steps, Paid(used))), K,
                  Name(w.G, name, env, steps, used))
  {
    hide Leads, Settle, OpNumber, TableOp;
    var left, m := STEP_ALLOWANCE - steps, Paid(used);
    Defined(w.G, name);
    match ResolveCall(w.G, env, name) {
      case Holds(v) => Returns(w, K, v, steps, used);
      case Calls(_) => Raises(w, K, OutsideModel, left, m);
      case Missing(e) => Raises(w, K, e, left, m);
    }
  }

  lemma Defined(G: Globals, name: string)
    ensures Find(G, name).Some? <==> exists d | d in G :: d.name == name
  {
  }

  lemma {:induction false} OperatorLeads(w: Setting, K: Stack, name: string, args: SExpr, env: Locals, steps: nat,
                                         used: nat)
    requires Quiet(w.mem) && L.Calls(K) && used <= DEFAULT_BUDGET && steps < STEP_ALLOWANCE
    ensures var left := STEP_ALLOWANCE - steps;
      Leads(w, Settle(w.mem, StepEval(w.G, K, SPair(Symbol(name), args), env, left, Paid(used))), K,
            Operator(w.G, w.cfg, name, args, env, steps + 1, used))
    decreases STEP_ALLOWANCE - steps, 1
  {
    hide Leads, Settle, OpNumber, TableOp, Quoted, Conditional, Application, Operation, UserCall;
    var left, m, n := STEP_ALLOWANCE - steps, Paid(used), steps + 1;
    Defined(w.G, name);
    match ResolveCall(w.G, env, name) {
      case Holds(_) => Raises(w, K, NotAFunction, left, m);
      case Missing(e) => Raises(w, K, e, left, m);
      case Calls(Quote) => QuoteLeads(w, K, args, env, n, used);
      case Calls(If) => ConditionalLeads(w, K, args, env, n, used);
      case Calls(Apply(_)) => ApplicationLeads(w, K, [], args, env, n, used);
      case Calls(Op(b)) => OperationLeads(w, K, b, args, env, n, used);
      case Calls(User(_, _, _)) => UserCallLeads(w, K, Find(w.G, name).value, [], args, env, n, used);
    }
  }

  lemma QuoteLeads(w: Setting, K: Stack, args: SExpr, env: Locals, steps: nat, used: nat)
    requires Quiet(w.mem) && used <= DEFAULT_BUDGET
    ensures Leads(w, Here(w, K, Call(Quote, args, env), steps, used), K, Quoted(args, steps, used))
  {
    var f := Call(Quote, args, env);
    if steps >= STEP_ALLOWANCE {
      NoSteps(w, K, f, steps, used);
    } else {
      HereIs(w, K, f, steps, used);
      if ToBll(args).Some? {
        LeadsNow(w, Here(w, K, f, steps, used), K, Quoted(args, steps, used));
      } else {
        hide Leads, Settle;
        FeedbackFails(w, K, OutsideModel, STEP_ALLOWANCE - steps, Paid(used));
        Through(w, K, f, steps, used, Fails(OutsideModel));
      }
    }
  }

  lemma FeedbackFails(w: Setting, K: Stack, e: Error, left: int, m: Meter)
    requires Quiet(w.mem)
    ensures Leads(w, Settle(w.mem, Feedback(w.cfg, K, Failure(e), left, m)), K, Fails(e))
  {
    LeadsNow(w, Settle(w.mem, Feedback(w.cfg, K, Failure(e), left, m)), K, Fails(e));
  }

  /** The next argument of a call, and what the call does with its value. */
  lemma ArgumentLeads(w: Setting, K: Stack, fn: Fn, args: SExpr, env: Locals, steps: nat, used: nat, arg: Outcome,
                      oc: Outcome)
    requires Quiet(w.mem) && used <= DEFAULT_BUDGET && steps < STEP_ALLOWANCE
    requires args.SPair? && !fn.Quote? && (fn.User? ==> fn.dangling != [])
    requires var top := Call(fn, args.right, env);
      && Leads(w, Here(w, Push(K, top), Eval(args.left, env), steps + 1, used), Push(K, top), arg)
      && if !arg.Ready? then oc == arg
         else
           && arg.used <= DEFAULT_BUDGET
           && var s := Deliver(w.cfg, K, top, arg.value, STEP_ALLOWANCE - arg.steps, Paid(arg.used));
           Leads(w, Settle(w.mem, s), K, oc)
    ensures Leads(w, Here(w, K, Call(fn, args, env), steps, used), K, oc)
  {
    hide Leads, Settle, Deliver;
    var top := Call(fn, args.right, env);
    var s := Here(w, Push(K, top), Eval(args.left, env), steps + 1, used);
    if arg.Ready? {
      Delivered(w, s, K, top, arg.value, arg.steps, arg.used, oc);
    } else {
      Unfinished(w, s, Push(K, top), K, oc);
    }
    Through(w, K, Call(fn, args, env), steps, used, oc);
  }

  lemma {:induction false} ConditionalLeads(w: Setting, K: Stack, args: SExpr, env: Locals, steps: nat, used: nat)
    requires Quiet(w.mem) && L.Calls(K) && used <= DEFAULT_BUDGET
    ensures Leads(w, Here(w, K, Call(If, args, env), steps, used), K,
                  Conditional(w.G, w.cfg, args, env, steps, used))
    decreases STEP_ALLOWANCE - steps, 0
  {
    hide Leads, Settle, Evaluate, Branch, Here;
    var f, left, m := Call(If, args, env), STEP_ALLOWANCE - steps, Paid(used);
    var oc := Conditional(w.G, w.cfg, args, env, steps, used);
    if steps >= STEP_ALLOWANCE {
      NoSteps(w, K, f, steps, used);
    } else if !args.SPair? {
      Raises(w, K, TooFewArguments, left, m);
      Through(w, K, f, steps, used, oc);
    } else {
      var c := Evaluate(w.G, w.cfg, args.left, env, steps + 1, used);
      EvaluateLeads(w, Push(K, Call(If, args.right, env)), args.left, env, steps + 1, used);
      if c.Ready? {
        BranchLeads(w, K, args, c.value, env, c.steps, c.used);
      }
      ArgumentLeads(w, K, If, args, env, steps, used, c, oc);
    }
  }

  /** The branch by its position in the argument list. */
  function ByPosition(v: Element, args: SExpr): Choice {
    var xs := Items(args);
    if |xs| > 3 then Refused(TooManyArguments)
    else if Tail(args) != SNil then (if |xs| == 3 then Refused(ImproperList) else Unassigned)
    else Selected(if v != Nil then (if |xs| >= 2 then xs[1] else SAtom([1])) else if |xs| == 3 then xs[2] else SNil)
  }

  lemma BranchByPosition(v: Element, args: SExpr)
    requires args.SPair?
    ensures Branch(v, args.right) == ByPosition(v, args)
  {
    var a := args.right;
    assert Items(args) == [args.left] + Items(a) && Tail(args) == Tail(a);
    if a.SPair? {
      var b := a.right;
      assert Items(args) == [args.left, a.left] + Items(b) && Tail(a) == Tail(b);
      if b.SPair? {
        assert Items(args) == [args.left, a.left, b.left] + Items(b.right) && Tail(b) == Tail(b.right);
        assert b.right.SPair? <==> Items(b.right) != [];
      }
    }
  }

  lemma {:induction false} BranchLeads(w: Setting, K: Stack, args: SExpr, v: Element, env: Locals, steps: nat,
                                       used: nat)
    requires Quiet(w.mem) && L.Calls(K) && used <= DEFAULT_BUDGET && args.SPair?
    ensures var s := Deliver(w.cfg, K, Call(If, args.right, env), v, STEP_ALLOWANCE - steps, Paid(used));
      Leads(w, Settle(w.mem, s), K,
            match ByPosition(v, args)
            case Selected(branch) => Evaluate(w.G, w.cfg, branch, env, steps + 1, used)
            case Refused(e) => Fails(e)
            case Unassigned => Throws)
    decreases STEP_ALLOWANCE - steps - 1, 3
  {
    hide Leads, Evaluate, Branch, ByPosition;
    BranchByPosition(v, args);
    var left, m := STEP_ALLOWANCE - steps, Paid(used);
    match Branch(v, args.right) {
      case Selected(branch) => EvaluateLeads(w, K, branch, env, steps + 1, used);
      case Refused(e) => Raises(w, K, e, left, m);
      case Unassigned => LeadsNow(w, Settle(w.mem, State(Push(K, Exception), left, m)), K, Throws);
    }
  }

  lemma {:induction false} OperationLeads(w: Setting, K: Stack, b: Bound, args: SExpr, env: Locals, steps: nat,
                                          used: nat)
    requires Quiet(w.mem) && L.Calls(K) && used <= DEFAULT_BUDGET
    ensures Leads(w, Here(w, K, Call(Op(b), args, env), steps, used), K,
                  Operation(w.G, w.cfg, b, args, env, steps, used))
    decreases STEP_ALLOWANCE - steps, 0
  {
    hide Leads, Settle, Evaluate, Here, Charge;
    var f, left, m := Call(Op(b), args, env), STEP_ALLOWANCE - steps, Paid(used);
    var oc := Operation(w.G, w.cfg, b, args, env, steps, used);
    if steps >= STEP_ALLOWANCE {
      NoSteps(w, K, f, steps, used);
    } else if args == SNil {
      FinishLeads(w, K, b, steps, used);
      Through(w, K, f, steps, used, oc);
    } else if !args.SPair? {
      Raises(w, K, ImproperList, left, m);
      Through(w, K, f, steps, used, oc);
    } else {
      var v := Evaluate(w.G, w.cfg, args.left, env, steps + 1, used);
      EvaluateLeads(w, Push(K, Call(Op(b), args.right, env)), args.left, env, steps + 1, used);
      if v.Ready? {
        FeedLeads(w, K, b, v.value, args.right, env, v.steps, v.used);
      }
      ArgumentLeads(w, K, Op(b), args, env, steps, used, v, oc);
    }
  }

  lemma FinishLeads(w: Setting, K: Stack, b: Bound, steps: nat, used: nat)
    requires Quiet(w.mem) && L.Calls(K) && used <= DEFAULT_BUDGET
    ensures var r := w.cfg.finish(b);
      Leads(w, Settle(w.mem, PayReturn(K, r, STEP_ALLOWANCE - steps, Paid(used))), K,
            if used + r.cost > DEFAULT_BUDGET then Fails(BudgetExhausted)
            else if r.value.Failure? then Fails(r.value.error)
            else Ready(r.value.value, steps + 1, used + r.cost))
  {
    hide Leads, Settle;
    var r := w.cfg.finish(b);
    if used + r.cost > DEFAULT_BUDGET {
      Exhausts(w, K, used, r.cost, STEP_ALLOWANCE - steps);
    } else {
      Charged(used, r.cost);
      match r.value {
        case Value(v) => Returns(w, K, v, steps, used + r.cost);
        case Failure(e) => Raises(w, K, e, STEP_ALLOWANCE - steps, Paid(used + r.cost));
      }
    }
  }

  lemma {:induction false} FeedLeads(w: Setting, K: Stack, b: Bound, v: Element, rest: SExpr, env: Locals, steps: nat,
                                     used: nat)
    requires Quiet(w.mem) && L.Calls(K) && used <= DEFAULT_BUDGET
    ensures var fed := w.cfg.feed(b, v);
      Leads(w, Settle(w.mem, FeedOp(w.cfg, K, b, v, rest, env, STEP_ALLOWANCE - steps, Paid(used))), K,
            if used + fed.cost > DEFAULT_BUDGET then Fails(BudgetExhausted)
            else if fed.value.Fault? then Fails(fed.value.error)
            else Operation(w.G, w.cfg, fed.value.bound, rest, env, steps + 1, used + fed.cost))
    decreases STEP_ALLOWANCE - steps - 1, 3
  {
    hide Leads, Operation, Charge;
    var fed := w.cfg.feed(b, v);
    if used + fed.cost > DEFAULT_BUDGET {
      Exhausts(w, K, used, fed.cost, STEP_ALLOWANCE - steps);
      Latches(used, fed.cost);
    } else {
      Charged(used, fed.cost);
      match fed.value {
        case Next(b') => OperationLeads(w, K, b', rest, env, steps + 1, used + fed.cost);
        case Fault(e) => Raises(w, K, e, STEP_ALLOWANCE - steps, Paid(used + fed.cost));
      }
    }
  }

  lemma Latches(used: nat, amount: nat)
    requires used <= DEFAULT_BUDGET < used + amount
    ensures Charge(Paid(used), amount).Latched()
  {
  }

  /** What a has collected. */
  function Operands(vs: seq<Element>): Bll.Operands
    requires |vs| <= 2
  {
    if vs == [] then Bll.NoOperand else if |vs| == 1 then Bll.Program(vs[0]) else Bll.Both(vs[0], vs[1])
  }

  lemma {:induction false} ApplicationLeads(w: Setting, K: Stack, vs: seq<Element>, args: SExpr, env: Locals,
                                            steps: nat, used: nat)
    requires Quiet(w.mem) && L.Calls(K) && used <= DEFAULT_BUDGET && |vs| <= 2
    ensures Leads(w, Here(w, K, Call(Apply(Operands(vs)), args, env), steps, used), K,
                  Application(w.G, w.cfg, vs, args, env, steps, used))
    decreases STEP_ALLOWANCE - steps, 0
  {
    hide Leads, Settle, Evaluate, Here, Nested, Program;
    var fn := Fn.Apply(Operands(vs));
    var f, left, m := Call(fn, args, env), STEP_ALLOWANCE - steps, Paid(used);
    var oc := Application(w.G, w.cfg, vs, args, env, steps, used);
    if steps >= STEP_ALLOWANCE {
      NoSteps(w, K, f, steps, used);
    } else if args == SNil {
      if |vs| == 2 {
        ProgramLeads(w, K, vs[0], vs[1], steps, used);
      } else {
        Raises(w, K, TooFewArguments, left, m);
      }
      Through(w, K, f, steps, used, oc);
    } else if !args.SPair? {
      Raises(w, K, ImproperList, left, m);
      Through(w, K, f, steps, used, oc);
    } else {
      var v := Evaluate(w.G, w.cfg, args.left, env, steps + 1, used);
      EvaluateLeads(w, Push(K, Call(fn, args.right, env)), args.left, env, steps + 1, used);
      if v.Ready? {
        OperandLeads(w, K, vs, v.value, args.right, env, v.steps, v.used);
      }
      ArgumentLeads(w, K, fn, args, env, steps, used, v, oc);
    }
  }

  lemma {:induction false} OperandLeads(w: Setting, K: Stack, vs: seq<Element>, v: Element, rest: SExpr, env: Locals,
                                        steps: nat, used: nat)
    requires Quiet(w.mem) && L.Calls(K) && used <= DEFAULT_BUDGET && |vs| <= 2
    ensures var s := Deliver(w.cfg, K, Call(Apply(Operands(vs)), rest, env), v, STEP_ALLOWANCE - steps, Paid(used));
      Leads(w, Settle(w.mem, s), K,
            if |vs| == 2 then Fails(TooManyArguments)
            else Application(w.G, w.cfg, vs + [v], rest, env, steps + 1, used))
    decreases STEP_ALLOWANCE - steps - 1, 3
  {
    hide Leads, Application;
    if |vs| == 2 {
      Raises(w, K, TooManyArguments, STEP_ALLOWANCE - steps, Paid(used));
    } else {
      ApplicationLeads(w, K, vs + [v], rest, env, steps + 1, used);
    }
  }

  /** The parameters that have no argument yet, and the arguments of the others. */
  function Taking(d: Define, values: seq<Element>): Fn
    requires |values| <= |d.params|
  {
    User(d.body, d.params[|values|..], Bindings(d.params[..|values|], values))
  }

  lemma {:induction false} UserCallLeads(w: Setting, K: Stack, d: Define, values: seq<Element>, args: SExpr,
                                         env: Locals, steps: nat, used: nat)
    requires Quiet(w.mem) && L.Calls(K) && used <= DEFAULT_BUDGET && |values| <= |d.params|
    ensures Leads(w, Here(w, K, Call(Taking(d, values), args, env), steps, used), K,
                  UserCall(w.G, w.cfg, d, values, args, env, steps, used))
    decreases STEP_ALLOWANCE - steps, 0
  {
    hide Leads, Settle, Evaluate, Bindings;
    var fn := Taking(d, values);
    var f, left, m := Call(fn, args, env), STEP_ALLOWANCE - steps, Paid(used);
    var oc := UserCall(w.G, w.cfg, d, values, args, env, steps, used);
    if steps >= STEP_ALLOWANCE {
      NoSteps(w, K, f, steps, used);
    } else if args == SNil {
      if |values| < |d.params| {
        Raises(w, K, TooFewArguments, left, m);
      } else {
        assert d.params[..|values|] == d.params;
        EvaluateLeads(w, K, d.body, Bindings(d.params, values), steps + 1, used);
      }
      Through(w, K, f, steps, used, oc);
    } else if !args.SPair? {
      Raises(w, K, ImproperList, left, m);
      Through(w, K, f, steps, used, oc);
    } else if |values| == |d.params| {
      Raises(w, K, TooManyArguments, left, m);
      Through(w, K, f, steps, used, oc);
    } else {
      hide Here;
      var v := Evaluate(w.G, w.cfg, args.left, env, steps + 1, used);
      EvaluateLeads(w, Push(K, Call(fn, args.right, env)), args.left, env, steps + 1, used);
      if v.Ready? {
        ParameterLeads(w, K, d, values, v.value, args.right, env, v.steps, v.used);
      }
      ArgumentLeads(w, K, fn, args, env, steps, used, v, oc);
    }
  }

  lemma {:induction false} ParameterLeads(w: Setting, K: Stack, d: Define, values: seq<Element>, v: Element,
                                          rest: SExpr, env: Locals, steps: nat, used: nat)
    requires Quiet(w.mem) && L.Calls(K) && used <= DEFAULT_BUDGET && |values| < |d.params|
    ensures var s := Deliver(w.cfg, K, Call(Taking(d, values), rest, env), v, STEP_ALLOWANCE - steps, Paid(used));
      Leads(w, Settle(w.mem, s), K, UserCall(w.G, w.cfg, d, values + [v], rest, env, steps + 1, used))
    decreases STEP_ALLOWANCE - steps - 1, 3
  {
    hide Leads, UserCall, Bindings;
    TakesOne(d, values, v);
    UserCallLeads(w, K, d, values + [v], rest, env, steps + 1, used);
  }

  lemma TakesOne(d: Define, values: seq<Element>, v: Element)
    requires |values| < |d.params|
    ensures var k := |values|;
      Taking(d, values + [v]) ==
      User(d.body, d.params[k..][1..], Bindings(d.params[..k], values)[d.params[k..][0] := v])
  {
    hide Bindings;
    var k := |values|;
    OneName(d.params, k);
    BindsOne(d.params[..k], values, d.params[k], v);
  }

  lemma OneName(names: seq<string>, k: nat)
    requires k < |names|
    ensures names[k..][1..] == names[k + 1..] && names[k..][0] == names[k]
    ensures names[..k + 1] == names[..k] + [names[k]]
  {
  }

  lemma BindsOne(params: seq<string>, values: seq<Element>, name: string, v: Element)
    requires |params| == |values|
    ensures Bindings(params + [name], values + [v]) == Bindings(params, values)[name := v]
  {
    assert (params + [name])[..|params|] == params && (values + [v])[..|values|] == values;
  }

  // ----- nested programs -----

  /** The allocator is over its limit at one of the checks after nested steps. */
  ghost predicate Overruns(mem: Memory, turns: nat, left: int) {
    exists l: int :: 0 < l < left && left - turns <= l && mem(l)
  }

  lemma OverrunsNext(mem: Memory, turns: nat, left: int)
    requires turns >= 1
    ensures Overruns(mem, turns, left) <==> left > 1 && (mem(left - 1) || Overruns(mem, turns - 1, left - 1))
  {
  }

  lemma NoneOverruns(mem: Memory, left: int)
    ensures !Overruns(mem, 0, left)
  {
  }

  lemma DriveOnce(mem: Memory, cfg: Bll.Validator, s: Bll.State, left: int)
    ensures var d, turns := Drive(mem, cfg, s, left), Turns(cfg, s);
      if Bll.Done(s) then d == Nest(s, left, None) && turns == 0 && Bll.Halt(cfg, s) == s
      else
        var r := Bll.Step(cfg, s);
        && turns == 1 + Turns(cfg, r) && Bll.Halt(cfg, s) == Bll.Halt(cfg, r)
        && d == if left - 1 <= 0 then Nest(r, left - 1, Some(StepLimit))
                else if mem(left - 1) then Nest(r, left - 1, Some(MemoryOverrun))
                else Drive(mem, cfg, r, left - 1)
  {
    hide Bll.Step;
    if !Bll.Done(s) {
      Bll.StepSpends(cfg, s);
    }
  }

  /** Every nested step counts, the last must leave some allowance, and an allocator
      over its limit after any of them aborts. */
  lemma {:induction false} DriveExactly(mem: Memory, cfg: Bll.Validator, s: Bll.State, left: int)
    requires left >= 1
    ensures var d, turns := Drive(mem, cfg, s, left), Turns(cfg, s);
      if Overruns(mem, turns, left) then d.aborted == Some(MemoryOverrun)
      else if turns >= left then d.aborted == Some(StepLimit)
      else d == Nest(Bll.Halt(cfg, s), left - turns, None)
    decreases if Bll.Done(s) then 0 else 1 + Money(s.m)
  {
    hide Bll.Step, Bll.Halt, Overruns, Drive, Turns;
    DriveOnce(mem, cfg, s, left);
    if Bll.Done(s) {
      NoneOverruns(mem, left);
    } else {
      Bll.StepSpends(cfg, s);
      OverrunsNext(mem, Turns(cfg, s), left);
      if left > 1 && !mem(left - 1) {
        DriveExactly(mem, cfg, Bll.Step(cfg, s), left - 1);
      }
    }
  }

  /** The steps of a run move money from what is left to what is used. */
  lemma {:induction false} HaltTotal(cfg: Bll.Validator, s: Bll.State)
    ensures var r := Bll.Halt(cfg, s); r.m.used + r.m.left == s.m.used + s.m.left
    decreases if Bll.Done(s) then 0 else 1 + Money(s.m)
  {
    hide Bll.Step;
    if !Bll.Done(s) {
      Bll.StepSpends(cfg, s);
      X.StepOnward(cfg, s);
      HaltTotal(cfg, Bll.Step(cfg, s));
    }
  }

  /** The nested run reports what the direct evaluator of programs does. */
  lemma NestedVerdict(cfg: Bll.Validator, p: Element, e: Element, used: nat)
    requires used <= DEFAULT_BUDGET
    ensures var v := Big.Whole(cfg, p, e, DEFAULT_BUDGET - used);
      var halt := Bll.Halt(cfg, Bll.State(Bll.Push(Bll.Empty, Bll.Eval(p, e)), Paid(used)));
      && Bll.Report(halt).result == v.result
      && (v.result.Value? ==> used + v.used <= DEFAULT_BUDGET && halt.m == Paid(used + v.used))
  {
    hide Bll.Halt, Bll.Run, Big.Evaluate;
    var m := Paid(used);
    var s := Bll.State(Bll.Push(Bll.Empty, Bll.Eval(p, e)), m);
    Bll.RunReportsHalt(cfg, s);
    Big.EvaluateRefines(cfg, Bll.Empty, p, e, m);
    var oc := Big.Evaluate(cfg, p, e, DEFAULT_BUDGET - used);
    Ended(cfg, oc, m);
    var r := Big.Whole(cfg, p, e, DEFAULT_BUDGET - used).result;
    if r.Value? {
      R.NestedYields(cfg, p, e, m, r.value);
      HaltTotal(cfg, s);
      var halt := Bll.Halt(cfg, s);
      assert halt.m.used == used + oc.cost;
    }
  }

  lemma Ended(cfg: Bll.Validator, oc: Big.Outcome, m: Meter)
    requires Big.Fits(oc, Avail(m)) && !m.Latched() && m.guards.Outside?
    ensures var v := Big.Continue(cfg, Bll.Empty, oc, m);
      match oc
      case Ready(x, c, _) => v.result == Bll.Gate(Value(x)) && v.used == m.used + c && !v.exhausted
      case Raised(err, _) => v.result == Failure(err)
      case Dead(err, _) => v.result == Failure(err)
      case Out => v.result == Failure(BudgetExhausted)
  {
  }

  lemma ProgramLeads(w: Setting, K: Stack, p: Element, e: Element, steps: nat, used: nat)
    requires Quiet(w.mem) && used <= DEFAULT_BUDGET && steps < STEP_ALLOWANCE
    ensures Leads(w, Settle(w.mem, Nested(w.mem, w.cfg, K, p, e, STEP_ALLOWANCE - steps, Paid(used))), K,
                  Program(w.cfg, p, e, steps, used))
  {
    hide Leads, Settle, Bll.Halt, Drive, Bll.Report, Big.Whole, Turns;
    var s := Bll.State(Bll.Push(Bll.Empty, Bll.Eval(p, e)), Paid(used));
    var left := STEP_ALLOWANCE - steps;
    var d, turns := Drive(w.mem, w.cfg, s, left), Turns(w.cfg, s);
    DriveExactly(w.mem, w.cfg, s, left);
    NestedVerdict(w.cfg, p, e, used);
    if turns >= left {
      Raises(w, K, StepLimit, d.left, ClearAllowances(d.s.m));
    } else {
      var v := Big.Whole(w.cfg, p, e, DEFAULT_BUDGET - used);
      if v.result.Failure? {
        Raises(w, K, v.result.error, d.left, if d.s.m.alloc || d.s.m.exhausted then ClearAllowances(d.s.m) else d.s.m);
      } else {
        Returns(w, K, v.result.value, steps + turns, used + v.used);
      }
    }
  }

  // ----- whole evaluations -----

  /** From where an evaluation over no frames has come to, it is over in one turn. */
  lemma Reports(w: Setting, t: State, oc: Outcome)
    requires Quiet(w.mem) && At(t, Empty, oc)
    ensures RunFor(w.mem, w.G, w.cfg, t, 1) == Some(
              match oc
              case Ready(v, _, _) => Bll.Gate(Value(v))
              case Fails(e) => Failure(e)
              case Throws => Failure(UncaughtException))
  {
    if oc.Fails? && !Finished(t) {
      FailedStep(w.mem, w.G, w.cfg, t);
    }
  }

  /** With the allocator below its limit, the symbolic machine computes the direct
      evaluator: the same value, error or exception, for every expression, at the
      same count of steps and the same charge. */
  lemma SymbolicIsDirect(mem: Memory, G: Globals, cfg: Bll.Validator, e: SExpr)
    requires Quiet(mem)
    ensures RunFor(mem, G, cfg, Begin(e), STEP_ALLOWANCE + 2) == Some(Verdict(G, cfg, e))
    ensures exists k: nat :: At(After(mem, G, cfg, Begin(e), k), Empty, Evaluate(G, cfg, e, map[], 0, 0))
  {
    hide RunFor, At, Evaluate;
    var w, oc := Setting(mem, G, cfg), Evaluate(G, cfg, e, map[], 0, 0);
    EvaluateLeads(w, Empty, e, map[], 0, 0);
    HereIs(w, Empty, Eval(e, map[]), 0, 0);
    assert Begin(e) == Here(w, Empty, Eval(e, map[]), 0, 0);
    var k: nat :| At(Reached(w, Begin(e), k), Empty, oc);
    Reports(w, Reached(w, Begin(e), k), oc);
    AfterRuns(mem, G, cfg, Begin(e), k, 1);
    SymbolicEvalTerminates(mem, G, cfg, e);
    RunLonger(mem, G, cfg, Begin(e), k + 1, k + 1 + STEP_ALLOWANCE + 2);
    RunLonger(mem, G, cfg, Begin(e), STEP_ALLOWANCE + 2, k + 1 + STEP_ALLOWANCE + 2);
  }
}
