/** The symbolic evaluator of symbll.py: a frame machine over symbol tables. */
module Symbll {
  import opened Integers
  import opened Costs
  import opened Elements
  import opened OpTable
  import Bll = Machine

  datatype SExpr = SAtom(bytes: Bytes) | Symbol(name: string) | SPair(left: SExpr, right: SExpr)

  const SNil: SExpr := SAtom([])

  /** The bll value an expression is, if no symbol occurs in it. */
  function ToBll(e: SExpr): Option<Element> {
    match e
    case SAtom(b) => Some(Atom(b))
    case Symbol(_) => None
    case SPair(l, r) =>
      var x, y := ToBll(l), ToBll(r);
      if x.None? || y.None? then None else Some(Cons(x.value, y.value))
  }

  /** A bll value as an expression. */
  function FromBll(e: Element): SExpr
    requires IsBll(e)
  {
    match e
    case Atom(b) => SAtom(b)
    case Cons(l, r) => SPair(FromBll(l), FromBll(r))
  }

  lemma {:induction false} FromBllRoundTrip(e: Element)
    requires IsBll(e)
    ensures ToBll(FromBll(e)) == Some(e)
  {
    if e.Cons? {
      FromBllRoundTrip(e.left);
      FromBllRoundTrip(e.right);
    }
  }

  /** The definition of a function. Definitions of plain symbols, which are values
      and no operators, are not described here. */
  datatype Define = Define(name: string, params: seq<string>, body: SExpr)

  type Globals = seq<Define>
  type Locals = map<string, Element>

  function Find(G: Globals, name: string): (r: Option<Define>)
    ensures r.Some? ==> r.value in G && r.value.name == name
    ensures r.None? ==> forall d | d in G :: d.name != name
  {
    if G == [] then None
    else if G[0].name == name then Some(G[0])
    else Find(G[1..], name)
  }

  /** Names that resolve before any definition. */
  predicate Builtin(name: string) {
    name in {"if", "q", "report", "partial", "a"} || OpNumber(name).Some?
  }

  datatype Fn =
    | Quote
    | If
    | Apply(operands: Bll.Operands)
    | Op(bound: Bound)
    | User(body: SExpr, dangling: seq<string>, satisfied: Locals)

  datatype Frame =
    | Fin(result: Result)
    | Eval(expr: SExpr, env: Locals)
    | Call(fn: Fn, args: SExpr, env: Locals)
    | Exception          // no continuation: a Python exception leaves the evaluator

  datatype Stack = Empty | Push(rest: Stack, top: Frame)

  /** WorkItem: the continuations, the step allowance and the shared budget. */
  datatype State = State(frames: Stack, left: int, m: Meter)

  /** The process-wide allocator as the abort checks meet it: whether it is over
      MEMORY_LIMIT at the check made with that much step allowance left. Every
      check has an allowance of its own, nested ones included, so that an arbitrary
      function describes whatever the process does. */
  type Memory = int -> bool

  /** Bytes (symbll.py, ALLOCATOR.x). */
  const MEMORY_LIMIT: nat := 400000

  datatype Lookup = Calls(fn: Fn) | Holds(value: Element) | Missing(error: Error)

  /** ResolveSymbol, as far as its answers are calls or values. */
  function ResolveCall(G: Globals, env: Locals, name: string): Lookup {
    if name == "if" then Calls(If)
    else if name == "q" then Calls(Quote)
    else if name == "a" then Calls(Apply(Bll.NoOperand))
    else if name == "report" || name == "partial" then Missing(OutsideModel)
    else if OpNumber(name).Some? then Calls(Op(TableOp(OpNumber(name).value).value))
    else if name in env then Holds(env[name])
    else
      match Find(G, name)
      case Some(d) => Calls(User(d.body, d.params, map[]))
      case None => Missing(UndefinedSymbol)
  }

  function Return(K: Stack, r: Result, left: int, m: Meter): State {
    State(Push(K, Fin(r)), left, m)
  }

  function Raise(K: Stack, e: Error, left: int, m: Meter): State {
    Return(K, Failure(e), left, m)
  }

  function PayReturn(K: Stack, r: Metered<Result>, left: int, m: Meter): State {
    var paid := Charge(m, r.cost);
    if paid.Latched() then State(K, left, paid) else Return(K, r.value, left, paid)
  }

  datatype Choice = Selected(branch: SExpr) | Refused(error: Error) | Unassigned

  /** fn_if.feedback: the branch the condition selects, 1 and nil by default. With an
      improper tail in the place of a branch, the variable of that branch is never
      assigned, and using it raises an exception. */
  function Branch(v: Element, args: SExpr): Choice {
    if !args.SPair? && args != SNil then Unassigned
    else
      var t, rest := if args.SPair? then args.left else SAtom([1]), if args.SPair? then args.right else SNil;
      if !rest.SPair? && rest != SNil then Unassigned
      else
        var e, tail := if rest.SPair? then rest.left else SNil, if rest.SPair? then rest.right else SNil;
        if tail.SPair? then Refused(TooManyArguments)
        else if tail != SNil then Refused(ImproperList)
        else Selected(if v == Nil then e else t)
  }

  /** The feedback methods. */
  function Deliver(cfg: Bll.Validator, K: Stack, top: Frame, v: Element, left: int, m: Meter): State {
    match top
    case Call(If, args, env) =>
      (match Branch(v, args)
       case Selected(branch) => State(Push(K, Eval(branch, env)), left, m)
       case Refused(e) => Raise(K, e, left, m)
       case Unassigned => State(Push(K, Exception), left, m))
    case Call(Apply(NoOperand), args, env) => State(Push(K, Call(Apply(Bll.Program(v)), args, env)), left, m)
    case Call(Apply(Program(p)), args, env) => State(Push(K, Call(Apply(Bll.Both(p, v)), args, env)), left, m)
    case Call(Apply(Both(_, _)), args, env) => Raise(K, TooManyArguments, left, m)
    case Call(Op(b), args, env) => FeedOp(cfg, K, b, v, args, env, left, m)
    case Call(User(body, dangling, satisfied), args, env) =>
      if dangling == [] then Raise(K, Unreachable, left, m)
      else State(Push(K, Call(User(body, dangling[1..], satisfied[dangling[0] := v]), args, env)), left, m)
    case _ => Raise(K, Unreachable, left, m)
  }

  function FeedOp(cfg: Bll.Validator, K: Stack, b: Bound, v: Element, args: SExpr, env: Locals, left: int,
                  m: Meter): State {
    var fed := cfg.feed(b, v);
    var paid := Charge(m, fed.cost);
    if paid.Latched() then State(K, left, paid)
    else
      match fed.value
      case Next(b') => State(Push(K, Call(Op(b'), args, env)), left, paid)
      case Fault(e) => Raise(K, e, left, paid)
  }

  /** WorkItem.feedback: nothing is charged for a delivery here. */
  function Feedback(cfg: Bll.Validator, K: Stack, r: Result, left: int, m: Meter): State {
    if r.Failure? then State(Push(Empty, Fin(r)), left, m)
    else if K.Empty? then State(Push(Empty, Fin(r)), left, m)
    else Deliver(cfg, K.rest, K.top, r.value, left, m)
  }

  /** Where a nested bll run stops, and the step allowance left to it. */
  datatype Nest = Nest(s: Bll.State, left: int, aborted: Option<Error>)

  /** Every nested step counts against the step allowance, and is followed by a look
      at the allocator. */
  function Drive(mem: Memory, cfg: Bll.Validator, s: Bll.State, left: int): (d: Nest)
    ensures d.left <= left && d.left >= (if left >= 1 then 0 else left - 1)
    ensures d.aborted.None? ==> d.s == Bll.Halt(cfg, s)
    decreases if Bll.Done(s) then 0 else 1 + Money(s.m)
  {
    if Bll.Done(s) then Nest(s, left, None)
    else
      Bll.StepSpends(cfg, s);
      var r := Bll.Step(cfg, s);
      if left - 1 <= 0 then Nest(r, left - 1, Some(StepLimit))
      else if mem(left - 1) then Nest(r, left - 1, Some(MemoryOverrun))
      else Drive(mem, cfg, r, left - 1)
  }

  /** (a PROG ENV): the program runs on the bll machine over the shared budget,
      whose open guards a run without a result abandons. */
  function Nested(mem: Memory, cfg: Bll.Validator, K: Stack, p: Element, e: Element, left: int, m: Meter): State {
    var d := Drive(mem, cfg, Bll.State(Bll.Push(Bll.Empty, Bll.Eval(p, e)), m), left);
    if d.aborted.Some? then Raise(K, d.aborted.value, d.left, ClearAllowances(d.s.m))
    else if d.s.m.alloc || d.s.m.exhausted then
      Return(K, Bll.Report(d.s).result, d.left, ClearAllowances(d.s.m))
    else Return(K, Bll.Report(d.s).result, d.left, d.s.m)
  }

  function FinishCall(mem: Memory, cfg: Bll.Validator, K: Stack, fn: Fn, env: Locals, left: int, m: Meter): State
    requires !fn.Quote? && !fn.If?
  {
    match fn
    case Op(b) => PayReturn(K, cfg.finish(b), left, m)
    case User(body, dangling, satisfied) =>
      if dangling == [] then State(Push(K, Eval(body, satisfied)), left, m)
      else Raise(K, TooFewArguments, left, m)
    case Apply(Both(p, e)) => Nested(mem, cfg, K, p, e, left, m)
    case Apply(_) => Raise(K, TooFewArguments, left, m)
  }

  function StepCall(mem: Memory, cfg: Bll.Validator, K: Stack, fn: Fn, args: SExpr, env: Locals, left: int,
                    m: Meter): State {
    if fn.Quote? then
      match ToBll(args)
      case Some(v) => Feedback(cfg, K, Value(v), left, m)
      case None => Feedback(cfg, K, Failure(OutsideModel), left, m)
    else if fn.If? && !args.SPair? then Raise(K, TooFewArguments, left, m)
    else if args == SNil then FinishCall(mem, cfg, K, fn, env, left, m)
    else if !args.SPair? then Raise(K, ImproperList, left, m)
    else if fn.User? && fn.dangling == [] then Raise(K, TooManyArguments, left, m)
    else State(Push(Push(K, Call(fn, args.right, env)), Eval(args.left, env)), left, m)
  }

  function StepEval(G: Globals, K: Stack, e: SExpr, env: Locals, left: int, m: Meter): State {
    match e
    case SAtom(b) => Return(K, Value(Atom(b)), left, m)
    case Symbol(name) =>
      (match ResolveCall(G, env, name)
       case Holds(v) => Return(K, Value(v), left, m)
       case Calls(_) => Raise(K, OutsideModel, left, m)
       case Missing(err) => Raise(K, err, left, m))
    case SPair(op, args) =>
      if !op.Symbol? then Raise(K, NoOperator, left, m)
      else
        match ResolveCall(G, env, op.name)
        case Calls(fn) => State(Push(K, Call(fn, args, env)), left, m)
        case Holds(_) => Raise(K, NotAFunction, left, m)
        case Missing(err) => Raise(K, err, left, m)
  }

  function StepFrame(mem: Memory, G: Globals, cfg: Bll.Validator, K: Stack, f: Frame, left: int, m: Meter): State {
    match f
    case Fin(r) => Feedback(cfg, K, r, left, m)
    case Eval(e, env) => StepEval(G, K, e, env, left, m)
    case Call(fn, args, env) => StepCall(mem, cfg, K, fn, args, env, left, m)
    case Exception => State(Push(K, f), left, m)
  }

  /** A Python exception was raised: nothing more is done. */
  predicate Threw(s: State) {
    s.frames.Push? && s.frames.top.Exception?
  }

  predicate OnFin(K: Stack) {
    K.Push? && K.top.Fin?
  }

  /** The first two checks after each step: a latched budget or a spent step
      allowance aborts unless a finished value or error is on top. */
  function Spent(s: State): State {
    var t := if s.m.Latched() && !OnFin(s.frames) then Raise(s.frames, BudgetExhausted, s.left, s.m) else s;
    var u := t.(left := t.left - 1);
    if u.left <= 0 && !OnFin(u.frames) then Raise(u.frames, StepLimit, u.left, u.m) else u
  }

  /** All three checks: memory over its limit aborts whatever is on top. */
  function Settle(mem: Memory, s: State): State {
    var u := Spent(s);
    if Threw(s) then s
    else if mem(u.left) then Raise(u.frames, MemoryOverrun, u.left, u.m)
    else u
  }

  function Step(mem: Memory, G: Globals, cfg: Bll.Validator, s: State): State
    requires s.frames.Push?
  {
    Settle(mem, StepFrame(mem, G, cfg, s.frames.rest, s.frames.top, s.left, s.m))
  }

  predicate Finished(s: State) {
    s.frames.Push? && s.frames.rest.Empty? && s.frames.top.Fin?
  }

  /** The driver loop is left. */
  predicate Stopped(s: State) {
    Finished(s) || Threw(s)
  }

  /** symbolic_eval within n steps: the result or the exception, or None if it is not
      there yet. */
  function RunFor(mem: Memory, G: Globals, cfg: Bll.Validator, s: State, n: nat): Option<Result>
    decreases n
  {
    if Finished(s) then Some(Bll.Gate(s.frames.top.result))
    else if Threw(s) then Some(Failure(UncaughtException))
    else if n == 0 || s.frames.Empty? then None
    else RunFor(mem, G, cfg, Step(mem, G, cfg, s), n - 1)
  }

  const STEP_ALLOWANCE: int := 100000

  function Begin(e: SExpr): State {
    State(Push(Empty, Eval(e, map[])), STEP_ALLOWANCE, Fresh(DEFAULT_BUDGET))
  }
}
