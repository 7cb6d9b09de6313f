/** Partial application is invisible: an opcode fed through any number of partial
    calls comes to what the direct call comes to. */
module PartialApplication {
  import opened Integers
  import opened Costs
  import opened Elements
  import opened OpTable
  import opened Machine
  import opened BigStep
  import opened Replay
  import opened EnoughBudget
  import opened CompiledCode

  // ----- programs that come to a result, value or error -----

  /** The result in an outcome, unless the money ran out. */
  function Reached(oc: Outcome): Option<Result> {
    match oc
    case Ready(v, _, _) => Some(Value(v))
    case Raised(e, _) => Some(Failure(e))
    case Dead(e, _) => Some(Failure(e))
    case Out => None
  }

  /** With enough money the program comes to the result. */
  ghost predicate ComesTo(cfg: Validator, p: Element, env: Element, r: Result) {
    exists rem :: Reached(Evaluate(cfg, p, env, rem)) == Some(r)
  }

  ghost predicate CallComesTo(cfg: Validator, fn: Fn, args: Element, env: Element, r: Result) {
    exists rem :: Reached(Invoke(cfg, fn, args, env, rem)) == Some(r)
  }

  /** A cost, on which and above which the program comes to the result. */
  lemma EnoughTo(cfg: Validator, p: Element, env: Element, r: Result) returns (c: nat)
    requires ComesTo(cfg, p, env, r)
    ensures forall rem | rem >= c ::
              Reached(Evaluate(cfg, p, env, rem)) == Some(r) && Evaluate(cfg, p, env, rem).cost <= c
  {
    hide Evaluate;
    var enough :| Reached(Evaluate(cfg, p, env, enough)) == Some(r);
    c := Evaluate(cfg, p, env, enough).cost;
    forall rem | rem >= c
      ensures Reached(Evaluate(cfg, p, env, rem)) == Some(r) && Evaluate(cfg, p, env, rem).cost <= c
    {
      EvaluateReplays(cfg, p, env, enough, rem);
    }
  }

  lemma EnoughForCallTo(cfg: Validator, fn: Fn, args: Element, env: Element, r: Result) returns (c: nat)
    requires CallComesTo(cfg, fn, args, env, r)
    ensures forall rem | rem >= c :: Reached(Invoke(cfg, fn, args, env, rem)) == Some(r)
  {
    hide Invoke;
    var enough :| Reached(Invoke(cfg, fn, args, env, enough)) == Some(r);
    c := Invoke(cfg, fn, args, env, enough).cost;
    forall rem | rem >= c
      ensures Reached(Invoke(cfg, fn, args, env, rem)) == Some(r)
    {
      InvokeReplays(cfg, fn, args, env, enough, rem);
    }
  }

  lemma YieldsIs(cfg: Validator, p: Element, env: Element, v: Element)
    ensures Yields(cfg, p, env, v) <==> ComesTo(cfg, p, env, Value(v))
  {
    hide Evaluate;
    if Yields(cfg, p, env, v) {
      var rem :| Evaluate(cfg, p, env, rem).Ready? && Evaluate(cfg, p, env, rem).value == v;
      assert Reached(Evaluate(cfg, p, env, rem)) == Some(Value(v));
    }
    if ComesTo(cfg, p, env, Value(v)) {
      var rem :| Reached(Evaluate(cfg, p, env, rem)) == Some(Value(v));
      assert Evaluate(cfg, p, env, rem).Ready?;
    }
  }

  /** A program comes to one result at most. */
  lemma OneResult(cfg: Validator, p: Element, env: Element, r: Result, s: Result)
    requires ComesTo(cfg, p, env, r) && ComesTo(cfg, p, env, s)
    ensures r == s
  {
    hide Evaluate;
    var c := EnoughTo(cfg, p, env, r);
    var d := EnoughTo(cfg, p, env, s);
    assert Reached(Evaluate(cfg, p, env, c + d)) == Some(r) && Reached(Evaluate(cfg, p, env, c + d)) == Some(s);
  }

  lemma OperatorComesTo(cfg: Validator, op: Element, fn: Fn, args: Element, env: Element, r: Result)
    requires IsBll(op) && IsBll(args)
    requires ResolveOpcode(op).value == Some(fn)
    requires CallComesTo(cfg, fn, args, env, r)
    ensures ComesTo(cfg, Cons(op, args), env, r)
  {
    hide ResolveOpcode, Invoke;
    var c := EnoughForCallTo(cfg, fn, args, env, r);
    var scan := ResolveOpcode(op).cost;
    var rem := scan + c;
    assert IsBll(Cons(op, args));
    assert BigStep.Operate(cfg, op, args, env, rem) == After(scan, Invoke(cfg, fn, args, env, c));
    assert Resolve(cfg, Cons(op, args), env, rem) == BigStep.Operate(cfg, op, args, env, rem);
    EvaluateOf(cfg, Cons(op, args), env, rem);
    assert Reached(Evaluate(cfg, Cons(op, args), env, STEP + rem)) == Some(r);
  }

  /** An argument that fails fails the call. */
  lemma ArgumentFails(cfg: Validator, fn: Fn, arg: Element, rest: Element, env: Element, e: Error)
    requires !fn.Quote?
    requires ComesTo(cfg, arg, env, Failure(e))
    ensures CallComesTo(cfg, fn, Cons(arg, rest), env, Failure(e))
  {
    hide Evaluate, Invoke, Advance;
    var c := EnoughTo(cfg, arg, env, Failure(e));
    var rem := c + STEP;
    AdvanceOf(cfg, fn, arg, rest, env, rem);
    InvokeOf(cfg, fn, Cons(arg, rest), env, rem);
    assert Reached(Invoke(cfg, fn, Cons(arg, rest), env, STEP + rem)) == Some(Failure(e));
  }

  /** What accepting an argument costs, and comes to. */
  lemma Accepted(cfg: Validator, fn: Fn, v: Element, rest: Element, env: Element, r: Result) returns (c: nat)
    requires match Receive(cfg, fn, v, rest == Nil).value
      case Then(fn') => CallComesTo(cfg, fn', rest, env, r)
      case Stop(e) => r == Failure(e)
    ensures Reached(Accept(cfg, fn, v, rest, env, c)) == Some(r)
  {
    hide Invoke, Receive;
    var receipt := Receive(cfg, fn, v, rest == Nil);
    c := receipt.cost;
    match receipt.value {
      case Stop(e) =>
      case Then(fn') =>
        var more := EnoughForCallTo(cfg, fn', rest, env, r);
        AcceptOf(cfg, fn, v, fn', rest, env, more);
        c := c + more;
    }
  }

  /** A call that is given one argument more. */
  lemma ArgumentComesTo(cfg: Validator, fn: Fn, arg: Element, v: Element, rest: Element, env: Element, r: Result)
    requires !fn.Quote?
    requires Yields(cfg, arg, env, v)
    requires match Receive(cfg, fn, v, rest == Nil).value
      case Then(fn') => CallComesTo(cfg, fn', rest, env, r)
      case Stop(e) => r == Failure(e)
    ensures CallComesTo(cfg, fn, Cons(arg, rest), env, r)
  {
    hide Evaluate, Invoke, Receive, Accept, Consume, Advance;
    var c, fin := EnoughFor(cfg, arg, env, v);
    var more := Accepted(cfg, fn, v, rest, env, r);
    var h := c + Handover(fin);
    var rem := h + more;
    ConsumeOf(cfg, fn, v, c, fin, rest, env, more);
    AdvanceOf(cfg, fn, arg, rest, env, rem);
    InvokeOf(cfg, fn, Cons(arg, rest), env, rem);
    assert Reached(Invoke(cfg, fn, Cons(arg, rest), env, STEP + rem)) == Some(r);
  }

  /** An opcode finishes, one way or the other. */
  lemma FinishComesTo(cfg: Validator, b: Elements.Bound, env: Element)
    ensures CallComesTo(cfg, Op(b), Nil, env, cfg.finish(b).value)
  {
    var c := cfg.finish(b).cost;
    var oc := Outright(cfg.finish(b), c);
    assert Complete(cfg, Op(b), env, c) == oc;
    assert Advance(cfg, Op(b), Nil, env, c) == oc;
    InvokeOf(cfg, Op(b), Nil, env, c);
    assert Reached(Invoke(cfg, Op(b), Nil, env, STEP + c)) == Some(cfg.finish(b).value);
  }

  // ----- opcodes over several arguments -----

  /** Feeding values in order, until one is refused. */
  function FeedAll(cfg: Validator, b: Elements.Bound, vs: seq<Element>): Fed
    decreases |vs|
  {
    if vs == [] then Next(b)
    else
      var fed := cfg.feed(b, vs[0]).value;
      if fed.Fault? then fed else FeedAll(cfg, fed.bound, vs[1..])
  }

  lemma {:induction false} FeedInParts(cfg: Validator, b: Elements.Bound, xs: seq<Element>, ys: seq<Element>)
    ensures FeedAll(cfg, b, xs + ys) ==
            var fed := FeedAll(cfg, b, xs);
            if fed.Fault? then fed else FeedAll(cfg, fed.bound, ys)
    decreases |xs|
  {
    if xs == [] {
      assert xs + ys == ys;
    } else {
      assert (xs + ys)[1..] == xs[1..] + ys;
      var fed := cfg.feed(b, xs[0]).value;
      if fed.Next? {
        FeedInParts(cfg, fed.bound, xs[1..], ys);
      }
    }
  }

  /** The result of an opcode over argument values. */
  function Applied(cfg: Validator, b: Elements.Bound, vs: seq<Element>): Result {
    Finished(cfg, FeedAll(cfg, b, vs))
  }

  function Finished(cfg: Validator, fed: Fed): Result {
    match fed
    case Next(b) => cfg.finish(b).value
    case Fault(e) => Failure(e)
  }

  /** The result of binding arguments. */
  function Rebound(fed: Fed): Result {
    match fed
    case Next(b) => Value(Func(b))
    case Fault(e) => Failure(e)
  }

  /** Feeding the values that came before an argument failed, if one did: whichever
      error is met first. */
  function Given(cfg: Validator, b: Elements.Bound, vs: seq<Element>, fault: Option<Error>): Fed {
    var fed := FeedAll(cfg, b, vs);
    if fed.Next? && fault.Some? then Fault(fault.value) else fed
  }

  function ListOf(es: seq<Element>): (r: Element)
    ensures r == Nil <==> es == []
  {
    if es == [] then Nil else Cons(es[0], ListOf(es[1..]))
  }

  /** Argument expressions come to values, all of them or up to the first that fails. */
  ghost predicate Supplies(cfg: Validator, es: seq<Element>, env: Element, vs: seq<Element>, fault: Option<Error>) {
    && (forall i | 0 <= i < |es| :: IsBll(es[i]))
    && |vs| <= |es|
    && (forall i | 0 <= i < |vs| :: Yields(cfg, es[i], env, vs[i]))
    && match fault
       case None => |vs| == |es|
       case Some(e) => |vs| < |es| && ComesTo(cfg, es[|vs|], env, Failure(e))
  }

  lemma {:induction false} ListIsBll(es: seq<Element>)
    requires forall i | 0 <= i < |es| :: IsBll(es[i])
    ensures IsBll(ListOf(es))
  {
    if es != [] {
      ListIsBll(es[1..]);
    }
  }

  lemma {:induction false} DirectCall(cfg: Validator, b: Elements.Bound, es: seq<Element>, vs: seq<Element>,
                                      fault: Option<Error>, env: Element)
    requires Supplies(cfg, es, env, vs, fault)
    ensures CallComesTo(cfg, Op(b), ListOf(es), env, Finished(cfg, Given(cfg, b, vs, fault)))
    decreases |es|
  {
    hide Yields, ComesTo, CallComesTo;
    if es == [] {
      FinishComesTo(cfg, b, env);
    } else if vs == [] {
      ArgumentFails(cfg, Op(b), es[0], ListOf(es[1..]), env, fault.value);
    } else {
      var fed := cfg.feed(b, vs[0]).value;
      if fed.Next? {
        DirectCall(cfg, fed.bound, es[1..], vs[1..], fault, env);
      }
      ArgumentComesTo(cfg, Op(b), es[0], vs[0], ListOf(es[1..]), env, Finished(cfg, Given(cfg, b, vs, fault)));
    }
  }

  lemma {:induction false} RebindCall(cfg: Validator, b: Elements.Bound, es: seq<Element>, vs: seq<Element>,
                                      fault: Option<Error>, env: Element)
    requires Supplies(cfg, es, env, vs, fault)
    ensures CallComesTo(cfg, Partial(Some(b)), ListOf(es), env, Rebound(Given(cfg, b, vs, fault)))
    decreases |es|
  {
    hide Yields, ComesTo, CallComesTo;
    if es == [] {
      BoundComesTo(cfg, b, env);
    } else if vs == [] {
      ArgumentFails(cfg, Partial(Some(b)), es[0], ListOf(es[1..]), env, fault.value);
    } else {
      var fed := cfg.feed(b, vs[0]).value;
      if fed.Next? {
        RebindCall(cfg, fed.bound, es[1..], vs[1..], fault, env);
      }
      ArgumentComesTo(cfg, Partial(Some(b)), es[0], vs[0], ListOf(es[1..]), env, Rebound(Given(cfg, b, vs, fault)));
    }
  }

  lemma BoundComesTo(cfg: Validator, b: Elements.Bound, env: Element)
    ensures CallComesTo(cfg, Partial(Some(b)), Nil, env, Value(Func(b)))
  {
    assert Advance(cfg, Partial(Some(b)), Nil, env, 0) == Ready(Func(b), 0, true);
    InvokeOf(cfg, Partial(Some(b)), Nil, env, 0);
    assert Reached(Invoke(cfg, Partial(Some(b)), Nil, env, STEP + 0)) == Some(Value(Func(b)));
  }

  /** (partial ARG . REST). */
  lemma PartialComesTo(cfg: Validator, arg: Element, rest: Element, env: Element, r: Result)
    requires IsBll(arg) && IsBll(rest)
    requires CallComesTo(cfg, Partial(None), Cons(arg, rest), env, r)
    ensures ComesTo(cfg, Cons(Num(3), Cons(arg, rest)), env, r)
  {
    hide CallComesTo, ComesTo;
    OpcodeNum(3);
    assert IsBll(Cons(arg, rest));
    OperatorComesTo(cfg, Num(3), Partial(None), Cons(arg, rest), env, r);
  }

  /** A call of partial takes a bound function: with no more arguments it is
      finished, otherwise the rest extends it. */
  lemma BoundArgument(cfg: Validator, p: Element, b: Elements.Bound, es: seq<Element>, vs: seq<Element>,
                      fault: Option<Error>, env: Element)
    requires Yields(cfg, p, env, Func(b))
    requires Supplies(cfg, es, env, vs, fault)
    ensures CallComesTo(cfg, Partial(None), Cons(p, ListOf(es)), env,
                        if es == [] then cfg.finish(b).value else Rebound(Given(cfg, b, vs, fault)))
  {
    hide Yields, CallComesTo, Rebound, Given;
    if es == [] {
      FinishComesTo(cfg, b, env);
      ArgumentComesTo(cfg, Partial(None), p, Func(b), Nil, env, cfg.finish(b).value);
    } else {
      RebindCall(cfg, b, es, vs, fault, env);
      ArgumentComesTo(cfg, Partial(None), p, Func(b), ListOf(es), env, Rebound(Given(cfg, b, vs, fault)));
    }
  }

  /** (partial P . ARGS) for a P that binds arguments: the binding is extended, or
      finished when there are no more arguments. */
  lemma ExtendComesTo(cfg: Validator, p: Element, b: Elements.Bound, bound: seq<Element>, es: seq<Element>,
                      vs: seq<Element>, fault: Option<Error>, env: Element)
    requires IsBll(p) && ComesTo(cfg, p, env, Rebound(FeedAll(cfg, b, bound)))
    requires Supplies(cfg, es, env, vs, fault)
    ensures ComesTo(cfg, Cons(Num(3), Cons(p, ListOf(es))), env,
                    if es == [] then Applied(cfg, b, bound) else Rebound(Given(cfg, b, bound + vs, fault)))
  {
    hide Yields, ComesTo, CallComesTo;
    FeedInParts(cfg, b, bound, vs);
    ListIsBll(es);
    var r := if es == [] then Applied(cfg, b, bound) else Rebound(Given(cfg, b, bound + vs, fault));
    match FeedAll(cfg, b, bound) {
      case Fault(e) => ArgumentFails(cfg, Partial(None), p, ListOf(es), env, e);
      case Next(b') =>
        YieldsIs(cfg, p, env, Func(b'));
        BoundArgument(cfg, p, b', es, vs, fault, env);
    }
    PartialComesTo(cfg, p, ListOf(es), env, r);
  }

  /** (partial P . ARGS) for a P that fails. */
  lemma PartialFails(cfg: Validator, p: Element, es: seq<Element>, env: Element, e: Error)
    requires IsBll(p) && ComesTo(cfg, p, env, Failure(e))
    requires forall i | 0 <= i < |es| :: IsBll(es[i])
    ensures ComesTo(cfg, Cons(Num(3), Cons(p, ListOf(es))), env, Failure(e))
  {
    hide ComesTo, CallComesTo;
    ListIsBll(es);
    ArgumentFails(cfg, Partial(None), p, ListOf(es), env, e);
    PartialComesTo(cfg, p, ListOf(es), env, Failure(e));
  }

  // ----- chains of partial calls -----

  /** (partial ... (partial (partial (q . NUM) FIRST...) GROUP...) GROUP...). */
  function Chained(num: nat, first: seq<Element>, groups: seq<seq<Element>>): Element {
    Cons(Num(3),
         if groups == [] then Cons(Cons(Nil, Num(num)), ListOf(first))
         else Cons(Chained(num, first, groups[..|groups| - 1]), ListOf(groups[|groups| - 1])))
  }

  function Flat(groups: seq<seq<Element>>): seq<Element> {
    if groups == [] then [] else Flat(groups[..|groups| - 1]) + groups[|groups| - 1]
  }

  lemma BindComesTo(cfg: Validator, num: nat, b: Elements.Bound, es: seq<Element>, vs: seq<Element>,
                    fault: Option<Error>, env: Element)
    requires TableOp(num) == Some(b) && Supplies(cfg, es, env, vs, fault)
    ensures IsBll(Chained(num, es, []))
    ensures ComesTo(cfg, Chained(num, es, []), env, Rebound(Given(cfg, b, vs, fault)))
  {
    hide Yields, ComesTo, CallComesTo, TableOp;
    IntRoundTrip(num);
    ListIsBll(es);
    var q := Cons(Nil, Num(num));
    QuotedBll(Num(num));
    assert IsBll(Cons(q, ListOf(es)));
    QuoteYields(cfg, Num(num), env);
    RebindCall(cfg, b, es, vs, fault, env);
    ArgumentComesTo(cfg, Partial(None), q, Num(num), ListOf(es), env, Rebound(Given(cfg, b, vs, fault)));
    PartialComesTo(cfg, q, ListOf(es), env, Rebound(Given(cfg, b, vs, fault)));
  }

  /** What two runs of argument expressions supply: a failure in the first is met
      before the second. */
  lemma SuppliesSplits(cfg: Validator, xs: seq<Element>, ys: seq<Element>, env: Element, vs: seq<Element>,
                       fault: Option<Error>)
    requires Supplies(cfg, xs + ys, env, vs, fault)
    ensures forall i | 0 <= i < |ys| :: IsBll(ys[i])
    ensures |vs| < |xs| ==> fault.Some? && Supplies(cfg, xs, env, vs, fault)
    ensures |vs| >= |xs| ==> Supplies(cfg, xs, env, vs[..|xs|], None) && Supplies(cfg, ys, env, vs[|xs|..], fault)
  {
    hide Yields, IsBll, ComesTo;
    assert forall i | 0 <= i < |xs| :: xs[i] == (xs + ys)[i];
    assert forall i | 0 <= i < |ys| :: ys[i] == (xs + ys)[|xs| + i];
  }

  /** A chain of partial calls binds all the arguments of its groups, or comes to the
      first error. */
  lemma {:induction false} ChainComesTo(cfg: Validator, num: nat, b: Elements.Bound, first: seq<Element>,
                                        groups: seq<seq<Element>>, vs: seq<Element>, fault: Option<Error>, env: Element)
    requires TableOp(num) == Some(b) && Supplies(cfg, first + Flat(groups), env, vs, fault)
    requires forall g | 0 <= g < |groups| :: groups[g] != []
    ensures IsBll(Chained(num, first, groups))
    ensures ComesTo(cfg, Chained(num, first, groups), env, Rebound(Given(cfg, b, vs, fault)))
    decreases |groups|
  {
    hide TableOp, ComesTo, Supplies, Rebound, IsBll;
    if groups == [] {
      assert first + Flat(groups) == first;
      BindComesTo(cfg, num, b, first, vs, fault, env);
    } else {
      var init, last := groups[..|groups| - 1], groups[|groups| - 1];
      var es := first + Flat(init);
      assert first + Flat(groups) == es + last;
      SuppliesSplits(cfg, es, last, env, vs, fault);
      var p := Chained(num, first, init);
      if |vs| < |es| {
        ChainComesTo(cfg, num, b, first, init, vs, fault, env);
        ReboundFails(cfg, b, vs, fault.value);
        PartialFails(cfg, p, last, env, Rebound(Given(cfg, b, vs, fault)).error);
      } else {
        ChainComesTo(cfg, num, b, first, init, vs[..|es|], None, env);
        ExtendComesTo(cfg, p, b, vs[..|es|], last, vs[|es|..], fault, env);
        assert vs[..|es|] + vs[|es|..] == vs;
      }
      ChainIsBll(p, last);
    }
  }

  lemma ReboundFails(cfg: Validator, b: Elements.Bound, vs: seq<Element>, e: Error)
    ensures var fed := Given(cfg, b, vs, Some(e));
            fed.Fault? && Rebound(fed) == Failure(fed.error) == Finished(cfg, fed)
  {
  }

  lemma ChainIsBll(p: Element, es: seq<Element>)
    requires IsBll(p) && forall i | 0 <= i < |es| :: IsBll(es[i])
    ensures IsBll(Cons(Num(3), Cons(p, ListOf(es))))
  {
    ListIsBll(es);
    assert IsBll(Cons(p, ListOf(es)));
  }

  /** (OP . ARGS). */
  lemma DirectComesTo(cfg: Validator, num: nat, b: Elements.Bound, es: seq<Element>, vs: seq<Element>,
                      fault: Option<Error>, env: Element)
    requires 4 <= num && TableOp(num) == Some(b) && Supplies(cfg, es, env, vs, fault)
    ensures ComesTo(cfg, Cons(Num(num), ListOf(es)), env, Finished(cfg, Given(cfg, b, vs, fault)))
  {
    hide ComesTo, CallComesTo, Yields, Finished, TableOp;
    DirectCall(cfg, b, es, vs, fault, env);
    ListIsBll(es);
    OpcodeNum(num);
    OperatorComesTo(cfg, Num(num), Op(b), ListOf(es), env, Finished(cfg, Given(cfg, b, vs, fault)));
  }

  /** Partial application is invisible: however the arguments are split over
      partial calls, finishing the binding comes to exactly the value or error
      that the direct call comes to, also where an argument itself fails. */
  lemma PartialIsInvisible(cfg: Validator, num: nat, b: Elements.Bound, first: seq<Element>,
                           groups: seq<seq<Element>>, vs: seq<Element>, fault: Option<Error>, env: Element)
    requires 4 <= num && TableOp(num) == Some(b)
    requires Supplies(cfg, first + Flat(groups), env, vs, fault)
    requires forall g | 0 <= g < |groups| :: groups[g] != []
    ensures var r := Finished(cfg, Given(cfg, b, vs, fault));
      && ComesTo(cfg, Cons(Num(num), ListOf(first + Flat(groups))), env, r)
      && ComesTo(cfg, Cons(Num(3), Cons(Chained(num, first, groups), Nil)), env, r)
  {
    hide ComesTo, Supplies, Rebound, Finished, TableOp, Chained, Flat, IsBll;
    var chain := Chained(num, first, groups);
    ChainComesTo(cfg, num, b, first, groups, vs, fault, env);
    match fault {
      case None =>
        NoneSupplied(cfg, env);
        ExtendComesTo(cfg, chain, b, vs, [], [], None, env);
      case Some(e) =>
        ReboundFails(cfg, b, vs, e);
        PartialFails(cfg, chain, [], env, Given(cfg, b, vs, fault).error);
    }
    DirectComesTo(cfg, num, b, first + Flat(groups), vs, fault, env);
  }

  lemma NoneSupplied(cfg: Validator, env: Element)
    ensures Supplies(cfg, [], env, [], None)
  {
  }

  /** A bound function held in the environment may be extended and finished any
      number of times: each use sees the arguments bound before and its own. */
  lemma BindingIsReusable(cfg: Validator, pos: int, b: Elements.Bound, es: seq<Element>, vs: seq<Element>, env: Element)
    requires pos >= 1 && Walk(env, pos).value == Value(Func(b))
    requires es != [] && Supplies(cfg, es, env, vs, None)
    ensures ComesTo(cfg, Cons(Num(3), Cons(Cons(Num(3), Cons(Num(pos), ListOf(es))), Nil)), env, Applied(cfg, b, vs))
  {
    hide Yields, ComesTo, Applied, FeedAll;
    ReferenceYields(cfg, pos, env, Func(b));
    YieldsIs(cfg, Num(pos), env, Func(b));
    assert Rebound(FeedAll(cfg, b, [])) == Value(Func(b)) by {
      NoArguments(cfg, b);
    }
    ExtendComesTo(cfg, Num(pos), b, [], es, vs, None, env);
    assert [] + vs == vs;
    ListIsBll(es);
    assert IsBll(Cons(Num(pos), ListOf(es)));
    ExtendComesTo(cfg, Cons(Num(3), Cons(Num(pos), ListOf(es))), b, vs, [], [], None, env);
  }

  lemma NoArguments(cfg: Validator, b: Elements.Bound)
    ensures FeedAll(cfg, b, []) == Next(b)
  {
  }
}
