/** What program text means and costs, form by form: references and other atoms,
    applications, softforks, unknown operators and heads that are no operators. */
module ProgramMeaning {
  import opened Integers
  import opened Costs
  import opened Elements
  import opened OpTable
  import opened Machine
  import opened BigStep
  import opened Replay
  import opened EnoughBudget
  import opened PartialApplication
  import opened CompiledCode
  import opened StandardRules
  import O = Opcodes
  import M = OpcodeMeaning

  // ----- argument expressions with their prices -----

  /** The value of an expression, its own cost, and whether a fin frame holds it. */
  datatype Given = Given(value: Element, cost: nat, fin: bool)

  /** On its cost and on more, the expression comes to the value. */
  ghost predicate Gives(cfg: Validator, e: Element, env: Element, g: Given) {
    IsBll(e) && forall r | r >= g.cost :: Evaluate(cfg, e, env, r) == Ready(g.value, g.cost, g.fin)
  }

  ghost predicate Supplied(cfg: Validator, es: seq<Element>, env: Element, gs: seq<Given>) {
    |es| == |gs| && forall i | 0 <= i < |es| :: Gives(cfg, es[i], env, gs[i])
  }

  function ValuesOf(gs: seq<Given>): (vs: seq<Element>)
    ensures |vs| == |gs| && forall i | 0 <= i < |gs| :: vs[i] == gs[i].value
  {
    seq(|gs|, i requires 0 <= i < |gs| => gs[i].value)
  }

  /** Until a call has received its arguments: a step for the call, the argument, and
      its way to the call. */
  function Delivery(gs: seq<Given>): nat {
    if gs == [] then 0 else STEP + gs[0].cost + Handover(gs[0].fin) + Delivery(gs[1..])
  }

  /** Expressions that come to values have their prices. */
  lemma {:induction false} Prices(cfg: Validator, es: seq<Element>, env: Element, vs: seq<Element>)
    returns (gs: seq<Given>)
    requires Supplies(cfg, es, env, vs, None)
    ensures Supplied(cfg, es, env, gs) && ValuesOf(gs) == vs
    decreases |es|
  {
    SuppliesOne(cfg, es, env, vs);
    hide Supplied, Supplies;
    if es == [] {
      gs := [];
      NoPrices(cfg, env);
    } else {
      var g := PriceOf(cfg, es[0], env, vs[0]);
      var more := Prices(cfg, es[1..], env, vs[1..]);
      gs := [g] + more;
      PricesMore(cfg, es, env, g, more);
      ValuesMore(g, more, vs);
    }
  }

  lemma ValuesMore(g: Given, more: seq<Given>, vs: seq<Element>)
    requires vs != [] && g.value == vs[0] && ValuesOf(more) == vs[1..]
    ensures ValuesOf([g] + more) == vs
  {
    var gs := [g] + more;
    forall i | 0 <= i < |vs|
      ensures ValuesOf(gs)[i] == vs[i]
    {
      if i > 0 {
        assert gs[i] == more[i - 1] && ValuesOf(more)[i - 1] == vs[1..][i - 1];
      }
    }
  }

  lemma SuppliesOne(cfg: Validator, es: seq<Element>, env: Element, vs: seq<Element>)
    requires Supplies(cfg, es, env, vs, None)
    ensures |es| == |vs|
    ensures es != [] ==> IsBll(es[0]) && Yields(cfg, es[0], env, vs[0]) && Supplies(cfg, es[1..], env, vs[1..], None)
  {
    hide Yields, IsBll;
  }

  lemma NoPrices(cfg: Validator, env: Element)
    ensures Supplied(cfg, [], env, [])
  {
  }

  lemma PricesMore(cfg: Validator, es: seq<Element>, env: Element, g: Given, more: seq<Given>)
    requires es != [] && Gives(cfg, es[0], env, g) && Supplied(cfg, es[1..], env, more)
    ensures Supplied(cfg, es, env, [g] + more)
  {
    hide Gives;
    var gs, rest := [g] + more, es[1..];
    forall i | 0 <= i < |es|
      ensures Gives(cfg, es[i], env, gs[i])
    {
      if i > 0 {
        assert Gives(cfg, rest[i - 1], env, more[i - 1]);
      }
    }
  }

  lemma PriceOf(cfg: Validator, e: Element, env: Element, v: Element) returns (g: Given)
    requires IsBll(e) && Yields(cfg, e, env, v)
    ensures Gives(cfg, e, env, g) && g.value == v
  {
    hide Yields, Evaluate;
    var c, fin := EnoughFor(cfg, e, env, v);
    g := Given(v, c, fin);
  }

  lemma AfterAfter(a: nat, b: nat, oc: Outcome)
    ensures After(a, After(b, oc)) == After(a + b, oc)
  {
  }

  /** A call receives one argument and goes on as another call. */
  lemma Receives(cfg: Validator, fn: Fn, fn': Fn, e: Element, g: Given, rest: Element, env: Element, rem: nat)
    requires !fn.Quote? && Gives(cfg, e, env, g)
    requires Receive(cfg, fn, g.value, rest == Nil) == Metered(0, Then(fn'))
    ensures var paid := STEP + g.cost + Handover(g.fin);
      Invoke(cfg, fn, Cons(e, rest), env, paid + rem) == After(paid, Invoke(cfg, fn', rest, env, rem))
  {
    hide Evaluate, Invoke, Receive, Accept, Consume, Advance, After;
    var h := g.cost + Handover(g.fin);
    InvokeOf(cfg, fn, Cons(e, rest), env, h + rem);
    AdvanceOf(cfg, fn, e, rest, env, h + rem);
    ConsumeOf(cfg, fn, g.value, g.cost, g.fin, rest, env, rem);
    AcceptOf(cfg, fn, g.value, fn', rest, env, rem);
    AfterNothing(Invoke(cfg, fn', rest, env, rem));
    AfterAfter(STEP, h, Invoke(cfg, fn', rest, env, rem));
  }

  lemma AfterNothing(oc: Outcome)
    ensures After(0, oc) == oc
  {
  }

  lemma OneSupplied(cfg: Validator, es: seq<Element>, env: Element, gs: seq<Given>)
    requires es != [] && Supplied(cfg, es, env, gs)
    ensures |es| == |gs| && Gives(cfg, es[0], env, gs[0]) && Supplied(cfg, es[1..], env, gs[1..])
  {
    hide Gives;
  }

  /** A pair headed by a small number is a call of that operator. */
  lemma CallOf(cfg: Validator, num: nat, fn: Fn, es: seq<Element>, env: Element, rem: nat)
    requires OpcodeOf(num) == Some(fn) && num < 128
    requires forall i | 0 <= i < |es| :: IsBll(es[i])
    ensures Evaluate(cfg, Cons(Num(num), ListOf(es)), env, STEP + rem) ==
            After(STEP, Invoke(cfg, fn, ListOf(es), env, rem))
  {
    hide OpcodeOf, Invoke, IntToBytes;
    ListIsBll(es);
    IntRoundTrip(num);
    SmallNumber(num);
    var op := Num(num);
    EvaluateOf(cfg, Cons(op, ListOf(es)), env, rem);
    AfterNothing(Invoke(cfg, fn, ListOf(es), env, rem));
    assert IsBll(Cons(op, ListOf(es)));
    assert ResolveOpcode(op) == Metered(0, Some(fn));
    assert Operate(cfg, op, ListOf(es), env, rem) == Invoke(cfg, fn, ListOf(es), env, rem);
  }

  lemma SmallNumber(num: nat)
    requires num < 128
    ensures |IntToBytes(num)| <= 1
  {
    assert |Digits(num)| <= 1;
  }

  // ----- softforks -----

  /** What a softfork keeps of its values: four, and a nil for all others. */
  function Kept(vs: seq<Element>): seq<Element> {
    if |vs| <= 4 then vs else vs[..4] + [Nil]
  }

  lemma {:induction false} Collects(cfg: Validator, done: seq<Element>, es: seq<Element>, env: Element,
                                    gs: seq<Given>, rem: nat)
    requires Supplied(cfg, es, env, gs)
    ensures Invoke(cfg, Softfork(Kept(done)), ListOf(es), env, Delivery(gs) + rem) ==
            After(Delivery(gs), Invoke(cfg, Softfork(Kept(done + ValuesOf(gs))), Nil, env, rem))
    decreases |es|
  {
    hide Supplied, Invoke, After, Receive, Kept;
    if es == [] {
      SameLength(cfg, es, env, gs);
      assert done + ValuesOf(gs) == done;
      AfterNothing(Invoke(cfg, Softfork(Kept(done)), Nil, env, rem));
    } else {
      SameLength(cfg, es, env, gs);
      OneSupplied(cfg, es, env, gs);
      var g, more := gs[0], gs[1..];
      var paid := STEP + g.cost + Handover(g.fin);
      KeepsOne(cfg, done, g.value, ListOf(es[1..]) == Nil);
      Receives(cfg, Softfork(Kept(done)), Softfork(Kept(done + [g.value])), es[0], g, ListOf(es[1..]), env,
        Delivery(more) + rem);
      Collects(cfg, done + [g.value], es[1..], env, more, rem);
      assert done + [g.value] + ValuesOf(more) == done + ValuesOf(gs);
      AfterAfter(paid, Delivery(more), Invoke(cfg, Softfork(Kept(done + ValuesOf(gs))), Nil, env, rem));
    }
  }

  lemma KeepsOne(cfg: Validator, done: seq<Element>, v: Element, last: bool)
    ensures Receive(cfg, Softfork(Kept(done)), v, last) == Metered(0, Then(Softfork(Kept(done + [v]))))
  {
    assert |done| >= 4 ==> (done + [v])[..4] == done[..4];
  }

  lemma SameLength(cfg: Validator, es: seq<Element>, env: Element, gs: seq<Given>)
    requires Supplied(cfg, es, env, gs)
    ensures |es| == |gs| && forall i | 0 <= i < |es| :: IsBll(es[i])
  {
    hide Evaluate;
    assert forall i | 0 <= i < |es| :: Gives(cfg, es[i], env, gs[i]);
  }

  /** The first value is a positive machine integer. */
  predicate Declares(vs: seq<Element>) {
    vs != [] && vs[0].Atom? && 1 <= BytesToInt(vs[0].bytes) <= SOFTFORK_COST_MAX
  }

  /** There are four values, and the second is an atom that reads as 0. */
  predicate NamesExtension(vs: seq<Element>) {
    |vs| == 4 && vs[1].Atom? && BytesToInt(vs[1].bytes) == 0
  }

  /** The third value, run as a program in the fourth, spends what the first declares,
      the guard's own charge and the way of its value to the guard included. */
  predicate SpendsDeclared(cfg: Validator, vs: seq<Element>)
    requires Declares(vs) && |vs| == 4
  {
    var allowed := BytesToInt(vs[0].bytes) - GUARD;
    allowed >= 0 &&
    var oc := Evaluate(cfg, vs[2], vs[3], allowed);
    oc.Ready? && oc.cost + Handover(oc.fin) == allowed
  }

  /** The error of a guard that is not left in order: the program's own where it
      could still be thrown, otherwise the mismatch. */
  function GuardError(cfg: Validator, vs: seq<Element>): Error
    requires Declares(vs) && |vs| == 4
  {
    var allowed := BytesToInt(vs[0].bytes) - GUARD;
    if allowed < 0 then SoftforkMismatch
    else
      var oc := Evaluate(cfg, vs[2], vs[3], allowed);
      if oc.Dead? || (oc.Raised? && oc.cost + STEP <= allowed) then oc.error else SoftforkMismatch
  }

  /** What a softfork costs besides its arguments: the scans of atoms read as numbers,
      and the declared cost in one lump. */
  function Lump(vs: seq<Element>): nat {
    if vs == [] || !vs[0].Atom? then 0
    else
      AtomScan(|vs[0].bytes|) +
      (if Declares(vs) then
         BytesToInt(vs[0].bytes) + (if |vs| == 4 && vs[1].Atom? then AtomScan(|vs[1].bytes|) else 0)
       else 0)
  }

  /** What a softfork comes to, on the money Lump says. */
  predicate ForkComesTo(cfg: Validator, vs: seq<Element>, price: nat, oc: Outcome) {
    if !Declares(vs) then oc == Raised(SoftforkCost, price)
    else if !cfg.aware || !NamesExtension(vs) || SpendsDeclared(cfg, vs) then oc == Ready(Nil, price, true)
    else (oc.Raised? || oc.Dead?) && oc.error == GuardError(cfg, vs) && oc.cost == price
  }

  lemma ForkFinishes(cfg: Validator, vs: seq<Element>, env: Element, rem: nat)
    requires rem >= Lump(vs)
    ensures ForkComesTo(cfg, vs, STEP + Lump(vs), Invoke(cfg, Softfork(Kept(vs)), Nil, env, STEP + rem))
  {
    hide Evaluate, BytesToInt, Advance;
    InvokeOf(cfg, Softfork(Kept(vs)), Nil, env, rem);
    AdvanceDone(cfg, Softfork(Kept(vs)), env, rem);
  }

  /** With the money for it, a softfork comes to what its values say. */
  lemma SoftforkPaid(cfg: Validator, es: seq<Element>, env: Element, gs: seq<Given>, more: nat)
    requires Supplied(cfg, es, env, gs)
    ensures var vs := ValuesOf(gs);
      var price := STEP + (Delivery(gs) + (STEP + Lump(vs)));
      ForkComesTo(cfg, vs, price, Evaluate(cfg, Cons(Num(2), ListOf(es)), env, price + more))
  {
    hide Supplied, Evaluate, Invoke, After, Lump, ForkComesTo, Kept, Delivery;
    var vs := ValuesOf(gs);
    var last := STEP + (Lump(vs) + more);
    var oc := Invoke(cfg, Softfork(Kept(vs)), Nil, env, last);
    SameLength(cfg, es, env, gs);
    assert Kept([]) == [] by {
      KeptNone();
    }
    CallOf(cfg, 2, Softfork([]), es, env, Delivery(gs) + last);
    Collects(cfg, [], es, env, gs, last);
    assert [] + vs == vs;
    ForkFinishes(cfg, vs, env, Lump(vs) + more);
    ForkLater(cfg, vs, Delivery(gs), STEP + Lump(vs), oc);
    ForkLater(cfg, vs, STEP, Delivery(gs) + (STEP + Lump(vs)), After(Delivery(gs), oc));
  }

  lemma KeptNone()
    ensures Kept([]) == []
  {
  }

  /** A softfork over argument expressions, in the order they stand in the program:
      what it comes to and what it costs. */
  lemma SoftforkMeaning(cfg: Validator, es: seq<Element>, env: Element, gs: seq<Given>, rem: nat)
    requires Supplied(cfg, es, env, gs)
    ensures var vs, p := ValuesOf(gs), Cons(Num(2), ListOf(es));
      var price := 2 * STEP + Delivery(gs) + Lump(vs);
      if rem < price then Evaluate(cfg, p, env, rem) == Out
      else ForkComesTo(cfg, vs, price, Evaluate(cfg, p, env, rem))
  {
    hide Supplied, Evaluate, Lump, ForkComesTo, Delivery, ListOf, ValuesOf;
    var vs, p := ValuesOf(gs), Cons(Num(2), ListOf(es));
    var price := 2 * STEP + Delivery(gs) + Lump(vs);
    SoftforkPaid(cfg, es, env, gs, if rem < price then 0 else rem - price);
    if rem < price {
      EvaluateReplays(cfg, p, env, price, rem);
      ForkCosts(cfg, vs, price, Evaluate(cfg, p, env, price));
    }
  }

  lemma ForkLater(cfg: Validator, vs: seq<Element>, paid: nat, price: nat, oc: Outcome)
    requires ForkComesTo(cfg, vs, price, oc)
    ensures ForkComesTo(cfg, vs, paid + price, After(paid, oc))
  {
    hide Evaluate, BytesToInt;
  }

  lemma ForkCosts(cfg: Validator, vs: seq<Element>, price: nat, oc: Outcome)
    requires ForkComesTo(cfg, vs, price, oc)
    ensures !oc.Out? && oc.cost == price
  {
    hide Evaluate, BytesToInt;
  }

  /** Given enough money: nil exactly in these cases, and otherwise which error. */
  lemma SoftforkComesTo(cfg: Validator, es: seq<Element>, env: Element, vs: seq<Element>)
    requires Supplies(cfg, es, env, vs, None)
    ensures var p := Cons(Num(2), ListOf(es));
      ComesTo(cfg, p, env,
              if !Declares(vs) then Failure(SoftforkCost)
              else if !cfg.aware || !NamesExtension(vs) || SpendsDeclared(cfg, vs) then Value(Nil)
              else Failure(GuardError(cfg, vs)))
  {
    hide Supplied, Evaluate, Lump, BytesToInt, Supplies, SpendsDeclared, GuardError;
    var gs := Prices(cfg, es, env, vs);
    var p, price := Cons(Num(2), ListOf(es)), 2 * STEP + Delivery(gs) + Lump(vs);
    SoftforkMeaning(cfg, es, env, gs, price);
    assert Reached(Evaluate(cfg, p, env, price)).Some?;
  }

  /** An argument that fails fails the softfork. */
  lemma {:induction false} SoftforkArgumentFails(cfg: Validator, es: seq<Element>, env: Element, vs: seq<Element>,
                                                 e: Error)
    requires Supplies(cfg, es, env, vs, Some(e))
    ensures ComesTo(cfg, Cons(Num(2), ListOf(es)), env, Failure(e))
  {
    hide ComesTo, CallComesTo;
    CollectingFails(cfg, [], es, env, vs, e);
    ListIsBll(es);
    OpcodeNum(2);
    OperatorComesTo(cfg, Num(2), Softfork([]), ListOf(es), env, Failure(e));
  }

  lemma {:induction false} CollectingFails(cfg: Validator, done: seq<Element>, es: seq<Element>, env: Element,
                                           vs: seq<Element>, e: Error)
    requires Supplies(cfg, es, env, vs, Some(e))
    ensures CallComesTo(cfg, Softfork(done), ListOf(es), env, Failure(e))
    decreases |es|
  {
    hide Yields, ComesTo, CallComesTo;
    if vs == [] {
      ArgumentFails(cfg, Softfork(done), es[0], ListOf(es[1..]), env, e);
    } else {
      var next := Receive(cfg, Softfork(done), vs[0], ListOf(es[1..]) == Nil).value.fn;
      CollectingFails(cfg, next.values, es[1..], env, vs[1..], e);
      ArgumentComesTo(cfg, Softfork(done), es[0], vs[0], ListOf(es[1..]), env, Failure(e));
    }
  }

  // ----- applications -----

  /** What a holds of its arguments. */
  function Held(vs: seq<Element>): Operands
    requires |vs| <= 2
  {
    if vs == [] then NoOperand else if |vs| == 1 then Program(vs[0]) else Both(vs[0], vs[1])
  }

  lemma HoldsOne(cfg: Validator, done: seq<Element>, v: Element, last: bool)
    requires |done| < 2
    ensures Receive(cfg, Apply(Held(done)), v, last) == Metered(0, Then(Apply(Held(done + [v]))))
  {
  }

  lemma {:induction false} OperandsReceived(cfg: Validator, done: seq<Element>, es: seq<Element>, env: Element,
                                            gs: seq<Given>, rem: nat)
    requires Supplied(cfg, es, env, gs) && |done| + |gs| <= 2
    ensures Invoke(cfg, Apply(Held(done)), ListOf(es), env, Delivery(gs) + rem) ==
            After(Delivery(gs), Invoke(cfg, Apply(Held(done + ValuesOf(gs))), Nil, env, rem))
    decreases |es|
  {
    hide Supplied, Invoke, After, Receive, Held;
    SameLength(cfg, es, env, gs);
    if es == [] {
      assert done + ValuesOf(gs) == done;
      AfterNothing(Invoke(cfg, Apply(Held(done)), Nil, env, rem));
    } else {
      OneSupplied(cfg, es, env, gs);
      var g, more := gs[0], gs[1..];
      var paid := STEP + g.cost + Handover(g.fin);
      HoldsOne(cfg, done, g.value, ListOf(es[1..]) == Nil);
      Receives(cfg, Apply(Held(done)), Apply(Held(done + [g.value])), es[0], g, ListOf(es[1..]), env,
        Delivery(more) + rem);
      OperandsReceived(cfg, done + [g.value], es[1..], env, more, rem);
      assert done + [g.value] + ValuesOf(more) == done + ValuesOf(gs);
      AfterAfter(paid, Delivery(more), Invoke(cfg, Apply(Held(done + ValuesOf(gs))), Nil, env, rem));
    }
  }

  /** a runs its first argument as a program, in its second or where it stands itself;
      without arguments it runs nil. It costs its arguments and the program. */
  lemma ApplyMeaning(cfg: Validator, es: seq<Element>, env: Element, gs: seq<Given>, rem: nat)
    requires Supplied(cfg, es, env, gs) && |es| <= 2
    ensures var vs, price := ValuesOf(gs), 2 * STEP + Delivery(gs);
      var p, e := if vs == [] then Nil else vs[0], if |vs| == 2 then vs[1] else env;
      Evaluate(cfg, Cons(Num(1), ListOf(es)), env, price + rem) == After(price, Evaluate(cfg, p, e, rem))
  {
    hide Supplied, Evaluate, Invoke, After, Held, Delivery;
    var vs := ValuesOf(gs);
    var p, e := if vs == [] then Nil else vs[0], if |vs| == 2 then vs[1] else env;
    SameLength(cfg, es, env, gs);
    HeldNone();
    CallOf(cfg, 1, Apply(NoOperand), es, env, Delivery(gs) + (STEP + rem));
    OperandsReceived(cfg, [], es, env, gs, STEP + rem);
    assert [] + vs == vs;
    HeldFinishes(cfg, vs, env, rem);
    AfterAfter(Delivery(gs), STEP, Evaluate(cfg, p, e, rem));
    AfterAfter(STEP, Delivery(gs) + STEP, Evaluate(cfg, p, e, rem));
  }

  lemma HeldNone()
    ensures Held([]) == NoOperand
  {
  }

  lemma HeldFinishes(cfg: Validator, vs: seq<Element>, env: Element, rem: nat)
    requires |vs| <= 2
    ensures var p, e := if vs == [] then Nil else vs[0], if |vs| == 2 then vs[1] else env;
      Invoke(cfg, Apply(Held(vs)), Nil, env, STEP + rem) == After(STEP, Evaluate(cfg, p, e, rem))
  {
    hide Evaluate, Invoke, After;
    InvokeOf(cfg, Apply(Held(vs)), Nil, env, rem);
    AdvanceDone(cfg, Apply(Held(vs)), env, rem);
  }

  /** A third argument is one too many. */
  lemma ApplyTooMany(cfg: Validator, es: seq<Element>, env: Element, vs: seq<Element>)
    requires Supplies(cfg, es, env, vs, None) && |es| >= 3
    ensures ComesTo(cfg, Cons(Num(1), ListOf(es)), env, Failure(TooManyArguments))
  {
    hide Yields, ComesTo, CallComesTo;
    ListIsBll(es);
    var r := Failure(TooManyArguments);
    ArgumentComesTo(cfg, Apply(Both(vs[0], vs[1])), es[2], vs[2], ListOf(es[3..]), env, r);
    assert es[2..][0] == es[2] && es[2..][1..] == es[3..];
    ArgumentComesTo(cfg, Apply(Program(vs[0])), es[1], vs[1], ListOf(es[2..]), env, r);
    assert es[1..][0] == es[1] && es[1..][1..] == es[2..];
    ArgumentComesTo(cfg, Apply(NoOperand), es[0], vs[0], ListOf(es[1..]), env, r);
    OpcodeNum(1);
    OperatorComesTo(cfg, Num(1), Apply(NoOperand), ListOf(es), env, r);
  }

  // ----- atoms -----

  /** The number that refers to the node at a path, its first step in the low bit. */
  function Index(path: seq<bool>): (n: nat)
    ensures n >= 1
  {
    if path == [] then 1 else 2 * Index(path[1..]) + (if path[0] then 1 else 0)
  }

  /** The node at a path, true to the right. */
  function NodeAt(env: Element, path: seq<bool>): Option<Element>
    decreases |path|
  {
    if path == [] then Some(env)
    else if !env.Cons? then None
    else NodeAt(if path[0] then env.right else env.left, path[1..])
  }

  lemma {:induction false} WalkIsPath(env: Element, path: seq<bool>)
    ensures var r, node := Walk(env, Index(path)), NodeAt(env, path);
      match node
      case Some(n) => r == Metered(ENV_EDGE * |path|, Value(n))
      case None => r.value == Failure(InvalidEnvReference) && r.cost <= ENV_EDGE * |path|
    decreases |path|
  {
    if path != [] && env.Cons? {
      WalkIsPath(if path[0] then env.right else env.left, path[1..]);
    }
  }

  /** An atom that reads as a positive number refers to the node at a path. */
  lemma ReferenceMeaning(cfg: Validator, a: Bytes, path: seq<bool>, env: Element, rem: nat)
    requires BytesToInt(a) == Index(path)
    requires rem >= STEP + AtomScan(|a|) + ENV_EDGE * |path|
    ensures var oc := Evaluate(cfg, Atom(a), env, rem);
      match NodeAt(env, path)
      case Some(n) => oc == Ready(n, STEP + AtomScan(|a|) + ENV_EDGE * |path|, true)
      case None => oc.Raised? && oc.error == InvalidEnvReference
  {
    hide BytesToInt, Walk;
    WalkIsPath(env, path);
    EvaluateOf(cfg, Atom(a), env, rem - STEP);
  }

  /** Every positive number refers along some path. */
  lemma {:induction false} EveryReference(n: nat) returns (path: seq<bool>)
    requires n >= 1
    ensures Index(path) == n
  {
    if n == 1 {
      path := [];
    } else {
      var more := EveryReference(n / 2);
      path := [n % 2 == 1] + more;
      assert path[1..] == more;
    }
  }

  /** Any other atom is its own value. */
  lemma AtomMeaning(cfg: Validator, a: Bytes, env: Element, rem: nat)
    requires BytesToInt(a) <= 0 && rem >= STEP + AtomScan(|a|)
    ensures Evaluate(cfg, Atom(a), env, rem) == Ready(Atom(a), STEP + AtomScan(|a|), true)
  {
    hide BytesToInt;
    EvaluateOf(cfg, Atom(a), env, rem - STEP);
  }

  // ----- heads -----

  /** A head that is no atom, or a number outside the range of operators, is refused. */
  lemma HeadRefused(cfg: Validator, op: Element, args: Element, env: Element)
    requires IsBll(op) && IsBll(args)
    requires op.Atom? ==> BytesToInt(op.bytes) < 0 || BytesToInt(op.bytes) >= UNKNOWN_OP_RANGE
    ensures ComesTo(cfg, Cons(op, args), env, Failure(InvalidOpcode))
  {
    hide BytesToInt;
    var c := ResolveOpcode(op).cost;
    assert IsBll(Cons(op, args));
    EvaluateOf(cfg, Cons(op, args), env, c);
    assert Reached(Evaluate(cfg, Cons(op, args), env, STEP + c)) == Some(Failure(InvalidOpcode));
  }

  /** The quote form yields its whole tail, whatever it is. */
  lemma QuoteMeaning(cfg: Validator, v: Element, env: Element, rem: nat)
    requires IsBll(v) && rem >= 2 * STEP
    ensures Evaluate(cfg, Cons(Nil, v), env, rem) == Ready(v, 2 * STEP, false)
  {
    EmptyIsZero();
    EvaluateOf(cfg, Cons(Nil, v), env, rem - STEP);
    InvokeOf(cfg, Quote, v, env, rem - 2 * STEP);
    assert IsBll(Cons(Nil, v));
    assert Advance(cfg, Quote, v, env, rem - 2 * STEP) == Ready(v, 0, false);
    assert Invoke(cfg, Quote, v, env, rem - STEP) == Ready(v, STEP, false);
    assert Operate(cfg, Nil, v, env, rem - STEP) == After(0, Invoke(cfg, Quote, v, env, rem - STEP));
  }

  /** A function object anywhere in a program makes it no code. */
  lemma NoCode(cfg: Validator, p: Element, env: Element, rem: nat)
    requires !IsBll(p) && rem >= STEP
    ensures Evaluate(cfg, p, env, rem) == Raised(NotCode, STEP)
  {
    EvaluateOf(cfg, p, env, rem - STEP);
  }

  /** Arguments with a tail behind them. */
  function ListEnding(es: seq<Element>, tail: Element): Element {
    if es == [] then tail else Cons(es[0], ListEnding(es[1..], tail))
  }

  lemma ImproperTail(cfg: Validator, fn: Fn, tail: Element, env: Element)
    requires !fn.Quote? && tail != Nil && !tail.Cons?
    ensures CallComesTo(cfg, fn, tail, env, Failure(ImproperList))
  {
    InvokeOf(cfg, fn, tail, env, 0);
    assert Advance(cfg, fn, tail, env, 0) == Raised(ImproperList, 0);
    assert Reached(Invoke(cfg, fn, tail, env, STEP + 0)) == Some(Failure(ImproperList));
  }

  /** An argument list that does not end in nil: its arguments are fed, and then it is
      refused. */
  lemma {:induction false} ImproperArguments(cfg: Validator, b: Elements.Bound, es: seq<Element>, vs: seq<Element>,
                                             tail: Element, env: Element)
    requires Supplies(cfg, es, env, vs, None) && tail != Nil && !tail.Cons?
    ensures CallComesTo(cfg, Op(b), ListEnding(es, tail), env,
                        match FeedAll(cfg, b, vs) case Next(_) => Failure(ImproperList) case Fault(e) => Failure(e))
    decreases |es|
  {
    hide Yields, CallComesTo;
    if es == [] {
      ImproperTail(cfg, Op(b), tail, env);
    } else {
      var fed := cfg.feed(b, vs[0]).value;
      var rest := ListEnding(es[1..], tail);
      if fed.Next? {
        ImproperArguments(cfg, fed.bound, es[1..], vs[1..], tail, env);
      }
      ArgumentComesTo(cfg, Op(b), es[0], vs[0], rest, env,
        match FeedAll(cfg, b, vs) case Next(_) => Failure(ImproperList) case Fault(e) => Failure(e));
    }
  }

  /** partial binds table opcodes and extends bindings, and nothing else. */
  lemma PartialRefuses(cfg: Validator, es: seq<Element>, vs: seq<Element>, env: Element)
    requires Supplies(cfg, es, env, vs, None)
    requires es != [] ==> vs[0].Cons? || (vs[0].Atom? && TableOp(BytesToInt(vs[0].bytes)).None?)
    ensures ComesTo(cfg, Cons(Num(3), ListOf(es)), env, Failure(NotAnOpcode))
  {
    hide Yields, ComesTo, CallComesTo, TableOp, BytesToInt;
    ListIsBll(es);
    if es == [] {
      PartialOfNothing(cfg, env);
    } else {
      ArgumentComesTo(cfg, Partial(None), es[0], vs[0], ListOf(es[1..]), env, Failure(NotAnOpcode));
    }
    OpcodeNum(3);
    OperatorComesTo(cfg, Num(3), Partial(None), ListOf(es), env, Failure(NotAnOpcode));
  }

  lemma PartialOfNothing(cfg: Validator, env: Element)
    ensures CallComesTo(cfg, Partial(None), Nil, env, Failure(NotAnOpcode))
  {
    InvokeOf(cfg, Partial(None), Nil, env, 0);
    AdvanceDone(cfg, Partial(None), env, 0);
    assert Reached(Invoke(cfg, Partial(None), Nil, env, STEP + 0)) == Some(Failure(NotAnOpcode));
  }

  // ----- unknown operators -----

  /** The bytes of all atoms. */
  function Width(vs: seq<Element>): nat
    requires M.Atoms(vs)
  {
    if vs == [] then 0 else |vs[0].bytes| + Width(vs[1..])
  }

  /** Bits 6 and 7 of the number choose how an unknown operator charges. */
  lemma {:induction false} TallyFold(o: O.Oracle, b: Elements.Bound, vs: seq<Element>)
    requires b.Tally?
    ensures var r := M.Fold(o, b, vs);
      if b.selector != 0 && !M.Atoms(vs) then r == Fault(NeedsAtoms)
      else
        && r.Next? && r.bound.Tally? && r.bound.selector == b.selector && r.bound.multiplier == b.multiplier
        && (b.selector != 0 ==> r.bound.count == b.count + |vs| && r.bound.bytes == b.bytes + Width(vs))
    decreases |vs|
  {
    hide MulFoldWork;
    if vs != [] {
      M.FoldNext(o, b, vs);
      if b.selector == 0 || vs[0].Atom? {
        TallyFold(o, O.Feed(o, b, vs[0]).value.bound, vs[1..]);
      }
    }
  }

  /** An unknown operator delivers nil; only the flat class takes anything but atoms. */
  lemma UnknownMeaning(o: O.Oracle, num: nat, vs: seq<Element>)
    ensures Applied(Standard(o, false), UnknownOp(num), vs) ==
            if num / 64 % 4 == 0 || M.Atoms(vs) then Value(Nil) else Failure(NeedsAtoms)
  {
    hide M.Fold;
    TallyFold(o, UnknownOp(num), vs);
    M.FoldResult(o, UnknownOp(num), vs);
  }

  /** What finishing an unknown operator charges in the flat, the arithmetic and the
      copying class: the class's price over all arguments, never nothing, times the
      number above the low byte plus one. */
  lemma UnknownCharges(o: O.Oracle, num: nat, vs: seq<Element>)
    requires M.Atoms(vs) && num / 64 % 4 != 2
    ensures var r := M.Fold(o, UnknownOp(num), vs);
      && r.Next?
      && var price := match num / 64 % 4
           case 1 => ARITH_ARG * |vs| + ARITH_PER_BYTE * Width(vs)
           case 3 => CAT_ARG * |vs| + (COPY_PER_BYTE + MALLOC_PER_BYTE) * Width(vs)
           case _ => 0;
      O.Finish(o, r.bound).cost == (if price == 0 then 1 else price) * (num / 256 + 1)
  {
    hide M.Fold, Width, MulFoldWork;
    TallyFold(o, UnknownOp(num), vs);
    var b := M.Fold(o, UnknownOp(num), vs).bound;
    TallyCharges(o, b);
  }

  lemma TallyCharges(o: O.Oracle, b: Elements.Bound)
    requires b.Tally?
    ensures O.Finish(o, b).cost == Max(O.TallyTotal(b), 1) * (b.multiplier + 1)
  {
  }

  /** A number that no operator has yet is called like an opcode. */
  lemma UnknownComesTo(o: O.Oracle, aware: bool, num: nat, es: seq<Element>, vs: seq<Element>, env: Element)
    requires 4 <= num < UNKNOWN_OP_RANGE && TableOp(num).None?
    requires Supplies(Standard(o, aware), es, env, vs, None)
    ensures ComesTo(Standard(o, aware), Cons(Num(num), ListOf(es)), env,
                    if num / 64 % 4 == 0 || M.Atoms(vs) then Value(Nil) else Failure(NeedsAtoms))
  {
    hide ComesTo, CallComesTo, Yields, FeedAll, TableOp;
    var cfg, b := Standard(o, aware), UnknownOp(num);
    DirectCall(cfg, b, es, vs, None, env);
    UnknownMeaning(o, num, vs);
    SameFeeds(o, aware, b, vs);
    ListIsBll(es);
    OpcodeNum(num);
    OperatorComesTo(cfg, Num(num), Op(b), ListOf(es), env, Applied(cfg, b, vs));
  }

  lemma {:induction false} SameFeeds(o: O.Oracle, aware: bool, b: Elements.Bound, vs: seq<Element>)
    ensures Applied(Standard(o, aware), b, vs) == Applied(Standard(o, false), b, vs)
    decreases |vs|
  {
    if vs != [] {
      var fed := Standard(o, aware).feed(b, vs[0]).value;
      if fed.Next? {
        SameFeeds(o, aware, fed.bound, vs[1..]);
      }
    }
  }

  // ----- what is reported -----

  /** An evaluation that reports a value reports a bll value. */
  lemma ReportsBll(cfg: Validator, p: Element, env: Element, limit: nat)
    ensures var r := Run(cfg, Start(p, env, limit)).result; r.Value? ==> IsBll(r.value)
  {
    hide Evaluate, Run;
    MachineIsDirect(cfg, p, env, limit);
  }

  /** A program that comes to anything else is reported as failed, at its cost. */
  lemma FunctionsAreNoResults(cfg: Validator, p: Element, env: Element, v: Element) returns (enough: nat)
    requires Yields(cfg, p, env, v) && !IsBll(v)
    ensures forall limit | limit >= enough ::
              Run(cfg, Start(p, env, limit)) == Verdict(Failure(ResultNotAValue), enough, false)
  {
    hide Evaluate, Run;
    var c, fin := EnoughFor(cfg, p, env, v);
    enough := c;
    forall limit | limit >= enough
      ensures Run(cfg, Start(p, env, limit)) == Verdict(Failure(ResultNotAValue), enough, false)
    {
      MachineIsDirect(cfg, p, env, limit);
    }
  }
}
