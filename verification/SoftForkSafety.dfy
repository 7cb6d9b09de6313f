/** Soft-fork safety: what a validator that runs softfork guards accepts, one
    that treats them as opaque accepts too, with the same value and charges. */
module SoftForkSafety {
  import opened Costs
  import opened Elements
  import opened Machine
  import opened BigStep

  /** The same validator before it learns of extension 0. */
  function Opaque(v: Validator): Validator {
    v.(aware := false)
  }

  /** The only ways the aware evaluation may depart from the opaque one: it is
      already dead, or it raises where the other delivers nil at the same cost. */
  predicate Tightens(a: Outcome, b: Outcome) {
    || a == b
    || a.Dead?
    || (a.Raised? && b.Ready? && b.fin && a.cost == b.cost)
  }

  lemma AfterTightens(paid: nat, a: Outcome, b: Outcome)
    requires Tightens(a, b)
    ensures Tightens(After(paid, a), After(paid, b))
  {
  }

  lemma {:induction false} EvaluateTightens(aware: Validator, p: Element, env: Element, rem: nat)
    ensures Tightens(Evaluate(aware, p, env, rem), Evaluate(Opaque(aware), p, env, rem))
    decreases rem, 0
  {
    hide Resolve, After;
    if rem >= STEP {
      ResolveTightens(aware, p, env, rem - STEP);
      AfterTightens(STEP, Resolve(aware, p, env, rem - STEP), Resolve(Opaque(aware), p, env, rem - STEP));
    }
  }

  lemma {:induction false} ResolveTightens(aware: Validator, p: Element, env: Element, rem: nat)
    ensures Tightens(Resolve(aware, p, env, rem), Resolve(Opaque(aware), p, env, rem))
    decreases rem, 2
  {
    hide Operate, IsBll, Outright;
    if p.Cons? {
      OperateTightens(aware, p.left, p.right, env, rem);
    }
  }

  lemma {:induction false} OperateTightens(aware: Validator, op: Element, args: Element, env: Element, rem: nat)
    ensures Tightens(Operate(aware, op, args, env, rem), Operate(Opaque(aware), op, args, env, rem))
    decreases rem, 1
  {
    hide Invoke, After, ResolveOpcode;
    var r := ResolveOpcode(op);
    if rem >= r.cost && r.value.Some? {
      var left := rem - r.cost;
      InvokeTightens(aware, r.value.value, args, env, left);
      AfterTightens(r.cost, Invoke(aware, r.value.value, args, env, left),
                    Invoke(Opaque(aware), r.value.value, args, env, left));
    }
  }

  lemma {:induction false} InvokeTightens(aware: Validator, fn: Fn, args: Element, env: Element, rem: nat)
    ensures Tightens(Invoke(aware, fn, args, env, rem), Invoke(Opaque(aware), fn, args, env, rem))
    decreases rem, 0
  {
    hide Advance, After;
    if rem >= STEP {
      var left := rem - STEP;
      AdvanceTightens(aware, fn, args, env, left);
      AfterTightens(STEP, Advance(aware, fn, args, env, left), Advance(Opaque(aware), fn, args, env, left));
    }
  }

  lemma {:induction false} AdvanceTightens(aware: Validator, fn: Fn, args: Element, env: Element, rem: nat)
    ensures Tightens(Advance(aware, fn, args, env, rem), Advance(Opaque(aware), fn, args, env, rem))
    decreases rem, 4
  {
    hide Complete, Consume, Evaluate;
    if fn.Quote? {
    } else if args == Nil {
      CompleteTightens(aware, fn, env, rem);
    } else if args.Cons? {
      EvaluateTightens(aware, args.left, env, rem);
      ConsumeTightens(aware, fn, Evaluate(aware, args.left, env, rem), Evaluate(Opaque(aware), args.left, env, rem),
                      args.right, env, rem);
    }
  }

  lemma {:induction false} ConsumeTightens(aware: Validator, fn: Fn, a: Outcome, b: Outcome, rest: Element,
                                           env: Element, rem: nat)
    requires Tightens(a, b) && Fits(a, rem) && Fits(b, rem)
    ensures Tightens(Consume(aware, fn, a, rest, env, rem), Consume(Opaque(aware), fn, b, rest, env, rem))
    decreases rem, 3
  {
    hide Pass;
    if a.Ready? {
      PassTightens(aware, fn, a.value, a.cost + Handover(a.fin), rest, env, rem);
    } else if b.Ready? {
      PassShort(Opaque(aware), fn, b.value, b.cost + Handover(b.fin), rest, env, rem);
    }
  }

  lemma {:induction false} PassTightens(aware: Validator, fn: Fn, v: Element, h: nat, rest: Element, env: Element,
                                        rem: nat)
    requires h >= STEP
    ensures Tightens(Pass(aware, fn, v, h, rest, env, rem), Pass(Opaque(aware), fn, v, h, rest, env, rem))
    decreases rem, 2
  {
    hide Accept, After;
    if rem >= h {
      AcceptTightens(aware, fn, v, rest, env, rem - h);
      AfterTightens(h, Accept(aware, fn, v, rest, env, rem - h), Accept(Opaque(aware), fn, v, rest, env, rem - h));
    }
  }

  lemma ReceiveIgnoresExtensions(aware: Validator, fn: Fn, v: Element, last: bool)
    ensures Receive(aware, fn, v, last) == Receive(Opaque(aware), fn, v, last)
  {
  }

  lemma {:induction false} AcceptTightens(aware: Validator, fn: Fn, v: Element, rest: Element, env: Element, rem: nat)
    ensures Tightens(Accept(aware, fn, v, rest, env, rem), Accept(Opaque(aware), fn, v, rest, env, rem))
    decreases rem, 1
  {
    hide Invoke, After, Receive;
    ReceiveIgnoresExtensions(aware, fn, v, rest == Nil);
    var r := Receive(aware, fn, v, rest == Nil);
    if rem >= r.cost && r.value.Then? {
      var left := rem - r.cost;
      InvokeTightens(aware, r.value.fn, rest, env, left);
      AfterTightens(r.cost, Invoke(aware, r.value.fn, rest, env, left),
                    Invoke(Opaque(aware), r.value.fn, rest, env, left));
    }
  }

  lemma {:induction false} CompleteTightens(aware: Validator, fn: Fn, env: Element, rem: nat)
    requires !fn.Quote?
    ensures Tightens(Complete(aware, fn, env, rem), Complete(Opaque(aware), fn, env, rem))
    decreases rem, 3
  {
    hide Evaluate, Fork, Outright;
    match fn {
      case Apply(NoOperand) => EvaluateTightens(aware, Nil, env, rem);
      case Apply(Program(p)) => EvaluateTightens(aware, p, env, rem);
      case Apply(Both(p, e)) => EvaluateTightens(aware, p, e, rem);
      case Softfork(values) => ForkTightens(aware, values, rem);
      case Op(_) =>
      case Partial(_) =>
    }
  }

  /** Whether or not the guard runs, the outer cost is the same lump. */
  lemma ForkTightens(aware: Validator, values: seq<Element>, rem: nat)
    ensures Tightens(Fork(aware, values, rem), Fork(Opaque(aware), values, rem))
  {
    hide Evaluate;
  }

  /** The soft-fork theorem, on the machines: a value accepted by the validator
      that recognises extension 0 is accepted by the one that does not, charged
      the same, and exhaustion is the same on both sides. Errors are where the
      new rules may reject more. */
  lemma RecognitionOnlyTightens(aware: Validator, p: Element, env: Element, limit: nat)
    ensures var mine, theirs := Run(aware, Start(p, env, limit)), Run(Opaque(aware), Start(p, env, limit));
      mine.result.Value? || mine.exhausted ==> mine == theirs
  {
    hide Run, Evaluate;
    MachineIsDirect(aware, p, env, limit);
    MachineIsDirect(Opaque(aware), p, env, limit);
    EvaluateTightens(aware, p, env, limit);
  }
}
