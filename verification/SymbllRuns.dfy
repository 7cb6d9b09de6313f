/** Runs of the symbolic machine that end in a value. */
module SymbllRuns {
  import opened Costs
  import opened Elements
  import opened Symbll
  import Bll = Machine
  import Inv = Invariants
  import Big = BigStep
  import opened EnoughBudget

  /** From here the run ends in this value. */
  ghost predicate Alive(mem: Memory, G: Globals, cfg: Bll.Validator, s: State, n: nat, res: Element) {
    RunFor(mem, G, cfg, s, n) == Some(Value(res))
  }

  /** An error on top, whatever is below it, never turns into a value. */
  lemma {:induction false} FailureRuns(mem: Memory, G: Globals, cfg: Bll.Validator, K: Stack, e: Error, left: int,
                                       m: Meter, n: nat, res: Element)
    ensures !Alive(mem, G, cfg, State(Push(K, Fin(Failure(e))), left, m), n, res)
    decreases n
  {
    if K.Push? && n > 0 {
      var s := Step(mem, G, cfg, State(Push(K, Fin(Failure(e))), left, m));
      assert OnFin(s.frames) && s.frames.top.result.Failure?;
      FailureRuns(mem, G, cfg, s.frames.rest, s.frames.top.result.error, s.left, s.m, n - 1, res);
    }
  }

  /** The checks after a step let a run that ends in a value pass. */
  lemma SettleAlive(mem: Memory, G: Globals, cfg: Bll.Validator, s: State, n: nat, res: Element)
    requires Alive(mem, G, cfg, Settle(mem, s), n, res)
    ensures Settle(mem, s) == s.(left := s.left - 1)
    ensures OnFin(s.frames) || !s.m.Latched()
  {
    var u := Spent(s);
    assert !Threw(s);
    hide RunFor;
    if mem(u.left) {
      FailureRuns(mem, G, cfg, u.frames, MemoryOverrun, u.left, u.m, n, res);
    } else if !OnFin(s.frames) {
      if s.m.Latched() {
        FailureRuns(mem, G, cfg, s.frames, BudgetExhausted, s.left - 1, s.m, n, res);
      } else if s.left <= 1 {
        FailureRuns(mem, G, cfg, s.frames, StepLimit, s.left - 1, s.m, n, res);
      }
    }
  }

  lemma StepAlive(mem: Memory, G: Globals, cfg: Bll.Validator, K: Stack, f: Frame, left: int, m: Meter, n: nat,
                  res: Element)
    requires Alive(mem, G, cfg, State(Push(K, f), left, m), n, res) && !f.Fin?
    ensures !f.Exception? && n > 0 && Alive(mem, G, cfg, Settle(mem, StepFrame(mem, G, cfg, K, f, left, m)), n - 1, res)
  {
  }

  /** A step that returns a result has a value to return: the result of the run, or
      one that is handed over to the frame below. */
  lemma ReturnAlive(mem: Memory, G: Globals, cfg: Bll.Validator, K: Stack, r: Result, left: int, m: Meter, n: nat,
                    res: Element)
    returns (n': nat)
    requires Alive(mem, G, cfg, Settle(mem, Return(K, r, left, m)), n, res)
    ensures r.Value? && n' <= n
    ensures if K.Empty? then r.value == res
            else Alive(mem, G, cfg, Settle(mem, Feedback(cfg, K, r, left - 1, m)), n', res)
  {
    SettleAlive(mem, G, cfg, Return(K, r, left, m), n, res);
    if r.Failure? {
      FailureRuns(mem, G, cfg, K, r.error, left - 1, m, n, res);
    }
    n' := if K.Empty? then n else n - 1;
  }

  // ----- nested bll runs -----

  /** A nested run that ends in a value leaves the budget usable, and the program
      yields that value. */
  lemma NestedYields(cfg: Bll.Validator, p: Element, e: Element, m: Meter, v: Element)
    requires !m.Latched() && m.guards.Outside?
    requires Bll.Report(Bll.Halt(cfg, Bll.State(Bll.Push(Bll.Empty, Bll.Eval(p, e)), m))).result == Value(v)
    ensures var halt := Bll.Halt(cfg, Bll.State(Bll.Push(Bll.Empty, Bll.Eval(p, e)), m));
      !halt.m.Latched() && halt.m.guards.Outside?
    ensures IsBll(v) && Yields(cfg, p, e, v)
  {
    hide Bll.Halt, Bll.Run, Big.Evaluate;
    var s := Bll.State(Bll.Push(Bll.Empty, Bll.Eval(p, e)), m);
    assert Inv.ExitFrames(Bll.Empty) == 0;
    var n := Inv.HaltAlong(cfg, s);
    Inv.AlwaysKept(cfg, s);
    Bll.RunReportsHalt(cfg, s);
    Big.EvaluateRefines(cfg, Bll.Empty, p, e, m);
    var halt := Bll.Halt(cfg, s);
    assert Inv.ExitFrames(halt.frames) == 0;
    RunOfOutcome(cfg, Big.Evaluate(cfg, p, e, Avail(m)), m);
    assert Big.Evaluate(cfg, p, e, Avail(m)).Ready?;
  }

  lemma RunOfOutcome(cfg: Bll.Validator, oc: Big.Outcome, m: Meter)
    requires Big.Fits(oc, Avail(m)) && !m.Latched() && m.guards.Outside?
    ensures Big.Continue(cfg, Bll.Empty, oc, m).result ==
            match oc
            case Ready(v, _, _) => Bll.Gate(Value(v))
            case Raised(err, _) => Failure(err)
            case Dead(err, _) => Failure(err)
            case Out => Failure(BudgetExhausted)
  {
  }
}
