/** When the symbolic evaluator stops, and when it does not. */
module CompilerLimits {
  import opened Costs
  import opened Elements
  import opened OpTable
  import opened Integers
  import opened Symbll
  import Bll = Machine

  // ----- up to an error or a result -----

  /** Below the top there are only calls waiting for a value. */
  predicate Calls(K: Stack) {
    K.Empty? || (K.top.Call? && Calls(K.rest))
  }

  /** An error is on top. */
  predicate Failed(s: State) {
    OnFin(s.frames) && s.frames.top.result.Failure?
  }

  predicate Tidy(s: State) {
    s.frames.Push? && (Failed(s) || Calls(s.frames.rest))
  }

  /** A frame leaves something on the stack unless the budget is latched, and of a
      step allowance at least none. */
  lemma StepFrameTidy(mem: Memory, G: Globals, cfg: Bll.Validator, K: Stack, f: Frame, left: int, m: Meter)
    requires Tidy(State(Push(K, f), left, m))
    ensures var s := StepFrame(mem, G, cfg, K, f, left, m);
      && (Tidy(s) || (s.m.Latched() && Calls(s.frames)))
      && s.left <= left && s.left >= (if left >= 1 then 0 else left - 1)
  {
    hide Bll.Halt, Drive, Bll.Report, ResolveCall, ToBll, Branch;
  }

  lemma StepTidy(mem: Memory, G: Globals, cfg: Bll.Validator, s: State)
    requires Tidy(s) && !Threw(s)
    ensures var r := Step(mem, G, cfg, s);
      && Tidy(r)
      && r.left >= (if s.left >= 1 then -1 else s.left - 2)
      && (Threw(r) || (r.left < s.left && (r.left <= 0 ==> OnFin(r.frames))))
  {
    hide StepFrame;
    StepFrameTidy(mem, G, cfg, s.frames.rest, s.frames.top, s.left, s.m);
  }

  /** A delivery leaves an error or a frame with work to do on top. */
  lemma DeliverNeverFinishes(cfg: Bll.Validator, K: Stack, top: Frame, v: Element, left: int, m: Meter)
    requires Calls(K)
    ensures var s := Deliver(cfg, K, top, v, left, m);
      s.left == left && (OnFin(s.frames) ==> s.frames.top.result.Failure?)
  {
  }

  /** A value delivered without step allowance ends in an error or an exception. */
  lemma SpentFails(mem: Memory, G: Globals, cfg: Bll.Validator, s: State)
    requires s.left <= 0 && OnFin(s.frames) && Tidy(s) && !Finished(s) && !Failed(s)
    ensures var r := Step(mem, G, cfg, s); (Threw(r) || Failed(r)) && s.left - 1 <= r.left
  {
    hide Deliver;
    var K, v := s.frames.rest, s.frames.top.result.value;
    DeliverNeverFinishes(cfg, K.rest, K.top, v, s.left, s.m);
  }

  /** The state of the work item after k turns of the driver loop, or where the loop
      was left before. */
  function After(mem: Memory, G: Globals, cfg: Bll.Validator, s: State, k: nat): State
    decreases k
  {
    if k == 0 || Stopped(s) || s.frames.Empty? then s else After(mem, G, cfg, Step(mem, G, cfg, s), k - 1)
  }

  /** Turns of the loop are taken one after the other. */
  lemma {:induction false} AfterRuns(mem: Memory, G: Globals, cfg: Bll.Validator, s: State, k: nat, n: nat)
    ensures RunFor(mem, G, cfg, s, n + k) == RunFor(mem, G, cfg, After(mem, G, cfg, s, k), n)
    decreases k
  {
    hide Step;
    if k > 0 && !Stopped(s) && s.frames.Push? {
      AfterRuns(mem, G, cfg, Step(mem, G, cfg, s), k - 1, n);
    }
  }

  lemma Goes(mem: Memory, G: Globals, cfg: Bll.Validator, s: State, r: State, n: nat)
    requires s.frames.Push? && !Stopped(s) && Step(mem, G, cfg, s) == r
    ensures RunFor(mem, G, cfg, s, n + 1) == RunFor(mem, G, cfg, r, n)
  {
    hide Step;
  }

  /** Every run comes to its result, to an exception, or to an error while it has a
      step allowance, or on the next two steps. */
  lemma {:induction false} ComesToStop(mem: Memory, G: Globals, cfg: Bll.Validator, s: State) returns (k: nat)
    requires Tidy(s) && s.left >= -1 && (s.left <= 0 && !Threw(s) ==> OnFin(s.frames))
    ensures var t := After(mem, G, cfg, s, k);
      && t.left >= -2 && k <= (if s.left > 0 then s.left + 1 else 1)
      && Tidy(t) && (Stopped(t) || Failed(t))
    decreases s.left + 1
  {
    hide Step;
    if Stopped(s) || Failed(s) {
      k := 0;
    } else {
      StepTidy(mem, G, cfg, s);
      var r := Step(mem, G, cfg, s);
      var more := 0;
      if s.left <= 0 {
        SpentFails(mem, G, cfg, s);
      } else if !Threw(r) {
        more := ComesToStop(mem, G, cfg, r);
      }
      k := more + 1;
      assert After(mem, G, cfg, s, k) == After(mem, G, cfg, r, more);
    }
  }

  // ----- from an error on -----

  ghost predicate Ends(mem: Memory, G: Globals, cfg: Bll.Validator, s: State) {
    exists n: nat :: RunFor(mem, G, cfg, s, n).Some?
  }

  /** An error leaves itself alone on the stack, and an overrun error above it while
      the allocator is over its limit. */
  lemma FailedStep(mem: Memory, G: Globals, cfg: Bll.Validator, s: State)
    requires Failed(s)
    ensures var alone := Push(Empty, s.frames.top);
      Step(mem, G, cfg, s) == State(if mem(s.left - 1) then Push(alone, Fin(Failure(MemoryOverrun))) else alone,
          s.left - 1, s.m)
  {
  }

  lemma EndsStep(mem: Memory, G: Globals, cfg: Bll.Validator, s: State)
    requires s.frames.Push? && !Stopped(s)
    ensures Ends(mem, G, cfg, s) <==> Ends(mem, G, cfg, Step(mem, G, cfg, s))
  {
    hide Step;
    var r := Step(mem, G, cfg, s);
    if n: nat :| RunFor(mem, G, cfg, s, n).Some? {
      Goes(mem, G, cfg, s, r, n - 1);
    }
    if n: nat :| RunFor(mem, G, cfg, r, n).Some? {
      Goes(mem, G, cfg, s, r, n);
    }
  }

  lemma StoppedEnds(mem: Memory, G: Globals, cfg: Bll.Validator, s: State)
    requires Stopped(s)
    ensures Ends(mem, G, cfg, s) && RunFor(mem, G, cfg, s, 0).Some?
  {
    assert RunFor(mem, G, cfg, s, 0).Some?;
  }

  /** A later check below the limit ends a failed run. */
  lemma {:induction false} BelowEnds(mem: Memory, G: Globals, cfg: Bll.Validator, s: State, l: int)
    requires Failed(s) && l < s.left && !mem(l)
    ensures Ends(mem, G, cfg, s)
    decreases s.left - l
  {
    hide Step, RunFor;
    if Stopped(s) {
      StoppedEnds(mem, G, cfg, s);
    } else {
      FailedStep(mem, G, cfg, s);
      EndsStep(mem, G, cfg, s);
      var r := Step(mem, G, cfg, s);
      if !mem(s.left - 1) {
        StoppedEnds(mem, G, cfg, r);
      } else {
        BelowEnds(mem, G, cfg, r, l);
      }
    }
  }

  /** And nothing else does. */
  lemma {:induction false} EndsBelow(mem: Memory, G: Globals, cfg: Bll.Validator, s: State, n: nat) returns (l: int)
    requires Failed(s) && !Stopped(s) && RunFor(mem, G, cfg, s, n).Some?
    ensures l < s.left && !mem(l)
    decreases n
  {
    hide Step;
    FailedStep(mem, G, cfg, s);
    if mem(s.left - 1) {
      l := EndsBelow(mem, G, cfg, Step(mem, G, cfg, s), n - 1);
    } else {
      l := s.left - 1;
    }
  }

  lemma FailedEndsExactly(mem: Memory, G: Globals, cfg: Bll.Validator, s: State)
    requires Failed(s) && !Stopped(s)
    ensures Ends(mem, G, cfg, s) <==> exists l: int :: l < s.left && !mem(l)
  {
    hide RunFor;
    if n: nat :| RunFor(mem, G, cfg, s, n).Some? {
      var l := EndsBelow(mem, G, cfg, s, n);
    }
    if l: int :| l < s.left && !mem(l) {
      BelowEnds(mem, G, cfg, s, l);
    }
  }

  // ----- symbolic_eval -----

  lemma {:induction false} RunLonger(mem: Memory, G: Globals, cfg: Bll.Validator, s: State, n: nat, more: nat)
    requires RunFor(mem, G, cfg, s, n).Some? && n <= more
    ensures RunFor(mem, G, cfg, s, more) == RunFor(mem, G, cfg, s, n)
    decreases n
  {
    hide Step;
    if !Stopped(s) {
      RunLonger(mem, G, cfg, Step(mem, G, cfg, s), n - 1, more - 1);
    }
  }

  lemma AfterEnds(mem: Memory, G: Globals, cfg: Bll.Validator, s: State, k: nat)
    ensures Ends(mem, G, cfg, s) <==> Ends(mem, G, cfg, After(mem, G, cfg, s, k))
  {
    hide RunFor, After;
    var t := After(mem, G, cfg, s, k);
    if n: nat :| RunFor(mem, G, cfg, t, n).Some? {
      AfterRuns(mem, G, cfg, s, k, n);
      assert RunFor(mem, G, cfg, s, n + k).Some?;
    }
    if n: nat :| RunFor(mem, G, cfg, s, n).Some? {
      RunLonger(mem, G, cfg, s, n, n + k);
      AfterRuns(mem, G, cfg, s, k, n);
      assert RunFor(mem, G, cfg, t, n).Some?;
    }
  }

  /** When symbolic_eval ends: within its step allowance and one more step it comes
      to its result or an exception, or to an error with the allocator over its
      limit. From that error on it ends if and only if the allocator is below its
      limit at some later check. */
  lemma SymbolicEvalEndsExactly(mem: Memory, G: Globals, cfg: Bll.Validator, e: SExpr) returns (k: nat)
    ensures k <= STEP_ALLOWANCE + 1
    ensures var t := After(mem, G, cfg, Begin(e), k);
      && t.left >= -2 && (Stopped(t) || Failed(t))
      && (Ends(mem, G, cfg, Begin(e)) <==> Stopped(t) || exists l: int :: l < t.left && !mem(l))
  {
    hide RunFor, Step, After;
    k := ComesToStop(mem, G, cfg, Begin(e));
    var t := After(mem, G, cfg, Begin(e), k);
    AfterEnds(mem, G, cfg, Begin(e), k);
    if Stopped(t) {
      StoppedEnds(mem, G, cfg, t);
    } else {
      FailedEndsExactly(mem, G, cfg, t);
    }
  }

  /** An allocator that stays below its limit. */
  ghost predicate Quiet(mem: Memory) {
    forall left: int :: !mem(left)
  }

  /** Below its limit throughout, symbolic_eval of any expression is over within its
      step allowance and two more steps. */
  lemma SymbolicEvalTerminates(mem: Memory, G: Globals, cfg: Bll.Validator, e: SExpr)
    requires Quiet(mem)
    ensures RunFor(mem, G, cfg, Begin(e), STEP_ALLOWANCE + 2).Some?
  {
    hide RunFor, Step, After;
    var k := SymbolicEvalEndsExactly(mem, G, cfg, e);
    var t := After(mem, G, cfg, Begin(e), k);
    if Stopped(t) {
      StoppedEnds(mem, G, cfg, t);
      RunLonger(mem, G, cfg, t, 0, 1);
    } else {
      FailedStep(mem, G, cfg, t);
      Goes(mem, G, cfg, t, Step(mem, G, cfg, t), 0);
      StoppedEnds(mem, G, cfg, Step(mem, G, cfg, t));
    }
    AfterRuns(mem, G, cfg, Begin(e), k, 1);
    RunLonger(mem, G, cfg, Begin(e), 1 + k, STEP_ALLOWANCE + 2);
  }

  /** Over its limit at every check, symbolic_eval ends for no expression. */
  lemma OverrunHangs(mem: Memory, G: Globals, cfg: Bll.Validator, e: SExpr)
    requires forall left: int :: mem(left)
    ensures !Ends(mem, G, cfg, Begin(e))
  {
    hide RunFor, StepEval;
    var s := Begin(e);
    EndsStep(mem, G, cfg, s);
    StepFrameTidy(mem, G, cfg, Empty, s.frames.top, s.left, s.m);
    StartsQuietly(G, e, s.left, s.m);
    var r := Step(mem, G, cfg, s);
    if Ends(mem, G, cfg, r) {
      FailedEndsExactly(mem, G, cfg, r);
    }
  }

  /** The first step neither stops nor raises an exception. */
  lemma StartsQuietly(G: Globals, e: SExpr, left: int, m: Meter)
    ensures var s := StepEval(G, Empty, e, map[], left, m); s.frames.Push? && !Threw(s)
  {
  }

  // ----- against the sizes of what is live -----

  /** Store.alloc_size. */
  function StoreSize(length: nat): nat {
    24 + 16 + (length + 15) / 16 * 16
  }

  /** What a work item holds that is left with an overrun error: the 24 characters
      of the error and the function object of its frame. */
  const OVERRUN_HELD: nat := StoreSize(24) + 24

  /** An allocator that counts what the work item holds and `held` bytes besides: two
      checks after an error that is not the end, the item holds an overrun error
      alone (`FailedStep`). */
  ghost predicate Counts(mem: Memory, G: Globals, cfg: Bll.Validator, e: SExpr, held: nat) {
    forall k: nat, l: int ::
      var t := After(mem, G, cfg, Begin(e), k);
      Failed(t) && !Stopped(t) && l <= t.left - 2 ==> (mem(l) <==> held + OVERRUN_HELD > MEMORY_LIMIT)
  }

  /** A bound a caller can check: symbolic_eval ends by itself, or at the check that
      follows its last error, or else if and only if the globals, and whatever else
      the process keeps, leave room for one error. */
  lemma RoomEndsExactly(mem: Memory, G: Globals, cfg: Bll.Validator, e: SExpr, held: nat) returns (k: nat)
    requires Counts(mem, G, cfg, e, held)
    ensures k <= STEP_ALLOWANCE + 1
    ensures var t := After(mem, G, cfg, Begin(e), k);
      Ends(mem, G, cfg, Begin(e)) <==> Stopped(t) || !mem(t.left - 1) || held + OVERRUN_HELD <= MEMORY_LIMIT
  {
    hide RunFor, Step, After;
    k := SymbolicEvalEndsExactly(mem, G, cfg, e);
    var t := After(mem, G, cfg, Begin(e), k);
    if Failed(t) && !Stopped(t) {
      assert mem(t.left - 2) <==> held + OVERRUN_HELD > MEMORY_LIMIT;
    }
  }

  /** With that room symbolic_eval ends for every expression. */
  lemma RoomEnds(mem: Memory, G: Globals, cfg: Bll.Validator, e: SExpr, held: nat)
    requires Counts(mem, G, cfg, e, held) && held + OVERRUN_HELD <= MEMORY_LIMIT
    ensures Ends(mem, G, cfg, Begin(e))
  {
    hide Counts, Ends;
    var k := RoomEndsExactly(mem, G, cfg, e, held);
  }

  /** The atoms a symbolic expression refers to. */
  predicate Mentions(e: SExpr, b: Bytes) {
    match e
    case SAtom(a) => a == b
    case Symbol(_) => false
    case SPair(l, r) => Mentions(l, b) || Mentions(r, b)
  }

  /** An allocator that counts the globals, which stay referenced until the end: one
      atom beyond the limit keeps it over. */
  ghost predicate Retains(mem: Memory, G: Globals) {
    forall d, b | d in G && Mentions(d.body, b) && StoreSize(|b|) > MEMORY_LIMIT :: forall left: int :: mem(left)
  }

  lemma RetainsOne(mem: Memory, G: Globals, d: Define, b: Bytes)
    requires Retains(mem, G) && d in G && Mentions(d.body, b) && |b| >= MEMORY_LIMIT
    ensures forall left: int :: mem(left)
  {
  }

  /** A definition whose body is an atom of 400,000 bytes: no expression at all is
      evaluated in its presence. */
  lemma LargeGlobalHangs(mem: Memory, cfg: Bll.Validator, e: SExpr)
    requires Retains(mem, [Define("F", [], SAtom(Zeros(MEMORY_LIMIT)))])
    ensures !Ends(mem, [Define("F", [], SAtom(Zeros(MEMORY_LIMIT)))], cfg, Begin(e))
  {
    var atom := Zeros(MEMORY_LIMIT);
    var G := [Define("F", [], SAtom(atom))];
    RetainsOne(mem, G, G[0], atom);
    OverrunHangs(mem, G, cfg, e);
  }

  // ----- quoted values -----

  /** Evaluating a quoted value hands it to the call below. */
  lemma QuoteArgument(mem: Memory, G: Globals, cfg: Bll.Validator, K: Stack, v: Element, env: Locals, left: int,
                      m: Meter, n: nat)
    requires IsBll(v) && K.Push? && !m.Latched() && left > 2 && !mem(left - 1)
    ensures var q := SPair(Symbol("q"), FromBll(v));
      RunFor(mem, G, cfg, State(Push(K, Eval(q, env)), left, m), n + 2)
      == RunFor(mem, G, cfg, Settle(mem, Deliver(cfg, K.rest, K.top, v, left - 1, m)), n)
  {
    hide RunFor, Deliver, OpNumber;
    FromBllRoundTrip(v);
    var q := SPair(Symbol("q"), FromBll(v));
    var s := State(Push(K, Call(Quote, FromBll(v), env)), left - 1, m);
    Goes(mem, G, cfg, State(Push(K, Eval(q, env)), left, m), s, n + 1);
    Goes(mem, G, cfg, s, Settle(mem, Deliver(cfg, K.rest, K.top, v, left - 1, m)), n);
  }
}
