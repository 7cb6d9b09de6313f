/** One spend, end to end (spend.py, verify_spend): the commitment is checked,
    program and environment are decoded, and the program is evaluated, decoding
    and evaluation on one budget. */
module SpendValidation {
  import opened Integers
  import opened Costs
  import opened Budgets
  import opened Elements
  import opened Machine
  import opened BigStep
  import opened SoftForkSafety
  import opened Replay
  import opened Canonical
  import Evaluator
  import Taproot

  const ANNEX_TAG: byte := 0x50

  /** What of a transaction decides a spend: how many inputs it has, the script of
      the output each of them spends, and the witnesses, with their serialized
      sizes. */
  datatype Transaction = Transaction(inputs: nat, spks: seq<Bytes>, witnesses: seq<Witness>)

  datatype Witness = Witness(stack: seq<Bytes>, size: nat)

  datatype Reason =
    | InputIndex
    | SpentOutputs
    | WitnessMissing
    | WitnessShape
    | Commitment(refusal: Taproot.Refusal)
    | InLeafScript(error: Error)
    | InEnvironment(error: Error)
    | Evaluation(error: Error)
    | OutOfBudget
    | NilResult

  /** The verdict, with what was charged of the budget. */
  datatype SpendResult = Accepted(used: nat) | Refused(reason: Reason, used: nat)

  /** strip_annex. */
  function StripAnnex(stack: seq<Bytes>): seq<Bytes> {
    if |stack| >= 2 && stack[|stack| - 1] != [] && stack[|stack| - 1][0] == ANNEX_TAG then stack[..|stack| - 1]
    else stack
  }

  /** The budget a witness of the given size buys, at most what a whole block would. */
  function LimitFor(witnessSize: nat): (limit: nat)
    ensures limit <= BUDGET_MAX
  {
    var bought := BUDGET_BASE + BUDGET_PER_WITNESS_BYTE * witnessSize;
    if bought < BUDGET_MAX then bought else BUDGET_MAX
  }

  function Start(p: Element, env: Element, m: Meter): State {
    State(Push(Empty, Eval(p, env)), m)
  }

  function Judged(v: Verdict): SpendResult {
    if v.exhausted then Refused(OutOfBudget, v.used)
    else if v.result.Failure? then Refused(Evaluation(v.result.error), v.used)
    else if v.result.value == Nil then Refused(NilResult, v.used)
    else Accepted(v.used)
  }

  /** Decoding both and evaluating. */
  function Spent(cfg: Validator, leaf: Bytes, input: Bytes, limit: nat): SpendResult {
    var p := CanonicalElement(leaf);
    var m1 := Charge(Fresh(limit), p.cost);
    if m1.Latched() then Refused(OutOfBudget, m1.used)
    else if p.value.Failure? then Refused(InLeafScript(p.value.error), m1.used)
    else
      var env := CanonicalElement(input);
      var m2 := Charge(m1, env.cost);
      if m2.Latched() then Refused(OutOfBudget, m2.used)
      else if env.value.Failure? then Refused(InEnvironment(env.value.error), m2.used)
      else Judged(Run(cfg, Start(p.value.value, env.value.value, m2)))
  }

  /** verify_spend on one witness. */
  function WitnessOf(cfg: Validator, c: Taproot.Crypto, spk: Bytes, w: Witness): SpendResult {
    var items := StripAnnex(w.stack);
    if |items| != 3 then Refused(WitnessShape, 0)
    else
      var r := Taproot.VerifyCommitment(c, spk, items[1], items[2]);
      if r.Some? then Refused(Commitment(r.value), 0)
      else Spent(cfg, items[1], items[0], LimitFor(w.size))
  }

  /** verify_spend, the fields that opcodes look up inside the validator. */
  function SpendOf(cfg: Validator, c: Taproot.Crypto, tx: Transaction, index: int): SpendResult {
    if !(0 <= index < tx.inputs) then Refused(InputIndex, 0)
    else if |tx.spks| != tx.inputs then Refused(SpentOutputs, 0)
    else if index >= |tx.witnesses| then Refused(WitnessMissing, 0)
    else WitnessOf(cfg, c, tx.spks[index], tx.witnesses[index])
  }

  /** verify_spend. */
  method VerifySpend(cfg: Validator, c: Taproot.Crypto, tx: Transaction, index: int) returns (r: SpendResult)
    ensures r == SpendOf(cfg, c, tx, index)
  {
    hide Costs.Charge, Canon, Run, CanonicalElement, Taproot.VerifyCommitment;
    if index < 0 || index >= tx.inputs {
      return Refused(InputIndex, 0);
    }
    if |tx.spks| != tx.inputs {
      return Refused(SpentOutputs, 0);
    }
    if index >= |tx.witnesses| {
      return Refused(WitnessMissing, 0);
    }
    var items := StripAnnex(tx.witnesses[index].stack);
    if |items| != 3 {
      return Refused(WitnessShape, 0);
    }
    var bad := Taproot.Verify(c, tx.spks[index], items[1], items[2]);
    if bad.Some? {
      return Refused(Commitment(bad.value), 0);
    }
    var limit := LimitFor(tx.witnesses[index].size);
    var budget := new Budget(limit);
    Unguarded(Fresh(limit), CanonicalElement(items[1]).cost);
    var p := DeserializeCanonical(items[1], budget);
    if p.None? {
      return Refused(OutOfBudget, budget.used);
    }
    if p.value.Failure? {
      return Refused(InLeafScript(p.value.error), budget.used);
    }
    Unguarded(budget.View(), CanonicalElement(items[0]).cost);
    var env := DeserializeCanonical(items[0], budget);
    if env.None? {
      return Refused(OutOfBudget, budget.used);
    }
    if env.value.Failure? {
      return Refused(InEnvironment(env.value.error), budget.used);
    }
    var v := Evaluator.Eval(cfg, p.value.value, env.value.value, budget);
    return Judged(v);
  }

  /** Outside every guard nothing can be breached. */
  lemma Unguarded(m: Meter, amount: nat)
    requires m.guards.Outside? && !m.Latched()
    ensures Charge(m, amount).guards.Outside? && !Charge(m, amount).breach && !Charge(m, amount).alloc
  {
  }

  // ----- what two spends have in common -----

  /** The verdict of an outcome reached from a budget already partly used. */
  function VerdictFrom(oc: Outcome, m: Meter): Verdict {
    match oc
    case Ready(v, c, _) => Verdict(Gate(Value(v)), m.used + c, false)
    case Raised(e, c) => Verdict(Failure(e), m.used + c, false)
    case Dead(e, c) => Verdict(Failure(e), m.used + c, false)
    case Out => Verdict(Failure(BudgetExhausted), m.used + m.left, true)
  }

  lemma DirectFrom(cfg: Validator, p: Element, env: Element, m: Meter)
    requires !m.Latched() && m.guards.Outside?
    ensures Run(cfg, Start(p, env, m)) == VerdictFrom(Evaluate(cfg, p, env, m.left), m)
  {
    hide Evaluate;
    EvaluateRefines(cfg, Empty, p, env, m);
  }

  lemma TightensFrom(aware: Validator, p: Element, env: Element, m: Meter)
    requires !m.Latched() && m.guards.Outside?
    ensures var mine, theirs := Judged(Run(aware, Start(p, env, m))), Judged(Run(Opaque(aware), Start(p, env, m)));
      mine.Accepted? || mine.reason.OutOfBudget? ==> mine == theirs
  {
    hide Run, Evaluate;
    DirectFrom(aware, p, env, m);
    DirectFrom(Opaque(aware), p, env, m);
    EvaluateTightens(aware, p, env, m.left);
  }

  /** A spend accepted by a validator that knows the extension is accepted, at the
      same charge, by one that does not: the extension is a soft fork. */
  lemma SoftFork(aware: Validator, c: Taproot.Crypto, tx: Transaction, index: int)
    ensures var mine := SpendOf(aware, c, tx, index);
      mine.Accepted? || mine.reason.OutOfBudget? ==> SpendOf(Opaque(aware), c, tx, index) == mine
  {
    hide WitnessOf;
    if 0 <= index < |tx.witnesses| && index < |tx.spks| {
      WitnessTightens(aware, c, tx.spks[index], tx.witnesses[index]);
    }
  }

  lemma WitnessTightens(aware: Validator, c: Taproot.Crypto, spk: Bytes, w: Witness)
    ensures var mine := WitnessOf(aware, c, spk, w);
      mine.Accepted? || mine.reason.OutOfBudget? ==> WitnessOf(Opaque(aware), c, spk, w) == mine
  {
    hide Run, CanonicalElement, Taproot.VerifyCommitment, Judged;
    var items := StripAnnex(w.stack);
    if |items| == 3 && Taproot.VerifyCommitment(c, spk, items[1], items[2]).None? {
      var p, env := CanonicalElement(items[1]), CanonicalElement(items[0]);
      var m1 := Charge(Fresh(LimitFor(w.size)), p.cost);
      if !m1.Latched() && p.value.Value? {
        var m2 := Charge(m1, env.cost);
        if !m2.Latched() && env.value.Value? {
          TightensFrom(aware, p.value.value, env.value.value, m2);
        }
      }
    }
  }

  lemma ReplaysFrom(cfg: Validator, p: Element, env: Element, used: nat, left: nat, again: nat)
    requires var first := Judged(Run(cfg, Start(p, env, Meter(used, left, Outside, false, false, false))));
      first.Accepted? || !first.reason.OutOfBudget?
    ensures var first := Judged(Run(cfg, Start(p, env, Meter(used, left, Outside, false, false, false))));
      && first.used >= used
      && Judged(Run(cfg, Start(p, env, Meter(used, again, Outside, false, false, false)))) ==
         if used + again < first.used then Refused(OutOfBudget, used + again) else first
  {
    hide Run, Evaluate;
    DirectFrom(cfg, p, env, Meter(used, left, Outside, false, false, false));
    DirectFrom(cfg, p, env, Meter(used, again, Outside, false, false, false));
    EvaluateReplays(cfg, p, env, left, again);
  }

  /** Exact-budget replay of a whole spend: what it was charged is the least budget
      on which it has this verdict, and every smaller one is used up entirely. */
  lemma SpendReplays(cfg: Validator, leaf: Bytes, input: Bytes, limit: nat, again: nat)
    requires Spent(cfg, leaf, input, limit).Accepted? || !Spent(cfg, leaf, input, limit).reason.OutOfBudget?
    ensures var first := Spent(cfg, leaf, input, limit);
      Spent(cfg, leaf, input, again) == if again < first.used then Refused(OutOfBudget, again) else first
  {
    hide Run, CanonicalElement, Judged;
    var p, env := CanonicalElement(leaf), CanonicalElement(input);
    var used := p.cost + env.cost;
    if p.value.Value? && env.value.Value? && used <= limit {
      ReplaysFrom(cfg, p.value.value, env.value.value, used, limit - used, if used <= again then again - used else 0);
    }
  }
}
