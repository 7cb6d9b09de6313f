/** Which spends are accepted, and at what charge (spend.py, verify_spend). */
module SpendAcceptance {
  import opened Integers
  import opened Costs
  import opened Elements
  import opened Machine
  import opened BigStep
  import opened Replay
  import opened Canonical
  import opened SpendValidation
  import O = Opcodes
  import Taproot

  /** On every budget the program comes to this result at the cost n, or uses the
      budget up. */
  ghost predicate ComesAt(cfg: Validator, p: Element, e: Element, r: Result, n: nat) {
    forall limit: nat ::
      Run(cfg, Machine.Start(p, e, limit)) ==
      if limit < n then Verdict(Failure(BudgetExhausted), limit, true) else Verdict(r, n, false)
  }

  /** What decoding the encoding of an element costs. */
  function DecodingPrice(e: Element): nat {
    RD_BASE + RD_PER_ELEMENT * Nodes(e) + (RD_PER_BYTE + MALLOC_PER_BYTE) * Payload(e)
  }

  /** What a spend comes down to: the items of its witness, the program and the
      environment they encode, and the result with its cost. */
  datatype Grounds = Grounds(input: Bytes, leaf: Bytes, control: Bytes, p: Element, e: Element, r: Result, n: nat)

  /** Environment, leaf script and control block, with an annex behind them or none. */
  predicate Presents(stack: seq<Bytes>, g: Grounds) {
    || stack == [g.input, g.leaf, g.control]
    || (|stack| == 4 && stack[..3] == [g.input, g.leaf, g.control] && stack[3] != [] && stack[3][0] == 0x50)
  }

  /** What decoding and evaluating cost. */
  function Price(g: Grounds): nat {
    DecodingPrice(g.p) + DecodingPrice(g.e) + g.n
  }

  ghost predicate Grounded(cfg: Validator, c: Taproot.Crypto, spk: Bytes, w: Witness, g: Grounds) {
    && Presents(w.stack, g)
    && Taproot.VerifyCommitment(c, spk, g.leaf, g.control).None?
    && Encodes(g)
    && ComesAt(cfg, g.p, g.e, g.r, g.n)
  }

  /** Leaf script and environment are canonical encodings. */
  predicate Encodes(g: Grounds) {
    Encodable(g.p) && g.leaf == Serialized(g.p) && Encodable(g.e) && g.input == Serialized(g.e)
  }

  /** What the witness pays for, at most what fits a block. */
  predicate Affords(w: Witness, price: nat) {
    price <= BUDGET_BASE + BUDGET_PER_WITNESS_BYTE * w.size && price <= BUDGET_MAX
  }

  // ----- decoding -----

  lemma DecodesAt(b: Bytes, e: Element)
    requires Encodable(e) && b == Serialized(e)
    ensures CanonicalElement(b) == Metered(DecodingPrice(e), Value(e))
  {
    hide Canon, Serialized;
    assert b[0..|b|] == b;
    EncodingAccepted(e, b, 0, O.RD_RATES);
  }

  // ----- evaluating -----

  lemma ComesAtOf(cfg: Validator, p: Element, e: Element, rem: nat, v: Element, n: nat, fin: bool)
    requires Evaluate(cfg, p, e, rem) == Ready(v, n, fin) && IsBll(v)
    ensures ComesAt(cfg, p, e, Value(v), n)
  {
    hide Evaluate, Run;
    forall limit: nat
      ensures Run(cfg, Machine.Start(p, e, limit)) ==
              if limit < n then Verdict(Failure(BudgetExhausted), limit, true) else Verdict(Value(v), n, false)
    {
      EvaluateReplays(cfg, p, e, rem, limit);
      MachineIsDirect(cfg, p, e, limit);
    }
  }

  function From(used: nat, left: nat): Meter {
    Meter(used, left, Outside, false, false, false)
  }

  /** An evaluation that starts with part of the budget used. */
  lemma RunsFrom(cfg: Validator, p: Element, e: Element, used: nat, left: nat, r: Result, n: nat)
    requires ComesAt(cfg, p, e, r, n)
    ensures Run(cfg, SpendValidation.Start(p, e, From(used, left))) ==
            if left < n then Verdict(Failure(BudgetExhausted), used + left, true) else Verdict(r, used + n, false)
  {
    hide Evaluate, Run;
    DirectFrom(cfg, p, e, From(used, left));
    MachineIsDirect(cfg, p, e, left);
  }

  lemma JudgedFrom(cfg: Validator, p: Element, e: Element, used: nat, left: nat, u: nat) returns (v: Element, n: nat)
    requires Judged(Run(cfg, SpendValidation.Start(p, e, From(used, left)))) == Accepted(u)
    ensures ComesAt(cfg, p, e, Value(v), n) && v != Nil && n <= left && u == used + n
  {
    hide Evaluate, Run, ComesAt;
    DirectFrom(cfg, p, e, From(used, left));
    var oc := Evaluate(cfg, p, e, left);
    v, n := oc.value, oc.cost;
    ComesAtOf(cfg, p, e, left, v, n, oc.fin);
  }

  // ----- the witness -----

  /** A control block that verifies is no annex. */
  lemma ControlIsNoAnnex(c: Taproot.Crypto, spk: Bytes, leaf: Bytes, control: Bytes)
    requires Taproot.VerifyCommitment(c, spk, leaf, control).None?
    ensures control != [] && control[0] != 0x50
  {
    hide Taproot.Climb, Taproot.LeafHash;
  }

  lemma Stripped(stack: seq<Bytes>, g: Grounds)
    requires Presents(stack, g) && g.control != [] && g.control[0] != 0x50
    ensures StripAnnex(stack) == [g.input, g.leaf, g.control]
  {
  }

  lemma SpentVerdict(cfg: Validator, g: Grounds, limit: nat)
    requires Encodes(g) && ComesAt(cfg, g.p, g.e, g.r, g.n)
    ensures Spent(cfg, g.leaf, g.input, limit) ==
            if Price(g) > limit then Refused(OutOfBudget, limit)
            else if g.r.Failure? then Refused(Evaluation(g.r.error), Price(g))
            else if g.r.value == Nil then Refused(NilResult, Price(g))
            else Accepted(Price(g))
  {
    hide Run, CanonicalElement, Serialized, DecodingPrice, ComesAt;
    DecodesAt(g.leaf, g.p);
    DecodesAt(g.input, g.e);
    var used := DecodingPrice(g.p) + DecodingPrice(g.e);
    if used <= limit {
      RunsFrom(cfg, g.p, g.e, used, limit - used, g.r, g.n);
    }
  }

  /** The verdict on a spend that is in order up to its evaluation. */
  lemma GroundedVerdict(cfg: Validator, c: Taproot.Crypto, spk: Bytes, w: Witness, g: Grounds)
    requires Grounded(cfg, c, spk, w, g)
    ensures var r := WitnessOf(cfg, c, spk, w);
      if !Affords(w, Price(g)) then r.Refused? && r.reason == OutOfBudget
      else if g.r.Failure? then r == Refused(Evaluation(g.r.error), Price(g))
      else if g.r.value == Nil then r == Refused(NilResult, Price(g))
      else r == Accepted(Price(g))
  {
    hide Taproot.VerifyCommitment, Spent, Encodes, Price, ComesAt, StripAnnex, Presents;
    ControlIsNoAnnex(c, spk, g.leaf, g.control);
    Stripped(w.stack, g);
    SpentVerdict(cfg, g, LimitFor(w.size));
  }

  lemma WitnessGrounds(cfg: Validator, c: Taproot.Crypto, spk: Bytes, w: Witness, u: nat) returns (g: Grounds)
    requires WitnessOf(cfg, c, spk, w) == Accepted(u)
    ensures Grounded(cfg, c, spk, w, g) && Affords(w, Price(g))
    ensures g.r.Value? && g.r.value != Nil && u == Price(g)
  {
    hide Taproot.VerifyCommitment, Run, CanonicalElement, Serialized, Judged, DecodingPrice, ComesAt;
    var items := StripAnnex(w.stack);
    var input, leaf, limit := items[0], items[1], LimitFor(w.size);
    var p, e := CanonicalElement(leaf).value.value, CanonicalElement(input).value.value;
    CodecBijection(leaf, p);
    CodecBijection(input, e);
    DecodesAt(leaf, p);
    DecodesAt(input, e);
    var used := DecodingPrice(p) + DecodingPrice(e);
    var v, n := JudgedFrom(cfg, p, e, used, limit - used, u);
    g := Grounds(input, leaf, items[2], p, e, Value(v), n);
    assert items == [input, leaf, items[2]];
  }

  /** A spend is accepted at the charge u exactly when the index, the spent outputs and
      the witness are in range, the witness is environment, leaf script and control
      block with an annex or none, the commitment is accepted, leaf script and
      environment are canonical encodings, the program comes to a value other than
      nil, and u is the price of decoding and evaluating, which the witness pays for
      and a block could. */
  lemma AcceptedExactly(cfg: Validator, c: Taproot.Crypto, tx: Transaction, index: int, u: nat)
    ensures SpendOf(cfg, c, tx, index) == Accepted(u) <==>
            && 0 <= index < tx.inputs == |tx.spks| && index < |tx.witnesses|
            && exists g ::
              && Grounded(cfg, c, tx.spks[index], tx.witnesses[index], g)
              && g.r.Value? && g.r.value != Nil
              && u == Price(g) && Affords(tx.witnesses[index], Price(g))
  {
    hide WitnessOf, Grounded, Affords, Price;
    if 0 <= index < tx.inputs == |tx.spks| && index < |tx.witnesses| {
      var spk, w := tx.spks[index], tx.witnesses[index];
      if WitnessOf(cfg, c, spk, w) == Accepted(u) {
        var g := WitnessGrounds(cfg, c, spk, w, u);
      }
      if g :| Grounded(cfg, c, spk, w, g) && g.r.Value? && g.r.value != Nil && u == Price(g) && Affords(w, Price(g)) {
        GroundedVerdict(cfg, c, spk, w, g);
      }
    }
  }
}
