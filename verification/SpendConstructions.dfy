/** What a whole spend constructs, decoding and evaluation together: the span the
    allocation cap counts. */
module SpendConstructions {
  import opened Integers
  import opened Costs
  import opened Elements
  import opened Opcodes
  import opened StandardRules
  import opened Counters
  import opened Machine
  import opened Canonical
  import opened Constructions
  import opened SpendValidation
  import opened BllClosure

  /** Elements constructed by verify_spend on these witness items, wherever it
      stops. */
  function SpendMakes(o: Oracle, x: Externals, aware: bool, leaf: Bytes, input: Bytes, limit: nat): nat {
    var p := CanonicalElement(leaf);
    DecodeMakes(leaf, limit) +
    if p.cost > limit || p.value.Failure? then 0
    else
      var env, rest := CanonicalElement(input), limit - p.cost;
      DecodeMakes(input, rest) +
      if env.cost > rest || env.value.Failure? then 0
      else EvaluationMakes(o, x, aware, p.value.value, env.value.value, Decoded(p.cost + env.cost, rest - env.cost))
  }

  /** The budget after decoding. */
  function Decoded(used: nat, left: nat): Meter {
    Meter(used, left, Outside, false, false, false)
  }

  /** What a spend constructs is covered by what it is charged. */
  lemma SpendCovered(o: Oracle, x: Externals, aware: bool, leaf: Bytes, input: Bytes, limit: nat)
    requires Covered(o, x) && Harmless(o) && limit <= BUDGET_MAX
    ensures var used := Spent(Standard(o, aware), leaf, input, limit).used;
      used <= limit && 12 * SpendMakes(o, x, aware, leaf, input, limit) <= used + 48
  {
    hide EvaluationMakes, Run, CanonicalElement, DecodeMakes, Covered, Harmless;
    var p := CanonicalElement(leaf);
    DecodeCovered(leaf, limit);
    if p.cost <= limit && p.value.Value? {
      var env, rest := CanonicalElement(input), limit - p.cost;
      EncodableIsBll(leaf, p.value.value);
      DecodeCovered(input, rest);
      if env.cost <= rest && env.value.Value? {
        EncodableIsBll(input, env.value.value);
        EvaluationCovered(o, x, aware, p.value.value, env.value.value, p.cost + env.cost, rest - env.cost);
      }
    }
  }

  /** The evaluation, after decoding. */
  lemma EvaluationCovered(o: Oracle, x: Externals, aware: bool, p: Element, env: Element, used: nat, left: nat)
    requires Covered(o, x) && Harmless(o) && used + left <= BUDGET_MAX && IsBll(p) && IsBll(env)
    ensures var total := Run(Standard(o, aware), SpendValidation.Start(p, env, Decoded(used, left))).used;
      && total <= used + left
      && 12 * EvaluationMakes(o, x, aware, p, env, Decoded(used, left)) <= total - used + 48
  {
    hide EvaluationMakes, Run, Covered, Harmless;
    ConstructionsBounded(o, x, aware, p, env, Decoded(used, left));
    UsedWithin(Standard(o, aware), SpendValidation.Start(p, env, Decoded(used, left)));
  }

  /** The amortised bound of a spend, refused ones included: at most two elements
      for every STEP charged and four more, and so, on the largest budget a block
      can buy, fewer than the allocation cap. Exhaustion always comes first. */
  lemma CapNeverReached(o: Oracle, x: Externals, aware: bool, leaf: Bytes, input: Bytes, limit: nat)
    requires Covered(o, x) && Harmless(o) && limit <= BUDGET_MAX
    ensures var made := SpendMakes(o, x, aware, leaf, input, limit);
      var used := Spent(Standard(o, aware), leaf, input, limit).used;
      used <= limit && made <= 2 * used / STEP + 4 && made < ELEMENT_ALLOCATION_LIMIT
  {
    hide SpendMakes, Spent, Covered, Harmless;
    SpendCovered(o, x, aware, leaf, input, limit);
  }

  // ----- the hypotheses on the oracle -----

  /** An oracle that collects the arguments of the opcodes it answers for on a list,
      newest first, one charged element each, and delivers the list. */
  function Collector(digest: (HashKind, Bytes) -> Bytes): Oracle {
    Oracle(digest, (num, list, arg) => Metered(ELEMENT_ALLOC, Some(Cons(arg, list))),
        (num, list) => Metered(0, Some(list)))
  }

  function CollectorMakes(): Externals {
    Externals((num, list, arg, avail) => if avail < ELEMENT_ALLOC then 0 else 1, (num, list, avail) => 0)
  }

  /** What the theorems ask of an oracle can be met, by all of them together. */
  lemma HypothesesMet(digest: (HashKind, Bytes) -> Bytes)
    ensures Plain(Collector(digest)) && Harmless(Collector(digest)) && Covered(Collector(digest), CollectorMakes())
  {
  }
}
