/** Evaluation cost accounting (costs.py): the charging constants, the
    value-level budget `Meter`, and the mutable `Budget` object refined to it. */
module Costs {

  // Machine charges: one STEP per continuation pop, one ENV_EDGE per tree edge
  // walked by an environment reference.
  const STEP: nat := 24
  const ENV_EDGE: nat := 3

  const FIX_COLLECT: nat := 152
  const MALLOC_PER_BYTE: nat := 10
  const ELEMENT_ALLOC: nat := 320

  const CONTROL_BASE: nat := 64
  const RC_ARG: nat := 64 + ELEMENT_ALLOC
  const B_ARG: nat := 192 + ELEMENT_ALLOC
  const LOGIC_ARG: nat := 10

  const COMPARE_ARG: nat := 64
  const COMPARE_PER_BYTE: nat := 1
  const LT_NUM_PER_BYTE: nat := 3
  const BIGEQ_PER_NODE: nat := 10
  const STRLEN_ARG: nat := 128

  const CAT_ARG: nat := 96
  const COPY_PER_BYTE: nat := 1
  const SUBSTR_BASE: nat := 64 + ELEMENT_ALLOC

  const ARITH_ARG: nat := 160
  const ARITH_PER_BYTE: nat := 4
  const MULDIV_LIMB_PER_BYTE: nat := 6
  const MUL_PRODUCT_DIV: nat := 8
  const MOD_BASE: nat := 512 + ELEMENT_ALLOC
  const MOD_PER_BYTE: nat := 3
  const SHIFT_BASE: nat := 384 + ELEMENT_ALLOC

  const HASH_ARG: nat := 200
  const HASH_PER_BYTE: nat := 4
  const HASH_BASE: nat := 448 + ELEMENT_ALLOC

  const RD_BASE: nat := 192
  const RD_PER_ELEMENT: nat := 16 + ELEMENT_ALLOC
  const RD_PER_BYTE: nat := 4
  const WR_BASE: nat := 224 + ELEMENT_ALLOC
  const WR_PER_ELEMENT: nat := 4
  const WR_PER_BYTE: nat := 1

  const GUARD: nat := 56

  const BUDGET_BASE: nat := 28000
  const BUDGET_PER_WITNESS_BYTE: nat := 560
  const DEFAULT_BUDGET: nat := 0x4000_0000_0000_0000
  const MAX_BLOCK_WEIGHT: nat := 4000000
  const BUDGET_MAX: nat := BUDGET_BASE + BUDGET_PER_WITNESS_BYTE * MAX_BLOCK_WEIGHT
  const ELEMENT_ALLOCATION_LIMIT: nat := 187_000_000

  /** The scan charge for reading an atom of the given width as an integer. */
  function AtomScan(width: nat): nat {
    if width <= 8 then 0 else width
  }

  function Max(a: nat, b: nat): nat {
    if a < b then b else a
  }

  function Min(a: nat, b: nat): nat {
    if a < b then a else b
  }

  /** The work charge of one multiplication fold over two operand widths. */
  function MulFoldWork(left: nat, right: nat): nat {
    ARITH_PER_BYTE * (left + right) + MULDIV_LIMB_PER_BYTE * Max(left, right) + left * right / MUL_PRODUCT_DIV
  }

  /** The open softfork guards, innermost first: what each has spent of its
      allowance and what it has left. */
  datatype Guards = Outside | Within(used: nat, left: nat, outer: Guards)

  /** A budget value: what is spent and left outside the guards, the guards, and
      the three latches. The granted limit is used + left. */
  datatype Meter = Meter(
    used: nat,
    left: nat,
    guards: Guards,
    exhausted: bool,
    breach: bool,
    alloc: bool)
  {
    predicate Latched() {
      exhausted || breach || alloc
    }
  }

  function Fresh(limit: nat): Meter {
    Meter(0, limit, Outside, false, false, false)
  }

  /** What the next charge may spend: the innermost allowance, else the budget. */
  function Avail(m: Meter): nat {
    if m.guards.Within? then m.guards.left else m.left
  }

  function Spend(m: Meter, amount: nat): Meter
    requires amount <= Avail(m)
  {
    match m.guards
    case Outside => m.(used := m.used + amount, left := m.left - amount)
    case Within(u, l, outer) => m.(guards := Within(u + amount, l - amount, outer))
  }

  /** Budget.charge: the charge succeeded exactly when the result is unlatched. */
  function Charge(m: Meter, amount: nat): Meter {
    if m.Latched() then m
    else if amount <= Avail(m) then Spend(m, amount)
    else if m.guards.Within? then m.(breach := true)
    else m.(exhausted := true, used := m.used + m.left, left := 0)
  }

  function PushAllowance(m: Meter, allowed: nat): Meter {
    m.(guards := Within(0, allowed, m.guards))
  }

  function PopAllowance(m: Meter): Meter
    requires m.guards.Within?
  {
    m.(guards := m.guards.outer)
  }

  function ClearAllowances(m: Meter): Meter {
    m.(guards := Outside, breach := false)
  }

  /** A row of charges ends like one charge of their sum: the same latches, and
      the same budget once the open guards are abandoned, which is what a
      breach leads to. So an operation that only stops at a failed charge is
      described by the sum of its charges. */
  lemma ChargeSum(m: Meter, a: nat, b: nat)
    ensures var split, sum := Charge(Charge(m, a), b), Charge(m, a + b);
      && split.exhausted == sum.exhausted && split.breach == sum.breach && split.alloc == sum.alloc
      && ClearAllowances(split) == ClearAllowances(sum)
      && (!sum.Latched() ==> split == sum)
  {
  }

  function Unspent(g: Guards): nat {
    match g
    case Outside => 0
    case Within(_, left, outer) => left + Unspent(outer)
  }

  /** All the money left anywhere: outside and inside the open guards. */
  function Money(m: Meter): nat {
    m.left + Unspent(m.guards)
  }
}
