/** The mutable budget object of costs.py, refined to the value-level `Meter`. */
module Budgets {
  import opened Costs

  /** One open guard: what was prepaid and what is spent of it. */
  datatype Allowance = Allowance(allowed: nat, used: nat)

  ghost predicate Sound(allowances: seq<Allowance>) {
    forall i | 0 <= i < |allowances| :: allowances[i].used <= allowances[i].allowed
  }

  /** The guards of an allowance list, whose last entry is the innermost. */
  ghost function GuardsOf(allowances: seq<Allowance>): Guards
    requires Sound(allowances)
  {
    if allowances == [] then Outside
    else
      var top := allowances[|allowances| - 1];
      Within(top.used, top.allowed - top.used, GuardsOf(allowances[..|allowances| - 1]))
  }

  lemma GuardsPush(allowances: seq<Allowance>, a: Allowance)
    requires Sound(allowances) && a.used <= a.allowed
    ensures Sound(allowances + [a])
    ensures GuardsOf(allowances + [a]) == Within(a.used, a.allowed - a.used, GuardsOf(allowances))
  {
    assert (allowances + [a])[..|allowances|] == allowances;
  }

  /** The spendable allowance of one evaluation. */
  class Budget {
    const limit: nat
    var used: nat
    var exhausted: bool
    var allowances: seq<Allowance>
    var guardBreach: bool
    var allocBreach: bool

    ghost predicate Valid()
      reads this
    {
      used <= limit && Sound(allowances)
    }

    ghost function View(): Meter
      reads this
      requires Valid()
    {
      Meter(used, limit - used, GuardsOf(allowances), exhausted, guardBreach, allocBreach)
    }

    constructor (limit: nat)
      ensures Valid() && View() == Fresh(limit)
    {
      this.limit := limit;
      used := 0;
      exhausted := false;
      allowances := [];
      guardBreach := false;
      allocBreach := false;
    }

    predicate Latched()
      reads this
    {
      exhausted || guardBreach || allocBreach
    }

    /** Spends amount, against the innermost guard allowance if one is open, else
        against the budget itself. */
    method Charge(amount: nat) returns (ok: bool)
      requires Valid()
      modifies this
      ensures Valid() && View() == Costs.Charge(old(View()), amount)
      ensures ok == !View().Latched()
    {
      if exhausted || guardBreach || allocBreach {
        return false;
      }
      if allowances != [] {
        var top := |allowances| - 1;
        var a := allowances[top];
        if amount > a.allowed - a.used {
          guardBreach := true;
          return false;
        }
        GuardsPush(allowances[..top], Allowance(a.allowed, a.used + amount));
        assert allowances[top := Allowance(a.allowed, a.used + amount)]
            == allowances[..top] + [Allowance(a.allowed, a.used + amount)];
        allowances := allowances[top := Allowance(a.allowed, a.used + amount)];
        return true;
      }
      if amount > limit - used {
        exhausted := true;
        used := limit;
        return false;
      }
      used := used + amount;
      return true;
    }

    method PushAllowance(allowed: nat)
      requires Valid()
      modifies this
      ensures Valid() && View() == Costs.PushAllowance(old(View()), allowed)
    {
      GuardsPush(allowances, Allowance(allowed, 0));
      allowances := allowances + [Allowance(allowed, 0)];
    }

    /** Closes the innermost guard and says whether it was spent exactly. */
    method PopAllowance() returns (exact: bool)
      requires Valid() && allowances != []
      modifies this
      ensures Valid() && View() == Costs.PopAllowance(old(View()))
      ensures exact == (Avail(old(View())) == 0)
    {
      var a := allowances[|allowances| - 1];
      allowances := allowances[..|allowances| - 1];
      exact := a.used == a.allowed;
    }

    method ClearAllowances()
      requires Valid()
      modifies this
      ensures Valid() && View() == Costs.ClearAllowances(old(View()))
    {
      allowances := [];
      guardBreach := false;
    }

    method LatchAllocBreach()
      requires Valid()
      modifies this
      ensures Valid() && View() == old(View()).(alloc := true)
    {
      allocBreach := true;
    }
  }
}
