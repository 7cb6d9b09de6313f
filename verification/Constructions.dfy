/** How many elements an evaluation constructs, against what it charges
    (costs.py, ELEMENT_ALLOCATION_LIMIT). Every function says what is built with
    some money available: everything, or what comes before the first charge that
    fails. The nil and one in frames are interned and never counted; a state or
    result that happens to be one of them is. */
module Constructions {
  import opened Integers
  import opened Costs
  import opened Elements
  import opened OpTable
  import opened Opcodes
  import opened StandardRules
  import opened Counters
  import opened PaidCounters
  import opened Machine
  import opened Canonical
  import Codec

  /** What the opcodes not described here construct with that much money available: a
      state or an error for an argument, a result at finish, and whatever else
      their charges cover. */
  datatype Externals = Externals(feed: (nat, Element, Element, nat) -> nat, done: (nat, Element, nat) -> nat)

  ghost predicate Covered(o: Oracle, x: Externals) {
    && (forall n, s, a, avail :: 12 * x.feed(n, s, a, avail) <= 24 + Min(o.feed(n, s, a).cost, avail))
    && (forall n, s, avail :: 12 * x.done(n, s, avail) <= 12 + Min(o.done(n, s).cost, avail))
  }

  // ----- decoding -----

  /** The nodes rd builds: an atom once its charge is paid, a pair once both its
      sides are built. */
  function NodesRead(b: Bytes, i: nat, avail: nat): nat
    requires i <= |b|
    decreases |b| - i
  {
    var d := Codec.Decode(b, i, RD_RATES);
    if i == |b| || avail < RD_PER_ELEMENT then 0
    else if b[i] != 0xff then if d.value.Got? && d.cost <= avail then 1 else 0
    else
      var l, rest := Codec.Decode(b, i + 1, RD_RATES), avail - RD_PER_ELEMENT;
      NodesRead(b, i + 1, rest) +
      if !l.value.Got? || l.cost > rest then 0
      else NodesRead(b, l.value.next, rest - l.cost) + if d.value.Got? && d.cost <= avail then 1 else 0
  }

  /** rd: the nodes, the error element of an oversized marker, the error of an
      input that is cut short or not used up. */
  function RdMakes(b: Bytes, avail: nat): nat {
    if avail < RD_BASE then 0
    else
      var d, rest := Codec.Decode(b, 0, RD_RATES), avail - RD_BASE;
      NodesRead(b, 0, rest)
      + (if d.value.Stopped? && d.cost <= rest then 1 else 0)
      + (if (d.value.Bad? || d.value.next != |b|) && Codec.Deserialize(b, RD_RATES).cost <= rest then 1 else 0)
  }

  /** The nodes the canonical decoder builds, in the same order. */
  function NodesDecoded(b: Bytes, i: nat, avail: nat): nat
    requires i <= |b|
    decreases |b| - i
  {
    var d := Canon(b, i, RD_RATES);
    if i == |b| || avail < RD_PER_ELEMENT then 0
    else if b[i] != 0xff then if d.value.Got? && d.cost <= avail then 1 else 0
    else
      var l, rest := Canon(b, i + 1, RD_RATES), avail - RD_PER_ELEMENT;
      NodesDecoded(b, i + 1, rest) +
      if !l.value.Got? || l.cost > rest then 0
      else NodesDecoded(b, l.value.next, rest - l.cost) + if d.value.Got? && d.cost <= avail then 1 else 0
  }

  /** deserialize_canonical: the nodes, and the error of a refused input. */
  function DecodeMakes(b: Bytes, avail: nat): nat {
    if avail < RD_BASE then 0
    else
      NodesDecoded(b, 0, avail - RD_BASE)
      + if CanonicalElement(b).value.Failure? && CanonicalElement(b).cost <= avail then 1 else 0
  }

  /** What a charge of rd's element rate precedes. */
  lemma ReadingPays(b: Bytes, i: nat)
    requires i < |b|
    ensures var d := Codec.Decode(b, i, RD_RATES);
      if b[i] != 0xff then d.value.Got? ==> d.cost >= RD_PER_ELEMENT && !d.value.e.Cons?
      else
        var l := Codec.Decode(b, i + 1, RD_RATES);
        && d.cost >= RD_PER_ELEMENT + l.cost && (d.value.Got? ==> l.value.Got?)
        && (l.value.Got? ==>
              var r := Codec.Decode(b, l.value.next, RD_RATES);
              && d.cost == RD_PER_ELEMENT + l.cost + r.cost
              && (d.value.Got? ==> r.value.Got? && d.value.e == Cons(l.value.e, r.value.e)))
  {
    hide Codec.Bill;
  }

  lemma DecodingPays(b: Bytes, i: nat)
    requires i < |b|
    ensures var d := Canon(b, i, RD_RATES);
      if b[i] != 0xff then d.value.Got? ==> d.cost >= RD_PER_ELEMENT && !d.value.e.Cons?
      else
        var l := Canon(b, i + 1, RD_RATES);
        && d.cost >= RD_PER_ELEMENT + l.cost && (d.value.Got? ==> l.value.Got?)
        && (l.value.Got? ==>
              var r := Canon(b, l.value.next, RD_RATES);
              && d.cost == RD_PER_ELEMENT + l.cost + r.cost
              && (d.value.Got? ==> r.value.Got? && d.value.e == Cons(l.value.e, r.value.e)))
  {
    hide Codec.Bill;
  }

  /** Every node is paid for before it is built, also when a later charge fails. */
  lemma {:induction false} NodesReadCovered(b: Bytes, i: nat, avail: nat)
    requires i <= |b|
    ensures RD_PER_ELEMENT * NodesRead(b, i, avail) <= Min(Codec.Decode(b, i, RD_RATES).cost, avail)
    decreases |b| - i
  {
    hide Codec.Decode;
    if i < |b| && avail >= RD_PER_ELEMENT {
      ReadingPays(b, i);
      if b[i] == 0xff {
        var l, rest := Codec.Decode(b, i + 1, RD_RATES), avail - RD_PER_ELEMENT;
        NodesReadCovered(b, i + 1, rest);
        if l.value.Got? && l.cost <= rest {
          NodesReadCovered(b, l.value.next, rest - l.cost);
        }
      }
    }
  }

  lemma {:induction false} NodesDecodedCovered(b: Bytes, i: nat, avail: nat)
    requires i <= |b|
    ensures RD_PER_ELEMENT * NodesDecoded(b, i, avail) <= Min(Canon(b, i, RD_RATES).cost, avail)
    decreases |b| - i
  {
    hide Canon;
    if i < |b| && avail >= RD_PER_ELEMENT {
      DecodingPays(b, i);
      if b[i] == 0xff {
        var l, rest := Canon(b, i + 1, RD_RATES), avail - RD_PER_ELEMENT;
        NodesDecodedCovered(b, i + 1, rest);
        if l.value.Got? && l.cost <= rest {
          NodesDecodedCovered(b, l.value.next, rest - l.cost);
        }
      }
    }
  }

  lemma RdCovered(b: Bytes, avail: nat)
    ensures 12 * RdMakes(b, avail) <= Min(DoRd(Atom(b)).cost, avail)
  {
    hide Codec.Decode, NodesRead, Codec.Bill;
    if avail >= RD_BASE {
      NodesReadCovered(b, 0, avail - RD_BASE);
    }
  }

  lemma DecodeCovered(b: Bytes, avail: nat)
    ensures 12 * DecodeMakes(b, avail) <= Min(CanonicalElement(b).cost, avail)
  {
    hide Canon, NodesDecoded;
    if avail >= RD_BASE {
      NodesDecodedCovered(b, 0, avail - RD_BASE);
    }
  }

  lemma NotEmptyRead(b: Bytes, i: nat)
    requires i <= |b| && Codec.Decode(b, i, RD_RATES).value.Got?
    ensures i < |b|
  {
  }

  lemma NotEmptyDecoded(b: Bytes, i: nat)
    requires i <= |b| && Canon(b, i, RD_RATES).value.Got?
    ensures i < |b|
  {
  }

  lemma NodesOf(e: Element)
    ensures Nodes(e) == if e.Cons? then Nodes(e.left) + (Nodes(e.right) + 1) else 1
  {
  }

  /** With the money to finish, rd builds exactly the nodes of what it delivers. */
  lemma {:induction false} NodesReadExactly(b: Bytes, i: nat, avail: nat)
    requires i <= |b| && Codec.Decode(b, i, RD_RATES).value.Got? && Codec.Decode(b, i, RD_RATES).cost <= avail
    ensures NodesRead(b, i, avail) == Nodes(Codec.Decode(b, i, RD_RATES).value.e)
    decreases |b| - i
  {
    hide Codec.Decode, Nodes, NodesRead;
    NotEmptyRead(b, i);
    ReadingPays(b, i);
    NodesReadOf(b, i, avail);
    var d := Codec.Decode(b, i, RD_RATES);
    NodesOf(d.value.e);
    if b[i] == 0xff {
      var l, rest := Codec.Decode(b, i + 1, RD_RATES), avail - RD_PER_ELEMENT;
      var next, left := l.value.next, rest - l.cost;
      NodesReadExactly(b, i + 1, rest);
      NodesReadExactly(b, next, left);
    }
  }

  lemma NodesReadOf(b: Bytes, i: nat, avail: nat)
    requires i < |b| && Codec.Decode(b, i, RD_RATES).value.Got? && Codec.Decode(b, i, RD_RATES).cost <= avail
    requires avail >= RD_PER_ELEMENT
    ensures if b[i] != 0xff then NodesRead(b, i, avail) == 1
      else
        var l := Codec.Decode(b, i + 1, RD_RATES);
        l.value.Got? && l.cost <= avail - RD_PER_ELEMENT ==>
          NodesRead(b, i, avail) ==
          NodesRead(b, i + 1, avail - RD_PER_ELEMENT) +
          (NodesRead(b, l.value.next, avail - RD_PER_ELEMENT - l.cost) + 1)
  {
    hide Codec.Decode;
  }

  lemma {:induction false} NodesDecodedExactly(b: Bytes, i: nat, avail: nat)
    requires i <= |b| && Canon(b, i, RD_RATES).value.Got? && Canon(b, i, RD_RATES).cost <= avail
    ensures NodesDecoded(b, i, avail) == Nodes(Canon(b, i, RD_RATES).value.e)
    decreases |b| - i
  {
    hide Canon, Nodes, NodesDecoded;
    NotEmptyDecoded(b, i);
    DecodingPays(b, i);
    NodesDecodedOf(b, i, avail);
    var d := Canon(b, i, RD_RATES);
    NodesOf(d.value.e);
    if b[i] == 0xff {
      var l, rest := Canon(b, i + 1, RD_RATES), avail - RD_PER_ELEMENT;
      var next, left := l.value.next, rest - l.cost;
      NodesDecodedExactly(b, i + 1, rest);
      NodesDecodedExactly(b, next, left);
    }
  }

  lemma NodesDecodedOf(b: Bytes, i: nat, avail: nat)
    requires i < |b| && Canon(b, i, RD_RATES).value.Got? && Canon(b, i, RD_RATES).cost <= avail
    requires avail >= RD_PER_ELEMENT
    ensures if b[i] != 0xff then NodesDecoded(b, i, avail) == 1
      else
        var l := Canon(b, i + 1, RD_RATES);
        l.value.Got? && l.cost <= avail - RD_PER_ELEMENT ==>
          NodesDecoded(b, i, avail) ==
          NodesDecoded(b, i + 1, avail - RD_PER_ELEMENT) +
          (NodesDecoded(b, l.value.next, avail - RD_PER_ELEMENT - l.cost) + 1)
  {
    hide Canon;
  }

  // ----- one step -----

  /** The merges of one more argument to a binary counter. */
  function Carries(n: nat, trees: seq<Element>): (r: nat)
    ensures r <= |trees|
    decreases |trees|
  {
    if n % 2 == 1 && trees != [] then 1 + Carries(n / 2, trees[1..]) else 0
  }

  function AllNodes(trees: seq<Element>): nat {
    if trees == [] then 0 else Nodes(trees[0]) + AllNodes(trees[1..])
  }

  /** Every merge builds one pair, and nothing else is built of the trees. */
  lemma {:induction false} CarriesBuild(n: nat, v: Element, trees: seq<Element>)
    ensures AllNodes(Carry(n, v, trees)) == Nodes(v) + AllNodes(trees) + Carries(n, trees)
    decreases |trees|
  {
    if n % 2 == 1 && trees != [] {
      CarriesBuild(n / 2, Cons(trees[0], v), trees[1..]);
    } else {
      assert ([v] + trees)[1..] == trees;
    }
  }

  /** Gathering trees builds one pair fewer than there are trees. */
  lemma {:induction false} GatherBuilds(tree: Element, rest: seq<Element>)
    ensures Nodes(Gather(tree, rest)) == Nodes(tree) + AllNodes(rest) + |rest|
    decreases |rest|
  {
    if rest != [] {
      GatherBuilds(Cons(rest[0], tree), rest[1..]);
    }
  }

  /** The elements of a new opcode state. */
  function StateMakes(b: Bound): nat {
    match b
    case Collect(_, _) => 3
    case Spine(_) => 2
    case Counter(n, trees) => 3 + Carries(n, trees)
    case Flag(_, _) => 1
    case Length(_) => 1
    case Joined(_) => 1
    case Sum(_) => 1
    case Product(_) => 1
    case Midstate(_, _) => 0
    case Tally(_, _, _, _, _) => 0
    case _ => 2
  }

  /** fn_op.feed: the state in a function object, or an error in a fin frame. */
  function FeedMakes(o: Oracle, x: Externals, b: Bound, arg: Element, avail: nat): nat {
    var fed := Feed(o, b, arg);
    if b.External? then x.feed(b.num, b.state, arg, avail) + if fed.cost <= avail then 1 else 0
    else if fed.cost > avail then 0
    else if fed.value.Next? then StateMakes(b) + 1 else 2
  }

  /** The result of a finished opcode, errors included. Gathering trees pays for
      each pair before it is built. */
  function ResultMakes(o: Oracle, x: Externals, b: Bound, avail: nat): nat {
    var paid := if Opcodes.Finish(o, b).cost <= avail then 1 else 0;
    match b
    case Collect(op, args) => if op.OpRd? && |args| >= 1 && args[0].Atom? then RdMakes(args[0].bytes, avail) else paid
    case Counter(_, trees) => if trees == [] then 0 else Min(|trees| - 1, avail / ELEMENT_ALLOC)
    case Minus(_) => paid
    case Midstate(_, _) => paid
    case Tally(_, _, _, _, _) => paid
    case External(num, s) => x.done(num, s, avail)
    case _ => 0
  }

  /** The feedback methods: an error message and its fin frame, or the new state in
      a frame. Apply's second value goes into two conses; a rebound function is
      fed before its wrapper is paid for. */
  function ReceiveMakes(o: Oracle, x: Externals, fn: Fn, v: Element, avail: nat): nat {
    match fn
    case Quote => 2
    case Apply(Program(_)) => 3
    case Apply(_) => 2
    case Softfork(_) => 2
    case Op(b) => FeedMakes(o, x, b, v, avail)
    case Partial(None) => if BindTarget(v, false).cost <= avail then 3 else 0
    case Partial(Some(b)) =>
      var fed := Feed(o, b, v);
      FeedMakes(o, x, b, v, avail) + if fed.value.Next? && fed.cost + ELEMENT_ALLOC <= avail then 1 else 0
  }

  function DeliverMakes(o: Oracle, x: Externals, top: Frame, v: Element, avail: nat): nat {
    match top
    case Call(fn, args, env) => ReceiveMakes(o, x, fn, v, avail)
    case _ => 2
  }

  function FeedbackMakes(o: Oracle, x: Externals, K: Stack, r: Result, avail: nat): nat {
    if r.Failure? || K.Empty? then 1
    else if avail < STEP then 0
    else DeliverMakes(o, x, K.top, r.value, avail - STEP)
  }

  /** Whether a softfork's charges all succeed, the guard's own against its new
      allowance included. */
  predicate SoftforkPaid(cfg: Validator, values: seq<Element>, avail: nat) {
    var d, ext := DeclaredCost(values), Recognised(cfg, values);
    if d.value.None? then d.cost <= avail
    else d.cost + d.value.value + ext.cost <= avail && (ext.value ==> GUARD <= d.value.value)
  }

  function CallMakes(o: Oracle, x: Externals, aware: bool, K: Stack, fn: Fn, args: Element, avail: nat): nat {
    if fn.Quote? then FeedbackMakes(o, x, K, Value(args), avail)
    else if args != Nil then 2
    else if fn.Op? then ResultMakes(o, x, fn.bound, avail) + if Opcodes.Finish(o, fn.bound).cost <= avail then 1 else 0
    else if fn.Softfork? && !SoftforkPaid(Standard(o, aware), fn.values, avail) then 0
    else 2
  }

  /** fn_blleval: an operator's frame and initial state, a fin frame, or an error in
      a fin frame. */
  function EvalMakes(p: Element, env: Element, avail: nat): nat {
    if p.Func? || !IsBll(p) then 2
    else if p.Atom? then if ResolveAtom(p.bytes, env).cost <= avail then 2 else 0
    else if ResolveOpcode(p.left).cost <= avail then 2 else 0
  }

  function FrameMakes(o: Oracle, x: Externals, aware: bool, K: Stack, f: Frame, avail: nat): nat {
    match f
    case Fin(r) => FeedbackMakes(o, x, K, r, avail)
    case Eval(p, env) => EvalMakes(p, env, avail)
    case Call(fn, args, env) => CallMakes(o, x, aware, K, fn, args, avail)
    case ExitGuard => 2
  }

  /** The elements one step constructs after its pop is paid for. */
  function StepMakes(o: Oracle, x: Externals, aware: bool, s: State): nat
    requires s.frames.Push?
  {
    if Avail(s.m) < STEP then 0
    else FrameMakes(o, x, aware, s.frames.rest, s.frames.top, Avail(s.m) - STEP)
  }

  // ----- against the charges -----

  lemma FeedCovered(o: Oracle, x: Externals, b: Bound, arg: Element, avail: nat, k: nat)
    requires Covered(o, x) && TameBound(b, k) && k <= BUDGET_MAX && Tame(arg, k)
    ensures 12 * FeedMakes(o, x, b, arg, avail) <= 48 + Min(Feed(o, b, arg).cost, avail)
  {
    hide Carry, MulFoldWork, BytesToInt, IntToBytes, LexLess, Compare, Tame;
    if b.Counter? {
      FewTrees(b.count);
    }
  }

  lemma ResultCovered(o: Oracle, x: Externals, b: Bound, avail: nat)
    requires Covered(o, x)
    ensures 12 * ResultMakes(o, x, b, avail) <= 12 + Min(Opcodes.Finish(o, b).cost, avail)
  {
    hide Gather, RdMakes, BytesToInt, IntToBytes, Codec.Decode, Codec.Deserialize, DoRd, DoWr, DoMod, DoShift, DoSubstr;
    if b.Collect? && b.op.OpRd? && |b.args| >= 1 && b.args[0].Atom? {
      RdCovered(b.args[0].bytes, avail);
    }
  }

  lemma ReceiveCovered(o: Oracle, x: Externals, aware: bool, fn: Fn, v: Element, last: bool, avail: nat, k: nat)
    requires Covered(o, x) && TameFn(fn, k) && Tame(v, k) && k <= BUDGET_MAX
    ensures 12 * ReceiveMakes(o, x, fn, v, avail) <= 48 + Min(Receive(Standard(o, aware), fn, v, last).cost, avail)
  {
    hide Feed, FeedMakes, TableOp, BytesToInt, Tame, TameBound;
    if fn.Op? {
      FeedCovered(o, x, fn.bound, v, avail, k);
    } else if fn.Partial? && fn.target.Some? {
      FeedCovered(o, x, fn.target.value, v, avail, k);
    }
  }

  /** A charge that fails latches, one that fits is taken from the money. */
  lemma ChargeOutcome(m: Meter, amount: nat)
    requires !m.Latched()
    ensures var r := Charge(m, amount);
      && (r.Latched() <==> amount > Avail(m))
      && (!r.Latched() ==>
          && Money(r) + amount == Money(m) && Avail(r) + amount == Avail(m)
          && r.guards.Outside? == m.guards.Outside?)
      && (r.breach ==> m.guards.Within?)
  {
  }

  /** What was made is covered by money: by what was spent, or, when a charge
      failed, by what there was to spend. Outside every guard only the charge of a
      guard just opened can breach, and by then nothing is made. */
  predicate Pays(made: nat, slack: nat, m: Meter, r: Meter) {
    && (!r.Latched() ==> 12 * made + Money(r) <= slack + Money(m))
    && (r.Latched() ==> 12 * made <= slack + Avail(m))
    && (r.breach && m.guards.Outside? ==> made == 0)
  }

  lemma DeliverCovered(o: Oracle, x: Externals, aware: bool, K: Stack, top: Frame, v: Element, m: Meter, k: nat)
    requires Covered(o, x) && TameFrame(top, k) && Tame(v, k) && k <= BUDGET_MAX && !m.Latched()
    ensures Pays(DeliverMakes(o, x, top, v, Avail(m)), 48, m, Deliver(Standard(o, aware), K, top, v, m).m)
  {
    hide Receive, ReceiveMakes, TameFn, Tame, Charge, Money;
    match top {
      case Call(fn, args, env) =>
        ReceiveCovered(o, x, aware, fn, v, args == Nil, Avail(m), k);
        ChargeOutcome(m, Receive(Standard(o, aware), fn, v, args == Nil).cost);
      case ExitGuard => GuardMoney(K, m);
      case _ =>
    }
  }

  lemma GuardMoney(K: Stack, m: Meter)
    ensures Money(LeaveGuard(K, m).m) <= Money(m)
  {
  }

  lemma FeedbackCovered(o: Oracle, x: Externals, aware: bool, K: Stack, r: Result, m: Meter, k: nat)
    requires Covered(o, x) && TameStack(K, k) && (r.Value? ==> Tame(r.value, k)) && k <= BUDGET_MAX && !m.Latched()
    ensures Pays(FeedbackMakes(o, x, K, r, Avail(m)), 24, m, Feedback(Standard(o, aware), K, r, m).m)
  {
    hide Deliver, DeliverMakes, Tame, Charge;
    if r.Value? && K.Push? {
      hide Money;
      ChargeOutcome(m, STEP);
      var paid := Charge(m, STEP);
      if !paid.Latched() {
        DeliverCovered(o, x, aware, K.rest, K.top, r.value, paid, k);
      }
    }
  }

  lemma SoftforkCovered(cfg: Validator, K: Stack, values: seq<Element>, m: Meter)
    requires !m.Latched()
    ensures SoftforkPaid(cfg, values, Avail(m)) <==> !FinishSoftfork(cfg, K, values, m).m.Latched()
  {
    hide DeclaredCost, Recognised;
  }

  lemma CallCovered(o: Oracle, x: Externals, aware: bool, K: Stack, fn: Fn, args: Element, env: Element, m: Meter,
                    k: nat)
    requires Covered(o, x) && TameStack(K, k) && Tame(args, k) && k <= BUDGET_MAX && !m.Latched()
    ensures Pays(CallMakes(o, x, aware, K, fn, args, Avail(m)), 24, m,
            StepCall(Standard(o, aware), K, fn, args, env, m).m)
  {
    hide Feedback, FeedbackMakes, FinishSoftfork, SoftforkPaid, Opcodes.Finish, ResultMakes, Tame, Charge, Money;
    if fn.Quote? {
      FeedbackCovered(o, x, aware, K, Value(args), m, k);
    } else if args == Nil {
      match fn {
        case Op(b) =>
          ResultCovered(o, x, b, Avail(m));
          ChargeOutcome(m, Opcodes.Finish(o, b).cost);
        case Softfork(values) =>
          SoftforkCovered(Standard(o, aware), K, values, m);
          SoftforkMoney(Standard(o, aware), K, values, m);
        case _ =>
      }
    }
  }

  lemma EvalCovered(K: Stack, p: Element, env: Element, m: Meter)
    requires !m.Latched()
    ensures Pays(EvalMakes(p, env, Avail(m)), 24, m, StepEval(K, p, env, m).m)
  {
    hide ResolveAtom, ResolveOpcode, IsBll, Charge, Money;
    if p.Atom? {
      ChargeOutcome(m, ResolveAtom(p.bytes, env).cost);
    } else if p.Cons? {
      ChargeOutcome(m, ResolveOpcode(p.left).cost);
    }
  }

  lemma FrameCovered(o: Oracle, x: Externals, aware: bool, K: Stack, f: Frame, m: Meter, k: nat)
    requires Covered(o, x) && TameStack(K, k) && TameFrame(f, k) && k <= BUDGET_MAX && !m.Latched()
    ensures Pays(FrameMakes(o, x, aware, K, f, Avail(m)), 24, m, StepFrame(Standard(o, aware), K, f, m).m)
  {
    hide Feedback, StepEval, StepCall, FeedbackMakes, CallMakes, EvalMakes, Money, Tame, TameFn;
    match f {
      case Fin(r) => FeedbackCovered(o, x, aware, K, r, m, k);
      case Call(fn, args, env) => CallCovered(o, x, aware, K, fn, args, env, m, k);
      case Eval(p, env) => EvalCovered(K, p, env, m);
      case ExitGuard =>
    }
  }

  /** The meter after a step, before a breach is settled. */
  function StepMeter(cfg: Validator, s: State): Meter
    requires s.frames.Push?
  {
    var paid := Charge(s.m, STEP);
    if paid.Latched() then paid else StepFrame(cfg, s.frames.rest, s.frames.top, paid).m
  }

  /** Every construction of a step is preceded by a charge of at least half a STEP,
      in the step whose charge fails too. */
  lemma StepCovered(o: Oracle, x: Externals, aware: bool, s: State, limit: nat)
    requires Covered(o, x) && s.frames.Push? && !s.m.Latched() && Paid(s, limit) && limit <= BUDGET_MAX
    ensures Pays(StepMakes(o, x, aware, s), 0, s.m, StepMeter(Standard(o, aware), s))
  {
    hide StepFrame, FrameMakes, Charge, Money, Tame, TameFn, TameFrame;
    var paid, k := Charge(s.m, STEP), limit - Money(s.m);
    ChargeOutcome(s.m, STEP);
    if !paid.Latched() {
      FrameCovered(o, x, aware, s.frames.rest, s.frames.top, paid, k);
    }
  }

  // ----- over a whole run -----

  /** The same grant, with no less of it spent, and all of it once exhausted. */
  predicate Onward(m1: Meter, m2: Meter) {
    && m1.used <= m2.used && m1.used + m1.left == m2.used + m2.left
    && (m2.exhausted ==> m1.exhausted || m2.left == 0)
    && m2.alloc == m1.alloc
  }

  lemma ChargeOnward(m: Meter, amount: nat)
    ensures Onward(m, Charge(m, amount))
  {
  }

  lemma SoftforkOnward(cfg: Validator, K: Stack, values: seq<Element>, m: Meter)
    ensures Onward(m, FinishSoftfork(cfg, K, values, m).m)
  {
    hide Charge, DeclaredCost, Recognised;
    var d, ext := DeclaredCost(values), Recognised(cfg, values);
    if d.value.None? {
      ChargeOnward(m, d.cost);
    } else {
      var total := d.cost + d.value.value + ext.cost;
      ChargeOnward(m, total);
      ChargeOnward(PushAllowance(Charge(m, total), d.value.value), GUARD);
    }
  }

  lemma FeedbackOnward(cfg: Validator, K: Stack, r: Result, m: Meter)
    ensures Onward(m, Feedback(cfg, K, r, m).m)
  {
    hide Charge, Receive;
    ChargeOnward(m, STEP);
    if r.Value? && K.Push? && K.top.Call? {
      ChargeOnward(Charge(m, STEP), Receive(cfg, K.top.fn, r.value, K.top.args == Nil).cost);
    }
  }

  lemma StepOnward(cfg: Validator, s: State)
    requires s.frames.Push?
    ensures Onward(s.m, StepMeter(cfg, s)) && Onward(s.m, Step(cfg, s).m)
  {
    hide Charge, StepFrame;
    ChargeOnward(s.m, STEP);
    FrameOnward(cfg, s.frames.rest, s.frames.top, Charge(s.m, STEP));
  }

  lemma FrameOnward(cfg: Validator, K: Stack, f: Frame, m: Meter)
    ensures Onward(m, StepFrame(cfg, K, f, m).m)
  {
    hide Charge, Feedback, FinishSoftfork, ResolveAtom, ResolveOpcode, IsBll, Onward;
    OnwardSame(m);
    match f {
      case Fin(r) => FeedbackOnward(cfg, K, r, m);
      case Eval(p, env) =>
        if p.Atom? {
          ChargeOnward(m, ResolveAtom(p.bytes, env).cost);
        } else if p.Cons? {
          ChargeOnward(m, ResolveOpcode(p.left).cost);
        }
      case Call(fn, args, env) =>
        match fn {
          case Quote => FeedbackOnward(cfg, K, Value(args), m);
          case Softfork(values) => SoftforkOnward(cfg, K, values, m);
          case Op(b) => ChargeOnward(m, cfg.finish(b).cost);
          case _ =>
        }
      case ExitGuard =>
    }
  }

  lemma OnwardSame(m: Meter)
    ensures Onward(m, m)
  {
  }

  /** What eval constructs once its loop has stopped: the error of a latched budget
      or of a result that is no bll value. */
  function EndMakes(s: State): nat {
    if Finished(s) && !s.m.exhausted && !s.m.alloc && Gate(s.frames.top.result) == s.frames.top.result then 0 else 1
  }

  /** The constructions of a run. A breached guard leaves its error in a fin frame. */
  function Makes(o: Oracle, x: Externals, aware: bool, s: State): nat
    decreases if Done(s) then 0 else 1 + Money(s.m)
  {
    if Done(s) then EndMakes(s)
    else
      StepSpends(Standard(o, aware), s);
      StepMakes(o, x, aware, s)
      + (if StepMeter(Standard(o, aware), s).breach then 2 else 0)
      + Makes(o, x, aware, Step(Standard(o, aware), s))
  }

  /** How a step ends, by the latches before a breach is settled. */
  lemma StepEnds(cfg: Validator, s: State)
    requires s.frames.Push?
    ensures var m, r := StepMeter(cfg, s), Step(cfg, s);
      && r.m == (if m.breach then ClearAllowances(m) else m)
      && (m.Latched() ==> Done(r))
  {
    hide Charge, StepFrame;
  }

  /** Constructions so far, and to come, are covered by what the run will have
      spent: of the grant, everything but the money still left. */
  lemma {:induction false} MakesCovered(o: Oracle, x: Externals, aware: bool, s: State, limit: nat)
    requires Covered(o, x) && Harmless(o) && limit <= BUDGET_MAX && !s.m.breach
    requires limit == s.m.used + s.m.left && Paid(s, limit)
    ensures 12 * Makes(o, x, aware, s) + limit - Money(s.m) <= Run(Standard(o, aware), s).used + 36
    decreases if Done(s) then 0 else 1 + Money(s.m)
  {
    hide Step, StepMakes, StepMeter, Paid;
    var cfg := Standard(o, aware);
    if !Done(s) {
      var r := Step(cfg, s);
      StepSpends(cfg, s);
      StepKeepsPaid(o, aware, s, limit);
      StepCovered(o, x, aware, s, limit);
      StepEnds(cfg, s);
      StepOnward(cfg, s);
      if !Done(r) {
        MakesCovered(o, x, aware, r, limit);
      }
    }
  }

  lemma StartsPaid(p: Element, env: Element, m: Meter)
    requires IsBll(p) && IsBll(env) && m.guards.Outside?
    ensures Paid(State(Push(Empty, Eval(p, env)), m), m.used + m.left)
  {
    BllIsTame(p, m.used);
    BllIsTame(env, m.used);
    hide Tame;
    assert TameStack(Empty, m.used);
  }

  /** eval: the frame it begins with, and its run. */
  function EvaluationMakes(o: Oracle, x: Externals, aware: bool, p: Element, env: Element, m: Meter): nat {
    1 + Makes(o, x, aware, State(Push(Empty, Eval(p, env)), m))
  }

  /** The amortised bound: from a budget of which some is spent, an evaluation
      constructs at most two elements for every STEP it charges, and four more. */
  lemma ConstructionsBounded(o: Oracle, x: Externals, aware: bool, p: Element, env: Element, m: Meter)
    requires Covered(o, x) && Harmless(o) && IsBll(p) && IsBll(env)
    requires !m.Latched() && m.guards.Outside? && m.used + m.left <= BUDGET_MAX
    ensures var used := Run(Standard(o, aware), State(Push(Empty, Eval(p, env)), m)).used;
      12 * EvaluationMakes(o, x, aware, p, env, m) <= used - m.used + 48
      && EvaluationMakes(o, x, aware, p, env, m) <= 2 * (used - m.used) / STEP + 4
  {
    hide Makes, Run;
    StartsPaid(p, env, m);
    MakesCovered(o, x, aware, State(Push(Empty, Eval(p, env)), m), m.used + m.left);
  }

  lemma EncodableIsBll(b: Bytes, e: Element)
    requires CanonicalElement(b).value == Value(e)
    ensures IsBll(e)
  {
    hide CanonicalElement;
    CodecBijection(b, e);
    BllWhenEncodable(e);
  }

  lemma {:induction false} BllWhenEncodable(e: Element)
    requires Encodable(e)
    ensures IsBll(e)
  {
    if e.Cons? {
      BllWhenEncodable(e.left);
      BllWhenEncodable(e.right);
    }
  }

  lemma {:induction false} UsedWithin(cfg: Validator, s: State)
    ensures Run(cfg, s).used <= s.m.used + s.m.left
    decreases if Done(s) then 0 else 1 + Money(s.m)
  {
    hide Step;
    if !Done(s) {
      StepSpends(cfg, s);
      StepOnward(cfg, s);
      UsedWithin(cfg, Step(cfg, s));
    }
  }
}
