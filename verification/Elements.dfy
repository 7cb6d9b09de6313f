/** The values programs compute with (element.py): atoms, pairs, and the
    function objects that `partial` binds. */
module Elements {
  import opened Integers

  datatype Option<+T> = None | Some(value: T)

  datatype HashKind = Sha256 | Ripemd160 | Hash160 | Hash256

  /** The opcodes that collect their arguments and work at finish. */
  datatype FixedOp = OpX | OpI | OpH | OpT | OpL | OpSubstr | OpMod | OpShift | OpRd | OpWr

  datatype LogicOp = NotAll | All | Any

  /** The state of an operator chain: nothing seen, the last value, or failed. */
  datatype Chain<+T> = First | Last(value: T) | Broken

  datatype Difference = NoMinuend | Minuend(stored: Bytes) | Running(total: Bytes)

  /** An opcode with the arguments fed to it so far, one constructor for each
      shape of accumulator. */
  datatype Bound =
    | Collect(op: FixedOp, args: seq<Element>)
    | Spine(list: Option<Element>)                        // rc
    | Counter(count: nat, trees: seq<Element>)            // b, newest tree first
    | Flag(logic: LogicOp, flag: bool)
    | Same(atoms: Chain<Bytes>)                           // =
    | SameTree(tree: Chain<Element>)                      // ===
    | Rising(numbers: Chain<Bytes>)                       // <
    | RisingText(texts: Chain<Bytes>)                     // <s
    | Length(total: Bytes)                                // strlen
    | Joined(total: Bytes)                                // cat
    | Sum(total: Bytes)
    | Minus(difference: Difference)
    | Product(total: Bytes)
    | Midstate(hash: HashKind, absorbed: Bytes)
    | Tally(selector: nat, multiplier: nat, count: nat, bytes: nat, work: nat)  // unknown operators
    | External(num: nat, state: Element)

  datatype Element =
    | Atom(bytes: Bytes)
    | Cons(left: Element, right: Element)
    | Func(bound: Bound)

  const Nil: Element := Atom([])
  const One: Element := Atom([1])

  function Num(i: int): Element {
    Atom(IntToBytes(i))
  }

  /** is_bll: no function object anywhere in the tree. */
  predicate IsBll(e: Element) {
    match e
    case Atom(_) => true
    case Cons(l, r) => IsBll(l) && IsBll(r)
    case Func(_) => false
  }

  function Nodes(e: Element): nat {
    if e.Cons? then 1 + Nodes(e.left) + Nodes(e.right) else 1
  }

  datatype Error =
    | RaisedByProgram
    | InvalidEnvReference
    | InvalidOpcode
    | NotCode
    | ImproperList
    | TooManyArguments
    | TooFewArguments
    | SoftforkCost
    | SoftforkMismatch
    | NotAnOpcode
    | NotAValue          // a function object where a value is examined
    | NeedsAtoms
    | NotAList
    | DivisionByZero
    | CodecTruncated
    | CodecTrailing
    | CodecTooLarge
    | CodecNotCanonical
    | SizeLimit
    | FromOracle(code: nat)
    | ResultNotAValue
    | BudgetExhausted
    | AllocationLimit
    | UndefinedSymbol
    | NotAFunction
    | NoOperator
    | StepLimit
    | MemoryOverrun
    | UncaughtException  // the evaluator itself stops with a Python exception
    | OutsideModel
    | Unreachable

  datatype Result = Value(value: Element) | Failure(error: Error)

  /** What feeding an argument to a bound opcode comes to. */
  datatype Fed = Next(bound: Bound) | Fault(error: Error)

  /** What an operation charges on the way to its value. Every operation stops
      at its first charge that does not fit, and no value depends on the budget,
      so the sum of the charges says all. */
  datatype Metered<+T> = Metered(cost: nat, value: T)
}
