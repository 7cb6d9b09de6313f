/** The hash opcodes over streaming midstates (opcodes.py, op_sha256 and its kin): a
    bound function holds a mutable hasher, and feeding it must not disturb the other
    uses of that binding. */
module HashOpcodes {
  import opened Integers
  import opened Costs
  import opened Budgets
  import opened Elements
  import opened Opcodes
  import opened Evaluator
  import opened Hasher

  /** The midstate of ripemd160, or one of the library's SHA-256, of which only what
      it has absorbed is known. */
  datatype IntState = Streaming(hasher: Digester) | Library(absorbed: Bytes)

  ghost predicate Sound(m: IntState)
    reads if m.Streaming? then {m.hasher} else {}
  {
    m.Streaming? ==> m.hasher.Valid()
  }

  ghost function Message(m: IntState): Bytes
    reads if m.Streaming? then {m.hasher} else {}
  {
    match m
    case Streaming(hasher) => hasher.message
    case Library(absorbed) => absorbed
  }

  /** The oracle answers with the digests of the four opcodes: SHA-256 comes from the
      library, RIPEMD-160 from the streaming hasher, and the double hashes apply one
      to the digest of the other. */
  ghost predicate Digests(o: Oracle, sha: Bytes -> Bytes, compress: Compression) {
    && (forall m :: |sha(m)| == DigestSize(Sha256))
    && (forall m :: o.digest(Sha256, m) == sha(m))
    && (forall m :: o.digest(Hash256, m) == sha(sha(m)))
    && (forall m :: o.digest(Hash160, m) == DigestOf(compress, sha(m)))
    && (forall m :: 8 * |m| < 0x1_0000_0000_0000_0000 ==> o.digest(Ripemd160, m) == DigestOf(compress, m))
  }

  /** The outcome of feeding a midstate; a failed charge latched the budget. */
  datatype NextState = Latched | Rejected(error: Error) | Hashing(next: IntState)

  /** update_state: the midstate is copied and the copy updated. The midstate itself,
      outside the frame of this method, absorbs nothing. */
  method UpdateState(o: Oracle, h: HashKind, midstate: IntState, arg: Element, budget: Budget) returns (r: NextState)
    requires Sound(midstate) && budget.Valid() && !budget.Latched()
    modifies budget
    ensures var fed := Feed(o, Midstate(h, Message(midstate)), arg);
      && budget.Valid() && Alike(budget.View(), Costs.Charge(old(budget.View()), fed.cost))
      && (r.Latched? <==> budget.Latched())
      && (r.Rejected? ==> fed.value == Fault(r.error))
      && (r.Hashing? ==> Sound(r.next) && fed.value == Next(Midstate(h, Message(r.next))))
    ensures r.Hashing? ==> (r.next.Streaming? <==> midstate.Streaming?)
    ensures r.Hashing? && r.next.Streaming? ==>
            fresh(r.next.hasher) && r.next.hasher.compress == midstate.hasher.compress
  {
    hide Costs.Charge, Absorb;
    ghost var width := if arg.Atom? then |arg.bytes| else 0;
    ChargeMore(budget.View(), HASH_ARG, HASH_PER_BYTE * width);
    var ok := budget.Charge(HASH_ARG);
    if !ok {
      return NextState.Latched;
    }
    if !arg.Atom? {
      return Rejected(NeedsAtoms);
    }
    ok := budget.Charge(HASH_PER_BYTE * |arg.bytes|);
    if !ok {
      return NextState.Latched;
    }
    match midstate {
      case Library(absorbed) => return Hashing(Library(absorbed + arg.bytes));
      case Streaming(hasher) =>
        var next := hasher.Copy();
        next.Update(arg.bytes);
        return Hashing(Streaming(next));
    }
  }

  /** digest: the four overrides. */
  method DigestOfState(h: HashKind, midstate: IntState, sha: Bytes -> Bytes, compress: Compression, ghost o: Oracle)
    returns (digest: Bytes)
    requires Sound(midstate) && Digests(o, sha, compress)
    requires midstate.Streaming? <==> h == Ripemd160
    requires midstate.Streaming? ==>
             midstate.hasher.compress == compress && 8 * |Message(midstate)| < 0x1_0000_0000_0000_0000
    ensures digest == o.digest(h, Message(midstate))
  {
    hide DigestOf, Absorb;
    match midstate {
      case Streaming(hasher) => digest := hasher.Digest();
      case Library(absorbed) =>
        digest := sha(absorbed);
        match h {
          case Hash256 => digest := sha(digest);
          case Hash160 =>
            var x := new Digester(compress);
            x.Update(digest);
            assert x.message == sha(absorbed);
            digest := x.Digest();
          case _ =>
        }
    }
  }

  /** final_state: None when the charge failed. */
  method FinalState(o: Oracle, h: HashKind, midstate: IntState, sha: Bytes -> Bytes, compress: Compression,
                    budget: Budget)
    returns (r: Option<Result>)
    requires Sound(midstate) && Digests(o, sha, compress) && budget.Valid() && !budget.Latched()
    requires midstate.Streaming? <==> h == Ripemd160
    requires midstate.Streaming? ==>
             midstate.hasher.compress == compress && 8 * |Message(midstate)| < 0x1_0000_0000_0000_0000
    modifies budget
    ensures var done := Opcodes.Finish(o, Midstate(h, Message(midstate)));
      && budget.Valid() && budget.View() == Costs.Charge(old(budget.View()), done.cost)
      && r == if budget.Latched() then None else Some(done.value)
  {
    hide Costs.Charge, DigestOf, Absorb, Digests;
    var ok := budget.Charge(HASH_BASE + MALLOC_PER_BYTE * DigestSize(h));
    if !ok {
      return None;
    }
    var digest := DigestOfState(h, midstate, sha, compress, o);
    return Some(Value(Atom(digest)));
  }

  /** Two extensions of one binding, both from the same midstate: each digests what
      was bound before and its own argument, and the binding is as it was. */
  method ExtendTwice(bound: Digester, a: Bytes, b: Bytes) returns (first: Bytes, second: Bytes)
    requires bound.Valid()
    requires 8 * (|bound.message| + |a|) < 0x1_0000_0000_0000_0000
             && 8 * (|bound.message| + |b|) < 0x1_0000_0000_0000_0000
    ensures first == DigestOf(bound.compress, bound.message + a)
    ensures second == DigestOf(bound.compress, bound.message + b)
  {
    hide DigestOf, Absorb;
    var left := bound.Copy();
    left.Update(a);
    var right := bound.Copy();
    right.Update(b);
    first := left.Digest();
    second := right.Digest();
  }
}
