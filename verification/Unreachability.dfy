/** The opcode table never uses the error of an unreachable frame, so no run
    reports it. */
module Unreachability {
  import opened Integers
  import opened Elements
  import opened Opcodes
  import opened StandardRules
  import opened Invariants
  import Machine
  import BigStep
  import Codec

  lemma {:induction false} DecodeClean(b: Bytes, i: nat, rates: Codec.Rates)
    requires i <= |b|
    ensures var d := Codec.Decode(b, i, rates).value; !d.Got? ==> d.error != Unreachable
    decreases |b| - i
  {
    hide Codec.Bill;
    if i < |b| && b[i] == 0xff {
      DecodeClean(b, i + 1, rates);
      var l := Codec.Decode(b, i + 1, rates).value;
      if l.Got? {
        DecodeClean(b, l.next, rates);
      }
    }
  }

  lemma {:induction false} EncodeClean(e: Element, emitted: nat, cap: Option<nat>, rates: Codec.Rates)
    ensures var r := Codec.Encode(e, emitted, cap, rates).value; r.Refused? ==> r.error != Unreachable
    decreases e
  {
    hide Codec.Bill, Codec.AtomBytes;
    if e.Cons? {
      EncodeClean(e.left, emitted + 1, cap, rates);
      var l := Codec.Encode(e.left, emitted + 1, cap, rates).value;
      if l.Bytes? {
        EncodeClean(e.right, emitted + 1 + |l.bytes|, cap, rates);
      }
    }
  }

  lemma FinishClean(o: Oracle, b: Bound)
    ensures Opcodes.Finish(o, b).value != Failure(Unreachable)
  {
    hide Codec.Decode, Codec.Encode, BytesToInt, IntToBytes, Gather, ShiftBy, FloorMod;
    if b.Collect? && b.args != [] {
      EncodeClean(b.args[0], 0, None, WR_RATES);
      if b.args[0].Atom? {
        DecodeClean(b.args[0].bytes, 0, RD_RATES);
      }
    }
  }

  lemma FeedClean(o: Oracle, b: Elements.Bound, v: Element)
    ensures Feed(o, b, v).value != Fault(Unreachable)
  {
    hide Carry, BytesToInt, IntToBytes, LexLess, Compare;
  }

  /** The opcodes of the table use no such error, whatever the oracle does. */
  lemma StandardClean(o: Oracle, aware: bool)
    ensures Clean(Standard(o, aware))
  {
    hide Feed, Opcodes.Finish;
    forall b, v {
      FeedClean(o, b, v);
    }
    forall b {
      FinishClean(o, b);
    }
  }

  /** No run reports the error of an unreachable frame. */
  lemma UnreachableNeverReported(o: Oracle, aware: bool, p: Element, env: Element, limit: nat)
    ensures Machine.Run(Standard(o, aware), Machine.Start(p, env, limit)).result != Failure(Unreachable)
  {
    hide Machine.Run, BigStep.Evaluate, Clean, Standard;
    StandardClean(o, aware);
    BigStep.MachineIsDirect(Standard(o, aware), p, env, limit);
    EvaluateSane(Standard(o, aware), p, env, limit);
  }
}
