/** The operator numbers of opcodes.py (FUNCS and the unknown-operator rule). */
module OpTable {
  import opened Elements

  const UNKNOWN_OP_RANGE: nat := 0x100_0000_0000

  /** A fresh binding of the opcode with this number, if the table has one. */
  function TableOp(num: int): Option<Bound> {
    match num
    case 0x04 => Some(Collect(OpX, []))
    case 0x05 => Some(Collect(OpI, []))
    case 0x06 => Some(Spine(None))
    case 0x07 => Some(Collect(OpH, []))
    case 0x08 => Some(Collect(OpT, []))
    case 0x09 => Some(Collect(OpL, []))
    case 0x0a => Some(Counter(0, []))
    case 0x0b => Some(Flag(NotAll, false))
    case 0x0c => Some(Flag(All, true))
    case 0x0d => Some(Flag(Any, false))
    case 0x0e => Some(Same(First))
    case 0x0f => Some(RisingText(First))
    case 0x10 => Some(Length([]))
    case 0x11 => Some(Collect(OpSubstr, []))
    case 0x12 => Some(Joined([]))
    case 0x17 => Some(Sum([]))
    case 0x18 => Some(Minus(NoMinuend))
    case 0x19 => Some(Product([1]))
    case 0x1a => Some(Collect(OpMod, []))
    case 0x1b => Some(Collect(OpShift, []))
    case 0x1e => Some(Rising(First))
    case 0x20 => Some(Collect(OpRd, []))
    case 0x21 => Some(Collect(OpWr, []))
    case 0x22 => Some(Midstate(Sha256, []))
    case 0x23 => Some(Midstate(Ripemd160, []))
    case 0x24 => Some(Midstate(Hash160, []))
    case 0x25 => Some(Midstate(Hash256, []))
    case 0xff => Some(SameTree(First))
    case _ =>
      if 0x13 <= num <= 0x16 || 0x26 <= num <= 0x2a then Some(External(num, Nil)) else None
  }

  function UnknownOp(num: nat): Bound {
    Tally(num / 64 % 4, num / 256, 0, 0, 0)
  }

  /** The number of a named table opcode. */
  function OpNumber(name: string): (r: Option<nat>)
    ensures r.Some? ==> 4 <= r.value <= 0xff && TableOp(r.value).Some?
  {
    if name == "x" then Some(0x04)
    else if name == "i" then Some(0x05)
    else if name == "rc" then Some(0x06)
    else if name == "h" then Some(0x07)
    else if name == "t" then Some(0x08)
    else if name == "l" then Some(0x09)
    else if name == "b" then Some(0x0a)
    else if name == "notall" then Some(0x0b)
    else if name == "all" then Some(0x0c)
    else if name == "any" then Some(0x0d)
    else if name == "=" then Some(0x0e)
    else if name == "<s" then Some(0x0f)
    else if name == "strlen" then Some(0x10)
    else if name == "substr" then Some(0x11)
    else if name == "cat" then Some(0x12)
    else if name == "===" then Some(0xff)
    else if name == "~" then Some(0x13)
    else if name == "&" then Some(0x14)
    else if name == "|" then Some(0x15)
    else if name == "^" then Some(0x16)
    else if name == "+" then Some(0x17)
    else if name == "-" then Some(0x18)
    else if name == "*" then Some(0x19)
    else if name == "%" then Some(0x1a)
    else if name == "shift" then Some(0x1b)
    else if name == "<" then Some(0x1e)
    else if name == "rd" then Some(0x20)
    else if name == "wr" then Some(0x21)
    else if name == "sha256" then Some(0x22)
    else if name == "ripemd160" then Some(0x23)
    else if name == "hash160" then Some(0x24)
    else if name == "hash256" then Some(0x25)
    else if name == "bip340_verify" then Some(0x26)
    else if name == "ecdsa_verify" then Some(0x27)
    else if name == "secp256k1_muladd" then Some(0x28)
    else if name == "tx" then Some(0x29)
    else if name == "bip342_txmsg" then Some(0x2a)
    else None
  }
}
