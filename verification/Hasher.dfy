/** The streaming RIPEMD-160 hasher of ripemd160.py over any compression function:
    however the input is cut into updates, the digest is that of the padded whole. */
module Hasher {
  import opened Integers

  datatype Words = Words(a: int, b: int, c: int, d: int, e: int)

  type Compression = (Words, Bytes) -> Words

  const INITIAL := Words(0x67452301, 0xefcdab89, 0x98badcfe, 0x10325476, 0xc3d2e1f0)

  /** The state after the whole 64-byte blocks of the data. */
  function Absorb(compress: Compression, s: Words, data: Bytes): Words
    decreases |data|
  {
    if |data| < 64 then s else Absorb(compress, compress(s, data[..64]), data[64..])
  }

  /** The n low bytes of a number, lowest first. */
  function LittleEndian(x: int, n: nat): (b: Bytes)
    ensures |b| == n
    decreases n
  {
    if n == 0 then [] else [x % 256] + LittleEndian(x / 256, n - 1)
  }

  /** How many zeros follow the marker byte when so many bytes are pending. */
  function ZerosAfter(pending: nat): (n: nat)
    requires pending < 64
    ensures n == if pending <= 55 then 55 - pending else 119 - pending
  {
    (119 - pending) % 64
  }

  /** A marker byte, zeros up to 8 short of a block, and the length in bits. */
  function Padding(size: nat): (p: Bytes)
    ensures |p| == if size % 64 <= 55 then 64 - size % 64 else 128 - size % 64
  {
    [0x80] + Zeros(ZerosAfter(size % 64)) + LittleEndian(8 * size, 8)
  }

  /** The words, 32 bits each. */
  function Output(s: Words): Bytes {
    LittleEndian(s.a, 4) + LittleEndian(s.b, 4) + LittleEndian(s.c, 4) + LittleEndian(s.d, 4) + LittleEndian(s.e, 4)
  }

  /** The digest of a message, padded as a whole. */
  function DigestOf(compress: Compression, message: Bytes): Bytes {
    Output(Absorb(compress, INITIAL, message + Padding(|message|)))
  }

  /** The low bytes read as the number they are taken from. */
  lemma {:induction false} LittleEndianReads(x: int, n: nat)
    ensures Unsigned(LittleEndian(x, n)) == x % Pow256(n)
    decreases n
  {
    if n > 0 {
      LittleEndianReads(x / 256, n - 1);
      Quotients(x, Pow256(n - 1));
    }
  }

  lemma Quotients(x: int, p: nat)
    requires p >= 1
    ensures x % (256 * p) == x % 256 + 256 * (x / 256 % p)
  {
    var q := x / 256;
    var r := x % 256 + 256 * (q % p);
    assert 256 * (p * (q / p)) == (256 * p) * (q / p);
    Remainder(x, 256 * p, q / p, r);
  }

  lemma Remainder(x: int, d: nat, q: int, r: nat)
    requires d >= 1 && x == d * q + r && r < d
    ensures x % d == r
  {
    if x / d < q {
      Product(d, x / d + 1, q);
    } else if x / d > q {
      Product(d, q + 1, x / d);
    }
  }

  lemma Product(d: nat, a: int, b: int)
    requires a <= b
    ensures d * a <= d * b
  {
  }

  lemma WordRange()
    ensures Pow256(4) == 0x1_0000_0000 && Pow256(8) == 0x1_0000_0000_0000_0000
  {
  }

  /** A padded message is whole blocks: the message, a marker byte, zeros, and in the
      last eight bytes its length in bits. */
  lemma PaddedMessage(message: Bytes)
    requires 8 * |message| < 0x1_0000_0000_0000_0000
    ensures var all, n := message + Padding(|message|), |message|;
      && |all| % 64 == 0 && n + 9 <= |all| < n + 9 + 64
      && all[..n] == message && all[n] == 0x80
      && (forall i | n < i < |all| - 8 :: all[i] == 0)
      && Unsigned(all[|all| - 8..]) == 8 * n
  {
    hide LittleEndian, Unsigned, Pow256, ZerosAfter;
    var n := |message|;
    WholeBlocks(n);
    var zeros, field := Zeros(ZerosAfter(n % 64)), LittleEndian(8 * n, 8);
    var all := message + Padding(n);
    PaddedParts(message, zeros, field);
    LittleEndianReads(8 * n, 8);
    WordRange();
  }

  lemma WholeBlocks(n: nat)
    ensures (n + 9 + ZerosAfter(n % 64)) % 64 == 0 && ZerosAfter(n % 64) < 64
  {
  }

  lemma PaddedParts(message: Bytes, zeros: Bytes, field: Bytes)
    requires |field| == 8
    ensures var all, n := message + ([0x80] + zeros + field), |message|;
      && |all| == n + 9 + |zeros| && all[..n] == message && all[n] == 0x80 && all[|all| - 8..] == field
      && forall i | n < i < |all| - 8 :: all[i] == zeros[i - n - 1]
  {
  }

  /** A digest is five words of 32 bits, low byte first. */
  lemma DigestWords(s: Words)
    ensures var d := Output(s);
      && |d| == 20
      && Unsigned(d[..4]) == s.a % 0x1_0000_0000 && Unsigned(d[4..8]) == s.b % 0x1_0000_0000
      && Unsigned(d[8..12]) == s.c % 0x1_0000_0000 && Unsigned(d[12..16]) == s.d % 0x1_0000_0000
      && Unsigned(d[16..]) == s.e % 0x1_0000_0000
  {
    hide LittleEndian, Unsigned;
    WordRange();
    LittleEndianReads(s.a, 4);
    LittleEndianReads(s.b, 4);
    LittleEndianReads(s.c, 4);
    LittleEndianReads(s.d, 4);
    LittleEndianReads(s.e, 4);
    var d := Output(s);
    assert d[..4] == LittleEndian(s.a, 4) && d[4..8] == LittleEndian(s.b, 4);
    assert d[8..12] == LittleEndian(s.c, 4) && d[12..16] == LittleEndian(s.d, 4) && d[16..] == LittleEndian(s.e, 4);
  }

  /** Whole blocks can be absorbed first. */
  lemma {:induction false} AbsorbPrefix(compress: Compression, s: Words, blocks: Bytes, rest: Bytes)
    requires |blocks| % 64 == 0
    ensures Absorb(compress, s, blocks + rest) == Absorb(compress, Absorb(compress, s, blocks), rest)
    decreases |blocks|
  {
    if blocks == [] {
      assert blocks + rest == rest;
    } else {
      assert (blocks + rest)[..64] == blocks[..64] && (blocks + rest)[64..] == blocks[64..] + rest;
      AbsorbPrefix(compress, compress(s, blocks[..64]), blocks[64..], rest);
    }
  }

  lemma OneBlock(compress: Compression, s: Words, block: Bytes)
    requires |block| == 64
    ensures Absorb(compress, s, block) == compress(s, block)
  {
    assert block[..64] == block && block[64..] == [];
    assert Absorb(compress, compress(s, block), []) == compress(s, block);
  }

  /** Absorbing one more block of a message. */
  lemma NextBlock(compress: Compression, message: Bytes, done: nat)
    requires done % 64 == 0 && done + 64 <= |message|
    ensures Absorb(compress, INITIAL, message[..done + 64])
         == compress(Absorb(compress, INITIAL, message[..done]), message[done..done + 64])
  {
    hide Absorb;
    var block := message[done..done + 64];
    assert message[..done + 64] == message[..done] + block;
    AbsorbPrefix(compress, INITIAL, message[..done], block);
    OneBlock(compress, Absorb(compress, INITIAL, message[..done]), block);
  }

  /** The digest from the state after the whole blocks and the bytes pending. */
  lemma LastBlocks(compress: Compression, message: Bytes, done: nat)
    requires done % 64 == 0 && done <= |message| < done + 64
    ensures var data := message[done..] + Padding(|message|);
      var s := Absorb(compress, INITIAL, message[..done]);
      && (|data| == 64 || |data| == 128)
      && DigestOf(compress, message) ==
         Output(if |data| == 64 then compress(s, data) else compress(compress(s, data[..64]), data[64..]))
  {
    hide Absorb, Output, Padding;
    var data, s := message[done..] + Padding(|message|), Absorb(compress, INITIAL, message[..done]);
    assert message + Padding(|message|) == message[..done] + data;
    AbsorbPrefix(compress, INITIAL, message[..done], data);
    if |data| == 64 {
      OneBlock(compress, s, data);
    } else {
      assert data == data[..64] + data[64..];
      AbsorbPrefix(compress, s, data[..64], data[64..]);
      OneBlock(compress, s, data[..64]);
      OneBlock(compress, compress(s, data[..64]), data[64..]);
    }
  }

  class Digester {
    const compress: Compression
    var state: Words
    var pending: Bytes
    var size: nat
    /** Everything absorbed so far. */
    ghost var message: Bytes

    ghost predicate Valid()
      reads this
    {
      && size == |message|
      && |pending| == size % 64
      && pending == message[size - |pending|..]
      && state == Absorb(compress, INITIAL, message[..size - |pending|])
    }

    constructor (compress: Compression)
      ensures Valid() && message == [] && this.compress == compress
    {
      this.compress := compress;
      state, pending, size, message := INITIAL, [], 0, [];
    }

    /** An independent hasher in the same state. */
    method Copy() returns (h: Digester)
      requires Valid()
      ensures fresh(h) && h.Valid() && h.message == message && h.compress == compress
    {
      h := new Digester(compress);
      h.state, h.pending, h.size, h.message := state, pending, size, message;
    }

    method Update(data: Bytes)
      requires Valid()
      modifies this
      ensures Valid() && message == old(message) + data
    {
      hide Absorb;
      ghost var done := size - |pending|;
      ghost var before := message;
      message := message + data;
      pending := pending + data;
      size := size + |data|;
      assert message[..done] == before[..done] && message[done..] == pending;
      while |pending| >= 64
        invariant 0 <= done <= size == |message| && done % 64 == 0
        invariant pending == message[done..] && state == Absorb(compress, INITIAL, message[..done])
        invariant message == before + data
        decreases |pending|
      {
        NextBlock(compress, message, done);
        assert pending[..64] == message[done..done + 64];
        state := compress(state, pending[..64]);
        pending := pending[64..];
        done := done + 64;
      }
    }

    /** The digest of what was absorbed; the hasher can go on absorbing. */
    method Digest() returns (r: Bytes)
      requires Valid() && 8 * size < 0x1_0000_0000_0000_0000
      ensures r == DigestOf(compress, message)
    {
      hide Absorb, Output, LittleEndian, Zeros, DigestOf;
      var pad := [0x80] + Zeros(ZerosAfter(|pending|)) + LittleEndian(8 * size, 8);
      LastBlocks(compress, message, size - |pending|);
      assert pad == Padding(size);
      var data := pending + pad;
      assert |data| == 64 ==> data[..64] == data;
      var s := compress(state, data[..64]);
      if |data| > 64 {
        s := compress(s, data[64..]);
      }
      return Output(s);
    }
  }

  /** Cutting the same bytes into other chunks leaves the same state. */
  method ChunksDoNotMatter(compress: Compression, chunks: seq<Bytes>) returns (r: Bytes)
    requires 8 * |Joined(chunks)| < 0x1_0000_0000_0000_0000
    ensures r == DigestOf(compress, Joined(chunks))
  {
    var h := new Digester(compress);
    for i := 0 to |chunks|
      invariant fresh(h) && h.Valid() && h.compress == compress && h.message == Joined(chunks[..i])
    {
      assert chunks[..i + 1][..i] == chunks[..i];
      h.Update(chunks[i]);
    }
    assert chunks[..|chunks|] == chunks;
    r := h.Digest();
  }

  function Joined(chunks: seq<Bytes>): Bytes {
    if chunks == [] then [] else Joined(chunks[..|chunks| - 1]) + chunks[|chunks| - 1]
  }
}
