/** Taproot commitments: the script tree builder of verystable/core/script.py
    against the commitment walk of spend.py. Hashing and key tweaking may be any
    functions. */
module Taproot {
  import opened Integers
  import opened Elements
  import opened Opcodes

  type Digest = b: Bytes | |b| == 32 witness Zeros(32)

  datatype Tag = TapLeaf | TapBranch | TapTweak

  datatype Tweaked = Tweaked(key: Digest, parity: bool)

  /** Tagged hashes, the length-prefixed form of a script, and the tweak of an
      internal key, which fails on an invalid key. */
  datatype Crypto = Crypto(
    hash: (Tag, Bytes) -> Digest,
    serString: Bytes -> Bytes,
    tweakAdd: (Bytes, Digest) -> Option<Tweaked>)

  const LEAF_VERSION_BLL: byte := 0xc2

  /** A script, a list of items, or a function that makes up a partner for the
      item before it. */
  datatype Item =
    | Leaf(name: Option<string>, version: byte, code: Bytes)
    | Group(items: seq<Item>)
    | Partner(fn: Bytes -> Digest)

  datatype LeafInfo = LeafInfo(name: string, version: byte, code: Bytes, branch: Bytes, leaf: Digest)

  /** The known leaves and the root, which is empty when there is nothing to hash. */
  datatype Built = Built(leaves: seq<LeafInfo>, root: Bytes)

  function LeafHash(c: Crypto, version: byte, code: Bytes): Digest {
    c.hash(TapLeaf, [version] + c.serString(code))
  }

  /** Two hashes joined smaller first. */
  function Branch(c: Crypto, a: Bytes, b: Bytes): Digest {
    c.hash(TapBranch, if LexLess(b, a) then b + a else a + b)
  }

  function Extend(leaves: seq<LeafInfo>, sibling: Bytes): (r: seq<LeafInfo>)
    ensures |r| == |leaves| && forall i | 0 <= i < |r| :: r[i] == leaves[i].(branch := leaves[i].branch + sibling)
  {
    seq(|leaves|, i requires 0 <= i < |leaves| => leaves[i].(branch := leaves[i].branch + sibling))
  }

  /** taproot_tree_helper; None where an assertion fails. */
  function Build(c: Crypto, scripts: seq<Item>): Option<Built>
    decreases scripts
  {
    if scripts == [] then Some(Built([], []))
    else if |scripts| == 1 then
      match scripts[0]
      case Partner(_) => None
      case Group(items) => Build(c, items)
      case Leaf(name, version, code) =>
        if version % 2 == 1 then None
        else
          var h := LeafHash(c, version, code);
          Some(Built(if name.None? then [] else [LeafInfo(name.value, version, code, [], h)], h))
    else if |scripts| == 2 && scripts[1].Partner? then
      var left := Build(c, scripts[..1]);
      if left.None? then None
      else
        var rightHash := scripts[1].fn(left.value.root);
        Some(Built(Extend(left.value.leaves, rightHash), Branch(c, left.value.root, rightHash)))
    else
      var half := |scripts| / 2;
      var left, right := Build(c, scripts[..half]), Build(c, scripts[half..]);
      if left.None? || right.None? then None
      else
        Some(Built(Extend(left.value.leaves, right.value.root) + Extend(right.value.leaves, left.value.root),
                   Branch(c, left.value.root, right.value.root)))
  }

  /** What the builder's assertions ask: even versions, and partners only as the
      second of two. */
  predicate WellPlaced(scripts: seq<Item>)
    decreases scripts
  {
    if scripts == [] then true
    else if |scripts| == 1 then
      match scripts[0]
      case Partner(_) => false
      case Group(items) => WellPlaced(items)
      case Leaf(_, version, _) => version % 2 == 0
    else if |scripts| == 2 && scripts[1].Partner? then WellPlaced(scripts[..1])
    else WellPlaced(scripts[..|scripts| / 2]) && WellPlaced(scripts[|scripts| / 2..])
  }

  lemma {:induction false} BuildsExactly(c: Crypto, scripts: seq<Item>)
    ensures Build(c, scripts).Some? <==> WellPlaced(scripts)
    decreases scripts
  {
    if |scripts| == 1 {
      if scripts[0].Group? {
        BuildsExactly(c, scripts[0].items);
      }
    } else if |scripts| == 2 && scripts[1].Partner? {
      BuildsExactly(c, scripts[..1]);
    } else if |scripts| >= 2 {
      BuildsExactly(c, scripts[..|scripts| / 2]);
      BuildsExactly(c, scripts[|scripts| / 2..]);
    }
  }

  /** The walk of verify_commitment from a leaf hash along a path. */
  function Climb(c: Crypto, node: Digest, path: Bytes): Digest
    decreases |path|
  {
    if |path| < 32 then node else Climb(c, Branch(c, node, path[..32]), path[32..])
  }

  // ----- the order does not matter -----

  lemma {:induction false} OneOrder(a: Bytes, b: Bytes)
    requires !LexLess(a, b) && !LexLess(b, a)
    ensures a == b
  {
    if a != [] && b != [] {
      OneOrder(a[1..], b[1..]);
      assert a == [a[0]] + a[1..] && b == [b[0]] + b[1..];
    }
  }

  lemma {:induction false} NotBoth(a: Bytes, b: Bytes)
    requires LexLess(a, b)
    ensures !LexLess(b, a)
  {
    if a != [] && a[0] == b[0] {
      NotBoth(a[1..], b[1..]);
    }
  }

  lemma BranchSymmetric(c: Crypto, a: Bytes, b: Bytes)
    ensures Branch(c, a, b) == Branch(c, b, a)
  {
    if LexLess(a, b) {
      NotBoth(a, b);
    } else if LexLess(b, a) {
      NotBoth(b, a);
    } else {
      OneOrder(a, b);
    }
  }

  lemma {:induction false} ClimbOn(c: Crypto, node: Digest, path: Bytes, sibling: Digest)
    requires |path| % 32 == 0
    ensures Climb(c, node, path + sibling) == Branch(c, Climb(c, node, path), sibling)
    decreases |path|
  {
    if |path| < 32 {
      assert path + sibling == sibling;
      assert sibling[..32] == sibling && sibling[32..] == [];
    } else {
      var up := path + sibling;
      assert up[..32] == path[..32] && up[32..] == path[32..] + sibling;
      ClimbOn(c, Branch(c, node, path[..32]), path[32..], sibling);
    }
  }

  // ----- where a leaf's path leads -----

  /** Nothing to hash: an empty list, or a list of one that is void. */
  predicate Void(scripts: seq<Item>)
    decreases scripts
  {
    scripts == [] || (|scripts| == 1 && scripts[0].Group? && Void(scripts[0].items))
  }

  lemma {:induction false} VoidRoot(c: Crypto, scripts: seq<Item>)
    requires Build(c, scripts).Some?
    ensures Build(c, scripts).value.root == [] <==> Void(scripts)
    ensures !Void(scripts) ==> |Build(c, scripts).value.root| == 32
    decreases scripts
  {
    if |scripts| == 1 && scripts[0].Group? {
      VoidRoot(c, scripts[0].items);
    }
  }

  /** A known leaf: its version, and how many of the lists beside its path are
      void. */
  datatype Spot = Spot(version: byte, voids: nat)

  function Beside(spots: seq<Spot>, void: bool): (r: seq<Spot>)
    ensures |r| == |spots|
    ensures forall i | 0 <= i < |r| :: r[i] == if void then spots[i].(voids := spots[i].voids + 1) else spots[i]
  {
    if void then seq(|spots|, i requires 0 <= i < |spots| => spots[i].(voids := spots[i].voids + 1)) else spots
  }

  /** The known leaves of a tree, in the builder's order. */
  function Spots(scripts: seq<Item>): seq<Spot>
    decreases scripts
  {
    if scripts == [] then []
    else if |scripts| == 1 then
      match scripts[0]
      case Partner(_) => []
      case Group(items) => Spots(items)
      case Leaf(name, version, _) => if name.None? then [] else [Spot(version, 0)]
    else if |scripts| == 2 && scripts[1].Partner? then Spots(scripts[..1])
    else
      var half := |scripts| / 2;
      Beside(Spots(scripts[..half]), Void(scripts[half..])) + Beside(Spots(scripts[half..]), Void(scripts[..half]))
  }

  /** The built leaves stand at their spots, with whole hashes on every path. */
  predicate Aligned(leaves: seq<LeafInfo>, spots: seq<Spot>) {
    && |leaves| == |spots|
    && forall i | 0 <= i < |leaves| :: |leaves[i].branch| % 32 == 0 && leaves[i].version == spots[i].version
  }

  lemma ExtendAligned(leaves: seq<LeafInfo>, sibling: Bytes, spots: seq<Spot>, void: bool)
    requires Aligned(leaves, spots) && |sibling| % 32 == 0
    ensures Aligned(Extend(leaves, sibling), Beside(spots, void))
  {
  }

  lemma {:induction false} BuiltAligned(c: Crypto, scripts: seq<Item>)
    requires Build(c, scripts).Some?
    ensures Aligned(Build(c, scripts).value.leaves, Spots(scripts))
    decreases scripts
  {
    hide Aligned, Branch;
    if |scripts| <= 1 {
      if scripts != [] && scripts[0].Group? {
        BuiltAligned(c, scripts[0].items);
      } else {
        LeafAligned(c, scripts);
      }
    } else if |scripts| == 2 && scripts[1].Partner? {
      BuiltAligned(c, scripts[..1]);
      var left := Build(c, scripts[..1]).value;
      ExtendAligned(left.leaves, scripts[1].fn(left.root), Spots(scripts[..1]), false);
    } else {
      var half := |scripts| / 2;
      BuiltAligned(c, scripts[..half]);
      BuiltAligned(c, scripts[half..]);
      VoidRoot(c, scripts[..half]);
      VoidRoot(c, scripts[half..]);
      var left, right := Build(c, scripts[..half]).value, Build(c, scripts[half..]).value;
      ExtendAligned(left.leaves, right.root, Spots(scripts[..half]), Void(scripts[half..]));
      ExtendAligned(right.leaves, left.root, Spots(scripts[half..]), Void(scripts[..half]));
      JoinAligned(Extend(left.leaves, right.root), Beside(Spots(scripts[..half]), Void(scripts[half..])),
                  Extend(right.leaves, left.root), Beside(Spots(scripts[half..]), Void(scripts[..half])));
    }
  }

  lemma LeafAligned(c: Crypto, scripts: seq<Item>)
    requires |scripts| <= 1 && (scripts != [] ==> scripts[0].Leaf?) && Build(c, scripts).Some?
    ensures Aligned(Build(c, scripts).value.leaves, Spots(scripts))
  {
  }

  lemma JoinAligned(a: seq<LeafInfo>, p: seq<Spot>, b: seq<LeafInfo>, q: seq<Spot>)
    requires Aligned(a, p) && Aligned(b, q)
    ensures Aligned(a + b, p + q)
  {
  }

  /** Beside no void list, a leaf's path climbs to the root. */
  lemma {:induction false} PathReachesRoot(c: Crypto, scripts: seq<Item>, i: nat)
    requires Build(c, scripts).Some? && i < |Spots(scripts)| == |Build(c, scripts).value.leaves|
    requires Spots(scripts)[i].voids == 0
    ensures var l := Build(c, scripts).value.leaves[i]; Climb(c, l.leaf, l.branch) == Build(c, scripts).value.root
    decreases scripts
  {
    BuiltAligned(c, scripts);
    if |scripts| == 1 {
      if scripts[0].Group? {
        PathReachesRoot(c, scripts[0].items, i);
      }
    } else if |scripts| == 2 && scripts[1].Partner? {
      BuiltAligned(c, scripts[..1]);
      PathReachesRoot(c, scripts[..1], i);
      var l := Build(c, scripts[..1]).value.leaves[i];
      ClimbOn(c, l.leaf, l.branch, scripts[1].fn(Build(c, scripts[..1]).value.root));
    } else {
      JoinReachesRoot(c, scripts, i);
    }
  }

  /** The two sides of a join. */
  lemma JoinSides(c: Crypto, scripts: seq<Item>)
    requires |scripts| >= 2 && !(|scripts| == 2 && scripts[1].Partner?) && Build(c, scripts).Some?
    ensures var half := |scripts| / 2;
      && Build(c, scripts[..half]).Some? && Build(c, scripts[half..]).Some?
      && var left, right := Build(c, scripts[..half]).value, Build(c, scripts[half..]).value;
      && Build(c, scripts).value ==
         Built(Extend(left.leaves, right.root) + Extend(right.leaves, left.root), Branch(c, left.root, right.root))
      && Spots(scripts) ==
         Beside(Spots(scripts[..half]), Void(scripts[half..])) + Beside(Spots(scripts[half..]), Void(scripts[..half]))
  {
    hide Branch, Void;
  }

  lemma JoinReachesRoot(c: Crypto, scripts: seq<Item>, i: nat)
    requires |scripts| >= 2 && !(|scripts| == 2 && scripts[1].Partner?)
    requires Build(c, scripts).Some? && i < |Spots(scripts)| == |Build(c, scripts).value.leaves|
    requires Spots(scripts)[i].voids == 0
    ensures var l := Build(c, scripts).value.leaves[i]; Climb(c, l.leaf, l.branch) == Build(c, scripts).value.root
    decreases scripts, 0
  {
    hide Climb, Branch, Build, Spots;
    JoinSides(c, scripts);
    var half := |scripts| / 2;
    var left, right := Build(c, scripts[..half]).value, Build(c, scripts[half..]).value;
    BuiltAligned(c, scripts[..half]);
    BuiltAligned(c, scripts[half..]);
    VoidRoot(c, scripts[..half]);
    VoidRoot(c, scripts[half..]);
    if i < |left.leaves| {
      PathReachesRoot(c, scripts[..half], i);
      ClimbOn(c, left.leaves[i].leaf, left.leaves[i].branch, right.root);
    } else {
      var j := i - |left.leaves|;
      PathReachesRoot(c, scripts[half..], j);
      ClimbOn(c, right.leaves[j].leaf, right.leaves[j].branch, left.root);
      BranchSymmetric(c, left.root, right.root);
    }
  }

  // ----- beside a void list -----

  /** The first bytes of the hashes in a row of hashes. */
  function Firsts(b: Bytes): nat
    decreases |b|
  {
    if |b| < 32 then 0 else b[0] + Firsts(b[32..])
  }

  function CountingHash(tag: Tag, b: Bytes): Digest {
    if tag == TapLeaf then Zeros(32) else [(1 + Firsts(b)) % 256] + Zeros(31)
  }

  function TweakItself(key: Bytes, t: Digest): Option<Tweaked> {
    Some(Tweaked(t, false))
  }

  /** Hashes that count: a leaf is zero, and a branch one more than its halves
      together. Every key is valid and tweaked to the tweak itself. */
  const COUNTING: Crypto := Crypto(CountingHash, b => b, TweakItself)

  /** What a hash, or no hash, counts for. */
  function Count(b: Bytes): nat {
    if b == [] then 0 else b[0]
  }

  predicate Whole(b: Bytes) {
    b == [] || |b| == 32
  }

  lemma FirstsOne(b: Bytes)
    requires Whole(b)
    ensures Firsts(b) == Count(b)
  {
    if b != [] {
      assert b[32..] == [];
    }
  }

  lemma FirstsTwo(a: Bytes, b: Bytes)
    requires Whole(a) && Whole(b)
    ensures Firsts(a + b) == Count(a) + Count(b)
  {
    FirstsOne(b);
    if a == [] {
      assert a + b == b;
    } else {
      assert (a + b)[32..] == b;
    }
  }

  lemma CountBranch(a: Bytes, b: Bytes)
    requires Whole(a) && Whole(b)
    ensures Count(Branch(COUNTING, a, b)) == (Count(a) + Count(b) + 1) % 256
  {
    hide Firsts;
    FirstsTwo(a, b);
    FirstsTwo(b, a);
  }

  /** How deep the tree is. */
  function Levels(scripts: seq<Item>): nat
    decreases scripts
  {
    if scripts == [] then 0
    else if |scripts| == 1 then (if scripts[0].Group? then Levels(scripts[0].items) else 0)
    else if |scripts| == 2 && scripts[1].Partner? then 1 + Levels(scripts[..1])
    else
      var half := |scripts| / 2;
      var l, r := Levels(scripts[..half]), Levels(scripts[half..]);
      1 + if l < r then r else l
  }

  lemma {:induction false} VoidsWithin(scripts: seq<Item>, i: nat)
    requires i < |Spots(scripts)|
    ensures Spots(scripts)[i].voids <= Levels(scripts)
    decreases scripts
  {
    hide Void, Beside;
    if |scripts| == 1 {
      if scripts[0].Group? {
        VoidsWithin(scripts[0].items, i);
      }
    } else if |scripts| == 2 && scripts[1].Partner? {
      VoidsWithin(scripts[..1], i);
    } else {
      var half := |scripts| / 2;
      var left, right := scripts[..half], scripts[half..];
      var ls, rs := Beside(Spots(left), Void(right)), Beside(Spots(right), Void(left));
      assert Spots(scripts) == ls + rs && Levels(scripts) >= 1 + Levels(left) && Levels(scripts) >= 1 + Levels(right);
      if i < |ls| {
        VoidsWithin(left, i);
      } else {
        VoidsWithin(right, i - |ls|);
      }
    }
  }

  /** A leaf's path climbs to something that counts less than the root by the void
      lists beside it. */
  predicate Behind(l: LeafInfo, root: Bytes, voids: nat)
    requires |l.branch| % 32 == 0
  {
    Count(root) == (Count(Climb(COUNTING, l.leaf, l.branch)) + voids) % 256
  }

  lemma BehindSibling(l: LeafInfo, root: Bytes, voids: nat, sibling: Bytes)
    requires |l.branch| % 32 == 0 && Whole(root) && Whole(sibling) && Behind(l, root, voids)
    ensures Behind(l.(branch := l.branch + sibling), Branch(COUNTING, root, sibling),
                   if sibling == [] then voids + 1 else voids)
  {
    hide Climb, Branch, Count;
    var n := Count(Climb(COUNTING, l.leaf, l.branch));
    CountBranch(root, sibling);
    CountOn(Count(root), n, voids, Count(sibling));
    if sibling == [] {
      assert l.branch + sibling == l.branch;
      CountNothing();
    } else {
      ClimbOn(COUNTING, l.leaf, l.branch, sibling);
      CountBranch(Climb(COUNTING, l.leaf, l.branch), sibling);
    }
  }

  lemma CountNothing()
    ensures Count([]) == 0
  {
  }

  lemma CountOn(root: nat, n: nat, voids: nat, sibling: nat)
    requires root == (n + voids) % 256
    ensures (root + sibling + 1) % 256 == ((n + sibling + 1) % 256 + voids) % 256
    ensures (root + 1) % 256 == (n + (voids + 1)) % 256
  {
    Wraps(n + voids, sibling + 1);
    Wraps(n + sibling + 1, voids);
    Wraps(n + voids, 1);
  }

  lemma Wraps(x: nat, y: nat)
    ensures (x % 256 + y) % 256 == (x + y) % 256
  {
    assert x == 256 * (x / 256) + x % 256;
  }

  lemma {:induction false} PathFallsBehind(scripts: seq<Item>, i: nat)
    requires Build(COUNTING, scripts).Some? && i < |Spots(scripts)|
    requires Aligned(Build(COUNTING, scripts).value.leaves, Spots(scripts))
    ensures Behind(Build(COUNTING, scripts).value.leaves[i], Build(COUNTING, scripts).value.root,
            Spots(scripts)[i].voids)
    decreases scripts
  {
    hide Behind, Branch;
    if |scripts| == 1 {
      if scripts[0].Group? {
        PathFallsBehind(scripts[0].items, i);
      } else {
        LeafBehind(Build(COUNTING, scripts).value.leaves[i]);
      }
    } else if |scripts| == 2 && scripts[1].Partner? {
      BuiltAligned(COUNTING, scripts[..1]);
      VoidRoot(COUNTING, scripts[..1]);
      PathFallsBehind(scripts[..1], i);
      var left := Build(COUNTING, scripts[..1]).value;
      BehindSibling(left.leaves[i], left.root, Spots(scripts[..1])[i].voids, scripts[1].fn(left.root));
    } else {
      JoinFallsBehind(scripts, i);
    }
  }

  lemma LeafBehind(l: LeafInfo)
    requires l.branch == []
    ensures Behind(l, l.leaf, 0)
  {
  }

  lemma JoinFallsBehind(scripts: seq<Item>, i: nat)
    requires |scripts| >= 2 && !(|scripts| == 2 && scripts[1].Partner?)
    requires Build(COUNTING, scripts).Some? && i < |Spots(scripts)|
    requires Aligned(Build(COUNTING, scripts).value.leaves, Spots(scripts))
    ensures Behind(Build(COUNTING, scripts).value.leaves[i], Build(COUNTING, scripts).value.root,
            Spots(scripts)[i].voids)
    decreases scripts, 0
  {
    hide Behind, Branch, Build, Spots;
    JoinSides(COUNTING, scripts);
    var half := |scripts| / 2;
    var left, right := Build(COUNTING, scripts[..half]).value, Build(COUNTING, scripts[half..]).value;
    BuiltAligned(COUNTING, scripts[..half]);
    BuiltAligned(COUNTING, scripts[half..]);
    VoidRoot(COUNTING, scripts[..half]);
    VoidRoot(COUNTING, scripts[half..]);
    if i < |left.leaves| {
      PathFallsBehind(scripts[..half], i);
      BehindSibling(left.leaves[i], left.root, Spots(scripts[..half])[i].voids, right.root);
    } else {
      var j := i - |left.leaves|;
      PathFallsBehind(scripts[half..], j);
      BehindSibling(right.leaves[j], right.root, Spots(scripts[half..])[j].voids, left.root);
      BranchSymmetric(COUNTING, left.root, right.root);
    }
  }

  // ----- outputs and control blocks -----

  datatype Info = Info(scriptPubKey: Bytes, parity: byte, leaves: seq<LeafInfo>, root: Bytes)

  /** taproot_construct; None where the builder or the tweak fails. */
  function Construct(c: Crypto, key: Digest, scripts: seq<Item>): Option<Info> {
    var tree := Build(c, scripts);
    if tree.None? then None
    else
      var t := c.tweakAdd(key, c.hash(TapTweak, key + tree.value.root));
      if t.None? then None
      else Some(Info([0x51, 0x20] + t.value.key, if t.value.parity then 1 else 0, tree.value.leaves, tree.value.root))
  }

  /** The control block of a leaf (BIP 341, "Script validation rules"). */
  function ControlBlock(key: Digest, info: Info, l: LeafInfo): Bytes
    requires l.version % 2 == 0 && info.parity <= 1
  {
    [l.version + info.parity] + key + l.branch
  }

  datatype Refusal = NotTaproot | ControlSize | PathTooLong | LeafVersion | InvalidKey | Mismatch

  /** verify_commitment; None is acceptance. */
  function VerifyCommitment(c: Crypto, spk: Bytes, script: Bytes, control: Bytes): Option<Refusal> {
    if |spk| != 34 || spk[0] != 0x51 || spk[1] != 0x20 then Some(NotTaproot)
    else if |control| < 33 || (|control| - 33) % 32 != 0 then Some(ControlSize)
    else if (|control| - 33) / 32 > 128 then Some(PathTooLong)
    else if control[0] - control[0] % 2 != LEAF_VERSION_BLL then Some(LeafVersion)
    else
      var key := control[1..33];
      var node := Climb(c, LeafHash(c, LEAF_VERSION_BLL, script), control[33..]);
      var t := c.tweakAdd(key, c.hash(TapTweak, key + node));
      if t.None? then Some(InvalidKey)
      else if t.value.key != spk[2..34] || (if t.value.parity then 1 else 0) != control[0] % 2 then Some(Mismatch)
      else None
  }

  /** verify_commitment's loop over the siblings in the control block. */
  method Walk(c: Crypto, leaf: Digest, control: Bytes) returns (node: Digest)
    requires |control| >= 33 && (|control| - 33) % 32 == 0
    ensures node == Climb(c, leaf, control[33..])
  {
    node := leaf;
    var i := 33;
    while i < |control|
      invariant 33 <= i <= |control| && (|control| - i) % 32 == 0
      invariant Climb(c, node, control[i..]) == Climb(c, leaf, control[33..])
    {
      var sibling := control[i..i + 32];
      assert control[i..][..32] == sibling && control[i..][32..] == control[i + 32..];
      if LexLess(sibling, node) {
        node := c.hash(TapBranch, sibling + node);
      } else {
        node := c.hash(TapBranch, node + sibling);
      }
      i := i + 32;
    }
  }

  /** verify_commitment. */
  method Verify(c: Crypto, spk: Bytes, script: Bytes, control: Bytes) returns (r: Option<Refusal>)
    ensures r == VerifyCommitment(c, spk, script, control)
  {
    hide Climb;
    if |spk| != 34 || spk[0] != 0x51 || spk[1] != 0x20 {
      return Some(NotTaproot);
    }
    if |control| < 33 || (|control| - 33) % 32 != 0 {
      return Some(ControlSize);
    }
    if (|control| - 33) / 32 > 128 {
      return Some(PathTooLong);
    }
    if control[0] - control[0] % 2 != LEAF_VERSION_BLL {
      return Some(LeafVersion);
    }
    var key := control[1..33];
    var node := Walk(c, LeafHash(c, LEAF_VERSION_BLL, script), control);
    var t := c.tweakAdd(key, c.hash(TapTweak, key + node));
    if t.None? {
      return Some(InvalidKey);
    }
    if t.value.key != spk[2..34] || (if t.value.parity then 1 else 0) != control[0] % 2 {
      return Some(Mismatch);
    }
    return None;
  }

  /** The parts of a commitment that is in order: the control block is a version byte
      with the parity of the output key, the internal key, and a path of at most 128
      siblings, along which the leaf climbs to what the output key is the tweak of. */
  predicate Commits(c: Crypto, spk: Bytes, script: Bytes, control: Bytes, key: Bytes, path: Bytes, t: Tweaked) {
    && |key| == 32 && |path| % 32 == 0 && |path| <= 32 * 128
    && c.tweakAdd(key, c.hash(TapTweak, key + Climb(c, LeafHash(c, LEAF_VERSION_BLL, script), path))) == Some(t)
    && spk == [0x51, 0x20] + t.key
    && control == [if t.parity then LEAF_VERSION_BLL + 1 else LEAF_VERSION_BLL] + key + path
  }

  lemma AcceptedCommits(c: Crypto, spk: Bytes, script: Bytes, control: Bytes)
    returns (key: Bytes, path: Bytes, t: Tweaked)
    requires VerifyCommitment(c, spk, script, control).None?
    ensures Commits(c, spk, script, control, key, path, t)
  {
    hide Climb, LeafHash;
    key, path := control[1..33], control[33..];
    t := c.tweakAdd(key, c.hash(TapTweak, key + Climb(c, LeafHash(c, LEAF_VERSION_BLL, script), path))).value;
    Reassemble(control);
    assert spk[2..34] == spk[2..] && spk == [0x51, 0x20] + spk[2..];
  }

  lemma Reassemble(control: Bytes)
    requires |control| >= 33
    ensures control == [control[0]] + control[1..33] + control[33..]
  {
  }

  lemma Parts(x: byte, key: Bytes, path: Bytes)
    requires |key| == 32
    ensures var control := [x] + key + path;
      |control| == 33 + |path| && control[0] == x && control[1..33] == key && control[33..] == path
  {
  }

  lemma CommitsAccepted(c: Crypto, spk: Bytes, script: Bytes, control: Bytes, key: Bytes, path: Bytes, t: Tweaked)
    requires Commits(c, spk, script, control, key, path, t)
    ensures VerifyCommitment(c, spk, script, control).None?
  {
    hide Climb, LeafHash;
    Parts(control[0], key, path);
    assert spk[2..34] == t.key;
  }

  /** A commitment is accepted exactly when it is in order. */
  lemma CommitmentAccepted(c: Crypto, spk: Bytes, script: Bytes, control: Bytes)
    ensures VerifyCommitment(c, spk, script, control).None? <==>
            exists key, path, t :: Commits(c, spk, script, control, key, path, t)
  {
    hide Commits, VerifyCommitment;
    if VerifyCommitment(c, spk, script, control).None? {
      var key, path, t := AcceptedCommits(c, spk, script, control);
    }
    if key, path, t :| Commits(c, spk, script, control, key, path, t) {
      CommitsAccepted(c, spk, script, control, key, path, t);
    }
  }

  /** A leaf of a split list lies in one half, where its branch is shorter by one
      sibling at most. */
  lemma BranchInHalf(c: Crypto, scripts: seq<Item>, i: nat) returns (half: seq<Item>, k: nat)
    requires |scripts| >= 2 && !(|scripts| == 2 && scripts[1].Partner?)
    requires Build(c, scripts).Some? && i < |Build(c, scripts).value.leaves|
    ensures half == scripts[..|scripts| / 2] || half == scripts[|scripts| / 2..]
    ensures Build(c, half).Some? && k < |Build(c, half).value.leaves|
    ensures |Build(c, scripts).value.leaves[i].branch| <= |Build(c, half).value.leaves[k].branch| + 32
  {
    hide Spots, Branch, Void;
    JoinSides(c, scripts);
    var left, right := scripts[..|scripts| / 2], scripts[|scripts| / 2..];
    VoidRoot(c, left);
    VoidRoot(c, right);
    hide Build;
    if i < |Build(c, left).value.leaves| {
      half, k := left, i;
    } else {
      half, k := right, i - |Build(c, left).value.leaves|;
    }
  }

  lemma {:induction false} BranchWithin(c: Crypto, scripts: seq<Item>, i: nat)
    requires Build(c, scripts).Some? && i < |Build(c, scripts).value.leaves|
    ensures |Build(c, scripts).value.leaves[i].branch| <= 32 * Levels(scripts)
    decreases scripts
  {
    hide Branch, LeafHash;
    if |scripts| == 1 {
      if scripts[0].Group? {
        BranchWithin(c, scripts[0].items, i);
      }
    } else if |scripts| == 2 && scripts[1].Partner? {
      BranchWithin(c, scripts[..1], i);
    } else {
      var half, k := BranchInHalf(c, scripts, i);
      hide Build;
      BranchWithin(c, half, k);
    }
  }

  /** A known leaf is what its version and code hash to. */
  lemma {:induction false} LeafIsHash(c: Crypto, scripts: seq<Item>, i: nat)
    requires Build(c, scripts).Some? && i < |Build(c, scripts).value.leaves|
    ensures var l := Build(c, scripts).value.leaves[i]; l.leaf == LeafHash(c, l.version, l.code) && l.version % 2 == 0
    decreases scripts
  {
    hide Branch, LeafHash, Climb, LexLess, Spots;
    if |scripts| == 1 {
      if scripts[0].Group? {
        LeafIsHash(c, scripts[0].items, i);
      }
    } else if |scripts| == 2 && scripts[1].Partner? {
      LeafIsHash(c, scripts[..1], i);
    } else {
      JoinSides(c, scripts);
      hide Build;
      var half := |scripts| / 2;
      if i < |Build(c, scripts[..half]).value.leaves| {
        LeafIsHash(c, scripts[..half], i);
      } else {
        LeafIsHash(c, scripts[half..], i - |Build(c, scripts[..half]).value.leaves|);
      }
    }
  }

  /** What the verifier makes of a leaf's control block: it comes down to where the
      path climbs. */
  lemma ControlBlockVerdict(c: Crypto, key: Digest, scripts: seq<Item>, i: nat)
    requires Construct(c, key, scripts).Some? && Levels(scripts) <= 128
    requires i < |Spots(scripts)| && Spots(scripts)[i].version == LEAF_VERSION_BLL
    ensures var info := Construct(c, key, scripts).value;
      && i < |info.leaves|
      && var l := info.leaves[i];
      && l.version == LEAF_VERSION_BLL && |l.branch| % 32 == 0
      && var t := c.tweakAdd(key, c.hash(TapTweak, key + Climb(c, l.leaf, l.branch)));
      VerifyCommitment(c, info.scriptPubKey, l.code, ControlBlock(key, info, l)) ==
      if t.None? then Some(InvalidKey)
      else if [0x51, 0x20] + t.value.key != info.scriptPubKey || (if t.value.parity then 1 else 0) != info.parity
      then Some(Mismatch) else None
  {
    hide Build, Climb, LeafHash, Spots, Levels;
    BuiltAligned(c, scripts);
    LeafIsHash(c, scripts, i);
    BranchWithin(c, scripts, i);
    var info := Construct(c, key, scripts).value;
    var l := info.leaves[i];
    var control := ControlBlock(key, info, l);
    assert control[1..33] == key && control[33..] == l.branch;
    assert info.scriptPubKey[2..34] == info.scriptPubKey[2..];
  }

  /** The output of a tree commits to the leaf, for every hash and tweak: the
      control block built for it is accepted whenever the output exists. */
  ghost predicate AlwaysAccepted(key: Digest, scripts: seq<Item>, i: nat) {
    forall c: Crypto | Construct(c, key, scripts).Some? && i < |Construct(c, key, scripts).value.leaves| ::
      var info := Construct(c, key, scripts).value;
      && info.leaves[i].version % 2 == 0 && info.parity <= 1
      && VerifyCommitment(c, info.scriptPubKey, info.leaves[i].code, ControlBlock(key, info, info.leaves[i])) == None
  }

  /** Builder and verifier agree on a leaf of the bll version, in a tree of depth at
      most 128, exactly if no list beside the leaf's path is void. */
  lemma AcceptedExactlyBesideNoVoid(key: Digest, scripts: seq<Item>, i: nat)
    requires WellPlaced(scripts) && Levels(scripts) <= 128
    requires i < |Spots(scripts)| && Spots(scripts)[i].version == LEAF_VERSION_BLL
    ensures AlwaysAccepted(key, scripts, i) <==> Spots(scripts)[i].voids == 0
  {
    hide Build, Climb, VerifyCommitment, Spots, Levels;
    if Spots(scripts)[i].voids == 0 {
      forall c: Crypto | Construct(c, key, scripts).Some?
        ensures var info := Construct(c, key, scripts).value;
          && i < |info.leaves| && info.leaves[i].version % 2 == 0 && info.parity <= 1
          && VerifyCommitment(c, info.scriptPubKey, info.leaves[i].code, ControlBlock(key, info, info.leaves[i])) ==
              None
      {
        BuiltAligned(c, scripts);
        ControlBlockVerdict(c, key, scripts, i);
        PathReachesRoot(c, scripts, i);
      }
    }
    if AlwaysAccepted(key, scripts, i) {
      BuildsExactly(COUNTING, scripts);
      NeverBeside(key, scripts, i);
    }
  }

  lemma NeverBeside(key: Digest, scripts: seq<Item>, i: nat)
    requires Build(COUNTING, scripts).Some? && Levels(scripts) <= 128
    requires i < |Spots(scripts)| && Spots(scripts)[i].version == LEAF_VERSION_BLL
    requires AlwaysAccepted(key, scripts, i)
    ensures Spots(scripts)[i].voids == 0
  {
    hide Build, Climb, VerifyCommitment, Spots, Levels;
    var c := COUNTING;
    BuiltAligned(c, scripts);
    VoidRoot(c, scripts);
    VoidsWithin(scripts, i);
    PathFallsBehind(scripts, i);
    ControlBlockVerdict(c, key, scripts, i);
    var info := Construct(c, key, scripts).value;
    var l := info.leaves[i];
    var node := Climb(c, l.leaf, l.branch);
    SameTweak(key, node, info.root);
  }

  /** The counting tweaks of two nodes agree only if the nodes count the same. */
  lemma SameTweak(key: Digest, a: Bytes, b: Bytes)
    requires Whole(a) && Whole(b)
    requires [0x51, 0x20] + CountingHash(TapTweak, key + a) == [0x51, 0x20] + CountingHash(TapTweak, key + b)
    ensures Count(a) == Count(b)
  {
    FirstsTwo(key, a);
    FirstsTwo(key, b);
    assert ([0x51, 0x20] + CountingHash(TapTweak, key + a))[2] == CountingHash(TapTweak, key + a)[0];
    assert ([0x51, 0x20] + CountingHash(TapTweak, key + b))[2] == CountingHash(TapTweak, key + b)[0];
  }

  /** A tree with an empty list in it: the leaf beside the list cannot be spent. */
  lemma EmptyListBreaks(key: Digest, name: string, code: Bytes)
    ensures !AlwaysAccepted(key, [Leaf(Some(name), LEAF_VERSION_BLL, code), Group([])], 0)
  {
    hide AlwaysAccepted;
    var scripts := [Leaf(Some(name), LEAF_VERSION_BLL, code), Group([])];
    assert scripts[..1] == [scripts[0]] && scripts[1..] == [scripts[1]];
    assert Void(scripts[1..]) && Spots(scripts[1..]) == [];
    assert Spots(scripts[..1]) == [Spot(LEAF_VERSION_BLL, 0)];
    assert Spots(scripts)[0] == Spot(LEAF_VERSION_BLL, 1);
    assert WellPlaced(scripts[..1]) && WellPlaced(scripts[1..]);
    assert Levels(scripts[..1]) == 0 && Levels(scripts[1..]) == 0;
    AcceptedExactlyBesideNoVoid(key, scripts, 0);
  }
}
