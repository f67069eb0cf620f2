/** Padded Merkle trees, their in-place computation and inclusion proofs (internal/v2/merkle/merkle.go). */
module Merkle {
  import opened Prelude

  /** What is hashed: the padding, a leaf's payload or a pair of child hashes, each in its own domain. */
  datatype Preimage = Padding | Payload(bytes: Bytes) | Pair(left: Bytes32, right: Bytes32)

  type NodeHash = Preimage -> Bytes32

  datatype Proof = Proof(index: u32, leafCount: u32, siblings: seq<Bytes32>)

  // ---------------------------------------------------------------- widths and depths

  predicate PowerOfTwo(w: nat) {
    w == 1 || (w > 1 && w % 2 == 0 && PowerOfTwo(w / 2))
  }

  function Doubled(p: nat, n: nat): (r: nat)
    requires p > 0
    ensures n <= r && p <= r
    decreases n - p
  {
    if p >= n then p else Doubled(2 * p, n)
  }

  /** The number of leaves of the padded tree. */
  function Width(n: nat): (r: nat)
    ensures n <= r && 1 <= r
  {
    Doubled(1, n)
  }

  function Depth(w: nat): nat {
    if w <= 1 then 0 else 1 + Depth(w / 2)
  }

  lemma {:induction false} DoubledPower(p: nat, n: nat)
    requires PowerOfTwo(p)
    ensures PowerOfTwo(Doubled(p, n))
    decreases n - p
  {
    if p < n {
      assert 2 * p / 2 == p;
      DoubledPower(2 * p, n);
    }
  }

  lemma WidthPower(n: nat)
    ensures PowerOfTwo(Width(n))
  {
    DoubledPower(1, n);
  }

  lemma {:induction false} SameDepthSameWidth(v: nat, w: nat)
    requires PowerOfTwo(v) && PowerOfTwo(w) && Depth(v) == Depth(w)
    ensures v == w
  {
    if v > 1 && w > 1 {
      SameDepthSameWidth(v / 2, w / 2);
    }
  }

  method NextPowerOfTwo(n: nat) returns (p: nat)
    ensures p == Width(n)
  {
    if n <= 1 {
      return 1;
    }
    p := 1;
    while p < n
      invariant p > 0 && Doubled(p, n) == Width(n)
      decreases n - p
    {
      p := 2 * p;
    }
  }

  method CountLevels(width: nat) returns (depth: nat)
    ensures depth == Depth(width)
  {
    depth := 0;
    var n := width;
    while n > 1
      invariant depth + Depth(n) == Depth(width)
    {
      n := n / 2;
      depth := depth + 1;
    }
  }

  // ---------------------------------------------------------------- roots

  function Padded(h: NodeHash, leaves: seq<Bytes32>): (r: seq<Bytes32>)
    ensures |r| == Width(|leaves|)
  {
    leaves + seq(Width(|leaves|) - |leaves|, i => h(Padding))
  }

  /** The level above: each pair of neighbours hashed. */
  function Halve(h: NodeHash, level: seq<Bytes32>): (r: seq<Bytes32>)
    ensures |r| == |level| / 2
  {
    seq(|level| / 2, i requires 0 <= i < |level| / 2 => h(Pair(level[2 * i], level[2 * i + 1])))
  }

  function Top(h: NodeHash, level: seq<Bytes32>): Bytes32
    requires level != []
    decreases |level|
  {
    if |level| == 1 then level[0] else Top(h, Halve(h, level))
  }

  function RootOf(h: NodeHash, leaves: seq<Bytes32>): Bytes32 {
    Top(h, Padded(h, leaves))
  }

  /** The pair hashed above a node at position `p` of its level. */
  function Joined(node: Bytes32, sibling: Bytes32, p: nat): Preimage {
    if p % 2 == 0 then Pair(node, sibling) else Pair(sibling, node)
  }

  lemma HalveAt(h: NodeHash, level: seq<Bytes32>, p: nat)
    requires |level| % 2 == 0 && p < |level|
    ensures var q := if p % 2 == 0 then p + 1 else p - 1;
            q < |level| && Halve(h, level)[p / 2] == h(Joined(level[p], level[q], p))
  {
    assert p == 2 * (p / 2) + p % 2;
  }

  /** Overwrites the lower half of a level with the level above. */
  method HalveInPlace(h: NodeHash, level: array<Bytes32>, width: nat)
    requires width % 2 == 0 && width <= level.Length
    modifies level
    ensures level[..width / 2] == Halve(h, old(level[..width]))
  {
    hide Halve;
    ghost var was, next := level[..width], Halve(h, level[..width]);
    ghost var half := 0;
    var i := 0;
    while i < width
      invariant 0 <= i == 2 * half <= width
      invariant forall k :: 0 <= k < half ==> level[k] == next[k]
      invariant forall k :: i <= k < width ==> level[k] == was[k]
    {
      HalveAt(h, was, i);
      level[i / 2] := h(Pair(level[i], level[i + 1]));
      i, half := i + 2, half + 1;
    }
    assert level[..width / 2] == next;
  }

  lemma OneLevelUp(h: NodeHash, level: seq<Bytes32>)
    requires |level| > 1 && PowerOfTwo(|level|)
    ensures |level| % 2 == 0 && PowerOfTwo(|level| / 2) && Depth(|level|) == 1 + Depth(|level| / 2)
    ensures Top(h, level) == Top(h, Halve(h, level))
  {
  }

  lemma AtTheTop(h: NodeHash, level: seq<Bytes32>)
    requires |level| == 1
    ensures Top(h, level) == level[0] && Depth(1) == 0
  {
  }

  /** The caller's leaves copied into a private level and padded. */
  method Pad(h: NodeHash, leaves: seq<Bytes32>) returns (level: array<Bytes32>, width: nat)
    ensures fresh(level) && level.Length == width && level[..] == Padded(h, leaves) && PowerOfTwo(width)
  {
    width := NextPowerOfTwo(|leaves|);
    WidthPower(|leaves|);
    level := new Bytes32[width];
    var i := 0;
    while i < |leaves|
      invariant 0 <= i <= |leaves| && level[..i] == leaves[..i]
    {
      level[i] := leaves[i];
      i := i + 1;
    }
    var padding := h(Padding);
    while i < width
      invariant |leaves| <= i <= width && level[..i] == Padded(h, leaves)[..i]
    {
      level[i] := padding;
      i := i + 1;
    }
  }

  method Root(h: NodeHash, leaves: seq<Bytes32>) returns (root: Bytes32)
    ensures root == RootOf(h, leaves)
  {
    hide Halve;
    if |leaves| == 0 {
      assert Padded(h, leaves) == [h(Padding)];
      return h(Padding);
    }
    var level, width := Pad(h, leaves);
    assert level[..width] == level[..];
    while width > 1
      invariant 0 < width <= level.Length && PowerOfTwo(width)
      invariant Top(h, level[..width]) == RootOf(h, leaves)
    {
      HalveInPlace(h, level, width);
      width := width / 2;
    }
    return level[0];
  }

  // ---------------------------------------------------------------- trees

  datatype Tree = Blank | Leaf(payload: Bytes) | Node(left: Tree, right: Tree)

  function Input(h: NodeHash, t: Tree): Preimage
    decreases t, 0
  {
    match t
    case Blank => Padding
    case Leaf(payload) => Payload(payload)
    case Node(left, right) => Pair(Digest(h, left), Digest(h, right))
  }

  function Digest(h: NodeHash, t: Tree): Bytes32
    decreases t, 1
  {
    h(Input(h, t))
  }

  /** At one place of the two trees, different inputs have one hash. */
  predicate Clash(h: NodeHash, s: Tree, t: Tree) {
    || (Input(h, s) != Input(h, t) && Digest(h, s) == Digest(h, t))
    || (s.Node? && t.Node? && (Clash(h, s.left, t.left) || Clash(h, s.right, t.right)))
  }

  /** A digest binds the whole tree. */
  lemma {:induction false} DigestBinds(h: NodeHash, s: Tree, t: Tree)
    requires Digest(h, s) == Digest(h, t)
    ensures s == t || Clash(h, s, t)
  {
    if s.Node? && t.Node? && Input(h, s) == Input(h, t) {
      DigestBinds(h, s.left, t.left);
      DigestBinds(h, s.right, t.right);
    }
  }

  lemma {:induction false} NoClashWithItself(h: NodeHash, t: Tree)
    ensures !Clash(h, t, t)
  {
    if t.Node? {
      NoClashWithItself(h, t.left);
      NoClashWithItself(h, t.right);
    }
  }

  function Paired(ts: seq<Tree>): (r: seq<Tree>)
    ensures |r| == |ts| / 2
  {
    seq(|ts| / 2, i requires 0 <= i < |ts| / 2 => Node(ts[2 * i], ts[2 * i + 1]))
  }

  function Build(ts: seq<Tree>): Tree
    requires ts != []
    decreases |ts|
  {
    if |ts| == 1 then ts[0] else Build(Paired(ts))
  }

  function Bottom(payloads: seq<Bytes>): (r: seq<Tree>)
    ensures |r| == Width(|payloads|)
  {
    seq(|payloads|, i requires 0 <= i < |payloads| => Leaf(payloads[i]))
    + seq(Width(|payloads|) - |payloads|, i => Blank)
  }

  /** The tree whose digest is the root of the payloads. */
  function TreeOf(payloads: seq<Bytes>): Tree {
    Build(Bottom(payloads))
  }

  function Digests(h: NodeHash, ts: seq<Tree>): (r: seq<Bytes32>)
    ensures |r| == |ts|
  {
    seq(|ts|, i requires 0 <= i < |ts| => Digest(h, ts[i]))
  }

  function LeafHashes(h: NodeHash, payloads: seq<Bytes>): (r: seq<Bytes32>)
    ensures |r| == |payloads|
  {
    seq(|payloads|, i requires 0 <= i < |payloads| => h(Payload(payloads[i])))
  }

  lemma {:induction false} TopIsDigest(h: NodeHash, ts: seq<Tree>)
    requires ts != []
    ensures Top(h, Digests(h, ts)) == Digest(h, Build(ts))
    decreases |ts|
  {
    hide Digest, Halve, Paired;
    if |ts| > 1 {
      TopIsDigest(h, Paired(ts));
      PairedDigests(h, ts);
    }
  }

  lemma PairedDigests(h: NodeHash, ts: seq<Tree>)
    ensures Halve(h, Digests(h, ts)) == Digests(h, Paired(ts))
  {
    forall i | 0 <= i < |ts| / 2 ensures Halve(h, Digests(h, ts))[i] == Digests(h, Paired(ts))[i] {
      var l, r := ts[2 * i], ts[2 * i + 1];
      assert Paired(ts)[i] == Node(l, r) && Digests(h, Paired(ts))[i] == Digest(h, Node(l, r));
      assert Digests(h, ts)[2 * i] == Digest(h, l) && Digests(h, ts)[2 * i + 1] == Digest(h, r);
      assert Digest(h, Node(l, r)) == h(Pair(Digest(h, l), Digest(h, r)));
    }
  }

  /** The root is the digest of the tree. */
  lemma RootIsDigest(h: NodeHash, payloads: seq<Bytes>)
    ensures RootOf(h, LeafHashes(h, payloads)) == Digest(h, TreeOf(payloads))
  {
    hide Top, Build, Digest;
    TopIsDigest(h, Bottom(payloads));
    BottomDigests(h, payloads);
  }

  lemma BottomDigests(h: NodeHash, payloads: seq<Bytes>)
    ensures Padded(h, LeafHashes(h, payloads)) == Digests(h, Bottom(payloads))
  {
    hide Width;
    var xs, ys := Padded(h, LeafHashes(h, payloads)), Digests(h, Bottom(payloads));
    forall i | 0 <= i < Width(|payloads|) ensures xs[i] == ys[i] {
      assert ys[i] == Digest(h, Bottom(payloads)[i]) == h(Input(h, Bottom(payloads)[i]));
    }
  }

  // ---------------------------------------------------------------- the leaves of a tree

  function Frontier(t: Tree): seq<Tree> {
    if t.Node? then Frontier(t.left) + Frontier(t.right) else [t]
  }

  function Frontiers(ts: seq<Tree>): seq<Tree> {
    if ts == [] then [] else Frontier(ts[0]) + Frontiers(ts[1..])
  }

  lemma {:induction false} PairedFrontiers(ts: seq<Tree>)
    requires |ts| % 2 == 0
    ensures Frontiers(Paired(ts)) == Frontiers(ts)
  {
    if ts != [] {
      var rest := ts[2..];
      PairedFrontiers(rest);
      assert Paired(ts)[0] == Node(ts[0], ts[1]) && Paired(ts)[1..] == Paired(rest) && ts[1..][1..] == rest;
      assert ts[1..][0] == ts[1];
    }
  }

  lemma {:induction false} BuildFrontier(ts: seq<Tree>)
    requires PowerOfTwo(|ts|)
    ensures Frontier(Build(ts)) == Frontiers(ts)
    decreases |ts|
  {
    if |ts| == 1 {
      assert ts[1..] == [];
    } else {
      BuildFrontier(Paired(ts));
      PairedFrontiers(ts);
    }
  }

  lemma {:induction false} FlatFrontiers(ts: seq<Tree>)
    requires forall i :: 0 <= i < |ts| ==> !ts[i].Node?
    ensures Frontiers(ts) == ts
  {
    if ts != [] {
      FlatFrontiers(ts[1..]);
    }
  }

  lemma TreeFrontier(payloads: seq<Bytes>)
    ensures Frontier(TreeOf(payloads)) == Bottom(payloads)
  {
    hide Build, Frontier, Frontiers;
    WidthPower(|payloads|);
    BuildFrontier(Bottom(payloads));
    FlatFrontiers(Bottom(payloads));
  }

  lemma BottomAt(xs: seq<Bytes>, i: nat)
    requires i < Width(|xs|)
    ensures Bottom(xs)[i] == if i < |xs| then Leaf(xs[i]) else Blank
  {
  }

  lemma BottomBinds(xs: seq<Bytes>, ys: seq<Bytes>)
    requires Bottom(xs) == Bottom(ys)
    ensures xs == ys
  {
    hide Width, Bottom;
    if |xs| < |ys| {
      BottomAt(ys, |xs|);
      BottomAt(xs, |xs|);
    }
    if |ys| < |xs| {
      BottomAt(xs, |ys|);
      BottomAt(ys, |ys|);
    }
    forall i | 0 <= i < |xs| && i < |ys| ensures xs[i] == ys[i] {
      BottomAt(xs, i);
      BottomAt(ys, i);
    }
  }

  /** One root means one list of payloads, number and order included, or a clash inside the two trees. */
  lemma RootBinds(h: NodeHash, xs: seq<Bytes>, ys: seq<Bytes>)
    requires RootOf(h, LeafHashes(h, xs)) == RootOf(h, LeafHashes(h, ys))
    ensures xs == ys || Clash(h, TreeOf(xs), TreeOf(ys))
  {
    hide RootOf, Digest, TreeOf, Frontier, Bottom, Clash;
    RootIsDigest(h, xs);
    RootIsDigest(h, ys);
    DigestBinds(h, TreeOf(xs), TreeOf(ys));
    if TreeOf(xs) == TreeOf(ys) {
      TreeFrontier(xs);
      TreeFrontier(ys);
      BottomBinds(xs, ys);
    }
  }

  // ---------------------------------------------------------------- inclusion proofs

  function Halved(p: nat, k: nat): nat {
    if k == 0 then p else Halved(p, k - 1) / 2
  }

  /** The hash reached from a leaf by joining it with one sibling per level. */
  function Ascend(h: NodeHash, leaf: Bytes32, p: nat, siblings: seq<Bytes32>): Bytes32 {
    if siblings == [] then leaf
    else
      var n := |siblings| - 1;
      h(Joined(Ascend(h, leaf, p, siblings[..n]), siblings[n], Halved(p, n)))
  }

  predicate Verifies(h: NodeHash, root: Bytes32, leaf: Bytes32, proof: Proof) {
    && proof.index < proof.leafCount
    && |proof.siblings| == Depth(Width(proof.leafCount))
    && Ascend(h, leaf, proof.index, proof.siblings) == root
  }

  method Verify(h: NodeHash, root: Bytes32, leaf: Bytes32, proof: Proof) returns (ok: bool)
    ensures ok <==> Verifies(h, root, leaf, proof)
  {
    if proof.leafCount == 0 || proof.index >= proof.leafCount {
      return false;
    }
    var target := NextPowerOfTwo(proof.leafCount);
    var requiredDepth := CountLevels(target);
    if |proof.siblings| != requiredDepth {
      return false;
    }
    var current, position, i := leaf, proof.index as nat, 0;
    while i < |proof.siblings|
      invariant 0 <= i <= |proof.siblings| && position == Halved(proof.index, i)
      invariant current == Ascend(h, leaf, proof.index, proof.siblings[..i])
    {
      assert proof.siblings[..i + 1][..i] == proof.siblings[..i];
      current := h(Joined(current, proof.siblings[i], position));
      position := position / 2;
      i := i + 1;
    }
    assert proof.siblings[..i] == proof.siblings;
    return current == root;
  }

  /** Every leaf's proof verifies against the root. */
  method BuildProof(h: NodeHash, leaves: seq<Bytes32>, index: int) returns (r: Option<Proof>)
    ensures r.Some? <==> 0 <= index < |leaves|
    ensures r.Some? && |leaves| < U32_LIMIT ==>
              r.value.index == index && r.value.leafCount == |leaves| && Verifies(h, RootOf(h, leaves), leaves[index], r.value)
  {
    hide Halve, Ascend, Padded, Top, Depth, PowerOfTwo, Joined;
    if index < 0 || index >= |leaves| {
      return None;
    }
    var level, width := Pad(h, leaves);
    assert level[..width] == level[..] == Padded(h, leaves);
    Below(h, leaves, index);
    var siblings: seq<Bytes32> := [];
    var position := index;
    ghost var all := width;
    while width > 1
      invariant 0 < width <= level.Length && PowerOfTwo(width) && |siblings| + Depth(width) == Depth(all)
      invariant Top(h, level[..width]) == RootOf(h, leaves)
      invariant 0 <= position == Halved(index, |siblings|) < width
      invariant Ascend(h, leaves[index], index, siblings) == level[position]
    {
      var sibling := level[if position % 2 == 0 then position + 1 else position - 1];
      ghost var below := level[..width];
      OneLevelUp(h, below);
      HalveInPlace(h, level, width);
      HalveAt(h, below, position);
      assert level[position / 2] == level[..width / 2][position / 2];
      AscendSnoc(h, leaves[index], index, siblings, sibling);
      siblings := siblings + [sibling];
      position := position / 2;
      width := width / 2;
    }
    AtTheTop(h, level[..width]);
    return Some(Proof(index % U32_LIMIT, |leaves| % U32_LIMIT, siblings));
  }

  lemma Below(h: NodeHash, leaves: seq<Bytes32>, index: nat)
    requires index < |leaves|
    ensures Padded(h, leaves)[index] == Ascend(h, leaves[index], index, []) == leaves[index]
  {
  }

  lemma AscendSnoc(h: NodeHash, leaf: Bytes32, p: nat, siblings: seq<Bytes32>, sibling: Bytes32)
    ensures Ascend(h, leaf, p, siblings + [sibling]) == h(Joined(Ascend(h, leaf, p, siblings), sibling, Halved(p, |siblings|)))
  {
    assert (siblings + [sibling])[..|siblings|] == siblings;
  }

  // ---------------------------------------------------------------- what a proof proves

  /** The subtree `n` levels below, on the path the position's bits spell. */
  function At(t: Tree, p: nat, n: nat): Option<Tree> {
    if n == 0 then Some(t)
    else if !t.Node? then None
    else At(if Halved(p, n - 1) % 2 == 0 then t.left else t.right, p, n - 1)
  }

  /** Along the path, the tree's node and the proof's have different inputs and one hash. */
  predicate PathClash(h: NodeHash, t: Tree, payload: Bytes, p: nat, siblings: seq<Bytes32>)
    decreases |siblings|
  {
    if siblings == [] then Input(h, t) != Payload(payload) && Digest(h, t) == h(Payload(payload))
    else
      var n := |siblings| - 1;
      var input := Joined(Ascend(h, h(Payload(payload)), p, siblings[..n]), siblings[n], Halved(p, n));
      || (Input(h, t) != input && Digest(h, t) == h(input))
      || (t.Node? && PathClash(h, if Halved(p, n) % 2 == 0 then t.left else t.right, payload, p, siblings[..n]))
  }

  lemma {:induction false} AscentFindsLeaf(h: NodeHash, t: Tree, payload: Bytes, p: nat, siblings: seq<Bytes32>)
    requires Ascend(h, h(Payload(payload)), p, siblings) == Digest(h, t)
    ensures At(t, p, |siblings|) == Some(Leaf(payload)) || PathClash(h, t, payload, p, siblings)
    decreases |siblings|
  {
    if siblings != [] {
      var n := |siblings| - 1;
      var input := Joined(Ascend(h, h(Payload(payload)), p, siblings[..n]), siblings[n], Halved(p, n));
      if Input(h, t) == input {
        AscentFindsLeaf(h, if Halved(p, n) % 2 == 0 then t.left else t.right, payload, p, siblings[..n]);
      }
    }
  }

  lemma {:induction false} HalvedShift(p: nat, k: nat)
    ensures Halved(p, k + 1) == Halved(p / 2, k)
  {
    if k > 0 {
      HalvedShift(p, k - 1);
    }
  }

  lemma {:induction false} AtDeeper(t: Tree, p: nat, n: nat)
    requires At(t, p / 2, n).Some? && At(t, p / 2, n).value.Node?
    ensures var parent := At(t, p / 2, n).value; At(t, p, n + 1) == Some(if p % 2 == 0 then parent.left else parent.right)
  {
    if n > 0 {
      HalvedShift(p, n - 1);
      AtDeeper(if Halved(p, n) % 2 == 0 then t.left else t.right, p, n - 1);
    }
  }

  lemma {:induction false} AtBuild(ts: seq<Tree>, p: nat)
    requires PowerOfTwo(|ts|) && p < |ts|
    ensures At(Build(ts), p, Depth(|ts|)) == Some(ts[p])
    decreases |ts|
  {
    if |ts| > 1 {
      AtBuild(Paired(ts), p / 2);
      AtDeeper(Build(ts), p, Depth(|ts| / 2));
      assert p == 2 * (p / 2) + p % 2;
    }
  }

  /** All leaves of the tree are d levels below. */
  predicate Full(t: Tree, d: nat) {
    if d == 0 then !t.Node? else t.Node? && Full(t.left, d - 1) && Full(t.right, d - 1)
  }

  lemma {:induction false} BuildFull(ts: seq<Tree>, d: nat)
    requires PowerOfTwo(|ts|) && forall i :: 0 <= i < |ts| ==> Full(ts[i], d)
    ensures Full(Build(ts), d + Depth(|ts|))
    decreases |ts|
  {
    if |ts| > 1 {
      BuildFull(Paired(ts), d + 1);
    }
  }

  lemma {:induction false} LeafDepth(t: Tree, p: nat, n: nat, d: nat)
    requires Full(t, d) && At(t, p, n).Some? && !At(t, p, n).value.Node?
    ensures n == d
  {
    if n > 0 && d > 0 {
      LeafDepth(if Halved(p, n - 1) % 2 == 0 then t.left else t.right, p, n - 1, d - 1);
    }
  }

  /** A proof that verifies for a payload, whatever leaf count it claims, proves that the payload stands at its index
      and that the claimed count has the tree's width; or it exhibits a clash on its path. */
  lemma ProofIsSound(h: NodeHash, payloads: seq<Bytes>, payload: Bytes, proof: Proof)
    requires Verifies(h, RootOf(h, LeafHashes(h, payloads)), h(Payload(payload)), proof)
    ensures || (proof.index < |payloads| && payloads[proof.index] == payload && Width(proof.leafCount) == Width(|payloads|))
            || PathClash(h, TreeOf(payloads), payload, proof.index, proof.siblings)
  {
    hide RootOf, Digest, Ascend, At, Depth, PathClash, Width, Build, Bottom;
    var t := TreeOf(payloads);
    RootIsDigest(h, payloads);
    AscentFindsLeaf(h, t, payload, proof.index, proof.siblings);
    if !PathClash(h, t, payload, proof.index, proof.siblings) {
      WidthPower(|payloads|);
      WidthPower(proof.leafCount);
      TreeFull(payloads);
      LeafDepth(t, proof.index, |proof.siblings|, Depth(Width(|payloads|)));
      SameDepthSameWidth(Width(proof.leafCount), Width(|payloads|));
      AtBuild(Bottom(payloads), proof.index);
      BottomAt(payloads, proof.index);
    }
  }

  lemma TreeFull(payloads: seq<Bytes>)
    ensures Full(TreeOf(payloads), Depth(Width(|payloads|)))
  {
    WidthPower(|payloads|);
    BuildFull(Bottom(payloads), 0);
  }
}
