/** The per-cell Merkle log. Digests are an arbitrary type and the hash of a pair is an
    arbitrary function; only the binding results assume that it is injective. An odd
    layer is padded with its own last element. */
module Merkle {
  import opened Prelude

  type Hash<!D> = (D, D) -> D

  ghost predicate SameDigest<D>(h: Hash<D>, a: D, b: D, c: D, d: D) {
    h(a, b) == h(c, d)
  }

  ghost predicate Injective<D(!new)>(h: Hash<D>) {
    forall a, b, c, d :: SameDigest(h, a, b, c, d) ==> a == c && b == d
  }

  datatype Side = L | R

  datatype Proof<D> = Proof(leafIndex: nat, leafHash: D, siblings: seq<D>, positions: seq<Side>, root: D)

  // ---- Layers ----

  /** The element paired with position `i` of a layer, through the padding. */
  function At<D>(layer: seq<D>, i: nat): D
    requires layer != []
  {
    if i < |layer| then layer[i] else layer[|layer| - 1]
  }

  ghost function NextLayer<D>(h: Hash<D>, layer: seq<D>): seq<D> {
    seq((|layer| + 1) / 2, k requires 0 <= k < (|layer| + 1) / 2 => h(layer[2 * k], At(layer, 2 * k + 1)))
  }

  ghost function RootOf<D>(h: Hash<D>, layer: seq<D>): D
    requires layer != []
    decreases |layer|
  {
    if |layer| == 1 then layer[0] else RootOf(h, NextLayer(h, layer))
  }

  ghost function Height(n: nat): nat {
    if n <= 1 then 0 else 1 + Height((n + 1) / 2)
  }

  ghost function Pow2(h: nat): nat {
    if h == 0 then 1 else 2 * Pow2(h - 1)
  }

  /** The height is the least exponent whose power of two covers all leaves. */
  lemma {:induction false} HeightIsLeast(n: nat, h: nat)
    requires n >= 1
    ensures Pow2(h) >= n <==> h >= Height(n)
    decreases n
  {
    if n > 1 {
      if h == 0 {
      } else {
        HeightIsLeast((n + 1) / 2, h - 1);
      }
    } else {
      PowPositive(h);
    }
  }

  lemma {:induction false} PowPositive(h: nat)
    ensures Pow2(h) >= 1
  {
    if h > 0 {
      PowPositive(h - 1);
    }
  }

  // ---- Proofs as values ----

  function Sibling(i: nat): nat {
    if i % 2 == 0 then i + 1 else i - 1
  }

  ghost function Siblings<D>(h: Hash<D>, layer: seq<D>, i: nat): seq<D>
    requires i < |layer|
    decreases |layer|
  {
    if |layer| == 1 then []
    else [At(layer, Sibling(i))] + Siblings(h, NextLayer(h, layer), i / 2)
  }

  /** Bits of the leaf index, lowest first: an odd position has its sibling on the left. */
  ghost function Sides(n: nat, i: nat): seq<Side>
    decreases n
  {
    if n <= 1 then []
    else [if i % 2 == 1 then L else R] + Sides((n + 1) / 2, i / 2)
  }

  ghost function Fold<D>(h: Hash<D>, leaf: D, siblings: seq<D>, positions: seq<Side>): D
    decreases |siblings|
  {
    if siblings == [] || positions == [] then leaf
    else
      var up := if positions[0] == L then h(siblings[0], leaf) else h(leaf, siblings[0]);
      Fold(h, up, siblings[1..], positions[1..])
  }

  ghost predicate Verifies<D>(h: Hash<D>, p: Proof<D>) {
    Fold(h, p.leafHash, p.siblings, p.positions) == p.root
  }

  /** The leaf a list of sides leads down to in a log of `n` leaves, through the padding. */
  ghost function Addressed(n: nat, positions: seq<Side>): nat
    requires n >= 1 && |positions| >= Height(n)
    ensures Addressed(n, positions) < n
    decreases n
  {
    if n == 1 then 0
    else
      var child := 2 * Addressed((n + 1) / 2, positions[1..]) + (if positions[0] == L then 1 else 0);
      if child < n then child else n - 1
  }

  /** One step of the proof builder moves the head of the remaining path to its output. */
  lemma PathStep<D>(h: Hash<D>, layer: seq<D>, i: nat, siblings: seq<D>, positions: seq<Side>)
    requires i < |layer| && |layer| > 1
    ensures i / 2 < |NextLayer(h, layer)| == (|layer| + 1) / 2
    ensures siblings + Siblings(h, layer, i)
         == (siblings + [At(layer, Sibling(i))]) + Siblings(h, NextLayer(h, layer), i / 2)
    ensures positions + Sides(|layer|, i)
         == (positions + [if Sibling(i) < i then L else R]) + Sides(|NextLayer(h, layer)|, i / 2)
  {
    var sibling, side := At(layer, Sibling(i)), if Sibling(i) < i then L else R;
    var rest, sides := Siblings(h, NextLayer(h, layer), i / 2), Sides((|layer| + 1) / 2, i / 2);
    assert Siblings(h, layer, i) == [sibling] + rest;
    assert Sides(|layer|, i) == [side] + sides;
    Regroup(siblings, sibling, rest);
    Regroup(positions, side, sides);
  }

  /** What was emitted so far, followed by the path of the current position, is the whole path. */
  ghost predicate OnPath<D>(h: Hash<D>, layer: seq<D>, i: int, siblings: seq<D>, positions: seq<Side>, path: Path<D>) {
    && 0 <= i < |layer|
    && siblings + Siblings(h, layer, i) == path.siblings
    && positions + Sides(|layer|, i) == path.positions
  }

  datatype Path<D> = Path(siblings: seq<D>, positions: seq<Side>)

  lemma OnPathStep<D>(h: Hash<D>, layer: seq<D>, i: int, siblings: seq<D>, positions: seq<Side>, path: Path<D>)
    requires OnPath(h, layer, i, siblings, positions, path) && |layer| > 1
    ensures OnPath(h, NextLayer(h, layer), i / 2, siblings + [At(layer, Sibling(i))],
                   positions + [if Sibling(i) < i then L else R], path)
  {
    PathStep(h, layer, i, siblings, positions);
  }

  lemma OnPathEnds<D>(h: Hash<D>, layer: seq<D>, i: int, siblings: seq<D>, positions: seq<Side>, path: Path<D>)
    requires OnPath(h, layer, i, siblings, positions, path) && |layer| == 1
    ensures path == Path(siblings, positions)
  {
    assert siblings + [] == siblings && positions + [] == positions;
  }

  lemma Regroup<T>(a: seq<T>, x: T, b: seq<T>)
    ensures a + ([x] + b) == (a + [x]) + b
  {
  }

  // ---- Completeness ----

  lemma {:induction false} ProofLength<D>(h: Hash<D>, layer: seq<D>, i: nat)
    requires i < |layer|
    ensures |Siblings(h, layer, i)| == |Sides(|layer|, i)| == Height(|layer|)
    decreases |layer|
  {
    if |layer| > 1 {
      ProofLength(h, NextLayer(h, layer), i / 2);
    }
  }

  /** One verification step: the pair of position `i` is an element of the next layer. */
  lemma PairIsParent<D>(h: Hash<D>, layer: seq<D>, i: nat)
    requires i < |layer| && |layer| > 1
    ensures i / 2 < |NextLayer(h, layer)|
    ensures NextLayer(h, layer)[i / 2] ==
      if i % 2 == 1 then h(At(layer, Sibling(i)), layer[i]) else h(layer[i], At(layer, Sibling(i)))
  {
  }

  /** The honest path of a leaf folds to the root of the layer. */
  lemma {:induction false} PathFolds<D>(h: Hash<D>, layer: seq<D>, i: nat)
    requires i < |layer|
    ensures Fold(h, layer[i], Siblings(h, layer, i), Sides(|layer|, i)) == RootOf(h, layer)
    decreases |layer|
  {
    if |layer| > 1 {
      var next := NextLayer(h, layer);
      var sibs, sides := Siblings(h, next, i / 2), Sides(|next|, i / 2);
      PairIsParent(h, layer, i);
      PathFolds(h, next, i / 2);
      var s, d := At(layer, Sibling(i)), if i % 2 == 1 then L else R;
      assert ([s] + sibs)[1..] == sibs && ([d] + sides)[1..] == sides;
    }
  }

  /** The honest sides of a leaf lead back to that leaf. */
  lemma {:induction false} SidesAddress(n: nat, i: nat)
    requires i < n
    ensures |Sides(n, i)| == Height(n) && Addressed(n, Sides(n, i)) == i
    decreases n
  {
    if n > 1 {
      SidesAddress((n + 1) / 2, i / 2);
      assert Sides(n, i)[1..] == Sides((n + 1) / 2, i / 2);
    }
  }

  // ---- Binding ----

  /** With an injective pair hash, a path of the right height that folds to the root
      starts at the leaf its sides address. */
  lemma {:induction false} FoldBinds<D(!new)>(h: Hash<D>, layer: seq<D>, leaf: D,
                                              siblings: seq<D>, positions: seq<Side>)
    requires Injective(h) && layer != []
    requires |siblings| == |positions| == Height(|layer|)
    requires Fold(h, leaf, siblings, positions) == RootOf(h, layer)
    ensures leaf == layer[Addressed(|layer|, positions)]
    decreases |layer|
  {
    if |layer| == 1 {
      assert siblings == [] && positions == [];
    } else {
      var next := NextLayer(h, layer);
      var up := if positions[0] == L then h(siblings[0], leaf) else h(leaf, siblings[0]);
      var above, path := siblings[1..], positions[1..];
      assert |next| == (|layer| + 1) / 2 && Height(|layer|) == 1 + Height(|next|);
      FoldBinds(h, next, up, above, path);
      var parent := Addressed(|next|, path);
      PairBinds(h, layer, leaf, siblings[0], positions[0], parent);
      ChildAddressed(layer, positions, parent);
    }
  }

  /** The child of an addressed node on the side of the first bit is the addressed leaf. */
  lemma ChildAddressed<D>(layer: seq<D>, positions: seq<Side>, parent: nat)
    requires |layer| > 1 && |positions| >= Height(|layer|)
    requires parent == Addressed((|layer| + 1) / 2, positions[1..])
    ensures At(layer, 2 * parent + (if positions[0] == L then 1 else 0)) == layer[Addressed(|layer|, positions)]
  {
    AddressedStep(|layer|, positions, parent);
  }

  lemma AddressedStep(n: nat, positions: seq<Side>, parent: nat)
    requires n > 1 && |positions| >= Height(n) && parent == Addressed((n + 1) / 2, positions[1..])
    ensures var child := 2 * parent + (if positions[0] == L then 1 else 0);
      Addressed(n, positions) == if child < n then child else n - 1
  {
  }

  /** A pair that hashes to an element of the next layer holds the two elements below it. */
  lemma PairBinds<D(!new)>(h: Hash<D>, layer: seq<D>, leaf: D, sibling: D, side: Side, parent: nat)
    requires Injective(h) && layer != [] && parent < (|layer| + 1) / 2
    requires (if side == L then h(sibling, leaf) else h(leaf, sibling)) == NextLayer(h, layer)[parent]
    ensures leaf == At(layer, 2 * parent + (if side == L then 1 else 0))
  {
    var left, right := layer[2 * parent], At(layer, 2 * parent + 1);
    assert NextLayer(h, layer)[parent] == h(left, right);
    if side == L {
      assert SameDigest(h, sibling, leaf, left, right);
    } else {
      assert SameDigest(h, leaf, sibling, left, right);
    }
  }

  /** A proof that verifies against the root of a log, with as many steps as the log is
      high, proves exactly the leaf its sides address; with the honest sides of leaf `i`
      it proves leaf `i`. */
  lemma VerifiedProofBinds<D(!new)>(h: Hash<D>, leaves: seq<D>, p: Proof<D>)
    requires Injective(h) && leaves != [] && p.root == RootOf(h, leaves)
    requires |p.siblings| == |p.positions| == Height(|leaves|)
    requires Verifies(h, p)
    ensures p.leafHash == leaves[Addressed(|leaves|, p.positions)]
    ensures forall i: nat :: i < |leaves| && p.positions == Sides(|leaves|, i) ==> p.leafHash == leaves[i]
  {
    FoldBinds(h, leaves, p.leafHash, p.siblings, p.positions);
    forall i: nat | i < |leaves| && p.positions == Sides(|leaves|, i)
      ensures p.leafHash == leaves[i]
    {
      SidesAddress(|leaves|, i);
    }
  }

  /** Logs of equal length with equal roots hold the same leaves. */
  lemma {:induction false} RootBindsLog<D(!new)>(h: Hash<D>, a: seq<D>, b: seq<D>)
    requires Injective(h) && a != [] && |a| == |b|
    requires RootOf(h, a) == RootOf(h, b)
    ensures a == b
    decreases |a|
  {
    if |a| > 1 {
      RootBindsLog(h, NextLayer(h, a), NextLayer(h, b));
      LayerBinds(h, a, b);
    }
  }

  /** The leaf of a log that a path of its height addresses. */
  ghost function LeafAt<D>(layer: seq<D>, path: seq<Side>): D
    requires layer != [] && |path| == Height(|layer|)
  {
    layer[Addressed(|layer|, path)]
  }

  ghost predicate SamePaths<D>(a: seq<D>, b: seq<D>)
    requires a != [] && b != [] && Height(|a|) == Height(|b|)
  {
    forall path: seq<Side> :: |path| == Height(|a|) ==> SameLeaf(a, b, path)
  }

  ghost predicate SameLeaf<D>(a: seq<D>, b: seq<D>, path: seq<Side>)
    requires a != [] && b != [] && Height(|a|) == Height(|b|) == |path|
  {
    LeafAt(a, path) == LeafAt(b, path)
  }

  /** A node one layer up is the pair of the two leaves its path goes on to. */
  lemma LeafPair<D>(h: Hash<D>, layer: seq<D>, path: seq<Side>)
    requires |layer| > 1 && |path| + 1 == Height(|layer|)
    ensures |NextLayer(h, layer)| == (|layer| + 1) / 2 && Height(|NextLayer(h, layer)|) == |path|
    ensures LeafAt(NextLayer(h, layer), path) == h(LeafAt(layer, [R] + path), LeafAt(layer, [L] + path))
  {
    assert ([R] + path)[1..] == path && ([L] + path)[1..] == path;
  }

  /** The full binary tree over the leaves that the paths ending in `path` address: a left node
      has its sibling on the right. */
  ghost function TreeOver<D>(h: Hash<D>, layer: seq<D>, path: seq<Side>): D
    requires layer != [] && |path| <= Height(|layer|)
    decreases Height(|layer|) - |path|
  {
    if |path| == Height(|layer|) then LeafAt(layer, path)
    else h(TreeOver(h, layer, [R] + path), TreeOver(h, layer, [L] + path))
  }

  lemma {:induction false} TreeOneLayerUp<D>(h: Hash<D>, layer: seq<D>, path: seq<Side>)
    requires |layer| > 1 && |path| < Height(|layer|)
    ensures |NextLayer(h, layer)| == (|layer| + 1) / 2 && Height(|NextLayer(h, layer)|) == Height(|layer|) - 1
    ensures TreeOver(h, NextLayer(h, layer), path) == TreeOver(h, layer, path)
    decreases Height(|layer|) - |path|
  {
    HeightStep(|layer|);
    if |path| + 1 == Height(|layer|) {
      LeafPair(h, layer, path);
    } else {
      TreeOneLayerUp(h, layer, [R] + path);
      TreeOneLayerUp(h, layer, [L] + path);
    }
  }

  /** The root built layer by layer, with an odd layer padded by its last element, is that of the
      full tree over the addressed leaves. */
  lemma {:induction false} RootIsTree<D>(h: Hash<D>, layer: seq<D>)
    requires layer != []
    ensures RootOf(h, layer) == TreeOver(h, layer, [])
    decreases |layer|
  {
    HeightStep(|layer|);
    if |layer| > 1 {
      TreeOneLayerUp(h, layer, []);
      RootIsTree(h, NextLayer(h, layer));
    }
  }

  lemma HeightStep(n: nat)
    requires n >= 1
    ensures Height(n) == 0 <==> n == 1
    ensures n > 1 ==> Height(n) == 1 + Height((n + 1) / 2)
  {
  }

  /** Logs of equal height have equal roots if and only if every path of that height leads to
      equal leaves in both, through the padding; lengths may differ. */
  lemma {:induction false} RootsAgreeIff<D(!new)>(h: Hash<D>, a: seq<D>, b: seq<D>)
    requires Injective(h) && a != [] && b != [] && Height(|a|) == Height(|b|)
    ensures RootOf(h, a) == RootOf(h, b) <==> SamePaths(a, b)
    decreases |a|
  {
    HeightStep(|a|);
    HeightStep(|b|);
    if |a| == 1 {
      SingleLeaves(a, b);
    } else {
      var up, vp := NextLayer(h, a), NextLayer(h, b);
      RootsAgreeIff(h, up, vp);
      if SamePaths(up, vp) {
        LayersDescend(h, a, b);
      } else if SamePaths(a, b) {
        LayersAscend(h, a, b);
      }
    }
  }

  lemma SingleLeaves<D>(a: seq<D>, b: seq<D>)
    requires |a| == |b| == 1
    ensures SamePaths(a, b) <==> a[0] == b[0]
  {
    if SamePaths(a, b) {
      assert SameLeaf(a, b, []);
    }
  }

  lemma LayersDescend<D(!new)>(h: Hash<D>, a: seq<D>, b: seq<D>)
    requires Injective(h) && |a| > 1 && |b| > 1 && Height(|a|) == Height(|b|)
    requires Height(|NextLayer(h, a)|) == Height(|NextLayer(h, b)|) == Height(|a|) - 1
    requires SamePaths(NextLayer(h, a), NextLayer(h, b))
    ensures SamePaths(a, b)
  {
    forall path: seq<Side> | |path| == Height(|a|)
      ensures SameLeaf(a, b, path)
    {
      var side, rest := path[0], path[1..];
      assert path == [side] + rest;
      PathDescends(h, a, b, rest, side);
    }
  }

  lemma LayersAscend<D>(h: Hash<D>, a: seq<D>, b: seq<D>)
    requires |a| > 1 && |b| > 1 && Height(|a|) == Height(|b|) && SamePaths(a, b)
    requires Height(|NextLayer(h, a)|) == Height(|NextLayer(h, b)|) == Height(|a|) - 1
    ensures SamePaths(NextLayer(h, a), NextLayer(h, b))
  {
    forall path: seq<Side> | |path| == Height(|NextLayer(h, a)|)
      ensures SameLeaf(NextLayer(h, a), NextLayer(h, b), path)
    {
      PathAscends(h, a, b, path);
    }
  }

  lemma PathDescends<D(!new)>(h: Hash<D>, a: seq<D>, b: seq<D>, path: seq<Side>, side: Side)
    requires Injective(h) && |a| > 1 && |b| > 1 && Height(|a|) == Height(|b|) == |path| + 1
    requires Height(|NextLayer(h, a)|) == Height(|NextLayer(h, b)|) == |path|
    requires SamePaths(NextLayer(h, a), NextLayer(h, b))
    ensures SameLeaf(a, b, [side] + path)
  {
    assert SameLeaf(NextLayer(h, a), NextLayer(h, b), path);
    LeafPair(h, a, path);
    LeafPair(h, b, path);
    EqualPairs(h, LeafAt(a, [R] + path), LeafAt(a, [L] + path), LeafAt(b, [R] + path), LeafAt(b, [L] + path));
  }

  lemma EqualPairs<D(!new)>(h: Hash<D>, a: D, b: D, c: D, d: D)
    requires Injective(h) && h(a, b) == h(c, d)
    ensures a == c && b == d
  {
    assert SameDigest(h, a, b, c, d);
  }

  lemma PathAscends<D>(h: Hash<D>, a: seq<D>, b: seq<D>, path: seq<Side>)
    requires |a| > 1 && |b| > 1 && Height(|a|) == Height(|b|) == |path| + 1 && SamePaths(a, b)
    requires Height(|NextLayer(h, a)|) == Height(|NextLayer(h, b)|) == |path|
    ensures SameLeaf(NextLayer(h, a), NextLayer(h, b), path)
  {
    assert SameLeaf(a, b, [R] + path) && SameLeaf(a, b, [L] + path);
    LeafPair(h, a, path);
    LeafPair(h, b, path);
  }

  /** So every leaf of one log is the leaf of the other that its own sides address. */
  lemma EqualRootsShareLeaves<D(!new)>(h: Hash<D>, a: seq<D>, b: seq<D>, i: nat)
    requires Injective(h) && a != [] && i < |b| && Height(|a|) == Height(|b|)
    requires RootOf(h, a) == RootOf(h, b)
    ensures |Sides(|b|, i)| == Height(|a|) && b[i] == LeafAt(a, Sides(|b|, i))
  {
    RootsAgreeIff(h, a, b);
    SidesAddress(|b|, i);
    assert SameLeaf(a, b, Sides(|b|, i));
  }

  lemma LayerBinds<D(!new)>(h: Hash<D>, a: seq<D>, b: seq<D>)
    requires Injective(h) && a != [] && |a| == |b|
    requires NextLayer(h, a) == NextLayer(h, b)
    ensures a == b
  {
    forall i | 0 <= i < |a|
      ensures a[i] == b[i]
    {
      var k := i / 2;
      assert NextLayer(h, a)[k] == h(a[2 * k], At(a, 2 * k + 1));
      assert NextLayer(h, b)[k] == h(b[2 * k], At(b, 2 * k + 1));
      assert SameDigest(h, a[2 * k], At(a, 2 * k + 1), b[2 * k], At(b, 2 * k + 1));
    }
  }

  // ---- When an append leaves the root unchanged ----

  /** Largest power of two that divides `n`. */
  ghost function TailSize(n: nat): nat
    requires n >= 1
    ensures 1 <= TailSize(n) <= n
  {
    if n % 2 == 1 then 1 else 2 * TailSize(n / 2)
  }

  lemma {:induction false} TailSizeDivides(n: nat)
    requires n >= 1
    ensures exists t: nat, odd: nat {:trigger Pow2(t) * (2 * odd + 1)} ::
      TailSize(n) == Pow2(t) && n == Pow2(t) * (2 * odd + 1)
  {
    if n % 2 == 1 {
      assert Pow2(0) * (2 * (n / 2) + 1) == n;
    } else {
      TailSizeDivides(n / 2);
      var t: nat, odd: nat :| TailSize(n / 2) == Pow2(t) && n / 2 == Pow2(t) * (2 * odd + 1);
      DoubleProduct(Pow2(t), 2 * odd + 1);
      assert Pow2(t + 1) * (2 * odd + 1) == 2 * (n / 2) == n;
    }
  }

  lemma DoubleProduct(x: nat, y: nat)
    ensures (2 * x) * y == 2 * (x * y)
  {
  }

  /** The leaves already end in a block of `x`, as long as the largest power of two that
      divides their number, and that block is not the whole log. */
  ghost predicate EndsInBlockOf<D>(leaves: seq<D>, x: D)
    requires leaves != []
  {
    var n := |leaves|;
    TailSize(n) != n && forall i :: n - TailSize(n) <= i < n ==> leaves[i] == x
  }

  /** No digest is the hash of a pair that begins with it. */
  ghost predicate NoFixpoint<D(!new)>(h: Hash<D>) {
    forall a, b :: !FixedBy(h, a, b)
  }

  ghost predicate FixedBy<D>(h: Hash<D>, a: D, b: D) {
    h(a, b) == a
  }

  lemma AppendToOne<D(!new)>(h: Hash<D>, leaves: seq<D>, x: D)
    requires NoFixpoint(h) && |leaves| == 1
    ensures RootOf(h, leaves + [x]) != RootOf(h, leaves) && !EndsInBlockOf(leaves, x)
  {
    assert NextLayer(h, leaves + [x]) == [h(leaves[0], x)];
    assert RootOf(h, leaves + [x]) == RootOf(h, [h(leaves[0], x)]) == h(leaves[0], x);
    assert !FixedBy(h, leaves[0], x);
  }

  /** A leaf that opens a new pair is paired with itself. */
  lemma AppendToEven<D>(h: Hash<D>, leaves: seq<D>, x: D)
    requires |leaves| % 2 == 0
    ensures NextLayer(h, leaves + [x]) == NextLayer(h, leaves) + [h(x, x)]
  {
    var long, short := NextLayer(h, leaves + [x]), NextLayer(h, leaves);
    forall k | 0 <= k < |short|
      ensures long[k] == short[k]
    {
    }
  }

  lemma AppendToOdd<D(!new)>(h: Hash<D>, leaves: seq<D>, x: D)
    requires Injective(h) && |leaves| % 2 == 1 && |leaves| > 1
    ensures RootOf(h, leaves + [x]) == RootOf(h, leaves) <==> EndsInBlockOf(leaves, x)
  {
    assert TailSize(|leaves|) == 1;
    assert EndsInBlockOf(leaves, x) <==> leaves[|leaves| - 1] == x;
    OddRoots(h, leaves, x);
  }

  lemma OddRoots<D(!new)>(h: Hash<D>, leaves: seq<D>, x: D)
    requires Injective(h) && |leaves| % 2 == 1 && |leaves| > 1
    ensures RootOf(h, leaves + [x]) == RootOf(h, leaves) <==> x == leaves[|leaves| - 1]
  {
    var long, short := NextLayer(h, leaves + [x]), NextLayer(h, leaves);
    var k := |leaves| / 2;
    assert long[k] == h(leaves[|leaves| - 1], x);
    assert short[k] == h(leaves[|leaves| - 1], leaves[|leaves| - 1]);
    assert forall i :: 0 <= i < k ==> long[i] == short[i];
    if x == leaves[|leaves| - 1] {
      assert long == short;
    }
    if RootOf(h, long) == RootOf(h, short) {
      RootBindsLog(h, long, short);
      var last := leaves[|leaves| - 1];
      assert SameDigest(h, last, x, last, last);
    }
  }

  lemma BlockOneLayerUp<D(!new)>(h: Hash<D>, leaves: seq<D>, x: D)
    requires Injective(h) && leaves != [] && |leaves| % 2 == 0
    ensures EndsInBlockOf(NextLayer(h, leaves), h(x, x)) <==> EndsInBlockOf(leaves, x)
  {
    var next, n := NextLayer(h, leaves), |leaves|;
    assert forall k :: 0 <= k < |next| ==> next[k] == h(leaves[2 * k], leaves[2 * k + 1]);
    if EndsInBlockOf(next, h(x, x)) {
      forall i | n - TailSize(n) <= i < n
        ensures leaves[i] == x
      {
        var k := i / 2;
        assert h(x, x) == next[k] == h(leaves[2 * k], leaves[2 * k + 1]);
        assert SameDigest(h, x, x, leaves[2 * k], leaves[2 * k + 1]);
      }
    }
    if EndsInBlockOf(leaves, x) {
      forall k | n / 2 - TailSize(n / 2) <= k < n / 2
        ensures next[k] == h(x, x)
      {
        assert leaves[2 * k] == x && leaves[2 * k + 1] == x;
      }
    }
  }

  /** Appending usually gives a new root; it keeps the old one exactly when the log
      already ends in a block of the appended leaf that the padding would repeat. */
  lemma {:induction false} AppendKeepsRoot<D(!new)>(h: Hash<D>, leaves: seq<D>, x: D)
    requires Injective(h) && NoFixpoint(h) && leaves != []
    ensures RootOf(h, leaves + [x]) == RootOf(h, leaves) <==> EndsInBlockOf(leaves, x)
    decreases |leaves|
  {
    if |leaves| == 1 {
      AppendToOne(h, leaves, x);
    } else if |leaves| % 2 == 1 {
      AppendToOdd(h, leaves, x);
    } else {
      var next := NextLayer(h, leaves);
      AppendToEven(h, leaves, x);
      AppendKeepsRoot(h, next, h(x, x));
      BlockOneLayerUp(h, leaves, x);
      assert RootOf(h, leaves) == RootOf(h, next);
      assert RootOf(h, leaves + [x]) == RootOf(h, next + [h(x, x)]);
    }
  }

  // ---- The log ----

  class MerkleLog<D(==)> {
    const h: Hash<D>
    const leafOf: string -> D
    const emptyRoot: D
    var leaves: seq<D>

    constructor (h: Hash<D>, leafOf: string -> D, emptyRoot: D)
      ensures leaves == [] && this.h == h && this.leafOf == leafOf && this.emptyRoot == emptyRoot
    {
      this.h, this.leafOf, this.emptyRoot := h, leafOf, emptyRoot;
      leaves := [];
    }

    ghost function RootValue(): D
      reads this
    {
      if leaves == [] then emptyRoot else RootOf(h, leaves)
    }

    /** The honest proof for leaf `i`. */
    ghost function HonestProof(i: nat): Proof<D>
      requires i < |leaves|
      reads this
    {
      Proof(i, leaves[i], Siblings(h, leaves, i), Sides(|leaves|, i), RootOf(h, leaves))
    }

    /** The inner loop that the root builder and the proof builder both contain. */
    method BuildNextLayer(layer: seq<D>) returns (next: seq<D>)
      ensures next == NextLayer(h, layer)
    {
      next := [];
      for k := 0 to (|layer| + 1) / 2
        invariant next == NextLayer(h, layer)[..k]
      {
        var i := 2 * k;
        if i + 1 < |layer| {
          next := next + [h(layer[i], layer[i + 1])];
        } else {
          next := next + [h(layer[i], layer[i])];
        }
      }
    }

    method ComputeRoot() returns (root: D)
      ensures root == RootValue()
    {
      if leaves == [] {
        return emptyRoot;
      }
      var layer := leaves;
      while |layer| > 1
        invariant layer != [] && RootOf(h, layer) == RootOf(h, leaves)
        decreases |layer|
      {
        layer := BuildNextLayer(layer);
      }
      return layer[0];
    }

    method Append(eventId: string) returns (root: D)
      modifies this
      ensures leaves == old(leaves) + [leafOf(eventId)]
      ensures root == RootValue()
    {
      leaves := leaves + [leafOf(eventId)];
      root := ComputeRoot();
    }

    /** The proof builder walks the same layers as the root builder. */
    method InclusionProof(leafIndex: int) returns (r: Option<Proof<D>>)
      ensures r.Some? <==> 0 <= leafIndex < |leaves|
      ensures r.Some? ==> r.value == HonestProof(leafIndex)
    {
      if !(0 <= leafIndex < |leaves|) {
        return None;
      }
      var siblings: seq<D>, positions: seq<Side> := [], [];
      var layer, idx := leaves, leafIndex;
      ghost var path := Path(Siblings(h, leaves, leafIndex), Sides(|leaves|, leafIndex));
      assert [] + path.siblings == path.siblings && [] + path.positions == path.positions;
      while |layer| > 1
        invariant OnPath(h, layer, idx, siblings, positions, path)
        decreases |layer|
      {
        var siblingIdx := Sibling(idx);
        var sibling := if siblingIdx >= |layer| then layer[|layer| - 1] else layer[siblingIdx];
        var side := if siblingIdx < idx then L else R;
        OnPathStep(h, layer, idx, siblings, positions, path);
        siblings, positions := siblings + [sibling], positions + [side];
        layer := BuildNextLayer(layer);
        idx := idx / 2;
      }
      OnPathEnds(h, layer, idx, siblings, positions, path);
      var root := ComputeRoot();
      return Some(Proof(leafIndex, leaves[leafIndex], siblings, positions, root));
    }

    /** Every proof the log hands out verifies, has tree height many steps, and its sides
        address its own leaf. */
    lemma HonestProofVerifies(i: nat)
      requires i < |leaves|
      ensures Verifies(h, HonestProof(i))
      ensures |HonestProof(i).siblings| == |HonestProof(i).positions| == Height(|leaves|)
      ensures Addressed(|leaves|, HonestProof(i).positions) == i
    {
      PathFolds(h, leaves, i);
      ProofLength(h, leaves, i);
      SidesAddress(|leaves|, i);
    }
  }

  /** The verifier: fold the siblings in, pairing each with its side. */
  method VerifyInclusionProof<D(==)>(h: Hash<D>, p: Proof<D>) returns (ok: bool)
    ensures ok <==> Verifies(h, p)
  {
    var current := p.leafHash;
    var n := if |p.siblings| <= |p.positions| then |p.siblings| else |p.positions|;
    for i := 0 to n
      invariant Fold(h, current, p.siblings[i..], p.positions[i..]) == Fold(h, p.leafHash, p.siblings, p.positions)
    {
      assert p.siblings[i..][1..] == p.siblings[i + 1..];
      assert p.positions[i..][1..] == p.positions[i + 1..];
      if p.positions[i] == L {
        current := h(p.siblings[i], current);
      } else {
        current := h(current, p.siblings[i]);
      }
    }
    ok := current == p.root;
  }
}
