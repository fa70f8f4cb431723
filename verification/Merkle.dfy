/** Merkle trees over event hashes (`MerkleTree` of `src/proof/index.ts`): layers are hashed in
    pairs and a layer of odd length pairs its last node with itself. */
module Merkle {
  import opened Common
  import opened Hashing

  datatype Side = Left | Right

  /** One entry of an inclusion path: the sibling hash and the side it is on. */
  datatype ProofStep = ProofStep(hash: string, position: Side)

  datatype MerkleTree = MerkleTree(layers: seq<seq<string>>)

  datatype MerkleError = NoLeaves | IndexOutOfBounds(index: int)

  // ---------- Specification ----------

  /** The text hashed for node `i` of the layer above. */
  function PairText(layer: seq<string>, i: nat): string
    requires 2 * i < |layer|
  {
    layer[2 * i] + (if 2 * i + 1 < |layer| then layer[2 * i + 1] else layer[2 * i])
  }

  function NextLayer(h: HashFn, layer: seq<string>): seq<string> {
    seq((|layer| + 1) / 2, i requires 0 <= i < (|layer| + 1) / 2 => h(PairText(layer, i)))
  }

  function MerkleRoot(h: HashFn, leaves: seq<string>): string
    requires leaves != []
    decreases |leaves|
  {
    if |leaves| == 1 then leaves[0] else MerkleRoot(h, NextLayer(h, leaves))
  }

  /** Every string hashed on the way from the leaves to the root. */
  ghost function TreeInputs(h: HashFn, leaves: seq<string>): set<string>
    decreases |leaves|
  {
    if |leaves| <= 1 then {}
    else LayerInputs(leaves) + TreeInputs(h, NextLayer(h, leaves))
  }

  ghost function LayerInputs(layer: seq<string>): set<string> {
    set i | 0 <= i < (|layer| + 1) / 2 :: PairText(layer, i)
  }

  function StepFor(layer: seq<string>, idx: nat): ProofStep
    requires idx < |layer|
  {
    if idx % 2 == 1 then ProofStep(layer[idx - 1], Left)
    else if idx + 1 < |layer| then ProofStep(layer[idx + 1], Right)
    else ProofStep(layer[idx], Right)
  }

  function ProofPath(h: HashFn, leaves: seq<string>, index: nat): seq<ProofStep>
    requires index < |leaves|
    decreases |leaves|
  {
    if |leaves| == 1 then [] else [StepFor(leaves, index)] + ProofPath(h, NextLayer(h, leaves), index / 2)
  }

  function StepText(current: string, step: ProofStep): string {
    if step.position.Left? then step.hash + current else current + step.hash
  }

  /** The root that a path leads to. */
  function Climb(h: HashFn, leaf: string, path: seq<ProofStep>): string
    decreases |path|
  {
    if path == [] then leaf else Climb(h, h(StepText(leaf, path[0])), path[1..])
  }

  ghost function PathInputs(h: HashFn, leaf: string, path: seq<ProofStep>): set<string>
    decreases |path|
  {
    if path == [] then {}
    else {StepText(leaf, path[0])} + PathInputs(h, h(StepText(leaf, path[0])), path[1..])
  }

  /** Number of layers above the leaves. */
  function Depth(n: nat): nat
    requires n > 0
  {
    if n == 1 then 0 else 1 + Depth((n + 1) / 2)
  }

  function Pow2(d: nat): nat {
    if d == 0 then 1 else 2 * Pow2(d - 1)
  }

  /** The layers are those of the tree over the first one. */
  ghost predicate IsTree(h: HashFn, layers: seq<seq<string>>) {
    IsTreePrefix(h, layers) && |layers[|layers| - 1]| == 1
  }

  ghost predicate IsTreePrefix(h: HashFn, layers: seq<seq<string>>) {
    |layers| > 0 &&
    (forall k :: 0 <= k < |layers| ==> |layers[k]| > 0) &&
    forall k :: 0 <= k < |layers| - 1 ==> |layers[k]| > 1 && layers[k + 1] == NextLayer(h, layers[k])
  }

  lemma {:induction false} LayersLeadToRoot(h: HashFn, layers: seq<seq<string>>, k: nat)
    requires IsTree(h, layers) && k < |layers|
    ensures MerkleRoot(h, layers[k]) == layers[|layers| - 1][0]
    ensures Depth(|layers[k]|) == |layers| - 1 - k
    decreases |layers| - k
  {
    if k < |layers| - 1 {
      assert layers[k + 1] == NextLayer(h, layers[k]);
      LayersLeadToRoot(h, layers, k + 1);
    }
  }

  // ---------- Operations ----------

  /** The loop that both Merkle implementations of the repository run on each layer. */
  method HashLayer(h: HashFn, current: seq<string>) returns (next: seq<string>)
    ensures next == NextLayer(h, current)
  {
    next := [];
    var i := 0;
    while i < |current|
      invariant i % 2 == 0 && 0 <= i <= |current| + 1
      invariant |next| == i / 2
      invariant forall j :: 0 <= j < |next| ==> next[j] == h(PairText(current, j))
    {
      assert PairText(current, i / 2) == current[i] + (if i + 1 < |current| then current[i + 1] else current[i]);
      if i + 1 < |current| {
        next := next + [h(current[i] + current[i + 1])];
      } else {
        next := next + [h(current[i] + current[i])];
      }
      i := i + 2;
    }
  }

  method Build(h: HashFn, leaves: seq<string>) returns (r: Result<MerkleTree, MerkleError>)
    ensures leaves == [] ==> r == Err(NoLeaves)
    ensures leaves != [] ==> r.Ok? && r.value.layers != [] && r.value.layers[0] == leaves && IsTree(h, r.value.layers)
  {
    if |leaves| == 0 { return Err(NoLeaves); }
    var layers := [leaves];
    var current := leaves;
    while |current| > 1
      invariant IsTreePrefix(h, layers) && layers[0] == leaves
      invariant current == layers[|layers| - 1]
      decreases |current|
    {
      current := HashLayer(h, current);
      layers := layers + [current];
    }
    r := Ok(MerkleTree(layers));
  }

  method GetRoot(h: HashFn, tree: MerkleTree) returns (root: string)
    requires IsTree(h, tree.layers)
    ensures root == MerkleRoot(h, tree.layers[0])
  {
    LayersLeadToRoot(h, tree.layers, 0);
    root := tree.layers[|tree.layers| - 1][0];
  }

  method GetProof(h: HashFn, tree: MerkleTree, index: int) returns (r: Result<seq<ProofStep>, MerkleError>)
    requires IsTree(h, tree.layers)
    ensures !(0 <= index < |tree.layers[0]|) ==> r == Err(IndexOutOfBounds(index))
    ensures 0 <= index < |tree.layers[0]| ==> r == Ok(ProofPath(h, tree.layers[0], index))
  {
    if index < 0 || index >= |tree.layers[0]| { return Err(IndexOutOfBounds(index)); }
    var proof: seq<ProofStep> := [];
    var idx: nat := index;
    ghost var whole := ProofPath(h, tree.layers[0], index);
    for layerIdx := 0 to |tree.layers| - 1
      invariant idx < |tree.layers[layerIdx]|
      invariant proof + ProofPath(h, tree.layers[layerIdx], idx) == whole
    {
      var layer := tree.layers[layerIdx];
      PathStep(h, tree.layers, layerIdx, idx, proof, whole);
      var isRight := idx % 2 == 1;
      var siblingIdx := if isRight then idx - 1 else idx + 1;
      if siblingIdx < |layer| {
        proof := proof + [ProofStep(layer[siblingIdx], if isRight then Left else Right)];
      } else {
        proof := proof + [ProofStep(layer[idx], Right)];
      }
      idx := idx / 2;
    }
    assert proof + [] == proof;
    r := Ok(proof);
  }

  lemma PathStep(h: HashFn, layers: seq<seq<string>>, k: nat, idx: nat, proof: seq<ProofStep>, whole: seq<ProofStep>)
    requires IsTree(h, layers) && k + 1 < |layers| && idx < |layers[k]|
    requires proof + ProofPath(h, layers[k], idx) == whole
    ensures idx / 2 < |layers[k + 1]|
    ensures proof + [StepFor(layers[k], idx)] + ProofPath(h, layers[k + 1], idx / 2) == whole
  {
    assert layers[k + 1] == NextLayer(h, layers[k]);
    var rest := ProofPath(h, layers[k + 1], idx / 2);
    assert proof + [StepFor(layers[k], idx)] + rest == proof + ([StepFor(layers[k], idx)] + rest);
  }

  method VerifyProof(h: HashFn, leaf: string, proof: seq<ProofStep>, root: string) returns (valid: bool)
    ensures valid <==> Climb(h, leaf, proof) == root
  {
    var current := leaf;
    for i := 0 to |proof|
      invariant Climb(h, current, proof[i..]) == Climb(h, leaf, proof)
    {
      var step := proof[i];
      assert proof[i..][0] == step && proof[i..][1..] == proof[i + 1..];
      if step.position.Left? {
        current := h(step.hash + current);
      } else {
        current := h(current + step.hash);
      }
    }
    assert proof[|proof|..] == [];
    valid := current == root;
  }

  // ---------- Completeness ----------

  /** Every leaf's own path leads from it to the root. */
  lemma {:induction false} Completeness(h: HashFn, leaves: seq<string>, index: nat)
    requires index < |leaves|
    ensures Climb(h, leaves[index], ProofPath(h, leaves, index)) == MerkleRoot(h, leaves)
    ensures |ProofPath(h, leaves, index)| == Depth(|leaves|)
    decreases |leaves|
  {
    if |leaves| > 1 {
      var next := NextLayer(h, leaves);
      OwnStep(h, leaves, index);
      Completeness(h, next, index / 2);
      var path := ProofPath(h, leaves, index);
      assert path[0] == StepFor(leaves, index) && path[1..] == ProofPath(h, next, index / 2);
    }
  }

  /** A node hashed with its sibling is the node above it. */
  lemma OwnStep(h: HashFn, layer: seq<string>, index: nat)
    requires index < |layer|
    ensures |NextLayer(h, layer)| == (|layer| + 1) / 2 > index / 2
    ensures NextLayer(h, layer)[index / 2] == h(StepText(layer[index], StepFor(layer, index)))
  {
    if index % 2 == 1 {
      assert index == 2 * (index / 2) + 1;
    } else {
      assert index == 2 * (index / 2);
    }
    assert StepText(layer[index], StepFor(layer, index)) == PairText(layer, index / 2);
  }

  /** The depth is the smallest exponent of two that covers the leaves. */
  lemma {:induction false} DepthIsLogarithm(n: nat)
    requires n > 0
    ensures n <= Pow2(Depth(n))
    ensures n >= 2 ==> Pow2(Depth(n) - 1) < n
  {
    if n > 1 {
      DepthIsLogarithm((n + 1) / 2);
      if n > 2 {
        assert Pow2(Depth(n) - 1) == 2 * Pow2(Depth((n + 1) / 2) - 1);
      }
    }
  }

  // ---------- Soundness ----------

  ghost predicate AllDigests(leaves: seq<string>) {
    forall i :: 0 <= i < |leaves| ==> |leaves[i]| == DIGEST_LENGTH
  }

  lemma NextLayerDigests(h: HashFn, leaves: seq<string>)
    ensures AllDigests(NextLayer(h, leaves))
  {
    forall i | 0 <= i < |NextLayer(h, leaves)| ensures |NextLayer(h, leaves)[i]| == DIGEST_LENGTH {
      assert IsDigest(h(PairText(leaves, i)));
    }
  }

  /** A step that hashes the same text as a pair of digests starts from one of the two. */
  lemma StepHitsPair(current: string, step: ProofStep, layer: seq<string>, i: nat)
    requires 2 * i < |layer| && AllDigests(layer) && |current| == DIGEST_LENGTH
    requires StepText(current, step) == PairText(layer, i)
    ensures current in layer
  {
    var l := layer[2 * i];
    var r := if 2 * i + 1 < |layer| then layer[2 * i + 1] else layer[2 * i];
    assert |step.hash| == DIGEST_LENGTH;
    assert (l + r)[..DIGEST_LENGTH] == l && (l + r)[DIGEST_LENGTH..] == r;
    if step.position.Left? {
      assert (step.hash + current)[DIGEST_LENGTH..] == current;
    } else {
      assert (current + step.hash)[..DIGEST_LENGTH] == current;
    }
  }

  /** A path of the tree's depth that reaches the root starts at a leaf, whatever sides it claims. */
  lemma {:induction false} Soundness(h: HashFn, leaves: seq<string>, leaf: string, path: seq<ProofStep>)
    requires leaves != [] && AllDigests(leaves) && |leaf| == DIGEST_LENGTH
    requires |path| == Depth(|leaves|)
    requires CollisionFreeOn(h, TreeInputs(h, leaves) + PathInputs(h, leaf, path))
    requires Climb(h, leaf, path) == MerkleRoot(h, leaves)
    ensures leaf in leaves
    decreases |leaves|
  {
    if |leaves| > 1 {
      var next := NextLayer(h, leaves);
      var text := StepText(leaf, path[0]);
      NextLayerDigests(h, leaves);
      assert IsDigest(h(text));
      Soundness(h, next, h(text), path[1..]);
      var i :| 0 <= i < |next| && next[i] == h(text);
      assert PairText(leaves, i) in LayerInputs(leaves);
      StepHitsPair(leaf, path[0], leaves, i);
    } else {
      assert leaf == leaves[0];
    }
  }

  /** Every node of the first layer above the leaves passes as a leaf of the same tree when its
      path is one step short, so the length of the path has to be checked. */
  lemma ShorterPathAcceptsInnerNode(h: HashFn, leaves: seq<string>, index: nat)
    requires |leaves| > 1 && index < |leaves|
    ensures var inner := NextLayer(h, leaves)[index / 2];
            Climb(h, inner, ProofPath(h, leaves, index)[1..]) == MerkleRoot(h, leaves)
    ensures |ProofPath(h, leaves, index)[1..]| == Depth(|leaves|) - 1
  {
    NextLayerLength(h, leaves);
    hide NextLayer, ProducesDigests, StepFor, Climb;
    Completeness(h, NextLayer(h, leaves), index / 2);
    assert ProofPath(h, leaves, index)[1..] == ProofPath(h, NextLayer(h, leaves), index / 2);
  }

  lemma NextLayerLength(h: HashFn, layer: seq<string>)
    ensures |NextLayer(h, layer)| == (|layer| + 1) / 2
  {}

  // ---------- What the root binds ----------

  /** Together with the number of leaves, the root determines every leaf. */
  lemma {:induction false} RootAndLengthBind(h: HashFn, xs: seq<string>, ys: seq<string>)
    requires |xs| == |ys| > 0 && AllDigests(xs) && AllDigests(ys)
    requires CollisionFreeOn(h, TreeInputs(h, xs) + TreeInputs(h, ys))
    requires MerkleRoot(h, xs) == MerkleRoot(h, ys)
    ensures xs == ys
    decreases |xs|
  {
    if |xs| > 1 {
      var xn, yn := NextLayer(h, xs), NextLayer(h, ys);
      NextLayerDigests(h, xs);
      NextLayerDigests(h, ys);
      RootAndLengthBind(h, xn, yn);
      EqualLayersEqualBelow(h, xs, ys);
    }
  }

  lemma EqualLayersEqualBelow(h: HashFn, xs: seq<string>, ys: seq<string>)
    requires |xs| == |ys| && AllDigests(xs) && AllDigests(ys)
    requires CollisionFreeOn(h, LayerInputs(xs) + LayerInputs(ys))
    requires NextLayer(h, xs) == NextLayer(h, ys)
    ensures xs == ys
  {
    forall k | 0 <= k < |xs| ensures xs[k] == ys[k] {
      var i := k / 2;
      assert k == 2 * i || k == 2 * i + 1;
      assert NextLayer(h, xs)[i] == h(PairText(xs, i)) && NextLayer(h, ys)[i] == h(PairText(ys, i));
      assert PairText(xs, i) in LayerInputs(xs) && PairText(ys, i) in LayerInputs(ys);
      SplitPair(xs, ys, i);
    }
  }

  lemma SplitPair(xs: seq<string>, ys: seq<string>, i: nat)
    requires |xs| == |ys| && 2 * i < |xs| && AllDigests(xs) && AllDigests(ys)
    requires PairText(xs, i) == PairText(ys, i)
    ensures xs[2 * i] == ys[2 * i]
    ensures 2 * i + 1 < |xs| ==> xs[2 * i + 1] == ys[2 * i + 1]
  {
    assert PairText(xs, i)[..DIGEST_LENGTH] == xs[2 * i];
    assert PairText(ys, i)[..DIGEST_LENGTH] == ys[2 * i];
    assert 2 * i + 1 < |xs| ==> PairText(xs, i)[DIGEST_LENGTH..] == xs[2 * i + 1];
    assert 2 * i + 1 < |xs| ==> PairText(ys, i)[DIGEST_LENGTH..] == ys[2 * i + 1];
  }

  /** The root alone does not: repeating the last leaf of an odd layer leaves it unchanged. */
  lemma RepeatedLastLeafSameRoot(h: HashFn, leaves: seq<string>)
    requires |leaves| > 1 && |leaves| % 2 == 1
    ensures MerkleRoot(h, leaves + [leaves[|leaves| - 1]]) == MerkleRoot(h, leaves)
  {
    RepeatedLastLeafSameLayer(h, leaves);
  }

  lemma RepeatedLastLeafSameLayer(h: HashFn, leaves: seq<string>)
    requires |leaves| % 2 == 1
    ensures NextLayer(h, leaves + [leaves[|leaves| - 1]]) == NextLayer(h, leaves)
  {
    var more := leaves + [leaves[|leaves| - 1]];
    forall i | 0 <= i < (|leaves| + 1) / 2 ensures PairText(more, i) == PairText(leaves, i) {
      assert more[2 * i] == leaves[2 * i];
    }
  }
}
