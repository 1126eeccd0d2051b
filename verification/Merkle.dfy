/** Merkle trees and Merkle branches (common/primitives/merkle.go).

    A hash is 32 bytes; it is read here as the number those bytes spell. The hash of two
    concatenated hashes is a parameter `H`, so that every statement holds for every hash
    function; the statements that need collision freedom say so. */
module Merkle {
  import opened Options

  type Hash = nat
  type Combine = (Hash, Hash) -> Hash

  datatype MerkleNode = MerkleNode(left: Option<Hash>, right: Option<Hash>, top: Option<Hash>)

  const ZERO_HASH: Hash := 0

  ghost predicate CollisionFree(H: Combine) {
    forall a, b, c, d :: H(a, b) == H(c, d) ==> a == c && b == d
  }

  // ---------------------------------------------------------------- trees

  /** The j-th parent of a level; an odd level's last hash is paired with itself. */
  function Parent(H: Combine, level: seq<Hash>, j: nat): Hash
    requires 2 * j < |level|
  {
    H(level[2 * j], if 2 * j + 1 == |level| then level[2 * j] else level[2 * j + 1])
  }

  function NextLevel(H: Combine, level: seq<Hash>): (next: seq<Hash>)
    ensures |next| == (|level| + 1) / 2
  {
    seq((|level| + 1) / 2, j requires 0 <= j < (|level| + 1) / 2 => Parent(H, level, j))
  }

  /** The root of the tree over the given leaves. */
  function Root(H: Combine, leaves: seq<Hash>): Hash
    requires leaves != []
    decreases |leaves|
  {
    if |leaves| == 1 then leaves[0] else Root(H, NextLevel(H, leaves))
  }

  /** The number of levels above the leaves. */
  function Depth(width: nat): nat
    requires width > 0
  {
    if width == 1 then 0 else 1 + Depth((width + 1) / 2)
  }

  /** All levels of the tree, leaves first, one after the other. */
  function TreeStore(H: Combine, hashes: seq<Hash>): (store: seq<Hash>)
    decreases |hashes|
  {
    if hashes == [] then [ZERO_HASH]
    else if |hashes| == 1 then hashes
    else hashes + TreeStore(H, NextLevel(H, hashes))
  }

  lemma {:induction false} TreeStoreEndsInRoot(H: Combine, hashes: seq<Hash>)
    ensures |TreeStore(H, hashes)| > 0
    ensures hashes != [] ==> TreeStore(H, hashes)[|TreeStore(H, hashes)| - 1] == Root(H, hashes)
    decreases |hashes|
  {
    if |hashes| > 1 {
      TreeStoreEndsInRoot(H, NextLevel(H, hashes));
    }
  }

  method BuildMerkleTreeStore(H: Combine, hashes: seq<Hash>) returns (merkles: seq<Hash>)
    ensures merkles == TreeStore(H, hashes)
    decreases |hashes|
  {
    if |hashes| == 0 {
      return [ZERO_HASH];
    }
    if |hashes| < 2 {
      return hashes;
    }
    var nextLevel := [];
    var i := 0;
    while i < |hashes|
      invariant i % 2 == 0 && 0 <= i <= |hashes| + 1
      invariant |nextLevel| == i / 2
      invariant forall j :: 0 <= j < |nextLevel| ==> nextLevel[j] == Parent(H, hashes, j)
    {
      var node;
      if i + 1 == |hashes| {
        node := H(hashes[i], hashes[i]);
      } else {
        node := H(hashes[i], hashes[i + 1]);
      }
      assert node == Parent(H, hashes, i / 2);
      nextLevel := nextLevel + [node];
      i := i + 2;
    }
    assert nextLevel == NextLevel(H, hashes);
    var nextIteration := BuildMerkleTreeStore(H, nextLevel);
    merkles := hashes + nextIteration;
  }

  /** The stored tree's last entry is the root; an empty list has the zero hash as its root. */
  method ComputeMerkleRoot(H: Combine, hashes: seq<Hash>) returns (root: Hash)
    ensures root == if hashes == [] then ZERO_HASH else Root(H, hashes)
  {
    var merkles := BuildMerkleTreeStore(H, hashes);
    TreeStoreEndsInRoot(H, hashes);
    root := merkles[|merkles| - 1];
  }

  // ---------------------------------------------------------------- branches

  function FullNode(H: Combine, left: Hash, right: Hash): MerkleNode {
    MerkleNode(Some(left), Some(right), Some(H(left, right)))
  }

  /** The full node above position `index` of a level. */
  function NodeAbove(H: Combine, level: seq<Hash>, index: nat): MerkleNode
    requires index < |level|
  {
    var l := index - index % 2;
    FullNode(H, level[l], if l + 1 == |level| then level[l] else level[l + 1])
  }

  /** The full nodes met on the way from leaf `index` to the root. */
  function Branch(H: Combine, level: seq<Hash>, index: nat): seq<MerkleNode>
    requires index < |level|
    decreases |level|
  {
    if |level| == 1 then []
    else [NodeAbove(H, level, index)] + Branch(H, NextLevel(H, level), index / 2)
  }

  /** A full node with only the sibling of a position of the given parity kept. */
  function StripNode(n: MerkleNode, index: nat): MerkleNode {
    if index % 2 == 0 then MerkleNode(None, n.right, None) else MerkleNode(n.left, None, None)
  }

  /** A full branch with, per node, only the sibling of the path to leaf `index` kept. */
  function Stripped(branch: seq<MerkleNode>, index: nat): seq<MerkleNode>
    decreases |branch|
  {
    if branch == [] then []
    else [StripNode(branch[0], index)] + Stripped(branch[1..], index / 2)
  }

  /** The hash a node gives above `cur`, a missing side standing for `cur`. */
  function NodeTop(H: Combine, node: MerkleNode, cur: Hash): Hash {
    H(node.left.GetOr(cur), node.right.GetOr(cur))
  }

  /** The hash reached from `cur` by following all nodes of a branch. */
  function Climb(H: Combine, cur: Hash, branch: seq<MerkleNode>): Hash
    decreases |branch|
  {
    if branch == [] then cur else Climb(H, NodeTop(H, branch[0], cur), branch[1..])
  }

  /** Every node is full, hashes its own sides, and has the hash below it on one side. */
  ghost predicate Chained(H: Combine, cur: Hash, branch: seq<MerkleNode>)
    decreases |branch|
  {
    branch == [] ||
    (&& branch[0].left.Some? && branch[0].right.Some?
     && branch[0] == FullNode(H, branch[0].left.value, branch[0].right.value)
     && (branch[0].left.value == cur || branch[0].right.value == cur)
     && Chained(H, branch[0].top.value, branch[1..]))
  }

  lemma {:induction false} ClimbConcat(H: Combine, cur: Hash, a: seq<MerkleNode>, b: seq<MerkleNode>)
    ensures Climb(H, cur, a + b) == Climb(H, Climb(H, cur, a), b)
    decreases |a|
  {
    if a == [] {
      assert a + b == b;
    } else {
      assert (a + b)[1..] == a[1..] + b;
      ClimbConcat(H, NodeTop(H, a[0], cur), a[1..], b);
    }
  }

  lemma {:induction false} ChainedConcat(H: Combine, cur: Hash, a: seq<MerkleNode>, b: seq<MerkleNode>)
    requires Chained(H, cur, a)
    requires Chained(H, Climb(H, cur, a), b)
    ensures Chained(H, cur, a + b)
    decreases |a|
  {
    if a == [] {
      assert a + b == b;
    } else {
      assert (a + b)[1..] == a[1..] + b;
      ChainedConcat(H, a[0].top.value, a[1..], b);
    }
  }

  /** The node above a position carries the position's hash on the side its parity says, and its
      top is the parent, whether or not the other side is stripped away. */
  lemma NodeAboveParent(H: Combine, level: seq<Hash>, index: nat)
    requires |level| > 1 && index < |level|
    ensures NodeAbove(H, level, index).top == Some(Parent(H, level, index / 2))
    ensures level[index] == if index % 2 == 0 then NodeAbove(H, level, index).left.value
                            else NodeAbove(H, level, index).right.value
    ensures NodeTop(H, StripNode(NodeAbove(H, level, index), index), level[index]) == Parent(H, level, index / 2)
  {
    assert index - index % 2 == 2 * (index / 2);
  }

  /** Completeness: the branch of a leaf is chained and climbs from the leaf to the root. */
  lemma {:induction false} BranchReachesRoot(H: Combine, level: seq<Hash>, index: nat)
    requires index < |level|
    ensures |Branch(H, level, index)| == Depth(|level|)
    ensures Chained(H, level[index], Branch(H, level, index))
    ensures Climb(H, level[index], Branch(H, level, index)) == Root(H, level)
    decreases |level|
  {
    if |level| > 1 {
      var branch := Branch(H, level, index);
      assert branch[1..] == Branch(H, NextLevel(H, level), index / 2);
      NodeAboveParent(H, level, index);
      BranchReachesRoot(H, NextLevel(H, level), index / 2);
    }
  }

  /** So does its stripped form, which is minimal and has the shape of the leaf's path. */
  lemma {:induction false} StrippedReachesRoot(H: Combine, level: seq<Hash>, index: nat)
    requires index < |level|
    ensures |Stripped(Branch(H, level, index), index)| == Depth(|level|)
    ensures AllMinimal(Stripped(Branch(H, level, index), index))
    ensures ShapedFor(Stripped(Branch(H, level, index), index), index)
    ensures Climb(H, level[index], Stripped(Branch(H, level, index), index)) == Root(H, level)
    decreases |level|
  {
    if |level| > 1 {
      var branch := Branch(H, level, index);
      assert branch[1..] == Branch(H, NextLevel(H, level), index / 2);
      var stripped := Stripped(branch, index);
      assert stripped[1..] == Stripped(branch[1..], index / 2);
      NodeAboveParent(H, level, index);
      StrippedReachesRoot(H, NextLevel(H, level), index / 2);
    }
  }

  /** Exactly one side, and no top. */
  predicate Minimal(node: MerkleNode) {
    node.top.None? && (node.left.None? <==> node.right.Some?)
  }

  ghost predicate AllMinimal(branch: seq<MerkleNode>) {
    forall i :: 0 <= i < |branch| ==> Minimal(branch[i])
  }

  /** The same sides are missing in both branches. */
  ghost predicate SameShape(p: seq<MerkleNode>, q: seq<MerkleNode>) {
    |p| == |q| && forall i :: 0 <= i < |p| ==> (p[i].left.None? <==> q[i].left.None?)
  }

  /** The side left free at every node is the one on the path to leaf `index`. */
  ghost predicate ShapedFor(branch: seq<MerkleNode>, index: nat)
    decreases |branch|
  {
    branch == [] || ((branch[0].left.None? <==> index % 2 == 0) && ShapedFor(branch[1..], index / 2))
  }

  lemma {:induction false} ShapedForSame(p: seq<MerkleNode>, q: seq<MerkleNode>, index: nat)
    requires |p| == |q| && ShapedFor(p, index) && ShapedFor(q, index)
    ensures SameShape(p, q)
    decreases |p|
  {
    if p != [] {
      ShapedForSame(p[1..], q[1..], index / 2);
      assert p == [p[0]] + p[1..] && q == [q[0]] + q[1..];
    }
  }

  /** With a collision-free hash, two minimal branches of one shape that reach the same hash
      start from the same hash and have the same siblings. */
  lemma {:induction false} MinimalBranchUnique(H: Combine, a: Hash, b: Hash,
                                               p: seq<MerkleNode>, q: seq<MerkleNode>)
    requires CollisionFree(H)
    requires SameShape(p, q) && AllMinimal(p) && AllMinimal(q)
    requires Climb(H, a, p) == Climb(H, b, q)
    ensures a == b && p == q
    decreases |p|
  {
    if p != [] {
      MinimalBranchUnique(H, NodeTop(H, p[0], a), NodeTop(H, q[0], b), p[1..], q[1..]);
      assert p == [p[0]] + p[1..] && q == [q[0]] + q[1..];
    }
  }

  /** Soundness: with a collision-free hash, a minimal branch of the tree's depth that climbs
      from `x` at position `index` to the tree's root proves that leaf `index` is `x`, and it
      is the branch the tree itself gives. */
  lemma MembershipSound(H: Combine, leaves: seq<Hash>, index: nat, x: Hash, branch: seq<MerkleNode>)
    requires CollisionFree(H)
    requires index < |leaves|
    requires |branch| == Depth(|leaves|) && AllMinimal(branch) && ShapedFor(branch, index)
    requires Climb(H, x, branch) == Root(H, leaves)
    ensures x == leaves[index]
    ensures branch == Stripped(Branch(H, leaves, index), index)
  {
    StrippedReachesRoot(H, leaves, index);
    ShapedForSame(branch, Stripped(Branch(H, leaves, index), index), index);
    MinimalBranchUnique(H, x, leaves[index], branch, Stripped(Branch(H, leaves, index), index));
  }

  // ---------------------------------------------------------------- the branch builder

  /** What the builder returns: the full branch, or the stripped one. */
  function Detail(branch: seq<MerkleNode>, index: nat, fullDetail: bool): seq<MerkleNode> {
    if fullDetail then branch else Stripped(branch, index)
  }

  lemma {:induction false} TreeStoreLength(H: Combine, level: seq<Hash>)
    ensures |TreeStore(H, level)| >= |level|
    ensures level != [] ==> TreeStore(H, level)[..|level|] == level
  {
  }

  /** Reading one hash of a level, its parent and the rest of the store off the flat store. */
  lemma {:induction false} StoreAt(H: Combine, tree: seq<Hash>, offset: nat, level: seq<Hash>, k: nat)
    requires offset <= |tree| && |level| > 1 && k < |level|
    requires tree[offset..] == TreeStore(H, level)
    ensures offset + |level| + k / 2 < |tree|
    ensures tree[offset + k] == level[k]
    ensures tree[offset + |level| + k / 2] == Parent(H, level, k / 2)
    ensures tree[offset + |level|..] == TreeStore(H, NextLevel(H, level))
  {
    var next := NextLevel(H, level);
    var rest := TreeStore(H, next);
    TreeStoreLength(H, next);
    assert |tree| - offset == |level| + |rest|;
    assert tree[offset + k] == tree[offset..][k];
    assert tree[offset + |level| + k / 2] == tree[offset..][|level| + k / 2] == rest[k / 2];
    assert rest[k / 2] == rest[..|next|][k / 2] == next[k / 2];
    assert tree[offset + |level|..] == tree[offset..][|level|..] == rest;
  }

  /** The node the builder makes for a position of a level. At one place past the end it takes the first
      hashes of the level above for positions of this one. */
  function NodeRead(H: Combine, level: seq<Hash>, index: nat): MerkleNode
    requires |level| > 1 && index <= |level| && !(index == |level| == 2)
  {
    if index < |level| then NodeAbove(H, level, index)
    else
      var next := NextLevel(H, level);
      if index % 2 == 0 then FullNode(H, next[0], next[1])
      else MerkleNode(Some(level[index - 1]), Some(next[0]), Some(next[index / 2]))
  }

  /** What the builder keeps of it. */
  function DetailNode(H: Combine, level: seq<Hash>, index: nat, fullDetail: bool): MerkleNode
    requires |level| > 1 && index <= |level| && !(index == |level| == 2)
  {
    if fullDetail then NodeRead(H, level, index) else StripNode(NodeRead(H, level, index), index)
  }

  /** What is read off the store from a position of a level upwards, or from one place past its end; None
      if that reads past the end of the store. */
  function ReadFrom(H: Combine, level: seq<Hash>, index: nat, fullDetail: bool): Option<seq<MerkleNode>>
    requires level != [] && index <= |level|
    decreases |level|
  {
    if |level| == 1 then Some([])
    else if index == |level| == 2 then None
    else Prefixed([DetailNode(H, level, index, fullDetail)], ReadFrom(H, NextLevel(H, level), index / 2, fullDetail))
  }

  function Prefixed(nodes: seq<MerkleNode>, rest: Option<seq<MerkleNode>>): Option<seq<MerkleNode>> {
    if rest.None? then None else Some(nodes + rest.value)
  }

  lemma PrefixedTwice(nodes: seq<MerkleNode>, more: seq<MerkleNode>, rest: Option<seq<MerkleNode>>)
    ensures Prefixed([], rest) == rest
    ensures Prefixed(nodes, Prefixed(more, rest)) == Prefixed(nodes + more, rest)
  {
    if rest.Some? {
      assert [] + rest.value == rest.value;
      assert nodes + (more + rest.value) == nodes + more + rest.value;
    }
  }

  /** For a leaf it is the leaf's branch. */
  lemma {:induction false} ReadFromLeaf(H: Combine, level: seq<Hash>, index: nat, fullDetail: bool)
    requires index < |level|
    ensures ReadFrom(H, level, index, fullDetail) == Some(Detail(Branch(H, level, index), index, fullDetail))
    decreases |level|
  {
    if |level| > 1 {
      ReadFromLeaf(H, NextLevel(H, level), index / 2, fullDetail);
      var branch, rest := Branch(H, level, index), Branch(H, NextLevel(H, level), index / 2);
      assert branch[1..] == rest;
    }
  }

  predicate PowerOfTwo(n: nat) {
    n == 1 || (n > 1 && n % 2 == 0 && PowerOfTwo(n / 2))
  }

  /** From one place past the end the reading leaves the store if and only if the width is a power of two
      above one. */
  lemma {:induction false} PastEndPanicsIff(H: Combine, level: seq<Hash>, fullDetail: bool)
    requires level != []
    ensures ReadFrom(H, level, |level|, fullDetail).None? <==> |level| > 1 && PowerOfTwo(|level|)
    decreases |level|
  {
    if |level| == 2 {
      assert PowerOfTwo(2);
    } else if |level| > 2 {
      var next := NextLevel(H, level);
      if |level| % 2 == 0 {
        assert |next| == |level| / 2;
        PastEndPanicsIff(H, next, fullDetail);
      } else {
        assert |next| - 1 == |level| / 2;
        ReadFromLeaf(H, next, |level| / 2, fullDetail);
      }
    }
  }

  /** The place of the sibling a position is paired with. */
  function Compliment(width: nat, index: nat): int {
    if index % 2 == 1 then index - 1 else if index + 1 == width then index else index + 1
  }

  lemma NodeAboveSides(H: Combine, level: seq<Hash>, index: nat)
    requires |level| > 1 && index < |level|
    ensures 0 <= Compliment(|level|, index) < |level|
    ensures var here, there := level[index], level[Compliment(|level|, index)];
            NodeAbove(H, level, index) == if index % 2 == 0 then FullNode(H, here, there) else FullNode(H, there, here)
  {
    if index % 2 == 0 {
      assert index - index % 2 == index;
    } else {
      assert index - index % 2 == index - 1;
    }
  }

  /** A node has the hashes of its two places as its sides, and its top is the hash at a third. */
  ghost predicate NodeHas(node: MerkleNode, index: nat, here: Hash, there: Hash, top: Hash) {
    && node.top == Some(top)
    && (if index % 2 == 0 then node.left == Some(here) && node.right == Some(there)
        else node.left == Some(there) && node.right == Some(here))
  }

  /** The three places the builder reads for a node are in the store and have what makes the node; past
      the end of a level of two the sibling's place is outside the store. */
  ghost predicate Reads(H: Combine, tree: seq<Hash>, offset: nat, level: seq<Hash>, index: nat)
    requires |level| > 1 && index <= |level|
  {
    var w, c := |level|, Compliment(|level|, index);
    if index == w == 2 then offset + c >= |tree|
    else
      && 0 <= c && offset + c < |tree| && offset + index < |tree| && offset + w + index / 2 < |tree|
      && NodeHas(NodeRead(H, level, index), index, tree[offset + index], tree[offset + c], tree[offset + w + index / 2])
  }

  lemma ReadsInLevel(H: Combine, tree: seq<Hash>, offset: nat, level: seq<Hash>, index: nat)
    requires offset <= |tree| && |level| > 1 && index < |level| && tree[offset..] == TreeStore(H, level)
    ensures Reads(H, tree, offset, level, index)
  {
    NodeAboveSides(H, level, index);
    StoreAt(H, tree, offset, level, index);
    StoreAt(H, tree, offset, level, Compliment(|level|, index));
    NodeAboveParent(H, level, index);
  }

  /** The first places of the store after a level. */
  lemma ReadsAbove(H: Combine, tree: seq<Hash>, offset: nat, level: seq<Hash>)
    requires offset <= |tree| && |level| > 1 && tree[offset..] == TreeStore(H, level)
    ensures var w, next := |level|, NextLevel(H, level);
            && offset + w + |next| <= |tree| && tree[offset + w..] == TreeStore(H, next)
            && (forall k :: 0 <= k < |next| ==> tree[offset + w + k] == next[k])
            && (w == 2 ==> |tree| == offset + w + 1)
  {
    StoreAt(H, tree, offset, level, 0);
    var w, next := |level|, NextLevel(H, level);
    TreeStoreLength(H, next);
    forall k | 0 <= k < |next| ensures tree[offset + w + k] == next[k] {
      assert tree[offset + w + k] == tree[offset + w..][..|next|][k];
    }
  }

  /** Past the end of a level the three places belong to the levels above. */
  lemma ReadsPastOdd(H: Combine, tree: seq<Hash>, offset: nat, level: seq<Hash>)
    requires offset <= |tree| && |level| > 1 && |level| % 2 == 1 && tree[offset..] == TreeStore(H, level)
    ensures Reads(H, tree, offset, level, |level|)
  {
    var w := |level|;
    ReadsAbove(H, tree, offset, level);
    StoreAt(H, tree, offset, level, w - 1);
    assert Compliment(w, w) == w - 1;
    assert tree[offset + w + 0] == NextLevel(H, level)[0];
  }

  lemma ReadsPastEven(H: Combine, tree: seq<Hash>, offset: nat, level: seq<Hash>)
    requires offset <= |tree| && |level| > 1 && |level| % 2 == 0 && tree[offset..] == TreeStore(H, level)
    ensures Reads(H, tree, offset, level, |level|)
  {
    var w, next := |level|, NextLevel(H, level);
    ReadsAbove(H, tree, offset, level);
    assert Compliment(w, w) == w + 1;
    if w > 2 {
      ReadsAbove(H, tree, offset + w, next);
      assert tree[offset + w + 0] == next[0] && tree[offset + w + 1] == next[1];
      assert |next| == w / 2;
      assert tree[offset + w + w / 2 + 0] == NextLevel(H, next)[0] == H(next[0], next[1]);
    }
  }

  /** What building a branch comes to: nothing, a branch, or a panic on reading past the tree store. */
  datatype Built = NoBranch | Nodes(nodes: seq<MerkleNode>) | Panic

  function BuiltFrom(read: Option<seq<MerkleNode>>): Built {
    if read.None? then Panic else Nodes(read.value)
  }

  /** One node of the branch, read off the stored tree; None if that reads past the store. */
  method BranchNode(H: Combine, tree: seq<Hash>, offset: nat, levelWidth: nat, index: nat, fullDetail: bool,
                    ghost level: seq<Hash>)
    returns (mn: Option<MerkleNode>, topIndex: nat)
    requires |level| == levelWidth > 1 && index <= levelWidth
    requires offset <= |tree| && tree[offset..] == TreeStore(H, level)
    ensures mn.None? <==> index == levelWidth == 2
    ensures mn.Some? ==> topIndex == levelWidth + index / 2 && mn.value == DetailNode(H, level, index, fullDetail)
  {
    if index < levelWidth {
      ReadsInLevel(H, tree, offset, level, index);
    } else if index % 2 == 1 {
      ReadsPastOdd(H, tree, offset, level);
    } else {
      ReadsPastEven(H, tree, offset, level);
    }
    if index % 2 == 0 {
      var complimentIndex := index + 1;
      if complimentIndex == levelWidth {
        complimentIndex := index;
      }
      topIndex := index / 2 + levelWidth;
      if offset + complimentIndex >= |tree| {
        return None, topIndex;
      }
      var node := MerkleNode(None, Some(tree[offset + complimentIndex]), None);
      if fullDetail {
        node := node.(left := Some(tree[offset + index]), top := Some(tree[offset + topIndex]));
      }
      mn := Some(node);
    } else {
      var complimentIndex := index - 1;
      topIndex := complimentIndex / 2 + levelWidth;
      var node := MerkleNode(Some(tree[offset + complimentIndex]), None, None);
      if fullDetail {
        node := node.(right := Some(tree[offset + index]), top := Some(tree[offset + topIndex]));
      }
      mn := Some(node);
    }
  }

  /** The builder's loop: the store from `offset` on is the tree over the current level, and the
      nodes so far followed by what is still to be read are the whole. */
  ghost predicate Reading(H: Combine, tree: seq<Hash>, whole: Option<seq<MerkleNode>>, fullDetail: bool,
                          level: seq<Hash>, offset: int, index: int, nodes: seq<MerkleNode>) {
    && level != [] && 0 <= index <= |level|
    && 0 <= offset <= |tree|
    && tree[offset..] == TreeStore(H, level)
    && whole == Prefixed(nodes, ReadFrom(H, level, index, fullDetail))
  }

  lemma ReadingStep(H: Combine, tree: seq<Hash>, whole: Option<seq<MerkleNode>>, fullDetail: bool,
                    level: seq<Hash>, offset: int, index: int, nodes: seq<MerkleNode>)
    requires Reading(H, tree, whole, fullDetail, level, offset, index, nodes)
    requires |level| > 1 && !(index == |level| == 2)
    ensures Reading(H, tree, whole, fullDetail, NextLevel(H, level), offset + |level|, index / 2,
                    nodes + [DetailNode(H, level, index, fullDetail)])
  {
    StoreAt(H, tree, offset, level, 0);
    PrefixedTwice(nodes, [DetailNode(H, level, index, fullDetail)],
                  ReadFrom(H, NextLevel(H, level), index / 2, fullDetail));
  }

  /** The branch of leaf `entryIndex`, read off the flat tree store. The source's guard lets an index equal
      to the number of leaves through; what is then read is not the branch of any leaf. */
  method BuildMerkleBranch(H: Combine, hashes: seq<Hash>, entryIndex: nat, fullDetail: bool)
    returns (answer: Built)
    ensures answer == NoBranch <==> entryIndex > |hashes| || hashes == []
    ensures entryIndex < |hashes| ==>
              answer == Nodes(Detail(Branch(H, hashes, entryIndex), entryIndex, fullDetail))
    ensures entryIndex == |hashes| && hashes != [] ==> answer == BuiltFrom(ReadFrom(H, hashes, entryIndex, fullDetail))
    ensures answer == Panic <==> entryIndex == |hashes| > 1 && PowerOfTwo(|hashes|)
  {
    if |hashes| < entryIndex || |hashes| == 0 {
      return NoBranch;
    }
    var merkleTree := BuildMerkleTreeStore(H, hashes);
    var levelWidth := |hashes|;
    var index := entryIndex;
    var nodes: seq<MerkleNode> := [];
    var offset := 0;
    ghost var level := hashes;
    ghost var whole := ReadFrom(H, hashes, entryIndex, fullDetail);
    ReadWhole(H, hashes, entryIndex, fullDetail);
    PrefixedTwice([], [], whole);
    while levelWidth != 1
      invariant |level| == levelWidth
      invariant Reading(H, merkleTree, whole, fullDetail, level, offset, index, nodes)
      decreases levelWidth
    {
      var mn, topIndex := BranchNode(H, merkleTree, offset, levelWidth, index, fullDetail, level);
      if mn.None? {
        return Panic;
      }
      ReadingStep(H, merkleTree, whole, fullDetail, level, offset, index, nodes);
      ghost var parentIndex := index / 2;
      level := NextLevel(H, level);
      nodes := nodes + [mn.value];
      offset := offset + levelWidth;
      index := topIndex - levelWidth;
      assert index == parentIndex;
      levelWidth := (levelWidth + 1) / 2;
    }
    answer := Nodes(nodes);
  }

  lemma ReadWhole(H: Combine, hashes: seq<Hash>, entryIndex: nat, fullDetail: bool)
    requires hashes != [] && entryIndex <= |hashes|
    ensures entryIndex < |hashes| ==>
              ReadFrom(H, hashes, entryIndex, fullDetail) == Some(Detail(Branch(H, hashes, entryIndex), entryIndex, fullDetail))
    ensures ReadFrom(H, hashes, entryIndex, fullDetail).None? <==>
              entryIndex == |hashes| > 1 && PowerOfTwo(|hashes|)
  {
    if entryIndex < |hashes| {
      ReadFromLeaf(H, hashes, entryIndex, fullDetail);
    } else {
      PastEndPanicsIff(H, hashes, fullDetail);
    }
  }

  /** Three leaves and index 3: a branch is returned whose first node mixes two levels, with a top that is
      not the hash of its sides under a collision-free hash; so it is not chained from anything. */
  lemma PastEndBranchIsNoBranch(H: Combine, a: Hash, b: Hash, c: Hash, start: Hash)
    requires CollisionFree(H) && c != H(a, b)
    ensures var read := ReadFrom(H, [a, b, c], 3, true);
            && read.Some? && read.value != []
            && read.value[0] == MerkleNode(Some(c), Some(H(a, b)), Some(H(c, c)))
            && !Chained(H, start, read.value)
  {
    var level := [a, b, c];
    var next := NextLevel(H, level);
    assert next == [H(a, b), H(c, c)];
    ReadFromLeaf(H, next, 1, true);
    var read := ReadFrom(H, level, 3, true);
    assert read.value[0] == NodeRead(H, level, 3);
    assert H(c, H(a, b)) != H(c, c);
  }

  /** The branch of the first leaf equal to `target`; nil when there is none. */
  method BuildMerkleBranchForHash(H: Combine, hashes: seq<Hash>, target: Hash, fullDetail: bool)
    returns (answer: Option<seq<MerkleNode>>)
    ensures answer.Some? <==> target in hashes
    ensures answer.Some? ==>
              exists i :: 0 <= i < |hashes| && hashes[i] == target && target !in hashes[..i]
                       && answer.value == Detail(Branch(H, hashes, i), i, fullDetail)
  {
    for i := 0 to |hashes|
      invariant target !in hashes[..i]
    {
      if hashes[i] == target {
        var built := BuildMerkleBranch(H, hashes, i, fullDetail);
        return Some(built.nodes);
      }
    }
    answer := None;
  }
}
