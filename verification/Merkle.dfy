/** The Merkle tree of a block's transactions (CBlock in src/main.h). */
module Merkle {
  import opened Common

  /** The hash of two hashes written one after the other. */
  type PairHash = (Hash, Hash) -> Hash

  /** The level above: an odd last hash is paired with itself. */
  function Next(hash: PairHash, level: seq<Hash>): (r: seq<Hash>)
    ensures |r| == (|level| + 1) / 2
  {
    seq((|level| + 1) / 2, i requires 0 <= i < (|level| + 1) / 2 => Pair(hash, level, 2 * i))
  }

  function Pair(hash: PairHash, level: seq<Hash>, i: nat): Hash
    requires i < |level|
  {
    hash(level[i], level[Min(i + 1, |level| - 1)])
  }

  function Root(hash: PairHash, level: seq<Hash>): Hash
    decreases |level|
  {
    if level == [] then 0 else if |level| == 1 then level[0] else Root(hash, Next(hash, level))
  }

  /** All levels one after the other, as they lie in vMerkleTree. */
  function Levels(hash: PairHash, level: seq<Hash>): (r: seq<Hash>)
    ensures |r| >= |level|
    decreases |level|
  {
    if |level| <= 1 then level else level + Levels(hash, Next(hash, level))
  }

  lemma {:induction false} RootIsLast(hash: PairHash, level: seq<Hash>)
    requires level != []
    ensures Levels(hash, level) != [] && Levels(hash, level)[|Levels(hash, level)| - 1] == Root(hash, level)
    decreases |level|
  {
    if |level| > 1 { RootIsLast(hash, Next(hash, level)); }
  }

  lemma LevelsStep(hash: PairHash, level: seq<Hash>)
    requires |level| > 1
    ensures Levels(hash, level) == level + Levels(hash, Next(hash, level))
  {
  }

  lemma LevelsEnd(hash: PairHash, level: seq<Hash>)
    requires |level| <= 1
    ensures Levels(hash, level) == level && (level == [] ==> Root(hash, level) == 0)
  {
  }

  method BuildMerkleTree(hash: PairHash, leaves: seq<Hash>) returns (tree: seq<Hash>, root: Hash)
    ensures tree == Levels(hash, leaves) && root == Root(hash, leaves)
  {
    hide Root, Levels, Next;
    tree := leaves;
    var j, size := 0, |leaves|;
    ghost var level := leaves;
    while size > 1
      invariant 0 <= j && size == |level| && j + size == |tree| && tree[j..] == level
      invariant leaves != [] ==> size > 0
      invariant tree[..j] + Levels(hash, level) == Levels(hash, leaves)
    {
      ghost var before := tree;
      tree := AppendLevel(hash, tree, j, size, level);
      LevelsStep(hash, level);
      assert before == before[..j] + level;
      j := j + size;
      level := Next(hash, level);
      size := (size + 1) / 2;
      assert tree[..j] == before;
    }
    assert tree == tree[..j] + level;
    LevelsEnd(hash, level);
    if leaves == [] {
      root := 0;
    } else {
      RootIsLast(hash, leaves);
      root := tree[|tree| - 1];
    }
  }

  /** The inner loop: the hashes of the pairs of the last level are added. */
  method AppendLevel(hash: PairHash, start: seq<Hash>, j: nat, size: nat, ghost level: seq<Hash>)
    returns (tree: seq<Hash>)
    requires size == |level| && j + size == |start| && start[j..] == level
    ensures tree == start + Next(hash, level)
  {
    tree := start;
    var i := 0;
    while i < size
      invariant 0 <= i <= size + 1 && i % 2 == 0 && tree == start + Next(hash, level)[..i / 2]
    {
      var i2 := Min(i + 1, size - 1);
      assert tree[j + i] == level[i] && tree[j + i2] == level[i2];
      tree := tree + [hash(tree[j + i], tree[j + i2])];
      assert Next(hash, level)[i / 2] == Pair(hash, level, i);
      i := i + 2;
    }
  }

  /** The position of the neighbour: the last bit is flipped. */
  function Sibling(i: nat): nat { if i % 2 == 0 then i + 1 else i - 1 }

  function Branch(hash: PairHash, level: seq<Hash>, i: nat): seq<Hash>
    decreases |level|
  {
    if |level| <= 1 then [] else [level[Min(Sibling(i), |level| - 1)]] + Branch(hash, Next(hash, level), i / 2)
  }

  method GetMerkleBranch(hash: PairHash, leaves: seq<Hash>, index: nat) returns (branch: seq<Hash>)
    ensures branch == Branch(hash, leaves, index)
  {
    var tree, _ := BuildMerkleTree(hash, leaves);
    branch := [];
    var j, size, k := 0, |leaves|, index;
    ghost var level := leaves;
    while size > 1
      invariant 0 <= j <= |tree| && size == |level| && 0 <= k && tree[j..] == Levels(hash, level)
      invariant branch + Branch(hash, level, k) == Branch(hash, leaves, index)
    {
      var i := Min(Sibling(k), size - 1);
      assert tree[j + i] == tree[j..][i] == level[i];
      branch := branch + [tree[j + i]];
      k := k / 2;
      assert tree[j + size..] == tree[j..][size..] == Levels(hash, Next(hash, level));
      j := j + size;
      level := Next(hash, level);
      size := (size + 1) / 2;
    }
  }

  function Climb(hash: PairHash, h: Hash, branch: seq<Hash>, i: int): Hash
    decreases |branch|
  {
    if branch == [] then h
    else Climb(hash, if i % 2 == 1 then hash(branch[0], h) else hash(h, branch[0]), branch[1..], i / 2)
  }

  method CheckMerkleBranch(hash: PairHash, h: Hash, branch: seq<Hash>, index: int) returns (root: Hash)
    ensures root == if index == -1 then 0 else Climb(hash, h, branch, index)
  {
    if index == -1 { return 0; }
    root := h;
    var k, i := 0, index;
    while k < |branch|
      invariant 0 <= k <= |branch| && Climb(hash, root, branch[k..], i) == Climb(hash, h, branch, index)
    {
      assert branch[k..][1..] == branch[k + 1..];
      if i % 2 == 1 {
        root := hash(branch[k], root);
      } else {
        root := hash(root, branch[k]);
      }
      i := i / 2;
      k := k + 1;
    }
  }

  /** The branch of every transaction leads to the root. */
  lemma {:induction false} BranchLeadsToRoot(hash: PairHash, level: seq<Hash>, i: nat)
    requires i < |level|
    ensures Climb(hash, level[i], Branch(hash, level, i), i) == Root(hash, level)
    decreases |level|
  {
    if |level| > 1 {
      var next := Next(hash, level);
      BranchLeadsToRoot(hash, next, i / 2);
      assert next[i / 2] == Pair(hash, level, i - i % 2);
      assert Branch(hash, level, i)[1..] == Branch(hash, next, i / 2);
    }
  }

  /** Two different pairs with the same hash. */
  ghost predicate Collision(hash: PairHash) {
    exists a, b, c, d {:trigger hash(a, b), hash(c, d)} :: hash(a, b) == hash(c, d) && (a, b) != (c, d)
  }

  /** Nothing else does: a branch of the right length that leads to the root is the branch of the transaction at `i`. */
  lemma {:induction false} OnlyBranchLeadsToRoot(hash: PairHash, level: seq<Hash>, i: nat, h: Hash, branch: seq<Hash>)
    requires i < |level| && |branch| == |Branch(hash, level, i)|
    requires Climb(hash, h, branch, i) == Root(hash, level) && !Collision(hash)
    ensures h == level[i] && branch == Branch(hash, level, i)
    decreases |level|
  {
    if |level| > 1 {
      var next := Next(hash, level);
      var up := if i % 2 == 1 then hash(branch[0], h) else hash(h, branch[0]);
      OnlyBranchLeadsToRoot(hash, next, i / 2, up, branch[1..]);
      var e := i - i % 2;
      assert up == Pair(hash, level, e);
      var l, r := level[e], level[Min(e + 1, |level| - 1)];
      if i % 2 == 1 { NoCollision(hash, branch[0], h, l, r); } else { NoCollision(hash, h, branch[0], l, r); }
      assert branch == [branch[0]] + branch[1..];
    }
  }

  lemma NoCollision(hash: PairHash, a: Hash, b: Hash, c: Hash, d: Hash)
    requires !Collision(hash) && hash(a, b) == hash(c, d)
    ensures a == c && b == d
  {
  }
}
