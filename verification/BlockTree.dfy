/**
 * The tree of block index entries (CBlockIndex, src/main.h), with the blocks they point at.
 * `pprev`, `nHeight` and `nChainTrust` never change once an entry exists, so they live here;
 * `pnext` and `nMoneySupply` do, and live in the chain state.
 */
module BlockTree {
  import opened Common
  import opened Transactions
  import opened TxDb

  datatype Node = Node(prev: Option<Hash>, height: nat, trust: nat, file: nat, blockPos: nat, block: Block)

  /** `disk` is what reading a transaction at a position of a block file returns. */
  datatype Tree = Tree(genesis: Hash, nodes: map<Hash, Node>, disk: map<DiskTxPos, Tx>)

  /** The genesis block has no parent; any other entry has one that is one lower. */
  predicate LinkedAt(t: Tree, h: Hash)
    requires h in t.nodes
  {
    match t.nodes[h].prev
    case None => h == t.genesis
    case Some(p) => h != t.genesis && p in t.nodes && t.nodes[h].height == t.nodes[p].height + 1
  }

  ghost predicate Linked(t: Tree) {
    && t.genesis in t.nodes
    && t.nodes[t.genesis].height == 0
    && (forall h {:trigger LinkedAt(t, h)} :: h in t.nodes ==> LinkedAt(t, h))
  }

  function Parent(t: Tree, h: Hash): (p: Hash)
    requires Linked(t) && h in t.nodes && h != t.genesis
    ensures p in t.nodes && t.nodes[h].prev == Some(p)
    ensures t.nodes[h].height == t.nodes[p].height + 1
  {
    assert LinkedAt(t, h);
    t.nodes[h].prev.value
  }

  function Height(t: Tree, h: Hash): nat
    requires h in t.nodes
  {
    t.nodes[h].height
  }

  function Time(t: Tree, h: Hash): int
    requires h in t.nodes
  {
    t.nodes[h].block.time
  }

  /** The block of the branch ending in `h` that has height `k`. */
  function Ancestor(t: Tree, h: Hash, k: nat): (a: Hash)
    requires Linked(t) && h in t.nodes && k <= Height(t, h)
    ensures a in t.nodes && Height(t, a) == k
    decreases Height(t, h)
  {
    if Height(t, h) == k then h else Ancestor(t, Parent(t, h), k)
  }

  predicate IsAncestor(t: Tree, a: Hash, h: Hash)
    requires Linked(t) && a in t.nodes && h in t.nodes
  {
    Height(t, a) <= Height(t, h) && Ancestor(t, h, Height(t, a)) == a
  }

  lemma {:induction false} AncestorOfAncestor(t: Tree, h: Hash, k: nat, j: nat)
    requires Linked(t) && h in t.nodes && j <= k <= Height(t, h)
    ensures Ancestor(t, Ancestor(t, h, k), j) == Ancestor(t, h, j)
    decreases Height(t, h)
  {
    if Height(t, h) > k { AncestorOfAncestor(t, Parent(t, h), k, j); }
  }

  lemma AncestorTransitive(t: Tree, a: Hash, b: Hash, c: Hash)
    requires Linked(t) && a in t.nodes && b in t.nodes && c in t.nodes
    requires IsAncestor(t, a, b) && IsAncestor(t, b, c)
    ensures IsAncestor(t, a, c)
  {
    AncestorOfAncestor(t, c, Height(t, b), Height(t, a));
  }

  /** Two ancestors of one block lie on one line. */
  lemma AncestorsComparable(t: Tree, a: Hash, b: Hash, c: Hash)
    requires Linked(t) && a in t.nodes && b in t.nodes && c in t.nodes
    requires IsAncestor(t, a, c) && IsAncestor(t, b, c) && Height(t, a) <= Height(t, b)
    ensures IsAncestor(t, a, b)
  {
    AncestorOfAncestor(t, c, Height(t, b), Height(t, a));
  }

  /** What lies below a block, itself apart, lies below its parent. */
  lemma BelowParent(t: Tree, a: Hash, h: Hash)
    requires Linked(t) && a in t.nodes && h in t.nodes && h != t.genesis && a != h
    ensures IsAncestor(t, a, h) <==> IsAncestor(t, a, Parent(t, h))
  {
  }

  lemma ParentIsAncestor(t: Tree, h: Hash)
    requires Linked(t) && h in t.nodes && h != t.genesis
    ensures IsAncestor(t, Parent(t, h), h)
  {
  }

  lemma {:induction false} OnlyGenesisAtZero(t: Tree, h: Hash)
    requires Linked(t) && h in t.nodes
    ensures Height(t, h) == 0 ==> h == t.genesis
    ensures IsAncestor(t, t.genesis, h)
    decreases Height(t, h)
  {
    if h != t.genesis { OnlyGenesisAtZero(t, Parent(t, h)); }
  }

  /** The parent of an ancestor below the top is the ancestor one step lower. */
  lemma AncestorStep(t: Tree, h: Hash, k: nat)
    requires Linked(t) && h in t.nodes && 0 < k <= Height(t, h)
    ensures Ancestor(t, h, k) != t.genesis
    ensures Parent(t, Ancestor(t, h, k)) == Ancestor(t, h, k - 1)
  {
    AncestorOfAncestor(t, h, k, k - 1);
    ParentIsAncestor(t, Ancestor(t, h, k));
  }

  /** `u` keeps every entry of `t` and every stored transaction; new entries may have been added. */
  ghost predicate Extends(t: Tree, u: Tree) {
    && t.genesis == u.genesis
    && (forall h :: h in t.nodes ==> h in u.nodes && u.nodes[h] == t.nodes[h])
    && (forall p :: p in t.disk ==> p in u.disk && u.disk[p] == t.disk[p])
  }

  lemma {:induction false} AncestorExtends(t: Tree, u: Tree, h: Hash, k: nat)
    requires Linked(t) && Linked(u) && Extends(t, u) && h in t.nodes && k <= Height(t, h)
    ensures Ancestor(u, h, k) == Ancestor(t, h, k)
    decreases Height(t, h)
  {
    if Height(t, h) > k { AncestorExtends(t, u, Parent(t, h), k); }
  }

  // Where a block's transactions sit in its block file

  function CompactSizeLength(n: nat): nat {
    if n < 253 then 1 else if n <= 0xFFFF then 3 else if n <= 0xFFFF_FFFF then 5 else 9
  }

  function SizeOf(vtx: seq<Tx>): nat {
    if vtx == [] then 0 else SizeOf(vtx[..|vtx| - 1]) + vtx[|vtx| - 1].size
  }

  /** The header takes 80 bytes and is followed by the number of transactions. */
  function TxPos(node: Node, i: nat): DiskTxPos
    requires i <= |node.block.vtx|
  {
    DiskTxPos(node.file, node.blockPos,
      node.blockPos + 80 + CompactSizeLength(|node.block.vtx|) + SizeOf(node.block.vtx[..i]))
  }

  ghost predicate InTree(t: Tree, tx: Tx) {
    exists h :: h in t.nodes && h != t.genesis && tx in t.nodes[h].block.vtx
  }

  /**
   * What ProcessBlock, AcceptBlock and AddToBlockIndex establish for every entry before it is
   * inserted: the block passed CheckBlock, its coinbase starts with its height, it was written
   * to a block file, and trust never falls along a branch. Transaction ids identify
   * transactions: this is collision resistance of the hash, and the one assumption made here.
   */
  ghost predicate WellFormed(t: Tree) {
    && Linked(t)
    && (forall h {:trigger WellFormedNode(t, h)} :: h in t.nodes && h != t.genesis ==> WellFormedNode(t, h))
    && (forall tx1, tx2 :: InTree(t, tx1) && InTree(t, tx2) && tx1.hash == tx2.hash ==> tx1 == tx2)
  }

  ghost predicate WellFormedNode(t: Tree, h: Hash)
    requires Linked(t) && h in t.nodes && h != t.genesis
  {
    var node := t.nodes[h];
    && node.height <= MAX_INT32
    && t.nodes[Parent(t, h)].trust <= node.trust
    && node.file < MAX_UINT32
    && CheckBlock(node.block, true)
    && HeightScript(node.height) <= node.block.vtx[0].vin[0].scriptSig
    && (forall i {:trigger TxPos(node, i)} :: 0 <= i < |node.block.vtx| ==>
          TxPos(node, i) in t.disk && t.disk[TxPos(node, i)] == node.block.vtx[i])
  }
}
