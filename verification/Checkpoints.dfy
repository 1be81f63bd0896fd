/**
 * Synchronised checkpoints (src/checkpoints.cpp) over the chain state, in STRICT mode on the main
 * network: blocks arrive, signed checkpoints arrive, and pending checkpoints are taken up.
 */
module Checkpoints {
  import opened Common
  import opened Transactions
  import opened TxDb
  import opened BlockTree
  import opened Connect
  import opened Reorg
  import opened Trust
  import opened Chain
  import opened ContextRules
  import Runs

  /** The block that a walk down from `h` meets at height `k`. */
  method WalkDown(t: Tree, h: Hash, k: nat) returns (a: Hash)
    requires Linked(t) && h in t.nodes && k <= Height(t, h)
    ensures a == Ancestor(t, h, k)
  {
    a := h;
    while Height(t, a) > k
      invariant a in t.nodes && k <= Height(t, a) && Ancestor(t, a, k) == Ancestor(t, h, k)
      decreases Height(t, a)
    {
      a := Parent(t, a);
    }
  }

  /** Only a proper descendant of the current checkpoint is taken; a block off its line is a conflict. */
  method Compare(t: Tree, sync: Hash, h: Hash) returns (newer: bool, conflict: bool)
    requires Linked(t) && sync in t.nodes && h in t.nodes
    ensures newer <==> h != sync && IsAncestor(t, sync, h)
    ensures conflict <==> !IsAncestor(t, sync, h) && !IsAncestor(t, h, sync)
  {
    if Height(t, h) <= Height(t, sync) {
      var a := WalkDown(t, sync, Height(t, h));
      return false, a != h;
    }
    var a := WalkDown(t, h, Height(t, sync));
    return a == sync, a != sync;
  }

  /** What a block that is new to the node brings along: its transactions are already on disk. */
  ghost predicate Arriving(t: Tree, h: Hash, node: Node, stored: map<DiskTxPos, Tx>) {
    && node.prev.Some?
    && CheckBlock(node.block, true)
    && node.file < MAX_UINT32
    && stored.Keys !! t.disk.Keys
    && (forall i {:trigger TxPos(node, i)} :: 0 <= i < |node.block.vtx| ==>
          TxPos(node, i) in stored && stored[TxPos(node, i)] == node.block.vtx[i])
    && (forall tx1, tx2 :: Known(t, node, tx1) && Known(t, node, tx2) && tx1.hash == tx2.hash ==> tx1 == tx2)
  }

  ghost predicate Known(t: Tree, node: Node, tx: Tx) { InTree(t, tx) || tx in node.block.vtx }

  lemma GrownWellFormed(t: Tree, h: Hash, node: Node, stored: map<DiskTxPos, Tx>)
    requires WellFormed(t) && h !in t.nodes && Arriving(t, h, node, stored)
    requires node.prev.value in t.nodes && t.nodes[node.prev.value].height < MAX_INT32
    requires HeightScript(t.nodes[node.prev.value].height + 1) <= node.block.vtx[0].vin[0].scriptSig
    ensures Extends(t, Grown(t, h, Placed(t, node), stored))
    ensures WellFormed(Grown(t, h, Placed(t, node), stored))
  {
    hide CheckBlock, HeightScript, BlockTrust;
    var placed := Placed(t, node);
    var u := Grown(t, h, placed, stored);
    forall k | k in u.nodes ensures LinkedAt(u, k) {
      if k != h { assert LinkedAt(t, k); }
    }
    assert forall i {:trigger TxPos(placed, i)} :: 0 <= i < |node.block.vtx| ==> TxPos(placed, i) == TxPos(node, i);
    forall k | k in u.nodes && k != u.genesis ensures WellFormedNode(u, k) {
      if k != h {
        assert WellFormedNode(t, k);
        assert LinkedAt(t, k);
      }
    }
    forall tx | InTree(u, tx) ensures Known(t, node, tx) {
      var k :| k in u.nodes && k != u.genesis && tx in u.nodes[k].block.vtx;
      if k != h { assert k in t.nodes && tx in t.nodes[k].block.vtx; }
    }
  }

  class CheckpointedNode {
    const chain: ChainState
    var sync: Hash
    var pending: Option<Hash>
    var invalid: Option<Hash>
    /** Every synchronised checkpoint so far, oldest first. */
    ghost var history: seq<Hash>

    /** The safety property: the best block never leaves the branch of any checkpoint. */
    ghost predicate Safe()
      reads this, chain
    {
      && chain.Valid()
      && |history| > 0 && history[|history| - 1] == sync
      && OneLine(chain.tree, history)
      && IsAncestor(chain.tree, sync, chain.best)
    }

    constructor (c: ChainState)
      requires c.Valid()
      ensures chain == c && sync == c.tree.genesis && pending.None? && history == [sync]
      ensures Safe()
    {
      chain, sync, pending, invalid := c, c.tree.genesis, None, None;
      history := [c.tree.genesis];
      new;
      OnlyGenesisAtZero(chain.tree, chain.best);
    }

    method ValidateSyncCheckpoint(h: Hash) returns (ok: bool)
      requires Safe() && h in chain.tree.nodes
      modifies this`invalid
      ensures ok <==> h != sync && IsAncestor(chain.tree, sync, h)
      ensures invalid ==
              (if !IsAncestor(chain.tree, sync, h) && !IsAncestor(chain.tree, h, sync) then Some(h) else old(invalid))
    {
      var conflict;
      ok, conflict := Compare(chain.tree, sync, h);
      if conflict { invalid := Some(h); }
    }

    /** Moves to a validated checkpoint, making its branch the best one if it is not. */
    method Advance(env: Env, h: Hash) returns (ok: bool)
      requires Safe() && h in chain.tree.nodes && h != sync && IsAncestor(chain.tree, sync, h)
      modifies this`sync, this`history, this`invalid, chain
      ensures Safe() && chain.tree == old(chain.tree)
      ensures ok <==>
              old(chain.IsInMainChain(h)) || SwitchResult(chain.tree, env, old(chain.db), old(chain.best), h).Some?
      ensures ok ==> sync == h && history == old(history) + [h] && invalid == old(invalid)
      ensures !ok ==> sync == old(sync) && history == old(history) && invalid == Some(h)
      ensures var switched := ok && !old(chain.IsInMainChain(h));
              && chain.best == (if switched then h else old(chain.best))
              && (!switched ==> chain.db == old(chain.db) && chain.next == old(chain.next))
              && (old(chain.Synced()) ==>
                    (chain.Synced() <==> switched ==>
                        PostponedConnect(chain.tree, env, old(chain.db), old(chain.best), h)))
    {
      hide SwitchResult, PostponedConnect, SuppliesKnown;
      if !chain.IsInMainChain(h) {
        ok := chain.SetBestChain(env, h);
        if !ok { invalid := Some(h); return; }
        assert Ancestor(chain.tree, h, Height(chain.tree, h)) == h;
      } else {
        Runs.MainChainIsBestBranch(chain.tree, chain.best, chain.next, h);
      }
      ExtendLine(chain.tree, history, h);
      sync, history := h, history + [h];
      ok := true;
    }

    method AcceptPendingSyncCheckpoint(env: Env) returns (ok: bool)
      requires Safe()
      modifies this, chain
      ensures Safe() && chain.tree == old(chain.tree)
      ensures ok ==> old(pending) == Some(sync) && pending.None? && history == old(history) + [sync]
      ensures old(pending).None? ==> !ok && pending.None? && unchanged(chain)
      ensures !ok ==> sync == old(sync) && history == old(history) && chain.best == old(chain.best)
    {
      if pending.None? || pending.value !in chain.tree.nodes { return false; }
      var h := pending.value;
      ok := ValidateSyncCheckpoint(h);
      if !ok { pending := None; return; }
      ok := Advance(env, h);
      if ok { pending := None; }
    }

    method ProcessSyncCheckpoint(env: Env, h: Hash, signatureOk: bool) returns (ok: bool)
      requires Safe()
      modifies this, chain
      ensures Safe() && chain.tree == old(chain.tree)
      ensures ok <==> && signatureOk && h in chain.tree.nodes && h != old(sync) && old(IsAncestor(chain.tree, sync, h))
                      && (|| old(chain.IsInMainChain(h))
                          || SwitchResult(chain.tree, env, old(chain.db), old(chain.best), h).Some?)
      ensures ok ==> sync == h && pending.None? && history == old(history) + [h]
      ensures !ok ==> sync == old(sync) && history == old(history)
      ensures signatureOk && h !in chain.tree.nodes ==> pending == Some(h)
      ensures var switched := ok && !old(chain.IsInMainChain(h));
              && chain.best == (if switched then h else old(chain.best))
              && (!switched ==> chain.db == old(chain.db) && chain.next == old(chain.next))
              && (old(chain.Synced()) ==>
                    (chain.Synced() <==> switched ==>
                        PostponedConnect(chain.tree, env, old(chain.db), old(chain.best), h)))
    {
      if !signatureOk { return false; }
      if h !in chain.tree.nodes {
        pending := Some(h);
        return false;
      }
      ok := ValidateSyncCheckpoint(h);
      if !ok { return; }
      ok := Advance(env, h);
      if ok { pending := None; }
    }

    /** Only a block above the checkpoint, on its branch, passes, unless the block is known already. */
    method CheckSync(h: Hash, prev: Hash) returns (ok: bool)
      requires Safe() && prev in chain.tree.nodes && h !in chain.tree.nodes
      ensures ok <==> IsAncestor(chain.tree, sync, prev)
    {
      var t := chain.tree;
      var height := Height(t, prev) + 1;
      if height > Height(t, sync) {
        var a := WalkDown(t, prev, Height(t, sync));
        if a != sync { return false; }
      }
      if height == Height(t, sync) && h != sync { return false; }
      if height < Height(t, sync) && h !in t.nodes { return false; }
      ok := true;
    }

    /** What AcceptBlock demands before the block enters the index. */
    ghost predicate Acceptable(net: Network, h: Hash, node: Node)
      requires Safe() && node.prev.Some? && node.block.vtx != [] && node.block.vtx[0].vin != []
      requires node.prev.value in chain.tree.nodes ==> chain.tree.nodes[node.prev.value].height < MAX_INT32
      reads this, chain
    {
      && h !in chain.tree.nodes && node.prev.value in chain.tree.nodes
      && InContext(chain.tree, net, node.prev.value, h, node.block)
      && IsAncestor(chain.tree, sync, node.prev.value)
      && HeightScript(Height(chain.tree, node.prev.value) + 1) <= node.block.vtx[0].vin[0].scriptSig
    }

    method AcceptBlock(env: Env, net: Network, h: Hash, node: Node, stored: map<DiskTxPos, Tx>)
      returns (ok: bool)
      requires Safe() && Arriving(chain.tree, h, node, stored)
      requires node.prev.value in chain.tree.nodes ==> chain.tree.nodes[node.prev.value].height < MAX_INT32
      modifies this, chain
      ensures Safe() && (old(RulesKept(chain.tree)) ==> RulesKept(chain.tree))
      ensures history == old(history) || (ok && old(pending) == Some(sync) && history == old(history) + [sync])
      ensures chain.tree == if old(Acceptable(net, h, node)) then
                              Grown(old(chain.tree), h, Placed(old(chain.tree), node), stored)
                            else old(chain.tree)
      ensures !old(Acceptable(net, h, node)) ==>
                !ok && sync == old(sync) && pending == old(pending) && chain.best == old(chain.best) &&
                    chain.db == old(chain.db) && chain.next == old(chain.next) && chain.supply == old(chain.supply)
      ensures old(Acceptable(net, h, node)) && old(pending).None? ==>
                var better := chain.tree.nodes[h].trust > old(chain.tree.nodes[chain.best].trust);
                && sync == old(sync) && pending.None?
                && (ok <==> better ==> SwitchResult(chain.tree, env, old(chain.db), old(chain.best), h).Some?)
                && chain.best == (if better && ok then h else old(chain.best))
                && (!(better && ok) ==> chain.db == old(chain.db) && chain.next == old(chain.next))
                && (old(chain.Synced()) ==>
                      (chain.Synced() <==> better && ok ==>
                         PostponedConnect(chain.tree, env, old(chain.db), old(chain.best), h)))
    {
      hide SwitchResult, PostponedConnect, SuppliesKnown, AllLinked, HeightScript, LinksBelow, OneLine, InContext,
           RulesKept, BlockTrust;
      if h in chain.tree.nodes { return false; }
      if node.prev.value !in chain.tree.nodes { return false; }
      var inContext := CheckInContext(chain.tree, net, node.prev.value, h, node.block);
      if !inContext { return false; }
      var passes := CheckSync(h, node.prev.value);
      if !passes { return false; }
      var script := HeightScript(Height(chain.tree, node.prev.value) + 1);
      if !(script <= node.block.vtx[0].vin[0].scriptSig) { return false; }
      ghost var t := chain.tree;
      GrownWellFormed(t, h, node, stored);
      ghost var placed := Placed(t, node);
      LineExtends(t, Grown(t, h, placed, stored), history, sync, chain.best, h);
      if RulesKept(t) { AcceptedKeepsRules(t, Grown(t, h, placed, stored), net, h); }
      ok := chain.AddToBlockIndex(env, h, node, stored);
      if !ok { return; }
      var taken := AcceptPendingSyncCheckpoint(env);
    }
  }

  /** Each checkpoint descends from every earlier one. */
  ghost predicate OneLine(t: Tree, history: seq<Hash>)
    requires Linked(t)
  {
    && (forall i :: 0 <= i < |history| ==> history[i] in t.nodes)
    && (forall i, j :: 0 <= i < j < |history| ==> IsAncestor(t, history[i], history[j]))
  }

  lemma ExtendLine(t: Tree, history: seq<Hash>, h: Hash)
    requires Linked(t) && |history| > 0 && OneLine(t, history) && h in t.nodes
    requires IsAncestor(t, history[|history| - 1], h)
    ensures OneLine(t, history + [h])
  {
    var last := history[|history| - 1];
    forall i | 0 <= i < |history| ensures IsAncestor(t, history[i], h) {
      if i < |history| - 1 { AncestorTransitive(t, history[i], last, h); }
    }
  }

  /** A new block above the checkpoint keeps the line, and itself lies on the checkpoint's branch. */
  lemma LineExtends(t: Tree, u: Tree, history: seq<Hash>, sync: Hash, best: Hash, h: Hash)
    requires Linked(t) && Linked(u) && Extends(t, u) && OneLine(t, history)
    requires sync in t.nodes && best in t.nodes && IsAncestor(t, sync, best)
    requires h in u.nodes && h != u.genesis && Parent(u, h) in t.nodes && IsAncestor(t, sync, Parent(u, h))
    ensures OneLine(u, history) && IsAncestor(u, sync, best) && IsAncestor(u, sync, h)
  {
    forall a, b | a in t.nodes && b in t.nodes && IsAncestor(t, a, b) ensures IsAncestor(u, a, b) {
      AncestorExtends(t, u, b, Height(t, a));
    }
    ParentIsAncestor(u, h);
    AncestorTransitive(u, sync, Parent(u, h), h);
  }

  /** So the best block descends from every checkpoint there ever was. */
  lemma BestDescendsFromAll(t: Tree, history: seq<Hash>, best: Hash, i: nat)
    requires Linked(t) && OneLine(t, history) && i < |history| && best in t.nodes
    requires IsAncestor(t, history[|history| - 1], best)
    ensures IsAncestor(t, history[i], best)
  {
    if i < |history| - 1 { AncestorTransitive(t, history[i], history[|history| - 1], best); }
  }
}
