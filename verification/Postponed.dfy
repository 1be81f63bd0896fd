/**
 * A run of the node in which a postponed connect fails. Blocks that never had to connect lie above
 * a block that a synchronised checkpoint makes the best one, and the next block arrives on top of them.
 */
module Postponed {
  import opened Common
  import opened Transactions
  import opened TxDb
  import opened BlockTree
  import opened Connect
  import opened Replay
  import opened Reorg
  import opened Trust
  import opened Chain
  import opened Checkpoints
  import opened Growth
  import opened ContextRules
  import opened Steady
  import MedianTime
  import Retarget
  import Rewards
  import Runs

  /** The time of the genesis block. */
  const START: nat := 1360105017

  const GENESIS: Hash := 1
  const HEAVY_1: Hash := 2
  const HEAVY_2: Hash := 3
  const HEAVY_3: Hash := 4
  const CHECKED: Hash := 5
  const SOUND: Hash := 6
  const GREEDY: Hash := 7
  const LAST: Hash := 8

  /** More than any block may create. */
  const TOO_MUCH: int := Rewards.MAX_MINT_PROOF_OF_WORK + 1

  /** A block of a steady chain that holds only a coinbase; the block and its transaction share an id. */
  function Entry(prev: Hash, height: nat, id: Hash, value: int): (e: Node)
    requires height <= MAX_INT32 && id >= 0
    ensures e.prev == Some(prev) && e.height == height && e.trust == height + 1
  {
    SteadyNode(START, Some(prev), height, id, [Coinbase(height, id, value)])
  }

  function OnDisk(height: nat, id: Hash, value: int): map<DiskTxPos, Tx>
    requires height <= MAX_INT32 && id >= 0
  {
    map[DiskTxPos(0, id, id + 81) := Coinbase(height, id, value)]
  }

  function Start(): Tree { Tree(GENESIS, map[GENESIS := SteadyNode(START, None, 0, 0, [])], map[]) }

  /** Ids and places from `id` on are free. */
  ghost predicate Free(t: Tree, id: Hash) {
    && (forall k :: k in t.nodes ==> k < id)
    && (forall tx :: InTree(t, tx) ==> tx.hash < id)
    && (forall p :: p in t.disk ==> p.blockPos < id)
  }

  predicate Has(t: Tree, id: Hash, prev: Hash, height: nat, value: int)
    requires height <= MAX_INT32 && id >= 0
  {
    id in t.nodes && t.nodes[id] == Entry(prev, height, id, value)
  }

  lemma EntryArrives(t: Tree, prev: Hash, height: nat, id: Hash, value: int)
    requires WellFormed(t) && id > 0 && Free(t, id) && height <= MAX_INT32 && MoneyRange(value)
    ensures Arriving(t, id, Entry(prev, height, id, value), OnDisk(height, id, value))
    ensures Free(Grown(t, id, Entry(prev, height, id, value), OnDisk(height, id, value)), id + 1)
  {
    hide LimitBits, CheckBlock, HeightScript;
    var node, stored := Entry(prev, height, id, value), OnDisk(height, id, value);
    CoinbaseBlockChecks(START, height, id, value);
    assert node.block.vtx[..0] == [];
    assert TxPos(node, 0) == DiskTxPos(0, id, id + 81);
    var u := Grown(t, id, node, stored);
    forall tx | InTree(u, tx) ensures tx.hash < id + 1 {
      var k :| k in u.nodes && k != u.genesis && tx in u.nodes[k].block.vtx;
      if k != id { assert InTree(t, tx); }
    }
  }

  /** The block is what the rules ask for, and it adds a trust of one. */
  lemma EntryInContext(t: Tree, net: Network, prev: Hash, height: nat, id: Hash, value: int)
    requires SteadyTree(t, START) && prev in t.nodes && id >= 0 && height == Height(t, prev) + 1 <= MAX_INT32
    requires MoneyRange(value) && Lenient(net)
    ensures InContext(t, net, prev, id, Entry(prev, height, id, value).block)
    ensures Placed(t, Entry(prev, height, id, value)) == Entry(prev, height, id, value)
    ensures HeightScript(height) <= Coinbase(height, id, value).vin[0].scriptSig
  {
    hide LimitBits, CheckBlock, HeightScript, MedianTime.TimestampOk, BlockTrust, Retarget.NextTarget;
    CoinbaseChecks(height, id, value);
    CoinbaseBlockChecks(START, height, id, value);
    SteadyNext(t, START, prev, [Coinbase(height, id, value)]);
    assert SteadyAt(t, START, prev);
  }

  ghost predicate Lenient(net: Network) {
    (forall tx, height, time :: net.final(tx, height, time)) && (forall height, h :: net.hardened(height, h))
  }

  lemma SteadyGrows(t: Tree, u: Tree, prev: Hash, height: nat, id: Hash, value: int)
    requires SteadyTree(t, START) && Linked(u) && id > 0 && id !in t.nodes && height <= MAX_INT32 && MoneyRange(value)
    requires u == Grown(t, id, Entry(prev, height, id, value), OnDisk(height, id, value))
    ensures SteadyTree(u, START)
  {
    hide LimitBits, CheckBlock, HeightScript;
    CoinbaseBlockChecks(START, height, id, value);
    forall k | k in u.nodes ensures SteadyAt(u, START, k) {
      if k != id { assert SteadyAt(t, START, k); }
    }
  }

  // Which of the blocks connect

  lemma ValuelessConnects(t: Tree, env: Env, id: Hash, prev: Hash, height: nat)
    requires WellFormed(t) && id > 0 && id != t.genesis && height <= MAX_INT32 && Has(t, id, prev, height, 0)
    requires prev in t.nodes && Connectable(t, env, prev) && env.headerOk(id)
    ensures Connectable(t, env, id)
  {
    hide LimitBits, ConnectResult, HeightScript, CheckBlock, EntryOk;
    assert LinkedAt(t, id) && Parent(t, id) == prev;
    ConnectableIndex(t, env, prev);
    var db, tx := Index(t, prev).value, Coinbase(height, id, 0);
    IndexIndexed(t, prev);
    BlockTxInTree(t, id, 0);
    CoinbaseChecks(height, id, 0);
    CoinbaseIsFresh(t, db, Height(t, prev), tx);
    ValuelessResult(t, env, id, prev, height, db);
  }

  lemma ValuelessResult(t: Tree, env: Env, id: Hash, prev: Hash, height: nat, db: Db)
    requires Linked(t) && id > 0 && height <= MAX_INT32 && Has(t, id, prev, height, 0)
    requires id !in db && env.headerOk(id)
    ensures ConnectResult(t, id, env, db).Some?
  {
    hide LimitBits, Rewards.PowReward, HeightScript, CheckBlock;
    CoinbaseChecks(height, id, 0);
    CoinbaseBlockChecks(START, height, id, 0);
    Rewards.PowRewardRange(t.nodes[id].block.bits);
    assert ConnectTxs(t, id, env, db, 0) == Some(Totals(db, 0, 0, 0, 0));
    assert ConnectTxs(t, id, env, db, 1).Some?;
  }

  lemma GreedyFails(t: Tree, env: Env, id: Hash, prev: Hash, height: nat)
    requires WellFormed(t) && id > 0 && id != t.genesis && height <= MAX_INT32 && Has(t, id, prev, height, TOO_MUCH)
    ensures !Connectable(t, env, id)
  {
    hide LimitBits, ConnectResult, HeightScript;
    assert LinkedAt(t, id);
    if Connectable(t, env, id) { GreedyResult(t, env, id, prev, height, Index(t, Parent(t, id)).value); }
  }

  lemma GreedyResult(t: Tree, env: Env, id: Hash, prev: Hash, height: nat, db: Db)
    requires Linked(t) && id > 0 && height <= MAX_INT32 && Has(t, id, prev, height, TOO_MUCH)
    ensures ConnectResult(t, id, env, db).None?
  {
    hide LimitBits, Rewards.PowReward, HeightScript, CheckBlock;
    CoinbaseChecks(height, id, TOO_MUCH);
    CoinbaseBlockChecks(START, height, id, TOO_MUCH);
    Rewards.PowRewardRange(t.nodes[id].block.bits);
    assert ConnectTxs(t, id, env, db, 0) == Some(Totals(db, 0, 0, 0, 0));
  }

  // The branches

  predicate Heavy(t: Tree, blocks: nat) {
    && t.genesis == GENESIS && GENESIS in t.nodes && t.nodes[GENESIS].trust == 1 && t.nodes[GENESIS].height == 0
    && (blocks >= 1 ==> Has(t, HEAVY_1, GENESIS, 1, 0))
    && (blocks >= 2 ==> Has(t, HEAVY_2, HEAVY_1, 2, 0))
    && (blocks >= 3 ==> Has(t, HEAVY_3, HEAVY_2, 3, 0))
  }

  /** Two branches of three blocks; the last of the second one creates too much. */
  predicate Blocks(t: Tree) {
    && Heavy(t, 3)
    && Has(t, CHECKED, GENESIS, 1, 0) && Has(t, SOUND, CHECKED, 2, 0) && Has(t, GREEDY, SOUND, 3, TOO_MUCH)
  }

  lemma HeavyConnects(t: Tree, env: Env, blocks: nat)
    requires WellFormed(t) && Heavy(t, blocks) && (forall h :: env.headerOk(h)) && blocks <= 3
    ensures blocks >= 1 ==> Connectable(t, env, HEAVY_1)
    ensures blocks >= 2 ==> Connectable(t, env, HEAVY_2)
    ensures blocks >= 3 ==> Connectable(t, env, HEAVY_3)
  {
    assert Connectable(t, env, GENESIS);
    hide Connectable, WellFormed, Entry;
    if blocks >= 1 { ValuelessConnects(t, env, HEAVY_1, GENESIS, 1); }
    if blocks >= 2 { ValuelessConnects(t, env, HEAVY_2, HEAVY_1, 2); }
    if blocks >= 3 { ValuelessConnects(t, env, HEAVY_3, HEAVY_2, 3); }
  }

  lemma BlocksConnect(t: Tree, env: Env)
    requires WellFormed(t) && Blocks(t) && forall h :: env.headerOk(h)
    ensures Connectable(t, env, HEAVY_3) && Connectable(t, env, CHECKED) && Connectable(t, env, SOUND)
    ensures !Connectable(t, env, GREEDY)
  {
    HeavyConnects(t, env, 3);
    assert Connectable(t, env, GENESIS);
    hide Connectable, WellFormed, Entry;
    ValuelessConnects(t, env, CHECKED, GENESIS, 1);
    ValuelessConnects(t, env, SOUND, CHECKED, 2);
    GreedyFails(t, env, GREEDY, SOUND, 3);
  }

  /** A block on top of the best one that connects becomes the best one. */
  lemma NextSwitches(t: Tree, env: Env, best: Hash, id: Hash)
    requires WellFormed(t) && id in t.nodes && id != t.genesis && Parent(t, id) == best
    requires Connectable(t, env, id) && Index(t, best).Some?
    ensures var db := Index(t, best).value;
            SwitchResult(t, env, db, best, id).Some? && PostponedConnect(t, env, db, best, id)
  {
    hide ConnectResult;
    assert LinkedAt(t, id);
  }

  /** The checkpoint takes the best block from the heavy branch to the light one. */
  lemma CheckpointSwitches(t: Tree, env: Env)
    requires WellFormed(t) && Blocks(t) && (forall h :: env.headerOk(h)) && Index(t, HEAVY_3).Some?
    ensures var db := Index(t, HEAVY_3).value;
            SwitchResult(t, env, db, HEAVY_3, CHECKED).Some? && PostponedConnect(t, env, db, HEAVY_3, CHECKED)
  {
    hide Entry;
    assert LinkedAt(t, CHECKED) && Parent(t, CHECKED) == GENESIS;
    BlocksConnect(t, env);
    ReorgIffConnectable(t, env, HEAVY_3, CHECKED);
    hide Connectable, WellFormed, Index, ReorgResult;
    assert Intermediate(t, HEAVY_3, CHECKED) == CHECKED;
  }

  /** The block on top of the light branch: the switch succeeds, and the branch does not connect. */
  lemma LastSwitches(t: Tree, env: Env)
    requires WellFormed(t) && Blocks(t) && Has(t, LAST, GREEDY, 4, 0)
    requires (forall h :: env.headerOk(h)) && Index(t, CHECKED).Some?
    ensures var db := Index(t, CHECKED).value;
            SwitchResult(t, env, db, CHECKED, LAST).Some? && !PostponedConnect(t, env, db, CHECKED, LAST)
  {
    hide Entry;
    assert LinkedAt(t, LAST) && LinkedAt(t, GREEDY) && LinkedAt(t, SOUND) && LinkedAt(t, CHECKED);
    assert Parent(t, LAST) == GREEDY && Parent(t, GREEDY) == SOUND && Parent(t, SOUND) == CHECKED;
    BlocksConnect(t, env);
    assert !Connectable(t, env, LAST);
    hide Connectable;
    ReorgIffConnectable(t, env, CHECKED, SOUND);
    ReorgIsReplay(t, env, CHECKED, SOUND);
    assert Intermediate(t, CHECKED, LAST) == SOUND by { assert Intermediate(t, CHECKED, GREEDY) == SOUND; }
    hide WellFormed, ReorgResult, ConnectUp, Index;
    ConnectUpIffConnectable(t, env, SOUND, LAST);
  }

  // The run

  /** Between steps: nothing is pending, and ids from `id` on are free. */
  ghost predicate Between(n: CheckpointedNode, id: Hash)
    reads n, n.chain
  {
    n.Safe() && n.pending.None? && Free(n.chain.tree, id) && SteadyTree(n.chain.tree, START)
  }

  /** A block arrives and passes AcceptBlock. */
  method Receive(n: CheckpointedNode, env: Env, net: Network, prev: Hash, id: Hash, height: nat, value: int)
    returns (ok: bool)
    requires Between(n, id) && id > 0 && MoneyRange(value) && Lenient(net)
    requires prev in n.chain.tree.nodes && IsAncestor(n.chain.tree, n.sync, prev)
    requires height == n.chain.tree.nodes[prev].height + 1 <= MAX_INT32
    modifies n, n.chain
    ensures Between(n, id + 1) && n.sync == old(n.sync)
    ensures n.chain.tree == Grown(old(n.chain.tree), id, Entry(prev, height, id, value), OnDisk(height, id, value))
    ensures var t, better := n.chain.tree, height + 1 > old(n.chain.tree.nodes[n.chain.best].trust);
            && (ok <==> better ==> SwitchResult(t, env, old(n.chain.db), old(n.chain.best), id).Some?)
            && n.chain.best == (if better && ok then id else old(n.chain.best))
            && (old(n.chain.Synced()) ==>
                  (n.chain.Synced() <==> better && ok ==>
                     PostponedConnect(t, env, old(n.chain.db), old(n.chain.best), id)))
  {
    hide SwitchResult, PostponedConnect, SuppliesKnown, AllLinked, LinksBelow, OneLine, InContext, HeightScript,
         Arriving, Free, RulesKept, Placed, Entry, SteadyTree, OnDisk, Coinbase, WellFormedNode, InTree;
    ghost var t := n.chain.tree;
    EntryArrives(t, prev, height, id, value);
    EntryInContext(t, net, prev, height, id, value);
    assert t.nodes[prev].height < MAX_INT32 && id !in t.nodes by { FreeId(t, id); }
    var node := Entry(prev, height, id, value);
    assert node.block.vtx == [Coinbase(height, id, value)] by { EntryTxs(prev, height, id, value); }
    ok := n.AcceptBlock(env, net, id, node, OnDisk(height, id, value));
    SteadyGrows(t, n.chain.tree, prev, height, id, value);
  }

  lemma FreeId(t: Tree, id: Hash)
    requires Free(t, id)
    ensures id !in t.nodes
  {
  }

  lemma EntryTxs(prev: Hash, height: nat, id: Hash, value: int)
    requires height <= MAX_INT32 && id >= 0
    ensures Entry(prev, height, id, value).block.vtx == [Coinbase(height, id, value)]
  {
  }

  lemma StartsFree()
    ensures WellFormed(Start()) && Start().nodes.Keys == {GENESIS} && Free(Start(), HEAVY_1)
    ensures SteadyTree(Start(), START) && Heavy(Start(), 0)
  {
    hide LimitBits, WellFormed, Free, SteadyTree, Heavy;
    var t := Start();
    AloneIsSteady(t, t.nodes[GENESIS]);
  }

  lemma AloneIsSteady(t: Tree, g: Node)
    requires t == Tree(GENESIS, map[GENESIS := g], map[]) && g.prev.None? && g.height == 0 && g.trust == 1
    requires g.block == SteadyBlock(START, 0, []) && g.block.vtx == []
    ensures WellFormed(t) && Free(t, HEAVY_1) && SteadyTree(t, START) && Heavy(t, 0)
  {
    hide SteadyBlock;
    assert LinkedAt(t, GENESIS);
    assert SteadyAt(t, START, GENESIS);
  }

  /** A block on top of the heavy branch becomes the best one. */
  method HeavyBlock(n: CheckpointedNode, env: Env, net: Network, blocks: nat, prev: Hash, id: Hash)
    requires Between(n, id) && n.chain.Synced() && n.chain.tree.genesis == n.sync && Lenient(net)
    requires (forall h :: env.headerOk(h)) && blocks < 3 && Heavy(n.chain.tree, blocks)
    requires prev == GENESIS + blocks && id == prev + 1 && n.chain.best == prev
    requires n.chain.tree.nodes[prev].height == blocks && n.chain.tree.nodes[prev].trust == blocks + 1
    modifies n, n.chain
    ensures Between(n, id + 1) && n.chain.Synced() && n.chain.tree.genesis == n.sync
    ensures Heavy(n.chain.tree, blocks + 1) && n.chain.best == id && n.chain.tree.nodes[id].height == blocks + 1
    ensures n.chain.tree.nodes[id].trust == blocks + 2
  {
    hide LinkedAt, LinkBelow, SwitchResult, PostponedConnect, AllLinked, LinksBelow, OneLine, Free, Entry, OnDisk,
         SteadyTree, Index, Heavy, WellFormedNode, InTree;
    ghost var t := n.chain.tree;
    assert Linked(t) && Index(t, prev) == Some(n.chain.db);
    OnlyGenesisAtZero(t, prev);
    hide SuppliesKnown, WellFormed;
    var ok := Receive(n, env, net, prev, id, blocks + 1, 0);
    HeavyArrives(t, n.chain.tree, env, blocks, prev, id);
  }

  lemma HeavyArrives(t: Tree, u: Tree, env: Env, blocks: nat, prev: Hash, id: Hash)
    requires WellFormed(t) && WellFormed(u) && Heavy(t, blocks) && Free(t, id) && blocks < 3
    requires forall h :: env.headerOk(h)
    requires prev == GENESIS + blocks && id == prev + 1 && prev in t.nodes && Index(t, prev).Some?
    requires u == Grown(t, id, Entry(prev, blocks + 1, id, 0), OnDisk(blocks + 1, id, 0))
    ensures Heavy(u, blocks + 1)
    ensures var db := Index(t, prev).value;
            SwitchResult(u, env, db, prev, id).Some? && PostponedConnect(u, env, db, prev, id)
  {
    hide Entry, SwitchResult, PostponedConnect;
    HeavyExtends(t, u, prev, blocks + 1, id);
    HeavyConnects(u, env, blocks + 1);
    IndexExtends(t, u, prev);
    assert LinkedAt(u, id);
    hide Index, Connectable;
    NextSwitches(u, env, prev, id);
  }

  lemma HeavyExtends(t: Tree, u: Tree, prev: Hash, height: nat, id: Hash)
    requires id >= 0 && height <= MAX_INT32 && Free(t, id)
    requires u == Grown(t, id, Entry(prev, height, id, 0), OnDisk(height, id, 0))
    ensures Extends(t, u)
  {
    hide Entry, HeightScript;
  }

  /** A block of the light branch does not have to connect. */
  method LightBlock(n: CheckpointedNode, env: Env, net: Network, prev: Hash, id: Hash, height: nat, value: int)
    requires Between(n, id) && n.chain.Synced() && n.chain.tree.genesis == n.sync && Lenient(net)
    requires id > 0 && MoneyRange(value) && prev in n.chain.tree.nodes
    requires height == n.chain.tree.nodes[prev].height + 1 <= MAX_INT32
    requires height + 1 <= n.chain.tree.nodes[n.chain.best].trust
    modifies n, n.chain
    ensures Between(n, id + 1) && n.chain.Synced() && n.chain.tree.genesis == n.sync == old(n.sync)
    ensures n.chain.best == old(n.chain.best)
    ensures n.chain.tree.nodes == old(n.chain.tree.nodes)[id := Entry(prev, height, id, value)]
  {
    OnlyGenesisAtZero(n.chain.tree, prev);
    hide SwitchResult, PostponedConnect, SuppliesKnown, AllLinked, LinksBelow, OneLine, WellFormed, Free, Entry, OnDisk,
         SteadyTree;
    var ok := Receive(n, env, net, prev, id, height, value);
  }

  method HeavyBranch(env: Env, net: Network) returns (n: CheckpointedNode)
    requires (forall h :: env.headerOk(h)) && Lenient(net)
    ensures fresh(n) && fresh(n.chain) && Between(n, CHECKED) && n.sync == n.chain.tree.genesis == GENESIS
    ensures Heavy(n.chain.tree, 3) && n.chain.best == HEAVY_3 && n.chain.Synced()
  {
    StartsFree();
    var c := new ChainState(Start());
    n := new CheckpointedNode(c);
    hide SuppliesKnown, AllLinked, LinksBelow, OneLine, WellFormed, Free, SteadyTree, Heavy;
    HeavyBlock(n, env, net, 0, GENESIS, HEAVY_1);
    HeavyBlock(n, env, net, 1, HEAVY_1, HEAVY_2);
    HeavyBlock(n, env, net, 2, HEAVY_2, HEAVY_3);
    assert n.chain.tree.genesis == GENESIS by { HeavyStarts(n.chain.tree, 3); }
  }

  lemma HeavyStarts(t: Tree, blocks: nat)
    requires Heavy(t, blocks)
    ensures t.genesis == GENESIS
  {
  }

  method BothBranches(env: Env, net: Network) returns (n: CheckpointedNode)
    requires (forall h :: env.headerOk(h)) && Lenient(net)
    ensures fresh(n) && fresh(n.chain) && Between(n, LAST) && n.sync == n.chain.tree.genesis
    ensures Blocks(n.chain.tree) && n.chain.best == HEAVY_3 && n.chain.Synced()
  {
    hide SuppliesKnown, AllLinked, LinksBelow, OneLine, WellFormed, Free, Entry, SteadyTree;
    n := HeavyBranch(env, net);
    LightBlock(n, env, net, GENESIS, CHECKED, 1, 0);
    LightBlock(n, env, net, CHECKED, SOUND, 2, 0);
    LightBlock(n, env, net, SOUND, GREEDY, 3, TOO_MUCH);
  }

  /** A synchronised checkpoint moves the best block to the light branch. */
  method CheckpointTaken(env: Env, net: Network) returns (n: CheckpointedNode)
    requires (forall h :: env.headerOk(h)) && Lenient(net)
    ensures fresh(n) && fresh(n.chain) && Between(n, LAST) && n.sync == CHECKED
    ensures Blocks(n.chain.tree) && n.chain.best == CHECKED && n.chain.Synced()
  {
    n := BothBranches(env, net);
    ghost var t := n.chain.tree;
    OffBranch(t, n.chain.best, n.chain.next);
    OnlyGenesisAtZero(t, CHECKED);
    assert Index(t, HEAVY_3) == Some(n.chain.db);
    hide SwitchResult, PostponedConnect, SuppliesKnown, AllLinked, LinksBelow, OneLine, WellFormed, Free, Index, Entry,
         SteadyTree;
    CheckpointSwitches(t, env);
    var ok := n.ProcessSyncCheckpoint(env, CHECKED, true);
  }

  /**
   * SetBestChain can succeed and still leave the chain state out of step: a postponed block does not
   * connect, and the best block is moved past it all the same. Every block of the run is one that
   * AcceptBlock lets through, with the trust that GetBlockTrust gives it.
   */
  method PostponedFailure(env: Env, net: Network) returns (n: CheckpointedNode)
    requires (forall h :: env.headerOk(h)) && Lenient(net)
    ensures n.Safe() && n.sync == CHECKED && n.chain.best == LAST
    ensures Blocks(n.chain.tree) && Has(n.chain.tree, LAST, GREEDY, 4, 0) && RulesKept(n.chain.tree)
    ensures !n.chain.Synced()
  {
    n := CheckpointTaken(env, net);
    ghost var t := n.chain.tree;
    assert Index(t, CHECKED) == Some(n.chain.db);
    AboveChecked(t);
    hide SwitchResult, PostponedConnect, SuppliesKnown, AllLinked, LinksBelow, OneLine, Free, Index, Entry, WellFormed,
         OnDisk, SteadyTree, RulesKept;
    var ok := Receive(n, env, net, GREEDY, LAST, 4, 0);
    LastArrives(t, n.chain.tree, env);
    SteadyRules(n.chain.tree, START);
  }

  lemma LastArrives(t: Tree, u: Tree, env: Env)
    requires WellFormed(t) && WellFormed(u) && Blocks(t) && Free(t, LAST) && (forall h :: env.headerOk(h))
    requires u == Grown(t, LAST, Entry(GREEDY, 4, LAST, 0), OnDisk(4, LAST, 0)) && Index(t, CHECKED).Some?
    ensures Blocks(u) && Has(u, LAST, GREEDY, 4, 0)
    ensures var db := Index(t, CHECKED).value;
            SwitchResult(u, env, db, CHECKED, LAST).Some? && !PostponedConnect(u, env, db, CHECKED, LAST)
  {
    hide Entry, SwitchResult, PostponedConnect;
    HeavyExtends(t, u, GREEDY, 4, LAST);
    IndexExtends(t, u, CHECKED);
    hide Index;
    LastSwitches(u, env);
  }

  lemma OffBranch(t: Tree, best: Hash, next: map<Hash, Hash>)
    requires WellFormed(t) && Blocks(t) && best == HEAVY_3 && LinksBelow(t, best, next)
    ensures CHECKED !in next
  {
    hide Entry;
    assert LinkedAt(t, HEAVY_3) && LinkedAt(t, HEAVY_2) && LinkedAt(t, CHECKED);
    assert Parent(t, HEAVY_3) == HEAVY_2 && Parent(t, HEAVY_2) == HEAVY_1;
    assert Ancestor(t, HEAVY_3, 1) == Ancestor(t, HEAVY_2, 1) == Ancestor(t, HEAVY_1, 1) == HEAVY_1;
    Runs.MainChainIsBestBranch(t, best, next, CHECKED);
  }

  lemma AboveChecked(t: Tree)
    requires WellFormed(t) && Blocks(t)
    ensures IsAncestor(t, CHECKED, GREEDY)
  {
    hide Entry;
    assert LinkedAt(t, GREEDY) && LinkedAt(t, SOUND) && LinkedAt(t, CHECKED);
    assert Parent(t, GREEDY) == SOUND && Parent(t, SOUND) == CHECKED;
    assert Ancestor(t, GREEDY, 1) == Ancestor(t, SOUND, 1) == Ancestor(t, CHECKED, 1);
  }
}
