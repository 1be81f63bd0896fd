/**
 * From the draft to the block: what CheckBlock and AcceptBlock (src/main.cpp) say to a block that
 * CreateNewBlock (src/miner.cpp) has put together when the miner hands it to its own node.
 */
module Assembly {
  import opened Common
  import opened Transactions
  import opened TxDb
  import opened BlockTree
  import opened MedianTime
  import opened Connect
  import opened Reorg
  import opened Replay
  import opened Trust
  import opened Chain
  import opened ContextRules
  import opened Checkpoints
  import opened Miner
  import opened Mined
  import Retarget
  import Rewards

  /** What the miner starts from and what it has made of it; `lim` are the limits of the draft. */
  datatype Job = Job(s: Sources, lim: Limits, now: nat, cb: Tx, txs: seq<Tx>, bits: nat, time: nat, nonce: nat)

  /** The pool has checked its transactions. */
  ghost predicate PoolChecked(s: Sources) {
    forall h :: h in s.pool ==> CheckTransaction(s.pool[h]) && s.pool[h].size > 0
  }

  /** Header, number of transactions, transactions, and a signature that is empty. */
  function Assembled(j: Job): Block {
    var vtx := [j.cb] + j.txs;
    Block(j.bits, j.time, j.nonce, vtx, 80 + CompactSizeLength(|vtx|) + SizeOf(vtx) + 1)
  }

  /**
   * A coinbase with one output whose script starts with the height, as IncrementExtraNonce makes it.
   * It fits into what the draft keeps free, and its id is its own.
   */
  ghost predicate CoinbaseFor(s: Sources, cb: Tx, value: int)
    requires Ready(s)
  {
    && |cb.vin| == 1 && cb.vin[0].prevout.IsNull() && |cb.vout| == 1
    && cb.vout[0].value == value && MoneyRange(value)
    && Height(s.t, s.best) < MAX_INT32 && HeightScript(Height(s.t, s.best) + 1) <= cb.vin[0].scriptSig
    && 2 <= |cb.vin[0].scriptSig| <= 100
    && cb.sigOps <= RESERVED_SIG_OPS && cb.size <= RESERVED_SIZE - 90
    && (forall tx :: InTree(s.t, tx) && tx.hash == cb.hash ==> tx == cb)
    && (cb.hash in s.pool ==> s.pool[cb.hash] == cb)
  }

  /** The steps of CreateNewBlock without a coinstake have been made. */
  ghost predicate Made(j: Job) {
    && Ready(j.s) && WellFormed(j.s.t) && PoolKnown(j.s) && PoolChecked(j.s)
    && Chosen(j.s, j.txs) && Built(j.s, j.lim, j.txs).Some? && j.lim.maxSize <= MAX_BLOCK_SIZE - 1000
    && j.lim.time <= j.now && j.cb.time <= j.now
    && j.bits == Retarget.NextTarget(j.s.t, j.s.best, false)
    && CoinbaseFor(j.s, j.cb, Rewards.PowReward(j.bits) + Built(j.s, j.lim, j.txs).value.fees)
    && Filled(j.s.t, j.s.best, [j.cb] + j.txs, j.now, j.time)
  }

  lemma {:induction false} FirstApart(cb: Tx, txs: seq<Tx>)
    ensures SumSigOps([cb] + txs) == cb.sigOps + SumSigOps(txs) && SizeOf([cb] + txs) == cb.size + SizeOf(txs)
  {
    if txs == [] {
      assert [cb] + txs == [cb] && [cb][..0] == [];
    } else {
      FirstApart(cb, txs[..|txs| - 1]);
      assert ([cb] + txs)[..|txs|] == [cb] + txs[..|txs| - 1];
    }
  }

  lemma {:induction false} CountWithinSize(txs: seq<Tx>)
    requires forall i :: 0 <= i < |txs| ==> txs[i].size > 0
    ensures |txs| <= SizeOf(txs)
  {
    if txs != [] { CountWithinSize(txs[..|txs| - 1]); }
  }

  lemma {:induction false} DraftedInTime(s: Sources, lim: Limits, txs: seq<Tx>)
    requires Ready(s) && Built(s, lim, txs).Some?
    ensures forall i :: 0 <= i < |txs| ==> txs[i].time <= lim.time
  {
    if txs != [] {
      Last(s, lim, txs);
      DraftedInTime(s, lim, txs[..|txs| - 1]);
      hide Built, InputsAllowed, AllFetched, PoolValueIn, Spend, GetMinFee;
    }
  }

  lemma CoinbaseChecked(s: Sources, cb: Tx, value: int)
    requires Ready(s) && CoinbaseFor(s, cb, value)
    ensures cb.IsCoinBase() && CheckTransaction(cb) && cb.ValueOut() == value
  {
    hide HeightScript, InTree;
    assert cb.vout[..1] == cb.vout && cb.vout[..0] == [];
    assert SumOuts(cb.vout) == SumOuts(cb.vout[..0]) + value;
  }

  /** The block of a draft passes CheckBlock once its proof of work is found. */
  lemma AssembledChecks(j: Job)
    requires Made(j)
    ensures CheckBlock(Assembled(j), true) && !Assembled(j).IsProofOfStake()
  {
    var s, cb, txs, b := j.s, j.cb, j.txs, Assembled(j);
    hide HeightScript, Rewards.PowReward, Retarget.NextTarget, PoolKnown, WellFormed, MedianTimePast, Built, InTree;
    CoinbaseChecked(s, cb, Rewards.PowReward(j.bits) + Built(s, j.lim, txs).value.fees);
    WithinLimits(s, j.lim, txs);
    FirstApart(cb, txs);
    forall i | 0 <= i < |txs| ensures CheckTransaction(txs[i]) && txs[i].size > 0 && txs[i].time <= b.time {
      assert txs[i].hash in s.pool && s.pool[txs[i].hash] == txs[i];
      assert b.vtx[i + 1] == txs[i];
    }
    CountWithinSize(txs);
    hide CheckTransaction, SumSigOps, SizeOf;
    assert forall i :: 1 <= i < |b.vtx| ==> b.vtx[i] == txs[i - 1];
  }

  // Back at the node

  /** The block has been written to a new place, at which its transactions are found. */
  ghost predicate Written(j: Job, node: Node, stored: map<DiskTxPos, Tx>) {
    && node.block == Assembled(j) && node.prev == Some(j.s.best) && node.file < MAX_UINT32
    && stored.Keys !! j.s.t.disk.Keys && MEMORY_POS !in j.s.t.disk
    && (forall p :: p in j.s.t.disk ==> p.file != node.file || p.blockPos != node.blockPos)
    && (forall i {:trigger TxPos(node, i)} :: 0 <= i < |node.block.vtx| ==>
          TxPos(node, i) in stored && stored[TxPos(node, i)] == node.block.vtx[i])
  }

  /** An id of the block's transactions and of those in the tree stands for one transaction. */
  lemma IdsIdentify(j: Job, node: Node, tx1: Tx, tx2: Tx)
    requires Made(j) && node.block == Assembled(j)
    requires Known(j.s.t, node, tx1) && Known(j.s.t, node, tx2) && tx1.hash == tx2.hash
    ensures tx1 == tx2
  {
    hide HeightScript, Rewards.PowReward, Retarget.NextTarget, MedianTimePast, Built, Indexed, InTree;
    var s := j.s;
    assert forall tx :: tx in node.block.vtx ==> tx == j.cb || (tx.hash in s.pool && s.pool[tx.hash] == tx) by {
      forall tx | tx in node.block.vtx ensures tx == j.cb || (tx.hash in s.pool && s.pool[tx.hash] == tx) {
        var i :| 0 <= i < |node.block.vtx| && node.block.vtx[i] == tx;
        if i > 0 { assert tx == j.txs[i - 1]; }
      }
    }
  }

  lemma AssembledArrives(j: Job, h: Hash, node: Node, stored: map<DiskTxPos, Tx>)
    requires Made(j) && Written(j, node, stored)
    ensures Arriving(j.s.t, h, node, stored)
  {
    AssembledChecks(j);
    forall tx1, tx2 | Known(j.s.t, node, tx1) && Known(j.s.t, node, tx2) && tx1.hash == tx2.hash ensures tx1 == tx2 {
      IdsIdentify(j, node, tx1, tx2);
    }
    hide Made, Assembled, CheckBlock, Known;
  }

  lemma AssembledOnTop(j: Job, h: Hash, node: Node, stored: map<DiskTxPos, Tx>)
    requires Made(j) && Written(j, node, stored) && h !in j.s.t.nodes
    ensures OnTop(j.s, Grown(j.s.t, h, Placed(j.s.t, node), stored), h, j.cb, j.txs)
  {
    hide HeightScript, Rewards.PowReward, Retarget.NextTarget, MedianTimePast, Built, InTree, CheckBlock, BlockTrust;
    var s := j.s;
    AssembledArrives(j, h, node, stored);
    GrownWellFormed(s.t, h, node, stored);
    forall x | x in s.db
      ensures s.db[x].pos != MEMORY_POS && !InBlock(Grown(s.t, h, Placed(s.t, node), stored), h, s.db[x].pos)
    {
      assert EntryOk(s.t, s.db, x, Height(s.t, s.best));
    }
    hide WellFormed, Linked, PoolKnown;
  }

  /** A transaction that is final stays final. */
  ghost predicate FinalStays(net: Network) {
    forall tx, k1: nat, k2: nat, t1: nat, t2: nat {:trigger net.final(tx, k1, t1), net.final(tx, k2, t2)} ::
      k1 <= k2 && t1 <= t2 && net.final(tx, k1, t1) ==> net.final(tx, k2, t2)
  }

  /** The transactions of the block are final for the miner. */
  ghost predicate FinalForMiner(j: Job, net: Network)
    requires Ready(j.s)
  {
    && FinalStays(net) && net.final(j.cb, Height(j.s.t, j.s.best), j.now)
    && (forall i :: 0 <= i < |j.txs| ==> net.final(j.txs[i], Height(j.s.t, j.s.best), j.now))
  }

  /** The clock and the parent's time are not too far past the median. */
  predicate InWindow(t: Tree, best: Hash, now: nat)
    requires Linked(t) && best in t.nodes
  {
    Height(t, best) > 1 ==> Max(now, Time(t, best) - 2 * ONE_HOUR) <= MedianTimePast(t, best) + MaxOffset(t, best)
  }

  /** The time that the miner fills in is never too early. It is too late exactly if the clock or the parent is. */
  lemma FilledTimeOk(t: Tree, best: Hash, vtx: seq<Tx>, now: nat, time: nat)
    requires Linked(t) && best in t.nodes && Filled(t, best, vtx, now, time)
    requires forall i :: 0 <= i < |vtx| ==> vtx[i].time <= now
    ensures TimestampOk(t, best, time) <==> InWindow(t, best, now)
  {
    hide MedianTimePast;
  }

  lemma AssembledInContext(j: Job, net: Network, h: Hash)
    requires Made(j) && FinalForMiner(j, net)
    ensures InContext(j.s.t, net, j.s.best, h, Assembled(j)) <==>
              InWindow(j.s.t, j.s.best, j.now) && net.hardened(Height(j.s.t, j.s.best) + 1, h)
  {
    AssembledChecks(j);
    DraftedInTime(j.s, j.lim, j.txs);
    var vtx := Assembled(j).vtx;
    assert forall i :: 0 <= i < |vtx| ==> vtx[i] == if i == 0 then j.cb else j.txs[i - 1];
    hide HeightScript, Rewards.PowReward, Retarget.NextTarget, MedianTimePast, Built, InTree, CheckBlock, PoolKnown,
         WellFormed, CoinbaseFor, TimestampOk, InWindow;
    FilledTimeOk(j.s.t, j.s.best, vtx, j.now, j.time);
    forall i | 0 <= i < |vtx| ensures net.final(vtx[i], Height(j.s.t, j.s.best) + 1, j.time) {
      assert net.final(vtx[i], Height(j.s.t, j.s.best), j.now);
    }
  }

  /** What decides about a block that the miner hands to its own node, all of it known beforehand. */
  ghost predicate Wanted(j: Job, net: Network, h: Hash)
    requires Ready(j.s)
  {
    var height := Height(j.s.t, j.s.best) + 1;
    && InWindow(j.s.t, j.s.best, j.now) && net.hardened(height, h)
    && BlockTrust(j.s.t, Some(j.s.best), Assembled(j)) > 0
    && (height < CHECKPOINT_HEIGHT || AllScriptsPass(j.s, j.txs))
  }

  lemma AssembledConnects(j: Job, h: Hash, node: Node, stored: map<DiskTxPos, Tx>)
    requires Made(j) && Written(j, node, stored) && h !in j.s.t.nodes && j.s.env.headerOk(h)
    ensures var u := Grown(j.s.t, h, Placed(j.s.t, node), stored);
            && WellFormed(u)
            && (SwitchResult(u, j.s.env, j.s.db, j.s.best, h).Some? <==>
                  Height(j.s.t, j.s.best) + 1 < CHECKPOINT_HEIGHT || AllScriptsPass(j.s, j.txs))
  {
    var u, fees := Grown(j.s.t, h, Placed(j.s.t, node), stored), Built(j.s, j.lim, j.txs).value.fees;
    AssembledOnTop(j, h, node, stored);
    CoinbaseChecked(j.s, j.cb, Rewards.PowReward(j.bits) + fees);
    OnTopFacts(j.s, u, h, j.cb, j.txs, 0);
    hide HeightScript, Rewards.PowReward, Retarget.NextTarget, Filled, Built, InTree, CheckBlock, PoolKnown,
         CoinbaseFor, AllScriptsPass, ConnectResult, BlockTrust, Chosen;
    MinedBlockConnects(j.s, u, h, j.cb, j.txs, j.lim);
  }

  /** What AcceptBlock asks of the place and of the coinbase. */
  lemma AssembledFits(j: Job, h: Hash, node: Node, stored: map<DiskTxPos, Tx>)
    requires Made(j) && Written(j, node, stored)
    ensures node.prev == Some(j.s.best) && Height(j.s.t, j.s.best) < MAX_INT32 && node.block == Assembled(j)
    ensures node.block.vtx != [] && node.block.vtx[0].vin != []
    ensures HeightScript(Height(j.s.t, j.s.best) + 1) <= node.block.vtx[0].vin[0].scriptSig
    ensures var u := Grown(j.s.t, h, Placed(j.s.t, node), stored);
            && u.nodes[h].prev == Some(j.s.best)
            && u.nodes[h].trust == j.s.t.nodes[j.s.best].trust + BlockTrust(j.s.t, Some(j.s.best), Assembled(j))
  {
    hide HeightScript, BlockTrust, Rewards.PowReward, Retarget.NextTarget, Filled, Built, PoolKnown, WellFormed;
  }

  lemma Prepared(j: Job, net: Network, h: Hash, node: Node, stored: map<DiskTxPos, Tx>)
    requires Made(j) && FinalForMiner(j, net) && Written(j, node, stored) && h !in j.s.t.nodes && j.s.env.headerOk(h)
    ensures Ready(j.s) && node.prev == Some(j.s.best) && Height(j.s.t, j.s.best) < MAX_INT32
    ensures Arriving(j.s.t, h, node, stored) && node.block.vtx != [] && node.block.vtx[0].vin != []
    ensures HeightScript(Height(j.s.t, j.s.best) + 1) <= node.block.vtx[0].vin[0].scriptSig
    ensures var u := Grown(j.s.t, h, Placed(j.s.t, node), stored);
            && Linked(u) && u.nodes[h].prev == Some(j.s.best) && j.s.best in u.nodes
            && (&& InContext(j.s.t, net, j.s.best, h, node.block) && u.nodes[h].trust > j.s.t.nodes[j.s.best].trust
                && SwitchResult(u, j.s.env, j.s.db, j.s.best, h).Some?
                <==> Wanted(j, net, h))
  {
    AssembledArrives(j, h, node, stored);
    AssembledInContext(j, net, h);
    AssembledConnects(j, h, node, stored);
    AssembledFits(j, h, node, stored);
    hide SwitchResult, InContext, HeightScript, Arriving, BlockTrust, Assembled, InWindow, AllScriptsPass, Made,
         Written, FinalForMiner, Placed;
  }

  /** The block becomes the node's best one exactly if it is wanted. */
  method Submit(n: CheckpointedNode, env: Env, net: Network, h: Hash, node: Node, stored: map<DiskTxPos, Tx>,
                ghost j: Job)
    returns (ok: bool)
    requires n.Safe() && n.pending.None? && Made(j) && FinalForMiner(j, net) && Written(j, node, stored)
    requires n.chain.tree == j.s.t && n.chain.best == j.s.best && n.chain.db == j.s.db && env == j.s.env
    requires h !in j.s.t.nodes && env.headerOk(h)
    modifies n, n.chain
    ensures n.Safe() && n.chain.best == if Wanted(j, net, h) then h else j.s.best
    ensures old(n.chain.Synced()) ==> n.chain.Synced()
  {
    hide SwitchResult, SuppliesKnown, AllLinked, LinksBelow, OneLine, InContext, HeightScript, Arriving, RulesKept,
         BlockTrust, Assembled, InWindow, AllScriptsPass, WellFormed, Made, Written, FinalForMiner, Placed, Linked,
         Built, IsAncestor;
    Prepared(j, net, h, node, stored);
    ok := n.AcceptBlock(env, net, h, node, stored);
  }
}
