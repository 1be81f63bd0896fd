/**
 * A draft whose block does not connect. The miner checks scripts with the flags of the memory pool,
 * a block is checked with lock times enforced as well, and one transaction can tell the difference.
 */
module LateDraft {
  import opened Common
  import opened Transactions
  import opened TxDb
  import opened BlockTree
  import opened Connect
  import opened Replay
  import opened Undo
  import opened Miner
  import opened Mined
  import opened ContextRules
  import opened Steady
  import Retarget
  import Rewards

  /** The chain starts when lock times are first enforced. */
  const START: nat := CHECKLOCKTIMEVERIFY_SWITCH_TIME

  /** The times up to the block after height `n` have 32 bits. */
  predicate InTime(n: nat) { START + SPACING * (n + 1) < Retarget.TIME_RANGE }

  // A steady chain of blocks that hold only their coinbase: block `k` has hash and height `k`, and so has its coinbase

  function ChainNode(k: nat, txs: seq<Tx>): Node {
    SteadyNode(START, if k == 0 then None else Some(k - 1), k, k, txs)
  }

  function CoinbaseNode(k: nat): Node
    requires k <= MAX_INT32
  {
    ChainNode(k, [Coinbase(k, k, CENT)])
  }

  function CoinbasePos(k: nat): DiskTxPos { DiskTxPos(0, k, k + 81) }

  function ChainTree(n: nat): Tree
    requires n <= MAX_INT32
  {
    Tree(0, map k: Hash | 0 <= k <= n :: CoinbaseNode(k),
        map k | 1 <= k <= n :: DiskTxPos(0, k, k + 81) := Coinbase(k, k, CENT))
  }

  /** The index of the chain: every coinbase is unspent. */
  function ChainIndex(n: nat): Db { map k: Hash | 1 <= k <= n :: TxIndex(CoinbasePos(k), [NULL_POS]) }

  // The pool holds one transaction, which spends the oldest coinbase

  const LATE := Tx(-1, START, [TxIn(OutPoint(1, 0), [])], [TxOut(CENT, [0])], 1, 0)

  /** The output it spends carries a lock time that it does not meet. */
  function LockedEnv(): Env {
    Env(_ => true, (_, _, _, flags: ScriptFlags) => !flags.checkLockTime, (_, _) => 0, (_, _) => Some(0))
  }

  function LateSources(n: nat): Sources
    requires n <= MAX_INT32
  {
    Sources(ChainTree(n), n, map[LATE.hash := LATE], ChainIndex(n), LockedEnv())
  }

  const WIDE := Limits(MAX_BLOCK_SIZE_GEN, START)

  function DraftBlock(n: nat): seq<Tx>
    requires n < MAX_INT32
  {
    [Coinbase(n + 1, n + 1, Rewards.PowReward(LimitBits())), LATE]
  }

  /** The tree after the miner's block has been written. */
  function LateTree(n: nat): Tree
    requires n < MAX_INT32
  {
    var t, node := ChainTree(n), ChainNode(n + 1, DraftBlock(n));
    Tree(0, t.nodes[n + 1 := node], t.disk[TxPos(node, 0) := DraftBlock(n)[0]][TxPos(node, 1) := LATE])
  }

  lemma CoinbasePosition(k: nat)
    requires k <= MAX_INT32
    ensures TxPos(CoinbaseNode(k), 0) == CoinbasePos(k)
  {
    assert CoinbaseNode(k).block.vtx[..0] == [];
  }

  lemma ChainDisk(n: nat, k: nat)
    requires 1 <= k <= n <= MAX_INT32
    ensures CoinbasePos(k) in ChainTree(n).disk && ChainTree(n).disk[CoinbasePos(k)] == Coinbase(k, k, CENT)
  {
    hide LimitBits, HeightScript;
    assert DiskTxPos(0, k, k + 81) in ChainTree(n).disk;
  }

  lemma CoinbaseNodeChecks(k: nat)
    requires k <= MAX_INT32
    ensures CheckBlock(CoinbaseNode(k).block, true)
  {
    CoinbaseBlockChecks(START, k, k, CENT);
  }

  lemma ChainLinked(n: nat)
    requires n <= MAX_INT32
    ensures Linked(ChainTree(n))
  {
    var t := ChainTree(n);
    forall h | h in t.nodes ensures LinkedAt(t, h) { }
  }

  lemma InChain(n: nat, tx: Tx)
    requires n <= MAX_INT32 && InTree(ChainTree(n), tx)
    ensures 1 <= tx.hash <= n && tx == Coinbase(tx.hash, tx.hash, CENT)
  {
    var t := ChainTree(n);
    var h :| h in t.nodes && h != t.genesis && tx in t.nodes[h].block.vtx;
    assert t.nodes[h] == CoinbaseNode(h);
  }

  lemma ChainWellFormed(n: nat)
    requires n <= MAX_INT32
    ensures WellFormed(ChainTree(n))
  {
    var t := ChainTree(n);
    ChainLinked(n);
    forall h | h in t.nodes && h != t.genesis ensures WellFormedNode(t, h) {
      CoinbaseNodeChecks(h);
      CoinbasePosition(h);
      CoinbaseChecks(h, h, CENT);
      hide LimitBits, HeightScript, CheckBlock;
      ChainDisk(n, h);
      assert t.nodes[h] == CoinbaseNode(h) && Parent(t, h) == h - 1;
    }
    forall tx1, tx2 | InTree(t, tx1) && InTree(t, tx2) && tx1.hash == tx2.hash ensures tx1 == tx2 {
      InChain(n, tx1);
      InChain(n, tx2);
    }
  }

  /** The chain's index is what connecting its blocks produces. */
  lemma {:induction false} ChainReplay(n: nat, k: nat)
    requires k <= n <= MAX_INT32 && Linked(ChainTree(n))
    ensures Index(ChainTree(n), k) == Some(ChainIndex(k))
    decreases k
  {
    var t := ChainTree(n);
    if k == 0 {
      assert ChainIndex(0) == map[];
    } else {
      ChainReplay(n, k - 1);
      assert t.nodes[k] == CoinbaseNode(k) && Parent(t, k) == k - 1;
      CoinbasePosition(k);
      CoinbaseChecks(k, k, CENT);
      hide LimitBits, HeightScript;
      var db := ChainIndex(k - 1);
      assert BlockEffect(t.nodes[k], db, 0) == Some(db);
      assert NewIndex(CoinbasePos(k), 1).spent == [NULL_POS];
      assert db[k := TxIndex(CoinbasePos(k), [NULL_POS])] == ChainIndex(k);
      assert TxEffect(db, Coinbase(k, k, CENT), CoinbasePos(k)) == Some(ChainIndex(k));
    }
  }

  /** The oldest coinbase can be spent once 500 blocks are above it. */
  lemma {:induction false} OldestIsMature(n: nat, k: nat)
    requires k <= n <= MAX_INT32 && n > COINBASE_MATURITY && Linked(ChainTree(n))
    ensures !InRecentBlock(ChainTree(n), k, n, CoinbasePos(1))
    decreases k
  {
    var t := ChainTree(n);
    if n - k < COINBASE_MATURITY {
      assert Parent(t, k) == k - 1;
      OldestIsMature(n, k - 1);
    }
  }

  lemma LateLinked(n: nat)
    requires n < MAX_INT32
    ensures Linked(LateTree(n))
  {
    hide LimitBits, Rewards.PowReward, HeightScript;
    var t, u := ChainTree(n), LateTree(n);
    ChainLinked(n);
    forall h | h in u.nodes ensures LinkedAt(u, h) {
      if h in t.nodes { assert LinkedAt(t, h); }
    }
  }

  lemma LateNodesWellFormed(n: nat, h: Hash)
    requires n < MAX_INT32 && Linked(LateTree(n)) && h in LateTree(n).nodes && h != 0
    ensures WellFormedNode(LateTree(n), h)
  {
    hide LimitBits, Rewards.PowReward, HeightScript, CheckBlock;
    var t, u := ChainTree(n), LateTree(n);
    ChainWellFormed(n);
    LateDisk(n);
    if h in t.nodes {
      assert WellFormedNode(t, h);
      assert u.nodes[h] == t.nodes[h] && Parent(u, h) == Parent(t, h);
      hide ChainTree, LateTree, Linked, WellFormed;
    } else {
      LateNode(n);
      assert Parent(u, h) == n;
      var node := u.nodes[h];
      assert node == ChainNode(n + 1, DraftBlock(n));
    }
  }

  lemma LateWellFormed(n: nat)
    requires n < MAX_INT32
    ensures WellFormed(LateTree(n)) && Extends(ChainTree(n), LateTree(n))
  {
    hide LimitBits, Rewards.PowReward, HeightScript, WellFormedNode, InTree;
    var u := LateTree(n);
    LateLinked(n);
    LateDisk(n);
    forall h | h in u.nodes && h != u.genesis ensures WellFormedNode(u, h) { LateNodesWellFormed(n, h); }
    forall tx1, tx2 | InTree(u, tx1) && InTree(u, tx2) && tx1.hash == tx2.hash ensures tx1 == tx2 {
      InLate(n, tx1);
      InLate(n, tx2);
    }
  }

  lemma LateNode(n: nat)
    requires n < MAX_INT32
    ensures CheckBlock(ChainNode(n + 1, DraftBlock(n)).block, true)
    ensures HeightScript(n + 1) <= DraftBlock(n)[0].vin[0].scriptSig &&
            DraftBlock(n)[0].ValueOut() == Rewards.PowReward(LimitBits())
    ensures DraftBlock(n)[0].IsCoinBase() && !LATE.IsCoinBase() && !LATE.IsCoinStake() && LATE.ValueOut() == CENT
  {
    hide LimitBits, Rewards.PowReward, HeightScript;
    Rewards.PowRewardRange(LimitBits());
    CoinbaseChecks(n + 1, n + 1, Rewards.PowReward(LimitBits()));
    var vtx := DraftBlock(n);
    assert vtx[..1] == [vtx[0]] && vtx[..1][..0] == [];
    LateValue();
    assert SumSigOps(vtx[..1]) == 0;
  }

  lemma LateDisk(n: nat)
    requires n < MAX_INT32
    ensures var u, node := LateTree(n), ChainNode(n + 1, DraftBlock(n));
            && TxPos(node, 0) in u.disk && u.disk[TxPos(node, 0)] == DraftBlock(n)[0]
            && TxPos(node, 1) in u.disk && u.disk[TxPos(node, 1)] == LATE
    ensures Extends(ChainTree(n), LateTree(n))
  {
    hide LimitBits, Rewards.PowReward, HeightScript;
    var vtx := DraftBlock(n);
    assert vtx[..0] == [] && vtx[..1] == [vtx[0]] && vtx[..1][..0] == [];
    assert SizeOf(vtx[..1]) == 1;
  }

  lemma InLate(n: nat, tx: Tx)
    requires n < MAX_INT32 && InTree(LateTree(n), tx)
    ensures tx == LATE ||
            (&& 1 <= tx.hash <= n + 1
             && tx == Coinbase(tx.hash, tx.hash, if tx.hash <= n then CENT else Rewards.PowReward(LimitBits())))
  {
    hide LimitBits, Rewards.PowReward, HeightScript;
    var u := LateTree(n);
    var h :| h in u.nodes && h != u.genesis && tx in u.nodes[h].block.vtx;
    if h <= n { assert u.nodes[h] == CoinbaseNode(h); }
  }

  // The draft

  lemma LatePoolKnown(n: nat)
    requires n < MAX_INT32
    ensures var s := LateSources(n); Ready(s) && PoolKnown(s) && Chosen(s, [LATE]) && Index(s.t, s.best) == Some(s.db)
  {
    hide LimitBits, HeightScript, Indexed, Index, WellFormedNode, InTree, ChainIndex, CoinbaseNode, CheckBlock;
    var s := LateSources(n);
    ChainWellFormed(n);
    ChainReplay(n, n);
    IndexIndexed(s.t, n);
    hide WellFormed, Linked;
    forall tx | InTree(s.t, tx) ensures tx.hash !in s.pool { InChain(n, tx); }
  }

  lemma LateOnTop(n: nat)
    requires n < MAX_INT32
    ensures OnTop(LateSources(n), LateTree(n), n + 1, DraftBlock(n)[0], [LATE])
  {
    hide LimitBits, HeightScript, Rewards.PowReward, WellFormed, CheckBlock, Extends, Linked;
    ChainLinked(n);
    LateWellFormed(n);
    ElsewhereStored(n);
  }

  lemma ElsewhereStored(n: nat)
    requires n < MAX_INT32
    ensures var db := ChainIndex(n);
            forall x :: x in db ==> db[x].pos != MEMORY_POS && !InBlock(LateTree(n), n + 1, db[x].pos)
  {
    hide LimitBits, HeightScript, Rewards.PowReward;
    assert LateTree(n).nodes[n + 1].blockPos == n + 1;
    hide LateTree;
  }

  /** The miner admits the transaction: without lock times its script passes. */
  lemma LateIsDrafted(n: nat)
    requires COINBASE_MATURITY < n < MAX_INT32 && Ready(LateSources(n))
    ensures Built(LateSources(n), WIDE, [LATE]).Some? && Built(LateSources(n), WIDE, [LATE]).value.fees == 0
  {
    var s := LateSources(n);
    var d, ins := Start(s), Points(LATE.vin);
    hide LimitBits, HeightScript;
    assert [LATE][..0] == [];
    assert Built(s, WIDE, []) == Some(d);
    assert s.db[1].pos == CoinbasePos(1);
    ChainDisk(n, 1);
    assert Fetched(s, d.w, ins[0]);
    assert ins[..0] == [] && ins[..1] == ins;
    assert PoolValueIn(s, d.w, ins) == CENT;
    LateValue();
    LateFee(d.size);
    OldestIsMature(n, n);
    assert InputAllowed(s, d.w, LATE, 0);
    assert Unspent(s.db, ins[0]);
    assert Spend(s.db, ins, MEMORY_POS).Some?;
  }

  lemma LateValue()
    ensures LATE.ValueOut() == CENT && DustOutputs(LATE.vout) == 0 && CheckTransaction(LATE)
  {
    var outs := LATE.vout;
    assert outs[..1] == outs && outs[..0] == [];
    assert SumOuts(outs) == SumOuts(outs[..0]) + CENT;
    assert outs[0].value == CENT;
    assert DustOutputs(outs) == DustOutputs(outs[..0]);
  }

  lemma LateFee(size: nat)
    requires size == RESERVED_SIZE
    ensures GetMinFee(LATE, size, true, GMF_BLOCK, LATE.size) == 0
  {
    LateValue();
    hide DustOutputs;
  }

  /**
   * At every height from the last hardened checkpoint on that 32-bit times reach there is a chain that
   * keeps the rules of AcceptBlock, and over its index a pool and a draft whose block, though it keeps
   * them too, does not connect.
   */
  lemma DraftDoesNotConnect(n: nat) returns (s: Sources, u: Tree, h: Hash, cb: Tx, txs: seq<Tx>, lim: Limits)
    requires CHECKPOINT_HEIGHT <= n + 1 <= MAX_INT32 && InTime(n)
    ensures s == LateSources(n) && u == LateTree(n) && txs == [LATE]
    ensures OnTop(s, u, h, cb, txs) && PoolKnown(s) && Chosen(s, txs) && Index(s.t, s.best) == Some(s.db)
    ensures Built(s, lim, txs).Some? && s.env.headerOk(h)
    ensures RulesKept(u) && forall k :: k in u.nodes ==> u.nodes[k].block.time < Retarget.TIME_RANGE
    ensures cb.ValueOut() == Rewards.PowReward(u.nodes[h].block.bits) + Built(s, lim, txs).value.fees
    ensures ConnectResult(u, h, s.env, s.db).None?
  {
    hide LimitBits, HeightScript, Rewards.PowReward, Built, OnTop, PoolKnown, Index, ConnectResult, CheckBlock, Chosen;
    s, u, h, cb, txs, lim := LateSources(n), LateTree(n), n + 1, DraftBlock(n)[0], [LATE], WIDE;
    LatePoolKnown(n);
    LateOnTop(n);
    LateIsDrafted(n);
    LateNode(n);
    LateSteady(n);
    SteadyRules(u, START);
    assert u.nodes[h].block.bits == LimitBits();
    hide ChainTree, LateTree, ChainIndex;
    MinedBlockConnects(s, u, h, cb, txs, lim);
    LateScriptFails(n);
    assert !AllScriptsPass(s, txs) by { assert txs[0] == LATE; }
  }

  lemma LateSteady(n: nat)
    requires n < MAX_INT32 && InTime(n)
    ensures SteadyTree(LateTree(n), START)
    ensures forall k :: k in LateTree(n).nodes ==> LateTree(n).nodes[k].block.time < Retarget.TIME_RANGE
  {
    hide LimitBits, Rewards.PowReward, HeightScript;
    var u := LateTree(n);
    LateLinked(n);
    LateNode(n);
    forall k | k in u.nodes ensures SteadyAt(u, START, k) && u.nodes[k].block.time < Retarget.TIME_RANGE {
      if k <= n { assert u.nodes[k] == CoinbaseNode(k); }
    }
  }

  lemma LateScriptFails(n: nat)
    requires n <= MAX_INT32
    ensures !ScriptsPass(LateSources(n), LATE)
  {
    var s, i := LateSources(n), 0;
    assert BlockFlags(LATE.time).checkLockTime;
    assert LATE.vin[i].prevout.hash == 1;
    assert forall prev :: !s.env.scriptOk(LATE, i, prev, BlockFlags(LATE.time));
  }
}
