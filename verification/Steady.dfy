/**
 * Trees in which every block took exactly the target spacing at the easiest target, all by proof of
 * work. They keep every rule of AcceptBlock; the examples of other modules are built from them.
 */
module Steady {
  import opened Common
  import opened Arith
  import opened Compact
  import opened Transactions
  import opened BlockTree
  import opened MedianTime
  import opened Trust
  import opened ContextRules
  import Retarget
  import Rewards

  const SPACING: nat := 600

  function LimitBits(): nat {
    CompactIsNat(Rewards.POW_LIMIT);
    GetCompact(Rewards.POW_LIMIT)
  }

  function SteadyBlock(start: nat, height: nat, txs: seq<Tx>): Block {
    Block(LimitBits(), start + SPACING * height, 0, txs, 1)
  }

  /** Every block so far added a trust of one. */
  function SteadyNode(start: nat, prev: Option<Hash>, height: nat, pos: nat, txs: seq<Tx>): Node {
    Node(prev, height, height + 1, 0, pos, SteadyBlock(start, height, txs))
  }

  ghost predicate SteadyAt(t: Tree, start: nat, h: Hash)
    requires h in t.nodes
  {
    && t.nodes[h].trust == Height(t, h) + 1
    && t.nodes[h].block == SteadyBlock(start, Height(t, h), t.nodes[h].block.vtx)
    && !IsStake(t, h)
  }

  ghost predicate SteadyTree(t: Tree, start: nat) {
    Linked(t) && forall h {:trigger SteadyAt(t, start, h)} :: h in t.nodes ==> SteadyAt(t, start, h)
  }

  // The target

  lemma TruncatedHalf(x: nat)
    requires x > 0
    ensures 2 * Truncated(x) > x
  {
    LossBound(x);
    if Size(x) > 3 {
      MantissaRange(x);
      var p := Pow(256, Size(x) - 3);
      MulMono(1, Mantissa(x), p);
    }
  }

  lemma LimitTarget()
    ensures POW_BASE <= SetCompact(LimitBits()) <= Rewards.POW_LIMIT
    ensures GetCompact(SetCompact(LimitBits())) == LimitBits()
  {
    LimitTargetOf(Rewards.POW_LIMIT);
  }

  lemma LimitTargetOf(limit: nat)
    requires limit == Rewards.POW_LIMIT
    ensures POW_BASE <= SetCompact(GetCompact(limit)) <= limit
    ensures GetCompact(SetCompact(GetCompact(limit))) == GetCompact(limit)
  {
    Retarget.LimitSmall(limit);
    RoundTrip(limit);
    Idempotent(limit);
    LossBound(limit);
    TruncatedHalf(limit);
    hide GetCompact, SetCompact, Truncated, Size;
  }

  lemma SteadyTarget(t: Tree, start: nat, last: Hash)
    requires SteadyTree(t, start) && last in t.nodes
    ensures Retarget.NextTarget(t, last, false) == LimitBits()
  {
    LimitTarget();
    assert SteadyAt(t, start, last);
    if last != t.genesis && Parent(t, last) != t.genesis {
      var p := Parent(t, last);
      assert SteadyAt(t, start, p);
      hide SetCompact, GetCompact;
      Retarget.AdjustmentLaw(Rewards.POW_LIMIT, LimitBits(), SPACING, SPACING, SPACING);
      assert Time(t, last) - Time(t, p) == SPACING;
    }
    hide SetCompact, GetCompact, Retarget.Adjusted, LimitBits;
  }

  // The time

  predicate Within(s: seq<int>, low: int, high: int) { forall i :: 0 <= i < |s| ==> low <= s[i] <= high }

  lemma {:induction false} SteadyWindow(t: Tree, start: nat, h: Hash, n: nat)
    requires SteadyTree(t, start) && h in t.nodes && n > 0
    ensures Within(Window(t, h, n), Time(t, h) - SPACING * (n - 1), Time(t, h))
    decreases Height(t, h)
  {
    hide LimitBits;
    assert SteadyAt(t, start, h);
    if n > 1 && h != t.genesis {
      var p := Parent(t, h);
      SteadyWindow(t, start, p, n - 1);
      assert SteadyAt(t, start, p);
      assert Time(t, p) + SPACING == Time(t, h);
      assert Window(t, h, n) == Window(t, p, n - 1) + [Time(t, h)];
    } else {
      assert Window(t, h, n) == [Time(t, h)];
    }
  }

  lemma {:induction false} NoneBelow(s: seq<int>, m: int)
    requires forall i :: 0 <= i < |s| ==> s[i] >= m
    ensures Below(s, m) == 0
  {
    if s != [] { NoneBelow(s[..|s| - 1], m); }
  }

  lemma SteadyTime(t: Tree, start: nat, prev: Hash)
    requires SteadyTree(t, start) && prev in t.nodes
    ensures TimestampOk(t, prev, Time(t, prev) + SPACING)
  {
    var w, time := Window(t, prev, MEDIAN_TIME_SPAN), Time(t, prev);
    SteadyWindow(t, start, prev, MEDIAN_TIME_SPAN);
    var low := time - SPACING * (MEDIAN_TIME_SPAN - 1);
    NoneBelow(w, low);
    AllBelow(w, time + 1);
    hide Window, Median, Below, SteadyTree;
    MedianAtLeast(w, low);
    MedianAtLeast(w, time + 1);
  }

  // The trust

  lemma SteadyTrust(t: Tree, start: nat, prev: Option<Hash>, b: Block)
    requires SteadyTree(t, start) && (prev.Some? ==> prev.value in t.nodes)
    requires b.bits == LimitBits() && !b.IsProofOfStake()
    ensures BlockTrust(t, prev, b) == 1
  {
    hide SetCompact, GetCompact, LimitBits, StakeCount;
    LimitTarget();
    EasyWork(SetCompact(LimitBits()));
    if prev.Some? && Height(t, prev.value) >= KINDS_COUNTED {
      var p := prev.value;
      assert LinkedAt(t, p) && SteadyAt(t, start, p) && SteadyAt(t, start, Parent(t, p));
      assert LastTrust(t, p) == 1;
      hide LastTrust;
      assert WorkScore(b.bits) == 1;
    }
  }

  lemma EasyWork(target: int)
    requires POW_BASE <= target
    ensures POW_BASE / (target + 1) == 0
  {
  }

  // The rules

  lemma SteadyRules(t: Tree, start: nat)
    requires SteadyTree(t, start)
    ensures RulesKept(t)
  {
    hide LimitBits, Retarget.NextTarget, TimestampOk, BlockTrust;
    forall h | h in t.nodes
      ensures h != t.genesis ==> t.nodes[h].block.bits == Retarget.NextTarget(t, Parent(t, h), IsStake(t, h))
      ensures h != t.genesis ==> TimestampOk(t, Parent(t, h), Time(t, h))
      ensures t.nodes[h].trust ==
              if h == t.genesis then BlockTrust(t, None, t.nodes[h].block)
              else var p := Parent(t, h); t.nodes[p].trust + BlockTrust(t, Some(p), t.nodes[h].block)
    {
      assert SteadyAt(t, start, h) && LinkedAt(t, h);
      if h == t.genesis {
        SteadyTrust(t, start, None, t.nodes[h].block);
      } else {
        SteadyNext(t, start, Parent(t, h), t.nodes[h].block.vtx);
        assert SteadyAt(t, start, Parent(t, h));
      }
    }
  }

  /** What is asked of the next block, and what it adds. */
  lemma SteadyNext(t: Tree, start: nat, prev: Hash, txs: seq<Tx>)
    requires SteadyTree(t, start) && prev in t.nodes
    ensures Retarget.NextTarget(t, prev, false) == LimitBits()
    ensures TimestampOk(t, prev, start + SPACING * (Height(t, prev) + 1))
    ensures var b := SteadyBlock(start, Height(t, prev) + 1, txs);
            !b.IsProofOfStake() ==> BlockTrust(t, Some(prev), b) == 1
  {
    hide LimitBits, TimestampOk, BlockTrust, Retarget.NextTarget;
    SteadyTarget(t, start, prev);
    SteadyTime(t, start, prev);
    assert SteadyAt(t, start, prev);
    var b := SteadyBlock(start, Height(t, prev) + 1, txs);
    if !b.IsProofOfStake() { SteadyTrust(t, start, Some(prev), b); }
  }

  // Coinbases

  function Coinbase(height: nat, id: Hash, value: int): Tx
    requires height <= MAX_INT32
  {
    Tx(id, 0, [TxIn(OutPoint(0, MAX_UINT32), HeightScript(height) + [0])], [TxOut(value, [0])], 1, 0)
  }

  lemma HeightScriptLength(height: nat)
    requires height <= MAX_INT32
    ensures 1 <= |HeightScript(height)| <= 5
  {
    MagnitudeLength(height);
  }

  lemma CoinbaseChecks(height: nat, id: Hash, value: int)
    requires height <= MAX_INT32 && MoneyRange(value)
    ensures var tx := Coinbase(height, id, value);
            && CheckTransaction(tx) && tx.IsCoinBase() && tx.ValueOut() == value
            && HeightScript(height) <= tx.vin[0].scriptSig
  {
    HeightScriptLength(height);
    hide HeightScript;
    var tx := Coinbase(height, id, value);
    assert tx.vout[..1] == tx.vout && tx.vout[..0] == [];
    assert SumOuts(tx.vout) == value;
    assert tx.vin[0].scriptSig[..|HeightScript(height)|] == HeightScript(height);
  }

  /** A block that holds only its coinbase. */
  lemma CoinbaseBlockChecks(start: nat, height: nat, id: Hash, value: int)
    requires height <= MAX_INT32 && MoneyRange(value)
    ensures var b := SteadyBlock(start, height, [Coinbase(height, id, value)]);
            CheckBlock(b, true) && !b.IsProofOfStake()
  {
    hide LimitBits, HeightScript;
    CoinbaseChecks(height, id, value);
    var b := SteadyBlock(start, height, [Coinbase(height, id, value)]);
    assert b.vtx[..0] == [];
    assert SumSigOps(b.vtx) == SumSigOps(b.vtx[..0]) + 0;
  }
}
