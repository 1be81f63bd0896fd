/** The trust a block adds to its branch (CBlockIndex::GetBlockTrust, src/main.cpp). */
module Trust {
  import opened Common
  import opened Arith
  import opened Compact
  import opened Transactions
  import opened BlockTree

  // 0xffff * 2^208, the target of difficulty one
  const POW_BASE: nat := 0xFFFF_0000_0000_0000_0000_0000_0000_0000_0000_0000_0000_0000_0000_0000

  /** How many blocks the kinds are counted over, and from which height on. */
  const KINDS_COUNTED: nat := 12

  predicate IsStake(t: Tree, h: Hash)
    requires h in t.nodes
  {
    t.nodes[h].block.IsProofOfStake()
  }

  /** How many of `h` and the `n - 1` blocks before it are proof-of-stake blocks. */
  function StakeCount(t: Tree, h: Hash, n: nat): (c: nat)
    requires Linked(t) && h in t.nodes && n <= Height(t, h) + 1
    ensures c <= n
    decreases n
  {
    if n == 0 then 0
    else (if IsStake(t, h) then 1 else 0) +
         (if n == 1 then 0 else OnlyGenesisAtZero(t, h); StakeCount(t, Parent(t, h), n - 1))
  }

  function StakeScore(bits: nat): nat
    requires SetCompact(bits) > 0
  {
    DivLower(TWO_256, SetCompact(bits) + 1, 0);
    TWO_256 / (SetCompact(bits) + 1)
  }

  function WorkScore(bits: nat): nat
    requires SetCompact(bits) > 0
  {
    Max(1, POW_BASE / (SetCompact(bits) + 1))
  }

  /** What the parent added; chain trusts are 256-bit numbers. */
  function LastTrust(t: Tree, p: Hash): nat
    requires Linked(t) && p in t.nodes && p != t.genesis
  {
    (t.nodes[p].trust - t.nodes[Parent(t, p)].trust) % TWO_256
  }

  /** A stake block after a work block, among enough work blocks, counts in full. */
  predicate FullStake(t: Tree, p: Hash)
    requires Linked(t) && p in t.nodes && Height(t, p) >= KINDS_COUNTED
  {
    !IsStake(t, p) && KINDS_COUNTED - StakeCount(t, p, KINDS_COUNTED) >= 3
  }

  /** A work block after two stake blocks, among enough stake blocks, gets the full score of its parent. */
  predicate AfterStakes(t: Tree, p: Hash)
    requires Linked(t) && p in t.nodes && p != t.genesis && Height(t, p) >= KINDS_COUNTED
  {
    IsStake(t, p) && IsStake(t, Parent(t, p)) && StakeCount(t, p, KINDS_COUNTED) >= 7
  }

  /** For a block above `prev`, or for the genesis block. */
  function BlockTrust(t: Tree, prev: Option<Hash>, b: Block): nat
    requires Linked(t) && (prev.Some? ==> prev.value in t.nodes)
  {
    if SetCompact(b.bits) <= 0 then 0
    else if prev.None? || Height(t, prev.value) < KINDS_COUNTED then 1
    else
      var p := prev.value;
      if b.IsProofOfStake() then if FullStake(t, p) then StakeScore(b.bits) else StakeScore(b.bits) / 3
      else if !AfterStakes(t, p) then WorkScore(b.bits) + 2 * LastTrust(t, p) / 3
      else if SetCompact(t.nodes[p].block.bits) <= 0 then 0
      else WorkScore(b.bits) + StakeScore(t.nodes[p].block.bits)
  }

  /** The loop over the last twelve blocks, for either kind. */
  method CountKind(t: Tree, p: Hash, stake: bool) returns (count: nat)
    requires Linked(t) && p in t.nodes && Height(t, p) >= KINDS_COUNTED
    ensures var c := StakeCount(t, p, KINDS_COUNTED); count == if stake then c else KINDS_COUNTED - c
  {
    count := 0;
    var current := p;
    while Height(t, p) - Height(t, current) < KINDS_COUNTED
      invariant current in t.nodes && 0 <= Height(t, p) - Height(t, current) <= KINDS_COUNTED
      invariant var done := Height(t, p) - Height(t, current);
                var c := StakeCount(t, p, KINDS_COUNTED) - StakeCount(t, current, KINDS_COUNTED - done);
                count == if stake then c else done - c
      decreases Height(t, current)
    {
      OnlyGenesisAtZero(t, current);
      if IsStake(t, current) == stake { count := count + 1; }
      current := Parent(t, current);
    }
  }

  method GetBlockTrust(t: Tree, prev: Option<Hash>, b: Block) returns (trust: nat)
    requires Linked(t) && (prev.Some? ==> prev.value in t.nodes)
    ensures trust == BlockTrust(t, prev, b)
  {
    hide SetCompact, StakeCount;
    if SetCompact(b.bits) <= 0 { return 0; }
    if prev.None? || Height(t, prev.value) < KINDS_COUNTED { return 1; }
    var p := prev.value;
    if b.IsProofOfStake() {
      if IsStake(t, p) { return StakeScore(b.bits) / 3; }
      var work := CountKind(t, p, false);
      if work < 3 { return StakeScore(b.bits) / 3; }
      return StakeScore(b.bits);
    }
    var score, last := WorkScore(b.bits), LastTrust(t, p);
    if !(IsStake(t, p) && IsStake(t, Parent(t, p))) { return score + 2 * last / 3; }
    var stakes := CountKind(t, p, true);
    if stakes < 7 { return score + 2 * last / 3; }
    if SetCompact(t.nodes[p].block.bits) <= 0 { return 0; }
    return score + StakeScore(t.nodes[p].block.bits);
  }

  /** The entry AddToBlockIndex builds: one above its parent, with the trust of the block added. */
  function Placed(t: Tree, node: Node): Node
    requires Linked(t) && node.prev.Some? && node.prev.value in t.nodes
  {
    var parent := t.nodes[node.prev.value];
    node.(height := parent.height + 1, trust := parent.trust + BlockTrust(t, node.prev, node.block))
  }

  /** Every entry has the trust of its branch. */
  ghost predicate TrustsKept(t: Tree)
    requires Linked(t)
  {
    forall h {:trigger LinkedAt(t, h)} :: h in t.nodes ==>
      t.nodes[h].trust ==
        if h == t.genesis then BlockTrust(t, None, t.nodes[h].block)
        else var p := Parent(t, h); t.nodes[p].trust + BlockTrust(t, Some(p), t.nodes[h].block)
  }

  // What a block adds

  /** The proof-of-stake blocks among `h` and the `n - 1` blocks below it. */
  function StakesBelow(t: Tree, h: Hash, n: nat): set<Hash>
    requires Linked(t) && h in t.nodes
  {
    set a | a in t.nodes && IsAncestor(t, a, h) && Height(t, h) - Height(t, a) < n && IsStake(t, a)
  }

  lemma {:induction false} StakeCountIs(t: Tree, h: Hash, n: nat)
    requires Linked(t) && h in t.nodes && n <= Height(t, h) + 1
    ensures StakeCount(t, h, n) == |StakesBelow(t, h, n)|
    decreases n
  {
    var s := StakesBelow(t, h, n);
    if n == 0 {
      assert s == {};
    } else if n == 1 {
      forall a | a in t.nodes && IsAncestor(t, a, h) && Height(t, h) - Height(t, a) < 1 ensures a == h {}
      assert s == if IsStake(t, h) then {h} else {};
    } else {
      OnlyGenesisAtZero(t, h);
      var p := Parent(t, h);
      var below := StakesBelow(t, p, n - 1);
      StakeCountIs(t, p, n - 1);
      forall a | a in t.nodes && a != h ensures a in s <==> a in below { BelowParent(t, a, h); }
      assert h !in below;
      assert s == if IsStake(t, h) then below + {h} else below;
    }
  }

  /**
   * From height 13 on: a stake block gets 2^256 / (target + 1) if its parent is a work block and at least three
   * of the last twelve blocks are, and a third of that otherwise.
   */
  lemma StakeTrust(t: Tree, p: Hash, b: Block)
    requires Linked(t) && p in t.nodes && Height(t, p) >= 12 && SetCompact(b.bits) > 0 && b.IsProofOfStake()
    ensures var stakes :=
              set a | a in t.nodes && IsAncestor(t, a, p) && Height(t, p) - Height(t, a) < 12 && IsStake(t, a);
            var score := TWO_256 / (SetCompact(b.bits) + 1);
            BlockTrust(t, Some(p), b) == if !IsStake(t, p) && 12 - |stakes| >= 3 then score else score / 3
  {
    hide SetCompact, StakeCount, IsAncestor;
    StakeCountIs(t, p, 12);
  }

  /**
   * A work block gets its own score and two thirds of what its parent added. If the parent and its parent are
   * stake blocks, and at least seven of the last twelve, it gets the full score of the parent's target instead.
   */
  lemma WorkTrust(t: Tree, p: Hash, b: Block)
    requires Linked(t) && p in t.nodes && Height(t, p) >= 12 && SetCompact(b.bits) > 0 && !b.IsProofOfStake()
    ensures p != t.genesis
    ensures var stakes :=
              set a | a in t.nodes && IsAncestor(t, a, p) && Height(t, p) - Height(t, a) < 12 && IsStake(t, a);
            var target, before := SetCompact(t.nodes[p].block.bits), t.nodes[Parent(t, p)].trust;
            var score := Max(1, POW_BASE / (SetCompact(b.bits) + 1));
            BlockTrust(t, Some(p), b) ==
              if IsStake(t, p) && IsStake(t, Parent(t, p)) && |stakes| >= 7 then
                if target > 0 then score + TWO_256 / (target + 1) else 0
              else score + 2 * ((t.nodes[p].trust - before) % TWO_256) / 3
  {
    hide SetCompact, StakeCount, IsAncestor;
    StakeCountIs(t, p, 12);
  }

  /** Among stake blocks of one target, one on a qualifying work parent has three times the trust of one that is not. */
  lemma WorkParentTriples(t: Tree, p: Hash, b: Block, q: Hash, c: Block)
    requires Linked(t) && p in t.nodes && q in t.nodes && Height(t, p) >= 12 && Height(t, q) >= 12
    requires b.IsProofOfStake() && c.IsProofOfStake() && b.bits == c.bits && SetCompact(b.bits) > 0
    requires !IsStake(t, p) && |StakesBelow(t, p, 12)| <= 9
    requires IsStake(t, q) || |StakesBelow(t, q, 12)| > 9
    ensures 3 * BlockTrust(t, Some(q), c) <= BlockTrust(t, Some(p), b) < 3 * BlockTrust(t, Some(q), c) + 3
  {
    StakeTrust(t, p, b);
    StakeTrust(t, q, c);
    hide SetCompact, BlockTrust, IsAncestor;
    DivBounds(TWO_256 / (SetCompact(b.bits) + 1), 3);
  }

  lemma ScorePositive(bits: nat, limit: nat)
    requires 0 < SetCompact(bits) <= limit && 3 * (limit + 1) <= TWO_256
    ensures StakeScore(bits) / 3 >= 1
  {
    var d := SetCompact(bits) + 1;
    hide SetCompact;
    DivLower(TWO_256, d, 3);
    DivLower(TWO_256 / d, 3, 1);
  }

  /** A block that proves something adds trust. */
  lemma TrustPositive(t: Tree, prev: Option<Hash>, b: Block, limit: nat)
    requires Linked(t) && (prev.Some? ==> prev.value in t.nodes) && 3 * (limit + 1) <= TWO_256
    requires 0 < SetCompact(b.bits) <= limit
    requires prev.Some? ==> 0 < SetCompact(t.nodes[prev.value].block.bits) <= limit
    ensures BlockTrust(t, prev, b) >= 1
  {
    ScorePositive(b.bits, limit);
    if prev.Some? { ScorePositive(t.nodes[prev.value].block.bits, limit); }
    hide SetCompact, StakeCount, StakeScore, LastTrust, FullStake, AfterStakes;
  }

  lemma {:induction false} StakeCountExtends(t: Tree, u: Tree, h: Hash, n: nat)
    requires Linked(t) && Linked(u) && Extends(t, u) && h in t.nodes && n <= Height(t, h) + 1
    ensures StakeCount(u, h, n) == StakeCount(t, h, n)
    decreases n
  {
    if n > 1 {
      OnlyGenesisAtZero(t, h);
      StakeCountExtends(t, u, Parent(t, h), n - 1);
    }
  }

  lemma ParentExtends(t: Tree, u: Tree, p: Hash)
    requires Linked(t) && Linked(u) && Extends(t, u) && p in t.nodes && Height(t, p) >= KINDS_COUNTED
    ensures p in u.nodes && u.nodes[p] == t.nodes[p] && p != t.genesis && p != u.genesis
    ensures LastTrust(u, p) == LastTrust(t, p)
    ensures FullStake(u, p) <==> FullStake(t, p)
    ensures AfterStakes(u, p) <==> AfterStakes(t, p)
  {
    StakeCountExtends(t, u, p, KINDS_COUNTED);
    assert LinkedAt(t, p) && LinkedAt(u, p);
    assert Parent(u, p) == Parent(t, p);
    hide StakeCount;
  }

  lemma BlockTrustExtends(t: Tree, u: Tree, prev: Option<Hash>, b: Block)
    requires Linked(t) && Linked(u) && Extends(t, u)
    requires prev.Some? ==> prev.value in t.nodes && prev.value in u.nodes
    ensures BlockTrust(u, prev, b) == BlockTrust(t, prev, b)
  {
    if prev.Some? && Height(t, prev.value) >= KINDS_COUNTED { ParentExtends(t, u, prev.value); }
    hide SetCompact, LastTrust, FullStake, AfterStakes, StakeScore, WorkScore;
  }
}
