/** The rules AcceptBlock (src/main.cpp) applies to a block because of where it stands in the tree. */
module ContextRules {
  import opened Common
  import opened Transactions
  import opened BlockTree
  import opened MedianTime
  import opened Trust
  import Compact
  import Retarget
  import Rewards

  /** Outside the model: IsFinal of a transaction at a height and time, and the table of hardened checkpoints. */
  datatype Network = Network(final: (Tx, nat, nat) -> bool, hardened: (nat, Hash) -> bool)

  predicate AllFinal(net: Network, b: Block, height: nat) {
    forall i :: 0 <= i < |b.vtx| ==> net.final(b.vtx[i], height, b.time)
  }

  predicate InContext(t: Tree, net: Network, prev: Hash, h: Hash, b: Block)
    requires Linked(t) && prev in t.nodes
  {
    && b.bits == Retarget.NextTarget(t, prev, b.IsProofOfStake())
    && TimestampOk(t, prev, b.time)
    && AllFinal(net, b, Height(t, prev) + 1)
    && net.hardened(Height(t, prev) + 1, h)
  }

  method CheckInContext(t: Tree, net: Network, prev: Hash, h: Hash, b: Block) returns (ok: bool)
    requires Linked(t) && prev in t.nodes
    ensures ok <==> InContext(t, net, prev, h, b)
  {
    hide Retarget.NextTarget, MedianTimePast;
    var bits := Retarget.GetNextTargetRequired(t, Some(prev), b.IsProofOfStake());
    if b.bits != bits { return false; }
    var median := GetMedianTimePast(t, prev);
    if b.time <= median || b.time + 2 * ONE_HOUR < Time(t, prev) { return false; }
    if Height(t, prev) > 1 && median + MaxOffset(t, prev) < b.time { return false; }
    var i := 0;
    while i < |b.vtx|
      invariant 0 <= i <= |b.vtx| && forall j :: 0 <= j < i ==> net.final(b.vtx[j], Height(t, prev) + 1, b.time)
    {
      if !net.final(b.vtx[i], Height(t, prev) + 1, b.time) { return false; }
      i := i + 1;
    }
    ok := net.hardened(Height(t, prev) + 1, h);
  }

  /** Every branch of the tree obeys the rules for targets and times, and every entry has the trust of its branch. */
  ghost predicate RulesKept(t: Tree)
    requires Linked(t)
  {
    Retarget.TargetsAsked(t) && TimesAccepted(t) && TrustsKept(t)
  }

  lemma {:induction false} LastOfKindExtends(t: Tree, u: Tree, h: Hash, stake: bool)
    requires Linked(t) && Linked(u) && Extends(t, u) && h in t.nodes
    ensures Retarget.LastOfKind(u, h, stake) == Retarget.LastOfKind(t, h, stake)
    decreases Height(t, h)
  {
    if h != t.genesis { LastOfKindExtends(t, u, Parent(t, h), stake); }
  }

  lemma NextTargetExtends(t: Tree, u: Tree, last: Hash, stake: bool)
    requires Linked(t) && Linked(u) && Extends(t, u) && last in t.nodes
    ensures Retarget.NextTarget(u, last, stake) == Retarget.NextTarget(t, last, stake)
  {
    hide Retarget.Adjusted;
    LastOfKindExtends(t, u, last, stake);
    var prev := Retarget.LastOfKind(t, last, stake);
    if prev != t.genesis { LastOfKindExtends(t, u, Parent(t, prev), stake); }
    hide Retarget.LastOfKind;
  }

  lemma {:induction false} WindowExtends(t: Tree, u: Tree, h: Hash, n: nat)
    requires Linked(t) && Linked(u) && Extends(t, u) && h in t.nodes && n > 0
    ensures Window(u, h, n) == Window(t, h, n)
    decreases Height(t, h)
  {
    if n > 1 && h != t.genesis { WindowExtends(t, u, Parent(t, h), n - 1); }
  }

  lemma TrustsExtend(t: Tree, u: Tree, h: Hash)
    requires Linked(t) && Linked(u) && Extends(t, u) && u.nodes.Keys == t.nodes.Keys + {h} && h !in t.nodes
    requires h != u.genesis && TrustsKept(t) && Parent(u, h) in t.nodes && u.nodes[h] == Placed(t, u.nodes[h])
    ensures TrustsKept(u)
  {
    hide BlockTrust;
    forall k | k in u.nodes
      ensures u.nodes[k].trust ==
              if k == u.genesis then BlockTrust(u, None, u.nodes[k].block)
              else var p := Parent(u, k); u.nodes[p].trust + BlockTrust(u, Some(p), u.nodes[k].block)
    {
      assert LinkedAt(u, k);
      if k != h { assert LinkedAt(t, k); }
      var prev := if k == u.genesis then None else Some(Parent(u, k));
      BlockTrustExtends(t, u, prev, u.nodes[k].block);
    }
  }

  /** Where every target is positive, a block has more trust than all blocks below it. */
  lemma {:induction false} TrustIncreases(t: Tree, a: Hash, h: Hash)
    requires Linked(t) && Retarget.TargetsAccepted(t) && TrustsKept(t)
    requires a in t.nodes && h in t.nodes && IsAncestor(t, a, h)
    ensures t.nodes[h].trust >= t.nodes[a].trust + Height(t, h) - Height(t, a)
    decreases Height(t, h)
  {
    if a != h {
      var p := Parent(t, h);
      assert LinkedAt(t, h) && LinkedAt(t, p);
      TrustIncreases(t, a, p);
      Retarget.TargetsWithinLimit(t, h);
      Retarget.TargetsWithinLimit(t, p);
      hide Retarget.TargetsAsked, BlockTrust, Compact.SetCompact;
      TrustPositive(t, Some(p), t.nodes[h].block, Rewards.POW_LIMIT);
    }
  }

  /** An accepted block keeps the rules over the whole tree. */
  lemma AcceptedKeepsRules(t: Tree, u: Tree, net: Network, h: Hash)
    requires Linked(t) && Linked(u) && Extends(t, u) && u.nodes.Keys == t.nodes.Keys + {h} && h !in t.nodes
    requires h != u.genesis && RulesKept(t) && InContext(t, net, Parent(u, h), h, u.nodes[h].block)
    requires u.nodes[h] == Placed(t, u.nodes[h])
    ensures RulesKept(u)
  {
    hide Retarget.NextTarget, Median, Window, BlockTrust;
    TrustsExtend(t, u, h);
    hide TrustsKept;
    forall k | k in u.nodes && k != u.genesis
      ensures u.nodes[k].block.bits == Retarget.NextTarget(u, Parent(u, k), u.nodes[k].block.IsProofOfStake())
      ensures TimestampOk(u, Parent(u, k), Time(u, k))
    {
      var p := Parent(u, k);
      assert LinkedAt(u, k);
      if k != h { assert LinkedAt(t, k) && Parent(t, k) == p; }
      NextTargetExtends(t, u, p, u.nodes[k].block.IsProofOfStake());
      WindowExtends(t, u, p, MEDIAN_TIME_SPAN);
    }
  }
}
