/**
 * The paths a reorganisation walks: where two branches part, which main-chain links change, and
 * what disconnecting down to the fork and connecting up from it does to the transaction index.
 */
module Reorg {
  import opened Common
  import opened TxDb
  import opened BlockTree
  import opened Connect
  import opened Undo
  import opened Replay
  import Supply

  // The fork

  /** Steps back from the higher block, or from `a` when both have one height, until they meet. */
  function Fork(t: Tree, a: Hash, b: Hash): (f: Hash)
    requires Linked(t) && a in t.nodes && b in t.nodes
    ensures f in t.nodes
    decreases Height(t, a) + Height(t, b)
  {
    OnlyGenesisAtZero(t, a);
    OnlyGenesisAtZero(t, b);
    if a == b then a
    else if Height(t, b) > Height(t, a) then Fork(t, a, Parent(t, b))
    else Fork(t, Parent(t, a), b)
  }

  /** The search ends at the lowest common ancestor. */
  lemma {:induction false} ForkIsLowestCommonAncestor(t: Tree, a: Hash, b: Hash)
    requires Linked(t) && a in t.nodes && b in t.nodes
    ensures IsAncestor(t, Fork(t, a, b), a) && IsAncestor(t, Fork(t, a, b), b)
    ensures forall c :: c in t.nodes && IsAncestor(t, c, a) && IsAncestor(t, c, b) ==> IsAncestor(t, c, Fork(t, a, b))
    decreases Height(t, a) + Height(t, b)
  {
    OnlyGenesisAtZero(t, a);
    OnlyGenesisAtZero(t, b);
    if a != b {
      if Height(t, b) > Height(t, a) {
        ForkIsLowestCommonAncestor(t, a, Parent(t, b));
      } else {
        ForkIsLowestCommonAncestor(t, Parent(t, a), b);
      }
    }
  }

  method FindFork(t: Tree, best: Hash, tip: Hash) returns (fork: Hash)
    requires Linked(t) && best in t.nodes && tip in t.nodes
    ensures fork == Fork(t, best, tip)
  {
    fork := best;
    var longer := tip;
    while fork != longer
      invariant fork in t.nodes && longer in t.nodes
      invariant Fork(t, fork, longer) == Fork(t, best, tip)
      decreases Height(t, fork) + Height(t, longer)
    {
      ghost var size := Height(t, fork) + Height(t, longer);
      while Height(t, longer) > Height(t, fork)
        invariant longer in t.nodes && Height(t, fork) + Height(t, longer) <= size
        invariant Fork(t, fork, longer) == Fork(t, best, tip)
        decreases Height(t, longer)
      {
        OnlyGenesisAtZero(t, fork);
        longer := Parent(t, longer);
      }
      if fork == longer { break; }
      OnlyGenesisAtZero(t, fork);
      OnlyGenesisAtZero(t, longer);
      fork := Parent(t, fork);
    }
  }

  // Main-chain links: pnext of every block below the tip points up the branch

  ghost predicate LinksBelow(t: Tree, tip: Hash, next: map<Hash, Hash>)
    requires Linked(t) && tip in t.nodes
  {
    forall a {:trigger LinkBelow(t, tip, next, a)} :: a in next ==> LinkBelow(t, tip, next, a)
  }

  ghost predicate LinkBelow(t: Tree, tip: Hash, next: map<Hash, Hash>, a: Hash)
    requires Linked(t) && tip in t.nodes && a in next
  {
    && a in t.nodes
    && Height(t, a) < Height(t, tip)
    && IsAncestor(t, a, tip)
    && next[a] == Ancestor(t, tip, Height(t, a) + 1)
  }

  ghost predicate AllLinked(t: Tree, tip: Hash, next: map<Hash, Hash>)
    requires Linked(t) && tip in t.nodes
  {
    forall k: nat {:trigger Ancestor(t, tip, k)} :: k < Height(t, tip) ==> Ancestor(t, tip, k) in next
  }

  lemma UnlinkTip(t: Tree, tip: Hash, next: map<Hash, Hash>)
    requires Linked(t) && tip in t.nodes && tip != t.genesis && LinksBelow(t, tip, next)
    ensures LinksBelow(t, Parent(t, tip), next - {Parent(t, tip)})
    ensures AllLinked(t, tip, next) ==> AllLinked(t, Parent(t, tip), next - {Parent(t, tip)})
  {
    var p := Parent(t, tip);
    forall a | a in next - {p} ensures LinkBelow(t, p, next - {p}, a) {
      assert LinkBelow(t, tip, next, a);
      assert Ancestor(t, tip, Height(t, a)) == Ancestor(t, p, Height(t, a));
      assert Height(t, a) < Height(t, p);
      assert Ancestor(t, tip, Height(t, a) + 1) == Ancestor(t, p, Height(t, a) + 1);
    }
    if AllLinked(t, tip, next) {
      forall k: nat | k < Height(t, p) ensures Ancestor(t, p, k) in next - {p} {
        assert Ancestor(t, tip, k) == Ancestor(t, p, k);
      }
    }
  }

  lemma LinkTip(t: Tree, tip: Hash, next: map<Hash, Hash>)
    requires Linked(t) && tip in t.nodes && tip != t.genesis && LinksBelow(t, Parent(t, tip), next)
    ensures LinksBelow(t, tip, next[Parent(t, tip) := tip])
    ensures AllLinked(t, Parent(t, tip), next) ==> AllLinked(t, tip, next[Parent(t, tip) := tip])
  {
    var p := Parent(t, tip);
    var after := next[p := tip];
    forall a | a in after ensures LinkBelow(t, tip, after, a) {
      if a != p {
        assert LinkBelow(t, p, next, a);
        assert Ancestor(t, tip, Height(t, a)) == Ancestor(t, p, Height(t, a));
        assert Ancestor(t, tip, Height(t, a) + 1) == Ancestor(t, p, Height(t, a) + 1);
      } else {
        ParentIsAncestor(t, tip);
        assert Ancestor(t, tip, Height(t, p) + 1) == tip;
      }
    }
    if AllLinked(t, p, next) {
      forall k: nat | k < Height(t, tip) ensures Ancestor(t, tip, k) in after {
        assert Ancestor(t, tip, k) == Ancestor(t, p, k);
      }
    }
  }

  // The index along the way

  function DisconnectDown(t: Tree, db: Db, tip: Hash, fork: Hash): Option<Db>
    requires Linked(t) && tip in t.nodes && fork in t.nodes && IsAncestor(t, fork, tip)
    decreases Height(t, tip)
  {
    if tip == fork then Some(db)
    else
      var vtx := t.nodes[tip].block.vtx;
      var before :- DisconnectTxs(vtx, db, |vtx|);
      DisconnectDown(t, before, Parent(t, tip), fork)
  }

  function ConnectUp(t: Tree, env: Env, db: Db, fork: Hash, tip: Hash): Option<Db>
    requires Linked(t) && tip in t.nodes && fork in t.nodes && IsAncestor(t, fork, tip)
    decreases Height(t, tip)
  {
    if tip == fork then Some(db)
    else
      var before :- ConnectUp(t, env, db, fork, Parent(t, tip));
      var r :- ConnectResult(t, tip, env, before);
      Some(r.w)
  }

  /** What Reorganize makes of the index: off one branch, onto the other. */
  function ReorgResult(t: Tree, env: Env, db: Db, best: Hash, tip: Hash): Option<Db>
    requires Linked(t) && best in t.nodes && tip in t.nodes
  {
    ForkIsLowestCommonAncestor(t, best, tip);
    var fork := Fork(t, best, tip);
    var trunk :- DisconnectDown(t, db, best, fork);
    ConnectUp(t, env, trunk, fork, tip)
  }

  lemma {:induction false} DisconnectDownIsReplay(t: Tree, tip: Hash, fork: Hash)
    requires WellFormed(t) && tip in t.nodes && fork in t.nodes && IsAncestor(t, fork, tip)
    requires Index(t, tip).Some?
    ensures DisconnectDown(t, Index(t, tip).value, tip, fork) == Index(t, fork)
    decreases Height(t, tip)
  {
    if tip != fork {
      DisconnectIsReplayOfParent(t, tip);
      DisconnectDownIsReplay(t, Parent(t, tip), fork);
    }
  }

  lemma {:induction false} ConnectUpIsReplay(t: Tree, env: Env, fork: Hash, tip: Hash)
    requires WellFormed(t) && tip in t.nodes && fork in t.nodes && IsAncestor(t, fork, tip)
    requires Index(t, fork).Some? && ConnectUp(t, env, Index(t, fork).value, fork, tip).Some?
    ensures ConnectUp(t, env, Index(t, fork).value, fork, tip) == Index(t, tip)
    decreases Height(t, tip)
  {
    if tip != fork {
      ConnectUpIsReplay(t, env, fork, Parent(t, tip));
      ConnectIsReplay(t, tip, env);
    }
  }

  /** A reorganisation from a replayed index arrives at the replay of the new branch. */
  lemma ReorgIsReplay(t: Tree, env: Env, best: Hash, tip: Hash)
    requires WellFormed(t) && best in t.nodes && tip in t.nodes && Index(t, best).Some?
    requires ReorgResult(t, env, Index(t, best).value, best, tip).Some?
    ensures ReorgResult(t, env, Index(t, best).value, best, tip) == Index(t, tip)
  {
    ForkIsLowestCommonAncestor(t, best, tip);
    var fork := Fork(t, best, tip);
    DisconnectDownIsReplay(t, best, fork);
    IndexPrefix(t, best, Height(t, fork));
    ConnectUpIsReplay(t, env, fork, tip);
  }

  lemma {:induction false} IndexPrefix(t: Tree, h: Hash, k: nat)
    requires Linked(t) && h in t.nodes && k <= Height(t, h) && Index(t, h).Some?
    ensures Index(t, Ancestor(t, h, k)).Some?
    decreases Height(t, h)
  {
    if Height(t, h) > k { IndexPrefix(t, Parent(t, h), k); }
  }

  /** A failed connect on the way up fails the whole way. */
  lemma {:induction false} ConnectUpPrefix(t: Tree, env: Env, db: Db, fork: Hash, mid: Hash, tip: Hash)
    requires Linked(t) && tip in t.nodes && mid in t.nodes && fork in t.nodes
    requires IsAncestor(t, fork, mid) && IsAncestor(t, mid, tip) && IsAncestor(t, fork, tip)
    requires ConnectUp(t, env, db, fork, mid).None?
    ensures ConnectUp(t, env, db, fork, tip).None?
    decreases Height(t, tip)
  {
    if tip != mid { ConnectUpPrefix(t, env, db, fork, mid, Parent(t, tip)); }
  }

  // The recorded money supply

  /** Every recorded supply is the value of the unspent outputs at that block. */
  ghost predicate SupplyOk(t: Tree, supply: map<Hash, int>)
    requires Linked(t)
  {
    forall h {:trigger SupplyAt(t, supply, h)} :: h in supply ==> SupplyAt(t, supply, h)
  }

  ghost predicate SupplyAt(t: Tree, supply: map<Hash, int>, h: Hash)
    requires Linked(t) && h in supply
  {
    h in t.nodes && Index(t, h).Some? && supply[h] == Supply.Total(t.disk, Index(t, h).value)
  }

  lemma SupplyStep(t: Tree, h: Hash, env: Env, supply: map<Hash, int>, created: int)
    requires WellFormed(t) && h in t.nodes && h != t.genesis && Index(t, Parent(t, h)).Some?
    requires SupplyOk(t, supply) && Parent(t, h) in supply
    requires ConnectResult(t, h, env, Index(t, Parent(t, h)).value).Some?
    requires var r := ConnectResult(t, h, env, Index(t, Parent(t, h)).value).value; created == r.valueOut - r.valueIn
    ensures SupplyOk(t, supply[h := supply[Parent(t, h)] + created])
  {
    var after := supply[h := supply[Parent(t, h)] + created];
    assert SupplyAt(t, supply, Parent(t, h));
    IndexIndexed(t, Parent(t, h));
    Supply.BlockTotal(t, h, env, Index(t, Parent(t, h)).value);
    ConnectIsReplay(t, h, env);
    forall k | k in after ensures SupplyAt(t, after, k) {
      if k != h { assert SupplyAt(t, supply, k); }
    }
  }
}
