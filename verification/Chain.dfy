/** The chain state and how the node moves its best block (src/main.cpp). */
module Chain {
  import opened Common
  import opened Transactions
  import opened TxDb
  import opened BlockTree
  import opened Connect
  import opened Undo
  import opened Replay
  import opened Reorg
  import opened Trust
  import Supply

  /** The first block of the new branch that already beats the best one. */
  function Intermediate(t: Tree, best: Hash, tip: Hash): (m: Hash)
    requires Linked(t) && best in t.nodes && tip in t.nodes
    ensures m in t.nodes && IsAncestor(t, m, tip)
    decreases Height(t, tip)
  {
    if tip != t.genesis && t.nodes[Parent(t, tip)].trust > t.nodes[best].trust then
      Intermediate(t, best, Parent(t, tip))
    else tip
  }

  /** The index once the best chain has been switched, before the postponed blocks are connected. */
  function SwitchResult(t: Tree, env: Env, db: Db, best: Hash, tip: Hash): Option<Db>
    requires Linked(t) && best in t.nodes && tip in t.nodes
  {
    if t.nodes[tip].prev == Some(best) then
      var r :- ConnectResult(t, tip, env, db);
      Some(r.w)
    else ReorgResult(t, env, db, best, Intermediate(t, best, tip))
  }

  /** Whether the postponed blocks, if there are any, all connect afterwards. */
  predicate PostponedConnect(t: Tree, env: Env, db: Db, best: Hash, tip: Hash)
    requires Linked(t) && best in t.nodes && tip in t.nodes
  {
    t.nodes[tip].prev == Some(best) ||
    var m := Intermediate(t, best, tip);
    var reorg := ReorgResult(t, env, db, best, m);
    reorg.Some? && ConnectUp(t, env, reorg.value, m, tip).Some?
  }

  class ChainState {
    var tree: Tree
    var db: Db
    var next: map<Hash, Hash>
    var supply: map<Hash, int>
    var best: Hash

    /** Holds in every reachable state. */
    ghost predicate Valid()
      reads this
    {
      WellFormed(tree) && best in tree.nodes && LinksBelow(tree, best, next)
    }

    /** The index is the replay of the best branch, all of it is linked, and supplies are right. */
    ghost predicate Synced()
      requires Valid()
      reads this
    {
      AllLinked(tree, best, next) && SuppliesKnown(tree, supply, best, db)
    }

    predicate IsInMainChain(h: Hash)
      reads this
    {
      h in next || h == best
    }

    /** The state after the genesis block has been accepted. */
    constructor (t: Tree)
      requires WellFormed(t) && t.nodes.Keys == {t.genesis}
      ensures Valid() && Synced() && tree == t && best == t.genesis && db == map[]
    {
      tree, db, next, best := t, map[], map[], t.genesis;
      supply := map[t.genesis := 0];
      new;
      assert SupplyAt(tree, supply, tree.genesis);
    }

    /** Disconnects the listed blocks of the best branch from a copy of the index. */
    method DisconnectBranch(fork: Hash, undo: seq<Hash>) returns (ok: bool, batch: Db)
      requires Linked(tree) && best in tree.nodes && fork in tree.nodes && Branch(tree, best, fork, undo)
      ensures DisconnectDown(tree, db, best, fork) == if ok then Some(batch) else None
    {
      hide DisconnectTxs;
      batch, ok := db, true;
      ghost var at := best;
      var i := 0;
      while ok && i < |undo|
        invariant 0 <= i <= |undo|
        invariant at == Ancestor(tree, best, Height(tree, best) - i) && IsAncestor(tree, fork, at)
        invariant DisconnectDown(tree, db, best, fork) == if ok then DisconnectDown(tree, batch, at, fork) else None
        decreases |undo| - i
      {
        ok, batch := DisconnectBlock(batch, tree.nodes[undo[i]].block);
        AncestorStep(tree, best, Height(tree, best) - i);
        AncestorsComparable(tree, fork, Parent(tree, at), at) by { ParentIsAncestor(tree, at); }
        at := Parent(tree, at);
        i := i + 1;
      }
    }

    /** ConnectBlock: connects to `batch` and records the supply in the index entry. */
    method ConnectAndRecord(env: Env, h: Hash, batch: Db) returns (ok: bool, batch': Db)
      requires Linked(tree) && h in tree.nodes && h != tree.genesis
      modifies this`supply
      ensures ok <==> ConnectResult(tree, h, env, batch).Some?
      ensures ok ==> var r := ConnectResult(tree, h, env, batch).value;
                     batch' == r.w && supply == WithSupply(tree, old(supply), h, r.valueOut - r.valueIn)
      ensures !ok ==> supply == old(supply)
    {
      hide ConnectResult;
      var queued, created;
      ok, queued, created := ConnectBlock(tree, h, env, batch);
      batch' := batch + queued;
      if ok {
        var p := Parent(tree, h);
        supply := supply[h := (if p in supply then supply[p] else 0) + created];
      }
    }

    /** Connects the listed blocks, lowest first, to the index `trunk` of the fork. */
    method ConnectBranch(env: Env, trunk: Db, fork: Hash, tip: Hash, path: seq<Hash>) returns (ok: bool, batch: Db)
      requires Linked(tree) && tip in tree.nodes && fork in tree.nodes && Branch(tree, tip, fork, path)
      modifies this`supply
      ensures ConnectWalk(tree, env, trunk, fork, tip, old(supply)) == Walk(if ok then Some(batch) else None, supply)
    {
      hide ConnectResult;
      batch, ok := trunk, true;
      ghost var at := fork;
      var i := |path|;
      while ok && i > 0
        invariant 0 <= i <= |path|
        invariant at == Ancestor(tree, tip, Height(tree, tip) - i) && IsAncestor(tree, fork, at)
        invariant ConnectWalk(tree, env, trunk, fork, at, old(supply)) == Walk(if ok then Some(batch) else None, supply)
        decreases i
      {
        var h := path[i - 1];
        AncestorStep(tree, tip, Height(tree, h));
        AncestorTransitive(tree, fork, at, h) by { ParentIsAncestor(tree, h); }
        ok, batch := ConnectAndRecord(env, h, batch);
        at := h;
        i := i - 1;
      }
      if !ok {
        AtIsAncestor(tree, tip, Height(tree, at));
        WalkStops(tree, env, trunk, fork, at, tip, old(supply));
      }
    }

    /** Clears pnext down the old branch, then sets it up the new one. */
    method Relink(undo: seq<Hash>, fork: Hash, tip: Hash, path: seq<Hash>)
      requires Linked(tree) && best in tree.nodes && fork in tree.nodes && tip in tree.nodes
      requires Branch(tree, best, fork, undo) && Branch(tree, tip, fork, path)
      requires LinksBelow(tree, best, next)
      modifies this`next
      ensures LinksBelow(tree, tip, next)
      ensures old(AllLinked(tree, best, next)) ==> AllLinked(tree, tip, next)
    {
      ghost var all := AllLinked(tree, best, next);
      ghost var at := best;
      for i := 0 to |undo|
        invariant at == Ancestor(tree, best, Height(tree, best) - i)
        invariant LinksBelow(tree, at, next) && (all ==> AllLinked(tree, at, next))
      {
        AncestorStep(tree, best, Height(tree, best) - i);
        UnlinkTip(tree, at, next);
        next := next - {Parent(tree, undo[i])};
        at := Parent(tree, at);
      }
      for i := |path| downto 0
        invariant at == Ancestor(tree, tip, Height(tree, tip) - i)
        invariant LinksBelow(tree, at, next) && (all ==> AllLinked(tree, at, next))
      {
        AncestorStep(tree, tip, Height(tree, tip) - i);
        LinkTip(tree, path[i], next);
        next := next[Parent(tree, path[i]) := path[i]];
        at := path[i];
      }
    }

    method Reorganize(env: Env, tip: Hash) returns (ok: bool)
      requires Valid() && tip in tree.nodes
      modifies this`db, this`next, this`supply
      ensures ok <==> ReorgResult(tree, env, old(db), best, tip).Some?
      ensures ok ==> ReorgResult(tree, env, old(db), best, tip) == Some(db)
      ensures ok ==> LinksBelow(tree, tip, next) && (old(AllLinked(tree, best, next)) ==> AllLinked(tree, tip, next))
      ensures !ok ==> db == old(db) && next == old(next)
      ensures old(SuppliesKnown(tree, supply, best, db)) ==> SupplyOk(tree, supply) && old(supply).Keys <= supply.Keys
      ensures ok && old(SuppliesKnown(tree, supply, best, db)) ==> SuppliesKnown(tree, supply, tip, db)
    {
      hide ConnectUp, DisconnectDown, Fork;
      var fork := FindFork(tree, best, tip);
      ForkIsLowestCommonAncestor(tree, best, tip);
      var undo := ListBranch(tree, best, fork);
      var path := ListBranch(tree, tip, fork);
      var batch;
      ok, batch := DisconnectBranch(fork, undo);
      if !ok { return; }
      ghost var trunk := batch;
      if SuppliesKnown(tree, supply, best, db) { TrunkKnown(tree, supply, best, fork, db); }
      ok, batch := ConnectBranch(env, batch, fork, tip, path);
      WalkConnects(tree, env, trunk, fork, tip, old(supply));
      if SuppliesKnown(tree, old(supply), fork, trunk) { WalkSupplies(tree, env, trunk, fork, tip, old(supply)); }
      if !ok { return; }
      db := batch;
      Relink(undo, fork, tip, path);
    }

    /** Connects one block to the top of the chain being built and commits it. */
    method SetBestChainInner(env: Env, h: Hash) returns (ok: bool)
      requires WellFormed(tree) && h in tree.nodes && h != tree.genesis && LinksBelow(tree, Parent(tree, h), next)
      modifies this`db, this`next, this`supply
      ensures ok <==> ConnectResult(tree, h, env, old(db)).Some?
      ensures ok ==> db == ConnectResult(tree, h, env, old(db)).value.w && next == old(next)[Parent(tree, h) := h]
      ensures !ok ==> db == old(db) && next == old(next) && supply == old(supply)
      ensures ok ==> LinksBelow(tree, h, next)
      ensures ok && old(AllLinked(tree, Parent(tree, h), next)) ==> AllLinked(tree, h, next)
      ensures ok && old(SuppliesKnown(tree, supply, Parent(tree, h), db)) ==> SuppliesKnown(tree, supply, h, db)
    {
      hide ConnectResult, Index;
      var batch;
      ok, batch := ConnectAndRecord(env, h, db);
      if ok {
        if old(SuppliesKnown(tree, supply, Parent(tree, h), db)) {
          assert Ancestor(tree, Parent(tree, h), Height(tree, Parent(tree, h))) == Parent(tree, h);
          var r := ConnectResult(tree, h, env, db).value;
          SupplyStep(tree, h, env, old(supply), r.valueOut - r.valueIn);
          KnownStep(tree, env, old(supply), h, db);
        }
        db := batch;
        LinkTip(tree, h, next);
        next := next[Parent(tree, h) := h];
      }
    }

    /** Connects the postponed blocks; stops, without complaint, at the first that fails. */
    method ConnectPostponed(env: Env, from: Hash, tip: Hash) returns (ghost at: Hash)
      requires WellFormed(tree) && tip in tree.nodes && from in tree.nodes && IsAncestor(tree, from, tip)
      requires LinksBelow(tree, from, next)
      modifies this`db, this`next, this`supply
      ensures at in tree.nodes && IsAncestor(tree, at, tip) && LinksBelow(tree, at, next)
      ensures ConnectUp(tree, env, old(db), from, tip) == if at == tip then Some(db) else None
      ensures old(AllLinked(tree, from, next)) ==> AllLinked(tree, at, next)
      ensures old(SuppliesKnown(tree, supply, from, db)) ==> SuppliesKnown(tree, supply, at, db)
    {
      hide ConnectResult, Index, SuppliesKnown;
      var path := ListBranch(tree, tip, from);
      at := from;
      var i := |path|;
      AtIsAncestor(tree, tip, Height(tree, from));
      while i > 0
        invariant 0 <= i <= |path|
        invariant at == Ancestor(tree, tip, Height(tree, tip) - i) && IsAncestor(tree, from, at)
        invariant ConnectUp(tree, env, old(db), from, at) == Some(db)
        invariant LinksBelow(tree, at, next)
        invariant old(AllLinked(tree, from, next)) ==> AllLinked(tree, at, next)
        invariant old(SuppliesKnown(tree, supply, from, db)) ==> SuppliesKnown(tree, supply, at, db)
      {
        var h := path[i - 1];
        AncestorStep(tree, tip, Height(tree, h));
        AncestorTransitive(tree, from, at, h) by { ParentIsAncestor(tree, h); }
        AtIsAncestor(tree, tip, Height(tree, h));
        var ok := SetBestChainInner(env, h);
        if !ok {
          ConnectUpPrefix(tree, env, old(db), from, h, tip);
          AtIsAncestor(tree, tip, Height(tree, at));
          return;
        }
        at := h;
        i := i - 1;
      }
    }

    /**
     * Makes `tip` the best block. A failure leaves the index, the links and the best block as they
     * were. A success leaves everything in step exactly when the postponed blocks connect too: if
     * one does not, the best block is moved all the same.
     */
    method SetBestChain(env: Env, tip: Hash) returns (ok: bool)
      requires Valid() && tip in tree.nodes
      modifies this`db, this`next, this`supply, this`best
      ensures Valid()
      ensures ok <==> SwitchResult(tree, env, old(db), old(best), tip).Some?
      ensures !ok ==> db == old(db) && next == old(next) && best == old(best)
      ensures ok ==> best == tip
      ensures !ok && old(Synced()) ==> Synced()
      ensures ok && old(Synced()) ==> (Synced() <==> PostponedConnect(tree, env, old(db), old(best), tip))
    {
      hide ConnectResult, Index, SuppliesKnown, ReorgResult, ConnectUp;
      assert LinkedAt(tree, tip);
      ghost var at := tip;
      if tree.nodes[tip].prev == Some(best) {
        ok := SetBestChainInner(env, tip);
        if !ok { return; }
      } else {
        var m := FindIntermediate(tree, best, tip);
        ok := Reorganize(env, m);
        if !ok {
          StillKnown(tree, old(supply), supply, best, db);
          return;
        }
        at := ConnectPostponed(env, m, tip);
      }
      LinksRaise(tree, at, tip, next);
      best := tip;
    }

    /** Builds the entry of an accepted block, and switches to it if its branch has more trust. */
    method AddToBlockIndex(env: Env, h: Hash, node: Node, stored: map<DiskTxPos, Tx>) returns (ok: bool)
      requires Valid() && h !in tree.nodes && node.prev.Some? && node.prev.value in tree.nodes
      requires var u := Grown(tree, h, Placed(tree, node), stored); Extends(tree, u) && WellFormed(u)
      modifies this
      ensures Valid() && tree == Grown(old(tree), h, Placed(old(tree), node), stored)
      ensures var better := tree.nodes[h].trust > old(tree.nodes[best].trust);
              && best == (if better && ok then h else old(best))
              && (ok <==> better ==> SwitchResult(tree, env, old(db), old(best), h).Some?)
              && (!(better && ok) ==> db == old(db) && next == old(next))
              && (old(Synced()) ==>
                    (Synced() <==> (better && ok ==> PostponedConnect(tree, env, old(db), old(best), h))))
    {
      hide SuppliesKnown, SwitchResult, PostponedConnect, BlockTrust;
      ghost var u := Grown(tree, h, Placed(tree, node), stored);
      LinksExtend(tree, u, best, next);
      KnownExtend(tree, u, supply, best, db);
      var trust := GetBlockTrust(tree, node.prev, node.block);
      var parent := tree.nodes[node.prev.value];
      var placed := node.(height := parent.height + 1, trust := parent.trust + trust);
      tree := tree.(nodes := tree.nodes[h := placed], disk := tree.disk + stored);
      ok := true;
      if placed.trust > tree.nodes[best].trust {
        ok := SetBestChain(env, h);
      }
    }
  }

  function Grown(t: Tree, h: Hash, node: Node, stored: map<DiskTxPos, Tx>): Tree {
    t.(nodes := t.nodes[h := node], disk := t.disk + stored)
  }

  lemma LinksExtend(t: Tree, u: Tree, tip: Hash, next: map<Hash, Hash>)
    requires Linked(t) && Linked(u) && Extends(t, u) && tip in t.nodes
    ensures LinksBelow(t, tip, next) ==> LinksBelow(u, tip, next)
    ensures LinksBelow(t, tip, next) ==> (AllLinked(t, tip, next) <==> AllLinked(u, tip, next))
  {
    forall k: nat | k <= Height(t, tip) ensures Ancestor(u, tip, k) == Ancestor(t, tip, k) {
      AncestorExtends(t, u, tip, k);
    }
    if LinksBelow(t, tip, next) {
      forall a | a in next ensures LinkBelow(u, tip, next, a) {
        assert LinkBelow(t, tip, next, a);
        assert Ancestor(u, tip, Height(t, a)) == Ancestor(t, tip, Height(t, a));
        assert Ancestor(u, tip, Height(t, a) + 1) == Ancestor(t, tip, Height(t, a) + 1);
      }
    }
  }

  lemma KnownExtend(t: Tree, u: Tree, supply: map<Hash, int>, tip: Hash, db: Db)
    requires WellFormed(t) && Linked(u) && Extends(t, u) && tip in t.nodes
    ensures SuppliesKnown(t, supply, tip, db) ==> SuppliesKnown(u, supply, tip, db)
  {
    if SuppliesKnown(t, supply, tip, db) {
      IndexExtends(t, u, tip);
      forall k: nat | k <= Height(u, tip) ensures Ancestor(u, tip, k) in supply {
        AncestorExtends(t, u, tip, k);
      }
      forall h | h in supply ensures SupplyAt(u, supply, h) {
        assert SupplyAt(t, supply, h);
        IndexExtends(t, u, h);
        IndexIndexed(t, h);
        Supply.IndexedIsShaped(t, Index(t, h).value, Height(t, h));
        Supply.TotalExtends(t, u, Index(t, h).value);
      }
    }
  }

  /** The blocks from it on beat the best block, and the one below it does not. */
  lemma {:induction false} IntermediateIs(t: Tree, best: Hash, tip: Hash)
    requires Linked(t) && best in t.nodes && tip in t.nodes
    ensures var m := Intermediate(t, best, tip);
            && (m == t.genesis || t.nodes[Parent(t, m)].trust <= t.nodes[best].trust)
            && (forall a :: a in t.nodes && IsAncestor(t, m, a) && IsAncestor(t, a, tip) && a != tip ==>
                  t.nodes[a].trust > t.nodes[best].trust)
    decreases Height(t, tip)
  {
    var m := Intermediate(t, best, tip);
    if m == tip {
      forall a | a in t.nodes && IsAncestor(t, tip, a) && IsAncestor(t, a, tip) ensures a == tip {}
    } else {
      var p := Parent(t, tip);
      IntermediateIs(t, best, p);
      forall a | a in t.nodes && a != tip ensures IsAncestor(t, a, tip) <==> IsAncestor(t, a, p) {
        BelowParent(t, a, tip);
      }
    }
  }

  method FindIntermediate(t: Tree, best: Hash, tip: Hash) returns (m: Hash)
    requires Linked(t) && best in t.nodes && tip in t.nodes
    ensures m == Intermediate(t, best, tip)
    ensures m in t.nodes && IsAncestor(t, m, tip)
    ensures m == t.genesis || t.nodes[Parent(t, m)].trust <= t.nodes[best].trust
    ensures forall a :: a in t.nodes && IsAncestor(t, m, a) && IsAncestor(t, a, tip) && a != tip ==>
              t.nodes[a].trust > t.nodes[best].trust
  {
    IntermediateIs(t, best, tip);
    m := tip;
    while t.nodes[m].prev.Some? && t.nodes[t.nodes[m].prev.value].trust > t.nodes[best].trust
      invariant m in t.nodes && LinkedAt(t, m)
      invariant Intermediate(t, best, m) == Intermediate(t, best, tip)
      decreases Height(t, m)
    {
      m := Parent(t, m);
    }
  }

  /** Links below a block are links below its descendants; only a block with a full set below it is linked to all. */
  lemma LinksRaise(t: Tree, at: Hash, tip: Hash, next: map<Hash, Hash>)
    requires Linked(t) && at in t.nodes && tip in t.nodes && IsAncestor(t, at, tip) && LinksBelow(t, at, next)
    ensures LinksBelow(t, tip, next)
    ensures at != tip ==> !AllLinked(t, tip, next)
  {
    forall a | a in next ensures LinkBelow(t, tip, next, a) {
      assert LinkBelow(t, at, next, a);
      AncestorOfAncestor(t, tip, Height(t, at), Height(t, a));
      AncestorOfAncestor(t, tip, Height(t, at), Height(t, a) + 1);
    }
    if at != tip {
      assert Ancestor(t, tip, Height(t, at)) == at;
      assert at in next ==> LinkBelow(t, at, next, at);
    }
  }

  lemma StillKnown(t: Tree, before: map<Hash, int>, after: map<Hash, int>, tip: Hash, db: Db)
    requires Linked(t) && tip in t.nodes
    requires SuppliesKnown(t, before, tip, db) ==> SupplyOk(t, after) && before.Keys <= after.Keys
    ensures SuppliesKnown(t, before, tip, db) ==> SuppliesKnown(t, after, tip, db)
  {
  }

  /** Taking blocks off leaves the supplies of the blocks below them known. */
  lemma TrunkKnown(t: Tree, supply: map<Hash, int>, tip: Hash, fork: Hash, db: Db)
    requires WellFormed(t) && tip in t.nodes && fork in t.nodes && IsAncestor(t, fork, tip)
    requires SuppliesKnown(t, supply, tip, db)
    ensures DisconnectDown(t, db, tip, fork).Some?
    ensures SuppliesKnown(t, supply, fork, DisconnectDown(t, db, tip, fork).value)
  {
    DisconnectDownIsReplay(t, tip, fork);
    IndexPrefix(t, tip, Height(t, fork));
    forall k: nat | k <= Height(t, fork) ensures Ancestor(t, fork, k) in supply {
      AncestorOfAncestor(t, tip, Height(t, fork), k);
    }
  }

  lemma AtIsAncestor(t: Tree, tip: Hash, k: nat)
    requires Linked(t) && tip in t.nodes && k <= Height(t, tip)
    ensures IsAncestor(t, Ancestor(t, tip, k), tip)
  {
  }

  // The supplies that connecting blocks records on the way

  function WithSupply(t: Tree, supply: map<Hash, int>, h: Hash, created: int): map<Hash, int>
    requires Linked(t) && h in t.nodes && h != t.genesis
  {
    var p := Parent(t, h);
    supply[h := (if p in supply then supply[p] else 0) + created]
  }

  datatype Walk = Walk(db: Option<Db>, supply: map<Hash, int>)

  /** Connecting up to `tip`, as far as it goes, with the supplies recorded until then. */
  function ConnectWalk(t: Tree, env: Env, db: Db, fork: Hash, tip: Hash, supply: map<Hash, int>): Walk
    requires Linked(t) && tip in t.nodes && fork in t.nodes && IsAncestor(t, fork, tip)
    decreases Height(t, tip)
  {
    if tip == fork then Walk(Some(db), supply)
    else
      var w := ConnectWalk(t, env, db, fork, Parent(t, tip), supply);
      if w.db.None? then w
      else
        match ConnectResult(t, tip, env, w.db.value)
        case None => Walk(None, w.supply)
        case Some(r) => Walk(Some(r.w), WithSupply(t, w.supply, tip, r.valueOut - r.valueIn))
  }

  lemma {:induction false} WalkConnects(t: Tree, env: Env, db: Db, fork: Hash, tip: Hash, supply: map<Hash, int>)
    requires Linked(t) && tip in t.nodes && fork in t.nodes && IsAncestor(t, fork, tip)
    ensures ConnectWalk(t, env, db, fork, tip, supply).db == ConnectUp(t, env, db, fork, tip)
    decreases Height(t, tip)
  {
    if tip != fork { WalkConnects(t, env, db, fork, Parent(t, tip), supply); }
  }

  lemma {:induction false} WalkStops(t: Tree, env: Env, db: Db, fork: Hash, mid: Hash, tip: Hash,
                                     supply: map<Hash, int>)
    requires Linked(t) && tip in t.nodes && mid in t.nodes && fork in t.nodes
    requires IsAncestor(t, fork, mid) && IsAncestor(t, mid, tip) && IsAncestor(t, fork, tip)
    requires ConnectWalk(t, env, db, fork, mid, supply).db.None?
    ensures ConnectWalk(t, env, db, fork, tip, supply) == ConnectWalk(t, env, db, fork, mid, supply)
    decreases Height(t, tip)
  {
    if tip != mid { WalkStops(t, env, db, fork, mid, Parent(t, tip), supply); }
  }

  /** The index is the replay up to `tip`, and every block on the way has its supply recorded. */
  ghost predicate SuppliesKnown(t: Tree, supply: map<Hash, int>, tip: Hash, db: Db)
    requires Linked(t) && tip in t.nodes
  {
    && Index(t, tip) == Some(db)
    && SupplyOk(t, supply)
    && (forall k: nat {:trigger Ancestor(t, tip, k)} :: k <= Height(t, tip) ==> Ancestor(t, tip, k) in supply)
  }

  lemma {:induction false} WalkSupplies(t: Tree, env: Env, db: Db, fork: Hash, tip: Hash, supply: map<Hash, int>)
    requires WellFormed(t) && tip in t.nodes && fork in t.nodes && IsAncestor(t, fork, tip)
    requires SuppliesKnown(t, supply, fork, db)
    ensures var w := ConnectWalk(t, env, db, fork, tip, supply);
            SupplyOk(t, w.supply) && supply.Keys <= w.supply.Keys
            && (w.db.Some? ==> SuppliesKnown(t, w.supply, tip, w.db.value))
    decreases Height(t, tip)
  {
    hide ConnectResult, Index;
    if tip != fork {
      var p := Parent(t, tip);
      WalkSupplies(t, env, db, fork, p, supply);
      var w := ConnectWalk(t, env, db, fork, p, supply);
      if w.db.Some? && ConnectResult(t, tip, env, w.db.value).Some? {
        var r := ConnectResult(t, tip, env, w.db.value).value;
        assert Ancestor(t, p, Height(t, p)) == p;
        SupplyStep(t, tip, env, w.supply, r.valueOut - r.valueIn);
        KnownStep(t, env, w.supply, tip, w.db.value);
      }
    }
  }

  lemma KnownStep(t: Tree, env: Env, supply: map<Hash, int>, h: Hash, db: Db)
    requires WellFormed(t) && h in t.nodes && h != t.genesis
    requires SuppliesKnown(t, supply, Parent(t, h), db) && ConnectResult(t, h, env, db).Some?
    requires var r := ConnectResult(t, h, env, db).value; SupplyOk(t, WithSupply(t, supply, h, r.valueOut - r.valueIn))
    ensures var r := ConnectResult(t, h, env, db).value;
            SuppliesKnown(t, WithSupply(t, supply, h, r.valueOut - r.valueIn), h, r.w)
  {
    ConnectIsReplay(t, h, env);
    var r := ConnectResult(t, h, env, db).value;
    var after := WithSupply(t, supply, h, r.valueOut - r.valueIn);
    forall k: nat | k <= Height(t, h) ensures Ancestor(t, h, k) in after {
      if k < Height(t, h) { assert Ancestor(t, h, k) == Ancestor(t, Parent(t, h), k); }
    }
  }

  /** `path` lists the blocks from `tip` down to just above `fork`. */
  ghost predicate Branch(t: Tree, tip: Hash, fork: Hash, path: seq<Hash>)
    requires Linked(t) && tip in t.nodes && fork in t.nodes
  {
    && IsAncestor(t, fork, tip)
    && |path| == Height(t, tip) - Height(t, fork)
    && (forall i :: 0 <= i < |path| ==> path[i] == Ancestor(t, tip, Height(t, tip) - i))
  }

  method ListBranch(t: Tree, tip: Hash, fork: Hash) returns (path: seq<Hash>)
    requires Linked(t) && tip in t.nodes && fork in t.nodes && IsAncestor(t, fork, tip)
    ensures Branch(t, tip, fork, path)
  {
    path := [];
    var index := tip;
    while index != fork
      invariant index in t.nodes && IsAncestor(t, index, tip) && IsAncestor(t, fork, index)
      invariant Branch(t, tip, index, path)
      decreases Height(t, index)
    {
      path := path + [index];
      AncestorStep(t, tip, Height(t, index));
      AncestorsComparable(t, fork, Parent(t, index), index) by { ParentIsAncestor(t, index); }
      index := Parent(t, index);
    }
  }
}
