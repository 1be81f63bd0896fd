/**
 * Runs in which blocks only arrive. Which blocks can become the best one does not depend on the
 * order of arrival, and no connect that SetBestChain postpones can fail.
 */
module Growth {
  import opened Common
  import opened Transactions
  import opened TxDb
  import opened BlockTree
  import opened Connect
  import opened Replay
  import opened Reorg
  import opened Trust
  import opened Chain

  /** Every block of the branch connects to the index of the one before. */
  ghost predicate Connectable(t: Tree, env: Env, h: Hash)
    requires Linked(t) && h in t.nodes
    decreases Height(t, h)
  {
    h == t.genesis ||
    (&& Connectable(t, env, Parent(t, h))
     && Index(t, Parent(t, h)).Some?
     && ConnectResult(t, h, env, Index(t, Parent(t, h)).value).Some?)
  }

  lemma ConnectableIndex(t: Tree, env: Env, h: Hash)
    requires WellFormed(t) && h in t.nodes && Connectable(t, env, h)
    ensures Index(t, h).Some?
  {
    if h != t.genesis { ConnectIsReplay(t, h, env); }
  }

  lemma {:induction false} ConnectableAncestor(t: Tree, env: Env, a: Hash, h: Hash)
    requires Linked(t) && a in t.nodes && h in t.nodes && IsAncestor(t, a, h) && Connectable(t, env, h)
    ensures Connectable(t, env, a)
    decreases Height(t, h)
  {
    if a != h { ConnectableAncestor(t, env, a, Parent(t, h)); }
  }

  lemma {:induction false} ConnectUpIffConnectable(t: Tree, env: Env, fork: Hash, tip: Hash)
    requires WellFormed(t) && tip in t.nodes && fork in t.nodes && IsAncestor(t, fork, tip)
    requires Connectable(t, env, fork) && Index(t, fork).Some?
    ensures ConnectUp(t, env, Index(t, fork).value, fork, tip).Some? <==> Connectable(t, env, tip)
    decreases Height(t, tip)
  {
    if tip != fork {
      hide ConnectResult;
      var p := Parent(t, tip);
      ConnectUpIffConnectable(t, env, fork, p);
      if ConnectUp(t, env, Index(t, fork).value, fork, p).Some? { ConnectUpIsReplay(t, env, fork, p); }
    }
  }

  /** A reorganisation succeeds exactly if the branch it goes to connects. */
  lemma ReorgIffConnectable(t: Tree, env: Env, best: Hash, tip: Hash)
    requires WellFormed(t) && best in t.nodes && tip in t.nodes && Connectable(t, env, best) && Index(t, best).Some?
    ensures ReorgResult(t, env, Index(t, best).value, best, tip).Some? <==> Connectable(t, env, tip)
  {
    hide ConnectUp, DisconnectDown, Connectable, Index;
    ForkIsLowestCommonAncestor(t, best, tip);
    var fork := Fork(t, best, tip);
    DisconnectDownIsReplay(t, best, fork);
    IndexPrefix(t, best, Height(t, fork));
    ConnectableAncestor(t, env, fork, best);
    ConnectUpIffConnectable(t, env, fork, tip);
  }

  // The rules for a block do not change when others are added to the tree

  ghost predicate Stored(disk: map<DiskTxPos, Tx>, w: Db) { forall x :: x in w ==> w[x].pos in disk }

  lemma FetchExtends(t: Tree, u: Tree, w: Db, ins: seq<OutPoint>)
    requires Extends(t, u) && Stored(t.disk, w)
    ensures AllFetchable(t.disk, w, ins) <==> AllFetchable(u.disk, w, ins)
    ensures AllFetchable(t.disk, w, ins) ==> PrevTxs(t.disk, w, ins) == PrevTxs(u.disk, w, ins)
  {
    forall i | 0 <= i < |ins| ensures Fetchable(t.disk, w, ins[i]) <==> Fetchable(u.disk, w, ins[i]) {}
  }

  lemma {:induction false} ValueExtends(t: Tree, u: Tree, w: Db, ins: seq<OutPoint>)
    requires Extends(t, u) && Stored(t.disk, w) && AllFetchable(t.disk, w, ins)
    ensures AllFetchable(u.disk, w, ins) && ValueIn(u.disk, w, ins) == ValueIn(t.disk, w, ins)
  {
    FetchExtends(t, u, w, ins);
    if ins != [] { ValueExtends(t, u, w, ins[..|ins| - 1]); }
  }

  lemma {:induction false} RecentExtends(t: Tree, u: Tree, h: Hash, top: nat, pos: DiskTxPos)
    requires Linked(t) && Linked(u) && Extends(t, u) && h in t.nodes
    ensures InRecentBlock(u, h, top, pos) <==> InRecentBlock(t, h, top, pos)
    decreases Height(t, h)
  {
    if h != t.genesis { RecentExtends(t, u, Parent(t, h), top, pos); }
  }

  lemma InputsExtend(t: Tree, u: Tree, h: Hash, env: Env, db: Db, w: Db, tx: Tx)
    requires Linked(t) && Linked(u) && Extends(t, u) && h in t.nodes
    requires Stored(t.disk, w) && AllFetchable(t.disk, w, Points(tx.vin)) && AllFetchable(u.disk, w, Points(tx.vin))
    ensures InputsOk(u, h, env, db, w, tx) <==> InputsOk(t, h, env, db, w, tx)
  {
    var ins := Points(tx.vin);
    ValueExtends(t, u, w, ins);
    forall i | 0 <= i < |tx.vin|
      ensures CheapInputOk(u, h, w, tx, i) <==> CheapInputOk(t, h, w, tx, i)
      ensures ScriptOkAt(env, u.disk, w, tx, i) <==> ScriptOkAt(env, t.disk, w, tx, i)
    {
      ValueExtends(t, u, w, ins[..i + 1]);
      RecentExtends(t, u, h, Height(t, h), w[ins[i].hash].pos);
    }
    hide CheapInputOk, ScriptOkAt, AllFetchable, ValueIn, AmountsOk;
  }

  lemma ConnectSpendingExtends(t: Tree, u: Tree, h: Hash, env: Env, db: Db, acc: Totals, tx: Tx, pos: DiskTxPos)
    requires Linked(t) && Linked(u) && Extends(t, u) && h in t.nodes && Stored(t.disk, acc.w)
    ensures ConnectSpending(u, h, env, db, acc, tx, pos) == ConnectSpending(t, h, env, db, acc, tx, pos)
    ensures var r := ConnectSpending(t, h, env, db, acc, tx, pos); r.Some? ==> Stored(t.disk, r.value.w)
  {
    hide InputsOk, AllFetchable, ValueIn, Spend, Linked, Extends;
    var ins := Points(tx.vin);
    FetchExtends(t, u, acc.w, ins);
    if AllFetchable(t.disk, acc.w, ins) {
      ValueExtends(t, u, acc.w, ins);
      InputsExtend(t, u, h, env, db, acc.w, tx);
    }
    if Spend(acc.w, ins, pos).Some? { SameShape(acc.w, ins, pos); }
  }

  lemma ConnectTxExtends(t: Tree, u: Tree, h: Hash, env: Env, db: Db, acc: Totals, i: nat)
    requires WellFormed(t) && Linked(u) && Extends(t, u) && h in t.nodes && h != t.genesis
    requires i < |t.nodes[h].block.vtx| && Stored(t.disk, acc.w)
    ensures ConnectTx(u, h, env, db, acc, i) == ConnectTx(t, h, env, db, acc, i)
    ensures var r := ConnectTx(t, h, env, db, acc, i); r.Some? ==> Stored(t.disk, r.value.w)
  {
    var tx, pos := t.nodes[h].block.vtx[i], TxPos(t.nodes[h], i);
    BlockTxInTree(t, h, i);
    assert u.nodes[h] == t.nodes[h];
    hide WellFormed, Linked, Extends, ConnectSpending, HeightScript;
    var acc1 := acc.(sigOps := acc.sigOps + tx.sigOps, valueOut := acc.valueOut + tx.ValueOut());
    ConnectSpendingExtends(t, u, h, env, db, acc1, tx, pos);
  }

  lemma {:induction false} ConnectTxsExtend(t: Tree, u: Tree, h: Hash, env: Env, db: Db, n: nat)
    requires WellFormed(t) && Linked(u) && Extends(t, u) && h in t.nodes && h != t.genesis
    requires n <= |t.nodes[h].block.vtx| && Stored(t.disk, db)
    ensures ConnectTxs(u, h, env, db, n) == ConnectTxs(t, h, env, db, n)
    ensures var r := ConnectTxs(t, h, env, db, n); r.Some? ==> Stored(t.disk, r.value.w)
  {
    hide ConnectTx, Stored;
    if n > 0 {
      ConnectTxsExtend(t, u, h, env, db, n - 1);
      var r := ConnectTxs(t, h, env, db, n - 1);
      if r.Some? { ConnectTxExtends(t, u, h, env, db, r.value, n - 1); }
    }
  }

  lemma {:induction false} ConnectableExtends(t: Tree, u: Tree, env: Env, h: Hash)
    requires WellFormed(t) && Linked(u) && Extends(t, u) && h in t.nodes
    ensures Connectable(u, env, h) <==> Connectable(t, env, h)
    decreases Height(t, h)
  {
    if h != t.genesis {
      var p := Parent(t, h);
      ConnectableExtends(t, u, env, p);
      IndexExtends(t, u, p);
      if Index(t, p).Some? {
        var db := Index(t, p).value;
        IndexIndexed(t, p);
        assert Stored(t.disk, db) by {
          forall x | x in db ensures db[x].pos in t.disk { assert EntryOk(t, db, x, Height(t, p)); }
        }
        ConnectTxsExtend(t, u, h, env, db, |t.nodes[h].block.vtx|);
        hide ConnectTxs, WellFormed, Indexed, Stored;
        assert ConnectResult(u, h, env, db) == ConnectResult(t, h, env, db);
      }
    }
  }

  // Arrivals

  /** The best block connects, and no block that connects has more trust. */
  ghost predicate Settled(t: Tree, env: Env, best: Hash)
    requires Linked(t) && best in t.nodes
  {
    && Connectable(t, env, best)
    && (forall k :: k in t.nodes && Connectable(t, env, k) ==> t.nodes[k].trust <= t.nodes[best].trust)
  }

  lemma {:induction false} IntermediateBeats(t: Tree, best: Hash, tip: Hash)
    requires Linked(t) && best in t.nodes && tip in t.nodes && t.nodes[tip].trust > t.nodes[best].trust
    ensures t.nodes[Intermediate(t, best, tip)].trust > t.nodes[best].trust
    decreases Height(t, tip)
  {
    if tip != t.genesis && t.nodes[Parent(t, tip)].trust > t.nodes[best].trust {
      IntermediateBeats(t, best, Parent(t, tip));
    }
  }

  lemma SettledExtends(t: Tree, u: Tree, env: Env, best: Hash, h: Hash)
    requires WellFormed(t) && Linked(u) && Extends(t, u) && u.nodes.Keys == t.nodes.Keys + {h} && h !in t.nodes
    requires best in t.nodes && Settled(t, env, best)
    ensures Connectable(u, env, best)
    ensures forall k :: k in u.nodes && k != h && Connectable(u, env, k) ==> u.nodes[k].trust <= u.nodes[best].trust
  {
    hide Connectable;
    ConnectableExtends(t, u, env, best);
    forall k | k in u.nodes && k != h && Connectable(u, env, k) ensures u.nodes[k].trust <= u.nodes[best].trust {
      ConnectableExtends(t, u, env, k);
    }
  }

  /**
   * With more trust than the best block, a new one becomes the best exactly if its branch connects.
   * A heavier block below it has failed to connect before and fails again, so that nothing is postponed.
   */
  lemma SwitchIffConnectable(u: Tree, env: Env, best: Hash, h: Hash)
    requires WellFormed(u) && best in u.nodes && h in u.nodes && h != best
    requires Connectable(u, env, best) && Index(u, best).Some? && u.nodes[h].trust > u.nodes[best].trust
    requires forall k :: k in u.nodes && k != h && Connectable(u, env, k) ==> u.nodes[k].trust <= u.nodes[best].trust
    ensures var db := Index(u, best).value;
            && (SwitchResult(u, env, db, best, h).Some? <==> Connectable(u, env, h))
            && (Connectable(u, env, h) ==> PostponedConnect(u, env, db, best, h))
  {
    hide ConnectResult, ReorgResult, Index;
    assert LinkedAt(u, h);
    if u.nodes[h].prev != Some(best) {
      var m := Intermediate(u, best, h);
      IntermediateBeats(u, best, h);
      ReorgIffConnectable(u, env, best, m);
      hide Connectable;
      if Connectable(u, env, h) { ConnectableAncestor(u, env, m, h); }
    }
  }

  lemma ArrivalSettles(t: Tree, u: Tree, env: Env, best: Hash, h: Hash)
    requires WellFormed(t) && WellFormed(u) && Extends(t, u) && u.nodes.Keys == t.nodes.Keys + {h} && h !in t.nodes
    requires best in t.nodes && Index(t, best).Some? && Settled(t, env, best)
    ensures var db, better := Index(t, best).value, u.nodes[h].trust > u.nodes[best].trust;
            var switched := better && SwitchResult(u, env, db, best, h).Some?;
            && (switched ==> PostponedConnect(u, env, db, best, h))
            && Settled(u, env, if switched then h else best)
  {
    hide Connectable, SwitchResult, PostponedConnect;
    SettledExtends(t, u, env, best, h);
    IndexExtends(t, u, best);
    hide Index;
    if u.nodes[h].trust > u.nodes[best].trust { SwitchIffConnectable(u, env, best, h); }
  }

  /** A block that AcceptBlock has let through, with the transactions written to disk. */
  datatype Arrival = Arrival(hash: Hash, node: Node, stored: map<DiskTxPos, Tx>)

  ghost predicate HasParent(t: Tree, a: Arrival) { Linked(t) && a.node.prev.Some? && a.node.prev.value in t.nodes }

  ghost function Entered(t: Tree, a: Arrival): Tree {
    if HasParent(t, a) then Grown(t, a.hash, Placed(t, a.node), a.stored) else t
  }

  ghost function GrownBy(t: Tree, arrivals: seq<Arrival>): Tree {
    if arrivals == [] then t
    else Entered(GrownBy(t, arrivals[..|arrivals| - 1]), arrivals[|arrivals| - 1])
  }

  ghost predicate Fits(t: Tree, a: Arrival) {
    HasParent(t, a) && a.hash !in t.nodes && Extends(t, Entered(t, a)) && WellFormed(Entered(t, a))
  }

  ghost predicate AllFit(t: Tree, arrivals: seq<Arrival>) {
    forall i :: 0 <= i < |arrivals| ==> Fits(GrownBy(t, arrivals[..i]), arrivals[i])
  }

  /**
   * Whatever blocks arrive, in whatever order and however many of them fail to connect, links, index
   * and supplies stay in step, and the best block has the most trust of all blocks that connect.
   */
  method Run(env: Env, t: Tree, arrivals: seq<Arrival>) returns (c: ChainState)
    requires WellFormed(t) && t.nodes.Keys == {t.genesis} && AllFit(t, arrivals)
    ensures fresh(c) && c.Valid() && c.tree == GrownBy(t, arrivals)
    ensures c.Synced() && Settled(c.tree, env, c.best)
  {
    c := new ChainState(t);
    GenesisSettled(t, env);
    hide WellFormed, SuppliesKnown, AllLinked, LinksBelow, Settled, Fits;
    var i := 0;
    while i < |arrivals|
      invariant 0 <= i <= |arrivals| && fresh(c) && c.Valid() && c.tree == GrownBy(t, arrivals[..i])
      invariant c.Synced() && Settled(c.tree, env, c.best)
    {
      assert Fits(GrownBy(t, arrivals[..i]), arrivals[i]);
      Arrive(env, c, arrivals[i]);
      assert arrivals[..i + 1][..i] == arrivals[..i];
      i := i + 1;
    }
    assert arrivals[..i] == arrivals;
  }

  lemma GenesisSettled(t: Tree, env: Env)
    requires Linked(t) && t.nodes.Keys == {t.genesis}
    ensures Settled(t, env, t.genesis)
  {
  }

  method Arrive(env: Env, c: ChainState, a: Arrival)
    requires c.Valid() && c.Synced() && Settled(c.tree, env, c.best) && Fits(c.tree, a)
    modifies c
    ensures c.Valid() && c.Synced() && c.tree == Entered(old(c.tree), a)
    ensures Settled(c.tree, env, c.best)
  {
    ghost var t, best := c.tree, c.best;
    assert Index(t, best) == Some(c.db);
    ghost var u := Entered(t, a);
    ArrivalSettles(t, u, env, best, a.hash);
    hide Settled, SwitchResult, PostponedConnect, SuppliesKnown, WellFormed, Extends, Placed;
    var ok := c.AddToBlockIndex(env, a.hash, a.node, a.stored);
  }
}
