/** Whole runs of the chain state: the main results about reorganisation. */
module Runs {
  import opened Common
  import opened TxDb
  import opened BlockTree
  import opened Connect
  import opened Replay
  import opened Reorg
  import opened Chain
  import Supply

  /** pnext or being the best block marks exactly the best branch. */
  lemma MainChainIsBestBranch(t: Tree, best: Hash, next: map<Hash, Hash>, h: Hash)
    requires Linked(t) && best in t.nodes && h in t.nodes && LinksBelow(t, best, next)
    ensures h in next || h == best ==> IsAncestor(t, h, best)
    ensures AllLinked(t, best, next) ==> (h in next || h == best <==> IsAncestor(t, h, best))
  {
    if h in next { assert LinkBelow(t, best, next, h); }
    if AllLinked(t, best, next) && IsAncestor(t, h, best) && h != best {
      assert Ancestor(t, best, Height(t, h)) == h;
      assert Height(t, h) < Height(t, best);
    }
  }

  /** The supply recorded for the tip is the value of the unspent outputs in the index. */
  lemma TipSupply(t: Tree, supply: map<Hash, int>, best: Hash, db: Db)
    requires Linked(t) && best in t.nodes && SuppliesKnown(t, supply, best, db)
    ensures best in supply && supply[best] == Supply.Total(t.disk, db)
  {
    assert Ancestor(t, best, Height(t, best)) == best;
    assert SupplyAt(t, supply, best);
  }

  // Runs of SetBestChain while the tree grows

  datatype Call = Call(tree: Tree, env: Env, tip: Hash)

  ghost predicate CallOk(c: Call, t: Tree, best: Hash) {
    WellFormed(c.tree) && Extends(t, c.tree) && c.tip in c.tree.nodes && best in c.tree.nodes
  }

  /** The index and best block after one call, provided the postponed blocks connect. */
  function AfterCall(c: Call, db: Db, best: Hash): (Db, Hash)
    requires Linked(c.tree) && best in c.tree.nodes && c.tip in c.tree.nodes
    requires SwitchResult(c.tree, c.env, db, best, c.tip).Some? ==> PostponedConnect(c.tree, c.env, db, best, c.tip)
  {
    match SwitchResult(c.tree, c.env, db, best, c.tip)
    case None => (db, best)
    case Some(db1) =>
      if c.tree.nodes[c.tip].prev == Some(best) then (db1, c.tip)
      else (ConnectUp(c.tree, c.env, db1, Intermediate(c.tree, best, c.tip), c.tip).value, c.tip)
  }

  /** No call in the run leaves postponed blocks unconnected. */
  ghost predicate CompleteRun(calls: seq<Call>, t: Tree, db: Db, best: Hash)
    decreases |calls|
  {
    calls == [] ||
    var c := calls[0];
    && CallOk(c, t, best)
    && (SwitchResult(c.tree, c.env, db, best, c.tip).Some? ==> PostponedConnect(c.tree, c.env, db, best, c.tip))
    && var after := AfterCall(c, db, best);
       CompleteRun(calls[1..], c.tree, after.0, after.1)
  }

  lemma CallIsReplay(c: Call, t: Tree, db: Db, best: Hash)
    requires WellFormed(t) && best in t.nodes && Index(t, best) == Some(db) && CallOk(c, t, best)
    requires SwitchResult(c.tree, c.env, db, best, c.tip).Some? ==> PostponedConnect(c.tree, c.env, db, best, c.tip)
    ensures var (db', best') := AfterCall(c, db, best);
            best' in c.tree.nodes && Index(c.tree, best') == Some(db')
  {
    hide ConnectResult, ReorgResult, ConnectUp, Index;
    IndexExtends(t, c.tree, best);
    if SwitchResult(c.tree, c.env, db, best, c.tip).Some? {
      assert LinkedAt(c.tree, c.tip);
      if c.tree.nodes[c.tip].prev == Some(best) {
        ConnectIsReplay(c.tree, c.tip, c.env);
      } else {
        var m := Intermediate(c.tree, best, c.tip);
        ReorgIsReplay(c.tree, c.env, best, m);
        ConnectUpIsReplay(c.tree, c.env, m, c.tip);
      }
    }
  }

  /**
   * After any complete run from the genesis state, with blocks arriving in between and with any
   * calls failing, the index is the one that connecting genesis to the best block produces.
   */
  lemma {:induction false} RunIsReplay(calls: seq<Call>, t: Tree, db: Db, best: Hash)
    returns (t': Tree, db': Db, best': Hash)
    requires WellFormed(t) && best in t.nodes && Index(t, best) == Some(db)
    requires CompleteRun(calls, t, db, best)
    ensures t' == if calls == [] then t else calls[|calls| - 1].tree
    ensures WellFormed(t') && best' in t'.nodes && Index(t', best') == Some(db')
    ensures (db', best') == RunResult(calls, t, db, best)
    decreases |calls|
  {
    hide SwitchResult, PostponedConnect, Index, AfterCall;
    if calls == [] {
      return t, db, best;
    } else {
      var c := calls[0];
      CallIsReplay(c, t, db, best);
      var after := AfterCall(c, db, best);
      t', db', best' := RunIsReplay(calls[1..], c.tree, after.0, after.1);
    }
  }

  ghost function RunResult(calls: seq<Call>, t: Tree, db: Db, best: Hash): (Db, Hash)
    requires CompleteRun(calls, t, db, best)
    decreases |calls|
  {
    if calls == [] then (db, best)
    else
      var after := AfterCall(calls[0], db, best);
      RunResult(calls[1..], calls[0].tree, after.0, after.1)
  }
}
