/**
 * Replaying a branch from the genesis block, and what holds of every index that comes out of it.
 * The height at the start of each coinbase makes transaction ids unique along a branch, so the
 * overwriting that BIP 30 would still allow never happens and disconnecting is an exact undo.
 */
module Replay {
  import opened Common
  import opened Transactions
  import opened TxDb
  import opened BlockTree
  import opened Connect
  import opened Undo

  /** The index after connecting every block of the branch; the genesis block is never connected. */
  ghost function Index(t: Tree, h: Hash): Option<Db>
    requires Linked(t) && h in t.nodes
    decreases Height(t, h)
  {
    if h == t.genesis then Some(map[])
    else
      var db :- Index(t, Parent(t, h));
      BlockEffect(t.nodes[h], db, |t.nodes[h].block.vtx|)
  }

  lemma {:induction false} IndexExtends(t: Tree, u: Tree, h: Hash)
    requires Linked(t) && Linked(u) && Extends(t, u) && h in t.nodes
    ensures Index(u, h) == Index(t, h)
    decreases Height(t, h)
  {
    if h != t.genesis { IndexExtends(t, u, Parent(t, h)); }
  }

  // What an entry of a replayed index looks like

  predicate SpentIn(db: Db, o: OutPoint) { HasOutput(db, o) && !Unspent(db, o) }

  ghost predicate CoinbaseUpTo(tx: Tx, height: nat) {
    tx.IsCoinBase() ==> exists j: nat :: j <= height && j <= MAX_INT32 && HeightScript(j) <= tx.vin[0].scriptSig
  }

  ghost predicate EntryOk(t: Tree, db: Db, h: Hash, height: nat)
    requires h in db
  {
    && db[h].pos in t.disk
    && var tx := t.disk[db[h].pos];
    && tx.hash == h
    && |tx.vout| == |db[h].spent|
    && InTree(t, tx)
    && (forall o :: o in Inputs(tx) ==> SpentIn(db, o))
    && CoinbaseUpTo(tx, height)
  }

  ghost predicate Indexed(t: Tree, db: Db, height: nat) {
    && CanonicalNulls(db)
    && (forall h {:trigger EntryOk(t, db, h, height)} :: h in db ==> EntryOk(t, db, h, height))
  }

  /** A transaction that spends unspent outputs cannot be in the index already. */
  lemma SpendingIsFresh(t: Tree, db: Db, height: nat, tx: Tx)
    requires WellFormed(t) && Indexed(t, db, height)
    requires InTree(t, tx) && tx.vin != [] && !tx.IsCoinBase()
    requires forall o :: o in Inputs(tx) ==> Unspent(db, o)
    ensures tx.hash !in db
  {
    assert Points(tx.vin)[0] in Inputs(tx);
    assert tx.hash in db ==> EntryOk(t, db, tx.hash, height);
  }

  /** Nor can a coinbase, whose script starts with a height the branch has not reached. */
  lemma CoinbaseIsFresh(t: Tree, db: Db, height: nat, tx: Tx)
    requires WellFormed(t) && Indexed(t, db, height)
    requires InTree(t, tx) && tx.IsCoinBase()
    requires height + 1 <= MAX_INT32 && HeightScript(height + 1) <= tx.vin[0].scriptSig
    ensures tx.hash !in db
  {
    if tx.hash in db {
      assert EntryOk(t, db, tx.hash, height);
      var j: nat :| j <= height && j <= MAX_INT32 && HeightScript(j) <= tx.vin[0].scriptSig;
      HeightScriptInjective(tx.vin[0].scriptSig, j, height + 1);
    }
  }

  lemma SpendKeepsEntries(t: Tree, w: Db, ins: seq<OutPoint>, pos: DiskTxPos, height: nat)
    requires Indexed(t, w, height) && !pos.IsNull() && Spend(w, ins, pos).Some?
    ensures Indexed(t, Spend(w, ins, pos).value, height)
    ensures forall o :: o in ins ==> SpentIn(Spend(w, ins, pos).value, o)
  {
    var after := Spend(w, ins, pos).value;
    SpendMarks(w, ins, pos);
    SpendKeepsCanonical(w, ins, pos);
    forall o | SpentIn(w, o) || o in ins ensures SpentIn(after, o) {
      assert OutPoint(o.hash, o.n) == o;
    }
    forall h | h in after ensures EntryOk(t, after, h, height) {
      assert EntryOk(t, w, h, height);
    }
  }

  lemma StoreKeepsEntries(t: Tree, w: Db, tx: Tx, pos: DiskTxPos, height: nat)
    requires Indexed(t, w, height) && tx.hash !in w
    requires pos in t.disk && t.disk[pos] == tx && InTree(t, tx) && CoinbaseUpTo(tx, height)
    requires forall o :: o in Inputs(tx) ==> SpentIn(w, o)
    ensures Indexed(t, w[tx.hash := NewIndex(pos, |tx.vout|)], height)
  {
    var after := w[tx.hash := NewIndex(pos, |tx.vout|)];
    assert forall o :: SpentIn(w, o) ==> SpentIn(after, o);
    forall h | h in after ensures EntryOk(t, after, h, height) {
      if h != tx.hash { assert EntryOk(t, w, h, height); }
    }
  }

  lemma RaiseHeight(t: Tree, db: Db, height: nat)
    requires Indexed(t, db, height)
    ensures Indexed(t, db, height + 1)
  {
    forall h | h in db ensures EntryOk(t, db, h, height + 1) {
      assert EntryOk(t, db, h, height);
    }
  }

  lemma NodeFacts(t: Tree, h: Hash)
    requires WellFormed(t) && h in t.nodes && h != t.genesis
    ensures t.nodes[h].file < MAX_UINT32 && UniqueTxids(t.nodes[h].block.vtx)
    ensures Height(t, h) <= MAX_INT32
  {
    assert WellFormedNode(t, h);
  }

  lemma BlockTxInTree(t: Tree, h: Hash, i: nat)
    requires WellFormed(t) && h in t.nodes && h != t.genesis && i < |t.nodes[h].block.vtx|
    ensures InTree(t, t.nodes[h].block.vtx[i])
    ensures var node := t.nodes[h]; TxPos(node, i) in t.disk && t.disk[TxPos(node, i)] == node.block.vtx[i]
    ensures t.nodes[h].block.vtx[i].vin != []
    ensures t.nodes[h].block.vtx[i].IsCoinBase() <==> i == 0
    ensures Height(t, h) <= MAX_INT32
    ensures i == 0 ==> HeightScript(Height(t, h)) <= t.nodes[h].block.vtx[i].vin[0].scriptSig
  {
    assert WellFormedNode(t, h);
    assert t.nodes[h].block.vtx[i] in t.nodes[h].block.vtx;
    CheckedBlockShape(t.nodes[h].block, true, i);
  }

  lemma TxIsFresh(t: Tree, h: Hash, w: Db, i: nat)
    requires WellFormed(t) && h in t.nodes && h != t.genesis && i < |t.nodes[h].block.vtx|
    requires TxEffect(w, t.nodes[h].block.vtx[i], TxPos(t.nodes[h], i)).Some?
    requires Indexed(t, w, if i == 0 then Height(t, Parent(t, h)) else Height(t, h))
    ensures t.nodes[h].block.vtx[i].hash !in w
  {
    NodeFacts(t, h);
    BlockTxInTree(t, h, i);
    var tx := t.nodes[h].block.vtx[i];
    if i == 0 {
      CoinbaseIsFresh(t, w, Height(t, Parent(t, h)), tx);
    } else {
      SpendMarks(w, Inputs(tx), TxPos(t.nodes[h], i));
      SpendingIsFresh(t, w, Height(t, h), tx);
    }
  }

  lemma TxKeepsEntries(t: Tree, h: Hash, w: Db, i: nat)
    requires WellFormed(t) && h in t.nodes && h != t.genesis && i < |t.nodes[h].block.vtx|
    requires TxEffect(w, t.nodes[h].block.vtx[i], TxPos(t.nodes[h], i)).Some?
    requires Indexed(t, w, Height(t, h)) && t.nodes[h].block.vtx[i].hash !in w
    ensures var after := TxEffect(w, t.nodes[h].block.vtx[i], TxPos(t.nodes[h], i)).value;
            Indexed(t, after, Height(t, h)) && w.Keys <= after.Keys
  {
    NodeFacts(t, h);
    BlockTxInTree(t, h, i);
    var tx, pos := t.nodes[h].block.vtx[i], TxPos(t.nodes[h], i);
    SpendMarks(w, Inputs(tx), pos);
    SpendKeepsEntries(t, w, Inputs(tx), pos, Height(t, h));
    StoreKeepsEntries(t, Spend(w, Inputs(tx), pos).value, tx, pos, Height(t, h));
  }

  lemma TxStep(t: Tree, h: Hash, db: Db, i: nat)
    requires WellFormed(t) && h in t.nodes && h != t.genesis && i < |t.nodes[h].block.vtx|
    requires BlockEffect(t.nodes[h], db, i + 1).Some?
    requires i == 0 ==> Indexed(t, db, Height(t, Parent(t, h)))
    requires Indexed(t, BlockEffect(t.nodes[h], db, i).value, Height(t, h))
    ensures Indexed(t, BlockEffect(t.nodes[h], db, i + 1).value, Height(t, h))
    ensures BlockEffect(t.nodes[h], db, i).value.Keys <= BlockEffect(t.nodes[h], db, i + 1).value.Keys
    ensures t.nodes[h].block.vtx[i].hash !in BlockEffect(t.nodes[h], db, i).value
  {
    var w := BlockEffect(t.nodes[h], db, i).value;
    TxIsFresh(t, h, w, i);
    TxKeepsEntries(t, h, w, i);
  }

  /** Every transaction of a block is new to the index it is connected to. */
  lemma {:induction false} EffectKeepsEntries(t: Tree, h: Hash, db: Db, n: nat)
    requires WellFormed(t) && h in t.nodes && h != t.genesis && n <= |t.nodes[h].block.vtx|
    requires Indexed(t, db, Height(t, Parent(t, h)))
    requires BlockEffect(t.nodes[h], db, n).Some?
    ensures Indexed(t, BlockEffect(t.nodes[h], db, n).value, Height(t, h))
    ensures db.Keys <= BlockEffect(t.nodes[h], db, n).value.Keys
    ensures forall i :: 0 <= i < n ==> t.nodes[h].block.vtx[i].hash !in db
  {
    if n == 0 {
      RaiseHeight(t, db, Height(t, Parent(t, h)));
    } else {
      hide Indexed, WellFormed, TxEffect;
      BlockLinked(t);
      EffectKeepsEntries(t, h, db, n - 1);
      TxStep(t, h, db, n - 1);
    }
  }

  lemma BlockLinked(t: Tree)
    requires WellFormed(t)
    ensures Linked(t)
  {
  }

  /** Every replayed index has the entry invariant. */
  lemma {:induction false} IndexIndexed(t: Tree, h: Hash)
    requires WellFormed(t) && h in t.nodes && Index(t, h).Some?
    ensures Indexed(t, Index(t, h).value, Height(t, h))
    decreases Height(t, h)
  {
    if h != t.genesis {
      IndexIndexed(t, Parent(t, h));
      EffectKeepsEntries(t, h, Index(t, Parent(t, h)).value, |t.nodes[h].block.vtx|);
    }
  }

  /** No transaction id is used twice along a branch. */
  lemma NoIdReused(t: Tree, h: Hash, i: nat)
    requires WellFormed(t) && h in t.nodes && h != t.genesis && Index(t, h).Some?
    requires i < |t.nodes[h].block.vtx|
    ensures t.nodes[h].block.vtx[i].hash !in Index(t, Parent(t, h)).value
  {
    IndexIndexed(t, Parent(t, h));
    EffectKeepsEntries(t, h, Index(t, Parent(t, h)).value, |t.nodes[h].block.vtx|);
  }

  /** Disconnecting the tip of a replayed branch gives exactly the replay of the branch below it. */
  lemma DisconnectIsReplayOfParent(t: Tree, h: Hash)
    requires WellFormed(t) && h in t.nodes && h != t.genesis && Index(t, h).Some?
    ensures var vtx := t.nodes[h].block.vtx;
            DisconnectTxs(vtx, Index(t, h).value, |vtx|) == Index(t, Parent(t, h))
  {
    var node := t.nodes[h];
    var vtx := node.block.vtx;
    var db := Index(t, Parent(t, h)).value;
    IndexIndexed(t, Parent(t, h));
    EffectKeepsEntries(t, h, db, |vtx|);
    NodeFacts(t, h);
    var w := Index(t, h).value;
    assert w - Txids(vtx, |vtx|, |vtx|) == w;
    UndoTxs(node, db, |vtx|, Txids(vtx, |vtx|, |vtx|));
    assert db - Txids(vtx, 0, |vtx|) == db;
  }

  /** Connecting a block to a replayed index extends the replay by that block. */
  lemma ConnectIsReplay(t: Tree, h: Hash, env: Env)
    requires WellFormed(t) && h in t.nodes && h != t.genesis && Index(t, Parent(t, h)).Some?
    requires ConnectResult(t, h, env, Index(t, Parent(t, h)).value).Some?
    ensures Index(t, h) == Some(ConnectResult(t, h, env, Index(t, Parent(t, h)).value).value.w)
  {
    ConnectHasEffect(t, h, env, Index(t, Parent(t, h)).value, |t.nodes[h].block.vtx|);
  }
}
