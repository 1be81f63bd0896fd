/**
 * Disconnecting a block (DisconnectInputs and DisconnectBlock, src/main.cpp) and why it undoes
 * connecting it, spends inside one block included.
 */
module Undo {
  import opened Common
  import opened Transactions
  import opened TxDb
  import opened BlockTree
  import opened Connect

  /** The outputs a transaction consumes; a coinbase consumes none. */
  function Inputs(tx: Tx): seq<OutPoint> {
    if tx.IsCoinBase() then [] else Points(tx.vin)
  }

  // Connecting, reduced to its effect on the index

  function TxEffect(w: Db, tx: Tx, pos: DiskTxPos): Option<Db> {
    var spent :- Spend(w, Inputs(tx), pos);
    Some(spent[tx.hash := NewIndex(pos, |tx.vout|)])
  }

  function BlockEffect(node: Node, db: Db, n: nat): Option<Db>
    requires n <= |node.block.vtx|
  {
    if n == 0 then Some(db)
    else
      var w :- BlockEffect(node, db, n - 1);
      TxEffect(w, node.block.vtx[n - 1], TxPos(node, n - 1))
  }

  lemma ConnectTxHasEffect(t: Tree, h: Hash, env: Env, db: Db, acc: Totals, i: nat)
    requires Linked(t) && h in t.nodes && i < |t.nodes[h].block.vtx|
    requires ConnectTx(t, h, env, db, acc, i).Some?
    ensures TxEffect(acc.w, t.nodes[h].block.vtx[i], TxPos(t.nodes[h], i))
         == Some(ConnectTx(t, h, env, db, acc, i).value.w)
    ensures Bip30(db, t.nodes[h].block.vtx[i].hash)
  {
  }

  lemma {:induction false} ConnectHasEffect(t: Tree, h: Hash, env: Env, db: Db, n: nat)
    requires Linked(t) && h in t.nodes && n <= |t.nodes[h].block.vtx|
    requires ConnectTxs(t, h, env, db, n).Some?
    ensures BlockEffect(t.nodes[h], db, n) == Some(ConnectTxs(t, h, env, db, n).value.w)
    ensures forall i :: 0 <= i < n ==> Bip30(db, t.nodes[h].block.vtx[i].hash)
  {
    hide ConnectTx, TxEffect, Bip30, Linked;
    if n > 0 {
      ConnectHasEffect(t, h, env, db, n - 1);
      ConnectTxHasEffect(t, h, env, db, ConnectTxs(t, h, env, db, n - 1).value, n - 1);
    }
  }

  // Disconnecting

  function DisconnectTx(w: Db, tx: Tx): Option<Db> {
    var cleared :- Unspend(w, Inputs(tx));
    Some(cleared - {tx.hash})
  }

  /** Takes off the first `n` transactions, the last of them first. */
  function DisconnectTxs(vtx: seq<Tx>, w: Db, n: nat): Option<Db>
    requires n <= |vtx|
    decreases n
  {
    if n == 0 then Some(w)
    else
      var before :- DisconnectTx(w, vtx[n - 1]);
      DisconnectTxs(vtx, before, n - 1)
  }

  method DisconnectInputs(db: Db, tx: Tx) returns (ok: bool, db': Db)
    ensures DisconnectTx(db, tx) == if ok then Some(db') else None
  {
    db' := db;
    if !tx.IsCoinBase() {
      var ins := Points(tx.vin);
      var i := 0;
      ok := true;
      while ok && i < |ins|
        invariant 0 <= i <= |ins|
        invariant Unspend(db, ins[..i]) == if ok then Some(db') else None
        decreases |ins| - i
      {
        assert ins[..i + 1][..i] == ins[..i];
        var o := ins[i];
        if o.hash !in db' || o.n >= |db'[o.hash].spent| {
          ok := false;
        } else {
          var txindex := db'[o.hash];
          txindex := txindex.(spent := txindex.spent[o.n := NULL_POS]);
          db' := db'[o.hash := txindex];
        }
        i := i + 1;
      }
      if !ok { UnspendPrefix(db, ins, i); return; }
      assert ins[..|ins|] == ins;
    }
    db' := db' - {tx.hash};
    ok := true;
  }

  lemma {:induction false} UnspendPrefix(db: Db, ins: seq<OutPoint>, k: nat)
    requires k <= |ins| && Unspend(db, ins[..k]).None?
    ensures Unspend(db, ins).None?
    decreases |ins|
  {
    if k < |ins| {
      assert ins[..|ins| - 1][..k] == ins[..k];
      UnspendPrefix(db, ins[..|ins| - 1], k);
    } else {
      assert ins[..k] == ins;
    }
  }

  method DisconnectBlock(db: Db, b: Block) returns (ok: bool, db': Db)
    ensures DisconnectTxs(b.vtx, db, |b.vtx|) == if ok then Some(db') else None
  {
    db', ok := db, true;
    var i := |b.vtx|;
    while ok && i > 0
      invariant 0 <= i <= |b.vtx|
      invariant DisconnectTxs(b.vtx, db, |b.vtx|) == if ok then DisconnectTxs(b.vtx, db', i) else None
      decreases i
    {
      ok, db' := DisconnectInputs(db', b.vtx[i - 1]);
      i := i - 1;
    }
  }

  // Undo

  function Txids(vtx: seq<Tx>, lo: nat, hi: nat): set<Hash>
    requires hi <= |vtx|
  {
    set i | lo <= i < hi :: vtx[i].hash
  }

  lemma ErasedBesideUnspend(w: Db, ins: seq<OutPoint>, h: Hash)
    requires forall o :: o in ins ==> HasOutput(w, o) && o.hash != h
    ensures Unspend(w, ins).Some? && Unspend(w - {h}, ins).Some?
    ensures Unspend(w, ins).value - {h} == Unspend(w - {h}, ins).value
  {
    UnspendMarks(w, ins);
    UnspendMarks(w - {h}, ins);
    var a, b := Unspend(w, ins).value - {h}, Unspend(w - {h}, ins).value;
    forall k | k in a ensures a[k] == b[k] {
      assert forall n :: 0 <= n < |w[k].spent| ==> a[k].spent[n] == b[k].spent[n];
      assert a[k].spent == b[k].spent;
    }
    assert a == b;
  }

  /** Taking a transaction off leaves the index it was put on, less its own id. */
  lemma UndoTx(w: Db, tx: Tx, pos: DiskTxPos, later: set<Hash>)
    requires TxEffect(w, tx, pos).Some? && !pos.IsNull() && CanonicalNulls(w)
    requires tx.hash !in later
    requires forall o :: o in Inputs(tx) ==> o.hash !in later && o.hash != tx.hash
    ensures DisconnectTx(TxEffect(w, tx, pos).value - later, tx) == Some(w - (later + {tx.hash}))
  {
    var ins := Inputs(tx);
    var spent := Spend(w, ins, pos).value;
    var after := TxEffect(w, tx, pos).value - later;
    SpendMarks(w, ins, pos);
    forall o | o in ins ensures HasOutput(after, o) && o.hash != tx.hash {
      assert Unspent(w, o);
    }
    ErasedBesideUnspend(after, ins, tx.hash);
    assert after - {tx.hash} == spent - (later + {tx.hash});
    UnspendUndoesSpend(w, ins, pos, later + {tx.hash});
  }

  lemma {:induction false} EffectKeepsCanonical(node: Node, db: Db, n: nat)
    requires n <= |node.block.vtx| && BlockEffect(node, db, n).Some?
    requires CanonicalNulls(db) && node.file < MAX_UINT32
    ensures CanonicalNulls(BlockEffect(node, db, n).value)
  {
    if n > 0 {
      EffectKeepsCanonical(node, db, n - 1);
      var w := BlockEffect(node, db, n - 1).value;
      SpendKeepsCanonical(w, Inputs(node.block.vtx[n - 1]), TxPos(node, n - 1));
    }
  }

  /** An id that the block has not stored yet is still absent or completely spent. */
  lemma {:induction false} StaysSpent(node: Node, db: Db, n: nat, h: Hash)
    requires n <= |node.block.vtx| && BlockEffect(node, db, n).Some? && node.file < MAX_UINT32
    requires Bip30(db, h) && h !in Txids(node.block.vtx, 0, n)
    ensures Bip30(BlockEffect(node, db, n).value, h)
  {
    if n > 0 {
      var tx := node.block.vtx[n - 1];
      assert tx.hash in Txids(node.block.vtx, 0, n);
      assert Txids(node.block.vtx, 0, n - 1) <= Txids(node.block.vtx, 0, n);
      StaysSpent(node, db, n - 1, h);
      var w := BlockEffect(node, db, n - 1).value;
      SpendMarks(w, Inputs(tx), TxPos(node, n - 1));
    }
  }

  /**
   * The central fact: disconnecting the first `n` transactions gives back the index the block
   * was connected to, except that an older, completely spent entry under one of the block's own
   * ids is lost (BIP 30 lets a block overwrite such an entry).
   */
  lemma {:induction false} UndoTxs(node: Node, db: Db, n: nat, later: set<Hash>)
    requires n <= |node.block.vtx| && BlockEffect(node, db, n).Some?
    requires CanonicalNulls(db) && node.file < MAX_UINT32
    requires UniqueTxids(node.block.vtx)
    requires forall i :: 0 <= i < |node.block.vtx| ==> Bip30(db, node.block.vtx[i].hash)
    requires later == Txids(node.block.vtx, n, |node.block.vtx|)
    ensures DisconnectTxs(node.block.vtx, BlockEffect(node, db, n).value - later, n)
         == Some(db - Txids(node.block.vtx, 0, |node.block.vtx|))
    decreases n
  {
    var vtx := node.block.vtx;
    if n == 0 {
      assert later == Txids(vtx, 0, |vtx|);
    } else {
      var tx := vtx[n - 1];
      var w := BlockEffect(node, db, n - 1).value;
      EffectKeepsCanonical(node, db, n - 1);
      SpendMarks(w, Inputs(tx), TxPos(node, n - 1));
      forall o | o in Inputs(tx) ensures o.hash !in later && o.hash != tx.hash {
        assert Unspent(w, o);
        if o.hash in Txids(vtx, n - 1, |vtx|) {
          NotYetStored(vtx, n - 1, o.hash);
          StaysSpent(node, db, n - 1, o.hash);
        }
        assert later <= Txids(vtx, n - 1, |vtx|) && tx.hash in Txids(vtx, n - 1, |vtx|);
      }
      UndoTx(w, tx, TxPos(node, n - 1), later);
      assert later + {tx.hash} == Txids(vtx, n - 1, |vtx|);
      UndoTxs(node, db, n - 1, later + {tx.hash});
    }
  }

  lemma NotYetStored(vtx: seq<Tx>, n: nat, h: Hash)
    requires UniqueTxids(vtx) && n <= |vtx| && h in Txids(vtx, n, |vtx|)
    ensures h !in Txids(vtx, 0, n)
  {
    var j :| n <= j < |vtx| && vtx[j].hash == h;
    assert forall i :: 0 <= i < n ==> vtx[i].hash != vtx[j].hash;
  }

  /** Connect then disconnect: the index is unchanged exactly when none of the block's ids was in it. */
  lemma UndoBlock(t: Tree, h: Hash, env: Env, db: Db)
    requires Linked(t) && h in t.nodes && t.nodes[h].file < MAX_UINT32 && CanonicalNulls(db)
    requires ConnectResult(t, h, env, db).Some?
    ensures var vtx := t.nodes[h].block.vtx;
            var undone := DisconnectTxs(vtx, ConnectResult(t, h, env, db).value.w, |vtx|);
            && undone == Some(db - Txids(vtx, 0, |vtx|))
            && (undone == Some(db) <==> forall i :: 0 <= i < |vtx| ==> vtx[i].hash !in db)
  {
    var node := t.nodes[h];
    var vtx := node.block.vtx;
    ConnectHasEffect(t, h, env, db, |vtx|);
    var w := BlockEffect(node, db, |vtx|).value;
    assert w - Txids(vtx, |vtx|, |vtx|) == w;
    UndoTxs(node, db, |vtx|, Txids(vtx, |vtx|, |vtx|));
    var ids := Txids(vtx, 0, |vtx|);
    if forall i :: 0 <= i < |vtx| ==> vtx[i].hash !in db {
      assert db - ids == db;
    } else {
      var i :| 0 <= i < |vtx| && vtx[i].hash in db;
      assert vtx[i].hash in ids && vtx[i].hash !in db - ids;
    }
  }
}
