/** Conservation of money: the recorded supply is the value of the unspent outputs (src/main.cpp). */
module Supply {
  import opened Common
  import opened Transactions
  import opened TxDb
  import opened BlockTree
  import opened Connect
  import opened Undo
  import opened Replay
  import Rewards

  /** The value of the outputs of one transaction that are not spent. */
  function OpenValue(outs: seq<TxOut>, spent: seq<DiskTxPos>): int
    requires |outs| == |spent|
  {
    if outs == [] then 0
    else
      var last := |outs| - 1;
      OpenValue(outs[..last], spent[..last]) + (if spent[last].IsNull() then outs[last].value else 0)
  }

  function EntryValue(disk: map<DiskTxPos, Tx>, e: TxIndex): int {
    if e.pos in disk && |disk[e.pos].vout| == |e.spent| then OpenValue(disk[e.pos].vout, e.spent) else 0
  }

  /** The value of all unspent outputs of an index. */
  ghost function Total(disk: map<DiskTxPos, Tx>, db: Db): int {
    if db.Keys == {} then 0
    else
      var h := Any(db.Keys);
      EntryValue(disk, db[h]) + Total(disk, db - {h})
  }

  lemma {:induction false} TotalRemove(disk: map<DiskTxPos, Tx>, db: Db, h: Hash)
    requires h in db
    ensures Total(disk, db) == EntryValue(disk, db[h]) + Total(disk, db - {h})
    decreases |db|
  {
    var k := Any(db.Keys);
    if k != h {
      TotalRemove(disk, db - {k}, h);
      TotalRemove(disk, db - {h}, k);
      assert db - {k} - {h} == db - {h} - {k};
    }
  }

  lemma TotalPut(disk: map<DiskTxPos, Tx>, db: Db, h: Hash, e: TxIndex)
    ensures Total(disk, db[h := e])
         == Total(disk, db) - (if h in db then EntryValue(disk, db[h]) else 0) + EntryValue(disk, e)
  {
    var after := db[h := e];
    TotalRemove(disk, after, h);
    assert after - {h} == db - {h};
    if h in db { TotalRemove(disk, db, h); } else { assert db - {h} == db; }
  }

  lemma {:induction false} TotalExtends(t: Tree, u: Tree, db: Db)
    requires Extends(t, u)
    requires forall h :: h in db ==> db[h].pos in t.disk
    ensures Total(u.disk, db) == Total(t.disk, db)
    decreases |db|
  {
    if db.Keys != {} {
      var h := Any(db.Keys);
      TotalRemove(t.disk, db, h);
      TotalRemove(u.disk, db, h);
      TotalExtends(t, u, db - {h});
    }
  }

  lemma {:induction false} MarkOpenValue(outs: seq<TxOut>, spent: seq<DiskTxPos>, n: nat, mark: DiskTxPos)
    requires |outs| == |spent| && n < |outs| && spent[n].IsNull() && !mark.IsNull()
    ensures OpenValue(outs, spent[n := mark]) == OpenValue(outs, spent) - outs[n].value
  {
    var last := |outs| - 1;
    if n == last {
      assert spent[n := mark][..last] == spent[..last];
    } else {
      MarkOpenValue(outs[..last], spent[..last], n, mark);
      assert spent[n := mark][..last] == spent[..last][n := mark];
    }
  }

  lemma {:induction false} FreshOpenValue(outs: seq<TxOut>, spent: seq<DiskTxPos>)
    requires |outs| == |spent| && forall i :: 0 <= i < |spent| ==> spent[i] == NULL_POS
    ensures OpenValue(outs, spent) == SumOuts(outs)
  {
    if outs != [] { FreshOpenValue(outs[..|outs| - 1], spent[..|outs| - 1]); }
  }

  /** Every entry knows the outputs of its transaction. */
  ghost predicate Shaped(disk: map<DiskTxPos, Tx>, db: Db) {
    forall h :: h in db ==> db[h].pos in disk && |disk[db[h].pos].vout| == |db[h].spent|
  }

  lemma IndexedIsShaped(t: Tree, db: Db, height: nat)
    requires Indexed(t, db, height)
    ensures Shaped(t.disk, db)
  {
    forall h | h in db ensures db[h].pos in t.disk && |t.disk[db[h].pos].vout| == |db[h].spent| {
      assert EntryOk(t, db, h, height);
    }
  }

  /** Spending takes the value of the spent outputs out of the index. */
  lemma {:induction false} SpendTotal(disk: map<DiskTxPos, Tx>, w: Db, ins: seq<OutPoint>, pos: DiskTxPos)
    requires Shaped(disk, w) && !pos.IsNull() && Spend(w, ins, pos).Some? && AllFetchable(disk, w, ins)
    ensures Shaped(disk, Spend(w, ins, pos).value)
    ensures Total(disk, Spend(w, ins, pos).value) == Total(disk, w) - ValueIn(disk, w, ins)
  {
    if ins != [] {
      var rest, o := ins[..|ins| - 1], ins[|ins| - 1];
      SpendTotal(disk, w, rest, pos);
      SameShape(w, rest, pos);
      var before := Spend(w, rest, pos).value;
      assert Fetchable(disk, w, o);
      MarkOpenValue(disk[before[o.hash].pos].vout, before[o.hash].spent, o.n, pos);
      TotalPut(disk, before, o.hash, SetMark(before, o, pos)[o.hash]);
    }
  }

  /** One transaction changes the total by what it creates less what it consumes. */
  lemma TxTotal(t: Tree, h: Hash, env: Env, db: Db, acc: Totals, i: nat)
    requires WellFormed(t) && h in t.nodes && h != t.genesis && i < |t.nodes[h].block.vtx|
    requires ConnectTx(t, h, env, db, acc, i).Some?
    requires Shaped(t.disk, acc.w) && t.nodes[h].block.vtx[i].hash !in acc.w
    ensures var r := ConnectTx(t, h, env, db, acc, i).value;
            && Shaped(t.disk, r.w)
            && Total(t.disk, r.w) - Total(t.disk, acc.w) == (r.valueOut - acc.valueOut) - (r.valueIn - acc.valueIn)
  {
    NodeFacts(t, h);
    BlockTxInTree(t, h, i);
    var tx, pos := t.nodes[h].block.vtx[i], TxPos(t.nodes[h], i);
    var entry := NewIndex(pos, |tx.vout|);
    FreshOpenValue(tx.vout, entry.spent);
    if tx.IsCoinBase() {
      TotalPut(t.disk, acc.w, tx.hash, entry);
    } else {
      SpendTotal(t.disk, acc.w, Points(tx.vin), pos);
      SameShape(acc.w, Points(tx.vin), pos);
      TotalPut(t.disk, Spend(acc.w, Points(tx.vin), pos).value, tx.hash, entry);
    }
  }

  lemma {:induction false} TxsTotal(t: Tree, h: Hash, env: Env, db: Db, n: nat)
    requires WellFormed(t) && h in t.nodes && h != t.genesis && n <= |t.nodes[h].block.vtx|
    requires Indexed(t, db, Height(t, Parent(t, h))) && ConnectTxs(t, h, env, db, n).Some?
    ensures var r := ConnectTxs(t, h, env, db, n).value;
            && Shaped(t.disk, r.w)
            && Total(t.disk, r.w) == Total(t.disk, db) + r.valueOut - r.valueIn
  {
    if n == 0 {
      IndexedIsShaped(t, db, Height(t, Parent(t, h)));
    } else {
      TxsTotal(t, h, env, db, n - 1);
      var acc := ConnectTxs(t, h, env, db, n - 1).value;
      ConnectHasEffect(t, h, env, db, n);
      ConnectHasEffect(t, h, env, db, n - 1);
      EffectKeepsEntries(t, h, db, n - 1);
      TxStep(t, h, db, n - 1);
      TxTotal(t, h, env, db, acc, n - 1);
    }
  }

  /** Connecting a block raises the value of the unspent outputs by what the block records as created. */
  lemma BlockTotal(t: Tree, h: Hash, env: Env, db: Db)
    requires WellFormed(t) && h in t.nodes && h != t.genesis
    requires Indexed(t, db, Height(t, Parent(t, h))) && ConnectResult(t, h, env, db).Some?
    ensures var r := ConnectResult(t, h, env, db).value;
            Total(t.disk, r.w) == Total(t.disk, db) + r.valueOut - r.valueIn
  {
    TxsTotal(t, h, env, db, |t.nodes[h].block.vtx|);
  }

  // How much a block may create

  /** What the transactions before number `n` created, beyond the coinbase and the coinstake. */
  lemma {:induction false} FeesCollected(t: Tree, h: Hash, env: Env, db: Db, n: nat)
    requires Linked(t) && h in t.nodes && n <= |t.nodes[h].block.vtx|
    requires CheckBlock(t.nodes[h].block, env.headerOk(h)) && ConnectTxs(t, h, env, db, n).Some?
    ensures var r := ConnectTxs(t, h, env, db, n).value;
            var b := t.nodes[h].block;
            && r.fees >= 0
            && (!b.IsProofOfStake() && n > 0 ==> r.valueOut - r.valueIn == b.vtx[0].ValueOut() - r.fees)
            && (b.IsProofOfStake() && n == 1 ==> r.valueOut == r.valueIn == r.fees == 0)
            && (b.IsProofOfStake() && n > 1 && b.vtx[1].time > CHECKPOINT_TIME ==>
                  && env.coinAge(db, b.vtx[1]).Some?
                  && r.valueOut - r.valueIn + r.fees
                     <= Rewards.StakeReward(env.coinAge(db, b.vtx[1]).value, b.bits, b.vtx[1].time))
  {
    hide ConnectTx, InputsOk, Rewards.StakeReward, Linked;
    var b := t.nodes[h].block;
    if n > 0 {
      FeesCollected(t, h, env, db, n - 1);
      CheckedBlockShape(b, env.headerOk(h), n - 1);
      var acc := ConnectTxs(t, h, env, db, n - 1).value;
      TxCreates(t, h, env, db, acc, n - 1);
      if b.IsProofOfStake() { EmptyCoinbase(b, env.headerOk(h)); }
      hide CheckBlock;
    }
  }

  /** The coinbase of a proof-of-stake block is worth nothing. */
  lemma EmptyCoinbase(b: Block, headerOk: bool)
    requires CheckBlock(b, headerOk) && b.IsProofOfStake()
    ensures b.vtx[0].ValueOut() == 0
  {
    assert SumOuts(b.vtx[0].vout[..0]) == 0;
    assert b.vtx[0].vout[..0] == [];
  }

  lemma TxCreates(t: Tree, h: Hash, env: Env, db: Db, acc: Totals, i: nat)
    requires Linked(t) && h in t.nodes && i < |t.nodes[h].block.vtx|
    requires ConnectTx(t, h, env, db, acc, i).Some?
    ensures var r := ConnectTx(t, h, env, db, acc, i).value;
            var tx := t.nodes[h].block.vtx[i];
            var created := (r.valueOut - acc.valueOut) - (r.valueIn - acc.valueIn);
            && (tx.IsCoinBase() ==> r.fees == acc.fees && r.valueIn == acc.valueIn && created == tx.ValueOut())
            && (!tx.IsCoinBase() && !tx.IsCoinStake() ==> created == -(r.fees - acc.fees) && r.fees >= acc.fees)
            && (!tx.IsCoinBase() && tx.IsCoinStake() ==>
                  && r.fees == acc.fees
                  && (tx.time > CHECKPOINT_TIME ==>
                        && env.coinAge(db, tx).Some?
                        && created <= Rewards.StakeReward(env.coinAge(db, tx).value, t.nodes[h].block.bits, tx.time)))
  {
  }

  /**
   * A proof-of-work block creates at most its reward; a proof-of-stake block later than the last
   * checkpoint creates at most the stake reward, and destroys the fees.
   */
  lemma CreatedBounded(t: Tree, h: Hash, env: Env, db: Db)
    requires Linked(t) && h in t.nodes && ConnectResult(t, h, env, db).Some?
    ensures var r := ConnectResult(t, h, env, db).value;
            var b := t.nodes[h].block;
            && (!b.IsProofOfStake() ==> r.valueOut - r.valueIn <= Rewards.PowReward(b.bits))
            && (b.IsProofOfStake() && b.time > CHECKPOINT_TIME ==>
                  && env.coinAge(db, b.vtx[1]).Some?
                  && r.valueOut - r.valueIn + r.fees
                     <= Rewards.StakeReward(env.coinAge(db, b.vtx[1]).value, b.bits, b.time)
                  && r.fees >= 0)
  {
    FeesCollected(t, h, env, db, |t.nodes[h].block.vtx|);
  }
}
