/**
 * Connecting a block to the transaction index: FetchInputs, ConnectInputs and ConnectBlock of
 * src/main.cpp. The functions say what a connect does to one index; the methods compute it the
 * way the node does, with the changes queued beside the database.
 */
module Connect {
  import opened Common
  import opened Transactions
  import opened TxDb
  import opened BlockTree
  import Rewards

  const CHECKPOINT_HEIGHT: nat := 712891
  const CHECKPOINT_TIME: nat := 1640557462
  const COINBASE_MATURITY: nat := 500

  /**
   * Outside the model: `headerOk` is what CheckBlock asks of the header, the clock and the Merkle
   * root, `scriptOk` a script check, `p2shSigOps` GetP2SHSigOpCount, `coinAge` GetCoinAge.
   */
  datatype Env = Env(headerOk: Hash -> bool, scriptOk: (Tx, nat, Tx, ScriptFlags) -> bool,
                     p2shSigOps: (Tx, seq<Tx>) -> nat, coinAge: (Db, Tx) -> Option<nat>)

  /** Which of the two opcodes that came later than pay-to-script-hash a script check enforces. */
  datatype ScriptFlags = ScriptFlags(checkLockTime: bool, checkSequence: bool)

  const CHECKLOCKTIMEVERIFY_SWITCH_TIME: nat := 1461110400
  const CHECKSEQUENCEVERIFY_SWITCH_TIME: nat := 1645797620
  const MANDATORY_FLAGS := ScriptFlags(false, false)

  /** What a block is checked with, which depends on the time of the transaction. */
  function BlockFlags(time: nat): ScriptFlags {
    ScriptFlags(time >= CHECKLOCKTIMEVERIFY_SWITCH_TIME, time >= CHECKSEQUENCEVERIFY_SWITCH_TIME)
  }

  // The rules for one transaction, over the index `w` it is connected to

  predicate Fetchable(disk: map<DiskTxPos, Tx>, w: Db, o: OutPoint) {
    && o.hash in w
    && w[o.hash].pos in disk
    && o.n < |disk[w[o.hash].pos].vout|
    && o.n < |w[o.hash].spent|
  }

  predicate AllFetchable(disk: map<DiskTxPos, Tx>, w: Db, ins: seq<OutPoint>) {
    forall i :: 0 <= i < |ins| ==> Fetchable(disk, w, ins[i])
  }

  function PrevTx(disk: map<DiskTxPos, Tx>, w: Db, o: OutPoint): Tx
    requires Fetchable(disk, w, o)
  {
    disk[w[o.hash].pos]
  }

  function PrevTxs(disk: map<DiskTxPos, Tx>, w: Db, ins: seq<OutPoint>): (s: seq<Tx>)
    requires AllFetchable(disk, w, ins)
    ensures |s| == |ins|
  {
    seq(|ins|, i requires 0 <= i < |ins| => PrevTx(disk, w, ins[i]))
  }

  function ValueIn(disk: map<DiskTxPos, Tx>, w: Db, ins: seq<OutPoint>): int
    requires AllFetchable(disk, w, ins)
  {
    if ins == [] then 0
    else
      var o := ins[|ins| - 1];
      ValueIn(disk, w, ins[..|ins| - 1]) + PrevTx(disk, w, o).vout[o.n].value
  }

  /** The position lies in the block itself or in one of the 499 before it. */
  predicate Immature(t: Tree, h: Hash, pos: DiskTxPos)
    requires Linked(t) && h in t.nodes
  {
    InRecentBlock(t, h, Height(t, h), pos)
  }

  predicate InRecentBlock(t: Tree, h: Hash, top: nat, pos: DiskTxPos)
    requires Linked(t) && h in t.nodes
    decreases Height(t, h)
  {
    && top - Height(t, h) < COINBASE_MATURITY
    && (InBlock(t, h, pos) || (h != t.genesis && InRecentBlock(t, Parent(t, h), top, pos)))
  }

  /** The position lies in the block. */
  predicate InBlock(t: Tree, h: Hash, pos: DiskTxPos)
    requires h in t.nodes
  {
    t.nodes[h].blockPos == pos.blockPos && t.nodes[h].file == pos.file
  }

  lemma {:induction false} RecentBlockIff(t: Tree, h: Hash, top: nat, pos: DiskTxPos)
    requires Linked(t) && h in t.nodes && Height(t, h) <= top
    ensures InRecentBlock(t, h, top, pos) <==>
              exists a :: a in t.nodes && IsAncestor(t, a, h) && top - Height(t, a) < 500 && InBlock(t, a, pos)
    decreases Height(t, h)
  {
    if InBlock(t, h, pos) {
      assert IsAncestor(t, h, h);
    } else if h != t.genesis {
      var p := Parent(t, h);
      RecentBlockIff(t, p, top, pos);
      forall a | a in t.nodes && a != h ensures IsAncestor(t, a, h) <==> IsAncestor(t, a, p) {
        BelowParent(t, a, h);
      }
    } else {
      forall a | a in t.nodes && IsAncestor(t, a, h) ensures a == h { OnlyGenesisAtZero(t, a); }
    }
  }

  /** An output of the block itself or of one of the 499 blocks below it is immature, and no other. */
  lemma ImmatureIff(t: Tree, h: Hash, pos: DiskTxPos)
    requires Linked(t) && h in t.nodes
    ensures Immature(t, h, pos) <==>
              exists a :: && a in t.nodes && IsAncestor(t, a, h) && Height(t, h) - Height(t, a) < 500
                          && t.nodes[a].blockPos == pos.blockPos && t.nodes[a].file == pos.file
  {
    RecentBlockIff(t, h, Height(t, h), pos);
    forall a | a in t.nodes && IsAncestor(t, a, h) && InBlock(t, a, pos)
      ensures t.nodes[a].blockPos == pos.blockPos && t.nodes[a].file == pos.file
    {
    }
  }

  /** The checks of the first loop of ConnectInputs on input `i`. */
  predicate CheapInputOk(t: Tree, h: Hash, w: Db, tx: Tx, i: nat)
    requires Linked(t) && h in t.nodes && i < |tx.vin|
    requires AllFetchable(t.disk, w, Points(tx.vin))
  {
    var ins := Points(tx.vin);
    var prev := PrevTx(t.disk, w, ins[i]);
    && (prev.IsCoinBase() || prev.IsCoinStake() ==> !Immature(t, h, w[ins[i].hash].pos))
    && prev.time <= tx.time
    && MoneyRange(prev.vout[ins[i].n].value)
    && MoneyRange(ValueIn(t.disk, w, ins[..i + 1]))
  }

  predicate ScriptOkAt(env: Env, disk: map<DiskTxPos, Tx>, w: Db, tx: Tx, i: nat)
    requires i < |tx.vin| && AllFetchable(disk, w, Points(tx.vin))
  {
    env.scriptOk(tx, i, PrevTx(disk, w, Points(tx.vin)[i]), BlockFlags(tx.time))
  }

  /** Blocks below the last hardened checkpoint are connected without running scripts. */
  predicate ScriptsOk(env: Env, disk: map<DiskTxPos, Tx>, w: Db, tx: Tx, height: nat)
    requires AllFetchable(disk, w, Points(tx.vin))
  {
    height >= CHECKPOINT_HEIGHT ==> forall i :: 0 <= i < |tx.vin| ==> ScriptOkAt(env, disk, w, tx, i)
  }

  /** A coinstake may create its reward; any other transaction pays a fee. */
  predicate AmountsOk(env: Env, db: Db, tx: Tx, bits: nat, valueIn: int) {
    if tx.IsCoinStake() then
      tx.time > CHECKPOINT_TIME ==>
        && env.coinAge(db, tx).Some?
        && tx.ValueOut() - valueIn <=
           Rewards.StakeReward(env.coinAge(db, tx).value, bits, tx.time)
           - GetMinFee(tx, 1, false, GMF_BLOCK, tx.size) + CENT
    else
      valueIn >= tx.ValueOut() && MoneyRange(valueIn - tx.ValueOut())
  }

  predicate InputsOk(t: Tree, h: Hash, env: Env, db: Db, w: Db, tx: Tx)
    requires Linked(t) && h in t.nodes
    requires AllFetchable(t.disk, w, Points(tx.vin))
  {
    && (forall i :: 0 <= i < |tx.vin| ==> CheapInputOk(t, h, w, tx, i))
    && ScriptsOk(env, t.disk, w, tx, Height(t, h))
    && AmountsOk(env, db, tx, t.nodes[h].block.bits, ValueIn(t.disk, w, Points(tx.vin)))
  }

  /** A transaction may take over the id of an older one only if that one is completely spent. */
  predicate Bip30(db: Db, h: Hash) {
    h in db ==> forall n :: 0 <= n < |db[h].spent| ==> !db[h].spent[n].IsNull()
  }

  // Whole blocks

  /** The index and the running totals after some of a block's transactions. */
  datatype Totals = Totals(w: Db, fees: int, valueIn: int, valueOut: int, sigOps: nat)

  /** The inputs of a transaction that is not a coinbase; `acc` already counts its own sigops. */
  function ConnectSpending(t: Tree, h: Hash, env: Env, db: Db, acc: Totals, tx: Tx, pos: DiskTxPos): Option<Totals>
    requires Linked(t) && h in t.nodes
  {
    var ins := Points(tx.vin);
    if !AllFetchable(t.disk, acc.w, ins) then None
    else
      var sigOps := acc.sigOps + env.p2shSigOps(tx, PrevTxs(t.disk, acc.w, ins));
      if sigOps > MAX_BLOCK_SIGOPS || !InputsOk(t, h, env, db, acc.w, tx) then None
      else
        var w :- Spend(acc.w, ins, pos);
        var valueIn := ValueIn(t.disk, acc.w, ins);
        Some(Totals(w, if tx.IsCoinStake() then acc.fees else acc.fees + valueIn - tx.ValueOut(),
                    acc.valueIn + valueIn, acc.valueOut, sigOps))
  }

  function ConnectTx(t: Tree, h: Hash, env: Env, db: Db, acc: Totals, i: nat): Option<Totals>
    requires Linked(t) && h in t.nodes && i < |t.nodes[h].block.vtx|
  {
    var tx := t.nodes[h].block.vtx[i];
    var pos := TxPos(t.nodes[h], i);
    var acc1 := acc.(sigOps := acc.sigOps + tx.sigOps, valueOut := acc.valueOut + tx.ValueOut());
    if !Bip30(db, tx.hash) || acc1.sigOps > MAX_BLOCK_SIGOPS then None
    else
      var acc2 :- if tx.IsCoinBase() then Some(acc1) else ConnectSpending(t, h, env, db, acc1, tx, pos);
      Some(acc2.(w := acc2.w[tx.hash := NewIndex(pos, |tx.vout|)]))
  }

  function ConnectTxs(t: Tree, h: Hash, env: Env, db: Db, n: nat): Option<Totals>
    requires Linked(t) && h in t.nodes && n <= |t.nodes[h].block.vtx|
  {
    if n == 0 then Some(Totals(db, 0, 0, 0, 0))
    else
      var acc :- ConnectTxs(t, h, env, db, n - 1);
      ConnectTx(t, h, env, db, acc, n - 1)
  }

  /** What ConnectBlock accepts, and the index and totals it leaves. */
  function ConnectResult(t: Tree, h: Hash, env: Env, db: Db): Option<Totals>
    requires Linked(t) && h in t.nodes
  {
    var b := t.nodes[h].block;
    if !CheckBlock(b, env.headerOk(h)) then None
    else
      var acc :- ConnectTxs(t, h, env, db, |b.vtx|);
      if !CoinbaseOk(b, acc.fees) then None else Some(acc)
  }

  predicate CoinbaseOk(b: Block, fees: int)
    requires b.vtx != []
  {
    !b.IsProofOfStake() ==> b.vtx[0].ValueOut() <= Rewards.PowReward(b.bits) + fees
  }

  lemma {:induction false} ConnectPrefix(t: Tree, h: Hash, env: Env, db: Db, n: nat, k: nat)
    requires Linked(t) && h in t.nodes && k <= n <= |t.nodes[h].block.vtx| && ConnectTxs(t, h, env, db, n).Some?
    ensures ConnectTxs(t, h, env, db, k).Some?
    decreases n
  {
    hide ConnectTx;
    if k < n { ConnectPrefix(t, h, env, db, n - 1, k); }
  }

  lemma ConnectedStep(t: Tree, h: Hash, env: Env, db: Db, n: nat)
    requires Linked(t) && h in t.nodes && 0 < n < |t.nodes[h].block.vtx| && ConnectResult(t, h, env, db).Some?
    ensures ConnectTxs(t, h, env, db, n).Some? && !t.nodes[h].block.vtx[n].IsCoinBase()
    ensures ConnectTx(t, h, env, db, ConnectTxs(t, h, env, db, n).value, n).Some?
  {
    hide ConnectTx, CheckTransaction, SumSigOps, UniqueTxids;
    var vtx := t.nodes[h].block.vtx;
    CheckedBlockShape(t.nodes[h].block, env.headerOk(h), n);
    hide CheckBlock;
    ConnectPrefix(t, h, env, db, |vtx|, n + 1);
    ConnectPrefix(t, h, env, db, |vtx|, n);
  }

  lemma SpendingRules(t: Tree, h: Hash, env: Env, db: Db, acc: Totals, n: nat, i: nat)
    requires Linked(t) && h in t.nodes && n < |t.nodes[h].block.vtx| && i < |t.nodes[h].block.vtx[n].vin|
    requires ConnectTx(t, h, env, db, acc, n).Some? && !t.nodes[h].block.vtx[n].IsCoinBase()
    ensures var tx := t.nodes[h].block.vtx[n];
            && AllFetchable(t.disk, acc.w, Points(tx.vin)) && CheapInputOk(t, h, acc.w, tx, i)
            && Spend(acc.w, Points(tx.vin), TxPos(t.nodes[h], n)).Some?
  {
    hide CheapInputOk, AllFetchable, ScriptsOk, AmountsOk, Spend, Bip30, ValueIn;
  }

  /** An output of no later a transaction, and one of a coinbase or coinstake only from 500 blocks below. */
  lemma InputRules(t: Tree, h: Hash, w: Db, tx: Tx, i: nat, a: Hash)
    requires Linked(t) && h in t.nodes && i < |tx.vin| && AllFetchable(t.disk, w, Points(tx.vin))
    requires CheapInputOk(t, h, w, tx, i) && a in t.nodes && IsAncestor(t, a, h)
    ensures var o := tx.vin[i].prevout;
            && o.hash in w && w[o.hash].pos in t.disk
            && var prev := t.disk[w[o.hash].pos];
            && o.n < |prev.vout| && prev.time <= tx.time
            && (&& (prev.IsCoinBase() || prev.IsCoinStake())
                && t.nodes[a].blockPos == w[o.hash].pos.blockPos && t.nodes[a].file == w[o.hash].pos.file
                ==> Height(t, h) - Height(t, a) >= 500)
  {
    hide Immature, ValueIn, IsAncestor;
    assert Fetchable(t.disk, w, Points(tx.vin)[i]);
    ImmatureIff(t, h, w[tx.vin[i].prevout.hash].pos);
  }

  /** Every input of a connected block takes by these rules an output that is unspent when its turn comes. */
  lemma ConnectedSpends(t: Tree, h: Hash, env: Env, db: Db, n: nat, i: nat, a: Hash)
    requires Linked(t) && h in t.nodes && t.nodes[h].file < MAX_UINT32 && ConnectResult(t, h, env, db).Some?
    requires a in t.nodes && IsAncestor(t, a, h)
    requires var vtx := t.nodes[h].block.vtx; 0 < n < |vtx| && i < |vtx[n].vin|
    ensures ConnectTxs(t, h, env, db, n).Some?
    ensures var w, tx := ConnectTxs(t, h, env, db, n).value.w, t.nodes[h].block.vtx[n];
            var o := tx.vin[i].prevout;
            && o.hash in w && w[o.hash].pos in t.disk && Unspent(w, o)
            && var prev := t.disk[w[o.hash].pos];
            && o.n < |prev.vout| && prev.time <= tx.time
            && (&& (prev.IsCoinBase() || prev.IsCoinStake())
                && t.nodes[a].blockPos == w[o.hash].pos.blockPos && t.nodes[a].file == w[o.hash].pos.file
                ==> Height(t, h) - Height(t, a) >= 500)
  {
    hide ConnectTx, ConnectTxs, ConnectResult, Spend, IsAncestor, Marked, Distinct, CheapInputOk, AllFetchable;
    var vtx := t.nodes[h].block.vtx;
    ConnectedStep(t, h, env, db, n);
    var acc, ins := ConnectTxs(t, h, env, db, n).value, Points(vtx[n].vin);
    SpendingRules(t, h, env, db, acc, n, i);
    InputRules(t, h, acc.w, vtx[n], i, a);
    assert ins[i] in ins;
    SpendMarks(acc.w, ins, TxPos(t.nodes[h], n));
  }

  lemma SigOpsStep(t: Tree, h: Hash, env: Env, db: Db, acc: Totals, i: nat)
    requires Linked(t) && h in t.nodes && i < |t.nodes[h].block.vtx| && ConnectTx(t, h, env, db, acc, i).Some?
    ensures acc.sigOps + t.nodes[h].block.vtx[i].sigOps <= ConnectTx(t, h, env, db, acc, i).value.sigOps <= 20_000
  {
    hide InputsOk, AllFetchable, Spend, Bip30, ValueIn;
  }

  /** A connected block runs at most 20000 signature operations, those of the scripts it redeems included. */
  lemma {:induction false} SigOpsBounded(t: Tree, h: Hash, env: Env, db: Db, n: nat)
    requires Linked(t) && h in t.nodes && n <= |t.nodes[h].block.vtx| && ConnectTxs(t, h, env, db, n).Some?
    ensures SumSigOps(t.nodes[h].block.vtx[..n]) <= ConnectTxs(t, h, env, db, n).value.sigOps <= 20_000
  {
    hide ConnectTx;
    if n > 0 {
      var vtx := t.nodes[h].block.vtx;
      SigOpsBounded(t, h, env, db, n - 1);
      SigOpsStep(t, h, env, db, ConnectTxs(t, h, env, db, n - 1).value, n - 1);
      assert vtx[..n][..n - 1] == vtx[..n - 1];
    }
  }

  // The methods

  type PrevInputs = map<Hash, (TxIndex, Tx)>

  ghost predicate InputsMatch(disk: map<DiskTxPos, Tx>, w: Db, vin: seq<TxIn>, inputs: PrevInputs) {
    && (forall i :: 0 <= i < |vin| ==> vin[i].prevout.hash in inputs)
    && (forall h :: h in inputs ==>
          h in w && w[h].pos in disk && inputs[h] == (w[h], disk[w[h].pos]))
  }

  method FetchInputs(disk: map<DiskTxPos, Tx>, db: Db, pool: Db, tx: Tx) returns (ok: bool, inputs: PrevInputs)
    ensures ok <==> AllFetchable(disk, db + pool, Points(tx.vin))
    ensures ok ==> InputsMatch(disk, db + pool, tx.vin, inputs)
  {
    inputs := map[];
    var i := 0;
    while i < |tx.vin|
      invariant 0 <= i <= |tx.vin|
      invariant InputsMatch(disk, db + pool, tx.vin[..i], inputs)
    {
      var hash := tx.vin[i].prevout.hash;
      assert Points(tx.vin)[i].hash == hash;
      if hash !in inputs {
        if hash !in pool && hash !in db { return false, inputs; }
        var txindex := if hash in pool then pool[hash] else db[hash];
        if txindex.pos !in disk { return false, inputs; }
        inputs := inputs[hash := (txindex, disk[txindex.pos])];
      }
      i := i + 1;
    }
    i := 0;
    while i < |tx.vin|
      invariant 0 <= i <= |tx.vin|
      invariant InputsMatch(disk, db + pool, tx.vin, inputs)
      invariant forall j :: 0 <= j < i ==> Fetchable(disk, db + pool, Points(tx.vin)[j])
    {
      var o := tx.vin[i].prevout;
      assert Points(tx.vin)[i] == o;
      var (txindex, prev) := inputs[o.hash];
      if o.n >= |prev.vout| || o.n >= |txindex.spent| { return false, inputs; }
      i := i + 1;
    }
    ok := true;
  }

  method IsImmature(t: Tree, h: Hash, pos: DiskTxPos) returns (r: bool)
    requires Linked(t) && h in t.nodes
    ensures r == Immature(t, h, pos)
    ensures r <==> exists a :: && a in t.nodes && IsAncestor(t, a, h) && Height(t, h) - Height(t, a) < 500
                               && t.nodes[a].blockPos == pos.blockPos && t.nodes[a].file == pos.file
  {
    ImmatureIff(t, h, pos);
    var index := Some(h);
    while index.Some? && Height(t, h) - Height(t, index.value) < COINBASE_MATURITY
      invariant index.Some? ==> index.value in t.nodes
      invariant Immature(t, h, pos) <==> index.Some? && InRecentBlock(t, index.value, Height(t, h), pos)
      decreases if index.Some? then Height(t, index.value) + 1 else 0
    {
      assert LinkedAt(t, index.value);
      var node := t.nodes[index.value];
      if node.blockPos == pos.blockPos && node.file == pos.file { return true; }
      index := node.prev;
    }
    r := false;
  }

  method CheckInputs(t: Tree, h: Hash, ghost w: Db, tx: Tx, inputs: PrevInputs) returns (ok: bool, valueIn: int)
    requires Linked(t) && h in t.nodes
    requires AllFetchable(t.disk, w, Points(tx.vin))
    requires InputsMatch(t.disk, w, tx.vin, inputs)
    ensures ok <==> forall i :: 0 <= i < |tx.vin| ==> CheapInputOk(t, h, w, tx, i)
    ensures ok ==> valueIn == ValueIn(t.disk, w, Points(tx.vin))
  {
    valueIn := 0;
    var i := 0;
    ghost var ins := Points(tx.vin);
    while i < |tx.vin|
      invariant 0 <= i <= |tx.vin|
      invariant AllFetchable(t.disk, w, ins[..i])
      invariant valueIn == ValueIn(t.disk, w, ins[..i])
      invariant forall j :: 0 <= j < i ==> CheapInputOk(t, h, w, tx, j)
    {
      var o := tx.vin[i].prevout;
      assert ins[i] == o && ins[..i + 1][..i] == ins[..i];
      assert Fetchable(t.disk, w, ins[i]);
      var (txindex, prev) := inputs[o.hash];
      if prev.IsCoinBase() || prev.IsCoinStake() {
        var tooSoon := IsImmature(t, h, txindex.pos);
        if tooSoon { assert !CheapInputOk(t, h, w, tx, i); return false, valueIn; }
      }
      if prev.time > tx.time { assert !CheapInputOk(t, h, w, tx, i); return false, valueIn; }
      valueIn := valueIn + prev.vout[o.n].value;
      if !MoneyRange(prev.vout[o.n].value) || !MoneyRange(valueIn) {
        assert !CheapInputOk(t, h, w, tx, i);
        return false, valueIn;
      }
      i := i + 1;
    }
    assert ins[..|ins|] == ins;
    ok := true;
  }

  /** The working copies in `inputs` follow the index that marking `ins` one by one produces. */
  ghost predicate CopiesFollow(now: Db, inputs: PrevInputs, original: PrevInputs) {
    && inputs.Keys == original.Keys
    && (forall h :: h in inputs ==> h in now && inputs[h] == (now[h], original[h].1))
  }

  lemma CopiesStep(now: Db, inputs: PrevInputs, original: PrevInputs, o: OutPoint, pos: DiskTxPos)
    requires CopiesFollow(now, inputs, original) && o.hash in inputs && HasOutput(now, o)
    ensures var after := SetMark(now, o, pos);
            CopiesFollow(after, inputs[o.hash := (after[o.hash], inputs[o.hash].1)], original)
  {
  }

  method MarkInputs(ghost w: Db, db: Db, pool: Db, ins: seq<OutPoint>, pos: DiskTxPos, original: PrevInputs)
    returns (ok: bool, pool': Db)
    requires w == db + pool
    requires forall i :: 0 <= i < |ins| ==> ins[i].hash in original && HasOutput(w, ins[i])
    requires CopiesFollow(w, original, original)
    ensures ok <==> Spend(w, ins, pos).Some?
    ensures ok ==> db + pool' == Spend(w, ins, pos).value
  {
    var inputs := original;
    pool' := pool;
    ghost var now := w;
    var i := 0;
    while i < |ins|
      invariant 0 <= i <= |ins|
      invariant Spend(w, ins[..i], pos) == Some(now)
      invariant now == db + pool' && CopiesFollow(now, inputs, original)
    {
      var o := ins[i];
      SpendNext(w, ins, pos, i, now);
      var (txindex, prev) := inputs[o.hash];
      if !txindex.spent[o.n].IsNull() {
        SpendPrefix(w, ins, pos, i + 1);
        return false, pool';
      }
      CopiesStep(now, inputs, original, o, pos);
      txindex := txindex.(spent := txindex.spent[o.n := pos]);
      inputs := inputs[o.hash := (txindex, prev)];
      OverlayPut(db, pool', o.hash, txindex);
      pool' := pool'[o.hash := txindex];
      now := SetMark(now, o, pos);
      i := i + 1;
    }
    assert ins[..|ins|] == ins;
    ok := true;
  }

  /** The script checks, which the node hands to its check queue. */
  method RunScripts(t: Tree, env: Env, height: nat, ghost w: Db, tx: Tx, inputs: PrevInputs) returns (ok: bool)
    requires AllFetchable(t.disk, w, Points(tx.vin)) && InputsMatch(t.disk, w, tx.vin, inputs)
    ensures ok == ScriptsOk(env, t.disk, w, tx, height)
  {
    if height < CHECKPOINT_HEIGHT { return true; }
    for i := 0 to |tx.vin|
      invariant forall j :: 0 <= j < i ==> ScriptOkAt(env, t.disk, w, tx, j)
    {
      assert Points(tx.vin)[i] == tx.vin[i].prevout;
      if !env.scriptOk(tx, i, inputs[tx.vin[i].prevout.hash].1, BlockFlags(tx.time)) {
        assert !ScriptOkAt(env, t.disk, w, tx, i);
        return false;
      }
      assert ScriptOkAt(env, t.disk, w, tx, i);
    }
    ok := true;
  }

  lemma OverlayPut(db: Db, pool: Db, h: Hash, e: TxIndex)
    ensures db + pool[h := e] == (db + pool)[h := e]
  {
  }

  lemma SpendNext(w: Db, ins: seq<OutPoint>, pos: DiskTxPos, i: nat, now: Db)
    requires i < |ins| && Spend(w, ins[..i], pos) == Some(now)
    ensures Spend(w, ins[..i + 1], pos) == if Unspent(now, ins[i]) then Some(SetMark(now, ins[i], pos)) else None
    ensures HasOutput(w, ins[i]) ==> HasOutput(now, ins[i])
  {
    assert ins[..i + 1][..i] == ins[..i];
    SameShape(w, ins[..i], pos);
  }

  lemma {:induction false} SameShape(w: Db, ins: seq<OutPoint>, pos: DiskTxPos)
    requires Spend(w, ins, pos).Some?
    ensures var now := Spend(w, ins, pos).value;
      now.Keys == w.Keys && forall h :: h in w ==> now[h].pos == w[h].pos && |now[h].spent| == |w[h].spent|
  {
    if ins != [] { SameShape(w, ins[..|ins| - 1], pos); }
  }

  lemma {:induction false} SpendPrefix(w: Db, ins: seq<OutPoint>, pos: DiskTxPos, k: nat)
    requires k <= |ins| && Spend(w, ins[..k], pos).None?
    ensures Spend(w, ins, pos).None?
    decreases |ins|
  {
    if k < |ins| {
      assert ins[..|ins| - 1][..k] == ins[..k];
      SpendPrefix(w, ins[..|ins| - 1], pos, k);
    } else {
      assert ins[..k] == ins;
    }
  }

  method ConnectInputs(t: Tree, h: Hash, env: Env, db: Db, pool: Db, tx: Tx, pos: DiskTxPos, inputs: PrevInputs)
    returns (ok: bool, pool': Db)
    requires Linked(t) && h in t.nodes
    requires AllFetchable(t.disk, db + pool, Points(tx.vin))
    requires InputsMatch(t.disk, db + pool, tx.vin, inputs)
    ensures ok <==> InputsOk(t, h, env, db, db + pool, tx) && Spend(db + pool, Points(tx.vin), pos).Some?
    ensures ok ==> db + pool' == Spend(db + pool, Points(tx.vin), pos).value
  {
    var valueIn;
    ok, valueIn := CheckInputs(t, h, db + pool, tx, inputs);
    if !ok { return false, pool; }
    var ins := Points(tx.vin);
    assert forall i :: 0 <= i < |ins| ==> Fetchable(t.disk, db + pool, ins[i]) && ins[i] == tx.vin[i].prevout;
    ok, pool' := MarkInputs(db + pool, db, pool, ins, pos, inputs);
    if !ok { return; }
    ok := RunScripts(t, env, Height(t, h), db + pool, tx, inputs);
    if !ok { return; }
    ok := AmountsOk(env, db, tx, t.nodes[h].block.bits, valueIn);
  }

  method SpendInputs(t: Tree, h: Hash, env: Env, db: Db, tx: Tx, pos: DiskTxPos, queued: Db, acc: Totals)
    returns (ok: bool, queued': Db, acc': Totals)
    requires Linked(t) && h in t.nodes && acc.w == db + queued
    ensures ConnectSpending(t, h, env, db, acc, tx, pos) == if ok then Some(acc') else None
    ensures ok ==> acc'.w == db + queued'
  {
    queued', acc' := queued, acc;
    var fetched, inputs := FetchInputs(t.disk, db, queued, tx);
    if !fetched { return false, queued', acc'; }
    var ins := Points(tx.vin);
    var sigOps := acc.sigOps + env.p2shSigOps(tx, PrevTxs(t.disk, acc.w, ins));
    if sigOps > MAX_BLOCK_SIGOPS { return false, queued', acc'; }
    ok, queued' := ConnectInputs(t, h, env, db, queued, tx, pos, inputs);
    if !ok { return; }
    var valueIn := ValueIn(t.disk, acc.w, ins);
    acc' := Totals(db + queued', if tx.IsCoinStake() then acc.fees else acc.fees + valueIn - tx.ValueOut(),
                   acc.valueIn + valueIn, acc.valueOut, sigOps);
  }

  method ConnectOne(t: Tree, h: Hash, env: Env, db: Db, i: nat, pos: DiskTxPos, queued: Db, acc: Totals)
    returns (ok: bool, queued': Db, acc': Totals)
    requires Linked(t) && h in t.nodes && i < |t.nodes[h].block.vtx|
    requires pos == TxPos(t.nodes[h], i) && acc.w == db + queued
    ensures ConnectTx(t, h, env, db, acc, i) == if ok then Some(acc') else None
    ensures ok ==> acc'.w == db + queued'
  {
    var tx := t.nodes[h].block.vtx[i];
    queued' := queued;
    acc' := acc.(sigOps := acc.sigOps + tx.sigOps, valueOut := acc.valueOut + tx.ValueOut());
    if !Bip30(db, tx.hash) || acc'.sigOps > MAX_BLOCK_SIGOPS { return false, queued', acc'; }
    if !tx.IsCoinBase() {
      ok, queued', acc' := SpendInputs(t, h, env, db, tx, pos, queued', acc');
      if !ok { return; }
    }
    var entry := NewIndex(pos, |tx.vout|);
    OverlayPut(db, queued', tx.hash, entry);
    acc' := acc'.(w := acc'.w[tx.hash := entry]);
    queued' := queued'[tx.hash := entry];
    ok := true;
  }

  /** The loop of ConnectBlock: the changes stay in `queued`, the database is only read. */
  method ConnectAll(t: Tree, h: Hash, env: Env, db: Db) returns (ok: bool, queued: Db, acc: Totals)
    requires Linked(t) && h in t.nodes
    ensures ConnectTxs(t, h, env, db, |t.nodes[h].block.vtx|) == if ok then Some(acc) else None
    ensures ok ==> acc.w == db + queued
  {
    var node := t.nodes[h];
    var vtx := node.block.vtx;
    queued, acc := map[], Totals(db, 0, 0, 0, 0);
    var txPos := node.blockPos + 80 + CompactSizeLength(|vtx|);
    ok := true;
    var i := 0;
    while ok && i < |vtx|
      invariant 0 <= i <= |vtx|
      invariant ok ==> txPos == TxPos(node, i).txPos && acc.w == db + queued
      invariant ConnectTxs(t, h, env, db, i) == if ok then Some(acc) else None
      decreases |vtx| - i
    {
      ok, queued, acc := ConnectOne(t, h, env, db, i, DiskTxPos(node.file, node.blockPos, txPos), queued, acc);
      NextTxPos(node, i);
      txPos := txPos + vtx[i].size;
      i := i + 1;
    }
    if !ok { StopsHere(t, h, env, db, i); }
  }

  lemma NextTxPos(node: Node, i: nat)
    requires i < |node.block.vtx|
    ensures TxPos(node, i + 1).txPos == TxPos(node, i).txPos + node.block.vtx[i].size
  {
    assert node.block.vtx[..i + 1][..i] == node.block.vtx[..i];
  }

  /** ConnectBlock up to writing its results: the queued changes and what the block created. */
  method ConnectBlock(t: Tree, h: Hash, env: Env, db: Db) returns (ok: bool, queued: Db, created: int)
    requires Linked(t) && h in t.nodes
    ensures ok <==> ConnectResult(t, h, env, db).Some?
    ensures ok ==> var r := ConnectResult(t, h, env, db).value;
                   db + queued == r.w && created == r.valueOut - r.valueIn
  {
    var b := t.nodes[h].block;
    if !CheckBlock(b, env.headerOk(h)) { return false, map[], 0; }
    var acc;
    ok, queued, acc := ConnectAll(t, h, env, db);
    created := acc.valueOut - acc.valueIn;
    ok := ok && CoinbaseOk(b, acc.fees);
  }

  lemma {:induction false} StopsHere(t: Tree, h: Hash, env: Env, db: Db, n: nat)
    requires Linked(t) && h in t.nodes && n <= |t.nodes[h].block.vtx|
    requires ConnectTxs(t, h, env, db, n).None?
    ensures ConnectTxs(t, h, env, db, |t.nodes[h].block.vtx|).None?
    decreases |t.nodes[h].block.vtx| - n
  {
    if n < |t.nodes[h].block.vtx| { StopsHere(t, h, env, db, n + 1); }
  }
}
