/** A block that the miner puts together connects: CreateNewBlock (src/miner.cpp) meets ConnectBlock (src/main.cpp). */
module Mined {
  import opened Common
  import opened Transactions
  import opened TxDb
  import opened BlockTree
  import opened Connect
  import opened Miner
  import opened Replay
  import Rewards

  /**
   * The block `h`, with the coinbase `cb` and the selected transactions, has been added on top of
   * the miner's best block; it was written to a new place of the block files. The miner keeps room
   * for the signature operations of the coinbase.
   */
  ghost predicate OnTop(s: Sources, u: Tree, h: Hash, cb: Tx, txs: seq<Tx>) {
    && Ready(s) && WellFormed(u) && Extends(s.t, u) && h in u.nodes && h !in s.t.nodes &&
        u.nodes[h].prev == Some(s.best)
    && u.nodes[h].block.vtx == [cb] + txs && cb.sigOps <= RESERVED_SIG_OPS
    && (forall x :: x in s.db ==> s.db[x].pos != MEMORY_POS && !InBlock(u, h, s.db[x].pos))
  }

  /** What the tree says about the new block. */
  lemma OnTopFacts(s: Sources, u: Tree, h: Hash, cb: Tx, txs: seq<Tx>, i: nat)
    requires OnTop(s, u, h, cb, txs) && i <= |txs|
    ensures h != u.genesis && Parent(u, h) == s.best && u.nodes[s.best] == s.t.nodes[s.best]
    ensures Height(u, h) == Height(s.t, s.best) + 1 <= MAX_INT32
    ensures var pos := TxPos(u.nodes[h], i);
            !pos.IsNull() && pos in u.disk && u.disk[pos] == u.nodes[h].block.vtx[i] &&
                InTree(u, u.nodes[h].block.vtx[i])
    ensures CheckBlock(u.nodes[h].block, true) && HeightScript(Height(u, h)) <= cb.vin[0].scriptSig
  {
    assert LinkedAt(u, h);
    assert WellFormedNode(u, h);
    assert u.nodes[h].block.vtx[i] in u.nodes[h].block.vtx;
  }

  /** The ids of the block are new to the index, and the transactions are ordinary. */
  ghost predicate Usable(s: Sources, cb: Tx, txs: seq<Tx>) {
    && OwnIds(s, txs) && Chosen(s, txs) && cb.IsCoinBase() && cb.hash !in s.db
  }

  lemma DraftIsUsable(s: Sources, u: Tree, h: Hash, cb: Tx, txs: seq<Tx>, lim: Limits)
    requires OnTop(s, u, h, cb, txs) && PoolKnown(s) && Chosen(s, txs) && Built(s, lim, txs).Some?
    ensures Usable(s, cb, txs)
  {
    DraftedIdsAreNew(s, lim, txs);
    OnTopFacts(s, u, h, cb, txs, 0);
    CheckedBlockShape(u.nodes[h].block, true, 0);
    hide Built, HeightScript;
    IndexedExtends(s.t, u, s.db, Height(s.t, s.best));
    CoinbaseIsFresh(u, s.db, Height(s.t, s.best), cb);
  }

  lemma IndexedExtends(t: Tree, u: Tree, db: Db, height: nat)
    requires Extends(t, u) && Indexed(t, db, height)
    ensures Indexed(u, db, height)
  {
    hide HeightScript;
    forall x | x in db ensures EntryOk(u, db, x, height) {
      assert EntryOk(t, db, x, height);
      InTreeExtends(t, u, t.disk[db[x].pos]);
    }
  }

  lemma InTreeExtends(t: Tree, u: Tree, tx: Tx)
    requires Extends(t, u) && InTree(t, tx)
    ensures InTree(u, tx)
  {
    var k :| k in t.nodes && k != t.genesis && tx in t.nodes[k].block.vtx;
    assert k in u.nodes && tx in u.nodes[k].block.vtx;
  }

  /** The transaction that an input of a drafted transaction refers to. */
  function Origin(s: Sources, h: Hash): Option<Tx> {
    if h in s.db then if s.db[h].pos in s.t.disk then Some(s.t.disk[s.db[h].pos]) else None
    else if h in s.pool then Some(s.pool[h])
    else None
  }

  /** What the validator's script checks will say; it checks lock times that the miner does not. */
  predicate ScriptsPass(s: Sources, tx: Tx) {
    forall i :: 0 <= i < |tx.vin| ==>
      var prev := Origin(s, tx.vin[i].prevout.hash);
      prev.Some? && s.env.scriptOk(tx, i, prev.value, BlockFlags(tx.time))
  }

  // The miner's index and the validator's

  /** The same outputs are unspent, and the same transactions are found, though at other positions. */
  ghost predicate Matches(s: Sources, u: Tree, w: Db, v: Db, x: Hash)
    requires x in w
  {
    && x in v && |v[x].spent| == |w[x].spent|
    && (forall n :: 0 <= n < |w[x].spent| ==> (v[x].spent[n].IsNull() <==> w[x].spent[n].IsNull()))
    && (PrevOf(s, w, x).Some? ==> v[x].pos in u.disk && u.disk[v[x].pos] == PrevOf(s, w, x).value)
    && (if w[x].pos == MEMORY_POS then x !in s.db && x in s.pool && !s.pool[x].IsCoinBase() && !s.pool[x].IsCoinStake()
        else x in s.db && v[x].pos == w[x].pos == s.db[x].pos)
  }

  ghost predicate Simulates(s: Sources, u: Tree, w: Db, v: Db) {
    forall x {:trigger Matches(s, u, w, v, x)} :: x in w ==> Matches(s, u, w, v, x)
  }

  lemma MatchFetched(s: Sources, u: Tree, w: Db, v: Db, o: OutPoint)
    requires Simulates(s, u, w, v) && Fetched(s, w, o)
    ensures Fetchable(u.disk, v, o) && PrevTx(u.disk, v, o) == PrevOf(s, w, o.hash).value
    ensures Origin(s, o.hash) == PrevOf(s, w, o.hash)
  {
    assert Matches(s, u, w, v, o.hash);
  }

  lemma {:induction false} SameValueIn(s: Sources, u: Tree, w: Db, v: Db, ins: seq<OutPoint>)
    requires Simulates(s, u, w, v) && AllFetched(s, w, ins)
    ensures AllFetchable(u.disk, v, ins) && ValueIn(u.disk, v, ins) == PoolValueIn(s, w, ins)
    ensures PrevTxs(u.disk, v, ins) == Previous(s, w, ins)
  {
    forall i | 0 <= i < |ins|
      ensures Fetchable(u.disk, v, ins[i]) && PrevTx(u.disk, v, ins[i]) == PrevOf(s, w, ins[i].hash).value
    {
      MatchFetched(s, u, w, v, ins[i]);
    }
    if ins != [] { SameValueIn(s, u, w, v, ins[..|ins| - 1]); }
  }

  /** What is mature for the miner is mature for the new block. */
  lemma {:induction false} StillMature(t: Tree, u: Tree, x: Hash, top: nat, pos: DiskTxPos)
    requires Linked(t) && Linked(u) && Extends(t, u) && x in t.nodes && InRecentBlock(u, x, top + 1, pos)
    ensures InRecentBlock(t, x, top, pos)
    decreases Height(t, x)
  {
    assert u.nodes[x] == t.nodes[x];
    if !InBlock(t, x, pos) {
      assert Parent(u, x) == Parent(t, x);
      StillMature(t, u, Parent(t, x), top, pos);
    }
  }

  lemma InputStaysAllowed(s: Sources, u: Tree, h: Hash, cb: Tx, txs: seq<Tx>, w: Db, v: Db, tx: Tx, i: nat)
    requires OnTop(s, u, h, cb, txs) && Simulates(s, u, w, v) && i < |tx.vin|
    requires AllFetched(s, w, Points(tx.vin)) && AllFetchable(u.disk, v, Points(tx.vin)) && InputAllowed(s, w, tx, i)
    ensures CheapInputOk(u, h, v, tx, i)
    ensures Origin(s, tx.vin[i].prevout.hash).Some?
    ensures ScriptOkAt(s.env, u.disk, v, tx, i) <==>
              s.env.scriptOk(tx, i, Origin(s, tx.vin[i].prevout.hash).value, BlockFlags(tx.time))
  {
    var ins := Points(tx.vin);
    OnTopFacts(s, u, h, cb, txs, 0);
    MatchFetched(s, u, w, v, ins[i]);
    SameValueIn(s, u, w, v, ins[..i + 1]);
    assert Matches(s, u, w, v, ins[i].hash);
    var prev, pos := PrevOf(s, w, ins[i].hash).value, v[ins[i].hash].pos;
    if (prev.IsCoinBase() || prev.IsCoinStake()) && Immature(u, h, pos) {
      assert !InBlock(u, h, pos);
      StillMature(s.t, u, s.best, Height(s.t, s.best), pos);
    }
  }

  // Marking inputs and adding entries on both sides

  lemma SpendBoth(s: Sources, u: Tree, w: Db, v: Db, ins: seq<OutPoint>, mark: DiskTxPos)
    requires Simulates(s, u, w, v) && Spend(w, ins, MEMORY_POS).Some? && !mark.IsNull()
    ensures Spend(v, ins, mark).Some? && Simulates(s, u, Spend(w, ins, MEMORY_POS).value, Spend(v, ins, mark).value)
  {
    SpendMarks(w, ins, MEMORY_POS);
    forall o | o in ins ensures Unspent(v, o) {
      assert Unspent(w, o);
      assert Matches(s, u, w, v, o.hash);
    }
    SpendSucceeds(v, ins, mark);
    SpendMarks(v, ins, mark);
    var w1, v1 := Spend(w, ins, MEMORY_POS).value, Spend(v, ins, mark).value;
    hide Spend;
    forall x | x in w1 ensures Matches(s, u, w1, v1, x) { MarkedMatches(s, u, w, v, w1, v1, ins, mark, x); }
  }

  lemma MarkedMatches(s: Sources, u: Tree, w: Db, v: Db, w1: Db, v1: Db, ins: seq<OutPoint>, mark: DiskTxPos, x: Hash)
    requires x in w && Matches(s, u, w, v, x) && !mark.IsNull()
    requires Marked(w, w1, ins, MEMORY_POS) && Marked(v, v1, ins, mark)
    ensures x in w1 && Matches(s, u, w1, v1, x)
  {
    assert w1[x].pos == w[x].pos && v1[x].pos == v[x].pos;
    forall n | 0 <= n < |w1[x].spent| ensures v1[x].spent[n].IsNull() <==> w1[x].spent[n].IsNull() {
      assert w1[x].spent[n] == if OutPoint(x, n) in ins then MEMORY_POS else w[x].spent[n];
      assert v1[x].spent[n] == if OutPoint(x, n) in ins then mark else v[x].spent[n];
    }
  }

  lemma AddBoth(s: Sources, u: Tree, w: Db, v: Db, tx: Tx, pos: DiskTxPos)
    requires Simulates(s, u, w, v) && tx.hash in s.pool && s.pool[tx.hash] == tx && !tx.IsCoinBase() &&
             !tx.IsCoinStake()
    requires tx.hash !in s.db && pos in u.disk && u.disk[pos] == tx
    ensures Simulates(s, u, w[tx.hash := NewIndex(MEMORY_POS, |tx.vout|)], v[tx.hash := NewIndex(pos, |tx.vout|)])
  {
    var w1, v1 := w[tx.hash := NewIndex(MEMORY_POS, |tx.vout|)], v[tx.hash := NewIndex(pos, |tx.vout|)];
    forall x | x in w1 ensures Matches(s, u, w1, v1, x) {
      if x != tx.hash { assert Matches(s, u, w, v, x); }
    }
  }

  lemma AddUnrelated(s: Sources, u: Tree, w: Db, v: Db, h: Hash, e: TxIndex)
    requires Simulates(s, u, w, v) && h !in w
    ensures Simulates(s, u, w, v[h := e])
  {
    forall x | x in w ensures Matches(s, u, w, v[h := e], x) { assert Matches(s, u, w, v, x); }
  }

  lemma StartSimulates(s: Sources, u: Tree, h: Hash, cb: Tx, txs: seq<Tx>)
    requires OnTop(s, u, h, cb, txs)
    ensures Simulates(s, u, s.db, s.db)
  {
    forall x | x in s.db ensures Matches(s, u, s.db, s.db, x) {}
  }

  // One transaction after the other

  /** How far the validator is when it has connected the coinbase and the draft's transactions. */
  ghost predicate Follows(s: Sources, u: Tree, d: Draft, acc: Totals) {
    Simulates(s, u, d.w, acc.w) && acc.fees == d.fees && acc.sigOps <= d.sigOps
  }

  lemma StepConnects(s: Sources, u: Tree, h: Hash, cb: Tx, txs: seq<Tx>, lim: Limits, d: Draft, acc: Totals, i: nat)
    requires OnTop(s, u, h, cb, txs) && Usable(s, cb, txs) && i < |txs|
    requires Follows(s, u, d, acc) && Added(s, lim, d, txs[i]).Some?
    ensures var r := ConnectTx(u, h, s.env, s.db, acc, i + 1);
            && (r.Some? <==> Height(u, h) < CHECKPOINT_HEIGHT || ScriptsPass(s, txs[i]))
            && (r.Some? ==> Follows(s, u, Added(s, lim, d, txs[i]).value, r.value))
  {
    var tx, pos, ins := txs[i], TxPos(u.nodes[h], i + 1), Points(txs[i].vin);
    StepChecks(s, u, h, cb, txs, lim, d, acc, i);
    StepIndex(s, u, h, cb, txs, lim, d, acc, i);
    assert u.nodes[h].block.vtx[i + 1] == tx && tx.hash !in s.db;
    hide Spend, AllFetched, AllFetchable, Simulates, InputsOk, OnTop, ValueIn, PoolValueIn, GetMinFee, ScriptsPass,
         InputsAllowed, Usable;
  }

  /** Everything but the flags of the script checks is as the miner saw it. */
  lemma StepChecks(s: Sources, u: Tree, h: Hash, cb: Tx, txs: seq<Tx>, lim: Limits, d: Draft, acc: Totals, i: nat)
    requires OnTop(s, u, h, cb, txs) && Usable(s, cb, txs) && i < |txs|
    requires Follows(s, u, d, acc) && Added(s, lim, d, txs[i]).Some?
    ensures var tx, ins := txs[i], Points(txs[i].vin);
            && AllFetched(s, d.w, ins) && AllFetchable(u.disk, acc.w, ins) && !tx.IsCoinBase() && !tx.IsCoinStake()
            && ValueIn(u.disk, acc.w, ins) == PoolValueIn(s, d.w, ins)
            && PrevTxs(u.disk, acc.w, ins) == Previous(s, d.w, ins)
            && (InputsOk(u, h, s.env, s.db, acc.w, tx) <==> Height(u, h) < CHECKPOINT_HEIGHT || ScriptsPass(s, tx))
  {
    assert Linked(u) && h in u.nodes;
    hide Added, Spend, Usable, OnTop, Simulates, ScriptsPass, InputsOk;
    var tx, ins := txs[i], Points(txs[i].vin);
    AddedIndex(s, lim, d, tx);
    ScriptsPassByInput(s, u, h, cb, txs, d.w, acc.w, tx);
    SameValueIn(s, u, d.w, acc.w, ins);
    ChosenAt(s, cb, txs, i);
  }

  lemma ScriptsPassByInput(s: Sources, u: Tree, h: Hash, cb: Tx, txs: seq<Tx>, w: Db, v: Db, tx: Tx)
    requires OnTop(s, u, h, cb, txs) && Simulates(s, u, w, v)
    requires AllFetched(s, w, Points(tx.vin)) && InputsAllowed(s, w, tx)
    ensures AllFetchable(u.disk, v, Points(tx.vin))
    ensures ScriptsOk(s.env, u.disk, v, tx, Height(u, h)) <==> Height(u, h) < CHECKPOINT_HEIGHT || ScriptsPass(s, tx)
    ensures forall k :: 0 <= k < |tx.vin| ==> CheapInputOk(u, h, v, tx, k)
  {
    SameValueIn(s, u, w, v, Points(tx.vin));
    forall k | 0 <= k < |tx.vin|
      ensures CheapInputOk(u, h, v, tx, k) && Origin(s, tx.vin[k].prevout.hash).Some?
      ensures ScriptOkAt(s.env, u.disk, v, tx, k) <==>
                s.env.scriptOk(tx, k, Origin(s, tx.vin[k].prevout.hash).value, BlockFlags(tx.time))
    {
      InputStaysAllowed(s, u, h, cb, txs, w, v, tx, k);
    }
    hide AllFetched, AllFetchable, Simulates, CheapInputOk, ScriptOkAt, OnTop, ValueIn, PoolValueIn, Origin;
  }

  lemma ChosenAt(s: Sources, cb: Tx, txs: seq<Tx>, i: nat)
    requires Usable(s, cb, txs) && i < |txs|
    ensures var tx := txs[i];
            !tx.IsCoinBase() && !tx.IsCoinStake() && tx.hash in s.pool && s.pool[tx.hash] == tx && tx.hash !in s.db
  {
  }

  lemma StepIndex(s: Sources, u: Tree, h: Hash, cb: Tx, txs: seq<Tx>, lim: Limits, d: Draft, acc: Totals, i: nat)
    requires OnTop(s, u, h, cb, txs) && Usable(s, cb, txs) && i < |txs|
    requires Follows(s, u, d, acc) && Added(s, lim, d, txs[i]).Some?
    ensures var tx, pos, ins := txs[i], TxPos(u.nodes[h], i + 1), Points(txs[i].vin);
            var spent := Spend(acc.w, ins, pos);
            && spent.Some?
            && Simulates(s, u, Added(s, lim, d, tx).value.w, spent.value[tx.hash := NewIndex(pos, |tx.vout|)])
  {
    var tx, pos, ins := txs[i], TxPos(u.nodes[h], i + 1), Points(txs[i].vin);
    OnTopFacts(s, u, h, cb, txs, i + 1);
    assert u.nodes[h].block.vtx[i + 1] == tx;
    ChosenAt(s, cb, txs, i);
    hide OnTop, Usable, CheckBlock, HeightScript;
    AddedIndex(s, lim, d, tx);
    hide Added, Spend, InputsAllowed;
    SpendBoth(s, u, d.w, acc.w, ins, pos);
    AddBoth(s, u, Spend(d.w, ins, MEMORY_POS).value, Spend(acc.w, ins, pos).value, tx, pos);
  }

  lemma CoinbaseConnects(s: Sources, u: Tree, h: Hash, cb: Tx, txs: seq<Tx>)
    requires OnTop(s, u, h, cb, txs) && Usable(s, cb, txs)
    ensures var r := ConnectTxs(u, h, s.env, s.db, 1); r.Some? && Follows(s, u, Start(s), r.value)
  {
    assert u.nodes[h].block.vtx[0] == cb;
    assert ConnectTxs(u, h, s.env, s.db, 0) == Some(Totals(s.db, 0, 0, 0, 0));
    StartSimulates(s, u, h, cb, txs);
    AddUnrelated(s, u, s.db, s.db, cb.hash, NewIndex(TxPos(u.nodes[h], 0), |cb.vout|));
  }

  ghost predicate AllScriptsPass(s: Sources, txs: seq<Tx>) {
    forall i :: 0 <= i < |txs| ==> ScriptsPass(s, txs[i])
  }

  lemma AllScriptsPassStep(s: Sources, txs: seq<Tx>, n: nat)
    requires n < |txs|
    ensures AllScriptsPass(s, txs[..n + 1]) <==> AllScriptsPass(s, txs[..n]) && ScriptsPass(s, txs[n])
  {
    hide ScriptsPass;
    assert forall i :: 0 <= i < n ==> txs[..n + 1][i] == txs[..n][i];
    assert txs[..n + 1][n] == txs[n];
  }

  lemma {:induction false} DraftConnects(s: Sources, u: Tree, h: Hash, cb: Tx, txs: seq<Tx>, lim: Limits, n: nat)
    requires OnTop(s, u, h, cb, txs) && Usable(s, cb, txs) && n <= |txs| && Built(s, lim, txs[..n]).Some?
    ensures var r := ConnectTxs(u, h, s.env, s.db, n + 1);
            && (r.Some? <==> Height(u, h) < CHECKPOINT_HEIGHT || AllScriptsPass(s, txs[..n]))
            && (r.Some? ==> Follows(s, u, Built(s, lim, txs[..n]).value, r.value))
  {
    assert |u.nodes[h].block.vtx| == |txs| + 1;
    hide OnTop, Usable, Added, ConnectTx, Follows, ScriptsPass, Built, AllScriptsPass;
    if n == 0 {
      CoinbaseConnects(s, u, h, cb, txs);
      EmptyDraft(s, lim);
    } else {
      var upto := txs[..n];
      assert upto[..n - 1] == txs[..n - 1] && upto[n - 1] == txs[n - 1];
      Last(s, lim, upto);
      DraftConnects(s, u, h, cb, txs, lim, n - 1);
      AllScriptsPassStep(s, txs, n - 1);
      if ConnectTxs(u, h, s.env, s.db, n).Some? {
        var d, acc := Built(s, lim, txs[..n - 1]).value, ConnectTxs(u, h, s.env, s.db, n).value;
        StepConnects(s, u, h, cb, txs, lim, d, acc, n - 1);
      }
    }
  }

  lemma EmptyDraft(s: Sources, lim: Limits)
    requires Ready(s)
    ensures Built(s, lim, []) == Some(Start(s)) && AllScriptsPass(s, [])
  {
  }

  /**
   * The block of a draft connects to the index it was drafted over exactly if it lies below the last
   * hardened checkpoint or its scripts also pass with the flags of a block. Its coinbase of reward
   * and fees then passes the reward check: the validator arrives at the same fees.
   */
  lemma MinedBlockConnects(s: Sources, u: Tree, h: Hash, cb: Tx, txs: seq<Tx>, lim: Limits)
    requires OnTop(s, u, h, cb, txs) && PoolKnown(s) && Chosen(s, txs) && Built(s, lim, txs).Some? && s.env.headerOk(h)
    requires cb.ValueOut() == Rewards.PowReward(u.nodes[h].block.bits) + Built(s, lim, txs).value.fees
    ensures var r := ConnectResult(u, h, s.env, s.db);
            && (r.Some? <==> Height(u, h) < CHECKPOINT_HEIGHT || AllScriptsPass(s, txs))
            && (r.Some? ==> r.value.fees == Built(s, lim, txs).value.fees)
  {
    assert txs[..|txs|] == txs && u.nodes[h].block.vtx[0] == cb && |u.nodes[h].block.vtx| == |txs| + 1;
    hide Built, Rewards.PowReward, ConnectTxs, CheckBlock, AllScriptsPass, OnTop, PoolKnown, Chosen, Usable,
         HeightScript, Linked, Simulates, InTree, ConnectResult;
    DraftIsUsable(s, u, h, cb, txs, lim);
    OnTopFacts(s, u, h, cb, txs, 0);
    DraftConnects(s, u, h, cb, txs, lim, |txs|);
    WorkBlock(s, u, h, cb, txs);
    PaidInFull(u, h, s.env, s.db, Built(s, lim, txs).value.fees);
  }

  lemma WorkBlock(s: Sources, u: Tree, h: Hash, cb: Tx, txs: seq<Tx>)
    requires OnTop(s, u, h, cb, txs) && Usable(s, cb, txs)
    ensures !u.nodes[h].block.IsProofOfStake()
  {
    if txs != [] {
      ChosenAt(s, cb, txs, 0);
      assert u.nodes[h].block.vtx[1] == txs[0];
    }
  }

  /** A coinbase of reward and fees passes the reward check. */
  lemma PaidInFull(u: Tree, h: Hash, env: Env, db: Db, fees: int)
    requires Linked(u) && h in u.nodes && CheckBlock(u.nodes[h].block, true) && env.headerOk(h)
    requires var b := u.nodes[h].block; !b.IsProofOfStake() && b.vtx[0].ValueOut() == Rewards.PowReward(b.bits) + fees
    requires var r := ConnectTxs(u, h, env, db, |u.nodes[h].block.vtx|); r.Some? ==> r.value.fees == fees
    ensures ConnectResult(u, h, env, db) == ConnectTxs(u, h, env, db, |u.nodes[h].block.vtx|)
  {
    assert u.nodes[h].block.vtx != [];
    hide ConnectTxs, Rewards.PowReward, CheckBlock;
  }

  /** A draft finds the transactions that inputs refer to where they came from. */
  lemma {:induction false} DraftOrigins(s: Sources, lim: Limits, txs: seq<Tx>)
    requires Ready(s) && OwnIds(s, txs) && Chosen(s, txs) && Built(s, lim, txs).Some?
    requires forall x :: x in s.db ==> s.db[x].pos != MEMORY_POS
    ensures forall x :: x in Built(s, lim, txs).value.w ==> PrevOf(s, Built(s, lim, txs).value.w, x) == Origin(s, x)
  {
    if txs != [] {
      hide Added;
      var rest, tx := txs[..|txs| - 1], txs[|txs| - 1];
      Last(s, lim, txs);
      DraftOrigins(s, lim, rest);
      var d := Built(s, lim, rest).value;
      AddedIndex(s, lim, d, tx);
      SameShape(d.w, Points(tx.vin), MEMORY_POS);
      hide Spend, Built;
      forall x | x in Built(s, lim, txs).value.w ensures PrevOf(s, Built(s, lim, txs).value.w, x) == Origin(s, x) {
        if x != tx.hash { assert PrevOf(s, d.w, x) == Origin(s, x); }
      }
    }
  }

  lemma DraftedScriptsPass(s: Sources, u: Tree, h: Hash, cb: Tx, txs: seq<Tx>, lim: Limits, i: nat)
    requires OnTop(s, u, h, cb, txs) && Usable(s, cb, txs) && Built(s, lim, txs).Some? && i < |txs|
    requires txs[i].time < CHECKLOCKTIMEVERIFY_SWITCH_TIME
    ensures ScriptsPass(s, txs[i])
  {
    hide Added, Spend;
    var upto, tx := txs[..i + 1], txs[i];
    assert upto[..i] == txs[..i] && upto[i] == tx;
    Prefix(s, lim, txs, i + 1);
    Last(s, lim, upto);
    hide Built;
    var d := Built(s, lim, txs[..i]).value;
    DraftOrigins(s, lim, txs[..i]);
    AddedIndex(s, lim, d, tx);
    hide OnTop, Usable, PrevOf;
    forall k | 0 <= k < |tx.vin|
      ensures var prev := Origin(s, tx.vin[k].prevout.hash);
              prev.Some? && s.env.scriptOk(tx, k, prev.value, BlockFlags(tx.time))
    {
      assert Fetched(s, d.w, Points(tx.vin)[k]) && InputAllowed(s, d.w, tx, k);
    }
  }

  /** Before the first of the two switch times both sides use the same flags, and every draft connects. */
  lemma EarlyDraftConnects(s: Sources, u: Tree, h: Hash, cb: Tx, txs: seq<Tx>, lim: Limits)
    requires OnTop(s, u, h, cb, txs) && PoolKnown(s) && Chosen(s, txs) && Built(s, lim, txs).Some? && s.env.headerOk(h)
    requires cb.ValueOut() == Rewards.PowReward(u.nodes[h].block.bits) + Built(s, lim, txs).value.fees
    requires forall i :: 0 <= i < |txs| ==> txs[i].time < CHECKLOCKTIMEVERIFY_SWITCH_TIME
    ensures ConnectResult(u, h, s.env, s.db).Some?
  {
    DraftIsUsable(s, u, h, cb, txs, lim);
    forall i | 0 <= i < |txs| ensures ScriptsPass(s, txs[i]) {
      DraftedScriptsPass(s, u, h, cb, txs, lim, i);
    }
    hide Built, ConnectResult, Rewards.PowReward;
    MinedBlockConnects(s, u, h, cb, txs, lim);
  }
}
