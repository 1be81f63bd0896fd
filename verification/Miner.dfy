/**
 * How a block is put together from the memory pool (CreateNewBlock, src/miner.cpp). Priorities are
 * floating-point policy: which queued transaction comes next, and whether policy skips it, is arbitrary.
 */
module Miner {
  import opened Common
  import opened Transactions
  import opened TxDb
  import opened BlockTree
  import opened Connect
  import opened Replay
  import opened Undo
  import opened MedianTime
  import Retarget
  import Rewards

  /** Stands for a transaction that is still in memory. */
  const MEMORY_POS := DiskTxPos(1, 1, 1)

  const RESERVED_SIZE: nat := 1000
  const RESERVED_SIG_OPS: nat := 100

  /** What the miner reads: the tree with its best block, the memory pool and the transaction index. */
  datatype Sources = Sources(t: Tree, best: Hash, pool: map<Hash, Tx>, db: Db, env: Env)

  /** The size the miner is willing to fill, and the latest time of a transaction. */
  datatype Limits = Limits(maxSize: nat, time: nat)

  ghost predicate Ready(s: Sources) { Linked(s.t) && s.best in s.t.nodes }

  // Reading inputs through the test pool

  function PrevOf(s: Sources, w: Db, h: Hash): Option<Tx> {
    if h !in w then None
    else if w[h].pos == MEMORY_POS then if h in s.pool then Some(s.pool[h]) else None
    else if w[h].pos in s.t.disk then Some(s.t.disk[w[h].pos]) else None
  }

  predicate Fetched(s: Sources, w: Db, o: OutPoint) {
    var prev := PrevOf(s, w, o.hash);
    prev.Some? && o.n < |prev.value.vout| && o.n < |w[o.hash].spent|
  }

  predicate AllFetched(s: Sources, w: Db, ins: seq<OutPoint>) {
    forall i :: 0 <= i < |ins| ==> Fetched(s, w, ins[i])
  }

  function Previous(s: Sources, w: Db, ins: seq<OutPoint>): (r: seq<Tx>)
    requires AllFetched(s, w, ins)
    ensures |r| == |ins|
  {
    seq(|ins|, i requires 0 <= i < |ins| => PrevOf(s, w, ins[i].hash).value)
  }

  function PoolValueIn(s: Sources, w: Db, ins: seq<OutPoint>): int
    requires AllFetched(s, w, ins)
  {
    if ins == [] then 0
    else
      var o := ins[|ins| - 1];
      PoolValueIn(s, w, ins[..|ins| - 1]) + PrevOf(s, w, o.hash).value.vout[o.n].value
  }

  /** The checks of ConnectInputs on one input, made for the block after the best one. */
  predicate InputAllowed(s: Sources, w: Db, tx: Tx, i: nat)
    requires Ready(s) && i < |tx.vin| && AllFetched(s, w, Points(tx.vin))
  {
    var ins := Points(tx.vin);
    var prev := PrevOf(s, w, ins[i].hash).value;
    && (prev.IsCoinBase() || prev.IsCoinStake() ==> !Immature(s.t, s.best, w[ins[i].hash].pos))
    && prev.time <= tx.time
    && MoneyRange(prev.vout[ins[i].n].value)
    && MoneyRange(PoolValueIn(s, w, ins[..i + 1]))
    && s.env.scriptOk(tx, i, prev, MANDATORY_FLAGS)
  }

  predicate InputsAllowed(s: Sources, w: Db, tx: Tx)
    requires Ready(s) && AllFetched(s, w, Points(tx.vin))
  {
    var valueIn := PoolValueIn(s, w, Points(tx.vin));
    && (forall i :: 0 <= i < |tx.vin| ==> InputAllowed(s, w, tx, i))
    && valueIn >= tx.ValueOut() && MoneyRange(valueIn - tx.ValueOut())
  }

  // Adding a transaction

  /** The block so far: the index with the test pool over it, the transactions and the totals. */
  datatype Draft = Draft(w: Db, txs: seq<Tx>, size: nat, sigOps: nat, fees: int)

  function Start(s: Sources): Draft { Draft(s.db, [], RESERVED_SIZE, RESERVED_SIG_OPS, 0) }

  /** The draft with one transaction more, if everything but policy admits it. */
  function Added(s: Sources, lim: Limits, d: Draft, tx: Tx): Option<Draft>
    requires Ready(s)
  {
    var ins := Points(tx.vin);
    if d.size + tx.size >= lim.maxSize || d.sigOps + tx.sigOps >= MAX_BLOCK_SIGOPS || tx.time > lim.time then None
    else if !AllFetched(s, d.w, ins) then None
    else
      var fees := PoolValueIn(s, d.w, ins) - tx.ValueOut();
      var sigOps := d.sigOps + tx.sigOps + s.env.p2shSigOps(tx, Previous(s, d.w, ins));
      if fees < GetMinFee(tx, d.size, true, GMF_BLOCK, tx.size) || sigOps >= MAX_BLOCK_SIGOPS then None
      else if !InputsAllowed(s, d.w, tx) then None
      else
        var w :- Spend(d.w, ins, MEMORY_POS);
        Some(Draft(w[tx.hash := NewIndex(MEMORY_POS, |tx.vout|)], d.txs + [tx], d.size + tx.size, sigOps,
            d.fees + fees))
  }

  function Built(s: Sources, lim: Limits, txs: seq<Tx>): Option<Draft>
    requires Ready(s)
  {
    if txs == [] then Some(Start(s))
    else
      var before :- Built(s, lim, txs[..|txs| - 1]);
      Added(s, lim, before, txs[|txs| - 1])
  }

  // Dependencies

  predicate Readable(s: Sources, o: OutPoint) {
    o.hash in s.db && s.db[o.hash].pos in s.t.disk && o.n < |s.t.disk[s.db[o.hash].pos].vout|
  }

  /** The transactions of the pool that one has to wait for. */
  function Deps(s: Sources, tx: Tx): set<Hash> {
    set i | 0 <= i < |tx.vin| && !Readable(s, tx.vin[i].prevout) :: tx.vin[i].prevout.hash
  }

  /**
   * The pool is keyed by id. A transaction with an absent input is dropped when that input is met; if
   * it waits for another one by then, the source keeps a pointer to the record it has just deleted.
   */
  ghost predicate PoolSound(s: Sources) {
    forall h :: h in s.pool ==> s.pool[h].hash == h && AbsentFirst(s, s.pool[h])
  }

  ghost predicate AbsentFirst(s: Sources, tx: Tx) {
    Missing(s, tx) ==>
      forall i :: 0 <= i < |tx.vin| && !Readable(s, tx.vin[i].prevout) && tx.vin[i].prevout.hash in s.pool ==>
        exists k :: 0 <= k < i && Absent(s, tx.vin[k].prevout)
  }

  /** An input that is neither in the index nor in the pool. */
  predicate Absent(s: Sources, o: OutPoint) { !Readable(s, o) && o.hash !in s.pool }

  predicate Missing(s: Sources, tx: Tx) { exists i :: 0 <= i < |tx.vin| && Absent(s, tx.vin[i].prevout) }

  predicate Eligible(s: Sources, tx: Tx, final: Tx -> bool) {
    !tx.IsCoinBase() && !tx.IsCoinStake() && final(tx) && !Missing(s, tx)
  }

  type Dependers = map<Hash, seq<Hash>>

  ghost predicate Listed(s: Sources, waiting: map<Hash, set<Hash>>, dependers: Dependers) {
    && (forall h, p :: h in waiting && h in s.pool && p in Deps(s, s.pool[h]) ==> p in dependers && h in dependers[p])
    && (forall p, h :: p in dependers && h in dependers[p] ==> h in waiting)
  }

  /** The loop over the inputs of one transaction. */
  method FindDependencies(s: Sources, tx: Tx, start: Dependers)
    returns (missing: bool, deps: set<Hash>, dependers: Dependers)
    requires tx.hash in s.pool && AbsentFirst(s, tx)
    ensures missing <==> Missing(s, tx)
    ensures missing ==> dependers == start
    ensures !missing ==> deps == Deps(s, tx)
    ensures !missing ==> Lists(start, dependers, tx.hash, deps)
  {
    missing, deps, dependers := false, {}, start;
    var i := 0;
    while i < |tx.vin|
      invariant 0 <= i <= |tx.vin| && forall j :: 0 <= j < i ==> !Absent(s, tx.vin[j].prevout)
      invariant deps == set j | 0 <= j < i && !Readable(s, tx.vin[j].prevout) :: tx.vin[j].prevout.hash
      invariant Lists(start, dependers, tx.hash, deps) && (deps == {} ==> dependers == start)
    {
      var o := tx.vin[i].prevout;
      if !Readable(s, o) {
        if o.hash !in s.pool {
          assert Absent(s, tx.vin[i].prevout);
          NoneWaits(s, tx, i, deps);
          missing := true;
          break;
        }
        var already := if o.hash in dependers then dependers[o.hash] else [];
        dependers := dependers[o.hash := already + [tx.hash]];
        deps := deps + {o.hash};
      }
      i := i + 1;
    }
  }

  /** `after` lists `h` once more under each of `deps`, and is otherwise as before. */
  ghost predicate Lists(before: Dependers, after: Dependers, h: Hash, deps: set<Hash>) {
    && (forall p :: p in before ==> p in after)
    && (forall p :: p in after ==>
          forall x :: x in after[p] <==> (p in before && x in before[p]) || (x == h && p in deps))
    && (forall p :: p in deps ==> p in after && h in after[p])
  }

  lemma NoneWaits(s: Sources, tx: Tx, i: nat, deps: set<Hash>)
    requires i < |tx.vin| && AbsentFirst(s, tx) && Absent(s, tx.vin[i].prevout)
    requires forall j :: 0 <= j < i ==> !Absent(s, tx.vin[j].prevout)
    requires deps == set j | 0 <= j < i && !Readable(s, tx.vin[j].prevout) :: tx.vin[j].prevout.hash
    ensures deps == {} && Missing(s, tx)
  {
    forall j | 0 <= j < i ensures Readable(s, tx.vin[j].prevout) {
      assert !Absent(s, tx.vin[j].prevout);
    }
  }

  /** The eligible transactions outside `left` have been sorted into the queue and the waiting ones. */
  ghost predicate Divided(s: Sources, final: Tx -> bool, left: set<Hash>, queue: set<Hash>,
                          waiting: map<Hash, set<Hash>>) {
    && queue !! waiting.Keys
    && (forall h :: h in queue || h in waiting <==> h in s.pool && Eligible(s, s.pool[h], final) && h !in left)
    && (forall h :: h in queue ==> Deps(s, s.pool[h]) == {})
    && (forall h :: h in waiting ==> h in s.pool && waiting[h] == Deps(s, s.pool[h]) != {})
  }

  /** The first loop: transactions that can go at once are queued, the others wait. */
  method CollectPool(s: Sources, final: Tx -> bool)
    returns (queue: set<Hash>, waiting: map<Hash, set<Hash>>, dependers: Dependers)
    requires PoolSound(s)
    ensures Divided(s, final, {}, queue, waiting) && Listed(s, waiting, dependers)
  {
    queue, waiting, dependers := {}, map[], map[];
    var left := s.pool.Keys;
    while left != {}
      invariant left <= s.pool.Keys && Divided(s, final, left, queue, waiting) && Listed(s, waiting, dependers)
      decreases |left|
    {
      ghost var some := Any(left);
      assert some in left;
      var h :| h in left;
      var tx := s.pool[h];
      hide Deps, Listed, Lists, Missing, AbsentFirst;
      if !tx.IsCoinBase() && !tx.IsCoinStake() && final(tx) {
        assert tx.hash == h && AbsentFirst(s, tx);
        var missing, deps, more := FindDependencies(s, tx, dependers);
        if !missing {
          if deps == {} {
            ListedSame(s, waiting, dependers, h, more);
            queue := queue + {h};
          } else {
            ListedMore(s, waiting, dependers, h, deps, more);
            waiting := waiting[h := deps];
          }
          dependers := more;
        }
      }
      left := left - {h};
    }
  }

  lemma ListedSame(s: Sources, waiting: map<Hash, set<Hash>>, before: Dependers, x: Hash, after: Dependers)
    requires Listed(s, waiting, before) && Lists(before, after, x, {})
    ensures Listed(s, waiting, after)
  {
    hide Deps;
  }

  lemma ListedMore(s: Sources, waiting: map<Hash, set<Hash>>, before: Dependers, x: Hash, deps: set<Hash>,
                   after: Dependers)
    requires Listed(s, waiting, before) && x in s.pool && deps == Deps(s, s.pool[x]) && Lists(before, after, x, deps)
    ensures Listed(s, waiting[x := deps], after)
  {
    hide Deps;
  }

  function Ids(txs: seq<Tx>): set<Hash> { set i | 0 <= i < |txs| :: txs[i].hash }

  lemma IdsMore(txs: seq<Tx>, tx: Tx)
    ensures Ids(txs + [tx]) == Ids(txs) + {tx.hash}
  {
    var more := txs + [tx];
    forall x | x in Ids(more) ensures x in Ids(txs) + {tx.hash} {
      var i :| 0 <= i < |more| && more[i].hash == x;
      if i < |txs| { assert txs[i].hash == x; }
    }
    forall x | x in Ids(txs) ensures x in Ids(more) {
      var i :| 0 <= i < |txs| && txs[i].hash == x;
      assert more[i].hash == x;
    }
    assert more[|txs|].hash == tx.hash;
  }

  /** What each waiting transaction still waits for. */
  ghost predicate Waits(s: Sources, waiting: map<Hash, set<Hash>>, selected: set<Hash>) {
    forall h :: h in waiting ==> h in s.pool && waiting[h] == Deps(s, s.pool[h]) - selected
  }

  /** Transactions that depend on the one just added may become free; each is queued once. */
  method Release(s: Sources, waiting: map<Hash, set<Hash>>, dependers: Dependers, queue: set<Hash>, hash: Hash,
                 ghost selected: set<Hash>)
    returns (waiting': map<Hash, set<Hash>>, queue': set<Hash>)
    requires Listed(s, waiting, dependers) && Waits(s, waiting, selected)
    ensures waiting'.Keys == waiting.Keys && Waits(s, waiting', selected + {hash})
    ensures queue' == queue + (set h | h in waiting && waiting[h] != {} && waiting'[h] == {})
  {
    waiting', queue' := waiting, queue;
    var list := if hash in dependers then dependers[hash] else [];
    var i := 0;
    while i < |list|
      invariant 0 <= i <= |list| && waiting'.Keys == waiting.Keys
      invariant forall h :: h in waiting ==> waiting'[h] == if h in list[..i] then waiting[h] - {hash} else waiting[h]
      invariant queue' == queue + (set h | h in waiting && waiting[h] != {} && waiting'[h] == {})
    {
      var h := list[i];
      assert list[..i + 1] == list[..i] + [h];
      if waiting'[h] != {} {
        waiting' := waiting'[h := waiting'[h] - {hash}];
        if waiting'[h] == {} { queue' := queue' + {h}; }
      }
      i := i + 1;
    }
    assert list[..i] == list;
    forall h | h in waiting' ensures h in s.pool && waiting'[h] == Deps(s, s.pool[h]) - (selected + {hash}) {
      if h !in list { assert hash !in Deps(s, s.pool[h]); }
    }
  }

  /** Free to go: not waiting in the beginning, or for nothing any more. */
  ghost predicate Freed(first: set<Hash>, waiting: map<Hash, set<Hash>>, h: Hash) {
    h in first || (h in waiting && waiting[h] == {})
  }

  ghost predicate FromPool(s: Sources, final: Tx -> bool, txs: seq<Tx>, considered: set<Hash>) {
    && (forall i :: 0 <= i < |txs| ==>
        txs[i].hash in considered && txs[i].hash in s.pool && s.pool[txs[i].hash] == txs[i])
    && (forall i :: 0 <= i < |txs| ==> Eligible(s, txs[i], final))
    && (forall i, j :: 0 <= i < j < |txs| ==> txs[i].hash != txs[j].hash)
  }

  /**
   * The selection loop. Every transaction is considered at most once, and exactly those are whose
   * dependencies have all been selected.
   */
  method SelectTransactions(s: Sources, lim: Limits, final: Tx -> bool) returns (d: Draft, ghost considered: set<Hash>)
    requires Ready(s) && PoolSound(s)
    ensures Built(s, lim, d.txs) == Some(d) && FromPool(s, final, d.txs, considered)
    ensures forall h :: h in s.pool && Eligible(s, s.pool[h], final) ==>
            (h in considered <==> Deps(s, s.pool[h]) <= Ids(d.txs))
  {
    var queue, waiting, dependers := CollectPool(s, final);
    ghost var first := queue;
    d := Start(s);
    considered := {};
    SelectionStarts(s, final, waiting, dependers, queue);
    hide Added, Deps, Eligible, Ids, Selecting, FromPool, Divided, Listed, Waits;
    while queue != {}
      invariant Selecting(s, final, first, waiting, dependers, queue, considered, Ids(d.txs))
      invariant Built(s, lim, d.txs) == Some(d) && FromPool(s, final, d.txs, considered)
      decreases s.pool.Keys - considered
    {
      ghost var some := Any(queue);
      assert some in queue;
      var h :| h in queue;
      SelectionTakes(s, final, first, waiting, dependers, queue, considered, d.txs, h);
      queue := queue - {h};
      considered := considered + {h};
      var tx := s.pool[h];
      var skip := *;
      var added := Added(s, lim, d, tx);
      if !skip && added.Some? {
        AddedTxs(s, lim, d, tx);
        ghost var before, queued := waiting, queue;
        waiting, queue := Release(s, waiting, dependers, queue, h, Ids(d.txs));
        SelectionReleases(s, final, first, before, dependers, queued, considered, d.txs, tx, waiting, queue);
        d := added.value;
      }
    }
    SelectionEnds(s, final, first, waiting, dependers, considered, Ids(d.txs));
  }

  /** The invariant of the loop: no transaction is in two places, and all that are free have been queued. */
  ghost predicate Selecting(s: Sources, final: Tx -> bool, first: set<Hash>, waiting: map<Hash, set<Hash>>,
                            dependers: Dependers, queue: set<Hash>, considered: set<Hash>, selected: set<Hash>) {
    && Listed(s, waiting, dependers) && Waits(s, waiting, selected) && queue !! considered && first !! waiting.Keys
    && (forall h :: h in first ==> h in s.pool && Deps(s, s.pool[h]) == {})
    && (forall h :: h in first || h in waiting <==> h in s.pool && Eligible(s, s.pool[h], final))
    && (forall h :: h in queue || h in considered <==> Freed(first, waiting, h))
  }

  lemma SelectionStarts(s: Sources, final: Tx -> bool, waiting: map<Hash, set<Hash>>, dependers: Dependers,
                        queue: set<Hash>)
    requires Divided(s, final, {}, queue, waiting) && Listed(s, waiting, dependers)
    ensures Selecting(s, final, queue, waiting, dependers, queue, {}, Ids([])) && FromPool(s, final, [], {})
    ensures Listed(s, waiting, dependers)
  {
    hide Deps, Eligible, Listed;
    assert Ids([]) == {};
  }

  lemma SelectionTakes(s: Sources, final: Tx -> bool, first: set<Hash>, waiting: map<Hash, set<Hash>>,
                       dependers: Dependers, queue: set<Hash>, considered: set<Hash>, txs: seq<Tx>, h: Hash)
    requires Selecting(s, final, first, waiting, dependers, queue, considered, Ids(txs)) && h in queue
    requires FromPool(s, final, txs, considered)
    ensures h in s.pool && h !in considered && Eligible(s, s.pool[h], final) && Listed(s, waiting, dependers)
    ensures Waits(s, waiting, Ids(txs)) && forall i :: 0 <= i < |txs| ==> txs[i].hash != h
    ensures Selecting(s, final, first, waiting, dependers, queue - {h}, considered + {h}, Ids(txs))
    ensures FromPool(s, final, txs, considered + {h})
  {
    hide Deps, Eligible, Listed, Ids;
    assert Freed(first, waiting, h);
    assert h in first || h in waiting;
  }

  lemma SelectionReleases(s: Sources, final: Tx -> bool, first: set<Hash>, before: map<Hash, set<Hash>>,
                          dependers: Dependers, queue: set<Hash>, considered: set<Hash>, txs: seq<Tx>, tx: Tx,
                          after: map<Hash, set<Hash>>, queue': set<Hash>)
    requires Selecting(s, final, first, before, dependers, queue, considered, Ids(txs))
    requires FromPool(s, final, txs, considered) && tx.hash in s.pool && s.pool[tx.hash] == tx && tx.hash in considered
    requires Eligible(s, tx, final) && forall i :: 0 <= i < |txs| ==> txs[i].hash != tx.hash
    requires after.Keys == before.Keys && Waits(s, after, Ids(txs) + {tx.hash})
    requires queue' == queue + (set h | h in before && before[h] != {} && after[h] == {})
    ensures Selecting(s, final, first, after, dependers, queue', considered, Ids(txs + [tx]))
    ensures FromPool(s, final, txs + [tx], considered)
  {
    IdsMore(txs, tx);
    ListedKept(s, before, after, dependers);
    hide Deps, Eligible, Listed, Ids;
    forall h ensures h in queue' || h in considered <==> Freed(first, after, h) {
      assert h in queue || h in considered <==> Freed(first, before, h);
      if h in before { assert after[h] <= before[h]; }
    }
    forall h | h in queue' ensures h !in considered {
      if h !in queue {
        assert h !in first && before[h] != {};
        assert !Freed(first, before, h);
      }
    }
  }

  lemma SelectionEnds(s: Sources, final: Tx -> bool, first: set<Hash>, waiting: map<Hash, set<Hash>>,
                      dependers: Dependers, considered: set<Hash>, selected: set<Hash>)
    requires Selecting(s, final, first, waiting, dependers, {}, considered, selected)
    ensures forall h :: h in s.pool && Eligible(s, s.pool[h], final) ==>
            (h in considered <==> Deps(s, s.pool[h]) <= selected)
  {
    hide Deps, Eligible, Listed;
    forall h | h in s.pool && Eligible(s, s.pool[h], final)
      ensures h in considered <==> Deps(s, s.pool[h]) <= selected
    {
      assert h in considered <==> Freed(first, waiting, h);
      if h in waiting { NothingLeft(Deps(s, s.pool[h]), selected); }
    }
  }

  lemma NothingLeft(a: set<Hash>, b: set<Hash>)
    ensures a - b == {} <==> a <= b
  {
    if a - b == {} {
      forall x | x in a ensures x in b { assert x in a - b || x in b; }
    }
  }

  lemma ListedKept(s: Sources, before: map<Hash, set<Hash>>, after: map<Hash, set<Hash>>, dependers: Dependers)
    requires Listed(s, before, dependers) && after.Keys == before.Keys
    ensures Listed(s, after, dependers)
  {
    hide Deps;
    forall h, p | h in after && h in s.pool && p in Deps(s, s.pool[h]) ensures p in dependers && h in dependers[p] {
      assert h in before;
    }
    forall p, h | p in dependers && h in dependers[p] ensures h in after { assert h in before; }
  }

  lemma AddedTxs(s: Sources, lim: Limits, d: Draft, tx: Tx)
    requires Ready(s) && Added(s, lim, d, tx).Some? && Built(s, lim, d.txs) == Some(d)
    ensures var e := Added(s, lim, d, tx).value; e.txs == d.txs + [tx] && Built(s, lim, e.txs) == Some(e)
  {
    var txs := d.txs + [tx];
    assert txs[..|txs| - 1] == d.txs;
  }

  /** The size to fill lies between 1000 bytes and 1000 bytes below the limit for blocks. */
  function FillSize(wanted: nat): (r: nat)
    ensures RESERVED_SIZE <= r <= MAX_BLOCK_SIZE - 1000
  {
    Max(1000, Min(MAX_BLOCK_SIZE - 1000, wanted))
  }

  lemma FromPoolChosen(s: Sources, final: Tx -> bool, txs: seq<Tx>, considered: set<Hash>)
    requires FromPool(s, final, txs, considered)
    ensures Chosen(s, txs)
  {
  }

  /** No transaction may be later than the clock or than a given coinstake. */
  function LatestTime(now: nat, coinstake: Option<Tx>): nat {
    if coinstake.Some? then Min(now, coinstake.value.time) else now
  }

  // The time of the header

  method GetMaxTransactionTime(vtx: seq<Tx>) returns (latest: nat)
    ensures forall i :: 0 <= i < |vtx| ==> vtx[i].time <= latest
    ensures latest == 0 || exists i :: 0 <= i < |vtx| && vtx[i].time == latest
  {
    latest := 0;
    var n := 0;
    while n < |vtx|
      invariant 0 <= n <= |vtx| && forall i :: 0 <= i < n ==> vtx[i].time <= latest
      invariant latest == 0 || exists i :: 0 <= i < n && vtx[i].time == latest
    {
      latest := Max(latest, vtx[n].time);
      n := n + 1;
    }
  }

  /** The least time that is not before the clock, any transaction, the allowed drift or the median. */
  ghost predicate Filled(t: Tree, best: Hash, vtx: seq<Tx>, now: nat, time: nat)
    requires Linked(t) && best in t.nodes
  {
    var median, prev := MedianTimePast(t, best), Time(t, best);
    && time > median && time >= prev - 2 * ONE_HOUR && time >= now
    && (forall i :: 0 <= i < |vtx| ==> vtx[i].time <= time)
    && (time in {median + 1, prev - 2 * ONE_HOUR, now} || exists i :: 0 <= i < |vtx| && vtx[i].time == time)
  }

  ghost predicate In32Bits(t: Tree, best: Hash, vtx: seq<Tx>, now: nat)
    requires Linked(t) && best in t.nodes
  {
    && MedianTimePast(t, best) + 1 < Retarget.TIME_RANGE && Time(t, best) < Retarget.TIME_RANGE
    && now < Retarget.TIME_RANGE && forall i :: 0 <= i < |vtx| ==> vtx[i].time < Retarget.TIME_RANGE
  }

  /** The field has 32 bits. */
  method FillTime(t: Tree, best: Hash, vtx: seq<Tx>, now: nat) returns (time: nat)
    requires Linked(t) && best in t.nodes
    ensures In32Bits(t, best, vtx, now) ==> Filled(t, best, vtx, now, time)
  {
    hide MedianTimePast;
    var median := GetMedianTimePast(t, best);
    var latest := GetMaxTransactionTime(vtx);
    time := Max(median + 1, latest) % Retarget.TIME_RANGE;
    time := Max(time, Time(t, best) - 2 * ONE_HOUR) % Retarget.TIME_RANGE;
    time := Max(time, now) % Retarget.TIME_RANGE;
  }

  /**
   * The transactions after the coinbase, the value of the coinbase, the target and the time. A coinstake
   * handed in goes first and gives the time; the coinbase of its block is empty.
   */
  method CreateNewBlock(s: Sources, final: Tx -> bool, wantedSize: nat, now: nat, coinbase: Tx, coinstake: Option<Tx>)
    returns (txs: seq<Tx>, value: int, bits: nat, time: nat, ghost drafted: seq<Tx>, ghost considered: set<Hash>)
    requires Ready(s) && PoolSound(s)
    ensures txs == (if coinstake.Some? then [coinstake.value] else []) + drafted
    ensures bits == Retarget.NextTarget(s.t, s.best, coinstake.Some?)
    ensures var d := Built(s, Limits(FillSize(wantedSize), LatestTime(now, coinstake)), drafted);
            d.Some? && value == if coinstake.Some? then 0 else Rewards.PowReward(bits) + d.value.fees
    ensures FromPool(s, final, drafted, considered) && Chosen(s, drafted)
    ensures forall h :: h in s.pool && Eligible(s, s.pool[h], final) ==>
              (h in considered <==> Deps(s, s.pool[h]) <= Ids(drafted))
    ensures if coinstake.Some? then time == coinstake.value.time
            else In32Bits(s.t, s.best, [coinbase] + txs, now) ==> Filled(s.t, s.best, [coinbase] + txs, now, time)
  {
    hide Built, FromPool, Deps, Chosen, Rewards.PowReward, Retarget.NextTarget, Filled, In32Bits, Eligible, Ids;
    txs, value := [], 0;
    if coinstake.Some? { txs := [coinstake.value]; }
    Retarget.TargetIsNat(s.t, s.best, coinstake.Some?);
    bits := Retarget.GetNextTargetRequired(s.t, Some(s.best), coinstake.Some?);
    var d;
    d, considered := SelectTransactions(s, Limits(FillSize(wantedSize), LatestTime(now, coinstake)), final);
    FromPoolChosen(s, final, d.txs, considered);
    txs, drafted := txs + d.txs, d.txs;
    if coinstake.None? {
      var reward := Rewards.GetProofOfWorkReward(bits);
      value := reward + d.fees;
      time := FillTime(s.t, s.best, [coinbase] + txs, now);
    } else {
      time := coinstake.value.time;
    }
  }

  // What every draft keeps

  /**
   * The index is one that replay gives, and an id identifies a transaction in the pool as it does
   * in the tree; a transaction of the pool has inputs.
   */
  ghost predicate PoolKnown(s: Sources)
    requires Ready(s)
  {
    && Indexed(s.t, s.db, Height(s.t, s.best))
    && (forall tx :: InTree(s.t, tx) && tx.hash in s.pool ==> s.pool[tx.hash] == tx)
    && (forall h :: h in s.pool ==> s.pool[h].vin != [])
  }

  /** Different ordinary transactions of the pool. */
  ghost predicate Chosen(s: Sources, txs: seq<Tx>) {
    && (forall i :: 0 <= i < |txs| ==>
          txs[i].hash in s.pool && s.pool[txs[i].hash] == txs[i] && !txs[i].IsCoinBase() && !txs[i].IsCoinStake())
    && (forall i, j :: 0 <= i < j < |txs| ==> txs[i].hash != txs[j].hash)
  }

  /** The transactions have ids of their own. */
  ghost predicate OwnIds(s: Sources, txs: seq<Tx>) {
    && (forall i :: 0 <= i < |txs| ==> txs[i].hash !in s.db)
    && (forall i, j :: 0 <= i < j < |txs| ==> txs[i].hash != txs[j].hash)
  }

  lemma Last(s: Sources, lim: Limits, txs: seq<Tx>)
    requires Ready(s) && txs != [] && Built(s, lim, txs).Some?
    ensures Built(s, lim, txs[..|txs| - 1]).Some?
    ensures Added(s, lim, Built(s, lim, txs[..|txs| - 1]).value, txs[|txs| - 1]) == Built(s, lim, txs)
  {
  }

  lemma {:induction false} Prefix(s: Sources, lim: Limits, txs: seq<Tx>, k: nat)
    requires Ready(s) && Built(s, lim, txs).Some? && k <= |txs|
    ensures Built(s, lim, txs[..k]).Some?
    decreases |txs|
  {
    if k == |txs| {
      assert txs[..k] == txs;
    } else {
      Last(s, lim, txs);
      Prefix(s, lim, txs[..|txs| - 1], k);
      assert txs[..|txs| - 1][..k] == txs[..k];
    }
  }

  /** Size and signature operations stay under their limits, and the fees are what the inputs leave over. */
  lemma {:induction false} WithinLimits(s: Sources, lim: Limits, txs: seq<Tx>)
    requires Ready(s) && Built(s, lim, txs).Some?
    ensures var d := Built(s, lim, txs).value;
            && d.txs == txs && d.size == RESERVED_SIZE + SizeOf(txs) && d.fees >= 0
            && RESERVED_SIG_OPS + SumSigOps(txs) <= d.sigOps
            && (txs != [] ==> d.size < lim.maxSize && d.sigOps < MAX_BLOCK_SIGOPS)
  {
    if txs != [] {
      Last(s, lim, txs);
      WithinLimits(s, lim, txs[..|txs| - 1]);
      assert txs == txs[..|txs| - 1] + [txs[|txs| - 1]];
      hide Built, InputsAllowed, AllFetched, PoolValueIn, Spend, GetMinFee;
    }
  }

  lemma AddedIndex(s: Sources, lim: Limits, d: Draft, tx: Tx)
    requires Ready(s) && Added(s, lim, d, tx).Some?
    ensures var ins := Points(tx.vin);
            && AllFetched(s, d.w, ins) && Spend(d.w, ins, MEMORY_POS).Some?
            && Added(s, lim, d, tx).value.w ==
                Spend(d.w, ins, MEMORY_POS).value[tx.hash := NewIndex(MEMORY_POS, |tx.vout|)]
            && InputsAllowed(s, d.w, tx)
  {
  }

  lemma {:induction false} IndexKeys(s: Sources, lim: Limits, txs: seq<Tx>)
    requires Ready(s) && Built(s, lim, txs).Some?
    ensures Built(s, lim, txs).value.w.Keys == s.db.Keys + Ids(txs)
  {
    hide Added;
    if txs == [] {
      assert Ids(txs) == {};
    } else {
      var rest, tx := txs[..|txs| - 1], txs[|txs| - 1];
      Last(s, lim, txs);
      IndexKeys(s, lim, rest);
      IdsMore(rest, tx);
      assert txs == rest + [tx];
      var d := Built(s, lim, rest).value;
      AddedKeys(s, lim, d, tx);
    }
  }

  lemma AddedKeys(s: Sources, lim: Limits, d: Draft, tx: Tx)
    requires Ready(s) && Added(s, lim, d, tx).Some?
    ensures Added(s, lim, d, tx).value.w.Keys == d.w.Keys + {tx.hash}
  {
    AddedIndex(s, lim, d, tx);
    SameShape(d.w, Points(tx.vin), MEMORY_POS);
    hide Added, Spend;
  }

  /** A parent comes before its child: every input is in the index or created earlier in the block. */
  lemma ParentsFirst(s: Sources, lim: Limits, txs: seq<Tx>, i: nat, k: nat)
    requires Ready(s) && Built(s, lim, txs).Some? && i < |txs| && k < |txs[i].vin|
    ensures var p := txs[i].vin[k].prevout.hash; p in s.db || exists j :: 0 <= j < i && txs[j].hash == p
  {
    hide Added, Spend, InputsAllowed;
    Prefix(s, lim, txs, i + 1);
    var upto := txs[..i + 1];
    assert upto[..|upto| - 1] == txs[..i] && upto[|upto| - 1] == txs[i];
    Last(s, lim, upto);
    AddedIndex(s, lim, Built(s, lim, txs[..i]).value, txs[i]);
    IndexKeys(s, lim, txs[..i]);
    var p := txs[i].vin[k].prevout.hash;
    assert Fetched(s, Built(s, lim, txs[..i]).value.w, Points(txs[i].vin)[k]);
    if p !in s.db {
      var j :| 0 <= j < i && txs[..i][j].hash == p;
      assert txs[j].hash == p;
    }
  }

  // No output is consumed twice

  function Consumed(txs: seq<Tx>): seq<OutPoint> {
    if txs == [] then [] else Consumed(txs[..|txs| - 1]) + Points(txs[|txs| - 1].vin)
  }

  ghost predicate AllTaken(w: Db, points: seq<OutPoint>) {
    forall i :: 0 <= i < |points| ==> HasOutput(w, points[i]) && !Unspent(w, points[i])
  }

  lemma TakenKept(w: Db, points: seq<OutPoint>, ins: seq<OutPoint>, hash: Hash, e: TxIndex)
    requires AllTaken(w, points) && Spend(w, ins, MEMORY_POS).Some? && hash !in w
    ensures AllTaken(Spend(w, ins, MEMORY_POS).value[hash := e], points + ins)
  {
    SpendMarks(w, ins, MEMORY_POS);
    var after := Spend(w, ins, MEMORY_POS).value;
    forall i | 0 <= i < |points + ins|
      ensures HasOutput(after[hash := e], (points + ins)[i]) && !Unspent(after[hash := e], (points + ins)[i])
    {
      var o := (points + ins)[i];
      assert OutPoint(o.hash, o.n) == o;
      if i < |points| {
        assert HasOutput(w, points[i]) && !Unspent(w, points[i]);
      } else {
        assert ins[i - |points|] in ins;
        assert Unspent(w, o);
      }
      assert after[o.hash].spent[o.n] == if o in ins then MEMORY_POS else w[o.hash].spent[o.n];
    }
  }

  lemma DisjointConcat(a: seq<OutPoint>, b: seq<OutPoint>, w: Db)
    requires Distinct(a) && Distinct(b) && AllTaken(w, a) && forall o :: o in b ==> Unspent(w, o)
    ensures Distinct(a + b)
  {
    forall i, j | 0 <= i < |a| && 0 <= j < |b| ensures a[i] != b[j] {
      assert b[j] in b;
      assert !Unspent(w, a[i]);
    }
  }

  lemma {:induction false} ConsumedOnce(s: Sources, lim: Limits, txs: seq<Tx>)
    requires Ready(s) && Built(s, lim, txs).Some? && OwnIds(s, txs)
    ensures Distinct(Consumed(txs)) && AllTaken(Built(s, lim, txs).value.w, Consumed(txs))
  {
    if txs != [] {
      var rest, tx := txs[..|txs| - 1], txs[|txs| - 1];
      Last(s, lim, txs);
      ConsumedOnce(s, lim, rest);
      var d := Built(s, lim, rest).value;
      AddedIndex(s, lim, d, tx);
      IndexKeys(s, lim, rest);
      forall x | x in Ids(rest) ensures x != tx.hash {
        var i :| 0 <= i < |rest| && rest[i].hash == x;
        assert txs[i].hash != txs[|txs| - 1].hash;
      }
      SpendMarks(d.w, Points(tx.vin), MEMORY_POS);
      hide Built, Added, Spend, AllTaken, Distinct;
      DisjointConcat(Consumed(rest), Points(tx.vin), d.w);
      TakenKept(d.w, Consumed(rest), Points(tx.vin), tx.hash, NewIndex(MEMORY_POS, |tx.vout|));
    }
  }

  // The ids are new to the index

  /** What was spent in the index stays spent in every draft. */
  ghost predicate SpentStays(db: Db, w: Db) {
    forall o :: SpentIn(db, o) ==> SpentIn(w, o)
  }

  lemma {:induction false} DraftKeepsSpent(s: Sources, lim: Limits, txs: seq<Tx>)
    requires Ready(s) && Built(s, lim, txs).Some? && OwnIds(s, txs)
    ensures SpentStays(s.db, Built(s, lim, txs).value.w)
  {
    if txs != [] {
      hide Added;
      var rest, tx := txs[..|txs| - 1], txs[|txs| - 1];
      Last(s, lim, txs);
      DraftKeepsSpent(s, lim, rest);
      var d, ins := Built(s, lim, rest).value, Points(tx.vin);
      AddedIndex(s, lim, d, tx);
      SpendMarks(d.w, ins, MEMORY_POS);
      var after := Spend(d.w, ins, MEMORY_POS).value;
      hide Built, Spend;
      forall o | SpentIn(s.db, o) ensures SpentIn(Built(s, lim, txs).value.w, o) {
        assert SpentIn(d.w, o) && OutPoint(o.hash, o.n) == o && o.hash != tx.hash;
        assert after[o.hash].spent[o.n] == if o in ins then MEMORY_POS else d.w[o.hash].spent[o.n];
      }
    }
  }

  /**
   * A drafted transaction is not in the index yet: one that is has all its inputs spent there, and
   * then the draft could not have spent them.
   */
  lemma {:induction false} DraftedIdsAreNew(s: Sources, lim: Limits, txs: seq<Tx>)
    requires Ready(s) && PoolKnown(s) && Chosen(s, txs) && Built(s, lim, txs).Some?
    ensures OwnIds(s, txs)
  {
    if txs != [] {
      hide Added, PoolKnown, Chosen, OwnIds;
      var rest, tx := txs[..|txs| - 1], txs[|txs| - 1];
      Last(s, lim, txs);
      ChosenLast(s, txs);
      DraftedIdsAreNew(s, lim, rest);
      DraftKeepsSpent(s, lim, rest);
      hide Built;
      SpendsSoNew(s, lim, Built(s, lim, rest).value, tx);
      OwnIdsLast(s, txs);
    } else {
      assert OwnIds(s, []);
    }
  }

  lemma ChosenLast(s: Sources, txs: seq<Tx>)
    requires Chosen(s, txs) && txs != []
    ensures var tx := txs[|txs| - 1]; tx.hash in s.pool && s.pool[tx.hash] == tx && !tx.IsCoinBase()
    ensures Chosen(s, txs[..|txs| - 1])
  {
  }

  lemma OwnIdsLast(s: Sources, txs: seq<Tx>)
    requires Chosen(s, txs) && txs != [] && OwnIds(s, txs[..|txs| - 1]) && txs[|txs| - 1].hash !in s.db
    ensures OwnIds(s, txs)
  {
    forall i | 0 <= i < |txs| ensures txs[i].hash !in s.db {
      if i < |txs| - 1 { assert txs[..|txs| - 1][i] == txs[i]; }
    }
  }

  lemma SpendsSoNew(s: Sources, lim: Limits, d: Draft, tx: Tx)
    requires Ready(s) && PoolKnown(s) && SpentStays(s.db, d.w) && Added(s, lim, d, tx).Some?
    requires tx.hash in s.pool && s.pool[tx.hash] == tx && !tx.IsCoinBase()
    ensures tx.hash !in s.db
  {
    AddedIndex(s, lim, d, tx);
    hide Added;
    SpendMarks(d.w, Points(tx.vin), MEMORY_POS);
    hide Spend, Indexed;
    var o := Points(tx.vin)[0];
    assert o in Points(tx.vin) && Unspent(d.w, o);
    if tx.hash in s.db { IndexedIsSpent(s, tx); }
  }

  /** An indexed transaction has spent its inputs. */
  lemma IndexedIsSpent(s: Sources, tx: Tx)
    requires Ready(s) && PoolKnown(s) && tx.hash in s.db && tx.hash in s.pool && s.pool[tx.hash] == tx
    requires tx.vin != [] && !tx.IsCoinBase()
    ensures SpentIn(s.db, Points(tx.vin)[0])
  {
    assert EntryOk(s.t, s.db, tx.hash, Height(s.t, s.best));
    assert Points(tx.vin)[0] in Inputs(tx);
  }

  /** No two inputs of the drafted transactions consume the same output. */
  lemma NoOutputTwice(s: Sources, lim: Limits, txs: seq<Tx>)
    requires Ready(s) && PoolKnown(s) && Chosen(s, txs) && Built(s, lim, txs).Some?
    ensures Distinct(Consumed(txs))
  {
    DraftedIdsAreNew(s, lim, txs);
    ConsumedOnce(s, lim, txs);
  }
}
