/** What each change to the address tables keeps of their invariant. */
module AddrSteps {
  import opened Common
  import opened AddrTables

  /** The fields on which the tables hang are the same; statistics may differ. */
  predicate SameStructure(a: map<Id, Info>, b: map<Id, Info>) {
    && a.Keys == b.Keys
    && (forall id :: id in a ==>
          && a[id].address.ip == b[id].address.ip && a[id].address.port == b[id].address.port
          && a[id].refCount == b[id].refCount && a[id].inTried == b[id].inTried
          && a[id].randomPos == b[id].randomPos)
  }

  lemma SameIds(a: map<Id, Info>, b: map<Id, Info>)
    requires a.Keys == b.Keys && forall id :: id in a ==> a[id].inTried == b[id].inTried
    ensures TriedIds(a) == TriedIds(b) && NewIds(a) == NewIds(b)
  {
    assert forall id :: id in TriedIds(a) ==> a[id].inTried;
    assert forall id :: id in NewIds(a) ==> !a[id].inTried;
    assert forall id :: id in TriedIds(b) ==> id in a && b[id].inTried && a[id].inTried == b[id].inTried;
    assert forall id :: id in NewIds(b) ==> id in a && !b[id].inTried && a[id].inTried == b[id].inTried;
  }

  lemma SameNew(a: map<Id, Info>, b: map<Id, Info>, untried: seq<set<Id>>, extra: Option<Id>)
    requires NewOk(a, untried, extra) && a.Keys == b.Keys
    requires forall id :: id in a ==> a[id].inTried == b[id].inTried && a[id].refCount == b[id].refCount
    ensures NewOk(b, untried, extra)
  {
    forall id | id in b && !b[id].inTried ensures NewEntryOk(b, untried, extra, id) {
      assert a[id].refCount == b[id].refCount;
      assert NewEntryOk(a, untried, extra, id);
    }
    forall c, id | 0 <= c < |untried| && id in untried[c] ensures id in b && !b[id].inTried {
      assert id in a;
    }
  }

  lemma SameTried(hs: Hashes, a: map<Id, Info>, b: map<Id, Info>, tried: seq<seq<Id>>)
    requires TriedOk(hs, a, tried) && a.Keys == b.Keys
    requires forall id :: id in a ==> SameForTried(a[id], b[id])
    ensures TriedOk(hs, b, tried)
  {
    forall id | id in b
      ensures SameForTried(a[id], b[id]) && TriedBucket(hs, a[id].address) == TriedBucket(hs, b[id].address)
    {
      assert id in a;
    }
    forall c, id | 0 <= c < |tried| && id in tried[c]
      ensures id in b && b[id].inTried && TriedBucket(hs, b[id].address) == c
    {
      assert id in a && SameForTried(a[id], b[id]);
    }
    forall id | id in b && b[id].inTried
      ensures id in tried[TriedBucket(hs, b[id].address)] && b[id].refCount == 0
    {
      assert SameForTried(a[id], b[id]);
    }
  }

  predicate SameForTried(a: Info, b: Info) {
    && a.address.ip == b.address.ip && a.address.port == b.address.port
    && a.inTried == b.inTried
    && (a.inTried ==> a.refCount == b.refCount)
  }

  lemma SameAddr(a: map<Id, Info>, b: map<Id, Info>, addr: map<Ip, Id>)
    requires AddrOk(a, addr) && a.Keys == b.Keys && forall id :: id in a ==> a[id].address.ip == b[id].address.ip
    ensures AddrOk(b, addr)
  {
    forall id | id in b ensures a[id].address.ip == b[id].address.ip { assert id in a; }
    forall ip | ip in addr ensures addr[ip] in b && b[addr[ip]].address.ip == ip { assert addr[ip] in a; }
  }

  lemma SameRandom(a: map<Id, Info>, b: map<Id, Info>, random: seq<Id>)
    requires RandomOk(a, random) && a.Keys == b.Keys && forall id :: id in a ==> a[id].randomPos == b[id].randomPos
    ensures RandomOk(b, random)
  {
    forall id | id in b ensures a[id].randomPos == b[id].randomPos { assert id in a; }
    forall i | 0 <= i < |random| ensures random[i] in b && b[random[i]].randomPos == i { assert random[i] in a; }
  }

  lemma StatisticsKeep(hs: Hashes, t: Tables, info: map<Id, Info>, extra: Option<Id>)
    requires Inv(hs, t, extra) && SameStructure(t.info, info)
    ensures Inv(hs, t.(info := info), extra)
  {
    hide RandomOk, AddrOk, NewOk, TriedOk, TriedIds, NewIds;
    SameIds(t.info, info);
    SameNew(t.info, info, t.untried, extra);
    SameTried(hs, t.info, info, t.tried);
    SameAddr(t.info, info, t.addr);
    SameRandom(t.info, info, t.random);
  }

  // The random order

  function Swapped(t: Tables, i: nat, j: nat): Tables
    requires i < |t.random| && j < |t.random| && t.random[i] in t.info && t.random[j] in t.info
  {
    var a, b := t.random[i], t.random[j];
    var info := t.info[a := t.info[a].(randomPos := j)];
    t.(info := info[b := info[b].(randomPos := i)], random := t.random[i := b][j := a])
  }

  /** info and info' differ in randomPos at most. */
  predicate OnlyPositionsMoved(a: map<Id, Info>, b: map<Id, Info>) {
    && a.Keys == b.Keys
    && (forall id :: id in a ==> b[id] == a[id].(randomPos := b[id].randomPos))
  }

  lemma SwapKeeps(hs: Hashes, t: Tables, i: nat, j: nat, extra: Option<Id>)
    requires Inv(hs, t, extra) && i < |t.random| && j < |t.random| && i != j
    ensures Inv(hs, Swapped(t, i, j), extra)
    ensures OnlyPositionsMoved(t.info, Swapped(t, i, j).info)
  {
    var s := Swapped(t, i, j);
    MovedKeeps(hs, t, s.info, extra);
    assert RandomOk(s.info, s.random);
  }

  lemma MovedKeeps(hs: Hashes, t: Tables, info: map<Id, Info>, extra: Option<Id>)
    requires Inv(hs, t, extra) && OnlyPositionsMoved(t.info, info)
    ensures AddrOk(info, t.addr) && NewOk(info, t.untried, extra) && TriedOk(hs, info, t.tried)
    ensures CountsOk(info, t.nTried, t.nNew) && IdsOk(info, t.idCount)
  {
    hide RandomOk, AddrOk, NewOk, TriedOk, TriedIds, NewIds;
    SameIds(t.info, info);
    SameNew(t.info, info, t.untried, extra);
    SameTried(hs, t.info, info, t.tried);
    SameAddr(t.info, info, t.addr);
  }

  // Dropping an entry from a new bucket

  /** The entry lies in no bucket and stands last in the random order: it can go. */
  function Deleted(t: Tables, x: Id): Tables
    requires x in t.info && |t.random| > 0
  {
    t.(random := t.random[..|t.random| - 1], addr := t.addr - {t.info[x].address.ip}, info := t.info - {x},
        nNew := t.nNew - 1)
  }

  function Unheld(t: Tables, x: Id, b: nat): Tables
    requires b < |t.untried| && x in t.info
  {
    t.(untried := t.untried[b := t.untried[b] - {x}],
        info := t.info[x := t.info[x].(refCount := t.info[x].refCount - 1)])
  }

  lemma UnheldNew(hs: Hashes, t: Tables, x: Id, b: nat, extra: Option<Id>)
    requires Inv(hs, t, extra) && b < |t.untried| && x in t.untried[b] && extra != Some(x)
    ensures forall id :: id in t.info && id != x && !t.info[id].inTried ==>
              NewEntryOk(Unheld(t, x, b).info, Unheld(t, x, b).untried, extra, id)
    ensures Unheld(t, x, b).info[x].refCount == Refs(Unheld(t, x, b).untried, x) < NEW_BUCKETS_PER_ADDRESS
    ensures forall c :: 0 <= c < |t.untried| ==> Unheld(t, x, b).untried[c] <= t.untried[c]
    ensures forall c :: 0 <= c < |t.untried| ==> |Unheld(t, x, b).untried[c]| <= NEW_BUCKET_SIZE
  {
    var u := Unheld(t, x, b);
    forall id | id in t.info && !t.info[id].inTried ensures id != x ==> NewEntryOk(u.info, u.untried, extra, id) {
      assert NewEntryOk(t.info, t.untried, extra, id);
      RefsUpdate(t.untried, b, u.untried[b], id);
    }
    assert NewEntryOk(t.info, t.untried, extra, x);
    RefsUpdate(t.untried, b, u.untried[b], x);
    SubsetSize(u.untried[b], t.untried[b]);
  }

  lemma UnheldKeeps(hs: Hashes, t: Tables, x: Id, b: nat, extra: Option<Id>)
    requires Inv(hs, t, extra) && b < |t.untried| && x in t.untried[b] && extra != Some(x)
    requires t.info[x].refCount > 1
    ensures Inv(hs, Unheld(t, x, b), extra)
  {
    hide RandomOk, AddrOk, TriedOk, TriedIds, NewIds;
    UnheldNew(hs, t, x, b, extra);
    var u := Unheld(t, x, b);
    SameIds(t.info, u.info);
    SameTried(hs, t.info, u.info, t.tried);
    SameAddr(t.info, u.info, t.addr);
    SameRandom(t.info, u.info, t.random);
  }

  lemma DeletedNew(hs: Hashes, t: Tables, x: Id, b: nat, extra: Option<Id>)
    requires Inv(hs, t, extra) && b < |t.untried| && x in t.untried[b] && extra != Some(x) && t.info[x].refCount == 1
    ensures NewOk(t.info - {x}, t.untried[b := t.untried[b] - {x}], extra)
  {
    hide RandomOk, AddrOk, TriedOk, CountsOk;
    UnheldNew(hs, t, x, b, extra);
    var u := Unheld(t, x, b);
    RefsPositive(u.untried, x);
    forall id | id in t.info - {x} && !t.info[id].inTried ensures NewEntryOk(t.info - {x}, u.untried, extra, id) {
      assert NewEntryOk(u.info, u.untried, extra, id);
    }
  }

  lemma DeletedTried(hs: Hashes, info: map<Id, Info>, x: Id, tried: seq<seq<Id>>)
    requires TriedOk(hs, info, tried) && x in info && !info[x].inTried
    ensures TriedOk(hs, info - {x}, tried)
  {
  }

  lemma DeletedCounts(info: map<Id, Info>, x: Id)
    requires x in info && !info[x].inTried
    ensures TriedIds(info - {x}) == TriedIds(info) && NewIds(info - {x}) == NewIds(info) - {x}
  {
  }

  lemma UnheldThenDeleted(hs: Hashes, t: Tables, x: Id, b: nat, extra: Option<Id>)
    requires Inv(hs, t, extra) && b < |t.untried| && x in t.untried[b] && extra != Some(x)
    requires t.info[x].refCount == 1 && |t.random| > 0 && t.info[x].randomPos == |t.random| - 1
    ensures Inv(hs, Deleted(Unheld(t, x, b), x), extra)
  {
    var d := Deleted(Unheld(t, x, b), x);
    assert d.info == t.info - {x};
    DeletedNew(hs, t, x, b, extra);
    assert x in t.info && !t.info[x].inTried;
    DeletedTried(hs, t.info, x, t.tried);
    DeletedCounts(t.info, x);
    hide NewOk, TriedOk, TriedIds, NewIds;
    assert forall i :: 0 <= i < |d.random| ==> d.random[i] == t.random[i] && d.random[i] != x;
  }

  // Taking an entry into a new bucket

  function Bumped(t: Tables, id: Id): Tables
    requires id in t.info
  {
    t.(info := t.info[id := t.info[id].(refCount := t.info[id].refCount + 1)])
  }

  lemma BumpKeeps(hs: Hashes, t: Tables, id: Id)
    requires Inv(hs, t, None) && id in t.info && !t.info[id].inTried && t.info[id].refCount < NEW_BUCKETS_PER_ADDRESS
    ensures Inv(hs, Bumped(t, id), Some(id))
  {
    hide RandomOk, AddrOk, TriedOk, TriedIds, NewIds;
    var u := Bumped(t, id);
    forall k | k in u.info && !u.info[k].inTried ensures NewEntryOk(u.info, u.untried, Some(id), k) {
      assert NewEntryOk(t.info, t.untried, None, k);
    }
    SameIds(t.info, u.info);
    SameTried(hs, t.info, u.info, t.tried);
    SameAddr(t.info, u.info, t.addr);
    SameRandom(t.info, u.info, t.random);
  }

  /** The tables with a new entry that is in no bucket yet. */
  function Created(t: Tables, a: Address, source: Ip): Tables {
    var id := t.idCount;
    t.(idCount := id + 1, info := t.info[id := Info(a, source, 0, 0, 0, 0, false, |t.random|)],
       addr := t.addr[a.ip := id], random := t.random + [id])
  }

  lemma CreatedNew(info: map<Id, Info>, untried: seq<set<Id>>, id: Id, e: Info)
    requires NewOk(info, untried, None) && id !in info && !e.inTried && e.refCount == 1
    ensures NewOk(info[id := e], untried, Some(id))
  {
    RefsPositive(untried, id);
    var after := info[id := e];
    forall k | k in after && !after[k].inTried ensures NewEntryOk(after, untried, Some(id), k) {
      if k != id { assert NewEntryOk(info, untried, None, k); }
    }
  }

  lemma CreatedTried(hs: Hashes, info: map<Id, Info>, tried: seq<seq<Id>>, id: Id, e: Info)
    requires TriedOk(hs, info, tried) && id !in info && !e.inTried
    ensures TriedOk(hs, info[id := e], tried)
  {
  }

  lemma CreatedCounts(info: map<Id, Info>, id: Id, e: Info)
    requires id !in info && !e.inTried
    ensures TriedIds(info[id := e]) == TriedIds(info) && NewIds(info[id := e]) == NewIds(info) + {id}
  {
  }

  lemma CreateKeeps(hs: Hashes, t: Tables, a: Address, source: Ip)
    requires Inv(hs, t, None) && a.ip !in t.addr
    ensures var c := Created(t, a, source); Inv(hs, Bumped(c.(nNew := t.nNew + 1), t.idCount), Some(t.idCount))
  {
    var id := t.idCount;
    hide NewOk, TriedOk, RandomOk, AddrOk, TriedIds, NewIds;
    var e := Info(a, source, 0, 0, 0, 1, false, |t.random|);
    var u := Bumped(Created(t, a, source).(nNew := t.nNew + 1), id);
    assert u.info == t.info[id := e];
    assert id !in t.info;
    NotCounted(t.info, id);
    CreatedNew(t.info, t.untried, id, e);
    CreatedTried(hs, t.info, t.tried, id, e);
    CreatedCounts(t.info, id, e);
    CreatedRandom(t.info, t.random, id, e);
    CreatedAddr(t.info, t.addr, id, e);
  }

  lemma NotCounted(info: map<Id, Info>, id: Id)
    requires id !in info
    ensures id !in NewIds(info) && id !in TriedIds(info)
  {
  }

  lemma CreatedRandom(info: map<Id, Info>, random: seq<Id>, id: Id, e: Info)
    requires RandomOk(info, random) && id !in info && e.randomPos == |random|
    ensures RandomOk(info[id := e], random + [id])
  {
  }

  lemma CreatedAddr(info: map<Id, Info>, addr: map<Ip, Id>, id: Id, e: Info)
    requires AddrOk(info, addr) && id !in info && e.address.ip !in addr
    ensures AddrOk(info[id := e], addr[e.address.ip := id])
  {
  }

  lemma InsertKeeps(hs: Hashes, t: Tables, id: Id, b: nat)
    requires Inv(hs, t, Some(id)) && id in t.info && !t.info[id].inTried
    requires b < |t.untried| && id !in t.untried[b] && |t.untried[b]| < NEW_BUCKET_SIZE
    ensures Inv(hs, t.(untried := t.untried[b := t.untried[b] + {id}]), None)
  {
    var u := t.(untried := t.untried[b := t.untried[b] + {id}]);
    forall k | k in u.info && !u.info[k].inTried ensures NewEntryOk(u.info, u.untried, None, k) {
      assert NewEntryOk(t.info, t.untried, Some(id), k);
      RefsUpdate(t.untried, b, u.untried[b], k);
    }
  }

  // Moving an entry to the tried table

  /** No new bucket holds the entry any more. */
  function Withdrawn(untried: seq<set<Id>>, id: Id): (r: seq<set<Id>>)
    ensures |r| == |untried|
    ensures forall b :: 0 <= b < |r| ==> r[b] == untried[b] - {id}
  {
    seq(|untried|, b requires 0 <= b < |untried| => untried[b] - {id})
  }

  lemma {:induction false} WithdrawnRefs(untried: seq<set<Id>>, id: Id, k: Id)
    ensures Refs(Withdrawn(untried, id), k) == if k == id then 0 else Refs(untried, k)
  {
    if untried != [] {
      var last := |untried| - 1;
      WithdrawnRefs(untried[..last], id, k);
      assert Withdrawn(untried, id)[..last] == Withdrawn(untried[..last], id);
    }
  }

  /** The new table once `id` has left it; its entry is marked as tried. */
  lemma WithdrawnNew(t: Tables, id: Id, info: map<Id, Info>)
    requires NewOk(t.info, t.untried, None) && id in t.info && !t.info[id].inTried
    requires id in info && info == t.info[id := info[id]] && info[id].inTried
    ensures NewOk(info, Withdrawn(t.untried, id), None)
  {
    var u := Withdrawn(t.untried, id);
    forall k | k in info && !info[k].inTried ensures NewEntryOk(info, u, None, k) {
      assert NewEntryOk(t.info, t.untried, None, k);
      WithdrawnRefs(t.untried, id, k);
    }
    forall b | 0 <= b < |u| ensures |u[b]| <= NEW_BUCKET_SIZE {
      SubsetSize(u[b], t.untried[b]);
    }
  }

  function Promoted(i: Info): Info { i.(refCount := 0, inTried := true) }

  /** The tables after MakeTried when the tried bucket has room. */
  function TriedAppended(hs: Hashes, t: Tables, id: Id): Tables
    requires id in t.info && |t.tried| == TRIED_BUCKET_COUNT
  {
    var b := TriedBucket(hs, t.info[id].address);
    t.(untried := Withdrawn(t.untried, id), info := t.info[id := Promoted(t.info[id])],
       tried := t.tried[b := t.tried[b] + [id]], nTried := t.nTried + 1, nNew := t.nNew - 1)
  }

  lemma AppendedTried(hs: Hashes, info: map<Id, Info>, tried: seq<seq<Id>>, id: Id, b: nat)
    requires TriedOk(hs, info, tried) && id in info && !info[id].inTried
    requires b == TriedBucket(hs, info[id].address) && |tried[b]| < TRIED_BUCKET_SIZE
    ensures TriedOk(hs, info[id := Promoted(info[id])], tried[b := tried[b] + [id]])
  {
    var now := tried[b] + [id];
    assert forall k :: k in now <==> k in tried[b] || k == id;
    assert id !in tried[b];
    assert NoDuplicates(now);
  }

  lemma PromotedCounts(info: map<Id, Info>, id: Id)
    requires id in info && !info[id].inTried
    ensures var after := info[id := Promoted(info[id])];
            TriedIds(after) == TriedIds(info) + {id} && NewIds(after) == NewIds(info) - {id}
  {
  }

  lemma AppendKeeps(hs: Hashes, t: Tables, id: Id)
    requires Inv(hs, t, None) && id in t.info && !t.info[id].inTried
    requires |t.tried[TriedBucket(hs, t.info[id].address)]| < TRIED_BUCKET_SIZE
    ensures Inv(hs, TriedAppended(hs, t, id), None)
  {
    var u := TriedAppended(hs, t, id);
    WithdrawnNew(t, id, u.info);
    AppendedTried(hs, t.info, t.tried, id, TriedBucket(hs, t.info[id].address));
    PromotedCounts(t.info, id);
    assert id in NewIds(t.info) && id !in TriedIds(t.info);
    hide NewOk, TriedOk, RandomOk, AddrOk, TriedIds, NewIds;
    SameAddr(t.info, u.info, t.addr);
    SameRandom(t.info, u.info, t.random);
  }

  /** The tables after MakeTried when it evicts the entry at `pos` to the new bucket `c`. */
  function TriedReplaced(hs: Hashes, t: Tables, id: Id, pos: nat, c: nat): Tables
    requires id in t.info && |t.tried| == TRIED_BUCKET_COUNT && c < |t.untried|
    requires pos < |t.tried[TriedBucket(hs, t.info[id].address)]|
    requires t.tried[TriedBucket(hs, t.info[id].address)][pos] in t.info
  {
    var b := TriedBucket(hs, t.info[id].address);
    var x := t.tried[b][pos];
    var w := Withdrawn(t.untried, id);
    t.(untried := w[c := w[c] + {x}],
       info := t.info[x := t.info[x].(refCount := 1, inTried := false)][id := Promoted(t.info[id])],
       tried := t.tried[b := t.tried[b][pos := id]])
  }

  /** Where an evicted entry goes: to the new bucket of its source, or to where `id` came from. */
  function Refuge(hs: Hashes, t: Tables, id: Id, x: Id, origin: nat): (c: nat)
    requires x in t.info && |t.untried| == NEW_BUCKET_COUNT
    ensures c == origin || (c < |t.untried| && |t.untried[c] - {id}| < NEW_BUCKET_SIZE)
  {
    var u := NewBucket(hs, t.info[x].address, t.info[x].source);
    if |t.untried[u] - {id}| < NEW_BUCKET_SIZE then u else origin
  }

  lemma ReplaceKeeps(hs: Hashes, t: Tables, id: Id, pos: nat, c: nat)
    requires Inv(hs, t, None) && id in t.info && !t.info[id].inTried
    requires pos < |t.tried[TriedBucket(hs, t.info[id].address)]|
    requires c < |t.untried| && |t.untried[c] - {id}| < NEW_BUCKET_SIZE
    ensures t.tried[TriedBucket(hs, t.info[id].address)][pos] in t.info
    ensures Inv(hs, TriedReplaced(hs, t, id, pos, c), None)
  {
    var b := TriedBucket(hs, t.info[id].address);
    var x := t.tried[b][pos];
    assert x in t.tried[b];
    var u := TriedReplaced(hs, t, id, pos, c);
    ReplacedNew(t, id, x, u.info, c);
    ReplacedTried(hs, t, id, x, b, pos, u.info);
    ReplacedCounts(t.info, id, x, u.info);
    hide NewOk, TriedOk, RandomOk, AddrOk, TriedIds, NewIds;
    SameAddr(t.info, u.info, t.addr);
    SameRandom(t.info, u.info, t.random);
  }

  lemma ReplacedCounts(info: map<Id, Info>, id: Id, x: Id, after: map<Id, Info>)
    requires id in info && !info[id].inTried && x in info && info[x].inTried
    requires after == info[x := info[x].(refCount := 1, inTried := false)][id := Promoted(info[id])]
    ensures |TriedIds(after)| == |TriedIds(info)| && |NewIds(after)| == |NewIds(info)|
  {
    var demoted := info[x := info[x].(refCount := 1, inTried := false)];
    assert TriedIds(demoted) == TriedIds(info) - {x} && NewIds(demoted) == NewIds(info) + {x};
    PromotedCounts(demoted, id);
    assert x in TriedIds(info) && x !in NewIds(info) && id in NewIds(demoted) && id !in TriedIds(demoted);
    hide TriedIds, NewIds;
  }

  lemma ReplacedNew(t: Tables, id: Id, x: Id, info: map<Id, Info>, c: nat)
    requires NewOk(t.info, t.untried, None) && id in t.info && !t.info[id].inTried && x in t.info && t.info[x].inTried
    requires info == t.info[x := t.info[x].(refCount := 1, inTried := false)][id := Promoted(t.info[id])]
    requires c < |t.untried| && |t.untried[c] - {id}| < NEW_BUCKET_SIZE
    ensures var w := Withdrawn(t.untried, id); NewOk(info, w[c := w[c] + {x}], None)
  {
    var w, promoted := Withdrawn(t.untried, id), t.info[id := Promoted(t.info[id])];
    WithdrawnNew(t, id, promoted);
    RefsPositive(w, x);
    var u := w[c := w[c] + {x}];
    forall k | k in info && !info[k].inTried ensures NewEntryOk(info, u, None, k) {
      RefsUpdate(w, c, w[c] + {x}, k);
      if k != x {
        assert k != id && info[k] == promoted[k];
        assert NewEntryOk(promoted, w, None, k);
      }
    }
    hide Withdrawn, Refs, NewEntryOk;
    forall b | 0 <= b < |u|
      ensures |u[b]| <= NEW_BUCKET_SIZE && forall k :: k in u[b] ==> k in info && !info[k].inTried
    {
      assert w[b] == t.untried[b] - {id};
    }
  }

  lemma ReplacedTried(hs: Hashes, t: Tables, id: Id, x: Id, b: nat, pos: nat, info: map<Id, Info>)
    requires TriedOk(hs, t.info, t.tried) && id in t.info && !t.info[id].inTried
    requires b == TriedBucket(hs, t.info[id].address) && pos < |t.tried[b]| && x == t.tried[b][pos] && x in t.info
    requires info == t.info[x := t.info[x].(refCount := 1, inTried := false)][id := Promoted(t.info[id])]
    ensures TriedOk(hs, info, t.tried[b := t.tried[b][pos := id]])
  {
    var old_, now := t.tried[b], t.tried[b][pos := id];
    assert id !in old_ && x in old_;
    forall k | k in now ensures k == id || (k in old_ && k != x) {
      var i :| 0 <= i < |now| && now[i] == k;
      if i != pos { assert old_[i] == k; }
    }
    forall k | k in old_ && k != x ensures k in now {
      var i :| 0 <= i < |old_| && old_[i] == k;
      assert now[i] == k;
    }
    assert now[pos] == id;
    assert NoDuplicates(now);
  }

  /** The order inside a tried bucket does not matter. */
  lemma ShuffleKeeps(hs: Hashes, t: Tables, b: nat, bucket: seq<Id>, extra: Option<Id>)
    requires Inv(hs, t, extra) && b < |t.tried| && multiset(bucket) == multiset(t.tried[b])
    ensures Inv(hs, t.(tried := t.tried[b := bucket]), extra)
  {
    assert |bucket| == |multiset(bucket)| == |t.tried[b]|;
    forall k ensures k in bucket <==> k in t.tried[b] {
      assert k in multiset(bucket) <==> k in multiset(t.tried[b]);
    }
    PermutationDistinct(t.tried[b], bucket);
  }

  lemma PermutationDistinct(a: seq<Id>, b: seq<Id>)
    requires multiset(a) == multiset(b) && NoDuplicates(a)
    ensures NoDuplicates(b)
  {
    SeqSetSize(a);
    assert |a| == |multiset(a)| == |multiset(b)| == |b|;
    forall k ensures k in a <==> k in b { assert k in multiset(a) <==> k in multiset(b); }
    assert (set x | x in a) == (set x | x in b);
    DistinctBySize(b);
  }

  lemma {:induction false} DistinctBySize(s: seq<Id>)
    requires |set x | x in s| == |s|
    ensures NoDuplicates(s)
  {
    if s != [] {
      var last := |s| - 1;
      SeqSetSize(s[..last]);
      assert s == s[..last] + [s[last]];
      assert (set x | x in s) == (set x | x in s[..last]) + {s[last]};
      assert s[last] !in (set x | x in s[..last]);
      DistinctBySize(s[..last]);
    }
  }
}
