/** The address manager (src/addrman.cpp). Random choices are arbitrary choices here. */
module AddrMan {
  import opened Common
  import opened Arith
  import opened AddrTables
  import opened AddrSteps
  import opened AddrEvict
  import opened AddrFile

  const HORIZON_DAYS: int := 30
  const RETRIES: int := 3
  const MAX_FAILURES: int := 10
  const MIN_FAIL_DAYS: int := 7
  const GETADDR_MAX_PCT: nat := 23
  const GETADDR_MAX: nat := 2500

  predicate IsTerrible(i: Info, now: int) {
    if i.lastTry != 0 && i.lastTry >= now - 60 then false
    else
      || i.address.time > now + 10 * 60
      || i.address.time == 0 || now - i.address.time > HORIZON_DAYS * ONE_DAY
      || (i.lastSuccess == 0 && i.attempts >= RETRIES)
      || (now - i.lastSuccess > MIN_FAIL_DAYS * ONE_DAY && i.attempts >= MAX_FAILURES)
  }

  predicate SameService(a: Address, b: Address) { a.ip == b.ip && a.port == b.port }

  class AddrMan {
    const hashes: Hashes
    var idCount: int
    var info: map<Id, Info>
    var addr: map<Ip, Id>
    var random: seq<Id>
    var nTried: int
    var nNew: int
    var tried: seq<seq<Id>>
    var untried: seq<set<Id>>

    function View(): Tables
      reads this
    {
      Tables(idCount, info, addr, random, nTried, nNew, tried, untried)
    }

    ghost predicate Valid()
      reads this
    {
      Inv(hashes, View(), None)
    }

    constructor (hs: Hashes)
      ensures Valid() && hashes == hs && info == map[]
    {
      hashes := hs;
      idCount, info, addr, random, nTried, nNew := 0, map[], map[], [], 0, 0;
      tried := seq(TRIED_BUCKET_COUNT, _ => []);
      untried := seq(NEW_BUCKET_COUNT, _ => {});
    }

    /** Rebuilds the tables from a file written under the key of `hs`. */
    constructor Load(hs: Hashes, f: File)
      requires Readable(f)
      ensures hashes == hs && View() == Loaded(hs, f)
    {
      hashes := hs;
      idCount, info, addr, random, nTried, nNew := 0, map[], map[], [], f.nTried, f.nNew;
      tried := seq(TRIED_BUCKET_COUNT, _ => []);
      untried := seq(NEW_BUCKET_COUNT, _ => {});
      new;
      LoadNewEntries(f.newInfos, f.buckets != NEW_BUCKET_COUNT);
      idCount := f.nNew;
      LoadTriedEntries(f.triedInfos);
      if f.buckets == NEW_BUCKET_COUNT { LoadBuckets(f.lists); } else { TouchBuckets(f.lists); }
    }

    method LoadNewEntries(infos: seq<Stored>, spread: bool)
      requires |untried| == NEW_BUCKET_COUNT
      modifies this
      ensures View() == if spread then LoadSpread(hashes, old(View()), infos) else LoadNew(old(View()), infos)
    {
      var n := 0;
      while n < |infos|
        invariant 0 <= n <= |infos| && |untried| == NEW_BUCKET_COUNT
        invariant View() ==
                  if spread then LoadSpread(hashes, old(View()), infos[..n]) else LoadNew(old(View()), infos[..n])
      {
        assert infos[..n + 1][..n] == infos[..n];
        var id := Append(infos[n], false);
        if spread {
          var b := NewBucket(hashes, info[id].address, info[id].source);
          untried := untried[b := untried[b] + {id}];
          info := info[id := info[id].(refCount := info[id].refCount + 1)];
        }
        n := n + 1;
      }
      assert infos[..n] == infos;
    }

    method LoadTriedEntries(infos: seq<Stored>)
      requires |tried| == TRIED_BUCKET_COUNT
      modifies this
      ensures View() == LoadTried(hashes, old(View()), infos)
    {
      var lost := 0;
      var n := 0;
      while n < |infos|
        invariant 0 <= n <= |infos| && |tried| == TRIED_BUCKET_COUNT
        invariant View().(nTried := nTried - lost) == LoadTried(hashes, old(View()), infos[..n])
      {
        assert infos[..n + 1][..n] == infos[..n];
        var b := TriedBucket(hashes, infos[n].address);
        if |tried[b]| < TRIED_BUCKET_SIZE {
          var id := Append(infos[n], true);
          tried := tried[b := tried[b] + [id]];
        } else {
          lost := lost + 1;
        }
        n := n + 1;
      }
      nTried := nTried - lost;
      assert infos[..n] == infos;
    }

    method LoadBuckets(lists: seq<seq<int>>)
      requires |lists| <= |untried|
      modifies this`info, this`untried
      ensures View() == LoadLists(old(View()), lists)
    {
      ghost var size := |untried|;
      var b := 0;
      while b < |lists|
        invariant 0 <= b <= |lists| && |untried| == size && View() == LoadLists(old(View()), lists[..b])
      {
        assert lists[..b + 1][..b] == lists[..b];
        LoadBucket(b, lists[b]);
        b := b + 1;
      }
      assert lists[..b] == lists;
    }

    /** Reads lists without using them; their ids are looked up all the same. */
    method TouchBuckets(lists: seq<seq<int>>)
      modifies this`info
      ensures View() == TouchLists(old(View()), lists)
    {
      var b := 0;
      while b < |lists|
        invariant 0 <= b <= |lists| && View() == TouchLists(old(View()), lists[..b])
      {
        assert lists[..b + 1][..b] == lists[..b];
        ghost var before := View();
        var n := 0;
        while n < |lists[b]|
          invariant 0 <= n <= |lists[b]| && View() == TouchList(before, lists[b][..n])
        {
          assert lists[b][..n + 1][..n] == lists[b][..n];
          if lists[b][n] !in info { info := info[lists[b][n] := UNKNOWN]; }
          n := n + 1;
        }
        assert lists[b][..n] == lists[b];
        b := b + 1;
      }
      assert lists[..b] == lists;
    }

    /** Gives a stored entry the next id. */
    method Append(s: Stored, isTried: bool) returns (id: Id)
      modifies this`idCount, this`info, this`addr, this`random
      ensures View() == Numbered(old(View()), s, isTried) && id == old(idCount)
    {
      id := idCount;
      info := info[id := Restored(s, |random|, isTried)];
      addr := addr[s.address.ip := id];
      random := random + [id];
      idCount := idCount + 1;
    }

    method LoadBucket(b: nat, list: seq<int>)
      requires b < |untried|
      modifies this`info, this`untried
      ensures View() == LoadList(old(View()), b, list)
    {
      hide LoadReference;
      ghost var start := View();
      var n := 0;
      while n < |list|
        invariant 0 <= n <= |list| && |untried| == |start.untried| && View() == LoadList(start, b, list[..n])
      {
        assert list[..n + 1][..n] == list[..n];
        LoadMember(b, list[n]);
        n := n + 1;
      }
      assert list[..n] == list;
    }

    method LoadMember(b: nat, k: int)
      requires b < |untried|
      modifies this`info, this`untried
      ensures View() == LoadReference(old(View()), b, k)
    {
      if k !in info { info := info[k := UNKNOWN]; }
      if info[k].refCount < NEW_BUCKETS_PER_ADDRESS {
        info := info[k := info[k].(refCount := info[k].refCount + 1)];
        untried := untried[b := untried[b] + {k}];
      }
    }

    method Save() returns (f: File)
      requires Valid()
      ensures Saves(View(), f)
    {
      AscendMembers(NewIds(info), idCount);
      AscendMembers(TriedIds(info), idCount);
      var newInfos, ranks := SaveNew();
      var triedInfos := SaveTried();
      var lists := [];
      var b := 0;
      while b < |untried|
        invariant 0 <= b == |lists| <= |untried| && forall c :: 0 <= c < b ==> SavesBucket(View(), c, lists[c])
      {
        var list := SaveBucket(b, ranks);
        lists := lists + [list];
        b := b + 1;
      }
      f := File(nNew, nTried, NEW_BUCKET_COUNT, newInfos, triedInfos, lists);
    }

    /** The new entries in the order of their ids, and where each of them went. */
    method SaveNew() returns (infos: seq<Stored>, ranks: map<Id, nat>)
      requires Valid()
      ensures All(Ascend(NewIds(info), idCount), info) && infos == StoreAll(info, Ascend(NewIds(info), idCount))
      ensures forall id :: id in NewIds(info) ==> id in ranks && ranks[id] == Rank(NewIds(info), id)
    {
      ghost var s := NewIds(info);
      infos, ranks := [], map[];
      AscendSize(s, idCount);
      var id := 0;
      while id < idCount && |infos| != nNew
        invariant 0 <= id <= idCount
        invariant All(Ascend(s, id), info) && infos == StoreAll(info, Ascend(s, id))
        invariant forall k :: k in s && k < id ==> k in ranks && ranks[k] == Rank(s, k)
      {
        if id in info {
          NewCounted(hashes, View(), id);
          ranks := ranks[id := |infos|];
          if info[id].refCount != 0 { infos := infos + [Store(info[id])]; }
        }
        id := id + 1;
      }
      AscendFull(s, id, idCount);
      AscendMembers(s, id);
      AscendMembers(s, idCount);
    }

    method SaveTried() returns (infos: seq<Stored>)
      requires Valid()
      ensures All(Ascend(TriedIds(info), idCount), info) && infos == StoreAll(info, Ascend(TriedIds(info), idCount))
    {
      ghost var s := TriedIds(info);
      infos := [];
      AscendSize(s, idCount);
      var id := 0;
      while id < idCount && |infos| != nTried
        invariant 0 <= id <= idCount
        invariant All(Ascend(s, id), info) && infos == StoreAll(info, Ascend(s, id))
      {
        if id in info && info[id].inTried { infos := infos + [Store(info[id])]; }
        id := id + 1;
      }
      AscendFull(s, id, idCount);
    }

    method SaveBucket(b: nat, ranks: map<Id, nat>) returns (list: seq<nat>)
      requires Valid() && b < |untried|
      requires forall id :: id in NewIds(info) ==> id in ranks && ranks[id] == Rank(NewIds(info), id)
      ensures SavesBucket(View(), b, list)
    {
      list := [];
      var id := 0;
      AscendMembers(untried[b], id);
      while id < idCount
        invariant 0 <= id <= idCount
        invariant forall i :: 0 <= i < |Ascend(untried[b], id)| ==> Ascend(untried[b], id)[i] >= 0
        invariant list == Ranks(NewIds(info), Ascend(untried[b], id))
      {
        AscendMembers(untried[b], id + 1);
        if id in untried[b] {
          NewMember(hashes, View(), b, id);
          assert id in NewIds(info);
          list := list + [ranks[id]];
        }
        id := id + 1;
      }
    }

    method Find(ip: Ip) returns (id: Option<Id>)
      requires Valid()
      ensures id == if ip in addr then Some(addr[ip]) else None
      ensures id.Some? ==> id.value in info && info[id.value].address.ip == ip
      ensures id.None? ==> forall k :: k in info ==> info[k].address.ip != ip
    {
      if ip !in addr { return None; }
      id := Some(addr[ip]);
    }

    method Create(a: Address, source: Ip) returns (id: Id)
      modifies this
      ensures View() == Created(old(View()), a, source) && id == old(idCount)
    {
      id := idCount;
      idCount := idCount + 1;
      info := info[id := Info(a, source, 0, 0, 0, 0, false, -1)];
      addr := addr[a.ip := id];
      info := info[id := info[id].(randomPos := |random|)];
      random := random + [id];
      assert info == Created(old(View()), a, source).info;
    }

    method SwapRandom(i: nat, j: nat)
      requires i < |random| && j < |random|
      requires random[i] in info && random[j] in info
      modifies this`info, this`random
      ensures View() == if i == j then old(View()) else Swapped(old(View()), i, j)
    {
      if i == j { return; }
      var a, b := random[i], random[j];
      info := info[a := info[a].(randomPos := j)];
      info := info[b := info[b].(randomPos := i)];
      random := random[i := b];
      random := random[j := a];
    }

    /** Takes an entry without references out of all tables. */
    method Delete(x: Id)
      requires Placed(View(), x)
      modifies this`info, this`random, this`addr, this`nNew
      ensures View() == Deleted(Lasted(old(View()), x), x)
    {
      hide Swapped;
      SwapRandom(info[x].randomPos, |random| - 1);
      assert View() == Lasted(old(View()), x);
      random := random[..|random| - 1];
      addr := addr - {info[x].address.ip};
      info := info - {x};
      nNew := nNew - 1;
    }

    /** Removes an entry from one new bucket, and from all tables with its last reference. */
    method Release(x: Id, b: nat)
      requires Placed(View(), x) && b < |untried|
      modifies this
      ensures View() == Released(old(View()), x, b)
    {
      if info[x].refCount - 1 == 0 {
        Delete(x);
      } else {
        info := info[x := info[x].(refCount := info[x].refCount - 1)];
      }
      untried := untried[b := untried[b] - {x}];
    }

    /**
     * Makes room in a full new bucket: drops the first terrible entry, or else the oldest of up to
     * four entries picked at random.
     */
    method ShrinkNew(b: nat, now: int, ghost extra: Option<Id>) returns (x: Id, ghost picked: set<Id>)
      requires Inv(hashes, View(), extra) && b < |untried| && untried[b] != {}
      requires extra.Some? ==> extra.value !in untried[b]
      modifies this
      ensures Inv(hashes, View(), extra)
      ensures x in old(untried[b]) && old(untried[b]) <= old(info.Keys) && View() == Released(old(View()), x, b)
      ensures |untried| == NEW_BUCKET_COUNT && |untried[b]| == |old(untried[b])| - 1
      ensures Stay(old(info), info) && addr.Keys <= old(addr.Keys)
      ensures forall k :: k in old(info) && k != x ==>
              k in info && info[k] == old(info)[k].(randomPos := info[k].randomPos)
      ensures FirstTerrible(old(info), old(untried)[b], now, x) || NoneTerrible(old(info), old(untried)[b], now)
      ensures NoneTerrible(old(info), old(untried)[b], now) ==>
                picked <= old(untried)[b] && |picked| <= 4 && OldestOf(old(info), picked, x)
    {
      BucketsKnown(hashes, View(), b, extra);
      var terrible := FindTerrible(info, untried[b], now);
      if terrible.Some? {
        x, picked := terrible.value, {};
      } else {
        ghost var some := Any(untried[b]);
        assert {some} <= untried[b] && |{some}| == 1;
        var picks: set<Id> :| picks <= untried[b] && 1 <= |picks| <= 4;
        x := FindOldest(info, picks);
        picked := picks;
      }
      hide NoneTerrible, FirstTerrible, OldestOf;
      ReleaseKeeps(hashes, View(), x, b, extra);
      ReleaseFacts(hashes, View(), x, b, extra);
      hide Inv, Released, Stay;
      Release(x, b);
    }

    /**
     * Shuffles the front of a tried bucket and returns the position to evict from. `draws` are the
     * random positions, `least` the place where the least recent of the inspected entries ends up.
     */
    method SelectTried(b: nat) returns (pos: int, ghost draws: seq<nat>, ghost least: nat)
      requires Valid() && b < |tried|
      modifies this`tried
      ensures Valid() && b < |tried| && tried == old(tried)[b := tried[b]] && |tried[b]| == old(|tried[b]|)
      ensures Drawn(draws, old(tried)[b]) && tried[b] == Shuffled(old(tried)[b], draws)
      ensures |draws| == Min(|tried[b]|, TRIED_ENTRIES_INSPECT_ON_EVICT)
      ensures tried[b] == [] ==> pos == -1
      ensures tried[b] != [] ==> LeastRecent(info, tried[b][..|draws|], least) && pos == draws[least]
    {
      var bucket := tried[b];
      BucketListed(hashes, View(), b);
      pos, draws, least := -1, [], 0;
      hide LeastRecent;
      var oldest := None;
      var i := 0;
      while i < TRIED_ENTRIES_INSPECT_ON_EVICT && i < |bucket|
        invariant tried == old(tried) && 0 <= i == |draws| <= |bucket| && i <= TRIED_ENTRIES_INSPECT_ON_EVICT
        invariant Drawn(draws, tried[b]) && bucket == Shuffled(tried[b], draws)
        invariant forall k :: k in bucket ==> k in info
        invariant i == 0 <==> oldest.None?
        invariant i == 0 ==> pos == -1
        invariant i > 0 ==>
                  LeastRecent(info, bucket[..i], least) && pos == draws[least] && oldest.value == bucket[least]
      {
        var p: nat :| i <= p < |bucket|;
        var temp := bucket[p];
        DrawnMore(draws, tried[b], p);
        LeastStep(info, bucket, i, p, least);
        bucket := bucket[p := bucket[i]][i := temp];
        draws := draws + [p];
        if oldest.None? || info[temp].lastSuccess < info[oldest.value].lastSuccess {
          oldest, pos := Some(temp), p;
          least := i;
        }
        i := i + 1;
      }
      ShuffledPermutes(tried[b], draws);
      ShuffleKeeps(hashes, View(), b, bucket, None);
      tried := tried[b := bucket];
    }

    method AppendToTried(id: Id)
      requires id in info && |tried| == TRIED_BUCKET_COUNT && info[id].refCount == Refs(untried, id)
      modifies this
      ensures View() == TriedAppended(hashes, old(View()), id)
    {
      Withdraw(id);
      var b := TriedBucket(hashes, info[id].address);
      tried := tried[b := tried[b] + [id]];
      nTried := nTried + 1;
      info := info[id := info[id].(inTried := true)];
    }

    method ReplaceInTried(id: Id, pos: nat, origin: nat) returns (ghost c: nat)
      requires id in info && |tried| == TRIED_BUCKET_COUNT && info[id].refCount == Refs(untried, id)
      requires origin < |untried| == NEW_BUCKET_COUNT && pos < |tried[TriedBucket(hashes, info[id].address)]|
      requires tried[TriedBucket(hashes, info[id].address)][pos] in info
      requires tried[TriedBucket(hashes, info[id].address)][pos] != id
      modifies this
      ensures c == Refuge(hashes, old(View()), id, old(tried)[TriedBucket(hashes, old(info[id]).address)][pos], origin)
      ensures View() == TriedReplaced(hashes, old(View()), id, pos, c)
    {
      hide Refs;
      ghost var t := View();
      Withdraw(id);
      var b := TriedBucket(hashes, info[id].address);
      var x := tried[b][pos];
      var u := NewBucket(hashes, info[x].address, info[x].source);
      info := info[x := info[x].(inTried := false, refCount := 1)];
      if |untried[u]| < NEW_BUCKET_SIZE {
        untried := untried[u := untried[u] + {x}];
        c := u;
      } else {
        untried := untried[origin := untried[origin] + {x}];
        c := origin;
      }
      nNew := nNew + 1;
      tried := tried[b := tried[b][pos := id]];
      info := info[id := info[id].(inTried := true)];
      SetTwice(t.info, id, x, t.info[id].(refCount := 0), t.info[x].(inTried := false, refCount := 1), info[id]);
    }

    /** Moves an entry from the new buckets to its tried bucket, evicting another if that is full. */
    method MakeTried(id: Id, origin: nat) returns (ghost draws: seq<nat>, ghost least: nat)
      requires Valid() && origin < |untried| && id in untried[origin] && id in info
      modifies this
      ensures Valid() && info.Keys == old(info.Keys) && nTried + nNew == old(nTried + nNew)
      ensures info[id] == Promoted(old(info[id]))
      ensures old(|tried[TriedBucket(hashes, info[id].address)]|) < TRIED_BUCKET_SIZE ==>
                View() == TriedAppended(hashes, old(View()), id)
      ensures old(|tried[TriedBucket(hashes, info[id].address)]|) == TRIED_BUCKET_SIZE ==>
                Evicts(hashes, old(View()), id, origin, draws, least, View())
      ensures forall k :: k in info && info[k].inTried ==> k == id || (old(info)[k].inTried && info[k] == old(info)[k])
      ensures TimesStay(old(info), info)
    {
      draws, least := [], 0;
      var b := TriedBucket(hashes, info[id].address);
      NewMember(hashes, View(), origin, id);
      hide Inv, TimesStay, TriedAppended, TriedReplaced;
      if |tried[b]| < TRIED_BUCKET_SIZE {
        AppendKeeps(hashes, View(), id);
        AppendMoves(hashes, View(), id);
        AppendToTried(id);
        return;
      }
      var pos;
      pos, draws, least := SelectTried(b);
      ghost var s := View();
      TriedMember(hashes, s, b, pos);
      Room(untried, id, origin);
      ghost var c := ReplaceInTried(id, pos, origin);
      ReplaceKeeps(hashes, s, id, pos, c);
      ReplaceMoves(hashes, s, id, pos, c);
    }

    /** Some bucket, searched from a random one on, that holds the entry. */
    method FindBucket(id: Id) returns (b: nat)
      requires Valid() && id in info && !info[id].inTried
      ensures b < |untried| && id in untried[b]
    {
      NewEntryHasBucket(hashes, View(), id);
      ghost var held: nat :| held < |untried| && id in untried[held];
      var start: nat :| start < NEW_BUCKET_COUNT;
      ghost var last: nat := if held >= start then held - start else held + NEW_BUCKET_COUNT - start;
      assert Probe(last, start) == held;
      var n := 0;
      while n < |untried| && id !in untried[Probe(n, start)]
        invariant 0 <= n <= last < |untried| == NEW_BUCKET_COUNT
      {
        n := n + 1;
      }
      b := Probe(n, start);
    }

    /** A peer stays connected. */
    method Connected(a: Address, time: int)
      requires Valid()
      modifies this`info
      ensures Valid()
      ensures !Known(old(info), addr, a) ==> info == old(info)
      ensures Known(old(info), addr, a) ==>
                var e := old(info)[addr[a.ip]];
                info == old(info)[addr[a.ip] :=
                  if time - e.address.time > 20 * 60 then e.(address := e.address.(time := time)) else e]
    {
      var found := Find(a.ip);
      if found.None? { return; }
      var id := found.value;
      var e := info[id];
      if !SameService(e.address, a) { return; }
      if time - e.address.time > 20 * 60 {
        SetEntry(id, e.(address := e.address.(time := time)));
      }
    }

    method Attempt(a: Address, time: int)
      requires Valid()
      modifies this`info
      ensures Valid()
      ensures !Known(old(info), addr, a) ==> info == old(info)
      ensures Known(old(info), addr, a) ==>
                var e := old(info)[addr[a.ip]];
                info == old(info)[addr[a.ip] := e.(lastTry := time, attempts := e.attempts + 1)]
    {
      var found := Find(a.ip);
      if found.None? { return; }
      var id := found.value;
      var e := info[id];
      if !SameService(e.address, a) { return; }
      SetEntry(id, e.(lastTry := time, attempts := e.attempts + 1));
    }

    /** Changes the statistics of an entry. */
    method SetEntry(id: Id, e: Info)
      requires Valid() && id in info && SameEntry(info[id], e)
      modifies this`info
      ensures Valid() && info == old(info)[id := e]
    {
      ghost var t := View();
      SetStructure(info, id, e);
      info := info[id := e];
      hide Inv, SameStructure;
      StatisticsKeep(hashes, t, info, None);
      assert View() == t.(info := info);
    }

    /** A connection to the service succeeded. */
    method Good(a: Address, time: int)
      requires Valid()
      modifies this
      ensures Valid() && info.Keys == old(info.Keys) && nTried + nNew == old(nTried + nNew)
      ensures TriedSucceeded(old(info)) ==> (TriedSucceeded(info) <==> Known(old(info), old(addr), a) ==> time != 0)
      ensures TimesOk(old(info)) ==> (TimesOk(info) <==> Known(old(info), old(addr), a) ==> time >= 0)
      ensures !Known(old(info), old(addr), a) ==> View() == old(View())
      ensures Known(old(info), old(addr), a) ==>
                var id := old(addr)[a.ip];
                id in info && info[id] == Promoted(Succeeded(old(info)[id], time))
    {
      hide TriedSucceeded, TimesOk, TimesStay, TriedBucket, NewBucket, TriedAppended;
      ghost var start := info;
      var found := Find(a.ip);
      if found.None? { return; }
      var id := found.value;
      var e := info[id];
      if !SameService(e.address, a) { return; }
      SetEntry(id, Succeeded(e, time));
      if e.inTried {
        TriedUncounted(hashes, View(), id);
        if TriedSucceeded(start) { SuccessRecorded(start, info, id, time); }
        TimesRefl(info);
        TimesRecorded(start, info, info, id, time);
        return;
      }
      var b := FindBucket(id);
      ghost var middle := info;
      hide Inv, Evicts;
      var draws, least := MakeTried(id, b);
      if TriedSucceeded(start) { SuccessRecorded(start, info, id, time); }
      TimesRecorded(start, middle, info, id, time);
    }

    /** A random selection of addresses to tell a peer: up to 23 in a hundred, no two alike. */
    method GetAddr() returns (out: seq<Address>)
      requires Valid()
      modifies this`info, this`random
      ensures Valid() && OnlyPositionsMoved(old(info), info)
      ensures |out| == Min(GETADDR_MAX_PCT * old(|random|) / 100, GETADDR_MAX)
      ensures forall i :: 0 <= i < |out| ==>
              out[i].ip in addr && addr[out[i].ip] in info && info[addr[out[i].ip]].address == out[i]
      ensures forall i, j :: 0 <= i < j < |out| ==> out[i].ip != out[j].ip
    {
      hide Inv;
      out := [];
      var nodes := GETADDR_MAX_PCT * |random| / 100;
      if nodes > GETADDR_MAX { nodes := GETADDR_MAX; }
      ghost var size := |random|;
      var n := 0;
      while n < nodes
        invariant Valid() && OnlyPositionsMoved(old(info), info) && |random| == size
        invariant 0 <= n == |out| <= nodes <= size
        invariant Listed(info, random, out)
      {
        var p: nat :| n <= p < |random|;
        RandomListed(hashes, View(), n, p);
        ghost var before := View();
        if n != p { SwapKeeps(hashes, before, n, p, None); }
        SwapRandom(n, p);
        ListedSwap(hashes, before, n, p, out, info, random);
        out := out + [info[random[n]].address];
        n := n + 1;
      }
      ListedDistinct(hashes, View(), out);
    }

    /**
     * An address was announced. `now` is the adjusted time; the draw that makes further references
     * harder to get is arbitrary.
     */
    method Add(a: Address, routable: bool, source: Ip, penalty: int, now: int) returns (added: bool)
      requires Valid()
      modifies this
      ensures Valid()
      ensures added <==> routable && a.ip !in old(addr)
      ensures added ==> a.ip in addr && addr[a.ip] in info && info[addr[a.ip]].refCount == 1 &&
                        info[addr[a.ip]].address == Dated(a, penalty) && info[addr[a.ip]].source == source
      ensures !routable ==> View() == old(View())
      ensures Stay(old(info), info)
    {
      hide Inv, Refreshed;
      if !routable { return false; }
      var found := Find(a.ip);
      ghost var start := info;
      var id;
      if found.Some? {
        added := false;
        id := found.value;
        var more, roll := UpdateKnown(id, a, penalty, now);
        if !more { return; }
        CreatedUnlisted(hashes, View());
        BumpKeeps(hashes, View(), id);
      } else {
        added := true;
        CreateKeeps(hashes, View(), Dated(a, penalty), source);
        CreatedUnlisted(hashes, View());
        id := Create(Dated(a, penalty), source);
        nNew := nNew + 1;
      }
      ghost var middle := info;
      Reference(id, source, now);
      FindsEntry(hashes, View(), id);
      assert Stay(middle, info);
    }

    /** Refreshes a known entry; says whether it may get another reference. */
    method UpdateKnown(id: Id, a: Address, penalty: int, now: int) returns (more: bool, ghost roll: nat)
      requires Valid() && id in info
      modifies this`info
      ensures Valid() && id in info && info == old(info)[id := Refreshed(old(info[id]), a, penalty, now)]
      ensures SameEntry(old(info[id]), info[id]) && info[id].lastSuccess == old(info[id]).lastSuccess
      ensures info[id].lastTry == old(info[id]).lastTry
      ensures more <==>
                && a.time != 0 && (info[id].address.time == 0 || info[id].address.time < a.time)
                && !info[id].inTried && info[id].refCount != NEW_BUCKETS_PER_ADDRESS && roll == 0
      ensures !info[id].inTried ==>
              1 <= info[id].refCount <= NEW_BUCKETS_PER_ADDRESS && roll < Pow(2, info[id].refCount)
    {
      var e := Refreshed(info[id], a, penalty, now);
      SetEntry(id, e);
      roll := 0;
      if !e.inTried {
        assert NewEntryOk(info, untried, None, id);
        PowPositive(2, e.refCount);
      }
      if a.time == 0 || (e.address.time != 0 && a.time <= e.address.time) { return false, 0; }
      if e.inTried { return false, 0; }
      if e.refCount == NEW_BUCKETS_PER_ADDRESS { return false, 0; }
      var factor := 1;
      var n := 0;
      while n < e.refCount
        invariant 0 <= n <= e.refCount && factor == Pow(2, n) > 0
      {
        factor := factor * 2;
        n := n + 1;
      }
      var draw: nat :| draw < factor;
      roll := draw;
      more := !(factor > 1 && draw != 0);
    }

    /** Lists an entry in the new bucket of `source` too, unless it is there already. */
    method Reference(id: Id, source: Ip, now: int)
      requires id in info && !info[id].inTried && |untried| == NEW_BUCKET_COUNT
      requires Inv(hashes, Bumped(View(), id), Some(id))
      requires id in untried[NewBucket(hashes, info[id].address, source)] ==> Valid()
      modifies this
      ensures Valid() && addr.Keys <= old(addr.Keys) && Stay(old(info), info)
      ensures id in info && info[id].address == old(info[id].address) && info[id].source == old(info[id].source)
      ensures var b := NewBucket(hashes, info[id].address, source);
              && id in untried[b]
              && info[id].refCount == old(info[id].refCount) + (if id in old(untried)[b] then 0 else 1)
    {
      var b := NewBucket(hashes, info[id].address, source);
      if id !in untried[b] {
        info := info[id := info[id].(refCount := info[id].refCount + 1)];
        hide Inv;
        Insert(id, b, now);
      }
    }

    /** Puts an entry, counted already, into a new bucket. */
    method Insert(id: Id, b: nat, now: int)
      requires Inv(hashes, View(), Some(id)) && id in info && !info[id].inTried && b < |untried| && id !in untried[b]
      modifies this
      ensures Valid() && addr.Keys <= old(addr.Keys) && Stay(old(info), info)
      ensures id in info && info[id] == old(info[id]).(randomPos := info[id].randomPos)
      ensures b < |untried| && id in untried[b]
    {
      NewSizes(hashes, View(), b, Some(id));
      hide Inv, Stay;
      if |untried[b]| == NEW_BUCKET_SIZE {
        var x, picked := ShrinkNew(b, now, Some(id));
      } else {
        StayRefl(info);
      }
      InsertKeeps(hashes, View(), id, b);
      untried := untried[b := untried[b] + {id}];
    }

    /** The loop at the start of MakeTried: no new bucket keeps the entry. */
    method Withdraw(id: Id)
      requires id in info && info[id].refCount == Refs(untried, id)
      modifies this`info, this`untried, this`nNew
      ensures untried == Withdrawn(old(untried), id)
      ensures info == old(info)[id := old(info[id]).(refCount := 0)] && nNew == old(nNew) - 1
    {
      ghost var start := untried;
      ghost var entry := info[id];
      var n := 0;
      while n < |untried|
        invariant 0 <= n <= |untried| == |start| && nNew == old(nNew)
        invariant forall c :: 0 <= c < n ==> untried[c] == start[c] - {id}
        invariant forall c :: n <= c < |start| ==> untried[c] == start[c]
        invariant id in info && info == old(info)[id := entry.(refCount := Refs(untried, id))]
      {
        if id in untried[n] {
          RefsUpdate(untried, n, untried[n] - {id}, id);
          untried := untried[n := untried[n] - {id}];
          info := info[id := info[id].(refCount := info[id].refCount - 1)];
        }
        n := n + 1;
      }
      assert untried == Withdrawn(start, id);
      WithdrawnRefs(start, id, id);
      assert info == old(info)[id := entry.(refCount := 0)];
      nNew := nNew - 1;
    }
  }

  lemma NewMember(hs: Hashes, t: Tables, b: nat, id: Id)
    requires Inv(hs, t, None) && b < |t.untried| && id in t.untried[b]
    ensures id in t.info && !t.info[id].inTried && t.info[id].refCount == Refs(t.untried, id)
    ensures |t.tried| == TRIED_BUCKET_COUNT && |t.untried| == NEW_BUCKET_COUNT && |t.untried[b]| <= NEW_BUCKET_SIZE
    ensures TriedOk(hs, t.info, t.tried)
  {
    assert NewEntryOk(t.info, t.untried, None, id);
  }

  /** An entry has references exactly when it is not tried. */
  lemma NewCounted(hs: Hashes, t: Tables, id: Id)
    requires Inv(hs, t, None) && id in t.info
    ensures t.info[id].refCount != 0 <==> id in NewIds(t.info)
  {
    if !t.info[id].inTried { assert NewEntryOk(t.info, t.untried, None, id); }
  }

  lemma TriedMember(hs: Hashes, t: Tables, b: nat, pos: nat)
    requires Inv(hs, t, None) && b < |t.tried| && pos < |t.tried[b]|
    ensures t.tried[b][pos] in t.info && t.info[t.tried[b][pos]].inTried
  {
    var x := t.tried[b][pos];
    assert TriedOk(hs, t.info, t.tried);
    assert x in t.tried[b];
    assert 0 <= b < |t.tried| && x in t.tried[b] ==> x in t.info && t.info[x].inTried;
  }

  lemma ReplaceMoves(hs: Hashes, t: Tables, id: Id, pos: nat, c: nat)
    requires id in t.info && |t.tried| == TRIED_BUCKET_COUNT && c < |t.untried|
    requires pos < |t.tried[TriedBucket(hs, t.info[id].address)]|
    requires t.tried[TriedBucket(hs, t.info[id].address)][pos] in t.info
    ensures MovesOne(t, TriedReplaced(hs, t, id, pos, c), id)
  {
  }

  /** The entry that holds exactly this service. */
  predicate Known(info: map<Id, Info>, addr: map<Ip, Id>, a: Address) {
    a.ip in addr && addr[a.ip] in info && SameService(info[addr[a.ip]].address, a)
  }

  function Succeeded(e: Info, time: int): Info {
    e.(lastSuccess := time, lastTry := time, address := e.address.(time := time), attempts := 0)
  }

  /** A service that answered is given up only when it has not been seen for 30 days. */
  lemma GoodIsNotTerrible(e: Info, time: int, now: int)
    requires 0 < time <= now
    ensures IsTerrible(Succeeded(e, time), now) <==> now - time > 30 * 86_400
  {
  }

  /**
   * A service seen within 30 days that is not tried in this minute is given up after three attempts without
   * any success, or after ten of them more than seven days after the last.
   */
  lemma AttemptsAreCounted(e: Info, now: int)
    requires now - 30 * 86_400 <= e.address.time <= now && e.address.time > 0 && 0 <= e.lastTry < now - 60
    ensures IsTerrible(e, now) <==>
              (e.lastSuccess == 0 && e.attempts >= 3) || (now - e.lastSuccess > 7 * 86_400 && e.attempts >= 10)
  {
  }

  function Dated(a: Address, penalty: int): Address { a.(time := Max(0, a.time - penalty)) }

  /** The time a known entry of time `old_` gets from an announcement with time `time`. */
  function RefreshedTime(old_: int, time: int, penalty: int, now: int): int {
    var interval := if now - time < ONE_DAY then ONE_HOUR else ONE_DAY;
    if time != 0 && (old_ == 0 || old_ < time - interval - penalty) then Max(0, time - penalty) else old_
  }

  /** What an announcement tells about a known entry: a later time now and then, and services. */
  function Refreshed(e: Info, a: Address, penalty: int, now: int): Info {
    e.(address := e.address.(time := RefreshedTime(e.address.time, a.time, penalty, now),
                             services := e.address.services | a.services))
  }

  /**
   * The time moves forward to the announced one, less the penalty, if that is more than an hour later for
   * a service online within a day, and more than a day later otherwise.
   */
  lemma RefreshIsRare(old_: int, time: int, penalty: int, now: int)
    requires time > 0 && old_ > 0
    ensures var r, gap := RefreshedTime(old_, time, penalty, now), if now - time < 86_400 then 3600 else 86_400;
            if time - penalty - old_ > gap then r == time - penalty > old_ else r == old_
  {
  }

  predicate SameEntry(a: Info, b: Info) {
    && SameService(a.address, b.address)
    && a.refCount == b.refCount && a.inTried == b.inTried && a.randomPos == b.randomPos
  }

  lemma SetStructure(info: map<Id, Info>, id: Id, e: Info)
    requires id in info && SameEntry(info[id], e)
    ensures SameStructure(info, info[id := e])
  {
  }

  /** No tried entry is lost, demoted or added, and what is known of their successes stays. */
  predicate Stay(a: map<Id, Info>, b: map<Id, Info>) {
    && (forall k :: k in a && a[k].inTried ==> k in b && b[k].inTried)
    && (forall k :: k in b && b[k].inTried ==> k in a && a[k].inTried && a[k].lastSuccess == b[k].lastSuccess)
    && TimesStay(a, b)
  }

  /** No time of an entry changes, and an entry that is added has none. */
  predicate TimesStay(a: map<Id, Info>, b: map<Id, Info>) {
    forall k :: k in b ==>
      || (k in a && b[k].lastTry == a[k].lastTry && b[k].lastSuccess == a[k].lastSuccess)
      || b[k].lastTry == b[k].lastSuccess == 0
  }

  lemma SuccessRecorded(before: map<Id, Info>, after: map<Id, Info>, id: Id, time: int)
    requires TriedSucceeded(before) && id in after && after[id].inTried && after[id].lastSuccess == time
    requires forall k :: k in after && after[k].inTried && k != id ==>
               k in before && before[k].inTried && after[k].lastSuccess == before[k].lastSuccess
    ensures TriedSucceeded(after) <==> time != 0
  {
  }

  lemma TimesRecorded(before: map<Id, Info>, middle: map<Id, Info>, after: map<Id, Info>, id: Id, time: int)
    requires id in before && middle == before[id := Succeeded(before[id], time)] && TimesStay(middle, after)
    requires id in after && after[id].lastTry == time
    ensures TimesOk(before) ==> (TimesOk(after) <==> time >= 0)
  {
  }

  lemma TriedUncounted(hs: Hashes, t: Tables, id: Id)
    requires Inv(hs, t, None) && id in t.info && t.info[id].inTried
    ensures t.info[id] == Promoted(t.info[id])
  {
    assert TriedOk(hs, t.info, t.tried);
  }

  lemma FindsEntry(hs: Hashes, t: Tables, id: Id)
    requires Inv(hs, t, None) && id in t.info
    ensures t.info[id].address.ip in t.addr && t.addr[t.info[id].address.ip] == id
  {
    assert AddrOk(t.info, t.addr);
  }

  lemma StayRefl(a: map<Id, Info>)
    ensures Stay(a, a)
  {
  }

  lemma TimesRefl(a: map<Id, Info>)
    ensures TimesStay(a, a)
  {
  }

  /** What stays the same when an entry moves to the tried buckets. */
  predicate MovesOne(t: Tables, u: Tables, id: Id)
    requires id in t.info
  {
    && u.info.Keys == t.info.Keys && u.info[id] == Promoted(t.info[id]) && u.nTried + u.nNew == t.nTried + t.nNew
    && (forall k :: k in u.info && u.info[k].inTried ==> k == id || (t.info[k].inTried && u.info[k] == t.info[k]))
    && TimesStay(t.info, u.info)
  }

  lemma AppendMoves(hs: Hashes, t: Tables, id: Id)
    requires id in t.info && |t.tried| == TRIED_BUCKET_COUNT
    ensures MovesOne(t, TriedAppended(hs, t, id), id)
  {
  }

  lemma NewSizes(hs: Hashes, t: Tables, b: nat, extra: Option<Id>)
    requires Inv(hs, t, extra) && b < |t.untried|
    ensures |t.untried[b]| <= NEW_BUCKET_SIZE
  {
  }

  lemma CreatedUnlisted(hs: Hashes, t: Tables)
    requires Inv(hs, t, None)
    ensures |t.untried| == NEW_BUCKET_COUNT && t.idCount !in t.info
    ensures forall b :: 0 <= b < |t.untried| ==> t.idCount !in t.untried[b]
  {
    assert t.idCount !in t.info;
  }

  function Probe(n: nat, start: nat): (b: nat)
    ensures b < NEW_BUCKET_COUNT
  {
    (n + start) % NEW_BUCKET_COUNT
  }

  // The selection of GetAddr

  /** `out` gives the addresses of the first entries in random order. */
  predicate Listed(info: map<Id, Info>, random: seq<Id>, out: seq<Address>) {
    && |out| <= |random|
    && forall i :: 0 <= i < |out| ==> random[i] in info && info[random[i]].address == out[i]
  }

  lemma RandomListed(hs: Hashes, t: Tables, i: nat, j: nat)
    requires Inv(hs, t, None) && i < |t.random| && j < |t.random|
    ensures t.random[i] in t.info && t.random[j] in t.info
  {
    assert RandomOk(t.info, t.random);
  }

  lemma ListedSwap(hs: Hashes, t: Tables, i: nat, j: nat, out: seq<Address>, info: map<Id, Info>, random: seq<Id>)
    requires Inv(hs, t, None) && Listed(t.info, t.random, out) && |out| == i <= j < |t.random|
    requires t.random[i] in t.info && t.random[j] in t.info
    requires var u := if i == j then t else Swapped(t, i, j); info == u.info && random == u.random
    ensures |random| == |t.random| && random[i] in info && Listed(info, random, out + [info[random[i]].address])
    ensures OnlyPositionsMoved(t.info, info)
  {
    hide Inv;
  }

  lemma ListedDistinct(hs: Hashes, t: Tables, out: seq<Address>)
    requires Inv(hs, t, None) && Listed(t.info, t.random, out)
    ensures forall i :: 0 <= i < |out| ==>
              out[i].ip in t.addr && t.addr[out[i].ip] in t.info && t.info[t.addr[out[i].ip]].address == out[i]
    ensures forall i, j :: 0 <= i < j < |out| ==> out[i].ip != out[j].ip
  {
    forall i | 0 <= i < |out|
      ensures out[i].ip in t.addr && t.addr[out[i].ip] == t.random[i]
    {
      RandomListed(hs, t, i, i);
      FindsEntry(hs, t, t.random[i]);
    }
    RandomSize(t.info, t.random);
  }

  // Which entry of a full new bucket goes

  predicate NoneTerrible(info: map<Id, Info>, bucket: set<Id>, now: int)
    requires bucket <= info.Keys
  {
    forall y :: y in bucket ==> !IsTerrible(info[y], now)
  }

  predicate FirstTerrible(info: map<Id, Info>, bucket: set<Id>, now: int, x: Id)
    requires bucket <= info.Keys
  {
    x in bucket && IsTerrible(info[x], now) && forall y :: y in bucket && IsTerrible(info[y], now) ==> x <= y
  }

  /** The oldest of the picked entries; the one with the least id if there are several. */
  predicate OldestOf(info: map<Id, Info>, picked: set<Id>, x: Id) {
    && x in picked && x in info
    && forall y :: y in picked && y in info ==>
         info[x].address.time < info[y].address.time || (info[x].address.time == info[y].address.time && x <= y)
  }

  method FindTerrible(info: map<Id, Info>, bucket: set<Id>, now: int) returns (first: Option<Id>)
    requires bucket <= info.Keys
    ensures if first.Some? then FirstTerrible(info, bucket, now, first.value) else NoneTerrible(info, bucket, now)
  {
    first := None;
    var left := bucket;
    while left != {}
      invariant left <= bucket
      invariant if first.Some? then FirstTerrible(info, bucket - left, now, first.value)
                else NoneTerrible(info, bucket - left, now)
      decreases |left|
    {
      ghost var some := Any(left);
      assert some in left;
      var y :| y in left;
      if IsTerrible(info[y], now) && (first.None? || y < first.value) { first := Some(y); }
      left := left - {y};
    }
    assert bucket - left == bucket;
  }

  method FindOldest(info: map<Id, Info>, picked: set<Id>) returns (x: Id)
    requires picked != {} && picked <= info.Keys
    ensures OldestOf(info, picked, x)
  {
    ghost var some := Any(picked);
    assert some in picked;
    x :| x in picked;
    var left := picked - {x};
    while left != {}
      invariant left <= picked && OldestOf(info, picked - left, x)
      decreases |left|
    {
      ghost var other := Any(left);
      assert other in left;
      var y :| y in left;
      if info[y].address.time < info[x].address.time ||
         (info[y].address.time == info[x].address.time && y < x) { x := y; }
      left := left - {y};
    }
    assert picked - left == picked;
  }

  lemma BucketsKnown(hs: Hashes, t: Tables, b: nat, extra: Option<Id>)
    requires Inv(hs, t, extra) && b < |t.untried|
    ensures t.untried[b] <= t.info.Keys
  {
    forall id | id in t.untried[b] ensures id in t.info.Keys { assert id in t.info; }
  }

  lemma ReleaseFacts(hs: Hashes, t: Tables, x: Id, b: nat, extra: Option<Id>)
    requires Inv(hs, t, extra) && b < |t.untried| && x in t.untried[b] && extra != Some(x) && Placed(t, x)
    ensures var r := Released(t, x, b);
            && |r.untried| == NEW_BUCKET_COUNT && |r.untried[b]| == |t.untried[b]| - 1
            && Stay(t.info, r.info) && r.addr.Keys <= t.addr.Keys
            && (forall k :: k in t.info && k != x ==>
                k in r.info && r.info[k] == t.info[k].(randomPos := r.info[k].randomPos))
  {
    ReleaseKeeps(hs, t, x, b, extra);
    assert !t.info[x].inTried;
    hide Inv, Placed;
    ReleasedInfo(t, x, b);
  }

  lemma ReleasedInfo(t: Tables, x: Id, b: nat)
    requires b < |t.untried| && Placed(t, x) && !t.info[x].inTried
    ensures var r := Released(t, x, b);
            && Stay(t.info, r.info)
            && (forall k :: k in t.info && k != x ==>
                  k in r.info && r.info[k] == t.info[k].(randomPos := r.info[k].randomPos))
  {
    assert Released(t, x, b).info.Keys >= t.info.Keys - {x};
  }

  lemma BucketListed(hs: Hashes, t: Tables, b: nat)
    requires Inv(hs, t, None) && b < |t.tried|
    ensures forall k :: k in t.tried[b] ==> k in t.info
  {
  }

  /** What MakeTried does if the tried bucket is full. */
  predicate Evicts(hs: Hashes, t: Tables, id: Id, origin: nat, draws: seq<nat>, least: nat, after: Tables)
    requires id in t.info && |t.tried| == TRIED_BUCKET_COUNT && |t.untried| == NEW_BUCKET_COUNT && origin < |t.untried|
  {
    var b := TriedBucket(hs, t.info[id].address);
    && Outcome(t.info, t.tried[b], draws, least)
    && var s := t.(tried := t.tried[b := Shuffled(t.tried[b], draws)]);
    && s.tried[b][draws[least]] in t.info
    && after == TriedReplaced(hs, s, id, draws[least], Refuge(hs, s, id, s.tried[b][draws[least]], origin))
  }

  lemma Room(untried: seq<set<Id>>, id: Id, origin: nat)
    requires origin < |untried| && id in untried[origin] && |untried[origin]| <= NEW_BUCKET_SIZE
    ensures |untried[origin] - {id}| < NEW_BUCKET_SIZE
  {
  }

  /** The entry stands in the random order where it says it does. */
  predicate Placed(t: Tables, x: Id) {
    && x in t.info && 0 <= t.info[x].randomPos < |t.random|
    && t.random[t.info[x].randomPos] == x && t.random[|t.random| - 1] in t.info
  }

  lemma SetTwice(m: map<Id, Info>, id: Id, x: Id, e1: Info, ex: Info, e2: Info)
    requires x != id
    ensures m[id := e1][x := ex][id := e2] == m[x := ex][id := e2]
  {
  }

  lemma UpdateThenDrop(m: map<Id, Info>, x: Id, e: Info)
    ensures m[x := e] - {x} == m - {x}
  {
  }

  /** The tables with an entry moved to the end of the random order. */
  function Lasted(t: Tables, x: Id): (s: Tables)
    requires Placed(t, x)
    ensures x in s.info && |s.random| == |t.random|
  {
    var last := |t.random| - 1;
    if t.info[x].randomPos == last then t else Swapped(t, t.info[x].randomPos, last)
  }

  function Released(t: Tables, x: Id, b: nat): Tables
    requires Placed(t, x) && b < |t.untried|
  {
    var kept := if t.info[x].refCount == 1 then Deleted(Lasted(t, x), x)
                else t.(info := t.info[x := t.info[x].(refCount := t.info[x].refCount - 1)]);
    kept.(untried := t.untried[b := t.untried[b] - {x}])
  }

  lemma ReleaseKeeps(hs: Hashes, t: Tables, x: Id, b: nat, extra: Option<Id>)
    requires Inv(hs, t, extra) && b < |t.untried| && x in t.untried[b] && extra != Some(x)
    ensures Placed(t, x)
    ensures var r := Released(t, x, b);
            && Inv(hs, r, extra)
            && r.info.Keys == t.info.Keys - (if t.info[x].refCount == 1 then {x} else {})
            && (forall id :: id in r.info && id != x ==> r.info[id] == t.info[id].(randomPos := r.info[id].randomPos))
  {
    if t.info[x].refCount == 1 {
      SwapLast(hs, t, x, extra);
      var l := Lasted(t, x);
      UnheldThenDeleted(hs, l, x, b, extra);
      UpdateThenDrop(l.info, x, Unheld(l, x, b).info[x]);
      hide Inv, Lasted, Swapped;
      assert Released(t, x, b) == Deleted(Unheld(l, x, b), x);
    } else {
      assert NewEntryOk(t.info, t.untried, extra, x);
      UnheldKeeps(hs, t, x, b, extra);
    }
  }

  /** Swapping an entry with the last one makes it the last one, and changes nothing else of note. */
  lemma SwapLast(hs: Hashes, t: Tables, x: Id, extra: Option<Id>)
    requires Inv(hs, t, extra) && x in t.info
    ensures Placed(t, x)
    ensures var last := |t.random| - 1;
            var s := Lasted(t, x);
            && Inv(hs, s, extra) && OnlyPositionsMoved(t.info, s.info)
            && |s.random| == |t.random| && s.info[x].randomPos == last
            && s.untried == t.untried && s.info[x].refCount == t.info[x].refCount
  {
    assert RandomOk(t.info, t.random);
    var i, last := t.info[x].randomPos, |t.random| - 1;
    hide Inv, RandomOk;
    if i != last { SwapKeeps(hs, t, i, last, extra); }
  }
}
