/** Loading what was saved gives the same address tables under new ids. */
module AddrRoundTrip {
  import opened Common
  import opened AddrTables
  import opened AddrFile

  /** The new entry at `k` is the old one, but for the last try and the reference count. */
  ghost predicate Copied(e: Info, r: Info, k: int) {
    r == Info(e.address, e.source, e.lastSuccess, 0, e.attempts, r.refCount, e.inTried, k)
  }

  /** The first `n` of `ids` have been numbered in order. */
  ghost predicate Names(a: map<Id, Info>, ids: seq<Id>, n: nat, t: Tables) {
    && n <= |ids| && t.idCount == n == |t.random|
    && (forall k :: k in t.info <==> 0 <= k < n)
    && (forall k :: 0 <= k < n ==> t.random[k] == k && NamedAt(a, ids, t, k))
    && (forall ip :: ip in t.addr ==> var k := t.addr[ip]; 0 <= k < n && ids[k] in a && a[ids[k]].address.ip == ip)
  }

  ghost predicate NamedAt(a: map<Id, Info>, ids: seq<Id>, t: Tables, k: nat)
    requires k < |ids| && k in t.info
  {
    ids[k] in a && Copied(a[ids[k]], t.info[k], k) && a[ids[k]].address.ip in t.addr &&
        t.addr[a[ids[k]].address.ip] == k
  }

  ghost predicate Distinct(a: map<Id, Info>, ids: seq<Id>) {
    && NoDuplicates(ids) && (forall x :: x in ids <==> x in a)
    && (forall x, y :: x in a && y in a && x != y ==> a[x].address.ip != a[y].address.ip)
  }

  lemma NumberedNames(a: map<Id, Info>, ids: seq<Id>, n: nat, t: Tables)
    requires Distinct(a, ids) && Names(a, ids, n, t) && n < |ids| && ids[n] in a
    ensures Names(a, ids, n + 1, Numbered(t, Store(a[ids[n]]), a[ids[n]].inTried))
  {
    var u := Numbered(t, Store(a[ids[n]]), a[ids[n]].inTried);
    forall k | 0 <= k < n ensures u.random[k] == k && NamedAt(a, ids, u, k) {
      assert NamedAt(a, ids, t, k);
      assert ids[k] != ids[n];
    }
    assert NamedAt(a, ids, u, n);
  }

  /** No reference has been read yet. */
  ghost predicate NoRefs(t: Tables) {
    && (forall k :: k in t.info ==> t.info[k].refCount == 0)
    && t.untried == seq(NEW_BUCKET_COUNT, _ => {})
  }

  lemma {:induction false} NewNames(a: map<Id, Info>, ids: seq<Id>, j: nat, empty: Tables)
    requires Distinct(a, ids) && j <= |ids| && (forall k :: 0 <= k < j ==> ids[k] in a && !a[ids[k]].inTried)
    requires empty == Empty(empty.nNew, empty.nTried)
    ensures All(ids[..j], a)
    ensures var t := LoadNew(empty, StoreAll(a, ids[..j])); Names(a, ids, j, t) && NoRefs(t) && t.nNew == empty.nNew
  {
    if j > 0 {
      NewNames(a, ids, j - 1, empty);
      StoreAllPrefix(a, ids[..j]);
      assert ids[..j][..j - 1] == ids[..j - 1] && ids[..j][j - 1] == ids[j - 1];
      NumberedNames(a, ids, j - 1, LoadNew(empty, StoreAll(a, ids[..j - 1])));
    }
  }

  lemma StoreAllPrefix(a: map<Id, Info>, ids: seq<Id>)
    requires ids != [] && All(ids, a)
    ensures All(ids[..|ids| - 1], a)
    ensures var s := StoreAll(a, ids); |s| == |ids| && s[..|s| - 1] == StoreAll(a, ids[..|ids| - 1])
    ensures ids[|ids| - 1] in a && StoreAll(a, ids)[|ids| - 1] == Store(a[ids[|ids| - 1]])
  {
  }

  // The tried buckets

  /** Each tried bucket lists, once, the numbers of the entries that belong to it. */
  ghost predicate TriedListed(hs: Hashes, a: map<Id, Info>, ids: seq<Id>, n: nat, tried: seq<seq<Id>>)
    requires n <= |ids| && All(ids[..n], a)
  {
    && |tried| == TRIED_BUCKET_COUNT
    && forall b :: 0 <= b < |tried| ==> BucketListed(hs, a, ids, n, b, tried[b])
  }

  ghost predicate BucketListed(hs: Hashes, a: map<Id, Info>, ids: seq<Id>, n: nat, b: nat, bucket: seq<Id>)
    requires n <= |ids| && All(ids[..n], a)
  {
    && NoDuplicates(bucket)
    && forall k :: k in bucket <==> 0 <= k < n && a[ids[k]].inTried && TriedBucket(hs, a[ids[k]].address) == b
  }

  lemma DistinctAt(ids: seq<Id>, p: nat, q: nat)
    requires NoDuplicates(ids) && p < |ids| && q < |ids| && p != q
    ensures ids[p] != ids[q]
  {
  }

  /** A bucket never overflows on loading, as the old one did not. */
  lemma BucketFits(hs: Hashes, t: Tables, ids: seq<Id>, n: nat, b: nat, bucket: seq<Id>)
    requires TriedOk(hs, t.info, t.tried) && Distinct(t.info, ids) && n <= |ids| && b < TRIED_BUCKET_COUNT
    requires All(ids[..n], t.info)
    requires BucketListed(hs, t.info, ids, n, b, bucket)
    ensures |bucket| <= |t.tried[b]| <= TRIED_BUCKET_SIZE
  {
    var image := seq(|bucket|, i requires 0 <= i < |bucket| => assert bucket[i] in bucket; ids[bucket[i]]);
    forall i | 0 <= i < |bucket| ensures 0 <= bucket[i] < n && image[i] in t.tried[b] {
      var k := bucket[i];
      assert k in bucket && image[i] == ids[k];
    }
    forall i, j | 0 <= i < j < |image| ensures image[i] != image[j] {
      DistinctAt(ids, bucket[i], bucket[j]);
    }
    SeqSetSize(image);
    SeqSetSize(t.tried[b]);
    assert (set x | x in image) <= (set x | x in t.tried[b]);
    SubsetSize(set x | x in image, set x | x in t.tried[b]);
  }

  lemma ListedStep(hs: Hashes, a: map<Id, Info>, ids: seq<Id>, n: nat, tried: seq<seq<Id>>)
    requires n < |ids| && All(ids[..n], a) && ids[n] in a && a[ids[n]].inTried
    requires TriedListed(hs, a, ids, n, tried)
    ensures var b := TriedBucket(hs, a[ids[n]].address);
            TriedListed(hs, a, ids, n + 1, tried[b := tried[b] + [n]])
  {
    var b := TriedBucket(hs, a[ids[n]].address);
    var after := tried[b := tried[b] + [n]];
    forall c | 0 <= c < |after| ensures BucketListed(hs, a, ids, n + 1, c, after[c]) {
      assert BucketListed(hs, a, ids, n, c, tried[c]);
      if c == b { assert n !in tried[b]; }
    }
  }

  /** The first `n` entries have been numbered, without references, and nothing was lost. */
  ghost predicate LoadedTo(hs: Hashes, a: map<Id, Info>, ids: seq<Id>, n: nat, t: Tables) {
    n <= |ids| && All(ids[..n], a) && Names(a, ids, n, t) && NoRefs(t) && TriedListed(hs, a, ids, n, t.tried)
  }

  lemma TriedStep(hs: Hashes, t: Tables, ids: seq<Id>, n: nat, before: Tables)
    requires TriedOk(hs, t.info, t.tried) && Distinct(t.info, ids)
    requires LoadedTo(hs, t.info, ids, n, before) && n < |ids| && ids[n] in t.info && t.info[ids[n]].inTried
    ensures var r := LoadOneTried(hs, before, Store(t.info[ids[n]]));
            LoadedTo(hs, t.info, ids, n + 1, r) && r.nTried == before.nTried && r.nNew == before.nNew
  {
    hide Names, TriedListed, NamedAt, BucketListed, Distinct;
    var b := TriedBucket(hs, t.info[ids[n]].address);
    assert All(ids[..n + 1], t.info);
    NumberedNames(t.info, ids, n, before);
    ListedStep(hs, t.info, ids, n, before.tried);
    ListedBucket(hs, t.info, ids, n, before.tried, b);
    ListedBucket(hs, t.info, ids, n + 1, before.tried[b := before.tried[b] + [n]], b);
    BucketFits(hs, t, ids, n + 1, b, before.tried[b] + [n]);
    NamesCount(t.info, ids, n, before);
    var r := LoadOneTried(hs, before, Store(t.info[ids[n]]));
    NamesFrame(t.info, ids, n + 1, Numbered(before, Store(t.info[ids[n]]), true), r);
  }

  lemma ListedBucket(hs: Hashes, a: map<Id, Info>, ids: seq<Id>, n: nat, tried: seq<seq<Id>>, b: nat)
    requires n <= |ids| && All(ids[..n], a) && TriedListed(hs, a, ids, n, tried) && b < TRIED_BUCKET_COUNT
    ensures |tried| == TRIED_BUCKET_COUNT && BucketListed(hs, a, ids, n, b, tried[b])
  {
  }

  lemma NamesFrame(a: map<Id, Info>, ids: seq<Id>, n: nat, t: Tables, u: Tables)
    requires Names(a, ids, n, t) && u.idCount == t.idCount && u.random == t.random && u.addr == t.addr
    requires SameButRefs(t.info, u.info)
    ensures Names(a, ids, n, u)
  {
    forall k | 0 <= k < n ensures NamedAt(a, ids, u, k) { assert NamedAt(a, ids, t, k); }
  }

  lemma NamesCount(a: map<Id, Info>, ids: seq<Id>, n: nat, t: Tables)
    requires Names(a, ids, n, t)
    ensures t.idCount == n
  {
  }

  lemma {:induction false} TriedNames(hs: Hashes, t: Tables, ids: seq<Id>, m: nat, j: nat, base: Tables)
    requires TriedOk(hs, t.info, t.tried) && Distinct(t.info, ids) && m + j <= |ids|
    requires forall k :: m <= k < |ids| ==> ids[k] in t.info && t.info[ids[k]].inTried
    requires LoadedTo(hs, t.info, ids, m, base) && |base.tried| == TRIED_BUCKET_COUNT
    ensures All(ids[m..m + j], t.info)
    ensures var r := LoadTried(hs, base, StoreAll(t.info, ids[m..m + j]));
            LoadedTo(hs, t.info, ids, m + j, r) && r.nTried == base.nTried && r.nNew == base.nNew
  {
    hide LoadedTo, LoadOneTried, TriedOk, Distinct;
    if j == 0 {
      assert StoreAll(t.info, ids[m..m]) == [];
    } else {
      var n := m + j - 1;
      TriedNames(hs, t, ids, m, j - 1, base);
      StoreAllPrefix(t.info, ids[m..m + j]);
      assert ids[m..m + j][..j - 1] == ids[m..n] && ids[m..m + j][j - 1] == ids[n];
      TriedStep(hs, t, ids, n, LoadTried(hs, base, StoreAll(t.info, ids[m..n])));
    }
  }

  // The new buckets

  /** Only reference counts differ. */
  ghost predicate SameButRefs(a: map<Id, Info>, b: map<Id, Info>) {
    a.Keys == b.Keys && forall k :: k in a ==> b[k] == a[k].(refCount := b[k].refCount)
  }

  ghost predicate Counted(t: Tables) {
    forall k :: k in t.info ==> t.info[k].refCount == Refs(t.untried, k)
  }

  lemma ReferenceLoaded(t: Tables, b: nat, k: Id)
    requires b < |t.untried| && Counted(t) && k in t.info && k !in t.untried[b] &&
             t.info[k].refCount < NEW_BUCKETS_PER_ADDRESS
    ensures Counted(LoadReference(t, b, k)) && SameButRefs(t.info, LoadReference(t, b, k).info)
  {
    var r := LoadReference(t, b, k);
    forall x | x in r.info ensures r.info[x].refCount == Refs(r.untried, x) {
      RefsUpdate(t.untried, b, t.untried[b] + {k}, x);
    }
  }

  function Members(list: seq<int>): set<Id> { set k: Id | k in list }

  lemma MembersMore(list: seq<int>)
    requires list != [] && NoDuplicates(list)
    ensures var last := |list| - 1;
            Members(list) == Members(list[..last]) + {list[last]} && list[last] !in Members(list[..last])
  {
    var last := |list| - 1;
    assert list == list[..last] + [list[last]];
  }

  /** A list of distinct entries with references to spare goes into the empty bucket as it is. */
  lemma {:induction false} ListLoaded(t: Tables, b: nat, list: seq<int>)
    requires b < |t.untried| && t.untried[b] == {} && NoDuplicates(list) && Counted(t)
    requires forall k :: k in Members(list) ==> k in t.info && t.info[k].refCount < NEW_BUCKETS_PER_ADDRESS
    ensures var r := LoadList(t, b, list);
            && r == t.(info := r.info, untried := t.untried[b := Members(list)])
            && SameButRefs(t.info, r.info) && Counted(r)
            && (forall k :: k in t.info && k !in Members(list) ==> r.info[k] == t.info[k])
  {
    if list == [] {
      assert Members(list) == {};
      assert t.untried[b := Members(list)] == t.untried;
    } else {
      var last := |list| - 1;
      var k := list[last];
      MembersMore(list);
      hide Counted, Members, Refs;
      ListLoaded(t, b, list[..last]);
      var before := LoadList(t, b, list[..last]);
      assert k in Members(list);
      assert before.info[k] == t.info[k];
      ReferenceLoaded(before, b, k);
      assert LoadReference(before, b, k).untried == t.untried[b := Members(list)];
    }
  }

  /** The numbers, below `m`, of the members of a bucket. */
  ghost function Image(ids: seq<Id>, m: nat, bucket: set<Id>): set<Id>
    requires m <= |ids|
  {
    set k | 0 <= k < m && ids[k] in bucket
  }

  /** The first `j` buckets have been filled with the images of the old ones. */
  ghost predicate Filled(ids: seq<Id>, m: nat, old_: seq<set<Id>>, j: nat, untried: seq<set<Id>>)
    requires m <= |ids|
  {
    && j <= |old_| == |untried|
    && forall c :: 0 <= c < |untried| ==> untried[c] == if c < j then Image(ids, m, old_[c]) else {}
  }

  /** Fewer buckets, fewer references. */
  lemma {:induction false} RefsCompared(u: seq<set<Id>>, k: Id, w: seq<set<Id>>, id: Id)
    requires |u| == |w| && forall c :: 0 <= c < |u| ==> k in u[c] ==> id in w[c]
    ensures Refs(u, k) <= Refs(w, id)
    ensures (exists c :: 0 <= c < |u| && k !in u[c] && id in w[c]) ==> Refs(u, k) < Refs(w, id)
    ensures (forall c :: 0 <= c < |u| ==> (k in u[c] <==> id in w[c])) ==> Refs(u, k) == Refs(w, id)
  {
    if |u| > 0 {
      var last := |u| - 1;
      RefsCompared(u[..last], k, w[..last], id);
      if c :| 0 <= c < |u| && k !in u[c] && id in w[c] {
        if c < last { assert k !in u[..last][c] && id in w[..last][c]; }
      }
    }
  }

  /** The saved lists are good to load: distinct numbers of the right entries. */
  ghost predicate ListsOk(ids: seq<Id>, m: nat, old_: seq<set<Id>>, lists: seq<seq<int>>)
    requires m <= |ids|
  {
    && |lists| == |old_|
    && forall b :: 0 <= b < |lists| ==> NoDuplicates(lists[b]) && Members(lists[b]) == Image(ids, m, old_[b])
  }

  lemma {:induction false} ListsLoaded(t: Tables, ids: seq<Id>, m: nat, base: Tables, lists: seq<seq<int>>, j: nat)
    requires m <= |ids| && j <= |lists| && ListsOk(ids, m, t.untried, lists)
    requires forall k :: 0 <= k < m ==>
             k in base.info && ids[k] in t.info && Refs(t.untried, ids[k]) <= NEW_BUCKETS_PER_ADDRESS
    requires Filled(ids, m, t.untried, 0, base.untried) && Counted(base)
    ensures var r := LoadLists(base, lists[..j]);
            && r == base.(info := r.info, untried := r.untried)
            && Filled(ids, m, t.untried, j, r.untried) && Counted(r) && SameButRefs(base.info, r.info)
  {
    hide Counted, Refs, Image, LoadList, Members, NoDuplicates;
    if j > 0 {
      var b := j - 1;
      ListsLoaded(t, ids, m, base, lists, b);
      assert lists[..j][..b] == lists[..b];
      var before := LoadLists(base, lists[..b]);
      forall k | k in Members(lists[b]) ensures k in before.info && before.info[k].refCount < NEW_BUCKETS_PER_ADDRESS {
        ImageBelow(ids, m, t.untried[b], k);
        SpareReference(t, ids, m, before, b, k);
      }
      ListLoaded(before, b, lists[b]);
    }
  }

  lemma ImageBelow(ids: seq<Id>, m: nat, bucket: set<Id>, k: Id)
    requires m <= |ids| && k in Image(ids, m, bucket)
    ensures 0 <= k < m
  {
  }

  lemma SpareReference(t: Tables, ids: seq<Id>, m: nat, before: Tables, b: nat, k: Id)
    requires m <= |ids| && b < |t.untried| && k in Image(ids, m, t.untried[b]) && k in before.info
    requires Refs(t.untried, ids[k]) <= NEW_BUCKETS_PER_ADDRESS
    requires Filled(ids, m, t.untried, b, before.untried) && Counted(before)
    ensures before.info[k].refCount < NEW_BUCKETS_PER_ADDRESS
  {
    assert k !in before.untried[b] && ids[k] in t.untried[b];
    RefsCompared(before.untried, k, t.untried, ids[k]);
  }

  // The whole file

  /** The order in which the entries are written, and so numbered again. */
  ghost function Order(t: Tables): seq<Id>
    requires t.idCount >= 0
  {
    Ascend(NewIds(t.info), t.idCount) + Ascend(TriedIds(t.info), t.idCount)
  }

  lemma OrderMembers(info: map<Id, Info>, n: nat)
    requires IdsOk(info, n)
    ensures var new_, tried := Ascend(NewIds(info), n), Ascend(TriedIds(info), n);
            && |new_| == |NewIds(info)| && |tried| == |TriedIds(info)|
            && NoDuplicates(new_) && NoDuplicates(tried)
            && (forall k :: 0 <= k < |new_| ==> new_[k] in info && !info[new_[k]].inTried)
            && (forall k :: 0 <= k < |tried| ==> tried[k] in info && info[tried[k]].inTried)
            && (forall x :: x in info ==> x in if info[x].inTried then tried else new_)
  {
    AscendMembers(NewIds(info), n);
    AscendMembers(TriedIds(info), n);
    AscendSize(NewIds(info), n);
    AscendSize(TriedIds(info), n);
  }

  lemma OrderDistinct(hs: Hashes, t: Tables)
    requires Inv(hs, t, None)
    ensures var m := |Ascend(NewIds(t.info), t.idCount)|;
            && Distinct(t.info, Order(t)) && m == t.nNew && |Order(t)| == m + t.nTried
            && (forall k :: 0 <= k < m ==> Order(t)[k] in t.info && !t.info[Order(t)[k]].inTried)
            && (forall k :: m <= k < |Order(t)| ==> Order(t)[k] in t.info && t.info[Order(t)[k]].inTried)
  {
    OrderMembers(t.info, t.idCount);
    assert AddrOk(t.info, t.addr);
    hide TriedOk, NewOk, RandomOk, Ascend, NewIds, TriedIds;
  }

  lemma BucketSaved(t: Tables, b: nat, list: seq<int>)
    requires t.idCount >= 0 && b < |t.untried| && t.untried[b] <= NewIds(t.info) && SavesBucket(t, b, list)
    requires forall x :: x in NewIds(t.info) ==> 0 <= x < t.idCount
    ensures NoDuplicates(list)
    ensures var n := Ascend(NewIds(t.info), t.idCount); Members(list) == Image(n, |n|, t.untried[b])
  {
    var s, n, a := NewIds(t.info), Ascend(NewIds(t.info), t.idCount), Ascend(t.untried[b], t.idCount);
    AscendMembers(s, t.idCount);
    AscendMembers(t.untried[b], t.idCount);
    forall i | 0 <= i < |list| ensures list[i] < |n| && n[list[i]] == a[i] { RankFinds(s, a[i], t.idCount); }
    forall k | k in Image(n, |n|, t.untried[b]) ensures k in Members(list) {
      var x := n[k];
      assert x in a;
      var i :| 0 <= i < |a| && a[i] == x;
      RankFinds(s, x, t.idCount);
      if k != list[i] { DistinctAt(n, k, list[i]); }
    }
  }

  /** The new id of an entry. */
  ghost function Name(t: Tables, id: Id): Id
    requires IdsOk(t.info, t.idCount) && id in t.info
  {
    if t.info[id].inTried then |Ascend(NewIds(t.info), t.idCount)| + Rank(TriedIds(t.info), id)
    else Rank(NewIds(t.info), id)
  }

  /** `r` is `t` with entries renamed; only the last try, the random order and the order in tried buckets are lost. */
  ghost predicate SameUpToNames(t: Tables, r: Tables)
    requires IdsOk(t.info, t.idCount)
  {
    && r.nNew == t.nNew && r.nTried == t.nTried && |r.untried| == |t.untried| && |r.tried| == |t.tried|
    && (forall x, y :: x in t.info && y in t.info && Name(t, x) == Name(t, y) ==> x == y)
    && (forall k :: k in r.info <==> exists x :: x in t.info && Name(t, x) == k)
    && (forall x :: x in t.info ==> EntryKept(t, r, x))
  }

  ghost predicate EntryKept(t: Tables, r: Tables, x: Id)
    requires IdsOk(t.info, t.idCount) && x in t.info && |r.untried| == |t.untried| && |r.tried| == |t.tried|
  {
    var k := Name(t, x);
    && k in r.info && r.info[k] == t.info[x].(lastTry := 0, randomPos := r.info[k].randomPos)
    && t.info[x].address.ip in r.addr && r.addr[t.info[x].address.ip] == k
    && (forall b :: 0 <= b < |t.untried| ==> (k in r.untried[b] <==> x in t.untried[b]))
    && (forall b :: 0 <= b < |t.tried| ==> (k in r.tried[b] <==> x in t.tried[b]))
  }

  lemma NameFinds(hs: Hashes, t: Tables, id: Id)
    requires Inv(hs, t, None) && id in t.info
    ensures 0 <= Name(t, id) < |Order(t)| && Order(t)[Name(t, id)] == id
  {
    if t.info[id].inTried {
      RankFinds(TriedIds(t.info), id, t.idCount);
    } else {
      RankFinds(NewIds(t.info), id, t.idCount);
    }
  }

  /** What loading has reached when it is done. */
  ghost predicate LoadedAll(hs: Hashes, t: Tables, ids: seq<Id>, m: nat, r: Tables) {
    && m <= |ids| && All(ids, t.info) && Names(t.info, ids, |ids|, r)
    && ids[..|ids|] == ids && TriedListed(hs, t.info, ids, |ids|, r.tried)
    && Filled(ids, m, t.untried, |t.untried|, r.untried) && Counted(r)
    && r.nNew == m && r.nTried == |ids| - m
    && (forall k :: 0 <= k < |ids| ==> (t.info[ids[k]].inTried <==> k >= m))
  }

  lemma LoadedRefs(hs: Hashes, t: Tables, ids: seq<Id>, m: nat, r: Tables, k: nat)
    requires Inv(hs, t, None) && LoadedAll(hs, t, ids, m, r) && k < |ids|
    ensures k in r.info && r.info[k].refCount == t.info[ids[k]].refCount == Refs(r.untried, k)
  {
    RefsCompared(r.untried, k, t.untried, ids[k]);
    if k < m {
      assert NewEntryOk(t.info, t.untried, None, ids[k]);
    } else {
      RefsPositive(t.untried, ids[k]);
      if Refs(r.untried, k) > 0 {
        RefsPositive(r.untried, k);
      }
    }
  }

  lemma NamesInv(a: map<Id, Info>, ids: seq<Id>, t: Tables)
    requires Names(a, ids, |ids|, t)
    ensures RandomOk(t.info, t.random) && AddrOk(t.info, t.addr) && IdsOk(t.info, t.idCount)
  {
    forall k | k in t.info ensures NamedAt(a, ids, t, k) { assert 0 <= k < |ids|; }
    forall ip | ip in t.addr ensures t.addr[ip] in t.info && t.info[t.addr[ip]].address.ip == ip {
      assert NamedAt(a, ids, t, t.addr[ip]);
    }
  }

  lemma LoadedNew(hs: Hashes, t: Tables, ids: seq<Id>, m: nat, r: Tables)
    requires Inv(hs, t, None) && LoadedAll(hs, t, ids, m, r) && NoDuplicates(ids)
    ensures NewOk(r.info, r.untried, None)
  {
    forall k | k in r.info && !r.info[k].inTried ensures NewEntryOk(r.info, r.untried, None, k) {
      assert NamedAt(t.info, ids, r, k);
      LoadedRefs(hs, t, ids, m, r, k);
      assert NewEntryOk(t.info, t.untried, None, ids[k]);
    }
    forall b, k | 0 <= b < |r.untried| && k in r.untried[b] ensures k in r.info && !r.info[k].inTried {
      assert k in Image(ids, m, t.untried[b]);
      assert NamedAt(t.info, ids, r, k);
    }
    forall b | 0 <= b < |r.untried| ensures |r.untried[b]| <= NEW_BUCKET_SIZE {
      ImageSize(ids, m, t.untried[b]);
    }
  }

  lemma {:induction false} ImageSize(ids: seq<Id>, m: nat, bucket: set<Id>)
    requires m <= |ids| && NoDuplicates(ids)
    ensures |Image(ids, m, bucket)| <= |bucket|
    decreases m
  {
    if m > 0 {
      var id := ids[m - 1];
      ImageSize(ids, m - 1, bucket - {id});
      assert Image(ids, m, bucket) == Image(ids, m - 1, bucket - {id}) + (if id in bucket then {m - 1} else {});
    } else {
      assert Image(ids, m, bucket) == {};
    }
  }

  lemma LoadedTried(hs: Hashes, t: Tables, ids: seq<Id>, m: nat, r: Tables)
    requires Inv(hs, t, None) && LoadedAll(hs, t, ids, m, r) && Distinct(t.info, ids)
    ensures TriedOk(hs, r.info, r.tried)
  {
    forall b | 0 <= b < |r.tried| ensures |r.tried[b]| <= TRIED_BUCKET_SIZE && NoDuplicates(r.tried[b]) {
      assert BucketListed(hs, t.info, ids, |ids|, b, r.tried[b]);
      BucketFits(hs, t, ids, |ids|, b, r.tried[b]);
    }
    forall b, k | 0 <= b < |r.tried| && k in r.tried[b]
      ensures k in r.info && r.info[k].inTried && TriedBucket(hs, r.info[k].address) == b
    {
      assert BucketListed(hs, t.info, ids, |ids|, b, r.tried[b]);
      assert NamedAt(t.info, ids, r, k);
    }
    forall k | k in r.info && r.info[k].inTried
      ensures k in r.tried[TriedBucket(hs, r.info[k].address)] && r.info[k].refCount == 0
    {
      assert NamedAt(t.info, ids, r, k);
      LoadedRefs(hs, t, ids, m, r, k);
      var b := TriedBucket(hs, r.info[k].address);
      assert BucketListed(hs, t.info, ids, |ids|, b, r.tried[b]);
    }
  }

  ghost function Range(lo: int, hi: int): set<Id>
    decreases hi - lo
  {
    if hi <= lo then {} else Range(lo, hi - 1) + {hi - 1}
  }

  lemma {:induction false} RangeSize(lo: int, hi: int)
    requires lo <= hi
    ensures |Range(lo, hi)| == hi - lo && forall k :: k in Range(lo, hi) <==> lo <= k < hi
    decreases hi - lo
  {
    if lo < hi { RangeSize(lo, hi - 1); }
  }

  lemma LoadedCounts(hs: Hashes, t: Tables, ids: seq<Id>, m: nat, r: Tables)
    requires LoadedAll(hs, t, ids, m, r)
    ensures CountsOk(r.info, r.nTried, r.nNew)
  {
    forall k | k in r.info ensures r.info[k].inTried <==> k >= m { assert NamedAt(t.info, ids, r, k); }
    RangeSize(0, m);
    RangeSize(m, |ids|);
    forall k ensures k in NewIds(r.info) <==> k in Range(0, m) {}
    forall k ensures k in TriedIds(r.info) <==> k in Range(m, |ids|) {}
    assert NewIds(r.info) == Range(0, m) && TriedIds(r.info) == Range(m, |ids|);
  }

  lemma LoadedSame(hs: Hashes, t: Tables, r: Tables)
    requires Inv(hs, t, None) && LoadedAll(hs, t, Order(t), |Ascend(NewIds(t.info), t.idCount)|, r)
    ensures SameUpToNames(t, r)
  {
    OrderDistinct(hs, t);
    var ids, m := Order(t), |Ascend(NewIds(t.info), t.idCount)|;
    forall x | x in t.info
      ensures 0 <= Name(t, x) < |ids| && ids[Name(t, x)] == x && EntryKept(t, r, x)
    {
      NameFinds(hs, t, x);
      NamedSame(hs, t, ids, m, r, Name(t, x));
    }
    forall k ensures k in r.info <==> exists x :: x in t.info && Name(t, x) == k {
      if k in r.info {
        assert NamedAt(t.info, ids, r, k);
        NameFinds(hs, t, ids[k]);
      }
    }
  }

  lemma NamedSame(hs: Hashes, t: Tables, ids: seq<Id>, m: nat, r: Tables, k: nat)
    requires Inv(hs, t, None) && LoadedAll(hs, t, ids, m, r) && k < |ids|
    ensures k in r.info && ids[k] in t.info && ids[k] in ids
    ensures var e := t.info[ids[k]];
            && r.info[k] == e.(lastTry := 0, randomPos := k) && e.address.ip in r.addr && r.addr[e.address.ip] == k
    ensures |r.untried| == |t.untried| && |r.tried| == |t.tried|
    ensures forall b :: 0 <= b < |t.untried| ==> (k in r.untried[b] <==> ids[k] in t.untried[b])
    ensures forall b :: 0 <= b < |t.tried| ==> (k in r.tried[b] <==> ids[k] in t.tried[b])
  {
    assert NamedAt(t.info, ids, r, k);
    LoadedRefs(hs, t, ids, m, r, k);
    forall b | 0 <= b < |t.tried| ensures k in r.tried[b] <==> ids[k] in t.tried[b] {
      assert BucketListed(hs, t.info, ids, |ids|, b, r.tried[b]);
      TriedPlace(hs, t, ids[k], b);
    }
  }

  lemma TriedPlace(hs: Hashes, t: Tables, x: Id, b: nat)
    requires Inv(hs, t, None) && x in t.info && b < |t.tried|
    ensures x in t.tried[b] <==> t.info[x].inTried && TriedBucket(hs, t.info[x].address) == b
  {
    assert TriedOk(hs, t.info, t.tried);
  }

  // The law

  lemma NoneListed(hs: Hashes, a: map<Id, Info>, ids: seq<Id>, m: nat, tried: seq<seq<Id>>)
    requires m <= |ids| && forall k :: 0 <= k < m ==> ids[k] in a && !a[ids[k]].inTried
    requires tried == seq(TRIED_BUCKET_COUNT, _ => [])
    ensures All(ids[..m], a) && TriedListed(hs, a, ids, m, tried)
  {
  }

  /** The state of loading before the lists of references are read. */
  lemma EntriesLoaded(hs: Hashes, t: Tables, f: File)
    requires Inv(hs, t, None) && Saves(t, f)
    ensures var ids := Order(t);
            var base := LoadTried(hs, LoadNew(Empty(f.nNew, f.nTried), f.newInfos), f.triedInfos);
            LoadedTo(hs, t.info, ids, |ids|, base) && base.nNew == t.nNew && base.nTried == t.nTried
  {
    var ids, m := Order(t), |Ascend(NewIds(t.info), t.idCount)|;
    OrderDistinct(hs, t);
    assert ids[..m] == Ascend(NewIds(t.info), t.idCount) &&
           ids[m..m + (|ids| - m)] == Ascend(TriedIds(t.info), t.idCount);
    InvTried(hs, t);
    hide Inv, Ascend, NewIds, TriedIds, Order, TriedOk, Distinct;
    NumberedInOrder(hs, t, ids, m, Empty(f.nNew, f.nTried));
  }

  lemma NumberedInOrder(hs: Hashes, t: Tables, ids: seq<Id>, m: nat, empty: Tables)
    requires TriedOk(hs, t.info, t.tried) && Distinct(t.info, ids) && m <= |ids|
    requires forall k :: 0 <= k < m ==> ids[k] in t.info && !t.info[ids[k]].inTried
    requires forall k :: m <= k < |ids| ==> ids[k] in t.info && t.info[ids[k]].inTried
    requires empty == Empty(empty.nNew, empty.nTried)
    ensures All(ids[..m], t.info) && All(ids[m..m + (|ids| - m)], t.info)
    ensures var base := LoadTried(hs, LoadNew(empty, StoreAll(t.info, ids[..m])),
            StoreAll(t.info, ids[m..m + (|ids| - m)]));
            LoadedTo(hs, t.info, ids, |ids|, base) && base.nNew == empty.nNew && base.nTried == empty.nTried
  {
    hide TriedOk, Distinct, Names, NoRefs, TriedListed, StoreAll, LoadTried, LoadNew;
    NewNames(t.info, ids, m, empty);
    var base := LoadNew(empty, StoreAll(t.info, ids[..m]));
    NoneListed(hs, t.info, ids, m, base.tried);
    assert LoadedTo(hs, t.info, ids, m, base);
    hide LoadedTo;
    TriedNames(hs, t, ids, m, |ids| - m, base);
  }

  lemma InvTried(hs: Hashes, t: Tables)
    requires Inv(hs, t, None)
    ensures TriedOk(hs, t.info, t.tried)
  {
  }

  lemma ListsSaved(hs: Hashes, t: Tables, f: File)
    requires Inv(hs, t, None) && Saves(t, f)
    ensures Readable(f) && f.buckets == NEW_BUCKET_COUNT && f.nNew == |f.newInfos|
    ensures var m := |Ascend(NewIds(t.info), t.idCount)|; m <= |Order(t)| && ListsOk(Order(t), m, t.untried, f.lists)
  {
    OrderDistinct(hs, t);
    var n := Ascend(NewIds(t.info), t.idCount);
    forall b | 0 <= b < |f.lists|
      ensures NoDuplicates(f.lists[b]) && Members(f.lists[b]) == Image(Order(t), |n|, t.untried[b])
    {
      forall x | x in t.untried[b] ensures x in NewIds(t.info) { assert x in t.info; }
      BucketSaved(t, b, f.lists[b]);
      assert Image(Order(t), |n|, t.untried[b]) == Image(n, |n|, t.untried[b]);
    }
  }

  lemma {:induction false} RefsEmpty(untried: seq<set<Id>>, k: Id)
    requires forall b :: 0 <= b < |untried| ==> untried[b] == {}
    ensures Refs(untried, k) == 0
  {
    if untried != [] { RefsEmpty(untried[..|untried| - 1], k); }
  }

  lemma NewRefs(hs: Hashes, t: Tables, id: Id)
    requires Inv(hs, t, None) && id in t.info && !t.info[id].inTried
    ensures Refs(t.untried, id) <= NEW_BUCKETS_PER_ADDRESS
  {
    assert NewEntryOk(t.info, t.untried, None, id);
  }

  /** Reading the lists completes the state in which the entries were left. */
  lemma ReferencesLoaded(hs: Hashes, t: Tables, f: File, ids: seq<Id>, m: nat, base: Tables)
    requires Inv(hs, t, None) && m <= |ids| && ListsOk(ids, m, t.untried, f.lists)
    requires LoadedTo(hs, t.info, ids, |ids|, base) && base.nNew == m && base.nTried == |ids| - m
    requires forall k :: 0 <= k < |ids| ==> ids[k] in t.info && (t.info[ids[k]].inTried <==> k >= m)
    ensures |f.lists| <= |base.untried| && LoadedAll(hs, t, ids, m, LoadLists(base, f.lists))
  {
    hide Inv, TriedListed, Counted, Filled, ListsOk, Refs, NoRefs, Names, SameButRefs, LoadLists;
    assert ids[..|ids|] == ids;
    ReferencesReady(hs, t, ids, m, base);
    ListsAll(ids, m, t.untried, f.lists);
    assert f.lists[..|f.lists|] == f.lists;
    ListsLoaded(t, ids, m, base, f.lists, |f.lists|);
    NamesFrame(t.info, ids, |ids|, base, LoadLists(base, f.lists));
  }

  lemma ReferencesReady(hs: Hashes, t: Tables, ids: seq<Id>, m: nat, base: Tables)
    requires Inv(hs, t, None) && m <= |ids| && LoadedTo(hs, t.info, ids, |ids|, base)
    requires forall k :: 0 <= k < |ids| ==> ids[k] in t.info && (t.info[ids[k]].inTried <==> k >= m)
    ensures forall k :: 0 <= k < m ==> k in base.info && Refs(t.untried, ids[k]) <= NEW_BUCKETS_PER_ADDRESS
    ensures Counted(base) && |base.untried| == |t.untried| && Filled(ids, m, t.untried, 0, base.untried)
  {
    assert |t.untried| == NEW_BUCKET_COUNT;
    FreshCounted(t, ids, m, base);
    forall k | 0 <= k < m ensures k in base.info && Refs(t.untried, ids[k]) <= NEW_BUCKETS_PER_ADDRESS {
      NewRefs(hs, t, ids[k]);
    }
  }

  lemma ListsAll(ids: seq<Id>, m: nat, old_: seq<set<Id>>, lists: seq<seq<int>>)
    requires m <= |ids| && ListsOk(ids, m, old_, lists)
    ensures |lists| == |old_|
  {
  }

  lemma FreshCounted(t: Tables, ids: seq<Id>, m: nat, base: Tables)
    requires m <= |ids| && NoRefs(base) && |t.untried| == NEW_BUCKET_COUNT
    ensures Counted(base) && Filled(ids, m, t.untried, 0, base.untried) && |base.untried| == NEW_BUCKET_COUNT
  {
    forall k | k in base.info ensures base.info[k].refCount == Refs(base.untried, k) {
      RefsEmpty(base.untried, k);
    }
  }

  lemma LoadedInv(hs: Hashes, t: Tables, ids: seq<Id>, m: nat, r: Tables)
    requires Inv(hs, t, None) && LoadedAll(hs, t, ids, m, r) && Distinct(t.info, ids)
    ensures Inv(hs, r, None)
  {
    NamesInv(t.info, ids, r);
    LoadedNew(hs, t, ids, m, r);
    LoadedTried(hs, t, ids, m, r);
    LoadedCounts(hs, t, ids, m, r);
  }

  lemma {:induction false} NewNumbers(t: Tables, infos: seq<Stored>)
    ensures LoadNew(t, infos).idCount == t.idCount + |infos|
  {
    if infos != [] { NewNumbers(t, infos[..|infos| - 1]); }
  }

  lemma LoadedFrom(hs: Hashes, f: File)
    requires Readable(f) && f.buckets == NEW_BUCKET_COUNT && f.nNew == |f.newInfos|
    ensures Loaded(hs, f) ==
            LoadLists(LoadTried(hs, LoadNew(Empty(f.nNew, f.nTried), f.newInfos), f.triedInfos), f.lists)
  {
    hide LoadTried, LoadLists;
    NewNumbers(Empty(f.nNew, f.nTried), f.newInfos);
  }

  /**
   * A saved manager loads as itself under new ids: nothing is lost, no bucket overflows, and the
   * tables are consistent again.
   */
  lemma RoundTrip(hs: Hashes, t: Tables, f: File)
    requires Inv(hs, t, None) && Saves(t, f)
    ensures Readable(f)
    ensures Inv(hs, Loaded(hs, f), None) && SameUpToNames(t, Loaded(hs, f))
  {
    var ids, m := Order(t), |Ascend(NewIds(t.info), t.idCount)|;
    hide Inv, Ascend, NewIds, TriedIds, Order, LoadedTo, LoadedAll, Distinct, SameUpToNames, Saves, LoadTried,
         LoadNew, LoadLists;
    OrderDistinct(hs, t);
    ListsSaved(hs, t, f);
    EntriesLoaded(hs, t, f);
    LoadedFrom(hs, f);
    hide Loaded;
    var base := LoadTried(hs, LoadNew(Empty(f.nNew, f.nTried), f.newInfos), f.triedInfos);
    ReferencesLoaded(hs, t, f, ids, m, base);
    LoadedSame(hs, t, Loaded(hs, f));
    LoadedInv(hs, t, ids, m, Loaded(hs, f));
  }
}
