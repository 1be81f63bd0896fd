/** The file form of the address tables (the serialiser in src/addrman.h). */
module AddrFile {
  import opened Common
  import opened AddrTables

  /** What the file keeps of an entry. */
  datatype Stored = Stored(address: Address, source: Ip, lastSuccess: int, attempts: int)

  /** The entries of both kinds in the order of their ids, then every new bucket as positions in the first list. */
  datatype File = File(nNew: int, nTried: int, buckets: int,
                       newInfos: seq<Stored>, triedInfos: seq<Stored>, lists: seq<seq<int>>)

  function Store(e: Info): Stored { Stored(e.address, e.source, e.lastSuccess, e.attempts) }

  function Restored(s: Stored, pos: int, tried: bool): Info {
    Info(s.address, s.source, s.lastSuccess, 0, s.attempts, 0, tried, pos)
  }

  /** Each part is as long as the number before it says; a negative number reads as none. */
  predicate Readable(f: File) {
    |f.newInfos| == Max(0, f.nNew) && |f.triedInfos| == Max(0, f.nTried) && |f.lists| == Max(0, f.buckets)
  }

  // Ids in ascending order

  function Ascend(s: set<Id>, n: nat): seq<Id> {
    if n == 0 then [] else Ascend(s, n - 1) + (if n - 1 in s then [n - 1] else [])
  }

  /** How many members come before `id`. */
  function Rank(s: set<Id>, id: nat): nat { |Ascend(s, id)| }

  lemma {:induction false} AscendMembers(s: set<Id>, n: nat)
    ensures NoDuplicates(Ascend(s, n))
    ensures forall x :: x in Ascend(s, n) <==> x in s && 0 <= x < n
    ensures forall i :: 0 <= i < |Ascend(s, n)| ==> Ascend(s, n)[i] in s && 0 <= Ascend(s, n)[i] < n
  {
    if n > 0 { AscendMembers(s, n - 1); }
  }

  lemma {:induction false} AscendPrefix(s: set<Id>, m: nat, n: nat)
    requires m <= n
    ensures |Ascend(s, m)| <= |Ascend(s, n)| && Ascend(s, n)[..|Ascend(s, m)|] == Ascend(s, m)
  {
    if m < n { AscendPrefix(s, m, n - 1); }
  }

  lemma RankFinds(s: set<Id>, id: nat, n: nat)
    requires id in s && id < n
    ensures Rank(s, id) < |Ascend(s, n)| && Ascend(s, n)[Rank(s, id)] == id
  {
    AscendPrefix(s, id + 1, n);
    assert Ascend(s, id + 1)[Rank(s, id)] == id;
  }

  lemma AscendSize(s: set<Id>, n: nat)
    requires forall x :: x in s ==> 0 <= x < n
    ensures |Ascend(s, n)| == |s|
  {
    AscendMembers(s, n);
    SeqSetSize(Ascend(s, n));
    forall x | x in s ensures x in Ascend(s, n) { assert 0 <= x < n; }
    assert (set x | x in Ascend(s, n)) == s;
  }

  /** Once all members are listed, nothing more comes. */
  lemma AscendFull(s: set<Id>, m: nat, n: nat)
    requires m <= n && (forall x :: x in s ==> 0 <= x < n) && |Ascend(s, m)| == |s|
    ensures Ascend(s, n) == Ascend(s, m)
  {
    AscendPrefix(s, m, n);
    AscendSize(s, n);
  }

  // Saving

  predicate All(ids: seq<Id>, info: map<Id, Info>) {
    forall i :: 0 <= i < |ids| ==> ids[i] in info
  }

  function StoreAll(info: map<Id, Info>, ids: seq<Id>): seq<Stored>
    requires All(ids, info)
  {
    seq(|ids|, i requires 0 <= i < |ids| => Store(info[ids[i]]))
  }

  function Ranks(s: set<Id>, ids: seq<Id>): (r: seq<nat>)
    requires forall i :: 0 <= i < |ids| ==> ids[i] >= 0
  {
    seq(|ids|, i requires 0 <= i < |ids| => Rank(s, ids[i]))
  }

  predicate Saves(t: Tables, f: File)
    requires IdsOk(t.info, t.idCount)
  {
    AscendMembers(NewIds(t.info), t.idCount);
    AscendMembers(TriedIds(t.info), t.idCount);
    && f.nNew == t.nNew && f.nTried == t.nTried && f.buckets == NEW_BUCKET_COUNT
    && f.newInfos == StoreAll(t.info, Ascend(NewIds(t.info), t.idCount))
    && f.triedInfos == StoreAll(t.info, Ascend(TriedIds(t.info), t.idCount))
    && |f.lists| == |t.untried|
    && forall b :: 0 <= b < |t.untried| ==> SavesBucket(t, b, f.lists[b])
  }

  predicate SavesBucket(t: Tables, b: nat, list: seq<int>)
    requires t.idCount >= 0 && b < |t.untried|
  {
    AscendMembers(t.untried[b], t.idCount);
    list == Ranks(NewIds(t.info), Ascend(t.untried[b], t.idCount))
  }

  // Loading

  function Empty(nNew: int, nTried: int): Tables {
    Tables(0, map[], map[], [], nTried, nNew, seq(TRIED_BUCKET_COUNT, _ => []), seq(NEW_BUCKET_COUNT, _ => {}))
  }

  /** One entry more, under the next id. */
  function Numbered(t: Tables, s: Stored, tried: bool): Tables {
    var id := t.idCount;
    t.(idCount := id + 1, info := t.info[id := Restored(s, |t.random|, tried)],
       addr := t.addr[s.address.ip := id], random := t.random + [id])
  }

  function LoadNew(t: Tables, infos: seq<Stored>): (r: Tables)
    ensures r.tried == t.tried && r.untried == t.untried && r.nTried == t.nTried
  {
    if infos == [] then t else Numbered(LoadNew(t, infos[..|infos| - 1]), infos[|infos| - 1], false)
  }

  /** An entry whose tried bucket is full is lost. */
  function LoadOneTried(hs: Hashes, t: Tables, s: Stored): (r: Tables)
    requires |t.tried| == TRIED_BUCKET_COUNT
    ensures |r.tried| == TRIED_BUCKET_COUNT && r.untried == t.untried
  {
    var b := TriedBucket(hs, s.address);
    if |t.tried[b]| < TRIED_BUCKET_SIZE then Numbered(t, s, true).(tried := t.tried[b := t.tried[b] + [t.idCount]])
    else t.(nTried := t.nTried - 1)
  }

  function LoadTried(hs: Hashes, t: Tables, infos: seq<Stored>): (r: Tables)
    requires |t.tried| == TRIED_BUCKET_COUNT
    ensures |r.tried| == TRIED_BUCKET_COUNT && r.untried == t.untried
  {
    if infos == [] then t else LoadOneTried(hs, LoadTried(hs, t, infos[..|infos| - 1]), infos[|infos| - 1])
  }

  /** Where a file lists new entries for another number of buckets, each goes to the one of its own source. */
  function LoadSpread(hs: Hashes, t: Tables, infos: seq<Stored>): (r: Tables)
    requires |t.untried| == NEW_BUCKET_COUNT
    ensures r.tried == t.tried && |r.untried| == |t.untried|
  {
    if infos == [] then t
    else
      var before, s := LoadSpread(hs, t, infos[..|infos| - 1]), infos[|infos| - 1];
      Spread(hs, Numbered(before, s, false), before.idCount, s)
  }

  function Spread(hs: Hashes, t: Tables, id: Id, s: Stored): (r: Tables)
    requires id in t.info && |t.untried| == NEW_BUCKET_COUNT
    ensures r.tried == t.tried && |r.untried| == |t.untried|
  {
    var b := NewBucket(hs, s.address, s.source);
    t.(untried := t.untried[b := t.untried[b] + {id}],
        info := t.info[id := t.info[id].(refCount := t.info[id].refCount + 1)])
  }

  /** What looking up an id that no entry has leaves in the map. */
  const UNKNOWN := Info(Address(0, 0, 1, 100000000), 0, 0, 0, 0, 0, false, -1)

  function Touched(t: Tables, k: Id): (r: Tables)
    ensures k in r.info && (k in t.info ==> r == t)
  {
    if k in t.info then t else t.(info := t.info[k := UNKNOWN])
  }

  function LoadReference(t: Tables, b: nat, k: Id): (r: Tables)
    requires b < |t.untried|
    ensures |r.untried| == |t.untried|
  {
    var u := Touched(t, k);
    if u.info[k].refCount < NEW_BUCKETS_PER_ADDRESS then
      u.(info := u.info[k := u.info[k].(refCount := u.info[k].refCount + 1)],
          untried := u.untried[b := u.untried[b] + {k}])
    else u
  }

  function LoadList(t: Tables, b: nat, list: seq<int>): (r: Tables)
    requires b < |t.untried|
    ensures |r.untried| == |t.untried|
  {
    if list == [] then t else LoadReference(LoadList(t, b, list[..|list| - 1]), b, list[|list| - 1])
  }

  function LoadLists(t: Tables, lists: seq<seq<int>>): (r: Tables)
    requires |lists| <= |t.untried|
    ensures |r.untried| == |t.untried|
  {
    if lists == [] then t else LoadList(LoadLists(t, lists[..|lists| - 1]), |lists| - 1, lists[|lists| - 1])
  }

  function TouchList(t: Tables, list: seq<int>): Tables {
    if list == [] then t else Touched(TouchList(t, list[..|list| - 1]), list[|list| - 1])
  }

  function TouchLists(t: Tables, lists: seq<seq<int>>): Tables {
    if lists == [] then t else TouchList(TouchLists(t, lists[..|lists| - 1]), lists[|lists| - 1])
  }

  function Loaded(hs: Hashes, f: File): Tables
    requires Readable(f)
  {
    var empty := Empty(f.nNew, f.nTried);
    if f.buckets == NEW_BUCKET_COUNT then
      LoadLists(LoadTried(hs, LoadNew(empty, f.newInfos).(idCount := f.nNew), f.triedInfos), f.lists)
    else
      TouchLists(LoadTried(hs, LoadSpread(hs, empty, f.newInfos).(idCount := f.nNew), f.triedInfos), f.lists)
  }
}
