/**
 * The five cross-linked tables of the address manager and the invariant its debug check states
 * (CAddrMan in src/addrman.h, Check_ in src/addrman.cpp).
 */
module AddrTables {
  import opened Common

  const TRIED_BUCKET_COUNT: nat := 64
  const TRIED_BUCKET_SIZE: nat := 64
  const NEW_BUCKET_COUNT: nat := 256
  const NEW_BUCKET_SIZE: nat := 64
  const NEW_BUCKETS_PER_ADDRESS: nat := 4
  const TRIED_BUCKETS_PER_GROUP: nat := 4
  const NEW_BUCKETS_PER_SOURCE_GROUP: nat := 32

  type Id = int
  type Ip = int

  datatype Address = Address(ip: Ip, port: int, services: bv64, time: int)

  datatype Info = Info(address: Address, source: Ip, lastSuccess: int, lastTry: int, attempts: int,
                       refCount: int, inTried: bool, randomPos: int)

  type Group = int

  /**
   * The network group of an address and the keyed hashes that choose buckets: of a service, of a pair of groups,
   * and of a group and a number. The key never changes while tables are in use.
   */
  datatype Hashes = Hashes(group: Ip -> Group, service: (Ip, int) -> nat, pair: (Group, Group) -> nat,
                           tried: (Group, nat) -> nat, untried: (Group, nat) -> nat)

  /** Which tried bucket an address belongs to; it depends on the address and port only. */
  function TriedBucket(hs: Hashes, a: Address): (b: nat)
    ensures b < TRIED_BUCKET_COUNT
  {
    hs.tried(hs.group(a.ip), hs.service(a.ip, a.port) % TRIED_BUCKETS_PER_GROUP) % TRIED_BUCKET_COUNT
  }

  function NewBucket(hs: Hashes, a: Address, source: Ip): (b: nat)
    ensures b < NEW_BUCKET_COUNT
  {
    var g := hs.group(source);
    hs.untried(g, hs.pair(hs.group(a.ip), g) % NEW_BUCKETS_PER_SOURCE_GROUP) % NEW_BUCKET_COUNT
  }

  datatype Tables = Tables(idCount: int, info: map<Id, Info>, addr: map<Ip, Id>, random: seq<Id>,
                           nTried: int, nNew: int, tried: seq<seq<Id>>, untried: seq<set<Id>>)

  // How many "new" buckets hold an id

  function Refs(untried: seq<set<Id>>, id: Id): nat {
    if untried == [] then 0
    else Refs(untried[..|untried| - 1], id) + (if id in untried[|untried| - 1] then 1 else 0)
  }

  lemma {:induction false} RefsUpdate(untried: seq<set<Id>>, b: nat, s: set<Id>, id: Id)
    requires b < |untried|
    ensures Refs(untried[b := s], id) ==
            Refs(untried, id) - (if id in untried[b] then 1 else 0) + (if id in s then 1 else 0)
  {
    var last := |untried| - 1;
    if b == last {
      assert untried[b := s][..last] == untried[..last];
    } else {
      RefsUpdate(untried[..last], b, s, id);
      assert untried[b := s][..last] == untried[..last][b := s];
    }
  }

  lemma {:induction false} RefsPositive(untried: seq<set<Id>>, id: Id)
    ensures Refs(untried, id) > 0 <==> exists b :: 0 <= b < |untried| && id in untried[b]
  {
    if untried != [] {
      var last := |untried| - 1;
      RefsPositive(untried[..last], id);
      if Refs(untried[..last], id) > 0 {
        var b :| 0 <= b < last && id in untried[..last][b];
        assert id in untried[b];
      }
      if b :| 0 <= b < |untried| && id in untried[b] {
        if b < last { assert id in untried[..last][b]; }
      }
    }
  }

  // The invariant, table by table

  /** random and randomPos are inverse to each other. */
  predicate RandomOk(info: map<Id, Info>, random: seq<Id>) {
    && (forall i :: 0 <= i < |random| ==> random[i] in info && info[random[i]].randomPos == i)
    && (forall id :: id in info ==> 0 <= info[id].randomPos < |random| && random[info[id].randomPos] == id)
  }

  /** addr finds every entry by its address, and nothing else. */
  predicate AddrOk(info: map<Id, Info>, addr: map<Ip, Id>) {
    && (forall id :: id in info ==> info[id].address.ip in addr && addr[info[id].address.ip] == id)
    && (forall ip :: ip in addr ==> addr[ip] in info && info[addr[ip]].address.ip == ip)
  }

  /**
   * refCount counts the new buckets that hold an entry. An entry about to be put into one more
   * bucket, `extra`, already counts it.
   */
  ghost predicate NewOk(info: map<Id, Info>, untried: seq<set<Id>>, extra: Option<Id>) {
    && |untried| == NEW_BUCKET_COUNT
    && (forall b :: 0 <= b < |untried| ==> |untried[b]| <= NEW_BUCKET_SIZE)
    && (forall b, id :: 0 <= b < |untried| && id in untried[b] ==> id in info && !info[id].inTried)
    && (forall id {:trigger NewEntryOk(info, untried, extra, id)} :: id in info && !info[id].inTried ==>
          NewEntryOk(info, untried, extra, id))
  }

  ghost predicate NewEntryOk(info: map<Id, Info>, untried: seq<set<Id>>, extra: Option<Id>, id: Id)
    requires id in info
  {
    && info[id].refCount == Refs(untried, id) + (if extra == Some(id) then 1 else 0)
    && 1 <= info[id].refCount <= NEW_BUCKETS_PER_ADDRESS
  }

  /** Tried entries sit once in the bucket of their address. */
  predicate TriedOk(hs: Hashes, info: map<Id, Info>, tried: seq<seq<Id>>) {
    && |tried| == TRIED_BUCKET_COUNT
    && (forall b :: 0 <= b < |tried| ==> |tried[b]| <= TRIED_BUCKET_SIZE && NoDuplicates(tried[b]))
    && (forall b, id :: 0 <= b < |tried| && id in tried[b] ==>
          id in info && info[id].inTried && TriedBucket(hs, info[id].address) == b)
    && (forall id :: id in info && info[id].inTried ==>
          && id in tried[TriedBucket(hs, info[id].address)]
          && info[id].refCount == 0)
  }

  /** Tried entries have been connected to, as long as no success is reported for the time zero. */
  predicate TriedSucceeded(info: map<Id, Info>) {
    forall id :: id in info && info[id].inTried ==> info[id].lastSuccess != 0
  }

  predicate TimesOk(info: map<Id, Info>) {
    forall id :: id in info ==> info[id].lastTry >= 0 && info[id].lastSuccess >= 0
  }

  predicate NoDuplicates(s: seq<Id>) {
    forall i, j :: 0 <= i < j < |s| ==> s[i] != s[j]
  }

  function TriedIds(info: map<Id, Info>): set<Id> { set id | id in info && info[id].inTried }
  function NewIds(info: map<Id, Info>): set<Id> { set id | id in info && !info[id].inTried }

  predicate CountsOk(info: map<Id, Info>, nTried: int, nNew: int) {
    nTried == |TriedIds(info)| && nNew == |NewIds(info)|
  }

  predicate IdsOk(info: map<Id, Info>, idCount: int) {
    idCount >= 0 && forall id :: id in info ==> 0 <= id < idCount
  }

  ghost predicate Inv(hs: Hashes, t: Tables, extra: Option<Id>) {
    && RandomOk(t.info, t.random)
    && AddrOk(t.info, t.addr)
    && NewOk(t.info, t.untried, extra)
    && TriedOk(hs, t.info, t.tried)
    && CountsOk(t.info, t.nTried, t.nNew)
    && IdsOk(t.info, t.idCount)
  }

  // Consequences

  /** An entry that is not tried lies in some new bucket: the bail-out of Good_ is unreachable. */
  lemma NewEntryHasBucket(hs: Hashes, t: Tables, id: Id)
    requires Inv(hs, t, None) && id in t.info && !t.info[id].inTried
    ensures exists b :: 0 <= b < |t.untried| && id in t.untried[b]
  {
    assert NewEntryOk(t.info, t.untried, None, id);
    RefsPositive(t.untried, id);
  }

  function Union(buckets: seq<set<Id>>): set<Id> {
    if buckets == [] then {} else Union(buckets[..|buckets| - 1]) + buckets[|buckets| - 1]
  }

  lemma {:induction false} UnionMember(buckets: seq<set<Id>>, b: nat, id: Id)
    requires b < |buckets| && id in buckets[b]
    ensures id in Union(buckets)
  {
    var last := |buckets| - 1;
    if b < last { UnionMember(buckets[..last], b, id); }
  }

  lemma {:induction false} UnionBound(buckets: seq<set<Id>>, n: nat)
    requires forall b :: 0 <= b < |buckets| ==> |buckets[b]| <= n
    ensures |Union(buckets)| <= |buckets| * n
  {
    if buckets != [] {
      var last := |buckets| - 1;
      UnionBound(buckets[..last], n);
      var u := Union(buckets[..last]);
      assert |u + buckets[last]| <= |u| + |buckets[last]|;
      assert last * n + n == |buckets| * n;
    }
  }

  lemma {:induction false} SeqSetSize(s: seq<Id>)
    ensures |set x | x in s| <= |s|
    ensures NoDuplicates(s) ==> |set x | x in s| == |s|
  {
    if s != [] {
      var last := |s| - 1;
      SeqSetSize(s[..last]);
      assert s == s[..last] + [s[last]];
      assert (set x | x in s) == (set x | x in s[..last]) + {s[last]};
    }
  }

  lemma NewBounded(hs: Hashes, t: Tables)
    requires Inv(hs, t, None)
    ensures |NewIds(t.info)| <= 16384
  {
    UnionBound(t.untried, NEW_BUCKET_SIZE);
    forall id | id in NewIds(t.info) ensures id in Union(t.untried) {
      NewEntryHasBucket(hs, t, id);
      var b :| 0 <= b < |t.untried| && id in t.untried[b];
      UnionMember(t.untried, b, id);
    }
    SubsetSize(NewIds(t.info), Union(t.untried));
  }

  lemma TriedBounded(hs: Hashes, info: map<Id, Info>, tried: seq<seq<Id>>)
    requires TriedOk(hs, info, tried)
    ensures |TriedIds(info)| <= 4096
  {
    hide TriedBucket;
    var sets := seq(|tried|, b requires 0 <= b < |tried| => set x | x in tried[b]);
    forall b | 0 <= b < |sets| ensures |sets[b]| <= TRIED_BUCKET_SIZE { SeqSetSize(tried[b]); }
    UnionBound(sets, TRIED_BUCKET_SIZE);
    forall id | id in TriedIds(info) ensures id in Union(sets) {
      UnionMember(sets, TriedBucket(hs, info[id].address), id);
    }
    SubsetSize(TriedIds(info), Union(sets));
  }

  /** The tables are bounded whatever the network sends: 4096 tried and 16384 new entries. */
  lemma Bounded(hs: Hashes, t: Tables)
    requires Inv(hs, t, None)
    ensures t.nTried <= 4096 && t.nNew <= 16384
    ensures |t.random| == |t.info| == t.nTried + t.nNew <= 20480
  {
    NewBounded(hs, t);
    TriedBounded(hs, t.info, t.tried);
    RandomSize(t.info, t.random);
    hide NewOk, TriedOk, RandomOk, AddrOk;
    assert t.info.Keys == TriedIds(t.info) + NewIds(t.info);
    assert |t.info.Keys| == |TriedIds(t.info)| + |NewIds(t.info)|;
  }

  // No group can crowd out the others

  function GroupIds(hs: Hashes, info: map<Id, Info>, g: Group): set<Id> {
    set id | id in info && info[id].inTried && hs.group(info[id].address.ip) == g
  }

  /** At most 256 of the tried entries belong to one group. */
  lemma GroupBounded(hs: Hashes, t: Tables, g: Group)
    requires Inv(hs, t, None)
    ensures |GroupIds(hs, t.info, g)| <= 256
  {
    var sets := seq(4, k requires 0 <= k < 4 => set x | x in t.tried[hs.tried(g, k) % 64]);
    forall k | 0 <= k < 4 ensures |sets[k]| <= TRIED_BUCKET_SIZE { SeqSetSize(t.tried[hs.tried(g, k) % 64]); }
    UnionBound(sets, TRIED_BUCKET_SIZE);
    forall id | id in GroupIds(hs, t.info, g) ensures id in Union(sets) {
      var a := t.info[id].address;
      UnionMember(sets, hs.service(a.ip, a.port) % 4, id);
    }
    SubsetSize(GroupIds(hs, t.info, g), Union(sets));
  }

  /** Whatever addresses a group announces, they go to at most 32 of the 256 new buckets. */
  lemma SourceBounded(hs: Hashes, g: Group)
    ensures exists buckets: set<int> ::
              |buckets| <= 32 && forall a, source :: hs.group(source) == g ==> NewBucket(hs, a, source) in buckets
  {
    var list: seq<int> := seq(32, k requires 0 <= k < 32 => hs.untried(g, k) % 256);
    var buckets := set x | x in list;
    SeqSetSize(list);
    forall a, source | hs.group(source) == g ensures NewBucket(hs, a, source) in buckets {
      assert list[hs.pair(hs.group(a.ip), g) % 32] == NewBucket(hs, a, source);
    }
  }

  lemma RandomSize(info: map<Id, Info>, random: seq<Id>)
    requires RandomOk(info, random)
    ensures NoDuplicates(random) && |random| == |info|
  {
    SeqSetSize(random);
    forall id | id in info ensures id in random { assert random[info[id].randomPos] == id; }
    assert (set x | x in random) == info.Keys;
  }
}
