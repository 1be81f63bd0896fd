/** The debug check of the address manager (Check_ in src/addrman.cpp): what finding no fault means. */
module AddrCheck {
  import opened Common
  import opened AddrTables
  import AddrSteps

  /** What the first loop asks of an entry. A missing address reads as the id 0. */
  predicate EntrySound(t: Tables, id: Id)
    requires id in t.info
  {
    var e := t.info[id];
    && (if e.inTried then e.lastSuccess != 0 && e.refCount == 0 else 1 <= e.refCount <= NEW_BUCKETS_PER_ADDRESS)
    && (if e.address.ip in t.addr then t.addr[e.address.ip] == id else id == 0)
    && 0 <= e.randomPos < |t.random| && t.random[e.randomPos] == id
    && e.lastTry >= 0 && e.lastSuccess >= 0
  }

  ghost predicate EntriesSound(t: Tables) {
    forall id {:trigger EntrySound(t, id)} :: id in t.info ==> EntrySound(t, id)
  }

  /** The members of all tried buckets, with repetition. */
  function TriedAll(tried: seq<seq<Id>>): multiset<Id> {
    if tried == [] then multiset{} else TriedAll(tried[..|tried| - 1]) + multiset(tried[|tried| - 1])
  }

  function Value(counts: map<Id, int>, id: Id): int { if id in counts then counts[id] else 0 }

  function References(info: map<Id, Info>, id: Id): int {
    if id in info && !info[id].inTried then info[id].refCount else 0
  }

  /** The tried buckets hold every tried entry once, and the new ones each new entry as often as it says. */
  ghost predicate Sound(t: Tables) {
    && |t.random| == t.nTried + t.nNew
    && EntriesSound(t)
    && CountsOk(t.info, t.nTried, t.nNew)
    && TriedAll(t.tried) == multiset(TriedIds(t.info))
    && forall id :: Refs(t.untried, id) == References(t.info, id)
  }

  /** Zero, or the number of a fault. */
  method Check(t: Tables) returns (code: int)
    ensures code == 0 <==> Sound(t)
  {
    if |t.random| != t.nTried + t.nNew { return -7; }
    var tried, counts;
    code, tried, counts := CheckEntries(t);
    if code != 0 { return; }
    hide EntriesSound, TriedIds, NewIds, TriedAll, Refs;
    if |tried| != t.nTried { return -9; }
    KeysCount(counts);
    if |counts| != t.nNew { return -10; }
    ghost var start, refs := tried, counts;
    ghost var x, y;
    code, tried, x := CheckTried(t.tried, tried);
    if code != 0 { return; }
    assert forall id :: Value(refs, id) == References(t.info, id) by { StartValues(t, refs); }
    code, counts, y := CheckNew(t.untried, counts);
    if code != 0 {
      assert Refs(t.untried, y) != References(t.info, y);
      return;
    }
    LeftOver(start, tried, TriedAll(t.tried));
    NoneLeft(t, refs, counts);
    KeysCount(counts);
    if |tried| != 0 { return -13; }
    if |counts| != 0 { return -15; }
  }

  lemma KeysCount(m: map<Id, int>)
    ensures |m| == |m.Keys| && (|m| == 0 <==> m == map[])
  {
  }

  lemma StartValues(t: Tables, counts: map<Id, int>)
    requires counts.Keys == NewIds(t.info) && forall id :: id in counts ==> counts[id] == t.info[id].refCount
    ensures forall id :: Value(counts, id) == References(t.info, id)
  {
    forall id ensures Value(counts, id) == References(t.info, id) { assert id in counts <==> id in NewIds(t.info); }
  }

  lemma LeftOver(start: set<Id>, left: set<Id>, all: multiset<Id>)
    requires multiset(start) == multiset(left) + all
    ensures |left| == 0 <==> all == multiset(start)
  {
    assert |multiset(left)| == |left|;
    assert |multiset(start)| == |left| + |all|;
  }

  lemma NoneLeft(t: Tables, start: map<Id, int>, counts: map<Id, int>)
    requires forall id :: Value(start, id) == References(t.info, id)
    requires forall id :: Value(counts, id) + Refs(t.untried, id) == Value(start, id)
    requires forall id :: id in counts ==> counts[id] > 0
    ensures counts == map[] <==> forall id :: Refs(t.untried, id) == References(t.info, id)
  {
    if forall id :: Refs(t.untried, id) == References(t.info, id) {
      forall id ensures id !in counts {
        assert Value(counts, id) + Refs(t.untried, id) == Value(start, id) == References(t.info, id);
      }
      NoKeys(counts.Keys);
      assert counts.Keys == {};
    }
  }

  lemma NoKeys(s: set<Id>)
    requires forall id :: id !in s
    ensures s == {}
  {
    if s != {} { HasMember(s, Any(s)); }
  }

  lemma HasMember(s: set<Id>, x: Id)
    requires x in s
    ensures exists id :: id in s
  {
  }

  method CheckEntries(t: Tables) returns (code: int, tried: set<Id>, counts: map<Id, int>)
    ensures code == 0 <==> EntriesSound(t)
    ensures code == 0 ==> tried == TriedIds(t.info) && counts.Keys == NewIds(t.info)
    ensures code == 0 ==> forall id :: id in counts ==> counts[id] == t.info[id].refCount && counts[id] > 0
  {
    tried, counts := {}, map[];
    var left := t.info.Keys;
    while left != {}
      invariant left <= t.info.Keys
      invariant forall id {:trigger EntrySound(t, id)} :: id in t.info && id !in left ==> EntrySound(t, id)
      invariant tried == TriedIds(t.info) - left && counts.Keys == NewIds(t.info) - left
      invariant forall id :: id in counts ==> counts[id] == t.info[id].refCount && counts[id] > 0
      decreases |left|
    {
      ghost var some := Any(left);
      assert some in left;
      var n :| n in left;
      var fault := EntryFault(t, n);
      if fault != 0 { return fault, tried, counts; }
      if t.info[n].inTried { tried := tried + {n}; } else { counts := counts[n := t.info[n].refCount]; }
      left := left - {n};
    }
    code := 0;
  }

  method EntryFault(t: Tables, n: Id) returns (code: int)
    requires n in t.info
    ensures code == 0 <==> EntrySound(t, n)
  {
    var e := t.info[n];
    if e.inTried {
      if e.lastSuccess == 0 { return -1; }
      if e.refCount != 0 { return -2; }
    } else {
      if e.refCount < 0 || e.refCount > NEW_BUCKETS_PER_ADDRESS { return -3; }
      if e.refCount == 0 { return -4; }
    }
    if (if e.address.ip in t.addr then t.addr[e.address.ip] else 0) != n { return -5; }
    if e.randomPos < 0 || e.randomPos >= |t.random| || t.random[e.randomPos] != n { return -14; }
    if e.lastTry < 0 { return -6; }
    if e.lastSuccess < 0 { return -8; }
    code := 0;
  }

  // The tried buckets

  lemma {:induction false} TriedAllPrefix(tried: seq<seq<Id>>, n: nat, x: Id)
    requires n <= |tried|
    ensures TriedAll(tried[..n])[x] <= TriedAll(tried)[x]
    decreases |tried| - n
  {
    if n == |tried| {
      assert tried[..n] == tried;
    } else {
      TriedAllPrefix(tried, n + 1, x);
      TriedAllStep(tried, n);
    }
  }

  lemma TriedAllStep(tried: seq<seq<Id>>, n: nat)
    requires n < |tried|
    ensures TriedAll(tried[..n + 1]) == TriedAll(tried[..n]) + multiset(tried[n])
  {
    assert tried[..n + 1][..n] == tried[..n];
  }

  /** Takes every member of the buckets out of `start`; `bad` is one that was not there any more. */
  method CheckTried(tried: seq<seq<Id>>, start: set<Id>) returns (code: int, left: set<Id>, ghost bad: Id)
    ensures code == 0 ==> multiset(start) == multiset(left) + TriedAll(tried)
    ensures code != 0 ==> TriedAll(tried)[bad] > multiset(start)[bad]
  {
    left, bad := start, 0;
    var n := 0;
    while n < |tried|
      invariant 0 <= n <= |tried| && multiset(start) == multiset(left) + TriedAll(tried[..n])
    {
      TriedAllStep(tried, n);
      hide TriedAll;
      var k := 0;
      while k < |tried[n]|
        invariant 0 <= k <= |tried[n]|
        invariant multiset(start) == multiset(left) + TriedAll(tried[..n]) + multiset(tried[n][..k])
      {
        var x := tried[n][k];
        assert tried[n][..k + 1] == tried[n][..k] + [x];
        if x !in left {
          bad := x;
          assert tried[n] == tried[n][..k] + [x] + tried[n][k + 1..];
          TriedAllPrefix(tried, n + 1, x);
          return -11, left, bad;
        }
        TakeOut(left, x);
        left := left - {x};
        k := k + 1;
      }
      assert tried[n][..k] == tried[n];
      n := n + 1;
    }
    assert tried[..n] == tried;
    code := 0;
  }

  lemma TakeOut(s: set<Id>, x: Id)
    requires x in s
    ensures multiset(s) == multiset(s - {x}) + multiset{x}
  {
    assert s == (s - {x}) + {x};
  }

  // The new buckets

  lemma {:induction false} RefsPrefix(untried: seq<set<Id>>, n: nat, id: Id)
    requires n <= |untried|
    ensures Refs(untried[..n], id) <= Refs(untried, id)
    decreases |untried| - n
  {
    if n == |untried| {
      assert untried[..n] == untried;
    } else {
      RefsPrefix(untried, n + 1, id);
      RefsStep(untried, n, id);
    }
  }

  lemma RefsStep(untried: seq<set<Id>>, n: nat, id: Id)
    requires n < |untried|
    ensures Refs(untried[..n + 1], id) == Refs(untried[..n], id) + (if id in untried[n] then 1 else 0)
  {
    assert untried[..n + 1][..n] == untried[..n];
  }

  /** What is left of the references after the first `n` buckets and the members `done` of the next. */
  ghost predicate Taken(untried: seq<set<Id>>, n: nat, done: set<Id>, start: map<Id, int>, counts: map<Id, int>)
    requires n <= |untried|
  {
    && (forall id :: Value(counts, id) + Refs(untried[..n], id) + (if id in done then 1 else 0) == Value(start, id))
    && (forall id :: id in counts ==> counts[id] > 0)
  }

  method CheckNew(untried: seq<set<Id>>, start: map<Id, int>) returns (code: int, counts: map<Id, int>, ghost bad: Id)
    requires forall id :: id in start ==> start[id] > 0
    ensures code == 0 ==> forall id :: Value(counts, id) + Refs(untried, id) == Value(start, id)
    ensures code == 0 ==> forall id :: id in counts ==> counts[id] > 0
    ensures code != 0 ==> Refs(untried, bad) > Value(start, bad)
  {
    counts, bad := start, 0;
    var n := 0;
    while n < |untried|
      invariant 0 <= n <= |untried| && Taken(untried, n, {}, start, counts)
    {
      hide Taken, Refs;
      code, counts, bad := CheckBucket(untried, n, start, counts);
      if code != 0 { return; }
      TakenNext(untried, n, start, counts);
      n := n + 1;
    }
    assert untried[..n] == untried;
    code := 0;
  }

  lemma TakenNext(untried: seq<set<Id>>, n: nat, start: map<Id, int>, counts: map<Id, int>)
    requires n < |untried| && Taken(untried, n, untried[n], start, counts)
    ensures Taken(untried, n + 1, {}, start, counts)
  {
    forall id ensures Value(counts, id) + Refs(untried[..n + 1], id) == Value(start, id) { RefsStep(untried, n, id); }
  }

  method CheckBucket(untried: seq<set<Id>>, n: nat, ghost start: map<Id, int>, before: map<Id, int>)
    returns (code: int, counts: map<Id, int>, ghost bad: Id)
    requires n < |untried| && Taken(untried, n, {}, start, before)
    ensures code == 0 ==> Taken(untried, n, untried[n], start, counts)
    ensures code != 0 ==> Refs(untried, bad) > Value(start, bad)
  {
    counts, bad := before, 0;
    var left := untried[n];
    assert untried[n] - left == {};
    hide Taken, Refs;
    while left != {}
      invariant left <= untried[n] && Taken(untried, n, untried[n] - left, start, counts)
      decreases |left|
    {
      ghost var some := Any(left);
      assert some in left;
      var x :| x in left;
      TakenOne(untried, n, untried[n] - left, start, counts, x);
      if x !in counts {
        bad := x;
        return -12, counts, bad;
      }
      counts := if counts[x] - 1 == 0 then counts - {x} else counts[x := counts[x] - 1];
      assert untried[n] - (left - {x}) == untried[n] - left + {x};
      left := left - {x};
    }
    assert untried[n] - left == untried[n];
    code := 0;
  }

  /** One member of a bucket: it has a reference left, or there are too many. */
  lemma TakenOne(untried: seq<set<Id>>, n: nat, done: set<Id>, start: map<Id, int>, counts: map<Id, int>, x: Id)
    requires n < |untried| && Taken(untried, n, done, start, counts) && x in untried[n] && x !in done
    ensures x !in counts ==> Refs(untried, x) > Value(start, x)
    ensures x in counts ==>
              Taken(untried, n, done + {x}, start,
                    if counts[x] - 1 == 0 then counts - {x} else counts[x := counts[x] - 1])
  {
    RefsStep(untried, n, x);
    RefsPrefix(untried, n + 1, x);
    hide Refs;
    assert Value(counts, x) + Refs(untried[..n], x) == Value(start, x);
  }

  // What the check covers of the invariant

  /** The part of the invariant that the check does not look at. */
  ghost predicate Overlooked(hs: Hashes, t: Tables) {
    && (forall ip :: ip in t.addr ==> t.addr[ip] in t.info && t.info[t.addr[ip]].address.ip == ip)
    && (0 in t.info ==> t.info[0].address.ip in t.addr)
    && |t.tried| == TRIED_BUCKET_COUNT && |t.untried| == NEW_BUCKET_COUNT
    && (forall b :: 0 <= b < |t.tried| ==> |t.tried[b]| <= TRIED_BUCKET_SIZE)
    && (forall b :: 0 <= b < |t.untried| ==> |t.untried[b]| <= NEW_BUCKET_SIZE)
    && (forall b, id :: 0 <= b < |t.tried| && id in t.tried[b] && id in t.info ==>
        TriedBucket(hs, t.info[id].address) == b)
    && IdsOk(t.info, t.idCount)
  }

  /** The check and what it does not look at make up the invariant, and nothing more than times and successes. */
  lemma CheckedInvariant(hs: Hashes, t: Tables)
    ensures Inv(hs, t, None) && TimesOk(t.info) && TriedSucceeded(t.info) <==> Sound(t) && Overlooked(hs, t)
  {
    if Inv(hs, t, None) && TimesOk(t.info) && TriedSucceeded(t.info) { InvariantIsSound(hs, t); }
    if Sound(t) && Overlooked(hs, t) { SoundIsInvariant(hs, t); }
  }

  lemma InvariantIsSound(hs: Hashes, t: Tables)
    requires Inv(hs, t, None) && TimesOk(t.info) && TriedSucceeded(t.info)
    ensures Sound(t) && Overlooked(hs, t)
  {
    Bounded(hs, t);
    forall id | id in t.info ensures EntrySound(t, id) {
      if !t.info[id].inTried { assert NewEntryOk(t.info, t.untried, None, id); }
    }
    forall id ensures Refs(t.untried, id) == References(t.info, id) { InvariantRefs(hs, t, id); }
    hide Refs;
    forall id ensures TriedAll(t.tried)[id] == multiset(TriedIds(t.info))[id] { InvariantTried(hs, t, id); }
  }

  lemma InvariantRefs(hs: Hashes, t: Tables, id: Id)
    requires Inv(hs, t, None)
    ensures Refs(t.untried, id) == References(t.info, id)
  {
    if id in t.info && !t.info[id].inTried {
      assert NewEntryOk(t.info, t.untried, None, id);
    } else {
      RefsPositive(t.untried, id);
      assert forall b :: 0 <= b < |t.untried| ==> id !in t.untried[b];
    }
  }

  lemma InvariantTried(hs: Hashes, t: Tables, id: Id)
    requires Inv(hs, t, None)
    ensures TriedAll(t.tried)[id] == multiset(TriedIds(t.info))[id]
  {
    assert TriedOk(hs, t.info, t.tried);
    hide Inv;
    var home := if id in t.info && t.info[id].inTried then Some(TriedBucket(hs, t.info[id].address)) else None;
    InvariantPrefix(hs, t, id, home, |t.tried|);
    assert t.tried[..|t.tried|] == t.tried;
  }

  lemma {:induction false} InvariantPrefix(hs: Hashes, t: Tables, id: Id, home: Option<nat>, n: nat)
    requires TriedOk(hs, t.info, t.tried) && n <= |t.tried|
    requires home == if id in t.info && t.info[id].inTried then Some(TriedBucket(hs, t.info[id].address)) else None
    ensures TriedAll(t.tried[..n])[id] == if home.Some? && home.value < n then 1 else 0
  {
    if n > 0 {
      InvariantPrefix(hs, t, id, home, n - 1);
      TriedAllStep(t.tried, n - 1);
      OnceIn(t.tried[n - 1], id);
    }
  }

  lemma {:induction false} OnceIn(s: seq<Id>, id: Id)
    requires NoDuplicates(s)
    ensures multiset(s)[id] == if id in s then 1 else 0
  {
    if s != [] {
      var last := |s| - 1;
      OnceIn(s[..last], id);
      assert s == s[..last] + [s[last]];
    }
  }

  lemma SoundIsInvariant(hs: Hashes, t: Tables)
    requires Sound(t) && Overlooked(hs, t)
    ensures Inv(hs, t, None) && TimesOk(t.info) && TriedSucceeded(t.info)
  {
    forall id | id in t.info ensures EntrySound(t, id) {}
    SoundRandom(t);
    SoundNew(t);
    SoundTried(hs, t);
    hide RandomOk, NewOk, TriedOk, TriedAll, Refs;
    assert AddrOk(t.info, t.addr);
  }

  /** As many places as entries, and every entry has one of its own: there is no other place. */
  lemma SoundRandom(t: Tables)
    requires Sound(t)
    ensures RandomOk(t.info, t.random)
  {
    forall id | id in t.info ensures EntrySound(t, id) {}
    assert t.info.Keys == TriedIds(t.info) + NewIds(t.info);
    assert |t.info.Keys| == |TriedIds(t.info)| + |NewIds(t.info)| == |t.random|;
    hide Sound, TriedIds, NewIds;
    forall id | id in t.info.Keys ensures id in t.random { assert t.random[t.info[id].randomPos] == id; }
    var all := set x | x in t.random;
    SeqSetSize(t.random);
    SubsetSize(t.info.Keys, all);
    SubsetEqual(t.info.Keys, all);
    AddrSteps.DistinctBySize(t.random);
    forall i | 0 <= i < |t.random| ensures t.random[i] in t.info && t.info[t.random[i]].randomPos == i {
      assert t.random[i] in all;
      var id := t.random[i];
      assert t.random[t.info[id].randomPos] == id;
    }
  }

  lemma SubsetEqual(a: set<Id>, b: set<Id>)
    requires a <= b && |a| >= |b|
    ensures a == b
  {
    assert b == a + (b - a);
    assert |b| == |a| + |b - a|;
  }

  lemma SoundNew(t: Tables)
    requires Sound(t) && |t.untried| == NEW_BUCKET_COUNT
    requires forall b :: 0 <= b < |t.untried| ==> |t.untried[b]| <= NEW_BUCKET_SIZE
    ensures NewOk(t.info, t.untried, None)
  {
    forall b, id | 0 <= b < |t.untried| && id in t.untried[b] ensures id in t.info && !t.info[id].inTried {
      RefsPositive(t.untried, id);
      assert Refs(t.untried, id) == References(t.info, id);
    }
    forall id | id in t.info && !t.info[id].inTried ensures NewEntryOk(t.info, t.untried, None, id) {
      assert EntrySound(t, id);
      assert Refs(t.untried, id) == References(t.info, id);
    }
  }

  lemma SoundTried(hs: Hashes, t: Tables)
    requires Sound(t) && Overlooked(hs, t)
    ensures TriedOk(hs, t.info, t.tried)
  {
    var ids := TriedIds(t.info);
    forall b | 0 <= b < |t.tried| ensures NoDuplicates(t.tried[b]) { DistinctInAll(t.tried, b, ids); }
    forall b, id | 0 <= b < |t.tried| && id in t.tried[b]
      ensures id in t.info && t.info[id].inTried && TriedBucket(hs, t.info[id].address) == b
    {
      CountedInAll(t.tried, b, id);
      assert id in multiset(ids);
    }
    forall id | id in t.info && t.info[id].inTried
      ensures id in t.tried[TriedBucket(hs, t.info[id].address)] && t.info[id].refCount == 0
    {
      assert EntrySound(t, id);
      assert id in ids && id in multiset(ids);
      var b := FoundInAll(t.tried, id);
    }
  }

  lemma CountedInAll(tried: seq<seq<Id>>, b: nat, id: Id)
    requires b < |tried|
    ensures multiset(tried[b])[id] <= TriedAll(tried)[id]
    ensures id in tried[b] ==> id in TriedAll(tried)
  {
    TriedAllStep(tried, b);
    TriedAllPrefix(tried, b + 1, id);
    assert id in tried[b] ==> id in multiset(tried[b]);
  }

  lemma {:induction false} FoundInAll(tried: seq<seq<Id>>, id: Id) returns (b: nat)
    requires id in TriedAll(tried)
    ensures b < |tried| && id in tried[b]
  {
    var last := |tried| - 1;
    if id in multiset(tried[last]) {
      b := last;
    } else {
      b := FoundInAll(tried[..last], id);
    }
  }

  lemma DistinctInAll(tried: seq<seq<Id>>, b: nat, ids: set<Id>)
    requires b < |tried| && TriedAll(tried) == multiset(ids)
    ensures NoDuplicates(tried[b])
  {
    var s := tried[b];
    forall i, j | 0 <= i < j < |s| ensures s[i] != s[j] {
      CountedInAll(tried, b, s[i]);
      if s[i] == s[j] { TwiceIn(s, i, j); }
    }
  }

  lemma TwiceIn(s: seq<Id>, i: nat, j: nat)
    requires i < j < |s| && s[i] == s[j]
    ensures multiset(s)[s[i]] >= 2
  {
    assert s == s[..j] + [s[j]] + s[j + 1..];
    assert s[..j][i] in multiset(s[..j]);
  }
}
