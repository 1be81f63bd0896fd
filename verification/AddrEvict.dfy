/** Which entry of a tried bucket is evicted (CAddrMan::SelectTried, src/addrman.cpp). */
module AddrEvict {
  import opened AddrTables

  const TRIED_ENTRIES_INSPECT_ON_EVICT: nat := 4

  predicate Drawn(draws: seq<nat>, bucket: seq<Id>) {
    |draws| <= |bucket| && forall i :: 0 <= i < |draws| ==> i <= draws[i] < |bucket|
  }

  function Shuffled(bucket: seq<Id>, draws: seq<nat>): (r: seq<Id>)
    requires Drawn(draws, bucket)
    ensures |r| == |bucket|
    decreases |draws|
  {
    if draws == [] then bucket else
      var i := |draws| - 1;
      var before := Shuffled(bucket, draws[..i]);
      before[draws[i] := before[i]][i := before[draws[i]]]
  }

  lemma DrawnMore(draws: seq<nat>, bucket: seq<Id>, p: nat)
    requires Drawn(draws, bucket) && |draws| <= p < |bucket|
    ensures Drawn(draws + [p], bucket)
    ensures var before := Shuffled(bucket, draws);
            Shuffled(bucket, draws + [p]) == before[p := before[|draws|]][|draws| := before[p]]
  {
    assert (draws + [p])[..|draws|] == draws;
  }

  lemma {:induction false} ShuffledPermutes(bucket: seq<Id>, draws: seq<nat>)
    requires Drawn(draws, bucket)
    ensures multiset(Shuffled(bucket, draws)) == multiset(bucket)
    decreases |draws|
  {
    if draws != [] { ShuffledPermutes(bucket, draws[..|draws| - 1]); }
  }

  /** The first of the least recent ones. */
  predicate LeastRecent(info: map<Id, Info>, inspected: seq<Id>, j: nat) {
    && j < |inspected| && inspected[j] in info
    && (forall k :: 0 <= k < |inspected| && inspected[k] in info ==>
          info[inspected[j]].lastSuccess <= info[inspected[k]].lastSuccess)
    && (forall k :: 0 <= k < j && inspected[k] in info ==>
          info[inspected[j]].lastSuccess < info[inspected[k]].lastSuccess)
  }

  /** One turn of the loop: the entry at `p` comes to `i` and joins the inspected ones. */
  lemma LeastStep(info: map<Id, Info>, bucket: seq<Id>, i: nat, p: nat, least: nat)
    requires i <= p < |bucket| && bucket[p] in info && (i > 0 ==> LeastRecent(info, bucket[..i], least))
    ensures i > 0 ==> least < i && bucket[least] in info
    ensures var after := bucket[p := bucket[i]][i := bucket[p]];
            var now := if i == 0 || info[bucket[p]].lastSuccess < info[bucket[least]].lastSuccess then i else least;
            LeastRecent(info, after[..i + 1], now)
    ensures var after := bucket[p := bucket[i]][i := bucket[p]];
            after[i] == bucket[p] && (i > 0 ==> after[least] == bucket[least]) && forall k :: k in after ==> k in bucket
  {
    var after := bucket[p := bucket[i]][i := bucket[p]];
    assert after[..i + 1] == bucket[..i] + [bucket[p]];
  }

  /** What SelectTried can draw from a bucket that is longer than what it inspects, and what it finds. */
  predicate Outcome(info: map<Id, Info>, bucket: seq<Id>, draws: seq<nat>, least: nat) {
    && |draws| == TRIED_ENTRIES_INSPECT_ON_EVICT && Drawn(draws, bucket)
    && LeastRecent(info, Shuffled(bucket, draws)[..|draws|], least)
  }

  /** The entry at the returned position is no more recent than any of those inspected. */
  predicate EvictsLeast(info: map<Id, Info>, bucket: seq<Id>, draws: seq<nat>, least: nat)
    requires Outcome(info, bucket, draws, least)
  {
    var after := Shuffled(bucket, draws);
    && after[draws[least]] in info
    && forall k :: 0 <= k < |draws| && after[k] in info ==>
         info[after[draws[least]]].lastSuccess <= info[after[k]].lastSuccess
  }

  predicate Recorded(info: map<Id, Info>, bucket: seq<Id>) { forall i :: 0 <= i < |bucket| ==> bucket[i] in info }

  predicate OneAge(info: map<Id, Info>, bucket: seq<Id>)
    requires Recorded(info, bucket)
  {
    forall i, j :: 0 <= i < j < |bucket| ==> info[bucket[i]].lastSuccess == info[bucket[j]].lastSuccess
  }

  /**
   * The position handed back is the one the least recent entry was drawn from, and that entry has
   * been swapped to the front by then. So the least recent entry goes, whatever is drawn, only if
   * all entries of the bucket succeeded last at the same time.
   */
  lemma EvictsLeastRecentIff(info: map<Id, Info>, bucket: seq<Id>)
    requires |bucket| > TRIED_ENTRIES_INSPECT_ON_EVICT && Recorded(info, bucket)
    ensures (forall draws, least :: Outcome(info, bucket, draws, least) ==> EvictsLeast(info, bucket, draws, least))
            <==> OneAge(info, bucket)
  {
    if OneAge(info, bucket) {
      forall draws, least | Outcome(info, bucket, draws, least) ensures EvictsLeast(info, bucket, draws, least) {
        SameAgeEvicts(info, bucket, draws, least);
      }
    } else {
      var draws, least := EvictsMoreRecent(info, bucket);
    }
  }

  lemma SameAgeEvicts(info: map<Id, Info>, bucket: seq<Id>, draws: seq<nat>, least: nat)
    requires Recorded(info, bucket) && OneAge(info, bucket) && Outcome(info, bucket, draws, least)
    ensures EvictsLeast(info, bucket, draws, least)
  {
    ShuffledPermutes(bucket, draws);
    var after := Shuffled(bucket, draws);
    hide Shuffled;
    forall k | 0 <= k < |after| ensures after[k] in info && info[after[k]].lastSuccess == info[bucket[0]].lastSuccess {
      assert after[k] in multiset(after);
      assert after[k] in bucket;
      var i :| 0 <= i < |bucket| && bucket[i] == after[k];
    }
  }

  function Exchanged(s: seq<Id>, i: nat, p: nat): (r: seq<Id>)
    requires i <= p < |s|
    ensures |r| == |s| && r[i] == s[p] && r[p] == s[i]
    ensures forall k :: 0 <= k < |s| && k != i && k != p ==> r[k] == s[k]
  {
    s[p := s[i]][i := s[p]]
  }

  /** Only the first two draws move anything. */
  lemma TwoSwaps(bucket: seq<Id>, p0: nat, p1: nat)
    requires p0 < |bucket| && 1 <= p1 < |bucket| && |bucket| > 4
    ensures Drawn([p0, p1, 2, 3], bucket)
    ensures Shuffled(bucket, [p0, p1, 2, 3]) == Exchanged(Exchanged(bucket, 0, p0), 1, p1)
  {
    assert [] + [p0] == [p0] && [p0] + [p1] == [p0, p1] && [p0, p1] + [2] == [p0, p1, 2];
    assert [p0, p1, 2] + [3] == [p0, p1, 2, 3];
    assert Shuffled(bucket, []) == bucket;
    hide Shuffled;
    DrawnMore([], bucket, p0);
    DrawnMore([p0], bucket, p1);
    DrawnMore([p0, p1], bucket, 2);
    DrawnMore([p0, p1, 2], bucket, 3);
  }

  lemma {:induction false} LeastIndex(info: map<Id, Info>, bucket: seq<Id>, n: nat) returns (a: nat)
    requires Recorded(info, bucket) && 0 < n <= |bucket|
    ensures a < n && forall k :: 0 <= k < n ==> info[bucket[a]].lastSuccess <= info[bucket[k]].lastSuccess
  {
    if n == 1 { return 0; }
    a := LeastIndex(info, bucket, n - 1);
    if info[bucket[n - 1]].lastSuccess < info[bucket[a]].lastSuccess { a := n - 1; }
  }

  /** Draws for which an entry goes that is more recent than another inspected one. */
  lemma EvictsMoreRecent(info: map<Id, Info>, bucket: seq<Id>) returns (draws: seq<nat>, least: nat)
    requires |bucket| > TRIED_ENTRIES_INSPECT_ON_EVICT && Recorded(info, bucket) && !OneAge(info, bucket)
    ensures Outcome(info, bucket, draws, least) && !EvictsLeast(info, bucket, draws, least)
  {
    var a := LeastIndex(info, bucket, |bucket|);
    var age := info[bucket[a]].lastSuccess;
    var r: nat;
    if info[bucket[0]].lastSuccess != age {
      r, draws, least := 0, [a, 1, 2, 3], 0;
      TwoSwaps(bucket, a, 1);
    } else if info[bucket[1]].lastSuccess != age {
      r, draws, least := 1, [4, 4, 2, 3], if info[bucket[4]].lastSuccess == age then 0 else 1;
      TwoSwaps(bucket, 4, 4);
    } else {
      r :| r < |bucket| && info[bucket[r]].lastSuccess != age;
      draws, least := [1, r, 2, 3], 0;
      TwoSwaps(bucket, 1, r);
    }
    hide Shuffled, Exchanged;
    var after := Shuffled(bucket, draws);
    assert after[draws[least]] == bucket[r];
    assert info[after[least]].lastSuccess == age < info[bucket[r]].lastSuccess;
  }
}
