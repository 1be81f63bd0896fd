/** Block locators (CBlockLocator in src/main.h): how two nodes find where their chains part. */
module Locator {
  import opened Common
  import opened Arith
  import opened BlockTree

  /** How far below the tip the k-th entry lies: every block for a while, then at doubling distances. */
  function Offset(k: nat): (d: nat)
    ensures k <= 11 ==> d == k
  {
    if k <= 10 then k else
      assert Pow(2, 1) == 2;
      9 + Pow(2, k - 10)
  }

  function Step(k: nat): (s: nat)
    ensures s > 0
  {
    if k <= 10 then 1 else PowPositive(2, k - 10); Pow(2, k - 10)
  }

  lemma StepIsDifference(k: nat)
    ensures Offset(k + 1) == Offset(k) + Step(k)
    ensures Step(k + 1) == if k + 1 > 10 then 2 * Step(k) else Step(k)
    ensures Offset(k + 1) > 10 <==> k + 1 > 10
  {
    if k >= 10 { assert Pow(2, k + 1 - 10) == 2 * Pow(2, k - 10); }
  }

  lemma {:induction false} OffsetMono(j: nat, k: nat)
    requires j < k
    ensures Offset(j) < Offset(k) && k <= Offset(k)
    decreases k
  {
    StepIsDifference(k - 1);
    if j < k - 1 { OffsetMono(j, k - 1); } else if k - 1 > 0 { OffsetMono(0, k - 1); }
  }

  /** The next entry is less than twice as deep as any depth the last one did not reach. */
  lemma OffsetDoubles(k: nat)
    ensures Offset(k + 1) <= 2 * (Offset(k) + 1)
  {
    if k >= 10 { assert Pow(2, k + 1 - 10) == 2 * Pow(2, k - 10); }
  }

  // Building a locator

  /** The block `d` below `h`, if the branch is that long. */
  function Back(t: Tree, h: Hash, d: nat): (b: Option<Hash>)
    requires Linked(t) && h in t.nodes
    ensures b.Some? ==> b.value in t.nodes
  {
    if d <= Height(t, h) then Some(Ancestor(t, h, Height(t, h) - d)) else None
  }

  /** The first `n` entries. */
  function Entries(t: Tree, h: Hash, n: nat): (s: seq<Hash>)
    requires Linked(t) && h in t.nodes && (n > 0 ==> Offset(n - 1) <= Height(t, h))
    ensures |s| == n
  {
    if n == 0 then [] else
      EntriesFit(n, Height(t, h));
      Entries(t, h, n - 1) + [Back(t, h, Offset(n - 1)).value]
  }

  lemma EntriesFit(n: nat, height: nat)
    requires n > 0 && Offset(n - 1) <= height
    ensures n > 1 ==> Offset(n - 2) <= height
  {
    if n > 1 { OffsetMono(n - 2, n - 1); }
  }

  /** As many entries as fit above the genesis block. */
  ghost predicate Fits(n: nat, height: nat) {
    n > 0 && Offset(n - 1) <= height < Offset(n)
  }

  /** Without a block to start from the locator names the genesis block only. */
  method Set(t: Tree, start: Option<Hash>) returns (have: seq<Hash>)
    requires Linked(t) && (start.Some? ==> start.value in t.nodes)
    ensures start.None? ==> have == [t.genesis]
    ensures start.Some? ==> && have != [] && Fits(|have| - 1, Height(t, start.value))
                            && have == Entries(t, start.value, |have| - 1) + [t.genesis]
  {
    have := [];
    var step := 1;
    var index := start;
    if index.None? { return [t.genesis]; }
    ghost var h := start.value;
    while index.Some?
      invariant step == Step(|have|)
      invariant |have| > 0 ==> Offset(|have| - 1) <= Height(t, h)
      invariant have == Entries(t, h, |have|) && index == Back(t, h, Offset(|have|))
      decreases Height(t, h) + 1 - |have|
    {
      ghost var k := |have|;
      if k > 0 { OffsetMono(0, k); }
      StepIsDifference(k);
      have := have + [index.value];
      index := WalkBack(t, h, index, step, Offset(k));
      if |have| > 10 { step := step * 2; }
      OffsetMono(k, k + 1);
    }
    have := have + [t.genesis];
  }

  /** The inner loop: up to `step` blocks back. */
  method WalkBack(t: Tree, ghost h: Hash, start: Option<Hash>, step: nat, ghost d: nat) returns (index: Option<Hash>)
    requires Linked(t) && h in t.nodes && start == Back(t, h, d)
    ensures index == Back(t, h, d + step)
  {
    index := start;
    var i := 0;
    while index.Some? && i < step
      invariant 0 <= i <= step && index == Back(t, h, d + i) && (index.None? ==> d + i > Height(t, h))
    {
      BackStep(t, h, d + i);
      index := t.nodes[index.value].prev;
      i := i + 1;
    }
  }

  lemma BackStep(t: Tree, h: Hash, d: nat)
    requires Linked(t) && h in t.nodes && d <= Height(t, h)
    ensures t.nodes[Back(t, h, d).value].prev == Back(t, h, d + 1)
  {
    var k := Height(t, h) - d;
    assert LinkedAt(t, Ancestor(t, h, k));
    if k > 0 { AncestorStep(t, h, k); } else { OnlyGenesisAtZero(t, Ancestor(t, h, 0)); }
  }

  /** Beyond the first dozen, the length of a locator grows with the logarithm of the height. */
  lemma LocatorIsShort(n: nat, height: nat)
    requires Fits(n, height)
    ensures n <= 11 || Pow(2, n - 11) + 9 <= height
  {
  }

  // Using a locator

  /** Known to the receiver, and on its main chain. */
  predicate OnMain(u: Tree, best: Hash, x: Hash)
    requires Linked(u) && best in u.nodes
  {
    x in u.nodes && IsAncestor(u, x, best)
  }

  function First(u: Tree, best: Hash, have: seq<Hash>): (k: nat)
    requires Linked(u) && best in u.nodes
    ensures k <= |have| && (k < |have| ==> OnMain(u, best, have[k]))
    ensures forall i :: 0 <= i < k ==> !OnMain(u, best, have[i])
  {
    if have == [] || OnMain(u, best, have[0]) then 0 else 1 + First(u, best, have[1..])
  }

  method GetBlockIndex(u: Tree, best: Hash, have: seq<Hash>) returns (x: Hash)
    requires Linked(u) && best in u.nodes
    ensures x == if First(u, best, have) < |have| then have[First(u, best, have)] else u.genesis
  {
    var k := 0;
    while k < |have|
      invariant 0 <= k <= |have| && First(u, best, have) >= k
    {
      if OnMain(u, best, have[k]) { return have[k]; }
      k := k + 1;
    }
    return u.genesis;
  }

  /** How far back the sender took the entry from, unless it is the genesis block put last. */
  method GetDistanceBack(u: Tree, best: Hash, have: seq<Hash>) returns (distance: nat)
    requires Linked(u) && best in u.nodes
    ensures distance == Offset(First(u, best, have))
  {
    distance := 0;
    var step, k := 1, 0;
    while k < |have|
      invariant 0 <= k <= |have| && First(u, best, have) >= k && distance == Offset(k) && step == Step(k)
    {
      if OnMain(u, best, have[k]) { return; }
      StepIsDifference(k);
      distance := distance + step;
      if distance > 10 { step := step * 2; }
      k := k + 1;
    }
  }

  // What it finds

  /** Blocks that both nodes know are the same to both. */
  ghost predicate Agree(t: Tree, u: Tree) {
    t.genesis == u.genesis && forall x :: x in t.nodes && x in u.nodes ==> t.nodes[x] == u.nodes[x]
  }

  lemma {:induction false} SharedAncestors(t: Tree, u: Tree, x: Hash, k: nat)
    requires Linked(t) && Linked(u) && Agree(t, u) && x in t.nodes && x in u.nodes && k <= Height(t, x)
    ensures Height(u, x) == Height(t, x) && Ancestor(t, x, k) in u.nodes && Ancestor(t, x, k) == Ancestor(u, x, k)
    decreases Height(t, x)
  {
    if k < Height(t, x) {
      OnlyGenesisAtZero(t, x);
      assert LinkedAt(t, x) && LinkedAt(u, x);
      SharedAncestors(t, u, Parent(t, x), k);
    }
  }

  /** Below a block on the receiver's main chain every block of the sender's branch is on it. */
  lemma MainBelow(t: Tree, u: Tree, h: Hash, best: Hash, d: nat, e: nat)
    requires Linked(t) && Linked(u) && Agree(t, u) && h in t.nodes && best in u.nodes && d <= e <= Height(t, h)
    requires OnMain(u, best, Back(t, h, d).value)
    ensures OnMain(u, best, Back(t, h, e).value)
  {
    var x, k := Back(t, h, d).value, Height(t, h) - e;
    AncestorOfAncestor(t, h, Height(t, h) - d, k);
    SharedAncestors(t, u, x, k);
    AncestorTransitive(u, Ancestor(u, x, k), x, best);
  }

  lemma GenesisOnMain(u: Tree, best: Hash)
    requires Linked(u) && best in u.nodes
    ensures OnMain(u, best, u.genesis)
  {
    OnlyGenesisAtZero(u, best);
  }

  /** The depth below the sender's tip at which the receiver's main chain joins. */
  ghost predicate ForkDepth(t: Tree, u: Tree, h: Hash, best: Hash, d: nat)
    requires Linked(t) && Linked(u) && h in t.nodes && best in u.nodes
  {
    && d <= Height(t, h) && OnMain(u, best, Back(t, h, d).value)
    && (forall e :: 0 <= e < d ==> !OnMain(u, best, Back(t, h, e).value))
  }

  /** The chains do join somewhere. */
  lemma {:induction false} ForkExists(t: Tree, u: Tree, h: Hash, best: Hash, e: nat) returns (d: nat)
    requires Linked(t) && Linked(u) && t.genesis == u.genesis && h in t.nodes && best in u.nodes && e <= Height(t, h)
    requires forall i :: 0 <= i < e ==> !OnMain(u, best, Back(t, h, i).value)
    ensures ForkDepth(t, u, h, best, d)
    decreases Height(t, h) - e
  {
    if e == Height(t, h) {
      OnlyGenesisAtZero(t, Back(t, h, e).value);
      GenesisOnMain(u, best);
      d := e;
    } else if OnMain(u, best, Back(t, h, e).value) {
      d := e;
    } else {
      d := ForkExists(t, u, h, best, e + 1);
    }
  }

  lemma {:induction false} EntryAt(t: Tree, h: Hash, n: nat, k: nat)
    requires Linked(t) && h in t.nodes && k < n && Offset(n - 1) <= Height(t, h)
    ensures Offset(k) <= Height(t, h) && Entries(t, h, n)[k] == Back(t, h, Offset(k)).value
    decreases n
  {
    if k < n - 1 {
      EntriesFit(n, Height(t, h));
      EntryAt(t, h, n - 1, k);
    }
  }

  /**
   * The receiver finds a block of both chains: the fork itself if it is at most eleven blocks
   * below the sender's tip, and otherwise one at most twice as deep.
   */
  lemma FindsFork(t: Tree, u: Tree, h: Hash, best: Hash, have: seq<Hash>, d: nat) returns (e: nat)
    requires Linked(t) && Linked(u) && Agree(t, u) && h in t.nodes && best in u.nodes
    requires have != [] && Fits(|have| - 1, Height(t, h)) && have == Entries(t, h, |have| - 1) + [t.genesis]
    requires ForkDepth(t, u, h, best, d)
    ensures d <= e <= Height(t, h) && e <= 2 * d && (d <= 11 ==> e == d)
    ensures var k := First(u, best, have);
            && k < |have| && have[k] == Back(t, h, e).value && OnMain(u, best, have[k])
            && (k < |have| - 1 ==> e == Offset(k))
  {
    var n, k := |have| - 1, First(u, best, have);
    GenesisOnMain(u, best);
    assert have[n] == t.genesis;
    if k < n {
      EntryAt(t, h, n, k);
      e := Offset(k);
    } else {
      e := Height(t, h);
      OnlyGenesisAtZero(t, Back(t, h, e).value);
    }
    assert have[k] == Back(t, h, e).value;
    if k > 0 {
      EntryAt(t, h, n, k - 1);
      assert !OnMain(u, best, have[k - 1]);
      if d <= Offset(k - 1) {
        MainBelow(t, u, h, best, d, Offset(k - 1));
        assert false;
      }
      StepIsDifference(k - 1);
      OffsetDoubles(k - 1);
    }
  }
}
