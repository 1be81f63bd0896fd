/** The stake modifier: 64 bits collected from past blocks (src/kernel.cpp). */
module StakeModifier {
  import opened Common
  import opened Arith
  import opened BlockTree
  import opened Reorg
  import opened Sorting

  const MODIFIER_INTERVAL: int := 6 * 3600
  const MODIFIER_INTERVAL_RATIO: int := 3
  const MODIFIER_SWITCH_TIME: int := 1413763200

  /** What the block index keeps for the modifier. */
  datatype Stake = Stake(modifier: nat, generated: bool, proof: Hash, entropy: bool)

  predicate Known(t: Tree, st: map<Hash, Stake>) { forall h :: h in t.nodes ==> h in st }

  // Sections of the selection interval

  function Section(n: nat): (s: int)
    requires n < 64
    ensures s >= 0
  {
    MODIFIER_INTERVAL * 63 / (63 + (63 - n) * (MODIFIER_INTERVAL_RATIO - 1))
  }

  /** The length of the first n sections. */
  function Sections(n: nat): int
    requires n <= 64
  {
    if n == 0 then 0 else Sections(n - 1) + Section(n - 1)
  }

  method GetStakeModifierSelectionInterval() returns (s: int)
    ensures s == Sections(64)
  {
    s := 0;
    for n := 0 to 64
      invariant s == Sections(n)
    {
      s := s + Section(n);
    }
  }

  /** A section is six hours times 63 / (189 - 2n), rounded down: from two hours up to six. */
  lemma SectionIs(n: nat)
    requires n < 64
    ensures Section(n) * (189 - 2 * n) <= 21_600 * 63 < (Section(n) + 1) * (189 - 2 * n)
    ensures 7200 <= Section(n) <= 21_600
  {
    var d := 189 - 2 * n;
    assert Section(n) == 21_600 * 63 / d;
    DivBounds(21_600 * 63, d);
    DivLower(21_600 * 63, d, 7200);
    DivUpper(21_600 * 63, d, 21_601);
  }

  // The last block that generated a modifier

  function LastGenerated(t: Tree, st: map<Hash, Stake>, h: Hash): (g: Hash)
    requires Linked(t) && Known(t, st) && h in t.nodes
    ensures g in t.nodes && (g == t.genesis || st[g].generated)
    decreases Height(t, h)
  {
    if h == t.genesis || st[h].generated then h else LastGenerated(t, st, Parent(t, h))
  }

  method GetLastStakeModifier(t: Tree, st: map<Hash, Stake>, h: Hash) returns (r: Option<(nat, int)>)
    requires Linked(t) && Known(t, st) && h in t.nodes
    ensures var g := LastGenerated(t, st, h);
            r == if st[g].generated then Some((st[g].modifier, Time(t, g))) else None
  {
    var x := h;
    assert LinkedAt(t, x);
    while t.nodes[x].prev.Some? && !st[x].generated
      invariant x in t.nodes && LinkedAt(t, x) && LastGenerated(t, st, x) == LastGenerated(t, st, h)
      decreases Height(t, x)
    {
      x := t.nodes[x].prev.value;
      assert LinkedAt(t, x);
    }
    if !st[x].generated { return None; }
    r := Some((st[x].modifier, Time(t, x)));
  }

  lemma {:induction false} LastGeneratedIsLast(t: Tree, st: map<Hash, Stake>, h: Hash, a: Hash)
    requires Linked(t) && Known(t, st) && h in t.nodes && a in t.nodes && IsAncestor(t, a, h)
    ensures var g := LastGenerated(t, st, h);
            IsAncestor(t, g, h) && (Height(t, a) > Height(t, g) ==> !st[a].generated)
    decreases Height(t, h)
  {
    var g := LastGenerated(t, st, h);
    if g != h {
      var p := Parent(t, h);
      LastGeneratedIsLast(t, st, p, if a == h then p else a);
      ParentIsAncestor(t, h);
      AncestorTransitive(t, g, p, h);
    }
  }

  // Candidates in the order of their times

  datatype Candidate = Candidate(time: int, hash: Hash)

  predicate Before(a: Candidate, b: Candidate) { a.time < b.time || (a.time == b.time && a.hash <= b.hash) }

  predicate InOrder(s: seq<Candidate>) { Ordered(s, Before) }

  // One round of selection

  /** A hash of a proof and the previous modifier; its value is not modelled further. */
  type SelectionHash = (Hash, nat) -> nat

  /** Proof-of-stake blocks are favoured: their selection hash is divided by 2^32. */
  function Key(sel: SelectionHash, t: Tree, st: map<Hash, Stake>, modifier: nat, h: Hash): nat
    requires h in t.nodes && h in st
  {
    if t.nodes[h].block.IsProofOfStake() then sel(st[h].proof, modifier) / 0x1_0000_0000 else sel(h, modifier)
  }

  predicate Free(sorted: seq<Candidate>, selected: set<Hash>, i: nat)
    requires i < |sorted|
  {
    sorted[i].hash !in selected
  }

  ghost predicate SomeFree(sorted: seq<Candidate>, selected: set<Hash>) {
    exists i :: 0 <= i < |sorted| && Free(sorted, selected, i)
  }

  ghost predicate SomeEarly(sorted: seq<Candidate>, selected: set<Hash>, stop: int) {
    exists i :: 0 <= i < |sorted| && Free(sorted, selected, i) && sorted[i].time <= stop
  }

  predicate Beats(sorted: seq<Candidate>, key: Hash -> nat, i: nat, j: nat)
    requires i < |sorted| && j < |sorted|
  {
    var a, b := key(sorted[i].hash), key(sorted[j].hash);
    a < b || (a == b && i <= j)
  }

  /**
   * The candidate with the least key among those not selected yet whose time is up to `stop`, or
   * the earliest one not selected yet if there is none of those.
   */
  ghost predicate IsPick(sorted: seq<Candidate>, selected: set<Hash>, stop: int, key: Hash -> nat, p: nat) {
    && p < |sorted| && Free(sorted, selected, p)
    && if SomeEarly(sorted, selected, stop) then
         sorted[p].time <= stop &&
         forall j :: 0 <= j < |sorted| && Free(sorted, selected, j) && sorted[j].time <= stop ==>
             Beats(sorted, key, p, j)
       else forall j :: 0 <= j < |sorted| && Free(sorted, selected, j) ==> p <= j
  }

  method SelectBlockFromCandidates(known: set<Hash>, sorted: seq<Candidate>, selected: set<Hash>, stop: int,
                                   key: Hash -> nat)
    returns (pick: Option<nat>)
    requires InOrder(sorted)
    ensures pick.Some? ==> IsPick(sorted, selected, stop, key, pick.value)
    ensures (forall i :: 0 <= i < |sorted| ==> sorted[i].hash in known) && SomeFree(sorted, selected) ==> pick.Some?
  {
    pick := None;
    var best := 0;
    var i := 0;
    while i < |sorted|
      invariant 0 <= i <= |sorted|
      invariant pick.None? ==> forall j :: 0 <= j < i ==> !Free(sorted, selected, j)
      invariant pick.Some? ==>
                PickSoFar(sorted, selected, stop, key, pick.value, i) && best == key(sorted[pick.value].hash)
    {
      var item := sorted[i];
      if item.hash !in known { return None; }
      if pick.Some? && item.time > stop { break; }
      if item.hash !in selected {
        var hash := key(item.hash);
        if pick.None? || hash < best {
          best := hash;
          pick := Some(i);
        }
      }
      i := i + 1;
    }
    if pick.Some? { PickIsFinal(sorted, selected, stop, key, pick.value, i); }
  }

  ghost predicate PickSoFar(sorted: seq<Candidate>, selected: set<Hash>, stop: int, key: Hash -> nat, p: nat, i: nat) {
    && p < i <= |sorted| && Free(sorted, selected, p)
    && (forall j :: 0 <= j < i && Free(sorted, selected, j) ==> Beats(sorted, key, p, j))
    && (sorted[p].time > stop ==> forall j :: 0 <= j < i && Free(sorted, selected, j) ==> p <= j)
  }

  lemma PickIsFinal(sorted: seq<Candidate>, selected: set<Hash>, stop: int, key: Hash -> nat, p: nat, i: nat)
    requires InOrder(sorted) && PickSoFar(sorted, selected, stop, key, p, i) && (i < |sorted| ==> sorted[i].time > stop)
    ensures IsPick(sorted, selected, stop, key, p)
  {
    forall j | i <= j < |sorted| ensures sorted[j].time > stop {
      if i < j { assert Before(sorted[i], sorted[j]); }
    }
  }

  // The 64 rounds

  predicate InRange(sorted: seq<Candidate>, picks: seq<nat>) { forall r :: 0 <= r < |picks| ==> picks[r] < |sorted| }

  function Hashes(sorted: seq<Candidate>, picks: seq<nat>): set<Hash>
    requires InRange(sorted, picks)
  {
    set r | 0 <= r < |picks| :: sorted[picks[r]].hash
  }

  /** Round r picks by the rule from what the earlier rounds left. */
  ghost predicate RoundOk(sorted: seq<Candidate>, start: int, key: Hash -> nat, picks: seq<nat>, r: nat)
    requires InRange(sorted, picks) && r < |picks| <= 64
  {
    IsPick(sorted, Hashes(sorted, picks[..r]), start + Sections(r + 1), key, picks[r])
  }

  ghost predicate Rounds(sorted: seq<Candidate>, start: int, key: Hash -> nat, picks: seq<nat>) {
    && |picks| <= 64 && InRange(sorted, picks)
    && (forall r {:trigger RoundOk(sorted, start, key, picks, r)} :: 0 <= r < |picks| ==>
        RoundOk(sorted, start, key, picks, r))
  }

  function Bits(entropy: seq<bool>): nat {
    if entropy == [] then 0
    else Bits(entropy[..|entropy| - 1]) + (if entropy[|entropy| - 1] then Pow(2, |entropy| - 1) else 0)
  }

  function Entropies(st: map<Hash, Stake>, sorted: seq<Candidate>, picks: seq<nat>): seq<bool>
    requires forall i :: 0 <= i < |sorted| ==> sorted[i].hash in st
    requires InRange(sorted, picks)
  {
    seq(|picks|, r requires 0 <= r < |picks| => st[sorted[picks[r]].hash].entropy)
  }

  lemma {:induction false} BitsBound(e: seq<bool>)
    ensures Bits(e) < Pow(2, |e|)
  {
    if e != [] { BitsBound(e[..|e| - 1]); }
  }

  /** Bit r of the modifier is the r-th entropy bit. */
  lemma {:induction false} BitAt(e: seq<bool>, r: nat)
    requires r < |e|
    ensures Pow(2, r) > 0 && ((Bits(e) / Pow(2, r)) % 2 == 1 <==> e[r])
    decreases |e|
  {
    PowPositive(2, r);
    var last, p := |e| - 1, Pow(2, r);
    BitsBound(e[..last]);
    var low := Bits(e[..last]);
    if r == last {
      DivUnique(Bits(e), p, if e[last] then 1 else 0);
    } else {
      BitAt(e[..last], r);
      PowAdd(2, r, last - r);
      assert Pow(2, last - r) == 2 * Pow(2, last - r - 1);
      var k := Pow(2, last - r - 1);
      if e[last] { HighBit(low, p, k, Pow(2, last)); }
    }
  }

  /** Adding an even multiple of p changes no bit at p. */
  lemma HighBit(low: nat, p: nat, k: nat, high: nat)
    requires p > 0 && high == p * (2 * k)
    ensures ((low + high) / p) % 2 == (low / p) % 2
  {
    DivBounds(low, p);
    var q := low / p;
    assert p * (q + 2 * k) == p * q + p * (2 * k);
    DivUnique(low + high, p, q + 2 * k);
  }

  // Collecting the candidates

  function AllHashes(s: seq<Candidate>): set<Hash> { set i | 0 <= i < |s| :: s[i].hash }

  /** The blocks from `h` back to the first one before `start`. */
  function Recent(t: Tree, h: Hash, start: int): seq<Candidate>
    requires Linked(t) && h in t.nodes
    decreases Height(t, h)
  {
    if Time(t, h) < start then []
    else [Candidate(Time(t, h), h)] + (if h == t.genesis then [] else Recent(t, Parent(t, h), start))
  }

  lemma {:induction false} RecentDistinct(t: Tree, h: Hash, start: int)
    requires Linked(t) && h in t.nodes
    ensures var s := Recent(t, h, start);
            && |AllHashes(s)| == |s|
            && (forall x :: x in AllHashes(s) ==> x in t.nodes && Height(t, x) <= Height(t, h))
            && (forall i :: 0 <= i < |s| ==> s[i].hash in t.nodes && s[i].time == Time(t, s[i].hash))
    decreases Height(t, h)
  {
    var s := Recent(t, h, start);
    if s == [] {
      assert AllHashes(s) == {};
    } else {
      var rest := s[1..];
      if h == t.genesis {
        assert AllHashes(rest) == {};
      } else {
        RecentDistinct(t, Parent(t, h), start);
      }
      assert AllHashes(s) == AllHashes(rest) + {h} by { HashesCons(s); }
    }
  }

  /** From `x` up to `h` no block lies before `start`. */
  ghost predicate Reaches(t: Tree, x: Hash, h: Hash, start: int)
    requires Linked(t) && x in t.nodes && h in t.nodes
  {
    && IsAncestor(t, x, h)
    && forall y :: y in t.nodes && IsAncestor(t, x, y) && IsAncestor(t, y, h) ==> Time(t, y) >= start
  }

  /** The candidates are the blocks of the branch down to the first one before `start`. */
  lemma {:induction false} RecentIff(t: Tree, h: Hash, start: int, x: Hash)
    requires Linked(t) && h in t.nodes && x in t.nodes
    ensures Candidate(Time(t, x), x) in Recent(t, h, start) <==> Reaches(t, x, h, start)
    decreases Height(t, h)
  {
    assert IsAncestor(t, h, h);
    if x == h {
      forall y | y in t.nodes && IsAncestor(t, h, y) && IsAncestor(t, y, h) ensures y == h {}
    } else if h != t.genesis && Time(t, h) >= start {
      var p := Parent(t, h);
      RecentIff(t, p, start, x);
      forall y | y in t.nodes && y != h ensures IsAncestor(t, y, h) <==> IsAncestor(t, y, p) { BelowParent(t, y, h); }
    }
  }

  lemma HashesCons(s: seq<Candidate>)
    requires s != []
    ensures AllHashes(s) == AllHashes(s[1..]) + {s[0].hash}
  {
    forall x | x in AllHashes(s) ensures x in AllHashes(s[1..]) + {s[0].hash} {
      var i :| 0 <= i < |s| && s[i].hash == x;
      if i > 0 { assert s[1..][i - 1].hash == x; }
    }
    forall x | x in AllHashes(s[1..]) ensures x in AllHashes(s) {
      var i :| 0 <= i < |s| - 1 && s[1..][i].hash == x;
      assert s[i + 1].hash == x;
    }
  }

  /** Fewer rounds than candidates leave a candidate free. */
  lemma LeavesFree(sorted: seq<Candidate>, picks: seq<nat>)
    requires |AllHashes(sorted)| == |sorted| && |picks| < |sorted| && InRange(sorted, picks)
    ensures SomeFree(sorted, Hashes(sorted, picks))
  {
    HashesSize(sorted, picks);
    var taken := Hashes(sorted, picks);
    if !SomeFree(sorted, taken) {
      forall x | x in AllHashes(sorted) ensures x in taken {
        var i :| 0 <= i < |sorted| && sorted[i].hash == x;
        assert !Free(sorted, taken, i);
      }
      SubsetSize(AllHashes(sorted), taken);
      assert false;
    }
  }

  lemma {:induction false} HashesSize(sorted: seq<Candidate>, picks: seq<nat>)
    requires InRange(sorted, picks)
    ensures |Hashes(sorted, picks)| <= |picks|
  {
    if picks == [] {
      assert Hashes(sorted, picks) == {};
    } else {
      HashesSize(sorted, picks[..|picks| - 1]);
      HashesMore(sorted, picks[..|picks| - 1], picks[|picks| - 1]);
      assert picks == picks[..|picks| - 1] + [picks[|picks| - 1]];
    }
  }

  lemma HashesMore(sorted: seq<Candidate>, picks: seq<nat>, p: nat)
    requires p < |sorted| && InRange(sorted, picks)
    ensures Hashes(sorted, picks + [p]) == Hashes(sorted, picks) + {sorted[p].hash}
  {
    var more := picks + [p];
    forall x | x in Hashes(sorted, more) ensures x in Hashes(sorted, picks) + {sorted[p].hash} {
      var r :| 0 <= r < |more| && sorted[more[r]].hash == x;
      if r < |picks| { assert sorted[picks[r]].hash == x; }
    }
    forall x | x in Hashes(sorted, picks) + {sorted[p].hash} ensures x in Hashes(sorted, more) {
      if x in Hashes(sorted, picks) {
        var r :| 0 <= r < |picks| && sorted[picks[r]].hash == x;
        assert sorted[more[r]].hash == x;
      } else {
        assert more[|picks|] == p;
      }
    }
  }

  method CollectCandidates(t: Tree, h: Hash, start: int) returns (found: seq<Candidate>)
    requires Linked(t) && h in t.nodes
    ensures multiset(found) == multiset(Recent(t, h, start)) && |found| == |Recent(t, h, start)|
    ensures forall x :: x in t.nodes ==> (Candidate(Time(t, x), x) in found <==> Reaches(t, x, h, start))
  {
    forall x | x in t.nodes ensures Candidate(Time(t, x), x) in Recent(t, h, start) <==> Reaches(t, x, h, start) {
      RecentIff(t, h, start, x);
    }
    var walked := [];
    var index := Some(h);
    while index.Some? && t.nodes[index.value].block.time >= start
      invariant index.Some? ==> index.value in t.nodes
      invariant walked + (if index.Some? then Recent(t, index.value, start) else []) == Recent(t, h, start)
      decreases if index.Some? then Height(t, index.value) + 1 else 0
    {
      assert LinkedAt(t, index.value);
      walked := walked + [Candidate(t.nodes[index.value].block.time, index.value)];
      index := t.nodes[index.value].prev;
    }
    assert walked == Recent(t, h, start);
    found := Reverse(walked);
    assert forall c :: c in found <==> c in multiset(found);
    assert forall c :: c in walked <==> c in multiset(walked);
  }

  function Reverse(s: seq<Candidate>): (r: seq<Candidate>)
    ensures |r| == |s| && multiset(r) == multiset(s)
  {
    if s == [] then [] else
      assert s == [s[0]] + s[1..];
      Reverse(s[1..]) + [s[0]]
  }

  /** The rounds never fail: candidates are blocks of the tree, and each round takes one of them. */
  lemma RoundsStart(st: map<Hash, Stake>, sorted: seq<Candidate>, start: int, key: Hash -> nat)
    requires forall i :: 0 <= i < |sorted| ==> sorted[i].hash in st
    ensures Rounds(sorted, start, key, []) && Bits(Entropies(st, sorted, [])) == 0 && Sections(0) == 0
  {
  }

  method SelectRounds(known: set<Hash>, st: map<Hash, Stake>, sorted: seq<Candidate>, start: int, key: Hash -> nat)
    returns (modifier: Option<nat>, ghost picks: seq<nat>)
    requires InOrder(sorted) && |AllHashes(sorted)| == |sorted|
    requires forall i :: 0 <= i < |sorted| ==> sorted[i].hash in known && sorted[i].hash in st
    ensures modifier.Some? && |picks| == Min(64, |sorted|) && Rounds(sorted, start, key, picks)
    ensures modifier.value == Bits(Entropies(st, sorted, picks))
  {
    var new_ := 0;
    picks := [];
    var stop := start;
    var selected: set<Hash> := {};
    assert Hashes(sorted, picks) == {};
    hide Hashes, Entropies, Rounds, InOrder, AllHashes, Bits;
    RoundsStart(st, sorted, start, key);
    var round := 0;
    while round < Min(64, |sorted|)
      invariant 0 <= round == |picks| <= Min(64, |sorted|) && stop == start + Sections(round)
      invariant Rounds(sorted, start, key, picks) && selected == Hashes(sorted, picks)
      invariant new_ == Bits(Entropies(st, sorted, picks))
    {
      stop := stop + Section(round);
      LeavesFree(sorted, picks);
      var pick := SelectBlockFromCandidates(known, sorted, selected, stop, key);
      if pick.None? { return None, picks; }
      var p := pick.value;
      var bit := if st[sorted[p].hash].entropy then Pow(2, round) else 0;
      RoundsMore(st, sorted, start, key, picks, p);
      new_ := new_ + bit;
      selected := selected + {sorted[p].hash};
      picks := picks + [p];
      round := round + 1;
    }
    modifier := Some(new_);
  }

  lemma RoundsMore(st: map<Hash, Stake>, sorted: seq<Candidate>, start: int, key: Hash -> nat, picks: seq<nat>, p: nat)
    requires |picks| < 64 && Rounds(sorted, start, key, picks)
    requires IsPick(sorted, Hashes(sorted, picks), start + Sections(|picks| + 1), key, p)
    requires forall i :: 0 <= i < |sorted| ==> sorted[i].hash in st
    ensures Rounds(sorted, start, key, picks + [p]) &&
            Hashes(sorted, picks + [p]) == Hashes(sorted, picks) + {sorted[p].hash}
    ensures Bits(Entropies(st, sorted, picks + [p])) ==
            Bits(Entropies(st, sorted, picks)) + (if st[sorted[p].hash].entropy then Pow(2, |picks|) else 0)
  {
    hide Rounds, Sections, Hashes, Pow;
    assert p < |sorted| && InRange(sorted, picks) by { RoundsRange(sorted, start, key, picks); }
    HashesMore(sorted, picks, p);
    RoundsExtend(sorted, start, key, picks, p);
    var e := Entropies(st, sorted, picks + [p]);
    assert e[..|e| - 1] == Entropies(st, sorted, picks);
  }

  lemma RoundsRange(sorted: seq<Candidate>, start: int, key: Hash -> nat, picks: seq<nat>)
    requires Rounds(sorted, start, key, picks)
    ensures |picks| <= 64 && InRange(sorted, picks)
  {
  }

  lemma RoundsExtend(sorted: seq<Candidate>, start: int, key: Hash -> nat, picks: seq<nat>, p: nat)
    requires |picks| < 64 && p < |sorted| && Rounds(sorted, start, key, picks)
    requires IsPick(sorted, Hashes(sorted, picks), start + Sections(|picks| + 1), key, p)
    ensures Rounds(sorted, start, key, picks + [p])
  {
    hide IsPick, Sections, Hashes;
    var more := picks + [p];
    forall r | 0 <= r < |more| ensures RoundOk(sorted, start, key, more, r) {
      if r < |picks| {
        assert RoundOk(sorted, start, key, picks, r);
        assert more[..r] == picks[..r];
      } else {
        assert more[..r] == picks;
      }
    }
  }

  // The next modifier

  function Interval(time: int): int { time / MODIFIER_INTERVAL }

  predicate IsFixedModifierInterval(time: int) { time >= MODIFIER_SWITCH_TIME }

  /** Whether a block at `time` on top of `prev` gets a new modifier. */
  predicate Regenerates(t: Tree, st: map<Hash, Stake>, prev: Hash, time: int)
    requires Linked(t) && Known(t, st) && prev in t.nodes
  {
    var last := Interval(Time(t, LastGenerated(t, st, prev)));
    && last < Interval(Time(t, prev))
    && (IsFixedModifierInterval(time) ==> last < Interval(time))
  }

  function KeyOf(sel: SelectionHash, t: Tree, st: map<Hash, Stake>, modifier: nat): Hash -> nat {
    h => if h in t.nodes && h in st then Key(sel, t, st, modifier, h) else 0
  }

  datatype Outcome = Outcome(modifier: nat, generated: bool)

  function SelectionStart(t: Tree, prev: Hash): int
    requires prev in t.nodes
  {
    Interval(Time(t, prev)) * MODIFIER_INTERVAL - Sections(64)
  }

  /**
   * A new modifier is put together from the picks of up to 64 rounds over the recent blocks; `sorted`
   * are those blocks by time. It fails only if no block of the branch ever generated a modifier.
   */
  method ComputeNextStakeModifier(sel: SelectionHash, t: Tree, st: map<Hash, Stake>, prev: Option<Hash>, time: int)
    returns (r: Option<Outcome>, ghost sorted: seq<Candidate>, ghost picks: seq<nat>)
    requires Linked(t) && Known(t, st) && (prev.Some? ==> prev.value in t.nodes)
    ensures prev.None? ==> r == Some(Outcome(0, true))
    ensures prev.Some? ==> (r.None? <==> !st[LastGenerated(t, st, prev.value)].generated)
    ensures prev.Some? && r.Some? ==> (r.value.generated <==> Regenerates(t, st, prev.value, time))
    ensures prev.Some? && r.Some? && !r.value.generated ==>
            r.value.modifier == st[LastGenerated(t, st, prev.value)].modifier
    ensures prev.Some? && r.Some? && r.value.generated ==>
              ModifierOf(sel, t, st, prev.value, sorted, picks, r.value.modifier)
  {
    hide Sort, Recent, Rounds, Bits, Sections, InOrder, LastGenerated, Reaches, Entropies, KeyOf;
    sorted, picks := [], [];
    if prev.None? { return Some(Outcome(0, true)), sorted, picks; }
    var p := prev.value;
    var last := GetLastStakeModifier(t, st, p);
    if last.None? { return None, sorted, picks; }
    var modifier, modifierTime := last.value.0, last.value.1;
    if modifierTime / MODIFIER_INTERVAL >= Time(t, p) / MODIFIER_INTERVAL {
      return Some(Outcome(modifier, false)), sorted, picks;
    }
    if modifierTime / MODIFIER_INTERVAL >= time / MODIFIER_INTERVAL {
      if IsFixedModifierInterval(time) { return Some(Outcome(modifier, false)), sorted, picks; }
    }
    var length := GetStakeModifierSelectionInterval();
    var start := (Time(t, p) / MODIFIER_INTERVAL) * MODIFIER_INTERVAL - length;
    var found := CollectCandidates(t, p, start);
    var ordered := Sort(found, Before);
    SortedCandidates(t, p, start, found);
    var new_, ps := SelectRounds(t.nodes.Keys, st, ordered, start, KeyOf(sel, t, st, modifier));
    sorted, picks := ordered, ps;
    r := Some(Outcome(new_.value, true));
  }

  ghost predicate ModifierOf(sel: SelectionHash, t: Tree, st: map<Hash, Stake>, prev: Hash,
                             sorted: seq<Candidate>, picks: seq<nat>, modifier: nat)
    requires Linked(t) && Known(t, st) && prev in t.nodes
  {
    var start, last := SelectionStart(t, prev), LastGenerated(t, st, prev);
    && InOrder(sorted) && multiset(sorted) == multiset(Recent(t, prev, start))
    && (forall i :: 0 <= i < |sorted| ==> sorted[i].hash in st)
    && |picks| == Min(64, |sorted|) && Rounds(sorted, start, KeyOf(sel, t, st, st[last].modifier), picks)
    && modifier == Bits(Entropies(st, sorted, picks))
  }

  lemma SortedCandidates(t: Tree, prev: Hash, start: int, found: seq<Candidate>)
    requires Linked(t) && prev in t.nodes && multiset(found) == multiset(Recent(t, prev, start)) &&
             |found| == |Recent(t, prev, start)|
    ensures var s := Sort(found, Before);
            && InOrder(s) && multiset(s) == multiset(Recent(t, prev, start)) && |AllHashes(s)| == |s|
            && (forall i :: 0 <= i < |s| ==> s[i].hash in t.nodes)
  {
    var recent, s := Recent(t, prev, start), Sort(found, Before);
    RecentDistinct(t, prev, start);
    SortOk(found, Before);
    hide Sort, Recent;
    SameHashes(s, recent);
    forall i | 0 <= i < |s| ensures s[i].hash in t.nodes { assert s[i].hash in AllHashes(s); }
  }

  lemma SameHashes(r: seq<Candidate>, s: seq<Candidate>)
    requires multiset(r) == multiset(s)
    ensures AllHashes(r) == AllHashes(s) && |r| == |s|
  {
    assert |r| == |multiset(r)| == |multiset(s)| == |s|;
    forall c ensures c in r <==> c in s { assert c in multiset(r) <==> c in multiset(s); }
    forall x ensures x in AllHashes(r) <==> x in AllHashes(s) {
      if x in AllHashes(r) {
        var i :| 0 <= i < |r| && r[i].hash == x;
        assert r[i] in s;
      }
      if x in AllHashes(s) {
        var i :| 0 <= i < |s| && s[i].hash == x;
        assert s[i] in r;
      }
    }
  }

  /** A new modifier has one bit for each block of the selection interval, and 64 bits if there are more. */
  lemma ModifierCandidates(sel: SelectionHash, t: Tree, st: map<Hash, Stake>, prev: Hash, sorted: seq<Candidate>,
                           picks: seq<nat>, modifier: nat)
    requires Linked(t) && Known(t, st) && prev in t.nodes && ModifierOf(sel, t, st, prev, sorted, picks, modifier)
    ensures var blocks := set x | x in t.nodes && Reaches(t, x, prev, SelectionStart(t, prev));
            AllHashes(sorted) == blocks && |picks| == Min(64, |blocks|)
  {
    hide Recent, Rounds, Bits, InOrder, LastGenerated, Reaches, SelectionStart;
    SortedBlocks(t, prev, SelectionStart(t, prev), sorted);
  }

  lemma SortedBlocks(t: Tree, prev: Hash, start: int, sorted: seq<Candidate>)
    requires Linked(t) && prev in t.nodes && multiset(sorted) == multiset(Recent(t, prev, start))
    ensures var blocks := set x | x in t.nodes && Reaches(t, x, prev, start);
            AllHashes(sorted) == blocks && |sorted| == |blocks|
  {
    RecentDistinct(t, prev, start);
    hide Recent, Reaches;
    SameHashes(sorted, Recent(t, prev, start));
    RecentHashes(t, prev, start);
  }

  /** The selection interval ends with the last full six hours before the parent. */
  lemma SelectionStartIs(t: Tree, prev: Hash)
    requires prev in t.nodes
    ensures SelectionStart(t, prev) + Sections(64) == Time(t, prev) - Time(t, prev) % 21_600
  {
    hide Sections;
  }

  lemma RecentHashes(t: Tree, h: Hash, start: int)
    requires Linked(t) && h in t.nodes
    ensures AllHashes(Recent(t, h, start)) == set x | x in t.nodes && Reaches(t, x, h, start)
  {
    var s := Recent(t, h, start);
    RecentDistinct(t, h, start);
    hide Recent, Reaches;
    forall x | x in t.nodes ensures x in AllHashes(s) <==> Reaches(t, x, h, start) {
      RecentIff(t, h, start, x);
      if x in AllHashes(s) {
        var i :| 0 <= i < |s| && s[i].hash == x;
        assert s[i] == Candidate(Time(t, x), x);
      }
      if Reaches(t, x, h, start) {
        var i :| 0 <= i < |s| && s[i] == Candidate(Time(t, x), x);
        assert s[i].hash == x;
      }
    }
  }

  /** A block gets a new modifier if its parent lies in a later interval of six hours, and from 2014 on it too. */
  lemma RegeneratesIff(t: Tree, st: map<Hash, Stake>, prev: Hash, time: int, g: Hash)
    requires Linked(t) && Known(t, st) && prev in t.nodes && g in t.nodes && IsAncestor(t, g, prev) && st[g].generated
    requires forall a :: a in t.nodes && IsAncestor(t, a, prev) && st[a].generated ==> Height(t, a) <= Height(t, g)
    ensures Regenerates(t, st, prev, time) <==>
              && Time(t, g) / 21_600 < Time(t, prev) / 21_600
              && (time >= 1_413_763_200 ==> Time(t, g) / 21_600 < time / 21_600)
  {
    LastGeneratedIsLast(t, st, prev, g);
    assert LastGenerated(t, st, prev) == g;
  }

  ghost predicate Digests(sel: SelectionHash) { forall x, m :: sel(x, m) < TWO_256 }

  /**
   * A stake block is said to be always favoured over a work block. With every hash function it is, exactly
   * if the selection hash of the work block is not below 2^224 - 1.
   */
  lemma StakeFavouredIff(t: Tree, st: map<Hash, Stake>, m: nat, stake: Hash, work: Hash, v: nat)
    requires stake in t.nodes && work in t.nodes && stake in st && work in st && st[stake].proof != work
    requires t.nodes[stake].block.IsProofOfStake() && !t.nodes[work].block.IsProofOfStake() && v < TWO_256
    ensures (forall sel: SelectionHash :: Digests(sel) && sel(work, m) == v ==>
               Key(sel, t, st, m, stake) <= Key(sel, t, st, m, work))
            <==> v >= TWO_224 - 1
  {
    if v < TWO_224 - 1 {
      var sel: SelectionHash := (x, k) => if x == work then v else TWO_256 - 1;
      assert Digests(sel) && sel(work, m) == v;
      assert Key(sel, t, st, m, stake) == TWO_224 - 1;
    } else {
      forall sel: SelectionHash | Digests(sel) && sel(work, m) == v
        ensures Key(sel, t, st, m, stake) <= Key(sel, t, st, m, work)
      {
        var h := sel(st[stake].proof, m);
        DivUpper(h, 0x1_0000_0000, TWO_224);
      }
    }
  }

  // Every node computes the same modifier

  lemma FirstIsLeast(s: seq<Candidate>, x: Candidate)
    requires InOrder(s) && x in s
    ensures Before(s[0], x)
  {
    var i :| 0 <= i < |s| && s[i] == x;
    if i > 0 { assert Before(s[0], s[i]); }
  }

  lemma {:induction false} OrderedUnique(a: seq<Candidate>, b: seq<Candidate>)
    requires InOrder(a) && InOrder(b) && multiset(a) == multiset(b)
    ensures a == b
  {
    assert |a| == |multiset(a)| == |multiset(b)| == |b|;
    if a != [] {
      assert a[0] in multiset(b) && b[0] in multiset(a);
      FirstIsLeast(a, b[0]);
      FirstIsLeast(b, a[0]);
      assert a == [a[0]] + a[1..] && b == [b[0]] + b[1..];
      assert multiset(a[1..]) == multiset(a) - multiset{a[0]};
      assert multiset(b[1..]) == multiset(b) - multiset{b[0]};
      OrderedUnique(a[1..], b[1..]);
    }
  }

  lemma PickUnique(sorted: seq<Candidate>, selected: set<Hash>, stop: int, key: Hash -> nat, p: nat, q: nat)
    requires IsPick(sorted, selected, stop, key, p) && IsPick(sorted, selected, stop, key, q)
    ensures p == q
  {
    if SomeEarly(sorted, selected, stop) { assert Beats(sorted, key, p, q) && Beats(sorted, key, q, p); }
  }

  lemma {:induction false} RoundsUnique(sorted: seq<Candidate>, start: int, key: Hash -> nat, p: seq<nat>, q: seq<nat>)
    requires Rounds(sorted, start, key, p) && Rounds(sorted, start, key, q) && |p| == |q|
    ensures p == q
  {
    if p != [] {
      var last := |p| - 1;
      RoundsPrefix(sorted, start, key, p);
      RoundsPrefix(sorted, start, key, q);
      RoundsUnique(sorted, start, key, p[..last], q[..last]);
      assert RoundOk(sorted, start, key, p, last) && RoundOk(sorted, start, key, q, last);
      PickUnique(sorted, Hashes(sorted, p[..last]), start + Sections(last + 1), key, p[last], q[last]);
      assert p == p[..last] + [p[last]] && q == q[..last] + [q[last]];
    }
  }

  lemma RoundsPrefix(sorted: seq<Candidate>, start: int, key: Hash -> nat, p: seq<nat>)
    requires Rounds(sorted, start, key, p) && p != []
    ensures Rounds(sorted, start, key, p[..|p| - 1])
  {
    hide IsPick, Sections, Hashes;
    var less := p[..|p| - 1];
    forall r | 0 <= r < |less| ensures RoundOk(sorted, start, key, less, r) {
      assert RoundOk(sorted, start, key, p, r);
      assert less[..r] == p[..r];
    }
  }

  /** The branch determines the modifier. */
  lemma ModifierUnique(sel: SelectionHash, t: Tree, st: map<Hash, Stake>, prev: Hash,
                       s1: seq<Candidate>, p1: seq<nat>, m1: nat, s2: seq<Candidate>, p2: seq<nat>, m2: nat)
    requires Linked(t) && Known(t, st) && prev in t.nodes
    requires ModifierOf(sel, t, st, prev, s1, p1, m1) && ModifierOf(sel, t, st, prev, s2, p2, m2)
    ensures m1 == m2
  {
    hide InOrder, Rounds, Recent, Bits;
    OrderedUnique(s1, s2);
    RoundsUnique(s1, SelectionStart(t, prev), KeyOf(sel, t, st, st[LastGenerated(t, st, prev)].modifier), p1, p2);
  }

  // Over whole chains

  /** The flags in the block index are those that were computed when the blocks were added. */
  ghost predicate Computed(t: Tree, st: map<Hash, Stake>)
    requires Linked(t) && Known(t, st)
  {
    forall h {:trigger LinkedAt(t, h)} :: h in t.nodes ==>
      (st[h].generated <==> h == t.genesis || Regenerates(t, st, Parent(t, h), Time(t, h)))
  }

  /** On such a chain the computation never fails. */
  lemma NeverFails(t: Tree, st: map<Hash, Stake>, h: Hash)
    requires Linked(t) && Known(t, st) && Computed(t, st) && h in t.nodes
    ensures st[LastGenerated(t, st, h)].generated
  {
    assert LinkedAt(t, t.genesis);
  }

  /**
   * Under the fixed-interval rule the blocks that generate a modifier lie in strictly increasing
   * intervals: no interval ever sees two new modifiers.
   */
  lemma {:induction false} IntervalsIncrease(t: Tree, st: map<Hash, Stake>, a: Hash, b: Hash)
    requires Linked(t) && Known(t, st) && Computed(t, st) && a in t.nodes && b in t.nodes && IsAncestor(t, a, b) &&
             a != b
    requires st[a].generated && st[b].generated
    requires forall c :: c in t.nodes && IsAncestor(t, a, c) && IsAncestor(t, c, b) && c != a && st[c].generated ==>
               IsFixedModifierInterval(Time(t, c))
    ensures Interval(Time(t, a)) < Interval(Time(t, b))
    decreases Height(t, b)
  {
    assert LinkedAt(t, b);
    OnlyGenesisAtZero(t, a);
    assert b != t.genesis;
    var p := Parent(t, b);
    var g := LastGenerated(t, st, p);
    ParentIsAncestor(t, b);
    LastGeneratedIsLast(t, st, p, a);
    AncestorsComparable(t, a, g, p);
    NeverFails(t, st, p);
    if g != a {
      forall c | c in t.nodes && IsAncestor(t, a, c) && IsAncestor(t, c, g) && c != a && st[c].generated
        ensures IsFixedModifierInterval(Time(t, c))
      {
        AncestorTransitive(t, c, g, p);
        AncestorTransitive(t, c, p, b);
      }
      IntervalsIncrease(t, st, a, g);
    }
  }

  // The modifier a kernel is hashed with

  /** The main-chain block at height k lies above `from`, generated a modifier, and is an interval later. */
  ghost predicate Later(t: Tree, st: map<Hash, Stake>, best: Hash, from: Hash, k: nat)
    requires Linked(t) && Known(t, st) && best in t.nodes && from in t.nodes
  {
    && Height(t, from) < k <= Height(t, best)
    && (var b := Ancestor(t, best, k); st[b].generated && Time(t, b) >= Time(t, from) + Sections(64))
  }

  /** `r` is the modifier of the first such block, or none is found by following the links. */
  ghost predicate KernelModifier(t: Tree, st: map<Hash, Stake>, next: map<Hash, Hash>, best: Hash, from: Hash,
                                 r: Option<nat>, height: nat)
    requires Linked(t) && Known(t, st) && best in t.nodes
  {
    && (from !in t.nodes ==> r.None?)
    && (from in t.nodes && r.Some? ==>
          && IsAncestor(t, from, best) && Later(t, st, best, from, height)
          && (forall j: nat :: j < height ==> !Later(t, st, best, from, j))
          && r.value == st[Ancestor(t, best, height)].modifier)
    && (from in t.nodes && AllLinked(t, best, next) && IsAncestor(t, from, best) && r.None? ==>
          forall k: nat :: !Later(t, st, best, from, k))
  }

  /** Follows the main chain up from `from`. */
  method GetKernelStakeModifier(t: Tree, st: map<Hash, Stake>, next: map<Hash, Hash>, best: Hash, from: Hash)
    returns (r: Option<nat>, ghost height: nat)
    requires Linked(t) && Known(t, st) && best in t.nodes && LinksBelow(t, best, next)
    ensures KernelModifier(t, st, next, best, from, r, height)
  {
    r, height := None, 0;
    if from !in t.nodes { return; }
    height := Height(t, from);
    var modifierTime := Time(t, from);
    var length := GetStakeModifierSelectionInterval();
    SectionsPositive();
    hide Sections;
    var index := from;
    while modifierTime < Time(t, from) + length
      invariant index in t.nodes && height == Height(t, index) >= Height(t, from)
      invariant index == from || IsAncestor(t, index, best)
      invariant index != from ==> IsAncestor(t, from, best) && height > Height(t, from)
      invariant forall j: nat :: j < height ==> !Later(t, st, best, from, j)
      invariant modifierTime < Time(t, from) + length ==> !Later(t, st, best, from, height)
      invariant modifierTime >= Time(t, from) + length ==> Later(t, st, best, from, height)
      decreases Height(t, best) - height, modifierTime < Time(t, from) + length
    {
      if index !in next {
        if AllLinked(t, best, next) && IsAncestor(t, from, best) { AtTop(t, next, best, index); }
        return;
      }
      assert LinkBelow(t, best, next, index);
      index := next[index];
      height := height + 1;
      if st[index].generated { modifierTime := Time(t, index); }
    }
    r := Some(st[index].modifier);
  }

  lemma SectionsPositive()
    ensures Sections(64) > 0
  {
    assert Section(63) > 0;
    SectionsNonNegative(63);
  }

  lemma {:induction false} SectionsNonNegative(n: nat)
    requires n <= 64
    ensures Sections(n) >= 0
  {
    if n > 0 { SectionsNonNegative(n - 1); }
  }

  /** Only the best block has no link upwards. */
  lemma AtTop(t: Tree, next: map<Hash, Hash>, best: Hash, index: Hash)
    requires Linked(t) && best in t.nodes && index in t.nodes && AllLinked(t, best, next) && IsAncestor(t, index, best)
    requires index !in next
    ensures index == best
  {
  }
}
