/** The difficulty adjustment (GetNextTargetRequired, src/main.cpp). */
module Retarget {
  import opened Common
  import opened Arith
  import opened Compact
  import opened BlockTree
  import opened Rewards

  const TARGET_TIMESPAN: int := 7 * ONE_DAY
  const STAKE_TARGET_SPACING: int := 600

  // 2^232 - 1 and 2^226 - 1
  const POS_LEGACY_LIMIT: nat := 0xFF_FFFF_FFFF_FFFF_FFFF_FFFF_FFFF_FFFF_FFFF_FFFF_FFFF_FFFF_FFFF_FFFF_FFFF
  const POS_HARD_LIMIT: nat := 0x3_FFFF_FFFF_FFFF_FFFF_FFFF_FFFF_FFFF_FFFF_FFFF_FFFF_FFFF_FFFF_FFFF_FFFF

  function StakeLimit(height: nat, time: nat): nat {
    if time > TARGETS_SWITCH_TIME then POS_LIMIT
    else if height + 1 > 15000 then POS_LEGACY_LIMIT
    else if height + 1 > 14060 then POS_HARD_LIMIT
    else POW_LIMIT
  }

  function WorkSpacingMax(time: nat): int {
    if time > TARGETS_SWITCH_TIME then 3 * STAKE_TARGET_SPACING else 12 * STAKE_TARGET_SPACING
  }

  // The walk to the last block of a kind

  /** The highest block at or below `h` of the given kind, or the genesis block if there is none. */
  function LastOfKind(t: Tree, h: Hash, stake: bool): (r: Hash)
    requires Linked(t) && h in t.nodes
    ensures r in t.nodes && Height(t, r) <= Height(t, h)
    decreases Height(t, h)
  {
    if h == t.genesis || t.nodes[h].block.IsProofOfStake() == stake then h else LastOfKind(t, Parent(t, h), stake)
  }

  method GetLastBlockIndex(t: Tree, h: Hash, stake: bool) returns (r: Hash)
    requires Linked(t) && h in t.nodes
    ensures r == LastOfKind(t, h, stake)
  {
    r := h;
    assert LinkedAt(t, r);
    while t.nodes[r].prev.Some? && t.nodes[r].block.IsProofOfStake() != stake
      invariant r in t.nodes && LinkedAt(t, r) && LastOfKind(t, r, stake) == LastOfKind(t, h, stake)
      decreases Height(t, r)
    {
      r := t.nodes[r].prev.value;
      assert LinkedAt(t, r);
    }
  }

  /** What the walk promises: nothing of the kind in between. */
  lemma {:induction false} LastOfKindIsLast(t: Tree, h: Hash, stake: bool, a: Hash)
    requires Linked(t) && h in t.nodes && a in t.nodes && IsAncestor(t, a, h)
    ensures var r := LastOfKind(t, h, stake);
            && IsAncestor(t, r, h)
            && (Height(t, a) > Height(t, r) ==> t.nodes[a].block.IsProofOfStake() != stake)
            && (t.nodes[r].block.IsProofOfStake() == stake || r == t.genesis)
    decreases Height(t, h)
  {
    var r := LastOfKind(t, h, stake);
    if r != h {
      var p := Parent(t, h);
      if a != h {
        LastOfKindIsLast(t, p, stake, a);
      } else {
        LastOfKindIsLast(t, p, stake, p);
      }
      ParentIsAncestor(t, h);
      AncestorTransitive(t, r, p, h);
    }
  }

  // The adjustment

  /** Division of arbitrary precision numbers truncates towards zero. */
  function Quotient(x: int, d: int): int
    requires d > 0
  {
    if x >= 0 then x / d else -((-x) / d)
  }

  /** One step of an exponential moving average towards the wanted spacing. */
  function Moved(target: int, spacing: int, actual: int): int
    requires 0 < spacing <= TARGET_TIMESPAN
  {
    var interval := TARGET_TIMESPAN / spacing;
    DivLower(TARGET_TIMESPAN, spacing, 1);
    MulPositive(interval + 1, spacing);
    Quotient(target * ((interval - 1) * spacing + actual + actual), (interval + 1) * spacing)
  }

  function Adjusted(limit: nat, bits: nat, spacing: int, actual: int): int
    requires 0 < spacing <= TARGET_TIMESPAN
  {
    GetCompact(Min(Moved(SetCompact(bits), spacing, actual), limit))
  }

  // The compact form of a number with a sign

  function Abs(x: int): nat { if x < 0 then -x else x }

  /** What a compact value keeps of a number: its sign and its leading bytes. */
  function Kept(x: int): int {
    var k: int := Truncated(Abs(x));
    if x < 0 then 0 - k else k
  }

  lemma SignedFields(s: nat, m: nat)
    requires m < 0x80_0000
    ensures (s * 0x100_0000 + m + 0x80_0000) / 0x100_0000 == s
    ensures (s * 0x100_0000 + m + 0x80_0000) % 0x80_0000 == m
    ensures ((s * 0x100_0000 + m + 0x80_0000) / 0x80_0000) % 2 == 1
  {
    var c := s * 0x100_0000 + m + 0x80_0000;
    DivUnique(c, 0x100_0000, s);
    DivUnique(c, 0x80_0000, 2 * s + 1);
  }

  lemma OppositeSigns(c: int, d: int)
    requires c / 0x100_0000 == d / 0x100_0000 && c % 0x80_0000 == d % 0x80_0000
    requires (c / 0x80_0000) % 2 == 0 && (d / 0x80_0000) % 2 == 1
    ensures SetCompact(d) == -SetCompact(c)
  {
    hide Unit;
  }

  lemma SignedRoundTrip(x: int)
    requires Size(Abs(x)) < 256
    ensures SetCompact(GetCompact(x)) == Kept(x)
  {
    hide Size, Mantissa, Truncated, SetCompact;
    var a := Abs(x);
    RoundTrip(a);
    if x < 0 {
      CompactFields(a);
      MantissaRange(a);
      SignedFields(Size(a), Mantissa(a));
      OppositeSigns(GetCompact(a), GetCompact(x));
    }
  }

  lemma KeptMono(x: int, y: int)
    requires x <= y
    ensures Kept(x) <= Kept(y)
  {
    if x >= 0 {
      TruncatedMono(x, y);
    } else if y < 0 {
      TruncatedMono(Abs(y), Abs(x));
    }
  }

  lemma KeptBelow(x: int, limit: nat)
    requires x <= limit
    ensures Kept(x) <= limit
  {
    KeptMono(x, limit);
  }

  /** Numbers below 2^400 fit easily. */
  lemma Fits(x: nat)
    requires x < 128 * Pow(256, 50)
    ensures Size(x) < 256
  {
    if x > 0 && PositiveSize(x) > 51 {
      SizeBounds(x);
      PowMono(256, 50, PositiveSize(x) - 2);
    }
  }

  // What the adjustment keeps

  lemma QuotientMono(x: int, y: int, d: int)
    requires d > 0 && x <= y
    ensures Quotient(x, d) <= Quotient(y, d)
  {
    if x >= 0 {
      DivMono(x, y, d);
    } else if y < 0 {
      DivMono(-y, -x, d);
    } else {
      DivLower(-x, d, 0);
      DivLower(y, d, 0);
    }
  }

  /** A longer observed spacing never gives a smaller target. */
  lemma MovedMono(target: int, spacing: int, a: int, b: int)
    requires target >= 0 && 0 < spacing <= TARGET_TIMESPAN && a <= b
    ensures Moved(target, spacing, a) <= Moved(target, spacing, b)
  {
    var n := TARGET_TIMESPAN / spacing;
    DivLower(TARGET_TIMESPAN, spacing, 1);
    MulPositive(n + 1, spacing);
    var base := (n - 1) * spacing;
    MulMono(base + a + a, base + b + b, target);
    QuotientMono(target * (base + a + a), target * (base + b + b), (n + 1) * spacing);
  }

  /** Exactly on target, nothing moves. */
  lemma MovedFixed(target: int, spacing: int)
    requires target >= 0 && 0 < spacing <= TARGET_TIMESPAN
    ensures Moved(target, spacing, spacing) == target
  {
    var n := TARGET_TIMESPAN / spacing;
    DivLower(TARGET_TIMESPAN, spacing, 1);
    MulPositive(n + 1, spacing);
    var d := (n + 1) * spacing;
    assert (n - 1) * spacing + spacing + spacing == d;
    MulMono(0, target, d);
    DivUnique(target * d, d, target);
  }

  const TIME_RANGE: int := 0x1_0000_0000

  lemma MovedSmall(target: int, spacing: int, actual: int)
    requires 0 <= target <= POW_LIMIT && 0 < spacing <= TARGET_TIMESPAN && -TIME_RANGE < actual < TIME_RANGE
    ensures Size(Abs(Moved(target, spacing, actual))) < 256
  {
    var n := TARGET_TIMESPAN / spacing;
    DivLower(TARGET_TIMESPAN, spacing, 1);
    DivBounds(TARGET_TIMESPAN, spacing);
    MulPositive(n + 1, spacing);
    var f := (n - 1) * spacing + actual + actual;
    MulMono(0, n - 1, spacing);
    assert (n - 1) * spacing <= TARGET_TIMESPAN;
    ProductBound(target, POW_LIMIT, f, 3 * TIME_RANGE);
    QuotientShrinks(target * f, (n + 1) * spacing);
    BigEnough();
    hide Moved, Pow;
    Fits(Abs(Moved(target, spacing, actual)));
  }

  lemma ProductBound(x: int, xMax: int, f: int, fMax: int)
    requires 0 <= x <= xMax && -fMax <= f <= fMax
    ensures Abs(x * f) <= xMax * fMax
  {
    MulMono(-fMax, f, x);
    MulMono(f, fMax, x);
    MulMono(x, xMax, fMax);
  }

  lemma QuotientShrinks(x: int, d: int)
    requires d > 0
    ensures Abs(Quotient(x, d)) <= Abs(x)
  {
    var a := Abs(x);
    DivLower(a, d, 0);
    MulMono(1, d, a + 1);
    DivUpper(a, d, a + 1);
  }

  lemma BigEnough()
    ensures POW_LIMIT * (3 * TIME_RANGE) < 128 * Pow(256, 50)
  {
    assert Pow(256, 5) == 0x100_0000_0000;
    hide Pow;
    PowAdd(256, 5, 5);
    assert Pow(256, 10) == 0x100000000000000000000;
    PowAdd(256, 10, 10);
    assert Pow(256, 20) == 0x10000000000000000000000000000000000000000;
    PowAdd(256, 20, 20);
    assert Pow(256, 40) == 0x100000000000000000000000000000000000000000000000000000000000000000000000000000000;
    PowMono(256, 40, 50);
  }

  lemma AdjustedIs(limit: nat, bits: nat, spacing: int, actual: int)
    requires limit <= POW_LIMIT && 0 <= SetCompact(bits) <= POW_LIMIT
    requires 0 < spacing <= TARGET_TIMESPAN && -TIME_RANGE < actual < TIME_RANGE
    ensures SetCompact(Adjusted(limit, bits, spacing, actual)) ==
            Kept(Min(Moved(SetCompact(bits), spacing, actual), limit))
  {
    var m := Moved(SetCompact(bits), spacing, actual);
    MovedSmall(SetCompact(bits), spacing, actual);
    LimitSmall(limit);
    hide SetCompact, GetCompact, Moved, Size, Kept;
    SignedRoundTrip(Min(m, limit));
  }

  lemma LimitSmall(limit: nat)
    requires limit <= POW_LIMIT
    ensures Size(limit) < 256
  {
    BigEnough();
    Fits(limit);
  }

  /**
   * The law of the adjustment, for any observed spacing of 32-bit times: the new target is within
   * the limit, exact spacing keeps a canonical target within the limit, and slower blocks never
   * make it smaller.
   */
  lemma AdjustmentLaw(limit: nat, bits: nat, spacing: int, a: int, b: int)
    requires limit <= POW_LIMIT && 0 <= SetCompact(bits) <= POW_LIMIT && 0 < spacing <= TARGET_TIMESPAN
    requires -TIME_RANGE < a <= b < TIME_RANGE
    ensures SetCompact(Adjusted(limit, bits, spacing, a)) <= limit
    ensures SetCompact(bits) <= limit && GetCompact(SetCompact(bits)) == bits ==>
            Adjusted(limit, bits, spacing, spacing) == bits
    ensures SetCompact(Adjusted(limit, bits, spacing, a)) <= SetCompact(Adjusted(limit, bits, spacing, b))
  {
    AdjustedIs(limit, bits, spacing, a);
    AdjustedIs(limit, bits, spacing, b);
    var target := SetCompact(bits);
    MovedFixed(target, spacing);
    MovedMono(target, spacing, a, b);
    hide SetCompact, GetCompact, Moved, Size, Kept;
    KeptBelow(Min(Moved(target, spacing, a), limit), limit);
    KeptMono(Min(Moved(target, spacing, a), limit), Min(Moved(target, spacing, b), limit));
  }

  // On the block tree

  function TargetLimit(t: Tree, last: Hash, stake: bool): (limit: nat)
    requires last in t.nodes
    ensures limit <= POW_LIMIT
  {
    if stake then StakeLimit(Height(t, last), t.nodes[last].block.time) else POW_LIMIT
  }

  /** Proof-of-work blocks may take longer the more proof-of-stake blocks came since. */
  function TargetSpacing(t: Tree, last: Hash, prev: Hash, stake: bool): (s: int)
    requires last in t.nodes && prev in t.nodes && Height(t, prev) <= Height(t, last)
    ensures 0 < s <= TARGET_TIMESPAN
  {
    if stake then STAKE_TARGET_SPACING
    else Min(WorkSpacingMax(t.nodes[last].block.time), STAKE_TARGET_SPACING * (1 + Height(t, last) - Height(t, prev)))
  }

  function NextTarget(t: Tree, last: Hash, stake: bool): int
    requires Linked(t) && last in t.nodes
  {
    var limit := TargetLimit(t, last, stake);
    var prev := LastOfKind(t, last, stake);
    if prev == t.genesis then GetCompact(limit) else
      var before := LastOfKind(t, Parent(t, prev), stake);
      if before == t.genesis then GetCompact(limit) else
        Adjusted(limit, t.nodes[prev].block.bits, TargetSpacing(t, last, prev, stake),
                 t.nodes[prev].block.time - t.nodes[before].block.time)
  }

  lemma TargetIsNat(t: Tree, last: Hash, stake: bool)
    requires Linked(t) && last in t.nodes
    ensures NextTarget(t, last, stake) >= 0
  {
    hide GetCompact, LastOfKind;
    var limit := TargetLimit(t, last, stake);
    var prev := LastOfKind(t, last, stake);
    CompactIsNat(limit);
    if prev != t.genesis {
      var before := LastOfKind(t, Parent(t, prev), stake);
      var actual := t.nodes[prev].block.time - t.nodes[before].block.time;
      var spacing := TargetSpacing(t, last, prev, stake);
      CompactIsNat(Min(Moved(SetCompact(t.nodes[prev].block.bits), spacing, actual), limit));
    }
  }

  // Which blocks and which times decide

  /** The highest block of a kind at or below `h`. */
  ghost predicate Highest(t: Tree, h: Hash, stake: bool, r: Hash)
    requires Linked(t) && h in t.nodes && r in t.nodes
  {
    && IsAncestor(t, r, h) && t.nodes[r].block.IsProofOfStake() == stake
    && forall a :: a in t.nodes && IsAncestor(t, a, h) && Height(t, a) > Height(t, r) ==>
         t.nodes[a].block.IsProofOfStake() != stake
  }

  lemma HighestFound(t: Tree, h: Hash, stake: bool, r: Hash)
    requires Linked(t) && h in t.nodes && r in t.nodes && Highest(t, h, stake, r)
    ensures LastOfKind(t, h, stake) == r
  {
    LastOfKindIsLast(t, h, stake, r);
  }

  /** The last two blocks of a kind above the genesis block. */
  ghost predicate LastTwo(t: Tree, last: Hash, stake: bool, prev: Hash, before: Hash)
    requires Linked(t) && last in t.nodes && prev in t.nodes && before in t.nodes
  {
    && Highest(t, last, stake, prev) && prev != t.genesis
    && Highest(t, Parent(t, prev), stake, before) && before != t.genesis
  }

  /** A stake block every ten minutes; a work block ten minutes after each block since, within half an hour or two. */
  predicate Wanted(t: Tree, last: Hash, stake: bool, prev: Hash, spacing: int)
    requires last in t.nodes && prev in t.nodes
  {
    if stake then spacing == 600
    else
      var most := if Time(t, last) > 1_374_278_400 then 1800 else 7200;
      spacing == Min(most, 600 * (1 + Height(t, last) - Height(t, prev)))
  }

  /** The limit in force: for stake blocks it has been tightened with height and time. */
  predicate InForce(t: Tree, last: Hash, stake: bool, limit: nat)
    requires last in t.nodes
  {
    limit == if !stake then POW_LIMIT
             else if Time(t, last) > 1_374_278_400 then POS_LIMIT
             else if Height(t, last) >= 15_000 then POS_LEGACY_LIMIT
             else if Height(t, last) >= 14_060 then POS_HARD_LIMIT
             else POW_LIMIT
  }

  /** The target of the last block of the kind is moved by the time since the one before. */
  lemma TargetFrom(t: Tree, last: Hash, stake: bool, prev: Hash, before: Hash, limit: nat, spacing: int)
    requires Linked(t) && last in t.nodes && prev in t.nodes && before in t.nodes
    requires LastTwo(t, last, stake, prev, before) && InForce(t, last, stake, limit)
    requires Wanted(t, last, stake, prev, spacing)
    ensures 0 < spacing <= TARGET_TIMESPAN && limit <= POW_LIMIT
    ensures NextTarget(t, last, stake) ==
            Adjusted(limit, t.nodes[prev].block.bits, spacing, Time(t, prev) - Time(t, before))
  {
    HighestFound(t, last, stake, prev);
    HighestFound(t, Parent(t, prev), stake, before);
    hide LastOfKind, Adjusted, LastTwo, IsAncestor;
    assert TargetLimit(t, last, stake) == limit;
    assert TargetSpacing(t, last, prev, stake) == spacing;
  }

  /** Blocks at the wanted distance leave the target of the last one of the kind as it is. */
  lemma TargetStays(t: Tree, last: Hash, stake: bool, prev: Hash, before: Hash, limit: nat)
    requires Linked(t) && last in t.nodes && prev in t.nodes && before in t.nodes
    requires LastTwo(t, last, stake, prev, before) && InForce(t, last, stake, limit)
    requires Wanted(t, last, stake, prev, Time(t, prev) - Time(t, before))
    requires var bits := t.nodes[prev].block.bits;
             0 <= SetCompact(bits) <= limit && GetCompact(SetCompact(bits)) == bits
    ensures NextTarget(t, last, stake) == t.nodes[prev].block.bits
  {
    hide NextTarget, SetCompact, GetCompact, Adjusted;
    var spacing := Time(t, prev) - Time(t, before);
    TargetFrom(t, last, stake, prev, before, limit, spacing);
    AdjustmentLaw(limit, t.nodes[prev].block.bits, spacing, spacing, spacing);
  }

  /** A stake block that comes 302700 seconds too late doubles the target: half the week and five minutes. */
  lemma LateStakeDoubles(t: Tree, last: Hash, prev: Hash, before: Hash, limit: nat, k: nat)
    requires Linked(t) && last in t.nodes && prev in t.nodes && before in t.nodes
    requires LastTwo(t, last, true, prev, before) && InForce(t, last, true, limit)
    requires Time(t, prev) - Time(t, before) == 600 + 302_700 * k && SetCompact(t.nodes[prev].block.bits) >= 0
    ensures NextTarget(t, last, true) == GetCompact(Min((1 + k) * SetCompact(t.nodes[prev].block.bits), limit))
  {
    hide NextTarget, SetCompact, GetCompact;
    TargetFrom(t, last, true, prev, before, limit, 600);
    MovedScales(SetCompact(t.nodes[prev].block.bits), k);
  }

  lemma MovedScales(target: nat, k: nat)
    ensures Moved(target, 600, 600 + 302_700 * k) == (1 + k) * target
  {
    var x := 605_400 * (1 + k);
    assert (TARGET_TIMESPAN / 600 - 1) * 600 + 2 * (600 + 302_700 * k) == x;
    assert target * x == 605_400 * ((1 + k) * target);
    DivUnique(target * x, 605_400, (1 + k) * target);
  }

  /** On two branches with the same last target, the one whose last two blocks lie further apart asks for no less. */
  lemma TargetGrows(t: Tree, last: Hash, prev: Hash, before: Hash, u: Tree, last': Hash, prev': Hash, before': Hash,
                    stake: bool, limit: nat, spacing: int)
    requires Linked(t) && last in t.nodes && prev in t.nodes && before in t.nodes
    requires Linked(u) && last' in u.nodes && prev' in u.nodes && before' in u.nodes
    requires LastTwo(t, last, stake, prev, before) && InForce(t, last, stake, limit)
    requires LastTwo(u, last', stake, prev', before') && InForce(u, last', stake, limit)
    requires Wanted(t, last, stake, prev, spacing) && Wanted(u, last', stake, prev', spacing)
    requires t.nodes[prev].block.bits == u.nodes[prev'].block.bits
    requires 0 <= SetCompact(t.nodes[prev].block.bits) <= POW_LIMIT
    requires 0 <= Time(t, prev) < TIME_RANGE && 0 <= Time(t, before) < TIME_RANGE
    requires 0 <= Time(u, prev') < TIME_RANGE && 0 <= Time(u, before') < TIME_RANGE
    requires Time(t, prev) - Time(t, before) <= Time(u, prev') - Time(u, before')
    ensures SetCompact(NextTarget(t, last, stake)) <= SetCompact(NextTarget(u, last', stake))
  {
    hide NextTarget, SetCompact, GetCompact, Adjusted;
    TargetFrom(t, last, stake, prev, before, limit, spacing);
    TargetFrom(u, last', stake, prev', before', limit, spacing);
    AdjustmentLaw(limit, t.nodes[prev].block.bits, spacing, Time(t, prev) - Time(t, before),
                  Time(u, prev') - Time(u, before'));
  }

  /** As long as there are no two blocks of a kind above the genesis block the target is the limit. */
  lemma FirstTargets(t: Tree, last: Hash, stake: bool, limit: nat)
    requires Linked(t) && last in t.nodes && InForce(t, last, stake, limit)
    requires forall prev, before :: prev in t.nodes && before in t.nodes ==> !LastTwo(t, last, stake, prev, before)
    ensures NextTarget(t, last, stake) == GetCompact(limit)
  {
    hide GetCompact, Adjusted;
    var prev := LastOfKind(t, last, stake);
    if prev != t.genesis {
      LastFound(t, last, stake);
      LastFound(t, Parent(t, prev), stake);
      assert !LastTwo(t, last, stake, prev, LastOfKind(t, Parent(t, prev), stake));
    }
    hide LastOfKind;
    assert TargetLimit(t, last, stake) == limit;
  }

  lemma LastFound(t: Tree, h: Hash, stake: bool)
    requires Linked(t) && h in t.nodes
    ensures LastOfKind(t, h, stake) != t.genesis ==> Highest(t, h, stake, LastOfKind(t, h, stake))
  {
    forall a | a in t.nodes && IsAncestor(t, a, h)
      ensures Height(t, a) > Height(t, LastOfKind(t, h, stake)) ==> t.nodes[a].block.IsProofOfStake() != stake
    {
      LastOfKindIsLast(t, h, stake, a);
    }
    assert IsAncestor(t, h, h);
    LastOfKindIsLast(t, h, stake, h);
  }

  method GetNextTargetRequired(t: Tree, last: Option<Hash>, stake: bool) returns (bits: int)
    requires Linked(t) && (last.Some? ==> last.value in t.nodes)
    ensures bits == if last.Some? then NextTarget(t, last.value, stake) else GetCompact(POW_LIMIT)
  {
    hide GetCompact, SetCompact, Moved, LastOfKind, TargetLimit, TargetSpacing;
    if last.None? { return GetCompact(POW_LIMIT); }
    var limit := TargetLimit(t, last.value, stake);
    var prev := GetLastBlockIndex(t, last.value, stake);
    assert LinkedAt(t, prev);
    if t.nodes[prev].prev.None? { return GetCompact(limit); }
    var before := GetLastBlockIndex(t, t.nodes[prev].prev.value, stake);
    assert LinkedAt(t, before);
    if t.nodes[before].prev.None? { return GetCompact(limit); }
    var actual := t.nodes[prev].block.time - t.nodes[before].block.time;
    var target := SetCompact(t.nodes[prev].block.bits);
    var spacing := TargetSpacing(t, last.value, prev, stake);
    var moved := Moved(target, spacing, actual);
    if moved > limit { moved := limit; }
    bits := GetCompact(moved);
  }

  /** Every block carries the target that was asked of it. */
  ghost predicate TargetsAsked(t: Tree)
    requires Linked(t)
  {
    forall h {:trigger LinkedAt(t, h)} :: h in t.nodes && h != t.genesis ==>
      t.nodes[h].block.bits == NextTarget(t, Parent(t, h), t.nodes[h].block.IsProofOfStake())
  }

  /** Nor does a block without a positive target prove anything; times have 32 bits. */
  ghost predicate TargetsAccepted(t: Tree)
    requires Linked(t)
  {
    && TargetsAsked(t) && SetCompact(t.nodes[t.genesis].block.bits) <= POW_LIMIT
    && (forall h {:trigger LinkedAt(t, h)} :: h in t.nodes ==>
          t.nodes[h].block.time < TIME_RANGE && SetCompact(t.nodes[h].block.bits) > 0)
  }

  /** Over every branch, no target ever exceeds the limit in force. */
  lemma {:induction false} TargetsWithinLimit(t: Tree, h: Hash)
    requires Linked(t) && TargetsAccepted(t) && h in t.nodes
    ensures SetCompact(t.nodes[h].block.bits) <= POW_LIMIT
    ensures h != t.genesis ==>
              SetCompact(t.nodes[h].block.bits) <= TargetLimit(t, Parent(t, h), t.nodes[h].block.IsProofOfStake())
    decreases Height(t, h)
  {
    hide SetCompact, GetCompact, Kept, Adjusted, TargetLimit, TargetSpacing, LastOfKind;
    assert LinkedAt(t, h);
    if h != t.genesis {
      var last, stake := Parent(t, h), t.nodes[h].block.IsProofOfStake();
      var limit := TargetLimit(t, last, stake);
      var prev := LastOfKind(t, last, stake);
      LimitSmall(limit);
      SignedRoundTrip(limit);
      KeptBelow(limit, limit);
      if prev != t.genesis {
        assert LinkedAt(t, prev);
        TargetsWithinLimit(t, prev);
        var before := LastOfKind(t, Parent(t, prev), stake);
        assert LinkedAt(t, before);
        if before != t.genesis {
          var actual := t.nodes[prev].block.time - t.nodes[before].block.time;
          AdjustmentLaw(limit, t.nodes[prev].block.bits, TargetSpacing(t, last, prev, stake), actual, actual);
        }
      }
    }
  }
}
