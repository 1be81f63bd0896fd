/** Block rewards found by bisection (GetProofOfWorkReward and GetProofOfStakeReward, src/main.cpp). */
module Rewards {
  import opened Common
  import opened Arith
  import Compact

  const TARGETS_SWITCH_TIME: nat := 1374278400
  const MAX_MINT_PROOF_OF_WORK: nat := 100 * COIN
  const MAX_MINT_PROOF_OF_STAKE: nat := COIN

  // 2^236 - 1 and 2^229 - 1
  const POW_LIMIT: nat := 0xFFF_FFFF_FFFF_FFFF_FFFF_FFFF_FFFF_FFFF_FFFF_FFFF_FFFF_FFFF_FFFF_FFFF_FFFF
  const POS_LIMIT: nat := 0x1F_FFFF_FFFF_FFFF_FFFF_FFFF_FFFF_FFFF_FFFF_FFFF_FFFF_FFFF_FFFF_FFFF_FFFF

  /** GetProofOfStakeLimit(0, time) on the main network. */
  function StakeRewardLimit(time: nat): int {
    if time > TARGETS_SWITCH_TIME then POS_LIMIT else POW_LIMIT
  }

  /** The limit as a compact value carries it. */
  function Rounded(limit: nat): int { Compact.SetCompact(Compact.GetCompact(limit)) }

  /**
   * One instance of the curve (limit / reward) ** e == targetLimit / target. A reward is too big
   * when it lies above the root of that equation.
   */
  datatype Curve = Curve(e: nat, limit: nat, targetLimit: int, target: int) {
    predicate TooBig(x: nat) { Pow(x, e) * targetLimit > Pow(limit, e) * target }

    predicate Valid() { limit >= CENT && limit % CENT == 0 && targetLimit >= 0 }
  }

  function PowCurve(bits: nat): Curve {
    Curve(6, MAX_MINT_PROOF_OF_WORK, Rounded(POW_LIMIT), Compact.SetCompact(bits))
  }

  function PosCurve(bits: nat, time: nat): Curve {
    Curve(3, MAX_MINT_PROOF_OF_STAKE, Rounded(StakeRewardLimit(time)), Compact.SetCompact(bits))
  }

  lemma CurvesValid(bits: nat, time: nat)
    ensures PowCurve(bits).Valid() && PosCurve(bits, time).Valid()
  {
    hide Rounded;
    RoundedPositive(POW_LIMIT);
    RoundedPositive(POS_LIMIT);
  }

  lemma RoundedPositive(limit: nat)
    ensures Rounded(limit) >= 0
  {
    if Compact.Size(limit) < 256 {
      Compact.RoundTrip(limit);
    } else {
      if limit > 0 { Compact.MantissaRange(limit); }
      Compact.Fields(Compact.Size(limit) % 256, Compact.Mantissa(limit));
    }
  }

  /** Where the bisection stops: the final upper bound. */
  function Bisect(c: Curve, lo: nat, hi: nat): nat
    decreases hi - lo
  {
    if lo + CENT <= hi then
      var mid := (lo + hi) / 2;
      if c.TooBig(mid) then Bisect(c, lo, mid) else Bisect(c, mid, hi)
    else hi
  }

  function CurveReward(c: Curve): int {
    Min(Bisect(c, CENT, c.limit) / CENT * CENT, c.limit)
  }

  function PowReward(bits: nat): int { CurveReward(PowCurve(bits)) }

  function StakeYearReward(bits: nat, time: nat): int { CurveReward(PosCurve(bits, time)) }

  function StakeReward(coinAge: nat, bits: nat, time: nat): int {
    Min(coinAge * StakeYearReward(bits, time) * 33 / (365 * 33 + 8), 10 * COIN)
  }

  method GetProofOfWorkReward(bits: nat) returns (reward: int)
    ensures reward == PowReward(bits)
  {
    var c := PowCurve(bits);
    var lower, upper := CENT, c.limit;
    while lower + CENT <= upper
      invariant 0 <= lower && 0 <= upper
      invariant Bisect(c, lower, upper) == Bisect(c, CENT, c.limit)
      decreases upper - lower
    {
      var mid := (lower + upper) / 2;
      if Pow(mid, 6) * c.targetLimit > Pow(c.limit, 6) * c.target {
        upper := mid;
      } else {
        lower := mid;
      }
    }
    var subsidy := upper / CENT * CENT;
    reward := Min(subsidy, MAX_MINT_PROOF_OF_WORK);
  }

  method GetProofOfStakeReward(coinAge: nat, bits: nat, time: nat, coinYearOnly: bool) returns (reward: int)
    ensures reward == if coinYearOnly then StakeYearReward(bits, time) else StakeReward(coinAge, bits, time)
  {
    var c := PosCurve(bits, time);
    var lower, upper := CENT, c.limit;
    while lower + CENT <= upper
      invariant 0 <= lower && 0 <= upper
      invariant Bisect(c, lower, upper) == Bisect(c, CENT, c.limit)
      decreases upper - lower
    {
      var mid := (lower + upper) / 2;
      if Pow(mid, 3) * c.targetLimit > Pow(c.limit, 3) * c.target {
        upper := mid;
      } else {
        lower := mid;
      }
    }
    var rewardCoinYear := Min(upper / CENT * CENT, MAX_MINT_PROOF_OF_STAKE);
    if coinYearOnly { return rewardCoinYear; }
    reward := Min(coinAge * rewardCoinYear * 33 / (365 * 33 + 8), 10 * COIN);
  }

  // What the bisection finds

  lemma TooBigUpwards(c: Curve, x: nat, y: nat)
    requires c.Valid() && x <= y && c.TooBig(x)
    ensures c.TooBig(y)
  {
    PowBaseMono(x, y, c.e);
    MulMono(Pow(x, c.e), Pow(y, c.e), c.targetLimit);
  }

  lemma {:induction false} BisectBrackets(c: Curve, lo: nat, hi: nat) returns (last: nat)
    requires c.Valid() && CENT <= lo <= hi <= c.limit
    requires lo == CENT || !c.TooBig(lo)
    requires hi == c.limit || c.TooBig(hi)
    ensures lo <= last <= Bisect(c, lo, hi) <= hi
    ensures Bisect(c, lo, hi) < last + CENT
    ensures last == CENT || !c.TooBig(last)
    ensures Bisect(c, lo, hi) == c.limit || c.TooBig(Bisect(c, lo, hi))
    decreases hi - lo
  {
    if lo + CENT <= hi {
      var mid := (lo + hi) / 2;
      if c.TooBig(mid) { last := BisectBrackets(c, lo, mid); } else { last := BisectBrackets(c, mid, hi); }
    } else {
      last := lo;
    }
  }

  /** Every reward is a whole number of cents between one cent and the maximum. */
  lemma RewardRange(c: Curve)
    requires c.Valid()
    ensures CENT <= CurveReward(c) <= c.limit
    ensures CurveReward(c) % CENT == 0
  {
    var last := BisectBrackets(c, CENT, c.limit);
    var u := Bisect(c, CENT, c.limit);
    assert u / CENT * CENT % CENT == 0;
  }

  /**
   * The exact root lies less than a cent away: one cent less is not too big, one cent more is.
   * Outside the range the reward is the nearer end of it.
   */
  lemma RewardNearRoot(c: Curve)
    requires c.Valid()
    ensures CENT <= CurveReward(c)
    ensures !c.TooBig(CENT) && c.TooBig(c.limit) ==>
              && !c.TooBig(CurveReward(c) - CENT)
              && c.TooBig(CurveReward(c) + CENT)
    ensures c.TooBig(CENT) ==> CurveReward(c) == CENT
    ensures !c.TooBig(c.limit) ==> CurveReward(c) == c.limit
  {
    RewardRange(c);
    var last := BisectBrackets(c, CENT, c.limit);
    var u := Bisect(c, CENT, c.limit);
    var r := CurveReward(c);
    assert u - CENT < r <= u;
    if !c.TooBig(CENT) && c.TooBig(c.limit) {
      if c.TooBig(r - CENT) { TooBigUpwards(c, r - CENT, last); }
      TooBigUpwards(c, u, r + CENT);
    }
    if c.TooBig(CENT) {
      if last != CENT { TooBigUpwards(c, CENT, last); }
      assert CENT <= u < 2 * CENT;
    }
    if !c.TooBig(c.limit) {
      if u != c.limit { TooBigUpwards(c, u, c.limit); }
    }
  }

  lemma {:induction false} BisectMono(c: Curve, d: Curve, lo: nat, hi: nat)
    requires c.Valid() && d == c.(target := d.target) && c.target <= d.target
    requires CENT <= lo <= hi <= c.limit
    ensures Bisect(c, lo, hi) <= Bisect(d, lo, hi)
    decreases hi - lo
  {
    if lo + CENT <= hi {
      var mid := (lo + hi) / 2;
      if d.TooBig(mid) {
        MulMono(c.target, d.target, Pow(c.limit, c.e));
        assert c.TooBig(mid);
        BisectMono(c, d, lo, mid);
      } else if c.TooBig(mid) {
        BisectRange(c, lo, mid);
        BisectRange(d, mid, hi);
      } else {
        BisectMono(c, d, mid, hi);
      }
    }
  }

  lemma {:induction false} BisectRange(c: Curve, lo: nat, hi: nat)
    requires lo <= hi
    ensures lo <= Bisect(c, lo, hi) <= hi
    decreases hi - lo
  {
    if lo + CENT <= hi {
      var mid := (lo + hi) / 2;
      if c.TooBig(mid) { BisectRange(c, lo, mid); } else { BisectRange(c, mid, hi); }
    }
  }

  lemma CurveMonotone(c: Curve, target: int)
    requires c.Valid() && c.target <= target
    ensures CurveReward(c) <= CurveReward(c.(target := target))
  {
    var d := c.(target := target);
    BisectMono(c, d, CENT, c.limit);
    DivMono(Bisect(c, CENT, c.limit), Bisect(d, CENT, d.limit), CENT);
  }

  lemma PowRewardRange(bits: nat)
    ensures CENT <= PowReward(bits) <= MAX_MINT_PROOF_OF_WORK
  {
    hide CurveReward, Rounded;
    CurvesValid(bits, 0);
    RewardRange(PowCurve(bits));
  }

  /** An easier target never earns less. */
  lemma RewardMonotone(bits1: nat, bits2: nat, time: nat)
    requires Compact.SetCompact(bits1) <= Compact.SetCompact(bits2)
    ensures PowReward(bits1) <= PowReward(bits2)
    ensures StakeYearReward(bits1, time) <= StakeYearReward(bits2, time)
  {
    CurvesValid(bits1, time);
    CurveMonotone(PowCurve(bits1), Compact.SetCompact(bits2));
    CurveMonotone(PosCurve(bits1, time), Compact.SetCompact(bits2));
  }

  lemma {:induction false} PowTwice(x: nat, e: nat)
    ensures Pow(2 * x, e) == Pow(2, e) * Pow(x, e)
  {
    if e > 0 {
      PowTwice(x, e - 1);
      var a, b := Pow(2, e - 1), Pow(x, e - 1);
      assert 2 * x * (a * b) == (2 * a) * (x * b);
    }
  }

  lemma ScaledBy(p: int, x: int, l: int, y: int, t: int)
    requires p > 0
    ensures x * l > y * t <==> p * x * l > y * (p * t)
  {
    var a, b := x * l, y * t;
    assert p * x * l == a * p && y * (p * t) == b * p;
    if a > b { MulMono(b + 1, a, p); } else { MulMono(a, b, p); }
  }

  lemma TwiceTooBig(c: Curve, d: Curve, x: nat)
    requires d == c.(target := d.target) && c.target == Pow(2, c.e) * d.target
    ensures d.TooBig(x) <==> c.TooBig(2 * x)
  {
    PowTwice(x, c.e);
    PowPositive(2, c.e);
    hide Pow;
    ScaledBy(Pow(2, c.e), Pow(x, c.e), c.targetLimit, Pow(c.limit, c.e), d.target);
  }

  /** A target smaller by 2 to the exponent of the curve halves the reward, but for the rounding to cents. */
  lemma Halves(c: Curve, d: Curve)
    requires c.Valid() && d == c.(target := d.target) && c.target == Pow(2, c.e) * d.target && d.target >= 0
    requires CENT < CurveReward(d) && CurveReward(c) < c.limit
    ensures 2 * CurveReward(d) - 3 * CENT < CurveReward(c) < 2 * CurveReward(d) + 3 * CENT
  {
    PowPositive(2, c.e);
    MulMono(1, Pow(2, c.e), d.target);
    CurveMonotone(d, c.target);
    assert c == d.(target := c.target);
    RewardNearRoot(c);
    RewardNearRoot(d);
    hide CurveReward, Curve.TooBig;
    var r, s := CurveReward(c), CurveReward(d);
    TwiceTooBig(c, d, s - CENT);
    TwiceTooBig(c, d, s + CENT);
    if r + CENT <= 2 * (s - CENT) { TooBigUpwards(c, r + CENT, 2 * (s - CENT)); }
    if 2 * (s + CENT) <= r - CENT { TooBigUpwards(c, 2 * (s + CENT), r - CENT); }
  }

  /** The work reward is cut in half by a difficulty 64 times as high, and 100 coins at the limit. */
  lemma WorkRewardHalves(bits1: nat, bits2: nat)
    requires Compact.SetCompact(bits1) == 64 * Compact.SetCompact(bits2) && Compact.SetCompact(bits2) >= 0
    requires 10_000 < PowReward(bits2) && PowReward(bits1) < 100_000_000
    ensures 2 * PowReward(bits2) - 30_000 < PowReward(bits1) < 2 * PowReward(bits2) + 30_000
  {
    hide Rounded, CurveReward, Compact.SetCompact;
    CurvesValid(bits1, 0);
    assert Pow(2, 6) == 64;
    Halves(PowCurve(bits1), PowCurve(bits2));
  }

  /** The yearly rate of stake is cut in half by a difficulty eight times as high. */
  lemma StakeRateHalves(bits1: nat, bits2: nat, time: nat)
    requires Compact.SetCompact(bits1) == 8 * Compact.SetCompact(bits2) && Compact.SetCompact(bits2) >= 0
    requires 10_000 < StakeYearReward(bits2, time) && StakeYearReward(bits1, time) < 1_000_000
    ensures 2 * StakeYearReward(bits2, time) - 30_000 < StakeYearReward(bits1, time)
    ensures StakeYearReward(bits1, time) < 2 * StakeYearReward(bits2, time) + 30_000
  {
    hide Rounded, CurveReward, Compact.SetCompact;
    CurvesValid(bits1, time);
    assert Pow(2, 3) == 8;
    Halves(PosCurve(bits1, time), PosCurve(bits2, time));
  }

  /** At the limit a work block earns 100 coins, and a coin of stake a whole coin a year. */
  lemma RewardAtLimit(bits: nat, time: nat)
    ensures Compact.SetCompact(bits) >= Rounded(POW_LIMIT) ==> PowReward(bits) == 100_000_000
    ensures Compact.SetCompact(bits) >= Rounded(if time > 1_374_278_400 then POS_LIMIT else POW_LIMIT) ==>
              StakeYearReward(bits, time) == 1_000_000
  {
    hide Rounded, CurveReward, Compact.SetCompact;
    CurvesValid(bits, time);
    var c, d := PowCurve(bits), PosCurve(bits, time);
    PowPositive(c.limit, 6);
    PowPositive(d.limit, 3);
    RewardNearRoot(c);
    RewardNearRoot(d);
    if c.target >= c.targetLimit { MulMono(c.targetLimit, c.target, Pow(c.limit, 6)); }
    if d.target >= d.targetLimit { MulMono(d.targetLimit, d.target, Pow(d.limit, 3)); }
  }

  /** Thirty-three years of 365 days and eight leap days earn thirty-three yearly rates, up to ten coins. */
  lemma StakeRewardYears(k: nat, bits: nat, time: nat)
    ensures StakeReward(12_053 * k, bits, time) == Min(33 * k * StakeYearReward(bits, time), 10_000_000)
  {
    hide StakeYearReward;
    var rate := StakeYearReward(bits, time);
    assert 12_053 * k * rate * 33 == 12_053 * (33 * k * rate);
    DivUnique(12_053 * (33 * k * rate), 12_053, 33 * k * rate);
  }

  /** A year's rate for a year's coin days, a day at a time: less than a unit is lost. */
  lemma StakeRewardShare(coinAge: nat, bits: nat, time: nat)
    ensures var r, full := StakeReward(coinAge, bits, time), coinAge * StakeYearReward(bits, time) * 33;
            if full >= 12_053 * 10_000_000 then r == 10_000_000 else 12_053 * r <= full < 12_053 * r + 12_053
  {
    hide StakeYearReward;
    var full := coinAge * StakeYearReward(bits, time) * 33;
    DivBounds(full, 12_053);
    if full >= 12_053 * 10_000_000 { DivLower(full, 12_053, 10_000_000); } else { DivUpper(full, 12_053, 10_000_000); }
  }
}
