/**
 * The proof-of-stake kernel: the validator's test (src/kernel.cpp, src/kernel.h) and the scanners
 * that look for a time that passes it (src/kernel_worker.cpp, src/kernel.cpp).
 */
module KernelScan {
  import opened Common
  import opened Arith
  import opened Compact
  import opened Retarget
  import opened BlockTree
  import opened Reorg
  import opened StakeModifier

  const STAKE_MIN_AGE: int := 30 * ONE_DAY
  const STAKE_MAX_AGE: int := 90 * ONE_DAY

  /** SHA-256 and the reading of a digest as a number are not modelled further. */
  datatype Sha = Sha(digest: seq<byte> -> seq<byte>, number: seq<byte> -> nat)

  // Little-endian fields

  function Le(n: nat, width: nat): (r: seq<byte>)
    ensures |r| == width
  {
    if width == 0 then [] else [(n % 256) as byte] + Le(n / 256, width - 1)
  }

  // The test of a time

  function GetWeight(begin: int, end: int): int { Min(end - begin - STAKE_MIN_AGE, STAKE_MAX_AGE) }

  function CoinDayWeight(value: int, begin: int, end: int): int {
    Quotient(Quotient(value * GetWeight(begin, end), COIN), ONE_DAY)
  }

  /** The target at a time: it grows with the age of the coin up to a maximum. */
  function Target(bits: nat, value: int, txTime: int, time: int): int {
    CoinDayWeight(value, txTime, time) * SetCompact(bits)
  }

  function MaxTarget(bits: nat, value: int): int {
    Quotient(Quotient(SetCompact(bits) * value * STAKE_MAX_AGE, COIN), ONE_DAY)
  }

  /** The low 256 bits of the magnitude. */
  function GetUint256(x: int): nat { Abs(x) % TWO_256 }

  /** The two rounds of hashing that give the proof for a time. */
  function KernelHash(sha: Sha, kernel: seq<byte>, time: nat): nat {
    sha.number(sha.digest(sha.digest(kernel + Le(time, 4))))
  }

  predicate Passes(sha: Sha, kernel: seq<byte>, bits: nat, txTime: int, value: int, time: nat) {
    KernelHash(sha, kernel, time) <= Target(bits, value, txTime, time)
  }

  // What the age of a coin is worth

  /** Up to an age of 30 days nothing but a hash of zero passes. */
  lemma YoungFails(sha: Sha, kernel: seq<byte>, bits: nat, txTime: int, value: int, time: nat)
    requires value >= 0 && SetCompact(bits) >= 0 && time - txTime <= 30 * 86_400
    ensures Target(bits, value, txTime, time) <= 0
    ensures time - txTime == 30 * 86_400 ==> Target(bits, value, txTime, time) == 0
    ensures Passes(sha, kernel, bits, txTime, value, time) ==> KernelHash(sha, kernel, time) == 0
  {
    hide SetCompact;
    var w := GetWeight(txTime, time);
    MulMono(w, 0, value);
    QuotientMono(value * w, 0, COIN);
    QuotientMono(Quotient(value * w, COIN), 0, ONE_DAY);
    MulMono(CoinDayWeight(value, txTime, time), 0, SetCompact(bits));
  }

  /** From 30 to 120 days of age every coin is worth a coin day a day; the target is that many times the bits. */
  lemma CoinsAge(bits: nat, coins: nat, txTime: int, time: int)
    requires 30 * 86_400 <= time - txTime <= 120 * 86_400
    ensures Target(bits, coins * COIN, txTime, time) ==
            coins * (time - txTime - 30 * 86_400) / 86_400 * SetCompact(bits)
  {
    hide SetCompact;
    var w := time - txTime - 30 * 86_400;
    assert GetWeight(txTime, time) == w;
    MulMono(0, w, coins);
    assert coins * COIN * w == COIN * (coins * w);
    DivUnique(COIN * (coins * w), COIN, coins * w);
  }

  lemma DayMore(coins: nat, w: nat, m: int)
    ensures coins * (w + 86_400) / 86_400 * m == coins * w / 86_400 * m + coins * m
  {
    var x := coins * w;
    assert coins * (w + 86_400) == x + 86_400 * coins;
    DivBounds(x, 86_400);
    DivUnique(x + 86_400 * coins, 86_400, x / 86_400 + coins);
  }

  /** So each day adds a coin day for every coin. */
  lemma DayAdds(bits: nat, coins: nat, txTime: int, time: int)
    requires 30 * 86_400 <= time - txTime <= 119 * 86_400
    ensures Target(bits, coins * COIN, txTime, time + 86_400) ==
            Target(bits, coins * COIN, txTime, time) + coins * SetCompact(bits)
  {
    hide SetCompact, Target;
    CoinsAge(bits, coins, txTime, time);
    CoinsAge(bits, coins, txTime, time + 86_400);
    DayMore(coins, time - txTime - 30 * 86_400, SetCompact(bits));
  }

  /** From 120 days on a coin gets no heavier. */
  lemma OldStays(sha: Sha, kernel: seq<byte>, bits: nat, txTime: int, value: int, time: nat)
    requires time - txTime >= 120 * 86_400
    ensures Target(bits, value, txTime, time) == Target(bits, value, txTime, txTime + 120 * 86_400)
    ensures Passes(sha, kernel, bits, txTime, value, time) <==>
              KernelHash(sha, kernel, time) <= Target(bits, value, txTime, txTime + 120 * 86_400)
  {
    hide SetCompact;
    assert GetWeight(txTime, time) == GetWeight(txTime, txTime + 120 * 86_400);
  }

  /** A target never falls as a coin of any value gets older. */
  lemma TargetAges(bits: nat, value: int, txTime: int, a: int, b: int)
    requires value >= 0 && SetCompact(bits) >= 0 && a <= b
    ensures Target(bits, value, txTime, a) <= Target(bits, value, txTime, b)
  {
    hide SetCompact;
    var v, w := GetWeight(txTime, a), GetWeight(txTime, b);
    MulMono(v, w, value);
    QuotientMono(value * v, value * w, COIN);
    QuotientMono(Quotient(value * v, COIN), Quotient(value * w, COIN), ONE_DAY);
    MulMono(CoinDayWeight(value, txTime, a), CoinDayWeight(value, txTime, b), SetCompact(bits));
  }

  // The validator

  function Kernel(modifier: nat, blockTime: nat, offset: nat, txTime: nat, n: nat): seq<byte> {
    Le(modifier, 8) + Le(blockTime, 4) + Le(offset, 4) + Le(txTime, 4) + Le(n, 4)
  }

  lemma {:induction false} LeInjective(a: nat, b: nat, width: nat)
    requires a < Pow(256, width) && b < Pow(256, width) && Le(a, width) == Le(b, width)
    ensures a == b
  {
    if width > 0 {
      assert Le(a, width)[0] == Le(b, width)[0] && Le(a, width)[1..] == Le(b, width)[1..];
      assert Le(a, width)[1..] == Le(a / 256, width - 1) && Le(b, width)[1..] == Le(b / 256, width - 1);
      assert (a % 256) as byte == (b % 256) as byte;
      DivUpper(a, 256, Pow(256, width - 1));
      DivUpper(b, 256, Pow(256, width - 1));
      LeInjective(a / 256, b / 256, width - 1);
    }
  }

  lemma LastField(a: seq<byte>, b: seq<byte>, x: nat, y: nat)
    requires a + Le(x, 4) == b + Le(y, 4) && x < Pow(256, 4) && y < Pow(256, 4)
    ensures a == b && x == y
  {
    hide Le, Pow;
    var s, n := a + Le(x, 4), |a|;
    assert |s| == |a| + 4 == |b| + 4;
    assert s[..n] == a && s[..n] == b && s[n..] == Le(x, 4) && s[n..] == Le(y, 4);
    LeInjective(x, y, 4);
  }

  predicate Word(x: nat) { x < Pow(256, 4) }

  /** Different coins, modifiers and times are hashed from different streams. */
  lemma StreamInjective(m: nat, b: nat, o: nat, x: nat, n: nat, s: nat,
                        m': nat, b': nat, o': nat, x': nat, n': nat, s': nat)
    requires m < Pow(256, 8) && Word(b) && Word(o) && Word(x) && Word(n) && Word(s)
    requires m' < Pow(256, 8) && Word(b') && Word(o') && Word(x') && Word(n') && Word(s')
    requires Kernel(m, b, o, x, n) + Le(s, 4) == Kernel(m', b', o', x', n') + Le(s', 4)
    ensures m == m' && b == b' && o == o' && x == x' && n == n' && s == s'
  {
    hide Le, Pow;
    LastField(Kernel(m, b, o, x, n), Kernel(m', b', o', x', n'), s, s');
    var k, k' := Le(m, 8), Le(m', 8);
    LastField(k + Le(b, 4) + Le(o, 4) + Le(x, 4), k' + Le(b', 4) + Le(o', 4) + Le(x', 4), n, n');
    LastField(k + Le(b, 4) + Le(o, 4), k' + Le(b', 4) + Le(o', 4), x, x');
    LastField(k + Le(b, 4), k' + Le(b', 4), o, o');
    LastField(k, k', b, b');
    LeInjective(m, m', 8);
  }

  /** Neither before the coin nor before its block is old enough. */
  predicate OldEnough(blockTime: nat, txTime: nat, time: nat) {
    time >= txTime && (blockTime + STAKE_MIN_AGE) % TIME_RANGE <= time
  }

  /** `from` is the block the coin came from; its modifier is looked up on the main chain. */
  method CheckStakeKernelHash(sha: Sha, t: Tree, st: map<Hash, Stake>, next: map<Hash, Hash>, best: Hash, from: Hash,
                              bits: nat, blockTime: nat, offset: nat, txTime: nat, value: int, n: nat, time: nat)
    returns (ok: bool, ghost found: Option<nat>, ghost height: nat)
    requires Linked(t) && StakeModifier.Known(t, st) && best in t.nodes && LinksBelow(t, best, next)
    ensures OldEnough(blockTime, txTime, time) ==> KernelModifier(t, st, next, best, from, found, height)
    ensures ok <==> && OldEnough(blockTime, txTime, time) && found.Some?
                    && Passes(sha, Kernel(found.value, blockTime, offset, txTime, n), bits, txTime, value, time)
  {
    found, height := None, 0;
    if time < txTime { return false, found, height; }
    if (blockTime + STAKE_MIN_AGE) % TIME_RANGE > time { return false, found, height; }
    hide KernelModifier;
    var modifier;
    modifier, height := GetKernelStakeModifier(t, st, next, best, from);
    found := modifier;
    if modifier.None? { return false, found, height; }
    var stream := Le(modifier.value, 8);
    stream := stream + Le(blockTime, 4) + Le(offset, 4) + Le(txTime, 4) + Le(n, 4) + Le(time, 4);
    var proof := sha.number(sha.digest(sha.digest(stream)));
    assert stream == Kernel(modifier.value, blockTime, offset, txTime, n) + Le(time, 4);
    return proof <= CoinDayWeight(value, txTime, time) * SetCompact(bits), found, height;
  }

  // The filter

  lemma QuotientProduct(x: int, f: int, d: int)
    requires f >= 0 && d > 0
    ensures Quotient(x, d) * f <= Quotient(x * f, d) || x < 0
  {
    if x >= 0 {
      DivBounds(x, d);
      MulMono(0, x, f);
      var q := x / d;
      MulMono(d * q, x, f);
      assert d * q * f == d * (q * f);
      DivLower(x * f, d, q * f);
    }
  }

  lemma WeightBelow(value: int, txTime: int, time: int)
    requires value >= 0
    ensures CoinDayWeight(value, txTime, time) <= Quotient(Quotient(value * STAKE_MAX_AGE, COIN), ONE_DAY)
  {
    var w := GetWeight(txTime, time);
    MulMono(w, STAKE_MAX_AGE, value);
    QuotientMono(value * w, value * STAKE_MAX_AGE, COIN);
    QuotientMono(Quotient(value * w, COIN), Quotient(value * STAKE_MAX_AGE, COIN), ONE_DAY);
  }

  /** No target exceeds the maximal one, in spite of the different order of rounding. */
  lemma TargetBelowMax(bits: nat, value: int, txTime: int, time: int)
    requires value >= 0 && SetCompact(bits) >= 0
    ensures Target(bits, value, txTime, time) <= MaxTarget(bits, value)
  {
    var d, full := SetCompact(bits), value * STAKE_MAX_AGE;
    hide SetCompact;
    WeightBelow(value, txTime, time);
    var q := Quotient(full, COIN);
    MulMono(CoinDayWeight(value, txTime, time), Quotient(q, ONE_DAY), d);
    MulMono(0, value, STAKE_MAX_AGE);
    DivLower(full, COIN, 0);
    QuotientProduct(q, d, ONE_DAY);
    QuotientProduct(full, d, COIN);
    QuotientMono(q * d, Quotient(full * d, COIN), ONE_DAY);
    assert full * d == d * value * STAKE_MAX_AGE;
  }

  ghost predicate TargetFits(bits: nat, value: int) {
    value >= 0 && SetCompact(bits) >= 0 && MaxTarget(bits, value) < TWO_256
  }

  /** The filters drop no time that passes: neither the full comparison nor that of the leading 32 bits. */
  lemma FilterSafe(sha: Sha, kernel: seq<byte>, bits: nat, txTime: int, value: int, time: nat)
    requires TargetFits(bits, value) && Passes(sha, kernel, bits, txTime, value, time)
    ensures var h := KernelHash(sha, kernel, time);
            && h <= GetUint256(MaxTarget(bits, value))
            && h / TWO_224 <= GetUint256(MaxTarget(bits, value)) / TWO_224
  {
    hide SetCompact;
    TargetBelowMax(bits, value, txTime, time);
    var h, m := KernelHash(sha, kernel, time), MaxTarget(bits, value);
    assert GetUint256(m) == m;
    DivMono(h, m, TWO_224);
  }

  // Scanning backward

  /** The latest time in (last, first] that passes. A hash context is the bytes it has taken in. */
  method ScanKernelBackward(sha: Sha, kernel: seq<byte>, bits: nat, txTime: int, value: int, first: nat, last: nat)
    returns (solution: Option<(nat, nat)>)
    ensures solution.Some? ==>
              && last < solution.value.1 <= first && Passes(sha, kernel, bits, txTime, value, solution.value.1)
              && solution.value.0 == KernelHash(sha, kernel, solution.value.1)
    ensures solution.Some? && TargetFits(bits, value) ==>
              forall s :: solution.value.1 < s <= first ==> !Passes(sha, kernel, bits, txTime, value, s)
    ensures solution.None? && TargetFits(bits, value) ==>
              forall s :: last < s <= first ==> !Passes(sha, kernel, bits, txTime, value, s)
  {
    hide SetCompact, Target, MaxTarget;
    var maxTarget := GetUint256(MaxTarget(bits, value));
    var context := kernel;
    var saved := context;
    var time: nat := first;
    while time > last
      invariant time <= first && context == saved == kernel
      invariant TargetFits(bits, value) ==>
                  forall s :: time < s <= first ==> !Passes(sha, kernel, bits, txTime, value, s)
    {
      context := context + Le(time, 4);
      var inner := sha.digest(context);
      context := saved;
      var proof := sha.number(sha.digest(inner));
      if TargetFits(bits, value) && Passes(sha, kernel, bits, txTime, value, time) {
        FilterSafe(sha, kernel, bits, txTime, value, time);
      }
      if proof <= maxTarget && Target(bits, value, txTime, time) >= proof {
        return Some((proof, time));
      }
      time := time - 1;
    }
    solution := None;
  }

  // Scanning forward, in parallel

  datatype Search = Search(sha: Sha, kernel: seq<byte>, bits: nat, txTime: int, value: int) {
    predicate Found(time: nat) {
      && KernelHash(sha, kernel, time) / TWO_224 <= GetUint256(MaxTarget(bits, value)) / TWO_224
      && Passes(sha, kernel, bits, txTime, value, time)
    }
  }

  /** The times in [begin, end) that are found, in order, with their proofs. */
  function Scan(s: Search, begin: nat, end: nat): seq<(nat, nat)>
    decreases end - begin
  {
    if end <= begin then []
    else Scan(s, begin, end - 1) + (if s.Found(end - 1) then [(KernelHash(s.sha, s.kernel, end - 1), end - 1)] else [])
  }

  lemma {:induction false} ScanSplit(s: Search, a: nat, b: nat, c: nat)
    requires a <= b <= c
    ensures Scan(s, a, c) == Scan(s, a, b) + Scan(s, b, c)
    decreases c
  {
    if b < c { ScanSplit(s, a, b, c - 1); }
  }

  /** A scan finds what the validator would accept, and nothing else. */
  lemma {:induction false} ScanFinds(s: Search, begin: nat, end: nat, time: nat)
    requires TargetFits(s.bits, s.value)
    ensures (exists h :: (h, time) in Scan(s, begin, end)) <==>
              begin <= time < end && Passes(s.sha, s.kernel, s.bits, s.txTime, s.value, time)
    ensures forall h :: (h, time) in Scan(s, begin, end) ==> h == KernelHash(s.sha, s.kernel, time)
    decreases end
  {
    if begin < end {
      var t := end - 1;
      ScanFinds(s, begin, t, time);
      if Passes(s.sha, s.kernel, s.bits, s.txTime, s.value, t) {
        FilterSafe(s.sha, s.kernel, s.bits, s.txTime, s.value, t);
      }
      hide SetCompact, Target, MaxTarget, Passes, TargetFits;
      assert forall h :: (h, time) in Scan(s, begin, end) <==>
               (h, time) in Scan(s, begin, t) || (time == t && s.Found(t) && h == KernelHash(s.sha, s.kernel, t));
      if time == t && s.Found(t) { assert (KernelHash(s.sha, s.kernel, t), time) in Scan(s, begin, end); }
    }
  }

  class KernelWorker {
    const search: Search
    const begin: nat
    const end: nat
    var solutions: seq<(nat, nat)>

    constructor (s: Search, b: nat, e: nat)
      ensures search == s && begin == b && end == e && solutions == []
    {
      search, begin, end, solutions := s, b, e, [];
    }

    method Do()
      modifies this
      ensures solutions == old(solutions) + Scan(search, begin, end)
    {
      hide SetCompact, Target, MaxTarget, Le, GetUint256;
      var sha := search.sha;
      var maxTarget := GetUint256(MaxTarget(search.bits, search.value));
      var context := search.kernel;
      var saved := context;
      var time, maxTarget32 := begin, maxTarget / TWO_224;
      while time < end
        invariant begin <= time && (time <= end || time == begin) && context == saved == search.kernel
        invariant solutions == old(solutions) + Scan(search, begin, time)
      {
        context := context + Le(time, 4);
        var inner := sha.digest(context);
        context := saved;
        var proof := sha.number(sha.digest(inner));
        if proof / TWO_224 <= maxTarget32 {
          if Target(search.bits, search.value, search.txTime, time) >= proof {
            solutions := solutions + [(proof, time)];
          }
        }
        time := time + 1;
      }
    }
  }

  /** The part of worker `i`; its ends are computed in 64 bits and cut to 32. */
  function PartEnd(first: nat, part: nat, i: nat): nat { (first + part * i) % TIME_RANGE }

  function ScanParts(s: Search, first: nat, part: nat, n: nat): seq<(nat, nat)> {
    if n == 0 then []
    else ScanParts(s, first, part, n - 1) + Scan(s, PartEnd(first, part, n - 1), PartEnd(first, part, n))
  }

  /** How long a part is; the length of the interval is taken modulo 2^32. */
  function PartLength(first: nat, last: nat, n: nat): nat
    requires n > 0
  {
    var span := (last - first) % TIME_RANGE;
    span / n
  }

  /** Workers run in any order; their results are put together in the order of the parts. */
  method ScanKernelForward(s: Search, first: nat, last: nat, threads: nat)
    returns (found: bool, solutions: seq<(nat, nat)>)
    requires first < TIME_RANGE && last < TIME_RANGE
    ensures var n := if threads == 0 then 1 else threads;
            && solutions == ScanParts(s, first, PartLength(first, last, n), n)
            && (first <= last ==> solutions == Scan(s, first, Scanned(first, last, n)))
    ensures found <==> solutions != []
  {
    var n := if threads == 0 then 1 else threads;
    var part := PartLength(first, last, n);
    if first <= last { PartsJoin(s, first, last, n); }
    hide PartLength, PartEnd;
    var workers := Split(s, first, part, n);
    RunAll(workers, s);
    solutions := Gather(workers, s, first, part);
    found := |solutions| != 0;
  }

  method Split(s: Search, first: nat, part: nat, n: nat) returns (workers: seq<KernelWorker>)
    ensures |workers| == n && forall j :: 0 <= j < n ==> WorkerFor(workers[j], s, first, part, j)
    ensures forall j :: 0 <= j < n ==> fresh(workers[j]) && workers[j].solutions == []
    ensures forall j, k :: 0 <= j < k < n ==> workers[j] != workers[k]
  {
    workers := [];
    var i := 0;
    hide PartEnd;
    while i < n
      invariant 0 <= i == |workers| <= n
      invariant forall j :: 0 <= j < i ==> WorkerFor(workers[j], s, first, part, j)
      invariant forall j :: 0 <= j < i ==> fresh(workers[j]) && workers[j].solutions == []
      invariant forall j, k :: 0 <= j < k < i ==> workers[j] != workers[k]
    {
      var w := new KernelWorker(s, PartEnd(first, part, i), PartEnd(first, part, i + 1));
      workers := workers + [w];
      i := i + 1;
    }
  }

  method Gather(workers: seq<KernelWorker>, s: Search, first: nat, part: nat) returns (solutions: seq<(nat, nat)>)
    requires forall j :: 0 <= j < |workers| ==> WorkerFor(workers[j], s, first, part, j)
    requires forall j :: 0 <= j < |workers| ==> workers[j].solutions == Scan(s, workers[j].begin, workers[j].end)
    ensures solutions == ScanParts(s, first, part, |workers|)
  {
    solutions := [];
    var i := 0;
    hide PartEnd;
    while i < |workers|
      invariant 0 <= i <= |workers| && solutions == ScanParts(s, first, part, i)
    {
      assert WorkerFor(workers[i], s, first, part, i);
      solutions := solutions + workers[i].solutions;
      i := i + 1;
    }
  }

  ghost predicate WorkerFor(w: KernelWorker, s: Search, first: nat, part: nat, j: nat) {
    w.search == s && w.begin == PartEnd(first, part, j) && w.end == PartEnd(first, part, j + 1)
  }

  method RunAll(workers: seq<KernelWorker>, s: Search)
    requires forall j :: 0 <= j < |workers| ==> workers[j].search == s
    requires forall j :: 0 <= j < |workers| ==> workers[j].solutions == []
    modifies workers
    ensures forall j :: 0 <= j < |workers| ==> workers[j].solutions == Scan(s, workers[j].begin, workers[j].end)
  {
    var left := set w | w in workers;
    while left != {}
      invariant forall w :: w in left ==> w in workers && w.solutions == []
      invariant forall w :: w in workers && w !in left ==> w.solutions == Scan(s, w.begin, w.end)
      decreases |left|
    {
      ghost var some := Any(left);
      assert some in left;
      var w :| w in left;
      w.Do();
      left := left - {w};
    }
  }

  // What the parts cover

  /** The parts of an interval that is not reversed reach from `first` to here. */
  function Scanned(first: nat, last: nat, n: nat): (end: nat)
    requires first <= last && n > 0
    ensures first <= end <= last && last - end == (last - first) % n
  {
    DivBounds(last - first, n);
    DivLower(last - first, n, 0);
    MulMono(0, (last - first) / n, n);
    first + n * ((last - first) / n)
  }

  lemma PartsJoin(s: Search, first: nat, last: nat, n: nat)
    requires first <= last < TIME_RANGE && n > 0
    ensures ScanParts(s, first, PartLength(first, last, n), n) == Scan(s, first, Scanned(first, last, n))
  {
    var part := (last - first) / n;
    assert PartLength(first, last, n) == part;
    assert Scanned(first, last, n) == first + part * n;
    PartsJoinUpTo(s, first, part, n, n);
    PartInside(first, part, n, n);
  }

  lemma {:induction false} PartsJoinUpTo(s: Search, first: nat, part: nat, n: nat, i: nat)
    requires i <= n && first + part * n < TIME_RANGE
    ensures ScanParts(s, first, part, i) == Scan(s, first, PartEnd(first, part, i))
  {
    PartInside(first, part, i, n);
    hide PartEnd;
    if i == 0 {
      assert part * 0 == 0;
    } else {
      PartInside(first, part, i - 1, n);
      PartStep(part, i);
      PartsJoinUpTo(s, first, part, n, i - 1);
      ScanSplit(s, first, PartEnd(first, part, i - 1), PartEnd(first, part, i));
    }
  }

  lemma PartInside(first: nat, part: nat, i: nat, n: nat)
    requires i <= n && first + part * n < TIME_RANGE
    ensures first <= PartEnd(first, part, i) == first + part * i
  {
    MulMono(0, i, part);
    MulMono(i, n, part);
  }

  lemma PartStep(part: nat, i: nat)
    requires i > 0
    ensures part * i == part * (i - 1) + part
  {
  }

  /** For every coin exactly the times in the remainder of the division that pass are missed. */
  lemma MissedIff(s: Search, first: nat, last: nat, n: nat, time: nat)
    requires first <= last && n > 0 && TargetFits(s.bits, s.value)
    ensures && (exists h :: (h, time) in Scan(s, first, last))
            && !(exists h :: (h, time) in Scan(s, first, Scanned(first, last, n)))
            <==> Scanned(first, last, n) <= time < last && Passes(s.sha, s.kernel, s.bits, s.txTime, s.value, time)
  {
    ScanFinds(s, first, last, time);
    ScanFinds(s, first, Scanned(first, last, n), time);
  }

  /** The remainder of the division is not scanned: every search is complete exactly if there is none. */
  lemma ForwardComplete(first: nat, last: nat, n: nat)
    requires first <= last && n > 0
    ensures (forall s: Search :: Scan(s, first, Scanned(first, last, n)) == Scan(s, first, last))
            <==> (last - first) % n == 0
  {
    if (last - first) % n != 0 {
      var s := MissedTime(first, last, n);
    }
  }

  /** A coin whose every time passes loses the last one. */
  lemma MissedTime(first: nat, last: nat, n: nat) returns (s: Search)
    requires first <= last && n > 0 && (last - first) % n != 0
    ensures s == Search(Sha(_ => [], _ => 0), [], 0, 0, 0)
    ensures Passes(s.sha, s.kernel, s.bits, s.txTime, s.value, last - 1)
    ensures (0, last - 1) in Scan(s, first, last) && (0, last - 1) !in Scan(s, first, Scanned(first, last, n))
  {
    s := Search(Sha(_ => [], _ => 0), [], 0, 0, 0);
    assert SetCompact(0) == 0;
    hide SetCompact;
    assert KernelHash(s.sha, s.kernel, last - 1) == 0;
    assert Passes(s.sha, s.kernel, s.bits, s.txTime, s.value, last - 1);
    assert TargetFits(s.bits, s.value);
    MissedIff(s, first, last, n, last - 1);
    ScanFinds(s, first, last, last - 1);
  }
}
