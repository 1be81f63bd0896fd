/** The median time past (CBlockIndex in src/main.h) and the timestamp rule of AcceptBlock (src/main.cpp). */
module MedianTime {
  import opened Common
  import opened BlockTree
  import opened Sorting

  const MEDIAN_TIME_SPAN: nat := 11

  function Leq(a: int, b: int): bool { a <= b }

  function Sorted(s: seq<int>): (r: seq<int>)
    ensures |r| == |s|
  {
    Sort(s, Leq)
  }

  // How many elements lie below a bound

  function Below(s: seq<int>, m: int): nat {
    if s == [] then 0 else Below(s[..|s| - 1], m) + (if s[|s| - 1] < m then 1 else 0)
  }

  lemma {:induction false} BelowConcat(a: seq<int>, b: seq<int>, m: int)
    ensures Below(a + b, m) == Below(a, m) + Below(b, m)
  {
    if b == [] {
      assert a + b == a;
    } else {
      BelowConcat(a, b[..|b| - 1], m);
      assert (a + b)[..|a + b| - 1] == a + b[..|b| - 1];
    }
  }

  lemma {:induction false} BelowInsert(s: seq<int>, x: int, m: int)
    ensures Below(Insert(s, x, Leq), m) == Below(s, m) + (if x < m then 1 else 0)
  {
    assert Below([x], m) == if x < m then 1 else 0;
    if s == [] || x <= s[0] {
      BelowConcat([x], s, m);
    } else {
      BelowInsert(s[1..], x, m);
      BelowConcat([s[0]], s[1..], m);
      BelowConcat([s[0]], Insert(s[1..], x, Leq), m);
      assert s == [s[0]] + s[1..];
    }
  }

  lemma {:induction false} BelowSort(s: seq<int>, m: int)
    ensures Below(Sorted(s), m) == Below(s, m)
  {
    if s != [] {
      BelowSort(s[1..], m);
      BelowInsert(Sorted(s[1..]), s[0], m);
      BelowConcat([s[0]], s[1..], m);
      assert s == [s[0]] + s[1..];
    }
  }

  /** In a sorted sequence the elements below a bound come first. */
  lemma {:induction false} BelowSorted(s: seq<int>, m: int, k: nat)
    requires Ordered(s, Leq) && k < |s|
    ensures s[k] < m <==> Below(s, m) > k
  {
    var last := |s| - 1;
    if k < last {
      BelowSorted(s[..last], m, k);
      BelowLength(s[..last], m);
    } else {
      BelowLength(s[..last], m);
      if s[last] < m { AllBelow(s[..last], m); }
    }
  }

  lemma {:induction false} BelowLength(s: seq<int>, m: int)
    ensures Below(s, m) <= |s|
  {
    if s != [] { BelowLength(s[..|s| - 1], m); }
  }

  lemma {:induction false} AllBelow(s: seq<int>, m: int)
    requires forall i :: 0 <= i < |s| ==> s[i] < m
    ensures Below(s, m) == |s|
  {
    if s != [] { AllBelow(s[..|s| - 1], m); }
  }

  // The median

  function Median(w: seq<int>): int
    requires w != []
  {
    Sorted(w)[|w| / 2]
  }

  /** The median is at least m exactly if no more than half of the elements, rounded down, lie below m. */
  lemma MedianAtLeast(w: seq<int>, m: int)
    requires w != []
    ensures Median(w) >= m <==> Below(w, m) <= |w| / 2
  {
    SortOk(w, Leq);
    BelowSort(w, m);
    BelowSorted(Sorted(w), m, |w| / 2);
  }

  /** A time above the median never lowers it, whether the window still fills or slides. */
  lemma MedianGrows(w: seq<int>, x: int, slides: bool)
    requires w != [] && x > Median(w)
    ensures Median((if slides then w[1..] else w) + [x]) >= Median(w)
  {
    var m := Median(w);
    var rest := if slides then w[1..] else w;
    MedianAtLeast(w, m);
    BelowConcat([w[0]], w[1..], m);
    assert w == [w[0]] + w[1..];
    BelowConcat(rest, [x], m);
    assert Below([x], m) == 0;
    MedianAtLeast(rest + [x], m);
  }

  // On the block tree

  /** The times of the last `n` blocks of the branch, fewer at its start, oldest first. */
  function Window(t: Tree, h: Hash, n: nat): (w: seq<int>)
    requires Linked(t) && h in t.nodes && n > 0
    ensures w != [] && |w| == Min(n, Height(t, h) + 1)
    decreases Height(t, h)
  {
    if n == 1 || h == t.genesis then assert n == 1 || Height(t, h) == 0; [Time(t, h)]
    else var p := Parent(t, h); Window(t, p, n - 1) + [Time(t, h)]
  }

  /** Counted from its end, the window holds the times of the block, its parent, and so on. */
  lemma {:induction false} WindowAt(t: Tree, h: Hash, n: nat, i: nat)
    requires Linked(t) && h in t.nodes && 0 < n && i < Min(n, Height(t, h) + 1)
    ensures var w := Window(t, h, n); w[|w| - 1 - i] == Time(t, Ancestor(t, h, Height(t, h) - i))
    decreases Height(t, h)
  {
    if i > 0 {
      OnlyGenesisAtZero(t, h);
      WindowAt(t, Parent(t, h), n - 1, i - 1);
    }
  }

  function MedianTimePast(t: Tree, h: Hash): int
    requires Linked(t) && h in t.nodes
  {
    Median(Window(t, h, MEDIAN_TIME_SPAN))
  }

  method GetMedianTimePast(t: Tree, h: Hash) returns (median: int)
    requires Linked(t) && h in t.nodes
    ensures median == MedianTimePast(t, h)
  {
    var buffer := new int[MEDIAN_TIME_SPAN];
    var begin := MEDIAN_TIME_SPAN;
    var index := Some(h);
    ghost var whole := Window(t, h, MEDIAN_TIME_SPAN);
    assert Rest(t, index, begin) + buffer[begin..] == whole;
    hide Window, Rest, Sort;
    var i := 0;
    while i < MEDIAN_TIME_SPAN && index.Some?
      invariant 0 <= i <= MEDIAN_TIME_SPAN && begin == MEDIAN_TIME_SPAN - i && buffer.Length == MEDIAN_TIME_SPAN
      invariant index.Some? ==> index.value in t.nodes
      invariant Rest(t, index, begin) + buffer[begin..] == whole
    {
      RestStep(t, index.value, begin);
      begin := begin - 1;
      ghost var after := buffer[begin + 1..];
      buffer[begin] := t.nodes[index.value].block.time;
      assert buffer[begin..] == [Time(t, index.value)] + after;
      index := t.nodes[index.value].prev;
      i := i + 1;
    }
    RestEnds(t, index, begin);
    assert buffer[begin..] == whole;
    var sorted := Sorted(buffer[begin..]);
    median := sorted[(MEDIAN_TIME_SPAN - begin) / 2];
  }

  /** What of the window the walk has not seen yet. */
  ghost function Rest(t: Tree, index: Option<Hash>, n: nat): seq<int>
    requires Linked(t) && (index.Some? ==> index.value in t.nodes)
  {
    if index.Some? && n > 0 then Window(t, index.value, n) else []
  }

  lemma RestEnds(t: Tree, index: Option<Hash>, n: nat)
    requires Linked(t) && (index.Some? ==> index.value in t.nodes) && (index.None? || n == 0)
    ensures Rest(t, index, n) == []
  {
  }

  lemma RestStep(t: Tree, h: Hash, n: nat)
    requires Linked(t) && h in t.nodes && n > 0
    ensures var p := t.nodes[h].prev;
            (p.Some? ==> p.value in t.nodes) && Rest(t, Some(h), n) == Rest(t, p, n - 1) + [Time(t, h)]
  {
    assert LinkedAt(t, h);
  }

  /** The window of a block is that of its parent, slid on by one. */
  lemma WindowSlides(t: Tree, h: Hash, n: nat)
    requires Linked(t) && h in t.nodes && h != t.genesis && n > 1
    ensures var w := Window(t, Parent(t, h), n);
            Window(t, h, n) == (if |w| == n then w[1..] else w) + [Time(t, h)]
  {
    var p := Parent(t, h);
    WindowShrinks(t, p, n);
  }

  lemma {:induction false} WindowShrinks(t: Tree, h: Hash, n: nat)
    requires Linked(t) && h in t.nodes && n > 1
    ensures var w := Window(t, h, n); Window(t, h, n - 1) == if |w| == n then w[1..] else w
    decreases Height(t, h)
  {
    if h != t.genesis && n > 2 {
      WindowShrinks(t, Parent(t, h), n - 1);
    }
  }

  // The timestamp rule

  const OFFSET_SWITCH_TIME: int := 1450569600

  /** How far past the median a block may be dated: seven weeks until the switch time, then twelve hours. */
  function MaxOffset(t: Tree, prev: Hash): int
    requires prev in t.nodes
  {
    if Time(t, prev) < OFFSET_SWITCH_TIME then 7 * 7 * ONE_DAY else 12 * ONE_HOUR
  }

  /** The tests of a new block's time against its parent, off the test network. */
  predicate TimestampOk(t: Tree, prev: Hash, time: int)
    requires Linked(t) && prev in t.nodes
  {
    var median := MedianTimePast(t, prev);
    && time > median
    && time + 2 * ONE_HOUR >= Time(t, prev)
    && (Height(t, prev) > 1 ==> time <= median + MaxOffset(t, prev))
  }

  ghost predicate TimesAccepted(t: Tree)
    requires Linked(t)
  {
    forall h {:trigger LinkedAt(t, h)} :: h in t.nodes && h != t.genesis ==> TimestampOk(t, Parent(t, h), Time(t, h))
  }

  lemma MedianStep(t: Tree, h: Hash)
    requires Linked(t) && h in t.nodes && h != t.genesis && TimestampOk(t, Parent(t, h), Time(t, h))
    ensures MedianTimePast(t, Parent(t, h)) <= MedianTimePast(t, h)
  {
    var w := Window(t, Parent(t, h), MEDIAN_TIME_SPAN);
    WindowSlides(t, h, MEDIAN_TIME_SPAN);
    MedianGrows(w, Time(t, h), |w| == MEDIAN_TIME_SPAN);
  }

  /** Along every accepted branch the median time past never decreases. */
  lemma {:induction false} MedianNeverDecreases(t: Tree, a: Hash, h: Hash)
    requires Linked(t) && TimesAccepted(t) && a in t.nodes && h in t.nodes && IsAncestor(t, a, h)
    ensures MedianTimePast(t, a) <= MedianTimePast(t, h)
    ensures a != h ==> MedianTimePast(t, a) < Time(t, h)
    decreases Height(t, h)
  {
    if a != h {
      var p := Parent(t, h);
      assert LinkedAt(t, h);
      MedianNeverDecreases(t, a, p);
      MedianStep(t, h);
    }
  }
}
