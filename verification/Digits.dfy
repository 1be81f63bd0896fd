/** Positional notation, most significant digit first. */
module Digits {
  import opened Arith

  predicate InBase(base: nat, d: seq<nat>) { forall i :: 0 <= i < |d| ==> d[i] < base }

  function Value(base: nat, d: seq<nat>): nat {
    if d == [] then 0 else Value(base, d[..|d| - 1]) * base + d[|d| - 1]
  }

  function Zeros(d: seq<nat>): (n: nat)
    ensures n <= |d| && (forall i :: 0 <= i < n ==> d[i] == 0) && (n < |d| ==> d[n] != 0)
  {
    if d != [] && d[0] == 0 then 1 + Zeros(d[1..]) else 0
  }

  function Strip(d: seq<nat>): seq<nat> { d[Zeros(d)..] }

  function ToBase(base: nat, v: nat): seq<nat>
    requires base >= 2
  {
    if v == 0 then [] else ToBase(base, v / base) + [v % base]
  }

  lemma {:induction false} ValueSplit(base: nat, hi: seq<nat>, lo: seq<nat>)
    ensures Value(base, hi + lo) == Value(base, hi) * Pow(base, |lo|) + Value(base, lo)
  {
    if lo == [] {
      assert hi + lo == hi;
    } else {
      var last := |lo| - 1;
      ValueSplit(base, hi, lo[..last]);
      assert (hi + lo)[..|hi + lo| - 1] == hi + lo[..last];
      assert Pow(base, |lo|) == base * Pow(base, last);
      assert Value(base, lo) == Value(base, lo[..last]) * base + lo[last];
      assert Value(base, hi + lo) == Value(base, hi + lo[..last]) * base + lo[last];
      hide Value, Pow;
      SplitArith(Value(base, hi), Pow(base, last), Value(base, lo[..last]), base, Value(base, hi + lo[..last]),
          Pow(base, |lo|));
    }
  }

  lemma SplitArith(a: int, p: int, b: int, base: int, v: int, pp: int)
    requires v == a * p + b && pp == base * p
    ensures v * base == a * pp + b * base
  {
    assert v * base == (a * p) * base + b * base;
    assert (a * p) * base == a * (base * p);
  }

  lemma {:induction false} ValueBound(base: nat, d: seq<nat>)
    requires InBase(base, d)
    ensures Value(base, d) < Pow(base, |d|)
  {
    if d != [] {
      var v, p := Value(base, d[..|d| - 1]), Pow(base, |d| - 1);
      ValueBound(base, d[..|d| - 1]);
      MulMono(v + 1, p, base);
      assert (v + 1) * base == v * base + base;
    }
  }

  lemma {:induction false} ValueZeros(base: nat, d: seq<nat>)
    requires forall i :: 0 <= i < |d| ==> d[i] == 0
    ensures Value(base, d) == 0
  {
    if d != [] { ValueZeros(base, d[..|d| - 1]); }
  }

  lemma StripValue(base: nat, d: seq<nat>)
    ensures Value(base, Strip(d)) == Value(base, d)
  {
    LeadingZeros(base, d, Zeros(d));
  }

  lemma {:induction false} ValuePositive(base: nat, d: seq<nat>)
    requires base > 0 && d != [] && d[0] != 0
    ensures Value(base, d) > 0
  {
    if |d| > 1 {
      ValuePositive(base, d[..|d| - 1]);
      MulPositive(Value(base, d[..|d| - 1]), base);
    }
  }

  /** Digits without leading zeros are the digits of their value. */
  lemma {:induction false} Canonical(base: nat, d: seq<nat>)
    requires base >= 2 && InBase(base, d) && (d == [] || d[0] != 0)
    ensures ToBase(base, Value(base, d)) == d
  {
    if d != [] {
      var init, last := d[..|d| - 1], d[|d| - 1];
      Canonical(base, init);
      ValuePositive(base, d);
      assert Value(base, d) == Value(base, init) * base + last;
      assert d == init + [last];
      hide Value;
      DivMod(Value(base, d), base, Value(base, init), last);
    }
  }

  lemma DivMod(v: int, base: int, q: int, r: int)
    requires v == q * base + r && 0 <= r < base
    ensures v / base == q && v % base == r
  {
    DivUnique(v, base, q);
    DivBounds(v, base);
  }

  lemma DivSmaller(v: nat, base: nat)
    requires v > 0 && base >= 2
    ensures 0 <= v / base < v && 0 <= v % base < base
  {
    DivUpper(v, base, v);
  }

  lemma {:induction false} ToBaseOk(base: nat, v: nat)
    requires base >= 2
    ensures InBase(base, ToBase(base, v)) && Value(base, ToBase(base, v)) == v
    ensures v > 0 ==> ToBase(base, v) != [] && ToBase(base, v)[0] != 0
  {
    if v > 0 {
      DivSmaller(v, base);
      var q, r := v / base, v % base;
      assert v == q * base + r by { DivBounds(v, base); }
      ToBaseOk(base, q);
      var d, init := ToBase(base, v), ToBase(base, q);
      assert d == init + [r] && d[..|d| - 1] == init;
      assert Value(base, d) == Value(base, init) * base + r;
      hide Value, ToBase;
      assert forall i :: 0 <= i < |d| ==> d[i] == if i < |init| then init[i] else r;
      if q == 0 { assert r == v; }
    }
  }

  lemma StripCanonical(base: nat, d: seq<nat>)
    requires base >= 2 && InBase(base, d)
    ensures ToBase(base, Value(base, d)) == Strip(d)
  {
    StripValue(base, d);
    Canonical(base, Strip(d));
  }

  // From one base to another

  function Nulls(n: nat): seq<nat> { seq(n, _ => 0) }

  /** The same number in another base, with as many leading zeros. */
  function Convert(from: nat, to: nat, d: seq<nat>): seq<nat>
    requires to >= 2
  {
    Nulls(Zeros(d)) + ToBase(to, Value(from, d))
  }

  lemma ZerosUnique(d: seq<nat>, n: nat)
    requires n <= |d| && (forall i :: 0 <= i < n ==> d[i] == 0) && (n < |d| ==> d[n] != 0)
    ensures Zeros(d) == n
  {
  }

  lemma ConvertInBase(from: nat, to: nat, d: seq<nat>)
    requires to >= 2
    ensures InBase(to, Convert(from, to, d))
  {
    ToBaseOk(to, Value(from, d));
  }

  /** Converting back gives the same digits, leading zeros included. */
  lemma ConvertInverse(from: nat, to: nat, d: seq<nat>)
    requires from >= 2 && to >= 2 && InBase(from, d)
    ensures Convert(to, from, Convert(from, to, d)) == d
  {
    var v, z := Value(from, d), Zeros(d);
    ToBaseOk(to, v);
    var c := Convert(from, to, d);
    assert c[z..] == ToBase(to, v);
    ZerosUnique(c, z);
    LeadingZeros(to, c, z);
    StripCanonical(from, d);
    assert d == Nulls(z) + d[z..];
  }

  lemma ValueCons(base: nat, x: nat, d: seq<nat>)
    ensures Value(base, [x] + d) == x * Pow(base, |d|) + Value(base, d)
  {
    ValueSplit(base, [x], d);
    assert Value(base, [x]) == x;
  }

  // Multiplication with carry

  /** What the places done so far and the carry stand for. */
  function Carried(base: nat, done: seq<nat>, carry: nat): nat { Value(base, done) + carry * Pow(base, |done|) }

  function Scaled(base: nat, d: seq<nat>, factor: nat, digit: nat): nat { Value(base, d) * factor + digit }

  function Low(base: nat, c: nat): (r: nat)
    requires base >= 2
    ensures r < base
  {
    c % base
  }

  function High(base: nat, c: nat): nat
    requires base >= 2
  {
    DivSmaller(c + 1, base);
    c / base
  }

  function Gathered(carry: nat, factor: nat, x: nat): nat { carry + factor * x }

  lemma CarryStep(base: nat, factor: nat, digit: nat, carry: nat, x: nat, done: seq<nat>, start: seq<nat>)
    requires base >= 2 && |done| == |start| && Carried(base, done, carry) == Scaled(base, start, factor, digit)
    ensures var c := Gathered(carry, factor, x);
            Carried(base, [Low(base, c)] + done, High(base, c)) == Scaled(base, [x] + start, factor, digit)
  {
    var c := Gathered(carry, factor, x);
    var r, q, p := Low(base, c), High(base, c), Pow(base, |done|);
    ValueCons(base, r, done);
    ValueCons(base, x, start);
    assert Pow(base, |[r] + done|) == base * p;
    hide Value, Pow;
    CarryArith(base, p, q, r, carry, factor, x, Value(base, done), Value(base, start), digit,
               Pow(base, |[r] + done|), Value(base, [r] + done), Value(base, [x] + start));
  }

  lemma CarryArith(base: int, p: int, q: int, r: int, carry: int, factor: int, x: int, v: int, w: int, digit: int,
                   pp: int, vv: int, ww: int)
    requires base * q + r == carry + factor * x && v + carry * p == w * factor + digit
    requires pp == base * p && vv == r * p + v && ww == x * p + w
    ensures vv + q * pp == ww * factor + digit
  {
    calc {
      vv + q * pp;
    ==
      v + (base * q + r) * p;
    ==
      v + carry * p + (factor * x) * p;
    ==
      ww * factor + digit;
    }
  }

  /**
   * One digit more, in the buffer of another base: what the inner loops of the Base58 coder do. The
   * last `length` places are in use; the result says how many are then.
   */
  method MultiplyAdd(buffer: array<nat>, base: nat, factor: nat, digit: nat, length: nat) returns (i: nat, carry: nat)
    requires base >= 2 && InBase(base, buffer[..]) && length <= buffer.Length
    requires forall j :: 0 <= j < buffer.Length - length ==> buffer[j] == 0
    requires Scaled(base, buffer[..], factor, digit) < Pow(base, buffer.Length)
    modifies buffer
    ensures carry == 0 && i <= buffer.Length && InBase(base, buffer[..])
    ensures Value(base, buffer[..]) == Scaled(base, old(buffer[..]), factor, digit)
    ensures forall j :: 0 <= j < buffer.Length - i ==> buffer[j] == 0
  {
    carry, i := digit, 0;
    var n := buffer.Length;
    ghost var start := buffer[..];
    assert Carried(base, [], digit) == Scaled(base, [], factor, digit);
    hide Carried, Scaled, Value, Pow, Low, High, Gathered;
    while (carry != 0 || i < length) && i < n
      invariant 0 <= i <= n == |start| && InBase(base, buffer[..])
      invariant forall j :: 0 <= j < n - i ==> buffer[j] == start[j]
      invariant Carried(base, buffer[n - i..], carry) == Scaled(base, start[n - i..], factor, digit)
    {
      var p := n - 1 - i;
      ghost var done := buffer[n - i..];
      CarryStep(base, factor, digit, carry, buffer[p], done, start[n - i..]);
      assert start[p..] == [start[p]] + start[n - i..];
      carry := Gathered(carry, factor, buffer[p]);
      buffer[p] := Low(base, carry);
      carry := High(base, carry);
      assert buffer[p..] == [buffer[p]] + done;
      i := i + 1;
    }
    CarryDone(base, factor, digit, carry, i, buffer[..], start);
  }

  lemma CarryDone(base: nat, factor: nat, digit: nat, carry: nat, i: nat, now: seq<nat>, start: seq<nat>)
    requires base >= 2 && i <= |now| == |start| && (carry == 0 || i == |now|)
    requires forall j :: 0 <= j < |now| - i ==> now[j] == start[j] == 0
    requires Carried(base, now[|now| - i..], carry) == Scaled(base, start[|now| - i..], factor, digit)
    requires Scaled(base, start, factor, digit) < Pow(base, |start|)
    ensures carry == 0 && Value(base, now) == Scaled(base, start, factor, digit)
  {
    hide Value, Pow;
    LeadingZeros(base, now, |now| - i);
    LeadingZeros(base, start, |now| - i);
    assert |now[|now| - i..]| == i;
    hide Scaled;
    assert Scaled(base, start[|now| - i..], factor, digit) == Scaled(base, start, factor, digit) by {
      ScaledValue(base, start[|now| - i..], start, factor, digit);
    }
    CarryZero(Value(base, now), carry, Pow(base, i), Scaled(base, start, factor, digit), i == |now|);
  }

  lemma ScaledValue(base: nat, a: seq<nat>, b: seq<nat>, factor: nat, digit: nat)
    requires Value(base, a) == Value(base, b)
    ensures Scaled(base, a, factor, digit) == Scaled(base, b, factor, digit)
  {
  }

  lemma CarryZero(v: nat, carry: nat, p: nat, s: int, full: bool)
    requires v + carry * p == s && (carry == 0 || full) && (full ==> s < p)
    ensures carry == 0 && v == s
  {
    if carry > 0 {
      MulMono(1, carry, p);
    }
  }

  lemma LeadingZeros(base: nat, d: seq<nat>, k: nat)
    requires k <= |d| && forall j :: 0 <= j < k ==> d[j] == 0
    ensures Value(base, d[k..]) == Value(base, d)
  {
    ValueZeros(base, d[..k]);
    ValueSplit(base, d[..k], d[k..]);
    assert d[..k] + d[k..] == d;
  }
}
