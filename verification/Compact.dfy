/** The 32-bit "compact" form of a target: SetCompact and GetCompact of src/bignum.cpp. */
module Compact {
  import opened Arith

  /**
   * Length in bytes of the MPI form that OpenSSL writes for a positive number: the leading bit
   * of the first byte is the sign, so a number whose own leading bit is set takes one byte more.
   */
  function PositiveSize(x: nat): (s: nat)
    ensures s >= 1
  {
    if x < 128 then 1 else 1 + PositiveSize(x / 256)
  }

  function Size(x: nat): (s: nat) { if x == 0 then 0 else PositiveSize(x) }

  /** The first three bytes of the MPI form, left aligned when there are fewer. */
  function Mantissa(x: nat): int {
    var s := Size(x);
    if s <= 3 then x * Unit(3 - s) else x / Unit(s - 3)
  }

  /** The weight of a byte that has `n` bytes to its right. */
  function Unit(n: nat): (u: nat)
    ensures u > 0
  {
    PowPositive(256, n);
    Pow(256, n)
  }

  /** CBigNum::GetCompact; the sign of a negative number sits in bit 23. */
  function GetCompact(x: int): int {
    var a := if x < 0 then -x else x;
    (Size(a) % 256) * 0x100_0000 + Mantissa(a) + (if x < 0 then 0x80_0000 else 0)
  }

  /** CBigNum::SetCompact. */
  function SetCompact(c: int): int {
    var s := c / 0x100_0000;
    var m := c % 0x80_0000;
    var a := if 0 <= s <= 3 then m / Unit(3 - s) else if s > 3 then m * Unit(s - 3) else 0;
    if (c / 0x80_0000) % 2 == 1 then -a else a
  }

  lemma {:induction false} SizeBounds(x: nat)
    ensures x < 128 * Pow(256, PositiveSize(x) - 1)
    ensures PositiveSize(x) >= 2 ==> x >= 128 * Pow(256, PositiveSize(x) - 2)
  {
    if x >= 128 {
      SizeBounds(x / 256);
      var s := PositiveSize(x / 256);
      assert Pow(256, s) == 256 * Pow(256, s - 1);
      if s >= 2 { assert Pow(256, s - 1) == 256 * Pow(256, s - 2); }
    }
  }

  lemma {:induction false} SizeMono(x: nat, y: nat)
    requires x <= y
    ensures PositiveSize(x) <= PositiveSize(y)
  {
    if x >= 128 { DivMono(x, y, 256); SizeMono(x / 256, y / 256); }
  }

  lemma SizeUnique(x: nat, s: nat)
    requires s >= 1 && x < 128 * Pow(256, s - 1)
    requires s >= 2 ==> x >= 128 * Pow(256, s - 2)
    ensures PositiveSize(x) == s
  {
    SizeBounds(x);
    var t := PositiveSize(x);
    if t < s { PowMono(256, t - 1, s - 2); }
    if t > s { PowMono(256, s - 1, t - 2); }
  }

  /** The mantissa of a positive number never reaches the sign bit and is never below 0x8000. */
  lemma MantissaRange(x: nat)
    requires x > 0
    ensures 0x8000 <= Mantissa(x) < 0x80_0000
  {
    SizeBounds(x);
    var s := Size(x);
    if s == 1 {
      assert Pow(256, 0) == 1;
      assert Pow(256, 2) == 65536;
    } else if s == 2 {
      assert Pow(256, 0) == 1;
      assert Pow(256, 1) == 256;
    } else {
      var p := Pow(256, s - 3);
      PowPositive(256, s - 3);
      assert Pow(256, s - 2) == 256 * p;
      assert Pow(256, s - 1) == 256 * Pow(256, s - 2);
      if s == 3 {
        assert p == 1 && Pow(256, 0) == 1;
        assert Mantissa(x) == x;
      } else {
        DivLower(x, p, 0x8000);
        DivUpper(x, p, 0x80_0000);
      }
    }
  }

  /** Bytes below the three leading ones are dropped, nothing else changes. */
  function Truncated(x: nat): (r: nat)
    ensures r <= x
  {
    var s := Size(x);
    if s <= 3 then x
    else
      DivBounds(x, Unit(s - 3));
      MulNonNegative(x / Unit(s - 3), Unit(s - 3));
      (x / Unit(s - 3)) * Unit(s - 3)
  }

  lemma MulNonNegative(a: int, b: int)
    requires a >= 0 && b >= 0
    ensures a * b >= 0
  {
  }

  lemma Fields(s: nat, m: nat)
    requires m < 0x80_0000
    ensures (s * 0x100_0000 + m) / 0x100_0000 == s
    ensures (s * 0x100_0000 + m) % 0x80_0000 == m
    ensures ((s * 0x100_0000 + m) / 0x80_0000) % 2 == 0
  {
  }

  lemma CompactFields(x: nat)
    requires Size(x) < 256
    ensures GetCompact(x) / 0x100_0000 == Size(x)
    ensures GetCompact(x) % 0x80_0000 == Mantissa(x)
    ensures (GetCompact(x) / 0x80_0000) % 2 == 0
  {
    if x > 0 { MantissaRange(x); }
    Fields(Size(x), Mantissa(x));
  }

  lemma CompactIsNat(x: int)
    ensures GetCompact(x) >= 0
  {
    var a := if x < 0 then -x else x;
    if a > 0 { MantissaRange(a); } else { assert Mantissa(0) == 0; }
    hide Mantissa, Size;
  }

  /** Encoding then decoding keeps the three leading bytes. */
  lemma RoundTrip(x: nat)
    requires Size(x) < 256
    ensures SetCompact(GetCompact(x)) == Truncated(x)
  {
    CompactFields(x);
    var s := Size(x);
    if s <= 3 {
      PowPositive(256, 3 - s);
      DivUnique(x * Pow(256, 3 - s), Pow(256, 3 - s), x);
    }
  }

  /** The loss is less than 256^(size - 3), and there is none up to three bytes. */
  lemma LossBound(x: nat)
    ensures Truncated(x) <= x
    ensures if Size(x) <= 3 then Truncated(x) == x else x - Truncated(x) < Pow(256, Size(x) - 3)
  {
    if Size(x) > 3 {
      PowPositive(256, Size(x) - 3);
      DivBounds(x, Pow(256, Size(x) - 3));
    }
  }

  /** Truncation keeps the size: the leading byte survives. */
  lemma TruncatedSize(x: nat)
    ensures Size(Truncated(x)) == Size(x)
  {
    LossBound(x);
    var s := Size(x);
    if s > 3 {
      SizeBounds(x);
      var p := Pow(256, s - 3);
      assert Pow(256, s - 2) == 256 * p;
      PowPositive(256, s - 3);
      DivLower(x, p, 128 * 256);
      MulMono(128 * 256, x / p, p);
      SizeUnique(Truncated(x), s);
    }
  }

  lemma TruncatedMantissa(x: nat)
    ensures Mantissa(Truncated(x)) == Mantissa(x) && Truncated(Truncated(x)) == Truncated(x)
  {
    TruncatedSize(x);
    if Size(x) > 3 {
      var u := Unit(Size(x) - 3);
      DivUnique((x / u) * u, u, x / u);
    }
  }

  /** A decoded target encodes to itself: the compact form is a normal form. */
  lemma Idempotent(x: nat)
    requires Size(x) < 256
    ensures GetCompact(SetCompact(GetCompact(x))) == GetCompact(x)
  {
    RoundTrip(x);
    TruncatedSize(x);
    TruncatedMantissa(x);
  }

  /** Compact forms of non-negative numbers compare as the numbers they came from. */
  lemma OrderPreserving(x: nat, y: nat)
    requires x <= y && Size(y) < 256
    ensures Size(x) <= Size(y)
    ensures GetCompact(x) <= GetCompact(y)
  {
    if x > 0 { SizeMono(x, y); }
    CompactFields(x);
    CompactFields(y);
    var s := Size(y);
    if Size(x) == s && x > 0 {
      if s <= 3 { MulMono(x, y, Pow(256, 3 - s)); }
      else { PowPositive(256, s - 3); DivMono(x, y, Pow(256, s - 3)); }
    } else if x > 0 {
      MantissaRange(x);
    }
  }

  lemma TruncatedMono(x: nat, y: nat)
    requires x <= y
    ensures Truncated(x) <= Truncated(y)
  {
    LossBound(x);
    LossBound(y);
    if x > 0 {
      SizeMono(x, y);
      var s := Size(y);
      if Size(x) == s {
        if s > 3 {
          PowPositive(256, s - 3);
          DivMono(x, y, Pow(256, s - 3));
          MulMono(x / Pow(256, s - 3), y / Pow(256, s - 3), Pow(256, s - 3));
        }
      } else {
        TruncatedSize(y);
        if Truncated(y) < x { SizeMono(Truncated(y), x); }
      }
    }
  }

  lemma UnitSize(m: nat, s: nat)
    requires s > 3 && m < 0x80_0000
    ensures Size(m * Pow(256, s - 3)) <= s
  {
    var p := Pow(256, s - 3);
    var x := m * p;
    PowPositive(256, s - 3);
    MulStrict(m, 0x80_0000, p);
    assert Pow(256, s - 2) == 256 * p && Pow(256, s - 1) == 256 * Pow(256, s - 2);
    SizeBounds(x);
    if Size(x) > s { PowMono(256, s - 1, Size(x) - 2); }
  }

  lemma WholeUnits(x: nat, k: nat)
    requires Size(x) > 3 && x == k * Pow(256, Size(x) - 3)
    ensures Truncated(x) == x
  {
    PowPositive(256, Size(x) - 3);
    DivUnique(x, Pow(256, Size(x) - 3), k);
  }

  lemma SplitUnits(m: nat, a: nat, b: nat)
    ensures m * Pow(256, a + b) == (m * Pow(256, b)) * Pow(256, a)
  {
    PowAdd(256, a, b);
    var p, q := Pow(256, a), Pow(256, b);
    assert m * (p * q) == (m * q) * p;
  }

  lemma MultipleOfUnit(m: nat, s: nat, x: nat)
    requires s > 3 && m < 0x80_0000 && x == m * Pow(256, s - 3)
    ensures Size(x) <= s && Truncated(x) == x
  {
    UnitSize(m, s);
    var t := Size(x);
    if t > 3 {
      SplitUnits(m, t - 3, s - t);
      WholeUnits(x, m * Pow(256, s - t));
    }
  }

  lemma ThreeBytes(x: nat)
    requires x < 0x80_0000
    ensures Size(x) <= 3
  {
    assert Pow(256, 2) == 65536;
    SizeMono(x, 0x7F_FFFF);
    SizeUnique(0x7F_FFFF, 3);
  }

  /**
   * A block's nBits is arbitrary input: a decoded number is never rounded up, so re-encoding
   * any compact value gives one that decodes to the same number.
   */
  lemma DecodeStable(c: nat)
    requires c < 0x1_0000_0000 && SetCompact(c) >= 0
    ensures SetCompact(GetCompact(SetCompact(c))) == SetCompact(c)
  {
    var x := SetCompact(c);
    var s, m := c / 0x100_0000, c % 0x80_0000;
    if x == 0 {
      RoundTrip(0);
    } else if s <= 3 {
      PowPositive(256, 3 - s);
      assert x == m / Pow(256, 3 - s);
      MulMono(1, Pow(256, 3 - s), m + 1);
      DivUpper(m, Pow(256, 3 - s), m + 1);
      ThreeBytes(x);
      RoundTrip(x);
    } else {
      assert x == m * Pow(256, s - 3);
      MultipleOfUnit(m, s, x);
      RoundTrip(x);
    }
  }
}
