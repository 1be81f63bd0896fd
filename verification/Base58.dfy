/** The Base58 text form of byte strings (src/base58.cpp). */
module Base58 {
  import opened Common
  import opened Arith
  import opened Digits

  // The two tables, in closed form: 0, O, I and l are not digits

  function DigitChar(d: nat): char
    requires d < 58
  {
    if d < 9 then '1' + d as char
    else if d < 17 then 'A' + (d - 9) as char
    else if d < 22 then 'J' + (d - 17) as char
    else if d < 33 then 'P' + (d - 22) as char
    else if d < 44 then 'a' + (d - 33) as char
    else 'm' + (d - 44) as char
  }

  function CharDigit(c: char): (d: int)
    ensures -1 <= d < 58
  {
    if '1' <= c <= '9' then (c - '1') as int
    else if 'A' <= c <= 'H' then (c - 'A') as int + 9
    else if 'J' <= c <= 'N' then (c - 'J') as int + 17
    else if 'P' <= c <= 'Z' then (c - 'P') as int + 22
    else if 'a' <= c <= 'k' then (c - 'a') as int + 33
    else if 'm' <= c <= 'z' then (c - 'm') as int + 44
    else -1
  }

  lemma TablesInverse(d: nat, c: char)
    ensures d < 58 ==> CharDigit(DigitChar(d)) == d
    ensures CharDigit(c) >= 0 ==> DigitChar(CharDigit(c)) == c
  {
  }

  predicate IsSpace(c: char) { c == ' ' || '\t' <= c <= '\r' }

  // How large the buffers are

  lemma EncodeRatio()
    ensures Pow(256, 8) <= Pow(58, 11)
  {
    assert Pow(58, 3) == 195112 && Pow(58, 4) == 11316496 && Pow(256, 4) == 0x1_0000_0000;
    hide Pow;
    PowAdd(256, 4, 4);
    PowAdd(58, 4, 4);
    PowAdd(58, 8, 3);
  }

  lemma Pow58()
    ensures Pow(58, 71) ==
            0xf1a10f76073f997e1af0b37f5c795ecf145633452837a5de3fa17ac74b86f60a0ebe5446f358940a4ca12a800000000000000000
  {
    assert Pow(58, 3) == 195112 && Pow(58, 4) == 11316496;
    hide Pow;
    PowAdd(58, 4, 4);
    assert Pow(58, 8) == 0x7479027ea100;
    PowAdd(58, 8, 8);
    assert Pow(58, 16) == 0x34fde3761da26b26e1410000;
    PowAdd(58, 16, 16);
    assert Pow(58, 32) == 0xaf820335d9b3d9cf58b911d87035677fb7f528100000000;
    PowAdd(58, 32, 32);
    PowAdd(58, 4, 3);
    PowAdd(58, 64, 7);
  }

  lemma Pow256()
    ensures Pow(256, 52) ==
            0x100000000000000000000000000000000000000000000000000000000000000000000000000000000000000000000000000000000
  {
    assert Pow(256, 4) == 0x1_0000_0000;
    hide Pow;
    PowAdd(256, 4, 4);
    PowAdd(256, 8, 8);
    assert Pow(256, 16) == 0x100000000000000000000000000000000;
    PowAdd(256, 16, 16);
    PowAdd(256, 32, 16);
    PowAdd(256, 48, 4);
  }

  lemma DecodeRatio()
    ensures Pow(58, 71) <= Pow(256, 52)
  {
    hide Pow;
    Pow58();
    Pow256();
  }

  /** A number of n base 256 digits has at most 138 n / 100 + 1 base 58 digits. */
  lemma EncodeRoom(n: nat)
    ensures Pow(256, n) < Pow(58, n * 138 / 100 + 1)
  {
    EncodeRatio();
    DivBounds(n * 138, 100);
    RatioBound(256, 8, 58, 11, n, n * 138 / 100 + 1, 11 * n, 8 * (n * 138 / 100 + 1));
  }

  /** A number of n base 58 digits has at most 733 n / 1000 + 1 base 256 digits. */
  lemma DecodeRoom(n: nat)
    ensures Pow(58, n) < Pow(256, n * 733 / 1000 + 1)
  {
    DecodeRatio();
    DivBounds(n * 733, 1000);
    RatioBound(58, 71, 256, 52, n, n * 733 / 1000 + 1, 52 * n, 71 * (n * 733 / 1000 + 1));
  }

  // What the coder computes

  function Nats(b: seq<byte>): (r: seq<nat>)
    ensures |r| == |b| && InBase(256, r)
  {
    seq(|b|, i requires 0 <= i < |b| => b[i] as nat)
  }

  function Bytes(d: seq<nat>): (r: seq<byte>)
    requires InBase(256, d)
    ensures |r| == |d|
  {
    seq(|d|, i requires 0 <= i < |d| => d[i] as byte)
  }

  function Text(d: seq<nat>): (s: string)
    requires InBase(58, d)
    ensures |s| == |d|
  {
    seq(|d|, i requires 0 <= i < |d| => DigitChar(d[i]))
  }

  predicate IsText(s: string) { forall i :: 0 <= i < |s| ==> CharDigit(s[i]) >= 0 }

  function Vals(s: string): (d: seq<nat>)
    requires IsText(s)
    ensures |d| == |s| && InBase(58, d)
  {
    seq(|s|, i requires 0 <= i < |s| => CharDigit(s[i]))
  }

  /** A leading '1' for every leading zero byte, then the number in base 58. */
  function Encode(b: seq<byte>): string {
    ConvertInBase(256, 58, Nats(b));
    Text(Convert(256, 58, Nats(b)))
  }

  function DecodeText(s: string): seq<byte>
    requires IsText(s)
  {
    ConvertInBase(58, 256, Vals(s));
    Bytes(Convert(58, 256, Vals(s)))
  }

  function Lead(s: string, i: nat): (j: nat)
    requires i <= |s|
    ensures i <= j <= |s| && (forall k :: i <= k < j ==> IsSpace(s[k])) && (j < |s| ==> !IsSpace(s[j]))
    decreases |s| - i
  {
    if i < |s| && IsSpace(s[i]) then Lead(s, i + 1) else i
  }

  function Word(s: string, i: nat): (j: nat)
    requires i <= |s|
    ensures i <= j <= |s| && (forall k :: i <= k < j ==> !IsSpace(s[k])) && (j < |s| ==> IsSpace(s[j]))
    decreases |s| - i
  {
    if i < |s| && !IsSpace(s[i]) then Word(s, i + 1) else i
  }

  /** One word of Base58 digits, with white space around it. */
  function Decode(s: string): Option<seq<byte>> {
    var i := Lead(s, 0);
    var j := Word(s, i);
    if IsText(s[i..j]) && Lead(s, j) == |s| then Some(DecodeText(s[i..j])) else None
  }

  // Round trips

  lemma TextVals(d: seq<nat>)
    requires InBase(58, d)
    ensures IsText(Text(d)) && Vals(Text(d)) == d
  {
    forall i | 0 <= i < |d| ensures CharDigit(Text(d)[i]) == d[i] { TablesInverse(d[i], ' '); }
  }

  lemma ValsText(s: string)
    requires IsText(s)
    ensures Text(Vals(s)) == s
  {
    forall i | 0 <= i < |s| ensures Text(Vals(s))[i] == s[i] { TablesInverse(0, s[i]); }
  }

  lemma NatsBytes(d: seq<nat>)
    requires InBase(256, d)
    ensures Nats(Bytes(d)) == d
  {
  }

  lemma WordDecodes(s: string)
    requires IsText(s)
    ensures Decode(s) == Some(DecodeText(s))
  {
    assert forall i :: 0 <= i < |s| ==> !IsSpace(s[i]);
    assert Lead(s, 0) == 0 && Word(s, 0) == |s| && s[0..|s|] == s;
  }

  /** Every byte string comes back. */
  lemma DecodeEncode(b: seq<byte>)
    ensures IsText(Encode(b)) && Decode(Encode(b)) == Some(b)
  {
    var d := Nats(b);
    ConvertInBase(256, 58, d);
    TextVals(Convert(256, 58, d));
    WordDecodes(Encode(b));
    ConvertInverse(256, 58, d);
    assert Bytes(d) == b;
  }

  /** Every word of digits comes back: no two words stand for the same bytes. */
  lemma EncodeDecode(s: string)
    requires IsText(s)
    ensures Decode(s).Some? && Encode(Decode(s).value) == s
  {
    var d := Vals(s);
    WordDecodes(s);
    ConvertInBase(58, 256, d);
    NatsBytes(Convert(58, 256, d));
    ConvertInverse(58, 256, d);
    ValsText(s);
  }

  predicate Spaces(s: string) { forall i :: 0 <= i < |s| ==> IsSpace(s[i]) }

  /** What decoding accepts: a word of digits with any white space before and after it. */
  lemma DecodeAccepts(s: string)
    ensures Decode(s).Some? <==> exists a, w, c :: s == a + w + c && Spaces(a) && IsText(w) && Spaces(c)
  {
    hide Decode, IsText, Spaces;
    if Decode(s).Some? {
      var a, w, c := DecodedParts(s);
    }
    if a, w, c :| s == a + w + c && Spaces(a) && IsText(w) && Spaces(c) {
      DecodeTrims(a, w, c);
    }
  }

  lemma DecodedParts(s: string) returns (a: string, w: string, c: string)
    requires Decode(s).Some?
    ensures s == a + w + c && Spaces(a) && IsText(w) && Spaces(c)
  {
    var i := Lead(s, 0);
    var j := Word(s, i);
    a, w, c := s[..i], s[i..j], s[j..];
  }

  lemma DecodeTrims(a: string, w: string, c: string)
    requires Spaces(a) && IsText(w) && Spaces(c)
    ensures Decode(a + w + c) == Some(DecodeText(w))
  {
    var s := a + w + c;
    var i := Lead(s, 0);
    var j := Word(s, i);
    assert forall k :: 0 <= k < |w| ==> s[|a| + k] == w[k] && !IsSpace(w[k]);
    if w == [] {
      assert forall k :: 0 <= k < |s| ==> IsSpace(s[k]);
      assert i == |s| && s[i..j] == w;
    } else {
      assert !IsSpace(s[|a|]) && forall k :: 0 <= k < |a| ==> IsSpace(s[k]);
      assert i == |a|;
      forall k | i <= k < |a + w| ensures !IsSpace(s[k]) { assert s[k] == w[k - |a|]; }
      forall k | |a + w| <= k < |s| ensures IsSpace(s[k]) { assert s[k] == c[k - |a + w|]; }
      assert |a + w| < |s| ==> IsSpace(s[|a + w|]);
      assert j == |a + w|;
      assert s[i..j] == w;
    }
  }

  // The coder itself

  /** How far the bytes before `k` have been carried into the buffer. */
  ghost predicate CarriedTo(base: nat, from: nat, d: seq<nat>, buffer: seq<nat>, length: nat) {
    && InBase(base, buffer) && length <= |buffer| && Value(base, buffer) == Value(from, d)
    && (forall j :: 0 <= j < |buffer| - length ==> buffer[j] == 0)
  }

  lemma OneMoreFits(base: nat, from: nat, d: seq<nat>, m: nat, size: nat, buffer: seq<nat>)
    requires from > 0 && InBase(from, d) && 0 < |d| <= m && Pow(from, m) < Pow(base, size)
    requires Value(base, buffer) == Value(from, d[..|d| - 1])
    ensures Scaled(base, buffer, from, d[|d| - 1]) == Value(from, d) < Pow(base, size)
  {
    hide Pow;
    ValueBound(from, d);
    PowMono(from, |d|, m);
  }

  /** The digits that a buffer holds, without leading zeros. */
  method FirstDigit(buffer: array<nat>, length: nat) returns (it: nat)
    requires length <= buffer.Length && forall j :: 0 <= j < buffer.Length - length ==> buffer[j] == 0
    ensures it == Zeros(buffer[..])
  {
    it := buffer.Length - length;
    while it < buffer.Length && buffer[it] == 0
      invariant it <= buffer.Length && forall j :: 0 <= j < it ==> buffer[j] == 0
    {
      it := it + 1;
    }
    ZerosUnique(buffer[..], it);
  }

  method EncodeBase58(b: seq<byte>) returns (s: string)
    ensures s == Encode(b)
  {
    hide Value, Pow;
    ghost var d := Nats(b);
    var zeroes: nat := 0;
    while zeroes < |b| && b[zeroes] == 0
      invariant zeroes <= |b| && forall i :: 0 <= i < zeroes ==> d[i] == 0
    {
      zeroes := zeroes + 1;
    }
    ZerosUnique(d, zeroes);
    var b58, length := CarryBytes(b, zeroes);
    var it := FirstDigit(b58, length);
    BufferDigits(58, 256, d, b58[..]);
    TextSplit(zeroes, b58[it..]);
    s := Translate(b58, it, zeroes);
  }

  method Translate(b58: array<nat>, start: nat, zeroes: nat) returns (s: string)
    requires start <= b58.Length && InBase(58, b58[..])
    ensures s == seq(zeroes, _ => DigitChar(0)) + Text(b58[start..])
  {
    s := seq(zeroes, _ => DigitChar(0));
    ghost var whole := s + Text(b58[start..]);
    var it := start;
    while it < b58.Length
      invariant it <= b58.Length && s + Text(b58[it..]) == whole
    {
      assert b58[it..] == [b58[it]] + b58[it + 1..];
      s := s + [DigitChar(b58[it])];
      it := it + 1;
    }
  }

  /** The bytes from `start` on, as digits in base 58. */
  method CarryBytes(b: seq<byte>, start: nat) returns (b58: array<nat>, length: nat)
    requires start <= |b|
    ensures CarriedTo(58, 256, Nats(b)[start..], b58[..], length)
  {
    hide Value, Pow;
    ghost var d := Nats(b);
    var size := (|b| - start) * 138 / 100 + 1;
    EncodeRoom(|b| - start);
    b58 := new nat[size](_ => 0);
    EmptyBuffer(58, 256, b58[..]);
    assert d[start..start] == [];
    length := 0;
    var k := start;
    while k < |b|
      invariant start <= k <= |b| && b58.Length == size && fresh(b58) &&
                CarriedTo(58, 256, d[start..k], b58[..], length)
    {
      ghost var e := d[start..k + 1];
      assert e[..|e| - 1] == d[start..k];
      OneMoreFits(58, 256, e, |b| - start, size, b58[..]);
      var carry;
      length, carry := MultiplyAdd(b58, 58, 256, b[k] as nat, length);
      assert carry == 0;
      k := k + 1;
    }
    assert d[start..k] == d[start..];
  }

  lemma EmptyBuffer(base: nat, from: nat, buffer: seq<nat>)
    requires base > 0 && forall j :: 0 <= j < |buffer| ==> buffer[j] == 0
    ensures CarriedTo(base, from, [], buffer, 0)
  {
    ValueZeros(base, buffer);
  }

  lemma BufferDigits(base: nat, from: nat, d: seq<nat>, buffer: seq<nat>)
    requires base >= 2 && InBase(base, buffer) && Value(base, buffer) == Value(from, d[Zeros(d)..])
    ensures Convert(from, base, d) == Nulls(Zeros(d)) + buffer[Zeros(buffer)..]
  {
    StripCanonical(base, buffer);
    StripValue(from, d);
  }

  lemma TextSplit(z: nat, e: seq<nat>)
    requires InBase(58, e)
    ensures InBase(58, Nulls(z) + e) && Text(Nulls(z) + e) == seq(z, _ => DigitChar(0)) + Text(e)
  {
  }

  lemma BytesSplit(z: nat, e: seq<nat>)
    requires InBase(256, e)
    ensures InBase(256, Nulls(z) + e) && Bytes(Nulls(z) + e) == seq(z, _ => 0 as byte) + Bytes(e)
  {
  }

  method SkipSpaces(s: string, start: nat) returns (it: nat)
    requires start <= |s|
    ensures it == Lead(s, start)
  {
    it := start;
    while it < |s| && IsSpace(s[it])
      invariant start <= it <= |s| && Lead(s, it) == Lead(s, start)
    {
      it := it + 1;
    }
  }

  /** `s` is what precedes the terminating zero. */
  method DecodeBase58(s: string) returns (r: Option<seq<byte>>)
    ensures r == Decode(s)
  {
    hide Value, Pow;
    var first := SkipSpaces(s, 0);
    var start := first;
    while start < |s| && s[start] == DigitChar(0)
      invariant first <= start <= |s| && Word(s, start) == Word(s, first)
      invariant forall i :: first <= i < start ==> CharDigit(s[i]) == 0
    {
      start := start + 1;
    }
    var zeroes := start - first;
    var b256, length, end := CarryDigits(s, start);
    WordParts(s, first, start, Word(s, first));
    if b256 == null { return None; }
    var it := SkipSpaces(s, end);
    if it != |s| { return None; }
    it := FirstDigit(b256, length);
    BufferDigits(256, 58, Vals(s[first..end]), b256[..]);
    BytesSplit(zeroes, b256[it..]);
    var out := Copy(b256, it, zeroes);
    r := Some(out);
  }

  method Copy(b256: array<nat>, start: nat, zeroes: nat) returns (out: seq<byte>)
    requires start <= b256.Length && InBase(256, b256[..])
    ensures out == seq(zeroes, _ => 0 as byte) + Bytes(b256[start..])
  {
    out := seq(zeroes, _ => 0 as byte);
    ghost var whole := out + Bytes(b256[start..]);
    var it := start;
    while it < b256.Length
      invariant it <= b256.Length && out + Bytes(b256[it..]) == whole
    {
      assert b256[it..] == [b256[it]] + b256[it + 1..];
      out := out + [b256[it] as byte];
      it := it + 1;
    }
  }

  /** A word is its leading ones and the rest. */
  lemma WordParts(s: string, first: nat, start: nat, end: nat)
    requires first <= start <= end <= |s| && (forall i :: first <= i < start ==> CharDigit(s[i]) == 0)
    requires start < |s| ==> s[start] != DigitChar(0)
    ensures IsText(s[first..end]) <==> IsText(s[start..end])
    ensures IsText(s[first..end]) ==>
            var d := Vals(s[first..end]); Zeros(d) == start - first && d[Zeros(d)..] == Vals(s[start..end])
  {
    assert forall i :: start <= i < end ==> s[i] == s[first..end][i - first];
    assert forall i :: 0 <= i < end - first ==> s[first..end][i] == s[first + i];
    assert forall i :: 0 <= i < end - start ==> s[start..end][i] == s[first..end][i + (start - first)];
    if IsText(s[first..end]) {
      var d := Vals(s[first..end]);
      if start < end { TablesInverse(0, s[start]); }
      ZerosUnique(d, start - first);
    }
  }

  /** The digits from `start` on to the end of the word, in base 256; none if there is another character. */
  method CarryDigits(s: string, start: nat) returns (b256: array?<nat>, length: nat, it: nat)
    requires start <= |s|
    ensures b256 == null <==> !IsText(s[start..Word(s, start)])
    ensures b256 != null ==> it == Word(s, start) && CarriedTo(256, 58, Vals(s[start..it]), b256[..], length)
  {
    hide Value, Pow;
    var size := (|s| - start) * 733 / 1000 + 1;
    DecodeRoom(|s| - start);
    b256 := new nat[size](_ => 0);
    EmptyBuffer(256, 58, b256[..]);
    assert s[start..start] == "" && Vals("") == [];
    length, it := 0, start;
    while it < |s| && !IsSpace(s[it])
      invariant start <= it <= |s| && Word(s, it) == Word(s, start) && IsText(s[start..it])
      invariant b256 != null && b256.Length == size && fresh(b256) &&
                CarriedTo(256, 58, Vals(s[start..it]), b256[..], length)
    {
      var digit := CharDigit(s[it]);
      if digit == -1 {
        assert s[start..Word(s, start)][it - start] == s[it];
        b256 := null;
        return;
      }
      assert s[start..it + 1] == s[start..it] + [s[it]];
      ghost var e := Vals(s[start..it + 1]);
      assert e[..|e| - 1] == Vals(s[start..it]);
      OneMoreFits(256, 58, e, |s| - start, size, b256[..]);
      var carry;
      length, carry := MultiplyAdd(b256, 256, 58, digit, length);
      assert carry == 0;
      it := it + 1;
    }
  }

  // With a checksum

  /** The first four bytes of a hash, given byte by byte. */
  function Checksum(hash: (seq<byte>, nat) -> byte, b: seq<byte>): seq<byte> {
    [hash(b, 0), hash(b, 1), hash(b, 2), hash(b, 3)]
  }

  function EncodeCheck(hash: (seq<byte>, nat) -> byte, b: seq<byte>): string { Encode(b + Checksum(hash, b)) }

  method DecodeBase58Check(hash: (seq<byte>, nat) -> byte, s: string) returns (r: Option<seq<byte>>)
    ensures r.Some? ==> Decode(s) == Some(r.value + Checksum(hash, r.value))
    ensures r.None? ==> forall b :: Decode(s) != Some(b + Checksum(hash, b))
    ensures IsText(s) ==> (r.Some? <==> exists b :: s == EncodeCheck(hash, b))
    ensures IsText(s) && r.Some? ==> s == EncodeCheck(hash, r.value)
    ensures forall b :: s == EncodeCheck(hash, b) ==> r == Some(b)
  {
    var all := DecodeBase58(s);
    CheckedText(hash, s);
    if all.None? { return None; }
    var n := |all.value|;
    if n < 4 { return None; }
    var data := all.value[..n - 4];
    if Checksum(hash, data) != all.value[n - 4..] {
      return None;
    }
    assert all.value == data + Checksum(hash, data);
    r := Some(data);
  }

  lemma CheckedText(hash: (seq<byte>, nat) -> byte, s: string)
    ensures forall b :: s == EncodeCheck(hash, b) ==> Decode(s) == Some(b + Checksum(hash, b))
    ensures IsText(s) ==> forall b :: Decode(s) == Some(b + Checksum(hash, b)) ==> s == EncodeCheck(hash, b)
  {
    forall b ensures s == EncodeCheck(hash, b) ==> Decode(s) == Some(b + Checksum(hash, b)) {
      DecodeEncode(b + Checksum(hash, b));
    }
    if IsText(s) { EncodeDecode(s); }
  }
}
