/** Binary numerals: conversion, enumeration by rippling carries, and Gray codes. */
module BinaryCodes {
  import opened Basics
  import opened Graphs

  // ----- Numerals ------------------------------------------------------------------------

  function Pow2(n: nat): (r: nat)
    ensures r > 0
  {
    if n == 0 then 1 else 2 * Pow2(n - 1)
  }

  predicate IsBinary(s: string) {
    forall i :: 0 <= i < |s| ==> s[i] == '0' || s[i] == '1'
  }

  function BitOf(c: char): nat { if c == '1' then 1 else 0 }

  /** The number a binary numeral stands for, most significant digit first. */
  function Value(s: string): nat {
    if s == "" then 0 else 2 * Value(s[..|s| - 1]) + BitOf(s[|s| - 1])
  }

  datatype Conversion<T> = Ok(value: T) | ValueError | KeyError

  /** `int(s, 2)` on a string of digits. */
  function Bin2Int(s: string): Conversion<nat> {
    if s != "" && IsBinary(s) then Ok(Value(s)) else ValueError
  }

  function Nibble(d: nat): (s: string)
    requires d < 16
    ensures |s| == 4 && IsBinary(s)
  {
    [if d / 8 == 1 then '1' else '0', if d / 4 % 2 == 1 then '1' else '0', if d / 2 % 2 == 1 then '1' else '0',
     if d % 2 == 1 then '1' else '0']
  }

  /** The digits of `hex(i)`. */
  function HexDigits(i: nat): (r: seq<nat>)
    ensures r != [] && forall k :: 0 <= k < |r| ==> r[k] < 16
  {
    if i < 16 then [i] else HexDigits(i / 16) + [i % 16]
  }

  function JoinNibbles(ds: seq<nat>): (s: string)
    requires forall k :: 0 <= k < |ds| ==> ds[k] < 16
    ensures IsBinary(s) && |s| == 4 * |ds|
  {
    if ds == [] then "" else JoinNibbles(ds[..|ds| - 1]) + Nibble(ds[|ds| - 1])
  }

  /** Four bits for each digit of `hex(i)`. */
  function HexBits(i: nat): string { JoinNibbles(HexDigits(i)) }

  function Zeros(n: nat): (s: string)
    ensures |s| == n && forall i :: 0 <= i < n ==> s[i] == '0'
  {
    seq(n, _ => '0')
  }

  /** Hexadecimal digits mapped to bits, cut or padded to n places.  For n = 0 the slices `[:-0]` and `[-0:]` are
      the empty string and the whole string. */
  method Int2Bin(i: int, n: nat) returns (r: Conversion<string>)
    ensures i < 0 <==> r == KeyError
    ensures n >= 1 ==> (r.Ok? <==> 0 <= i < Pow2(n))
    ensures n >= 1 && r.Ok? ==> |r.value| == n && IsBinary(r.value) && Bin2Int(r.value) == Ok(i)
    ensures r == Int2BinSpec(i, n)
  {
    if n >= 1 { Int2BinCorrect(i, n); }
    hide *;
    Slices(i, n);
    if i < 0 { return KeyError; }
    var result := HexBits(i);
    var cut := if n == 0 || n > |result| then 0 else |result| - n;
    if '1' in result[..cut] { return ValueError; }
    result := if n == 0 then result else result[cut..];
    result := Zeros(if n > |result| then n - |result| else 0) + result;
    return Ok(result);
  }

  /** The n-place numeral of i, when there is one. */
  function Int2BinSpec(i: int, n: nat): Conversion<string> {
    if i < 0 then KeyError
    else
      var s := HexBits(i);
      if n == 0 then Ok(s)
      else if n >= |s| then Ok(Zeros(n - |s|) + s)
      else if '1' in s[..|s| - n] then ValueError
      else Ok(s[|s| - n..])
  }

  /** The numeral by slicing: the digits before `cut` must not be set. */
  lemma Slices(i: int, n: nat)
    ensures i < 0 ==> Int2BinSpec(i, n) == KeyError
    ensures i >= 0 ==>
      var s := HexBits(i);
      var cut := if n == 0 || n > |s| then 0 else |s| - n;
      var tail := if n == 0 then s else s[cut..];
      Int2BinSpec(i, n) == if '1' in s[..cut] then ValueError else Ok(Zeros(if n > |tail| then n - |tail| else 0) + tail)
  {
    hide HexBits;
    if i >= 0 {
      var s := HexBits(i);
      assert s[0..] == s && forall t: string :: Zeros(0) + t == t;
    }
  }

  lemma {:induction false} ValueConcat(a: string, b: string)
    ensures Value(a + b) == Value(a) * Pow2(|b|) + Value(b)
  {
    if b == "" {
      assert a + b == a && Value(b) == 0;
    } else {
      var front := b[..|b| - 1];
      ValueLast(a + b);
      ValueLast(b);
      assert (a + b)[..|a + b| - 1] == a + front;
      assert Pow2(|b|) == 2 * Pow2(|front|);
      hide Value, Pow2;
      ValueConcat(a, front);
      TwiceProduct(Value(a), Pow2(|front|));
    }
  }

  lemma ValueLast(s: string)
    requires s != ""
    ensures Value(s) == 2 * Value(s[..|s| - 1]) + BitOf(s[|s| - 1])
  {
  }

  lemma TwiceProduct(x: nat, p: nat)
    ensures 2 * (x * p) == x * (2 * p)
  {
  }

  lemma {:induction false} ValueZero(s: string)
    requires '1' !in s
    ensures Value(s) == 0
  {
    if s != "" { ValueZero(s[..|s| - 1]); }
  }

  lemma {:induction false} ValuePositive(s: string)
    requires '1' in s
    ensures Value(s) > 0
  {
    if s[|s| - 1] != '1' { ValuePositive(s[..|s| - 1]); }
  }

  lemma {:induction false} ValueBound(s: string)
    ensures Value(s) < Pow2(|s|)
  {
    if s != "" { ValueBound(s[..|s| - 1]); }
  }

  lemma NibbleValue(d: nat)
    requires d < 16
    ensures Value(Nibble(d)) == d
  {
    var s := Nibble(d);
    var s3, s2, s1 := s[..3], s[..2], s[..1];
    assert s[..|s| - 1] == s3 && s3[..|s3| - 1] == s2 && s2[..|s2| - 1] == s1 && s1[..|s1| - 1] == "";
    assert Value(s1) == BitOf(s[0]);
    assert Value(s2) == 2 * BitOf(s[0]) + BitOf(s[1]);
    assert Value(s3) == 4 * BitOf(s[0]) + 2 * BitOf(s[1]) + BitOf(s[2]);
  }

  lemma {:induction false} HexValue(i: nat)
    ensures Value(JoinNibbles(HexDigits(i))) == i
  {
    if i < 16 {
      assert JoinNibbles([i]) == JoinNibbles([]) + Nibble(i);
      assert JoinNibbles(HexDigits(i)) == Nibble(i);
      NibbleValue(i);
    } else {
      HexValue(i / 16);
      NibbleValue(i % 16);
      var ds := HexDigits(i);
      assert ds[..|ds| - 1] == HexDigits(i / 16);
      ValueConcat(JoinNibbles(HexDigits(i / 16)), Nibble(i % 16));
      assert Pow2(4) == 16;
    }
  }

  lemma Padded(s: string, k: nat)
    requires IsBinary(s)
    ensures Value(Zeros(k) + s) == Value(s) < Pow2(|s| + k) && IsBinary(Zeros(k) + s)
  {
    hide Value, Pow2;
    ValueZero(Zeros(k));
    ValueConcat(Zeros(k), s);
    ValueBound(Zeros(k) + s);
  }

  /** Cutting off leading digits loses value exactly when one of them is set. */
  lemma Cut(s: string, k: nat)
    requires IsBinary(s) && k <= |s|
    ensures '1' in s[..k] ==> Value(s) >= Pow2(|s| - k)
    ensures '1' !in s[..k] ==> Value(s[k..]) == Value(s) < Pow2(|s| - k)
  {
    hide Value, Pow2;
    var head, tail := s[..k], s[k..];
    assert s == head + tail;
    ValueConcat(head, tail);
    ValueBound(tail);
    if '1' in head {
      ValuePositive(head);
      AtLeastOnce(Value(head), Pow2(|tail|));
    } else {
      ValueZero(head);
    }
  }

  lemma AtLeastOnce(a: nat, b: nat)
    requires a > 0
    ensures a * b >= b
  {
  }

  /** For n >= 1 the conversion succeeds exactly on 0 .. 2^n - 1, and then yields n binary digits that read back as i. */
  lemma Int2BinCorrect(i: int, n: nat)
    requires n >= 1
    ensures Int2BinSpec(i, n).Ok? <==> 0 <= i < Pow2(n)
    ensures Int2BinSpec(i, n).Ok? ==> var s := Int2BinSpec(i, n).value; |s| == n && IsBinary(s) && Bin2Int(s) == Ok(i)
    ensures i < 0 <==> Int2BinSpec(i, n) == KeyError
  {
    hide Value, Pow2, HexDigits, JoinNibbles;
    if i >= 0 {
      var s := HexBits(i);
      HexValue(i);
      if n >= |s| {
        Padded(s, n - |s|);
      } else {
        Cut(s, |s| - n);
      }
    }
  }

  /** Numerals of one length are determined by their value. */
  lemma {:induction false} ValueInjective(s: string, t: string)
    requires IsBinary(s) && IsBinary(t) && |s| == |t| && Value(s) == Value(t)
    ensures s == t
  {
    if s != "" {
      ValueInjective(s[..|s| - 1], t[..|t| - 1]);
      assert s == s[..|s| - 1] + [s[|s| - 1]] && t == t[..|t| - 1] + [t[|t| - 1]];
    }
  }

  // ----- Enumeration ------------------------------------------------------------------------------

  /** The number in a list of digits, least significant first. */
  function LowValue(v: seq<char>): nat {
    if v == [] then 0 else BitOf(v[0]) + 2 * LowValue(v[1..])
  }

  function Reversed(v: seq<char>): (r: seq<char>)
    ensures |r| == |v|
  {
    if v == [] then [] else Reversed(v[1..]) + [v[0]]
  }

  lemma {:induction false} ReversedValue(v: seq<char>)
    requires IsBinary(v)
    ensures Value(Reversed(v)) == LowValue(v) && IsBinary(Reversed(v))
  {
    if v != [] {
      ReversedValue(v[1..]);
      assert Reversed(v)[..|v| - 1] == Reversed(v[1..]);
    }
  }

  lemma {:induction false} LowValueUpdate(v: seq<char>, i: nat, c: char)
    requires i < |v|
    ensures LowValue(v[i := c]) + BitOf(v[i]) * Pow2(i) == LowValue(v) + BitOf(c) * Pow2(i)
  {
    if i == 0 {
      assert v[0 := c][1..] == v[1..];
    } else {
      assert v[i := c][1..] == v[1..][i - 1 := c];
      LowValueUpdate(v[1..], i - 1, c);
      assert Pow2(i) == 2 * Pow2(i - 1);
    }
  }

  lemma {:induction false} LowValueBound(v: seq<char>)
    ensures LowValue(v) < Pow2(|v|)
  {
    if v != [] { LowValueBound(v[1..]); }
  }

  lemma {:induction false} LowValueZero(v: seq<char>)
    requires forall i :: 0 <= i < |v| ==> v[i] == '0'
    ensures LowValue(v) == 0
  {
    if v != [] { LowValueZero(v[1..]); }
  }

  /** The inner loop: add one, rippling the carry.  `carried` says that the last place overflowed. */
  method Increment(v: array<char>, toggle: array<int>, bits: nat)
    requires v.Length == bits && toggle.Length == bits + 1 && v != toggle as object && IsBinary(v[..])
    requires toggle[0] == 1 && forall j :: 0 < j <= bits ==> toggle[j] == 0
    modifies v, toggle
    ensures IsBinary(v[..]) && toggle[bits] in {0, 1}
    ensures LowValue(old(v[..])) + 1 == LowValue(v[..]) + toggle[bits] * Pow2(bits)
  {
    ghost var before := v[..];
    var i := 0;
    while i < bits && toggle[i] == 1
      invariant 0 <= i <= bits && IsBinary(v[..])
      invariant toggle[i] in {0, 1} && forall j :: i < j <= bits ==> toggle[j] == 0
      invariant LowValue(before) + 1 == LowValue(v[..]) + toggle[i] * Pow2(i)
      decreases bits - i
    {
      ghost var now := v[..];
      if v[i] == '0' {
        LowValueUpdate(now, i, '1');
        v[i] := '1';
        toggle[i + 1] := 0;
        assert v[..] == now[i := '1'];
      } else {
        LowValueUpdate(now, i, '0');
        v[i] := '0';
        toggle[i + 1] := 1;
        assert v[..] == now[i := '0'];
      }
      assert Pow2(i + 1) == 2 * Pow2(i);
      i := i + 1;
    }
  }

  method ReverseOf(v: array<char>) returns (s: string)
    ensures s == Reversed(v[..])
  {
    s := "";
    for i := 0 to v.Length
      invariant s == Reversed(v[..i])
    {
      ReversedSnoc(v[..i], v[i]);
      assert v[..i + 1] == v[..i] + [v[i]];
      s := [v[i]] + s;
    }
    assert v[..v.Length] == v[..];
  }

  lemma {:induction false} ReversedSnoc(v: seq<char>, c: char)
    ensures Reversed(v + [c]) == [c] + Reversed(v)
  {
    if v == [] {
      assert Reversed([c]) == Reversed([]) + [c];
    } else {
      assert (v + [c])[1..] == v[1..] + [c];
      ReversedSnoc(v[1..], c);
    }
  }

  /** The k-th entry is the `bits`-digit numeral of k. */
  ghost predicate Counts(l: seq<string>, bits: nat) {
    forall k :: 0 <= k < |l| ==> Int2BinSpec(k, bits) == Ok(l[k]) && Bin2Int(l[k]) == Ok(k)
  }

  lemma NotNegative(bits: nat)
    ensures Pow2(bits) >= 1 && Pow2(0) == 1 && Counts([], bits)
  {
  }

  /** All numerals of the given width in order; none for width 0. */
  method BinaryRange(bits: nat) returns (l: seq<string>)
    ensures bits == 0 ==> l == []
    ensures bits >= 1 ==> |l| == Pow2(bits) && Counts(l, bits)
  {
    hide Int2BinSpec, Bin2Int, Value, Pow2, LowValue, Reversed, Counts;
    l := [];
    var v := new char[bits](_ => '0');
    var toggle := new int[bits + 1](j => if j == 0 then 1 else 0);
    LowValueZero(v[..]);
    NotNegative(bits);
    while toggle[bits] != 1
      invariant fresh(v) && fresh(toggle) && v.Length == bits && toggle.Length == bits + 1 && IsBinary(v[..])
      invariant toggle[bits] in {0, 1} && Counts(l, bits)
      invariant bits == 0 ==> l == [] && toggle[0] == 1
      invariant bits >= 1 ==> |l| == LowValue(v[..]) + toggle[bits] * Pow2(bits) && |l| <= Pow2(bits)
      decreases Pow2(bits) - |l|
    {
      var s := ReverseOf(v);
      LowValueBound(v[..]);
      ReversedValue(v[..]);
      CountsNext(l, s, bits);
      l := l + [s];
      toggle := new int[bits + 1](j => if j == 0 then 1 else 0);
      Increment(v, toggle, bits);
      LowValueBound(v[..]);
    }
  }

  lemma CountsNext(l: seq<string>, s: string, bits: nat)
    requires Counts(l, bits) && bits >= 1 && IsBinary(s) && |s| == bits && Value(s) == |l|
    ensures Counts(l + [s], bits)
  {
    NumeralOf(s, bits);
  }

  lemma NumeralOf(s: string, n: nat)
    requires n >= 1 && IsBinary(s) && |s| == n
    ensures Int2BinSpec(Value(s), n) == Ok(s) && Bin2Int(s) == Ok(Value(s))
  {
    ValueBound(s);
    Int2BinCorrect(Value(s), n);
    ValueInjective(s, Int2BinSpec(Value(s), n).value);
  }

  // ----- Gray codes ------------------------------------------------------------------------------

  /** Bitwise exclusive or. */
  function Xor(a: nat, b: nat): nat
    decreases a + b
  {
    if a == 0 && b == 0 then 0 else 2 * Xor(a / 2, b / 2) + if a % 2 != b % 2 then 1 else 0
  }

  function GrayEncode(i: nat): nat { Xor(i, i / 2) }

  /** The number of bits set. */
  function PopCount(a: nat): nat {
    if a == 0 then 0 else a % 2 + PopCount(a / 2)
  }

  /** The inverse of the code, bit by bit from the top. */
  function GrayDecode(g: nat): nat {
    if g == 0 then 0 else
    var high := GrayDecode(g / 2);
    2 * high + if g % 2 != high % 2 then 1 else 0
  }

  lemma {:induction false} XorHalves(a: nat, b: nat)
    ensures Xor(a, b) / 2 == Xor(a / 2, b / 2)
    ensures Xor(a, b) % 2 == if a % 2 != b % 2 then 1 else 0
  {
  }

  lemma {:induction false} DecodeEncode(i: nat)
    ensures GrayDecode(GrayEncode(i)) == i
  {
    if i > 0 {
      XorHalves(i, i / 2);
      DecodeEncode(i / 2);
    }
  }

  lemma {:induction false} EncodeDecode(g: nat)
    ensures GrayEncode(GrayDecode(g)) == g
  {
    if g > 0 {
      EncodeDecode(g / 2);
      var high := GrayDecode(g / 2);
      var bit := if g % 2 != high % 2 then 1 else 0;
      assert GrayDecode(g) == 2 * high + bit;
      hide GrayDecode, GrayEncode, Xor;
      GrayHalves(high, bit);
    }
  }

  lemma {:induction false} XorSelf(a: nat)
    ensures Xor(a, a) == 0
  {
    if a > 0 { XorSelf(a / 2); }
  }

  /** Bit `k` of a number. */
  function Bit(a: nat, k: nat): bool
    decreases k
  {
    if k == 0 then a % 2 == 1 else Bit(a / 2, k - 1)
  }

  /** A bit of the code is set exactly when that bit of the number differs from the next higher one. */
  lemma {:induction false} GrayBit(i: nat, k: nat)
    ensures Bit(GrayEncode(i), k) <==> (Bit(i, k) != Bit(i, k + 1))
    decreases k
  {
    XorHalves(i, i / 2);
    if k > 0 { GrayBit(i / 2, k - 1); }
  }

  /** The code of 2m + bit, in terms of the code of m. */
  lemma GrayHalves(m: nat, bit: nat)
    requires bit < 2
    ensures GrayEncode(2 * m + bit) / 2 == GrayEncode(m)
    ensures GrayEncode(2 * m + bit) % 2 == if bit != m % 2 then 1 else 0
  {
  }

  lemma PopCountHalves(a: nat)
    ensures PopCount(a) == a % 2 + PopCount(a / 2)
  {
  }

  lemma NeighboursEven(m: nat)
    ensures PopCount(Xor(GrayEncode(2 * m), GrayEncode(2 * m + 1))) == 1
  {
    assert PopCount(0) == 0;
    hide Xor, GrayEncode, PopCount;
    GrayHalves(m, 0);
    GrayHalves(m, 1);
    XorHalves(GrayEncode(2 * m), GrayEncode(2 * m + 1));
    XorSelf(GrayEncode(m));
    PopCountHalves(Xor(GrayEncode(2 * m), GrayEncode(2 * m + 1)));
  }

  lemma NeighboursOdd(m: nat)
    requires PopCount(Xor(GrayEncode(m), GrayEncode(m + 1))) == 1
    ensures PopCount(Xor(GrayEncode(2 * m + 1), GrayEncode(2 * m + 2))) == 1
  {
    hide Xor, GrayEncode, PopCount;
    GrayHalves(m, 1);
    GrayHalves(m + 1, 0);
    assert 2 * (m + 1) == 2 * m + 2;
    XorHalves(GrayEncode(2 * m + 1), GrayEncode(2 * m + 2));
    PopCountHalves(Xor(GrayEncode(2 * m + 1), GrayEncode(2 * m + 2)));
  }

  /** Codes of consecutive numbers differ in exactly one bit. */
  lemma {:induction false} GrayNeighbours(i: nat)
    ensures PopCount(Xor(GrayEncode(i), GrayEncode(i + 1))) == 1
  {
    hide Xor, GrayEncode, PopCount;
    var m := i / 2;
    if i % 2 == 0 {
      assert i == 2 * m;
      NeighboursEven(m);
    } else {
      assert i == 2 * m + 1;
      GrayNeighbours(m);
      NeighboursOdd(m);
    }
  }

  lemma {:induction false} GrayBound(i: nat, n: nat)
    requires i < Pow2(n)
    ensures GrayEncode(i) < Pow2(n)
  {
    if n > 0 {
      XorHalves(i, i / 2);
      GrayBound(i / 2, n - 1);
    }
  }

  lemma {:induction false} GrayDecodeBound(g: nat, n: nat)
    requires g < Pow2(n)
    ensures GrayDecode(g) < Pow2(n)
  {
    if n > 0 { GrayDecodeBound(g / 2, n - 1); }
  }

  /** The codes along a binary range: every number below 2^n once, neighbours one bit apart. */
  function GrayCodes(n: nat): (r: seq<nat>) { seq(Pow2(n), k requires 0 <= k => GrayEncode(k)) }

  lemma GrayCodesVisitAllOnce(n: nat)
    ensures var r := GrayCodes(n);
      && NoDup(r) && (forall g: nat :: g in r <==> g < Pow2(n))
      && forall k :: 0 <= k < |r| - 1 ==> PopCount(Xor(r[k], r[k + 1])) == 1
  {
    var r := GrayCodes(n);
    forall i, j | 0 <= i < j < |r| ensures r[i] != r[j] {
      DecodeEncode(i);
      DecodeEncode(j);
    }
    forall g: nat ensures g in r <==> g < Pow2(n) {
      if g < Pow2(n) {
        GrayDecodeBound(g, n);
        EncodeDecode(g);
        assert r[GrayDecode(g)] == g;
      }
      if g in r {
        var k :| 0 <= k < |r| && r[k] == g;
        GrayBound(k, n);
      }
    }
    forall k | 0 <= k < |r| - 1 ensures PopCount(Xor(r[k], r[k + 1])) == 1 { GrayNeighbours(k); }
  }
}
