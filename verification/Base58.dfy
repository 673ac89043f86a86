/**
 * Base 58 (src/multi/multibase_codec/codecs/base58.cpp): bytes as a number in base 256, printed in base 58, with every
 * leading zero byte printed as a '1'. The decoder reads a C string and skips blanks around the digits. Both loops work
 * in place on a buffer whose size is estimated from the input's; the estimates are proved to suffice.
 */
module Base58 {
  import opened Basics

  // ---------------------------------------------------------------------------------------------
  // Powers.

  function Pow(g: nat, n: nat): nat { if n == 0 then 1 else g * Pow(g, n - 1) }

  lemma {:induction false} PowPositive(g: nat, n: nat)
    requires g > 0
    ensures Pow(g, n) > 0
  {
    if n > 0 { PowPositive(g, n - 1); }
  }

  lemma {:induction false} PowAdd(g: nat, a: nat, b: nat)
    ensures Pow(g, a + b) == Pow(g, a) * Pow(g, b)
  {
    if a > 0 {
      PowAdd(g, a - 1, b);
      TimesAssoc(g, Pow(g, a - 1), Pow(g, b));
    }
  }

  lemma TimesAssoc(x: nat, y: nat, z: nat)
    ensures x * (y * z) == x * y * z
  {
  }

  lemma {:induction false} PowPow(g: nat, a: nat, b: nat)
    ensures Pow(Pow(g, a), b) == Pow(g, a * b)
  {
    if b > 0 {
      PowPow(g, a, b - 1);
      PowAdd(g, a, a * (b - 1));
      assert a + a * (b - 1) == a * b;
    }
  }

  lemma {:induction false} PowTimes(x: nat, y: nat, n: nat)
    ensures Pow(x * y, n) == Pow(x, n) * Pow(y, n)
  {
    if n > 0 {
      PowTimes(x, y, n - 1);
      Shuffle(x, y, Pow(x, n - 1), Pow(y, n - 1));
    }
  }

  lemma Shuffle(x: nat, y: nat, p: nat, q: nat)
    ensures x * y * (p * q) == x * p * (y * q)
  {
    TimesAssoc(x * y, p, q);
    TimesAssoc(x, y, p);
    TimesAssoc(x, p, y);
    TimesAssoc(x * p, y, q);
  }

  lemma Products(a: nat, b: nat, c: nat, d: nat)
    requires a <= c && b <= d
    ensures a * b <= c * d
  {
    assert a * b <= c * b <= c * d;
  }

  lemma {:induction false} PowGrows(x: nat, y: nat, n: nat)
    requires x <= y
    ensures Pow(x, n) <= Pow(y, n)
  {
    if n > 0 {
      PowGrows(x, y, n - 1);
      Products(x, Pow(x, n - 1), y, Pow(y, n - 1));
    }
  }

  lemma {:induction false} PowStrict(x: nat, y: nat, n: nat)
    requires x < y && n > 0
    ensures Pow(x, n) < Pow(y, n)
  {
    PowGrows(x, y, n - 1);
    PowPositive(y, n - 1);
    Products(x, Pow(x, n - 1), x, Pow(y, n - 1));
    More(x, y, Pow(y, n - 1));
  }

  lemma More(x: nat, y: nat, q: nat)
    requires x < y && q > 0
    ensures x * q < y * q
  {
  }

  lemma {:induction false} PowLonger(g: nat, a: nat, b: nat)
    requires g > 0 && a <= b
    ensures Pow(g, a) <= Pow(g, b)
  {
    PowAdd(g, a, b - a);
    PowPositive(g, b - a);
    Products(Pow(g, a), 1, Pow(g, a), Pow(g, b - a));
  }

  // ---------------------------------------------------------------------------------------------
  // The buffers are large enough: 138/100 exceeds log 256 / log 58, and 733/1000 exceeds log 58 / log 256.

  lemma Cube(k: nat, a: nat, b: nat, x: nat, y: nat)
    requires Pow(x, a) <= Pow(y, b)
    ensures Pow(x, a * k) <= Pow(y, b * k)
  {
    PowGrows(Pow(x, a), Pow(y, b), k);
    PowPow(x, a, k);
    PowPow(y, b, k);
  }

  lemma SplitPower(n: nat)
    ensures Pow(58, n) == Pow(2, n) * Pow(29, n)
  {
    PowTimes(2, 29, n);
  }

  lemma Bits(n: nat)
    ensures Pow(256, n) == Pow(2, 8 * n)
  {
    assert Pow(2, 8) == 256;
    PowPow(2, 8, n);
  }

  lemma SmallPowers()
    ensures Pow(2, 29) == 536870912 && Pow(2, 34) == 17179869184 && Pow(2, 49) == 562949953421312 &&
            Pow(2, 107) == 162259276829213363391578010288128
    ensures Pow(29, 6) == 594823321 && Pow(29, 7) == 17249876309
    ensures Pow(29, 10) == 420707233300201 && Pow(29, 22) == 148852438543083302439338564577241
  {
    assert Pow(2, 5) == 32 && Pow(2, 8) == 256;
    PowAdd(2, 8, 8);
    PowAdd(2, 16, 8);
    PowAdd(2, 24, 5);
    PowAdd(2, 29, 5);
    PowAdd(2, 24, 24);
    PowAdd(2, 1, 48);
    PowAdd(2, 49, 49);
    PowAdd(2, 98, 8);
    PowAdd(2, 1, 106);
    assert Pow(29, 1) == 29 && Pow(29, 2) == 841 && Pow(29, 3) == 24389;
    PowAdd(29, 3, 3);
    PowAdd(29, 6, 1);
    PowAdd(29, 7, 3);
    PowAdd(29, 10, 10);
    PowAdd(29, 20, 2);
  }

  lemma ManyDigits()
    ensures Pow(256, 50) <= Pow(58, 69)
  {
    hide Pow;
    SmallPowers();
    Cube(9, 34, 7, 2, 29);
    PowAdd(2, 306, 29);
    PowAdd(29, 63, 6);
    Products(Pow(2, 306), Pow(2, 29), Pow(29, 63), Pow(29, 6));
    SplitPower(69);
    Products(Pow(2, 69), Pow(2, 335), Pow(2, 69), Pow(29, 69));
    PowAdd(2, 69, 335);
    PowLonger(2, 400, 404);
    Bits(50);
  }

  lemma ManyBytes()
    ensures Pow(58, 1000) <= Pow(256, 733)
  {
    hide Pow;
    SmallPowers();
    Cube(45, 22, 107, 29, 2);
    PowAdd(29, 990, 10);
    PowAdd(2, 4815, 49);
    Products(Pow(29, 990), Pow(29, 10), Pow(2, 4815), Pow(2, 49));
    SplitPower(1000);
    Products(Pow(2, 1000), Pow(29, 1000), Pow(2, 1000), Pow(2, 4864));
    PowAdd(2, 1000, 4864);
    Bits(733);
  }

  lemma RootOf(x: nat, y: nat, n: nat)
    requires n > 0 && Pow(x, n) <= Pow(y, n)
    ensures x <= y
  {
    if x > y { PowStrict(y, x, n); }
  }

  /** The size `encodeImpl` allocates for `n` bytes. */
  function TextSize(n: nat): nat { n * 138 / 100 + 1 }

  lemma TextFits(n: nat)
    ensures Pow(256, n) <= Pow(58, TextSize(n))
  {
    var m := TextSize(n);
    ManyDigits();
    Cube(n, 50, 69, 256, 58);
    PowLonger(58, 69 * n, 50 * m);
    PowPow(256, n, 50);
    PowPow(58, m, 50);
    assert n * 50 == 50 * n && m * 50 == 50 * m;
    RootOf(Pow(256, n), Pow(58, m), 50);
  }

  /** The size `decodeImpl` allocates for `n` characters. */
  function ByteSize(n: nat): nat { n * 733 / 1000 + 1 }

  lemma BytesFit(n: nat)
    ensures Pow(58, n) <= Pow(256, ByteSize(n))
  {
    var m := ByteSize(n);
    ManyBytes();
    Cube(n, 1000, 733, 58, 256);
    PowLonger(256, 733 * n, 1000 * m);
    PowPow(58, n, 1000);
    PowPow(256, m, 1000);
    assert n * 1000 == 1000 * n && m * 1000 == 1000 * m;
    RootOf(Pow(58, n), Pow(256, m), 1000);
  }

  // ---------------------------------------------------------------------------------------------
  // Numerals, the most significant digit first.

  predicate Below(ds: seq<nat>, g: nat) { forall i :: 0 <= i < |ds| ==> ds[i] < g }

  /** The two bases; constants, so that products stay linear. */
  type Base = g: nat | g == 58 || g == 256 witness 58

  function Val(g: nat, ds: seq<nat>): nat {
    if ds == [] then 0 else g * Val(g, ds[..|ds| - 1]) + ds[|ds| - 1]
  }

  /** Without leading zeros; nothing for zero. */
  function Numeral(g: Base, v: nat): seq<nat> {
    if v == 0 then []
    else if g == 58 then Numeral(58, v / 58) + [v % 58]
    else Numeral(256, v / 256) + [v % 256]
  }

  predicate NoLeadingZero(ds: seq<nat>) { ds != [] ==> ds[0] != 0 }

  lemma ValSnoc(g: nat, ds: seq<nat>, d: nat)
    ensures Val(g, ds + [d]) == g * Val(g, ds) + d
  {
    assert (ds + [d])[..|ds|] == ds;
  }

  lemma QuotientOf(g: Base, q: nat, d: nat)
    requires d < g
    ensures (g * q + d) / g == q && (g * q + d) % g == d
  {
    if g == 58 {
      assert (58 * q + d) / 58 == q;
    } else {
      assert (256 * q + d) / 256 == q;
    }
  }

  lemma {:induction false} NumeralOk(g: Base, v: nat)
    ensures var ds := Numeral(g, v); Below(ds, g) && NoLeadingZero(ds) && Val(g, ds) == v && (v != 0 ==> ds != [])
  {
    if v != 0 {
      if g == 58 {
        NumeralOk(58, v / 58);
        ValSnoc(58, Numeral(58, v / 58), v % 58);
      } else {
        NumeralOk(256, v / 256);
        ValSnoc(256, Numeral(256, v / 256), v % 256);
      }
    }
  }

  lemma {:induction false} ValPositive(g: nat, ds: seq<nat>)
    requires g > 1 && ds != [] && ds[0] != 0
    ensures Val(g, ds) > 0
  {
    if |ds| > 1 {
      var init := ds[..|ds| - 1];
      ValPositive(g, init);
      Products(1, 1, g, Val(g, init));
    } else {
      assert ds[..0] == [];
    }
  }

  /** A numeral is determined by its value. */
  lemma {:induction false} NumeralOf(g: Base, ds: seq<nat>)
    requires Below(ds, g) && NoLeadingZero(ds)
    ensures Numeral(g, Val(g, ds)) == ds
  {
    if ds != [] {
      var init, d := ds[..|ds| - 1], ds[|ds| - 1];
      ValPositive(g, ds);
      QuotientOf(g, Val(g, init), d);
      NumeralOf(g, init);
      assert ds == init + [d];
    }
  }

  function Zeros(ds: seq<nat>): (z: nat)
    ensures z <= |ds| && (forall i :: 0 <= i < z ==> ds[i] == 0) && (z < |ds| ==> ds[z] != 0)
  {
    if ds == [] || ds[0] != 0 then 0 else 1 + Zeros(ds[1..])
  }

  function ZeroBytes(n: nat): seq<nat> { seq(n, i => 0) }

  function Ones(n: nat): string { seq(n, i => '1') }

  lemma {:induction false} ValSkipsZeros(g: nat, z: nat, ds: seq<nat>)
    requires z <= |ds| && forall i :: 0 <= i < z ==> ds[i] == 0
    ensures Val(g, ds) == Val(g, ds[z..])
    decreases |ds|
  {
    if z < |ds| {
      var init := ds[..|ds| - 1];
      ValSkipsZeros(g, z, init);
      assert ds[z..][..|ds| - z - 1] == init[z..];
    } else if ds != [] {
      ValSkipsZeros(g, z - 1, ds[..z - 1]);
      assert ds[..z - 1][z - 1..] == [];
    }
  }

  lemma {:induction false} ValBound(g: nat, ds: seq<nat>)
    requires g > 0 && Below(ds, g)
    ensures Val(g, ds) < Pow(g, |ds|)
  {
    if ds != [] {
      var init := ds[..|ds| - 1];
      ValBound(g, init);
      Products(g, Val(g, init) + 1, g, Pow(g, |ds| - 1));
      assert g * (Val(g, init) + 1) == g * Val(g, init) + g;
    }
  }

  lemma {:induction false} ValCons(g: nat, d: nat, ds: seq<nat>)
    ensures Val(g, [d] + ds) == d * Pow(g, |ds|) + Val(g, ds)
    decreases |ds|
  {
    if ds == [] {
      assert [d] + ds == [] + [d];
      ValSnoc(g, [], d);
    } else {
      var init, last := ds[..|ds| - 1], ds[|ds| - 1];
      ValCons(g, d, init);
      assert [d] + ds == ([d] + init) + [last];
      ValSnoc(g, [d] + init, last);
      var p, v := Pow(g, |init|), Val(g, init);
      Spread(g, d, p, v);
    }
  }

  lemma Spread(g: nat, d: nat, p: nat, v: nat)
    ensures g * (d * p + v) == d * (g * p) + g * v
  {
    assert g * (d * p + v) == g * (d * p) + g * v;
    TimesAssoc(d, g, p);
    TimesAssoc(g, d, p);
  }

  // ---------------------------------------------------------------------------------------------
  // Characters.

  function CharOf(d: nat): char
    requires d < 58
  {
    if d < 9 then (49 + d) as char
    else if d < 17 then (56 + d) as char
    else if d < 22 then (57 + d) as char
    else if d < 33 then (58 + d) as char
    else if d < 44 then (64 + d) as char
    else (65 + d) as char
  }

  /** No zero, no capital I or O, no small l. */
  function DigitOf(c: char): Option<nat> {
    var n := c as int;
    if '1' <= c <= '9' then Some(n - 49)
    else if 'A' <= c <= 'H' then Some(n - 56)
    else if 'J' <= c <= 'N' then Some(n - 57)
    else if 'P' <= c <= 'Z' then Some(n - 58)
    else if 'a' <= c <= 'k' then Some(n - 64)
    else if 'm' <= c <= 'z' then Some(n - 65)
    else None
  }

  lemma DigitBack(d: nat)
    requires d < 58
    ensures DigitOf(CharOf(d)) == Some(d) && !IsSpace(CharOf(d)) && CharOf(d) != '/' && CharOf(d) as int != 0
    ensures CharOf(d) == '1' <==> d == 0
  {
  }

  predicate IsSpace(c: char) { c == ' ' || 9 <= c as int <= 13 }

  predicate NotSpace(c: char) { !IsSpace(c) }

  predicate IsOne(c: char) { c == '1' }

  predicate NotNul(c: char) { c as int != 0 }

  function Chars(ds: seq<nat>): string
    requires Below(ds, 58)
  {
    seq(|ds|, i requires 0 <= i < |ds| => CharOf(ds[i]))
  }

  predicate AllDigits(s: string) { forall i :: 0 <= i < |s| ==> DigitOf(s[i]).Some? }

  function DigitsOf(s: string): (ds: seq<nat>)
    requires AllDigits(s)
    ensures Below(ds, 58)
  {
    seq(|s|, i requires 0 <= i < |s| => DigitOf(s[i]).value)
  }

  // ---------------------------------------------------------------------------------------------
  // What the two functions compute.

  /** `encodeBase58`. */
  function Text(b: seq<byte>): string {
    var z := Zeros(b);
    NumeralOk(58, Val(256, b[z..]));
    Ones(z) + Chars(Numeral(58, Val(256, b[z..])))
  }

  /** How many of the first characters satisfy `p`. */
  function Span(s: string, p: char -> bool): (n: nat)
    ensures n <= |s| && (forall i :: 0 <= i < n ==> p(s[i])) && (n < |s| ==> !p(s[n]))
  {
    if s == "" || !p(s[0]) then 0 else 1 + Span(s[1..], p)
  }

  /** A C string ends at the first zero character. */
  function CString(s: string): string { s[..Span(s, NotNul)] }

  predicate Spaces(s: string) { forall i :: 0 <= i < |s| ==> IsSpace(s[i]) }

  function SkipSpaces(s: string): string { s[Span(s, IsSpace)..] }

  /** `decodeBase58`: blanks, digits, blanks. */
  function Decode(w: string): Option<seq<byte>> {
    var s := SkipSpaces(CString(w));
    var z := Span(s, IsOne);
    DecodeDigits(z, s[z..])
  }

  /** Behind `z` ones: digits up to a blank, then blanks only. */
  function DecodeDigits(z: nat, r: string): Option<seq<byte>> {
    var n := Span(r, NotSpace);
    if AllDigits(r[..n]) && Spaces(r[n..]) then
      NumeralOk(256, Val(58, DigitsOf(r[..n])));
      Some(ZeroBytes(z) + Numeral(256, Val(58, DigitsOf(r[..n]))))
    else None
  }

  // ---------------------------------------------------------------------------------------------
  // Round trips.

  lemma {:induction false} SpanOf(s: string, p: char -> bool, n: nat)
    requires n <= |s| && (forall i :: 0 <= i < n ==> p(s[i])) && (n < |s| ==> !p(s[n]))
    ensures Span(s, p) == n
  {
  }

  lemma CharsBack(ds: seq<nat>)
    requires Below(ds, 58)
    ensures AllDigits(Chars(ds)) && DigitsOf(Chars(ds)) == ds
    ensures forall i :: 0 <= i < |ds| ==> var c := Chars(ds)[i]; !IsSpace(c) && c != '/' && c as int != 0
    ensures NoLeadingZero(ds) && ds != [] ==> Chars(ds)[0] != '1'
  {
    forall i | 0 <= i < |ds|
      ensures DigitOf(Chars(ds)[i]) == Some(ds[i])
      ensures !IsSpace(Chars(ds)[i]) && Chars(ds)[i] != '/' && Chars(ds)[i] as int != 0
    {
      DigitBack(ds[i]);
    }
    if NoLeadingZero(ds) && ds != [] { DigitBack(ds[0]); }
  }

  lemma DigitsBack(s: string)
    requires AllDigits(s)
    ensures Chars(DigitsOf(s)) == s && (s != "" && s[0] != '1' ==> NoLeadingZero(DigitsOf(s)))
  {
  }

  /** The parts of a text without blanks. */
  lemma DecodePlain(w: string, z: nat, core: string)
    requires w == Ones(z) + core && AllDigits(core) && (core != "" ==> core[0] != '1')
    requires forall i :: 0 <= i < |core| ==> !IsSpace(core[i]) && core[i] as int != 0
    ensures Decode(w) == Some(ZeroBytes(z) + Numeral(256, Val(58, DigitsOf(core))))
  {
    SpanOf(w, NotNul, |w|);
    assert CString(w) == w;
    SpanOf(w, IsSpace, 0);
    assert SkipSpaces(w) == w;
    SpanOf(w, IsOne, z);
    assert w[z..] == core;
    SpanOf(core, NotSpace, |core|);
    assert core[..|core|] == core && core[|core|..] == "";
  }

  /** The number behind the leading zeros. */
  lemma Significant(b: seq<byte>)
    ensures var z := Zeros(b); Below(b[z..], 256) && NoLeadingZero(b[z..]) && b == ZeroBytes(z) + b[z..]
  {
  }

  /** Decoding undoes encoding. */
  lemma RoundTrip(b: seq<byte>)
    ensures Decode(Text(b)) == Some(b)
  {
    var z := Zeros(b);
    Significant(b);
    var v := Val(256, b[z..]);
    var ds := Numeral(58, v);
    NumeralOk(58, v);
    CharsBack(ds);
    hide Val, Numeral, Zeros;
    DecodePlain(Text(b), z, Chars(ds));
    NumeralOf(256, b[z..]);
    assert Val(58, DigitsOf(Chars(ds))) == v && Numeral(256, v) == b[z..];
  }

  /** A printed text is a word: it has no slash, and is empty only for no bytes. */
  lemma TextIsPlain(b: seq<byte>)
    ensures (forall i :: 0 <= i < |Text(b)| ==> Text(b)[i] != '/') && (Text(b) == "" <==> b == [])
  {
    var z := Zeros(b);
    Significant(b);
    var v := Val(256, b[z..]);
    NumeralOk(58, v);
    CharsBack(Numeral(58, v));
    if b[z..] != [] { ValPositive(256, b[z..]); }
  }

  const NUMERALS := "123456789"
  const A_TO_H := "ABCDEFGH"
  const J_TO_N := "JKLMN"
  const P_TO_Z := "PQRSTUVWXYZ"
  const SMALL_A_TO_K := "abcdefghijk"
  const SMALL_M_TO_Z := "mnopqrstuvwxyz"

  /** The digits, the least first. */
  const ALPHABET := NUMERALS + A_TO_H + J_TO_N + P_TO_Z + SMALL_A_TO_K + SMALL_M_TO_Z

  lemma NumeralsRun(k: nat)
    requires k < |NUMERALS|
    ensures NUMERALS[k] == (49 + k) as char
  {
    assert k == 0 || k == 1 || k == 2 || k == 3 || k == 4 || k == 5 || k == 6 || k == 7 || k == 8;
  }

  lemma AToHRun(k: nat)
    requires k < |A_TO_H|
    ensures A_TO_H[k] == (65 + k) as char
  {
    assert k == 0 || k == 1 || k == 2 || k == 3 || k == 4 || k == 5 || k == 6 || k == 7;
  }

  lemma JToNRun(k: nat)
    requires k < |J_TO_N|
    ensures J_TO_N[k] == (74 + k) as char
  {
    assert k == 0 || k == 1 || k == 2 || k == 3 || k == 4;
  }

  lemma PToZRun(k: nat)
    requires k < |P_TO_Z|
    ensures P_TO_Z[k] == (80 + k) as char
  {
    assert k == 0 || k == 1 || k == 2 || k == 3 || k == 4 || k == 5 || k == 6 || k == 7 || k == 8 || k == 9 ||
      k == 10;
  }

  lemma SmallAToKRun(k: nat)
    requires k < |SMALL_A_TO_K|
    ensures SMALL_A_TO_K[k] == (97 + k) as char
  {
    assert k == 0 || k == 1 || k == 2 || k == 3 || k == 4 || k == 5 || k == 6 || k == 7 || k == 8 || k == 9 ||
      k == 10;
  }

  lemma SmallMToZRun(k: nat)
    requires k < |SMALL_M_TO_Z|
    ensures SMALL_M_TO_Z[k] == (109 + k) as char
  {
    assert k == 0 || k == 1 || k == 2 || k == 3 || k == 4 || k == 5 || k == 6 || k == 7 || k == 8 || k == 9 ||
      k == 10 || k == 11 || k == 12 || k == 13;
  }

  lemma AlphabetDigits(d: nat)
    requires d < 58
    ensures |ALPHABET| == 58 && CharOf(d) == ALPHABET[d]
  {
    if d < 9 {
      NumeralsRun(d);
    } else if d < 17 {
      AToHRun(d - 9);
    } else if d < 22 {
      JToNRun(d - 17);
    } else if d < 33 {
      PToZRun(d - 22);
    } else if d < 44 {
      SmallAToKRun(d - 33);
    } else {
      SmallMToZRun(d - 44);
    }
  }

  lemma CharBack(c: char)
    requires DigitOf(c).Some?
    ensures DigitOf(c).value < 58 && CharOf(DigitOf(c).value) == c
  {
  }

  /** A character is a digit exactly if it is in the alphabet, and then of the value of its place. */
  lemma AlphabetValues(c: char, d: nat)
    ensures DigitOf(c) == Some(d) <==> d < 58 && ALPHABET[d] == c
  {
    hide CharOf, DigitOf;
    assert |ALPHABET| == 58;
    if d < 58 {
      AlphabetDigits(d);
      DigitBack(d);
    }
    if DigitOf(c).Some? { CharBack(c); }
  }

  /**
   * The text of bytes denotes their number, both read with the most significant digit first, and begins with as many
   * ones as the bytes do with zeros.
   */
  lemma SameNumber(b: seq<byte>)
    ensures AllDigits(Text(b)) && Val(58, DigitsOf(Text(b))) == Val(256, b)
    ensures Span(Text(b), IsOne) == Zeros(b)
  {
    hide Val, Numeral, Zeros, Span, CharOf, DigitOf;
    var z := Zeros(b);
    Significant(b);
    var v := Val(256, b[z..]);
    var ds := Numeral(58, v);
    NumeralOk(58, v);
    CharsBack(ds);
    ValSkipsZeros(256, z, b);
    TextDigits(z, ds);
    var all := ZeroBytes(z) + ds;
    ValSkipsZeros(58, z, all);
    assert all[z..] == ds;
    SpanOf(Text(b), IsOne, z);
  }

  lemma TextDigits(z: nat, ds: seq<nat>)
    requires Below(ds, 58)
    ensures AllDigits(Ones(z) + Chars(ds)) && DigitsOf(Ones(z) + Chars(ds)) == ZeroBytes(z) + ds
  {
    hide CharOf;
    CharsBack(ds);
    var t := Ones(z) + Chars(ds);
    forall i | 0 <= i < |t| ensures DigitOf(t[i]) == Some((ZeroBytes(z) + ds)[i]) {
      if i >= z { assert DigitsOf(Chars(ds))[i - z] == ds[i - z]; }
    }
  }

  /** Exactly the words of blanks, up to a zero character, decode to no bytes. */
  lemma BlankExactly(w: string)
    ensures Decode(w) == Some([]) <==> Spaces(CString(w))
  {
    var s := SkipSpaces(CString(w));
    var z := Span(s, IsOne);
    var r := s[z..];
    var n := Span(r, NotSpace);
    if Spaces(CString(w)) {
      SpanOf(CString(w), IsSpace, |CString(w)|);
      assert s == "" && r == "" && r[..n] == "" && r[n..] == "" && DigitsOf("") == [];
      assert Decode(w) == Some(ZeroBytes(0) + []);
      assert ZeroBytes(0) + [] == [];
    } else {
      assert s != "" && !IsSpace(s[0]);
      if z == 0 && AllDigits(r[..n]) {
        assert n > 0 && r[0] != '1';
        DigitsBack(r[..n]);
        NoneIsZero(DigitsOf(r[..n]));
      }
    }
  }

  /** Printing what was decoded gives the word without its blanks. */
  lemma DecodeThenPrint(w: string)
    requires Decode(w).Some?
    ensures var s := SkipSpaces(CString(w)); Text(Decode(w).value) == s[..Span(s, NotSpace)]
  {
    hide Text, Val, Numeral, CString, SkipSpaces;
    var s := SkipSpaces(CString(w));
    var z := Span(s, IsOne);
    var r := s[z..];
    var n := Span(r, NotSpace);
    SpanOf(s, NotSpace, z + n);
    assert s[..z + n] == Ones(z) + r[..n];
    PrintDigits(z, r[..n]);
  }

  lemma PrintDigits(z: nat, core: string)
    requires AllDigits(core) && (core != "" ==> core[0] != '1')
    ensures var b := ZeroBytes(z) + Numeral(256, Val(58, DigitsOf(core)));
            Below(b, 256) && Text(b) == Ones(z) + core
  {
    var ds := DigitsOf(core);
    var v := Val(58, ds);
    var tail := Numeral(256, v);
    NumeralOk(256, v);
    var b := ZeroBytes(z) + tail;
    ZerosOf(b, z);
    assert b[z..] == tail;
    DigitsBack(core);
    NumeralOf(58, ds);
  }

  lemma NoneIsZero(ds: seq<nat>)
    requires ds != [] && NoLeadingZero(ds)
    ensures Numeral(256, Val(58, ds)) != []
  {
    ValPositive(58, ds);
    NumeralOk(256, Val(58, ds));
  }

  // ---------------------------------------------------------------------------------------------
  // The loops.

  function DivMod(g: Base, t: nat): (x: (nat, nat))
    ensures t == g * x.0 + x.1 && x.1 < g
  {
    if g == 58 then (t / 58, t % 58) else (t / 256, t % 256)
  }

  /** One digit is multiplied and takes up the carry; `p` is its weight. */
  lemma CarryStep(g: nat, p: nat, carry: nat, factor: nat, digit: nat, q: nat, r: nat, low: nat, was: nat, add: nat)
    requires low + carry * p == factor * was + add && carry + factor * digit == g * q + r
    ensures r * p + low + q * (g * p) == factor * (digit * p + was) + add
  {
    assert (carry + factor * digit) * p == carry * p + factor * digit * p;
    assert (g * q + r) * p == g * q * p + r * p;
    assert factor * (digit * p + was) == factor * (digit * p) + factor * was;
    TimesAssoc(factor, digit, p);
    TimesAssoc(q, g, p);
    assert q * g == g * q;
  }

  /** The last `used` digits of `was` are multiplied; `carry` is still to be added before them. */
  ghost predicate Midway(was: seq<nat>, now: seq<nat>, g: nat, factor: nat, add: nat, carry: nat, used: nat) {
    && |now| == |was| && used <= |now| && Below(now, g)
    && var z := |now| - used;
       && now[..z] == was[..z]
       && Val(g, now[z..]) + carry * Pow(g, used) == factor * Val(g, was[z..]) + add
  }

  lemma MidwayStart(was: seq<nat>, g: nat, factor: nat, add: nat)
    requires Below(was, g)
    ensures Midway(was, was, g, factor, add, add, 0)
  {
    assert was[|was|..] == [];
  }

  lemma MidwayStep(was: seq<nat>, now: seq<nat>, g: Base, factor: nat, add: nat, carry: nat, used: nat, q: nat, r: nat)
    requires Midway(was, now, g, factor, add, carry, used) && used < |now|
    requires (q, r) == DivMod(g, carry + factor * now[|now| - 1 - used])
    ensures Midway(was, now[|now| - 1 - used := r], g, factor, add, q, used + 1)
  {
    hide Val;
    var z, j := |now| - used, |now| - 1 - used;
    var next, low := now[j := r], now[z..];
    assert now[j] == now[..z][j] == was[..z][j];
    CarryStep(g, Pow(g, used), carry, factor, now[j], q, r, Val(g, low), Val(g, was[z..]), add);
    assert was[j..] == [was[j]] + was[z..] && next[j..] == [r] + low;
    ValCons(g, was[j], was[z..]);
    ValCons(g, r, low);
    assert next[..j] == now[..z][..j] == was[..z][..j] == was[..j];
  }

  /** Multiplies the number in `a` by `factor` and adds `add`, in place; only the last `length` digits are in use. */
  method MulAdd(a: array<nat>, g: Base, factor: nat, add: nat, length: nat) returns (carry: nat, used: nat)
    requires Below(a[..], g) && length <= a.Length && forall k :: 0 <= k < a.Length - length ==> a[k] == 0
    modifies a
    ensures Below(a[..], g) && used <= a.Length && (forall k :: 0 <= k < a.Length - used ==> a[k] == 0)
    ensures Val(g, a[..]) + carry * Pow(g, a.Length) == factor * Val(g, old(a[..])) + add
  {
    hide Midway, Val, Pow, DivMod;
    ghost var was := a[..];
    carry, used := add, 0;
    MidwayStart(was, g, factor, add);
    while (carry != 0 || used < length) && used < a.Length
      invariant used <= a.Length && Midway(was, a[..], g, factor, add, carry, used)
      decreases a.Length - used
    {
      var j := a.Length - 1 - used;
      var (q, r) := DivMod(g, carry + factor * a[j]);
      MidwayStep(was, a[..], g, factor, add, carry, used, q, r);
      ghost var next := a[..][j := r];
      a[j] := r;
      assert a[..] == next;
      carry, used := q, used + 1;
    }
    MidwayEnd(was, a[..], g, factor, add, carry, used, length);
  }

  lemma MidwayEnd(was: seq<nat>, now: seq<nat>, g: nat, factor: nat, add: nat, carry: nat, used: nat, length: nat)
    requires Midway(was, now, g, factor, add, carry, used) && length <= |now|
    requires used < |now| ==> length <= used && carry == 0
    requires forall k :: 0 <= k < |was| - length ==> was[k] == 0
    ensures Below(now, g) && (forall k :: 0 <= k < |now| - used ==> now[k] == 0)
    ensures Val(g, now) + carry * Pow(g, |now|) == factor * Val(g, was) + add
  {
    hide Val, Pow;
    MulAddEnd(was, now, g, used, length);
  }

  /** The digits before those worked on are zeros. */
  lemma MulAddEnd(was: seq<nat>, now: seq<nat>, g: nat, used: nat, length: nat)
    requires |was| == |now| && used <= |now| && length <= |now| && (used < |now| ==> length <= used)
    requires now[..|now| - used] == was[..|now| - used] && forall k :: 0 <= k < |was| - length ==> was[k] == 0
    ensures Val(g, now) == Val(g, now[|now| - used..]) && Val(g, was) == Val(g, was[|now| - used..])
    ensures forall k :: 0 <= k < |now| - used ==> now[k] == 0
  {
    var z := |now| - used;
    forall k | 0 <= k < z
      ensures now[k] == 0 && was[k] == 0
    {
      assert now[k] == now[..z][k] == was[..z][k];
    }
    ValSkipsZeros(g, z, now);
    ValSkipsZeros(g, z, was);
  }

  lemma {:induction false} ZerosOf(ds: seq<nat>, n: nat)
    requires n <= |ds| && (forall i :: 0 <= i < n ==> ds[i] == 0) && (n < |ds| ==> ds[n] != 0)
    ensures Zeros(ds) == n
  {
  }

  /** A carry out of a buffer that holds the result is impossible. */
  lemma NoCarry(g: nat, size: nat, now: nat, carry: nat, value: nat)
    requires now + carry * Pow(g, size) == value < Pow(g, size)
    ensures carry == 0
  {
    if carry > 0 { Products(1, Pow(g, size), carry, Pow(g, size)); }
  }

  lemma ValPrefix(g: nat, ds: seq<nat>, lo: nat, i: nat)
    requires lo <= i < |ds|
    ensures Val(g, ds[lo..i + 1]) == g * Val(g, ds[lo..i]) + ds[i]
  {
    assert ds[lo..i + 1] == ds[lo..i] + [ds[i]];
    ValSnoc(g, ds[lo..i], ds[i]);
  }

  lemma ByteFits(b: seq<byte>, z: nat, i: nat)
    requires z <= i < |b|
    ensures Val(256, b[z..i + 1]) < Pow(58, TextSize(|b| - z))
  {
    ValBound(256, b[z..i + 1]);
    PowLonger(256, i + 1 - z, |b| - z);
    TextFits(|b| - z);
  }

  /** The first nonzero digit, searched from a place before which all are zero. */
  method SkipZeros(a: array<nat>, start: nat) returns (at: nat)
    requires start <= a.Length && forall k :: 0 <= k < start ==> a[k] == 0
    ensures at <= a.Length && at == Zeros(a[..])
  {
    at := start;
    while at < a.Length && a[at] == 0
      invariant at <= a.Length && forall k :: 0 <= k < at ==> a[k] == 0
    {
      at := at + 1;
    }
    ZerosOf(a[..], at);
  }

  /** Without its leading zeros the content of a buffer is the numeral of its value. */
  lemma BufferNumeral(g: Base, ds: seq<nat>)
    requires Below(ds, g)
    ensures ds[Zeros(ds)..] == Numeral(g, Val(g, ds))
  {
    ValSkipsZeros(g, Zeros(ds), ds);
    NumeralOf(g, ds[Zeros(ds)..]);
  }

  /** The number of `b` in base 58, computed in a buffer of the estimated size. */
  method Convert58(b: seq<byte>, z: nat) returns (a: array<nat>, length: nat)
    requires z <= |b|
    ensures fresh(a) && length <= a.Length && Below(a[..], 58) && (forall k :: 0 <= k < a.Length - length ==> a[k] == 0)
    ensures Val(58, a[..]) == Val(256, b[z..])
  {
    hide Val, Pow, TextSize;
    var size := TextSize(|b| - z);
    a := new nat[size](_ => 0);
    length := 0;
    ValOfZeros(58, a[..]);
    assert b[z..z] == [];
    ValOfZeros(256, b[z..z]);
    var i := z;
    while i < |b|
      invariant z <= i <= |b| && length <= a.Length == size && Below(a[..], 58)
      invariant forall k :: 0 <= k < a.Length - length ==> a[k] == 0
      invariant Val(58, a[..]) == Val(256, b[z..i])
    {
      var carry;
      carry, length := MulAdd(a, 58, 256, b[i], length);
      ValPrefix(256, b, z, i);
      ByteFits(b, z, i);
      NoCarry(58, size, Val(58, a[..]), carry, Val(256, b[z..i + 1]));
      i := i + 1;
    }
    assert b[z..|b|] == b[z..];
  }

  lemma ValOfZeros(g: nat, ds: seq<nat>)
    requires forall i :: 0 <= i < |ds| ==> ds[i] == 0
    ensures Val(g, ds) == 0
  {
    ValSkipsZeros(g, |ds|, ds);
    assert ds[|ds|..] == [];
  }

  /** The digits of the buffer as characters. */
  method Translate(prefix: string, a: array<nat>, start: nat) returns (str: string)
    requires start <= a.Length && Below(a[start..], 58)
    ensures str == prefix + Chars(a[start..])
  {
    str := prefix;
    var at := start;
    assert Chars([]) == "" && str + "" == str;
    while at < a.Length
      invariant start <= at <= a.Length && Below(a[start..at], 58) && str == prefix + Chars(a[start..at])
    {
      assert a[at] == a[start..][at - start];
      assert a[start..at + 1] == a[start..at] + [a[at]];
      assert Chars(a[start..at + 1]) == Chars(a[start..at]) + [CharOf(a[at])];
      str := str + [CharOf(a[at])];
      at := at + 1;
    }
    assert a[start..a.Length] == a[start..];
  }

  /** `encodeImpl`. */
  method EncodeImpl(b: seq<byte>) returns (str: string)
    ensures str == Text(b)
  {
    hide Val, Numeral;
    var z := 0;
    while z < |b| && b[z] == 0
      invariant z <= |b| && forall k :: 0 <= k < z ==> b[k] == 0
    {
      z := z + 1;
    }
    ZerosOf(b, z);
    var a, length := Convert58(b, z);
    var start := SkipZeros(a, a.Length - length);
    BufferNumeral(58, a[..]);
    str := Translate(Ones(z), a, start);
  }

  lemma DigitFits(s: string, lo: nat, i: nat)
    requires lo <= i < |s| && AllDigits(s[lo..i + 1])
    ensures AllDigits(s[lo..i]) && DigitOf(s[i]).Some?
    ensures Val(58, DigitsOf(s[lo..i + 1])) == 58 * Val(58, DigitsOf(s[lo..i])) + DigitOf(s[i]).value
    ensures Val(58, DigitsOf(s[lo..i + 1])) < Pow(256, ByteSize(|s| - lo))
  {
    hide Val, DigitOf;
    assert s[lo..i + 1] == s[lo..i] + [s[i]];
    assert s[lo..i + 1][i - lo] == s[i];
    assert AllDigits(s[lo..i]) by { assert forall k :: 0 <= k < i - lo ==> s[lo..i][k] == s[lo..i + 1][k]; }
    var ds := DigitsOf(s[lo..i + 1]);
    assert ds == DigitsOf(s[lo..i]) + [DigitOf(s[i]).value];
    ValSnoc(58, DigitsOf(s[lo..i]), DigitOf(s[i]).value);
    ValBound(58, ds);
    PowLonger(58, i + 1 - lo, |s| - lo);
    BytesFit(|s| - lo);
  }

  /** The digits from `lo` on, up to a blank, as a number in base 256; nothing if a character is no digit. */
  method Convert256(s: string, lo: nat) returns (a: array<nat>, length: nat, i: nat, ok: bool)
    requires lo <= |s|
    ensures fresh(a) && lo <= i <= |s| && length <= a.Length
    ensures Below(a[..], 256) && (forall k :: 0 <= k < a.Length - length ==> a[k] == 0)
    ensures forall k :: lo <= k < i ==> !IsSpace(s[k])
    ensures ok ==> (i < |s| ==> IsSpace(s[i])) && AllDigits(s[lo..i]) && Val(256, a[..]) == Val(58, DigitsOf(s[lo..i]))
    ensures !ok ==> i < |s| && !IsSpace(s[i]) && DigitOf(s[i]).None?
  {
    hide Val, Pow, ByteSize, DigitOf, IsSpace;
    var size := ByteSize(|s| - lo);
    a := new nat[size](_ => 0);
    length, i := 0, lo;
    ValOfZeros(256, a[..]);
    assert DigitsOf(s[lo..lo]) == [];
    ValOfZeros(58, DigitsOf(s[lo..lo]));
    while i < |s| && !IsSpace(s[i])
      invariant lo <= i <= |s| && length <= a.Length == size && Below(a[..], 256)
      invariant forall k :: 0 <= k < a.Length - length ==> a[k] == 0
      invariant forall k :: lo <= k < i ==> !IsSpace(s[k])
      invariant AllDigits(s[lo..i]) && Val(256, a[..]) == Val(58, DigitsOf(s[lo..i]))
    {
      var d := DigitOf(s[i]);
      if d.None? {
        return a, length, i, false;
      }
      OneMoreDigit(s, lo, i);
      DigitFits(s, lo, i);
      var carry;
      carry, length := MulAdd(a, 256, 58, d.value, length);
      NoCarry(256, size, Val(256, a[..]), carry, Val(58, DigitsOf(s[lo..i + 1])));
      if carry != 0 {
        assert false;
      }
      i := i + 1;
    }
    ok := true;
  }

  lemma OneMoreDigit(s: string, lo: nat, i: nat)
    requires lo <= i < |s| && AllDigits(s[lo..i]) && DigitOf(s[i]).Some?
    ensures AllDigits(s[lo..i + 1])
  {
    hide DigitOf;
    var all, init := s[lo..i + 1], s[lo..i];
    forall k | 0 <= k < |all|
      ensures DigitOf(all[k]).Some?
    {
      if k < |init| { assert all[k] == init[k]; }
    }
  }

  /** How far a run of characters goes. */
  method Skip(s: string, start: nat, p: char -> bool) returns (i: nat)
    requires start <= |s|
    ensures start <= i <= |s| && i - start == Span(s[start..], p)
  {
    i := start;
    while i < |s| && p(s[i])
      invariant start <= i <= |s| && forall k :: start <= k < i ==> p(s[k])
    {
      i := i + 1;
    }
    SpanOf(s[start..], p, i - start);
  }

  /** The digits behind `z` ones, from `lo` on. */
  method DecodeFrom(s: string, z: nat, lo: nat) returns (r: Option<seq<byte>>)
    requires lo <= |s|
    ensures r == DecodeDigits(z, s[lo..])
  {
    hide Val, Numeral, Span, IsSpace, DigitOf;
    var a, length, i, ok := Convert256(s, lo);
    CoreParts(s, lo, i, ok);
    if !ok {
      return None;
    }
    var last := Skip(s, i, IsSpace);
    assert s[lo..][i - lo..] == s[i..];
    SpacesTo(s[i..]);
    if last < |s| {
      return None;
    }
    var start := SkipZeros(a, a.Length - length);
    BufferNumeral(256, a[..]);
    assert a[..][start..] == a[start..];
    r := Some(ZeroBytes(z) + a[start..]);
  }

  /** `decodeImpl` on the characters before the terminating zero. */
  method DecodeImpl(w: string) returns (r: Option<seq<byte>>)
    ensures r == Decode(w)
  {
    hide Decode, DecodeDigits, Span;
    var end := Skip(w, 0, NotNul);
    assert w[0..] == w;
    var s := w[..end];
    var one := Skip(s, 0, IsSpace);
    assert s[0..] == s;
    var lo := Skip(s, one, IsOne);
    DecodeIs(w, s, one, lo);
    r := DecodeFrom(s, lo - one, lo);
  }

  lemma DecodeIs(w: string, s: string, one: nat, lo: nat)
    requires s == w[..Span(w, NotNul)] && one <= lo <= |s| && one == Span(s, IsSpace)
    requires lo - one == Span(s[one..], IsOne)
    ensures Decode(w) == DecodeDigits(lo - one, s[lo..])
  {
    hide DecodeDigits, Span;
    assert CString(w) == s && SkipSpaces(s) == s[one..];
    assert s[one..][lo - one..] == s[lo..];
  }

  lemma CoreParts(s: string, lo: nat, i: nat, ok: bool)
    requires lo <= i <= |s| && forall k :: lo <= k < i ==> !IsSpace(s[k])
    requires ok ==> (i < |s| ==> IsSpace(s[i])) && AllDigits(s[lo..i])
    requires !ok ==> i < |s| && !IsSpace(s[i]) && DigitOf(s[i]).None?
    ensures var core := s[lo..];
            var n := Span(core, NotSpace);
            if ok then n == i - lo && core[..n] == s[lo..i] else !AllDigits(core[..n])
  {
    var core := s[lo..];
    var n := Span(core, NotSpace);
    if ok {
      SpanOf(core, NotSpace, i - lo);
    } else {
      assert forall k :: 0 <= k <= i - lo ==> core[k] == s[lo + k];
      assert n > i - lo;
      assert core[..n][i - lo] == s[i];
    }
  }

  lemma SpacesTo(s: string)
    ensures Spaces(s) <==> Span(s, IsSpace) == |s|
  {
    if Spaces(s) { SpanOf(s, IsSpace, |s|); }
  }
}
