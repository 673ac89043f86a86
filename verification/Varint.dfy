/**
 * Unsigned varints (LEB128): the encoder and the two independent decoders, src/multi/uvarint.cpp and
 * src/basic/varint_prefix_reader.cpp. Both decoders accept exactly the same byte strings with the same values,
 * however the bytes are cut into pieces.
 */
module Varint {
  import opened Basics

  const LIMIT: nat := 0x1_0000_0000_0000_0000

  type u64 = x: int | 0 <= x < 0x1_0000_0000_0000_0000

  const MAX_BYTES := 10

  // ---------------------------------------------------------------------------------------------
  // Meaning.

  /** Seven bits a byte, the low ones first. */
  function Value(bs: seq<byte>): nat {
    if bs == [] then 0 else bs[0] % 128 + 128 * Value(bs[1..])
  }

  /** `bs` starts with a varint of `n` bytes that fits into 64 bits. */
  predicate Accepts(bs: seq<byte>, n: nat) {
    && 0 < n <= |bs| && n <= MAX_BYTES
    && (forall k :: 0 <= k < n - 1 ==> bs[k] >= 128) && bs[n - 1] < 128
    && (n == MAX_BYTES ==> bs[n - 1] <= 1)
  }

  lemma OneAcceptance(bs: seq<byte>, n: nat, m: nat)
    requires Accepts(bs, n) && Accepts(bs, m)
    ensures n == m
  {
  }

  function Pow128(n: nat): nat { if n == 0 then 1 else 128 * Pow128(n - 1) }

  /** What byte `b` contributes at place `i`. */
  function Term(b: byte, i: nat): nat { b % 128 * Pow128(i) }

  lemma TermUp(b: byte, i: nat)
    ensures Term(b, i + 1) == 128 * Term(b, i)
  {
    var x: nat, p := b % 128, Pow128(i);
    assert x * (128 * p) == 128 * (x * p);
  }

  lemma {:induction false} ValueSnoc(bs: seq<byte>, b: byte)
    ensures Value(bs + [b]) == Value(bs) + Term(b, |bs|)
  {
    if bs == [] {
      assert ([] + [b])[1..] == [];
    } else {
      assert (bs + [b])[1..] == bs[1..] + [b];
      ValueSnoc(bs[1..], b);
      TermUp(b, |bs| - 1);
    }
  }

  lemma {:induction false} ValueBound(bs: seq<byte>)
    ensures Value(bs) < Pow128(|bs|)
  {
    if bs != [] { ValueBound(bs[1..]); }
  }

  lemma PowerNine()
    ensures Pow128(9) == 0x8000_0000_0000_0000
  {
    assert Pow128(3) == 0x20_0000;
    assert Pow128(6) == 0x20_0000 * 0x20_0000 by { assert Pow128(6) == 128 * (128 * (128 * Pow128(3))); }
    assert Pow128(9) == 128 * (128 * (128 * Pow128(6)));
  }

  lemma {:induction false} PowerGrows(a: nat, b: nat)
    requires a <= b
    ensures 0 < Pow128(a) <= Pow128(b)
    decreases b
  {
    if a < b { PowerGrows(a, b - 1); } else if b > 0 { PowerGrows(a - 1, b - 1); }
  }

  /** What is accepted fits. */
  lemma AcceptedFits(bs: seq<byte>, n: nat)
    requires Accepts(bs, n)
    ensures Value(bs[..n]) < LIMIT
  {
    PowerNine();
    var init := bs[..n - 1];
    assert bs[..n] == init + [bs[n - 1]];
    ValueSnoc(init, bs[n - 1]);
    ValueBound(init);
    if n < MAX_BYTES {
      ValueBound(bs[..n]);
      PowerGrows(n, 9);
    }
  }

  // ---------------------------------------------------------------------------------------------
  // Encoding.

  function Encode(n: nat): (bs: seq<byte>)
    ensures bs != []
  {
    if n < 128 then [n] else [128 + n % 128] + Encode(n / 128)
  }

  lemma {:induction false} EncodedShape(n: nat)
    ensures var bs := Encode(n);
            && Value(bs) == n && bs[|bs| - 1] < 128 && (|bs| > 1 ==> bs[|bs| - 1] > 0)
            && (forall k :: 0 <= k < |bs| - 1 ==> bs[k] >= 128)
  {
    if n >= 128 {
      EncodedShape(n / 128);
      assert Encode(n)[1..] == Encode(n / 128);
    } else {
      assert [n as byte][1..] == [];
    }
  }

  /** A value below 128^k needs at most k bytes. */
  lemma {:induction false} EncodeLength(n: nat, k: nat)
    requires k > 0 && n < Pow128(k)
    ensures |Encode(n)| <= k
    decreases k
  {
    if n >= 128 {
      assert k > 1 by { assert Pow128(1) == 128; }
      EncodeLength(n / 128, k - 1);
    }
  }

  lemma EncodedAccepted(n: nat, rest: seq<byte>)
    requires n < LIMIT
    ensures Accepts(Encode(n) + rest, |Encode(n)|)
  {
    EncodedShape(n);
    PowerNine();
    assert Pow128(10) == 128 * Pow128(9);
    EncodeLength(n, 10);
    var bs := Encode(n);
    if |bs| == MAX_BYTES {
      assert bs == bs[..9] + [bs[9]];
      ValueSnoc(bs[..9], bs[9]);
      assert Term(bs[9], 9) <= n;
    }
  }

  /** Every accepted encoding of a value is at least as long as the one the encoder makes. */
  lemma EncodingIsShortest(bs: seq<byte>, n: nat)
    requires Accepts(bs, n)
    ensures |Encode(Value(bs[..n]))| <= n
  {
    ValueBound(bs[..n]);
    EncodeLength(Value(bs[..n]), n);
  }

  /** The same value with the same length means the same bytes. */
  lemma {:induction false} SameLengthSameBytes(a: seq<byte>, b: seq<byte>)
    requires |a| == |b| && a != [] && Value(a) == Value(b) && a[|a| - 1] < 128 && b[|b| - 1] < 128
    requires forall k :: 0 <= k < |a| - 1 ==> a[k] >= 128 && b[k] >= 128
    ensures a == b
  {
    hide Encode;
    assert Value(a) % 128 == a[0] % 128 && Value(b) % 128 == b[0] % 128;
    if |a| > 1 {
      SameLengthSameBytes(a[1..], b[1..]);
      assert a == [a[0]] + a[1..] && b == [b[0]] + b[1..];
    } else {
      assert a == [a[0]] && b == [b[0]];
    }
  }

  /** An accepted encoding is the encoder's own exactly when it is no longer than that. */
  lemma CanonicalWhenShortest(bs: seq<byte>, n: nat)
    requires Accepts(bs, n)
    ensures bs[..n] == Encode(Value(bs[..n])) <==> |Encode(Value(bs[..n]))| == n
  {
    var a, e := bs[..n], Encode(Value(bs[..n]));
    EncodedShape(Value(a));
    if |e| == n { SameLengthSameBytes(a, e); }
  }

  /** No proper prefix of an encoding is accepted. */
  lemma PrefixRejected(n: nat, k: nat, m: nat)
    requires k < |Encode(n)|
    ensures !Accepts(Encode(n)[..k], m)
  {
    EncodedShape(n);
    if m <= k && m > 0 { assert Encode(n)[..k][m - 1] == Encode(n)[m - 1]; }
  }

  /** The constructor's loop. */
  method EncodeLoop(number: u64) returns (bytes: seq<byte>)
    ensures bytes == Encode(number)
  {
    bytes := [];
    var low: nat, rest: nat := number % 128, number / 128;
    while rest != 0
      invariant low < 128 && bytes + Encode(low + 128 * rest) == Encode(number)
      decreases rest
    {
      var b: byte := 128 + low;
      Assoc(bytes, [b], Encode(rest));
      bytes := bytes + [b];
      low, rest := rest % 128, rest / 128;
    }
    var b: byte := low;
    bytes := bytes + [b];
  }

  // ---------------------------------------------------------------------------------------------
  // UVarint.

  /** `slice << shift >> shift` on 64 bits. */
  function ShiftedBack(slice: nat, power: nat): int
    requires power > 0
  {
    slice * power % LIMIT / power
  }

  /** The slice survives the shift by 7 * i bits exactly up to the tenth byte, of which one bit fits. */
  lemma SliceFits(slice: nat, i: nat)
    requires slice < 128 && i < MAX_BYTES
    ensures Pow128(i) > 0 && (ShiftedBack(slice, Pow128(i)) == slice <==> i < 9 || slice <= 1)
  {
    PowerNine();
    PowerGrows(i, 9);
    if i < 9 {
      SmallShift(slice, Pow128(i));
    } else {
      TopShift(slice);
    }
  }

  lemma SmallShift(slice: nat, p: nat)
    requires slice < 128 && 0 < p && 128 * p <= 0x8000_0000_0000_0000
    ensures slice * p % LIMIT / p == slice
  {
    var x := slice * p;
    assert 0 <= x < 128 * p;
    assert x % LIMIT == x;
    QuotientIs(x, p, slice);
  }

  lemma QuotientIs(x: nat, p: nat, q: nat)
    requires p > 0 && x == q * p
    ensures x / p == q
  {
    var d, r := x / p - q, x % p;
    assert x == (q + d) * p + r;
    assert d * p + r == 0;
    assert d == 0 by { SmallMultiple(d, p, r); }
  }

  lemma SmallMultiple(d: int, p: nat, r: nat)
    requires r < p && d * p + r == 0
    ensures d == 0
  {
    assert d > 0 ==> d * p >= p;
    assert d < 0 ==> d * p + p <= 0;
  }

  lemma TopShift(slice: nat)
    requires slice < 128
    ensures slice * 0x8000_0000_0000_0000 % LIMIT / 0x8000_0000_0000_0000 == slice % 2
  {
    var h := 0x8000_0000_0000_0000;
    var q, r := slice / 2, slice % 2;
    assert slice * h == q * LIMIT + r * h;
    assert slice * h % LIMIT == r * h;
  }

  method CalculateSize(bs: seq<byte>) returns (size: nat)
    ensures size > 0 ==> Accepts(bs, size)
    ensures size == 0 ==> forall n: nat :: !Accepts(bs, n)
  {
    size := 0;
    while size < |bs|
      invariant 0 <= size <= |bs| && size <= MAX_BYTES
      invariant forall k :: 0 <= k < size ==> bs[k] >= 128
    {
      var i := size;
      size := size + 1;
      var slice := bs[i] % 128;
      if i >= MAX_BYTES {
        return 0;
      }
      SliceFits(slice, i);
      if ShiftedBack(slice, Pow128(i)) != slice {
        assert forall n: nat :: Accepts(bs, n) ==> n <= i || n == 10;
        return 0;
      }
      if bs[i] < 128 {
        return;
      }
    }
    size := 0;
  }

  /** `create` and `toUInt64` together. */
  method Decode(bs: seq<byte>) returns (r: Option<(u64, nat)>)
    ensures r.Some? ==> Accepts(bs, r.value.1) && r.value.0 == Value(bs[..r.value.1])
    ensures r.None? ==> forall n: nat :: !Accepts(bs, n)
  {
    var size := CalculateSize(bs);
    if size == 0 {
      return None;
    }
    AcceptedFits(bs, size);
    var v := ToUInt64(bs[..size]);
    r := Some((v, size));
  }

  lemma {:induction false} ValuePrefix(bs: seq<byte>, k: nat)
    requires k <= |bs|
    ensures Value(bs[..k]) <= Value(bs)
  {
    if k > 0 {
      assert bs[..k][1..] == bs[1..][..k - 1];
      ValuePrefix(bs[1..], k - 1);
    }
  }

  lemma NoWrap(x: nat)
    requires x < LIMIT
    ensures x % LIMIT == x
  {
  }

  /** The accumulation on 64 bits. */
  method ToUInt64(bs: seq<byte>) returns (res: u64)
    requires Value(bs) < LIMIT
    ensures res == Value(bs)
  {
    res := 0;
    var i := 0;
    while i < |bs|
      invariant 0 <= i <= |bs| && res == Value(bs[..i])
    {
      assert bs[..i + 1] == bs[..i] + [bs[i]];
      ValueSnoc(bs[..i], bs[i]);
      ValuePrefix(bs, i + 1);
      var term := Term(bs[i], i);
      NoWrap(term);
      NoWrap(res + term);
      res := (res + term % LIMIT) % LIMIT;
      i := i + 1;
    }
    assert bs[..i] == bs;
  }

  // ---------------------------------------------------------------------------------------------
  // VarintPrefixReader.

  datatype Status = Underflow | Ready | Overflow

  /** `got` bytes taken so far. */
  datatype Reader = Reader(value: nat, status: Status, got: nat)

  const Fresh := Reader(0, Underflow, 0)

  /** One byte; only a reader that wants more changes. */
  function Feed(r: Reader, b: byte): Reader {
    if !r.status.Underflow? then r
    else if r.got + 1 == MAX_BYTES && (b % 128 > 1 || b >= 128) then Reader(r.value, Overflow, r.got + 1)
    else Reader(r.value + Term(b, r.got), if b < 128 then Ready else Underflow, r.got + 1)
  }

  function FeedAll(r: Reader, bs: seq<byte>): Reader
    decreases |bs|
  {
    if bs == [] then r else FeedAll(Feed(r, bs[0]), bs[1..])
  }

  lemma {:induction false} FeedSnoc(r: Reader, bs: seq<byte>, b: byte)
    ensures FeedAll(r, bs + [b]) == Feed(FeedAll(r, bs), b)
    decreases |bs|
  {
    if bs == [] {
      assert ([] + [b])[1..] == [];
    } else {
      assert (bs + [b])[1..] == bs[1..] + [b];
      FeedSnoc(Feed(r, bs[0]), bs[1..], b);
    }
  }

  lemma {:induction false} FeedAppend(r: Reader, a: seq<byte>, b: seq<byte>)
    ensures FeedAll(r, a + b) == FeedAll(FeedAll(r, a), b)
    decreases |a|
  {
    if a == [] {
      assert a + b == b;
    } else {
      assert (a + b)[1..] == a[1..] + b;
      FeedAppend(Feed(r, a[0]), a[1..], b);
    }
  }

  /** Where the reader stands after the bytes `bs`. */
  ghost predicate Stands(bs: seq<byte>, r: Reader) {
    match r.status
    case Underflow => r.got == |bs| < MAX_BYTES && r.value == Value(bs) && forall k :: 0 <= k < |bs| ==> bs[k] >= 128
    case Ready => Accepts(bs, r.got) && r.value == Value(bs[..r.got])
    case Overflow => |bs| >= MAX_BYTES && forall n: nat :: !Accepts(bs, n)
  }

  lemma {:induction false} ReaderStands(bs: seq<byte>)
    ensures Stands(bs, FeedAll(Fresh, bs))
    decreases |bs|
  {
    if bs != [] {
      var init, b := bs[..|bs| - 1], bs[|bs| - 1];
      assert bs == init + [b];
      ReaderStands(init);
      FeedSnoc(Fresh, init, b);
      StandsOn(init, FeedAll(Fresh, init), b);
    }
  }

  lemma StandsOn(init: seq<byte>, r: Reader, b: byte)
    requires Stands(init, r)
    ensures Stands(init + [b], Feed(r, b))
  {
    var bs := init + [b];
    ValueSnoc(init, b);
    match r.status
    case Underflow =>
      assert bs[..|bs|] == bs;
      if r.got + 1 == MAX_BYTES && (b % 128 > 1 || b >= 128) {
        forall n: nat ensures !Accepts(bs, n) { assert n > 0 && n <= |init| ==> bs[n - 1] == init[n - 1]; }
      }
    case Ready => assert bs[..r.got] == init[..r.got];
    case Overflow =>
      forall n: nat ensures !Accepts(bs, n) { AcceptsWithin(init, b, n); }
  }

  lemma AcceptsWithin(init: seq<byte>, b: byte, n: nat)
    requires |init| >= MAX_BYTES
    ensures Accepts(init + [b], n) ==> Accepts(init, n)
  {
    assert forall k :: 0 <= k < |init| ==> (init + [b])[k] == init[k];
  }

  /** `UVarint` accepts `n` bytes with a value exactly when the reader becomes ready after those `n` bytes with it. */
  lemma DecodersAgree(bs: seq<byte>, n: nat)
    ensures Accepts(bs, n) <==> FeedAll(Fresh, bs).status.Ready? && FeedAll(Fresh, bs).got == n
    ensures Accepts(bs, n) ==> FeedAll(Fresh, bs).value == Value(bs[..n]) < LIMIT
  {
    ReaderStands(bs);
    var r := FeedAll(Fresh, bs);
    if Accepts(bs, n) {
      AcceptedFits(bs, n);
      if r.status.Ready? { OneAcceptance(bs, n, r.got); }
    }
  }

  /** Encoding, then reading in whatever pieces, is the identity; bytes behind are not looked at. */
  lemma RoundTrip(n: u64, rest: seq<byte>)
    ensures FeedAll(Fresh, Encode(n) + rest) == Reader(n, Ready, |Encode(n)|)
  {
    var bs := Encode(n);
    EncodedAccepted(n, rest);
    DecodersAgree(bs + rest, |bs|);
    EncodedShape(n);
    assert (bs + rest)[..|bs|] == bs;
  }

  datatype State = StUnderflow | StReady | StOverflow | StError

  function Code(s: Status): State {
    match s
    case Underflow => StUnderflow
    case Ready => StReady
    case Overflow => StOverflow
  }

  /** Reading piece after piece; a piece is cut where the reader stops wanting more. */
  function FeedPieces(r: Reader, pieces: seq<seq<byte>>): Reader
    decreases |pieces|
  {
    if pieces == [] then r else FeedPieces(FeedAll(r, pieces[0]), pieces[1..])
  }

  lemma {:induction false} PiecesDoNotMatter(r: Reader, pieces: seq<seq<byte>>)
    ensures FeedPieces(r, pieces) == FeedAll(r, Concat(pieces))
    decreases |pieces|
  {
    if pieces != [] {
      PiecesDoNotMatter(FeedAll(r, pieces[0]), pieces[1..]);
      FeedAppend(r, pieces[0], Concat(pieces[1..]));
    }
  }

  class VarintPrefixReader {
    var value: u64
    var status: Status
    var gotBytes: nat
    /** The bytes taken since the last reset. */
    ghost var seen: seq<byte>

    ghost predicate Valid()
      reads this
    {
      Now() == FeedAll(Fresh, seen)
    }

    ghost function Now(): Reader
      reads this
    {
      Reader(value, status, gotBytes)
    }

    constructor ()
      ensures Valid() && seen == [] && Now() == Fresh
    {
      value, status, gotBytes, seen := 0, Underflow, 0, [];
    }

    method Reset()
      modifies this
      ensures Valid() && seen == [] && Now() == Fresh
    {
      value, status, gotBytes, seen := 0, Underflow, 0, [];
    }

    method ConsumeByte(b: byte) returns (s: State)
      requires Valid()
      modifies this
      ensures Valid() && seen == old(seen) + [b] && Now() == Feed(old(Now()), b)
      ensures s == if old(status).Ready? then StError else Code(status)
    {
      FeedSnoc(Fresh, seen, b);
      ReaderStands(seen);
      ReaderStands(seen + [b]);
      seen := seen + [b];
      if status.Underflow? {
        gotBytes := gotBytes + 1;
        if gotBytes == MAX_BYTES && (b % 128 > 1 || b >= 128) {
          status := Overflow;
          return StOverflow;
        }
        StillFits(seen, FeedAll(Fresh, seen));
        value := value + Term(b, gotBytes - 1);
        if b < 128 {
          status := Ready;
        }
      } else if status.Ready? {
        return StError;
      }
      s := Code(status);
    }

    /** Takes bytes until the reader has what it wants; `rest` is what remains of the buffer. */
    method Consume(buffer: seq<byte>) returns (s: State, rest: seq<byte>)
      requires Valid()
      modifies this
      ensures Valid() && Now() == FeedAll(old(Now()), buffer)
      ensures old(status).Underflow? ==> s == Code(status)
      ensures old(status).Underflow? && s.StReady? ==>
                0 <= gotBytes - old(gotBytes) <= |buffer| && rest == buffer[gotBytes - old(gotBytes)..]
      ensures old(status).Underflow? && s.StUnderflow? ==> rest == []
    {
      s, rest := Code(status), buffer;
      var consumed := 0;
      assert buffer[0..] == buffer;
      while consumed < |buffer|
        invariant 0 <= consumed <= |buffer| && Valid()
        invariant FeedAll(Now(), buffer[consumed..]) == FeedAll(old(Now()), buffer)
        invariant s == Code(status) && (consumed > 0 ==> status.Underflow?)
        invariant gotBytes == old(gotBytes) + consumed && (consumed == 0 ==> Now() == old(Now()))
      {
        assert buffer[consumed..][1..] == buffer[consumed + 1..];
        s := ConsumeByte(buffer[consumed]);
        consumed := consumed + 1;
        if !s.StUnderflow? {
          Settled(Now(), buffer[consumed..]);
          break;
        }
      }
      if consumed > 0 && (s.StReady? || s.StUnderflow?) {
        rest := buffer[consumed..];
      }
    }
  }

  /** A reader that wants no more ignores what follows. */
  lemma {:induction false} Settled(r: Reader, bs: seq<byte>)
    requires !r.status.Underflow?
    ensures FeedAll(r, bs) == r
    decreases |bs|
  {
    if bs != [] { Settled(r, bs[1..]); }
  }

  /** The running value stays within 64 bits. */
  lemma StillFits(bs: seq<byte>, r: Reader)
    requires Stands(bs, r) && !r.status.Overflow?
    ensures r.value < LIMIT
  {
    if r.status.Ready? {
      AcceptedFits(bs, r.got);
    } else {
      ValueBound(bs);
      PowerNine();
      PowerGrows(|bs|, 9);
    }
  }
}
