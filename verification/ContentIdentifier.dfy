/** Multihashes (src/multi/multihash.cpp) and content identifiers (src/multi/content_identifier_codec.cpp). */
module ContentIdentifier {
  import opened Basics
  import opened Varint

  datatype Multihash = Multihash(ty: u64, hash: seq<byte>)

  const MAX_HASH_LENGTH := 127
  const HEADER_SIZE := 4

  datatype Error =
    | ZeroInputLength | InputTooLong | InputTooShort | InconsistentLength
    | InvalidContentType | InvalidHashType | InvalidHashLength
    | EmptyVersion | EmptyMulticodec | MalformedVersion | ReservedVersion

  datatype Result<+T> = Ok(value: T) | Err(error: Error)

  function Create(ty: u64, hash: seq<byte>): Result<Multihash> {
    if |hash| > MAX_HASH_LENGTH then Err(InputTooLong) else Ok(Multihash(ty, hash))
  }

  /** Type, length, hash. */
  function ToBuffer(m: Multihash): seq<byte>
    requires |m.hash| <= MAX_HASH_LENGTH
  {
    Encode(m.ty) + [|m.hash|] + m.hash
  }

  /** What follows the type. */
  function FromTail(ty: u64, tail: seq<byte>): Result<Multihash> {
    if tail == [] then Err(InputTooShort)
    else if tail[0] == 0 then Err(ZeroInputLength)
    else if |tail| - 1 != tail[0] then Err(InconsistentLength)
    else Create(ty, tail[1..])
  }

  function FromBytes(b: seq<byte>): Result<Multihash> {
    if |b| < HEADER_SIZE then Err(InputTooShort)
    else
      var r := FeedAll(Fresh, b);
      ReaderStands(b);
      if !r.status.Ready? then Err(InputTooShort)
      else
        AcceptedFits(b, r.got);
        FromTail(r.value, b[r.got..])
  }

  method CreateFromBytes(b: seq<byte>) returns (r: Result<Multihash>)
    ensures r == FromBytes(b)
  {
    if |b| < HEADER_SIZE {
      return Err(InputTooShort);
    }
    var vr := new VarintPrefixReader();
    var s, rest := vr.Consume(b);
    if !s.StReady? {
      return Err(InputTooShort);
    }
    if |rest| == 0 {
      return Err(InputTooShort);
    }
    var length, hash := rest[0], rest[1..];
    if length == 0 {
      return Err(ZeroInputLength);
    }
    if |hash| != length {
      return Err(InconsistentLength);
    }
    r := Create(vr.value, hash);
  }

  /** Reading back what was written, for every multihash there can be: what goes wrong and when. */
  lemma MultihashRoundTrip(m: Multihash)
    requires |m.hash| <= MAX_HASH_LENGTH
    ensures FromBytes(ToBuffer(m)) ==
            if |ToBuffer(m)| < HEADER_SIZE then Err(InputTooShort) else if m.hash == [] then Err(ZeroInputLength)
              else Ok(m)
  {
    var head, tail := Encode(m.ty), [|m.hash| as byte] + m.hash;
    Assoc(head, [|m.hash| as byte], m.hash);
    RoundTrip(m.ty, tail);
    assert ToBuffer(m)[|head|..] == tail && tail[1..] == m.hash;
  }

  /** What is read has a legal length and is, but for a longer form of its type, what was given. */
  lemma MultihashSound(b: seq<byte>) returns (n: nat)
    requires FromBytes(b).Ok?
    ensures var m := FromBytes(b).value;
            && 0 < |m.hash| <= MAX_HASH_LENGTH && Accepts(b, n) && m.ty == Value(b[..n])
            && b == b[..n] + [|m.hash|] + m.hash
            && (ToBuffer(m) == b <==> |Encode(m.ty)| == n)
  {
    ReaderStands(b);
    n := FeedAll(Fresh, b).got;
    var m, tail := FromBytes(b).value, b[n..];
    AcceptedFits(b, n);
    CanonicalWhenShortest(b, n);
    var head := b[..n];
    assert tail == [tail[0]] + tail[1..];
    assert b == head + tail;
    Assoc(head, [|m.hash| as byte], m.hash);
    if ToBuffer(m) == b {
      SameTail(Encode(m.ty), head, [|m.hash| as byte] + m.hash);
      Assoc(Encode(m.ty), [|m.hash| as byte], m.hash);
    }
  }

  lemma SameTail(a: seq<byte>, b: seq<byte>, tail: seq<byte>)
    ensures a + tail == b + tail ==> |a| == |b|
  {
    if a + tail == b + tail { assert |a + tail| == |b + tail|; }
  }

  // ---------------------------------------------------------------------------------------------
  // Content identifiers.

  datatype Version = V0 | V1

  /** `code` is the numeric value of the multicodec enumerator, an `int` in the source. */
  datatype Cid = Cid(version: Version, code: int, address: Multihash)

  const DAG_PB := 0x70
  const SHA256: u64 := 0x12

  predicate Representable(c: Cid) { 0 <= c.code < 0x8000_0000 && |c.address.hash| <= MAX_HASH_LENGTH }

  /** The conversion of an unsigned number to the enumeration's type. */
  function ToCode(v: u64): int {
    var low := v % 0x1_0000_0000;
    if low < 0x8000_0000 then low else low - 0x1_0000_0000
  }

  function EncodeCid(c: Cid): Result<seq<byte>>
    requires Representable(c)
  {
    match c.version
    case V1 => Ok(Encode(1) + Encode(c.code) + ToBuffer(c.address))
    case V0 =>
      if c.code != DAG_PB then Err(InvalidContentType)
      else if c.address.ty != SHA256 then Err(InvalidHashType)
      else if |c.address.hash| != 32 then Err(InvalidHashLength)
      else Ok(ToBuffer(c.address))
  }

  /** The value and size of the varint at the front, if there is one. */
  function Front(b: seq<byte>): (r: Option<(u64, nat)>)
    ensures r.Some? ==> Accepts(b, r.value.1) && r.value.0 == Value(b[..r.value.1])
  {
    var r := FeedAll(Fresh, b);
    ReaderStands(b);
    if r.status.Ready? then
      AcceptedFits(b, r.got);
      Some((r.value, r.got))
    else None
  }

  predicate LooksLikeV0(b: seq<byte>) { |b| == 34 && b[0] == 0x12 && b[1] == 0x20 }

  function DecodeCid(b: seq<byte>): Result<Cid> {
    if LooksLikeV0(b) then
      match FromBytes(b)
      case Ok(m) => Ok(Cid(V0, DAG_PB, m))
      case Err(e) => Err(e)
    else
      match Front(b)
      case None => Err(EmptyVersion)
      case Some((version, n)) =>
        if version == 1 then
          match Front(b[n..])
          case None => Err(EmptyMulticodec)
          case Some((code, k)) =>
            match FromBytes(b[n..][k..])
            case Ok(m) => Ok(Cid(V1, ToCode(code), m))
            case Err(e) => Err(e)
        else if version == 0 then Err(MalformedVersion) else Err(ReservedVersion)
  }

  /** What `create` and `toUInt64` of `UVarint` give is what the reference says. */
  method DecodeLoop(b: seq<byte>) returns (r: Result<Cid>)
    ensures r == DecodeCid(b)
  {
    if |b| == 34 && b[0] == 0x12 && b[1] == 0x20 {
      var h := CreateFromBytes(b);
      r := if h.Ok? then Ok(Cid(V0, DAG_PB, h.value)) else Err(h.error);
      return;
    }
    var version := Decode(b);
    FrontIs(b, version);
    if version.None? {
      return Err(EmptyVersion);
    }
    if version.value.0 == 1 {
      var tail := b[version.value.1..];
      var code := Decode(tail);
      FrontIs(tail, code);
      if code.None? {
        return Err(EmptyMulticodec);
      }
      var h := CreateFromBytes(tail[code.value.1..]);
      r := if h.Ok? then Ok(Cid(V1, ToCode(code.value.0), h.value)) else Err(h.error);
      return;
    }
    r := Err(if version.value.0 <= 0 then MalformedVersion else ReservedVersion);
  }

  lemma FrontIs(b: seq<byte>, r: Option<(u64, nat)>)
    requires r.Some? ==> Accepts(b, r.value.1) && r.value.0 == Value(b[..r.value.1])
    requires r.None? ==> forall n: nat :: !Accepts(b, n)
    ensures r == Front(b)
  {
    if r.Some? {
      DecodersAgree(b, r.value.1);
    } else {
      ReaderStands(b);
    }
  }

  /** A varint of `n` bytes with the value `v` is at the front. */
  predicate Leads(b: seq<byte>, n: nat, v: nat) { Accepts(b, n) && Value(b[..n]) == v }

  /**
   * What bytes that are not of version 0 mean: a varint for the version, a varint for the content type, and a multihash
   * to the end; anything else is refused for the part that is wrong.
   */
  lemma CidLayout(b: seq<byte>, n: nat, version: nat, k: nat, code: nat)
    requires !(|b| == 34 && b[0] == 0x12 && b[1] == 0x20) && Leads(b, n, version)
    ensures version == 0 ==> DecodeCid(b) == Err(MalformedVersion)
    ensures version > 1 ==> DecodeCid(b) == Err(ReservedVersion)
    ensures version == 1 && (forall j: nat :: !Accepts(b[n..], j)) ==> DecodeCid(b) == Err(EmptyMulticodec)
    ensures version == 1 && Leads(b[n..], k, code) ==>
              && (FromBytes(b[n + k..]).Ok? <==> DecodeCid(b).Ok?)
              && (DecodeCid(b).Ok? ==> DecodeCid(b).value.address == FromBytes(b[n + k..]).value)
              && (DecodeCid(b).Ok? ==> DecodeCid(b).value.version.V1? && DecodeCid(b).value.code == ToCode(code))
              && (code < 0x8000_0000 ==> ToCode(code) == code)
  {
    hide FromBytes, Value, Accepts, Front, ToCode;
    assert n <= |b| && Front(b) == Some((version, n)) by { LeadingFront(b, n, version); }
    if forall j: nat :: !Accepts(b[n..], j) { FrontIs(b[n..], None); }
    if Leads(b[n..], k, code) {
      LeadingFront(b[n..], k, code);
      assert b[n..][k..] == b[n + k..];
      SmallCode(code);
    }
  }

  lemma LeadingFront(b: seq<byte>, n: nat, v: nat)
    requires Leads(b, n, v)
    ensures n <= |b| && v < LIMIT && Front(b) == Some((v, n))
  {
    AcceptedFits(b, n);
    FrontIs(b, Some((v, n)));
  }

  lemma SmallCode(v: u64)
    ensures v < 0x8000_0000 ==> ToCode(v) == v
  {
  }

  /** Thirty-four bytes that begin like a SHA-256 multihash are of version 0, with protobuf content. */
  lemma CidV0Layout(b: seq<byte>)
    requires |b| == 34 && b[0] == 0x12 && b[1] == 0x20
    ensures DecodeCid(b) == Ok(Cid(V0, 0x70, Multihash(0x12, b[2..])))
  {
    hide Value;
    assert Accepts(b, 1) && Value(b[..1]) == 0x12 by { OneByte(b); }
    AcceptedFits(b, 1);
    FrontIs(b, Some((0x12, 1)));
    assert b[1..][1..] == b[2..];
  }

  lemma OneByte(b: seq<byte>)
    requires b != [] && b[0] < 128
    ensures Accepts(b, 1) && Value(b[..1]) == b[0]
  {
    assert b[..1] == [b[0]] && [b[0]][1..] == [];
  }

  lemma FrontOfEncoded(n: u64, rest: seq<byte>)
    ensures Front(Encode(n) + rest) == Some((n, |Encode(n)|))
  {
    RoundTrip(n, rest);
  }

  /** A version 1 encoding is never taken for version 0. */
  lemma V1IsNotV0(c: Cid)
    requires Representable(c) && c.version.V1?
    ensures !LooksLikeV0(EncodeCid(c).value) && EncodeCid(c).value[0] == 1
  {
    assert Encode(1) == [1];
  }

  lemma DecodeParts(b: seq<byte>, tail: seq<byte>, mh: seq<byte>, n: nat, code: u64, k: nat)
    requires !LooksLikeV0(b) && Front(b) == Some((1, n)) && b[n..] == tail && Front(tail) == Some((code, k)) &&
             tail[k..] == mh
    ensures DecodeCid(b) == match FromBytes(mh) case Ok(m) => Ok(Cid(V1, ToCode(code), m)) case Err(e) => Err(e)
  {
  }

  lemma CutFront(a: seq<byte>, b: seq<byte>)
    ensures (a + b)[|a|..] == b
  {
  }

  /** Version 1: the multihash decides. */
  lemma V1RoundTrip(c: Cid)
    requires Representable(c) && c.version.V1?
    ensures DecodeCid(EncodeCid(c).value) ==
            match FromBytes(ToBuffer(c.address)) case Ok(m) => Ok(Cid(V1, c.code, m)) case Err(e) => Err(e)
  {
    hide Encode, FromBytes, DecodeCid;
    V1IsNotV0(c);
    var one, code, mh := Encode(1), Encode(c.code), ToBuffer(c.address);
    Assoc(one, code, mh);
    FrontOfEncoded(1, code + mh);
    FrontOfEncoded(c.code, mh);
    CutFront(one, code + mh);
    CutFront(code, mh);
    DecodeParts(EncodeCid(c).value, code + mh, mh, |one|, c.code, |code|);
  }

  /**
   * Decoding undoes encoding for every identifier that encodes, exactly when its multihash has a hash and at least
   * four bytes; version 0 identifiers always do.
   */
  lemma CidRoundTrip(c: Cid)
    requires Representable(c) && EncodeCid(c).Ok?
    ensures DecodeCid(EncodeCid(c).value) == Ok(c) <==> c.address.hash != [] && |ToBuffer(c.address)| >= HEADER_SIZE
    ensures c.version.V0? ==> DecodeCid(EncodeCid(c).value) == Ok(c)
  {
    MultihashRoundTrip(c.address);
    if c.version.V1? {
      V1RoundTrip(c);
    } else {
      assert Encode(SHA256) == [0x12];
    }
  }

  /** A one-byte hash of a one-byte type is too short to be read back. */
  lemma ShortHashLost()
    ensures DecodeCid(EncodeCid(Cid(V1, DAG_PB, Multihash(SHA256, [7]))).value) == Err(InputTooShort)
  {
    var c := Cid(V1, DAG_PB, Multihash(SHA256, [7]));
    assert Encode(SHA256) == [0x12];
    MultihashRoundTrip(c.address);
    V1RoundTrip(c);
  }

  // ---------------------------------------------------------------------------------------------
  // The direct version 1 encoder.

  /** `encodeCIDV1`: the content type goes into one byte, whatever it is. */
  function EncodeV1(code: int, address: Multihash): seq<byte>
    requires |address.hash| <= MAX_HASH_LENGTH
  {
    [1, code % 256] + ToBuffer(address)
  }

  /** A type byte below 128 is a varint of its own. */
  lemma PlainType(code: int, address: Multihash)
    requires Representable(Cid(V1, code, address)) && code % 256 < 128
    ensures EncodeV1(code, address) == EncodeCid(Cid(V1, code % 256, address)).value
  {
    assert Encode(1) == [1] && Encode(code % 256) == [code % 256];
    assert [1] + [code % 256] == [1, code % 256];
  }

  /** Any other type byte takes the multihash's type for its continuation. */
  lemma MergedType(head: byte, ty: u64, tail: seq<byte>, n: nat)
    requires head >= 128 && Accepts([head] + (Encode(ty) + tail), n)
    ensures ([head] + (Encode(ty) + tail))[n..] == tail
  {
    hide Encode, Value;
    EncodedShape(ty);
    var e := Encode(ty);
    var b := [head] + (e + tail);
    assert forall k :: 1 <= k <= |e| ==> b[k] == e[k - 1];
    assert forall k :: 0 <= k < |e| ==> b[k] >= 128;
    assert b[|e|] < 128;
    assert n == 1 + |e|;
  }

  /** What is read from less than the length byte and the hash has a shorter hash. */
  lemma ShorterHash(length: byte, hash: seq<byte>)
    ensures FromBytes([length] + hash).Ok? ==> |FromBytes([length] + hash).value.hash| < |hash|
  {
    if FromBytes([length] + hash).Ok? { var n := MultihashSound([length] + hash); }
  }

  lemma MergedLost(code: int, address: Multihash)
    requires Representable(Cid(V1, code, address)) && code % 256 >= 128
    ensures DecodeCid(EncodeV1(code, address)) != Ok(Cid(V1, code, address))
  {
    hide FromBytes, Value;
    var low: byte := code % 256;
    var rest, tail := [low] + ToBuffer(address), [|address.hash| as byte] + address.hash;
    Assoc(Encode(address.ty), [|address.hash| as byte], address.hash);
    assert EncodeV1(code, address) == Encode(1) + rest by { assert Encode(1) == [1]; }
    FrontOfEncoded(1, rest);
    CutFront(Encode(1), rest);
    if Front(rest).Some? {
      var (v, k) := Front(rest).value;
      MergedType(low, address.ty, tail, k);
      ShorterHash(|address.hash|, address.hash);
    }
  }

  /**
   * The output of `encodeCIDV1` decodes to the identifier it was made from exactly when the content type is below 128
   * and the multihash can be read back.
   */
  lemma DirectRoundTrip(code: int, address: Multihash)
    requires Representable(Cid(V1, code, address))
    ensures DecodeCid(EncodeV1(code, address)) == Ok(Cid(V1, code, address)) <==>
            code < 128 && address.hash != [] && |ToBuffer(address)| >= HEADER_SIZE
  {
    hide DecodeCid, EncodeV1, Encode, FromBytes, ToBuffer;
    if code % 256 < 128 {
      PlainType(code, address);
      var c := Cid(V1, code % 256, address);
      CidRoundTrip(c);
      V1RoundTrip(c);
    } else {
      MergedLost(code, address);
    }
  }

  const FILECOIN_COMMITMENT_SEALED := 0xf102

  /** One of the content types the library names comes back as another. */
  lemma SealedCommitmentLost(address: Multihash)
    requires 0 < |address.hash| <= MAX_HASH_LENGTH && |ToBuffer(address)| >= HEADER_SIZE
    ensures DecodeCid(EncodeV1(FILECOIN_COMMITMENT_SEALED, address)) == Ok(Cid(V1, 2, address))
  {
    hide DecodeCid, EncodeV1, Encode, FromBytes, ToBuffer;
    PlainType(FILECOIN_COMMITMENT_SEALED, address);
    CidRoundTrip(Cid(V1, 2, address));
  }
}
