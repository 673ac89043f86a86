/**
 * Multiaddresses between text and bytes (src/multi/converters/converter_utils.cpp). The conversions of IP addresses
 * are parameters, assumed to be pairs of inverses; the others are modelled.
 */
module Multiaddress {
  import opened Basics
  import opened Text
  import opened Varint
  import opened MultiaddressProtocols
  import Base58
  import ContentIdentifier

  datatype Error = NoSlash | EmptyProtocol | NoSuchProtocol | NotImplemented | EmptyAddress | InvalidAddress

  datatype Result<+T> = Ok(value: T) | Err(error: Error)

  /** The bytes of a C++ string, and back. */
  function ToBytes(s: string): seq<byte> { seq(|s|, i requires 0 <= i < |s| => (s[i] as int) % 256) }

  function FromBytes(b: seq<byte>): string { seq(|b|, i requires 0 <= i < |b| => b[i] as char) }

  lemma BytesBack(b: seq<byte>)
    ensures ToBytes(FromBytes(b)) == b
  {
  }

  // ---------------------------------------------------------------------------------------------
  // Percent encoding.

  const MASK: seq<nat> := [0xffff_ffff, 0xd000_802d, 0x0000_0000, 0xa800_0001]

  function Pow2(n: nat): (p: nat)
    ensures p > 0
  {
    if n == 0 then 1 else 2 * Pow2(n - 1)
  }

  predicate Masked(c: nat)
    requires c < 128
  {
    MASK[c / 32] / Pow2(c % 32) % 2 == 1
  }

  predicate Escaped(c: char) { c as int > 0x7f || Masked(c as int) }

  function Hex(n: nat): char
    requires n < 16
  {
    if n < 10 then (48 + n) as char else (55 + n) as char
  }

  function HexValue(c: char): Option<nat> {
    if '0' <= c <= '9' then Some(c as int - 48)
    else if 'A' <= c <= 'F' then Some(c as int - 55)
    else if 'a' <= c <= 'f' then Some(c as int - 87)
    else None
  }

  predicate Octets(s: string) { forall i :: 0 <= i < |s| ==> s[i] as int < 256 }

  function EncodeChar(c: char): string
    requires c as int < 256
  {
    if Escaped(c) then ['%', Hex(c as int / 16), Hex(c as int % 16)] else [c]
  }

  function PercentEncode(s: string): string
    requires Octets(s)
  {
    if s == "" then "" else EncodeChar(s[0]) + PercentEncode(s[1..])
  }

  function PercentDecode(s: string): string
    decreases |s|
  {
    if s == "" then ""
    else if s[0] == '%' && |s| >= 3 && HexValue(s[1]).Some? && HexValue(s[2]).Some? then
      [((HexValue(s[1]).value * 16 + HexValue(s[2]).value) % 256) as char] + PercentDecode(s[3..])
    else [s[0]] + PercentDecode(s[1..])
  }

  lemma HexBack(n: nat)
    requires n < 16
    ensures HexValue(Hex(n)) == Some(n) && Hex(n) != '/' && Hex(n) != '%'
  {
  }

  lemma SpecialsEscaped()
    ensures Escaped('%') && Escaped('/')
  {
    assert Pow2(5) == 32;
    assert Pow2(10) == 32 * 32 by { assert Pow2(10) == 2 * (2 * (2 * (2 * (2 * Pow2(5))))); }
    assert Pow2(15) == 32 * Pow2(10) by { assert Pow2(15) == 2 * (2 * (2 * (2 * (2 * Pow2(10))))); }
    assert MASK[1] / 32 % 2 == 1 && MASK[1] / 32768 % 2 == 1;
  }

  /** One encoded character, with anything behind it. */
  lemma DecodeOne(c: char, rest: string)
    requires c as int < 256
    ensures PercentDecode(EncodeChar(c) + rest) == [c] + PercentDecode(rest)
    ensures EncodeChar(c) != "" && Free(EncodeChar(c), '/')
  {
    SpecialsEscaped();
    HexBack(c as int / 16);
    HexBack(c as int % 16);
    var e := EncodeChar(c);
    if Escaped(c) {
      assert (e + rest)[3..] == rest;
    } else {
      assert (e + rest)[1..] == rest;
    }
  }

  /** Decoding undoes encoding, and an encoded value holds no slash. */
  lemma {:induction false} PercentRoundTrip(s: string)
    requires Octets(s)
    ensures PercentDecode(PercentEncode(s)) == s && Free(PercentEncode(s), '/')
    ensures s != "" ==> PercentEncode(s) != ""
  {
    if s != "" {
      PercentRoundTrip(s[1..]);
      DecodeOne(s[0], PercentEncode(s[1..]));
      assert s == [s[0]] + s[1..];
    }
  }

  lemma {:induction false} DecodeNonEmpty(s: string)
    requires s != ""
    ensures PercentDecode(s) != ""
  {
  }

  // ---------------------------------------------------------------------------------------------
  // Ports.

  predicate IsDigit(c: char) { '0' <= c <= '9' }

  predicate Digits(s: string) { forall i :: 0 <= i < |s| ==> IsDigit(s[i]) }

  function Decimal(s: string): int
    requires Digits(s)
  {
    if s == "" then 0 else 10 * Decimal(s[..|s| - 1]) + (s[|s| - 1] as int - 48)
  }

  function ToDecimal(n: nat): string {
    if n < 10 then [(48 + n) as char] else ToDecimal(n / 10) + [(48 + n % 10) as char]
  }

  lemma {:induction false} DecimalBack(n: nat)
    ensures Digits(ToDecimal(n)) && Decimal(ToDecimal(n)) == n && ToDecimal(n) != ""
  {
    if n >= 10 {
      DecimalBack(n / 10);
      var s := ToDecimal(n);
      assert s[..|s| - 1] == ToDecimal(n / 10);
    } else {
      assert ToDecimal(n)[..0] == "";
    }
  }

  const MAX_INT := 0x7fff_ffff

  /** All digits, within `int`, within 16 bits. */
  function PortBytes(word: string): Result<seq<byte>> {
    if !Digits(word) || word == "" then Err(InvalidAddress)
    else
      var v := Decimal(word);
      if v < 0 || v > MAX_INT || v > 65535 then Err(InvalidAddress) else Ok([v / 256, v % 256])
  }

  /** A port is a decimal number below 2^16, written with the high byte first. */
  lemma PortExactly(word: string)
    ensures PortBytes(word).Ok? <==> word != "" && Digits(word) && Decimal(word) < 0x1_0000
    ensures PortBytes(word).Ok? ==>
              |PortBytes(word).value| == 2 &&
                256 * (PortBytes(word).value[0] as int) + PortBytes(word).value[1] == Decimal(word)
  {
    if Digits(word) { DecimalPositive(word); }
  }

  lemma {:induction false} DecimalPositive(s: string)
    requires Digits(s)
    ensures Decimal(s) >= 0
    decreases |s|
  {
    if s != "" { DecimalPositive(s[..|s| - 1]); }
  }

  // ---------------------------------------------------------------------------------------------
  // The converters given.

  datatype Codecs = Codecs(
    ip4: string -> Option<seq<byte>>, ip4Text: seq<byte> -> string,
    ip6: string -> Option<seq<byte>>, ip6Text: seq<byte> -> string)

  /** A word of a multiaddress: not empty, no slash. */
  predicate Plain(w: string) { w != "" && Free(w, '/') }

  ghost predicate PairOk(parse: string -> Option<seq<byte>>, text: seq<byte> -> string, size: nat) {
    && (forall b: seq<byte> {:trigger text(b)} :: |b| == size ==> Plain(text(b)) && parse(text(b)) == Some(b))
    && (forall w: string {:trigger parse(w)} :: parse(w).Some? ==> |parse(w).value| == size)
  }

  ghost predicate CodecsOk(k: Codecs) { PairOk(k.ip4, k.ip4Text, 4) && PairOk(k.ip6, k.ip6Text, 16) }

  /** A peer id in base 58, behind the multibase prefix: the codec wants at least one character. */
  function PeerId(word: string): Option<seq<byte>> { if word == "" then None else Base58.Decode(word) }

  /** A word of blanks is accepted as the peer id of no bytes. */
  predicate BlankPeer(p: Protocol, word: string) { p.P2P? && Base58.Spaces(Base58.CString(word)) }

  // ---------------------------------------------------------------------------------------------
  // Text to bytes.

  function Sized(b: seq<byte>): seq<byte> { Encode(|b|) + b }

  function OrInvalid(r: Option<seq<byte>>): Result<seq<byte>> { if r.Some? then Ok(r.value) else Err(InvalidAddress) }

  /** `addressToBytes`. */
  function Arg(k: Codecs, p: Protocol, word: string): Result<seq<byte>> {
    match p
    case IP4 => OrInvalid(k.ip4(word))
    case IP6 => OrInvalid(k.ip6(word))
    case TCP => PortBytes(word)
    case UDP => PortBytes(word)
    case P2P => if PeerId(word).Some? then Ok(Sized(PeerId(word).value)) else Err(InvalidAddress)
    case DNS => Ok(Sized(ToBytes(word)))
    case DNS4 => Ok(Sized(ToBytes(word)))
    case DNS6 => Ok(Sized(ToBytes(word)))
    case DNS_ADDR => Ok(Sized(ToBytes(word)))
    case UNIX => Ok(Sized(ToBytes(word)))
    case X_PARITY_WS => Ok(Sized(ToBytes(PercentDecode(word))))
    case X_PARITY_WSS => Ok(Sized(ToBytes(PercentDecode(word))))
    case IP6_ZONE => Err(NotImplemented)
    case ONION3 => Err(NotImplemented)
    case GARLIC64 => Err(NotImplemented)
    case QUIC => Err(NotImplemented)
    case WS => Err(NotImplemented)
    case WSS => Err(NotImplemented)
    case P2P_WEBSOCKET_STAR => Err(NotImplemented)
    case P2P_STARDUST => Err(NotImplemented)
    case P2P_WEBRTC_DIRECT => Err(NotImplemented)
    case P2P_CIRCUIT => Err(NotImplemented)
    case _ => Err(NoSuchProtocol)
  }

  function Prepend(head: seq<byte>, rest: Result<seq<byte>>): Result<seq<byte>> {
    if rest.Ok? then Ok(head + rest.value) else rest
  }

  /** The loop over the words: a protocol, then its address if it takes one. */
  function ParseWords(k: Codecs, ws: seq<string>): Result<seq<byte>>
    decreases |ws|
  {
    if ws == [] then Ok([])
    else if ws[0] == "" then Err(EmptyProtocol)
    else
      match ByName(ws[0])
      case None => Err(NoSuchProtocol)
      case Some(p) =>
        if !TakesAddress(p) then Prepend(Encode(CodeOf(p)), ParseWords(k, ws[1..]))
        else if |ws| == 1 || ws[1] == "" then Err(EmptyAddress)
        else
          match Arg(k, p, ws[1])
          case Err(e) => Err(e)
          case Ok(arg) => Prepend(Encode(CodeOf(p)) + arg, ParseWords(k, ws[2..]))
  }

  /** Without the leading slash and one trailing slash. */
  function Body(s: string): string
    requires |s| > 1
  {
    if s[|s| - 1] == '/' then s[1..|s| - 1] else s[1..]
  }

  /** `multiaddrToBytes`. */
  function Parse(k: Codecs, s: string): Result<seq<byte>> {
    if s == "" || s[0] != '/' then Err(NoSlash)
    else if |s| == 1 then Err(EmptyProtocol)
    else ParseWords(k, Split(Body(s), '/'))
  }

  // ---------------------------------------------------------------------------------------------
  // Bytes to text.

  /** A text and how many bytes it stands for. */
  datatype Piece = Piece(text: string, size: nat)

  /** A counted string at the front: its bytes and the size of the whole. */
  function ReadSized(bs: seq<byte>): Result<(seq<byte>, nat)> {
    match ContentIdentifier.Front(bs)
    case None => Err(InvalidAddress)
    case Some((n, k)) => if n > |bs| - k then Err(InvalidAddress) else Ok((bs[k..k + n], k + n))
  }

  predicate HostChar(c: char) { 'a' <= c <= 'z' || 'A' <= c <= 'Z' || '0' <= c <= '9' || c == '-' || c == '.' }

  predicate HostName(s: string) { forall i :: 0 <= i < |s| ==> HostChar(s[i]) }

  function HostPiece(bs: seq<byte>): Result<Piece> {
    match ReadSized(bs)
    case Err(e) => Err(e)
    case Ok((data, n)) => if HostName(FromBytes(data)) then Ok(Piece(FromBytes(data), n)) else Err(InvalidAddress)
  }

  function EscapedPiece(bs: seq<byte>): Result<Piece> {
    match ReadSized(bs)
    case Err(e) => Err(e)
    case Ok((data, n)) => Ok(Piece(PercentEncode(FromBytes(data)), n))
  }

  function FixedPiece(bs: seq<byte>, n: nat, text: seq<byte> -> string): Result<Piece> {
    if n > |bs| then Err(InvalidAddress) else Ok(Piece(text(bs[..n]), n))
  }

  function PortPiece(bs: seq<byte>): Result<Piece> {
    if 2 > |bs| then Err(InvalidAddress) else Ok(Piece(ToDecimal((bs[0] as int) * 256 + bs[1]), 2))
  }

  function PeerPiece(bs: seq<byte>): Result<Piece> {
    match ReadSized(bs)
    case Err(e) => Err(e)
    case Ok((data, n)) => Ok(Piece(Base58.Text(data), n))
  }

  function TextOf(k: Codecs, p: Protocol, bs: seq<byte>): Result<Piece> {
    match p
    case P2P => PeerPiece(bs)
    case DNS => HostPiece(bs)
    case DNS4 => HostPiece(bs)
    case DNS6 => HostPiece(bs)
    case DNS_ADDR => HostPiece(bs)
    case X_PARITY_WS => EscapedPiece(bs)
    case X_PARITY_WSS => EscapedPiece(bs)
    case IP4 => FixedPiece(bs, 4, k.ip4Text)
    case IP6 => FixedPiece(bs, 16, k.ip6Text)
    case TCP => PortPiece(bs)
    case UDP => PortPiece(bs)
    case _ => Err(NotImplemented)
  }

  function PrependText(head: string, rest: Result<string>): Result<string> {
    if rest.Ok? then Ok(head + rest.value) else rest
  }

  /** `bytesToMultiaddrString`. */
  function Print(k: Codecs, bs: seq<byte>): Result<string>
    decreases |bs|
  {
    if bs == [] then Ok("")
    else
      match ContentIdentifier.Front(bs)
      case None => Err(InvalidAddress)
      case Some((code, n)) =>
        match ByCode(code)
        case None => Err(NoSuchProtocol)
        case Some(p) =>
          if !TakesAddress(p) then PrependText("/" + Name(p), Print(k, bs[n..]))
          else
            match TextOf(k, p, bs[n..])
            case Err(e) => Err(e)
            case Ok(piece) =>
              if piece.size > |bs| - n then Err(InvalidAddress)
              else PrependText("/" + Name(p) + "/" + piece.text, Print(k, bs[n..][piece.size..]))
  }

  // ---------------------------------------------------------------------------------------------
  // An address that was parsed, printed and parsed again.

  lemma SizedBack(b: seq<byte>, rest: seq<byte>)
    requires |b| < LIMIT
    ensures ReadSized(Sized(b) + rest) == Ok((b, |Sized(b)|))
  {
    var head := Encode(|b|);
    Assoc(head, b, rest);
    ContentIdentifier.FrontOfEncoded(|b|, b + rest);
    var all := head + (b + rest);
    assert all[|head|..|head| + |b|] == b;
  }

  lemma HostPlain(w: string)
    requires HostName(w) && w != ""
    ensures Plain(w)
  {
  }

  lemma PortBack(word: string, rest: seq<byte>)
    requires PortBytes(word).Ok?
    ensures var arg := PortBytes(word).value;
            && PortPiece(arg + rest).Ok? && PortPiece(arg + rest).value.size == 2 == |arg|
            && Plain(PortPiece(arg + rest).value.text) && PortBytes(PortPiece(arg + rest).value.text) == Ok(arg)
  {
    var v := Decimal(word);
    assert v / 256 * 256 + v % 256 == v;
    DecimalBack(v);
  }

  lemma FixedBack(parse: string -> Option<seq<byte>>, text: seq<byte> -> string, size: nat, word: string,
                  rest: seq<byte>)
    requires PairOk(parse, text, size) && parse(word).Some?
    ensures var arg := parse(word).value;
            && FixedPiece(arg + rest, size, text) == Ok(Piece(text(arg), |arg|)) && Plain(text(arg))
            && parse(text(arg)) == Some(arg)
  {
    var arg := parse(word).value;
    assert (arg + rest)[..size] == arg;
  }

  lemma HostBack(word: string, rest: seq<byte>)
    requires word != "" && |ToBytes(word)| < LIMIT && HostPiece(Sized(ToBytes(word)) + rest).Ok?
    ensures var piece := HostPiece(Sized(ToBytes(word)) + rest).value;
            piece.size == |Sized(ToBytes(word))| && Plain(piece.text) && ToBytes(piece.text) == ToBytes(word)
  {
    SizedBack(ToBytes(word), rest);
    BytesBack(ToBytes(word));
    HostPlain(FromBytes(ToBytes(word)));
  }

  lemma EscapedBack(word: string, rest: seq<byte>)
    requires word != "" && |ToBytes(PercentDecode(word))| < LIMIT
    ensures var b := ToBytes(PercentDecode(word));
            EscapedPiece(Sized(b) + rest).Ok? &&
            var piece := EscapedPiece(Sized(b) + rest).value;
            piece.size == |Sized(b)| && Plain(piece.text) && ToBytes(PercentDecode(piece.text)) == b
  {
    var b := ToBytes(PercentDecode(word));
    DecodeNonEmpty(word);
    SizedBack(b, rest);
    BytesBack(b);
    PercentRoundTrip(FromBytes(b));
  }

  lemma PeerBack(word: string, rest: seq<byte>)
    requires word != "" && PeerId(word).Some? && |PeerId(word).value| < LIMIT
    ensures var b, text := PeerId(word).value, Base58.Text(PeerId(word).value);
            && PeerPiece(Sized(b) + rest) == Ok(Piece(text, |Sized(b)|)) && Free(text, '/')
            && if BlankPeer(P2P, word) then text == "" else text != "" && PeerId(text) == Some(b)
  {
    hide Base58.Decode, Base58.Text, Base58.CString;
    SizedBack(PeerId(word).value, rest);
    Base58.TextIsPlain(PeerId(word).value);
    Base58.RoundTrip(PeerId(word).value);
    Base58.BlankExactly(word);
  }

  /** The printed form of an address is a word that parses to the same bytes, unless it was a blank peer id. */
  ghost predicate Reads(k: Codecs, p: Protocol, word: string, arg: seq<byte>, piece: Piece) {
    && piece.size == |arg| && Free(piece.text, '/')
    && if BlankPeer(p, word) then piece.text == "" else piece.text != "" && Arg(k, p, piece.text) == Ok(arg)
  }

  lemma ArgBack(k: Codecs, p: Protocol, word: string, arg: seq<byte>, rest: seq<byte>)
    requires CodecsOk(k) && word != "" && Arg(k, p, word) == Ok(arg) && |arg| < LIMIT && TextOf(k, p, arg + rest).Ok?
    ensures Reads(k, p, word, arg, TextOf(k, p, arg + rest).value)
  {
    hide Base58.Decode, Base58.Text, Base58.CString, Base58.Spaces, Encode, PercentDecode, PercentEncode;
    match p
    case IP4 => FixedBack(k.ip4, k.ip4Text, 4, word, rest);
    case IP6 => FixedBack(k.ip6, k.ip6Text, 16, word, rest);
    case TCP => PortBack(word, rest);
    case UDP => PortBack(word, rest);
    case P2P => PeerBack(word, rest);
    case DNS => HostBack(word, rest);
    case DNS4 => HostBack(word, rest);
    case DNS6 => HostBack(word, rest);
    case DNS_ADDR => HostBack(word, rest);
    case X_PARITY_WS => EscapedBack(word, rest);
    case X_PARITY_WSS => EscapedBack(word, rest);
    case _ =>
  }

  /** Each word with a slash in front. */
  function Slashed(ws: seq<string>): string { if ws == [] then "" else "/" + ws[0] + Slashed(ws[1..]) }

  predicate AllFree(ws: seq<string>) { forall i :: 0 <= i < |ws| ==> Free(ws[i], '/') }

  /** Words that are joined with slashes are found again; an empty last word leaves a slash at the end. */
  lemma {:induction false} SlashedSplits(ws: seq<string>)
    requires ws != [] && AllFree(ws)
    ensures var s := Slashed(ws);
            && |s| > 0 && s[0] == '/' && Split(s[1..], '/') == ws
            && (s[|s| - 1] == '/' <==> ws[|ws| - 1] == "")
  {
    var w, rest := ws[0], ws[1..];
    var s := Slashed(ws);
    if rest == [] {
      assert Slashed(rest) == "";
      assert s == "/" + w && s[1..] == w;
      SplitPiece(w, "", '/');
      assert ws == [w];
    } else {
      SlashedSplits(rest);
      var t := Slashed(rest);
      assert s == "/" + w + t;
      assert s[1..] == w + ['/'] + t[1..];
      SplitPiece(w, t[1..], '/');
      assert ws == [w] + rest;
      assert s[|s| - 1] == t[|t| - 1];
    }
  }

  lemma {:induction false} SlashedEmptyLast(ws: seq<string>)
    requires ws != [] && ws[|ws| - 1] == ""
    ensures Slashed(ws) == Slashed(ws[..|ws| - 1]) + "/"
  {
    if |ws| == 1 {
      assert Slashed(ws[1..]) == "" && Slashed(ws[..0]) == "";
    } else {
      SlashedEmptyLast(ws[1..]);
      assert ws[1..][..|ws| - 2] == ws[..|ws| - 1][1..];
    }
  }

  lemma FrontCode(p: Protocol, rest: seq<byte>)
    ensures ContentIdentifier.Front(Encode(CodeOf(p)) + rest) == Some((CodeOf(p), |Encode(CodeOf(p))|)) &&
            ByCode(CodeOf(p)) == Some(p)
  {
    FoundByCode(p);
    ContentIdentifier.FrontOfEncoded(CodeOf(p), rest);
  }

  lemma PrintPlain(k: Codecs, p: Protocol, rest: seq<byte>)
    requires !TakesAddress(p)
    ensures Print(k, Encode(CodeOf(p)) + rest) == PrependText("/" + Name(p), Print(k, rest))
  {
    FrontCode(p, rest);
    ContentIdentifier.CutFront(Encode(CodeOf(p)), rest);
  }

  lemma PrintAddress(k: Codecs, p: Protocol, arg: seq<byte>, rest: seq<byte>)
    requires TakesAddress(p)
    ensures var r := TextOf(k, p, arg + rest);
            Print(k, Encode(CodeOf(p)) + (arg + rest)) ==
              if r.Err? then Err(r.error)
              else if r.value.size > |arg + rest| then Err(InvalidAddress)
              else PrependText("/" + Name(p) + "/" + r.value.text, Print(k, (arg + rest)[r.value.size..]))
  {
    FrontCode(p, arg + rest);
    ContentIdentifier.CutFront(Encode(CodeOf(p)), arg + rest);
  }

  lemma ParsePlain(k: Codecs, p: Protocol, ws: seq<string>)
    requires !TakesAddress(p)
    ensures ParseWords(k, [Name(p)] + ws) == Prepend(Encode(CodeOf(p)), ParseWords(k, ws))
  {
    FoundByName(p);
    NamesArePlain(p);
    assert ([Name(p)] + ws)[1..] == ws;
  }

  lemma ParseAddress(k: Codecs, p: Protocol, word: string, arg: seq<byte>, ws: seq<string>)
    requires TakesAddress(p) && word != "" && Arg(k, p, word) == Ok(arg)
    ensures ParseWords(k, [Name(p), word] + ws) == Prepend(Encode(CodeOf(p)) + arg, ParseWords(k, ws))
  {
    FoundByName(p);
    NamesArePlain(p);
    var all := [Name(p), word] + ws;
    assert all[0] == Name(p) && all[1] == word && all[2..] == ws;
  }

  /** No peer id among the words is blank. */
  predicate NoBlankPeer(ws: seq<string>)
    decreases |ws|
  {
    ws == [] || ByName(ws[0]).None? ||
    var p := ByName(ws[0]).value;
    if TakesAddress(p) then |ws| == 1 || (!BlankPeer(p, ws[1]) && NoBlankPeer(ws[2..])) else NoBlankPeer(ws[1..])
  }

  /** What parsing the words `us` gives, also without an empty last one: `bs`, or an address missing if not `sound`. */
  ghost predicate Reparses(k: Codecs, us: seq<string>, bs: seq<byte>, sound: bool) {
    && AllFree(us) && (us != [] ==> us[0] != "")
    && ParseWords(k, us) == (if sound then Ok(bs) else Err(EmptyAddress))
    && (us != [] && us[|us| - 1] == "" ==> !sound && ParseWords(k, us[..|us| - 1]) == Err(EmptyAddress))
  }

  /** What is printed of parsed words are words that parse to the same bytes, exactly if no peer id was blank. */
  lemma {:induction false} Reparse(k: Codecs, ws: seq<string>, bs: seq<byte>) returns (us: seq<string>)
    requires CodecsOk(k) && ParseWords(k, ws) == Ok(bs) && |bs| < LIMIT && Print(k, bs).Ok?
    ensures Print(k, bs) == Ok(Slashed(us)) && Reparses(k, us, bs, NoBlankPeer(ws)) && (ws != [] ==> us != [])
    decreases |ws|
  {
    if ws == [] {
      us := [];
    } else {
      var p := ByName(ws[0]).value;
      if !TakesAddress(p) {
        us := ReparsePlain(k, p, ws, bs);
      } else {
        us := ReparseAddress(k, p, ws, bs);
      }
    }
  }

  lemma PlainStep(k: Codecs, p: Protocol, ws: seq<string>)
    requires ws != [] && ParseWords(k, ws).Ok? && ByName(ws[0]) == Some(p) && !TakesAddress(p)
    ensures ParseWords(k, ws[1..]).Ok? && ParseWords(k, ws).value == Encode(CodeOf(p)) + ParseWords(k, ws[1..]).value
  {
  }

  lemma ReparsePlain(k: Codecs, p: Protocol, ws: seq<string>, bs: seq<byte>) returns (us: seq<string>)
    requires CodecsOk(k) && ws != [] && ParseWords(k, ws) == Ok(bs) && |bs| < LIMIT && Print(k, bs).Ok?
    requires ByName(ws[0]) == Some(p) && !TakesAddress(p)
    ensures Print(k, bs) == Ok(Slashed(us)) && Reparses(k, us, bs, NoBlankPeer(ws)) && us != []
    decreases |ws|, 0
  {
    hide Reparses, Print, Encode, CodeOf, Name, ByName;
    PlainStep(k, p, ws);
    var rest := ParseWords(k, ws[1..]).value;
    PrintPlain(k, p, rest);
    var vs := Reparse(k, ws[1..], rest);
    us := [Name(p)] + vs;
    SlashedOne(Name(p), vs);
    JoinPlain(k, p, rest, vs, NoBlankPeer(ws));
  }

  lemma JoinPlain(k: Codecs, p: Protocol, rest: seq<byte>, vs: seq<string>, sound: bool)
    requires !TakesAddress(p) && Reparses(k, vs, rest, sound)
    ensures Reparses(k, [Name(p)] + vs, Encode(CodeOf(p)) + rest, sound)
  {
    hide ParseWords, Name, CodeOf, Encode;
    var us := [Name(p)] + vs;
    NamesArePlain(p);
    ParsePlain(k, p, vs);
    if vs != [] {
      ParsePlain(k, p, vs[..|vs| - 1]);
      assert us[..|us| - 1] == [Name(p)] + vs[..|vs| - 1];
    }
  }

  lemma SlashedOne(a: string, vs: seq<string>)
    ensures Slashed([a] + vs) == "/" + a + Slashed(vs)
  {
    assert ([a] + vs)[1..] == vs;
  }

  lemma AddressStep(k: Codecs, p: Protocol, ws: seq<string>)
    requires ws != [] && ParseWords(k, ws).Ok? && ByName(ws[0]) == Some(p) && TakesAddress(p)
    ensures |ws| >= 2 && ws[1] != "" && Arg(k, p, ws[1]).Ok? && ParseWords(k, ws[2..]).Ok?
    ensures ParseWords(k, ws).value == Encode(CodeOf(p)) + Arg(k, p, ws[1]).value + ParseWords(k, ws[2..]).value
  {
  }

  lemma ReparseAddress(k: Codecs, p: Protocol, ws: seq<string>, bs: seq<byte>) returns (us: seq<string>)
    requires CodecsOk(k) && ws != [] && ParseWords(k, ws) == Ok(bs) && |bs| < LIMIT && Print(k, bs).Ok?
    requires ByName(ws[0]) == Some(p) && TakesAddress(p)
    ensures Print(k, bs) == Ok(Slashed(us)) && Reparses(k, us, bs, NoBlankPeer(ws)) && us != []
    decreases |ws|, 0
  {
    hide Reparses, Print, Encode, CodeOf, Name, ByName, Arg, TextOf, BlankPeer;
    AddressStep(k, p, ws);
    var head, arg, rest := Encode(CodeOf(p)), Arg(k, p, ws[1]).value, ParseWords(k, ws[2..]).value;
    Assoc(head, arg, rest);
    PrintAddress(k, p, arg, rest);
    ArgBack(k, p, ws[1], arg, rest);
    var piece := TextOf(k, p, arg + rest).value;
    ContentIdentifier.CutFront(arg, rest);
    var vs := Reparse(k, ws[2..], rest);
    us := [Name(p), piece.text] + vs;
    SlashedTwo(Name(p), piece.text, vs);
    JoinAddress(k, p, ws[1], arg, piece, rest, vs, NoBlankPeer(ws[2..]));
  }

  lemma JoinAddress(k: Codecs, p: Protocol, word: string, arg: seq<byte>, piece: Piece, rest: seq<byte>,
                    vs: seq<string>, sound: bool)
    requires TakesAddress(p) && Reads(k, p, word, arg, piece) && Reparses(k, vs, rest, sound)
    ensures Reparses(k, [Name(p), piece.text] + vs, Encode(CodeOf(p)) + arg + rest, !BlankPeer(p, word) && sound)
  {
    hide ParseWords, Name, CodeOf, Encode, Arg, BlankPeer;
    var us := [Name(p), piece.text] + vs;
    NamesArePlain(p);
    if BlankPeer(p, word) {
      MissingAddress(k, p, us);
      MissingAddress(k, p, us[..|us| - 1]);
    } else {
      ParseAddress(k, p, piece.text, arg, vs);
      if vs != [] {
        ParseAddress(k, p, piece.text, arg, vs[..|vs| - 1]);
        assert us[..|us| - 1] == [Name(p), piece.text] + vs[..|vs| - 1];
      }
    }
  }

  lemma MissingAddress(k: Codecs, p: Protocol, us: seq<string>)
    requires TakesAddress(p) && us != [] && us[0] == Name(p) && (|us| == 1 || us[1] == "")
    ensures ParseWords(k, us) == Err(EmptyAddress)
  {
    FoundByName(p);
    NamesArePlain(p);
  }

  lemma SlashedTwo(a: string, b: string, vs: seq<string>)
    ensures Slashed([a, b] + vs) == "/" + a + "/" + b + Slashed(vs)
  {
    var all := [a, b] + vs;
    assert all[1..] == [b] + vs && ([b] + vs)[1..] == vs;
    assert "/" + a + ("/" + b + Slashed(vs)) == "/" + a + "/" + b + Slashed(vs);
  }

  /** Parsing the text of words, which a slash at the end does not change. */
  lemma ParseSlashed(k: Codecs, us: seq<string>)
    requires us != [] && AllFree(us) && us[0] != ""
    ensures Parse(k, Slashed(us)) == ParseWords(k, if us[|us| - 1] == "" then us[..|us| - 1] else us)
  {
    hide ParseWords, Split;
    SlashedSplits(us);
    var s := Slashed(us);
    assert |s| > 1 by { assert s == "/" + us[0] + Slashed(us[1..]); }
    if us[|us| - 1] == "" {
      var vs := us[..|us| - 1];
      SlashedEmptyLast(us);
      SlashedSplits(vs);
      assert s[1..|s| - 1] == Slashed(vs)[1..];
    }
  }

  /** The words of a text. */
  function Words(s: string): seq<string> { if |s| > 1 then Split(Body(s), '/') else [] }

  /**
   * Canonical form: for every text that parses and whose bytes print, the printed text parses to the same bytes, and
   * then prints as itself, exactly if no peer id in the text is blank; otherwise it does not parse.
   */
  lemma Canonical(k: Codecs, s: string)
    requires CodecsOk(k) && Parse(k, s).Ok? && |Parse(k, s).value| < LIMIT && Print(k, Parse(k, s).value).Ok?
    ensures var printed := Print(k, Parse(k, s).value).value;
            && (Parse(k, printed) == Parse(k, s) <==> NoBlankPeer(Words(s)))
            && (NoBlankPeer(Words(s)) ==> Print(k, Parse(k, printed).value) == Ok(printed))
            && (!NoBlankPeer(Words(s)) ==> Parse(k, printed) == Err(EmptyAddress))
  {
    hide ParseWords, Print, NoBlankPeer;
    var bs := Parse(k, s).value;
    WordsExist(s);
    var us := Reparse(k, Words(s), bs);
    ParseSlashed(k, us);
  }

  lemma WordsExist(s: string)
    ensures |s| > 1 ==> Words(s) != []
  {
  }

  /** A blank peer id parses, and what is printed for it does not. */
  lemma BlankPeerLost(k: Codecs, word: string)
    requires word != "" && Free(word, '/') && Base58.Spaces(Base58.CString(word))
    ensures Parse(k, "/p2p/" + word).Ok? && Print(k, Parse(k, "/p2p/" + word).value) == Ok("/p2p/")
    ensures Parse(k, "/p2p/") == Err(EmptyAddress)
  {
    hide Parse, Print;
    BlankBytes(word);
    BlankWords(k, word);
    BlankPrints(k);
  }

  lemma OneBlankLost(k: Codecs)
    ensures Parse(k, "/p2p/ ").Ok? && Print(k, Parse(k, "/p2p/ ").value) == Ok("/p2p/")
    ensures Parse(k, "/p2p/") == Err(EmptyAddress)
  {
    hide Parse, Print;
    assert Base58.Spaces(Base58.CString(" ")) && Free(" ", '/');
    BlankPeerLost(k, " ");
    assert "/p2p/" + " " == "/p2p/ ";
  }

  lemma BlankPrints(k: Codecs)
    requires Base58.Text([]) == ""
    ensures Print(k, Encode(CodeOf(P2P)) + Sized([])) == Ok("/p2p/")
  {
    hide Print, Base58.Text, Encode, TextOf;
    var head, arg, none: seq<byte> := Encode(CodeOf(P2P)), Sized([]), [];
    assert arg + none == arg && arg[|arg|..] == none;
    PrintAddress(k, P2P, arg, none);
    BlankPiece(k, arg);
    NothingPrints(k);
    assert "/" + Name(P2P) + "/" + "" + "" == "/p2p/";
  }

  lemma BlankPiece(k: Codecs, arg: seq<byte>)
    requires Base58.Text([]) == "" && arg == Sized([])
    ensures TextOf(k, P2P, arg) == Ok(Piece("", |arg|))
  {
    hide Encode;
    SizedBack([], []);
    assert arg + [] == arg;
  }

  lemma NothingPrints(k: Codecs)
    ensures Print(k, []) == Ok("")
  {
  }

  lemma BlankBytes(word: string)
    requires word != "" && Base58.Spaces(Base58.CString(word))
    ensures PeerId(word) == Some([]) && Base58.Text([]) == ""
  {
    Base58.BlankExactly(word);
    Base58.TextIsPlain([]);
  }

  lemma BlankWords(k: Codecs, word: string)
    requires word != "" && Free(word, '/') && PeerId(word) == Some([])
    ensures Parse(k, "/p2p/" + word) == Ok(Encode(CodeOf(P2P)) + Sized([])) && Parse(k, "/p2p/") == Err(EmptyAddress)
  {
    hide Encode, PeerId, Split, Parse, Slashed, ParseWords, ByName, Sized;
    BlankPair(k, word);
    SlashedPair(word);
    SlashedPair("");
    ParseSlashed(k, ["p2p", word]);
    ParseSlashed(k, ["p2p", ""]);
    assert "/p2p/" + "" == "/p2p/" && ["p2p", ""][..1] == ["p2p"];
  }

  lemma BlankPair(k: Codecs, word: string)
    requires word != "" && PeerId(word) == Some([])
    ensures ParseWords(k, ["p2p", word]) == Ok(Encode(CodeOf(P2P)) + Sized([]))
    ensures ParseWords(k, ["p2p"]) == Err(EmptyAddress)
  {
    hide Encode, PeerId, ParseWords, Sized, ByName;
    var code, arg, none: seq<byte> := Encode(CodeOf(P2P)), Sized([]), [];
    assert Name(P2P) == "p2p" && ["p2p", word] + [] == ["p2p", word];
    ParseAddress(k, P2P, word, arg, []);
    NothingParses(k);
    assert code + arg + none == code + arg;
    MissingAddress(k, P2P, ["p2p"]);
  }

  lemma SlashedPair(word: string)
    ensures Slashed(["p2p", word]) == "/p2p/" + word
  {
    SlashedTwo("p2p", word, []);
    assert ["p2p", word] + [] == ["p2p", word];
    assert "/" + "p2p" + "/" == "/p2p/";
  }

  // ---------------------------------------------------------------------------------------------
  // What prints.

  predicate IsHost(p: Protocol) { p.DNS? || p.DNS4? || p.DNS6? || p.DNS_ADDR? }

  /** Of the addresses that parse, Unix paths and unusual host names do not print. */
  predicate Printable(p: Protocol, word: string) { !p.UNIX? && (IsHost(p) ==> HostName(FromBytes(ToBytes(word)))) }

  lemma ArgPrints(k: Codecs, p: Protocol, word: string, arg: seq<byte>, rest: seq<byte>)
    requires CodecsOk(k) && word != "" && Arg(k, p, word) == Ok(arg) && |arg| < LIMIT
    ensures TextOf(k, p, arg + rest).Ok? <==> Printable(p, word)
  {
    hide Encode, PercentDecode, PercentEncode, Base58.Decode, Base58.Text, Base58.CString, Base58.Spaces;
    hide Name, CodeOf, HostName, ToBytes, FromBytes, Free, Plain;
    match p
    case IP4 => FixedBack(k.ip4, k.ip4Text, 4, word, rest);
    case IP6 => FixedBack(k.ip6, k.ip6Text, 16, word, rest);
    case TCP => PortBack(word, rest);
    case UDP => PortBack(word, rest);
    case P2P => PeerBack(word, rest);
    case X_PARITY_WS => EscapedBack(word, rest);
    case X_PARITY_WSS => EscapedBack(word, rest);
    case DNS => HostPrints(word, rest);
    case DNS4 => HostPrints(word, rest);
    case DNS6 => HostPrints(word, rest);
    case DNS_ADDR => HostPrints(word, rest);
    case _ =>
  }

  lemma HostPrints(word: string, rest: seq<byte>)
    requires |ToBytes(word)| < LIMIT
    ensures HostPiece(Sized(ToBytes(word)) + rest).Ok? <==> HostName(FromBytes(ToBytes(word)))
  {
    SizedBack(ToBytes(word), rest);
  }

  /** All addresses among the words print. */
  predicate AllPrintable(ws: seq<string>)
    decreases |ws|
  {
    ws == [] ||
    (ByName(ws[0]).Some? &&
      var p := ByName(ws[0]).value;
      if TakesAddress(p) then |ws| > 1 && Printable(p, ws[1]) && AllPrintable(ws[2..]) else AllPrintable(ws[1..]))
  }

  /** A text that parses has bytes that print exactly when all its addresses do. */
  lemma {:induction false} PrintsExactlyWhen(k: Codecs, ws: seq<string>)
    requires CodecsOk(k) && ParseWords(k, ws).Ok? && |ParseWords(k, ws).value| < LIMIT
    ensures Print(k, ParseWords(k, ws).value).Ok? <==> AllPrintable(ws)
    decreases |ws|
  {
    if ws != [] {
      var p := ByName(ws[0]).value;
      if !TakesAddress(p) {
        PlainStep(k, p, ws);
        PrintPlain(k, p, ParseWords(k, ws[1..]).value);
        PrintsExactlyWhen(k, ws[1..]);
      } else {
        AddressStep(k, p, ws);
        var head, arg, rest := Encode(CodeOf(p)), Arg(k, p, ws[1]).value, ParseWords(k, ws[2..]).value;
        Assoc(head, arg, rest);
        PrintAddress(k, p, arg, rest);
        ArgPrints(k, p, ws[1], arg, rest);
        if Printable(p, ws[1]) {
          ArgBack(k, p, ws[1], arg, rest);
          ContentIdentifier.CutFront(arg, rest);
        }
        PrintsExactlyWhen(k, ws[2..]);
      }
    }
  }

  /** Unix paths parse and never print. */
  lemma UnixDoesNotPrint(k: Codecs, path: string)
    requires path != "" && Free(path, '/')
    ensures Parse(k, "/unix/" + path).Ok? && Print(k, Parse(k, "/unix/" + path).value) == Err(NotImplemented)
  {
    hide ParseWords, Print, Parse, Encode, Split;
    var name, arg, none: seq<byte> := Name(UNIX), Sized(ToBytes(path)), [];
    assert name == "unix" && TakesAddress(UNIX);
    ParseAddress(k, UNIX, path, arg, []);
    assert [name, path] + [] == [name, path];
    NothingParses(k);
    SlashedTwo(name, path, []);
    assert Slashed([name, path]) == "/unix/" + path by { assert "/" + name + "/" == "/unix/" && Slashed([]) == ""; }
    ParseSlashed(k, [name, path]);
    PrintAddress(k, UNIX, arg, none);
    assert Encode(CodeOf(UNIX)) + arg + none == Encode(CodeOf(UNIX)) + (arg + none);
  }

  /** A TCP port as a multiaddress: the code 6 and the two bytes of the number. */
  lemma TcpPort(k: Codecs, n: nat)
    requires n < 0x1_0000
    ensures Parse(k, "/tcp/" + ToDecimal(n)) == Ok([6, n / 256, n % 256])
    ensures Print(k, [6, n / 256, n % 256]) == Ok("/tcp/" + ToDecimal(n))
  {
    hide ParseWords, Print, Parse, Encode, Split, ToDecimal, Decimal, TextOf;
    var name, word, arg, none: seq<byte> := Name(TCP), ToDecimal(n), [n / 256, n % 256], [];
    DecimalBack(n);
    assert name == "tcp" && TakesAddress(TCP) && CodeOf(TCP) == 6;
    assert Encode(6) == [6] by { SmallEncoding(6); }
    assert Arg(k, TCP, word) == Ok(arg);
    ParseAddress(k, TCP, word, arg, []);
    assert [name, word] + [] == [name, word];
    NothingParses(k);
    SlashedTwo(name, word, []);
    assert Slashed([name, word]) == "/tcp/" + word by { assert "/" + name + "/" == "/tcp/" && Slashed([]) == ""; }
    ParseSlashed(k, [name, word]);
    assert [6] + arg + none == [6, n / 256, n % 256] == [6] + (arg + none);
    PrintAddress(k, TCP, arg, none);
    PortPrints(k, n);
    NothingPrints(k);
    assert (arg + none)[2..] == none && "/" + name + "/" + word + "" == "/tcp/" + word;
  }

  lemma SmallEncoding(n: nat)
    requires n < 128
    ensures Encode(n) == [n]
  {
  }

  lemma PortPrints(k: Codecs, n: nat)
    requires n < 0x1_0000
    ensures TextOf(k, TCP, [n / 256, n % 256] + []) == Ok(Piece(ToDecimal(n), 2))
  {
    assert [n / 256, n % 256] + [] == [n / 256, n % 256];
  }

  lemma NothingParses(k: Codecs)
    ensures ParseWords(k, []) == Ok([])
  {
  }

  // ---------------------------------------------------------------------------------------------
  // The loops.

  /** What remains to be done when an address of `p` is expected. */
  function ParseAfter(k: Codecs, p: Protocol, ws: seq<string>): Result<seq<byte>> {
    if ws == [] || ws[0] == "" then Err(EmptyAddress)
    else
      match Arg(k, p, ws[0])
      case Err(e) => Err(e)
      case Ok(arg) => Prepend(arg, ParseWords(k, ws[1..]))
  }

  lemma PrependTwice(a: seq<byte>, b: seq<byte>, r: Result<seq<byte>>)
    ensures Prepend(a, Prepend(b, r)) == Prepend(a + b, r)
  {
    if r.Ok? { Assoc(a, b, r.value); }
  }

  lemma ParseFrom(k: Codecs, ws: seq<string>, i: nat, p: Protocol)
    requires i < |ws| && ws[i] != "" && ByName(ws[i]) == Some(p)
    ensures ParseWords(k, ws[i..]) ==
            Prepend(Encode(CodeOf(p)),
              if TakesAddress(p) then ParseAfter(k, p, ws[i + 1..]) else ParseWords(k, ws[i + 1..]))
  {
    var vs, us := ws[i..], ws[i + 1..];
    assert vs[1..] == us;
    if TakesAddress(p) && |vs| > 1 {
      assert vs[2..] == us[1..] && vs[1] == us[0];
      if us[0] != "" && Arg(k, p, us[0]).Ok? {
        PrependTwice(Encode(CodeOf(p)), Arg(k, p, us[0]).value, ParseWords(k, us[1..]));
      }
    }
  }

  /** The loop of `multiaddrToBytes`. */
  method WordsToBytes(k: Codecs, ws: seq<string>) returns (r: Result<seq<byte>>)
    ensures r == ParseWords(k, ws)
  {
    var processed: seq<byte> := [];
    var pending: Option<Protocol> := None;
    var i := 0;
    assert ws[0..] == ws;
    ghost var goal := ParseWords(k, ws);
    if goal.Ok? { assert [] + goal.value == goal.value; }
    while i < |ws|
      invariant 0 <= i <= |ws|
      invariant goal == Prepend(processed,
                if pending.Some? then ParseAfter(k, pending.value, ws[i..]) else ParseWords(k, ws[i..]))
    {
      var word := ws[i];
      assert ws[i..][1..] == ws[i + 1..];
      if pending.None? {
        if word == "" {
          return Err(EmptyProtocol);
        }
        var p := GetByName(word);
        if p.None? {
          return Err(NoSuchProtocol);
        }
        ParseFrom(k, ws, i, p.value);
        var code := EncodeLoop(CodeWord(p.value));
        PrependTwice(processed, code,
          if TakesAddress(p.value) then ParseAfter(k, p.value, ws[i + 1..]) else ParseWords(k, ws[i + 1..]));
        processed := processed + code;
        pending := if TakesAddress(p.value) then p else None;
      } else {
        if word == "" {
          return Err(EmptyAddress);
        }
        var arg := Arg(k, pending.value, word);
        if arg.Err? {
          return Err(arg.error);
        }
        PrependTwice(processed, arg.value, ParseWords(k, ws[i + 1..]));
        processed := processed + arg.value;
        pending := None;
      }
      i := i + 1;
    }
    if pending.Some? {
      return Err(EmptyAddress);
    }
    assert processed + [] == processed;
    r := Ok(processed);
  }

  function CodeWord(p: Protocol): (c: u64)
    ensures c == CodeOf(p)
  {
    FoundByCode(p);
    CodeOf(p)
  }

  method MultiaddrToBytes(k: Codecs, s: string) returns (r: Result<seq<byte>>)
    ensures r == Parse(k, s)
  {
    if s == "" || s[0] != '/' {
      return Err(NoSlash);
    }
    if |s| == 1 {
      return Err(EmptyProtocol);
    }
    var words := SplitLoop(Body(s), '/');
    r := WordsToBytes(k, words);
  }

  lemma PrependTextTwice(a: string, b: string, r: Result<string>)
    ensures PrependText(a, PrependText(b, r)) == PrependText(a + b, r)
  {
    if r.Ok? { Assoc(a, b, r.value); }
  }

  /** The loop of `bytesToMultiaddrString`. */
  method BytesToMultiaddrString(k: Codecs, bytes: seq<byte>) returns (r: Result<string>)
    ensures r == Print(k, bytes)
  {
    var results := "";
    var rest := bytes;
    ghost var goal := Print(k, bytes);
    if goal.Ok? { assert "" + goal.value == goal.value; }
    while |rest| > 0
      invariant goal == PrependText(results, Print(k, rest))
      decreases |rest|
    {
      var code := Decode(rest);
      ContentIdentifier.FrontIs(rest, code);
      if code.None? {
        return Err(InvalidAddress);
      }
      var p := GetByCode(code.value.0);
      if p.None? {
        return Err(NoSuchProtocol);
      }
      var tail := rest[code.value.1..];
      var head := "/" + Name(p.value);
      if TakesAddress(p.value) {
        var piece := TextOf(k, p.value, tail);
        if piece.Err? {
          return Err(piece.error);
        }
        if piece.value.size > |tail| {
          return Err(InvalidAddress);
        }
        head := head + "/" + piece.value.text;
        tail := tail[piece.value.size..];
      }
      PrependTextTwice(results, head, Print(k, tail));
      results := results + head;
      rest := tail;
    }
    assert results + "" == results;
    r := Ok(results);
  }

  lemma {:induction false} EncodeSnoc(s: string, c: char)
    requires Octets(s) && c as int < 256
    ensures Octets(s + [c]) && PercentEncode(s + [c]) == PercentEncode(s) + EncodeChar(c)
  {
    assert forall i :: 0 <= i < |s| ==> s[i] == (s + [c])[i];
    assert (s + [c])[|s|] == c;
    if s == "" {
      assert ("" + [c])[1..] == "";
    } else {
      assert (s + [c])[1..] == s[1..] + [c];
      EncodeSnoc(s[1..], c);
      Assoc(EncodeChar(s[0]), PercentEncode(s[1..]), EncodeChar(c));
    }
  }

  method PercentEncodeLoop(s: string) returns (out: string)
    requires Octets(s)
    ensures out == PercentEncode(s)
  {
    out := "";
    var i := 0;
    while i < |s|
      invariant 0 <= i <= |s| && Octets(s[..i]) && out == PercentEncode(s[..i])
    {
      assert s[..i + 1] == s[..i] + [s[i]];
      EncodeSnoc(s[..i], s[i]);
      if Escaped(s[i]) {
        out := out + ['%', Hex(s[i] as int / 16), Hex(s[i] as int % 16)];
      } else {
        out := out + [s[i]];
      }
      i := i + 1;
    }
    assert s[..i] == s;
  }

  method PercentDecodeLoop(s: string) returns (out: string)
    ensures out == PercentDecode(s)
  {
    out := "";
    var rest := s;
    while |rest| > 0
      invariant out + PercentDecode(rest) == PercentDecode(s)
      decreases |rest|
    {
      var c, n := rest[0], 1;
      if rest[0] == '%' && |rest| >= 3 {
        var x1, x2 := HexValue(rest[1]), HexValue(rest[2]);
        if x1.Some? && x2.Some? {
          c, n := ((x1.value * 16 + x2.value) % 256) as char, 3;
        }
      }
      Assoc(out, [c], PercentDecode(rest[n..]));
      out, rest := out + [c], rest[n..];
    }
  }
}
