/** The table of multiaddress protocols (include/libp2p/multi/multiaddress_protocol_list.hpp). */
module MultiaddressProtocols {
  import opened Basics
  import opened Text

  datatype Protocol =
    | IP4 | TCP | UDP | DCCP | IP6 | IP6_ZONE | DNS | DNS4 | DNS6 | DNS_ADDR | SCTP | UDT | UTP | UNIX | P2P
    | ONION | ONION3 | GARLIC64 | QUIC | QUIC_V1 | HTTP | HTTPS | WS | WSS | P2P_WEBSOCKET_STAR | P2P_STARDUST
    | P2P_WEBRTC_STAR | P2P_WEBRTC_DIRECT | P2P_CIRCUIT | X_PARITY_WS | X_PARITY_WSS | DUMMY_PROTO_1
    | DUMMY_PROTO_2 | DUMMY_PROTO_3 | DUMMY_PROTO_4

  function Name(p: Protocol): string {
    match p
    case IP4 => "ip4"
    case TCP => "tcp"
    case UDP => "udp"
    case DCCP => "dccp"
    case IP6 => "ip6"
    case IP6_ZONE => "ip6zone"
    case DNS => "dns"
    case DNS4 => "dns4"
    case DNS6 => "dns6"
    case DNS_ADDR => "dnsaddr"
    case SCTP => "sctp"
    case UDT => "udt"
    case UTP => "utp"
    case UNIX => "unix"
    case P2P => "p2p"
    case ONION => "onion"
    case ONION3 => "onion3"
    case GARLIC64 => "garlic64"
    case QUIC => "quic"
    case QUIC_V1 => "quic-v1"
    case HTTP => "http"
    case HTTPS => "https"
    case WS => "ws"
    case WSS => "wss"
    case P2P_WEBSOCKET_STAR => "p2p-websocket-star"
    case P2P_STARDUST => "p2p-stardust"
    case P2P_WEBRTC_STAR => "p2p-webrtc-star"
    case P2P_WEBRTC_DIRECT => "p2p-webrtc-direct"
    case P2P_CIRCUIT => "p2p-circuit"
    case X_PARITY_WS => "x-parity-ws"
    case X_PARITY_WSS => "x-parity-wss"
    case DUMMY_PROTO_1 => "_dummy_proto_1"
    case DUMMY_PROTO_2 => "_dummy_proto_2"
    case DUMMY_PROTO_3 => "_dummy_proto_3"
    case DUMMY_PROTO_4 => "_dummy_proto_4"
  }

  function CodeOf(p: Protocol): nat {
    match p
    case IP4 => 4
    case TCP => 6
    case UDP => 273
    case DCCP => 33
    case IP6 => 41
    case IP6_ZONE => 42
    case DNS => 53
    case DNS4 => 54
    case DNS6 => 55
    case DNS_ADDR => 56
    case SCTP => 132
    case UDT => 301
    case UTP => 302
    case UNIX => 400
    case P2P => 421
    case ONION => 444
    case ONION3 => 445
    case GARLIC64 => 446
    case QUIC => 460
    case QUIC_V1 => 461
    case HTTP => 480
    case HTTPS => 443
    case WS => 477
    case WSS => 478
    case P2P_WEBSOCKET_STAR => 479
    case P2P_STARDUST => 277
    case P2P_WEBRTC_STAR => 275
    case P2P_WEBRTC_DIRECT => 276
    case P2P_CIRCUIT => 290
    case X_PARITY_WS => 4770
    case X_PARITY_WSS => 4780
    case DUMMY_PROTO_1 => 0x3dead1
    case DUMMY_PROTO_2 => 0x3dead2
    case DUMMY_PROTO_3 => 0x3dead3
    case DUMMY_PROTO_4 => 0x3dead4
  }

  const VAR_LEN := -1

  /** The size of the address in bits. */
  function SizeOf(p: Protocol): int {
    match p
    case IP4 => 32
    case TCP | UDP | DCCP | SCTP => 16
    case IP6 => 128
    case IP6_ZONE | DNS | DNS4 | DNS6 | DNS_ADDR | UNIX | P2P | GARLIC64 | X_PARITY_WS | X_PARITY_WSS => VAR_LEN
    case DUMMY_PROTO_3 | DUMMY_PROTO_4 => VAR_LEN
    case ONION => 96
    case ONION3 => 296
    case UDT | UTP | QUIC | QUIC_V1 | HTTP | HTTPS | WS | WSS => 0
    case P2P_WEBSOCKET_STAR | P2P_STARDUST | P2P_WEBRTC_STAR | P2P_WEBRTC_DIRECT | P2P_CIRCUIT => 0
    case DUMMY_PROTO_1 | DUMMY_PROTO_2 => 0
  }

  /** An address follows. */
  predicate TakesAddress(p: Protocol) { SizeOf(p) != 0 }

  /** The table, in the order in which it is searched. */
  const PROTOCOLS := [
    IP4, TCP, UDP, DCCP, IP6, IP6_ZONE, DNS, DNS4, DNS6, DNS_ADDR, SCTP, UDT, UTP, UNIX, P2P, ONION, ONION3, GARLIC64,
    QUIC, QUIC_V1, HTTP, HTTPS, WS, WSS, P2P_WEBSOCKET_STAR, P2P_STARDUST, P2P_WEBRTC_STAR, P2P_WEBRTC_DIRECT,
    P2P_CIRCUIT, X_PARITY_WS, X_PARITY_WSS, DUMMY_PROTO_1, DUMMY_PROTO_2, DUMMY_PROTO_3, DUMMY_PROTO_4]

  function SearchName(ps: seq<Protocol>, name: string): Option<Protocol> {
    if ps == [] then None else if Name(ps[0]) == name then Some(ps[0]) else SearchName(ps[1..], name)
  }

  function SearchCode(ps: seq<Protocol>, code: nat): Option<Protocol> {
    if ps == [] then None else if CodeOf(ps[0]) == code then Some(ps[0]) else SearchCode(ps[1..], code)
  }

  /** The protocol with a name; "ipfs" is an old name of "p2p". */
  function ByName(name: string): Option<Protocol> { SearchName(PROTOCOLS, if name == "ipfs" then "p2p" else name) }

  function ByCode(code: nat): Option<Protocol> { SearchCode(PROTOCOLS, code) }

  /** Every protocol is in the table. */
  lemma Listed(p: Protocol)
    ensures p in PROTOCOLS
  {
    if CodeOf(p) < 300 { ListedLow(p); } else { ListedHigh(p); }
  }

  lemma ListedLow(p: Protocol)
    requires CodeOf(p) < 300
    ensures p in PROTOCOLS
  {
  }

  lemma ListedHigh(p: Protocol)
    requires CodeOf(p) >= 300
    ensures p in PROTOCOLS
  {
  }

  /** Length, the first two characters and the last tell the names apart. */
  lemma NamesAreDistinct(p: Protocol, q: Protocol)
    requires Name(p) == Name(q)
    ensures p == q
  {
    if |Name(p)| <= 3 {
      ShortNamesDiffer(p, q);
    } else if |Name(p)| <= 8 {
      MiddleNamesDiffer(p, q);
    } else {
      LongNamesDiffer(p, q);
    }
  }

  lemma ShortNamesDiffer(p: Protocol, q: Protocol)
    requires Name(p) == Name(q) && |Name(p)| <= 3
    ensures p == q
  {
    var a, b := Name(p), Name(q);
    assert |a| >= 2 && a[0] == b[0] && a[1] == b[1] && a[|a| - 1] == b[|b| - 1];
  }

  lemma MiddleNamesDiffer(p: Protocol, q: Protocol)
    requires Name(p) == Name(q) && 3 < |Name(p)| <= 8
    ensures p == q
  {
    var a, b := Name(p), Name(q);
    assert a[0] == b[0] && a[3] == b[3];
  }

  lemma LongNamesDiffer(p: Protocol, q: Protocol)
    requires Name(p) == Name(q) && |Name(p)| > 8
    ensures p == q
  {
    var a, b := Name(p), Name(q);
    assert a[|a| - 1] == b[|b| - 1];
  }

  lemma CodesAreDistinct(p: Protocol, q: Protocol)
    requires CodeOf(p) == CodeOf(q)
    ensures p == q
  {
    if CodeOf(p) < 300 { LowCodesDiffer(p, q); } else { HighCodesDiffer(p, q); }
  }

  lemma LowCodesDiffer(p: Protocol, q: Protocol)
    requires CodeOf(p) == CodeOf(q) && CodeOf(p) < 300
    ensures p == q
  {
  }

  lemma HighCodesDiffer(p: Protocol, q: Protocol)
    requires CodeOf(p) == CodeOf(q) && CodeOf(p) >= 300
    ensures p == q
  {
  }

  lemma {:induction false} NameFound(ps: seq<Protocol>, name: string)
    ensures var r := SearchName(ps, name);
            if r.Some? then r.value in ps && Name(r.value) == name
            else forall i :: 0 <= i < |ps| ==> Name(ps[i]) != name
  {
    hide Name;
    if ps != [] && Name(ps[0]) != name {
      NameFound(ps[1..], name);
      assert forall i :: 1 <= i < |ps| ==> ps[i] == ps[1..][i - 1];
    }
  }

  lemma {:induction false} CodeFound(ps: seq<Protocol>, code: nat)
    ensures var r := SearchCode(ps, code);
            if r.Some? then r.value in ps && CodeOf(r.value) == code
            else forall i :: 0 <= i < |ps| ==> CodeOf(ps[i]) != code
  {
    hide CodeOf;
    if ps != [] && CodeOf(ps[0]) != code {
      CodeFound(ps[1..], code);
      assert forall i :: 1 <= i < |ps| ==> ps[i] == ps[1..][i - 1];
    }
  }

  lemma NamesArePlain(p: Protocol)
    ensures Name(p) != "" && Free(Name(p), '/')
  {
    if CodeOf(p) < 300 { LowNames(p); } else if CodeOf(p) < 450 { MidNames(p); } else { HighNames(p); }
  }

  lemma LowNames(p: Protocol)
    requires CodeOf(p) < 300
    ensures Name(p) != "" && Free(Name(p), '/')
  {
  }

  lemma MidNames(p: Protocol)
    requires 300 <= CodeOf(p) < 450
    ensures Name(p) != "" && Free(Name(p), '/')
  {
  }

  lemma HighNames(p: Protocol)
    requires CodeOf(p) >= 450
    ensures Name(p) != "" && Free(Name(p), '/')
  {
  }

  /** A search for a name finds the one protocol that has it. */
  lemma FoundByName(p: Protocol)
    ensures ByName(Name(p)) == Some(p)
  {
    Listed(p);
    NameFound(PROTOCOLS, Name(p));
    NotLegacy(p);
    if ByName(Name(p)).Some? { NamesAreDistinct(p, ByName(Name(p)).value); }
  }

  lemma NotLegacy(p: Protocol)
    ensures Name(p) != "ipfs"
  {
    assert |Name(p)| == 4 ==> Name(p)[1] != 'p';
  }

  lemma FoundByCode(p: Protocol)
    ensures ByCode(CodeOf(p)) == Some(p) && CodeOf(p) < 0x1_0000_0000
  {
    Listed(p);
    CodeFound(PROTOCOLS, CodeOf(p));
    if ByCode(CodeOf(p)).Some? { CodesAreDistinct(p, ByCode(CodeOf(p)).value); }
  }

  // ---------------------------------------------------------------------------------------------
  // The loops.

  method SearchNameLoop(ps: seq<Protocol>, name: string) returns (r: Option<Protocol>)
    ensures r == SearchName(ps, name)
  {
    hide Name;
    var i := 0;
    assert ps[0..] == ps;
    while i < |ps|
      invariant 0 <= i <= |ps| && SearchName(ps[i..], name) == SearchName(ps, name)
    {
      if Name(ps[i]) == name {
        return Some(ps[i]);
      }
      assert ps[i..][1..] == ps[i + 1..];
      i := i + 1;
    }
    r := None;
  }

  method SearchCodeLoop(ps: seq<Protocol>, code: nat) returns (r: Option<Protocol>)
    ensures r == SearchCode(ps, code)
  {
    hide CodeOf;
    var i := 0;
    assert ps[0..] == ps;
    while i < |ps|
      invariant 0 <= i <= |ps| && SearchCode(ps[i..], code) == SearchCode(ps, code)
    {
      if CodeOf(ps[i]) == code {
        return Some(ps[i]);
      }
      assert ps[i..][1..] == ps[i + 1..];
      i := i + 1;
    }
    r := None;
  }

  method GetByName(name: string) returns (r: Option<Protocol>)
    ensures r == ByName(name)
  {
    hide SearchName;
    r := SearchNameLoop(PROTOCOLS, if name == "ipfs" then "p2p" else name);
  }

  method GetByCode(code: nat) returns (r: Option<Protocol>)
    ensures r == ByCode(code)
  {
    hide SearchCode;
    r := SearchCodeLoop(PROTOCOLS, code);
  }
}
