/**
 * How two SECIO peers agree (src/security/secio/secio_dialer.cpp): each computes roles, algorithms, signed corpora
 * and key halves on its own, and the results mirror each other. SHA-256 and HMAC are parameters. Key stretching is
 * the one of src/crypto/crypto_provider/crypto_provider_impl.cpp.
 */
module Secio {
  import opened Basics
  import opened Text

  type Bytes = seq<byte>

  datatype Proposal = Proposal(rand: Bytes, pubkey: Bytes, exchanges: string, ciphers: string, hashes: string)

  datatype Curve = P256 | P384 | P521
  datatype Cipher = AES128 | AES256
  datatype Hash = SHA256 | SHA512

  datatype Algorithm = Algorithm(curve: Curve, cipher: Cipher, hash: Hash)

  datatype Error = InternalFailure | CommunicatingItself | NoCommonCurve | NoCommonCipher | NoCommonHash

  datatype Outcome<+T> = Ok(value: T) | Err(error: Error)

  // ---------------------------------------------------------------------------------------------
  // Comma-separated lists.

  /** First item of `preferred` that is also in `second`. */
  function FirstCommon(preferred: seq<string>, second: seq<string>): Option<string> {
    if preferred == [] then None
    else if preferred[0] in second then Some(preferred[0]) else FirstCommon(preferred[1..], second)
  }

  /** Without a common item nothing is shared. */
  lemma {:induction false} NoneIsShared(preferred: seq<string>, second: seq<string>)
    ensures FirstCommon(preferred, second).None? <==> forall k :: 0 <= k < |preferred| ==> preferred[k] !in second
  {
    if preferred != [] && preferred[0] !in second {
      NoneIsShared(preferred[1..], second);
      assert forall k :: 0 < k < |preferred| ==> preferred[k] == preferred[1..][k - 1];
      assert forall k :: 0 <= k < |preferred[1..]| ==> preferred[1..][k] == preferred[k + 1];
    }
  }

  /** Every item preferred to the one chosen is not shared. */
  lemma {:induction false} FirstIsBest(preferred: seq<string>, second: seq<string>) returns (k: nat)
    requires FirstCommon(preferred, second).Some?
    ensures k < |preferred| && FirstCommon(preferred, second) == Some(preferred[k]) && preferred[k] in second
    ensures forall j :: 0 <= j < k ==> preferred[j] !in second
  {
    if preferred[0] in second {
      k := 0;
    } else {
      var k1 := FirstIsBest(preferred[1..], second);
      k := k1 + 1;
      assert forall j :: 0 < j < k ==> preferred[j] == preferred[1..][j - 1];
    }
  }

  function BestMatch(first: string, second: string, firstPreferred: bool): Option<string> {
    if firstPreferred then FirstCommon(Split(first, ','), Split(second, ','))
      else FirstCommon(Split(second, ','), Split(first, ','))
  }

  method Contains(items: seq<string>, item: string) returns (found: bool)
    ensures found == (item in items)
  {
    var j := 0;
    while j < |items|
      invariant 0 <= j <= |items| && forall k :: 0 <= k < j ==> items[k] != item
    {
      if item == items[j] {
        return true;
      }
      j := j + 1;
    }
    found := false;
  }

  lemma CommonFrom(preferred: seq<string>, i: nat, second: seq<string>)
    requires i < |preferred|
    ensures FirstCommon(preferred[i..], second)
         == if preferred[i] in second then Some(preferred[i]) else FirstCommon(preferred[i + 1..], second)
  {
    assert preferred[i..][1..] == preferred[i + 1..];
  }

  method FirstCommonLoop(preferred: seq<string>, second: seq<string>) returns (r: Option<string>)
    ensures r == FirstCommon(preferred, second)
  {
    var i := 0;
    assert preferred[0..] == preferred;
    while i < |preferred|
      invariant 0 <= i <= |preferred|
      invariant FirstCommon(preferred[i..], second) == FirstCommon(preferred, second)
    {
      CommonFrom(preferred, i, second);
      var found := Contains(second, preferred[i]);
      if found {
        return Some(preferred[i]);
      }
      i := i + 1;
    }
    r := None;
  }

  method BestMatchLoop(first: string, second: string, firstPreferred: bool) returns (r: Option<string>)
    ensures r == BestMatch(first, second, firstPreferred)
  {
    var a := SplitLoop(first, ',');
    var b := SplitLoop(second, ',');
    if firstPreferred {
      r := FirstCommonLoop(a, b);
    } else {
      r := FirstCommonLoop(b, a);
    }
  }

  // ---------------------------------------------------------------------------------------------
  // Roles.

  /** The order of byte vectors. */
  predicate Less(a: Bytes, b: Bytes) {
    b != [] && (a == [] || a[0] < b[0] || (a[0] == b[0] && Less(a[1..], b[1..])))
  }

  lemma {:induction false} LessIsTotal(a: Bytes, b: Bytes)
    requires a != b
    ensures Less(a, b) <==> !Less(b, a)
  {
    if a != [] && b != [] && a[0] == b[0] {
      assert a == [a[0]] + a[1..] && b == [b[0]] + b[1..];
      LessIsTotal(a[1..], b[1..]);
    }
  }

  /** Whether the local peer is preferred. */
  function Roles(sha: Bytes -> Bytes, local: Proposal, remote: Proposal): Outcome<bool> {
    var oh1, oh2 := sha(remote.pubkey + local.rand), sha(local.pubkey + remote.rand);
    if oh1 == oh2 then Err(CommunicatingItself) else Ok(Less(oh2, oh1))
  }

  /** Exactly one side takes itself for the preferred one, or both refuse. */
  lemma RolesMirror(sha: Bytes -> Bytes, a: Proposal, b: Proposal)
    ensures Roles(sha, a, b).Err? <==> Roles(sha, b, a).Err?
    ensures Roles(sha, a, b).Err? <==> sha(b.pubkey + a.rand) == sha(a.pubkey + b.rand)
    ensures Roles(sha, a, b).Ok? ==> Roles(sha, a, b).value == !Roles(sha, b, a).value
  {
    var oh1, oh2 := sha(b.pubkey + a.rand), sha(a.pubkey + b.rand);
    if oh1 != oh2 { LessIsTotal(oh1, oh2); }
  }

  /** At the first place where they differ the one is greater, or the other has ended. */
  ghost predicate Greater(a: Bytes, b: Bytes) { exists i: nat :: GreaterAt(a, b, i) }

  predicate GreaterAt(a: Bytes, b: Bytes, i: nat) {
    i < |a| && i <= |b| && a[..i] == b[..i] && (i == |b| || a[i] > b[i])
  }

  lemma {:induction false} LessByIndex(a: Bytes, b: Bytes)
    ensures Less(b, a) <==> Greater(a, b)
  {
    if a == [] {
    } else if b == [] || b[0] < a[0] {
      assert GreaterAt(a, b, 0);
    } else if b[0] == a[0] {
      LessByIndex(a[1..], b[1..]);
      assert a == [a[0]] + a[1..] && b == [b[0]] + b[1..];
      if i: nat :| GreaterAt(a[1..], b[1..], i) {
        assert a[..i + 1] == [a[0]] + a[1..][..i] && b[..i + 1] == [b[0]] + b[1..][..i];
        assert GreaterAt(a, b, i + 1);
      }
      if i: nat :| GreaterAt(a, b, i) {
        assert i > 0 && a[..i][1..] == a[1..][..i - 1] && b[..i][1..] == b[1..][..i - 1];
        assert GreaterAt(a[1..], b[1..], i - 1);
      }
    } else {
      forall i: nat ensures !GreaterAt(a, b, i) {
        if 0 < i <= |a| && i <= |b| { assert a[..i][0] == a[0] && b[..i][0] == b[0]; }
      }
    }
  }

  /** The local peer is preferred exactly if the hash of the remote key and the local nonce is the greater one. */
  lemma PreferredExactly(sha: Bytes -> Bytes, local: Proposal, remote: Proposal)
    ensures var mine, theirs := sha(remote.pubkey + local.rand), sha(local.pubkey + remote.rand);
            if mine == theirs then Roles(sha, local, remote) == Err(CommunicatingItself)
            else Roles(sha, local, remote).Ok? && (Roles(sha, local, remote).value <==> Greater(mine, theirs))
  {
    LessByIndex(sha(remote.pubkey + local.rand), sha(local.pubkey + remote.rand));
  }

  // ---------------------------------------------------------------------------------------------
  // Algorithms.

  function CurveOf(name: string): Outcome<Curve> {
    if name == "P-256" then Ok(P256) else if name == "P-384" then Ok(P384) else if name == "P-521" then Ok(P521)
      else Err(InternalFailure)
  }

  function CipherOf(name: string): Outcome<Cipher> {
    if name == "AES-256" then Ok(AES256) else if name == "AES-128" then Ok(AES128) else Err(InternalFailure)
  }

  function HashOf(name: string): Outcome<Hash> {
    if name == "SHA256" then Ok(SHA256) else if name == "SHA512" then Ok(SHA512) else Err(InternalFailure)
  }

  function FindCommon(local: Proposal, remote: Proposal, localPreferred: bool): Outcome<Algorithm> {
    match BestMatch(local.exchanges, remote.exchanges, localPreferred)
    case None => Err(NoCommonCurve)
    case Some(c) =>
      match CurveOf(c)
      case Err(e) => Err(e)
      case Ok(curve) =>
        match BestMatch(local.ciphers, remote.ciphers, localPreferred)
        case None => Err(NoCommonCipher)
        case Some(k) =>
          match CipherOf(k)
          case Err(e) => Err(e)
          case Ok(cipher) =>
            match BestMatch(local.hashes, remote.hashes, localPreferred)
            case None => Err(NoCommonHash)
            case Some(h) =>
              match HashOf(h)
              case Err(e) => Err(e)
              case Ok(hash) => Ok(Algorithm(curve, cipher, hash))
  }

  function Determine(sha: Bytes -> Bytes, local: Proposal, remote: Proposal): Outcome<Algorithm> {
    match Roles(sha, local, remote)
    case Err(e) => Err(e)
    case Ok(preferred) => FindCommon(local, remote, preferred)
  }

  /** Both sides end with the same algorithms, or with the same error. */
  lemma AlgorithmsAgree(sha: Bytes -> Bytes, a: Proposal, b: Proposal)
    ensures Determine(sha, a, b) == Determine(sha, b, a)
  {
    RolesMirror(sha, a, b);
  }

  /** `name` is the first item of the one list that is also in the other. */
  ghost predicate IsFirst(preferred: string, other: string, name: string) {
    exists k :: 0 <= k < |Split(preferred, ',')| && FirstAt(Split(preferred, ','), Split(other, ','), name, k)
  }

  predicate FirstAt(ps: seq<string>, qs: seq<string>, name: string, k: nat) {
    k < |ps| && ps[k] == name && name in qs && forall j :: 0 <= j < k ==> ps[j] !in qs
  }

  predicate NothingShared(preferred: string, other: string) {
    forall k :: 0 <= k < |Split(preferred, ',')| ==> Split(preferred, ',')[k] !in Split(other, ',')
  }

  lemma MatchIsFirst(preferred: string, other: string, name: string)
    ensures FirstCommon(Split(preferred, ','), Split(other, ',')) == Some(name) <==> IsFirst(preferred, other, name)
    ensures FirstCommon(Split(preferred, ','), Split(other, ',')).None? <==> NothingShared(preferred, other)
  {
    var ps, qs := Split(preferred, ','), Split(other, ',');
    NoneIsShared(ps, qs);
    if FirstCommon(ps, qs).Some? {
      var k := FirstIsBest(ps, qs);
      assert FirstAt(ps, qs, ps[k], k);
      if i :| 0 <= i < |ps| && FirstAt(ps, qs, name, i) { assert i == k; }
    }
  }

  function CurveName(c: Curve): string { match c case P256 => "P-256" case P384 => "P-384" case P521 => "P-521" }

  function CipherName(c: Cipher): string { match c case AES128 => "AES-128" case AES256 => "AES-256" }

  function HashName(h: Hash): string { match h case SHA256 => "SHA256" case SHA512 => "SHA512" }

  lemma NamesMean(name: string)
    ensures forall c: Curve :: CurveOf(name) == Ok(c) <==> name == CurveName(c)
    ensures forall c: Cipher :: CipherOf(name) == Ok(c) <==> name == CipherName(c)
    ensures forall h: Hash :: HashOf(name) == Ok(h) <==> name == HashName(h)
    ensures CurveOf(name).Err? ==> CurveOf(name).error == InternalFailure
    ensures CipherOf(name).Err? ==> CipherOf(name).error == InternalFailure
    ensures HashOf(name).Err? ==> HashOf(name).error == InternalFailure
  {
    assert "AES-128"[4] != "AES-256"[4] && "SHA256"[3] != "SHA512"[3];
    assert "P-256"[2] != "P-384"[2] && "P-256"[2] != "P-521"[2] && "P-384"[2] != "P-521"[2];
  }

  /** The peer whose lists count, and the other one. */
  function InOrder(preferred: bool, local: Proposal, remote: Proposal): (Proposal, Proposal) {
    if preferred then (local, remote) else (remote, local)
  }

  /**
   * What is chosen: for curve, cipher and hash alike, the first name on the preferred peer's list that the other peer
   * lists too; and nothing else is ever chosen.
   */
  lemma ChosenAreBest(sha: Bytes -> Bytes, a: Proposal, b: Proposal, x: Algorithm)
    requires Roles(sha, a, b).Ok?
    ensures var (p, q) := InOrder(Roles(sha, a, b).value, a, b);
            Determine(sha, a, b) == Ok(x) <==>
              && IsFirst(p.exchanges, q.exchanges, CurveName(x.curve))
              && IsFirst(p.ciphers, q.ciphers, CipherName(x.cipher))
              && IsFirst(p.hashes, q.hashes, HashName(x.hash))
  {
    hide Roles, CurveOf, CipherOf, HashOf, IsFirst, NothingShared, FirstCommon, Split, CurveName, CipherName, HashName;
    var (p, q) := InOrder(Roles(sha, a, b).value, a, b);
    Matches(p.exchanges, q.exchanges);
    Matches(p.ciphers, q.ciphers);
    Matches(p.hashes, q.hashes);
  }

  /** A match and its name. */
  lemma Matches(preferred: string, other: string)
    ensures var m := FirstCommon(Split(preferred, ','), Split(other, ','));
            && (m.None? <==> NothingShared(preferred, other))
            && (forall name: string :: IsFirst(preferred, other, name) <==> m == Some(name))
            && (m.Some? ==>
                  && (forall c: Curve :: CurveOf(m.value) == Ok(c) <==> m.value == CurveName(c))
                  && (forall c: Cipher :: CipherOf(m.value) == Ok(c) <==> m.value == CipherName(c))
                  && (forall h: Hash :: HashOf(m.value) == Ok(h) <==> m.value == HashName(h))
                  && (CurveOf(m.value).Err? ==> CurveOf(m.value).error == InternalFailure)
                  && (CipherOf(m.value).Err? ==> CipherOf(m.value).error == InternalFailure)
                  && (HashOf(m.value).Err? ==> HashOf(m.value).error == InternalFailure))
  {
    hide IsFirst, NothingShared, FirstCommon, Split;
    MatchIsFirst(preferred, other, "");
    forall name: string ensures IsFirst(preferred, other, name) <==>
      FirstCommon(Split(preferred, ','), Split(other, ',')) == Some(name) {
      MatchIsFirst(preferred, other, name);
    }
    var m := FirstCommon(Split(preferred, ','), Split(other, ','));
    if m.Some? { NamesMean(m.value); }
  }

  ghost predicate KnownCurve(p: Proposal, q: Proposal) {
    exists c: Curve :: IsFirst(p.exchanges, q.exchanges, CurveName(c))
  }

  ghost predicate KnownCipher(p: Proposal, q: Proposal) {
    exists c: Cipher :: IsFirst(p.ciphers, q.ciphers, CipherName(c))
  }

  /** Why nothing is chosen: the first of curve, cipher and hash for which the peers share no name. */
  lemma NothingChosen(sha: Bytes -> Bytes, a: Proposal, b: Proposal)
    requires Roles(sha, a, b).Ok?
    ensures var (p, q) := InOrder(Roles(sha, a, b).value, a, b);
            && (Determine(sha, a, b) == Err(NoCommonCurve) <==> NothingShared(p.exchanges, q.exchanges))
            && (Determine(sha, a, b) == Err(NoCommonCipher) <==>
              KnownCurve(p, q) && NothingShared(p.ciphers, q.ciphers))
            && (Determine(sha, a, b) == Err(NoCommonHash) <==>
                  KnownCurve(p, q) && KnownCipher(p, q) && NothingShared(p.hashes, q.hashes))
  {
    hide Roles, CurveOf, CipherOf, HashOf, IsFirst, NothingShared, FirstCommon, Split, CurveName, CipherName, HashName;
    var (p, q) := InOrder(Roles(sha, a, b).value, a, b);
    Matches(p.exchanges, q.exchanges);
    Matches(p.ciphers, q.ciphers);
    Matches(p.hashes, q.hashes);
    var curve, cipher := BestMatch(p.exchanges, q.exchanges, true), BestMatch(p.ciphers, q.ciphers, true);
    if curve.Some? && CurveOf(curve.value).Ok? {
      assert IsFirst(p.exchanges, q.exchanges, CurveName(CurveOf(curve.value).value));
    }
    if cipher.Some? && CipherOf(cipher.value).Ok? {
      assert IsFirst(p.ciphers, q.ciphers, CipherName(CipherOf(cipher.value).value));
    }
  }

  // ---------------------------------------------------------------------------------------------
  // Key stretching.

  const SEED: Bytes := [107, 101, 121, 32, 101, 120, 112, 97, 110, 115, 105, 111, 110]   // "key expansion"

  const HMAC_KEY_SIZE := 20
  const IV_SIZE := 16

  function KeySize(c: Cipher): nat { if c.AES128? then 16 else 32 }

  function OutputSize(c: Cipher): nat { 2 * (IV_SIZE + KeySize(c) + HMAC_KEY_SIZE) }

  /** The keyed digest; it may fail, and otherwise has some bytes. */
  type Hmac = Bytes -> Option<Bytes>

  ghost predicate Digests(h: Hmac) { forall x: Bytes {:trigger h(x)} :: h(x).Some? ==> h(x).value != [] }

  /** The running digest after `n` rounds. */
  function Chain(h: Hmac, n: nat): Option<Bytes> {
    if n == 0 then h(SEED)
    else match Chain(h, n - 1)
      case None => None
      case Some(a) => h(a)
  }

  /** The `n`-th block of output. */
  function Block(h: Hmac, n: nat): Option<Bytes> {
    match Chain(h, n)
    case None => None
    case Some(a) => h(a + SEED)
  }

  /** The first `n` blocks. */
  function Blocks(h: Hmac, n: nat): Option<Bytes> {
    if n == 0 then Some([])
    else match (Blocks(h, n - 1), Block(h, n - 1))
      case (Some(bs), Some(b)) => Some(bs + b)
      case _ => None
  }

  function Cut(bs: Bytes, size: nat): Bytes { if |bs| <= size then bs else bs[..size] }

  /**
   * `r` is the required prefix of the blocks, with `n` blocks and no fewer needed; or, after `n` blocks that were
   * not enough, a digest failed.
   */
  ghost predicate Stretched(h: Hmac, size: nat, r: Option<Bytes>, n: nat) {
    && Blocks(h, n).Some?
    && match r
       case Some(bytes) =>
         && Chain(h, n).Some? && |bytes| == size && bytes <= Blocks(h, n).value
         && (n > 0 ==> |Blocks(h, n - 1).value| < size)
       case None => |Blocks(h, n).value| < size && (Block(h, n).None? || Chain(h, n + 1).None?)
  }

  lemma CutGrows(bs: Bytes, b: Bytes, size: nat)
    requires |bs| < size
    ensures Cut(bs + b, size) == bs + b[..Min(|b|, size - |bs|)]
  {
    if |bs + b| <= size { assert b[..|b|] == b; }
  }

  /** The loop of `stretchKey`. */
  method Stretch(h: Hmac, size: nat) returns (r: Option<Bytes>)
    requires Digests(h) && size > 0
    ensures exists n: nat :: Stretched(h, size, r, n)
  {
    ghost var rounds := 0;
    var first := h(SEED);
    if first.None? {
      assert Stretched(h, size, None, 0);
      return None;
    }
    var a, result := first.value, [];
    while |result| < size
      invariant Chain(h, rounds) == Some(a) && Blocks(h, rounds).Some? && result == Cut(Blocks(h, rounds).value, size)
      invariant rounds > 0 ==> |Blocks(h, rounds - 1).value| < size
      decreases size - |result|
    {
      var b := h(a + SEED);
      if b.None? {
        assert Stretched(h, size, None, rounds);
        return None;
      }
      ghost var bs := Blocks(h, rounds).value;
      CutGrows(bs, b.value, size);
      var todo := |b.value|;
      if |result| + todo > size {
        todo := size - |result|;
      }
      result := result + b.value[..todo];
      assert Blocks(h, rounds + 1) == Some(bs + b.value);
      var c := h(a);
      if c.None? {
        assert Stretched(h, size, None, rounds);
        return None;
      }
      a, rounds := c.value, rounds + 1;
    }
    r := Some(result);
    assert Stretched(h, size, r, rounds);
  }

  datatype StretchedKey = StretchedKey(iv: Bytes, cipherKey: Bytes, macKey: Bytes)

  function KeyAt(bs: Bytes, at: nat, c: Cipher): (k: StretchedKey)
    requires at + IV_SIZE + KeySize(c) + HMAC_KEY_SIZE <= |bs|
    ensures |k.iv| == IV_SIZE && |k.cipherKey| == KeySize(c) && |k.macKey| == HMAC_KEY_SIZE
    ensures k.iv + k.cipherKey + k.macKey == bs[at..at + IV_SIZE + KeySize(c) + HMAC_KEY_SIZE]
  {
    var k := at + IV_SIZE;
    var m := k + KeySize(c);
    StretchedKey(bs[at..k], bs[k..m], bs[m..m + HMAC_KEY_SIZE])
  }

  /** The two halves of the stretched bytes. */
  function Halves(bs: Bytes, c: Cipher): (r: (StretchedKey, StretchedKey))
    requires |bs| == OutputSize(c)
    ensures (r.0.iv + r.0.cipherKey + r.0.macKey) + (r.1.iv + r.1.cipherKey + r.1.macKey) == bs
  {
    var half := IV_SIZE + KeySize(c) + HMAC_KEY_SIZE;
    (KeyAt(bs, 0, c), KeyAt(bs, half, c))
  }

  function KeysOf(bytes: Option<Bytes>, c: Cipher): Option<(StretchedKey, StretchedKey)>
    requires bytes.Some? ==> |bytes.value| == OutputSize(c)
  {
    if bytes.None? then None else Some(Halves(bytes.value, c))
  }

  /** Stretching ended with `bytes`, which were cut into the keys `r`. */
  ghost predicate StretchedKeys(h: Hmac, c: Cipher, bytes: Option<Bytes>, n: nat,
                                r: Option<(StretchedKey, StretchedKey)>) {
    Stretched(h, OutputSize(c), bytes, n) && r == KeysOf(bytes, c)
  }

  method StretchKey(h: Hmac, c: Cipher) returns (r: Option<(StretchedKey, StretchedKey)>)
    requires Digests(h)
    ensures exists bytes: Option<Bytes>, n: nat :: StretchedKeys(h, c, bytes, n, r)
  {
    var bs := Stretch(h, OutputSize(c));
    ghost var n: nat :| Stretched(h, OutputSize(c), bs, n);
    r := KeysOf(bs, c);
    assert StretchedKeys(h, c, bs, n, r);
  }

  /** Where the keys lie in the stretched bytes: those of the preferred peer come first. */
  lemma KeysByRole(bs: Bytes, c: Cipher, preferred: bool)
    requires |bs| == OutputSize(c)
    ensures var size, key := KeySize(c), LocalKey(preferred, Halves(bs, c));
            var at := if preferred then 0 else 36 + size;
            && key.iv == bs[at..at + 16] && key.cipherKey == bs[at + 16..at + 16 + size]
            && key.macKey == bs[at + 16 + size..at + 36 + size]
    ensures RemoteKey(preferred, Halves(bs, c)) == LocalKey(!preferred, Halves(bs, c))
    ensures KeySize(AES128) == 16 && KeySize(AES256) == 32
  {
  }

  /**
   * The bytes stretching starts with: the digest of the seed, and from it, with the seed behind it, the first block.
   */
  lemma StretchStarts(h: Hmac, size: nat, r: Option<Bytes>, n: nat, seed: Bytes, a: Bytes, b: Bytes, a2: Bytes,
                      b2: Bytes)
    requires Stretched(h, size, r, n) && Spells(seed, "key expansion")
    requires h(seed) == Some(a) && h(a + seed) == Some(b) && h(a) == Some(a2)
    requires h(a2 + seed) == Some(b2) && h(a2).Some?
    ensures size <= |b| ==> r == Some(b[..size])
    ensures |b| < size <= |b| + |b2| ==> r == Some(b + b2[..size - |b|])
  {
    SeedText(seed);
    assert Chain(h, 0) == Some(a) && Chain(h, 1) == Some(a2) && Chain(h, 2).Some?;
    assert [] + b == b && Blocks(h, 1) == Some(b) && Blocks(h, 2) == Some(b + b2);
    if size <= |b| {
      if size > 0 { assert Stretched(h, size, Some(b[..size]), 1); }
      if size == 0 { assert b[..0] == [] && Stretched(h, 0, Some([]), 0); }
      StretchedUnique(h, size, r, n, Some(b[..size]), if size > 0 then 1 else 0);
    } else if size <= |b| + |b2| {
      assert (b + b2)[..size] == b + b2[..size - |b|];
      assert Stretched(h, size, Some(b + b2[..size - |b|]), 2);
      StretchedUnique(h, size, r, n, Some(b + b2[..size - |b|]), 2);
    }
  }

  /** The characters of a text as bytes. */
  predicate Spells(bs: Bytes, text: string) {
    |bs| == |text| && forall i :: 0 <= i < |bs| ==> bs[i] as int == text[i] as int
  }

  lemma SeedText(seed: Bytes)
    requires Spells(seed, "key expansion")
    ensures seed == SEED
  {
  }

  lemma {:induction false} BlocksGrow(h: Hmac, n: nat, m: nat)
    requires n <= m && Blocks(h, m).Some?
    ensures Blocks(h, n).Some? && Blocks(h, n).value <= Blocks(h, m).value
    decreases m
  {
    if n < m { BlocksGrow(h, n, m - 1); }
  }

  lemma {:induction false} ChainGrows(h: Hmac, n: nat, m: nat)
    requires n <= m && Chain(h, m).Some?
    ensures Chain(h, n).Some?
    decreases m
  {
    if n < m { ChainGrows(h, n, m - 1); }
  }

  /** The outcome is determined by the digest and the size: both peers stretch a common secret to the same bytes. */
  lemma StretchedUnique(h: Hmac, size: nat, r: Option<Bytes>, n: nat, q: Option<Bytes>, m: nat)
    requires Stretched(h, size, r, n) && Stretched(h, size, q, m)
    ensures r == q
  {
    if n <= m { StretchedOrdered(h, size, r, n, q, m); } else { StretchedOrdered(h, size, q, m, r, n); }
  }

  lemma StretchedOrdered(h: Hmac, size: nat, r: Option<Bytes>, n: nat, q: Option<Bytes>, m: nat)
    requires Stretched(h, size, r, n) && Stretched(h, size, q, m) && n <= m
    ensures r == q
  {
    BlocksGrow(h, n, m);
    if r.None? && q.Some? {
      BlocksGrow(h, n + 1, m);
      ChainGrows(h, n + 1, m);
    }
    if r.Some? && q.Some? {
      var all := Blocks(h, m).value;
      assert r.value == all[..size] && q.value == all[..size];
    }
  }

  // ---------------------------------------------------------------------------------------------
  // Corpora and key halves, and the whole agreement.

  /** What a peer signs, or expects the other to have signed, for an ephemeral key. */
  function Corpus(localBytes: Bytes, remoteBytes: Bytes, forLocal: bool, ephemeral: Bytes): Bytes {
    (if forLocal then localBytes + remoteBytes else remoteBytes + localBytes) + ephemeral
  }

  function LocalKey(preferred: bool, keys: (StretchedKey, StretchedKey)): StretchedKey {
    if preferred then keys.0 else keys.1
  }

  function RemoteKey(preferred: bool, keys: (StretchedKey, StretchedKey)): StretchedKey {
    if preferred then keys.1 else keys.0
  }

  /** Key stretching at a peer that chose `x`, on the secret it computed. */
  ghost predicate StretchedFor(hmac: (Hash, Bytes) -> Hmac, x: Algorithm, secret: Bytes, r: Option<Bytes>, n: nat) {
    Stretched(hmac(x.hash, secret), OutputSize(x.cipher), r, n)
  }

  /**
   * Two peers that sent each other the proposals `a` and `b`, marshalled as `aBytes` and `bBytes`, and share a secret,
   * each working with the algorithms and the role it computed itself: they choose the same algorithms, each verifies
   * exactly what the other signed, and each one's local key is the other's remote key.
   */
  lemma MirrorAgreement(sha: Bytes -> Bytes, a: Proposal, b: Proposal, aBytes: Bytes, bBytes: Bytes, ephemeral: Bytes,
                        hmac: (Hash, Bytes) -> Hmac, secret: Bytes, r: Option<Bytes>, n: nat, q: Option<Bytes>, m: nat)
    requires Determine(sha, a, b).Ok? && StretchedFor(hmac, Determine(sha, a, b).value, secret, r, n)
    requires Determine(sha, b, a).Ok? ==> StretchedFor(hmac, Determine(sha, b, a).value, secret, q, m)
    ensures Determine(sha, b, a) == Determine(sha, a, b) && r == q
    ensures Corpus(aBytes, bBytes, true, ephemeral) == Corpus(bBytes, aBytes, false, ephemeral)
    ensures aBytes + bBytes <= Corpus(aBytes, bBytes, true, ephemeral)
    ensures Corpus(aBytes, bBytes, true, ephemeral)[|aBytes| + |bBytes|..] == ephemeral
    ensures Roles(sha, a, b).Ok? && Roles(sha, b, a).Ok?
    ensures r.Some? ==>
              var atA := Halves(r.value, Determine(sha, a, b).value.cipher);
              var atB := Halves(q.value, Determine(sha, b, a).value.cipher);
              var pa, pb := Roles(sha, a, b).value, Roles(sha, b, a).value;
              LocalKey(pa, atA) == RemoteKey(pb, atB) && RemoteKey(pa, atA) == LocalKey(pb, atB)
  {
    AlgorithmsAgree(sha, a, b);
    RolesMirror(sha, a, b);
    var x := Determine(sha, a, b).value;
    StretchedUnique(hmac(x.hash, secret), OutputSize(x.cipher), r, n, q, m);
  }

  // ---------------------------------------------------------------------------------------------
  // The object.

  class Dialer {
    var localBytes: Option<Bytes>
    var remoteBytes: Option<Bytes>
    var localPreferred: Option<bool>
    var chosen: Option<Algorithm>
    var keys: Option<(StretchedKey, StretchedKey)>

    constructor ()
      ensures localBytes.None? && remoteBytes.None? && localPreferred.None? && chosen.None? && keys.None?
    {
      localBytes, remoteBytes, localPreferred, chosen, keys := None, None, None, None, None;
    }

    method DetermineCommonAlgorithm(sha: Bytes -> Bytes, local: Proposal, remote: Proposal)
      returns (r: Outcome<Algorithm>)
      modifies `localPreferred, `chosen
      ensures r == Determine(sha, local, remote)
      ensures localPreferred ==
              (match Roles(sha, local, remote) case Ok(p) => Some(p) case Err(_) => old(localPreferred))
      ensures chosen == if r.Ok? then Some(r.value) else old(chosen)
    {
      var roles := Roles(sha, local, remote);
      if roles.Err? {
        return Err(roles.error);
      }
      localPreferred := Some(roles.value);
      r := FindCommonAlgo(local, remote, roles.value);
      if r.Ok? {
        chosen := Some(r.value);
      }
    }

    method FindCommonAlgo(local: Proposal, remote: Proposal, preferred: bool) returns (r: Outcome<Algorithm>)
      ensures r == FindCommon(local, remote, preferred)
    {
      var curve := BestMatchLoop(local.exchanges, remote.exchanges, preferred);
      if curve.None? {
        return Err(NoCommonCurve);
      }
      var c := CurveOf(curve.value);
      if c.Err? {
        return Err(c.error);
      }
      var cipher := BestMatchLoop(local.ciphers, remote.ciphers, preferred);
      if cipher.None? {
        return Err(NoCommonCipher);
      }
      var k := CipherOf(cipher.value);
      if k.Err? {
        return Err(k.error);
      }
      var hash := BestMatchLoop(local.hashes, remote.hashes, preferred);
      if hash.None? {
        return Err(NoCommonHash);
      }
      var h := HashOf(hash.value);
      if h.Err? {
        return Err(h.error);
      }
      r := Ok(Algorithm(c.value, k.value, h.value));
    }

    method GetCorpus(forLocal: bool, ephemeral: Bytes) returns (r: Outcome<Bytes>)
      ensures r == if localBytes.Some? && remoteBytes.Some? then
              Ok(Corpus(localBytes.value, remoteBytes.value, forLocal, ephemeral))
                   else Err(InternalFailure)
    {
      if localBytes.None? || remoteBytes.None? {
        return Err(InternalFailure);
      }
      var corpus := [];
      if forLocal {
        corpus := corpus + localBytes.value;
        corpus := corpus + remoteBytes.value;
      } else {
        corpus := corpus + remoteBytes.value;
        corpus := corpus + localBytes.value;
      }
      corpus := corpus + ephemeral;
      assert [] + localBytes.value == localBytes.value && [] + remoteBytes.value == remoteBytes.value;
      r := Ok(corpus);
    }

    method LocalStretchedKey() returns (r: Outcome<StretchedKey>)
      ensures r == if localPreferred.Some? && keys.Some? then Ok(LocalKey(localPreferred.value, keys.value))
              else Err(InternalFailure)
    {
      if localPreferred.Some? && keys.Some? {
        return Ok(if localPreferred.value then keys.value.0 else keys.value.1);
      }
      r := Err(InternalFailure);
    }

    method RemoteStretchedKey() returns (r: Outcome<StretchedKey>)
      ensures r == if localPreferred.Some? && keys.Some? then Ok(RemoteKey(localPreferred.value, keys.value))
              else Err(InternalFailure)
    {
      if localPreferred.Some? && keys.Some? {
        return Ok(if localPreferred.value then keys.value.1 else keys.value.0);
      }
      r := Err(InternalFailure);
    }
  }
}
