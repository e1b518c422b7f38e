/**
  Catalog revision tokens: a native revision bound to the epoch of the client that observed it.
  The hash is a parameter, and so is whether bytes are valid UTF-8.
 */
module CatalogRevision {

  import opened Wrappers
  import opened Splitting
  import opened CatalogAdmission
  import opened Base64

  const MAX_CATALOG_REVISION_BYTES: int := 4096
  const NONCE_BYTES: int := 32
  const DOT: byte := '.' as byte

  function Text(s: string): (b: bytes)
    requires forall i | 0 <= i < |s| :: s[i] < 128 as char
    ensures |b| == |s| && forall i | 0 <= i < |s| :: b[i] as int == s[i] as int
  {
    seq(|s|, i requires 0 <= i < |s| => s[i] as byte)
  }

  const EPOCH_TAG: bytes := Text("ovce1")
  const REVISION_TAG: bytes := Text("ovc1")
  const HASH_DOMAIN: bytes := Text("omniview.resource.catalog.slot.v1\0")

  // ---------- tokens ----------

  /** Text in the seven-bit range is valid UTF-8. */
  ghost predicate AsciiIsValid(utf8: bytes -> bool) {
    forall s: bytes :: (forall c | c in s :: c < 128) ==> utf8(s)
  }

  predicate IsNonce(nonce: bytes) {
    |nonce| == NONCE_BYTES
  }

  function Epoch(nonce: bytes): bytes {
    EPOCH_TAG + [DOT] + Encode(nonce)
  }

  function Token(nonce: bytes, hash: bytes): bytes {
    REVISION_TAG + [DOT] + Encode(nonce) + [DOT] + Encode(hash)
  }

  /** Eight bytes, most significant first, of the value's low 64 bits. */
  function BigEndian(n: int, width: nat): (b: bytes)
    ensures |b| == width
    decreases width
  {
    if width == 0 then [] else BigEndian(n / 256, width - 1) + [(n % 256) as byte]
  }

  /** The number the bytes spell, most significant first. */
  ghost function Spelled(b: bytes): int {
    if b == [] then 0 else 256 * Spelled(b[..|b| - 1]) + b[|b| - 1] as int
  }

  ghost function Pow256(width: nat): int {
    if width == 0 then 1 else 256 * Pow256(width - 1)
  }

  lemma {:induction false} BigEndianSpells(n: int, width: nat)
    requires 0 <= n < Pow256(width)
    ensures Spelled(BigEndian(n, width)) == n
  {
    if width > 0 {
      BigEndianSpells(n / 256, width - 1);
      var b := BigEndian(n, width);
      assert b[..width - 1] == BigEndian(n / 256, width - 1);
    }
  }

  /** What the hash of a bound revision covers. */
  function Preimage(nonce: bytes, native: bytes): bytes {
    HASH_DOMAIN + nonce + BigEndian(|native|, 8) + native
  }

  /** The domain, 32 bytes of nonce, eight bytes that spell the length of the revision, and the revision. */
  lemma PreimageLayout(nonce: bytes, native: bytes)
    requires IsNonce(nonce) && |native| < Pow256(8)
    ensures var p, d := Preimage(nonce, native), |HASH_DOMAIN|;
      && |p| == d + 40 + |native|
      && p[..d] == HASH_DOMAIN && p[d..d + 32] == nonce && Spelled(p[d + 32..d + 40]) == |native| && p[d + 40..] == native
  {
    BigEndianSpells(|native|, 8);
    var p, d := Preimage(nonce, native), |HASH_DOMAIN|;
    assert p[d + 32..d + 40] == BigEndian(|native|, 8);
  }

  lemma PreimageIsInjective(n1: bytes, r1: bytes, n2: bytes, r2: bytes)
    requires IsNonce(n1) && IsNonce(n2) && Preimage(n1, r1) == Preimage(n2, r2)
    ensures n1 == n2 && r1 == r2
  {
    var p1, p2, d := Preimage(n1, r1), Preimage(n2, r2), |HASH_DOMAIN|;
    assert n1 == p1[d..d + 32] && n2 == p2[d..d + 32];
    assert r1 == p1[d + 40..] && r2 == p2[d + 40..];
  }

  ghost predicate IsDigest(sha: bytes -> bytes) {
    forall s :: |sha(s)| == 32
  }

  lemma EncodedIsPlain(b: bytes)
    requires |b| == 32
    ensures |Encode(b)| == 43 && DOT !in Encode(b) && forall c | c in Encode(b) :: c < 128
  {
    EncodedLength(b);
    SymbolsArePlain(Sextets(b));
  }

  /** Epochs and tokens determine their nonces and hashes. */
  lemma TokenIsInjective(n1: bytes, h1: bytes, n2: bytes, h2: bytes)
    requires |n1| == |n2| == |h1| == |h2| == 32
    ensures Token(n1, h1) == Token(n2, h2) <==> n1 == n2 && h1 == h2
    ensures Epoch(n1) == Epoch(n2) <==> n1 == n2
  {
    EncodedIsPlain(n1);
    EncodedIsPlain(n2);
    EncodingIsInjective(n1, n2);
    EncodingIsInjective(h1, h2);
    var t1, t2, e1, e2 := Token(n1, h1), Token(n2, h2), Epoch(n1), Epoch(n2);
    assert Encode(n1) == t1[5..48] == e1[6..] && Encode(n2) == t2[5..48] == e2[6..];
    assert Encode(h1) == t1[49..] && Encode(h2) == t2[49..];
  }

  // ---------- binding ----------

  datatype Failure =
    | MissingRevision  // empty, over 4096 bytes or not UTF-8
    | InvalidText      // an empty or non-UTF-8 native revision
    | InvalidEpoch
    | Unbound          // not "ovc1" and two more parts
    | InvalidBinding

  datatype Result = Ok(text: bytes) | Err(failure: Failure)

  ghost predicate IsEpoch(epoch: bytes) {
    exists nonce :: IsNonce(nonce) && epoch == Epoch(nonce)
  }

  ghost predicate IsToken(revision: bytes) {
    exists nonce, hash :: IsNonce(nonce) && IsNonce(hash) && revision == Token(nonce, hash)
  }

  ghost predicate HasThreeParts(revision: bytes) {
    exists a, b :: DOT !in a && DOT !in b && revision == REVISION_TAG + [DOT] + a + [DOT] + b
  }

  /** A running hash; only the bytes written so far matter. */
  class Hash {
    var written: bytes

    constructor ()
      ensures written == []
    {
      written := [];
    }

    method Write(b: bytes)
      modifies this
      ensures written == old(written) + b
    {
      written := written + b;
    }
  }

  method BoundCatalogRevision(sha: bytes -> bytes, nonce: bytes, native: bytes) returns (token: bytes)
    requires IsNonce(nonce)
    ensures token == Token(nonce, sha(Preimage(nonce, native)))
  {
    var h := new Hash();
    h.Write(HASH_DOMAIN);
    h.Write(nonce);
    h.Write(BigEndian(|native|, 8));
    h.Write(native);
    assert [] + HASH_DOMAIN == HASH_DOMAIN;
    return REVISION_TAG + [DOT] + Encode(nonce) + [DOT] + Encode(sha(h.written));
  }

  /** Fails only when the source of randomness does; the epoch is then one that binding accepts. */
  method NewCatalogBindingEpoch(random: Option<bytes>) returns (r: Option<bytes>)
    requires random.Some? ==> IsNonce(random.value)
    ensures r.Some? <==> random.Some?
    ensures r.Some? ==> IsEpoch(r.value) && r.value == Epoch(random.value)
  {
    if random.None? {
      return None;
    }
    r := Some(EPOCH_TAG + [DOT] + Encode(random.value));
  }

  /** Accepts exactly the tagged encodings of 32 bytes, each in its one spelling. */
  method BindCatalogRevision(utf8: bytes -> bool, sha: bytes -> bytes, epoch: bytes, native: bytes)
    returns (r: Result)
    requires AsciiIsValid(utf8)
    ensures r.Ok? <==> IsEpoch(epoch) && native != [] && utf8(native)
    ensures r.Ok? ==> forall nonce | IsNonce(nonce) && epoch == Epoch(nonce) ::
      r.text == Token(nonce, sha(Preimage(nonce, native)))
    ensures r.Err? ==> match r.failure
      case MissingRevision => !RevisionOk(utf8, epoch, MAX_CATALOG_REVISION_BYTES)
      case InvalidText => RevisionOk(utf8, epoch, MAX_CATALOG_REVISION_BYTES) && !(native != [] && utf8(native))
      case InvalidEpoch =>
        RevisionOk(utf8, epoch, MAX_CATALOG_REVISION_BYTES) && native != [] && utf8(native) && !IsEpoch(epoch)
      case _ => false
  {
    hide Encode, Decode, Split;
    EpochShape(epoch);
    forall nonce | IsNonce(nonce)
      ensures RevisionOk(utf8, Epoch(nonce), MAX_CATALOG_REVISION_BYTES)
    {
      TokensAreRevisions(utf8, nonce, nonce);
    }
    if ValidateRevision(utf8, epoch, MAX_CATALOG_REVISION_BYTES).Some? {
      return Err(MissingRevision);
    }
    if !utf8(native) || native == [] {
      return Err(InvalidText);
    }
    var parts := Split(epoch, DOT);
    if |parts| != 2 || parts[0] != EPOCH_TAG {
      return Err(InvalidEpoch);
    }
    if !Canonical(parts[1]) {
      return Err(InvalidEpoch);
    }
    var nonce := Decode(parts[1]).value;
    var token := BoundCatalogRevision(sha, nonce, native);
    forall other | IsNonce(other) && epoch == Epoch(other) ensures other == nonce {
      TokenIsInjective(other, other, nonce, nonce);
    }
    r := Ok(token);
  }

  lemma TagsArePlain()
    ensures DOT !in EPOCH_TAG && DOT !in REVISION_TAG
    ensures forall c | c in EPOCH_TAG + REVISION_TAG :: c < 128
    ensures |EPOCH_TAG| == 5 && |REVISION_TAG| == 4
  {
  }

  lemma JoinTwo(s: bytes, a: bytes)
    requires DOT !in a
    ensures s == EPOCH_TAG + [DOT] + a <==> Split(s, DOT) == [EPOCH_TAG, a]
  {
    TagsArePlain();
    var parts := [EPOCH_TAG, a];
    assert parts[1..] == [a];
    assert Join(parts, DOT) == EPOCH_TAG + [DOT] + a;
    SplitInvertsJoin(s, parts, DOT);
  }

  lemma JoinThree(s: bytes, a: bytes, b: bytes)
    requires DOT !in a && DOT !in b
    ensures s == REVISION_TAG + [DOT] + a + [DOT] + b <==> Split(s, DOT) == [REVISION_TAG, a, b]
  {
    TagsArePlain();
    var parts := [REVISION_TAG, a, b];
    assert parts[1..] == [a, b] && [a, b][1..] == [b];
    assert Join([a, b], DOT) == a + [DOT] + b;
    assert Join(parts, DOT) == REVISION_TAG + [DOT] + a + [DOT] + b;
    SplitInvertsJoin(s, parts, DOT);
  }

  /** Every epoch and token is within bounds itself. */
  lemma TokensAreRevisions(utf8: bytes -> bool, nonce: bytes, hash: bytes)
    requires AsciiIsValid(utf8) && IsNonce(nonce) && IsNonce(hash)
    ensures RevisionOk(utf8, Epoch(nonce), MAX_CATALOG_REVISION_BYTES)
    ensures RevisionOk(utf8, Token(nonce, hash), MAX_CATALOG_REVISION_BYTES)
  {
    hide Encode;
    EncodedIsPlain(nonce);
    EncodedIsPlain(hash);
    TagsArePlain();
    assert forall c | c in Epoch(nonce) :: c < 128;
    assert forall c | c in Token(nonce, hash) :: c < 128;
  }

  /** An epoch is two dot-free parts, the tag and a canonical one. */
  lemma EpochShape(epoch: bytes)
    ensures IsEpoch(epoch) <==> |Split(epoch, DOT)| == 2 && Split(epoch, DOT)[0] == EPOCH_TAG && Canonical(Split(epoch, DOT)[1])
    ensures IsEpoch(epoch) ==> epoch == Epoch(Decode(Split(epoch, DOT)[1]).value)
  {
    hide Encode, Decode, Split;
    if IsEpoch(epoch) {
      var nonce :| IsNonce(nonce) && epoch == Epoch(nonce);
      EncodedIsPlain(nonce);
      JoinTwo(epoch, Encode(nonce));
      CanonicalIsEncoding(Encode(nonce));
    }
    var parts := Split(epoch, DOT);
    if |parts| == 2 && parts[0] == EPOCH_TAG && Canonical(parts[1]) {
      SplitThenJoin(epoch, DOT);
      assert parts == [EPOCH_TAG, parts[1]];
      JoinTwo(epoch, parts[1]);
      assert epoch == Epoch(Decode(parts[1]).value);
    }
  }

  lemma PartsOfThree(revision: bytes)
    ensures HasThreeParts(revision) <==> |Split(revision, DOT)| == 3 && Split(revision, DOT)[0] == REVISION_TAG
    ensures HasThreeParts(revision) ==>
      revision == REVISION_TAG + [DOT] + Split(revision, DOT)[1] + [DOT] + Split(revision, DOT)[2]
  {
    hide Split;
    if HasThreeParts(revision) {
      var a, b :| DOT !in a && DOT !in b && revision == REVISION_TAG + [DOT] + a + [DOT] + b;
      JoinThree(revision, a, b);
    }
    var parts := Split(revision, DOT);
    if |parts| == 3 && parts[0] == REVISION_TAG {
      SplitThenJoin(revision, DOT);
      assert parts == [REVISION_TAG, parts[1], parts[2]];
      JoinThree(revision, parts[1], parts[2]);
    }
  }

  /** A token is three dot-free parts, the tag and two canonical ones. */
  lemma TokenShape(revision: bytes)
    ensures IsToken(revision) <==>
      HasThreeParts(revision) && |Split(revision, DOT)| == 3
      && Canonical(Split(revision, DOT)[1]) && Canonical(Split(revision, DOT)[2])
  {
    hide Encode, Decode, Split, HasThreeParts;
    PartsOfThree(revision);
    if IsToken(revision) {
      var nonce, hash :| IsNonce(nonce) && IsNonce(hash) && revision == Token(nonce, hash);
      EncodedIsPlain(nonce);
      EncodedIsPlain(hash);
      CanonicalIsEncoding(Encode(nonce));
      CanonicalIsEncoding(Encode(hash));
      JoinThree(revision, Encode(nonce), Encode(hash));
    }
    var parts := Split(revision, DOT);
    if HasThreeParts(revision) && Canonical(parts[1]) && Canonical(parts[2]) {
      assert revision == Token(Decode(parts[1]).value, Decode(parts[2]).value);
    }
  }

  /** Answers the epoch a token was bound under, and only for texts of that form. */
  method CatalogBindingEpoch(utf8: bytes -> bool, revision: bytes) returns (r: Result)
    requires AsciiIsValid(utf8)
    ensures r.Ok? <==> IsToken(revision)
    ensures r.Ok? ==> forall nonce, hash | IsNonce(nonce) && IsNonce(hash) && revision == Token(nonce, hash) ::
      r.text == Epoch(nonce)
    ensures r.Err? ==> match r.failure
      case MissingRevision => !RevisionOk(utf8, revision, MAX_CATALOG_REVISION_BYTES)
      case Unbound => RevisionOk(utf8, revision, MAX_CATALOG_REVISION_BYTES) && !HasThreeParts(revision)
      case InvalidBinding =>
        RevisionOk(utf8, revision, MAX_CATALOG_REVISION_BYTES) && HasThreeParts(revision) && !IsToken(revision)
      case _ => false
  {
    hide Encode, Decode, Split, HasThreeParts;
    TokenShape(revision);
    PartsOfThree(revision);
    forall nonce, hash | IsNonce(nonce) && IsNonce(hash)
      ensures RevisionOk(utf8, Token(nonce, hash), MAX_CATALOG_REVISION_BYTES)
    {
      TokensAreRevisions(utf8, nonce, hash);
    }
    if ValidateRevision(utf8, revision, MAX_CATALOG_REVISION_BYTES).Some? {
      return Err(MissingRevision);
    }
    var parts := Split(revision, DOT);
    if |parts| != 3 || parts[0] != REVISION_TAG {
      return Err(Unbound);
    }
    for i := 1 to 3
      invariant forall k | 1 <= k < i :: Canonical(parts[k])
    {
      if !Canonical(parts[i]) {
        return Err(InvalidBinding);
      }
    }
    forall nonce, hash | IsNonce(nonce) && IsNonce(hash) && revision == Token(nonce, hash)
      ensures Encode(nonce) == parts[1]
    {
      TokenIsInjective(nonce, hash, Decode(parts[1]).value, Decode(parts[2]).value);
    }
    r := Ok(EPOCH_TAG + [DOT] + parts[1]);
  }

  // ---------- what the tokens are for ----------

  /** Every accepted binding answers its epoch again, whatever the native revision. */
  method BindThenEpoch(utf8: bytes -> bool, sha: bytes -> bytes, epoch: bytes, native: bytes)
    returns (bound: Result, answer: Result)
    requires AsciiIsValid(utf8) && IsDigest(sha)
    ensures bound.Ok? ==> answer == Ok(epoch)
    ensures bound.Err? ==> answer == bound
  {
    bound := BindCatalogRevision(utf8, sha, epoch, native);
    if bound.Err? {
      return bound, bound;
    }
    ghost var nonce :| IsNonce(nonce) && epoch == Epoch(nonce);
    assert bound.text == Token(nonce, sha(Preimage(nonce, native)));
    answer := CatalogBindingEpoch(utf8, bound.text);
  }

  /**
    Two bindings share a token exactly when they share the epoch and the native revision, or the hash
    collides on two different inputs.
  */
  lemma TokensSeparateBindings(sha: bytes -> bytes, n1: bytes, r1: bytes, n2: bytes, r2: bytes)
    requires IsNonce(n1) && IsNonce(n2) && IsDigest(sha)
    ensures
      var p1, p2 := Preimage(n1, r1), Preimage(n2, r2);
      Token(n1, sha(p1)) == Token(n2, sha(p2)) <==>
        Epoch(n1) == Epoch(n2) && (r1 == r2 || (p1 != p2 && sha(p1) == sha(p2)))
  {
    TokenIsInjective(n1, sha(Preimage(n1, r1)), n2, sha(Preimage(n2, r2)));
    if Preimage(n1, r1) == Preimage(n2, r2) {
      PreimageIsInjective(n1, r1, n2, r2);
    }
  }
}
