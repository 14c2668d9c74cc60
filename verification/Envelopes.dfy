/**
ChaCha20-Poly1305 (section 2.8 of RFC 8439) and the end-to-end envelope built on it. HKDF and the key
id are given as functions; random values are arguments.
*/
module Envelopes {
  import opened ByteStrings
  import opened Wrappers
  import Base64
  import ChaCha20
  import ChaChaSteps
  import FieldArithmetic
  import MontgomeryLadder
  import Poly1305
  import ScalarMultiples
  import X25519

  // ----- authenticated encryption ---------------------------------------------------------

  function Pad16(b: Bytes): (p: Bytes)
    ensures |p| == |b| + (16 - |b| % 16) % 16 && |p| % 16 == 0 && p[..|b|] == b
  {
    b + Zeros((16 - |b| % 16) % 16)
  }

  /** What the tag covers. */
  function MacData(aad: Bytes, ct: Bytes): Bytes {
    Pad16(aad) + Pad16(ct) + ToLittle(|aad|, 8) + ToLittle(|ct|, 8)
  }

  lemma {:induction false} PadLengthIsFixed(a: Bytes, b: Bytes)
    requires |a| == |b|
    ensures |Pad16(a)| == |Pad16(b)|
  {
  }

  /** Different data never gives the same authenticated bytes. */
  lemma {:induction false} MacDataIsInjective(aad: Bytes, ct: Bytes, aad2: Bytes, ct2: Bytes)
    requires |aad| < Pow256(8) && |ct| < Pow256(8) && |aad2| < Pow256(8) && |ct2| < Pow256(8)
    requires MacData(aad, ct) == MacData(aad2, ct2)
    ensures aad == aad2 && ct == ct2
  {
    var m, m2 := MacData(aad, ct), MacData(aad2, ct2);
    var n := |m|;
    assert m[n - 8..] == ToLittle(|ct|, 8) && m2[n - 8..] == ToLittle(|ct2|, 8);
    assert m[n - 16..n - 8] == ToLittle(|aad|, 8) && m2[n - 16..n - 8] == ToLittle(|aad2|, 8);
    ToLittleIsInjective(|ct|, |ct2|, 8);
    ToLittleIsInjective(|aad|, |aad2|, 8);
    PadLengthIsFixed(aad, aad2);
    var p := |Pad16(aad)|;
    assert m[..p] == Pad16(aad) && m2[..p] == Pad16(aad2);
    assert m[p..n - 16] == Pad16(ct) && m2[p..n - 16] == Pad16(ct2);
    assert aad == Pad16(aad)[..|aad|] && aad2 == Pad16(aad2)[..|aad2|];
    assert ct == Pad16(ct)[..|ct|] && ct2 == Pad16(ct2)[..|ct2|];
  }

  function OneTimeKey(key: Bytes, nonce: Bytes): (k: Bytes)
    requires |key| == 32 && |nonce| == 12
    ensures |k| == 32
  {
    ChaCha20.Block(key, 0, nonce)[..32]
  }

  function TagOf(key: Bytes, nonce: Bytes, ct: Bytes, aad: Bytes): (t: Bytes)
    requires |key| == 32 && |nonce| == 12
    ensures |t| == 16
  {
    Poly1305.Tag(MacData(aad, ct), OneTimeKey(key, nonce))
  }

  /** None is the refusal of a wrong tag. */
  function AeadDecrypt(key: Bytes, nonce: Bytes, ct: Bytes, tag: Bytes, aad: Bytes): Option<Bytes>
    requires |key| == 32 && |nonce| == 12
  {
    if |tag| != 16 || tag != TagOf(key, nonce, ct, aad) then None
    else Some(ChaCha20.Xored(key, 1, nonce, ct))
  }

  method AeadEncrypt(key: Bytes, nonce: Bytes, plaintext: Bytes, aad: Bytes) returns (ct: Bytes, tag: Bytes)
    requires |key| == 32 && |nonce| == 12
    ensures ct == ChaCha20.Xored(key, 1, nonce, plaintext) && tag == TagOf(key, nonce, ct, aad)
    ensures AeadDecrypt(key, nonce, ct, tag, aad) == Some(plaintext)
  {
    var block := ChaCha20.ComputeBlock(key, 0, nonce);
    ct := ChaCha20.XorStream(key, 1, nonce, plaintext);
    tag := Poly1305.Mac(MacData(aad, ct), block[..32]);
    ChaCha20.XoredTwice(key, 1, nonce, plaintext);
  }

  /** The tag is right for these data and this ciphertext under the first half of block 0. */
  predicate Authenticates(key: Bytes, nonce: Bytes, aad: Bytes, ct: Bytes, tag: Bytes)
    requires |key| == 32 && |nonce| == 12
  {
    Poly1305.Right(MacData(aad, ct), ChaCha20.Block(key, 0, nonce)[..32], tag)
  }

  /** A ciphertext is accepted if and only if its tag is the authenticator of exactly these data and bytes. */
  lemma {:induction false} AcceptedExactly(key: Bytes, nonce: Bytes, ct: Bytes, tag: Bytes, aad: Bytes)
    requires |key| == 32 && |nonce| == 12
    ensures AeadDecrypt(key, nonce, ct, tag, aad).Some? <==> Authenticates(key, nonce, aad, ct, tag)
  {
    Poly1305.TagIsRight(MacData(aad, ct), OneTimeKey(key, nonce), tag);
  }

  /** Byte i of what is accepted is byte i of the ciphertext under the keystream from block 1 on. */
  lemma {:induction false} DecryptedBytes(key: Bytes, nonce: Bytes, ct: Bytes, tag: Bytes, aad: Bytes, p: Bytes, i: nat, counter: nat)
    requires |key| == 32 && |nonce| == 12 && AeadDecrypt(key, nonce, ct, tag, aad) == Some(p)
    requires i < |ct| && counter == (1 + i / 64) % ChaCha20.WORDS
    ensures |p| == |ct| && p[i] == XorByte(ct[i], ChaCha20.Block(key, counter, nonce)[i % 64])
  {
    assert p == ChaCha20.Xored(key, 1, nonce, ct);
    ChaChaSteps.StreamIs(key, 1, counter, nonce, ct, i);
  }

  /** The authenticated bytes are the data, the ciphertext, each padded to sixteen, and both lengths in eight bytes. */
  lemma {:induction false} MacDataIs(aad: Bytes, ct: Bytes)
    requires |aad| < Pow256(8) && |ct| < Pow256(8)
    ensures var m := MacData(aad, ct); var a := |aad| + (16 - |aad| % 16) % 16; var c := |ct| + (16 - |ct| % 16) % 16;
      && |m| == a + c + 16
      && m[..a] == aad + Zeros(a - |aad|) && m[a..a + c] == ct + Zeros(c - |ct|)
      && Little(m[a + c..a + c + 8]) == |aad| && Little(m[a + c + 8..]) == |ct|
  {
    var m, a, c := MacData(aad, ct), |Pad16(aad)|, |Pad16(ct)|;
    Concatenated(Pad16(aad), Pad16(ct), ToLittle(|aad|, 8), ToLittle(|ct|, 8));
    WrittenRoundTrip(|aad|, Zeros(8));
    WrittenRoundTrip(|ct|, Zeros(8));
  }

  lemma {:induction false} Concatenated(a: Bytes, b: Bytes, c: Bytes, d: Bytes)
    requires |c| == |d| == 8
    ensures var m := a + b + c + d; var n := |a| + |b|;
      m[..|a|] == a && m[|a|..n] == b && m[n..n + 8] == c && m[n + 8..] == d
  {
  }

  /**
  One tag accepted for two different pairs of data and ciphertext makes the secret multiplier r a root of one of
  seven equations between two polynomials that differ in length or in a coefficient.
  */
  lemma {:induction false} ForgeryPinsMultiplier(key: Bytes, nonce: Bytes, aad: Bytes, ct: Bytes, aad2: Bytes, ct2: Bytes, tag: Bytes)
    returns (k: int)
    requires |key| == 32 && |nonce| == 12 && (aad != aad2 || ct != ct2)
    requires |aad| < Pow256(8) && |ct| < Pow256(8) && |aad2| < Pow256(8) && |ct2| < Pow256(8)
    requires AeadDecrypt(key, nonce, ct, tag, aad).Some? && AeadDecrypt(key, nonce, ct2, tag, aad2).Some?
    ensures var c, c2 := Poly1305.Coefficients(MacData(aad, ct)), Poly1305.Coefficients(MacData(aad2, ct2));
      var r := Poly1305.ClampedR(ChaCha20.Block(key, 0, nonce)[..32]);
      && c != c2 && -4 < k < 4
      && Poly1305.Polynomial(c, r) % Poly1305.P - Poly1305.Polynomial(c2, r) % Poly1305.P == k * Poly1305.P128
  {
    AcceptedExactly(key, nonce, ct, tag, aad);
    AcceptedExactly(key, nonce, ct2, tag, aad2);
    if MacData(aad, ct) == MacData(aad2, ct2) {
      MacDataIsInjective(aad, ct, aad2, ct2);
    }
    k := Poly1305.OneTagTwoMessages(MacData(aad, ct), MacData(aad2, ct2), ChaCha20.Block(key, 0, nonce)[..32], tag);
  }

  // ----- the envelope ---------------------------------------------------------------------

  const VERSION: int := 1
  const ALG: string := "x25519-chacha20poly1305"

  datatype Envelope = Envelope(v: int, alg: string, eph: string, nonce: string, kid: string, ct: string)

  /** A 32-byte key from a secret and its context, an 8-byte id of a public key, and scalar multiplication. */
  datatype Primitives = Primitives(
    derive: (Bytes, Bytes) -> Bytes, keyId: Bytes -> Bytes, multiply: (Bytes, Bytes) -> Bytes)

  ghost predicate Sized(h: Primitives) {
    && (forall s, c :: |h.derive(s, c)| == 32)
    && (forall k :: |h.keyId(k)| == 8)
    && (forall s, p :: |h.multiply(s, p)| == 32)
  }

  const PREFIX: Bytes := [0x63, 0x6c, 0x61, 0x63, 0x6b, 0x2d, 0x65, 0x6e, 0x63, 0x2d, 0x76, 0x31]

  function Base(): (b: Bytes)
    ensures |b| == 32
  {
    ToLittle(9, 32)
  }

  /** The key of a message between two named peers; an all-zero secret or an empty name is refused. */
  function MessageKey(h: Primitives, shared: Bytes, sender: Bytes, recipient: Bytes): Option<Bytes> {
    if shared == Zeros(32) || sender == [] || recipient == [] then None
    else Some(h.derive(shared, PREFIX + sender + recipient))
  }

  /** The envelope around a ciphertext under a known key. */
  function Wrapped(key: Bytes, ephPub: Bytes, kid: Bytes, nonce: Bytes, plaintext: Bytes): Envelope
    requires |key| == 32 && |nonce| == 12
  {
    var ct := ChaCha20.Xored(key, 1, nonce, plaintext);
    Envelope(VERSION, ALG, Base64.Encode(ephPub), Base64.Encode(nonce), Base64.Encode(kid),
             Base64.Encode(ct + TagOf(key, nonce, ct, [])))
  }

  /** None is a refusal to encrypt. `eph` and `nonce` are the fresh random values. */
  function Sealed(h: Primitives, sender: Bytes, recipient: Bytes, pub: Bytes, plaintext: Bytes, eph: Bytes, nonce: Bytes): Option<Envelope>
    requires |eph| == 32 && |nonce| == 12 && forall s, c :: |h.derive(s, c)| == 32
  {
    if |pub| != 32 then None
    else
      var key := MessageKey(h, h.multiply(eph, pub), sender, recipient);
      if key == None then None
      else Some(Wrapped(key.value, h.multiply(eph, Base()), h.keyId(pub), nonce, plaintext))
  }

  /** The shape that a relay enforces without decrypting. */
  predicate WellFormed(e: Envelope) {
    && e.v == VERSION && e.alg == ALG
    && Base64.Decode(e.eph).Some? && |Base64.Decode(e.eph).value| == 32
    && Base64.Decode(e.nonce).Some? && |Base64.Decode(e.nonce).value| == 12
    && Base64.Decode(e.kid).Some? && |Base64.Decode(e.kid).value| == 8
    && Base64.Decode(e.ct).Some? && |Base64.Decode(e.ct).value| >= 16
  }

  /** Decrypts the fields of a well-formed envelope under a known key. */
  function Unwrapped(key: Bytes, e: Envelope): Option<Bytes>
    requires |key| == 32 && WellFormed(e)
  {
    var all := Base64.Decode(e.ct).value;
    AeadDecrypt(key, Base64.Decode(e.nonce).value, all[..|all| - 16], all[|all| - 16..], [])
  }

  function Opened(h: Primitives, priv: Bytes, e: Envelope, sender: Bytes, recipient: Bytes): Option<Bytes>
    requires |priv| == 32 && forall s, c :: |h.derive(s, c)| == 32
  {
    if !WellFormed(e) then None
    else if Base64.Encode(h.keyId(h.multiply(priv, Base()))) != e.kid then None
    else
      var key := MessageKey(h, h.multiply(priv, Base64.Decode(e.eph).value), sender, recipient);
      if key == None then None else Unwrapped(key.value, e)
  }

  /** Scalar multiplication of the base point commutes for the two private scalars. */
  predicate Commutes(h: Primitives, a: Bytes, b: Bytes) {
    h.multiply(a, h.multiply(b, Base())) == h.multiply(b, h.multiply(a, Base()))
  }

  lemma {:induction false} WrappedUnwraps(key: Bytes, ephPub: Bytes, kid: Bytes, nonce: Bytes, plaintext: Bytes)
    requires |key| == 32 && |ephPub| == 32 && |kid| == 8 && |nonce| == 12
    ensures var e := Wrapped(key, ephPub, kid, nonce, plaintext);
      && WellFormed(e) && Base64.Decode(e.eph) == Some(ephPub) && e.kid == Base64.Encode(kid)
      && Unwrapped(key, e) == Some(plaintext)
  {
    var ct := ChaCha20.Xored(key, 1, nonce, plaintext);
    var tag := TagOf(key, nonce, ct, []);
    Base64.RoundTrip(ephPub);
    Base64.RoundTrip(nonce);
    Base64.RoundTrip(kid);
    Base64.RoundTrip(ct + tag);
    assert (ct + tag)[..|ct + tag| - 16] == ct && (ct + tag)[|ct + tag| - 16..] == tag;
    ChaCha20.XoredTwice(key, 1, nonce, plaintext);
  }

  /** Both sides refuse the same secrets: sealing fails exactly when opening with that secret would. */
  lemma {:induction false} ZeroSecretsAreRefused(h: Primitives, sender: Bytes, recipient: Bytes, pub: Bytes, plaintext: Bytes, eph: Bytes, nonce: Bytes)
    requires Sized(h) && |eph| == 32 && |nonce| == 12
    ensures Sealed(h, sender, recipient, pub, plaintext, eph, nonce) == None <==>
      |pub| != 32 || h.multiply(eph, pub) == Zeros(32) || sender == [] || recipient == []
  {
  }

  lemma {:induction false} SealedOpens(h: Primitives, sender: Bytes, recipient: Bytes, priv: Bytes, plaintext: Bytes, eph: Bytes, nonce: Bytes)
    requires Sized(h) && |priv| == 32 && |eph| == 32 && |nonce| == 12 && Commutes(h, eph, priv)
    ensures var e := Sealed(h, sender, recipient, h.multiply(priv, Base()), plaintext, eph, nonce);
      e.Some? ==> WellFormed(e.value) && Opened(h, priv, e.value, sender, recipient) == Some(plaintext)
  {
    var pub, ephPub := h.multiply(priv, Base()), h.multiply(eph, Base());
    var key := MessageKey(h, h.multiply(eph, pub), sender, recipient);
    if key.Some? {
      WrappedUnwraps(key.value, ephPub, h.keyId(pub), nonce, plaintext);
    }
  }

  /**
  Every envelope that is sealed is well-formed and opens to its plaintext, and only a zero secret or an
  empty name keeps one from being sealed.
  */
  lemma {:induction false} EnvelopeRoundTrip(h: Primitives, sender: Bytes, recipient: Bytes, priv: Bytes, plaintext: Bytes, eph: Bytes, nonce: Bytes)
    requires Sized(h) && |priv| == 32 && |eph| == 32 && |nonce| == 12 && Commutes(h, eph, priv)
    ensures var e := Sealed(h, sender, recipient, h.multiply(priv, Base()), plaintext, eph, nonce);
      && (e.Some? ==> WellFormed(e.value) && Opened(h, priv, e.value, sender, recipient) == Some(plaintext))
      && (e == None <==>
            h.multiply(eph, h.multiply(priv, Base())) == Zeros(32) || sender == [] || recipient == [])
  {
    SealedOpens(h, sender, recipient, priv, plaintext, eph, nonce);
    ZeroSecretsAreRefused(h, sender, recipient, h.multiply(priv, Base()), plaintext, eph, nonce);
  }

  /** The tag at the end of a well-formed envelope is the authenticator of the ciphertext before it. */
  predicate Tagged(key: Bytes, e: Envelope)
    requires |key| == 32 && WellFormed(e)
  {
    var all := Base64.Decode(e.ct).value;
    Authenticates(key, Base64.Decode(e.nonce).value, [], all[..|all| - 16], all[|all| - 16..])
  }

  /** The fields of a well-formed envelope decrypt under a key if and only if its tag is the authenticator of its ciphertext. */
  lemma {:induction false} OpeningIsAuthenticated(key: Bytes, e: Envelope)
    requires |key| == 32 && WellFormed(e)
    ensures Unwrapped(key, e).Some? <==> Tagged(key, e)
  {
    var all := Base64.Decode(e.ct).value;
    AcceptedExactly(key, Base64.Decode(e.nonce).value, all[..|all| - 16], all[|all| - 16..], []);
  }

  /** Version, encodings, recipient and names are in order, and the secret is not zero. */
  predicate Addressed(h: Primitives, priv: Bytes, e: Envelope, sender: Bytes, recipient: Bytes) {
    && WellFormed(e) && e.kid == Base64.Encode(h.keyId(h.multiply(priv, Base())))
    && sender != [] && recipient != [] && h.multiply(priv, Base64.Decode(e.eph).value) != Zeros(32)
  }

  /** One in order opens to its fields under the key derived from the secret and both names, and no other opens at all. */
  lemma {:induction false} OpenedExactly(h: Primitives, priv: Bytes, e: Envelope, sender: Bytes, recipient: Bytes)
    requires Sized(h) && |priv| == 32
    ensures Opened(h, priv, e, sender, recipient)
      == if Addressed(h, priv, e, sender, recipient)
         then Unwrapped(h.derive(h.multiply(priv, Base64.Decode(e.eph).value), PREFIX + sender + recipient), e) else None
  {
  }

  /** What stands in a sealed envelope: version, algorithm, the ephemeral key, the nonce and the id of the recipient's key. */
  predicate Carries(e: Envelope, ephPub: Bytes, kid: Bytes, nonce: Bytes, length: nat) {
    && e.v == 1 && e.alg == "x25519-chacha20poly1305"
    && Base64.Decode(e.eph) == Some(ephPub) && Base64.Decode(e.nonce) == Some(nonce) && Base64.Decode(e.kid) == Some(kid)
    && Base64.Decode(e.ct).Some? && |Base64.Decode(e.ct).value| == length + 16
  }

  lemma {:induction false} SealedFields(h: Primitives, sender: Bytes, recipient: Bytes, pub: Bytes, plaintext: Bytes, eph: Bytes, nonce: Bytes)
    requires Sized(h) && |eph| == 32 && |nonce| == 12
    ensures var e := Sealed(h, sender, recipient, pub, plaintext, eph, nonce);
      e.Some? ==> Carries(e.value, h.multiply(eph, Base()), h.keyId(pub), nonce, |plaintext|)
  {
    var key := MessageKey(h, h.multiply(eph, pub), sender, recipient);
    if |pub| == 32 && key.Some? {
      var e := Wrapped(key.value, h.multiply(eph, Base()), h.keyId(pub), nonce, plaintext);
      WrappedFields(key.value, h.multiply(eph, Base()), h.keyId(pub), nonce, plaintext);
      assert Sealed(h, sender, recipient, pub, plaintext, eph, nonce) == Some(e);
    }
  }

  lemma {:induction false} WrappedFields(key: Bytes, ephPub: Bytes, kid: Bytes, nonce: Bytes, plaintext: Bytes)
    requires |key| == 32 && |nonce| == 12
    ensures Carries(Wrapped(key, ephPub, kid, nonce, plaintext), ephPub, kid, nonce, |plaintext|)
  {
    var ct := ChaCha20.Xored(key, 1, nonce, plaintext);
    Base64.RoundTrip(ephPub);
    Base64.RoundTrip(nonce);
    Base64.RoundTrip(kid);
    Base64.RoundTrip(ct + TagOf(key, nonce, ct, []));
  }

  /** The base point has coordinate nine. */
  lemma {:induction false} NineIsBase()
    ensures Base() == [9] + Zeros(31)
  {
    ZeroIsWritten(Zeros(31));
    assert Zeros(32)[1..] == Zeros(31);
  }

  lemma {:induction false} ZeroIsWritten(field: Bytes)
    ensures Written(0, field) == Zeros(|field|)
  {
    if field != [] {
      ZeroIsWritten(field[1..]);
    }
  }

  /** With the delayed-swap ladder as the multiplication nothing but the field and the group axioms is assumed. */
  lemma {:induction false} LadderEnvelopeRoundTrip(
    derive: (Bytes, Bytes) -> Bytes, keyId: Bytes -> Bytes,
    sender: Bytes, recipient: Bytes, priv: Bytes, plaintext: Bytes, eph: Bytes, nonce: Bytes)
    requires (forall s, c :: |derive(s, c)| == 32) && (forall k :: |keyId(k)| == 8)
    requires |priv| == 32 && |eph| == 32 && |nonce| == 12
    requires FieldArithmetic.Field() && MontgomeryLadder.Group(MontgomeryLadder.A, 1)
    ensures var h := Primitives(derive, keyId, X25519.Multiply);
      var e := Sealed(h, sender, recipient, h.multiply(priv, Base()), plaintext, eph, nonce);
      && (e.Some? ==> Opened(h, priv, e.value, sender, recipient) == Some(plaintext))
      && (e == None <==>
            h.multiply(eph, h.multiply(priv, Base())) == Zeros(32) || sender == [] || recipient == [])
  {
    ScalarMultiples.ScalarsCommute(eph, priv);
    EnvelopeRoundTrip(Primitives(derive, keyId, X25519.Multiply), sender, recipient, priv, plaintext, eph, nonce);
  }
}
