/** The foreign parts of the system: AES-GCM, Diffie-Hellman, signatures, the directory iterator, the floating-point unit.
    They are tables; `Ideal` says what an honest run relies on. */
module Env {
  import opened Config
  import opened Bytes
  import opened Listing
  import opened Codecs

  datatype SealInput = SealInput(key: bytes, iv: bytes, aad: bytes, text: bytes)
  datatype Sealed = Sealed(text: bytes, tag: bytes)
  datatype OpenInput = OpenInput(key: bytes, iv: bytes, aad: bytes, sealed: Sealed)
  datatype Signed = Signed(publicKey: bytes, text: bytes, signature: bytes)

  /** The foreign functions as tables; a missing entry is a failed call. */
  datatype Foreign = Foreign(
    sealing: imap<SealInput, Sealed>,
    opening: imap<OpenInput, bytes>,
    written: imap<nat, bytes>,             // PEM of an ephemeral public key
    read: imap<bytes, nat>,
    digests: imap<nat, bytes>,             // SHA-256 of a shared secret
    clientSignatures: imap<bytes, bytes>,
    serverSignatures: imap<bytes, bytes>,
    verified: iset<Signed>,
    certified: imap<bytes, bytes>,         // a certificate that verifies -> the key it carries
    iterated: imap<set<Name>, seq<Name>>,  // the order of a directory iterator
    quotients: imap<nat, real>)            // a size over CHUNK_SIZE, as a double

  type Modulus = x: int | x > 0 witness 1

  datatype Env = Env(
    foreign: Foreign,
    prime: Modulus,
    generator: nat,
    registered: map<Name, bytes>,          // user -> stored public key
    certificate: bytes)
  {
    function Seal(key: bytes, iv: bytes, aad: bytes, text: bytes): Sealed {
      var x := SealInput(key, iv, aad, text);
      if x in foreign.sealing then foreign.sealing[x] else Sealed([], [])
    }

    function Open(key: bytes, iv: bytes, aad: bytes, sealed: Sealed): Option<bytes> {
      var x := OpenInput(key, iv, aad, sealed);
      if x in foreign.opening then Some(foreign.opening[x]) else None
    }

    function WriteKey(x: nat): bytes {
      if x in foreign.written then foreign.written[x] else []
    }

    function ReadKey(pem: bytes): Option<nat> {
      if pem in foreign.read then Some(foreign.read[pem]) else None
    }

    function Digest(x: nat): bytes {
      if x in foreign.digests then foreign.digests[x] else []
    }

    function ClientSign(text: bytes): bytes {
      if text in foreign.clientSignatures then foreign.clientSignatures[text] else []
    }

    function ServerSign(text: bytes): bytes {
      if text in foreign.serverSignatures then foreign.serverSignatures[text] else []
    }

    predicate Verify(publicKey: bytes, text: bytes, signature: bytes) {
      Signed(publicKey, text, signature) in foreign.verified
    }

    function CertifiedKey(cert: bytes): Option<bytes> {
      if cert in foreign.certified then Some(foreign.certified[cert]) else None
    }

    function Entries(names: set<Name>): seq<Name> {
      if names in foreign.iterated then foreign.iterated[names] else []
    }

    function Quotient(size: nat): real {
      if size in foreign.quotients then foreign.quotients[size] else 0.0
    }
  }

  ghost predicate SealOpens(env: Env) {
    forall key, iv, aad, text ::
      var sealed := env.Seal(key, iv, aad, text);
      |sealed.text| == |text| && |sealed.tag| == AES_TAG_LEN && env.Open(key, iv, aad, sealed) == Some(text)
  }

  ghost predicate KeysReadBack(env: Env) {
    && (forall x: nat :: x < env.prime ==> |env.WriteKey(x)| <= EPHEMERAL_KEY_LEN && env.ReadKey(env.WriteKey(x)) == Some(x))
    && (forall x: nat :: |env.Digest(x)| == 32)
  }

  ghost predicate SignaturesVerify(env: Env, user: Name) {
    && user in env.registered
    && (forall text :: |env.ClientSign(text)| == ENCRYPTED_SIGNATURE_LEN && |env.ServerSign(text)| == ENCRYPTED_SIGNATURE_LEN)
    && (forall text :: env.Verify(env.registered[user], text, env.ClientSign(text)))
    && |env.certificate| <= MAX_SERIALIZED_CERTIFICATE_LEN
    && env.CertifiedKey(env.certificate).Some?
    && (forall text :: env.Verify(env.CertifiedKey(env.certificate).value, text, env.ServerSign(text)))
  }

  /** A directory iterator visits every entry once. */
  ghost predicate VisitsOnce(env: Env) {
    forall names: set<Name> ::
      && (forall n :: n in env.Entries(names) <==> n in names)
      && |env.Entries(names)| == |names|
  }

  ghost predicate Ideal(env: Env, user: Name) {
    SealOpens(env) && KeysReadBack(env) && SignaturesVerify(env, user) && VisitsOnce(env) && ValidName(user)
  }

  // ---- The Generic envelope: IV, AAD holding the counter, tag, ciphertext ----

  function Wrap(env: Env, key: bytes, iv: bytes, counter: u32, text: bytes): bytes {
    var sealed := env.Seal(key, iv, BE32(counter), text);
    iv + BE32(counter) + sealed.tag + sealed.text
  }

  function CounterOf(frame: bytes): u32
    requires |frame| >= ENVELOPE_LEN
  {
    FromBE32(frame[12..16])
  }

  function Unwrap(env: Env, key: bytes, frame: bytes): Option<bytes>
    requires |frame| >= ENVELOPE_LEN
  {
    env.Open(key, frame[..12], frame[12..16], Sealed(frame[32..], frame[16..32]))
  }

  /** What a receiver accepts: the envelope opens and carries the expected counter. */
  function Accept(env: Env, key: bytes, counter: u32, frame: bytes): Option<bytes>
    requires |frame| >= ENVELOPE_LEN
  {
    if Unwrap(env, key, frame).Some? && CounterOf(frame) == counter then Unwrap(env, key, frame) else None
  }

  lemma WrapAccepted(env: Env, key: bytes, iv: bytes, counter: u32, text: bytes)
    requires SealOpens(env) && |iv| == IV_LEN
    ensures var frame := Wrap(env, key, iv, counter, text);
            && |frame| == ENVELOPE_LEN + |text|
            && frame[..12] == iv && frame[12..16] == BE32(counter)
            && frame[16..32] == env.Seal(key, iv, frame[12..16], text).tag && frame[32..] == env.Seal(key, iv, frame[12..16], text).text
            && CounterOf(frame) == counter
            && Unwrap(env, key, frame) == Some(text)
            && Accept(env, key, counter, frame) == Some(text)
  {
    var frame := Wrap(env, key, iv, counter, text);
    var sealed := env.Seal(key, iv, BE32(counter), text);
    assert |sealed.text| == |text| && |sealed.tag| == AES_TAG_LEN;
    assert frame[..12] == iv;
    assert frame[12..16] == BE32(counter);
    assert frame[16..32] == sealed.tag;
    assert frame[32..] == sealed.text;
    BE32RoundTrip(counter);
  }

  /** Two messages with different initialisation vectors are different on the wire, whatever they say. */
  lemma FramesDiffer(env: Env, key: bytes, iv: bytes, iv': bytes, counter: u32, counter': u32, text: bytes, text': bytes)
    requires SealOpens(env) && |iv| == |iv'| == IV_LEN && iv != iv'
    ensures Wrap(env, key, iv, counter, text) != Wrap(env, key, iv', counter', text')
  {
    hide Wrap, Unwrap, Accept, CounterOf, SealOpens;
    WrapAccepted(env, key, iv, counter, text);
    WrapAccepted(env, key, iv', counter', text');
  }

  // ---- Diffie-Hellman ----

  function Pow(x: nat, n: nat): nat {
    if n == 0 then 1 else x * Pow(x, n - 1)
  }

  function PowMod(x: nat, n: nat, p: nat): (r: nat)
    requires p > 0
    ensures r < p
  {
    Pow(x, n) % p
  }

  lemma MulModLeft(x: nat, y: nat, p: nat)
    requires p > 0
    ensures (x % p) * y % p == x * y % p
  {
    var q := x / p;
    assert x == q * p + x % p;
    assert x * y == (q * y) * p + (x % p) * y by {
      assert (q * p) * y == (q * y) * p;
      assert (q * p + x % p) * y == (q * p) * y + (x % p) * y;
    }
    AddMultiple((x % p) * y, q * y, p);
  }

  lemma {:induction false} AddMultiple(x: nat, k: nat, p: nat)
    requires p > 0
    ensures (k * p + x) % p == x % p
    decreases k
  {
    if k > 0 {
      AddMultiple(x, k - 1, p);
      assert k * p + x == ((k - 1) * p + x) + p;
      AddOne((k - 1) * p + x, p);
    }
  }

  lemma AddOne(x: nat, p: nat)
    requires p > 0
    ensures (x + p) % p == x % p
  {
    var q, r := x / p, x % p;
    assert x + p == (q + 1) * p + r;
    assert (x + p) / p == q + 1 by {
      assert (q + 1) * p == q * p + p && (q + 1 + 1) * p == (q + 1) * p + p;
      DivUnique(x + p, q + 1, p);
    }
  }

  lemma DivUnique(x: nat, q: nat, p: nat)
    requires p > 0 && q * p <= x < (q + 1) * p
    ensures x / p == q
  {
    var d := x / p;
    Quotient(x, p);
    if d < q {
      MulMonotone(d + 1, q, p);
    } else if q < d {
      MulMonotone(q + 1, d, p);
    }
  }

  lemma Quotient(x: nat, p: nat)
    requires p > 0
    ensures (x / p) * p <= x < (x / p + 1) * p
  {
    assert (x / p + 1) * p == (x / p) * p + p;
  }

  lemma {:induction false} MulMonotone(a: nat, b: nat, p: nat)
    requires a <= b
    ensures a * p <= b * p
    decreases b - a
  {
    if a < b {
      MulMonotone(a, b - 1, p);
      assert b * p == (b - 1) * p + p;
    }
  }

  lemma {:induction false} PowOfMod(x: nat, n: nat, p: nat)
    requires p > 0
    ensures Pow(x % p, n) % p == Pow(x, n) % p
  {
    if n > 0 {
      PowOfMod(x, n - 1, p);
      var a, b := Pow(x % p, n - 1), Pow(x, n - 1);
      MulModLeft(x, a, p);
      assert (x % p) * a % p == x * a % p;
      MulModLeft(a, x, p);
      MulModLeft(b, x, p);
      assert a * x == x * a && b * x == x * b;
    }
  }

  lemma {:induction false} PowAdd(x: nat, m: nat, n: nat)
    ensures Pow(x, m + n) == Pow(x, m) * Pow(x, n)
  {
    if m > 0 {
      PowAdd(x, m - 1, n);
      assert x * (Pow(x, m - 1) * Pow(x, n)) == (x * Pow(x, m - 1)) * Pow(x, n);
    }
  }

  lemma {:induction false} PowPow(x: nat, m: nat, n: nat)
    ensures Pow(Pow(x, m), n) == Pow(x, m * n)
  {
    if n == 0 {
      assert m * n == 0;
    } else {
      PowPow(x, m, n - 1);
      assert m * n == m + m * (n - 1);
      PowAdd(x, m, m * (n - 1));
    }
  }

  /** What either side computes from the other's public number. */
  lemma SecretIs(g: nat, a: nat, b: nat, p: nat)
    requires p > 0
    ensures PowMod(PowMod(g, b, p), a, p) == Pow(g, a * b) % p
  {
    PowOfMod(Pow(g, b), a, p);
    PowPow(g, b, a);
    assert b * a == a * b;
  }

  /** Both sides of the exchange derive the same secret. */
  lemma SecretsAgree(g: nat, a: nat, b: nat, p: nat)
    requires p > 0
    ensures PowMod(PowMod(g, a, p), b, p) == PowMod(PowMod(g, b, p), a, p)
  {
    SecretIs(g, a, b, p);
    SecretIs(g, b, a, p);
    assert a * b == b * a;
  }

  function PublicKey(env: Env, secret: nat): bytes
  {
    env.WriteKey(PowMod(env.generator, secret, env.prime))
  }

  /** Derive the session key: the first 16 bytes of the digest of the shared secret. */
  function SessionKey(env: Env, secret: nat, peer: bytes): (key: Option<bytes>)
    ensures key.Some? ==> |key.value| == AES_KEY_LEN
  {
    match env.ReadKey(peer)
    case None => None
    case Some(y) => Some(PadTo(env.Digest(PowMod(y, secret, env.prime)), AES_KEY_LEN))
  }

  /** The key made of a shared number: the first 16 bytes of its digest. */
  function KeyOf(env: Env, shared: nat): bytes {
    var digest := env.Digest(shared);
    if |digest| >= 16 then digest[..16] else digest
  }

  /** The key of the secrets `a` and `b`, from g^(a*b) mod p. */
  function SharedKey(env: Env, a: nat, b: nat): bytes {
    KeyOf(env, Pow(env.generator, a * b) % env.prime)
  }

  /** The key of a secret and whatever key the peer sent: from y^secret mod p, if the peer's key is that of a number y. */
  function KeyWith(env: Env, secret: nat, peer: bytes): Option<bytes> {
    match env.ReadKey(peer)
    case None => None
    case Some(y) => Some(KeyOf(env, Pow(y, secret) % env.prime))
  }

  /** Each side, from its own secret and the other's public key, derives the key of the two secrets. */
  lemma SessionKeysAgree(env: Env, a: nat, b: nat)
    requires KeysReadBack(env)
    ensures SessionKey(env, a, PublicKey(env, b)) == SessionKey(env, b, PublicKey(env, a)) == Some(SharedKey(env, a, b))
    ensures SharedKey(env, a, b) == env.Digest(Pow(env.generator, a * b) % env.prime)[..16]
  {
    SecretsAgree(env.generator, a, b, env.prime);
    SecretIs(env.generator, a, b, env.prime);
    assert |env.Digest(Pow(env.generator, a * b) % env.prime)| == 32;
  }

  lemma SessionKeyIs(env: Env, secret: nat, peer: bytes)
    requires KeysReadBack(env)
    ensures SessionKey(env, secret, peer) == KeyWith(env, secret, peer)
  {
    var y := env.ReadKey(peer);
    assert y.Some? ==> |env.Digest(Pow(y.value, secret) % env.prime)| == 32;
  }
}
