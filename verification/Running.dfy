/** What the two party classes share: results that leave a function early and what they ask of the foreign parts. */
module Running {
  import opened Config
  import opened Env
  import opened Chunks
  import opened FileManager
  import opened Bytes
  import opened Protocol

  /** The end of a step: a value, an error code returned to the caller, one thrown to the main loop,
      or a stream that ended before the message was there. */
  datatype Try<+T> = Ok(value: T) | Return(code: int) | Throw(code: int) | Gone
  {
    predicate IsFailure() { !Ok? }

    function PropagateFailure<U>(): Try<U>
      requires IsFailure()
    {
      match this
      case Return(code) => Try<U>.Return(code)
      case Throw(code) => Try<U>.Throw(code)
      case Gone => Try<U>.Gone
    }

    function Extract(): T
      requires !IsFailure()
    {
      value
    }
  }

  datatype Unit = Done

  /** Ciphertext and plaintext have the same length. */
  ghost predicate LengthKept(env: Env) {
    forall key, iv, aad, sealed ::
      env.Open(key, iv, aad, sealed).Some? ==> |env.Open(key, iv, aad, sealed).value| == |sealed.text|
  }

  ghost predicate Usable(env: Env) {
    && SealOpens(env) && LengthKept(env) && KeysReadBack(env) && Rounds(env)
    && (forall text :: |env.ClientSign(text)| == ENCRYPTED_SIGNATURE_LEN)
    && (forall text :: |env.ServerSign(text)| == ENCRYPTED_SIGNATURE_LEN)
    && |env.certificate| <= MAX_SERIALIZED_CERTIFICATE_LEN
  }

  lemma Sealing(env: Env, key: bytes, iv: bytes, aad: bytes, text: bytes)
    requires Usable(env)
    ensures |env.Seal(key, iv, aad, text).text| == |text| && |env.Seal(key, iv, aad, text).tag| == AES_TAG_LEN
  {
  }

  lemma Opening(env: Env, key: bytes, iv: bytes, aad: bytes, sealed: Sealed)
    requires Usable(env)
    ensures env.Open(key, iv, aad, sealed).Some? ==> |env.Open(key, iv, aad, sealed).value| == |sealed.text|
  {
  }

  lemma Others(env: Env)
    requires Usable(env)
    ensures SealOpens(env) && Rounds(env) && |env.certificate| <= MAX_SERIALIZED_CERTIFICATE_LEN
  {
  }

  lemma KeysFit(env: Env, secret: nat)
    requires Usable(env)
    ensures |PublicKey(env, secret)| <= EPHEMERAL_KEY_LEN
  {
  }

  lemma SignaturesFit(env: Env, text: bytes)
    requires Usable(env)
    ensures |env.ServerSign(text)| == |env.ClientSign(text)| == ENCRYPTED_SIGNATURE_LEN
  {
  }

  /** Random choices; a caller knows only their sizes. */
  method Draw() returns (r: Rnd)
    ensures ValidRnd(r)
  {
    r := Rnd(Zeros(IV_LEN), Zeros(MAX_PACKET_SIZE - 1), 1);
  }
}
