/** The client's authentication of the server, whoever its peer is and whatever bytes it is sent. */
module Certification {
  import opened Config
  import opened Bytes
  import opened Codecs
  import opened Env
  import opened Store
  import opened Protocol
  import opened Turns
  import opened ClientHistory

  /** M3 as the client wants it: it carries counter 0 and a key, from which the session key is made; it opens under that key;
      its certificate verifies; and what it holds verifies under the certificate's key as a signature of client key and
      server key. */
  predicate CertifiedM3(env: Env, secret: nat, m3: bytes) {
    && |m3| == AUTH_M3_LEN && m3[1040..1044] == [0, 0, 0, 0] && KeyWith(env, secret, AuthM3Key(m3)).Some?
    && var key := KeyWith(env, secret, AuthM3Key(m3)).value;
       var signature := env.Open(key, m3[1028..1040], m3[1040..1044], Sealed(m3[1060..1188], m3[1044..1060]));
       var certified := env.CertifiedKey(AuthM3Cert(m3));
       && signature.Some? && certified.Some?
       && env.Verify(certified.value, env.WriteKey(Pow(env.generator, secret) % env.prime) + AuthM3Key(m3), signature.value)
  }

  lemma HostZero(b: bytes)
    requires |b| == 4
    ensures FromLE32(b) == 0 <==> b == [0, 0, 0, 0]
  {
    if FromLE32(b) == 0 {
      assert b[3] == 0 && b[2] == 0 && b[1] == 0 && b[0] == 0;
    }
  }

  lemma NetworkTwo(b: bytes)
    requires |b| == 4
    ensures FromBE32(b) == 2 <==> b == [0, 0, 0, 2]
  {
    if FromBE32(b) == 2 {
      assert b[0] == 0 && b[1] == 0 && b[2] == 0 && b[3] == 2;
    }
  }

  /** The client goes on from M2 exactly when it says ACK. */
  lemma M2AcceptedIff(env: Env, c: ClientState, m2: bytes)
    requires c.auth.CWait2? && |m2| == MAX_PACKET_SIZE
    ensures ClientReceive(env, c, m2)
         == c.(auth := if m2[0] == ACK then CWait3(c.auth.secret) else CFailed(USERNAME_NOT_FOUND))
  {
  }

  /** Of all byte strings the client can be sent, it goes on from exactly the certified ones, and tells why from no other. */
  lemma M3AcceptedIff(env: Env, c: ClientState, secret: nat, m3: bytes)
    requires KeysReadBack(env) && c.auth == CWait3(secret) && |m3| == AUTH_M3_LEN
    ensures var c' := ClientReceive(env, c, m3);
            var key := KeyWith(env, secret, AuthM3Key(m3));
            && (c'.auth.CSend4? <==> CertifiedM3(env, secret, m3))
            && (c'.auth.CSend4? ==> key.Some? && c' == c.(key := key.value, counter := 1,
                  auth := CSend4(env.ClientSign(env.WriteKey(Pow(env.generator, secret) % env.prime) + AuthM3Key(m3)))))
            && (c'.auth == CFailed(WRONG_COUNTER) <==> m3[1040..1044] != [0, 0, 0, 0])
            && (c'.auth == CFailed(DECRYPTION_FAILURE) <==>
                  && m3[1040..1044] == [0, 0, 0, 0] && key.Some?
                  && env.Open(key.value, m3[1028..1040], m3[1040..1044], Sealed(m3[1060..1188], m3[1044..1060])).None?)
            && (!c'.auth.CSend4? ==> c'.auth.CFailed? && ClientAction(c') == Rests)
  {
    hide AuthM3Key, AuthM3Cert, FromLE32, KeysReadBack, SessionKey, KeyWith;
    HostZero(m3[1040..1044]);
    SessionKeyIs(env, secret, AuthM3Key(m3));
  }

  /** M5 as the client wants it: it opens under the session key, carries counter 2 and says ACK. */
  predicate AgreesM5(env: Env, key: bytes, m5: bytes) {
    && |m5| == ENVELOPE_LEN + MAX_PACKET_SIZE && m5[12..16] == [0, 0, 0, 2]
    && var text := env.Open(key, m5[..12], m5[12..16], Sealed(m5[32..], m5[16..32]));
       text.Some? && text.value != [] && text.value[0] == ACK
  }

  lemma M5AcceptedIff(env: Env, c: ClientState, m5: bytes)
    requires c.auth == CWait5 && c.counter == 2 && |m5| == ENVELOPE_LEN + MAX_PACKET_SIZE
    ensures var c' := ClientReceive(env, c, m5);
            && (c'.auth == CNoAuth <==> AgreesM5(env, c.key, m5))
            && (c'.auth == CNoAuth ==> c' == ClientResume(c.(auth := CNoAuth, counter := 0)))
            && (c'.auth != CNoAuth ==> c'.auth.CFailed? && c' == c.(auth := c'.auth) && ClientAction(c') == Rests)
  {
    hide ClientContinue, FromBE32;
    NetworkTwo(m5[12..16]);
  }

  // ---- Whole histories ----

  /** The five turns from `i` on authenticate the server: M1, an M2 that says ACK, a certified M3, M4 and an M5 that agrees
      under the key of the two secrets. */
  ghost predicate Certifies(env: Env, history: seq<Turn<ClientState>>, i: nat, user: Name, secret: nat, key: bytes) {
    && i + 5 <= |history|
    && history[i].sent == [EncAuthM1(env.WriteKey(Pow(env.generator, secret) % env.prime), user)]
    && |history[i + 1].read| == MAX_PACKET_SIZE && history[i + 1].read[0] == ACK
    && var m3, m5 := history[i + 2].read, history[i + 4].read;
       && CertifiedM3(env, secret, m3) && KeyWith(env, secret, AuthM3Key(m3)) == Some(key) && AgreesM5(env, key, m5)
  }

  /** The latest handshake authenticated the server, and gave the client its key. */
  ghost predicate CertifiedAt(env: Env, history: seq<Turn<ClientState>>, c: ClientState, i: nat, secret: nat) {
    && Certifies(env, history, i, c.user, secret, c.key)
    && forall j :: i + 5 <= j < |history| ==> history[j].before.auth == CNoAuth
  }

  /** The handshake in progress began `back` turns ago with the secret's public key. */
  ghost predicate Begun(env: Env, history: seq<Turn<ClientState>>, back: nat, user: Name, secret: nat) {
    && 1 <= back <= |history|
    && history[|history| - back].sent == [EncAuthM1(env.WriteKey(Pow(env.generator, secret) % env.prime), user)]
  }

  predicate Admitted(history: seq<Turn<ClientState>>, back: nat) {
    1 <= back <= |history| && |history[|history| - back].read| == MAX_PACKET_SIZE && history[|history| - back].read[0] == ACK
  }

  predicate Proven(env: Env, history: seq<Turn<ClientState>>, back: nat, secret: nat, key: bytes) {
    && 1 <= back <= |history|
    && var m3 := history[|history| - back].read;
       CertifiedM3(env, secret, m3) && KeyWith(env, secret, AuthM3Key(m3)) == Some(key)
  }

  /** How far the handshake in progress has come. */
  ghost predicate Behind(env: Env, history: seq<Turn<ClientState>>, c: ClientState) {
    match c.auth
    case CNoAuth => exists i, secret :: CertifiedAt(env, history, c, i, secret)
    case CWait2(secret) => Begun(env, history, 1, c.user, secret)
    case CWait3(secret) => Begun(env, history, 2, c.user, secret) && Admitted(history, 1)
    case CSend4(_) => exists secret :: Begun(env, history, 3, c.user, secret) && Admitted(history, 2) && Proven(env, history, 1, secret, c.key)
    case CWait5 =>
      c.counter == 2
      && exists secret :: Begun(env, history, 4, c.user, secret) && Admitted(history, 3) && Proven(env, history, 2, secret, c.key)
    case _ => true
  }

  /** Outside a handshake a step keeps user and key. */
  lemma OperationKeeps(env: Env, c: ClientState, x: Input)
    requires Ready(c, x) && c.auth == CNoAuth
    ensures var c' := ClientStep(env, c, x); (c'.auth == CNoAuth || c'.auth == CSend1) && c'.user == c.user && c'.key == c.key
  {
    hide Accept, ClientGot, ClientSent, ClientText, Wrap, ClientContinue, ClientBegin;
    if x.Start? {
      BeginShape(c, x.dir);
    }
  }

  lemma StaysCertified(env: Env, history: seq<Turn<ClientState>>, t: Turn<ClientState>, i: nat, secret: nat)
    requires CertifiedAt(env, history, t.before, i, secret) && t.before.auth == CNoAuth
    requires t.after.user == t.before.user && t.after.key == t.before.key
    ensures CertifiedAt(env, history + [t], t.after, i, secret)
  {
    hide CertifiedM3, AgreesM5, KeyWith, AuthM3Key;
    forall k | 0 <= k < |history| ensures (history + [t])[k] == history[k] {
    }
  }

  /** One turn later the same turns lie one further back. */
  lemma OneBack(env: Env, history: seq<Turn<ClientState>>, t: Turn<ClientState>, back: nat, user: Name, secret: nat, key: bytes)
    requires 1 <= back <= |history|
    ensures Begun(env, history, back, user, secret) ==> Begun(env, history + [t], back + 1, user, secret)
    ensures Admitted(history, back) ==> Admitted(history + [t], back + 1)
    ensures Proven(env, history, back, secret, key) ==> Proven(env, history + [t], back + 1, secret, key)
  {
    hide EncAuthM1, CertifiedM3, KeyWith, AuthM3Key;
    assert (history + [t])[|history| - back] == history[|history| - back];
  }

  lemma FewTurns(env: Env, history: seq<Turn<ClientState>>, back: nat, user: Name, secret: nat)
    requires Begun(env, history, back, user, secret)
    ensures back <= |history|
  {
  }

  lemma FirstBehind(env: Env, history: seq<Turn<ClientState>>, t: Turn<ClientState>)
    requires IsTurn(env, t) && t.before.auth == CSend1
    ensures Behind(env, history + [t], t.after)
  {
    hide EncAuthM1, ClientPcAction;
    var x :| Ready(t.before, x) && t == TurnOf(env, t.before, x);
  }

  lemma SecondBehind(env: Env, history: seq<Turn<ClientState>>, t: Turn<ClientState>)
    requires IsTurn(env, t) && t.before.auth.CWait2? && Behind(env, history, t.before)
    ensures Behind(env, history + [t], t.after)
  {
    hide EncAuthM1, ClientPcAction, Begun;
    var x :| Ready(t.before, x) && t == TurnOf(env, t.before, x);
    M2AcceptedIff(env, t.before, x.data);
    FewTurns(env, history, 1, t.before.user, t.before.auth.secret);
    OneBack(env, history, t, 1, t.before.user, t.before.auth.secret, []);
  }

  lemma ThirdBehind(env: Env, history: seq<Turn<ClientState>>, t: Turn<ClientState>)
    requires KeysReadBack(env) && IsTurn(env, t) && t.before.auth.CWait3? && Behind(env, history, t.before)
    ensures Behind(env, history + [t], t.after)
  {
    hide EncAuthM1, ClientPcAction, KeysReadBack, AuthM3Key, CertifiedM3, KeyWith, ClientReceiveM3, Begun, Admitted;
    var x :| Ready(t.before, x) && t == TurnOf(env, t.before, x);
    var secret := t.before.auth.secret;
    M3AcceptedIff(env, t.before, secret, x.data);
    FewTurns(env, history, 2, t.before.user, secret);
    OneBack(env, history, t, 2, t.before.user, secret, []);
    OneBack(env, history, t, 1, t.before.user, secret, []);
    if t.after.auth.CSend4? {
      var more := history + [t];
      assert Begun(env, more, 3, t.after.user, secret) && Admitted(more, 2) && Proven(env, more, 1, secret, t.after.key);
    }
  }

  lemma FourthBehind(env: Env, history: seq<Turn<ClientState>>, t: Turn<ClientState>)
    requires IsTurn(env, t) && t.before.auth.CSend4? && Behind(env, history, t.before)
    ensures Behind(env, history + [t], t.after)
  {
    hide EncAuthM1, ClientPcAction, Begun, Admitted, Proven;
    var x :| Ready(t.before, x) && t == TurnOf(env, t.before, x);
    var secret :| Begun(env, history, 3, t.before.user, secret) && Admitted(history, 2) && Proven(env, history, 1, secret, t.before.key);
    FewTurns(env, history, 3, t.before.user, secret);
    OneBack(env, history, t, 3, t.before.user, secret, t.before.key);
    OneBack(env, history, t, 2, t.before.user, secret, t.before.key);
    OneBack(env, history, t, 1, t.before.user, secret, t.before.key);
  }

  lemma FifthBehind(env: Env, history: seq<Turn<ClientState>>, t: Turn<ClientState>)
    requires IsTurn(env, t) && t.before.auth == CWait5 && Behind(env, history, t.before)
    ensures Behind(env, history + [t], t.after)
  {
    hide EncAuthM1, ClientPcAction, AuthM3Key, CertifiedM3, KeyWith, AgreesM5, ClientContinue, ClientReceiveM5;
    var x :| Ready(t.before, x) && t == TurnOf(env, t.before, x);
    var secret :| Begun(env, history, 4, t.before.user, secret) && Admitted(history, 3) && Proven(env, history, 2, secret, t.before.key);
    M5AcceptedIff(env, t.before, x.data);
    if t.after.auth == CNoAuth {
      var more, i := history + [t], |history| - 4;
      forall k | 0 <= k < |history| ensures more[k] == history[k] {
      }
      assert Certifies(env, more, i, t.after.user, secret, t.after.key);
      assert CertifiedAt(env, more, t.after, i, secret);
    }
  }

  lemma StepBehind(env: Env, history: seq<Turn<ClientState>>, t: Turn<ClientState>)
    requires KeysReadBack(env) && IsTurn(env, t) && Behind(env, history, t.before)
    ensures Behind(env, history + [t], t.after)
  {
    hide CertifiedAt, Begun, Admitted, Proven, KeysReadBack, ClientStep, FrameOf;
    match t.before.auth
    case CSend1 => FirstBehind(env, history, t);
    case CWait2(_) => SecondBehind(env, history, t);
    case CWait3(_) => ThirdBehind(env, history, t);
    case CSend4(_) => FourthBehind(env, history, t);
    case CWait5 => FifthBehind(env, history, t);
    case CFailed(_) =>
    case CNoAuth =>
      var x :| Ready(t.before, x) && t == TurnOf(env, t.before, x);
      OperationKeeps(env, t.before, x);
      var i, secret :| CertifiedAt(env, history, t.before, i, secret);
      StaysCertified(env, history, t, i, secret);
  }

  lemma {:induction false} AlwaysBehind(env: Env, start: ClientState, history: seq<Turn<ClientState>>, now: ClientState)
    requires KeysReadBack(env) && start.auth == CSend1
    requires Linked(history, start, now) && forall j :: 0 <= j < |history| ==> IsTurn(env, history[j])
    ensures Behind(env, history, now)
    decreases |history|
  {
    hide Behind, KeysReadBack, IsTurn;
    if history == [] {
      StartsBehind(env, start);
    } else {
      var front, last := history[..|history| - 1], history[|history| - 1];
      AlwaysBehind(env, start, front, last.before);
      StepBehind(env, front, last);
      assert front + [last] == history;
    }
  }

  lemma StartsBehind(env: Env, start: ClientState)
    requires start.auth == CSend1
    ensures Behind(env, [], start)
  {
  }

  /** Whatever bytes a client has been sent since its start, if it is outside a handshake then its latest handshake
      authenticated the server, and its key is the one made there. */
  lemma Certified(env: Env, start: ClientState, history: seq<Turn<ClientState>>, now: ClientState) returns (i: nat, secret: nat)
    requires KeysReadBack(env) && start.auth == CSend1 && now.auth == CNoAuth
    requires Linked(history, start, now) && forall j :: 0 <= j < |history| ==> IsTurn(env, history[j])
    ensures Certifies(env, history, i, now.user, secret, now.key)
    ensures forall j :: i + 5 <= j < |history| ==> history[j].before.auth == CNoAuth
  {
    hide Certifies, KeysReadBack, IsTurn;
    AlwaysBehind(env, start, history, now);
    i, secret :| CertifiedAt(env, history, now, i, secret);
  }

  /** Every operation message the client ever sends, at turn `k`, is sealed under the key of a handshake that authenticated
      the server, the latest one before it. */
  lemma OperationsFollowCertification(env: Env, start: ClientState, history: seq<Turn<ClientState>>, now: ClientState, k: nat)
    returns (i: nat, secret: nat)
    requires KeysReadBack(env) && start.auth == CSend1
    requires Linked(history, start, now) && forall j :: 0 <= j < |history| ==> IsTurn(env, history[j])
    requires k < |history| && history[k].sent != [] && history[k].before.auth == CNoAuth
    ensures i + 5 <= k && Certifies(env, history, i, history[k].before.user, secret, history[k].before.key)
    ensures forall j :: i + 5 <= j < k ==> history[j].before.auth == CNoAuth
    ensures exists counter, text, iv :: history[k].sent == [Wrap(env, history[k].before.key, iv, counter, text)]
  {
    hide Certifies, KeysReadBack, ClientStep, ClientText, Wrap, ClientPcAction;
    LinkedBefore(history, start, now, k);
    i, secret := Certified(env, start, history[..k], history[k].before);
    CertifiesBefore(env, history, k, i, history[k].before.user, secret, history[k].before.key);
    var t := history[k];
    assert IsTurn(env, t);
    var x :| Ready(t.before, x) && t == TurnOf(env, t.before, x);
    assert t.sent == [Wrap(env, t.before.key, x.r.iv, t.before.counter, ClientText(t.before.pc, x.r))];
  }

  lemma CertifiesBefore(env: Env, history: seq<Turn<ClientState>>, n: nat, i: nat, user: Name, secret: nat, key: bytes)
    requires n <= |history|
    requires Certifies(env, history[..n], i, user, secret, key)
    ensures i + 5 <= n && Certifies(env, history, i, user, secret, key)
  {
    hide CertifiedM3, KeyWith, AuthM3Key, AgreesM5;
  }
}
