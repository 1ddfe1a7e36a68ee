/** The server's authentication of the client, whoever its peer is and whatever bytes it is sent. */
module Authentication {
  import opened Config
  import opened Bytes
  import opened Codecs
  import opened Env
  import opened Store
  import opened Protocol
  import opened Conservation
  import opened Turns
  import opened ServerHistory

  /** M4 as the server wants it: it carries counter 1, opens under the session key, and what it holds verifies under the
      user's registered key as a signature of client key and server key. */
  predicate SignedM4(env: Env, user: Name, transcript: bytes, key: bytes, m4: bytes) {
    && |m4| == AUTH_M4_LEN && m4[12..16] == [1, 0, 0, 0] && user in env.registered
    && var signature := env.Open(key, m4[..12], m4[12..16], Sealed(m4[32..], m4[16..32]));
       signature.Some? && env.Verify(env.registered[user], transcript, signature.value)
  }

  lemma HostOne(b: bytes)
    requires |b| == 4
    ensures FromLE32(b) == 1 <==> b == [1, 0, 0, 0]
  {
    if FromLE32(b) == 1 {
      assert b[3] == 0 && b[2] == 0 && b[1] == 0 && b[0] == 1;
    }
  }

  /** Which first messages the server goes on from: those that name a registered user. */
  lemma M1AcceptedIff(env: Env, s: ServerState, m1: bytes)
    requires s.auth == SWait1 && |m1| == AUTH_M1_LEN
    ensures var s' := ServerReceive(env, s, m1);
            && (AuthM1User(m1) in env.registered ==> s' == s.(user := AuthM1User(m1), auth := SSend2(AuthM1Key(m1))))
            && (AuthM1User(m1) !in env.registered ==> s' == s.(auth := SFailed(AUTHENTICATION_FAILURE)))
  {
    hide AuthM1User, AuthM1Key;
  }

  /** Of all byte strings the server can be sent, exactly the signed ones are answered with ACK. */
  lemma M4AcceptedIff(env: Env, s: ServerState, m4: bytes)
    requires s.auth.SWait4? && s.counter == 1 && |m4| == AUTH_M4_LEN
    ensures var s' := ServerReceive(env, s, m4);
            var signature := env.Open(s.key, m4[..12], m4[12..16], Sealed(m4[32..], m4[16..32]));
            && (s'.auth == SSend5(true) <==> SignedM4(env, s.user, s.auth.transcript, s.key, m4))
            && (s'.auth == SFailed(WRONG_COUNTER) <==> m4[12..16] != [1, 0, 0, 0])
            && (s'.auth == SFailed(DECRYPTION_FAILURE) <==> m4[12..16] == [1, 0, 0, 0] && signature.None?)
            && (s'.auth.SFailed? || (s'.auth.SSend5? && s'.counter == 2))
            && s'.key == s.key && s'.user == s.user && s'.dir == s.dir && s'.pc == s.pc && s'.index == s.index
  {
    hide FromLE32;
    HostOne(m4[12..16]);
  }

  /** The verdict says ACK only to a verified signature; otherwise it says NACK and the server has failed. */
  lemma VerdictSent(env: Env, s: ServerState, r: Rnd)
    requires SealOpens(env) && ValidRnd(r) && s.auth.SSend5?
    ensures var ServerOutput(p, s') := ServerSend(env, s, r);
            && |p.frame| == ENVELOPE_LEN + MAX_PACKET_SIZE && CounterOf(p.frame) == s.counter
            && var text := Unwrap(env, s.key, p.frame);
               && text.Some? && |text.value| == MAX_PACKET_SIZE && text.value[0] == (if s.auth.verified then ACK else NACK)
               && (s'.auth == SNoAuth <==> s.auth.verified)
               && (!s.auth.verified ==> s' == s.(auth := SFailed(AUTHENTICATION_FAILURE), counter := 0) && ServerAction(s') == Rests)
  {
    hide Wrap, Unwrap, Accept, CounterOf, ServerContinue, Apply;
    WrapAccepted(env, s.key, r.iv, s.counter, EncSimple(if s.auth.verified then ACK else NACK, r.tail));
  }

  // ---- Whole histories ----

  /** The five turns from `i` on sign `user` in: M1 naming the user and giving a key, M2, M3, a signed M4 under the key of the two
      secrets, and M5. */
  ghost predicate SignsIn(env: Env, history: seq<Turn<ServerState>>, i: nat, user: Name, secret: nat, key: bytes) {
    && i + 5 <= |history|
    && var m1, m4 := history[i].read, history[i + 3].read;
       && |m1| == AUTH_M1_LEN && AuthM1User(m1) == user && KeyWith(env, secret, AuthM1Key(m1)) == Some(key)
       && SignedM4(env, user, AuthM1Key(m1) + env.WriteKey(Pow(env.generator, secret) % env.prime), key, m4)
  }

  /** The latest handshake signed the server's user in, under the server's key or before a logout erased it. */
  ghost predicate SignedAt(env: Env, history: seq<Turn<ServerState>>, s: ServerState, i: nat, secret: nat, key: bytes) {
    && SignsIn(env, history, i, s.user, secret, key)
    && (s.key == key || s.key == Zeros(AES_KEY_LEN))
    && forall j :: i + 5 <= j < |history| ==> history[j].before.auth == SNoAuth
  }

  /** The first message of the handshake in progress, `back` turns ago, named the server's user and gave the key `peer`. */
  predicate Named(history: seq<Turn<ServerState>>, back: nat, user: Name, peer: bytes) {
    && 1 <= back <= |history|
    && var m1 := history[|history| - back].read;
       |m1| == AUTH_M1_LEN && AuthM1User(m1) == user && AuthM1Key(m1) == peer
  }

  /** The server has answered it with a key of its own, and both keys are what is to be signed. */
  predicate Answered(env: Env, history: seq<Turn<ServerState>>, back: nat, s: ServerState, peer: bytes, secret: nat, transcript: bytes) {
    && Named(history, back, s.user, peer) && KeyWith(env, secret, peer) == Some(s.key)
    && transcript == peer + env.WriteKey(Pow(env.generator, secret) % env.prime)
  }

  /** How far the handshake in progress has come. */
  ghost predicate Behind(env: Env, history: seq<Turn<ServerState>>, s: ServerState) {
    match s.auth
    case SNoAuth => exists i, secret, key :: SignedAt(env, history, s, i, secret, key)
    case SSend2(peer) => Named(history, 1, s.user, peer)
    case SSend3(peer) => Named(history, 2, s.user, peer)
    case SWait4(transcript) => s.counter == 1 && exists peer, secret :: Answered(env, history, 3, s, peer, secret, transcript)
    case SSend5(verified) =>
      verified ==> exists peer, secret, transcript ::
        Answered(env, history, 4, s, peer, secret, transcript)
        && SignedM4(env, s.user, transcript, s.key, history[|history| - 1].read)
    case _ => true
  }

  /** Outside a handshake a step keeps the user, and the key unless a logout erases it. */
  lemma OperationKeeps(env: Env, s: ServerState, x: Input)
    requires Ready(s, x) && s.auth == SNoAuth
    ensures var s' := ServerStep(env, s, x);
            (s'.auth == SNoAuth || s'.auth == SWait1) && s'.user == s.user && (s'.key == s.key || s'.key == Zeros(AES_KEY_LEN))
  {
    hide Accept, ServerGot, ServerSent, ServerText, Wrap, ServerContinue, Apply;
  }

  lemma StaysSignedIn(env: Env, history: seq<Turn<ServerState>>, t: Turn<ServerState>, i: nat, secret: nat, key: bytes)
    requires SignedAt(env, history, t.before, i, secret, key) && t.before.auth == SNoAuth
    requires t.after.user == t.before.user && (t.after.key == t.before.key || t.after.key == Zeros(AES_KEY_LEN))
    ensures SignedAt(env, history + [t], t.after, i, secret, key)
  {
    hide SignedM4, KeyWith, AuthM1Key, AuthM1User;
    assert (history + [t])[i] == history[i] && (history + [t])[i + 3] == history[i + 3];
  }

  lemma FirstBehind(env: Env, history: seq<Turn<ServerState>>, t: Turn<ServerState>)
    requires IsTurn(env, t) && t.before.auth == SWait1
    ensures Behind(env, history + [t], t.after)
  {
    hide AuthM1User, AuthM1Key, ServerPcAction;
    var x :| Ready(t.before, x) && t == TurnOf(env, t.before, x);
    M1AcceptedIff(env, t.before, x.data);
  }

  lemma SecondBehind(env: Env, history: seq<Turn<ServerState>>, t: Turn<ServerState>)
    requires IsTurn(env, t) && t.before.auth.SSend2? && Behind(env, history, t.before)
    ensures Behind(env, history + [t], t.after)
  {
    hide AuthM1User, AuthM1Key, ServerPcAction;
    var x :| Ready(t.before, x) && t == TurnOf(env, t.before, x);
    assert (history + [t])[|history| - 1] == history[|history| - 1];
  }

  lemma ThirdBehind(env: Env, history: seq<Turn<ServerState>>, t: Turn<ServerState>)
    requires KeysReadBack(env) && IsTurn(env, t) && t.before.auth.SSend3? && Behind(env, history, t.before)
    ensures Behind(env, history + [t], t.after)
  {
    hide AuthM1User, AuthM1Key, ServerPcAction, KeysReadBack, SessionKey, KeyWith, EncAuthM3;
    var x :| Ready(t.before, x) && t == TurnOf(env, t.before, x);
    var peer := t.before.auth.peer;
    SessionKeyIs(env, x.r.secret, peer);
    assert (history + [t])[|history| - 2] == history[|history| - 2];
    if t.after.auth.SWait4? {
      assert Answered(env, history + [t], 3, t.after, peer, x.r.secret, t.after.auth.transcript);
    }
  }

  lemma FourthBehind(env: Env, history: seq<Turn<ServerState>>, t: Turn<ServerState>)
    requires IsTurn(env, t) && t.before.auth.SWait4? && Behind(env, history, t.before)
    ensures Behind(env, history + [t], t.after)
  {
    hide AuthM1User, AuthM1Key, ServerPcAction, SignedM4, KeyWith;
    var x :| Ready(t.before, x) && t == TurnOf(env, t.before, x);
    var transcript := t.before.auth.transcript;
    M4AcceptedIff(env, t.before, x.data);
    var peer, secret :| Answered(env, history, 3, t.before, peer, secret, transcript);
    assert (history + [t])[|history| - 3] == history[|history| - 3];
    assert Answered(env, history + [t], 4, t.after, peer, secret, transcript);
  }

  lemma FifthBehind(env: Env, history: seq<Turn<ServerState>>, t: Turn<ServerState>)
    requires IsTurn(env, t) && t.before.auth.SSend5? && Behind(env, history, t.before)
    ensures Behind(env, history + [t], t.after)
  {
    hide AuthM1User, AuthM1Key, ServerPcAction, SignedM4, KeyWith, ServerContinue, Apply;
    var x :| Ready(t.before, x) && t == TurnOf(env, t.before, x);
    if t.before.auth.verified {
      var peer, secret, transcript :|
        Answered(env, history, 4, t.before, peer, secret, transcript)
        && SignedM4(env, t.before.user, transcript, t.before.key, history[|history| - 1].read);
      var more, i := history + [t], |history| - 4;
      assert more[i] == history[i] && more[i + 3] == history[i + 3];
      assert SignedAt(env, history + [t], t.after, |history| - 4, secret, t.after.key);
    }
  }

  lemma StepBehind(env: Env, history: seq<Turn<ServerState>>, t: Turn<ServerState>)
    requires KeysReadBack(env) && IsTurn(env, t) && Behind(env, history, t.before)
    ensures Behind(env, history + [t], t.after)
  {
    hide SignedAt, Named, Answered, SignedM4, KeysReadBack, ServerStep, FrameOf;
    match t.before.auth
    case SWait1 => FirstBehind(env, history, t);
    case SSend2(_) => SecondBehind(env, history, t);
    case SSend3(_) => ThirdBehind(env, history, t);
    case SWait4(_) => FourthBehind(env, history, t);
    case SSend5(_) => FifthBehind(env, history, t);
    case SFailed(_) =>
    case SNoAuth =>
      var x :| Ready(t.before, x) && t == TurnOf(env, t.before, x);
      OperationKeeps(env, t.before, x);
      var i, secret, key :| SignedAt(env, history, t.before, i, secret, key);
      StaysSignedIn(env, history, t, i, secret, key);
  }

  lemma {:induction false} AlwaysBehind(env: Env, start: ServerState, history: seq<Turn<ServerState>>, now: ServerState)
    requires KeysReadBack(env) && start.auth == SWait1
    requires Linked(history, start, now) && forall j :: 0 <= j < |history| ==> IsTurn(env, history[j])
    ensures Behind(env, history, now)
    decreases |history|
  {
    hide Behind, KeysReadBack, IsTurn;
    if history == [] {
      StartsBehind(env, start);
    } else {
      var front, last := history[..|history| - 1], history[|history| - 1];
      AlwaysBehind(env, start, front, last.before);
      StepBehind(env, front, last);
      assert front + [last] == history;
    }
  }

  lemma StartsBehind(env: Env, start: ServerState)
    requires start.auth == SWait1
    ensures Behind(env, [], start)
  {
  }

  /** Whatever bytes a server has been sent since its start, if it is outside a handshake then its latest handshake signed
      its user in: the signature of both keys verified under that user's registered key, and its own key is the key of the
      two secrets, or erased. */
  lemma SignedIn(env: Env, start: ServerState, history: seq<Turn<ServerState>>, now: ServerState) returns (i: nat, secret: nat, key: bytes)
    requires KeysReadBack(env) && start.auth == SWait1 && now.auth == SNoAuth
    requires Linked(history, start, now) && forall j :: 0 <= j < |history| ==> IsTurn(env, history[j])
    ensures SignsIn(env, history, i, now.user, secret, key)
    ensures now.key == key || now.key == Zeros(AES_KEY_LEN)
    ensures forall j :: i + 5 <= j < |history| ==> history[j].before.auth == SNoAuth
  {
    hide SignsIn, KeysReadBack, IsTurn;
    AlwaysBehind(env, start, history, now);
    i, secret, key :| SignedAt(env, history, now, i, secret, key);
  }

  /** No five turns of the history sign anybody in. */
  ghost predicate Stranger(env: Env, history: seq<Turn<ServerState>>) {
    forall i, user, secret, key :: !SignsIn(env, history, i, user, secret, key)
  }

  /** A peer that never signs in changes no file and has no operation message counted, whatever it sends. */
  lemma {:induction false} StrangersChangeNothing(env: Env, start: ServerState, history: seq<Turn<ServerState>>, now: ServerState)
    requires KeysReadBack(env) && start.auth == SWait1 && Stranger(env, history)
    requires Linked(history, start, now) && forall j :: 0 <= j < |history| ==> IsTurn(env, history[j])
    ensures now.auth != SNoAuth && now.dir == start.dir && now.index == start.index
    decreases |history|
  {
    hide SignsIn, KeysReadBack, ServerStep, FrameOf;
    if now.auth == SNoAuth {
      var i, secret, key := SignedIn(env, start, history, now);
      assert false;
    }
    if history != [] {
      var front, last := history[..|history| - 1], history[|history| - 1];
      forall i, user, secret, key ensures !SignsIn(env, front, i, user, secret, key) {
        assert SignsIn(env, front, i, user, secret, key) ==> SignsIn(env, history, i, user, secret, key) by {
          SignsInBefore(env, history, |front|, i, user, secret, key);
        }
      }
      StrangersChangeNothing(env, start, front, last.before);
      var x :| Ready(last.before, x) && last == TurnOf(env, last.before, x);
      HandshakeKeeps(env, last.before, x);
    }
  }

  lemma SignsInBefore(env: Env, history: seq<Turn<ServerState>>, n: nat, i: nat, user: Name, secret: nat, key: bytes)
    requires n <= |history|
    ensures SignsIn(env, history[..n], i, user, secret, key) ==> SignsIn(env, history, i, user, secret, key)
  {
    hide SignedM4, KeyWith, AuthM1Key, AuthM1User;
  }

  /** A step within a handshake touches no file. */
  lemma HandshakeKeeps(env: Env, s: ServerState, x: Input)
    requires Ready(s, x) && s.auth != SNoAuth && ServerStep(env, s, x).auth != SNoAuth
    ensures ServerStep(env, s, x).dir == s.dir && ServerStep(env, s, x).index == s.index
  {
    hide AuthM1User, AuthM1Key, SessionKey, EncAuthM3, FromLE32, Wrap, ServerContinue, Apply;
  }

  /** The same of runs of the step function. */
  lemma RunsAreSignedIn(env: Env, start: ServerState, run: seq<Input>)
    returns (history: seq<Turn<ServerState>>, i: nat, secret: nat, key: bytes)
    requires KeysReadBack(env) && start.auth == SWait1 && Heard(env, start, run) && Finally(env, start, run).auth == SNoAuth
    ensures Linked(history, start, Finally(env, start, run)) && forall j :: 0 <= j < |history| ==> IsTurn(env, history[j])
    ensures SignsIn(env, history, i, Finally(env, start, run).user, secret, key)
    ensures forall j :: i + 5 <= j < |history| ==> history[j].before.auth == SNoAuth
  {
    hide SignsIn, KeysReadBack, IsTurn, Finally;
    history := RunIsAHistory(env, start, run);
    i, secret, key := SignedIn(env, start, history, Finally(env, start, run));
  }
}
