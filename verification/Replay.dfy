/** Sessions under attack: operation messages are delivered by an adversary, who may drop, duplicate, delay, reorder
    or invent them; the uncounted messages (handshakes and the last logout reply) arrive intact and in order. */
module Replay {
  import opened Config
  import opened Bytes
  import opened Codecs
  import opened Env
  import opened Store
  import opened Protocol
  import opened Lockstep
  import opened Rendezvous

  datatype Entry = Entry(key: bytes, frame: bytes)

  /** A counted message that a party accepted and acted on. */
  datatype Act = Act(index: nat, key: bytes, frame: bytes)

  datatype Attack = Attack(
    c: ClientState, s: ServerState,
    log: seq<Entry>,                                    // counted messages, as sealed
    authUp: seq<bytes>, authDown: seq<bytes>,           // uncounted messages on their way
    upSent: seq<bytes>, downSent: seq<bytes>,
    upRead: seq<bytes>, downRead: seq<bytes>,           // messages not refused
    clientKeys: seq<bytes>, serverKeys: seq<bytes>,     // session keys, one for each handshake
    clientActs: seq<Act>, serverActs: seq<Act>)

  datatype Move =
    | UserBegins | ClientSpeaks(r: Rnd) | ServerSpeaks(r: Rnd)
    | PassDown | PassUp                                 // deliver the next uncounted message
    | FeedClient(frame: bytes) | FeedServer(frame: bytes)

  function Opening(n: Session): Attack {
    Attack(InitialClient(n), InitialServer(n), [], [], [], [], [], [], [], [], [], [], [])
  }

  /** Ideal authenticated encryption (sections 7.1 and 7.2 of NIST SP 800-38D): only what was sealed under a key opens under it. */
  ghost predicate Plausible(env: Env, log: seq<Entry>, key: bytes, frame: bytes)
    requires |frame| >= ENVELOPE_LEN
  {
    Unwrap(env, key, frame).Some? ==> Entry(key, frame) in log
  }

  ghost predicate Possible(env: Env, a: Attack, m: Move) {
    match m
    case UserBegins => ClientAction(a.c) == Begins
    case ClientSpeaks(r) => ClientAction(a.c) == Sends && ValidRnd(r)
    case ServerSpeaks(r) => ServerAction(a.s) == Sends && ValidRnd(r)
    case PassDown => !AwaitsCounted(a.c) && a.authDown != [] && ClientAction(a.c) == Receives(|a.authDown[0]|)
    case PassUp => a.s.auth != SNoAuth && a.authUp != [] && ServerAction(a.s) == Receives(|a.authUp[0]|)
    case FeedClient(frame) =>
      a.c.auth == CNoAuth && |frame| >= ENVELOPE_LEN && ClientAction(a.c) == Receives(|frame|) && Plausible(env, a.log, a.c.key, frame)
    case FeedServer(frame) =>
      a.s.auth == SNoAuth && |frame| >= ENVELOPE_LEN && ServerAction(a.s) == Receives(|frame|) && Plausible(env, a.log, a.s.key, frame)
  }

  function Logged(p: Packet, key: bytes): seq<Entry> {
    if p.Counted? then [Entry(key, p.frame)] else []
  }

  function Aside(p: Packet): seq<bytes> {
    if p.Counted? then [] else [p.frame]
  }

  function KeyOnM3(c: ClientState): seq<bytes> {
    if c.auth.CSend4? then [c.key] else []
  }

  function KeyInM3(s: ServerState): seq<bytes> {
    if s.auth.SWait4? then [s.key] else []
  }

  ghost function Moved(env: Env, a: Attack, m: Move): Attack
    requires Possible(env, a, m)
  {
    match m
    case UserBegins => a.(c := ClientBegin(a.c, a.s.dir))
    case ClientSpeaks(r) =>
      var ClientOutput(p, c) := ClientSend(env, a.c, r);
      a.(c := c, upSent := a.upSent + [p.frame], log := a.log + Logged(p, a.c.key), authUp := a.authUp + Aside(p))
    case ServerSpeaks(r) =>
      var ServerOutput(p, s) := ServerSend(env, a.s, r);
      a.(s := s, downSent := a.downSent + [p.frame], log := a.log + Logged(p, a.s.key), authDown := a.authDown + Aside(p),
         serverKeys := a.serverKeys + (if a.s.auth.SSend3? then KeyInM3(s) else []))
    case PassDown =>
      var c := ClientReceive(env, a.c, a.authDown[0]);
      a.(c := c, authDown := a.authDown[1..], downRead := a.downRead + [a.authDown[0]],
         clientKeys := a.clientKeys + (if a.c.auth.CWait3? then KeyOnM3(c) else []))
    case PassUp =>
      a.(s := ServerReceive(env, a.s, a.authUp[0]), authUp := a.authUp[1..], upRead := a.upRead + [a.authUp[0]])
    case FeedClient(frame) =>
      var c := ClientReceive(env, a.c, frame);
      a.(c := c, downRead := a.downRead + Read(Accept(env, a.c.key, a.c.counter, frame), frame),
         clientActs := a.clientActs + ActOf(a.c.index, c.index, a.c.key, frame))
    case FeedServer(frame) =>
      var s := ServerReceive(env, a.s, frame);
      a.(s := s, upRead := a.upRead + Read(Accept(env, a.s.key, a.s.counter, frame), frame),
         serverActs := a.serverActs + ActOf(a.s.index, s.index, a.s.key, frame))
  }

  function Read(text: Option<bytes>, frame: bytes): seq<bytes> {
    if text.Some? then [frame] else []
  }

  /** A party acts on a message when its counter moves. */
  function ActOf(index: nat, index': nat, key: bytes, frame: bytes): seq<Act> {
    if index' > index then [Act(index, key, frame)] else []
  }

  ghost predicate Attacked(env: Env, a: Attack, run: seq<Move>)
    decreases |run|
  {
    run == [] || (Possible(env, a, run[0]) && Attacked(env, Moved(env, a, run[0]), run[1..]))
  }

  ghost function Aftermath(env: Env, a: Attack, run: seq<Move>): Attack
    requires Attacked(env, a, run)
    decreases |run|
  {
    if run == [] then a else Aftermath(env, Moved(env, a, run[0]), run[1..])
  }

  // ---- What one party does, whatever arrives ----

  predicate ClientSteady(c: ClientState) {
    if c.auth == CNoAuth then c.counter == c.index % U32_RANGE else c.index % U32_RANGE == 0
  }

  predicate ServerSteady(s: ServerState) {
    if s.auth == SNoAuth then s.counter == s.index % U32_RANGE else s.index % U32_RANGE == 0
  }

  /** The session keys so far: the current one is the last, one for each 2^32 counted messages. */
  predicate ClientKeyed(c: ClientState, keys: seq<bytes>) {
    match c.auth
    case CFailed(_) => true
    case CSend1 => |keys| == c.index / U32_RANGE
    case CWait2(_) => |keys| == c.index / U32_RANGE
    case CWait3(_) => |keys| == c.index / U32_RANGE
    case _ => |keys| == c.index / U32_RANGE + 1 && c.key == keys[|keys| - 1]
  }

  /** After logout the server's key is erased. */
  predicate Erased(s: ServerState) {
    s.key == Zeros(AES_KEY_LEN) && s.auth == SNoAuth && (s.pc.SMain? || s.pc.SClosed?)
  }

  predicate ServerKeyed(s: ServerState, keys: seq<bytes>) {
    match s.auth
    case SFailed(_) => true
    case SWait1 => |keys| == s.index / U32_RANGE
    case SSend2(_) => |keys| == s.index / U32_RANGE
    case SSend3(_) => |keys| == s.index / U32_RANGE
    case _ => |keys| == s.index / U32_RANGE + 1 && (s.key == keys[|keys| - 1] || Erased(s))
  }

  lemma ClientIncrementLocal(c: ClientState, cp: ClientPc, keys: seq<bytes>)
    requires c.auth == CNoAuth && ClientSteady(c) && ClientKeyed(c, keys)
    ensures var c' := ClientIncrement(c, cp);
            ClientSteady(c') && ClientKeyed(c', keys) && c'.index == c.index + 1 && c'.rejected == c.rejected
  {
    hide ClientContinue;
    IndexStep(c.index);
  }

  lemma ServerIncrementLocal(env: Env, s: ServerState, sp: ServerPc, keys: seq<bytes>)
    requires s.auth == SNoAuth && ServerSteady(s) && |keys| == s.index / U32_RANGE + 1 && s.key == keys[|keys| - 1]
    ensures var s' := ServerIncrement(env, s, sp);
            ServerSteady(s') && ServerKeyed(s', keys) && s'.index == s.index + 1 && s'.rejected == s.rejected
  {
    hide ServerContinue, Apply;
    IndexStep(s.index);
  }

  lemma ClientBeginLocal(c: ClientState, dir: Dir, keys: seq<bytes>)
    requires ClientAction(c) == Begins && ClientSteady(c) && ClientKeyed(c, keys)
    ensures var c' := ClientBegin(c, dir);
            ClientSteady(c') && ClientKeyed(c', keys) && c'.index == c.index && c'.rejected == c.rejected
  {
    hide ClientBegin;
    BeginShape(c, dir);
  }

  lemma ClientSendLocal(env: Env, c: ClientState, r: Rnd, keys: seq<bytes>)
    requires SealOpens(env) && ValidRnd(r)
    requires ClientAction(c) == Sends && ClientSteady(c) && ClientKeyed(c, keys)
    ensures var ClientOutput(p, c') := ClientSend(env, c, r);
            && ClientSteady(c') && ClientKeyed(c', keys) && c'.rejected == c.rejected
            && (p.Counted? <==> c.auth == CNoAuth) && Tagged(p, c.index, c.counter, c'.index)
  {
    hide Wrap, CounterOf, ClientIncrement, ClientSent, ClientText, LE32;
    if c.auth == CNoAuth {
      ClientIncrementLocal(c, ClientSent(c.pc), keys);
      WrapAccepted(env, c.key, r.iv, c.counter, ClientText(c.pc, r));
    }
  }

  lemma ServerSendLocal(env: Env, s: ServerState, r: Rnd, keys: seq<bytes>)
    requires SealOpens(env) && ValidRnd(r)
    requires ServerAction(s) == Sends && ServerSteady(s) && ServerKeyed(s, keys)
    ensures var ServerOutput(p, s') := ServerSend(env, s, r);
            && ServerSteady(s') && ServerKeyed(s', keys + if s.auth.SSend3? then KeyInM3(s') else []) && s'.rejected == s.rejected
            && (p.Counted? <==> s.auth == SNoAuth && !s.pc.SLoSend?) && (s.auth == SNoAuth ==> s.key == keys[|keys| - 1])
            && Tagged(p, s.index, s.counter, s'.index)
  {
    hide Wrap, CounterOf, ServerIncrement, ServerSent, ServerText, LE32, ServerContinue, SessionKey, EncAuthM3;
    if s.auth == SNoAuth && !s.pc.SLoSend? {
      ServerIncrementLocal(env, s, ServerSent(s.pc), keys);
      WrapAccepted(env, s.key, r.iv, s.counter, ServerText(s.pc, r));
    }
  }

  lemma ClientTakeLocal(env: Env, c: ClientState, frame: bytes, keys: seq<bytes>)
    requires c.auth == CNoAuth && ClientAction(c) == Receives(|frame|) && |frame| >= ENVELOPE_LEN
    requires ClientSteady(c) && ClientKeyed(c, keys)
    ensures var c' := ClientReceive(env, c, frame);
            && ClientSteady(c') && ClientKeyed(c', keys) && (c.rejected ==> c'.rejected)
            && (c'.index == c.index || c'.index == c.index + 1)
            && (c'.index > c.index || !c'.rejected ==> Accept(env, c.key, c.counter, frame).Some?)
  {
    hide Accept, Unwrap, ClientIncrement, ClientGot;
    var text := Accept(env, c.key, c.counter, frame);
    if text.Some? && |text.value| >= 1 && !c.pc.CLoWait? {
      ClientIncrementLocal(c, ClientGot(c.pc, text.value), keys);
    }
  }

  lemma ServerTakeLocal(env: Env, s: ServerState, frame: bytes, keys: seq<bytes>)
    requires s.auth == SNoAuth && ServerAction(s) == Receives(|frame|) && |frame| >= ENVELOPE_LEN
    requires ServerSteady(s) && ServerKeyed(s, keys) && (Accept(env, s.key, s.counter, frame).Some? ==> s.key == keys[|keys| - 1])
    ensures var s' := ServerReceive(env, s, frame);
            && ServerSteady(s') && ServerKeyed(s', keys) && (s.rejected ==> s'.rejected)
            && (s'.index == s.index || s'.index == s.index + 1)
            && (s'.index > s.index || !s'.rejected ==> Accept(env, s.key, s.counter, frame).Some?)
  {
    hide Accept, Unwrap, ServerIncrement, ServerGot;
    var text := Accept(env, s.key, s.counter, frame);
    if text.Some? && |text.value| >= 1 && ServerGot(s.pc, text.value).Some? {
      ServerIncrementLocal(env, s, ServerGot(s.pc, text.value).value, keys);
    }
  }

  lemma ClientThirdLocal(env: Env, c: ClientState, secret: nat, data: bytes, keys: seq<bytes>)
    requires |data| == AUTH_M3_LEN && c.auth == CWait3(secret) && ClientSteady(c) && ClientKeyed(c, keys)
    ensures var c' := ClientReceiveM3(env, c, secret, data);
            && ClientSteady(c') && ClientKeyed(c', keys + KeyOnM3(c')) && c'.rejected == c.rejected && c'.index == c.index
  {
    hide SessionKey, FromLE32, AuthM3Key, AuthM3Cert, PublicKey;
  }

  lemma ClientPassLocal(env: Env, c: ClientState, data: bytes, keys: seq<bytes>)
    requires ClientAction(c) == Receives(|data|) && !AwaitsCounted(c) && ClientSteady(c) && ClientKeyed(c, keys)
    ensures var c' := ClientReceive(env, c, data);
            && ClientSteady(c') && ClientKeyed(c', keys + if c.auth.CWait3? then KeyOnM3(c') else [])
            && (c.rejected ==> c'.rejected) && c'.index == c.index
  {
    hide Accept, Unwrap, ClientContinue, ClientReceiveM3, CounterOf;
    if c.auth.CWait3? {
      ClientThirdLocal(env, c, c.auth.secret, data, keys);
    }
  }

  lemma ServerPassLocal(env: Env, s: ServerState, data: bytes, keys: seq<bytes>)
    requires ServerAction(s) == Receives(|data|) && s.auth != SNoAuth && ServerSteady(s) && ServerKeyed(s, keys)
    ensures var s' := ServerReceive(env, s, data);
            && ServerSteady(s') && ServerKeyed(s', keys) && (s.rejected ==> s'.rejected) && s'.index == s.index
  {
    hide FromLE32, AuthM1User, AuthM1Key;
  }

  // ---- What a run under attack keeps, whatever has been refused ----

  predicate Distinct(keys: seq<bytes>) {
    forall i, j :: 0 <= i < j < |keys| ==> keys[i] != keys[j]
  }

  /** Session keys are fresh: each handshake gives a new one. */
  predicate Fresh(a: Attack) {
    && Distinct(a.clientKeys) && Distinct(a.serverKeys)
    && Zeros(AES_KEY_LEN) !in a.clientKeys && Zeros(AES_KEY_LEN) !in a.serverKeys
  }

  ghost predicate LogKeys(a: Attack) {
    forall e :: e in a.log ==> e.key in a.clientKeys || e.key in a.serverKeys
  }

  /** One party's acts: indices increase, each message carries the low 32 bits of its index under the key
      of its index's handshake, and it was sealed under that key. */
  ghost predicate ActsInOrder(log: seq<Entry>, acts: seq<Act>, index: nat, keys: seq<bytes>) {
    && (forall i, j :: 0 <= i < j < |acts| ==> acts[i].index < acts[j].index)
    && (forall i :: 0 <= i < |acts| ==> ActFits(log, acts[i], index, keys))
  }

  ghost predicate ActFits(log: seq<Entry>, act: Act, index: nat, keys: seq<bytes>) {
    && act.index < index && act.index / U32_RANGE < |keys| && act.key == keys[act.index / U32_RANGE]
    && |act.frame| >= ENVELOPE_LEN && CounterOf(act.frame) == act.index % U32_RANGE && Entry(act.key, act.frame) in log
  }

  ghost predicate Local(a: Attack) {
    && ClientSteady(a.c) && ServerSteady(a.s) && ClientKeyed(a.c, a.clientKeys) && ServerKeyed(a.s, a.serverKeys)
    && LogKeys(a)
    && ActsInOrder(a.log, a.clientActs, a.c.index, a.clientKeys) && ActsInOrder(a.log, a.serverActs, a.s.index, a.serverKeys)
  }

  lemma ActsExtend(env: Env, log: seq<Entry>, acts: seq<Act>, index: nat, index': nat, keys: seq<bytes>,
                   frame: bytes, key: bytes, counter: u32)
    requires ActsInOrder(log, acts, index, keys) && index <= index' <= index + 1 && counter == index % U32_RANGE
    requires |frame| >= ENVELOPE_LEN && Plausible(env, log, key, frame)
    requires index' > index ==> Accept(env, key, counter, frame).Some? && index / U32_RANGE < |keys| && key == keys[index / U32_RANGE]
    ensures ActsInOrder(log, acts + ActOf(index, index', key, frame), index', keys)
  {
    hide Unwrap, CounterOf;
    var more := acts + ActOf(index, index', key, frame);
    forall i | 0 <= i < |more| ensures ActFits(log, more[i], index', keys) {
      if i < |acts| {
        assert ActFits(log, acts[i], index, keys);
      } else {
        assert CounterOf(frame) == counter;
      }
    }
  }

  lemma ActsKept(log: seq<Entry>, acts: seq<Act>, index: nat, index': nat, keys: seq<bytes>, entries: seq<Entry>, more: seq<bytes>)
    requires ActsInOrder(log, acts, index, keys) && index <= index'
    ensures ActsInOrder(log + entries, acts, index', keys + more)
  {
    hide CounterOf;
    forall i | 0 <= i < |acts| ensures ActFits(log + entries, acts[i], index', keys + more) {
      assert ActFits(log, acts[i], index, keys);
    }
  }

  lemma SpeakLocal(env: Env, a: Attack, m: Move)
    requires SealOpens(env) && Possible(env, a, m) && Local(a) && (m.ClientSpeaks? || m.ServerSpeaks? || m.UserBegins?)
    ensures Local(Moved(env, a, m))
    ensures a.c.rejected ==> Moved(env, a, m).c.rejected
    ensures a.s.rejected ==> Moved(env, a, m).s.rejected
  {
    hide ClientSend, ServerSend, ClientBegin, ClientSteady, ServerSteady, ClientKeyed, ServerKeyed, ActsInOrder;
    var a' := Moved(env, a, m);
    match m
    case UserBegins => ClientBeginLocal(a.c, a.s.dir, a.clientKeys);
    case ClientSpeaks(r) =>
      ClientSendLocal(env, a.c, r, a.clientKeys);
      var entries := a'.log[|a.log|..];
      assert a'.log == a.log + entries && a.clientKeys + [] == a.clientKeys && a.serverKeys + [] == a.serverKeys;
      ActsKept(a.log, a.clientActs, a.c.index, a'.c.index, a.clientKeys, entries, []);
      ActsKept(a.log, a.serverActs, a.s.index, a.s.index, a.serverKeys, entries, []);
      assert a.c.auth == CNoAuth ==> a.c.key in a.clientKeys by { KeyIsListed(a.c, a.clientKeys); }
    case ServerSpeaks(r) =>
      ServerSendLocal(env, a.s, r, a.serverKeys);
      var more := a'.serverKeys[|a.serverKeys|..];
      var entries := a'.log[|a.log|..];
      assert a'.log == a.log + entries && a'.serverKeys == a.serverKeys + more && a.clientKeys + [] == a.clientKeys;
      ActsKept(a.log, a.serverActs, a.s.index, a'.s.index, a.serverKeys, entries, more);
      ActsKept(a.log, a.clientActs, a.c.index, a.c.index, a.clientKeys, entries, []);
      assert a.s.auth == SNoAuth ==> a.s.key in a.serverKeys by { ServerKeyIsListed(a.s, a.serverKeys); }
  }

  lemma KeyIsListed(c: ClientState, keys: seq<bytes>)
    requires ClientKeyed(c, keys)
    ensures c.auth == CNoAuth ==> c.key in keys
  {
  }

  lemma ServerKeyIsListed(s: ServerState, keys: seq<bytes>)
    requires ServerKeyed(s, keys)
    ensures s.auth == SNoAuth ==> |keys| > 0 && (s.key == keys[|keys| - 1] ==> s.key in keys)
  {
  }

  /** With its key erased the server accepts nothing any more. */
  lemma ErasedAcceptsNothing(env: Env, a: Attack, frame: bytes)
    requires Local(a) && Fresh(a) && a.s.auth == SNoAuth && |frame| >= ENVELOPE_LEN && Plausible(env, a.log, a.s.key, frame)
    ensures Accept(env, a.s.key, a.s.counter, frame).Some? ==> a.s.key == a.serverKeys[|a.serverKeys| - 1]
    ensures |a.serverKeys| == a.s.index / U32_RANGE + 1
  {
    hide Unwrap, CounterOf, ActsInOrder, ServerSteady, ClientSteady, ClientKeyed;
  }

  lemma HearLocal(env: Env, a: Attack, m: Move)
    requires SealOpens(env) && Possible(env, a, m) && Local(a) && Fresh(a)
    requires m.PassDown? || m.PassUp? || m.FeedClient? || m.FeedServer?
    ensures Local(Moved(env, a, m))
    ensures a.c.rejected ==> Moved(env, a, m).c.rejected
    ensures a.s.rejected ==> Moved(env, a, m).s.rejected
  {
    hide ClientReceive, ServerReceive, ActsInOrder, Accept;
    var a' := Moved(env, a, m);
    match m
    case PassDown =>
      ClientPassLocal(env, a.c, a.authDown[0], a.clientKeys);
      var more := a'.clientKeys[|a.clientKeys|..];
      assert a'.clientKeys == a.clientKeys + more;
      ActsKept(a.log, a.clientActs, a.c.index, a'.c.index, a.clientKeys, [], more);
      assert a.log + [] == a.log;
    case PassUp => ServerPassLocal(env, a.s, a.authUp[0], a.serverKeys);
    case FeedClient(frame) =>
      ClientTakeLocal(env, a.c, frame, a.clientKeys);
      ActsExtend(env, a.log, a.clientActs, a.c.index, a'.c.index, a.clientKeys, frame, a.c.key, a.c.counter);
    case FeedServer(frame) =>
      ErasedAcceptsNothing(env, a, frame);
      ServerTakeLocal(env, a.s, frame, a.serverKeys);
      ActsExtend(env, a.log, a.serverActs, a.s.index, a'.s.index, a.serverKeys, frame, a.s.key, a.s.counter);
  }

  lemma StepLocal(env: Env, a: Attack, m: Move)
    requires SealOpens(env) && Possible(env, a, m) && Local(a) && Fresh(a)
    ensures Local(Moved(env, a, m))
    ensures a.c.rejected ==> Moved(env, a, m).c.rejected
    ensures a.s.rejected ==> Moved(env, a, m).s.rejected
  {
    hide Local, Possible, Moved, Fresh;
    if m.ClientSpeaks? || m.ServerSpeaks? || m.UserBegins? {
      SpeakLocal(env, a, m);
    } else {
      HearLocal(env, a, m);
    }
  }

  lemma KeysGrow(env: Env, a: Attack, m: Move)
    requires Possible(env, a, m)
    ensures a.clientKeys <= Moved(env, a, m).clientKeys && a.serverKeys <= Moved(env, a, m).serverKeys
  {
    hide ClientSend, ServerSend, ClientReceive, ServerReceive, ClientBegin;
  }

  lemma {:induction false} FreshBefore(env: Env, a: Attack, run: seq<Move>)
    requires Attacked(env, a, run) && Fresh(Aftermath(env, a, run))
    ensures Fresh(a)
    decreases |run|
  {
    hide Possible, Moved;
    if run != [] {
      var a' := Moved(env, a, run[0]);
      FreshBefore(env, a', run[1..]);
      KeysGrow(env, a, run[0]);
      FreshPrefix(a, a');
    }
  }

  lemma FreshPrefix(a: Attack, a': Attack)
    requires a.clientKeys <= a'.clientKeys && a.serverKeys <= a'.serverKeys && Fresh(a')
    ensures Fresh(a)
  {
    forall i, j | 0 <= i < j < |a.clientKeys| ensures a.clientKeys[i] != a.clientKeys[j] {
      assert a'.clientKeys[i] != a'.clientKeys[j];
    }
    forall i, j | 0 <= i < j < |a.serverKeys| ensures a.serverKeys[i] != a.serverKeys[j] {
      assert a'.serverKeys[i] != a'.serverKeys[j];
    }
  }

  lemma {:induction false} RunLocal(env: Env, a: Attack, run: seq<Move>)
    requires SealOpens(env) && Attacked(env, a, run) && Local(a) && Fresh(Aftermath(env, a, run))
    ensures Local(Aftermath(env, a, run))
    decreases |run|
  {
    hide Local, Possible, Moved, Fresh, SealOpens;
    FreshBefore(env, a, run);
    if run != [] {
      StepLocal(env, a, run[0]);
      RunLocal(env, Moved(env, a, run[0]), run[1..]);
    }
  }

  lemma OpeningLocal(n: Session)
    ensures Local(Opening(n))
  {
  }

  /** No two keys sealed the same message: the initialisation vectors and tags of a run do not all collide. */
  ghost predicate SealedOnce(log: seq<Entry>) {
    forall e, e' :: e in log && e' in log && e.frame == e'.frame ==> e.key == e'.key
  }

  /** Nothing a party acts on repeats: within an epoch (between two handshakes) counters strictly increase,
      and no message is acted on twice, even epochs apart. */
  ghost predicate NoRepeats(acts: seq<Act>) {
    forall i, j :: 0 <= i < j < |acts| ==> Apart(acts[i], acts[j])
  }

  ghost predicate Apart(x: Act, y: Act) {
    && |x.frame| >= ENVELOPE_LEN && |y.frame| >= ENVELOPE_LEN && x.frame != y.frame
    && x.index / U32_RANGE <= y.index / U32_RANGE
    && (x.index / U32_RANGE == y.index / U32_RANGE ==> CounterOf(x.frame) < CounterOf(y.frame))
  }

  lemma ActsNeverRepeat(log: seq<Entry>, acts: seq<Act>, index: nat, keys: seq<bytes>)
    requires ActsInOrder(log, acts, index, keys) && Distinct(keys) && SealedOnce(log)
    ensures NoRepeats(acts)
  {
    hide CounterOf;
    forall i, j | 0 <= i < j < |acts| ensures Apart(acts[i], acts[j]) {
      assert ActFits(log, acts[i], index, keys) && ActFits(log, acts[j], index, keys);
    }
  }

  /** Over every run under attack, whether or not anything was refused, no effect is replayed on either side. */
  lemma NoReplay(n: Session, run: seq<Move>)
    requires SealOpens(n.env) && Attacked(n.env, Opening(n), run)
    requires var a := Aftermath(n.env, Opening(n), run); Fresh(a) && SealedOnce(a.log)
    ensures NoRepeats(Aftermath(n.env, Opening(n), run).clientActs)
    ensures NoRepeats(Aftermath(n.env, Opening(n), run).serverActs)
  {
    hide SealOpens, Moved, Possible, NoRepeats, ActsInOrder, SealedOnce;
    OpeningLocal(n);
    RunLocal(n.env, Opening(n), run);
    var a := Aftermath(n.env, Opening(n), run);
    ActsNeverRepeat(a.log, a.clientActs, a.c.index, a.clientKeys);
    ActsNeverRepeat(a.log, a.serverActs, a.s.index, a.serverKeys);
  }
}
