/** Until a party first refuses a message, a session under attack is an undisturbed session. */
module Containment {
  import opened Config
  import opened Bytes
  import opened Codecs
  import opened Env
  import opened Store
  import opened Protocol
  import opened Lockstep
  import opened Rendezvous
  import opened Network
  import opened Guarantees
  import opened Replay

  /** The uncounted messages in flight. */
  function AsideIn(flight: seq<Packet>): seq<bytes> {
    if flight == [] then [] else Aside(flight[0]) + AsideIn(flight[1..])
  }

  /** Counted messages in flight are in the log at their index. */
  ghost predicate InLog(flight: seq<Packet>, log: seq<Entry>) {
    forall p :: p in flight && p.Counted? ==> p.index < |log| && log[p.index].frame == p.frame
  }

  ghost predicate LogNumbered(log: seq<Entry>, keys: seq<bytes>) {
    forall i :: 0 <= i < |log| ==> EntryFits(log[i], i, keys)
  }

  ghost predicate EntryFits(e: Entry, i: nat, keys: seq<bytes>) {
    && |e.frame| >= ENVELOPE_LEN && CounterOf(e.frame) == i % U32_RANGE
    && i / U32_RANGE < |keys| && e.key == keys[i / U32_RANGE]
  }

  /** The attacked state `a` looks like the undisturbed state `h`. */
  ghost predicate Like(a: Attack, h: Net) {
    && a.c == h.c && a.s == h.s
    && a.upSent == h.upSent && a.downSent == h.downSent && a.upRead == h.upRead && a.downRead == h.downRead
    && a.authUp == AsideIn(h.upFlight) && a.authDown == AsideIn(h.downFlight)
    && |a.log| == (if h.c.index >= h.s.index then h.c.index else h.s.index)
    && InLog(h.upFlight, a.log) && InLog(h.downFlight, a.log)
    && LogNumbered(a.log, a.serverKeys)
    && a.clientKeys <= a.serverKeys
  }

  lemma {:induction false} AsideAppend(flight: seq<Packet>, p: Packet)
    ensures AsideIn(flight + [p]) == AsideIn(flight) + Aside(p)
    decreases |flight|
  {
    if flight == [] {
      assert flight + [p] == [p] && [p][1..] == [];
    } else {
      assert (flight + [p])[1..] == flight[1..] + [p];
      AsideAppend(flight[1..], p);
    }
  }

  lemma InLogExtends(flight: seq<Packet>, p: Packet, log: seq<Entry>, key: bytes)
    requires InLog(flight, log) && (p.Counted? ==> p.index == |log|)
    ensures InLog(flight + [p], log + Logged(p, key)) && InLog(flight, log + Logged(p, key))
  {
  }

  lemma LogExtends(log: seq<Entry>, keys: seq<bytes>, p: Packet, key: bytes)
    requires LogNumbered(log, keys)
    requires p.Counted? ==> EntryFits(Entry(key, p.frame), |log|, keys)
    ensures LogNumbered(log + Logged(p, key), keys)
  {
    hide CounterOf;
    var more := log + Logged(p, key);
    forall i | 0 <= i < |more| ensures EntryFits(more[i], i, keys) {
      if i < |log| {
        assert EntryFits(log[i], i, keys);
      }
    }
  }

  lemma LogKept(log: seq<Entry>, keys: seq<bytes>, more: seq<bytes>)
    requires LogNumbered(log, keys)
    ensures LogNumbered(log, keys + more)
  {
    hide CounterOf;
    forall i | 0 <= i < |log| ensures EntryFits(log[i], i, keys + more) {
      assert EntryFits(log[i], i, keys);
    }
  }

  lemma ClientSpeaksLike(n: Session, a: Attack, h: Net, r: Rnd)
    requires Runnable(n) && Inv(n, h) && Like(a, h) && Local(a) && Possible(n.env, a, ClientSpeaks(r))
    ensures Enabled(h, ClientSends(r)) && Like(Moved(n.env, a, ClientSpeaks(r)), Step(n.env, h, ClientSends(r)))
  {
    hide Inv, ClientSend, InLog, LogNumbered, ClientSteady, Runnable, CounterOf, ActsInOrder;
    SealingIsIdeal(n);
    ClientHasTurn(n, h);
    LockStep(n, h);
    ClientSendLocal(n.env, a.c, r, a.clientKeys);
    var p := ClientSend(n.env, a.c, r).packet;
    AsideAppend(h.upFlight, p);
    InLogExtends(h.upFlight, p, a.log, a.c.key);
    InLogExtends(h.downFlight, p, a.log, a.c.key);
    if p.Counted? {
      assert a.c.key == a.serverKeys[a.c.index / U32_RANGE];
    }
    LogExtends(a.log, a.serverKeys, p, a.c.key);
  }

  lemma SealingIsIdeal(n: Session)
    requires Runnable(n)
    ensures SealOpens(n.env)
  {
  }

  lemma ServerSpeaksLike(n: Session, a: Attack, h: Net, r: Rnd)
    requires Runnable(n) && Inv(n, h) && Like(a, h) && Local(a) && Possible(n.env, a, ServerSpeaks(r))
    ensures Enabled(h, ServerSends(r)) && Like(Moved(n.env, a, ServerSpeaks(r)), Step(n.env, h, ServerSends(r)))
  {
    hide Inv, ServerSend, InLog, LogNumbered, ServerSteady, Runnable, CounterOf, ActsInOrder, ClientSteady, ClientKeyed, SealOpens;
    SealingIsIdeal(n);
    ServerHasTurn(n, h);
    LockStep(n, h);
    ServerSendLocal(n.env, a.s, r, a.serverKeys);
    var p := ServerSend(n.env, a.s, r).packet;
    AsideAppend(h.downFlight, p);
    InLogExtends(h.upFlight, p, a.log, a.s.key);
    InLogExtends(h.downFlight, p, a.log, a.s.key);
    LogExtends(a.log, a.serverKeys, p, a.s.key);
    var a' := Moved(n.env, a, ServerSpeaks(r));
    LogKept(a'.log, a.serverKeys, a'.serverKeys[|a.serverKeys|..]);
    assert a'.serverKeys == a.serverKeys + a'.serverKeys[|a.serverKeys|..];
  }

  /** What the server can be made to accept is the next message the client sent it. */
  lemma ServerFed(n: Session, a: Attack, h: Net, frame: bytes)
    requires |frame| >= ENVELOPE_LEN && Accept(n.env, a.s.key, a.s.counter, frame).Some?
    requires Possible(n.env, a, FeedServer(frame))
    requires Runnable(n) && Inv(n, h) && Like(a, h) && Local(a) && Fresh(a)
    ensures h.upFlight != [] && h.upFlight[0].Counted? && h.upFlight[0].frame == frame
  {
    hide Inv, Runnable, CounterOf, Unwrap, ActsInOrder, InLog, ServerReceive, ClientKeyed, ClientSteady;
    ErasedAcceptsNothing(n.env, a, frame);
    var i :| 0 <= i < |a.log| && a.log[i] == Entry(a.s.key, frame);
    assert EntryFits(a.log[i], i, a.serverKeys);
    assert i / U32_RANGE == a.s.index / U32_RANGE && i % U32_RANGE == a.s.index % U32_RANGE;
    assert i == a.s.index;
    LockStep(n, h);
    UpFlightHead(n, h);
    HeadIsLogged(h.upFlight, a.log);
  }

  lemma HeadIsLogged(flight: seq<Packet>, log: seq<Entry>)
    requires InLog(flight, log) && flight != [] && flight[0].Counted?
    ensures flight[0].index < |log| && log[flight[0].index].frame == flight[0].frame
  {
    assert flight[0] in flight;
  }

  lemma UpFlightHead(n: Session, h: Net)
    requires Runnable(n) && Inv(n, h) && h.upFlight != []
    ensures ServerAction(h.s) == Receives(|h.upFlight[0].frame|)
    ensures h.upFlight[0].Counted? <==> h.s.auth == SNoAuth
    ensures h.upFlight[0].Counted? ==> h.upFlight[0].index == h.s.index
    ensures |h.up| >= |h.upFlight[0].frame| && h.up[..|h.upFlight[0].frame|] == h.upFlight[0].frame
    ensures Enabled(h, ServerReceives)
  {
    hide Good, ServerReceive;
    ReadStream(h.upFlight, |h.upFlight[0].frame|);
  }

  lemma DownFlightHead(n: Session, h: Net)
    requires Runnable(n) && Inv(n, h) && h.downFlight != []
    ensures ClientAction(h.c) == Receives(|h.downFlight[0].frame|)
    ensures h.downFlight[0].Counted? <==> AwaitsCounted(h.c)
    ensures h.downFlight[0].Counted? ==> h.downFlight[0].index == h.c.index
    ensures |h.down| >= |h.downFlight[0].frame| && h.down[..|h.downFlight[0].frame|] == h.downFlight[0].frame
    ensures Enabled(h, ClientReceives)
  {
    hide Good, ClientReceive;
    ReadStream(h.downFlight, |h.downFlight[0].frame|);
  }

  lemma ClientFed(n: Session, a: Attack, h: Net, frame: bytes)
    requires |frame| >= ENVELOPE_LEN && Accept(n.env, a.c.key, a.c.counter, frame).Some?
    requires Possible(n.env, a, FeedClient(frame))
    requires Runnable(n) && Inv(n, h) && Like(a, h) && Local(a) && Fresh(a)
    ensures h.downFlight != [] && h.downFlight[0].Counted? && h.downFlight[0].frame == frame
  {
    hide Inv, Runnable, CounterOf, Unwrap, ActsInOrder, InLog, ClientReceive, ServerKeyed, ServerSteady;
    var i :| 0 <= i < |a.log| && a.log[i] == Entry(a.c.key, frame);
    assert EntryFits(a.log[i], i, a.serverKeys);
    assert i / U32_RANGE == a.c.index / U32_RANGE && i % U32_RANGE == a.c.index % U32_RANGE;
    assert i == a.c.index;
    LockStep(n, h);
    DownFlightHead(n, h);
    CountedBeforeLogout(n, h);
    HeadIsLogged(h.downFlight, a.log);
  }

  /** Nothing follows the logout reply, which is not counted. */
  lemma LogoutReplyIsLast(env: Env, c: ClientState, flight: seq<Packet>)
    requires flight != [] && ClientTakesAll(env, c, flight) && c.auth == CNoAuth && c.pc.CLoWait?
    ensures CountedIn(flight) == 0
  {
    hide Accept, Unwrap, ClientIncrement, Tagged;
    assert ClientAction(ClientReceive(env, c, flight[0].frame)) == Rests;
    assert ClientTakesAll(env, ClientReceive(env, c, flight[0].frame), flight[1..]);
    assert flight[1..] == [];
  }

  lemma CountedBeforeLogout(n: Session, h: Net)
    requires Runnable(n) && Inv(n, h) && h.downFlight != [] && h.c.auth == CNoAuth && CountedIn(h.downFlight) > 0
    ensures !h.c.pc.CLoWait?
  {
    hide Good;
    if h.c.pc.CLoWait? {
      LogoutReplyIsLast(n.env, h.c, h.downFlight);
    }
  }

  lemma FeedServerLike(n: Session, a: Attack, h: Net, frame: bytes)
    requires Runnable(n) && Inv(n, h) && Like(a, h) && Local(a) && Fresh(a) && Possible(n.env, a, FeedServer(frame))
    requires !Moved(n.env, a, FeedServer(frame)).s.rejected
    ensures Enabled(h, ServerReceives) && Like(Moved(n.env, a, FeedServer(frame)), Step(n.env, h, ServerReceives))
  {
    hide Inv, Runnable, Accept, ActsInOrder, ServerReceive, LogNumbered, InLog, ClientSteady, ClientKeyed, ServerSteady, ServerKeyed, LogKeys, Fresh;
    ErasedAcceptsNothing(n.env, a, frame);
    ServerTakeLocal(n.env, a.s, frame, a.serverKeys);
    ServerFed(n, a, h, frame);
    UpFlightHead(n, h);
    InLogTail(h.upFlight, a.log);
    LockStep(n, h);
    UpReceiveIndex(n, h);
  }

  lemma InLogTail(flight: seq<Packet>, log: seq<Entry>)
    requires InLog(flight, log) && flight != []
    ensures InLog(flight[1..], log)
  {
  }

  /** Reading a message does not change which index is the highest. */
  lemma UpReceiveIndex(n: Session, h: Net)
    requires Runnable(n) && Inv(n, h) && h.upFlight != []
    ensures h.c.index >= ServerReceive(n.env, h.s, h.upFlight[0].frame).index && h.c.index >= h.s.index
  {
    hide Inv, Runnable, ServerReceive, Enabled;
    UpFlightHead(n, h);
    LockStep(n, h);
    StepServerReceives(n, h);
    LockStep(n, Step(n.env, h, ServerReceives));
  }

  lemma DownReceiveIndex(n: Session, h: Net)
    requires Runnable(n) && Inv(n, h) && h.downFlight != []
    ensures h.s.index >= ClientReceive(n.env, h.c, h.downFlight[0].frame).index && h.s.index >= h.c.index
  {
    hide Inv, Runnable, ClientReceive, Enabled;
    DownFlightHead(n, h);
    LockStep(n, h);
    StepClientReceives(n, h);
    LockStep(n, Step(n.env, h, ClientReceives));
  }

  lemma FeedClientLike(n: Session, a: Attack, h: Net, frame: bytes)
    requires Runnable(n) && Inv(n, h) && Like(a, h) && Local(a) && Fresh(a) && Possible(n.env, a, FeedClient(frame))
    requires !Moved(n.env, a, FeedClient(frame)).c.rejected
    ensures Enabled(h, ClientReceives) && Like(Moved(n.env, a, FeedClient(frame)), Step(n.env, h, ClientReceives))
  {
    hide Inv, Runnable, Accept, ActsInOrder, ClientReceive, LogNumbered, InLog, ClientSteady, ClientKeyed, ServerSteady, ServerKeyed, LogKeys, Fresh;
    ClientTakeLocal(n.env, a.c, frame, a.clientKeys);
    ClientFed(n, a, h, frame);
    DownFlightHead(n, h);
    InLogTail(h.downFlight, a.log);
    LockStep(n, h);
    DownReceiveIndex(n, h);
  }

  lemma PassUpLike(n: Session, a: Attack, h: Net)
    requires Runnable(n) && Inv(n, h) && Like(a, h) && Possible(n.env, a, PassUp)
    ensures Enabled(h, ServerReceives) && Like(Moved(n.env, a, PassUp), Step(n.env, h, ServerReceives))
  {
    hide Inv, Runnable, ServerReceive, LogNumbered, InLog;
    UpFlightHead(n, h);
    InLogTail(h.upFlight, a.log);
    LockStep(n, h);
    UpReceiveIndex(n, h);
  }

  lemma PassDownLike(n: Session, a: Attack, h: Net)
    requires Runnable(n) && Inv(n, h) && Like(a, h) && Local(a) && Possible(n.env, a, PassDown)
    ensures Enabled(h, ClientReceives) && Like(Moved(n.env, a, PassDown), Step(n.env, h, ClientReceives))
  {
    hide Inv, Runnable, ClientReceive, LogNumbered, InLog, ActsInOrder;
    DownFlightHead(n, h);
    InLogTail(h.downFlight, a.log);
    LockStep(n, h);
    DownReceiveIndex(n, h);
    if a.c.auth.CWait3? {
      KeyArrives(n, a, h);
    }
  }

  /** A client that takes M3 is level with the server and has its key. */
  lemma KeyAgreed(n: Session, h: Net)
    requires Runnable(n) && Inv(n, h) && h.downFlight != [] && h.c.auth.CWait3?
    requires ClientAction(h.c) == Receives(|h.downFlight[0].frame|)
    requires ClientReceive(n.env, h.c, h.downFlight[0].frame).auth.CSend4?
    ensures h.s.auth.SWait4? && ClientReceive(n.env, h.c, h.downFlight[0].frame).key == h.s.key
    ensures ClientReceive(n.env, h.c, h.downFlight[0].frame).index == h.s.index
  {
    hide Good, ClientReceive, ServerTaking, Tagged, Streams, Runnable;
    var c := ClientReceive(n.env, h.c, h.downFlight[0].frame);
    assert ClientTakesAll(n.env, c, h.downFlight[1..]);
    NothingTaken(n.env, c, h.downFlight[1..]);
    SignedTogether(n, c, h.s);
  }

  lemma NothingTaken(env: Env, c: ClientState, flight: seq<Packet>)
    requires c.auth.CSend4? && ClientTakesAll(env, c, flight)
    ensures flight == [] && ClientAfter(env, c, flight) == c
  {
    hide ClientReceive, Tagged;
  }

  lemma SignedTogether(n: Session, c: ClientState, s: ServerState)
    requires Good(n, c, s) && c.auth.CSend4?
    ensures s.auth.SWait4? && c.key == s.key && c.index == s.index
  {
    hide Matched;
  }

  lemma LastKey(c: ClientState, c': ClientState, s: ServerState, clientKeys: seq<bytes>, serverKeys: seq<bytes>)
    requires ClientKeyed(c, clientKeys) && ServerKeyed(s, serverKeys) && c.auth.CWait3? && c'.auth.CSend4? && s.auth.SWait4?
    requires clientKeys <= serverKeys && c.index == c'.index == s.index && c'.key == s.key
    ensures clientKeys + KeyOnM3(c') <= serverKeys
  {
    assert s.key == serverKeys[|clientKeys|];
  }

  /** The client derives the key the server derived. */
  lemma KeyArrives(n: Session, a: Attack, h: Net)
    requires Runnable(n) && Inv(n, h) && Like(a, h) && Local(a) && Possible(n.env, a, PassDown) && a.c.auth.CWait3?
    ensures a.clientKeys + KeyOnM3(ClientReceive(n.env, a.c, a.authDown[0])) <= a.serverKeys
  {
    hide Inv, Runnable, ClientReceive, LogNumbered, InLog, ActsInOrder, ClientKeyed, ServerKeyed, ClientSteady, ServerSteady;
    DownFlightHead(n, h);
    var c := ClientReceive(n.env, a.c, a.authDown[0]);
    if c.auth.CSend4? {
      KeyAgreed(n, h);
      ClientPassLocal(n.env, a.c, a.authDown[0], a.clientKeys);
      LastKey(a.c, c, a.s, a.clientKeys, a.serverKeys);
    }
  }

  /** The undisturbed step that a move amounts to. */
  function Undisturbed(m: Move): Event {
    match m
    case UserBegins => Begin
    case ClientSpeaks(r) => ClientSends(r)
    case ServerSpeaks(r) => ServerSends(r)
    case PassDown => ClientReceives
    case PassUp => ServerReceives
    case FeedClient(_) => ClientReceives
    case FeedServer(_) => ServerReceives
  }

  lemma MoveLike(n: Session, a: Attack, h: Net, m: Move)
    requires Runnable(n) && Inv(n, h) && Like(a, h) && Local(a) && Fresh(a) && Possible(n.env, a, m)
    requires !Moved(n.env, a, m).c.rejected && !Moved(n.env, a, m).s.rejected
    ensures Enabled(h, Undisturbed(m)) && Like(Moved(n.env, a, m), Step(n.env, h, Undisturbed(m)))
  {
    hide Inv, Runnable, Like, Local, Fresh, Possible, Moved, Enabled, Step;
    match m
    case UserBegins => BeginLike(n, a, h);
    case ClientSpeaks(r) => ClientSpeaksLike(n, a, h, r);
    case ServerSpeaks(r) => ServerSpeaksLike(n, a, h, r);
    case PassDown => PassDownLike(n, a, h);
    case PassUp => PassUpLike(n, a, h);
    case FeedClient(frame) => FeedClientLike(n, a, h, frame);
    case FeedServer(frame) => FeedServerLike(n, a, h, frame);
  }

  lemma BeginLike(n: Session, a: Attack, h: Net)
    requires Runnable(n) && Inv(n, h) && Like(a, h) && Local(a) && Possible(n.env, a, UserBegins)
    ensures Enabled(h, Begin) && Like(Moved(n.env, a, UserBegins), Step(n.env, h, Begin))
  {
    hide Inv, Runnable, ClientBegin, LogNumbered, InLog, ActsInOrder;
    ClientBeginLocal(a.c, a.s.dir, a.clientKeys);
  }

  lemma {:induction false} RunLike(n: Session, a: Attack, h: Net, run: seq<Move>) returns (quiet: seq<Event>)
    requires Runnable(n) && Inv(n, h) && Like(a, h) && Local(a)
    requires Attacked(n.env, a, run)
    requires var b := Aftermath(n.env, a, run); Fresh(b) && !b.c.rejected && !b.s.rejected
    ensures Runs(n.env, h, quiet) && Like(Aftermath(n.env, a, run), End(n.env, h, quiet)) && |quiet| == |run|
    decreases |run|
  {
    hide Inv, Runnable, Like, Local, Fresh, Possible, Moved, Enabled, Step, SealOpens;
    SealingIsIdeal(n);
    if run == [] {
      quiet := [];
    } else {
      var a' := Moved(n.env, a, run[0]);
      FreshBefore(n.env, a, run);
      FreshBefore(n.env, a', run[1..]);
      StepLocal(n.env, a, run[0]);
      RefusalLasts(n.env, a', run[1..]);
      MoveLike(n, a, h, run[0]);
      StepInv(n, h, Undisturbed(run[0]));
      var rest := RunLike(n, a', Step(n.env, h, Undisturbed(run[0])), run[1..]);
      quiet := [Undisturbed(run[0])] + rest;
      assert quiet[1..] == rest;
    }
  }

  lemma {:induction false} RefusalLasts(env: Env, a: Attack, run: seq<Move>)
    requires SealOpens(env) && Attacked(env, a, run) && Local(a) && Fresh(Aftermath(env, a, run))
    ensures a.c.rejected ==> Aftermath(env, a, run).c.rejected
    ensures a.s.rejected ==> Aftermath(env, a, run).s.rejected
    decreases |run|
  {
    hide Local, Fresh, Possible, Moved, SealOpens;
    if run != [] {
      FreshBefore(env, a, run);
      StepLocal(env, a, run[0]);
      RefusalLasts(env, Moved(env, a, run[0]), run[1..]);
    }
  }

  /** As long as neither side has refused a message, the attacked parties are where an undisturbed run of the same length
      takes them, and what each has accepted is a prefix of what its peer sent. */
  lemma UntilRefusal(n: Session, run: seq<Move>) returns (quiet: seq<Event>)
    requires Runnable(n) && Attacked(n.env, Opening(n), run)
    requires var a := Aftermath(n.env, Opening(n), run); Fresh(a) && !a.c.rejected && !a.s.rejected
    ensures Runs(n.env, Initial(n), quiet) && |quiet| == |run|
    ensures var a, h := Aftermath(n.env, Opening(n), run), End(n.env, Initial(n), quiet);
            && a.c == h.c && a.s == h.s
            && a.upRead <= a.upSent && a.downRead <= a.downSent
  {
    hide Inv, Runnable, Local, Fresh, Possible, Moved, Enabled, Step, InLog, LogNumbered;
    InitialInv(n);
    OpeningLocal(n);
    assert Like(Opening(n), Initial(n)) by {
      EmptyLog();
    }
    quiet := RunLike(n, Opening(n), Initial(n), run);
    EveryRun(n, quiet);
    Framing(n, End(n.env, Initial(n), quiet));
  }

  lemma EmptyLog()
    ensures InLog([], []) && LogNumbered([], [])
  {
  }
}
