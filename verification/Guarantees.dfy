/** What every reachable state of a session guarantees. */
module Guarantees {
  import opened Config
  import opened Bytes
  import opened Chunks
  import opened Codecs
  import opened Env
  import opened Store
  import opened Protocol
  import opened Lockstep
  import opened Rendezvous
  import opened Network

  // ---- Lock step ----

  /** Counted packets carry consecutive indices from `first`, and each carries the low 32 bits of its index. */
  ghost predicate Numbered(flight: seq<Packet>, first: nat) {
    forall i :: 0 <= i < |flight| && flight[i].Counted? ==>
      && flight[i].index == first + CountedIn(flight[..i])
      && |flight[i].frame| >= ENVELOPE_LEN && CounterOf(flight[i].frame) == flight[i].index % U32_RANGE
  }

  lemma NumberedCons(p: Packet, rest: seq<Packet>, first: nat)
    requires Numbered(rest, first + Weight(p))
    requires p.Counted? ==> p.index == first && |p.frame| >= ENVELOPE_LEN && CounterOf(p.frame) == first % U32_RANGE
    ensures Numbered([p] + rest, first)
    ensures CountedIn([p] + rest) == Weight(p) + CountedIn(rest)
  {
    hide CounterOf;
    var all := [p] + rest;
    assert all[1..] == rest;
    forall i | 0 <= i < |all| && all[i].Counted?
      ensures all[i].index == first + CountedIn(all[..i])
      ensures |all[i].frame| >= ENVELOPE_LEN && CounterOf(all[i].frame) == all[i].index % U32_RANGE
    {
      if i > 0 {
        assert all[..i][0] == p && all[..i][1..] == rest[..i - 1];
        assert all[i] == rest[i - 1];
      } else {
        assert all[..0] == [];
      }
    }
  }

  lemma {:induction false} ServerInFlight(env: Env, s: ServerState, flight: seq<Packet>)
    requires ServerTakesAll(env, s, flight)
    ensures ServerAfter(env, s, flight).index == s.index + CountedIn(flight)
    ensures Numbered(flight, s.index)
    decreases |flight|
  {
    hide ServerReceive, CounterOf;
    if flight != [] {
      ServerInFlight(env, ServerReceive(env, s, flight[0].frame), flight[1..]);
      NumberedCons(flight[0], flight[1..], s.index);
      assert flight == [flight[0]] + flight[1..];
    }
  }

  lemma {:induction false} ClientInFlight(env: Env, c: ClientState, flight: seq<Packet>)
    requires ClientTakesAll(env, c, flight)
    ensures ClientAfter(env, c, flight).index == c.index + CountedIn(flight)
    ensures Numbered(flight, c.index)
    decreases |flight|
  {
    hide ClientReceive, CounterOf;
    if flight != [] {
      ClientInFlight(env, ClientReceive(env, c, flight[0].frame), flight[1..]);
      NumberedCons(flight[0], flight[1..], c.index);
      assert flight == [flight[0]] + flight[1..];
    }
  }

  /** At most one direction has messages in flight; the two sides' logical counters differ by exactly the counted
      messages in flight, whose own counters are consecutive. */
  lemma LockStep(n: Session, net: Net)
    requires Runnable(n) && Inv(n, net)
    ensures net.upFlight == [] || net.downFlight == []
    ensures net.c.index - net.s.index == CountedIn(net.upFlight) - CountedIn(net.downFlight)
    ensures Numbered(net.upFlight, net.s.index) && Numbered(net.downFlight, net.c.index)
  {
    hide Good, Numbered, Runnable;
    if UpAhead(n, net) {
      ServerInFlight(n.env, net.s, net.upFlight);
      GoodIndices(n, net.c, ServerAfter(n.env, net.s, net.upFlight));
      NothingNumbered(net.c.index);
    } else {
      ClientInFlight(n.env, net.c, net.downFlight);
      GoodIndices(n, ClientAfter(n.env, net.c, net.downFlight), net.s);
      NothingNumbered(net.s.index);
    }
  }

  lemma NothingNumbered(first: nat)
    ensures Numbered([], first) && CountedIn([]) == 0
  {
  }

  /** With nothing in flight and no handshake running, both 32-bit counters are the index modulo 2^32. */
  lemma CountersAreIndices(n: Session, net: Net)
    requires Runnable(n) && Inv(n, net) && net.upFlight == [] && net.downFlight == [] && net.c.auth == CNoAuth
    ensures net.c.counter == net.s.counter == net.c.index % U32_RANGE && net.c.index == net.s.index
    ensures !net.c.pc.CDone? ==> net.c.key == net.s.key
  {
    hide Matched;
    LevelIsBoth(n, net);
  }

  /** Both sides are in a handshake or neither is, and they enter it exactly when the index passes a multiple of 2^32. */
  lemma HandshakesTogether(n: Session, net: Net)
    requires Runnable(n) && Inv(n, net) && net.upFlight == [] && net.downFlight == []
    ensures net.c.auth == CNoAuth <==> net.s.auth == SNoAuth
    ensures net.c.auth != CNoAuth ==> net.c.index == net.s.index && net.c.index % U32_RANGE == 0
  {
    hide Matched;
    LevelIsBoth(n, net);
  }

  // ---- Framing ----

  lemma AsksFill(pc: ClientPc, r: Rnd)
    requires Asks(pc) && ValidRnd(r)
    ensures ClientPcAction(pc, true) == Sends && |ClientText(pc, r)| == MAX_PACKET_SIZE
  {
    hide LE32, Strncpy, AnnouncedUpload;
  }

  /** Every first request fills the packet the dispatch loop waits for, whatever the command. */
  lemma FirstRequestsFillThePacket(c: ClientState, dir: Dir, r: Rnd)
    requires ClientAction(c) == Begins && ValidRnd(r) && !ClientBegin(c, dir).pc.CIdle?
    ensures var pc := ClientBegin(c, dir).pc;
            ClientPcAction(pc, true) == Sends && ServerPcAction(SMain) == Receives(ENVELOPE_LEN + |ClientText(pc, r)|)
  {
    hide ClientText;
    hide ClientBegin;
    BeginShape(c, dir);
    AsksFill(ClientBegin(c, dir).pc, r);
  }

  /** The reads made so far are exactly the first messages sent, and the stream is exactly the rest. */
  lemma Framing(n: Session, net: Net)
    requires Runnable(n) && Inv(n, net)
    ensures net.upRead <= net.upSent && net.up == Joined(net.upSent[|net.upRead|..])
    ensures net.downRead <= net.downSent && net.down == Joined(net.downSent[|net.downRead|..])
  {
    hide Good, Runnable;
    assert Streams(net);
    assert net.upSent[|net.upRead|..] == Frames(net.upFlight);
    assert net.downSent[|net.downRead|..] == Frames(net.downFlight);
    StreamIsJoined(net.upFlight);
    StreamIsJoined(net.downFlight);
  }

  function Joined(messages: seq<bytes>): bytes {
    if messages == [] then [] else messages[0] + Joined(messages[1..])
  }

  lemma {:induction false} StreamIsJoined(flight: seq<Packet>)
    ensures Stream(flight) == Joined(Frames(flight))
    decreases |flight|
  {
    if flight != [] {
      StreamIsJoined(flight[1..]);
      assert Frames(flight)[1..] == Frames(flight[1..]);
    }
  }

  // ---- Refinement ----

  /** Replaying what is in flight changes nothing for a client between commands. */
  lemma ClientAtRest(n: Session, net: Net)
    requires Runnable(n) && Inv(n, net) && BetweenCommands(net.c)
    ensures UpAhead(n, net)
  {
    hide Good, Runnable;
    ClientHasTurn(n, net);
    if !UpAhead(n, net) {
      LevelIsBoth(n, net);
    }
  }

  /** The commands that have finished had exactly their atomic outcomes: codes, lists and message counts. */
  lemma OutcomesAreAtomic(n: Session, net: Net)
    requires Runnable(n) && Inv(n, net)
    ensures |net.c.done| <= |n.ops| && net.c.done == Outcomes(n.env, n.world, n.ops, |net.c.done|)
  {
    hide Runnable, InOp, AuthMatched;
    if UpAhead(n, net) {
    } else {
      DoneGrows(n.env, net.c, net.downFlight);
      OutcomesPrefix(n, |ClientAfter(n.env, net.c, net.downFlight).done|, |net.c.done|);
    }
  }

  lemma {:induction false} OutcomesPrefix(n: Session, k: nat, j: nat)
    requires j <= k <= |n.ops|
    ensures Outcomes(n.env, n.world, n.ops, k)[..j] == Outcomes(n.env, n.world, n.ops, j)
  {
    hide Atomic;
    if j < k {
      OutcomesPrefix(n, k - 1, j);
    }
  }

  predicate Extends(done: seq<Outcome>, done': seq<Outcome>) {
    |done| <= |done'| && done == done'[..|done|]
  }

  lemma ResumeExtends(c: ClientState)
    ensures Extends(c.done, ClientResume(c).done)
  {
    hide ClientContinue;
  }

  lemma OpReceiveExtends(env: Env, c: ClientState, frame: bytes)
    requires |frame| >= ENVELOPE_LEN
    ensures Extends(c.done, ClientReceiveOp(env, c, frame).done)
  {
    hide Accept, Unwrap, ClientResume, ClientGot, Extends;
    ExtendedByOne(c.done);
    var text := Accept(env, c.key, c.counter, frame);
    if text.Some? && |text.value| >= 1 && c.counter != MAX_COUNTER_VALUE {
      ResumeExtends(c.(pc := ClientGot(c.pc, text.value), messages := c.messages + 1, index := c.index + 1, counter := c.counter + 1));
    }
  }

  lemma ExtendedByOne(done: seq<Outcome>)
    ensures Extends(done, done) && forall o :: Extends(done, done + [o])
  {
  }

  lemma ReceiveExtends(env: Env, c: ClientState, data: bytes)
    requires ClientAction(c) == Receives(|data|)
    ensures Extends(c.done, ClientReceive(env, c, data).done)
  {
    hide Unwrap, SessionKey, ClientResume, ClientReceiveOp, AuthM3Key, AuthM3Cert, FromLE32, CounterOf, Extends;
    ExtendedByOne(c.done);
    if c.auth == CNoAuth {
      OpReceiveExtends(env, c, data);
    } else if c.auth == CWait5 {
      ResumeExtends(c.(auth := CNoAuth, counter := 0));
    }
  }

  lemma {:induction false} DoneGrows(env: Env, c: ClientState, flight: seq<Packet>)
    requires ClientTakesAll(env, c, flight)
    ensures Extends(c.done, ClientAfter(env, c, flight).done)
    decreases |flight|
  {
    hide ClientReceive;
    if flight != [] {
      ReceiveExtends(env, c, flight[0].frame);
      DoneGrows(env, ClientReceive(env, c, flight[0].frame), flight[1..]);
    }
  }

  /** Whenever the client is between commands, both directories are what the atomic commands made them. */
  lemma FilesAreAtomic(n: Session, net: Net)
    requires Runnable(n) && Inv(n, net) && BetweenCommands(net.c)
    ensures |net.c.done| <= |n.ops| && World(net.s.dir, net.c.local) == WorldAfter(n, |net.c.done|)
  {
    hide Atomic, InOp;
    ClientAtRest(n, net);
  }

  // ---- Progress ----

  /** The session is over: every command done, nothing in flight, the server back in its dispatch loop. */
  predicate Complete(n: Session, net: Net) {
    && BetweenCommands(net.c) && |net.c.done| == |n.ops| && net.c.todo == []
    && net.s.pc == SMain && net.s.auth == SNoAuth && net.up == [] && net.down == []
  }

  lemma SomeRnd() returns (r: Rnd)
    ensures ValidRnd(r)
  {
    r := Rnd(Zeros(IV_LEN), Zeros(MAX_PACKET_SIZE - 1), 0);
  }

  /** No deadlock: a state in which nothing can happen is a finished session, and conversely. */
  lemma NoDeadlock(n: Session, net: Net)
    requires Runnable(n) && Inv(n, net)
    ensures (exists e :: Enabled(net, e)) <==> !Complete(n, net)
  {
    hide Runnable, Good, ServerTaking, ClientTaking, Enabled;
    if Complete(n, net) {
      forall e ensures !Enabled(net, e) {
        CompleteRests(n, net, e);
      }
    } else {
      var e := NextEvent(n, net);
      assert Enabled(net, e);
    }
  }

  lemma CompleteRests(n: Session, net: Net, e: Event)
    requires Complete(n, net)
    ensures !Enabled(net, e)
  {
  }

  lemma NextEvent(n: Session, net: Net) returns (e: Event)
    requires Runnable(n) && Inv(n, net) && !Complete(n, net)
    ensures Enabled(net, e)
  {
    hide Runnable, Good;
    if net.upFlight != [] {
      ReadStream(net.upFlight, |net.upFlight[0].frame|);
      e := ServerReceives;
    } else if net.downFlight != [] {
      ReadStream(net.downFlight, |net.downFlight[0].frame|);
      e := ClientReceives;
    } else {
      LevelIsBoth(n, net);
      Turn(n, net.c, net.s);
      var r := SomeRnd();
      if ClientAction(net.c) == Sends {
        e := ClientSends(r);
      } else if ServerAction(net.s) == Sends {
        e := ServerSends(r);
      } else {
        DoneMeansNoneToDo(n, net.c, net.s);
        e := Begin;
      }
    }
  }

  lemma DoneMeansNoneToDo(n: Session, c: ClientState, s: ServerState)
    requires Good(n, c, s)
    ensures |c.done| == |n.ops| ==> c.todo == []
  {
    hide InOp, AuthMatched, Outcomes, MessagesBefore;
  }
}
