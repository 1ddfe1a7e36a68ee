/** The real semantics: two asynchronous parties joined by two unframed byte streams. A `receive` of n bytes takes
    the next n bytes once that many are there. One side may run ahead; replaying what is in flight meets the rendezvous. */
module Network {
  import opened Config
  import opened Bytes
  import opened Codecs
  import opened Env
  import opened Store
  import opened Protocol
  import opened Lockstep
  import opened Rendezvous

  /** `up` and `down` are the streams. The rest is history: the messages sent, those still in flight, the reads made. */
  datatype Net = Net(
    c: ClientState, s: ServerState, up: bytes, down: bytes,
    upFlight: seq<Packet>, downFlight: seq<Packet>,
    upSent: seq<bytes>, downSent: seq<bytes>, upRead: seq<bytes>, downRead: seq<bytes>)

  datatype Event = Begin | ClientSends(r: Rnd) | ServerSends(r: Rnd) | ClientReceives | ServerReceives

  function Initial(n: Session): Net {
    Net(InitialClient(n), InitialServer(n), [], [], [], [], [], [], [], [])
  }

  predicate Enabled(net: Net, e: Event) {
    match e
    case Begin => ClientAction(net.c) == Begins
    case ClientSends(r) => ClientAction(net.c) == Sends && ValidRnd(r)
    case ServerSends(r) => ServerAction(net.s) == Sends && ValidRnd(r)
    case ClientReceives => ClientAction(net.c).Receives? && |net.down| >= ClientAction(net.c).length
    case ServerReceives => ServerAction(net.s).Receives? && |net.up| >= ServerAction(net.s).length
  }

  function Tail(flight: seq<Packet>): seq<Packet> {
    if flight == [] then [] else flight[1..]
  }

  function Step(env: Env, net: Net, e: Event): Net
    requires Enabled(net, e)
  {
    match e
    case Begin => net.(c := ClientBegin(net.c, net.s.dir))
    case ClientSends(r) =>
      var ClientOutput(p, c) := ClientSend(env, net.c, r);
      net.(c := c, up := net.up + p.frame, upFlight := net.upFlight + [p], upSent := net.upSent + [p.frame])
    case ServerSends(r) =>
      var ServerOutput(p, s) := ServerSend(env, net.s, r);
      net.(s := s, down := net.down + p.frame, downFlight := net.downFlight + [p], downSent := net.downSent + [p.frame])
    case ClientReceives =>
      var k := ClientAction(net.c).length;
      net.(c := ClientReceive(env, net.c, net.down[..k]), down := net.down[k..],
           downFlight := Tail(net.downFlight), downRead := net.downRead + [net.down[..k]])
    case ServerReceives =>
      var k := ServerAction(net.s).length;
      net.(s := ServerReceive(env, net.s, net.up[..k]), up := net.up[k..],
           upFlight := Tail(net.upFlight), upRead := net.upRead + [net.up[..k]])
  }

  // ---- Messages in flight ----

  function Stream(flight: seq<Packet>): bytes {
    if flight == [] then [] else flight[0].frame + Stream(flight[1..])
  }

  function Frames(flight: seq<Packet>): (r: seq<bytes>)
    ensures |r| == |flight|
  {
    seq(|flight|, i requires 0 <= i < |flight| => flight[i].frame)
  }

  function Weight(p: Packet): nat {
    if p.Counted? then 1 else 0
  }

  function CountedIn(flight: seq<Packet>): nat {
    if flight == [] then 0 else Weight(flight[0]) + CountedIn(flight[1..])
  }

  /** The receiver waits for exactly this packet: its length, and its counter when it is counted. */
  ghost predicate ServerTaking(env: Env, s: ServerState, p: Packet)
  {
    && ServerAction(s) == Receives(|p.frame|) && (p.Counted? <==> s.auth == SNoAuth)
    && Tagged(p, s.index, s.counter, ServerReceive(env, s, p.frame).index)
  }

  ghost predicate ClientTaking(env: Env, c: ClientState, p: Packet)
  {
    && ClientAction(c) == Receives(|p.frame|) && (p.Counted? <==> AwaitsCounted(c))
    && Tagged(p, c.index, c.counter, ClientReceive(env, c, p.frame).index)
  }

  ghost predicate ServerTakesAll(env: Env, s: ServerState, flight: seq<Packet>)
    decreases |flight|
  {
    flight == []
    || (ServerTaking(env, s, flight[0]) && ServerTakesAll(env, ServerReceive(env, s, flight[0].frame), flight[1..]))
  }

  ghost function ServerAfter(env: Env, s: ServerState, flight: seq<Packet>): ServerState
    requires ServerTakesAll(env, s, flight)
    decreases |flight|
  {
    if flight == [] then s else ServerAfter(env, ServerReceive(env, s, flight[0].frame), flight[1..])
  }

  ghost predicate ClientTakesAll(env: Env, c: ClientState, flight: seq<Packet>)
    decreases |flight|
  {
    flight == []
    || (ClientTaking(env, c, flight[0]) && ClientTakesAll(env, ClientReceive(env, c, flight[0].frame), flight[1..]))
  }

  ghost function ClientAfter(env: Env, c: ClientState, flight: seq<Packet>): ClientState
    requires ClientTakesAll(env, c, flight)
    decreases |flight|
  {
    if flight == [] then c else ClientAfter(env, ClientReceive(env, c, flight[0].frame), flight[1..])
  }

  lemma {:induction false} ServerTakesMore(env: Env, s: ServerState, flight: seq<Packet>, p: Packet)
    requires ServerTakesAll(env, s, flight) && ServerTaking(env, ServerAfter(env, s, flight), p)
    ensures ServerTakesAll(env, s, flight + [p])
    ensures ServerAfter(env, s, flight + [p]) == ServerReceive(env, ServerAfter(env, s, flight), p.frame)
    decreases |flight|
  {
    hide ServerReceive;
    if flight == [] {
      assert flight + [p] == [p] && [p][1..] == [];
    } else {
      assert (flight + [p])[1..] == flight[1..] + [p];
      ServerTakesMore(env, ServerReceive(env, s, flight[0].frame), flight[1..], p);
    }
  }

  lemma {:induction false} ClientTakesMore(env: Env, c: ClientState, flight: seq<Packet>, p: Packet)
    requires ClientTakesAll(env, c, flight) && ClientTaking(env, ClientAfter(env, c, flight), p)
    ensures ClientTakesAll(env, c, flight + [p])
    ensures ClientAfter(env, c, flight + [p]) == ClientReceive(env, ClientAfter(env, c, flight), p.frame)
    decreases |flight|
  {
    hide ClientReceive;
    if flight == [] {
      assert flight + [p] == [p] && [p][1..] == [];
    } else {
      assert (flight + [p])[1..] == flight[1..] + [p];
      ClientTakesMore(env, ClientReceive(env, c, flight[0].frame), flight[1..], p);
    }
  }

  lemma {:induction false} StreamAppend(flight: seq<Packet>, p: Packet)
    ensures Stream(flight + [p]) == Stream(flight) + p.frame
    decreases |flight|
  {
    if flight == [] {
      assert flight + [p] == [p] && [p][1..] == [];
    } else {
      assert (flight + [p])[1..] == flight[1..] + [p];
      StreamAppend(flight[1..], p);
    }
  }

  // ---- The invariant ----

  ghost predicate Streams(net: Net) {
    && net.up == Stream(net.upFlight) && net.upSent == net.upRead + Frames(net.upFlight)
    && net.down == Stream(net.downFlight) && net.downSent == net.downRead + Frames(net.downFlight)
  }

  predicate BetweenCommands(c: ClientState) {
    c.auth == CNoAuth && (c.pc.CIdle? || c.pc.CDone?)
  }

  /** The client is level or ahead. When it is between commands, the server's pending message changes no file. */
  ghost predicate UpAhead(n: Session, net: Net)
  {
    && net.downFlight == []
    && ServerTakesAll(n.env, net.s, net.upFlight)
    && var s := ServerAfter(n.env, net.s, net.upFlight);
    && Good(n, net.c, s)
    && (BetweenCommands(net.c) ==> |net.upFlight| <= 1 && s.dir == net.s.dir)
    && (net.c.auth == CNoAuth && net.c.pc.CDelAnswer? ==> net.upFlight == [])
  }

  ghost predicate DownAhead(n: Session, net: Net)
  {
    && net.upFlight == []
    && ClientTakesAll(n.env, net.c, net.downFlight)
    && Good(n, ClientAfter(n.env, net.c, net.downFlight), net.s)
  }

  ghost predicate Inv(n: Session, net: Net)
  {
    Streams(net) && (UpAhead(n, net) || DownAhead(n, net))
  }

  lemma InitialInv(n: Session)
    requires Runnable(n)
    ensures Inv(n, Initial(n))
  {
    InitialGood(n);
  }

  lemma SentStreams(net: Net, p: Packet)
    requires Streams(net)
    ensures net.up + p.frame == Stream(net.upFlight + [p])
    ensures net.upSent + [p.frame] == net.upRead + Frames(net.upFlight + [p])
    ensures net.down + p.frame == Stream(net.downFlight + [p])
    ensures net.downSent + [p.frame] == net.downRead + Frames(net.downFlight + [p])
  {
    hide Stream;
    StreamAppend(net.upFlight, p);
    StreamAppend(net.downFlight, p);
    assert Frames(net.upFlight + [p]) == Frames(net.upFlight) + [p.frame];
    assert Frames(net.downFlight + [p]) == Frames(net.downFlight) + [p.frame];
  }

  lemma ReadStream(flight: seq<Packet>, k: nat)
    requires flight != [] && k == |flight[0].frame|
    ensures |Stream(flight)| >= k && Stream(flight)[..k] == flight[0].frame && Stream(flight)[k..] == Stream(flight[1..])
    ensures Frames(flight) == [flight[0].frame] + Frames(flight[1..])
  {
  }

  lemma SendsToIdle(env: Env, c: ClientState, r: Rnd)
    requires ValidRnd(r) && ClientAction(c) == Sends
    ensures var c' := ClientSend(env, c, r).state;
            c'.auth == CNoAuth ==> !c'.pc.CDelAnswer? && (c'.pc.CIdle? || c'.pc.CDone? ==> c.auth == CNoAuth && c.pc.CDelAnswer?)
  {
    hide Wrap, ClientText;
  }

  lemma RestsAt(n: Session, c: ClientState, s: ServerState)
    requires Good(n, c, s) && c.pc.CIdle?
    ensures |c.done| <= |n.ops| && s.dir == WorldAfter(n, |c.done|).dir
  {
    hide InOp, Atomic, AuthMatched, Outcomes, MessagesBefore;
  }

  lemma AbortedWorld(n: Session, k: nat)
    requires k < |n.ops| && n.ops[k].Delete? && !n.ops[k].confirm
    ensures WorldAfter(n, k + 1) == WorldAfter(n, k)
  {
  }

  /** An aborted delete leaves the directory as it was. */
  lemma AbortKeepsFiles(n: Session, c: ClientState, s: ServerState, c': ClientState, s': ServerState)
    requires Runnable(n) && Good(n, c, s) && c.auth == CNoAuth && c.pc.CDelAnswer?
    requires Good(n, c', s') && c'.auth == CNoAuth && c'.pc.CIdle? && |c'.done| == |c.done| + 1 && !c.pc.confirm
    ensures s'.dir == s.dir
  {
    hide Good, Runnable, WorldAt;
    DeletePlace(n, c, s);
    RestsAt(n, c', s');
    AbortedWorld(n, |c.done|);
  }

  lemma OnlyDelete(env: Env, w: World, op: Op, v: View)
    requires InOp(env, w, op, v) && v.cp.CDelAnswer?
    ensures op.Delete? && op.confirm == v.cp.confirm && v.dir == w.dir
  {
    hide ValidName, Atomic;
    match op
    case List =>
    case Download(_) =>
    case Upload(_) =>
    case Rename(_, _) =>
    case Delete(_, _) =>
    case Logout =>
  }

  lemma DeletePlace(n: Session, c: ClientState, s: ServerState)
    requires Runnable(n) && Good(n, c, s) && c.auth == CNoAuth && c.pc.CDelAnswer?
    ensures |c.done| < |n.ops| && n.ops[|c.done|].Delete? && n.ops[|c.done|].confirm == c.pc.confirm
    ensures s.dir == WorldAfter(n, |c.done|).dir
  {
    hide InOp, Atomic, InReach, AuthMatched, Outcomes, MessagesBefore, Runnable;
    OnlyDelete(n.env, WorldAfter(n, |c.done|), n.ops[|c.done|], ViewOf(c, s));
  }

  lemma AnswerEnds(env: Env, c: ClientState, r: Rnd)
    requires ValidRnd(r) && c.auth == CNoAuth && c.pc.CDelAnswer?
    ensures var c' := ClientSend(env, c, r).state;
            BetweenCommands(c') ==> c'.pc.CIdle? && !c.pc.confirm && |c'.done| == |c.done| + 1
  {
    hide Wrap, ClientText;
  }

  // ---- Every step keeps the invariant ----

  /** A party that has messages to read does not send or begin; so one that does is level or ahead. */
  lemma ClientHasTurn(n: Session, net: Net)
    requires Inv(n, net) && !ClientAction(net.c).Receives?
    ensures net.downFlight == []
  {
    hide Good;
  }

  lemma ServerHasTurn(n: Session, net: Net)
    requires Inv(n, net) && !ServerAction(net.s).Receives?
    ensures net.upFlight == []
  {
    hide Good;
  }


  lemma StepClientSends(n: Session, net: Net, r: Rnd)
    requires Runnable(n) && Inv(n, net) && Enabled(net, ClientSends(r))
    ensures Inv(n, Step(n.env, net, ClientSends(r)))
  {
    hide Good, ClientTaking, ClientSend, ServerReceive, Runnable;
    ClientHasTurn(n, net);
    assert UpAhead(n, net);
    var s := ServerAfter(n.env, net.s, net.upFlight);
    var ClientOutput(p, c') := ClientSend(n.env, net.c, r);
    ClientSendGood(n, net.c, s, r);
    assert ServerTaking(n.env, s, p);
    ServerTakesMore(n.env, net.s, net.upFlight, p);
    SentStreams(net, p);
    SendsToIdle(n.env, net.c, r);
    if BetweenCommands(c') {
      AnswerEnds(n.env, net.c, r);
      AbortKeepsFiles(n, net.c, s, c', ServerReceive(n.env, s, p.frame));
    }
  }

  lemma LevelIsBoth(n: Session, net: Net)
    requires Inv(n, net) && net.upFlight == [] && net.downFlight == []
    ensures UpAhead(n, net) && DownAhead(n, net)
  {
    hide Good;
  }

  lemma StepServerSends(n: Session, net: Net, r: Rnd)
    requires Runnable(n) && Inv(n, net) && Enabled(net, ServerSends(r))
    ensures Inv(n, Step(n.env, net, ServerSends(r)))
  {
    hide Good, ServerTaking, ServerSend, ClientReceive, Runnable;
    ServerHasTurn(n, net);
    if UpAhead(n, net) {
      LevelIsBoth(n, net);
    }
    var c := ClientAfter(n.env, net.c, net.downFlight);
    var ServerOutput(p, s') := ServerSend(n.env, net.s, r);
    ServerSendGood(n, c, net.s, r);
    assert ClientTaking(n.env, c, p);
    ClientTakesMore(n.env, net.c, net.downFlight, p);
    SentStreams(net, p);
  }

  lemma ReceivesSomething(c: ClientState, s: ServerState)
    ensures ClientAction(c).Receives? ==> ClientAction(c).length >= 1
    ensures ServerAction(s).Receives? ==> ServerAction(s).length >= 1
  {
  }

  lemma StepServerReceives(n: Session, net: Net)
    requires Runnable(n) && Inv(n, net) && Enabled(net, ServerReceives)
    ensures Inv(n, Step(n.env, net, ServerReceives))
    ensures net.upFlight != [] && Step(n.env, net, ServerReceives).s == ServerReceive(n.env, net.s, net.upFlight[0].frame)
  {
    hide Good, ClientTaking, ServerReceive, Tagged;
    ReceivesSomething(net.c, net.s);
    assert net.upFlight != [];
    ReadStream(net.upFlight, ServerAction(net.s).length);
    assert net.upFlight[0].frame == net.up[..ServerAction(net.s).length];
  }

  lemma StepClientReceives(n: Session, net: Net)
    requires Runnable(n) && Inv(n, net) && Enabled(net, ClientReceives)
    ensures Inv(n, Step(n.env, net, ClientReceives))
    ensures net.downFlight != [] && Step(n.env, net, ClientReceives).c == ClientReceive(n.env, net.c, net.downFlight[0].frame)
  {
    hide Good, ServerTaking, ClientReceive, Tagged;
    ReceivesSomething(net.c, net.s);
    assert net.downFlight != [];
    ReadStream(net.downFlight, ClientAction(net.c).length);
    assert net.downFlight[0].frame == net.down[..ClientAction(net.c).length];
  }

  lemma BeginStarts(c: ClientState, dir: Dir)
    requires ClientAction(c) == Begins
    ensures BetweenCommands(c)
    ensures var c' := ClientBegin(c, dir); !c'.pc.CDelAnswer? && c'.auth == CNoAuth && !c'.pc.CDone?
  {
    hide ClientBegin;
    BeginShape(c, dir);
  }

  lemma StepBegin(n: Session, net: Net)
    requires Runnable(n) && Inv(n, net) && Enabled(net, Begin)
    ensures Inv(n, Step(n.env, net, Begin))
  {
    hide Good, ServerTaking, ClientTaking, ClientBegin, Runnable;
    ClientHasTurn(n, net);
    if !UpAhead(n, net) {
      LevelIsBoth(n, net);
    }
    BeginStarts(net.c, net.s.dir);
    BeginGood(n, net.c, ServerAfter(n.env, net.s, net.upFlight));
  }

  lemma StepInv(n: Session, net: Net, e: Event)
    requires Runnable(n) && Inv(n, net) && Enabled(net, e)
    ensures Inv(n, Step(n.env, net, e))
  {
    hide UpAhead, DownAhead, Runnable, Step, Streams;
    match e
    case Begin => StepBegin(n, net);
    case ClientSends(r) => StepClientSends(n, net, r);
    case ServerSends(r) => StepServerSends(n, net, r);
    case ClientReceives => StepClientReceives(n, net);
    case ServerReceives => StepServerReceives(n, net);
  }

  // ---- Runs ----

  ghost predicate Runs(env: Env, net: Net, run: seq<Event>)
    decreases |run|
  {
    run == [] || (Enabled(net, run[0]) && Runs(env, Step(env, net, run[0]), run[1..]))
  }

  ghost function End(env: Env, net: Net, run: seq<Event>): Net
    requires Runs(env, net, run)
    decreases |run|
  {
    if run == [] then net else End(env, Step(env, net, run[0]), run[1..])
  }

  lemma {:induction false} RunInv(n: Session, net: Net, run: seq<Event>)
    requires Runnable(n) && Inv(n, net) && Runs(n.env, net, run)
    ensures Inv(n, End(n.env, net, run))
    decreases |run|
  {
    hide Inv, Step, Runnable;
    if run != [] {
      StepInv(n, net, run[0]);
      RunInv(n, Step(n.env, net, run[0]), run[1..]);
    }
  }

  /** Every state that any interleaving of a session reaches satisfies the invariant. */
  lemma EveryRun(n: Session, run: seq<Event>)
    requires Runnable(n) && Runs(n.env, Initial(n), run)
    ensures Inv(n, End(n.env, Initial(n), run))
  {
    InitialInv(n);
    RunInv(n, Initial(n), run);
  }
}
