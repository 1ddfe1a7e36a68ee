/** The guarantees, for every run: any interleaving of the two parties' steps from the start of a session. */
module Theorems {
  import opened Config
  import opened Bytes
  import opened Codecs
  import opened Env
  import opened Store
  import opened Protocol
  import opened Lockstep
  import opened Network
  import opened Guarantees
  import opened Rendezvous
  import Replay

  ghost function Reached(n: Session, run: seq<Event>): Net
    requires Runs(n.env, Initial(n), run)
  {
    End(n.env, Initial(n), run)
  }

  lemma AlwaysInLockStep(n: Session, run: seq<Event>)
    requires Runnable(n) && Runs(n.env, Initial(n), run)
    ensures var net := Reached(n, run);
            && (net.upFlight == [] || net.downFlight == [])
            && net.c.index - net.s.index == CountedIn(net.upFlight) - CountedIn(net.downFlight)
            && Numbered(net.upFlight, net.s.index) && Numbered(net.downFlight, net.c.index)
  {
    hide Inv, Runs, End, Runnable, Numbered;
    EveryRun(n, run);
    LockStep(n, Reached(n, run));
  }

  lemma AlwaysFramed(n: Session, run: seq<Event>)
    requires Runnable(n) && Runs(n.env, Initial(n), run)
    ensures var net := Reached(n, run);
            && net.upRead <= net.upSent && net.up == Joined(net.upSent[|net.upRead|..])
            && net.downRead <= net.downSent && net.down == Joined(net.downSent[|net.downRead|..])
  {
    hide Inv, Runs, End, Runnable;
    EveryRun(n, run);
    Framing(n, Reached(n, run));
  }

  lemma AlwaysAtomic(n: Session, run: seq<Event>)
    requires Runnable(n) && Runs(n.env, Initial(n), run)
    ensures var net := Reached(n, run);
            && |net.c.done| <= |n.ops| && net.c.done == Outcomes(n.env, n.world, n.ops, |net.c.done|)
            && (BetweenCommands(net.c) ==> World(net.s.dir, net.c.local) == WorldAfter(n, |net.c.done|))
  {
    hide Inv, Runs, End, Runnable, Outcomes, WorldAt;
    EveryRun(n, run);
    var net := Reached(n, run);
    OutcomesAreAtomic(n, net);
    if BetweenCommands(net.c) {
      FilesAreAtomic(n, net);
    }
  }

  lemma NeverStuck(n: Session, run: seq<Event>)
    requires Runnable(n) && Runs(n.env, Initial(n), run)
    ensures (exists e :: Enabled(Reached(n, run), e)) <==> !Complete(n, Reached(n, run))
  {
    hide Inv, Runs, End, Runnable, Enabled, Complete;
    EveryRun(n, run);
    NoDeadlock(n, Reached(n, run));
  }

  // ---- Each side's counter, at every moment ----

  lemma ClientSendSteady(env: Env, c: ClientState, r: Rnd)
    requires ValidRnd(r) && ClientAction(c) == Sends && Replay.ClientSteady(c)
    ensures Replay.ClientSteady(ClientSend(env, c, r).state)
  {
    hide Wrap, ClientText, ClientContinue, ClientSent;
    IndexStep(c.index);
  }

  lemma ClientReceiveSteady(env: Env, c: ClientState, data: bytes)
    requires ClientAction(c) == Receives(|data|) && Replay.ClientSteady(c)
    ensures Replay.ClientSteady(ClientReceive(env, c, data))
  {
    hide Accept, Unwrap, ClientContinue, ClientGot, SessionKey, FromLE32, AuthM3Key, AuthM3Cert, CounterOf;
    IndexStep(c.index);
  }

  lemma ClientBeginSteady(c: ClientState, dir: Dir)
    requires ClientAction(c) == Begins && Replay.ClientSteady(c)
    ensures Replay.ClientSteady(ClientBegin(c, dir))
  {
    hide ValidName;
  }

  lemma ServerSendSteady(env: Env, s: ServerState, r: Rnd)
    requires ValidRnd(r) && ServerAction(s) == Sends && Replay.ServerSteady(s)
    ensures Replay.ServerSteady(ServerSend(env, s, r).state)
  {
    hide Wrap, ServerText, ServerContinue, ServerSent, SessionKey, EncAuthM3, Apply;
    IndexStep(s.index);
  }

  lemma ServerReceiveSteady(env: Env, s: ServerState, data: bytes)
    requires ServerAction(s) == Receives(|data|) && Replay.ServerSteady(s)
    ensures Replay.ServerSteady(ServerReceive(env, s, data))
  {
    hide Accept, Unwrap, ServerContinue, ServerGot, FromLE32, AuthM1User, AuthM1Key, Apply;
    IndexStep(s.index);
  }

  lemma StepSteady(env: Env, net: Net, e: Event)
    requires Enabled(net, e) && Replay.ClientSteady(net.c) && Replay.ServerSteady(net.s)
    ensures Replay.ClientSteady(Step(env, net, e).c) && Replay.ServerSteady(Step(env, net, e).s)
  {
    hide ClientSend, ClientReceive, ClientBegin, ServerSend, ServerReceive, Replay.ClientSteady, Replay.ServerSteady;
    match e
    case Begin => ClientBeginSteady(net.c, net.s.dir);
    case ClientSends(r) => ClientSendSteady(env, net.c, r);
    case ServerSends(r) => ServerSendSteady(env, net.s, r);
    case ClientReceives => ClientReceiveSteady(env, net.c, net.down[..ClientAction(net.c).length]);
    case ServerReceives => ServerReceiveSteady(env, net.s, net.up[..ServerAction(net.s).length]);
  }

  lemma {:induction false} RunSteady(env: Env, net: Net, run: seq<Event>)
    requires Runs(env, net, run) && Replay.ClientSteady(net.c) && Replay.ServerSteady(net.s)
    ensures Replay.ClientSteady(End(env, net, run).c) && Replay.ServerSteady(End(env, net, run).s)
    decreases |run|
  {
    hide Step, Enabled, Replay.ClientSteady, Replay.ServerSteady;
    if run != [] {
      StepSteady(env, net, run[0]);
      RunSteady(env, Step(env, net, run[0]), run[1..]);
    }
  }

  /** On each side, in flight or not: outside a handshake the 32-bit counter is the logical counter modulo 2^32, and a
      handshake runs only when the logical counter is a multiple of 2^32. */
  lemma AlwaysCounted(n: Session, run: seq<Event>)
    requires Runs(n.env, Initial(n), run)
    ensures var c := Reached(n, run).c;
            if c.auth == CNoAuth then c.counter == c.index % U32_RANGE else c.index % U32_RANGE == 0
    ensures var s := Reached(n, run).s;
            if s.auth == SNoAuth then s.counter == s.index % U32_RANGE else s.index % U32_RANGE == 0
  {
    hide Runs, End;
    RunSteady(n.env, Initial(n), run);
  }
}
