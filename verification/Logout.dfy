/** After the reply to a logout: the server's key is erased and stays so, and nothing more is accepted. */
module Logout {
  import opened Config
  import opened Bytes
  import opened Codecs
  import opened Env
  import opened Store
  import opened Protocol
  import opened Lockstep
  import opened Rendezvous
  import opened Network
  import opened StepCount
  import opened Replay

  /** The server is about to reply to a logout. */
  predicate Leaving(s: ServerState) {
    s.auth == SNoAuth && s.pc == SLoSend
  }

  // ---- Undisturbed sessions ----

  /** The server has replied, and the client has read or will read that reply last. */
  ghost predicate LoggedOut(n: Session, net: Net) {
    && Inv(n, net) && net.up == [] && net.s.auth == SNoAuth && net.s.pc == SMain && Blank(net.s.key)
    && Front(n, net).pc.CDone? && Front(n, net).auth == CNoAuth
  }

  lemma LeavingTogether(n: Session, c: ClientState, s: ServerState)
    requires Good(n, c, s) && Leaving(s)
    ensures c.auth == CNoAuth
  {
    hide Matched;
  }

  lemma ReplyLogsOut(n: Session, net: Net, r: Rnd)
    requires Runnable(n) && Inv(n, net) && Leaving(net.s) && Enabled(net, ServerSends(r))
    ensures LoggedOut(n, Step(n.env, net, ServerSends(r)))
  {
    hide Good, ServerSend, ClientReceive, Runnable, Blank;
    StepInv(n, net, ServerSends(r));
    ServerHasTurn(n, net);
    if UpAhead(n, net) {
      LevelIsBoth(n, net);
    }
    var c := ClientAfter(n.env, net.c, net.downFlight);
    LeavingTogether(n, c, net.s);
    LogoutServerSends(n, c, net.s, r);
    ServerSendGood(n, c, net.s, r);
    assert ClientTaking(n.env, c, ServerSend(n.env, net.s, r).packet);
    ClientTakesMore(n.env, net.c, net.downFlight, ServerSend(n.env, net.s, r).packet);
  }

  lemma StaysLoggedOut(n: Session, net: Net, e: Event)
    requires Runnable(n) && LoggedOut(n, net) && Enabled(net, e)
    ensures LoggedOut(n, Step(n.env, net, e))
  {
    hide Good, ClientReceive, ServerReceive, ClientSend, ServerSend, ClientBegin, Runnable, Blank;
    StepInv(n, net, e);
    if !ClientAction(net.c).Receives? {
      ClientHasTurn(n, net);
    }
    if e.ClientReceives? {
      StepClientReceives(n, net);
      var rest := net.downFlight[1..];
      assert Front(n, net) == ClientAfter(n.env, ClientReceive(n.env, net.c, net.downFlight[0].frame), rest);
    }
  }

  lemma {:induction false} RunStaysLoggedOut(n: Session, net: Net, run: seq<Event>)
    requires Runnable(n) && LoggedOut(n, net) && Runs(n.env, net, run)
    ensures LoggedOut(n, End(n.env, net, run))
    decreases |run|
  {
    hide LoggedOut, Runnable, Step, Enabled;
    if run != [] {
      StaysLoggedOut(n, net, run[0]);
      RunStaysLoggedOut(n, Step(n.env, net, run[0]), run[1..]);
    }
  }

  /** After any run of a session, once the server has replied to the logout its key is 16 zero bytes for good. */
  lemma LogoutErases(n: Session, before: seq<Event>, r: Rnd, after: seq<Event>)
    requires Runnable(n) && Runs(n.env, Initial(n), before)
    requires var net := End(n.env, Initial(n), before);
             Leaving(net.s) && ValidRnd(r) && Runs(n.env, Step(n.env, net, ServerSends(r)), after)
    ensures var net := End(n.env, Initial(n), before);
            Blank(End(n.env, Step(n.env, net, ServerSends(r)), after).s.key)
  {
    hide Inv, Runs, End, Runnable, Step, Blank;
    EveryRun(n, before);
    var net := End(n.env, Initial(n), before);
    ReplyLogsOut(n, net, r);
    RunStaysLoggedOut(n, Step(n.env, net, ServerSends(r)), after);
  }

  // ---- Sessions under attack ----

  ghost predicate Emptied(s: ServerState) {
    s.auth == SNoAuth && (s.pc.SMain? || s.pc.SClosed?) && Blank(s.key)
  }

  lemma BlankIsZeros(key: bytes)
    ensures Blank(key) <==> key == Zeros(AES_KEY_LEN)
  {
  }

  /** A message fed to a server without a key is refused. */
  lemma FeedIsRefused(env: Env, a: Attack, frame: bytes)
    requires Local(a) && Fresh(a) && Emptied(a.s) && Possible(env, a, FeedServer(frame))
    ensures var b := Moved(env, a, FeedServer(frame));
            Emptied(b.s) && b.serverActs == a.serverActs && b.upRead == a.upRead && b.s.dir == a.s.dir && b.s.index == a.s.index
  {
    hide Local, Unwrap, CounterOf, Accept;
    BlankIsZeros(a.s.key);
    ErasedAcceptsNothing(env, a, frame);
  }

  lemma MoveLeavesEmptied(env: Env, a: Attack, m: Move)
    requires Local(a) && Fresh(a) && Emptied(a.s) && Possible(env, a, m)
    ensures var b := Moved(env, a, m);
            Emptied(b.s) && b.serverActs == a.serverActs && b.upRead == a.upRead && b.s.dir == a.s.dir && b.s.index == a.s.index
  {
    hide Local, Fresh, ClientReceive, ClientSend, ClientBegin, Blank;
    if m.FeedServer? {
      FeedIsRefused(env, a, m.frame);
    }
  }

  lemma {:induction false} RunLeavesEmptied(env: Env, a: Attack, run: seq<Move>)
    requires SealOpens(env) && Attacked(env, a, run) && Local(a) && Fresh(Aftermath(env, a, run)) && Emptied(a.s)
    ensures var b := Aftermath(env, a, run);
            Emptied(b.s) && b.serverActs == a.serverActs && b.upRead == a.upRead && b.s.dir == a.s.dir && b.s.index == a.s.index
    decreases |run|
  {
    hide Local, Possible, Moved, Fresh, SealOpens, Emptied;
    FreshBefore(env, a, run);
    if run != [] {
      MoveLeavesEmptied(env, a, run[0]);
      StepLocal(env, a, run[0]);
      RunLeavesEmptied(env, Moved(env, a, run[0]), run[1..]);
    }
  }

  lemma ReplyEmpties(env: Env, a: Attack, r: Rnd)
    requires Leaving(a.s) && Possible(env, a, ServerSpeaks(r))
    ensures var b := Moved(env, a, ServerSpeaks(r));
            Emptied(b.s) && b.serverActs == a.serverActs && b.upRead == a.upRead && b.s.dir == a.s.dir && b.s.index == a.s.index
  {
    hide Wrap, ServerText;
  }

  /** Under attack, too, the key stays erased, and from the reply on the server accepts no message and acts on none:
      neither its files nor its counted messages change. */
  lemma NothingAfterLogout(n: Session, before: seq<Move>, r: Rnd, after: seq<Move>)
    requires SealOpens(n.env) && Attacked(n.env, Opening(n), before)
    requires var a := Aftermath(n.env, Opening(n), before);
             && Leaving(a.s) && ValidRnd(r) && Attacked(n.env, Moved(n.env, a, ServerSpeaks(r)), after)
             && Fresh(Aftermath(n.env, Moved(n.env, a, ServerSpeaks(r)), after))
    ensures var a := Aftermath(n.env, Opening(n), before);
            var b := Aftermath(n.env, Moved(n.env, a, ServerSpeaks(r)), after);
            Blank(b.s.key) && b.serverActs == a.serverActs && b.upRead == a.upRead && b.s.dir == a.s.dir && b.s.index == a.s.index
  {
    hide Local, Moved, Fresh, SealOpens, Attacked, Aftermath;
    var a := Aftermath(n.env, Opening(n), before);
    var m := ServerSpeaks(r);
    FreshBefore(n.env, Moved(n.env, a, m), after);
    KeysGrow(n.env, a, m);
    FreshPrefix(a, Moved(n.env, a, m));
    OpeningLocal(n);
    RunLocal(n.env, Opening(n), before);
    StepLocal(n.env, a, m);
    ReplyEmpties(n.env, a, r);
    RunLeavesEmptied(n.env, Moved(n.env, a, m), after);
  }
}
