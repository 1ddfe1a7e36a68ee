/** Building runs: one message delivered, a whole handshake, and an operation message with whatever its counting takes. */
module Reaching {
  import opened Config
  import opened Bytes
  import opened Codecs
  import opened Env
  import opened Store
  import opened Protocol
  import opened Lockstep
  import opened Rendezvous
  import opened Network

  lemma {:induction false} RunsOn(env: Env, net: Net, run: seq<Event>, more: seq<Event>)
    requires Runs(env, net, run) && Runs(env, End(env, net, run), more)
    ensures Runs(env, net, run + more) && End(env, net, run + more) == End(env, End(env, net, run), more)
    decreases |run|
  {
    hide Step, Enabled;
    if run == [] {
      assert run + more == more;
    } else {
      assert (run + more)[1..] == run[1..] + more;
      RunsOn(env, Step(env, net, run[0]), run[1..], more);
    }
  }

  lemma NoSteps(env: Env, net: Net)
    ensures Runs(env, net, []) && End(env, net, []) == net
  {
  }

  lemma OneStep(env: Env, net: Net, e: Event)
    requires Enabled(net, e)
    ensures Runs(env, net, [e]) && End(env, net, [e]) == Step(env, net, e)
  {
    hide Step, Enabled;
    assert [e][1..] == [];
    assert Runs(env, Step(env, net, e), []) && End(env, Step(env, net, e), []) == Step(env, net, e);
  }

  lemma TwoSteps(env: Env, net: Net, e: Event, e': Event)
    requires Enabled(net, e) && Enabled(Step(env, net, e), e')
    ensures Runs(env, net, [e, e']) && End(env, net, [e, e']) == Step(env, Step(env, net, e), e')
  {
    hide Step, Enabled, Runs, End;
    OneStep(env, net, e);
    OneStep(env, Step(env, net, e), e');
    RunsOn(env, net, [e], [e']);
    assert [e] + [e'] == [e, e'];
  }

  /** Nothing is on its way. */
  predicate Quiet(net: Net) {
    net.up == [] && net.down == []
  }

  /** The client sends one message and the server reads it. */
  lemma Up(env: Env, net: Net, r: Rnd)
    requires Quiet(net) && ValidRnd(r) && ClientAction(net.c) == Sends
    requires ServerAction(net.s) == Receives(|ClientSend(env, net.c, r).packet.frame|)
    ensures var run := [ClientSends(r), ServerReceives];
            && Runs(env, net, run)
            && var end := End(env, net, run);
               && Quiet(end) && end.c == ClientSend(env, net.c, r).state
               && end.s == ServerReceive(env, net.s, ClientSend(env, net.c, r).packet.frame)
  {
    hide ClientSend, ServerReceive;
    var sent := Step(env, net, ClientSends(r));
    assert sent.up == ClientSend(env, net.c, r).packet.frame;
    assert sent.up[..|sent.up|] == sent.up && sent.up[|sent.up|..] == [];
    TwoSteps(env, net, ClientSends(r), ServerReceives);
  }

  lemma Down(env: Env, net: Net, r: Rnd)
    requires Quiet(net) && ValidRnd(r) && ServerAction(net.s) == Sends
    requires ClientAction(net.c) == Receives(|ServerSend(env, net.s, r).packet.frame|)
    ensures var run := [ServerSends(r), ClientReceives];
            && Runs(env, net, run)
            && var end := End(env, net, run);
               && Quiet(end) && end.s == ServerSend(env, net.s, r).state
               && end.c == ClientReceive(env, net.c, ServerSend(env, net.s, r).packet.frame)
  {
    hide ServerSend, ClientReceive;
    var sent := Step(env, net, ServerSends(r));
    assert sent.down == ServerSend(env, net.s, r).packet.frame;
    assert sent.down[..|sent.down|] == sent.down && sent.down[|sent.down|..] == [];
    TwoSteps(env, net, ServerSends(r), ClientReceives);
  }

  // ---- A handshake ----

  /** M1 and M2. */
  lemma HandshakeOpens(env: Env, user: Name, net: Net, r: Rnd) returns (run: seq<Event>)
    requires Ideal(env, user) && Quiet(net) && ValidRnd(r)
    requires net.c.auth == CSend1 && net.s.auth == SWait1 && net.c.user == user
    ensures Runs(env, net, run)
    ensures var end := End(env, net, run);
            && Quiet(end) && end.c == net.c.(auth := CWait3(r.secret))
            && end.s == net.s.(user := user, auth := SSend3(PublicKey(env, r.secret)))
  {
    hide ClientSend, ServerSend, ClientReceive, ServerReceive, Runs, End, Ideal, PublicKey;
    SealingOpens(env, user);
    M1Delivered(env, user, net.c, net.s, r);
    Up(env, net, r);
    run := [ClientSends(r), ServerReceives];
    var mid := End(env, net, run);
    M2Delivered(env, mid.c, mid.s, r, PublicKey(env, r.secret));
    Down(env, mid, r);
    RunsOn(env, net, run, [ServerSends(r), ClientReceives]);
    run := run + [ServerSends(r), ClientReceives];
  }

  lemma SealingOpens(env: Env, user: Name)
    requires Ideal(env, user)
    ensures SealOpens(env)
  {
  }

  /** M3, M4 and M5. */
  lemma HandshakeCloses(env: Env, user: Name, net: Net, r: Rnd) returns (run: seq<Event>, key: bytes)
    requires Ideal(env, user) && Quiet(net) && ValidRnd(r) && net.s.user == user
    requires net.c.auth.CWait3? && net.s.auth == SSend3(PublicKey(env, net.c.auth.secret))
    ensures Runs(env, net, run)
    ensures var end := End(env, net, run);
            && Quiet(end) && end.c == ClientResume(net.c.(auth := CNoAuth, counter := 0, key := key))
            && end.s == ServerResume(env, net.s.(auth := SNoAuth, counter := 0, key := key))
    ensures key == SharedKey(env, net.c.auth.secret, r.secret)
  {
    hide ClientSend, ServerSend, ClientReceive, ServerReceive, Runs, End, Ideal, PublicKey, ClientContinue, ServerContinue;
    SealingOpens(env, user);
    M3Delivered(env, user, net.c, net.s, r);
    Down(env, net, r);
    run := [ServerSends(r), ClientReceives];
    var a := End(env, net, run);
    key := a.s.key;
    M4Delivered(env, user, a.c, a.s, r, a.s.auth.transcript);
    Up(env, a, r);
    RunsOn(env, net, run, [ClientSends(r), ServerReceives]);
    run := run + [ClientSends(r), ServerReceives];
    var b := End(env, net, run);
    M5Delivered(env, b.c, b.s, r);
    Down(env, b, r);
    RunsOn(env, net, run, [ServerSends(r), ClientReceives]);
    run := run + [ServerSends(r), ClientReceives];
  }

  /** A handshake in which the client chooses `r` and the server `q` runs to its end and both parties resume, with the
      key of the two secrets. */
  lemma Handshake(env: Env, user: Name, net: Net, r: Rnd, q: Rnd) returns (run: seq<Event>, key: bytes)
    requires Ideal(env, user) && Quiet(net) && ValidRnd(r) && ValidRnd(q)
    requires net.c.auth == CSend1 && net.s.auth == SWait1 && net.c.user == user
    ensures Runs(env, net, run)
    ensures var end := End(env, net, run);
            && Quiet(end) && end.c == ClientResume(net.c.(auth := CNoAuth, counter := 0, key := key))
            && end.s == ServerResume(env, net.s.(auth := SNoAuth, counter := 0, key := key, user := user))
    ensures key == SharedKey(env, r.secret, q.secret)
  {
    hide Runs, End, Ideal, ClientContinue, ServerContinue, PublicKey;
    SealingOpens(env, user);
    run := HandshakeOpens(env, user, net, r);
    var mid := End(env, net, run);
    var more: seq<Event>;
    more, key := HandshakeCloses(env, user, mid, q);
    RunsOn(env, net, run, more);
    run := run + more;
  }

  // ---- An operation message, counted on both sides ----

  /** Between messages: nothing is on its way, no handshake is running, and the parties agree on counter and key. */
  ghost predicate Level(user: Name, net: Net) {
    && Quiet(net) && net.c.auth == CNoAuth && net.s.auth == SNoAuth && net.c.user == net.s.user == user
    && net.c.counter == net.s.counter && net.c.index == net.s.index && net.c.key == net.s.key
  }

  function NextCounter(counter: u32): u32 {
    if counter == MAX_COUNTER_VALUE then 0 else counter + 1
  }

  /** Past one more message. */
  function ClientPast(c: ClientState, pc: ClientPc, key: bytes): ClientState {
    ClientResume(c.(pc := pc, messages := c.messages + 1, index := c.index + 1, counter := NextCounter(c.counter), key := key))
  }

  function ServerPast(env: Env, s: ServerState, pc: ServerPc, key: bytes): ServerState {
    ServerResume(env, s.(pc := pc, index := s.index + 1, counter := NextCounter(s.counter), key := key))
  }

  lemma PastIsIncrement(env: Env, c: ClientState, s: ServerState, cp: ClientPc, sp: ServerPc)
    requires c.auth == CNoAuth && s.auth == SNoAuth && c.counter == s.counter != MAX_COUNTER_VALUE
    ensures ClientIncrement(c, cp) == ClientPast(c, cp, c.key) && ServerIncrement(env, s, sp) == ServerPast(env, s, sp, s.key)
  {
    hide ClientResume, ServerResume;
  }

  lemma IncrementAuthenticates(env: Env, c: ClientState, s: ServerState, cp: ClientPc, sp: ServerPc)
    requires c.counter == s.counter == MAX_COUNTER_VALUE && c.user == s.user
    ensures ClientIncrement(c, cp).auth == CSend1 && ServerIncrement(env, s, sp).auth == SWait1 && ClientIncrement(c, cp).user == c.user
  {
    hide ClientResume, ServerResume;
  }

  lemma PastIsHandshake(env: Env, c: ClientState, s: ServerState, cp: ClientPc, sp: ServerPc, key: bytes)
    requires c.auth == CNoAuth && s.auth == SNoAuth && c.counter == s.counter == MAX_COUNTER_VALUE
    ensures ClientResume(ClientIncrement(c, cp).(auth := CNoAuth, counter := 0, key := key)) == ClientPast(c, cp, key)
    ensures ServerResume(env, ServerIncrement(env, s, sp).(auth := SNoAuth, counter := 0, key := key, user := s.user)) == ServerPast(env, s, sp, key)
  {
    hide ClientResume, ServerResume;
  }

  /** Both sides have just counted the message: they go on, through a handshake if the counter was exhausted. */
  lemma GoOn(env: Env, user: Name, net: Net, c: ClientState, s: ServerState, cp: ClientPc, sp: ServerPc)
    returns (run: seq<Event>, key: bytes)
    requires Ideal(env, user) && Quiet(net) && c.auth == CNoAuth && s.auth == SNoAuth && c.user == s.user == user
    requires c.counter == s.counter && c.key == s.key
    requires net.c == ClientIncrement(c, cp) && net.s == ServerIncrement(env, s, sp)
    ensures Runs(env, net, run)
    ensures var end := End(env, net, run);
            Quiet(end) && end.c == ClientPast(c, cp, key) && end.s == ServerPast(env, s, sp, key)
  {
    hide Ideal, Runs, End, ClientResume, ServerResume, ClientIncrement, ServerIncrement, ClientPast, ServerPast;
    SealingOpens(env, user);
    if c.counter == MAX_COUNTER_VALUE {
      var r := Rnd(Zeros(IV_LEN), Zeros(MAX_PACKET_SIZE - 1), 0);
      IncrementAuthenticates(env, c, s, cp, sp);
      run, key := Handshake(env, user, net, r, r);
      PastIsHandshake(env, c, s, cp, sp, key);
    } else {
      NoSteps(env, net);
      PastIsIncrement(env, c, s, cp, sp);
      run, key := [], c.key;
    }
  }

  lemma StaysLevel(env: Env, user: Name, net: Net, c: ClientState, s: ServerState, cp: ClientPc, sp: ServerPc, key: bytes)
    requires Quiet(net) && c.auth == CNoAuth && s.auth == SNoAuth && c.user == s.user == user && c.counter == s.counter && c.index == s.index
    requires net.c == ClientPast(c, cp, key) && net.s == ServerPast(env, s, sp, key)
    ensures Level(user, net)
  {
    hide ClientContinue, ServerContinue, Apply;
  }

  /** The client's next operation message reaches the server and both go on. */
  lemma UpMessage(env: Env, user: Name, net: Net, r: Rnd, next: ServerPc) returns (run: seq<Event>, key: bytes)
    requires Ideal(env, user) && Level(user, net) && ValidRnd(r) && !net.c.pc.CIdle?
    requires ClientPcAction(net.c.pc, true) == Sends
    requires var text := ClientText(net.c.pc, r);
             |text| >= 1 && ServerPcAction(net.s.pc) == Receives(ENVELOPE_LEN + |text|) && ServerGot(net.s.pc, text) == Some(next)
    ensures Runs(env, net, run) && Level(user, End(env, net, run))
    ensures End(env, net, run).c == ClientPast(net.c, ClientSent(net.c.pc), key)
    ensures End(env, net, run).s == ServerPast(env, net.s, next, key)
  {
    hide Ideal, Runs, End, Wrap, Accept, ServerReceive, ClientSend, ClientText, ServerGot, ClientIncrement, ServerIncrement, ClientPast, ServerPast, CounterOf, Unwrap;
    SealingOpens(env, user);
    var text := ClientText(net.c.pc, r);
    var frame := Wrap(env, net.c.key, r.iv, net.c.counter, text);
    WrapAccepted(env, net.c.key, r.iv, net.c.counter, text);
    ClientSendIs(env, net.c, r);
    ServerTakes(env, net.s, frame, text);
    Up(env, net, r);
    var first := [ClientSends(r), ServerReceives];
    run, key := GoOn(env, user, End(env, net, first), net.c, net.s, ClientSent(net.c.pc), next);
    RunsOn(env, net, first, run);
    run := first + run;
    StaysLevel(env, user, End(env, net, run), net.c, net.s, ClientSent(net.c.pc), next, key);
  }

  /** The server's next operation message reaches the client and both go on. */
  lemma DownMessage(env: Env, user: Name, net: Net, r: Rnd) returns (run: seq<Event>, key: bytes)
    requires Ideal(env, user) && Level(user, net) && ValidRnd(r) && !net.s.pc.SLoSend? && !net.c.pc.CLoWait? && !net.c.pc.CIdle?
    requires ServerPcAction(net.s.pc) == Sends
    requires var text := ServerText(net.s.pc, r);
             1 <= |text| <= MAX_INT - ENVELOPE_LEN && ClientPcAction(net.c.pc, true) == Receives(ENVELOPE_LEN + |text|)
    ensures Runs(env, net, run) && Level(user, End(env, net, run))
    ensures End(env, net, run).c == ClientPast(net.c, ClientGot(net.c.pc, ServerText(net.s.pc, r)), key)
    ensures End(env, net, run).s == ServerPast(env, net.s, ServerSent(net.s.pc), key)
  {
    hide Ideal, Runs, End, Wrap, Accept, ServerSend, ClientReceive, ServerText, ClientGot, ClientIncrement, ServerIncrement, ClientPast, ServerPast, CounterOf, Unwrap;
    SealingOpens(env, user);
    var text := ServerText(net.s.pc, r);
    var frame := Wrap(env, net.s.key, r.iv, net.s.counter, text);
    WrapAccepted(env, net.s.key, r.iv, net.s.counter, text);
    ServerSendIs(env, net.s, r);
    ClientTakes(env, net.c, frame, text);
    Down(env, net, r);
    var first := [ServerSends(r), ClientReceives];
    run, key := GoOn(env, user, End(env, net, first), net.c, net.s, ClientGot(net.c.pc, text), ServerSent(net.s.pc));
    RunsOn(env, net, first, run);
    run := first + run;
    StaysLevel(env, user, End(env, net, run), net.c, net.s, ClientGot(net.c.pc, text), ServerSent(net.s.pc), key);
  }
}
