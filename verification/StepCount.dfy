/** Termination, exactly: whatever the interleaving, a session takes the same number of steps. */
module StepCount {
  import opened Config
  import opened Bytes
  import opened Codecs
  import opened Env
  import opened Store
  import opened Protocol
  import opened Lockstep
  import opened Rendezvous
  import opened Network
  import opened Guarantees
  import opened Asking

  /** Operation messages of the whole session, and those of them that advance the counters. */
  function OpMessages(n: Session): nat {
    MessagesBefore(n.env, n.world, n.ops, |n.ops|)
  }

  predicate EndsWithLogout(n: Session) {
    |n.ops| > 0 && n.ops[|n.ops| - 1].Logout?
  }

  function CountedMessages(n: Session): int {
    OpMessages(n) - if EndsWithLogout(n) then 1 else 0
  }

  /** All messages: one handshake of five at login and one each time 2^32 messages have been counted. */
  function AllMessages(n: Session): int {
    OpMessages(n) + 5 * (1 + CountedMessages(n) / U32_RANGE)
  }

  function AuthLeft(auth: ClientAuth): nat {
    match auth
    case CSend1 => 5
    case CWait2(_) => 4
    case CWait3(_) => 3
    case CSend4(_) => 2
    case CWait5 => 1
    case _ => 0
  }

  /** How many messages of the session, handshakes included, the client has sent or received. */
  function Position(c: ClientState): int {
    c.index + (if c.pc.CDone? then 1 else 0) + 5 * (1 + c.index / U32_RANGE) - AuthLeft(c.auth)
  }

  /** Commands the user has not started. */
  function BeginsLeft(c: ClientState): int {
    if c.pc.CIdle? || c.pc.CDone? then |c.todo| else |c.todo| - 1
  }

  /** The client as it will be when it has read what is in flight. */
  ghost function Front(n: Session, net: Net): ClientState
    requires Inv(n, net)
  {
    if net.downFlight == [] then net.c else ClientAfter(n.env, net.c, net.downFlight)
  }

  /** Every message still to be sent is a send and a receive; one in flight is a receive; a command is one step to begin. */
  ghost function StepsLeft(n: Session, net: Net): int
    requires Inv(n, net)
  {
    var c := Front(n, net);
    2 * (AllMessages(n) - Position(c)) + |net.upFlight| + |net.downFlight| + BeginsLeft(c)
  }

  ghost predicate Moves(c: ClientState, c': ClientState) {
    Position(c') == Position(c) + 1 && BeginsLeft(c') == BeginsLeft(c)
  }

  lemma IndexPosition(index: nat)
    ensures (index + 1) / U32_RANGE == index / U32_RANGE + if index % U32_RANGE == MAX_COUNTER_VALUE then 1 else 0
  {
  }

  lemma ResumeMoves(c: ClientState)
    requires !c.pc.CDone? && (!c.pc.CIdle? ==> c.todo != [])
    ensures var c' := ClientResume(c);
            BeginsLeft(c') == BeginsLeft(c) && !c'.pc.CDone? && c'.index == c.index && c'.auth == c.auth
  {
  }

  lemma IncrementMoves(c: ClientState, cp: ClientPc)
    requires c.auth == CNoAuth && c.counter == c.index % U32_RANGE && c.todo != []
    requires !c.pc.CIdle? && !c.pc.CDone? && !cp.CIdle? && !cp.CDone?
    ensures Moves(c, ClientIncrement(c, cp))
  {
    hide ClientContinue;
    IndexPosition(c.index);
    if c.counter != MAX_COUNTER_VALUE {
      ResumeMoves(c.(pc := cp, messages := c.messages + 1, index := c.index + 1, counter := c.counter + 1));
    }
  }

  lemma OpSendMoves(env: Env, c: ClientState, r: Rnd)
    requires ValidRnd(r) && ClientAction(c) == Sends
    requires c.auth == CNoAuth && c.counter == c.index % U32_RANGE && c.todo != []
    ensures Moves(c, ClientSend(env, c, r).state)
  {
    hide Wrap, ClientText, ClientContinue, Moves;
    IncrementMoves(c, ClientSent(c.pc));
  }

  lemma OpReceiveMoves(env: Env, c: ClientState, data: bytes)
    requires ClientAction(c) == Receives(|data|)
    requires c.auth == CNoAuth && c.counter == c.index % U32_RANGE && c.todo != []
    requires ClientReceive(env, c, data).index == c.index + 1
    ensures Moves(c, ClientReceive(env, c, data))
  {
    hide ClientContinue, Moves, Accept, Unwrap;
    var text := Accept(env, c.key, c.counter, data).value;
    IncrementMoves(c, ClientGot(c.pc, text));
    assert ClientReceive(env, c, data) == ClientIncrement(c, ClientGot(c.pc, text));
  }

  lemma LogoutMoves(env: Env, c: ClientState, data: bytes)
    requires ClientAction(c) == Receives(|data|)
    requires c.auth == CNoAuth && c.pc.CLoWait? && c.todo != []
    ensures Moves(c, ClientReceive(env, c, data))
  {
    hide Accept, Unwrap;
  }

  lemma AuthSendMoves(env: Env, c: ClientState, r: Rnd)
    requires ValidRnd(r) && (c.auth == CSend1 || c.auth.CSend4?)
    ensures Moves(c, ClientSend(env, c, r).state)
  {
  }

  lemma AuthReceiveMoves(env: Env, c: ClientState, data: bytes)
    requires ClientAction(c) == Receives(|data|)
    requires c.auth != CNoAuth && !ClientReceive(env, c, data).auth.CFailed?
    requires !c.pc.CDone? && (!c.pc.CIdle? ==> c.todo != [])
    ensures Moves(c, ClientReceive(env, c, data))
  {
    hide ClientContinue, SessionKey, AuthM3Key, AuthM3Cert, FromLE32, FromBE32, ClientPcAction, Accept, Unwrap, ClientResume;
    if c.auth.CWait5? {
      ResumeMoves(c.(auth := CNoAuth, counter := 0));
    }
  }

  lemma GoodTodo(n: Session, c: ClientState, s: ServerState)
    requires Good(n, c, s)
    ensures !c.pc.CIdle? && !c.pc.CDone? ==> c.todo != []
    ensures !c.auth.CFailed? && (c.auth != CNoAuth ==> !c.pc.CDone?)
    ensures |c.done| <= |n.ops| && |c.todo| == |n.ops| - |c.done|
  {
    hide InOp, Outcomes, MessagesBefore;
  }

  lemma ClientSendMoves(n: Session, c: ClientState, s: ServerState, r: Rnd)
    requires Runnable(n) && Good(n, c, s) && ValidRnd(r) && ClientAction(c) == Sends
    ensures Moves(c, ClientSend(n.env, c, r).state)
  {
    hide Good, Moves, ClientSend;
    GoodTodo(n, c, s);
    GoodIndices(n, c, s);
    if c.auth == CNoAuth {
      OpSendMoves(n.env, c, r);
    } else {
      AuthSendMoves(n.env, c, r);
    }
  }

  lemma ServerSendMoves(n: Session, c: ClientState, s: ServerState, r: Rnd)
    requires Runnable(n) && Good(n, c, s) && ValidRnd(r) && ServerAction(s) == Sends
    ensures var p := ServerSend(n.env, s, r).packet;
            ClientAction(c) == Receives(|p.frame|) && Moves(c, ClientReceive(n.env, c, p.frame))
  {
    hide Good, Moves, ServerSend, ClientReceive;
    var frame := ServerSend(n.env, s, r).packet.frame;
    GoodTodo(n, c, s);
    GoodIndices(n, c, s);
    ServerSendGood(n, c, s, r);
    var s' := ServerSend(n.env, s, r).state;
    var c' := ClientReceive(n.env, c, frame);
    GoodTodo(n, c', s');
    if c.auth != CNoAuth {
      AuthReceiveMoves(n.env, c, frame);
    } else if s.pc.SLoSend? {
      LogoutPlace(n, c, s);
      LogoutMoves(n.env, c, frame);
    } else {
      OpServerSends(n, c, s, r);
      GoodIndices(n, c', s');
      OpReceiveMoves(n.env, c, frame);
    }
  }

  lemma BeginMoves(c: ClientState, dir: Dir)
    requires ClientAction(c) == Begins
    ensures var c' := ClientBegin(c, dir); Position(c') == Position(c) && BeginsLeft(c') == BeginsLeft(c) - 1
  {
    hide ClientBegin;
    BeginShape(c, dir);
  }

  // ---- Each step uses up exactly one ----

  lemma CountClientSends(n: Session, net: Net, r: Rnd)
    requires Runnable(n) && Inv(n, net) && Enabled(net, ClientSends(r))
    requires Inv(n, Step(n.env, net, ClientSends(r)))
    ensures StepsLeft(n, Step(n.env, net, ClientSends(r))) == StepsLeft(n, net) - 1
  {
    hide Good, Position, BeginsLeft, AllMessages, ClientSend;
    ClientHasTurn(n, net);
    ClientSendMoves(n, net.c, ServerAfter(n.env, net.s, net.upFlight), r);
  }

  lemma CountServerSends(n: Session, net: Net, r: Rnd)
    requires Runnable(n) && Inv(n, net) && Enabled(net, ServerSends(r))
    requires Inv(n, Step(n.env, net, ServerSends(r)))
    ensures StepsLeft(n, Step(n.env, net, ServerSends(r))) == StepsLeft(n, net) - 1
  {
    hide Good, Position, BeginsLeft, AllMessages, ServerSend, ClientReceive;
    ServerHasTurn(n, net);
    if UpAhead(n, net) {
      LevelIsBoth(n, net);
    }
    var c := ClientAfter(n.env, net.c, net.downFlight);
    ServerSendMoves(n, c, net.s, r);
    ServerSendGood(n, c, net.s, r);
    ClientTakesMore(n.env, net.c, net.downFlight, ServerSend(n.env, net.s, r).packet);
  }

  lemma CountReceives(n: Session, net: Net, e: Event)
    requires Runnable(n) && Inv(n, net) && Enabled(net, e) && (e.ClientReceives? || e.ServerReceives?)
    requires Inv(n, Step(n.env, net, e))
    ensures StepsLeft(n, Step(n.env, net, e)) == StepsLeft(n, net) - 1
  {
    hide Good, Position, BeginsLeft, AllMessages, ClientReceive, ServerReceive;
    if e.ClientReceives? {
      StepClientReceives(n, net);
      var rest := net.downFlight[1..];
      assert Front(n, net) == ClientAfter(n.env, ClientReceive(n.env, net.c, net.downFlight[0].frame), rest);
    } else {
      StepServerReceives(n, net);
    }
  }

  lemma CountStep(n: Session, net: Net, e: Event)
    requires Runnable(n) && Inv(n, net) && Enabled(net, e)
    ensures Inv(n, Step(n.env, net, e))
    ensures StepsLeft(n, Step(n.env, net, e)) == StepsLeft(n, net) - 1
  {
    hide Good, Position, BeginsLeft, AllMessages, Runnable;
    StepInv(n, net, e);
    match e
    case Begin =>
      ClientHasTurn(n, net);
      BeginMoves(net.c, net.s.dir);
    case ClientSends(r) => CountClientSends(n, net, r);
    case ServerSends(r) => CountServerSends(n, net, r);
    case _ => CountReceives(n, net, e);
  }

  // ---- The count is never used up early, and it is used up exactly at the end ----

  lemma MessagesFit(env: Env, w: World, op: Op, v: View)
    requires InOp(env, w, op, v)
    ensures v.messages <= Messages(Atomic(env, w, op).outcome)
    ensures op.Logout? ==> v.messages <= 1
  {
    match op
    case List =>
    case Download(_) =>
    case Upload(_) =>
    case Rename(_, _) =>
    case Delete(_, _) =>
    case Logout =>
  }

  /** The messages of the commands before the `k`th and, when it is in progress, of the `k`th so far. */
  lemma IndexBound(n: Session, c: ClientState, s: ServerState)
    requires Runnable(n) && Good(n, c, s) && |c.done| < |n.ops|
    ensures c.index <= MessagesBefore(n.env, n.world, n.ops, |c.done| + 1)
    ensures n.ops[|c.done|].Logout? ==> c.index <= MessagesBefore(n.env, n.world, n.ops, |c.done|) + 1
  {
    hide InOp, Atomic, AuthMatched, InReach;
    if !c.pc.CIdle? {
      MessagesFit(n.env, WorldAfter(n, |c.done|), n.ops[|c.done|], ViewOf(c, s));
    }
  }

  lemma GoodHistory(n: Session, c: ClientState, s: ServerState)
    requires Good(n, c, s)
    ensures |c.done| <= |n.ops|
    ensures c.index + (if c.pc.CDone? then 1 else 0) == MessagesBefore(n.env, n.world, n.ops, |c.done|) + c.messages
    ensures c.pc.CIdle? || c.pc.CDone? ==> c.messages == 0
    ensures !c.pc.CIdle? && !c.pc.CDone? ==> |c.done| < |n.ops|
    ensures c.pc.CDone? ==> |c.done| == |n.ops| > 0 && n.ops[|n.ops| - 1].Logout?
    ensures c.pc.CIdle? && |c.done| > 0 ==> !n.ops[|c.done| - 1].Logout?
  {
    hide InOp, Atomic, AuthMatched, Outcomes;
  }

  lemma IndexFits(n: Session, c: ClientState, s: ServerState)
    requires Runnable(n) && Good(n, c, s)
    ensures c.index <= CountedMessages(n)
    ensures c.pc.CDone? ==> c.index == CountedMessages(n) == OpMessages(n) - 1
    ensures c.pc.CIdle? && |c.done| == |n.ops| ==> c.index == CountedMessages(n) == OpMessages(n)
  {
    hide Good, MessagesBefore, Atomic, InReach;
    GoodHistory(n, c, s);
    var k := |c.done|;
    LogoutCosts(n);
    if k < |n.ops| {
      IndexBound(n, c, s);
      var last := if EndsWithLogout(n) then |n.ops| - 1 else |n.ops|;
      if k < last {
        MessagesBeforeMonotone(n.env, n.world, n.ops, k + 1, last);
      }
    }
  }

  lemma LogoutCosts(n: Session)
    ensures EndsWithLogout(n) ==> OpMessages(n) == MessagesBefore(n.env, n.world, n.ops, |n.ops| - 1) + 2
  {
  }

  lemma PositionFits(n: Session, c: ClientState, s: ServerState)
    requires Runnable(n) && Good(n, c, s)
    ensures Position(c) <= AllMessages(n) && BeginsLeft(c) >= 0
    ensures c.auth == CNoAuth && (c.pc.CIdle? || c.pc.CDone?) && |c.done| == |n.ops| ==> Position(c) == AllMessages(n) && BeginsLeft(c) == 0
  {
    hide Good, OpMessages;
    IndexFits(n, c, s);
    GoodTodo(n, c, s);
    DivMonotone(c.index, CountedMessages(n));
  }

  lemma DivMonotone(x: nat, y: int)
    requires x <= y
    ensures x / U32_RANGE <= y / U32_RANGE
  {
  }

  lemma StepsLeftBounds(n: Session, net: Net)
    requires Runnable(n) && Inv(n, net)
    ensures StepsLeft(n, net) >= 0
    ensures Complete(n, net) ==> StepsLeft(n, net) == 0
  {
    hide Good, Position, BeginsLeft, AllMessages, Runnable;
    if net.downFlight == [] {
      if !UpAhead(n, net) {
        LevelIsBoth(n, net);
      }
      PositionFits(n, net.c, ServerAfter(n.env, net.s, net.upFlight));
    } else {
      PositionFits(n, ClientAfter(n.env, net.c, net.downFlight), net.s);
    }
    if Complete(n, net) {
      EmptyStreams(n, net);
    }
  }

  lemma {:induction false} CountRun(n: Session, net: Net, run: seq<Event>)
    requires Runnable(n) && Inv(n, net) && Runs(n.env, net, run)
    ensures Inv(n, End(n.env, net, run))
    ensures |run| + StepsLeft(n, End(n.env, net, run)) == StepsLeft(n, net)
    decreases |run|
  {
    hide Inv, Step, Runnable, StepsLeft;
    if run != [] {
      CountStep(n, net, run[0]);
      CountRun(n, Step(n.env, net, run[0]), run[1..]);
    }
  }

  /** Every run of a session can be at most this long, and a run that cannot go on has exactly this many steps,
      has finished every command with its atomic outcome and left both directories as the atomic commands do. */
  lemma EveryRunEndsAlike(n: Session, run: seq<Event>)
    requires Runnable(n) && Runs(n.env, Initial(n), run)
    ensures |run| <= 2 * AllMessages(n) + |n.ops|
    ensures var net := End(n.env, Initial(n), run);
            if exists e :: Enabled(net, e) then |run| < 2 * AllMessages(n) + |n.ops|
            else && |run| == 2 * AllMessages(n) + |n.ops|
                 && net.c.done == Outcomes(n.env, n.world, n.ops, |n.ops|)
                 && World(net.s.dir, net.c.local) == WorldAfter(n, |n.ops|)
  {
    hide Inv, Step, AllMessages, Enabled, Good;
    EveryRun(n, run);
    var net := End(n.env, Initial(n), run);
    InitialInv(n);
    InitialSteps(n);
    CountRun(n, Initial(n), run);
    StepsLeftBounds(n, net);
    NoDeadlock(n, net);
    if e :| Enabled(net, e) {
      CountStep(n, net, e);
      StepsLeftBounds(n, Step(n.env, net, e));
    } else {
      OutcomesAreAtomic(n, net);
      FilesAreAtomic(n, net);
    }
  }

  lemma InitialSteps(n: Session)
    requires Runnable(n) && Inv(n, Initial(n))
    ensures StepsLeft(n, Initial(n)) == 2 * AllMessages(n) + |n.ops|
  {
    hide Inv, AllMessages;
  }
}
