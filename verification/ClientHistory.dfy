/** The client's turns: what it reads and sends at each step, whoever its peer is. */
module ClientHistory {
  import opened Config
  import opened Env
  import opened Store
  import opened Protocol
  import opened Turns

  datatype Input = Start(dir: Dir) | Take(data: bytes) | Say(r: Rnd)

  predicate Ready(c: ClientState, x: Input) {
    match x
    case Start(_) => ClientAction(c) == Begins
    case Take(data) => ClientAction(c) == Receives(|data|)
    case Say(r) => ClientAction(c) == Sends && ValidRnd(r)
  }

  function ClientStep(env: Env, c: ClientState, x: Input): ClientState
    requires Ready(c, x)
  {
    match x
    case Start(dir) => ClientBegin(c, dir)
    case Take(data) => ClientReceive(env, c, data)
    case Say(r) => ClientSend(env, c, r).state
  }

  /** What the client sends at one step, and what it reads. */
  function FrameOf(env: Env, c: ClientState, x: Input): seq<bytes>
    requires Ready(c, x)
  {
    match x
    case Start(_) => []
    case Take(_) => []
    case Say(r) => [ClientSend(env, c, r).packet.frame]
  }

  function DataOf(x: Input): bytes {
    match x
    case Start(_) => []
    case Take(data) => data
    case Say(_) => []
  }

  function TurnOf(env: Env, c: ClientState, x: Input): Turn<ClientState>
    requires Ready(c, x)
  {
    Turn(c, DataOf(x), FrameOf(env, c, x), ClientStep(env, c, x))
  }

  ghost predicate IsTurn(env: Env, t: Turn<ClientState>) {
    exists x :: Ready(t.before, x) && t == TurnOf(env, t.before, x)
  }

  /** The turns lead from `start` to `machine`, have sent `outgoing` and have read what is missing from `incoming`. */
  ghost predicate Follows(env: Env, start: ClientState, history: seq<Turn<ClientState>>, machine: ClientState,
                          given: bytes, incoming: bytes, outgoing: seq<bytes>)
  {
    && Linked(history, start, machine) && Exchanged(history, given, incoming, outgoing)
    && forall i :: 0 <= i < |history| ==> IsTurn(env, history[i])
  }

  /** The stream has ended before the next message. */
  lemma Drained(env: Env, start: ClientState, history: seq<Turn<ClientState>>, machine: ClientState, given: bytes, incoming: bytes, outgoing: seq<bytes>)
    requires Follows(env, start, history, machine, given, incoming, outgoing)
    ensures Follows(env, start, history, machine, given, [], outgoing)
  {
  }

  lemma Proceeds(env: Env, start: ClientState, history: seq<Turn<ClientState>>, machine: ClientState,
                 given: bytes, incoming: bytes, outgoing: seq<bytes>, x: Input, rest: bytes)
    requires Follows(env, start, history, machine, given, incoming, outgoing)
    requires Ready(machine, x) && incoming == DataOf(x) + rest
    ensures Follows(env, start, history + [TurnOf(env, machine, x)], ClientStep(env, machine, x),
                    given, rest, outgoing + FrameOf(env, machine, x))
  {
    hide Linked, Exchanged, ClientStep, FrameOf, Ready;
    var t := TurnOf(env, machine, x);
    TurnTaken(history, start, t, given, incoming, outgoing, rest);
    assert IsTurn(env, t);
  }
}
