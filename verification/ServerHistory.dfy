/** The server's turns: what it reads and sends at each step, whoever its peer is. */
module ServerHistory {
  import opened Config
  import opened Env
  import opened Protocol
  import opened Conservation
  import opened Turns

  /** What the server sends at one step. */
  function FrameOf(env: Env, s: ServerState, x: Input): seq<bytes>
    requires Ready(s, x)
  {
    match x
    case Hear(_) => []
    case Speak(r) =>
      var frame := ServerSend(env, s, r).packet.frame;
      if frame == [] then [] else [frame]
  }

  function DataOf(x: Input): bytes {
    match x case Hear(data) => data case Speak(_) => []
  }

  function TurnOf(env: Env, s: ServerState, x: Input): Turn<ServerState>
    requires Ready(s, x)
  {
    Turn(s, DataOf(x), FrameOf(env, s, x), ServerStep(env, s, x))
  }

  ghost predicate IsTurn(env: Env, t: Turn<ServerState>) {
    exists x :: Ready(t.before, x) && t == TurnOf(env, t.before, x)
  }

  /** The turns lead from `start` to `machine`, have sent `outgoing` and have read what is missing from `incoming`. */
  ghost predicate Follows(env: Env, start: ServerState, history: seq<Turn<ServerState>>, machine: ServerState,
                          given: bytes, incoming: bytes, outgoing: seq<bytes>)
  {
    && Linked(history, start, machine) && Exchanged(history, given, incoming, outgoing)
    && forall i :: 0 <= i < |history| ==> IsTurn(env, history[i])
  }

  /** The stream has ended before the next message. */
  lemma Drained(env: Env, start: ServerState, history: seq<Turn<ServerState>>, machine: ServerState, given: bytes, incoming: bytes, outgoing: seq<bytes>)
    requires Follows(env, start, history, machine, given, incoming, outgoing)
    ensures Follows(env, start, history, machine, given, [], outgoing)
  {
  }

  lemma Proceeds(env: Env, start: ServerState, history: seq<Turn<ServerState>>, machine: ServerState,
                 given: bytes, incoming: bytes, outgoing: seq<bytes>, x: Input, rest: bytes)
    requires Follows(env, start, history, machine, given, incoming, outgoing)
    requires Ready(machine, x) && incoming == DataOf(x) + rest
    ensures Follows(env, start, history + [TurnOf(env, machine, x)], ServerStep(env, machine, x),
                    given, rest, outgoing + FrameOf(env, machine, x))
  {
    hide Linked, Exchanged, ServerStep, FrameOf, Ready;
    var t := TurnOf(env, machine, x);
    TurnTaken(history, start, t, given, incoming, outgoing, rest);
    assert IsTurn(env, t);
  }

  /** The turns of a server object are a run of the step function, to which the lemmas about runs apply. */
  lemma {:induction false} HistoryIsARun(env: Env, start: ServerState, history: seq<Turn<ServerState>>, machine: ServerState)
    returns (run: seq<Input>)
    requires Linked(history, start, machine) && forall i :: 0 <= i < |history| ==> IsTurn(env, history[i])
    ensures Heard(env, start, run) && Finally(env, start, run) == machine
    decreases |history|
  {
    hide ServerStep, FrameOf, Ready;
    if history == [] {
      run := [];
    } else {
      var front, last := history[..|history| - 1], history[|history| - 1];
      assert forall i :: 0 <= i < |front| ==> front[i] == history[i];
      run := HistoryIsARun(env, start, front, last.before);
      assert IsTurn(env, last);
      var x :| Ready(last.before, x) && last == TurnOf(env, last.before, x);
      HeardMore(env, start, run, x);
      run := run + [x];
    }
  }

  /** And every run of the step function is a history. */
  lemma {:induction false} RunIsAHistory(env: Env, start: ServerState, run: seq<Input>) returns (history: seq<Turn<ServerState>>)
    requires Heard(env, start, run)
    ensures Linked(history, start, Finally(env, start, run)) && forall i :: 0 <= i < |history| ==> IsTurn(env, history[i])
    decreases |run|
  {
    hide ServerStep, FrameOf, Ready;
    if run == [] {
      history := [];
    } else {
      var t := TurnOf(env, start, run[0]);
      assert IsTurn(env, t);
      var rest := RunIsAHistory(env, t.after, run[1..]);
      LinkedAfter(t, rest, Finally(env, start, run));
      history := [t] + rest;
    }
  }
}
