/** The history of a party: one turn for each step of its step function. */
module Turns {
  import opened Config

  datatype Turn<S> = Turn(before: S, read: bytes, sent: seq<bytes>, after: S)

  ghost predicate Linked<S>(history: seq<Turn<S>>, start: S, now: S) {
    if history == [] then start == now
    else
      var last := history[|history| - 1];
      Linked(history[..|history| - 1], start, last.before) && last.after == now
  }

  /** Everything read, and everything sent. */
  function ReadBy<S>(history: seq<Turn<S>>): bytes {
    if history == [] then [] else ReadBy(history[..|history| - 1]) + history[|history| - 1].read
  }

  function SentBy<S>(history: seq<Turn<S>>): seq<bytes> {
    if history == [] then [] else SentBy(history[..|history| - 1]) + history[|history| - 1].sent
  }

  /** A history has sent `outgoing` and read the first bytes of `given`, of which `incoming` are left. */
  ghost predicate Exchanged<S>(history: seq<Turn<S>>, given: bytes, incoming: bytes, outgoing: seq<bytes>) {
    && outgoing == SentBy(history)
    && ReadBy(history) <= given && (incoming != [] ==> given == ReadBy(history) + incoming)
  }

  lemma TurnTaken<S>(history: seq<Turn<S>>, start: S, t: Turn<S>, given: bytes, incoming: bytes, outgoing: seq<bytes>, rest: bytes)
    requires Linked(history, start, t.before) && Exchanged(history, given, incoming, outgoing) && incoming == t.read + rest
    ensures Linked(history + [t], start, t.after) && Exchanged(history + [t], given, rest, outgoing + t.sent)
  {
    var more := history + [t];
    assert more[..|more| - 1] == history;
    if incoming == [] {
      assert t.read == [] && ReadBy(more) == ReadBy(history);
    } else {
      assert given == (ReadBy(history) + t.read) + rest;
    }
  }

  /** The turns before a turn lead to the state it was taken in. */
  lemma {:induction false} LinkedBefore<S>(history: seq<Turn<S>>, start: S, now: S, k: nat)
    requires Linked(history, start, now) && k < |history|
    ensures Linked(history[..k], start, history[k].before)
    decreases |history|
  {
    var front, last := history[..|history| - 1], history[|history| - 1];
    if k < |history| - 1 {
      LinkedBefore(front, start, last.before, k);
      assert front[..k] == history[..k];
    }
  }

  lemma {:induction false} LinkedAfter<S>(t: Turn<S>, history: seq<Turn<S>>, now: S)
    requires Linked(history, t.after, now)
    ensures Linked([t] + history, t.before, now)
    decreases |history|
  {
    var more := [t] + history;
    if history == [] {
      assert more[..0] == [];
    } else {
      LinkedAfter(t, history[..|history| - 1], history[|history| - 1].before);
      assert more[..|more| - 1] == [t] + history[..|history| - 1];
    }
  }
}
