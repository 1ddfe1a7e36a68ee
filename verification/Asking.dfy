/** A session that has run to its end, whose user then asks for one more command. */
module Asking {
  import opened Config
  import opened Codecs
  import opened Env
  import opened Store
  import opened Protocol
  import opened Lockstep
  import opened Rendezvous
  import opened Network
  import opened Guarantees
  import opened Reaching

  /** A session that has done all its commands, the last of which was not a logout. */
  ghost predicate Over(n: Session, net: Net) {
    Runnable(n) && Inv(n, net) && Complete(n, net) && net.c.pc.CIdle?
  }

  function Asked(net: Net, op: Op): Net {
    net.(c := net.c.(todo := [op]))
  }

  /** Nothing in flight when the session is complete. */
  lemma EmptyStreams(n: Session, net: Net)
    requires Runnable(n) && Inv(n, net) && Complete(n, net)
    ensures net.upFlight == [] && net.downFlight == []
  {
    hide Good;
    ReceivesSomething(net.c, net.s);
  }

  lemma AtTheEnd(n: Session, net: Net)
    requires Over(n, net)
    ensures Good(n, net.c, net.s) && net.upFlight == [] && net.downFlight == []
    ensures Level(n.user, net) && Ideal(n.env, n.user)
    ensures net.c.pc == CIdle && net.c.messages == 0 && net.s.pc == SMain && World(net.s.dir, net.c.local) == WorldAfter(n, |n.ops|)
    ensures net.c.done == Outcomes(n.env, n.world, n.ops, |n.ops|)
  {
    hide InOp, Outcomes, Atomic, ServerTaking, ClientTaking;
    EmptyStreams(n, net);
    LevelIsBoth(n, net);
  }

  lemma FilesAreListable(n: Session, net: Net)
    requires Over(n, net)
    ensures Listable(net.s.dir) && VisitsOnce(n.env)
  {
    hide Inv, Complete;
    AtTheEnd(n, net);
    ListableAt(n.env, n.world, n.ops, |n.ops|);
  }

  // ---- The longer session ----

  function Longer(n: Session, op: Op): Session {
    n.(ops := n.ops + [op])
  }

  lemma {:induction false} SameSoFar(n: Session, op: Op, k: nat)
    requires k <= |n.ops|
    ensures WorldAfter(Longer(n, op), k) == WorldAfter(n, k)
    ensures Outcomes(n.env, n.world, n.ops + [op], k) == Outcomes(n.env, n.world, n.ops, k)
    ensures MessagesBefore(n.env, n.world, n.ops + [op], k) == MessagesBefore(n.env, n.world, n.ops, k)
  {
    hide Atomic;
    if k > 0 {
      SameSoFar(n, op, k - 1);
      assert (n.ops + [op])[k - 1] == n.ops[k - 1];
    }
  }

  lemma LongerIsRunnable(n: Session, net: Net, op: Op)
    requires Over(n, net) && InReach(n.env, World(net.s.dir, net.c.local), op)
    ensures Runnable(Longer(n, op))
  {
    hide Ideal, Good, InReach, Atomic;
    AtTheEnd(n, net);
    LastIsNoLogout(n, net);
    var more := Longer(n, op);
    forall k | 0 <= k < |more.ops| ensures InReach(n.env, WorldAt(n.env, n.world, more.ops, k), more.ops[k]) {
      SameSoFar(n, op, k);
      if k < |n.ops| {
        assert InReach(n.env, WorldAt(n.env, n.world, n.ops, k), n.ops[k]);
      }
    }
  }

  lemma LastIsNoLogout(n: Session, net: Net)
    requires Over(n, net)
    ensures |n.ops| > 0 ==> !n.ops[|n.ops| - 1].Logout?
  {
    hide InOp, Outcomes, Atomic, Inv, Runnable, AuthMatched, History, Level, Ideal;
    AtTheEnd(n, net);
  }

  lemma AskedInv(n: Session, net: Net, op: Op)
    requires Over(n, net) && InReach(n.env, World(net.s.dir, net.c.local), op)
    ensures Runnable(Longer(n, op)) && Inv(Longer(n, op), Asked(net, op))
  {
    hide Runnable, InOp, Outcomes, WorldAt, MessagesBefore, Atomic;
    LongerIsRunnable(n, net, op);
    AtTheEnd(n, net);
    LastIsNoLogout(n, net);
    SameSoFar(n, op, |n.ops|);
    assert (n.ops + [op])[|n.ops|..] == [op];
    assert |n.ops| > 0 ==> (n.ops + [op])[|n.ops| - 1] == n.ops[|n.ops| - 1];
    assert Good(Longer(n, op), Asked(net, op).c, net.s);
  }

  /** Every run of a command in reach that cannot go on has given the atomic outcome and the atomic files. */
  lemma AskedEnds(n: Session, net: Net, op: Op, run: seq<Event>)
    requires Over(n, net) && InReach(n.env, World(net.s.dir, net.c.local), op)
    requires Runs(n.env, Asked(net, op), run) && forall e :: !Enabled(End(n.env, Asked(net, op), run), e)
    ensures var end := End(n.env, Asked(net, op), run);
            var result := Atomic(n.env, World(net.s.dir, net.c.local), op);
            World(end.s.dir, end.c.local) == result.world && end.c.done == net.c.done + [result.outcome]
  {
    hide Over, Inv, Runs, End, Enabled, Atomic, Runnable;
    AskedInv(n, net, op);
    var more := Longer(n, op);
    RunInv(more, Asked(net, op), run);
    var end := End(n.env, Asked(net, op), run);
    NoDeadlock(more, end);
    OutcomesAreAtomic(more, end);
    FilesAreAtomic(more, end);
    AtTheEnd(n, net);
    SameSoFar(n, op, |n.ops|);
  }

  // ---- The first step ----

  lemma Chosen(env: Env, user: Name, net: Net, op: Op, pc: ClientPc)
    requires Level(user, net) && net.c.pc == CIdle
    requires ClientBegin(Asked(net, op).c, net.s.dir) == Asked(net, op).c.(pc := pc)
    ensures Runs(env, Asked(net, op), [Begin])
    ensures End(env, Asked(net, op), [Begin]) == Asked(net, op).(c := Asked(net, op).c.(pc := pc))
    ensures Level(user, End(env, Asked(net, op), [Begin]))
  {
    hide ClientBegin, Runs, End;
    OneStep(env, Asked(net, op), Begin);
  }
}
