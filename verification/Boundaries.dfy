/** Where lists, deletes and transfers stop behaving atomically, exactly. */
module Boundaries {
  import opened Config
  import opened Bytes
  import opened Chunks
  import opened Codecs
  import opened Listing
  import opened Env
  import opened Store
  import opened Protocol
  import opened Lockstep
  import opened Rendezvous
  import opened Network
  import opened Guarantees
  import opened Reaching
  import opened Asking

  // ---- The list text ----

  /** The list is announced with its length and followed by a third message that carries it exactly when that message's
      length fits in an int. */
  lemma ListSentIff(files: bytes)
    requires files != []
    ensures ListSize(files) == |files| + 1 && ThirdSent(files) <==> |files| + 2 <= MAX_INT
    ensures ThirdSent(files) && ListSize(files) == |files| + 1 ==> (files + [0])[..ListSize(files)] == files + [0]
  {
  }

  /** The announced size is the true one as long as it fits in 32 bits; beyond, it wraps around, to 0 for two lengths. */
  lemma ListAnnouncedIff(files: bytes)
    requires files != []
    ensures ListSize(files) == |files| + 1 <==> |files| + 1 < U32_RANGE
    ensures ListSize(files) == 0 <==> |files| % U32_RANGE == 0 || |files| % U32_RANGE == U32_RANGE - 1
  {
  }

  /** A third message that is sent is received exactly when its sealed length, too, fits in an int. */
  lemma ListReceivedIff(env: Env, c: ClientState, files: bytes, frame: bytes)
    requires files != [] && |files| + 2 <= MAX_INT && c.auth == CNoAuth && c.pc == CListWait3(ListSize(files))
    requires |frame| == ENVELOPE_LEN + |EncPayload(LIST_RESPONSE, files + [0])|
    requires Accept(env, c.key, c.counter, frame) == Some(EncPayload(LIST_RESPONSE, files + [0]))
    ensures ClientAction(c) == Receives(|frame|)
    ensures ClientReceive(env, c, frame).index == c.index + 1 <==> ENVELOPE_LEN + |files| + 2 <= MAX_INT
    ensures ENVELOPE_LEN + |files| + 2 > MAX_INT ==>
              ClientReceive(env, c, frame) == Return(c.(rejected := true), RECEIVE_FAILURE)
  {
    hide Accept, ClientGot, ClientIncrement;
    ListSentIff(files);
    ClientIncrementIndex(c, ClientGot(c.pc, EncPayload(LIST_RESPONSE, files + [0])));
  }

  /** A list request is answered unless the only file is called "error". */
  lemma ListAnsweredIff(env: Env, s: ServerState)
    requires VisitsOnce(env) && Listable(s.dir) && s.auth == SNoAuth && s.pc == SListGot
    ensures ServerAction(ServerResume(env, s)) == Sends <==> s.dir.Keys != {ERROR_TEXT}
    ensures s.dir.Keys == {ERROR_TEXT} ==> ServerResume(env, s).pc == SMain
  {
    SentinelIffLoneError(env, s.dir);
  }

  function FilesText(env: Env, dir: Dir): bytes {
    Join(env.Entries(dir.Keys))
  }

  ghost predicate Halted(net: Net) {
    forall e :: !Enabled(net, e)
  }

  /** Nothing can happen, and the list asked for has not come. */
  ghost predicate Deadlocked(net: Net, stuck: Net) {
    Halted(stuck) && stuck.c.todo == [List] && stuck.c.done == net.c.done
  }

  /** The user asks for the list and the server has counted the request. */
  lemma ListAsked(n: Session, net: Net) returns (run: seq<Event>, ck: bytes)
    requires Over(n, net)
    ensures Runs(n.env, Asked(net, List), run)
    ensures var end := End(n.env, Asked(net, List), run);
            && Level(n.user, end) && end.c.pc == CListWait2 && end.c.messages == 1 && end.c.todo == [List]
            && end.c.done == net.c.done && end.c.local == net.c.local && end.s.dir == net.s.dir
            && end.s.pc == if FilesText(n.env, net.s.dir) == ERROR_TEXT then SMain else SListSend2(FilesText(n.env, net.s.dir))
  {
    hide Over, Runs, End, Ideal, Join;
    AtTheEnd(n, net);
    Chosen(n.env, n.user, net, List, CListAsk);
    var asked := End(n.env, Asked(net, List), [Begin]);
    var r := SomeRnd();
    ListRequestText(r);
    run, ck := UpMessage(n.env, n.user, asked, r, SListGot);
    RunsOn(n.env, Asked(net, List), [Begin], run);
    run := [Begin] + run;
    ListPast(n.env, asked.c, asked.s, ck);
  }

  lemma ListRequestText(r: Rnd)
    requires ValidRnd(r)
    ensures var text := ClientText(CListAsk, r);
            |text| == MAX_PACKET_SIZE && ServerGot(SMain, text) == Some(SListGot) && ClientPcAction(CListAsk, true) == Sends
            && ServerPcAction(SMain) == Receives(ENVELOPE_LEN + |text|) && ClientSent(CListAsk) == CListWait2
  {
  }

  lemma ListPast(env: Env, c: ClientState, s: ServerState, key: bytes)
    ensures ClientPast(c, CListWait2, key) == c.(pc := CListWait2, messages := c.messages + 1, index := c.index + 1,
                                                 counter := NextCounter(c.counter), key := key)
    ensures var files := FilesText(env, s.dir);
            ServerPast(env, s, SListGot, key) == s.(pc := if files == ERROR_TEXT then SMain else SListSend2(files),
                                                    index := s.index + 1, counter := NextCounter(s.counter), key := key)
  {
    hide Join;
  }

  lemma Stuck(net: Net)
    requires Quiet(net) && net.c.auth == CNoAuth && (net.c.pc.CListWait2? || net.c.pc.CListWait3?)
    requires net.s.auth == SNoAuth && net.s.pc == SMain
    ensures forall e :: !Enabled(net, e)
  {
  }

  /** With the lone file "error" the request is a deadlock. */
  lemma LoneErrorDeadlock(n: Session, net: Net) returns (run: seq<Event>)
    requires Over(n, net) && net.s.dir.Keys == {ERROR_TEXT}
    ensures Runs(n.env, Asked(net, List), run)
    ensures var stuck := End(n.env, Asked(net, List), run);
            Deadlocked(net, stuck) && stuck.c.pc == CListWait2
  {
    hide Over, Runs, End, Enabled, Join;
    FilesAreListable(n, net);
    SentinelIffLoneError(n.env, net.s.dir);
    var key: bytes;
    run, key := ListAsked(n, net);
    Stuck(End(n.env, Asked(net, List), run));
  }

  /** The announcement, from the point where the request has been counted. */
  lemma AnnouncementArrives(env: Env, user: Name, net: Net, files: bytes) returns (run: seq<Event>)
    requires Ideal(env, user) && Level(user, net) && net.s.pc == SListSend2(files)
    requires net.c.pc == CListWait2 && net.c.todo == [List] && net.c.messages == 1
    ensures Runs(env, net, run) && Announced(net, End(env, net, run), files) && Level(user, End(env, net, run))
  {
    hide Runs, End, Ideal, ThirdSent, ListSize, ClientPast, ServerPast;
    var r := SomeRnd();
    AnnouncementText(files, r);
    var key: bytes;
    run, key := DownMessage(env, user, net, r);
    AnnouncementPast(env, net.c, net.s, files, key);
  }

  /** The client knows the size of the list, and the third message is on its way if the server can send one. */
  predicate Announced(net: Net, end: Net, files: bytes) {
    && end.s.dir == net.s.dir && end.c.local == net.c.local
    && end.s.pc == (if ThirdSent(files) then SListSend3(files) else SMain)
    && if ListSize(files) == 0
       then end.c.pc == CIdle && end.c.done == net.c.done + [Finished(SUCCESS, [], 2)]
       else end.c.pc == CListWait3(ListSize(files)) && end.c.done == net.c.done && end.c.todo == [List] && end.c.messages == 2
  }

  /** The announcement reaches the client. */
  lemma ListAnnounced(n: Session, net: Net) returns (run: seq<Event>)
    requires Over(n, net) && net.s.dir.Keys != {ERROR_TEXT}
    ensures Runs(n.env, Asked(net, List), run)
    ensures Announced(net, End(n.env, Asked(net, List), run), FilesText(n.env, net.s.dir))
    ensures Level(n.user, End(n.env, Asked(net, List), run))
  {
    hide Over, Runs, End, Ideal, Join, Level, Announced;
    FilesAreListable(n, net);
    SentinelIffLoneError(n.env, net.s.dir);
    AtTheEnd(n, net);
    var key: bytes;
    run, key := ListAsked(n, net);
    var asked := End(n.env, Asked(net, List), run);
    var more := AnnouncementArrives(n.env, n.user, asked, FilesText(n.env, net.s.dir));
    RunsOn(n.env, Asked(net, List), run, more);
    run := run + more;
    AnnouncedThen(net, asked, End(n.env, asked, more), FilesText(n.env, net.s.dir));
  }

  lemma AnnouncedThen(net: Net, asked: Net, end: Net, files: bytes)
    requires Announced(asked, end, files) && asked.s.dir == net.s.dir && asked.c.local == net.c.local && asked.c.done == net.c.done
    ensures Announced(net, end, files)
  {
  }

  lemma AnnouncementText(files: bytes, r: Rnd)
    requires ValidRnd(r)
    ensures var text := ServerText(SListSend2(files), r);
            |text| == 5 && ServerPcAction(SListSend2(files)) == Sends && ClientPcAction(CListWait2, true) == Receives(ENVELOPE_LEN + |text|)
            && ClientGot(CListWait2, text) == CListGot2(LIST_ACK, ListSize(files))
            && ServerSent(SListSend2(files)) == if ThirdSent(files) then SListSend3(files) else SMain
  {
    hide LE32, FromLE32, ListSize, ThirdSent;
    SizedRoundTrip(LIST_ACK, ListSize(files));
  }

  lemma AnnouncementPast(env: Env, c: ClientState, s: ServerState, files: bytes, key: bytes)
    requires c.todo != []
    ensures var size := ListSize(files);
            var d := c.(messages := c.messages + 1, index := c.index + 1, counter := NextCounter(c.counter), key := key);
            ClientPast(c, CListGot2(LIST_ACK, size), key)
            == if size == 0 then Finish(d, Finished(SUCCESS, [], d.messages)) else d.(pc := CListWait3(size))
    ensures var sp := if ThirdSent(files) then SListSend3(files) else SMain;
            ServerPast(env, s, sp, key) == s.(pc := sp, index := s.index + 1, counter := NextCounter(s.counter), key := key)
  {
    hide ListSize, ThirdSent;
  }

  /** A list whose third message would not fit in an int, but whose announced size is right, is a deadlock. */
  lemma LongListDeadlock(n: Session, net: Net) returns (run: seq<Event>)
    requires Over(n, net)
    requires var files := FilesText(n.env, net.s.dir); |files| + 2 > MAX_INT && |files| + 1 < U32_RANGE
    ensures Runs(n.env, Asked(net, List), run)
    ensures var stuck := End(n.env, Asked(net, List), run);
            Deadlocked(net, stuck) && stuck.c.pc == CListWait3(|FilesText(n.env, net.s.dir)| + 1)
  {
    hide Over, Runs, End, Enabled, Join;
    var files := FilesText(n.env, net.s.dir);
    LoneErrorIsShort(n, net);
    ListSentIff(files);
    run := ListAnnounced(n, net);
    Stuck(End(n.env, Asked(net, List), run));
  }

  lemma LoneErrorIsShort(n: Session, net: Net)
    requires Over(n, net)
    ensures net.s.dir.Keys == {ERROR_TEXT} ==> |FilesText(n.env, net.s.dir)| == 5
  {
    hide Over, Join;
    FilesAreListable(n, net);
    SentinelIffLoneError(n.env, net.s.dir);
  }

  /** Its third message, on its way from server to client. */
  lemma ThirdRefused(env: Env, user: Name, net: Net, files: bytes, r: Rnd)
    requires SealOpens(env) && Level(user, net) && ValidRnd(r) && files != []
    requires |files| + 2 <= MAX_INT < ENVELOPE_LEN + |files| + 2
    requires net.s.pc == SListSend3(files) && net.c.pc == CListWait3(ListSize(files))
    ensures var run := [ServerSends(r), ClientReceives];
            && Runs(env, net, run)
            && var end := End(env, net, run);
               && end.c == Return(net.c.(rejected := true), RECEIVE_FAILURE) && Quiet(end)
               && ServerAction(end.s).Receives? && end.c.auth == CNoAuth && end.s.index == end.c.index + 1
  {
    hide Runs, End, ServerSend, ClientReceive, Wrap, Accept, ServerIncrement, ListSize;
    var text := EncPayload(LIST_RESPONSE, files + [0]);
    ListSentIff(files);
    ThirdText(files, r);
    WrapAccepted(env, net.s.key, r.iv, net.s.counter, text);
    ServerSendIs(env, net.s, r);
    ListReceivedIff(env, net.c, files, ServerSend(env, net.s, r).packet.frame);
    Down(env, net, r);
    ServerIncrementIndex(env, net.s, ServerSent(net.s.pc));
    BackToMain(env, net.s);
  }

  lemma ThirdText(files: bytes, r: Rnd)
    requires ValidRnd(r) && files != [] && |files| + 2 <= MAX_INT
    ensures ServerText(SListSend3(files), r) == EncPayload(LIST_RESPONSE, files + [0])
  {
    ListSentIff(files);
  }

  /** A third message that fits in an int only without its envelope is sent, and counted by the server alone. */
  lemma ListTooLongToReceive(n: Session, net: Net) returns (run: seq<Event>)
    requires Over(n, net)
    requires var files := FilesText(n.env, net.s.dir); |files| + 2 <= MAX_INT < ENVELOPE_LEN + |files| + 2
    ensures Runs(n.env, Asked(net, List), run)
    ensures var end := End(n.env, Asked(net, List), run);
            && end.c.pc == CIdle && end.c.done == net.c.done + [Finished(RECEIVE_FAILURE, [], 2)]
            && end.s.index == end.c.index + 1 && Halted(end)
  {
    hide Over, Runs, End, Halted, Ideal, SealOpens, ListSize, ThirdSent, FilesText, Level, Step, Enabled, WorldAt, Outcomes, Good;
    var files := FilesText(n.env, net.s.dir);
    LoneErrorIsShort(n, net);
    ListSentIff(files);
    AtTheEnd(n, net);
    SealingOpens(n.env, n.user);
    run := ListAnnounced(n, net);
    var r := SomeRnd();
    var mid := End(n.env, Asked(net, List), run);
    ThirdRefused(n.env, n.user, mid, files, r);
    RunsOn(n.env, Asked(net, List), run, [ServerSends(r), ClientReceives]);
    run := run + [ServerSends(r), ClientReceives];
    NothingMore(End(n.env, Asked(net, List), run));
  }

  lemma BackToMain(env: Env, s: ServerState)
    requires s.auth == SNoAuth && s.pc.SListSend3?
    ensures ServerAction(ServerIncrement(env, s, ServerSent(s.pc))).Receives?
  {
  }

  lemma NothingMore(net: Net)
    requires Quiet(net) && net.c.auth == CNoAuth && net.c.pc == CIdle && net.c.todo == [] && ServerAction(net.s).Receives?
    ensures Halted(net)
  {
    ReceivesSomething(net.c, net.s);
  }

  /** Up to the point where the announced size wraps around: asking for the list always ends with the directory's names
      exactly when the directory is not the lone file "error" and the sealed third message fits in an int. */
  lemma ListWholeIff(n: Session, net: Net)
    requires Over(n, net) && |FilesText(n.env, net.s.dir)| + 1 < U32_RANGE
    ensures (forall run :: Runs(n.env, Asked(net, List), run) && Halted(End(n.env, Asked(net, List), run)) ==>
              GivesNames(n, net, End(n.env, Asked(net, List), run)))
            <==> net.s.dir.Keys != {ERROR_TEXT} && ENVELOPE_LEN + |FilesText(n.env, net.s.dir)| + 2 <= MAX_INT
  {
    hide Over, Runs, End, Enabled, Join, Atomic;
    var files := FilesText(n.env, net.s.dir);
    if net.s.dir.Keys == {ERROR_TEXT} {
      var run := LoneErrorDeadlock(n, net);
      assert !GivesNames(n, net, End(n.env, Asked(net, List), run));
    } else if |files| + 2 > MAX_INT {
      var run := LongListDeadlock(n, net);
      assert !GivesNames(n, net, End(n.env, Asked(net, List), run));
    } else if ENVELOPE_LEN + |files| + 2 > MAX_INT {
      var run := ListTooLongToReceive(n, net);
      LastCounts(net.c.done, End(n.env, Asked(net, List), run).c.done, RECEIVE_FAILURE);
      assert !GivesNames(n, net, End(n.env, Asked(net, List), run));
    } else {
      forall run | Runs(n.env, Asked(net, List), run) && Halted(End(n.env, Asked(net, List), run))
        ensures GivesNames(n, net, End(n.env, Asked(net, List), run))
      {
        AskedEnds(n, net, List, run);
        ListOutcome(n.env, World(net.s.dir, net.c.local));
      }
    }
  }

  lemma LastCounts(done: seq<Outcome>, done': seq<Outcome>, code: int)
    requires exists o: Outcome :: o.Finished? && o.code == code && done' == done + [o]
    ensures forall o: Outcome :: done' == done + [o] ==> o.Finished? && o.code == code
  {
    forall o: Outcome | done' == done + [o] ensures o.Finished? && o.code == code {
      assert done'[|done|] == o;
    }
  }

  /** The command has ended with SUCCESS and the names of the directory. */
  ghost predicate GivesNames(n: Session, net: Net, end: Net) {
    var names := n.env.Entries(net.s.dir.Keys);
    end.c.done == net.c.done + [Finished(SUCCESS, names, if names == [] then 2 else 3)]
  }

  lemma ListOutcome(env: Env, w: World)
    ensures var names := env.Entries(w.dir.Keys);
            Atomic(env, w, List).outcome == Finished(SUCCESS, names, if names == [] then 2 else 3)
  {
  }

  /** A list text whose announced size wraps around to 0 is taken for no files at all. */
  lemma ListTakenForEmpty(n: Session, net: Net) returns (run: seq<Event>)
    requires Over(n, net)
    requires var length := |FilesText(n.env, net.s.dir)|; length > 0 && (length % U32_RANGE == 0 || length % U32_RANGE == U32_RANGE - 1)
    ensures Runs(n.env, Asked(net, List), run)
    ensures End(n.env, Asked(net, List), run).c.done == net.c.done + [Finished(SUCCESS, [], 2)]
    ensures net.s.dir != map[]
  {
    hide Over, Runs, End, Level;
    LoneErrorIsShort(n, net);
    ListAnnouncedIff(FilesText(n.env, net.s.dir));
    FilesAreListable(n, net);
    run := ListAnnounced(n, net);
  }

  // ---- Deletes ----

  /** The answer to a delete question is answered exactly when it confirms and the file is there. */
  lemma DeleteAnsweredIff(env: Env, s: ServerState)
    requires s.auth == SNoAuth && s.pc.SDelGot3?
    ensures ServerAction(ServerResume(env, s)) == Sends <==> s.pc.code == DELETE_CONFIRM && s.pc.name in s.dir
    ensures ServerAction(ServerResume(env, s)) != Sends ==> ServerResume(env, s) == s.(pc := SMain)
  {
  }

  /** From files within the upload limit, every download a user can ever ask for is announced with its true size. */
  lemma DownloadsStayInReach(env: Env, w: World, ops: seq<Op>, k: nat, name: Name)
    requires k <= |ops| && Bounded(w.dir, MAX_FILE_SIZE)
    ensures InReach(env, WorldAt(env, w, ops, k), Download(name))
  {
    hide Atomic;
    StoredSizesStay(env, w, ops, k);
  }
}
