/** Uploads and downloads at the edge of their sizes: exactly when a transfer leaves the file it should. */
module Transfers {
  import opened Config
  import opened Bytes
  import opened Chunks
  import opened Codecs
  import opened Env
  import opened Store
  import opened Protocol
  import opened Lockstep
  import opened Rendezvous
  import opened Network
  import opened Guarantees
  import opened Reaching
  import opened Asking
  import opened Conservation
  import opened Running

  // ---- Uploads ----

  /** A finished session whose user can upload `name`: a local file of an accepted size, and no stored file of that name. */
  ghost predicate Uploadable(n: Session, net: Net, name: Name) {
    && Over(n, net) && ValidName(name) && name in net.c.local && 1 <= |net.c.local[name]| <= MAX_FILE_SIZE && name !in net.s.dir
  }

  predicate Confirms(s: ServerState) {
    s.auth == SNoAuth && s.pc == SUpSendEnd
  }

  /** The server confirms for the first time at the end of the run. */
  ghost predicate FirstConfirms(env: Env, net: Net, run: seq<Event>)
    requires Runs(env, net, run)
    decreases |run|
  {
    if run == [] then Confirms(net.s)
    else !Confirms(net.s) && FirstConfirms(env, Step(env, net, run[0]), run[1..])
  }

  /** Between accepting an upload announced as empty and confirming it. */
  predicate Granted(s: ServerState, dir: Dir, name: Name) {
    match s.pc
    case SUpGot(x, size) => x == name && size == 0 && s.auth != SNoAuth && s.dir == dir
    case SUpSend2(x, size, reply) => x == name && size == 0 && reply == ACK && s.auth == SNoAuth && s.dir == dir
    case SUpSent2(x, size, reply) => x == name && size == 0 && reply == ACK && s.auth != SNoAuth && s.dir == dir
    case SUpSendEnd => s.auth == SNoAuth && s.dir == dir[name := []]
    case _ => false
  }

  lemma GrantedResumes(env: Env, s: ServerState, dir: Dir, name: Name)
    requires s.auth == SNoAuth && s.dir == dir && name !in dir
    requires s.pc == SUpGot(name, 0) || s.pc == SUpSent2(name, 0, ACK)
    ensures Granted(ServerResume(env, s), dir, name)
  {
  }

  lemma GrantedIncrement(env: Env, s: ServerState, next: ServerPc, dir: Dir, name: Name)
    requires s.auth == SNoAuth && s.dir == dir && name !in dir && (next == SUpGot(name, 0) || next == SUpSent2(name, 0, ACK))
    ensures Granted(ServerIncrement(env, s, next), dir, name)
  {
    hide ServerResume;
    if s.counter != MAX_COUNTER_VALUE {
      GrantedResumes(env, s.(pc := next, index := s.index + 1, counter := s.counter + 1), dir, name);
    }
  }

  lemma GrantedSends(env: Env, s: ServerState, r: Rnd, dir: Dir, name: Name)
    requires ValidRnd(r) && ServerAction(s) == Sends && Granted(s, dir, name) && !Confirms(s) && name !in dir
    ensures Granted(ServerSend(env, s, r).state, dir, name)
  {
    hide Wrap, ServerText, ServerIncrement, ServerResume, SessionKey, EncAuthM3;
    if s.auth == SNoAuth {
      GrantedIncrement(env, s, SUpSent2(name, 0, ACK), dir, name);
    } else if s.auth == SSend5(true) {
      GrantedResumes(env, s.(auth := SNoAuth, counter := 0), dir, name);
    }
  }

  lemma GrantedReceives(env: Env, s: ServerState, data: bytes, dir: Dir, name: Name)
    requires ServerAction(s) == Receives(|data|) && Granted(s, dir, name)
    ensures Granted(ServerReceive(env, s, data), dir, name)
  {
    hide FromLE32, AuthM1User, AuthM1Key, ServerReceiveOp;
  }

  /** The server has not read the request for 4,000,000,000 bytes yet, or is on its way to confirming an empty file. */
  ghost predicate Oversized(env: Env, start: Net, net: Net, name: Name) {
    || Granted(net.s, start.s.dir, name)
    || (net.s == start.s && net.up == [] && name in start.c.local
        && (net.c == start.c || net.c == start.c.(pc := CUpAsk(name, start.c.local[name]))))
    || (net.s == start.s && exists r :: ValidRnd(r) && RequestFor(env, start, name, r) <= net.up)
  }

  function RequestFor(env: Env, start: Net, name: Name, r: Rnd): bytes
    requires ValidRnd(r)
  {
    Wrap(env, start.c.key, r.iv, start.c.counter, EncUpload(name, 0, r.tail[..31]))
  }

  /** A start of an oversized upload. */
  ghost predicate OversizedStart(env: Env, user: Name, start: Net, name: Name) {
    && SealOpens(env) && Level(user, start) && start.c.pc == CIdle && start.s.pc == SMain
    && start.c.todo == [Upload(name)] && ValidName(name) && name in start.c.local && |start.c.local[name]| == MAX_FILE_SIZE
    && name !in start.s.dir
  }

  lemma RequestTaken(env: Env, user: Name, start: Net, name: Name, r: Rnd)
    requires OversizedStart(env, user, start, name) && ValidRnd(r)
    ensures var frame := RequestFor(env, start, name, r);
            && ServerAction(start.s) == Receives(|frame|)
            && ServerReceive(env, start.s, frame) == ServerIncrement(env, start.s, SUpGot(name, 0))
  {
    hide Wrap, Accept, CounterOf, Unwrap, LE32, FromLE32, Strncpy, CString, ValidName;
    var text := EncUpload(name, 0, r.tail[..31]);
    UploadRoundTrip(name, 0, r.tail[..31]);
    WrapAccepted(env, start.c.key, r.iv, start.c.counter, text);
    ServerTakes(env, start.s, RequestFor(env, start, name, r), text);
  }

  lemma OversizedServer(env: Env, user: Name, start: Net, net: Net, name: Name, e: Event)
    requires OversizedStart(env, user, start, name) && Oversized(env, start, net, name) && !Confirms(net.s)
    requires Enabled(net, e) && (e.ServerSends? || e.ServerReceives?)
    ensures Oversized(env, start, Step(env, net, e), name)
  {
    hide ServerSend, ServerReceive, RequestFor, ClientAction, ValidName;
    match e
    case ServerSends(r) =>
      GrantedSends(env, net.s, r, start.s.dir, name);
    case ServerReceives =>
      var data := net.up[..ServerAction(net.s).length];
      if Granted(net.s, start.s.dir, name) {
        GrantedReceives(env, net.s, data, start.s.dir, name);
      } else {
        var r :| ValidRnd(r) && RequestFor(env, start, name, r) <= net.up;
        RequestTaken(env, user, start, name, r);
        assert data == RequestFor(env, start, name, r);
        GrantedIncrement(env, start.s, SUpGot(name, 0), start.s.dir, name);
      }
  }

  lemma OversizedAsks(env: Env, user: Name, start: Net, r: Rnd, name: Name)
    requires OversizedStart(env, user, start, name) && ValidRnd(r)
    ensures ClientBegin(start.c, start.s.dir) == start.c.(pc := CUpAsk(name, start.c.local[name]))
    ensures ClientSend(env, start.c.(pc := CUpAsk(name, start.c.local[name])), r).packet.frame == RequestFor(env, start, name, r)
  {
    hide Wrap, ClientIncrement, EncUpload, ValidName;
  }

  /** Until it has sent its request, the client can only begin and send it. */
  lemma OversizedOpens(env: Env, user: Name, start: Net, net: Net, name: Name, e: Event)
    requires OversizedStart(env, user, start, name) && net.s == start.s && net.up == []
    requires net.c == start.c || net.c == start.c.(pc := CUpAsk(name, start.c.local[name]))
    requires Enabled(net, e) && !e.ServerSends? && !e.ServerReceives?
    ensures Oversized(env, start, Step(env, net, e), name)
  {
    hide ClientSend, ClientReceive, ClientBegin, RequestFor, Granted, ValidName, ServerSend, ServerReceive;
    match e
    case Begin => OversizedAsks(env, user, start, Rnd(Zeros(IV_LEN), Zeros(MAX_PACKET_SIZE - 1), 0), name);
    case ClientSends(r) =>
      OversizedAsks(env, user, start, r, name);
      assert Step(env, net, e).up == RequestFor(env, start, name, r);
    case ClientReceives =>
  }

  lemma OversizedClient(env: Env, user: Name, start: Net, net: Net, name: Name, e: Event)
    requires OversizedStart(env, user, start, name) && Oversized(env, start, net, name)
    requires Enabled(net, e) && !e.ServerSends? && !e.ServerReceives?
    ensures Oversized(env, start, Step(env, net, e), name)
  {
    hide ClientSend, ClientReceive, ClientBegin, RequestFor, Granted, OversizedStart, ServerSend, ServerReceive, ClientPcAction, ServerPcAction;
    if Granted(net.s, start.s.dir, name) {
    } else if r :| ValidRnd(r) && RequestFor(env, start, name, r) <= net.up {
      assert RequestFor(env, start, name, r) <= Step(env, net, e).up;
    } else {
      OversizedOpens(env, user, start, net, name, e);
    }
  }

  lemma {:induction false} OversizedRun(env: Env, user: Name, start: Net, net: Net, name: Name, run: seq<Event>)
    requires OversizedStart(env, user, start, name) && Oversized(env, start, net, name)
    requires Runs(env, net, run) && FirstConfirms(env, net, run)
    ensures End(env, net, run).s.dir == start.s.dir[name := []]
    decreases |run|
  {
    hide OversizedStart, Step, Enabled, RequestFor;
    OversizedFromStart(env, user, start, name);
    if run == [] {
    } else {
      hide Oversized;
      if run[0].ServerSends? || run[0].ServerReceives? {
        OversizedServer(env, user, start, net, name, run[0]);
      } else {
        OversizedClient(env, user, start, net, name, run[0]);
      }
      OversizedRun(env, user, start, Step(env, net, run[0]), name, run[1..]);
    }
  }

  lemma OversizedFromStart(env: Env, user: Name, start: Net, name: Name)
    requires OversizedStart(env, user, start, name)
    ensures Oversized(env, start, start, name) && start.s.pc == SMain
  {
  }

  // ---- An upload within the limit ----

  lemma StepKeepsDone(env: Env, net: Net, e: Event)
    requires Enabled(net, e)
    ensures |net.c.done| <= |Step(env, net, e).c.done|
  {
    hide ServerSend, ServerReceive, ClientReceive;
    match e
    case Begin => BeginKeepsDone(net.c, net.s.dir);
    case ClientSends(r) => SendKeepsDone(env, net.c, r);
    case ServerSends(_) =>
    case ClientReceives => ReceiveExtends(env, net.c, net.down[..ClientAction(net.c).length]);
    case ServerReceives =>
  }

  lemma BeginKeepsDone(c: ClientState, dir: Dir)
    requires ClientAction(c) == Begins
    ensures |c.done| <= |ClientBegin(c, dir).done|
  {
    hide ValidName;
  }

  lemma SendKeepsDone(env: Env, c: ClientState, r: Rnd)
    requires ValidRnd(r) && ClientAction(c) == Sends
    ensures |c.done| <= |ClientSend(env, c, r).state.done|
  {
    hide Wrap, ClientText, ClientContinue;
  }

  lemma {:induction false} RunKeepsDone(env: Env, net: Net, run: seq<Event>)
    requires Runs(env, net, run)
    ensures |net.c.done| <= |End(env, net, run).c.done|
    decreases |run|
  {
    hide Step, Enabled;
    if run != [] {
      StepKeepsDone(env, net, run[0]);
      RunKeepsDone(env, Step(env, net, run[0]), run[1..]);
    }
  }

  lemma ConfirmPlace(m: Session, c: ClientState, s: ServerState, name: Name)
    requires Good(m, c, s) && Confirms(s)
    requires |m.ops| > 0 && m.ops[|m.ops| - 1] == Upload(name) && |c.done| >= |m.ops| - 1
    ensures var w := WorldAfter(m, |m.ops| - 1); name in w.local && s.dir == w.dir[name := w.local[name]]
  {
    hide Atomic, History;
    GoodIndices(m, c, s);
    assert |c.done| < |m.ops| by { hide InOp; }
  }

  lemma ConfirmedInReach(n: Session, net: Net, name: Name, run: seq<Event>)
    requires Uploadable(n, net, name) && |net.c.local[name]| != MAX_FILE_SIZE
    requires Runs(n.env, Asked(net, Upload(name)), run) && Confirms(End(n.env, Asked(net, Upload(name)), run).s)
    ensures End(n.env, Asked(net, Upload(name)), run).s.dir == net.s.dir[name := net.c.local[name]]
  {
    hide Over, Runs, End, Good, Confirms, ClientTaking, ServerTaking, Runnable, Outcomes;
    AtTheEnd(n, net);
    AskedInv(n, net, Upload(name));
    var m := Longer(n, Upload(name));
    var end := End(n.env, Asked(net, Upload(name)), run);
    RunInv(m, Asked(net, Upload(name)), run);
    RunKeepsDone(n.env, Asked(net, Upload(name)), run);
    ConfirmingSends(end.s);
    ServerHasTurn(m, end);
    if UpAhead(m, end) {
      LevelIsBoth(m, end);
    }
    DoneGrows(n.env, end.c, end.downFlight);
    ConfirmPlace(m, ClientAfter(n.env, end.c, end.downFlight), end.s, name);
    SameSoFar(n, Upload(name), |n.ops|);
  }

  lemma ConfirmingSends(s: ServerState)
    requires Confirms(s)
    ensures ServerAction(s) == Sends
  {
  }

  /** When the server first confirms an upload, its file has the client's bytes unless there are exactly four billion of
      them: then it is empty. */
  lemma UploadConfirmedIff(n: Session, net: Net, name: Name, run: seq<Event>)
    requires Uploadable(n, net, name)
    requires Runs(n.env, Asked(net, Upload(name)), run) && FirstConfirms(n.env, Asked(net, Upload(name)), run)
    ensures var content, stored := net.c.local[name], End(n.env, Asked(net, Upload(name)), run).s.dir;
            && name in stored && (stored[name] == content <==> |content| != MAX_FILE_SIZE)
            && stored == net.s.dir[name := if |content| == MAX_FILE_SIZE then [] else content]
  {
    hide Over, Runs, End, Good, Confirms, OversizedStart;
    var start := Asked(net, Upload(name));
    ConfirmsAtTheEnd(n.env, start, run);
    if |net.c.local[name]| == MAX_FILE_SIZE {
      OversizedBegins(n, net, name);
      OversizedFromStart(n.env, n.user, start, name);
      OversizedRun(n.env, n.user, start, start, name, run);
    } else {
      ConfirmedInReach(n, net, name, run);
    }
  }

  lemma OversizedBegins(n: Session, net: Net, name: Name)
    requires Uploadable(n, net, name) && |net.c.local[name]| == MAX_FILE_SIZE
    ensures OversizedStart(n.env, n.user, Asked(net, Upload(name)), name)
  {
    hide Over, ValidName;
    AtTheEnd(n, net);
    SealingOpens(n.env, n.user);
  }

  lemma {:induction false} ConfirmsAtTheEnd(env: Env, net: Net, run: seq<Event>)
    requires Runs(env, net, run) && FirstConfirms(env, net, run)
    ensures Confirms(End(env, net, run).s)
    decreases |run|
  {
    hide Step, Enabled;
    if run != [] {
      ConfirmsAtTheEnd(env, Step(env, net, run[0]), run[1..]);
    }
  }

  /** Every run of an upload below four billion bytes that cannot go on has stored the client's bytes and told it so. */
  lemma UploadStored(n: Session, net: Net, name: Name, run: seq<Event>)
    requires Uploadable(n, net, name) && |net.c.local[name]| != MAX_FILE_SIZE
    requires Runs(n.env, Asked(net, Upload(name)), run) && forall e :: !Enabled(End(n.env, Asked(net, Upload(name)), run), e)
    ensures var content, end := net.c.local[name], End(n.env, Asked(net, Upload(name)), run);
            && end.s.dir == net.s.dir[name := content]
            && end.c.done == net.c.done + [Finished(SUCCESS, [], 3 + ChunksNum(|content|))]
  {
    hide Over, Runs, End, Enabled, ValidName;
    AskedEnds(n, net, Upload(name), run);
  }

  /** With four billion bytes, and whatever the counter, the server does come to confirming an empty file, while the client
      is about to send the first chunk. */
  lemma UploadLost(n: Session, net: Net, name: Name) returns (run: seq<Event>)
    requires Uploadable(n, net, name) && |net.c.local[name]| == MAX_FILE_SIZE
    ensures Runs(n.env, Asked(net, Upload(name)), run)
    ensures var end := End(n.env, Asked(net, Upload(name)), run);
            && Confirms(end.s) && end.s.dir == net.s.dir[name := []]
            && end.c.auth == CNoAuth && end.c.pc == CUpChunk(net.c.local[name], 0)
  {
    hide Over, Runs, End, Ideal, ClientPast, ServerPast, ClientText, ServerText, ServerGot, ClientGot, ClientSent, ServerSent,
         ClientPcAction, ServerPcAction, ClientBegin;
    AtTheEnd(n, net);
    var content := net.c.local[name];
    var start := Asked(net, Upload(name));
    var r := Rnd(Zeros(IV_LEN), Zeros(MAX_PACKET_SIZE - 1), 0);
    UploadBegins(start.c, net.s.dir, name);
    Chosen(n.env, n.user, net, Upload(name), CUpAsk(name, content));
    var asked := End(n.env, start, [Begin]);
    UploadRequestText(name, content, r);
    var key: bytes;
    run, key := UpMessage(n.env, n.user, asked, r, SUpGot(name, 0));
    RunsOn(n.env, start, [Begin], run);
    run := [Begin] + run;
    UploadRequestPast(n.env, asked.c, asked.s, name, content, key);
    var granted := End(n.env, start, run);
    UploadReplyText(name, content, r);
    var more: seq<Event>;
    more, key := DownMessage(n.env, n.user, granted, r);
    RunsOn(n.env, start, run, more);
    run := run + more;
    UploadReplyPast(n.env, granted.c, granted.s, name, content, key);
  }

  lemma UploadBegins(c: ClientState, dir: Dir, name: Name)
    requires c.todo == [Upload(name)] && ValidName(name) && name in c.local && 1 <= |c.local[name]| <= MAX_FILE_SIZE
    ensures ClientBegin(c, dir) == c.(pc := CUpAsk(name, c.local[name]))
  {
    hide ValidName;
  }

  lemma UploadRequestText(name: Name, content: bytes, r: Rnd)
    requires ValidRnd(r) && ValidName(name) && |content| == MAX_FILE_SIZE
    ensures var text := ClientText(CUpAsk(name, content), r);
            && |text| == MAX_PACKET_SIZE && ServerPcAction(SMain) == Receives(ENVELOPE_LEN + |text|)
            && ServerGot(SMain, text) == Some(SUpGot(name, 0))
            && ClientPcAction(CUpAsk(name, content), true) == Sends && ClientSent(CUpAsk(name, content)) == CUpWait2(content)
  {
    hide LE32, FromLE32, Strncpy, CString, ValidName;
    UploadRoundTrip(name, 0, r.tail[..31]);
  }

  lemma UploadRequestPast(env: Env, c: ClientState, s: ServerState, name: Name, content: bytes, key: bytes)
    requires name !in s.dir
    ensures ClientPast(c, CUpWait2(content), key).pc == CUpWait2(content) && ClientPast(c, CUpWait2(content), key).auth == c.auth
    ensures var s' := ServerPast(env, s, SUpGot(name, 0), key); s'.pc == SUpSend2(name, 0, ACK) && s'.dir == s.dir && s'.auth == s.auth
  {
  }

  lemma UploadReplyText(name: Name, content: bytes, r: Rnd)
    requires ValidRnd(r)
    ensures var text := ServerText(SUpSend2(name, 0, ACK), r);
            && |text| == MAX_PACKET_SIZE && ServerPcAction(SUpSend2(name, 0, ACK)) == Sends
            && ClientPcAction(CUpWait2(content), true) == Receives(ENVELOPE_LEN + |text|)
            && ClientGot(CUpWait2(content), text) == CUpGot2(content, ACK)
            && ServerSent(SUpSend2(name, 0, ACK)) == SUpSent2(name, 0, ACK)
  {
  }

  lemma UploadReplyPast(env: Env, c: ClientState, s: ServerState, name: Name, content: bytes, key: bytes)
    requires |content| > 0
    ensures var c' := ClientPast(c, CUpGot2(content, ACK), key); c'.pc == CUpChunk(content, 0) && c'.auth == c.auth
    ensures var s' := ServerPast(env, s, SUpSent2(name, 0, ACK), key);
            s'.pc == SUpSendEnd && s'.dir == s.dir[name := []] && s'.auth == s.auth
  {
    ChunkEnds(|content|);
  }

  /** The empty file stays, whatever bytes the server is sent next, until it is renamed away or deleted with confirmation. */
  lemma EmptyUploadKept(env: Env, s: ServerState, name: Name, run: seq<Input>)
    requires Confirms(s) && name in s.dir && s.dir[name] == []
    requires Heard(env, s, run) && !GivenUp(env, s, run, name)
    ensures name in Finally(env, s, run).dir && Finally(env, s, run).dir[name] == []
  {
    hide Heard, Finally, GivenUp;
    StoredFileKept(env, s, run, name);
  }

  /** Past a positive reply to an accepted upload the client sends the first chunk, and the server waits for exactly that
      chunk unless the size is four billion. */
  lemma UploadStartsIff(env: Env, c: ClientState, s: ServerState, name: Name, content: bytes)
    requires 0 < |content| <= MAX_FILE_SIZE && c.auth == CNoAuth && c.pc == CUpGot2(content, ACK)
    requires s.auth == SNoAuth && s.pc == SUpSent2(name, AnnouncedUpload(|content|), ACK)
    ensures ClientAction(ClientResume(c)) == Sends
    ensures ServerAction(ServerResume(env, s)) == Receives(ENVELOPE_LEN + |EncPayload(UPLOAD_CHUNK, Chunk(content, 0))|)
            <==> |content| != MAX_FILE_SIZE
    ensures |content| == MAX_FILE_SIZE ==> ServerAction(ServerResume(env, s)) == Sends && name in ServerResume(env, s).dir
                                           && ServerResume(env, s).dir[name] == []
  {
    hide Chunk;
    ChunkBounds(|content|, 0);
    UploadPlanAgrees(|content|);
  }

  // ---- Downloads ----

  /** A finished session whose user can download `name`: a stored file, and no local file of that name. */
  ghost predicate Downloadable(n: Session, net: Net, name: Name) {
    Over(n, net) && ValidName(name) && name in net.s.dir && name !in net.c.local
  }

  predicate Short(local: Dir, name: Name) {
    name in local ==> |local[name]| < U32_RANGE
  }

  /** The client's only command is the download of `name`, and it has written no more than the chunks before the one it waits for. */
  predicate Fetching(c: ClientState, name: Name) {
    if c.todo == [] then (c.pc == CIdle || c.pc == CDone) && Short(c.local, name)
    else
      c.todo == [Download(name)]
      && match c.pc
         case CIdle => name !in c.local
         case CDlAsk(x) => x == name && name !in c.local
         case CDlWait2(x) => x == name && name !in c.local
         case CDlGot2(x, _, _) => x == name && name !in c.local
         case CDlWaitChunk(x, size, i) => x == name && i < ChunksNum(size) && Written(c.local, name, size, i)
         case CDlGotChunk(x, size, i, _, chunk) =>
           x == name && i < ChunksNum(size) && Written(c.local, name, size, i) && |chunk| == ChunkLen(size, i)
         case _ => false
  }

  predicate Written(local: Dir, name: Name, size: u32, i: nat) {
    name in local && |local[name]| <= PrefixLen(size, i)
  }

  lemma FetchingResumes(c: ClientState, name: Name)
    requires Fetching(c, name) && c.todo != [] && !c.pc.CIdle?
    ensures Fetching(ClientResume(c), name)
  {
    hide ChunksNum, ChunkLen, PrefixLen;
    match c.pc
    case CDlGot2(_, _, size) => ChunkEnds(size);
    case CDlGotChunk(_, size, i, _, _) =>
      ChunkBounds(size, i);
      ChunkEnds(size);
    case _ =>
  }

  lemma FetchingIncrements(c: ClientState, next: ClientPc, name: Name)
    requires c.todo != [] && !next.CIdle? && Fetching(c.(pc := next), name)
    ensures Fetching(ClientIncrement(c, next), name)
  {
    hide ClientResume, Written, ChunksNum;
    if c.counter != MAX_COUNTER_VALUE {
      FetchingResumes(c.(pc := next, messages := c.messages + 1, index := c.index + 1, counter := c.counter + 1), name);
    }
  }

  lemma FetchingSends(env: Env, c: ClientState, r: Rnd, name: Name)
    requires ValidRnd(r) && ClientAction(c) == Sends && Fetching(c, name)
    ensures Fetching(ClientSend(env, c, r).state, name)
  {
    hide Wrap, ClientText, ClientIncrement, Written, ChunksNum, EncAuthM1;
    if c.auth == CNoAuth {
      FetchingIncrements(c, ClientSent(c.pc), name);
    }
  }

  lemma FetchingBegins(c: ClientState, dir: Dir, name: Name)
    requires ClientAction(c) == Begins && Fetching(c, name)
    ensures Fetching(ClientBegin(c, dir), name)
  {
    hide ValidName, Written;
  }

  lemma FetchingHears(env: Env, c: ClientState, frame: bytes, name: Name)
    requires LengthKept(env) && c.auth == CNoAuth && ClientAction(c) == Receives(|frame|) && |frame| >= ENVELOPE_LEN
    requires Fetching(c, name)
    ensures Fetching(ClientReceiveOp(env, c, frame), name)
  {
    hide ClientIncrement, Written, ChunksNum, ChunkLen, CounterOf, FromLE32;
    FetchingIsShort(c, name);
    var text := Accept(env, c.key, c.counter, frame);
    if |frame| <= MAX_INT && text.Some? && |text.value| >= 1 && !c.pc.CLoWait? {
      assert |text.value| == |frame| - ENVELOPE_LEN;
      FetchingIncrements(c, ClientGot(c.pc, text.value), name);
    }
  }

  lemma FetchingIsShort(c: ClientState, name: Name)
    requires Fetching(c, name)
    ensures Short(c.local, name)
  {
    match c.pc
    case CDlWaitChunk(_, size, i) =>
    case CDlGotChunk(_, size, i, _, _) =>
    case _ =>
  }

  lemma ThirdKeeps(env: Env, c: ClientState, secret: nat, data: bytes)
    requires |data| == AUTH_M3_LEN
    ensures var d := ClientReceiveM3(env, c, secret, data); d.pc == c.pc && d.todo == c.todo && d.local == c.local
  {
    hide SessionKey, FromLE32, AuthM3Key, AuthM3Cert, PublicKey;
  }

  /** A handshake message leaves the command where it is, or lets it go on. */
  lemma HandshakeKeeps(env: Env, c: ClientState, data: bytes)
    requires ClientAction(c) == Receives(|data|) && c.auth != CNoAuth
    ensures var d := ClientReceive(env, c, data);
            || (d.pc == c.pc && d.todo == c.todo && d.local == c.local)
            || (c.auth.CWait5? && d == ClientResume(c.(auth := CNoAuth, counter := 0)))
  {
    hide ClientReceiveM3, ClientResume, Unwrap, CounterOf;
    if c.auth.CWait3? {
      ThirdKeeps(env, c, c.auth.secret, data);
    }
  }

  lemma FetchingReceives(env: Env, c: ClientState, data: bytes, name: Name)
    requires LengthKept(env) && ClientAction(c) == Receives(|data|) && Fetching(c, name)
    ensures Fetching(ClientReceive(env, c, data), name)
  {
    hide ClientReceiveOp, ClientReceiveM3, ClientReceiveM5, ClientResume, Written, ChunksNum;
    var resumed := c.(auth := CNoAuth, counter := 0);
    if c.auth == CNoAuth {
      FetchingHears(env, c, data, name);
    } else {
      HandshakeKeeps(env, c, data);
      if c.todo != [] && !c.pc.CIdle? {
        FetchingResumes(resumed, name);
      } else {
        IdleResumes(resumed);
      }
    }
  }

  lemma IdleResumes(c: ClientState)
    requires c.pc.CIdle? || c.pc.CDone?
    ensures ClientResume(c) == c
  {
  }

  lemma FetchingStep(env: Env, net: Net, e: Event, name: Name)
    requires LengthKept(env) && Enabled(net, e) && Fetching(net.c, name)
    ensures Fetching(Step(env, net, e).c, name)
  {
    hide ClientSend, ClientReceive, ClientBegin, ServerSend, ServerReceive, Fetching, LengthKept;
    match e
    case Begin => FetchingBegins(net.c, net.s.dir, name);
    case ClientSends(r) => FetchingSends(env, net.c, r, name);
    case ClientReceives => FetchingReceives(env, net.c, net.down[..ClientAction(net.c).length], name);
    case _ =>
  }

  lemma {:induction false} FetchingRun(env: Env, net: Net, run: seq<Event>, name: Name)
    requires LengthKept(env) && Runs(env, net, run) && Fetching(net.c, name)
    ensures Fetching(End(env, net, run).c, name)
    decreases |run|
  {
    hide Step, Enabled, Fetching, LengthKept;
    if run != [] {
      FetchingStep(env, net, run[0], name);
      FetchingRun(env, Step(env, net, run[0]), run[1..], name);
    }
  }

  /** At no moment of any run of a download does the client hold 2^32 bytes or more under the name. */
  lemma DownloadStaysShort(n: Session, net: Net, name: Name, run: seq<Event>)
    requires Downloadable(n, net, name) && LengthKept(n.env) && Runs(n.env, Asked(net, Download(name)), run)
    ensures Short(End(n.env, Asked(net, Download(name)), run).c.local, name)
  {
    hide Over, Runs, End, LengthKept, ValidName;
    AtTheEnd(n, net);
    FetchingRun(n.env, Asked(net, Download(name)), run, name);
    FetchingIsShort(End(n.env, Asked(net, Download(name)), run).c, name);
  }

  /** When a download can go on no further, the client's file is the stored one exactly when its size fits in 32 bits. */
  lemma DownloadWholeIff(n: Session, net: Net, name: Name, run: seq<Event>)
    requires Downloadable(n, net, name) && LengthKept(n.env)
    requires Runs(n.env, Asked(net, Download(name)), run) && forall e :: !Enabled(End(n.env, Asked(net, Download(name)), run), e)
    ensures var local := End(n.env, Asked(net, Download(name)), run).c.local;
            name in local && local[name] == net.s.dir[name] <==> |net.s.dir[name]| < U32_RANGE
  {
    hide Over, Runs, End, LengthKept, ValidName, Enabled;
    DownloadStaysShort(n, net, name, run);
    if |net.s.dir[name]| < U32_RANGE {
      AskedEnds(n, net, Download(name), run);
    }
  }

  /** A stored file of a positive multiple of 2^32 bytes is downloaded as an empty file, and the client is told SUCCESS. */
  lemma DownloadTakenForEmpty(n: Session, net: Net, name: Name) returns (run: seq<Event>)
    requires Downloadable(n, net, name)
    requires |net.s.dir[name]| > 0 && |net.s.dir[name]| % U32_RANGE == 0
    ensures Runs(n.env, Asked(net, Download(name)), run)
    ensures var c := End(n.env, Asked(net, Download(name)), run).c;
            c.done == net.c.done + [Finished(SUCCESS, [], 2)] && c.local == net.c.local[name := []]
  {
    hide Over, Runs, End, Ideal, ClientPast, ServerPast, ClientText, ServerText, ServerGot, ClientGot, ClientSent, ServerSent,
         ClientPcAction, ServerPcAction, ClientBegin;
    AtTheEnd(n, net);
    var content := net.s.dir[name];
    var start := Asked(net, Download(name));
    var r := Rnd(Zeros(IV_LEN), Zeros(MAX_PACKET_SIZE - 1), 0);
    DownloadBegins(start.c, net.s.dir, name);
    Chosen(n.env, n.user, net, Download(name), CDlAsk(name));
    var asked := End(n.env, start, [Begin]);
    DownloadRequestText(name, r);
    var key: bytes;
    run, key := UpMessage(n.env, n.user, asked, r, SDlGot(name));
    RunsOn(n.env, start, [Begin], run);
    run := [Begin] + run;
    DownloadRequestPast(n.env, asked.c, asked.s, name, key);
    var found := End(n.env, start, run);
    DownloadReplyText(name, content, r);
    var more: seq<Event>;
    more, key := DownMessage(n.env, n.user, found, r);
    RunsOn(n.env, start, run, more);
    run := run + more;
    DownloadReplyPast(found.c, name, key);
  }

  lemma DownloadBegins(c: ClientState, dir: Dir, name: Name)
    requires c.todo == [Download(name)] && ValidName(name) && name !in c.local
    ensures ClientBegin(c, dir) == c.(pc := CDlAsk(name))
  {
    hide ValidName;
  }

  lemma DownloadRequestText(name: Name, r: Rnd)
    requires ValidRnd(r) && ValidName(name)
    ensures var text := ClientText(CDlAsk(name), r);
            && |text| == MAX_PACKET_SIZE && ServerPcAction(SMain) == Receives(ENVELOPE_LEN + |text|)
            && ServerGot(SMain, text) == Some(SDlGot(name))
            && ClientPcAction(CDlAsk(name), true) == Sends && ClientSent(CDlAsk(name)) == CDlWait2(name)
  {
    hide Strncpy, CString, ValidName;
    NamedRoundTrip(DOWNLOAD_REQUEST, name, r.tail[..35]);
  }

  lemma DownloadRequestPast(env: Env, c: ClientState, s: ServerState, name: Name, key: bytes)
    requires name in s.dir
    ensures ClientPast(c, CDlWait2(name), key) == c.(pc := CDlWait2(name), messages := c.messages + 1, index := c.index + 1,
                                                     counter := NextCounter(c.counter), key := key)
    ensures ServerPast(env, s, SDlGot(name), key).pc == SDlSend2(DOWNLOAD_ACK, AnnouncedDownload(|s.dir[name]|), s.dir[name])
  {
  }

  lemma DownloadReplyText(name: Name, content: bytes, r: Rnd)
    requires ValidRnd(r) && |content| % U32_RANGE == 0
    ensures var text := ServerText(SDlSend2(DOWNLOAD_ACK, 0, content), r);
            && |text| == 5 && ServerPcAction(SDlSend2(DOWNLOAD_ACK, 0, content)) == Sends
            && ClientPcAction(CDlWait2(name), true) == Receives(ENVELOPE_LEN + |text|)
            && ClientGot(CDlWait2(name), text) == CDlGot2(name, DOWNLOAD_ACK, 0)
  {
    hide LE32, FromLE32;
    SizedRoundTrip(DOWNLOAD_ACK, 0);
  }

  lemma DownloadReplyPast(c: ClientState, name: Name, key: bytes)
    ensures var c' := ClientPast(c, CDlGot2(name, DOWNLOAD_ACK, 0), key);
            c'.done == c.done + [Finished(SUCCESS, [], c.messages + 1)] && c'.local == c.local[name := []]
  {
  }

  /** What the server announces of a stored file, and how many chunks the client makes of it. */
  lemma DownloadAnnouncedIff(env: Env, s: ServerState, name: Name)
    requires s.auth == SNoAuth && s.pc == SDlGot(name) && name in s.dir
    ensures var pc := ServerResume(env, s).pc;
            pc.SDlSend2? && pc.content == s.dir[name]
            && (ChunksNum(pc.size) == ChunksNum(|pc.content|) <==> |s.dir[name]| < U32_RANGE)
  {
    DownloadPlanAgrees(|s.dir[name]|);
  }
}
