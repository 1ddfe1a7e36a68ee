/** Each message, received as it is sent, keeps the parties matched; and one of them always has the turn. */
module Rendezvous {
  import opened Config
  import opened Bytes
  import opened Chunks
  import opened Codecs
  import opened Listing
  import opened Env
  import opened Store
  import opened Protocol
  import opened Lockstep

  // ---- One operation message, plaintext level ----

  /** The server waits for exactly the plaintext the client sends, understands it, and both move on. */
  ghost predicate ServerUnderstands(env: Env, w: World, op: Op, v: View, text: bytes) {
    && |text| >= 1
    && ServerPcAction(v.sp) == Receives(ENVELOPE_LEN + |text|)
    && ServerGot(v.sp, text).Some?
    && !ClientSent(v.cp).CIdle? && !ClientSent(v.cp).CDone?
    && InOp(env, w, op, View(ClientSent(v.cp), v.local, v.messages + 1, ServerGot(v.sp, text).value, v.dir))
  }

  ghost predicate ClientUnderstands(env: Env, w: World, op: Op, v: View, text: bytes) {
    && |text| >= 1 && ENVELOPE_LEN + |text| <= MAX_INT
    && ClientPcAction(v.cp, true) == Receives(ENVELOPE_LEN + |text|)
    && !v.cp.CLoWait? && !ClientGot(v.cp, text).CIdle? && !ClientGot(v.cp, text).CDone?
    && InOp(env, w, op, View(ClientGot(v.cp, text), v.local, v.messages + 1, ServerSent(v.sp), v.dir))
  }

  lemma ClientAsksList(env: Env, w: World, v: View, r: Rnd)
    requires InList(env, w, v) && v.cp.CListAsk? && ValidRnd(r)
    ensures ServerUnderstands(env, w, List, v, ClientText(v.cp, r))
  {
    hide LE32, FromLE32, CString, ValidName;
  }

  lemma ClientAsksDownload(env: Env, w: World, name: Name, v: View, r: Rnd)
    requires InDownload(w, name, v) && v.cp.CDlAsk? && ValidRnd(r)
    ensures ServerUnderstands(env, w, Download(name), v, ClientText(v.cp, r))
  {
    hide LE32, FromLE32, CString, ValidName;
    NamedRoundTrip(DOWNLOAD_REQUEST, name, r.tail[..35]);
  }

  lemma ClientAsksRename(env: Env, w: World, oldName: Name, newName: Name, v: View, r: Rnd)
    requires InRename(w, oldName, newName, v) && v.cp.CRnAsk? && ValidRnd(r)
    ensures ServerUnderstands(env, w, Rename(oldName, newName), v, ClientText(v.cp, r))
  {
    hide LE32, FromLE32, CString, ValidName;
    RenameRoundTrip(oldName, newName);
  }

  lemma ClientAsksDelete(env: Env, w: World, name: Name, confirm: bool, v: View, r: Rnd)
    requires InDelete(w, name, confirm, v) && v.cp.CDelAsk? && ValidRnd(r)
    ensures ServerUnderstands(env, w, Delete(name, confirm), v, ClientText(v.cp, r))
  {
    hide LE32, FromLE32, CString, ValidName;
    NamedRoundTrip(DELETE_REQUEST, name, r.tail[..35]);
  }

  lemma ClientAsksLogout(env: Env, w: World, v: View, r: Rnd)
    requires InLogout(w, v) && v.cp.CLoAsk? && ValidRnd(r)
    ensures ServerUnderstands(env, w, Logout, v, ClientText(v.cp, r))
  {
    hide LE32, FromLE32, CString, ValidName;
  }

  lemma ClientSendsUploadRequest(env: Env, w: World, name: Name, v: View, r: Rnd)
    requires InUpload(w, name, v) && v.cp.CUpAsk? && ValidRnd(r)
    ensures ServerUnderstands(env, w, Upload(name), v, ClientText(v.cp, r))
  {
    hide LE32, FromLE32, CString, ValidName;
    UploadRoundTrip(name, AnnouncedUpload(|w.local[name]|), r.tail[..31]);
  }

  lemma ClientSendsChunk(env: Env, w: World, name: Name, v: View, r: Rnd)
    requires InUpload(w, name, v) && v.cp.CUpChunk? && SettledServer(v.sp) && ValidRnd(r)
    ensures ServerUnderstands(env, w, Upload(name), v, ClientText(v.cp, r))
  {
    hide LE32, FromLE32, CString, ValidName;
    var content, i := w.local[name], v.cp.i;
    assert UploadAt(w, name, i, v);
    var text := EncPayload(UPLOAD_CHUNK, Chunk(content, i));
    assert text[1..] == Chunk(content, i);
    assert UploadGot(w, name, i, View(ClientSent(v.cp), v.local, v.messages + 1, SUpGotChunk(name, |content|, i, text[1..]), v.dir));
  }

  lemma ClientSendsAnswer(env: Env, w: World, name: Name, confirm: bool, v: View, r: Rnd)
    requires InDelete(w, name, confirm, v) && v.cp.CDelAnswer? && ValidRnd(r)
    ensures ServerUnderstands(env, w, Delete(name, confirm), v, ClientText(v.cp, r))
  {
    hide LE32, FromLE32, CString, ValidName;
  }

  lemma ClientSendsOp(env: Env, w: World, op: Op, v: View, r: Rnd)
    requires InOp(env, w, op, v) && SettledServer(v.sp) && ValidRnd(r)
    requires ClientPcAction(v.cp, true) == Sends
    ensures ServerUnderstands(env, w, op, v, ClientText(v.cp, r))
  {
    hide ServerUnderstands, ClientText;
    if v.cp.CUpAsk? {
      ClientSendsUploadRequest(env, w, op.name, v, r);
    } else if v.cp.CUpChunk? {
      ClientSendsChunk(env, w, op.name, v, r);
    } else if v.cp.CDelAnswer? {
      ClientSendsAnswer(env, w, op.name, op.confirm, v, r);
    } else {
      match op
      case List => ClientAsksList(env, w, v, r);
      case Download(name) => ClientAsksDownload(env, w, name, v, r);
      case Upload(_) =>
      case Rename(oldName, newName) => ClientAsksRename(env, w, oldName, newName, v, r);
      case Delete(name, confirm) => ClientAsksDelete(env, w, name, confirm, v, r);
      case Logout => ClientAsksLogout(env, w, v, r);
    }
  }

  lemma ServerAnnouncesList(env: Env, w: World, v: View, r: Rnd)
    requires InList(env, w, v) && v.sp.SListSend2? && SettledClient(v.cp) && ValidRnd(r)
    requires InReach(env, w, List)
    ensures ClientUnderstands(env, w, List, v, ServerText(v.sp, r))
  {
    hide LE32, FromLE32, Join, ListSize;
    var files := Join(env.Entries(w.dir.Keys));
    var size := if files == [] then 0 else |files| + 1;
    assert ListSize(files) == size;
    SizedRoundTrip(LIST_ACK, size);
  }

  lemma ServerSendsNames(env: Env, w: World, v: View, r: Rnd)
    requires InList(env, w, v) && v.sp.SListSend3? && SettledClient(v.cp) && ValidRnd(r)
    requires InReach(env, w, List)
    ensures ClientUnderstands(env, w, List, v, ServerText(v.sp, r))
  {
    hide LE32, FromLE32, Join, ListSize;
    var files := Join(env.Entries(w.dir.Keys));
    assert ListSize(files) == |files| + 1 && (files + [0])[..|files| + 1] == files + [0];
    assert ServerText(v.sp, r)[1..] == files + [0];
  }

  lemma ServerSendsDownload(env: Env, w: World, name: Name, v: View, r: Rnd)
    requires InDownload(w, name, v) && (v.sp.SDlSend2? || v.sp.SDlChunk?) && SettledClient(v.cp) && ValidRnd(r)
    ensures ClientUnderstands(env, w, Download(name), v, ServerText(v.sp, r))
  {
    hide LE32, FromLE32, ValidName;
    var content := if name in w.dir then w.dir[name] else [];
    var text := ServerText(v.sp, r);
    if v.sp.SDlSend2? {
      SizedRoundTrip(v.sp.code, v.sp.size);
    } else {
      assert text[1..] == Chunk(content, v.sp.i);
    }
  }

  lemma ServerSendsUpload(env: Env, w: World, name: Name, v: View, r: Rnd)
    requires InUpload(w, name, v) && (v.sp.SUpSend2? || v.sp.SUpSendEnd?) && SettledClient(v.cp) && ValidRnd(r)
    ensures ClientUnderstands(env, w, Upload(name), v, ServerText(v.sp, r))
  {
    hide LE32, FromLE32, ValidName;
  }

  lemma ServerSendsRename(env: Env, w: World, oldName: Name, newName: Name, v: View, r: Rnd)
    requires InRename(w, oldName, newName, v) && v.sp.SRnSend? && SettledClient(v.cp) && ValidRnd(r)
    ensures ClientUnderstands(env, w, Rename(oldName, newName), v, ServerText(v.sp, r))
  {
    hide LE32, FromLE32, ValidName;
  }

  lemma ServerAsksDelete(env: Env, w: World, name: Name, confirm: bool, v: View, r: Rnd)
    requires InDelete(w, name, confirm, v) && v.sp.SDelSend2? && SettledClient(v.cp) && ValidRnd(r)
    ensures ClientUnderstands(env, w, Delete(name, confirm), v, ServerText(v.sp, r))
  {
    hide LE32, FromLE32, ValidName;
    assert v.cp == CDelWait2(confirm) && ServerSent(v.sp) == SDelWait3(name);
  }

  lemma ServerEndsDelete(env: Env, w: World, name: Name, confirm: bool, v: View, r: Rnd)
    requires InDelete(w, name, confirm, v) && v.sp.SDelSend4? && SettledClient(v.cp) && ValidRnd(r)
    ensures ClientUnderstands(env, w, Delete(name, confirm), v, ServerText(v.sp, r))
  {
    hide LE32, FromLE32, ValidName;
    assert v.cp == CDelWait4 && ServerSent(v.sp) == SMain;
  }

  lemma ServerSendsOp(env: Env, w: World, op: Op, v: View, r: Rnd)
    requires InOp(env, w, op, v) && SettledClient(v.cp) && ValidRnd(r) && InReach(env, w, op)
    requires ServerPcAction(v.sp) == Sends && !v.sp.SLoSend?
    ensures ClientUnderstands(env, w, op, v, ServerText(v.sp, r))
  {
    hide ClientUnderstands, ServerText;
    match op
    case List =>
      if v.sp.SListSend2? {
        ServerAnnouncesList(env, w, v, r);
      } else {
        ServerSendsNames(env, w, v, r);
      }
    case Download(name) => ServerSendsDownload(env, w, name, v, r);
    case Upload(name) => ServerSendsUpload(env, w, name, v, r);
    case Rename(oldName, newName) => ServerSendsRename(env, w, oldName, newName, v, r);
    case Delete(name, confirm) =>
      if v.sp.SDelSend2? {
        ServerAsksDelete(env, w, name, confirm, v, r);
      } else {
        ServerEndsDelete(env, w, name, confirm, v, r);
      }
    case Logout =>
  }

  /** In a matched, settled place one party sends and the other waits. */
  lemma SomeoneSends(env: Env, w: World, op: Op, v: View)
    requires InOp(env, w, op, v) && SettledClient(v.cp) && SettledServer(v.sp)
    ensures ClientPcAction(v.cp, true) == Sends <==> ServerPcAction(v.sp).Receives?
    ensures ServerPcAction(v.sp) == Sends <==> ClientPcAction(v.cp, true).Receives?
    ensures ClientPcAction(v.cp, true) == Sends || ServerPcAction(v.sp) == Sends
    ensures !v.cp.CIdle? && !v.cp.CDone?
  {
  }

  // ---- One operation message, with its envelope and counters ----

  lemma IndexStep(index: nat)
    ensures (index + 1) % U32_RANGE == if index % U32_RANGE == MAX_COUNTER_VALUE then 0 else index % U32_RANGE + 1
  {
  }

  lemma MessageMatched(n: Session, c: ClientState, s: ServerState, c1: ClientState, s1: ServerState)
    requires History(n, c) && |c.done| < |n.ops| && !c.pc.CDone? && !c1.pc.CIdle? && !c1.pc.CDone?
    requires c1.done == c.done && c1.todo == c.todo && c1.index == c.index + 1 && c1.messages == c.messages + 1
    requires InOp(n.env, WorldAfter(n, |c.done|), n.ops[|c.done|], ViewOf(c1, s1))
    ensures Matched(n, c1, s1)
  {
    hide InOp, Atomic;
  }

  lemma ResumeFrame(env: Env, c: ClientState, s: ServerState)
    ensures var c' := ClientResume(c);
            && c'.auth == c.auth && c'.counter == c.counter && c'.key == c.key && c'.user == c.user
            && c'.index == c.index && c'.rejected == c.rejected
    ensures var s' := ServerResume(env, s);
            && s'.auth == s.auth && s'.counter == s.counter && s'.key == s.key && s'.user == s.user
            && s'.index == s.index && s'.rejected == s.rejected
  {
  }

  lemma ResumeGood(n: Session, c: ClientState, s: ServerState)
    requires Runnable(n) && Matched(n, c, s) && !c.pc.CDone?
    requires c.auth == CNoAuth && s.auth == SNoAuth && c.key == s.key && c.user == n.user && s.user == n.user
    requires c.index == s.index && c.counter == s.counter == c.index % U32_RANGE && !c.rejected && !s.rejected
    ensures Good(n, ClientResume(c), ServerResume(n.env, s))
  {
    hide InOp, Atomic;
    ResumeMatched(n, c, s);
    ResumeFrame(n.env, c, s);
  }

  lemma IncrementResumes(env: Env, c: ClientState, s: ServerState, cp: ClientPc, sp: ServerPc)
    requires c.counter == s.counter != MAX_COUNTER_VALUE
    ensures ClientIncrement(c, cp)
         == ClientResume(c.(pc := cp, messages := c.messages + 1, index := c.index + 1, counter := c.counter + 1))
    ensures ServerIncrement(env, s, sp) == ServerResume(env, s.(pc := sp, index := s.index + 1, counter := s.counter + 1))
  {
    hide ClientResume, ServerResume;
  }

  /** Both sides move their counters past a message; at the maximum both enter the handshake. */
  lemma IncrementGood(n: Session, c: ClientState, s: ServerState, cp: ClientPc, sp: ServerPc)
    requires Runnable(n) && Good(n, c, s) && c.auth == CNoAuth && |c.done| < |n.ops| && !c.pc.CDone?
    requires !cp.CIdle? && !cp.CDone?
    requires InOp(n.env, WorldAfter(n, |c.done|), n.ops[|c.done|], View(cp, c.local, c.messages + 1, sp, s.dir))
    ensures Good(n, ClientIncrement(c, cp), ServerIncrement(n.env, s, sp))
  {
    hide InOp, Atomic, InReach, ClientContinue, ServerContinue;
    IndexStep(c.index);
    if c.counter == MAX_COUNTER_VALUE {
      MessageMatched(n, c, s, ClientIncrement(c, cp), ServerIncrement(n.env, s, sp));
    } else {
      var c1 := c.(pc := cp, messages := c.messages + 1, index := c.index + 1, counter := c.counter + 1);
      var s1 := s.(pc := sp, index := s.index + 1, counter := s.counter + 1);
      MessageMatched(n, c, s, c1, s1);
      IncrementResumes(n.env, c, s, cp, sp);
      ResumeGood(n, c1, s1);
    }
  }

  /** A counted packet carries the sender's counter, the low 32 bits of its index, and moves the index on. */
  predicate Tagged(p: Packet, index: nat, counter: u32, index': nat) {
    match p
    case Counted(i, frame) =>
      && i == index && index' == index + 1
      && |frame| >= ENVELOPE_LEN && CounterOf(frame) == counter == index % U32_RANGE
    case Uncounted(_) => index' == index
  }

  lemma ClientIncrementIndex(c: ClientState, cp: ClientPc)
    ensures ClientIncrement(c, cp).index == c.index + 1
  {
    hide ClientContinue;
  }

  lemma ServerIncrementIndex(env: Env, s: ServerState, sp: ServerPc)
    ensures ServerIncrement(env, s, sp).index == s.index + 1
  {
    hide ServerContinue, Apply;
  }

  lemma ServerTakes(env: Env, s: ServerState, frame: bytes, text: bytes)
    requires s.auth == SNoAuth && ServerPcAction(s.pc) == Receives(|frame|) && |frame| >= ENVELOPE_LEN
    requires Accept(env, s.key, s.counter, frame) == Some(text) && |text| >= 1 && ServerGot(s.pc, text).Some?
    ensures ServerAction(s) == Receives(|frame|)
    ensures ServerReceive(env, s, frame) == ServerIncrement(env, s, ServerGot(s.pc, text).value)
  {
  }

  lemma ClientTakes(env: Env, c: ClientState, frame: bytes, text: bytes)
    requires c.auth == CNoAuth && ClientPcAction(c.pc, true) == Receives(|frame|) && ENVELOPE_LEN <= |frame| <= MAX_INT
    requires Accept(env, c.key, c.counter, frame) == Some(text) && |text| >= 1 && !c.pc.CLoWait?
    ensures ClientAction(c) == Receives(|frame|)
    ensures ClientReceive(env, c, frame) == ClientIncrement(c, ClientGot(c.pc, text))
  {
  }

  lemma InProgress(n: Session, c: ClientState, s: ServerState)
    requires Runnable(n) && Good(n, c, s) && c.auth == CNoAuth && !c.pc.CIdle? && !c.pc.CDone?
    ensures |c.done| < |n.ops| && InOp(n.env, WorldAfter(n, |c.done|), n.ops[|c.done|], ViewOf(c, s))
    ensures InReach(n.env, WorldAfter(n, |c.done|), n.ops[|c.done|])
    ensures SettledClient(c.pc) && SettledServer(s.pc) && c.key == s.key && c.counter == s.counter && s.auth == SNoAuth
    ensures c.index == s.index && c.counter == c.index % U32_RANGE
    ensures SealOpens(n.env)
  {
    hide InOp, Atomic, InReach;
  }

  lemma SenderInProgress(n: Session, c: ClientState, s: ServerState)
    requires Good(n, c, s) && c.auth == CNoAuth && ServerAction(s) == Sends
    ensures !c.pc.CIdle? && !c.pc.CDone?
  {
    hide InOp, History;
  }

  lemma ClientSendIs(env: Env, c: ClientState, r: Rnd)
    requires ValidRnd(r) && c.auth == CNoAuth
    ensures ClientSend(env, c, r)
         == ClientOutput(Counted(c.index, Wrap(env, c.key, r.iv, c.counter, ClientText(c.pc, r))), ClientIncrement(c, ClientSent(c.pc)))
  {
  }

  lemma ServerSendIs(env: Env, s: ServerState, r: Rnd)
    requires ValidRnd(r) && s.auth == SNoAuth && !s.pc.SLoSend?
    ensures ServerSend(env, s, r)
         == ServerOutput(Counted(s.index, Wrap(env, s.key, r.iv, s.counter, ServerText(s.pc, r))), ServerIncrement(env, s, ServerSent(s.pc)))
  {
  }

  lemma OpClientSends(n: Session, c: ClientState, s: ServerState, r: Rnd)
    requires Runnable(n) && Good(n, c, s) && ValidRnd(r)
    requires c.auth == CNoAuth && ClientAction(c) == Sends
    ensures var ClientOutput(p, c') := ClientSend(n.env, c, r);
            && p.Counted? && Tagged(p, c.index, c.counter, c'.index) && ServerAction(s) == Receives(|p.frame|)
            && Good(n, c', ServerReceive(n.env, s, p.frame))
  {
    hide InOp, Atomic, InReach, ClientSend, ServerReceive, ClientText, Wrap, ClientIncrement, ServerIncrement, ServerGot, CounterOf, Accept, Good;
    InProgress(n, c, s);
    var text := ClientText(c.pc, r);
    var frame := Wrap(n.env, c.key, r.iv, c.counter, text);
    ClientSendsOp(n.env, WorldAfter(n, |c.done|), n.ops[|c.done|], ViewOf(c, s), r);
    WrapAccepted(n.env, c.key, r.iv, c.counter, text);
    ServerTakes(n.env, s, frame, text);
    ClientIncrementIndex(c, ClientSent(c.pc));
    IncrementGood(n, c, s, ClientSent(c.pc), ServerGot(s.pc, text).value);
    ClientSendIs(n.env, c, r);
  }

  lemma OpServerSends(n: Session, c: ClientState, s: ServerState, r: Rnd)
    requires Runnable(n) && Good(n, c, s) && ValidRnd(r)
    requires c.auth == CNoAuth && ServerAction(s) == Sends && !s.pc.SLoSend?
    ensures var ServerOutput(p, s') := ServerSend(n.env, s, r);
            && p.Counted? && Tagged(p, s.index, s.counter, s'.index) && ClientAction(c) == Receives(|p.frame|)
            && Good(n, ClientReceive(n.env, c, p.frame), s')
  {
    hide InOp, Atomic, InReach, ServerSend, ClientReceive, ServerText, Wrap, ClientIncrement, ServerIncrement, ClientGot, CounterOf, Accept, Good;
    SenderInProgress(n, c, s);
    InProgress(n, c, s);
    var text := ServerText(s.pc, r);
    var frame := Wrap(n.env, s.key, r.iv, s.counter, text);
    ServerSendsOp(n.env, WorldAfter(n, |c.done|), n.ops[|c.done|], ViewOf(c, s), r);
    WrapAccepted(n.env, s.key, r.iv, s.counter, text);
    ClientTakes(n.env, c, frame, text);
    ServerIncrementIndex(n.env, s, ServerSent(s.pc));
    IncrementGood(n, c, s, ClientGot(c.pc, text), ServerSent(s.pc));
    ServerSendIs(n.env, s, r);
  }

  lemma ClientTakesLogout(env: Env, c: ClientState, frame: bytes, text: bytes)
    requires c.auth == CNoAuth && c.pc.CLoWait? && |frame| == ENVELOPE_LEN + MAX_PACKET_SIZE
    requires Accept(env, c.key, c.counter, frame) == Some(text) && |text| >= 1 && text[0] == ACK && c.messages == 1
    ensures ClientReceive(env, c, frame) == Finish(c.(messages := 2), Finished(SUCCESS, [], 2)).(pc := CDone)
  {
  }

  lemma OnlyLogout(env: Env, w: World, op: Op, v: View)
    requires InOp(env, w, op, v) && (v.sp.SLoSend? || v.cp.CLoWait?)
    ensures op.Logout? && InLogout(w, v) && v.cp.CLoWait? && v.sp.SLoSend? && v.messages == 1
  {
    match op
    case List =>
    case Download(_) =>
    case Upload(_) =>
    case Rename(_, _) =>
    case Delete(_, _) =>
    case Logout =>
  }

  lemma LogoutPlace(n: Session, c: ClientState, s: ServerState)
    requires Runnable(n) && Good(n, c, s) && c.auth == CNoAuth && (s.pc.SLoSend? || c.pc.CLoWait?)
    ensures |c.done| < |n.ops| && n.ops[|c.done|].Logout? && InLogout(WorldAfter(n, |c.done|), ViewOf(c, s))
    ensures c.pc.CLoWait? && s.pc.SLoSend? && c.messages == 1 && |c.done| + 1 == |n.ops|
  {
    hide Atomic, InReach, InOp;
    OnlyLogout(n.env, WorldAfter(n, |c.done|), n.ops[|c.done|], ViewOf(c, s));
  }

  lemma LogoutHistory(n: Session, c: ClientState)
    requires History(n, c) && |c.done| < |n.ops| && n.ops[|c.done|].Logout? && c.messages == 1 && !c.pc.CDone?
    ensures History(n, Finish(c.(messages := 2), Finished(SUCCESS, [], 2)).(pc := CDone))
    ensures WorldAfter(n, |c.done| + 1) == WorldAfter(n, |c.done|)
  {
    var k := |c.done|;
    assert Atomic(n.env, WorldAfter(n, k), n.ops[k]) == Result(WorldAfter(n, k), Finished(SUCCESS, [], 2));
    assert OutcomeAt(n.env, n.world, n.ops, k) == Finished(SUCCESS, [], 2);
    HistoryExtends(n, c.(messages := 2, index := c.index + 1), Finished(SUCCESS, [], 2));
  }

  lemma LogoutMatched(n: Session, c: ClientState, s: ServerState, s': ServerState)
    requires History(n, c) && |c.done| + 1 == |n.ops| && n.ops[|c.done|].Logout?
    requires InLogout(WorldAfter(n, |c.done|), ViewOf(c, s)) && c.pc.CLoWait? && s'.pc == SMain && s'.dir == s.dir
    ensures Matched(n, Finish(c.(messages := 2), Finished(SUCCESS, [], 2)).(pc := CDone), s')
  {
    hide Atomic, InOp;
    LogoutHistory(n, c);
  }

  lemma LogoutGood(n: Session, c: ClientState, s: ServerState)
    requires Runnable(n) && Good(n, c, s) && c.auth == CNoAuth && c.pc.CLoWait?
    ensures Good(n, Finish(c.(messages := 2), Finished(SUCCESS, [], 2)).(pc := CDone), s.(pc := SMain, key := Zeros(AES_KEY_LEN)))
  {
    hide InOp, Atomic, InReach;
    LogoutPlace(n, c, s);
    LogoutMatched(n, c, s, s.(pc := SMain, key := Zeros(AES_KEY_LEN)));
  }

  /** The reply to a logout is counted by neither side. */
  lemma LogoutServerSends(n: Session, c: ClientState, s: ServerState, r: Rnd)
    requires Runnable(n) && Good(n, c, s) && ValidRnd(r)
    requires c.auth == CNoAuth && s.pc.SLoSend?
    ensures var ServerOutput(p, s') := ServerSend(n.env, s, r);
            && p == Uncounted(p.frame) && s'.index == s.index && ClientAction(c) == Receives(|p.frame|)
            && Good(n, ClientReceive(n.env, c, p.frame), s')
            && ClientReceive(n.env, c, p.frame).pc.CDone? && ClientReceive(n.env, c, p.frame).auth == CNoAuth && s' == s.(pc := SMain, key := s'.key) && Blank(s'.key)
  {
    hide InOp, Atomic, InReach, Good, ClientReceive, Accept, Wrap;
    LogoutPlace(n, c, s);
    InProgress(n, c, s);
    var text := ServerText(s.pc, r);
    var frame := Wrap(n.env, s.key, r.iv, s.counter, text);
    WrapAccepted(n.env, s.key, r.iv, s.counter, text);
    ClientTakesLogout(n.env, c, frame, text);
    LogoutGood(n, c, s);
    assert ServerSend(n.env, s, r) == ServerOutput(Uncounted(frame), s.(pc := SMain, key := Zeros(AES_KEY_LEN)));
  }

  // ---- The handshake ----

  lemma AuthKeepsPlace(n: Session, c: ClientState, s: ServerState, c': ClientState, s': ServerState)
    requires Matched(n, c, s)
    requires c' == c.(auth := c'.auth, counter := c'.counter, key := c'.key)
    requires s' == s.(auth := s'.auth, counter := s'.counter, key := s'.key, user := s'.user)
    ensures Matched(n, c', s')
  {
    hide InOp, Atomic;
    assert ViewOf(c', s') == ViewOf(c, s);
  }

  lemma M1Delivered(env: Env, user: Name, c: ClientState, s: ServerState, r: Rnd)
    requires Ideal(env, user) && ValidRnd(r) && c.auth == CSend1 && s.auth == SWait1 && c.user == user
    ensures var ClientOutput(p, c') := ClientSend(env, c, r);
            && p == Uncounted(p.frame) && ServerAction(s) == Receives(|p.frame|) && c' == c.(auth := CWait2(r.secret))
            && ServerReceive(env, s, p.frame) == s.(user := user, auth := SSend2(PublicKey(env, r.secret)))
  {
    hide EncAuthM1, AuthM1User, AuthM1Key, PublicKey;
    KeyFits(env, r.secret);
    AuthM1RoundTrip(PublicKey(env, r.secret), user);
  }

  lemma M2Delivered(env: Env, c: ClientState, s: ServerState, r: Rnd, peer: bytes)
    requires ValidRnd(r) && c.auth.CWait2? && s.auth == SSend2(peer)
    ensures var ServerOutput(p, s') := ServerSend(env, s, r);
            && p == Uncounted(p.frame) && ClientAction(c) == Receives(|p.frame|) && s' == s.(auth := SSend3(peer))
            && ClientReceive(env, c, p.frame) == c.(auth := CWait3(c.auth.secret))
  {
  }

  lemma M1Good(n: Session, c: ClientState, s: ServerState, r: Rnd)
    requires Runnable(n) && Good(n, c, s) && ValidRnd(r) && c.auth == CSend1
    ensures var ClientOutput(p, c') := ClientSend(n.env, c, r);
            && p == Uncounted(p.frame) && c'.index == c.index && ServerAction(s) == Receives(|p.frame|)
            && Good(n, c', ServerReceive(n.env, s, p.frame))
  {
    hide InOp, Atomic, InReach, ClientSend, ServerReceive;
    M1Delivered(n.env, n.user, c, s, r);
    var ClientOutput(p, c') := ClientSend(n.env, c, r);
    AuthKeepsPlace(n, c, s, c', ServerReceive(n.env, s, p.frame));
  }

  lemma M2Good(n: Session, c: ClientState, s: ServerState, r: Rnd)
    requires Runnable(n) && Good(n, c, s) && ValidRnd(r) && c.auth.CWait2?
    ensures var ServerOutput(p, s') := ServerSend(n.env, s, r);
            && p == Uncounted(p.frame) && s'.index == s.index && ClientAction(c) == Receives(|p.frame|)
            && Good(n, ClientReceive(n.env, c, p.frame), s')
  {
    hide InOp, Atomic, InReach, ServerSend, ClientReceive;
    M2Delivered(n.env, c, s, r, s.auth.peer);
    var ServerOutput(p, s') := ServerSend(n.env, s, r);
    AuthKeepsPlace(n, c, s, ClientReceive(n.env, c, p.frame), s');
  }

  /** Both sides derive the same key, and the client verifies the signature over client key and server key. */
  lemma M3Delivered(env: Env, user: Name, c: ClientState, s: ServerState, r: Rnd)
    requires Ideal(env, user) && ValidRnd(r) && c.auth.CWait3? && s.auth == SSend3(PublicKey(env, c.auth.secret))
    ensures var ServerOutput(p, s') := ServerSend(env, s, r);
            var transcript := PublicKey(env, c.auth.secret) + PublicKey(env, r.secret);
            && p == Uncounted(p.frame) && ClientAction(c) == Receives(|p.frame|)
            && s'.key == SharedKey(env, c.auth.secret, r.secret)
            && s' == s.(key := s'.key, counter := 1, auth := SWait4(transcript))
            && ClientReceive(env, c, p.frame) == c.(key := s'.key, counter := 1, auth := CSend4(env.ClientSign(transcript)))
  {
    hide LE32, FromLE32, PublicKey, SessionKey, SharedKey, EncAuthM3;
    var own, peer := PublicKey(env, r.secret), PublicKey(env, c.auth.secret);
    SessionKeysAgree(env, c.auth.secret, r.secret);
    var key := SessionKey(env, r.secret, peer).value;
    var signature := env.ServerSign(peer + own);
    var sealed := env.Seal(key, r.iv, LE32(0), signature);
    LE32RoundTrip(0);
    KeyFits(env, r.secret);
    AuthM3RoundTrip(own, r.iv, LE32(0), sealed.tag, sealed.text, env.certificate);
  }

  lemma KeyFits(env: Env, secret: nat)
    requires KeysReadBack(env)
    ensures |PublicKey(env, secret)| <= EPHEMERAL_KEY_LEN
  {
  }

  lemma M3Good(n: Session, c: ClientState, s: ServerState, r: Rnd)
    requires Runnable(n) && Good(n, c, s) && ValidRnd(r) && c.auth.CWait3?
    ensures var ServerOutput(p, s') := ServerSend(n.env, s, r);
            && p == Uncounted(p.frame) && s'.index == s.index && ClientAction(c) == Receives(|p.frame|)
            && Good(n, ClientReceive(n.env, c, p.frame), s')
  {
    hide InOp, Atomic, InReach, ServerSend, ClientReceive;
    M3Delivered(n.env, n.user, c, s, r);
    var ServerOutput(p, s') := ServerSend(n.env, s, r);
    AuthKeepsPlace(n, c, s, ClientReceive(n.env, c, p.frame), s');
  }

  /** The server verifies the client's signature over the same bytes. */
  lemma M4Delivered(env: Env, user: Name, c: ClientState, s: ServerState, r: Rnd, transcript: bytes)
    requires Ideal(env, user) && ValidRnd(r) && c.auth == CSend4(env.ClientSign(transcript)) && s.auth == SWait4(transcript)
    requires c.key == s.key && c.counter == s.counter == 1 && s.user == user
    ensures var ClientOutput(p, c') := ClientSend(env, c, r);
            && p == Uncounted(p.frame) && ServerAction(s) == Receives(|p.frame|) && c' == c.(auth := CWait5, counter := 2)
            && ServerReceive(env, s, p.frame) == s.(auth := SSend5(true), counter := 2)
  {
    hide LE32, FromLE32;
    var signature := env.ClientSign(transcript);
    var sealed := env.Seal(c.key, r.iv, LE32(1), signature);
    LE32RoundTrip(1);
    AuthM4RoundTrip(r.iv, LE32(1), sealed.tag, sealed.text);
    assert ClientSend(env, c, r).packet.frame == EncAuthM4(r.iv, LE32(1), sealed.tag, sealed.text);
  }

  lemma M4Good(n: Session, c: ClientState, s: ServerState, r: Rnd)
    requires Runnable(n) && Good(n, c, s) && ValidRnd(r) && c.auth.CSend4?
    ensures var ClientOutput(p, c') := ClientSend(n.env, c, r);
            && p == Uncounted(p.frame) && c'.index == c.index && ServerAction(s) == Receives(|p.frame|)
            && Good(n, c', ServerReceive(n.env, s, p.frame))
  {
    hide InOp, Atomic, InReach, ClientSend, ServerReceive;
    M4Delivered(n.env, n.user, c, s, r, s.auth.transcript);
    var ClientOutput(p, c') := ClientSend(n.env, c, r);
    AuthKeepsPlace(n, c, s, c', ServerReceive(n.env, s, p.frame));
  }

  lemma M5Delivered(env: Env, c: ClientState, s: ServerState, r: Rnd)
    requires SealOpens(env) && ValidRnd(r)
    requires c.auth == CWait5 && s.auth == SSend5(true) && c.key == s.key && c.counter == s.counter == 2
    ensures var ServerOutput(p, s') := ServerSend(env, s, r);
            && p == Uncounted(p.frame) && s'.index == s.index && ClientAction(c) == Receives(|p.frame|)
            && s' == ServerResume(env, s.(auth := SNoAuth, counter := 0))
            && ClientReceive(env, c, p.frame) == ClientResume(c.(auth := CNoAuth, counter := 0))
  {
    WrapAccepted(env, s.key, r.iv, 2, EncSimple(ACK, r.tail));
  }

  /** The handshake ends with both counters at 0 and the interrupted command resumes. */
  lemma M5Good(n: Session, c: ClientState, s: ServerState, r: Rnd)
    requires Runnable(n) && Good(n, c, s) && ValidRnd(r) && c.auth == CWait5
    ensures var ServerOutput(p, s') := ServerSend(n.env, s, r);
            && p == Uncounted(p.frame) && s'.index == s.index && ClientAction(c) == Receives(|p.frame|)
            && Good(n, ClientReceive(n.env, c, p.frame), s')
  {
    hide InOp, Atomic, InReach;
    M5Delivered(n.env, c, s, r);
    var c1, s1 := c.(auth := CNoAuth, counter := 0), s.(auth := SNoAuth, counter := 0);
    AuthKeepsPlace(n, c, s, c1, s1);
    ResumeGood(n, c1, s1);
  }

  // ---- The three kinds of joint step ----

  /** Good parties have counted the same messages; outside a handshake their counters are equal. */
  lemma GoodIndices(n: Session, c: ClientState, s: ServerState)
    requires Good(n, c, s)
    ensures c.index == s.index && (c.auth == CNoAuth <==> s.auth == SNoAuth)
    ensures c.auth == CNoAuth ==> c.counter == s.counter == c.index % U32_RANGE
  {
    hide Matched;
  }

  /** The next message for the client advances its counter: no handshake is running and it is not the logout reply. */
  predicate AwaitsCounted(c: ClientState) {
    c.auth == CNoAuth && !c.pc.CLoWait?
  }

  lemma ClientSendGood(n: Session, c: ClientState, s: ServerState, r: Rnd)
    requires Runnable(n) && Good(n, c, s) && ValidRnd(r) && ClientAction(c) == Sends
    ensures var ClientOutput(p, c') := ClientSend(n.env, c, r);
            && ServerAction(s) == Receives(|p.frame|) && (p.Counted? <==> s.auth == SNoAuth)
            && Tagged(p, s.index, s.counter, ServerReceive(n.env, s, p.frame).index)
            && Good(n, c', ServerReceive(n.env, s, p.frame))
  {
    hide Atomic, InOp, InReach, ClientSend, ServerReceive, AuthMatched;
    GoodIndices(n, c, s);
    match c.auth
    case CSend1 => M1Good(n, c, s, r);
    case CSend4(_) => M4Good(n, c, s, r);
    case _ => OpClientSends(n, c, s, r);
  }

  lemma ServerSendGood(n: Session, c: ClientState, s: ServerState, r: Rnd)
    requires Runnable(n) && Good(n, c, s) && ValidRnd(r) && ServerAction(s) == Sends
    ensures var ServerOutput(p, s') := ServerSend(n.env, s, r);
            && ClientAction(c) == Receives(|p.frame|) && (p.Counted? <==> AwaitsCounted(c))
            && Tagged(p, c.index, c.counter, ClientReceive(n.env, c, p.frame).index)
            && Good(n, ClientReceive(n.env, c, p.frame), s')
  {
    hide Atomic, InOp, InReach, ServerSend, ClientReceive;
    GoodIndices(n, c, s);
    if c.auth == CNoAuth && (s.pc.SLoSend? || c.pc.CLoWait?) {
      LogoutPlace(n, c, s);
    }
    if s.auth.SSend2? {
      M2Good(n, c, s, r);
    } else if s.auth.SSend3? {
      M3Good(n, c, s, r);
    } else if s.auth.SSend5? {
      M5Good(n, c, s, r);
    } else if s.pc.SLoSend? {
      LogoutServerSends(n, c, s, r);
    } else {
      OpServerSends(n, c, s, r);
    }
  }

  /** A command either starts its conversation or is refused with its atomic outcome. */
  ghost predicate Begun(env: Env, w: World, c: ClientState, s: ServerState)
    requires c.todo != []
  {
    var c' := ClientBegin(c, s.dir);
    if c'.pc.CIdle? then
      && !c.todo[0].Logout? && c' == Finish(c, Atomic(env, w, c.todo[0]).outcome) && Messages(Atomic(env, w, c.todo[0]).outcome) == 0
      && Atomic(env, w, c.todo[0]).world == w
    else
      c' == c.(pc := c'.pc) && !c'.pc.CDone? && SettledClient(c'.pc) && InOp(env, w, c.todo[0], ViewOf(c', s))
  }

  lemma BeginDownload(env: Env, w: World, name: Name, c: ClientState, s: ServerState)
    requires c.todo != [] && c.todo[0] == Download(name)
    requires c.pc.CIdle? && AtRest(w, ViewOf(c, s)) && InReach(env, w, c.todo[0])
    ensures Begun(env, w, c, s)
  {
    hide ValidName, Join;
  }

  lemma BeginUpload(env: Env, w: World, name: Name, c: ClientState, s: ServerState)
    requires c.todo != [] && c.todo[0] == Upload(name)
    requires c.pc.CIdle? && AtRest(w, ViewOf(c, s)) && InReach(env, w, c.todo[0])
    ensures Begun(env, w, c, s)
  {
    hide ValidName, Join;
  }

  lemma BeginList(env: Env, w: World, c: ClientState, s: ServerState)
    requires c.todo != [] && c.todo[0].List?
    requires c.pc.CIdle? && AtRest(w, ViewOf(c, s)) && InReach(env, w, c.todo[0])
    ensures Begun(env, w, c, s)
  {
    hide ValidName, Join;
  }

  lemma BeginShort(env: Env, w: World, c: ClientState, s: ServerState)
    requires c.todo != [] && (c.todo[0].Rename? || c.todo[0].Delete? || c.todo[0].Logout?)
    requires c.pc.CIdle? && AtRest(w, ViewOf(c, s)) && InReach(env, w, c.todo[0])
    ensures Begun(env, w, c, s)
  {
    hide ValidName;
  }

  lemma BeginMatches(env: Env, w: World, c: ClientState, s: ServerState)
    requires c.todo != [] && c.pc.CIdle? && AtRest(w, ViewOf(c, s)) && InReach(env, w, c.todo[0])
    ensures Begun(env, w, c, s)
  {
    hide Begun, AtRest, InReach;
    match c.todo[0]
    case Download(name) => BeginDownload(env, w, name, c, s);
    case Upload(name) => BeginUpload(env, w, name, c, s);
    case List => BeginList(env, w, c, s);
    case _ => BeginShort(env, w, c, s);
  }

  lemma RefusedGood(n: Session, c: ClientState, s: ServerState, outcome: Outcome)
    requires Good(n, c, s) && c.auth == CNoAuth && c.pc.CIdle? && |c.done| < |n.ops|
    requires !n.ops[|c.done|].Logout?
    requires outcome == OutcomeAt(n.env, n.world, n.ops, |c.done|) && Messages(outcome) == 0
    requires WorldAfter(n, |c.done| + 1) == WorldAfter(n, |c.done|)
    ensures Good(n, Finish(c, outcome), s)
  {
    hide Atomic, InOp;
    FinishMatched(n, c, s, outcome);
  }

  lemma AskingGood(n: Session, c: ClientState, s: ServerState, cp: ClientPc)
    requires Good(n, c, s) && c.auth == CNoAuth && c.pc.CIdle? && |c.done| < |n.ops|
    requires !cp.CIdle? && !cp.CDone? && SettledClient(cp)
    requires InOp(n.env, WorldAfter(n, |c.done|), n.ops[|c.done|], ViewOf(c.(pc := cp), s))
    ensures Good(n, c.(pc := cp), s)
  {
    hide Atomic, InOp;
  }

  lemma BeginGood(n: Session, c: ClientState, s: ServerState)
    requires c.todo != [] && ClientAction(c) == Begins && Runnable(n) && Good(n, c, s)
    ensures Good(n, ClientBegin(c, s.dir), s)
  {
    hide InOp, Atomic, InReach;
    var k := |c.done|;
    assert InReach(n.env, WorldAfter(n, k), n.ops[k]);
    BeginMatches(n.env, WorldAfter(n, k), c, s);
    var cp := ClientBegin(c, s.dir).pc;
    if cp.CIdle? {
      RefusedGood(n, c, s, OutcomeAt(n.env, n.world, n.ops, k));
    } else {
      AskingGood(n, c, s, cp);
    }
  }

  /** A matched pair is never stuck: someone sends, the user begins a command, or the session is over. */
  lemma Turn(n: Session, c: ClientState, s: ServerState)
    requires Runnable(n) && Good(n, c, s)
    ensures ClientAction(c) == Sends || ServerAction(s) == Sends || ClientAction(c) == Begins
         || (s.pc == SMain && s.auth == SNoAuth && c.auth == CNoAuth && |c.done| == |n.ops| && (c.pc.CIdle? || c.pc.CDone?))
  {
    hide Atomic, InOp, InReach;
    if c.auth == CNoAuth && !c.pc.CIdle? && !c.pc.CDone? {
      SomeoneSends(n.env, WorldAfter(n, |c.done|), n.ops[|c.done|], ViewOf(c, s));
    }
  }
}
