/** The rendezvous semantics: if every message were received as it is sent, the two parties would stay in
    matching places of the same conversation, with equal counters and keys, and produce the atomic outcomes. */
module Lockstep {
  import opened Config
  import opened Bytes
  import opened Chunks
  import opened Codecs
  import opened Listing
  import opened Env
  import opened Store
  import opened Protocol

  /** One user's session: the foreign parts, the initial files and the commands. */
  datatype Session = Session(env: Env, user: Name, world: World, ops: seq<Op>)

  ghost predicate Runnable(n: Session) {
    && Ideal(n.env, n.user)
    && Listable(n.world.dir)
    && (forall k :: 0 <= k < |n.ops| ==> InReach(n.env, WorldAt(n.env, n.world, n.ops, k), n.ops[k]))
    && (forall k :: 0 <= k < |n.ops| - 1 ==> !n.ops[k].Logout?)
  }

  function WorldAfter(n: Session, k: nat): World
    requires k <= |n.ops|
  {
    WorldAt(n.env, n.world, n.ops, k)
  }

  function InitialClient(n: Session): ClientState {
    ClientState(n.user, CIdle, CSend1, 0, [], n.world.local, n.ops, [], 0, 0, false)
  }

  function InitialServer(n: Session): ServerState {
    ServerState([], SMain, SWait1, 0, [], n.world.dir, 0, false)
  }

  /** The commands finished so far had exactly their atomic outcomes. */
  ghost predicate History(n: Session, c: ClientState) {
    && |c.done| <= |n.ops|
    && c.todo == n.ops[|c.done|..]
    && c.done == Outcomes(n.env, n.world, n.ops, |c.done|)
    && c.index + (if c.pc.CDone? then 1 else 0) == MessagesBefore(n.env, n.world, n.ops, |c.done|) + c.messages
  }

  predicate SizeOf(content: bytes, size: u32) {
    size == |content|
  }

  /** What the place in a command is about. */
  datatype View = View(cp: ClientPc, local: Dir, messages: nat, sp: ServerPc, dir: Dir)

  function ViewOf(c: ClientState, s: ServerState): View {
    View(c.pc, c.local, c.messages, s.pc, s.dir)
  }

  ghost predicate InList(env: Env, w: World, v: View) {
    var files := Join(env.Entries(w.dir.Keys));
    var size := if files == [] then 0 else |files| + 1;
    && v.dir == w.dir && v.local == w.local
    && match v.cp
       case CListAsk => v.sp == SMain && v.messages == 0
       case CListWait2 => (v.sp == SListGot || v.sp == SListSend2(files)) && v.messages == 1
       case CListGot2(code, size') =>
         code == LIST_ACK && size' == size && v.messages == 2 && v.sp == if files == [] then SMain else SListSend3(files)
       case CListWait3(size') => size' == size && files != [] && v.sp == SListSend3(files) && v.messages == 2
       case CListGot3(code, text) =>
         code == LIST_RESPONSE && files != [] && text == files + [0] && v.sp == SMain && v.messages == 3
       case _ => false
  }

  ghost predicate InDownload(w: World, name: Name, v: View) {
    var content := if name in w.dir then w.dir[name] else [];
    var chunks := ChunksNum(|content|);
    && v.dir == w.dir && ValidName(name) && name !in w.local && |content| < U32_RANGE
    && match v.cp
       case CDlAsk(name') => name' == name && v.sp == SMain && v.messages == 0 && v.local == w.local
       case CDlWait2(name') =>
         && name' == name && v.messages == 1 && v.local == w.local
         && (v.sp == SDlGot(name)
             || v.sp == SDlSend2(if name in w.dir then DOWNLOAD_ACK else FILE_NOT_FOUND_CODE, |content|, content))
       case CDlGot2(name', code, size) =>
         && name' == name && v.messages == 2 && v.local == w.local
         && code == (if name in w.dir then DOWNLOAD_ACK else FILE_NOT_FOUND_CODE) && SizeOf(content, size)
         && v.sp == if content == [] then SMain else SDlChunk(content, 0)
       case CDlWaitChunk(name', size, i) =>
         && name' == name && name in w.dir && SizeOf(content, size) && i < chunks && v.messages == 2 + i
         && v.local == w.local[name := Prefix(content, i)] && v.sp == SDlChunk(content, i)
       case CDlGotChunk(name', size, i, code, chunk) =>
         && name' == name && name in w.dir && SizeOf(content, size) && i < chunks && v.messages == 3 + i
         && code == DOWNLOAD_CHUNK && chunk == Chunk(content, i)
         && v.local == w.local[name := Prefix(content, i)]
         && v.sp == if i + 1 < chunks then SDlChunk(content, i + 1) else SMain
       case _ => false
  }

  ghost predicate InUpload(w: World, name: Name, v: View) {
    && ValidName(name) && name in w.local && v.local == w.local
    && var content := w.local[name];
    && var chunks := ChunksNum(|content|);
    && 0 < |content| < MAX_FILE_SIZE
    && match v.cp
       case CUpAsk(name', content') => name' == name && content' == content && v.sp == SMain && v.messages == 0 && v.dir == w.dir
       case CUpWait2(content') =>
         && content' == content && v.messages == 1 && v.dir == w.dir
         && (v.sp == SUpGot(name, |content|) || v.sp == SUpSend2(name, |content|, if name in w.dir then NACK else ACK))
       case CUpGot2(content', code) =>
         && content' == content && v.messages == 2 && v.dir == w.dir
         && code == (if name in w.dir then NACK else ACK) && v.sp == SUpSent2(name, |content|, code)
       case CUpChunk(content', i) =>
         && content' == content && name !in w.dir && i < chunks && v.messages == 2 + i
         && (UploadAt(w, name, i, v) || (i > 0 && UploadGot(w, name, i - 1, v)))
       case CUpWaitEnd =>
         && name !in w.dir && v.messages == 2 + chunks
         && (UploadGot(w, name, chunks - 1, v) || (v.sp == SUpSendEnd && v.dir == w.dir[name := content]))
       case CUpGotEnd(code) =>
         code == ACK && name !in w.dir && v.messages == 3 + chunks && v.sp == SMain && v.dir == w.dir[name := content]
       case _ => false
  }

  /** The server waits for chunk `i`; so far it has written the chunks before it. */
  ghost predicate UploadAt(w: World, name: Name, i: nat, v: View)
    requires name in w.local && |w.local[name]| < U32_RANGE
  {
    v.sp == SUpWaitChunk(name, |w.local[name]|, i) && v.dir == w.dir[name := Prefix(w.local[name], i)]
  }

  /** The server holds chunk `i`, not written yet. */
  ghost predicate UploadGot(w: World, name: Name, i: nat, v: View)
    requires name in w.local && |w.local[name]| < U32_RANGE && i < ChunksNum(|w.local[name]|)
  {
    && v.sp == SUpGotChunk(name, |w.local[name]|, i, Chunk(w.local[name], i))
    && v.dir == w.dir[name := Prefix(w.local[name], i)]
  }

  ghost predicate InRename(w: World, oldName: Name, newName: Name, v: View) {
    var code := if oldName !in w.dir then RENAME_NOT_FOUND_CODE else if newName in w.dir then RENAME_EXISTS_CODE else ACK;
    var dir := if oldName in w.dir && newName !in w.dir then Move(w.dir, oldName, newName) else w.dir;
    && ValidName(oldName) && ValidName(newName) && v.local == w.local
    && match v.cp
       case CRnAsk(o, m) => o == oldName && m == newName && v.sp == SMain && v.messages == 0 && v.dir == w.dir
       case CRnWait =>
         && v.messages == 1
         && ((v.sp == SRnGot(oldName, newName) && v.dir == w.dir) || (v.sp == SRnSend(code) && v.dir == dir))
       case CRnGot(code') => code' == code && v.sp == SMain && v.messages == 2 && v.dir == dir
       case _ => false
  }

  ghost predicate InDelete(w: World, name: Name, confirm: bool, v: View) {
    && ValidName(name) && v.local == w.local && name in w.dir
    && match v.cp
       case CDelAsk(name', confirm') => name' == name && confirm' == confirm && v.sp == SMain && v.messages == 0 && v.dir == w.dir
       case CDelWait2(confirm') => confirm' == confirm && v.sp == SDelSend2(name) && v.messages == 1 && v.dir == w.dir
       case CDelGot2(confirm', code) =>
         confirm' == confirm && code == DELETE_ASK && v.sp == SDelWait3(name) && v.messages == 2 && v.dir == w.dir
       case CDelAnswer(confirm') => confirm' == confirm && v.sp == SDelWait3(name) && v.messages == 2 && v.dir == w.dir
       case CDelSent3(confirm') =>
         && confirm' == confirm && v.messages == 3 && v.dir == w.dir
         && v.sp == SDelGot3(name, if confirm then DELETE_CONFIRM else NO_DELETE_CONFIRM_CODE)
       case CDelWait4 => confirm && v.sp == SDelSend4 && v.messages == 3 && v.dir == w.dir - {name}
       case CDelGot4(code) => confirm && code == ACK && v.sp == SMain && v.messages == 4 && v.dir == w.dir - {name}
       case _ => false
  }

  ghost predicate InLogout(w: World, v: View) {
    && v.dir == w.dir && v.local == w.local
    && match v.cp
       case CLoAsk => v.sp == SMain && v.messages == 0
       case CLoWait => v.sp == SLoSend && v.messages == 1
       case _ => false
  }

  /** Both parties are at the same place of command `op`, started in world `w`. */
  ghost predicate InOp(env: Env, w: World, op: Op, v: View) {
    match op
    case List => InList(env, w, v)
    case Download(name) => InDownload(w, name, v)
    case Upload(name) => InUpload(w, name, v)
    case Rename(oldName, newName) => InRename(w, oldName, newName, v)
    case Delete(name, confirm) => InDelete(w, name, confirm, v)
    case Logout => InLogout(w, v)
  }

  /** Between commands. */
  ghost predicate AtRest(w: World, v: View) {
    v.sp == SMain && v.dir == w.dir && v.local == w.local && v.messages == 0
  }

  ghost predicate Matched(n: Session, c: ClientState, s: ServerState) {
    && History(n, c)
    && var w := WorldAfter(n, |c.done|);
       if c.pc.CIdle? then AtRest(w, ViewOf(c, s)) && (|c.done| > 0 ==> !n.ops[|c.done| - 1].Logout?)
       else if c.pc.CDone? then AtRest(w, ViewOf(c, s)) && |c.done| == |n.ops| > 0 && n.ops[|n.ops| - 1].Logout?
       else |c.done| < |n.ops| && InOp(n.env, w, n.ops[|c.done|], ViewOf(c, s))
  }

  /** Not in the middle of incrementCounter. */
  predicate SettledClient(pc: ClientPc) {
    !pc.CListGot2? && !pc.CListGot3? && !pc.CDlGot2? && !pc.CDlGotChunk? && !pc.CUpGot2? && !pc.CUpGotEnd?
    && !pc.CRnGot? && !pc.CDelGot2? && !pc.CDelSent3? && !pc.CDelGot4?
  }

  predicate SettledServer(pc: ServerPc) {
    !pc.SListGot? && !pc.SDlGot? && !pc.SUpGot? && !pc.SUpSent2? && !pc.SUpGotChunk? && !pc.SRnGot? && !pc.SDelGot3?
  }

  ghost predicate Keyed(n: Session, c: ClientState, s: ServerState, counter: u32) {
    c.key == s.key && c.counter == s.counter == counter && s.user == n.user
  }

  ghost predicate AuthMatched(n: Session, c: ClientState, s: ServerState)
  {
    match c.auth
    case CNoAuth =>
      && s.auth == SNoAuth && SettledClient(c.pc) && SettledServer(s.pc)
      && c.counter == s.counter == c.index % U32_RANGE && s.user == n.user
      && (!c.pc.CDone? ==> c.key == s.key)
    case CSend1 => s.auth == SWait1
    case CWait2(secret) => s.auth == SSend2(PublicKey(n.env, secret)) && s.user == n.user
    case CWait3(secret) => s.auth == SSend3(PublicKey(n.env, secret)) && s.user == n.user
    case CSend4(signature) =>
      s.auth.SWait4? && signature == n.env.ClientSign(s.auth.transcript) && Keyed(n, c, s, 1)
    case CWait5 => s.auth == SSend5(true) && Keyed(n, c, s, 2)
    case CFailed(_) => false
  }

  /** The rendezvous invariant. */
  ghost predicate Good(n: Session, c: ClientState, s: ServerState)
  {
    && Matched(n, c, s)
    && AuthMatched(n, c, s)
    && c.user == n.user && c.index == s.index && !c.rejected && !s.rejected
    && (c.auth != CNoAuth ==> c.index % U32_RANGE == 0 && !c.pc.CDone?)
  }

  lemma InitialGood(n: Session)
    requires Runnable(n)
    ensures Good(n, InitialClient(n), InitialServer(n))
  {
  }

  // ---- Finishing a command ----

  lemma HistoryExtends(n: Session, c: ClientState, outcome: Outcome)
    requires |c.done| < |n.ops| && History(n, c) && !c.pc.CDone?
    requires outcome == OutcomeAt(n.env, n.world, n.ops, |c.done|) && c.messages == Messages(outcome)
    ensures History(n, Finish(c, outcome))
  {
    var d := Finish(c, outcome);
    assert d.todo == n.ops[|d.done|..];
  }

  lemma FinishMatched(n: Session, c: ClientState, s: ServerState, outcome: Outcome)
    requires |c.done| < |n.ops| && History(n, c) && !c.pc.CDone? && !n.ops[|c.done|].Logout?
    requires outcome == OutcomeAt(n.env, n.world, n.ops, |c.done|) && c.messages == Messages(outcome)
    requires s.pc == SMain && World(s.dir, c.local) == WorldAfter(n, |c.done| + 1)
    ensures Matched(n, Finish(c, outcome), s)
  {
    HistoryExtends(n, c, outcome);
  }

  // ---- Resuming after incrementCounter, command by command ----

  /** After incrementCounter both are at the next place of the command,
      or the command has ended with its atomic outcome and its atomic effect. */
  ghost predicate Advances(env: Env, w: World, op: Op, v: View) {
    var ServerProgress(sp, effect) := ServerContinue(env, v.dir, v.sp);
    var dir := Apply(v.dir, effect);
    && SettledServer(sp)
    && match ClientContinue(v.cp, v.local, v.messages)
       case Goes(cp, local) =>
         SettledClient(cp) && !cp.CIdle? && !cp.CDone? && InOp(env, w, op, View(cp, local, v.messages, sp, dir))
       case Ends(local, outcome) =>
         && !op.Logout? && sp == SMain
         && Atomic(env, w, op) == Result(World(dir, local), outcome) && Messages(outcome) == v.messages
  }

  lemma SettledStays(env: Env, w: World, op: Op, v: View)
    requires InOp(env, w, op, v) && SettledClient(v.cp) && SettledServer(v.sp) && !v.cp.CIdle? && !v.cp.CDone?
    ensures Advances(env, w, op, v)
  {
    hide ClientContinue, ServerContinue, Apply, InOp;
    ClientStays(v.cp, v.local, v.messages);
    ServerStays(env, v.dir, v.sp);
    assert View(v.cp, v.local, v.messages, v.sp, v.dir) == v;
  }

  /** A place at which one of the parties has nothing to do after incrementCounter. */
  lemma ServerStays(env: Env, dir: Dir, pc: ServerPc)
    requires SettledServer(pc)
    ensures ServerContinue(env, dir, pc) == ServerProgress(pc, Nothing) && Apply(dir, Nothing) == dir
  {
  }

  lemma ClientStays(pc: ClientPc, local: Dir, messages: nat)
    requires SettledClient(pc)
    ensures ClientContinue(pc, local, messages) == Goes(pc, local)
  {
  }

  lemma ListEnds(env: Env, w: World, v: View)
    requires InList(env, w, v) && v.cp.CListGot3? && ListNames(env.Entries(w.dir.Keys))
    ensures Advances(env, w, List, v)
  {
    hide Join, CString, Listing.Split, ListName, ServerContinue, Apply;
    var names := env.Entries(w.dir.Keys);
    JoinIsText(names);
    ListRoundTrip(names);
    ServerStays(env, v.dir, v.sp);
  }

  lemma ListFound(env: Env, w: World, v: View)
    requires InList(env, w, v) && v.sp.SListGot? && Join(env.Entries(w.dir.Keys)) != ERROR_TEXT
    ensures Advances(env, w, List, v)
  {
    hide Join, ClientContinue;
    ClientStays(v.cp, v.local, v.messages);
  }

  lemma ListCounted(env: Env, w: World, v: View)
    requires InList(env, w, v) && v.cp.CListGot2? && ListNames(env.Entries(w.dir.Keys))
    ensures Advances(env, w, List, v)
  {
    hide Join, ServerContinue, Apply;
    JoinIsText(env.Entries(w.dir.Keys));
    ServerStays(env, v.dir, v.sp);
  }

  lemma AdvanceList(env: Env, w: World, v: View)
    requires InList(env, w, v)
    requires ListNames(env.Entries(w.dir.Keys)) && Join(env.Entries(w.dir.Keys)) != ERROR_TEXT
    ensures Advances(env, w, List, v)
  {
    hide Join, Advances, ListNames;
    if v.cp.CListGot3? {
      ListEnds(env, w, v);
    } else if v.cp.CListGot2? {
      ListCounted(env, w, v);
    } else if v.sp.SListGot? {
      ListFound(env, w, v);
    } else {
      SettledStays(env, w, List, v);
    }
  }

  lemma AdvanceDownloadReply(env: Env, w: World, name: Name, v: View)
    requires InDownload(w, name, v) && (v.cp.CDlGot2? || v.sp.SDlGot?)
    ensures Advances(env, w, Download(name), v)
  {
    hide ValidName, Join, Apply, ChunksNum;
    var content := if name in w.dir then w.dir[name] else [];
    ChunkEnds(|content|);
    PrefixEnds(content);
    assert Apply(v.dir, Nothing) == v.dir by { ServerStays(env, v.dir, SMain); }
  }

  lemma AdvanceDownloadChunk(env: Env, w: World, name: Name, v: View)
    requires InDownload(w, name, v) && v.cp.CDlGotChunk?
    ensures Advances(env, w, Download(name), v)
  {
    hide ValidName, Join, ServerContinue, Apply;
    ServerStays(env, v.dir, v.sp);
    var content := w.dir[name];
    var i := v.cp.i;
    PrefixEnds(content);
    PrefixExtends(content, i);
    var written := w.local[name := Prefix(content, i + 1)];
    assert v.local[name := Prefix(content, i + 1)] == written;
    assert ClientContinue(v.cp, v.local, v.messages)
        == if i + 1 < ChunksNum(|content|) then Goes(CDlWaitChunk(name, |content|, i + 1), written)
           else Code(written, SUCCESS, v.messages);
  }

  lemma AdvanceDownload(env: Env, w: World, name: Name, v: View)
    requires InDownload(w, name, v)
    ensures Advances(env, w, Download(name), v)
  {
    if v.cp.CDlGotChunk? {
      AdvanceDownloadChunk(env, w, name, v);
    } else if v.cp.CDlGot2? || v.sp.SDlGot? {
      AdvanceDownloadReply(env, w, name, v);
    } else {
      SettledStays(env, w, Download(name), v);
    }
  }

  lemma UploadWritten(env: Env, w: World, name: Name, i: nat, v: View)
    requires name in w.local && |w.local[name]| < U32_RANGE && i < ChunksNum(|w.local[name]|)
    requires UploadGot(w, name, i, v)
    ensures var ServerProgress(sp, effect) := ServerContinue(env, v.dir, v.sp);
            if i + 1 < ChunksNum(|w.local[name]|)
            then sp == SUpWaitChunk(name, |w.local[name]|, i + 1) && Apply(v.dir, effect) == w.dir[name := Prefix(w.local[name], i + 1)]
            else sp == SUpSendEnd && Apply(v.dir, effect) == w.dir[name := w.local[name]]
  {
    PrefixExtends(w.local[name], i);
    PrefixEnds(w.local[name]);
  }

  lemma AdvanceUploadChunk(env: Env, w: World, name: Name, v: View)
    requires InUpload(w, name, v) && v.sp.SUpGotChunk?
    ensures Advances(env, w, Upload(name), v)
  {
    hide ValidName, Join, ClientContinue, ServerContinue, Apply, ChunksNum;
    UploadWritten(env, w, name, v.sp.i, v);
    ClientStays(v.cp, v.local, v.messages);
  }

  lemma AdvanceUploadReply(env: Env, w: World, name: Name, v: View)
    requires InUpload(w, name, v) && (v.cp.CUpGot2? || v.sp.SUpGot?)
    ensures Advances(env, w, Upload(name), v)
  {
    hide ValidName, Join;
    ChunkEnds(|w.local[name]|);
    PrefixEnds(w.local[name]);
  }

  lemma AdvanceUpload(env: Env, w: World, name: Name, v: View)
    requires InUpload(w, name, v)
    ensures Advances(env, w, Upload(name), v)
  {
    if v.sp.SUpGotChunk? {
      AdvanceUploadChunk(env, w, name, v);
    } else if v.cp.CUpGot2? || v.sp.SUpGot? {
      AdvanceUploadReply(env, w, name, v);
    } else if v.cp.CUpGotEnd? {
      assert ServerContinue(env, v.dir, v.sp) == ServerProgress(SMain, Nothing);
    } else {
      SettledStays(env, w, Upload(name), v);
    }
  }

  lemma AdvanceRename(env: Env, w: World, oldName: Name, newName: Name, v: View)
    requires InRename(w, oldName, newName, v)
    ensures Advances(env, w, Rename(oldName, newName), v)
  {
    hide ValidName;
    if v.cp.CRnGot? {
      RenameEnds(env, w, oldName, newName, v);
    } else if !v.sp.SRnGot? {
      SettledStays(env, w, Rename(oldName, newName), v);
    }
  }

  lemma RenameEnds(env: Env, w: World, oldName: Name, newName: Name, v: View)
    requires InRename(w, oldName, newName, v) && v.cp.CRnGot?
    ensures Advances(env, w, Rename(oldName, newName), v)
  {
    hide ValidName;
    assert ServerContinue(env, v.dir, v.sp) == ServerProgress(SMain, Nothing);
  }

  lemma AdvanceDelete(env: Env, w: World, name: Name, confirm: bool, v: View)
    requires InDelete(w, name, confirm, v)
    ensures Advances(env, w, Delete(name, confirm), v)
  {
    hide ValidName;
    if v.cp.CDelSent3? {
      DeleteAnswered(env, w, name, confirm, v);
    } else if v.cp.CDelGot2? || v.cp.CDelGot4? {
      assert ServerContinue(env, v.dir, v.sp) == ServerProgress(v.sp, Nothing);
    } else {
      SettledStays(env, w, Delete(name, confirm), v);
    }
  }

  lemma DeleteAnswered(env: Env, w: World, name: Name, confirm: bool, v: View)
    requires InDelete(w, name, confirm, v) && v.cp.CDelSent3?
    ensures Advances(env, w, Delete(name, confirm), v)
  {
    hide ValidName;
  }

  lemma EntriesAreNames(env: Env, dir: Dir)
    requires VisitsOnce(env) && Listable(dir)
    ensures ListNames(env.Entries(dir.Keys))
  {
    var names := env.Entries(dir.Keys);
    forall i | 0 <= i < |names| ensures ListName(names[i]) {
      assert names[i] in names;
      assert names[i] in dir.Keys;
    }
  }

  /** The directory whose only entry is "error" is the only one mistaken for a failure. */
  lemma SentinelIffLoneError(env: Env, dir: Dir)
    requires VisitsOnce(env) && Listable(dir)
    ensures Join(env.Entries(dir.Keys)) == ERROR_TEXT <==> dir.Keys == {ERROR_TEXT}
  {
    var keys := dir.Keys;
    var names := env.Entries(keys);
    EntriesAreNames(env, dir);
    SentinelOnlyAlone(names);
    if keys == {ERROR_TEXT} {
      assert |keys| == 1;
      assert names[0] in names;
      assert names == [ERROR_TEXT];
    }
    if names == [ERROR_TEXT] {
      forall x ensures x in keys <==> x == ERROR_TEXT {
        assert x in names <==> x in keys;
      }
    }
  }

  lemma ListIsSent(n: Session, k: nat)
    requires Runnable(n) && k < |n.ops| && n.ops[k].List?
    ensures var names := n.env.Entries(WorldAfter(n, k).dir.Keys); ListNames(names) && Join(names) != ERROR_TEXT
  {
    hide Atomic, Join;
    var w := WorldAfter(n, k);
    assert InReach(n.env, w, n.ops[k]);
    ListableAt(n.env, n.world, n.ops, k);
    EntriesAreNames(n.env, w.dir);
    SentinelIffLoneError(n.env, w.dir);
  }

  lemma Advance(n: Session, k: nat, v: View)
    requires Runnable(n) && k < |n.ops| && InOp(n.env, WorldAfter(n, k), n.ops[k], v)
    ensures Advances(n.env, WorldAfter(n, k), n.ops[k], v)
  {
    hide Runnable, Advances, Atomic, WorldAt, ListNames, Join;
    var w := WorldAfter(n, k);
    match n.ops[k]
    case List =>
      ListIsSent(n, k);
      AdvanceList(n.env, w, v);
    case Download(name) => AdvanceDownload(n.env, w, name, v);
    case Upload(name) => AdvanceUpload(n.env, w, name, v);
    case Rename(oldName, newName) => AdvanceRename(n.env, w, oldName, newName, v);
    case Delete(name, confirm) => AdvanceDelete(n.env, w, name, confirm, v);
    case Logout => SettledStays(n.env, w, Logout, v);
  }

  lemma ResumedMatched(n: Session, c: ClientState, s: ServerState)
    requires Matched(n, c, s) && !c.pc.CDone? && !c.pc.CIdle?
    requires |c.done| < |n.ops| && Advances(n.env, WorldAfter(n, |c.done|), n.ops[|c.done|], ViewOf(c, s))
    ensures var c', s' := ClientResume(c), ServerResume(n.env, s);
            Matched(n, c', s') && SettledClient(c'.pc) && SettledServer(s'.pc) && !c'.pc.CDone?
  {
    hide InOp, ClientContinue, ServerContinue, Apply, Atomic, Outcomes, MessagesBefore;
    var progress := ClientContinue(c.pc, c.local, c.messages);
    if progress.Ends? {
      FinishMatched(n, c.(local := progress.local), ServerResume(n.env, s), progress.outcome);
    } else {
      assert ViewOf(ClientResume(c), ServerResume(n.env, s)).cp == progress.pc;
    }
  }

  lemma ResumeMatched(n: Session, c: ClientState, s: ServerState)
    requires Runnable(n) && Matched(n, c, s) && !c.pc.CDone?
    ensures var c', s' := ClientResume(c), ServerResume(n.env, s);
            Matched(n, c', s') && SettledClient(c'.pc) && SettledServer(s'.pc) && !c'.pc.CDone?
  {
    hide InOp, Advances, Runnable, Atomic, Outcomes, MessagesBefore;
    if c.pc.CIdle? {
      ServerStays(n.env, s.dir, s.pc);
    } else {
      Advance(n, |c.done|, ViewOf(c, s));
      ResumedMatched(n, c, s);
    }
  }
}
