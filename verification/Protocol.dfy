/** The two parties of a session as step functions: what each sends or waits for next, and what it does with it.
    A program counter says where in its conversation a party is; `auth` says whether incrementCounter (or login)
    has a handshake running, in which case the program counter is where it resumes. */
module Protocol {
  import opened Config
  import opened Bytes
  import opened Chunks
  import opened Codecs
  import opened Listing
  import opened Env
  import opened Store

  /** The random choices behind one message. */
  datatype Rnd = Rnd(iv: bytes, tail: bytes, secret: nat)

  predicate ValidRnd(r: Rnd) {
    |r.iv| == IV_LEN && |r.tail| == MAX_PACKET_SIZE - 1
  }

  datatype Action = Sends | Receives(length: nat) | Begins | Rests

  /** A message on the wire. `Counted` ones advance both counters; `index` numbers them over the whole session. */
  datatype Packet = Counted(index: nat, frame: bytes) | Uncounted(frame: bytes)

  // ------------------------------------------------------------------ client

  datatype ClientPc =
    | CIdle | CDone
    | CListAsk | CListWait2 | CListGot2(code: byte, size: u32) | CListWait3(size: u32) | CListGot3(code: byte, text: bytes)
    | CDlAsk(name: Name) | CDlWait2(name: Name) | CDlGot2(name: Name, code: byte, size: u32)
    | CDlWaitChunk(name: Name, size: u32, i: nat) | CDlGotChunk(name: Name, size: u32, i: nat, code: byte, chunk: bytes)
    | CUpAsk(name: Name, content: bytes) | CUpWait2(content: bytes) | CUpGot2(content: bytes, code: byte)
    | CUpChunk(content: bytes, i: nat) | CUpWaitEnd | CUpGotEnd(code: byte)
    | CRnAsk(oldName: Name, newName: Name) | CRnWait | CRnGot(code: byte)
    | CDelAsk(name: Name, confirm: bool) | CDelWait2(confirm: bool) | CDelGot2(confirm: bool, code: byte) | CDelAnswer(confirm: bool)
    | CDelSent3(confirm: bool) | CDelWait4 | CDelGot4(code: byte)
    | CLoAsk | CLoWait

  datatype ClientAuth =
    | CNoAuth | CSend1 | CWait2(secret: nat) | CWait3(secret: nat) | CSend4(signature: bytes) | CWait5
    | CFailed(error: int)

  datatype ClientState = ClientState(
    user: Name, pc: ClientPc, auth: ClientAuth, counter: u32, key: bytes,
    local: Dir,
    todo: seq<Op>,            // the user's commands; the head is the one in progress
    done: seq<Outcome>,
    messages: nat,            // exchanged so far in the command in progress
    index: nat,               // counted messages since the session began
    rejected: bool)           // a message was refused

  function ClientPcAction(pc: ClientPc, moreToDo: bool): Action {
    match pc
    case CIdle => if moreToDo then Begins else Rests
    case CListWait2 => Receives(ENVELOPE_LEN + 5)
    case CListWait3(size) => Receives(ENVELOPE_LEN + 1 + size)
    case CDlWait2(_) => Receives(ENVELOPE_LEN + 5)
    case CDlWaitChunk(_, size, i) => Receives(ENVELOPE_LEN + 1 + ChunkLen(size, i))
    case CUpWait2(_) => Receives(ENVELOPE_LEN + MAX_PACKET_SIZE)
    case CUpWaitEnd => Receives(ENVELOPE_LEN + MAX_PACKET_SIZE)
    case CRnWait => Receives(ENVELOPE_LEN + MAX_PACKET_SIZE)
    case CDelWait2(_) => Receives(ENVELOPE_LEN + MAX_PACKET_SIZE)
    case CDelWait4 => Receives(ENVELOPE_LEN + MAX_PACKET_SIZE)
    case CLoWait => Receives(ENVELOPE_LEN + MAX_PACKET_SIZE)
    case CListAsk => Sends
    case CDlAsk(_) => Sends
    case CUpAsk(_, _) => Sends
    case CUpChunk(_, _) => Sends
    case CRnAsk(_, _) => Sends
    case CDelAsk(_, _) => Sends
    case CDelAnswer(_) => Sends
    case CLoAsk => Sends
    case _ => Rests
  }

  function ClientAction(c: ClientState): Action {
    match c.auth
    case CNoAuth => ClientPcAction(c.pc, c.todo != [])
    case CSend1 => Sends
    case CWait2(_) => Receives(MAX_PACKET_SIZE)
    case CWait3(_) => Receives(AUTH_M3_LEN)
    case CSend4(_) => Sends
    case CWait5 => Receives(ENVELOPE_LEN + MAX_PACKET_SIZE)
    case CFailed(_) => Rests
  }

  /** The command in progress returns to the menu. */
  function Finish(c: ClientState, outcome: Outcome): ClientState {
    c.(pc := CIdle, done := c.done + [outcome], todo := if c.todo == [] then [] else c.todo[1..], messages := 0)
  }

  function Return(c: ClientState, code: int): ClientState {
    Finish(c, Finished(code, [], c.messages))
  }

  /** The menu's checks and the checks each request function makes before it sends.
      `dir` is the user's storage directory, which the delete command looks into first. */
  function ClientBegin(c: ClientState, dir: Dir): ClientState
    requires c.todo != []
  {
    match c.todo[0]
    case List => c.(pc := CListAsk)
    case Download(name) =>
      if !ValidName(name) then Finish(c, Skipped)
      else if name in c.local then Return(c, FILE_ALREADY_EXISTS)
      else c.(pc := CDlAsk(name))
    case Upload(name) =>
      if !ValidName(name) then Finish(c, Skipped)
      else if name !in c.local then Return(c, FILE_NOT_FOUND)
      else if |c.local[name]| == 0 || |c.local[name]| > MAX_FILE_SIZE then Return(c, WRONG_FILE_SIZE)
      else c.(pc := CUpAsk(name, c.local[name]))
    case Rename(oldName, newName) =>
      if !ValidName(oldName) || !ValidName(newName) then Finish(c, Skipped)
      else c.(pc := CRnAsk(oldName, newName))
    case Delete(name, confirm) =>
      if !ValidName(name) || name !in dir then Finish(c, Skipped)
      else c.(pc := CDelAsk(name, confirm))
    case Logout => c.(pc := CLoAsk)
  }

  predicate Asks(pc: ClientPc) {
    pc.CListAsk? || pc.CDlAsk? || pc.CUpAsk? || pc.CRnAsk? || pc.CDelAsk? || pc.CLoAsk?
  }

  /** A command is over at once or asks its first question. */
  lemma BeginShape(c: ClientState, dir: Dir)
    requires c.todo != []
    ensures var d := ClientBegin(c, dir);
            (exists outcome :: d == Finish(c, outcome)) || (d == c.(pc := d.pc) && Asks(d.pc))
  {
    hide ValidName;
  }

  /** The plaintext of the next operation message. */
  function ClientText(pc: ClientPc, r: Rnd): bytes
    requires ValidRnd(r)
  {
    match pc
    case CListAsk => EncSimple(LIST_REQUEST, r.tail)
    case CDlAsk(name) => EncNamed(DOWNLOAD_REQUEST, name, r.tail[..35])
    case CUpAsk(name, content) => EncUpload(name, AnnouncedUpload(|content|), r.tail[..31])
    case CUpChunk(content, i) =>
      EncPayload(UPLOAD_CHUNK, if i < ChunksNum(|content|) then Chunk(content, i) else [])
    case CRnAsk(oldName, newName) => EncRename(oldName, newName)
    case CDelAsk(name, _) => EncNamed(DELETE_REQUEST, name, r.tail[..35])
    case CDelAnswer(confirm) => EncSimple(if confirm then DELETE_CONFIRM else NO_DELETE_CONFIRM_CODE, r.tail)
    case _ => EncSimple(LOGOUT_REQUEST, r.tail)
  }

  function ClientSent(pc: ClientPc): ClientPc {
    match pc
    case CListAsk => CListWait2
    case CDlAsk(name) => CDlWait2(name)
    case CUpAsk(_, content) => CUpWait2(content)
    case CUpChunk(content, i) => if i + 1 < ChunksNum(|content|) then CUpChunk(content, i + 1) else CUpWaitEnd
    case CRnAsk(_, _) => CRnWait
    case CDelAsk(_, confirm) => CDelWait2(confirm)
    case CDelAnswer(confirm) => CDelSent3(confirm)
    case _ => CLoWait
  }

  /** Parse an accepted reply; its code is looked at only after the counter moved. */
  function ClientGot(pc: ClientPc, text: bytes): ClientPc
    requires |text| >= 1
  {
    match pc
    case CListWait2 => CListGot2(text[0], if |text| >= 5 then SizeAt(text, 1) else 0)
    case CListWait3(_) => CListGot3(text[0], text[1..])
    case CDlWait2(name) => CDlGot2(name, text[0], if |text| >= 5 then SizeAt(text, 1) else 0)
    case CDlWaitChunk(name, size, i) => CDlGotChunk(name, size, i, text[0], text[1..])
    case CUpWait2(content) => CUpGot2(content, text[0])
    case CUpWaitEnd => CUpGotEnd(text[0])
    case CRnWait => CRnGot(text[0])
    case CDelWait2(confirm) => CDelGot2(confirm, text[0])
    case CDelWait4 => CDelGot4(text[0])
    case _ => pc
  }

  /** Where a request function goes after incrementCounter: on to a send or receive, or back to the menu. */
  datatype Progress = Goes(pc: ClientPc, local: Dir) | Ends(local: Dir, outcome: Outcome)

  function Code(local: Dir, code: int, messages: nat): Progress {
    Ends(local, Finished(code, [], messages))
  }

  /** What follows incrementCounter, up to the next send or receive. */
  function ClientContinue(pc: ClientPc, local: Dir, messages: nat): Progress {
    match pc
    case CListGot2(code, size) =>
      if code != LIST_ACK then Code(local, WRONG_MSG_CODE, messages)
      else if size == 0 then Code(local, SUCCESS, messages)
      else Goes(CListWait3(size), local)
    case CListGot3(code, text) =>
      if code != LIST_RESPONSE then Code(local, WRONG_MSG_CODE, messages)
      else Ends(local, Finished(SUCCESS, Listing.Split(CString(text)), messages))
    case CDlGot2(name, code, size) =>
      if code == FILE_NOT_FOUND_CODE then Code(local, FILE_NOT_FOUND, messages)
      else if code != DOWNLOAD_ACK then Code(local, WRONG_MSG_CODE, messages)
      else if ChunksNum(size) == 0 then Code(local[name := []], SUCCESS, messages)
      else Goes(CDlWaitChunk(name, size, 0), local[name := []])
    case CDlGotChunk(name, size, i, code, chunk) =>
      if code != DOWNLOAD_CHUNK then Code(local, WRONG_MSG_CODE, messages)
      else
        var written := local[name := (if name in local then local[name] else []) + chunk];
        if i + 1 < ChunksNum(size) then Goes(CDlWaitChunk(name, size, i + 1), written) else Code(written, SUCCESS, messages)
    case CUpGot2(content, code) =>
      if code == NACK then Code(local, FILE_ALREADY_EXISTS, messages)
      else if code != ACK then Code(local, WRONG_MSG_CODE, messages)
      else if ChunksNum(|content|) == 0 then Goes(CUpWaitEnd, local)
      else Goes(CUpChunk(content, 0), local)
    case CUpGotEnd(code) => Code(local, if code != ACK then WRONG_MSG_CODE else SUCCESS, messages)
    case CRnGot(code) =>
      Code(local,
           if code == RENAME_NOT_FOUND_CODE then FILE_NOT_FOUND
           else if code == RENAME_EXISTS_CODE then FILE_ALREADY_EXISTS
           else if code == NACK then RENAME_FAILURE
           else SUCCESS, messages)
    case CDelGot2(confirm, code) =>
      if code != DELETE_ASK then Code(local, WRONG_MSG_CODE, messages) else Goes(CDelAnswer(confirm), local)
    case CDelSent3(confirm) => if confirm then Goes(CDelWait4, local) else Code(local, NO_DELETE_CONFIRM, messages)
    case CDelGot4(code) => Code(local, if code != ACK then WRONG_MSG_CODE else SUCCESS, messages)
    case _ => Goes(pc, local)
  }

  function ClientResume(c: ClientState): ClientState {
    match ClientContinue(c.pc, c.local, c.messages)
    case Goes(pc, local) => c.(pc := pc, local := local)
    case Ends(local, outcome) => Finish(c.(local := local), outcome)
  }

  /** Client::incrementCounter after an operation message, then on to `next`. */
  function ClientIncrement(c: ClientState, next: ClientPc): ClientState {
    var d := c.(pc := next, messages := c.messages + 1, index := c.index + 1);
    if c.counter == MAX_COUNTER_VALUE then d.(auth := CSend1)
    else ClientResume(d.(counter := c.counter + 1))
  }

  datatype ClientOutput = ClientOutput(packet: Packet, state: ClientState)

  function ClientSend(env: Env, c: ClientState, r: Rnd): ClientOutput
    requires ValidRnd(r)
  {
    match c.auth
    case CSend1 =>
      ClientOutput(Uncounted(EncAuthM1(PublicKey(env, r.secret), c.user)), c.(auth := CWait2(r.secret)))
    case CSend4(signature) =>
      var sealed := env.Seal(c.key, r.iv, LE32(c.counter), signature);
      ClientOutput(Uncounted(r.iv + LE32(c.counter) + sealed.tag + sealed.text), c.(auth := CWait5, counter := 2))
    case _ =>
      ClientOutput(Counted(c.index, Wrap(env, c.key, r.iv, c.counter, ClientText(c.pc, r))), ClientIncrement(c, ClientSent(c.pc)))
  }

  /** A request function gives up on a message it cannot open or whose counter is wrong. */
  function ClientReject(env: Env, c: ClientState, frame: bytes): ClientState
    requires |frame| >= ENVELOPE_LEN
  {
    var code := if Unwrap(env, c.key, frame).None? then DECRYPTION_FAILURE else WRONG_COUNTER;
    var back := Return(c.(rejected := true), code);
    if c.pc.CLoWait? then back.(pc := CDone) else back
  }

  /** The socket counts the bytes received in an int, so a longer message reads as a failure. */
  function ClientReceiveOp(env: Env, c: ClientState, frame: bytes): ClientState
    requires |frame| >= ENVELOPE_LEN
  {
    if |frame| > MAX_INT then Return(c.(rejected := true), RECEIVE_FAILURE)
    else match Accept(env, c.key, c.counter, frame)
    case None => ClientReject(env, c, frame)
    case Some(text) =>
      if c.pc.CLoWait? then
        var code := if |text| >= 1 && text[0] == ACK then SUCCESS else WRONG_MSG_CODE;
        Return(c.(messages := c.messages + 1), code).(pc := CDone)
      else if |text| == 0 then c
      else ClientIncrement(c, ClientGot(c.pc, text))
  }

  /** AuthenticationM3: derive the key, open and verify the server's signature, sign both keys. */
  function ClientReceiveM3(env: Env, c: ClientState, secret: nat, m: bytes): ClientState
    requires |m| == AUTH_M3_LEN
  {
    if FromLE32(m[1040..1044]) != 0 then c.(counter := 0, auth := CFailed(WRONG_COUNTER))
    else match SessionKey(env, secret, AuthM3Key(m))
      case None => c.(counter := 1, auth := CFailed(AUTHENTICATION_FAILURE))
      case Some(key) => KeyTaken(env, c, secret, m, key)
  }

  /** With the session key derived: the signature opens and verifies over client key and server key, or the handshake fails. */
  function KeyTaken(env: Env, c: ClientState, secret: nat, m: bytes, key: bytes): ClientState
    requires |m| == AUTH_M3_LEN
  {
    var transcript := PublicKey(env, secret) + AuthM3Key(m);
    var d := c.(counter := 1, key := key);
    match env.Open(key, m[1028..1040], m[1040..1044], Sealed(m[1060..1188], m[1044..1060]))
    case None => d.(auth := CFailed(DECRYPTION_FAILURE))
    case Some(signature) =>
      match env.CertifiedKey(AuthM3Cert(m))
      case None => d.(auth := CFailed(AUTHENTICATION_FAILURE))
      case Some(serverKey) =>
        if env.Verify(serverKey, transcript, signature) then d.(auth := CSend4(env.ClientSign(transcript)))
        else d.(auth := CFailed(AUTHENTICATION_FAILURE))
  }

  function ClientReceiveM5(env: Env, c: ClientState, m: bytes): ClientState
    requires |m| >= ENVELOPE_LEN
  {
    match Unwrap(env, c.key, m)
    case None => c.(auth := CFailed(DECRYPTION_FAILURE))
    case Some(text) =>
      if CounterOf(m) != c.counter then c.(auth := CFailed(WRONG_COUNTER))
      else if |text| == 0 || text[0] != ACK then c.(auth := CFailed(AUTHENTICATION_FAILURE))
      else ClientResume(c.(auth := CNoAuth, counter := 0))
  }

  function ClientReceive(env: Env, c: ClientState, data: bytes): ClientState
    requires ClientAction(c) == Receives(|data|)
  {
    if c.auth.CWait2? then
      if data[0] == ACK then c.(auth := CWait3(c.auth.secret)) else c.(auth := CFailed(USERNAME_NOT_FOUND))
    else if c.auth.CWait3? then ClientReceiveM3(env, c, c.auth.secret, data)
    else if c.auth.CWait5? then ClientReceiveM5(env, c, data)
    else ClientReceiveOp(env, c, data)
  }

  // ------------------------------------------------------------------ server

  datatype ServerPc =
    | SMain | SClosed(error: int)
    | SListGot | SListSend2(files: bytes) | SListSend3(files: bytes)
    | SDlGot(name: Name) | SDlSend2(code: byte, size: u32, content: bytes) | SDlChunk(content: bytes, i: nat)
    | SUpGot(name: Name, size: u32) | SUpSend2(name: Name, size: u32, reply: byte) | SUpSent2(name: Name, size: u32, reply: byte)
    | SUpWaitChunk(name: Name, size: u32, i: nat) | SUpGotChunk(name: Name, size: u32, i: nat, chunk: bytes) | SUpSendEnd
    | SRnGot(oldName: Name, newName: Name) | SRnSend(code: byte)
    | SDelSend2(name: Name) | SDelWait3(name: Name) | SDelGot3(name: Name, code: byte) | SDelSend4
    | SLoSend

  datatype ServerAuth =
    | SNoAuth | SWait1 | SSend2(peer: bytes) | SSend3(peer: bytes) | SWait4(transcript: bytes) | SSend5(verified: bool)
    | SFailed(error: int)

  datatype ServerState = ServerState(
    user: Name, pc: ServerPc, auth: ServerAuth, counter: u32, key: bytes,
    dir: Dir,                 // the user's storage directory
    index: nat,
    rejected: bool)

  function ServerPcAction(pc: ServerPc): Action {
    match pc
    case SMain => Receives(ENVELOPE_LEN + MAX_PACKET_SIZE)
    case SUpWaitChunk(_, size, i) => Receives(ENVELOPE_LEN + 1 + ChunkLen(size, i))
    case SDelWait3(_) => Receives(ENVELOPE_LEN + MAX_PACKET_SIZE)
    case SListSend2(_) => Sends
    case SListSend3(_) => Sends
    case SDlSend2(_, _, _) => Sends
    case SDlChunk(_, _) => Sends
    case SUpSend2(_, _, _) => Sends
    case SUpSendEnd => Sends
    case SRnSend(_) => Sends
    case SDelSend2(_) => Sends
    case SDelSend4 => Sends
    case SLoSend => Sends
    case _ => Rests
  }

  function ServerAction(s: ServerState): Action {
    match s.auth
    case SNoAuth => ServerPcAction(s.pc)
    case SWait1 => Receives(AUTH_M1_LEN)
    case SSend2(_) => Sends
    case SSend3(_) => Sends
    case SWait4(_) => Receives(AUTH_M4_LEN)
    case SSend5(_) => Sends
    case SFailed(_) => Rests
  }

  /** The 32-bit length of the text, one more for the terminator when it is not 0. */
  function ListSize(files: bytes): (size: u32)
    ensures size <= |files| + 1
    ensures |files| + 1 < U32_RANGE ==> size == if files == [] then 0 else |files| + 1
  {
    var length := |files| % U32_RANGE;
    if length != 0 then (length + 1) % U32_RANGE else 0
  }

  /** Whether the third message follows: the list is not announced as empty, and its length survives the
      narrowing to int that encryption puts it through. */
  predicate ThirdSent(files: bytes) {
    ListSize(files) != 0 && AsInt(1 + ListSize(files)) > 0
  }

  function ServerText(pc: ServerPc, r: Rnd): bytes
    requires ValidRnd(r)
  {
    match pc
    case SListSend2(files) => EncSized(LIST_ACK, ListSize(files))
    case SListSend3(files) => EncPayload(LIST_RESPONSE, (files + [0])[..ListSize(files)])
    case SDlSend2(code, size, _) => EncSized(code, size)
    case SDlChunk(content, i) =>
      EncPayload(DOWNLOAD_CHUNK, if i < ChunksNum(|content|) then Chunk(content, i) else [])
    case SUpSend2(_, _, reply) => EncSimple(reply, r.tail)
    case SRnSend(code) => EncSimple(code, r.tail)
    case SDelSend2(_) => EncSimple(DELETE_ASK, r.tail)
    case _ => EncSimple(ACK, r.tail)
  }

  function ServerSent(pc: ServerPc): ServerPc {
    match pc
    case SListSend2(files) => if ThirdSent(files) then SListSend3(files) else SMain
    case SDlSend2(_, size, content) => if size == 0 then SMain else SDlChunk(content, 0)
    case SDlChunk(content, i) => if i + 1 < ChunksNum(|content|) then SDlChunk(content, i + 1) else SMain
    case SUpSend2(name, size, reply) => SUpSent2(name, size, reply)
    case SDelSend2(name) => SDelWait3(name)
    case _ => SMain
  }

  /** Parse an accepted message; None for a command the dispatch loop does not know. */
  function ServerGot(pc: ServerPc, text: bytes): Option<ServerPc>
    requires |text| >= 1
  {
    match pc
    case SUpWaitChunk(name, size, i) => Some(SUpGotChunk(name, size, i, text[1..]))
    case SDelWait3(name) => Some(SDelGot3(name, text[0]))
    case _ =>
      if |text| < MAX_PACKET_SIZE then None
      else if text[0] == LIST_REQUEST then Some(SListGot)
      else if text[0] == DOWNLOAD_REQUEST then Some(SDlGot(NameAt(text, 1)))
      else if text[0] == UPLOAD_REQUEST then Some(SUpGot(NameAt(text, 1), SizeAt(text, 36)))
      else if text[0] == RENAME_REQUEST then Some(SRnGot(NameAt(text, 1), NameAt(text, 36)))
      else if text[0] == DELETE_REQUEST then Some(SDelSend2(NameAt(text, 1)))
      else if text[0] == LOGOUT_REQUEST then Some(SLoSend)
      else None
  }

  /** A change of the storage directory. */
  datatype Effect = Nothing | Create(name: Name) | Append(name: Name, chunk: bytes) | Renaming(oldName: Name, newName: Name) | Remove(name: Name)

  function Apply(dir: Dir, e: Effect): Dir {
    match e
    case Nothing => dir
    case Create(name) => dir[name := []]
    case Append(name, chunk) => dir[name := (if name in dir then dir[name] else []) + chunk]
    case Renaming(oldName, newName) => if oldName in dir then Move(dir, oldName, newName) else dir
    case Remove(name) => dir - {name}
  }

  datatype ServerProgress = ServerProgress(pc: ServerPc, effect: Effect)

  /** What follows incrementCounter: the next program counter and the change made to the directory. */
  function ServerContinue(env: Env, dir: Dir, pc: ServerPc): ServerProgress {
    match pc
    case SListGot =>
      var files := Join(env.Entries(dir.Keys));
      ServerProgress(if files == ERROR_TEXT then SMain else SListSend2(files), Nothing)
    case SDlGot(name) =>
      ServerProgress(if name in dir then SDlSend2(DOWNLOAD_ACK, AnnouncedDownload(|dir[name]|), dir[name])
       else SDlSend2(FILE_NOT_FOUND_CODE, 0, []), Nothing)
    case SUpGot(name, size) => ServerProgress(SUpSend2(name, size, if name in dir then NACK else ACK), Nothing)
    case SUpSent2(name, size, reply) =>
      if reply == NACK then ServerProgress(SMain, Nothing)
      else ServerProgress(if ChunksNum(size) == 0 then SUpSendEnd else SUpWaitChunk(name, size, 0), Create(name))
    case SUpGotChunk(name, size, i, chunk) =>
      ServerProgress(if i + 1 < ChunksNum(size) then SUpWaitChunk(name, size, i + 1) else SUpSendEnd, Append(name, chunk))
    case SRnGot(oldName, newName) =>
      if oldName !in dir then ServerProgress(SRnSend(RENAME_NOT_FOUND_CODE), Nothing)
      else if newName in dir then ServerProgress(SRnSend(RENAME_EXISTS_CODE), Nothing)
      else ServerProgress(SRnSend(ACK), Renaming(oldName, newName))
    case SDelGot3(name, code) =>
      if code != DELETE_CONFIRM || name !in dir then ServerProgress(SMain, Nothing) else ServerProgress(SDelSend4, Remove(name))
    case _ => ServerProgress(pc, Nothing)
  }

  function ServerResume(env: Env, s: ServerState): ServerState {
    var next := ServerContinue(env, s.dir, s.pc);
    s.(pc := next.pc, dir := Apply(s.dir, next.effect))
  }

  /** Server::incrementCounter after an operation message, then on to `next`. */
  function ServerIncrement(env: Env, s: ServerState, next: ServerPc): ServerState {
    var d := s.(pc := next, index := s.index + 1);
    if s.counter == MAX_COUNTER_VALUE then d.(auth := SWait1)
    else ServerResume(env, d.(counter := s.counter + 1))
  }

  datatype ServerOutput = ServerOutput(packet: Packet, state: ServerState)

  function ServerSend(env: Env, s: ServerState, r: Rnd): ServerOutput
    requires ValidRnd(r)
  {
    match s.auth
    case SSend2(peer) => ServerOutput(Uncounted(EncSimple(ACK, r.tail)), s.(auth := SSend3(peer)))
    case SSend3(peer) => ServerSendM3(env, s, peer, r)
    case SSend5(verified) =>
      ServerOutput(Uncounted(Wrap(env, s.key, r.iv, s.counter, EncSimple(if verified then ACK else NACK, r.tail))),
       if verified then ServerResume(env, s.(auth := SNoAuth, counter := 0))
       else s.(auth := SFailed(AUTHENTICATION_FAILURE), counter := 0))
    case _ =>
      var frame := Wrap(env, s.key, r.iv, s.counter, ServerText(s.pc, r));
      if s.pc.SLoSend? then ServerOutput(Uncounted(frame), s.(pc := SMain, key := Zeros(AES_KEY_LEN)))
      else ServerOutput(Counted(s.index, frame), ServerIncrement(env, s, ServerSent(s.pc)))
  }

  /** AuthenticationM3: choose a secret, derive the key, seal the signature of both keys under counter 0. */
  function ServerSendM3(env: Env, s: ServerState, peer: bytes, r: Rnd): ServerOutput
    requires ValidRnd(r)
  {
    match SessionKey(env, r.secret, peer)
    case None => ServerOutput(Uncounted([]), s.(auth := SFailed(AUTHENTICATION_FAILURE)))
    case Some(key) =>
      var own := PublicKey(env, r.secret);
      var transcript := peer + own;
      var sealed := env.Seal(key, r.iv, LE32(0), env.ServerSign(transcript));
      if |sealed.text| != ENCRYPTED_SIGNATURE_LEN || |sealed.tag| != AES_TAG_LEN
      then ServerOutput(Uncounted([]), s.(auth := SFailed(AUTHENTICATION_FAILURE)))
      else ServerOutput(Uncounted(EncAuthM3(own, r.iv, LE32(0), sealed.tag, sealed.text, env.certificate)),
            s.(key := key, counter := 1, auth := SWait4(transcript)))
  }

  /** In the dispatch loop a refused message ends the session; inside a request it ends the request. */
  function ServerReject(env: Env, s: ServerState, frame: bytes): ServerState
    requires |frame| >= ENVELOPE_LEN
  {
    var code := if Unwrap(env, s.key, frame).None? then DECRYPTION_FAILURE else WRONG_COUNTER;
    s.(rejected := true, pc := if s.pc.SMain? then SClosed(code) else SMain)
  }

  function ServerReceiveOp(env: Env, s: ServerState, frame: bytes): ServerState
    requires |frame| >= ENVELOPE_LEN
  {
    match Accept(env, s.key, s.counter, frame)
    case None => ServerReject(env, s, frame)
    case Some(text) =>
      if |text| == 0 then s
      else match ServerGot(s.pc, text)
        case None => s
        case Some(next) => ServerIncrement(env, s, next)
  }

  function ServerReceiveM1(env: Env, s: ServerState, m: bytes): ServerState
    requires |m| == AUTH_M1_LEN
  {
    if AuthM1User(m) in env.registered then s.(user := AuthM1User(m), auth := SSend2(AuthM1Key(m)))
    else s.(auth := SFailed(AUTHENTICATION_FAILURE))
  }

  function ServerReceiveM4(env: Env, s: ServerState, transcript: bytes, m: bytes): ServerState
    requires |m| == AUTH_M4_LEN
  {
    if FromLE32(m[12..16]) != s.counter then s.(auth := SFailed(WRONG_COUNTER))
    else match env.Open(s.key, m[..12], m[12..16], Sealed(m[32..], m[16..32]))
      case None => s.(counter := 2, auth := SFailed(DECRYPTION_FAILURE))
      case Some(signature) =>
        s.(counter := 2, auth := SSend5(s.user in env.registered && env.Verify(env.registered[s.user], transcript, signature)))
  }

  function ServerReceive(env: Env, s: ServerState, data: bytes): ServerState
    requires ServerAction(s) == Receives(|data|)
  {
    if s.auth.SWait1? then ServerReceiveM1(env, s, data)
    else if s.auth.SWait4? then ServerReceiveM4(env, s, s.auth.transcript, data)
    else ServerReceiveOp(env, s, data)
  }
}
