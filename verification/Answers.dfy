/** What each party makes of a message it did not expect: wrong codes, refused messages, unknown commands. */
module Answers {
  import opened Config
  import opened Bytes
  import opened Chunks
  import opened Codecs
  import opened Env
  import opened Store
  import opened Protocol
  import opened Turns
  import opened ClientHistory

  // ---- Replies to the client ----

  /** The reply with which a command succeeds. */
  predicate LastReply(pc: ClientPc, text: bytes)
    requires ClientPcAction(pc, true) == Receives(ENVELOPE_LEN + |text|) && |text| >= 1
  {
    match pc
    case CListWait2 => text[0] == LIST_ACK && SizeAt(text, 1) == 0
    case CListWait3(_) => text[0] == LIST_RESPONSE
    case CDlWait2(_) => text[0] == DOWNLOAD_ACK && SizeAt(text, 1) == 0
    case CDlWaitChunk(_, size, i) => text[0] == DOWNLOAD_CHUNK && size <= (i + 1) * CHUNK_SIZE
    case CUpWaitEnd => text[0] == ACK
    case CRnWait => text[0] != NACK && text[0] != RENAME_NOT_FOUND_CODE && text[0] != RENAME_EXISTS_CODE
    case CDelWait4 => text[0] == ACK
    case _ => false
  }

  /** A reply after which the command goes on. */
  predicate MiddleReply(pc: ClientPc, text: bytes)
    requires ClientPcAction(pc, true) == Receives(ENVELOPE_LEN + |text|) && |text| >= 1
  {
    match pc
    case CListWait2 => text[0] == LIST_ACK && SizeAt(text, 1) > 0
    case CDlWait2(_) => text[0] == DOWNLOAD_ACK && SizeAt(text, 1) > 0
    case CDlWaitChunk(_, size, i) => text[0] == DOWNLOAD_CHUNK && size > (i + 1) * CHUNK_SIZE
    case CUpWait2(_) => text[0] == ACK
    case CDelWait2(_) => text[0] == DELETE_ASK
    case _ => false
  }

  /** The code a command ends with on any other reply. */
  function ReplyError(pc: ClientPc, code: byte): int {
    if pc.CDlWait2? && code == FILE_NOT_FOUND_CODE then FILE_NOT_FOUND
    else if pc.CRnWait? && code == RENAME_NOT_FOUND_CODE then FILE_NOT_FOUND
    else if pc.CRnWait? && code == RENAME_EXISTS_CODE then FILE_ALREADY_EXISTS
    else if pc.CRnWait? then RENAME_FAILURE
    else if pc.CUpWait2? && code == NACK then FILE_ALREADY_EXISTS
    else WRONG_MSG_CODE
  }

  lemma LastChunkIff(size: u32, i: nat)
    ensures i + 1 < ChunksNum(size) <==> size > (i + 1) * CHUNK_SIZE
  {
  }

  /** Past the reply `text`, the command has gone on, succeeded or failed as the reply says. */
  predicate Decided(c: ClientState, text: bytes)
    requires ClientPcAction(c.pc, true) == Receives(ENVELOPE_LEN + |text|) && |text| >= 1
  {
    var d := ClientResume(c.(pc := ClientGot(c.pc, text), messages := c.messages + 1));
    if MiddleReply(c.pc, text) then d.done == c.done && d.todo == c.todo && !d.pc.CIdle?
    else
      && d.pc == CIdle && |d.done| == |c.done| + 1 && d.done[..|c.done|] == c.done && d.done[|c.done|].Finished?
      && d.done[|c.done|].messages == c.messages + 1
      && (LastReply(c.pc, text) ==> d.done[|c.done|].code == SUCCESS)
      && (!LastReply(c.pc, text) ==> d.done[|c.done|] == Finished(ReplyError(c.pc, text[0]), [], c.messages + 1) && d.local == c.local)
  }

  lemma ListReplyDecides(c: ClientState, text: bytes)
    requires (c.pc.CListWait2? || c.pc.CListWait3?) && ClientPcAction(c.pc, true) == Receives(ENVELOPE_LEN + |text|) && |text| >= 1
    ensures Decided(c, text)
  {
    hide SizeAt, CString, Listing.Split;
  }

  lemma DownloadReplyDecides(c: ClientState, text: bytes)
    requires (c.pc.CDlWait2? || c.pc.CDlWaitChunk?) && ClientPcAction(c.pc, true) == Receives(ENVELOPE_LEN + |text|) && |text| >= 1
    ensures Decided(c, text)
  {
    hide SizeAt, ChunksNum, ChunkLen;
    match c.pc
    case CDlWait2(name) => ChunksOfNothing(SizeAt(text, 1));
    case CDlWaitChunk(name, size, i) => LastChunkIff(size, i);
  }

  lemma ShortReplyDecides(c: ClientState, text: bytes)
    requires c.pc.CUpWait2? || c.pc.CUpWaitEnd? || c.pc.CRnWait? || c.pc.CDelWait2? || c.pc.CDelWait4?
    requires ClientPcAction(c.pc, true) == Receives(ENVELOPE_LEN + |text|) && |text| >= 1
    ensures Decided(c, text)
  {
    hide ChunksNum;
  }

  /** Whatever a client is told at the place it waits: it reports SUCCESS exactly for the last reply, goes on exactly for a
      middle one, and otherwise ends the command with the error of that reply and its files untouched. */
  lemma ReplyDecides(c: ClientState, text: bytes)
    requires !c.pc.CLoWait? && ClientPcAction(c.pc, true) == Receives(ENVELOPE_LEN + |text|) && |text| >= 1
    ensures Decided(c, text) && ReplyError(c.pc, text[0]) != SUCCESS
  {
    hide Decided;
    if c.pc.CListWait2? || c.pc.CListWait3? {
      ListReplyDecides(c, text);
    } else if c.pc.CDlWait2? || c.pc.CDlWaitChunk? {
      DownloadReplyDecides(c, text);
    } else {
      ShortReplyDecides(c, text);
    }
  }

  /** The reply to a logout ends the session, with SUCCESS exactly when it says ACK. */
  lemma LogoutReplyDecides(env: Env, c: ClientState, frame: bytes, text: bytes)
    requires c.auth == CNoAuth && c.pc.CLoWait? && |frame| == ENVELOPE_LEN + MAX_PACKET_SIZE
    requires Accept(env, c.key, c.counter, frame) == Some(text) && |text| >= 1
    ensures var d := ClientReceive(env, c, frame);
            && d.pc == CDone && ClientAction(d) == Rests && d.local == c.local
            && d.done == c.done + [Finished(if text[0] == ACK then SUCCESS else WRONG_MSG_CODE, [], c.messages + 1)]
  {
    hide Accept;
  }

  lemma ChunksOfNothing(size: u32)
    ensures ChunksNum(size) == 0 <==> size == 0
  {
  }

  /** A message the client does not accept ends the command, says why, and changes no file, key or counter. */
  lemma ClientRefuses(env: Env, c: ClientState, frame: bytes)
    requires c.auth == CNoAuth && ClientAction(c) == Receives(|frame|) && ENVELOPE_LEN <= |frame| <= MAX_INT
    ensures var d := ClientReceive(env, c, frame);
            var plain := env.Open(c.key, frame[..12], frame[12..16], Sealed(frame[32..], frame[16..32]));
            var code := if plain.None? then DECRYPTION_FAILURE else WRONG_COUNTER;
            plain.None? || CounterOf(frame) != c.counter ==>
              && d == c.(pc := d.pc, done := c.done + [Finished(code, [], c.messages)], todo := if c.todo == [] then [] else c.todo[1..],
                         messages := 0, rejected := true)
              && d.pc == if c.pc.CLoWait? then CDone else CIdle
  {
    hide CounterOf, ClientGot, ClientIncrement, ClientPcAction;
  }

  // ---- Messages to the server ----

  /** A message the server does not accept ends the request, or in the dispatch loop the session, and changes no file, key
      or counter. */
  lemma ServerRefuses(env: Env, s: ServerState, frame: bytes)
    requires s.auth == SNoAuth && ServerAction(s) == Receives(|frame|) && |frame| >= ENVELOPE_LEN
    ensures var d := ServerReceive(env, s, frame);
            var plain := env.Open(s.key, frame[..12], frame[12..16], Sealed(frame[32..], frame[16..32]));
            plain.None? || CounterOf(frame) != s.counter ==>
              && d == s.(pc := d.pc, rejected := true)
              && (s.pc != SMain ==> d.pc == SMain)
              && (s.pc == SMain ==> ServerAction(d) == Rests && d.pc == SClosed(if plain.None? then DECRYPTION_FAILURE else WRONG_COUNTER))
  {
    hide CounterOf, ServerGot, ServerIncrement;
  }

  /** An accepted first message is counted exactly when its first byte is one of the six commands; another one is ignored. */
  lemma CommandsKnown(env: Env, s: ServerState, frame: bytes, text: bytes)
    requires s.auth == SNoAuth && s.pc == SMain && |frame| == ENVELOPE_LEN + MAX_PACKET_SIZE
    requires Accept(env, s.key, s.counter, frame) == Some(text) && |text| == MAX_PACKET_SIZE
    ensures var d := ServerReceive(env, s, frame);
            if text[0] in {LIST_REQUEST, DOWNLOAD_REQUEST, UPLOAD_REQUEST, RENAME_REQUEST, DELETE_REQUEST, LOGOUT_REQUEST}
            then d.index == s.index + 1 else d == s
  {
    hide Accept, NameAt, SizeAt, ServerContinue, Apply;
  }

  // ---- The client's files ----

  /** A download of `name` is under way. */
  predicate Fetches(pc: ClientPc, name: Name) {
    match pc
    case CDlAsk(x) => x == name
    case CDlWait2(x) => x == name
    case CDlGot2(x, _, _) => x == name
    case CDlWaitChunk(x, _, _) => x == name
    case CDlGotChunk(x, _, _, _, _) => x == name
    case _ => false
  }

  /** `name` is a local file that no download is writing, with these bytes. */
  predicate Kept(c: ClientState, name: Name, content: bytes) {
    name in c.local && c.local[name] == content && !Fetches(c.pc, name)
  }

  lemma ResumeKeepsFile(c: ClientState, name: Name, content: bytes)
    requires Kept(c, name, content)
    ensures Kept(ClientResume(c), name, content)
  {
    hide ChunksNum, CString, Listing.Split;
  }

  lemma IncrementKeepsFile(c: ClientState, next: ClientPc, name: Name, content: bytes)
    requires Kept(c, name, content) && !Fetches(next, name)
    ensures Kept(ClientIncrement(c, next), name, content)
  {
    hide ClientResume;
    if c.counter != MAX_COUNTER_VALUE {
      ResumeKeepsFile(c.(pc := next, messages := c.messages + 1, index := c.index + 1, counter := c.counter + 1), name, content);
    }
  }

  lemma BeginKeepsFile(c: ClientState, dir: Dir, name: Name, content: bytes)
    requires ClientAction(c) == Begins && Kept(c, name, content)
    ensures Kept(ClientBegin(c, dir), name, content)
  {
    hide ValidName;
  }

  lemma SendKeepsFile(env: Env, c: ClientState, r: Rnd, name: Name, content: bytes)
    requires ClientAction(c) == Sends && ValidRnd(r) && Kept(c, name, content)
    ensures Kept(ClientSend(env, c, r).state, name, content)
  {
    hide ClientIncrement, ClientText, Wrap, EncAuthM1, ClientPcAction;
    if c.auth == CNoAuth {
      IncrementKeepsFile(c, ClientSent(c.pc), name, content);
    }
  }

  lemma TakeKeepsFile(env: Env, c: ClientState, frame: bytes, name: Name, content: bytes)
    requires c.auth == CNoAuth && ClientAction(c) == Receives(|frame|) && |frame| >= ENVELOPE_LEN && Kept(c, name, content)
    ensures Kept(ClientReceiveOp(env, c, frame), name, content)
  {
    hide ClientIncrement, Accept, Unwrap, SizeAt;
    var text := Accept(env, c.key, c.counter, frame);
    if text.Some? && |text.value| >= 1 && !c.pc.CLoWait? {
      IncrementKeepsFile(c, ClientGot(c.pc, text.value), name, content);
    }
  }

  lemma AuthKeepsFile(env: Env, c: ClientState, data: bytes, name: Name, content: bytes)
    requires c.auth != CNoAuth && ClientAction(c) == Receives(|data|) && Kept(c, name, content)
    ensures Kept(ClientReceive(env, c, data), name, content)
  {
    hide ClientResume, SessionKey, FromLE32, AuthM3Key, AuthM3Cert, PublicKey, Unwrap, CounterOf, ClientPcAction;
    if c.auth == CWait5 {
      ResumeKeepsFile(c.(auth := CNoAuth, counter := 0), name, content);
    }
  }

  lemma StepKeepsFile(env: Env, t: Turn<ClientState>, name: Name, content: bytes)
    requires IsTurn(env, t) && Kept(t.before, name, content)
    ensures Kept(t.after, name, content)
  {
    hide Kept, ClientBegin, ClientSend, ClientReceiveOp, ClientReceiveM3, ClientReceiveM5;
    var x :| Ready(t.before, x) && t == TurnOf(env, t.before, x);
    match x
    case Start(dir) => BeginKeepsFile(t.before, dir, name, content);
    case Say(r) => SendKeepsFile(env, t.before, r, name, content);
    case Take(data) =>
      if t.before.auth == CNoAuth {
        TakeKeepsFile(env, t.before, data, name, content);
      } else {
        AuthKeepsFile(env, t.before, data, name, content);
      }
  }

  /** Whatever bytes a client is sent, a local file keeps its bytes: a download never writes over a file. */
  lemma {:induction false} LocalFileKept(env: Env, start: ClientState, history: seq<Turn<ClientState>>, now: ClientState, name: Name)
    requires Linked(history, start, now) && forall j :: 0 <= j < |history| ==> IsTurn(env, history[j])
    requires name in start.local && !Fetches(start.pc, name)
    ensures name in now.local && now.local[name] == start.local[name] && !Fetches(now.pc, name)
    decreases |history|
  {
    hide IsTurn, Fetches;
    if history != [] {
      var last := history[|history| - 1];
      LocalFileKept(env, start, history[..|history| - 1], last.before, name);
      StepKeepsFile(env, last, name, start.local[name]);
    }
  }
}
