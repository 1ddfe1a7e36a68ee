/** The server as its handlers are written: one blocking conversation after another over a socket.
    `machine` is the step function's state; it moves only when a message is sent or received, so each handler
    is proved to send exactly the frames, wait for exactly the lengths and make exactly the changes of the step function. */
module ServerClass {
  import opened Config
  import opened Bytes
  import opened Chunks
  import opened Codecs
  import opened Listing
  import opened Env
  import opened Store
  import opened Protocol
  import opened Conservation
  import opened Messages
  import opened FileManager
  import opened FloatCeil
  import opened SocketManager
  import opened Running
  import opened Turns
  import opened ServerHistory

  /** The length sent in ListM2. */
  method CountText(files: bytes) returns (listSize: u32)
    ensures listSize == ListSize(files)
  {
    listSize := |files| % U32_RANGE;
    if listSize != 0 {
      listSize := (listSize + 1) % U32_RANGE;
    }
  }

  /** No file of one directory is longer than every file of the other. */
  ghost predicate Sizes(dir: Dir, before: Dir) {
    forall bound: nat :: Bounded(before, bound) ==> Bounded(dir, bound)
  }

  lemma MoveSizes(dir: Dir, oldName: Name, newName: Name)
    requires oldName in dir
    ensures Sizes(Move(dir, oldName, newName), dir)
  {
  }

  lemma SameSizes(dir: Dir)
    ensures Sizes(dir, dir)
  {
  }

  lemma RemoveSizes(dir: Dir, name: Name)
    ensures Sizes(dir - {name}, dir)
  {
  }

  // ---- The step function at each place of a request ----

  lemma MenuStays(env: Env, dir: Dir)
    ensures ServerContinue(env, dir, SMain) == ServerProgress(SMain, Nothing) && Apply(dir, Nothing) == dir
    ensures ServerPcAction(SMain) == Receives(ENVELOPE_LEN + MAX_PACKET_SIZE)
  {
  }

  lemma ListLooks(env: Env, dir: Dir)
    ensures var files := Join(env.Entries(dir.Keys));
            ServerContinue(env, dir, SListGot) == ServerProgress(if files == ERROR_TEXT then SMain else SListSend2(files), Nothing)
    ensures Apply(dir, Nothing) == dir
  {
  }

  lemma ListSends(env: Env, dir: Dir, files: bytes, r: Rnd)
    requires ValidRnd(r)
    ensures ServerPcAction(SListSend2(files)) == Sends && ServerPcAction(SListSend3(files)) == Sends
    ensures ServerText(SListSend2(files), r) == EncSized(LIST_ACK, ListSize(files))
    ensures ServerText(SListSend3(files), r) == EncPayload(LIST_RESPONSE, (files + [0])[..ListSize(files)])
    ensures ServerSent(SListSend2(files)) == if ThirdSent(files) then SListSend3(files) else SMain
    ensures ServerSent(SListSend3(files)) == SMain
    ensures ServerContinue(env, dir, SListSend3(files)) == ServerProgress(SListSend3(files), Nothing)
    ensures ServerContinue(env, dir, SMain) == ServerProgress(SMain, Nothing) && Apply(dir, Nothing) == dir
  {
  }

  lemma DownloadLooks(env: Env, dir: Dir, name: Name)
    ensures ServerContinue(env, dir, SDlGot(name)) ==
            ServerProgress(if name in dir then SDlSend2(DOWNLOAD_ACK, AnnouncedDownload(|dir[name]|), dir[name])
                           else SDlSend2(FILE_NOT_FOUND_CODE, 0, []), Nothing)
    ensures Apply(dir, Nothing) == dir
  {
  }

  lemma DownloadReplies(env: Env, dir: Dir, code: byte, size: u32, content: bytes, r: Rnd)
    requires ValidRnd(r)
    ensures var pc := SDlSend2(code, size, content);
            ServerPcAction(pc) == Sends && ServerText(pc, r) == EncSized(code, size)
            && ServerSent(pc) == if size == 0 then SMain else SDlChunk(content, 0)
    ensures ServerContinue(env, dir, SDlChunk(content, 0)) == ServerProgress(SDlChunk(content, 0), Nothing)
    ensures ServerContinue(env, dir, SMain) == ServerProgress(SMain, Nothing) && Apply(dir, Nothing) == dir
  {
  }

  lemma DownloadSends(env: Env, dir: Dir, content: bytes, i: nat, r: Rnd)
    requires ValidRnd(r) && i < ChunksNum(|content|)
    ensures var pc := SDlChunk(content, i);
            ServerPcAction(pc) == Sends && ServerText(pc, r) == EncPayload(DOWNLOAD_CHUNK, Chunk(content, i))
            && ServerSent(pc) == if i + 1 < ChunksNum(|content|) then SDlChunk(content, i + 1) else SMain
    ensures ServerContinue(env, dir, SDlChunk(content, i + 1)) == ServerProgress(SDlChunk(content, i + 1), Nothing)
    ensures ServerContinue(env, dir, SMain) == ServerProgress(SMain, Nothing) && Apply(dir, Nothing) == dir
  {
  }

  lemma RenameLooks(env: Env, dir: Dir, oldName: Name, newName: Name)
    ensures ServerContinue(env, dir, SRnGot(oldName, newName)) ==
            if oldName !in dir then ServerProgress(SRnSend(RENAME_NOT_FOUND_CODE), Nothing)
            else if newName in dir then ServerProgress(SRnSend(RENAME_EXISTS_CODE), Nothing)
            else ServerProgress(SRnSend(ACK), Renaming(oldName, newName))
    ensures Apply(dir, Nothing) == dir
    ensures oldName in dir ==> Apply(dir, Renaming(oldName, newName)) == Move(dir, oldName, newName)
  {
  }

  lemma RenameSends(env: Env, dir: Dir, code: byte, r: Rnd)
    requires ValidRnd(r)
    ensures ServerPcAction(SRnSend(code)) == Sends && ServerText(SRnSend(code), r) == EncSimple(code, r.tail)
    ensures ServerSent(SRnSend(code)) == SMain
    ensures ServerContinue(env, dir, SMain) == ServerProgress(SMain, Nothing) && Apply(dir, Nothing) == dir
  {
  }

  lemma DeleteAsks(env: Env, dir: Dir, name: Name, r: Rnd)
    requires ValidRnd(r)
    ensures var pc := SDelSend2(name);
            ServerPcAction(pc) == Sends && ServerText(pc, r) == EncSimple(DELETE_ASK, r.tail) && ServerSent(pc) == SDelWait3(name)
            && ServerContinue(env, dir, pc) == ServerProgress(pc, Nothing)
    ensures ServerContinue(env, dir, SDelWait3(name)) == ServerProgress(SDelWait3(name), Nothing) && Apply(dir, Nothing) == dir
    ensures ServerPcAction(SDelWait3(name)) == Receives(ENVELOPE_LEN + MAX_PACKET_SIZE)
  {
  }

  lemma DeleteHears(env: Env, dir: Dir, name: Name, text: bytes)
    requires |text| >= 1
    ensures ServerGot(SDelWait3(name), text) == Some(SDelGot3(name, text[0]))
    ensures ServerContinue(env, dir, SDelGot3(name, text[0])) ==
            if text[0] != DELETE_CONFIRM || name !in dir then ServerProgress(SMain, Nothing) else ServerProgress(SDelSend4, Remove(name))
    ensures Apply(dir, Nothing) == dir && Apply(dir, Remove(name)) == dir - {name}
  {
  }

  lemma DeleteEnds(env: Env, dir: Dir, r: Rnd)
    requires ValidRnd(r)
    ensures ServerPcAction(SDelSend4) == Sends && ServerText(SDelSend4, r) == EncSimple(ACK, r.tail) && ServerSent(SDelSend4) == SMain
    ensures ServerContinue(env, dir, SMain) == ServerProgress(SMain, Nothing) && Apply(dir, Nothing) == dir
  {
  }

  lemma UploadLooks(env: Env, dir: Dir, name: Name, size: u32)
    ensures ServerContinue(env, dir, SUpGot(name, size)) ==
            ServerProgress(SUpSend2(name, size, if name in dir then NACK else ACK), Nothing)
    ensures Apply(dir, Nothing) == dir
  {
  }

  lemma UploadReplies(env: Env, dir: Dir, name: Name, size: u32, code: byte, r: Rnd)
    requires ValidRnd(r)
    ensures var pc := SUpSend2(name, size, code);
            ServerPcAction(pc) == Sends && ServerText(pc, r) == EncSimple(code, r.tail) && ServerSent(pc) == SUpSent2(name, size, code)
    ensures ServerContinue(env, dir, SUpSent2(name, size, code)) ==
            if code == NACK then ServerProgress(SMain, Nothing)
            else ServerProgress(if ChunksNum(size) == 0 then SUpSendEnd else SUpWaitChunk(name, size, 0), Create(name))
    ensures Apply(dir, Nothing) == dir && Apply(dir, Create(name)) == dir[name := []]
  {
  }

  lemma UploadWaits(name: Name, size: u32, i: nat)
    ensures ServerPcAction(SUpWaitChunk(name, size, i)) == Receives(ENVELOPE_LEN + 1 + ChunkLen(size, i))
  {
  }

  lemma UploadHears(env: Env, dir: Dir, name: Name, size: u32, i: nat, text: bytes)
    requires |text| >= 1 && name in dir
    ensures ServerGot(SUpWaitChunk(name, size, i), text) == Some(SUpGotChunk(name, size, i, text[1..]))
    ensures ServerContinue(env, dir, SUpGotChunk(name, size, i, text[1..])) ==
            ServerProgress(if i + 1 < ChunksNum(size) then SUpWaitChunk(name, size, i + 1) else SUpSendEnd, Append(name, text[1..]))
    ensures Apply(dir, Append(name, text[1..])) == dir[name := dir[name] + text[1..]]
  {
  }

  lemma UploadEnds(env: Env, dir: Dir, r: Rnd)
    requires ValidRnd(r)
    ensures ServerPcAction(SUpSendEnd) == Sends && ServerText(SUpSendEnd, r) == EncSimple(ACK, r.tail) && ServerSent(SUpSendEnd) == SMain
    ensures ServerContinue(env, dir, SMain) == ServerProgress(SMain, Nothing) && Apply(dir, Nothing) == dir
  {
  }

  lemma LogoutStays(env: Env, dir: Dir)
    ensures ServerContinue(env, dir, SLoSend) == ServerProgress(SLoSend, Nothing) && Apply(dir, Nothing) == dir
  {
  }

  lemma LogoutSends(r: Rnd)
    requires ValidRnd(r)
    ensures ServerPcAction(SLoSend) == Sends && ServerText(SLoSend, r) == EncSimple(ACK, r.tail)
  {
  }

  lemma Dispatched(text: bytes)
    requires |text| == MAX_PACKET_SIZE
    ensures ServerGot(SMain, text) ==
            if text[0] == LIST_REQUEST then Some(SListGot)
            else if text[0] == DOWNLOAD_REQUEST then Some(SDlGot(NameAt(text, 1)))
            else if text[0] == UPLOAD_REQUEST then Some(SUpGot(NameAt(text, 1), SizeAt(text, 36)))
            else if text[0] == RENAME_REQUEST then Some(SRnGot(NameAt(text, 1), NameAt(text, 36)))
            else if text[0] == DELETE_REQUEST then Some(SDelSend2(NameAt(text, 1)))
            else if text[0] == LOGOUT_REQUEST then Some(SLoSend)
            else None
  {
  }

  class Server {
    const env: Env
    const socket: Socket
    const storage: Storage
    var counter: u32
    var sessionKey: bytes
    var userName: Name

    ghost const start: ServerState
    ghost const given: bytes
    ghost var machine: ServerState
    ghost var history: seq<Turn<ServerState>>

    ghost predicate Valid()
      reads this, socket
    {
      Usable(env) && Follows(env, start, history, machine, given, socket.incoming, socket.outgoing)
    }

    /** The fields are those of a state `s`. */
    predicate Holds(s: ServerState)
      reads this
    {
      counter == s.counter && sessionKey == s.key && userName == s.user
    }

    ghost predicate Synced()
      reads this, storage
    {
      Holds(machine) && storage.files == machine.dir
    }

    ghost predicate AtMenu()
      reads this
    {
      machine.auth == SNoAuth && machine.pc == SMain
    }

    /** A handler has returned: the server is back in its loop, or the peer is gone, or a handshake has failed. */
    ghost predicate Returned(t: Try<int>)
      reads this, storage, socket
    {
      && storage.files == machine.dir
      && (t.Throw? ==> machine.auth.SFailed? || socket.incoming == [])
      && (!t.Throw? ==> Synced() && (AtMenu() || (t.Gone? && socket.incoming == [])))
    }

    constructor (env: Env, socket: Socket, storage: Storage)
      requires Usable(env) && socket.outgoing == []
      ensures given == socket.incoming
      ensures Valid() && Synced() && machine == start == ServerState([], SMain, SWait1, 0, [], storage.files, 0, false)
      ensures this.env == env && this.socket == socket && this.storage == storage
    {
      this.env, this.socket, this.storage := env, socket, storage;
      counter, sessionKey, userName := 0, [], [];
      var s := ServerState([], SMain, SWait1, 0, [], storage.files, 0, false);
      start, machine, history, given := s, s, [], socket.incoming;
      new;
      Others(env);
    }

    // ---- Messages ----

    method Transmit(message: array<byte>, ghost r: Rnd)
      requires Valid() && ValidRnd(r) && ServerAction(machine) == Sends
      requires message[..] == ServerSend(env, machine, r).packet.frame && message.Length > 0
      modifies this`machine, this`history, socket`outgoing
      ensures Valid() && machine == ServerSend(env, old(machine), r).state
      ensures socket.outgoing == old(socket.outgoing) + [message[..]]
    {
      hide Usable, Follows, ServerSend;
      Others(env);
      var code := socket.Send(message, message.Length);
      assert message[..message.Length] == message[..];
      Proceeds(env, start, history, machine, given, socket.incoming, old(socket.outgoing), Speak(r), socket.incoming);
      history := history + [TurnOf(env, machine, Speak(r))];
      machine := ServerSend(env, machine, r).state;
    }

    method Await(length: nat) returns (t: Try<bytes>)
      requires Valid() && 0 < length <= MAX_INT
      requires socket.incoming == [] || ServerAction(machine) == Receives(length)
      modifies this`machine, this`history, socket`incoming
      ensures Valid()
      ensures t.Ok? ==> |t.value| == length && old(socket.incoming) != [] && ServerAction(old(machine)) == Receives(length)
                        && machine == ServerReceive(env, old(machine), t.value)
      ensures !t.Ok? ==> t.Gone? && machine == old(machine) && socket.incoming == []
      ensures |socket.incoming| <= |old(socket.incoming)| && (t.Ok? ==> |socket.incoming| < |old(socket.incoming)|)
    {
      hide Usable, Follows, ServerReceive;
      Others(env);
      var buffer := new byte[length];
      var code := socket.Receive(buffer);
      if code != 0 {
        Drained(env, start, history, machine, given, old(socket.incoming), socket.outgoing);
        return Gone;
      }
      assert old(socket.incoming) == buffer[..] + socket.incoming;
      Proceeds(env, start, history, machine, given, old(socket.incoming), socket.outgoing, Hear(buffer[..]), socket.incoming);
      assert socket.outgoing + FrameOf(env, machine, Hear(buffer[..])) == socket.outgoing;
      history := history + [TurnOf(env, machine, Hear(buffer[..]))];
      machine := ServerReceive(env, machine, buffer[..]);
      t := Ok(buffer[..]);
    }

    /** Send one sealed message and count it. */
    method Reply(plaintext: bytes, r: Rnd) returns (t: Try<Unit>)
      requires Valid() && Synced() && ValidRnd(r)
      requires machine.auth == SNoAuth && ServerPcAction(machine.pc) == Sends && !machine.pc.SLoSend?
      requires plaintext == ServerText(machine.pc, r) && |plaintext| <= MAX_INT
      modifies this, socket
      ensures |socket.incoming| <= |old(socket.incoming)|
      ensures Valid()
      ensures t.Ok? ==> Holds(machine)
                        && machine == ServerResume(env, Moved(old(machine), ServerSent(old(machine).pc)))
      ensures !t.Ok? ==> t.Throw? && machine.dir == old(machine).dir && (machine.auth.SFailed? || socket.incoming == [])
    {
      hide Usable, Follows, Wrap, ServerText, ServerContinue;
      Others(env);
      ghost var s := machine;
      var frame := SealFrame(env, sessionKey, r.iv, counter, plaintext);
      assert ServerSend(env, s, r) == ServerOutput(Counted(s.index, frame[..]), ServerIncrement(env, s, ServerSent(s.pc)));
      Transmit(frame, r);
      t := IncrementCounter(s, ServerSent(s.pc));
    }

    /** A state that has counted one more message, with the counter, key and user the server now has. */
    ghost function Moved(s: ServerState, next: ServerPc): ServerState
      reads this
    {
      s.(pc := next, index := s.index + 1, counter := counter, key := sessionKey, user := userName)
    }

    /** Receive one sealed message and check its counter. */
    method ReceiveSealed(length: nat) returns (t: Try<bytes>)
      requires Valid() && Synced() && 1 <= length <= CHUNK_SIZE + 1
      requires socket.incoming == [] || (machine.auth == SNoAuth && ServerPcAction(machine.pc) == Receives(ENVELOPE_LEN + length))
      modifies this`machine, this`history, socket`incoming
      ensures Valid()
      ensures |socket.incoming| <= |old(socket.incoming)| && (t.Ok? ==> |socket.incoming| < |old(socket.incoming)|)
      ensures t.Ok? ==> |t.value| == length && old(socket.incoming) != [] && old(machine).auth == SNoAuth
                        && ServerPcAction(old(machine).pc) == Receives(ENVELOPE_LEN + length)
                        && machine == match ServerGot(old(machine).pc, t.value)
                                      case None => old(machine)
                                      case Some(next) => ServerIncrement(env, old(machine), next)
      ensures !t.Ok? ==>
                && !t.Throw? && Synced()
                && ((t.Gone? && socket.incoming == [] && machine == old(machine))
                    || (t.Return? && machine == old(machine).(rejected := true, pc := if old(machine).pc.SMain? then SClosed(t.code) else SMain)))
      ensures !t.Ok? && socket.incoming != [] ==> old(machine).auth == SNoAuth
    {
      hide Usable, Follows, ServerIncrement, ServerGot;
      var data :- Await(ENVELOPE_LEN + length);
      var message := new Generic.Deserialize(data, length);
      var plaintext := message.Decrypt(env, sessionKey);
      if plaintext.None? {
        return Return(DECRYPTION_FAILURE);
      }
      Running.Opening(env, sessionKey, message.iv, message.aad, Sealed(message.ciphertext, message.tag));
      if counter != message.Counter() {
        return Return(WRONG_COUNTER);
      }
      assert Accept(env, old(machine).key, old(machine).counter, data) == plaintext;
      t := Ok(plaintext.value);
    }

    // ---- Counter and handshake ----

    /** Move the counter past a message; at its maximum, authenticate again. */
    method IncrementCounter(ghost s: ServerState, ghost next: ServerPc) returns (t: Try<Unit>)
      requires Valid() && s.auth == SNoAuth && Holds(s) && machine == ServerIncrement(env, s, next)
      modifies this, socket
      ensures |socket.incoming| <= |old(socket.incoming)|
      ensures Valid()
      ensures t.Ok? ==> Holds(machine) && machine == ServerResume(env, Moved(s, next))
      ensures !t.Ok? ==> t.Throw? && machine.dir == s.dir && (machine.auth.SFailed? || socket.incoming == [])
    {
      hide Usable, Follows, ServerContinue;
      if counter == MAX_COUNTER_VALUE {
        var result := AuthenticationRequest();
        if !result.Ok? {
          return Throw(AUTHENTICATION_FAILURE);
        }
      } else {
        counter := counter + 1;
      }
      t := Ok(Done);
    }

    method AuthenticationRequest() returns (t: Try<Unit>)
      requires Valid() && machine.auth == SWait1 && Holds(machine)
      modifies this, socket
      ensures |socket.incoming| <= |old(socket.incoming)|
      ensures Valid()
      ensures t.Ok? ==> Holds(machine) && counter == 0
                        && machine == ServerResume(env, old(machine).(auth := SNoAuth, counter := 0, key := sessionKey, user := userName))
      ensures !t.Ok? ==> machine.dir == old(machine).dir && (machine.auth.SFailed? || socket.incoming == [])
    {
      hide Valid, Usable, Follows, ServerContinue;
      ghost var s := machine;
      // M1, M2
      var peer :- Welcome();
      // M3
      var transcript :- SendKey(peer, s);
      // M4, M5
      t := TakeSignature(transcript, s.(user := userName));
    }

    /** Receive the user's name and ephemeral key, and accept a registered user. */
    method Welcome() returns (t: Try<bytes>)
      requires Valid() && machine.auth == SWait1 && Holds(machine)
      modifies this`machine, this`history, this`userName, socket
      ensures |socket.incoming| <= |old(socket.incoming)|
      ensures Valid()
      ensures t.Ok? ==> machine == old(machine).(user := userName, auth := SSend3(t.value))
      ensures !t.Ok? ==> machine.dir == old(machine).dir && (machine.auth.SFailed? || socket.incoming == [])
    {
      hide Usable, Follows, ServerReceiveOp, ServerReceiveM4, ServerSendM3, ServerResume, AuthM1Key, AuthM1User;
      ghost var s := machine;
      // M1
      var data :- Await(AUTH_M1_LEN);
      var m1 := new AuthenticationM1.Deserialize(data);
      // M2
      if m1.UserName() !in env.registered {
        return Return(AUTHENTICATION_FAILURE);
      }
      userName := m1.UserName();
      var peer := m1.Key();
      assert machine == s.(user := userName, auth := SSend2(peer));
      var r := Draw();
      var m2 := new SimpleMessage(ACK);
      var serialized := m2.Serialize(r.tail);
      Transmit(serialized, r);
      t := Ok(peer);
    }

    /** End the handshake without sending anything. */
    method GiveUp(ghost r: Rnd)
      requires Valid() && ValidRnd(r) && ServerAction(machine) == Sends
      requires ServerSend(env, machine, r).packet.frame == []
      modifies this`machine, this`history
      ensures Valid() && machine == ServerSend(env, old(machine), r).state
    {
      hide Usable, Follows, ServerSend;
      Others(env);
      Proceeds(env, start, history, machine, given, socket.incoming, old(socket.outgoing), Speak(r), socket.incoming);
      assert socket.outgoing + FrameOf(env, machine, Speak(r)) == socket.outgoing;
      history := history + [TurnOf(env, machine, Speak(r))];
      machine := ServerSend(env, machine, r).state;
    }

    /** Derive the session key from a fresh secret; send the server's key with the sealed signature of both keys. */
    method SendKey(peer: bytes, ghost s: ServerState) returns (t: Try<bytes>)
      requires Valid() && machine == s.(user := userName, auth := SSend3(peer))
      modifies this`machine, this`history, this`counter, this`sessionKey, socket`outgoing
      ensures Valid()
      ensures t.Ok? ==> counter == 1 && machine == s.(user := userName, key := sessionKey, counter := 1, auth := SWait4(t.value))
      ensures !t.Ok? ==> machine.auth.SFailed? && machine.dir == s.dir
    {
      hide Usable, Follows, LE32, BE32, PadTo, PublicKey, SessionKey;
      var r := Draw();
      Others(env);
      KeysFit(env, r.secret);
      var own := PublicKey(env, r.secret);
      var key := SessionKey(env, r.secret, peer);
      if key.None? {
        GiveUp(r);
        return Return(AUTHENTICATION_FAILURE);
      }
      sessionKey := key.value;
      var transcript := peer + own;
      var signature := env.ServerSign(transcript);
      counter := 0;
      var aad := LE32(counter);
      var sealed := env.Seal(sessionKey, r.iv, aad, signature);
      Sealing(env, sessionKey, r.iv, aad, signature);
      SignaturesFit(env, transcript);
      var serialized := WriteM3(own, r.iv, aad, sealed.tag, sealed.text, env.certificate);
      Transmit(serialized, r);
      counter := counter + 1;
      t := Ok(transcript);
    }

    /** Receive the client's signature over both keys, verify it and send the verdict. */
    method TakeSignature(transcript: bytes, ghost s: ServerState) returns (t: Try<Unit>)
      requires Valid() && s.user == userName
      requires machine == s.(key := sessionKey, counter := 1, auth := SWait4(transcript)) && counter == 1
      modifies this`machine, this`history, this`counter, socket
      ensures |socket.incoming| <= |old(socket.incoming)|
      ensures Valid()
      ensures t.Ok? ==> counter == 0 && machine == ServerResume(env, s.(auth := SNoAuth, counter := 0, key := sessionKey))
      ensures !t.Ok? ==> machine.dir == s.dir && (machine.auth.SFailed? || socket.incoming == [])
    {
      hide Usable, Follows, ServerResume, FromLE32, ServerReceiveOp, ServerReceiveM1;
      var data :- Await(AUTH_M4_LEN);
      var m4 := new AuthenticationM4.Deserialize(data);
      if !m4.CheckCounter(counter) {
        return Return(WRONG_COUNTER);
      }
      counter := counter + 1;
      var signature := env.Open(sessionKey, m4.iv, m4.aad, Sealed(m4.signature, m4.tag));
      if signature.None? {
        return Return(DECRYPTION_FAILURE);
      }
      var verified := userName in env.registered && env.Verify(env.registered[userName], transcript, signature.value);
      t := SendVerdict(verified, s);
    }

    /** Tell the client whether its signature was verified. */
    method SendVerdict(verified: bool, ghost s: ServerState) returns (t: Try<Unit>)
      requires Valid() && machine == s.(key := sessionKey, counter := 2, auth := SSend5(verified)) && counter == 2
      modifies this`machine, this`history, this`counter, socket`outgoing
      ensures Valid()
      ensures t.Ok? ==> counter == 0 && machine == ServerResume(env, s.(auth := SNoAuth, counter := 0, key := sessionKey))
      ensures !t.Ok? ==> machine.dir == s.dir && machine.auth.SFailed?
    {
      hide Usable, Follows, ServerResume, Wrap;
      Others(env);
      // M5
      var r := Draw();
      var plaintext := WriteSimple(if verified then ACK else NACK, r.tail);
      var frame := SealFrame(env, sessionKey, r.iv, counter, plaintext);
      Transmit(frame, r);
      counter := 0;
      t := if verified then Ok(Done) else Return(AUTHENTICATION_FAILURE);
    }

    // ---- Requests ----

    /** A request has been accepted in state `s`; its handler is called. */
    ghost predicate Asked(s: ServerState, next: ServerPc)
      reads this, storage, socket
    {
      && Valid() && s.auth == SNoAuth && Holds(s) && storage.files == s.dir
      && machine == ServerIncrement(env, s, next)
    }

    method ListRequest(ghost s: ServerState) returns (t: Try<int>)
      requires Asked(s, SListGot)
      modifies this, socket
      ensures |socket.incoming| <= |old(socket.incoming)|
      ensures Valid() && Returned(t)
    {
      hide Valid, Usable, Follows, Asked, ServerContinue, ServerIncrement, Apply;
      AskedFacts(s, SListGot);
      var _ :- IncrementCounter(s, SListGot);
      t := ReplyList(s);
    }

    /** The request is counted: announce the list. */
    method ReplyList(ghost s: ServerState) returns (t: Try<int>)
      requires Valid() && Holds(machine) && machine == ServerResume(env, Moved(s, SListGot))
      requires s.auth == SNoAuth && storage.files == s.dir
      modifies this, socket
      ensures |socket.incoming| <= |old(socket.incoming)|
      ensures Valid() && Returned(t)
    {
      hide Valid, Usable, Follows, Join, ListSize, ServerContinue, ServerSent, ServerText, ServerPcAction, Apply;
      var files := GetFilesList(Some(env.Entries(storage.files.Keys)));
      ListLooks(env, s.dir);
      if files == ERROR_TEXT {
        return Return(WRONG_PATH);
      }
      var listSize := CountText(files);
      var m2 := WriteListM2(listSize);
      var r := Draw();
      ListSends(env, s.dir, files, r);
      var _ :- Reply(m2, r);
      if listSize == 0 {
        return Ok(SUCCESS);
      }
      t := SendList(files, listSize);
    }

    method SendList(files: bytes, listSize: u32) returns (t: Try<int>)
      requires Valid() && Synced() && machine.auth == SNoAuth && listSize == ListSize(files) > 0
      requires machine.pc == if ThirdSent(files) then SListSend3(files) else SMain
      modifies this, socket
      ensures |socket.incoming| <= |old(socket.incoming)|
      ensures Valid() && Returned(t)
    {
      hide Valid, Usable, Follows, ListSize, ServerContinue, ServerSent, ServerText, ServerPcAction, Apply;
      var m3 := WriteListM3(listSize, files + [0]);
      if AsInt(|m3|) <= 0 {
        return Return(ENCRYPTION_FAILURE);
      }
      var r := Draw();
      ListSends(env, storage.files, files, r);
      var _ :- Reply(m3, r);
      t := Ok(SUCCESS);
    }

    method DownloadRequest(plaintext: bytes, ghost s: ServerState) returns (t: Try<int>)
      requires |plaintext| == MAX_PACKET_SIZE && Asked(s, SDlGot(NameAt(plaintext, 1)))
      requires Bounded(storage.files, TWO_53 - 1)
      modifies this, socket
      ensures |socket.incoming| <= |old(socket.incoming)|
      ensures Valid() && Returned(t)
    {
      hide Valid, Usable, Follows, LE32, CString, Rounds, ServerContinue, ServerSent, ServerText, ServerPcAction, ServerIncrement, Apply;
      var name := ReadDownloadM1(plaintext);
      var _ :- IncrementCounter(s, SDlGot(name));
      t := ReplyDownload(name, s);
    }

    /** The request is counted: look the file up and announce it. */
    method ReplyDownload(name: Name, ghost s: ServerState) returns (t: Try<int>)
      requires Valid() && Holds(machine) && machine == ServerResume(env, Moved(s, SDlGot(name)))
      requires s.auth == SNoAuth && storage.files == s.dir && Bounded(storage.files, TWO_53 - 1)
      modifies this, socket
      ensures |socket.incoming| <= |old(socket.incoming)|
      ensures Valid() && Returned(t)
    {
      hide Usable, Follows, LE32, Rounds, ServerContinue, ServerSent, ServerText, ServerPcAction, ServerIncrement, Apply;
      Others(env);
      DownloadLooks(env, s.dir, name);
      var file: FileManager? := null;
      var code, size := FILE_NOT_FOUND_CODE, 0;
      if name in storage.files {
        file := new FileManager(env, storage, name, READ);
        code, size := DOWNLOAD_ACK, file.fileSize;
      }
      ghost var content := if name in storage.files then storage.files[name] else [];
      var m2 := WriteDownloadM2(code, size);
      var r := Draw();
      DownloadReplies(env, s.dir, code, AnnouncedDownload(size), content, r);
      var _ :- Reply(m2, r);
      if size % U32_RANGE == 0 {
        return Return(FILE_NOT_FOUND);
      }
      t := SendChunks(file, content);
    }

    method SendChunks(file: FileManager?, ghost content: bytes) returns (t: Try<int>)
      requires Valid() && Synced() && machine.auth == SNoAuth && machine.pc == SDlChunk(content, 0) && content != []
      requires file != null && file.storage == storage && file.mode == READ && file.isOpen && file.position == 0
      requires file.name in storage.files && storage.files[file.name] == content && file.PlannedFor(|content|)
      modifies this, socket, file
      ensures |socket.incoming| <= |old(socket.incoming)|
      ensures Valid() && Returned(t)
    {
      hide Valid, Usable, Follows, ChunksNum, ChunkLen, PrefixLen;
      var chunkSize := CHUNK_SIZE;
      var chunk := new byte[chunkSize];
      var i := 0;
      ChunkEnds(|content|);
      while i < file.chunksNum
        invariant 0 <= i <= file.chunksNum && file.PlannedFor(|content|) && file.isOpen && storage.files[file.name] == content
        invariant Valid() && Synced() && machine.auth == SNoAuth && |socket.incoming| <= |old(socket.incoming)|
        invariant file.position == PrefixLen(|content|, i)
        invariant machine.pc == if i < file.chunksNum then SDlChunk(content, i) else SMain
        invariant i < file.chunksNum ==> chunkSize == CHUNK_SIZE
        modifies this, socket, file, chunk
      {
        if i == file.chunksNum - 1 {
          chunkSize := file.lastChunkSize;
        }
        LoopSize(|content|, i, file.chunksNum, file.lastChunkSize, chunkSize);
        var _ :- SendChunk(file, chunk, chunkSize, content, i);
        i := i + 1;
      }
      t := Ok(SUCCESS);
    }

    method SendChunk(file: FileManager, chunk: array<byte>, chunkSize: nat, ghost content: bytes, i: nat) returns (t: Try<Unit>)
      requires Valid() && Synced() && machine.auth == SNoAuth && machine.pc == SDlChunk(content, i) && i < ChunksNum(|content|)
      requires file.storage == storage && file.mode == READ && file.isOpen && file.position == PrefixLen(|content|, i)
      requires file.name in storage.files && storage.files[file.name] == content
      requires chunkSize == ChunkLen(|content|, i) && chunkSize <= chunk.Length
      modifies this, socket, file`position, chunk
      ensures |socket.incoming| <= |old(socket.incoming)|
      ensures Valid() && (!t.Ok? ==> t.Throw? && machine.dir == storage.files && (machine.auth.SFailed? || socket.incoming == []))
      ensures t.Ok? ==> Synced() && machine.auth == SNoAuth && file.position == PrefixLen(|content|, i + 1)
      ensures t.Ok? ==> machine.pc == if i + 1 < ChunksNum(|content|) then SDlChunk(content, i + 1) else SMain
    {
      hide Valid, Usable, Follows, ServerContinue, ServerSent, ServerText, ServerPcAction, Apply, ChunksNum, ChunkLen, PrefixLen;
      ChunkBounds(|content|, i);
      ChunkAt(content, i);
      var code := file.ReadChunk(chunk, chunkSize);
      var m3i := WriteDownloadMi(chunk, chunkSize);
      var r := Draw();
      DownloadSends(env, storage.files, content, i, r);
      t := Reply(m3i, r);
    }

    method RenameRequest(plaintext: bytes, ghost s: ServerState) returns (t: Try<int>)
      requires |plaintext| == MAX_PACKET_SIZE && Asked(s, SRnGot(NameAt(plaintext, 1), NameAt(plaintext, 36)))
      modifies this, socket, storage
      ensures |socket.incoming| <= |old(socket.incoming)|
      ensures Valid() && Returned(t) && Sizes(storage.files, old(storage.files))
    {
      hide Valid, Usable, Follows, CString, ServerContinue, ServerSent, ServerText, ServerPcAction, ServerIncrement, Apply, Sizes, Move, ServerGot;
      var oldName, newName := ReadRename(plaintext);
      SameSizes(storage.files);
      var _ :- IncrementCounter(s, SRnGot(oldName, newName));
      RenameLooks(env, s.dir, oldName, newName);
      var code := ACK;
      if oldName !in storage.files {
        code := RENAME_NOT_FOUND_CODE;
      } else if newName in storage.files {
        code := RENAME_EXISTS_CODE;
      } else {
        storage.files := Move(storage.files, oldName, newName);
        MoveSizes(s.dir, oldName, newName);
      }
      var r := Draw();
      var m2 := WriteSimple(code, r.tail);
      RenameSends(env, machine.dir, code, r);
      var _ :- Reply(m2, r);
      t := Ok(SUCCESS);
    }

    method DeleteRequest(plaintext: bytes, ghost s: ServerState) returns (t: Try<int>)
      requires |plaintext| == MAX_PACKET_SIZE && Asked(s, SDelSend2(NameAt(plaintext, 1)))
      modifies this, socket, storage
      ensures |socket.incoming| <= |old(socket.incoming)|
      ensures Valid() && Returned(t) && Sizes(storage.files, old(storage.files))
    {
      hide Valid, Usable, Follows, CString, ServerContinue, ServerSent, ServerText, ServerPcAction, ServerGot, ServerIncrement, Apply;
      var name := ReadDelete(plaintext);
      var _ :- IncrementCounter(s, SDelSend2(name));
      // M2: ask
      var r := Draw();
      var m2 := WriteSimple(DELETE_ASK, r.tail);
      DeleteAsks(env, s.dir, name, r);
      var _ :- Reply(m2, r);
      t := TakeAnswer(name);
    }

    /** The second half of a delete: the answer, and the removal it confirms. */
    method TakeAnswer(name: Name) returns (t: Try<int>)
      requires Valid() && Synced() && machine.auth == SNoAuth && machine.pc == SDelWait3(name)
      modifies this, socket, storage
      ensures |socket.incoming| <= |old(socket.incoming)|
      ensures Valid() && Returned(t) && Sizes(storage.files, old(storage.files))
    {
      hide Valid, Usable, Follows, ServerContinue, ServerSent, ServerText, ServerPcAction, ServerGot, ServerIncrement, Apply, Sizes;
      SameSizes(storage.files);
      // M3: the answer
      var r := Draw();
      DeleteAsks(env, storage.files, name, r);
      ghost var s3 := machine;
      var answer :- ReceiveSealed(MAX_PACKET_SIZE);
      var code := ReadSimple(answer);
      DeleteHears(env, storage.files, name, answer);
      var _ :- IncrementCounter(s3, SDelGot3(name, code));
      if code != DELETE_CONFIRM {
        return Return(WRONG_MSG_CODE);
      }
      if name !in storage.files {
        return Return(FILENAME_NOT_FOUND);
      }
      RemoveSizes(storage.files, name);
      storage.files := storage.files - {name};
      t := ConfirmDelete();
    }

    method ConfirmDelete() returns (t: Try<int>)
      requires Valid() && Synced() && machine.auth == SNoAuth && machine.pc == SDelSend4
      modifies this, socket
      ensures |socket.incoming| <= |old(socket.incoming)|
      ensures Valid() && Returned(t)
    {
      hide Valid, Usable, Follows, ServerContinue, ServerSent, ServerText, ServerPcAction, Apply;
      var r := Draw();
      // M4
      var m4 := WriteSimple(ACK, r.tail);
      DeleteEnds(env, machine.dir, r);
      var _ :- Reply(m4, r);
      t := Ok(SUCCESS);
    }

    method UploadRequest(plaintext: bytes, ghost s: ServerState) returns (t: Try<int>)
      requires |plaintext| == MAX_PACKET_SIZE && Asked(s, SUpGot(NameAt(plaintext, 1), SizeAt(plaintext, 36)))
      requires Bounded(storage.files, TWO_53 - 1)
      modifies this, socket, storage
      ensures |socket.incoming| <= |old(socket.incoming)|
      ensures Valid() && Returned(t) && Bounded(storage.files, TWO_53 - 1)
    {
      hide Valid, Usable, Follows, CString, FromLE32, ServerContinue, ServerIncrement, Apply, Bounded, Asked;
      var name, size := ReadUploadM1(plaintext);
      AskedFacts(s, SUpGot(name, size));
      var _ :- IncrementCounter(s, SUpGot(name, size));
      t := ReplyUpload(name, size, s);
    }

    lemma AskedFacts(s: ServerState, next: ServerPc)
      requires Asked(s, next)
      ensures Valid() && s.auth == SNoAuth && Holds(s) && storage.files == s.dir && machine == ServerIncrement(env, s, next)
    {
    }

    /** The request is counted: grant it if the name is free. */
    method ReplyUpload(name: Name, size: u32, ghost s: ServerState) returns (t: Try<int>)
      requires Valid() && Holds(machine) && machine == ServerResume(env, Moved(s, SUpGot(name, size)))
      requires s.auth == SNoAuth && storage.files == s.dir && Bounded(storage.files, TWO_53 - 1)
      modifies this, socket, storage
      ensures |socket.incoming| <= |old(socket.incoming)|
      ensures Valid() && Returned(t) && Bounded(storage.files, TWO_53 - 1)
    {
      hide Valid, Usable, Follows, ServerContinue, ServerSent, ServerText, ServerPcAction, ServerIncrement, Apply, Bounded;
      UploadLooks(env, s.dir, name, size);
      // M2
      var code := if name in storage.files then NACK else ACK;
      var r := Draw();
      var m2 := WriteSimple(code, r.tail);
      UploadReplies(env, s.dir, name, size, code, r);
      var _ :- Reply(m2, r);
      if code == NACK {
        return Return(FILENAME_ALREADY_EXISTS);
      }
      t := TakeFile(name, size);
    }

    /** The second half of an upload: the new file's chunks, and the last message. */
    method TakeFile(name: Name, size: u32) returns (t: Try<int>)
      requires Valid() && Holds(machine) && machine.auth == SNoAuth && Bounded(storage.files, TWO_53 - 1)
      requires machine.pc == if ChunksNum(size) == 0 then SUpSendEnd else SUpWaitChunk(name, size, 0)
      requires name !in storage.files && machine.dir == storage.files[name := []]
      modifies this, socket, storage
      ensures |socket.incoming| <= |old(socket.incoming)|
      ensures Valid() && Returned(t) && Bounded(storage.files, TWO_53 - 1)
    {
      hide Usable, Follows, Rounds, ServerContinue, ServerSent, ServerText, ServerPcAction, ServerIncrement, Apply;
      Others(env);
      // M3+i
      var file := new FileManager(env, storage, name, WRITE);
      file.InitFileInfo(env, size);
      var _ :- TakeChunks(file, size);
      t := FinishUpload();
    }

    method FinishUpload() returns (t: Try<int>)
      requires Valid() && Synced() && machine.auth == SNoAuth && machine.pc == SUpSendEnd
      modifies this, socket
      ensures |socket.incoming| <= |old(socket.incoming)|
      ensures Valid() && Returned(t)
    {
      hide Valid, Usable, Follows, ServerContinue, ServerSent, ServerText, ServerPcAction, Apply;
      var r := Draw();
      var last := WriteSimple(ACK, r.tail);
      UploadEnds(env, machine.dir, r);
      var _ :- Reply(last, r);
      t := Ok(SUCCESS);
    }

    method TakeChunks(file: FileManager, ghost size: u32) returns (t: Try<Unit>)
      requires Valid() && Synced() && machine.auth == SNoAuth && Bounded(storage.files, TWO_53 - 1)
      requires machine.pc == if ChunksNum(size) == 0 then SUpSendEnd else SUpWaitChunk(file.name, size, 0)
      requires file.storage == storage && file.mode == WRITE && file.isOpen && file.PlannedFor(size)
      requires file.name in storage.files && storage.files[file.name] == []
      modifies this, socket, storage
      ensures |socket.incoming| <= |old(socket.incoming)|
      ensures Valid() && Bounded(storage.files, TWO_53 - 1)
      ensures t.Ok? ==> Synced() && machine.auth == SNoAuth && machine.pc == SUpSendEnd
      ensures t.Throw? ==> machine.dir == storage.files && (machine.auth.SFailed? || socket.incoming == [])
      ensures t.Return? || t.Gone? ==> Synced() && (AtMenu() || (t.Gone? && socket.incoming == []))
    {
      hide Valid, Usable, Follows, Synced, ChunksNum, ChunkLen, PrefixLen;
      ChunkEnds(size);
      var chunkSize := CHUNK_SIZE;
      var i := 0;
      while i < file.chunksNum
        invariant 0 <= i <= file.chunksNum && file.PlannedFor(size) && file.isOpen
        invariant Valid() && Synced() && machine.auth == SNoAuth && Bounded(storage.files, TWO_53 - 1)
        invariant |socket.incoming| <= |old(socket.incoming)|
        invariant file.name in storage.files && |storage.files[file.name]| == PrefixLen(size, i)
        invariant machine.pc == if i < file.chunksNum then SUpWaitChunk(file.name, size, i) else SUpSendEnd
        invariant i < file.chunksNum ==> chunkSize == CHUNK_SIZE
        modifies this, socket, storage
      {
        if i == file.chunksNum - 1 {
          chunkSize := file.lastChunkSize;
        }
        ChunkBounds(size, i);
        LoopSize(size, i, file.chunksNum, file.lastChunkSize, chunkSize);
        var _ :- TakeChunk(file, chunkSize, size, i);
        i := i + 1;
      }
      t := Ok(Done);
    }

    method TakeChunk(file: FileManager, chunkSize: nat, ghost size: u32, ghost i: nat) returns (t: Try<Unit>)
      requires Valid() && Synced() && machine.auth == SNoAuth && machine.pc == SUpWaitChunk(file.name, size, i)
      requires file.storage == storage && file.mode == WRITE && file.isOpen && file.name in storage.files
      requires chunkSize == ChunkLen(size, i) <= CHUNK_SIZE
      modifies this, socket, storage
      ensures |socket.incoming| <= |old(socket.incoming)|
      ensures Valid()
      ensures file.name in storage.files && forall n :: n in storage.files && n != file.name ==> n in old(storage.files) && storage.files[n] == old(storage.files)[n]
      ensures |storage.files[file.name]| == |old(storage.files)[file.name]| + if t.Ok? then chunkSize else 0
      ensures t.Ok? ==> Synced() && machine.auth == SNoAuth
      ensures t.Ok? ==> machine.pc == if i + 1 < ChunksNum(size) then SUpWaitChunk(file.name, size, i + 1) else SUpSendEnd
      ensures t.Throw? ==> machine.dir == storage.files && (machine.auth.SFailed? || socket.incoming == [])
      ensures t.Return? || t.Gone? ==> Synced() && (AtMenu() || (t.Gone? && socket.incoming == []))
    {
      hide Valid, Usable, Follows, ServerContinue, ServerPcAction, ServerGot, ServerIncrement, Apply, ChunksNum, ChunkLen;
      ghost var s := machine;
      UploadWaits(file.name, size, i);
      var plaintext :- ReceiveSealed(1 + chunkSize);
      UploadHears(env, s.dir, file.name, size, i, plaintext);
      var chunk := ReadUploadMi(plaintext, chunkSize);
      var _ :- IncrementCounter(s, SUpGotChunk(file.name, size, i, chunk[..]));
      var code := file.WriteChunk(chunk, chunkSize);
      assert chunk[..chunkSize] == chunk[..];
      t := Ok(Done);
    }

    /** The reply is sealed with the session key, which is then erased before it is sent. */
    method LogoutRequest(ghost s: ServerState) returns (t: Try<int>)
      requires Asked(s, SLoSend)
      modifies this, socket
      ensures t.Ok? ==> Blank(sessionKey) && machine.key == sessionKey
      ensures |socket.incoming| <= |old(socket.incoming)|
      ensures Valid() && Returned(t)
    {
      hide Usable, Follows, Wrap, ServerContinue, ServerSent, ServerText, ServerPcAction, ServerIncrement, Apply, SessionKey;
      Others(env);
      var _ :- IncrementCounter(s, SLoSend);
      LogoutStays(env, s.dir);
      var r := Draw();
      var m2 := WriteSimple(ACK, r.tail);
      var frame := SealFrame(env, sessionKey, r.iv, counter, m2);
      sessionKey := Zeros(AES_KEY_LEN);
      LogoutSends(r);
      Transmit(frame, r);
      t := Ok(SUCCESS);
    }

    /** Login, then one request after another until the peer is gone or a message is refused. */
    method Run() returns (error: int)
      requires Valid() && Synced() && machine.auth == SWait1 && machine.pc == SMain
      requires Bounded(storage.files, TWO_53 - 1)
      modifies this, socket, storage
      ensures Valid()
      ensures storage.files == machine.dir && (machine.auth.SFailed? || machine.pc.SClosed? || socket.incoming == [])
    {
      hide Usable, Follows, NameAt, SizeAt, ServerContinue, ServerPcAction, ServerGot, ServerIncrement, Apply, Bounded;
      Others(env);
      ghost var s0 := machine;
      var login := AuthenticationRequest();
      if !login.Ok? {
        return AUTHENTICATION_FAILURE;
      }
      MenuStays(env, s0.dir);
      while true
        invariant Valid() && Synced() && Bounded(storage.files, TWO_53 - 1)
        invariant AtMenu() || socket.incoming == []
        decreases |socket.incoming|
      {
        ghost var s := machine;
        MenuStays(env, s.dir);
        var heard := ReceiveSealed(MAX_PACKET_SIZE);
        if !heard.Ok? {
          return if heard.Gone? then RECEIVE_FAILURE else heard.code;
        }
        var t := Dispatch(heard.value, s);
        if t.Throw? {
          return t.code;
        }
      }
    }

    method Dispatch(plaintext: bytes, ghost s: ServerState) returns (t: Try<int>)
      requires |plaintext| == MAX_PACKET_SIZE && Bounded(storage.files, TWO_53 - 1)
      requires Valid() && s.auth == SNoAuth && s.pc == SMain && Holds(s) && storage.files == s.dir
      requires machine == match ServerGot(SMain, plaintext)
                          case None => s
                          case Some(next) => ServerIncrement(env, s, next)
      modifies this, socket, storage
      ensures |socket.incoming| <= |old(socket.incoming)|
      ensures Valid() && Returned(t) && Bounded(storage.files, TWO_53 - 1)
    {
      hide Valid, Usable, Follows, NameAt, SizeAt, ServerContinue, ServerPcAction, ServerGot, ServerIncrement, Apply;
      Dispatched(plaintext);
      var command := plaintext[0];
      if command == LIST_REQUEST {
        t := ListRequest(s);
      } else if command == DOWNLOAD_REQUEST {
        t := DownloadRequest(plaintext, s);
      } else if command == UPLOAD_REQUEST {
        t := UploadRequest(plaintext, s);
      } else if command == RENAME_REQUEST {
        t := RenameRequest(plaintext, s);
      } else if command == DELETE_REQUEST {
        t := DeleteRequest(plaintext, s);
      } else if command == LOGOUT_REQUEST {
        t := LogoutRequest(s);
      } else {
        t := Ok(SUCCESS);
      }
    }
  }
}
