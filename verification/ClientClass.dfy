/** The client as its request functions are written. As in the server class, `machine` moves only when a message is
    sent or received or a command begins, and each function is proved to do what the step function does. */
module ClientClass {
  import opened Config
  import opened Bytes
  import opened Chunks
  import opened Codecs
  import opened Listing
  import opened Env
  import opened Store
  import opened Protocol
  import opened Messages
  import opened FileManager
  import opened FloatCeil
  import opened SocketManager
  import opened Names
  import opened Running
  import opened Turns
  import opened ClientHistory

  function CodeOf(t: Try<int>): int {
    match t
    case Ok(code) => code
    case Return(code) => code
    case Throw(code) => code
    case Gone => RECEIVE_FAILURE
  }

  // ---- The step function at each place of a request ----

  lemma ListAsks(r: Rnd, local: Dir, messages: nat)
    requires ValidRnd(r)
    ensures ClientPcAction(CListAsk, true) == Sends && ClientText(CListAsk, r) == EncSimple(LIST_REQUEST, r.tail)
    ensures ClientSent(CListAsk) == CListWait2 && ClientContinue(CListWait2, local, messages) == Goes(CListWait2, local)
  {
  }

  lemma ListHears2(text: bytes, local: Dir, messages: nat)
    requires |text| == 5
    ensures ClientPcAction(CListWait2, true) == Receives(ENVELOPE_LEN + 5)
    ensures var code, size := text[0], SizeAt(text, 1);
            && ClientGot(CListWait2, text) == CListGot2(code, size)
            && ClientContinue(CListGot2(code, size), local, messages) ==
               (if code != LIST_ACK then Code(local, WRONG_MSG_CODE, messages)
                else if size == 0 then Code(local, SUCCESS, messages)
                else Goes(CListWait3(size), local))
            && ClientPcAction(CListWait3(size), true) == Receives(ENVELOPE_LEN + 1 + size)
  {
  }

  lemma ListHears3(text: bytes, size: u32, local: Dir, messages: nat)
    requires |text| >= 1
    ensures ClientGot(CListWait3(size), text) == CListGot3(text[0], text[1..])
    ensures ClientContinue(CListGot3(text[0], text[1..]), local, messages) ==
            if text[0] != LIST_RESPONSE then Code(local, WRONG_MSG_CODE, messages)
            else Ends(local, Finished(SUCCESS, Listing.Split(CString(text[1..])), messages))
  {
  }

  lemma DownloadAsks(name: Name, r: Rnd, local: Dir, messages: nat)
    requires ValidRnd(r)
    ensures ClientPcAction(CDlAsk(name), true) == Sends
    ensures ClientText(CDlAsk(name), r) == EncNamed(DOWNLOAD_REQUEST, name, r.tail[..35])
    ensures ClientSent(CDlAsk(name)) == CDlWait2(name) && ClientContinue(CDlWait2(name), local, messages) == Goes(CDlWait2(name), local)
  {
  }

  lemma DownloadHears2(name: Name, text: bytes, local: Dir, messages: nat)
    requires |text| == 5
    ensures ClientPcAction(CDlWait2(name), true) == Receives(ENVELOPE_LEN + 5)
    ensures var code, size := text[0], SizeAt(text, 1);
            && ClientGot(CDlWait2(name), text) == CDlGot2(name, code, size)
            && ClientContinue(CDlGot2(name, code, size), local, messages) ==
               (if code == FILE_NOT_FOUND_CODE then Code(local, FILE_NOT_FOUND, messages)
                else if code != DOWNLOAD_ACK then Code(local, WRONG_MSG_CODE, messages)
                else if ChunksNum(size) == 0 then Code(local[name := []], SUCCESS, messages)
                else Goes(CDlWaitChunk(name, size, 0), local[name := []]))
  {
  }

  lemma DownloadGoesOn(name: Name, size: u32, local: Dir, messages: nat)
    ensures ClientContinue(CDlGot2(name, DOWNLOAD_ACK, size), local, messages) ==
            if ChunksNum(size) == 0 then Code(local[name := []], SUCCESS, messages)
            else Goes(CDlWaitChunk(name, size, 0), local[name := []])
  {
  }

  lemma DownloadHears(name: Name, size: u32, i: nat, text: bytes, local: Dir, messages: nat)
    requires |text| >= 1 && name in local
    ensures ClientGot(CDlWaitChunk(name, size, i), text) == CDlGotChunk(name, size, i, text[0], text[1..])
    ensures ClientContinue(CDlGotChunk(name, size, i, text[0], text[1..]), local, messages) ==
            if text[0] != DOWNLOAD_CHUNK then Code(local, WRONG_MSG_CODE, messages)
            else if i + 1 < ChunksNum(size) then Goes(CDlWaitChunk(name, size, i + 1), local[name := local[name] + text[1..]])
            else Code(local[name := local[name] + text[1..]], SUCCESS, messages)
  {
  }

  lemma DownloadWaits(name: Name, size: u32, i: nat)
    ensures ClientPcAction(CDlWaitChunk(name, size, i), true) == Receives(ENVELOPE_LEN + 1 + ChunkLen(size, i))
  {
  }

  lemma UploadAsks(name: Name, content: bytes, r: Rnd, local: Dir, messages: nat)
    requires ValidRnd(r)
    ensures ClientPcAction(CUpAsk(name, content), true) == Sends
    ensures ClientText(CUpAsk(name, content), r) == EncUpload(name, AnnouncedUpload(|content|), r.tail[..31])
    ensures ClientSent(CUpAsk(name, content)) == CUpWait2(content)
    ensures ClientContinue(CUpWait2(content), local, messages) == Goes(CUpWait2(content), local)
  {
  }

  lemma UploadHears2(content: bytes, text: bytes, local: Dir, messages: nat)
    requires |text| >= 1
    ensures ClientPcAction(CUpWait2(content), true) == Receives(ENVELOPE_LEN + MAX_PACKET_SIZE)
    ensures ClientGot(CUpWait2(content), text) == CUpGot2(content, text[0])
    ensures ClientContinue(CUpGot2(content, text[0]), local, messages) ==
            if text[0] == NACK then Code(local, FILE_ALREADY_EXISTS, messages)
            else if text[0] != ACK then Code(local, WRONG_MSG_CODE, messages)
            else if ChunksNum(|content|) == 0 then Goes(CUpWaitEnd, local)
            else Goes(CUpChunk(content, 0), local)
  {
  }

  lemma UploadSends(content: bytes, i: nat, r: Rnd, local: Dir, messages: nat)
    requires ValidRnd(r) && i < ChunksNum(|content|)
    ensures ClientPcAction(CUpChunk(content, i), true) == Sends
    ensures ClientText(CUpChunk(content, i), r) == EncPayload(UPLOAD_CHUNK, Chunk(content, i))
    ensures var next := if i + 1 < ChunksNum(|content|) then CUpChunk(content, i + 1) else CUpWaitEnd;
            ClientSent(CUpChunk(content, i)) == next && ClientContinue(next, local, messages) == Goes(next, local)
  {
  }

  lemma UploadHearsEnd(text: bytes, local: Dir, messages: nat)
    requires |text| >= 1
    ensures ClientPcAction(CUpWaitEnd, true) == Receives(ENVELOPE_LEN + MAX_PACKET_SIZE)
    ensures ClientGot(CUpWaitEnd, text) == CUpGotEnd(text[0])
    ensures ClientContinue(CUpGotEnd(text[0]), local, messages) == Code(local, if text[0] != ACK then WRONG_MSG_CODE else SUCCESS, messages)
  {
  }

  lemma RenameAsks(oldName: Name, newName: Name, r: Rnd, local: Dir, messages: nat)
    requires ValidRnd(r)
    ensures var pc := CRnAsk(oldName, newName);
            ClientPcAction(pc, true) == Sends && ClientText(pc, r) == EncRename(oldName, newName) && ClientSent(pc) == CRnWait
    ensures ClientContinue(CRnWait, local, messages) == Goes(CRnWait, local)
  {
  }

  lemma RenameHears(text: bytes, local: Dir, messages: nat)
    requires |text| >= 1
    ensures ClientPcAction(CRnWait, true) == Receives(ENVELOPE_LEN + MAX_PACKET_SIZE)
    ensures ClientGot(CRnWait, text) == CRnGot(text[0])
    ensures ClientContinue(CRnGot(text[0]), local, messages) ==
            Code(local, if text[0] == RENAME_NOT_FOUND_CODE then FILE_NOT_FOUND
                        else if text[0] == RENAME_EXISTS_CODE then FILE_ALREADY_EXISTS
                        else if text[0] == NACK then RENAME_FAILURE else SUCCESS, messages)
  {
  }

  lemma DeleteAsks(name: Name, confirm: bool, r: Rnd, local: Dir, messages: nat)
    requires ValidRnd(r)
    ensures var pc := CDelAsk(name, confirm);
            ClientPcAction(pc, true) == Sends && ClientText(pc, r) == EncNamed(DELETE_REQUEST, name, r.tail[..35])
            && ClientSent(pc) == CDelWait2(confirm)
    ensures ClientContinue(CDelWait2(confirm), local, messages) == Goes(CDelWait2(confirm), local)
  {
  }

  lemma DeleteHears2(confirm: bool, text: bytes, local: Dir, messages: nat)
    requires |text| >= 1
    ensures ClientPcAction(CDelWait2(confirm), true) == Receives(ENVELOPE_LEN + MAX_PACKET_SIZE)
    ensures ClientGot(CDelWait2(confirm), text) == CDelGot2(confirm, text[0])
    ensures ClientContinue(CDelGot2(confirm, text[0]), local, messages) ==
            if text[0] != DELETE_ASK then Code(local, WRONG_MSG_CODE, messages) else Goes(CDelAnswer(confirm), local)
  {
  }

  lemma DeleteAnswers(confirm: bool, r: Rnd, local: Dir, messages: nat)
    requires ValidRnd(r)
    ensures var pc := CDelAnswer(confirm);
            ClientPcAction(pc, true) == Sends
            && ClientText(pc, r) == EncSimple(if confirm then DELETE_CONFIRM else NO_DELETE_CONFIRM_CODE, r.tail)
            && ClientSent(pc) == CDelSent3(confirm)
    ensures ClientContinue(CDelSent3(confirm), local, messages) ==
            if confirm then Goes(CDelWait4, local) else Code(local, NO_DELETE_CONFIRM, messages)
  {
  }

  lemma DeleteHears4(text: bytes, local: Dir, messages: nat)
    requires |text| >= 1
    ensures ClientPcAction(CDelWait4, true) == Receives(ENVELOPE_LEN + MAX_PACKET_SIZE)
    ensures ClientGot(CDelWait4, text) == CDelGot4(text[0])
    ensures ClientContinue(CDelGot4(text[0]), local, messages) == Code(local, if text[0] != ACK then WRONG_MSG_CODE else SUCCESS, messages)
  {
  }

  lemma LogoutAsks(r: Rnd, local: Dir, messages: nat)
    requires ValidRnd(r)
    ensures ClientPcAction(CLoAsk, true) == Sends && ClientText(CLoAsk, r) == EncSimple(LOGOUT_REQUEST, r.tail) && ClientSent(CLoAsk) == CLoWait
    ensures ClientContinue(CLoWait, local, messages) == Goes(CLoWait, local)
  {
  }

  lemma LogoutWaits()
    ensures ClientPcAction(CLoWait, true) == Receives(ENVELOPE_LEN + MAX_PACKET_SIZE)
  {
  }

  class Client {
    const env: Env
    const socket: Socket
    const local: Storage
    const userName: Name
    var counter: u32
    var sessionKey: bytes

    ghost const start: ClientState
    ghost const given: bytes
    ghost var machine: ClientState
    ghost var history: seq<Turn<ClientState>>

    ghost predicate Valid()
      reads this, socket
    {
      && Usable(env) && Follows(env, start, history, machine, given, socket.incoming, socket.outgoing)
      && userName == machine.user
    }

    predicate Holds(c: ClientState)
      reads this
    {
      counter == c.counter && sessionKey == c.key
    }

    ghost predicate Synced()
      reads this, local
    {
      Holds(machine) && local.files == machine.local
    }

    /** Inside a request, at `pc`. */
    ghost predicate At(pc: ClientPc)
      reads this, local
    {
      Synced() && machine.auth == CNoAuth && machine.pc == pc
    }

    ghost predicate AtMenu()
      reads this, local
    {
      Synced() && machine.auth == CNoAuth && (machine.pc == CIdle || machine.pc == CDone)
    }

    /** The outcomes on record and the commands to do are those of `c`. */
    ghost predicate Unrecorded(c: ClientState)
      reads this
    {
      machine.done == c.done && machine.todo == c.todo
    }

    /** The command in progress in `c` is over, with `outcome` on record. */
    ghost predicate Recorded(c: ClientState, code: int, names: seq<Name>)
      reads this, local
    {
      && AtMenu() && (machine.pc == if c.pc.CLoAsk? || c.pc.CLoWait? then CDone else CIdle)
      && machine.todo == (if c.todo == [] then [] else c.todo[1..])
      && |machine.done| == |c.done| + 1 && machine.done[..|c.done|] == c.done
      && machine.done[|c.done|].Finished? && machine.done[|c.done|].code == code && machine.done[|c.done|].names == names
    }

    /** A request function has returned: its code and list are the outcome on record, unless the peer is gone
        or a handshake has failed. `c` is a state of the request. */
    ghost predicate Returned(t: Try<int>, names: seq<Name>, c: ClientState)
      reads this, local, socket
    {
      if t.Throw? then local.files == machine.local && (machine.auth.CFailed? || socket.incoming == [])
      else if t.Gone? then Synced() && socket.incoming == []
      else Recorded(c, CodeOf(t), names)
    }

    constructor (env: Env, socket: Socket, local: Storage, user: Name, ghost commands: seq<Op>)
      requires Usable(env) && socket.outgoing == []
      ensures Valid() && Synced() && given == socket.incoming
      ensures machine == start == ClientState(user, CIdle, CSend1, 0, [], local.files, commands, [], 0, 0, false)
      ensures this.env == env && this.socket == socket && this.local == local
    {
      this.env, this.socket, this.local, userName := env, socket, local, user;
      counter, sessionKey := 0, [];
      var c := ClientState(user, CIdle, CSend1, 0, [], local.files, commands, [], 0, 0, false);
      start, machine, history, given := c, c, [], socket.incoming;
      new;
      Others(env);
    }

    // ---- Messages ----

    method Transmit(message: array<byte>, ghost r: Rnd)
      requires Valid() && ValidRnd(r) && ClientAction(machine) == Sends
      requires message[..] == ClientSend(env, machine, r).packet.frame
      requires ClientSend(env, machine, r).state.user == machine.user
      modifies this`machine, this`history, socket`outgoing
      ensures Valid() && machine == ClientSend(env, old(machine), r).state
      ensures socket.outgoing == old(socket.outgoing) + [message[..]]
    {
      hide Usable, Follows, ClientSend;
      Others(env);
      var code := socket.Send(message, message.Length);
      assert message[..message.Length] == message[..];
      Proceeds(env, start, history, machine, given, socket.incoming, old(socket.outgoing), Say(r), socket.incoming);
      history := history + [TurnOf(env, machine, Say(r))];
      machine := ClientSend(env, machine, r).state;
    }

    /** Wait for `length` bytes. Counting them in an int makes too long a message fail although it has been read. */
    method Await(length: nat) returns (t: Try<bytes>)
      requires Valid() && length > 0
      requires socket.incoming == [] || ClientAction(machine) == Receives(length)
      modifies this`machine, this`history, socket`incoming
      ensures Valid() && !t.Throw?
      ensures t.Gone? ==> machine == old(machine) && socket.incoming == []
      ensures !t.Gone? ==> old(socket.incoming) != [] && ClientAction(old(machine)) == Receives(length)
      ensures t.Ok? ==> |t.value| == length <= MAX_INT && machine == ClientReceive(env, old(machine), t.value)
      ensures t.Return? ==> t.code == RECEIVE_FAILURE && length > MAX_INT
                            && exists data :: |data| == length && machine == ClientReceive(env, old(machine), data)
    {
      hide Usable, Follows, ClientReceive;
      Others(env);
      var buffer := new byte[length];
      var ended := length > |socket.incoming|;
      var code := socket.Receive(buffer);
      if ended {
        Drained(env, start, history, machine, given, old(socket.incoming), socket.outgoing);
        return Gone;
      }
      var data := buffer[..];
      assert old(socket.incoming) == data + socket.incoming;
      Proceeds(env, start, history, machine, given, old(socket.incoming), socket.outgoing, Take(data), socket.incoming);
      assert socket.outgoing + FrameOf(env, machine, Take(data)) == socket.outgoing;
      ReceiveKeepsUser(env, machine, data);
      history := history + [TurnOf(env, machine, Take(data))];
      machine := ClientReceive(env, machine, data);
      t := if code == 0 then Ok(data) else Return(RECEIVE_FAILURE);
    }

    ghost function Moved(c: ClientState, next: ClientPc): ClientState
      reads this
    {
      c.(pc := next, messages := c.messages + 1, index := c.index + 1, counter := counter, key := sessionKey)
    }

    lemma AtPlace(pc: ClientPc)
      requires At(pc)
      ensures machine.pc == pc
    {
    }

    /** The counter has moved and the request goes on at `pc`. */
    lemma GoesOn(c: ClientState, next: ClientPc, pc: ClientPc)
      requires c.auth == CNoAuth && Holds(machine) && machine == ClientResume(Moved(c, next))
      requires ClientContinue(next, c.local, c.messages + 1) == Goes(pc, local.files)
      ensures At(pc) && Unrecorded(c)
    {
      hide ClientContinue, Finish;
    }

    /** The counter has moved and the request is over. */
    lemma IsOver(c: ClientState, next: ClientPc, code: int, names: seq<Name>)
      requires c.auth == CNoAuth && !c.pc.CLoAsk? && !c.pc.CLoWait? && Holds(machine) && machine == ClientResume(Moved(c, next))
      requires ClientContinue(next, c.local, c.messages + 1) == Ends(local.files, Finished(code, names, c.messages + 1))
      ensures Recorded(c, code, names) && Synced() && machine.auth == CNoAuth
    {
      hide ClientContinue;
    }

    lemma SameRecord(c: ClientState, d: ClientState, t: Try<int>, names: seq<Name>)
      requires Returned(t, names, c) && c.done == d.done && c.todo == d.todo
      requires c.pc.CLoAsk? || c.pc.CLoWait? <==> d.pc.CLoAsk? || d.pc.CLoWait?
      ensures Returned(t, names, d)
    {
    }

    lemma IsRefused(c: ClientState, frame: bytes)
      requires c.auth == CNoAuth && Holds(c) && local.files == c.local && |frame| >= ENVELOPE_LEN && machine == ClientReject(env, c, frame)
      requires !c.pc.CLoAsk?
      ensures Recorded(c, if Unwrap(env, c.key, frame).None? then DECRYPTION_FAILURE else WRONG_COUNTER, [])
    {
      hide Unwrap;
    }

    /** A message whose length does not fit in an int ends the request. */
    lemma TooLong(c: ClientState, length: nat)
      requires c.auth == CNoAuth && Holds(c) && local.files == c.local && ENVELOPE_LEN + length > MAX_INT
      requires ClientAction(c) == Receives(ENVELOPE_LEN + length)
      requires exists data :: |data| == ENVELOPE_LEN + length && machine == ClientReceive(env, c, data)
      ensures Recorded(c, RECEIVE_FAILURE, [])
    {
      hide ClientReceive, Accept, ClientAction;
      var data :| |data| == ENVELOPE_LEN + length && machine == ClientReceive(env, c, data);
      TooLongIsRefused(env, c, data);
    }

    /** Send one sealed message and count it. */
    method Ask(plaintext: bytes, r: Rnd) returns (t: Try<Unit>)
      requires Valid() && Synced() && ValidRnd(r)
      requires machine.auth == CNoAuth && ClientPcAction(machine.pc, true) == Sends && plaintext == ClientText(machine.pc, r)
      requires |plaintext| <= MAX_INT
      modifies this, socket
      ensures Valid()
      ensures t.Ok? ==> Holds(machine) && machine == ClientResume(Moved(old(machine), ClientSent(old(machine).pc)))
      ensures !t.Ok? ==> t.Throw? && machine.local == old(machine).local && (machine.auth.CFailed? || socket.incoming == [])
    {
      hide Usable, Follows, Wrap, ClientText, ClientContinue;
      Others(env);
      ghost var c := machine;
      var frame := SealFrame(env, sessionKey, r.iv, counter, plaintext);
      assert ClientSend(env, c, r) == ClientOutput(Counted(c.index, frame[..]), ClientIncrement(c, ClientSent(c.pc)));
      Transmit(frame, r);
      t := IncrementCounter(c, ClientSent(c.pc));
    }

    /** Receive one sealed message and check its counter. */
    method ReceiveSealed(length: nat) returns (t: Try<bytes>)
      requires Valid() && Synced() && length >= 1
      requires machine.auth == CNoAuth && !machine.pc.CLoAsk? && ClientPcAction(machine.pc, true) == Receives(ENVELOPE_LEN + length)
      modifies this`machine, this`history, socket`incoming
      ensures Valid()
      ensures t.Ok? ==> |t.value| == length
      ensures t.Ok? && !old(machine).pc.CLoWait? ==> machine == ClientIncrement(old(machine), ClientGot(old(machine).pc, t.value))
      ensures t.Ok? && old(machine).pc.CLoWait? ==>
                machine == Protocol.Return(old(machine).(messages := old(machine).messages + 1),
                                           if t.value[0] == ACK then SUCCESS else WRONG_MSG_CODE).(pc := CDone)
      ensures t.Gone? ==> Returned(Gone, [], old(machine))
      ensures t.Return? ==> Returned(Return(t.code), [], old(machine))
      ensures !t.Throw?
    {
      hide Usable, Follows, ClientIncrement, ClientGot, ClientReject, Recorded;
      ghost var c := machine;
      var received := Await(ENVELOPE_LEN + length);
      if received.Return? {
        TooLong(c, length);
        return Return(RECEIVE_FAILURE);
      }
      if received.Gone? {
        return Gone;
      }
      var data := received.value;
      var message := new Generic.Deserialize(data, length);
      var plaintext := message.Decrypt(env, sessionKey);
      if plaintext.None? {
        IsRefused(c, data);
        return Return(DECRYPTION_FAILURE);
      }
      Running.Opening(env, sessionKey, message.iv, message.aad, Sealed(message.ciphertext, message.tag));
      if counter != message.Counter() {
        IsRefused(c, data);
        return Return(WRONG_COUNTER);
      }
      assert Accept(env, old(machine).key, old(machine).counter, data) == plaintext;
      t := Ok(plaintext.value);
    }

    // ---- Counter and handshake ----

    method IncrementCounter(ghost c: ClientState, ghost next: ClientPc) returns (t: Try<Unit>)
      requires Valid() && c.auth == CNoAuth && Holds(c) && machine == ClientIncrement(c, next)
      modifies this, socket
      ensures Valid()
      ensures t.Ok? ==> Holds(machine) && machine == ClientResume(Moved(c, next))
      ensures !t.Ok? ==> t.Throw? && machine.local == c.local && (machine.auth.CFailed? || socket.incoming == [])
    {
      hide Usable, Follows, ClientContinue;
      if counter == MAX_COUNTER_VALUE {
        var result := AuthenticationRequest();
        if !result.Ok? {
          return Throw(AUTHENTICATION_FAILURE);
        }
      } else {
        counter := counter + 1;
      }
      t := Ok(Done);
    }

    method AuthenticationRequest() returns (t: Try<Unit>)
      requires Valid() && machine.auth == CSend1 && Holds(machine)
      modifies this, socket
      ensures Valid()
      ensures t.Ok? ==> Holds(machine) && counter == 0
                        && machine == ClientResume(old(machine).(auth := CNoAuth, counter := 0, key := sessionKey))
      ensures !t.Ok? ==> machine.local == old(machine).local && (machine.auth.CFailed? || socket.incoming == [])
    {
      hide Usable, Follows, ClientContinue, PublicKey;
      ghost var c := machine;
      // M1
      var r := Draw();
      KeysFit(env, r.secret);
      var own := PublicKey(env, r.secret);
      var serialized := WriteM1(own, userName);
      Transmit(serialized, r);
      // M2
      var data :- Await(MAX_PACKET_SIZE);
      var code := ReadSimple(data);
      if code != ACK {
        return Return(USERNAME_NOT_FOUND);
      }
      // M3
      var signature :- TakeKey(own, r.secret, c);
      // M4, M5
      t := SendSignature(signature, c);
    }

    /** Receive the server's key, derive the session key, verify the signature of both keys and sign them. */
    method TakeKey(own: bytes, secret: nat, ghost c: ClientState) returns (t: Try<bytes>)
      requires Valid() && own == PublicKey(env, secret) && machine == c.(auth := CWait3(secret))
      modifies this`machine, this`history, this`counter, this`sessionKey, socket`incoming
      ensures Valid()
      ensures t.Ok? ==> counter == 1 && machine == c.(key := sessionKey, counter := 1, auth := CSend4(t.value))
                        && |t.value| == ENCRYPTED_SIGNATURE_LEN
      ensures !t.Ok? ==> machine.local == c.local && (machine.auth.CFailed? || socket.incoming == [])
    {
      hide Usable, Follows, PublicKey, SessionKey, FromLE32, KeyTaken, ClientReceiveOp;
      var data :- Await(AUTH_M3_LEN);
      var m3 := new AuthenticationM3.Deserialize(data);
      counter := 0;
      if !m3.CheckCounter(counter) {
        return Return(WRONG_COUNTER);
      }
      counter := counter + 1;
      var peer := m3.Key();
      var key := SessionKey(env, secret, peer);
      if key.None? {
        return Return(AUTHENTICATION_FAILURE);
      }
      sessionKey := key.value;
      assert machine == KeyTaken(env, c.(auth := CWait3(secret)), secret, data, key.value);
      t := CheckSignature(m3, own + peer, data, secret, c);
    }

    /** The signature in M3 opens under the new key and verifies under a certified key; sign in turn. */
    method CheckSignature(m3: AuthenticationM3, transcript: bytes, ghost data: bytes, ghost secret: nat, ghost c: ClientState)
      returns (t: Try<bytes>)
      requires |data| == AUTH_M3_LEN && m3.Certificate() == AuthM3Cert(data) && m3.iv == data[1028..1040] && m3.aad == data[1040..1044]
      requires m3.tag == data[1044..1060] && m3.signature == data[1060..1188] && transcript == PublicKey(env, secret) + AuthM3Key(data)
      requires Valid() && counter == 1 && machine == KeyTaken(env, c.(auth := CWait3(secret)), secret, data, sessionKey)
      ensures t.Ok? ==> machine == c.(key := sessionKey, counter := 1, auth := CSend4(t.value)) && |t.value| == ENCRYPTED_SIGNATURE_LEN
      ensures !t.Ok? ==> machine.local == c.local && machine.auth.CFailed?
    {
      hide Usable, Follows, PublicKey, AuthM3Key, AuthM3Cert;
      var signature := env.Open(sessionKey, m3.iv, m3.aad, Sealed(m3.signature, m3.tag));
      if signature.None? {
        return Return(DECRYPTION_FAILURE);
      }
      var ownSignature := env.ClientSign(transcript);
      SignaturesFit(env, transcript);
      var serverKey := env.CertifiedKey(m3.Certificate());
      if serverKey.None? {
        return Return(AUTHENTICATION_FAILURE);
      }
      if !env.Verify(serverKey.value, transcript, signature.value) {
        return Return(AUTHENTICATION_FAILURE);
      }
      t := Ok(ownSignature);
    }

    /** Send the sealed signature and receive the verdict. */
    method SendSignature(signature: bytes, ghost c: ClientState) returns (t: Try<Unit>)
      requires Valid() && machine == c.(key := sessionKey, counter := 1, auth := CSend4(signature)) && counter == 1
      requires |signature| == ENCRYPTED_SIGNATURE_LEN
      modifies this`machine, this`history, this`counter, socket
      ensures Valid()
      ensures t.Ok? ==> counter == 0 && machine == ClientResume(c.(auth := CNoAuth, counter := 0, key := sessionKey))
      ensures !t.Ok? ==> machine.local == c.local && (machine.auth.CFailed? || socket.incoming == [])
    {
      hide Usable, Follows, ClientResume, LE32;
      var r := Draw();
      Others(env);
      // M4
      var aad := LE32(counter);
      var sealed := env.Seal(sessionKey, r.iv, aad, signature);
      Sealing(env, sessionKey, r.iv, aad, signature);
      var serialized := WriteM4(r.iv, aad, sealed.tag, sealed.text);
      Transmit(serialized, r);
      counter := counter + 1;
      t := TakeVerdict(c);
    }

    /** Receive the verdict on the signature. */
    method TakeVerdict(ghost c: ClientState) returns (t: Try<Unit>)
      requires Valid() && machine == c.(key := sessionKey, counter := 2, auth := CWait5) && counter == 2
      modifies this`machine, this`history, this`counter, socket`incoming
      ensures Valid()
      ensures t.Ok? ==> counter == 0 && machine == ClientResume(c.(auth := CNoAuth, counter := 0, key := sessionKey))
      ensures !t.Ok? ==> machine.local == c.local && (machine.auth.CFailed? || socket.incoming == [])
    {
      hide Usable, Follows, ClientResume, ClientReceiveOp, ClientReceiveM3;
      // M5
      var data :- Await(ENVELOPE_LEN + MAX_PACKET_SIZE);
      var message := new Generic.Deserialize(data, MAX_PACKET_SIZE);
      var plaintext := message.Decrypt(env, sessionKey);
      if plaintext.None? {
        return Return(DECRYPTION_FAILURE);
      }
      Running.Opening(env, sessionKey, message.iv, message.aad, Sealed(message.ciphertext, message.tag));
      if counter != message.Counter() {
        return Throw(WRONG_COUNTER);
      }
      if plaintext.value[0] != ACK {
        return Return(AUTHENTICATION_FAILURE);
      }
      counter := 0;
      t := Ok(Done);
    }

    // ---- Requests ----

    method ListRequest() returns (t: Try<int>, names: seq<Name>)
      requires Valid() && At(CListAsk)
      modifies this, socket
      ensures Valid() && Returned(t, names, old(machine))
    {
      hide Valid, Usable, Follows, ClientContinue, ClientSent, ClientText, ClientPcAction, ClientGot, ClientIncrement, SizeAt, ClientResume, Recorded, Finish;
      names := [];
      // M1
      ghost var c := machine;
      var r := Draw();
      ListAsks(r, c.local, c.messages + 1);
      var m1 := WriteSimple(LIST_REQUEST, r.tail);
      var sent := Ask(m1, r);
      if !sent.Ok? {
        return sent.PropagateFailure(), [];
      }
      GoesOn(c, CListWait2, CListWait2);
      ghost var c2 := machine;
      t, names := ListReply();
      SameRecord(c2, c, t, names);
    }

    method ListReply() returns (t: Try<int>, names: seq<Name>)
      requires Valid() && At(CListWait2)
      modifies this, socket
      ensures Valid() && Returned(t, names, old(machine))
    {
      hide Valid, Usable, Follows, ClientContinue, ClientPcAction, ClientGot, ClientIncrement, SizeAt, ClientResume, Recorded, Finish;
      // M2
      ghost var c2 := machine;
      ListHears2([0, 0, 0, 0, 0], c2.local, c2.messages + 1);
      var heard := ReceiveSealed(5);
      if !heard.Ok? {
        return heard.PropagateFailure(), [];
      }
      t, names := ListAnswered(heard.value, c2);
    }

    method ListAnswered(text: bytes, ghost c2: ClientState) returns (t: Try<int>, names: seq<Name>)
      requires Valid() && Holds(c2) && c2.auth == CNoAuth && c2.pc == CListWait2 && local.files == c2.local
      requires |text| == 5 && machine == ClientIncrement(c2, ClientGot(c2.pc, text))
      modifies this, socket
      ensures Valid() && Returned(t, names, c2)
    {
      hide Valid, Usable, Follows, ClientContinue, ClientPcAction, ClientGot, ClientIncrement, SizeAt, ClientResume, Recorded, Finish;
      ListHears2(text, c2.local, c2.messages + 1);
      var code, size := ReadListM2(text);
      var counted := IncrementCounter(c2, CListGot2(code, size));
      if !counted.Ok? {
        return counted.PropagateFailure(), [];
      }
      if code != LIST_ACK {
        IsOver(c2, CListGot2(code, size), WRONG_MSG_CODE, []);
        return Return(WRONG_MSG_CODE), [];
      }
      if size == 0 {
        IsOver(c2, CListGot2(code, size), SUCCESS, []);
        return Ok(SUCCESS), [];
      }
      GoesOn(c2, CListGot2(code, size), CListWait3(size));
      ghost var c3 := machine;
      t, names := TakeList(size);
      SameRecord(c3, c2, t, names);
    }

    method TakeList(size: u32) returns (t: Try<int>, names: seq<Name>)
      requires Valid() && At(CListWait3(size)) && ClientPcAction(CListWait3(size), true) == Receives(ENVELOPE_LEN + 1 + size)
      modifies this, socket
      ensures Valid() && Returned(t, names, old(machine))
    {
      hide Valid, Usable, Follows, ClientContinue, ClientPcAction, ClientGot, ClientIncrement, CString, Listing.Split;
      ghost var c := machine;
      var heard := ReceiveSealed(1 + size);
      if !heard.Ok? {
        return heard.PropagateFailure(), [];
      }
      ListHears3(heard.value, size, c.local, c.messages + 1);
      var code, files := ReadListM3(heard.value, size);
      var counted := IncrementCounter(c, CListGot3(code, files));
      if !counted.Ok? {
        return counted.PropagateFailure(), [];
      }
      if code != LIST_RESPONSE {
        return Return(WRONG_MSG_CODE), [];
      }
      names := ReadFileNames(CString(files));
      t := Ok(SUCCESS);
    }

    method DownloadRequest(name: Name) returns (t: Try<int>)
      requires Valid() && At(CDlAsk(name)) && name !in local.files
      modifies this, socket, local
      ensures Valid() && Returned(t, [], old(machine))
    {
      hide Valid, Usable, Follows, ClientContinue, ClientSent, ClientText, ClientPcAction, ClientGot, ClientIncrement, SizeAt, Rounds;
      // M1
      ghost var c := machine;
      var r := Draw();
      DownloadAsks(name, r, c.local, c.messages + 1);
      var m1 := WriteDownloadM1(name, r.tail[..35]);
      var _ :- Ask(m1, r);
      t := DownloadReply(name);
    }

    method DownloadReply(name: Name) returns (t: Try<int>)
      requires Valid() && At(CDlWait2(name)) && name !in local.files
      modifies this, socket, local
      ensures Valid() && Returned(t, [], old(machine))
    {
      hide Valid, Usable, Follows, ClientContinue, ClientPcAction, ClientGot, ClientIncrement, SizeAt, Rounds, ClientResume, Recorded, Finish, ChunksNum;
      // M2
      ghost var c2 := machine;
      DownloadHears2(name, [0, 0, 0, 0, 0], c2.local, c2.messages + 1);
      var text :- ReceiveSealed(5);
      t := DownloadAnswered(name, text, c2);
    }

    method DownloadAnswered(name: Name, text: bytes, ghost c2: ClientState) returns (t: Try<int>)
      requires Valid() && Holds(c2) && c2.auth == CNoAuth && c2.pc == CDlWait2(name) && local.files == c2.local && name !in local.files
      requires |text| == 5 && machine == ClientIncrement(c2, ClientGot(c2.pc, text))
      modifies this, socket, local
      ensures Valid() && Returned(t, [], c2)
    {
      hide Valid, Usable, Follows, ClientContinue, ClientGot, ClientIncrement, SizeAt, ClientResume, Recorded, Finish, ChunksNum;
      DownloadHears2(name, text, c2.local, c2.messages + 1);
      var code, size := ReadDownloadM2(text);
      var _ :- IncrementCounter(c2, CDlGot2(name, code, size));
      if code == FILE_NOT_FOUND_CODE {
        IsOver(c2, CDlGot2(name, code, size), FILE_NOT_FOUND, []);
        return Return(FILE_NOT_FOUND);
      }
      if code != DOWNLOAD_ACK {
        IsOver(c2, CDlGot2(name, code, size), WRONG_MSG_CODE, []);
        return Return(WRONG_MSG_CODE);
      }
      t := TakeFile(name, size, c2);
    }

    /** The reply announced a file: create it, empty, and receive its chunks. */
    method TakeFile(name: Name, size: u32, ghost c2: ClientState) returns (t: Try<int>)
      requires Valid() && Holds(machine) && local.files == c2.local && name !in local.files
      requires c2.auth == CNoAuth && c2.pc == CDlWait2(name) && machine == ClientResume(Moved(c2, CDlGot2(name, DOWNLOAD_ACK, size)))
      modifies this, socket, local
      ensures Valid() && Returned(t, [], c2)
    {
      hide Usable, Follows, ClientContinue, ClientIncrement, SizeAt, Rounds, ClientResume, Recorded, Finish, ChunksNum;
      Others(env);
      DownloadGoesOn(name, size, c2.local, c2.messages + 1);
      var file := new FileManager(env, local, name, WRITE);
      file.InitFileInfo(env, size);
      if ChunksNum(size) == 0 {
        IsOver(c2, CDlGot2(name, DOWNLOAD_ACK, size), SUCCESS, []);
      } else {
        GoesOn(c2, CDlGot2(name, DOWNLOAD_ACK, size), CDlWaitChunk(name, size, 0));
      }
      t := TakeChunks(file, size, c2);
    }

    method TakeChunks(file: FileManager, ghost size: u32, ghost c: ClientState) returns (t: Try<int>)
      requires Valid() && !c.pc.CLoAsk? && !c.pc.CLoWait?
      requires if ChunksNum(size) == 0 then Returned(Ok(SUCCESS), [], c) else At(CDlWaitChunk(file.name, size, 0)) && Unrecorded(c)
      requires file.storage == local && file.mode == WRITE && file.isOpen && file.PlannedFor(size) && file.name in local.files
      modifies this, socket, local
      ensures Valid() && Returned(t, [], c)
    {
      hide At, Returned, Valid, Usable, Follows, ChunksNum, ChunkLen;
      ChunkEnds(size);
      var chunkSize := CHUNK_SIZE;
      var i := 0;
      while i < file.chunksNum
        invariant 0 <= i <= file.chunksNum && file.PlannedFor(size) && file.isOpen
        invariant Valid() && file.name in local.files
        invariant if i < file.chunksNum then At(CDlWaitChunk(file.name, size, i)) && Unrecorded(c)
                  else Returned(Ok(SUCCESS), [], c)
        invariant i < file.chunksNum ==> chunkSize == CHUNK_SIZE
        modifies this, socket, local
      {
        if i == file.chunksNum - 1 {
          chunkSize := file.lastChunkSize;
        }
        LoopSize(size, i, file.chunksNum, file.lastChunkSize, chunkSize);
        ghost var ci := machine;
        AtPlace(CDlWaitChunk(file.name, size, i));
        var result := TakeChunk(file, chunkSize, size, i);
        if !result.Ok? || i == file.chunksNum - 1 {
          SameRecord(ci, c, result, []);
        }
        if !result.Ok? {
          return result;
        }
        i := i + 1;
      }
      t := Ok(SUCCESS);
    }

    /** Receive one chunk of a download and write it. */
    method TakeChunk(file: FileManager, chunkSize: nat, ghost size: u32, ghost i: nat) returns (t: Try<int>)
      requires Valid() && At(CDlWaitChunk(file.name, size, i)) && i < ChunksNum(size) && chunkSize == ChunkLen(size, i)
      requires file.storage == local && file.mode == WRITE && file.isOpen && file.name in local.files
      modifies this, socket, local
      ensures Valid()
      ensures !t.Ok? ==> Returned(t, [], old(machine))
      ensures t.Ok? ==> t == Ok(SUCCESS) && file.name in local.files
      ensures t.Ok? ==> if i + 1 < ChunksNum(size) then At(CDlWaitChunk(file.name, size, i + 1)) && Unrecorded(old(machine))
                        else Returned(t, [], old(machine))
    {
      hide Valid, Usable, Follows, ClientContinue, ClientPcAction, ClientGot, ClientIncrement, ChunksNum, ChunkLen, ClientResume, Recorded, Finish;
      ghost var c := machine;
      DownloadWaits(file.name, size, i);
      var text :- ReceiveSealed(1 + chunkSize);
      t := ChunkAnswered(file, chunkSize, text, size, i, c);
    }

    method ChunkAnswered(file: FileManager, chunkSize: nat, text: bytes, ghost size: u32, ghost i: nat, ghost c: ClientState)
      returns (t: Try<int>)
      requires Valid() && Holds(c) && c.auth == CNoAuth && c.pc == CDlWaitChunk(file.name, size, i) && local.files == c.local
      requires |text| == 1 + chunkSize && machine == ClientIncrement(c, ClientGot(c.pc, text))
      requires file.storage == local && file.mode == WRITE && file.isOpen && file.name in local.files
      modifies this, socket, local
      ensures Valid()
      ensures !t.Ok? ==> Returned(t, [], c)
      ensures t.Ok? ==> t == Ok(SUCCESS) && file.name in local.files
      ensures t.Ok? ==> if i + 1 < ChunksNum(size) then At(CDlWaitChunk(file.name, size, i + 1)) && Unrecorded(c)
                        else Returned(t, [], c)
    {
      hide Valid, Usable, Follows, ClientContinue, ClientGot, ClientIncrement, ChunksNum, ChunkLen, ClientResume, Recorded, Finish;
      DownloadHears(file.name, size, i, text, c.local, c.messages + 1);
      var code, chunk := ReadDownloadMi(text, chunkSize);
      var _ :- IncrementCounter(c, CDlGotChunk(file.name, size, i, code, text[1..]));
      if code != DOWNLOAD_CHUNK {
        IsOver(c, CDlGotChunk(file.name, size, i, code, text[1..]), WRONG_MSG_CODE, []);
        return Return(WRONG_MSG_CODE);
      }
      var written := file.WriteChunk(chunk, chunkSize);
      assert chunk[..chunkSize] == text[1..];
      if i + 1 < ChunksNum(size) {
        GoesOn(c, CDlGotChunk(file.name, size, i, code, text[1..]), CDlWaitChunk(file.name, size, i + 1));
      } else {
        IsOver(c, CDlGotChunk(file.name, size, i, code, text[1..]), SUCCESS, []);
      }
      t := Ok(SUCCESS);
    }

    /** The file has been found and its size accepted. */
    method UploadRequest(name: Name, file: FileManager) returns (t: Try<int>)
      requires Valid() && name in local.files && At(CUpAsk(name, local.files[name]))
      requires file.storage == local && file.name == name && file.mode == READ && file.isOpen && file.position == 0
      requires file.PlannedFor(|local.files[name]|) && local.files[name] != []
      modifies this, socket, file
      ensures Valid() && Returned(t, [], old(machine))
    {
      hide Valid, Usable, Follows, ClientContinue, ClientSent, ClientText, ClientPcAction, ClientGot, ClientIncrement, ChunksNum;
      ghost var content := local.files[name];
      // M1
      ghost var c := machine;
      var r := Draw();
      UploadAsks(name, content, r, c.local, c.messages + 1);
      var m1 := WriteUploadM1(name, file.fileSize, r.tail[..31]);
      var _ :- Ask(m1, r);
      t := UploadReply(file, content);
    }

    method UploadReply(file: FileManager, ghost content: bytes) returns (t: Try<int>)
      requires Valid() && At(CUpWait2(content)) && content != []
      requires file.storage == local && file.mode == READ && file.isOpen && file.position == 0
      requires file.name in local.files && local.files[file.name] == content && file.PlannedFor(|content|)
      modifies this, socket, file
      ensures Valid() && Returned(t, [], old(machine))
    {
      hide Valid, Usable, Follows, ClientContinue, ClientPcAction, ClientGot, ClientIncrement, ChunksNum, ClientResume, Recorded, Finish;
      // M2
      ghost var c2 := machine;
      UploadHears2(content, [0], c2.local, c2.messages + 1);
      var text :- ReceiveSealed(MAX_PACKET_SIZE);
      UploadHears2(content, text, c2.local, c2.messages + 1);
      var code := ReadSimple(text);
      var _ :- IncrementCounter(c2, CUpGot2(content, code));
      if code == NACK {
        IsOver(c2, CUpGot2(content, code), FILE_ALREADY_EXISTS, []);
        return Return(FILE_ALREADY_EXISTS);
      }
      if code != ACK {
        IsOver(c2, CUpGot2(content, code), WRONG_MSG_CODE, []);
        return Return(WRONG_MSG_CODE);
      }
      // M3+i
      ChunkEnds(|content|);
      GoesOn(c2, CUpGot2(content, code), CUpChunk(content, 0));
      ghost var c3 := machine;
      t := SendFile(file, content);
      SameRecord(c3, c2, t, []);
    }

    method SendFile(file: FileManager, ghost content: bytes) returns (t: Try<int>)
      requires Valid() && At(CUpChunk(content, 0)) && content != []
      requires file.storage == local && file.mode == READ && file.isOpen && file.position == 0
      requires file.name in local.files && local.files[file.name] == content && file.PlannedFor(|content|)
      modifies this, socket, file
      ensures Valid() && Returned(t, [], old(machine))
    {
      hide Valid, Usable, Follows, Recorded;
      ghost var c := machine;
      var _ :- SendChunks(file, content);
      ghost var c2 := machine;
      t := UploadEnd();
      SameRecord(c2, c, t, []);
    }

    method UploadEnd() returns (t: Try<int>)
      requires Valid() && At(CUpWaitEnd)
      modifies this, socket
      ensures Valid() && Returned(t, [], old(machine))
    {
      hide Valid, Usable, Follows, ClientContinue, ClientPcAction, ClientGot, ClientIncrement, ClientResume, Recorded, Finish;
      ghost var c := machine;
      UploadHearsEnd([0], c.local, c.messages + 1);
      var text :- ReceiveSealed(MAX_PACKET_SIZE);
      UploadHearsEnd(text, c.local, c.messages + 1);
      var code := ReadSimple(text);
      var _ :- IncrementCounter(c, CUpGotEnd(code));
      IsOver(c, CUpGotEnd(code), if code != ACK then WRONG_MSG_CODE else SUCCESS, []);
      if code != ACK {
        return Return(WRONG_MSG_CODE);
      }
      t := Ok(SUCCESS);
    }

    method SendChunks(file: FileManager, ghost content: bytes) returns (t: Try<Unit>)
      requires Valid() && At(CUpChunk(content, 0)) && content != []
      requires file.storage == local && file.mode == READ && file.isOpen && file.position == 0
      requires file.name in local.files && local.files[file.name] == content && file.PlannedFor(|content|)
      modifies this, socket, file
      ensures Valid()
      ensures t.Ok? ==> At(CUpWaitEnd) && Unrecorded(old(machine))
      ensures !t.Ok? ==> t.Throw? && local.files == machine.local && (machine.auth.CFailed? || socket.incoming == [])
    {
      hide At, Valid, Usable, Follows, ChunksNum, ChunkLen, PrefixLen, LastChunkSize;
      ghost var c := machine;
      ChunkEnds(|content|);
      var chunkSize := CHUNK_SIZE;
      var chunk := new byte[chunkSize];
      var i := 0;
      while i < file.chunksNum
        invariant 0 <= i <= file.chunksNum && file.PlannedFor(|content|) && file.isOpen && local.files[file.name] == content
        invariant Valid() && At(if i < file.chunksNum then CUpChunk(content, i) else CUpWaitEnd) && Unrecorded(c)
        invariant file.position == PrefixLen(|content|, i)
        invariant i < file.chunksNum ==> chunkSize == CHUNK_SIZE
        modifies this, socket, file, chunk
      {
        if i == file.chunksNum - 1 {
          chunkSize := file.lastChunkSize;
        }
        LoopSize(|content|, i, file.chunksNum, file.lastChunkSize, chunkSize);
        var _ :- SendChunk(file, chunk, chunkSize, content, i);
        i := i + 1;
      }
      t := Ok(Done);
    }

    /** Read one chunk of an upload and send it. */
    method SendChunk(file: FileManager, chunk: array<byte>, chunkSize: nat, ghost content: bytes, ghost i: nat) returns (t: Try<Unit>)
      requires Valid() && At(CUpChunk(content, i)) && i < ChunksNum(|content|)
      requires file.storage == local && file.mode == READ && file.isOpen && file.position == PrefixLen(|content|, i)
      requires file.name in local.files && local.files[file.name] == content
      requires chunkSize == ChunkLen(|content|, i) && chunkSize <= chunk.Length
      modifies this, socket, file`position, chunk
      ensures Valid() && (!t.Ok? ==> t.Throw? && local.files == machine.local && (machine.auth.CFailed? || socket.incoming == []))
      ensures t.Ok? ==> At(if i + 1 < ChunksNum(|content|) then CUpChunk(content, i + 1) else CUpWaitEnd)
      ensures t.Ok? ==> file.position == PrefixLen(|content|, i + 1) && Unrecorded(old(machine))
    {
      hide Valid, Usable, Follows, ClientContinue, ClientSent, ClientText, ClientPcAction, ChunksNum, ChunkLen, PrefixLen, LastChunkSize, Chunk, ClientIncrement, ClientGot, ClientResume, Recorded, Finish;
      ghost var c := machine;
      ChunkBounds(|content|, i);
      ChunkAt(content, i);
      var read := file.ReadChunk(chunk, chunkSize);
      var r := Draw();
      UploadSends(content, i, r, c.local, c.messages + 1);
      var text := WriteUploadMi(chunk, chunkSize);
      t := Ask(text, r);
      if t.Ok? {
        ghost var next := if i + 1 < ChunksNum(|content|) then CUpChunk(content, i + 1) else CUpWaitEnd;
        GoesOn(c, next, next);
      }
    }

    method RenameRequest(oldName: Name, newName: Name) returns (t: Try<int>)
      requires Valid() && At(CRnAsk(oldName, newName))
      modifies this, socket
      ensures Valid() && Returned(t, [], old(machine))
    {
      hide Valid, Usable, Follows, ClientContinue, ClientSent, ClientText, ClientPcAction, ClientGot, ClientIncrement, ClientResume, Recorded, Finish;
      ghost var c := machine;
      var r := Draw();
      RenameAsks(oldName, newName, r, c.local, c.messages + 1);
      var m1 := WriteRename(oldName, newName);
      var _ :- Ask(m1, r);
      GoesOn(c, CRnWait, CRnWait);
      ghost var c2 := machine;
      t := RenameReply();
      SameRecord(c2, c, t, []);
    }

    method RenameReply() returns (t: Try<int>)
      requires Valid() && At(CRnWait)
      modifies this, socket
      ensures Valid() && Returned(t, [], old(machine))
    {
      hide Valid, Usable, Follows, ClientContinue, ClientSent, ClientText, ClientPcAction, ClientGot, ClientIncrement, ClientResume, Recorded, Finish;
      ghost var c2 := machine;
      RenameHears([0], c2.local, c2.messages + 1);
      var text :- ReceiveSealed(MAX_PACKET_SIZE);
      RenameHears(text, c2.local, c2.messages + 1);
      var code := ReadSimple(text);
      var _ :- IncrementCounter(c2, CRnGot(code));
      IsOver(c2, CRnGot(code), if code == RENAME_NOT_FOUND_CODE then FILE_NOT_FOUND
                               else if code == RENAME_EXISTS_CODE then FILE_ALREADY_EXISTS
                               else if code == NACK then RENAME_FAILURE else SUCCESS, []);
      if code == RENAME_NOT_FOUND_CODE {
        return Return(FILE_NOT_FOUND);
      }
      if code == RENAME_EXISTS_CODE {
        return Return(FILE_ALREADY_EXISTS);
      }
      if code == NACK {
        return Return(RENAME_FAILURE);
      }
      t := Ok(SUCCESS);
    }

    method DeleteRequest(name: Name, confirm: bool) returns (t: Try<int>)
      requires Valid() && At(CDelAsk(name, confirm))
      modifies this, socket
      ensures Valid() && Returned(t, [], old(machine))
    {
      hide Valid, Usable, Follows, ClientContinue, ClientSent, ClientText, ClientPcAction, ClientGot, ClientIncrement, ClientResume, Recorded, Finish;
      // M1
      ghost var c := machine;
      var r := Draw();
      DeleteAsks(name, confirm, r, c.local, c.messages + 1);
      var m1 := WriteDelete(name, r.tail[..35]);
      var _ :- Ask(m1, r);
      GoesOn(c, CDelWait2(confirm), CDelWait2(confirm));
      ghost var c2 := machine;
      t := DeleteReply(confirm);
      SameRecord(c2, c, t, []);
    }

    method DeleteReply(confirm: bool) returns (t: Try<int>)
      requires Valid() && At(CDelWait2(confirm))
      modifies this, socket
      ensures Valid() && Returned(t, [], old(machine))
    {
      hide Valid, Usable, Follows, ClientContinue, ClientPcAction, ClientGot, ClientIncrement, ClientResume, Recorded, Finish;
      // M2
      ghost var c2 := machine;
      DeleteHears2(confirm, [0], c2.local, c2.messages + 1);
      var text :- ReceiveSealed(MAX_PACKET_SIZE);
      DeleteHears2(confirm, text, c2.local, c2.messages + 1);
      var code := ReadSimple(text);
      var _ :- IncrementCounter(c2, CDelGot2(confirm, code));
      if code != DELETE_ASK {
        IsOver(c2, CDelGot2(confirm, code), WRONG_MSG_CODE, []);
        return Return(WRONG_MSG_CODE);
      }
      GoesOn(c2, CDelGot2(confirm, code), CDelAnswer(confirm));
      ghost var c3 := machine;
      t := DeleteAnswer(confirm);
      SameRecord(c3, c2, t, []);
    }

    method DeleteAnswer(confirm: bool) returns (t: Try<int>)
      requires Valid() && At(CDelAnswer(confirm))
      modifies this, socket
      ensures Valid() && Returned(t, [], old(machine))
    {
      hide Valid, Usable, Follows, ClientContinue, ClientSent, ClientText, ClientPcAction, ClientGot, ClientIncrement, ClientResume, Recorded, Finish;
      // M3
      ghost var c3 := machine;
      var r := Draw();
      DeleteAnswers(confirm, r, c3.local, c3.messages + 1);
      var m3 := WriteSimple(if confirm then DELETE_CONFIRM else NO_DELETE_CONFIRM_CODE, r.tail);
      var _ :- Ask(m3, r);
      if !confirm {
        IsOver(c3, CDelSent3(confirm), NO_DELETE_CONFIRM, []);
        return Return(NO_DELETE_CONFIRM);
      }
      // M4
      GoesOn(c3, CDelSent3(confirm), CDelWait4);
      ghost var c4 := machine;
      t := DeleteEnd();
      SameRecord(c4, c3, t, []);
    }

    method DeleteEnd() returns (t: Try<int>)
      requires Valid() && At(CDelWait4)
      modifies this, socket
      ensures Valid() && Returned(t, [], old(machine))
    {
      hide Valid, Usable, Follows, ClientContinue, ClientPcAction, ClientGot, ClientIncrement, ClientResume, Recorded, Finish;
      ghost var c4 := machine;
      DeleteHears4([0], c4.local, c4.messages + 1);
      var last :- ReceiveSealed(MAX_PACKET_SIZE);
      DeleteHears4(last, c4.local, c4.messages + 1);
      var code := ReadSimple(last);
      var _ :- IncrementCounter(c4, CDelGot4(code));
      IsOver(c4, CDelGot4(code), if code != ACK then WRONG_MSG_CODE else SUCCESS, []);
      if code != ACK {
        return Return(WRONG_MSG_CODE);
      }
      t := Ok(SUCCESS);
    }

    method LogoutRequest() returns (t: Try<int>)
      requires Valid() && At(CLoAsk)
      modifies this, socket
      ensures Valid() && Returned(t, [], old(machine))
    {
      hide Valid, Usable, Follows, ClientContinue, ClientSent, ClientText, ClientPcAction, ClientGot, ClientIncrement;
      ghost var c := machine;
      var r := Draw();
      LogoutAsks(r, c.local, c.messages + 1);
      var m1 := WriteSimple(LOGOUT_REQUEST, r.tail);
      var _ :- Ask(m1, r);
      t := LogoutReply();
    }

    method LogoutReply() returns (t: Try<int>)
      requires Valid() && At(CLoWait)
      modifies this, socket
      ensures Valid() && Returned(t, [], old(machine))
    {
      hide Valid, Usable, Follows, ClientPcAction, ClientGot, ClientIncrement;
      LogoutWaits();
      var text :- ReceiveSealed(MAX_PACKET_SIZE);
      var code := ReadSimple(text);
      if code != ACK {
        return Return(WRONG_MSG_CODE);
      }
      t := Ok(SUCCESS);
    }

    // ---- The menu ----

    /** The user chooses the next command. */
    method Choose(ghost dir: Dir)
      requires machine.todo != [] && Valid() && ClientAction(machine) == Begins
      modifies this`machine, this`history
      ensures old(machine).todo != [] && machine == ClientBegin(old(machine), dir) && Valid()
    {
      hide Usable, Follows, ClientBegin;
      Others(env);
      Proceeds(env, start, history, machine, given, socket.incoming, socket.outgoing, Start(dir), socket.incoming);
      assert socket.outgoing + FrameOf(env, machine, Start(dir)) == socket.outgoing;
      BeginKeepsFields(machine, dir);
      history := history + [TurnOf(env, machine, Start(dir))];
      machine := ClientBegin(machine, dir);
    }

    /** A command is over: refused, answered, or cut off because the peer is gone or a handshake has failed. */
    ghost predicate Concluded(t: Try<int>, c: ClientState, logout: bool)
      reads this, local, socket
    {
      && local.files == machine.local
      && (t.Throw? ==> machine.auth.CFailed? || socket.incoming == [])
      && (t.Gone? ==> socket.incoming == [])
      && (!t.Throw? && !t.Gone? ==>
            AtMenu() && c.todo != [] && machine.todo == c.todo[1..] && (machine.pc == if logout then CDone else CIdle))
    }

    /** In state `c`, the user has chosen `op`. */
    ghost predicate Chosen(op: Op, c: ClientState, dir: Dir)
      reads this, local
    {
      && Synced() && Holds(c) && c.local == local.files && c.auth == CNoAuth && c.pc == CIdle
      && c.todo != [] && c.todo[0] == op && machine == ClientBegin(c, dir)
    }

    lemma ReturnedConcludes(t: Try<int>, names: seq<Name>, c: ClientState, d: ClientState, logout: bool)
      requires Returned(t, names, d) && d.todo == c.todo != [] && (logout <==> d.pc.CLoAsk?) && !d.pc.CLoWait?
      ensures Concluded(t, c, logout)
    {
    }

    lemma RefusedConcludes(code: Try<int>, c: ClientState, outcome: Outcome)
      requires Synced() && c.auth == CNoAuth && c.todo != [] && machine == Finish(c, outcome) && !code.Throw? && !code.Gone?
      ensures Concluded(code, c, false)
    {
    }

    method ListCommand(ghost c: ClientState, ghost dir: Dir) returns (t: Try<int>)
      requires Valid() && Chosen(List, c, dir)
      modifies this, socket
      ensures Valid() && Concluded(t, c, false)
    {
      hide Valid, Usable, Follows, Recorded, ValidName, Allowed, Finish;
      ghost var d := machine;
      var names: seq<Name>;
      t, names := ListRequest();
      ReturnedConcludes(t, names, c, d, false);
    }

    method DownloadCommand(name: Name, ghost c: ClientState, ghost dir: Dir) returns (t: Try<int>)
      requires Valid() && Chosen(Download(name), c, dir)
      modifies this, socket, local
      ensures Valid() && Concluded(t, c, false)
    {
      hide Valid, Usable, Follows, Recorded, ValidName, Allowed, Finish;
      var valid := IsStringValid(name);
      ValidNameIff(name);
      if !valid {
        RefusedConcludes(Ok(SUCCESS), c, Skipped);
        return Ok(SUCCESS);
      }
      if name in local.files {
        RefusedConcludes(Return(FILE_ALREADY_EXISTS), c, Finished(FILE_ALREADY_EXISTS, [], c.messages));
        return Return(FILE_ALREADY_EXISTS);
      }
      ghost var d := machine;
      t := DownloadRequest(name);
      ReturnedConcludes(t, [], c, d, false);
    }

    method UploadCommand(name: Name, ghost c: ClientState, ghost dir: Dir) returns (t: Try<int>)
      requires Valid() && Chosen(Upload(name), c, dir)
      modifies this, socket, local
      ensures Valid() && Concluded(t, c, false)
    {
      hide Usable, Follows, Recorded, ValidName, Allowed, Finish, Rounds;
      Others(env);
      var valid := IsStringValid(name);
      ValidNameIff(name);
      if !valid {
        RefusedConcludes(Ok(SUCCESS), c, Skipped);
        return Ok(SUCCESS);
      }
      if name !in local.files {
        RefusedConcludes(Return(FILE_NOT_FOUND), c, Finished(FILE_NOT_FOUND, [], c.messages));
        return Return(FILE_NOT_FOUND);
      }
      var file := new FileManager(env, local, name, READ);
      if file.fileSize == 0 || file.fileSize > MAX_FILE_SIZE {
        RefusedConcludes(Return(WRONG_FILE_SIZE), c, Finished(WRONG_FILE_SIZE, [], c.messages));
        return Return(WRONG_FILE_SIZE);
      }
      ghost var d := machine;
      t := UploadRequest(name, file);
      ReturnedConcludes(t, [], c, d, false);
    }

    method RenameCommand(oldName: Name, newName: Name, ghost c: ClientState, ghost dir: Dir) returns (t: Try<int>)
      requires Valid() && Chosen(Rename(oldName, newName), c, dir)
      modifies this, socket
      ensures Valid() && Concluded(t, c, false)
    {
      hide Valid, Usable, Follows, Recorded, ValidName, Allowed, Finish;
      ValidNameIff(oldName);
      ValidNameIff(newName);
      var valid := IsStringValid(oldName);
      if !valid {
        RefusedConcludes(Ok(SUCCESS), c, Skipped);
        return Ok(SUCCESS);
      }
      valid := IsStringValid(newName);
      if !valid {
        RefusedConcludes(Ok(SUCCESS), c, Skipped);
        return Ok(SUCCESS);
      }
      ghost var d := machine;
      t := RenameRequest(oldName, newName);
      ReturnedConcludes(t, [], c, d, false);
    }

    method DeleteCommand(name: Name, confirm: bool, data: Storage, ghost c: ClientState, ghost dir: Dir) returns (t: Try<int>)
      requires Valid() && Chosen(Delete(name, confirm), c, dir) && dir == data.files
      modifies this, socket
      ensures Valid() && Concluded(t, c, false)
    {
      hide Valid, Usable, Follows, Recorded, ValidName, Allowed, Finish;
      ValidNameIff(name);
      var valid := IsStringValid(name);
      if !valid || name !in data.files {
        RefusedConcludes(Ok(SUCCESS), c, Skipped);
        return Ok(SUCCESS);
      }
      ghost var d := machine;
      t := DeleteRequest(name, confirm);
      ReturnedConcludes(t, [], c, d, false);
    }

    method LogoutCommand(ghost c: ClientState, ghost dir: Dir) returns (t: Try<int>)
      requires Valid() && Chosen(Logout, c, dir)
      modifies this, socket
      ensures Valid() && Concluded(t, c, true)
    {
      hide Valid, Usable, Follows, Recorded, ValidName, Allowed, Finish;
      ghost var d := machine;
      t := LogoutRequest();
      ReturnedConcludes(t, [], c, d, true);
    }

    /** Carry out one command: the menu's checks, the checks made before the first message, the request.
        `data` is the user's storage directory, which a delete looks into before it asks the server. */
    method Command(op: Op, data: Storage) returns (t: Try<int>)
      requires Valid() && AtMenu() && machine.pc == CIdle && machine.todo != [] && machine.todo[0] == op && data != local
      modifies this, socket, local
      ensures Valid() && Concluded(t, old(machine), op.Logout?)
    {
      hide Valid, Usable, Follows, ClientBegin, Concluded;
      ghost var c, dir := machine, data.files;
      BeginKeepsFields(c, dir);
      Choose(dir);
      match op
      case List => t := ListCommand(c, dir);
      case Download(name) => t := DownloadCommand(name, c, dir);
      case Upload(name) => t := UploadCommand(name, c, dir);
      case Rename(oldName, newName) => t := RenameCommand(oldName, newName, c, dir);
      case Delete(name, confirm) => t := DeleteCommand(name, confirm, data, c, dir);
      case Logout => t := LogoutCommand(c, dir);
    }

    /** Login, then the user's commands in order until logout. */
    method Run(commands: seq<Op>, data: Storage) returns (error: int)
      requires Valid() && Synced() && machine.auth == CSend1 && machine.pc == CIdle && machine.todo == commands && data != local
      modifies this, socket, local
      ensures Valid()
      ensures local.files == machine.local
      ensures machine.auth.CFailed? || socket.incoming == [] || (AtMenu() && (machine.todo == [] || machine.pc == CDone))
    {
      hide Valid, Usable, Follows;
      var login := AuthenticationRequest();
      if !login.Ok? {
        return AUTHENTICATION_FAILURE;
      }
      var i := 0;
      while i < |commands|
        invariant 0 <= i <= |commands|
        invariant Valid() && AtMenu() && machine.pc == CIdle && machine.todo == commands[i..]
      {
        var t := Command(commands[i], data);
        if t.Throw? || t.Gone? || commands[i].Logout? {
          return CodeOf(t);
        }
        i := i + 1;
      }
      error := 0;
    }
  }

  lemma TooLongIsRefused(env: Env, c: ClientState, data: bytes)
    requires c.auth == CNoAuth && ClientAction(c) == Receives(|data|) && |data| > MAX_INT
    ensures ClientReceive(env, c, data) == Protocol.Return(c.(rejected := true), RECEIVE_FAILURE)
    ensures !c.pc.CLoAsk? && !c.pc.CLoWait?
  {
    hide Accept, ClientIncrement, ClientGot;
  }

  lemma ReceiveKeepsUser(env: Env, c: ClientState, data: bytes)
    requires ClientAction(c) == Receives(|data|)
    ensures ClientReceive(env, c, data).user == c.user
  {
    hide ClientGot, Accept, Unwrap, CounterOf, SessionKey, FromLE32, AuthM3Key, AuthM3Cert, ClientResume;
    ResumeKeepsUser();
  }

  lemma ResumeKeepsUser()
    ensures forall c :: ClientResume(c).user == c.user
  {
    hide ClientContinue;
  }

  lemma BeginKeepsFields(c: ClientState, dir: Dir)
    requires ClientAction(c) == Begins
    ensures var d := ClientBegin(c, dir);
            d.user == c.user && d.counter == c.counter && d.key == c.key && d.local == c.local
  {
    hide ClientBegin;
    BeginShape(c, dir);
  }
}
