/** What one step of the server can do to the stored files, whatever bytes it is given. */
module Conservation {
  import opened Config
  import opened Bytes
  import opened Chunks
  import opened Codecs
  import opened Env
  import opened Store
  import opened Protocol

  datatype Input = Hear(data: bytes) | Speak(r: Rnd)

  predicate Ready(s: ServerState, x: Input) {
    match x
    case Hear(data) => ServerAction(s) == Receives(|data|)
    case Speak(r) => ServerAction(s) == Sends && ValidRnd(r)
  }

  function ServerStep(env: Env, s: ServerState, x: Input): ServerState
    requires Ready(s, x)
  {
    match x
    case Hear(data) => ServerReceive(env, s, data)
    case Speak(r) => ServerSend(env, s, r).state
  }

  function PastCounter(s: ServerState, next: ServerPc): Option<ServerPc> {
    if s.counter == MAX_COUNTER_VALUE then None else Some(next)
  }

  /** The place at which the step gets past incrementCounter, if it does. */
  function Resumption(env: Env, s: ServerState, x: Input): Option<ServerPc>
    requires Ready(s, x)
  {
    match x
    case Hear(data) =>
      if s.auth != SNoAuth then None
      else
        var text := Accept(env, s.key, s.counter, data);
        if text.None? || |text.value| == 0 || ServerGot(s.pc, text.value).None? then None
        else PastCounter(s, ServerGot(s.pc, text.value).value)
    case Speak(r) =>
      if s.auth == SSend5(true) then Some(s.pc)
      else if s.auth != SNoAuth || s.pc.SLoSend? then None
      else PastCounter(s, ServerSent(s.pc))
  }

  function EffectOf(env: Env, s: ServerState, x: Input): Effect
    requires Ready(s, x)
  {
    match Resumption(env, s, x)
    case None => Nothing
    case Some(pc) => ServerContinue(env, s.dir, pc).effect
  }

  lemma StepEffect(env: Env, s: ServerState, x: Input)
    requires Ready(s, x)
    ensures ServerStep(env, s, x).dir == Apply(s.dir, EffectOf(env, s, x))
  {
    hide Accept, ServerGot, ServerSent, ServerContinue, Apply, SessionKey, ServerText, Wrap, FromLE32, AuthM1User, AuthM1Key, EncAuthM3;
    assert Apply(s.dir, Nothing) == s.dir by { NothingApplied(s.dir); }
  }

  lemma NothingApplied(dir: Dir)
    ensures Apply(dir, Nothing) == dir
  {
  }

  /** An upload into `n` has been granted or is under way. */
  predicate Uploading(pc: ServerPc, n: Name) {
    match pc
    case SUpSend2(name, _, reply) => name == n && reply != NACK
    case SUpSent2(name, _, reply) => name == n && reply != NACK
    case SUpWaitChunk(name, _, _) => name == n
    case SUpGotChunk(name, _, _, _) => name == n
    case _ => false
  }

  /** `n` is stored and is not the file an upload is writing. */
  predicate Stored(s: ServerState, n: Name) {
    n in s.dir && !Uploading(s.pc, n)
  }

  /** The place past incrementCounter at which `n` can disappear: a rename away from it, or a delete
      whose confirmation was received. */
  predicate GivesUp(pc: ServerPc, n: Name) {
    (pc.SRnGot? && pc.oldName == n) || pc == SDelGot3(n, DELETE_CONFIRM)
  }

  lemma ResumeKeeps(env: Env, s: ServerState, n: Name)
    requires Stored(s, n) && !GivesUp(s.pc, n)
    ensures Stored(ServerResume(env, s), n) && ServerResume(env, s).dir[n] == s.dir[n]
  {
  }

  lemma GotKeeps(s: ServerState, text: bytes, n: Name)
    requires |text| >= 1 && Stored(s, n)
    ensures ServerGot(s.pc, text).Some? ==> Stored(s.(pc := ServerGot(s.pc, text).value), n)
  {
    hide NameAt, SizeAt;
  }

  lemma HearKeeps(env: Env, s: ServerState, data: bytes, n: Name)
    requires ServerAction(s) == Receives(|data|) && Stored(s, n)
    requires var next := Resumption(env, s, Hear(data)); next.Some? ==> !GivesUp(next.value, n)
    ensures var s' := ServerReceive(env, s, data); Stored(s', n) && s'.dir[n] == s.dir[n]
  {
    hide Accept, Unwrap, ServerGot, ServerResume, FromLE32, AuthM1User, AuthM1Key, GivesUp;
    if s.auth == SNoAuth {
      var text := Accept(env, s.key, s.counter, data);
      if text.Some? && |text.value| >= 1 && ServerGot(s.pc, text.value).Some? {
        var next := ServerGot(s.pc, text.value).value;
        GotKeeps(s, text.value, n);
        if s.counter != MAX_COUNTER_VALUE {
          ResumeKeeps(env, s.(pc := next, index := s.index + 1, counter := s.counter + 1), n);
        }
      }
    }
  }

  lemma SpeakKeeps(env: Env, s: ServerState, r: Rnd, n: Name)
    requires ServerAction(s) == Sends && ValidRnd(r) && Stored(s, n)
    requires var next := Resumption(env, s, Speak(r)); next.Some? ==> !GivesUp(next.value, n)
    ensures var s' := ServerSend(env, s, r).state; Stored(s', n) && s'.dir[n] == s.dir[n]
  {
    hide ServerText, Wrap, ServerResume, SessionKey, EncAuthM3, GivesUp;
    if s.auth == SSend5(true) {
      ResumeKeeps(env, s.(auth := SNoAuth, counter := 0), n);
    } else if s.auth == SNoAuth && !s.pc.SLoSend? && s.counter != MAX_COUNTER_VALUE {
      ResumeKeeps(env, s.(pc := ServerSent(s.pc), index := s.index + 1, counter := s.counter + 1), n);
    }
  }

  // ---- Runs of the server against an arbitrary peer ----

  ghost predicate Heard(env: Env, s: ServerState, run: seq<Input>)
    decreases |run|
  {
    run == [] || (Ready(s, run[0]) && Heard(env, ServerStep(env, s, run[0]), run[1..]))
  }

  ghost function Finally(env: Env, s: ServerState, run: seq<Input>): ServerState
    requires Heard(env, s, run)
    decreases |run|
  {
    if run == [] then s else Finally(env, ServerStep(env, s, run[0]), run[1..])
  }

  lemma {:induction false} HeardMore(env: Env, s: ServerState, run: seq<Input>, x: Input)
    requires Heard(env, s, run) && Ready(Finally(env, s, run), x)
    ensures Heard(env, s, run + [x]) && Finally(env, s, run + [x]) == ServerStep(env, Finally(env, s, run), x)
    decreases |run|
  {
    hide ServerStep, Ready;
    if run == [] {
      assert run + [x] == [x];
    } else {
      assert (run + [x])[1..] == run[1..] + [x];
      HeardMore(env, ServerStep(env, s, run[0]), run[1..], x);
    }
  }

  /** Some step of the run renames `n` away or deletes it with confirmation. */
  ghost predicate GivenUp(env: Env, s: ServerState, run: seq<Input>, n: Name)
    requires Heard(env, s, run)
    decreases |run|
  {
    run != []
    && ((Resumption(env, s, run[0]).Some? && GivesUp(Resumption(env, s, run[0]).value, n))
        || GivenUp(env, ServerStep(env, s, run[0]), run[1..], n))
  }

  /** Whatever bytes a server is sent, a stored file keeps its bytes until it is renamed away or deleted with a
      confirmation; no upload touches it. */
  lemma {:induction false} StoredFileKept(env: Env, s: ServerState, run: seq<Input>, n: Name)
    requires Heard(env, s, run) && Stored(s, n) && !GivenUp(env, s, run, n)
    ensures Stored(Finally(env, s, run), n) && Finally(env, s, run).dir[n] == s.dir[n]
    decreases |run|
  {
    hide GivesUp, Resumption, ServerReceive, ServerSend, Uploading;
    if run != [] {
      match run[0] {
        case Hear(data) => HearKeeps(env, s, data, n);
        case Speak(r) => SpeakKeeps(env, s, r, n);
      }
      StoredFileKept(env, ServerStep(env, s, run[0]), run[1..], n);
    }
  }

  /** A rename that takes effect moves the bytes to a name that was free and keeps every other file;
      one that does not leaves all files. */
  lemma RenameStep(env: Env, s: ServerState, x: Input, oldName: Name, newName: Name)
    requires Ready(s, x) && Resumption(env, s, x) == Some(SRnGot(oldName, newName))
    ensures var s' := ServerStep(env, s, x);
            if oldName in s.dir && newName !in s.dir
            then && s'.dir.Keys == s.dir.Keys - {oldName} + {newName} && s'.dir[newName] == s.dir[oldName]
                 && forall n :: n in s.dir && n != oldName ==> s'.dir[n] == s.dir[n]
            else s'.dir == s.dir
  {
    hide ServerStep, Resumption;
    StepEffect(env, s, x);
    NothingApplied(s.dir);
  }
}
