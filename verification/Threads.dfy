/** Server threads for different users on one file system of paths. */
module Threads {
  import opened Config
  import opened Bytes
  import opened Chunks
  import opened Codecs
  import opened Listing
  import opened Env
  import opened Store
  import opened Protocol
  import opened Conservation

  type Fs = map<bytes, bytes>

  const SLASH: byte := 47
  const DATA: bytes := [46, 46, 47, 100, 97, 116, 97, 47]   // "../data/"

  function Folder(user: Name): bytes {
    DATA + user + [SLASH]
  }

  function PathOf(user: Name, name: Name): bytes {
    Folder(user) + name
  }

  lemma FirstSlash(u: bytes, x: bytes)
    requires SLASH !in u
    ensures var p := u + [SLASH] + x;
            p[|u|] == SLASH && p[..|u|] == u && p[|u| + 1..] == x && forall i :: 0 <= i < |u| ==> p[i] != SLASH
  {
    var p := u + [SLASH] + x;
    assert forall i :: 0 <= i < |u| ==> p[i] == u[i];
  }

  lemma SlashSplits(u: bytes, x: bytes, v: bytes, y: bytes)
    requires SLASH !in u && SLASH !in v && u + [SLASH] + x == v + [SLASH] + y
    ensures u == v && x == y
  {
    FirstSlash(u, x);
    FirstSlash(v, y);
    assert |u| == |v|;
  }

  /** Different users' files have different paths. */
  lemma PathsInjective(u: Name, x: Name, v: Name, y: Name)
    requires SLASH !in u && SLASH !in v
    ensures PathOf(u, x) == PathOf(v, y) <==> u == v && x == y
  {
    if PathOf(u, x) == PathOf(v, y) {
      assert PathOf(u, x)[|DATA|..] == u + [SLASH] + x;
      assert PathOf(v, y)[|DATA|..] == v + [SLASH] + y;
      SlashSplits(u, x, v, y);
    }
  }

  function NamesOf(fs: Fs, user: Name): set<Name> {
    set p | p in fs && Folder(user) <= p && SLASH !in p[|Folder(user)|..] :: p[|Folder(user)|..]
  }

  /** The names in a user's folder are the slash-free names whose paths exist. */
  lemma NamesOfPaths(fs: Fs, user: Name, n: Name)
    ensures n in NamesOf(fs, user) <==> SLASH !in n && PathOf(user, n) in fs
  {
    var p := PathOf(user, n);
    assert p[|Folder(user)|..] == n;
    if n in NamesOf(fs, user) {
      var q :| q in fs && Folder(user) <= q && SLASH !in q[|Folder(user)|..] && q[|Folder(user)|..] == n;
      assert q == Folder(user) + q[|Folder(user)|..];
    }
  }

  /** One user's directory. */
  function DirOf(fs: Fs, user: Name): Dir {
    map n | n in NamesOf(fs, user) && PathOf(user, n) in fs :: fs[PathOf(user, n)]
  }

  lemma DirOfPaths(fs: Fs, user: Name, n: Name)
    ensures n in DirOf(fs, user) <==> SLASH !in n && PathOf(user, n) in fs
    ensures n in DirOf(fs, user) ==> DirOf(fs, user)[n] == fs[PathOf(user, n)]
  {
    NamesOfPaths(fs, user, n);
  }

  /** A request's effect, on paths. */
  function ApplyFs(fs: Fs, user: Name, e: Effect): Fs {
    match e
    case Nothing => fs
    case Create(name) => fs[PathOf(user, name) := []]
    case Append(name, chunk) =>
      var p := PathOf(user, name);
      fs[p := (if p in fs then fs[p] else []) + chunk]
    case Renaming(oldName, newName) =>
      var p := PathOf(user, oldName);
      if p in fs then (fs - {p})[PathOf(user, newName) := fs[p]] else fs
    case Remove(name) => fs - {PathOf(user, name)}
  }

  predicate PlainEffect(e: Effect) {
    match e
    case Nothing => true
    case Create(name) => SLASH !in name
    case Append(name, _) => SLASH !in name
    case Renaming(oldName, newName) => SLASH !in oldName && SLASH !in newName
    case Remove(name) => SLASH !in name
  }

  /** On the user's own directory a path effect is the directory effect. */
  lemma OwnDir(fs: Fs, user: Name, e: Effect)
    requires SLASH !in user && PlainEffect(e)
    ensures DirOf(ApplyFs(fs, user, e), user) == Apply(DirOf(fs, user), e)
  {
    var fs', dir := ApplyFs(fs, user, e), DirOf(fs, user);
    var dir' := Apply(dir, e);
    forall n ensures n in DirOf(fs', user) <==> n in dir'
      ensures n in dir' ==> DirOf(fs', user)[n] == dir'[n]
    {
      OwnName(fs, user, e, n);
    }
  }

  lemma OwnName(fs: Fs, user: Name, e: Effect, n: Name)
    requires SLASH !in user && PlainEffect(e)
    ensures var d, d' := DirOf(ApplyFs(fs, user, e), user), Apply(DirOf(fs, user), e);
            (n in d <==> n in d') && (n in d' ==> d[n] == d'[n])
  {
    hide DirOf, PathOf;
    DirOfPaths(fs, user, n);
    DirOfPaths(ApplyFs(fs, user, e), user, n);
    match e
    case Nothing =>
    case Create(name) => PathsInjective(user, n, user, name);
    case Append(name, _) =>
      PathsInjective(user, n, user, name);
      DirOfPaths(fs, user, name);
    case Renaming(oldName, newName) =>
      PathsInjective(user, n, user, oldName);
      PathsInjective(user, n, user, newName);
      DirOfPaths(fs, user, oldName);
    case Remove(name) => PathsInjective(user, n, user, name);
  }

  /** Another user's directory does not change. */
  lemma OtherDir(fs: Fs, user: Name, e: Effect, other: Name)
    requires SLASH !in user && SLASH !in other && user != other
    ensures DirOf(ApplyFs(fs, user, e), other) == DirOf(fs, other)
  {
    forall n ensures n in DirOf(ApplyFs(fs, user, e), other) <==> n in DirOf(fs, other)
      ensures n in DirOf(fs, other) ==> DirOf(ApplyFs(fs, user, e), other)[n] == DirOf(fs, other)[n]
    {
      OtherName(fs, user, e, other, n);
    }
  }

  lemma OtherName(fs: Fs, user: Name, e: Effect, other: Name, n: Name)
    requires SLASH !in user && SLASH !in other && user != other
    ensures var d, d' := DirOf(ApplyFs(fs, user, e), other), DirOf(fs, other);
            (n in d <==> n in d') && (n in d' ==> d[n] == d'[n])
  {
    hide DirOf, PathOf;
    DirOfPaths(fs, other, n);
    DirOfPaths(ApplyFs(fs, user, e), other, n);
    match e
    case Nothing =>
    case Create(name) => PathsInjective(other, n, user, name);
    case Append(name, _) => PathsInjective(other, n, user, name);
    case Renaming(oldName, newName) =>
      PathsInjective(other, n, user, oldName);
      PathsInjective(other, n, user, newName);
    case Remove(name) => PathsInjective(other, n, user, name);
  }

  // ---- The handlers' own checks, on paths ----

  predicate PlainPc(pc: ServerPc) {
    match pc
    case SDlGot(name) => SLASH !in name
    case SUpGot(name, _) => SLASH !in name
    case SUpSend2(name, _, _) => SLASH !in name
    case SUpSent2(name, _, _) => SLASH !in name
    case SUpWaitChunk(name, _, _) => SLASH !in name
    case SUpGotChunk(name, _, _, _) => SLASH !in name
    case SRnGot(oldName, newName) => SLASH !in oldName && SLASH !in newName
    case SDelSend2(name) => SLASH !in name
    case SDelWait3(name) => SLASH !in name
    case SDelGot3(name, _) => SLASH !in name
    case _ => true
  }

  /** What follows incrementCounter, written as the handlers write it: by looking paths up. */
  function ContinueFs(env: Env, fs: Fs, user: Name, pc: ServerPc): ServerProgress {
    match pc
    case SListGot =>
      var files := Join(env.Entries(NamesOf(fs, user)));
      ServerProgress(if files == ERROR_TEXT then SMain else SListSend2(files), Nothing)
    case SDlGot(name) =>
      var p := PathOf(user, name);
      ServerProgress(if p in fs then SDlSend2(DOWNLOAD_ACK, AnnouncedDownload(|fs[p]|), fs[p])
                     else SDlSend2(FILE_NOT_FOUND_CODE, 0, []), Nothing)
    case SUpGot(name, size) => ServerProgress(SUpSend2(name, size, if PathOf(user, name) in fs then NACK else ACK), Nothing)
    case SRnGot(oldName, newName) =>
      if PathOf(user, oldName) !in fs then ServerProgress(SRnSend(RENAME_NOT_FOUND_CODE), Nothing)
      else if PathOf(user, newName) in fs then ServerProgress(SRnSend(RENAME_EXISTS_CODE), Nothing)
      else ServerProgress(SRnSend(ACK), Renaming(oldName, newName))
    case SDelGot3(name, code) =>
      if code != DELETE_CONFIRM || PathOf(user, name) !in fs then ServerProgress(SMain, Nothing)
      else ServerProgress(SDelSend4, Remove(name))
    case _ => ServerContinue(env, map[], pc)
  }

  lemma NamesAreKeys(fs: Fs, user: Name)
    ensures NamesOf(fs, user) == DirOf(fs, user).Keys
  {
    forall n ensures n in NamesOf(fs, user) <==> n in DirOf(fs, user) {
      NamesOfPaths(fs, user, n);
    }
  }

  predicate LooksAtFiles(pc: ServerPc) {
    pc.SListGot? || pc.SDlGot? || pc.SUpGot? || pc.SRnGot? || pc.SDelGot3?
  }

  lemma NoChecks(env: Env, fs: Fs, user: Name, pc: ServerPc)
    requires !LooksAtFiles(pc)
    ensures ContinueFs(env, fs, user, pc) == ServerContinue(env, DirOf(fs, user), pc)
  {
    hide DirOf, PathOf, NamesOf, Join, ChunksNum;
  }

  lemma SomeChecks(env: Env, fs: Fs, user: Name, pc: ServerPc)
    requires PlainPc(pc) && LooksAtFiles(pc)
    ensures ContinueFs(env, fs, user, pc) == ServerContinue(env, DirOf(fs, user), pc)
  {
    hide DirOf, PathOf, NamesOf, Join, AnnouncedDownload;
    match pc
    case SListGot => NamesAreKeys(fs, user);
    case SDlGot(name) => DirOfPaths(fs, user, name);
    case SUpGot(name, _) => DirOfPaths(fs, user, name);
    case SRnGot(oldName, newName) =>
      DirOfPaths(fs, user, oldName);
      DirOfPaths(fs, user, newName);
    case SDelGot3(name, _) => DirOfPaths(fs, user, name);
  }

  /** The path checks of the handlers see exactly the user's directory. */
  lemma PathChecks(env: Env, fs: Fs, user: Name, pc: ServerPc)
    requires PlainPc(pc)
    ensures ContinueFs(env, fs, user, pc) == ServerContinue(env, DirOf(fs, user), pc)
  {
    hide ContinueFs, ServerContinue, PlainPc;
    if LooksAtFiles(pc) {
      SomeChecks(env, fs, user, pc);
    } else {
      NoChecks(env, fs, user, pc);
    }
  }

  // ---- Interleaved threads ----

  /** One server thread: its state (whose directory lives in the file system) and the messages it has sent. */
  datatype Thread = Thread(state: ServerState, sent: seq<bytes>)

  datatype System = System(fs: Fs, threads: map<int, Thread>)

  /** Thread `who` of user `users[who]` takes a step. */
  datatype Turn = Turn(who: int, input: Input)

  /** The thread's state with its user's directory looked up. */
  function Loaded(y: System, users: map<int, Name>, who: int): ServerState
    requires who in y.threads && who in users
  {
    y.threads[who].state.(dir := DirOf(y.fs, users[who]))
  }

  /** A step is taken by a thread of `users`, for that user once logged in, and with slash-free names. */
  predicate MayStep(env: Env, y: System, users: map<int, Name>, t: Turn)
  {
    && t.who in y.threads && t.who in users
    && var s := Loaded(y, users, t.who);
       && Ready(s, t.input)
       && (s.auth == SNoAuth ==> s.user == users[t.who])
       && (Resumption(env, s, t.input).Some? ==> PlainPc(Resumption(env, s, t.input).value))
  }

  function Sent(env: Env, s: ServerState, x: Input): seq<bytes>
    requires Ready(s, x)
  {
    match x case Hear(_) => [] case Speak(r) => [ServerSend(env, s, r).packet.frame]
  }

  function Perform(env: Env, y: System, users: map<int, Name>, t: Turn): System
    requires MayStep(env, y, users, t)
  {
    var s := Loaded(y, users, t.who);
    System(ApplyFs(y.fs, users[t.who], EffectOf(env, s, t.input)),
           y.threads[t.who := Thread(ServerStep(env, s, t.input), y.threads[t.who].sent + Sent(env, s, t.input))])
  }

  ghost predicate Scheduled(env: Env, y: System, users: map<int, Name>, turns: seq<Turn>)
    decreases |turns|
  {
    turns == [] || (MayStep(env, y, users, turns[0]) && Scheduled(env, Perform(env, y, users, turns[0]), users, turns[1..]))
  }

  ghost function Performed(env: Env, y: System, users: map<int, Name>, turns: seq<Turn>): System
    requires Scheduled(env, y, users, turns)
    decreases |turns|
  {
    if turns == [] then y else Performed(env, Perform(env, y, users, turns[0]), users, turns[1..])
  }

  /** The turns of one thread. */
  function Only(turns: seq<Turn>, who: int): seq<Turn> {
    if turns == [] then []
    else (if turns[0].who == who then [turns[0]] else []) + Only(turns[1..], who)
  }

  /** Every user is served by one thread, and user names are slash-free. */
  ghost predicate Separate(users: map<int, Name>) {
    && (forall i :: i in users ==> SLASH !in users[i])
    && (forall i, j :: i in users && j in users && i != j ==> users[i] != users[j])
  }

  /** The two systems look alike to thread `who`. */
  ghost predicate SameFor(y: System, z: System, users: map<int, Name>, who: int) {
    && who in users && who in y.threads && who in z.threads
    && y.threads[who].sent == z.threads[who].sent
    && Loaded(y, users, who) == Loaded(z, users, who)
  }

  lemma EffectIsPlain(env: Env, s: ServerState, x: Input)
    requires Ready(s, x)
    requires Resumption(env, s, x).Some? ==> PlainPc(Resumption(env, s, x).value)
    ensures PlainEffect(EffectOf(env, s, x))
  {
    hide Resumption, Join;
  }

  /** A thread's step changes its own directory as its server state says. */
  lemma OwnStep(env: Env, y: System, users: map<int, Name>, t: Turn)
    requires Separate(users) && MayStep(env, y, users, t)
    ensures Loaded(Perform(env, y, users, t), users, t.who) == ServerStep(env, Loaded(y, users, t.who), t.input)
  {
    hide ServerStep, EffectOf, ApplyFs, DirOf, Apply, Resumption, PlainPc;
    var s := Loaded(y, users, t.who);
    StepEffect(env, s, t.input);
    EffectIsPlain(env, s, t.input);
    OwnDir(y.fs, users[t.who], EffectOf(env, s, t.input));
  }

  lemma OwnTurn(env: Env, y: System, z: System, users: map<int, Name>, t: Turn)
    requires Separate(users) && SameFor(y, z, users, t.who) && MayStep(env, y, users, t)
    ensures MayStep(env, z, users, t) && SameFor(Perform(env, y, users, t), Perform(env, z, users, t), users, t.who)
  {
    hide ServerStep, EffectOf, ApplyFs, DirOf, Resumption, PlainPc, ServerSend, Ready;
    OwnStep(env, y, users, t);
    assert MayStep(env, z, users, t);
    OwnStep(env, z, users, t);
  }

  /** Another thread's step is invisible. */
  lemma OthersTurn(env: Env, y: System, users: map<int, Name>, t: Turn, who: int)
    requires Separate(users) && who in users && who in y.threads && t.who != who && MayStep(env, y, users, t)
    ensures SameFor(Perform(env, y, users, t), y, users, who)
  {
    hide ServerStep, EffectOf, ApplyFs, DirOf, Resumption, PlainPc, Sent, Ready;
    OtherDir(y.fs, users[t.who], EffectOf(env, Loaded(y, users, t.who), t.input), users[who]);
  }

  /** Session independence: whatever the interleaving, a thread goes through the same states, sends the same messages
      and leaves the same directory as when its turns are taken alone. */
  lemma {:induction false} RunsAsIfAlone(env: Env, y: System, z: System, users: map<int, Name>, turns: seq<Turn>, who: int)
    requires Separate(users) && SameFor(y, z, users, who) && Scheduled(env, y, users, turns)
    ensures Scheduled(env, z, users, Only(turns, who))
    ensures SameFor(Performed(env, y, users, turns), Performed(env, z, users, Only(turns, who)), users, who)
    decreases |turns|
  {
    hide MayStep, Perform, Loaded, Separate;
    if turns != [] {
      var t := turns[0];
      var y' := Perform(env, y, users, t);
      if t.who == who {
        OwnTurn(env, y, z, users, t);
        RunsAsIfAlone(env, y', Perform(env, z, users, t), users, turns[1..], who);
        assert Only(turns, who)[0] == t && Only(turns, who)[1..] == Only(turns[1..], who);
      } else {
        OthersTurn(env, y, users, t, who);
        RunsAsIfAlone(env, y', z, users, turns[1..], who);
        assert Only(turns, who) == Only(turns[1..], who);
      }
    }
  }

  /** A valid name has no slash. */
  lemma ValidNamesArePlain(n: Name)
    requires ValidName(n)
    ensures SLASH !in n
  {
  }

  // ---- Exactly which names stay in the user's directory ----

  /** A path up to its last slash. */
  function DirectoryOf(path: bytes): bytes {
    if path == [] || path[|path| - 1] == SLASH then path else DirectoryOf(path[..|path| - 1])
  }

  lemma {:induction false} LastSlash(folder: bytes, name: bytes)
    requires folder != [] && folder[|folder| - 1] == SLASH && SLASH !in name
    ensures DirectoryOf(folder + name) == folder
  {
    var p := folder + name;
    if name == [] {
      assert p == folder;
    } else {
      assert p[..|p| - 1] == folder + name[..|name| - 1];
      LastSlash(folder, name[..|name| - 1]);
    }
  }

  lemma {:induction false} DirectoryHoldsSlashes(p: bytes, i: nat)
    requires i < |p| && p[i] == SLASH
    ensures |DirectoryOf(p)| > i
  {
    if p[|p| - 1] != SLASH {
      DirectoryHoldsSlashes(p[..|p| - 1], i);
    }
  }

  /** A request's path lies in its user's directory exactly when the name it carries holds no slash. The server does not
      check: only the client's validity check keeps slashes out. */
  lemma StaysInDirectoryIff(user: Name, name: Name)
    ensures DirectoryOf(PathOf(user, name)) == Folder(user) <==> SLASH !in name
  {
    if SLASH !in name {
      LastSlash(Folder(user), name);
    } else {
      var i :| 0 <= i < |name| && name[i] == SLASH;
      assert PathOf(user, name)[|Folder(user)| + i] == SLASH;
      DirectoryHoldsSlashes(PathOf(user, name), |Folder(user)| + i);
    }
  }

  /** A file made by a request shows up in its user's directory exactly when its name holds no slash. */
  lemma CreatedInDirectoryIff(fs: Fs, user: Name, name: Name)
    ensures name in DirOf(ApplyFs(fs, user, Create(name)), user) <==> SLASH !in name
  {
    hide DirOf;
    DirOfPaths(ApplyFs(fs, user, Create(name)), user, name);
  }

  const DOT: byte := 46

  /** The components of a path. */
  function Parts(path: bytes): (r: seq<bytes>)
    ensures r != []
  {
    if path == [] then [[]] else Extended(Parts(path[..|path| - 1]), path[|path| - 1])
  }

  function Extended(parts: seq<bytes>, b: byte): (r: seq<bytes>)
    requires parts != []
    ensures r != []
  {
    if b == SLASH then parts + [[]] else parts[..|parts| - 1] + [parts[|parts| - 1] + [b]]
  }

  /** One component more: "." and an empty one stay, ".." goes up unless there is nowhere known to go up from. */
  function Descend(parts: seq<bytes>, part: bytes): seq<bytes> {
    if part == [] || part == [DOT] then parts
    else if part == [DOT, DOT] && parts != [] && parts[|parts| - 1] != [DOT, DOT] then parts[..|parts| - 1]
    else parts + [part]
  }

  /** Where a path leads, with "." and ".." worked out. */
  function Resolved(parts: seq<bytes>): seq<bytes> {
    if parts == [] then [] else Descend(Resolved(parts[..|parts| - 1]), parts[|parts| - 1])
  }

  lemma ExtendedJoin(a: seq<bytes>, parts: seq<bytes>, b: byte)
    requires parts != []
    ensures Extended(a + parts, b) == a + Extended(parts, b)
  {
    assert (a + parts)[..|a + parts| - 1] == a + parts[..|parts| - 1];
  }

  lemma {:induction false} PartsJoin(a: bytes, b: bytes)
    ensures Parts(a + [SLASH] + b) == Parts(a) + Parts(b)
  {
    hide Extended;
    var p := a + [SLASH] + b;
    if b == [] {
      assert p[..|p| - 1] == a;
      assert Extended(Parts(a), SLASH) == Parts(a) + [[]] by { Slashed(Parts(a)); }
    } else {
      assert p[..|p| - 1] == a + [SLASH] + b[..|b| - 1];
      PartsJoin(a, b[..|b| - 1]);
      ExtendedJoin(Parts(a), Parts(b[..|b| - 1]), b[|b| - 1]);
    }
  }

  lemma Slashed(parts: seq<bytes>)
    requires parts != []
    ensures Extended(parts, SLASH) == parts + [[]]
  {
  }

  lemma {:induction false} OnePart(name: bytes)
    requires SLASH !in name
    ensures Parts(name) == [name]
  {
    if name != [] {
      OnePart(name[..|name| - 1]);
      assert name[..|name| - 1] + [name[|name| - 1]] == name;
    }
  }

  lemma {:induction false} ResolvedFrom(a: seq<bytes>, b: seq<bytes>, rest: seq<bytes>)
    requires Resolved(a) == Resolved(b)
    ensures Resolved(a + rest) == Resolved(b + rest)
  {
    if rest == [] {
      assert a + rest == a && b + rest == b;
    } else {
      var front := rest[..|rest| - 1];
      ResolvedFrom(a, b, front);
      assert (a + rest)[..|a + rest| - 1] == a + front && (b + rest)[..|b + rest| - 1] == b + front;
    }
  }

  lemma UpAgain(base: seq<bytes>, user: bytes)
    requires user != [] && user != [DOT] && user != [DOT, DOT]
    ensures Resolved(base + [user, [DOT, DOT]]) == Resolved(base)
  {
    var once := base + [user];
    assert once[..|once| - 1] == base;
    assert (base + [user, [DOT, DOT]])[..|base| + 1] == once;
    assert Resolved(once) == Resolved(base) + [user];
  }

  /** With a slash a name can leave: "../bob/f" asked for by any user is the file "f" of "bob". */
  lemma SlashCanLeave(user: Name, other: Name, name: Name)
    requires ValidName(user) && ValidName(other)
    ensures Resolved(Parts(PathOf(user, [DOT, DOT, SLASH] + other + [SLASH] + name))) == Resolved(Parts(PathOf(other, name)))
  {
    hide Resolved, Parts;
    ValidNamesArePlain(user);
    var base := DATA[..|DATA| - 1];
    var tail := other + [SLASH] + name;
    assert PathOf(other, name) == base + [SLASH] + tail;
    assert PathOf(user, [DOT, DOT, SLASH] + tail) == base + [SLASH] + (user + [SLASH] + ([DOT, DOT] + [SLASH] + tail));
    assert [DOT, DOT, SLASH] + other + [SLASH] + name == [DOT, DOT, SLASH] + tail;
    PartsJoin(base, tail);
    PartsJoin(base, user + [SLASH] + ([DOT, DOT] + [SLASH] + tail));
    PartsJoin(user, [DOT, DOT] + [SLASH] + tail);
    PartsJoin([DOT, DOT], tail);
    OnePart(user);
    OnePart([DOT, DOT]);
    UpAgain(Parts(base), user);
    ResolvedFrom(Parts(base) + [user, [DOT, DOT]], Parts(base), Parts(tail));
    assert Parts(base) + ([user] + ([[DOT, DOT]] + Parts(tail))) == Parts(base) + [user, [DOT, DOT]] + Parts(tail);
  }
}
