/** The specification: each user command as one atomic operation on two maps. */
module Store {
  import opened Config
  import opened Bytes
  import opened Chunks
  import opened Codecs
  import opened Listing
  import opened Env

  type Dir = map<Name, bytes>

  /** The user's directory on the server and the client's local directory. */
  datatype World = World(dir: Dir, local: Dir)

  datatype Op =
    | List
    | Download(name: Name)
    | Upload(name: Name)
    | Rename(oldName: Name, newName: Name)
    | Delete(name: Name, confirm: bool)
    | Logout

  /** What a command gives the user. `messages` counts the operation messages exchanged. */
  datatype Outcome =
    | Skipped                                             // refused by the menu, nothing sent
    | Finished(code: int, names: seq<Name>, messages: nat)

  function Move(dir: Dir, oldName: Name, newName: Name): Dir
    requires oldName in dir
  {
    (dir - {oldName})[newName := dir[oldName]]
  }

  datatype Result = Result(world: World, outcome: Outcome)

  function Atomic(env: Env, w: World, op: Op): Result {
    match op
    case List =>
      var names := env.Entries(w.dir.Keys);
      Result(w, Finished(SUCCESS, names, if names == [] then 2 else 3))
    case Download(name) =>
      if !ValidName(name) then Result(w, Skipped)
      else if name in w.local then Result(w, Finished(FILE_ALREADY_EXISTS, [], 0))
      else if name !in w.dir then Result(w, Finished(FILE_NOT_FOUND, [], 2))
      else Result(w.(local := w.local[name := w.dir[name]]), Finished(SUCCESS, [], 2 + ChunksNum(|w.dir[name]|)))
    case Upload(name) =>
      if !ValidName(name) then Result(w, Skipped)
      else if name !in w.local then Result(w, Finished(FILE_NOT_FOUND, [], 0))
      else if |w.local[name]| == 0 || |w.local[name]| > MAX_FILE_SIZE then Result(w, Finished(WRONG_FILE_SIZE, [], 0))
      else if name in w.dir then Result(w, Finished(FILE_ALREADY_EXISTS, [], 2))
      else Result(w.(dir := w.dir[name := w.local[name]]), Finished(SUCCESS, [], 3 + ChunksNum(|w.local[name]|)))
    case Rename(oldName, newName) =>
      if !ValidName(oldName) || !ValidName(newName) then Result(w, Skipped)
      else if oldName !in w.dir then Result(w, Finished(FILE_NOT_FOUND, [], 2))
      else if newName in w.dir then Result(w, Finished(FILE_ALREADY_EXISTS, [], 2))
      else Result(w.(dir := Move(w.dir, oldName, newName)), Finished(SUCCESS, [], 2))
    case Delete(name, confirm) =>
      if !ValidName(name) || name !in w.dir then Result(w, Skipped)
      else if !confirm then Result(w, Finished(NO_DELETE_CONFIRM, [], 3))
      else Result(w.(dir := w.dir - {name}), Finished(SUCCESS, [], 4))
    case Logout => Result(w, Finished(SUCCESS, [], 2))
  }

  /** Entries that the list can carry, which every stored name is. */
  ghost predicate Listable(dir: Dir) {
    forall n :: n in dir ==> ListName(n)
  }

  /** The three situations in which the code does not behave atomically are excluded:
      the lone name "error", an upload of exactly 4 GB, a stored file that needs more than 32 bits of size. */
  predicate InReach(env: Env, w: World, op: Op) {
    match op
    case List => w.dir.Keys != {ERROR_TEXT} && ENVELOPE_LEN + |Join(env.Entries(w.dir.Keys))| + 2 <= MAX_INT
    case Upload(name) => name in w.local ==> |w.local[name]| != MAX_FILE_SIZE
    case Download(name) => name in w.dir ==> |w.dir[name]| < U32_RANGE
    case _ => true
  }

  /** The world after the first `k` commands. */
  function WorldAt(env: Env, w: World, ops: seq<Op>, k: nat): World
    requires k <= |ops|
  {
    if k == 0 then w else Atomic(env, WorldAt(env, w, ops, k - 1), ops[k - 1]).world
  }

  function OutcomeAt(env: Env, w: World, ops: seq<Op>, k: nat): Outcome
    requires k < |ops|
  {
    Atomic(env, WorldAt(env, w, ops, k), ops[k]).outcome
  }

  /** The outcomes of the first `k` commands. */
  function Outcomes(env: Env, w: World, ops: seq<Op>, k: nat): (r: seq<Outcome>)
    requires k <= |ops|
    ensures |r| == k
  {
    if k == 0 then [] else Outcomes(env, w, ops, k - 1) + [OutcomeAt(env, w, ops, k - 1)]
  }

  function Messages(o: Outcome): nat {
    match o case Skipped => 0 case Finished(_, _, n) => n
  }

  function MessagesBefore(env: Env, w: World, ops: seq<Op>, k: nat): nat
    requires k <= |ops|
  {
    if k == 0 then 0 else MessagesBefore(env, w, ops, k - 1) + Messages(OutcomeAt(env, w, ops, k - 1))
  }

  lemma {:induction false} MessagesBeforeMonotone(env: Env, w: World, ops: seq<Op>, j: nat, k: nat)
    requires j <= k <= |ops|
    ensures MessagesBefore(env, w, ops, j) <= MessagesBefore(env, w, ops, k)
    decreases k - j
  {
    if j < k { MessagesBeforeMonotone(env, w, ops, j, k - 1); }
  }

  lemma {:induction false} ListableAt(env: Env, w: World, ops: seq<Op>, k: nat)
    requires k <= |ops| && Listable(w.dir)
    ensures Listable(WorldAt(env, w, ops, k).dir)
  {
    if k > 0 { ListableAt(env, w, ops, k - 1); }
  }

  // ---- What a run conserves ----

  /** The names whose file holds `content`. */
  function Holding(dir: Dir, content: bytes): set<Name> {
    set n | n in dir && dir[n] == content
  }

  /** Rename moves one file: the new name holds its bytes and every content keeps its number of copies. */
  lemma RenameConserves(env: Env, w: World, oldName: Name, newName: Name, content: bytes)
    ensures var w' := Atomic(env, w, Rename(oldName, newName)).world;
            && |Holding(w'.dir, content)| == |Holding(w.dir, content)|
            && (forall n :: n in w.dir && n != oldName ==> n in w'.dir && w'.dir[n] == w.dir[n])
            && (w'.dir != w.dir ==> oldName in w.dir && newName !in w.dir && oldName !in w'.dir
                                    && newName in w'.dir && w'.dir[newName] == w.dir[oldName])
  {
    var w' := Atomic(env, w, Rename(oldName, newName)).world;
    if w'.dir != w.dir {
      var before, after := Holding(w.dir, content), Holding(w'.dir, content);
      if w.dir[oldName] == content {
        assert after == before - {oldName} + {newName};
      } else {
        assert after == before;
      }
    }
  }

  /** Whether a command can make the server forget the name `n`. */
  predicate Forgets(op: Op, n: Name) {
    match op
    case Rename(oldName, _) => oldName == n
    case Delete(name, confirm) => name == n && confirm
    case _ => false
  }

  /** Over a whole run, a stored file keeps its bytes until it is renamed away or deleted with confirmation. */
  lemma {:induction false} FilesStay(env: Env, w: World, ops: seq<Op>, j: nat, k: nat, n: Name)
    requires j <= k <= |ops|
    requires n in WorldAt(env, w, ops, j).dir
    requires forall i :: j <= i < k ==> !Forgets(ops[i], n)
    ensures n in WorldAt(env, w, ops, k).dir && WorldAt(env, w, ops, k).dir[n] == WorldAt(env, w, ops, j).dir[n]
    decreases k - j
  {
    hide ValidName, ChunksNum;
    if j < k { FilesStay(env, w, ops, j, k - 1, n); }
  }

  ghost predicate Bounded(dir: Dir, n: nat) {
    forall x :: x in dir ==> |dir[x]| <= n
  }

  /** Uploads keep every stored file within what a download can announce. */
  lemma {:induction false} StoredSizesStay(env: Env, w: World, ops: seq<Op>, k: nat)
    requires k <= |ops| && Bounded(w.dir, MAX_FILE_SIZE)
    ensures Bounded(WorldAt(env, w, ops, k).dir, MAX_FILE_SIZE)
    ensures forall x :: x in WorldAt(env, w, ops, k).dir ==>
              AnnouncedDownload(|WorldAt(env, w, ops, k).dir[x]|) == |WorldAt(env, w, ops, k).dir[x]|
  {
    if k > 0 { StoredSizesStay(env, w, ops, k - 1); }
  }

  /** With every file of both directories below four billion bytes, they stay so, and no command but a list can
      ever be out of reach. */
  lemma {:induction false} SmallFilesInReach(env: Env, w: World, ops: seq<Op>, k: nat)
    requires k <= |ops| && Bounded(w.dir, MAX_FILE_SIZE - 1) && Bounded(w.local, MAX_FILE_SIZE - 1)
    ensures Bounded(WorldAt(env, w, ops, k).dir, MAX_FILE_SIZE - 1) && Bounded(WorldAt(env, w, ops, k).local, MAX_FILE_SIZE - 1)
    ensures forall op: Op :: !op.List? ==> InReach(env, WorldAt(env, w, ops, k), op)
  {
    hide ValidName, Join, ChunksNum;
    if k > 0 { SmallFilesInReach(env, w, ops, k - 1); }
  }
}
