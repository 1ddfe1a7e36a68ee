/** The assumptions of the main results can be met: an environment and a session that satisfy them. */
module Models {
  import opened Config
  import opened Bytes
  import opened Chunks
  import opened FloatCeil
  import opened Listing
  import opened Codecs
  import opened Env
  import opened Store
  import opened Protocol
  import opened Lockstep
  import opened FileManager
  import opened Running
  import opened Network
  import opened Guarantees
  import opened Reaching
  import opened Asking

  // ---- Every quotient has a nearest double ----

  function Doubles(): set<real> {
    (set m: int, k: nat | -TWO_53 <= m <= TWO_53 && 0 <= k <= MAX_BINARY_EXPONENT :: Scaled(m, k))
    + (set m: int, k: nat | -TWO_53 <= m <= TWO_53 && 0 <= k <= 971 :: Enlarged(m, k))
  }

  lemma {:induction false} Pow2Positive(k: nat)
    ensures Pow2(k) > 0
  {
    if k > 0 { Pow2Positive(k - 1); }
  }

  function Scaled(m: int, k: nat): real {
    Pow2Positive(k);
    m as real / Pow2(k) as real
  }

  function Enlarged(m: int, k: nat): real {
    m as real * Pow2(k) as real
  }

  lemma TimesOver(d: real, p: real)
    requires p > 0.0
    ensures d * p / p == d
  {
  }

  lemma DoubleIsListed(d: real)
    requires IsDouble(d)
    ensures d in Doubles()
  {
    hide Pow2;
    var m: int, k: nat :| Representable(d, m, k);
    Pow2Positive(k);
    var p := Pow2(k) as real;
    if d * p == m as real {
      TimesOver(d, p);
      assert d == Scaled(m, k);
    } else {
      assert d == Enlarged(m, k);
    }
  }

  lemma ListedIsDouble(d: real)
    requires d in Doubles()
    ensures IsDouble(d)
  {
    hide Pow2;
    if m: int, k: nat :| -TWO_53 <= m <= TWO_53 && 0 <= k <= MAX_BINARY_EXPONENT && d == Scaled(m, k) {
      Pow2Positive(k);
      assert Representable(d, m, k);
    } else {
      var m: int, k: nat :| -TWO_53 <= m <= TWO_53 && 0 <= k <= 971 && d == Enlarged(m, k);
      assert Representable(d, m, k);
    }
  }

  lemma {:induction false} Closest(q: real, s: set<real>, x: real) returns (d: real)
    requires x in s
    ensures d in s && forall e :: e in s ==> Dist(q, d) <= Dist(q, e)
    decreases |s|
  {
    d := x;
    if y :| y in s && y != x {
      var z := Closest(q, s - {x}, y);
      d := if Dist(q, x) <= Dist(q, z) then x else z;
    }
  }

  lemma NearestExists(q: real)
    ensures exists d :: Nearest(q, d)
  {
    hide Doubles, IsDouble;
    IntegersAreDoubles(0);
    DoubleIsListed(0.0);
    var d := Closest(q, Doubles(), 0.0);
    ListedIsDouble(d);
    forall e: real | IsDouble(e) ensures Dist(q, d) <= Dist(q, e) {
      DoubleIsListed(e);
    }
    assert Nearest(q, d);
  }

  ghost function Rounded(q: real): (d: real)
    ensures Nearest(q, d)
  {
    NearestExists(q);
    var d :| Nearest(q, d);
    d
  }

  // ---- An ideal environment ----

  /** Every value; a table with this domain is total. */
  predicate Any<T>(x: T) { true }

  ghost function Ordered(names: set<Name>): (r: seq<Name>)
    ensures |r| == |names| && forall n :: n in r <==> n in names
  {
    if names == {} then []
    else
      var n :| n in names;
      Ordered(names - {n}) + [n]
  }

  /** 32 equal bytes, none of them 0. */
  function Block(x: nat): (r: bytes)
    ensures |r| == 32
  {
    seq(32, _ => (x % 251 + 1) as byte)
  }

  /** The tag names the key; an ephemeral key is written as one byte; every signature is accepted. */
  ghost function SomeEnv(user: Name): Env {
    Env(
      Foreign(
        imap x: SealInput | Any(x) :: Sealed(x.text, PadTo(x.key, AES_TAG_LEN)),
        imap x: OpenInput | Any(x) && x.sealed.tag == PadTo(x.key, AES_TAG_LEN) :: x.sealed.text,
        imap x: nat | Any(x) && x < 251 :: [x as byte],
        imap pem: bytes | Any(pem) && |pem| == 1 :: pem[0] as nat,
        imap x: nat | Any(x) :: Block(x),
        imap text: bytes | Any(text) :: Zeros(ENCRYPTED_SIGNATURE_LEN),
        imap text: bytes | Any(text) :: Zeros(ENCRYPTED_SIGNATURE_LEN),
        iset x: Signed | Any(x),
        imap cert: bytes | Any(cert) :: [],
        imap names: set<Name> | Any(names) :: Ordered(names),
        imap size: nat | Any(size) :: Rounded(size as real / CHUNK_SIZE as real)),
      251, 6, map[user := []], [])
  }

  lemma SomeEnvSeals(user: Name)
    ensures SealOpens(SomeEnv(user)) && LengthKept(SomeEnv(user))
  {
  }

  lemma SomeEnvKeys(user: Name)
    ensures KeysReadBack(SomeEnv(user))
  {
  }

  lemma SomeEnvSigns(user: Name)
    ensures SignaturesVerify(SomeEnv(user), user)
  {
  }

  lemma SomeEnvVisits(user: Name)
    ensures VisitsOnce(SomeEnv(user))
  {
  }

  lemma SomeEnvRounds(user: Name)
    ensures Rounds(SomeEnv(user))
  {
  }

  /** What the main results assume of the foreign parts is consistent. */
  lemma AssumptionsHold(user: Name)
    requires ValidName(user)
    ensures exists env :: Ideal(env, user) && Usable(env)
  {
    hide SealOpens, LengthKept, KeysReadBack, VisitsOnce, SignaturesVerify, Rounds, SomeEnv;
    SomeEnvSeals(user);
    SomeEnvKeys(user);
    SomeEnvSigns(user);
    SomeEnvVisits(user);
    SomeEnvRounds(user);
    var env := SomeEnv(user);
    assert Ideal(env, user) && Usable(env);
  }

  /** Any valid user, any files below four billion bytes with listable names, and any commands but lists, with or
      without a logout at the end, are a session. */
  lemma SessionsExist(user: Name, world: World, ops: seq<Op>)
    requires ValidName(user) && Listable(world.dir)
    requires Bounded(world.dir, MAX_FILE_SIZE - 1) && Bounded(world.local, MAX_FILE_SIZE - 1)
    requires forall k :: 0 <= k < |ops| ==> !ops[k].List? && (ops[k].Logout? ==> k == |ops| - 1)
    ensures exists n: Session :: Runnable(n) && n.user == user && n.world == world && n.ops == ops
  {
    hide Ideal, Usable, Atomic, InReach, Bounded;
    AssumptionsHold(user);
    var env :| Ideal(env, user) && Usable(env);
    var n := Session(env, user, world, ops);
    forall k | 0 <= k < |ops| ensures InReach(env, WorldAt(env, world, ops, k), ops[k]) {
      SmallFilesInReach(env, world, ops, k);
    }
    assert Runnable(n);
  }

  /** Any listable files of any size are those of a finished session, so what is said of one more command after a finished
      session is about every directory. */
  lemma FinishedSessionsExist(user: Name, world: World)
    requires ValidName(user) && Listable(world.dir)
    ensures exists n: Session, net: Net ::
              Over(n, net) && Usable(n.env) && n.user == user && net.s.dir == world.dir && net.c.local == world.local
  {
    hide Ideal, Usable, Inv, Runs, End, ServerContinue, ClientContinue;
    AssumptionsHold(user);
    var env :| Ideal(env, user) && Usable(env);
    var n := Session(env, user, world, []);
    var r := SomeRnd();
    var run, key := Handshake(env, user, Initial(n), r, r);
    EveryRun(n, run);
    var net := End(env, Initial(n), run);
    LoggedIn(n, key);
    assert Over(n, net);
  }

  lemma LoggedIn(n: Session, key: bytes)
    ensures var c := InitialClient(n).(auth := CNoAuth, counter := 0, key := key); ClientResume(c) == c
    ensures var s := InitialServer(n).(auth := SNoAuth, counter := 0, key := key, user := n.user); ServerResume(n.env, s) == s
  {
  }
}
