/** Byte-level building blocks of the codecs: 32-bit integers and NUL-padded C strings. */
module Bytes {
  import opened Config

  /** `htonl` followed by a copy: most significant byte first. */
  function BE32(x: u32): (r: bytes)
    ensures |r| == 4
  {
    [(x / 0x100_0000) as byte, (x / 0x1_0000 % 0x100) as byte, (x / 0x100 % 0x100) as byte, (x % 0x100) as byte]
  }

  function FromBE32(b: bytes): u32
    requires |b| == 4
  {
    b[0] as int * 0x100_0000 + b[1] as int * 0x1_0000 + b[2] as int * 0x100 + b[3] as int
  }

  /** A raw copy of a `uint32_t`, on a little-endian host. */
  function LE32(x: u32): (r: bytes)
    ensures |r| == 4
  {
    [(x % 0x100) as byte, (x / 0x100 % 0x100) as byte, (x / 0x1_0000 % 0x100) as byte, (x / 0x100_0000) as byte]
  }

  function FromLE32(b: bytes): u32
    requires |b| == 4
  {
    b[3] as int * 0x100_0000 + b[2] as int * 0x1_0000 + b[1] as int * 0x100 + b[0] as int
  }

  lemma Digits32(x: u32)
    ensures x == (x / 0x100_0000) * 0x100_0000 + (x / 0x1_0000 % 0x100) * 0x1_0000 + (x / 0x100 % 0x100) * 0x100 + x % 0x100
  {
    assert x == (x / 0x100) * 0x100 + x % 0x100;
    assert x / 0x100 == (x / 0x1_0000) * 0x100 + x / 0x100 % 0x100;
    assert x / 0x1_0000 == (x / 0x100_0000) * 0x100 + x / 0x1_0000 % 0x100;
  }

  lemma BE32RoundTrip(x: u32)
    ensures FromBE32(BE32(x)) == x
  {
    Digits32(x);
  }

  lemma LE32RoundTrip(x: u32)
    ensures FromLE32(LE32(x)) == x
  {
    Digits32(x);
  }

  /** Network order: the first byte counts most. Host order: the last. */
  lemma ByteOrders(x: u32)
    ensures var b := BE32(x); x == ((b[0] as int * 256 + b[1] as int) * 256 + b[2] as int) * 256 + b[3] as int
    ensures var b := LE32(x); x == ((b[3] as int * 256 + b[2] as int) * 256 + b[1] as int) * 256 + b[0] as int
  {
    Digits32(x);
  }

  /** `static_cast<int>` of a length: the low 32 bits as a two's complement number. */
  function AsInt(length: nat): int {
    var low := length % U32_RANGE;
    if low <= MAX_INT then low else low - U32_RANGE
  }

  function Zeros(n: nat): (r: bytes)
    ensures |r| == n
  {
    seq(n, _ => 0 as byte)
  }

  /** An erased key: 16 zero bytes. */
  predicate Blank(key: bytes) {
    |key| == 16 && forall i :: 0 <= i < 16 ==> key[i] == 0
  }

  /** A `memcpy` into a zeroed array of `n` bytes. */
  function PadTo(b: bytes, n: nat): (r: bytes)
    ensures |r| == n
    ensures |b| <= n ==> r[..|b|] == b
  {
    if |b| <= n then b + Zeros(n - |b|) else b[..n]
  }

  /** The C string that starts a buffer. */
  function CString(b: bytes): (r: bytes)
    ensures |r| <= |b| && r == b[..|r|] && 0 !in r
    ensures |r| < |b| ==> b[|r|] == 0
  {
    if b == [] || b[0] == 0 then [] else [b[0]] + CString(b[1..])
  }

  /** `strncpy(dst, s.c_str(), n)`: stops at a NUL, pads with NULs. */
  function Strncpy(s: bytes, n: nat): (r: bytes)
    ensures |r| == n
  {
    PadTo(CString(s), n)
  }

  lemma {:induction false} CStringUnique(b: bytes, s: bytes)
    requires s <= b && 0 !in s
    requires |s| < |b| ==> b[|s|] == 0
    ensures CString(b) == s
  {
    if s != [] {
      assert s[0] == b[0];
      CStringUnique(b[1..], s[1..]);
    }
  }

  /** A name that fits with its terminator survives the copy into a fixed field. */
  lemma NameSurvives(s: bytes, n: nat)
    requires 0 !in s && |s| < n
    ensures CString(Strncpy(s, n)) == s
  {
    CStringUnique(s, s);
    CStringUnique(Strncpy(s, n), s);
  }
}
