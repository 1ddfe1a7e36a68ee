/** `memcpy` and `strncpy` on byte arrays. */
module Memory {
  import opened Config
  import opened Bytes

  /** Copies `source` into `buffer` at `position`; the rest of the buffer keeps its bytes. */
  method CopyTo(buffer: array<byte>, position: nat, source: bytes)
    requires position + |source| <= buffer.Length
    modifies buffer
    ensures buffer[..] == old(buffer[..position]) + source + old(buffer[position + |source|..])
  {
    var i := 0;
    while i < |source|
      invariant 0 <= i <= |source|
      invariant forall k :: 0 <= k < buffer.Length ==>
        buffer[k] == if position <= k < position + i then source[k - position] else old(buffer[k])
    {
      buffer[position + i] := source[i];
      i := i + 1;
    }
  }

  /** Writes `source` at the current position and advances it. */
  method Append(buffer: array<byte>, position: nat, source: bytes) returns (next: nat)
    requires position + |source| <= buffer.Length
    modifies buffer
    ensures next == position + |source|
    ensures buffer[..next] == old(buffer[..position]) + source
  {
    CopyTo(buffer, position, source);
    next := position + |source|;
    assert buffer[..next] == (old(buffer[..position]) + source + old(buffer[position + |source|..]))[..next];
  }

  lemma {:induction false} CStringCovers(s: bytes, n: nat)
    requires n <= |s| && 0 !in s[..n]
    ensures s[..n] <= CString(s)
  {
    if n > 0 {
      assert s[..n][0] == s[0];
      assert s[1..][..n - 1] == s[..n][1..];
      CStringCovers(s[1..], n - 1);
    }
  }

  /** Copies up to the first NUL and fills the rest of the array with NULs. */
  method CopyString(buffer: array<byte>, source: bytes)
    modifies buffer
    ensures buffer[..] == Strncpy(source, buffer.Length)
  {
    var i := 0;
    while i < buffer.Length && i < |source| && source[i] != 0
      invariant 0 <= i <= buffer.Length && i <= |source|
      invariant buffer[..i] == source[..i] && 0 !in source[..i]
    {
      buffer[i] := source[i];
      i := i + 1;
    }
    CStringCovers(source, i);
    if i == |source| || source[i] == 0 {
      CStringUnique(source, source[..i]);
    }
    var j := i;
    while j < buffer.Length
      invariant i <= j <= buffer.Length
      invariant buffer[..i] == source[..i]
      invariant forall k :: i <= k < j ==> buffer[k] == 0
    {
      buffer[j] := 0;
      j := j + 1;
    }
    if i < buffer.Length {
      assert CString(source) == source[..i];
      assert buffer[..] == source[..i] + Zeros(buffer.Length - i);
    } else {
      assert CString(source)[..i] == source[..i];
      assert buffer[..] == source[..i];
      PadCut(CString(source), i);
    }
  }

  lemma PadCut(b: bytes, n: nat)
    requires n <= |b|
    ensures PadTo(b, n) == b[..n]
  {
  }

  /** Zeroes an array and copies `source` to its start. */
  method CopyPadded(buffer: array<byte>, source: bytes)
    requires |source| <= buffer.Length
    modifies buffer
    ensures buffer[..] == PadTo(source, buffer.Length)
  {
    var i := 0;
    while i < buffer.Length
      invariant 0 <= i <= buffer.Length
      invariant forall k :: 0 <= k < i ==> buffer[k] == 0
    {
      buffer[i] := 0;
      i := i + 1;
    }
    CopyTo(buffer, 0, source);
    assert buffer[..] == source + Zeros(buffer.Length - |source|);
  }
}
