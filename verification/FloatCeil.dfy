/** The floating-point chunk count of FileManager::initFileInfo. */
module FloatCeil {
  import opened Config
  import opened Chunks

  const TWO_53 := 0x20_0000_0000_0000
  const MAX_BINARY_EXPONENT := 1074

  function Pow2(k: nat): nat {
    if k == 0 then 1 else 2 * Pow2(k - 1)
  }

  /** `d` times a power of two, or over a power of two, with a 53-bit significand
      (binary64, section 3.4 of IEEE 754-2008). */
  ghost predicate Representable(d: real, m: int, k: nat) {
    && -TWO_53 <= m <= TWO_53
    && k <= MAX_BINARY_EXPONENT
    && (d * Pow2(k) as real == m as real || (k <= 971 && d == m as real * Pow2(k) as real))
  }

  ghost predicate IsDouble(d: real) {
    exists m: int, k: nat :: Representable(d, m, k)
  }

  function Dist(x: real, y: real): real {
    if x <= y then y - x else x - y
  }

  /** Round to nearest (section 4.3.1 of IEEE 754-2008), whatever the rule for ties. */
  ghost predicate Nearest(q: real, d: real) {
    IsDouble(d) && forall e: real :: IsDouble(e) ==> Dist(q, d) <= Dist(q, e)
  }

  function Ceil(d: real): int {
    if d.Floor as real == d then d.Floor else d.Floor + 1
  }

  lemma IntegersAreDoubles(n: int)
    requires -TWO_53 <= n <= TWO_53
    ensures IsDouble(n as real)
  {
    assert Representable(n as real, n, 0);
  }

  lemma Pow2Of19()
    ensures Pow2(19) == 524_288
  {
    assert Pow2(4) == 16;
    assert Pow2(8) == 256;
    assert Pow2(12) == 4096;
    assert Pow2(16) == 65536;
  }

  /** Just above an integer below 2^34 there is a double closer to any quotient above it. */
  lemma StepIsDouble(n: int)
    requires 0 <= n < 0x4_0000_0000
    ensures IsDouble(n as real + 1.0 / 524_288.0)
  {
    Pow2Of19();
    var d := n as real + 1.0 / 524_288.0;
    assert d * 524_288.0 == (n * 524_288 + 1) as real;
    assert Representable(d, n * 524_288 + 1, 19);
  }

  /** The rounded quotient has the same ceiling as the exact one. */
  lemma ChunkCountExact(size: nat, d: real)
    requires size < TWO_53
    requires Nearest(size as real / CHUNK_SIZE as real, d)
    ensures Ceil(d) == ChunksNum(size)
  {
    var q := size as real / CHUNK_SIZE as real;
    var up := ChunksNum(size);
    assert up as real >= q by {
      assert up * CHUNK_SIZE >= size;
    }
    IntegersAreDoubles(up);
    assert d <= up as real;
    if size > 0 {
      var low := up - 1;
      assert q >= low as real + 1.0 / 1_000_000.0 by {
        assert low * CHUNK_SIZE + 1 <= size;
      }
      IntegersAreDoubles(low);
      assert d >= low as real;
      StepIsDouble(low);
      assert Dist(q, low as real + 1.0 / 524_288.0) < Dist(q, low as real);
      assert d > low as real;
    } else {
      IntegersAreDoubles(0);
    }
  }
}
