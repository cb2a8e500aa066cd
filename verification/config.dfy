/** The build-time constants of the workspace and the packed kernels, and the
    error outcomes of building a workspace. */
module Config {
  const CacheLine: nat := 64
  const SimdAlignment: nat := 128
  const PageSize: nat := 16 * 1024

  const DefaultBM: nat := 256
  const DefaultBN: nat := 256
  const DefaultBK: nat := 256

  /** The micro-tile of the packed kernels v5 and v6. */
  const PackedMR: nat := 8
  const PackedNR: nat := 8

  const MaxWorkspaceBytes: nat := 512 * 1024 * 1024

  /** sizeof(float): every panel and accumulator element takes four bytes. */
  const FloatBytes: nat := 4

  /** One more than the largest size_t value. */
  const SizeLimit: nat := 0x1_0000_0000_0000_0000

  /** Why building a workspace can fail: the layout's size check, or the
      aligned allocation. Both are debug assertions in the C++ code. */
  datatype Failure = WorkspaceTooLarge | AllocationFailed

  datatype Result<T> = Ok(value: T) | Err(failure: Failure)

  /** n is 2^e for some e >= 0. */
  predicate IsPowerOfTwo(n: nat)
    decreases n
  {
    n == 1 || (n >= 2 && n % 2 == 0 && IsPowerOfTwo(n / 2))
  }

  /** The alignment is a power of two, which the mask in align_up relies on. */
  lemma SimdAlignmentIsPowerOfTwo()
    ensures IsPowerOfTwo(SimdAlignment)
  {
    assert IsPowerOfTwo(1);
    assert IsPowerOfTwo(2);
    assert IsPowerOfTwo(4);
    assert IsPowerOfTwo(8);
    assert IsPowerOfTwo(16);
    assert IsPowerOfTwo(32);
    assert IsPowerOfTwo(64);
  }

  /** The default blocks split into whole micro-tiles, so inside a full block
      every micro-tile is 8 x 8 and only blocks clipped at the matrix edge
      reach the scalar fallback. */
  lemma DefaultBlocksSplitIntoMicroTiles()
    ensures DefaultBM % PackedMR == 0 && DefaultBN % PackedNR == 0
    ensures DefaultBM / PackedMR == 32 && DefaultBN / PackedNR == 32
  {
  }
}
