/** The workspace layout calculator: from the block sizes (BM, BN, BK, MR, NR)
    to three 128-byte-aligned regions laid out back to back (the packed A
    panel, the packed B panel, the MR x NR accumulator) and the total size,
    which must stay below MaxWorkspaceBytes. */
module MemLayout {
  import opened Config

  datatype Region = Region(offset: nat, bytes: nat) {
    /** One past the last byte of the region. */
    function End(): nat {
      offset + bytes
    }
  }

  datatype Layout = Layout(a: Region, b: Region, accum: Region, totalBytes: nat)

  // ---------------------------------------------------------------------------
  // align_up
  // ---------------------------------------------------------------------------

  /** align_up on unbounded sizes: round `x` up to a multiple of `align`,
      adding less than one `align`. */
  function AlignUp(x: nat, align: nat): (r: nat)
    requires align > 0
    ensures x <= r < x + align
  {
    (x + align - 1) / align * align
  }

  /** At the workspace's alignment the result is a multiple of it, and the
      smallest one at or above `x`. */
  lemma AlignUpSimd(x: nat)
    ensures AlignUp(x, SimdAlignment) % SimdAlignment == 0
    ensures forall m: nat | m % SimdAlignment == 0 && x <= m :: AlignUp(x, SimdAlignment) <= m
  {
  }

  /** align_up as written on 64-bit size_t: add align - 1, then clear the
      low bits with the mask ~(align - 1). */
  function AlignUpMasked(x: bv64, align: bv64): (r: bv64)
    ensures r & (align - 1) == 0
  {
    (x + align - 1) & !(align - 1)
  }

  /** For the 128-byte alignment and any x that does not wrap on the addition,
      the mask rounds up to the next multiple of 128, as AlignUp does. */
  lemma AlignUpMaskedRoundsUp(x: bv64)
    requires x <= 0xFFFF_FFFF_FFFF_FF80
    ensures AlignUpMasked(x, 128) % 128 == 0
    ensures x <= AlignUpMasked(x, 128) && AlignUpMasked(x, 128) - x < 128
  {
  }

  /** Above that bound, x + 127 wraps and the "rounded up" size is 0. */
  lemma AlignUpMaskedWraps(x: bv64)
    requires x > 0xFFFF_FFFF_FFFF_FF80
    ensures AlignUpMasked(x, 128) == 0
  {
  }

  // ---------------------------------------------------------------------------
  // What a layout must be
  // ---------------------------------------------------------------------------

  /** Bytes of a rows x cols block of floats: four bytes per element, and
      none exactly when the block is empty. */
  function FloatBlockBytes(rows: nat, cols: nat): (n: nat)
    ensures n % FloatBytes == 0 && n / FloatBytes == rows * cols
    ensures n == 0 <==> rows == 0 || cols == 0
  {
    rows * cols * FloatBytes
  }

  lemma EmptyBlockBytes(rows: nat, cols: nat)
    requires rows == 0 || cols == 0
    ensures FloatBlockBytes(rows, cols) == 0
  {
  }

  /** The region sizes compute_layout is asked for, in bytes. */
  predicate HasSizes(l: Layout, BM: nat, BN: nat, BK: nat, MR: nat, NR: nat) {
    && l.a.bytes == FloatBlockBytes(BM, BK)
    && l.b.bytes == FloatBlockBytes(BK, BN)
    && l.accum.bytes == FloatBlockBytes(MR, NR)
  }

  /** `x` is the aligned boundary placed right after byte offset `after`: a
      multiple of the alignment, not before `after`, and padding less than
      one alignment unit. */
  predicate PaddedAfter(x: nat, after: nat) {
    x % SimdAlignment == 0 && after <= x < after + SimdAlignment
  }

  /** A is first, at offset 0; B and the accumulator follow in that order,
      each at the first aligned offset past its predecessor, and the total is
      the first aligned size past the accumulator. Hence the regions are
      aligned, ordered and pairwise disjoint. */
  predicate WellFormed(l: Layout) {
    && l.a.offset == 0
    && PaddedAfter(l.b.offset, l.a.offset + l.a.bytes)
    && PaddedAfter(l.accum.offset, l.b.offset + l.b.bytes)
    && PaddedAfter(l.totalBytes, l.accum.offset + l.accum.bytes)
  }

  /** Exactly one aligned offset lies in [after, after + alignment). */
  lemma PaddedAfterUnique(x: nat, y: nat, after: nat)
    requires PaddedAfter(x, after) && PaddedAfter(y, after)
    ensures x == y
  {
  }

  /** The region sizes fix the layout: two well-formed layouts whose regions
      have the same sizes are equal. Since HasSizes fixes the sizes from the
      block dimensions, there is one well-formed layout per configuration. */
  lemma LayoutUnique(l1: Layout, l2: Layout)
    requires WellFormed(l1) && WellFormed(l2)
    requires l1.a.bytes == l2.a.bytes && l1.b.bytes == l2.b.bytes && l1.accum.bytes == l2.accum.bytes
    ensures l1 == l2
  {
    PaddedAfterUnique(l1.b.offset, l2.b.offset, l1.a.End());
    PaddedAfterUnique(l1.accum.offset, l2.accum.offset, l1.b.End());
    PaddedAfterUnique(l1.totalBytes, l2.totalBytes, l1.accum.End());
  }

  /** Every region of a well-formed layout starts on an alignment boundary,
      the three are ordered and disjoint, and they fit in the total. */
  lemma WellFormedRegions(l: Layout)
    requires WellFormed(l)
    ensures l.a.offset % SimdAlignment == 0 && l.b.offset % SimdAlignment == 0
    ensures l.accum.offset % SimdAlignment == 0 && l.totalBytes % SimdAlignment == 0
    ensures l.a.End() <= l.b.offset && l.b.End() <= l.accum.offset && l.accum.End() <= l.totalBytes
    ensures l.a.bytes + l.b.bytes + l.accum.bytes <= l.totalBytes
  {
  }

  lemma AlignedSum(x: nat, y: nat)
    requires x % SimdAlignment == 0 && y % SimdAlignment == 0
    ensures (x + y) % SimdAlignment == 0
  {
  }

  /** With empty panels (BK = 0) all three regions start at offset 0. */
  lemma EmptyPanelsShareStart(l: Layout, BM: nat, BN: nat, MR: nat, NR: nat)
    requires WellFormed(l) && HasSizes(l, BM, BN, 0, MR, NR)
    ensures l.a.offset == l.b.offset == l.accum.offset == 0
  {
    EmptyBlockBytes(BM, 0);
    EmptyBlockBytes(0, BN);
    PaddedAfterUnique(l.b.offset, 0, 0);
    PaddedAfterUnique(l.accum.offset, 0, 0);
  }

  // ---------------------------------------------------------------------------
  // compute_layout
  // ---------------------------------------------------------------------------

  /** The region arithmetic of compute_layout on unbounded sizes. */
  function Arrange(BM: nat, BN: nat, BK: nat, MR: nat, NR: nat): (l: Layout)
    ensures WellFormed(l) && HasSizes(l, BM, BN, BK, MR, NR)
  {
    var a := Region(AlignUp(0, SimdAlignment), FloatBlockBytes(BM, BK));
    AlignUpSimd(a.End());
    var b := Region(AlignUp(a.End(), SimdAlignment), FloatBlockBytes(BK, BN));
    AlignUpSimd(b.End());
    var accum := Region(AlignUp(b.End(), SimdAlignment), FloatBlockBytes(MR, NR));
    AlignUpSimd(accum.End());
    Layout(a, b, accum, AlignUp(accum.End(), SimdAlignment))
  }

  /** compute_layout with its size check as an error outcome. It succeeds
      exactly when the well-formed layout for the requested sizes stays below
      MaxWorkspaceBytes, and then returns that layout. */
  function ComputeLayout(BM: nat, BN: nat, BK: nat, MR: nat, NR: nat): (r: Result<Layout>)
    ensures r.Ok? ==> WellFormed(r.value) && HasSizes(r.value, BM, BN, BK, MR, NR)
    ensures r.Ok? ==> r.value.totalBytes < MaxWorkspaceBytes
    ensures r.Err? ==> r.failure == WorkspaceTooLarge
    ensures r.Err? ==> forall l: Layout | WellFormed(l) && HasSizes(l, BM, BN, BK, MR, NR) ::
                         l.totalBytes >= MaxWorkspaceBytes
  {
    var l := Arrange(BM, BN, BK, MR, NR);
    if l.totalBytes < MaxWorkspaceBytes then Ok(l)
    else
      assert forall l': Layout | WellFormed(l') && HasSizes(l', BM, BN, BK, MR, NR) ::
               l'.totalBytes >= MaxWorkspaceBytes by {
        forall l': Layout | WellFormed(l') && HasSizes(l', BM, BN, BK, MR, NR)
          ensures l'.totalBytes >= MaxWorkspaceBytes
        {
          LayoutUnique(l, l');
        }
      }
      Err(WorkspaceTooLarge)
  }

  /** The Layout struct with its fields read as 64-bit size_t values. */
  datatype SizeRegion = SizeRegion(offset: bv64, bytes: bv64)
  datatype SizeLayout = SizeLayout(a: SizeRegion, b: SizeRegion, accum: SizeRegion, totalBytes: bv64)

  /** compute_layout as written: every size is a size_t, so the products and
      sums wrap modulo 2^64 before the size check sees them. Whatever it
      returns passes the check and ends on an alignment boundary. */
  function ComputeLayoutAsWritten(BM: bv64, BN: bv64, BK: bv64, MR: bv64, NR: bv64): (r: Result<SizeLayout>)
    ensures r.Ok? ==> r.value.totalBytes < 0x2000_0000 && r.value.totalBytes % 128 == 0
  {
    var aOffset := AlignUpMasked(0, 128);
    var aBytes := BM * BK * 4;
    var bOffset := AlignUpMasked(aOffset + aBytes, 128);
    var bBytes := BK * BN * 4;
    var accumOffset := AlignUpMasked(bOffset + bBytes, 128);
    var accumBytes := MR * NR * 4;
    var total := AlignUpMasked(accumOffset + accumBytes, 128);
    if total < 0x2000_0000 then
      Ok(SizeLayout(SizeRegion(aOffset, aBytes), SizeRegion(bOffset, bBytes),
                    SizeRegion(accumOffset, accumBytes), total))
    else
      Err(WorkspaceTooLarge)
  }

  /** With BM = 2^62 the A panel needs 2^64 bytes; the size_t product wraps to
      0, the size check passes, and the returned layout gives A zero bytes and
      puts B at offset 0. The unbounded calculation rejects the same request. */
  lemma SizeWrapPassesCheck()
    ensures ComputeLayoutAsWritten(0x4000_0000_0000_0000, 1, 1, 1, 1)
         == Ok(SizeLayout(SizeRegion(0, 0), SizeRegion(0, 4), SizeRegion(128, 4), 256))
    ensures FloatBlockBytes(0x4000_0000_0000_0000, 1) == SizeLimit
    ensures ComputeLayout(0x4000_0000_0000_0000, 1, 1, 1, 1) == Err(WorkspaceTooLarge)
  {
    var l := Arrange(0x4000_0000_0000_0000, 1, 1, 1, 1);
    assert l.totalBytes >= l.a.bytes == 0x1_0000_0000_0000_0000;
  }

  /** The default configuration (256, 256, 256, 8, 8) computed both ways: no
      size_t arithmetic wraps, and the layout is 256 KiB of A panel, 256 KiB
      of B panel, a 256-byte accumulator, 524544 bytes in all. */
  lemma DefaultLayout()
    ensures ComputeLayout(DefaultBM, DefaultBN, DefaultBK, PackedMR, PackedNR)
         == Ok(Layout(Region(0, 262144), Region(262144, 262144), Region(524288, 256), 524544))
    ensures ComputeLayoutAsWritten(256, 256, 256, 8, 8)
         == Ok(SizeLayout(SizeRegion(0, 262144), SizeRegion(262144, 262144), SizeRegion(524288, 256), 524544))
  {
    var l := Arrange(DefaultBM, DefaultBN, DefaultBK, PackedMR, PackedNR);
    assert l.a.bytes == 262144 && l.b.offset == 262144 && l.accum.offset == 524288;
  }

  /** Every block configuration the workspace is built with outside the
      default passes the size check: those of the tests and of the packed
      benchmark. */
  lemma ExercisedConfigsFit()
    ensures ComputeLayout(64, 64, 64, 4, 4).Ok?
    ensures ComputeLayout(64, 64, 32, 4, 4).Ok?
    ensures ComputeLayout(64, 64, 64, 8, 8).Ok?
    ensures ComputeLayout(128, 128, 64, 8, 8).Ok?
    ensures ComputeLayout(256, 128, 128, 8, 8).Ok?
    ensures ComputeLayout(192, 256, 128, 8, 8).Ok?
    ensures ComputeLayout(128, 128, 128, 8, 8).Ok?
    ensures ComputeLayout(128, 192, 64, 8, 8).Ok?
  {
    BoundedLayoutFits(64, 64, 64, 4, 4);
    BoundedLayoutFits(64, 64, 32, 4, 4);
    BoundedLayoutFits(64, 64, 64, 8, 8);
    BoundedLayoutFits(128, 128, 64, 8, 8);
    BoundedLayoutFits(256, 128, 128, 8, 8);
    BoundedLayoutFits(192, 256, 128, 8, 8);
    BoundedLayoutFits(128, 128, 128, 8, 8);
    BoundedLayoutFits(128, 192, 64, 8, 8);
  }

  /** Padding adds at most three alignment units to the raw sizes, so any
      request whose raw sizes total below MaxWorkspaceBytes - 384 fits. */
  lemma BoundedLayoutFits(BM: nat, BN: nat, BK: nat, MR: nat, NR: nat)
    requires (BM * BK + BK * BN + MR * NR) * FloatBytes + 3 * SimdAlignment <= MaxWorkspaceBytes - 1
    ensures ComputeLayout(BM, BN, BK, MR, NR).Ok?
  {
  }
}
