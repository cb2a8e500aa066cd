/** pack_A and pack_B: copy a rows x cols block, stored with row stride `ld`
    starting at index `base` of `src`, into the first rows * cols elements
    of `dst`, row after row with no gaps. Neither transposes; they differ
    only in how the loops name their indices. */
module Packing {
  import opened Matrix

  /** Every element the copy reads is in range of `src`: the last one read
      is src[base + (rows - 1) * ld + cols - 1]. */
  predicate SourceCovers(n: nat, base: nat, rows: nat, cols: nat, ld: nat) {
    rows == 0 || cols == 0 || base + (rows - 1) * ld + cols <= n
  }

  /** `dst` holds the block compactly: element (i, k) at i * cols + k. */
  ghost predicate IsPacked(dst: seq<int>, src: seq<int>, base: nat, rows: nat, cols: nat, ld: nat) {
    forall i: nat, k: nat | i < rows && k < cols :: Cell(dst, cols, i, k) == At(src, base + Pos(i, k, ld))
  }

  /** What one packing call does to `dst`: the block lands in the first
      rows * cols elements and every later element keeps its value. */
  ghost predicate Packs(dst: seq<int>, dst': seq<int>, src: seq<int>, base: nat, rows: nat, cols: nat, ld: nat) {
    && |dst'| == |dst|
    && IsPacked(dst', src, base, rows, cols, ld)
    && forall p | rows * cols <= p < |dst| :: dst'[p] == dst[p]
  }

  // ---------------------------------------------------------------------------
  // Index arithmetic of a compact panel
  // ---------------------------------------------------------------------------

  /** Element (i, k) of a compact rows x cols panel lies below rows * cols. */
  lemma PanelPos(rows: nat, cols: nat, i: nat, k: nat)
    requires i < rows && k < cols
    ensures Pos(i, k, cols) < rows * cols
  {
    MulMono(i + 1, rows, cols);
  }

  /** Every index below rows * cols is the position of a panel element. */
  lemma PanelIndex(rows: nat, cols: nat, p: nat)
    requires p < rows * cols
    ensures cols > 0 && p / cols < rows && p % cols < cols
    ensures p == Pos(p / cols, p % cols, cols)
  {
    if p / cols >= rows {
      MulMono(rows, p / cols, cols);
    }
  }

  /** The element read for (i, k) is in range of the source. */
  lemma SourcePos(n: nat, base: nat, rows: nat, cols: nat, ld: nat, i: nat, k: nat)
    requires SourceCovers(n, base, rows, cols, ld)
    requires i < rows && k < cols
    ensures base + Pos(i, k, ld) < n
  {
    MulMono(i, rows - 1, ld);
  }

  /** The panel write `dst[i * cols + k] = v`. */
  function PanelStore(dst: seq<int>, rows: nat, cols: nat, i: nat, k: nat, v: int): (dst': seq<int>)
    requires rows * cols <= |dst| && i < rows && k < cols
    ensures |dst'| == |dst|
    ensures Cell(dst', cols, i, k) == v
    ensures forall i': nat, k': nat | (i', k') != (i, k) && k' < cols ::
              Cell(dst', cols, i', k') == Cell(dst, cols, i', k')
    ensures forall p | rows * cols <= p < |dst| :: dst'[p] == dst[p]
  {
    PanelPos(rows, cols, i, k);
    var dst' := dst[Pos(i, k, cols) := v];
    assert forall i': nat, k': nat | (i', k') != (i, k) && k' < cols ::
             Cell(dst', cols, i', k') == Cell(dst, cols, i', k') by {
      forall i': nat, k': nat | (i', k') != (i, k) && k' < cols
        ensures Cell(dst', cols, i', k') == Cell(dst, cols, i', k')
      {
        if Pos(i', k', cols) == Pos(i, k, cols) {
          PosInjective(i, k, i', k', cols);
        }
      }
    }
    dst'
  }

  // ---------------------------------------------------------------------------
  // The two copies
  // ---------------------------------------------------------------------------

  /** pack_A: for each row i, point s at the source row and d at the panel
      row, and copy d[k] = s[k] for k < cols. */
  method PackA(dst: seq<int>, src: seq<int>, base: nat, rows: nat, cols: nat, ld: nat) returns (dst': seq<int>)
    requires rows * cols <= |dst|
    requires SourceCovers(|src|, base, rows, cols, ld)
    ensures Packs(dst, dst', src, base, rows, cols, ld)
  {
    dst' := dst;
    var i := 0;
    while i < rows
      invariant i <= rows && |dst'| == |dst|
      invariant forall i': nat, k': nat | i' < i && k' < cols ::
                  Cell(dst', cols, i', k') == At(src, base + Pos(i', k', ld))
      invariant forall p | rows * cols <= p < |dst| :: dst'[p] == dst[p]
    {
      var k := 0;
      while k < cols
        invariant k <= cols && |dst'| == |dst|
        invariant forall i': nat, k': nat | (i' < i || (i' == i && k' < k)) && k' < cols ::
                    Cell(dst', cols, i', k') == At(src, base + Pos(i', k', ld))
        invariant forall p | rows * cols <= p < |dst| :: dst'[p] == dst[p]
      {
        SourcePos(|src|, base, rows, cols, ld, i, k);
        dst' := PanelStore(dst', rows, cols, i, k, src[base + Pos(i, k, ld)]);
        k := k + 1;
      }
      i := i + 1;
    }
  }

  /** pack_B: dst[k * cols + j] = src[k * ld + j] for k < rows, j < cols. */
  method PackB(dst: seq<int>, src: seq<int>, base: nat, rows: nat, cols: nat, ld: nat) returns (dst': seq<int>)
    requires rows * cols <= |dst|
    requires SourceCovers(|src|, base, rows, cols, ld)
    ensures Packs(dst, dst', src, base, rows, cols, ld)
  {
    dst' := dst;
    var k := 0;
    while k < rows
      invariant k <= rows && |dst'| == |dst|
      invariant forall k': nat, j': nat | k' < k && j' < cols ::
                  Cell(dst', cols, k', j') == At(src, base + Pos(k', j', ld))
      invariant forall p | rows * cols <= p < |dst| :: dst'[p] == dst[p]
    {
      var j := 0;
      while j < cols
        invariant j <= cols && |dst'| == |dst|
        invariant forall k': nat, j': nat | (k' < k || (k' == k && j' < j)) && j' < cols ::
                    Cell(dst', cols, k', j') == At(src, base + Pos(k', j', ld))
        invariant forall p | rows * cols <= p < |dst| :: dst'[p] == dst[p]
      {
        SourcePos(|src|, base, rows, cols, ld, k, j);
        dst' := PanelStore(dst', rows, cols, k, j, src[base + Pos(k, j, ld)]);
        j := j + 1;
      }
      k := k + 1;
    }
  }

  // ---------------------------------------------------------------------------
  // Properties of a packing
  // ---------------------------------------------------------------------------

  /** The packing determines the destination completely: two results of
      packing the same block into the same buffer are equal. So pack_A and
      pack_B, given the same arguments, write the same thing. */
  lemma PacksUnique(dst: seq<int>, d1: seq<int>, d2: seq<int>, src: seq<int>, base: nat, rows: nat, cols: nat, ld: nat)
    requires Packs(dst, d1, src, base, rows, cols, ld)
    requires Packs(dst, d2, src, base, rows, cols, ld)
    ensures d1 == d2
  {
    forall p | 0 <= p < |d1|
      ensures d1[p] == d2[p]
    {
      if p < rows * cols {
        PanelIndex(rows, cols, p);
        assert Cell(d1, cols, p / cols, p % cols) == Cell(d2, cols, p / cols, p % cols);
      }
    }
  }

  /** Packing the same block a second time changes nothing. */
  lemma PackIdempotent(dst: seq<int>, d1: seq<int>, d2: seq<int>, src: seq<int>, base: nat, rows: nat, cols: nat, ld: nat)
    requires Packs(dst, d1, src, base, rows, cols, ld)
    requires Packs(d1, d2, src, base, rows, cols, ld)
    ensures d2 == d1
  {
    assert Packs(d1, d1, src, base, rows, cols, ld);
    PacksUnique(d1, d1, d2, src, base, rows, cols, ld);
  }

  /** An empty block (rows == 0 or cols == 0) leaves the destination as it was. */
  lemma PackEmpty(dst: seq<int>, dst': seq<int>, src: seq<int>, base: nat, rows: nat, cols: nat, ld: nat)
    requires rows == 0 || cols == 0
    requires Packs(dst, dst', src, base, rows, cols, ld)
    ensures dst' == dst
  {
    assert rows * cols == 0;
  }

  /** When the source stride equals the width the block is already compact,
      and packing copies a contiguous run of the source. */
  lemma PackContiguous(dst: seq<int>, dst': seq<int>, src: seq<int>, base: nat, rows: nat, cols: nat)
    requires rows * cols <= |dst| && base + rows * cols <= |src|
    requires Packs(dst, dst', src, base, rows, cols, cols)
    ensures dst'[..rows * cols] == src[base..base + rows * cols]
  {
    forall p | 0 <= p < rows * cols
      ensures dst'[p] == src[base + p]
    {
      PanelIndex(rows, cols, p);
      assert Cell(dst', cols, p / cols, p % cols) == At(src, base + Pos(p / cols, p % cols, cols));
    }
  }

  /** The block 4 x 5 at stride 7 out of the numbers 0 .. 27: the panel holds
      rows 0-4, 7-11, 14-18 and 21-25. */
  lemma PackExample(dst: seq<int>, dst': seq<int>)
    requires |dst| == 20
    requires Packs(dst, dst', seq(28, p => p), 0, 4, 5, 7)
    ensures dst' == [0, 1, 2, 3, 4, 7, 8, 9, 10, 11, 14, 15, 16, 17, 18, 21, 22, 23, 24, 25]
  {
    var src := seq(28, p => p);
    forall p | 0 <= p < 20
      ensures dst'[p] == 7 * (p / 5) + p % 5
    {
      PanelIndex(4, 5, p);
      assert Cell(dst', 5, p / 5, p % 5) == At(src, Pos(p / 5, p % 5, 7));
    }
  }
}
