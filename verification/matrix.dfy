/** Dense row-major matrices stored in flat buffers with a leading dimension
    (the stride between consecutive rows), as every kernel of the family sees
    them: element (i, j) of a matrix with leading dimension `ld` lives at
    index `i * ld + j` of its buffer. */
module Matrix {

  /** The problem handed to every kernel: C (M x N) from A (M x K) and B (K x N),
      with the leading dimension of each operand. */
  datatype GemmConfig = GemmConfig(M: nat, N: nat, K: nat, lda: nat, ldb: nat, ldc: nat)

  /** A rectangle of output cells, rows [r0, r1) and columns [c0, c1). */
  datatype Tile = Tile(r0: nat, r1: nat, c0: nat, c1: nat) {
    predicate Contains(i: nat, j: nat) {
      r0 <= i < r1 && c0 <= j < c1
    }
  }

  /** `std::min` on sizes. */
  function Min(a: nat, b: nat): (r: nat)
    ensures r <= a && r <= b
    ensures r == a || r == b
  {
    if a < b then a else b
  }

  /** Index of element (i, j) in a buffer with row stride `ld`. */
  function Pos(i: nat, j: nat, ld: nat): nat {
    i * ld + j
  }

  /** Total read of a buffer: in-range positions give their element, anything
      else reads as 0. Specifications use it so that they carry no bounds
      obligations; kernels only ever read in range (see `Get`). */
  function At(s: seq<int>, p: int): int {
    if 0 <= p < |s| then s[p] else 0
  }

  /** Element (i, j) of the matrix stored in `s` with row stride `ld`. */
  function Cell(s: seq<int>, ld: nat, i: nat, j: nat): int {
    At(s, Pos(i, j, ld))
  }

  /** A rows x cols matrix with row stride `ld` fits in a buffer of length `n`:
      the stride is at least the width, and the last element is in range. */
  predicate Fits(n: nat, rows: nat, cols: nat, ld: nat) {
    cols <= ld && (rows == 0 || cols == 0 || (rows - 1) * ld + cols <= n)
  }

  /** The caller's obligations on the operands of every kernel. */
  predicate Valid(cfg: GemmConfig, A: seq<int>, B: seq<int>, C: seq<int>) {
    && Fits(|A|, cfg.M, cfg.K, cfg.lda)
    && Fits(|B|, cfg.K, cfg.N, cfg.ldb)
    && Fits(|C|, cfg.M, cfg.N, cfg.ldc)
  }

  /** Position `p` of C's buffer belongs to the M x N output window. */
  predicate InWindow(cfg: GemmConfig, p: int) {
    cfg.ldc > 0 && 0 <= p && p / cfg.ldc < cfg.M && p % cfg.ldc < cfg.N
  }

  /** The whole output window as a tile. */
  function Window(cfg: GemmConfig): Tile {
    Tile(0, cfg.M, 0, cfg.N)
  }

  // ---------------------------------------------------------------------------
  // Index arithmetic
  // ---------------------------------------------------------------------------

  lemma MulMono(a: nat, b: nat, c: nat)
    requires a <= b
    ensures a * c <= b * c
  {
  }

  /** Row-major order: an earlier (row, column) pair lies at an earlier index. */
  lemma PosBefore(r: nat, k: nat, i: nat, j: nat, ld: nat)
    requires k < ld
    requires r < i || (r == i && k < j)
    ensures Pos(r, k, ld) < Pos(i, j, ld)
  {
    if r < i {
      MulMono(r + 1, i, ld);
    }
  }

  /** Within a row, division by the stride recovers the row and the column. */
  lemma PosDivMod(i: nat, j: nat, ld: nat)
    requires j < ld
    ensures Pos(i, j, ld) / ld == i
    ensures Pos(i, j, ld) % ld == j
  {
    var p := Pos(i, j, ld);
    var q, r := p / ld, p % ld;
    assert q * ld + r == i * ld + j;
    if q < i {
      MulMono(q + 1, i, ld);
      assert false;
    } else if q > i {
      MulMono(i + 1, q, ld);
      assert false;
    }
  }

  lemma PosInjective(i: nat, j: nat, i': nat, j': nat, ld: nat)
    requires j < ld && j' < ld
    requires Pos(i, j, ld) == Pos(i', j', ld)
    ensures i == i' && j == j'
  {
    PosDivMod(i, j, ld);
    PosDivMod(i', j', ld);
  }

  /** Every element of a fitting matrix is in range of its buffer. */
  lemma PosInBounds(n: nat, rows: nat, cols: nat, ld: nat, i: nat, j: nat)
    requires Fits(n, rows, cols, ld)
    requires i < rows && j < cols
    ensures Pos(i, j, ld) < n
  {
    MulMono(i, rows - 1, ld);
  }

  /** A window cell is at an in-window position of C's buffer. */
  lemma CellInWindow(cfg: GemmConfig, i: nat, j: nat)
    requires i < cfg.M && j < cfg.N && cfg.N <= cfg.ldc
    ensures InWindow(cfg, Pos(i, j, cfg.ldc))
  {
    PosDivMod(i, j, cfg.ldc);
  }

  /** An in-window position is the position of the window cell given by
      dividing it by the stride. */
  lemma WindowPos(cfg: GemmConfig, p: int)
    requires InWindow(cfg, p)
    ensures p == Pos(p / cfg.ldc, p % cfg.ldc, cfg.ldc)
  {
  }

  // ---------------------------------------------------------------------------
  // Reading and writing buffers
  // ---------------------------------------------------------------------------

  /** An in-range read `s[i * ld + j]`; it is the cell the specifications talk about. */
  function Get(s: seq<int>, rows: nat, cols: nat, ld: nat, i: nat, j: nat): (x: int)
    requires Fits(|s|, rows, cols, ld)
    requires i < rows && j < cols
    ensures x == Cell(s, ld, i, j)
  {
    PosInBounds(|s|, rows, cols, ld, i, j);
    s[Pos(i, j, ld)]
  }

  /** Every position of C's buffer outside the output window keeps its value. */
  ghost predicate OutsideUnchanged(cfg: GemmConfig, C0: seq<int>, C1: seq<int>) {
    && |C1| == |C0|
    && forall p :: 0 <= p < |C0| && !InWindow(cfg, p) ==> C1[p] == C0[p]
  }

  /** The store `C[i * ldc + j] = v` of a window cell: that cell becomes `v`;
      every other window cell and every position outside the window is untouched. */
  function Store(cfg: GemmConfig, C: seq<int>, i: nat, j: nat, v: int): (C': seq<int>)
    requires Fits(|C|, cfg.M, cfg.N, cfg.ldc)
    requires i < cfg.M && j < cfg.N
    ensures OutsideUnchanged(cfg, C, C')
    ensures Cell(C', cfg.ldc, i, j) == v
    ensures forall i': nat, j': nat | (i', j') != (i, j) && j' < cfg.N ::
              Cell(C', cfg.ldc, i', j') == Cell(C, cfg.ldc, i', j')
  {
    PosInBounds(|C|, cfg.M, cfg.N, cfg.ldc, i, j);
    CellInWindow(cfg, i, j);
    var C' := C[Pos(i, j, cfg.ldc) := v];
    assert forall i': nat, j': nat | (i', j') != (i, j) && j' < cfg.N ::
             Cell(C', cfg.ldc, i', j') == Cell(C, cfg.ldc, i', j') by {
      forall i': nat, j': nat | (i', j') != (i, j) && j' < cfg.N
        ensures Cell(C', cfg.ldc, i', j') == Cell(C, cfg.ldc, i', j')
      {
        if Pos(i', j', cfg.ldc) == Pos(i, j, cfg.ldc) {
          PosInjective(i, j, i', j', cfg.ldc);
        }
      }
    }
    C'
  }
}
