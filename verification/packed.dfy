/** The packed kernel v5 (and the per-tile work v6 shares with it): for every
    BM x BN output block and every BK slice of the shared dimension, pack the
    A block and the B block into the workspace's panels, then sweep the block
    in 8 x 8 micro-tiles that load C, add the slice's products, and store C
    back. Clipped micro-tiles at the block edge take a scalar loop. Both
    accumulate into C. */
module Packed {
  import opened Matrix
  import opened GemmSpec
  import opened Lanes
  import Neon
  import Packing
  import Config
  import MemLayout

  /** One (ii, jj, kk) step of the block loops: the block of C at (ii, jj),
      Mb x Nb, and the slice [kk, kk + Kb) of the shared dimension. */
  datatype Block = Block(ii: nat, jj: nat, kk: nat, Mb: nat, Nb: nat, Kb: nat) {
    predicate Inside(cfg: GemmConfig) {
      ii + Mb <= cfg.M && jj + Nb <= cfg.N && kk + Kb <= cfg.K
    }

    /** The output cells the block covers. */
    function Out(): Tile {
      Tile(ii, ii + Mb, jj, jj + Nb)
    }
  }

  /** `panel` holds, compactly with stride `cols`, the rows x cols block of
      the matrix X (stride `ldx`) whose top-left element is (r0, c0). */
  ghost predicate HoldsBlock(panel: seq<int>, X: seq<int>, ldx: nat, r0: nat, c0: nat, rows: nat, cols: nat) {
    forall r: nat, c: nat | r < rows && c < cols :: Cell(panel, cols, r, c) == Cell(X, ldx, r0 + r, c0 + c)
  }

  /** What the micro-tile sweep relies on after both packing calls: the A
      panel holds A's Mb x Kb block at (ii, kk), the B panel B's Kb x Nb block
      at (kk, jj), and both are long enough. */
  ghost predicate PanelsHold(cfg: GemmConfig, A: seq<int>, B: seq<int>, pa: seq<int>, pb: seq<int>, b: Block) {
    && b.Mb * b.Kb <= |pa| && b.Kb * b.Nb <= |pb|
    && HoldsBlock(pa, A, cfg.lda, b.ii, b.kk, b.Mb, b.Kb)
    && HoldsBlock(pb, B, cfg.ldb, b.kk, b.jj, b.Kb, b.Nb)
  }

  /** The panels seen as the operands of a GEMM of their own: A is Mb x Kb
      with stride Kb, B is Kb x Nb with stride Nb. This is how the
      microkernel indexes them (A[i * K + k], B[k * Nb + j]). */
  function PanelConfig(b: Block): GemmConfig {
    GemmConfig(b.Mb, b.Nb, b.Kb, b.Kb, b.Nb, b.Nb)
  }

  // ---------------------------------------------------------------------------
  // From packing to the panels' contents
  // ---------------------------------------------------------------------------

  lemma ProductBound(a: nat, b: nat, c: nat, d: nat)
    requires a <= c && b <= d
    ensures a * b <= c * d
  {
    MulMono(a, c, b);
    assert b * c <= d * c by { MulMono(b, d, c); }
  }

  /** A compact rows x cols panel that fits in `n` elements is a matrix that
      fits with stride `cols`. */
  lemma PanelFits(n: nat, rows: nat, cols: nat)
    requires rows * cols <= n
    ensures Fits(n, rows, cols, cols)
  {
    if rows > 0 {
      assert (rows - 1) * cols + cols == rows * cols;
    }
  }

  /** The base address `X + r0 * ld + c0` of a block inside a fitting matrix
      leaves every element the packing reads in range. */
  lemma BlockCovers(n: nat, rows: nat, cols: nat, ld: nat, r0: nat, c0: nat, h: nat, w: nat)
    requires Fits(n, rows, cols, ld)
    requires r0 + h <= rows && c0 + w <= cols
    ensures Packing.SourceCovers(n, Pos(r0, c0, ld), h, w, ld)
  {
    if h > 0 && w > 0 {
      assert Pos(r0, c0, ld) + (h - 1) * ld == (r0 + h - 1) * ld + c0;
      MulMono(r0 + h - 1, rows - 1, ld);
    }
  }

  /** Packing at the base `Pos(r0, c0, ld)` puts element (r0 + r, c0 + c) of
      the source at (r, c) of the panel. */
  lemma PackedHoldsBlock(panel: seq<int>, X: seq<int>, ld: nat, r0: nat, c0: nat, rows: nat, cols: nat)
    requires Packing.IsPacked(panel, X, Pos(r0, c0, ld), rows, cols, ld)
    ensures HoldsBlock(panel, X, ld, r0, c0, rows, cols)
  {
    forall r: nat, c: nat | r < rows && c < cols
      ensures Cell(panel, cols, r, c) == Cell(X, ld, r0 + r, c0 + c)
    {
      assert (r0 + r) * ld == r0 * ld + r * ld;
      assert Pos(r0, c0, ld) + Pos(r, c, ld) == Pos(r0 + r, c0 + c, ld);
    }
  }

  /** The dot product over the first n columns of the panels is the dot
      product of the matrices over [kk, kk + n) at the block's offset. */
  lemma {:induction false} DotPanel(cfg: GemmConfig, A: seq<int>, B: seq<int>, pa: seq<int>, pb: seq<int>,
                                    b: Block, r: nat, c: nat, n: nat)
    requires PanelsHold(cfg, A, B, pa, pb, b)
    requires r < b.Mb && c < b.Nb && n <= b.Kb
    ensures Dot(pa, b.Kb, pb, b.Nb, r, c, 0, n) == Partial(cfg, A, B, b.ii + r, b.jj + c, b.kk, b.kk + n)
    decreases n
  {
    if n > 0 {
      DotPanel(cfg, A, B, pa, pb, b, r, c, n - 1);
      assert Cell(pa, b.Kb, r, n - 1) == Cell(A, cfg.lda, b.ii + r, b.kk + (n - 1));
      assert Cell(pb, b.Nb, n - 1, c) == Cell(B, cfg.ldb, b.kk + (n - 1), b.jj + c);
    }
  }

  // ---------------------------------------------------------------------------
  // The 8 x 8 microkernel on the panels
  // ---------------------------------------------------------------------------

  /** A loaded accumulator row: lanes hold C's (i, j .. j + 7). */
  ghost predicate RowLoaded(C: seq<int>, ldc: nat, acc: RowAcc, i: nat, j: nat) {
    forall l | 0 <= l < 4 :: acc.lo[l] == Cell(C, ldc, i, j + l) && acc.hi[l] == Cell(C, ldc, i, j + 4 + l)
  }

  /** The microkernel's first loop: load the 8 x 8 tile of C at (i, j) into
      the accumulator rows. */
  method LoadTile(cfg: GemmConfig, C: seq<int>, i: nat, j: nat) returns (init: seq<RowAcc>)
    requires Fits(|C|, cfg.M, cfg.N, cfg.ldc)
    requires i + 8 <= cfg.M && j + 8 <= cfg.N
    ensures |init| == 8
    ensures forall r: nat | r < 8 :: RowLoaded(C, cfg.ldc, init[r], i + r, j)
  {
    init := [];
    var r := 0;
    while r < 8
      invariant r <= 8 && |init| == r
      invariant forall r': nat | r' < r :: RowLoaded(C, cfg.ldc, init[r'], i + r', j)
    {
      var row := RowAcc(LoadRow(C, cfg.M, cfg.N, cfg.ldc, i + r, j), LoadRow(C, cfg.M, cfg.N, cfg.ldc, i + r, j + 4));
      init := init + [row];
      r := r + 1;
    }
  }

  /** vst1q_f32 of four finished sums: lanes l = 0 .. 3 hold the old cells
      (i, j + l) plus their [k0, k1) contribution, so the store accumulates
      over exactly that 1 x 4 tile. */
  method StoreSums(cfg: GemmConfig, A: seq<int>, B: seq<int>, C: seq<int>, i: nat, j: nat, v: Vec4, k0: nat, k1: nat)
    returns (C': seq<int>)
    requires Fits(|C|, cfg.M, cfg.N, cfg.ldc)
    requires i < cfg.M && j + 4 <= cfg.N
    requires forall l | 0 <= l < 4 :: v[l] == Cell(C, cfg.ldc, i, j + l) + Partial(cfg, A, B, i, j + l, k0, k1)
    ensures AddsTile(cfg, A, B, C, C', Tile(i, i + 1, j, j + 4), k0, k1)
  {
    C' := StoreRow(cfg, C, i, j, v);
    assert forall j': nat | j <= j' < j + 4 ::
             v[j' - j] == Cell(C, cfg.ldc, i, j') + Partial(cfg, A, B, i, j', k0, k1) by {
      forall j': nat | j <= j' < j + 4
        ensures v[j' - j] == Cell(C, cfg.ldc, i, j') + Partial(cfg, A, B, i, j', k0, k1)
      {
        assert j + (j' - j) == j';
      }
    }
  }

  /** An accumulator row holds C's (i, j .. j + 7) plus their [k0, k1) contributions. */
  ghost predicate RowSums(cfg: GemmConfig, A: seq<int>, B: seq<int>, C: seq<int>, acc: RowAcc,
                          i: nat, j: nat, k0: nat, k1: nat)
  {
    forall l | 0 <= l < 4 ::
      && acc.lo[l] == Cell(C, cfg.ldc, i, j + l) + Partial(cfg, A, B, i, j + l, k0, k1)
      && acc.hi[l] == Cell(C, cfg.ldc, i, j + 4 + l) + Partial(cfg, A, B, i, j + 4 + l, k0, k1)
  }

  /** Storing both halves of such a row accumulates over its 1 x 8 tile. */
  method StoreRowSums(cfg: GemmConfig, A: seq<int>, B: seq<int>, C: seq<int>, acc: RowAcc, i: nat, j: nat, k0: nat, k1: nat)
    returns (C': seq<int>)
    requires Fits(|C|, cfg.M, cfg.N, cfg.ldc)
    requires i < cfg.M && j + 8 <= cfg.N
    requires RowSums(cfg, A, B, C, acc, i, j, k0, k1)
    ensures AddsTile(cfg, A, B, C, C', Tile(i, i + 1, j, j + 8), k0, k1)
  {
    var lo := StoreSums(cfg, A, B, C, i, j, acc.lo, k0, k1);
    forall l | 0 <= l < 4
      ensures acc.hi[l] == Cell(lo, cfg.ldc, i, j + 4 + l) + Partial(cfg, A, B, i, j + 4 + l, k0, k1)
    {
      assert Cell(lo, cfg.ldc, i, j + 4 + l) == Cell(C, cfg.ldc, i, j + 4 + l);
    }
    C' := StoreSums(cfg, A, B, lo, i, j + 4, acc.hi, k0, k1);
    AddsTileBeside(cfg, A, B, C, lo, C', i, i + 1, j, j + 4, j + 8, k0, k1);
  }

  /** After the k loop, a row started from C holds C plus the slice's sums. */
  lemma LaneSums(cfg: GemmConfig, A: seq<int>, B: seq<int>, C: seq<int>, pa: seq<int>, pb: seq<int>,
                 b: Block, start: RowAcc, acc: RowAcc, i: nat, j: nat)
    requires PanelsHold(cfg, A, B, pa, pb, b)
    requires i < b.Mb && j + 8 <= b.Nb
    requires RowLoaded(C, cfg.ldc, start, b.ii + i, b.jj + j)
    requires forall l | 0 <= l < 4 ::
               && acc.lo[l] == start.lo[l] + Product(PanelConfig(b), pa, pb, i, j + l)
               && acc.hi[l] == start.hi[l] + Product(PanelConfig(b), pa, pb, i, j + 4 + l)
    ensures RowSums(cfg, A, B, C, acc, b.ii + i, b.jj + j, b.kk, b.kk + b.Kb)
  {
    forall l | 0 <= l < 4
      ensures acc.lo[l] == Cell(C, cfg.ldc, b.ii + i, b.jj + j + l)
                           + Partial(cfg, A, B, b.ii + i, b.jj + j + l, b.kk, b.kk + b.Kb)
      ensures acc.hi[l] == Cell(C, cfg.ldc, b.ii + i, b.jj + j + 4 + l)
                           + Partial(cfg, A, B, b.ii + i, b.jj + j + 4 + l, b.kk, b.kk + b.Kb)
    {
      DotPanel(cfg, A, B, pa, pb, b, i, j + l, b.Kb);
      DotPanel(cfg, A, B, pa, pb, b, i, j + 4 + l, b.Kb);
    }
  }

  /** A row outside the tile an accumulation covered still holds the same sums. */
  lemma RowSumsStable(cfg: GemmConfig, A: seq<int>, B: seq<int>, C0: seq<int>, C1: seq<int>, acc: RowAcc,
                      i: nat, j: nat, k0: nat, k1: nat, t: Tile)
    requires AddsTile(cfg, A, B, C0, C1, t, k0, k1)
    requires i < cfg.M && j + 8 <= cfg.N && !(t.r0 <= i < t.r1)
    requires RowSums(cfg, A, B, C0, acc, i, j, k0, k1)
    ensures RowSums(cfg, A, B, C1, acc, i, j, k0, k1)
  {
  }

  /** The first two loops of microkernel_8x8 on micro-tile (i, j) of the
      block: load the C tile, then run the k loop over the panels. Row r ends
      holding C's row plus the slice's sums. */
  method PanelLanes(cfg: GemmConfig, A: seq<int>, B: seq<int>, C: seq<int>,
                    pa: seq<int>, pb: seq<int>, b: Block, i: nat, j: nat)
    returns (c: seq<RowAcc>)
    requires Valid(cfg, A, B, C) && b.Inside(cfg)
    requires PanelsHold(cfg, A, B, pa, pb, b)
    requires i + 8 <= b.Mb && j + 8 <= b.Nb
    ensures |c| == 8
    ensures forall r: nat | r < 8 :: RowSums(cfg, A, B, C, c[r], b.ii + i + r, b.jj + j, b.kk, b.kk + b.Kb)
  {
    var init := LoadTile(cfg, C, b.ii + i, b.jj + j);
    PanelFits(|pa|, b.Mb, b.Kb);
    PanelFits(|pb|, b.Kb, b.Nb);
    c := Neon.Lanes8x8(PanelConfig(b), pa, pb, i, j, init);
    forall r: nat | r < 8
      ensures RowSums(cfg, A, B, C, c[r], b.ii + i + r, b.jj + j, b.kk, b.kk + b.Kb)
    {
      LaneSums(cfg, A, B, C, pa, pb, b, init[r], c[r], i + r, j);
    }
  }

  /** microkernel_8x8 of v5/v6 on micro-tile (i, j) of the block: load the C
      tile, run the k loop over the panels, store the rows back. The tile
      gains the slice's contribution. */
  method PackedMicrokernel8x8(cfg: GemmConfig, A: seq<int>, B: seq<int>, C: seq<int>,
                              pa: seq<int>, pb: seq<int>, b: Block, i: nat, j: nat)
    returns (C': seq<int>)
    requires Valid(cfg, A, B, C) && b.Inside(cfg)
    requires PanelsHold(cfg, A, B, pa, pb, b)
    requires i + 8 <= b.Mb && j + 8 <= b.Nb
    ensures AddsTile(cfg, A, B, C, C', Tile(b.ii + i, b.ii + i + 8, b.jj + j, b.jj + j + 8), b.kk, b.kk + b.Kb)
  {
    var row0, col0, k0, k1 := b.ii + i, b.jj + j, b.kk, b.kk + b.Kb;
    var c := PanelLanes(cfg, A, B, C, pa, pb, b, i, j);
    C' := C;
    var r := 0;
    while r < 8
      invariant r <= 8
      invariant AddsTile(cfg, A, B, C, C', Tile(row0, row0 + r, col0, col0 + 8), k0, k1)
    {
      RowSumsStable(cfg, A, B, C, C', c[r], row0 + r, col0, k0, k1, Tile(row0, row0 + r, col0, col0 + 8));
      var next := StoreRowSums(cfg, A, B, C', c[r], row0 + r, col0, k0, k1);
      AddsTileStack(cfg, A, B, C, C', next, row0, row0 + r, row0 + r + 1, col0, col0 + 8, k0, k1);
      C' := next;
      r := r + 1;
    }
  }

  /** The scalar cleanup's k loop for panel cell (r, c): the sum over the
      slice, read off the panels, is the slice's contribution to the cell
      (b.ii + r, b.jj + c). */
  method PanelDot(cfg: GemmConfig, A: seq<int>, B: seq<int>, pa: seq<int>, pb: seq<int>, b: Block, r: nat, c: nat)
    returns (sum: int)
    requires PanelsHold(cfg, A, B, pa, pb, b)
    requires r < b.Mb && c < b.Nb
    ensures sum == Partial(cfg, A, B, b.ii + r, b.jj + c, b.kk, b.kk + b.Kb)
  {
    PanelFits(|pa|, b.Mb, b.Kb);
    PanelFits(|pb|, b.Kb, b.Nb);
    sum := 0;
    var k := 0;
    while k < b.Kb
      invariant k <= b.Kb
      invariant sum == Dot(pa, b.Kb, pb, b.Nb, r, c, 0, k)
    {
      sum := sum + Get(pa, b.Mb, b.Kb, b.Kb, r, k) * Get(pb, b.Kb, b.Nb, b.Nb, k, c);
      k := k + 1;
    }
    DotPanel(cfg, A, B, pa, pb, b, r, c, b.Kb);
  }

  /** The scalar cleanup for a clipped micro-tile of mr x nr cells at (i, j)
      of the block: each cell gains the panel dot product over the slice. */
  method PackedEdge(cfg: GemmConfig, A: seq<int>, B: seq<int>, C: seq<int>,
                    pa: seq<int>, pb: seq<int>, b: Block, i: nat, j: nat, mr: nat, nr: nat)
    returns (C': seq<int>)
    requires Valid(cfg, A, B, C) && b.Inside(cfg)
    requires PanelsHold(cfg, A, B, pa, pb, b)
    requires i + mr <= b.Mb && j + nr <= b.Nb
    ensures AddsTile(cfg, A, B, C, C', Tile(b.ii + i, b.ii + i + mr, b.jj + j, b.jj + j + nr), b.kk, b.kk + b.Kb)
  {
    var row0, col0, k0, k1 := b.ii + i, b.jj + j, b.kk, b.kk + b.Kb;
    C' := C;
    var ii2 := 0;
    while ii2 < mr
      invariant ii2 <= mr
      invariant OutsideUnchanged(cfg, C, C')
      invariant forall i': nat, j': nat | i' < cfg.M && j' < cfg.N ::
                  Cell(C', cfg.ldc, i', j')
                    == if row0 <= i' < row0 + ii2 && col0 <= j' < col0 + nr
                       then Cell(C, cfg.ldc, i', j') + Partial(cfg, A, B, i', j', k0, k1)
                       else Cell(C, cfg.ldc, i', j')
    {
      var jj2 := 0;
      while jj2 < nr
        invariant jj2 <= nr
        invariant OutsideUnchanged(cfg, C, C')
        invariant forall i': nat, j': nat | i' < cfg.M && j' < cfg.N ::
                    Cell(C', cfg.ldc, i', j')
                      == if (row0 <= i' < row0 + ii2 || (i' == row0 + ii2 && j' < col0 + jj2)) && col0 <= j' < col0 + nr
                         then Cell(C, cfg.ldc, i', j') + Partial(cfg, A, B, i', j', k0, k1)
                         else Cell(C, cfg.ldc, i', j')
      {
        var sum := PanelDot(cfg, A, B, pa, pb, b, i + ii2, j + jj2);
        C' := Store(cfg, C', row0 + ii2, col0 + jj2, Get(C', cfg.M, cfg.N, cfg.ldc, row0 + ii2, col0 + jj2) + sum);
        jj2 := jj2 + 1;
      }
      ii2 := ii2 + 1;
    }
  }

  /** The micro-tile loops of one block: sweep it in PackedMR x PackedNR
      tiles; a tile is full exactly when both clipped extents are 8, and then
      goes to the microkernel, otherwise to the scalar cleanup. */
  method MicroSweep(cfg: GemmConfig, A: seq<int>, B: seq<int>, C: seq<int>, pa: seq<int>, pb: seq<int>, b: Block)
    returns (C': seq<int>)
    requires Valid(cfg, A, B, C) && b.Inside(cfg)
    requires PanelsHold(cfg, A, B, pa, pb, b)
    ensures AddsTile(cfg, A, B, C, C', b.Out(), b.kk, b.kk + b.Kb)
  {
    var t, k0, k1 := b.Out(), b.kk, b.kk + b.Kb;
    C' := C;
    var i := 0;
    while i < b.Mb
      invariant OutsideUnchanged(cfg, C, C')
      invariant forall i': nat, j': nat | i' < cfg.M && j' < cfg.N ::
                  Cell(C', cfg.ldc, i', j')
                    == if t.Contains(i', j') && i' < b.ii + i then Cell(C, cfg.ldc, i', j') + Partial(cfg, A, B, i', j', k0, k1)
                       else Cell(C, cfg.ldc, i', j')
      decreases b.Mb - i
    {
      var j := 0;
      while j < b.Nb
        invariant OutsideUnchanged(cfg, C, C')
        invariant forall i': nat, j': nat | i' < cfg.M && j' < cfg.N ::
                    Cell(C', cfg.ldc, i', j')
                      == if t.Contains(i', j') && (i' < b.ii + i || (i' < b.ii + i + Config.PackedMR && j' < b.jj + j))
                         then Cell(C, cfg.ldc, i', j') + Partial(cfg, A, B, i', j', k0, k1)
                         else Cell(C, cfg.ldc, i', j')
        decreases b.Nb - j
      {
        var mr := Min(Config.PackedMR, b.Mb - i);
        var nr := Min(Config.PackedNR, b.Nb - j);
        if mr == 8 && nr == 8 {
          C' := PackedMicrokernel8x8(cfg, A, B, C', pa, pb, b, i, j);
        } else {
          C' := PackedEdge(cfg, A, B, C', pa, pb, b, i, j, mr, nr);
        }
        j := j + Config.PackedNR;
      }
      i := i + Config.PackedMR;
    }
  }

  // ---------------------------------------------------------------------------
  // One output block, all k slices; the v5 driver
  // ---------------------------------------------------------------------------

  /** The output block at (ii, jj), clipped with `min` to the matrix extent. */
  function OutputBlock(cfg: GemmConfig, ii: nat, jj: nat): (t: Tile)
    requires ii <= cfg.M && jj <= cfg.N
    ensures t.r0 == ii && t.c0 == jj && t.r1 <= cfg.M && t.c1 <= cfg.N
    ensures t.r1 - t.r0 <= Config.DefaultBM && t.c1 - t.c0 <= Config.DefaultBN
  {
    Tile(ii, ii + Min(Config.DefaultBM, cfg.M - ii), jj, jj + Min(Config.DefaultBN, cfg.N - jj))
  }

  /** The kk loop for the output block at (ii, jj): pack both panels for the
      slice, run the micro-tile sweep, move to the next slice. Whatever the
      panels held before, the block gains the full-K products. */
  method BlockTile(cfg: GemmConfig, A: seq<int>, B: seq<int>, C: seq<int>, pa: seq<int>, pb: seq<int>, ii: nat, jj: nat)
    returns (C': seq<int>, pa': seq<int>, pb': seq<int>)
    requires Valid(cfg, A, B, C)
    requires ii < cfg.M && jj < cfg.N
    requires |pa| >= Config.DefaultBM * Config.DefaultBK && |pb| >= Config.DefaultBK * Config.DefaultBN
    ensures |pa'| == |pa| && |pb'| == |pb|
    ensures AddsTile(cfg, A, B, C, C', OutputBlock(cfg, ii, jj), 0, cfg.K)
  {
    var t := OutputBlock(cfg, ii, jj);
    var Mb, Nb := t.r1 - ii, t.c1 - jj;
    C', pa', pb' := C, pa, pb;
    PartialEmpty(cfg, A, B, 0);
    var kk := 0;
    while kk < cfg.K
      invariant |pa'| == |pa| && |pb'| == |pb|
      invariant AddsTile(cfg, A, B, C, C', t, 0, Min(kk, cfg.K))
      decreases cfg.K - kk
    {
      var Kb := Min(Config.DefaultBK, cfg.K - kk);
      var b := Block(ii, jj, kk, Mb, Nb, Kb);
      ProductBound(Mb, Kb, Config.DefaultBM, Config.DefaultBK);
      ProductBound(Kb, Nb, Config.DefaultBK, Config.DefaultBN);
      BlockCovers(|A|, cfg.M, cfg.K, cfg.lda, ii, kk, Mb, Kb);
      pa' := Packing.PackA(pa', A, Pos(ii, kk, cfg.lda), Mb, Kb, cfg.lda);
      BlockCovers(|B|, cfg.K, cfg.N, cfg.ldb, kk, jj, Kb, Nb);
      pb' := Packing.PackB(pb', B, Pos(kk, jj, cfg.ldb), Kb, Nb, cfg.ldb);
      PackedHoldsBlock(pa', A, cfg.lda, ii, kk, Mb, Kb);
      PackedHoldsBlock(pb', B, cfg.ldb, kk, jj, Kb, Nb);
      var C2 := MicroSweep(cfg, A, B, C', pa', pb', b);
      AddsTileChain(cfg, A, B, C, C', C2, t, 0, kk, kk + Kb);
      C' := C2;
      kk := kk + Config.DefaultBK;
    }
  }

  /** The panels of a fresh default workspace, as float buffers: the A panel
      holds packA_capacity() / 4 = BM * BK floats, the B panel
      packB_capacity() / 4 = BK * BN. */
  method WorkspacePanels() returns (pa: seq<int>, pb: seq<int>)
    ensures |pa| == Config.DefaultBM * Config.DefaultBK
    ensures |pb| == Config.DefaultBK * Config.DefaultBN
  {
    var layout := MemLayout.ComputeLayout(Config.DefaultBM, Config.DefaultBN, Config.DefaultBK, Config.PackedMR, Config.PackedNR);
    MemLayout.DefaultLayout();
    pa := seq(layout.value.a.bytes / Config.FloatBytes, _ => 0);
    pb := seq(layout.value.b.bytes / Config.FloatBytes, _ => 0);
  }

  /** gemm_v5_packed_neon: every BM x BN output block, in row-major block
      order, gains its full-K products; C's window becomes C + A * B. */
  method GemmV5PackedNeon(cfg: GemmConfig, A: seq<int>, B: seq<int>, C: seq<int>) returns (C': seq<int>)
    requires Valid(cfg, A, B, C)
    ensures Accumulates(cfg, A, B, C, C')
  {
    var pa, pb := WorkspacePanels();
    C' := C;
    var ii := 0;
    while ii < cfg.M
      invariant |pa| == Config.DefaultBM * Config.DefaultBK && |pb| == Config.DefaultBK * Config.DefaultBN
      invariant OutsideUnchanged(cfg, C, C')
      invariant forall i': nat, j': nat | i' < cfg.M && j' < cfg.N ::
                  Cell(C', cfg.ldc, i', j')
                    == if i' < ii then Cell(C, cfg.ldc, i', j') + Product(cfg, A, B, i', j') else Cell(C, cfg.ldc, i', j')
      decreases cfg.M - ii
    {
      var jj := 0;
      while jj < cfg.N
        invariant |pa| == Config.DefaultBM * Config.DefaultBK && |pb| == Config.DefaultBK * Config.DefaultBN
        invariant OutsideUnchanged(cfg, C, C')
        invariant forall i': nat, j': nat | i' < cfg.M && j' < cfg.N ::
                    Cell(C', cfg.ldc, i', j')
                      == if i' < ii || (i' < ii + Config.DefaultBM && j' < jj)
                         then Cell(C, cfg.ldc, i', j') + Product(cfg, A, B, i', j')
                         else Cell(C, cfg.ldc, i', j')
        decreases cfg.N - jj
      {
        C', pa, pb := BlockTile(cfg, A, B, C', pa, pb, ii, jj);
        jj := jj + Config.DefaultBN;
      }
      ii := ii + Config.DefaultBM;
    }
  }
}
