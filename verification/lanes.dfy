/** Four-lane single-precision vectors as the NEON microkernels use them,
    reduced to what the kernels rely on: a vector is four values, `vdupq_n_f32`
    broadcasts, `vfmaq_f32` is a lane-wise exact `c + a * b`, `vld1q_f32` and
    `vst1q_f32` move four consecutive elements of a matrix row. */
module Lanes {
  import opened Matrix

  type Vec4 = v: seq<int> | |v| == 4 witness [0, 0, 0, 0]

  /** The two four-lane halves of one row of an 8-wide accumulator
      (`c[i][0]` and `c[i][1]` in the 8 x 8 microkernels). */
  datatype RowAcc = RowAcc(lo: Vec4, hi: Vec4)

  /** Eight rows of accumulators with every lane zero. */
  function ZeroRows(): (z: seq<RowAcc>)
    ensures |z| == 8
    ensures forall r, l | 0 <= r < 8 && 0 <= l < 4 :: z[r].lo[l] == 0 && z[r].hi[l] == 0
  {
    seq(8, _ => RowAcc(Dup(0), Dup(0)))
  }

  /** vdupq_n_f32: every lane holds `x`. */
  function Dup(x: int): (v: Vec4)
    ensures forall l | 0 <= l < 4 :: v[l] == x
  {
    [x, x, x, x]
  }

  /** vfmaq_f32(c, a, b): lane-wise fused multiply-add, read as exact `c + a * b`. */
  function Fma(c: Vec4, a: Vec4, b: Vec4): (v: Vec4)
    ensures forall l | 0 <= l < 4 :: v[l] == c[l] + a[l] * b[l]
  {
    [c[0] + a[0] * b[0], c[1] + a[1] * b[1], c[2] + a[2] * b[2], c[3] + a[3] * b[3]]
  }

  /** vld1q_f32 at element (i, j) of a matrix: lanes hold (i, j .. j + 3). */
  function LoadRow(s: seq<int>, rows: nat, cols: nat, ld: nat, i: nat, j: nat): (v: Vec4)
    requires Fits(|s|, rows, cols, ld)
    requires i < rows && j + 4 <= cols
    ensures forall l | 0 <= l < 4 :: v[l] == Cell(s, ld, i, j + l)
  {
    [Get(s, rows, cols, ld, i, j), Get(s, rows, cols, ld, i, j + 1),
     Get(s, rows, cols, ld, i, j + 2), Get(s, rows, cols, ld, i, j + 3)]
  }

  /** vst1q_f32 at output cell (i, j): cells (i, j .. j + 3) take the lanes,
      nothing else in C changes. */
  method StoreRow(cfg: GemmConfig, C: seq<int>, i: nat, j: nat, v: Vec4) returns (C': seq<int>)
    requires Fits(|C|, cfg.M, cfg.N, cfg.ldc)
    requires i < cfg.M && j + 4 <= cfg.N
    ensures OutsideUnchanged(cfg, C, C')
    ensures forall i': nat, j': nat | j' < cfg.N ::
              Cell(C', cfg.ldc, i', j') == if i' == i && j <= j' < j + 4 then v[j' - j] else Cell(C, cfg.ldc, i', j')
  {
    var C1 := Store(cfg, C, i, j, v[0]);
    var C2 := Store(cfg, C1, i, j + 1, v[1]);
    var C3 := Store(cfg, C2, i, j + 2, v[2]);
    C' := Store(cfg, C3, i, j + 3, v[3]);
  }
}
