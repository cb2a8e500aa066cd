/** The vector kernels v4: the output is swept in MR x NR tiles; a full tile
    goes to a NEON microkernel (4 x 4, or 8 x 8 as two four-lane halves per
    row) that starts its lanes at zero and stores the full-K sums, a clipped
    edge tile goes to a scalar loop. Both overwrite C. */
module Neon {
  import opened Matrix
  import opened GemmSpec
  import opened Lanes

  /** Which v4 kernel: the 4 x 4 or the 8 x 8 microkernel. */
  datatype MicroShape = Neon4x4 | Neon8x8

  /** MR == NR of the kernel. */
  function Width(shape: MicroShape): nat {
    match shape
    case Neon4x4 => 4
    case Neon8x8 => 8
  }

  /** The branch of the tile sweep: the microkernel runs exactly when both
      remaining extents, clipped to the tile size `w`, equal `w`. */
  function FullTile(M: nat, N: nat, i: nat, j: nat, w: nat): (b: bool)
    requires i <= M && j <= N
    ensures b <==> i + w <= M && j + w <= N
  {
    Min(w, M - i) == w && Min(w, N - j) == w
  }

  /** One k step of a microkernel row: broadcasting A[i, k] and fusing it with
      B's (k, j .. j + 3) advances each lane's dot product by one term, on top
      of whatever the lane started from (`start`: zero in v4, C in v5/v6). */
  lemma FmaStep(cfg: GemmConfig, A: seq<int>, B: seq<int>, start: Vec4, c: Vec4, a: Vec4, b: Vec4,
                i: nat, j: nat, k: nat)
    requires forall l | 0 <= l < 4 :: c[l] == start[l] + Partial(cfg, A, B, i, j + l, 0, k)
    requires a == Dup(Cell(A, cfg.lda, i, k))
    requires forall l | 0 <= l < 4 :: b[l] == Cell(B, cfg.ldb, k, j + l)
    ensures forall l | 0 <= l < 4 :: Fma(c, a, b)[l] == start[l] + Partial(cfg, A, B, i, j + l, 0, k + 1)
  {
  }

  /** Storing a vector of finished dot products (lanes l = 0 .. 3 holding
      the product entries (i, j + l)) overwrites exactly those four cells. */
  method StoreProducts(cfg: GemmConfig, A: seq<int>, B: seq<int>, C: seq<int>, i: nat, j: nat, v: Vec4)
    returns (C': seq<int>)
    requires Fits(|C|, cfg.M, cfg.N, cfg.ldc)
    requires i < cfg.M && j + 4 <= cfg.N
    requires forall l | 0 <= l < 4 :: v[l] == Product(cfg, A, B, i, j + l)
    ensures SetsTile(cfg, A, B, C, C', Tile(i, i + 1, j, j + 4))
  {
    C' := StoreRow(cfg, C, i, j, v);
    assert forall j': nat | j <= j' < j + 4 :: v[j' - j] == Product(cfg, A, B, i, j') by {
      forall j': nat | j <= j' < j + 4
        ensures v[j' - j] == Product(cfg, A, B, i, j')
      {
        assert j + (j' - j) == j';
      }
    }
  }

  /** The k loop of microkernel_4x4 at output cell (i, j): four zeroed
      accumulators, one per row; each k broadcasts A[i + r, k] and fuses it
      with the row of B at (k, j .. j + 3). */
  method Lanes4x4(cfg: GemmConfig, A: seq<int>, B: seq<int>, i: nat, j: nat)
    returns (c0: Vec4, c1: Vec4, c2: Vec4, c3: Vec4)
    requires Fits(|A|, cfg.M, cfg.K, cfg.lda) && Fits(|B|, cfg.K, cfg.N, cfg.ldb)
    requires i + 4 <= cfg.M && j + 4 <= cfg.N
    ensures forall l | 0 <= l < 4 ::
              && c0[l] == Product(cfg, A, B, i, j + l)
              && c1[l] == Product(cfg, A, B, i + 1, j + l)
              && c2[l] == Product(cfg, A, B, i + 2, j + l)
              && c3[l] == Product(cfg, A, B, i + 3, j + l)
  {
    c0, c1, c2, c3 := Dup(0), Dup(0), Dup(0), Dup(0);
    var k := 0;
    while k < cfg.K
      invariant k <= cfg.K
      invariant forall l | 0 <= l < 4 ::
                  && c0[l] == Partial(cfg, A, B, i, j + l, 0, k)
                  && c1[l] == Partial(cfg, A, B, i + 1, j + l, 0, k)
                  && c2[l] == Partial(cfg, A, B, i + 2, j + l, 0, k)
                  && c3[l] == Partial(cfg, A, B, i + 3, j + l, 0, k)
    {
      var b := LoadRow(B, cfg.K, cfg.N, cfg.ldb, k, j);
      var a0 := Dup(Get(A, cfg.M, cfg.K, cfg.lda, i, k));
      var a1 := Dup(Get(A, cfg.M, cfg.K, cfg.lda, i + 1, k));
      var a2 := Dup(Get(A, cfg.M, cfg.K, cfg.lda, i + 2, k));
      var a3 := Dup(Get(A, cfg.M, cfg.K, cfg.lda, i + 3, k));
      FmaStep(cfg, A, B, Dup(0), c0, a0, b, i, j, k);
      FmaStep(cfg, A, B, Dup(0), c1, a1, b, i + 1, j, k);
      FmaStep(cfg, A, B, Dup(0), c2, a2, b, i + 2, j, k);
      FmaStep(cfg, A, B, Dup(0), c3, a3, b, i + 3, j, k);
      c0 := Fma(c0, a0, b);
      c1 := Fma(c1, a1, b);
      c2 := Fma(c2, a2, b);
      c3 := Fma(c3, a3, b);
      k := k + 1;
    }
  }

  /** microkernel_4x4 at output cell (i, j): the lanes of the k loop are
      stored over the 4 x 4 tile, whatever it held before. */
  method Microkernel4x4(cfg: GemmConfig, A: seq<int>, B: seq<int>, C: seq<int>, i: nat, j: nat)
    returns (C': seq<int>)
    requires Valid(cfg, A, B, C)
    requires i + 4 <= cfg.M && j + 4 <= cfg.N
    ensures SetsTile(cfg, A, B, C, C', Tile(i, i + 4, j, j + 4))
  {
    var c0, c1, c2, c3 := Lanes4x4(cfg, A, B, i, j);
    var C1 := StoreProducts(cfg, A, B, C, i, j, c0);
    var C2 := StoreProducts(cfg, A, B, C1, i + 1, j, c1);
    SetsTileStack(cfg, A, B, C, C1, C2, i, i + 1, i + 2, j, j + 4);
    var C3 := StoreProducts(cfg, A, B, C2, i + 2, j, c2);
    SetsTileStack(cfg, A, B, C, C2, C3, i, i + 2, i + 3, j, j + 4);
    C' := StoreProducts(cfg, A, B, C3, i + 3, j, c3);
    SetsTileStack(cfg, A, B, C, C3, C', i, i + 3, i + 4, j, j + 4);
  }

  /** One row of an 8-wide accumulator, for output row i and columns
      j .. j + 7, holds its start values plus the dot products over k in [0, k). */
  ghost predicate RowHolds(cfg: GemmConfig, A: seq<int>, B: seq<int>, start: RowAcc, acc: RowAcc,
                           i: nat, j: nat, k: nat)
  {
    forall l | 0 <= l < 4 ::
      && acc.lo[l] == start.lo[l] + Partial(cfg, A, B, i, j + l, 0, k)
      && acc.hi[l] == start.hi[l] + Partial(cfg, A, B, i, j + 4 + l, 0, k)
  }

  /** One k step of a whole accumulator row: both halves advance by one term. */
  lemma RowStep(cfg: GemmConfig, A: seq<int>, B: seq<int>, start: RowAcc, acc: RowAcc, a: Vec4, b0: Vec4, b1: Vec4,
                i: nat, j: nat, k: nat)
    requires RowHolds(cfg, A, B, start, acc, i, j, k)
    requires a == Dup(Cell(A, cfg.lda, i, k))
    requires forall l | 0 <= l < 4 :: b0[l] == Cell(B, cfg.ldb, k, j + l) && b1[l] == Cell(B, cfg.ldb, k, j + 4 + l)
    ensures RowHolds(cfg, A, B, start, RowAcc(Fma(acc.lo, a, b0), Fma(acc.hi, a, b1)), i, j, k + 1)
  {
    FmaStep(cfg, A, B, start.lo, acc.lo, a, b0, i, j, k);
    FmaStep(cfg, A, B, start.hi, acc.hi, a, b1, i, j + 4, k);
  }

  /** The k loop of microkernel_8x8 at output cell (i, j): row r keeps two
      four-lane accumulators starting from `init[r]`, the low one fused
      against B's (k, j .. j + 3) and the high one against (k, j + 4 .. j + 7).
      v4 starts them at zero; v5 and v6 load them from C. */
  method Lanes8x8(cfg: GemmConfig, A: seq<int>, B: seq<int>, i: nat, j: nat, init: seq<RowAcc>) returns (c: seq<RowAcc>)
    requires Fits(|A|, cfg.M, cfg.K, cfg.lda) && Fits(|B|, cfg.K, cfg.N, cfg.ldb)
    requires i + 8 <= cfg.M && j + 8 <= cfg.N
    requires |init| == 8
    ensures |c| == 8
    ensures forall r, l | 0 <= r < 8 && 0 <= l < 4 ::
              && c[r].lo[l] == init[r].lo[l] + Product(cfg, A, B, i + r, j + l)
              && c[r].hi[l] == init[r].hi[l] + Product(cfg, A, B, i + r, j + 4 + l)
  {
    c := init;
    PartialEmpty(cfg, A, B, 0);
    var k := 0;
    while k < cfg.K
      invariant k <= cfg.K && |c| == 8
      invariant forall r: nat | r < 8 :: RowHolds(cfg, A, B, init[r], c[r], i + r, j, k)
    {
      var b0 := LoadRow(B, cfg.K, cfg.N, cfg.ldb, k, j);
      var b1 := LoadRow(B, cfg.K, cfg.N, cfg.ldb, k, j + 4);
      var k' := k + 1;
      var r := 0;
      while r < 8
        invariant r <= 8 && |c| == 8
        invariant forall r': nat | r' < r :: RowHolds(cfg, A, B, init[r'], c[r'], i + r', j, k')
        invariant forall r': nat | r <= r' < 8 :: RowHolds(cfg, A, B, init[r'], c[r'], i + r', j, k)
      {
        var a := Dup(Get(A, cfg.M, cfg.K, cfg.lda, i + r, k));
        RowStep(cfg, A, B, init[r], c[r], a, b0, b1, i + r, j, k);
        c := c[r := RowAcc(Fma(c[r].lo, a, b0), Fma(c[r].hi, a, b1))];
        r := r + 1;
      }
      k := k';
    }
    forall r, l | 0 <= r < 8 && 0 <= l < 4
      ensures c[r].lo[l] == init[r].lo[l] + Product(cfg, A, B, i + r, j + l)
      ensures c[r].hi[l] == init[r].hi[l] + Product(cfg, A, B, i + r, j + 4 + l)
    {
      assert RowHolds(cfg, A, B, init[r], c[r], i + r, j, cfg.K);
    }
  }

  /** microkernel_8x8 at output cell (i, j): both halves of every row of the
      k loop's accumulator are stored over the 8 x 8 tile. */
  method Microkernel8x8(cfg: GemmConfig, A: seq<int>, B: seq<int>, C: seq<int>, i: nat, j: nat)
    returns (C': seq<int>)
    requires Valid(cfg, A, B, C)
    requires i + 8 <= cfg.M && j + 8 <= cfg.N
    ensures SetsTile(cfg, A, B, C, C', Tile(i, i + 8, j, j + 8))
  {
    var c := Lanes8x8(cfg, A, B, i, j, ZeroRows());
    C' := C;
    var r := 0;
    while r < 8
      invariant r <= 8
      invariant SetsTile(cfg, A, B, C, C', Tile(i, i + r, j, j + 8))
    {
      var lo := StoreProducts(cfg, A, B, C', i + r, j, c[r].lo);
      var hi := StoreProducts(cfg, A, B, lo, i + r, j + 4, c[r].hi);
      SetsTileBeside(cfg, A, B, C', lo, hi, i + r, i + r + 1, j, j + 4, j + 8);
      SetsTileStack(cfg, A, B, C, C', hi, i, i + r, i + r + 1, j, j + 8);
      C' := hi;
      r := r + 1;
    }
  }

  /** The scalar fallback for an edge tile of im x jm cells at (i, j): each
      cell is assigned its full-K dot product. */
  method ScalarEdge(cfg: GemmConfig, A: seq<int>, B: seq<int>, C: seq<int>, i: nat, j: nat, im: nat, jm: nat)
    returns (C': seq<int>)
    requires Valid(cfg, A, B, C)
    requires i + im <= cfg.M && j + jm <= cfg.N
    ensures SetsTile(cfg, A, B, C, C', Tile(i, i + im, j, j + jm))
  {
    C' := C;
    var ii := 0;
    while ii < im
      invariant ii <= im
      invariant OutsideUnchanged(cfg, C, C')
      invariant forall i': nat, j': nat | i' < cfg.M && j' < cfg.N ::
                  Cell(C', cfg.ldc, i', j')
                    == if i <= i' < i + ii && j <= j' < j + jm then Product(cfg, A, B, i', j')
                       else Cell(C, cfg.ldc, i', j')
    {
      var jj := 0;
      while jj < jm
        invariant jj <= jm
        invariant OutsideUnchanged(cfg, C, C')
        invariant forall i': nat, j': nat | i' < cfg.M && j' < cfg.N ::
                    Cell(C', cfg.ldc, i', j')
                      == if (i <= i' < i + ii || (i' == i + ii && j' < j + jj)) && j <= j' < j + jm
                         then Product(cfg, A, B, i', j')
                         else Cell(C, cfg.ldc, i', j')
      {
        var sum := 0;
        var k := 0;
        while k < cfg.K
          invariant k <= cfg.K
          invariant sum == Partial(cfg, A, B, i + ii, j + jj, 0, k)
        {
          sum := sum + Get(A, cfg.M, cfg.K, cfg.lda, i + ii, k) * Get(B, cfg.K, cfg.N, cfg.ldb, k, j + jj);
          k := k + 1;
        }
        C' := Store(cfg, C', i + ii, j + jj, sum);
        jj := jj + 1;
      }
      ii := ii + 1;
    }
  }

  /** The v4 driver: sweep C in Width x Width tiles, row-major; full tiles go
      to the microkernel, clipped ones to the scalar fallback. */
  method NeonGemm(cfg: GemmConfig, A: seq<int>, B: seq<int>, C: seq<int>, shape: MicroShape)
    returns (C': seq<int>)
    requires Valid(cfg, A, B, C)
    ensures Overwrites(cfg, A, B, C, C')
  {
    var w := Width(shape);
    C' := C;
    var i := 0;
    while i < cfg.M
      invariant OutsideUnchanged(cfg, C, C')
      invariant forall i': nat, j': nat | i' < cfg.M && j' < cfg.N ::
                  Cell(C', cfg.ldc, i', j')
                    == if i' < i then Product(cfg, A, B, i', j') else Cell(C, cfg.ldc, i', j')
      decreases cfg.M - i
    {
      var j := 0;
      while j < cfg.N
        invariant OutsideUnchanged(cfg, C, C')
        invariant forall i': nat, j': nat | i' < cfg.M && j' < cfg.N ::
                    Cell(C', cfg.ldc, i', j')
                      == if i' < i || (i' < i + w && j' < j) then Product(cfg, A, B, i', j')
                         else Cell(C, cfg.ldc, i', j')
        decreases cfg.N - j
      {
        var im := Min(w, cfg.M - i);
        var jm := Min(w, cfg.N - j);
        if FullTile(cfg.M, cfg.N, i, j, w) {
          match shape {
            case Neon4x4 => C' := Microkernel4x4(cfg, A, B, C', i, j);
            case Neon8x8 => C' := Microkernel8x8(cfg, A, B, C', i, j);
          }
        } else {
          C' := ScalarEdge(cfg, A, B, C', i, j, im, jm);
        }
        j := j + w;
      }
      i := i + w;
    }
  }

  /** gemm_v4_neon_4x4. */
  method GemmV4Neon4x4(cfg: GemmConfig, A: seq<int>, B: seq<int>, C: seq<int>) returns (C': seq<int>)
    requires Valid(cfg, A, B, C)
    ensures Overwrites(cfg, A, B, C, C')
  {
    C' := NeonGemm(cfg, A, B, C, Neon4x4);
  }

  /** gemm_v4_neon_8x8. */
  method GemmV4Neon8x8(cfg: GemmConfig, A: seq<int>, B: seq<int>, C: seq<int>) returns (C': seq<int>)
    requires Valid(cfg, A, B, C)
    ensures Overwrites(cfg, A, B, C, C')
  {
    C' := NeonGemm(cfg, A, B, C, Neon8x8);
  }
}
