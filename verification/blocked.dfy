/** The cache-blocked kernels: v2 (64 x 64 x 64 blocks, i-k-j accumulation
    inside a block) and v3 (the same blocks, each cut into 4 x 4 register tiles
    with a local accumulator flushed once per tile). Both zero C first and clip
    the last block of every dimension to the matrix extent. */
module Blocked {
  import opened Matrix
  import opened GemmSpec
  import Naive

  /** Cache block sizes of v2 and v3. */
  const BM: nat := 64
  const BN: nat := 64
  const BK: nat := 64

  /** Register tile of v3. */
  const MR: nat := 4
  const NR: nat := 4

  /** What runs inside one (ii, kk, jj) cache block. */
  datatype BlockBody = LoopIKJ | RegisterTiles

  /** The body of a v2 block: for i in the block's rows and k in [kk, kMax),
      add A[i, k] * B[k, j] to C[i, j] across the block's columns. */
  method AccumulateBlock(cfg: GemmConfig, A: seq<int>, B: seq<int>, C: seq<int>, t: Tile, kk: nat, kMax: nat)
    returns (C': seq<int>)
    requires Valid(cfg, A, B, C)
    requires t.r0 <= t.r1 <= cfg.M && t.c0 <= t.c1 <= cfg.N && kk <= kMax <= cfg.K
    ensures AddsTile(cfg, A, B, C, C', t, kk, kMax)
  {
    C' := C;
    var i := t.r0;
    while i < t.r1
      invariant t.r0 <= i <= t.r1
      invariant OutsideUnchanged(cfg, C, C')
      invariant forall i': nat, j': nat | i' < cfg.M && j' < cfg.N ::
                  Cell(C', cfg.ldc, i', j')
                    == if t.Contains(i', j') && i' < i then Cell(C, cfg.ldc, i', j') + Partial(cfg, A, B, i', j', kk, kMax)
                       else Cell(C, cfg.ldc, i', j')
    {
      var k := kk;
      while k < kMax
        invariant kk <= k <= kMax
        invariant OutsideUnchanged(cfg, C, C')
        invariant forall i': nat, j': nat | i' < cfg.M && j' < cfg.N ::
                    Cell(C', cfg.ldc, i', j')
                      == if t.Contains(i', j') && i' < i then Cell(C, cfg.ldc, i', j') + Partial(cfg, A, B, i', j', kk, kMax)
                         else if t.Contains(i', j') && i' == i then Cell(C, cfg.ldc, i', j') + Partial(cfg, A, B, i', j', kk, k)
                         else Cell(C, cfg.ldc, i', j')
      {
        var a := Get(A, cfg.M, cfg.K, cfg.lda, i, k);
        var j := t.c0;
        while j < t.c1
          invariant t.c0 <= j <= t.c1
          invariant OutsideUnchanged(cfg, C, C')
          invariant forall i': nat, j': nat | i' < cfg.M && j' < cfg.N ::
                      Cell(C', cfg.ldc, i', j')
                        == if t.Contains(i', j') && i' < i then Cell(C, cfg.ldc, i', j') + Partial(cfg, A, B, i', j', kk, kMax)
                           else if t.Contains(i', j') && i' == i && j' < j then Cell(C, cfg.ldc, i', j') + Partial(cfg, A, B, i', j', kk, k + 1)
                           else if t.Contains(i', j') && i' == i then Cell(C, cfg.ldc, i', j') + Partial(cfg, A, B, i', j', kk, k)
                           else Cell(C, cfg.ldc, i', j')
        {
          C' := Store(cfg, C', i, j, Get(C', cfg.M, cfg.N, cfg.ldc, i, j) + a * Get(B, cfg.K, cfg.N, cfg.ldb, k, j));
          j := j + 1;
        }
        k := k + 1;
      }
      i := i + 1;
    }
  }

  /** One v3 register tile at (i, j) of extent im x jm (clipped, so at most
      MR x NR): a local accumulator starts at zero, gathers the [kk, kMax)
      partial products, and is then added into C once. */
  method ScalarMicroTile(cfg: GemmConfig, A: seq<int>, B: seq<int>, C: seq<int>,
                         i: nat, j: nat, im: nat, jm: nat, kk: nat, kMax: nat)
    returns (C': seq<int>)
    requires Valid(cfg, A, B, C)
    requires im <= MR && jm <= NR
    requires i + im <= cfg.M && j + jm <= cfg.N && kk <= kMax <= cfg.K
    ensures AddsTile(cfg, A, B, C, C', Tile(i, i + im, j, j + jm), kk, kMax)
  {
    var acc: seq<seq<int>> := seq(MR, _ => seq(NR, _ => 0));
    var k := kk;
    while k < kMax
      invariant kk <= k <= kMax
      invariant |acc| == MR && forall r | 0 <= r < MR :: |acc[r]| == NR
      invariant forall r, c | 0 <= r < MR && 0 <= c < NR ::
                  acc[r][c] == if r < im && c < jm then Partial(cfg, A, B, i + r, j + c, kk, k) else 0
    {
      var ii2 := 0;
      while ii2 < im
        invariant ii2 <= im
        invariant |acc| == MR && forall r | 0 <= r < MR :: |acc[r]| == NR
        invariant forall r, c | 0 <= r < MR && 0 <= c < NR ::
                    acc[r][c] == if r < ii2 && c < jm then Partial(cfg, A, B, i + r, j + c, kk, k + 1)
                                 else if r < im && c < jm then Partial(cfg, A, B, i + r, j + c, kk, k)
                                 else 0
      {
        var a := Get(A, cfg.M, cfg.K, cfg.lda, i + ii2, k);
        var jj2 := 0;
        while jj2 < jm
          invariant jj2 <= jm
          invariant |acc| == MR && forall r | 0 <= r < MR :: |acc[r]| == NR
          invariant forall r, c | 0 <= r < MR && 0 <= c < NR ::
                      acc[r][c] == if (r < ii2 || (r == ii2 && c < jj2)) && c < jm then Partial(cfg, A, B, i + r, j + c, kk, k + 1)
                                   else if r < im && c < jm then Partial(cfg, A, B, i + r, j + c, kk, k)
                                   else 0
        {
          acc := acc[ii2 := acc[ii2][jj2 := acc[ii2][jj2] + a * Get(B, cfg.K, cfg.N, cfg.ldb, k, j + jj2)]];
          jj2 := jj2 + 1;
        }
        ii2 := ii2 + 1;
      }
      k := k + 1;
    }

    // flush the accumulator into C
    C' := C;
    var ii2 := 0;
    while ii2 < im
      invariant ii2 <= im
      invariant OutsideUnchanged(cfg, C, C')
      invariant forall i': nat, j': nat | i' < cfg.M && j' < cfg.N ::
                  Cell(C', cfg.ldc, i', j')
                    == if i <= i' < i + ii2 && j <= j' < j + jm then Cell(C, cfg.ldc, i', j') + Partial(cfg, A, B, i', j', kk, kMax)
                       else Cell(C, cfg.ldc, i', j')
    {
      var jj2 := 0;
      while jj2 < jm
        invariant jj2 <= jm
        invariant OutsideUnchanged(cfg, C, C')
        invariant forall i': nat, j': nat | i' < cfg.M && j' < cfg.N ::
                    Cell(C', cfg.ldc, i', j')
                      == if (i <= i' < i + ii2 || (i' == i + ii2 && j' < j + jj2)) && j <= j' < j + jm
                         then Cell(C, cfg.ldc, i', j') + Partial(cfg, A, B, i', j', kk, kMax)
                         else Cell(C, cfg.ldc, i', j')
      {
        assert acc[ii2][jj2] == Partial(cfg, A, B, i + ii2, j + jj2, kk, kMax);
        C' := Store(cfg, C', i + ii2, j + jj2, Get(C', cfg.M, cfg.N, cfg.ldc, i + ii2, j + jj2) + acc[ii2][jj2]);
        jj2 := jj2 + 1;
      }
      ii2 := ii2 + 1;
    }
  }

  /** The body of a v3 block: sweep the block in MR x NR register tiles, the
      last row and column of tiles clipped to the block. */
  method TiledBlock(cfg: GemmConfig, A: seq<int>, B: seq<int>, C: seq<int>, t: Tile, kk: nat, kMax: nat)
    returns (C': seq<int>)
    requires Valid(cfg, A, B, C)
    requires t.r0 <= t.r1 <= cfg.M && t.c0 <= t.c1 <= cfg.N && kk <= kMax <= cfg.K
    ensures AddsTile(cfg, A, B, C, C', t, kk, kMax)
  {
    C' := C;
    var i := t.r0;
    while i < t.r1
      invariant t.r0 <= i
      invariant OutsideUnchanged(cfg, C, C')
      invariant forall i': nat, j': nat | i' < cfg.M && j' < cfg.N ::
                  Cell(C', cfg.ldc, i', j')
                    == if t.Contains(i', j') && i' < i then Cell(C, cfg.ldc, i', j') + Partial(cfg, A, B, i', j', kk, kMax)
                       else Cell(C, cfg.ldc, i', j')
      decreases t.r1 - i
    {
      var j := t.c0;
      while j < t.c1
        invariant t.c0 <= j
        invariant OutsideUnchanged(cfg, C, C')
        invariant forall i': nat, j': nat | i' < cfg.M && j' < cfg.N ::
                    Cell(C', cfg.ldc, i', j')
                      == if t.Contains(i', j') && (i' < i || (i' < i + MR && j' < j))
                         then Cell(C, cfg.ldc, i', j') + Partial(cfg, A, B, i', j', kk, kMax)
                         else Cell(C, cfg.ldc, i', j')
        decreases t.c1 - j
      {
        var im := Min(MR, t.r1 - i);
        var jm := Min(NR, t.c1 - j);
        C' := ScalarMicroTile(cfg, A, B, C', i, j, im, jm, kk, kMax);
        j := j + NR;
      }
      i := i + MR;
    }
  }

  /** The driver shared by v2 and v3: zero the window, then run the block body
      over every (ii, kk, jj) block in that loop order, each block clipped with
      `min` to the matrix extent. */
  method BlockedGemm(cfg: GemmConfig, A: seq<int>, B: seq<int>, C: seq<int>, body: BlockBody)
    returns (C': seq<int>)
    requires Valid(cfg, A, B, C)
    ensures Overwrites(cfg, A, B, C, C')
  {
    C' := Naive.ZeroFill(cfg, C);
    var ii := 0;
    while ii < cfg.M
      invariant OutsideUnchanged(cfg, C, C')
      invariant forall i': nat, j': nat | i' < cfg.M && j' < cfg.N ::
                  Cell(C', cfg.ldc, i', j') == if i' < ii then Product(cfg, A, B, i', j') else 0
      decreases cfg.M - ii
    {
      var kk := 0;
      while kk < cfg.K
        invariant OutsideUnchanged(cfg, C, C')
        invariant forall i': nat, j': nat | i' < cfg.M && j' < cfg.N ::
                    Cell(C', cfg.ldc, i', j')
                      == if i' < ii then Product(cfg, A, B, i', j')
                         else if i' < ii + BM then Partial(cfg, A, B, i', j', 0, Min(kk, cfg.K))
                         else 0
        decreases cfg.K - kk
      {
        var jj := 0;
        while jj < cfg.N
          invariant OutsideUnchanged(cfg, C, C')
          invariant forall i': nat, j': nat | i' < cfg.M && j' < cfg.N ::
                      Cell(C', cfg.ldc, i', j')
                        == if i' < ii then Product(cfg, A, B, i', j')
                           else if i' < ii + BM && j' < jj then Partial(cfg, A, B, i', j', 0, Min(kk + BK, cfg.K))
                           else if i' < ii + BM then Partial(cfg, A, B, i', j', 0, kk)
                           else 0
          decreases cfg.N - jj
        {
          var iMax := Min(ii + BM, cfg.M);
          var kMax := Min(kk + BK, cfg.K);
          var jMax := Min(jj + BN, cfg.N);
          match body {
            case LoopIKJ => C' := AccumulateBlock(cfg, A, B, C', Tile(ii, iMax, jj, jMax), kk, kMax);
            case RegisterTiles => C' := TiledBlock(cfg, A, B, C', Tile(ii, iMax, jj, jMax), kk, kMax);
          }
          PartialSplit(cfg, A, B, 0, kk, kMax);
          jj := jj + BN;
        }
        kk := kk + BK;
      }
      ii := ii + BM;
    }
  }

  /** gemm_v2_blocked. */
  method GemmV2Blocked(cfg: GemmConfig, A: seq<int>, B: seq<int>, C: seq<int>) returns (C': seq<int>)
    requires Valid(cfg, A, B, C)
    ensures Overwrites(cfg, A, B, C, C')
  {
    C' := BlockedGemm(cfg, A, B, C, LoopIKJ);
  }

  /** gemm_v3_scalar_tile. */
  method GemmV3ScalarTile(cfg: GemmConfig, A: seq<int>, B: seq<int>, C: seq<int>) returns (C': seq<int>)
    requires Valid(cfg, A, B, C)
    ensures Overwrites(cfg, A, B, C, C')
  {
    C' := BlockedGemm(cfg, A, B, C, RegisterTiles);
  }
}
