/** The scalar kernels: v0, the naive i-j-k triple loop, and v1, which zeroes
    the output and then accumulates in i-k-j order. The zeroing pass is shared
    with the blocked kernels v2 and v3. */
module Naive {
  import opened Matrix
  import opened GemmSpec

  /** gemm_v0_naive: for each (i, j), sum A[i, k] * B[k, j] over k and store
      the sum into C[i, j]. */
  method GemmV0Naive(cfg: GemmConfig, A: seq<int>, B: seq<int>, C: seq<int>) returns (C': seq<int>)
    requires Valid(cfg, A, B, C)
    ensures Overwrites(cfg, A, B, C, C')
  {
    C' := C;
    var i := 0;
    while i < cfg.M
      invariant i <= cfg.M
      invariant OutsideUnchanged(cfg, C, C')
      invariant forall i': nat, j': nat | i' < cfg.M && j' < cfg.N ::
                  Cell(C', cfg.ldc, i', j')
                    == if i' < i then Product(cfg, A, B, i', j') else Cell(C, cfg.ldc, i', j')
    {
      var j := 0;
      while j < cfg.N
        invariant j <= cfg.N
        invariant OutsideUnchanged(cfg, C, C')
        invariant forall i': nat, j': nat | i' < cfg.M && j' < cfg.N ::
                    Cell(C', cfg.ldc, i', j')
                      == if i' < i || (i' == i && j' < j) then Product(cfg, A, B, i', j')
                         else Cell(C, cfg.ldc, i', j')
      {
        var sum := 0;
        var k := 0;
        while k < cfg.K
          invariant k <= cfg.K
          invariant sum == Partial(cfg, A, B, i, j, 0, k)
        {
          sum := sum + Get(A, cfg.M, cfg.K, cfg.lda, i, k) * Get(B, cfg.K, cfg.N, cfg.ldb, k, j);
          k := k + 1;
        }
        C' := Store(cfg, C', i, j, sum);
        j := j + 1;
      }
      i := i + 1;
    }
  }

  /** The first loop nest of v1, v2 and v3: every window cell of C becomes 0. */
  method ZeroFill(cfg: GemmConfig, C: seq<int>) returns (C': seq<int>)
    requires Fits(|C|, cfg.M, cfg.N, cfg.ldc)
    ensures OutsideUnchanged(cfg, C, C')
    ensures WindowIsZero(cfg, C')
  {
    C' := C;
    var i := 0;
    while i < cfg.M
      invariant i <= cfg.M
      invariant OutsideUnchanged(cfg, C, C')
      invariant forall i': nat, j': nat | i' < i && j' < cfg.N :: Cell(C', cfg.ldc, i', j') == 0
    {
      var j := 0;
      while j < cfg.N
        invariant j <= cfg.N
        invariant OutsideUnchanged(cfg, C, C')
        invariant forall i': nat, j': nat | (i' < i || (i' == i && j' < j)) && j' < cfg.N ::
                    Cell(C', cfg.ldc, i', j') == 0
      {
        C' := Store(cfg, C', i, j, 0);
        j := j + 1;
      }
      i := i + 1;
    }
  }

  /** gemm_v1_loop_reorder: zero the window, then for each row i and each k,
      add A[i, k] * B[k, j] to every C[i, j] of the row. */
  method GemmV1LoopReorder(cfg: GemmConfig, A: seq<int>, B: seq<int>, C: seq<int>) returns (C': seq<int>)
    requires Valid(cfg, A, B, C)
    ensures Overwrites(cfg, A, B, C, C')
  {
    C' := ZeroFill(cfg, C);
    var i := 0;
    while i < cfg.M
      invariant i <= cfg.M
      invariant OutsideUnchanged(cfg, C, C')
      invariant forall i': nat, j': nat | i' < cfg.M && j' < cfg.N ::
                  Cell(C', cfg.ldc, i', j') == if i' < i then Product(cfg, A, B, i', j') else 0
    {
      var k := 0;
      while k < cfg.K
        invariant k <= cfg.K
        invariant OutsideUnchanged(cfg, C, C')
        invariant forall i': nat, j': nat | i' < cfg.M && j' < cfg.N ::
                    Cell(C', cfg.ldc, i', j')
                      == if i' < i then Product(cfg, A, B, i', j')
                         else if i' == i then Partial(cfg, A, B, i', j', 0, k)
                         else 0
      {
        var a := Get(A, cfg.M, cfg.K, cfg.lda, i, k);
        var j := 0;
        while j < cfg.N
          invariant j <= cfg.N
          invariant OutsideUnchanged(cfg, C, C')
          invariant forall i': nat, j': nat | i' < cfg.M && j' < cfg.N ::
                      Cell(C', cfg.ldc, i', j')
                        == if i' < i then Product(cfg, A, B, i', j')
                           else if i' == i && j' < j then Partial(cfg, A, B, i', j', 0, k + 1)
                           else if i' == i then Partial(cfg, A, B, i', j', 0, k)
                           else 0
        {
          C' := Store(cfg, C', i, j, Get(C', cfg.M, cfg.N, cfg.ldc, i, j) + a * Get(B, cfg.K, cfg.N, cfg.ldb, k, j));
          j := j + 1;
        }
        k := k + 1;
      }
      i := i + 1;
    }
  }
}
