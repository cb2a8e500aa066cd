/** The one reference every kernel variant is specified against: the dot
    product of a row of A with a column of B over a range of the shared
    dimension, and what it means for a kernel to overwrite or to accumulate
    into the output window. */
module GemmSpec {
  import opened Matrix

  /** Sum over k in [lo, hi) of A[i, k] * B[k, j], adding the terms in
      increasing k, the order in which every kernel's inner loop runs. */
  function Dot(A: seq<int>, lda: nat, B: seq<int>, ldb: nat, i: nat, j: nat, lo: nat, hi: nat): int
    decreases hi
  {
    if hi <= lo then 0
    else Dot(A, lda, B, ldb, i, j, lo, hi - 1) + Cell(A, lda, i, hi - 1) * Cell(B, ldb, hi - 1, j)
  }

  /** The k-range [k0, k1) contribution to C[i, j]. */
  function Partial(cfg: GemmConfig, A: seq<int>, B: seq<int>, i: nat, j: nat, k0: nat, k1: nat): int {
    Dot(A, cfg.lda, B, cfg.ldb, i, j, k0, k1)
  }

  /** The full product entry (A * B)[i, j]. */
  function Product(cfg: GemmConfig, A: seq<int>, B: seq<int>, i: nat, j: nat): int {
    Partial(cfg, A, B, i, j, 0, cfg.K)
  }

  /** An empty k-range contributes nothing. */
  lemma PartialEmpty(cfg: GemmConfig, A: seq<int>, B: seq<int>, k: nat)
    ensures forall i: nat, j: nat :: Partial(cfg, A, B, i, j, k, k) == 0
  {
  }

  /** Splitting the k-range splits the sum; the blocked kernels rest on this. */
  lemma {:induction false} DotSplit(A: seq<int>, lda: nat, B: seq<int>, ldb: nat, i: nat, j: nat,
                                    lo: nat, mid: nat, hi: nat)
    requires lo <= mid <= hi
    ensures Dot(A, lda, B, ldb, i, j, lo, hi)
         == Dot(A, lda, B, ldb, i, j, lo, mid) + Dot(A, lda, B, ldb, i, j, mid, hi)
    decreases hi
  {
    if hi > mid {
      DotSplit(A, lda, B, ldb, i, j, lo, mid, hi - 1);
    }
  }

  /** The k-loop of a blocked kernel: partial sums over consecutive blocks add up. */
  lemma PartialSplit(cfg: GemmConfig, A: seq<int>, B: seq<int>, k0: nat, k1: nat, k2: nat)
    requires k0 <= k1 <= k2
    ensures forall i: nat, j: nat ::
              Partial(cfg, A, B, i, j, k0, k2) == Partial(cfg, A, B, i, j, k0, k1) + Partial(cfg, A, B, i, j, k1, k2)
  {
    forall i: nat, j: nat
      ensures Partial(cfg, A, B, i, j, k0, k2) == Partial(cfg, A, B, i, j, k0, k1) + Partial(cfg, A, B, i, j, k1, k2)
    {
      DotSplit(A, cfg.lda, B, cfg.ldb, i, j, k0, k1, k2);
    }
  }

  /** Accumulate convention on a tile: every window cell inside `t` gains the
      [k0, k1) contribution, every other window cell and everything outside the
      window is untouched. */
  ghost predicate AddsTile(cfg: GemmConfig, A: seq<int>, B: seq<int>, C0: seq<int>, C1: seq<int>,
                           t: Tile, k0: nat, k1: nat)
  {
    && OutsideUnchanged(cfg, C0, C1)
    && forall i: nat, j: nat | i < cfg.M && j < cfg.N ::
         Cell(C1, cfg.ldc, i, j)
           == if t.Contains(i, j) then Cell(C0, cfg.ldc, i, j) + Partial(cfg, A, B, i, j, k0, k1)
              else Cell(C0, cfg.ldc, i, j)
  }

  /** Overwrite convention on a tile: every window cell inside `t` becomes the
      full product entry, regardless of what it held. */
  ghost predicate SetsTile(cfg: GemmConfig, A: seq<int>, B: seq<int>, C0: seq<int>, C1: seq<int>, t: Tile)
  {
    && OutsideUnchanged(cfg, C0, C1)
    && forall i: nat, j: nat | i < cfg.M && j < cfg.N ::
         Cell(C1, cfg.ldc, i, j)
           == if t.Contains(i, j) then Product(cfg, A, B, i, j) else Cell(C0, cfg.ldc, i, j)
  }

  /** Two overwrites of vertically adjacent tiles make one overwrite of their union. */
  lemma SetsTileStack(cfg: GemmConfig, A: seq<int>, B: seq<int>, C0: seq<int>, C1: seq<int>, C2: seq<int>,
                      r0: nat, r1: nat, r2: nat, c0: nat, c1: nat)
    requires r0 <= r1 <= r2
    requires SetsTile(cfg, A, B, C0, C1, Tile(r0, r1, c0, c1))
    requires SetsTile(cfg, A, B, C1, C2, Tile(r1, r2, c0, c1))
    ensures SetsTile(cfg, A, B, C0, C2, Tile(r0, r2, c0, c1))
  {
  }

  /** Two overwrites of horizontally adjacent tiles make one overwrite of their union. */
  lemma SetsTileBeside(cfg: GemmConfig, A: seq<int>, B: seq<int>, C0: seq<int>, C1: seq<int>, C2: seq<int>,
                       r0: nat, r1: nat, c0: nat, c1: nat, c2: nat)
    requires c0 <= c1 <= c2
    requires SetsTile(cfg, A, B, C0, C1, Tile(r0, r1, c0, c1))
    requires SetsTile(cfg, A, B, C1, C2, Tile(r0, r1, c1, c2))
    ensures SetsTile(cfg, A, B, C0, C2, Tile(r0, r1, c0, c2))
  {
  }

  /** Two accumulations over vertically adjacent tiles make one over their union. */
  lemma AddsTileStack(cfg: GemmConfig, A: seq<int>, B: seq<int>, C0: seq<int>, C1: seq<int>, C2: seq<int>,
                      r0: nat, r1: nat, r2: nat, c0: nat, c1: nat, k0: nat, k1: nat)
    requires r0 <= r1 <= r2
    requires AddsTile(cfg, A, B, C0, C1, Tile(r0, r1, c0, c1), k0, k1)
    requires AddsTile(cfg, A, B, C1, C2, Tile(r1, r2, c0, c1), k0, k1)
    ensures AddsTile(cfg, A, B, C0, C2, Tile(r0, r2, c0, c1), k0, k1)
  {
  }

  /** Two accumulations over horizontally adjacent tiles make one over their union. */
  lemma AddsTileBeside(cfg: GemmConfig, A: seq<int>, B: seq<int>, C0: seq<int>, C1: seq<int>, C2: seq<int>,
                       r0: nat, r1: nat, c0: nat, c1: nat, c2: nat, k0: nat, k1: nat)
    requires c0 <= c1 <= c2
    requires AddsTile(cfg, A, B, C0, C1, Tile(r0, r1, c0, c1), k0, k1)
    requires AddsTile(cfg, A, B, C1, C2, Tile(r0, r1, c1, c2), k0, k1)
    ensures AddsTile(cfg, A, B, C0, C2, Tile(r0, r1, c0, c2), k0, k1)
  {
  }

  /** Accumulating consecutive k-ranges over one tile accumulates their union:
      the k-block loop of the packed kernels. */
  lemma AddsTileChain(cfg: GemmConfig, A: seq<int>, B: seq<int>, C0: seq<int>, C1: seq<int>, C2: seq<int>,
                      t: Tile, k0: nat, k1: nat, k2: nat)
    requires k0 <= k1 <= k2
    requires AddsTile(cfg, A, B, C0, C1, t, k0, k1)
    requires AddsTile(cfg, A, B, C1, C2, t, k1, k2)
    ensures AddsTile(cfg, A, B, C0, C2, t, k0, k2)
  {
    PartialSplit(cfg, A, B, k0, k1, k2);
  }

  /** v0-v4: C's window becomes A * B. */
  ghost predicate Overwrites(cfg: GemmConfig, A: seq<int>, B: seq<int>, C0: seq<int>, C1: seq<int>) {
    SetsTile(cfg, A, B, C0, C1, Window(cfg))
  }

  /** v5-v6: C's window becomes its old contents plus A * B. */
  ghost predicate Accumulates(cfg: GemmConfig, A: seq<int>, B: seq<int>, C0: seq<int>, C1: seq<int>) {
    AddsTile(cfg, A, B, C0, C1, Window(cfg), 0, cfg.K)
  }

  /** The naive kernel as a value: every in-window position holds its product
      entry, every other position its old value. */
  function Reference(cfg: GemmConfig, A: seq<int>, B: seq<int>, C: seq<int>): (R: seq<int>)
    ensures |R| == |C|
  {
    seq(|C|, p requires 0 <= p < |C| =>
      if InWindow(cfg, p) then Product(cfg, A, B, p / cfg.ldc, p % cfg.ldc) else C[p])
  }

  /** The accumulating kernels as a value. */
  function AccumulatedReference(cfg: GemmConfig, A: seq<int>, B: seq<int>, C: seq<int>): (R: seq<int>)
    ensures |R| == |C|
  {
    seq(|C|, p requires 0 <= p < |C| =>
      if InWindow(cfg, p) then C[p] + Product(cfg, A, B, p / cfg.ldc, p % cfg.ldc) else C[p])
  }

  /** The overwrite contract pins the result down completely: it holds exactly
      of the reference value. */
  lemma OverwritesIffReference(cfg: GemmConfig, A: seq<int>, B: seq<int>, C0: seq<int>, C1: seq<int>)
    requires Fits(|C0|, cfg.M, cfg.N, cfg.ldc)
    ensures Overwrites(cfg, A, B, C0, C1) <==> C1 == Reference(cfg, A, B, C0)
  {
    var R := Reference(cfg, A, B, C0);
    if Overwrites(cfg, A, B, C0, C1) {
      forall p | 0 <= p < |C0|
        ensures C1[p] == R[p]
      {
        if InWindow(cfg, p) {
          WindowPos(cfg, p);
          assert Cell(C1, cfg.ldc, p / cfg.ldc, p % cfg.ldc) == Product(cfg, A, B, p / cfg.ldc, p % cfg.ldc);
        }
      }
    }
    if C1 == R {
      forall i: nat, j: nat | i < cfg.M && j < cfg.N
        ensures Cell(C1, cfg.ldc, i, j) == Product(cfg, A, B, i, j)
      {
        PosInBounds(|C0|, cfg.M, cfg.N, cfg.ldc, i, j);
        CellInWindow(cfg, i, j);
        PosDivMod(i, j, cfg.ldc);
      }
    }
  }

  /** The accumulate contract holds exactly of the accumulated reference value. */
  lemma AccumulatesIffReference(cfg: GemmConfig, A: seq<int>, B: seq<int>, C0: seq<int>, C1: seq<int>)
    requires Fits(|C0|, cfg.M, cfg.N, cfg.ldc)
    ensures Accumulates(cfg, A, B, C0, C1) <==> C1 == AccumulatedReference(cfg, A, B, C0)
  {
    if Accumulates(cfg, A, B, C0, C1) {
      AccumulatesGivesReference(cfg, A, B, C0, C1);
    }
    if C1 == AccumulatedReference(cfg, A, B, C0) {
      ReferenceAccumulates(cfg, A, B, C0);
    }
  }

  lemma AccumulatesGivesReference(cfg: GemmConfig, A: seq<int>, B: seq<int>, C0: seq<int>, C1: seq<int>)
    requires Accumulates(cfg, A, B, C0, C1)
    ensures C1 == AccumulatedReference(cfg, A, B, C0)
  {
    var R := AccumulatedReference(cfg, A, B, C0);
    forall p | 0 <= p < |C0|
      ensures C1[p] == R[p]
    {
      if InWindow(cfg, p) {
        var i, j := p / cfg.ldc, p % cfg.ldc;
        WindowPos(cfg, p);
        assert Cell(C1, cfg.ldc, i, j) == Cell(C0, cfg.ldc, i, j) + Product(cfg, A, B, i, j);
        assert Cell(C1, cfg.ldc, i, j) == C1[p] && Cell(C0, cfg.ldc, i, j) == C0[p];
      }
    }
  }

  lemma ReferenceAccumulates(cfg: GemmConfig, A: seq<int>, B: seq<int>, C0: seq<int>)
    requires Fits(|C0|, cfg.M, cfg.N, cfg.ldc)
    ensures Accumulates(cfg, A, B, C0, AccumulatedReference(cfg, A, B, C0))
  {
    var R := AccumulatedReference(cfg, A, B, C0);
    forall i: nat, j: nat | i < cfg.M && j < cfg.N
      ensures Cell(R, cfg.ldc, i, j) == Cell(C0, cfg.ldc, i, j) + Product(cfg, A, B, i, j)
    {
      var p := Pos(i, j, cfg.ldc);
      PosInBounds(|C0|, cfg.M, cfg.N, cfg.ldc, i, j);
      CellInWindow(cfg, i, j);
      PosDivMod(i, j, cfg.ldc);
      assert R[p] == C0[p] + Product(cfg, A, B, i, j);
    }
  }

  /** Any two overwriting kernels produce the same buffer: v0 through v4 agree. */
  lemma OverwritesUnique(cfg: GemmConfig, A: seq<int>, B: seq<int>, C0: seq<int>, C1: seq<int>, C2: seq<int>)
    requires Fits(|C0|, cfg.M, cfg.N, cfg.ldc)
    requires Overwrites(cfg, A, B, C0, C1) && Overwrites(cfg, A, B, C0, C2)
    ensures C1 == C2
  {
    OverwritesIffReference(cfg, A, B, C0, C1);
    OverwritesIffReference(cfg, A, B, C0, C2);
  }

  /** Any two accumulating runs produce the same buffer, whatever order they
      visit the tiles in. */
  lemma AccumulatesUnique(cfg: GemmConfig, A: seq<int>, B: seq<int>, C0: seq<int>, C1: seq<int>, C2: seq<int>)
    requires Fits(|C0|, cfg.M, cfg.N, cfg.ldc)
    requires Accumulates(cfg, A, B, C0, C1) && Accumulates(cfg, A, B, C0, C2)
    ensures C1 == C2
  {
    AccumulatesIffReference(cfg, A, B, C0, C1);
    AccumulatesIffReference(cfg, A, B, C0, C2);
  }

  /** Overwrite semantics: the window of the result does not depend on what C
      held before, so two starting buffers that agree outside the window give
      the same result. */
  lemma OverwriteIgnoresOldWindow(cfg: GemmConfig, A: seq<int>, B: seq<int>,
                                  C0: seq<int>, C0': seq<int>, C1: seq<int>, C1': seq<int>)
    requires Fits(|C0|, cfg.M, cfg.N, cfg.ldc) && |C0'| == |C0|
    requires forall p :: 0 <= p < |C0| && !InWindow(cfg, p) ==> C0[p] == C0'[p]
    requires Overwrites(cfg, A, B, C0, C1) && Overwrites(cfg, A, B, C0', C1')
    ensures C1 == C1'
  {
    OverwritesIffReference(cfg, A, B, C0, C1);
    OverwritesIffReference(cfg, A, B, C0', C1');
  }

  /** The window of C holds zero in every cell. */
  ghost predicate WindowIsZero(cfg: GemmConfig, C: seq<int>) {
    forall i: nat, j: nat | i < cfg.M && j < cfg.N :: Cell(C, cfg.ldc, i, j) == 0
  }

  /** With C pre-zeroed, as the accumulating kernels' callers must arrange, the
      accumulate convention and the overwrite convention coincide. */
  lemma AccumulateOnZeroIsOverwrite(cfg: GemmConfig, A: seq<int>, B: seq<int>, C0: seq<int>, C1: seq<int>)
    requires WindowIsZero(cfg, C0)
    ensures Accumulates(cfg, A, B, C0, C1) <==> Overwrites(cfg, A, B, C0, C1)
  {
  }

  /** An empty problem (M == 0 or N == 0) leaves an accumulating kernel's C untouched. */
  lemma AccumulateEmptyWindow(cfg: GemmConfig, A: seq<int>, B: seq<int>, C0: seq<int>, C1: seq<int>)
    requires cfg.M == 0 || cfg.N == 0
    requires Accumulates(cfg, A, B, C0, C1)
    ensures C1 == C0
  {
    forall p | 0 <= p < |C0|
      ensures C1[p] == C0[p]
    {
      assert !InWindow(cfg, p);
    }
  }

  /** K == 0: an overwriting kernel zeroes the whole window. */
  lemma OverwriteEmptyK(cfg: GemmConfig, A: seq<int>, B: seq<int>, C0: seq<int>, C1: seq<int>)
    requires cfg.K == 0
    requires Overwrites(cfg, A, B, C0, C1)
    ensures WindowIsZero(cfg, C1)
  {
  }
}
