/** The parallel kernel v6: the output is cut into BM x BN tiles numbered
    row-major; workers repeatedly claim the next tile number from a shared
    counter (fetch_add) and run the v5 block work on that tile until a claim
    comes back past the last tile. Threads are modelled one after another:
    each worker runs until its first failing claim, and a separate
    entry point processes the tiles in any order, which covers every way the
    claims can be spread over workers, since tiles are disjoint. */
module Scheduler {
  import opened Matrix
  import opened GemmSpec
  import Config
  import Packed

  /** Number of b-wide tiles covering n, (n + b - 1) / b: the ceiling of
      n / b, zero exactly when n is. */
  function TilesAlong(n: nat, b: nat): (t: nat)
    requires b > 0
    ensures n <= t * b
    ensures t > 0 ==> (t - 1) * b < n
    ensures t == 0 <==> n == 0
  {
    var t := (n + b - 1) / b;
    assert t * b + (n + b - 1) % b == n + b - 1;
    assert t > 0 ==> (t - 1) * b == t * b - b;
    t
  }

  /** tiles_m * tiles_n: there are no tiles exactly when the output is
      empty, and a tile row of an M x N output with N <= BN holds one tile. */
  function TotalTiles(cfg: GemmConfig): (t: nat)
    ensures t == 0 <==> cfg.M == 0 || cfg.N == 0
    ensures 0 < cfg.N <= Config.DefaultBN ==> t == TilesAlong(cfg.M, Config.DefaultBM)
  {
    TilesAlong(cfg.M, Config.DefaultBM) * TilesAlong(cfg.N, Config.DefaultBN)
  }

  /** tiles_per_row, the divisor of the worker's id decomposition: the
      number of BN-wide tiles across N, the ceiling of N / BN. */
  function TilesPerRow(cfg: GemmConfig): (r: nat)
    ensures cfg.N <= r * Config.DefaultBN
    ensures r > 0 ==> (r - 1) * Config.DefaultBN < cfg.N
    ensures r == 0 <==> cfg.N == 0
  {
    TilesAlong(cfg.N, Config.DefaultBN)
  }

  /** The number of the tile holding output cell (i, j). */
  function TileOf(cfg: GemmConfig, i: nat, j: nat): nat {
    Pos(i / Config.DefaultBM, j / Config.DefaultBN, TilesPerRow(cfg))
  }

  /** The worker's decomposition of a claimed id into the tile's origin:
      ii = (id / tiles_per_row) * BM, jj = (id % tiles_per_row) * BN. */
  function TileOrigin(cfg: GemmConfig, id: nat): (o: (nat, nat))
    requires id < TotalTiles(cfg)
    ensures o.0 < cfg.M && o.1 < cfg.N
    ensures o.0 % Config.DefaultBM == 0 && o.1 % Config.DefaultBN == 0
  {
    var tpr := TilesPerRow(cfg);
    OriginBounds(cfg, id);
    ((id / tpr) * Config.DefaultBM, (id % tpr) * Config.DefaultBN)
  }

  /** The cells of tile `id`: the output block at its origin, clipped. */
  function TileCells(cfg: GemmConfig, id: nat): Tile
    requires id < TotalTiles(cfg)
  {
    var o := TileOrigin(cfg, id);
    Packed.OutputBlock(cfg, o.0, o.1)
  }

  // ---------------------------------------------------------------------------
  // The tiles partition the output window
  // ---------------------------------------------------------------------------

  /** Ceiling division: the tiles reach n, and the last one starts below n. */
  lemma TilesAlongCovers(n: nat, b: nat)
    requires b > 0
    ensures n <= TilesAlong(n, b) * b
    ensures TilesAlong(n, b) > 0 ==> (TilesAlong(n, b) - 1) * b < n
    ensures TilesAlong(n, b) == 0 <==> n == 0
  {
    var t := TilesAlong(n, b);
    var r := (n + b - 1) % b;
    assert t * b + r == n + b - 1;
    if t > 0 {
      assert (t - 1) * b == t * b - b;
    }
  }

  /** A cell's row (column) of tiles is below the number of tile rows (columns). */
  lemma TileIndexBound(n: nat, b: nat, i: nat)
    requires b > 0 && i < n
    ensures i / b < TilesAlong(n, b)
  {
    TilesAlongCovers(n, b);
    var t := TilesAlong(n, b);
    if i / b >= t {
      MulMono(t, i / b, b);
    }
  }

  lemma OriginBounds(cfg: GemmConfig, id: nat)
    requires id < TotalTiles(cfg)
    ensures TilesPerRow(cfg) > 0
    ensures id / TilesPerRow(cfg) < TilesAlong(cfg.M, Config.DefaultBM)
    ensures (id / TilesPerRow(cfg)) * Config.DefaultBM < cfg.M
    ensures (id % TilesPerRow(cfg)) * Config.DefaultBN < cfg.N
  {
    var tm, tpr := TilesAlong(cfg.M, Config.DefaultBM), TilesPerRow(cfg);
    var q, r := id / tpr, id % tpr;
    if q >= tm {
      MulMono(tm, q, tpr);
    }
    TilesAlongCovers(cfg.M, Config.DefaultBM);
    TilesAlongCovers(cfg.N, Config.DefaultBN);
    MulMono(q, tm - 1, Config.DefaultBM);
    MulMono(r, tpr - 1, Config.DefaultBN);
  }

  /** Every window cell lies in a tile with a valid number. */
  lemma TileOfInRange(cfg: GemmConfig, i: nat, j: nat)
    requires i < cfg.M && j < cfg.N
    ensures TileOf(cfg, i, j) < TotalTiles(cfg)
  {
    var tm, tpr := TilesAlong(cfg.M, Config.DefaultBM), TilesPerRow(cfg);
    TileIndexBound(cfg.M, Config.DefaultBM, i);
    TileIndexBound(cfg.N, Config.DefaultBN, j);
    PosBefore(i / Config.DefaultBM, j / Config.DefaultBN, tm, 0, tpr);
  }

  /** Tile `id` contains window cell (i, j) exactly when (i, j)'s tile
      number is `id`: the tiles are pairwise disjoint and cover the window. */
  lemma TileCellsIff(cfg: GemmConfig, id: nat, i: nat, j: nat)
    requires id < TotalTiles(cfg)
    requires i < cfg.M && j < cfg.N
    ensures TileCells(cfg, id).Contains(i, j) <==> TileOf(cfg, i, j) == id
  {
    var tpr := TilesPerRow(cfg);
    OriginBounds(cfg, id);
    TileIndexBound(cfg.N, Config.DefaultBN, j);
    var q, r := id / tpr, id % tpr;
    assert id == Pos(q, r, tpr);
    if TileOf(cfg, i, j) == id {
      PosInjective(i / Config.DefaultBM, j / Config.DefaultBN, q, r, tpr);
    }
  }

  /** The origin of tile `id` lies in tile `id`: decomposing an id and
      recombining its origin gives the id back. */
  lemma OriginRoundTrip(cfg: GemmConfig, id: nat)
    requires id < TotalTiles(cfg)
    ensures TileOf(cfg, TileOrigin(cfg, id).0, TileOrigin(cfg, id).1) == id
  {
    var o := TileOrigin(cfg, id);
    TileCellsIff(cfg, id, o.0, o.1);
  }

  /** Every block origin of the grid is the origin of its own tile number:
      with OriginRoundTrip, ids and origins are in one-to-one correspondence. */
  lemma TileOfOrigin(cfg: GemmConfig, ii: nat, jj: nat)
    requires ii < cfg.M && jj < cfg.N
    requires ii % Config.DefaultBM == 0 && jj % Config.DefaultBN == 0
    ensures TileOf(cfg, ii, jj) < TotalTiles(cfg)
    ensures TileOrigin(cfg, TileOf(cfg, ii, jj)) == (ii, jj)
  {
    TileOfInRange(cfg, ii, jj);
    TileIndexBound(cfg.N, Config.DefaultBN, jj);
    PosDivMod(ii / Config.DefaultBM, jj / Config.DefaultBN, TilesPerRow(cfg));
  }

  /** The number of tiles is zero exactly when the output is empty. */
  lemma NoTilesIffEmpty(cfg: GemmConfig)
    ensures TotalTiles(cfg) == 0 <==> cfg.M == 0 || cfg.N == 0
  {
    TilesAlongCovers(cfg.M, Config.DefaultBM);
    TilesAlongCovers(cfg.N, Config.DefaultBN);
  }

  // ---------------------------------------------------------------------------
  // Accumulating over sets of tiles
  // ---------------------------------------------------------------------------

  /** lo <= id < hi, as a term the set comprehension below can match on. */
  predicate Between(lo: nat, id: nat, hi: nat) {
    lo <= id < hi
  }

  /** Tile numbers lo .. hi - 1. */
  ghost function Range(lo: nat, hi: nat): set<nat> {
    set id: nat | id < hi && Between(lo, id, hi)
  }

  /** Every window cell whose tile is in `ids` gains its full product,
      every other cell and everything outside the window is untouched. */
  ghost predicate AddsTiles(cfg: GemmConfig, A: seq<int>, B: seq<int>, C0: seq<int>, C1: seq<int>, ids: set<nat>) {
    && OutsideUnchanged(cfg, C0, C1)
    && forall i: nat, j: nat | i < cfg.M && j < cfg.N ::
         Cell(C1, cfg.ldc, i, j)
           == if TileOf(cfg, i, j) in ids then Cell(C0, cfg.ldc, i, j) + Product(cfg, A, B, i, j)
              else Cell(C0, cfg.ldc, i, j)
  }

  lemma AddsTilesUnion(cfg: GemmConfig, A: seq<int>, B: seq<int>, C0: seq<int>, C1: seq<int>, C2: seq<int>,
                       s1: set<nat>, s2: set<nat>)
    requires s1 !! s2
    requires AddsTiles(cfg, A, B, C0, C1, s1) && AddsTiles(cfg, A, B, C1, C2, s2)
    ensures AddsTiles(cfg, A, B, C0, C2, s1 + s2)
  {
  }

  lemma AddsNoTiles(cfg: GemmConfig, A: seq<int>, B: seq<int>, C: seq<int>)
    ensures AddsTiles(cfg, A, B, C, C, {})
  {
  }

  /** Having added every tile is having added the whole product. */
  lemma AllTilesAccumulate(cfg: GemmConfig, A: seq<int>, B: seq<int>, C0: seq<int>, C1: seq<int>)
    requires AddsTiles(cfg, A, B, C0, C1, Range(0, TotalTiles(cfg)))
    ensures Accumulates(cfg, A, B, C0, C1)
  {
    forall i: nat, j: nat | i < cfg.M && j < cfg.N
      ensures Cell(C1, cfg.ldc, i, j) == Cell(C0, cfg.ldc, i, j) + Product(cfg, A, B, i, j)
    {
      TileOfInRange(cfg, i, j);
    }
  }

  // ---------------------------------------------------------------------------
  // Workers
  // ---------------------------------------------------------------------------

  /** The body of the claim loop for a claimed id below the total: the v5
      block work on tile `id`, all k slices. */
  method ProcessTile(cfg: GemmConfig, A: seq<int>, B: seq<int>, C: seq<int>, pa: seq<int>, pb: seq<int>, id: nat)
    returns (C': seq<int>, pa': seq<int>, pb': seq<int>)
    requires Valid(cfg, A, B, C)
    requires id < TotalTiles(cfg)
    requires |pa| >= Config.DefaultBM * Config.DefaultBK && |pb| >= Config.DefaultBK * Config.DefaultBN
    ensures |pa'| == |pa| && |pb'| == |pb|
    ensures AddsTiles(cfg, A, B, C, C', {id})
  {
    var o := TileOrigin(cfg, id);
    C', pa', pb' := Packed.BlockTile(cfg, A, B, C, pa, pb, o.0, o.1);
    forall i: nat, j: nat | i < cfg.M && j < cfg.N
      ensures TileCells(cfg, id).Contains(i, j) <==> TileOf(cfg, i, j) in {id}
    {
      TileCellsIff(cfg, id, i, j);
    }
  }

  /** worker(): with its own workspace panels, claim ids from the shared
      counter with fetch_add and process each until a claim is at or past
      `total`. Run alone from `counter`, it processes every id from `counter`
      to `total - 1` and leaves the counter one past the larger of the two. */
  method Worker(cfg: GemmConfig, A: seq<int>, B: seq<int>, C: seq<int>, counter: nat, total: nat)
    returns (C': seq<int>, counter': nat)
    requires Valid(cfg, A, B, C)
    requires total == TotalTiles(cfg)
    ensures counter' == (if counter < total then total else counter) + 1
    ensures AddsTiles(cfg, A, B, C, C', Range(counter, total))
  {
    var pa, pb := Packed.WorkspacePanels();
    var last := if counter < total then total else counter;
    C', counter' := C, counter;
    AddsNoTiles(cfg, A, B, C);
    assert Range(counter, counter) == {};
    while true
      invariant counter <= counter' <= last
      invariant |pa| == Config.DefaultBM * Config.DefaultBK && |pb| == Config.DefaultBK * Config.DefaultBN
      invariant AddsTiles(cfg, A, B, C, C', Range(counter, counter'))
      decreases last - counter'
    {
      var tileId := counter';
      counter' := counter' + 1;
      if tileId >= total {
        assert Range(counter, tileId) == Range(counter, total);
        break;
      }
      var next;
      next, pa, pb := ProcessTile(cfg, A, B, C', pa, pb, tileId);
      AddsTilesUnion(cfg, A, B, C, C', next, Range(counter, tileId), {tileId});
      assert Range(counter, tileId) + {tileId} == Range(counter, counter');
      C' := next;
    }
  }

  /** hardware_concurrency(), with 0 (unknown) replaced by 4. */
  function NumThreads(hardware: nat): (n: nat)
    ensures n >= 1
    ensures hardware > 0 ==> n == hardware
    ensures hardware == 0 ==> n == 4
  {
    if hardware == 0 then 4 else hardware
  }

  /** gemm_v6_parallel, with the workers run one after another. The first
      worker claims every tile; every worker, the first included, ends on
      one failing claim, so the counter finishes at total + threads. */
  method GemmV6Parallel(cfg: GemmConfig, A: seq<int>, B: seq<int>, C: seq<int>, hardware: nat)
    returns (C': seq<int>, counter: nat)
    requires Valid(cfg, A, B, C)
    ensures Accumulates(cfg, A, B, C, C')
    ensures counter == TotalTiles(cfg) + NumThreads(hardware)
  {
    var threads := NumThreads(hardware);
    var total := TotalTiles(cfg);
    counter := 0;
    C' := C;
    AddsNoTiles(cfg, A, B, C);
    assert Range(0, 0) == {};
    var t := 0;
    while t < threads
      invariant t <= threads
      invariant counter == if t == 0 then 0 else total + t
      invariant AddsTiles(cfg, A, B, C, C', Range(0, if t == 0 then 0 else total))
    {
      var next, c := Worker(cfg, A, B, C', counter, total);
      if t == 0 {
        assert Range(0, 0) + Range(0, total) == Range(0, total);
      } else {
        assert Range(counter, total) == {};
        assert Range(0, total) + {} == Range(0, total);
      }
      AddsTilesUnion(cfg, A, B, C, C', next, Range(0, if t == 0 then 0 else total), Range(counter, total));
      C', counter := next, c;
      t := t + 1;
    }
    AllTilesAccumulate(cfg, A, B, C, C');
  }

  // ---------------------------------------------------------------------------
  // Any claim order
  // ---------------------------------------------------------------------------

  /** `order` lists every tile number exactly once. */
  predicate IsSchedule(order: seq<nat>, total: nat) {
    && |order| == total
    && (forall n | 0 <= n < |order| :: order[n] < total)
    && (forall n, m | 0 <= n < m < |order| :: order[n] != order[m])
  }

  /** The ids listed in `order`. */
  ghost function Listed(order: seq<nat>): set<nat> {
    set n | 0 <= n < |order| :: order[n]
  }

  lemma {:induction false} RangeSize(lo: nat, hi: nat)
    requires lo <= hi
    ensures |Range(lo, hi)| == hi - lo
    decreases hi - lo
  {
    if lo < hi {
      RangeSize(lo + 1, hi);
      assert Range(lo, hi) == {lo} + Range(lo + 1, hi);
    } else {
      assert Range(lo, hi) == {};
    }
  }

  /** Distinct entries: the set of listed ids is as large as the list. */
  lemma {:induction false} ListedSize(order: seq<nat>)
    requires forall n, m | 0 <= n < m < |order| :: order[n] != order[m]
    ensures |Listed(order)| == |order|
    decreases |order|
  {
    if |order| > 0 {
      var init := order[..|order| - 1];
      ListedSize(init);
      assert Listed(order) == Listed(init) + {order[|order| - 1]};
      assert order[|order| - 1] !in Listed(init);
    } else {
      assert Listed(order) == {};
    }
  }

  /** A subset as large as a finite set is that set. */
  lemma {:induction false} SubsetSameSize(s: set<nat>, t: set<nat>)
    requires s <= t && |s| == |t|
    ensures s == t
    decreases |t|
  {
    if t != {} {
      var x :| x in t;
      if x in s {
        SubsetSameSize(s - {x}, t - {x});
        assert s == (s - {x}) + {x};
        assert t == (t - {x}) + {x};
      } else {
        assert s <= t - {x};
        SubsetLe(s, t - {x});
        assert false;
      }
    }
  }

  lemma {:induction false} SubsetLe(s: set<nat>, t: set<nat>)
    requires s <= t
    ensures |s| <= |t|
    decreases |t|
  {
    if s != {} {
      var x :| x in s;
      SubsetLe(s - {x}, t - {x});
    }
  }

  /** A schedule lists exactly the tile numbers 0 .. total - 1. */
  lemma ScheduleCoversAll(order: seq<nat>, total: nat)
    requires IsSchedule(order, total)
    ensures Listed(order) == Range(0, total)
  {
    ListedSize(order);
    RangeSize(0, total);
    SubsetSameSize(Listed(order), Range(0, total));
  }

  /** The tiles processed in the order the claims were granted, whatever it
      was: C's window still becomes C + A * B. With AccumulatesUnique, every
      claim order and every split of the ids among workers gives the same C. */
  method ProcessInOrder(cfg: GemmConfig, A: seq<int>, B: seq<int>, C: seq<int>, order: seq<nat>)
    returns (C': seq<int>)
    requires Valid(cfg, A, B, C)
    requires IsSchedule(order, TotalTiles(cfg))
    ensures Accumulates(cfg, A, B, C, C')
  {
    var pa, pb := Packed.WorkspacePanels();
    C' := C;
    AddsNoTiles(cfg, A, B, C);
    assert Listed(order[..0]) == {};
    var n := 0;
    while n < |order|
      invariant n <= |order|
      invariant |pa| == Config.DefaultBM * Config.DefaultBK && |pb| == Config.DefaultBK * Config.DefaultBN
      invariant AddsTiles(cfg, A, B, C, C', Listed(order[..n]))
    {
      var next;
      next, pa, pb := ProcessTile(cfg, A, B, C', pa, pb, order[n]);
      assert order[n] !in Listed(order[..n]);
      AddsTilesUnion(cfg, A, B, C, C', next, Listed(order[..n]), {order[n]});
      assert Listed(order[..n]) + {order[n]} == Listed(order[..n + 1]);
      C' := next;
      n := n + 1;
    }
    assert order[..|order|] == order;
    ScheduleCoversAll(order, TotalTiles(cfg));
    AllTilesAccumulate(cfg, A, B, C, C');
  }
}
