# gemm-kernel in Dafny

A model of the core of gemm-kernel, a family of single-precision matrix
multiplication kernels (C = A·B) with its memory-workspace layer:

- **Configuration** (`config.dfy`, module `Config`): the tuning constants of
  the M2 configuration header. These are the cache line, the SIMD alignment,
  the page size, the default cache blocks 256 x 256 x 256, the 8 x 8
  micro-tile and the 512 MiB workspace limit.
- **Layout** (`layout.dfy`, `MemLayout`): `align_up` and `compute_layout`.
  Three regions are laid out in one buffer: the packed A panel, the packed
  B panel and the accumulator. Each starts on a 128-byte boundary and the
  total size is checked against the limit. The model is stated twice: once on
  unbounded sizes, as intended, and once on 64-bit `size_t`, as written.
- **Workspace** (`workspace.dfy`, `Workspaces`): the constructor (layout,
  aligned allocation, page pre-touch), the three region pointers, the
  capacity queries and `reset`, over a byte-sequence memory.
- **Packing** (`packing.dfy`, `Packing`): `pack_A` and `pack_B`. Each copies
  a strided block into a compact row-major panel.
- **Kernels v0–v4** (`naive.dfy`, `blocked.dfy`, `neon.dfy`, `lanes.dfy`):
  - v0: the naive triple loop;
  - v1: the i-k-j reordering;
  - v2: 64-blocked;
  - v3: scalar 4 x 4 register tiles;
  - v4: NEON 4 x 4 and 8 x 8 microkernels with a scalar edge fallback.
  Four-lane vectors are modelled as 4-element sequences, with
  `vdupq`/`vfmaq`/`vld1q`/`vst1q` as functions.
- **Kernel v5** (`packed.dfy`, `Packed`): the packed NEON kernel. It packs
  256-blocks of A and B into the workspace panels, then sweeps the block
  with the accumulating 8 x 8 panel microkernel or the scalar cleanup.
- **Kernel v6** (`parallel.dfy`, `Scheduler`): the tile scheduler. It
  decodes a tile id into a block origin and runs the worker loop that claims
  ids from the shared counter. The driver creates `num_threads` workers.
  Workers run one after another, and a separate method,
  `Scheduler.ProcessInOrder`, is verified for every order in which the tiles
  can be claimed.

Elements are mathematical integers. Every kernel is proved against one
reference, the recursive dot product `GemmSpec.Dot`, so all variants provably
compute the same result:
- v0–v4 overwrite the M x N window of C with A·B (`GemmSpec.Overwrites`);
- v5 and v6 add A·B to it (`GemmSpec.Accumulates`).

Both leave every element of C outside the window unchanged. Both predicates
are shown equivalent to explicit reference results, and the results they
allow are unique.

## Model

| member | source | states |
|---|---|---|
| Matrix.Store | gemm/v0_naive.cpp:13 | a write of one output cell sets that cell and changes no other cell of C, inside or outside the window |
| GemmSpec.OverwritesIffReference | gemm/v0_naive.cpp:5-16 | a result overwrites the window with A·B exactly when it equals the reference matrix (window cells replaced by the dot products, the rest copied) |
| GemmSpec.AccumulatesIffReference | gemm/v5_packed.cpp:103 | a result accumulates A·B exactly when it equals the reference matrix with each window cell increased by its dot product |
| GemmSpec.OverwritesUnique | gemm/v0_naive.cpp:5-16 | two results that both overwrite the window of the same C are equal: the overwriting kernels are deterministic and agree with each other |
| GemmSpec.AccumulatesUnique | gemm/v6_parallel.cpp:120-146 | two accumulating results from the same C are equal, so v5 and v6 agree, and v6 gives the same output for any worker count |
| GemmSpec.OverwriteIgnoresOldWindow | gemm/v0_naive.cpp:9-13 | an overwriting kernel's output does not depend on the old contents of the window, because every window cell is assigned and none is read |
| GemmSpec.AccumulateOnZeroIsOverwrite | gemm/v1_loop_reorder.cpp:7-17 | on a zeroed window, accumulating A·B is the same as overwriting with A·B (v1–v3 zero and then accumulate; v5 on a pre-zeroed C matches v0) |
| GemmSpec.AccumulateEmptyWindow | gemm/v6_parallel.cpp:129-132 | with M = 0 or N = 0 an accumulating kernel leaves C entirely unchanged |
| GemmSpec.OverwriteEmptyK | gemm/v0_naive.cpp:9-13 | with K = 0 the overwriting kernels write zero into every window cell |
| Lanes.ZeroRows | gemm/v4_neon_8x8.cpp:15-18 | the eight row accumulators of the 8 x 8 kernel start with all sixteen vectors (64 lanes) zero |
| Lanes.Dup | gemm/v4_neon_4x4.cpp:22-25 | `vdupq_n_f32` puts its argument in all four lanes |
| Lanes.Fma | gemm/v4_neon_4x4.cpp:27-30 | `vfmaq_f32` adds the lane-wise product of two vectors to the accumulator |
| Lanes.LoadRow | gemm/v4_neon_4x4.cpp:20 | `vld1q_f32` reads four consecutive elements of a matrix row, lane l holding column j + l |
| Lanes.StoreRow | gemm/v4_neon_4x4.cpp:33-36 | `vst1q_f32` writes lanes 0-3 to columns j..j+3 of one row; every other cell of C keeps its value |
| Naive.GemmV0Naive | gemm/v0_naive.cpp:5-16 | v0 overwrites the window with A·B and leaves the rest of C unchanged |
| Naive.ZeroFill | gemm/v1_loop_reorder.cpp:7-9 | the zeroing pass makes every window cell zero and touches nothing outside the window |
| Naive.GemmV1LoopReorder | gemm/v1_loop_reorder.cpp:5-20 | v1 overwrites the window with A·B, although it accumulates k-major into each row |
| Blocked.AccumulateBlock | gemm/v2_blocked.cpp:20-32 | one (ii, kk, jj) block adds the k-range [kk, k_max) of each dot product to the block's cells and nothing else |
| Blocked.ScalarMicroTile | gemm/v3_scalar_tile.cpp:29-47 | one register tile of at most 4 x 4 adds its k-range to the covered cells, edge tiles included |
| Blocked.TiledBlock | gemm/v3_scalar_tile.cpp:22-49 | the register-tile sweep of a block adds the block's k-range to every cell of the block, partial tiles included |
| Blocked.BlockedGemm | gemm/v2_blocked.cpp:10-36 | the blocked driver, with either block body, overwrites the window with A·B |
| Blocked.GemmV2Blocked | gemm/v2_blocked.cpp:10-36 | v2 overwrites the window with A·B for any M, N, K, including sizes that are not multiples of 64 |
| Blocked.GemmV3ScalarTile | gemm/v3_scalar_tile.cpp:12-53 | v3 overwrites the window with A·B for any M, N, K |
| Neon.FullTile | gemm/v4_neon_4x4.cpp:44-47 | the microkernel is taken exactly when a whole w x w tile fits below M and N |
| Neon.FmaStep | gemm/v4_neon_4x4.cpp:18-31 | one fused multiply-add step extends every lane's partial dot product by one more k |
| Neon.Lanes4x4 | gemm/v4_neon_4x4.cpp:13-31 | after the k loop, lane l of accumulator r holds the full dot product of row i + r and column j + l |
| Neon.StoreProducts | gemm/v4_neon_4x4.cpp:33-36 | storing a vector of dot products sets that 1 x 4 strip of C to A·B |
| Neon.Microkernel4x4 | gemm/v4_neon_4x4.cpp:10-37 | the 4 x 4 microkernel sets its 4 x 4 tile of C to A·B and changes nothing else |
| Neon.RowStep | gemm/v4_neon_8x8.cpp:25-29 | one k step of one row, across both 4-lane halves, extends each of the eight partial sums by one term |
| Neon.Lanes8x8 | gemm/v4_neon_8x8.cpp:13-30 | after the k loop, lane l of row r's low and high halves holds its initial value plus the dot products of columns j + l and j + 4 + l |
| Neon.Microkernel8x8 | gemm/v4_neon_8x8.cpp:10-36 | the 8 x 8 microkernel sets its 8 x 8 tile of C to A·B and changes nothing else |
| Neon.ScalarEdge | gemm/v4_neon_4x4.cpp:50-58 | the scalar fallback sets any im x jm edge tile of C to A·B |
| Neon.NeonGemm | gemm/v4_neon_4x4.cpp:39-62 | the tiled NEON driver, for either tile width, overwrites the window with A·B, including ragged edges |
| Neon.GemmV4Neon4x4 | gemm/v4_neon_4x4.cpp:39-62 | v4 with the 4 x 4 kernel overwrites the window with A·B |
| Neon.GemmV4Neon8x8 | gemm/v4_neon_8x8.cpp:38-60 | v4 with the 8 x 8 kernel overwrites the window with A·B |
| Config.SimdAlignmentIsPowerOfTwo | atlas_memory/include/atlas_memory/config_m2.hpp:7 | SIMD_ALIGNMENT is a power of two, which the mask form of align_up relies on |
| Config.DefaultBlocksSplitIntoMicroTiles | atlas_memory/include/atlas_memory/config_m2.hpp:10-15 | the default 256 blocks are whole multiples of the 8 x 8 micro-tile, 32 tiles per side |
| MemLayout.AlignUp | atlas_memory/src/layout.cpp:7-9 | align_up never rounds down and adds less than one alignment |
| MemLayout.AlignUpSimd | atlas_memory/src/layout.cpp:7-9 | align_up to 128 gives a multiple of 128, and the least one not below x |
| MemLayout.AlignUpMaskedRoundsUp | atlas_memory/src/layout.cpp:7-9 | the mask formula `(x + a - 1) & ~(a - 1)` on 64-bit values is round-up to 128 when x is at most 2^64 - 128 |
| MemLayout.AlignUpMaskedWraps | atlas_memory/src/layout.cpp:7-9 | for x above 2^64 - 128 the mask formula wraps around to 0 |
| MemLayout.AlignUpMasked | atlas_memory/src/layout.cpp:7-9 | align_up as written on 64-bit `size_t`: the result has the low bits under the mask `align - 1` clear, so for a power-of-two alignment it is a multiple of it, even when the addition wraps |
| MemLayout.EmptyBlockBytes | atlas_memory/src/layout.cpp:18-26 | a region with a zero dimension takes zero bytes |
| MemLayout.FloatBlockBytes | atlas_memory/src/layout.cpp:18-26 | a region of `X * Y * sizeof(float)` bytes holds exactly X·Y four-byte floats, and is empty exactly when X or Y is 0 |
| MemLayout.PaddedAfterUnique | atlas_memory/src/layout.cpp:17-29 | there is only one 128-aligned offset within one alignment after a given end |
| MemLayout.LayoutUnique | atlas_memory/src/layout.cpp:11-34 | two well-formed layouts whose regions have the same sizes are equal, so the block sizes fix every offset and the total |
| MemLayout.WellFormedRegions | atlas_memory/src/layout.cpp:15-29 | in a layout, every offset and the total are 128-aligned, the regions come in order A, B, accumulator without overlap, and their sizes fit in the total |
| MemLayout.EmptyPanelsShareStart | atlas_memory/src/layout.cpp:17-25 | with BK = 0 both panels are empty and all three regions start at offset 0 |
| MemLayout.Arrange | atlas_memory/src/layout.cpp:13-29 | the arrangement step yields the well-formed layout with sizes BM·BK·4, BK·BN·4 and MR·NR·4 |
| MemLayout.ComputeLayout | atlas_memory/src/layout.cpp:11-34 | compute_layout succeeds with the well-formed layout below the 512 MiB limit, or fails exactly when every layout with these sizes reaches the limit |
| MemLayout.ComputeLayoutAsWritten | atlas_memory/src/layout.cpp:11-34 | the size_t version: whatever passes its check is below the limit and 128-aligned, after wrap-around |
| MemLayout.SizeWrapPassesCheck | atlas_memory/src/layout.cpp:18-31 | with BM = 2^62 and the other sizes 1, the A region's byte count wraps to 0 and the size_t layout passes the check with 256 bytes, while the true size is 2^64 and the unbounded layout is rejected |
| MemLayout.DefaultLayout | tests/test_layout_math.cpp:12-26 | the default 256/256/256/8/8 layout has A at 0 (262144 bytes), B at 262144 (262144 bytes) and the accumulator at 524288 (256 bytes), 524544 bytes in all, both with and without wrap-around |
| MemLayout.ExercisedConfigsFit | tests/test_multiple_block_configs.cpp:9-13 | every block configuration the tests and the packed benchmark construct passes the size check: the four of this test, (64, 64, 64, 4, 4) of tests/test_basic_blocked_gemm.cpp, (64, 64, 32, 4, 4) of the benchmark, (128, 128, 128, 8, 8) of the reset and stress tests and (128, 192, 64, 8, 8) of the alignment test |
| MemLayout.BoundedLayoutFits | atlas_memory/src/layout.cpp:31 | whenever the region sizes plus the worst-case padding stay below the limit, compute_layout succeeds |
| Workspaces.PreTouch | atlas_memory/src/workspace.cpp:43-47 | pre_touch zeroes exactly the bytes at multiples of PAGE_SIZE below the total and leaves every other byte as it was |
| Workspaces.PackA | atlas_memory/src/workspace.cpp:23-24 | packA() is at or above the base address; in a well-formed layout it is the base itself, and in a valid workspace the A panel ends inside the allocation |
| Workspaces.PackB | atlas_memory/src/workspace.cpp:26-27 | packB() starts at the end of the A panel or less than 128 bytes after it, and in a valid workspace the B panel ends inside the allocation |
| Workspaces.Accum | atlas_memory/src/workspace.cpp:29-30 | accum() starts at the end of the B panel or less than 128 bytes after it, and in a valid workspace the accumulator ends inside the allocation |
| Workspaces.NewWorkspace | atlas_memory/src/workspace.cpp:10-31 | the constructor fails with WorkspaceTooLarge exactly when compute_layout does, and with AllocationFailed exactly when the allocator cannot supply the total. Otherwise it holds the computed layout and a memory of exactly total_bytes bytes, pre-touched |
| Workspaces.PackACapacity | atlas_memory/src/workspace.cpp:53 | packA_capacity is the byte size of a BM x BK float panel |
| Workspaces.PackBCapacity | atlas_memory/src/workspace.cpp:54 | packB_capacity is the byte size of a BK x BN float panel |
| Workspaces.AccumCapacity | atlas_memory/src/workspace.cpp:55 | accum_capacity is the byte size of an MR x NR float tile |
| Workspaces.TotalCapacity | atlas_memory/src/workspace.cpp:56 | total_capacity is the allocation's length, 128-aligned and below the limit |
| Workspaces.CapacitiesWithinTotal | atlas_memory/src/workspace.cpp:53-56 | the three region capacities together fit in the total capacity |
| Workspaces.PointerAligned | atlas_memory/src/workspace.cpp:23-30 | with a 128-aligned base address, packA(), packB() and accum() are all 128-aligned |
| Workspaces.PointersDistinct | atlas_memory/src/workspace.cpp:23-30 | with non-empty panels the three pointers are distinct and in the order A, B, accumulator |
| Workspaces.Reset | atlas_memory/src/workspace.cpp:58 | reset zeroes exactly the accumulator region's bytes and keeps the layout and every other byte |
| Workspaces.ResetIdempotent | atlas_memory/src/workspace.cpp:58 | resetting twice is the same as resetting once |
| Workspaces.ResetKeepsPanels | atlas_memory/src/workspace.cpp:58 | reset leaves both packed panels untouched |
| Workspaces.ResetZeroesAccumElements | tests/test_reset_behavior.cpp:11-22 | after reset, each of the accum_capacity()/4 accumulator floats has four zero bytes |
| Workspaces.AccessorsStable | atlas_memory/src/workspace.cpp:49-51 | the pointers handed out before a reset are the ones handed out after it |
| Packing.PanelStore | atlas_memory/src/packing_a.cpp:9 | one panel write sets element (i, k) of the panel and leaves every other element as it was |
| Packing.PackA | atlas_memory/src/packing_a.cpp:4-11 | pack_A puts source element (i, k) at panel position i·cols + k for every i < rows and k < cols, and changes nothing from rows·cols on |
| Packing.PackB | atlas_memory/src/packing_b.cpp:4-10 | pack_B puts source element (k, j) at panel position k·cols + j, and changes nothing from rows·cols on |
| Packing.PacksUnique | atlas_memory/src/packing_b.cpp:4-10 | a packing result is determined by its inputs, so pack_A and pack_B write the same panel for the same arguments |
| Packing.PackIdempotent | atlas_memory/src/packing_a.cpp:4-11 | packing the same block again changes nothing |
| Packing.PackEmpty | atlas_memory/src/packing_a.cpp:5-8 | with rows = 0 or cols = 0 the destination is unchanged |
| Packing.PackContiguous | atlas_memory/src/packing_a.cpp:4-11 | when ld = cols the panel is exactly the contiguous run of rows·cols source elements |
| Packing.PackExample | tests/test_packing_correctness.cpp:12-33 | the 4 x 5 block at stride 7 of 0..27 packs to 0-4, 7-11, 14-18, 21-25 |
| Packed.BlockCovers | gemm/v5_packed.cpp:72-75 | the source pointers A + ii·lda + kk and B + kk·ldb + jj with sizes Mb x Kb and Kb x Nb read only elements inside A and B |
| Packed.PackedHoldsBlock | gemm/v5_packed.cpp:72-75 | a panel packed from the block at (r0, c0) holds that block: panel (r, c) is X(r0 + r, c0 + c) |
| Packed.DotPanel | gemm/v5_packed.cpp:99-101 | the dot product along the packed panels equals the partial dot product of A and B over [kk, kk + n) |
| Packed.LoadTile | gemm/v5_packed.cpp:24-27 | the v5 microkernel's registers start from the current 8 x 8 tile of C |
| Packed.StoreSums | gemm/v5_packed.cpp:44-47 | storing four lanes that hold old C plus a k-range of dot products adds that k-range to a 1 x 4 strip of C |
| Packed.StoreRowSums | gemm/v5_packed.cpp:44-47 | storing both halves of one row's registers adds the k-range to that 1 x 8 strip of C and nothing else |
| Packed.LaneSums | gemm/v5_packed.cpp:29-41 | panel products on top of loaded C are the old C plus A·B over the block's k-range |
| Packed.RowSumsStable | gemm/v5_packed.cpp:44-47 | storing one row does not disturb what later rows' registers are due to write |
| Packed.PanelLanes | gemm/v5_packed.cpp:24-41 | after the k loop every row register holds old C plus the block's k-range of A·B |
| Packed.PackedMicrokernel8x8 | gemm/v5_packed.cpp:19-48 | the accumulating panel microkernel adds the block's k-range of A·B to its 8 x 8 tile and changes nothing else |
| Packed.PanelDot | gemm/v5_packed.cpp:97-101 | the scalar cleanup's sum over packed panels is the partial dot product over [kk, kk + Kb) |
| Packed.PackedEdge | gemm/v5_packed.cpp:94-105 | the scalar cleanup adds the block's k-range to an mr x nr edge tile |
| Packed.MicroSweep | gemm/v5_packed.cpp:78-108 | the micro-tile sweep of one block adds its k-range of A·B to every cell of the Mb x Nb block, partial tiles included |
| Packed.OutputBlock | gemm/v5_packed.cpp:67-68 | the block at (ii, jj) is clipped to the matrix and is at most 256 x 256 |
| Packed.BlockTile | gemm/v5_packed.cpp:65-109 | the kk loop, packing then sweeping each chunk, adds the full dot product to every cell of the (ii, jj) output block |
| Packed.WorkspacePanels | gemm/v5_packed.cpp:61 | the default workspace's panels hold BM·BK and BK·BN floats |
| Packed.GemmV5PackedNeon | gemm/v5_packed.cpp:53-112 | v5 adds A·B to the window of C and leaves the rest unchanged |
| Scheduler.TileOrigin | gemm/v6_parallel.cpp:69-72 | a tile id below total_tiles decodes to a block origin inside the matrix, on the BM/BN grid |
| Scheduler.TilesAlong | gemm/v6_parallel.cpp:129-130 | `(n + b - 1) / b` is the ceiling of n/b: that many b-wide tiles cover n, one fewer does not, and it is zero exactly when n = 0 |
| Scheduler.TotalTiles | gemm/v6_parallel.cpp:129-132 | total_tiles = tiles_m · tiles_n is zero exactly when M or N is zero, and equals tiles_m when N fits in one 256-wide tile |
| Scheduler.TilesPerRow | gemm/v6_parallel.cpp:69 | tiles_per_row is the ceiling of N/256: that many 256-wide tiles cover N, one fewer does not, and it is zero exactly when N = 0 |
| Scheduler.TilesAlongCovers | gemm/v6_parallel.cpp:129-130 | ceil(n/b) blocks of b cover n, the last one starts below n, and there are none exactly when n = 0 |
| Scheduler.TileIndexBound | gemm/v6_parallel.cpp:129-130 | the block index of any row or column below n is below ceil(n/b) |
| Scheduler.OriginBounds | gemm/v6_parallel.cpp:69-75 | tiles_per_row is non-zero whenever a tile exists, and the decoded origin is below M and N, so `cfg.M - ii` and `cfg.N - jj` do not underflow |
| Scheduler.TileOfInRange | gemm/v6_parallel.cpp:129-132 | every output cell belongs to a tile id below total_tiles |
| Scheduler.TileCellsIff | gemm/v6_parallel.cpp:69-75 | a cell lies in tile id's block exactly when its tile id is id, so tiles are disjoint and cover the window |
| Scheduler.OriginRoundTrip | gemm/v6_parallel.cpp:69-72 | decoding an id and re-encoding its origin gives the id back |
| Scheduler.TileOfOrigin | gemm/v6_parallel.cpp:69-72 | every grid origin is the decoding of its own id, so ids and block origins correspond one to one |
| Scheduler.NoTilesIffEmpty | gemm/v6_parallel.cpp:129-132 | total_tiles is zero exactly when M or N is zero |
| Scheduler.AddsTilesUnion | gemm/v6_parallel.cpp:63-67 | processing two disjoint sets of tiles one after the other processes their union |
| Scheduler.AllTilesAccumulate | gemm/v6_parallel.cpp:129-145 | processing every tile id below total_tiles accumulates A·B into the whole window |
| Scheduler.ProcessTile | gemm/v6_parallel.cpp:69-113 | processing a claimed tile adds A·B to exactly the cells of that tile |
| Scheduler.Worker | gemm/v6_parallel.cpp:52-115 | a worker claims ids until one reaches total_tiles: it processes every id from the counter's value up to total_tiles, and leaves the counter one past the larger of the two |
| Scheduler.NumThreads | gemm/v6_parallel.cpp:122-124 | the worker count is the reported hardware concurrency, or 4 when that is 0, and never 0 |
| Scheduler.GemmV6Parallel | gemm/v6_parallel.cpp:120-146 | v6 adds A·B to the window of C, and the counter ends at total_tiles plus the number of workers |
| Scheduler.ScheduleCoversAll | gemm/v6_parallel.cpp:63-67 | a claim order that hands out each id below total_tiles once covers all of them |
| Scheduler.ProcessInOrder | gemm/v6_parallel.cpp:139-145 | processing the tiles in any such claim order accumulates A·B into the window |

## Left out

- Floating point: elements are integers, so rounding, FMA contraction and the order of summation are not modelled. Every kernel is proved equal to the exact product.
- NEON hardware: `float32x4_t` is a 4-element sequence and the intrinsics are pure functions. Alignment faults and the register file are not modelled.
- Scheduler.GemmV6Parallel: the workers run one after another rather than concurrently, and the atomic fetch-and-add is a plain increment. The tiles are disjoint (Scheduler.TileCellsIff), and Scheduler.ProcessInOrder covers every order in which tiles can be claimed. Interleavings inside a tile's processing are not modelled.
- `std::thread::hardware_concurrency()` is an input of Scheduler.GemmV6Parallel, not a query of the host.
- Workspaces.NewWorkspace: `posix_memalign` is a `heap` parameter, the bytes the allocator can hand out. The alignment of the returned base is an assumption of Workspaces.PointerAligned. The `assert(res == 0)` and the layout `assert` are `Err` results, not aborts. The model follows the debug-build contract: under `NDEBUG` both `assert`s disappear, an oversize layout goes on to `posix_memalign`, and a failed allocation leaves `base_` null for `pre_touch` to write through; release builds are not modelled.
- Packed.WorkspacePanels: v5 and v6 see the workspace panels as float sequences of the capacity divided by 4. Their initial contents are arbitrary in the C++ code and zero here; Packed.BlockTile is proved for any initial panel contents. v5 and v6 assume the default workspace's allocation succeeds: the AllocationFailed path of Workspaces.NewWorkspace (the `assert(res == 0)` of atlas_memory/src/workspace.cpp:38-41) is not threaded through the kernels, which always receive their panels.
- The v6 microkernel and worker body repeat v5's line for line, so they are modelled once, in the `Packed` module, and the scheduler calls them.
- Integer widths: `index_t` and the `int` parameters of pack_A and pack_B are unbounded naturals. The narrowing from `size_t` to `int` at the pack calls and overflow in index arithmetic such as `i * lda` are not modelled. Layout sizes are the exception: they are modelled on 64 bits in MemLayout.ComputeLayoutAsWritten.
- MemLayout.ComputeLayoutAsWritten: shown to agree with MemLayout.ComputeLayout on the default configuration (MemLayout.DefaultLayout), with no general theorem relating the two for all sizes that do not wrap.
- The Workspace destructor, its non-copyability and other RAII details have no counterpart with immutable values.
- Input validation: the kernels require the matrices to hold their M x N windows at the given leading dimensions, each at least as wide as its rows (Matrix.Valid). The C++ code does not check this. Calls outside it are outside the documented caller contract and are not modelled; some are well defined, for example `ld < cols`, where the rows read overlap.
- Aliasing: A, B and C are separate immutable values, so a C that overlaps A or B is not modelled. The C++ signatures allow it, and then the variants need not agree: v1 zeroes the whole window before reading A and B, while v0 reads them between its writes.
- Benchmarks, the BLAS comparison test and timing utilities are outside the core.
- `CACHE_LINE` is declared in the configuration but no core file uses it; it is a constant of the model and nothing is proved about it.

## Findings

| source | as written | input that shows it | evidently intended | confidence | as-written member | corrected member |
|---|---|---|---|---|---|---|
| atlas_memory/src/layout.cpp:18-31 | region sizes `BM * BK * sizeof(float)` and the offset sums are computed in `size_t` and wrap modulo 2^64 before `assert(l.total_bytes < MAX_WORKSPACE_BYTES)` sees them | BM = 2^62, BN = BK = MR = NR = 1: the A region's size wraps to 0 and the layout passes the check with 256 bytes, although the A panel alone needs 2^64 bytes | the check rejects every configuration whose true size reaches 512 MiB | high (not executed) | MemLayout.SizeWrapPassesCheck | MemLayout.ComputeLayout |
