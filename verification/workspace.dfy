/** The workspace: one aligned allocation of `totalBytes` bytes holding the
    packed A panel, the packed B panel and the accumulator at the offsets the
    layout calculator chose. Memory is a byte sequence indexed by offset from
    the allocation's base; a pointer handed out is the base address plus an
    offset. */
module Workspaces {
  import opened Config
  import opened MemLayout

  newtype byte = x: int | 0 <= x < 256

  datatype Workspace = Workspace(BM: nat, BN: nat, BK: nat, MR: nat, NR: nat, layout: Layout, mem: seq<byte>)

  /** What the constructor establishes and every operation keeps: the layout
      is the well-formed one for the block sizes, it passed the size check,
      and the allocation is exactly `totalBytes` long. */
  predicate Valid(ws: Workspace) {
    && WellFormed(ws.layout)
    && HasSizes(ws.layout, ws.BM, ws.BN, ws.BK, ws.MR, ws.NR)
    && ws.layout.totalBytes < MaxWorkspaceBytes
    && |ws.mem| == ws.layout.totalBytes
  }

  /** Offset `p` lies in region `r`. */
  predicate InRegion(r: Region, p: int) {
    r.offset <= p < r.End()
  }

  /** pre_touch: write 0 at every page stride below `total`, starting at 0. */
  method PreTouch(mem: seq<byte>, total: nat) returns (mem': seq<byte>)
    requires total <= |mem|
    ensures |mem'| == |mem|
    ensures forall p | 0 <= p < |mem| ::
              mem'[p] == if p < total && p % PageSize == 0 then 0 else mem[p]
  {
    mem' := mem;
    var i := 0;
    while i < total
      invariant i % PageSize == 0
      invariant |mem'| == |mem|
      invariant forall p | 0 <= p < |mem| ::
                  mem'[p] == if p < i && p < total && p % PageSize == 0 then 0 else mem[p]
    {
      mem' := mem'[i := 0];
      i := i + PageSize;
    }
  }

  /** The constructor: compute the layout (its size check failing is
      WorkspaceTooLarge), allocate `totalBytes` from `heap`, the memory the
      allocator can hand out (fewer bytes than requested is
      AllocationFailed), then pre-touch every page. */
  method NewWorkspace(BM: nat, BN: nat, BK: nat, MR: nat, NR: nat, heap: seq<byte>) returns (r: Result<Workspace>)
    ensures ComputeLayout(BM, BN, BK, MR, NR).Err? ==> r == Err(WorkspaceTooLarge)
    ensures ComputeLayout(BM, BN, BK, MR, NR).Ok? ==>
              (r.Ok? <==> ComputeLayout(BM, BN, BK, MR, NR).value.totalBytes <= |heap|)
    ensures r.Err? ==> r.failure == WorkspaceTooLarge || r.failure == AllocationFailed
    ensures r.Ok? ==> Valid(r.value) && (r.value.BM, r.value.BN, r.value.BK, r.value.MR, r.value.NR) == (BM, BN, BK, MR, NR)
    ensures r.Ok? ==> r.value.layout == ComputeLayout(BM, BN, BK, MR, NR).value
    ensures r.Ok? ==> forall p | 0 <= p < |r.value.mem| ::
                        r.value.mem[p] == if p % PageSize == 0 then 0 else heap[p]
  {
    var layout := ComputeLayout(BM, BN, BK, MR, NR);
    if layout.Err? {
      return Err(WorkspaceTooLarge);
    }
    var l := layout.value;
    if |heap| < l.totalBytes {
      return Err(AllocationFailed);
    }
    var mem := PreTouch(heap[..l.totalBytes], l.totalBytes);
    r := Ok(Workspace(BM, BN, BK, MR, NR, l, mem));
  }

  // ---------------------------------------------------------------------------
  // Accessors and capacity queries
  // ---------------------------------------------------------------------------

  /** packA(): the base address plus the A region's offset. In a valid
      workspace the A panel starts the buffer and ends inside it. */
  function PackA(ws: Workspace, base: nat): (p: nat)
    ensures base <= p
    ensures WellFormed(ws.layout) ==> p == base
    ensures Valid(ws) ==> p + ws.layout.a.bytes <= base + |ws.mem|
  {
    base + ws.layout.a.offset
  }

  /** packB(): the base address plus the B region's offset: the B panel
      starts less than one alignment after the A panel ends, and ends inside
      the buffer. */
  function PackB(ws: Workspace, base: nat): (p: nat)
    ensures base <= p
    ensures WellFormed(ws.layout) ==>
              base + ws.layout.a.bytes <= p < base + ws.layout.a.bytes + SimdAlignment
    ensures Valid(ws) ==> p + ws.layout.b.bytes <= base + |ws.mem|
  {
    base + ws.layout.b.offset
  }

  /** accum(): the base address plus the accumulator's offset: the
      accumulator starts less than one alignment after the B panel ends, and
      ends inside the buffer. */
  function Accum(ws: Workspace, base: nat): (p: nat)
    ensures base <= p
    ensures WellFormed(ws.layout) ==>
              PackB(ws, base) + ws.layout.b.bytes <= p < PackB(ws, base) + ws.layout.b.bytes + SimdAlignment
    ensures Valid(ws) ==> p + ws.layout.accum.bytes <= base + |ws.mem|
  {
    base + ws.layout.accum.offset
  }

  /** packA_capacity(): the bytes of a BM x BK float panel. */
  function PackACapacity(ws: Workspace): (n: nat)
    requires Valid(ws)
    ensures n == FloatBlockBytes(ws.BM, ws.BK)
  {
    ws.layout.a.bytes
  }

  /** packB_capacity(): the bytes of a BK x BN float panel. */
  function PackBCapacity(ws: Workspace): (n: nat)
    requires Valid(ws)
    ensures n == FloatBlockBytes(ws.BK, ws.BN)
  {
    ws.layout.b.bytes
  }

  /** accum_capacity(): the bytes of an MR x NR float tile. */
  function AccumCapacity(ws: Workspace): (n: nat)
    requires Valid(ws)
    ensures n == FloatBlockBytes(ws.MR, ws.NR)
  {
    ws.layout.accum.bytes
  }

  /** total_capacity(): the whole allocation, below the workspace limit. */
  function TotalCapacity(ws: Workspace): (n: nat)
    requires Valid(ws)
    ensures n == |ws.mem| && n < MaxWorkspaceBytes && n % SimdAlignment == 0
  {
    ws.layout.totalBytes
  }

  /** The three capacities fit in the total, padding included. */
  lemma CapacitiesWithinTotal(ws: Workspace)
    requires Valid(ws)
    ensures PackACapacity(ws) + PackBCapacity(ws) + AccumCapacity(ws) <= TotalCapacity(ws)
  {
    WellFormedRegions(ws.layout);
  }

  /** With a 128-aligned base, each of the three pointers is 128-aligned. */
  lemma PointerAligned(ws: Workspace, base: nat, p: nat)
    requires WellFormed(ws.layout) && base % SimdAlignment == 0
    requires p == PackA(ws, base) || p == PackB(ws, base) || p == Accum(ws, base)
    ensures p % SimdAlignment == 0
  {
    var l := ws.layout;
    if p == PackA(ws, base) {
      AlignedSum(base, l.a.offset);
    } else if p == PackB(ws, base) {
      AlignedSum(base, l.b.offset);
    } else {
      AlignedSum(base, l.accum.offset);
    }
  }

  /** With both panels non-empty the three pointers are pairwise distinct,
      in the order A, B, accumulator. (With BK = 0 both panels are empty and
      all three coincide: MemLayout.EmptyPanelsShareStart.) */
  lemma PointersDistinct(ws: Workspace, base: nat)
    requires WellFormed(ws.layout)
    ensures ws.layout.a.bytes > 0 && ws.layout.b.bytes > 0 ==>
              PackA(ws, base) < PackB(ws, base) < Accum(ws, base)
  {
  }

  // ---------------------------------------------------------------------------
  // reset
  // ---------------------------------------------------------------------------

  /** reset(): memset the accumulator's bytes to zero. */
  function Reset(ws: Workspace): (r: Workspace)
    requires Valid(ws)
    ensures Valid(r)
    ensures r.layout == ws.layout && |r.mem| == |ws.mem|
    ensures forall p | 0 <= p < |r.mem| && InRegion(ws.layout.accum, p) :: r.mem[p] == 0
    ensures forall p | 0 <= p < |r.mem| && !InRegion(ws.layout.accum, p) :: r.mem[p] == ws.mem[p]
  {
    var acc := ws.layout.accum;
    ws.(mem := seq(|ws.mem|, p requires 0 <= p < |ws.mem| => if InRegion(acc, p) then 0 else ws.mem[p]))
  }

  /** Resetting twice is resetting once. */
  lemma ResetIdempotent(ws: Workspace)
    requires Valid(ws)
    ensures Reset(Reset(ws)) == Reset(ws)
  {
    var once, twice := Reset(ws), Reset(Reset(ws));
    assert twice.mem == once.mem;
  }

  /** Reset leaves every byte of both packed panels as it was. */
  lemma ResetKeepsPanels(ws: Workspace)
    requires Valid(ws)
    ensures forall p | 0 <= p < |ws.mem| && InRegion(ws.layout.a, p) :: Reset(ws).mem[p] == ws.mem[p]
    ensures forall p | 0 <= p < |ws.mem| && InRegion(ws.layout.b, p) :: Reset(ws).mem[p] == ws.mem[p]
  {
    WellFormedRegions(ws.layout);
  }

  /** Element e of the accumulator's float view: its four bytes. */
  function AccumElementBytes(ws: Workspace, e: nat): seq<byte>
    requires Valid(ws) && e < AccumCapacity(ws) / FloatBytes
  {
    var start := ws.layout.accum.offset + e * FloatBytes;
    ws.mem[start..start + FloatBytes]
  }

  /** After reset every accumulator element, accum_capacity() / 4 of them,
      has all four bytes zero, which reads as 0.0f. */
  lemma ResetZeroesAccumElements(ws: Workspace)
    requires Valid(ws)
    ensures forall e: nat | e < AccumCapacity(Reset(ws)) / FloatBytes ::
              AccumElementBytes(Reset(ws), e) == [0, 0, 0, 0]
  {
    var r := Reset(ws);
    forall e: nat | e < AccumCapacity(r) / FloatBytes
      ensures AccumElementBytes(r, e) == [0, 0, 0, 0]
    {
      var start := r.layout.accum.offset + e * FloatBytes;
      assert start + FloatBytes <= r.layout.accum.End();
      WellFormedRegions(r.layout);
      assert forall q | start <= q < start + FloatBytes :: InRegion(ws.layout.accum, q);
    }
  }

  /** The accessors depend only on the layout, which reset keeps: the
      pointers handed out before a reset are the ones handed out after. */
  lemma AccessorsStable(ws: Workspace, base: nat)
    requires Valid(ws)
    ensures PackA(Reset(ws), base) == PackA(ws, base)
    ensures PackB(Reset(ws), base) == PackB(ws, base)
    ensures Accum(Reset(ws), base) == Accum(ws, base)
  {
  }
}
