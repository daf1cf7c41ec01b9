/** Placing the resident weights in one device arena, and the tiled upload of 4-bit expert
    weights: host index arithmetic only. */
module WeightArena {
  import opened Contracts
  import opened Arithmetic

  const SCALE_ALIGNMENT: nat := 256

  // ---------------------------------------------------------------------------
  // Placement.
  // ---------------------------------------------------------------------------

  datatype Residency = Resident | HostOnly | Excluded | InvalidFormat

  datatype Tensor = Tensor(dataBytes: nat, scaleBytes: nat, residency: Residency)

  datatype Placement = Placement(tensor: nat, dataOffset: nat, scaleOffset: nat)

  datatype Span = Span(start: nat, bytes: nat)

  /** Rounds up to the next multiple, or reports the overflow. */
  function AlignUp(value: U64, alignment: nat): (r: Result<U64>)
    ensures r.Ok? ==> alignment > 0 && r.value % alignment == 0 && value <= r.value < value + alignment
    ensures r.Err? <==> !PowerOfTwo(alignment) || value + alignment - 1 > U64_MAX
  {
    if !PowerOfTwo(alignment) then Err(InvalidArgument)
    else if value > U64_MAX - (alignment - 1) then Err(LengthError)
    else
      Rounding(value, alignment);
      Ok((value + alignment - 1) / alignment * alignment)
  }

  lemma Rounding(value: nat, alignment: Positive)
    ensures var r := (value + alignment - 1) / alignment * alignment;
            r % alignment == 0 && value <= r < value + alignment
  {
    var q, m := (value + alignment - 1) / alignment, (value + alignment - 1) % alignment;
    assert value + alignment - 1 == q * alignment + m;
    Digit(q, 0, alignment);
  }

  function SpansOf(t: Tensor, p: Placement): seq<Span> {
    [Span(p.dataOffset, t.dataBytes)] + if t.scaleBytes == 0 then [] else [Span(p.scaleOffset, t.scaleBytes)]
  }

  /** All device extents, in order of placement. */
  function Spans(ts: seq<Tensor>, ps: seq<Placement>): seq<Span>
    requires forall i :: 0 <= i < |ps| ==> ps[i].tensor < |ts|
  {
    if ps == [] then []
    else
      var last := ps[|ps| - 1];
      Spans(ts, ps[..|ps| - 1]) + SpansOf(ts[last.tensor], last)
  }

  /** Extents follow each other without overlap and end within the arena. */
  predicate Packed(spans: seq<Span>, arena: nat) {
    && (forall i, j :: 0 <= i < j < |spans| ==> spans[i].start + spans[i].bytes <= spans[j].start)
    && (forall i :: 0 <= i < |spans| ==> spans[i].start + spans[i].bytes <= arena)
  }

  predicate Aligned(t: Tensor, p: Placement, alignment: Positive) {
    p.dataOffset % alignment == 0 && (t.scaleBytes != 0 ==> p.scaleOffset % SCALE_ALIGNMENT == 0)
  }

  /** The resident tensors, in order. */
  function Residents(ts: seq<Tensor>): seq<nat> {
    if ts == [] then []
    else Residents(ts[..|ts| - 1]) + if ts[|ts| - 1].residency == Resident then [|ts| - 1] else []
  }

  function TensorsOf(ps: seq<Placement>): (r: seq<nat>)
    ensures |r| == |ps| && forall i :: 0 <= i < |ps| ==> r[i] == ps[i].tensor
  {
    seq(|ps|, i requires 0 <= i < |ps| => ps[i].tensor)
  }

  /** More than any placement can take, padding included. */
  function Ceiling(ts: seq<Tensor>, alignment: nat): nat {
    if ts == [] then 0
    else
      var t := ts[|ts| - 1];
      Ceiling(ts[..|ts| - 1], alignment) + t.dataBytes + t.scaleBytes + alignment + SCALE_ALIGNMENT
  }

  /** The next tensor goes behind everything placed so far. */
  method PlaceOne(t: Tensor, index: nat, arena: U64, alignment: Positive) returns (r: Result<(Placement, U64)>)
    requires PowerOfTwo(alignment)
    ensures r.Ok? ==>
              var (p, next) := r.value;
              && p.tensor == index && Aligned(t, p, alignment) && Packed(SpansOf(t, p), next) && arena <= p.dataOffset
              && next <= arena + t.dataBytes + t.scaleBytes + alignment + SCALE_ALIGNMENT
              && (t.scaleBytes != 0 ==> arena <= p.scaleOffset) && arena + t.dataBytes <= next
    ensures r.Err? ==> arena + t.dataBytes + t.scaleBytes + alignment + SCALE_ALIGNMENT > U64_MAX
  {
    var data := AlignUp(arena, alignment);
    if data.Err? { return Err(data.failure); }
    if t.dataBytes > U64_MAX - data.value { return Err(LengthError); }
    var next := data.value + t.dataBytes;
    if t.scaleBytes == 0 { return Ok((Placement(index, data.value, 0), next)); }
    assert PowerOfTwo(SCALE_ALIGNMENT) by {
      assert PowerOfTwo(1) && PowerOfTwo(2) && PowerOfTwo(4) && PowerOfTwo(8) && PowerOfTwo(16);
      assert PowerOfTwo(32) && PowerOfTwo(64) && PowerOfTwo(128);
    }
    var scale := AlignUp(next, SCALE_ALIGNMENT);
    if scale.Err? { return Err(scale.failure); }
    if t.scaleBytes > U64_MAX - scale.value { return Err(LengthError); }
    r := Ok((Placement(index, data.value, scale.value), scale.value + t.scaleBytes));
  }

  lemma PackedGrows(spans: seq<Span>, arena: nat, more: seq<Span>, next: nat)
    requires Packed(spans, arena) && Packed(more, next) && arena <= next
    requires forall i :: 0 <= i < |more| ==> arena <= more[i].start
    ensures Packed(spans + more, next)
  {
  }

  /** What a finished or partial placement satisfies. */
  ghost predicate Placed(ts: seq<Tensor>, ps: seq<Placement>, arena: nat, alignment: Positive) {
    && (forall i :: 0 <= i < |ps| ==> ps[i].tensor < |ts| && Aligned(ts[ps[i].tensor], ps[i], alignment))
    && Packed(Spans(ts, ps), arena)
  }

  lemma PlacedGrows(ts: seq<Tensor>, ps: seq<Placement>, arena: nat, alignment: Positive, p: Placement, next: nat)
    requires Placed(ts, ps, arena, alignment) && p.tensor < |ts| && Aligned(ts[p.tensor], p, alignment) && arena <= next
    requires Packed(SpansOf(ts[p.tensor], p), next) && arena <= p.dataOffset
    requires (ts[p.tensor].scaleBytes != 0 ==> arena <= p.scaleOffset)
    ensures Placed(ts, ps + [p], next, alignment)
  {
    assert (ps + [p])[..|ps|] == ps;
    PackedGrows(Spans(ts, ps), arena, SpansOf(ts[p.tensor], p), next);
  }

  /** Nothing needs room. */
  predicate Vacant(ts: seq<Tensor>) {
    forall i :: 0 <= i < |ts| ==> ts[i].residency != Resident || ts[i].dataBytes == 0
  }

  /** Places every resident tensor once, in order: aligned, pairwise disjoint, inside the arena.
      It fails only on a bad alignment or format, an empty arena, or a 64-bit overflow. */
  method PlaceAll(ts: seq<Tensor>, alignment: nat) returns (r: Result<(seq<Placement>, U64)>)
    ensures r.Ok? ==>
              && PowerOfTwo(alignment) && Placed(ts, r.value.0, r.value.1, alignment)
              && TensorsOf(r.value.0) == Residents(ts) && r.value.1 % alignment == 0 && r.value.1 > 0
    ensures r.Err? ==>
              || (!PowerOfTwo(alignment)) || (exists i :: 0 <= i < |ts| && ts[i].residency == InvalidFormat)
              || Ceiling(ts, alignment) + alignment > U64_MAX || Vacant(ts)
  {
    if !PowerOfTwo(alignment) { return Err(InvalidArgument); }
    var arena: U64 := 0;
    var ps: seq<Placement> := [];
    for i := 0 to |ts|
      invariant PlacedSoFar(ts, i, ps, arena, alignment)
    {
      var next := PlaceNext(ts, i, ps, arena, alignment);
      if next.Err? { return Err(next.failure); }
      ps, arena := next.value.0, next.value.1;
    }
    assert ts[..|ts|] == ts;
    var total := AlignUp(arena, alignment);
    if total.Err? { return Err(total.failure); }
    if total.value == 0 { return Err(LengthError); }
    r := Ok((ps, total.value));
  }

  ghost predicate PlacedSoFar(ts: seq<Tensor>, i: nat, ps: seq<Placement>, arena: nat, alignment: Positive) {
    && i <= |ts| && Placed(ts, ps, arena, alignment) && TensorsOf(ps) == Residents(ts[..i])
    && arena <= Ceiling(ts[..i], alignment) && (arena == 0 ==> Vacant(ts[..i]))
  }

  method PlaceNext(ts: seq<Tensor>, i: nat, ps: seq<Placement>, arena: U64, alignment: Positive)
    returns (r: Result<(seq<Placement>, U64)>)
    requires i < |ts| && PlacedSoFar(ts, i, ps, arena, alignment) && PowerOfTwo(alignment)
    ensures r.Ok? ==> PlacedSoFar(ts, i + 1, r.value.0, r.value.1, alignment)
    ensures r.Err? ==> ts[i].residency == InvalidFormat || Ceiling(ts, alignment) > U64_MAX
  {
    assert ts[..i + 1][..i] == ts[..i] && ts[..i + 1][i] == ts[i];
    CeilingGrows(ts, alignment, i + 1);
    var t := ts[i];
    if t.residency == InvalidFormat { return Err(RuntimeError); }
    if t.residency != Resident { return Ok((ps, arena)); }
    var placed := PlaceOne(t, i, arena, alignment);
    if placed.Err? { return Err(placed.failure); }
    PlacedGrows(ts, ps, arena, alignment, placed.value.0, placed.value.1);
    r := Ok((ps + [placed.value.0], placed.value.1));
  }

  lemma {:induction false} CeilingGrows(ts: seq<Tensor>, alignment: nat, n: nat)
    requires n <= |ts|
    ensures Ceiling(ts[..n], alignment) <= Ceiling(ts, alignment)
    decreases |ts|
  {
    if n < |ts| {
      CeilingGrows(ts[..|ts| - 1], alignment, n);
      assert ts[..|ts| - 1][..n] == ts[..n];
    } else {
      assert ts[..n] == ts;
    }
  }
}
