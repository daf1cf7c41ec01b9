/** The page cache in front of the SSD-resident tables: a least-recently-used set of pages
    over a bounded pool, whose reads must be indistinguishable from plain file reads. */
module PageCache {
  import opened Contracts
  import opened Faults
  import opened Wire
  import R = ReadRing

  const KEY_SPACE: nat := 0x100_0000_0000_0000
  const PAGE_LIMIT: nat := 0x1_0000_0000_0000_0000
  const MAX_FILES: nat := 256
  const POOL_CHUNK_BYTES: nat := 0x400_0000

  datatype Extent = Extent(file: nat, offset: nat, outputOffset: nat, bytes: nat)

  // ---------------------------------------------------------------------------
  // What a read means without a cache.
  // ---------------------------------------------------------------------------

  predicate ValidExtent(files: seq<seq<Byte>>, e: Extent, outputBytes: nat) {
    && 0 < e.bytes && e.outputOffset + e.bytes <= outputBytes
    && e.file < |files| && e.offset + e.bytes <= |files[e.file]|
  }

  predicate ValidExtents(files: seq<seq<Byte>>, es: seq<Extent>, outputBytes: nat) {
    forall i :: 0 <= i < |es| ==> ValidExtent(files, es[i], outputBytes)
  }

  predicate ValidRequest(files: seq<seq<Byte>>, es: seq<Extent>, outputBytes: nat) {
    ValidExtents(files, es, outputBytes) && (es == [] ==> outputBytes == 0)
  }

  function Splice(buffer: seq<Byte>, at: nat, data: seq<Byte>): (r: seq<Byte>)
    requires at + |data| <= |buffer|
    ensures |r| == |buffer|
    ensures forall p :: 0 <= p < |r| ==> r[p] == if at <= p < at + |data| then data[p - at] else buffer[p]
  {
    buffer[..at] + data + buffer[at + |data|..]
  }

  /** The bytes an extent asks for. */
  function Wanted(files: seq<seq<Byte>>, e: Extent): (data: seq<Byte>)
    requires e.file < |files| && e.offset + e.bytes <= |files[e.file]|
    ensures |data| == e.bytes
  {
    files[e.file][e.offset..e.offset + e.bytes]
  }

  /** Reading every extent straight from its file, in order. */
  function Direct(files: seq<seq<Byte>>, es: seq<Extent>, buffer: seq<Byte>): (r: seq<Byte>)
    requires ValidExtents(files, es, |buffer|)
    ensures |r| == |buffer|
  {
    if es == [] then buffer
    else
      var e := es[|es| - 1];
      Splice(Direct(files, es[..|es| - 1], buffer), e.outputOffset, Wanted(files, e))
  }

  predicate Covers(e: Extent, p: nat) { e.outputOffset <= p < e.outputOffset + e.bytes }

  /** The extent that has the last word about output byte `p`. */
  function LastCover(es: seq<Extent>, p: nat): (r: Option<Extent>)
    ensures r.Some? ==> r.value in es && Covers(r.value, p)
    ensures r.None? ==> forall i :: 0 <= i < |es| ==> !Covers(es[i], p)
  {
    if es == [] then None
    else if Covers(es[|es| - 1], p) then Some(es[|es| - 1])
    else LastCover(es[..|es| - 1], p)
  }

  function ByteAt(files: seq<seq<Byte>>, e: Extent, p: nat): Byte
    requires e.file < |files| && e.offset + e.bytes <= |files[e.file]| && Covers(e, p)
  {
    files[e.file][e.offset + (p - e.outputOffset)]
  }

  /** Byte by byte: the last extent that covers it decides, and uncovered bytes stay. */
  lemma {:induction false} DirectAt(files: seq<seq<Byte>>, es: seq<Extent>, buffer: seq<Byte>, p: nat)
    requires ValidExtents(files, es, |buffer|) && p < |buffer|
    ensures Direct(files, es, buffer)[p] ==
            match LastCover(es, p) case None => buffer[p] case Some(e) => ByteAt(files, e, p)
    decreases |es|
  {
    if es != [] {
      var e := es[|es| - 1];
      DirectAt(files, es[..|es| - 1], buffer, p);
      if Covers(e, p) { assert Wanted(files, e)[p - e.outputOffset] == ByteAt(files, e, p); }
    }
  }

  /** Said of the extents alone: a byte that extent `i` is the last to cover is the file's byte at
      the same distance from the extent's start, and a byte that none covers stays. */
  lemma DirectDelivers(files: seq<seq<Byte>>, es: seq<Extent>, buffer: seq<Byte>, i: nat, p: nat)
    requires ValidExtents(files, es, |buffer|) && i <= |es| && p < |buffer|
    requires forall j :: i < j < |es| ==> !(es[j].outputOffset <= p < es[j].outputOffset + es[j].bytes)
    requires i < |es| ==> es[i].outputOffset <= p < es[i].outputOffset + es[i].bytes
    requires i == |es| ==> forall j :: 0 <= j < |es| ==> !(es[j].outputOffset <= p < es[j].outputOffset + es[j].bytes)
    ensures Direct(files, es, buffer)[p] ==
            if i < |es| then files[es[i].file][es[i].offset + p - es[i].outputOffset] else buffer[p]
  {
    LastCoverIs(es, i, p);
    DirectAt(files, es, buffer, p);
  }

  lemma {:induction false} LastCoverIs(es: seq<Extent>, i: nat, p: nat)
    requires i <= |es| && forall j :: i < j < |es| ==> !Covers(es[j], p)
    requires i < |es| ==> Covers(es[i], p)
    requires i == |es| ==> forall j :: 0 <= j < |es| ==> !Covers(es[j], p)
    ensures LastCover(es, p) == if i < |es| then Some(es[i]) else None
    decreases |es|
  {
    if es != [] && i != |es| - 1 { LastCoverIs(es[..|es| - 1], if i < |es| then i else i - 1, p); }
  }

  lemma {:induction false} DirectConcat(files: seq<seq<Byte>>, a: seq<Extent>, b: seq<Extent>, buffer: seq<Byte>)
    requires ValidExtents(files, a, |buffer|) && ValidExtents(files, b, |buffer|)
    ensures ValidExtents(files, a + b, |buffer|)
    ensures Direct(files, a + b, buffer) == Direct(files, b, Direct(files, a, buffer))
    decreases |b|
  {
    if b == [] {
      assert a + b == a;
    } else {
      var front, last := b[..|b| - 1], b[|b| - 1];
      DirectConcat(files, a, front, buffer);
      assert a + b == (a + front) + [last] && b == front + [last];
      DirectOneMore(files, a + front, last, buffer);
      DirectOneMore(files, front, last, Direct(files, a, buffer));
    }
  }

  lemma SpliceTwice(buffer: seq<Byte>, at: nat, x: seq<Byte>, y: seq<Byte>)
    requires at + |x| + |y| <= |buffer|
    ensures Splice(Splice(buffer, at, x), at + |x|, y) == Splice(buffer, at, x + y)
  {
  }

  /** No two extents write the same output byte. */
  predicate Disjoint(es: seq<Extent>) {
    forall i, j :: 0 <= i < j < |es| ==>
      || es[i].outputOffset + es[i].bytes <= es[j].outputOffset
      || es[j].outputOffset + es[j].bytes <= es[i].outputOffset
  }

  // ---------------------------------------------------------------------------
  // Extents cut at page borders.
  // ---------------------------------------------------------------------------

  /** The part of an extent that lies in one page. */
  function PieceAt(e: Extent, copied: nat, pageBytes: Positive): (piece: Extent)
    requires copied < e.bytes
    ensures 0 < piece.bytes <= e.bytes - copied
    ensures piece.file == e.file && piece.offset == e.offset + copied && piece.outputOffset == e.outputOffset + copied
  {
    var absolute := e.offset + copied;
    Extent(e.file, absolute, e.outputOffset + copied, Min(e.bytes - copied, pageBytes - absolute % pageBytes))
  }

  function Pieces(e: Extent, copied: nat, pageBytes: Positive): seq<Extent>
    requires copied <= e.bytes
    decreases e.bytes - copied
  {
    if copied == e.bytes then []
    else
      var piece := PieceAt(e, copied, pageBytes);
      [piece] + Pieces(e, copied + piece.bytes, pageBytes)
  }

  function Cut(es: seq<Extent>, pageBytes: Positive): seq<Extent> {
    if es == [] then [] else Cut(es[..|es| - 1], pageBytes) + Pieces(es[|es| - 1], 0, pageBytes)
  }

  /** A piece of `e`: inside it on both sides, at the same distance from both starts. */
  predicate PartOf(piece: Extent, e: Extent) {
    && piece.file == e.file && e.offset <= piece.offset && piece.offset + piece.bytes <= e.offset + e.bytes
    && piece.outputOffset - e.outputOffset == piece.offset - e.offset && 0 < piece.bytes
  }

  lemma {:induction false} PiecesAreParts(e: Extent, copied: nat, pageBytes: Positive)
    requires copied <= e.bytes
    ensures forall i :: 0 <= i < |Pieces(e, copied, pageBytes)| ==> PartOf(Pieces(e, copied, pageBytes)[i], e)
    decreases e.bytes - copied
  {
    if copied < e.bytes {
      PiecesAreParts(e, copied + PieceAt(e, copied, pageBytes).bytes, pageBytes);
    }
  }

  lemma {:induction false} CutIsValid(files: seq<seq<Byte>>, es: seq<Extent>, pageBytes: Positive, outputBytes: nat)
    requires ValidExtents(files, es, outputBytes)
    ensures ValidExtents(files, Cut(es, pageBytes), outputBytes)
    ensures forall i ::
              0 <= i < |Cut(es, pageBytes)| ==> exists k :: 0 <= k < |es| && PartOf(Cut(es, pageBytes)[i], es[k])
    decreases |es|
  {
    if es != [] {
      var n := |es| - 1;
      CutIsValid(files, es[..n], pageBytes, outputBytes);
      PiecesAreParts(es[n], 0, pageBytes);
      var front, back := Cut(es[..n], pageBytes), Pieces(es[n], 0, pageBytes);
      forall i | 0 <= i < |front + back|
        ensures ValidExtent(files, (front + back)[i], outputBytes)
        ensures exists k :: 0 <= k < |es| && PartOf((front + back)[i], es[k])
      {
        if i < |front| {
          var k :| 0 <= k < n && PartOf(front[i], es[..n][k]);
          assert PartOf((front + back)[i], es[k]);
        } else {
          assert PartOf((front + back)[i], es[n]);
        }
      }
    }
  }

  /** `pieces` cover `e` from `copied` on without a gap. */
  predicate Chained(pieces: seq<Extent>, e: Extent, copied: nat)
    decreases |pieces|
  {
    if pieces == [] then copied == e.bytes
    else
      var first := pieces[0];
      && copied < e.bytes && 0 < first.bytes <= e.bytes - copied
      && first == Extent(e.file, e.offset + copied, e.outputOffset + copied, first.bytes)
      && Chained(pieces[1..], e, copied + first.bytes)
  }

  lemma {:induction false} PiecesAreChained(e: Extent, copied: nat, pageBytes: Positive)
    requires copied <= e.bytes
    ensures Chained(Pieces(e, copied, pageBytes), e, copied)
    decreases e.bytes - copied
  {
    if copied < e.bytes {
      var piece := PieceAt(e, copied, pageBytes);
      PiecesAreChained(e, copied + piece.bytes, pageBytes);
      assert Pieces(e, copied, pageBytes)[1..] == Pieces(e, copied + piece.bytes, pageBytes);
    }
  }

  /** Reading an extent piece by piece is reading it at once. */
  lemma {:induction false} ChainReads(files: seq<seq<Byte>>, e: Extent, copied: nat, pieces: seq<Extent>,
                                      buffer: seq<Byte>)
    requires ValidExtent(files, e, |buffer|) && copied <= e.bytes && Chained(pieces, e, copied)
    ensures ValidExtents(files, pieces, |buffer|)
    ensures Direct(files, pieces, buffer) ==
            Splice(buffer, e.outputOffset + copied, files[e.file][e.offset + copied..e.offset + e.bytes])
    decreases |pieces|
  {
    if pieces != [] {
      var piece, rest := pieces[0], pieces[1..];
      var first := Splice(buffer, piece.outputOffset, Wanted(files, piece));
      ChainReads(files, e, copied + piece.bytes, rest, buffer);
      ChainReads(files, e, copied + piece.bytes, rest, first);
      PieceThenRest(files, e, copied, piece, rest, buffer);
      assert pieces == [piece] + rest;
    }
  }

  lemma PieceThenRest(files: seq<seq<Byte>>, e: Extent, copied: nat, piece: Extent, rest: seq<Extent>,
                      buffer: seq<Byte>)
    requires ValidExtent(files, e, |buffer|) && 0 < piece.bytes <= e.bytes - copied
    requires ValidExtents(files, rest, |buffer|)
    requires piece == Extent(e.file, e.offset + copied, e.outputOffset + copied, piece.bytes)
    requires var first := Splice(buffer, piece.outputOffset, Wanted(files, piece)); var behind := copied + piece.bytes;
             Direct(files, rest, first)
             == Splice(first, e.outputOffset + behind, files[e.file][e.offset + behind..e.offset + e.bytes])
    ensures ValidExtents(files, [piece] + rest, |buffer|)
    ensures Direct(files, [piece] + rest, buffer) ==
            Splice(buffer, e.outputOffset + copied, files[e.file][e.offset + copied..e.offset + e.bytes])
  {
    OneRead(files, piece, buffer);
    DirectConcat(files, [piece], rest, buffer);
    PieceJoins(files[e.file], buffer, e, copied, piece);
  }

  lemma OneRead(files: seq<seq<Byte>>, e: Extent, buffer: seq<Byte>)
    requires ValidExtent(files, e, |buffer|)
    ensures ValidExtents(files, [e], |buffer|)
    ensures Direct(files, [e], buffer) == Splice(buffer, e.outputOffset, Wanted(files, e))
  {
    assert [e][..0] == [];
  }

  lemma PieceJoins(data: seq<Byte>, buffer: seq<Byte>, e: Extent, copied: nat, piece: Extent)
    requires e.offset + e.bytes <= |data| && e.outputOffset + e.bytes <= |buffer| && copied + piece.bytes <= e.bytes
    requires piece.offset == e.offset + copied && piece.outputOffset == e.outputOffset + copied
    ensures Splice(Splice(buffer, piece.outputOffset, data[piece.offset..piece.offset + piece.bytes]),
                   e.outputOffset + copied + piece.bytes, data[e.offset + copied + piece.bytes..e.offset + e.bytes])
         == Splice(buffer, e.outputOffset + copied, data[e.offset + copied..e.offset + e.bytes])
  {
    var x, y := data[piece.offset..piece.offset + piece.bytes],
                data[e.offset + copied + piece.bytes..e.offset + e.bytes];
    SpliceTwice(buffer, piece.outputOffset, x, y);
    assert x + y == data[e.offset + copied..e.offset + e.bytes];
  }

  lemma {:induction false} CutReads(files: seq<seq<Byte>>, es: seq<Extent>, pageBytes: Positive, buffer: seq<Byte>)
    requires ValidExtents(files, es, |buffer|)
    ensures ValidExtents(files, Cut(es, pageBytes), |buffer|)
    ensures Direct(files, Cut(es, pageBytes), buffer) == Direct(files, es, buffer)
    decreases |es|
  {
    if es != [] {
      var n := |es| - 1;
      CutReads(files, es[..n], pageBytes, buffer);
      PiecesAreChained(es[n], 0, pageBytes);
      LastCutReads(files, es, Cut(es[..n], pageBytes), Pieces(es[n], 0, pageBytes), buffer);
    }
  }

  lemma LastCutReads(files: seq<seq<Byte>>, es: seq<Extent>, front: seq<Extent>, pieces: seq<Extent>, buffer: seq<Byte>)
    requires es != [] && ValidExtents(files, es, |buffer|) && ValidExtents(files, front, |buffer|)
    requires Direct(files, front, buffer) == Direct(files, es[..|es| - 1], buffer) && Chained(pieces, es[|es| - 1], 0)
    ensures ValidExtents(files, front + pieces, |buffer|)
    ensures Direct(files, front + pieces, buffer) == Direct(files, es, buffer)
  {
    var e, before := es[|es| - 1], Direct(files, front, buffer);
    ChainReads(files, e, 0, pieces, before);
    assert Direct(files, pieces, before) == Splice(before, e.outputOffset, Wanted(files, e));
    DirectConcat(files, front, pieces, buffer);
  }

  // ---------------------------------------------------------------------------
  // What the cached read computes: resident pieces at once, missing ones afterwards.
  // ---------------------------------------------------------------------------

  /** Every file number fits the top byte of a key. */
  predicate AllNamed(es: seq<Extent>) { forall k :: 0 <= k < |es| ==> es[k].file < MAX_FILES }

  lemma NamedOneMore(es: seq<Extent>, j: nat)
    requires j < |es| && AllNamed(es[..j]) && es[j].file < MAX_FILES
    ensures AllNamed(es[..j + 1])
  {
    assert es[..j + 1] == es[..j] + [es[j]];
  }

  predicate IsHit(entries: set<nat>, pageBytes: Positive, piece: Extent) {
    && piece.file < MAX_FILES
    && piece.offset / pageBytes < PAGE_LIMIT
    && KeyOf(piece.file, piece.offset / pageBytes) in entries
  }

  lemma KeyDecides(entries: set<nat>, pageBytes: Positive, piece: Extent, page: nat)
    requires piece.file < MAX_FILES && page == piece.offset / pageBytes && page < KEY_SPACE
    ensures IsHit(entries, pageBytes, piece) <==> KeyOf(piece.file, page) in entries
  {
  }

  /** The pieces that are resident (`want`), or that are not, in order. */
  function Select(entries: set<nat>, pageBytes: Positive, pieces: seq<Extent>, want: bool): (r: seq<Extent>)
    ensures forall i :: 0 <= i < |r| ==> r[i] in pieces && IsHit(entries, pageBytes, r[i]) == want
  {
    if pieces == [] then []
    else
      var n := |pieces| - 1;
      Select(entries, pageBytes, pieces[..n], want)
        + if IsHit(entries, pageBytes, pieces[n]) == want then [pieces[n]] else []
  }

  /** The order in which the copies are carried out. */
  function Reordered(entries: set<nat>, pageBytes: Positive, pieces: seq<Extent>): seq<Extent> {
    Select(entries, pageBytes, pieces, true) + Select(entries, pageBytes, pieces, false)
  }

  lemma SelectIsValid(files: seq<seq<Byte>>, entries: set<nat>, pageBytes: Positive, pieces: seq<Extent>, want: bool,
                      outputBytes: nat)
    requires ValidExtents(files, pieces, outputBytes)
    ensures ValidExtents(files, Select(entries, pageBytes, pieces, want), outputBytes)
  {
  }

  /** What a cached read of `es` leaves in the buffer, given what is resident. */
  function Cached(files: seq<seq<Byte>>, entries: set<nat>, pageBytes: Positive, es: seq<Extent>,
                  buffer: seq<Byte>): seq<Byte>
    requires ValidExtents(files, es, |buffer|)
  {
    var pieces := Cut(es, pageBytes);
    CutIsValid(files, es, pageBytes, |buffer|);
    SelectIsValid(files, entries, pageBytes, pieces, true, |buffer|);
    SelectIsValid(files, entries, pageBytes, pieces, false, |buffer|);
    Direct(files, Reordered(entries, pageBytes, pieces), buffer)
  }

  lemma {:induction false} LastCoverConcat(a: seq<Extent>, b: seq<Extent>, p: nat)
    ensures LastCover(a + b, p) == if LastCover(b, p).Some? then LastCover(b, p) else LastCover(a, p)
    decreases |b|
  {
    if b == [] {
      assert a + b == a;
    } else {
      assert (a + b)[..|a + b| - 1] == a + b[..|b| - 1];
      LastCoverConcat(a, b[..|b| - 1], p);
    }
  }

  /** Where no missing piece has a say, the resident ones decide as all do. */
  lemma {:induction false} HitsDecide(entries: set<nat>, pageBytes: Positive, pieces: seq<Extent>, p: nat)
    requires LastCover(Select(entries, pageBytes, pieces, false), p).None?
    ensures LastCover(Select(entries, pageBytes, pieces, true), p) == LastCover(pieces, p)
    decreases |pieces|
  {
    if pieces != [] {
      var n := |pieces| - 1;
      var front, x := pieces[..n], pieces[n];
      var hit := IsHit(entries, pageBytes, x);
      LastCoverConcat(Select(entries, pageBytes, front, true), if hit then [x] else [], p);
      LastCoverConcat(Select(entries, pageBytes, front, false), if hit then [] else [x], p);
      assert [x][..0] == [] && (Covers(x, p) ==> LastCover([x], p) == Some(x));
      if !Covers(x, p) || hit { HitsDecide(entries, pageBytes, front, p); }
    }
  }

  /** The last missing piece over a byte says the same as the last piece over it. */
  predicate Agrees(files: seq<seq<Byte>>, entries: set<nat>, pageBytes: Positive, pieces: seq<Extent>, p: nat,
                   outputBytes: nat)
    requires ValidExtents(files, pieces, outputBytes)
  {
    var missing := LastCover(Select(entries, pageBytes, pieces, false), p);
    var last := LastCover(pieces, p);
    missing.Some? && last.Some? ==> ByteAt(files, missing.value, p) == ByteAt(files, last.value, p)
  }

  lemma CachedAt(files: seq<seq<Byte>>, entries: set<nat>, pageBytes: Positive, es: seq<Extent>, buffer: seq<Byte>,
                 p: nat)
    requires ValidExtents(files, es, |buffer|) && p < |buffer| && ValidExtents(files, Cut(es, pageBytes), |buffer|)
    ensures Cached(files, entries, pageBytes, es, buffer)[p] == Direct(files, es, buffer)[p] <==>
            Agrees(files, entries, pageBytes, Cut(es, pageBytes), p, |buffer|)
  {
    var pieces := Cut(es, pageBytes);
    var hits, missing := Select(entries, pageBytes, pieces, true), Select(entries, pageBytes, pieces, false);
    CutReads(files, es, pageBytes, buffer);
    SelectIsValid(files, entries, pageBytes, pieces, true, |buffer|);
    SelectIsValid(files, entries, pageBytes, pieces, false, |buffer|);
    DirectAt(files, pieces, buffer, p);
    DirectAt(files, hits + missing, buffer, p);
    LastCoverConcat(hits, missing, p);
    if LastCover(missing, p).None? {
      HitsDecide(entries, pageBytes, pieces, p);
    } else {
      var e := LastCover(missing, p).value;
      assert e in pieces;
      assert LastCover(pieces, p).Some?;
    }
  }

  /** The exact condition: a cached read equals direct reads if and only if at every byte that
      a missing piece covers, the last such piece and the last piece of all agree. */
  lemma CachedExactlyIfAgreeing(files: seq<seq<Byte>>, entries: set<nat>, pageBytes: Positive, es: seq<Extent>,
                                buffer: seq<Byte>)
    requires ValidExtents(files, es, |buffer|)
    ensures ValidExtents(files, Cut(es, pageBytes), |buffer|)
    ensures Cached(files, entries, pageBytes, es, buffer) == Direct(files, es, buffer) <==>
            forall p: nat :: p < |buffer| ==> Agrees(files, entries, pageBytes, Cut(es, pageBytes), p, |buffer|)
  {
    CutIsValid(files, es, pageBytes, |buffer|);
    var cached, direct := Cached(files, entries, pageBytes, es, buffer), Direct(files, es, buffer);
    if cached == direct {
      forall p: nat | p < |buffer| ensures Agrees(files, entries, pageBytes, Cut(es, pageBytes), p, |buffer|) {
        CachedAt(files, entries, pageBytes, es, buffer, p);
      }
    } else {
      var p :| 0 <= p < |buffer| && cached[p] != direct[p];
      CachedAt(files, entries, pageBytes, es, buffer, p);
    }
  }

  /** Extents that do not overlap always agree, whatever is resident. */
  lemma CachedIsDirect(files: seq<seq<Byte>>, entries: set<nat>, pageBytes: Positive, es: seq<Extent>,
                       buffer: seq<Byte>)
    requires ValidExtents(files, es, |buffer|) && Disjoint(es)
    ensures Cached(files, entries, pageBytes, es, buffer) == Direct(files, es, buffer)
  {
    var pieces := Cut(es, pageBytes);
    CutIsValid(files, es, pageBytes, |buffer|);
    forall p: nat | p < |buffer| ensures Agrees(files, entries, pageBytes, pieces, p, |buffer|) {
      var missing, last := LastCover(Select(entries, pageBytes, pieces, false), p), LastCover(pieces, p);
      if missing.Some? && last.Some? { SamePieceBytes(files, es, pageBytes, missing.value, last.value, p, |buffer|); }
    }
    CachedExactlyIfAgreeing(files, entries, pageBytes, es, buffer);
  }

  lemma SamePieceBytes(files: seq<seq<Byte>>, es: seq<Extent>, pageBytes: Positive, a: Extent, b: Extent, p: nat,
                       outputBytes: nat)
    requires ValidExtents(files, es, outputBytes) && Disjoint(es)
    requires a in Cut(es, pageBytes) && b in Cut(es, pageBytes) && Covers(a, p) && Covers(b, p)
    ensures ValidExtent(files, a, outputBytes) && ValidExtent(files, b, outputBytes)
    ensures ByteAt(files, a, p) == ByteAt(files, b, p)
  {
    CutIsValid(files, es, pageBytes, outputBytes);
    var j :| 0 <= j < |es| && PartOf(a, es[j]);
    var k :| 0 <= k < |es| && PartOf(b, es[k]);
    PartByte(files, es[j], a, p, outputBytes);
    PartByte(files, es[k], b, p, outputBytes);
    OneCover(es, j, k, p);
  }

  lemma PartByte(files: seq<seq<Byte>>, e: Extent, a: Extent, p: nat, outputBytes: nat)
    requires ValidExtent(files, e, outputBytes) && ValidExtent(files, a, outputBytes) && PartOf(a, e) && Covers(a, p)
    ensures Covers(e, p) && ByteAt(files, a, p) == ByteAt(files, e, p)
  {
  }

  lemma OneCover(es: seq<Extent>, j: nat, k: nat, p: nat)
    requires Disjoint(es) && j < |es| && k < |es| && Covers(es[j], p) && Covers(es[k], p)
    ensures j == k
  {
  }

  /** Overlapping ones may not: where a resident page lies over a byte that an earlier extent
      has to fetch, the fetched byte arrives last. */
  lemma OverlapDiffers(files: seq<seq<Byte>>, entries: set<nat>, pageBytes: Positive, a: Extent, b: Extent)
    requires ValidExtent(files, a, 1) && ValidExtent(files, b, 1) && !IsHit(entries, pageBytes, a)
    requires IsHit(entries, pageBytes, b)
    ensures ValidExtents(files, [a, b], 1)
    ensures Direct(files, [a, b], [0]) == Wanted(files, b)
    ensures Cached(files, entries, pageBytes, [a, b], [0]) == Wanted(files, a)
  {
    LastWins(files, a, b);
    LastWins(files, b, a);
    CutOfBytes(pageBytes, a, b);
    OverlapReorders(entries, pageBytes, a, b);
  }

  /** Such a case in any file with different bytes `x` and `y` on different pages, of which only
      the one with `y` is resident. */
  lemma OverlapCase(files: seq<seq<Byte>>, f: nat, pageBytes: Positive, x: nat, y: nat, page: nat)
    requires f < |files| && f < MAX_FILES && x < |files[f]| && y < |files[f]| && files[f][x] != files[f][y]
    requires x / pageBytes < KEY_SPACE && y / pageBytes == page < KEY_SPACE && x / pageBytes != page
    ensures var es := [Extent(f, x, 0, 1), Extent(f, y, 0, 1)];
            && ValidExtents(files, es, 1)
            && Cached(files, {KeyOf(f, page)}, pageBytes, es, [0]) != Direct(files, es, [0])
  {
    var a, b := Extent(f, x, 0, 1), Extent(f, y, 0, 1);
    OneResident(pageBytes, a, b, page);
    OverlapDiffers(files, {KeyOf(f, page)}, pageBytes, a, b);
    assert Wanted(files, a)[0] == files[f][x] && Wanted(files, b)[0] == files[f][y];
  }

  lemma OneResident(pageBytes: Positive, a: Extent, b: Extent, page: nat)
    requires a.file == b.file < MAX_FILES && a.offset / pageBytes != page
    requires a.offset / pageBytes < KEY_SPACE && b.offset / pageBytes == page < KEY_SPACE
    ensures !IsHit({KeyOf(b.file, page)}, pageBytes, a) && IsHit({KeyOf(b.file, page)}, pageBytes, b)
  {
    KeysAreInjective(a.file, a.offset / pageBytes, b.file, page);
  }

  lemma LastWins(files: seq<seq<Byte>>, a: Extent, b: Extent)
    requires ValidExtent(files, a, 1) && ValidExtent(files, b, 1)
    ensures ValidExtents(files, [a, b], 1) && Direct(files, [a, b], [0]) == Wanted(files, b)
  {
    assert [a, b][..1] == [a];
  }

  lemma CutOfBytes(pageBytes: Positive, a: Extent, b: Extent)
    requires a.bytes == 1 && b.bytes == 1
    ensures Cut([a, b], pageBytes) == [a, b]
  {
    assert [a, b][..1] == [a] && [a][..0] == [];
    assert Pieces(a, 0, pageBytes) == [a] + Pieces(a, 1, pageBytes);
    assert Pieces(b, 0, pageBytes) == [b] + Pieces(b, 1, pageBytes);
    assert Cut([a], pageBytes) == [a];
  }

  lemma OverlapReorders(entries: set<nat>, pageBytes: Positive, a: Extent, b: Extent)
    requires !IsHit(entries, pageBytes, a) && IsHit(entries, pageBytes, b)
    ensures Reordered(entries, pageBytes, [a, b]) == [b, a]
  {
    assert [a, b][..1] == [a] && [a][..0] == [];
    assert Select(entries, pageBytes, [a], true) == [] && Select(entries, pageBytes, [a], false) == [a];
  }

  // ---------------------------------------------------------------------------
  // Pages and their keys.
  // ---------------------------------------------------------------------------

  /** Bitwise or. */
  function Or(a: nat, b: nat): nat {
    if a == 0 && b == 0 then 0
    else (if a % 2 == 1 || b % 2 == 1 then 1 else 0) + 2 * Or(a / 2, b / 2)
  }

  lemma {:induction false} OrZero(a: nat)
    ensures Or(a, 0) == a
  {
    if a > 0 { OrZero(a / 2); }
  }

  lemma OrOne(a: nat)
    ensures Or(a, 1) == if a % 2 == 0 then a + 1 else a
  {
    OrZero(a / 2);
  }

  /** The file number in the top byte, or-ed with the page number. */
  function KeyOf(file: nat, page: nat): nat
    requires file < MAX_FILES && page < PAGE_LIMIT
  {
    Or(file, page / KEY_SPACE) * KEY_SPACE + page % KEY_SPACE
  }

  /** While page numbers stay below 2^56 a key names one page of one file. */
  lemma KeysAreInjective(f1: nat, p1: nat, f2: nat, p2: nat)
    requires f1 < MAX_FILES && f2 < MAX_FILES && p1 < KEY_SPACE && p2 < KEY_SPACE
    ensures KeyOf(f1, p1) == KeyOf(f2, p2) <==> f1 == f2 && p1 == p2
    ensures KeyOf(f1, p1) / KEY_SPACE == f1 && KeyOf(f1, p1) % KEY_SPACE == p1
  {
    OrZero(f1);
    OrZero(f2);
  }

  /** The first page beyond shares its key with the first page of the next file if the file
      number is even, and with the first page of the same file if it is odd. */
  lemma LargePagesCollide(f: nat, p: nat)
    requires f < MAX_FILES && KEY_SPACE <= p < 2 * KEY_SPACE
    ensures if f % 2 == 0 then f + 1 < MAX_FILES && KeyOf(f, p) == KeyOf(f + 1, p - KEY_SPACE)
            else KeyOf(f, p) == KeyOf(f, p - KEY_SPACE)
  {
    OrOne(f);
    OrZero(f);
    OrZero(f + 1);
    assert p / KEY_SPACE == 1 && p % KEY_SPACE == p - KEY_SPACE;
  }

  /** Keys tell all pages below `n` of all files apart exactly as long as n is at most 2^56. */
  lemma KeysDistinctExactlyBelow(n: nat)
    requires n <= PAGE_LIMIT
    ensures n <= KEY_SPACE <==>
            forall f1: nat, p1: nat, f2: nat, p2: nat ::
              f1 < MAX_FILES && f2 < MAX_FILES && p1 < n && p2 < n && KeyOf(f1, p1) == KeyOf(f2, p2) ==>
                f1 == f2 && p1 == p2
  {
    if n <= KEY_SPACE {
      forall f1: nat, p1: nat, f2: nat, p2: nat |
        f1 < MAX_FILES && f2 < MAX_FILES && p1 < n && p2 < n && KeyOf(f1, p1) == KeyOf(f2, p2)
        ensures f1 == f2 && p1 == p2
      {
        KeysAreInjective(f1, p1, f2, p2);
      }
    } else {
      LargePagesCollide(1, KEY_SPACE);
      assert KeyOf(1, KEY_SPACE) == KeyOf(1, 0);
    }
  }

  /** The bytes of a file that page `n` covers. */
  function PageSlice(data: seq<Byte>, n: nat, pageBytes: Positive): (r: seq<Byte>)
    ensures |r| <= pageBytes
  {
    var start := n * pageBytes;
    if start >= |data| then [] else data[start..start + Min(pageBytes, |data| - start)]
  }

  /** What each key stands for. */
  ghost function Images(files: seq<seq<Byte>>, pageBytes: Positive): imap<nat, seq<Byte>> {
    imap key: nat | key / KEY_SPACE < |files| :: PageSlice(files[key / KEY_SPACE], key % KEY_SPACE, pageBytes)
  }

  lemma ImageOfPage(files: seq<seq<Byte>>, pageBytes: Positive, file: nat, page: nat)
    requires file < |files| && file < MAX_FILES && page < KEY_SPACE
    ensures KeyOf(file, page) in Images(files, pageBytes)
    ensures Images(files, pageBytes)[KeyOf(file, page)] == PageSlice(files[file], page, pageBytes)
  {
    KeysAreInjective(file, page, file, page);
  }

  /** A page buffer carries the file's bytes for a key, then padding. */
  ghost predicate Carries(image: imap<nat, seq<Byte>>, pageBytes: Positive, key: nat, page: seq<Byte>) {
    |page| == pageBytes && key in image && image[key] <= page
  }

  function Without(s: seq<nat>, key: nat): seq<nat> {
    if s == [] then [] else if s[0] == key then s[1..] else [s[0]] + Without(s[1..], key)
  }

  lemma {:induction false} WithoutFacts(s: seq<nat>, key: nat)
    requires Distinct(s) && key in s
    ensures var r := Without(s, key);
            |r| == |s| - 1 && Distinct(r) && (forall k :: k in r <==> k in s && k != key)
  {
    if s[0] != key {
      assert Distinct(s[1..]) && key in s[1..];
      WithoutFacts(s[1..], key);
      var r := Without(s[1..], key);
      assert s[0] !in s[1..];
    } else {
      assert key !in s[1..];
    }
  }

  // ---------------------------------------------------------------------------
  // The cache's invariant, piece by piece.
  // ---------------------------------------------------------------------------

  /** The recency list and the page map name the same keys. */
  ghost predicate Linked(lru: seq<nat>, entries: map<nat, nat>) {
    && Distinct(lru) && |lru| == |entries|
    && (forall k :: k in lru <==> k in entries)
  }

  /** Each of the `total` allocated pages is free or belongs to exactly one key. */
  ghost predicate Pooled(free: seq<nat>, entries: map<nat, nat>, total: nat) {
    && |free| + |entries| == total
    && Distinct(free)
    && (forall i :: 0 <= i < |free| ==> free[i] < total)
    && (forall k :: k in entries ==> entries[k] < total && entries[k] !in free)
    && (forall j, k :: j in entries && k in entries && j != k ==> entries[j] != entries[k])
  }

  /** Every resident page carries the bytes its key stands for. */
  ghost predicate Stored(image: imap<nat, seq<Byte>>, pageBytes: Positive, entries: map<nat, nat>,
                         pages: seq<seq<Byte>>) {
    && (forall i :: 0 <= i < |pages| ==> |pages[i]| == pageBytes)
    && (forall k :: k in entries ==> entries[k] < |pages| && Carries(image, pageBytes, k, pages[entries[k]]))
  }

  function Range(first: nat, count: nat): (r: seq<nat>)
    ensures |r| == count && forall i :: 0 <= i < count ==> r[i] == first + i
  {
    seq(count, i => first + i)
  }

  lemma GrowPooled(entries: map<nat, nat>, total: nat, count: nat)
    requires Pooled([], entries, total)
    ensures Pooled(Range(total, count), entries, total + count)
  {
  }

  lemma StoredMore(image: imap<nat, seq<Byte>>, pageBytes: Positive, entries: map<nat, nat>, pages: seq<seq<Byte>>,
                   more: seq<seq<Byte>>)
    requires Stored(image, pageBytes, entries, pages) && forall i :: 0 <= i < |more| ==> |more[i]| == pageBytes
    ensures Stored(image, pageBytes, entries, pages + more)
  {
  }

  lemma TakeFree(free: seq<nat>, entries: map<nat, nat>, total: nat)
    requires Pooled(free, entries, total) && free != []
    ensures Pooled([free[|free| - 1]] + free[..|free| - 1], entries, total)
  {
    var moved := [free[|free| - 1]] + free[..|free| - 1];
    assert forall p :: p in moved ==> p in free;
  }

  lemma EvictLinked(lru: seq<nat>, entries: map<nat, nat>)
    requires Linked(lru, entries) && lru != []
    ensures Linked(lru[..|lru| - 1], entries - {lru[|lru| - 1]})
  {
    var n, victim := |lru| - 1, lru[|lru| - 1];
    assert victim in lru;
    assert (entries - {victim}).Keys == entries.Keys - {victim};
    PrefixMembers(lru, n);
  }

  lemma PrefixMembers(l: seq<nat>, n: nat)
    requires Distinct(l) && |l| == n + 1
    ensures Distinct(l[..n]) && forall k :: k in l[..n] <==> k in l && k != l[n]
  {
    assert l == l[..n] + [l[n]];
  }

  lemma EvictPooled(free: seq<nat>, entries: map<nat, nat>, total: nat, victim: nat)
    requires Pooled(free, entries, total) && victim in entries
    ensures Pooled([entries[victim]] + free, entries - {victim}, total)
  {
    assert (entries - {victim}).Keys == entries.Keys - {victim};
  }

  lemma InstallLinked(lru: seq<nat>, entries: map<nat, nat>, key: nat, page: nat)
    requires Linked(lru, entries) && key !in entries
    ensures Linked([key] + lru, entries[key := page])
  {
    assert entries[key := page].Keys == entries.Keys + {key};
  }

  lemma InstallPooled(free: seq<nat>, entries: map<nat, nat>, total: nat, key: nat, page: nat)
    requires Pooled([page] + free, entries, total) && key !in entries
    ensures Pooled(free, entries[key := page], total) && page < total && forall k :: k in entries ==> entries[k] != page
  {
    assert entries[key := page].Keys == entries.Keys + {key};
    var lent := [page] + free;
    assert lent[0] == page && forall i :: 0 <= i < |free| ==> lent[i + 1] == free[i];
  }

  lemma InstallStored(image: imap<nat, seq<Byte>>, pageBytes: Positive, entries: map<nat, nat>, pages: seq<seq<Byte>>,
                      key: nat, page: nat, data: seq<Byte>)
    requires Stored(image, pageBytes, entries, pages) && Carries(image, pageBytes, key, data)
    requires page < |pages| && forall k :: k in entries ==> entries[k] != page
    ensures Stored(image, pageBytes, entries[key := page], pages[page := data])
  {
  }

  // ---------------------------------------------------------------------------
  // A read in progress.
  // ---------------------------------------------------------------------------

  /** A page to fetch, and a copy out of it that waits for the fetch. */
  datatype PageLoad = PageLoad(key: nat, file: nat, page: nat)
  datatype PendingCopy = PendingCopy(load: nat, inPage: nat, outputOffset: nat, bytes: nat)

  datatype Plan = Plan(output: seq<Byte>, loads: seq<PageLoad>, pending: seq<PendingCopy>, loadByKey: map<nat, nat>)

  predicate LoadFits(files: seq<seq<Byte>>, pageBytes: Positive, load: PageLoad) {
    && load.file < |files| && load.file < MAX_FILES && load.page < KEY_SPACE && load.key == KeyOf(load.file, load.page)
    && load.page * pageBytes < |files[load.file]|
  }

  /** Every key is queued at most once, and only if it is not resident. */
  ghost predicate LoadsFit(files: seq<seq<Byte>>, pageBytes: Positive, entries: set<nat>, loads: seq<PageLoad>,
                           loadByKey: map<nat, nat>) {
    && (forall i :: 0 <= i < |loads| ==>
          && LoadFits(files, pageBytes, loads[i]) && loads[i].key !in entries
          && loads[i].key in loadByKey && loadByKey[loads[i].key] == i)
    && (forall k :: k in loadByKey ==> loadByKey[k] < |loads| && loads[loadByKey[k]].key == k)
  }

  /** The piece lies in one page of a file whose pages have keys. */
  predicate Paged(files: seq<seq<Byte>>, pageBytes: Positive, piece: Extent, outputBytes: nat) {
    && ValidExtent(files, piece, outputBytes) && piece.file < MAX_FILES && |files[piece.file]| <= KEY_SPACE * pageBytes
    && piece.offset % pageBytes + piece.bytes <= pageBytes
  }

  /** The copy will bring the piece. */
  predicate Awaits(pageBytes: Positive, loads: seq<PageLoad>, c: PendingCopy, piece: Extent) {
    && c.load < |loads| && loads[c.load].file == piece.file && loads[c.load].page == piece.offset / pageBytes
    && c.inPage == piece.offset % pageBytes && c.outputOffset == piece.outputOffset && c.bytes == piece.bytes
  }

  ghost predicate AllAwaited(pageBytes: Positive, loads: seq<PageLoad>, pending: seq<PendingCopy>,
                             pieces: seq<Extent>) {
    |pending| == |pieces| && forall i :: 0 <= i < |pending| ==> Awaits(pageBytes, loads, pending[i], pieces[i])
  }

  /** After planning `done`: resident pieces are in the output, each of the others waits for a
      queued page. */
  ghost predicate PlanFits(files: seq<seq<Byte>>, pageBytes: Positive, entries: set<nat>, plan: Plan,
                           done: seq<Extent>, buffer: seq<Byte>) {
    && ValidExtents(files, done, |buffer|)
    && ValidExtents(files, Select(entries, pageBytes, done, true), |buffer|)
    && LoadsFit(files, pageBytes, entries, plan.loads, plan.loadByKey)
    && AllAwaited(pageBytes, plan.loads, plan.pending, Select(entries, pageBytes, done, false))
    && plan.output == Direct(files, Select(entries, pageBytes, done, true), buffer)
  }

  lemma SliceOfSlice(s: seq<Byte>, a: nat, b: nat, c: nat, d: nat)
    requires a <= b <= |s| && c <= d <= b - a
    ensures s[a..b][c..d] == s[a + c..a + d]
  {
    var inner := s[a..b];
    assert forall i :: 0 <= i < d - c ==> inner[c..d][i] == inner[c + i];
  }

  lemma PageArithmetic(offset: nat, bytes: nat, pageBytes: Positive, size: nat)
    requires 0 < bytes && offset + bytes <= size <= KEY_SPACE * pageBytes && offset % pageBytes + bytes <= pageBytes
    ensures var page, inPage := offset / pageBytes, offset % pageBytes;
            && page * pageBytes + inPage == offset && 0 <= page < KEY_SPACE && page * pageBytes < size
            && inPage + bytes <= Min(pageBytes, size - page * pageBytes)
  {
    var page, inPage := offset / pageBytes, offset % pageBytes;
    assert page * pageBytes + inPage == offset;
    assert page >= KEY_SPACE ==> page * pageBytes >= KEY_SPACE * pageBytes;
  }

  /** A piece is a part of its page's share of the file. */
  lemma PieceFits(files: seq<seq<Byte>>, pageBytes: Positive, piece: Extent, outputBytes: nat)
    requires Paged(files, pageBytes, piece, outputBytes)
    ensures var page, inPage := piece.offset / pageBytes, piece.offset % pageBytes;
            && 0 <= page < KEY_SPACE && page * pageBytes < |files[piece.file]|
            && var slice := PageSlice(files[piece.file], page, pageBytes);
               inPage + piece.bytes <= |slice| && slice[inPage..inPage + piece.bytes] == Wanted(files, piece)
  {
    var data := files[piece.file];
    PageArithmetic(piece.offset, piece.bytes, pageBytes, |data|);
    var page, inPage := piece.offset / pageBytes, piece.offset % pageBytes;
    var start := page * pageBytes;
    SliceOfSlice(data, start, start + Min(pageBytes, |data| - start), inPage, inPage + piece.bytes);
  }

  /** What is planned and what is left of `e` make `all`. */
  ghost predicate Remaining(planned: seq<Extent>, e: Extent, copied: nat, pageBytes: Positive, all: seq<Extent>) {
    copied <= e.bytes && planned + Pieces(e, copied, pageBytes) == all
  }

  lemma PieceIsNext(files: seq<seq<Byte>>, e: Extent, copied: nat, pageBytes: Positive, planned: seq<Extent>,
                    all: seq<Extent>, outputBytes: nat)
    requires ValidExtent(files, e, outputBytes) && copied < e.bytes && Remaining(planned, e, copied, pageBytes, all)
    requires e.file < MAX_FILES && |files[e.file]| <= KEY_SPACE * pageBytes
    ensures var piece := PieceAt(e, copied, pageBytes);
            && Paged(files, pageBytes, piece, outputBytes)
            && Remaining(planned + [piece], e, copied + piece.bytes, pageBytes, all)
  {
    var piece := PieceAt(e, copied, pageBytes);
    var rest := Pieces(e, copied + piece.bytes, pageBytes);
    assert planned + ([piece] + rest) == planned + [piece] + rest;
  }

  lemma SameInside(slice: seq<Byte>, page: seq<Byte>, at: nat, n: nat)
    requires slice <= page && at + n <= |slice|
    ensures at + n <= |page| && page[at..at + n] == slice[at..at + n]
  {
  }

  lemma SelectOneMore(entries: set<nat>, pageBytes: Positive, done: seq<Extent>, piece: Extent, want: bool)
    ensures Select(entries, pageBytes, done + [piece], want) ==
            Select(entries, pageBytes, done, want) + if IsHit(entries, pageBytes, piece) == want then [piece] else []
  {
    assert (done + [piece])[..|done|] == done;
  }

  lemma DirectOneMore(files: seq<seq<Byte>>, es: seq<Extent>, e: Extent, buffer: seq<Byte>)
    requires ValidExtents(files, es, |buffer|) && ValidExtent(files, e, |buffer|)
    ensures ValidExtents(files, es + [e], |buffer|)
    ensures Direct(files, es + [e], buffer) == Splice(Direct(files, es, buffer), e.outputOffset, Wanted(files, e))
  {
    assert (es + [e])[..|es|] == es;
  }

  lemma DirectUpTo(files: seq<seq<Byte>>, hits: seq<Extent>, missing: seq<Extent>, k: nat, buffer: seq<Byte>)
    requires k < |missing| && ValidExtents(files, hits + missing[..k], |buffer|)
    requires ValidExtent(files, missing[k], |buffer|)
    ensures ValidExtents(files, hits + missing[..k + 1], |buffer|)
    ensures Direct(files, hits + missing[..k + 1], buffer) ==
            Splice(Direct(files, hits + missing[..k], buffer), missing[k].outputOffset, Wanted(files, missing[k]))
  {
    assert hits + missing[..k] + [missing[k]] == hits + missing[..k + 1];
    DirectOneMore(files, hits + missing[..k], missing[k], buffer);
  }

  lemma EmptyPlanFits(files: seq<seq<Byte>>, pageBytes: Positive, entries: set<nat>, buffer: seq<Byte>)
    ensures PlanFits(files, pageBytes, entries, Plan(buffer, [], [], map[]), [], buffer)
  {
  }

  /** A resident piece is copied at once. */
  lemma HitFits(files: seq<seq<Byte>>, pageBytes: Positive, entries: set<nat>, plan: Plan, done: seq<Extent>,
                buffer: seq<Byte>, piece: Extent)
    requires PlanFits(files, pageBytes, entries, plan, done, buffer) && ValidExtent(files, piece, |buffer|)
    requires IsHit(entries, pageBytes, piece)
    ensures PlanFits(files, pageBytes, entries,
                      plan.(output := Splice(plan.output, piece.outputOffset, Wanted(files, piece))),
                      done + [piece], buffer)
  {
    SelectOneMore(entries, pageBytes, done, piece, true);
    SelectOneMore(entries, pageBytes, done, piece, false);
    DirectOneMore(files, Select(entries, pageBytes, done, true), piece, buffer);
  }

  /** Queues a page unless it is queued already. */
  function Queue(plan: Plan, load: PageLoad): Plan {
    if load.key in plan.loadByKey then plan
    else plan.(loads := plan.loads + [load], loadByKey := plan.loadByKey[load.key := |plan.loads|])
  }

  lemma QueueFits(files: seq<seq<Byte>>, pageBytes: Positive, entries: set<nat>, plan: Plan, load: PageLoad)
    requires LoadsFit(files, pageBytes, entries, plan.loads, plan.loadByKey) && LoadFits(files, pageBytes, load)
    requires load.key !in entries
    ensures var next := Queue(plan, load);
            && LoadsFit(files, pageBytes, entries, next.loads, next.loadByKey) && plan.loads <= next.loads
            && load.key in next.loadByKey && next.loadByKey[load.key] < |next.loads|
            && next.loads[next.loadByKey[load.key]] == load
  {
    if load.key in plan.loadByKey {
      var found := plan.loads[plan.loadByKey[load.key]];
      KeysAreInjective(found.file, found.page, load.file, load.page);
    } else {
      forall i | 0 <= i < |plan.loads| ensures plan.loads[i].key != load.key { }
    }
  }

  /** Adds a copy that waits for a page. */
  function Waiting(plan: Plan, load: PageLoad, piece: Extent, inPage: nat): Plan {
    var queued := Queue(plan, load);
    queued.(pending := queued.pending + [PendingCopy(queued.loadByKey[load.key], inPage, piece.outputOffset,
                                                     piece.bytes)])
  }

  /** A missing piece waits for its page. */
  lemma MissFits(files: seq<seq<Byte>>, pageBytes: Positive, entries: set<nat>, plan: Plan, done: seq<Extent>,
                 buffer: seq<Byte>,
                 piece: Extent, load: PageLoad, inPage: nat)
    requires PlanFits(files, pageBytes, entries, plan, done, buffer) && ValidExtent(files, piece, |buffer|)
    requires !IsHit(entries, pageBytes, piece) && LoadFits(files, pageBytes, load) && load.key !in entries
    requires load.file == piece.file && load.page == piece.offset / pageBytes && inPage == piece.offset % pageBytes
    ensures PlanFits(files, pageBytes, entries, Waiting(plan, load, piece, inPage), done + [piece], buffer)
  {
    SelectOneMore(entries, pageBytes, done, piece, true);
    SelectOneMore(entries, pageBytes, done, piece, false);
    assert Select(entries, pageBytes, done + [piece], true) == Select(entries, pageBytes, done, true);
    QueueFits(files, pageBytes, entries, plan, load);
    var queued := Queue(plan, load);
    var c := PendingCopy(queued.loadByKey[load.key], inPage, piece.outputOffset, piece.bytes);
    AwaitsOneMore(pageBytes, plan.loads, queued.loads, plan.pending, Select(entries, pageBytes, done, false), piece, c);
  }

  lemma AwaitsOneMore(pageBytes: Positive, loads: seq<PageLoad>, more: seq<PageLoad>, pending: seq<PendingCopy>,
                      pieces: seq<Extent>,
                      piece: Extent, c: PendingCopy)
    requires AllAwaited(pageBytes, loads, pending, pieces) && loads <= more && Awaits(pageBytes, more, c, piece)
    ensures AllAwaited(pageBytes, more, pending + [c], pieces + [piece])
  {
    forall i | 0 <= i < |pending| ensures Awaits(pageBytes, more, pending[i], pieces[i]) {
      assert Awaits(pageBytes, loads, pending[i], pieces[i]);
    }
  }

  // ---------------------------------------------------------------------------
  // Recency.
  // ---------------------------------------------------------------------------

  /** The recency list after a page is made resident: in front, the oldest gone if it was full. */
  function Pushed(lru: seq<nat>, key: nat, capacity: nat): seq<nat> {
    ([key] + lru)[..Min(capacity, |lru| + 1)]
  }

  lemma PushedCases(lru: seq<nat>, key: nat, capacity: nat)
    requires |lru| <= capacity && 0 < capacity
    ensures Pushed(lru, key, capacity) == [key] + if |lru| < capacity then lru else lru[..|lru| - 1]
    ensures forall x :: x in Pushed(lru, key, capacity) ==> x == key || x in lru
  {
  }

  function PushedAll(lru: seq<nat>, loads: seq<PageLoad>, capacity: nat): seq<nat> {
    if loads == [] then lru else Pushed(PushedAll(lru, loads[..|loads| - 1], capacity), loads[|loads| - 1].key,
                                        capacity)
  }

  function NewestFirst(loads: seq<PageLoad>): (r: seq<nat>)
    ensures |r| == |loads|
  {
    if loads == [] then [] else [loads[|loads| - 1].key] + NewestFirst(loads[..|loads| - 1])
  }

  /** Together: the newest pages in front of what was there, cut to the capacity. */
  lemma {:induction false} PushedAllKeepsNewest(lru: seq<nat>, loads: seq<PageLoad>, capacity: nat)
    requires |lru| <= capacity
    ensures PushedAll(lru, loads, capacity) == (NewestFirst(loads) + lru)[..Min(capacity, |loads| + |lru|)]
    decreases |loads|
  {
    if loads != [] {
      var n := |loads| - 1;
      PushedAllKeepsNewest(lru, loads[..n], capacity);
      var all, last := NewestFirst(loads[..n]) + lru, loads[n].key;
      assert NewestFirst(loads) + lru == [last] + all;
      assert [last] + all[..Min(capacity, |all|)] == ([last] + all)[..Min(capacity, |all|) + 1];
    }
  }

  /** The recency list after the resident pieces of a batch were copied one after the other. */
  function Touched(entries: set<nat>, pageBytes: Positive, lru: seq<nat>, pieces: seq<Extent>): seq<nat> {
    if pieces == [] then lru
    else
      var n := |pieces| - 1;
      var before := Touched(entries, pageBytes, lru, pieces[..n]);
      if IsHit(entries, pageBytes, pieces[n])
      then
        var key := KeyOf(pieces[n].file, pieces[n].offset / pageBytes);
        [key] + Without(before, key)
      else before
  }

  /** The pages a batch has to fetch, each once, in the order they are first asked for. */
  function Lacking(entries: set<nat>, pageBytes: Positive, pieces: seq<Extent>): seq<PageLoad> {
    if pieces == [] then []
    else
      var n := |pieces| - 1;
      var before, file, page := Lacking(entries, pageBytes, pieces[..n]), pieces[n].file, pieces[n].offset / pageBytes;
      if IsHit(entries, pageBytes, pieces[n]) || file >= MAX_FILES || page >= PAGE_LIMIT then before
      else if PageLoad(KeyOf(file, page), file, page) in before then before
      else before + [PageLoad(KeyOf(file, page), file, page)]
  }

  /** The recency list after a batch: hits moved to the front, then the fetched pages pushed. */
  function Recency(entries: set<nat>, pageBytes: Positive, lru: seq<nat>, pieces: seq<Extent>,
                   capacity: nat): seq<nat> {
    PushedAll(Touched(entries, pageBytes, lru, pieces), Lacking(entries, pageBytes, pieces), capacity)
  }

  lemma TouchedOneMore(entries: set<nat>, pageBytes: Positive, lru: seq<nat>, done: seq<Extent>, piece: Extent)
    ensures var before := Touched(entries, pageBytes, lru, done);
            Touched(entries, pageBytes, lru, done + [piece]) ==
            if IsHit(entries, pageBytes, piece)
            then [KeyOf(piece.file, piece.offset / pageBytes)]
                 + Without(before, KeyOf(piece.file, piece.offset / pageBytes))
            else before
  {
    assert (done + [piece])[..|done|] == done;
  }

  lemma LackingOneMore(entries: set<nat>, pageBytes: Positive, done: seq<Extent>, piece: Extent)
    requires piece.file < MAX_FILES && piece.offset / pageBytes < PAGE_LIMIT
    ensures var before := Lacking(entries, pageBytes, done);
            var load := PageLoad(KeyOf(piece.file, piece.offset / pageBytes), piece.file, piece.offset / pageBytes);
            Lacking(entries, pageBytes, done + [piece]) ==
            if IsHit(entries, pageBytes, piece) || load in before then before else before + [load]
  {
    assert (done + [piece])[..|done|] == done;
  }

  /** A page is queued exactly if its key is. */
  lemma QueuedByKey(files: seq<seq<Byte>>, pageBytes: Positive, entries: set<nat>, loads: seq<PageLoad>,
                    loadByKey: map<nat, nat>, load: PageLoad)
    requires LoadsFit(files, pageBytes, entries, loads, loadByKey) && LoadFits(files, pageBytes, load)
    ensures load in loads <==> load.key in loadByKey
  {
    if load.key in loadByKey {
      var found := loads[loadByKey[load.key]];
      KeysAreInjective(found.file, found.page, load.file, load.page);
    }
  }

  /** Recency and queue one piece later. */
  lemma PlannedOneMore(files: seq<seq<Byte>>, entries: set<nat>, pageBytes: Positive, lru: seq<nat>, plan: Plan,
                       done: seq<Extent>, piece: Extent, load: PageLoad)
    requires LoadsFit(files, pageBytes, entries, plan.loads, plan.loadByKey) && LoadFits(files, pageBytes, load)
    requires plan.loads == Lacking(entries, pageBytes, done)
    requires load.file == piece.file && load.page == piece.offset / pageBytes
    ensures Touched(entries, pageBytes, lru, done + [piece]) ==
            if load.key in entries
            then [load.key] + Without(Touched(entries, pageBytes, lru, done), load.key)
            else Touched(entries, pageBytes, lru, done)
    ensures Lacking(entries, pageBytes, done + [piece]) ==
            if load.key in entries then plan.loads else Queue(plan, load).loads
  {
    TouchedOneMore(entries, pageBytes, lru, done, piece);
    LackingOneMore(entries, pageBytes, done, piece);
    QueuedByKey(files, pageBytes, entries, plan.loads, plan.loadByKey, load);
  }

  // ---------------------------------------------------------------------------
  // What stays resident.
  // ---------------------------------------------------------------------------

  /** The keys of the pieces that are resident. */
  function HitKeys(entries: set<nat>, pageBytes: Positive, pieces: seq<Extent>): (keys: set<nat>)
    ensures keys <= entries
  {
    if pieces == [] then {}
    else
      var n := |pieces| - 1;
      HitKeys(entries, pageBytes, pieces[..n])
      + if IsHit(entries, pageBytes, pieces[n]) then {KeyOf(pieces[n].file, pieces[n].offset / pageBytes)} else {}
  }

  lemma {:induction false} WithoutIs(l: seq<nat>, at: nat)
    requires Distinct(l) && at < |l|
    ensures Without(l, l[at]) == l[..at] + l[at + 1..]
    decreases at
  {
    if at > 0 {
      assert Distinct(l[1..]) && l[0] != l[at] && l[1..][at - 1] == l[at];
      WithoutIs(l[1..], at - 1);
      assert l[..at] == [l[0]] + l[1..][..at - 1] && l[at + 1..] == l[1..][at..];
    }
  }

  /** Where each key goes when one is moved to the front. */
  lemma MovedAt(l: seq<nat>, at: nat, j: nat) returns (place: nat)
    requires Distinct(l) && at < |l| && j < |l|
    ensures var r := [l[at]] + Without(l, l[at]); |r| == |l| && place < |l| && r[place] == l[j]
    ensures place <= if j < at then j + 1 else j
  {
    WithoutIs(l, at);
    place := Rotated(l, at, j);
  }

  lemma Rotated(l: seq<nat>, at: nat, j: nat) returns (place: nat)
    requires at < |l| && j < |l|
    ensures var r := [l[at]] + (l[..at] + l[at + 1..]); |r| == |l| && place < |l| && r[place] == l[j]
    ensures place <= if j < at then j + 1 else j
  {
    place := if j < at then j + 1 else if j == at then 0 else j;
  }

  /** Moving a key to the front pushes no other key out of a prefix that has room for both. */
  lemma MovedToFront(l: seq<nat>, key: nat, h: nat, x: nat)
    requires Distinct(l) && key in l && h <= |l| && x in l[..h]
    ensures var r := [key] + Without(l, key);
            && |r| == |l|
            && (key in l[..h] ==> x in r[..h])
            && (key !in l[..h] ==> h < |l| && x in r[..h + 1])
  {
    var at :| 0 <= at < |l| && l[at] == key;
    var j :| 0 <= j < h && l[j] == x;
    var place := MovedAt(l, at, j);
    var r := [key] + Without(l, key);
    if at < h {
      InPrefix(l, at, h);
      InPrefix(r, place, h);
    } else {
      NotInPrefix(l, at, h);
      InPrefix(r, place, h + 1);
    }
  }

  lemma NotInPrefix(l: seq<nat>, at: nat, h: nat)
    requires Distinct(l) && h <= at < |l|
    ensures l[at] !in l[..h]
  {
  }

  lemma InPrefix(l: seq<nat>, i: nat, h: nat)
    requires i < h <= |l|
    ensures l[i] in l[..h]
  {
    assert l[..h][i] == l[i];
  }

  /** The `keys` are in front of all others. */
  ghost predicate InFront(entries: set<nat>, n: nat, l: seq<nat>, keys: set<nat>) {
    && |l| == n && Distinct(l) && (forall k :: k in l <==> k in entries)
    && |keys| <= |l| && (forall k :: k in keys ==> k in l[..|keys|])
  }

  /** After the copies, the keys that were hit are in front of all others. */
  lemma {:induction false} HitsInFront(entries: set<nat>, pageBytes: Positive, lru: seq<nat>, pieces: seq<Extent>)
    requires InFront(entries, |lru|, lru, {})
    ensures InFront(entries, |lru|, Touched(entries, pageBytes, lru, pieces), HitKeys(entries, pageBytes, pieces))
    decreases |pieces|
  {
    if pieces != [] {
      var n := |pieces| - 1;
      HitsInFront(entries, pageBytes, lru, pieces[..n]);
      OneMoreInFront(entries, pageBytes, |lru|, Touched(entries, pageBytes, lru, pieces[..n]),
                     HitKeys(entries, pageBytes, pieces[..n]), pieces[n]);
    }
  }

  lemma OneMoreInFront(entries: set<nat>, pageBytes: Positive, n: nat, l: seq<nat>, keys: set<nat>, piece: Extent)
    requires InFront(entries, n, l, keys) && keys <= entries
    ensures IsHit(entries, pageBytes, piece) ==>
              var key := KeyOf(piece.file, piece.offset / pageBytes);
              InFront(entries, n, [key] + Without(l, key), keys + {key})
    ensures InFront(entries, n, l, keys + {})
  {
    assert keys + {} == keys;
    if IsHit(entries, pageBytes, piece) {
      HitMovesUp(entries, n, l, keys, KeyOf(piece.file, piece.offset / pageBytes));
    }
  }

  lemma HitMovesUp(entries: set<nat>, n: nat, l: seq<nat>, keys: set<nat>, key: nat)
    requires InFront(entries, n, l, keys) && key in entries && keys <= entries
    ensures InFront(entries, n, [key] + Without(l, key), keys + {key})
  {
    WithoutFacts(l, key);
    var r, more := [key] + Without(l, key), keys + {key};
    DistinctCounts(l, more);
    assert key in keys ==> more == keys;
    assert key !in keys ==> |more| == |keys| + 1;
    forall k | k in more ensures k in r[..|more|] {
      if k == key {
        assert r[0] == key && 0 < |more| && r[..|more|][0] == key;
      } else {
        MovedToFront(l, key, |keys|, k);
      }
    }
  }

  /** A list has room for any set of its members. */
  lemma {:induction false} DistinctCounts(l: seq<nat>, keys: set<nat>)
    requires forall k :: k in keys ==> k in l
    ensures |keys| <= |l|
    decreases |l|
  {
    if l == [] {
      assert keys == {};
    } else {
      var rest := keys - {l[0]};
      forall k | k in rest ensures k in l[1..] { assert k in l && k != l[0]; }
      DistinctCounts(l[1..], rest);
      assert keys <= rest + {l[0]};
      SubsetCounts(keys, rest, l[0]);
    }
  }

  lemma SubsetCounts(keys: set<nat>, rest: set<nat>, k: nat)
    requires rest == keys - {k}
    ensures |keys| <= |rest| + 1
  {
    if k in keys { assert keys == rest + {k}; } else { assert keys == rest; }
  }

  /** The page a piece lies in. */
  predicate LiesIn(pageBytes: Positive, piece: Extent, load: PageLoad) {
    && load.file == piece.file < MAX_FILES && load.page == piece.offset / pageBytes < PAGE_LIMIT
    && load.key == KeyOf(load.file, load.page)
  }

  lemma {:induction false} LackingIsAll(entries: set<nat>, pageBytes: Positive, pieces: seq<Extent>, i: nat,
                                        load: PageLoad)
    requires i < |pieces| && LiesIn(pageBytes, pieces[i], load)
    ensures load.key in HitKeys(entries, pageBytes, pieces) || load in Lacking(entries, pageBytes, pieces)
    decreases |pieces|
  {
    var n := |pieces| - 1;
    if i < n { LackingIsAll(entries, pageBytes, pieces[..n], i, load); }
  }

  lemma {:induction false} NewestFirstHasAll(loads: seq<PageLoad>, load: PageLoad)
    requires load in loads
    ensures load.key in NewestFirst(loads)
    decreases |loads|
  {
    var n := |loads| - 1;
    if loads[n] != load {
      assert loads == loads[..n] + [loads[n]];
      NewestFirstHasAll(loads[..n], load);
    }
  }

  /** Every page of a batch is resident behind it, unless the batch alone has more pages than the
      cache: reading it again hits everywhere. */
  lemma BatchStaysResident(entries: set<nat>, pageBytes: Positive, lru: seq<nat>, pieces: seq<Extent>, capacity: nat,
                           i: nat, load: PageLoad)
    requires InFront(entries, |lru|, lru, {}) && |lru| <= capacity
    requires |HitKeys(entries, pageBytes, pieces)| + |Lacking(entries, pageBytes, pieces)| <= capacity
    requires i < |pieces| && LiesIn(pageBytes, pieces[i], load)
    ensures load.key in Recency(entries, pageBytes, lru, pieces, capacity)
  {
    HitsInFront(entries, pageBytes, lru, pieces);
    LackingIsAll(entries, pageBytes, pieces, i, load);
    StaysInFront(entries, |lru|, Touched(entries, pageBytes, lru, pieces), HitKeys(entries, pageBytes, pieces),
                 Lacking(entries, pageBytes, pieces), capacity, load);
  }

  lemma StaysInFront(entries: set<nat>, n: nat, t: seq<nat>, keys: set<nat>, loads: seq<PageLoad>, capacity: nat,
                     load: PageLoad)
    requires InFront(entries, n, t, keys) && n <= capacity && |keys| + |loads| <= capacity
    requires load in loads || load.key in keys
    ensures load.key in PushedAll(t, loads, capacity)
  {
    PushedAllKeepsNewest(t, loads, capacity);
    if load in loads {
      NewestFirstHasAll(loads, load);
      InFirstPart(NewestFirst(loads), t, load.key, Min(capacity, |loads| + |t|));
    } else {
      InConcatPrefix(NewestFirst(loads), t, |keys|, load.key, Min(capacity, |loads| + |t|));
    }
  }

  lemma InConcatPrefix(a: seq<nat>, b: seq<nat>, h: nat, key: nat, n: nat)
    requires h <= |b| && key in b[..h] && |a| + h <= n <= |a| + |b|
    ensures key in (a + b)[..n]
  {
    var j :| 0 <= j < h && b[..h][j] == key;
    assert (a + b)[..n][|a| + j] == key;
  }

  lemma InFirstPart(a: seq<nat>, b: seq<nat>, key: nat, n: nat)
    requires key in a && |a| <= n <= |a| + |b|
    ensures key in (a + b)[..n]
  {
    var j :| 0 <= j < |a| && a[j] == key;
    assert (a + b)[..n][j] == key;
  }

  // ---------------------------------------------------------------------------
  // The class.
  // ---------------------------------------------------------------------------

  class Cache {
    const files: seq<seq<Byte>>
    const pageBytes: Positive
    const maxPages: Positive
    const env: Environment
    const ring: R.Ring?
    ghost const image: imap<nat, seq<Byte>>
    var pages: seq<seq<Byte>>
    var freePages: seq<nat>
    var entries: map<nat, nat>
    var lru: seq<nat>

    constructor (files: seq<seq<Byte>>, capacityBytes: nat, pageBytes: Positive, env: Environment, ring: R.Ring?)
      requires pageBytes <= capacityBytes
      ensures Valid() && this.files == files && this.pageBytes == pageBytes && this.env == env && this.ring == ring
      ensures maxPages == capacityBytes / pageBytes && entries == map[] && image == Images(files, pageBytes)
    {
      image := Images(files, pageBytes);
      this.files, this.pageBytes, this.env, this.ring := files, pageBytes, env, ring;
      assert capacityBytes / pageBytes >= 1;
      maxPages := capacityBytes / pageBytes;
      pages, freePages, entries, lru := [], [], map[], [];
    }

    ghost predicate Valid() reads this {
      && Linked(lru, entries) && Pooled(freePages, entries, |pages|) && |pages| <= maxPages
      && Stored(image, pageBytes, entries, pages)
    }

    /** `page` is lent to the caller: neither free nor anyone's. */
    ghost predicate Lent(page: nat) reads this {
      && Linked(lru, entries) && Pooled([page] + freePages, entries, |pages|) && |pages| <= maxPages
      && Stored(image, pageBytes, entries, pages)
    }

    /** A page to overwrite: a free one, one from a fresh chunk, or the least recently used. */
    method AcquirePage() returns (r: Result<nat>)
      requires Valid()
      modifies this`pages, this`freePages, this`entries, this`lru
      ensures r.Ok? && Lent(r.value)
      ensures old(freePages) != [] || |old(pages)| < maxPages ==> entries == old(entries) && lru == old(lru)
      ensures old(freePages) == [] && |old(pages)| == maxPages ==>
                && old(lru) != [] && lru == old(lru)[..|old(lru)| - 1]
                && entries == old(entries) - {old(lru)[|old(lru)| - 1]}
    {
      if freePages == [] && |pages| >= maxPages {
        r := Evict();
        return;
      }
      var page := TakeSpare();
      r := Ok(page);
    }

    /** Room is left: a free page, after allocating a chunk if there is none. */
    method TakeSpare() returns (page: nat)
      requires Valid() && (freePages != [] || |pages| < maxPages)
      modifies this`pages, this`freePages
      ensures Lent(page)
    {
      if freePages == [] { Grow(); }
      page := PopFree();
    }

    method PopFree() returns (page: nat)
      requires Valid() && freePages != []
      modifies this`freePages
      ensures Lent(page)
    {
      page := freePages[|freePages| - 1];
      TakeFree(freePages, entries, |pages|);
      freePages := freePages[..|freePages| - 1];
    }

    /** Takes the least recently used page away from its key. A full pool always has one. */
    method Evict() returns (r: Result<nat>)
      requires Valid() && freePages == [] && |pages| == maxPages
      modifies this`entries, this`lru
      ensures r.Ok? && old(lru) != []
      ensures entries == old(entries) - {old(lru)[|old(lru)| - 1]} && lru == old(lru)[..|old(lru)| - 1]
      ensures Lent(r.value)
    {
      assert |entries| == maxPages && |lru| == maxPages;
      if lru == [] { return Err(LogicError); }
      var victim := lru[|lru| - 1];
      assert victim in lru;
      if victim !in entries { return Err(LogicError); }
      var page := entries[victim];
      EvictLinked(lru, entries);
      EvictPooled(freePages, entries, |pages|, victim);
      lru := lru[..|lru| - 1];
      entries := entries - {victim};
      r := Ok(page);
    }

    /** Allocates the next chunk of the pool. */
    method Grow()
      requires Valid() && freePages == [] && |pages| < maxPages
      modifies this`pages, this`freePages
      ensures Valid() && freePages != []
    {
      var target := if POOL_CHUNK_BYTES / pageBytes >= 1 then POOL_CHUNK_BYTES / pageBytes else 1;
      var count := Min(target, maxPages - |pages|);
      var first := |pages|;
      for index := 0 to count
        modifies this`freePages
        invariant freePages == Range(first, index)
      {
        freePages := freePages + [first + index];
      }
      GrowPooled(entries, first, count);
      StoredMore(image, pageBytes, entries, pages, Blank(count));
      pages := pages + Blank(count);
    }

    function Blank(count: nat): (r: seq<seq<Byte>>)
      ensures |r| == count && forall i :: 0 <= i < count ==> |r[i]| == pageBytes
    {
      seq(count, i => seq(pageBytes, j => 0))
    }

    /** Makes a page resident as the most recently used one. */
    method Install(key: nat, data: seq<Byte>) returns (r: Result<()>)
      requires Valid() && key !in entries && Carries(image, pageBytes, key, data)
      modifies this`pages, this`freePages, this`entries, this`lru
      ensures Valid() && r.Ok? && lru == Pushed(old(lru), key, maxPages)
    {
      PushedCases(lru, key, maxPages);
      var acquired := AcquirePage();
      if acquired.Err? { return Err(LogicError); }
      Occupy(key, data, acquired.value);
      r := Ok(());
    }

    /** Gives an acquired page to a key. */
    method Occupy(key: nat, data: seq<Byte>, page: nat)
      requires Lent(page) && key !in entries && Carries(image, pageBytes, key, data)
      modifies this`pages, this`entries, this`lru
      ensures Valid() && entries == old(entries)[key := page] && lru == [key] + old(lru)
    {
      InstallLinked(lru, entries, key, page);
      InstallPooled(freePages, entries, |pages|, key, page);
      InstallStored(image, pageBytes, entries, pages, key, page, data);
      pages := pages[page := data];
      lru := [key] + lru;
      entries := entries[key := page];
    }

    /** A hit moves its key to the front. */
    method Touch(key: nat)
      requires Valid() && key in entries
      modifies this`lru
      ensures Valid() && lru == [key] + Without(old(lru), key)
    {
      WithoutFacts(lru, key);
      lru := [key] + Without(lru, key);
    }

    /** Recency and queue are those of planning `done` from the recency list `start`. */
    ghost predicate Recent(start: seq<nat>, plan: Plan, done: seq<Extent>) reads this`lru, this`entries {
      && lru == Touched(entries.Keys, pageBytes, start, done)
      && plan.loads == Lacking(entries.Keys, pageBytes, done)
    }

    /** Where a piece lies: its page exists, and the piece is a part of it. */
    ghost predicate Located(piece: Extent, page: nat, inPage: nat) {
      && page == piece.offset / pageBytes && inPage == piece.offset % pageBytes && page < KEY_SPACE
      && piece.file < |files| && piece.file < MAX_FILES && piece.offset + piece.bytes <= |files[piece.file]|
      && LoadFits(files, pageBytes, PageLoad(KeyOf(piece.file, page), piece.file, page))
      && var slice := PageSlice(files[piece.file], page, pageBytes);
         inPage + piece.bytes <= |slice| && slice[inPage..inPage + piece.bytes] == Wanted(files, piece)
    }

    /** One page's worth of an extent: copy it out of a resident page, or queue its page. */
    method PlanPiece(piece: Extent, plan: Plan, ghost done: seq<Extent>, ghost buffer: seq<Byte>,
                     ghost start: seq<nat>) returns (next: Plan)
      requires Valid() && image == Images(files, pageBytes)
      requires PlanFits(files, pageBytes, entries.Keys, plan, done, buffer)
      requires Paged(files, pageBytes, piece, |buffer|) && Recent(start, plan, done)
      modifies this`lru
      ensures Valid() && PlanFits(files, pageBytes, entries.Keys, next, done + [piece], buffer)
      ensures Recent(start, next, done + [piece])
    {
      PieceFits(files, pageBytes, piece, |buffer|);
      next := PlanAt(piece, piece.offset / pageBytes, piece.offset % pageBytes, plan, done, buffer, start);
    }

    method PlanAt(piece: Extent, page: nat, inPage: nat, plan: Plan, ghost done: seq<Extent>, ghost buffer: seq<Byte>,
                  ghost start: seq<nat>)
      returns (next: Plan)
      requires Valid() && image == Images(files, pageBytes)
      requires PlanFits(files, pageBytes, entries.Keys, plan, done, buffer)
      requires Located(piece, page, inPage) && ValidExtent(files, piece, |buffer|) && Recent(start, plan, done)
      modifies this`lru
      ensures Valid() && PlanFits(files, pageBytes, entries.Keys, next, done + [piece], buffer)
      ensures Recent(start, next, done + [piece])
    {
      var load := PageLoad(KeyOf(piece.file, page), piece.file, page);
      KeyDecides(entries.Keys, pageBytes, piece, page);
      PlannedOneMore(files, entries.Keys, pageBytes, start, plan, done, piece, load);
      if load.key in entries {
        ImageOfPage(files, pageBytes, piece.file, page);
        HitFits(files, pageBytes, entries.Keys, plan, done, buffer, piece);
        next := CopyHit(load.key, inPage, piece, plan);
      } else {
        MissFits(files, pageBytes, entries.Keys, plan, done, buffer, piece, load, inPage);
        next := Waiting(plan, load, piece, inPage);
      }
    }

    method CopyHit(key: nat, inPage: nat, piece: Extent, plan: Plan) returns (next: Plan)
      requires Valid() && key in entries && key in image && inPage + piece.bytes <= |image[key]|
      requires piece.file < |files| && piece.offset + piece.bytes <= |files[piece.file]|
      requires image[key][inPage..inPage + piece.bytes] == Wanted(files, piece)
      requires piece.outputOffset + piece.bytes <= |plan.output|
      modifies this`lru
      ensures Valid() && next == plan.(output := Splice(plan.output, piece.outputOffset, Wanted(files, piece)))
      ensures lru == [key] + Without(old(lru), key)
    {
      var data := HitBytes(key, inPage, piece);
      Touch(key);
      next := plan.(output := Splice(plan.output, piece.outputOffset, data));
    }

    method HitBytes(key: nat, inPage: nat, piece: Extent) returns (data: seq<Byte>)
      requires Valid() && key in entries && key in image && inPage + piece.bytes <= |image[key]|
      requires piece.file < |files| && piece.offset + piece.bytes <= |files[piece.file]|
      requires image[key][inPage..inPage + piece.bytes] == Wanted(files, piece)
      ensures data == Wanted(files, piece)
    {
      var page := pages[entries[key]];
      SameInside(image[key], page, inPage, piece.bytes);
      data := page[inPage..inPage + piece.bytes];
    }

    /** The next piece of an extent. */
    method PlanNext(e: Extent, copied: nat, plan: Plan, ghost planned: seq<Extent>, ghost all: seq<Extent>,
                    ghost buffer: seq<Byte>, ghost start: seq<nat>)
      returns (next: Plan, behind: nat, ghost now: seq<Extent>)
      requires Valid() && image == Images(files, pageBytes)
      requires PlanFits(files, pageBytes, entries.Keys, plan, planned, buffer)
      requires ValidExtent(files, e, |buffer|) && |files[e.file]| <= KEY_SPACE * pageBytes && e.file < MAX_FILES
      requires copied < e.bytes && Remaining(planned, e, copied, pageBytes, all) && Recent(start, plan, planned)
      modifies this`lru
      ensures Valid() && PlanFits(files, pageBytes, entries.Keys, next, now, buffer) && Recent(start, next, now)
      ensures copied < behind <= e.bytes && Remaining(now, e, behind, pageBytes, all)
    {
      var piece := PieceAt(e, copied, pageBytes);
      PieceIsNext(files, e, copied, pageBytes, planned, all, |buffer|);
      next := PlanPiece(piece, plan, planned, buffer, start);
      now, behind := planned + [piece], copied + piece.bytes;
    }

    /** All pieces of one extent. */
    method PlanExtent(e: Extent, plan0: Plan, ghost done: seq<Extent>, ghost buffer: seq<Byte>, ghost start: seq<nat>)
      returns (r: Result<Plan>)
      requires Valid() && image == Images(files, pageBytes)
      requires PlanFits(files, pageBytes, entries.Keys, plan0, done, buffer)
      requires ValidExtent(files, e, |buffer|) && |files[e.file]| <= KEY_SPACE * pageBytes && Recent(start, plan0, done)
      modifies this`lru
      ensures Valid()
      ensures r.Err? <==> e.file >= MAX_FILES
      ensures r.Ok? ==> Recent(start, r.value, done + Pieces(e, 0, pageBytes))
      ensures r.Ok? ==> PlanFits(files, pageBytes, entries.Keys, r.value, done + Pieces(e, 0, pageBytes), buffer)
    {
      var plan, copied := plan0, 0;
      ghost var planned, all := done, done + Pieces(e, 0, pageBytes);
      if e.file >= MAX_FILES { return Err(RuntimeError); }
      while copied < e.bytes
        invariant copied <= e.bytes && Valid() && PlanFits(files, pageBytes, entries.Keys, plan, planned, buffer)
        invariant Remaining(planned, e, copied, pageBytes, all) && Recent(start, plan, planned)
        decreases e.bytes - copied
      {
        plan, copied, planned := PlanNext(e, copied, plan, planned, all, buffer, start);
      }
      assert planned == all;
      r := Ok(plan);
    }

    method PlanAll(es: seq<Extent>, buffer: seq<Byte>) returns (r: Result<Plan>)
      requires Valid() && image == Images(files, pageBytes) && ValidExtents(files, es, |buffer|) && Addressable()
      modifies this`lru
      ensures Valid()
      ensures r.Ok? <==> AllNamed(es)
      ensures r.Ok? ==> PlanFits(files, pageBytes, entries.Keys, r.value, Cut(es, pageBytes), buffer)
      ensures r.Ok? ==> Recent(old(lru), r.value, Cut(es, pageBytes))
    {
      var plan := Plan(buffer, [], [], map[]);
      EmptyPlanFits(files, pageBytes, entries.Keys, buffer);
      for j := 0 to |es|
        invariant Valid() && PlanFits(files, pageBytes, entries.Keys, plan, Cut(es[..j], pageBytes), buffer)
        invariant AllNamed(es[..j]) && Recent(old(lru), plan, Cut(es[..j], pageBytes))
      {
        assert es[..j + 1][..j] == es[..j];
        var next := PlanExtent(es[j], plan, Cut(es[..j], pageBytes), buffer, old(lru));
        if next.Err? { return Err(next.failure); }
        NamedOneMore(es, j);
        plan := next.value;
      }
      assert es[..|es|] == es;
      r := Ok(plan);
    }

    /** Each fetched page starts with the bytes of its load. */
    ghost predicate Fetched(loads: seq<PageLoad>, data: seq<seq<Byte>>) {
      && |data| == |loads|
      && forall i :: 0 <= i < |loads| ==> FetchedPage(loads[i], data[i])
    }

    ghost predicate FetchedPage(load: PageLoad, page: seq<Byte>) {
      load.file < |files| && |page| == pageBytes && PageSlice(files[load.file], load.page, pageBytes) <= page
    }

    /** A fetched page holds the piece that waited for it. */
    lemma CopyBrings(loads: seq<PageLoad>, c: PendingCopy, piece: Extent, page: seq<Byte>, outputBytes: nat)
      requires Paged(files, pageBytes, piece, outputBytes) && Awaits(pageBytes, loads, c, piece)
      requires FetchedPage(loads[c.load], page)
      ensures c.inPage + c.bytes <= |page| && page[c.inPage..c.inPage + c.bytes] == Wanted(files, piece)
    {
      PieceFits(files, pageBytes, piece, outputBytes);
      var slice := PageSlice(files[piece.file], piece.offset / pageBytes, pageBytes);
      assert page[c.inPage..c.inPage + c.bytes] == slice[c.inPage..c.inPage + c.bytes];
    }

    /** Carries out the waiting copies. */
    method CopyPending(plan: Plan, data: seq<seq<Byte>>, ghost hits: seq<Extent>, ghost missing: seq<Extent>,
                       ghost buffer: seq<Byte>)
      returns (output: seq<Byte>)
      requires ValidExtents(files, hits, |buffer|) && AllAwaited(pageBytes, plan.loads, plan.pending, missing)
      requires Fetched(plan.loads, data)
      requires forall i :: 0 <= i < |missing| ==> Paged(files, pageBytes, missing[i], |buffer|)
      requires plan.output == Direct(files, hits, buffer)
      ensures ValidExtents(files, hits + missing, |buffer|) && output == Direct(files, hits + missing, buffer)
    {
      output := plan.output;
      assert hits + missing[..0] == hits;
      for k := 0 to |plan.pending|
        invariant ValidExtents(files, hits + missing[..k], |buffer|)
        invariant output == Direct(files, hits + missing[..k], buffer)
      {
        var c := plan.pending[k];
        ghost var piece := missing[k];
        assert Awaits(pageBytes, plan.loads, c, piece) && FetchedPage(plan.loads[c.load], data[c.load]);
        CopyBrings(plan.loads, c, piece, data[c.load], |buffer|);
        DirectUpTo(files, hits, missing, k, buffer);
        output := Splice(output, c.outputOffset, data[c.load][c.inPage..c.inPage + c.bytes]);
      }
      assert missing[..|missing|] == missing;
    }

    /** Makes every fetched page resident, evicting as needed: the newest pages stay. */
    method InstallAll(loads: seq<PageLoad>, ghost loadByKey: map<nat, nat>, data: seq<seq<Byte>>)
      returns (r: Result<()>)
      requires Valid() && image == Images(files, pageBytes)
      requires LoadsFit(files, pageBytes, entries.Keys, loads, loadByKey) && Fetched(loads, data)
      modifies this`pages, this`freePages, this`entries, this`lru
      ensures Valid() && r.Ok? && lru == PushedAll(old(lru), loads, maxPages)
    {
      for i := 0 to |loads|
        invariant Valid() && lru == PushedAll(old(lru), loads[..i], maxPages)
        invariant forall k :: i <= k < |loads| ==> loads[k].key !in lru
      {
        var load := loads[i];
        ImageOfPage(files, pageBytes, load.file, load.page);
        assert LoadFits(files, pageBytes, load) && FetchedPage(load, data[i]);
        assert loads[..i + 1][..i] == loads[..i];
        PushedCases(lru, load.key, maxPages);
        var installed := Install(load.key, data[i]);
        if installed.Err? { return Err(LogicError); }
        forall k | i + 1 <= k < |loads| ensures loads[k].key !in lru {
          assert loadByKey[loads[k].key] == k && loadByKey[load.key] == i;
        }
      }
      assert loads[..|loads|] == loads;
      r := Ok(());
    }

    /** The ring, if there is one, reads the same files and is drained. */
    ghost predicate Ready() reads ring {
      ring != null ==>
        && R.Fitting(ring.setup) && R.Drained(ring.kernel)
        && ring.setup.files == files && ring.setup.pageBytes == pageBytes
    }

    function Padded(bytes: seq<Byte>): (r: seq<Byte>)
      requires |bytes| <= pageBytes
      ensures |r| == pageBytes && bytes <= r
    {
      bytes + seq(pageBytes - |bytes|, i => 0)
    }

    /** Blocking reads, one page after the other. */
    method FetchBuffered(loads: seq<PageLoad>) returns (r: Result<seq<seq<Byte>>>)
      requires forall i :: 0 <= i < |loads| ==> LoadFits(files, pageBytes, loads[i])
      modifies env
      ensures old(env.faults) <= env.faults
      ensures r.Ok? ==> Fetched(loads, r.value)
      ensures r.Err? ==> old(env.faults) < env.faults
    {
      var data := [];
      for i := 0 to |loads|
        invariant |data| == i && old(env.faults) <= env.faults
        invariant forall k :: 0 <= k < i ==> FetchedPage(loads[k], data[k])
      {
        var page := FetchPage(loads[i]);
        if page.Err? { return Err(page.failure); }
        data := data + [page.value];
      }
      r := Ok(data);
    }

    method FetchPage(load: PageLoad) returns (r: Result<seq<Byte>>)
      requires LoadFits(files, pageBytes, load)
      modifies env
      ensures old(env.faults) <= env.faults
      ensures r.Ok? ==> FetchedPage(load, r.value)
      ensures r.Err? ==> old(env.faults) < env.faults
    {
      var start := load.page * pageBytes;
      var size := Min(pageBytes, |files[load.file]| - start);
      var page := ReadFully(files[load.file], start, size, env);
      if page.Err? { return Err(page.failure); }
      r := Ok(Padded(page.value));
    }

    function RequestOf(load: PageLoad): R.ReadRequest
      requires LoadFits(files, pageBytes, load)
    {
      var start := load.page * pageBytes;
      R.ReadRequest(load.file, start, Min(pageBytes, |files[load.file]| - start))
    }

    lemma RequestReads(load: PageLoad)
      requires ring != null && Ready() && LoadFits(files, pageBytes, load)
      ensures R.Available(ring.setup, RequestOf(load)) == PageSlice(files[load.file], load.page, pageBytes)
      ensures R.Readable(ring.setup, RequestOf(load))
      ensures |PageSlice(files[load.file], load.page, pageBytes)| == RequestOf(load).expected
    {
    }

    /** The ring delivered what the load asked for. */
    ghost predicate Served(load: PageLoad, output: seq<Byte>) {
      && LoadFits(files, pageBytes, load) && |output| <= pageBytes
      && output == PageSlice(files[load.file], load.page, pageBytes)
    }

    /** All pages at once through the ring. */
    method FetchDirect(loads: seq<PageLoad>) returns (r: Result<seq<seq<Byte>>>)
      requires ring != null && Ready() && loads != []
      requires forall i :: 0 <= i < |loads| ==> LoadFits(files, pageBytes, loads[i])
      modifies env, ring
      ensures old(env.faults) <= env.faults
      ensures r.Ok? ==> Fetched(loads, r.value) && Ready()
      ensures r.Err? ==> old(env.faults) < env.faults
    {
      var requests := seq(|loads|, i requires 0 <= i < |loads| => RequestOf(loads[i]));
      forall i | 0 <= i < |loads| ensures R.Readable(ring.setup, requests[i]) { RequestReads(loads[i]); }
      var read := ring.ReadDrained(requests, env);
      if read.Err? { return Err(read.failure); }
      forall i | 0 <= i < |loads| ensures Served(loads[i], read.value[i]) { RequestReads(loads[i]); }
      var data := Collect(loads, read.value);
      r := Ok(data);
    }

    /** Lines the delivered pages up with their loads. */
    method Collect(loads: seq<PageLoad>, outputs: map<nat, seq<Byte>>) returns (data: seq<seq<Byte>>)
      requires forall i :: 0 <= i < |loads| ==> i in outputs && Served(loads[i], outputs[i])
      ensures Fetched(loads, data)
    {
      data := [];
      for i := 0 to |loads|
        invariant |data| == i
        invariant forall k :: 0 <= k < i ==> FetchedPage(loads[k], data[k])
      {
        data := data + [Padded(outputs[i])];
      }
    }

    method Fetch(loads: seq<PageLoad>) returns (r: Result<seq<seq<Byte>>>)
      requires Ready() && loads != []
      requires forall i :: 0 <= i < |loads| ==> LoadFits(files, pageBytes, loads[i])
      modifies env, ring
      ensures old(env.faults) <= env.faults
      ensures r.Ok? ==> Fetched(loads, r.value) && Ready()
      ensures r.Err? ==> old(env.faults) < env.faults && (ring == null ==> Ready())
    {
      if ring != null { r := FetchDirect(loads); } else { r := FetchBuffered(loads); }
    }

    /** Every file is small enough for its page numbers to fit a key. */
    predicate Addressable() {
      forall f :: 0 <= f < |files| ==> |files[f]| <= KEY_SPACE * pageBytes
    }

    /** The requests that are turned down, as a caller can tell beforehand. */
    predicate Refused(es: seq<Extent>, outputBytes: nat) {
      !ValidRequest(files, es, outputBytes) || !AllNamed(es)
    }

    /** Ready for the next batch. */
    ghost predicate Live() reads this, ring {
      Valid() && Ready() && image == Images(files, pageBytes) && Addressable()
    }

    /** The cached read: plan, fetch what is missing, copy, and only then make it resident.
        Failure makes nothing resident, and unless a ring read failed the cache lives on. */
    method ReadExtents(es: seq<Extent>, buffer: seq<Byte>) returns (r: Result<seq<Byte>>)
      requires Live()
      modifies this, env, ring
      ensures Valid() && old(env.faults) <= env.faults
      ensures r.Ok? ==> Live() && !Refused(es, |buffer|)
      ensures r.Ok? ==> r.value == Cached(files, old(entries).Keys, pageBytes, es, buffer)
      ensures r.Ok? && Disjoint(es) ==> r.value == Direct(files, es, buffer)
      ensures r.Ok? ==> lru == Recency(old(entries).Keys, pageBytes, old(lru), Cut(es, pageBytes), maxPages)
      ensures r.Err? ==> entries == old(entries) && pages == old(pages)
      ensures r.Err? ==> Refused(es, |buffer|) || old(env.faults) < env.faults
      ensures Refused(es, |buffer|) ==> r.Err? && env.faults == old(env.faults)
      ensures ring == null || env.faults == old(env.faults) ==> Live()
      ensures Refused(es, |buffer|) ==> Live()
    {
      if !ValidRequest(files, es, |buffer|) { return Err(InvalidArgument); }
      var planned := PlanAll(es, buffer);
      if planned.Err? { return Err(planned.failure); }
      CutIsPaged(es, |buffer|);
      r := Complete(planned.value, Cut(es, pageBytes), buffer, old(lru));
      if r.Ok? && Disjoint(es) { CachedIsDirect(files, old(entries).Keys, pageBytes, es, buffer); }
    }

    /** The answer to a batch of extents that do not overlap is what direct reads give. */
    predicate Answers(batch: (seq<Extent>, seq<Byte>), output: seq<Byte>) {
      && ValidRequest(files, batch.0, |batch.1|)
      && (Disjoint(batch.0) ==> output == Direct(files, batch.0, batch.1))
    }

    /** One batch, and whether the next one may follow. */
    method ReadBatch(batch: (seq<Extent>, seq<Byte>)) returns (r: Result<seq<Byte>>, alive: bool)
      requires Live()
      modifies this, env, ring
      ensures Valid() && old(env.faults) <= env.faults && Right(batch, r)
      ensures Explained(batch, r) || old(env.faults) < env.faults
      ensures alive ==> Live()
      ensures ring == null || r.Ok? || Refused(batch.0, |batch.1|) ==> alive
      ensures !alive ==> old(env.faults) < env.faults
    {
      r := ReadExtents(batch.0, batch.1);
      alive := ring == null || r.Ok? || Refused(batch.0, |batch.1|);
    }

    /** Any number of batches, failed ones included: every successful answer is the direct
        read's, whatever earlier batches left in the cache, pushed out of it, or failed to
        bring. With blocking reads the sequence never ends early; with a ring it ends at the
        first batch that meets a fault, because its ring is then no longer drained. */
    method ReadBatches(batches: seq<(seq<Extent>, seq<Byte>)>) returns (outputs: seq<Result<seq<Byte>>>)
      requires Live()
      modifies this, env, ring
      ensures Valid() && AllRight(batches, outputs)
      ensures ring == null || env.faults == old(env.faults) ==> |outputs| == |batches| && Live()
      ensures env.faults == old(env.faults) ==> AllExplained(batches, outputs)
    {
      outputs := [];
      var alive := true;
      while alive && |outputs| < |batches|
        invariant Valid() && (alive ==> Live()) && (!alive ==> ring != null && old(env.faults) < env.faults)
        invariant old(env.faults) <= env.faults && AllRight(batches, outputs)
        invariant env.faults == old(env.faults) ==> AllExplained(batches, outputs)
        decreases alive, |batches| - |outputs|
      {
        outputs, alive := ReadNext(batches, outputs);
      }
    }

    method ReadNext(batches: seq<(seq<Extent>, seq<Byte>)>, outputs: seq<Result<seq<Byte>>>)
      returns (more: seq<Result<seq<Byte>>>, alive: bool)
      requires Live() && |outputs| < |batches| && AllRight(batches, outputs)
      modifies this, env, ring
      ensures Valid() && old(env.faults) <= env.faults && |more| == |outputs| + 1 && AllRight(batches, more)
      ensures AllExplained(batches, outputs) ==> AllExplained(batches, more) || old(env.faults) < env.faults
      ensures (alive ==> Live()) && (!alive ==> ring != null && old(env.faults) < env.faults)
    {
      var read;
      read, alive := ReadBatch(batches[|outputs|]);
      more := outputs + [read];
    }

    /** Every answer given is right. */
    predicate AllRight(batches: seq<(seq<Extent>, seq<Byte>)>, outputs: seq<Result<seq<Byte>>>) {
      |outputs| <= |batches| && forall i :: 0 <= i < |outputs| ==> Right(batches[i], outputs[i])
    }

    /** Only requests that a caller could tell were turned down. */
    predicate AllExplained(batches: seq<(seq<Extent>, seq<Byte>)>, outputs: seq<Result<seq<Byte>>>) {
      |outputs| <= |batches| && forall i :: 0 <= i < |outputs| ==> Explained(batches[i], outputs[i])
    }

    predicate Right(batch: (seq<Extent>, seq<Byte>), output: Result<seq<Byte>>) {
      output.Ok? ==> Answers(batch, output.value)
    }

    predicate Explained(batch: (seq<Extent>, seq<Byte>), output: Result<seq<Byte>>) {
      output.Err? ==> Refused(batch.0, |batch.1|)
    }

    lemma CutIsPaged(es: seq<Extent>, outputBytes: nat)
      requires ValidExtents(files, es, outputBytes) && Addressable() && AllNamed(es)
      ensures forall i :: 0 <= i < |Cut(es, pageBytes)| ==> Paged(files, pageBytes, Cut(es, pageBytes)[i], outputBytes)
    {
      CutIsValid(files, es, pageBytes, outputBytes);
      CutInPages(es, pageBytes);
    }

    /** Everything after planning. */
    method Complete(plan: Plan, ghost pieces: seq<Extent>, ghost buffer: seq<Byte>, ghost start: seq<nat>)
      returns (r: Result<seq<Byte>>)
      requires Recent(start, plan, pieces)
      requires Live() && PlanFits(files, pageBytes, entries.Keys, plan, pieces, buffer)
      requires forall i :: 0 <= i < |pieces| ==> Paged(files, pageBytes, pieces[i], |buffer|)
      modifies this, env, ring
      ensures Valid() && old(env.faults) <= env.faults
      ensures r.Ok? ==>
                && Live() && ValidExtents(files, Reordered(old(entries).Keys, pageBytes, pieces), |buffer|)
                && r.value == Direct(files, Reordered(old(entries).Keys, pageBytes, pieces), buffer)
                && lru == Recency(old(entries).Keys, pageBytes, start, pieces, maxPages)
      ensures r.Err? ==>
                && entries == old(entries) && pages == old(pages) && old(env.faults) < env.faults
                && (ring == null ==> Live())
    {
      var data := [];
      if plan.loads != [] {
        var fetched := Fetch(plan.loads);
        if fetched.Err? { return Err(fetched.failure); }
        data := fetched.value;
      }
      var output := CopyPending(plan, data, Select(entries.Keys, pageBytes, pieces, true),
                                Select(entries.Keys, pageBytes, pieces, false), buffer);
      var installed := InstallAll(plan.loads, plan.loadByKey, data);
      if installed.Err? { return Err(LogicError); }
      r := Ok(output);
    }
  }

  /** A blocking read that may come back in pieces. */
  method ReadFully(data: seq<Byte>, start: nat, bytes: nat, env: Environment) returns (r: Result<seq<Byte>>)
    requires start + bytes <= |data|
    modifies env
    ensures old(env.faults) <= env.faults
    ensures r.Ok? ==> r.value == data[start..start + bytes]
    ensures r.Err? ==> old(env.faults) < env.faults
  {
    var done := 0;
    var got := [];
    while done < bytes
      invariant done <= bytes && got == data[start..start + done] && old(env.faults) <= env.faults
      decreases bytes - done
    {
      var fault := env.Fault();
      if fault.Some? { return Err(RuntimeError); }
      var count: int := *;
      if !(0 < count <= bytes - done) { count := bytes - done; }
      got := got + data[start + done..start + done + count];
      done := done + count;
    }
    r := Ok(got);
  }

  /** The same read without a cache. */
  method ReadUncached(files: seq<seq<Byte>>, es: seq<Extent>, buffer: seq<Byte>, env: Environment)
    returns (r: Result<seq<Byte>>)
    modifies env
    ensures old(env.faults) <= env.faults
    ensures r.Ok? ==> ValidRequest(files, es, |buffer|) && r.value == Direct(files, es, buffer)
    ensures r.Err? ==> !ValidRequest(files, es, |buffer|) || old(env.faults) < env.faults
  {
    if !ValidRequest(files, es, |buffer|) { return Err(InvalidArgument); }
    var output := buffer;
    for j := 0 to |es|
      invariant output == Direct(files, es[..j], buffer) && old(env.faults) <= env.faults
    {
      var e := es[j];
      var read := ReadFully(files[e.file], e.offset, e.bytes, env);
      if read.Err? { return Err(read.failure); }
      output := Splice(output, e.outputOffset, read.value);
      assert es[..j + 1][..j] == es[..j];
    }
    assert es[..|es|] == es;
    r := Ok(output);
  }

  lemma {:induction false} PiecesInPages(e: Extent, copied: nat, pageBytes: Positive)
    requires copied <= e.bytes
    ensures forall i ::
              0 <= i < |Pieces(e, copied, pageBytes)| ==> InOnePage(Pieces(e, copied, pageBytes)[i], pageBytes)
    decreases e.bytes - copied
  {
    if copied < e.bytes { PiecesInPages(e, copied + PieceAt(e, copied, pageBytes).bytes, pageBytes); }
  }

  predicate InOnePage(piece: Extent, pageBytes: Positive) { piece.offset % pageBytes + piece.bytes <= pageBytes }

  lemma {:induction false} CutInPages(es: seq<Extent>, pageBytes: Positive)
    ensures forall i :: 0 <= i < |Cut(es, pageBytes)| ==> InOnePage(Cut(es, pageBytes)[i], pageBytes)
    decreases |es|
  {
    if es != [] {
      CutInPages(es[..|es| - 1], pageBytes);
      PiecesInPages(es[|es| - 1], 0, pageBytes);
    }
  }
}
