/** The snapshot journal: an append-only file of delta-encoded session snapshots, read back
    up to the last complete record. */
module Journal {
  import opened Contracts
  import opened Faults
  import opened Wire

  const SNAPSHOT_MAGIC: U32 := 0x4E383351
  const SAMPLER_MAGIC: U32 := 0x53383351
  const VERSION: U16 := 1
  const HEADER_BYTES: U16 := 176
  const COLD_REBUILD: U32 := 1
  const COLD_REBUILD_WITH_SAMPLE: U32 := 3

  datatype SamplerRecord = SamplerRecord(
    magic: U32, version: U16, headerBytes: U16, rng: U64, sampledTokens: U64, canonicalTokens: U64, penalty: U64)

  datatype Header = Header(
    magic: U32, version: U16, headerBytes: U16, identity: U64, sequence: U64, timestamp: U64,
    frontiers: StoredFrontiers, sampler: SamplerRecord,
    canonicalCount: U64, tokenStart: U64, tokenCount: U64, payloadBytes: U64, canonicalChecksum: U64,
    lastSample: int, flags: U32, recordChecksum: U64)

  /** A snapshot in memory: the header and the whole canonical list. */
  datatype Snapshot = Snapshot(header: Header, tokens: seq<Token>)

  /** The session the journal belongs to, and its two checksums. */
  datatype Identity = Identity(
    checksum: U64, contextLimit: U32,
    recordHash: (Header, seq<Token>) -> U64, tokenHash: seq<Token> -> U64)

  function RecordChecksum(id: Identity, h: Header, suffix: seq<Token>): U64 {
    id.recordHash(h.(recordChecksum := 0), suffix)
  }

  // ---------------------------------------------------------------------------
  // Bytes.
  // ---------------------------------------------------------------------------

  const WIDTHS: seq<nat> :=
    [4, 2, 2, 8, 8, 8] + [8, 8, 8, 8, 8, 8] + [4, 2, 2, 8, 8, 8, 8] + [8, 8, 8, 8, 8] + [4, 4, 8]

  function Fields(h: Header): (values: seq<nat>)
    requires Int32(h.lastSample)
    ensures |values| == |WIDTHS|
  {
    [h.magic, h.version, h.headerBytes, h.identity, h.sequence, h.timestamp]
    + [h.frontiers.canonical, h.frontiers.target, h.frontiers.stage0, h.frontiers.stage1, h.frontiers.draft,
       h.frontiers.epoch]
    + [h.sampler.magic, h.sampler.version, h.sampler.headerBytes, h.sampler.rng, h.sampler.sampledTokens,
       h.sampler.canonicalTokens, h.sampler.penalty]
    + [h.canonicalCount, h.tokenStart, h.tokenCount, h.payloadBytes, h.canonicalChecksum]
    + [Unsigned(h.lastSample), h.flags, h.recordChecksum]
  }

  /** A field of two, four or eight bytes always fits its type. */
  function Field16(n: nat): U16 { if n <= 0xFFFF then n else 0 }
  function Field32(n: nat): U32 { if n <= U32_MAX then n else 0 }
  function Field64(n: nat): U64 { if n <= U64_MAX then n else 0 }

  /** A 64-bit counter wraps. */
  function Narrow64(n: nat): U64 { n % 0x1_0000_0000_0000_0000 }

  function FromFields(v: seq<nat>): Header
    requires |v| == |WIDTHS|
  {
    Header(Field32(v[0]), Field16(v[1]), Field16(v[2]), Field64(v[3]), Field64(v[4]), Field64(v[5]),
           Frontiers(Field64(v[6]), Field64(v[7]), Field64(v[8]), Field64(v[9]), Field64(v[10]), Field64(v[11])),
           SamplerRecord(Field32(v[12]), Field16(v[13]), Field16(v[14]), Field64(v[15]), Field64(v[16]),
                         Field64(v[17]), Field64(v[18])),
           Field64(v[19]), Field64(v[20]), Field64(v[21]), Field64(v[22]), Field64(v[23]),
           Signed(Field32(v[24])), Field32(v[25]), Field64(v[26]))
  }

  lemma HeaderSize()
    ensures Total(WIDTHS) == HEADER_BYTES
  {
    TotalConcat([4, 2, 2, 8, 8, 8] + [8, 8, 8, 8, 8, 8] + [4, 2, 2, 8, 8, 8, 8] + [8, 8, 8, 8, 8], [4, 4, 8]);
    TotalConcat([4, 2, 2, 8, 8, 8] + [8, 8, 8, 8, 8, 8] + [4, 2, 2, 8, 8, 8, 8], [8, 8, 8, 8, 8]);
    TotalConcat([4, 2, 2, 8, 8, 8] + [8, 8, 8, 8, 8, 8], [4, 2, 2, 8, 8, 8, 8]);
    TotalConcat([4, 2, 2, 8, 8, 8], [8, 8, 8, 8, 8, 8]);
    assert Total([4, 2, 2, 8, 8, 8]) == 32 && Total([8, 8, 8, 8, 8, 8]) == 48;
    assert Total([4, 2, 2, 8, 8, 8, 8]) == 40 && Total([8, 8, 8, 8, 8]) == 40 && Total([4, 4, 8]) == 16;
  }

  lemma {:induction false} TotalConcat(a: seq<nat>, b: seq<nat>)
    ensures Total(a + b) == Total(a) + Total(b)
  {
    if a == [] { assert a + b == b; } else { assert (a + b)[1..] == a[1..] + b; TotalConcat(a[1..], b); }
  }

  function EncodeHeader(h: Header): (bytes: seq<Byte>)
    requires Int32(h.lastSample)
    ensures |bytes| == HEADER_BYTES
  {
    HeaderSize();
    EncodeFields(WIDTHS, Fields(h))
  }

  function DecodeHeader(bytes: seq<Byte>): Header
    requires |bytes| == HEADER_BYTES
  {
    HeaderSize();
    FromFields(DecodeFields(WIDTHS, bytes))
  }

  /** Where each field of the header begins. */
  const OFFSETS: seq<nat> :=
    [0, 4, 6, 8, 16, 24] + [32, 40, 48, 56, 64, 72] + [80, 84, 86, 88, 96, 104, 112] + [120, 128, 136, 144, 152]
    + [160, 164, 168]

  lemma {:induction false} OffsetIsTotal(i: nat)
    requires i < |WIDTHS|
    ensures Total(WIDTHS[..i]) == OFFSETS[i]
  {
    if i > 0 {
      OffsetIsTotal(i - 1);
      assert WIDTHS[..i] == WIDTHS[..i - 1] + [WIDTHS[i - 1]];
      TotalConcat(WIDTHS[..i - 1], [WIDTHS[i - 1]]);
      OffsetsStep(i - 1);
    }
  }

  lemma OffsetsStep(i: nat)
    requires i + 1 < |WIDTHS|
    ensures OFFSETS[i] + WIDTHS[i] == OFFSETS[i + 1]
  {
  }

  /** The bytes of the header at an offset. */
  predicate Holds(h: Header, offset: nat, width: nat, value: nat)
    requires Int32(h.lastSample)
  {
    offset + width <= HEADER_BYTES && EncodeHeader(h)[offset..offset + width] == Encode(width, value)
  }

  lemma FieldHolds(h: Header, i: nat, offset: nat, width: nat, value: nat)
    requires Int32(h.lastSample) && i < |WIDTHS|
    requires offset == OFFSETS[i] && width == WIDTHS[i] && value == Fields(h)[i]
    ensures Holds(h, offset, width, value)
  {
    OffsetIsTotal(i);
    HeaderSize();
    FieldAt(WIDTHS, Fields(h), i, offset);
  }

  /** The layout on disk, field by field. */
  lemma StartLayout(h: Header)
    requires Int32(h.lastSample)
    ensures Holds(h, 0, 4, h.magic) && Holds(h, 4, 2, h.version)
    ensures Holds(h, 6, 2, h.headerBytes) && Holds(h, 8, 8, h.identity)
    ensures Holds(h, 16, 8, h.sequence) && Holds(h, 24, 8, h.timestamp)
  {
    FieldHolds(h, 0, 0, 4, h.magic);
    FieldHolds(h, 1, 4, 2, h.version);
    FieldHolds(h, 2, 6, 2, h.headerBytes);
    FieldHolds(h, 3, 8, 8, h.identity);
    FieldHolds(h, 4, 16, 8, h.sequence);
    FieldHolds(h, 5, 24, 8, h.timestamp);
  }

  lemma FrontierLayout(h: Header)
    requires Int32(h.lastSample)
    ensures Holds(h, 32, 8, h.frontiers.canonical) && Holds(h, 40, 8, h.frontiers.target)
    ensures Holds(h, 48, 8, h.frontiers.stage0) && Holds(h, 56, 8, h.frontiers.stage1)
    ensures Holds(h, 64, 8, h.frontiers.draft) && Holds(h, 72, 8, h.frontiers.epoch)
  {
    FieldHolds(h, 6, 32, 8, h.frontiers.canonical);
    FieldHolds(h, 7, 40, 8, h.frontiers.target);
    FieldHolds(h, 8, 48, 8, h.frontiers.stage0);
    FieldHolds(h, 9, 56, 8, h.frontiers.stage1);
    FieldHolds(h, 10, 64, 8, h.frontiers.draft);
    FieldHolds(h, 11, 72, 8, h.frontiers.epoch);
  }

  lemma SamplerLayout(h: Header)
    requires Int32(h.lastSample)
    ensures Holds(h, 80, 4, h.sampler.magic) && Holds(h, 84, 2, h.sampler.version)
    ensures Holds(h, 86, 2, h.sampler.headerBytes) && Holds(h, 88, 8, h.sampler.rng)
    ensures Holds(h, 96, 8, h.sampler.sampledTokens) && Holds(h, 104, 8, h.sampler.canonicalTokens)
    ensures Holds(h, 112, 8, h.sampler.penalty)
  {
    FieldHolds(h, 12, 80, 4, h.sampler.magic);
    FieldHolds(h, 13, 84, 2, h.sampler.version);
    FieldHolds(h, 14, 86, 2, h.sampler.headerBytes);
    FieldHolds(h, 15, 88, 8, h.sampler.rng);
    FieldHolds(h, 16, 96, 8, h.sampler.sampledTokens);
    FieldHolds(h, 17, 104, 8, h.sampler.canonicalTokens);
    FieldHolds(h, 18, 112, 8, h.sampler.penalty);
  }

  lemma CountLayout(h: Header)
    requires Int32(h.lastSample)
    ensures Holds(h, 120, 8, h.canonicalCount) && Holds(h, 128, 8, h.tokenStart)
    ensures Holds(h, 136, 8, h.tokenCount) && Holds(h, 144, 8, h.payloadBytes)
    ensures Holds(h, 152, 8, h.canonicalChecksum)
  {
    FieldHolds(h, 19, 120, 8, h.canonicalCount);
    FieldHolds(h, 20, 128, 8, h.tokenStart);
    FieldHolds(h, 21, 136, 8, h.tokenCount);
    FieldHolds(h, 22, 144, 8, h.payloadBytes);
    FieldHolds(h, 23, 152, 8, h.canonicalChecksum);
  }

  lemma EndLayout(h: Header)
    requires Int32(h.lastSample)
    ensures Holds(h, 160, 4, Unsigned(h.lastSample)) && Holds(h, 164, 4, h.flags)
    ensures Holds(h, 168, 8, h.recordChecksum)
  {
    FieldHolds(h, 24, 160, 4, Unsigned(h.lastSample));
    FieldHolds(h, 25, 164, 4, h.flags);
    FieldHolds(h, 26, 168, 8, h.recordChecksum);
  }

  lemma FieldsFit(h: Header)
    requires Int32(h.lastSample)
    ensures Fit(WIDTHS, Fields(h))
  {
    assert Limit(2) == 0x1_0000;
    assert Limit(4) == 0x1_0000_0000 by { assert Limit(3) == 256 * Limit(2); }
    assert Limit(8) == 0x1_0000_0000_0000_0000 by {
      assert Limit(5) == 256 * Limit(4) && Limit(6) == 256 * Limit(5) && Limit(7) == 256 * Limit(6);
    }
  }

  lemma FieldsInvert(h: Header)
    requires Int32(h.lastSample)
    ensures FromFields(Fields(h)) == h
  {
  }

  /** A header survives the disk. */
  lemma HeaderRoundTrip(h: Header)
    requires Int32(h.lastSample)
    ensures DecodeHeader(EncodeHeader(h)) == h
  {
    HeaderSize();
    FieldsFit(h);
    var values := Fields(h);
    DecodeEncodeFields(WIDTHS, values);
    assert DecodeFields(WIDTHS, EncodeHeader(h)) == values;
    FieldsInvert(h);
  }

  // ---------------------------------------------------------------------------
  // What a snapshot must satisfy, and how a file is read back.
  // ---------------------------------------------------------------------------

  predicate ValidSnapshot(id: Identity, s: Snapshot) {
    var h := s.header;
    && h.magic == SNAPSHOT_MAGIC && h.version == VERSION && h.headerBytes == HEADER_BYTES
    && h.identity == id.checksum
    && h.sequence != 0 && h.canonicalCount == |s.tokens| <= id.contextLimit
    && h.frontiers.canonical == h.canonicalCount
    && h.frontiers.target <= h.frontiers.canonical <= h.frontiers.target + 1
    && ValidateFrontiers(h.frontiers)
    && (h.flags == COLD_REBUILD || h.flags == COLD_REBUILD_WITH_SAMPLE)
    && h.canonicalChecksum == id.tokenHash(s.tokens)
    && h.sampler.magic == SAMPLER_MAGIC && h.sampler.canonicalTokens == h.canonicalCount
    && (h.flags == COLD_REBUILD_WITH_SAMPLE ==> h.lastSample >= 0)
  }

  /** What has been rebuilt from the records read so far. */
  datatype Replay = Replay(tokens: seq<Token>, sequence: U64, current: Option<Snapshot>)

  const NOTHING := Replay([], 0, None)

  datatype LoadResult = Corrupt | Loaded(replay: Replay, validBytes: nat)

  predicate HeaderAccepted(id: Identity, r: Replay, h: Header) {
    && h.magic == SNAPSHOT_MAGIC && h.version == VERSION && h.headerBytes == HEADER_BYTES
    && h.identity == id.checksum
    && r.sequence < h.sequence
    && h.tokenStart <= |r.tokens| && h.tokenCount <= id.contextLimit
    && h.tokenStart + h.tokenCount == h.canonicalCount
    && h.payloadBytes == 4 * h.tokenCount
  }

  function Shifted(l: LoadResult, bytes: nat): LoadResult {
    if l.Corrupt? then Corrupt else Loaded(l.replay, bytes + l.validBytes)
  }

  /** The record at the front of `rest`: none complete, a wrong one, or one that advances. */
  datatype Front = Ended | Wrong | Advances(next: Replay, size: nat)

  function ReadRecord(id: Identity, r: Replay, rest: seq<Byte>): (f: Front)
    ensures f.Advances? ==> HEADER_BYTES <= f.size <= |rest|
  {
    if |rest| < HEADER_BYTES then Ended
    else
      var h := DecodeHeader(rest[..HEADER_BYTES]);
      if !HeaderAccepted(id, r, h) then Wrong
      else
        var size := HEADER_BYTES + 4 * h.tokenCount;
        if |rest| < size then Ended
        else
          var next := Replayed(id, r, h, DecodeInts(rest[HEADER_BYTES..size], h.tokenCount));
          if next.None? then Wrong else Advances(next.value, size)
  }

  /** A complete record reads the same whatever follows it. */
  lemma ReadRecordIsLocal(id: Identity, r: Replay, a: seq<Byte>, b: seq<Byte>)
    requires ReadRecord(id, r, a).Advances?
    requires ReadRecord(id, r, a).size <= |b| && a[..ReadRecord(id, r, a).size] == b[..ReadRecord(id, r, a).size]
    ensures ReadRecord(id, r, b) == ReadRecord(id, r, a)
  {
    var size := ReadRecord(id, r, a).size;
    assert a[..HEADER_BYTES] == a[..size][..HEADER_BYTES] && b[..HEADER_BYTES] == b[..size][..HEADER_BYTES];
    assert a[HEADER_BYTES..size] == a[..size][HEADER_BYTES..] && b[HEADER_BYTES..size] == b[..size][HEADER_BYTES..];
  }

  /** A way to find the record at the front of some bytes. */
  type Reading = (Replay, seq<Byte>) -> Front

  /** Reads records until the bytes end or break off; a complete but wrong record is an error. */
  function Scan(read: Reading, r: Replay, rest: seq<Byte>): LoadResult
    decreases |rest|
  {
    match read(r, rest)
    case Ended => Loaded(r, 0)
    case Wrong => Corrupt
    case Advances(next, size) =>
      if 0 < size <= |rest| then Shifted(Scan(read, next, rest[size..]), size) else Corrupt
  }

  /** A record has bytes of its own, and reads the same whatever follows it. */
  ghost predicate Local(read: Reading) {
    && (forall r :: read(r, []).Ended?)
    && (forall r, a :: read(r, a).Advances? ==> 0 < read(r, a).size <= |a|)
    && (forall r, a, b :: ReadsAlike(read, r, a, b))
  }

  ghost predicate ReadsAlike(read: Reading, r: Replay, a: seq<Byte>, b: seq<Byte>) {
    var f := read(r, a);
    f.Advances? && f.size <= |a| && f.size <= |b| && a[..f.size] == b[..f.size] ==> read(r, b) == f
  }

  function Reader(id: Identity): Reading { (r, rest) => ReadRecord(id, r, rest) }

  /** What a file holds for a process that has read `r` so far. */
  function Load(id: Identity, r: Replay, rest: seq<Byte>): LoadResult { Scan(Reader(id), r, rest) }

  function Replayed(id: Identity, r: Replay, h: Header, suffix: seq<Token>): Option<Replay>
    requires h.tokenStart <= |r.tokens|
  {
    var tokens := r.tokens[..h.tokenStart] + suffix;
    var candidate := Snapshot(h, tokens);
    if h.recordChecksum != RecordChecksum(id, h, suffix) || !ValidSnapshot(id, candidate) then None
    else Some(Replay(tokens, h.sequence, Some(candidate)))
  }

  // ---------------------------------------------------------------------------
  // What an append writes.
  // ---------------------------------------------------------------------------

  function CommonPrefix(a: seq<Token>, b: seq<Token>): (n: nat)
    ensures n <= |a| && n <= |b| && a[..n] == b[..n]
    ensures n < |a| && n < |b| ==> a[n] != b[n]
  {
    if a == [] || b == [] || a[0] != b[0] then 0
    else
      var n := CommonPrefix(a[1..], b[1..]);
      assert a[..n + 1] == [a[0]] + a[1..][..n] && b[..n + 1] == [b[0]] + b[1..][..n];
      n + 1
  }

  predicate Storable(s: Snapshot) {
    Int32s(s.tokens) && Int32(s.header.lastSample) && |s.tokens| <= U32_MAX
  }

  /** The header on disk for the successor of `current`. */
  function Sealed(id: Identity, current: Snapshot, s: Snapshot, now: U64): Header
    requires Storable(s)
  {
    var common := CommonPrefix(current.tokens, s.tokens);
    var h := s.header.(
      identity := id.checksum, sequence := Narrow64(current.header.sequence + 1), timestamp := now,
      canonicalCount := |s.tokens|, canonicalChecksum := id.tokenHash(s.tokens),
      tokenStart := common, tokenCount := |s.tokens| - common, payloadBytes := 4 * (|s.tokens| - common));
    h.(recordChecksum := RecordChecksum(id, h, s.tokens[common..]))
  }

  function RecordOf(id: Identity, current: Snapshot, s: Snapshot, now: U64): seq<Byte>
    requires Storable(s)
  {
    var h := Sealed(id, current, s, now);
    EncodeHeader(h) + EncodeInts(s.tokens[h.tokenStart..])
  }

  predicate Appendable(id: Identity, current: Snapshot, s: Snapshot, now: U64)
    requires Storable(s)
  {
    ValidSnapshot(id, Snapshot(Sealed(id, current, s, now), s.tokens))
  }

  /** The in-memory form: the header describes the whole list again. */
  function Whole(s: Snapshot): Snapshot
    requires |s.tokens| <= U32_MAX
  {
    s.(header := s.header.(tokenStart := 0, tokenCount := |s.tokens|, payloadBytes := 4 * |s.tokens|))
  }

  function Appended(id: Identity, current: Snapshot, s: Snapshot, now: U64): Snapshot
    requires Storable(s)
  {
    Whole(Snapshot(Sealed(id, current, s, now), s.tokens))
  }

  /** What an append writes and remembers: only the tokens behind the common prefix, the next
      sequence number, and the given state. */
  lemma AppendWrites(id: Identity, current: Snapshot, s: Snapshot, now: U64, n: nat)
    requires Storable(s) && Appendable(id, current, s, now)
    requires n <= |current.tokens| && n <= |s.tokens| && current.tokens[..n] == s.tokens[..n]
    requires n < |current.tokens| && n < |s.tokens| ==> current.tokens[n] != s.tokens[n]
    ensures |RecordOf(id, current, s, now)| == 176 + 4 * (|s.tokens| - n)
    ensures var a := Appended(id, current, s, now);
            && a.tokens == s.tokens && a.header.sequence == current.header.sequence + 1 && a.header.timestamp == now
            && a.header.frontiers == s.header.frontiers && a.header.sampler == s.header.sampler
            && a.header.lastSample == s.header.lastSample && a.header.flags == s.header.flags
  {
    PrefixIsCommon(current.tokens, s.tokens, n);
  }

  lemma PrefixIsCommon(a: seq<Token>, b: seq<Token>, n: nat)
    requires n <= |a| && n <= |b| && a[..n] == b[..n] && (n < |a| && n < |b| ==> a[n] != b[n])
    ensures CommonPrefix(a, b) == n
  {
    assert forall i :: 0 <= i < n ==> a[..n][i] == b[..n][i];
    var k := CommonPrefix(a, b);
    assert forall i :: 0 <= i < k ==> a[..k][i] == b[..k][i];
  }

  // ---------------------------------------------------------------------------
  // Recovery.
  // ---------------------------------------------------------------------------

  lemma ReaderIsLocal(id: Identity)
    ensures Local(Reader(id))
  {
    forall r, a, b ensures ReadsAlike(Reader(id), r, a, b) {
      var f := ReadRecord(id, r, a);
      if f.Advances? && f.size <= |b| && a[..f.size] == b[..f.size] { ReadRecordIsLocal(id, r, a, b); }
    }
  }

  lemma {:induction false} ScanResumes(read: Reading, r: Replay, a: seq<Byte>, b: seq<Byte>)
    requires Local(read) && Scan(read, r, a).Loaded? && Scan(read, r, a).validBytes == |a|
    ensures Scan(read, r, a + b) == Shifted(Scan(read, Scan(read, r, a).replay, b), |a|)
    decreases |a|
  {
    var f := read(r, a);
    if f.Ended? {
      assert a + b == b;
    } else {
      var tail := a[f.size..];
      ScanResumes(read, f.next, tail, b);
      CutOfConcat(a, b, f.size);
      ScanFront(read, r, a, a + b, Scan(read, f.next, tail + b));
    }
  }

  lemma CutOfConcat(a: seq<Byte>, b: seq<Byte>, n: nat)
    requires n <= |a|
    ensures (a + b)[..n] == a[..n] && (a + b)[n..] == a[n..] + b
  {
  }

  /** A record in front, read back with anything behind it. */
  lemma ScanFront(read: Reading, r: Replay, rest: seq<Byte>, other: seq<Byte>, behind: LoadResult)
    requires Local(read) && read(r, rest).Advances?
    requires var f := read(r, rest);
             f.size <= |other| && other[..f.size] == rest[..f.size] && Scan(read, f.next, other[f.size..]) == behind
    ensures Scan(read, r, other) == Shifted(behind, read(r, rest).size)
  {
    assert ReadsAlike(read, r, rest, other);
  }

  /** Reading resumes after a fully consumed prefix where reading that prefix ended. */
  lemma LoadResumes(id: Identity, r: Replay, a: seq<Byte>, b: seq<Byte>)
    requires Load(id, r, a).Loaded? && Load(id, r, a).validBytes == |a|
    ensures Load(id, r, a + b) == Shifted(Load(id, Load(id, r, a).replay, b), |a|)
  {
    ReaderIsLocal(id);
    ScanResumes(Reader(id), r, a, b);
  }

  /** What the reader makes of one appended record. */
  lemma RecordReadsBack(id: Identity, r: Replay, current: Snapshot, s: Snapshot, now: U64)
    requires Storable(s) && Appendable(id, current, s, now)
    requires r.tokens == current.tokens && r.sequence == current.header.sequence
    ensures var record := RecordOf(id, current, s, now); var h := Sealed(id, current, s, now);
            Load(id, r, record) == Loaded(Replay(s.tokens, h.sequence, Some(Snapshot(h, s.tokens))), |record|)
  {
    var record, h := RecordOf(id, current, s, now), Sealed(id, current, s, now);
    RecordAdvances(id, r, current, s, now);
    assert record[|record|..] == [];
    NothingLoads(id, Replay(s.tokens, h.sequence, Some(Snapshot(h, s.tokens))));
    LoadFront(id, r, record);
  }

  lemma NothingLoads(id: Identity, r: Replay)
    ensures Load(id, r, []) == Loaded(r, 0)
  {
  }

  lemma LoadFront(id: Identity, r: Replay, rest: seq<Byte>)
    requires ReadRecord(id, r, rest).Advances?
    ensures var f := ReadRecord(id, r, rest); Load(id, r, rest) == Shifted(Load(id, f.next, rest[f.size..]), f.size)
  {
  }

  lemma RecordAdvances(id: Identity, r: Replay, current: Snapshot, s: Snapshot, now: U64)
    requires Storable(s) && Appendable(id, current, s, now)
    requires r.tokens == current.tokens && r.sequence == current.header.sequence
    ensures var record := RecordOf(id, current, s, now); var h := Sealed(id, current, s, now);
            ReadRecord(id, r, record) == Advances(Replay(s.tokens, h.sequence, Some(Snapshot(h, s.tokens))), |record|)
  {
    var record, h := RecordOf(id, current, s, now), Sealed(id, current, s, now);
    var suffix := s.tokens[h.tokenStart..];
    RecordParts(id, r, current, s, now);
    assert DecodeInts(record[HEADER_BYTES..|record|], h.tokenCount) == suffix by {
      TwoParts(EncodeHeader(h), EncodeInts(suffix));
      DecodeEncodeInts(suffix);
    }
    SuffixCompletes(id, current, s, now);
  }

  lemma SuffixCompletes(id: Identity, current: Snapshot, s: Snapshot, now: U64)
    requires Storable(s)
    ensures var h := Sealed(id, current, s, now);
            h.tokenStart <= |current.tokens| && current.tokens[..h.tokenStart] + s.tokens[h.tokenStart..] == s.tokens
  {
    var n := CommonPrefix(current.tokens, s.tokens);
    assert s.tokens == s.tokens[..n] + s.tokens[n..];
  }

  lemma TwoParts(a: seq<Byte>, b: seq<Byte>)
    ensures (a + b)[..|a|] == a && (a + b)[|a|..|a + b|] == b
  {
  }

  lemma RecordParts(id: Identity, r: Replay, current: Snapshot, s: Snapshot, now: U64)
    requires Storable(s) && Appendable(id, current, s, now)
    requires r.tokens == current.tokens && r.sequence == current.header.sequence
    ensures var record := RecordOf(id, current, s, now); var h := Sealed(id, current, s, now);
            && |record| == HEADER_BYTES + 4 * h.tokenCount
            && DecodeHeader(record[..HEADER_BYTES]) == h && HeaderAccepted(id, r, h)
  {
    var record, h := RecordOf(id, current, s, now), Sealed(id, current, s, now);
    HeaderRoundTrip(h);
    TwoParts(EncodeHeader(h), EncodeInts(s.tokens[h.tokenStart..]));
  }

  /** A record that breaks off anywhere is not there at all. */
  lemma TornRecordIsIgnored(id: Identity, r: Replay, current: Snapshot, s: Snapshot, now: U64, n: nat)
    requires Storable(s) && Appendable(id, current, s, now)
    requires r.tokens == current.tokens && r.sequence == current.header.sequence
    requires n < |RecordOf(id, current, s, now)|
    ensures Load(id, r, RecordOf(id, current, s, now)[..n]) == Loaded(r, 0)
  {
    RecordParts(id, r, current, s, now);
    if n >= HEADER_BYTES {
      var record := RecordOf(id, current, s, now);
      assert record[..n][..HEADER_BYTES] == record[..HEADER_BYTES];
    }
  }

  /** `file` holds complete records only, and replaying them gives `current`. */
  ghost predicate Intact(id: Identity, file: seq<Byte>, current: Snapshot) {
    && |current.tokens| <= U32_MAX
    && var l := Load(id, NOTHING, file);
       && l.Loaded? && l.validBytes == |file|
       && l.replay.tokens == current.tokens && l.replay.sequence == current.header.sequence
       && (l.replay.current.Some? <==> l.replay.sequence != 0)
       && (l.replay.current.Some? ==>
           l.replay.current.value.tokens == current.tokens && Whole(l.replay.current.value) == Whole(current))
  }

  lemma AppendKeepsIntact(id: Identity, file: seq<Byte>, current: Snapshot, s: Snapshot, now: U64)
    requires Intact(id, file, current) && Storable(s) && Appendable(id, current, s, now)
    ensures Intact(id, file + RecordOf(id, current, s, now), Appended(id, current, s, now))
  {
    var l := Load(id, NOTHING, file);
    LoadResumes(id, NOTHING, file, RecordOf(id, current, s, now));
    RecordReadsBack(id, l.replay, current, s, now);
  }

  lemma TornTailIsCut(id: Identity, file: seq<Byte>, current: Snapshot, s: Snapshot, now: U64, n: nat)
    requires Intact(id, file, current) && Storable(s) && Appendable(id, current, s, now)
    requires n < |RecordOf(id, current, s, now)|
    ensures Load(id, NOTHING, file + RecordOf(id, current, s, now)[..n]) == Load(id, NOTHING, file)
  {
    var l := Load(id, NOTHING, file);
    LoadResumes(id, NOTHING, file, RecordOf(id, current, s, now)[..n]);
    TornRecordIsIgnored(id, l.replay, current, s, now, n);
  }

  /** The journal as two values: the file, and the snapshot the process remembers. */
  datatype Disk = Disk(file: seq<Byte>, current: Snapshot)

  const BLANK_HEADER := Header(
    SNAPSHOT_MAGIC, VERSION, HEADER_BYTES, 0, 0, 0, ZERO_FRONTIERS,
    SamplerRecord(SAMPLER_MAGIC, VERSION, 40, 1, 0, 0, 0), 0, 0, 0, 0, 0, -1, COLD_REBUILD, 0)

  const BLANK := Snapshot(BLANK_HEADER, [])

  /** What a restarted process remembers after reading `r`. */
  function Reloaded(r: Replay): Snapshot {
    match r.current
    case None => BLANK
    case Some(s) => s.(header := s.header.(tokenStart := 0))
  }

  /** What happens to a journal: an append, a restart, or an append whose write breaks off after
      `written` bytes, which takes the process down. */
  datatype Act =
    | Append(s: Snapshot, now: U64)
    | Restart
    | Crash(s: Snapshot, now: U64, written: nat)

  /** Opening a file: complete records are replayed, a torn tail is cut off. */
  function Reopened(id: Identity, d: Disk): Disk {
    var l := Load(id, NOTHING, d.file);
    if l.Loaded? && l.validBytes <= |d.file| then Disk(d.file[..l.validBytes], Reloaded(l.replay)) else d
  }

  /** One act; an append that validation refuses changes nothing. */
  function Acted(id: Identity, d: Disk, act: Act): Disk {
    match act
    case Restart => Reopened(id, d)
    case Append(s, now) =>
      if Storable(s) && Appendable(id, d.current, s, now)
      then Disk(d.file + RecordOf(id, d.current, s, now), Appended(id, d.current, s, now))
      else d
    case Crash(s, now, written) =>
      if Storable(s) && Appendable(id, d.current, s, now)
      then
        var record := RecordOf(id, d.current, s, now);
        Reopened(id, d.(file := d.file + record[..Min(written, |record|)]))
      else Reopened(id, d)
  }

  function History(id: Identity, acts: seq<Act>): Disk {
    if acts == [] then Disk([], BLANK) else Acted(id, History(id, acts[..|acts| - 1]), acts[|acts| - 1])
  }

  /** Equal in everything but how the last record was cut. */
  predicate SameState(a: Snapshot, b: Snapshot) {
    && a.tokens == b.tokens
    && a.header == b.header.(tokenStart := a.header.tokenStart, tokenCount := a.header.tokenCount,
                             payloadBytes := a.header.payloadBytes)
  }

  /** Reopening an intact journal keeps the file and the state. */
  lemma ReopenIntact(id: Identity, d: Disk)
    requires Intact(id, d.file, d.current)
    ensures var e := Reopened(id, d);
            && e.file == d.file && Intact(id, e.file, e.current) && e.current.tokens == d.current.tokens
            && (d.current.header.sequence != 0 ==> SameState(e.current, d.current))
  {
    assert d.file[..|d.file|] == d.file;
    LoadIsSound(id, NOTHING, d.file);
  }

  /** A crash while writing leaves the old state or, if all was written, the new one. */
  lemma CrashKeepsIntact(id: Identity, d: Disk, s: Snapshot, now: U64, written: nat)
    requires Intact(id, d.file, d.current) && Storable(s) && Appendable(id, d.current, s, now)
    ensures var e := Acted(id, d, Crash(s, now, written)); var record := RecordOf(id, d.current, s, now);
            && Intact(id, e.file, e.current)
            && (written < |record| ==> e == Reopened(id, d) && e.file == d.file)
            && (written >= |record| ==> e == Reopened(id, Acted(id, d, Append(s, now))))
  {
    var record := RecordOf(id, d.current, s, now);
    if written < |record| {
      TornTailIsCut(id, d.file, d.current, s, now, written);
      assert (d.file + record[..written])[..|d.file|] == d.file;
      ReopenIntact(id, d);
    } else {
      assert record[..|record|] == record;
      AppendKeepsIntact(id, d.file, d.current, s, now);
      ReopenIntact(id, Acted(id, d, Append(s, now)));
    }
  }

  lemma ActKeepsIntact(id: Identity, d: Disk, act: Act)
    requires Intact(id, d.file, d.current)
    ensures Intact(id, Acted(id, d, act).file, Acted(id, d, act).current)
  {
    match act
    case Restart => ReopenIntact(id, d);
    case Append(s, now) =>
      if Storable(s) && Appendable(id, d.current, s, now) { AppendKeepsIntact(id, d.file, d.current, s, now); }
    case Crash(s, now, written) =>
      if Storable(s) && Appendable(id, d.current, s, now) {
        CrashKeepsIntact(id, d, s, now, written);
      } else {
        ReopenIntact(id, d);
      }
  }

  /** Every sequence of appends, restarts and broken writes leaves complete records only, which
      replay to the snapshot in memory. */
  lemma {:induction false} HistoryIsIntact(id: Identity, acts: seq<Act>)
    ensures Intact(id, History(id, acts).file, History(id, acts).current)
  {
    if acts != [] {
      HistoryIsIntact(id, acts[..|acts| - 1]);
      ActKeepsIntact(id, History(id, acts[..|acts| - 1]), acts[|acts| - 1]);
    }
  }

  /** The token list a history should end with: that of the last append that was written whole. */
  function LastWritten(id: Identity, acts: seq<Act>): seq<Token> {
    if acts == [] then []
    else
      var d, before := History(id, acts[..|acts| - 1]), LastWritten(id, acts[..|acts| - 1]);
      match acts[|acts| - 1]
      case Restart => before
      case Append(s, now) => if Storable(s) && Appendable(id, d.current, s, now) then s.tokens else before
      case Crash(s, now, written) =>
        if Storable(s) && Appendable(id, d.current, s, now)
           && written >= |RecordOf(id, d.current, s, now)|
        then s.tokens
        else before
  }

  /** And does. */
  lemma {:induction false} HistoryRemembers(id: Identity, acts: seq<Act>)
    ensures History(id, acts).current.tokens == LastWritten(id, acts)
  {
    if acts != [] {
      var earlier, act := acts[..|acts| - 1], acts[|acts| - 1];
      HistoryRemembers(id, earlier);
      HistoryIsIntact(id, earlier);
      ActRemembers(id, History(id, earlier), act);
    }
  }

  lemma ActRemembers(id: Identity, d: Disk, act: Act)
    requires Intact(id, d.file, d.current)
    ensures Acted(id, d, act).current.tokens ==
            match act
            case Restart => d.current.tokens
            case Append(s, now) =>
              if Storable(s) && Appendable(id, d.current, s, now) then s.tokens else d.current.tokens
            case Crash(s, now, written) =>
              if Storable(s) && Appendable(id, d.current, s, now)
                 && written >= |RecordOf(id, d.current, s, now)|
              then s.tokens
              else d.current.tokens
  {
    ReopenIntact(id, d);
    if act.Crash? && Storable(act.s) && Appendable(id, d.current, act.s, act.now) {
      CrashKeepsIntact(id, d, act.s, act.now, act.written);
      AppendKeepsIntact(id, d.file, d.current, act.s, act.now);
      ReopenIntact(id, Acted(id, d, Append(act.s, act.now)));
    }
  }

  /** After every history, followed by any strict prefix of one more record: the restarted
      process remembers the last complete snapshot, keeps exactly the complete records, and
      can append again. */
  lemma EveryHistoryRecovers(id: Identity, acts: seq<Act>, s: Snapshot, now: U64, n: nat)
    requires Storable(s) && Appendable(id, History(id, acts).current, s, now)
    requires n < |RecordOf(id, History(id, acts).current, s, now)|
    ensures var d := History(id, acts); var e := Acted(id, d, Crash(s, now, n));
            && e.file == d.file && Intact(id, e.file, e.current) && e.current.tokens == LastWritten(id, acts)
            && (d.current.header.sequence != 0 ==> SameState(e.current, d.current))
  {
    HistoryIsIntact(id, acts);
    HistoryRemembers(id, acts);
    var d := History(id, acts);
    CrashKeepsIntact(id, d, s, now, n);
    ReopenIntact(id, d);
  }

  /** The three fields that describe the cut survive a restart exactly when the last record
      shared no prefix with the one before it. */
  lemma CutSurvivesOnlyWholeRecords(id: Identity, file: seq<Byte>, current: Snapshot, s: Snapshot, now: U64)
    requires Intact(id, file, current) && Storable(s) && Appendable(id, current, s, now)
    ensures var l := Load(id, NOTHING, file + RecordOf(id, current, s, now));
            && l.Loaded?
            && (Reloaded(l.replay) == Appended(id, current, s, now) <==> CommonPrefix(current.tokens, s.tokens) == 0)
  {
    var l := Load(id, NOTHING, file);
    LoadResumes(id, NOTHING, file, RecordOf(id, current, s, now));
    RecordReadsBack(id, l.replay, current, s, now);
  }

  // ---------------------------------------------------------------------------
  // Which records are let in.
  // ---------------------------------------------------------------------------

  /** The bytes begin with a complete record of this header and these tokens. */
  ghost predicate Begins(rest: seq<Byte>, h: Header, suffix: seq<Token>) {
    && HEADER_BYTES + 4 * |suffix| <= |rest| && |suffix| == h.tokenCount
    && DecodeHeader(rest[..HEADER_BYTES]) == h
    && DecodeInts(rest[HEADER_BYTES..HEADER_BYTES + 4 * |suffix|], |suffix|) == suffix
  }

  /** A complete record, whatever follows it, is taken exactly if it is the journal's own, newer
      than the last, continues the tokens so far, describes a valid state and carries the
      checksums of what it holds; any other one is an error. */
  lemma RecordVerdict(id: Identity, r: Replay, h: Header, suffix: seq<Token>, rest: seq<Byte>)
    requires Begins(rest, h, suffix)
    ensures var f := ReadRecord(id, r, rest);
            && !f.Ended?
            && (f.Advances? <==>
                  && h.magic == 0x4E383351 && h.version == 1 && h.headerBytes == 176 && h.identity == id.checksum
                  && r.sequence < h.sequence && h.tokenStart <= |r.tokens|
                  && h.tokenStart + |suffix| == h.canonicalCount == h.frontiers.canonical <= id.contextLimit
                  && h.payloadBytes == 4 * |suffix|
                  && h.recordChecksum == id.recordHash(h.(recordChecksum := 0), suffix)
                  && h.canonicalChecksum == id.tokenHash(r.tokens[..h.tokenStart] + suffix)
                  && h.frontiers.canonical - 1 <= h.frontiers.target <= h.frontiers.canonical
                  && h.frontiers.stage0 == h.frontiers.stage1 == h.frontiers.target
                  && h.frontiers.draft <= h.frontiers.canonical
                  && (h.flags == 1 || (h.flags == 3 && h.lastSample >= 0))
                  && h.sampler.magic == 0x53383351 && h.sampler.canonicalTokens == h.canonicalCount)
            && (f.Advances? ==>
                  && f.size == HEADER_BYTES + 4 * |suffix|
                  && f.next.tokens == r.tokens[..h.tokenStart] + suffix && f.next.sequence == h.sequence
                  && f.next.current == Some(Snapshot(h, r.tokens[..h.tokenStart] + suffix)))
  {
    CompleteRecord(id, r, h, suffix, rest);
    if HeaderAccepted(id, r, h) { ReplayedExactly(id, r, h, suffix); }
  }

  lemma CompleteRecord(id: Identity, r: Replay, h: Header, suffix: seq<Token>, rest: seq<Byte>)
    requires Begins(rest, h, suffix)
    ensures ReadRecord(id, r, rest) ==
            if !HeaderAccepted(id, r, h) || Replayed(id, r, h, suffix).None? then Wrong
            else Advances(Replayed(id, r, h, suffix).value, HEADER_BYTES + 4 * |suffix|)
  {
  }

  lemma ReplayedExactly(id: Identity, r: Replay, h: Header, suffix: seq<Token>)
    requires HeaderAccepted(id, r, h) && |suffix| == h.tokenCount
    ensures var n := Replayed(id, r, h, suffix);
            && (n.Some? <==>
                  && h.recordChecksum == id.recordHash(h.(recordChecksum := 0), suffix)
                  && ValidSnapshot(id, Snapshot(h, r.tokens[..h.tokenStart] + suffix)))
            && (n.Some? ==>
                  n.value == Replay(r.tokens[..h.tokenStart] + suffix, h.sequence,
                                    Some(Snapshot(h, r.tokens[..h.tokenStart] + suffix))))
  {
  }

  lemma RecordDecodes(h: Header, suffix: seq<Token>, tail: seq<Byte>)
    requires Int32(h.lastSample) && Int32s(suffix) && |suffix| == h.tokenCount
    ensures Begins(EncodeHeader(h) + EncodeInts(suffix) + tail, h, suffix)
  {
    HeaderRoundTrip(h);
    DecodeEncodeInts(suffix);
    ThreeParts(EncodeHeader(h), EncodeInts(suffix), tail);
  }

  lemma ThreeParts(a: seq<Byte>, b: seq<Byte>, c: seq<Byte>)
    ensures (a + b + c)[..|a|] == a && (a + b + c)[|a|..|a| + |b|] == b
  {
  }

  /** So an appended record that was altered behind the journal's back is found out, unless the
      record checksum cannot tell the two apart. */
  lemma AlteredRecordIsCorrupt(id: Identity, file: seq<Byte>, current: Snapshot, s: Snapshot, now: U64,
                               h: Header, suffix: seq<Token>, tail: seq<Byte>)
    requires Intact(id, file, current) && Storable(s) && Appendable(id, current, s, now)
    requires Int32(h.lastSample) && Int32s(suffix) && |suffix| == h.tokenCount
    requires var own := Sealed(id, current, s, now);
             && h.recordChecksum == own.recordChecksum
             && id.recordHash(h.(recordChecksum := 0), suffix)
                != id.recordHash(own.(recordChecksum := 0), s.tokens[own.tokenStart..])
    ensures Load(id, NOTHING, file + (EncodeHeader(h) + EncodeInts(suffix) + tail)) == Corrupt
  {
    var record := EncodeHeader(h) + EncodeInts(suffix) + tail;
    LoadResumes(id, NOTHING, file, record);
    RecordDecodes(h, suffix, tail);
    RecordVerdict(id, Load(id, NOTHING, file).replay, h, suffix, record);
  }

  /** The records a scan takes: what had been read before each one, and the bytes from it on. */
  ghost function Taken(read: Reading, r: Replay, rest: seq<Byte>): seq<(Replay, seq<Byte>)>
    decreases |rest|
  {
    match read(r, rest)
    case Advances(next, size) =>
      if 0 < size <= |rest| then [(r, rest)] + Taken(read, next, rest[size..]) else []
    case _ => []
  }

  /** They follow each other from the first byte to the last valid one. */
  lemma {:induction false} TakenFollow(read: Reading, r: Replay, rest: seq<Byte>, i: nat)
    requires Scan(read, r, rest).Loaded? && i < |Taken(read, r, rest)|
    ensures var taken := Taken(read, r, rest); var f := read(taken[i].0, taken[i].1);
            && taken[0] == (r, rest) && f.Advances? && 0 < f.size <= |taken[i].1|
            && (i + 1 < |taken| ==> taken[i + 1] == (f.next, taken[i].1[f.size..]))
            && (i + 1 == |taken| ==> |taken[i].1| - f.size == |rest| - Scan(read, r, rest).validBytes)
    decreases |rest|
  {
    var f := read(r, rest);
    if i > 0 { TakenFollow(read, f.next, rest[f.size..], i - 1); }
  }

  /** Whatever a file holds, every record a successful load has taken from it is the journal's
      own, newer than the one before, and carries the checksum of its own contents. */
  lemma TakenAreSealed(id: Identity, r: Replay, rest: seq<Byte>, i: nat)
    requires Load(id, r, rest).Loaded? && i < |Taken(Reader(id), r, rest)|
    ensures var (before, bytes) := Taken(Reader(id), r, rest)[i];
            && HEADER_BYTES <= |bytes|
            && var h := DecodeHeader(bytes[..HEADER_BYTES]);
               var size := HEADER_BYTES + 4 * h.tokenCount;
               && size <= |bytes| && h.identity == id.checksum && before.sequence < h.sequence
               && h.recordChecksum
                  == id.recordHash(h.(recordChecksum := 0), DecodeInts(bytes[HEADER_BYTES..size], h.tokenCount))
  {
    TakenFollow(Reader(id), r, rest, i);
  }

  // ---------------------------------------------------------------------------
  // The class.
  // ---------------------------------------------------------------------------

  ghost predicate Sound(id: Identity, r: Replay) {
    && |r.tokens| <= U32_MAX
    && (r.current.Some? <==> r.sequence != 0)
    && (r.current.Some? ==> r.current.value.tokens == r.tokens && r.current.value.header.sequence == r.sequence)
    && (r.current.None? ==> r.tokens == [])
  }

  lemma {:induction false} ScanIsSound(id: Identity, r: Replay, rest: seq<Byte>)
    requires Sound(id, r) && Scan(Reader(id), r, rest).Loaded?
    ensures Sound(id, Scan(Reader(id), r, rest).replay)
    decreases |rest|
  {
    var f := ReadRecord(id, r, rest);
    if f.Advances? { ScanIsSound(id, f.next, rest[f.size..]); }
  }

  lemma LoadIsSound(id: Identity, r: Replay, rest: seq<Byte>)
    requires Sound(id, r) && Load(id, r, rest).Loaded?
    ensures Sound(id, Load(id, r, rest).replay)
  {
    ScanIsSound(id, r, rest);
  }

  lemma KeptParts(rest: seq<Byte>, size: nat, n: nat)
    requires size + n <= |rest|
    ensures rest[..size + n][..size] == rest[..size] && rest[..size + n][size..] == rest[size..][..n]
  {
  }

  lemma {:induction false} ScanSuffices(read: Reading, r: Replay, rest: seq<Byte>, l: LoadResult)
    requires Local(read) && l == Scan(read, r, rest) && l.Loaded?
    ensures l.validBytes <= |rest| && Scan(read, r, rest[..l.validBytes]) == l
    decreases |rest|
  {
    var f := read(r, rest);
    if f.Advances? {
      var behind := Scan(read, f.next, rest[f.size..]);
      ScanSuffices(read, f.next, rest[f.size..], behind);
      KeptParts(rest, f.size, behind.validBytes);
      ScanFront(read, r, rest, rest[..l.validBytes], behind);
    } else {
      assert rest[..0] == [];
    }
  }

  /** Cutting the file to its valid bytes changes nothing about what it holds. */
  lemma ValidBytesSuffice(id: Identity, r: Replay, rest: seq<Byte>, l: LoadResult)
    requires l == Load(id, r, rest) && l.Loaded?
    ensures l.validBytes <= |rest| && Load(id, r, rest[..l.validBytes]) == l
  {
    ReaderIsLocal(id);
    ScanSuffices(Reader(id), r, rest, l);
  }

  /** The read loop. */
  method LoadFile(id: Identity, file: seq<Byte>) returns (l: LoadResult)
    ensures l == Load(id, NOTHING, file)
  {
    var r, rest := NOTHING, file;
    var position: nat := 0;
    while true
      invariant Load(id, NOTHING, file) == Shifted(Load(id, r, rest), position)
      decreases |rest|
    {
      var front := ReadRecord(id, r, rest);
      if front.Ended? { break; }
      if front.Wrong? { return Corrupt; }
      r, rest, position := front.next, rest[front.size..], position + front.size;
    }
    l := Loaded(r, position);
  }

  class SnapshotJournal {
    const id: Identity
    const env: Environment
    var file: seq<Byte>
    var current: Snapshot

    /** Opens a journal from what a load found; a torn tail has been cut off the file. */
    constructor (id: Identity, env: Environment, bytes: seq<Byte>, l: LoadResult)
      requires l == Load(id, NOTHING, bytes) && l.Loaded?
      ensures this.id == id && this.env == env
      ensures Intact(id, file, current) && file == bytes[..Min(l.validBytes, |bytes|)]
      ensures current == Reloaded(l.replay)
    {
      LoadIsSound(id, NOTHING, bytes);
      ValidBytesSuffice(id, NOTHING, bytes, l);
      this.id, this.env := id, env;
      file, current := bytes[..l.validBytes], Reloaded(l.replay);
    }

    /** Writes the successor of the current snapshot. A write can break off anywhere, and even
        a complete one counts only once it is synchronised; the remembered snapshot moves on
        success alone. */
    method Append(s: Snapshot, now: U64) returns (r: Result<()>)
      requires Storable(s)
      modifies this, env
      ensures old(env.faults) <= env.faults
      ensures r.Ok? ==> Appendable(id, old(current), s, now)
      ensures r.Ok? ==>
                file == old(file) + RecordOf(id, old(current), s, now) && current == Appended(id, old(current), s, now)
      ensures r.Ok? && old(Intact(id, file, current)) ==> Intact(id, file, current)
      ensures r.Err? ==>
                current == old(current) && (old(env.faults) < env.faults || !Appendable(id, old(current), s, now))
      ensures r.Err? && !Appendable(id, old(current), s, now) ==> file == old(file)
      ensures r.Err? && old(Intact(id, file, current)) ==> RestartsAt(id, file, old(current), s)
    {
      var common := CommonLength(current.tokens, s.tokens);
      var h := Sealed(id, current, s, now);
      if !ValidSnapshot(id, Snapshot(h, s.tokens)) {
        if Intact(id, file, current) { IntactRestarts(id, file, current, s); }
        return Err(InvalidArgument);
      }
      var record := EncodeHeader(h) + EncodeInts(s.tokens[common..]);
      var fault := env.Fault();
      if fault.Some? {
        var n: nat := *;
        n := Min(n, |record|);
        if Intact(id, file, current) { BrokenWriteRestarts(id, file, current, s, now, n); }
        file := file + record[..n];
        return Err(fault.value);
      }
      if Intact(id, file, current) { AppendKeepsIntact(id, file, current, s, now); }
      file := file + record;
      current := Whole(Snapshot(h, s.tokens));
      r := Ok(());
    }
  }

  /** A restart finds the old list or the new one, nothing in between. */
  ghost predicate RestartsAt(id: Identity, file: seq<Byte>, current: Snapshot, s: Snapshot) {
    var l := Load(id, NOTHING, file);
    l.Loaded? && (l.replay.tokens == current.tokens || l.replay.tokens == s.tokens)
  }

  lemma IntactRestarts(id: Identity, file: seq<Byte>, current: Snapshot, s: Snapshot)
    requires Intact(id, file, current)
    ensures RestartsAt(id, file, current, s)
  {
  }

  lemma BrokenWriteRestarts(id: Identity, file: seq<Byte>, current: Snapshot, s: Snapshot, now: U64, n: nat)
    requires Intact(id, file, current) && Storable(s) && Appendable(id, current, s, now)
    requires n <= |RecordOf(id, current, s, now)|
    ensures RestartsAt(id, file + RecordOf(id, current, s, now)[..n], current, s)
  {
    var record := RecordOf(id, current, s, now);
    if n < |record| {
      TornTailIsCut(id, file, current, s, now, n);
    } else {
      AppendKeepsIntact(id, file, current, s, now);
      assert record[..n] == record;
    }
  }

  method CommonLength(a: seq<Token>, b: seq<Token>) returns (n: nat)
    ensures n == CommonPrefix(a, b)
  {
    n := 0;
    while n < |a| && n < |b| && a[n] == b[n]
      invariant n <= |a| && n <= |b| && a[..n] == b[..n]
    {
      n := n + 1;
    }
    FirstDifference(a, b, n);
  }

  /** The first difference is unique. */
  lemma {:induction false} FirstDifference(a: seq<Token>, b: seq<Token>, n: nat)
    requires n <= |a| && n <= |b| && a[..n] == b[..n] && (n < |a| && n < |b| ==> a[n] != b[n])
    ensures n == CommonPrefix(a, b)
  {
    if n > 0 {
      assert a[..n][0] == b[..n][0];
      assert a[1..][..n - 1] == a[..n][1..] && b[1..][..n - 1] == b[..n][1..];
      FirstDifference(a[1..], b[1..], n - 1);
    }
  }
}
