/** Row lookups over a validated layout: from a global row to its part, its bytes and its scale,
    through the page cache or straight from the files. */
module PleStore {
  import opened Contracts
  import opened Arithmetic
  import opened Faults
  import opened Wire
  import opened NgramHash
  import L = PleLayout
  import P = PageCache

  /** The files have the sizes the layout records. */
  predicate Backed(l: L.Layout, files: seq<seq<Byte>>) {
    |files| == |l.files| && forall i :: 0 <= i < |files| ==> |files[i]| == l.files[i].fileBytes
  }

  /** Where a row lies in its file. */
  function RowOffset(l: L.Layout, row: nat): nat
    requires L.Accepted(l) && row < l.usableRows
  {
    var p := L.PartOf(l, row);
    p.fileOffset + (row - p.start) * l.stride
  }

  function RowFile(l: L.Layout, row: nat): nat
    requires L.Accepted(l) && row < l.usableRows
  {
    L.PartOf(l, row).file
  }

  /** Every usable row lies whole inside its part, hence inside its file. */
  lemma RowLiesInFile(l: L.Layout, row: nat)
    requires L.Accepted(l) && row < l.usableRows
    ensures RowFile(l, row) < |l.files|
    ensures RowOffset(l, row) + l.stride <= l.files[RowFile(l, row)].fileBytes
    ensures l.storage == L.Fp8E4M3 ==>
              var p := L.PartOf(l, row);
              && p.scaleFile < |l.files| && (row - p.start) * L.SCALE_BYTES + L.SCALE_BYTES <= p.scaleBytes
              && p.scaleOffset + p.scaleBytes <= l.files[p.scaleFile].fileBytes
  {
    var p := L.PartOf(l, row);
    L.RowHasOnePart(l, row);
    assert L.PartFitsAt(l, L.PartIndex(l.parts, row));
    Slot(row - p.start, p.rows, l.stride);
  }

  function RowBytes(l: L.Layout, files: seq<seq<Byte>>, row: nat): (bytes: seq<Byte>)
    requires L.Accepted(l) && Backed(l, files) && row < l.usableRows
    ensures |bytes| == l.stride
  {
    RowLiesInFile(l, row);
    files[RowFile(l, row)][RowOffset(l, row)..RowOffset(l, row) + l.stride]
  }

  predicate AllUsable(l: L.Layout, rows: seq<nat>) {
    forall i :: 0 <= i < |rows| ==> rows[i] < l.usableRows
  }

  // ---------------------------------------------------------------------------
  // Reading one thing after the other.
  // ---------------------------------------------------------------------------

  function Joined(read: nat -> seq<Byte>, rows: seq<nat>): seq<Byte> {
    if rows == [] then [] else Joined(read, rows[..|rows| - 1]) + read(rows[|rows| - 1])
  }

  lemma {:induction false} JoinedConcat(read: nat -> seq<Byte>, a: seq<nat>, b: seq<nat>)
    ensures Joined(read, a + b) == Joined(read, a) + Joined(read, b)
    decreases |b|
  {
    if b == [] {
      assert a + b == a;
    } else {
      assert (a + b)[..|a + b| - 1] == a + b[..|b| - 1];
      JoinedConcat(read, a, b[..|b| - 1]);
    }
  }

  ghost predicate AllSized(read: nat -> seq<Byte>, rows: seq<nat>, unit: nat) {
    forall i :: 0 <= i < |rows| ==> |read(rows[i])| == unit
  }

  lemma {:induction false} JoinedSize(read: nat -> seq<Byte>, rows: seq<nat>, unit: nat)
    requires AllSized(read, rows, unit)
    ensures |Joined(read, rows)| == |rows| * unit
    decreases |rows|
  {
    if rows != [] {
      JoinedSize(read, rows[..|rows| - 1], unit);
      assert |rows| * unit == (|rows| - 1) * unit + unit;
    }
  }

  lemma {:induction false} JoinedSlot(read: nat -> seq<Byte>, rows: seq<nat>, unit: nat, k: nat, slot: nat)
    requires AllSized(read, rows, unit) && k < |rows| && slot == k * unit
    ensures slot + unit <= |Joined(read, rows)| && Joined(read, rows)[slot..slot + unit] == read(rows[k])
    decreases |rows|
  {
    var n := |rows| - 1;
    JoinedSize(read, rows[..n], unit);
    if k < n {
      JoinedSlot(read, rows[..n], unit, k, slot);
      SliceOfFront(Joined(read, rows[..n]), read(rows[n]), slot, slot + unit);
    }
  }

  lemma SliceOfFront(front: seq<Byte>, back: seq<Byte>, a: nat, b: nat)
    requires a <= b <= |front|
    ensures (front + back)[a..b] == front[a..b]
  {
  }

  /** Item `first + k` reads as the k-th slice behind `at`. */
  ghost predicate Aligned(read: nat -> seq<Byte>, data: seq<Byte>, first: nat, at: nat, unit: nat, k: nat) {
    var offset := at + k * unit;
    offset + unit <= |data| && read(first + k) == data[offset..offset + unit]
  }

  function Run(first: nat, n: nat): (rows: seq<nat>)
    ensures |rows| == n && forall k :: 0 <= k < n ==> rows[k] == first + k
  {
    seq(n, k => first + k)
  }

  /** Items that lie one behind the other, read in order. */
  lemma {:induction false} JoinedRun(read: nat -> seq<Byte>, data: seq<Byte>, first: nat, at: nat, unit: nat, n: nat,
                                     end: nat)
    requires end == at + n * unit <= |data| && forall k :: 0 <= k < n ==> Aligned(read, data, first, at, unit, k)
    ensures Joined(read, Run(first, n)) == data[at..end]
  {
    if n > 0 {
      var cut := at + (n - 1) * unit;
      assert cut + unit == end && Aligned(read, data, first, at, unit, n - 1);
      JoinedRun(read, data, first, at, unit, n - 1, cut);
      JoinedNext(read, data, first, at, n - 1, cut, end);
    }
  }

  lemma JoinedNext(read: nat -> seq<Byte>, data: seq<Byte>, first: nat, at: nat, n: nat, cut: nat, end: nat)
    requires at <= cut <= end <= |data| && read(first + n) == data[cut..end]
    requires Joined(read, Run(first, n)) == data[at..cut]
    ensures Joined(read, Run(first, n + 1)) == data[at..end]
  {
    assert Run(first, n + 1)[..n] == Run(first, n);
    SliceInTwo(data, at, cut, end);
  }

  lemma SliceInTwo(s: seq<Byte>, a: nat, b: nat, c: nat)
    requires a <= b <= c <= |s|
    ensures s[a..c] == s[a..b] + s[b..c]
  {
  }

  function RowReader(l: L.Layout, files: seq<seq<Byte>>): nat -> seq<Byte>
    requires L.Accepted(l) && Backed(l, files)
  {
    (row: nat) => if row < l.usableRows then RowBytes(l, files, row) else []
  }

  /** The bytes of a batch, row after row. */
  function BatchBytes(l: L.Layout, files: seq<seq<Byte>>, rows: seq<nat>): seq<Byte>
    requires L.Accepted(l) && Backed(l, files) && AllUsable(l, rows)
  {
    Joined(RowReader(l, files), rows)
  }

  lemma BatchSize(l: L.Layout, files: seq<seq<Byte>>, rows: seq<nat>)
    requires L.Accepted(l) && Backed(l, files) && AllUsable(l, rows)
    ensures AllSized(RowReader(l, files), rows, l.stride) && |BatchBytes(l, files, rows)| == |rows| * l.stride
  {
    JoinedSize(RowReader(l, files), rows, l.stride);
  }

  lemma OneRowMore(l: L.Layout, files: seq<seq<Byte>>, rows: seq<nat>, row: nat)
    requires L.Accepted(l) && Backed(l, files) && AllUsable(l, rows) && row < l.usableRows
    ensures BatchBytes(l, files, rows + [row]) == BatchBytes(l, files, rows) + RowBytes(l, files, row)
  {
    assert (rows + [row])[..|rows|] == rows;
    assert RowReader(l, files)(row) == RowBytes(l, files, row);
  }

  /** Reading a batch in two parts. */
  lemma BatchConcat(l: L.Layout, files: seq<seq<Byte>>, a: seq<nat>, b: seq<nat>)
    requires L.Accepted(l) && Backed(l, files) && AllUsable(l, a) && AllUsable(l, b)
    ensures AllUsable(l, a + b) && BatchBytes(l, files, a + b) == BatchBytes(l, files, a) + BatchBytes(l, files, b)
  {
    JoinedConcat(RowReader(l, files), a, b);
  }

  // ---------------------------------------------------------------------------
  // Which bytes these are, said of the parts alone.
  // ---------------------------------------------------------------------------

  /** The part named is the one the row is found in. */
  lemma InPart(l: L.Layout, i: nat, row: nat)
    requires L.Accepted(l) && i < |l.parts| && l.parts[i].start <= row < l.parts[i].start + l.parts[i].rows
    requires row < l.usableRows
    ensures L.PartOf(l, row) == l.parts[i] && RowFile(l, row) == l.parts[i].file
    ensures RowOffset(l, row) == l.parts[i].fileOffset + (row - l.parts[i].start) * l.stride
  {
    L.RowHasOnePart(l, row);
    assert L.Holds(l.parts[i], row);
  }

  /** Slot `k` of a batch holds the row asked for: its place in its part counts the rows before it. */
  lemma SlotHoldsRow(l: L.Layout, files: seq<seq<Byte>>, rows: seq<nat>, k: nat, i: nat, slot: nat, at: nat)
    requires L.Accepted(l) && Backed(l, files) && AllUsable(l, rows) && k < |rows| && i < |l.parts|
    requires l.parts[i].start <= rows[k] < l.parts[i].start + l.parts[i].rows
    requires slot == k * l.stride && at == l.parts[i].fileOffset + (rows[k] - l.parts[i].start) * l.stride
    ensures slot + l.stride <= |BatchBytes(l, files, rows)|
    ensures l.parts[i].file < |files| && at + l.stride <= |files[l.parts[i].file]|
    ensures BatchBytes(l, files, rows)[slot..slot + l.stride] == files[l.parts[i].file][at..at + l.stride]
  {
    BatchSize(l, files, rows);
    JoinedSlot(RowReader(l, files), rows, l.stride, k, slot);
    InPart(l, i, rows[k]);
    RowLiesInFile(l, rows[k]);
  }

  /** The rows of a part, read in order from its first one, are the part's payload. */
  lemma PartInOrder(l: L.Layout, files: seq<seq<Byte>>, i: nat, n: nat)
    requires L.Accepted(l) && Backed(l, files) && i < |l.parts|
    requires n <= l.parts[i].rows && l.parts[i].start + n <= l.usableRows
    ensures var p := l.parts[i];
            && AllUsable(l, Run(p.start, n)) && p.file < |files| && p.fileOffset + n * l.stride <= |files[p.file]|
            && BatchBytes(l, files, Run(p.start, n)) == files[p.file][p.fileOffset..p.fileOffset + n * l.stride]
  {
    var p := l.parts[i];
    PartHolds(l, files, i, n);
    forall k | 0 <= k < n
      ensures Aligned(RowReader(l, files), files[p.file], p.start, p.fileOffset, l.stride, k)
    {
      RowIsAligned(l, files, i, k);
    }
    JoinedRun(RowReader(l, files), files[p.file], p.start, p.fileOffset, l.stride, n, p.fileOffset + n * l.stride);
  }

  lemma RowIsAligned(l: L.Layout, files: seq<seq<Byte>>, i: nat, k: nat)
    requires L.Accepted(l) && Backed(l, files) && i < |l.parts|
    requires k < l.parts[i].rows && l.parts[i].start + k < l.usableRows
    ensures l.parts[i].file < |files|
    ensures Aligned(RowReader(l, files), files[l.parts[i].file], l.parts[i].start, l.parts[i].fileOffset, l.stride, k)
  {
    InPart(l, i, l.parts[i].start + k);
    RowLiesInFile(l, l.parts[i].start + k);
  }

  lemma PartHolds(l: L.Layout, files: seq<seq<Byte>>, i: nat, n: nat)
    requires L.Accepted(l) && Backed(l, files) && i < |l.parts| && n <= l.parts[i].rows
    ensures l.parts[i].file < |files| && l.parts[i].fileOffset + n * l.stride <= |files[l.parts[i].file]|
  {
    assert L.PartFitsAt(l, i);
    Monotone(l.parts[i].rows, n, l.stride);
  }

  /** The extent that brings row `rows[i]` to its slot of the output. */
  function ExtentOf(l: L.Layout, rows: seq<nat>, i: nat): P.Extent
    requires L.Accepted(l) && AllUsable(l, rows) && i < |rows|
  {
    P.Extent(RowFile(l, rows[i]), RowOffset(l, rows[i]), i * l.stride, l.stride)
  }

  function ExtentsOf(l: L.Layout, rows: seq<nat>): (es: seq<P.Extent>)
    requires L.Accepted(l) && AllUsable(l, rows)
    ensures |es| == |rows| && forall i :: 0 <= i < |rows| ==> es[i] == ExtentOf(l, rows, i)
  {
    seq(|rows|, i requires 0 <= i < |rows| => ExtentOf(l, rows, i))
  }

  lemma ExtentsGrow(l: L.Layout, rows: seq<nat>, i: nat)
    requires L.Accepted(l) && i < |rows| && AllUsable(l, rows[..i + 1])
    ensures AllUsable(l, rows[..i])
    ensures ExtentsOf(l, rows[..i + 1]) ==
            ExtentsOf(l, rows[..i]) + [P.Extent(RowFile(l, rows[i]), RowOffset(l, rows[i]), i * l.stride, l.stride)]
  {
    assert rows[..i + 1] == rows[..i] + [rows[i]];
  }

  lemma ExtentIsValid(l: L.Layout, files: seq<seq<Byte>>, rows: seq<nat>, i: nat, outputBytes: nat)
    requires L.Accepted(l) && Backed(l, files) && AllUsable(l, rows) && i < |rows| && outputBytes == |rows| * l.stride
    ensures P.ValidExtent(files, ExtentOf(l, rows, i), outputBytes)
  {
    RowLiesInFile(l, rows[i]);
    Slot(i, |rows|, l.stride);
  }

  /** A batch asks for valid extents that do not overlap in the output. */
  lemma BatchIsReadable(l: L.Layout, files: seq<seq<Byte>>, rows: seq<nat>, outputBytes: nat)
    requires L.Accepted(l) && Backed(l, files) && AllUsable(l, rows) && outputBytes == |rows| * l.stride
    ensures P.ValidRequest(files, ExtentsOf(l, rows), outputBytes) && P.Disjoint(ExtentsOf(l, rows))
  {
    var es := ExtentsOf(l, rows);
    forall i | 0 <= i < |es| ensures P.ValidExtent(files, es[i], outputBytes) {
      ExtentIsValid(l, files, rows, i, outputBytes);
    }
    forall i, j | 0 <= i < j < |es| ensures es[i].outputOffset + es[i].bytes <= es[j].outputOffset {
      Slot(i, j, l.stride);
    }
  }

  /** Reading the extents of a batch is reading its rows. */
  lemma {:induction false} BatchRead(l: L.Layout, files: seq<seq<Byte>>, rows: seq<nat>, buffer: seq<Byte>)
    requires L.Accepted(l) && Backed(l, files) && AllUsable(l, rows) && |rows| * l.stride <= |buffer|
    requires P.ValidExtents(files, ExtentsOf(l, rows), |buffer|)
    ensures P.Direct(files, ExtentsOf(l, rows), buffer)[..|rows| * l.stride] == BatchBytes(l, files, rows)
    decreases |rows|
  {
    if rows != [] {
      var n := |rows| - 1;
      ExtentsPrefix(l, rows);
      assert n * l.stride + l.stride == |rows| * l.stride;
      BatchRead(l, files, rows[..n], buffer);
      var before := P.Direct(files, ExtentsOf(l, rows[..n]), buffer);
      SpliceAppends(before, n * l.stride, RowBytes(l, files, rows[n]));
    }
  }

  lemma ExtentsPrefix(l: L.Layout, rows: seq<nat>)
    requires L.Accepted(l) && rows != [] && AllUsable(l, rows)
    ensures var n := |rows| - 1;
            && AllUsable(l, rows[..n]) && ExtentsOf(l, rows)[..n] == ExtentsOf(l, rows[..n])
            && ExtentsOf(l, rows)[n] == ExtentOf(l, rows, n)
  {
  }

  lemma SpliceAppends(buffer: seq<Byte>, at: nat, data: seq<Byte>)
    requires at + |data| <= |buffer|
    ensures P.Splice(buffer, at, data)[..at + |data|] == buffer[..at] + data
  {
  }

  class Store {
    const layout: L.Layout
    const files: seq<seq<Byte>>
    const env: Environment
    const cache: P.Cache?
    var scales: seq<seq<Byte>>

    constructor (layout: L.Layout, files: seq<seq<Byte>>, env: Environment, cache: P.Cache?)
      ensures this.layout == layout && this.files == files && this.env == env && this.cache == cache && scales == []
    {
      this.layout, this.files, this.env, this.cache, scales := layout, files, env, cache, [];
    }

    ghost predicate CacheFits()
      requires cache != null
    {
      cache.files == files && cache.env == env
    }

    ghost function Machinery(): set<object> {
      if cache == null then {} else if cache.ring == null then {cache} else {cache, cache.ring}
    }

    ghost predicate CacheReady() reads Machinery() {
      cache != null ==> cache.Live()
    }

    ghost predicate CacheValid() reads Machinery() {
      cache != null ==> cache.Valid()
    }

    /** No ring: a failed read leaves nothing behind. */
    predicate Blocking() { cache == null || cache.ring == null }

    /** Loads the row scales of every part. */
    method LoadScales() returns (r: Result<()>)
      requires L.Accepted(layout) && Backed(layout, files) && layout.storage == L.Fp8E4M3
      modifies this, env
      ensures old(env.faults) <= env.faults
      ensures r.Ok? ==> ScalesLoaded()
      ensures r.Err? ==> old(env.faults) < env.faults
    {
      var loaded := [];
      for i := 0 to |layout.parts|
        invariant |loaded| == i && old(env.faults) <= env.faults
        invariant forall k :: 0 <= k < i ==> ScaleExtentFits(k) && loaded[k] == ScaleTable(k)
      {
        var p := layout.parts[i];
        assert L.PartFitsAt(layout, i);
        var read := P.ReadFully(files[p.scaleFile], p.scaleOffset, p.scaleBytes, env);
        if read.Err? { return Err(read.failure); }
        loaded := loaded + [read.value];
      }
      scales := loaded;
      r := Ok(());
    }

    predicate ScaleExtentFits(i: nat) {
      && i < |layout.parts| && layout.parts[i].scaleFile < |files|
      && layout.parts[i].scaleOffset + layout.parts[i].scaleBytes <= |files[layout.parts[i].scaleFile]|
    }

    function ScaleTable(i: nat): seq<Byte>
      requires ScaleExtentFits(i)
    {
      var p := layout.parts[i];
      files[p.scaleFile][p.scaleOffset..p.scaleOffset + p.scaleBytes]
    }

    ghost predicate ScalesLoaded() reads this`scales {
      |scales| == |layout.parts| && forall k :: 0 <= k < |scales| ==> ScaleExtentFits(k) && scales[k] == ScaleTable(k)
    }

    method LocateRow(row: nat, slot: nat) returns (r: Result<P.Extent>)
      requires L.Accepted(layout)
      ensures r.Ok? <==> row < layout.usableRows
      ensures r.Ok? ==>
                r.value == P.Extent(RowFile(layout, row), RowOffset(layout, row), slot * layout.stride, layout.stride)
    {
      var found := L.FindPart(layout, row);
      if found.Err? { return Err(found.failure); }
      var p := layout.parts[found.value];
      var local := row - p.start;
      r := Ok(P.Extent(p.file, p.fileOffset + local * layout.stride, slot * layout.stride, layout.stride));
    }

    /** Turns rows into extents; a row outside the usable range is refused. */
    method Locate(rows: seq<nat>) returns (r: Result<seq<P.Extent>>)
      requires L.Accepted(layout)
      ensures r.Ok? <==> AllUsable(layout, rows)
      ensures r.Ok? ==> r.value == ExtentsOf(layout, rows)
    {
      var es := [];
      for i := 0 to |rows|
        invariant AllUsable(layout, rows[..i]) && es == ExtentsOf(layout, rows[..i])
      {
        var located := LocateRow(rows[i], i);
        if located.Err? { return Err(located.failure); }
        es := es + [located.value];
        ExtentsGrow(layout, rows, i);
      }
      assert rows[..|rows|] == rows;
      r := Ok(es);
    }

    /** Reads a batch of rows: exactly their bytes, in order, cached or not. */
    method ReadRows(rows: seq<nat>) returns (r: Result<seq<Byte>>)
      requires L.Accepted(layout) && Backed(layout, files) && (cache != null ==> CacheFits()) && CacheReady()
      modifies env, Machinery()
      ensures CacheValid() && old(env.faults) <= env.faults
      ensures Blocking() || env.faults == old(env.faults) ==> CacheReady()
      ensures r.Ok? ==> CacheReady() && AllUsable(layout, rows) && r.value == BatchBytes(layout, files, rows)
      ensures r.Err? ==> !AllUsable(layout, rows) || old(env.faults) < env.faults || |files| > P.MAX_FILES
    {
      var located := Locate(rows);
      if located.Err? { return Err(located.failure); }
      var es, size := located.value, |rows| * layout.stride;
      var buffer := seq(size, i => 0);
      BatchIsReadable(layout, files, rows, size);
      BatchRead(layout, files, rows, buffer);
      if cache != null {
        r := cache.ReadExtents(es, buffer);
      } else {
        r := P.ReadUncached(files, es, buffer, env);
      }
    }

    /** The scale bytes of one row, as its file holds them. */
    ghost function ScaleBytesOf(row: nat): seq<Byte>
      requires L.Accepted(layout) && Backed(layout, files) && row < layout.usableRows && layout.storage == L.Fp8E4M3
    {
      RowLiesInFile(layout, row);
      var p := L.PartOf(layout, row);
      var at := p.scaleOffset + (row - p.start) * L.SCALE_BYTES;
      files[p.scaleFile][at..at + L.SCALE_BYTES]
    }

    /** The scale of the n-th row of a part is the n-th entry of the part's scale table. */
    lemma ScalesInOrder(i: nat, n: nat)
      requires L.Accepted(layout) && Backed(layout, files) && layout.storage == L.Fp8E4M3
      requires i < |layout.parts| && n < layout.parts[i].rows && layout.parts[i].start + n < layout.usableRows
      ensures var p := layout.parts[i];
              && p.scaleFile < |files| && p.scaleOffset + p.scaleBytes <= |files[p.scaleFile]|
              && 2 * n + 2 <= p.scaleBytes
              && ScaleBytesOf(p.start + n)
                 == files[p.scaleFile][p.scaleOffset..p.scaleOffset + p.scaleBytes][2 * n..2 * n + 2]
    {
      var p := layout.parts[i];
      assert L.PartFitsAt(layout, i);
      InPart(layout, i, p.start + n);
      P.SliceOfSlice(files[p.scaleFile], p.scaleOffset, p.scaleOffset + p.scaleBytes, 2 * n, 2 * n + 2);
    }

    /** Looks the scales of a batch up in memory. */
    method ReadRowScales(rows: seq<nat>) returns (r: Result<seq<seq<Byte>>>)
      requires L.Accepted(layout) && Backed(layout, files) && (layout.storage == L.Fp8E4M3 ==> ScalesLoaded())
      ensures r.Ok? <==> layout.storage == L.Fp8E4M3 && AllUsable(layout, rows)
      ensures r.Ok? ==> |r.value| == |rows| && forall i :: 0 <= i < |rows| ==> r.value[i] == ScaleBytesOf(rows[i])
    {
      if layout.storage != L.Fp8E4M3 { return Err(LogicError); }
      var output := [];
      for i := 0 to |rows|
        invariant |output| == i && forall k :: 0 <= k < i ==>
                    rows[k] < layout.usableRows && output[k] == ScaleBytesOf(rows[k])
      {
        var scale := RowScale(rows[i]);
        if scale.Err? { return Err(scale.failure); }
        output := output + [scale.value];
      }
      r := Ok(output);
    }

    method RowScale(row: nat) returns (r: Result<seq<Byte>>)
      requires L.Accepted(layout) && Backed(layout, files) && layout.storage == L.Fp8E4M3 && ScalesLoaded()
      ensures r.Ok? <==> row < layout.usableRows
      ensures r.Ok? ==> r.value == ScaleBytesOf(row)
    {
      var found := L.FindPart(layout, row);
      if found.Err? { return Err(found.failure); }
      var p := layout.parts[found.value];
      var at := (row - p.start) * L.SCALE_BYTES;
      RowLiesInFile(layout, row);
      assert L.PartFitsAt(layout, found.value) && ScaleExtentFits(found.value);
      P.SliceOfSlice(files[p.scaleFile], p.scaleOffset, p.scaleOffset + p.scaleBytes, at, at + L.SCALE_BYTES);
      r := Ok(scales[p.logicalPart][at..at + L.SCALE_BYTES]);
    }
  }
}
