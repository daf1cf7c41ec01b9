/** The table layout: which rows exist, in which part of which file each one lies, and the
    validation that makes every later lookup total. */
module PleLayout {
  import opened Contracts
  import opened NgramHash

  datatype StorageType = Unsupported | BFloat16 | Fp8E4M3

  function ElementBytes(t: StorageType): nat {
    match t
    case Unsupported => 0
    case BFloat16 => 2
    case Fp8E4M3 => 1
  }

  const SCALE_BYTES: nat := 2

  datatype TableFile = TableFile(index: nat, path: string, fileBytes: nat, payloadBytes: nat)

  datatype Part = Part(
    logicalPart: nat, file: nat, start: nat, rows: nat, fileOffset: nat, payloadBytes: nat,
    scaleFile: nat, scaleOffset: nat, scaleBytes: nat)

  datatype Layout = Layout(
    storage: StorageType, alignment: nat, stride: nat, dimension: nat, usableRows: nat, paddedRows: nat,
    hash: HashConfig, files: seq<TableFile>, parts: seq<Part>)

  // ---------------------------------------------------------------------------
  // What validation establishes.
  // ---------------------------------------------------------------------------

  predicate Dimensioned(l: Layout) {
    && ElementBytes(l.storage) != 0 && l.alignment != 0 && l.stride != 0 && l.dimension != 0
    && 0 < l.usableRows <= l.paddedRows && l.dimension * ElementBytes(l.storage) == l.stride
    && l.files != [] && l.parts != []
    && 0 < l.hash.vocabulary && l.hash.eos < l.hash.vocabulary
  }

  function HeadsEnd(c: HashConfig, n: nat): nat
    requires |c.headSizes| == HEADS && |c.headOffsets| == HEADS && n <= HEADS
  {
    if n == 0 then 0 else c.headOffsets[n - 1] + c.headSizes[n - 1]
  }

  predicate HeadFollows(c: HashConfig, h: nat)
    requires |c.headSizes| == HEADS && |c.headOffsets| == HEADS && h < HEADS
  {
    c.headOffsets[h] == HeadsEnd(c, h)
  }

  /** The heads' row ranges follow each other from row 0 to the last usable row. */
  predicate HeadsTile(c: HashConfig, rows: nat) {
    Sized(c) && (forall h :: 0 <= h < HEADS ==> HeadFollows(c, h)) && HeadsEnd(c, HEADS) == rows
  }

  predicate FileListed(f: TableFile, i: nat) {
    f.index == i && f.path != "" && f.fileBytes != 0 && f.payloadBytes <= f.fileBytes
  }

  predicate FilesListed(files: seq<TableFile>) {
    forall i :: 0 <= i < |files| ==> FileListed(files[i], i)
  }

  /** A part's rows, and its scales if it has them, lie inside their files. */
  predicate PartFits(l: Layout, p: Part, i: nat) {
    && p.logicalPart == i && p.file < |l.files| && p.rows != 0 && p.payloadBytes == p.rows * l.stride
    && p.fileOffset + p.payloadBytes <= l.files[p.file].fileBytes
    && if l.storage == Fp8E4M3 then
         && p.scaleFile < |l.files| && p.scaleBytes == p.rows * SCALE_BYTES
         && p.scaleOffset + p.scaleBytes <= l.files[p.scaleFile].fileBytes
       else p.scaleBytes == 0
  }

  predicate PartFitsAt(l: Layout, i: nat)
    requires i < |l.parts|
  {
    PartFits(l, l.parts[i], i)
  }

  /** Where the first `n` parts end. */
  function EndOf(parts: seq<Part>, n: nat): nat
    requires n <= |parts|
  {
    if n == 0 then 0 else parts[n - 1].start + parts[n - 1].rows
  }

  predicate Follows(parts: seq<Part>, i: nat)
    requires i < |parts|
  {
    parts[i].start == EndOf(parts, i)
  }

  /** Each part begins where the one before it ends. */
  predicate Contiguous(parts: seq<Part>) {
    forall i :: 0 <= i < |parts| ==> Follows(parts, i)
  }

  predicate Accepted(l: Layout) {
    && Dimensioned(l) && HeadsTile(l.hash, l.usableRows) && FilesListed(l.files)
    && (forall i :: 0 <= i < |l.parts| ==> PartFitsAt(l, i))
    && Contiguous(l.parts) && EndOf(l.parts, |l.parts|) == l.paddedRows
  }

  // ---------------------------------------------------------------------------
  // Sorting, as far as validation depends on it.
  // ---------------------------------------------------------------------------

  predicate Ascending<T>(s: seq<T>, key: T -> int) {
    forall i, j :: 0 <= i < j < |s| ==> key(s[i]) <= key(s[j])
  }

  predicate StrictlyAscending<T>(s: seq<T>, key: T -> int) {
    forall i, j :: 0 <= i < j < |s| ==> key(s[i]) < key(s[j])
  }

  method InsertInto<T>(x: T, s: seq<T>, key: T -> int) returns (r: seq<T>)
    requires Ascending(s, key)
    ensures multiset(r) == multiset(s) + multiset{x} && Ascending(r, key)
  {
    var k := 0;
    while k < |s| && key(s[k]) <= key(x)
      invariant k <= |s| && forall i :: 0 <= i < k ==> key(s[i]) <= key(x)
    {
      k := k + 1;
    }
    r := s[..k] + [x] + s[k..];
    InsertedAt(x, s, k);
    forall i, j | 0 <= i < j < |r| ensures key(r[i]) <= key(r[j]) {
      assert r[i] == if i < k then s[i] else if i == k then x else s[i - 1];
      assert r[j] == if j < k then s[j] else if j == k then x else s[j - 1];
    }
  }

  lemma InsertedAt<T>(x: T, s: seq<T>, k: nat)
    requires k <= |s|
    ensures multiset(s[..k] + [x] + s[k..]) == multiset(s) + multiset{x}
  {
    assert s == s[..k] + s[k..];
  }

  method SortBy<T>(s: seq<T>, key: T -> int) returns (r: seq<T>)
    ensures multiset(r) == multiset(s) && Ascending(r, key)
  {
    r := [];
    for i := 0 to |s|
      invariant multiset(r) == multiset(s[..i]) && Ascending(r, key)
    {
      assert s[..i + 1] == s[..i] + [s[i]];
      r := InsertInto(s[i], r, key);
    }
    assert s[..|s|] == s;
  }

  lemma SameLength<T>(a: seq<T>, b: seq<T>)
    requires multiset(a) == multiset(b)
    ensures |a| == |b|
  {
    assert |multiset(a)| == |a| && |multiset(b)| == |b|;
  }

  lemma SameFirst<T>(a: seq<T>, b: seq<T>, key: T -> int)
    requires multiset(a) == multiset(b) && a != [] && b != [] && Ascending(a, key) && StrictlyAscending(b, key)
    ensures a[0] == b[0]
  {
    assert a[0] in multiset(a) && b[0] in multiset(b);
    var i :| 0 <= i < |b| && b[i] == a[0];
    var j :| 0 <= j < |a| && a[j] == b[0];
  }

  lemma Tail<T>(s: seq<T>, key: T -> int)
    requires s != []
    ensures s == [s[0]] + s[1..] && multiset(s[1..]) == multiset(s) - multiset{s[0]}
    ensures Ascending(s, key) ==> Ascending(s[1..], key)
    ensures StrictlyAscending(s, key) ==> StrictlyAscending(s[1..], key)
  {
    assert s == [s[0]] + s[1..];
  }

  /** With distinct keys there is only one ascending arrangement. */
  lemma {:induction false} OneArrangement<T>(a: seq<T>, b: seq<T>, key: T -> int)
    requires multiset(a) == multiset(b) && Ascending(a, key) && StrictlyAscending(b, key)
    ensures a == b
  {
    SameLength(a, b);
    if a != [] {
      SameFirst(a, b, key);
      Tail(a, key);
      Tail(b, key);
      OneArrangement(a[1..], b[1..], key);
    }
  }

  // ---------------------------------------------------------------------------
  // The validation.
  // ---------------------------------------------------------------------------

  method CheckHeads(c: HashConfig, usable: nat) returns (ok: bool)
    requires |c.headSizes| == HEADS && |c.headOffsets| == HEADS
    ensures ok <==> HeadsTile(c, usable)
  {
    var expected := 0;
    for head := 0 to HEADS
      invariant expected == HeadsEnd(c, head)
      invariant forall h :: 0 <= h < head ==> 0 < c.headSizes[h]
      invariant forall h :: 0 <= h < head ==> HeadFollows(c, h)
    {
      assert HeadFollows(c, head) <==> c.headOffsets[head] == expected;
      if c.headSizes[head] == 0 || c.headOffsets[head] != expected { return false; }
      expected := expected + c.headSizes[head];
    }
    ok := expected == usable;
  }

  /** The file is there with the recorded size. */
  predicate FileOnDisk(disk: map<string, nat>, f: TableFile) { f.path in disk && disk[f.path] == f.fileBytes }

  /** If the sizes on disk are to be checked, they are the recorded ones. */
  predicate OnDisk(disk: Option<map<string, nat>>, files: seq<TableFile>) {
    disk.Some? ==> forall i :: 0 <= i < |files| ==> FileOnDisk(disk.value, files[i])
  }

  method CheckFiles(files: seq<TableFile>, disk: Option<map<string, nat>>) returns (ok: bool)
    ensures ok <==> FilesListed(files) && OnDisk(disk, files)
  {
    for i := 0 to |files|
      invariant forall k :: 0 <= k < i ==> FileListed(files[k], k)
      invariant disk.Some? ==> forall k :: 0 <= k < i ==> FileOnDisk(disk.value, files[k])
    {
      var f := files[i];
      if f.index != i || f.path == "" || f.fileBytes == 0 || f.payloadBytes > f.fileBytes { return false; }
      if disk.Some? && !FileOnDisk(disk.value, f) { return false; }
    }
    ok := true;
  }

  method CheckParts(l: Layout) returns (ok: bool)
    ensures ok <==>
              && (forall i :: 0 <= i < |l.parts| ==> PartFitsAt(l, i))
              && Contiguous(l.parts)
              && EndOf(l.parts, |l.parts|) == l.paddedRows
  {
    var next := 0;
    for i := 0 to |l.parts|
      invariant next == EndOf(l.parts, i)
      invariant forall k :: 0 <= k < i ==> PartFitsAt(l, k)
      invariant forall k :: 0 <= k < i ==> Follows(l.parts, k)
    {
      var p := l.parts[i];
      assert Follows(l.parts, i) <==> p.start == next;
      assert PartFitsAt(l, i) <==> PartFits(l, p, i);
      if p.logicalPart != i || p.file >= |l.files| || p.start != next || p.rows == 0
         || p.payloadBytes != p.rows * l.stride
      {
        return false;
      }
      if p.fileOffset > l.files[p.file].fileBytes || p.payloadBytes > l.files[p.file].fileBytes - p.fileOffset {
        return false;
      }
      if l.storage == Fp8E4M3 {
        if p.scaleFile >= |l.files| || p.scaleBytes != p.rows * SCALE_BYTES { return false; }
        if p.scaleOffset > l.files[p.scaleFile].fileBytes
           || p.scaleBytes > l.files[p.scaleFile].fileBytes - p.scaleOffset
        {
          return false;
        }
      } else if p.scaleBytes != 0 {
        return false;
      }
      next := next + p.rows;
    }
    ok := next == l.paddedRows;
  }

  ghost predicate Rearranged(l: Layout, files: seq<TableFile>, parts: seq<Part>) {
    multiset(files) == multiset(l.files) && multiset(parts) == multiset(l.parts)
  }

  /** Sorts and checks. A layout passes exactly if some arrangement of its tables is acceptable,
      and then that arrangement is the result. */
  method ValidateLayout(l: Layout, disk: Option<map<string, nat>>) returns (r: Result<Layout>)
    requires |l.hash.headSizes| == HEADS && |l.hash.headOffsets| == HEADS
    ensures r.Ok? ==> Accepted(r.value) && OnDisk(disk, r.value.files) && Rearranged(l, r.value.files, r.value.parts)
    ensures r.Ok? ==>
              forall fs, ps :: Rearranged(l, fs, ps) && Accepted(l.(files := fs, parts := ps)) ==>
                fs == r.value.files && ps == r.value.parts
    ensures r.Err? ==>
              forall fs, ps :: Rearranged(l, fs, ps) ==> !(Accepted(l.(files := fs, parts := ps)) && OnDisk(disk, fs))
  {
    if !Dimensioned(l) {
      DimensionsStay(l);
      return Err(RuntimeError);
    }
    var heads := CheckHeads(l.hash, l.usableRows);
    if !heads { return Err(RuntimeError); }
    var files := SortBy(l.files, (f: TableFile) => f.index);
    var parts := SortBy(l.parts, (p: Part) => p.start);
    ArrangementIsForced(l, files, parts);
    DimensionsStay(l);
    var listed := CheckFiles(files, disk);
    if !listed { return Err(RuntimeError); }
    var sorted := l.(files := files, parts := parts);
    var fit := CheckParts(sorted);
    if !fit { return Err(RuntimeError); }
    r := Ok(sorted);
  }

  lemma DimensionsStay(l: Layout)
    ensures forall fs, ps :: Rearranged(l, fs, ps) ==> (Dimensioned(l) <==> Dimensioned(l.(files := fs, parts := ps)))
  {
    forall fs, ps | Rearranged(l, fs, ps) ensures Dimensioned(l) <==> Dimensioned(l.(files := fs, parts := ps)) {
      assert |multiset(fs)| == |fs| && |multiset(l.files)| == |l.files|;
      assert |multiset(ps)| == |ps| && |multiset(l.parts)| == |l.parts|;
    }
  }

  lemma ArrangementIsForced(l: Layout, files: seq<TableFile>, parts: seq<Part>)
    requires Rearranged(l, files, parts)
    requires Ascending(files, (f: TableFile) => f.index) && Ascending(parts, (p: Part) => p.start)
    ensures forall fs, ps ::
            Rearranged(l, fs, ps) && Accepted(l.(files := fs, parts := ps)) ==>
              fs == files && ps == parts
  {
    forall fs, ps | Rearranged(l, fs, ps) && Accepted(l.(files := fs, parts := ps)) ensures fs == files && ps == parts {
      OneArrangement(files, fs, (f: TableFile) => f.index);
      PartsAscend(l.(files := fs, parts := ps));
      OneArrangement(parts, ps, (p: Part) => p.start);
    }
  }

  lemma PartsAscend(l: Layout)
    requires Accepted(l)
    ensures StrictlyAscending(l.parts, (p: Part) => p.start)
  {
    forall i, j | 0 <= i < j < |l.parts| ensures l.parts[i].start < l.parts[j].start {
      PartsInOrder(l, i, j);
    }
  }

  // ---------------------------------------------------------------------------
  // What it is good for.
  // ---------------------------------------------------------------------------

  lemma {:induction false} PartsInOrder(l: Layout, i: nat, j: nat)
    requires Accepted(l) && i < j < |l.parts|
    ensures l.parts[i].start + l.parts[i].rows <= l.parts[j].start && l.parts[i].rows > 0
    decreases j - i
  {
    assert PartFitsAt(l, i) && PartFitsAt(l, j - 1);
    assert Follows(l.parts, j);
    if i < j - 1 { PartsInOrder(l, i, j - 1); }
  }

  lemma {:induction false} HeadsInOrder(c: HashConfig, rows: nat, g: nat, h: nat)
    requires HeadsTile(c, rows) && g < h < HEADS
    ensures c.headOffsets[g] + c.headSizes[g] <= c.headOffsets[h]
    decreases h - g
  {
    assert HeadFollows(c, h) && 0 < c.headSizes[h - 1];
    if g < h - 1 { HeadsInOrder(c, rows, g, h - 1); }
  }

  /** Every hashed row is a usable row, and heads never share one. */
  lemma HeadRowsAreUsable(l: Layout, h: Context, token: Token, head: nat)
    requires Accepted(l) && head < HEADS
    ensures var row := RowAt(l.hash, h, token, head);
            && row < l.usableRows
            && l.hash.headOffsets[head] <= row < l.hash.headOffsets[head] + l.hash.headSizes[head]
            && forall g :: 0 <= g < HEADS && g != head ==>
                 !(l.hash.headOffsets[g] <= row < l.hash.headOffsets[g] + l.hash.headSizes[g])
  {
    forall g | 0 <= g < HEADS && g != head ensures
      || l.hash.headOffsets[g] + l.hash.headSizes[g] <= l.hash.headOffsets[head]
      || l.hash.headOffsets[head] + l.hash.headSizes[head] <= l.hash.headOffsets[g]
    {
      if g < head { HeadsInOrder(l.hash, l.usableRows, g, head); } else { HeadsInOrder(l.hash, l.usableRows, head, g); }
    }
    if head < HEADS - 1 { HeadsInOrder(l.hash, l.usableRows, head, HEADS - 1); }
  }

  lemma HashedRowsAreUsable(l: Layout, h: Context, tokens: seq<Token>)
    requires Accepted(l)
    ensures forall k :: 0 <= k < HEADS * |tokens| ==> RowsOf(l.hash, h, tokens)[k] < l.usableRows
  {
    forall k | 0 <= k < HEADS * |tokens| ensures RowsOf(l.hash, h, tokens)[k] < l.usableRows {
      RowOfBatch(l.hash, h, tokens, k);
      HeadRowsAreUsable(l, After(h, tokens[..k / HEADS]), tokens[k / HEADS], k % HEADS);
    }
  }

  predicate Holds(p: Part, row: nat) { p.start <= row < p.start + p.rows }

  /** The part of a row, by scanning: the last one that starts no later. */
  function PartIndex(parts: seq<Part>, row: nat): (i: nat)
    requires parts != [] && parts[0].start == 0
    ensures i < |parts| && parts[i].start <= row
    ensures forall j :: i < j < |parts| ==> row < parts[j].start
  {
    if parts[|parts| - 1].start <= row then |parts| - 1 else PartIndex(parts[..|parts| - 1], row)
  }

  /** Parts split the padded rows: each row lies in one part and no other. */
  lemma RowHasOnePart(l: Layout, row: nat)
    requires Accepted(l) && row < l.paddedRows
    ensures l.parts[0].start == 0 && Holds(l.parts[PartIndex(l.parts, row)], row)
    ensures forall j :: 0 <= j < |l.parts| && Holds(l.parts[j], row) ==> j == PartIndex(l.parts, row)
  {
    assert Follows(l.parts, 0);
    var i := PartIndex(l.parts, row);
    if i + 1 < |l.parts| {
      assert Follows(l.parts, i + 1);
    }
    forall j | 0 <= j < i ensures !Holds(l.parts[j], row) { PartsInOrder(l, j, i); }
  }

  /** The part that holds a row. */
  function PartOf(l: Layout, row: nat): (p: Part)
    requires Accepted(l) && row < l.paddedRows
    ensures Holds(p, row)
  {
    RowHasOnePart(l, row);
    l.parts[PartIndex(l.parts, row)]
  }

  /** First part that starts behind the row. */
  method UpperBound(parts: seq<Part>, row: nat) returns (first: nat)
    requires forall i, j :: 0 <= i < j < |parts| ==> parts[i].start <= parts[j].start
    ensures first <= |parts|
    ensures forall i :: 0 <= i < first ==> parts[i].start <= row
    ensures forall i :: first <= i < |parts| ==> row < parts[i].start
  {
    first := 0;
    var count := |parts|;
    while 0 < count
      invariant 0 <= first && 0 <= count && first + count <= |parts|
      invariant forall i :: 0 <= i < first ==> parts[i].start <= row
      invariant forall i :: first + count <= i < |parts| ==> row < parts[i].start
      decreases count
    {
      var step := count / 2;
      if row < parts[first + step].start {
        count := step;
      } else {
        first, count := first + step + 1, count - step - 1;
      }
    }
  }

  /** The binary search finds the part that the scan finds, and fails only outside the usable rows. */
  method FindPart(l: Layout, row: nat) returns (r: Result<nat>)
    requires Accepted(l)
    ensures r.Ok? <==> row < l.usableRows
    ensures r.Ok? ==> r.value < |l.parts| && l.parts[r.value] == PartOf(l, row)
  {
    if row >= l.usableRows { return Err(RuntimeError); }
    RowHasOnePart(l, row);
    forall i, j | 0 <= i < j < |l.parts| ensures l.parts[i].start <= l.parts[j].start { PartsInOrder(l, i, j); }
    var found := UpperBound(l.parts, row);
    if found == 0 { return Err(RuntimeError); }
    var p := l.parts[found - 1];
    if row >= p.start + p.rows { return Err(RuntimeError); }
    r := Ok(found - 1);
  }
}
