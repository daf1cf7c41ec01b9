/** The boundary checksum, sequentially on the host and as a parallel reduction on the device. */
module Checksum {
  import opened Contracts
  import opened Arithmetic

  /** A machine word as the set of its one bits; exclusive or is then symmetric difference. */
  type Word = set<nat>

  function X(a: Word, b: Word): Word { (a - b) + (b - a) }

  const ZERO: Word := {}

  lemma Assoc(a: Word, b: Word, c: Word)
    ensures X(X(a, b), c) == X(a, X(b, c))
  {
  }

  lemma Swap(a: Word, b: Word, c: Word)
    ensures X(X(a, b), c) == X(X(a, c), b)
  {
  }

  /** How a word at its index, and the word count, enter the checksum. */
  datatype Mixer = Mixer(word: (U16, nat) -> Word, count: nat -> Word)

  function Xor(s: seq<Word>): Word {
    if s == [] then ZERO else X(Xor(s[..|s| - 1]), s[|s| - 1])
  }

  function Terms(m: Mixer, words: seq<U16>): (r: seq<Word>)
    ensures |r| == |words| && forall i :: 0 <= i < |r| ==> r[i] == m.word(words[i], i)
  {
    seq(|words|, i requires 0 <= i < |words| => m.word(words[i], i))
  }

  function Expected(m: Mixer, words: seq<U16>): Word {
    X(m.count(|words|), Xor(Terms(m, words)))
  }

  /** The host's loop. */
  method HostChecksum(m: Mixer, words: seq<U16>) returns (checksum: Word)
    ensures checksum == Expected(m, words)
  {
    checksum := m.count(|words|);
    ghost var terms := Terms(m, words);
    for i := 0 to |words|
      invariant checksum == X(m.count(|words|), Xor(terms[..i]))
    {
      assert terms[..i + 1][..i] == terms[..i];
      Assoc(m.count(|words|), Xor(terms[..i]), terms[i]);
      checksum := X(checksum, m.word(words[i], i));
    }
    assert terms[..|words|] == terms;
  }

  // ---------------------------------------------------------------------------
  // Exclusive or over sequences.
  // ---------------------------------------------------------------------------

  lemma {:induction false} XorConcat(a: seq<Word>, b: seq<Word>)
    ensures Xor(a + b) == X(Xor(a), Xor(b))
  {
    if b == [] {
      assert a + b == a;
    } else {
      var n := |b| - 1;
      assert (a + b)[..|a + b| - 1] == a + b[..n];
      XorConcat(a, b[..n]);
      Assoc(Xor(a), Xor(b[..n]), b[n]);
    }
  }

  lemma {:induction false} XorUpdate(s: seq<Word>, i: nat, x: Word)
    requires i < |s|
    ensures Xor(s[i := X(s[i], x)]) == X(Xor(s), x)
  {
    var n := |s| - 1;
    var t := s[i := X(s[i], x)];
    if i == n {
      assert t[..n] == s[..n];
      Assoc(Xor(s[..n]), s[n], x);
    } else {
      XorUpdate(s[..n], i, x);
      assert t[..n] == s[..n][i := X(s[..n][i], x)];
      Swap(Xor(s[..n]), x, s[n]);
    }
  }

  lemma Cancel(a: Word, d: Word)
    ensures X(a, d) == a <==> d == ZERO
    ensures X(a, X(a, d)) == d
  {
    assert X(a, ZERO) == a;
    if d != ZERO {
      var b :| b in d;
      assert b in X(a, d) <==> b !in a;
    }
  }

  /** One altered word is noticed exactly if the mixing tells the two words apart at that place. */
  lemma OneWordIsNoticed(m: Mixer, words: seq<U16>, i: nat, w: U16)
    requires i < |words|
    ensures Expected(m, words[i := w]) == Expected(m, words) <==> m.word(w, i) == m.word(words[i], i)
  {
    var terms, was, now := Terms(m, words), m.word(words[i], i), m.word(w, i);
    var d := X(was, now);
    Cancel(was, now);
    assert Terms(m, words[i := w]) == terms[i := X(terms[i], d)];
    XorUpdate(terms, i, d);
    Assoc(m.count(|words|), Xor(terms), d);
    Cancel(Expected(m, words), d);
    if d == ZERO { assert X(was, d) == was; }
  }

  lemma {:induction false} XorZeros(s: seq<Word>)
    requires forall i :: 0 <= i < |s| ==> s[i] == ZERO
    ensures Xor(s) == ZERO
  {
    if s != [] { XorZeros(s[..|s| - 1]); }
  }

  // ---------------------------------------------------------------------------
  // Strided accumulation: each thread takes every `stride`-th word.
  // ---------------------------------------------------------------------------

  /** The words from `t` on that lie a multiple of `stride` away. */
  function Share(terms: seq<Word>, t: nat, stride: Positive): Word
    decreases |terms| - t
  {
    if t >= |terms| then ZERO else X(terms[t], Share(terms, t + stride, stride))
  }

  /** The shares of `stride` neighbouring starting points. */
  function Shares(terms: seq<Word>, a: nat, stride: Positive): (r: seq<Word>)
    ensures |r| == stride && forall i :: 0 <= i < stride ==> r[i] == Share(terms, a + i, stride)
  {
    seq(stride, i requires 0 <= i < stride => Share(terms, a + i, stride))
  }

  lemma XorFront(x: Word, s: seq<Word>)
    ensures Xor([x] + s) == X(x, Xor(s))
  {
    XorConcat([x], s);
    assert [x][..0] == [] && X(ZERO, x) == x;
  }

  /** Together they are all the words from there on. */
  lemma {:induction false} SharesAreComplete(terms: seq<Word>, a: nat, stride: Positive)
    requires a <= |terms|
    ensures Xor(Shares(terms, a, stride)) == Xor(terms[a..])
    decreases |terms| - a
  {
    if a == |terms| {
      XorZeros(Shares(terms, a, stride));
    } else {
      SharesAreComplete(terms, a + 1, stride);
      WindowMoves(terms, a, stride);
      assert terms[a..] == [terms[a]] + terms[a + 1..];
      XorFront(terms[a], terms[a + 1..]);
    }
  }

  lemma WindowMoves(terms: seq<Word>, a: nat, stride: Positive)
    requires a < |terms|
    ensures Xor(Shares(terms, a, stride)) == X(terms[a], Xor(Shares(terms, a + 1, stride)))
  {
    var here, next := Shares(terms, a, stride), Shares(terms, a + 1, stride);
    var middle, last := here[1..], Share(terms, a + stride, stride);
    forall i | 0 <= i < stride - 1 ensures next[i] == middle[i] {
      assert middle[i] == here[i + 1];
    }
    assert here == [X(terms[a], last)] + middle && next == middle + [last];
    XorFront(X(terms[a], last), middle);
    assert next[..stride - 1] == middle;
    Assoc(terms[a], last, Xor(middle));
    assert X(last, Xor(middle)) == X(Xor(middle), last);
  }

  /** One thread's loop. */
  method Accumulate(terms: seq<Word>, t: nat, stride: Positive, start: Word) returns (local: Word)
    ensures local == X(start, Share(terms, t, stride))
  {
    local := start;
    var index := t;
    while index < |terms|
      invariant t <= index && X(local, Share(terms, index, stride)) == X(start, Share(terms, t, stride))
      decreases |terms| - index
    {
      Assoc(local, terms[index], Share(terms, index + stride, stride));
      local := X(local, terms[index]);
      index := index + stride;
    }
    assert X(local, ZERO) == local;
  }

  // ---------------------------------------------------------------------------
  // Tree reduction.
  // ---------------------------------------------------------------------------

  /** One synchronised step: the lower half absorbs the upper half. */
  function Halved(s: seq<Word>, half: nat): (r: seq<Word>)
    requires 2 * half <= |s|
    ensures |r| == half && forall i :: 0 <= i < half ==> r[i] == X(s[i], s[i + half])
  {
    seq(half, i requires 0 <= i < half => X(s[i], s[i + half]))
  }

  function Tree(s: seq<Word>): Word
    requires s != []
    decreases |s|
  {
    if |s| == 1 then s[0] else Tree(Halved(s, |s| / 2))
  }

  lemma {:induction false} XorHalved(a: seq<Word>, b: seq<Word>, c: seq<Word>)
    requires |a| == |b| == |c| && forall i :: 0 <= i < |a| ==> c[i] == X(a[i], b[i])
    ensures Xor(c) == X(Xor(a), Xor(b))
  {
    if a != [] {
      var n := |a| - 1;
      XorHalved(a[..n], b[..n], c[..n]);
      Rearrange(Xor(a[..n]), Xor(b[..n]), a[n], b[n]);
      assert c[n] == X(a[n], b[n]);
    }
  }

  lemma Rearrange(a: Word, b: Word, c: Word, d: Word)
    ensures X(X(a, b), X(c, d)) == X(X(a, c), X(b, d))
  {
  }

  lemma HalvingKeeps(s: seq<Word>)
    requires |s| > 0 && |s| % 2 == 0
    ensures Xor(Halved(s, |s| / 2)) == Xor(s)
  {
    var half := |s| / 2;
    var low, high := s[..half], s[half..];
    assert low + high == s;
    XorConcat(low, high);
    HalvesPair(low, high, Halved(low + high, half));
  }

  lemma HalvesPair(low: seq<Word>, high: seq<Word>, h: seq<Word>)
    requires |low| == |high| && h == Halved(low + high, |low|)
    ensures Xor(h) == X(Xor(low), Xor(high))
  {
    var s := low + high;
    forall i | 0 <= i < |low| ensures h[i] == X(low[i], high[i]) {
      assert s[i] == low[i] && s[i + |low|] == high[i];
    }
    XorHalved(low, high, h);
  }

  /** For a power-of-two block the tree computes the exclusive or of all. */
  lemma {:induction false} TreeIsXor(s: seq<Word>)
    requires PowerOfTwo(|s|)
    ensures Tree(s) == Xor(s)
    decreases |s|
  {
    if |s| == 1 {
      assert Xor(s[..0]) == ZERO;
    } else {
      HalvingKeeps(s);
      TreeIsXor(Halved(s, |s| / 2));
    }
  }

  /** For any other size some contents come out wrong. */
  lemma {:induction false} OtherBlocksLose(n: Positive) returns (s: seq<Word>)
    requires !PowerOfTwo(n)
    ensures |s| == n && Tree(s) != Xor(s)
    decreases n
  {
    if n % 2 == 1 {
      var zeros := seq(n - 1, i => ZERO);
      s := zeros + [{0}];
      XorZeros(zeros);
      assert s[..n - 1] == zeros;
      LastIsLost(s);
    } else {
      var w := OtherBlocksLose(n / 2);
      s := w + seq(n / 2, i => ZERO);
      ZerosVanish(w, s);
      HalvingKeeps(s);
    }
  }

  lemma ZerosVanish(w: seq<Word>, s: seq<Word>)
    requires |s| == 2 * |w| && w <= s && forall i :: |w| <= i < |s| ==> s[i] == ZERO
    ensures Halved(s, |w|) == w
  {
    forall i | 0 <= i < |w| ensures Halved(s, |w|)[i] == w[i] {
      assert s[i + |w|] == ZERO;
    }
  }

  lemma LastIsLost(s: seq<Word>)
    requires |s| > 1 && |s| % 2 == 1 && forall i :: 0 <= i < |s| - 1 ==> s[i] == ZERO
    ensures Tree(s) == ZERO
  {
    TreeOfZeros(Halved(s, |s| / 2));
  }

  lemma {:induction false} TreeOfZeros(s: seq<Word>)
    requires s != [] && forall i :: 0 <= i < |s| ==> s[i] == ZERO
    ensures Tree(s) == ZERO
    decreases |s|
  {
    if |s| > 1 { TreeOfZeros(Halved(s, |s| / 2)); }
  }

  lemma PowerHalves(n: nat)
    requires PowerOfTwo(n) && n / 2 != 0
    ensures PowerOfTwo(n / 2) && n == 2 * (n / 2)
  {
  }

  /** All threads of the lower half at once. */
  method HalveInPlace(partial: array<Word>, offset: nat)
    requires 2 * offset <= partial.Length
    modifies partial
    ensures partial[..offset] == Halved(old(partial[..2 * offset]), offset)
  {
    forall t | 0 <= t < offset { partial[t] := X(partial[t], partial[t + offset]); }
  }

  /** The block's shared-memory reduction, in place. */
  method Reduce(partial: array<Word>)
    requires PowerOfTwo(partial.Length)
    modifies partial
    ensures partial[0] == Xor(old(partial[..]))
  {
    TreeIsXor(partial[..]);
    ghost var live := partial.Length;
    var offset := partial.Length / 2;
    assert partial[..live] == partial[..];
    while offset != 0
      invariant 0 < live <= partial.Length && PowerOfTwo(live) && offset == live / 2
      invariant Tree(partial[..live]) == Xor(old(partial[..]))
      decreases offset
    {
      PowerHalves(live);
      HalveInPlace(partial, offset);
      live, offset := offset, offset / 2;
    }
    assert partial[..live] == [partial[0]];
  }

  // ---------------------------------------------------------------------------
  // The whole grid.
  // ---------------------------------------------------------------------------

  /** What each thread of the grid ends up with; the first one also carries the word count. */
  function Locals(terms: seq<Word>, count: Word, stride: Positive): (r: seq<Word>)
    ensures |r| == stride
  {
    var shares := Shares(terms, 0, stride);
    shares[0 := X(shares[0], count)]
  }

  lemma LocalsAreComplete(terms: seq<Word>, count: Word, stride: Positive)
    ensures Xor(Locals(terms, count, stride)) == X(count, Xor(terms))
  {
    SharesAreComplete(terms, 0, stride);
    assert terms[0..] == terms;
    XorUpdate(Shares(terms, 0, stride), 0, count);
    assert X(Xor(terms), count) == X(count, Xor(terms));
  }

  lemma LocalOf(terms: seq<Word>, count: Word, stride: Positive, t: nat)
    requires t < stride
    ensures Locals(terms, count, stride)[t] == X(if t == 0 then count else ZERO, Share(terms, t, stride))
  {
    var share := Share(terms, t, stride);
    assert X(ZERO, share) == share && X(count, share) == X(share, count);
  }

  function BlockOf(locals: seq<Word>, b: nat, blocks: nat, threads: Positive): (r: seq<Word>)
    requires b < blocks && |locals| == blocks * threads
    ensures |r| == threads
  {
    Slot(b, blocks, threads);
    locals[b * threads..b * threads + threads]
  }

  /** One block: its threads accumulate, then the tree combines them. */
  method Block(m: Mixer, words: seq<U16>, b: nat, blocks: Positive, threads: Positive, stride: Positive)
    returns (value: Word)
    requires b < blocks && stride == blocks * threads && PowerOfTwo(threads)
    ensures value == Xor(BlockOf(Locals(Terms(m, words), m.count(|words|), stride), b, blocks, threads))
  {
    Slot(b, blocks, threads);
    var partial := new Word[threads];
    FillPartial(Terms(m, words), m.count(|words|), b * threads, stride, partial);
    Reduce(partial);
    value := partial[0];
  }

  /** The threads of one block accumulate. */
  method FillPartial(terms: seq<Word>, count: Word, first: nat, stride: Positive, partial: array<Word>)
    requires first + partial.Length <= stride
    modifies partial
    ensures partial[..] == Locals(terms, count, stride)[first..first + partial.Length]
  {
    ghost var locals := Locals(terms, count, stride);
    for t := 0 to partial.Length
      invariant forall k :: 0 <= k < t ==> partial[k] == locals[first + k]
    {
      var local := Accumulate(terms, first + t, stride, if first + t == 0 then count else ZERO);
      LocalOf(terms, count, stride, first + t);
      partial[t] := local;
    }
  }

  lemma {:induction false} BlocksJoin(locals: seq<Word>, values: seq<Word>, blocks: nat, threads: Positive, n: nat)
    requires |locals| == blocks * threads && |values| == blocks && n <= blocks && n * threads <= |locals|
    requires forall b :: 0 <= b < blocks ==> values[b] == Xor(BlockOf(locals, b, blocks, threads))
    ensures Xor(values[..n]) == Xor(locals[..n * threads])
  {
    if n > 0 {
      Slot(n - 1, blocks, threads);
      var at := (n - 1) * threads;
      assert n * threads == at + threads;
      BlocksJoin(locals, values, blocks, threads, n - 1);
      NextBlockJoins(locals, values, at, at + threads, n);
    }
  }

  lemma NextBlockJoins(locals: seq<Word>, values: seq<Word>, at: nat, end: nat, n: nat)
    requires 0 < n <= |values| && at <= end <= |locals|
    requires values[n - 1] == Xor(locals[at..end]) && Xor(values[..n - 1]) == Xor(locals[..at])
    ensures Xor(values[..n]) == Xor(locals[..end])
  {
    assert values[..n][..n - 1] == values[..n - 1];
    JoinOne(locals, at, end);
  }

  lemma JoinOne(s: seq<Word>, at: nat, end: nat)
    requires at <= end <= |s|
    ensures Xor(s[..end]) == X(Xor(s[..at]), Xor(s[at..end]))
  {
    assert s[..at] + s[at..end] == s[..end];
    XorConcat(s[..at], s[at..end]);
  }

  function BlocksBelow(n: nat): (r: set<nat>)
    ensures forall b: nat :: b in r <==> b < n
  {
    if n == 0 then {} else BlocksBelow(n - 1) + {n - 1}
  }

  /** Blocks finish in any order, each adding its value atomically. */
  method Gather(m: Mixer, words: seq<U16>, blocks: Positive, threads: Positive, stride: Positive)
    returns (checksum: Word, ghost values: seq<Word>)
    requires PowerOfTwo(threads) && stride == blocks * threads
    ensures |values| == blocks && checksum == Xor(values)
    ensures forall b :: 0 <= b < blocks ==>
              values[b] == Xor(BlockOf(Locals(Terms(m, words), m.count(|words|), stride), b, blocks, threads))
  {
    ghost var locals := Locals(Terms(m, words), m.count(|words|), stride);
    values := seq(blocks, b => ZERO);
    XorZeros(values);
    checksum := ZERO;
    var running := BlocksBelow(blocks);
    while running != {}
      invariant forall b :: b in running ==> 0 <= b < blocks
      invariant |values| == blocks && checksum == Xor(values)
      invariant forall b :: 0 <= b < blocks ==>
        values[b] == if b in running then ZERO else Xor(BlockOf(locals, b, blocks, threads))
      decreases running
    {
      var b :| b in running;
      var value := Block(m, words, b, blocks, threads, stride);
      XorUpdate(values, b, value);
      assert X(ZERO, value) == value;
      values := values[b := X(values[b], value)];
      checksum := X(checksum, value);
      running := running - {b};
    }
  }

  /** The kernel: any grid with power-of-two blocks computes the host's checksum. */
  method DeviceChecksum(m: Mixer, words: seq<U16>, blocks: Positive, threads: Positive) returns (checksum: Word)
    requires PowerOfTwo(threads)
    ensures checksum == Expected(m, words)
  {
    assert blocks * threads > 0;
    var stride: Positive := blocks * threads;
    ghost var locals := Locals(Terms(m, words), m.count(|words|), stride);
    ghost var values;
    checksum, values := Gather(m, words, blocks, threads, stride);
    BlocksJoin(locals, values, blocks, threads, blocks);
    assert values[..blocks] == values && locals[..blocks * threads] == locals;
    LocalsAreComplete(Terms(m, words), m.count(|words|), stride);
  }
}
