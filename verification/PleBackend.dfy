/** The stage-0 decorator that looks the n-gram rows of every token up. The row cache is not
    session state; the n-gram context is, and follows the accepted prefix of a transaction. */
module PleBackend {
  import opened Contracts
  import opened Arithmetic
  import opened Faults
  import opened Wire
  import opened NgramHash
  import opened StageBackend
  import opened Cancellation
  import L = PleLayout
  import S = PleStore

  /** The decorator's own fields: the committed context, one candidate context per token of the
      open transaction, and that transaction's epoch, extent and progress. */
  datatype Candidates = Candidates(
    committed: Context, hashes: seq<Context>, epoch: nat, expected: nat, processed: nat)

  /** Candidate `i` is the context after the first `i + 1` tokens. */
  predicate Tracks(d: Candidates, tokens: seq<Token>) {
    && |d.hashes| == d.processed <= |tokens|
    && forall i :: 0 <= i < d.processed ==> d.hashes[i] == After(d.committed, tokens[..i + 1])
  }

  predicate InnerSane(s: BackendState) {
    Consistent(s) && (s.provEpoch != 0 ==> s.provProcessed <= s.provExpected)
  }

  /** Either the candidates follow the wrapped stage's tokens, or a lookup failed and the wrapped
      stage has moved ahead for good. */
  predicate Inv(d: Candidates, s: BackendState) {
    && InnerSane(s)
    && if d.epoch == 0 then d.hashes == [] && d.expected == 0 && d.processed == 0
       else
         && d.epoch == s.provEpoch && d.expected == s.provExpected
         && (Tracks(d, s.provTokens) || (d.hashes == [] && d.processed < s.provProcessed))
  }

  predicate Continues(d: Candidates, input: StageInput) {
    if d.epoch == 0 then input.chunkOffset == 0
    else input.txn.epoch == d.epoch && input.txn.evaluatedCount == d.expected && input.chunkOffset == d.processed
  }

  predicate CommitFits(d: Candidates, epoch: nat, count: nat) {
    epoch == d.epoch && count != 0 && d.processed == d.expected && count <= |d.hashes|
  }

  function Closed(d: Candidates): Candidates { d.(hashes := [], epoch := 0, expected := 0, processed := 0) }

  // ---------------------------------------------------------------------------
  // What follows from the invariant.
  // ---------------------------------------------------------------------------

  /** A chunk that both the decorator and the wrapped stage accept continues the candidates
      where they end. */
  lemma AcceptedChunkContinues(d: Candidates, s: BackendState, input: StageInput)
    requires Inv(d, s) && Continues(d, input) && Accepts(s, input)
    ensures d.epoch != 0 ==> Tracks(d, s.provTokens) && |d.hashes| == |s.provTokens|
    ensures s.provEpoch != 0 ==> d.epoch != 0 || s.provTokens == []
  {
  }

  /** After a failed lookup nothing but a rollback is accepted. */
  lemma FailedLookupOnlyRollsBack(d: Candidates, s: BackendState, input: StageInput, epoch: nat, count: nat)
    requires Inv(d, s) && d.epoch != 0 && d.hashes == [] && d.processed < s.provProcessed
    ensures !(Continues(d, input) && Accepts(s, input)) && !CommitFits(d, epoch, count)
  {
  }

  /** The tokens of the open transaction before a chunk. */
  function Before(d: Candidates, s: BackendState): seq<Token> {
    if d.epoch == 0 then [] else s.provTokens
  }

  function Begun(d: Candidates, txn: Txn): Candidates {
    if d.epoch == 0 then d.(hashes := [], epoch := txn.epoch, expected := txn.evaluatedCount) else d
  }

  /** Both sides agree on what an accepted chunk does. */
  lemma ChunkOpens(d: Candidates, s: BackendState, input: StageInput, m: Model, stage: Stage)
    requires Inv(d, s) && Continues(d, input) && Accepts(s, input)
    ensures var e := Begun(d, input.txn); var t := Extended(m, stage, s, input); var before := Before(d, s);
            && InnerSane(t) && e.epoch != 0 && e.epoch == t.provEpoch && e.expected == t.provExpected
            && Tracks(e, before) && e.processed == |before| && t.provTokens == before + input.tokenIds
            && Inv(e.(hashes := []), t)
  {
    AcceptedChunkContinues(d, s, input);
  }

  /** The wrapped stage may take a chunk and still report a failure. */
  lemma InnerMovesAhead(d: Candidates, s: BackendState, input: StageInput, m: Model, stage: Stage)
    requires Inv(d, s) && Continues(d, input) && Accepts(s, input)
    ensures Inv(d, Extended(m, stage, s, input))
  {
    AcceptedChunkContinues(d, s, input);
    if d.epoch != 0 {
      var tokens := s.provTokens + input.tokenIds;
      forall i | 0 <= i < d.processed ensures d.hashes[i] == After(d.committed, tokens[..i + 1]) {
        assert tokens[..i + 1] == s.provTokens[..i + 1];
      }
    }
  }

  lemma StartsAfter(d: Candidates, before: seq<Token>)
    requires Tracks(d, before) && d.processed == |before|
    ensures (if d.hashes == [] then d.committed else d.hashes[|d.hashes| - 1]) == After(d.committed, before)
  {
    if before != [] { assert before[..|before| - 1 + 1] == before; }
  }

  /** The contexts along `tokens`, one after each. */
  ghost predicate Trail(start: Context, tokens: seq<Token>, hashes: seq<Context>) {
    |hashes| == |tokens| && forall i :: 0 <= i < |tokens| ==> hashes[i] == After(start, tokens[..i + 1])
  }

  lemma TrailGrows(start: Context, tokens: seq<Token>, i: nat, hashes: seq<Context>)
    requires i < |tokens| && Trail(start, tokens[..i], hashes)
    ensures Trail(start, tokens[..i + 1], hashes + [After(start, tokens[..i + 1])])
  {
    forall k | 0 <= k < i ensures hashes[k] == After(start, tokens[..i + 1][..k + 1]) {
      assert tokens[..i + 1][..k + 1] == tokens[..i][..k + 1];
    }
    assert tokens[..i + 1][..i + 1] == tokens[..i + 1];
  }

  /** What a completed lookup leaves behind. */
  lemma {:induction false} HashesFollow(d: Candidates, before: seq<Token>, tokens: seq<Token>, more: seq<Context>)
    requires Tracks(d, before) && d.processed == |before| && Trail(After(d.committed, before), tokens, more)
    ensures Tracks(d.(hashes := d.hashes + more, processed := d.processed + |tokens|), before + tokens)
  {
    var all := before + tokens;
    forall i | 0 <= i < |all| ensures (d.hashes + more)[i] == After(d.committed, all[..i + 1]) {
      if i < |before| {
        assert all[..i + 1] == before[..i + 1];
      } else {
        var k := i - |before|;
        assert all[..i + 1] == before + tokens[..k + 1];
        AfterConcat(d.committed, before, tokens[..k + 1]);
      }
    }
  }

  /** An online stop after `k` rows, with stage 0 one row ahead, is refused exactly if the
      transaction has rows left; the bare stage, with its checkpoint at `k`, would commit it. */
  lemma EarlyStopIsRefused(d: Candidates, s: BackendState, k: nat)
    requires Inv(d, s) && d.epoch != 0 && Tracks(d, s.provTokens) && s.provKind == Speculative
    requires 0 < k && d.processed == s.provProcessed == k + 1
    ensures CommitFits(d, d.epoch, k) <==> k + 1 == d.expected
    ensures k + 1 == d.expected ==> CommitAccepted(s, d.epoch, k)
    ensures CommitAccepted(s.(checkpoint := k), d.epoch, k)
  {
  }

  /** The digest of a chunk: the wrapped stage's, with every token's row bytes mixed in. */
  function RowDigest(l: L.Layout, files: seq<seq<Byte>>, mix: (nat, seq<Byte>) -> nat, h: Context, seed: nat,
                     tokens: seq<Token>): nat
    requires L.Accepted(l) && S.Backed(l, files)
  {
    if tokens == [] then seed
    else
      var n := |tokens| - 1;
      var at := After(h, tokens[..n]);
      TokenRowsUsable(l, at, tokens[n]);
      mix(RowDigest(l, files, mix, h, seed, tokens[..n]), S.BatchBytes(l, files, TokenRows(l.hash, at, tokens[n])))
  }

  /** Mixes `n` slices of `unit` bytes in, one after the other. */
  function Mixed(mix: (nat, seq<Byte>) -> nat, seed: nat, bytes: seq<Byte>, unit: nat, n: nat): nat
    requires |bytes| == n * unit
  {
    if n == 0 then seed
    else
      Slot(n - 1, n, unit);
      mix(Mixed(mix, seed, bytes[..(n - 1) * unit], unit, n - 1), bytes[(n - 1) * unit..])
  }

  /** Looking rows up token by token mixes in what one read of all the rows would give, sixteen
      rows at a time. */
  lemma {:induction false} RowDigestOfBatch(
      l: L.Layout, files: seq<seq<Byte>>, mix: (nat, seq<Byte>) -> nat, h: Context, seed: nat, tokens: seq<Token>,
      rows: seq<nat>, bytes: seq<Byte>)
    requires L.Accepted(l) && S.Backed(l, files) && rows == RowsOf(l.hash, h, tokens)
    requires S.AllUsable(l, rows) && bytes == S.BatchBytes(l, files, rows)
    ensures |bytes| == |tokens| * (16 * l.stride)
    ensures RowDigest(l, files, mix, h, seed, tokens) == Mixed(mix, seed, bytes, 16 * l.stride, |tokens|)
    decreases |tokens|
  {
    S.BatchSize(l, files, rows);
    if tokens == [] {
      assert bytes == [];
    } else {
      var n := |tokens| - 1;
      var at := After(h, tokens[..n]);
      var front, last := RowsOf(l.hash, h, tokens[..n]), TokenRows(l.hash, at, tokens[n]);
      TokenRowsUsable(l, at, tokens[n]);
      FrontUsable(l, front, last);
      S.BatchConcat(l, files, front, last);
      var a, b := S.BatchBytes(l, files, front), S.BatchBytes(l, files, last);
      S.BatchSize(l, files, last);
      RowDigestOfBatch(l, files, mix, h, seed, tokens[..n], front, a);
      MixedOneMore(mix, seed, a, b, 16 * l.stride, n);
    }
  }

  lemma FrontUsable(l: L.Layout, front: seq<nat>, last: seq<nat>)
    requires S.AllUsable(l, front + last)
    ensures S.AllUsable(l, front)
  {
    forall i | 0 <= i < |front| ensures front[i] < l.usableRows { assert (front + last)[i] == front[i]; }
  }

  lemma MixedOneMore(mix: (nat, seq<Byte>) -> nat, seed: nat, a: seq<Byte>, b: seq<Byte>, unit: nat, n: nat)
    requires |a| == n * unit && |b| == unit
    ensures |a + b| == (n + 1) * unit
    ensures Mixed(mix, seed, a + b, unit, n + 1) == mix(Mixed(mix, seed, a, unit, n), b)
  {
    assert (a + b)[..n * unit] == a && (a + b)[n * unit..] == b;
  }

  lemma TokenRowsUsable(l: L.Layout, h: Context, token: Token)
    requires L.Accepted(l)
    ensures S.AllUsable(l, TokenRows(l.hash, h, token))
  {
    forall i | 0 <= i < HEADS ensures TokenRows(l.hash, h, token)[i] < l.usableRows {
      L.HeadRowsAreUsable(l, h, token, i);
    }
  }

  lemma RowsOfOne(c: HashConfig, h: Context, token: Token)
    requires Sized(c)
    ensures RowsOf(c, h, [token]) == TokenRows(c, h, token) && After(h, [token]) == Context(h.newer, token)
  {
    assert [token][..0] == [];
  }

  class PleStage0Backend {
    const inner: MockStageBackend
    const store: S.Store
    const mix: (nat, seq<Byte>) -> nat
    var committedHash: Context
    var candidateHashes: seq<Context>
    var provisionalEpoch: nat
    var provisionalExpected: nat
    var provisionalProcessed: nat

    constructor (inner: MockStageBackend, store: S.Store, mix: (nat, seq<Byte>) -> nat)
      requires InnerSane(inner.View())
      ensures this.inner == inner && this.store == store && this.mix == mix
      ensures Own() == Candidates(Start(store.layout.hash), [], 0, 0, 0)
    {
      this.inner, this.store, this.mix := inner, store, mix;
      committedHash, candidateHashes := Start(store.layout.hash), [];
      provisionalEpoch, provisionalExpected, provisionalProcessed := 0, 0, 0;
    }

    function Own(): Candidates reads this {
      Candidates(committedHash, candidateHashes, provisionalEpoch, provisionalExpected, provisionalProcessed)
    }

    ghost predicate Wired() {
      && inner.stage == Stage0 && inner.env == store.env
      && L.Accepted(store.layout) && S.Backed(store.layout, store.files) && |store.files| <= 256
      && (store.cache != null ==> store.CacheFits())
    }

    ghost predicate Valid() reads this, inner { Wired() && Inv(Own(), inner.View()) }

    /** The cache machinery shares no object with the protocol's own state. */
    lemma Separate(cancel: CancellationToken?)
      ensures cancel !in store.Machinery() && inner !in store.Machinery() && this !in store.Machinery()
    {
    }

    /** Looks the rows of each token up, one token after the other. */
    method HashTokens(tokens: seq<Token>, start: Context, seed: nat, cancel: CancellationToken?)
      returns (r: Result<(seq<Context>, nat)>)
      requires Wired() && store.CacheReady() && (cancel != null ==> cancel.Valid())
      modifies store.env, store.Machinery(), cancel
      ensures (cancel != null ==> cancel.Valid()) && old(store.env.faults) <= store.env.faults
      ensures store.CacheValid()
      ensures (store.Blocking() || store.env.faults == old(store.env.faults) ==> store.CacheReady())
      ensures r.Ok? ==>
                && store.CacheReady() && Trail(start, tokens, r.value.0)
                && r.value.1 == RowDigest(store.layout, store.files, mix, start, seed, tokens)
      ensures r.Err? ==>
                || old(store.env.faults) < store.env.faults || !InVocabulary(tokens, store.layout.hash.vocabulary)
                || (cancel != null && cancel.state != Active && cancel.state != Sealed)
    {
      var hashes: seq<Context> := [];
      var digest, candidate := seed, start;
      for i := 0 to |tokens|
        invariant (cancel != null ==> cancel.Valid()) && old(store.env.faults) <= store.env.faults && store.CacheReady()
        invariant candidate == After(start, tokens[..i]) && Trail(start, tokens[..i], hashes)
        invariant digest == RowDigest(store.layout, store.files, mix, start, seed, tokens[..i])
      {
        var step := HashOne(tokens[i], candidate, digest, cancel);
        if step.Err? { return Err(step.failure); }
        assert tokens[..i + 1][..i] == tokens[..i] && tokens[..i + 1][i] == tokens[i];
        candidate, digest := step.value.0, step.value.1;
        TrailGrows(start, tokens, i, hashes);
        hashes := hashes + [candidate];
      }
      assert tokens[..|tokens|] == tokens;
      r := Ok((hashes, digest));
    }

    method HashOne(token: Token, context: Context, seed: nat, cancel: CancellationToken?)
      returns (r: Result<(Context, nat)>)
      requires Wired() && store.CacheReady() && (cancel != null ==> cancel.Valid())
      modifies store.env, store.Machinery(), cancel
      ensures (cancel != null ==> cancel.Valid()) && old(store.env.faults) <= store.env.faults
      ensures store.CacheValid()
      ensures (store.Blocking() || store.env.faults == old(store.env.faults) ==> store.CacheReady())
      ensures r.Ok? ==>
                && store.CacheReady() && r.value.0 == Context(context.newer, token)
                && S.AllUsable(store.layout, TokenRows(store.layout.hash, context, token))
                && r.value.1 == mix(seed, S.BatchBytes(store.layout, store.files,
                                                       TokenRows(store.layout.hash, context, token)))
      ensures r.Err? ==>
                || old(store.env.faults) < store.env.faults || !(0 <= token < store.layout.hash.vocabulary)
                || (cancel != null && cancel.state != Active && cancel.state != Sealed)
    {
      Separate(cancel);
      var stop := CheckCancel(cancel);
      if stop.Some? { return Err(stop.value); }
      var hashed := HashInto(token, context);
      if hashed.Err? { return Err(hashed.failure); }
      var (next, rows) := hashed.value;
      TokenRowsUsable(store.layout, context, token);
      var bytes := store.ReadRows(rows);
      if bytes.Err? { return Err(bytes.failure); }
      r := Ok((next, mix(seed, bytes.value)));
    }

    /** Hashes one token in a copy of the context. */
    method HashInto(token: Token, context: Context) returns (r: Result<(Context, seq<nat>)>)
      requires Sized(store.layout.hash)
      ensures r.Ok? <==> 0 <= token < store.layout.hash.vocabulary
      ensures r.Ok? ==> r.value == (Context(context.newer, token), TokenRows(store.layout.hash, context, token))
    {
      var candidate := new PleHashState(store.layout.hash, context);
      var rows := candidate.Rows([token]);
      RowsOfOne(store.layout.hash, context, token);
      assert InVocabulary([token], store.layout.hash.vocabulary) <==> 0 <= [token][0] < store.layout.hash.vocabulary;
      if rows.Err? { return Err(rows.failure); }
      r := Ok((candidate.previous, rows.value));
    }

    method CheckCancel(cancel: CancellationToken?) returns (f: Option<Failure>)
      requires cancel != null ==> cancel.Valid()
      modifies cancel
      ensures cancel != null ==> cancel.Valid()
      ensures f.Some? ==> cancel != null && cancel.state != Active && cancel.state != Sealed
    {
      f := None;
      if cancel != null { f := cancel.ThrowIfRequested(); }
    }

    /** One chunk: the wrapped stage first, then the lookups. A failed lookup drops every
        candidate, and the wrapped stage stays ahead until a rollback. */
    method Execute(input: StageInput, cancel: CancellationToken?) returns (r: Result<StageOutput>)
      requires Valid() && store.CacheReady() && (cancel != null ==> cancel.Valid())
      modifies this, inner, store.env, store.Machinery(), cancel
      ensures Valid() && committedHash == old(committedHash) && old(store.env.faults) <= store.env.faults
      ensures cancel != null ==> cancel.Valid()
      ensures store.CacheValid()
      ensures (store.Blocking() || store.env.faults == old(store.env.faults) ==> store.CacheReady())
      ensures r.Ok? ==>
                && Continues(old(Own()), input) && Accepts(old(inner.View()), input)
                && inner.View() == Extended(inner.m, inner.stage, old(inner.View()), input)
                && provisionalEpoch != 0 && Tracks(Own(), inner.provisionalTokens)
                && provisionalProcessed == inner.provisionalProcessed
                && r.value.digest == RowDigest(store.layout, store.files, mix,
                     After(committedHash, if old(provisionalEpoch) == 0 then [] else old(inner.provisionalTokens)),
                     inner.provisionalDigest, input.tokenIds)
      ensures r.Err? ==>
                || old(store.env.faults) < store.env.faults || !Continues(old(Own()), input)
                || !Accepts(old(inner.View()), input)
                || !InVocabulary(input.tokenIds, store.layout.hash.vocabulary)
                || (cancel != null && cancel.state != Active && cancel.state != Sealed)
    {
      Separate(cancel);
      var output := ExecuteInner(input);
      if output.Err? { return Err(output.failure); }
      r := LookUp(input, output.value, cancel, old(inner.View()));
    }

    /** The wrapped stage's part, if the chunk continues the decorator's transaction. */
    method ExecuteInner(input: StageInput) returns (r: Result<StageOutput>)
      requires Valid()
      modifies inner, inner.env
      ensures old(inner.env.faults) <= inner.env.faults
      ensures r.Ok? ==>
                && Continues(Own(), input) && Accepts(old(inner.View()), input)
                && inner.View() == Extended(inner.m, inner.stage, old(inner.View()), input)
                && r.value.digest == inner.provisionalDigest
      ensures r.Err? ==> Valid()
      ensures r.Err? ==>
                old(inner.env.faults) < inner.env.faults || !Continues(Own(), input)
                || !Accepts(old(inner.View()), input)
    {
      var first := provisionalEpoch == 0;
      if (!first && (input.txn.epoch != provisionalEpoch || input.txn.evaluatedCount != provisionalExpected
                     || input.chunkOffset != provisionalProcessed)) || (first && input.chunkOffset != 0) {
        return Err(RuntimeError);
      }
      r := inner.Execute(input);
      if r.Err? && inner.View() != old(inner.View()) {
        InnerMovesAhead(Own(), old(inner.View()), input, inner.m, inner.stage);
      }
    }

    /** The decorator's part of a chunk that the wrapped stage has taken. */
    method LookUp(input: StageInput, output: StageOutput, cancel: CancellationToken?, ghost was: BackendState)
      returns (r: Result<StageOutput>)
      requires Wired() && store.CacheReady() && (cancel != null ==> cancel.Valid())
      requires Inv(Own(), was) && Continues(Own(), input) && Accepts(was, input)
      requires inner.View() == Extended(inner.m, inner.stage, was, input) && output.digest == inner.provisionalDigest
      modifies this, store.env, store.Machinery(), cancel
      ensures Valid() && committedHash == old(committedHash) && old(store.env.faults) <= store.env.faults
      ensures cancel != null ==> cancel.Valid()
      ensures store.CacheValid()
      ensures (store.Blocking() || store.env.faults == old(store.env.faults) ==> store.CacheReady())
      ensures r.Ok? ==>
                && provisionalEpoch != 0 && Tracks(Own(), inner.provisionalTokens)
                && provisionalProcessed == inner.provisionalProcessed
                && r.value.digest == RowDigest(store.layout, store.files, mix,
                                               After(committedHash, Before(old(Own()), was)),
                     inner.provisionalDigest, input.tokenIds)
      ensures r.Err? ==>
                || old(store.env.faults) < store.env.faults
                || !InVocabulary(input.tokenIds, store.layout.hash.vocabulary)
                || (cancel != null && cancel.state != Active && cancel.state != Sealed)
    {
      Separate(cancel);
      ChunkOpens(Own(), was, input, inner.m, inner.stage);
      ghost var before := Before(Own(), was);
      Begin(input.txn);
      r := HashChunk(input.tokenIds, output, cancel, before);
    }

    /** Extends the candidates over one chunk, or drops them all. */
    method HashChunk(tokens: seq<Token>, output: StageOutput, cancel: CancellationToken?, ghost before: seq<Token>)
      returns (r: Result<StageOutput>)
      requires Wired() && store.CacheReady() && (cancel != null ==> cancel.Valid())
      requires Tracks(Own(), before) && provisionalProcessed == |before|
      modifies this, store.env, store.Machinery(), cancel
      ensures (cancel != null ==> cancel.Valid()) && old(store.env.faults) <= store.env.faults
      ensures store.CacheValid()
      ensures (store.Blocking() || store.env.faults == old(store.env.faults) ==> store.CacheReady())
      ensures r.Ok? ==>
                && Tracks(Own(), before + tokens) && provisionalProcessed == |before + tokens|
                && Own() == old(Own()).(hashes := candidateHashes, processed := provisionalProcessed)
                && r.value.digest == RowDigest(store.layout, store.files, mix, After(committedHash, before),
                                               output.digest, tokens)
      ensures r.Err? ==> Own() == old(Own()).(hashes := [])
      ensures r.Err? ==>
                || old(store.env.faults) < store.env.faults || !InVocabulary(tokens, store.layout.hash.vocabulary)
                || (cancel != null && cancel.state != Active && cancel.state != Sealed)
    {
      Separate(cancel);
      StartsAfter(Own(), before);
      var start := if candidateHashes == [] then committedHash else candidateHashes[|candidateHashes| - 1];
      var hashed := HashTokens(tokens, start, output.digest, cancel);
      r := Settle(hashed, tokens, output, cancel, before);
    }

    /** Keeps the candidates of a finished lookup, or drops them all. */
    method Settle(hashed: Result<(seq<Context>, nat)>, tokens: seq<Token>, output: StageOutput,
                  cancel: CancellationToken?,
                  ghost before: seq<Token>) returns (r: Result<StageOutput>)
      requires Tracks(Own(), before) && provisionalProcessed == |before| && (cancel != null ==> cancel.Valid())
      requires hashed.Ok? ==> Trail(After(committedHash, before), tokens, hashed.value.0)
      modifies this, cancel
      ensures cancel != null ==> cancel.Valid()
      ensures r.Ok? ==>
                && hashed.Ok? && Tracks(Own(), before + tokens) && provisionalProcessed == |before + tokens|
                && Own() == old(Own()).(hashes := candidateHashes, processed := provisionalProcessed)
                && r.value.digest == hashed.value.1
      ensures r.Err? ==> Own() == old(Own()).(hashes := [])
      ensures r.Err? ==> hashed.Err? || (cancel != null && cancel.state != Active && cancel.state != Sealed)
      ensures hashed.Err? && cancel != null ==> cancel.state == old(cancel.state)
    {
      if hashed.Err? {
        candidateHashes := [];
        return Err(hashed.failure);
      }
      HashesFollow(Own(), before, tokens, hashed.value.0);
      r := Adopt(hashed.value.0, output.(digest := hashed.value.1), cancel);
    }

    /** Takes the new candidates over, unless the request was cancelled in the meantime. */
    method Adopt(hashes: seq<Context>, output: StageOutput, cancel: CancellationToken?) returns (r: Result<StageOutput>)
      requires cancel != null ==> cancel.Valid()
      modifies this, cancel
      ensures cancel != null ==> cancel.Valid()
      ensures r.Ok? ==>
                r.value == output && Own() == old(Own()).(hashes := old(candidateHashes) + hashes,
                                                          processed := old(provisionalProcessed) + |hashes|)
      ensures r.Err? ==>
                Own() == old(Own()).(hashes := []) && cancel != null && cancel.state != Active && cancel.state != Sealed
    {
      var stop := CheckCancel(cancel);
      if stop.Some? {
        candidateHashes := [];
        return Err(stop.value);
      }
      candidateHashes := candidateHashes + hashes;
      provisionalProcessed := provisionalProcessed + |hashes|;
      r := Ok(output);
    }

    method Begin(txn: Txn)
      modifies this
      ensures Own() == Begun(old(Own()), txn)
    {
      if provisionalEpoch == 0 {
        candidateHashes, provisionalEpoch, provisionalExpected := [], txn.epoch, txn.evaluatedCount;
      }
    }

    /** Publishes the accepted prefix: the context becomes the one after exactly `count` tokens. */
    method Commit(epoch: nat, count: nat) returns (r: Result<()>)
      requires Valid()
      modifies this, inner, inner.env
      ensures Valid() && old(inner.env.faults) <= inner.env.faults
      ensures r.Ok? ==>
                && CommitFits(old(Own()), epoch, count) && CommitAccepted(old(inner.View()), epoch, count)
                && committedHash == After(old(committedHash), old(inner.provisionalTokens)[..count])
                && Own() == Closed(old(Own())).(committed := committedHash)
                && inner.View() == Cleared(old(inner.View())).(committedEpoch := epoch,
                                                               committedFrontier := old(inner.provisionalBase) + count)
      ensures r.Err? ==> Own() == old(Own()) && inner.View() == old(inner.View())
      ensures r.Err? ==> old(inner.env.faults) < inner.env.faults || !CommitFits(old(Own()), epoch, count)
    {
      if epoch != provisionalEpoch || count == 0 || provisionalProcessed != provisionalExpected
         || count > |candidateHashes|
      {
        return Err(RuntimeError);
      }
      var inside := inner.Commit(epoch, count);
      if inside.Err? { return Err(inside.failure); }
      committedHash := candidateHashes[count - 1];
      Close();
      r := Ok(());
    }

    method Close()
      modifies this
      ensures Own() == Closed(old(Own()))
    {
      candidateHashes, provisionalEpoch, provisionalExpected, provisionalProcessed := [], 0, 0, 0;
    }

    /** Drops the candidates and keeps the committed context. */
    method Rollback(epoch: nat) returns (r: Result<()>)
      requires Valid()
      modifies this, inner, inner.env
      ensures Valid() && committedHash == old(committedHash) && old(inner.env.faults) <= inner.env.faults
      ensures r.Ok? ==> Own() == Closed(old(Own())) && inner.provisionalEpoch == 0
      ensures r.Err? ==> Own() == old(Own()) && inner.View() == old(inner.View())
      ensures r.Err? ==>
                || old(inner.env.faults) < inner.env.faults
                || (if old(inner.provisionalEpoch) == 0 then epoch <= old(inner.committedEpoch)
                    else epoch != old(inner.provisionalEpoch))
    {
      var inside := inner.Rollback(epoch);
      if inside.Err? { return Err(inside.failure); }
      if provisionalEpoch != 0 && epoch != provisionalEpoch { return Err(RuntimeError); }
      Close();
      r := Ok(());
    }

    method ResetSession() returns (r: Result<()>)
      requires Valid()
      modifies this, inner, inner.env
      ensures Valid() && old(inner.env.faults) <= inner.env.faults
      ensures r.Ok? ==> Own() == Candidates(Start(store.layout.hash), [], 0, 0, 0) && inner.View() == FRESH
      ensures r.Err? ==> Own() == old(Own()) && inner.View() == old(inner.View())
    {
      if provisionalEpoch != 0 { return Err(LogicError); }
      var inside := inner.ResetSession();
      if inside.Err? { return Err(inside.failure); }
      committedHash := Start(store.layout.hash);
      candidateHashes, provisionalExpected, provisionalProcessed := [], 0, 0;
      r := Ok(());
    }
  }
}
