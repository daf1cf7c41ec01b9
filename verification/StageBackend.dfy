/** One pipeline stage as the CPU fixture implements it: a committed frontier and epoch,
    and at most one provisional transaction. Any call may additionally fail for reasons
    outside the protocol; such failures are recorded in a shared environment. */
module StageBackend {
  import opened Contracts
  import opened Faults

  /** The parts of the arithmetic that the protocol does not depend on. */
  datatype Model = Model(
    vocabulary: Positive,
    hash: (Token, nat) -> nat,
    digestSeed: (nat, Stage) -> nat,
    digestMix: (nat, Token) -> nat,
    payloadSum: (nat, nat) -> nat,
    drafter: (Token, nat, nat, nat, nat) -> nat)
  {
    /** The greedy next token after `token` at `position`. */
    function Predict(token: Token, position: nat): (next: Token)
      ensures 0 <= next < vocabulary
    {
      hash(token, position) % vocabulary
    }

    /** What is drafted behind `pending` in an epoch: any tokens of the vocabulary, as many as
        asked for. */
    function Draft(pending: Token, position: nat, width: nat, epoch: nat): (drafted: seq<Token>)
      ensures |drafted| == width && InVocabulary(drafted, vocabulary)
    {
      seq(width, i requires 0 <= i < width => drafter(pending, position, width, epoch, i) % vocabulary)
    }
  }

  datatype StageInput = StageInput(
    txn: Txn, tokenIds: seq<Token>, frame: Frame, chunkOffset: nat, finalChunk: bool, needLogits: bool)

  datatype StageOutput = StageOutput(
    frame: Frame, stateCommitCount: nat, nextToken: Token, digest: nat, logits: Option<Token>)

  datatype BackendState = BackendState(
    committedFrontier: nat, committedEpoch: nat,
    provEpoch: nat, provBase: nat, provExpected: nat, provProcessed: nat, provKind: TxnKind,
    provDigest: nat, provTokens: seq<Token>, checkpoint: nat)

  const FRESH := BackendState(0, 0, 0, 0, 0, 0, InvalidKind, 0, [], 0)

  predicate Consistent(s: BackendState) {
    s.provProcessed == |s.provTokens|
  }

  function Digest(m: Model, seed: nat, tokens: seq<Token>): nat {
    if tokens == [] then seed
    else m.digestMix(Digest(m, seed, tokens[..|tokens| - 1]), tokens[|tokens| - 1])
  }

  lemma {:induction false} DigestOfConcat(m: Model, seed: nat, a: seq<Token>, b: seq<Token>)
    ensures Digest(m, seed, a + b) == Digest(m, Digest(m, seed, a), b)
  {
    if b == [] {
      assert a + b == a;
    } else {
      assert (a + b)[..|a + b| - 1] == a + b[..|b| - 1];
      DigestOfConcat(m, seed, a, b[..|b| - 1]);
    }
  }

  /** Every token is mixed in. */
  lemma DigestTakesIn(m: Model, seed: nat, tokens: seq<Token>, t: Token)
    ensures Digest(m, seed, []) == seed
    ensures Digest(m, seed, tokens + [t]) == m.digestMix(Digest(m, seed, tokens), t)
  {
    assert (tokens + [t])[..|tokens|] == tokens;
  }

  method DigestTokens(m: Model, seed: nat, tokens: seq<Token>) returns (digest: nat)
    ensures digest == Digest(m, seed, tokens)
  {
    digest := seed;
    for i := 0 to |tokens|
      invariant digest == Digest(m, seed, tokens[..i])
    {
      assert tokens[..i + 1][..i] == tokens[..i];
      digest := m.digestMix(digest, tokens[i]);
    }
    assert tokens[..|tokens|] == tokens;
  }

  /** The chunk is a well-formed piece of its transaction and continues the provisional range. */
  predicate Accepts(s: BackendState, input: StageInput) {
    var txn, count := input.txn, |input.tokenIds|;
    && txn.status == Prepared
    && 0 < count
    && input.chunkOffset + count <= txn.evaluatedCount
    && input.finalChunk == (input.chunkOffset + count == txn.evaluatedCount)
    && if s.provEpoch == 0 then
         s.committedEpoch < txn.epoch && input.chunkOffset == 0 && txn.baseTarget == s.committedFrontier
       else
         && txn.epoch == s.provEpoch && txn.baseTarget == s.provBase
         && txn.evaluatedCount == s.provExpected && txn.kind == s.provKind
         && input.chunkOffset == s.provProcessed
  }

  function Started(m: Model, stage: Stage, s: BackendState, txn: Txn): BackendState {
    if s.provEpoch != 0 then s
    else s.(provEpoch := txn.epoch, provBase := txn.baseTarget, provExpected := txn.evaluatedCount,
            provProcessed := 0, provKind := txn.kind, provTokens := [],
            provDigest := m.digestSeed(txn.epoch, stage))
  }

  function ExtendedBy(m: Model, stage: Stage, s: BackendState, txn: Txn, tokens: seq<Token>): BackendState {
    var t := Started(m, stage, s, txn);
    t.(provDigest := Digest(m, t.provDigest, tokens),
       provTokens := t.provTokens + tokens,
       provProcessed := t.provProcessed + |tokens|)
  }

  /** The provisional state after one more chunk. */
  function Extended(m: Model, stage: Stage, s: BackendState, input: StageInput): BackendState {
    ExtendedBy(m, stage, s, input.txn, input.tokenIds)
  }

  /** Feeds `tokens`, `chunk` at a time. */
  function Feed(m: Model, stage: Stage, s: BackendState, txn: Txn, tokens: seq<Token>, chunk: nat): BackendState
    requires 0 < chunk
    decreases |tokens|
  {
    if |tokens| <= chunk then ExtendedBy(m, stage, s, txn, tokens)
    else Feed(m, stage, ExtendedBy(m, stage, s, txn, tokens[..chunk]), txn, tokens[chunk..], chunk)
  }

  lemma ExtendedTwice(m: Model, stage: Stage, s: BackendState, txn: Txn, a: seq<Token>, b: seq<Token>)
    requires txn.epoch != 0
    ensures ExtendedBy(m, stage, ExtendedBy(m, stage, s, txn, a), txn, b) == ExtendedBy(m, stage, s, txn, a + b)
  {
    var t := Started(m, stage, s, txn);
    DigestOfConcat(m, t.provDigest, a, b);
    assert t.provTokens + a + b == t.provTokens + (a + b);
  }

  /** The provisional state, digest included, does not depend on the chunk size. */
  lemma {:induction false} ChunkSizeDoesNotMatter(
      m: Model, stage: Stage, s: BackendState, txn: Txn, tokens: seq<Token>, chunk: nat)
    requires 0 < chunk && txn.epoch != 0
    ensures Feed(m, stage, s, txn, tokens, chunk) == ExtendedBy(m, stage, s, txn, tokens)
    decreases |tokens|
  {
    if |tokens| > chunk {
      ChunkSizeDoesNotMatter(m, stage, ExtendedBy(m, stage, s, txn, tokens[..chunk]), txn, tokens[chunk..], chunk);
      ExtendedTwice(m, stage, s, txn, tokens[..chunk], tokens[chunk..]);
      assert tokens[..chunk] + tokens[chunk..] == tokens;
    }
  }

  function FrameFor(sessionHash: nat, hiddenWidth: nat, input: StageInput, checksum: nat): Frame {
    Frame(sessionHash, input.txn.epoch, input.txn.baseTarget + input.chunkOffset, |input.tokenIds|,
          true, hiddenWidth, hiddenWidth * |input.tokenIds| * 2, checksum, checksum)
  }

  predicate FrameFits(input: StageInput) {
    && ValidateBoundary(input.frame, |input.tokenIds|)
    && input.frame.carried == input.frame.payloadChecksum
    && input.frame.epoch == input.txn.epoch
    && input.frame.tokenStart == input.txn.baseTarget + input.chunkOffset
  }

  /** Logits exist only for the last chunk of a transaction that does not speculate; an inner
      chunk of a speculative one returns before they are looked at. */
  predicate LaneFits(input: StageInput) {
    input.needLogits ==> input.finalChunk == (input.txn.kind != Speculative)
  }

  /** `c` is the length of the longest prefix in which every token after the first is the
      prediction made from its predecessor. */
  predicate AcceptedPrefix(m: Model, tokens: seq<Token>, base: nat, c: nat) {
    && 1 <= c <= |tokens|
    && (forall i :: 1 <= i < c ==> tokens[i] == m.Predict(tokens[i - 1], base + i))
    && (c < |tokens| ==> tokens[c] != m.Predict(tokens[c - 1], base + c))
  }

  /** The fixture's own drafter follows the predictions and goes wrong once, at a depth that
      depends on the position, so that over all positions every depth up to the whole width
      can occur. A vocabulary of one token has nothing wrong to offer. */
  method FixtureDraft(m: Model, mix: nat -> nat, pending: Token, position: nat, width: nat)
    returns (tokens: seq<Token>)
    ensures |tokens| == width && InVocabulary(tokens, m.vocabulary)
    ensures AcceptedPrefix(m, [pending] + tokens, position,
                           if m.vocabulary == 1 then width + 1 else mix(position) % (width + 1) + 1)
  {
    tokens := [];
    var previous := pending;
    var mismatch := if width == 0 then 0 else mix(position) % (width + 1);
    for i := 0 to width
      invariant |tokens| == i && InVocabulary(tokens, m.vocabulary) && previous == ([pending] + tokens)[i]
      invariant forall j :: 1 <= j <= i && (j != mismatch + 1 || m.vocabulary == 1) ==>
                  ([pending] + tokens)[j] == m.Predict(([pending] + tokens)[j - 1], position + j)
      invariant mismatch < i && m.vocabulary > 1 ==>
                  ([pending] + tokens)[mismatch + 1]
                    != m.Predict(([pending] + tokens)[mismatch], position + mismatch + 1)
    {
      var next := m.Predict(previous, position + i + 1);
      if i == mismatch && mismatch < width { next := (next + 1) % m.vocabulary; }
      ghost var before := [pending] + tokens;
      tokens := tokens + [next];
      assert [pending] + tokens == before + [next];
      previous := next;
    }
  }

  predicate CommitAccepted(s: BackendState, epoch: nat, count: nat) {
    && epoch == s.provEpoch
    && 0 < count <= s.provProcessed
    && (|| s.provProcessed == s.provExpected
        || (s.provKind == Speculative && s.provProcessed == count)
        || (s.provKind == Speculative && s.provProcessed == count + 1 && s.checkpoint == count))
  }

  function Cleared(s: BackendState): BackendState {
    s.(provEpoch := 0, provExpected := 0, provProcessed := 0, provKind := InvalidKind,
       provDigest := 0, provTokens := [], checkpoint := 0)
  }

  class MockStageBackend {
    const m: Model
    const stage: Stage
    const sessionHash: nat
    const hiddenWidth: nat
    const env: Environment
    var committedFrontier: nat
    var committedEpoch: nat
    var provisionalEpoch: nat
    var provisionalBase: nat
    var provisionalExpected: nat
    var provisionalProcessed: nat
    var provisionalKind: TxnKind
    var provisionalDigest: nat
    var provisionalTokens: seq<Token>
    var speculativeCheckpoint: nat

    function View(): BackendState reads this {
      BackendState(committedFrontier, committedEpoch, provisionalEpoch, provisionalBase,
                   provisionalExpected, provisionalProcessed, provisionalKind, provisionalDigest,
                   provisionalTokens, speculativeCheckpoint)
    }

    constructor (m: Model, stage: Stage, sessionHash: nat, hiddenWidth: nat, env: Environment)
      ensures View() == FRESH
      ensures this.m == m && this.stage == stage && this.sessionHash == sessionHash
      ensures this.hiddenWidth == hiddenWidth && this.env == env
    {
      this.m, this.stage, this.sessionHash, this.hiddenWidth := m, stage, sessionHash, hiddenWidth;
      this.env := env;
      committedFrontier, committedEpoch, provisionalEpoch, provisionalBase := 0, 0, 0, 0;
      provisionalExpected, provisionalProcessed, provisionalKind := 0, 0, InvalidKind;
      provisionalDigest, provisionalTokens, speculativeCheckpoint := 0, [], 0;
    }

    /** Evaluates one chunk. A throwing call leaves the state either untouched or already
        extended by the chunk, and throws only on a fault or if handed a chunk or frame that
        does not fit. */
    method Execute(input: StageInput) returns (r: Result<StageOutput>)
      requires Consistent(View())
      modifies this, env
      ensures old(env.faults) <= env.faults
      ensures r.Ok? ==> Accepts(old(View()), input) && View() == Extended(m, stage, old(View()), input)
      ensures r.Ok? && stage == Stage0 && env.faults == old(env.faults) ==>
                r.value.frame == FrameFor(sessionHash, hiddenWidth, input,
                                          m.payloadSum(provisionalDigest, input.chunkOffset))
      ensures r.Ok? && stage == Stage1 ==>
                FrameFits(input) && LaneFits(input) && Predicts(View(), input, r.value, old(env.faults) < env.faults)
      ensures r.Ok? ==> r.value.digest == provisionalDigest
      ensures r.Err? ==>
                || View() == old(View())
                || (Accepts(old(View()), input) && View() == Extended(m, stage, old(View()), input))
      ensures r.Err? ==>
                || old(env.faults) < env.faults || !Accepts(old(View()), input)
                || (stage == Stage1 && !(FrameFits(input) && LaneFits(input)))
    {
      var fault := env.Fault();
      if fault.Some? { return Err(fault.value); }
      var accepted := AcceptChunk(input);
      if !accepted { return Err(RuntimeError); }
      if stage == Stage0 {
        r := EmitFrame(input);
      } else {
        r := EmitPrediction(input);
      }
    }

    /** The provisional bookkeeping: opens the transaction on its first chunk, and refuses
        anything but the next contiguous chunk of the one in progress. */
    method AcceptChunk(input: StageInput) returns (ok: bool)
      modifies this
      ensures ok == Accepts(old(View()), input)
      ensures View() == if ok then Extended(m, stage, old(View()), input) else old(View())
    {
      var txn, count := input.txn, |input.tokenIds|;
      if txn.status != Prepared { return false; }
      if count == 0 || input.chunkOffset > txn.evaluatedCount || count > txn.evaluatedCount - input.chunkOffset
         || input.finalChunk != (input.chunkOffset + count == txn.evaluatedCount) {
        return false;
      }
      if provisionalEpoch == 0 {
        if txn.epoch <= committedEpoch || input.chunkOffset != 0 || txn.baseTarget != committedFrontier {
          return false;
        }
        provisionalEpoch, provisionalBase := txn.epoch, txn.baseTarget;
        provisionalExpected, provisionalProcessed, provisionalKind := txn.evaluatedCount, 0, txn.kind;
        provisionalTokens := [];
        provisionalDigest := m.digestSeed(txn.epoch, stage);
      } else if txn.epoch != provisionalEpoch || txn.baseTarget != provisionalBase
                || txn.evaluatedCount != provisionalExpected || txn.kind != provisionalKind
                || input.chunkOffset != provisionalProcessed {
        return false;
      }
      provisionalDigest := DigestTokens(m, provisionalDigest, input.tokenIds);
      provisionalTokens := provisionalTokens + input.tokenIds;
      provisionalProcessed := provisionalProcessed + count;
      ok := true;
    }

    method EmitFrame(input: StageInput) returns (r: Result<StageOutput>)
      modifies env
      ensures old(env.faults) <= env.faults
      ensures r.Err? ==> old(env.faults) < env.faults
      ensures r.Ok? ==> r.value.digest == provisionalDigest
      ensures r.Ok? && env.faults == old(env.faults) ==>
                r.value.frame == FrameFor(sessionHash, hiddenWidth, input,
                                          m.payloadSum(provisionalDigest, input.chunkOffset))
    {
      var frame := FrameFor(sessionHash, hiddenWidth, input, m.payloadSum(provisionalDigest, input.chunkOffset));
      var fault := env.Fault();
      if fault.Some? {
        if * { return Err(fault.value); }
        frame := *;
      }
      r := Ok(StageOutput(frame, provisionalProcessed, -1, provisionalDigest, None));
    }

    method EmitPrediction(input: StageInput) returns (r: Result<StageOutput>)
      requires Consistent(View()) && 1 <= provisionalProcessed
      modifies env
      ensures old(env.faults) <= env.faults
      ensures r.Err? ==> old(env.faults) < env.faults || !FrameFits(input) || !LaneFits(input)
      ensures r.Ok? ==>
                FrameFits(input) && LaneFits(input) && Predicts(View(), input, r.value, old(env.faults) < env.faults)
      ensures r.Ok? ==> r.value.digest == provisionalDigest
    {
      if !FrameFits(input) { return Err(RuntimeError); }
      var committed := provisionalProcessed;
      if input.txn.kind == Speculative && input.finalChunk {
        committed := CountAccepted(input.txn.baseTarget);
      }
      var next := m.Predict(provisionalTokens[committed - 1], input.txn.baseTarget + committed);
      if !LaneFits(input) { return Err(RuntimeError); }
      var fault := env.Fault();
      if fault.Some? {
        if * { return Err(fault.value); }
        next := -1;
      }
      r := Ok(StageOutput(NO_FRAME, committed, next, provisionalDigest,
                          if input.needLogits && input.finalChunk then Some(next) else None));
    }

    /** What stage 1 reports. A disturbed stage may report a token outside the vocabulary. */
    ghost predicate Predicts(s: BackendState, input: StageInput, out: StageOutput, disturbed: bool) {
      && 1 <= out.stateCommitCount <= |s.provTokens|
      && (if input.txn.kind == Speculative && input.finalChunk
          then AcceptedPrefix(m, s.provTokens, input.txn.baseTarget, out.stateCommitCount)
          else out.stateCommitCount == |s.provTokens|)
      && (|| out.nextToken == m.Predict(s.provTokens[out.stateCommitCount - 1],
                                        input.txn.baseTarget + out.stateCommitCount)
          || (disturbed && out.nextToken == -1))
      && out.logits == (if input.needLogits && input.finalChunk then Some(out.nextToken) else None)
    }

    method CountAccepted(base: nat) returns (committed: nat)
      requires Consistent(View()) && 1 <= provisionalProcessed
      ensures AcceptedPrefix(m, provisionalTokens, base, committed)
    {
      committed := 1;
      for i := 1 to provisionalProcessed
        invariant committed == i
        invariant forall j :: 1 <= j < i ==> provisionalTokens[j] == m.Predict(provisionalTokens[j - 1], base + j)
      {
        if provisionalTokens[i] != m.Predict(provisionalTokens[i - 1], base + i) { break; }
        committed := committed + 1;
      }
    }

    /** Drafts a continuation. A fault may damage it in any way. */
    method DraftRetained(pending: Token, position: nat, maxDraft: nat, epoch: nat)
      returns (r: Result<seq<Token>>)
      modifies env
      ensures old(env.faults) <= env.faults
      ensures r.Ok? && env.faults == old(env.faults) ==> r.value == m.Draft(pending, position, maxDraft, epoch)
      ensures r.Err? ==> old(env.faults) < env.faults || maxDraft == 0 || epoch == 0 || stage != Stage1
    {
      if maxDraft == 0 || epoch == 0 { return Err(InvalidArgument); }
      if stage != Stage1 { return Err(RuntimeError); }
      var fault := env.Fault();
      if fault.Some? {
        var damaged: seq<Token> := *;
        if * { return Err(fault.value); }
        return Ok(damaged);
      }
      r := Ok(m.Draft(pending, position, maxDraft, epoch));
    }

    method CheckpointSpeculativePrefix(epoch: nat, prefix: nat) returns (r: Result<()>)
      modifies this, env
      ensures old(env.faults) <= env.faults
      ensures r.Ok? ==> View() == old(View()).(checkpoint := prefix)
      ensures r.Ok? ==>
                && stage == Stage0 && epoch == provisionalEpoch && provisionalKind == Speculative
                && 0 < prefix == provisionalProcessed
      ensures r.Err? ==> View() == old(View())
      ensures r.Err? ==> old(env.faults) < env.faults || stage != Stage0 || epoch != old(provisionalEpoch)
                         || old(provisionalKind) != Speculative || prefix == 0 || prefix != old(provisionalProcessed)
    {
      var fault := env.Fault();
      if fault.Some? { return Err(fault.value); }
      if stage != Stage0 || epoch != provisionalEpoch || provisionalKind != Speculative
         || prefix == 0 || prefix != provisionalProcessed {
        return Err(RuntimeError);
      }
      speculativeCheckpoint := prefix;
      r := Ok(());
    }

    /** Accepting a draft row on stage 1 may repair retained draft state; the fixture has none. */
    method ReconcileRetainedDraft(epoch: nat, row: nat) returns (r: Result<()>)
      modifies env
      ensures old(env.faults) <= env.faults
      ensures r.Err? ==> old(env.faults) < env.faults
    {
      var fault := env.Fault();
      r := if fault.Some? then Err(fault.value) else Ok(());
    }

    method PrefetchTransaction() returns (r: Result<()>)
      modifies env
      ensures old(env.faults) <= env.faults
      ensures r.Err? ==> old(env.faults) < env.faults
    {
      var fault := env.Fault();
      r := if fault.Some? then Err(fault.value) else Ok(());
    }

    method Commit(epoch: nat, count: nat) returns (r: Result<()>)
      modifies this, env
      ensures old(env.faults) <= env.faults
      ensures r.Ok? ==> CommitAccepted(old(View()), epoch, count)
      ensures r.Ok? ==>
                View() == Cleared(old(View())).(committedEpoch := epoch,
                                                committedFrontier := old(provisionalBase) + count)
      ensures r.Err? ==> View() == old(View())
      ensures r.Err? ==> old(env.faults) < env.faults || !CommitAccepted(old(View()), epoch, count)
    {
      var fault := env.Fault();
      if fault.Some? { return Err(fault.value); }
      var complete := provisionalProcessed == provisionalExpected;
      var onlineExact := provisionalKind == Speculative && provisionalProcessed == count;
      var onlineLookahead := provisionalKind == Speculative && provisionalProcessed == count + 1
                             && speculativeCheckpoint == count;
      if epoch != provisionalEpoch || count == 0 || count > provisionalProcessed
         || (!complete && !onlineExact && !onlineLookahead) {
        return Err(RuntimeError);
      }
      committedFrontier, committedEpoch := provisionalBase + count, epoch;
      ClearProvisional();
      r := Ok(());
    }

    method Rollback(epoch: nat) returns (r: Result<()>)
      modifies this, env
      ensures old(env.faults) <= env.faults
      ensures r.Ok? ==>
                if old(provisionalEpoch) == 0 then old(committedEpoch) < epoch else epoch == old(provisionalEpoch)
      ensures r.Ok? ==>
                var rest := if old(provisionalEpoch) == 0 then old(View()) else Cleared(old(View()));
                View() == rest.(committedEpoch := epoch)
      ensures r.Err? ==> View() == old(View())
      ensures r.Err? ==>
                old(env.faults) < env.faults
                || (if old(provisionalEpoch) == 0 then epoch <= old(committedEpoch) else epoch != old(provisionalEpoch))
    {
      var fault := env.Fault();
      if fault.Some? { return Err(fault.value); }
      if provisionalEpoch == 0 {
        if epoch <= committedEpoch { return Err(RuntimeError); }
        committedEpoch := epoch;
        return Ok(());
      }
      if epoch != provisionalEpoch { return Err(RuntimeError); }
      committedEpoch := epoch;
      ClearProvisional();
      r := Ok(());
    }

    method ResetSession() returns (r: Result<()>)
      modifies this, env
      ensures old(env.faults) <= env.faults
      ensures r.Ok? ==> old(provisionalEpoch) == 0 && View() == FRESH
      ensures r.Err? ==> View() == old(View())
      ensures r.Err? ==> old(env.faults) < env.faults || old(provisionalEpoch) != 0
    {
      var fault := env.Fault();
      if fault.Some? { return Err(fault.value); }
      if provisionalEpoch != 0 { return Err(LogicError); }
      committedFrontier, committedEpoch, provisionalBase := 0, 0, 0;
      ClearProvisional();
      r := Ok(());
    }

    method ClearProvisional()
      modifies this
      ensures View() == Cleared(old(View()))
    {
      provisionalEpoch, provisionalExpected, provisionalProcessed := 0, 0, 0;
      provisionalKind, provisionalDigest, provisionalTokens, speculativeCheckpoint := InvalidKind, 0, [], 0;
    }
  }
}
