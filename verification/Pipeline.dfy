/** How one transaction's chunks move through the two stages, up to the point where the
    coordinator decides how much of it to keep. */
module Pipeline {
  import opened Contracts
  import opened Faults
  import opened StageBackend
  import opened Cancellation

  // ---------------------------------------------------------------------------
  // What a stage holds while a transaction runs.
  // ---------------------------------------------------------------------------

  /** Nothing provisional; committed exactly up to `frontier` in `epoch`. */
  predicate Idle(s: BackendState, frontier: nat, epoch: nat) {
    && s.committedFrontier == frontier && s.committedEpoch == epoch
    && s.provEpoch == 0 && s.provExpected == 0 && s.provProcessed == 0
    && s.provKind == InvalidKind && s.provDigest == 0 && s.provTokens == [] && s.checkpoint == 0
  }

  /** The committed part is untouched and the provisional part belongs to `txn` or is absent. */
  predicate Recoverable(s: BackendState, txn: Txn) {
    && s.committedFrontier == txn.baseTarget && s.committedEpoch + 1 == txn.epoch
    && (s.provEpoch == txn.epoch || Idle(s, txn.baseTarget, txn.epoch - 1))
  }

  /** The stage has evaluated exactly `tokens` of `txn`, and its digest is theirs, however they
      were cut into chunks. */
  predicate InFlight(m: Model, stage: Stage, s: BackendState, txn: Txn, tokens: seq<Token>) {
    if tokens == [] then txn.epoch > 0 && Idle(s, txn.baseTarget, txn.epoch - 1)
    else
      && s.committedFrontier == txn.baseTarget && s.committedEpoch + 1 == txn.epoch
      && s.provEpoch == txn.epoch && s.provBase == txn.baseTarget
      && s.provExpected == txn.evaluatedCount && s.provKind == txn.kind
      && s.provTokens == tokens && s.provProcessed == |tokens|
      && s.provDigest == DigestOf(m, stage, txn, tokens)
  }

  function DigestOf(m: Model, stage: Stage, txn: Txn, tokens: seq<Token>): nat {
    Digest(m, m.digestSeed(txn.epoch, stage), tokens)
  }

  lemma InFlightFacts(m: Model, stage: Stage, s: BackendState, txn: Txn, tokens: seq<Token>)
    requires InFlight(m, stage, s, txn, tokens)
    ensures Consistent(s) && Recoverable(s, txn)
  {
  }

  /** The next contiguous chunk is accepted, and leaves the stage holding one chunk more. */
  lemma NextChunk(m: Model, stage: Stage, s: BackendState, txn: Txn, eval: seq<Token>, offset: nat, count: nat,
                  input: StageInput)
    requires txn.status == Prepared && offset + count <= |eval| == txn.evaluatedCount && 0 < count
    requires InFlight(m, stage, s, txn, eval[..offset])
    requires input.txn == txn && input.tokenIds == eval[offset..offset + count] && input.chunkOffset == offset
    requires input.finalChunk == (offset + count == |eval|)
    ensures Accepts(s, input) && Consistent(s) && Recoverable(s, txn)
    ensures var t := Extended(m, stage, s, input);
            && InFlight(m, stage, t, txn, eval[..offset + count]) && t.provTokens == eval[..offset + count]
            && t.checkpoint == s.checkpoint && Recoverable(t, txn)
  {
    assert eval[..offset] + eval[offset..offset + count] == eval[..offset + count];
    DigestOfConcat(m, m.digestSeed(txn.epoch, stage), eval[..offset], eval[offset..offset + count]);
  }

  // ---------------------------------------------------------------------------
  // What a finished verification establishes.
  // ---------------------------------------------------------------------------

  datatype Verified = Verified(extent: nat, nextToken: Token, stateCommitCount: nat, logits: Option<Token>)

  /** Row `i` of `eval` is what plain decoding would have produced there, and does not end
      the generation. */
  predicate Accepted(m: Model, base: nat, stops: set<Token>, eval: seq<Token>, i: nat)
    requires 0 < i < |eval|
  {
    eval[i] == m.Predict(eval[i - 1], base + i) && eval[i] !in stops
  }

  /** The first `k` rows were evaluated. Stage 1 holds exactly those; on an early stop stage 0
      is one row ahead, with its checkpoint at `k`. */
  ghost predicate Extents(m: Model, s0: BackendState, s1: BackendState, txn: Txn, eval: seq<Token>, k: nat) {
    && 1 <= k <= |eval|
    && InFlight(m, Stage1, s1, txn, eval[..k]) && s1.checkpoint == 0
    && (k == |eval| ==> InFlight(m, Stage0, s0, txn, eval))
    && (k < |eval| ==> txn.kind == Speculative && InFlight(m, Stage0, s0, txn, eval[..k + 1]) && s0.checkpoint == k)
  }

  /** Both stages accept a commit of the verified extent, and of nothing else when the
      transaction stopped early. */
  lemma ExtentsCommit(m: Model, s0: BackendState, s1: BackendState, txn: Txn, eval: seq<Token>, k: nat, c: nat)
    requires Extents(m, s0, s1, txn, eval, k) && txn.evaluatedCount == |eval|
    ensures CommitAccepted(s0, txn.epoch, k) && CommitAccepted(s1, txn.epoch, k)
    ensures k < |eval| && CommitAccepted(s0, txn.epoch, c) && CommitAccepted(s1, txn.epoch, c) ==> c == k
    ensures s0.provBase == txn.baseTarget == s1.provBase
  {
  }

  ghost predicate Verification(m: Model, stops: set<Token>, txn: Txn, eval: seq<Token>, v: Verified) {
    && 1 <= v.extent <= |eval|
    && v.stateCommitCount == v.extent
    && 0 <= v.nextToken < m.vocabulary
    && v.nextToken == m.Predict(eval[v.extent - 1], txn.baseTarget + v.extent)
    && (txn.kind != Speculative ==> v.extent == |eval|)
    && (txn.kind == Speculative ==> forall i :: 1 <= i < v.extent ==> Accepted(m, txn.baseTarget, stops, eval, i))
    && (v.extent < |eval| ==> v.nextToken != eval[v.extent] || v.nextToken in stops)
  }

  ghost predicate Interrupted(cancel: CancellationToken?) reads cancel {
    cancel != null && (cancel.state == CancelRequested || cancel.state == Expired)
  }

  /** The token is cancelled or expired, and that is what the failure says. */
  ghost predicate Blames(cancel: CancellationToken?, failure: Failure) reads cancel {
    && Interrupted(cancel)
    && failure == if cancel.state == Expired then DeadlineExceeded else Cancelled
  }

  ghost predicate TokenValid(cancel: CancellationToken?) reads cancel {
    cancel != null ==> cancel.Valid()
  }

  /** Every row behind the pending one is a vocabulary token. */
  predicate DraftsInside(eval: seq<Token>, vocabulary: nat) {
    forall j :: 1 <= j < |eval| ==> 0 <= eval[j] < vocabulary
  }

  /** A chunk submitted to stage 0, and what its future will yield. */
  datatype Chunk = Chunk(offset: nat, count: nat, final: bool, tokens: seq<Token>, result: Result<StageOutput>)

  /** The two workers. A submitted task runs to completion here at once: tasks of one worker
      run in submission order and the workers share no state, so later is the same. */
  class Stages {
    const worker0: MockStageBackend
    const worker1: MockStageBackend
    const env: Environment
    const stops: set<Token>
    const hiddenWidth: nat
    const sessionHash: nat

    constructor (worker0: MockStageBackend, worker1: MockStageBackend, env: Environment, stops: set<Token>,
                 hiddenWidth: nat, sessionHash: nat)
      ensures this.worker0 == worker0 && this.worker1 == worker1 && this.env == env && this.stops == stops
      ensures this.hiddenWidth == hiddenWidth && this.sessionHash == sessionHash
    {
      this.worker0, this.worker1, this.env, this.stops := worker0, worker1, env, stops;
      this.hiddenWidth, this.sessionHash := hiddenWidth, sessionHash;
    }

    ghost predicate Wired() {
      && worker0 != worker1
      && worker0.stage == Stage0 && worker1.stage == Stage1
      && worker0.env == env && worker1.env == env
      && worker0.m == worker1.m
      && 0 < hiddenWidth && worker0.hiddenWidth == hiddenWidth && worker0.sessionHash == sessionHash
    }

    method CheckCancel(cancel: CancellationToken?) returns (f: Option<Failure>)
      requires TokenValid(cancel)
      modifies cancel
      ensures TokenValid(cancel)
      ensures f.Some? ==> Blames(cancel, f.value)
      ensures f.None? && cancel != null ==> cancel.state == Active || cancel.state == Sealed
    {
      f := None;
      if cancel != null { f := cancel.ThrowIfRequested(); }
    }

    method CheckAndSeal(cancel: CancellationToken?) returns (f: Option<Failure>)
      requires TokenValid(cancel)
      modifies cancel
      ensures TokenValid(cancel)
      ensures f.Some? <==> Interrupted(cancel)
      ensures f.Some? ==> Blames(cancel, f.value)
      ensures f.None? && cancel != null ==> cancel.state == Sealed
    {
      f := None;
      if cancel != null {
        f := cancel.ThrowIfRequested();
        if f.Some? { return; }
        f := cancel.Seal();
      }
    }

    method SubmitStage0(txn: Txn, eval: seq<Token>, offset: nat, chunk: nat) returns (c: Chunk)
      requires Wired() && 0 < chunk && offset < |eval| == txn.evaluatedCount && txn.status == Prepared
      requires InFlight(worker0.m, Stage0, worker0.View(), txn, eval[..offset])
      modifies worker0, env
      ensures old(env.faults) <= env.faults
      ensures c.offset == offset && c.count == Min(chunk, |eval| - offset)
      ensures c.final == (offset + c.count == |eval|) && c.tokens == eval[offset..offset + c.count]
      ensures c.result.Ok? ==> InFlight(worker0.m, Stage0, worker0.View(), txn, eval[..offset + c.count])
                               && worker0.View().checkpoint == old(worker0.View().checkpoint)
      ensures c.result.Ok? && env.faults == old(env.faults) ==> FrameIntact(txn, c, c.result.value.frame)
      ensures c.result.Err? ==> Recoverable(worker0.View(), txn) && old(env.faults) < env.faults
    {
      var count := Min(chunk, |eval| - offset);
      var tokens := eval[offset..offset + count];
      var input := StageInput(txn, tokens, NO_FRAME, offset, offset + count == |eval|, false);
      NextChunk(worker0.m, Stage0, worker0.View(), txn, eval, offset, count, input);
      var out := worker0.Execute(input);
      c := Chunk(offset, count, offset + count == |eval|, tokens, out);
    }

    /** The frame stage 0 makes of a chunk, with a checksum that matches its payload. */
    predicate FrameIntact(txn: Txn, c: Chunk, frame: Frame) {
      frame == Frame(sessionHash, txn.epoch, txn.baseTarget + c.offset, |c.tokens|, true, hiddenWidth,
                     hiddenWidth * |c.tokens| * 2, frame.carried, frame.carried)
    }

    /** The executor's own check of what stage 0 handed over. */
    predicate BoundaryMatches(txn: Txn, c: Chunk, frame: Frame) {
      && ValidateBoundary(frame, c.count)
      && frame.sessionHash == sessionHash && frame.epoch == txn.epoch
      && frame.tokenStart == txn.baseTarget + c.offset
      && frame.tokenCount == c.count && frame.hiddenWidth == hiddenWidth
    }

    /** What stage 1 said about the rows up to and including a chunk. */
    ghost predicate Reported(txn: Txn, eval: seq<Token>, c: Chunk, out: StageOutput, disturbed: bool)
      requires c.offset + c.count <= |eval|
    {
      var rows := c.offset + c.count;
      && 1 <= out.stateCommitCount <= rows
      && (if txn.kind == Speculative && c.final
          then AcceptedPrefix(worker1.m, eval[..rows], txn.baseTarget, out.stateCommitCount)
          else out.stateCommitCount == rows)
      && (|| out.nextToken == worker1.m.Predict(eval[out.stateCommitCount - 1], txn.baseTarget + out.stateCommitCount)
          || (disturbed && out.nextToken == -1))
    }

    method RunStage1(txn: Txn, eval: seq<Token>, c: Chunk, frame: Frame, needLogits: bool)
      returns (r: Result<StageOutput>)
      requires Wired() && txn.status == Prepared && |eval| == txn.evaluatedCount
      requires 0 < c.count && c.offset + c.count <= |eval| && c.tokens == eval[c.offset..c.offset + c.count]
      requires c.final == (c.offset + c.count == |eval|)
      requires BoundaryMatches(txn, c, frame) && (needLogits ==> c.final && txn.kind != Speculative)
      requires InFlight(worker1.m, Stage1, worker1.View(), txn, eval[..c.offset])
      modifies worker1, env
      ensures old(env.faults) <= env.faults
      ensures r.Ok? ==>
                && InFlight(worker1.m, Stage1, worker1.View(), txn, eval[..c.offset + c.count])
                && Reported(txn, eval, c, r.value, old(env.faults) < env.faults)
                && worker1.View().checkpoint == old(worker1.View().checkpoint)
      ensures r.Ok? ==> r.value.logits == if needLogits then Some(r.value.nextToken) else None
      ensures r.Err? ==> Recoverable(worker1.View(), txn)
      ensures r.Err? ==> old(env.faults) < env.faults || frame.carried != frame.payloadChecksum
    {
      var input := StageInput(txn, c.tokens, frame, c.offset, c.final, needLogits);
      NextChunk(worker1.m, Stage1, worker1.View(), txn, eval, c.offset, c.count, input);
      ghost var before, after := worker1.View(), Extended(worker1.m, Stage1, worker1.View(), input);
      r := worker1.Execute(input);
      assert worker1.View() == after || (r.Err? && worker1.View() == before);
    }

    /** The boundary of a chunk of at most `chunk` rows has a representable size. */
    predicate FramesFit(chunk: nat) {
      hiddenWidth * chunk * 2 <= U64_MAX
    }

    lemma IntactFrameMatches(txn: Txn, c: Chunk, chunk: nat, frame: Frame)
      requires 0 < hiddenWidth && |c.tokens| == c.count && 0 < c.count <= chunk && FramesFit(chunk)
      requires FrameIntact(txn, c, frame)
      ensures BoundaryMatches(txn, c, frame)
    {
      assert hiddenWidth * c.count <= hiddenWidth * chunk;
    }

    /** Stage 0 has evaluated everything up to and including `c`, or its task failed. `calm` is
        the fault count at the start of the transaction. */
    ghost predicate Launched(txn: Txn, eval: seq<Token>, chunk: nat, c: Chunk, calm: nat) reads worker0, env {
      && c.offset < |eval| && c.count == Min(chunk, |eval| - c.offset)
      && c.final == (c.offset + c.count == |eval|) && c.tokens == eval[c.offset..c.offset + c.count]
      && (c.result.Ok? ==> InFlight(worker0.m, Stage0, worker0.View(), txn, eval[..c.offset + c.count]))
      && (c.result.Ok? && env.faults <= calm ==> FrameIntact(txn, c, c.result.value.frame))
      && (c.result.Err? ==> Recoverable(worker0.View(), txn) && calm < env.faults)
    }

    /** Every drafted row up to and including `row` has been accepted. */
    ghost predicate AcceptedThrough(txn: Txn, eval: seq<Token>, row: nat) {
      && row < |eval|
      && (txn.kind == Speculative ==>
            forall i :: 1 <= i <= row ==> Accepted(worker1.m, txn.baseTarget, stops, eval, i))
    }

    /** The state between two chunks: stage 1 has everything before `c`, stage 0 has `c` too
        (or its task failed), and every drafted row before `c` has been accepted. */
    ghost predicate Between(txn: Txn, eval: seq<Token>, chunk: nat, c: Chunk, calm: nat)
      reads worker0, worker1, env
    {
      && Launched(txn, eval, chunk, c, calm) && AcceptedThrough(txn, eval, c.offset)
      && InFlight(worker1.m, Stage1, worker1.View(), txn, eval[..c.offset]) && worker1.View().checkpoint == 0
    }

    ghost predicate BothRecoverable(txn: Txn) reads worker0, worker1 {
      Recoverable(worker0.View(), txn) && Recoverable(worker1.View(), txn)
    }

    /** The static facts about a running transaction. */
    ghost predicate Running(txn: Txn, eval: seq<Token>, chunk: nat) {
      && Wired() && txn.status == Prepared && |eval| == txn.evaluatedCount && 0 < chunk && txn.epoch > 0
      && (txn.kind == Speculative ==> chunk == 1)
    }

    /** Why chunks of a transaction fail: a fault since `calm`, the token, or a boundary too large
        to be framed. */
    ghost predicate Explained(chunk: nat, eval: seq<Token>, calm: nat, cancel: CancellationToken?, failure: Failure)
      reads env, cancel
    {
      || calm < env.faults
      || Blames(cancel, failure)
      || (!FramesFit(Min(chunk, |eval|)) && failure == RuntimeError)
    }

    /** One round of the pipeline: stage 1 takes the chunk stage 0 finished while stage 0
        starts the next one, and a drafted row is judged as soon as its prediction exists. */
    method Round(txn: Txn, eval: seq<Token>, chunk: nat, c: Chunk, wantLogits: bool, cancel: CancellationToken?,
                 ghost calm: nat)
      returns (r: Result<Progress>)
      requires Running(txn, eval, chunk) && Between(txn, eval, chunk, c, calm) && TokenValid(cancel)
      requires calm <= env.faults
      modifies worker0, worker1, env, cancel
      ensures TokenValid(cancel) && old(env.faults) <= env.faults
      ensures r.Err? ==> BothRecoverable(txn)
      ensures r.Err? ==> Explained(chunk, eval, calm, cancel, r.failure)
      ensures r.Ok? ==> FramesFit(c.count)
      ensures r.Ok? && r.value.More? ==> Between(txn, eval, chunk, r.value.next, calm) && c.offset < r.value.next.offset
      ensures r.Ok? && r.value.Stop? ==>
                && Extents(worker1.m, worker0.View(), worker1.View(), txn, eval, r.value.v.extent)
                && Verification(worker1.m, stops, txn, eval, r.value.v)
                && r.value.v.logits ==
                      (if wantLogits && txn.kind != Speculative then Some(r.value.v.nextToken) else None)
    {
      BetweenRecoverable(txn, eval, chunk, c, calm);
      var frame := Receive(txn, eval, chunk, c, cancel, calm);
      if frame.Err? { return Err(frame.failure); }
      var stage1 := RunStage1(txn, eval, c, frame.value, wantLogits && c.final && txn.kind != Speculative);
      if c.offset + c.count == |eval| {
        r := LastRound(txn, eval, chunk, c, wantLogits, stage1, cancel, calm);
      } else {
        r := InnerRound(txn, eval, chunk, c, stage1, cancel, calm);
      }
    }

    /** Waits for stage 0 and checks what it handed over. */
    method Receive(txn: Txn, eval: seq<Token>, chunk: nat, c: Chunk, cancel: CancellationToken?, ghost calm: nat)
      returns (r: Result<Frame>)
      requires Running(txn, eval, chunk) && Launched(txn, eval, chunk, c, calm) && TokenValid(cancel)
      modifies cancel
      ensures TokenValid(cancel)
      ensures r.Ok? ==> c.result.Ok? && r.value == c.result.value.frame && BoundaryMatches(txn, c, r.value)
      ensures c.result.Err? || !BoundaryMatches(txn, c, c.result.value.frame) ==> r.Err?
      ensures r.Ok? ==> FramesFit(c.count)
      ensures r.Err? ==> Explained(chunk, eval, calm, cancel, r.failure)
    {
      var stop := CheckCancel(cancel);
      if stop.Some? { return Err(stop.value); }
      if c.result.Err? { return Err(c.result.failure); }
      stop := CheckCancel(cancel);
      if stop.Some? { return Err(stop.value); }
      var frame := c.result.value.frame;
      if !BoundaryMatches(txn, c, frame) {
        if FramesFit(Min(chunk, |eval|)) {
          if env.faults <= calm { IntactFrameMatches(txn, c, Min(chunk, |eval|), frame); }
        }
        return Err(RuntimeError);
      }
      r := Ok(frame);
    }

    lemma BetweenRecoverable(txn: Txn, eval: seq<Token>, chunk: nat, c: Chunk, calm: nat)
      requires Between(txn, eval, chunk, c, calm)
      ensures BothRecoverable(txn)
    {
      InFlightFacts(worker1.m, Stage1, worker1.View(), txn, eval[..c.offset]);
      if c.result.Ok? { InFlightFacts(worker0.m, Stage0, worker0.View(), txn, eval[..c.offset + c.count]); }
    }

    /** What RunStage1 left behind, as the rest of a round finds it. */
    ghost predicate Stage1Done(txn: Txn, eval: seq<Token>, c: Chunk, stage1: Result<StageOutput>, calm: nat)
      reads worker1, env
    {
      && c.offset + c.count <= |eval|
      && (stage1.Ok? ==>
            && InFlight(worker1.m, Stage1, worker1.View(), txn, eval[..c.offset + c.count])
            && Reported(txn, eval, c, stage1.value, calm < env.faults) && worker1.View().checkpoint == 0)
      && (stage1.Err? ==> Recoverable(worker1.View(), txn) && calm < env.faults)
    }

    method LastRound(txn: Txn, eval: seq<Token>, chunk: nat, c: Chunk, wantLogits: bool, stage1: Result<StageOutput>,
                     cancel: CancellationToken?, ghost calm: nat) returns (r: Result<Progress>)
      requires Running(txn, eval, chunk) && AcceptedThrough(txn, eval, c.offset) && TokenValid(cancel)
      requires c.count == Min(chunk, |eval| - c.offset) && c.offset + c.count == |eval| && c.final
      requires InFlight(worker0.m, Stage0, worker0.View(), txn, eval[..c.offset + c.count])
      requires Stage1Done(txn, eval, c, stage1, calm)
      requires stage1.Ok? ==>
                 stage1.value.logits ==
                   if wantLogits && txn.kind != Speculative then Some(stage1.value.nextToken) else None
      modifies cancel
      ensures TokenValid(cancel)
      ensures r.Err? ==> BothRecoverable(txn) && (calm < env.faults || Blames(cancel, r.failure))
      ensures r.Ok? ==>
                && r.value.Stop?
                && Extents(worker1.m, worker0.View(), worker1.View(), txn, eval, r.value.v.extent)
                && Verification(worker1.m, stops, txn, eval, r.value.v)
                && r.value.v.logits ==
                      (if wantLogits && txn.kind != Speculative then Some(r.value.v.nextToken) else None)
    {
      assert eval[..c.offset + c.count] == eval;
      InFlightFacts(worker0.m, Stage0, worker0.View(), txn, eval);
      if stage1.Err? { return Err(stage1.failure); }
      InFlightFacts(worker1.m, Stage1, worker1.View(), txn, eval);
      var out := stage1.value;
      assert 0 <= out.nextToken < worker1.m.vocabulary || calm < env.faults;
      var stop := CheckCancel(cancel);
      if stop.Some? { return Err(stop.value); }
      if out.nextToken < 0 || out.nextToken >= worker1.m.vocabulary { return Err(RuntimeError); }
      forall i | 1 <= i < |eval| && txn.kind == Speculative
        ensures eval[i] == worker1.m.Predict(eval[i - 1], txn.baseTarget + i)
      {
        assert Accepted(worker1.m, txn.baseTarget, stops, eval, i);
      }
      r := Ok(Stop(Verified(|eval|, out.nextToken, out.stateCommitCount, out.logits)));
    }

    method InnerRound(txn: Txn, eval: seq<Token>, chunk: nat, c: Chunk, stage1: Result<StageOutput>,
                      cancel: CancellationToken?, ghost calm: nat) returns (r: Result<Progress>)
      requires Running(txn, eval, chunk) && AcceptedThrough(txn, eval, c.offset) && TokenValid(cancel)
      requires calm <= env.faults
      requires c.count == Min(chunk, |eval| - c.offset) && c.offset + c.count < |eval| && !c.final
      requires InFlight(worker0.m, Stage0, worker0.View(), txn, eval[..c.offset + c.count])
      requires Stage1Done(txn, eval, c, stage1, calm)
      modifies worker0, worker1, env, cancel
      ensures TokenValid(cancel) && old(env.faults) <= env.faults
      ensures r.Err? ==> BothRecoverable(txn) && (calm < env.faults || Blames(cancel, r.failure))
      ensures r.Ok? && r.value.More? ==> Between(txn, eval, chunk, r.value.next, calm) && c.offset < r.value.next.offset
      ensures r.Ok? && r.value.Stop? ==>
                && txn.kind == Speculative && r.value.v.logits == None
                && Extents(worker1.m, worker0.View(), worker1.View(), txn, eval, r.value.v.extent)
                && Verification(worker1.m, stops, txn, eval, r.value.v)
    {
      var nextOffset := c.offset + c.count;
      InFlightFacts(worker0.m, Stage0, worker0.View(), txn, eval[..nextOffset]);
      if stage1.Ok? { InFlightFacts(worker1.m, Stage1, worker1.View(), txn, eval[..nextOffset]); }
      if txn.kind == Speculative {
        var checkpoint := worker0.CheckpointSpeculativePrefix(txn.epoch, nextOffset);
        if checkpoint.Err? { return Err(checkpoint.failure); }
      }
      var next := SubmitStage0(txn, eval, nextOffset, chunk);
      r := Judge(txn, eval, chunk, c, next, stage1, cancel, calm);
    }

    /** Compares a drafted row with the prediction for it, one stage-0 row of lookahead later. */
    method Judge(txn: Txn, eval: seq<Token>, chunk: nat, c: Chunk, next: Chunk, stage1: Result<StageOutput>,
                 cancel: CancellationToken?, ghost calm: nat) returns (r: Result<Progress>)
      requires Running(txn, eval, chunk) && AcceptedThrough(txn, eval, c.offset) && TokenValid(cancel)
      requires calm <= env.faults
      requires Launched(txn, eval, chunk, next, calm) && Stage1Done(txn, eval, c, stage1, calm)
      requires next.offset == c.offset + c.count && 0 < c.count == Min(chunk, |eval| - c.offset) && !c.final
      requires txn.kind == Speculative && next.result.Ok? ==> worker0.View().checkpoint == next.offset
      modifies env, cancel
      ensures TokenValid(cancel) && old(env.faults) <= env.faults
      ensures r.Err? ==> BothRecoverable(txn) && (calm < env.faults || Blames(cancel, r.failure))
      ensures r.Ok? && r.value.More? ==> Between(txn, eval, chunk, r.value.next, calm) && c.offset < r.value.next.offset
      ensures r.Ok? && r.value.Stop? ==>
                && txn.kind == Speculative && r.value.v.logits == None
                && Extents(worker1.m, worker0.View(), worker1.View(), txn, eval, r.value.v.extent)
                && Verification(worker1.m, stops, txn, eval, r.value.v)
    {
      assert Recoverable(worker0.View(), txn) by {
        if next.result.Ok? { InFlightFacts(worker0.m, Stage0, worker0.View(), txn, eval[..next.offset + next.count]); }
      }
      if stage1.Err? { return Err(stage1.failure); }
      InFlightFacts(worker1.m, Stage1, worker1.View(), txn, eval[..next.offset]);
      var out := stage1.value;
      assert 0 <= out.nextToken < worker1.m.vocabulary || calm < env.faults;
      var stop := CheckCancel(cancel);
      if stop.Some? { return Err(stop.value); }
      if out.nextToken < 0 || out.nextToken >= worker1.m.vocabulary { return Err(RuntimeError); }
      if txn.kind != Speculative { return Ok(More(next)); }
      r := JudgeDraft(txn, eval, chunk, c, next, out, calm);
    }

    /** The drafted row behind `c` against the prediction made from `c`. */
    method JudgeDraft(txn: Txn, eval: seq<Token>, chunk: nat, c: Chunk, next: Chunk, out: StageOutput, ghost calm: nat)
      returns (r: Result<Progress>)
      requires Running(txn, eval, chunk) && AcceptedThrough(txn, eval, c.offset) && calm <= env.faults
      requires Launched(txn, eval, chunk, next, calm) && txn.kind == Speculative && BothRecoverable(txn)
      requires next.offset == c.offset + c.count && c.count == 1
      requires InFlight(worker1.m, Stage1, worker1.View(), txn, eval[..next.offset]) && worker1.View().checkpoint == 0
      requires out.nextToken == worker1.m.Predict(eval[c.offset], txn.baseTarget + next.offset)
      requires next.result.Ok? ==> worker0.View().checkpoint == next.offset
      modifies env
      ensures old(env.faults) <= env.faults
      ensures r.Err? ==> calm < env.faults
      ensures r.Ok? && r.value.More? ==> r.value.next == next && Between(txn, eval, chunk, next, calm)
      ensures r.Ok? && r.value.Stop? ==>
                && r.value.v.logits == None
                && Extents(worker1.m, worker0.View(), worker1.View(), txn, eval, r.value.v.extent)
                && Verification(worker1.m, stops, txn, eval, r.value.v)
    {
      var drafted := eval[next.offset];
      var accepted := out.nextToken == drafted;
      var acceptedStop := accepted && drafted in stops;
      if accepted && !acceptedStop {
        var reconcile := worker1.ReconcileRetainedDraft(txn.epoch, c.offset);
        if reconcile.Err? { return Err(reconcile.failure); }
        assert Accepted(worker1.m, txn.baseTarget, stops, eval, next.offset);
        return Ok(More(next));
      }
      if next.result.Err? { return Err(next.result.failure); }
      r := Ok(Stop(Verified(next.offset, out.nextToken, next.offset, None)));
    }

    /** Replaces the placeholder rows behind the pending token by drafted ones. */
    method FillDraft(txn: Txn, eval0: seq<Token>, position: nat) returns (r: Result<seq<Token>>)
      requires Wired() && txn.epoch > 0 && 1 < |eval0|
      modifies env
      ensures old(env.faults) <= env.faults
      ensures r.Ok? ==> |r.value| == |eval0| && r.value[0] == eval0[0] && DraftsInside(r.value, worker1.m.vocabulary)
      ensures r.Ok? && env.faults == old(env.faults) ==>
                Drafted(position, txn.epoch, eval0[0], r.value)
      ensures r.Err? ==> old(env.faults) < env.faults
    {
      var drafted := worker1.DraftRetained(eval0[0], position, |eval0| - 1, txn.epoch);
      if drafted.Err? { return Err(drafted.failure); }
      r := PlaceDraft(eval0, drafted.value);
    }

    /** Takes a draft exactly if it has the asked width and lies inside the vocabulary. */
    method PlaceDraft(eval0: seq<Token>, drafted: seq<Token>) returns (r: Result<seq<Token>>)
      requires 1 < |eval0|
      ensures r.Ok? <==> |drafted| == |eval0| - 1 && InVocabulary(drafted, worker1.m.vocabulary)
      ensures r.Ok? ==> r.value == [eval0[0]] + drafted
      ensures r.Err? ==> r.failure == RuntimeError
    {
      if |drafted| != |eval0| - 1 { return Err(RuntimeError); }
      var eval := eval0;
      for index := 0 to |drafted|
        invariant |eval| == |eval0| && eval[..index + 1] == [eval0[0]] + drafted[..index]
        invariant InVocabulary(drafted[..index], worker1.m.vocabulary)
      {
        var token := drafted[index];
        if token < 0 || token >= worker1.m.vocabulary { return Err(RuntimeError); }
        eval := eval[index + 1 := token];
        assert eval[..index + 2] == [eval0[0]] + drafted[..index + 1];
      }
      assert eval == eval[..|drafted| + 1] && drafted[..|drafted|] == drafted;
      r := Ok(eval);
    }

    /** The rows a speculative transaction evaluates: the pending token and what was drafted. */
    ghost predicate Drafted(base: nat, epoch: nat, pending: Token, eval: seq<Token>) {
      0 < |eval| && eval == [pending] + worker1.m.Draft(pending, base, |eval| - 1, epoch)
    }

    /** Drives a prepared transaction through both stages. A speculative one first drafts the
        rows behind its pending token. Nothing is committed here: a failure leaves both stages
        recoverable, and success leaves them holding exactly the verified extent. */
    method RunChunks(txn: Txn, eval0: seq<Token>, chunk: nat, wantLogits: bool, cancel: CancellationToken?)
      returns (r: Result<Verified>, eval: seq<Token>)
      requires Running(txn, eval0, chunk) && 0 < |eval0| && TokenValid(cancel)
      requires txn.kind == Speculative ==> 1 < |eval0|
      requires Idle(worker0.View(), txn.baseTarget, txn.epoch - 1)
      requires Idle(worker1.View(), txn.baseTarget, txn.epoch - 1)
      modifies worker0, worker1, env, cancel
      ensures TokenValid(cancel) && old(env.faults) <= env.faults
      ensures |eval| == |eval0| && eval[0] == eval0[0]
      ensures if txn.kind == Speculative then r.Ok? ==> DraftsInside(eval, worker1.m.vocabulary) else eval == eval0
      ensures r.Ok? && txn.kind == Speculative && env.faults == old(env.faults) ==>
                Drafted(txn.baseTarget, txn.epoch, eval0[0], eval)
      ensures r.Err? ==> BothRecoverable(txn)
      ensures r.Err? ==> Explained(chunk, eval0, old(env.faults), cancel, r.failure)
      ensures r.Ok? ==> FramesFit(Min(chunk, |eval0|))
      ensures r.Ok? ==>
                && Extents(worker1.m, worker0.View(), worker1.View(), txn, eval, r.value.extent)
                && Verification(worker1.m, stops, txn, eval, r.value)
                && r.value.logits == (if wantLogits && txn.kind != Speculative then Some(r.value.nextToken) else None)
      ensures r.Ok? ==> worker1.provisionalDigest == DigestOf(worker1.m, Stage1, txn, eval[..r.value.extent])
      ensures r.Ok? && txn.kind != Speculative ==>
                && worker0.provisionalTokens == worker1.provisionalTokens == eval0
                && worker0.provisionalDigest == DigestOf(worker1.m, Stage0, txn, eval0)
    {
      var first;
      first, eval := Launch(txn, eval0, chunk);
      if first.Err? { return Err(first.failure), eval; }
      r := VerifyFrom(txn, eval, chunk, first.value, wantLogits, cancel, old(env.faults));
    }

    /** Hands stage 0 its first chunk; meanwhile a speculative transaction gets its draft. */
    method Launch(txn: Txn, eval0: seq<Token>, chunk: nat) returns (r: Result<Chunk>, eval: seq<Token>)
      requires Running(txn, eval0, chunk) && 0 < |eval0| && (txn.kind == Speculative ==> 1 < |eval0|)
      requires Idle(worker0.View(), txn.baseTarget, txn.epoch - 1)
      requires Idle(worker1.View(), txn.baseTarget, txn.epoch - 1)
      modifies worker0, env
      ensures old(env.faults) <= env.faults && |eval| == |eval0| && eval[0] == eval0[0]
      ensures if txn.kind == Speculative then r.Ok? ==> DraftsInside(eval, worker1.m.vocabulary) else eval == eval0
      ensures r.Ok? && txn.kind == Speculative && env.faults == old(env.faults) ==>
                Drafted(txn.baseTarget, txn.epoch, eval0[0], eval)
      ensures r.Ok? ==> r.value.count == Min(chunk, |eval|) && Between(txn, eval, chunk, r.value, old(env.faults))
      ensures r.Err? ==> BothRecoverable(txn) && old(env.faults) < env.faults
    {
      eval := eval0;
      if txn.kind == AppendKnown && |eval0| > chunk {
        var prefetch := worker0.PrefetchTransaction();
        if prefetch.Err? { return Err(prefetch.failure), eval; }
      }
      var c := SubmitStage0(txn, eval, 0, chunk);
      if txn.kind == Speculative {
        var drafted := FillDraft(txn, eval0, txn.baseTarget);
        if drafted.Err? {
          assert Recoverable(worker0.View(), txn) by {
            if c.result.Ok? { InFlightFacts(worker0.m, Stage0, worker0.View(), txn, eval0[..c.count]); }
          }
          return Err(drafted.failure), eval;
        }
        eval := drafted.value;
        assert eval[..1] == eval0[..1] && c.tokens == eval[0..1];
      }
      r := Ok(c);
    }

    method VerifyFrom(txn: Txn, eval: seq<Token>, chunk: nat, first: Chunk, wantLogits: bool,
                      cancel: CancellationToken?,
                      ghost calm: nat) returns (r: Result<Verified>)
      requires Running(txn, eval, chunk) && Between(txn, eval, chunk, first, calm) && TokenValid(cancel)
      requires calm <= env.faults
      modifies worker0, worker1, env, cancel
      ensures TokenValid(cancel) && old(env.faults) <= env.faults
      ensures r.Err? ==> BothRecoverable(txn)
      ensures r.Err? ==> Explained(chunk, eval, calm, cancel, r.failure)
      ensures r.Ok? ==> FramesFit(first.count)
      ensures r.Ok? ==>
                && Extents(worker1.m, worker0.View(), worker1.View(), txn, eval, r.value.extent)
                && Verification(worker1.m, stops, txn, eval, r.value)
                && r.value.logits == (if wantLogits && txn.kind != Speculative then Some(r.value.nextToken) else None)
    {
      var c := first;
      while true
        invariant Between(txn, eval, chunk, c, calm) && TokenValid(cancel)
        invariant old(env.faults) <= env.faults && (c.offset == first.offset ==> c == first)
        invariant first.offset <= c.offset && (first.offset < c.offset ==> FramesFit(first.count))
        decreases |eval| - c.offset
      {
        var progress := Round(txn, eval, chunk, c, wantLogits, cancel, calm);
        if progress.Err? { return Err(progress.failure); }
        if progress.value.Stop? { return Ok(progress.value.v); }
        c := progress.value.next;
      }
    }
  }

  datatype Progress = More(next: Chunk) | Stop(v: Verified)
}
