/** The single-session owner above the executor: it mirrors the canonical tokens, reuses an exact
    prefix of a history or rebuilds it, and generates within a budget. */
module ControlPlane {
  import opened Contracts
  import opened Engine
  import opened StageBackend
  import opened Cancellation
  import opened Sampling
  import X = Executor

  const MAX_WIDTH: nat := 64

  datatype ApiError =
    | SessionExists | ExecutorNotEmpty | SessionNotFound | InvalidToken | ContextLengthExceeded
    | FrontierDivergence | ResetDivergence | InvalidMaxTokens | InvalidGenerationMode | MtpDisabled
    | EmptyPrompt | InvalidCommitEvent | ExecutorRefused(failure: Failure)

  datatype Outcome<+T> = Done(value: T) | Raised(error: ApiError)

  datatype Mode = Plain | Mtp
  datatype FinishReason = Stop | Length
  datatype Event = Event(tokens: seq<Token>, revision: nat, committed: nat, remaining: int,
                         finish: Option<FinishReason>)
  datatype CacheStatus = ColdStart | ColdRebuild | IncrementalHit
  datatype Reuse = Reuse(prefix: nat, suffix: nat, status: CacheStatus)

  // ---------------------------------------------------------------------------
  // What greedy generation means, from the text alone.
  // ---------------------------------------------------------------------------

  /** The text after `n` more tokens, each the prediction made from the one before it. */
  function Text(m: Model, tokens: seq<Token>, n: nat): (r: seq<Token>)
    requires tokens != []
    ensures |r| == |tokens| + n && tokens <= r
  {
    if n == 0 then tokens
    else
      var t := Text(m, tokens, n - 1);
      t + [m.Predict(t[|t| - 1], |t|)]
  }

  lemma {:induction false} TextTwice(m: Model, tokens: seq<Token>, a: nat, b: nat)
    requires tokens != []
    ensures Text(m, Text(m, tokens, a), b) == Text(m, tokens, a + b)
  {
    if b > 0 { TextTwice(m, tokens, a, b - 1); }
  }

  lemma {:induction false} TextGrows(m: Model, tokens: seq<Token>, a: nat, b: nat)
    requires tokens != [] && a <= b
    ensures Text(m, tokens, a) <= Text(m, tokens, b)
    decreases b
  {
    if a < b { TextGrows(m, tokens, a, b - 1); }
  }

  /** Plain decoding writes that text. */
  lemma {:induction false} DecodesAreText(m: Model, sm: SamplerModel, s: X.Session, n: nat)
    requires X.HasPending(sm, s) && m.vocabulary == sm.vocabulary && !sm.sampled
    ensures X.PlainDecodes(m, sm, s, n).tokens == Text(m, s.tokens, n)
  {
    if n > 0 {
      DecodesAreText(m, sm, s, n - 1);
      X.DecodesAdvance(m, sm, s, n - 1);
    }
  }

  /** The result of a generation: predicted text, ended by the first stop token or the budget. */
  ghost predicate Generated(m: Model, stops: set<Token>, tokens: seq<Token>, budget: nat, g: seq<Token>)
    requires tokens != []
  {
    && tokens + g == Text(m, tokens, |g|)
    && Ended(stops, budget, g)
  }

  ghost predicate Ended(stops: set<Token>, budget: nat, g: seq<Token>) {
    && 0 < |g| <= budget && (forall i :: 0 <= i < |g| - 1 ==> g[i] !in stops)
    && (|g| == budget || g[|g| - 1] in stops)
  }

  /** Mode, draft width, and what was cached play no part: the result is determined. */
  lemma GenerationIsDetermined(m: Model, stops: set<Token>, tokens: seq<Token>, budget: nat, g1: seq<Token>,
                               g2: seq<Token>)
    requires tokens != [] && Generated(m, stops, tokens, budget, g1) && Generated(m, stops, tokens, budget, g2)
    ensures g1 == g2
  {
    if |g1| <= |g2| {
      Shorter(m, stops, tokens, budget, g1, g2);
    } else {
      Shorter(m, stops, tokens, budget, g2, g1);
    }
  }

  lemma Shorter(m: Model, stops: set<Token>, tokens: seq<Token>, budget: nat, g1: seq<Token>, g2: seq<Token>)
    requires tokens != [] && Generated(m, stops, tokens, budget, g1) && Generated(m, stops, tokens, budget, g2)
    requires |g1| <= |g2|
    ensures g1 == g2
  {
    TextGrows(m, tokens, |g1|, |g2|);
    var t1, t2 := tokens + g1, tokens + g2;
    assert forall i :: 0 <= i < |g1| ==> g1[i] == t1[|tokens| + i] && g2[i] == t2[|tokens| + i];
    assert g1 == g2[..|g1|];
  }

  function Flat(events: seq<Event>): seq<Token> {
    if events == [] then [] else Flat(events[..|events| - 1]) + events[|events| - 1].tokens
  }

  // ---------------------------------------------------------------------------
  // The class.
  // ---------------------------------------------------------------------------

  class SessionRecord {
    const id: string
    var tokens: seq<Token>
    var revision: nat
    var coldRebuild: bool

    constructor (id: string, revision: nat, coldRebuild: bool)
      ensures this.id == id && tokens == [] && this.revision == revision && this.coldRebuild == coldRebuild
    {
      this.id, this.tokens, this.revision, this.coldRebuild := id, [], revision, coldRebuild;
    }

    method Extend(values: seq<Token>)
      modifies this
      ensures tokens == old(tokens) + values && revision == old(revision) + 1 && coldRebuild == old(coldRebuild)
    {
      tokens, revision := tokens + values, revision + 1;
    }
  }

  /** The check applied to every reported state. */
  predicate FrontiersFit(f: Frontiers, expected: nat) {
    && f.canonical == expected && f.stage0 == f.target && f.stage1 == f.target
    && (f.target == f.canonical || f.target == (if f.canonical > 0 then f.canonical - 1 else 0))
  }

  /** A prepared sample is the prediction made from the last token. */
  predicate SampleFits(m: Model, s: X.Session) {
    s.tokens != [] && s.target == |s.tokens| ==> s.lastSample == m.Predict(s.tokens[|s.tokens| - 1], |s.tokens|)
  }

  class Q38ControlPlane {
    const executor: X.DualStageExecutor
    const mtpEnabled: bool
    const mtpMaxDraft: nat
    var session: SessionRecord?

    constructor (executor: X.DualStageExecutor, mtpEnabled: bool, mtpMaxDraft: nat)
      requires executor.Valid() && 1 <= mtpMaxDraft <= MAX_WIDTH
      ensures Valid() && this.executor == executor && session == null
    {
      this.executor, this.mtpEnabled, this.mtpMaxDraft, session := executor, mtpEnabled, mtpMaxDraft, null;
    }

    /** The mirror agrees with an executor that is not closed, and never exceeds the context. */
    ghost predicate Valid()
      reads this, session, executor, executor.engine, executor.sampler, executor.worker0, executor.worker1
    {
      && executor.Valid() && 1 <= mtpMaxDraft <= MAX_WIDTH
      && (session != null ==> |session.tokens| <= executor.options.contextLimit)
      && (session != null && !executor.poisoned ==> session.tokens == executor.tokens)
      && (session != null && !executor.poisoned && !executor.sampler.m.sampled ==>
            SampleFits(executor.worker1.m, executor.Current()))
    }

    ghost predicate SampleReady() reads executor, executor.engine, executor.sampler {
      !executor.poisoned && !executor.sampler.m.sampled ==> SampleFits(executor.worker1.m, executor.Current())
    }

    lemma HealthyFrontiers()
      requires executor.Valid() && !executor.poisoned
      ensures FrontiersFit(executor.engine.frontiers, |executor.tokens|)
      ensures |executor.tokens| <= executor.options.contextLimit
      ensures InVocabulary(executor.tokens, executor.options.vocabulary)
    {
    }

    // -------------------------------------------------------------------------
    // Calls to the executor.
    // -------------------------------------------------------------------------

    /** Why the executor refuses a call although its arguments are fine: it was closed, a fault
        since `calm`, a cancel, the deadline, or no epoch left for so many calls, a boundary that
        cannot be framed, a sampler without a candidate. */
    ghost predicate Excused(closed: bool, calm: nat, epoch: nat, calls: nat, timeout: nat, failure: Failure)
      reads executor.env
    {
      || closed || calm < executor.env.faults
      || failure == Cancelled || (failure == DeadlineExceeded && timeout != 0)
      || (failure == RuntimeError
          && (|| epoch + calls > U64_MAX || executor.sampler.m.sampled
              || !executor.stages.FramesFit(Min(executor.options.appendChunk, executor.options.contextLimit))))
    }

    /** A call takes at most one epoch. */
    ghost predicate Counted(epoch: nat) reads executor.engine {
      executor.engine.frontiers.epoch <= epoch + 1
    }

    /** With good tokens and room, what turns an append away is an excuse. */
    lemma AppendExcused(s: X.Session, epoch: nat, values: seq<Token>, failure: Failure, calm: nat, timeout: nat)
      requires executor.worker1.m.vocabulary == executor.sampler.m.vocabulary == executor.options.vocabulary
      requires X.WellFormed(executor.sampler.m, s) && |s.tokens| + |values| <= executor.options.contextLimit
      requires values != [] && InVocabulary(values, executor.options.vocabulary)
      ensures executor.AppendRefusal(s, epoch, values) == Some(failure) ==>
                Excused(false, calm, epoch, 1, timeout, failure)
    {
      if executor.stages.FramesFit(Min(executor.options.appendChunk, executor.options.contextLimit)) {
        SmallerFramesFit(Min(executor.options.appendChunk, |X.AppendEval(s, values)|),
                         Min(executor.options.appendChunk, executor.options.contextLimit));
      }
    }

    ghost predicate Failed(error: ApiError, closed: bool, calm: nat, epoch: nat, calls: nat, timeout: nat)
      reads executor.env
    {
      error.ExecutorRefused? && Excused(closed, calm, epoch, calls, timeout, error.failure)
    }

    lemma SmallerFramesFit(small: nat, large: nat)
      requires small <= large && executor.stages.FramesFit(large)
      ensures executor.stages.FramesFit(small)
    {
      assert executor.stages.hiddenWidth * small <= executor.stages.hiddenWidth * large;
    }

    /** The reset is sealed before the executor is touched, so a deadline or a cancel refuses it
        with nothing changed. */
    method CallReset(timeout: nat) returns (r: Outcome<Frontiers>)
      requires executor.Valid()
      modifies executor, executor.engine, executor.sampler, executor.worker0, executor.worker1, executor.env
      ensures executor.Valid() && (old(executor.poisoned) ==> executor.poisoned)
      ensures r.Done? ==> !executor.poisoned && executor.tokens == [] && SampleReady()
      ensures r.Done? ==> r.value == executor.engine.frontiers == ZERO_FRONTIERS
      ensures old(executor.env.faults) <= executor.env.faults
      ensures r.Raised? ==>
                Failed(r.error, old(executor.poisoned), old(executor.env.faults),
                       old(executor.engine.frontiers.epoch), 0, timeout)
      ensures r.Raised? ==> executor.poisoned || executor.Current() == old(executor.Current())
    {
      var cancel := new CancellationToken(timeout);
      var stop := executor.stages.CheckAndSeal(cancel);
      if stop.Some? { return Raised(ExecutorRefused(stop.value)); }
      var reset := executor.ResetSession();
      if reset.Err? { return Raised(ExecutorRefused(reset.failure)); }
      r := Done(executor.engine.frontiers);
    }

    method CallAppend(values: seq<Token>, timeout: nat) returns (r: Outcome<Frontiers>)
      requires executor.Valid() && SampleReady() && values != [] && InVocabulary(values, executor.options.vocabulary)
      requires !executor.poisoned ==> |executor.tokens| + |values| <= executor.options.contextLimit
      modifies executor, executor.engine, executor.sampler, executor.worker0, executor.worker1, executor.env
      ensures executor.Valid() && SampleReady() && (old(executor.poisoned) ==> executor.poisoned)
      ensures old(executor.env.faults) <= executor.env.faults
      ensures r.Done? ==> !executor.poisoned && executor.tokens == old(executor.tokens) + values
      ensures r.Done? ==> FrontiersFit(r.value, |executor.tokens|) && Counted(old(executor.engine.frontiers.epoch))
      ensures r.Raised? ==>
                Failed(r.error, old(executor.poisoned), old(executor.env.faults),
                       old(executor.engine.frontiers.epoch), 1, timeout)
      ensures r.Raised? ==> executor.poisoned || executor.tokens == old(executor.tokens)
    {
      var cancel := new CancellationToken(timeout);
      var appended := executor.Append(values, cancel);
      if appended.Err? {
        if !old(executor.poisoned) {
          AppendExcused(old(executor.Current()), old(executor.engine.frontiers.epoch), values, appended.failure,
                        old(executor.env.faults), timeout);
        }
        return Raised(ExecutorRefused(appended.failure));
      }
      HealthyFrontiers();
      r := Done(executor.engine.frontiers);
    }

    /** What every publishing call promises. */
    ghost predicate Published(before: seq<Token>, tokens: seq<Token>, v: seq<Token>, limit: nat) {
      && 1 <= |v| <= limit && tokens == before + v
      && (forall i :: 0 <= i < |v| - 1 ==> v[i] !in executor.options.stops)
      && (!executor.sampler.m.sampled ==> before != [] && tokens == Text(executor.worker1.m, before, |v|))
    }

    ghost predicate HasRoom() reads executor {
      |executor.tokens| < executor.options.contextLimit
    }

    method CallSeed(timeout: nat) returns (r: Outcome<seq<Token>>)
      requires executor.engine.frontiers.target == |executor.tokens|
      requires executor.Valid() && SampleReady() && executor.tokens != [] && !executor.poisoned && HasRoom()
      modifies executor, executor.engine, executor.sampler, executor.worker0, executor.worker1, executor.env
      ensures executor.Valid() && SampleReady()
      ensures old(executor.env.faults) <= executor.env.faults
      ensures r.Done? ==> !executor.poisoned && Published(old(executor.tokens), executor.tokens, r.value, 1)
      ensures r.Done? ==> Counted(old(executor.engine.frontiers.epoch))
      ensures r.Raised? ==>
                Failed(r.error, false, old(executor.env.faults), old(executor.engine.frontiers.epoch), 1, timeout)
      ensures r.Raised? ==> executor.poisoned || executor.tokens == old(executor.tokens)
      ensures r.Done? ==> r.value == [old(executor.lastSample)]
    {
      var cancel := new CancellationToken(timeout);
      var seeded := executor.SeedDecode(cancel);
      if seeded.Err? { return Raised(ExecutorRefused(seeded.failure)); }
      assert Text(executor.worker1.m, old(executor.tokens), 0) == old(executor.tokens);
      r := Done([seeded.value]);
    }

    /** Where all rows can be framed, one can. */
    lemma OneRowFits()
      requires executor.stages.FramesFit(Min(executor.options.appendChunk, executor.options.contextLimit))
      ensures executor.stages.FramesFit(1)
    {
      SmallerFramesFit(1, Min(executor.options.appendChunk, executor.options.contextLimit));
    }

    method CallDecode(timeout: nat) returns (r: Outcome<seq<Token>>)
      requires executor.engine.frontiers.target + 1 == |executor.tokens|
      requires executor.Valid() && SampleReady() && executor.tokens != [] && !executor.poisoned && HasRoom()
      modifies executor, executor.engine, executor.sampler, executor.worker0, executor.worker1, executor.env
      ensures executor.Valid() && SampleReady()
      ensures old(executor.env.faults) <= executor.env.faults
      ensures r.Done? ==> !executor.poisoned && Published(old(executor.tokens), executor.tokens, r.value, 1)
      ensures r.Done? ==> Counted(old(executor.engine.frontiers.epoch))
      ensures r.Raised? ==>
                Failed(r.error, false, old(executor.env.faults), old(executor.engine.frontiers.epoch), 1, timeout)
      ensures r.Raised? ==> executor.poisoned || executor.tokens == old(executor.tokens)
      ensures r.Done? ==> executor.KeepsLongest(old(executor.Current()), [], r.value)
    {
      var cancel := new CancellationToken(timeout);
      var decoded := executor.DecodeOne(cancel);
      if decoded.Err? {
        if executor.stages.FramesFit(Min(executor.options.appendChunk, executor.options.contextLimit)) { OneRowFits(); }
        return Raised(ExecutorRefused(decoded.failure));
      }
      assert Text(executor.worker1.m, old(executor.tokens), 0) == old(executor.tokens);
      r := Done(decoded.value);
    }

    method CallSpeculate(width: nat, timeout: nat) returns (r: Outcome<seq<Token>>, ghost draft: seq<Token>)
      requires executor.engine.frontiers.target + 1 == |executor.tokens| && width <= MAX_WIDTH
      requires executor.Valid() && SampleReady() && executor.tokens != [] && !executor.poisoned && HasRoom()
      modifies executor, executor.engine, executor.sampler, executor.worker0, executor.worker1, executor.env
      ensures executor.Valid() && SampleReady()
      ensures old(executor.env.faults) <= executor.env.faults
      ensures r.Done? ==> !executor.poisoned && Published(old(executor.tokens), executor.tokens, r.value, width + 1)
      ensures r.Done? ==> Counted(old(executor.engine.frontiers.epoch))
      ensures r.Raised? ==>
                Failed(r.error, false, old(executor.env.faults), old(executor.engine.frontiers.epoch), 1, timeout)
      ensures r.Raised? ==> executor.poisoned || executor.tokens == old(executor.tokens)
      ensures r.Done? ==>
                && executor.KeepsLongest(old(executor.Current()), draft, r.value)
                && |draft| == (if executor.sampler.m.sampled then 0
                               else Min(width, executor.options.contextLimit - |old(executor.tokens)| - 1))
                && (executor.env.faults == old(executor.env.faults) ==>
                      executor.DraftedBehind(old(executor.Current()), old(executor.engine.frontiers.epoch), draft))
    {
      ghost var before := executor.Current();
      var cancel := new CancellationToken(timeout);
      var stepped;
      stepped, draft := executor.SpeculativeStep(width, cancel);
      if stepped.Err? {
        if executor.stages.FramesFit(Min(executor.options.appendChunk, executor.options.contextLimit)) { OneRowFits(); }
        return Raised(ExecutorRefused(stepped.failure)), [];
      }
      if !executor.sampler.m.sampled {
        DecodesAreText(executor.worker1.m, executor.sampler.m, before, |stepped.value|);
        X.DecodesAdvance(executor.worker1.m, executor.sampler.m, before, |stepped.value|);
      }
      r := Done(stepped.value);
    }

    // -------------------------------------------------------------------------
    // Sessions.
    // -------------------------------------------------------------------------

    method CreateSession(id: string) returns (r: Outcome<()>)
      requires Valid()
      modifies this
      ensures Valid()
      ensures r.Done? ==> old(session) == null && session != null && fresh(session) && session.id == id
      ensures r.Done? ==> session.tokens == [] && executor.tokens == [] && !executor.poisoned
      ensures r.Raised? ==> session == old(session)
      ensures r.Raised? ==> old(session) != null || executor.poisoned || executor.tokens != []
    {
      if session != null { return Raised(SessionExists); }
      if executor.poisoned { return Raised(ExecutorRefused(RuntimeError)); }
      var f := executor.engine.frontiers;
      HealthyFrontiers();
      if f.canonical != 0 || f.target != 0 || f.stage0 != 0
         || f.stage1 != 0 || f.draft != 0
      { return Raised(ExecutorNotEmpty); }
      session := new SessionRecord(id, 0, false);
      r := Done(());
    }

    /** Evicts whatever session there is and activates an empty one. */
    method ReplaceSession(id: string, timeout: nat) returns (r: Outcome<()>)
      requires Valid()
      modifies this, executor, executor.engine, executor.sampler, executor.worker0, executor.worker1, executor.env
      ensures Valid()
      ensures r.Done? ==>
                session != null && fresh(session) && session.id == id && session.tokens == [] && executor.tokens == []
      ensures r.Raised? ==>
                && session == old(session)
                && Failed(r.error, old(executor.poisoned), old(executor.env.faults),
                          old(executor.engine.frontiers.epoch), 0, timeout)
      ensures r.Raised? ==> executor.poisoned || executor.Current() == old(executor.Current())
    {
      var f := CallReset(timeout);
      if f.Raised? { return Raised(f.error); }
      if f.value.canonical != 0 || f.value.target != 0
         || f.value.stage0 != 0 || f.value.stage1 != 0 || f.value.draft != 0
      {
        return Raised(ResetDivergence);
      }
      session := new SessionRecord(id, 1, true);
      r := Done(());
    }

    /** Clears the executor and the record together. */
    method ResetRecord(record: SessionRecord, timeout: nat) returns (r: Outcome<()>)
      requires Valid() && session == record
      modifies record, executor, executor.engine, executor.sampler, executor.worker0, executor.worker1, executor.env
      ensures Valid() && session == record
      ensures r.Done? ==>
                && !executor.poisoned && record.tokens == [] && record.coldRebuild
                && record.revision == old(record.revision) + 1
      ensures r.Raised? ==>
                && record.tokens == old(record.tokens)
                && Failed(r.error, old(executor.poisoned), old(executor.env.faults),
                          old(executor.engine.frontiers.epoch), 0, timeout)
      ensures old(executor.env.faults) <= executor.env.faults
      ensures r.Done? ==> executor.engine.frontiers.epoch == 0
      ensures r.Raised? ==> executor.poisoned || executor.Current() == old(executor.Current())
    {
      var f := CallReset(timeout);
      if f.Raised? { return Raised(f.error); }
      if f.value.canonical != 0 || f.value.target != 0
         || f.value.stage0 != 0 || f.value.stage1 != 0 || f.value.draft != 0
      {
        return Raised(ResetDivergence);
      }
      record.tokens, record.revision, record.coldRebuild := [], record.revision + 1, true;
      r := Done(());
    }

    method ValidateTokens(values: seq<Token>) returns (inside: bool)
      ensures inside <==> InVocabulary(values, executor.options.vocabulary)
    {
      inside := executor.CheckTokens(values);
    }

    /** The record grows exactly when the executor did. The divergence error is never raised. */
    method AppendLocked(record: SessionRecord, values: seq<Token>, timeout: nat) returns (r: Outcome<()>)
      requires Valid() && session == record
      modifies record, executor, executor.engine, executor.sampler, executor.worker0, executor.worker1, executor.env
      ensures Valid() && session == record && record.coldRebuild == old(record.coldRebuild)
      ensures r.Done? ==> record.revision == old(record.revision) + if values == [] then 0 else 1
      ensures r.Done? ==>
                && record.tokens == old(record.tokens) + values
                && (executor.poisoned ==> values == [] && old(executor.poisoned))
      ensures old(executor.env.faults) <= executor.env.faults
      ensures r.Done? ==> Counted(old(executor.engine.frontiers.epoch))
      ensures r.Raised? ==> record.tokens == old(record.tokens)
      ensures r.Raised? ==>
                || Failed(r.error, old(executor.poisoned), old(executor.env.faults),
                          old(executor.engine.frontiers.epoch), 1, timeout)
                || (r.error == InvalidToken && !InVocabulary(values, executor.options.vocabulary))
                || (r.error == ContextLengthExceeded && |record.tokens| + |values| > executor.options.contextLimit)
    {
      var inside := ValidateTokens(values);
      if !inside { return Raised(InvalidToken); }
      if values == [] { return Done(()); }
      if |record.tokens| + |values| > executor.options.contextLimit { return Raised(ContextLengthExceeded); }
      var f := CallAppend(values, timeout);
      if f.Raised? { return Raised(f.error); }
      if !FrontiersFit(f.value, |record.tokens| + |values|) { return Raised(FrontierDivergence); }
      record.Extend(values);
      r := Done(());
    }

    /** Brings the session to exactly the given history: by its missing suffix if what is there
        is a prefix of it, from scratch otherwise. */
    method AppendFullHistory(record: SessionRecord, values: seq<Token>, timeout: nat) returns (r: Outcome<Reuse>)
      requires Valid() && session == record
      modifies record, executor, executor.engine, executor.sampler, executor.worker0, executor.worker1, executor.env
      ensures Valid() && session == record
      ensures r.Done? ==> record.tokens == values && (!executor.poisoned ==> executor.tokens == values)
      ensures r.Done? ==>
                && r.value.prefix + r.value.suffix == |values|
                && r.value.prefix == (if old(record.tokens) <= values then |old(record.tokens)| else 0)
                && (r.value.status == IncrementalHit <==> old(record.tokens) != [] && old(record.tokens) <= values)
                && (r.value.status == ColdStart <==> old(record.tokens) == [] && !old(record.coldRebuild))
                && record.coldRebuild == (r.value.status == ColdRebuild)
      ensures old(executor.env.faults) <= executor.env.faults
      ensures r.Done? ==>
                Counted(old(executor.engine.frontiers.epoch)) && (executor.poisoned ==> old(executor.poisoned))
      ensures r.Raised? ==> executor.poisoned || record.tokens == old(record.tokens) || record.tokens == []
      ensures r.Raised? ==>
                || Failed(r.error, old(executor.poisoned), old(executor.env.faults),
                          old(executor.engine.frontiers.epoch), 1, timeout)
                || (r.error == InvalidToken && !InVocabulary(values, executor.options.vocabulary))
                || (r.error == ContextLengthExceeded && |values| > executor.options.contextLimit)
    {
      var inside := ValidateTokens(values);
      if !inside { return Raised(InvalidToken); }
      if |values| > executor.options.contextLimit { return Raised(ContextLengthExceeded); }
      var emptyBefore := record.tokens == [];
      var aligned := Align(record, values, timeout);
      if aligned.Raised? {
        FailsAnyway(aligned.error, old(executor.poisoned), old(executor.poisoned), old(executor.env.faults),
                    old(executor.env.faults), old(executor.engine.frontiers.epoch),
                    old(executor.engine.frontiers.epoch), 0, 1, timeout);
        return Raised(aligned.error);
      }
      ghost var closed, calm, epoch := executor.poisoned, executor.env.faults, executor.engine.frontiers.epoch;
      var completed := Complete(record, values, aligned.value, timeout);
      if completed.Raised? {
        FailsAnyway(completed.error, closed, old(executor.poisoned), calm, old(executor.env.faults), epoch,
                    old(executor.engine.frontiers.epoch), 1, 1, timeout);
        return Raised(completed.error);
      }
      r := Done(Reuse(|values| - completed.value, completed.value,
               if aligned.value then ColdRebuild else if emptyBefore then ColdStart else IncrementalHit));
    }

    /** Appends what is missing of a history that the session is a prefix of. */
    method Complete(record: SessionRecord, values: seq<Token>, rebuilt: bool, timeout: nat) returns (r: Outcome<nat>)
      requires Valid() && session == record && record.tokens <= values
      requires InVocabulary(values, executor.options.vocabulary) && |values| <= executor.options.contextLimit
      modifies record, executor, executor.engine, executor.sampler, executor.worker0, executor.worker1, executor.env
      ensures Valid() && session == record && old(executor.env.faults) <= executor.env.faults
      ensures r.Done? ==>
                && record.tokens == values && r.value == |values| - |old(record.tokens)|
                && (executor.poisoned ==> old(executor.poisoned)) && record.coldRebuild == rebuilt
                && Counted(old(executor.engine.frontiers.epoch))
      ensures r.Raised? ==>
                && record.tokens == old(record.tokens)
                && Failed(r.error, old(executor.poisoned), old(executor.env.faults),
                          old(executor.engine.frontiers.epoch), 1, timeout)
    {
      var suffix := values[|record.tokens|..];
      assert record.tokens + suffix == values;
      var appended := AppendLocked(record, suffix, timeout);
      if appended.Raised? { return Raised(appended.error); }
      Mark(record, rebuilt);
      r := Done(|suffix|);
    }

    /** A failure stays explained from an earlier point of view. */
    lemma FailsAnyway(error: ApiError, closed: bool, closed0: bool, calm: nat, calm0: nat, epoch: nat, epoch0: nat,
                      calls: nat, calls0: nat, timeout: nat)
      requires Failed(error, closed, calm, epoch, calls, timeout)
      requires (closed ==> closed0) && calm0 <= calm && epoch + calls <= epoch0 + calls0
      ensures Failed(error, closed0, calm0, epoch0, calls0, timeout)
    {
    }

    method Mark(record: SessionRecord, rebuilt: bool)
      requires Valid() && session == record
      modifies record`coldRebuild
      ensures Valid() && session == record && record.coldRebuild == rebuilt
    {
      record.coldRebuild := rebuilt;
    }

    /** Keeps a prefix of the history, or starts over. Tells whether this is a rebuild. */
    method Align(record: SessionRecord, values: seq<Token>, timeout: nat) returns (r: Outcome<bool>)
      requires Valid() && session == record
      modifies record, executor, executor.engine, executor.sampler, executor.worker0, executor.worker1, executor.env
      ensures Valid() && session == record
      ensures r.Done? ==> record.tokens == if old(record.tokens) <= values then old(record.tokens) else []
      ensures r.Done? ==>
                (r.value <==> !(old(record.tokens) <= values) || (old(record.coldRebuild) && old(record.tokens) == []))
      ensures r.Raised? ==>
                && record.tokens == old(record.tokens)
                && Failed(r.error, old(executor.poisoned), old(executor.env.faults),
                          old(executor.engine.frontiers.epoch), 0, timeout)
      ensures old(executor.env.faults) <= executor.env.faults
      ensures r.Done? ==>
                && executor.engine.frontiers.epoch <= old(executor.engine.frontiers.epoch)
                && (executor.poisoned ==> old(executor.poisoned))
    {
      var matching := |values| >= |record.tokens| && values[..|record.tokens|] == record.tokens;
      if matching { return Done(record.coldRebuild && record.tokens == []); }
      var cleared := ResetRecord(record, timeout);
      r := if cleared.Raised? then Raised(cleared.error) else Done(true);
    }

    // -------------------------------------------------------------------------
    // Generation.
    // -------------------------------------------------------------------------

    /** What a call publishes: the prepared sample, or what is kept of a draft and one token more.
        Nothing is drafted unless asked for, and never more than can be published. `calm` says that
        no fault has happened. */
    ghost predicate Answered(s: X.Session, epoch: nat, calm: bool, remaining: Positive, mode: Mode, width: nat,
                             draft: seq<Token>, v: seq<Token>) {
      if s.target == |s.tokens| then v == [s.lastSample]
      else
        && executor.KeepsLongest(s, draft, v)
        && |s.tokens| < executor.options.contextLimit
        && |draft| == (if executor.sampler.m.sampled || mode != Mtp then 0
                       else Min(Min(width, remaining - 1), executor.options.contextLimit - |s.tokens| - 1))
        && (calm ==> executor.DraftedBehind(s, epoch, draft))
    }

    /** One call to the executor: seed, speculate or decode, whichever the state asks for. */
    method Advance(remaining: Positive, mode: Mode, width: nat, timeout: nat)
      returns (r: Outcome<seq<Token>>, ghost draft: seq<Token>)
      requires executor.Valid() && SampleReady() && !executor.poisoned && executor.tokens != [] && HasRoom()
      requires 1 <= width <= MAX_WIDTH
      modifies executor, executor.engine, executor.sampler, executor.worker0, executor.worker1, executor.env
      ensures executor.Valid() && SampleReady() && old(executor.env.faults) <= executor.env.faults
      ensures r.Done? ==> Counted(old(executor.engine.frontiers.epoch))
      ensures r.Raised? ==>
                Failed(r.error, false, old(executor.env.faults), old(executor.engine.frontiers.epoch), 1, timeout)
      ensures r.Done? ==> !executor.poisoned && Published(old(executor.tokens), executor.tokens, r.value, remaining)
      ensures r.Raised? ==> executor.poisoned || executor.tokens == old(executor.tokens)
      ensures r.Done? ==>
                Answered(old(executor.Current()), old(executor.engine.frontiers.epoch),
                         executor.env.faults == old(executor.env.faults), remaining, mode, width, draft, r.value)
    {
      draft := [];
      if executor.engine.frontiers.canonical == executor.engine.frontiers.target {
        r := CallSeed(timeout);
      } else if mode == Mtp && remaining > 1 {
        r, draft := CallSpeculate(if width <= remaining - 1 then width else remaining - 1, timeout);
      } else {
        r := CallDecode(timeout);
      }
    }

    /** One round of generation: the record follows the executor. */
    method Round(record: SessionRecord, remaining: Positive, mode: Mode, width: nat, timeout: nat)
      returns (r: Outcome<seq<Token>>, ghost draft: seq<Token>)
      requires Valid() && session == record && record.tokens != [] && 1 <= width <= MAX_WIDTH
      requires |record.tokens| + remaining <= executor.options.contextLimit
      modifies record, executor, executor.engine, executor.sampler, executor.worker0, executor.worker1, executor.env
      ensures Valid() && session == record && (r.Done? ==> !executor.poisoned)
      ensures r.Done? ==>
                && Published(old(record.tokens), record.tokens, r.value, remaining)
                && record.revision == old(record.revision) + 1
                && Answered(old(executor.Current()), old(executor.engine.frontiers.epoch),
                            executor.env.faults == old(executor.env.faults), remaining, mode, width, draft, r.value)
      ensures old(executor.env.faults) <= executor.env.faults
      ensures r.Done? ==> Counted(old(executor.engine.frontiers.epoch))
      ensures r.Raised? ==>
                && record.tokens == old(record.tokens)
                && Failed(r.error, old(executor.poisoned), old(executor.env.faults),
                          old(executor.engine.frontiers.epoch), 1, timeout)
    {
      if executor.poisoned { return Raised(ExecutorRefused(RuntimeError)), []; }
      HealthyFrontiers();
      if !FrontiersFit(executor.engine.frontiers, |record.tokens|) { return Raised(FrontierDivergence), []; }
      r, draft := Advance(remaining, mode, width, timeout);
      if r.Raised? { return; }
      var fault := CheckAnswer(record, r.value, remaining);
      match fault {
        case Some(error) => return Raised(error), [];
        case None => record.Extend(r.value);
      }
    }

    /** An answer that is too long, invalid or at odds with the frontiers is an error; none is. */
    method CheckAnswer(record: SessionRecord, values: seq<Token>, remaining: Positive) returns (f: Option<ApiError>)
      requires executor.Valid() && !executor.poisoned && executor.tokens == record.tokens + values
      requires 1 <= |values| <= remaining
      ensures f.None?
    {
      if values == [] || |values| > remaining { return Some(InvalidCommitEvent); }
      HealthyFrontiers();
      var inside := ValidateTokens(values);
      assert inside by { assert forall i :: 0 <= i < |values| ==> values[i] == executor.tokens[|record.tokens| + i]; }
      if !inside { return Some(InvalidToken); }
      if !FrontiersFit(executor.engine.frontiers, |record.tokens| + |values|) { return Some(FrontierDivergence); }
      f := None;
    }

    /** The requests generation turns down before it starts. */
    function Refusal(tokens: seq<Token>, budget: int, mode: Mode, width: int): Option<ApiError> {
      if budget <= 0 then Some(InvalidMaxTokens)
      else if !(1 <= width <= MAX_WIDTH) then Some(InvalidGenerationMode)
      else if mode == Mtp && !mtpEnabled then Some(MtpDisabled)
      else if mode == Mtp && width > mtpMaxDraft then Some(InvalidGenerationMode)
      else if |tokens| + budget > executor.options.contextLimit then Some(ContextLengthExceeded)
      else if tokens == [] then Some(EmptyPrompt)
      else None
    }

    predicate StopOnlyLast(g: seq<Token>) {
      forall i :: 0 <= i < |g| - 1 ==> g[i] !in executor.options.stops
    }

    lemma StopsOnlyLast(g: seq<Token>, v: seq<Token>)
      requires StopOnlyLast(g) && !EndsInStop(g) && StopOnlyLast(v)
      ensures StopOnlyLast(g + v)
    {
      forall i | 0 <= i < |g + v| - 1 ensures (g + v)[i] !in executor.options.stops {
        assert (g + v)[i] == if i < |g| then g[i] else v[i - |g|];
      }
    }

    /** What has been generated so far. */
    ghost predicate Progress(before: seq<Token>, now: seq<Token>, events: seq<Event>, budget: nat) {
      && before != [] && now == before + Flat(events) && |Flat(events)| <= budget
      && (forall i :: 0 <= i < |events| ==> events[i].tokens != [])
      && StopOnlyLast(Flat(events))
      && (!executor.sampler.m.sampled ==> now == Text(executor.worker1.m, before, |Flat(events)|))
    }

    lemma ProgressGrows(before: seq<Token>, now: seq<Token>, events: seq<Event>, budget: nat, v: seq<Token>, e: Event)
      requires Progress(before, now, events, budget) && e.tokens == v
      requires Published(now, now + v, v, budget - |Flat(events)|)
      requires !EndsInStop(Flat(events))
      ensures Progress(before, now + v, events + [e], budget) && Flat(events + [e]) == Flat(events) + v
    {
      var g := Flat(events);
      assert (events + [e])[..|events|] == events;
      assert Flat(events + [e]) == g + v && now + v == before + (g + v);
      if !executor.sampler.m.sampled { TextTwice(executor.worker1.m, before, |g|, |v|); }
      StopsOnlyLast(g, v);
    }

    /** Generates up to `budget` tokens. Without an error the count is exact unless a stop token
        ends it; greedily, the tokens are the predicted text whatever the mode and width. */
    method Generate(record: SessionRecord, budget: int, mode: Mode, width: int, timeout: nat)
      returns (events: seq<Event>, error: Option<ApiError>)
      requires Valid() && session == record
      modifies record, executor, executor.engine, executor.sampler, executor.worker0, executor.worker1, executor.env
      ensures Valid() && session == record
      ensures record.tokens == old(record.tokens) + Flat(events) && |Flat(events)| <= if budget < 0 then 0 else budget
      ensures error.Some? ==>
                || error == Refusal(old(record.tokens), budget, mode, width)
                || (budget > 0 && Failed(error.value, old(executor.poisoned), old(executor.env.faults),
                                         old(executor.engine.frontiers.epoch), budget, timeout))
      ensures Refusal(old(record.tokens), budget, mode, width).Some? ==>
                events == [] && error == Refusal(old(record.tokens), budget, mode, width)
      ensures error.None? ==> budget > 0 && !executor.poisoned && Ended(executor.options.stops, budget, Flat(events))
      ensures error.None? ==> events != [] && Closes(events, EndsInStop(Flat(events)), true)
      ensures error.None? && !executor.sampler.m.sampled ==>
                old(record.tokens) != []
                && Generated(executor.worker1.m, executor.options.stops, old(record.tokens), budget, Flat(events))
    {
      events, error := [], Refusal(record.tokens, budget, mode, width);
      if error.Some? { return; }
      events, error := GenerateSome(record, budget, mode, width, timeout);
    }

    method GenerateSome(record: SessionRecord, budget: Positive, mode: Mode, width: Positive, timeout: nat)
      returns (events: seq<Event>, error: Option<ApiError>)
      requires Valid() && session == record && record.tokens != [] && width <= MAX_WIDTH
      requires |record.tokens| + budget <= executor.options.contextLimit
      modifies record, executor, executor.engine, executor.sampler, executor.worker0, executor.worker1, executor.env
      ensures Valid() && session == record && Progress(old(record.tokens), record.tokens, events, budget)
      ensures error.Some? ==>
                Failed(error.value, old(executor.poisoned), old(executor.env.faults),
                       old(executor.engine.frontiers.epoch), budget, timeout)
      ensures error.None? ==> !executor.poisoned && Ended(executor.options.stops, budget, Flat(events))
      ensures error.None? ==> events != [] && Closes(events, EndsInStop(Flat(events)), true)
    {
      events, error := [], None;
      var generated, hit := 0, false;
      while generated < budget && !hit
        invariant Valid() && session == record && (generated > 0 ==> !executor.poisoned)
        invariant generated == 0 ==> executor.poisoned == old(executor.poisoned)
        invariant old(executor.env.faults) <= executor.env.faults
        invariant executor.engine.frontiers.epoch <= old(executor.engine.frontiers.epoch) + generated
        invariant Under(old(record.tokens), record.tokens, events, generated, hit, budget)
        decreases budget - generated
      {
        var next := Produce(record, budget, generated, events, mode, width, timeout, old(record.tokens));
        if next.Raised? { return events, Some(next.error); }
        UnderNext(old(record.tokens), record.tokens, events, next.value, generated, budget);
        events, hit := events + [next.value], next.value.finish == Some(Stop);
        generated := generated + |next.value.tokens|;
      }
      UnderEnds(old(record.tokens), record.tokens, events, generated, hit, budget);
    }

    /** A generation under way. */
    ghost predicate Under(before: seq<Token>, now: seq<Token>, events: seq<Event>, generated: nat, hit: bool,
                          budget: nat) {
      && generated == |Flat(events)| && Progress(before, now, events, budget)
      && (hit <==> EndsInStop(Flat(events))) && (generated == 0 ==> events == [])
      && Closes(events, hit, generated == budget)
    }

    lemma UnderNext(before: seq<Token>, now: seq<Token>, events: seq<Event>, e: Event, generated: nat, budget: nat)
      requires generated == |Flat(events)| && NextFits(before, now, events, e, generated, budget)
      ensures Under(before, now, events + [e], generated + |e.tokens|, e.finish == Some(Stop), budget)
    {
    }

    lemma UnderEnds(before: seq<Token>, now: seq<Token>, events: seq<Event>, generated: nat, hit: bool,
                    budget: Positive)
      requires Under(before, now, events, generated, hit, budget) && (generated >= budget || hit)
      ensures Ended(executor.options.stops, budget, Flat(events)) && events != []
      ensures Closes(events, EndsInStop(Flat(events)), true)
    {
    }

    /** Only the last event carries a finish reason, and it is the right one. */
    predicate Closes(events: seq<Event>, stopped: bool, full: bool) {
      && (forall i :: 0 <= i < |events| - 1 ==> events[i].finish.None?)
      && (events != [] ==>
          events[|events| - 1].finish ==
            if stopped then Some(Stop) else if full then Some(Length) else None)
    }

    predicate EndsInStop(g: seq<Token>) { g != [] && g[|g| - 1] in executor.options.stops }

    /** One more event. */
    method Produce(record: SessionRecord, budget: Positive, generated: nat, events: seq<Event>, mode: Mode,
                   width: Positive, timeout: nat,
                   ghost before: seq<Token>) returns (r: Outcome<Event>)
      requires Valid() && session == record && generated == |Flat(events)| < budget
      requires Progress(before, record.tokens, events, budget) && !EndsInStop(Flat(events))
      requires Closes(events, false, false)
      requires width <= MAX_WIDTH && |record.tokens| + budget - generated <= executor.options.contextLimit
      modifies record, executor, executor.engine, executor.sampler, executor.worker0, executor.worker1, executor.env
      ensures Valid() && session == record
      ensures old(executor.env.faults) <= executor.env.faults
      ensures r.Done? ==> Counted(old(executor.engine.frontiers.epoch))
      ensures r.Raised? ==>
                && record.tokens == old(record.tokens)
                && Failed(r.error, old(executor.poisoned), old(executor.env.faults),
                          old(executor.engine.frontiers.epoch), 1, timeout)
      ensures r.Done? ==> !executor.poisoned && record.revision == old(record.revision) + 1
      ensures r.Done? ==> NextFits(before, record.tokens, events, r.value, generated, budget)
      ensures r.Done? ==>
                && r.value.revision == record.revision && r.value.committed == |record.tokens|
                && r.value.remaining == executor.options.contextLimit - |record.tokens|
    {
      ghost var was := record.tokens;
      var values, _ := Round(record, budget - generated, mode, width, timeout);
      if values.Raised? { return Raised(values.error); }
      var event := Announce(record, values.value, budget, generated, events, before, was);
      r := Done(event);
    }

    /** The event for what a round has published. */
    method Announce(record: SessionRecord, values: seq<Token>, budget: Positive, generated: nat,
                    ghost events: seq<Event>, ghost before: seq<Token>, ghost was: seq<Token>) returns (e: Event)
      requires Progress(before, was, events, budget) && generated == |Flat(events)| && Closes(events, false, false)
      requires !EndsInStop(Flat(events)) && Published(was, record.tokens, values, budget - generated)
      ensures NextFits(before, record.tokens, events, e, generated, budget)
      ensures e.revision == record.revision && e.committed == |record.tokens| && e.tokens == values
      ensures e.remaining == executor.options.contextLimit - |record.tokens|
    {
      var hit := HasStop(values);
      e := EventOf(record, values, hit, generated + |values| == budget);
      EventFits(before, was, events, e, generated, budget, hit);
    }

    /** The event continues the trace: its tokens are the next ones, and it carries the finish
        reason it should. */
    ghost predicate NextFits(before: seq<Token>, now: seq<Token>, events: seq<Event>, e: Event, generated: nat,
                             budget: nat) {
      && e.tokens != [] && Flat(events + [e]) == Flat(events) + e.tokens && Progress(before, now, events + [e], budget)
      && Closes(events + [e], e.finish == Some(Stop), generated + |e.tokens| == budget)
      && (e.finish == Some(Stop) <==> EndsInStop(Flat(events + [e])))
    }

    lemma EventFits(before: seq<Token>, was: seq<Token>, events: seq<Event>, e: Event, generated: nat, budget: nat,
                    hit: bool)
      requires Progress(before, was, events, budget) && generated == |Flat(events)| && Closes(events, false, false)
      requires !EndsInStop(Flat(events)) && Published(was, was + e.tokens, e.tokens, budget - generated)
      requires hit <==> e.tokens[|e.tokens| - 1] in executor.options.stops
      requires e.finish == if hit then Some(Stop) else if generated + |e.tokens| == budget then Some(Length) else None
      ensures NextFits(before, was + e.tokens, events, e, generated, budget)
    {
      ProgressGrows(before, was, events, budget, e.tokens, e);
      var all := Flat(events) + e.tokens;
      assert all[|all| - 1] == e.tokens[|e.tokens| - 1];
    }

    function EventOf(record: SessionRecord, values: seq<Token>, hit: bool, full: bool): Event
      reads record
    {
      Event(values, record.revision, |record.tokens|, executor.options.contextLimit - |record.tokens|,
            if hit then Some(Stop) else if full then Some(Length) else None)
    }

    method HasStop(values: seq<Token>) returns (hit: bool)
      requires values != [] && forall i :: 0 <= i < |values| - 1 ==> values[i] !in executor.options.stops
      ensures hit <==> values[|values| - 1] in executor.options.stops
    {
      hit := exists i :: 0 <= i < |values| && values[i] in executor.options.stops;
    }

    /** The live session, if it has this id. */
    method SessionChecked(id: string) returns (r: Outcome<SessionRecord>)
      ensures r.Done? <==> session != null && session.id == id
      ensures r.Done? ==> r.value == session
      ensures r.Raised? ==> r.error == SessionNotFound
    {
      if session == null || session.id != id { return Raised(SessionNotFound); }
      r := Done(session);
    }

    /** A whole request: bring the session to `history`, then generate. */
    method CompleteFullHistory(id: string, history: seq<Token>, budget: int, mode: Mode, width: int, timeout: nat)
      returns (events: seq<Event>, error: Option<ApiError>)
      requires Valid()
      modifies session, executor, executor.engine, executor.sampler, executor.worker0, executor.worker1, executor.env
      ensures Valid()
      ensures error == Some(SessionNotFound) <==> session == null || session.id != id
      ensures error.Some? && error != Some(SessionNotFound) ==>
                || (error == Some(InvalidToken) && !InVocabulary(history, executor.options.vocabulary))
                || (error == Some(ContextLengthExceeded) && |history| > executor.options.contextLimit)
                || error == Refusal(history, budget, mode, width)
                || Failed(error.value, old(executor.poisoned), old(executor.env.faults),
                          old(executor.engine.frontiers.epoch), 1 + if budget < 0 then 0 else budget, timeout)
      ensures error.None? ==> session.tokens == history + Flat(events) && executor.tokens == session.tokens
      ensures error.None? ==> budget > 0 && Ended(executor.options.stops, budget, Flat(events))
      ensures error.None? && !executor.sampler.m.sampled ==>
                history != [] && Generated(executor.worker1.m, executor.options.stops, history, budget, Flat(events))
    {
      var found := SessionChecked(id);
      if found.Raised? { return [], Some(found.error); }
      var reuse := AppendFullHistory(found.value, history, timeout);
      if reuse.Raised? { return [], Some(reuse.error); }
      events, error := Generate(found.value, budget, mode, width, timeout);
    }
  }
}
