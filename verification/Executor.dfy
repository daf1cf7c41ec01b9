/** The dual-stage executor: one session, two stage backends, one coordinator. */
module Executor {
  import opened Contracts
  import opened Faults
  import opened Engine
  import opened StageBackend
  import opened Cancellation
  import opened Sampling
  import opened Pipeline

  datatype Options = Options(
    vocabulary: Positive, appendChunk: Positive, contextLimit: Positive, failureIsFatal: bool,
    stops: set<Token>, hiddenWidth: nat, sessionHash: nat)

  const MAX_DRAFT_WIDTH: nat := 64

  // ---------------------------------------------------------------------------
  // The session as a client sees it: everything but the epoch.
  // ---------------------------------------------------------------------------

  datatype Session = Session(
    tokens: seq<Token>, target: nat, draft: nat, lastSample: Token, haveLastSample: bool, sampler: SamplerState)

  /** A session that a quiescent executor can be in. */
  ghost predicate WellFormed(sm: SamplerModel, s: Session) {
    && s.draft <= s.target <= |s.tokens| <= s.target + 1
    && InVocabulary(s.tokens, sm.vocabulary)
    && |s.sampler.counts| == sm.vocabulary
    && s.sampler.sampledTokens <= s.sampler.canonicalTokens == |s.tokens|
    && (if s.haveLastSample then 0 <= s.lastSample < sm.vocabulary else s.lastSample == -1)
    && (|s.tokens| > 0 ==> s.haveLastSample)
  }

  ghost predicate HasPending(sm: SamplerModel, s: Session) {
    WellFormed(sm, s) && |s.tokens| == s.target + 1
  }

  /** The token plain decoding publishes next, if the sampler finds one. */
  function NextToken(m: Model, sm: SamplerModel, s: Session): (next: Option<Token>)
    requires m.vocabulary == sm.vocabulary
    ensures next.Some? ==> 0 <= next.value < sm.vocabulary
  {
    if |s.tokens| <= s.target then None else
    var greedy := m.Predict(s.tokens[s.target], s.target + 1);
    if sm.sampled then sm.Pick(greedy, s.sampler.counts, [], s.sampler.rng) else Some(greedy)
  }

  function Drawn(sm: SamplerModel, s: SamplerState): SamplerState {
    if sm.sampled then s.(rng := sm.nextRng(s.rng), sampledTokens := s.sampledTokens + 1) else s
  }

  /** The generator after `n` draws. */
  function Stepped(sm: SamplerModel, n: nat): U64 {
    if n == 0 then sm.seed else sm.nextRng(Stepped(sm, n - 1))
  }

  /** The session after the pending token was evaluated and `published` tokens followed it. */
  function Publish(sm: SamplerModel, s: Session, published: seq<Token>): Session
    requires |s.sampler.counts| == sm.vocabulary && InVocabulary(published, sm.vocabulary) && published != []
  {
    Session(s.tokens + published, s.target + |published|, s.target + |published|,
            published[|published| - 1], s.haveLastSample, CountedAll(sm, s.sampler, published))
  }

  /** What one successful plain decode does. */
  function PlainDecode(m: Model, sm: SamplerModel, s: Session): Session
    requires HasPending(sm, s) && m.vocabulary == sm.vocabulary && NextToken(m, sm, s).Some?
  {
    Publish(sm, s.(sampler := Drawn(sm, s.sampler)), [NextToken(m, sm, s).value])
  }

  lemma PlainDecodeHasPending(m: Model, sm: SamplerModel, s: Session)
    requires HasPending(sm, s) && m.vocabulary == sm.vocabulary && NextToken(m, sm, s).Some?
    ensures HasPending(sm, PlainDecode(m, sm, s))
  {
  }

  /** Field by field: one more token, all of the session evaluated but that token, one draw in a
      sampled session, and one more occurrence of the token. */
  lemma DecodeEffect(m: Model, sm: SamplerModel, s: Session, t: Token)
    requires HasPending(sm, s) && m.vocabulary == sm.vocabulary && NextToken(m, sm, s).Some?
    requires 0 <= t < sm.vocabulary
    ensures var r, next := PlainDecode(m, sm, s), NextToken(m, sm, s).value;
            && r.tokens == s.tokens + [next] && r.target == r.draft == |s.tokens| && r.lastSample == next
            && (!sm.sampled ==> next == m.Predict(s.tokens[|s.tokens| - 1], |s.tokens|))
            && r.sampler.rng == (if sm.sampled then sm.nextRng(s.sampler.rng) else s.sampler.rng)
            && r.sampler.sampledTokens == s.sampler.sampledTokens + (if sm.sampled then 1 else 0)
            && r.sampler.counts[t] == s.sampler.counts[t] + (if t == next then 1 else 0)
  {
    CountsAreOccurrences(sm, Drawn(sm, s.sampler), [NextToken(m, sm, s).value], t);
  }

  /** What is drawn: from the prediction, the occurrences so far and the generator; behind an append
      the evaluated rows count once more, a pending token before the new ones. */
  lemma DrawnFrom(m: Model, sm: SamplerModel, s: Session, ids: seq<Token>)
    requires WellFormed(sm, s) && m.vocabulary == sm.vocabulary && ids != []
    ensures var greedy := m.Predict(ids[|ids| - 1], |s.tokens| + |ids|);
            AppendSample(m, sm, s, ids) ==
            if sm.sampled then sm.Pick(greedy, s.sampler.counts, s.tokens[s.target..] + ids, s.sampler.rng)
            else Some(greedy)
    ensures HasPending(sm, s) ==>
              var greedy := m.Predict(s.tokens[|s.tokens| - 1], |s.tokens|);
              NextToken(m, sm, s) ==
              if sm.sampled then sm.Pick(greedy, s.sampler.counts, [], s.sampler.rng) else Some(greedy)
  {
  }

  /** Field by field: the new tokens, all evaluated, one draw, and their occurrences. */
  lemma AppendEffect(sm: SamplerModel, s: Session, ids: seq<Token>, next: Token, t: Token)
    requires WellFormed(sm, s) && InVocabulary(ids, sm.vocabulary) && 0 <= t < sm.vocabulary
    ensures var r := AfterAppend(sm, s, ids, next);
            && r.tokens == s.tokens + ids && r.target == |r.tokens| && r.draft == s.draft
            && r.lastSample == next && r.haveLastSample
            && r.sampler.rng == (if sm.sampled then sm.nextRng(s.sampler.rng) else s.sampler.rng)
            && r.sampler.sampledTokens == s.sampler.sampledTokens + (if sm.sampled then 1 else 0)
            && r.sampler.counts[t] == s.sampler.counts[t] + multiset(ids)[t]
  {
    CountsAreOccurrences(sm, Drawn(sm, s.sampler), ids, t);
  }

  /** `k` plain decodes in a row (greedy: there is always a next token). */
  ghost function PlainDecodes(m: Model, sm: SamplerModel, s: Session, k: nat): (r: Session)
    requires HasPending(sm, s) && m.vocabulary == sm.vocabulary && !sm.sampled
    ensures HasPending(sm, r)
  {
    if k == 0 then s
    else
      var before := PlainDecodes(m, sm, s, k - 1);
      PlainDecodeHasPending(m, sm, before);
      PlainDecode(m, sm, before)
  }

  /** Each token of `chain` is the prediction made from the one before it, the first from the
      pending token. */
  ghost predicate GreedyChain(m: Model, s: Session, chain: seq<Token>)
    requires |s.tokens| == s.target + 1
  {
    var all := s.tokens + chain;
    forall i :: |s.tokens| <= i < |all| ==> all[i] == m.Predict(all[i - 1], i)
  }

  /** What an online verification accepts, plus its last prediction, is a greedy chain. */
  lemma SpeculativeChain(m: Model, stops: set<Token>, s: Session, eval: seq<Token>, k: nat, next: Token)
    requires |s.tokens| == s.target + 1 && 1 <= k <= |eval| && eval[0] == s.tokens[s.target]
    requires forall i :: 1 <= i < k ==> Accepted(m, s.target, stops, eval, i)
    requires next == m.Predict(eval[k - 1], s.target + k) && DraftsInside(eval, m.vocabulary)
    ensures var chain := eval[1..k] + [next];
            && GreedyChain(m, s, chain) && |chain| == k && InVocabulary(chain, m.vocabulary)
            && forall i :: 0 <= i < k - 1 ==> chain[i] !in stops
  {
    var drafts := eval[1..k];
    var chain := drafts + [next];
    var all := s.tokens + chain;
    assert forall i :: 0 <= i < k - 1 ==> drafts[i] == eval[i + 1];
    forall i | |s.tokens| <= i < |all| ensures all[i] == m.Predict(all[i - 1], i) {
      var row := i - s.target;
      assert all[i - 1] == eval[row - 1] && all[i] == chain[row - 1];
      if row < k {
        assert Accepted(m, s.target, stops, eval, row);
        assert chain[row - 1] == drafts[row - 1] == eval[row - 1 + 1];
      }
    }
    forall i | 0 <= i < k - 1 ensures chain[i] !in stops && 0 <= chain[i] < m.vocabulary {
      assert chain[i] == drafts[i] == eval[i + 1];
      assert Accepted(m, s.target, stops, eval, i + 1);
    }
    assert chain[k - 1] == next;
  }

  /** Publishing a greedy chain at once is the same as decoding it one token at a time. */
  lemma {:induction false} ChainIsPlainDecodes(m: Model, sm: SamplerModel, s: Session, chain: seq<Token>)
    requires HasPending(sm, s) && m.vocabulary == sm.vocabulary && !sm.sampled
    requires chain != [] && GreedyChain(m, s, chain) && InVocabulary(chain, sm.vocabulary)
    ensures Publish(sm, s, chain) == PlainDecodes(m, sm, s, |chain|)
  {
    var last := |chain| - 1;
    if last == 0 {
      var all := s.tokens + chain;
      assert chain == [chain[0]] && all[|s.tokens|] == chain[0] && all[|s.tokens| - 1] == s.tokens[s.target];
      ChainOfOne(m, sm, s, chain[0]);
    } else {
      var front := chain[..last];
      ChainSplits(m, s, chain);
      ChainIsPlainDecodes(m, sm, s, front);
      ChainOneMore(m, sm, s, front, chain[last]);
    }
  }

  lemma ChainOneMore(m: Model, sm: SamplerModel, s: Session, front: seq<Token>, next: Token)
    requires HasPending(sm, s) && m.vocabulary == sm.vocabulary && !sm.sampled
    requires front != [] && InVocabulary(front, sm.vocabulary)
    requires next == m.Predict(front[|front| - 1], |s.tokens| + |front|)
    requires Publish(sm, s, front) == PlainDecodes(m, sm, s, |front|)
    ensures InVocabulary(front + [next], sm.vocabulary)
    ensures Publish(sm, s, front + [next]) == PlainDecodes(m, sm, s, |front| + 1)
  {
    PublishOneMore(m, sm, s, front, next);
    DecodeOneMore(m, sm, s, |front|);
  }

  lemma DecodeOneMore(m: Model, sm: SamplerModel, s: Session, k: nat)
    requires HasPending(sm, s) && m.vocabulary == sm.vocabulary && !sm.sampled
    ensures PlainDecodes(m, sm, s, k + 1) == PlainDecode(m, sm, PlainDecodes(m, sm, s, k))
  {
  }

  lemma ChainSplits(m: Model, s: Session, chain: seq<Token>)
    requires |s.tokens| == s.target + 1 && |chain| > 1 && GreedyChain(m, s, chain)
    ensures var last := |chain| - 1;
            && chain == chain[..last] + [chain[last]] && GreedyChain(m, s, chain[..last])
            && chain[last] == m.Predict(chain[last - 1], |s.tokens| + last)
  {
    var last, all := |chain| - 1, s.tokens + chain;
    assert all[|s.tokens| + last] == chain[last] && all[|s.tokens| + last - 1] == chain[last - 1];
    assert s.tokens + chain[..last] == all[..|s.tokens| + last];
  }

  lemma ChainOfOne(m: Model, sm: SamplerModel, s: Session, next: Token)
    requires HasPending(sm, s) && m.vocabulary == sm.vocabulary && !sm.sampled
    requires next == m.Predict(s.tokens[s.target], |s.tokens|)
    ensures Publish(sm, s, [next]) == PlainDecodes(m, sm, s, 1)
  {
    assert PlainDecodes(m, sm, s, 0) == s;
    assert NextToken(m, sm, s) == Some(next);
  }

  lemma PublishOneMore(m: Model, sm: SamplerModel, s: Session, front: seq<Token>, next: Token)
    requires HasPending(sm, s) && m.vocabulary == sm.vocabulary && !sm.sampled
    requires front != [] && InVocabulary(front, sm.vocabulary)
    requires next == m.Predict(front[|front| - 1], |s.tokens| + |front|)
    ensures var p := Publish(sm, s, front);
            && HasPending(sm, p) && NextToken(m, sm, p) == Some(next) && InVocabulary(front + [next], sm.vocabulary)
            && PlainDecode(m, sm, p) == Publish(sm, s, front + [next])
  {
    CountedAllConcat(sm, s.sampler, front, [next]);
    assert s.tokens + (front + [next]) == s.tokens + front + [next];
  }

  lemma {:induction false} DecodesAdvance(m: Model, sm: SamplerModel, s: Session, k: nat)
    requires HasPending(sm, s) && m.vocabulary == sm.vocabulary && !sm.sampled
    ensures var r := PlainDecodes(m, sm, s, k); |r.tokens| == |s.tokens| + k && r.target == s.target + k
  {
    if k > 0 { DecodesAdvance(m, sm, s, k - 1); }
  }

  /** Fewer decodes publish a prefix of what more decodes publish. */
  lemma {:induction false} MoreDecodesExtendFewer(m: Model, sm: SamplerModel, s: Session, j: nat, k: nat)
    requires HasPending(sm, s) && m.vocabulary == sm.vocabulary && !sm.sampled && j <= k
    ensures PlainDecodes(m, sm, s, j).tokens <= PlainDecodes(m, sm, s, k).tokens
    decreases k
  {
    if j < k {
      MoreDecodesExtendFewer(m, sm, s, j, k - 1);
      assert PlainDecodes(m, sm, s, k - 1).tokens <= PlainDecodes(m, sm, s, k).tokens;
    }
  }

  /** The rows an append evaluates: the pending token, if any, then the new ones. */
  function AppendEval(s: Session, ids: seq<Token>): seq<Token> {
    (if s.target < |s.tokens| then s.tokens[s.target..] else []) + ids
  }

  /** The continuation an append prepares. How the rows were cut into chunks plays no part. */
  function AppendSample(m: Model, sm: SamplerModel, s: Session, ids: seq<Token>): (next: Option<Token>)
    requires m.vocabulary == sm.vocabulary
    ensures next.Some? ==> 0 <= next.value < sm.vocabulary
  {
    if ids == [] then None
    else
      var greedy := m.Predict(ids[|ids| - 1], |s.tokens| + |ids|);
      if sm.sampled then sm.Pick(greedy, s.sampler.counts, AppendEval(s, ids), s.sampler.rng) else Some(greedy)
  }

  lemma AppendRows(sm: SamplerModel, s: Session, ids: seq<Token>)
    requires WellFormed(sm, s) && ids != [] && InVocabulary(ids, sm.vocabulary)
    ensures var rows := AppendEval(s, ids);
            && InVocabulary(rows, sm.vocabulary) && rows[|rows| - 1] == ids[|ids| - 1]
            && |rows| == |s.tokens| - s.target + |ids|
  {
  }

  function AfterAppend(sm: SamplerModel, s: Session, ids: seq<Token>, next: Token): Session
    requires |s.sampler.counts| == sm.vocabulary && InVocabulary(ids, sm.vocabulary)
  {
    Session(s.tokens + ids, |s.tokens| + |ids|, s.draft, next, true, CountedAll(sm, Drawn(sm, s.sampler), ids))
  }

  function AfterSeed(sm: SamplerModel, s: Session): Session
    requires |s.sampler.counts| == sm.vocabulary && 0 <= s.lastSample < sm.vocabulary
  {
    s.(tokens := s.tokens + [s.lastSample], sampler := Counted(sm, s.sampler, s.lastSample))
  }

  // ---------------------------------------------------------------------------
  // The class.
  // ---------------------------------------------------------------------------

  /** What a transaction leaves for the operation that ran it. */
  datatype PairResult = PairResult(event: CommitEvent, nextToken: Token)

  /** What a transaction is about to commit. */
  datatype Conclusion = Conclusion(count: nat, next: Token, decision: Option<Decision>)

  /** Coordinator frontiers after a commit of `k` evaluated rows. */
  function Moved(f: Frontiers, kind: TxnKind, appended: nat, k: nat): Frontiers {
    if kind == AppendKnown
    then Frontiers(f.canonical + appended, f.target + k, f.target + k, f.target + k, f.draft, f.epoch + 1)
    else Frontiers(f.canonical + k, f.target + k, f.target + k, f.target + k, f.target + k, f.epoch + 1)
  }

  class DualStageExecutor {
    const options: Options
    const engine: SessionTxnEngine
    const sampler: TransactionalSampler
    const stages: Stages
    const worker0: MockStageBackend
    const worker1: MockStageBackend
    const env: Environment
    var tokens: seq<Token>
    var lastSample: Token
    var haveLastSample: bool
    var poisoned: bool

    constructor (options: Options, m: Model, sm: SamplerModel, env: Environment)
      requires m.vocabulary == options.vocabulary == sm.vocabulary && 0 < options.hiddenWidth
      requires options.contextLimit <= U32_MAX
      ensures fresh(Parts() - {env}) && this.env == env && this.options == options
      ensures Valid() && !poisoned && sampler.m == sm && worker1.m == m
      ensures Current() == Session([], 0, 0, -1, false, Initial(sm))
    {
      this.options, this.env := options, env;
      var backend0 := new MockStageBackend(m, Stage0, options.sessionHash, options.hiddenWidth, env);
      var backend1 := new MockStageBackend(m, Stage1, options.sessionHash, options.hiddenWidth, env);
      worker0, worker1 := backend0, backend1;
      stages := new Stages(backend0, backend1, env, options.stops, options.hiddenWidth, options.sessionHash);
      engine := new SessionTxnEngine();
      sampler := new TransactionalSampler(sm);
      tokens, lastSample, haveLastSample, poisoned := [], -1, false, false;
    }

    /** The objects an operation may change besides the executor itself. */
    ghost function Parts(): set<object> { {engine, sampler, worker0, worker1, env} }

    function Current(): Session reads this, engine, sampler {
      Session(tokens, engine.frontiers.target, engine.frontiers.draft, lastSample, haveLastSample, sampler.View())
    }

    /** Holds from construction on, whatever fails. */
    ghost predicate Wired() {
      && stages.Wired() && stages.worker0 == worker0 && stages.worker1 == worker1 && stages.env == env
      && stages.stops == options.stops && stages.hiddenWidth == options.hiddenWidth
      && worker1.m.vocabulary == options.vocabulary == sampler.m.vocabulary
      && options.contextLimit <= U32_MAX
    }

    /** Coordinator and stages agree, and nothing is in progress. */
    ghost predicate AtRest() reads engine, worker0, worker1 {
      && !engine.active && Inv(engine.View())
      && Idle(worker0.View(), engine.frontiers.target, engine.frontiers.epoch)
      && Idle(worker1.View(), engine.frontiers.target, engine.frontiers.epoch)
    }

    /** The lockstep of a healthy executor between operations. */
    ghost predicate Quiescent() reads this, engine, sampler, worker0, worker1 {
      && AtRest()
      && engine.frontiers.canonical == |tokens| <= options.contextLimit
      && WellFormed(sampler.m, Current())
      && SamplerFollows(sampler.View(), tokens)
    }

    /** The generator has taken one step per sampled token; the rest of the sampler's state is a
        function of the canonical tokens. */
    ghost predicate SamplerFollows(s: SamplerState, tokens: seq<Token>) {
      && InVocabulary(tokens, sampler.m.vocabulary) && s.rng == Stepped(sampler.m, s.sampledTokens)
      && s == CountedAll(sampler.m, Initial(sampler.m).(rng := s.rng, sampledTokens := s.sampledTokens), tokens)
    }

    ghost predicate Valid() reads this, engine, sampler, worker0, worker1 {
      && Wired() && sampler.Valid()
      && (poisoned || Quiescent())
    }

    /** All that a transaction asks for. */
    ghost predicate Resting() reads this, engine, sampler, worker0, worker1 {
      && Wired() && sampler.Valid()
      && (poisoned || (AtRest() && engine.frontiers.canonical <= options.contextLimit))
    }

    // -------------------------------------------------------------------------
    // One transaction.
    // -------------------------------------------------------------------------

    /** Rolls both stages back, then the coordinator; if a stage cannot, the executor closes. */
    method RollbackPrepared(txn: Txn)
      requires Wired() && Recoverable(worker0.View(), txn) && Recoverable(worker1.View(), txn)
      requires engine.active && Inv(engine.View()) && engine.txn.epoch == txn.epoch
      modifies this`poisoned, engine, worker0, worker1, env
      ensures old(env.faults) <= env.faults
      ensures poisoned == old(poisoned) || old(env.faults) < env.faults
      ensures !poisoned ==>
                && !engine.active && Inv(engine.View())
                && engine.frontiers == RolledBackFrontiers(old(engine.frontiers), old(engine.txn))
                && Idle(worker0.View(), txn.baseTarget, txn.epoch) && Idle(worker1.View(), txn.baseTarget, txn.epoch)
    {
      var f0 := worker0.Rollback(txn.epoch);
      var f1 := worker1.Rollback(txn.epoch);
      if f0.Err? || f1.Err? {
        poisoned := true;
        return;
      }
      if engine.active { var _ := engine.Rollback(); }
    }

    /** The coordinator's part of the commit: both acknowledgements, the decision, the commit. */
    method Coordinate(txn: Txn, k: nat) returns (r: Result<CommitEvent>)
      requires engine.active && Inv(engine.View()) && engine.txn.status == Prepared && engine.txn.epoch == txn.epoch
      requires !engine.stage0Ack && !engine.stage1Ack && Decidable(engine.txn, k)
      requires engine.frontiers.canonical + k <= U64_MAX
      modifies engine
      ensures r.Ok? && !engine.active && Inv(engine.View())
      ensures r.value.newlyPublished == (if old(engine.txn).kind == AppendKnown then 0 else k)
      ensures engine.frontiers == Advanced(old(engine.frontiers), old(engine.txn).(stateCommitCount := k,
                publishCount := if old(engine.txn).kind == AppendKnown then 0 else k, status := Decided))
    {
      var evaluated := engine.txn.evaluatedCount;
      var ok := engine.Acknowledge(Stage0, txn.epoch, evaluated);
      if !ok { return Err(RuntimeError); }
      ok := engine.Acknowledge(Stage1, txn.epoch, evaluated);
      if !ok { return Err(RuntimeError); }
      ok := engine.Decide(k);
      if !ok { return Err(RuntimeError); }
      var committed, event := engine.Commit();
      if !committed { return Err(RuntimeError); }
      r := Ok(event);
    }

    /** Cuts a speculative result before its first stop token. */
    method TruncateAtStop(eval: seq<Token>, count: nat, next: Token) returns (kept: nat, last: Token)
      requires 1 <= count <= |eval|
      ensures 1 <= kept <= count && forall i :: 1 <= i < kept ==> eval[i] !in options.stops
      ensures kept < count ==> eval[kept] in options.stops && last == eval[kept]
      ensures kept == count ==> last == next
    {
      for index := 1 to count
        invariant forall i :: 1 <= i < index ==> eval[i] !in options.stops
      {
        if eval[index] in options.stops { return index, eval[index]; }
      }
      return count, next;
    }

    /** Draws from the sampler when the session samples; a greedy session keeps the prediction. */
    method SampleNext(kind: TxnKind, eval: seq<Token>, v: Verified) returns (r: Result<(Token, Option<Decision>)>)
      requires sampler.Valid() && 0 <= v.nextToken < sampler.m.vocabulary == options.vocabulary
      requires v.logits == if sampler.m.sampled && kind != Speculative then Some(v.nextToken) else None
      ensures r.Ok? ==> 0 <= r.value.0 < sampler.m.vocabulary
      ensures r.Ok? && !sampler.m.sampled ==> r.value == (v.nextToken, None)
      ensures r.Ok? && sampler.m.sampled ==>
                && kind != Speculative
                && r.value.1 == Some(Decision(r.value.0, sampler.rngState, sampler.m.nextRng(sampler.rngState)))
                && sampler.m.Pick(v.nextToken, sampler.counts, Extra(kind, eval), sampler.rngState) == Some(r.value.0)
      ensures r.Err? ==>
                && sampler.m.sampled
                && (|| kind == Speculative || !InVocabulary(Extra(kind, eval), sampler.m.vocabulary)
                    || sampler.m.Pick(v.nextToken, sampler.counts, Extra(kind, eval), sampler.rngState).None?)
                && r.failure == StuckFailure(kind, eval)
    {
      if !sampler.m.sampled { return Ok((v.nextToken, None)); }
      if kind == Speculative { return Err(LogicError); }
      var decision := sampler.Prepare(v.logits, Extra(kind, eval));
      if decision.Err? { return Err(decision.failure); }
      var token := decision.value.token;
      if token < 0 || token >= options.vocabulary { return Err(RuntimeError); }
      r := Ok((token, Some(decision.value)));
    }

    /** Tokens an append counts towards the penalties before they are canonical. */
    function Extra(kind: TxnKind, eval: seq<Token>): seq<Token> {
      if kind == AppendKnown then eval else []
    }

    /** The point of no return: both stages and the sampler commit, or the executor closes. */
    method CommitStages(txn: Txn, k: nat, decision: Option<Decision>) returns (r: Result<()>)
      requires Wired() && sampler.Valid()
      requires CommitAccepted(worker0.View(), txn.epoch, k) && CommitAccepted(worker1.View(), txn.epoch, k)
      requires worker0.provisionalBase == worker1.provisionalBase == txn.baseTarget
      requires decision.Some? ==>
                 && sampler.m.sampled && 0 <= decision.value.token < sampler.m.vocabulary
                 && decision.value.rngBefore == sampler.rngState
                 && decision.value.rngAfter == sampler.m.nextRng(sampler.rngState)
      modifies this`poisoned, sampler, worker0, worker1, env
      ensures sampler.Valid() && old(env.faults) <= env.faults
      ensures r.Err? ==> poisoned && old(env.faults) < env.faults
      ensures r.Ok? ==>
                && poisoned == old(poisoned)
                && Idle(worker0.View(), txn.baseTarget + k, txn.epoch)
                && Idle(worker1.View(), txn.baseTarget + k, txn.epoch)
      ensures r.Ok? ==> sampler.View() == if decision.None? then old(sampler.View())
                          else old(sampler.View()).(rng := decision.value.rngAfter,
                                                    sampledTokens := old(sampler.sampledTokens) + 1)
    {
      var c0 := worker0.Commit(txn.epoch, k);
      var c1 := worker1.Commit(txn.epoch, k);
      r := if c0.Err? then c0 else c1;
      if r.Ok? && decision.Some? { r := sampler.Commit(decision.value); }
      if r.Err? { poisoned := true; }
    }

    /** A freshly prepared transaction over idle stages. */
    ghost predicate Begun(txn: Txn, eval: seq<Token>, chunk: nat) reads engine, sampler, worker0, worker1 {
      && Wired() && sampler.Valid() && 0 < chunk && 0 < |eval| == txn.evaluatedCount
      && engine.active && engine.txn == txn && txn.status == Prepared && Inv(engine.View())
      && !engine.stage0Ack && !engine.stage1Ack
      && (txn.kind == Speculative ==> chunk == 1 && 1 < |eval|)
      && (txn.kind == AppendKnown ==> engine.frontiers.target + |eval| == engine.frontiers.canonical)
      && engine.frontiers.canonical + |eval| <= U64_MAX
      && Idle(worker0.View(), txn.baseTarget, txn.epoch - 1) && Idle(worker1.View(), txn.baseTarget, txn.epoch - 1)
    }

    /** What a committed transaction of `kind` publishes on top of the evaluated rows. */
    ghost predicate Chosen(kind: TxnKind, base: nat, eval: seq<Token>, k: nat, next: Token, s: SamplerState)
      requires options.vocabulary == worker1.m.vocabulary
    {
      && 1 <= k <= |eval| && 0 <= next < options.vocabulary
      && (kind != Speculative ==> k == |eval|)
      && (kind == Speculative ==>
            && DraftsInside(eval, options.vocabulary) && !sampler.m.sampled
            && (forall i :: 1 <= i < k ==> Accepted(worker1.m, base, options.stops, eval, i))
            && (k < |eval| ==> !Accepted(worker1.m, base, options.stops, eval, k)))
      && var greedy := worker1.m.Predict(eval[k - 1], base + k);
         if sampler.m.sampled then sampler.m.Pick(greedy, s.counts, Extra(kind, eval), s.rng) == Some(next)
         else next == greedy
    }

    /** The transaction can still be rolled back to where it started from. */
    ghost predicate StillOpen(txn: Txn, f: Frontiers, s: SamplerState) reads engine, sampler, worker0, worker1
      requires stages.worker0 == worker0 && stages.worker1 == worker1
    {
      && stages.BothRecoverable(txn) && Inv(engine.View()) && engine.frontiers == f
      && engine.txn == txn.(evaluatedCount := engine.txn.evaluatedCount) && sampler.View() == s
    }

    /** What a committed transaction has done to coordinator and sampler. */
    ghost predicate Made(kind: TxnKind, base: nat, rows: nat, eval: seq<Token>, result: PairResult,
                         f: Frontiers, s: SamplerState)
      reads engine, sampler
      requires options.vocabulary == worker1.m.vocabulary
    {
      var k := if kind == AppendKnown then rows else result.event.newlyPublished;
      && Chosen(kind, base, eval, k, result.nextToken, s)
      && engine.frontiers == Moved(f, kind, 0, k) && sampler.View() == Drawn(sampler.m, s)
    }

    /** The protected part of a transaction. It either commits everywhere, or throws with the
        transaction still open and both stages recoverable, or closes the executor. */
    method Attempt(txn: Txn, eval0: seq<Token>, chunk: nat, cancel: CancellationToken?)
      returns (r: Result<PairResult>, eval: seq<Token>)
      requires Begun(txn, eval0, chunk) && TokenValid(cancel)
      modifies this`poisoned, engine, sampler, worker0, worker1, env, cancel
      ensures TokenValid(cancel) && old(env.faults) <= env.faults && sampler.Valid()
      ensures |eval| == |eval0| && eval[0] == eval0[0] && (txn.kind != Speculative ==> eval == eval0)
      ensures r.Err? && engine.active ==>
                StillOpen(txn, old(engine.frontiers), old(sampler.View())) && poisoned == old(poisoned)
      ensures r.Err? && !engine.active ==> poisoned && old(env.faults) < env.faults
      ensures r.Err? ==>
                Unmade(txn.kind, txn.baseTarget, eval0, chunk, old(sampler.View()), old(env.faults), cancel, r.failure)
      ensures r.Ok? ==> stages.FramesFit(Min(chunk, |eval0|))
      ensures r.Ok? && txn.kind == Speculative && env.faults == old(env.faults) ==>
                stages.Drafted(txn.baseTarget, txn.epoch, eval0[0], eval)
      ensures r.Ok? ==> AtRest() && poisoned == old(poisoned)
      ensures r.Ok? && cancel != null ==> cancel.state == Sealed
      ensures r.Ok? ==>
                Made(txn.kind, txn.baseTarget, |eval0|, eval, r.value, old(engine.frontiers), old(sampler.View()))
    {
      var pipelined;
      pipelined, eval := stages.RunChunks(txn, eval0, chunk, sampler.m.sampled, cancel);
      if pipelined.Err? { return Err(pipelined.failure), eval; }
      var concluded := Conclude(txn, eval, pipelined.value);
      if concluded.Err? { RecoverableExtents(txn, eval, pipelined.value.extent); return Err(concluded.failure), eval; }
      r := Finish(txn, eval, concluded.value, cancel);
    }

    /** Turns a verification into what will be committed: sampling for a sampled session, and
        the stop-token cut, which online verification leaves nothing to do. */
    method Conclude(txn: Txn, eval: seq<Token>, v: Verified) returns (r: Result<Conclusion>)
      requires Wired() && sampler.Valid() && Verification(worker1.m, options.stops, txn, eval, v)
      requires v.logits == if sampler.m.sampled && txn.kind != Speculative then Some(v.nextToken) else None
      requires txn.kind == Speculative ==> DraftsInside(eval, options.vocabulary)
      ensures r.Err? ==>
                Stuck(txn.kind, txn.baseTarget, eval, sampler.View()) && r.failure == StuckFailure(txn.kind, eval)
      ensures r.Ok? ==>
                && r.value.count == v.extent
                && Chosen(txn.kind, txn.baseTarget, eval, v.extent, r.value.next, sampler.View())
                && DecisionFits(r.value)
    {
      var chosen := SampleNext(txn.kind, eval, v);
      if chosen.Err? { return Err(chosen.failure); }
      var k, next := v.stateCommitCount, chosen.value.0;
      if txn.kind == Speculative {
        k, next := TruncateAtStop(eval, k, next);
        forall i | 1 <= i < v.extent ensures eval[i] !in options.stops {
          assert Accepted(worker1.m, txn.baseTarget, options.stops, eval, i);
        }
      }
      r := Ok(Conclusion(k, next, chosen.value.1));
    }

    /** The exception a stuck session raises. */
    function StuckFailure(kind: TxnKind, eval: seq<Token>): Failure {
      if kind == Speculative then LogicError
      else if !InVocabulary(Extra(kind, eval), sampler.m.vocabulary) then InvalidArgument
      else RuntimeError
    }

    /** Why an open transaction fails, and the exception it raises. */
    ghost predicate Unmade(kind: TxnKind, base: nat, eval: seq<Token>, chunk: nat, s: SamplerState, calm: nat,
                           cancel: CancellationToken?, failure: Failure)
      requires eval != []
      reads stages.env, cancel
    {
      || stages.Explained(chunk, eval, calm, cancel, failure)
      || (Stuck(kind, base, eval, s) && failure == StuckFailure(kind, eval))
    }

    /** A sampled session cannot continue: speculation is not defined for it, or no candidate
        is left. */
    ghost predicate Stuck(kind: TxnKind, base: nat, eval: seq<Token>, s: SamplerState)
      requires eval != []
    {
      && sampler.m.sampled
      && (|| kind == Speculative || !InVocabulary(Extra(kind, eval), sampler.m.vocabulary)
          || sampler.m.Pick(worker1.m.Predict(eval[|eval| - 1], base + |eval|),
                             s.counts, Extra(kind, eval), s.rng).None?)
    }

    ghost predicate DecisionFits(c: Conclusion) reads sampler {
      if sampler.m.sampled
      then c.decision == Some(Decision(c.next, sampler.rngState, sampler.m.nextRng(sampler.rngState)))
      else c.decision == None
    }

    /** Shortens, seals, coordinates, commits. Sealing is the last point at which the request
        can still be cancelled. */
    method Finish(txn: Txn, eval: seq<Token>, c: Conclusion, cancel: CancellationToken?) returns (r: Result<PairResult>)
      requires Wired() && sampler.Valid() && TokenValid(cancel)
      requires engine.active && engine.txn == txn && txn.status == Prepared && Inv(engine.View())
      requires !engine.stage0Ack && !engine.stage1Ack && engine.frontiers.canonical + |eval| <= U64_MAX
      requires Extents(worker1.m, worker0.View(), worker1.View(), txn, eval, c.count) && |eval| == txn.evaluatedCount
      requires txn.kind == AppendKnown ==> engine.frontiers.target + |eval| == engine.frontiers.canonical
      requires DecisionFits(c) && 0 <= c.next < sampler.m.vocabulary
      modifies this`poisoned, engine, sampler, worker0, worker1, env, cancel
      ensures TokenValid(cancel) && old(env.faults) <= env.faults && sampler.Valid()
      ensures r.Err? && engine.active ==>
                StillOpen(txn, old(engine.frontiers), old(sampler.View())) && poisoned == old(poisoned)
      ensures r.Err? && !engine.active ==> poisoned && old(env.faults) < env.faults
      ensures r.Err? ==> old(env.faults) < env.faults || Blames(cancel, r.failure)
      ensures r.Ok? ==> AtRest() && poisoned == old(poisoned)
      ensures r.Ok? && cancel != null ==> cancel.state == Sealed
      ensures r.Ok? ==>
                && r.value.nextToken == c.next
                && r.value.event.newlyPublished == (if txn.kind == AppendKnown then 0 else c.count)
                && engine.frontiers == Moved(old(engine.frontiers), txn.kind, 0, c.count)
                && sampler.View() == Drawn(sampler.m, old(sampler.View()))
    {
      RecoverableExtents(txn, eval, c.count);
      ExtentsCommit(worker1.m, worker0.View(), worker1.View(), txn, eval, c.count, c.count);
      var sealing := ShortenAndSeal(txn, |eval|, c.count, cancel);
      if sealing.Some? { return Err(sealing.value); }
      var event := Coordinate(txn, c.count);
      if event.Err? { return Err(RuntimeError); }
      var committed := CommitStages(txn, c.count, c.decision);
      if committed.Err? { return Err(committed.failure); }
      r := Ok(PairResult(event.value, c.next));
    }

    /** The last steps that can still be undone. */
    method ShortenAndSeal(txn: Txn, rows: nat, count: nat, cancel: CancellationToken?) returns (f: Option<Failure>)
      requires TokenValid(cancel) && engine.active && engine.txn == txn && txn.status == Prepared && Inv(engine.View())
      requires !engine.stage0Ack && !engine.stage1Ack && rows == txn.evaluatedCount && 1 <= count <= rows
      requires count < rows ==> txn.kind == Speculative
      modifies engine, cancel
      ensures TokenValid(cancel) && engine.active && Inv(engine.View()) && engine.frontiers == old(engine.frontiers)
      ensures engine.txn == txn.(evaluatedCount := engine.txn.evaluatedCount)
      ensures f.Some? ==> Blames(cancel, f.value)
      ensures f.None? ==> !engine.stage0Ack && !engine.stage1Ack && engine.txn.evaluatedCount == count
      ensures f.None? && cancel != null ==> cancel.state == Sealed
    {
      if count < rows {
        var shortened := engine.ShortenSpeculative(count);
        if !shortened { return Some(RuntimeError); }
      }
      f := None;
      if cancel != null { f := cancel.Seal(); }
    }

    /** Everything a failed operation must leave alone. */
    twostate predicate Untouched() reads this, engine, sampler {
      && Current() == old(Current())
      && engine.frontiers == old(engine.frontiers).(epoch := engine.frontiers.epoch)
      && old(engine.frontiers.epoch) <= engine.frontiers.epoch <= old(engine.frontiers.epoch) + 1
    }

    /** Nothing is in progress, and coordinator and sampler are where they were but for an epoch. */
    ghost predicate AsBefore(f: Frontiers, s: SamplerState) reads engine, sampler, worker0, worker1 {
      && AtRest() && sampler.View() == s && engine.frontiers == f.(epoch := engine.frontiers.epoch)
      && f.epoch <= engine.frontiers.epoch <= f.epoch + 1
    }

    /** The coordinator turns the request down before anything starts. */
    predicate Refused(f: Frontiers, kind: TxnKind, evaluated: nat, appended: nat) {
      || f.epoch == U64_MAX || evaluated == 0
      || match kind
         case AppendKnown =>
           || appended == 0 || f.canonical > f.target + 1 || f.target + evaluated != appended + f.canonical
           || f.canonical + appended > U64_MAX
         case Decode => f.canonical != f.target + 1 || evaluated != 1
         case Speculative => f.canonical != f.target + 1
         case InvalidKind => true
    }

    /** Why a transaction is not even opened, and the exception that says so. */
    ghost predicate Unopened(closed: bool, f: Frontiers, kind: TxnKind, eval: seq<Token>, chunk: nat, appended: nat,
                             cancel: CancellationToken?, failure: Failure)
      reads cancel
    {
      || Blames(cancel, failure)
      || (failure == RuntimeError && (closed || Refused(f, kind, |eval|, appended)))
      || (failure == InvalidArgument
          && (eval == [] || chunk == 0 || (kind == Speculative && (chunk != 1 || |eval| < 2))))
    }

    /** One all-or-nothing transaction. */
    method RunTransaction(kind: TxnKind, eval0: seq<Token>, chunk: nat, cancel: CancellationToken?, appended: nat)
      returns (r: Result<PairResult>, eval: seq<Token>)
      requires Resting() && TokenValid(cancel) && |eval0| <= U32_MAX && appended <= U32_MAX
      modifies this`poisoned, engine, sampler, worker0, worker1, env, cancel
      ensures TokenValid(cancel) && old(env.faults) <= env.faults && sampler.Valid()
      ensures |eval| == |eval0| && (kind != Speculative ==> eval == eval0) && (eval0 != [] ==> eval[0] == eval0[0])
      ensures r.Err? && !poisoned ==> AsBefore(old(engine.frontiers), old(sampler.View()))
      ensures poisoned ==> old(poisoned) || old(env.faults) < env.faults || (options.failureIsFatal && r.Err?)
      ensures r.Err? ==>
                || Unopened(old(poisoned), old(engine.frontiers), kind, eval0, chunk, appended, cancel, r.failure)
                || (eval0 != [] && Unmade(kind, old(engine.frontiers.target), eval0, chunk, old(sampler.View()),
                                          old(env.faults), cancel, r.failure))
      ensures r.Ok? ==>
                !Refused(old(engine.frontiers), kind, |eval0|, appended) && stages.FramesFit(Min(chunk, |eval0|))
      ensures r.Ok? && kind == Speculative && env.faults == old(env.faults) ==>
                stages.Drafted(old(engine.frontiers.target), old(engine.frontiers.epoch) + 1, eval0[0], eval)
      ensures r.Ok? ==> !poisoned && AtRest()
      ensures r.Ok? && cancel != null ==> cancel.state == Sealed
      ensures r.Ok? ==>
                var k := if kind == AppendKnown then |eval0| else r.value.event.newlyPublished;
                && Chosen(kind, old(engine.frontiers.target), eval, k, r.value.nextToken, old(sampler.View()))
                && engine.frontiers == Moved(old(engine.frontiers), kind, appended, k)
                && sampler.View() == Drawn(sampler.m, old(sampler.View()))
      ensures r.Ok? && kind == AppendKnown ==>
                |eval0| == appended + (old(engine.frontiers).canonical - old(engine.frontiers).target)
    {
      eval := eval0;
      var admitted := Admit(kind, eval0, chunk, cancel, appended);
      if admitted.Err? { return Err(admitted.failure), eval; }
      r, eval := RunOpened(admitted.value, eval0, chunk, cancel, kind, appended, old(engine.frontiers));
    }

    /** The rest of a transaction that found the frontiers `before`. */
    method RunOpened(txn: Txn, eval0: seq<Token>, chunk: nat, cancel: CancellationToken?, ghost kind: TxnKind,
                     ghost appended: nat, ghost before: Frontiers)
      returns (r: Result<PairResult>, eval: seq<Token>)
      requires Opened(before, txn, kind, eval0, chunk, appended) && TokenValid(cancel) && !poisoned
      modifies this`poisoned, engine, sampler, worker0, worker1, env, cancel
      ensures TokenValid(cancel) && old(env.faults) <= env.faults && sampler.Valid()
      ensures |eval| == |eval0| && eval[0] == eval0[0] && (kind != Speculative ==> eval == eval0)
      ensures r.Err? && !poisoned ==> AsBefore(before, old(sampler.View()))
      ensures poisoned ==> r.Err? && (old(env.faults) < env.faults || options.failureIsFatal)
      ensures r.Err? ==>
                Unmade(kind, before.target, eval0, chunk, old(sampler.View()), old(env.faults), cancel, r.failure)
      ensures r.Ok? ==> stages.FramesFit(Min(chunk, |eval0|)) && AtRest()
      ensures r.Ok? && kind == Speculative && env.faults == old(env.faults) ==>
                stages.Drafted(before.target, before.epoch + 1, eval0[0], eval)
      ensures r.Ok? && cancel != null ==> cancel.state == Sealed
      ensures r.Ok? ==>
                var k := if kind == AppendKnown then |eval0| else r.value.event.newlyPublished;
                && Chosen(kind, before.target, eval, k, r.value.nextToken, old(sampler.View()))
                && engine.frontiers == Moved(before, kind, appended, k)
                && sampler.View() == Drawn(sampler.m, old(sampler.View()))
    {
      r, eval := Protected(txn, eval0, chunk, cancel);
    }

    /** An open transaction, with the handlers around it. */
    method Protected(txn: Txn, eval0: seq<Token>, chunk: nat, cancel: CancellationToken?)
      returns (r: Result<PairResult>, eval: seq<Token>)
      requires Begun(txn, eval0, chunk) && TokenValid(cancel) && !poisoned
      modifies this`poisoned, engine, sampler, worker0, worker1, env, cancel
      ensures TokenValid(cancel) && old(env.faults) <= env.faults && sampler.Valid()
      ensures |eval| == |eval0| && eval[0] == eval0[0] && (txn.kind != Speculative ==> eval == eval0)
      ensures r.Err? && !poisoned ==>
                && AtRest() && sampler.View() == old(sampler.View())
                && engine.frontiers == RolledBackFrontiers(old(engine.frontiers), txn)
      ensures poisoned ==> r.Err? && (old(env.faults) < env.faults || Fatal(r.failure))
      ensures r.Err? && Fatal(r.failure) ==> poisoned
      ensures r.Err? ==>
                Unmade(txn.kind, txn.baseTarget, eval0, chunk, old(sampler.View()), old(env.faults), cancel, r.failure)
      ensures r.Ok? ==> stages.FramesFit(Min(chunk, |eval0|))
      ensures r.Ok? && txn.kind == Speculative && env.faults == old(env.faults) ==>
                stages.Drafted(txn.baseTarget, txn.epoch, eval0[0], eval)
      ensures r.Ok? ==> AtRest()
      ensures r.Ok? && cancel != null ==> cancel.state == Sealed
      ensures r.Ok? ==>
                Made(txn.kind, txn.baseTarget, |eval0|, eval, r.value, old(engine.frontiers), old(sampler.View()))
    {
      r, eval := Attempt(txn, eval0, chunk, cancel);
      if r.Err? { Recover(txn, r.failure); }
    }

    /** A failure that touched nothing leaves a healthy executor healthy. */
    twostate lemma StillQuiescent()
      requires Wired() && old(Quiescent()) && AsBefore(old(engine.frontiers), old(sampler.View()))
      requires tokens == old(tokens) && lastSample == old(lastSample) && haveLastSample == old(haveLastSample)
      ensures Quiescent() && Untouched()
    {
    }

    /** Everything that can turn a transaction away before it is open, then opening it. */
    method Admit(kind: TxnKind, eval: seq<Token>, chunk: nat, cancel: CancellationToken?, appended: nat)
      returns (r: Result<Txn>)
      requires Resting() && TokenValid(cancel) && |eval| <= U32_MAX && appended <= U32_MAX
      modifies engine, cancel
      ensures TokenValid(cancel)
      ensures r.Err? ==> engine.View() == old(engine.View())
      ensures r.Err? ==> Unopened(poisoned, old(engine.frontiers), kind, eval, chunk, appended, cancel, r.failure)
      ensures r.Ok? ==> !poisoned && Opened(old(engine.frontiers), r.value, kind, eval, chunk, appended)
    {
      if poisoned { return Err(RuntimeError); }
      var stop := stages.CheckCancel(cancel);
      if stop.Some? { return Err(stop.value); }
      if eval == [] || chunk == 0 { return Err(InvalidArgument); }
      if kind == Speculative && (chunk != 1 || |eval| < 2) { return Err(InvalidArgument); }
      r := Open(kind, eval, chunk, appended);
    }

    /** The transaction is open, and the frontiers are those before except for what it appends. */
    ghost predicate Opened(before: Frontiers, txn: Txn, kind: TxnKind, eval: seq<Token>, chunk: nat, appended: nat)
      reads engine, sampler, worker0, worker1
    {
      && Begun(txn, eval, chunk) && txn.kind == kind && txn.baseCanonical == before.canonical
      && engine.frontiers == before.(canonical := before.canonical + if kind == AppendKnown then appended else 0)
      && (kind == AppendKnown ==> |eval| == appended + (before.canonical - before.target))
      && !Refused(before, kind, |eval|, appended) && txn.baseTarget == before.target && txn.epoch == before.epoch + 1
    }

    method Open(kind: TxnKind, eval: seq<Token>, chunk: nat, appended: nat) returns (r: Result<Txn>)
      requires Resting() && !poisoned && 0 < |eval| <= U32_MAX && appended <= U32_MAX && 0 < chunk
      requires kind == Speculative ==> chunk == 1 && 1 < |eval|
      modifies engine
      ensures r.Err? ==>
                && engine.View() == old(engine.View()) && r.failure == RuntimeError
                && Refused(old(engine.frontiers), kind, |eval|, appended)
      ensures r.Ok? ==> Opened(old(engine.frontiers), r.value, kind, eval, chunk, appended)
    {
      var prepared;
      if kind == AppendKnown {
        prepared := engine.PrepareAppendKnown(appended, |eval|);
      } else {
        prepared := engine.Prepare(kind, |eval|);
      }
      if !prepared { return Err(RuntimeError); }
      r := Ok(engine.txn);
    }

    /** The exception handlers: roll an open transaction back, and close the executor after a
        failure that is neither a cancellation nor a deadline if failures are fatal. */
    method Recover(txn: Txn, failure: Failure)
      requires Wired()
      requires engine.active ==> stages.BothRecoverable(txn) && Inv(engine.View()) && engine.txn.epoch == txn.epoch
      requires !engine.active ==> poisoned
      modifies this`poisoned, engine, worker0, worker1, env
      ensures old(env.faults) <= env.faults
      ensures poisoned ==> old(poisoned) || old(env.faults) < env.faults || Fatal(failure)
      ensures Fatal(failure) ==> poisoned
      ensures !poisoned ==>
                && old(engine.active) && !engine.active && Inv(engine.View())
                && engine.frontiers == RolledBackFrontiers(old(engine.frontiers), old(engine.txn))
                && Idle(worker0.View(), txn.baseTarget, txn.epoch) && Idle(worker1.View(), txn.baseTarget, txn.epoch)
    {
      if engine.active { RollbackPrepared(txn); }
      if Fatal(failure) { poisoned := true; }
    }

    predicate Fatal(failure: Failure) {
      options.failureIsFatal && failure != Cancelled && failure != DeadlineExceeded
    }

    lemma RecoverableExtents(txn: Txn, eval: seq<Token>, k: nat)
      requires Wired() && Extents(worker1.m, worker0.View(), worker1.View(), txn, eval, k)
      ensures stages.BothRecoverable(txn)
    {
      InFlightFacts(worker1.m, Stage1, worker1.View(), txn, eval[..k]);
      if k < |eval| {
        InFlightFacts(worker1.m, Stage0, worker0.View(), txn, eval[..k + 1]);
      } else {
        InFlightFacts(worker1.m, Stage0, worker0.View(), txn, eval);
      }
    }

    // -------------------------------------------------------------------------
    // The client operations.
    // -------------------------------------------------------------------------

    /** The bookkeeping after a committed transaction: the canonical list, the penalty state
        and the last sample catch up with the coordinator. */
    method ExtendTokens(ids: seq<Token>, last: Token, ghost before: Session)
      requires Wired() && sampler.Valid() && AtRest() && tokens == before.tokens
      requires WellFormed(sampler.m, before) && InVocabulary(ids, options.vocabulary) && 0 <= last < options.vocabulary
      requires SamplerFollows(before.sampler, before.tokens)
      requires ids != [] && |before.tokens| + |ids| == engine.frontiers.canonical <= options.contextLimit
      requires engine.frontiers.canonical <= engine.frontiers.target + 1
      requires sampler.View() == Drawn(sampler.m, before.sampler)
      modifies this`tokens, this`lastSample, this`haveLastSample, sampler
      ensures Quiescent() && sampler.Valid()
      ensures tokens == before.tokens + ids && lastSample == last && haveLastSample
      ensures sampler.View() == CountedAll(sampler.m, Drawn(sampler.m, before.sampler), ids)
    {
      FollowsOn(before.sampler, before.tokens, ids);
      tokens := tokens + ids;
      var _ := sampler.CommitTokens(ids);
      lastSample, haveLastSample := last, true;
    }

    /** Drawing once and counting more tokens keeps the sampler's state what the tokens say. */
    lemma FollowsOn(s: SamplerState, tokens: seq<Token>, ids: seq<Token>)
      requires SamplerFollows(s, tokens) && InVocabulary(ids, sampler.m.vocabulary)
      requires |s.counts| == sampler.m.vocabulary
      ensures SamplerFollows(CountedAll(sampler.m, Drawn(sampler.m, s), ids), tokens + ids)
    {
      var d := Drawn(sampler.m, s);
      var start := Initial(sampler.m).(rng := d.rng, sampledTokens := d.sampledTokens);
      CountedAllRng(sampler.m, Initial(sampler.m).(rng := s.rng, sampledTokens := s.sampledTokens), tokens,
                    d.rng, d.sampledTokens);
      CountedAllConcat(sampler.m, start, tokens, ids);
    }

    /** Appends known tokens, evaluating whatever was still pending first. */
    method Append(ids: seq<Token>, cancel: CancellationToken?) returns (r: Result<()>)
      requires Valid() && TokenValid(cancel)
      modifies this, engine, sampler, worker0, worker1, env, cancel
      ensures Valid() && TokenValid(cancel) && old(env.faults) <= env.faults
      ensures (old(poisoned) ==> r.Err? && poisoned) && (r.Err? ==> tokens == old(tokens))
      ensures r.Err? && !poisoned ==> Untouched()
      ensures poisoned ==> r.Err? && (old(poisoned) || old(env.faults) < env.faults || options.failureIsFatal)
      ensures old(poisoned) ==> r == Err(RuntimeError)
      ensures r.Err? ==>
                || old(poisoned) || old(env.faults) < env.faults || Blames(cancel, r.failure)
                || AppendRefusal(old(Current()), old(engine.frontiers.epoch), ids) == Some(r.failure)
      ensures r.Ok? ==>
                && AppendRefusal(old(Current()), old(engine.frontiers.epoch), ids) == None
                && Draws() && engine.frontiers.epoch == old(engine.frontiers.epoch) + 1
      ensures r.Ok? ==>
                && !poisoned && ids != [] && InVocabulary(ids, options.vocabulary)
                && AppendSample(worker1.m, sampler.m, old(Current()), ids).Some?
                && Current() == AfterAppend(sampler.m, old(Current()), ids,
                                            AppendSample(worker1.m, sampler.m, old(Current()), ids).value)
      ensures r.Ok? && cancel != null ==> cancel.state == Sealed
    {
      if poisoned { return Err(RuntimeError); }
      var stop := stages.CheckCancel(cancel);
      if stop.Some? { return Err(stop.value); }
      if ids == [] { return Err(InvalidArgument); }
      var inside := CheckTokens(ids);
      if !inside { return Err(InvalidArgument); }
      if |ids| > options.contextLimit - Min(engine.frontiers.canonical, options.contextLimit) {
        return Err(LengthError);
      }
      r := AppendChecked(ids, cancel);
    }

    method CheckTokens(ids: seq<Token>) returns (inside: bool)
      ensures inside <==> InVocabulary(ids, options.vocabulary)
    {
      for i := 0 to |ids|
        invariant InVocabulary(ids[..i], options.vocabulary)
      {
        if ids[i] < 0 || ids[i] >= options.vocabulary { return false; }
      }
      assert ids[..|ids|] == ids;
      inside := true;
    }

    method AppendChecked(ids: seq<Token>, cancel: CancellationToken?) returns (r: Result<()>)
      requires Valid() && TokenValid(cancel) && !poisoned
      requires ids != [] && InVocabulary(ids, options.vocabulary) && |tokens| + |ids| <= options.contextLimit
      modifies this, engine, sampler, worker0, worker1, env, cancel
      ensures Valid() && TokenValid(cancel) && old(env.faults) <= env.faults
      ensures (old(poisoned) ==> r.Err? && poisoned) && (r.Err? ==> tokens == old(tokens))
      ensures r.Err? && !poisoned ==> Untouched()
      ensures poisoned ==> r.Err? && (old(env.faults) < env.faults || options.failureIsFatal)
      ensures r.Err? ==>
                || old(env.faults) < env.faults || Blames(cancel, r.failure)
                || AppendRefusal(old(Current()), old(engine.frontiers.epoch), ids) == Some(r.failure)
      ensures r.Ok? ==>
                && AppendRefusal(old(Current()), old(engine.frontiers.epoch), ids) == None
                && engine.frontiers.epoch == old(engine.frontiers.epoch) + 1
      ensures r.Ok? ==>
                && AppendSample(worker1.m, sampler.m, old(Current()), ids).Some?
                && Current() == AfterAppend(sampler.m, old(Current()), ids,
                                            AppendSample(worker1.m, sampler.m, old(Current()), ids).value)
      ensures r.Ok? && cancel != null ==> cancel.state == Sealed
    {
      ghost var before := Current();
      var next := RunAppend(ids, cancel);
      if next.Err? {
        if !poisoned { StillQuiescent(); }
        return Err(next.failure);
      }
      ExtendTokens(ids, next.value, before);
      r := Ok(());
    }

    /** The transaction of an append; the canonical list still lacks the new tokens. */
    method RunAppend(ids: seq<Token>, cancel: CancellationToken?) returns (r: Result<Token>)
      requires Valid() && TokenValid(cancel) && !poisoned
      requires ids != [] && InVocabulary(ids, options.vocabulary) && |tokens| + |ids| <= options.contextLimit
      modifies this`poisoned, engine, sampler, worker0, worker1, env, cancel
      ensures sampler.Valid() && TokenValid(cancel) && old(env.faults) <= env.faults
      ensures r.Err? && !poisoned ==> AsBefore(old(engine.frontiers), old(sampler.View()))
      ensures poisoned ==> r.Err? && (old(env.faults) < env.faults || options.failureIsFatal)
      ensures r.Err? ==>
                || old(env.faults) < env.faults || Blames(cancel, r.failure)
                || AppendRefusal(old(Current()), old(engine.frontiers.epoch), ids) == Some(r.failure)
      ensures r.Ok? ==> AppendRefusal(old(Current()), old(engine.frontiers.epoch), ids) == None
      ensures r.Ok? ==>
                && AtRest() && sampler.View() == Drawn(sampler.m, old(sampler.View()))
                && engine.frontiers.epoch == old(engine.frontiers.epoch) + 1
                && engine.frontiers.canonical == engine.frontiers.target == |tokens| + |ids|
                && engine.frontiers.draft == old(engine.frontiers.draft)
                && AppendSample(worker1.m, sampler.m, old(Current()), ids) == Some(r.value)
      ensures r.Ok? && cancel != null ==> cancel.state == Sealed
    {
      AppendRows(sampler.m, Current(), ids);
      ghost var before, f := Current(), engine.frontiers;
      var evaluated := RowsToEvaluate(ids);
      var result, eval := RunTransaction(AppendKnown, evaluated, options.appendChunk, cancel, |ids|);
      if result.Err? {
        AppendFailure(before, f, ids, old(env.faults), cancel, result.failure);
        return Err(result.failure);
      }
      r := Ok(result.value.nextToken);
    }

    /** What turns the transaction of a checked append away is a refusal of the append. */
    lemma AppendFailure(s: Session, f: Frontiers, ids: seq<Token>, calm: nat, cancel: CancellationToken?,
                        failure: Failure)
      requires Wired() && WellFormed(sampler.m, s) && f.canonical == |s.tokens| && f.target == s.target
      requires ids != [] && InVocabulary(ids, options.vocabulary) && |s.tokens| + |ids| <= options.contextLimit
      requires var rows := AppendEval(s, ids);
               || Unopened(false, f, AppendKnown, rows, options.appendChunk, |ids|, cancel, failure)
               || (rows != []
                   && Unmade(AppendKnown, s.target, rows, options.appendChunk, s.sampler, calm, cancel, failure))
      ensures || calm < env.faults || Blames(cancel, failure)
              || AppendRefusal(s, f.epoch, ids) == Some(failure)
    {
      AppendRows(sampler.m, s, ids);
    }

    method RowsToEvaluate(ids: seq<Token>) returns (evaluated: seq<Token>)
      requires engine.frontiers.target <= engine.frontiers.canonical == |tokens| <= engine.frontiers.target + 1
      ensures evaluated == AppendEval(Current(), ids)
    {
      var f := engine.frontiers;
      evaluated := (if f.canonical - f.target == 1 then [tokens[f.target]] else []) + ids;
    }

    /** Publishes the sample an append prepared, without evaluating anything. */
    method SeedDecode(cancel: CancellationToken?) returns (r: Result<Token>)
      requires Valid() && TokenValid(cancel)
      modifies this, engine, sampler, cancel
      ensures Valid() && TokenValid(cancel) && poisoned == old(poisoned)
      ensures (old(poisoned) ==> r.Err? && poisoned) && (r.Err? ==> tokens == old(tokens))
      ensures r.Err? ==> Untouched()
      ensures r.Err? <==> poisoned || Interrupted(cancel) || SeedRefusal(old(Current())).Some?
      ensures r.Err? ==>
                || (poisoned && r.failure == RuntimeError) || Blames(cancel, r.failure)
                || SeedRefusal(old(Current())) == Some(r.failure)
      ensures r.Ok? ==>
                && r.value == old(lastSample) && 0 <= r.value < options.vocabulary
                && engine.frontiers.epoch == old(engine.frontiers.epoch)
                && Current() == AfterSeed(sampler.m, old(Current()))
      ensures r.Ok? && cancel != null ==> cancel.state == Sealed
    {
      if poisoned { return Err(RuntimeError); }
      var stop := stages.CheckAndSeal(cancel);
      if stop.Some? { return Err(stop.value); }
      if !haveLastSample { return Err(RuntimeError); }
      if engine.frontiers.canonical >= options.contextLimit { return Err(LengthError); }
      if engine.frontiers.canonical != engine.frontiers.target { return Err(RuntimeError); }
      PublishSeed();
      r := Ok(lastSample);
    }

    method PublishSeed()
      requires Valid() && !poisoned && haveLastSample && |tokens| == engine.frontiers.target < options.contextLimit
      modifies this`tokens, engine, sampler
      ensures Valid() && Current() == AfterSeed(sampler.m, old(Current()))
      ensures engine.frontiers.epoch == old(engine.frontiers.epoch)
    {
      CountedAllConcat(sampler.m, Initial(sampler.m).(rng := sampler.rngState, sampledTokens := sampler.sampledTokens),
                       tokens, [lastSample]);
      assert CountedAll(sampler.m, sampler.View(), []) == sampler.View();
      assert CountedAll(sampler.m, sampler.View(), [lastSample]) == Counted(sampler.m, sampler.View(), lastSample);
      var _ := engine.SeedDecodePending();
      tokens := tokens + [lastSample];
      var _ := sampler.CommitToken(lastSample);
    }

    /** Evaluates the pending token and publishes the next one. */
    method DecodeOne(cancel: CancellationToken?) returns (r: Result<seq<Token>>)
      requires Valid() && TokenValid(cancel)
      modifies this, engine, sampler, worker0, worker1, env, cancel
      ensures Valid() && TokenValid(cancel) && old(env.faults) <= env.faults
      ensures (old(poisoned) ==> r.Err? && poisoned) && (r.Err? ==> tokens == old(tokens))
      ensures r.Err? && !poisoned ==> Untouched()
      ensures poisoned ==> r.Err? && (old(poisoned) || old(env.faults) < env.faults || options.failureIsFatal)
      ensures old(poisoned) ==> r == Err(RuntimeError)
      ensures r.Err? ==>
                || old(poisoned) || old(env.faults) < env.faults || Blames(cancel, r.failure)
                || DecodeRefusal(old(Current()), old(engine.frontiers.epoch)) == Some(r.failure)
      ensures r.Ok? ==>
                && DecodeRefusal(old(Current()), old(engine.frontiers.epoch)) == None
                && Draws() && engine.frontiers.epoch == old(engine.frontiers.epoch) + 1
      ensures r.Ok? ==>
                && HasPending(sampler.m, old(Current())) && NextToken(worker1.m, sampler.m, old(Current())).Some?
                && r.value == [NextToken(worker1.m, sampler.m, old(Current())).value]
                && Current() == PlainDecode(worker1.m, sampler.m, old(Current()))
      ensures r.Ok? && cancel != null ==> cancel.state == Sealed
    {
      if poisoned { return Err(RuntimeError); }
      var f := engine.frontiers;
      if f.canonical - f.target != 1 { return Err(RuntimeError); }
      if f.canonical >= options.contextLimit { return Err(LengthError); }
      ghost var before := Current();
      var next := RunDecode(cancel);
      if next.Err? {
        if !poisoned { StillQuiescent(); }
        return Err(next.failure);
      }
      ExtendTokens([next.value], next.value, before);
      r := Ok([next.value]);
    }

    method RunDecode(cancel: CancellationToken?) returns (r: Result<Token>)
      requires Valid() && TokenValid(cancel) && !poisoned
      requires |tokens| == engine.frontiers.target + 1 && |tokens| < options.contextLimit
      modifies this`poisoned, engine, sampler, worker0, worker1, env, cancel
      ensures sampler.Valid() && TokenValid(cancel) && old(env.faults) <= env.faults
      ensures r.Err? && !poisoned ==> AsBefore(old(engine.frontiers), old(sampler.View()))
      ensures poisoned ==> r.Err? && (old(env.faults) < env.faults || options.failureIsFatal)
      ensures r.Err? ==>
                || old(env.faults) < env.faults || Blames(cancel, r.failure)
                || DecodeRefusal(old(Current()), old(engine.frontiers.epoch)) == Some(r.failure)
      ensures r.Ok? ==> DecodeRefusal(old(Current()), old(engine.frontiers.epoch)) == None
      ensures r.Ok? ==>
                && AtRest() && sampler.View() == Drawn(sampler.m, old(sampler.View()))
                && engine.frontiers.epoch == old(engine.frontiers.epoch) + 1
                && engine.frontiers.canonical == engine.frontiers.target + 1 == |tokens| + 1
                && engine.frontiers.draft == engine.frontiers.target
                && NextToken(worker1.m, sampler.m, old(Current())) == Some(r.value)
      ensures r.Ok? && cancel != null ==> cancel.state == Sealed
    {
      var eval := [tokens[engine.frontiers.target]];
      var result, _ := RunTransaction(TxnKind.Decode, eval, 1, cancel, 0);
      r := if result.Err? then Err(result.failure) else Ok(result.value.nextToken);
    }

    /** Row 0 is the pending token, the draft follows. What is published are the drafted tokens up to
        the first one that is a stop token or not the prediction from the row before it, and then
        the prediction from the last row kept. */
    ghost predicate KeepsLongest(s: Session, draft: seq<Token>, published: seq<Token>) {
      && |s.tokens| == s.target + 1 && 1 <= |published| <= |draft| + 1
      && var k, rows := |published|, [s.tokens[s.target]] + draft;
         && (forall i :: 1 <= i < k ==>
               published[i - 1] == rows[i] == worker1.m.Predict(rows[i - 1], s.target + i) && rows[i] !in options.stops)
         && (k < |rows| ==> rows[k] != worker1.m.Predict(rows[k - 1], s.target + k) || rows[k] in options.stops)
         && (!sampler.m.sampled ==> published[k - 1] == worker1.m.Predict(rows[k - 1], s.target + k))
    }

    /** Where no drafted token is a stop token, the depth of the draft decides alone. */
    lemma StepDepth(s: Session, draft: seq<Token>, published: seq<Token>, c: nat)
      requires KeepsLongest(s, draft, published)
      requires AcceptedPrefix(worker1.m, [s.tokens[s.target]] + draft, s.target, c)
      requires forall i :: 0 <= i < |draft| ==> draft[i] !in options.stops
      ensures |published| == c
    {
      var rows := [s.tokens[s.target]] + draft;
      assert forall i :: 1 <= i < |rows| ==> rows[i] == draft[i - 1];
    }

    /** A step keeps the longest right part of its draft, and leaves the session of as many plain
        decodes as it publishes tokens. */
    ghost predicate StepResult(before: Session, after: Session, draft: seq<Token>, published: seq<Token>)
      requires worker1.m.vocabulary == sampler.m.vocabulary
    {
      && HasPending(sampler.m, before) && KeepsLongest(before, draft, published)
      && after.tokens == before.tokens + published
      && (forall i :: 0 <= i < |published| - 1 ==> published[i] !in options.stops)
      && if sampler.m.sampled
         then
           && NextToken(worker1.m, sampler.m, before).Some?
           && after == PlainDecode(worker1.m, sampler.m, before)
         else after == PlainDecodes(worker1.m, sampler.m, before, |published|)
    }

    /** The draft is the drafter's answer for the pending token. */
    ghost predicate DraftedBehind(s: Session, epoch: nat, draft: seq<Token>) {
      s.target < |s.tokens| && draft == worker1.m.Draft(s.tokens[s.target], s.target, |draft|, epoch + 1)
    }

    /** Drafts up to `maxDraft` tokens, verifies them in one transaction, and publishes the
        accepted ones plus one more: the same tokens, one by one, that plain decoding publishes. */
    method SpeculativeStep(maxDraft: nat, cancel: CancellationToken?)
      returns (r: Result<seq<Token>>, ghost draft: seq<Token>)
      requires Valid() && TokenValid(cancel)
      modifies this, engine, sampler, worker0, worker1, env, cancel
      ensures Valid() && TokenValid(cancel) && old(env.faults) <= env.faults
      ensures (old(poisoned) ==> r.Err? && poisoned) && (r.Err? ==> tokens == old(tokens))
      ensures r.Err? && !poisoned ==> Untouched()
      ensures poisoned ==> r.Err? && (old(poisoned) || old(env.faults) < env.faults || options.failureIsFatal)
      ensures old(poisoned) ==> r == Err(RuntimeError)
      ensures r.Err? ==>
                || old(poisoned) || old(env.faults) < env.faults || Blames(cancel, r.failure)
                || StepRefusal(old(Current()), old(engine.frontiers.epoch), maxDraft) == Some(r.failure)
      ensures r.Ok? ==>
                && StepRefusal(old(Current()), old(engine.frontiers.epoch), maxDraft) == None
                && Draws() && engine.frontiers.epoch == old(engine.frontiers.epoch) + 1
      ensures r.Ok? ==>
                && |draft| == (if sampler.m.sampled then 0 else Min(maxDraft, options.contextLimit - |old(tokens)| - 1))
                && StepResult(old(Current()), Current(), draft, r.value)
      ensures r.Ok? && env.faults == old(env.faults) ==>
                DraftedBehind(old(Current()), old(engine.frontiers.epoch), draft)
      ensures r.Ok? && cancel != null ==> cancel.state == Sealed
    {
      draft := [];
      if poisoned { return Err(RuntimeError), []; }
      var stop := stages.CheckCancel(cancel);
      if stop.Some? { return Err(stop.value), []; }
      if maxDraft > MAX_DRAFT_WIDTH { return Err(InvalidArgument), []; }
      if sampler.m.sampled || maxDraft == 0 {
        r := DecodeAsStep(cancel);
        return;
      }
      var f := engine.frontiers;
      if f.canonical - f.target != 1 { return Err(RuntimeError), []; }
      if f.canonical >= options.contextLimit { return Err(LengthError), []; }
      var width := Min(maxDraft, options.contextLimit - f.canonical - 1);
      if width == 0 {
        r := DecodeAsStep(cancel);
        return;
      }
      r, draft := SpeculateChecked(width, cancel);
    }

    /** Plain decoding, stated the way a speculative step of width zero is. */
    method DecodeAsStep(cancel: CancellationToken?) returns (r: Result<seq<Token>>)
      requires Valid() && TokenValid(cancel)
      modifies this, engine, sampler, worker0, worker1, env, cancel
      ensures Valid() && TokenValid(cancel) && old(env.faults) <= env.faults
      ensures (old(poisoned) ==> r.Err? && poisoned) && (r.Err? ==> tokens == old(tokens))
      ensures r.Err? && !poisoned ==> Untouched()
      ensures poisoned ==> r.Err? && (old(poisoned) || old(env.faults) < env.faults || options.failureIsFatal)
      ensures old(poisoned) ==> r == Err(RuntimeError)
      ensures r.Err? ==>
                || old(poisoned) || old(env.faults) < env.faults || Blames(cancel, r.failure)
                || DecodeRefusal(old(Current()), old(engine.frontiers.epoch)) == Some(r.failure)
      ensures r.Ok? ==>
                && DecodeRefusal(old(Current()), old(engine.frontiers.epoch)) == None
                && Draws() && engine.frontiers.epoch == old(engine.frontiers.epoch) + 1
      ensures r.Ok? ==> StepResult(old(Current()), Current(), [], r.value)
      ensures r.Ok? && cancel != null ==> cancel.state == Sealed
    {
      ghost var before := Current();
      r := DecodeOne(cancel);
      if r.Ok? && !sampler.m.sampled {
        assert PlainDecodes(worker1.m, sampler.m, before, 0) == before;
      }
    }

    method SpeculateChecked(width: nat, cancel: CancellationToken?)
      returns (r: Result<seq<Token>>, ghost draft: seq<Token>)
      requires Valid() && TokenValid(cancel) && !poisoned && !sampler.m.sampled
      requires |tokens| == engine.frontiers.target + 1 && 1 <= width && |tokens| + width + 1 <= options.contextLimit
      modifies this, engine, sampler, worker0, worker1, env, cancel
      ensures Valid() && TokenValid(cancel) && old(env.faults) <= env.faults
      ensures (old(poisoned) ==> r.Err? && poisoned) && (r.Err? ==> tokens == old(tokens))
      ensures r.Err? && !poisoned ==> Untouched()
      ensures poisoned ==> r.Err? && (old(env.faults) < env.faults || options.failureIsFatal)
      ensures r.Err? ==>
                || old(env.faults) < env.faults || Blames(cancel, r.failure)
                || DecodeRefusal(old(Current()), old(engine.frontiers.epoch)) == Some(r.failure)
      ensures r.Ok? ==> DecodeRefusal(old(Current()), old(engine.frontiers.epoch)) == None
      ensures r.Ok? ==> |draft| == width && StepResult(old(Current()), Current(), draft, r.value) && Draws()
      ensures r.Ok? ==> engine.frontiers.epoch == old(engine.frontiers.epoch) + 1
      ensures r.Ok? && env.faults == old(env.faults) ==>
                DraftedBehind(old(Current()), old(engine.frontiers.epoch), draft)
      ensures r.Ok? && cancel != null ==> cancel.state == Sealed
    {
      ghost var before := Current();
      var result, eval := RunSpeculative(width, cancel);
      if result.Err? {
        if !poisoned { StillQuiescent(); }
        return Err(result.failure), [];
      }
      draft := eval[1..];
      var published := PublishRows(eval, result.value.event.newlyPublished, result.value.nextToken, before);
      r := Ok(published);
    }

    /** Publishes the rows that were kept and the token behind them. */
    method PublishRows(eval: seq<Token>, k: nat, next: Token, ghost before: Session) returns (published: seq<Token>)
      requires Wired() && sampler.Valid() && AtRest() && tokens == before.tokens && !sampler.m.sampled && !poisoned
      requires HasPending(sampler.m, before) && 0 < |eval| && eval[0] == before.tokens[before.target]
      requires Chosen(Speculative, before.target, eval, k, next, before.sampler)
      requires SamplerFollows(before.sampler, before.tokens)
      requires |before.tokens| + k == engine.frontiers.canonical <= options.contextLimit
      requires engine.frontiers.draft == engine.frontiers.target == before.target + k
      requires sampler.View() == before.sampler
      modifies this`tokens, this`lastSample, this`haveLastSample, sampler
      ensures Valid() && StepResult(before, Current(), eval[1..], published)
      ensures sampler.rngState == before.sampler.rng && sampler.sampledTokens == before.sampler.sampledTokens
    {
      KeptRows(before, eval, k, next);
      published := Publication(eval, k, next);
      PublishChain(published, eval[1..], before);
    }

    method PublishChain(chain: seq<Token>, ghost draft: seq<Token>, ghost before: Session)
      requires Wired() && sampler.Valid() && AtRest() && tokens == before.tokens && !sampler.m.sampled && !poisoned
      requires HasPending(sampler.m, before) && ChainKept(before, draft, chain)
      requires SamplerFollows(before.sampler, before.tokens)
      requires |before.tokens| + |chain| == engine.frontiers.canonical <= options.contextLimit
      requires engine.frontiers.draft == engine.frontiers.target == before.target + |chain|
      requires sampler.View() == before.sampler
      modifies this`tokens, this`lastSample, this`haveLastSample, sampler
      ensures Valid() && StepResult(before, Current(), draft, chain)
      ensures sampler.rngState == before.sampler.rng && sampler.sampledTokens == before.sampler.sampledTokens
    {
      ExtendTokens(chain, chain[|chain| - 1], before);
      assert Current() == Publish(sampler.m, before, chain);
      ChainIsPlainDecodes(worker1.m, sampler.m, before, chain);
    }

    /** What a verified draft is good for. */
    ghost predicate ChainKept(s: Session, draft: seq<Token>, chain: seq<Token>) {
      && KeepsLongest(s, draft, chain) && GreedyChain(worker1.m, s, chain) && InVocabulary(chain, options.vocabulary)
      && (forall i :: 0 <= i < |chain| - 1 ==> chain[i] !in options.stops)
    }

    /** The transaction of a speculative step. */
    method RunSpeculative(width: nat, cancel: CancellationToken?) returns (r: Result<PairResult>, eval: seq<Token>)
      requires Valid() && TokenValid(cancel) && !poisoned && !sampler.m.sampled
      requires |tokens| == engine.frontiers.target + 1 && 1 <= width && |tokens| + width + 1 <= options.contextLimit
      modifies this`poisoned, engine, sampler, worker0, worker1, env, cancel
      ensures sampler.Valid() && TokenValid(cancel) && old(env.faults) <= env.faults
      ensures |eval| == width + 1 && eval[0] == tokens[old(engine.frontiers.target)]
      ensures r.Err? && !poisoned ==> AsBefore(old(engine.frontiers), old(sampler.View()))
      ensures poisoned ==> r.Err? && (old(env.faults) < env.faults || options.failureIsFatal)
      ensures r.Err? ==>
                || old(env.faults) < env.faults || Blames(cancel, r.failure)
                || DecodeRefusal(old(Current()), old(engine.frontiers.epoch)) == Some(r.failure)
      ensures r.Ok? ==> DecodeRefusal(old(Current()), old(engine.frontiers.epoch)) == None
      ensures r.Ok? && env.faults == old(env.faults) ==>
                DraftedBehind(old(Current()), old(engine.frontiers.epoch), eval[1..])
      ensures r.Ok? ==>
                var k := r.value.event.newlyPublished;
                && Chosen(Speculative, old(engine.frontiers.target), eval, k, r.value.nextToken, old(sampler.View()))
                && AtRest() && sampler.View() == old(sampler.View()) && engine.frontiers.canonical == |tokens| + k
                && engine.frontiers.epoch == old(engine.frontiers.epoch) + 1
                && engine.frontiers.draft == engine.frontiers.target == old(engine.frontiers.target) + k
      ensures r.Ok? && cancel != null ==> cancel.state == Sealed
    {
      ghost var before, f := Current(), engine.frontiers;
      var eval0 := [tokens[engine.frontiers.target]] + seq(width, i => 0);
      r, eval := RunTransaction(Speculative, eval0, 1, cancel, 0);
      if r.Err? {
        StepFailure(before, f, eval0, old(env.faults), cancel, r.failure);
      } else if env.faults == old(env.faults) {
        DraftOfRows(before, f.epoch, eval);
      }
    }

    lemma DraftOfRows(s: Session, epoch: nat, eval: seq<Token>)
      requires Wired() && s.target < |s.tokens| && stages.Drafted(s.target, epoch + 1, s.tokens[s.target], eval)
      ensures DraftedBehind(s, epoch, eval[1..])
    {
    }

    /** What turns a speculative transaction away is a refusal of the decode. */
    lemma StepFailure(s: Session, f: Frontiers, rows: seq<Token>, calm: nat, cancel: CancellationToken?,
                      failure: Failure)
      requires Wired() && !sampler.m.sampled && f.canonical == |s.tokens| == s.target + 1 && f.target == s.target
      requires |s.tokens| < options.contextLimit && 1 < |rows|
      requires || Unopened(false, f, Speculative, rows, 1, 0, cancel, failure)
               || Unmade(Speculative, s.target, rows, 1, s.sampler, calm, cancel, failure)
      ensures calm < env.faults || Blames(cancel, failure) || DecodeRefusal(s, f.epoch) == Some(failure)
    {
    }

    method Publication(eval: seq<Token>, k: nat, next: Token) returns (published: seq<Token>)
      requires 1 <= k <= |eval|
      ensures published == eval[1..k] + [next]
    {
      published := [];
      for i := 1 to k
        invariant published == eval[1..i]
      {
        published := published + [eval[i]];
      }
      published := published + [next];
    }

    lemma KeptRows(s: Session, eval: seq<Token>, k: nat, next: Token)
      requires Wired() && |s.tokens| == s.target + 1 && 0 < |eval| && eval[0] == s.tokens[s.target]
      requires Chosen(Speculative, s.target, eval, k, next, s.sampler)
      ensures ChainKept(s, eval[1..], eval[1..k] + [next])
    {
      SpeculativeChain(worker1.m, options.stops, s, eval, k, next);
      var rows, published := [s.tokens[s.target]] + eval[1..], eval[1..k] + [next];
      assert rows == eval;
      forall i | 1 <= i < k
        ensures published[i - 1] == rows[i] == worker1.m.Predict(rows[i - 1], s.target + i)
        ensures rows[i] !in options.stops
      {
        assert Accepted(worker1.m, s.target, options.stops, eval, i);
      }
    }

    /** Why an append is turned down, and the exception that says so: no or bad tokens, no room, or
        no epoch left, rows that cannot be framed, a sampler without a candidate. */
    function AppendRefusal(s: Session, epoch: nat, ids: seq<Token>): Option<Failure>
      requires worker1.m.vocabulary == sampler.m.vocabulary
    {
      if ids == [] || !InVocabulary(ids, options.vocabulary) then Some(InvalidArgument)
      else if |s.tokens| + |ids| > options.contextLimit then Some(LengthError)
      else if epoch == U64_MAX || !stages.FramesFit(Min(options.appendChunk, |AppendEval(s, ids)|))
              || AppendSample(worker1.m, sampler.m, s, ids).None?
      then Some(RuntimeError)
      else None
    }

    /** Why a decode is turned down: no pending token, no room, or the same as for an append. */
    function DecodeRefusal(s: Session, epoch: nat): Option<Failure>
      requires worker1.m.vocabulary == sampler.m.vocabulary
    {
      if |s.tokens| != s.target + 1 then Some(RuntimeError)
      else if |s.tokens| >= options.contextLimit then Some(LengthError)
      else if epoch == U64_MAX || !stages.FramesFit(1) || NextToken(worker1.m, sampler.m, s).None?
      then Some(RuntimeError)
      else None
    }

    /** And a speculative step, which also has a largest width. */
    function StepRefusal(s: Session, epoch: nat, maxDraft: nat): Option<Failure>
      requires worker1.m.vocabulary == sampler.m.vocabulary
    {
      if maxDraft > MAX_DRAFT_WIDTH then Some(InvalidArgument) else DecodeRefusal(s, epoch)
    }

    /** And the publication of a prepared sample. */
    function SeedRefusal(s: Session): Option<Failure> {
      if !s.haveLastSample then Some(RuntimeError)
      else if |s.tokens| >= options.contextLimit then Some(LengthError)
      else if |s.tokens| != s.target then Some(RuntimeError)
      else None
    }

    /** The generator moves one step exactly in a sampled session. */
    twostate predicate Draws() reads sampler {
      && sampler.rngState ==
           (if sampler.m.sampled then sampler.m.nextRng(old(sampler.rngState)) else old(sampler.rngState))
      && sampler.sampledTokens == old(sampler.sampledTokens) + if sampler.m.sampled then 1 else 0
    }

    /** Drops the session. A reset that one stage completed and the other did not cannot be
        undone, so any failure closes the executor. */
    method ResetSession() returns (r: Result<()>)
      requires Valid()
      modifies this, engine, sampler, worker0, worker1, env
      ensures Valid() && old(env.faults) <= env.faults
      ensures (old(poisoned) ==> r.Err? && poisoned) && (r.Err? ==> tokens == old(tokens))
      ensures r.Err? <==> poisoned
      ensures r.Err? ==> old(poisoned) || old(env.faults) < env.faults
      ensures r.Ok? ==>
                && Current() == Session([], 0, 0, -1, false, Initial(sampler.m))
                && engine.frontiers == ZERO_FRONTIERS
    {
      if poisoned { return Err(RuntimeError); }
      r := ResetStages();
      if r.Err? { return; }
      var _ := engine.Reset();
      sampler.Reset();
      tokens, lastSample, haveLastSample := [], -1, false;
      r := Ok(());
    }

    method ResetStages() returns (r: Result<()>)
      requires Wired() && AtRest() && !poisoned
      modifies this`poisoned, worker0, worker1, env
      ensures old(env.faults) <= env.faults && (r.Err? <==> poisoned)
      ensures r.Err? ==> old(env.faults) < env.faults
      ensures r.Ok? ==> worker0.View() == FRESH && worker1.View() == FRESH
    {
      var reset0 := worker0.ResetSession();
      var reset1 := worker1.ResetSession();
      if reset0.Err? || reset1.Err? {
        poisoned := true;
        return Err(if reset0.Err? then reset0.failure else reset1.failure);
      }
      r := Ok(());
    }

    method FailClosed()
      requires Valid()
      modifies this`poisoned
      ensures Valid() && poisoned
    {
      poisoned := true;
    }
  }

  // ---------------------------------------------------------------------------
  // Every run.
  // ---------------------------------------------------------------------------

  datatype Request =
    | DoAppend(ids: seq<Token>)
    | DoSeed
    | DoDecode
    | DoSpeculate(maxDraft: nat)
    | DoReset

  /** How many draws the generator has behind it after some operations with these outcomes: one
      for each that evaluated something, none of those before the last reset. */
  function DrawsAfter(start: nat, requests: seq<Request>, oks: seq<bool>): nat
    requires |oks| == |requests|
  {
    if requests == [] then start
    else
      var last := |requests| - 1;
      var before := DrawsAfter(start, requests[..last], oks[..last]);
      if requests[last].DoReset? then 0
      else if oks[last] && !requests[last].DoSeed? then before + 1
      else before
  }

  /** One client operation with its own cancellation token. It succeeds exactly if it leaves more
      tokens, or an empty session. */
  method ServeOne(e: DualStageExecutor, request: Request, timeout: nat) returns (ok: bool)
    requires e.Valid()
    modifies e, e.engine, e.sampler, e.worker0, e.worker1, e.env
    ensures e.Valid() && old(e.env.faults) <= e.env.faults
    ensures old(e.poisoned) ==> e.poisoned && e.tokens == old(e.tokens)
    ensures e.poisoned ==> old(e.poisoned) || old(e.env.faults) < e.env.faults || e.options.failureIsFatal
    ensures if request.DoReset? then ok <==> !e.poisoned
            else old(e.tokens) <= e.tokens && (ok <==> e.tokens != old(e.tokens))
    ensures !e.poisoned && e.sampler.m.sampled ==>
              e.sampler.sampledTokens == if request.DoReset? then 0
                else old(e.sampler.sampledTokens) + if ok && !request.DoSeed? then 1 else 0
  {
    if request.DoReset? {
      var reset := e.ResetSession();
      ok := reset.Ok?;
    } else if request.DoAppend? || request.DoSeed? {
      ok := ServeInput(e, request, timeout);
    } else {
      ok := ServeOutput(e, request, timeout);
    }
  }

  method ServeInput(e: DualStageExecutor, request: Request, timeout: nat) returns (ok: bool)
    requires e.Valid() && (request.DoAppend? || request.DoSeed?)
    modifies e, e.engine, e.sampler, e.worker0, e.worker1, e.env
    ensures e.Valid() && old(e.env.faults) <= e.env.faults
    ensures old(e.poisoned) ==> e.poisoned && e.tokens == old(e.tokens)
    ensures e.poisoned ==> old(e.poisoned) || old(e.env.faults) < e.env.faults || e.options.failureIsFatal
    ensures old(e.tokens) <= e.tokens && (ok <==> e.tokens != old(e.tokens))
    ensures !e.poisoned && e.sampler.m.sampled ==>
              e.sampler.sampledTokens == old(e.sampler.sampledTokens) + if ok && !request.DoSeed? then 1 else 0
  {
    var cancel := new CancellationToken(timeout);
    if request.DoAppend? {
      var appended := e.Append(request.ids, cancel);
      ok := appended.Ok?;
    } else {
      var seeded := e.SeedDecode(cancel);
      ok := seeded.Ok?;
    }
  }

  method ServeOutput(e: DualStageExecutor, request: Request, timeout: nat) returns (ok: bool)
    requires e.Valid() && (request.DoDecode? || request.DoSpeculate?)
    modifies e, e.engine, e.sampler, e.worker0, e.worker1, e.env
    ensures e.Valid() && old(e.env.faults) <= e.env.faults
    ensures old(e.poisoned) ==> e.poisoned && e.tokens == old(e.tokens)
    ensures e.poisoned ==> old(e.poisoned) || old(e.env.faults) < e.env.faults || e.options.failureIsFatal
    ensures old(e.tokens) <= e.tokens && (ok <==> e.tokens != old(e.tokens))
    ensures !e.poisoned && e.sampler.m.sampled ==>
              e.sampler.sampledTokens == old(e.sampler.sampledTokens) + if ok then 1 else 0
  {
    var cancel := new CancellationToken(timeout);
    if request.DoDecode? {
      var decoded := e.DecodeOne(cancel);
      ok := decoded.Ok?;
    } else {
      var stepped, _ := e.SpeculativeStep(request.maxDraft, cancel);
      ok := stepped.Ok?;
    }
  }

  /** Any sequence of client operations, with faults injected anywhere: in between, the executor
      is closed or in lockstep, a closed one stays closed, and only a reset loses a token. The
      generator of a sampled session has taken exactly one step per successful evaluation. */
  method Serve(e: DualStageExecutor, requests: seq<Request>, timeouts: seq<nat>) returns (oks: seq<bool>)
    requires e.Valid() && |timeouts| == |requests|
    modifies e, e.engine, e.sampler, e.worker0, e.worker1, e.env
    ensures e.Valid() && (e.poisoned || e.Quiescent()) && old(e.env.faults) <= e.env.faults
    ensures old(e.poisoned) ==> e.poisoned && e.tokens == old(e.tokens)
    ensures (forall i :: 0 <= i < |requests| ==> requests[i] != DoReset) ==> old(e.tokens) <= e.tokens
    ensures e.poisoned ==> old(e.poisoned) || old(e.env.faults) < e.env.faults || e.options.failureIsFatal
    ensures |oks| == |requests|
    ensures !e.poisoned && e.sampler.m.sampled ==>
              && e.sampler.sampledTokens == DrawsAfter(old(e.sampler.sampledTokens), requests, oks)
              && e.sampler.rngState == Stepped(e.sampler.m, e.sampler.sampledTokens)
  {
    oks := [];
    for i := 0 to |requests|
      invariant e.Valid() && old(e.env.faults) <= e.env.faults && |oks| == i
      invariant old(e.poisoned) ==> e.poisoned && e.tokens == old(e.tokens)
      invariant (forall j :: 0 <= j < i ==> requests[j] != DoReset) ==> old(e.tokens) <= e.tokens
      invariant e.poisoned ==> old(e.poisoned) || old(e.env.faults) < e.env.faults || e.options.failureIsFatal
      invariant !e.poisoned && e.sampler.m.sampled ==>
                  e.sampler.sampledTokens == DrawsAfter(old(e.sampler.sampledTokens), requests[..i], oks)
    {
      var ok := ServeOne(e, requests[i], timeouts[i]);
      assert requests[..i + 1][..i] == requests[..i] && (oks + [ok])[..i] == oks;
      oks := oks + [ok];
    }
    assert requests[..|requests|] == requests;
  }

  /** Faults of the past do not count: whatever happened before, a decode that meets no fault of
      its own on an open executor with a pending token, room and an epoch left succeeds. */
  method DecodeAfterwards(e: DualStageExecutor, requests: seq<Request>, timeouts: seq<nat>)
    returns (r: Result<seq<Token>>, ghost before: Session, ghost open: bool, ghost earlier: nat)
    requires e.Valid() && |timeouts| == |requests|
    modifies e, e.engine, e.sampler, e.worker0, e.worker1, e.env
    ensures e.Valid() && old(e.env.faults) <= earlier <= e.env.faults
    ensures open && e.env.faults == earlier ==>
              && HasPending(e.sampler.m, before) && NextToken(e.worker1.m, e.sampler.m, before).Some?
              && r.Ok? && e.Current() == PlainDecode(e.worker1.m, e.sampler.m, before)
  {
    var _ := Serve(e, requests, timeouts);
    before, earlier := e.Current(), e.env.faults;
    open := !e.poisoned && e.DecodeRefusal(before, e.engine.frontiers.epoch) == None;
    r := e.DecodeOne(null);
  }
}
