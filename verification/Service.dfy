/** The request handler in front of the executor: validation, replay of finished writers,
    and durability before visibility. */
module Service {
  import opened Contracts
  import opened Faults
  import opened Cancellation
  import opened Sampling
  import E = Engine
  import X = Executor
  import J = Journal
  import R = ReplayCache
  import W = Wire

  const RPC_MAGIC: U32 := 0x52383351
  const RPC_VERSION: U16 := 1
  const REQUEST_HEADER_BYTES: U16 := 56
  const MAX_PAYLOAD: nat := 0x400_0000
  const FLAG_DEADLINE: U32 := 1
  const MAX_TIMEOUT_MS: nat := 86_400_000
  const MAX_STEPS: nat := 1

  datatype Opcode =
    | InvalidOp | OpPing | OpState | OpAppend | OpSeed | OpDecode | OpSpeculative
    | OpStats | OpCancel | OpReset | OpLogits

  datatype Status =
    | StatusOk | BadRequest | FailedPrecondition | CapacityExhausted | Internal
    | Poisoned | StatusCancelled | StatusDeadline

  datatype Request = Request(
    magic: U32, version: U16, headerBytes: U16, id: U64, sessionHash: nat, opcode: Opcode, flags: U32,
    tokenCount: U32, argument0: U32, argument1: U32, timeoutMs: U32, payloadBytes: U64, tokens: seq<Token>)

  datatype Response = Response(id: U64, opcode: Opcode, status: Status, tokens: seq<Token>, frontiers: Frontiers)

  predicate IsWriter(op: Opcode) {
    op == OpAppend || op == OpSeed || op == OpDecode || op == OpSpeculative || op == OpReset
  }

  predicate ValidateRequest(r: Request, sessionHash: nat) {
    && r.magic == RPC_MAGIC && r.version == RPC_VERSION && r.headerBytes == REQUEST_HEADER_BYTES
    && r.sessionHash == sessionHash && r.id != 0 && r.opcode != InvalidOp
    && (r.flags == 0 || r.flags == FLAG_DEADLINE)
    && (if IsWriter(r.opcode)
        then if r.flags == FLAG_DEADLINE then 0 < r.timeoutMs <= MAX_TIMEOUT_MS else r.timeoutMs == 0
        else r.flags == 0 && r.timeoutMs == 0)
    && r.payloadBytes <= MAX_PAYLOAD && |r.tokens| == r.tokenCount && r.payloadBytes == 4 * |r.tokens|
    && match r.opcode
       case OpAppend => r.tokens != [] && r.argument0 == 0 && r.argument1 == 0
       case OpDecode => r.tokens == [] && 0 < r.argument0 <= MAX_STEPS && r.argument1 == 0
       case OpSpeculative => r.tokens == [] && 0 < r.argument0 <= MAX_STEPS && 0 < r.argument1 <= X.MAX_DRAFT_WIDTH
       case OpLogits => r.tokens == [] && r.argument0 <= 1 && r.argument1 == 0
       case _ => r.tokens == [] && r.argument0 == 0 && r.argument1 == 0
  }

  /** What the fingerprint of a request covers: everything but its id. */
  datatype Contents = Contents(
    sessionHash: nat, opcode: Opcode, flags: U32, tokenCount: U32, argument0: U32, argument1: U32, timeoutMs: U32,
    tokens: seq<Token>)

  function ContentsOf(r: Request): Contents {
    Contents(r.sessionHash, r.opcode, r.flags, r.tokenCount, r.argument0, r.argument1, r.timeoutMs, r.tokens)
  }

  function StatusOf(f: Failure, poisoned: bool): Status {
    match f
    case DeadlineExceeded => StatusDeadline
    case Cancelled => StatusCancelled
    case LengthError => CapacityExhausted
    case InvalidArgument => BadRequest
    case LogicError => FailedPrecondition
    case RuntimeError => if poisoned then Poisoned else Internal
  }

  // ---------------------------------------------------------------------------
  // Snapshots of the executor.
  // ---------------------------------------------------------------------------

  /** The coordinator's frontiers describe the session. */
  ghost predicate Describes(f: Frontiers, s: X.Session) {
    E.Ordered(f) && f.canonical == |s.tokens| && f.target == s.target && f.draft == s.draft
  }

  function SnapshotOf(id: J.Identity, s: X.Session, f: Frontiers): J.Snapshot
    requires f.canonical <= U64_MAX && f.target <= U64_MAX && f.stage0 <= U64_MAX && f.stage1 <= U64_MAX
    requires f.draft <= U64_MAX && f.epoch <= U64_MAX && |s.tokens| <= U64_MAX
    requires s.sampler.sampledTokens <= U64_MAX && s.sampler.canonicalTokens <= U64_MAX
  {
    J.Snapshot(
      J.Header(J.SNAPSHOT_MAGIC, J.VERSION, J.HEADER_BYTES, id.checksum, 0, 0, f,
               J.SamplerRecord(J.SAMPLER_MAGIC, J.VERSION, 40, s.sampler.rng, s.sampler.sampledTokens,
                               s.sampler.canonicalTokens, s.sampler.penalty),
               |s.tokens|, 0, 0, 0, id.tokenHash(s.tokens), s.lastSample,
               if s.haveLastSample then J.COLD_REBUILD_WITH_SAMPLE else J.COLD_REBUILD, 0),
      s.tokens)
  }

  /** Token ids are 32-bit integers. */
  const MAX_VOCABULARY: nat := 0x8000_0000

  /** What is left when a writer is through: the executor closed or not, the faults so far, its
      tokens, and the writer's cancellation token, with whether a cancel was answered OK. */
  datatype Aftermath = Aftermath(poisoned: bool, faults: nat, tokens: seq<Token>, word: CancelState, promised: bool)

  /** What a writer that succeeds and publishes some tokens makes of the session's tokens. */
  function Written(r: Request, before: seq<Token>, published: seq<Token>): seq<Token> {
    if r.opcode == OpReset then []
    else if r.opcode == OpAppend then before + r.tokens
    else before + published
  }

  /** A snapshot of a session at rest always validates; only a journal that has used up all
      sequence numbers refuses it. */
  lemma SnapshotValidates(id: J.Identity, current: J.Snapshot, sm: SamplerModel, s: X.Session, f: Frontiers, now: U64)
    requires X.WellFormed(sm, s) && sm.vocabulary <= MAX_VOCABULARY && Describes(f, s) && |s.tokens| <= id.contextLimit
    ensures J.Storable(SnapshotOf(id, s, f))
    ensures J.Appendable(id, current, SnapshotOf(id, s, f), now) <==> current.header.sequence != U64_MAX
  {
  }

  // ---------------------------------------------------------------------------
  // The class.
  // ---------------------------------------------------------------------------

  class ExecutorRpcService {
    const executor: X.DualStageExecutor
    const journal: J.SnapshotJournal?
    const sessionHash: nat
    var highestWriterId: nat
    var responseOrder: seq<nat>
    var responses: map<nat, R.Cached<Contents, Response>>
    var publishedFrontiers: Frontiers
    var publishedPoisoned: bool
    var activeWriterId: nat
    var activeCancellation: CancellationToken?
    /** The writers let through so far, with their responses, and those that got as far as the executor. */
    ghost var admitted: seq<R.Writer<Contents, Response>>
    ghost var reached: seq<nat>

    /** A service starts on an empty session: an existing journal calls for a cold rebuild. */
    constructor (executor: X.DualStageExecutor, journal: J.SnapshotJournal?, sessionHash: nat)
      requires executor.Valid() && executor.options.vocabulary <= MAX_VOCABULARY
      requires journal != null ==>
                 && executor.tokens == [] && journal.file == [] && journal.current == J.BLANK
                 && journal.env == executor.env && journal.id.contextLimit == executor.options.contextLimit
      ensures Valid() && this.executor == executor && this.journal == journal && this.sessionHash == sessionHash
      ensures CacheView() == R.Fresh() && reached == []
    {
      this.executor, this.journal, this.sessionHash := executor, journal, sessionHash;
      highestWriterId, responseOrder, responses := 0, [], map[];
      publishedFrontiers, publishedPoisoned := executor.engine.frontiers, executor.poisoned;
      activeWriterId, activeCancellation := 0, null;
      admitted, reached := [], [];
    }

    function CacheView(): R.Cache<Contents, Response> reads this`highestWriterId, this`responseOrder, this`responses {
      R.Cache(highestWriterId, responseOrder, responses)
    }

    ghost predicate Increasing(ids: seq<nat>) {
      forall i, j :: 0 <= i < j < |ids| ==> ids[i] < ids[j]
    }

    ghost predicate CacheValid() reads this`highestWriterId, this`responseOrder, this`responses, this`admitted {
      R.Holds(CacheView(), admitted)
    }

    ghost predicate ReachedValid() reads this`highestWriterId, this`reached {
      Increasing(reached) && forall i :: 0 <= i < |reached| ==> reached[i] <= highestWriterId
    }

    ghost predicate Wired() {
      && executor.options.vocabulary <= MAX_VOCABULARY
      && (journal != null ==> journal.env == executor.env && journal.id.contextLimit == executor.options.contextLimit)
    }

    /** The journal has used up its sequence numbers. */
    predicate Unnumbered() reads journal {
      journal != null && journal.current.header.sequence == U64_MAX
    }

    /** What the journal would restore is what the executor has. */
    ghost predicate Durable() reads executor, journal {
      journal != null && !executor.poisoned ==>
        J.Intact(journal.id, journal.file, journal.current) && journal.current.tokens == executor.tokens
    }

    /** Between requests: executor and journal agree, and no writer is running. */
    ghost predicate Settles()
      reads this`publishedPoisoned, this`activeWriterId, this`activeCancellation
      reads executor, executor.engine, executor.sampler, executor.worker0, executor.worker1, journal
    {
      && Wired() && executor.Valid() && Durable()
      && publishedPoisoned == executor.poisoned && activeWriterId == 0 && activeCancellation == null
    }

    ghost predicate Valid()
      reads this, executor, executor.engine, executor.sampler, executor.worker0, executor.worker1, journal
    {
      Settles() && CacheValid() && ReachedValid()
    }

    /** Why the executor turns a writer down, and the exception that says so. */
    function RefusalOf(r: Request, s: X.Session, epoch: nat): Option<Failure>
      requires executor.worker1.m.vocabulary == executor.sampler.m.vocabulary
    {
      match r.opcode
      case OpAppend => executor.AppendRefusal(s, epoch, r.tokens)
      case OpSeed => executor.SeedRefusal(s)
      case OpDecode => executor.DecodeRefusal(s, epoch)
      case OpSpeculative => executor.StepRefusal(s, epoch, r.argument1)
      case _ => None
    }

    /** Why a writer is not answered OK, and what it is answered: a fault since `calm`, its
        cancellation, its deadline, or a refusal. */
    ghost predicate Reasoned(r: Request, s: X.Session, epoch: nat, calm: nat, now: Aftermath, status: Status)
      requires executor.worker1.m.vocabulary == executor.sampler.m.vocabulary
    {
      || calm < now.faults
      || (now.word == CancelRequested && status == StatusCancelled)
      || (now.word == Expired && status == StatusDeadline)
      || (RefusalOf(r, s, epoch).Some? && status == StatusOf(RefusalOf(r, s, epoch).value, now.poisoned))
    }

    ghost function Seen(token: CancellationToken?): Aftermath reads executor, executor.env, token {
      Aftermath(executor.poisoned, executor.env.faults, executor.tokens, if token == null then Active else token.state,
                token != null && token.promised)
    }

    /** An answer to a writer that reached the executor fits what happened, also to the journal. */
    ghost predicate Justified(r: Request, s: X.Session, epoch: nat, calm: nat, unnumbered: bool, now: Aftermath,
                              status: Status)
      requires executor.worker1.m.vocabulary == executor.sampler.m.vocabulary
    {
      if status == StatusOk then RefusalOf(r, s, epoch).None? && !unnumbered
      else Reasoned(r, s, epoch, calm, now, status) || (unnumbered && status == Poisoned)
    }

    /** What has come of a writer with a new id: nothing on a closed executor; otherwise a justified
        answer, and if it is OK, the tokens written and no cancel of it answered OK. */
    ghost predicate Settled(r: Request, closed: bool, s: X.Session, epoch: nat, calm: nat, unnumbered: bool,
                            now: Aftermath, response: Response)
      requires executor.worker1.m.vocabulary == executor.sampler.m.vocabulary
    {
      if closed then response.status == Poisoned && now.poisoned && now.tokens == s.tokens
      else
        && Justified(r, s, epoch, calm, unnumbered, now, response.status)
        && (response.status == StatusOk ==>
              !now.poisoned && !now.promised && now.tokens == Written(r, s.tokens, response.tokens))
    }

    /** Which answer goes with which cause, and that nothing else is a cause. */
    lemma StatusOfEachCause(r: Request, s: X.Session, epoch: nat, closed: bool)
      requires executor.worker1.m.vocabulary == executor.sampler.m.vocabulary == executor.options.vocabulary
      ensures var o, refusal := executor.options, RefusalOf(r, s, epoch);
              var status := if refusal.None? then StatusOk else StatusOf(refusal.value, closed);
              var broken := if closed then Poisoned else Internal;
              match r.opcode
              case OpAppend =>
                status == (if r.tokens == [] || !InVocabulary(r.tokens, o.vocabulary) then BadRequest
                           else if |s.tokens| + |r.tokens| > o.contextLimit then CapacityExhausted
                           else if || epoch == 0xFFFF_FFFF_FFFF_FFFF
                                   || X.AppendSample(executor.worker1.m, executor.sampler.m, s, r.tokens).None?
                                   || !executor.stages.FramesFit(Min(o.appendChunk, |X.AppendEval(s, r.tokens)|))
                                then broken
                           else StatusOk)
              case OpSeed =>
                status == (if !s.haveLastSample then broken
                           else if |s.tokens| >= o.contextLimit then CapacityExhausted
                           else if |s.tokens| != s.target then broken
                           else StatusOk)
              case OpReset => status == StatusOk
              case OpDecode =>
                && (|s.tokens| != s.target + 1 ==> status == broken)
                && (s.target + 1 == |s.tokens| >= o.contextLimit ==> status == CapacityExhausted)
              case OpSpeculative =>
                && (r.argument1 > 64 ==> status == BadRequest)
                && (r.argument1 <= 64 && |s.tokens| != s.target + 1 ==> status == broken)
                && (r.argument1 <= 64 && s.target + 1 == |s.tokens| >= o.contextLimit ==> status == CapacityExhausted)
              case _ => true
      ensures (r.opcode == OpDecode || (r.opcode == OpSpeculative && r.argument1 <= 64))
              && s.target + 1 == |s.tokens| < executor.options.contextLimit && executor.stages.FramesFit(1)
              && epoch < 0xFFFF_FFFF_FFFF_FFFF && !executor.sampler.m.sampled ==>
                RefusalOf(r, s, epoch).None?
    {
    }

    /** Runs one writer on the executor. */
    method Dispatch(r: Request, cancel: CancellationToken) returns (status: Status, published: seq<Token>)
      requires executor.Valid() && cancel.Valid() && IsWriter(r.opcode)
      modifies executor, executor.engine, executor.sampler, executor.worker0, executor.worker1, executor.env, cancel
      ensures executor.Valid() && cancel.Valid() && old(executor.env.faults) <= executor.env.faults
      ensures old(executor.poisoned) ==> executor.poisoned && status != StatusOk
      ensures status != StatusOk ==> executor.tokens == old(executor.tokens) && published == []
      ensures status == StatusOk ==> !executor.poisoned && cancel.state == Sealed
      ensures status != StatusOk ==>
                || old(executor.poisoned)
                || Reasoned(r, old(executor.Current()), old(executor.engine.frontiers.epoch), old(executor.env.faults),
                            Seen(cancel), status)
      ensures status == StatusOk ==>
                RefusalOf(r, old(executor.Current()), old(executor.engine.frontiers.epoch)).None?
      ensures status == StatusOk ==> executor.tokens == Written(r, old(executor.tokens), published)
    {
      match r.opcode {
        case OpReset =>
          status := DispatchReset(cancel);
          published := [];
        case OpAppend => status, published := DispatchAppend(r, cancel);
        case OpSeed => status, published := DispatchSeed(r, cancel);
        case OpDecode => status, published := DispatchDecode(r, cancel);
        case OpSpeculative => status, published := DispatchSpeculative(r, cancel);
      }
    }

    /** Session reset is its own commit point: sealed first, because it cannot be undone. */
    method DispatchReset(cancel: CancellationToken) returns (status: Status)
      requires executor.Valid() && cancel.Valid()
      modifies executor, executor.engine, executor.sampler, executor.worker0, executor.worker1, executor.env, cancel
      ensures executor.Valid() && cancel.Valid() && old(executor.env.faults) <= executor.env.faults
      ensures old(executor.poisoned) ==> executor.poisoned && status != StatusOk
      ensures status != StatusOk ==> executor.tokens == old(executor.tokens)
      ensures status == StatusOk ==> !executor.poisoned && cancel.state == Sealed
      ensures status != StatusOk ==>
                || old(executor.poisoned) || old(executor.env.faults) < executor.env.faults
                || (cancel.state == CancelRequested && status == StatusCancelled)
                || (cancel.state == Expired && status == StatusDeadline)
      ensures status == StatusOk ==> executor.tokens == []
    {
      var stop := cancel.ThrowIfRequested();
      if stop.Some? { return StatusOf(stop.value, executor.poisoned); }
      stop := cancel.Seal();
      if stop.Some? { return StatusOf(stop.value, executor.poisoned); }
      var result := executor.ResetSession();
      status := if result.Ok? then StatusOk else StatusOf(result.failure, executor.poisoned);
    }

    method DispatchAppend(r: Request, cancel: CancellationToken) returns (status: Status, published: seq<Token>)
      requires executor.Valid() && cancel.Valid() && r.opcode == OpAppend
      modifies executor, executor.engine, executor.sampler, executor.worker0, executor.worker1, executor.env, cancel
      ensures executor.Valid() && cancel.Valid() && old(executor.env.faults) <= executor.env.faults
      ensures old(executor.poisoned) ==> executor.poisoned && status != StatusOk
      ensures status != StatusOk ==> executor.tokens == old(executor.tokens) && published == []
      ensures status == StatusOk ==> !executor.poisoned && cancel.state == Sealed
      ensures status != StatusOk ==>
                || old(executor.poisoned)
                || Reasoned(r, old(executor.Current()), old(executor.engine.frontiers.epoch), old(executor.env.faults),
                            Seen(cancel), status)
      ensures status == StatusOk ==>
                && RefusalOf(r, old(executor.Current()), old(executor.engine.frontiers.epoch)).None?
                && executor.tokens == old(executor.tokens) + r.tokens
    {
      var result := executor.Append(r.tokens, cancel);
      published := [];
      status := if result.Ok? then StatusOk else StatusOf(result.failure, executor.poisoned);
    }

    method DispatchSeed(r: Request, cancel: CancellationToken) returns (status: Status, published: seq<Token>)
      requires executor.Valid() && cancel.Valid() && r.opcode == OpSeed
      modifies executor, executor.engine, executor.sampler, executor.worker0, executor.worker1, executor.env, cancel
      ensures executor.Valid() && cancel.Valid() && old(executor.env.faults) <= executor.env.faults
      ensures old(executor.poisoned) ==> executor.poisoned && status != StatusOk
      ensures status != StatusOk ==> executor.tokens == old(executor.tokens) && published == []
      ensures status == StatusOk ==> !executor.poisoned && cancel.state == Sealed
      ensures status != StatusOk ==>
                || old(executor.poisoned)
                || Reasoned(r, old(executor.Current()), old(executor.engine.frontiers.epoch), old(executor.env.faults),
                            Seen(cancel), status)
      ensures status == StatusOk ==>
                && RefusalOf(r, old(executor.Current()), old(executor.engine.frontiers.epoch)).None?
                && executor.tokens == old(executor.tokens) + published
    {
      var result := executor.SeedDecode(cancel);
      if result.Err? { return StatusOf(result.failure, executor.poisoned), []; }
      status, published := StatusOk, [result.value];
    }

    method DispatchDecode(r: Request, cancel: CancellationToken) returns (status: Status, published: seq<Token>)
      requires executor.Valid() && cancel.Valid() && r.opcode == OpDecode
      modifies executor, executor.engine, executor.sampler, executor.worker0, executor.worker1, executor.env, cancel
      ensures executor.Valid() && cancel.Valid() && old(executor.env.faults) <= executor.env.faults
      ensures old(executor.poisoned) ==> executor.poisoned && status != StatusOk
      ensures status != StatusOk ==> executor.tokens == old(executor.tokens) && published == []
      ensures status == StatusOk ==> !executor.poisoned && cancel.state == Sealed
      ensures status != StatusOk ==>
                || old(executor.poisoned)
                || Reasoned(r, old(executor.Current()), old(executor.engine.frontiers.epoch), old(executor.env.faults),
                            Seen(cancel), status)
      ensures status == StatusOk ==>
                && RefusalOf(r, old(executor.Current()), old(executor.engine.frontiers.epoch)).None?
                && executor.tokens == old(executor.tokens) + published
    {
      var result := executor.DecodeOne(cancel);
      if result.Err? { return StatusOf(result.failure, executor.poisoned), []; }
      status, published := StatusOk, result.value;
    }

    method DispatchSpeculative(r: Request, cancel: CancellationToken) returns (status: Status, published: seq<Token>)
      requires executor.Valid() && cancel.Valid() && r.opcode == OpSpeculative
      modifies executor, executor.engine, executor.sampler, executor.worker0, executor.worker1, executor.env, cancel
      ensures executor.Valid() && cancel.Valid() && old(executor.env.faults) <= executor.env.faults
      ensures old(executor.poisoned) ==> executor.poisoned && status != StatusOk
      ensures status != StatusOk ==> executor.tokens == old(executor.tokens) && published == []
      ensures status == StatusOk ==> !executor.poisoned && cancel.state == Sealed
      ensures status != StatusOk ==>
                || old(executor.poisoned)
                || Reasoned(r, old(executor.Current()), old(executor.engine.frontiers.epoch), old(executor.env.faults),
                            Seen(cancel), status)
      ensures status == StatusOk ==>
                && RefusalOf(r, old(executor.Current()), old(executor.engine.frontiers.epoch)).None?
                && executor.tokens == old(executor.tokens) + published
    {
      var result, _ := executor.SpeculativeStep(r.argument1, cancel);
      if result.Err? { return StatusOf(result.failure, executor.poisoned), []; }
      status, published := StatusOk, result.value;
    }

    /** Makes the executor's state durable, or closes the executor. */
    method Persist(now: U64) returns (ok: bool)
      requires Wired() && executor.Valid() && !executor.poisoned && journal != null
      requires J.Intact(journal.id, journal.file, journal.current)
      modifies executor`poisoned, journal, executor.env
      ensures executor.Valid() && Durable() && old(executor.env.faults) <= executor.env.faults
      ensures ok == !executor.poisoned
      ensures ok ==>
                && journal.current.header.frontiers == executor.engine.frontiers
                && journal.current.header.sampler.rng == executor.sampler.rngState
                && journal.current.header.lastSample == executor.lastSample
      ensures !ok ==> old(executor.env.faults) < executor.env.faults || old(journal.current.header.sequence) == U64_MAX
      ensures ok ==> old(journal.current.header.sequence) != U64_MAX
    {
      var snapshot := TakeSnapshot(now);
      var appended := journal.Append(snapshot, now);
      ok := appended.Ok?;
      if !ok { executor.FailClosed(); }
    }

    /** The executor's state as the journal takes it. */
    method TakeSnapshot(now: U64) returns (s: J.Snapshot)
      requires Wired() && executor.Valid() && !executor.poisoned && journal != null
      ensures J.Storable(s) && s.tokens == executor.tokens && s.header.frontiers == executor.engine.frontiers
      ensures s.header.sampler.rng == executor.sampler.rngState && s.header.lastSample == executor.lastSample
      ensures s.header.sampler.sampledTokens == executor.sampler.sampledTokens
      ensures s.header.sampler.penalty == executor.sampler.penaltyChecksum
      ensures s.header.flags == if executor.haveLastSample then 3 else 1
      ensures J.Appendable(journal.id, journal.current, s, now) <==> journal.current.header.sequence != U64_MAX
    {
      var session, frontiers := executor.Current(), executor.engine.frontiers;
      SnapshotValidates(journal.id, journal.current, executor.sampler.m, session, frontiers, now);
      s := SnapshotOf(journal.id, session, frontiers);
    }

    /** What remembering a finished writer does to the cache. */
    method Remember(r: Request, response: Response)
      requires r.id !in responses
      modifies this`highestWriterId, this`responseOrder, this`responses, this`admitted
      ensures highestWriterId == r.id
      ensures CacheView() == R.Store(old(CacheView()).(highest := r.id), r.id, ContentsOf(r), r.opcode == OpReset,
                                     response)
      ensures admitted == old(admitted) + [R.Writer(r.id, ContentsOf(r), r.opcode == OpReset, response)]
    {
      highestWriterId := r.id;
      if r.opcode == OpReset { responseOrder, responses := [], map[]; }
      responseOrder := responseOrder + [r.id];
      responses := responses[r.id := R.Cached(ContentsOf(r), response)];
      if |responseOrder| > R.CAPACITY {
        var evicted := responseOrder[0];
        responseOrder := responseOrder[1..];
        responses := responses - {evicted};
      }
      admitted := admitted + [R.Writer(r.id, ContentsOf(r), r.opcode == OpReset, response)];
    }

    /** Executes an admitted writer and makes what it did durable. While it runs, its token is the
        one that cancel requests reach; a cancel answered OK in that time means it does not succeed. */
    method Execute(r: Request, now: U64) returns (status: Status, published: seq<Token>, ghost token: CancellationToken)
      requires Wired() && executor.Valid() && Durable() && IsWriter(r.opcode) && !executor.poisoned
      modifies this`activeWriterId, this`activeCancellation
      modifies executor, executor.engine, executor.sampler, executor.worker0, executor.worker1, executor.env, journal
      ensures executor.Valid() && Durable()
      ensures activeWriterId == r.id && activeCancellation == token && fresh(token) && token.Valid()
      ensures status == StatusOk ==> !executor.poisoned && !token.promised
      ensures status != StatusOk ==> published == [] && (executor.poisoned || executor.tokens == old(executor.tokens))
      ensures Justified(r, old(executor.Current()), old(executor.engine.frontiers.epoch), old(executor.env.faults),
                        old(Unnumbered()), Seen(token), status)
      ensures status == StatusOk ==> executor.tokens == Written(r, old(executor.tokens), published)
    {
      var cancel := new CancellationToken(r.timeoutMs);
      token := cancel;
      activeWriterId, activeCancellation := r.id, cancel;
      status, published := DispatchDurably(r, now, cancel);
    }

    method DispatchDurably(r: Request, now: U64, cancel: CancellationToken)
      returns (status: Status, published: seq<Token>)
      requires Wired() && executor.Valid() && cancel.Valid() && Durable() && IsWriter(r.opcode) && !executor.poisoned
      modifies executor, executor.engine, executor.sampler, executor.worker0, executor.worker1, executor.env, journal
      modifies cancel
      ensures executor.Valid() && cancel.Valid() && Durable()
      ensures status == StatusOk ==> !executor.poisoned && cancel.state == Sealed
      ensures status != StatusOk ==> published == [] && (executor.poisoned || executor.tokens == old(executor.tokens))
      ensures Justified(r, old(executor.Current()), old(executor.engine.frontiers.epoch), old(executor.env.faults),
                        old(Unnumbered()), Seen(cancel), status)
      ensures status == StatusOk ==> executor.tokens == Written(r, old(executor.tokens), published)
    {
      status, published := Dispatch(r, cancel);
      if status == StatusOk && journal != null {
        var ok := Persist(now);
        if !ok { status, published := Poisoned, []; }
      }
    }

    /** Executes an admitted writer and publishes what came of it. */
    method Perform(r: Request, now: U64) returns (response: Response, ghost token: CancellationToken)
      requires Wired() && executor.Valid() && Durable() && IsWriter(r.opcode) && !executor.poisoned
      modifies this`publishedFrontiers, this`publishedPoisoned, this`activeWriterId, this`activeCancellation
      modifies executor, executor.engine, executor.sampler, executor.worker0, executor.worker1, executor.env, journal
      ensures executor.Valid() && Durable() && publishedPoisoned == executor.poisoned
      ensures activeWriterId == 0 && activeCancellation == null
      ensures response.id == r.id && response.opcode == r.opcode
      ensures response.frontiers == publishedFrontiers == executor.engine.frontiers
      ensures response.status == StatusOk ==> !executor.poisoned && !token.promised
      ensures response.status != StatusOk ==>
                response.tokens == [] && (executor.poisoned || executor.tokens == old(executor.tokens))
      ensures Justified(r, old(executor.Current()), old(executor.engine.frontiers.epoch), old(executor.env.faults),
                        old(Unnumbered()), Seen(token), response.status)
      ensures response.status == StatusOk ==> executor.tokens == Written(r, old(executor.tokens), response.tokens)
    {
      var status, published;
      status, published, token := Execute(r, now);
      Publish();
      response := Response(r.id, r.opcode, status, published, publishedFrontiers);
    }

    /** What other requests may see once a writer is through. */
    method Publish()
      modifies this`publishedFrontiers, this`publishedPoisoned, this`activeWriterId, this`activeCancellation
      ensures publishedFrontiers == executor.engine.frontiers && publishedPoisoned == executor.poisoned
      ensures activeWriterId == 0 && activeCancellation == null
    {
      publishedFrontiers, publishedPoisoned := executor.engine.frontiers, executor.poisoned;
      activeWriterId, activeCancellation := 0, null;
    }

    /** A writer whose id is new: perform it unless the executor is closed, then remember it. */
    method Admit(r: Request, now: U64) returns (response: Response, ghost token: CancellationToken?)
      requires Valid() && IsWriter(r.opcode) && R.Judge(CacheView(), r.id, ContentsOf(r)).Execute?
      modifies this
      modifies executor, executor.engine, executor.sampler, executor.worker0, executor.worker1, executor.env, journal
      ensures Valid()
      ensures CacheView() == R.Store(old(CacheView()).(highest := r.id), r.id, ContentsOf(r), r.opcode == OpReset,
                                     response)
      ensures reached == old(reached) + (if old(executor.poisoned) then [] else [r.id])
      ensures Settled(r, old(executor.poisoned), old(executor.Current()), old(executor.engine.frontiers.epoch),
                      old(executor.env.faults), old(Unnumbered()), Seen(token), response)
    {
      ghost var through := if executor.poisoned then [] else [r.id];
      response, token := PerformUnlessClosed(r, now);
      ghost var now := Seen(token);
      label Performed:
      Record(r, response, through);
      StillSettles@Performed();
      assert Seen(token) == now;
    }

    /** The cache plays no part in the agreement of executor and journal. */
    twostate lemma StillSettles()
      requires old(Settles()) && publishedPoisoned == old(publishedPoisoned)
      requires activeWriterId == old(activeWriterId) && activeCancellation == old(activeCancellation)
      requires unchanged(executor, executor.engine, executor.sampler, executor.worker0, executor.worker1)
      requires journal != null ==> unchanged(journal)
      ensures Settles()
    {
    }

    /** Remembers a response and the ids that reached the executor. */
    method Record(r: Request, response: Response, ghost through: seq<nat>)
      requires CacheValid() && ReachedValid() && R.Judge(CacheView(), r.id, ContentsOf(r)).Execute?
      requires through == [] || through == [r.id]
      modifies this`highestWriterId, this`responseOrder, this`responses, this`admitted, this`reached
      ensures CacheValid() && ReachedValid() && reached == old(reached) + through
      ensures CacheView() == R.Store(old(CacheView()).(highest := r.id), r.id, ContentsOf(r), r.opcode == OpReset,
                                     response)
    {
      ReachedGrows(reached, through, highestWriterId, r.id);
      RememberNew(r, response);
      reached := reached + through;
    }

    /** Remembering a new writer keeps the cache's invariant. */
    method RememberNew(r: Request, response: Response)
      requires CacheValid() && R.Judge(CacheView(), r.id, ContentsOf(r)).Execute?
      modifies this`highestWriterId, this`responseOrder, this`responses, this`admitted
      ensures CacheValid() && highestWriterId == r.id
      ensures CacheView() == R.Store(old(CacheView()).(highest := r.id), r.id, ContentsOf(r), r.opcode == OpReset,
                                     response)
    {
      StoredHolds(CacheView(), admitted, R.Writer(r.id, ContentsOf(r), r.opcode == OpReset, response));
      Remember(r, response);
    }

    lemma StoredHolds(c: R.Cache<Contents, Response>, executed: seq<R.Writer<Contents, Response>>,
                      w: R.Writer<Contents, Response>)
      requires R.Holds(c, executed) && R.Judge(c, w.id, w.contents).Execute?
      ensures R.Holds(R.Store(c.(highest := w.id), w.id, w.contents, w.isReset, w.outcome), executed + [w])
    {
      R.StoreHolds(R.Past(c, executed), w);
    }

    lemma ReachedGrows(ids: seq<nat>, more: seq<nat>, highest: nat, id: nat)
      requires Increasing(ids) && (forall i :: 0 <= i < |ids| ==> ids[i] <= highest) && highest < id
      requires more == [] || more == [id]
      ensures Increasing(ids + more) && forall i :: 0 <= i < |ids + more| ==> (ids + more)[i] <= id
    {
    }

    method PerformUnlessClosed(r: Request, now: U64) returns (response: Response, ghost token: CancellationToken?)
      requires Settles() && IsWriter(r.opcode)
      modifies this`publishedFrontiers, this`publishedPoisoned, this`activeWriterId, this`activeCancellation
      modifies executor, executor.engine, executor.sampler, executor.worker0, executor.worker1, executor.env, journal
      ensures Settles()
      ensures Settled(r, old(executor.poisoned), old(executor.Current()), old(executor.engine.frontiers.epoch),
                      old(executor.env.faults), old(Unnumbered()), Seen(token), response)
    {
      if publishedPoisoned {
        publishedFrontiers := executor.engine.frontiers;
        return Response(r.id, r.opcode, Poisoned, [], publishedFrontiers), null;
      }
      response, token := Perform(r, now);
    }

    /** One writer request. A known id is answered from memory or refused, and nothing else
        changes; a new one is performed at most once and remembered. */
    method HandleWriter(r: Request, now: U64) returns (response: Response, ghost token: CancellationToken?)
      requires Valid() && IsWriter(r.opcode)
      modifies this
      modifies executor, executor.engine, executor.sampler, executor.worker0, executor.worker1, executor.env, journal
      ensures Valid()
      ensures var verdict := R.Judge(old(CacheView()), r.id, ContentsOf(r));
              if verdict.Execute? then
                && CacheView() == R.Store(old(CacheView()).(highest := r.id), r.id, ContentsOf(r), r.opcode == OpReset,
                                          response)
                && reached == old(reached) + (if old(executor.poisoned) then [] else [r.id])
                && Settled(r, old(executor.poisoned), old(executor.Current()), old(executor.engine.frontiers.epoch),
                           old(executor.env.faults), old(Unnumbered()), Seen(token), response)
              else
                && CacheView() == old(CacheView()) && reached == old(reached)
                && executor.tokens == old(executor.tokens) && executor.poisoned == old(executor.poisoned)
                && executor.engine.frontiers == old(executor.engine.frontiers)
                && (verdict.Replay? ==> response == verdict.response)
                && (verdict.Conflict? ==> response.status == BadRequest)
                && (verdict.Stale? ==> response.status == FailedPrecondition)
      ensures response.status == StatusOk && CacheView() != old(CacheView()) && journal != null ==>
                journal.current.tokens == executor.tokens
    {
      token := null;
      match R.Judge(CacheView(), r.id, ContentsOf(r)) {
        case Replay(stored) => response := stored;
        case Conflict => response := Response(r.id, r.opcode, BadRequest, [], publishedFrontiers);
        case Stale => response := Response(r.id, r.opcode, FailedPrecondition, [], publishedFrontiers);
        case Execute => response, token := Admit(r, now);
      }
    }

    /** A cancel request names the writer to stop and reaches it while it runs. It answers OK
        exactly if that writer is running and has not passed its commit point, and then that
        writer's own answer is not OK. */
    method HandleCancel(r: Request) returns (response: Response)
      requires r.opcode == OpCancel && (activeCancellation != null ==> activeCancellation.Valid())
      modifies activeCancellation
      ensures activeCancellation != null ==> activeCancellation.Valid()
      ensures response.status == StatusOk <==>
                && ValidateRequest(r, sessionHash) && activeWriterId == r.id
                && activeCancellation != null && old(activeCancellation.state) != Sealed
      ensures response.status == StatusOk ==> activeCancellation.promised
      ensures activeCancellation != null && old(activeCancellation.state) == Sealed ==>
                activeCancellation.state == Sealed
      ensures response.status != StatusOk ==>
                response.status == if ValidateRequest(r, sessionHash) then FailedPrecondition else BadRequest
      ensures activeCancellation != null && response.status != StatusOk ==>
                activeCancellation.state == old(activeCancellation.state)
    {
      if !ValidateRequest(r, sessionHash) { return Response(r.id, r.opcode, BadRequest, [], publishedFrontiers); }
      response := Response(r.id, r.opcode, FailedPrecondition, [], publishedFrontiers);
      if activeWriterId == r.id && activeCancellation != null {
        var ok := activeCancellation.AnswerCancel();
        if ok { response := response.(status := StatusOk); }
      }
    }

    /** Any request. A malformed one changes nothing; a cancel finds no writer running; a read
        reports the executor's frontiers, or that it is closed. */
    method Handle(r: Request, now: U64) returns (response: Response)
      requires Valid()
      modifies this
      modifies executor, executor.engine, executor.sampler, executor.worker0, executor.worker1, executor.env, journal
      ensures Valid()
      ensures !ValidateRequest(r, sessionHash) ==> response.status == BadRequest
      ensures ValidateRequest(r, sessionHash) && r.opcode == OpCancel ==> response.status == FailedPrecondition
      ensures !(ValidateRequest(r, sessionHash) && IsWriter(r.opcode)) ==>
                && CacheView() == old(CacheView()) && reached == old(reached)
                && executor.tokens == old(executor.tokens)
                && executor.engine.frontiers == old(executor.engine.frontiers)
      ensures old(executor.poisoned) ==> executor.poisoned && reached == old(reached)
    {
      if !ValidateRequest(r, sessionHash) { return Response(r.id, r.opcode, BadRequest, [], publishedFrontiers); }
      if r.opcode == OpCancel {
        response := HandleCancel(r);
      } else if IsWriter(r.opcode) {
        ghost var token;
        response, token := HandleWriter(r, now);
      } else {
        response := Response(r.id, r.opcode, if executor.poisoned then Poisoned else StatusOk, [],
                             executor.engine.frontiers);
      }
    }
  }
}
