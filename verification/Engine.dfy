/** The coordinator: one session's frontiers and at most one active transaction. */
module Engine {
  import opened Contracts

  datatype EngineState = EngineState(
    frontiers: Frontiers, txn: Txn, active: bool, ack0: bool, ack1: bool)

  const INITIAL := EngineState(ZERO_FRONTIERS, NO_TXN, false, false, false)

  datatype CommitEvent = CommitEvent(
    epoch: nat, canonical: nat, target: nat, newlyPublished: nat, kind: TxnKind)

  // ---------------------------------------------------------------------------
  // What each call does to the state. The first component is the returned bool.
  // ---------------------------------------------------------------------------

  function AppendKnownStep(s: EngineState, count: nat): (bool, EngineState) {
    if s.active || count == 0 || s.frontiers.canonical + count > U64_MAX then (false, s)
    else (true, s.(frontiers := s.frontiers.(canonical := s.frontiers.canonical + count)))
  }

  function SeedStep(s: EngineState): (bool, EngineState) {
    if s.active || s.frontiers.canonical != s.frontiers.target || s.frontiers.canonical + 1 > U64_MAX
    then (false, s)
    else (true, s.(frontiers := s.frontiers.(canonical := s.frontiers.canonical + 1)))
  }

  /** Which extents a transaction of each kind may evaluate from the given frontiers. */
  predicate Admissible(f: Frontiers, kind: TxnKind, count: nat) {
    && 0 < count
    && ValidateFrontiers(f)
    && f.epoch != U64_MAX
    && var pending := f.canonical - f.target;
       match kind
       case AppendKnown => count <= pending
       case Decode => pending == 1 && count == 1
       case Speculative => pending == 1
       case InvalidKind => false
  }

  function PrepareStep(s: EngineState, kind: TxnKind, count: nat): (bool, EngineState) {
    if s.active || !Admissible(s.frontiers, kind, count) then (false, s)
    else
      var f := s.frontiers;
      (true, EngineState(f, Txn(f.epoch + 1, f.target, count, kind, Prepared, 0, 0, f.canonical),
                         true, false, false))
  }

  function PrepareAppendStep(s: EngineState, appended: nat, evaluated: nat): (bool, EngineState) {
    var f := s.frontiers;
    if s.active || appended == 0 || !ValidateFrontiers(f) || f.canonical - f.target > 1
       || evaluated != appended + (f.canonical - f.target) || f.canonical + appended > U64_MAX
    then (false, s)
    else
      var reserved := s.(frontiers := f.(canonical := f.canonical + appended));
      var (ok, prepared) := PrepareStep(reserved, AppendKnown, evaluated);
      if ok then (true, prepared.(txn := prepared.txn.(baseCanonical := f.canonical)))
      else (false, s)
  }

  function AcknowledgeStep(s: EngineState, stage: Stage, epoch: nat, count: nat): (bool, EngineState) {
    if !s.active || epoch != s.txn.epoch || count != s.txn.evaluatedCount
       || (s.txn.status != Prepared && s.txn.status != Decided)
       || (if stage == Stage0 then s.ack0 else s.ack1)
    then (false, s)
    else (true, if stage == Stage0 then s.(ack0 := true) else s.(ack1 := true))
  }

  function ShortenStep(s: EngineState, count: nat): (bool, EngineState) {
    if !s.active || s.txn.status != Prepared || s.txn.kind != Speculative || s.ack0 || s.ack1
       || count == 0 || count >= s.txn.evaluatedCount
    then (false, s)
    else (true, s.(txn := s.txn.(evaluatedCount := count)))
  }

  /** Which accepted prefixes each kind may decide. */
  predicate Decidable(txn: Txn, count: nat) {
    match txn.kind
    case AppendKnown => count == txn.evaluatedCount
    case Decode => count == 1
    case Speculative => 0 < count <= txn.evaluatedCount
    case InvalidKind => false
  }

  function DecideStep(s: EngineState, count: nat): (bool, EngineState) {
    if !s.active || s.txn.status != Prepared || !Decidable(s.txn, count) then (false, s)
    else
      var published := if s.txn.kind == AppendKnown then 0 else count;
      (true, s.(txn := s.txn.(stateCommitCount := count, publishCount := published, status := Decided)))
  }

  function Advanced(f: Frontiers, txn: Txn): Frontiers {
    var target := f.target + txn.stateCommitCount;
    var publishes := txn.kind == Decode || txn.kind == Speculative;
    Frontiers(
      if publishes then f.canonical + txn.publishCount else f.canonical,
      target, target, target,
      if publishes || f.draft > target then target else f.draft,
      txn.epoch)
  }

  /** No 64-bit frontier wraps when the decided transaction is applied. */
  predicate FitsU64(f: Frontiers, txn: Txn) {
    && f.target + txn.stateCommitCount <= U64_MAX
    && (txn.kind == Decode || txn.kind == Speculative ==> f.canonical + txn.publishCount <= U64_MAX)
  }

  function CommitStep(s: EngineState): (bool, EngineState) {
    if !s.active || s.txn.status != Decided || !s.ack0 || !s.ack1
       || !FitsU64(s.frontiers, s.txn) || !ValidateFrontiers(Advanced(s.frontiers, s.txn))
    then (false, s)
    else (true, s.(frontiers := Advanced(s.frontiers, s.txn), active := false,
                   txn := s.txn.(status := Committed)))
  }

  function RolledBackFrontiers(f: Frontiers, txn: Txn): Frontiers {
    f.(canonical := if txn.kind == AppendKnown then txn.baseCanonical else f.canonical, epoch := txn.epoch)
  }

  function RollbackStep(s: EngineState): (bool, EngineState) {
    if !s.active then (false, s)
    else
      var f := RolledBackFrontiers(s.frontiers, s.txn);
      (ValidateFrontiers(f), EngineState(f, s.txn.(status := RolledBack), false, false, false))
  }

  function ResetStep(s: EngineState): (bool, EngineState) {
    if s.active then (false, s) else (true, INITIAL)
  }

  // ---------------------------------------------------------------------------
  // The invariant of every reachable state.
  // ---------------------------------------------------------------------------

  ghost predicate Ordered(f: Frontiers) {
    && f.stage0 == f.stage1 == f.target
    && f.draft <= f.target <= f.canonical <= U64_MAX
    && f.epoch <= U64_MAX
  }

  ghost predicate Inv(s: EngineState) {
    && Ordered(s.frontiers)
    && (s.active ==>
          && s.txn.epoch == s.frontiers.epoch + 1 <= U64_MAX
          && s.txn.baseTarget == s.frontiers.target
          && s.frontiers.target <= s.txn.baseCanonical <= s.frontiers.canonical
          && 0 < s.txn.evaluatedCount
          && (match s.txn.kind
              case AppendKnown => s.frontiers.target + s.txn.evaluatedCount <= s.frontiers.canonical
              case Decode => s.txn.evaluatedCount == 1 && s.frontiers.canonical == s.frontiers.target + 1
              case Speculative => s.frontiers.canonical == s.frontiers.target + 1
              case InvalidKind => false)
          && (s.txn.status == Prepared || s.txn.status == Decided)
          && (s.txn.status == Decided ==>
                && Decidable(s.txn, s.txn.stateCommitCount)
                && s.txn.publishCount == (if s.txn.kind == AppendKnown then 0 else s.txn.stateCommitCount)))
  }

  // ---------------------------------------------------------------------------
  // The class.
  // ---------------------------------------------------------------------------

  class SessionTxnEngine {
    var frontiers: Frontiers
    var txn: Txn
    var active: bool
    var stage0Ack: bool
    var stage1Ack: bool

    function View(): EngineState reads this {
      EngineState(frontiers, txn, active, stage0Ack, stage1Ack)
    }

    constructor ()
      ensures View() == INITIAL
    {
      frontiers, txn, active, stage0Ack, stage1Ack := ZERO_FRONTIERS, NO_TXN, false, false, false;
    }

    method KnownAppend(count: nat) returns (ok: bool)
      modifies this
      ensures (ok, View()) == AppendKnownStep(old(View()), count)
    {
      if active || count == 0 { return false; }
      ok := AddChecked(count);
    }

    /** Adds to the canonical frontier unless a 64-bit counter would wrap. */
    method AddChecked(add: nat) returns (ok: bool)
      modifies `frontiers
      ensures ok == (old(frontiers).canonical + add <= U64_MAX)
      ensures frontiers == if ok then old(frontiers).(canonical := old(frontiers).canonical + add) else old(frontiers)
    {
      if frontiers.canonical + add > U64_MAX { return false; }
      frontiers := frontiers.(canonical := frontiers.canonical + add);
      ok := true;
    }

    method PrepareAppendKnown(appended: nat, evaluated: nat) returns (ok: bool)
      modifies this
      ensures (ok, View()) == PrepareAppendStep(old(View()), appended, evaluated)
    {
      if active || appended == 0 || !ValidateFrontiers(frontiers) { return false; }
      var pending := frontiers.canonical - frontiers.target;
      if pending > 1 || evaluated != appended + pending { return false; }
      var baseCanonical := frontiers.canonical;
      ok := AddChecked(appended);
      if !ok { return; }
      ok := Prepare(AppendKnown, evaluated);
      if !ok {
        frontiers := frontiers.(canonical := baseCanonical);
        return;
      }
      txn := txn.(baseCanonical := baseCanonical);
    }

    method SeedDecodePending() returns (ok: bool)
      modifies this
      ensures (ok, View()) == SeedStep(old(View()))
    {
      if active || frontiers.canonical != frontiers.target { return false; }
      ok := AddChecked(1);
    }

    method Prepare(kind: TxnKind, count: nat) returns (ok: bool)
      modifies this
      ensures (ok, View()) == PrepareStep(old(View()), kind, count)
    {
      if active || count == 0 || !ValidateFrontiers(frontiers) { return false; }
      var pending := frontiers.canonical - frontiers.target;
      match kind {
        case AppendKnown => if count > pending { return false; }
        case Decode => if pending != 1 || count != 1 { return false; }
        case Speculative => if pending != 1 { return false; }
        case InvalidKind => return false;
      }
      if frontiers.epoch == U64_MAX { return false; }
      txn := Txn(frontiers.epoch + 1, frontiers.target, count, kind, Prepared, 0, 0, frontiers.canonical);
      active, stage0Ack, stage1Ack := true, false, false;
      ok := true;
    }

    method Acknowledge(stage: Stage, epoch: nat, count: nat) returns (ok: bool)
      modifies this
      ensures (ok, View()) == AcknowledgeStep(old(View()), stage, epoch, count)
    {
      if !active || (txn.status != Prepared && txn.status != Decided) { return false; }
      if epoch != txn.epoch || count != txn.evaluatedCount { return false; }
      if stage == Stage0 {
        if stage0Ack { return false; }
        stage0Ack := true;
      } else {
        if stage1Ack { return false; }
        stage1Ack := true;
      }
      ok := true;
    }

    method ShortenSpeculative(count: nat) returns (ok: bool)
      modifies this
      ensures (ok, View()) == ShortenStep(old(View()), count)
    {
      if !active || txn.status != Prepared || txn.kind != Speculative { return false; }
      if stage0Ack || stage1Ack { return false; }
      if count == 0 || count >= txn.evaluatedCount { return false; }
      txn := txn.(evaluatedCount := count);
      ok := true;
    }

    method Decide(count: nat) returns (ok: bool)
      modifies this
      ensures (ok, View()) == DecideStep(old(View()), count)
    {
      if !active || txn.status != Prepared { return false; }
      match txn.kind {
        case AppendKnown =>
          if count != txn.evaluatedCount { return false; }
          txn := txn.(publishCount := 0);
        case Decode =>
          if count != 1 { return false; }
          txn := txn.(publishCount := 1);
        case Speculative =>
          if count == 0 || count > txn.evaluatedCount { return false; }
          txn := txn.(publishCount := count);
        case InvalidKind => return false;
      }
      txn := txn.(stateCommitCount := count, status := Decided);
      ok := true;
    }

    method Commit() returns (ok: bool, event: CommitEvent)
      modifies this
      ensures (ok, View()) == CommitStep(old(View()))
      ensures ok ==> event == CommitEvent(old(txn).epoch, frontiers.canonical, frontiers.target,
                                          old(txn).publishCount, old(txn).kind)
    {
      event := CommitEvent(0, 0, 0, 0, InvalidKind);
      if !active || txn.status != Decided || !stage0Ack || !stage1Ack { return false, event; }
      var next := frontiers;
      if next.target + txn.stateCommitCount > U64_MAX { return false, event; }
      next := next.(target := next.target + txn.stateCommitCount);
      next := next.(stage0 := next.target, stage1 := next.target);
      if txn.kind == TxnKind.Decode || txn.kind == Speculative {
        if next.canonical + txn.publishCount > U64_MAX { return false, event; }
        next := next.(canonical := next.canonical + txn.publishCount, draft := next.target);
      } else if next.draft > next.target {
        next := next.(draft := next.target);
      }
      next := next.(epoch := txn.epoch);
      if !ValidateFrontiers(next) { return false, event; }
      event := CommitEvent(txn.epoch, next.canonical, next.target, txn.publishCount, txn.kind);
      txn := txn.(status := Committed);
      frontiers := next;
      active := false;
      ok := true;
    }

    method Rollback() returns (ok: bool)
      modifies this
      ensures (ok, View()) == RollbackStep(old(View()))
    {
      if !active { return false; }
      txn := txn.(status := RolledBack);
      if txn.kind == AppendKnown {
        frontiers := frontiers.(canonical := txn.baseCanonical);
      }
      frontiers := frontiers.(epoch := txn.epoch);
      active, stage0Ack, stage1Ack := false, false, false;
      ok := ValidateFrontiers(frontiers);
    }

    method Reset() returns (ok: bool)
      modifies this
      ensures (ok, View()) == ResetStep(old(View()))
    {
      if active { return false; }
      frontiers, txn, stage0Ack, stage1Ack := ZERO_FRONTIERS, NO_TXN, false, false;
      ok := true;
    }
  }

  // ---------------------------------------------------------------------------
  // Every run: arbitrary calls with arbitrary arguments, from the initial state.
  // ---------------------------------------------------------------------------

  datatype Op =
    | OpAppendKnown(count: nat)
    | OpSeed
    | OpPrepare(kind: TxnKind, count: nat)
    | OpPrepareAppend(appended: nat, evaluated: nat)
    | OpAcknowledge(stage: Stage, epoch: nat, count: nat)
    | OpShorten(count: nat)
    | OpDecide(count: nat)
    | OpCommit
    | OpRollback
    | OpReset

  function Apply(s: EngineState, op: Op): (bool, EngineState) {
    match op
    case OpAppendKnown(n) => AppendKnownStep(s, n)
    case OpSeed => SeedStep(s)
    case OpPrepare(k, n) => PrepareStep(s, k, n)
    case OpPrepareAppend(a, e) => PrepareAppendStep(s, a, e)
    case OpAcknowledge(g, e, n) => AcknowledgeStep(s, g, e, n)
    case OpShorten(n) => ShortenStep(s, n)
    case OpDecide(n) => DecideStep(s, n)
    case OpCommit => CommitStep(s)
    case OpRollback => RollbackStep(s)
    case OpReset => ResetStep(s)
  }

  /** A run, with the count each stage named in its accepted acknowledgement of the
      transaction prepared last. */
  datatype Run = Run(s: EngineState, acked: map<Stage, nat>)

  function RunOps(ops: seq<Op>): Run {
    if ops == [] then Run(INITIAL, map[])
    else
      var before := RunOps(ops[..|ops| - 1]);
      var op := ops[|ops| - 1];
      var (ok, after) := Apply(before.s, op);
      Run(after,
          if ok && op.OpAcknowledge? then before.acked[op.stage := op.count]
          else if ok && (op.OpPrepare? || op.OpPrepareAppend?) then map[]
          else before.acked)
  }

  ghost predicate RunInv(r: Run) {
    && Inv(r.s)
    && (r.s.active ==>
          && (r.s.ack0 <==> Stage0 in r.acked)
          && (r.s.ack1 <==> Stage1 in r.acked)
          && (Stage0 in r.acked ==> r.acked[Stage0] == r.s.txn.evaluatedCount)
          && (Stage1 in r.acked ==> r.acked[Stage1] == r.s.txn.evaluatedCount))
  }

  lemma StepKeepsInv(s: EngineState, op: Op)
    requires Inv(s)
    ensures Inv(Apply(s, op).1)
  {
  }

  /** Every reachable state has equal stage and target frontiers, an active epoch exactly
      one above the committed one, and acknowledgements of the final extent only. */
  lemma {:induction false} EveryRunKeepsInv(ops: seq<Op>)
    ensures RunInv(RunOps(ops))
  {
    if ops != [] {
      EveryRunKeepsInv(ops[..|ops| - 1]);
      StepKeepsInv(RunOps(ops[..|ops| - 1]).s, ops[|ops| - 1]);
    }
  }

  /** Epochs never move backwards except through a reset, and a commit or rollback
      consumes exactly one. */
  lemma {:induction false} EpochsAreConsumedOnce(ops: seq<Op>, op: Op)
    ensures var s := RunOps(ops).s; var (ok, after) := Apply(s, op);
            && (ok && (op.OpCommit? || op.OpRollback?) ==> after.frontiers.epoch == s.frontiers.epoch + 1)
            && (!(ok && (op.OpCommit? || op.OpRollback? || op.OpReset?)) ==> after.frontiers.epoch == s.frontiers.epoch)
  {
    EveryRunKeepsInv(ops);
  }

  /** A decided, doubly acknowledged transaction commits exactly when no counter wraps. */
  lemma CommitFailsOnlyOnOverflow(ops: seq<Op>)
    requires var s := RunOps(ops).s; s.active && s.txn.status == Decided && s.ack0 && s.ack1
    ensures var s := RunOps(ops).s; CommitStep(s).0 <==> FitsU64(s.frontiers, s.txn)
  {
    EveryRunKeepsInv(ops);
  }

  /** Rollback of an active transaction always succeeds, gives back every frontier the
      transaction found (an append also returns what it reserved), and burns the epoch. */
  lemma RollbackAlwaysSucceeds(ops: seq<Op>)
    requires RunOps(ops).s.active
    ensures var s := RunOps(ops).s; var (ok, after) := RollbackStep(s);
            && ok && !after.active
            && after.frontiers == s.frontiers.(epoch := s.txn.epoch,
                 canonical := if s.txn.kind == AppendKnown then s.txn.baseCanonical else s.frontiers.canonical)
            && Ordered(after.frontiers)
  {
    EveryRunKeepsInv(ops);
  }
}
