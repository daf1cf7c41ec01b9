/** What the executor's commit phase does when its stage 0 is the n-gram decorator. */
module PleExecutor {
  import opened Contracts
  import opened Engine
  import opened StageBackend
  import opened NgramHash
  import P = PleBackend

  /** The coordinator commits first, then both stages; a stage that cannot follow closes the
      executor. Over the decorator an online stop with rows left always ends that way: the
      coordinator has moved on, and stage 0 refuses. Without a fault it happens in no other case. */
  method CommitOver(engine: SessionTxnEngine, stage0: P.PleStage0Backend, stage1: MockStageBackend, epoch: nat, k: nat)
    returns (closed: bool)
    requires engine.active && Inv(engine.View()) && engine.txn.status == Prepared && engine.txn.epoch == epoch
    requires !engine.stage0Ack && !engine.stage1Ack && Decidable(engine.txn, k)
    requires engine.frontiers.canonical + k <= U64_MAX
    requires stage0.Valid() && stage0.inner != stage1 && stage0.inner.env == stage1.env
    requires stage0.provisionalEpoch == epoch != 0 && 0 < k <= stage0.provisionalProcessed
    requires P.Tracks(stage0.Own(), stage0.inner.provisionalTokens) && CommitAccepted(stage1.View(), epoch, k)
    modifies engine, stage0, stage0.inner, stage1, stage1.env
    ensures !engine.active && Inv(engine.View()) && engine.frontiers.epoch == epoch
    ensures engine.frontiers.target == old(engine.frontiers.target) + k
    ensures old(stage0.provisionalProcessed) < old(stage0.provisionalExpected) ==> closed
    ensures closed ==>
              old(stage0.provisionalProcessed) < old(stage0.provisionalExpected)
              || old(stage1.env.faults) < stage1.env.faults
    ensures !closed ==>
              stage0.committedHash == After(old(stage0.committedHash), old(stage0.inner.provisionalTokens)[..k])
  {
    Coordinate(engine, epoch, k);
    var c0 := stage0.Commit(epoch, k);
    var c1 := stage1.Commit(epoch, k);
    closed := c0.Err? || c1.Err?;
  }

  method Coordinate(engine: SessionTxnEngine, epoch: nat, k: nat)
    requires engine.active && Inv(engine.View()) && engine.txn.status == Prepared && engine.txn.epoch == epoch
    requires !engine.stage0Ack && !engine.stage1Ack && Decidable(engine.txn, k)
    requires engine.frontiers.canonical + k <= U64_MAX
    modifies engine
    ensures !engine.active && Inv(engine.View()) && engine.frontiers.epoch == epoch
    ensures engine.frontiers.target == old(engine.frontiers.target) + k
  {
    var evaluated := engine.txn.evaluatedCount;
    var ack0 := engine.Acknowledge(Stage0, epoch, evaluated);
    var ack1 := engine.Acknowledge(Stage1, epoch, evaluated);
    var decided := engine.Decide(k);
    var committed, event := engine.Commit();
  }
}
