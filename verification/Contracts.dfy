/** Shared vocabulary of the two-stage session runtime: frontiers, transactions,
    boundary frames, and the exceptions that cross component borders. */
module Contracts {

  const U32_MAX: nat := 0xFFFF_FFFF
  const U64_MAX: nat := 0xFFFF_FFFF_FFFF_FFFF

  type U16 = n: nat | n <= 0xFFFF
  type U32 = n: nat | n <= U32_MAX
  type U64 = n: nat | n <= U64_MAX
  type Positive = n: nat | 0 < n witness 1

  /** A token id; the runtime stores an int32. */
  type Token = int

  datatype Option<+T> = None | Some(value: T)

  /** The exception classes the executor's callers distinguish. */
  datatype Failure =
    | Cancelled
    | DeadlineExceeded
    | LengthError
    | InvalidArgument
    | LogicError
    | RuntimeError

  datatype Result<+T> = Ok(value: T) | Err(failure: Failure)

  datatype TxnKind = InvalidKind | AppendKnown | Decode | Speculative

  datatype TxnStatus = Empty | Prepared | Decided | Committed | RolledBack

  datatype Stage = Stage0 | Stage1

  datatype Frontiers = Frontiers(
    canonical: nat, target: nat, stage0: nat, stage1: nat, draft: nat, epoch: nat)

  /** Frontiers as the runtime stores them, every counter in 64 bits. */
  type StoredFrontiers = f: Frontiers |
      && f.canonical <= U64_MAX && f.target <= U64_MAX && f.stage0 <= U64_MAX
      && f.stage1 <= U64_MAX && f.draft <= U64_MAX && f.epoch <= U64_MAX
    witness Frontiers(0, 0, 0, 0, 0, 0)

  const ZERO_FRONTIERS := Frontiers(0, 0, 0, 0, 0, 0)

  datatype Txn = Txn(
    epoch: nat, baseTarget: nat, evaluatedCount: nat, kind: TxnKind, status: TxnStatus,
    stateCommitCount: nat, publishCount: nat, baseCanonical: nat)

  const NO_TXN := Txn(0, 0, 0, InvalidKind, Empty, 0, 0, 0)

  /** The check every component applies to frontiers it did not compute itself. */
  predicate ValidateFrontiers(f: Frontiers) {
    && f.stage0 == f.target
    && f.stage1 == f.target
    && f.target <= f.canonical
    && f.draft <= f.canonical
  }

  /** Header of the activation block that stage 0 hands to stage 1 (two-byte elements).
      `carried` is the checksum of the payload that travels with it. */
  datatype Frame = Frame(
    sessionHash: nat, epoch: nat, tokenStart: nat, tokenCount: nat, ready: bool,
    hiddenWidth: nat, payloadBytes: nat, payloadChecksum: nat, carried: nat)

  const NO_FRAME := Frame(0, 0, 0, 0, false, 0, 0, 0, 0)

  predicate ValidateBoundary(f: Frame, maxTokens: nat) {
    && f.ready
    && 0 < f.tokenCount <= maxTokens
    && 0 < f.hiddenWidth
    && f.hiddenWidth * f.tokenCount * 2 <= U64_MAX
    && f.payloadBytes == f.hiddenWidth * f.tokenCount * 2
  }

  predicate InVocabulary(tokens: seq<Token>, vocabulary: nat) {
    forall i :: 0 <= i < |tokens| ==> 0 <= tokens[i] < vocabulary
  }

  predicate PowerOfTwo(n: nat) {
    n == 1 || (n > 1 && n % 2 == 0 && PowerOfTwo(n / 2))
  }

  function Min(a: nat, b: nat): nat { if a <= b then a else b }

  predicate Distinct(s: seq<nat>) {
    forall i, j :: 0 <= i < j < |s| ==> s[i] != s[j]
  }
}
