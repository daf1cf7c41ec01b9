/** The cancellation token: one atomic word, changed by compare-and-swap from many threads. */
module Cancellation {
  import opened Contracts

  datatype CancelState = Active | CancelRequested | Expired | Sealed

  class CancellationToken {
    const hasDeadline: bool
    var state: CancelState
    /** Some RequestCancel returned true. */
    ghost var acknowledged: bool
    /** Some client's cancel was answered OK. */
    ghost var promised: bool

    ghost predicate Valid() reads this {
      && (acknowledged <==> state == CancelRequested)
      && (state == Expired ==> hasDeadline)
      && (promised ==> state == CancelRequested || state == Expired)
    }

    constructor (timeoutMs: nat)
      ensures Valid() && state == Active && !promised && hasDeadline == (timeoutMs != 0)
    {
      hasDeadline, state, acknowledged, promised := timeoutMs != 0, Active, false, false;
    }

    method RequestCancel() returns (ok: bool)
      requires Valid()
      modifies this
      ensures Valid()
      ensures ok <==> old(state) == Active
      ensures state == if ok then CancelRequested else old(state)
      ensures acknowledged == (ok || old(acknowledged)) && promised == old(promised)
    {
      ok := state == Active;
      if ok { state, acknowledged := CancelRequested, true; }
    }

    /** What a client's cancel is answered: OK unless the writer has passed its commit point. */
    method AnswerCancel() returns (ok: bool)
      requires Valid()
      modifies this
      ensures Valid() && (ok <==> old(state) != Sealed)
      ensures state == if old(state) == Active then CancelRequested else old(state)
      ensures promised == (ok || old(promised))
    {
      var requested := RequestCancel();
      ok := requested || state != Sealed;
      if ok { promised := true; }
    }

    /** Any number of other threads' atomic operations: a cancel request, or a deadline
        that passes while some thread looks at the clock. */
    method Interference()
      requires Valid()
      modifies this
      ensures Valid()
      ensures old(state) != Active ==> state == old(state)
      ensures state == Sealed ==> old(state) == Sealed
      ensures old(promised) ==> promised
    {
      if * {
        var _ := AnswerCancel();
      } else if * {
        if hasDeadline && state == Active { state := Expired; }
      }
    }

    method ThrowIfRequested() returns (f: Option<Failure>)
      requires Valid()
      modifies this
      ensures Valid()
      ensures old(state) != Active ==> state == old(state)
      ensures state == Sealed ==> old(state) == Sealed
      ensures old(promised) ==> promised
      ensures f.Some? ==> state == CancelRequested || state == Expired
      ensures f == (if state == Expired then Some(DeadlineExceeded)
                    else if state == CancelRequested then Some(Cancelled) else None)
    {
      Interference();
      f := if state == Expired then Some(DeadlineExceeded)
           else if state == CancelRequested then Some(Cancelled) else None;
    }

    /** Returning normally is the commit point: from then on the token is sealed. */
    method Seal() returns (f: Option<Failure>)
      requires Valid()
      modifies this
      ensures Valid()
      ensures f.None? <==> state == Sealed
      ensures f.Some? ==> state == CancelRequested || state == Expired
      ensures old(state) == Sealed ==> f.None?
      ensures old(promised) ==> promised && f.Some?
      ensures f == Some(Cancelled) ==> acknowledged
      ensures f.Some? ==> f.value == if state == Expired then DeadlineExceeded else Cancelled
    {
      f := ThrowIfRequested();
      if f.Some? { return; }
      Interference();
      if state == Active {
        state := Sealed;
      } else {
        f := ThrowIfRequested();
      }
    }
  }

  // ---------------------------------------------------------------------------
  // Interleavings. Any number of threads, each cancelling or sealing, one atomic
  // access to the word per step.
  // ---------------------------------------------------------------------------

  /** Where a thread stands inside request_cancel or seal. */
  datatype Pc =
    | CancelStart | CancelReturned(ok: bool)
    | SealExpire | SealLoad | SealSwap | SealExpireAgain | SealLoadAgain
    | SealReturned | SealThrew

  datatype World = World(word: CancelState, threads: seq<Pc>)

  /** One step of a thread; `late` says whether the clock it reads is past the deadline. */
  function StepThread(word: CancelState, pc: Pc, late: bool): (CancelState, Pc) {
    match pc
    case CancelStart =>
      if word == Active then (CancelRequested, CancelReturned(true)) else (word, CancelReturned(false))
    case SealExpire => (if late && word == Active then Expired else word, SealLoad)
    case SealLoad => (word, if word == Expired || word == CancelRequested then SealThrew else SealSwap)
    case SealSwap => if word == Active then (Sealed, SealReturned) else (word, SealExpireAgain)
    case SealExpireAgain => (if late && word == Active then Expired else word, SealLoadAgain)
    case SealLoadAgain => (word, if word == Expired || word == CancelRequested then SealThrew else SealReturned)
    case _ => (word, pc)
  }

  function StepWorld(w: World, thread: nat, late: bool): World {
    if thread >= |w.threads| then w
    else
      var (word, pc) := StepThread(w.word, w.threads[thread], late);
      World(word, w.threads[thread := pc])
  }

  function RunWorld(start: World, schedule: seq<(nat, bool)>): World {
    if schedule == [] then start
    else
      var last := schedule[|schedule| - 1];
      StepWorld(RunWorld(start, schedule[..|schedule| - 1]), last.0, last.1)
  }

  /** What each program point knows about the shared word. */
  ghost predicate Knows(word: CancelState, pc: Pc) {
    && (pc == CancelReturned(true) ==> word == CancelRequested)
    && (pc.SealReturned? ==> word == Sealed)
    && (pc.SealExpireAgain? || pc.SealLoadAgain? ==> word != Active)
  }

  ghost predicate WorldInv(w: World) {
    forall i :: 0 <= i < |w.threads| ==> Knows(w.word, w.threads[i])
  }

  lemma {:induction false} RunKeepsWorldInv(start: World, schedule: seq<(nat, bool)>)
    requires forall i :: 0 <= i < |start.threads| ==> start.threads[i] in {CancelStart, SealExpire}
    ensures WorldInv(RunWorld(start, schedule))
  {
    if schedule != [] {
      RunKeepsWorldInv(start, schedule[..|schedule| - 1]);
    }
  }

  /** In every interleaving, an acknowledged cancel excludes every normal return of seal. */
  lemma CancelExcludesSeal(start: World, schedule: seq<(nat, bool)>, i: nat, j: nat)
    requires forall k :: 0 <= k < |start.threads| ==> start.threads[k] in {CancelStart, SealExpire}
    requires var w := RunWorld(start, schedule); i < |w.threads| && j < |w.threads|
    ensures var w := RunWorld(start, schedule);
            !(w.threads[i] == CancelReturned(true) && w.threads[j].SealReturned?)
  {
    RunKeepsWorldInv(start, schedule);
    var w := RunWorld(start, schedule);
    assert Knows(w.word, w.threads[i]) && Knows(w.word, w.threads[j]);
  }
}
