/** Batched page reads through an asynchronous submission/completion ring: a sliding window of
    fixed buffers, refilled as soon as any read completes. */
module ReadRing {
  import opened Contracts
  import opened Faults
  import opened Wire

  datatype ReadRequest = ReadRequest(file: nat, offset: nat, expected: nat)

  /** The files behind the ring, the page size, the number of buffers and of submission entries. */
  datatype Setup = Setup(files: seq<seq<Byte>>, pageBytes: Positive, depth: Positive, entries: nat)

  /** The ring has a submission entry for every buffer. */
  predicate Fitting(s: Setup) { s.depth <= s.entries }

  /** The bytes a read of one page at the request's offset can deliver. */
  function Available(s: Setup, r: ReadRequest): (bytes: seq<Byte>)
    ensures |bytes| <= s.pageBytes
  {
    if r.file >= |s.files| || r.offset >= |s.files[r.file]| then []
    else s.files[r.file][r.offset..r.offset + Min(s.pageBytes, |s.files[r.file]| - r.offset)]
  }

  /** The file has what the request expects. */
  predicate Readable(s: Setup, r: ReadRequest) { r.expected <= |Available(s, r)| }

  // ---------------------------------------------------------------------------
  // The kernel's side.
  // ---------------------------------------------------------------------------

  /** A read into a buffer. */
  datatype Flight = Flight(buffer: nat, request: ReadRequest)

  /** A completion entry: the buffer it names and the number of bytes, negative for an error. */
  datatype Posted = Posted(buffer: nat, result: int)

  /** Entries submitted but not taken yet, reads in flight, completions posted and not consumed,
      and what the buffers hold. */
  datatype Kernel = Kernel(queued: seq<Flight>, flying: seq<Flight>, posted: seq<Posted>, memory: map<nat, seq<Byte>>)

  const FRESH := Kernel([], [], [], map[])

  /** Nothing queued, in flight, or unconsumed. */
  predicate Drained(k: Kernel) { k.queued == [] && k.flying == [] && k.posted == [] }

  function Backlog(k: Kernel): nat { |k.queued| + |k.flying| + |k.posted| }

  datatype Outcome = Whole | Short(bytes: nat) | Failed

  /** Which of the reads in flight completes next, and how. */
  datatype Arrival = Arrival(which: nat, outcome: Outcome)

  function Delivery(s: Setup, r: ReadRequest, o: Outcome): (data: seq<Byte>)
    ensures data <= Available(s, r) && (o.Whole? ==> data == Available(s, r))
  {
    match o
    case Whole => Available(s, r)
    case Short(n) => Available(s, r)[..Min(n, |Available(s, r)|)]
    case Failed => []
  }

  function Without(flights: seq<Flight>, i: nat): (r: seq<Flight>)
    requires i < |flights|
    ensures |r| == |flights| - 1
    ensures forall j :: 0 <= j < |r| ==> r[j] == flights[if j < i then j else j + 1]
  {
    flights[..i] + flights[i + 1..]
  }

  function Arrive(s: Setup, k: Kernel, a: Arrival): Kernel {
    if k.flying == [] then k
    else
      var i := a.which % |k.flying|;
      var f := k.flying[i];
      var data := Delivery(s, f.request, a.outcome);
      k.(flying := Without(k.flying, i), memory := k.memory[f.buffer := data],
         posted := k.posted + [Posted(f.buffer, if a.outcome.Failed? then -1 else |data|)])
  }

  function ArriveAll(s: Setup, k: Kernel, arrivals: seq<Arrival>): Kernel
    decreases |arrivals|
  {
    if arrivals == [] then k else ArriveAll(s, Arrive(s, k, arrivals[0]), arrivals[1..])
  }

  /** The kernel takes the oldest `n` entries. */
  function Enter(k: Kernel, n: nat): Kernel
    requires n <= |k.queued|
  {
    k.(queued := k.queued[n..], flying := k.flying + k.queued[..n])
  }

  // ---------------------------------------------------------------------------
  // The window.
  // ---------------------------------------------------------------------------

  /** The state of one batch: buffers not in use, the request each busy buffer serves, how far
      submission and completion have come, and what has been delivered. */
  datatype Window = Window(
    free: seq<nat>, active: map<nat, nat>, nextRequest: nat, completed: nat, outputs: map<nat, seq<Byte>>)

  /** Free and busy buffers together are all buffers. */
  ghost predicate Partitioned(w: Window, depth: nat) {
    && |w.free| + |w.active| == depth && Distinct(w.free)
    && (forall i :: 0 <= i < |w.free| ==> w.free[i] < depth && w.free[i] !in w.active)
    && (forall b :: b in w.active ==> b < depth)
  }

  /** No two buffers serve the same request. */
  ghost predicate OneEach(active: map<nat, nat>) {
    forall b, c :: b in active && c in active && b != c ==> active[b] != active[c]
  }

  /** Submitted requests are in flight or delivered, not both. */
  ghost predicate Split(active: map<nat, nat>, outputs: map<nat, seq<Byte>>, next: nat) {
    && (forall b :: b in active ==> active[b] < next && active[b] !in outputs)
    && (forall i :: i in outputs ==> i < next)
  }

  /** Every submitted request is served by exactly one buffer or has been delivered once. */
  ghost predicate Accounted(w: Window, n: nat) {
    && w.completed + |w.active| == w.nextRequest <= n && |w.outputs| == w.completed
    && OneEach(w.active) && Split(w.active, w.outputs, w.nextRequest)
  }

  function Submitted(w: Window): Window
    requires w.free != []
  {
    var b := w.free[|w.free| - 1];
    w.(free := w.free[..|w.free| - 1], active := w.active[b := w.nextRequest], nextRequest := w.nextRequest + 1)
  }

  function Reaped(w: Window, b: nat, data: seq<Byte>): Window
    requires b in w.active
  {
    w.(free := w.free + [b], active := w.active - {b}, completed := w.completed + 1,
       outputs := w.outputs[w.active[b] := data])
  }

  lemma SubmitPartitions(w: Window, depth: nat)
    requires Partitioned(w, depth) && w.free != []
    ensures w.free[|w.free| - 1] !in w.active && Partitioned(Submitted(w), depth)
  {
    var b, v := w.free[|w.free| - 1], Submitted(w);
    assert v.active.Keys == w.active.Keys + {b};
  }

  lemma SubmitOneEach(active: map<nat, nat>, b: nat, next: nat)
    requires OneEach(active) && b !in active && forall c :: c in active ==> active[c] < next
    ensures OneEach(active[b := next]) && |active[b := next]| == |active| + 1
  {
    assert active[b := next].Keys == active.Keys + {b};
  }

  lemma SubmitAccounts(w: Window, n: nat)
    requires Accounted(w, n) && w.free != [] && w.free[|w.free| - 1] !in w.active && w.nextRequest < n
    ensures Accounted(Submitted(w), n)
  {
    SubmitOneEach(w.active, w.free[|w.free| - 1], w.nextRequest);
    assert Split(Submitted(w).active, w.outputs, w.nextRequest + 1);
  }

  lemma ReapPartitions(w: Window, depth: nat, b: nat, data: seq<Byte>)
    requires Partitioned(w, depth) && b in w.active
    ensures Partitioned(Reaped(w, b, data), depth)
  {
    assert (w.active - {b}).Keys == w.active.Keys - {b};
  }

  lemma ReapCounts(active: map<nat, nat>, outputs: map<nat, seq<Byte>>, b: nat, data: seq<Byte>)
    requires b in active && active[b] !in outputs
    ensures |active - {b}| == |active| - 1 && |outputs[active[b] := data]| == |outputs| + 1
  {
    assert (active - {b}).Keys == active.Keys - {b};
    assert outputs[active[b] := data].Keys == outputs.Keys + {active[b]};
  }

  lemma ReapSplit(active: map<nat, nat>, outputs: map<nat, seq<Byte>>, next: nat, b: nat, data: seq<Byte>)
    requires OneEach(active) && Split(active, outputs, next) && b in active
    ensures OneEach(active - {b}) && Split(active - {b}, outputs[active[b] := data], next)
  {
    forall c | c in active - {b} ensures (active - {b})[c] != active[b] {
      assert (active - {b})[c] == active[c];
    }
  }

  lemma ReapAccounts(w: Window, n: nat, b: nat, data: seq<Byte>)
    requires Accounted(w, n) && b in w.active
    ensures w.active[b] !in w.outputs && Accounted(Reaped(w, b, data), n)
  {
    ReapCounts(w.active, w.outputs, b, data);
    ReapSplit(w.active, w.outputs, w.nextRequest, b, data);
  }

  ghost predicate Steady(s: Setup, w: Window, n: nat) { Partitioned(w, s.depth) && Accounted(w, n) }

  /** All buffers, the lowest on top of the stack. */
  function Descending(n: nat): (r: seq<nat>)
    ensures |r| == n && Distinct(r) && forall i :: 0 <= i < n ==> r[i] < n
    ensures n > 0 ==> r[n - 1] == 0
  {
    seq(n, i requires 0 <= i < n => n - 1 - i)
  }

  function Opening(s: Setup): Window { Window(Descending(s.depth), map[], 0, 0, map[]) }

  // ---------------------------------------------------------------------------
  // One batch.
  // ---------------------------------------------------------------------------

  /** What the outside does during one round of the loop: the kernel call that submits may fail
      after taking some entries, reads complete before and after the completion tail is looked
      at, and the wait may fail if nothing has completed. */
  datatype Round = Round(submitFault: Option<nat>, arrivals: seq<Arrival>, waitFault: bool, late: seq<Arrival>)

  const CALM := Round(None, [], false, [])

  predicate WholeArrivals(arrivals: seq<Arrival>) { forall i :: 0 <= i < |arrivals| ==> arrivals[i].outcome.Whole? }

  predicate FaultlessRound(r: Round) {
    r.submitFault.None? && !r.waitFault && WholeArrivals(r.arrivals) && WholeArrivals(r.late)
  }

  predicate Faultless(rounds: seq<Round>) { forall i :: 0 <= i < |rounds| ==> FaultlessRound(rounds[i]) }

  /** Fills the window: as many requests as there are free buffers and ring entries. */
  function Fill(s: Setup, k: Kernel, w: Window, requests: seq<ReadRequest>): (Kernel, Window)
    decreases |requests| - w.nextRequest
  {
    if w.nextRequest < |requests| && w.free != [] && |k.queued| < s.entries then
      var f := Flight(w.free[|w.free| - 1], requests[w.nextRequest]);
      Fill(s, k.(queued := k.queued + [f]), Submitted(w), requests)
    else (k, w)
  }

  function Content(memory: map<nat, seq<Byte>>, b: nat, n: nat): seq<Byte> {
    if b !in memory then [] else memory[b][..Min(n, |memory[b]|)]
  }

  /** Takes completions one by one; an error, a short read or a buffer that serves nobody fails
      the batch. */
  function Reap(s: Setup, memory: map<nat, seq<Byte>>, w: Window, requests: seq<ReadRequest>,
                entries: seq<Posted>): Option<Window>
    decreases |entries|
  {
    if entries == [] then Some(w)
    else
      var p := entries[0];
      if p.buffer !in w.active || w.active[p.buffer] >= |requests| || p.result < 0 then None
      else if p.result < requests[w.active[p.buffer]].expected || p.result > s.pageBytes then None
      else Reap(s, memory, Reaped(w, p.buffer, Content(memory, p.buffer, p.result)), requests, entries[1..])
  }

  datatype Step = Threw(k: Kernel) | Went(k: Kernel, w: Window)

  /** One round: fill, submit, wait, take what has completed. The completion head moves only
      when all of it could be taken. */
  function RoundStep(s: Setup, k: Kernel, w: Window, requests: seq<ReadRequest>, round: Round): Step {
    var filled := Fill(s, k, w, requests);
    FillGrows(s, k, w, requests);
    AfterFill(s, filled.0, filled.1, filled.1.nextRequest - w.nextRequest, requests, round)
  }

  function AfterFill(s: Setup, k: Kernel, w: Window, count: nat, requests: seq<ReadRequest>, round: Round): Step
    requires count <= |k.queued|
  {
    if count > 0 && round.submitFault.Some? then Threw(Enter(k, Min(round.submitFault.value, count - 1)))
    else if w.active == map[] then Threw(Enter(k, count))
    else AfterSubmit(s, Enter(k, count), w, requests, round)
  }

  function AfterSubmit(s: Setup, k: Kernel, w: Window, requests: seq<ReadRequest>, round: Round): Step {
    var arrived := ArriveAll(s, k, round.arrivals);
    if arrived.posted == [] && round.waitFault then Threw(arrived)
    else
      var awake := if arrived.posted == [] then Arrive(s, arrived, Arrival(0, Whole)) else arrived;
      if awake.posted == [] then Threw(awake)
      else
        var later := ArriveAll(s, awake, round.late);
        match Reap(s, later.memory, w, requests, awake.posted)
        case None => Threw(later)
        case Some(v) => ArriveAllGrows(s, awake, round.late); Went(later.(posted := later.posted[|awake.posted|..]), v)
  }

  lemma {:induction false} FillGrows(s: Setup, k: Kernel, w: Window, requests: seq<ReadRequest>)
    ensures var (k1, w1) := Fill(s, k, w, requests);
            && w.nextRequest <= w1.nextRequest && |k1.queued| == |k.queued| + w1.nextRequest - w.nextRequest
            && k.queued <= k1.queued && k1.flying == k.flying && k1.posted == k.posted && k1.memory == k.memory
    decreases |requests| - w.nextRequest
  {
    if w.nextRequest < |requests| && w.free != [] && |k.queued| < s.entries {
      var f := Flight(w.free[|w.free| - 1], requests[w.nextRequest]);
      FillGrows(s, k.(queued := k.queued + [f]), Submitted(w), requests);
    }
  }

  lemma {:induction false} ArriveAllGrows(s: Setup, k: Kernel, arrivals: seq<Arrival>)
    ensures var l := ArriveAll(s, k, arrivals);
            k.posted <= l.posted && l.queued == k.queued && |l.flying| + |l.posted| == |k.flying| + |k.posted|
    decreases |arrivals|
  {
    if arrivals != [] { ArriveAllGrows(s, Arrive(s, k, arrivals[0]), arrivals[1..]); }
  }

  function RoundAt(rounds: seq<Round>): Round { if rounds == [] then CALM else rounds[0] }

  function RoundsBehind(rounds: seq<Round>): seq<Round> { if rounds == [] then [] else rounds[1..] }

  function ReadFrom(s: Setup, k: Kernel, w: Window, requests: seq<ReadRequest>,
                    rounds: seq<Round>): (Kernel, Result<map<nat, seq<Byte>>>)
    decreases |requests| - w.completed
  {
    if w.completed >= |requests| then (k, Ok(w.outputs))
    else
      match RoundStep(s, k, w, requests, RoundAt(rounds))
      case Threw(k1) => (k1, Err(RuntimeError))
      case Went(k1, w1) =>
        if w1.completed <= w.completed then (k1, Err(RuntimeError))
        else ReadFrom(s, k1, w1, requests, RoundsBehind(rounds))
  }

  /** A whole batch, from whatever an earlier one left in the ring. */
  function ReadBatch(s: Setup, k: Kernel, requests: seq<ReadRequest>,
                     rounds: seq<Round>): (Kernel, Result<map<nat, seq<Byte>>>)
  {
    if requests == [] then (k, Err(InvalidArgument)) else ReadFrom(s, k, Opening(s), requests, rounds)
  }

  // ---------------------------------------------------------------------------
  // What holds of every batch, whatever the ring was left with.
  // ---------------------------------------------------------------------------

  lemma {:induction false} FillSteady(s: Setup, k: Kernel, w: Window, requests: seq<ReadRequest>)
    requires Steady(s, w, |requests|)
    ensures var (k1, w1) := Fill(s, k, w, requests);
            && Steady(s, w1, |requests|) && w1.completed == w.completed && w1.outputs == w.outputs
            && |w1.active| - |w.active| == w1.nextRequest - w.nextRequest
            && (w1.nextRequest == |requests| || w1.free == [] || |k1.queued| >= s.entries)
    decreases |requests| - w.nextRequest
  {
    if w.nextRequest < |requests| && w.free != [] && |k.queued| < s.entries {
      SubmitPartitions(w, s.depth);
      SubmitAccounts(w, |requests|);
      var f := Flight(w.free[|w.free| - 1], requests[w.nextRequest]);
      FillSteady(s, k.(queued := k.queued + [f]), Submitted(w), requests);
    }
  }

  lemma {:induction false} ReapSteady(s: Setup, memory: map<nat, seq<Byte>>, w: Window, requests: seq<ReadRequest>,
                                      entries: seq<Posted>)
    requires Steady(s, w, |requests|)
    ensures var v := Reap(s, memory, w, requests, entries);
            v.Some? ==>
              && Steady(s, v.value, |requests|) && v.value.completed == w.completed + |entries|
              && |v.value.active| == |w.active| - |entries|
    decreases |entries|
  {
    if Reap(s, memory, w, requests, entries).Some? && entries != [] {
      var p := entries[0];
      var data := Content(memory, p.buffer, p.result);
      ReapPartitions(w, s.depth, p.buffer, data);
      ReapAccounts(w, |requests|, p.buffer, data);
      ReapSteady(s, memory, Reaped(w, p.buffer, data), requests, entries[1..]);
    }
  }

  /** What a round does from a backlog of `backlog` beside the window's own `active` entries: it
      delivers something and consumes exactly what it delivers, or leaves everything behind. */
  ghost predicate Sound(s: Setup, step: Step, completed: nat, n: nat, backlog: int) {
    match step
    case Went(k, w) => Steady(s, w, n) && completed < w.completed && Backlog(k) - |w.active| == backlog
    case Threw(k) => Backlog(k) >= backlog && Backlog(k) > 0
  }

  lemma RoundConserves(s: Setup, k: Kernel, w: Window, requests: seq<ReadRequest>, round: Round)
    requires Fitting(s) && Steady(s, w, |requests|) && w.completed < |requests| && |w.active| <= Backlog(k)
    ensures Sound(s, RoundStep(s, k, w, requests, round), w.completed, |requests|, Backlog(k) - |w.active|)
  {
    var k1, w1, count := RoundSplits(s, k, w, requests, round);
    AfterFillConserves(s, k1, w1, count, requests, round);
  }

  lemma RoundSplits(s: Setup, k: Kernel, w: Window, requests: seq<ReadRequest>, round: Round)
    returns (k1: Kernel, w1: Window, count: nat)
    requires Fitting(s) && Steady(s, w, |requests|) && w.completed < |requests| && |w.active| <= Backlog(k)
    ensures count <= |k1.queued| && RoundStep(s, k, w, requests, round) == AfterFill(s, k1, w1, count, requests, round)
    ensures Steady(s, w1, |requests|) && w1.completed == w.completed
    ensures Backlog(k1) - |w1.active| == Backlog(k) - |w.active| && Backlog(k1) > 0
  {
    FillConserves(s, k, w, requests);
    RoundIs(s, k, w, requests, round);
    var filled := Fill(s, k, w, requests);
    k1, w1, count := filled.0, filled.1, filled.1.nextRequest - w.nextRequest;
  }

  lemma RoundIs(s: Setup, k: Kernel, w: Window, requests: seq<ReadRequest>, round: Round)
    ensures var filled := Fill(s, k, w, requests);
            && 0 <= filled.1.nextRequest - w.nextRequest <= |filled.0.queued|
            && RoundStep(s, k, w, requests, round)
               == AfterFill(s, filled.0, filled.1, filled.1.nextRequest - w.nextRequest, requests, round)
  {
    FillGrows(s, k, w, requests);
  }

  lemma FillConserves(s: Setup, k: Kernel, w: Window, requests: seq<ReadRequest>)
    requires Fitting(s) && Steady(s, w, |requests|) && w.completed < |requests| && |w.active| <= Backlog(k)
    ensures var (k1, w1) := Fill(s, k, w, requests);
            && w.nextRequest <= w1.nextRequest && w1.nextRequest - w.nextRequest <= |k1.queued|
            && Steady(s, w1, |requests|) && w1.completed == w.completed
            && Backlog(k1) + |w.active| == Backlog(k) + |w1.active| && Backlog(k1) > 0
  {
    FillGrows(s, k, w, requests);
    FillSteady(s, k, w, requests);
  }

  lemma AfterFillConserves(s: Setup, k: Kernel, w: Window, count: nat, requests: seq<ReadRequest>, round: Round)
    requires Steady(s, w, |requests|) && count <= |k.queued| && Backlog(k) > 0
    ensures Sound(s, AfterFill(s, k, w, count, requests, round), w.completed, |requests|, Backlog(k) - |w.active|)
  {
    if !(count > 0 && round.submitFault.Some?) && w.active != map[] {
      SubmitConserves(s, Enter(k, count), w, requests, round);
    }
  }

  lemma SubmitConserves(s: Setup, k: Kernel, w: Window, requests: seq<ReadRequest>, round: Round)
    requires Steady(s, w, |requests|) && Backlog(k) > 0
    ensures Sound(s, AfterSubmit(s, k, w, requests, round), w.completed, |requests|, Backlog(k) - |w.active|)
  {
    var arrived := ArriveAll(s, k, round.arrivals);
    ArriveAllGrows(s, k, round.arrivals);
    var awake := if arrived.posted == [] then Arrive(s, arrived, Arrival(0, Whole)) else arrived;
    var later := ArriveAll(s, awake, round.late);
    ArriveAllGrows(s, awake, round.late);
    ReapSteady(s, later.memory, w, requests, awake.posted);
  }

  /** Over a whole batch nothing is lost or gained on success, and something stays behind on
      failure. */
  lemma {:induction false} ReadConserves(s: Setup, k: Kernel, w: Window, requests: seq<ReadRequest>, rounds: seq<Round>)
    requires Fitting(s) && Steady(s, w, |requests|) && |w.active| <= Backlog(k)
    ensures var (k1, r) := ReadFrom(s, k, w, requests, rounds);
            if r.Ok? then Backlog(k1) + |w.active| == Backlog(k)
            else Backlog(k1) + |w.active| >= Backlog(k) && Backlog(k1) > 0
    decreases |requests| - w.completed
  {
    if w.completed < |requests| {
      RoundConserves(s, k, w, requests, RoundAt(rounds));
      var step := RoundStep(s, k, w, requests, RoundAt(rounds));
      if step.Went? { ReadConserves(s, step.k, step.w, requests, RoundsBehind(rounds)); }
    }
  }

  /** The backlog of a ring never shrinks: a batch that succeeds leaves as much as it found, one
      that fails leaves at least that and at least one entry. */
  lemma BatchConserves(s: Setup, k: Kernel, requests: seq<ReadRequest>, rounds: seq<Round>)
    requires Fitting(s) && requests != []
    ensures var (k1, r) := ReadBatch(s, k, requests, rounds);
            if r.Ok? then Backlog(k1) == Backlog(k) else Backlog(k1) >= Backlog(k) && !Drained(k1)
  {
    assert Steady(s, Opening(s), |requests|);
    ReadConserves(s, k, Opening(s), requests, rounds);
  }

  /** A sequence of batches on one ring: what is left in it, and whether all succeeded. */
  function Batches(s: Setup, k: Kernel, batches: seq<(seq<ReadRequest>, seq<Round>)>): (Kernel, bool) {
    if batches == [] then (k, true)
    else
      var (before, ok) := Batches(s, k, batches[..|batches| - 1]);
      var (requests, rounds) := batches[|batches| - 1];
      var (after, r) := ReadBatch(s, before, requests, rounds);
      (after, ok && r.Ok?)
  }

  /** From a fresh ring, the ring is drained exactly as long as no batch has failed. */
  lemma {:induction false} DrainedUntilFailure(s: Setup, batches: seq<(seq<ReadRequest>, seq<Round>)>)
    requires Fitting(s) && forall i :: 0 <= i < |batches| ==> batches[i].0 != []
    ensures var (k, ok) := Batches(s, FRESH, batches); Drained(k) <==> ok
  {
    if batches != [] {
      var earlier := batches[..|batches| - 1];
      DrainedUntilFailure(s, earlier);
      BatchConserves(s, Batches(s, FRESH, earlier).0, batches[|batches| - 1].0, batches[|batches| - 1].1);
    }
  }

  // ---------------------------------------------------------------------------
  // A batch on a drained ring.
  // ---------------------------------------------------------------------------

  /** The buffer is busy with this very request. */
  predicate Serves(f: Flight, w: Window, requests: seq<ReadRequest>) {
    f.buffer in w.active && w.active[f.buffer] < |requests| && f.request == requests[w.active[f.buffer]]
  }

  /** The completion belongs to a busy buffer that holds what its request can get; all of it if
      nothing has gone wrong. */
  predicate Reports(s: Setup, p: Posted, memory: map<nat, seq<Byte>>, w: Window, requests: seq<ReadRequest>,
                    calm: bool) {
    && p.buffer in w.active && w.active[p.buffer] < |requests| && p.buffer in memory
    && var full := Available(s, requests[w.active[p.buffer]]);
       && (p.result >= 0 ==> p.result == |memory[p.buffer]| && memory[p.buffer] <= full)
       && (calm ==> p.result >= 0 && memory[p.buffer] == full)
  }

  /** No buffer is named twice. */
  ghost predicate Apart(flights: seq<Flight>, posted: seq<Posted>) {
    && (forall i, j :: 0 <= i < j < |flights| ==> flights[i].buffer != flights[j].buffer)
    && (forall i, j :: 0 <= i < j < |posted| ==> posted[i].buffer != posted[j].buffer)
    && (forall i, j :: 0 <= i < |flights| && 0 <= j < |posted| ==> flights[i].buffer != posted[j].buffer)
  }

  /** The kernel has exactly the busy buffers, each with its own request. */
  ghost predicate InStep(s: Setup, flights: seq<Flight>, posted: seq<Posted>, memory: map<nat, seq<Byte>>,
                         w: Window, requests: seq<ReadRequest>, calm: bool) {
    && Apart(flights, posted) && |flights| + |posted| == |w.active|
    && (forall i :: 0 <= i < |flights| ==> Serves(flights[i], w, requests))
    && (forall i :: 0 <= i < |posted| ==> Reports(s, posted[i], memory, w, requests, calm))
  }

  /** What was delivered for a request is what its file holds there, and enough of it; all of it
      if nothing has gone wrong. */
  ghost predicate Delivered(s: Setup, requests: seq<ReadRequest>, outputs: map<nat, seq<Byte>>, calm: bool) {
    forall i :: i in outputs ==>
      && i < |requests| && requests[i].expected <= |outputs[i]| && outputs[i] <= Available(s, requests[i])
      && (calm ==> outputs[i] == Available(s, requests[i]))
  }

  lemma SubmitInStep(s: Setup, flights: seq<Flight>, posted: seq<Posted>, memory: map<nat, seq<Byte>>,
                     w: Window, requests: seq<ReadRequest>, calm: bool)
    requires InStep(s, flights, posted, memory, w, requests, calm)
    requires w.free != [] && w.free[|w.free| - 1] !in w.active && w.nextRequest < |requests|
    ensures InStep(s, flights + [Flight(w.free[|w.free| - 1], requests[w.nextRequest])], posted, memory, Submitted(w),
                   requests, calm)
  {
    var b, v := w.free[|w.free| - 1], Submitted(w);
    assert v.active.Keys == w.active.Keys + {b};
    forall i | 0 <= i < |flights| ensures flights[i].buffer != b && Serves(flights[i], v, requests) {
      assert Serves(flights[i], w, requests);
    }
    forall i | 0 <= i < |posted| ensures posted[i].buffer != b && Reports(s, posted[i], memory, v, requests, calm) {
      assert Reports(s, posted[i], memory, w, requests, calm);
    }
  }

  lemma {:induction false} FillInStep(s: Setup, k: Kernel, w: Window, requests: seq<ReadRequest>, calm: bool)
    requires Steady(s, w, |requests|) && InStep(s, k.flying + k.queued, k.posted, k.memory, w, requests, calm)
    ensures var (k1, w1) := Fill(s, k, w, requests);
            InStep(s, k1.flying + k1.queued, k1.posted, k1.memory, w1, requests, calm)
    decreases |requests| - w.nextRequest
  {
    if w.nextRequest < |requests| && w.free != [] && |k.queued| < s.entries {
      SubmitPartitions(w, s.depth);
      SubmitAccounts(w, |requests|);
      SubmitInStep(s, k.flying + k.queued, k.posted, k.memory, w, requests, calm);
      var f := Flight(w.free[|w.free| - 1], requests[w.nextRequest]);
      assert k.flying + (k.queued + [f]) == k.flying + k.queued + [f];
      FillInStep(s, k.(queued := k.queued + [f]), Submitted(w), requests, calm);
    }
  }

  /** Kernel and window agree and nothing waits to be taken. */
  ghost predicate Flowing(s: Setup, k: Kernel, w: Window, requests: seq<ReadRequest>, calm: bool) {
    k.queued == [] && InStep(s, k.flying, k.posted, k.memory, w, requests, calm)
  }

  lemma ArriveFlows(s: Setup, k: Kernel, w: Window, requests: seq<ReadRequest>, calm: bool, a: Arrival)
    requires Flowing(s, k, w, requests, calm) && (calm ==> a.outcome.Whole?)
    ensures Flowing(s, Arrive(s, k, a), w, requests, calm)
  {
    if k.flying != [] {
      var i := a.which % |k.flying|;
      ArriveInStep(s, k.flying, k.posted, k.memory, w, requests, calm, i, a.outcome);
    }
  }

  lemma ArriveInStep(s: Setup, flights: seq<Flight>, posted: seq<Posted>, memory: map<nat, seq<Byte>>,
                     w: Window, requests: seq<ReadRequest>, calm: bool, i: nat, o: Outcome)
    requires InStep(s, flights, posted, memory, w, requests, calm) && i < |flights| && (calm ==> o.Whole?)
    ensures var f := flights[i]; var data := Delivery(s, f.request, o);
            InStep(s, Without(flights, i), posted + [Posted(f.buffer, if o.Failed? then -1 else |data|)],
                   memory[f.buffer := data], w, requests, calm)
  {
    var f := flights[i];
    var data := Delivery(s, f.request, o);
    var p := Posted(f.buffer, if o.Failed? then -1 else |data|);
    var after := memory[f.buffer := data];
    assert Serves(f, w, requests) && Reports(s, p, after, w, requests, calm);
    forall j | 0 <= j < |posted| ensures Reports(s, posted[j], after, w, requests, calm) {
      assert Reports(s, posted[j], memory, w, requests, calm) && flights[i].buffer != posted[j].buffer;
    }
  }

  lemma {:induction false} ArriveAllFlows(s: Setup, k: Kernel, w: Window, requests: seq<ReadRequest>, calm: bool,
                                          arrivals: seq<Arrival>)
    requires Flowing(s, k, w, requests, calm) && (calm ==> WholeArrivals(arrivals))
    ensures Flowing(s, ArriveAll(s, k, arrivals), w, requests, calm)
    decreases |arrivals|
  {
    if arrivals != [] {
      ArriveFlows(s, k, w, requests, calm, arrivals[0]);
      ArriveAllFlows(s, Arrive(s, k, arrivals[0]), w, requests, calm, arrivals[1..]);
    }
  }

  lemma ReapOneInStep(s: Setup, flights: seq<Flight>, posted: seq<Posted>, memory: map<nat, seq<Byte>>,
                      w: Window, requests: seq<ReadRequest>, calm: bool)
    requires InStep(s, flights, posted, memory, w, requests, calm) && posted != [] && posted[0].result >= 0
    ensures posted[0].buffer in w.active
    ensures var b := posted[0].buffer;
            InStep(s, flights, posted[1..], memory, Reaped(w, b, Content(memory, b, posted[0].result)), requests, calm)
  {
    var b := posted[0].buffer;
    assert Reports(s, posted[0], memory, w, requests, calm);
    var v := Reaped(w, b, Content(memory, b, posted[0].result));
    assert v.active.Keys == w.active.Keys - {b};
    forall i | 0 <= i < |flights| ensures Serves(flights[i], v, requests) {
      assert Serves(flights[i], w, requests) && flights[i].buffer != posted[0].buffer;
    }
    forall i | 1 <= i < |posted| ensures Reports(s, posted[i], memory, v, requests, calm) {
      assert Reports(s, posted[i], memory, w, requests, calm) && posted[0].buffer != posted[i].buffer;
    }
  }

  lemma ReapOneDelivers(s: Setup, p: Posted, memory: map<nat, seq<Byte>>, w: Window, requests: seq<ReadRequest>,
                        calm: bool)
    requires Reports(s, p, memory, w, requests, calm) && Delivered(s, requests, w.outputs, calm)
    requires p.result >= requests[w.active[p.buffer]].expected
    ensures Delivered(s, requests, Reaped(w, p.buffer, Content(memory, p.buffer, p.result)).outputs, calm)
  {
    assert Content(memory, p.buffer, p.result) == memory[p.buffer];
  }

  /** Taking the first `n` completions. Nothing fails if nothing has gone wrong. */
  lemma {:induction false} ReapInStep(s: Setup, flights: seq<Flight>, posted: seq<Posted>, n: nat, memory: map<nat,
                                      seq<Byte>>,
                                      w: Window, requests: seq<ReadRequest>, calm: bool)
    requires InStep(s, flights, posted, memory, w, requests, calm) && Delivered(s, requests, w.outputs, calm)
    requires n <= |posted|
    ensures var v := Reap(s, memory, w, requests, posted[..n]);
            && (v.Some? ==>
                InStep(s, flights, posted[n..], memory, v.value, requests, calm)
                && Delivered(s, requests, v.value.outputs, calm))
            && (calm && AllReadable(s, requests) ==> v.Some?)
    decreases n
  {
    if n > 0 {
      var p := posted[0];
      assert Reports(s, p, memory, w, requests, calm) && posted[..n][0] == p;
      if p.result >= 0 && p.result >= requests[w.active[p.buffer]].expected {
        ReapOneInStep(s, flights, posted, memory, w, requests, calm);
        ReapOneDelivers(s, p, memory, w, requests, calm);
        var v := Reaped(w, p.buffer, Content(memory, p.buffer, p.result));
        assert posted[1..][..n - 1] == posted[..n][1..] && posted[1..][n - 1..] == posted[n..];
        ReapInStep(s, flights, posted[1..], n - 1, memory, v, requests, calm);
      }
    }
  }

  predicate AllReadable(s: Setup, requests: seq<ReadRequest>) {
    forall i :: 0 <= i < |requests| ==> Readable(s, requests[i])
  }

  /** A round that goes through keeps kernel and window together and delivers only right bytes;
      one without faults goes through. */
  ghost predicate Right(s: Setup, step: Step, requests: seq<ReadRequest>, calm: bool) {
    && (step.Went? ==> Flowing(s, step.k, step.w, requests, calm) && Delivered(s, requests, step.w.outputs, calm))
    && (calm && AllReadable(s, requests) ==> step.Went?)
  }

  lemma SubmittedIsRight(s: Setup, k: Kernel, w: Window, requests: seq<ReadRequest>, round: Round, calm: bool)
    requires Flowing(s, k, w, requests, calm) && Delivered(s, requests, w.outputs, calm) && w.active != map[]
    requires calm ==> FaultlessRound(round)
    ensures Right(s, AfterSubmit(s, k, w, requests, round), requests, calm)
  {
    var arrived := ArriveAll(s, k, round.arrivals);
    ArriveAllFlows(s, k, w, requests, calm, round.arrivals);
    var awake := if arrived.posted == [] then Arrive(s, arrived, Arrival(0, Whole)) else arrived;
    if arrived.posted == [] { ArriveFlows(s, arrived, w, requests, calm, Arrival(0, Whole)); }
    assert arrived.posted == [] ==> |arrived.flying| == |w.active| > 0;
    var later := ArriveAll(s, awake, round.late);
    ArriveAllFlows(s, awake, w, requests, calm, round.late);
    ArriveAllGrows(s, awake, round.late);
    var n := |awake.posted|;
    assert later.posted[..n] == awake.posted;
    ReapInStep(s, later.flying, later.posted, n, later.memory, w, requests, calm);
  }

  lemma FilledIsRight(s: Setup, k: Kernel, w: Window, count: nat, requests: seq<ReadRequest>, round: Round, calm: bool)
    requires InStep(s, k.flying + k.queued, k.posted, k.memory, w, requests, calm) && count == |k.queued|
    requires Delivered(s, requests, w.outputs, calm) && w.active != map[] && (calm ==> FaultlessRound(round))
    ensures Right(s, AfterFill(s, k, w, count, requests, round), requests, calm)
  {
    assert k.queued[..count] == k.queued;
    SubmittedIsRight(s, Enter(k, count), w, requests, round, calm);
  }

  lemma RoundIsRight(s: Setup, k: Kernel, w: Window, requests: seq<ReadRequest>, round: Round, calm: bool)
    requires Fitting(s) && Steady(s, w, |requests|) && w.completed < |requests|
    requires Flowing(s, k, w, requests, calm) && Delivered(s, requests, w.outputs, calm)
    requires (calm ==> FaultlessRound(round))
    ensures Right(s, RoundStep(s, k, w, requests, round), requests, calm)
  {
    assert k.flying + k.queued == k.flying;
    FillInStep(s, k, w, requests, calm);
    FillIsBusy(s, k, w, requests);
    var filled := Fill(s, k, w, requests);
    FilledIsRight(s, filled.0, filled.1, filled.1.nextRequest - w.nextRequest, requests, round, calm);
  }

  /** While requests are left something is in flight: the no-progress error cannot occur. */
  lemma FillIsBusy(s: Setup, k: Kernel, w: Window, requests: seq<ReadRequest>)
    requires Fitting(s) && Steady(s, w, |requests|) && w.completed < |requests| && k.queued == []
    ensures var (k1, w1) := Fill(s, k, w, requests);
            && w1.active != map[] && w1.outputs == w.outputs && w.nextRequest + |k1.queued| == w1.nextRequest
  {
    FillGrows(s, k, w, requests);
    FillSteady(s, k, w, requests);
    assert |Fill(s, k, w, requests).1.active| > 0;
  }

  /** What a finished batch owes its caller. */
  ghost predicate Answered(s: Setup, k: Kernel, r: Result<map<nat, seq<Byte>>>, requests: seq<ReadRequest>,
                           calm: bool) {
    && (r.Ok? ==> Drained(k) && Delivered(s, requests, r.value, calm))
    && (r.Ok? ==> forall i :: 0 <= i < |requests| ==> i in r.value)
    && (calm && AllReadable(s, requests) ==> r.Ok?)
  }

  lemma {:induction false} ReadIsRight(s: Setup, k: Kernel, w: Window, requests: seq<ReadRequest>, rounds: seq<Round>,
                                       calm: bool)
    requires Fitting(s) && Steady(s, w, |requests|) && (calm ==> Faultless(rounds))
    requires Flowing(s, k, w, requests, calm) && Delivered(s, requests, w.outputs, calm)
    ensures var (k1, r) := ReadFrom(s, k, w, requests, rounds); Answered(s, k1, r, requests, calm)
    decreases |requests| - w.completed
  {
    if w.completed < |requests| {
      var round := RoundAt(rounds);
      var step := RoundStep(s, k, w, requests, round);
      RoundIsRight(s, k, w, requests, round, calm);
      RoundConserves(s, k, w, requests, round);
      if step.Went? { ReadIsRight(s, step.k, step.w, requests, RoundsBehind(rounds), calm); }
    } else {
      assert |w.active| == 0;
      AllDelivered(w.outputs.Keys, |requests|);
    }
  }

  /** From a drained ring, for every order of completions: a batch that succeeds has delivered
      every request once, with the bytes its file holds, and leaves the ring drained; a batch of
      readable requests that meets no fault succeeds. */
  lemma DrainedBatchIsRight(s: Setup, k: Kernel, requests: seq<ReadRequest>, rounds: seq<Round>, calm: bool)
    requires Fitting(s) && Drained(k) && requests != [] && (calm ==> Faultless(rounds))
    ensures var (k1, r) := ReadBatch(s, k, requests, rounds); Answered(s, k1, r, requests, calm)
  {
    ReadIsRight(s, k, Opening(s), requests, rounds, calm);
  }

  /** Once as many requests are delivered as there are, each one is. */
  lemma {:induction false} AllDelivered(delivered: set<nat>, n: nat)
    requires |delivered| == n && forall i :: i in delivered ==> i < n
    ensures forall i :: 0 <= i < n ==> i in delivered
  {
    if n > 0 {
      if n - 1 in delivered {
        AllDelivered(delivered - {n - 1}, n - 1);
      } else {
        Bounded(delivered, n - 1);
      }
    }
  }

  lemma {:induction false} Bounded(s: set<nat>, n: nat)
    requires forall i :: i in s ==> i < n
    ensures |s| <= n
  {
    if n == 0 {
      assert s == {};
    } else {
      Bounded(s - {n - 1}, n - 1);
    }
  }

  // ---------------------------------------------------------------------------
  // A batch on a ring that an earlier one left undrained.
  // ---------------------------------------------------------------------------

  /** The wait of one batch fails while its read is in flight; the next batch takes that read's
      completion for its own and succeeds with another page's bytes. */
  lemma StaleCompletionIsDelivered(s: Setup, a: ReadRequest, b: ReadRequest)
    requires Fitting(s) && b.expected <= |Available(s, a)|
    ensures var (k, first) := ReadBatch(s, FRESH, [a], [CALM.(waitFault := true)]);
            && first.Err? && k.flying == [Flight(0, a)]
            && ReadBatch(s, k, [b], []).1 == Ok(map[0 := Available(s, a)])
  {
    var round := CALM.(waitFault := true);
    OneFilled(s, FRESH, a);
    var k := Kernel([], [Flight(0, a)], [], map[]);
    assert Enter(FRESH.(queued := [Flight(0, a)]), 1) == k;
    assert RoundStep(s, FRESH, Opening(s), [a], round) == Threw(k);
    StaleTaken(s, a, b, k);
  }

  lemma OneFilled(s: Setup, k: Kernel, q: ReadRequest)
    ensures Fill(s, k, Opening(s), [q]) ==
            if |k.queued| < s.entries then (k.(queued := k.queued + [Flight(0, q)]), OneBusy(s)) else (k, Opening(s))
  {
  }

  /** The window once the only request of a batch is submitted. */
  function OneBusy(s: Setup): Window { Submitted(Opening(s)) }

  lemma StaleTaken(s: Setup, a: ReadRequest, b: ReadRequest, k: Kernel)
    requires Fitting(s) && b.expected <= |Available(s, a)| && k == Kernel([], [Flight(0, a)], [], map[])
    ensures ReadBatch(s, k, [b], []).1 == Ok(map[0 := Available(s, a)])
  {
    OneFilled(s, k, b);
    var w := OneBusy(s);
    var k2 := Kernel([], [Flight(0, a), Flight(0, b)], [], map[]);
    assert Enter(k.(queued := [Flight(0, b)]), 1) == k2;
    var data := Available(s, a);
    var awake := Kernel([], [Flight(0, b)], [Posted(0, |data|)], map[0 := data]);
    assert Arrive(s, k2, Arrival(0, Whole)) == awake;
    assert Content(awake.memory, 0, |data|) == data;
    var v := Reaped(w, 0, data);
    assert Reap(s, awake.memory, w, [b], awake.posted) == Some(v);
    assert v.outputs == map[0 := data] && v.completed == 1;
    var k3 := awake.(posted := []);
    assert RoundStep(s, k, Opening(s), [b], CALM) == AfterSubmit(s, k2, w, [b], CALM) == Went(k3, v);
    assert ReadFrom(s, k, Opening(s), [b], []) == ReadFrom(s, k3, v, [b], []) == (k3, Ok(v.outputs));
  }

  lemma {:induction false} ReapStops(s: Setup, memory: map<nat, seq<Byte>>, w: Window, requests: seq<ReadRequest>,
                                     entries: seq<Posted>, j: nat)
    requires j < |entries| && entries[j].result < 0
    ensures Reap(s, memory, w, requests, entries).None?
    decreases j
  {
    if j > 0 && Reap(s, memory, w, requests, entries).Some? {
      var p := entries[0];
      ReapStops(s, memory, Reaped(w, p.buffer, Content(memory, p.buffer, p.result)), requests, entries[1..], j - 1);
    }
  }

  /** An unconsumed completion with an error fails every batch, and is still there afterwards. */
  lemma FailedCompletionBlocks(s: Setup, k: Kernel, requests: seq<ReadRequest>, rounds: seq<Round>, j: nat)
    requires requests != [] && j < |k.posted| && k.posted[j].result < 0
    ensures var (k1, r) := ReadBatch(s, k, requests, rounds); r.Err? && k.posted <= k1.posted
  {
    var w, round := Opening(s), RoundAt(rounds);
    FillGrows(s, k, w, requests);
    var (k1, w1) := Fill(s, k, w, requests);
    AfterFillBlocks(s, k1, w1, w1.nextRequest - w.nextRequest, requests, round, j);
  }

  lemma AfterFillBlocks(s: Setup, k: Kernel, w: Window, count: nat, requests: seq<ReadRequest>, round: Round, j: nat)
    requires count <= |k.queued| && j < |k.posted| && k.posted[j].result < 0
    ensures var step := AfterFill(s, k, w, count, requests, round); step.Threw? && k.posted <= step.k.posted
  {
    var entered := Enter(k, count);
    var arrived := ArriveAll(s, entered, round.arrivals);
    ArriveAllGrows(s, entered, round.arrivals);
    assert arrived.posted[j] == k.posted[j];
    var later := ArriveAll(s, arrived, round.late);
    ArriveAllGrows(s, arrived, round.late);
    ReapStops(s, later.memory, w, requests, arrived.posted, j);
  }

  /** So does every later one. */
  lemma {:induction false} FailureIsPermanent(s: Setup, k: Kernel, batches: seq<(seq<ReadRequest>, seq<Round>)>, j: nat)
    requires j < |k.posted| && k.posted[j].result < 0 && forall i :: 0 <= i < |batches| ==> batches[i].0 != []
    ensures var (k1, ok) := Batches(s, k, batches); k.posted <= k1.posted && (batches != [] ==> !ok)
  {
    if batches != [] {
      var earlier := batches[..|batches| - 1];
      FailureIsPermanent(s, k, earlier, j);
      FailedCompletionBlocks(s, Batches(s, k, earlier).0, batches[|batches| - 1].0, batches[|batches| - 1].1, j);
    }
  }

  /** What a single read on an undrained ring gets if the oldest leftover completes first. */
  function Leftover(s: Setup, k: Kernel): seq<Byte>
    requires !Drained(k)
  {
    if k.posted != [] then
      if k.posted[0].result < 0 then [] else Content(k.memory, k.posted[0].buffer, k.posted[0].result)
    else
      var stale := k.flying + k.queued;
      Available(s, stale[0].request)
  }

  /** The kernel after the only request of a batch is submitted and something has completed. */
  function Awake(s: Setup, k: Kernel, q: ReadRequest): Kernel {
    var entered := Enter(k.(queued := k.queued + [Flight(0, q)]), 1);
    if entered.posted == [] then Arrive(s, entered, Arrival(0, Whole)) else entered
  }

  lemma OldestArrives(s: Setup, k: Kernel, q: ReadRequest)
    requires !Drained(k)
    ensures var awake := Awake(s, k, q);
            && awake.posted != []
            && (awake.posted[0].result >= 0 ==>
                Content(awake.memory, awake.posted[0].buffer, awake.posted[0].result) == Leftover(s, k))
  {
    if k.posted == [] {
      var stale := k.flying + k.queued;
      var entered := Enter(k.(queued := k.queued + [Flight(0, q)]), 1);
      assert entered.flying[0] == (stale + [Flight(0, q)])[0] == stale[0];
    }
  }

  /** Whatever page it asked for. */
  lemma LeftoverIsDelivered(s: Setup, k: Kernel, q: ReadRequest)
    requires !Drained(k)
    ensures var r := ReadBatch(s, k, [q], []).1; r.Ok? ==> r.value == map[0 := Leftover(s, k)]
  {
    OneFilled(s, k, q);
    if |k.queued| < s.entries {
      OldestArrives(s, k, q);
      var awake := Awake(s, k, q);
      OneTaken(s, awake.memory, q, awake.posted);
      OneRound(s, k, q);
    }
  }

  /** The only round of such a batch. */
  lemma OneRound(s: Setup, k: Kernel, q: ReadRequest)
    requires |k.queued| < s.entries && Awake(s, k, q).posted != []
    ensures var awake := Awake(s, k, q); var v := Reap(s, awake.memory, OneBusy(s), [q], awake.posted);
            var r := ReadBatch(s, k, [q], []).1;
            if v.None? then r.Err? else v.value.completed == 1 ==> r == Ok(v.value.outputs)
  {
    OneFilled(s, k, q);
    var w := OneBusy(s);
    assert 0 in w.active && w.nextRequest == 1;
    var filled := k.(queued := k.queued + [Flight(0, q)]);
    var step := AfterSubmit(s, Enter(filled, 1), w, [q], CALM);
    assert RoundStep(s, k, Opening(s), [q], CALM) == AfterFill(s, filled, w, 1, [q], CALM) == step;
    if step.Went? && step.w.completed == 1 {
      assert ReadFrom(s, step.k, step.w, [q], []) == (step.k, Ok(step.w.outputs));
    }
  }

  lemma OneTaken(s: Setup, memory: map<nat, seq<Byte>>, q: ReadRequest, posted: seq<Posted>)
    requires posted != []
    ensures var v := Reap(s, memory, OneBusy(s), [q], posted);
            v.Some? ==>
              && |posted| == 1 && posted[0].result >= 0 && v.value.completed == 1
              && v.value.outputs == map[0 := Content(memory, posted[0].buffer, posted[0].result)]
  {
    var w := OneBusy(s);
    assert w.active == map[0 := 0];
    if Reap(s, memory, w, [q], posted).Some? {
      var p := posted[0];
      var v := Reaped(w, 0, Content(memory, p.buffer, p.result));
      assert v.active == map[];
      assert Reap(s, memory, v, [q], posted[1..]).Some? ==> posted[1..] == [];
    }
  }

  /** A batch of readable requests without faults gets every request's bytes. */
  ghost predicate AllRight(s: Setup, k: Kernel, requests: seq<ReadRequest>, rounds: seq<Round>) {
    var r := ReadBatch(s, k, requests, rounds).1;
    r.Ok? && forall i :: 0 <= i < |requests| ==> i in r.value && r.value[i] == Available(s, requests[i])
  }

  /** The exact condition: as soon as two readable requests have different bytes, batches are
      right on every faultless schedule if and only if the ring is drained. */
  lemma RightExactlyIfDrained(s: Setup, k: Kernel, q1: ReadRequest, q2: ReadRequest)
    requires Fitting(s) && Readable(s, q1) && Readable(s, q2) && Available(s, q1) != Available(s, q2)
    ensures Drained(k) <==>
            forall requests, rounds ::
              requests != [] && AllReadable(s, requests) && Faultless(rounds) ==>
                AllRight(s, k, requests, rounds)
  {
    if Drained(k) {
      forall requests, rounds | requests != [] && AllReadable(s, requests) && Faultless(rounds)
        ensures AllRight(s, k, requests, rounds)
      {
        DrainedBatchIsRight(s, k, requests, rounds, true);
      }
    } else {
      LeftoverIsDelivered(s, k, q1);
      LeftoverIsDelivered(s, k, q2);
      assert AllReadable(s, [q1]) && AllReadable(s, [q2]) && Faultless([]);
      assert [q1][0] == q1 && [q2][0] == q2;
      assert !AllRight(s, k, [q1], []) || !AllRight(s, k, [q2], []);
    }
  }

  // ---------------------------------------------------------------------------
  // The class.
  // ---------------------------------------------------------------------------

  class Ring {
    const setup: Setup
    var kernel: Kernel

    constructor (setup: Setup)
      ensures this.setup == setup && kernel == FRESH
    {
      this.setup, kernel := setup, FRESH;
    }

    method Refill(w0: Window, requests: seq<ReadRequest>) returns (w: Window)
      modifies this
      ensures (kernel, w) == Fill(setup, old(kernel), w0, requests)
    {
      w := w0;
      while w.nextRequest < |requests| && w.free != [] && |kernel.queued| < setup.entries
        invariant Fill(setup, kernel, w, requests) == Fill(setup, old(kernel), w0, requests)
        decreases |requests| - w.nextRequest
      {
        var buffer := w.free[|w.free| - 1];
        kernel := kernel.(queued := kernel.queued + [Flight(buffer, requests[w.nextRequest])]);
        w := Submitted(w);
      }
    }

    /** Takes the completions it was shown, in order. */
    method TakeCompletions(w0: Window, requests: seq<ReadRequest>, entries: seq<Posted>) returns (r: Option<Window>)
      ensures r == Reap(setup, kernel.memory, w0, requests, entries)
    {
      var w, rest := w0, entries;
      while rest != []
        invariant Reap(setup, kernel.memory, w, requests, rest) == Reap(setup, kernel.memory, w0, requests, entries)
        decreases |rest|
      {
        var p := rest[0];
        if p.buffer !in w.active || w.active[p.buffer] >= |requests| || p.result < 0 { return None; }
        if p.result < requests[w.active[p.buffer]].expected || p.result > setup.pageBytes { return None; }
        w, rest := Reaped(w, p.buffer, Content(kernel.memory, p.buffer, p.result)), rest[1..];
      }
      r := Some(w);
    }

    /** The kernel completes reads in the order the outside chooses. */
    method Complete(arrivals: seq<Arrival>)
      modifies this
      ensures kernel == ArriveAll(setup, old(kernel), arrivals)
    {
      var rest := arrivals;
      while rest != []
        invariant ArriveAll(setup, kernel, rest) == ArriveAll(setup, old(kernel), arrivals)
        decreases |rest|
      {
        kernel, rest := Arrive(setup, kernel, rest[0]), rest[1..];
      }
    }

    /** Waits for a completion and takes all there are. */
    method WaitAndTake(w: Window, requests: seq<ReadRequest>, round: Round) returns (r: Option<Window>)
      modifies this
      ensures AfterSubmit(setup, old(kernel), w, requests, round)
              == if r.None? then Threw(kernel) else Went(kernel, r.value)
    {
      Complete(round.arrivals);
      if kernel.posted == [] {
        if round.waitFault { return None; }
        kernel := Arrive(setup, kernel, Arrival(0, Whole));
        if kernel.posted == [] { return None; }
      }
      var entries := kernel.posted;
      ArriveAllGrows(setup, kernel, round.late);
      Complete(round.late);
      r := TakeCompletions(w, requests, entries);
      if r.Some? { kernel := kernel.(posted := kernel.posted[|entries|..]); }
    }

    method RunRound(w0: Window, requests: seq<ReadRequest>, round: Round) returns (r: Option<Window>)
      modifies this
      ensures RoundStep(setup, old(kernel), w0, requests, round)
              == if r.None? then Threw(kernel) else Went(kernel, r.value)
    {
      RoundIs(setup, kernel, w0, requests, round);
      var w := Refill(w0, requests);
      r := SubmitAndTake(w, w.nextRequest - w0.nextRequest, requests, round);
    }

    /** Tells the kernel about the new entries, then waits. */
    method SubmitAndTake(w: Window, count: nat, requests: seq<ReadRequest>, round: Round) returns (r: Option<Window>)
      requires count <= |kernel.queued|
      modifies this
      ensures AfterFill(setup, old(kernel), w, count, requests, round) ==
            if r.None? then Threw(kernel) else Went(kernel, r.value)
    {
      if count > 0 && round.submitFault.Some? {
        kernel := Enter(kernel, Min(round.submitFault.value, count - 1));
        return None;
      }
      kernel := Enter(kernel, count);
      if w.active == map[] { return None; }
      r := WaitAndTake(w, requests, round);
    }

    /** Reads a batch while the outside does what `rounds` says. */
    method Read(requests: seq<ReadRequest>, rounds: seq<Round>) returns (r: Result<map<nat, seq<Byte>>>)
      modifies this
      ensures (kernel, r) == ReadBatch(setup, old(kernel), requests, rounds)
    {
      if requests == [] { return Err(InvalidArgument); }
      var w, rest := Opening(setup), rounds;
      while w.completed < |requests|
        invariant ReadFrom(setup, kernel, w, requests, rest)
                    == ReadFrom(setup, old(kernel), Opening(setup), requests, rounds)
        decreases |requests| - w.completed
      {
        var next := RunRound(w, requests, RoundAt(rest));
        if next.None? || next.value.completed <= w.completed { return Err(RuntimeError); }
        w, rest := next.value, RoundsBehind(rest);
      }
      r := Ok(w.outputs);
    }

    /** What the outside will do during the next batch. */
    method Schedule(env: Environment) returns (rounds: seq<Round>)
      modifies env
      ensures env.faults == old(env.faults) + if Faultless(rounds) then 0 else 1
    {
      rounds := *;
      if !Faultless(rounds) { env.Record(); }
    }

    /** A batch on a drained ring, with everything promised about it. */
    method ReadDrained(requests: seq<ReadRequest>, env: Environment) returns (r: Result<map<nat, seq<Byte>>>)
      requires Fitting(setup) && Drained(kernel) && requests != []
      modifies this, env
      ensures old(env.faults) <= env.faults
      ensures r.Ok? ==>
                && Drained(kernel) && Delivered(setup, requests, r.value, false)
                && (forall i :: 0 <= i < |requests| ==> i in r.value)
      ensures r.Err? ==> old(env.faults) < env.faults || !AllReadable(setup, requests)
    {
      var rounds := Schedule(env);
      DrainedBatchIsRight(setup, kernel, requests, rounds, false);
      if Faultless(rounds) { DrainedBatchIsRight(setup, kernel, requests, rounds, true); }
      r := Read(requests, rounds);
    }
  }
}
