/** The two stage workers: one thread and one first-in-first-out task queue each, fed by a
    coordinator that decides what to submit from the results it has waited for. */
module Workers {
  import opened Contracts

  /** What the coordinator does next: hand a task to a worker, wait for the result of the
      `index`-th task of a worker, or nothing. */
  datatype Action<!S, R> = Submit(to: Stage, task: S -> (S, R)) | Await(on: Stage, index: nat) | Halt

  /** What it has seen of its own actions. */
  datatype Note<R> = Submitted | Got(result: R)

  /** A worker: its backend's state, the tasks still queued, the results of those that ran. */
  datatype Worker<!S, R> = Worker(backend: S, queue: seq<S -> (S, R)>, results: seq<R>)

  datatype World<!S, R> = World(stage0: Worker<S, R>, stage1: Worker<S, R>, log: seq<Note<R>>)

  function WorkerOf<S, R>(w: World<S, R>, stage: Stage): Worker<S, R> {
    if stage == Stage0 then w.stage0 else w.stage1
  }

  function Put<S, R>(w: World<S, R>, stage: Stage, k: Worker<S, R>): World<S, R> {
    if stage == Stage0 then w.(stage0 := k) else w.(stage1 := k)
  }

  /** The worker's thread takes the oldest task. */
  function RunNext<S, R>(k: Worker<S, R>): Worker<S, R> {
    if k.queue == [] then k
    else
      var (backend, result) := k.queue[0](k.backend);
      Worker(backend, k.queue[1..], k.results + [result])
  }

  /** One step of the coordinator. It cannot pass a wait before the result is there. */
  function Coordinate<S, R>(next: seq<Note<R>> -> Action<S, R>, w: World<S, R>): World<S, R> {
    match next(w.log)
    case Submit(g, task) =>
      var k := WorkerOf(w, g);
      Put(w, g, k.(queue := k.queue + [task])).(log := w.log + [Submitted])
    case Await(g, i) =>
      var k := WorkerOf(w, g);
      if i < |k.results| then w.(log := w.log + [Got(k.results[i])]) else w
    case Halt => w
  }

  datatype Turn = Coordinator | Thread(of: Stage)

  /** Any interleaving of the three threads. */
  function Run<S, R>(next: seq<Note<R>> -> Action<S, R>, start: World<S, R>, schedule: seq<Turn>): World<S, R> {
    if schedule == [] then start
    else Taken(next, Run(next, start, schedule[..|schedule| - 1]), schedule[|schedule| - 1])
  }

  function Taken<S, R>(next: seq<Note<R>> -> Action<S, R>, w: World<S, R>, turn: Turn): World<S, R> {
    match turn
    case Coordinator => Coordinate(next, w)
    case Thread(g) => Put(w, g, RunNext(WorkerOf(w, g)))
  }

  /** Everything queued is carried out. */
  function Drain<S, R>(k: Worker<S, R>): (d: Worker<S, R>)
    ensures d.queue == []
    decreases |k.queue|
  {
    if k.queue == [] then k else Drain(RunNext(k))
  }

  function DrainAll<S, R>(w: World<S, R>): World<S, R> {
    World(Drain(w.stage0), Drain(w.stage1), w.log)
  }

  /** The coordinator alone, every task carried out the moment it is submitted. */
  function Eager<S, R>(next: seq<Note<R>> -> Action<S, R>, start: World<S, R>, steps: nat): World<S, R> {
    if steps == 0 then start else DrainAll(Coordinate(next, Eager(next, start, steps - 1)))
  }

  lemma {:induction false} DrainSubmit<S, R>(k: Worker<S, R>, task: S -> (S, R))
    ensures var d := Drain(k); Drain(k.(queue := k.queue + [task])) == Drain(d.(queue := d.queue + [task]))
    decreases |k.queue|
  {
    if k.queue != [] {
      var more := k.(queue := k.queue + [task]);
      assert more.queue[1..] == k.queue[1..] + [task];
      DrainSubmit(RunNext(k), task);
    }
  }

  lemma {:induction false} DrainKeepsResults<S, R>(k: Worker<S, R>)
    ensures k.results <= Drain(k).results
    decreases |k.queue|
  {
    if k.queue != [] { DrainKeepsResults(RunNext(k)); }
  }

  lemma CoordinateDrained<S, R>(next: seq<Note<R>> -> Action<S, R>, w: World<S, R>)
    ensures var v := Coordinate(next, w);
            if v.log == w.log then v == w else DrainAll(v) == DrainAll(Coordinate(next, DrainAll(w)))
  {
    match next(w.log) {
      case Submit(g, task) => DrainSubmit(WorkerOf(w, g), task);
      case Await(g, i) => DrainKeepsResults(WorkerOf(w, g));
      case Halt =>
    }
  }

  lemma TurnKeepsUp<S, R>(next: seq<Note<R>> -> Action<S, R>, w: World<S, R>, turn: Turn)
    ensures var v := Taken(next, w, turn);
            if |v.log| == |w.log| then v.log == w.log && DrainAll(v) == DrainAll(w)
            else |v.log| == |w.log| + 1 && DrainAll(v) == DrainAll(Coordinate(next, DrainAll(w)))
  {
    if turn.Coordinator? { CoordinateDrained(next, w); }
  }

  /** However far the workers lag behind, the coordinator has seen what it would have seen had
      every task run at submission, each worker has finished a prefix of its tasks with the same
      results, and what is still queued leads to the same two backend states. */
  lemma LagMakesNoDifference<S, R>(next: seq<Note<R>> -> Action<S, R>, start: World<S, R>, schedule: seq<Turn>)
    requires start.stage0.queue == [] && start.stage1.queue == [] && start.log == []
    ensures var w := Run(next, start, schedule); var e := Eager(next, start, |w.log|);
            && w.log == e.log && DrainAll(w) == e
            && w.stage0.results <= e.stage0.results && w.stage1.results <= e.stage1.results
  {
    DrainsToEager(next, start, schedule);
    DrainKeepsResults(Run(next, start, schedule).stage0);
    DrainKeepsResults(Run(next, start, schedule).stage1);
  }

  lemma {:induction false} DrainsToEager<S, R>(next: seq<Note<R>> -> Action<S, R>, start: World<S, R>,
                                               schedule: seq<Turn>)
    requires start.stage0.queue == [] && start.stage1.queue == [] && start.log == []
    ensures var w := Run(next, start, schedule); DrainAll(w) == Eager(next, start, |w.log|)
  {
    if schedule != [] {
      var earlier := schedule[..|schedule| - 1];
      DrainsToEager(next, start, earlier);
      TurnKeepsUp(next, Run(next, start, earlier), schedule[|schedule| - 1]);
    }
  }
}
