/** Whatever can go wrong outside the protocols: devices, files, transports. */
module Faults {
  import opened Contracts

  /** `faults` counts the faults injected so far, so that a failure without a fault of its own
      must have another cause, however many faults came before. */
  class Environment {
    var faults: nat

    constructor () ensures faults == 0 { faults := 0; }

    /** A fault that shows elsewhere. */
    method Record()
      modifies this
      ensures faults == old(faults) + 1
    {
      faults := faults + 1;
    }

    method Fault() returns (f: Option<Failure>)
      modifies this
      ensures faults == old(faults) + if f.Some? then 1 else 0
    {
      f := None;
      if * {
        var kind: Failure := *;
        faults := faults + 1;
        f := Some(kind);
      }
    }
  }
}
