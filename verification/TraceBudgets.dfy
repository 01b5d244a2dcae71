/** The limits that make a trace stop without a result rather than run on. */
module TraceBudgets {
  import opened Outcomes

  datatype Reason =
    | LotsLimit | EdgesLimit | DistributionsLimit | SeedsLimit
    | DepthLimit | WorkLimit | TimeLimit
    | Cycle | InvalidGraph

  const MAX_LOTS := 2_000
  const MAX_EDGES := 8_000
  const MAX_DISTRIBUTIONS := 8_000
  const MAX_SEEDS := 100
  const MAX_DEPTH := 128
  const MAX_WORK := 200_000
  const CALCULATION_MS := 250

  /** Work done so far, and a clock of which `clock(k)` is the k-th reading. */
  class TraceBudget {
    const maxMs: int
    const clock: nat -> int
    var readings: nat
    var work: nat

    constructor (clock: nat -> int, maxMs: int := CALCULATION_MS)
      ensures this.maxMs == maxMs && this.clock == clock && readings == 1 && work == 0
    {
      this.maxMs, this.clock := maxMs, clock;
      readings, work := 1, 0;
    }

    /** The latest reading is too long after the first. */
    ghost predicate Expired()
      reads this
    {
      readings > 0 && clock(readings - 1) - clock(0) > maxMs
    }

    /** What a work or time refusal rests on. */
    ghost predicate Broke(reason: Reason)
      reads this
    {
      (reason == WorkLimit ==> work > MAX_WORK) && (reason == TimeLimit ==> Expired())
    }

    /** Books work; says which limit, if any, is now broken: depth first, then work, then time. */
    method Step(count: nat, depth: nat) returns (stop: Option<Reason>)
      modifies this
      ensures work == old(work) + count
      ensures depth > MAX_DEPTH <==> stop == Some(DepthLimit)
      ensures depth <= MAX_DEPTH ==> (work > MAX_WORK <==> stop == Some(WorkLimit))
      ensures depth <= MAX_DEPTH && work <= MAX_WORK ==> (Expired() <==> stop == Some(TimeLimit)) && (!Expired() <==> stop == None)
    {
      work := work + count;
      if depth > MAX_DEPTH { return Some(DepthLimit); }
      if work > MAX_WORK { return Some(WorkLimit); }
      readings := readings + 1;
      if clock(readings - 1) - clock(0) > maxMs { return Some(TimeLimit); }
      stop := None;
    }
  }
}
