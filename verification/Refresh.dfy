/** The per-workspace refresh gate: one command at a time, requests coalesce. */
module Refresh {
  import opened Wrappers

  datatype Gate = Gate(requested: nat, completed: nat, running: Option<nat>)

  const IDLE := Gate(0, 0, None)

  predicate GateOk(g: Gate) {
    && g.completed <= g.requested
    && (g.running.Some? ==> g.completed < g.running.value <= g.requested)
  }

  /** Some request has not been answered. */
  predicate Pending(g: Gate) {
    g.completed < g.requested
  }

  function Requested(g: Gate): Gate {
    g.(requested := g.requested + 1)
  }

  function Started(g: Gate): (r: (Gate, Option<nat>))
    ensures GateOk(g) ==> GateOk(r.0)
    ensures r.1.Some? <==> g.running.None? && Pending(g)
    ensures r.1.Some? ==> r.0.running == r.1 == Some(g.requested)
  {
    if g.running.Some? || g.requested <= g.completed then (g, None)
    else (g.(running := Some(g.requested)), Some(g.requested))
  }

  function Cancelled(g: Gate, generation: nat): Gate {
    if g.running == Some(generation) then g.(running := None) else g
  }

  /** Finishing answers whether the result is current: nothing was requested since it started. */
  function Finished(g: Gate, generation: nat): (r: (Gate, bool))
    ensures GateOk(g) ==> GateOk(r.0)
    ensures GateOk(g) && g.running == Some(generation) ==> (r.1 <==> !Pending(r.0))
    ensures g.running != Some(generation) ==> r == (g, false)
  {
    if g.running != Some(generation) then (g, false)
    else (g.(running := None, completed := generation), generation == g.requested)
  }

  /** A request is started under its own generation, which finishes as current, or as outdated if there was
      another request meanwhile; then, as after a cancelled start, there is one to start. */
  lemma RequestIsServed(g: Gate)
    requires GateOk(g) && g.running.None?
    ensures var (running, generation) := Started(Requested(g));
            && generation == Some(g.requested + 1)
            && (var (after, current) := Finished(running, generation.value);
                current && !Pending(after) && after.running.None?)
            && (var (after, current) := Finished(Requested(running), generation.value);
                !current && Started(after).1 == Some(g.requested + 2))
            && Started(Cancelled(running, generation.value)).1 == generation
            && forall other :: other != generation.value ==> Cancelled(running, other) == running
  {
  }

  class RefreshCoordinator {
    var requested: nat
    var completed: nat
    var running: Option<nat>

    function State(): Gate
      reads this
    {
      Gate(requested, completed, running)
    }

    constructor ()
      ensures State() == IDLE
    {
      requested, completed, running := 0, 0, None;
    }

    method Request() returns (generation: nat)
      modifies this
      ensures State() == Requested(old(State())) && generation == requested
    {
      requested := requested + 1;
      generation := requested;
    }

    method StartNext() returns (started: Option<nat>)
      modifies this
      ensures (State(), started) == Started(old(State()))
    {
      if running.Some? || requested <= completed {
        return None;
      }
      running := Some(requested);
      started := running;
    }

    method CancelStart(generation: nat) returns (released: bool)
      modifies this
      ensures State() == Cancelled(old(State()), generation)
      ensures released == (old(running) == Some(generation))
    {
      if running != Some(generation) {
        return false;
      }
      running := None;
      released := true;
    }

    method Finish(generation: nat) returns (current: bool)
      modifies this
      ensures (State(), current) == Finished(old(State()), generation)
    {
      if running != Some(generation) {
        return false;
      }
      running := None;
      completed := generation;
      current := generation == requested;
    }
  }
}
