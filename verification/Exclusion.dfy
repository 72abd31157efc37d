// Scans and moves exclude each other (server/daemon.go, scanAdmissionLocked,
// beginMove, endMove; the locking of server/move.go, handleMove): whatever the
// interleaving, the groups a move prunes are the groups it was vetted against.
module Exclusion {
  import opened Options

  // How far a move request has got. A request that only read the running flag
  // before its File Station round trip has claimed nothing.
  datatype Phase = Idle | Arrived | Locked | Claimed | Vetted(against: nat) | Pruned | Released

  // version counts the replacements of the duplicates groups; lock is moveMu.
  datatype State = State(running: bool, moveActive: bool, lock: Option<nat>, version: nat, phases: map<nat, Phase>)
  {
    function PhaseOf(i: nat): Phase {
      if i in phases then phases[i] else Idle
    }

    function Enter(i: nat, p: Phase): State {
      this.(phases := phases[i := p])
    }
  }

  datatype Event =
    | ScanStart | ScanPublish | ScanEnd
    | Arrive(req: nat) | TryLock(req: nat) | Begin(req: nat) | Vet(req: nat)
    | Prune(req: nat) | EndMove(req: nat) | Unlock(req: nat)

  // Each event is one critical section; None: it cannot happen now.
  function Next(s: State, e: Event): Option<State> {
    match e
    case ScanStart => if s.running || s.moveActive then None else Some(s.(running := true))
    case ScanPublish => if s.running then Some(s.(version := s.version + 1)) else None
    case ScanEnd => if s.running then Some(s.(running := false)) else None
    case Arrive(i) => if s.PhaseOf(i).Idle? && !s.running then Some(s.Enter(i, Arrived)) else None
    case TryLock(i) =>
      if !s.PhaseOf(i).Arrived? then None
      else if s.lock.Some? then Some(s.Enter(i, Idle))
      else Some(s.Enter(i, Locked).(lock := Some(i)))
    case Begin(i) =>
      if !s.PhaseOf(i).Locked? then None
      else if s.running then Some(s.Enter(i, Released))
      else Some(s.Enter(i, Claimed).(moveActive := true))
    case Vet(i) => if s.PhaseOf(i).Claimed? then Some(s.Enter(i, Vetted(s.version))) else None
    case Prune(i) => if s.PhaseOf(i).Vetted? then Some(s.Enter(i, Pruned).(version := s.version + 1)) else None
    case EndMove(i) =>
      if Active(s.PhaseOf(i)) then Some(s.Enter(i, Released).(moveActive := false)) else None
    case Unlock(i) =>
      if s.PhaseOf(i).Released? then Some(s.Enter(i, Idle).(lock := None)) else None
  }

  predicate Active(p: Phase) { p.Claimed? || p.Vetted? || p.Pruned? }

  predicate Holds(p: Phase) { p.Locked? || Active(p) || p.Released? }

  ghost predicate Inv(s: State) {
    && !(s.running && s.moveActive)
    && (forall i: nat :: Holds(s.PhaseOf(i)) <==> s.lock == Some(i))
    && (s.moveActive <==> exists i :: Active(s.PhaseOf(i)))
    && forall i :: s.PhaseOf(i).Vetted? ==> s.PhaseOf(i).against == s.version
  }

  lemma StepKeepsInv(s: State, e: Event)
    requires Inv(s) && Next(s, e).Some?
    ensures Inv(Next(s, e).value)
  {
    var t := Next(s, e).value;
    match e {
      case ScanStart | ScanPublish | ScanEnd =>
        assert forall i :: t.PhaseOf(i) == s.PhaseOf(i);
      case _ =>
        var i := e.req;
        assert forall j :: j != i ==> t.PhaseOf(j) == s.PhaseOf(j);
        assert Holds(s.PhaseOf(i)) ==> forall j :: Active(s.PhaseOf(j)) ==> j == i;
    }
  }

  function Start(): State { State(false, false, None, 0, map[]) }

  function After(events: seq<Event>): Option<State> {
    if events == [] then Some(Start())
    else
      var s := After(events[..|events| - 1]);
      if s.None? then None else Next(s.value, events[|events| - 1])
  }

  lemma {:induction false} RunKeepsInv(events: seq<Event>)
    requires After(events).Some?
    ensures Inv(After(events).value)
  {
    if events != [] {
      RunKeepsInv(events[..|events| - 1]);
      StepKeepsInv(After(events[..|events| - 1]).value, events[|events| - 1]);
    }
  }

  // At no moment of any run do a scan and a move overlap, or two moves; and a
  // move that reaches its prune finds the groups it vetted.
  lemma VettedIsPruned(events: seq<Event>, i: nat, j: nat)
    requires After(events).Some?
    ensures var s := After(events).value;
      && !(s.running && Active(s.PhaseOf(i)))
      && (Active(s.PhaseOf(i)) && Active(s.PhaseOf(j)) ==> i == j)
      && (Next(s, Prune(i)).Some? ==> s.PhaseOf(i).against == s.version)
  {
    RunKeepsInv(events);
    var s := After(events).value;
    assert Active(s.PhaseOf(i)) ==> Holds(s.PhaseOf(i));
    assert Active(s.PhaseOf(j)) ==> Holds(s.PhaseOf(j));
  }

  // The daemon's flags. moveMu is held around BeginMove and EndMove.
  class Flags {
    var running: bool
    var moveActive: bool

    ghost predicate Apart()
      reads this
    {
      !(running && moveActive)
    }

    method AdmitScan() returns (admitted: bool)
      requires Apart()
      modifies this`running
      ensures Apart()
      ensures admitted <==> !old(running) && !moveActive
      ensures running == (old(running) || admitted)
    {
      if running { return false; }
      if moveActive { return false; }
      running := true;
      return true;
    }

    method BeginMove() returns (claimed: bool)
      requires Apart()
      modifies this`moveActive
      ensures Apart()
      ensures claimed <==> !running
      ensures moveActive == (claimed || old(moveActive))
    {
      if running { return false; }
      moveActive := true;
      return true;
    }

    method EndMove()
      requires Apart()
      modifies this`moveActive
      ensures Apart() && !moveActive
    {
      moveActive := false;
    }
  }
}
