/**
 * The single-instance gate `_acquire_lock` / `_release_lock`. Binding the
 * fixed local port 127.0.0.1:19847 is abstracted to a shared Port whose
 * `taken` flag says whether some instance is bound to it; each running
 * instance has an InstanceGate whose `held` flag says whether its
 * `lock_socket` is an open, bound socket.
 */
module InstanceLock {

  /** The rendezvous resource shared by all instances. */
  class Port {
    var taken: bool

    constructor ()
      ensures !taken
    {
      taken := false;
    }
  }

  /** One instance's view: held, and the port's state. */
  datatype GateState = GateState(held: bool, portTaken: bool)

  /** An instance that holds the lock has the port to itself. */
  predicate Consistent(s: GateState) {
    s.held ==> s.portTaken
  }

  /**
   * `_acquire_lock` from a state where nothing is held: the bind succeeds
   * exactly when the port is free; on failure the new socket is closed
   * and nothing is held.
   */
  function AcquireNext(s: GateState): (r: (bool, GateState))
    requires !s.held
    ensures r.0 <==> !s.portTaken
    ensures r.1.held == r.0 && r.1.portTaken
    ensures Consistent(r.1)
  {
    if s.portTaken then (false, s) else (true, GateState(true, true))
  }

  /** `_release_lock`: close the socket if there is one, freeing the port. */
  function ReleaseNext(s: GateState): (r: GateState)
    ensures !r.held
    ensures r.portTaken == (s.portTaken && !s.held)
  {
    if s.held then GateState(false, false) else s
  }

  /** Releasing is idempotent: a second release changes nothing. */
  lemma ReleaseIdempotent(s: GateState)
    ensures ReleaseNext(ReleaseNext(s)) == ReleaseNext(s)
  {
  }

  /** Releasing when nothing is held changes nothing. */
  lemma ReleaseWhenNotHeld(s: GateState)
    requires !s.held
    ensures ReleaseNext(s) == s
  {
  }

  /** After acquire then release the port is free again for the next instance. */
  lemma AcquireReleaseFreesPort(s: GateState)
    requires !s.held && !s.portTaken
    ensures var (ok, t) := AcquireNext(s); ok && !ReleaseNext(t).portTaken
  {
  }

  class InstanceGate {
    const port: Port
    /** `lock_socket` is an open socket bound to the port. */
    var held: bool

    function State(): GateState
      reads this, port
    {
      GateState(held, port.taken)
    }

    predicate Valid()
      reads this, port
    {
      Consistent(State())
    }

    /** `lock_socket = None` at import. */
    constructor (port: Port)
      ensures this.port == port && !held
    {
      this.port := port;
      held := false;
    }

    /** `_acquire_lock`, which the program calls once, before anything is held. */
    method Acquire() returns (ok: bool)
      requires Valid() && !held
      modifies this, port
      ensures Valid()
      ensures (ok, State()) == AcquireNext(old(State()))
    {
      if port.taken {
        ok := false;
      } else {
        port.taken := true;
        held := true;
        ok := true;
      }
    }

    /** `_release_lock`: safe to call whether or not the lock is held. */
    method Release()
      requires Valid()
      modifies this, port
      ensures Valid()
      ensures State() == ReleaseNext(old(State()))
    {
      if held {
        port.taken := false;
        held := false;
      }
    }
  }

  /**
   * Two instances on one machine: the first acquires, the second is
   * refused while the first holds the port, and succeeds once the first
   * has released it (releasing twice is harmless).
   */
  method TwoInstances() returns (first: bool, second: bool, afterRelease: bool)
    ensures first && !second && afterRelease
  {
    var port := new Port();
    var a := new InstanceGate(port);
    var b := new InstanceGate(port);
    first := a.Acquire();
    second := b.Acquire();
    b.Release();
    a.Release();
    a.Release();
    afterRelease := b.Acquire();
  }
}
