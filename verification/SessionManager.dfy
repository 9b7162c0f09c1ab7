/**
 One session's bridge lifecycle: lazy single-flight start, leases, queued
 validations, idle reaping and disposal.

 Each block that runs without awaiting is one step. `Core` and the functions on
 it are the specification of those blocks; class `SessionState` updates its
 fields and is proved to do the same.
 */
module SessionManager {
  import opened Common

  /** Who asked a bridge to shut down: the idle timer, disposal, or a start that found the session disposed. */
  datatype Who = Reaper | Disposer | Starter

  datatype BridgeStatus = Connecting | Live | Failed | ShutDown(asker: Who)

  /** The one start a session may have in flight. */
  datatype Starting = NotStarting | Launching | Awaiting(bridge: nat) | Closing(bridge: nat)

  /**
   `bridges` lists every bridge ever started, `armings` counts how often the idle
   timer was set; `ttl` says whether idle recycling is on.
   */
  datatype Core = Core(
    client: Option<nat>,
    starting: Starting,
    bridges: seq<BridgeStatus>,
    leases: int,
    queued: int,
    timer: bool,
    armings: nat,
    disposed: bool,
    ttl: bool)

  // ----- the blocks

  function NewCore(ttl: bool): Core {
    Core(None, NotStarting, [], 0, 0, false, 0, false, ttl)
  }

  function Arm(c: Core): Core {
    if c.disposed || !c.ttl then c.(timer := false) else c.(timer := true, armings := c.armings + 1)
  }

  predicate Busy(c: Core) {
    !c.starting.NotStarting? || c.leases > 0 || c.queued > 0
  }

  /** Asks the attached bridge to shut down, unless it has failed, and detaches it. */
  function Detach(c: Core, asker: Who): Core
    requires c.client.Some? ==> c.client.value < |c.bridges|
  {
    if c.client.None? then c
    else
      var b := c.client.value;
      c.(client := None, bridges := if c.bridges[b].Failed? then c.bridges else c.bridges[b := ShutDown(asker)])
  }

  function Reap(c: Core): Core
    requires c.client.Some? ==> c.client.value < |c.bridges|
  {
    var c := c.(timer := false);
    if c.disposed || c.client.None? then c
    else if Busy(c) then Arm(c)
    else Detach(c, Reaper)
  }

  function Acquire(c: Core): Core {
    c.(leases := c.leases + 1)
  }

  function Release(c: Core): Core {
    Arm(c.(leases := if c.leases > 0 then c.leases - 1 else c.leases))
  }

  function Enqueue(c: Core): Core {
    c.(queued := c.queued + 1)
  }

  function Settle(c: Core): Core {
    Arm(c.(queued := c.queued - 1))
  }

  /** The synchronous part of a start: it joins the one in flight, or begins one if nothing is attached. */
  function StartBridge(c: Core): Core {
    if c.disposed || c.client.Some? || !c.starting.NotStarting? then c else c.(starting := Launching)
  }

  function LaunchFailed(c: Core): Core {
    Arm(c.(starting := NotStarting))
  }

  function LaunchSpawned(c: Core): Core {
    c.(bridges := c.bridges + [Connecting], starting := Awaiting(|c.bridges|))
  }

  function ConnectFailed(c: Core): Core
    requires c.starting.Awaiting? && c.starting.bridge < |c.bridges|
  {
    Arm(c.(bridges := c.bridges[c.starting.bridge := Failed], starting := NotStarting))
  }

  function ConnectReady(c: Core): Core
    requires c.starting.Awaiting? && c.starting.bridge < |c.bridges|
  {
    var b := c.starting.bridge;
    if c.disposed then c.(bridges := c.bridges[b := ShutDown(Starter)], starting := Closing(b))
    else Arm(c.(bridges := c.bridges[b := Live], client := Some(b), starting := NotStarting))
  }

  function CloseDone(c: Core): Core {
    Arm(c.(starting := NotStarting))
  }

  function Dispose(c: Core): Core
    requires c.client.Some? ==> c.client.value < |c.bridges|
  {
    Detach(c.(disposed := true, timer := false), Disposer)
  }

  /** The attached client, when it is ready for a request. */
  function ReadyClient(c: Core): Option<nat> {
    if c.client.Some? && c.client.value < |c.bridges| && c.bridges[c.client.value].Live? then c.client else None
  }

  // ----- the state object

  /** A lease handed to a native tool; releasing it again does nothing. */
  class Lease {
    var released: bool

    constructor ()
      ensures !released
    {
      released := false;
    }
  }

  class SessionState {
    const ttl: bool
    var client: Option<nat>
    var starting: Starting
    var bridges: seq<BridgeStatus>
    var idleLeases: int
    var idleQueued: int
    var idleTimer: bool
    var idleArmings: nat
    var disposed: bool

    ghost function Abs(): Core
      reads this
    {
      Core(client, starting, bridges, idleLeases, idleQueued, idleTimer, idleArmings, disposed, ttl)
    }

    ghost predicate Valid()
      reads this
    {
      && (client.Some? ==> client.value < |bridges|)
      && (starting.Awaiting? ==> starting.bridge < |bridges|)
    }

    constructor (ttl: bool)
      ensures Abs() == NewCore(ttl) && Valid()
    {
      this.ttl := ttl;
      client, starting, bridges := None, NotStarting, [];
      idleLeases, idleQueued, idleTimer, idleArmings, disposed := 0, 0, false, 0, false;
    }

    method ArmIdleTimer()
      modifies this`idleTimer, this`idleArmings
      ensures Abs() == Arm(old(Abs()))
    {
      idleTimer := false;
      if disposed || !ttl {
        return;
      }
      idleTimer := true;
      idleArmings := idleArmings + 1;
    }

    method AskShutdown(bridge: nat, asker: Who)
      requires bridge < |bridges|
      modifies this`bridges
      ensures bridges == if old(bridges)[bridge].Failed? then old(bridges) else old(bridges)[bridge := ShutDown(asker)]
    {
      if !bridges[bridge].Failed? {
        bridges := bridges[bridge := ShutDown(asker)];
      }
    }

    method ReapIfIdle()
      requires Valid()
      modifies this
      ensures Abs() == Reap(old(Abs())) && Valid()
    {
      idleTimer := false;
      if disposed || client.None? {
        return;
      }
      if !starting.NotStarting? || idleLeases > 0 || idleQueued > 0 {
        ArmIdleTimer();
        return;
      }
      var detached := client.value;
      client := None;
      AskShutdown(detached, Reaper);
    }

    method AcquireLease()
      modifies this`idleLeases
      ensures Abs() == Acquire(old(Abs()))
    {
      idleLeases := idleLeases + 1;
    }

    method ReleaseLease()
      modifies this
      ensures Abs() == Release(old(Abs()))
    {
      if idleLeases > 0 {
        idleLeases := idleLeases - 1;
      }
      ArmIdleTimer();
    }

    /** Releasing a tool's lease counts once. */
    method ReleaseOnce(lease: Lease)
      modifies this, lease
      ensures lease.released
      ensures Abs() == if old(lease.released) then old(Abs()) else Release(old(Abs()))
    {
      if lease.released {
        return;
      }
      lease.released := true;
      ReleaseLease();
    }

    method EnqueueValidation()
      modifies this`idleQueued
      ensures Abs() == Enqueue(old(Abs()))
    {
      idleQueued := idleQueued + 1;
    }

    method SettleValidation()
      modifies this
      ensures Abs() == Settle(old(Abs()))
    {
      idleQueued := idleQueued - 1;
      ArmIdleTimer();
    }

    method StartBridgeFor()
      modifies this
      ensures Abs() == StartBridge(old(Abs()))
    {
      if disposed || client.Some? {
        return;
      }
      if starting.NotStarting? {
        starting := Launching;
      }
    }

    /** What the start in flight does once its child is ready. */
    method ClientStarted()
      requires Valid() && starting.Awaiting?
      modifies this
      ensures Abs() == ConnectReady(old(Abs())) && Valid()
    {
      var started := starting.bridge;
      if disposed {
        bridges := bridges[started := ShutDown(Starter)];
        starting := Closing(started);
        return;
      }
      bridges := bridges[started := Live];
      client := Some(started);
      starting := NotStarting;
      ArmIdleTimer();
    }

    /** What it does when its child fails to become ready. */
    method ClientFailedToStart()
      requires Valid() && starting.Awaiting?
      modifies this
      ensures Abs() == ConnectFailed(old(Abs())) && Valid()
    {
      bridges := bridges[starting.bridge := Failed];
      starting := NotStarting;
      ArmIdleTimer();
    }

    method StopBridge()
      requires Valid()
      modifies this
      ensures Abs() == Dispose(old(Abs())) && Valid()
    {
      disposed := true;
      idleTimer := false;
      var detached := client;
      client := None;
      if detached.Some? {
        AskShutdown(detached.value, Disposer);
      }
    }

    /** The native tools' resolver after its await: a lease is stranded on no path. */
    method ResolveToolClient() returns (handed: Option<nat>)
      requires Valid()
      modifies this
      ensures handed == ReadyClient(old(Abs()))
      ensures Abs() == if handed.Some? then Acquire(old(Abs())) else Release(Acquire(old(Abs())))
    {
      AcquireLease();
      if client.None? || !bridges[client.value].Live? {
        ReleaseLease();
        return None;
      }
      return client;
    }
  }
}
