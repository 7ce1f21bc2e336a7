/** The MAVLink router wrappers: an object holding the set of output
    endpoints, the router's child process, the log directory and, in the
    synchronous revision, the master endpoint the router was started with
    (ardupilot_manager/mavlink_proxy/AbstractRouter.py, synchronous, and
    mavlink_proxy/AbstractRouter.py, asyncio). The concrete router
    (MAVLink-Router or MAVProxy) is not modelled; what it contributes is its
    endpoint validator, a parameter of each object. Spawning is replaced by
    the state the new process is in when the one-second wait is over. */
module Routers {
  import opened Base
  import opened Endpoints
  import opened Processes

  /** The synchronous router (ardupilot_manager/mavlink_proxy). */
  class Router {
    var endpoints: set<Endpoint>
    var master: Option<Endpoint>
    var subprocess: Option<Process>
    var logdir: string
    /** _validate_endpoint of the concrete router: false where it raises. */
    const accepts: Endpoint -> bool

    constructor(accepts: Endpoint -> bool, tempDir: string)
      ensures Valid()
      ensures endpoints == {} && master.None? && subprocess.None?
      ensures logdir == tempDir && this.accepts == accepts
    {
      endpoints := {};
      master := None;
      subprocess := None;
      logdir := tempDir;
      this.accepts := accepts;
    }

    predicate IsRunning()
      reads this
    {
      Running(subprocess)
    }

    /** Every endpoint held passed the validator, and names are unique. */
    predicate Valid()
      reads this
    {
      Admissible(endpoints, accepts)
    }

    /** start: records the master first, spawns, and after the wait fails
        with MavlinkRouterStartFail unless the process still runs. */
    method Start(masterEndpoint: Endpoint, exitAfterWait: Option<int>) returns (r: Outcome)
      modifies this
      ensures master == Some(masterEndpoint)
      ensures subprocess == Some(Process(exitAfterWait, false))
      ensures r.Pass? <==> IsRunning()
      ensures r.Fail? ==> r.error == MavlinkRouterStartFail
      ensures endpoints == old(endpoints) && logdir == old(logdir)
    {
      master := Some(masterEndpoint);
      subprocess := Some(Process(exitAfterWait, false));
      if !IsRunning() {
        return Fail(MavlinkRouterStartFail);
      }
      return Pass;
    }

    /** exit: kills the process only when it is running. */
    method Exit()
      modifies this
      ensures old(IsRunning()) ==> subprocess == Killed(old(subprocess))
      ensures !old(IsRunning()) ==> subprocess == old(subprocess)
      ensures endpoints == old(endpoints) && master == old(master) && logdir == old(logdir)
    {
      if IsRunning() {
        subprocess := Killed(subprocess);
      }
    }

    /** restart: without a recorded master nothing happens and
        NoMasterMavlinkEndpoint is raised; otherwise exit, then start with
        the same master. */
    method Restart(exitAfterWait: Option<int>) returns (r: Outcome)
      modifies this
      ensures old(master).None? ==> r == Fail(NoMasterMavlinkEndpoint) && subprocess == old(subprocess)
      ensures old(master).Some? ==> subprocess == Some(Process(exitAfterWait, false))
      ensures old(master).Some? ==> (r.Pass? <==> exitAfterWait.None?)
      ensures r.Fail? && old(master).Some? ==> r.error == MavlinkRouterStartFail
      ensures master == old(master) && endpoints == old(endpoints) && logdir == old(logdir)
    {
      if master.None? {
        return Fail(NoMasterMavlinkEndpoint);
      }
      Exit();
      r := Start(master.value, exitAfterWait);
    }

    /** set_logdir: a directory that does not exist is a ValueError and the
        old one stays. */
    method SetLogdir(directory: string, directoryExists: bool) returns (r: Outcome)
      modifies this
      ensures !directoryExists ==> r == Fail(ValueError) && logdir == old(logdir)
      ensures directoryExists ==> r == Pass && logdir == directory
      ensures endpoints == old(endpoints) && master == old(master) && subprocess == old(subprocess)
    {
      if !directoryExists {
        return Fail(ValueError);
      }
      logdir := directory;
      return Pass;
    }

    /** add_endpoint: the set changes only as Endpoints.Add says, and a set
        with unique names keeps them. */
    method AddEndpoint(e: Endpoint) returns (r: Outcome)
      modifies this
      ensures Add(old(endpoints), e, accepts).Ok? ==> r == Pass && endpoints == Add(old(endpoints), e, accepts).value
      ensures Add(old(endpoints), e, accepts).Err? ==>
        r == Fail(Add(old(endpoints), e, accepts).error) && endpoints == old(endpoints)
      ensures old(Valid()) ==> Valid()
      ensures master == old(master) && subprocess == old(subprocess) && logdir == old(logdir)
    {
      match Add(endpoints, e, accepts)
      case Err(err) =>
        return Fail(err);
      case Ok(s) =>
        if Valid() { AddKeepsNamesUnique(endpoints, e, accepts); }
        endpoints := s;
        return Pass;
    }

    /** remove_endpoint: EndpointDontExist for an absent endpoint, otherwise
        that endpoint and no other leaves the set. */
    method RemoveEndpoint(e: Endpoint) returns (r: Outcome)
      modifies this
      ensures e !in old(endpoints) ==> r == Fail(EndpointDontExist) && endpoints == old(endpoints)
      ensures e in old(endpoints) ==> r == Pass && endpoints == old(endpoints) - {e}
      ensures old(Valid()) ==> Valid()
      ensures master == old(master) && subprocess == old(subprocess) && logdir == old(logdir)
    {
      match Remove(endpoints, e)
      case Err(err) =>
        return Fail(err);
      case Ok(s) =>
        endpoints := s;
        return Pass;
    }

    /** clear_endpoints: a new, empty set. */
    method ClearEndpoints()
      modifies this
      ensures endpoints == {} && Valid()
      ensures master == old(master) && subprocess == old(subprocess) && logdir == old(logdir)
    {
      endpoints := {};
    }
  }

  /** The asyncio router (mavlink_proxy). Its master endpoint is set ahead of
      start() rather than passed to it. */
  class AsyncRouter {
    var endpoints: set<Endpoint>
    var master: Option<Endpoint>
    var subprocess: Option<Process>
    var logdir: string
    const accepts: Endpoint -> bool

    constructor(accepts: Endpoint -> bool, tempDir: string)
      ensures Valid()
      ensures endpoints == {} && master.None? && subprocess.None?
      ensures logdir == tempDir && this.accepts == accepts
    {
      endpoints := {};
      master := None;
      subprocess := None;
      logdir := tempDir;
      this.accepts := accepts;
    }

    predicate IsRunning()
      reads this
    {
      Running(subprocess)
    }

    /** Every endpoint held passed the validator, and names are unique. */
    predicate Valid()
      reads this
    {
      Admissible(endpoints, accepts)
    }

    method SetMasterEndpoint(e: Endpoint)
      modifies this
      ensures master == Some(e)
      ensures endpoints == old(endpoints) && subprocess == old(subprocess) && logdir == old(logdir)
    {
      master := Some(e);
    }

    /** start: a failed spawn is only logged and leaves the old handle in
        place; after the wait, a handle that is not running raises
        MavlinkRouterStartFail, and a missing handle raises AttributeError
        when its return code is read. `spawned` is None when the spawn
        raised, else the new process's exit status after the wait. */
    method Start(spawned: Option<Option<int>>) returns (r: Outcome)
      modifies this
      ensures spawned.Some? ==> subprocess == Some(Process(spawned.value, false))
      ensures spawned.None? ==> subprocess == old(subprocess)
      ensures r.Pass? <==> IsRunning()
      ensures r.Fail? && subprocess.None? ==> r.error == AttributeError
      ensures r.Fail? && subprocess.Some? ==> r.error == MavlinkRouterStartFail
      ensures endpoints == old(endpoints) && master == old(master) && logdir == old(logdir)
    {
      if spawned.Some? {
        subprocess := Some(Process(spawned.value, false));
      }
      if !IsRunning() {
        if subprocess.None? {
          return Fail(AttributeError);
        }
        return Fail(MavlinkRouterStartFail);
      }
      return Pass;
    }

    /** exit: kills a running process. kill() of an asyncio process returns
        None, and awaiting that None raises TypeError once the kill is sent;
        a process that is not running is left alone. */
    method Exit() returns (r: Outcome)
      modifies this
      ensures old(IsRunning()) ==> subprocess == Killed(old(subprocess)) && r == Fail(TypeError)
      ensures !old(IsRunning()) ==> subprocess == old(subprocess) && r == Pass
      ensures endpoints == old(endpoints) && master == old(master) && logdir == old(logdir)
    {
      if IsRunning() {
        subprocess := Killed(subprocess);
        return Fail(TypeError);
      }
      return Pass;
    }

    /** restart: exit, then start; an error from exit stops it there. */
    method Restart(spawned: Option<Option<int>>) returns (r: Outcome)
      modifies this
      ensures old(IsRunning()) ==> r == Fail(TypeError) && subprocess == Killed(old(subprocess))
      ensures !old(IsRunning()) && spawned.Some? ==> subprocess == Some(Process(spawned.value, false))
      ensures !old(IsRunning()) ==> (r.Pass? <==> IsRunning())
      ensures endpoints == old(endpoints) && master == old(master) && logdir == old(logdir)
    {
      r := Exit();
      if r.Fail? {
        return;
      }
      r := Start(spawned);
    }

    method SetLogdir(directory: string, directoryExists: bool) returns (r: Outcome)
      modifies this
      ensures !directoryExists ==> r == Fail(ValueError) && logdir == old(logdir)
      ensures directoryExists ==> r == Pass && logdir == directory
      ensures endpoints == old(endpoints) && master == old(master) && subprocess == old(subprocess)
    {
      if !directoryExists {
        return Fail(ValueError);
      }
      logdir := directory;
      return Pass;
    }

    method AddEndpoint(e: Endpoint) returns (r: Outcome)
      modifies this
      ensures Add(old(endpoints), e, accepts).Ok? ==> r == Pass && endpoints == Add(old(endpoints), e, accepts).value
      ensures Add(old(endpoints), e, accepts).Err? ==>
        r == Fail(Add(old(endpoints), e, accepts).error) && endpoints == old(endpoints)
      ensures old(Valid()) ==> Valid()
      ensures master == old(master) && subprocess == old(subprocess) && logdir == old(logdir)
    {
      match Add(endpoints, e, accepts)
      case Err(err) =>
        return Fail(err);
      case Ok(s) =>
        if Valid() { AddKeepsNamesUnique(endpoints, e, accepts); }
        endpoints := s;
        return Pass;
    }

    method RemoveEndpoint(e: Endpoint) returns (r: Outcome)
      modifies this
      ensures e !in old(endpoints) ==> r == Fail(EndpointDontExist) && endpoints == old(endpoints)
      ensures e in old(endpoints) ==> r == Pass && endpoints == old(endpoints) - {e}
      ensures old(Valid()) ==> Valid()
      ensures master == old(master) && subprocess == old(subprocess) && logdir == old(logdir)
    {
      match Remove(endpoints, e)
      case Err(err) =>
        return Fail(err);
      case Ok(s) =>
        endpoints := s;
        return Pass;
    }

    method ClearEndpoints()
      modifies this
      ensures endpoints == {} && Valid()
      ensures master == old(master) && subprocess == old(subprocess) && logdir == old(logdir)
    {
      endpoints := {};
    }
  }
}
