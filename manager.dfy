/** The router manager (mavlink_proxy/Manager.py): picks the first usable
    router, forwards endpoint changes to it, and remembers whether the router
    should be running so that a periodic watchdog can bring it back. The
    manager holds an asyncio router (AsyncRouter), whose start, exit and
    restart are coroutines; the manager calls them without `await`, so its
    start, stop and restart only change its own flag. The endpoint calls are
    plain methods and do reach the router. */
module MavlinkManager {
  import opened Base
  import opened Endpoints
  import opened Routers

  /** A router implementation as AbstractRouter.__subclasses__() lists it:
      its name, what its is_ok() would answer, and its endpoint validator. */
  datatype RouterKind = RouterKind(name: string, isOk: bool, accepts: Endpoint -> bool)

  /** available_interfaces as written: `filter(lambda subclass: subclass.is_ok, ...)`
      tests the is_ok function object itself, which is always truthy, so
      every router kind passes whether or not it is usable. */
  function AvailableInterfacesAsWritten(kinds: seq<RouterKind>): (r: seq<RouterKind>)
    ensures r == kinds
  {
    kinds
  }

  /** A host where no router is installed still gets a router picked. */
  lemma AvailableInterfacesIgnoresIsOk(k: RouterKind)
    requires !k.isOk
    ensures AvailableInterfacesAsWritten([k]) == [k]
    ensures AvailableInterfaces([k]) == []
  {
  }

  /** available_interfaces as intended: the kinds whose is_ok() holds, in
      declaration order. */
  function AvailableInterfaces(kinds: seq<RouterKind>): (r: seq<RouterKind>)
    ensures |r| <= |kinds|
    ensures forall i :: 0 <= i < |r| ==> r[i].isOk && r[i] in kinds
    ensures forall k :: k in kinds && k.isOk ==> k in r
    ensures r == [] <==> forall k :: k in kinds ==> !k.isOk
  {
    if kinds == [] then []
    else if kinds[0].isOk then [kinds[0]] + AvailableInterfaces(kinds[1..])
    else AvailableInterfaces(kinds[1..])
  }

  /** The first usable kind is the first entry of the filtered list. */
  lemma {:induction false} FirstAvailableIsFirstOk(kinds: seq<RouterKind>, j: int)
    requires 0 <= j < |kinds| && kinds[j].isOk
    requires forall i :: 0 <= i < j ==> !kinds[i].isOk
    ensures AvailableInterfaces(kinds) != [] && AvailableInterfaces(kinds)[0] == kinds[j]
    decreases j
  {
    if j > 0 {
      FirstAvailableIsFirstOk(kinds[1..], j - 1);
    }
  }

  class Manager {
    var tool: AsyncRouter
    /** `self.master: Endpoint` is only annotated in __init__. */
    var master: Option<Endpoint>
    var shouldBeRunning: bool

    constructor(tool: AsyncRouter)
      ensures this.tool == tool && master.None? && !shouldBeRunning
    {
      this.tool := tool;
      master := None;
      shouldBeRunning := false;
    }

    /** endpoints(): the router's own set, not a copy. */
    function Endpoints(): set<Endpoint>
      reads this, tool
    {
      tool.endpoints
    }

    predicate IsRunning()
      reads this, tool
    {
      tool.IsRunning()
    }

    method AddEndpoint(e: Endpoint) returns (r: Outcome)
      modifies tool
      ensures Add(old(tool.endpoints), e, tool.accepts).Ok? ==>
        r == Pass && tool.endpoints == Add(old(tool.endpoints), e, tool.accepts).value
      ensures Add(old(tool.endpoints), e, tool.accepts).Err? ==>
        r == Fail(Add(old(tool.endpoints), e, tool.accepts).error) && tool.endpoints == old(tool.endpoints)
      ensures tool.master == old(tool.master) && tool.subprocess == old(tool.subprocess)
      ensures old(tool.Valid()) ==> tool.Valid()
    {
      r := tool.AddEndpoint(e);
    }

    method RemoveEndpoint(e: Endpoint) returns (r: Outcome)
      modifies tool
      ensures e !in old(tool.endpoints) ==> r == Fail(EndpointDontExist) && tool.endpoints == old(tool.endpoints)
      ensures e in old(tool.endpoints) ==> r == Pass && tool.endpoints == old(tool.endpoints) - {e}
      ensures tool.master == old(tool.master) && tool.subprocess == old(tool.subprocess)
      ensures old(tool.Valid()) ==> tool.Valid()
    {
      r := tool.RemoveEndpoint(e);
    }

    /** add_endpoints: one add per endpoint, in set iteration order `order`;
        the first error propagates and the endpoints added before it stay. */
    method AddEndpoints(endpoints: set<Endpoint>, order: seq<Endpoint>) returns (r: Outcome)
      requires ListsExactly(order, endpoints)
      modifies tool
      ensures tool.endpoints == AddAll(old(tool.endpoints), order, tool.accepts).endpoints
      ensures AddAll(old(tool.endpoints), order, tool.accepts).failure == if r.Pass? then None else Some(r.error)
      ensures tool.master == old(tool.master) && tool.subprocess == old(tool.subprocess)
      ensures old(tool.Valid()) ==> tool.Valid()
    {
      var i := 0;
      while i < |order|
        invariant 0 <= i <= |order|
        invariant AddAll(old(tool.endpoints), order, tool.accepts) == AddAll(tool.endpoints, order[i..], tool.accepts)
        invariant tool.master == old(tool.master) && tool.subprocess == old(tool.subprocess)
        invariant old(tool.Valid()) ==> tool.Valid()
      {
        assert order[i..][0] == order[i] && order[i..][1..] == order[i + 1..];
        r := tool.AddEndpoint(order[i]);
        if r.Fail? {
          return;
        }
        i := i + 1;
      }
      return Pass;
    }

    /** remove_endpoints: one remove per endpoint, stopping at the first error. */
    method RemoveEndpoints(endpoints: set<Endpoint>, order: seq<Endpoint>) returns (r: Outcome)
      requires ListsExactly(order, endpoints)
      modifies tool
      ensures tool.endpoints == RemoveAll(old(tool.endpoints), order).endpoints
      ensures RemoveAll(old(tool.endpoints), order).failure == if r.Pass? then None else Some(r.error)
      ensures tool.master == old(tool.master) && tool.subprocess == old(tool.subprocess)
      ensures old(tool.Valid()) ==> tool.Valid()
    {
      var i := 0;
      while i < |order|
        invariant 0 <= i <= |order|
        invariant RemoveAll(old(tool.endpoints), order) == RemoveAll(tool.endpoints, order[i..])
        invariant tool.master == old(tool.master) && tool.subprocess == old(tool.subprocess)
        invariant old(tool.Valid()) ==> tool.Valid()
      {
        assert order[i..][0] == order[i] && order[i..][1..] == order[i + 1..];
        r := tool.RemoveEndpoint(order[i]);
        if r.Fail? {
          return;
        }
        i := i + 1;
      }
      return Pass;
    }

    method ClearEndpoints()
      modifies tool
      ensures tool.endpoints == {} && tool.Valid()
      ensures tool.master == old(tool.master) && tool.subprocess == old(tool.subprocess)
      ensures old(tool.Valid()) ==> tool.Valid()
    {
      tool.ClearEndpoints();
    }

    method SetMasterEndpoint(e: Endpoint)
      modifies this
      ensures master == Some(e) && shouldBeRunning == old(shouldBeRunning) && tool == old(tool)
    {
      master := Some(e);
    }

    /** start: the flag is raised, then `tool.start()` is called without
        `await`. With no master set, reading it raises AttributeError first;
        otherwise the call only builds a coroutine that never runs, so the
        router is left exactly as it was. */
    method Start() returns (r: Outcome)
      modifies this
      ensures shouldBeRunning && tool == old(tool) && master == old(master)
      ensures r.Fail? <==> master.None?
      ensures r.Fail? ==> r.error == AttributeError
    {
      shouldBeRunning := true;
      if master.None? {
        return Fail(AttributeError);
      }
      return Pass;
    }

    /** stop: the flag is lowered; the un-awaited `tool.exit()` leaves the
        router running if it was. */
    method Stop()
      modifies this
      ensures !shouldBeRunning && tool == old(tool) && master == old(master)
    {
      shouldBeRunning := false;
    }

    /** restart: the flag is lowered around an un-awaited `tool.restart()`
        and raised again; nothing can fail, and the router is untouched. */
    method Restart()
      modifies this
      ensures shouldBeRunning && tool == old(tool) && master == old(master)
    {
      shouldBeRunning := false;
      shouldBeRunning := true;
    }

    /** One pass of auto_restart_router: a restart is attempted exactly when
        the router should be running and is not, and afterwards the flag is
        raised. Since the restart never reaches the router, a pass changes
        nothing the watchdog can see: a stopped router stays stopped and is
        retried on every later pass. */
    method AutoRestartTick() returns (attempted: bool)
      modifies this
      ensures attempted <==> old(shouldBeRunning) && !tool.IsRunning()
      ensures shouldBeRunning == old(shouldBeRunning)
      ensures tool == old(tool) && master == old(master)
    {
      var needsRestart := shouldBeRunning && !IsRunning();
      if !needsRestart {
        return false;
      }
      Restart();
      shouldBeRunning := true;
      return true;
    }
  }

  /** Manager(): RuntimeError when no router is available, otherwise the
      first available router, not yet meant to be running. */
  method NewManager(kinds: seq<RouterKind>, tempDir: string) returns (r: Result<Manager>)
    ensures r.Err? <==> AvailableInterfaces(kinds) == []
    ensures r.Err? ==> r.error == RuntimeError
    ensures r.Ok? ==> r.value.tool.accepts == AvailableInterfaces(kinds)[0].accepts
    ensures r.Ok? ==> !r.value.shouldBeRunning && r.value.master.None?
    ensures r.Ok? ==> r.value.tool.endpoints == {} && !r.value.tool.IsRunning()
  {
    var available := AvailableInterfaces(kinds);
    if available == [] {
      return Err(RuntimeError);
    }
    var tool := new AsyncRouter(available[0].accepts, tempDir);
    var m := new Manager(tool);
    return Ok(m);
  }
}
