/** The orchestrator (ArduPilotManager.py): chooses the board to run on,
    keeps the user's preferred board and persistent endpoints in its
    configuration, edits the router's endpoints in batches, and dispatches
    start, stop and restart by platform. Board detection, the vehicle's
    HTTP interface and the platform-specific process manager are outside the
    object; their answers are parameters and the calls made on them are
    recorded in `actions`. */
module ArduPilot {
  import opened Base
  import opened Typedefs
  import opened Endpoints
  import opened Routers
  import opened Processes
  import opened MavlinkManager
  import BoardDetector
  import BinaryManagers

  // ------------------------------------------------------- board selection

  /** What set_preferred_board stores: the board without its path. */
  datatype PreferredBoard = PreferredBoard(name: string, manufacturer: Option<string>, platform: Platform)

  /** `preferred.dict(exclude={"path"}).items() <= board.dict().items()`. */
  predicate Matches(preferred: PreferredBoard, board: FlightController)
  {
    board.name == preferred.name && board.manufacturer == preferred.manufacturer
    && board.platform == preferred.platform
  }

  /** Position of the first connected board matching the preference. */
  function FirstMatch(connected: seq<FlightController>, preferred: PreferredBoard): (r: Option<nat>)
    ensures r.Some? ==> r.value < |connected| && Matches(preferred, connected[r.value])
    ensures r.Some? ==> forall j :: 0 <= j < r.value ==> !Matches(preferred, connected[j])
    ensures r.None? ==> forall j :: 0 <= j < |connected| ==> !Matches(preferred, connected[j])
  {
    if connected == [] then None
    else if Matches(preferred, connected[0]) then Some(0)
    else match FirstMatch(connected[1..], preferred)
      case None => None
      case Some(i) => Some(i + 1)
  }

  /** The sort key `board.platform`: a str-Enum sorts by its value. */
  function PlatformKey(machineArch: string): FlightController -> string
  {
    (b: FlightController) => PlatformValue(b.platform, machineArch)
  }

  /** get_board_to_be_used over the detected boards: none is an error; a
      connected board matching the preference wins (the first one, whatever
      its path); otherwise the first board of the stable sort by platform,
      which is the first of the boards with the smallest platform value. */
  function SelectBoard(connected: seq<FlightController>, preferred: Option<PreferredBoard>,
                       machineArch: string): (r: Result<FlightController>)
    ensures r.Err? <==> connected == []
    ensures r.Err? ==> r.error == NoBoardsConnected
    ensures preferred.Some? && FirstMatch(connected, preferred.value).Some? ==>
      r == Ok(connected[FirstMatch(connected, preferred.value).value])
    ensures connected != [] && (preferred.None? || FirstMatch(connected, preferred.value).None?) ==>
      exists k :: FirstLeast(connected, PlatformKey(machineArch), k) && r == Ok(connected[k])
  {
    if connected == [] then Err(NoBoardsConnected)
    else if preferred.Some? && FirstMatch(connected, preferred.value).Some? then
      Ok(connected[FirstMatch(connected, preferred.value).value])
    else
      SortByHead(connected, PlatformKey(machineArch));
      Ok(SortBy(connected, PlatformKey(machineArch))[0])
  }

  /** The chosen board is always one of the detected boards. */
  lemma SelectedIsConnected(connected: seq<FlightController>, preferred: Option<PreferredBoard>, machineArch: string)
    requires SelectBoard(connected, preferred, machineArch).Ok?
    ensures SelectBoard(connected, preferred, machineArch).value in connected
  {
    if !(preferred.Some? && FirstMatch(connected, preferred.value).Some?) {
      var k :| FirstLeast(connected, PlatformKey(machineArch), k)
        && SelectBoard(connected, preferred, machineArch) == Ok(connected[k]);
    }
  }

  /** The platform values in sort order: GenericSerial, Pixhawk1, Pixhawk4,
      SITL, then navigator, whose lower-case value sorts after the others. */
  lemma PlatformPriority(machineArch: string)
    ensures StrLess(PlatformValue(GenericSerial, machineArch), PlatformValue(Pixhawk1, machineArch))
    ensures StrLess(PlatformValue(Pixhawk1, machineArch), PlatformValue(Pixhawk4, machineArch))
    ensures StrLess(PlatformValue(Pixhawk4, machineArch), PlatformValue(SITL, machineArch))
    ensures StrLess(PlatformValue(SITL, machineArch), PlatformValue(Navigator, machineArch))
  {
    SitlPlatformNameCases(machineArch);
    StrLessAt("Pixhawk1", "Pixhawk4", 7);
    assert StrLess("GenericSerial", "Pixhawk1");
    assert StrLess("Pixhawk4", "SITL_arm_linux_gnueabihf");
    assert StrLess("Pixhawk4", "SITL_x86_64_linux_gnu");
    assert StrLess("SITL_arm_linux_gnueabihf", "navigator");
    assert StrLess("SITL_x86_64_linux_gnu", "navigator");
  }

  /** A serial platform's value sorts before the navigator's. */
  lemma SerialBeforeNavigator(p: Platform, machineArch: string)
    requires TypeOf(p) == SerialType
    ensures StrLess(PlatformValue(p, machineArch), PlatformValue(Navigator, machineArch))
  {
    PlatformPriority(machineArch);
    var g := PlatformValue(GenericSerial, machineArch);
    var p1 := PlatformValue(Pixhawk1, machineArch);
    var p4 := PlatformValue(Pixhawk4, machineArch);
    var si := PlatformValue(SITL, machineArch);
    var nv := PlatformValue(Navigator, machineArch);
    StrLessTransitive(p4, si, nv);
    StrLessTransitive(p1, p4, nv);
    StrLessTransitive(g, p1, nv);
  }

  /** Sorting two boards puts the second first only when its key is smaller. */
  lemma SortTwo(x: FlightController, y: FlightController, key: FlightController -> string)
    ensures SortBy([x, y], key)[0] == if StrLess(key(y), key(x)) then y else x
  {
    assert [x, y][1..] == [y];
    assert [y][1..] == [];
    assert SortBy([y], key) == [y];
  }

  /** With no preference, a serial board is chosen over a navigator,
      whichever the detector listed first. */
  lemma SerialBeatsNavigator(serial: FlightController, nav: FlightController, machineArch: string)
    requires TypeOf(serial.platform) == SerialType && nav.platform == Navigator
    ensures SelectBoard([nav, serial], None, machineArch) == Ok(serial)
    ensures SelectBoard([serial, nav], None, machineArch) == Ok(serial)
  {
    var key := PlatformKey(machineArch);
    SerialBeforeNavigator(serial.platform, machineArch);
    assert StrLess(key(serial), key(nav));
    StrLessAsymmetric(key(serial), key(nav));
    SortTwo(nav, serial, key);
    SortTwo(serial, nav, key);
  }

  /** Only the user's settings that the model follows. */
  datatype Configuration = Configuration(preferredBoard: Option<PreferredBoard>, endpoints: set<Endpoint>)

  /** The persistent endpoints of a set, as reload_endpoints saves them. */
  function PersistentEndpoints(s: set<Endpoint>): (r: set<Endpoint>)
    ensures r <= s
    ensures forall e :: e in r ==> e.persistent
    ensures forall e :: e in s && e.persistent ==> e in r
  {
    set e | e in s && e.persistent
  }

  /** What reload_endpoints saves comes back on the next start: loading
      the saved persistent endpoints of a router's set into an empty router,
      in any order, rebuilds exactly them, with no add refused. */
  lemma SavedEndpointsLoadBack(t: set<Endpoint>, order: seq<Endpoint>, accepts: Endpoint -> bool)
    requires Admissible(t, accepts) && ListsExactly(order, PersistentEndpoints(t))
    ensures AddEach({}, order, accepts) == PersistentEndpoints(t)
  {
    LoadRestoresSaved(PersistentEndpoints(t), order, accepts);
  }

  /** Whether a batch removal names a protected endpoint. */
  predicate AnyProtected(s: set<Endpoint>)
  {
    exists e :: e in s && e.protected
  }

  // --------------------------------------------------------- start dispatch

  /** How run_with_board starts a chosen board. */
  datatype Launch = NavigatorLaunch | SerialLaunch

  function LaunchFor(board: FlightController): (r: Result<Launch>)
    ensures r == Ok(NavigatorLaunch) <==> board.platform in {Navigator, NavigatorR3}
    ensures r == Ok(SerialLaunch) <==> TypeOf(board.platform) == SerialType
    ensures r.Err? <==> board.platform in {SITL, Undefined}
    ensures r.Err? ==> r.error == RuntimeError
  {
    if board.platform in [NavigatorR3, Navigator] then Ok(NavigatorLaunch)
    else if board.platform in [Pixhawk1, Pixhawk4, GenericSerial] then Ok(SerialLaunch)
    else Err(RuntimeError)
  }

  /** The master endpoint of a navigator: ArduPilot connects as a client to
      the router's UDP server. */
  function NavigatorMaster(appName: string): (e: Endpoint)
    ensures e.connectionType == UDPServer && e.place == "127.0.0.1" && e.argument == 8852
    ensures e.protected && e.name == "Master"
  {
    NewEndpoint("Master", appName, UDPServer, "127.0.0.1", 8852).(protected := true)
  }

  /** The master endpoint of a serial board: its device at 115200 baud. */
  function SerialMaster(appName: string, device: string): (e: Endpoint)
    ensures e.connectionType == Serial && e.place == device && e.argument == 115200
    ensures e.protected && e.name == "Master"
  {
    NewEndpoint("Master", appName, Serial, device, 115200).(protected := true)
  }

  /** The master endpoint of SITL: the SITL binary binds a TCP server on
      port 5760 and the router connects to it as a client. */
  function SitlMaster(appName: string): (e: Endpoint)
    ensures e.connectionType == TCPServer && e.place == "127.0.0.1" && e.argument == 5760
    ensures e.protected && e.name == "Master"
  {
    NewEndpoint("Master", appName, TCPServer, "127.0.0.1", 5760).(protected := true)
  }

  /** The SITL binary is launched with the SITL master's port as its base
      port, so the router's master and the binary's server agree. */
  lemma SitlLaunchUsesMasterPort(firmwarePath: string, frame: SITLFrame, appName: string)
    ensures BinaryManagers.SitlArgv(firmwarePath, frame, SitlMaster(appName))[3] == "--base-port"
    ensures AllDigits(BinaryManagers.SitlArgv(firmwarePath, frame, SitlMaster(appName))[4])
    ensures ParseDigits(BinaryManagers.SitlArgv(firmwarePath, frame, SitlMaster(appName))[4]) == 5760
  {
    BinaryManagers.SitlBasePortRoundTrip(firmwarePath, frame, SitlMaster(appName));
  }

  function GcsLink(appName: string): (e: Endpoint)
    ensures e.connectionType == UDPServer && e.place == "0.0.0.0" && e.argument == 14550 && e.protected
  {
    NewEndpoint("GCS Link", appName, UDPServer, "0.0.0.0", 14550).(protected := true)
  }

  function Mavlink2Rest(appName: string): (e: Endpoint)
    ensures e.connectionType == UDPClient && e.place == "127.0.0.1" && e.argument == 14000 && e.protected
  {
    NewEndpoint("MAVLink2Rest", appName, UDPClient, "127.0.0.1", 14000).(protected := true)
  }

  /** The endpoints start_mavlink_manager leaves: both adds sit in one
      `try`, so an error adding the GCS link skips the MAVLink2Rest add,
      and either error is only logged. */
  function WithDefaults(s: set<Endpoint>, appName: string, accepts: Endpoint -> bool): (r: set<Endpoint>)
    ensures s <= r
    ensures Add(s, GcsLink(appName), accepts).Err? ==> r == s
  {
    match Add(s, GcsLink(appName), accepts)
    case Err(_) => s
    case Ok(s1) =>
      match Add(s1, Mavlink2Rest(appName), accepts)
      case Err(_) => s1
      case Ok(s2) => s2
  }

  /** When both adds are accepted, exactly the two default endpoints join
      the set; when only the GCS link is, it joins alone. */
  lemma WithDefaultsAdds(s: set<Endpoint>, appName: string, accepts: Endpoint -> bool)
    requires Add(s, GcsLink(appName), accepts).Ok?
    ensures var g := GcsLink(appName);
      Add(s + {g}, Mavlink2Rest(appName), accepts).Ok? ==> WithDefaults(s, appName, accepts) == s + {g, Mavlink2Rest(appName)}
    ensures var g := GcsLink(appName);
      Add(s + {g}, Mavlink2Rest(appName), accepts).Err? ==> WithDefaults(s, appName, accepts) == s + {g}
  {
  }

  /** On a router with no endpoint of either name, both defaults are added
      when the router accepts them. */
  lemma WithDefaultsOnFreshRouter(s: set<Endpoint>, appName: string, accepts: Endpoint -> bool)
    requires accepts(GcsLink(appName)) && accepts(Mavlink2Rest(appName))
    requires "GCS Link" !in Names(s) && "MAVLink2Rest" !in Names(s)
    ensures GcsLink(appName) in WithDefaults(s, appName, accepts)
    ensures Mavlink2Rest(appName) in WithDefaults(s, appName, accepts)
  {
    var g := GcsLink(appName);
    NamesAdd(s, g);
    assert g.name == "GCS Link" && Mavlink2Rest(appName).name == "MAVLink2Rest";
    assert "MAVLink2Rest" != "GCS Link";
  }

  /** Starting the router again adds nothing more: whatever the first start
      left, the GCS link is refused the second time, and the MAVLink2Rest
      add is skipped with it. */
  lemma WithDefaultsIdempotent(s: set<Endpoint>, appName: string, accepts: Endpoint -> bool)
    ensures WithDefaults(WithDefaults(s, appName, accepts), appName, accepts) == WithDefaults(s, appName, accepts)
  {
    var g := GcsLink(appName);
    var t := WithDefaults(s, appName, accepts);
    if Add(s, g, accepts).Ok? {
      assert g in t;
      assert g.name in Names(t);
    }
  }

  /** Whether run_with_board gets past its checks for a chosen board: a
      launch plan exists, a navigator's setup worked, and a serial board has
      a non-empty device path. */
  predicate CanStart(board: FlightController, navigatorSetup: Outcome)
  {
    match LaunchFor(board)
    case Err(_) => false
    case Ok(launch) =>
      if launch == NavigatorLaunch then navigatorSetup.Pass?
      else board.path.Some? && board.path.value != ""
  }

  /** stop_ardupilot and restart_ardupilot by platform. */
  datatype RestartPlan = StopThenStart | RebootVehicle

  function RestartPlanFor(platform: Platform): (r: RestartPlan)
    ensures r == StopThenStart <==> platform in {SITL, Navigator, NavigatorR3}
  {
    if platform in [SITL, Navigator, NavigatorR3] then StopThenStart else RebootVehicle
  }

  /** Calls made on the collaborators outside the object. */
  datatype Action = Disarm | KillArdupilot | Reboot | SaveSettings

  /** The disarm attempt stop_ardupilot makes, by platform. */
  function StopActions(platform: Platform): (r: seq<Action>)
    ensures platform != SITL <==> Disarm in r
    ensures |r| > 0 && r[|r| - 1] == KillArdupilot
  {
    if platform != SITL then [Disarm, KillArdupilot] else [KillArdupilot]
  }

  class ArduPilotManager {
    const mavlink: Manager
    const appName: string
    const machineArch: string
    var configuration: Configuration
    /** The configuration last written by settings.save. */
    var saved: Option<Configuration>
    var currentBoard: Option<FlightController>
    var actions: seq<Action>
    /** use_sitl: whether start_ardupilot runs SITL instead of a board. */
    var useSitl: bool
    /** The frame SITL is started with (`_current_sitl_frame`). */
    var sitlFrame: SITLFrame

    /** __init__: takes the loaded configuration and loads its endpoints
        into the router, visiting them in the set's iteration order `order`. */
    constructor(mavlink: Manager, appName: string, machineArch: string, configuration: Configuration,
                order: seq<Endpoint>)
      requires ListsExactly(order, configuration.endpoints)
      modifies mavlink.tool
      ensures this.mavlink == mavlink && this.appName == appName && this.machineArch == machineArch
      ensures this.configuration == configuration && saved.None? && currentBoard.None? && actions == [] && !useSitl
      ensures sitlFrame == UndefinedFrame
      ensures mavlink.tool.endpoints == AddEach(old(mavlink.tool.endpoints), order, mavlink.tool.accepts)
      ensures old(mavlink.tool.Valid()) ==> mavlink.tool.Valid()
      ensures mavlink.tool.master == old(mavlink.tool.master) && mavlink.tool.subprocess == old(mavlink.tool.subprocess)
    {
      this.mavlink := mavlink;
      this.appName := appName;
      this.machineArch := machineArch;
      this.configuration := configuration;
      saved := None;
      currentBoard := None;
      actions := [];
      useSitl := false;
      sitlFrame := UndefinedFrame;
      new;
      LoadEndpoints(order);
    }

    /** _load_endpoints: adds each configured endpoint; an endpoint the
        router refuses is only logged, and the loop goes on. */
    method LoadEndpoints(order: seq<Endpoint>)
      requires ListsExactly(order, configuration.endpoints)
      modifies mavlink.tool
      ensures mavlink.tool.endpoints == AddEach(old(mavlink.tool.endpoints), order, mavlink.tool.accepts)
      ensures old(mavlink.tool.Valid()) ==> mavlink.tool.Valid()
      ensures mavlink.tool.master == old(mavlink.tool.master) && mavlink.tool.subprocess == old(mavlink.tool.subprocess)
    {
      var i := 0;
      while i < |order|
        invariant 0 <= i <= |order|
        invariant AddEach(old(mavlink.tool.endpoints), order, mavlink.tool.accepts)
               == AddEach(mavlink.tool.endpoints, order[i..], mavlink.tool.accepts)
        invariant old(mavlink.tool.Valid()) ==> mavlink.tool.Valid()
        invariant mavlink.tool.master == old(mavlink.tool.master) && mavlink.tool.subprocess == old(mavlink.tool.subprocess)
      {
        assert order[i..][0] == order[i] && order[i..][1..] == order[i + 1..];
        var _ := mavlink.AddEndpoint(order[i]);
        i := i + 1;
      }
    }

    /** platform: Undefined until a board runs. */
    function CurrentPlatform(): (p: Platform)
      reads this
      ensures currentBoard.None? ==> p == Undefined
      ensures currentBoard.Some? ==> p == currentBoard.value.platform
    {
      if currentBoard.None? then Undefined else currentBoard.value.platform
    }

    /** get_preferred_board: NoPreferredBoardSet until one is stored; the
        board comes back without a path. */
    function GetPreferredBoard(): (r: Result<FlightController>)
      reads this
      ensures r.Err? <==> configuration.preferredBoard.None?
      ensures r.Err? ==> r.error == NoPreferredBoardSet
      ensures r.Ok? ==> r.value.path.None? && Matches(configuration.preferredBoard.value, r.value)
    {
      match configuration.preferredBoard
      case None => Err(NoPreferredBoardSet)
      case Some(p) => Ok(FlightController(p.name, p.manufacturer, p.platform, None))
    }

    /** set_preferred_board: stores the board without its path and saves. */
    method SetPreferredBoard(board: FlightController)
      modifies this
      ensures GetPreferredBoard() == Ok(board.(path := None))
      ensures configuration.endpoints == old(configuration.endpoints)
      ensures saved == Some(configuration) && actions == old(actions) + [SaveSettings]
      ensures currentBoard == old(currentBoard)
    {
      configuration := configuration.(preferredBoard := Some(PreferredBoard(board.name, board.manufacturer, board.platform)));
      saved := Some(configuration);
      actions := actions + [SaveSettings];
    }

    /** get_board_to_be_used over the boards the detector reported. */
    function GetBoardToBeUsed(connected: seq<FlightController>): (r: Result<FlightController>)
      reads this
      ensures r.Err? <==> connected == []
      ensures r.Ok? ==> r.value in connected
      ensures configuration.preferredBoard.Some? && FirstMatch(connected, configuration.preferredBoard.value).Some? ==>
        Matches(configuration.preferredBoard.value, r.value)
    {
      var r := SelectBoard(connected, configuration.preferredBoard, machineArch);
      if r.Ok? then SelectedIsConnected(connected, configuration.preferredBoard, machineArch); r else r
    }

    /** _reset_endpoints: clear, then add the given set back; errors are
        only logged. */
    method ResetEndpoints(endpoints: set<Endpoint>, order: seq<Endpoint>)
      requires ListsExactly(order, endpoints)
      modifies mavlink.tool
      ensures mavlink.tool.endpoints == AddAll({}, order, mavlink.tool.accepts).endpoints
      ensures mavlink.tool.Valid()
      ensures mavlink.tool.master == old(mavlink.tool.master) && mavlink.tool.subprocess == old(mavlink.tool.subprocess)
    {
      mavlink.ClearEndpoints();
      var _ := mavlink.AddEndpoints(endpoints, order);
    }

    /** add_new_endpoints as written: `loaded_endpoints` is the router's own
        set, so the reset after a failure rebuilds the set as it stood at the
        failure, with the endpoints added before it still in. */
    method AddNewEndpointsAsWritten(newEndpoints: set<Endpoint>, order: seq<Endpoint>) returns (r: Outcome)
      requires ListsExactly(order, newEndpoints) && mavlink.tool.Valid()
      modifies mavlink.tool
      ensures mavlink.tool.endpoints == AddAll(old(mavlink.tool.endpoints), order, mavlink.tool.accepts).endpoints
      ensures r.Pass? <==> AddAll(old(mavlink.tool.endpoints), order, mavlink.tool.accepts).failure.None?
      ensures r.Fail? ==> r.error == EndpointCreationFail
      ensures mavlink.tool.Valid()
    {
      var i := 0;
      while i < |order|
        invariant 0 <= i <= |order|
        invariant AddAll(old(mavlink.tool.endpoints), order, mavlink.tool.accepts)
          == AddAll(mavlink.tool.endpoints, order[i..], mavlink.tool.accepts)
        invariant mavlink.tool.Valid()
      {
        assert order[i..][0] == order[i] && order[i..][1..] == order[i + 1..];
        var added := mavlink.AddEndpoint(order[i]);
        if added.Fail? {
          var loaded := mavlink.Endpoints();
          var loadedOrder := ListOf(loaded);
          ReAddAll(loaded, loadedOrder, mavlink.tool.accepts);
          ResetEndpoints(loaded, loadedOrder);
          return Fail(EndpointCreationFail);
        }
        i := i + 1;
      }
      return Pass;
    }

    /** add_new_endpoints as intended: a failure puts back the set the call
        started from. */
    method AddNewEndpoints(newEndpoints: set<Endpoint>, order: seq<Endpoint>) returns (r: Outcome)
      requires ListsExactly(order, newEndpoints) && mavlink.tool.Valid()
      modifies mavlink.tool
      ensures r.Pass? <==> AddAll(old(mavlink.tool.endpoints), order, mavlink.tool.accepts).failure.None?
      ensures r.Pass? ==> mavlink.tool.endpoints == AddAll(old(mavlink.tool.endpoints), order, mavlink.tool.accepts).endpoints
      ensures r.Fail? ==> r.error == EndpointCreationFail && mavlink.tool.endpoints == old(mavlink.tool.endpoints)
      ensures old(mavlink.tool.endpoints) <= mavlink.tool.endpoints
      ensures mavlink.tool.Valid()
      ensures mavlink.tool.master == old(mavlink.tool.master) && mavlink.tool.subprocess == old(mavlink.tool.subprocess)
    {
      var loaded := mavlink.Endpoints();
      var i := 0;
      while i < |order|
        invariant 0 <= i <= |order|
        invariant AddAll(loaded, order, mavlink.tool.accepts)
          == AddAll(mavlink.tool.endpoints, order[i..], mavlink.tool.accepts)
        invariant mavlink.tool.Valid()
        invariant mavlink.tool.master == old(mavlink.tool.master) && mavlink.tool.subprocess == old(mavlink.tool.subprocess)
      {
        assert order[i..][0] == order[i] && order[i..][1..] == order[i + 1..];
        var added := mavlink.AddEndpoint(order[i]);
        if added.Fail? {
          var loadedOrder := ListOf(loaded);
          ReAddAll(loaded, loadedOrder, mavlink.tool.accepts);
          ResetEndpoints(loaded, loadedOrder);
          return Fail(EndpointCreationFail);
        }
        i := i + 1;
      }
      AddAllApplied(loaded, order, mavlink.tool.accepts);
      return Pass;
    }

    /** remove_endpoints as written: a protected endpoint anywhere in the
        request aborts with ValueError before anything is removed; a failed
        removal resets to the set as it stood at the failure. */
    method RemoveEndpointsAsWritten(toRemove: set<Endpoint>, order: seq<Endpoint>) returns (r: Outcome)
      requires ListsExactly(order, toRemove) && mavlink.tool.Valid()
      modifies mavlink.tool
      ensures AnyProtected(toRemove) ==> r == Fail(ValueError) && mavlink.tool.endpoints == old(mavlink.tool.endpoints)
      ensures !AnyProtected(toRemove) ==> mavlink.tool.endpoints == RemoveAll(old(mavlink.tool.endpoints), order).endpoints
      ensures !AnyProtected(toRemove) ==> (r.Pass? <==> RemoveAll(old(mavlink.tool.endpoints), order).failure.None?)
      ensures !AnyProtected(toRemove) && r.Fail? ==> r.error == EndpointDeleteFail
      ensures mavlink.tool.Valid()
    {
      if exists e :: e in toRemove && e.protected {
        return Fail(ValueError);
      }
      var i := 0;
      while i < |order|
        invariant 0 <= i <= |order|
        invariant RemoveAll(old(mavlink.tool.endpoints), order) == RemoveAll(mavlink.tool.endpoints, order[i..])
        invariant mavlink.tool.Valid()
      {
        assert order[i..][0] == order[i] && order[i..][1..] == order[i + 1..];
        var removed := mavlink.RemoveEndpoint(order[i]);
        if removed.Fail? {
          var loaded := mavlink.Endpoints();
          var loadedOrder := ListOf(loaded);
          ReAddAll(loaded, loadedOrder, mavlink.tool.accepts);
          ResetEndpoints(loaded, loadedOrder);
          return Fail(EndpointDeleteFail);
        }
        i := i + 1;
      }
      return Pass;
    }

    /** remove_endpoints as intended: a failed removal puts back the set the
        call started from. */
    method RemoveEndpoints(toRemove: set<Endpoint>, order: seq<Endpoint>) returns (r: Outcome)
      requires ListsExactly(order, toRemove) && mavlink.tool.Valid()
      modifies mavlink.tool
      ensures AnyProtected(toRemove) ==> r == Fail(ValueError) && mavlink.tool.endpoints == old(mavlink.tool.endpoints)
      ensures !AnyProtected(toRemove) ==> (r.Pass? <==> RemoveAll(old(mavlink.tool.endpoints), order).failure.None?)
      ensures r.Pass? ==> mavlink.tool.endpoints == RemoveAll(old(mavlink.tool.endpoints), order).endpoints
      ensures r.Fail? ==> mavlink.tool.endpoints == old(mavlink.tool.endpoints)
      ensures !AnyProtected(toRemove) && r.Fail? ==> r.error == EndpointDeleteFail
      ensures mavlink.tool.Valid()
    {
      if exists e :: e in toRemove && e.protected {
        return Fail(ValueError);
      }
      var loaded := mavlink.Endpoints();
      var i := 0;
      while i < |order|
        invariant 0 <= i <= |order|
        invariant RemoveAll(loaded, order) == RemoveAll(mavlink.tool.endpoints, order[i..])
        invariant mavlink.tool.Valid()
      {
        assert order[i..][0] == order[i] && order[i..][1..] == order[i + 1..];
        var removed := mavlink.RemoveEndpoint(order[i]);
        if removed.Fail? {
          var loadedOrder := ListOf(loaded);
          ReAddAll(loaded, loadedOrder, mavlink.tool.accepts);
          ResetEndpoints(loaded, loadedOrder);
          return Fail(EndpointDeleteFail);
        }
        i := i + 1;
      }
      return Pass;
    }

    /** reload_endpoints: saves exactly the persistent endpoints, then
        restarts the router through the manager, which only sets the
        manager's flag. */
    method ReloadEndpoints()
      modifies this, mavlink
      ensures configuration.endpoints == PersistentEndpoints(mavlink.tool.endpoints)
      ensures configuration.preferredBoard == old(configuration.preferredBoard)
      ensures saved == Some(configuration) && actions == old(actions) + [SaveSettings]
      ensures mavlink.shouldBeRunning && mavlink.master == old(mavlink.master) && mavlink.tool == old(mavlink.tool)
      ensures currentBoard == old(currentBoard)
    {
      configuration := configuration.(endpoints := PersistentEndpoints(mavlink.Endpoints()));
      saved := Some(configuration);
      actions := actions + [SaveSettings];
      mavlink.Restart();
    }

    /** start_mavlink_manager: adds the GCS and MAVLink2Rest endpoints in
        one `try` (an error is only logged, and skips what follows it), sets
        the master and starts the router through the manager. */
    method StartMavlinkManager(device: Endpoint)
      requires mavlink.tool.Valid()
      modifies mavlink, mavlink.tool
      ensures mavlink.master == Some(device) && mavlink.shouldBeRunning && mavlink.tool == old(mavlink.tool)
      ensures mavlink.tool.endpoints == WithDefaults(old(mavlink.tool.endpoints), appName, mavlink.tool.accepts)
      ensures mavlink.tool.Valid()
      ensures mavlink.tool.master == old(mavlink.tool.master) && mavlink.tool.subprocess == old(mavlink.tool.subprocess)
    {
      var gcs := GcsLink(appName);
      var rest := Mavlink2Rest(appName);
      AddAllOne(mavlink.tool.endpoints, gcs, mavlink.tool.accepts);
      var added := AddNewEndpoints({gcs}, [gcs]);
      if added.Pass? {
        AddAllOne(mavlink.tool.endpoints, rest, mavlink.tool.accepts);
        var _ := AddNewEndpoints({rest}, [rest]);
      }
      mavlink.SetMasterEndpoint(device);
      var _ := mavlink.Start();
    }

    /** run_with_board: start the board chosen among the detected ones, by
        platform; the board becomes current once the router was started.
        `navigatorSetup` is what the firmware check and the platform process
        manager did before a navigator's router is started. */
    method RunWithBoard(connected: seq<FlightController>, navigatorSetup: Outcome) returns (r: Outcome)
      requires mavlink.tool.Valid()
      modifies this, mavlink, mavlink.tool
      ensures r.Pass? <==> GetBoardToBeUsed(connected).Ok? && CanStart(GetBoardToBeUsed(connected).value, navigatorSetup)
      ensures GetBoardToBeUsed(connected).Err? ==> r == Fail(NoBoardsConnected)
      ensures GetBoardToBeUsed(connected).Ok? && LaunchFor(GetBoardToBeUsed(connected).value).Err? ==> r == Fail(RuntimeError)
      ensures r.Pass? ==> currentBoard == Some(GetBoardToBeUsed(connected).value) && mavlink.shouldBeRunning
      ensures r.Pass? && currentBoard.value.platform in {Navigator, NavigatorR3} ==>
        mavlink.master == Some(NavigatorMaster(appName))
      ensures r.Pass? && TypeOf(currentBoard.value.platform) == SerialType ==>
        mavlink.master == Some(SerialMaster(appName, currentBoard.value.path.value))
      ensures r.Pass? ==> mavlink.tool.endpoints == WithDefaults(old(mavlink.tool.endpoints), appName, mavlink.tool.accepts)
      ensures r.Fail? ==> currentBoard == old(currentBoard) && mavlink.shouldBeRunning == old(mavlink.shouldBeRunning)
      ensures r.Fail? ==> mavlink.tool.endpoints == old(mavlink.tool.endpoints)
      ensures configuration == old(configuration) && actions == old(actions) && useSitl == old(useSitl)
      ensures sitlFrame == old(sitlFrame)
      ensures mavlink.tool.Valid() && mavlink.tool.subprocess == old(mavlink.tool.subprocess)
    {
      var chosen := GetBoardToBeUsed(connected);
      if chosen.Err? {
        return Fail(chosen.error);
      }
      var board := chosen.value;
      var launch := LaunchFor(board);
      if launch.Err? {
        return Fail(launch.error);
      }
      if launch.value == NavigatorLaunch {
        if navigatorSetup.Fail? {
          return navigatorSetup;
        }
        StartMavlinkManager(NavigatorMaster(appName));
      } else {
        if board.path.None? || board.path.value == "" {
          return Fail(ValueError);
        }
        StartMavlinkManager(SerialMaster(appName, board.path.value));
      }
      currentBoard := Some(board);
      return Pass;
    }

    /** stop_ardupilot: disarms unless on SITL, kills ArduPilot, and always
        reaches the router stop, which only lowers the manager's flag; disarm
        and kill errors are only logged. */
    method StopArdupilot()
      modifies this, mavlink
      ensures actions == old(actions) + StopActions(old(CurrentPlatform()))
      ensures !mavlink.shouldBeRunning && mavlink.master == old(mavlink.master) && mavlink.tool == old(mavlink.tool)
      ensures currentBoard == old(currentBoard) && configuration == old(configuration) && useSitl == old(useSitl)
      ensures sitlFrame == old(sitlFrame)
    {
      if CurrentPlatform() != SITL {
        actions := actions + [Disarm];
      }
      actions := actions + [KillArdupilot];
      mavlink.Stop();
    }

    /** The current_sitl_frame setter. */
    method SetCurrentSitlFrame(frame: SITLFrame)
      modifies this
      ensures sitlFrame == frame
      ensures currentBoard == old(currentBoard) && configuration == old(configuration) && saved == old(saved)
      ensures actions == old(actions) && useSitl == old(useSitl)
    {
      sitlFrame := frame;
    }

    /** run_with_sitl: installs the SITL firmware when it is missing, turns
        an undefined frame into Vectored and makes it the current frame,
        launches the SITL binary, then starts the router against the TCP
        server that binary binds and makes the SITL board current.
        `firmwareSetup` is what the firmware check and install did, and
        `sitlLaunch` what the platform process manager's launch did; an
        error from either is raised and leaves the router and the board as
        they were. */
    method RunWithSitl(frame: SITLFrame, firmwareSetup: Outcome, sitlLaunch: Outcome) returns (r: Outcome)
      requires mavlink.tool.Valid()
      modifies this, mavlink, mavlink.tool
      ensures r.Pass? <==> firmwareSetup.Pass? && sitlLaunch.Pass?
      ensures firmwareSetup.Fail? ==> r == firmwareSetup && sitlFrame == old(sitlFrame)
      ensures firmwareSetup.Pass? ==> sitlFrame != UndefinedFrame && (frame != UndefinedFrame ==> sitlFrame == frame)
      ensures firmwareSetup.Pass? && frame == UndefinedFrame ==> sitlFrame == Vectored
      ensures firmwareSetup.Pass? && sitlLaunch.Fail? ==> r == sitlLaunch
      ensures r.Pass? ==> currentBoard == Some(BoardDetector.SitlBoard()) && currentBoard.value.platform == SITL
      ensures r.Pass? ==> mavlink.master == Some(SitlMaster(appName)) && mavlink.shouldBeRunning
      ensures r.Pass? ==> mavlink.tool.endpoints == WithDefaults(old(mavlink.tool.endpoints), appName, mavlink.tool.accepts)
      ensures r.Fail? ==> currentBoard == old(currentBoard) && mavlink.shouldBeRunning == old(mavlink.shouldBeRunning)
      ensures r.Fail? ==> mavlink.master == old(mavlink.master) && mavlink.tool.endpoints == old(mavlink.tool.endpoints)
      ensures configuration == old(configuration) && actions == old(actions) && useSitl == old(useSitl)
      ensures mavlink.tool.Valid() && mavlink.tool.subprocess == old(mavlink.tool.subprocess)
    {
      if firmwareSetup.Fail? {
        return firmwareSetup;
      }
      sitlFrame := if frame == UndefinedFrame then Vectored else frame;
      if sitlLaunch.Fail? {
        return sitlLaunch;
      }
      StartMavlinkManager(SitlMaster(appName));
      currentBoard := Some(BoardDetector.SitlBoard());
      return Pass;
    }

    /** start_ardupilot: run_with_sitl with the current frame when `useSitl`
        is set, else run_with_board; an error is logged and raised again. */
    method StartArdupilot(connected: seq<FlightController>, navigatorSetup: Outcome,
                          firmwareSetup: Outcome, sitlLaunch: Outcome) returns (r: Outcome)
      requires mavlink.tool.Valid()
      modifies this, mavlink, mavlink.tool
      ensures useSitl ==> (r.Pass? <==> firmwareSetup.Pass? && sitlLaunch.Pass?)
      ensures useSitl && r.Pass? ==>
        currentBoard == Some(BoardDetector.SitlBoard()) && mavlink.master == Some(SitlMaster(appName)) && mavlink.shouldBeRunning
      ensures useSitl && firmwareSetup.Pass? ==>
        sitlFrame == (if old(sitlFrame) == UndefinedFrame then Vectored else old(sitlFrame))
      ensures !useSitl ==> sitlFrame == old(sitlFrame)
      ensures !useSitl ==> (r.Pass? <==> GetBoardToBeUsed(connected).Ok? && CanStart(GetBoardToBeUsed(connected).value, navigatorSetup))
      ensures !useSitl && r.Pass? ==> currentBoard == Some(GetBoardToBeUsed(connected).value) && mavlink.shouldBeRunning
      ensures r.Fail? ==> currentBoard == old(currentBoard) && mavlink.shouldBeRunning == old(mavlink.shouldBeRunning)
      ensures configuration == old(configuration) && actions == old(actions) && useSitl == old(useSitl)
      ensures mavlink.tool.Valid()
    {
      if useSitl {
        r := RunWithSitl(sitlFrame, firmwareSetup, sitlLaunch);
        return;
      }
      r := RunWithBoard(connected, navigatorSetup);
    }

    /** restart_ardupilot: SITL and navigator boards are stopped and
        started again, and a failed start propagates; other boards are asked
        to reboot. */
    method RestartArdupilot(connected: seq<FlightController>, navigatorSetup: Outcome,
                            firmwareSetup: Outcome, sitlLaunch: Outcome) returns (r: Outcome)
      requires mavlink.tool.Valid()
      modifies this, mavlink, mavlink.tool
      ensures RestartPlanFor(old(CurrentPlatform())) == RebootVehicle ==>
        r == Pass && actions == old(actions) + [Reboot] && mavlink.shouldBeRunning == old(mavlink.shouldBeRunning)
      ensures RestartPlanFor(old(CurrentPlatform())) == StopThenStart ==>
        actions == old(actions) + StopActions(old(CurrentPlatform()))
      ensures RestartPlanFor(old(CurrentPlatform())) == StopThenStart && useSitl ==>
        (r.Pass? <==> firmwareSetup.Pass? && sitlLaunch.Pass?)
      ensures RestartPlanFor(old(CurrentPlatform())) == StopThenStart && useSitl && r.Pass? ==>
        currentBoard == Some(BoardDetector.SitlBoard()) && mavlink.master == Some(SitlMaster(appName)) && mavlink.shouldBeRunning
      ensures RestartPlanFor(old(CurrentPlatform())) == StopThenStart && !useSitl ==>
        (r.Pass? <==> GetBoardToBeUsed(connected).Ok? && CanStart(GetBoardToBeUsed(connected).value, navigatorSetup))
      ensures RestartPlanFor(old(CurrentPlatform())) == StopThenStart && !useSitl && r.Pass? ==>
        currentBoard == Some(GetBoardToBeUsed(connected).value) && mavlink.shouldBeRunning
      ensures RestartPlanFor(old(CurrentPlatform())) == StopThenStart && r.Fail? ==>
        !mavlink.shouldBeRunning && currentBoard == old(currentBoard)
      ensures configuration == old(configuration) && mavlink.tool.Valid()
    {
      if RestartPlanFor(CurrentPlatform()) == StopThenStart {
        StopArdupilot();
        r := StartArdupilot(connected, navigatorSetup, firmwareSetup, sitlLaunch);
        return;
      }
      actions := actions + [Reboot];
      return Pass;
    }
  }

  /** The failed batch add that the as-written rollback does not undo:
      starting from no endpoints, adding a and then b with a's name stops at
      b and leaves a in the set, which AddNewEndpointsAsWritten keeps and
      AddNewEndpoints takes back out. */
  lemma PartialAddSurvivesReset(a: Endpoint, b: Endpoint, accepts: Endpoint -> bool)
    requires accepts(a) && accepts(b) && a.name == b.name && a != b
    ensures AddAll({}, [a, b], accepts) == Progress({a}, Some(DuplicateEndpointName))
  {
    assert Names({}) == {};
    assert a.name in Names({a});
    assert [a, b][1..] == [b];
    assert [b][1..] == [];
  }

  /** The failed batch removal the as-written rollback does not undo:
      removing a and then an absent b stops at b with a already gone. */
  lemma PartialRemoveSurvivesReset(a: Endpoint, b: Endpoint)
    requires a != b
    ensures RemoveAll({a}, [a, b]) == Progress({}, Some(EndpointDontExist))
  {
    assert [a, b][1..] == [b];
    assert {a} - {a} == {};
  }

  /** The elements of a set in some order, each once: Python's iteration
      over a set. */
  method ListOf(s: set<Endpoint>) returns (order: seq<Endpoint>)
    ensures ListsExactly(order, s)
  {
    order := [];
    var rest := s;
    while rest != {}
      invariant rest <= s
      invariant forall i, j :: 0 <= i < j < |order| ==> order[i] != order[j]
      invariant forall i :: 0 <= i < |order| ==> order[i] in s && order[i] !in rest
      invariant forall x :: x in s ==> x in rest || x in order
      decreases |rest|
    {
      var x :| x in rest;
      order := order + [x];
      rest := rest - {x};
    }
  }
}
