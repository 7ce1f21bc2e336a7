# A verified model of the companion-computer services

This project models the control core of the companion-docker services that
run next to an ArduPilot autopilot. Each part is written in Dafny 4.11 and
carries proved contracts.

- **ardupilot_manager** (`ArduPilot`): picks the flight controller to run on,
  from the stored preference and the detected boards. It starts ArduPilot
  for that board, either as a Linux or SITL binary or over a serial link. It
  keeps the MAVLink endpoints the router forwards to, and adds or removes
  them in batches with a rollback when one fails.
- **the ArduPilot binary supervisor** (`BinaryManagers`): builds the Linux
  and SITL command lines, tracks the child process, stops and prunes
  ArduPilot processes, and runs a watchdog meant to restart a dead binary.
  As written, the process filter is handed a platform where it expects a
  board, so the watchdog's check, prune and kill raise AttributeError
  whenever the process table is not empty (see Findings); the model keeps
  that behaviour beside the corrected one.
- **board detection** (`Probes`, `FlightControllerDetector`,
  `BoardDetector`, `LegacyDetector`) and **board identification**
  (`Identifier`): Navigator boards are found through I2C probes; serial
  flight controllers are found by USB vendor and product or by bootloader
  board id.
- **the MAVLink routers** (`Endpoints`, `Routers`, `MavlinkManager`): the
  rules for the endpoint set (unique names, a validator per router), the
  synchronous and the asynchronous router wrappers, and the manager that
  wraps the first usable router in the asynchronous wrapper. The manager's
  start, stop and restart call the router's coroutines without awaiting
  them, so they change only the manager's should-be-running flag.
- **firmware** (`Firmware`): firmware names and paths per platform,
  validation of APJ and ELF files, installation, and restoring the default
  firmware.
- **shared types** (`Typedefs`): the platform, board type, endpoint type and
  SITL frame enumerations.
- **commonwealth** (`DHCPServer`, `Vehicle`): the dnsmasq DHCP server
  wrapper, its command line and gateway arithmetic, and the vehicle commands
  sent through mavlink2rest (reboot, shutdown, disarm, the armed and
  heartbeat tests).
- **cable_guy** (`CableGuy`, `CableGuyManager`): which network interfaces
  are reported, the address mode of each address, the weak IPv4 test, and
  the requests that add and remove addresses.
- **wifi** (`Hostapd`, `Hotspot`): the hostapd band chosen from a channel,
  the channel parsed from the output of `iw <interface> info`, the
  configuration file hostapd reads back, and HotspotManager's
  construction and stop logic.

Python behaviour is written out explicitly:

- exceptions are values of an error datatype, returned through `Result` and
  `Outcome`;
- a `str`-valued `Enum` compares by its value;
- iterating over a set visits its elements in some order, which the model
  takes as a parameter listing each element exactly once;
- the file system, the clock, psutil, subprocess, I2C and USB, and HTTP
  replies are inputs to the functions that read them;
- objects whose fields the source updates are classes, and each method
  ensures that its new state is the value of a pure function of the old
  state.

## Model

| member | source | states |
|---|---|---|
| ArduPilot.FirstMatch | core/services/ardupilot_manager/ArduPilotManager.py:218-221 | the index returned is the first connected board whose fields include every field of the stored preference (path excluded); None exactly when no board matches |
| ArduPilot.SelectBoard | core/services/ardupilot_manager/ArduPilotManager.py:206-227 | NoBoardsConnected iff no board is detected; the first board matching the preference wins; otherwise the first board with the least platform value, as a stable sort by `board.platform` leaves it |
| ArduPilot.SelectedIsConnected | core/services/ardupilot_manager/ArduPilotManager.py:206-227 | the board chosen is always one of the detected boards |
| ArduPilot.PlatformPriority | core/services/ardupilot_manager/ArduPilotManager.py:226-227 | the platform values order as GenericSerial < Pixhawk1 < Pixhawk4 < SITL < Navigator, which decides the fallback choice |
| ArduPilot.SerialBeforeNavigator | core/services/ardupilot_manager/ArduPilotManager.py:226-227 | every serial platform's value sorts before the navigator's |
| ArduPilot.SortTwo | core/services/ardupilot_manager/ArduPilotManager.py:226-227 | sorting two boards puts the second first only when its key is strictly smaller (stability) |
| ArduPilot.SerialBeatsNavigator | core/services/ardupilot_manager/ArduPilotManager.py:223-227 | with no preference, a serial board is chosen over a navigator in either detection order |
| ArduPilot.PersistentEndpoints | core/services/ardupilot_manager/ArduPilotManager.py:289 | exactly the persistent members of the router's endpoint set |
| ArduPilot.SavedEndpointsLoadBack | core/services/ardupilot_manager/ArduPilotManager.py:271-277 | the persistent endpoints reload_endpoints saves (lines 287-294) are rebuilt exactly when _load_endpoints adds them to an empty router, in any order, with none refused |
| ArduPilot.LaunchFor | core/services/ardupilot_manager/ArduPilotManager.py:77-88 | Navigator and NavigatorR3 start as a navigator, the three serial platforms start as serial, and any other platform is a RuntimeError; each direction is an iff |
| ArduPilot.NavigatorMaster | core/services/ardupilot_manager/ArduPilotManager.py:120-122 | the navigator's master is the protected UDP server "Master" on 127.0.0.1:8852 |
| ArduPilot.SerialMaster | core/services/ardupilot_manager/ArduPilotManager.py:136-138 | a serial board's master is the protected serial endpoint "Master" on the board's device at 115200 baud |
| ArduPilot.SitlMaster | core/services/ardupilot_manager/ArduPilotManager.py:149-152 | SITL's master is the protected TCP server "Master" on 127.0.0.1:5760 |
| ArduPilot.SitlLaunchUsesMasterPort | core/services/ardupilot_manager/ArduPilotManager.py:149-158 | the SITL binary is launched with `--base-port` followed by digits that read back as 5760, the port of the master the router connects to |
| ArduPilot.GcsLink | core/services/ardupilot_manager/ArduPilotManager.py:168-175 | the GCS link is a protected UDP server on 0.0.0.0:14550 |
| ArduPilot.Mavlink2Rest | core/services/ardupilot_manager/ArduPilotManager.py:180-187 | the MAVLink2Rest link is a protected UDP client to 127.0.0.1:14000 |
| ArduPilot.WithDefaults | core/services/ardupilot_manager/ArduPilotManager.py:164-190 | the endpoints start_mavlink_manager leaves never lose one, and a refused GCS link leaves the set unchanged |
| ArduPilot.WithDefaultsAdds | core/services/ardupilot_manager/ArduPilotManager.py:164-190 | when both adds are accepted exactly the GCS link and MAVLink2Rest join the set; when only the GCS link is, it joins alone |
| ArduPilot.WithDefaultsOnFreshRouter | core/services/ardupilot_manager/ArduPilotManager.py:164-190 | a router holding neither name and accepting both gets both default endpoints |
| ArduPilot.WithDefaultsIdempotent | core/services/ardupilot_manager/ArduPilotManager.py:164-190 | starting again adds nothing: the second GCS add is refused and skips MAVLink2Rest |
| ArduPilot.RestartPlanFor | core/services/ardupilot_manager/ArduPilotManager.py:258-263 | a restart stops and starts again iff the platform is SITL, Navigator or NavigatorR3; every other platform reboots the vehicle |
| ArduPilot.StopActions | core/services/ardupilot_manager/ArduPilotManager.py:229-246 | stopping disarms iff the platform is not SITL, and always ends by killing ArduPilot |
| ArduPilot.ArduPilotManager.constructor | core/services/ardupilot_manager/ArduPilotManager.py:36-57 | a new manager holds the loaded configuration, with no current board, nothing saved, SITL off and the SITL frame undefined; the saved endpoints are loaded into the router one by one, a refused one skipped, and the router's master and process are untouched |
| ArduPilot.ArduPilotManager.LoadEndpoints | core/services/ardupilot_manager/ArduPilotManager.py:271-277 | each saved endpoint is added in iteration order and a refused one is skipped: the set becomes AddEach of the old set; master and process are untouched |
| ArduPilot.ArduPilotManager.CurrentPlatform | core/services/ardupilot_manager/ArduPilotManager.py:95-99 | Undefined while no board runs, else the current board's platform |
| ArduPilot.ArduPilotManager.GetPreferredBoard | core/services/ardupilot_manager/ArduPilotManager.py:200-204 | NoPreferredBoardSet iff none is stored; otherwise a board without path that carries the stored fields |
| ArduPilot.ArduPilotManager.SetPreferredBoard | core/services/ardupilot_manager/ArduPilotManager.py:195-198 | afterwards get_preferred_board returns the board with its path dropped; the configuration is saved and the endpoints are unchanged |
| ArduPilot.ArduPilotManager.GetBoardToBeUsed | core/services/ardupilot_manager/ArduPilotManager.py:206-227 | an error iff no board is detected; the result is a detected board, and one matching the preference whenever a match is connected |
| ArduPilot.ArduPilotManager.ResetEndpoints | core/services/ardupilot_manager/ArduPilotManager.py:279-285 | the router ends up with exactly what adding the given set to an empty router accepts; master and process are untouched |
| ArduPilot.ArduPilotManager.AddNewEndpointsAsWritten | core/services/ardupilot_manager/ArduPilotManager.py:300-310 | the rollback re-adds the router's own (already modified) set, so the router keeps every endpoint added before the failure; EndpointCreationFail iff an add fails |
| ArduPilot.ArduPilotManager.AddNewEndpoints | core/services/ardupilot_manager/ArduPilotManager.py:300-310 | all-or-nothing: Pass iff every add is accepted, and then the set holds them all; a failure raises EndpointCreationFail and leaves the set as it was before the call |
| ArduPilot.ArduPilotManager.RemoveEndpointsAsWritten | core/services/ardupilot_manager/ArduPilotManager.py:312-326 | a protected endpoint in the batch gives ValueError with nothing removed; otherwise endpoints removed before a failed removal stay removed, and the error is EndpointDeleteFail |
| ArduPilot.ArduPilotManager.RemoveEndpoints | core/services/ardupilot_manager/ArduPilotManager.py:312-326 | protected endpoints give ValueError; Pass iff every removal succeeds, and then all are gone; on failure the set is as before the call |
| ArduPilot.ArduPilotManager.ReloadEndpoints | core/services/ardupilot_manager/ArduPilotManager.py:287-294 | the saved configuration holds exactly the router's persistent endpoints and the preferred board is kept; the restart through the manager only raises its should-be-running flag and leaves the router as it was |
| ArduPilot.ArduPilotManager.StartMavlinkManager | core/services/ardupilot_manager/ArduPilotManager.py:164-193 | the router's endpoints become WithDefaults of the old ones (a refused GCS link skips MAVLink2Rest); the device becomes the manager's master and the manager should be running; the router's own master and process are untouched |
| ArduPilot.ArduPilotManager.RunWithBoard | core/services/ardupilot_manager/ArduPilotManager.py:77-139 | Pass iff a board is detected and it can start (a launch plan exists, a navigator's setup passed, a serial board has a non-empty path); NoBoardsConnected with nothing detected, RuntimeError for SITL or Undefined; on Pass the board becomes current, the master matches its kind and the default endpoints are added; a failure changes neither board, flag nor endpoints |
| ArduPilot.ArduPilotManager.StopArdupilot | core/services/ardupilot_manager/ArduPilotManager.py:229-246 | records the disarm (unless SITL) and the kill, and lowers should_be_running; the router itself, the endpoints, the board and the configuration are unchanged |
| ArduPilot.ArduPilotManager.SetCurrentSitlFrame | core/services/ardupilot_manager/ArduPilotManager.py:105-108 | sets the SITL frame and nothing else |
| ArduPilot.ArduPilotManager.RunWithSitl | core/services/ardupilot_manager/ArduPilotManager.py:141-161 | Pass iff the firmware setup and the SITL launch pass; the frame becomes the given one, Vectored when it is undefined, once the firmware is in place; on Pass the SITL board is current, SitlMaster is the manager's master, the manager should be running and the default endpoints are added; a failure is the first failing step's error and changes neither board, flag, master nor endpoints |
| ArduPilot.ArduPilotManager.StartArdupilot | core/services/ardupilot_manager/ArduPilotManager.py:248-256 | with use_sitl, run_with_sitl with the current frame: Pass iff its firmware setup and launch pass, and then the SITL board is current with SitlMaster as master and the manager running; otherwise exactly run_with_board's outcome with the frame kept; a failure is raised again with board and flag unchanged |
| ArduPilot.ArduPilotManager.RestartArdupilot | core/services/ardupilot_manager/ArduPilotManager.py:258-263 | SITL and navigator platforms are stopped and started again: the start's outcome is the result (for SITL, Pass iff the firmware setup and the launch pass), a started board (the SITL board under use_sitl) is current and running, and a failed start leaves the manager stopped with the old board; other platforms get a reboot command and Pass |
| ArduPilot.PartialAddSurvivesReset | core/services/ardupilot_manager/ArduPilotManager.py:300-310 | a batch whose second endpoint repeats the first one's name fails with the first endpoint already added, which the as-written rollback keeps |
| ArduPilot.PartialRemoveSurvivesReset | core/services/ardupilot_manager/ArduPilotManager.py:312-326 | a batch whose second endpoint is absent fails after the first was removed, which the as-written rollback keeps |
| BinaryManagers.LinuxWords | core/services/ardupilot_manager/flight_controller/LinuxBinaryManager.py:46-54 | the Linux launch line has fifteen words: the firmware path first, the log directory fifth and the storage directory seventh |
| BinaryManagers.SitlArgv | core/services/ardupilot_manager/flight_controller/SITLBinaryManager.py:26-35 | the SITL argument vector has seven entries and starts with the firmware path |
| BinaryManagers.NoSpaceInNumber | core/services/ardupilot_manager/flight_controller/LinuxBinaryManager.py:48 | a port number written in decimal contains no space, so it cannot split the shell line |
| BinaryManagers.LinuxCommandWordsSplit | core/services/ardupilot_manager/flight_controller/LinuxBinaryManager.py:46-54 | when the paths and the master's host contain no space, splitting the shell line at spaces gives back exactly the intended words |
| BinaryManagers.SitlBasePortRoundTrip | core/services/ardupilot_manager/flight_controller/SITLBinaryManager.py:31-32 | the `--base-port` argument is all digits and parses back to the master endpoint's port |
| BinaryManagers.LaunchCommand | core/services/ardupilot_manager/flight_controller/LinuxBinaryManager.py:24-59 | Linux: starts iff both paths are set and the board is of Linux type (else ValueError), as the shell line above; SITL: starts iff a frame is set and the board is SITL; an unset frame is an AttributeError, a wrong board a ValueError, and the command is the argument vector above |
| BinaryManagers.RunningProcesses | core/services/ardupilot_manager/flight_controller/ArduPilotBinaryManager.py:91-98 | exactly the system processes whose joined command line contains the platform value, in order |
| BinaryManagers.DeadBinaryCountsAsRunning | core/services/ardupilot_manager/flight_controller/ArduPilotBinaryManager.py:125-128 | with the child dead and no matching system process, the process still counts as running, because of the `or ... == 0` test |
| BinaryManagers.ProcessRunningIff | core/services/ardupilot_manager/flight_controller/ArduPilotBinaryManager.py:125-128 | the check counts the binary as running iff its child is alive or no process in the table matches the platform value |
| BinaryManagers.BinaryManager.IsProcessRunning | core/services/ardupilot_manager/flight_controller/ArduPilotBinaryManager.py:125-128 | running iff there is a child that has not exited, or no process in the table matches the board's platform value |
| BinaryManagers.RunningProcessesAsWritten | core/services/ardupilot_manager/flight_controller/ArduPilotBinaryManager.py:91-98 | called with `board.platform`, as both callers do, the filter raises AttributeError iff the process table is not empty; on an empty table it returns what the corrected filter returns, nothing |
| BinaryManagers.ProcessRunningAsWritten | core/services/ardupilot_manager/flight_controller/ArduPilotBinaryManager.py:125-128 | as written, AttributeError iff the child is dead and the table is not empty; whenever it answers, it answers "running", in agreement with the corrected check |
| BinaryManagers.PruneAsWritten | core/services/ardupilot_manager/flight_controller/ArduPilotBinaryManager.py:79-88 | as written, AttributeError (not ArdupilotProcessKillFail) iff the table is not empty, before any kill; it returns only when the corrected filter finds nothing to kill |
| BinaryManagers.WatchdogTickAsWritten | core/services/ardupilot_manager/flight_controller/ArduPilotBinaryManager.py:100-123 | as written, one pass never attempts a restart: it idles, or raises AttributeError out of the loop iff a board is recorded, the child is dead and the table is not empty |
| BinaryManagers.DeadChildEndsWatchdogAsWritten | core/services/ardupilot_manager/flight_controller/ArduPilotBinaryManager.py:108-112 | a recorded board, a dead child and a leftover ArduPilot process for its platform: the watchdog as written raises, while the corrected check reports the binary stopped, so the corrected tick restarts it |
| BinaryManagers.PollUntilExit | core/services/ardupilot_manager/flight_controller/ArduPilotBinaryManager.py:70-77 | at most ten polls; Pass iff the child has exited within them, stopping at the first poll that sees it exited; otherwise ArdupilotProcessKillFail after all ten |
| BinaryManagers.Prune | core/services/ardupilot_manager/flight_controller/ArduPilotBinaryManager.py:79-88 | kills matching processes in order; Pass iff every kill succeeds; otherwise ArdupilotProcessKillFail at the first kill that fails |
| BinaryManagers.PruneReturnsIffAllKillable | core/services/ardupilot_manager/flight_controller/ArduPilotBinaryManager.py:79-88 | pruning reaches the end of the list iff every matching process can be killed |
| BinaryManagers.BinaryManager.constructor | core/services/ardupilot_manager/flight_controller/ArduPilotBinaryManager.py:15-21 | a new manager has no subprocess, board, master, firmware path, log or storage path or SITL frame |
| BinaryManagers.BinaryManager.SetLogPath | core/services/ardupilot_manager/flight_controller/LinuxBinaryManager.py:16-17 | sets the log path and nothing else |
| BinaryManagers.BinaryManager.SetStoragePath | core/services/ardupilot_manager/flight_controller/LinuxBinaryManager.py:19-20 | sets the storage path and nothing else |
| BinaryManagers.BinaryManager.SetSitlFrame | core/services/ardupilot_manager/flight_controller/SITLBinaryManager.py:15-16 | sets the SITL frame and nothing else |
| BinaryManagers.BinaryManager.Start | core/services/ardupilot_manager/flight_controller/ArduPilotBinaryManager.py:24-27 | a launch error leaves every field as it was and is returned; otherwise the child runs the launch command and board, master and firmware path are recorded |
| BinaryManagers.BinaryManager.Terminate | core/services/ardupilot_manager/flight_controller/ArduPilotBinaryManager.py:64-77 | with no child, returns at once; otherwise the child is sent terminate, and the result is Pass iff it exits within ten polls, else ArdupilotProcessKillFail |
| BinaryManagers.BinaryManager.Kill | core/services/ardupilot_manager/flight_controller/ArduPilotBinaryManager.py:55-62 | terminate then prune: a child that never exits fails before pruning; Pass only when a board is given and every matching system process can be killed |
| BinaryManagers.BinaryManager.Stop | core/services/ardupilot_manager/flight_controller/ArduPilotBinaryManager.py:36-45 | whatever the kill does, board, master and firmware path are cleared afterwards; the paths and frame are kept |
| BinaryManagers.BinaryManager.WatchdogTick | core/services/ardupilot_manager/flight_controller/ArduPilotBinaryManager.py:100-123 | a restart is attempted iff a board is recorded and its process is not running; the board, master and firmware path are kept (the un-awaited stop clears nothing); a missing start parameter is a ValueError; otherwise the launch command is started again |
| CableGuy.MatchesAnyPrefix | core/services/cable_guy/api/manager.py:140-142 | true iff the name starts with one of the patterns, which is what `re.match` decides for the plain names and the `.*`-suffixed prefixes of the blacklist |
| CableGuy.IsValidInterfaceName | core/services/cable_guy/api/manager.py:123-144 | valid iff the name is non-empty and starts with none of "lo", "ham", "docker" or the wifi interface names |
| CableGuy.BlacklistIsByPrefix | core/services/cable_guy/api/manager.py:132-142 | any name extending a wifi name, "lo" or "docker" is refused (the match is a prefix match, so "loopback0" is refused too), and "eth0" is accepted when no wifi name is a prefix of it |
| CableGuy.RunThenSeparator | core/services/cable_guy/api/manager.py:171 | a digit run followed by any character other than newline and then further groups satisfies one more `\d+.` step of the pattern |
| CableGuy.GroupInFront | core/services/cable_guy/api/manager.py:171 | prefixing a non-empty digit group and a separator adds one group to what the pattern matches |
| CableGuy.LastGroup | core/services/cable_guy/api/manager.py:171 | a non-empty digit run matches the last `\d+` of the pattern |
| CableGuy.DigitGroupsPrefix | core/services/cable_guy/api/manager.py:171 | the pattern is anchored only at the start: text after a match does not undo it |
| CableGuy.AfterDigitPrefix | core/services/cable_guy/api/manager.py:171 | the same for the state after a digit inside the match |
| CableGuy.DottedGroups | core/services/cable_guy/api/manager.py:171 | four non-empty digit groups joined by dots match all four groups of the pattern |
| CableGuy.DottedQuadIsWeakIp | core/services/cable_guy/api/manager.py:161-171 | every dotted-quad address written in decimal passes weak_is_ip_address |
| CableGuy.WeakIpAcceptsAnySeparator | core/services/cable_guy/api/manager.py:171 | the unescaped `.` accepts any separator: "1a2b3c4" passes |
| CableGuy.WeakIpAcceptsLargeGroups | core/services/cable_guy/api/manager.py:171 | groups are not range-checked: "999.9.9.9" passes |
| CableGuy.WeakIpAcceptsTrailingText | core/services/cable_guy/api/manager.py:171 | the match is not anchored at the end: "1.2.3.4/24" passes |
| CableGuy.WeakIsIpAddress | core/services/cable_guy/api/manager.py:161-171 | the unanchored four-group pattern test; CableGuy.DottedQuadIsWeakIp and the three CableGuy.WeakIpAccepts lemmas state what it accepts |
| CableGuy.ServerAddressPresent | core/services/cable_guy/api/manager.py:157-159 | true iff some address of the interface is in Server mode |
| CableGuy.HasServer | core/services/cable_guy/api/manager.py:159 | true iff some address of the list is in Server mode |
| CableGuy.ReportedIp | core/services/cable_guy/api/manager.py:360-361 | an address passing the weak test is reported as is, any other as "undefined" |
| CableGuy.ModeOf | core/services/cable_guy/api/manager.py:363-370 | Server iff the DHCP server runs and the ip is the gateway; otherwise Unmanaged iff the ip is static and valid; otherwise Client |
| CableGuy.ClassifiedAddresses | core/services/cable_guy/api/manager.py:354-372 | never reports more addresses than the interface has |
| CableGuy.ClassifiedAddressesComplete | core/services/cable_guy/api/manager.py:354-372 | one reported address per IPv4 address, each reported ip coming from an IPv4 address of the interface |
| CableGuy.InterfacesAsWritten | core/services/cable_guy/api/manager.py:346-380 | the listing as written fails only with UnboundLocalError, raised when the first interface considered has no IPv4 address |
| CableGuy.Interfaces | core/services/cable_guy/api/manager.py:346-380 | the listing as intended keeps only non-veth interfaces with valid names, in order, each with its own info |
| CableGuy.InterfacesListsEveryValidInterface | core/services/cable_guy/api/manager.py:346-377 | every non-veth interface with a valid name appears in the listing |
| CableGuy.InterfacesAgreeWithIPv4Everywhere | core/services/cable_guy/api/manager.py:346-380 | when every non-veth interface has an IPv4 address, the as-written listing equals the intended one |
| CableGuy.InterfaceInfoLeaks | core/services/cable_guy/api/manager.py:371-374 | an interface without IPv4 addresses gets the previous interface's info as written, or raises UnboundLocalError when it is the first; the intended listing gives it its own info |
| CableGuyManager.FindInterface | core/services/cable_guy/api/manager.py:334-338 | None iff no listed interface has that name; otherwise a listed interface with that name |
| CableGuyManager.RemoveIp | core/services/cable_guy/api/manager.py:315-332 | an unknown interface is a ValueError with no effect; Pass iff the interface is found and the kernel accepts the deletion; every failure is a ValueError; the DHCP server is never started; the log only grows |
| CableGuyManager.RemoveIpRequests | core/services/cable_guy/api/manager.py:315-332 | the new actions are only server stops and deletions of that address, and a Pass ends with the deletion, made exactly once |
| CableGuyManager.CountDeletesAppend | core/services/cable_guy/api/manager.py:296-298 | deletions of an address counted over two action logs add up |
| CableGuyManager.RemoveMatching | core/services/cable_guy/api/manager.py:296-298 | removing the old copies of an address only appends to the log, never starts the server, and fails only with ValueError |
| CableGuyManager.RemoveMatchingDeletes | core/services/cable_guy/api/manager.py:296-298 | the loop only stops the server or deletes that address, and on success deletes it once per matching address of the interface |
| CableGuyManager.ParsedIp | core/services/cable_guy/api/manager.py:287 | a Server address without ip (None or "") takes the DHCP gateway; any other ip is used as given |
| CableGuyManager.AddIp | core/services/cable_guy/api/manager.py:280-313 | an unknown interface or a missing ip is a ValueError with no effect; every failure is a ValueError; the log only grows; only Server mode can start the DHCP server |
| CableGuyManager.AddIpEffects | core/services/cable_guy/api/manager.py:296-309 | after a successful add: Client ends with the link going down and up; Unmanaged ends with adding the address; Server adds the address and leaves the DHCP server running unless starting it failed; the old copies of the address are deleted once each first |
| CableGuyManager.AddIps | core/services/cable_guy/api/manager.py:102-103 | the addresses are added in order, each add_ip reading its own view of the interfaces; errors are ValueErrors; without a Server address the DHCP server is never started |
| CableGuyManager.SetConfiguration | core/services/cable_guy/api/manager.py:87-106 | an unknown interface name is a ValueError before anything happens; otherwise the first action is flushing that interface; a successful configuration without a Server address leaves the DHCP server stopped |
| CableGuyManager.NothingToRemove | core/services/cable_guy/api/manager.py:296-298 | with no listed copy of the address, add_ip's removal loop makes no request and passes |
| CableGuyManager.AddIpsOnFlushedViews | core/services/cable_guy/api/manager.py:102-103 | when each add_ip sees the flushed interface, the add loop never deletes an address |
| CableGuyManager.SetConfigurationDeletesNothing | core/services/cable_guy/api/manager.py:87-106 | set_configuration on views showing the flushed interface issues no DeleteAddress request: the flush already removed every address |
| CableGuyManager.ReconfigureHeldServerAddress | core/services/cable_guy/api/manager.py:87-106 | reconfiguring eth0 with the server address it holds, the server running: only the flush and the add are requested, and the server keeps running |
| CableGuyManager.EthernetManager.constructor | core/services/cable_guy/api/manager.py:50-54 | the manager keeps the DHCP gateway and starts with an empty action log and result |
| CableGuyManager.EthernetManager.RemoveIpAddress | core/services/cable_guy/api/manager.py:315-332 | the new state and outcome are exactly those of RemoveIp, and `result` holds the interface list the lookup read |
| CableGuyManager.EthernetManager.AddIpAddress | core/services/cable_guy/api/manager.py:280-313 | the checks, the removal loop and the mode dispatch reach exactly the state and outcome of AddIp |
| CableGuyManager.EthernetManager.RemoveEqualAddresses | core/services/cable_guy/api/manager.py:296-298 | the loop removes every listed copy of the address and stops at the first refused removal, reaching exactly the state and outcome of RemoveMatching |
| CableGuyManager.EthernetManager.SetConfigurationOf | core/services/cable_guy/api/manager.py:87-106 | the flush, the add loop (the i-th add_ip reading the i-th view) and the final server stop reach exactly the state and outcome of SetConfiguration; `result` is the list the last lookup read |
| CableGuyManager.EthernetManager.ClassifyAddresses | core/services/cable_guy/api/manager.py:354-372 | the inner loop of get_interfaces yields exactly ClassifiedAddresses: one entry per IPv4 address, in order, with its reported ip and mode |
| CableGuyManager.EthernetManager.GetInterfaces | core/services/cable_guy/api/manager.py:340-380 | the nested loops return exactly the intended listing and store it in `result`; the server and the action log are unchanged |
| FlightControllerDetector.NavigatorR3IfConnected | core/services/ardupilot_manager/flight_controller/Detector.py:22-42 | a Navigator R3 from Blue Robotics is reported iff the ADS1115 on bus 1 and the PCA9685 on bus 4 answer |
| FlightControllerDetector.NavigatorR4IfConnected | core/services/ardupilot_manager/flight_controller/Detector.py:45-71 | a Navigator (R4) is reported iff the ADS1115, AK09915 and BME280 on bus 1 and the PCA9685 on bus 4 answer |
| FlightControllerDetector.R4ProbeCoversR3 | core/services/ardupilot_manager/flight_controller/Detector.py:101-108 | every sensor the R3 probe reads is also read by the R4 probe, which is why R4 is probed first |
| FlightControllerDetector.DetectedNavigator | core/services/ardupilot_manager/flight_controller/Detector.py:100-108 | no navigator without root; with root, R4 when its probe succeeds, else the R3 probe's answer |
| FlightControllerDetector.IsValidFlightController | core/services/ardupilot_manager/flight_controller/Detector.py:81-82 | a "3D Robotics" port without product raises TypeError, and only such a port; a port is accepted iff its manufacturer is "ArduPilot", or "3D Robotics" with "PX4" in the product |
| FlightControllerDetector.SerialFlightControllers | core/services/ardupilot_manager/flight_controller/Detector.py:84-90 | fails iff some port raises; otherwise exactly the accepted ports become Pixhawk1 boards with their device path |
| FlightControllerDetector.Detect | core/services/ardupilot_manager/flight_controller/Detector.py:93-112 | the navigator found (if any) first, then the serial boards; only a serial-port error fails it; without root only Pixhawk1 boards are listed |
| BoardDetector.DetectNavigator | core/services/ardupilot_manager/ardupilot_manager/flight_controller_detector/Detector.py:30-54 | a Navigator (a Linux-type board) is reported iff the four sensors of the R5 probe answer |
| BoardDetector.DetectSerialPlatform | core/services/ardupilot_manager/ardupilot_manager/flight_controller_detector/Detector.py:57-64 | Pixhawk1 iff the product is "Pixhawk1" or "PX4 FMU v2.x"; Pixhawk4 iff it is "Pixhawk4" or "PX4 FMU v5.x"; GenericSerial iff neither and the manufacturer is ArduPilot or 3D Robotics with a non-empty product without "BL"; every result is a serial platform |
| BoardDetector.KeepFirstPerPathProperties | core/services/ardupilot_manager/ardupilot_manager/flight_controller_detector/Detector.py:73-78 | the kept ports come from the input, every USB device path of the input is represented, and no path is kept twice |
| BoardDetector.FirstPortIsKept | core/services/ardupilot_manager/ardupilot_manager/flight_controller_detector/Detector.py:73-78 | the first port seen on each USB device path is the one kept |
| BoardDetector.UniqueSerialDevices | core/services/ardupilot_manager/ardupilot_manager/flight_controller_detector/Detector.py:74-78 | the append loop keeps exactly the first port per USB device path, in order |
| BoardDetector.ClassifiedBoards | core/services/ardupilot_manager/ardupilot_manager/flight_controller_detector/Detector.py:79-88 | every port with a detected platform becomes a serial board named by its product or port name, with its device path; nothing else is listed |
| BoardDetector.DetectSerialFlightControllers | core/services/ardupilot_manager/ardupilot_manager/flight_controller_detector/Detector.py:67-88 | the boards of the ports sorted by name, one per USB device path |
| BoardDetector.SitlBoard | core/services/ardupilot_manager/ardupilot_manager/flight_controller_detector/Detector.py:90-92 | the SITL board is of SITL type |
| BoardDetector.Detect | core/services/ardupilot_manager/ardupilot_manager/flight_controller_detector/Detector.py:95-114 | nothing without root; otherwise the navigator, then the serial boards, then SITL when asked for; only the first entry can be a Navigator, and SITL can only be last |
| LegacyDetector.DetectNavigator | core/services/ardupilot_manager/flight_controller_detector/Detector.py:23-41 | true iff the PCA9685 and the ADS1115 answer on bus 1; the string is always empty |
| LegacyDetector.DetectSerialFlightController | core/services/ardupilot_manager/flight_controller_detector/Detector.py:43-53 | true with "/dev/autopilot" iff that device exists, else false with "" |
| LegacyDetector.Detect | core/services/ardupilot_manager/flight_controller_detector/Detector.py:55-72 | a Navigator entry (root only) and then a Serial entry, each present iff its probe succeeds |
| Endpoints.NewEndpoint | core/services/ardupilot_manager/mavlink_proxy/test_all.py:47-54 | an endpoint carries the given name, owner, type, place and argument, and defaults to not persistent, not protected and enabled |
| Endpoints.Add | core/services/ardupilot_manager/mavlink_proxy/AbstractRouter.py:153-162 | accepted iff the router validates the endpoint and its name is not in use; an invalid endpoint is a ValueError, an equal endpoint EndpointAlreadyExists, another with the same name DuplicateEndpointName; on success the set gains exactly that endpoint |
| Endpoints.Remove | core/services/ardupilot_manager/mavlink_proxy/AbstractRouter.py:164-168 | succeeds iff the endpoint is present, else EndpointDontExist; on success exactly that endpoint is gone |
| Endpoints.AddKeepsNamesUnique | core/services/ardupilot_manager/mavlink_proxy/AbstractRouter.py:159-162 | a successful add keeps endpoint names unique in the set |
| Endpoints.RemoveKeepsNamesUnique | core/services/ardupilot_manager/mavlink_proxy/AbstractRouter.py:164-168 | a successful removal keeps endpoint names unique |
| Endpoints.AddRemoveInverse | core/services/ardupilot_manager/mavlink_proxy/AbstractRouter.py:153-168 | removing an endpoint just added gives back the set as it was |
| Endpoints.NamesAdd | core/services/ardupilot_manager/mavlink_proxy/AbstractRouter.py:159 | the names of a set with one more endpoint are the old names plus its name |
| Endpoints.AddAllApplied | core/services/ardupilot_manager/mavlink_proxy/Manager.py:47-49 | adding endpoints one by one only grows the set, by a prefix of the list, and by the whole list when no add fails |
| Endpoints.PrefixSetShift | core/services/ardupilot_manager/mavlink_proxy/Manager.py:47-49 | the endpoints of the first k+1 in the list are the first one plus the first k of the rest |
| Endpoints.AddAllFresh | core/services/ardupilot_manager/mavlink_proxy/Manager.py:47-49 | valid endpoints with distinct names not yet in use are all added, without failure |
| Endpoints.ClearThenAddAll | core/services/ardupilot_manager/mavlink_proxy/AbstractRouter.py:173-175 | after clearing, a list of valid endpoints with distinct names is added back in full |
| Endpoints.AddAllKeepsNamesUnique | core/services/ardupilot_manager/mavlink_proxy/Manager.py:47-49 | a batch add, complete or interrupted, keeps names unique |
| Endpoints.RemoveAllRemovesOnlyListed | core/services/ardupilot_manager/mavlink_proxy/Manager.py:51-53 | a batch removal only shrinks the set and keeps every endpoint not in the batch |
| Endpoints.ReAddAll | core/services/ardupilot_manager/mavlink_proxy/AbstractRouter.py:173-175 | a set the router accepted can be cleared and re-added in any iteration order, giving back exactly the same set |
| Endpoints.AddEachAgreesWithAddAll | core/services/ardupilot_manager/ArduPilotManager.py:271-277 | when no add is refused, adding one by one and skipping refusals gives the same set as the batch add |
| Endpoints.AddEachBounds | core/services/ardupilot_manager/ArduPilotManager.py:271-277 | adding one by one with refusals skipped keeps every old endpoint, adds only listed ones, and keeps the set admissible |
| Endpoints.LoadRestoresSaved | core/services/ardupilot_manager/ArduPilotManager.py:271-277 | loading an admissible set into an empty router, in any order that lists it once, rebuilds exactly that set |
| Routers.Router.constructor | core/services/ardupilot_manager/ardupilot_manager/mavlink_proxy/AbstractRouter.py:23-32 | a new router has no endpoint, no master and no process, and logs to the temporary directory |
| Routers.Router.Start | core/services/ardupilot_manager/ardupilot_manager/mavlink_proxy/AbstractRouter.py:87-101 | records the master and spawns the process; Pass iff it still runs after the wait, else MavlinkRouterStartFail; endpoints untouched |
| Routers.Router.Exit | core/services/ardupilot_manager/ardupilot_manager/mavlink_proxy/AbstractRouter.py:103-108 | kills the process iff it is running; nothing else changes |
| Routers.Router.Restart | core/services/ardupilot_manager/ardupilot_manager/mavlink_proxy/AbstractRouter.py:110-114 | NoMasterMavlinkEndpoint with no effect when no master was set; otherwise starts again with the recorded master, Pass iff it runs |
| Routers.Router.SetLogdir | core/services/ardupilot_manager/ardupilot_manager/mavlink_proxy/AbstractRouter.py:126-129 | a missing directory is a ValueError and keeps the old one; an existing one becomes the log directory |
| Routers.Router.AddEndpoint | core/services/ardupilot_manager/ardupilot_manager/mavlink_proxy/AbstractRouter.py:131-140 | the set becomes Add's result, or stays as it was with Add's error |
| Routers.Router.RemoveEndpoint | core/services/ardupilot_manager/ardupilot_manager/mavlink_proxy/AbstractRouter.py:142-146 | an absent endpoint is EndpointDontExist with no change; a present one is removed |
| Routers.Router.ClearEndpoints | core/services/ardupilot_manager/ardupilot_manager/mavlink_proxy/AbstractRouter.py:151-153 | the set becomes empty; master and process are kept |
| Routers.AsyncRouter.constructor | core/services/ardupilot_manager/mavlink_proxy/AbstractRouter.py:46-55 | a new router has no endpoint, no master and no process, and logs to the temporary directory |
| Routers.AsyncRouter.SetMasterEndpoint | core/services/ardupilot_manager/mavlink_proxy/AbstractRouter.py:106-107 | records the master endpoint and nothing else |
| Routers.AsyncRouter.Start | core/services/ardupilot_manager/mavlink_proxy/AbstractRouter.py:109-125 | a failed spawn keeps the old process; Pass iff a process runs after the wait; with no process at all the failure is an AttributeError (reading `returncode` of None), else MavlinkRouterStartFail |
| Routers.AsyncRouter.Exit | core/services/ardupilot_manager/mavlink_proxy/AbstractRouter.py:127-132 | a running process is killed and then the await of kill()'s None raises TypeError; a stopped one is left alone |
| Routers.AsyncRouter.Restart | core/services/ardupilot_manager/mavlink_proxy/AbstractRouter.py:134-136 | a running router is killed and the TypeError of exit stops the restart; a stopped one is started again |
| Routers.AsyncRouter.SetLogdir | core/services/ardupilot_manager/mavlink_proxy/AbstractRouter.py:148-151 | a missing directory is a ValueError; an existing one becomes the log directory |
| Routers.AsyncRouter.AddEndpoint | core/services/ardupilot_manager/mavlink_proxy/AbstractRouter.py:153-162 | the set becomes Add's result, or stays as it was with Add's error |
| Routers.AsyncRouter.RemoveEndpoint | core/services/ardupilot_manager/mavlink_proxy/AbstractRouter.py:164-168 | an absent endpoint is EndpointDontExist with no change; a present one is removed |
| Routers.AsyncRouter.ClearEndpoints | core/services/ardupilot_manager/mavlink_proxy/AbstractRouter.py:173-175 | the set becomes empty; master and process are kept |
| MavlinkManager.AvailableInterfacesAsWritten | core/services/ardupilot_manager/mavlink_proxy/AbstractRouter.py:89-91 | filtering on the function object `is_ok` (always truthy) returns every router class |
| MavlinkManager.AvailableInterfacesIgnoresIsOk | core/services/ardupilot_manager/mavlink_proxy/AbstractRouter.py:89-91 | a router whose `is_ok()` is false is still listed as written, and dropped by the intended filter |
| MavlinkManager.AvailableInterfaces | core/services/ardupilot_manager/mavlink_proxy/AbstractRouter.py:89-91 | exactly the router classes whose `is_ok()` holds, in order; empty iff none does |
| MavlinkManager.FirstAvailableIsFirstOk | core/services/ardupilot_manager/mavlink_proxy/Manager.py:27 | the router the manager uses is the first class whose `is_ok()` holds |
| MavlinkManager.Manager.constructor | core/services/ardupilot_manager/mavlink_proxy/Manager.py:17-28 | the manager wraps the router it is given, with no master and not meant to be running |
| MavlinkManager.Manager.AddEndpoint | core/services/ardupilot_manager/mavlink_proxy/Manager.py:41-42 | delegates to the router: the set becomes Add's result or is unchanged with Add's error |
| MavlinkManager.Manager.RemoveEndpoint | core/services/ardupilot_manager/mavlink_proxy/Manager.py:44-45 | delegates to the router's removal |
| MavlinkManager.Manager.AddEndpoints | core/services/ardupilot_manager/mavlink_proxy/Manager.py:47-49 | the loop adds in iteration order and stops at the first error, which it returns; the set is what was added up to there |
| MavlinkManager.Manager.RemoveEndpoints | core/services/ardupilot_manager/mavlink_proxy/Manager.py:51-53 | the loop removes in iteration order and stops at the first error, which it returns |
| MavlinkManager.Manager.ClearEndpoints | core/services/ardupilot_manager/mavlink_proxy/Manager.py:58-60 | the router's set becomes empty |
| MavlinkManager.Manager.SetMasterEndpoint | core/services/ardupilot_manager/mavlink_proxy/Manager.py:62-63 | records the master and nothing else |
| MavlinkManager.Manager.Start | core/services/ardupilot_manager/mavlink_proxy/Manager.py:65-67 | should_be_running is set; an unset master is an AttributeError; the router's coroutine is never awaited, so the router is untouched |
| MavlinkManager.Manager.Stop | core/services/ardupilot_manager/mavlink_proxy/Manager.py:69-71 | should_be_running is cleared; the un-awaited exit leaves the router untouched |
| MavlinkManager.Manager.Restart | core/services/ardupilot_manager/mavlink_proxy/Manager.py:73-76 | should_be_running ends set and nothing fails; the un-awaited restart leaves the router untouched |
| MavlinkManager.Manager.AutoRestartTick | core/services/ardupilot_manager/mavlink_proxy/Manager.py:98-110 | a restart is attempted iff the router should run but does not; the flag and the router are left as they were, so a dead router is retried on every pass |
| MavlinkManager.NewManager | core/services/ardupilot_manager/mavlink_proxy/Manager.py:17-28 | RuntimeError iff no router class passes `is_ok()`; otherwise the first such router, wrapped asynchronously, empty and stopped, with should_be_running false |
| DHCPServer.DigitsHaveNoSeparator | core/libs/commonwealth/commonwealth/utils/DHCPServerManager.py:114 | a decimal number is non-empty and contains no non-digit separator |
| DHCPServer.OctetStrings | core/libs/commonwealth/commonwealth/utils/DHCPServerManager.py:114 | the four octets are written as digit strings free of '.' and ',' |
| DHCPServer.IPv4String | core/libs/commonwealth/commonwealth/utils/DHCPServerManager.py:114 | the dotted text of an address; DHCPServer.IPv4StringRoundTrip states that it parses back |
| DHCPServer.IPv4StringRoundTrip | core/libs/commonwealth/commonwealth/utils/DHCPServerManager.py:114 | splitting the address text at '.' gives four digit strings that parse back to the four octets |
| DHCPServer.NetworkPrefix | core/libs/commonwealth/commonwealth/utils/DHCPServerManager.py:113-115 | the prefix is the first three octets joined by '.', and prefix + "." + last octet is the address text |
| DHCPServer.NetworkPrefixSameSubnet | core/libs/commonwealth/commonwealth/utils/DHCPServerManager.py:113-115 | two gateways have the same prefix iff their first three octets agree |
| DHCPServer.DhcpRangeRoundTrip | core/libs/commonwealth/commonwealth/utils/DHCPServerManager.py:62 | the --dhcp-range value splits at ',' back into prefix.100, prefix.200, the /24 netmask and the 24h lease time |
| DHCPServer.RangeEndOnGatewayNetwork | core/libs/commonwealth/commonwealth/utils/DHCPServerManager.py:62 | the last leased address is the gateway's first three octets followed by 200 |
| DHCPServer.DhcpRange | core/libs/commonwealth/commonwealth/utils/DHCPServerManager.py:62 | the `--dhcp-range` value; DHCPServer.DhcpRangeRoundTrip and DHCPServer.RangeEndOnGatewayNetwork state its parts |
| DHCPServer.CommandList | core/libs/commonwealth/commonwealth/utils/DHCPServerManager.py:58-65 | five words, the binary first |
| DHCPServer.CommandListRoundTrip | core/libs/commonwealth/commonwealth/utils/DHCPServerManager.py:58-65 | the interface option splits back to the interfaces in iteration order, the range to prefix.100, prefix.200, 255.255.255.0 and 24h, and the router option holds the gateway |
| DHCPServer.Dnsmasq.constructor | core/libs/commonwealth/commonwealth/utils/DHCPServerManager.py:13-27 | a new server has no process, no interface and the gateway 192.168.2.2 |
| DHCPServer.Dnsmasq.Start | core/libs/commonwealth/commonwealth/utils/DHCPServerManager.py:67-73 | launches the current command list; a failed spawn keeps the old process |
| DHCPServer.Dnsmasq.Stop | core/libs/commonwealth/commonwealth/utils/DHCPServerManager.py:75-81 | kills the process iff it is running; nothing else changes |
| DHCPServer.Dnsmasq.Restart | core/libs/commonwealth/commonwealth/utils/DHCPServerManager.py:83-85 | stop, then launch the current command list |
| DHCPServer.Dnsmasq.AddInterface | core/libs/commonwealth/commonwealth/utils/DHCPServerManager.py:90-92 | the interface set gains the name (adding twice changes nothing) and the server restarts |
| DHCPServer.Dnsmasq.RemoveInterface | core/libs/commonwealth/commonwealth/utils/DHCPServerManager.py:94-99 | an unknown name is a ValueError with no change and no restart; a known one is removed and the server restarts |
| DHCPServer.Dnsmasq.SetGateway | core/libs/commonwealth/commonwealth/utils/DHCPServerManager.py:105-107 | the gateway changes and the server restarts with the new command list |
| DHCPServer.NewDnsmasq | core/libs/commonwealth/commonwealth/utils/DHCPServerManager.py:13-27 | ValueError when the binary is not found, AssertionError when the binary or the configuration fails its test; succeeds iff neither, with a stopped server |
| Firmware.FirmwareName | core/services/ardupilot_manager/firmware/FirmwareManagement.py:31-34 | "ardupilot_" followed by the lower-cased platform value |
| Firmware.LowerEqual | core/services/ardupilot_manager/firmware/FirmwareManagement.py:34 | two strings with the same lower-case form agree letter by letter after lower-casing |
| Firmware.FirmwareNameInjective | core/services/ardupilot_manager/firmware/FirmwareManagement.py:31-34 | distinct platforms get distinct firmware names, so no two platforms share a binary |
| Firmware.FirmwarePath | core/services/ardupilot_manager/firmware/FirmwareManagement.py:36-39 | the path ends with the platform's firmware name |
| Firmware.DefaultFirmwarePath | core/services/ardupilot_manager/firmware/FirmwareManagement.py:41-43 | the default path ends with the platform's firmware name |
| Firmware.FirmwarePathsAgree | core/services/ardupilot_manager/firmware/FirmwareManagement.py:36-43 | each path lies under its folder; the two agree when the folders do; distinct platforms get distinct firmware paths |
| Firmware.ElfArch | core/services/ardupilot_manager/firmware/FirmwareInstall.py:24-29 | x86_64 maps to "x64", armv7l to "ARM", anything else to "" (each direction an iff) |
| Firmware.DecoderPlatform | core/services/ardupilot_manager/firmware/FirmwareInstall.py:32-38 | SITL maps to board type SITL, both navigators to the LINUX_NAVIGATOR subtype, every other platform to EMPTY |
| Firmware.ValidateApj | core/services/ardupilot_manager/firmware/FirmwareInstall.py:54-65 | accepted iff the file parses and its board_id equals the expected board type (and is not -1); every failure is InvalidFirmwareFile |
| Firmware.ValidateElfAsWritten | core/services/ardupilot_manager/firmware/FirmwareInstall.py:68-94 | as written the ELF check passes iff the file is an ELF of the running architecture that the decoder reads, whatever platform it was built for (the platform error at 89-92 is built and never raised) |
| Firmware.ValidateElf | core/services/ardupilot_manager/firmware/FirmwareInstall.py:68-94 | as intended the check also requires the decoded board type or subtype to be the platform's |
| Firmware.SitlFirmwareAcceptedForNavigator | core/services/ardupilot_manager/firmware/FirmwareInstall.py:89-92 | a SITL build for the running architecture passes the as-written check for a Navigator and fails the intended one |
| Firmware.ValidateElfRefinesAsWritten | core/services/ardupilot_manager/firmware/FirmwareInstall.py:68-94 | the intended check accepts exactly the files the as-written one accepts whose decoded platform matches |
| Firmware.ValidateFirmware | core/services/ardupilot_manager/firmware/FirmwareInstall.py:97-115 | Undefined platform is UndefinedPlatform; a platform without a format is KeyError; an APJ board without path is ValueError; success means the APJ board id matches the bootloader's or the ELF check passes |
| Firmware.InstallFirmwareAsWritten | core/services/ardupilot_manager/firmware/FirmwareInstall.py:135 | as written every install raises NameError at the first line, before any effect |
| Firmware.InstallValidatesFirst | core/services/ardupilot_manager/firmware/FirmwareInstall.py:135-160 | nothing is installed unless the file exists and validates; an ELF install first adds run permission; a successful install ends with its single install step |
| Firmware.InstallErrorClassification | core/services/ardupilot_manager/firmware/FirmwareInstall.py:147-164 | after validation, Pixhawk1 and ELF installs fail only with FirmwareInstallFail; other APJ boards are UnsupportedPlatform; an ELF install succeeds iff a destination is given and the copy works |
| Firmware.InstallRaisesNameError | core/services/ardupilot_manager/firmware/FirmwareInstall.py:135 | a valid SITL firmware that the intended install copies raises NameError as written |
| Firmware.InstallFirmware | core/services/ardupilot_manager/firmware/FirmwareInstall.py:135-164 | install_firmware with line 135 corrected; Firmware.InstallValidatesFirst and Firmware.InstallErrorClassification state its order of checks and its errors |
| Firmware.IsFirmwareInstalled | core/services/ardupilot_manager/firmware/FirmwareManagement.py:48-59 | serial boards always count as installed; ELF platforms are installed iff the firmware path is a file; other platforms raise (KeyError or UnsupportedPlatform) |
| Firmware.FirmwaresWithUrl | core/services/ardupilot_manager/firmware/FirmwareManagement.py:66-72 | exactly the versions whose URL can be fetched, each with its URL |
| Firmware.GetAvailableFirmwares | core/services/ardupilot_manager/firmware/FirmwareManagement.py:61-75 | NoVersionAvailable iff no version yields a URL (which includes having no versions); otherwise the non-empty list of versions with URLs |
| Firmware.InstallFirmwareFromFile | core/services/ardupilot_manager/firmware/FirmwareManagement.py:77-87 | Pixhawk1 installs without destination, others to the platform's firmware path; the effects are the installer's; any failure becomes FirmwareInstallFail |
| Firmware.InstalledElfIsWhereTheCheckLooks | core/services/ardupilot_manager/firmware/FirmwareManagement.py:57 | a successful ELF install copies the file to exactly the path that is_firmware_installed tests |
| Firmware.RestoreDefaultFirmware | core/services/ardupilot_manager/firmware/FirmwareManagement.py:97-101 | NoDefaultFirmwareAvailable with no effect when the default file is missing; otherwise installs the default file |
| Identifier.CorrespondingBoardType | core/services/ardupilot_manager/flight_controller/Identifier.py:12-17 | the inverse table maps each platform back to its board type and nothing else |
| Identifier.GetBoardPlatform | core/services/ardupilot_manager/flight_controller/Identifier.py:30-35 | 9 is Pixhawk1, 50 is Pixhawk4; every other board type is UnsupportedPlatform |
| Identifier.GetPlatformBoardType | core/services/ardupilot_manager/flight_controller/Identifier.py:37-42 | Pixhawk1 is 9, Pixhawk4 is 50; every other platform is UnsupportedBoardType |
| Identifier.BoardTypeRoundTrip | core/services/ardupilot_manager/flight_controller/Identifier.py:30-42 | a supported board type maps to a platform and back to itself |
| Identifier.PlatformRoundTrip | core/services/ardupilot_manager/flight_controller/Identifier.py:30-42 | a platform with a board type maps there and back to itself |
| Identifier.IdentifiedBoardsAreSerial | core/services/ardupilot_manager/flight_controller/Identifier.py:12-15 | every identified board is of serial type |
| Typedefs.FrameValueNonEmpty | core/services/ardupilot_manager/ardupilot_manager/typedefs.py:8-58 | every SITL frame value is a non-empty string |
| Typedefs.FrameValue | core/services/ardupilot_manager/ardupilot_manager/typedefs.py:8-58 | the value of each SITL frame; Typedefs.FrameValueNonEmpty states that none is empty |
| Typedefs.SitlPlatformNameCases | core/services/ardupilot_manager/ardupilot_manager/typedefs.py:61-66 | the ARM name iff the lower-cased machine architecture contains "arm", the x86-64 name otherwise; both start with "SITL_" |
| Typedefs.SitlPlatformName | core/services/ardupilot_manager/ardupilot_manager/typedefs.py:61-66 | the SITL build name for an architecture; Typedefs.SitlPlatformNameCases and Typedefs.ArmDetectedInAnyCase state which |
| Typedefs.ArmDetectedInAnyCase | core/services/ardupilot_manager/ardupilot_manager/typedefs.py:64 | an architecture containing "ARM" or "arm" anywhere gives the ARM SITL name |
| Typedefs.PlatformTypeStr | core/services/ardupilot_manager/ardupilot_manager/typedefs.py:87-89 | a platform type prints as its member name lower-cased, letter by letter |
| Typedefs.PlatformTypeStrValues | core/services/ardupilot_manager/ardupilot_manager/typedefs.py:87-98 | the four types print as "serial", "linux", "sitl" and "unknown" |
| Typedefs.LowerSpelled | core/services/ardupilot_manager/ardupilot_manager/typedefs.py:89 | a string whose letters lower-case to the letters of another lower-cases to it |
| Typedefs.PlatformTypeStrInjective | core/services/ardupilot_manager/ardupilot_manager/typedefs.py:87-98 | distinct platform types print differently |
| Typedefs.PlatformTypeName | core/services/ardupilot_manager/ardupilot_manager/typedefs.py:92-96 | the member name of each platform type, which `__str__` lower-cases; Typedefs.PlatformTypeStrValues and Typedefs.PlatformTypeStrInjective state it |
| Typedefs.PlatformValueInjective | core/services/ardupilot_manager/ardupilot_manager/typedefs.py:99-107 | distinct platforms have distinct values on every machine, so the str-Enum comparison tells them apart |
| Typedefs.PlatformValue | core/services/ardupilot_manager/ardupilot_manager/typedefs.py:99-107 | the value of each platform, the SITL one chosen by architecture; Typedefs.PlatformValueInjective states that distinct platforms differ |
| Typedefs.TypeOf | core/services/ardupilot_manager/ardupilot_manager/typedefs.py:109-118 | Serial iff Pixhawk1, Pixhawk4 or GenericSerial; Linux iff Navigator; SITL iff SITL; Unknown for the platforms missing from the table |
| Typedefs.BoardType | core/services/ardupilot_manager/ardupilot_manager/typedefs.py:129-131 | a board's type is its platform's type |
| Typedefs.EndpointTypeValueInjective | core/services/ardupilot_manager/ardupilot_manager/typedefs.py:142-149 | distinct endpoint types have distinct values |
| Typedefs.EndpointTypeValue | core/services/ardupilot_manager/ardupilot_manager/typedefs.py:142-149 | the router argument of each endpoint type; Typedefs.EndpointTypeValueInjective states that they differ |
| Typedefs.VehicleValue | core/services/ardupilot_manager/ardupilot_manager/typedefs.py:76-83 | the manifest name of each vehicle; Typedefs.VehicleValueInjective states that they differ |
| Typedefs.VehicleValueInjective | core/services/ardupilot_manager/ardupilot_manager/typedefs.py:76-83 | two vehicles have the same manifest name iff they are the same vehicle |
| Typedefs.FirmwareFormatValue | core/services/ardupilot_manager/ardupilot_manager/typedefs.py:134-139 | the value of each firmware format; Typedefs.FirmwareFormatValueInjective states that they differ |
| Typedefs.FirmwareFormatValueInjective | core/services/ardupilot_manager/ardupilot_manager/typedefs.py:134-139 | two firmware formats have the same value iff they are the same format |
| Vehicle.CommandParams | core/libs/commonwealth/commonwealth/mavlink_comm/VehicleManager.py:28-37 | seven parameters: the i-th given one where there is one, 0 beyond |
| Vehicle.Zeros | core/libs/commonwealth/commonwealth/mavlink_comm/VehicleManager.py:31-37 | n zeros |
| Vehicle.CommandParamsKeepsPrefix | core/libs/commonwealth/commonwealth/mavlink_comm/VehicleManager.py:28-37 | up to seven parameters survive in order, extra ones are dropped, and padding twice changes nothing |
| Vehicle.ArmedBitIsHighBitOfLowByte | core/libs/commonwealth/commonwealth/mavlink_comm/VehicleManager.py:58-59 | the armed test reads bit 7 of the base mode, for negative values too |
| Vehicle.ArmedBitIsByteMask | core/libs/commonwealth/commonwealth/mavlink_comm/VehicleManager.py:59 | on a byte the test equals `bits & 128 != 0` |
| Vehicle.ArmedBit | core/libs/commonwealth/commonwealth/mavlink_comm/VehicleManager.py:58-59 | the armed test on the base mode; Vehicle.ArmedBitIsHighBitOfLowByte and Vehicle.ArmedBitIsByteMask state which bit it reads |
| Vehicle.IsVehicleArmed | core/libs/commonwealth/commonwealth/mavlink_comm/VehicleManager.py:52-59 | a value iff the heartbeat has integer bits, and then it is the armed bit; a missing key is KeyError, non-integer bits ValueError, a failed fetch its own error |
| Vehicle.IsHeartBeating | core/libs/commonwealth/commonwealth/mavlink_comm/VehicleManager.py:76-81 | true iff the fetch succeeds with a non-empty reply |
| Vehicle.ArmedImpliesHeartBeating | core/libs/commonwealth/commonwealth/mavlink_comm/VehicleManager.py:52-81 | a reply showing the vehicle armed also shows it beating |
| Vehicle.VehicleManager.constructor | core/libs/commonwealth/commonwealth/mavlink_comm/VehicleManager.py:12-17 | target system and component 1, confirmation 0, nothing sent |
| Vehicle.VehicleManager.SetTargetSystem | core/libs/commonwealth/commonwealth/mavlink_comm/VehicleManager.py:19-20 | sets the target system and nothing else |
| Vehicle.VehicleManager.SetTargetComponent | core/libs/commonwealth/commonwealth/mavlink_comm/VehicleManager.py:22-23 | sets the target component and nothing else |
| Vehicle.VehicleManager.SetConfirmation | core/libs/commonwealth/commonwealth/mavlink_comm/VehicleManager.py:25-26 | sets the confirmation and nothing else |
| Vehicle.VehicleManager.CommandLongMessage | core/libs/commonwealth/commonwealth/mavlink_comm/VehicleManager.py:28-42 | the message carries the command, the padded parameters and the manager's current target and confirmation |
| Vehicle.VehicleManager.RebootVehicle | core/libs/commonwealth/commonwealth/mavlink_comm/VehicleManager.py:44-46 | sends exactly one reboot-shutdown command with param1 = 1 |
| Vehicle.VehicleManager.ShutdownVehicle | core/libs/commonwealth/commonwealth/mavlink_comm/VehicleManager.py:48-50 | sends exactly one reboot-shutdown command with param1 = 2 |
| Vehicle.VehicleManager.DisarmVehicle | core/libs/commonwealth/commonwealth/mavlink_comm/VehicleManager.py:61-74 | sends the disarm command iff the vehicle reads armed; a vehicle still armed afterwards is VehicleDisarmFail; errors of either read propagate; a disarmed vehicle gets nothing |
| Vehicle.RebootShutdownPayloads | core/libs/commonwealth/commonwealth/mavlink_comm/VehicleManager.py:44-70 | the reboot and shutdown messages differ only in param1 (1 against 2); disarm sends all-zero parameters |
| Hostapd.FrequencyValue | core/services/wifi/Hotspot.py:17-21 | each hostapd mode writes a one-character value ("g" for 2.4 GHz, "a" for 5 GHz) that cannot break a configuration line |
| Hostapd.Valid24Channels | core/services/wifi/Hotspot.py:25-26 | the 2.4 GHz channel list is exactly 1, 2, …, 14 in order |
| Hostapd.ModeFromChannelBands | core/services/wifi/Hotspot.py:23-27 | mode_from_channel picks the 2.4 GHz mode if and only if the channel is in 1..14 (0 and negative channels get 5 GHz), and the two modes write "g" and "a" |
| Hostapd.ModeFromChannel | core/services/wifi/Hotspot.py:23-27 | the hostapd mode for a channel; Hostapd.ModeFromChannelBands states the band test |
| Hostapd.FirstOccurrenceIsFirst | core/services/wifi/Hotspot.py:75 | the search for the start of a match returns an occurrence of the pattern with none before it, and None only when the pattern occurs nowhere |
| Hostapd.FindChannel | core/services/wifi/Hotspot.py:75 | the position found is the first occurrence of "channel " in the iw output; None exactly when there is no occurrence |
| Hostapd.LeadingDigits | core/services/wifi/Hotspot.py:75 | the `\d*` part of the match is the longest prefix of digits: a prefix, all digits, followed by a non-digit or the end |
| Hostapd.ParseChannel | core/services/wifi/Hotspot.py:73-75 | an iw output without "channel " raises IndexError (the `[0]` of an empty findall), and IndexError is the only error raised |
| Hostapd.FindChannelExtends | core/services/wifi/Hotspot.py:75 | text appended after the first "channel " does not move the first match |
| Hostapd.LeadingDigitsOf | core/services/wifi/Hotspot.py:75 | digits followed by a non-digit are exactly what `\d*` takes |
| Hostapd.ParseChannelRoundTrip | core/services/wifi/Hotspot.py:73-75 | a channel number written after the first "channel " and ended by a non-digit is read back unchanged |
| Hostapd.DesiredChannel | core/services/wifi/Hotspot.py:77-78 | `channel or 1`: a parse error propagates unchanged, a non-zero channel is kept, 0 or None becomes 1, so the result is always at least 1 |
| Hostapd.ChannelZeroFallsBackTo24 | core/services/wifi/run_ap.py:55 | an iw output reporting channel 0 makes the hotspot ask for channel 1, a 2.4 GHz channel |
| Hostapd.IndentedLines | core/services/wifi/Hotspot.py:139-162 | one template line per configuration entry, in order, each after the template's indentation |
| Hostapd.FirstSetting | core/services/wifi/Hotspot.py:139-162 | the value returned is the rest of a line that starts with the prefix; None exactly when no line starts with it |
| Hostapd.Lookup | core/services/wifi/run_ap.py:19-43 | the value returned belongs to a setting of that key among the entries; None exactly when no entry sets the key |
| Hostapd.SettingPrefix | core/services/wifi/run_ap.py:19-43 | a configuration line starts with `key=` if and only if it is the setting of that key (comments never match) |
| Hostapd.StartsWithIndented | core/services/wifi/run_ap.py:19-43 | a shared indentation does not change whether a line starts with a prefix, nor the text after it |
| Hostapd.FirstSettingIsLookup | core/services/wifi/run_ap.py:19-43 | reading a key from the indented lines gives the value of its first setting among the entries |
| Hostapd.ReadSettingIsLookup | core/services/wifi/run_ap.py:19-43 | splitting the rendered configuration into lines and reading a key gives the value of that key's first setting, when no entry holds a line break |
| Hostapd.ConfigEntriesOneLine | core/services/wifi/run_ap.py:19-43 | with an interface, SSID and passphrase free of line breaks, every comment and setting of the template fits on one line and every key is non-empty, free of `=` and not a comment |
| Hostapd.ReadsInterface | core/services/wifi/run_ap.py:22 | the rendered configuration sets `interface` to the interface passed in |
| Hostapd.ReadsChannel | core/services/wifi/run_ap.py:24 | the rendered configuration sets `channel` to the decimal text of the channel passed in |
| Hostapd.ReadsSsid | core/services/wifi/run_ap.py:26 | the rendered configuration sets `ssid` to the SSID passed in |
| Hostapd.ReadsPassphrase | core/services/wifi/run_ap.py:28 | the rendered configuration sets `wpa_passphrase` to the passphrase passed in |
| Hostapd.ReadsHwMode | core/services/wifi/run_ap.py:30 | the rendered configuration sets `hw_mode` to the value of the mode passed in |
| Hostapd.HostapdConfigReadsBack | core/services/wifi/run_ap.py:19-43 | hostapd reading the rendered file finds the interface, channel, SSID, passphrase and hw_mode that were passed in, when none of them holds a line break |
| Hostapd.ConfigEntries | core/services/wifi/run_ap.py:19-43 | the template's comment and setting lines in order; Hostapd.ConfigEntriesOneLine and the Hostapd.Reads lemmas state what they set |
| Hostapd.HostapdConfig | core/services/wifi/run_ap.py:19-43 | the triple-quoted template text; Hostapd.ReadSettingIsLookup states how hostapd reads it back |
| Hostapd.RunApHostapdConfig | core/services/wifi/run_ap.py:19-43 | hostapd_config with a four-space indentation; Hostapd.HostapdConfigReadsBack states that its five parameters are read back |
| Hotspot.HotspotInitAsWritten | core/services/wifi/Hotspot.py:35-53 | as written, a missing base interface raises ValueError |
| Hotspot.HotspotNeverConstructed | core/services/wifi/Hotspot.py:44 | as written, every construction fails: past the interface check, line 44 raises TypeError |
| Hotspot.HotspotInit | core/services/wifi/Hotspot.py:35-53 | with line 44 corrected, construction succeeds if and only if the base interface exists, hostapd is found and answers `--help`, `tempfile.tempdir` is set, and the iw output names a channel; ValueError for a missing interface or binary, AssertionError for a broken binary, TypeError for an unset temporary directory, IndexError for an iw output without "channel " |
| Hotspot.HotspotManager.constructor | core/services/wifi/Hotspot.py:35-44 | a new manager has no hostapd process and no DHCP server, and keeps its base interface and gateway |
| Hotspot.HotspotManager.DesiredChannelOf | core/services/wifi/Hotspot.py:77-78 | the channel asked for is at least 1; the only failure is the IndexError of an iw output without a channel |
| Hotspot.HotspotManager.HotspotConfig | core/services/wifi/Hotspot.py:136-162 | the configuration fails exactly when the desired channel cannot be read |
| Hotspot.HotspotConfigSettings | core/services/wifi/Hotspot.py:136-162 | the hotspot's configuration sets interface uap0, SSID BlueOS, passphrase blueosbr, the desired channel, and hw_mode "g" exactly for channels up to 14 |
| Hotspot.HotspotManager.Stop | core/services/wifi/Hotspot.py:113-123 | only a running hostapd is killed; then the DHCP server, when there is one, is stopped (killed only if it runs); a stopped hotspot is left as it was; nothing else changes |

## Left out

- Input and output are not modelled: the file system, psutil, subprocess, I2C and USB probes, the `iw` command, HTTP calls to mavlink2rest and the clock. Each value the code reads from them is a parameter (an oracle), and each command it starts is recorded as data.
- PlatformManager, the REST layers (every `main.py`), setup.py and the command-line entry points are outside the core.
- The settings file behind the preferred board and the saved endpoints is a field; its JSON format is not modelled.
- ArduPilot.ArduPilotManager.RunWithSitl: the firmware check and install (FirmwareManager) and `start_sitl_process` (PlatformManager) are oracles, the inputs `firmwareSetup` and `sitlLaunch`; the SITL binary they launch is not part of the manager's state.
- ArduPilotManager.auto_connect_board, its sleep and its retry loop are not modelled.
- ArduPilot.ArduPilotManager.constructor: the settings folders and file, `set_logdir` and the firmware and vehicle managers of `__init__` are not modelled. The loaded configuration is a parameter, and the iteration order of the saved endpoint set is the parameter `order`.
- MavlinkManager.Manager.Start, Stop, Restart and AutoRestartTick keep the source's behaviour: Manager.py:67,71,75 create the router's `start`, `exit` and `restart` coroutines (AbstractRouter.py:109,127,134) and never await them. No router is launched, killed or restarted by them, so MavlinkRouterStartFail and NoMasterMavlinkEndpoint never come from these calls.
- ArduPilot.ArduPilotManager.StartMavlinkManager, RunWithBoard, StopArdupilot and ReloadEndpoints inherit this: they change the manager's flag and master, never the router's process.
- MavlinkManager.NewManager uses the corrected MavlinkManager.AvailableInterfaces. As written every router class is listed (see Findings), so RuntimeError arises only when no router class exists, and a router whose `is_ok()` is false can be chosen.
- Firmware.ValidateFirmware composes the corrected Firmware.ValidateElf. As written (Firmware.ValidateElfAsWritten) an ELF file built for another platform is not refused.
- Firmware.InstallFirmwareFromFile composes the corrected Firmware.InstallFirmware. As written every call fails with FirmwareInstallFail, because the NameError at FirmwareInstall.py:135 is caught at FirmwareManagement.py:84-87.
- Firmware.RestoreDefaultFirmware installs through Firmware.InstallFirmwareFromFile, so it carries the same correction.
- The watchdog tasks are not modelled as tasks. BinaryManagers.BinaryManager.WatchdogTick and MavlinkManager.Manager.AutoRestartTick model one pass of each loop.
- Concurrency between asyncio tasks is not modelled; every method runs to completion.
- Typedefs: the values of NavigatorR3 and Undefined are not declared in typedefs.py, which is the only typedefs file in the model. The model takes each member's name as its value.
- Firmware: the table of firmware formats per platform lives in FirmwareDownloader, which is not part of this model. It is a map parameter.
- Firmware: an `open()` failure inside `_validate_elf` is folded into the ELF reader's failure.
- BinaryManagers.RunningProcesses models the filter given a board, as evidently intended. Its callers at ArduPilotBinaryManager.py:81,127 pass `board.platform`, which raises AttributeError on a non-empty table; that is BinaryManagers.RunningProcessesAsWritten (see Findings).
- BinaryManagers.ProcessRunningIff and BinaryManagers.DeadBinaryCountsAsRunning are about the corrected check. As written (BinaryManagers.ProcessRunningAsWritten) a dead child with a non-empty table raises AttributeError instead.
- BinaryManagers.BinaryManager.IsProcessRunning uses the corrected filter; as written it raises AttributeError whenever the child is dead and the table is not empty.
- BinaryManagers.Prune and BinaryManagers.PruneReturnsIffAllKillable use the corrected filter; as written (BinaryManagers.PruneAsWritten) prune raises AttributeError before any kill whenever the table is not empty.
- BinaryManagers.BinaryManager.Kill prunes with the corrected filter; as written it fails with AttributeError whenever terminate passes and the table is not empty.
- BinaryManagers.BinaryManager.WatchdogTick uses the corrected check; as written (BinaryManagers.WatchdogTickAsWritten) the check raises out of the loop at ArduPilotBinaryManager.py:110, the watchdog task ends, and no restart is ever attempted.
- BinaryManagers.BinaryManager.WatchdogTick: the `stop()` at ArduPilotBinaryManager.py:116 is a coroutine the source never awaits, so the tick does not stop the old process. The model keeps that behaviour.
- Exceptions raised by `subprocess.Popen` itself (a missing executable) are not modelled; a launch always yields a process.
- The Linux binary's command line is modelled as the list of words `shlex.split` produces. Shell quoting of unusual paths is not modelled.
- BinaryManagers.BinaryManager: one class covers both the Linux and SITL subclasses, with the kind of binary as a field.
- mavlink_proxy/Endpoint.py is not part of this model; an endpoint is a record of the fields the core reads.
- Routers.AsyncRouter.Exit: the source awaits the `None` that `kill()` returns, which raises TypeError after the kill. The model returns that TypeError as written.
- Vehicle: failures of the HTTP post to mavlink2rest are not modelled; sending always appends the message.
- Base.Lower and the `\d` of the regular expressions cover ASCII only, not Unicode case folding or Unicode digits.
- CableGuy.MatchesAnyPrefix: wifi interface names in the blacklist are treated as literal prefixes; regular-expression metacharacters inside them are not interpreted.
- CableGuy.Interfaces takes one snapshot of psutil's interfaces, addresses and statistics as its input.
- CableGuy: `is_static_ip` (manager.py:173-195) reads the kernel's address flags over netlink and reports whether IFA_F_PERMANENT is set. The model takes its answer as an oracle.
- CableGuyManager: `save()` and the settings load in EthernetManager's `__init__` write and read a JSON file. That file is not modelled.
- CableGuyManager: `trigger_dhcp_service` (manager.py:231-247) is modelled as the LinkDown and LinkUp requests; the one-second sleep between them is not modelled.
- CableGuyManager.EthernetManager.constructor: as written every construction fails. Line 53 reads `self._config_path`, which is never assigned, so `__init__` raises AttributeError before the gateway is stored; main.py:45 also omits the `dhcp_gateway` argument. The model constructs the manager as evidently intended, and the initial `set_configuration` calls of `__init__` (manager.py:56-71), which are unreachable as written, are not modelled.
- CableGuyManager.SetConfiguration and CableGuyManager.AddIps: each `add_ip` reads the interfaces afresh; the i-th read is the input `views[i]`, an oracle. The `remove_ip` calls inside one `add_ip` read them again; the model uses that add_ip's view for those reads too.
- Hotspot: `start`, `restart` and `_create_virtual_interface` only launch processes; they are not modelled. `_create_temp_config_file` is modelled through Hotspot.HotspotInit, whose TypeError case is its path built from an unset `tempfile.tempdir` (an oracle, since it depends on whether anything in the process has asked for the temporary directory) and whose IndexError case is its channel parse; the file it writes is not modelled.
- Hotspot: the `ctypes.Union` used as a type annotation (Hotspot.py:1,93) has no run-time effect and is ignored.
- Hostapd.ParseChannel: the iw output is taken as text. In the source it is `str()` of the bytes, so the text starts with `b'`; this cannot change the first "channel " match.
- Hostapd.ParseChannel: the `Optional[int]` return of `base_interface_channel` is never None. The `or 1` fallback in Hostapd.DesiredChannel therefore applies only to channel 0.
- run_ap.py lines 55-96 are a module-level script. Its configuration and channel fallback are modelled through Hostapd.RunApHostapdConfig and Hostapd.DesiredChannel; the processes it launches are not.
- The `__del__` finalizers and the Singleton metaclasses are not modelled.

## Findings

| source | as written | input that shows it | evidently intended | confidence | as-written member | corrected member |
|---|---|---|---|---|---|---|
| core/services/ardupilot_manager/ArduPilotManager.py:300-310 | `loaded_endpoints` is the manager's live endpoint set, not a copy, so the rollback after a failed add restores the set as it is at the failure | no endpoints, then adding a and b with the same name: a stays after the rollback | restore the endpoints held before the batch | not executed | ArduPilot.ArduPilotManager.AddNewEndpointsAsWritten, ArduPilot.PartialAddSurvivesReset | ArduPilot.ArduPilotManager.AddNewEndpoints |
| core/services/ardupilot_manager/ArduPilotManager.py:312-326 | the same aliasing in the rollback after a failed removal | endpoints {a}, then removing a and an absent b: a stays removed | restore the endpoints held before the batch | not executed | ArduPilot.ArduPilotManager.RemoveEndpointsAsWritten, ArduPilot.PartialRemoveSurvivesReset | ArduPilot.ArduPilotManager.RemoveEndpoints |
| core/services/ardupilot_manager/mavlink_proxy/AbstractRouter.py:89-91 | `filter(lambda subclass: subclass.is_ok, …)` tests the method object, which is always truthy | one router kind whose `is_ok()` is false: it is still listed as available | keep the kinds whose `is_ok()` returns true | not executed | MavlinkManager.AvailableInterfacesAsWritten, MavlinkManager.AvailableInterfacesIgnoresIsOk | MavlinkManager.AvailableInterfaces |
| core/services/ardupilot_manager/firmware/FirmwareInstall.py:135 | `install_firmware` compares the unbound name `platform`, which raises NameError on every call | installing a valid SITL ELF file for a SITL board | compare `board.platform` | not executed | Firmware.InstallFirmwareAsWritten, Firmware.InstallRaisesNameError | Firmware.InstallFirmware |
| core/services/ardupilot_manager/firmware/FirmwareInstall.py:89-92 | the platform mismatch builds an InvalidFirmwareFile exception but never raises it | a SITL ELF build for x86_64 validated on an x86_64 host for a Navigator | raise the exception, refusing firmware for another platform | not executed | Firmware.ValidateElfAsWritten, Firmware.SitlFirmwareAcceptedForNavigator | Firmware.ValidateElf |
| core/services/cable_guy/api/manager.py:371-374 | `info` is set only inside the loop over IPv4 addresses, so an interface without one reuses the previous interface's `info`, or raises UnboundLocalError when it comes first | lo with 127.0.0.1, then eth0 with only fe80::1: eth0 gets lo's statistics; eth0 alone raises | read each interface's own info | not executed | CableGuy.InterfacesAsWritten, CableGuy.InterfaceInfoLeaks | CableGuy.Interfaces |
| core/services/ardupilot_manager/flight_controller/ArduPilotBinaryManager.py:81-128 | `prune_ardupilot_process` and `is_ardupilot_process_running` pass `board.platform` to `running_ardupilot_process`, whose filter reads `.platform.value` of that Platform and raises AttributeError; the watchdog's call at :110 is outside its `try` | a recorded board whose child has exited while an ArduPilot process for its platform is still listed: the watchdog raises and ends instead of restarting | pass `board` itself | not executed | BinaryManagers.WatchdogTickAsWritten, BinaryManagers.PruneAsWritten, BinaryManagers.DeadChildEndsWatchdogAsWritten | BinaryManagers.BinaryManager.WatchdogTick, BinaryManagers.Prune |
| core/services/wifi/Hotspot.py:44 | `self._dhcp_server = Optional[DHCPServerManager] = None` assigns to a subscript of `typing.Optional`, which raises TypeError | any construction whose base interface exists | `self._dhcp_server: Optional[DHCPServerManager] = None` | not executed | Hotspot.HotspotInitAsWritten, Hotspot.HotspotNeverConstructed | Hotspot.HotspotInit |
