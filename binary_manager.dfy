/** The ArduPilot binary supervisor (flight_controller/ArduPilotBinaryManager.py
    with its two launchers, LinuxBinaryManager.py and SITLBinaryManager.py).
    The abstract base and its two subclasses are one class here whose
    constant `kind` says which subclass it is; the subclasses differ only in
    their start preconditions and in how they launch the binary.

    Spawning, polling and the system process table are inputs: the command a
    child was launched with is recorded, poll results arrive as a sequence
    of observations, and the process table as a list of command lines. */
module BinaryManagers {
  import opened Base
  import opened Typedefs
  import opened Endpoints

  datatype Kind = LinuxKind | SITLKind

  /** How the binary was launched: a shell command line (shell=True) or an
      argument vector (shell=False). */
  datatype Command = ShellLine(line: string) | Argv(args: seq<string>)

  /** The child process handle: what it runs, and whether terminate() was
      sent to it. */
  datatype Child = Child(command: Command, terminateSent: bool)

  /** An entry of psutil.process_iter(): its command line, and whether
      kill() on it would return normally. */
  datatype SystemProcess = SystemProcess(cmdline: seq<string>, killSucceeds: bool)

  /** terminate_ardupilot_subprocess polls at most this many times. */
  const MaxPolls: nat := 10

  /** The fixed SITL home location. */
  const HomeLocation: string := "-27.563,-48.459,0.0,270.0"

  // ------------------------------------------------------------ launch lines

  /** The words of the shell command line of LinuxBinaryManager.start:
      the firmware, the master address as `udp:place:port`, the log and
      storage directories, then the four serial mappings. */
  function LinuxWords(firmwarePath: string, master: Endpoint, logPath: string, storagePath: string): (r: seq<string>)
    ensures |r| == 15 && r[0] == firmwarePath && r[4] == logPath && r[6] == storagePath
  {
    [firmwarePath, "-A", "udp:" + master.place + ":" + IntToString(master.argument),
     "--log-directory", logPath, "--storage-directory", storagePath,
     "-C", "/dev/ttyS0", "-B", "/dev/ttyAMA1", "-E", "/dev/ttyAMA2", "-F", "/dev/ttyAMA3"]
  }

  /** The shell command line: the f-string puts exactly one space between
      consecutive words, so it is the words joined by spaces. */
  function LinuxCommandLine(firmwarePath: string, master: Endpoint, logPath: string, storagePath: string): string
  {
    Join(LinuxWords(firmwarePath, master, logPath, storagePath), ' ')
  }

  /** The argument vector of SITLBinaryManager.start. */
  function SitlArgv(firmwarePath: string, frame: SITLFrame, master: Endpoint): (r: seq<string>)
    ensures |r| == 7 && r[0] == firmwarePath
  {
    [firmwarePath, "--model", FrameValue(frame), "--base-port", IntToString(master.argument),
     "--home", HomeLocation]
  }

  lemma {:induction false} NoSpaceInNumber(i: int)
    ensures ' ' !in IntToString(i)
  {
    if i < 0 {
      NatToStringDigits(-i);
    } else {
      NatToStringDigits(i);
    }
  }

  /** A shell that splits the command line hands the binary exactly the
      launch words, provided the inserted paths and address hold no space
      (the port number never does). */
  lemma LinuxCommandWordsSplit(firmwarePath: string, master: Endpoint, logPath: string, storagePath: string)
    requires ' ' !in firmwarePath && ' ' !in master.place && ' ' !in logPath && ' ' !in storagePath
    ensures Split(LinuxCommandLine(firmwarePath, master, logPath, storagePath), ' ')
         == LinuxWords(firmwarePath, master, logPath, storagePath)
  {
    var w := LinuxWords(firmwarePath, master, logPath, storagePath);
    var n := IntToString(master.argument);
    NoSpaceInNumber(master.argument);
    assert w[2] == "udp:" + master.place + ":" + n;
    assert NoSep(w, ' ') by {
      forall k | 0 <= k < |w| ensures ' ' !in w[k] {
        if k == 2 {
          assert ' ' !in "udp:" && ' ' !in ":";
        }
      }
    }
    SplitJoin(w, ' ');
  }

  /** The base port the SITL binary is given reads back as the master
      endpoint's port. */
  lemma SitlBasePortRoundTrip(firmwarePath: string, frame: SITLFrame, master: Endpoint)
    requires master.argument >= 0
    ensures AllDigits(SitlArgv(firmwarePath, frame, master)[4])
    ensures ParseDigits(SitlArgv(firmwarePath, frame, master)[4]) == master.argument
  {
    ParseNatToString(master.argument);
  }

  /** What start() launches, or the error it raises first. The Linux
      launcher needs a log path, then a storage path, then a Linux board;
      the SITL launcher reads its frame (AttributeError when it was never
      set, since __init__ only annotates it), refuses a falsy frame, then
      needs a SITL board. */
  function LaunchCommand(kind: Kind, logPath: Option<string>, storagePath: Option<string>,
                         sitlFrame: Option<SITLFrame>, board: FlightController,
                         master: Endpoint, firmwarePath: string): (r: Result<Command>)
    ensures kind == LinuxKind ==>
      (r.Ok? <==> logPath.Some? && storagePath.Some? && BoardType(board) == LinuxType)
    ensures kind == LinuxKind && r.Err? ==> r.error == ValueError
    ensures kind == LinuxKind && r.Ok? ==>
      r.value == ShellLine(LinuxCommandLine(firmwarePath, master, logPath.value, storagePath.value))
    ensures kind == SITLKind ==> (r.Ok? <==> sitlFrame.Some? && BoardType(board) == SITLType)
    ensures kind == SITLKind && sitlFrame.None? ==> r == Err(AttributeError)
    ensures kind == SITLKind && sitlFrame.Some? && r.Err? ==> r.error == ValueError
    ensures kind == SITLKind && r.Ok? ==> r.value == Argv(SitlArgv(firmwarePath, sitlFrame.value, master))
  {
    match kind
    case LinuxKind =>
      if logPath.None? then Err(ValueError)
      else if storagePath.None? then Err(ValueError)
      else if BoardType(board) != LinuxType then Err(ValueError)
      else Ok(ShellLine(LinuxCommandLine(firmwarePath, master, logPath.value, storagePath.value)))
    case SITLKind =>
      if sitlFrame.None? then Err(AttributeError)
      else if FrameValue(sitlFrame.value) == "" then Err(ValueError)
      else if BoardType(board) != SITLType then Err(ValueError)
      else Ok(Argv(SitlArgv(firmwarePath, sitlFrame.value, master)))
  }

  // ------------------------------------------------------ process table scan

  /** is_ardupilot_process: the platform value occurs in the space-joined
      command line. */
  predicate IsArdupilotProcess(p: SystemProcess, platformValue: string)
  {
    Contains(Join(p.cmdline, ' '), platformValue)
  }

  /** running_ardupilot_process: the matching processes, in table order. */
  function RunningProcesses(procs: seq<SystemProcess>, platformValue: string): (r: seq<SystemProcess>)
    ensures |r| <= |procs|
    ensures forall i :: 0 <= i < |r| ==> r[i] in procs && IsArdupilotProcess(r[i], platformValue)
    ensures forall p :: p in procs && IsArdupilotProcess(p, platformValue) ==> p in r
  {
    if procs == [] then []
    else if IsArdupilotProcess(procs[0], platformValue)
    then [procs[0]] + RunningProcesses(procs[1..], platformValue)
    else RunningProcesses(procs[1..], platformValue)
  }

  /** is_ardupilot_process_running with the filter given the board: the
      child answers poll() with None, OR no system process matches. */
  predicate ProcessRunning(childAlive: bool, procs: seq<SystemProcess>, platformValue: string)
  {
    childAlive || |RunningProcesses(procs, platformValue)| == 0
  }

  /** The check counts the binary as running iff the child is alive or no
      process in the table matches. */
  lemma ProcessRunningIff(childAlive: bool, procs: seq<SystemProcess>, platformValue: string)
    ensures ProcessRunning(childAlive, procs, platformValue)
            <==> childAlive || forall p :: p in procs ==> !IsArdupilotProcess(p, platformValue)
  {
    var r := RunningProcesses(procs, platformValue);
    if |r| > 0 {
      assert r[0] in procs && IsArdupilotProcess(r[0], platformValue);
    }
  }

  /** Because of the OR, a binary whose child has exited and that left no
      matching process behind counts as running, and a binary that is
      still matched in the table counts as stopped whenever its child has
      exited: the check answers the opposite of the table. */
  lemma {:induction false} DeadBinaryCountsAsRunning(procs: seq<SystemProcess>, platformValue: string)
    requires forall i :: 0 <= i < |procs| ==> !IsArdupilotProcess(procs[i], platformValue)
    ensures ProcessRunning(false, procs, platformValue)
    decreases |procs|
  {
    if procs != [] {
      DeadBinaryCountsAsRunning(procs[1..], platformValue);
    }
  }

  // ------------------------------------------- the process filter as written

  /** running_ardupilot_process as its callers call it: each passes
      `board.platform`, a Platform, where the filter expects a board, so the
      filter's `board.platform.value` raises AttributeError on the first
      process the table yields. On an empty table the filter never runs. */
  function RunningProcessesAsWritten(procs: seq<SystemProcess>): (r: Result<seq<SystemProcess>>)
    ensures r.Err? <==> procs != []
    ensures r.Err? ==> r.error == AttributeError
    ensures r.Ok? ==> r.value == [] && forall v :: r.value == RunningProcesses(procs, v)
  {
    if procs == [] then Ok([]) else Err(AttributeError)
  }

  /** is_ardupilot_process_running as written: a live child short-circuits
      the `or`; otherwise the filter runs. Whenever it answers at all, it
      answers that the binary is running, and it agrees with the check
      that gives the filter the board. */
  function ProcessRunningAsWritten(childAlive: bool, procs: seq<SystemProcess>): (r: Result<bool>)
    ensures r.Err? <==> !childAlive && procs != []
    ensures r.Err? ==> r.error == AttributeError
    ensures r.Ok? ==> r.value
    ensures r.Ok? ==> forall v :: r.value == ProcessRunning(childAlive, procs, v)
  {
    if childAlive then Ok(true)
    else
      var m := RunningProcessesAsWritten(procs);
      if m.Err? then Err(m.error) else Ok(|m.value| == 0)
  }

  /** prune_ardupilot_process as written: the filter is iterated outside
      the `try`, so its AttributeError escapes as it is, before any kill.
      It returns only when there was nothing to kill. */
  function PruneAsWritten(procs: seq<SystemProcess>): (r: Outcome)
    ensures r.Fail? <==> procs != []
    ensures r.Fail? ==> r.error == AttributeError
    ensures r.Pass? ==> forall v :: RunningProcesses(procs, v) == []
  {
    var m := RunningProcessesAsWritten(procs);
    if m.Err? then Fail(m.error) else Pass
  }

  /** What one pass of the watchdog loop does. */
  datatype Tick = Idle | RestartAttempted | Raised(error: Error)

  /** One pass of auto_restart_ardupilot_process as written, `childAlive`
      being whether there is a child whose poll() answers None. The running
      check sits outside the loop's `try`, so its AttributeError ends the
      watchdog task; the restart is never reached. */
  function WatchdogTickAsWritten(board: Option<FlightController>, childAlive: bool,
                                 procs: seq<SystemProcess>): (r: Tick)
    ensures r != RestartAttempted
    ensures r.Raised? <==> board.Some? && !childAlive && procs != []
    ensures r.Raised? ==> r.error == AttributeError
  {
    if board.None? then Idle
    else
      match ProcessRunningAsWritten(childAlive, procs)
      case Err(e) => Raised(e)
      case Ok(running) => if running then Idle else RestartAttempted
  }

  /** The input that shows it: a board is recorded, its child has exited,
      and the table still lists an ArduPilot process for its platform. The
      watchdog as written raises and ends, while the check that gives the
      filter the board reports the binary as stopped, so
      BinaryManager.WatchdogTick attempts a restart. */
  lemma DeadChildEndsWatchdogAsWritten(board: FlightController, machineArch: string)
    ensures var v := PlatformValue(board.platform, machineArch);
      var procs := [SystemProcess([v], true)];
      WatchdogTickAsWritten(Some(board), false, procs) == Raised(AttributeError)
      && !ProcessRunning(false, procs, v)
  {
    var v := PlatformValue(board.platform, machineArch);
    var p := SystemProcess([v], true);
    assert Join(p.cmdline, ' ') == v;
    ContainsAt(v, v, 0);
    assert IsArdupilotProcess(p, v);
    assert p in [p];
  }

  // ------------------------------------------------------------- poll loops

  /** The poll loop of terminate_ardupilot_subprocess: `exitedAt[i]` is
      whether the i-th poll shows an exit code. It returns at the first
      poll that does, and raises ArdupilotProcessKillFail after MaxPolls
      polls that do not. */
  method PollUntilExit(exitedAt: seq<bool>) returns (r: Outcome, polls: nat)
    requires |exitedAt| >= MaxPolls
    ensures polls <= MaxPolls
    ensures r.Pass? <==> exists i :: 0 <= i < MaxPolls && exitedAt[i]
    ensures r.Pass? ==> 0 < polls && exitedAt[polls - 1]
    ensures forall j :: 0 <= j < polls - 1 ==> !exitedAt[j]
    ensures r.Fail? ==> polls == MaxPolls && r.error == ArdupilotProcessKillFail
  {
    polls := 0;
    while polls < MaxPolls
      invariant 0 <= polls <= MaxPolls
      invariant forall j :: 0 <= j < polls ==> !exitedAt[j]
    {
      polls := polls + 1;
      if exitedAt[polls - 1] {
        return Pass, polls;
      }
    }
    return Fail(ArdupilotProcessKillFail), polls;
  }

  /** prune_ardupilot_process: kill every matching process in table order;
      the first kill that raises stops the loop with ArdupilotProcessKillFail.
      `killed` is how many kills returned normally. */
  method Prune(procs: seq<SystemProcess>, platformValue: string) returns (r: Outcome, killed: nat)
    ensures var m := RunningProcesses(procs, platformValue);
      killed <= |m| && (forall i :: 0 <= i < killed ==> m[i].killSucceeds)
      && (r.Pass? <==> killed == |m|)
      && (r.Fail? ==> r.error == ArdupilotProcessKillFail && !m[killed].killSucceeds)
  {
    var m := RunningProcesses(procs, platformValue);
    killed := 0;
    while killed < |m|
      invariant 0 <= killed <= |m|
      invariant forall i :: 0 <= i < killed ==> m[i].killSucceeds
    {
      if !m[killed].killSucceeds {
        return Fail(ArdupilotProcessKillFail), killed;
      }
      killed := killed + 1;
    }
    return Pass, killed;
  }

  /** Every matching process is killed exactly when prune returns. */
  lemma PruneReturnsIffAllKillable(procs: seq<SystemProcess>, platformValue: string, killed: nat)
    requires var m := RunningProcesses(procs, platformValue);
      killed <= |m| && (forall i :: 0 <= i < killed ==> m[i].killSucceeds)
      && (killed < |m| ==> !m[killed].killSucceeds)
    ensures killed == |RunningProcesses(procs, platformValue)| <==>
      forall p :: p in procs && IsArdupilotProcess(p, platformValue) ==> p.killSucceeds
  {
    var m := RunningProcesses(procs, platformValue);
    if killed == |m| {
      forall p | p in procs && IsArdupilotProcess(p, platformValue) ensures p.killSucceeds {
        var i :| 0 <= i < |m| && m[i] == p;
      }
    } else {
      assert m[killed] in procs && IsArdupilotProcess(m[killed], platformValue);
    }
  }

  // ------------------------------------------------------------ the manager

  class BinaryManager {
    const kind: Kind
    var subprocess: Option<Child>
    var runningBoard: Option<FlightController>
    var master: Option<Endpoint>
    var firmwarePath: Option<string>
    var logPath: Option<string>
    var storagePath: Option<string>
    var sitlFrame: Option<SITLFrame>

    /** The launch state is recorded and cleared as a whole. */
    predicate Valid()
      reads this
    {
      (runningBoard.Some? <==> master.Some?) && (master.Some? <==> firmwarePath.Some?)
    }

    constructor(kind: Kind)
      ensures this.kind == kind && Valid()
      ensures subprocess.None? && runningBoard.None? && master.None? && firmwarePath.None?
      ensures logPath.None? && storagePath.None? && sitlFrame.None?
    {
      this.kind := kind;
      subprocess := None;
      runningBoard := None;
      master := None;
      firmwarePath := None;
      logPath := None;
      storagePath := None;
      sitlFrame := None;
    }

    method SetLogPath(path: string)
      modifies this
      ensures logPath == Some(path)
      ensures storagePath == old(storagePath) && sitlFrame == old(sitlFrame) && subprocess == old(subprocess)
      ensures runningBoard == old(runningBoard) && master == old(master) && firmwarePath == old(firmwarePath)
    {
      logPath := Some(path);
    }

    method SetStoragePath(path: string)
      modifies this
      ensures storagePath == Some(path)
      ensures logPath == old(logPath) && sitlFrame == old(sitlFrame) && subprocess == old(subprocess)
      ensures runningBoard == old(runningBoard) && master == old(master) && firmwarePath == old(firmwarePath)
    {
      storagePath := Some(path);
    }

    method SetSitlFrame(frame: SITLFrame)
      modifies this
      ensures sitlFrame == Some(frame)
      ensures logPath == old(logPath) && storagePath == old(storagePath) && subprocess == old(subprocess)
      ensures runningBoard == old(runningBoard) && master == old(master) && firmwarePath == old(firmwarePath)
    {
      sitlFrame := Some(frame);
    }

    /** start: the subclass checks its preconditions and launches the
        binary; the base class then records board, master and firmware
        path. A refused start changes nothing. */
    method Start(board: FlightController, masterEndpoint: Endpoint, path: string) returns (r: Outcome)
      modifies this
      ensures var c := LaunchCommand(kind, old(logPath), old(storagePath), old(sitlFrame), board, masterEndpoint, path);
        (c.Err? ==> r == Fail(c.error) && subprocess == old(subprocess) && runningBoard == old(runningBoard)
                    && master == old(master) && firmwarePath == old(firmwarePath))
        && (c.Ok? ==> r == Pass && subprocess == Some(Child(c.value, false)) && runningBoard == Some(board)
                      && master == Some(masterEndpoint) && firmwarePath == Some(path))
      ensures logPath == old(logPath) && storagePath == old(storagePath) && sitlFrame == old(sitlFrame)
      ensures old(Valid()) ==> Valid()
      ensures r.Pass? ==> Valid()
    {
      var c := LaunchCommand(kind, logPath, storagePath, sitlFrame, board, masterEndpoint, path);
      if c.Err? {
        return Fail(c.error);
      }
      subprocess := Some(Child(c.value, false));
      runningBoard := Some(board);
      master := Some(masterEndpoint);
      firmwarePath := Some(path);
      return Pass;
    }

    /** terminate_ardupilot_subprocess: nothing to do without a child;
        otherwise terminate() is sent and the poll loop decides. */
    method Terminate(exitedAt: seq<bool>) returns (r: Outcome)
      requires |exitedAt| >= MaxPolls
      modifies this
      ensures old(subprocess).None? ==> r == Pass && subprocess == old(subprocess)
      ensures old(subprocess).Some? ==> subprocess == Some(old(subprocess).value.(terminateSent := true))
      ensures old(subprocess).Some? ==> (r.Pass? <==> exists i :: 0 <= i < MaxPolls && exitedAt[i])
      ensures r.Fail? ==> r.error == ArdupilotProcessKillFail
      ensures runningBoard == old(runningBoard) && master == old(master) && firmwarePath == old(firmwarePath)
      ensures logPath == old(logPath) && storagePath == old(storagePath) && sitlFrame == old(sitlFrame)
    {
      if subprocess.None? {
        return Pass;
      }
      subprocess := Some(subprocess.value.(terminateSent := true));
      var polls;
      r, polls := PollUntilExit(exitedAt);
    }

    /** kill_ardupilot_process: terminate, then prune; prune is not reached
        when terminate raises. With no board, reading its platform raises
        AttributeError. */
    method Kill(board: Option<FlightController>, exitedAt: seq<bool>, procs: seq<SystemProcess>,
                machineArch: string) returns (r: Outcome)
      requires |exitedAt| >= MaxPolls
      modifies this
      ensures old(subprocess).Some? ==> subprocess == Some(old(subprocess).value.(terminateSent := true))
      ensures old(subprocess).None? ==> subprocess == old(subprocess)
      ensures old(subprocess).Some? && (forall i :: 0 <= i < MaxPolls ==> !exitedAt[i]) ==>
        r == Fail(ArdupilotProcessKillFail)
      ensures r.Pass? ==> board.Some? && (forall p :: p in procs && IsArdupilotProcess(p, PlatformValue(board.value.platform, machineArch)) ==> p.killSucceeds)
      ensures runningBoard == old(runningBoard) && master == old(master) && firmwarePath == old(firmwarePath)
      ensures logPath == old(logPath) && storagePath == old(storagePath) && sitlFrame == old(sitlFrame)
    {
      r := Terminate(exitedAt);
      if r.Fail? {
        return;
      }
      if board.None? {
        return Fail(AttributeError);
      }
      var value := PlatformValue(board.value.platform, machineArch);
      var killed;
      r, killed := Prune(procs, value);
      PruneReturnsIffAllKillable(procs, value, killed);
    }

    /** stop: kill errors are swallowed, and the launch state is cleared
        whatever happened. */
    method Stop(exitedAt: seq<bool>, procs: seq<SystemProcess>, machineArch: string)
      requires |exitedAt| >= MaxPolls
      modifies this
      ensures runningBoard.None? && master.None? && firmwarePath.None? && Valid()
      ensures old(subprocess).Some? ==> subprocess == Some(old(subprocess).value.(terminateSent := true))
      ensures old(subprocess).None? ==> subprocess == old(subprocess)
      ensures logPath == old(logPath) && storagePath == old(storagePath) && sitlFrame == old(sitlFrame)
    {
      var _ := Kill(runningBoard, exitedAt, procs, machineArch);
      runningBoard := None;
      master := None;
      firmwarePath := None;
    }

    /** is_ardupilot_process_running for `board`, `childAlive` being whether
        the child's poll() answers None. */
    predicate IsProcessRunning(board: FlightController, childAlive: bool, procs: seq<SystemProcess>, machineArch: string): (r: bool)
      reads this
      ensures r <==> (subprocess.Some? && childAlive)
                     || forall p :: p in procs ==> !IsArdupilotProcess(p, PlatformValue(board.platform, machineArch))
    {
      ProcessRunningIff(subprocess.Some? && childAlive, procs, PlatformValue(board.platform, machineArch));
      ProcessRunning(subprocess.Some? && childAlive, procs, PlatformValue(board.platform, machineArch))
    }

    /** One pass of auto_restart_ardupilot_process. With no board recorded,
        or a board that counts as running, nothing happens. Otherwise stop()
        is called without being awaited, so it never runs and the launch
        state stays; start is called again with the stored arguments (a
        missing one is a ValueError), its error is only logged, and the
        recorded board is put back as it was. */
    method WatchdogTick(childAlive: bool, procs: seq<SystemProcess>, machineArch: string)
      returns (attempted: bool, r: Outcome)
      modifies this
      ensures attempted <==> (old(runningBoard).Some? &&
        !ProcessRunning(old(subprocess).Some? && childAlive, procs, PlatformValue(old(runningBoard).value.platform, machineArch)))
      ensures !attempted ==> r == Pass && subprocess == old(subprocess)
      ensures runningBoard == old(runningBoard) && master == old(master) && firmwarePath == old(firmwarePath)
      ensures logPath == old(logPath) && storagePath == old(storagePath) && sitlFrame == old(sitlFrame)
      ensures attempted && !old(Valid()) ==> r == Fail(ValueError) && subprocess == old(subprocess)
      ensures attempted && old(Valid()) ==>
        var c := LaunchCommand(kind, logPath, storagePath, sitlFrame, old(runningBoard).value,
                               old(master).value, old(firmwarePath).value);
        (c.Err? ==> r == Fail(c.error) && subprocess == old(subprocess))
        && (c.Ok? ==> r == Pass && subprocess == Some(Child(c.value, false)))
      ensures old(Valid()) ==> Valid()
    {
      var current := runningBoard;
      if current.None? {
        return false, Pass;
      }
      if IsProcessRunning(current.value, childAlive, procs, machineArch) {
        return false, Pass;
      }
      if runningBoard.None? || master.None? || firmwarePath.None? {
        r := Fail(ValueError);
      } else {
        r := Start(runningBoard.value, master.value, firmwarePath.value);
      }
      runningBoard := current;
      return true, r;
    }
  }
}
