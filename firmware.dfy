/** Firmware bookkeeping (firmware/FirmwareManagement.py and
    firmware/FirmwareInstall.py): where each platform's firmware lives, how
    a firmware file is validated for a board, and how it is installed.

    The file system, the ELF reader, ArduPilot's firmware decoder, the
    bootloader and the uploader are inputs: which paths are files, what the
    readers make of the file, and whether copying or uploading raised. The
    firmware-format table of the downloader is not part of this model and is
    a parameter; a platform missing from it raises KeyError, as indexing the
    dictionary does. */
module Firmware {
  import opened Base
  import opened Typedefs

  /** A path as its list of components; joinpath appends one. */
  type Path = seq<string>

  /** The two folders a FirmwareManager is built with. */
  datatype Folders = Folders(firmwareFolder: Path, defaultsFolder: Path)

  // ------------------------------------------------------------- file names

  /** firmware_name: "ardupilot_" and the lower-cased platform value. */
  function FirmwareName(p: Platform, machineArch: string): (r: string)
    ensures StartsWith(r, "ardupilot_")
    ensures |r| == 10 + |PlatformValue(p, machineArch)|
  {
    "ardupilot_" + Lower(PlatformValue(p, machineArch))
  }

  lemma {:induction false} LowerEqual(a: string, b: string)
    requires Lower(a) == Lower(b)
    ensures |a| == |b| && forall i :: 0 <= i < |a| ==> LowerChar(a[i]) == LowerChar(b[i])
  {
    assert forall i :: 0 <= i < |a| ==> Lower(a)[i] == LowerChar(a[i]);
  }

  /** Every platform has a file name of its own. */
  lemma FirmwareNameInjective(p: Platform, q: Platform, machineArch: string)
    requires FirmwareName(p, machineArch) == FirmwareName(q, machineArch)
    ensures p == q
  {
    var a := PlatformValue(p, machineArch);
    var b := PlatformValue(q, machineArch);
    assert Lower(a) == FirmwareName(p, machineArch)[10..];
    LowerEqual(a, b);
    SitlPlatformNameCases(machineArch);
    assert LowerChar(a[0]) == LowerChar(b[0]);
    assert |a| == 8 ==> LowerChar(a[7]) == LowerChar(b[7]);
  }

  /** firmware_path: the firmware folder and the platform's file name. */
  function FirmwarePath(f: Folders, p: Platform, machineArch: string): (r: Path)
    ensures |r| > 0 && r[|r| - 1] == FirmwareName(p, machineArch)
  {
    f.firmwareFolder + [FirmwareName(p, machineArch)]
  }

  /** default_firmware_path: the defaults folder and the same file name. */
  function DefaultFirmwarePath(f: Folders, p: Platform, machineArch: string): (r: Path)
    ensures |r| > 0 && r[|r| - 1] == FirmwareName(p, machineArch)
  {
    f.defaultsFolder + [FirmwareName(p, machineArch)]
  }

  /** The installed and the default firmware of a platform share the file
      name and differ only in the folder; different platforms never share
      an installed path. */
  lemma FirmwarePathsAgree(f: Folders, p: Platform, q: Platform, machineArch: string)
    ensures FirmwarePath(f, p, machineArch)[..|f.firmwareFolder|] == f.firmwareFolder
    ensures DefaultFirmwarePath(f, p, machineArch)[..|f.defaultsFolder|] == f.defaultsFolder
    ensures f.firmwareFolder == f.defaultsFolder ==> FirmwarePath(f, p, machineArch) == DefaultFirmwarePath(f, p, machineArch)
    ensures FirmwarePath(f, p, machineArch) == FirmwarePath(f, q, machineArch) ==> p == q
  {
    if FirmwarePath(f, p, machineArch) == FirmwarePath(f, q, machineArch) {
      var n := |f.firmwareFolder|;
      assert FirmwarePath(f, p, machineArch)[n] == FirmwareName(p, machineArch);
      FirmwareNameInjective(p, q, machineArch);
    }
  }

  // ------------------------------------------------------------ lookup maps

  /** get_correspondent_elf_arch. */
  function ElfArch(platformArch: string): (r: string)
    ensures platformArch == "x86_64" <==> r == "x64"
    ensures platformArch == "armv7l" <==> r == "ARM"
    ensures platformArch != "x86_64" && platformArch != "armv7l" <==> r == ""
  {
    if platformArch == "x86_64" then "x64"
    else if platformArch == "armv7l" then "ARM"
    else ""
  }

  /** A member of the decoder's BoardType or BoardSubType enumeration; two
      members of different enumerations are never equal. */
  datatype DecoderId = BoardTypeId(name: string) | BoardSubTypeId(name: string)

  /** get_correspondent_decoder_platform. */
  function DecoderPlatform(p: Platform): (r: DecoderId)
    ensures p == SITL <==> r == BoardTypeId("SITL")
    ensures p in {Navigator, NavigatorR3} <==> r == BoardSubTypeId("LINUX_NAVIGATOR")
    ensures p !in {SITL, Navigator, NavigatorR3} <==> r == BoardTypeId("EMPTY")
  {
    match p
    case SITL => BoardTypeId("SITL")
    case Navigator => BoardSubTypeId("LINUX_NAVIGATOR")
    case NavigatorR3 => BoardSubTypeId("LINUX_NAVIGATOR")
    case _ => BoardTypeId("EMPTY")
  }

  // -------------------------------------------------------------- validation

  /** What reading a file as an APJ gives: it cannot be read or parsed, or
      it is a JSON document whose "board_id" field may be missing. */
  datatype ApjContents = ApjUnreadable | ApjParsed(boardId: Option<int>)

  /** What reading a file as an ELF gives: not an ELF, or its machine
      architecture and what the firmware decoder makes of it (None when the
      decoder raises; else the board type and board subtype). */
  datatype ElfContents =
    | NotElf
    | ElfFile(machineArch: string, decoded: Option<(DecoderId, DecoderId)>)

  /** The readings of one file, and what the bootloader of the board
      reports as its board type. */
  datatype FileView = FileView(apj: ApjContents, elf: ElfContents, bootloaderBoardType: Result<int>)

  /** _validate_apj: every failure, including a missing board id (read as
      -1) and a mismatch, surfaces as InvalidFirmwareFile. */
  function ValidateApj(contents: ApjContents, boardType: int): (r: Outcome)
    ensures r.Pass? <==> contents.ApjParsed? && contents.boardId == Some(boardType) && boardType != -1
    ensures r.Fail? ==> r.error == InvalidFirmwareFile
  {
    if contents.ApjUnreadable? then Fail(InvalidFirmwareFile)
    else
      var firmBoardId := if contents.boardId.Some? then contents.boardId.value else -1;
      if firmBoardId == -1 then Fail(InvalidFirmwareFile)
      else if firmBoardId != boardType then Fail(InvalidFirmwareFile)
      else Pass
  }

  /** The platform check of _validate_elf: the board's decoder id is the
      firmware's board type or its board subtype. */
  predicate DecoderMatches(decoded: (DecoderId, DecoderId), p: Platform)
  {
    DecoderPlatform(p) == decoded.0 || DecoderPlatform(p) == decoded.1
  }

  /** _validate_elf as written: on a platform mismatch the exception object
      is built but never raised, so only the ELF reader, the architecture
      check and the decoder itself can fail the file. */
  function ValidateElfAsWritten(contents: ElfContents, runningArch: string, p: Platform): (r: Outcome)
    ensures r.Pass? <==> contents.ElfFile? && contents.machineArch == ElfArch(runningArch) && contents.decoded.Some?
    ensures r.Fail? ==> r.error == InvalidFirmwareFile
  {
    match contents
    case NotElf => Fail(InvalidFirmwareFile)
    case ElfFile(arch, decoded) =>
      if arch != ElfArch(runningArch) then Fail(InvalidFirmwareFile)
      else if decoded.None? then Fail(InvalidFirmwareFile)
      else Pass
  }

  /** _validate_elf as intended: a decoded firmware for another platform
      is refused too. */
  function ValidateElf(contents: ElfContents, runningArch: string, p: Platform): (r: Outcome)
    ensures r.Pass? <==> (contents.ElfFile? && contents.machineArch == ElfArch(runningArch)
                          && contents.decoded.Some? && DecoderMatches(contents.decoded.value, p))
    ensures r.Fail? ==> r.error == InvalidFirmwareFile
  {
    match contents
    case NotElf => Fail(InvalidFirmwareFile)
    case ElfFile(arch, decoded) =>
      if arch != ElfArch(runningArch) then Fail(InvalidFirmwareFile)
      else if decoded.None? then Fail(InvalidFirmwareFile)
      else if !DecoderMatches(decoded.value, p) then Fail(InvalidFirmwareFile)
      else Pass
  }

  /** On an x86_64 host a SITL build passes the as-written check for a
      Navigator, while the intended check refuses it. */
  lemma SitlFirmwareAcceptedForNavigator()
    ensures var sitlBuild := ElfFile("x64", Some((BoardTypeId("SITL"), BoardSubTypeId("NONE"))));
      ValidateElfAsWritten(sitlBuild, "x86_64", Navigator) == Pass
      && ValidateElf(sitlBuild, "x86_64", Navigator) == Fail(InvalidFirmwareFile)
  {
  }

  /** The intended check accepts exactly what the as-written one accepts
      and whose decoder ids match the platform. */
  lemma ValidateElfRefinesAsWritten(contents: ElfContents, runningArch: string, p: Platform)
    ensures ValidateElf(contents, runningArch, p).Pass? <==>
      ValidateElfAsWritten(contents, runningArch, p).Pass? && DecoderMatches(contents.decoded.value, p)
  {
  }

  /** validate_firmware: an Undefined platform is refused first; an APJ
      board needs a path to ask its bootloader for the expected board id;
      an ELF goes to the ELF check; any other format is unsupported. */
  function ValidateFirmware(view: FileView, board: FlightController, formats: map<Platform, FirmwareFormat>,
                            runningArch: string): (r: Outcome)
    ensures board.platform == Undefined ==> r == Fail(UndefinedPlatform)
    ensures board.platform != Undefined && board.platform !in formats ==> r == Fail(KeyError)
    ensures board.platform != Undefined && board.platform in formats && formats[board.platform] == APJ ==>
      (board.path.None? || board.path == Some("") ==> r == Fail(ValueError))
    ensures r.Pass? ==> board.platform in formats && board.platform != Undefined
    ensures r.Pass? && formats[board.platform] == APJ ==>
      view.bootloaderBoardType.Ok? && view.apj == ApjParsed(Some(view.bootloaderBoardType.value))
    ensures r.Pass? && formats[board.platform] == ELF ==> ValidateElf(view.elf, runningArch, board.platform).Pass?
  {
    if board.platform == Undefined then Fail(UndefinedPlatform)
    else if board.platform !in formats then Fail(KeyError)
    else match formats[board.platform]
      case APJ =>
        if board.path.None? || board.path.value == "" then Fail(ValueError)
        else if view.bootloaderBoardType.Err? then Fail(view.bootloaderBoardType.error)
        else ValidateApj(view.apj, view.bootloaderBoardType.value)
      case ELF =>
        ValidateElf(view.elf, runningArch, board.platform)
  }

  // ----------------------------------------------------------------- install

  /** The side effects of an install, in the order they happen. */
  datatype Effect =
    | AddRunPermission(file: Path)
    | Upload(port: string, file: Path)
    | Copy(source: Path, destination: Path)

  datatype InstallResult = InstallResult(outcome: Outcome, effects: seq<Effect>)

  /** What the uploader and the copy do: whether each would return. */
  datatype Transfer = Transfer(uploadSucceeds: bool, copySucceeds: bool)

  /** install_firmware as written: its first line compares the name
      `platform`, which is bound nowhere in the module (the standard module
      is imported as system_platform), so every call raises NameError
      before anything else happens. */
  function InstallFirmwareAsWritten(file: Path, board: FlightController, destination: Option<Path>): (r: InstallResult)
    ensures r == InstallResult(Fail(NameError), [])
  {
    InstallResult(Fail(NameError), [])
  }

  /** install_firmware with the board's platform compared: the file must
      exist; an ELF gets run permission before validation; a Pixhawk1 is
      flashed through its port; an ELF is copied to the destination; any
      error of those two steps becomes FirmwareInstallFail; any other
      format is unsupported. */
  function InstallFirmware(file: Path, view: FileView, files: set<Path>, board: FlightController,
                           destination: Option<Path>, formats: map<Platform, FirmwareFormat>,
                           runningArch: string, transfer: Transfer): (r: InstallResult)
  {
    if board.platform == Undefined then InstallResult(Fail(UndefinedPlatform), [])
    else if file !in files then InstallResult(Fail(InvalidFirmwareFile), [])
    else if board.platform !in formats then InstallResult(Fail(KeyError), [])
    else
      var format := formats[board.platform];
      var permission := if format == ELF then [AddRunPermission(file)] else [];
      var validation := ValidateFirmware(view, board, formats, runningArch);
      if validation.Fail? then InstallResult(validation, permission)
      else if board.platform == Pixhawk1 then
        if board.path.None? || board.path.value == "" then InstallResult(Fail(FirmwareInstallFail), permission)
        else if !transfer.uploadSucceeds then
          InstallResult(Fail(FirmwareInstallFail), permission + [Upload(board.path.value, file)])
        else InstallResult(Pass, permission + [Upload(board.path.value, file)])
      else if format == ELF then
        if destination.None? then InstallResult(Fail(FirmwareInstallFail), permission)
        else if !transfer.copySucceeds then
          InstallResult(Fail(FirmwareInstallFail), permission + [Copy(file, destination.value)])
        else InstallResult(Pass, permission + [Copy(file, destination.value)])
      else InstallResult(Fail(UnsupportedPlatform), permission)
  }

  /** Whether an effect writes firmware to the board or to disk. */
  predicate Installs(e: Effect)
  {
    e.Upload? || e.Copy?
  }

  /** Install never writes an invalid firmware: anything uploaded or copied
      passed validation; an ELF gets run permission before anything else;
      and a successful install wrote the file exactly once, last. */
  lemma InstallValidatesFirst(file: Path, view: FileView, files: set<Path>, board: FlightController,
                              destination: Option<Path>, formats: map<Platform, FirmwareFormat>,
                              runningArch: string, transfer: Transfer)
    ensures var r := InstallFirmware(file, view, files, board, destination, formats, runningArch, transfer);
      ((exists i :: 0 <= i < |r.effects| && Installs(r.effects[i])) ==>
         file in files && ValidateFirmware(view, board, formats, runningArch).Pass?)
      && (|r.effects| > 0 && board.platform in formats && formats[board.platform] == ELF ==>
            r.effects[0] == AddRunPermission(file))
      && (r.outcome.Pass? ==> (|r.effects| > 0 && Installs(r.effects[|r.effects| - 1])
                               && forall i :: 0 <= i < |r.effects| - 1 ==> !Installs(r.effects[i])))
  {
  }

  /** The outcome of a Pixhawk1 install or of an ELF install is Pass or
      FirmwareInstallFail once validation has passed; any other platform
      that validates (an APJ board other than the Pixhawk1) is unsupported. */
  lemma InstallErrorClassification(file: Path, view: FileView, files: set<Path>, board: FlightController,
                                   destination: Option<Path>, formats: map<Platform, FirmwareFormat>,
                                   runningArch: string, transfer: Transfer)
    requires file in files && ValidateFirmware(view, board, formats, runningArch).Pass?
    ensures var r := InstallFirmware(file, view, files, board, destination, formats, runningArch, transfer);
      (board.platform == Pixhawk1 || formats[board.platform] == ELF ==>
         r.outcome.Pass? || r.outcome.error == FirmwareInstallFail)
      && (board.platform != Pixhawk1 && formats[board.platform] == APJ ==> r.outcome == Fail(UnsupportedPlatform))
      && (formats[board.platform] == ELF && board.platform != Pixhawk1 ==>
            (r.outcome.Pass? <==> destination.Some? && transfer.copySucceeds))
  {
  }

  /** The install the SITL test performs fails as written and succeeds
      once the board's platform is compared. */
  lemma InstallRaisesNameError(file: Path, view: FileView, dest: Path, formats: map<Platform, FirmwareFormat>,
                               runningArch: string)
    requires formats == map[SITL := ELF]
    requires view.elf == ElfFile(ElfArch(runningArch), Some((BoardTypeId("SITL"), BoardSubTypeId("NONE"))))
    ensures var board := FlightController("SITL", Some("ArduPilot Team"), SITL, None);
      InstallFirmwareAsWritten(file, board, Some(dest)).outcome == Fail(NameError)
      && InstallFirmware(file, view, {file}, board, Some(dest), formats, runningArch, Transfer(false, true)).outcome == Pass
  {
  }

  // ------------------------------------------------------ FirmwareManager

  /** is_firmware_installed: serial boards are taken to have firmware; an
      ELF platform has it when its firmware file exists; any other format
      raises UnsupportedPlatform. */
  function IsFirmwareInstalled(f: Folders, board: FlightController, files: set<Path>,
                               formats: map<Platform, FirmwareFormat>, machineArch: string): (r: Result<bool>)
    ensures BoardType(board) == SerialType ==> r == Ok(true)
    ensures BoardType(board) != SerialType && board.platform in formats && formats[board.platform] == ELF ==>
      r == Ok(FirmwarePath(f, board.platform, machineArch) in files)
    ensures r.Err? <==> BoardType(board) != SerialType && (board.platform !in formats || formats[board.platform] != ELF)
    ensures r.Err? ==> r.error in {KeyError, UnsupportedPlatform}
  {
    if BoardType(board) == SerialType then Ok(true)
    else if board.platform !in formats then Err(KeyError)
    else if formats[board.platform] == ELF then Ok(FirmwarePath(f, board.platform, machineArch) in files)
    else Err(UnsupportedPlatform)
  }

  /** A downloadable firmware: its version name and URL. */
  datatype Firmware = Firmware(name: string, url: string)

  /** The firmwares of the versions whose URL lookup returned, in order. */
  function FirmwaresWithUrl(versions: seq<string>, urlOf: string -> Option<string>): (r: seq<Firmware>)
    ensures |r| <= |versions|
    ensures forall k :: 0 <= k < |r| ==> r[k].name in versions && urlOf(r[k].name) == Some(r[k].url)
    ensures forall v :: v in versions && urlOf(v).Some? ==> Firmware(v, urlOf(v).value) in r
    ensures r == [] <==> forall v :: v in versions ==> urlOf(v).None?
  {
    if versions == [] then []
    else
      var rest := FirmwaresWithUrl(versions[1..], urlOf);
      assert forall v :: v in versions[1..] ==> v in versions;
      assert forall v :: v in versions ==> v == versions[0] || v in versions[1..];
      if urlOf(versions[0]).Some? then [Firmware(versions[0], urlOf(versions[0]).value)] + rest else rest
  }

  /** get_available_firmwares: no versions at all, or no version whose
      URL lookup returned, raises NoVersionAvailable; otherwise the
      firmwares in version order. */
  method GetAvailableFirmwares(versions: seq<string>, urlOf: string -> Option<string>)
    returns (r: Result<seq<Firmware>>)
    ensures r.Err? <==> forall v :: v in versions ==> urlOf(v).None?
    ensures r.Err? ==> r.error == NoVersionAvailable
    ensures r.Ok? ==> r.value == FirmwaresWithUrl(versions, urlOf) && |r.value| > 0
  {
    if versions == [] {
      return Err(NoVersionAvailable);
    }
    var firmwares: seq<Firmware> := [];
    var i := 0;
    while i < |versions|
      invariant 0 <= i <= |versions|
      invariant firmwares + FirmwaresWithUrl(versions[i..], urlOf) == FirmwaresWithUrl(versions, urlOf)
    {
      assert versions[i..][1..] == versions[i + 1..];
      var url := urlOf(versions[i]);
      if url.Some? {
        firmwares := firmwares + [Firmware(versions[i], url.value)];
      }
      i := i + 1;
    }
    assert versions[i..] == [];
    if firmwares == [] {
      return Err(NoVersionAvailable);
    }
    return Ok(firmwares);
  }

  /** install_firmware_from_file: a Pixhawk1 is flashed without a
      destination, any other board installs to its firmware path; every
      error is reported as FirmwareInstallFail. */
  function InstallFirmwareFromFile(f: Folders, file: Path, view: FileView, files: set<Path>, board: FlightController,
                                   formats: map<Platform, FirmwareFormat>, machineArch: string,
                                   transfer: Transfer): (r: InstallResult)
    ensures r.outcome.Fail? ==> r.outcome.error == FirmwareInstallFail
    ensures var destination := if board.platform == Pixhawk1 then None
                               else Some(FirmwarePath(f, board.platform, machineArch));
      var i := InstallFirmware(file, view, files, board, destination, formats, machineArch, transfer);
      r.effects == i.effects && (r.outcome.Pass? <==> i.outcome.Pass?)
  {
    var destination := if board.platform == Pixhawk1 then None else Some(FirmwarePath(f, board.platform, machineArch));
    var i := InstallFirmware(file, view, files, board, destination, formats, machineArch, transfer);
    if i.outcome.Fail? then InstallResult(Fail(FirmwareInstallFail), i.effects) else i
  }

  /** A non-Pixhawk1 ELF board that installs successfully has its file
      copied to the firmware path, which is then the path is_firmware_installed
      looks at. */
  lemma InstalledElfIsWhereTheCheckLooks(f: Folders, file: Path, view: FileView, files: set<Path>,
                                         board: FlightController, formats: map<Platform, FirmwareFormat>,
                                         machineArch: string, transfer: Transfer)
    requires board.platform != Pixhawk1 && board.platform in formats && formats[board.platform] == ELF
    requires InstallFirmwareFromFile(f, file, view, files, board, formats, machineArch, transfer).outcome.Pass?
    ensures var r := InstallFirmwareFromFile(f, file, view, files, board, formats, machineArch, transfer);
      r.effects[|r.effects| - 1] == Copy(file, FirmwarePath(f, board.platform, machineArch))
  {
  }

  /** restore_default_firmware: NoDefaultFirmwareAvailable when the default
      file does not exist, else an install of it. */
  function RestoreDefaultFirmware(f: Folders, view: FileView, files: set<Path>, board: FlightController,
                                  formats: map<Platform, FirmwareFormat>, machineArch: string,
                                  transfer: Transfer): (r: InstallResult)
    ensures DefaultFirmwarePath(f, board.platform, machineArch) !in files ==>
      r == InstallResult(Fail(NoDefaultFirmwareAvailable), [])
    ensures DefaultFirmwarePath(f, board.platform, machineArch) in files ==>
      r == InstallFirmwareFromFile(f, DefaultFirmwarePath(f, board.platform, machineArch), view, files, board,
                                   formats, machineArch, transfer)
    ensures r.outcome.Fail? ==> r.outcome.error in {NoDefaultFirmwareAvailable, FirmwareInstallFail}
  {
    var path := DefaultFirmwarePath(f, board.platform, machineArch);
    if path !in files then InstallResult(Fail(NoDefaultFirmwareAvailable), [])
    else InstallFirmwareFromFile(f, path, view, files, board, formats, machineArch, transfer)
  }
}
