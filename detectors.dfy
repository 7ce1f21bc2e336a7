/** What the three board detectors have in common: I2C reads at a bus and
    address, and serial ports as pyserial's comports() describes them.
    Whether a read returns is an input (`readable`); so are the list of
    ports and whether the process runs as root. */
module Probes {
  import opened Base
  import opened Typedefs

  /** `SMBus(bus).read_byte_data(address, 0)`. */
  datatype Read = Read(bus: int, address: int)

  /** A probe is a sequence of reads, any of which may raise; it succeeds
      when every one of them returns. */
  predicate ProbeSucceeds(probe: seq<Read>, readable: set<Read>)
  {
    forall i :: 0 <= i < |probe| ==> probe[i] in readable
  }

  /** The fields of a comports() entry that the detectors read. */
  datatype SerialPort = SerialPort(
    name: string,
    device: string,
    product: Option<string>,
    manufacturer: Option<string>,
    usbDevicePath: Option<string>)

  /** The board a Navigator probe reports. */
  function NavigatorBoard(p: Platform): FlightController
  {
    FlightController("Navigator", Some("Blue Robotics"), p, None)
  }
}

/** Board detection of flight_controller/Detector.py: the Navigator R4
    probe, then the R3 probe if R4 failed, then the serial boards. */
module FlightControllerDetector {
  import opened Base
  import opened Typedefs
  import opened Probes

  /** ADS1115 on bus 1, then PCA9685 on bus 4. */
  const R3Reads: seq<Read> := [Read(1, 0x48), Read(4, 0x40)]

  /** ADS1115, AK09915 and BME280 on bus 1, then PCA9685 on bus 4. */
  const R4Reads: seq<Read> := [Read(1, 0x48), Read(1, 0x0C), Read(1, 0x76), Read(4, 0x40)]

  /** get_navigator_r3_if_connected. */
  function NavigatorR3IfConnected(readable: set<Read>): (r: Option<FlightController>)
    ensures r.Some? <==> Read(1, 0x48) in readable && Read(4, 0x40) in readable
    ensures r.Some? ==> (r.value.platform == NavigatorR3 && r.value.name == "Navigator"
                         && r.value.manufacturer == Some("Blue Robotics"))
  {
    assert R3Reads[0] == Read(1, 0x48) && R3Reads[1] == Read(4, 0x40);
    if ProbeSucceeds(R3Reads, readable) then Some(NavigatorBoard(NavigatorR3)) else None
  }

  /** get_navigator_r4_if_connected. */
  function NavigatorR4IfConnected(readable: set<Read>): (r: Option<FlightController>)
    ensures r.Some? <==> (Read(1, 0x48) in readable && Read(1, 0x0C) in readable
                          && Read(1, 0x76) in readable && Read(4, 0x40) in readable)
    ensures r.Some? ==> (r.value.platform == Navigator && r.value.name == "Navigator"
                         && r.value.manufacturer == Some("Blue Robotics"))
  {
    assert R4Reads[0] == Read(1, 0x48) && R4Reads[1] == Read(1, 0x0C);
    assert R4Reads[2] == Read(1, 0x76) && R4Reads[3] == Read(4, 0x40);
    if ProbeSucceeds(R4Reads, readable) then Some(NavigatorBoard(Navigator)) else None
  }

  /** R4 reads every sensor R3 reads, so a board that passes the R4 probe
      would also pass the R3 one: R4 has to be tried first. */
  lemma R4ProbeCoversR3(readable: set<Read>)
    requires ProbeSucceeds(R4Reads, readable)
    ensures ProbeSucceeds(R3Reads, readable)
  {
    assert R4Reads[0] == R3Reads[0] && R4Reads[3] == R3Reads[1];
  }

  /** The navigator detect() reports, if any: only as root, R4 first, R3
      only when R4 failed. */
  function DetectedNavigator(isRoot: bool, readable: set<Read>): (r: Option<FlightController>)
    ensures !isRoot ==> r.None?
    ensures isRoot && NavigatorR4IfConnected(readable).Some? ==> r == NavigatorR4IfConnected(readable)
    ensures isRoot && NavigatorR4IfConnected(readable).None? ==> r == NavigatorR3IfConnected(readable)
  {
    if !isRoot then None
    else if NavigatorR4IfConnected(readable).Some? then NavigatorR4IfConnected(readable)
    else NavigatorR3IfConnected(readable)
  }

  /** is_valid_flight_controller: `"PX4" in port.product` raises TypeError
      when a 3D Robotics port has no product string. */
  function IsValidFlightController(port: SerialPort): (r: Result<bool>)
    ensures r.Err? <==> port.manufacturer == Some("3D Robotics") && port.product.None?
    ensures r.Err? ==> r.error == TypeError
    ensures r == Ok(true) <==> (port.manufacturer == Some("ArduPilot")
      || (port.manufacturer == Some("3D Robotics") && port.product.Some? && Contains(port.product.value, "PX4")))
  {
    if port.manufacturer == Some("ArduPilot") then Ok(true)
    else if port.manufacturer == Some("3D Robotics") then
      if port.product.None? then Err(TypeError) else Ok(Contains(port.product.value, "PX4"))
    else Ok(false)
  }

  /** An accepted port without a product string cannot become a board:
      FlightController's `name` must be a str, and validation raises
      ValueError. */
  predicate Raises(port: SerialPort)
  {
    IsValidFlightController(port).Err? || (IsValidFlightController(port) == Ok(true) && port.product.None?)
  }

  predicate Accepted(port: SerialPort)
  {
    IsValidFlightController(port) == Ok(true) && port.product.Some?
  }

  /** The board made of an accepted port. */
  function SerialBoard(port: SerialPort): FlightController
    requires port.product.Some?
  {
    FlightController(port.product.value, port.manufacturer, Pixhawk1, Some(port.device))
  }

  /** detect_serial_flight_controllers: the list comprehension over the
      ports in comports() order; the first port that raises ends it. */
  function SerialFlightControllers(ports: seq<SerialPort>): (r: Result<seq<FlightController>>)
    ensures r.Err? <==> exists i :: 0 <= i < |ports| && Raises(ports[i])
    ensures r.Ok? ==> |r.value| <= |ports|
    ensures r.Ok? ==> forall i :: 0 <= i < |r.value| ==>
      r.value[i].platform == Pixhawk1 && r.value[i].path.Some?
    ensures r.Ok? ==> forall i :: 0 <= i < |ports| && Accepted(ports[i]) ==> SerialBoard(ports[i]) in r.value
    ensures r.Ok? ==> forall b :: b in r.value ==> exists i :: 0 <= i < |ports| && Accepted(ports[i]) && b == SerialBoard(ports[i])
  {
    if ports == [] then Ok([])
    else
      var rest := SerialFlightControllers(ports[1..]);
      assert forall i :: 1 <= i < |ports| ==> ports[i] == ports[1..][i - 1];
      match IsValidFlightController(ports[0])
      case Err(e) => Err(e)
      case Ok(valid) =>
        if !valid then rest
        else if ports[0].product.None? then Err(ValueError)
        else if rest.Err? then rest
        else Ok([SerialBoard(ports[0])] + rest.value)
  }

  /** detect: the navigator, if one is found, then the serial boards. */
  method Detect(isRoot: bool, readable: set<Read>, ports: seq<SerialPort>)
    returns (r: Result<seq<FlightController>>)
    ensures r.Err? <==> SerialFlightControllers(ports).Err?
    ensures r.Ok? ==> r.value == (if DetectedNavigator(isRoot, readable).Some?
                                  then [DetectedNavigator(isRoot, readable).value] else [])
                                 + SerialFlightControllers(ports).value
    ensures r.Ok? ==> forall i :: 0 < i < |r.value| ==> r.value[i].platform == Pixhawk1
    ensures r.Ok? && !isRoot ==> forall i :: 0 <= i < |r.value| ==> r.value[i].platform == Pixhawk1
  {
    var available: seq<FlightController> := [];
    if isRoot {
      var r4 := NavigatorR4IfConnected(readable);
      if r4.Some? {
        available := available + [r4.value];
      } else {
        var r3 := NavigatorR3IfConnected(readable);
        if r3.Some? {
          available := available + [r3.value];
        }
      }
    }
    var serial := SerialFlightControllers(ports);
    if serial.Err? {
      return Err(serial.error);
    }
    available := available + serial.value;
    return Ok(available);
  }
}

/** Board detection of ardupilot_manager/flight_controller_detector/Detector.py:
    one Navigator probe, serial ports classified by product and
    deduplicated by USB device path, and an optional SITL entry. */
module BoardDetector {
  import opened Base
  import opened Typedefs
  import opened Probes

  const NavigatorReads: seq<Read> := [Read(1, 0x48), Read(1, 0x0C), Read(1, 0x76), Read(4, 0x40)]

  /** detect_navigator: all four sensors must answer. */
  function DetectNavigator(readable: set<Read>): (r: Option<FlightController>)
    ensures r.Some? <==> (Read(1, 0x48) in readable && Read(1, 0x0C) in readable
                          && Read(1, 0x76) in readable && Read(4, 0x40) in readable)
    ensures r.Some? ==> r.value.platform == Navigator && TypeOf(r.value.platform) == LinuxType
  {
    assert NavigatorReads[0] == Read(1, 0x48) && NavigatorReads[1] == Read(1, 0x0C);
    assert NavigatorReads[2] == Read(1, 0x76) && NavigatorReads[3] == Read(4, 0x40);
    if ProbeSucceeds(NavigatorReads, readable) then Some(NavigatorBoard(Navigator)) else None
  }

  predicate IsPixhawk1Product(product: Option<string>)
  {
    product == Some("Pixhawk1") || product == Some("PX4 FMU v2.x")
  }

  predicate IsPixhawk4Product(product: Option<string>)
  {
    product == Some("Pixhawk4") || product == Some("PX4 FMU v5.x")
  }

  /** The GenericSerial rule: a known manufacturer and a non-empty product
      string without "BL" (a bootloader port). */
  predicate IsGenericProduct(port: SerialPort)
  {
    (port.manufacturer == Some("ArduPilot") || port.manufacturer == Some("3D Robotics"))
    && port.product.Some? && port.product.value != "" && !Contains(port.product.value, "BL")
  }

  /** detect_serial_platform: the product names first, then the generic
      rule. */
  function DetectSerialPlatform(port: SerialPort): (r: Option<Platform>)
    ensures r == Some(Pixhawk1) <==> IsPixhawk1Product(port.product)
    ensures r == Some(Pixhawk4) <==> IsPixhawk4Product(port.product)
    ensures r == Some(GenericSerial) <==>
      !IsPixhawk1Product(port.product) && !IsPixhawk4Product(port.product) && IsGenericProduct(port)
    ensures r.Some? ==> TypeOf(r.value) == SerialType
  {
    if IsPixhawk1Product(port.product) then Some(Pixhawk1)
    else if IsPixhawk4Product(port.product) then Some(Pixhawk4)
    else if IsGenericProduct(port) then Some(GenericSerial)
    else None
  }

  /** Some port of the list has this USB device path. */
  predicate HasPath(ports: seq<SerialPort>, path: Option<string>)
  {
    exists i :: 0 <= i < |ports| && ports[i].usbDevicePath == path
  }

  /** The ports kept by the dedup loop over `ports`: a port is appended
      unless an earlier kept port has its USB device path. */
  function KeepFirstPerPath(ports: seq<SerialPort>): seq<SerialPort>
    decreases |ports|
  {
    if ports == [] then []
    else
      var kept := KeepFirstPerPath(ports[..|ports| - 1]);
      if HasPath(kept, ports[|ports| - 1].usbDevicePath) then kept else kept + [ports[|ports| - 1]]
  }

  /** Kept ports come from the list, every path of the list is kept once,
      and no two kept ports share a path. */
  lemma {:induction false} KeepFirstPerPathProperties(ports: seq<SerialPort>)
    ensures var kept := KeepFirstPerPath(ports);
      (forall k :: 0 <= k < |kept| ==> kept[k] in ports)
      && (forall i :: 0 <= i < |ports| ==> HasPath(kept, ports[i].usbDevicePath))
      && (forall a, b :: 0 <= a < b < |kept| ==> kept[a].usbDevicePath != kept[b].usbDevicePath)
    decreases |ports|
  {
    if ports != [] {
      var init := ports[..|ports| - 1];
      var last := ports[|ports| - 1];
      KeepFirstPerPathProperties(init);
      var prev := KeepFirstPerPath(init);
      var kept := KeepFirstPerPath(ports);
      forall k | 0 <= k < |kept| ensures kept[k] in ports {
        if k < |prev| {
          assert kept[k] == prev[k];
          assert prev[k] in init;
        } else {
          assert kept[k] == last;
        }
      }
      forall i | 0 <= i < |ports| ensures HasPath(kept, ports[i].usbDevicePath) {
        if i < |ports| - 1 {
          assert ports[i] == init[i];
          var j :| 0 <= j < |prev| && prev[j].usbDevicePath == ports[i].usbDevicePath;
          assert kept[j] == prev[j];
        } else if !HasPath(prev, last.usbDevicePath) {
          assert kept[|kept| - 1] == last;
        }
      }
    }
  }

  /** The first port with a given path is the one kept for it. */
  lemma {:induction false} FirstPortIsKept(ports: seq<SerialPort>, j: int)
    requires 0 <= j < |ports|
    requires forall i :: 0 <= i < j ==> ports[i].usbDevicePath != ports[j].usbDevicePath
    ensures ports[j] in KeepFirstPerPath(ports)
    decreases |ports|
  {
    var init := ports[..|ports| - 1];
    var prev := KeepFirstPerPath(init);
    if j < |ports| - 1 {
      assert init[j] == ports[j];
      FirstPortIsKept(init, j);
    } else {
      KeepFirstPerPathProperties(init);
      forall k | 0 <= k < |prev| ensures prev[k].usbDevicePath != ports[j].usbDevicePath {
        assert prev[k] in init;
        var i :| 0 <= i < |init| && init[i] == prev[k];
        assert ports[i] == init[i];
      }
      assert KeepFirstPerPath(ports) == prev + [ports[j]];
    }
  }

  /** The dedup loop of detect_serial_flight_controllers. */
  method UniqueSerialDevices(sortedPorts: seq<SerialPort>) returns (unique: seq<SerialPort>)
    ensures unique == KeepFirstPerPath(sortedPorts)
  {
    unique := [];
    var i := 0;
    while i < |sortedPorts|
      invariant 0 <= i <= |sortedPorts|
      invariant unique == KeepFirstPerPath(sortedPorts[..i])
    {
      var port := sortedPorts[i];
      assert sortedPorts[..i + 1][..i] == sortedPorts[..i];
      if !HasPath(unique, port.usbDevicePath) {
        unique := unique + [port];
      }
      i := i + 1;
    }
    assert sortedPorts[..|sortedPorts|] == sortedPorts;
  }

  /** The board name: the product string unless it is missing or empty,
      then the port name. */
  function PortBoardName(port: SerialPort): string
  {
    if port.product.Some? && port.product.value != "" then port.product.value else port.name
  }

  /** The comprehension over the deduplicated ports: only classified
      ports become boards. */
  function ClassifiedBoards(ports: seq<SerialPort>): (r: seq<FlightController>)
    ensures |r| <= |ports|
    ensures forall k :: 0 <= k < |r| ==> TypeOf(r[k].platform) == SerialType && r[k].path.Some?
    ensures forall i :: 0 <= i < |ports| && DetectSerialPlatform(ports[i]).Some? ==>
      FlightController(PortBoardName(ports[i]), ports[i].manufacturer,
                       DetectSerialPlatform(ports[i]).value, Some(ports[i].device)) in r
  {
    if ports == [] then []
    else
      var rest := ClassifiedBoards(ports[1..]);
      assert forall i :: 1 <= i < |ports| ==> ports[i] == ports[1..][i - 1];
      var p := DetectSerialPlatform(ports[0]);
      if p.None? then rest
      else [FlightController(PortBoardName(ports[0]), ports[0].manufacturer, p.value, Some(ports[0].device))] + rest
  }

  /** The sort key of the ports: their name. */
  function PortName(port: SerialPort): string
  {
    port.name
  }

  /** detect_serial_flight_controllers: sort the ports by name, keep the
      first per USB device path, classify. */
  method DetectSerialFlightControllers(ports: seq<SerialPort>) returns (r: seq<FlightController>)
    ensures r == ClassifiedBoards(KeepFirstPerPath(SortBy(ports, PortName)))
  {
    var sortedPorts := SortBy(ports, PortName);
    var unique := UniqueSerialDevices(sortedPorts);
    return ClassifiedBoards(unique);
  }

  /** detect_sitl. */
  function SitlBoard(): (b: FlightController)
    ensures TypeOf(b.platform) == SITLType
  {
    FlightController("SITL", Some("ArduPilot Team"), SITL, None)
  }

  /** Navigator first, serial boards in between, SITL last. */
  lemma DetectedOrder(found: seq<FlightController>, serial: seq<FlightController>, sitl: seq<FlightController>)
    requires |found| <= 1 && |sitl| <= 1
    requires forall k :: 0 <= k < |serial| ==> TypeOf(serial[k].platform) == SerialType
    requires forall k :: 0 <= k < |sitl| ==> sitl[k].platform == SITL
    requires forall k :: 0 <= k < |found| ==> found[k].platform == Navigator
    ensures var r := found + serial + sitl;
      && (forall i :: 0 < i < |r| ==> r[i].platform != Navigator)
      && (forall i :: 0 <= i < |r| && r[i].platform == SITL ==> i == |r| - 1 && |sitl| == 1)
  {
    var r := found + serial + sitl;
    forall i | 0 <= i < |r|
      ensures i > 0 ==> r[i].platform != Navigator
      ensures r[i].platform == SITL ==> i == |r| - 1 && |sitl| == 1
    {
      if i < |found| {
        assert r[i] == found[i];
      } else if i < |found| + |serial| {
        assert r[i] == serial[i - |found|];
      } else {
        assert r[i] == sitl[i - |found| - |serial|];
      }
    }
  }

  /** detect: nothing at all without root; otherwise the navigator, the
      serial boards and, last, SITL when asked for. */
  method Detect(isRoot: bool, readable: set<Read>, ports: seq<SerialPort>, includeSitl: bool)
    returns (r: seq<FlightController>)
    ensures !isRoot ==> r == []
    ensures isRoot ==> r == (if DetectNavigator(readable).Some? then [DetectNavigator(readable).value] else [])
                            + ClassifiedBoards(KeepFirstPerPath(SortBy(ports, PortName)))
                            + (if includeSitl then [SitlBoard()] else [])
    ensures forall i :: 0 < i < |r| ==> r[i].platform != Navigator
    ensures forall i :: 0 <= i < |r| && r[i].platform == SITL ==> i == |r| - 1 && includeSitl
    ensures isRoot && includeSitl ==> |r| > 0 && r[|r| - 1] == SitlBoard()
  {
    if !isRoot {
      return [];
    }
    var navigator := DetectNavigator(readable);
    var found: seq<FlightController> := if navigator.Some? then [navigator.value] else [];
    var serial := DetectSerialFlightControllers(ports);
    var sitl: seq<FlightController> := if includeSitl then [SitlBoard()] else [];
    DetectedOrder(found, serial, sitl);
    var available := found + serial + sitl;
    return available;
  }
}

/** The oldest detector (flight_controller_detector/Detector.py): a
    navigator and a serial board, each reported as a kind and a path. */
module LegacyDetector {
  import opened Probes

  datatype ControllerKind = SerialController | NavigatorController

  /** PCA9685 then ADS1115, both on bus 1. */
  const NavigatorReads: seq<Read> := [Read(1, 0x40), Read(1, 0x48)]

  /** The fixed device path of a serial autopilot. */
  const AutopilotPath: string := "/dev/autopilot"

  /** detect_navigator: the string is always empty. */
  function DetectNavigator(readable: set<Read>): (r: (bool, string))
    ensures r.0 <==> Read(1, 0x40) in readable && Read(1, 0x48) in readable
    ensures r.1 == ""
  {
    assert NavigatorReads[0] == Read(1, 0x40) && NavigatorReads[1] == Read(1, 0x48);
    if ProbeSucceeds(NavigatorReads, readable) then (true, "") else (false, "")
  }

  /** detect_serial_flight_controller: found iff the device path exists. */
  function DetectSerialFlightController(autopilotExists: bool): (r: (bool, string))
    ensures r.0 == autopilotExists
    ensures r.0 ==> r.1 == AutopilotPath
    ensures !r.0 ==> r.1 == ""
  {
    if autopilotExists then (true, AutopilotPath) else (false, "")
  }

  /** detect: at most one navigator (only as root), then at most one
      serial board. */
  method Detect(isRoot: bool, readable: set<Read>, autopilotExists: bool)
    returns (r: seq<(ControllerKind, string)>)
    ensures r == (if isRoot && Read(1, 0x40) in readable && Read(1, 0x48) in readable
                  then [(NavigatorController, "")] else [])
               + (if autopilotExists then [(SerialController, AutopilotPath)] else [])
  {
    var available: seq<(ControllerKind, string)> := [];
    if isRoot {
      var (found, path) := DetectNavigator(readable);
      if found {
        available := available + [(NavigatorController, path)];
      }
    }
    var (found, path) := DetectSerialFlightController(autopilotExists);
    if found {
      available := available + [(SerialController, path)];
    }
    return available;
  }
}
