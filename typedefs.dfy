/** The enumerations and records shared by the flight-controller manager:
    SITL frames, vehicles, platform kinds, boards, firmware formats and
    MAVLink endpoint kinds (ardupilot_manager/typedefs.py). A Python str-Enum
    member compares and sorts by its value string, so each enumeration here
    comes with the function giving that value. */
module Typedefs {
  import opened Base

  /** Valid SITL frame types. */
  datatype SITLFrame =
    | Quadplane | Xplane | Firefly | PlusConfig | Quad | Copter | XConfig
    | Bfxrev | Bfx | Djix | Cwx | Hexa | HexaCwx | HexaDji | Octa | OctaCwx
    | OctaDji | OctaQuadCwx | DodecaHexa | Tri | YSix | Heli | HeliDual
    | HeliCompound | Singlecopter | Coaxcopter | Rover | Balancebot | Sailboat
    | Motorboat | Crrcsim | Jsbsim | Flightaxis | Gazebo | LastLetter | Tracker
    | Balloon | Plane | Calibration | Vectored | Vectored6dof | Silentwings
    | Morse | Airsim | Scrimmage | Webots | Json | UndefinedFrame

  function FrameValue(f: SITLFrame): string
  {
    match f
    case Quadplane => "quadplane"
    case Xplane => "xplane"
    case Firefly => "firefly"
    case PlusConfig => "+"
    case Quad => "quad"
    case Copter => "copter"
    case XConfig => "x"
    case Bfxrev => "bfxrev"
    case Bfx => "bfx"
    case Djix => "djix"
    case Cwx => "cwx"
    case Hexa => "hexa"
    case HexaCwx => "hexa-cwx"
    case HexaDji => "hexa-dji"
    case Octa => "octa"
    case OctaCwx => "octa-cwx"
    case OctaDji => "octa-dji"
    case OctaQuadCwx => "octa-quad-cwx"
    case DodecaHexa => "dodeca-hexa"
    case Tri => "tri"
    case YSix => "y6"
    case Heli => "heli"
    case HeliDual => "heli-dual"
    case HeliCompound => "heli-compound"
    case Singlecopter => "singlecopter"
    case Coaxcopter => "coaxcopter"
    case Rover => "rover"
    case Balancebot => "balancebot"
    case Sailboat => "sailboat"
    case Motorboat => "motorboat"
    case Crrcsim => "crrcsim"
    case Jsbsim => "jsbsim"
    case Flightaxis => "flightaxis"
    case Gazebo => "gazebo"
    case LastLetter => "last_letter"
    case Tracker => "tracker"
    case Balloon => "balloon"
    case Plane => "plane"
    case Calibration => "calibration"
    case Vectored => "vectored"
    case Vectored6dof => "vectored_6dof"
    case Silentwings => "silentwings"
    case Morse => "morse"
    case Airsim => "airsim"
    case Scrimmage => "scrimmage"
    case Webots => "webots"
    case Json => " JSON"
    case UndefinedFrame => " undefined"
  }

  /** A str-Enum member is falsy only when its value is empty: no frame is,
      so `not frame` holds exactly when no frame was set. */
  lemma FrameValueNonEmpty(f: SITLFrame)
    ensures |FrameValue(f)| > 0
  {
    match f
    case Quadplane =>
    case Xplane =>
    case Firefly =>
    case PlusConfig =>
    case Quad =>
    case Copter =>
    case XConfig =>
    case Bfxrev =>
    case Bfx =>
    case Djix =>
    case Cwx =>
    case Hexa =>
    case HexaCwx =>
    case HexaDji =>
    case Octa =>
    case OctaCwx =>
    case OctaDji =>
    case OctaQuadCwx =>
    case DodecaHexa =>
    case Tri =>
    case YSix =>
    case Heli =>
    case HeliDual =>
    case HeliCompound =>
    case Singlecopter =>
    case Coaxcopter =>
    case Rover =>
    case Balancebot =>
    case Sailboat =>
    case Motorboat =>
    case Crrcsim =>
    case Jsbsim =>
    case Flightaxis =>
    case Gazebo =>
    case LastLetter =>
    case Tracker =>
    case Balloon =>
    case Plane =>
    case Calibration =>
    case Vectored =>
    case Vectored6dof =>
    case Silentwings =>
    case Morse =>
    case Airsim =>
    case Scrimmage =>
    case Webots =>
    case Json =>
    case UndefinedFrame =>
  }

  /** Valid ArduPilot vehicle types, as named on the firmware manifest. */
  datatype Vehicle = Sub | RoverVehicle | PlaneVehicle | CopterVehicle

  function VehicleValue(v: Vehicle): string
  {
    match v
    case Sub => "Sub"
    case RoverVehicle => "Rover"
    case PlaneVehicle => "Plane"
    case CopterVehicle => "Copter"
  }

  /** Distinct vehicles are spelled differently on the manifest. */
  lemma VehicleValueInjective(a: Vehicle, b: Vehicle)
    ensures VehicleValue(a) == VehicleValue(b) <==> a == b
  {
  }

  /** SITL platform name chosen from the machine architecture. */
  function SitlPlatformName(machineArch: string): (r: string)
  {
    if Contains(Lower(machineArch), "arm") then "SITL_arm_linux_gnueabihf"
    else "SITL_x86_64_linux_gnu"
  }

  /** The SITL name is the arm build exactly when "arm" occurs in the
      lower-cased architecture, and it is the x86_64 build otherwise. */
  lemma SitlPlatformNameCases(machineArch: string)
    ensures Contains(Lower(machineArch), "arm") <==> SitlPlatformName(machineArch) == "SITL_arm_linux_gnueabihf"
    ensures !Contains(Lower(machineArch), "arm") <==> SitlPlatformName(machineArch) == "SITL_x86_64_linux_gnu"
    ensures StartsWith(SitlPlatformName(machineArch), "SITL_")
  {
  }

  lemma {:induction false} ArmDetectedInAnyCase(prefix: string, suffix: string)
    ensures SitlPlatformName(prefix + "ARM" + suffix) == "SITL_arm_linux_gnueabihf"
    ensures SitlPlatformName(prefix + "arm" + suffix) == "SITL_arm_linux_gnueabihf"
  {
    var s := prefix + "ARM" + suffix;
    var t := prefix + "arm" + suffix;
    assert Lower(s)[|prefix|..|prefix| + 3] == "arm";
    assert Lower(t)[|prefix|..|prefix| + 3] == "arm";
    ContainsAt(Lower(s), "arm", |prefix|);
    ContainsAt(Lower(t), "arm", |prefix|);
  }

  /** The member names of PlatformType. */
  datatype PlatformType = SerialType | LinuxType | SITLType | UnknownType

  function PlatformTypeName(t: PlatformType): string
  {
    match t
    case SerialType => "Serial"
    case LinuxType => "Linux"
    case SITLType => "SITL"
    case UnknownType => "Unknown"
  }

  /** LowerStringEnum.__str__: the member name, lower-cased. */
  function PlatformTypeStr(t: PlatformType): (r: string)
    ensures |r| == |PlatformTypeName(t)|
    ensures forall i :: 0 <= i < |r| ==> r[i] == LowerChar(PlatformTypeName(t)[i])
  {
    Lower(PlatformTypeName(t))
  }

  /** str() of the four platform types gives four different lower-case words. */
  lemma PlatformTypeStrValues()
    ensures PlatformTypeStr(SerialType) == "serial"
    ensures PlatformTypeStr(LinuxType) == "linux"
    ensures PlatformTypeStr(SITLType) == "sitl"
    ensures PlatformTypeStr(UnknownType) == "unknown"
  {
    SerialStr();
    LinuxStr();
    SitlStr();
    UnknownStr();
  }

  lemma SerialStr()
    ensures PlatformTypeStr(SerialType) == "serial"
  {
    LowerSpelled("Serial", "serial");
  }

  lemma LinuxStr()
    ensures PlatformTypeStr(LinuxType) == "linux"
  {
    LowerSpelled("Linux", "linux");
  }

  lemma SitlStr()
    ensures PlatformTypeStr(SITLType) == "sitl"
  {
    LowerSpelled("SITL", "sitl");
  }

  lemma UnknownStr()
    ensures PlatformTypeStr(UnknownType) == "unknown"
  {
    LowerSpelled("Unknown", "unknown");
  }

  lemma LowerSpelled(s: string, t: string)
    requires |s| == |t| && forall i :: 0 <= i < |s| ==> LowerChar(s[i]) == t[i]
    ensures Lower(s) == t
  {
  }

  lemma PlatformTypeStrInjective(a: PlatformType, b: PlatformType)
    requires PlatformTypeStr(a) == PlatformTypeStr(b)
    ensures a == b
  {
    PlatformTypeStrValues();
  }

  /** Boards ArduPilot can run on. NavigatorR3 and Undefined are referred to
      by the flight_controller package but are not declared in typedefs.py. */
  datatype Platform =
    | Pixhawk1 | Pixhawk4 | GenericSerial | Navigator | NavigatorR3 | SITL | Undefined

  /** The platform's enum value; SITL's depends on the machine it runs on. */
  function PlatformValue(p: Platform, machineArch: string): string
  {
    match p
    case Pixhawk1 => "Pixhawk1"
    case Pixhawk4 => "Pixhawk4"
    case GenericSerial => "GenericSerial"
    case Navigator => "navigator"
    case NavigatorR3 => "NavigatorR3"
    case SITL => SitlPlatformName(machineArch)
    case Undefined => "Undefined"
  }

  /** Platform values are distinct, so comparing or keying by value is
      comparing or keying by member. */
  lemma PlatformValueInjective(p: Platform, q: Platform, machineArch: string)
    requires PlatformValue(p, machineArch) == PlatformValue(q, machineArch)
    ensures p == q
  {
    SitlPlatformNameCases(machineArch);
  }

  /** Platform.type: the table of typedefs.py, Unknown for any platform it
      does not list. */
  function TypeOf(p: Platform): (r: PlatformType)
    ensures r == SerialType <==> p in {Pixhawk1, Pixhawk4, GenericSerial}
    ensures r == LinuxType <==> p == Navigator
    ensures r == SITLType <==> p == SITL
    ensures r == UnknownType <==> p in {NavigatorR3, Undefined}
  {
    match p
    case Pixhawk1 => SerialType
    case Pixhawk4 => SerialType
    case GenericSerial => SerialType
    case Navigator => LinuxType
    case SITL => SITLType
    case _ => UnknownType
  }

  /** Flight-controller board. */
  datatype FlightController = FlightController(
    name: string,
    manufacturer: Option<string>,
    platform: Platform,
    path: Option<string>)

  /** FlightController.type is its platform's type. */
  function BoardType(board: FlightController): (r: PlatformType)
    ensures r == SerialType <==> board.platform in {Pixhawk1, Pixhawk4, GenericSerial}
    ensures r == LinuxType <==> board.platform == Navigator
    ensures r == SITLType <==> board.platform == SITL
  {
    TypeOf(board.platform)
  }

  datatype FirmwareFormat = APJ | ELF

  function FirmwareFormatValue(f: FirmwareFormat): string
  {
    match f
    case APJ => "apj"
    case ELF => "ELF"
  }

  /** The two firmware formats have distinct names. */
  lemma FirmwareFormatValueInjective(a: FirmwareFormat, b: FirmwareFormat)
    ensures FirmwareFormatValue(a) == FirmwareFormatValue(b) <==> a == b
  {
  }

  /** Supported MAVLink endpoint kinds. */
  datatype EndpointType = UDPServer | UDPClient | TCPServer | TCPClient | Serial

  function EndpointTypeValue(t: EndpointType): string
  {
    match t
    case UDPServer => "udpin"
    case UDPClient => "udpout"
    case TCPServer => "tcpin"
    case TCPClient => "tcpout"
    case Serial => "serial"
  }

  lemma EndpointTypeValueInjective(a: EndpointType, b: EndpointType)
    requires EndpointTypeValue(a) == EndpointTypeValue(b)
    ensures a == b
  {
  }
}
