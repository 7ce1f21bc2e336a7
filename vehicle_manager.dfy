/** The vehicle commands sent through mavlink2rest (mavlink_comm/VehicleManager.py):
    COMMAND_LONG messages of the MAVLink common message set, and the armed
    test on the HEARTBEAT's base_mode, whose MAV_MODE_FLAG_SAFETY_ARMED flag
    is the bit of value 128.

    Sending is an append to the list of sent messages; each HEARTBEAT the
    vehicle is asked for is an input. */
module Vehicle {
  import opened Base

  const SafetyArmedFlag: int := 128

  /** The command names the manager sends; MAV_CMD_PREFLIGHT_REBOOT_SHUTDOWN
      is command 246 of the common message set, whose param1 is 1 to reboot
      and 2 to shut down the autopilot. */
  const RebootShutdownCommand := "MAV_CMD_PREFLIGHT_REBOOT_SHUTDOWN"
  const ArmDisarmCommand := "MAV_CMD_COMPONENT_ARM_DISARM"

  /** A COMMAND_LONG message: its command type, param1 to param7, and the
      target and confirmation fields. */
  datatype Message = CommandLong(command: string, params: seq<real>,
                                 targetSystem: int, targetComponent: int, confirmation: int)

  /** param1..param7 from a parameter list: the i-th parameter where the
      list has one, 0 beyond its end; parameters after the seventh are
      dropped. */
  function CommandParams(params: seq<real>): (r: seq<real>)
    ensures |r| == 7
    ensures forall i :: 0 <= i < 7 ==> r[i] == if i < |params| then params[i] else 0.0
  {
    if |params| >= 7 then params[..7] else params + Zeros(7 - |params|)
  }

  function Zeros(n: nat): (r: seq<real>)
    ensures |r| == n && forall i :: 0 <= i < n ==> r[i] == 0.0
  {
    if n == 0 then [] else [0.0] + Zeros(n - 1)
  }

  /** Up to seven parameters survive into the message, in order, and can
      be read back from it. */
  lemma CommandParamsKeepsPrefix(params: seq<real>)
    ensures |params| <= 7 ==> CommandParams(params)[..|params|] == params
    ensures |params| >= 7 ==> CommandParams(params) == params[..7]
    ensures CommandParams(CommandParams(params)) == CommandParams(params)
  {
  }

  /** The bit of value 128 of an integer in two's complement, as Python's
      `&` sees it for any sign (floor division). */
  predicate ArmedBit(bits: int)
  {
    (bits / SafetyArmedFlag) % 2 == 1
  }

  /** The armed bit is the high bit of the low byte, whatever the sign. */
  lemma ArmedBitIsHighBitOfLowByte(bits: int)
    ensures ArmedBit(bits) <==> bits % 256 >= 128
  {
    var q := bits / 256;
    var m := bits % 256;
    assert bits == 256 * q + m;
    assert bits / 128 == 2 * q + m / 128;
  }

  /** On a byte, the test agrees with the bitwise and of the source. */
  lemma ArmedBitIsByteMask(x: bv8)
    ensures ArmedBit(x as int) <==> x & 128 != 0
  {
    ArmedBitIsHighBitOfLowByte(x as int);
    assert x as int >= 128 <==> x >= 128;
  }

  /** The `bits` field of the HEARTBEAT's base_mode: an integer, or some
      other JSON value. */
  datatype Bits = IntBits(value: int) | OtherBits

  /** A HEARTBEAT reply from mavlink2rest: an empty document, or one whose
      message.base_mode.bits path may be missing. */
  datatype Heartbeat = EmptyReply | HeartbeatReply(bits: Option<Bits>)

  /** is_vehicle_armed on one reply: fetching may raise; a missing key
      raises KeyError; non-integer bits raise ValueError. */
  function IsVehicleArmed(reply: Result<Heartbeat>): (r: Result<bool>)
    ensures r.Ok? <==> reply.Ok? && reply.value.HeartbeatReply? && reply.value.bits.Some?
                       && reply.value.bits.value.IntBits?
    ensures r.Ok? ==> (r.value <==> ArmedBit(reply.value.bits.value.value))
    ensures reply.Ok? && reply.value.HeartbeatReply? && reply.value.bits == Some(OtherBits) ==> r == Err(ValueError)
    ensures reply.Ok? && (reply.value.EmptyReply? || reply.value.bits.None?) ==> r == Err(KeyError)
    ensures reply.Err? ==> r == Err(reply.error)
  {
    if reply.Err? then Err(reply.error)
    else if reply.value.EmptyReply? || reply.value.bits.None? then Err(KeyError)
    else if reply.value.bits.value.OtherBits? then Err(ValueError)
    else Ok(ArmedBit(reply.value.bits.value.value))
  }

  /** is_heart_beating: a non-empty reply; a failed fetch counts as no
      heartbeat rather than an error. */
  function IsHeartBeating(reply: Result<Heartbeat>): (r: bool)
    ensures r <==> reply.Ok? && reply.value.HeartbeatReply?
    ensures reply.Err? ==> !r
  {
    match reply
    case Err(_) => false
    case Ok(EmptyReply) => false
    case Ok(HeartbeatReply(_)) => true
  }

  /** A reply that shows the vehicle armed also shows it beating. */
  lemma ArmedImpliesHeartBeating(reply: Result<Heartbeat>)
    requires IsVehicleArmed(reply) == Ok(true)
    ensures IsHeartBeating(reply)
  {
  }

  class VehicleManager {
    var targetSystem: int
    var targetComponent: int
    var confirmation: int
    /** The messages handed to mavlink2rest, oldest first. */
    var sent: seq<Message>

    constructor()
      ensures targetSystem == 1 && targetComponent == 1 && confirmation == 0 && sent == []
    {
      targetSystem := 1;
      targetComponent := 1;
      confirmation := 0;
      sent := [];
    }

    method SetTargetSystem(value: int)
      modifies this
      ensures targetSystem == value && targetComponent == old(targetComponent)
      ensures confirmation == old(confirmation) && sent == old(sent)
    {
      targetSystem := value;
    }

    method SetTargetComponent(value: int)
      modifies this
      ensures targetComponent == value && targetSystem == old(targetSystem)
      ensures confirmation == old(confirmation) && sent == old(sent)
    {
      targetComponent := value;
    }

    method SetConfirmation(value: int)
      modifies this
      ensures confirmation == value && targetSystem == old(targetSystem)
      ensures targetComponent == old(targetComponent) && sent == old(sent)
    {
      confirmation := value;
    }

    /** command_long_message: the padded parameters and the manager's
        current target and confirmation. */
    function CommandLongMessage(command: string, params: seq<real>): (r: Message)
      reads this
      ensures r.command == command && r.params == CommandParams(params)
      ensures r.targetSystem == targetSystem && r.targetComponent == targetComponent
      ensures r.confirmation == confirmation
    {
      CommandLong(command, CommandParams(params), targetSystem, targetComponent, confirmation)
    }

    /** reboot_vehicle: command 246 with param1 = 1. */
    method RebootVehicle()
      modifies this
      ensures sent == old(sent) + [CommandLongMessage(RebootShutdownCommand, [1.0])]
      ensures targetSystem == old(targetSystem) && targetComponent == old(targetComponent)
      ensures confirmation == old(confirmation)
    {
      sent := sent + [CommandLongMessage(RebootShutdownCommand, [1.0])];
    }

    /** shutdown_vehicle: command 246 with param1 = 2. */
    method ShutdownVehicle()
      modifies this
      ensures sent == old(sent) + [CommandLongMessage(RebootShutdownCommand, [2.0])]
      ensures targetSystem == old(targetSystem) && targetComponent == old(targetComponent)
      ensures confirmation == old(confirmation)
    {
      sent := sent + [CommandLongMessage(RebootShutdownCommand, [2.0])];
    }

    /** disarm_vehicle: with the HEARTBEAT before and after the disarm
        command. Nothing is sent unless the first reply shows the vehicle
        armed; after sending, a second reply still showing it armed raises
        VehicleDisarmFail. Errors of either armed test propagate. */
    method DisarmVehicle(before: Result<Heartbeat>, after: Result<Heartbeat>) returns (r: Outcome)
      modifies this
      ensures IsVehicleArmed(before) != Ok(true) ==> sent == old(sent)
      ensures IsVehicleArmed(before) == Ok(true) ==>
        sent == old(sent) + [CommandLongMessage(ArmDisarmCommand, [])]
      ensures IsVehicleArmed(before).Err? ==> r == Fail(IsVehicleArmed(before).error)
      ensures IsVehicleArmed(before) == Ok(false) ==> r == Pass
      ensures IsVehicleArmed(before) == Ok(true) ==>
        r == (match IsVehicleArmed(after)
              case Ok(true) => Fail(VehicleDisarmFail)
              case Ok(false) => Pass
              case Err(e) => Fail(e))
      ensures targetSystem == old(targetSystem) && targetComponent == old(targetComponent)
      ensures confirmation == old(confirmation)
    {
      var armed := IsVehicleArmed(before);
      if armed.Err? {
        return Fail(armed.error);
      }
      if !armed.value {
        return Pass;
      }
      sent := sent + [CommandLongMessage(ArmDisarmCommand, [])];
      var stillArmed := IsVehicleArmed(after);
      if stillArmed.Err? {
        return Fail(stillArmed.error);
      }
      if stillArmed.value {
        return Fail(VehicleDisarmFail);
      }
      return Pass;
    }
  }

  /** The reboot and shutdown messages differ only in param1, 1 against 2,
      and the disarm message carries no parameter. */
  lemma RebootShutdownPayloads(vm: VehicleManager)
    ensures vm.CommandLongMessage(RebootShutdownCommand, [1.0]).params == [1.0, 0.0, 0.0, 0.0, 0.0, 0.0, 0.0]
    ensures vm.CommandLongMessage(RebootShutdownCommand, [2.0]).params == [2.0, 0.0, 0.0, 0.0, 0.0, 0.0, 0.0]
    ensures vm.CommandLongMessage(ArmDisarmCommand, []).params == [0.0, 0.0, 0.0, 0.0, 0.0, 0.0, 0.0]
  {
    var a := CommandParams([1.0]);
    var b := CommandParams([2.0]);
    var c := CommandParams([]);
    assert a == [a[0], a[1], a[2], a[3], a[4], a[5], a[6]];
    assert b == [b[0], b[1], b[2], b[3], b[4], b[5], b[6]];
    assert c == [c[0], c[1], c[2], c[3], c[4], c[5], c[6]];
  }
}
