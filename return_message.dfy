/** Inbound messages: the status codes, state flags and grasping states of
    the gripper, the immutable return message, and `Parse`, which checks a
    received datagram and splits it into command, status and parameters. */
module ReturnMessage {
  import opened Wrappers
  import opened Bytes
  import CommandMessage

  /** Status codes, numbered consecutively from `E_SUCCESS = 0`. */
  datatype StatusCode =
    | Success | NotAvailable | NoSensor | NotInitialized | AlreadyRunning
    | FeatureNotSupported | InconsistentData | Timeout | ReadError | WriteError
    | InsufficientResources | ChecksumError | NoParamExpected | NotEnoughParams
    | CmdUnknown | CmdFormatError | AccessDenied | AlreadyOpen | CmdFailed
    | CmdAborted | InvalidHandle | NotFound | NotOpen | IoError | InvalidParameter
    | IndexOutOfBounds | CmdPending | Overrun | RangeError | AxisBlocked | FileExists
  {
    function Code(): (n: nat)
      ensures n <= 30
    {
      match this
      case Success => 0
      case NotAvailable => 1
      case NoSensor => 2
      case NotInitialized => 3
      case AlreadyRunning => 4
      case FeatureNotSupported => 5
      case InconsistentData => 6
      case Timeout => 7
      case ReadError => 8
      case WriteError => 9
      case InsufficientResources => 10
      case ChecksumError => 11
      case NoParamExpected => 12
      case NotEnoughParams => 13
      case CmdUnknown => 14
      case CmdFormatError => 15
      case AccessDenied => 16
      case AlreadyOpen => 17
      case CmdFailed => 18
      case CmdAborted => 19
      case InvalidHandle => 20
      case NotFound => 21
      case NotOpen => 22
      case IoError => 23
      case InvalidParameter => 24
      case IndexOutOfBounds => 25
      case CmdPending => 26
      case Overrun => 27
      case RangeError => 28
      case AxisBlocked => 29
      case FileExists => 30
    }
  }

  /** The status code a status word stands for, if any. */
  function StatusOf(n: int): (r: Option<StatusCode>)
    ensures r.Some? <==> 0 <= n <= 30
    ensures r.Some? ==> r.value.Code() == n
  {
    if n < 16 then LowStatusOf(n) else HighStatusOf(n)
  }

  /** Status words 0 to 15. */
  function LowStatusOf(n: int): (r: Option<StatusCode>)
    ensures r.Some? <==> 0 <= n <= 15
    ensures r.Some? ==> r.value.Code() == n
  {
    match n
    case 0 => Some(Success)
    case 1 => Some(NotAvailable)
    case 2 => Some(NoSensor)
    case 3 => Some(NotInitialized)
    case 4 => Some(AlreadyRunning)
    case 5 => Some(FeatureNotSupported)
    case 6 => Some(InconsistentData)
    case 7 => Some(Timeout)
    case 8 => Some(ReadError)
    case 9 => Some(WriteError)
    case 10 => Some(InsufficientResources)
    case 11 => Some(ChecksumError)
    case 12 => Some(NoParamExpected)
    case 13 => Some(NotEnoughParams)
    case 14 => Some(CmdUnknown)
    case 15 => Some(CmdFormatError)
    case _ => None
  }

  /** Status words 16 to 30. */
  function HighStatusOf(n: int): (r: Option<StatusCode>)
    ensures r.Some? <==> 16 <= n <= 30
    ensures r.Some? ==> r.value.Code() == n
  {
    match n
    case 16 => Some(AccessDenied)
    case 17 => Some(AlreadyOpen)
    case 18 => Some(CmdFailed)
    case 19 => Some(CmdAborted)
    case 20 => Some(InvalidHandle)
    case 21 => Some(NotFound)
    case 22 => Some(NotOpen)
    case 23 => Some(IoError)
    case 24 => Some(InvalidParameter)
    case 25 => Some(IndexOutOfBounds)
    case 26 => Some(CmdPending)
    case 27 => Some(Overrun)
    case 28 => Some(RangeError)
    case 29 => Some(AxisBlocked)
    case 30 => Some(FileExists)
    case _ => None
  }

  /** Every status code is recovered from its status word. */
  lemma StatusOfCode(s: StatusCode)
    ensures StatusOf(s.Code()) == Some(s)
  {
  }

  /** The codes run consecutively from 0 to 30 without gaps or repeats. */
  lemma StatusCodesConsecutive(s: StatusCode, t: StatusCode)
    ensures StatusOf(s.Code()) == Some(s)
    ensures s.Code() == t.Code() ==> s == t
  {
    StatusOfCode(s);
    StatusOfCode(t);
  }

  const E_SUCCESS: int := Success.Code()
  const E_NOT_AVAILABLE: int := NotAvailable.Code()
  const E_CMD_PENDING: int := CmdPending.Code()

  /** Bits of the system-state word.  Bits 8, 10, 11 and 21 to 31 are reserved. */
  datatype StateFlag =
    | Referenced | Moving | BlockedMinus | BlockedPlus | SoftLimitMinus | SoftLimitPlus
    | AxisStopped | TargetPosReached | ForceControlMode | FastStop | TempWarning
    | TempFault | PowerFault | CurrFault | FingerFault | CmdFailure | ScriptRunning
    | ScriptFailure
  {
    function Bit(): (i: nat)
      ensures i < 21 && i != 8 && i != 10 && i != 11
    {
      match this
      case Referenced => 0
      case Moving => 1
      case BlockedMinus => 2
      case BlockedPlus => 3
      case SoftLimitMinus => 4
      case SoftLimitPlus => 5
      case AxisStopped => 6
      case TargetPosReached => 7
      case ForceControlMode => 9
      case FastStop => 12
      case TempWarning => 13
      case TempFault => 14
      case PowerFault => 15
      case CurrFault => 16
      case FingerFault => 17
      case CmdFailure => 18
      case ScriptRunning => 19
      case ScriptFailure => 20
    }

  }

  /** The flag whose bit is `i`, if any. */
  function FlagAt(i: int): (r: Option<StateFlag>)
    ensures r.Some? ==> r.value.Bit() == i
  {
    match i
    case 0 => Some(Referenced)
    case 1 => Some(Moving)
    case 2 => Some(BlockedMinus)
    case 3 => Some(BlockedPlus)
    case 4 => Some(SoftLimitMinus)
    case 5 => Some(SoftLimitPlus)
    case 6 => Some(AxisStopped)
    case 7 => Some(TargetPosReached)
    case 9 => Some(ForceControlMode)
    case 12 => Some(FastStop)
    case 13 => Some(TempWarning)
    case 14 => Some(TempFault)
    case 15 => Some(PowerFault)
    case 16 => Some(CurrFault)
    case 17 => Some(FingerFault)
    case 18 => Some(CmdFailure)
    case 19 => Some(ScriptRunning)
    case 20 => Some(ScriptFailure)
    case _ => None
  }

  /** Distinct flags occupy distinct bits: each flag is the one its bit names. */
  lemma StateFlagsDistinct(f: StateFlag, g: StateFlag)
    ensures FlagAt(f.Bit()) == Some(f)
    ensures f != g ==> f.Bit() != g.Bit()
  {
  }

  /** Grasping states, numbered 0 (idle) to 7 (error). */
  datatype GraspingState =
    | Idle | Grasping | NoPartFound | PartLost | Holding | Releasing | Positioning | Error
  {
    function Code(): (n: byte)
      ensures n <= 7
    {
      match this
      case Idle => 0
      case Grasping => 1
      case NoPartFound => 2
      case PartLost => 3
      case Holding => 4
      case Releasing => 5
      case Positioning => 6
      case Error => 7
    }
  }

  /** A parsed reply: the command it answers, its status word and the
      parameter bytes after the status.  Its parts never change. */
  datatype WsgReturnMessage = WsgReturnMessage(command: int, status: int, params: seq<byte>)

  /** The checks `Parse` makes, in order; each failure is one of its asserts. */
  datatype ParseError = TooShort | BadSync | PayloadTooSmall | LengthMismatch

  /** The payload size declared in bytes 4 and 5 of a frame. */
  function DeclaredSize(buffer: seq<byte>): nat
    requires |buffer| >= 6
  {
    buffer[4] as int + 0x100 * buffer[5] as int
  }

  /** Validates a received datagram and splits it.  The two checksum bytes at
      the end are never read. */
  function Parse(buffer: seq<byte>): (r: Result<WsgReturnMessage, ParseError>)
    ensures |buffer| < 10 ==> r == Err(TooShort)
    ensures |buffer| >= 10 && !(buffer[0] == buffer[1] == buffer[2] == 0xAA) ==> r == Err(BadSync)
    ensures r.Ok? <==>
      && |buffer| >= 10
      && buffer[0] == buffer[1] == buffer[2] == 0xAA
      && DeclaredSize(buffer) >= 2
      && |buffer| == DeclaredSize(buffer) + 8
    ensures r.Ok? ==>
      && r.value.command == buffer[3]
      && r.value.status == buffer[6] as int + 0x100 * buffer[7] as int
      && |r.value.params| == DeclaredSize(buffer) - 2
      && buffer[..8] + r.value.params == buffer[..|buffer| - 2]
  {
    if |buffer| < 10 then Err(TooShort)
    else if !(buffer[0] == 0xAA && buffer[1] == 0xAA && buffer[2] == 0xAA) then Err(BadSync)
    else
      var command := buffer[3];
      var payloadSize := DeclaredSize(buffer);
      if payloadSize < 2 then Err(PayloadTooSmall)
      else if |buffer| != payloadSize + 8 then Err(LengthMismatch)
      else
        var status := buffer[6] as int + 0x100 * buffer[7] as int;
        Ok(WsgReturnMessage(command, status, buffer[8..payloadSize + 6]))
  }

  /** `Parse` does not look at the checksum: frames that differ only in their
      last two bytes parse alike. */
  lemma ParseIgnoresChecksum(a: seq<byte>, b: seq<byte>)
    requires |a| == |b| >= 2
    requires a[..|a| - 2] == b[..|b| - 2]
    ensures Parse(a) == Parse(b)
  {
    if |a| >= 10 {
      forall i | 0 <= i < 8
        ensures a[i] == b[i]
      {
        assert a[i] == a[..|a| - 2][i];
        assert b[i] == b[..|b| - 2][i];
      }
      if Parse(a).Ok? {
        assert a[8..|a| - 2] == a[..|a| - 2][8..];
        assert b[8..|b| - 2] == b[..|b| - 2][8..];
      }
    }
  }

  /** Round trip: a frame `Serialize` writes is accepted by `Parse` exactly
      when its payload holds 2 to 255 bytes, and then the reply carries the
      command byte, the first two payload bytes as status and the rest as
      parameters.  Longer payloads fail the length check, because the high
      length byte is written as zero. */
  lemma ParseFrame(command: int, payload: seq<byte>, crc16: CommandMessage.Crc16)
    ensures Parse(CommandMessage.Frame(command, payload, crc16)).Ok? <==> 2 <= |payload| < 0x100
    ensures 2 <= |payload| < 0x100 ==>
      Parse(CommandMessage.Frame(command, payload, crc16))
        == Ok(WsgReturnMessage(command % 0x100, payload[0] as int + 0x100 * payload[1] as int, payload[2..]))
  {
    var f := CommandMessage.Frame(command, payload, crc16);
    if 2 <= |payload| < 0x100 {
      assert f[6] == payload[0] && f[7] == payload[1] by {
        assert f[6..|payload| + 6][0] == f[6];
        assert f[6..|payload| + 6][1] == f[7];
      }
      assert f[8..|payload| + 6] == payload[2..] by {
        assert f[8..|payload| + 6] == f[6..|payload| + 6][2..];
      }
    }
  }

  /** The corrected frame round-trips for every payload of 2 to 65535 bytes. */
  lemma ParseFrameCorrected(command: int, payload: seq<byte>, crc16: CommandMessage.Crc16)
    requires 2 <= |payload| < 0x1_0000
    ensures Parse(CommandMessage.FrameCorrected(command, payload, crc16))
      == Ok(WsgReturnMessage(command % 0x100, payload[0] as int + 0x100 * payload[1] as int, payload[2..]))
  {
    var f := CommandMessage.FrameCorrected(command, payload, crc16);
    var n := |payload|;
    assert DeclaredSize(f) == n by {
      assert n % 0x100 + 0x100 * (n / 0x100) == n;
      assert (n / 0x100) % 0x100 == n / 0x100;
    }
    var covered := [0xAA, 0xAA, 0xAA, command % 0x100, n % 0x100, (n / 0x100) % 0x100] + payload;
    assert f[..n + 6] == covered;
    assert f[6] == payload[0] && f[7] == payload[1];
    assert f[8..n + 6] == payload[2..];
  }

  /** The discrepancy the high-length-byte bug causes: a 256-byte payload is
      framed with a declared size of 0, so its own parser rejects it. */
  lemma LongPayloadUnparseable(command: int, payload: seq<byte>, crc16: CommandMessage.Crc16)
    requires |payload| == 0x100
    ensures DeclaredSize(CommandMessage.Frame(command, payload, crc16)) == 0
    ensures Parse(CommandMessage.Frame(command, payload, crc16)) == Err(PayloadTooSmall)
  {
  }
}
