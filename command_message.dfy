/** Outbound commands: the command codes of the gripper's command set, the
    mutable command message with its payload appender, and the wire frame
    `AA AA AA cmd lenLo lenHi payload crcLo crcHi` that `Serialize` writes. */
module CommandMessage {
  import opened Wrappers
  import opened Bytes

  /** Command codes, as numbered in the device's command set reference. */
  datatype Command =
    | Loop | DisconnectAnnounce
    | Home | PrePosition | Stop | FastStop | AcknowledgeStopOrFault | Grasp | Release
    | SetAccel | GetAccel | SetForceLimit | GetForceLimit | SetSoftLimits | GetSoftLimits
    | ClearSoftLimits | TareForceSensor
    | GetSystemState | GetGraspState | GetGraspStats | GetOpeningWidth | GetSpeed | GetForce
    | GetTemperature
    | GetSystemInfo | SetDeviceTag | GetDeviceTag | GetSystemLimits
    | GetFingerInfo | GetFingerFlags | FingerPowerControl | GetFingerData
  {
    function Code(): (n: byte)
      ensures 0x06 <= n <= 0x63
    {
      match this
      case Loop => 0x06
      case DisconnectAnnounce => 0x07
      case Home => 0x20
      case PrePosition => 0x21
      case Stop => 0x22
      case FastStop => 0x23
      case AcknowledgeStopOrFault => 0x24
      case Grasp => 0x25
      case Release => 0x26
      case SetAccel => 0x30
      case GetAccel => 0x31
      case SetForceLimit => 0x32
      case GetForceLimit => 0x33
      case SetSoftLimits => 0x34
      case GetSoftLimits => 0x35
      case ClearSoftLimits => 0x36
      case TareForceSensor => 0x38
      case GetSystemState => 0x40
      case GetGraspState => 0x41
      case GetGraspStats => 0x42
      case GetOpeningWidth => 0x43
      case GetSpeed => 0x44
      case GetForce => 0x45
      case GetTemperature => 0x46
      case GetSystemInfo => 0x50
      case SetDeviceTag => 0x51
      case GetDeviceTag => 0x52
      case GetSystemLimits => 0x53
      case GetFingerInfo => 0x60
      case GetFingerFlags => 0x61
      case FingerPowerControl => 0x62
      case GetFingerData => 0x63
    }
  }

  /** The command a code stands for, if any. */
  function CommandOf(n: int): (r: Option<Command>)
    ensures r.Some? ==> r.value.Code() == n
  {
    if n < 0x40 then MotionCommandOf(n) else StatusCommandOf(n)
  }

  /** Codes below 0x40: connection, motion and motion-configuration commands. */
  function MotionCommandOf(n: int): (r: Option<Command>)
    ensures r.Some? ==> r.value.Code() == n
  {
    match n
    case 0x06 => Some(Loop)
    case 0x07 => Some(DisconnectAnnounce)
    case 0x20 => Some(Home)
    case 0x21 => Some(PrePosition)
    case 0x22 => Some(Stop)
    case 0x23 => Some(FastStop)
    case 0x24 => Some(AcknowledgeStopOrFault)
    case 0x25 => Some(Grasp)
    case 0x26 => Some(Release)
    case 0x30 => Some(SetAccel)
    case 0x31 => Some(GetAccel)
    case 0x32 => Some(SetForceLimit)
    case 0x33 => Some(GetForceLimit)
    case 0x34 => Some(SetSoftLimits)
    case 0x35 => Some(GetSoftLimits)
    case 0x36 => Some(ClearSoftLimits)
    case 0x38 => Some(TareForceSensor)
    case _ => None
  }

  /** Codes from 0x40 on: status queries, system and finger commands. */
  function StatusCommandOf(n: int): (r: Option<Command>)
    ensures r.Some? ==> r.value.Code() == n
  {
    match n
    case 0x40 => Some(GetSystemState)
    case 0x41 => Some(GetGraspState)
    case 0x42 => Some(GetGraspStats)
    case 0x43 => Some(GetOpeningWidth)
    case 0x44 => Some(GetSpeed)
    case 0x45 => Some(GetForce)
    case 0x46 => Some(GetTemperature)
    case 0x50 => Some(GetSystemInfo)
    case 0x51 => Some(SetDeviceTag)
    case 0x52 => Some(GetDeviceTag)
    case 0x53 => Some(GetSystemLimits)
    case 0x60 => Some(GetFingerInfo)
    case 0x61 => Some(GetFingerFlags)
    case 0x62 => Some(FingerPowerControl)
    case 0x63 => Some(GetFingerData)
    case _ => None
  }

  /** Every command has its own code, and `command & 0xFF` keeps it whole. */
  lemma CommandCodesDistinct(a: Command, b: Command)
    ensures CommandOf(a.Code()) == Some(a)
    ensures a.Code() == b.Code() ==> a == b
    ensures a.Code() % 0x100 == a.Code()
  {
    match a
    case Loop =>
    case DisconnectAnnounce =>
    case Home =>
    case PrePosition =>
    case Stop =>
    case FastStop =>
    case AcknowledgeStopOrFault =>
    case Grasp =>
    case Release =>
    case SetAccel =>
    case GetAccel =>
    case SetForceLimit =>
    case GetForceLimit =>
    case SetSoftLimits =>
    case GetSoftLimits =>
    case ClearSoftLimits =>
    case TareForceSensor =>
    case GetSystemState =>
    case GetGraspState =>
    case GetGraspStats =>
    case GetOpeningWidth =>
    case GetSpeed =>
    case GetForce =>
    case GetTemperature =>
    case GetSystemInfo =>
    case SetDeviceTag =>
    case GetDeviceTag =>
    case GetSystemLimits =>
    case GetFingerInfo =>
    case GetFingerFlags =>
    case FingerPowerControl =>
    case GetFingerData =>
  }

  /** A value `AppendToPayload` is instantiated for: `unsigned char`,
      `uint16_t`, `uint32_t` or `float`. */
  datatype PayloadItem = U8(b: byte) | U16(h: u16) | U32(w: u32) | F32(f: Float32)

  /** `sizeof(T)` of the item's type. */
  function SizeOf(item: PayloadItem): nat
  {
    match item
    case U8(_) => 1
    case U16(_) => 2
    case U32(_) => 4
    case F32(_) => 4
  }

  /** The bytes `memcpy` copies out of the item: its little-endian host bytes. */
  function HostBytes(item: PayloadItem): (r: seq<byte>)
    ensures |r| == SizeOf(item)
  {
    match item
    case U8(b) => [b]
    case U16(h) => U16Bytes(h)
    case U32(w) => U32Bytes(w)
    case F32(f) => f
  }

  /** The checksum function of the device firmware (CRC16 over a byte range). */
  type Crc16 = seq<byte> -> u16

  /** The six header bytes `Serialize` writes before the payload.  The high
      length byte is `(size << 8) & 0xFF`; shifting left by eight clears every
      bit that the mask keeps, so it is always zero. */
  function Header(command: int, size: nat): seq<byte>
  {
    [0xAA, 0xAA, 0xAA, command % 0x100, size % 0x100, (size * 0x100) % 0x100]
  }

  /** The frame `Serialize` writes for a command and payload. */
  function Frame(command: int, payload: seq<byte>, crc16: Crc16): (f: seq<byte>)
    ensures |f| == |payload| + 8
    ensures f[0] == 0xAA && f[1] == 0xAA && f[2] == 0xAA
    ensures f[3] == command % 0x100
    ensures f[4] == |payload| % 0x100 && f[5] == 0
    ensures f[6..|payload| + 6] == payload
    ensures f[|payload| + 6] == crc16(f[..|payload| + 6]) % 0x100
    ensures f[|payload| + 7] == crc16(f[..|payload| + 6]) / 0x100
  {
    var covered := Header(command, |payload|) + payload;
    var crc := crc16(covered);
    assert covered == (covered + [crc % 0x100, (crc / 0x100) % 0x100])[..|payload| + 6];
    covered + [crc % 0x100, (crc / 0x100) % 0x100]
  }

  /** The frame as the high length byte was evidently meant to be written,
      `(size >> 8) & 0xFF`; it differs from `Frame` only in byte 5. */
  function FrameCorrected(command: int, payload: seq<byte>, crc16: Crc16): (f: seq<byte>)
    ensures |f| == |payload| + 8
    ensures f[4] == |payload| % 0x100 && f[5] == (|payload| / 0x100) % 0x100
  {
    var covered := [0xAA, 0xAA, 0xAA, command % 0x100, |payload| % 0x100, (|payload| / 0x100) % 0x100] + payload;
    var crc := crc16(covered);
    covered + [crc % 0x100, (crc / 0x100) % 0x100]
  }

  /** For every payload shorter than 256 bytes (all payloads the driver
      builds are at most 9 bytes) the corrected frame is the written one. */
  lemma FrameCorrectedAgrees(command: int, payload: seq<byte>, crc16: Crc16)
    requires |payload| < 0x100
    ensures FrameCorrected(command, payload, crc16) == Frame(command, payload, crc16)
  {
    assert (|payload| / 0x100) % 0x100 == 0 == (|payload| * 0x100) % 0x100;
  }

  /** A command message: a command code and its payload.  The code is fixed at
      construction; the payload grows through `AppendToPayload`. */
  class WsgCommandMessage {
    const command: int
    var payload: seq<byte>

    constructor (command: int, payload: seq<byte>)
      ensures this.command == command && this.payload == payload
    {
      this.command := command;
      this.payload := payload;
    }

    /** Grows the payload by `sizeof(T)` and copies the item's bytes into the
        new room, leaving the existing bytes where they were. */
    method AppendToPayload(item: PayloadItem)
      modifies this
      ensures |payload| == |old(payload)| + SizeOf(item)
      ensures payload[..|old(payload)|] == old(payload)
      ensures payload[|old(payload)|..] == HostBytes(item)
    {
      var oldSize := |payload|;
      payload := payload + HostBytes(item);
      assert payload[..oldSize] == old(payload);
    }

    /** Writes the wire frame into a buffer of `|payload| + 8` bytes, one
        position at a time, the checksum last. */
    method Serialize(crc16: Crc16) returns (buffer: array<byte>)
      ensures fresh(buffer)
      ensures buffer[..] == Frame(command, payload, crc16)
    {
      var size := |payload|;
      buffer := new byte[size + 8];
      buffer[0] := 0xAA;
      buffer[1] := 0xAA;
      buffer[2] := 0xAA;
      buffer[3] := command % 0x100;
      buffer[4] := size % 0x100;
      buffer[5] := (size * 0x100) % 0x100;
      var i := 0;
      while i < size
        invariant 0 <= i <= size
        invariant buffer[..6] == Header(command, size)
        invariant buffer[6..6 + i] == payload[..i]
      {
        buffer[6 + i] := payload[i];
        i := i + 1;
      }
      var covered := buffer[..size + 6];
      assert covered == Header(command, size) + payload by {
        assert buffer[6..6 + size] == payload;
      }
      var crc := crc16(covered);
      buffer[size + 6] := crc % 0x100;
      buffer[size + 7] := (crc / 0x100) % 0x100;
      assert buffer[..] == covered + [crc % 0x100, (crc / 0x100) % 0x100];
    }
  }
}
