/** The convenience layer over the gripper's command channel: a sender that
    logs the frames it puts on the wire, a receiver that reads the parsed
    replies in arrival order, `SendAndAwaitResponse`, which sends once and
    then polls for the first final reply to that command, and the command
    builders and result tests built on it. */
module Device {
  import opened Wrappers
  import opened Bytes
  import CM = CommandMessage
  import opened ReturnMessage

  /** A command as it is handed to the sender: code and payload. */
  datatype Request = Request(command: int, payload: seq<byte>)

  // ---------------------------------------------------------------------
  // Awaiting a reply

  /** A reply ends the wait when it answers the awaited command with a final
      status: anything but `E_CMD_PENDING`, errors included. */
  predicate Terminal(command: int, m: WsgReturnMessage)
  {
    m.command == command && m.status != E_CMD_PENDING
  }

  /** What a wait yields, and how many replies it read. */
  datatype Awaited = Awaited(response: Option<WsgReturnMessage>, consumed: nat)

  /** The polling loop of `SendAndAwaitResponse` over the replies the
      gripper sends, reading from index `from` on, with `polls` receive
      attempts before the timeout.  Replies for other commands and pending
      replies are thrown away. */
  function Await(command: int, replies: seq<WsgReturnMessage>, from: nat, polls: nat): (a: Awaited)
    ensures a.consumed <= polls
    decreases polls
  {
    if polls == 0 || from >= |replies| then Awaited(None, 0)
    else if Terminal(command, replies[from]) then Awaited(Some(replies[from]), 1)
    else
      var a := Await(command, replies, from + 1, polls - 1);
      Awaited(a.response, a.consumed + 1)
  }

  /** What a wait does: it reads replies in order, skipping every reply that
      is not final for its command, and stops at the first final one, which
      it returns; with none among the replies it could read, it returns
      nothing after reading all of them or using up its polls. */
  lemma {:induction false} AwaitSkipsToFirstFinal(command: int, replies: seq<WsgReturnMessage>, from: nat, polls: nat)
    requires from <= |replies|
    ensures var a := Await(command, replies, from, polls);
      && from + a.consumed <= |replies|
      && (a.response.Some? ==>
            && 1 <= a.consumed
            && a.response.value == replies[from + a.consumed - 1]
            && Terminal(command, a.response.value))
      && (a.response.None? ==> a.consumed == if polls < |replies| - from then polls else |replies| - from)
      && (forall i :: from <= i < from + a.consumed && (a.response.None? || i < from + a.consumed - 1) ==>
            !Terminal(command, replies[i]))
    decreases polls
  {
    if polls != 0 && from < |replies| && !Terminal(command, replies[from]) {
      AwaitSkipsToFirstFinal(command, replies, from + 1, polls - 1);
    }
  }

  /** A reply that ends a wait is never a pending one, and the wait returns
      the first final reply to its command among the replies it could read. */
  lemma AwaitReturnsFirstFinal(command: int, replies: seq<WsgReturnMessage>, from: nat, polls: nat, j: nat)
    requires from <= j < |replies| && j < from + polls && Terminal(command, replies[j])
    ensures Await(command, replies, from, polls).response.Some?
    ensures Await(command, replies, from, polls).consumed <= j - from + 1
    ensures Await(command, replies, from, polls).response.value.status != E_CMD_PENDING
  {
    AwaitSkipsToFirstFinal(command, replies, from, polls);
  }

  // ---------------------------------------------------------------------
  // Result tests

  /** Home, Grasp and Preposition succeed only on a final `E_SUCCESS` reply. */
  predicate Succeeded(response: Option<WsgReturnMessage>)
  {
    response.Some? && response.value.status == E_SUCCESS
  }

  /** Tare also accepts `E_NOT_AVAILABLE`: the internal current-based force
      sensor may not count as a sensor. */
  predicate TareAccepted(response: Option<WsgReturnMessage>)
  {
    response.Some? && (response.value.status == E_SUCCESS || response.value.status == E_NOT_AVAILABLE)
  }

  // ---------------------------------------------------------------------
  // Payloads

  /** Directions to home in; the value is the single payload byte. */
  datatype HomeDirection = Default | Positive | Negative
  {
    function Code(): byte
    {
      match this
      case Default => 0
      case Positive => 1
      case Negative => 2
    }
  }

  datatype PrepositionStopMode = ClampOnBlock | StopOnBlock
  datatype PrepositionMoveMode = Absolute | Relative

  /** The preposition flag byte `stop_mode | move_mode`, with clamp-on-block
      = 0, stop-on-block = 1, absolute = 0 and relative = 2. */
  function PrepositionFlags(stop: PrepositionStopMode, move: PrepositionMoveMode): (flags: byte)
    ensures flags <= 3
    ensures flags % 2 == (if stop == StopOnBlock then 1 else 0)
    ensures flags / 2 == (if move == Relative then 1 else 0)
  {
    var s: bv8 := if stop == StopOnBlock then 1 else 0;
    var m: bv8 := if move == Relative then 2 else 0;
    (s | m) as int
  }

  /** The Home payload: the direction byte alone. */
  function HomePayload(dir: HomeDirection): (p: seq<byte>)
    ensures |p| == 1 && p[0] <= 2
  {
    [dir.Code()]
  }

  /** The Grasp payload: the width float then the speed float. */
  function GraspPayload(width: Float32, speed: Float32): (p: seq<byte>)
    ensures |p| == 8 && p[..4] == width && p[4..] == speed
  {
    width + speed
  }


  /** The Preposition payload: the flag byte, the width float, the speed float. */
  function PrepositionPayload(stop: PrepositionStopMode, move: PrepositionMoveMode, width: Float32, speed: Float32): (p: seq<byte>)
    ensures |p| == 9 && p[0] <= 3 && p[1..5] == width && p[5..] == speed
  {
    [PrepositionFlags(stop, move)] + width + speed
  }


  /** The periodic-update payload: 1 ("always send updates"), then the
      period in milliseconds, low byte first. */
  function UpdatesPayload(periodMs: u16): (p: seq<byte>)
    ensures |p| == 3 && p[0] == 1 && DecodeU16(p[1..]) == periodMs
  {
    [1] + U16Bytes(periodMs)
  }


  /** A payload of one float (force limit, acceleration). */
  function FloatPayload(x: Float32): seq<byte>
  {
    x
  }


  /** The Grasp parameters of the earlier driver, written by hand into an
      8-byte buffer: width at offset 0, speed at offset 4. */
  method HandBuiltGraspParams(width: Float32, speed: Float32) returns (params: seq<byte>)
    ensures |params| == 8 && params[..4] == width && params[4..] == speed
    ensures params == GraspPayload(width, speed)
  {
    var buffer := new byte[8];
    var i := 0;
    while i < 4
      invariant 0 <= i <= 4
      invariant buffer[..i] == width[..i]
      invariant buffer[4..4 + i] == speed[..i]
    {
      buffer[i] := width[i];
      buffer[4 + i] := speed[i];
      i := i + 1;
    }
    params := buffer[..];
    assert params[..4] == buffer[..4];
    assert params[4..] == buffer[4..8];
  }

  // ---------------------------------------------------------------------
  // Queries

  datatype SystemInfo = SystemInfo(kind: byte, hwrev: byte, fwVersion: u16, serialNumber: u32)

  datatype PhysicalLimits = PhysicalLimits(
    stroke: Float32, minSpeed: Float32, maxSpeed: Float32, minAcc: Float32,
    maxAcc: Float32, minForce: Float32, nominalForce: Float32, overdriveForce: Float32)

  /** The limits before any query: every float zero. */
  const NoLimits := PhysicalLimits(FloatZero, FloatZero, FloatZero, FloatZero,
                                   FloatZero, FloatZero, FloatZero, FloatZero)

  /** Why a query yields nothing: no final reply in time (the source throws),
      or a reply too short for the fixed offsets the source reads. */
  datatype QueryError = NoResponse | ShortParams

  /** The system info at offsets 0 (type), 1 (hardware revision), 2 (firmware
      version, 2 bytes) and 4 (serial number, 4 bytes). */
  function SystemInfoOf(params: seq<byte>): (info: SystemInfo)
    requires |params| >= 8
    ensures info.kind == params[0] && info.hwrev == params[1]
    ensures U16Bytes(info.fwVersion) == params[2..4]
    ensures U32Bytes(info.serialNumber) == params[4..8]
  {
    var fw := DecodeU16(params[2..4]);
    var serial := DecodeU32(params[4..8]);
    DecodeU16Inverse(params[2..4]);
    DecodeU32Inverse(params[4..8]);
    SystemInfo(params[0], params[1], fw, serial)
  }

  /** The eight limit floats at offsets 0, 4, ..., 28. */
  function LimitsOf(params: seq<byte>): (l: PhysicalLimits)
    requires |params| >= 32
    ensures l.stroke == params[0..4] && l.minSpeed == params[4..8]
    ensures l.maxSpeed == params[8..12] && l.minAcc == params[12..16]
    ensures l.maxAcc == params[16..20] && l.minForce == params[20..24]
    ensures l.nominalForce == params[24..28] && l.overdriveForce == params[28..32]
  {
    PhysicalLimits(params[0..4], params[4..8], params[8..12], params[12..16],
                   params[16..20], params[20..24], params[24..28], params[28..32])
  }

  /** The outcome of a system-info query given the reply it waited for.  The
      status of the reply is not looked at. */
  function InfoReply(response: Option<WsgReturnMessage>): (r: Result<SystemInfo, QueryError>)
    ensures r.Ok? <==> response.Some? && |response.value.params| >= 8
    ensures r.Ok? ==> r.value == SystemInfoOf(response.value.params)
    ensures response.None? ==> r == Err(NoResponse)
  {
    if response.None? then Err(NoResponse)
    else if |response.value.params| < 8 then Err(ShortParams)
    else Ok(SystemInfoOf(response.value.params))
  }

  /** The outcome of a physical-limits query given the reply it waited for. */
  function LimitsReply(response: Option<WsgReturnMessage>): (r: Result<PhysicalLimits, QueryError>)
    ensures r.Ok? <==> response.Some? && |response.value.params| >= 32
    ensures r.Ok? ==> r.value == LimitsOf(response.value.params)
    ensures response.None? ==> r == Err(NoResponse)
  {
    if response.None? then Err(NoResponse)
    else if |response.value.params| < 32 then Err(ShortParams)
    else Ok(LimitsOf(response.value.params))
  }

  /** `limits` is what the reply `m` to the limits query carries. */
  predicate LimitsAnswer(m: WsgReturnMessage, limits: PhysicalLimits)
  {
    Terminal(CM.Command.GetSystemLimits.Code(), m) && |m.params| >= 32 && limits == LimitsOf(m.params)
  }

  /** Limits a query yields are read from the last reply it consumed, which
      is a final reply to the query. */
  lemma LimitsFromReply(replies: seq<WsgReturnMessage>, from: nat, polls: nat)
    requires LimitsReply(Await(CM.Command.GetSystemLimits.Code(), replies, from, polls).response).Ok?
    ensures var a := Await(CM.Command.GetSystemLimits.Code(), replies, from, polls);
      && 1 <= a.consumed && from + a.consumed <= |replies|
      && LimitsAnswer(replies[from + a.consumed - 1], LimitsReply(a.response).value)
  {
    if from <= |replies| {
      AwaitSkipsToFirstFinal(CM.Command.GetSystemLimits.Code(), replies, from, polls);
    }
  }

  // ---------------------------------------------------------------------
  // Timeouts, in milliseconds; one receive poll per millisecond.

  const HomeTimeoutMs: nat := 4000
  const TareTimeoutMs: nat := 4000
  const MotionTimeoutMs: nat := 6000
  const QueryTimeoutMs: nat := 100

  // ---------------------------------------------------------------------
  // What every controller turns on at start-up

  /** The update period every controller asks for, in milliseconds. */
  const UpdatePeriodMs: u16 := 5
  /** The wait for each update request's reply: a quarter second. */
  const UpdateAdjustTimeoutMs: nat := 250

  /** The update streams a controller turns on, in the order it does so. */
  const UpdateStreams: seq<CM.Command> :=
    [CM.Command.GetSystemState, CM.Command.GetGraspState, CM.Command.GetOpeningWidth,
     CM.Command.GetSpeed, CM.Command.GetForce]

  /** The request that turns on periodic updates for a stream. */
  function UpdateRequest(stream: CM.Command): Request
  {
    Request(stream.Code(), UpdatesPayload(UpdatePeriodMs))
  }

  /** The gripper as seen through its two sockets: the sender, which logs
      every command it frames, and the receiver, which reads the replies the
      gripper sends during the whole session, in order, one per receive
      call.  Arrival times are not modelled: a reply is there to be read as
      soon as every earlier one has been. */
  class Wsg {
    /** The device firmware's checksum; the sender appends it to every frame. */
    const crc16: CM.Crc16
    /** Every reply the gripper sends during the session, in arrival order. */
    const replies: seq<WsgReturnMessage>
    /** How many of them have been received. */
    var received: nat
    /** Every command handed to the sender so far, oldest first. */
    var log: seq<Request>

    constructor (crc16: CM.Crc16, replies: seq<WsgReturnMessage>)
      ensures this.crc16 == crc16 && this.replies == replies
      ensures received == 0 && log == []
    {
      this.crc16 := crc16;
      this.replies := replies;
      received := 0;
      log := [];
    }

    /** The replies of the session not yet received. */
    function Unread(): seq<WsgReturnMessage>
      reads this
    {
      if received <= |replies| then replies[received..] else []
    }

    /** The datagrams on the wire so far, oldest first. */
    function Sent(): seq<seq<byte>>
      reads this
    {
      Frames(log)
    }

    /** The frame the sender puts on the wire for a request. */
    function Wire(r: Request): seq<byte>
    {
      CM.Frame(r.command, r.payload, crc16)
    }

    /** The frames for a run of requests, in order. */
    function Frames(rs: seq<Request>): (frames: seq<seq<byte>>)
      ensures |frames| == |rs|
    {
      if rs == [] then [] else Frames(rs[..|rs| - 1]) + [Wire(rs[|rs| - 1])]
    }

    /** Sending one more request appends its frame. */
    lemma FramesSnoc(rs: seq<Request>, r: Request)
      ensures Frames(rs + [r]) == Frames(rs) + [Wire(r)]
    {
      assert (rs + [r])[..|rs|] == rs;
    }

    /** Frames of consecutive runs of requests concatenate. */
    lemma {:induction false} FramesConcat(a: seq<Request>, b: seq<Request>)
      ensures Frames(a + b) == Frames(a) + Frames(b)
    {
      if b == [] {
        assert a + b == a;
      } else {
        var n := |b| - 1;
        assert (a + b)[..|a + b| - 1] == a + b[..n];
        FramesConcat(a, b[..n]);
      }
    }

    /** One request sent, then a wait of `timeoutMs` polls that read what
        `Await` consumed. */
    twostate predicate Exchanged(req: Request, timeoutMs: nat)
      reads this
    {
      && received == old(received) + Await(req.command, replies, old(received), timeoutMs).consumed
      && log == old(log) + [req]
    }

    /** One request sent without waiting. */
    twostate predicate Posted(req: Request)
      reads this
    {
      received == old(received) && log == old(log) + [req]
    }

    /** Serializes the message and sends it: one more datagram on the wire. */
    method Send(msg: CM.WsgCommandMessage)
      modifies this
      ensures Posted(Request(msg.command, msg.payload))
      ensures Sent() == old(Sent()) + [CM.Frame(msg.command, msg.payload, crc16)]
    {
      var buffer := msg.Serialize(crc16);
      FramesSnoc(log, Request(msg.command, msg.payload));
      log := log + [Request(msg.command, msg.payload)];
      assert Sent() == old(Sent()) + [buffer[..]];
    }

    /** The next reply of the session, or nothing once every one of them
        has been received. */
    method Receive() returns (msg: Option<WsgReturnMessage>)
      modifies this
      ensures old(received) < |replies| ==> msg == Some(replies[old(received)]) && received == old(received) + 1
      ensures old(received) >= |replies| ==> msg.None? && received == old(received)
      ensures log == old(log)
    {
      if received < |replies| {
        msg := Some(replies[received]);
        received := received + 1;
      } else {
        msg := None;
      }
    }

    /** Sends once, then polls until it reads a final reply to the same
        command, or until the polls or the session's replies run out.  An
        error status is final too. */
    method SendAndAwaitResponse(msg: CM.WsgCommandMessage, timeoutMs: nat) returns (response: Option<WsgReturnMessage>)
      modifies this
      ensures response == Await(msg.command, replies, old(received), timeoutMs).response
      ensures Exchanged(Request(msg.command, msg.payload), timeoutMs)
    {
      ghost var start := received;
      ghost var whole := Await(msg.command, replies, start, timeoutMs);
      Send(msg);
      response := None;
      var polls := 0;
      while response.None? && polls < timeoutMs
        invariant 0 <= polls <= timeoutMs
        invariant start <= received
        invariant log == old(log) + [Request(msg.command, msg.payload)]
        invariant response.None? ==>
          var rest := Await(msg.command, replies, received, timeoutMs - polls);
          whole == Awaited(rest.response, rest.consumed + (received - start))
        invariant response.Some? ==> whole == Awaited(response, received - start)
      {
        response := Receive();
        polls := polls + 1;
        if response.Some? {
          if response.value.command != msg.command {
            response := None;  // a reply to another command
          } else if response.value.status == E_CMD_PENDING {
            response := None;  // wait for the final status
          }
        }
      }
    }

    /** Stops the fingers without waiting for a reply. */
    method Stop()
      modifies this
      ensures Posted(Request(CM.Command.Stop.Code(), []))
    {
      var m := new CM.WsgCommandMessage(CM.Command.Stop.Code(), []);
      Send(m);
    }

    method GetSystemInfo() returns (r: Result<SystemInfo, QueryError>)
      modifies this
      ensures r == InfoReply(Await(CM.Command.GetSystemInfo.Code(), replies, old(received), QueryTimeoutMs).response)
      ensures Exchanged(Request(CM.Command.GetSystemInfo.Code(), []), QueryTimeoutMs)
    {
      var m := new CM.WsgCommandMessage(CM.Command.GetSystemInfo.Code(), []);
      var response := SendAndAwaitResponse(m, QueryTimeoutMs);
      if response.None? {
        return Err(NoResponse);
      }
      if |response.value.params| < 8 {
        return Err(ShortParams);
      }
      r := Ok(SystemInfoOf(response.value.params));
    }

    method GetPhysicalLimits() returns (r: Result<PhysicalLimits, QueryError>)
      modifies this
      ensures r == LimitsReply(Await(CM.Command.GetSystemLimits.Code(), replies, old(received), QueryTimeoutMs).response)
      ensures Exchanged(Request(CM.Command.GetSystemLimits.Code(), []), QueryTimeoutMs)
    {
      var m := new CM.WsgCommandMessage(CM.Command.GetSystemLimits.Code(), []);
      var response := SendAndAwaitResponse(m, QueryTimeoutMs);
      if response.None? {
        return Err(NoResponse);
      }
      if |response.value.params| < 32 {
        return Err(ShortParams);
      }
      r := Ok(LimitsOf(response.value.params));
    }

    /** Homes in `dir` (a move to the extreme, calibrating there). */
    method Home(dir: HomeDirection) returns (ok: bool)
      modifies this
      ensures ok == Succeeded(Await(CM.Command.Home.Code(), replies, old(received), HomeTimeoutMs).response)
      ensures Exchanged(Request(CM.Command.Home.Code(), HomePayload(dir)), HomeTimeoutMs)
    {
      var m := new CM.WsgCommandMessage(CM.Command.Home.Code(), [dir.Code()]);
      var response := SendAndAwaitResponse(m, HomeTimeoutMs);
      ok := response.Some? && response.value.status == E_SUCCESS;
    }

    /** Tares the force sensor. */
    method Tare() returns (ok: bool)
      modifies this
      ensures ok == TareAccepted(Await(CM.Command.TareForceSensor.Code(), replies, old(received), TareTimeoutMs).response)
      ensures Exchanged(Request(CM.Command.TareForceSensor.Code(), []), TareTimeoutMs)
    {
      var m := new CM.WsgCommandMessage(CM.Command.TareForceSensor.Code(), []);
      var response := SendAndAwaitResponse(m, TareTimeoutMs);
      ok := response.Some? && (response.value.status == E_SUCCESS || response.value.status == E_NOT_AVAILABLE);
    }

    /** Grasps at `width` with `speed`, blocking until the move completes. */
    method Grasp(width: Float32, speed: Float32) returns (ok: bool)
      modifies this
      ensures ok == Succeeded(Await(CM.Command.Grasp.Code(), replies, old(received), MotionTimeoutMs).response)
      ensures Exchanged(Request(CM.Command.Grasp.Code(), GraspPayload(width, speed)), MotionTimeoutMs)
    {
      var m := new CM.WsgCommandMessage(CM.Command.Grasp.Code(), []);
      m.AppendToPayload(CM.F32(width));
      m.AppendToPayload(CM.F32(speed));
      assert m.payload == width + speed;
      var response := SendAndAwaitResponse(m, MotionTimeoutMs);
      ok := response.Some? && response.value.status == E_SUCCESS;
    }

    /** Sets the force limit; any final reply counts, error statuses too. */
    method SetForceLimit(force: Float32) returns (ok: bool)
      modifies this
      ensures ok == Await(CM.Command.SetForceLimit.Code(), replies, old(received), QueryTimeoutMs).response.Some?
      ensures Exchanged(Request(CM.Command.SetForceLimit.Code(), FloatPayload(force)), QueryTimeoutMs)
    {
      var m := new CM.WsgCommandMessage(CM.Command.SetForceLimit.Code(), []);
      m.AppendToPayload(CM.F32(force));
      var response := SendAndAwaitResponse(m, QueryTimeoutMs);
      ok := response.Some?;
    }

    method SetForceLimitNonblocking(force: Float32)
      modifies this
      ensures Posted(Request(CM.Command.SetForceLimit.Code(), FloatPayload(force)))
    {
      var m := new CM.WsgCommandMessage(CM.Command.SetForceLimit.Code(), []);
      m.AppendToPayload(CM.F32(force));
      Send(m);
    }

    /** Sets the acceleration; any final reply counts. */
    method SetAcceleration(acceleration: Float32) returns (ok: bool)
      modifies this
      ensures ok == Await(CM.Command.SetAccel.Code(), replies, old(received), QueryTimeoutMs).response.Some?
      ensures Exchanged(Request(CM.Command.SetAccel.Code(), FloatPayload(acceleration)), QueryTimeoutMs)
    {
      var m := new CM.WsgCommandMessage(CM.Command.SetAccel.Code(), []);
      m.AppendToPayload(CM.F32(acceleration));
      var response := SendAndAwaitResponse(m, QueryTimeoutMs);
      ok := response.Some?;
    }

    /** Clears the soft limits; any final reply counts. */
    method ClearSoftLimits() returns (ok: bool)
      modifies this
      ensures ok == Await(CM.Command.ClearSoftLimits.Code(), replies, old(received), QueryTimeoutMs).response.Some?
      ensures Exchanged(Request(CM.Command.ClearSoftLimits.Code(), []), QueryTimeoutMs)
    {
      var m := new CM.WsgCommandMessage(CM.Command.ClearSoftLimits.Code(), []);
      var response := SendAndAwaitResponse(m, QueryTimeoutMs);
      ok := response.Some?;
    }

    /** Builds a Preposition command: flag byte, width, speed. */
    method PrepositionCommand(stop: PrepositionStopMode, move: PrepositionMoveMode,
                              width: Float32, speed: Float32) returns (command: CM.WsgCommandMessage)
      ensures fresh(command)
      ensures command.command == CM.Command.PrePosition.Code()
      ensures command.payload == PrepositionPayload(stop, move, width, speed)
    {
      command := new CM.WsgCommandMessage(CM.Command.PrePosition.Code(), []);
      command.AppendToPayload(CM.U8(PrepositionFlags(stop, move)));
      command.AppendToPayload(CM.F32(width));
      command.AppendToPayload(CM.F32(speed));
      assert command.payload == [PrepositionFlags(stop, move)] + width + speed;
    }

    /** Moves to `width` at `speed`, blocking until the move completes. */
    method Preposition(stop: PrepositionStopMode, move: PrepositionMoveMode,
                       width: Float32, speed: Float32) returns (ok: bool)
      modifies this
      ensures ok == Succeeded(Await(CM.Command.PrePosition.Code(), replies, old(received), MotionTimeoutMs).response)
      ensures Exchanged(Request(CM.Command.PrePosition.Code(), PrepositionPayload(stop, move, width, speed)), MotionTimeoutMs)
    {
      var m := PrepositionCommand(stop, move, width, speed);
      var response := SendAndAwaitResponse(m, MotionTimeoutMs);
      ok := response.Some? && response.value.status == E_SUCCESS;
    }

    /** Starts a move to `width` at `speed` without waiting for a reply. */
    method PrepositionNonblocking(stop: PrepositionStopMode, move: PrepositionMoveMode,
                                  width: Float32, speed: Float32)
      modifies this
      ensures Posted(Request(CM.Command.PrePosition.Code(), PrepositionPayload(stop, move, width, speed)))
    {
      var m := PrepositionCommand(stop, move, width, speed);
      Send(m);
    }

    /** Asks the device to push the status `command` answers every
        `periodMs` milliseconds.  `ok` is false where the source throws (or,
        in the earlier driver, fails its assertion): no reply in time. */
    method TurnOnUpdates(command: CM.Command, periodMs: u16, timeoutMs: nat) returns (ok: bool)
      modifies this
      ensures ok == Await(command.Code(), replies, old(received), timeoutMs).response.Some?
      ensures Exchanged(Request(command.Code(), UpdatesPayload(periodMs)), timeoutMs)
    {
      var m := new CM.WsgCommandMessage(command.Code(), []);
      m.AppendToPayload(CM.U8(1));
      m.AppendToPayload(CM.U16(periodMs));
      assert m.payload == [1] + U16Bytes(periodMs) == UpdatesPayload(periodMs);
      var response := SendAndAwaitResponse(m, timeoutMs);
      ok := response.Some?;
    }
  }

  // ---------------------------------------------------------------------
  // Start-up steps every controller repeats

  /** The update requests, in the order the controllers send them. */
  const UpdateRequests: seq<Request> :=
    [UpdateRequest(CM.Command.GetSystemState), UpdateRequest(CM.Command.GetGraspState),
     UpdateRequest(CM.Command.GetOpeningWidth), UpdateRequest(CM.Command.GetSpeed),
     UpdateRequest(CM.Command.GetForce)]

  /** Homing inward, homing outward, then taring. */
  const HomingRequests: seq<Request> :=
    [Request(CM.Command.Home.Code(), HomePayload(Negative)),
     Request(CM.Command.Home.Code(), HomePayload(Positive)),
     Request(CM.Command.TareForceSensor.Code(), [])]

  /** The query for the physical limits. */
  const LimitsQuery := Request(CM.Command.GetSystemLimits.Code(), [])

  /** How a controller's start-up ended: every step went through, the update
      request for `UpdateStreams[stream]` got no reply (the source throws),
      or the limits query got no reply (the source throws) or one too short
      to hold the limits (the source reads past its end and goes on; the
      model stops there). */
  datatype Calibration = Calibrated | UpdatesFailed(stream: nat) | LimitsFailed

  /** How many update requests go out when the run ends with `failed`. */
  function UpdatesSent(failed: Option<nat>): (n: nat)
    ensures 1 <= n <= |UpdateRequests|
  {
    if failed.Some? && failed.value < 5 then failed.value + 1 else 5
  }

  /** With no update request failing, all five go out. */
  lemma AllUpdatesSent()
    ensures UpdateRequests[..UpdatesSent(None)] == UpdateRequests
  {
  }

  /** Concatenating requests in three runs does not depend on grouping. */
  lemma LogsAppend(a: seq<Request>, b: seq<Request>, c: seq<Request>)
    ensures a + b + c == a + (b + c)
  {
  }

  /** The replies from index `from` on begin with one final reply to each
      of `commands`, in order. */
  predicate AnsweredInOrder(replies: seq<WsgReturnMessage>, from: nat, commands: seq<int>)
  {
    from + |commands| <= |replies| && forall i :: 0 <= i < |commands| ==> Terminal(commands[i], replies[from + i])
  }

  /** Where the replies have been read to after a wait that starts at reply
      `from`. */
  function After(command: int, replies: seq<WsgReturnMessage>, from: nat, polls: nat): (next: nat)
    ensures from <= next
  {
    from + Await(command, replies, from, polls).consumed
  }

  /** Whether a wait that starts at reply `from` gets a final reply. */
  predicate Answered(command: int, replies: seq<WsgReturnMessage>, from: nat, polls: nat)
  {
    Await(command, replies, from, polls).response.Some?
  }

  /** A final reply that comes next ends the wait at once. */
  lemma AwaitAnsweredAtOnce(command: int, replies: seq<WsgReturnMessage>, from: nat, polls: nat)
    requires from < |replies| && 0 < polls && Terminal(command, replies[from])
    ensures Await(command, replies, from, polls) == Awaited(Some(replies[from]), 1)
  {
  }

  /** A command the gripper never answers with a final reply gets no reply. */
  lemma AwaitNeverAnswered(command: int, replies: seq<WsgReturnMessage>, from: nat, polls: nat)
    requires forall i :: from <= i < |replies| ==> !Terminal(command, replies[i])
    ensures Await(command, replies, from, polls).response.None?
  {
    if from <= |replies| {
      AwaitSkipsToFirstFinal(command, replies, from, polls);
    }
  }

  /** The command codes of homing inward, homing outward and taring. */
  const HomingCodes: seq<int> :=
    [CM.Command.Home.Code(), CM.Command.Home.Code(), CM.Command.TareForceSensor.Code()]

  /** Where a run of update requests stopped: the index of the first one left
      without a reply, if any, and the index of the next reply to read. */
  datatype UpdatesRun = UpdatesRun(failed: Option<nat>, next: nat)

  /** The waits of the update requests from stream `k` on, the first reading
      from reply `from`, each going on from where the previous one stopped;
      the run ends at the first request left without a reply. */
  function RunUpdates(replies: seq<WsgReturnMessage>, from: nat, k: nat): (r: UpdatesRun)
    requires k <= 5
    ensures from <= r.next
    ensures r.failed.Some? ==> k <= r.failed.value < 5
    decreases 5 - k
  {
    if k == 5 then UpdatesRun(None, from)
    else
      var next := After(UpdateStreams[k].Code(), replies, from, UpdateAdjustTimeoutMs);
      if !Answered(UpdateStreams[k].Code(), replies, from, UpdateAdjustTimeoutMs) then UpdatesRun(Some(k), next)
      else RunUpdates(replies, next, k + 1)
  }

  /** The replies from index `start + k` on begin with one final reply to
      each of the update requests `k` to `j - 1`, in order. */
  predicate UpdatesAnswered(replies: seq<WsgReturnMessage>, start: nat, k: nat, j: nat)
    requires j <= 5
  {
    start + j <= |replies| && forall i :: k <= i < j ==> Terminal(UpdateStreams[i].Code(), replies[start + i])
  }

  /** An update request answered by the very next reply moves the run on to
      the next stream, one reply later. */
  lemma UpdateAnsweredAtOnce(replies: seq<WsgReturnMessage>, from: nat, k: nat)
    requires k < 5 && from < |replies| && Terminal(UpdateStreams[k].Code(), replies[from])
    ensures RunUpdates(replies, from, k) == RunUpdates(replies, from + 1, k + 1)
  {
    AwaitAnsweredAtOnce(UpdateStreams[k].Code(), replies, from, UpdateAdjustTimeoutMs);
  }

  /** An update request no reply from `from` on answers ends the run there. */
  lemma UpdateNeverAnswered(replies: seq<WsgReturnMessage>, from: nat, k: nat)
    requires k < 5
    requires forall i :: from <= i < |replies| ==> !Terminal(UpdateStreams[k].Code(), replies[i])
    ensures RunUpdates(replies, from, k).failed == Some(k)
  {
    AwaitNeverAnswered(UpdateStreams[k].Code(), replies, from, UpdateAdjustTimeoutMs);
  }

  /** Answered in order, every update request goes through, one reply each. */
  lemma {:induction false} UpdatesGoThrough(replies: seq<WsgReturnMessage>, start: nat, k: nat)
    requires k <= 5 && UpdatesAnswered(replies, start, k, 5)
    ensures RunUpdates(replies, start + k, k) == UpdatesRun(None, start + 5)
    decreases 5 - k
  {
    if k < 5 {
      var from := start + k;
      assert Terminal(UpdateStreams[k].Code(), replies[from]);
      UpdateAnsweredAtOnce(replies, from, k);
      UpdatesGoThrough(replies, start, k + 1);
      assert start + (k + 1) == from + 1;
    }
  }

  /** The first update request the gripper never answers ends the run, after
      every earlier one was answered in order. */
  lemma {:induction false} UpdatesStopAtUnanswered(replies: seq<WsgReturnMessage>, start: nat, k: nat, j: nat)
    requires k <= j < 5 && UpdatesAnswered(replies, start, k, j)
    requires forall i :: start + j <= i < |replies| ==> !Terminal(UpdateStreams[j].Code(), replies[i])
    ensures RunUpdates(replies, start + k, k).failed == Some(j)
    decreases 5 - k
  {
    if k == j {
      UpdateNeverAnswered(replies, start + j, j);
    } else {
      var from := start + k;
      assert Terminal(UpdateStreams[k].Code(), replies[from]);
      UpdateAnsweredAtOnce(replies, from, k);
      assert UpdatesAnswered(replies, start, k + 1, j);
      UpdatesStopAtUnanswered(replies, start, k + 1, j);
      assert start + (k + 1) == from + 1;
    }
  }

  /** Where the replies to homing inward, homing outward and taring have been
      read to, starting at reply `from`; the outcomes are not looked at. */
  function HomingEnd(replies: seq<WsgReturnMessage>, from: nat): (next: nat)
    ensures from <= next
  {
    var inward := After(CM.Command.Home.Code(), replies, from, HomeTimeoutMs);
    var outward := After(CM.Command.Home.Code(), replies, inward, HomeTimeoutMs);
    After(CM.Command.TareForceSensor.Code(), replies, outward, TareTimeoutMs)
  }

  /** Answered in order, homing and taring read one reply each. */
  lemma HomingAnswered(replies: seq<WsgReturnMessage>, from: nat)
    requires AnsweredInOrder(replies, from, HomingCodes)
    ensures HomingEnd(replies, from) == from + 3
  {
    assert Terminal(HomingCodes[0], replies[from + 0]);
    assert Terminal(HomingCodes[1], replies[from + 1]);
    assert Terminal(HomingCodes[2], replies[from + 2]);
    AwaitAnsweredAtOnce(CM.Command.Home.Code(), replies, from, HomeTimeoutMs);
    AwaitAnsweredAtOnce(CM.Command.Home.Code(), replies, from + 1, HomeTimeoutMs);
    AwaitAnsweredAtOnce(CM.Command.TareForceSensor.Code(), replies, from + 2, TareTimeoutMs);
  }

  /** The outcome of the limits query whose wait starts at reply `from`. */
  function LimitsAt(replies: seq<WsgReturnMessage>, from: nat): Result<PhysicalLimits, QueryError>
  {
    LimitsReply(Await(CM.Command.GetSystemLimits.Code(), replies, from, QueryTimeoutMs).response)
  }

  /** A final limits reply next, long enough to read, yields its limits. */
  lemma LimitsAnswered(replies: seq<WsgReturnMessage>, from: nat)
    requires AnsweredInOrder(replies, from, [CM.Command.GetSystemLimits.Code()]) && |replies[from].params| >= 32
    ensures LimitsAt(replies, from) == Ok(LimitsOf(replies[from].params))
  {
    assert Terminal([CM.Command.GetSystemLimits.Code()][0], replies[from + 0]);
    AwaitAnsweredAtOnce(CM.Command.GetSystemLimits.Code(), replies, from, QueryTimeoutMs);
  }

  /** The `k`-th update request is the one for the `k`-th stream. */
  lemma UpdateRequestAt(k: nat)
    requires k < 5
    ensures UpdateRequests[k] == UpdateRequest(UpdateStreams[k])
  {
  }

  /** Turns on the update stream `UpdateStreams[k]` with the update period
      and the quarter-second wait, after the first `k` update requests have
      gone out behind `earlier`; `ok` is whether it was answered in time. */
  method TurnOnStream(wsg: Wsg, k: nat, ghost earlier: seq<Request>) returns (ok: bool)
    requires k < 5 && wsg.log == earlier + UpdateRequests[..k]
    modifies wsg
    ensures ok == Answered(UpdateStreams[k].Code(), wsg.replies, old(wsg.received), UpdateAdjustTimeoutMs)
    ensures wsg.received == After(UpdateStreams[k].Code(), wsg.replies, old(wsg.received), UpdateAdjustTimeoutMs)
    ensures wsg.log == earlier + UpdateRequests[..k + 1]
    ensures !ok ==> RunUpdates(wsg.replies, old(wsg.received), k) == UpdatesRun(Some(k), wsg.received)
    ensures ok ==> RunUpdates(wsg.replies, old(wsg.received), k) == RunUpdates(wsg.replies, wsg.received, k + 1)
  {
    UpdateRequestAt(k);
    ok := wsg.TurnOnUpdates(UpdateStreams[k], UpdatePeriodMs, UpdateAdjustTimeoutMs);
    assert UpdateRequests[..k + 1] == UpdateRequests[..k] + [UpdateRequests[k]];
  }

  /** Turns on the five update streams in order, each with the update period
      and the quarter-second wait.  The first request left without a reply
      ends the run (the source throws there); `failed` is its index. */
  method TurnOnStatusUpdates(wsg: Wsg) returns (failed: Option<nat>)
    modifies wsg
    ensures failed == RunUpdates(wsg.replies, old(wsg.received), 0).failed
    ensures wsg.received == RunUpdates(wsg.replies, old(wsg.received), 0).next
    ensures wsg.log == old(wsg.log) + UpdateRequests[..UpdatesSent(failed)]
  {
    ghost var earlier := wsg.log;
    assert wsg.log == earlier + UpdateRequests[..0];
    var ok := TurnOnStream(wsg, 0, earlier);
    if !ok {
      return Some(0);
    }
    ok := TurnOnStream(wsg, 1, earlier);
    if !ok {
      return Some(1);
    }
    ok := TurnOnStream(wsg, 2, earlier);
    if !ok {
      return Some(2);
    }
    ok := TurnOnStream(wsg, 3, earlier);
    if !ok {
      return Some(3);
    }
    ok := TurnOnStream(wsg, 4, earlier);
    if !ok {
      return Some(4);
    }
    failed := None;
  }

  /** Homes inward, then outward, then tares; the outcomes are not looked at. */
  method HomeAndTare(wsg: Wsg)
    modifies wsg
    ensures wsg.log == old(wsg.log) + HomingRequests
    ensures wsg.received == HomingEnd(wsg.replies, old(wsg.received))
  {
    ghost var replies, start := wsg.replies, wsg.received;
    var homed := wsg.Home(Negative);
    ghost var inward := wsg.received;
    homed := wsg.Home(Positive);
    ghost var outward := wsg.received;
    var tared := wsg.Tare();
    assert inward == After(CM.Command.Home.Code(), replies, start, HomeTimeoutMs);
    assert outward == After(CM.Command.Home.Code(), replies, inward, HomeTimeoutMs);
  }
}
