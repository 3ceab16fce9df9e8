/** The position/force controller: it calibrates the gripper, emulates force
    control with a force limit plus a non-blocking preposition move, and keeps
    the latest reported status from the periodic updates. */
module PositionForceControl {
  import opened Wrappers
  import opened Bytes
  import CM = CommandMessage
  import ReturnMessage
  import opened Device
  import opened DeviceState

  /** No new command is sent while both targets move by less than these. */
  const ForceDeadband: real := 5.0
  const PositionDeadbandMm: real := 5.0

  function Abs(x: real): real
  {
    if x < 0.0 then -x else x
  }

  /** A request is absorbed when the force and the position both lie within
      their deadband of the targets being executed. */
  predicate InDeadband(targetPosition: real, targetForce: real, position: real, force: real)
  {
    Abs(force - targetForce) < ForceDeadband && Abs(position - targetPosition) < PositionDeadbandMm
  }

  /** Repeating the target being executed never sends anything, and a change
      of at least a deadband in either quantity always does. */
  lemma DeadbandBounds(targetPosition: real, targetForce: real, position: real, force: real)
    ensures InDeadband(position, force, position, force)
    ensures (force - targetForce >= ForceDeadband || targetForce - force >= ForceDeadband
             || position - targetPosition >= PositionDeadbandMm || targetPosition - position >= PositionDeadbandMm)
            <==> !InDeadband(targetPosition, targetForce, position, force)
  {
  }

  /** Clearing the soft limits, then setting the acceleration to `maxAcc`. */
  function LimitSettings(maxAcc: Float32): seq<Request>
  {
    [Request(CM.Command.ClearSoftLimits.Code(), []), Request(CM.Command.SetAccel.Code(), FloatPayload(maxAcc))]
  }

  /** The requests a calibration ending in `outcome` sends, in order: the
      update requests up to the failing one, or all of them followed by
      homing inward, homing outward, tare and the limits query, and, when
      that is answered, the limit settings. */
  function CalibrationLog(outcome: Calibration, maxAcc: Float32): seq<Request>
  {
    match outcome
    case UpdatesFailed(i) => UpdateRequests[..UpdatesSent(Some(i))]
    case LimitsFailed => UpdateRequests + HomingRequests + [LimitsQuery]
    case Calibrated => UpdateRequests + HomingRequests + [LimitsQuery] + LimitSettings(maxAcc)
  }

  /** Calibration is a fixed script cut short at the first failure: every
      outcome sends a prefix of what a full calibration sends, and only a
      full one sends all eleven requests. */
  lemma CalibrationLogPrefix(outcome: Calibration, maxAcc: Float32)
    ensures CalibrationLog(outcome, maxAcc) <= CalibrationLog(Calibrated, maxAcc)
    ensures |CalibrationLog(Calibrated, maxAcc)| == 11
    ensures |CalibrationLog(outcome, maxAcc)| == 11 <==> outcome.Calibrated?
  {
    var full := CalibrationLog(Calibrated, maxAcc);
    match outcome
    case UpdatesFailed(i) =>
      assert UpdateRequests <= full;
    case LimitsFailed =>
      assert full == CalibrationLog(LimitsFailed, maxAcc) + LimitSettings(maxAcc);
    case Calibrated =>
  }

  /** How a calibration that starts reading at reply `from` ends: at the
      first update request the gripper leaves without a reply, at a limits
      query left without a reply long enough to read, or with every step
      through.  The replies to homing and taring are read but not looked at. */
  function CalibrationOutcome(replies: seq<ReturnMessage.WsgReturnMessage>, from: nat): Calibration
  {
    var updates := RunUpdates(replies, from, 0);
    if updates.failed.Some? then UpdatesFailed(updates.failed.value)
    else if LimitsAt(replies, HomingEnd(replies, updates.next)).Err? then LimitsFailed
    else Calibrated
  }

  /** Where the limits query of a calibration starting at reply `from`
      begins to read. */
  function LimitsQueryAt(replies: seq<ReturnMessage.WsgReturnMessage>, from: nat): nat
  {
    HomingEnd(replies, RunUpdates(replies, from, 0).next)
  }

  /** A gripper that answers every calibration step in order, the limits
      query with a reply long enough to read, gets calibration through, and
      all eleven requests go out. */
  lemma CalibrationGetsThrough(replies: seq<ReturnMessage.WsgReturnMessage>, from: nat, maxAcc: Float32)
    requires UpdatesAnswered(replies, from, 0, 5)
    requires AnsweredInOrder(replies, from + 5, HomingCodes)
    requires AnsweredInOrder(replies, from + 8, [CM.Command.GetSystemLimits.Code()]) && |replies[from + 8].params| >= 32
    ensures CalibrationOutcome(replies, from) == Calibrated
    ensures LimitsAt(replies, LimitsQueryAt(replies, from)) == Ok(LimitsOf(replies[from + 8].params))
    ensures |CalibrationLog(CalibrationOutcome(replies, from), maxAcc)| == 11
  {
    UpdatesGoThrough(replies, from, 0);
    HomingAnswered(replies, from + 5);
    LimitsAnswered(replies, from + 8);
    CalibrationLogPrefix(Calibrated, maxAcc);
  }

  /** The first update request the gripper never answers ends calibration
      there, with only the requests up to it sent. */
  lemma CalibrationStopsAtUnanswered(replies: seq<ReturnMessage.WsgReturnMessage>, from: nat, j: nat, maxAcc: Float32)
    requires j < 5 && UpdatesAnswered(replies, from, 0, j)
    requires forall i :: from + j <= i < |replies| ==> !Terminal(UpdateStreams[j].Code(), replies[i])
    ensures CalibrationOutcome(replies, from) == UpdatesFailed(j)
    ensures CalibrationLog(CalibrationOutcome(replies, from), maxAcc) == UpdateRequests[..j + 1]
  {
    UpdatesStopAtUnanswered(replies, from, 0, j);
  }

  /** With the updates, homing and taring answered in order, a limits query
      the gripper never answers ends calibration after the query. */
  lemma CalibrationStopsAtUnansweredLimits(replies: seq<ReturnMessage.WsgReturnMessage>, from: nat)
    requires UpdatesAnswered(replies, from, 0, 5) && AnsweredInOrder(replies, from + 5, HomingCodes)
    requires forall i :: from + 8 <= i < |replies| ==> !Terminal(CM.Command.GetSystemLimits.Code(), replies[i])
    ensures CalibrationOutcome(replies, from) == LimitsFailed
  {
    UpdatesGoThrough(replies, from, 0);
    HomingAnswered(replies, from + 5);
    AwaitNeverAnswered(CM.Command.GetSystemLimits.Code(), replies, from + 8, QueryTimeoutMs);
  }

  /** The requests that change the target: the force limit (awaited), a stop,
      then a non-blocking absolute move that clamps on a block, at the
      maximum speed. */
  function RetargetRequests(force: Float32, position: Float32, maxSpeed: Float32): seq<Request>
  {
    [Request(CM.Command.SetForceLimit.Code(), FloatPayload(force)),
     Request(CM.Command.Stop.Code(), []),
     Request(CM.Command.PrePosition.Code(), PrepositionPayload(ClampOnBlock, Absolute, position, maxSpeed))]
  }

  /** The calibration script: turns on the five update streams, homes
      inward then outward, tares, reads the physical limits, clears the soft
      limits and sets the acceleration to the maximum.  The replies to
      homing, tare, clearing and acceleration are not checked.  An update
      request left without a final reply ends calibration there; so does a
      limits query left without one or answered by one too short to hold the
      limits (where the source reads past the reply's end and goes on).
      `limits` are those of a final reply to the limits query. */
  method Calibrate(wsg: Wsg) returns (outcome: Calibration, limits: PhysicalLimits)
    modifies wsg
    ensures outcome == CalibrationOutcome(wsg.replies, old(wsg.received))
    ensures outcome.Calibrated? ==> limits == LimitsAt(wsg.replies, LimitsQueryAt(wsg.replies, old(wsg.received))).value
    ensures outcome.UpdatesFailed? ==> wsg.log == old(wsg.log) + UpdateRequests[..UpdatesSent(Some(outcome.stream))]
    ensures outcome.LimitsFailed? ==> wsg.log == old(wsg.log) + (UpdateRequests + HomingRequests + [LimitsQuery])
    ensures outcome.Calibrated? ==>
      wsg.log == old(wsg.log) + (UpdateRequests + HomingRequests + [LimitsQuery] + LimitSettings(limits.maxAcc))
    ensures old(wsg.received) <= wsg.received
    ensures outcome.Calibrated? ==>
      exists i :: old(wsg.received) <= i < wsg.received && i < |wsg.replies| && LimitsAnswer(wsg.replies[i], limits)
  {
    limits := NoLimits;
    ghost var sent := wsg.log;
    var failed := TurnOnStatusUpdates(wsg);
    if failed.Some? {
      return UpdatesFailed(failed.value), limits;
    }
    AllUpdatesSent();
    HomeAndTare(wsg);
    LogsAppend(sent, UpdateRequests, HomingRequests);

    ghost var from := wsg.received;
    var answer := wsg.GetPhysicalLimits();
    LogsAppend(sent, UpdateRequests + HomingRequests, [LimitsQuery]);
    if answer.Err? {
      return LimitsFailed, limits;
    }
    limits := answer.value;
    LimitsFromReply(wsg.replies, from, QueryTimeoutMs);
    ghost var at := from + Await(CM.Command.GetSystemLimits.Code(), wsg.replies, from, QueryTimeoutMs).consumed - 1;

    ghost var queried := wsg.log;
    var cleared := wsg.ClearSoftLimits();
    var accelerated := wsg.SetAcceleration(limits.maxAcc);
    assert wsg.log == queried + LimitSettings(limits.maxAcc);
    LogsAppend(sent, UpdateRequests + HomingRequests + [LimitsQuery], LimitSettings(limits.maxAcc));
    outcome := Calibrated;
    assert old(wsg.received) <= at < wsg.received;
  }

  class PositionForceControl {
    /** The gripper, owned by this controller. */
    const wsg: Wsg
    /** The narrowing of a requested `double` to the `float` the device takes. */
    const narrow: real -> Float32

    var systemState: u32
    var graspingState: byte
    var lastPosition: Float32
    var lastForce: Float32
    var lastSpeed: Float32
    /** The target the gripper is executing. */
    var executingPosition: real
    var executingForce: real
    var physicalLimits: PhysicalLimits

    /** The status this controller has cached. */
    function Cached(): Cache
      reads this
    {
      Cache(systemState, graspingState, lastPosition, lastForce, lastSpeed)
    }

    /** Takes the gripper over; nothing is sent.  Every cached value, target
        and limit starts at zero, the grasping state at idle. */
    constructor (wsg: Wsg, narrow: real -> Float32)
      ensures this.wsg == wsg && this.narrow == narrow
      ensures Cached() == Cache(0, ReturnMessage.GraspingState.Idle.Code(), FloatZero, FloatZero, FloatZero)
      ensures executingPosition == 0.0 && executingForce == 0.0 && physicalLimits == NoLimits
    {
      this.wsg := wsg;
      this.narrow := narrow;
      systemState := 0;
      graspingState := ReturnMessage.GraspingState.Idle.Code();
      lastPosition := FloatZero;
      lastForce := FloatZero;
      lastSpeed := FloatZero;
      executingPosition := 0.0;
      executingForce := 0.0;
      physicalLimits := NoLimits;
    }

    /** Calibrates the gripper and, when calibration gets through, keeps the
        physical limits it read; nothing else in the controller changes. */
    method DoCalibrationSteps() returns (outcome: Calibration)
      modifies this, wsg
      ensures outcome == CalibrationOutcome(wsg.replies, old(wsg.received))
      ensures outcome.Calibrated? ==> physicalLimits == LimitsAt(wsg.replies, LimitsQueryAt(wsg.replies, old(wsg.received))).value
      ensures wsg.log == old(wsg.log) + CalibrationLog(outcome, physicalLimits.maxAcc)
      ensures old(wsg.received) <= wsg.received
      ensures !outcome.Calibrated? ==> physicalLimits == old(physicalLimits)
      ensures outcome.Calibrated? ==>
        exists i :: old(wsg.received) <= i < wsg.received && i < |wsg.replies| && LimitsAnswer(wsg.replies[i], physicalLimits)
      ensures Cached() == old(Cached())
      ensures executingPosition == old(executingPosition) && executingForce == old(executingForce)
    {
      var limits;
      outcome, limits := Calibrate(wsg);
      if outcome.Calibrated? {
        physicalLimits := limits;
      }
    }

    /** Moves toward `position` with at most `force`, unless both lie within
        the deadband of the target being executed.  The force limit is
        awaited (its outcome ignored), then a stop and the move go out without
        waiting.  The targets are taken as given: no clamping to the limits. */
    method SetPositionAndForce(position: real, force: real)
      modifies this, wsg
      ensures InDeadband(old(executingPosition), old(executingForce), position, force) ==>
        && wsg.log == old(wsg.log) && wsg.received == old(wsg.received)
        && executingPosition == old(executingPosition) && executingForce == old(executingForce)
      ensures !InDeadband(old(executingPosition), old(executingForce), position, force) ==>
        && wsg.log == old(wsg.log) + RetargetRequests(narrow(force), narrow(position), physicalLimits.maxSpeed)
        && wsg.received == old(wsg.received) + Await(CM.Command.SetForceLimit.Code(), wsg.replies, old(wsg.received), QueryTimeoutMs).consumed
        && executingPosition == position && executingForce == force
      ensures Cached() == old(Cached()) && physicalLimits == old(physicalLimits)
    {
      if Abs(force - executingForce) < ForceDeadband && Abs(position - executingPosition) < PositionDeadbandMm {
        return;
      }
      var limited := wsg.SetForceLimit(narrow(force));
      wsg.Stop();
      wsg.PrepositionNonblocking(ClampOnBlock, Absolute, narrow(position), physicalLimits.maxSpeed);
      executingForce := force;
      executingPosition := position;
    }

    /** One pass of the `Task` loop body: a successful reply to one of the
        update streams overwrites the matching cached value; anything else is
        discarded. */
    method Absorb(m: ReturnMessage.WsgReturnMessage)
      modifies this
      ensures Cached() == Apply(old(Cached()), m, true)
      ensures executingPosition == old(executingPosition) && executingForce == old(executingForce)
      ensures physicalLimits == old(physicalLimits)
    {
      if m.status != ReturnMessage.E_SUCCESS {
        return;
      }
      if m.command == CM.Command.GetSystemState.Code() {
        if |m.params| >= 4 {
          systemState := DecodeU32(m.params[..4]);
        }
      } else if m.command == CM.Command.GetGraspState.Code() {
        if |m.params| >= 1 {
          graspingState := m.params[0];
        }
      } else if m.command == CM.Command.GetOpeningWidth.Code() {
        if |m.params| >= 4 {
          lastPosition := m.params[..4];
        }
      } else if m.command == CM.Command.GetForce.Code() {
        if |m.params| >= 4 {
          lastForce := m.params[..4];
        }
      } else if m.command == CM.Command.GetSpeed.Code() {
        if |m.params| >= 4 {
          lastSpeed := m.params[..4];
        }
      }
    }

    /** Takes every reply of the session not yet read, in order, into the
        cache: the receive loop ends only when the session has no reply left. */
    method Task()
      modifies this, wsg
      ensures Cached() == Drain(old(Cached()), old(wsg.Unread()), true)
      ensures wsg.Unread() == [] && wsg.log == old(wsg.log)
      ensures executingPosition == old(executingPosition) && executingForce == old(executingForce)
      ensures physicalLimits == old(physicalLimits)
    {
      ghost var start := Cached();
      ghost var queued := wsg.Unread();
      ghost var n := 0;
      var msg := wsg.Receive();
      while msg.Some?
        invariant n <= |queued| && Cached() == Drain(start, queued[..n], true)
        invariant msg.Some? ==> n < |queued| && msg.value == queued[n] && wsg.received == old(wsg.received) + n + 1
        invariant msg.None? ==> n == |queued| && wsg.Unread() == []
        invariant wsg.log == old(wsg.log) && physicalLimits == old(physicalLimits)
        invariant executingPosition == old(executingPosition) && executingForce == old(executingForce)
        decreases |queued| - n + (if msg.Some? then 1 else 0)
      {
        Absorb(msg.value);
        DrainSnoc(start, queued, n, true);
        n := n + 1;
        ghost var drained := Cached();
        msg := wsg.Receive();
        assert Cached() == drained;
      }
      assert queued[..n] == queued;
    }

    /** The last reported opening width. */
    function PositionMm(): (v: Float32)
      reads this
      ensures v == Get(Cached(), PositionField)
    {
      lastPosition
    }

    /** The last reported applied force. */
    function Force(): (v: Float32)
      reads this
      ensures v == Get(Cached(), ForceField)
    {
      lastForce
    }

    /** The last reported speed. */
    function SpeedMmPerS(): (v: Float32)
      reads this
      ensures v == Get(Cached(), SpeedField)
    {
      lastSpeed
    }
  }
}
