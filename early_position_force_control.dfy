/** The first position/force controller, against the first driver: its
    calibration turns on the updates, homes and tares and stops there; its
    `SetPositionAndForce` has no body yet; its `Task` keeps the system state,
    the grasping state, the opening width and the force, but not the speed. */
module EarlyPositionForceControl {
  import opened Wrappers
  import opened Bytes
  import CM = CommandMessage
  import ReturnMessage
  import opened Device
  import opened DeviceState
  import Later = PositionForceControl

  /** The requests a calibration sends when the update request at index
      `failed` goes unanswered (the failed assertion ends the program), or,
      with every update answered, all five followed by homing and taring. */
  function EarlyCalibrationLog(failed: Option<nat>): seq<Request>
  {
    if failed.Some? then UpdateRequests[..UpdatesSent(failed)] else UpdateRequests + HomingRequests
  }

  /** The first calibration sends exactly what the later one sends up to the
      limits query, and stops there. */
  lemma EarlyCalibrationIsPrefix(failed: Option<nat>, maxAcc: Float32)
    requires failed.Some? ==> failed.value < 5
    ensures EarlyCalibrationLog(failed) <= Later.CalibrationLog(Calibrated, maxAcc)
    ensures failed.Some? ==> EarlyCalibrationLog(failed) == Later.CalibrationLog(UpdatesFailed(failed.value), maxAcc)
    ensures failed.None? ==> EarlyCalibrationLog(failed) + [LimitsQuery] == Later.CalibrationLog(LimitsFailed, maxAcc)
  {
    if failed.Some? {
      assert UpdateRequests <= Later.CalibrationLog(Calibrated, maxAcc);
    } else {
      assert Later.CalibrationLog(Calibrated, maxAcc) == EarlyCalibrationLog(failed) + ([LimitsQuery] + Later.LimitSettings(maxAcc));
    }
  }

  /** A gripper that answers every update request, homing and taring in
      order lets the first calibration through, after eight replies, having
      sent all five update requests, homing and taring. */
  lemma EarlyCalibrationGetsThrough(replies: seq<ReturnMessage.WsgReturnMessage>, from: nat)
    requires UpdatesAnswered(replies, from, 0, 5) && AnsweredInOrder(replies, from + 5, HomingCodes)
    ensures RunUpdates(replies, from, 0).failed.None?
    ensures HomingEnd(replies, RunUpdates(replies, from, 0).next) == from + 8
    ensures |EarlyCalibrationLog(RunUpdates(replies, from, 0).failed)| == 8
  {
    UpdatesGoThrough(replies, from, 0);
    HomingAnswered(replies, from + 5);
  }

  class PositionForceControl {
    /** The gripper, owned by this controller. */
    const wsg: Wsg

    var systemState: u32
    var graspingState: byte
    var lastPosition: Float32
    var lastForce: Float32

    /** The status this controller has cached; it keeps no speed. */
    function Cached(): Cache
      reads this
    {
      Cache(systemState, graspingState, lastPosition, lastForce, FloatZero)
    }

    /** Takes the gripper over; nothing is sent.  The cached values are never
        initialized, so they start as whatever `indeterminate` holds. */
    constructor (wsg: Wsg, indeterminate: Cache)
      ensures this.wsg == wsg
      ensures Cached() == indeterminate.(speed := FloatZero)
    {
      this.wsg := wsg;
      systemState := indeterminate.systemState;
      graspingState := indeterminate.graspingState;
      lastPosition := indeterminate.position;
      lastForce := indeterminate.force;
    }

    /** Turns on the five update streams, then homes inward, homes outward
        and tares.  `failed` is the index of an update request left without
        a reply, where the asserting driver ends the program. */
    method DoCalibrationSteps() returns (failed: Option<nat>)
      modifies wsg
      ensures failed == RunUpdates(wsg.replies, old(wsg.received), 0).failed
      ensures failed.Some? ==> failed.value < 5 && wsg.received == RunUpdates(wsg.replies, old(wsg.received), 0).next
      ensures failed.None? ==> wsg.received == HomingEnd(wsg.replies, RunUpdates(wsg.replies, old(wsg.received), 0).next)
      ensures wsg.log == old(wsg.log) + EarlyCalibrationLog(failed)
      ensures old(wsg.received) <= wsg.received
    {
      ghost var sent := wsg.log;
      failed := TurnOnStatusUpdates(wsg);
      if failed.Some? {
        return;
      }
      AllUpdatesSent();
      HomeAndTare(wsg);
      LogsAppend(sent, UpdateRequests, HomingRequests);
    }

    /** Not written yet: the body holds only the plan in comments. */
    method SetPositionAndForce(position: real, force: real)
    {
    }

    /** One pass of the `Task` loop body; speed updates are discarded. */
    method Absorb(m: ReturnMessage.WsgReturnMessage)
      modifies this
      ensures Cached() == Apply(old(Cached()), m, false)
    {
      if m.status != ReturnMessage.E_SUCCESS {
        return;
      }
      if m.command == CM.Command.GetSystemState.Code() {
        if |m.params| >= 4 {
          systemState := DecodeU32(m.params[..4]);
        }
      } else if m.command == CM.Command.GetGraspState.Code() {
        if |m.params| >= 1 {
          graspingState := m.params[0];
        }
      } else if m.command == CM.Command.GetOpeningWidth.Code() {
        if |m.params| >= 4 {
          lastPosition := m.params[..4];
        }
      } else if m.command == CM.Command.GetForce.Code() {
        if |m.params| >= 4 {
          lastForce := m.params[..4];
        }
      }
    }

    /** Takes every reply of the session not yet read, in order, into the
        cache: the receive loop ends only when the session has no reply left. */
    method Task()
      modifies this, wsg
      ensures Cached() == Drain(old(Cached()), old(wsg.Unread()), false)
      ensures wsg.Unread() == [] && wsg.log == old(wsg.log)
    {
      ghost var start := Cached();
      ghost var queued := wsg.Unread();
      ghost var n := 0;
      var msg := wsg.Receive();
      while msg.Some?
        invariant n <= |queued| && Cached() == Drain(start, queued[..n], false)
        invariant msg.Some? ==> n < |queued| && msg.value == queued[n] && wsg.received == old(wsg.received) + n + 1
        invariant msg.None? ==> n == |queued| && wsg.Unread() == []
        invariant wsg.log == old(wsg.log)
        decreases |queued| - n + (if msg.Some? then 1 else 0)
      {
        Absorb(msg.value);
        DrainSnoc(start, queued, n, false);
        n := n + 1;
        ghost var drained := Cached();
        msg := wsg.Receive();
        assert Cached() == drained;
      }
      assert queued[..n] == queued;
    }

    /** The last reported opening width. */
    function PositionMm(): (v: Float32)
      reads this
      ensures v == Get(Cached(), PositionField)
    {
      lastPosition
    }

    /** The last reported applied force. */
    function Force(): (v: Float32)
      reads this
      ensures v == Get(Cached(), ForceField)
    {
      lastForce
    }
  }
}
