/** The position-only controller: it sets an initial force limit, homes,
    tares, turns on the updates and reads the physical limits while it is
    being built; afterwards it moves the fingers with a stop plus a
    non-blocking preposition, sets force limits on request, and keeps the
    latest reported status (no speed). */
module PositionControl {
  import opened Wrappers
  import opened Bytes
  import CM = CommandMessage
  import ReturnMessage
  import opened Device
  import opened DeviceState
  import Later = PositionForceControl

  /** The float -1.0, the value the reported position and force hold until
      the first update arrives. */
  const MinusOne: Float32 := [0x00, 0x00, 0x80, 0xBF]

  /** The requests every construction begins with: the initial force limit,
      homing inward, homing outward and tare. */
  function StartupPrefix(initialForceLimit: Float32): seq<Request>
  {
    [Request(CM.Command.SetForceLimit.Code(), FloatPayload(initialForceLimit))] + HomingRequests
  }

  /** The requests construction sends when it ends with `outcome`: the
      opening requests, then the update requests up to the failing one, or
      all of them and the limits query.  A missing reply to the limits query
      comes after everything has been sent. */
  function StartupLog(outcome: Calibration, initialForceLimit: Float32): seq<Request>
  {
    StartupPrefix(initialForceLimit)
      + if outcome.UpdatesFailed? then UpdateRequests[..UpdatesSent(Some(outcome.stream))] else UpdateRequests + [LimitsQuery]
  }

  /** A failed construction sent a prefix of what a full one sends, and a
      missing reply to the limits query comes after everything was sent. */
  lemma StartupLogPrefix(outcome: Calibration, initialForceLimit: Float32)
    ensures StartupLog(outcome, initialForceLimit) <= StartupLog(Calibrated, initialForceLimit)
    ensures StartupLog(LimitsFailed, initialForceLimit) == StartupLog(Calibrated, initialForceLimit)
  {
    var prefix := StartupPrefix(initialForceLimit);
    if outcome.UpdatesFailed? {
      var sent := UpdateRequests[..UpdatesSent(Some(outcome.stream))];
      assert StartupLog(Calibrated, initialForceLimit) == prefix + sent + (UpdateRequests[|sent|..] + [LimitsQuery]);
    }
  }

  /** Swapping two adjacent runs keeps the same requests. */
  lemma SwapRuns<T>(a: seq<T>, b: seq<T>, c: seq<T>, d: seq<T>)
    ensures multiset(a + b + c + d) == multiset(a + (c + b + d))
  {
    calc {
      multiset(a + b + c + d);
      multiset(a) + multiset(b) + multiset(c) + multiset(d);
      multiset(a) + (multiset(c) + multiset(b) + multiset(d));
      multiset(a + (c + b + d));
    }
  }

  /** A full construction sends the requests the position/force controller's
      calibration sends up to the limits query, with homing moved ahead of
      the updates and the initial force limit ahead of everything. */
  lemma StartupReordersCalibration(initialForceLimit: Float32, maxAcc: Float32)
    ensures multiset(StartupLog(Calibrated, initialForceLimit))
         == multiset([Request(CM.Command.SetForceLimit.Code(), FloatPayload(initialForceLimit))] + Later.CalibrationLog(LimitsFailed, maxAcc))
  {
    var limit := [Request(CM.Command.SetForceLimit.Code(), FloatPayload(initialForceLimit))];
    assert StartupLog(Calibrated, initialForceLimit) == limit + HomingRequests + UpdateRequests + [LimitsQuery] by {
      LogsAppend(limit + HomingRequests, UpdateRequests, [LimitsQuery]);
    }
    assert Later.CalibrationLog(LimitsFailed, maxAcc) == UpdateRequests + HomingRequests + [LimitsQuery];
    SwapRuns(limit, HomingRequests, UpdateRequests, [LimitsQuery]);
  }

  /** Where the update requests of a start-up reading from reply `from`
      begin to read: after the wait for the initial force limit, homing and
      taring. */
  function StartupUpdatesAt(replies: seq<ReturnMessage.WsgReturnMessage>, from: nat): nat
  {
    HomingEnd(replies, After(CM.Command.SetForceLimit.Code(), replies, from, QueryTimeoutMs))
  }

  /** Where the limits query of a start-up reading from reply `from` begins
      to read. */
  function StartupLimitsAt(replies: seq<ReturnMessage.WsgReturnMessage>, from: nat): nat
  {
    RunUpdates(replies, StartupUpdatesAt(replies, from), 0).next
  }

  /** How a construction that starts reading at reply `from` ends: at the
      first update request the gripper leaves without a reply, at a limits
      query left without a reply long enough to read, or with every step
      through.  The replies to the force limit, homing and taring are read
      but not looked at. */
  function StartupOutcome(replies: seq<ReturnMessage.WsgReturnMessage>, from: nat): Calibration
  {
    var updates := RunUpdates(replies, StartupUpdatesAt(replies, from), 0);
    if updates.failed.Some? then UpdatesFailed(updates.failed.value)
    else if LimitsAt(replies, updates.next).Err? then LimitsFailed
    else Calibrated
  }

  /** A gripper that answers the force limit, homing and taring in order
      has the update requests read from the fifth reply on. */
  lemma StartupPrepared(replies: seq<ReturnMessage.WsgReturnMessage>, from: nat)
    requires AnsweredInOrder(replies, from, [CM.Command.SetForceLimit.Code()])
    requires AnsweredInOrder(replies, from + 1, HomingCodes)
    ensures StartupUpdatesAt(replies, from) == from + 4
  {
    assert Terminal([CM.Command.SetForceLimit.Code()][0], replies[from + 0]);
    AwaitAnsweredAtOnce(CM.Command.SetForceLimit.Code(), replies, from, QueryTimeoutMs);
    HomingAnswered(replies, from + 1);
  }

  /** A gripper that answers the force limit, homing, taring, the update
      requests and the limits query in order, the last with a reply long
      enough to read, lets construction through with the limits of that
      reply, after all ten requests went out. */
  lemma StartupGetsThrough(replies: seq<ReturnMessage.WsgReturnMessage>, from: nat, initialForceLimit: Float32)
    requires AnsweredInOrder(replies, from, [CM.Command.SetForceLimit.Code()])
    requires AnsweredInOrder(replies, from + 1, HomingCodes)
    requires UpdatesAnswered(replies, from + 4, 0, 5)
    requires AnsweredInOrder(replies, from + 9, [CM.Command.GetSystemLimits.Code()]) && |replies[from + 9].params| >= 32
    ensures StartupOutcome(replies, from) == Calibrated
    ensures LimitsAt(replies, StartupLimitsAt(replies, from)) == Ok(LimitsOf(replies[from + 9].params))
    ensures |StartupLog(StartupOutcome(replies, from), initialForceLimit)| == 10
  {
    StartupPrepared(replies, from);
    UpdatesGoThrough(replies, from + 4, 0);
    LimitsAnswered(replies, from + 9);
  }

  /** With the force limit, homing and taring answered, the first update
      request the gripper never answers ends construction there, with only
      the requests up to it sent. */
  lemma StartupStopsAtUnanswered(replies: seq<ReturnMessage.WsgReturnMessage>, from: nat, j: nat, initialForceLimit: Float32)
    requires AnsweredInOrder(replies, from, [CM.Command.SetForceLimit.Code()])
    requires AnsweredInOrder(replies, from + 1, HomingCodes)
    requires j < 5 && UpdatesAnswered(replies, from + 4, 0, j)
    requires forall i :: from + 4 + j <= i < |replies| ==> !Terminal(UpdateStreams[j].Code(), replies[i])
    ensures StartupOutcome(replies, from) == UpdatesFailed(j)
    ensures |StartupLog(StartupOutcome(replies, from), initialForceLimit)| == 5 + j
  {
    StartupPrepared(replies, from);
    UpdatesStopAtUnanswered(replies, from + 4, 0, j);
  }

  /** With every earlier step answered, a limits query the gripper never
      answers fails construction after all ten requests went out. */
  lemma StartupStopsAtUnansweredLimits(replies: seq<ReturnMessage.WsgReturnMessage>, from: nat, initialForceLimit: Float32)
    requires AnsweredInOrder(replies, from, [CM.Command.SetForceLimit.Code()])
    requires AnsweredInOrder(replies, from + 1, HomingCodes)
    requires UpdatesAnswered(replies, from + 4, 0, 5)
    requires forall i :: from + 9 <= i < |replies| ==> !Terminal(CM.Command.GetSystemLimits.Code(), replies[i])
    ensures StartupOutcome(replies, from) == LimitsFailed
    ensures StartupLog(StartupOutcome(replies, from), initialForceLimit) == StartupLog(Calibrated, initialForceLimit)
  {
    StartupPrepared(replies, from);
    UpdatesGoThrough(replies, from + 4, 0);
    AwaitNeverAnswered(CM.Command.GetSystemLimits.Code(), replies, from + 9, QueryTimeoutMs);
    StartupLogPrefix(LimitsFailed, initialForceLimit);
  }

  /** The opening steps of construction: sets the initial force limit
      (awaited, outcome ignored), homes inward then outward and tares. */
  method Prepare(wsg: Wsg, initialForceLimit: Float32)
    modifies wsg
    ensures wsg.received == StartupUpdatesAt(wsg.replies, old(wsg.received))
    ensures wsg.log == old(wsg.log) + StartupPrefix(initialForceLimit)
  {
    ghost var replies, start, sent := wsg.replies, wsg.received, wsg.log;
    var limited := wsg.SetForceLimit(initialForceLimit);
    assert wsg.received == After(CM.Command.SetForceLimit.Code(), replies, start, QueryTimeoutMs);
    HomeAndTare(wsg);
    LogsAppend(sent, [Request(CM.Command.SetForceLimit.Code(), FloatPayload(initialForceLimit))], HomingRequests);
  }

  /** The start-up script against the gripper alone: the opening steps, then
      the five update streams and the physical limits.  An update request
      left without a final reply ends it there; so does a limits query left
      without one or answered by one too short to hold the limits (where the
      source reads past the reply's end and goes on).  `limits` are those of
      a final reply to the limits query. */
  method Start(wsg: Wsg, initialForceLimit: Float32) returns (outcome: Calibration, limits: PhysicalLimits)
    modifies wsg
    ensures outcome == StartupOutcome(wsg.replies, old(wsg.received))
    ensures outcome.Calibrated? ==> limits == LimitsAt(wsg.replies, StartupLimitsAt(wsg.replies, old(wsg.received))).value
    ensures outcome.UpdatesFailed? ==>
      wsg.log == old(wsg.log) + (StartupPrefix(initialForceLimit) + UpdateRequests[..UpdatesSent(Some(outcome.stream))])
    ensures !outcome.UpdatesFailed? ==> wsg.log == old(wsg.log) + (StartupPrefix(initialForceLimit) + (UpdateRequests + [LimitsQuery]))
    ensures old(wsg.received) <= wsg.received
    ensures outcome.Calibrated? ==>
      exists i :: old(wsg.received) <= i < wsg.received && i < |wsg.replies| && LimitsAnswer(wsg.replies[i], limits)
  {
    limits := NoLimits;
    ghost var sent := wsg.log;
    Prepare(wsg, initialForceLimit);
    ghost var prefix := StartupPrefix(initialForceLimit);
    var failed := TurnOnStatusUpdates(wsg);
    if failed.Some? {
      LogsAppend(sent, prefix, UpdateRequests[..UpdatesSent(failed)]);
      return UpdatesFailed(failed.value), limits;
    }
    AllUpdatesSent();

    ghost var from := wsg.received;
    var answer := wsg.GetPhysicalLimits();
    LogsAppend(sent + prefix, UpdateRequests, [LimitsQuery]);
    LogsAppend(sent, prefix, UpdateRequests + [LimitsQuery]);
    if answer.Err? {
      return LimitsFailed, limits;
    }
    limits := answer.value;
    LimitsFromReply(wsg.replies, from, QueryTimeoutMs);
    outcome := Calibrated;
  }

  /** The two requests that start a move: a stop, then an absolute move that
      clamps on a block, at `speed`. */
  function MoveRequests(position: Float32, speed: Float32): seq<Request>
  {
    [Request(CM.Command.Stop.Code(), []),
     Request(CM.Command.PrePosition.Code(), PrepositionPayload(ClampOnBlock, Absolute, position, speed))]
  }

  class PositionControl {
    /** The gripper, owned by this controller. */
    const wsg: Wsg
    /** The narrowing of a requested `double` to the `float` the device takes. */
    const narrow: real -> Float32

    var systemState: u32
    var graspingState: byte
    var lastPosition: Float32
    var lastForce: Float32
    var physicalLimits: PhysicalLimits

    /** The status this controller has cached; it keeps no speed. */
    function Cached(): Cache
      reads this
    {
      Cache(systemState, graspingState, lastPosition, lastForce, FloatZero)
    }

    /** The object once construction has gone through: the system state and
        the grasping state are never initialized, position and force hold -1. */
    constructor Init(wsg: Wsg, narrow: real -> Float32, indeterminate: Cache, limits: PhysicalLimits)
      ensures this.wsg == wsg && this.narrow == narrow && physicalLimits == limits
      ensures Cached() == Cache(indeterminate.systemState, indeterminate.graspingState, MinusOne, MinusOne, FloatZero)
    {
      this.wsg := wsg;
      this.narrow := narrow;
      systemState := indeterminate.systemState;
      graspingState := indeterminate.graspingState;
      lastPosition := MinusOne;
      lastForce := MinusOne;
      physicalLimits := limits;
    }

    /** Construction: runs the start-up script, then builds the controller
        with the limits it read.  A missing reply to an update request or to
        the limits query throws out of the constructor, so no controller
        comes into being. */
    static method Create(wsg: Wsg, narrow: real -> Float32, initialForceLimit: Float32, indeterminate: Cache)
      returns (control: Option<PositionControl>, outcome: Calibration)
      modifies wsg
      ensures outcome == StartupOutcome(wsg.replies, old(wsg.received))
      ensures control.Some? <==> outcome.Calibrated?
      ensures wsg.log == old(wsg.log) + StartupLog(outcome, initialForceLimit)
      ensures old(wsg.received) <= wsg.received
      ensures control.Some? ==>
        && fresh(control.value)
        && control.value.wsg == wsg && control.value.narrow == narrow
        && control.value.Cached() == Cache(indeterminate.systemState, indeterminate.graspingState, MinusOne, MinusOne, FloatZero)
        && control.value.physicalLimits == LimitsAt(wsg.replies, StartupLimitsAt(wsg.replies, old(wsg.received))).value
        && exists i :: old(wsg.received) <= i < wsg.received && i < |wsg.replies| && LimitsAnswer(wsg.replies[i], control.value.physicalLimits)
    {
      var limits;
      outcome, limits := Start(wsg, initialForceLimit);
      if !outcome.Calibrated? {
        return None, outcome;
      }
      var c := new PositionControl.Init(wsg, narrow, indeterminate, limits);
      control := Some(c);
    }

    /** Stops, then starts an absolute move to `position` at `speed` that
        clamps on a block; nothing is awaited. */
    method SetPosition(position: real, speed: real)
      modifies wsg
      ensures wsg.log == old(wsg.log) + MoveRequests(narrow(position), narrow(speed))
      ensures wsg.received == old(wsg.received)
    {
      wsg.Stop();
      wsg.PrepositionNonblocking(ClampOnBlock, Absolute, narrow(position), narrow(speed));
    }

    /** Sets the force limit, waiting for a final reply whose outcome is
        ignored. */
    method SetForceLimit(force: real)
      modifies wsg
      ensures wsg.log == old(wsg.log) + [Request(CM.Command.SetForceLimit.Code(), FloatPayload(narrow(force)))]
      ensures wsg.received == old(wsg.received) + Await(CM.Command.SetForceLimit.Code(), wsg.replies, old(wsg.received), QueryTimeoutMs).consumed
    {
      var limited := wsg.SetForceLimit(narrow(force));
    }

    /** One pass of the `Task` loop body; speed updates are discarded. */
    method Absorb(m: ReturnMessage.WsgReturnMessage)
      modifies this
      ensures Cached() == Apply(old(Cached()), m, false)
      ensures physicalLimits == old(physicalLimits)
    {
      if m.status != ReturnMessage.E_SUCCESS {
        return;
      }
      if m.command == CM.Command.GetSystemState.Code() {
        if |m.params| >= 4 {
          systemState := DecodeU32(m.params[..4]);
        }
      } else if m.command == CM.Command.GetGraspState.Code() {
        if |m.params| >= 1 {
          graspingState := m.params[0];
        }
      } else if m.command == CM.Command.GetOpeningWidth.Code() {
        if |m.params| >= 4 {
          lastPosition := m.params[..4];
        }
      } else if m.command == CM.Command.GetForce.Code() {
        if |m.params| >= 4 {
          lastForce := m.params[..4];
        }
      }
    }

    /** Takes every reply of the session not yet read, in order, into the
        cache: the receive loop ends only when the session has no reply left. */
    method Task()
      modifies this, wsg
      ensures Cached() == Drain(old(Cached()), old(wsg.Unread()), false)
      ensures wsg.Unread() == [] && wsg.log == old(wsg.log)
      ensures physicalLimits == old(physicalLimits)
    {
      ghost var start := Cached();
      ghost var queued := wsg.Unread();
      ghost var n := 0;
      var msg := wsg.Receive();
      while msg.Some?
        invariant n <= |queued| && Cached() == Drain(start, queued[..n], false)
        invariant msg.Some? ==> n < |queued| && msg.value == queued[n] && wsg.received == old(wsg.received) + n + 1
        invariant msg.None? ==> n == |queued| && wsg.Unread() == []
        invariant wsg.log == old(wsg.log) && physicalLimits == old(physicalLimits)
        decreases |queued| - n + (if msg.Some? then 1 else 0)
      {
        Absorb(msg.value);
        DrainSnoc(start, queued, n, false);
        n := n + 1;
        ghost var drained := Cached();
        msg := wsg.Receive();
        assert Cached() == drained;
      }
      assert queued[..n] == queued;
    }

    /** The last reported opening width. */
    function PositionMm(): (v: Float32)
      reads this
      ensures v == Get(Cached(), PositionField)
    {
      lastPosition
    }

    /** The last reported applied force. */
    function Force(): (v: Float32)
      reads this
      ensures v == Get(Cached(), ForceField)
    {
      lastForce
    }
  }
}
