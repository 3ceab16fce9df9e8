/** The gripper status the controllers cache from the device's periodic
    updates, and what their `Task` loops do to it: every queued reply is
    taken in arrival order, and a successful reply to one of the update
    streams overwrites the matching cached value. */
module DeviceState {
  import opened Bytes
  import CM = CommandMessage
  import opened ReturnMessage

  /** The cached status: the system-state word, the raw grasping-state byte
      (cast to the enumeration unchecked), and the last reported opening
      width, applied force and speed.  A controller without a speed field
      keeps the speed slot at a fixed value. */
  datatype Cache = Cache(systemState: u32, graspingState: byte, position: Float32, force: Float32, speed: Float32)

  /** The cached quantities, each fed by one update stream. */
  datatype Field = SystemStateField | GraspStateField | PositionField | ForceField | SpeedField
  {
    /** The command whose replies refresh this quantity. */
    function Stream(): CM.Command
    {
      match this
      case SystemStateField => CM.Command.GetSystemState
      case GraspStateField => CM.Command.GetGraspState
      case PositionField => CM.Command.GetOpeningWidth
      case ForceField => CM.Command.GetForce
      case SpeedField => CM.Command.GetSpeed
    }

    /** How many leading parameter bytes the copy reads. */
    function Width(): nat
    {
      if this == GraspStateField then 1 else 4
    }
  }

  /** A cached quantity as the bytes it was copied from. */
  function Get(c: Cache, f: Field): (v: seq<byte>)
    ensures |v| == f.Width()
  {
    match f
    case SystemStateField => U32Bytes(c.systemState)
    case GraspStateField => [c.graspingState]
    case PositionField => c.position
    case ForceField => c.force
    case SpeedField => c.speed
  }

  /** Two caches that agree on every quantity are the same cache. */
  lemma GetDetermines(c: Cache, d: Cache)
    requires forall f :: Get(c, f) == Get(d, f)
    ensures c == d
  {
    assert Get(c, SystemStateField) == Get(d, SystemStateField);
    assert DecodeU32(U32Bytes(c.systemState)) == DecodeU32(U32Bytes(d.systemState));
    assert Get(c, GraspStateField)[0] == Get(d, GraspStateField)[0];
    assert Get(c, PositionField) == Get(d, PositionField);
    assert Get(c, ForceField) == Get(d, ForceField);
    assert Get(c, SpeedField) == Get(d, SpeedField);
  }

  /** A reply refreshes a quantity when it reports success for that
      quantity's stream with enough parameter bytes; speed only when the
      controller keeps it. */
  predicate Refreshes(m: WsgReturnMessage, f: Field, tracksSpeed: bool)
  {
    && m.status == E_SUCCESS
    && m.command == f.Stream().Code()
    && |m.params| >= f.Width()
    && (f == SpeedField ==> tracksSpeed)
  }

  /** One pass of the `Task` loop body: failures, pending replies and replies
      to other commands leave the cache alone; each update stream writes its
      own value. */
  function Apply(c: Cache, m: WsgReturnMessage, tracksSpeed: bool): Cache
  {
    if m.status != E_SUCCESS then c
    else if m.command == CM.Command.GetSystemState.Code() then
      if |m.params| >= 4 then c.(systemState := DecodeU32(m.params[..4])) else c
    else if m.command == CM.Command.GetGraspState.Code() then
      if |m.params| >= 1 then c.(graspingState := m.params[0]) else c
    else if m.command == CM.Command.GetOpeningWidth.Code() then
      if |m.params| >= 4 then c.(position := m.params[..4]) else c
    else if m.command == CM.Command.GetForce.Code() then
      if |m.params| >= 4 then c.(force := m.params[..4]) else c
    else if tracksSpeed && m.command == CM.Command.GetSpeed.Code() then
      if |m.params| >= 4 then c.(speed := m.params[..4]) else c
    else c
  }

  /** A reply overwrites exactly the quantities it refreshes, with the
      leading bytes of its parameters, and leaves every other one alone. */
  lemma ApplyRefreshes(c: Cache, m: WsgReturnMessage, tracksSpeed: bool, f: Field)
    ensures Get(Apply(c, m, tracksSpeed), f) == if Refreshes(m, f, tracksSpeed) then m.params[..f.Width()] else Get(c, f)
  {
    if Refreshes(m, f, tracksSpeed) && f == SystemStateField {
      DecodeU32Inverse(m.params[..4]);
    }
  }

  /** The cache after the `Task` loop has taken every reply in `msgs`. */
  function Drain(c: Cache, msgs: seq<WsgReturnMessage>, tracksSpeed: bool): Cache
  {
    if msgs == [] then c
    else Apply(Drain(c, msgs[..|msgs| - 1], tracksSpeed), msgs[|msgs| - 1], tracksSpeed)
  }

  /** Taking the next reply extends the drained prefix by one. */
  lemma DrainSnoc(c: Cache, msgs: seq<WsgReturnMessage>, n: nat, tracksSpeed: bool)
    requires n < |msgs|
    ensures Drain(c, msgs[..n + 1], tracksSpeed) == Apply(Drain(c, msgs[..n], tracksSpeed), msgs[n], tracksSpeed)
  {
    assert msgs[..n + 1][..n] == msgs[..n];
  }

  /** A quantity no reply refreshes keeps its cached value. */
  lemma {:induction false} DrainUntouched(c: Cache, msgs: seq<WsgReturnMessage>, tracksSpeed: bool, f: Field)
    requires forall i :: 0 <= i < |msgs| ==> !Refreshes(msgs[i], f, tracksSpeed)
    ensures Get(Drain(c, msgs, tracksSpeed), f) == Get(c, f)
  {
    if msgs != [] {
      var n := |msgs| - 1;
      assert forall i :: 0 <= i < n ==> msgs[..n][i] == msgs[i];
      DrainUntouched(c, msgs[..n], tracksSpeed, f);
      ApplyRefreshes(Drain(c, msgs[..n], tracksSpeed), msgs[n], tracksSpeed, f);
    }
  }

  /** A quantity ends up holding what its latest refreshing reply carried. */
  lemma {:induction false} DrainLatest(c: Cache, msgs: seq<WsgReturnMessage>, tracksSpeed: bool, f: Field, i: nat)
    requires i < |msgs| && Refreshes(msgs[i], f, tracksSpeed)
    requires forall j :: i < j < |msgs| ==> !Refreshes(msgs[j], f, tracksSpeed)
    ensures Get(Drain(c, msgs, tracksSpeed), f) == msgs[i].params[..f.Width()]
  {
    var n := |msgs| - 1;
    if i < n {
      assert msgs[..n][i] == msgs[i];
      assert forall j :: i < j < n ==> msgs[..n][j] == msgs[j];
      DrainLatest(c, msgs[..n], tracksSpeed, f, i);
    }
    ApplyRefreshes(Drain(c, msgs[..n], tracksSpeed), msgs[n], tracksSpeed, f);
  }

  /** Two `Task` runs over consecutive batches of replies leave the cache as
      one run over both would. */
  lemma {:induction false} DrainConcat(c: Cache, a: seq<WsgReturnMessage>, b: seq<WsgReturnMessage>, tracksSpeed: bool)
    ensures Drain(c, a + b, tracksSpeed) == Drain(Drain(c, a, tracksSpeed), b, tracksSpeed)
  {
    if b == [] {
      assert a + b == a;
    } else {
      var n := |b| - 1;
      assert (a + b)[..|a + b| - 1] == a + b[..n];
      assert (a + b)[|a + b| - 1] == b[n];
      DrainConcat(c, a, b[..n], tracksSpeed);
    }
  }
}
