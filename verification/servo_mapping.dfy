/**
 * XArmDriver::Execute and XArmDriver::GetJointState: which servo each
 * joint is wired to, and the sign convention of the conversion.
 *
 * The conversion between radians and servo steps (750 / pi steps per
 * radian) is floating point and is not modelled: Execute takes each arm
 * joint's command already scaled to steps, and GetJointState returns each
 * arm joint's offset from the 500-step centre before it is scaled back.
 * The gripper's cubic calibration is not modelled either: Execute takes
 * the gripper's position as the polynomial's value, and GetJointState
 * returns the gripper servo's raw position.
 */
module ServoMapping {
  import opened Wrappers
  import opened ServoCodec

  /** JOINT_NUM */
  const JointNum: nat := 5
  /** Servo id of the gripper. */
  const GripperServoId: nat := 1
  /** Period, in milliseconds, of every gripper move. */
  const GripperPeriod: nat := 1500
  /** Servo position of a joint at zero radians. */
  const Centre: int := 500

  /** Joints (and servo slots) 2 and 3 turn the opposite way: `500 - ...` instead of `500 + ...`. */
  predicate Inverted(index: nat)
  {
    index == 2 || index == 3
  }

  /** Execute sends arm joint `joint` to servo id 6 - joint. */
  function ServoIdOfJoint(joint: nat): nat
    requires joint < JointNum
  {
    6 - joint
  }

  /** GetJointState reads arm joint 5 - slot from servo slot `slot` (servo id slot + 1). */
  function JointOfSlot(slot: nat): nat
    requires 1 <= slot < ServoNum
  {
    JointNum - slot
  }

  /**
   * The two index maps are mutually inverse, and they agree on which joints
   * are inverted: the slot a joint is read from is the one its servo id
   * names, and that slot is inverted exactly when the joint is.
   */
  lemma JointServoMapsInverse()
    ensures forall joint :: 0 <= joint < JointNum ==>
              && 1 <= ServoIdOfJoint(joint) - 1 < ServoNum
              && JointOfSlot(ServoIdOfJoint(joint) - 1) == joint
              && (Inverted(joint) <==> Inverted(ServoIdOfJoint(joint) - 1))
    ensures forall slot :: 1 <= slot < ServoNum ==>
              && JointOfSlot(slot) < JointNum
              && ServoIdOfJoint(JointOfSlot(slot)) - 1 == slot
  {
  }

  /** A double converted to int: truncation toward zero. */
  function Trunc(x: real): int
  {
    if x >= 0.0 then x.Floor else -((-x).Floor)
  }

  /** Truncation moves a value by less than one, and keeps a whole number. */
  lemma TruncClose(x: real)
    ensures x - 1.0 < Trunc(x) as real < x + 1.0
    ensures x == x.Floor as real ==> Trunc(x) as real == x
  {
    if x < 0.0 {
      var f := (-x).Floor;
      assert f as real <= -x < f as real + 1.0;
      if x == x.Floor as real {
        assert -x == (-(x.Floor)) as real;
      }
    }
  }

  /** The conversion of `x` to int is defined: its truncation fits in 32 bits. */
  predicate FitsInt32(x: real)
  {
    -2147483649.0 < x < 2147483648.0
  }

  lemma TruncFits(x: real)
    requires FitsInt32(x)
    ensures -0x8000_0000 <= Trunc(x) < 0x8000_0000
  {
    TruncClose(x);
  }

  /** The servo target of arm joint `joint` for a command of `steps` steps from the centre. */
  function JointTarget(joint: nat, steps: real): real
  {
    if Inverted(joint) then Centre as real - steps else Centre as real + steps
  }

  /** posCmdArray[joint]: the target truncated to int. */
  function JointPosition(joint: nat, steps: real): Int32
    requires FitsInt32(JointTarget(joint, steps))
  {
    TruncFits(JointTarget(joint, steps));
    Trunc(JointTarget(joint, steps))
  }

  /** The arm joint's offset from the centre as GetJointState computes it from servo slot `slot`. */
  function SlotSteps(slot: nat, position: int): int
  {
    if Inverted(slot) then Centre - position else position - Centre
  }

  /** The preconditions of Execute: each conversion to int is defined. */
  predicate ExecutableCommand(steps: seq<real>, gripper: real)
  {
    && |steps| == JointNum
    && (forall joint :: 0 <= joint < JointNum ==> FitsInt32(JointTarget(joint, steps[joint])))
    && FitsInt32(gripper)
  }

  /** The servo ids of Execute's arm command, in the order it lists them. */
  const ArmServoIds: seq<UInt32> := [2, 3, 4, 5, 6]

  /** The arm command lists servo ids 6 - joint in reverse joint order: joint j is entry 4 - j. */
  lemma ArmServoOrder()
    ensures |ArmServoIds| == JointNum
    ensures forall joint :: 0 <= joint < JointNum ==> ArmServoIds[JointNum - 1 - joint] == ServoIdOfJoint(joint)
    ensures forall k :: 0 <= k < JointNum ==> ArmServoIds[k] == k + 2
  {
  }

  /** The position list Execute sends with ArmServoIds: joints 4, 3, 2, 1, 0. */
  function ArmPositions(steps: seq<real>): (r: seq<Int32>)
    requires |steps| == JointNum
    requires forall joint :: 0 <= joint < JointNum ==> FitsInt32(JointTarget(joint, steps[joint]))
    ensures |r| == JointNum
    ensures forall joint :: 0 <= joint < JointNum ==> r[JointNum - 1 - joint] == JointPosition(joint, steps[joint])
  {
    seq(JointNum, k requires 0 <= k < JointNum => JointPosition(JointNum - 1 - k, steps[JointNum - 1 - k]))
  }

  /** The move period the board applies for a requested period: at most MAX_PERIOD. */
  function ClampPeriod(periodMs: UInt32): nat
  {
    if periodMs > MaxPeriod then MaxPeriod else periodMs
  }

  /** The move the board reads from Execute's arm command. */
  function ArmRequest(steps: seq<real>, periodMs: UInt32): SpinRequest
    requires |steps| == JointNum
    requires forall joint :: 0 <= joint < JointNum ==> FitsInt32(JointTarget(joint, steps[joint]))
  {
    SpinRequest(ClampPeriod(periodMs), ArmServoIds, Low16(ArmPositions(steps)))
  }

  /** The move the board reads from Execute's gripper command. */
  function GripperRequest(gripper: real): SpinRequest
  {
    SpinRequest(GripperPeriod, [GripperServoId], [Trunc(gripper) % 0x1_0000])
  }

  /**
   * Execute: one move command for the five arm servos with the caller's
   * period, then one for the gripper servo with a period of 1500 ms.  The
   * board decodes them as ArmRequest and GripperRequest.
   */
  function Execute(steps: seq<real>, gripper: real, periodMs: UInt32): (sent: seq<Command>)
    requires ExecutableCommand(steps, gripper)
    ensures |sent| == 2
    ensures ParseSpin(sent[0]) == Some(ArmRequest(steps, periodMs))
    ensures ParseSpin(sent[1]) == Some(GripperRequest(gripper))
  {
    TruncFits(gripper);
    var armPositions := ArmPositions(steps);
    var gripperIds: seq<UInt32> := [GripperServoId];
    var gripperPositions: seq<Int32> := [Trunc(gripper)];
    SpinRoundTrip(ArmServoIds, armPositions, periodMs);
    SpinRoundTrip(gripperIds, gripperPositions, GripperPeriod);
    assert Low16(gripperPositions) == [Trunc(gripper) % 0x1_0000];
    [SpinServos(ArmServoIds, armPositions, periodMs).value,
     SpinServos(gripperIds, gripperPositions, GripperPeriod).value]
  }

  /**
   * Execute's routing: joint j's position goes to servo id 6 - j, inverted
   * for joints 2 and 3, and the arm move is capped at MAX_PERIOD.
   */
  lemma ArmRouting(steps: seq<real>, periodMs: UInt32, joint: nat)
    requires |steps| == JointNum
    requires forall joint :: 0 <= joint < JointNum ==> FitsInt32(JointTarget(joint, steps[joint]))
    requires joint < JointNum
    ensures var arm := ArmRequest(steps, periodMs);
            && arm.period <= MaxPeriod
            && |arm.ids| == |arm.positions| == JointNum
            && arm.ids[JointNum - 1 - joint] == ServoIdOfJoint(joint)
            && arm.positions[JointNum - 1 - joint] == JointPosition(joint, steps[joint]) % 0x1_0000
  {
    ArmServoOrder();
  }

  /**
   * The board's effect of a move command on its six servos: each listed id
   * in 1..6 moves to its position (a later entry for the same id wins).
   */
  function ApplySpin(board: seq<int>, ids: seq<int>, positions: seq<int>): (r: seq<int>)
    requires |board| == ServoNum && |ids| == |positions|
    ensures |r| == ServoNum
    ensures forall k ::
              (0 <= k < |ids| && 1 <= ids[k] <= ServoNum && (forall m :: k < m < |ids| ==> ids[m] != ids[k])) ==>
              r[ids[k] - 1] == positions[k]
    ensures forall slot :: 0 <= slot < ServoNum && (forall m :: 0 <= m < |ids| ==> ids[m] != slot + 1) ==>
              r[slot] == board[slot]
    decreases |positions|
  {
    if ids == [] then board
    else
      var next := if 1 <= ids[0] <= ServoNum then board[ids[0] - 1 := positions[0]] else board;
      var r := ApplySpin(next, ids[1..], positions[1..]);
      assert forall k :: 1 <= k < |ids| ==>
               ids[k] == ids[1..][k - 1] && positions[k] == positions[1..][k - 1];
      r
  }

  /** A move of ids 2..6 in order sets servo slots 1..5 to its positions, and leaves the gripper's. */
  lemma ArmMove(board: seq<int>, ids: seq<int>, positions: seq<int>)
    requires |board| == ServoNum && |ids| == |positions| == JointNum
    requires forall k :: 0 <= k < JointNum ==> ids[k] == k + 2
    ensures var r := ApplySpin(board, ids, positions);
            && r[GripperServoId - 1] == board[GripperServoId - 1]
            && forall k :: 0 <= k < JointNum ==> r[k + 1] == positions[k]
  {
    var r := ApplySpin(board, ids, positions);
    forall k | 0 <= k < JointNum
      ensures r[k + 1] == positions[k]
    {
      assert forall m :: k < m < |ids| ==> ids[m] != ids[k];
    }
  }

  /** The gripper move sets servo slot 0 (id 1) and nothing else. */
  lemma GripperMove(board: seq<int>, position: int)
    requires |board| == ServoNum
    ensures ApplySpin(board, [GripperServoId], [position]) == board[GripperServoId - 1 := position]
  {
    var r := ApplySpin(board, [GripperServoId], [position]);
    forall slot | 0 <= slot < ServoNum
      ensures r[slot] == board[GripperServoId - 1 := position][slot]
    {
    }
  }

  /** An arm joint's offset from the centre, and the gripper servo's raw position. */
  datatype JointState = JointState(armSteps: seq<int>, gripperPosition: int)

  /** The state GetJointState derives from the six servo positions. */
  function JointStateOf(positions: seq<int>): JointState
    requires |positions| == ServoNum
  {
    JointState(
      seq(JointNum, joint requires 0 <= joint < JointNum =>
        SlotSteps(JointNum - joint, positions[JointNum - joint])),
      positions[0])
  }

  /**
   * GetJointState: reads the positions, then derives the joint state from
   * them; when the read throws, no state is produced.
   */
  function GetJointState(response: seq<Byte>, current: seq<int>): (r: (PositionRead, Option<JointState>))
    requires |current| == ServoNum
    ensures r.0 == GetCurrentPosition(response, current)
    ensures r.1.None? <==> r.0.status == OutOfRange
    ensures r.1.Some? ==>
              && |r.1.value.armSteps| == JointNum
              && r.1.value.gripperPosition == r.0.positions[GripperServoId - 1]
              && forall joint :: 0 <= joint < JointNum ==>
                   r.1.value.armSteps[joint] ==
                     SlotSteps(ServoIdOfJoint(joint) - 1, r.0.positions[ServoIdOfJoint(joint) - 1])
  {
    var read := GetCurrentPosition(response, current);
    (read, if read.status == OutOfRange then None else Some(JointStateOf(read.positions)))
  }

  /** The six servo positions after the board has carried out an arm move and then a gripper move. */
  function BoardAfter(board: seq<int>, arm: SpinRequest, grip: SpinRequest): (r: seq<int>)
    requires |board| == ServoNum
    requires |arm.ids| == |arm.positions| && |grip.ids| == |grip.positions|
    ensures |r| == ServoNum
  {
    ApplySpin(ApplySpin(board, arm.ids, arm.positions), grip.ids, grip.positions)
  }

  /**
   * The joint state GetJointState derives after the board has carried out
   * an arm move and a gripper move and has reported all six positions
   * (with servo ids `ids`, followed by any trailing bytes).
   */
  function ObservedState(board: seq<int>, arm: SpinRequest, grip: SpinRequest,
                         ids: seq<Byte>, tail: seq<Byte>, current: seq<int>): Option<JointState>
    requires |board| == ServoNum && |ids| == ServoNum && |current| == ServoNum
    requires |arm.ids| == |arm.positions| && |grip.ids| == |grip.positions|
  {
    GetJointState(PositionReport(ids, BoardAfter(board, arm, grip)) + tail, current).1
  }

  /**
   * The board after an arm move of ids 2..6 and a gripper move: servo id
   * 6 - j holds arm entry 4 - j (joint j's position, as Execute lists
   * them) and the gripper servo holds the gripper's position.
   */
  lemma BoardMoves(board: seq<int>, arm: SpinRequest, grip: SpinRequest)
    requires |board| == ServoNum
    requires |arm.ids| == |arm.positions| == JointNum
    requires forall k :: 0 <= k < JointNum ==> arm.ids[k] == k + 2
    requires grip.ids == [GripperServoId] && |grip.positions| == 1
    ensures var after := BoardAfter(board, arm, grip);
            && |after| == ServoNum
            && after[GripperServoId - 1] == grip.positions[0]
            && forall joint :: 0 <= joint < JointNum ==>
                 after[ServoIdOfJoint(joint) - 1] == arm.positions[JointNum - 1 - joint]
  {
    var middle := ApplySpin(board, arm.ids, arm.positions);
    ArmMove(board, arm.ids, arm.positions);
    assert grip.positions == [grip.positions[0]];
    GripperMove(middle, grip.positions[0]);
  }

  /**
   * The read-back half on whole servo positions: after the two moves and a
   * full position report, GetJointState yields, for each arm joint, the
   * offset of the position its servo was sent, and the gripper's position.
   */
  lemma MovesThenReadBack(board: seq<int>, arm: SpinRequest, grip: SpinRequest,
                          ids: seq<Byte>, tail: seq<Byte>, current: seq<int>)
    requires |board| == ServoNum && |ids| == ServoNum && |current| == ServoNum
    requires |arm.ids| == |arm.positions| == JointNum
    requires forall k :: 0 <= k < JointNum ==> arm.ids[k] == k + 2
    requires grip.ids == [GripperServoId] && |grip.positions| == 1
    requires forall k :: 0 <= k < JointNum ==> 0 <= arm.positions[k] < 0x1_0000
    requires 0 <= grip.positions[0] < 0x1_0000
    ensures var state := ObservedState(board, arm, grip, ids, tail, current);
            && state.Some?
            && state.value.gripperPosition == grip.positions[0]
            && forall joint :: 0 <= joint < JointNum ==>
                 state.value.armSteps[joint] ==
                   SlotSteps(ServoIdOfJoint(joint) - 1, arm.positions[JointNum - 1 - joint])
  {
    var after := BoardAfter(board, arm, grip);
    BoardMoves(board, arm, grip);
    forall slot | 0 <= slot < ServoNum
      ensures 0 <= after[slot] < 0x1_0000
    {
      if slot > 0 {
        assert slot == ServoIdOfJoint(JointNum - slot) - 1;
      }
    }
    ReadRoundTrip(ids, after, tail, current);
  }

  /**
   * Execute and GetJointState are inverse to each other: after the board
   * has carried out the moves Execute's commands decode to and has reported
   * its positions, every arm joint reads back within one step of its
   * command (exactly, for a whole number of steps), and the gripper reads
   * back the position it was sent.  Positions must fit the 16-bit fields.
   */
  lemma ExecuteThenReadBack(steps: seq<real>, gripper: real, periodMs: UInt32,
                            board: seq<int>, ids: seq<Byte>, tail: seq<Byte>, current: seq<int>)
    requires ExecutableCommand(steps, gripper)
    requires forall joint :: 0 <= joint < JointNum ==> 0 <= JointPosition(joint, steps[joint]) < 0x1_0000
    requires 0 <= Trunc(gripper) < 0x1_0000
    requires |board| == ServoNum && |ids| == ServoNum && |current| == ServoNum
    ensures var state :=
              ObservedState(board, ArmRequest(steps, periodMs), GripperRequest(gripper), ids, tail, current);
            && state.Some?
            && state.value.gripperPosition == Trunc(gripper)
            && forall joint :: 0 <= joint < JointNum ==>
                 && steps[joint] - 1.0 < state.value.armSteps[joint] as real < steps[joint] + 1.0
                 && (steps[joint] == steps[joint].Floor as real ==>
                       state.value.armSteps[joint] as real == steps[joint])
  {
    var arm, grip := ArmRequest(steps, periodMs), GripperRequest(gripper);
    ArmServoOrder();
    forall k | 0 <= k < JointNum
      ensures arm.positions[k] == JointPosition(JointNum - 1 - k, steps[JointNum - 1 - k])
    {
      ArmRouting(steps, periodMs, JointNum - 1 - k);
    }
    var g := Trunc(gripper);
    assert grip.positions[0] == g % 0x1_0000 == g;
    MovesThenReadBack(board, arm, grip, ids, tail, current);
    var state := ObservedState(board, arm, grip, ids, tail, current);
    forall joint | 0 <= joint < JointNum
      ensures steps[joint] - 1.0 < state.value.armSteps[joint] as real < steps[joint] + 1.0
      ensures steps[joint] == steps[joint].Floor as real ==> state.value.armSteps[joint] as real == steps[joint]
    {
      assert arm.positions[JointNum - 1 - joint] == JointPosition(joint, steps[joint]);
      ReadBackJoint(joint, steps[joint], state.value.armSteps[joint]);
    }
  }

  /** One arm joint read back from the position Execute sent it to. */
  lemma ReadBackJoint(joint: nat, steps: real, read: int)
    requires joint < JointNum && FitsInt32(JointTarget(joint, steps))
    requires read == SlotSteps(ServoIdOfJoint(joint) - 1, JointPosition(joint, steps))
    ensures steps - 1.0 < read as real < steps + 1.0
    ensures steps == steps.Floor as real ==> read as real == steps
  {
    var target := JointTarget(joint, steps);
    TruncClose(target);
    if steps == steps.Floor as real {
      var n := steps.Floor;
      if Inverted(joint) {
        assert target == (Centre - n) as real;
      } else {
        assert target == (Centre + n) as real;
      }
    }
  }
}
