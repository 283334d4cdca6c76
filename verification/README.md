# xArm kinematics plugin and servo driver, modelled in Dafny

This project models two parts of the Lobot xArm ROS stack.

The first is the closed-form inverse-kinematics (IK) plugin, `XarmKinematicsPlugin`. It covers:

- the `initialize` walk over the robot model's links, which fills the link
  names, joint names and joint limits;
- the enumeration of the 16 candidate joint vectors in
  `solveIkFromAllPossibleSolutions`, and the first-valid selection over them;
- the `isSolutionValid` NaN and limit test;
- the MoveIt error code `searchPositionIK` reports;
- the `z < 0` guard of `isPoseReachable`.

The second is the USB-HID servo driver, `XArmDriver`. It covers:

- the byte layout of the multi-servo move command (`SpinServos`), proved to
  round-trip through the board's reading of it;
- the decoding of the position report (`GetCurrentPosition`), including the
  partial write before `.at()` throws on a short report;
- the joint-to-servo wiring and sign convention of `Execute` and
  `GetJointState`, proved inverse to each other end to end.

Floating-point values are `Floats.Num`, either `NaN` or a real number.
Every ordered comparison (`<`, `>`) with a NaN operand is false, as in IEEE 754. An exception
from `.at()` becomes a `Failure(OutOfRange(partial))` result, carrying the
tables as the pushes before the throw left them, or an `OutOfRange` read
status, never a precondition. Bytes are masked explicitly: `x & 0xFF` is
`x % 256` and `(x >> 8) & 0xFF` is `(x / 256) % 256`. Dafny's division is
Euclidean, so these equal the C++ results for negative `int` positions too.
The unqualified `abs` in the base-angle test is read as the floating-point
overload (`std::abs(double)` from `<cmath>`, reached through the plugin's
headers), which is what
`Floats.AbsBelow` models. Under `::abs(int)` the numerator would first be
truncated, and every numerator with magnitude below one would give a base
angle of 0.

The modules follow the source:

- `Floats`: the NaN-aware number type and its comparisons.
- `IkCandidates`: the candidate lists and their index structure.
- `IkSelection`: validation, selection and error codes.
- `ChainSetup`: `initialize`.
- `ServoCodec`: `SpinServos`, `GetCurrentPosition`, and the board's side of both.
- `ServoMapping`: `Execute` and `GetJointState`.
- `Wrappers`: `Option` and `Result`.

`initialize` does not check how many joints it records, nor that a lower
limit is at most its upper limit: it records every kept joint before the
tip, with whatever bounds the robot model declares. `ChainSetup.Initialize`
states how many entries are added, not that there are five.
`solveIkFromAllPossibleSolutions` reads `lower_limits_[i]` and
`upper_limits_[i]` with `operator[]` for each of the five joints, so
`IkSelection.SolveIkFromAllPossibleSolutions` requires at least five limits.

## Model

| member | source | states |
|---|---|---|
| IkCandidates.Theta3List | lobot_kinematics/src/xarm_kinematics_plugin.cpp:504-533 | four elbow angles; entry i + 2 is the negation of entry i |
| IkCandidates.Theta2List | lobot_kinematics/src/xarm_kinematics_plugin.cpp:535-576 | two shoulder angles per elbow angle, in elbow order: entry j is the `+` (even j) or `-` (odd j) formula applied to elbow angle j / 2 |
| IkCandidates.Theta1From | lobot_kinematics/src/xarm_kinematics_plugin.cpp:578-603 | two base angles per shoulder angle n, paired with elbow angle n / 2: both 0 when the numerator is below FLT_EPSILON, otherwise x and -x |
| IkCandidates.CandidatesFrom | lobot_kinematics/src/xarm_kinematics_plugin.cpp:605-698 | candidate k is assembled from base angle k, shoulder angle k / 2 and elbow angle k / 4, with +pi/2 on joints 1 and 3 |
| IkCandidates.AllCandidates | lobot_kinematics/src/xarm_kinematics_plugin.cpp:605-698 | exactly 16 candidates, each of 5 joints |
| IkCandidates.Assemble | lobot_kinematics/src/xarm_kinematics_plugin.cpp:690-695 | five joints: base and elbow angles as given, shoulder angle and wrist pitch offset by +pi/2, wrist roll as asin(sin(theta 5)) |
| IkCandidates.EnumerationOrder | lobot_kinematics/src/xarm_kinematics_plugin.cpp:535-698 | candidate i is the branch choice (elbow i / 4, shoulder sign (i / 2) % 2, base sign i % 2), built directly from one consistent set of angles |
| IkCandidates.BaseAnglePairs | lobot_kinematics/src/xarm_kinematics_plugin.cpp:578-603 | base entries 2k and 2k + 1 are both 0 below FLT_EPSILON, otherwise the atan root and its negation |
| IkCandidates.ShoulderPairing | lobot_kinematics/src/xarm_kinematics_plugin.cpp:535-576 | eight shoulder angles; entries 2k and 2k + 1 are the two formulas at elbow angle k |
| IkSelection.IsSolutionValid | lobot_kinematics/src/xarm_kinematics_plugin.cpp:167-177 | valid exactly when no component is NaN, below its lower limit or above its upper limit |
| IkSelection.ValidMeansWithinLimits | lobot_kinematics/src/xarm_kinematics_plugin.cpp:167-177 | with finite limits, valid iff every component is a number inside its closed interval |
| IkSelection.SelectFirstValid | lobot_kinematics/src/xarm_kinematics_plugin.cpp:700-709 | found iff some candidate is valid; the result is then the first valid one; otherwise the output is untouched |
| IkSelection.SolveIkFromAllPossibleSolutions | lobot_kinematics/src/xarm_kinematics_plugin.cpp:457-709 | the first valid of the 16 candidates, which has 5 components, none NaN, each within its limits; untouched output when none is valid |
| IkSelection.SearchPositionIK | lobot_kinematics/src/xarm_kinematics_plugin.cpp:116-140 | NO_IK_SOLUTION (-31) iff no candidate is valid, SUCCESS (1) iff one is, with the output as selected |
| IkSelection.IsPoseReachable | lobot_kinematics/src/xarm_kinematics_plugin.cpp:142-165 | a target with z < 0 is rejected; for z >= 0 or NaN z the answer is the bearing test's |
| ChainSetup.Initialize | lobot_kinematics/src/xarm_kinematics_plugin.cpp:38-78 | prior tables are kept as prefixes; on return the three joint tables grow together and the tip link is never recorded; an empty tip-frame list with a link to visit throws before any push; any other throw leaves at least one new link name and one more new joint name than new limits |
| ChainSetup.BeforeTip | lobot_kinematics/src/xarm_kinematics_plugin.cpp:45-51 | the links visited: a prefix none of whose names is the tip, followed (if anything follows) by the tip |
| ChainSetup.InitializeCollects | lobot_kinematics/src/xarm_kinematics_plugin.cpp:38-78 | when every kept joint has bounds, the tables gain the names of the links before the tip, then the kept joints' names, lower and upper limits |
| ChainSetup.InitializeThrows | lobot_kinematics/src/xarm_kinematics_plugin.cpp:52-68 | a revolute or prismatic joint without variable bounds before the tip makes `initialize` throw, leaving the names of the kept joints up to and including the first such joint and the limits of those before it |
| ChainSetup.JointLimits | lobot_kinematics/src/xarm_kinematics_plugin.cpp:54-74 | the k-th kept joint's name and limits: its first variable bounds when revolute or prismatic, [-pi, pi] otherwise |
| ServoCodec.SplitJoin | lobot_hardware_interface/include/xarm_driver/xarm_driver.h:119-120 | the low and high bytes of a position rejoin to the position modulo 2^16 |
| ServoCodec.JoinSplit | lobot_hardware_interface/include/xarm_driver/xarm_driver.h:93-94 | a 16-bit value joined from two bytes splits back into the same bytes |
| ServoCodec.ServoFields | lobot_hardware_interface/include/xarm_driver/xarm_driver.h:115-123 | three entries per servo: the id, the position's low byte and its high byte |
| ServoCodec.SpinServos | lobot_hardware_interface/include/xarm_driver/xarm_driver.h:101-126 | nothing is sent iff the lists differ in length; otherwise the code, count, clamped period bytes and per-servo fields |
| ServoCodec.FieldsRoundTrip | lobot_hardware_interface/include/xarm_driver/xarm_driver.h:115-123 | the per-servo fields read back as the ids and each position's low 16 bits |
| ServoCodec.SpinRoundTrip | lobot_hardware_interface/include/xarm_driver/xarm_driver.h:101-126 | the board reads back the period clamped to 5000, the ids, and the positions modulo 2^16 |
| ServoCodec.ReadSlots | lobot_hardware_interface/include/xarm_driver/xarm_driver.h:90-97 | slot k takes the 16-bit value at bytes 3k + 3 and 3k + 4 when present; the first missing slot throws after the earlier ones are written |
| ServoCodec.GetCurrentPosition | lobot_hardware_interface/include/xarm_driver/xarm_driver.h:83-99 | an empty or foreign report changes nothing; a report with the read code and count 6 shorter than 20 bytes (or a lone code byte) throws; a full one overwrites all six positions |
| ServoCodec.ReadRoundTrip | lobot_hardware_interface/include/xarm_driver/xarm_driver.h:83-99 | decoding a report of six 16-bit positions yields exactly those positions, whatever came before or follows |
| ServoMapping.JointServoMapsInverse | lobot_hardware_interface/include/xarm_driver/xarm_driver.h:46-73 | the servo Execute drives for joint j is the slot GetJointState reads joint j from, and it is inverted iff joint j is |
| ServoMapping.TruncClose | lobot_hardware_interface/include/xarm_driver/xarm_driver.h:47-48 | the double-to-int conversion moves a value by less than one and keeps whole numbers |
| ServoMapping.ArmPositions | lobot_hardware_interface/include/xarm_driver/xarm_driver.h:58-60 | the arm positions in servo order: entry 4 - j is joint j's truncated position |
| ServoMapping.Execute | lobot_hardware_interface/include/xarm_driver/xarm_driver.h:41-63 | two commands: the arm move of servo ids 2..6 with the caller's period, then the gripper move of servo id 1 with period 1500 |
| ServoMapping.ArmRouting | lobot_hardware_interface/include/xarm_driver/xarm_driver.h:46-61 | joint j's truncated position (500 - steps for joints 2 and 3, 500 + steps otherwise) goes to servo id 6 - j, and the period is at most 5000 |
| ServoMapping.GetJointState | lobot_hardware_interface/include/xarm_driver/xarm_driver.h:65-81 | no state when the read throws; otherwise joint j is the offset of servo id 6 - j, sign-flipped for joints 2 and 3, and the gripper is servo id 1 |
| ServoMapping.MovesThenReadBack | lobot_hardware_interface/include/xarm_driver/xarm_driver.h:58-81 | after the two moves and a full report, each joint reads the offset of the position sent to it and the gripper the position sent to it |
| ServoMapping.ReadBackJoint | lobot_hardware_interface/include/xarm_driver/xarm_driver.h:46-74 | one joint's offset read back lies within one step of its command, and equals it for a whole number of steps |
| ServoMapping.ExecuteThenReadBack | lobot_hardware_interface/include/xarm_driver/xarm_driver.h:41-81 | Execute, then the board's moves, then GetJointState: every arm joint reads back within one step of its command (exactly for whole steps) and the gripper its sent position |

## Left out

- The trigonometric closed forms for theta 1 to theta 5 are not modelled, and neither is the wrist-centre and singular-point rescue computation before them (`temp < 0` and its rotated frame). They are real-number formulas evaluated in floating point. `IkCandidates.Formulas` holds their values at one pose, so every property is stated for all possible formula values.
- `solveIk`, `revisePose`, `quaternionToRpy` and `getPositionFK` are not modelled. `searchPositionIK` does not call `solveIk` or `revisePose`; `quaternionToRpy` is trigonometry; `getPositionFK` always returns false.
- The `searchPositionIK` and `getPositionIK` overloads are not modelled. They only forward to the full overload, whose behaviour is `IkSelection.SearchPositionIK`; the timeout, seed, consistency limits and callback are unused.
- `IkSelection.IsPoseReachable` takes the bearing-versus-yaw test, which is trigonometric, as a boolean input. Only the `z < 0` guard is modelled exactly.
- Floating-point rounding of `t + pi/2`, and of `Neg`, is not modelled: `Plus` adds exactly. Infinities are modelled as ordinary values.
- `setValues` and the plugin base class are not modelled. `ChainSetup.Initialize` takes the tip frames and the link list in model order as inputs, and the tables the plugin already holds.
- The radian-to-step scaling (750 / pi) and the gripper's cubic and quadratic calibration polynomials are not modelled: they are floating point. `Execute` takes steps and the gripper polynomial's value; `GetJointState` returns integer offsets and the gripper's raw position.
- The conversion `period.toSec() * 1000` to `unsigned` is not modelled: `Execute` takes the period in milliseconds as a 32-bit unsigned value.
- `Execute` requires each double-to-int conversion to be in range (`ExecutableCommand`), because an out-of-range conversion is undefined behaviour in C++.
- `MyHid` (HID open, write, read and timeouts) is not modelled. `GetCurrentPosition` takes the received bytes as input. The request it sends (code 21 with the count 6 and ids 1 to 6) is not modelled, since it does not depend on any input.
- The element type `MyHid::Read` returns is not part of this model. Responses are modelled as bytes, 0..255.
- The board's firmware is not part of this model. `ServoCodec.ParseSpin` and `ServoMapping.ApplySpin` describe how the board is taken to read a move command, so that the round trips can be stated.
- `xarm_hardware_interface.h` (the ros_control glue) is not modelled: it only copies arrays between ROS and the driver.
- Servo ids and argument values above 255 are not modelled; the command bytes are taken as written, without narrowing to one byte.
