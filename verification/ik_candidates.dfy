/**
 * The candidate enumeration of the all-solutions inverse-kinematics search
 * (XarmKinematicsPlugin::solveIkFromAllPossibleSolutions).
 *
 * The closed-form trigonometric formulas are not modelled: a `Formulas`
 * value holds them already evaluated at one target pose (after the wrist
 * centre and, when needed, the singular-point rescue frame have been
 * computed).  What is modelled exactly is everything built around them:
 * the fixed-shape lists of 4 elbow, 8 shoulder and 16 base angles, the
 * sign structure of each list, the `i / 2` and `i / 4` index pairing, and
 * the assembly of the 16 five-joint candidates.
 */
module IkCandidates {
  import opened Floats

  /** Number of arm joints in a candidate (JOINT_NUM). */
  const JointNum: nat := 5

  /** Number of candidates one search enumerates. */
  const CandidateCount: nat := 16

  /**
   * The trigonometric formulas at one target pose.
   * - elbowA, elbowB: the two base formulas for theta 3;
   * - shoulderPlus(t3), shoulderMinus(t3): the two theta 2 formulas for a theta 3;
   * - baseNumerator(t2, t3): the theta 1 numerator a1 - px + a2 c2 + a3 c2 c3 - a3 s2 s3;
   * - baseRoot(t2, t3): 2 atan(sqrt(numerator / denominator));
   * - wristPitch(t1, t2, t3): the atan2 giving theta 4;
   * - wristRoll(t1, t2, t3, t4): the atan2 giving theta 5;
   * - asinSin(t5): asin(sin(t5)).
   */
  datatype Formulas = Formulas(
    elbowA: Num,
    elbowB: Num,
    shoulderPlus: Num -> Num,
    shoulderMinus: Num -> Num,
    baseNumerator: (Num, Num) -> Num,
    baseRoot: (Num, Num) -> Num,
    wristPitch: (Num, Num, Num) -> Num,
    wristRoll: (Num, Num, Num, Num) -> Num,
    asinSin: Num -> Num)

  /** The elbow list: the two base formulas followed by their negations. */
  function Theta3List(f: Formulas): (r: seq<Num>)
    ensures |r| == 4
    ensures forall i :: 0 <= i < 4 ==> r[(i + 2) % 4] == Neg(r[i])
  {
    [f.elbowA, f.elbowB, Neg(f.elbowA), Neg(f.elbowB)]
  }

  /** Shoulder angle of sign branch `s` (0: the `+2 atan` formula, 1: the `-2 atan` one). */
  function ShoulderBranch(f: Formulas, t3: Num, s: nat): Num
  {
    if s == 0 then f.shoulderPlus(t3) else f.shoulderMinus(t3)
  }

  /** The shoulder list: two entries per elbow angle, in elbow order. */
  function Theta2List(f: Formulas, t3s: seq<Num>): (r: seq<Num>)
    ensures |r| == 2 * |t3s|
    ensures forall j :: 0 <= j < |r| ==> r[j] == ShoulderBranch(f, t3s[j / 2], j % 2)
  {
    if t3s == [] then []
    else
      var rest := Theta2List(f, t3s[1..]);
      assert forall j :: 2 <= j < 2 * |t3s| ==> t3s[j / 2] == t3s[1..][(j - 2) / 2];
      [f.shoulderPlus(t3s[0]), f.shoulderMinus(t3s[0])] + rest
  }

  /** The first base angle of a (theta 2, theta 3) pair: 0 when the numerator is below FLT_EPSILON. */
  function BaseAngle(f: Formulas, t2: Num, t3: Num): Num
  {
    if AbsBelow(f.baseNumerator(t2, t3), FltEpsilon) then Val(0.0) else f.baseRoot(t2, t3)
  }

  /** Base angle of sign branch `s`: the second entry of each pair is the negation of the first. */
  function BaseBranch(f: Formulas, t2: Num, t3: Num, s: nat): Num
  {
    if s == 0 then BaseAngle(f, t2, t3) else Neg(BaseAngle(f, t2, t3))
  }

  /**
   * The base list from shoulder index `i` on: each shoulder angle `t2s[n]`,
   * paired with the elbow angle `t3s[n / 2]`, contributes two consecutive entries.
   */
  function Theta1From(f: Formulas, t2s: seq<Num>, t3s: seq<Num>, i: nat): (r: seq<Num>)
    requires i <= |t2s| <= 2 * |t3s|
    ensures |r| == 2 * (|t2s| - i)
    ensures forall n :: i <= n < |t2s| ==>
              && r[2 * (n - i)] == BaseBranch(f, t2s[n], t3s[n / 2], 0)
              && r[2 * (n - i) + 1] == BaseBranch(f, t2s[n], t3s[n / 2], 1)
    decreases |t2s| - i
  {
    if i == |t2s| then []
    else
      var t2 := t2s[i];
      var t3 := t3s[i / 2];
      var pair :=
        if AbsBelow(f.baseNumerator(t2, t3), FltEpsilon) then [Val(0.0), Val(0.0)]
        else [f.baseRoot(t2, t3), Neg(f.baseRoot(t2, t3))];
      var rest := Theta1From(f, t2s, t3s, i + 1);
      assert forall m :: 0 <= m < |rest| ==> (pair + rest)[2 + m] == rest[m];
      pair + rest
  }

  /** One five-joint candidate, with the +pi/2 offsets of joints 1 and 3 and theta 5 through asin(sin(.)). */
  function Assemble(f: Formulas, t1: Num, t2: Num, t3: Num): (c: seq<Num>)
    ensures |c| == JointNum
    ensures c[0] == t1 && c[2] == t3
    ensures c[1] == Plus(t2, Pi / 2.0)
    ensures c[3] == Plus(f.wristPitch(t1, t2, t3), Pi / 2.0)
    ensures c[4] == f.asinSin(f.wristRoll(t1, t2, t3, f.wristPitch(t1, t2, t3)))
  {
    var t4 := f.wristPitch(t1, t2, t3);
    var t5 := f.wristRoll(t1, t2, t3, t4);
    [t1, Plus(t2, Pi / 2.0), t3, Plus(t4, Pi / 2.0), f.asinSin(t5)]
  }

  /** The candidate list from base index `i` on: candidate `k` uses t1s[k], t2s[k / 2] and t3s[k / 4]. */
  function CandidatesFrom(f: Formulas, t1s: seq<Num>, t2s: seq<Num>, t3s: seq<Num>, i: nat)
    : (r: seq<seq<Num>>)
    requires i <= |t1s| <= 2 * |t2s| && |t1s| <= 4 * |t3s|
    ensures |r| == |t1s| - i
    ensures forall m :: 0 <= m < |r| ==>
              r[m] == Assemble(f, t1s[i + m], t2s[(i + m) / 2], t3s[(i + m) / 4])
    decreases |t1s| - i
  {
    if i == |t1s| then []
    else [Assemble(f, t1s[i], t2s[i / 2], t3s[i / 4])] + CandidatesFrom(f, t1s, t2s, t3s, i + 1)
  }

  function Theta3s(f: Formulas): seq<Num>
  {
    Theta3List(f)
  }

  function Theta2s(f: Formulas): seq<Num>
  {
    Theta2List(f, Theta3s(f))
  }

  function Theta1s(f: Formulas): seq<Num>
  {
    Theta1From(f, Theta2s(f), Theta3s(f), 0)
  }

  /** All candidates of one search, in enumeration order. */
  function AllCandidates(f: Formulas): (r: seq<seq<Num>>)
    ensures |r| == CandidateCount
    ensures forall k :: 0 <= k < |r| ==> |r[k]| == JointNum
  {
    CandidatesFrom(f, Theta1s(f), Theta2s(f), Theta3s(f), 0)
  }

  /** Elbow angle of branch `e`: A, B, -A, -B. */
  function ElbowBranch(f: Formulas, e: nat): Num
    requires e < 4
  {
    match e
    case 0 => f.elbowA
    case 1 => f.elbowB
    case 2 => Neg(f.elbowA)
    case 3 => Neg(f.elbowB)
  }

  /**
   * The candidate of one branch choice, built directly: elbow branch `e`,
   * shoulder sign `s2`, base sign `s1`; the base angle is computed from the
   * very shoulder and elbow angles the candidate carries.
   */
  function BranchCandidate(f: Formulas, e: nat, s2: nat, s1: nat): seq<Num>
    requires e < 4 && s2 < 2 && s1 < 2
  {
    var t3 := ElbowBranch(f, e);
    var t2 := ShoulderBranch(f, t3, s2);
    Assemble(f, BaseBranch(f, t2, t3, s1), t2, t3)
  }

  /**
   * The enumeration is the Cartesian product elbow x shoulder sign x base sign,
   * elbow outermost: candidate `i` is the branch (i / 4, (i / 2) % 2, i % 2).
   */
  lemma EnumerationOrder(f: Formulas, i: nat)
    requires i < CandidateCount
    ensures AllCandidates(f)[i] == BranchCandidate(f, i / 4, (i / 2) % 2, i % 2)
  {
    var t3s, t2s, t1s := Theta3s(f), Theta2s(f), Theta1s(f);
    assert t3s[i / 4] == ElbowBranch(f, i / 4);
    assert (i / 2) / 2 == i / 4;
    assert t2s[i / 2] == ShoulderBranch(f, t3s[i / 4], (i / 2) % 2);
    var n := i / 2;
    assert i == 2 * (n - 0) + i % 2;
    assert t1s[i] == BaseBranch(f, t2s[n], t3s[n / 2], i % 2);
  }

  /** Entries 2k and 2k + 1 of the base list are both 0 (numerator below FLT_EPSILON) or x and -x. */
  lemma BaseAnglePairs(f: Formulas, k: nat)
    requires k < 8
    ensures |Theta1s(f)| == CandidateCount
    ensures AbsBelow(f.baseNumerator(Theta2s(f)[k], Theta3s(f)[k / 2]), FltEpsilon) ==>
              Theta1s(f)[2 * k] == Val(0.0) && Theta1s(f)[2 * k + 1] == Val(0.0)
    ensures !AbsBelow(f.baseNumerator(Theta2s(f)[k], Theta3s(f)[k / 2]), FltEpsilon) ==>
              Theta1s(f)[2 * k] == f.baseRoot(Theta2s(f)[k], Theta3s(f)[k / 2]) &&
              Theta1s(f)[2 * k + 1] == Neg(Theta1s(f)[2 * k])
  {
  }

  /** Shoulder entry j is computed from elbow entry j / 2; entries 2k and 2k + 1 share their elbow angle. */
  lemma ShoulderPairing(f: Formulas, j: nat)
    requires j < 8
    ensures |Theta2s(f)| == 8
    ensures Theta2s(f)[j] == (if j % 2 == 0 then f.shoulderPlus(Theta3s(f)[j / 2])
                              else f.shoulderMinus(Theta3s(f)[j / 2]))
  {
  }
}
