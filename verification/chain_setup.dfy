/**
 * XarmKinematicsPlugin::initialize: the walk over the robot model's links
 * that collects link names, joint names and per-joint limits up to the tip
 * frame.
 *
 * The walk appends to the tables the plugin already holds (they start empty
 * after construction).  A `.at()` that is out of range throws
 * std::out_of_range; that is modelled as `Failure(OutOfRange(partial))`,
 * where `partial` holds the tables as the exception leaves them.
 */
module ChainSetup {
  import opened Wrappers
  import opened Floats

  /** moveit::core::JointModel::JointType; `Other` stands for PLANAR and FLOATING. */
  datatype JointType = Unknown | Revolute | Prismatic | Fixed | Other

  datatype VariableBounds = VariableBounds(minPosition: Num, maxPosition: Num)

  datatype JointModel = JointModel(name: string, jointType: JointType, variableBounds: seq<VariableBounds>)

  /** A link and the joint connecting it to its parent (absent for the root link). */
  datatype LinkModel = LinkModel(name: string, parentJoint: Option<JointModel>)

  /** The plugin's link_names_, joint_names_, lower_limits_ and upper_limits_. */
  datatype SolverTables = SolverTables(
    linkNames: seq<string>,
    jointNames: seq<string>,
    lowerLimits: seq<Num>,
    upperLimits: seq<Num>)

  /** std::out_of_range, with the tables as the pushes before the throw left them. */
  datatype InitError = OutOfRange(partial: SolverTables)

  const EmptyTables := SolverTables([], [], [], [])

  /** Each table of `after` starts with the corresponding table of `before`. */
  predicate Extends(before: SolverTables, after: SolverTables)
  {
    && before.linkNames <= after.linkNames
    && before.jointNames <= after.jointNames
    && before.lowerLimits <= after.lowerLimits
    && before.upperLimits <= after.upperLimits
  }

  /** A link whose parent joint is present and neither UNKNOWN nor FIXED contributes a joint. */
  predicate IsKept(link: LinkModel)
  {
    link.parentJoint.Some? && link.parentJoint.value.jointType !in {Unknown, Fixed}
  }

  /** Revolute and prismatic joints take their limits from the model's first variable bounds. */
  predicate TakesDeclaredBounds(joint: JointModel)
  {
    joint.jointType == Revolute || joint.jointType == Prismatic
  }

  /** `bounds.at(0)` does not throw for this joint. */
  predicate HasBounds(joint: JointModel)
  {
    TakesDeclaredBounds(joint) ==> |joint.variableBounds| > 0
  }

  function LowerOf(joint: JointModel): Num
    requires HasBounds(joint)
  {
    if TakesDeclaredBounds(joint) then joint.variableBounds[0].minPosition else Val(-Pi)
  }

  function UpperOf(joint: JointModel): Num
    requires HasBounds(joint)
  {
    if TakesDeclaredBounds(joint) then joint.variableBounds[0].maxPosition else Val(Pi)
  }

  /** The tables after one kept joint has been recorded: one name and one limit pair. */
  function Record(tables: SolverTables, joint: JointModel): SolverTables
    requires HasBounds(joint)
  {
    tables.(jointNames := tables.jointNames + [joint.name],
            lowerLimits := tables.lowerLimits + [LowerOf(joint)],
            upperLimits := tables.upperLimits + [UpperOf(joint)])
  }

  /**
   * The loop of initialize over the remaining links.  Every kept joint adds
   * exactly one name and one limit pair, so the three joint tables grow by
   * the same amount; the tip link and everything after it is never recorded.
   * With no tip frame the first `tip_frames_.at(0)` throws before any push.
   * A kept joint without bounds throws after its link name and its joint
   * name are pushed, leaving one more joint name than limits.
   */
  function Initialize(links: seq<LinkModel>, tipFrames: seq<string>, tables: SolverTables)
    : (r: Result<SolverTables, InitError>)
    ensures r.Success? ==> Extends(tables, r.value)
    ensures r.Success? ==>
              && |r.value.jointNames| - |tables.jointNames| == |r.value.lowerLimits| - |tables.lowerLimits|
              && |r.value.jointNames| - |tables.jointNames| == |r.value.upperLimits| - |tables.upperLimits|
    ensures r.Success? && |tipFrames| > 0 ==> tipFrames[0] !in r.value.linkNames[|tables.linkNames|..]
    ensures |links| > 0 && |tipFrames| == 0 ==> r.Failure? && r.error.partial == tables
    ensures r.Failure? && |tipFrames| > 0 ==>
              var partial := r.error.partial;
              && Extends(tables, partial)
              && |partial.linkNames| > |tables.linkNames|
              && tipFrames[0] !in partial.linkNames[|tables.linkNames|..]
              && |partial.jointNames| - |tables.jointNames| == |partial.lowerLimits| - |tables.lowerLimits| + 1
              && |partial.jointNames| - |tables.jointNames| == |partial.upperLimits| - |tables.upperLimits| + 1
    decreases |links|
  {
    if links == [] then Success(tables)
    else if |tipFrames| == 0 then Failure(OutOfRange(tables))
    else if links[0].name == tipFrames[0] then Success(tables)
    else
      var named := tables.(linkNames := tables.linkNames + [links[0].name]);
      if !IsKept(links[0]) then
        Initialize(links[1..], tipFrames, named)
      else if !HasBounds(links[0].parentJoint.value) then
        Failure(OutOfRange(named.(jointNames := named.jointNames + [links[0].parentJoint.value.name])))
      else
        Initialize(links[1..], tipFrames, Record(named, links[0].parentJoint.value))
  }

  /** The links before the first one named `tip` (all of them when none is). */
  function BeforeTip(links: seq<LinkModel>, tip: string): (r: seq<LinkModel>)
    ensures r <= links
    ensures forall k :: 0 <= k < |r| ==> r[k].name != tip
    ensures |r| < |links| ==> links[|r|].name == tip
  {
    if links == [] || links[0].name == tip then []
    else [links[0]] + BeforeTip(links[1..], tip)
  }

  function LinkNames(links: seq<LinkModel>): (r: seq<string>)
    ensures |r| == |links|
    ensures forall k :: 0 <= k < |links| ==> r[k] == links[k].name
  {
    if links == [] then [] else [links[0].name] + LinkNames(links[1..])
  }

  /** The parent joints that the walk keeps, in link order. */
  function KeptJoints(links: seq<LinkModel>): (r: seq<JointModel>)
    ensures |r| <= |links|
  {
    if links == [] then []
    else if IsKept(links[0]) then [links[0].parentJoint.value] + KeptJoints(links[1..])
    else KeptJoints(links[1..])
  }

  function JointNames(joints: seq<JointModel>): (r: seq<string>)
    ensures |r| == |joints|
    ensures forall k :: 0 <= k < |joints| ==> r[k] == joints[k].name
  {
    if joints == [] then [] else [joints[0].name] + JointNames(joints[1..])
  }

  function Lowers(joints: seq<JointModel>): (r: seq<Num>)
    requires forall k :: 0 <= k < |joints| ==> HasBounds(joints[k])
    ensures |r| == |joints|
    ensures forall k :: 0 <= k < |joints| ==> r[k] == LowerOf(joints[k])
  {
    if joints == [] then [] else [LowerOf(joints[0])] + Lowers(joints[1..])
  }

  function Uppers(joints: seq<JointModel>): (r: seq<Num>)
    requires forall k :: 0 <= k < |joints| ==> HasBounds(joints[k])
    ensures |r| == |joints|
    ensures forall k :: 0 <= k < |joints| ==> r[k] == UpperOf(joints[k])
  {
    if joints == [] then [] else [UpperOf(joints[0])] + Uppers(joints[1..])
  }

  /** The index of the first joint whose bounds `.at(0)` cannot read (the length when there is none). */
  function FirstUnbounded(joints: seq<JointModel>): (i: nat)
    ensures i <= |joints|
    ensures i < |joints| ==> !HasBounds(joints[i])
    ensures forall k :: 0 <= k < i ==> HasBounds(joints[k])
  {
    if joints == [] || !HasBounds(joints[0]) then 0 else 1 + FirstUnbounded(joints[1..])
  }

  /** Predicts the tables after the walk: `before` are the links before the tip, `kept` their kept joints. */
  function Collected(tables: SolverTables, before: seq<LinkModel>, kept: seq<JointModel>): SolverTables
    requires forall k :: 0 <= k < |kept| ==> HasBounds(kept[k])
  {
    SolverTables(
      tables.linkNames + LinkNames(before),
      tables.jointNames + JointNames(kept),
      tables.lowerLimits + Lowers(kept),
      tables.upperLimits + Uppers(kept))
  }

  lemma KeptCons(head: LinkModel, rest: seq<LinkModel>)
    ensures KeptJoints([head] + rest) ==
              if IsKept(head) then [head.parentJoint.value] + KeptJoints(rest) else KeptJoints(rest)
  {
    assert ([head] + rest)[1..] == rest;
  }

  /** Prepending a link that keeps no joint only prepends its name. */
  lemma CollectedSkip(tables: SolverTables, head: LinkModel, rest: seq<LinkModel>)
    requires !IsKept(head)
    requires forall k :: 0 <= k < |KeptJoints(rest)| ==> HasBounds(KeptJoints(rest)[k])
    ensures Collected(tables.(linkNames := tables.linkNames + [head.name]), rest, KeptJoints(rest))
            == Collected(tables, [head] + rest, KeptJoints([head] + rest))
  {
    KeptCons(head, rest);
    assert ([head] + rest)[1..] == rest;
    var names := LinkNames([head] + rest);
    assert names == [head.name] + LinkNames(rest);
    assert (tables.linkNames + [head.name]) + LinkNames(rest) == tables.linkNames + names;
  }

  /** Prepending a link with a kept joint prepends its name, the joint's name and its limits. */
  lemma CollectedKeep(tables: SolverTables, head: LinkModel, rest: seq<LinkModel>)
    requires IsKept(head) && HasBounds(head.parentJoint.value)
    requires forall k :: 0 <= k < |KeptJoints(rest)| ==> HasBounds(KeptJoints(rest)[k])
    ensures Collected(Record(tables.(linkNames := tables.linkNames + [head.name]), head.parentJoint.value),
                      rest, KeptJoints(rest))
            == Collected(tables, [head] + rest, KeptJoints([head] + rest))
  {
    var joint := head.parentJoint.value;
    var keptRest := KeptJoints(rest);
    KeptCons(head, rest);
    assert ([head] + rest)[1..] == rest;
    var names := LinkNames([head] + rest);
    assert names == [head.name] + LinkNames(rest);
    assert (tables.linkNames + [head.name]) + LinkNames(rest) == tables.linkNames + names;
    var kept := [joint] + keptRest;
    assert kept[1..] == keptRest;
    var jointNames, lowers, uppers := JointNames(kept), Lowers(kept), Uppers(kept);
    assert jointNames == [joint.name] + JointNames(keptRest);
    assert lowers == [LowerOf(joint)] + Lowers(keptRest);
    assert uppers == [UpperOf(joint)] + Uppers(keptRest);
    assert (tables.jointNames + [joint.name]) + JointNames(keptRest) == tables.jointNames + jointNames;
    assert (tables.lowerLimits + [LowerOf(joint)]) + Lowers(keptRest) == tables.lowerLimits + lowers;
    assert (tables.upperLimits + [UpperOf(joint)]) + Uppers(keptRest) == tables.upperLimits + uppers;
  }

  /**
   * What initialize collects when it returns: the names of the links before
   * the tip frame, and the name and limits of each kept joint among them.
   */
  lemma {:induction false} InitializeCollects(links: seq<LinkModel>, tipFrames: seq<string>, tables: SolverTables)
    requires |tipFrames| > 0
    requires forall k :: 0 <= k < |KeptJoints(BeforeTip(links, tipFrames[0]))| ==>
               HasBounds(KeptJoints(BeforeTip(links, tipFrames[0]))[k])
    ensures Initialize(links, tipFrames, tables) ==
              Success(Collected(tables, BeforeTip(links, tipFrames[0]), KeptJoints(BeforeTip(links, tipFrames[0]))))
    decreases |links|
  {
    var tip := tipFrames[0];
    var before := BeforeTip(links, tip);
    if links == [] || links[0].name == tip {
      assert before == [] && KeptJoints(before) == [];
      assert Collected(tables, before, []) == tables;
    } else {
      var head := links[0];
      var named := tables.(linkNames := tables.linkNames + [head.name]);
      var rest := BeforeTip(links[1..], tip);
      assert before == [head] + rest;
      KeptCons(head, rest);
      if !IsKept(head) {
        CollectedSkip(tables, head, rest);
        InitializeCollects(links[1..], tipFrames, named);
      } else {
        assert KeptJoints(before)[0] == head.parentJoint.value;
        assert forall k :: 0 <= k < |KeptJoints(rest)| ==> KeptJoints(rest)[k] == KeptJoints(before)[k + 1];
        CollectedKeep(tables, head, rest);
        InitializeCollects(links[1..], tipFrames, Record(named, head.parentJoint.value));
      }
    }
  }

  lemma Regroup<T>(a: seq<T>, b: seq<T>, c: seq<T>)
    ensures (a + b) + c == a + (b + c)
  {
  }

  /** The joint tables of a prefix that starts with a bounded joint start with that joint's entries. */
  lemma RecordedPrefix(joint: JointModel, rest: seq<JointModel>, j: nat)
    requires HasBounds(joint) && j < |rest|
    requires forall k :: 0 <= k < j ==> HasBounds(rest[k])
    ensures JointNames(([joint] + rest)[..j + 2]) == [joint.name] + JointNames(rest[..j + 1])
    ensures Lowers(([joint] + rest)[..j + 1]) == [LowerOf(joint)] + Lowers(rest[..j])
    ensures Uppers(([joint] + rest)[..j + 1]) == [UpperOf(joint)] + Uppers(rest[..j])
  {
    var all := [joint] + rest;
    assert all[..j + 2][1..] == rest[..j + 1];
    assert all[..j + 1][1..] == rest[..j];
  }

  /**
   * The joint tables that a throw at the first unbounded joint of `joints`
   * leaves: the names up to and including that joint, the limits before it.
   */
  predicate LeftByThrow(tables: SolverTables, joints: seq<JointModel>, partial: SolverTables)
    requires FirstUnbounded(joints) < |joints|
  {
    var i := FirstUnbounded(joints);
    && partial.jointNames == tables.jointNames + JointNames(joints[..i + 1])
    && partial.lowerLimits == tables.lowerLimits + Lowers(joints[..i])
    && partial.upperLimits == tables.upperLimits + Uppers(joints[..i])
  }

  /** Tables thrown after a bounded joint was recorded are the tables thrown for the list starting with it. */
  lemma ThrownAfterRecord(tables: SolverTables, joint: JointModel, rest: seq<JointModel>, partial: SolverTables)
    requires HasBounds(joint) && FirstUnbounded(rest) < |rest|
    requires LeftByThrow(Record(tables, joint), rest, partial)
    ensures FirstUnbounded([joint] + rest) < |[joint] + rest|
    ensures LeftByThrow(tables, [joint] + rest, partial)
  {
    var all := [joint] + rest;
    var j := FirstUnbounded(rest);
    assert all[1..] == rest;
    assert FirstUnbounded(all) == j + 1;
    RecordedPrefix(joint, rest, j);
    Regroup(tables.jointNames, [joint.name], JointNames(rest[..j + 1]));
    Regroup(tables.lowerLimits, [LowerOf(joint)], Lowers(rest[..j]));
    Regroup(tables.upperLimits, [UpperOf(joint)], Uppers(rest[..j]));
  }

  /**
   * initialize throws when a kept revolute or prismatic joint before the tip
   * has no variable bounds.  The joint tables it leaves behind hold the names
   * of the kept joints up to and including the first such joint, and the
   * limits of the ones before it.
   */
  lemma {:induction false} InitializeThrows(links: seq<LinkModel>, tipFrames: seq<string>, tables: SolverTables)
    requires |tipFrames| > 0
    requires exists k :: 0 <= k < |KeptJoints(BeforeTip(links, tipFrames[0]))| &&
               !HasBounds(KeptJoints(BeforeTip(links, tipFrames[0]))[k])
    ensures var kept := KeptJoints(BeforeTip(links, tipFrames[0]));
            var r := Initialize(links, tipFrames, tables);
            && FirstUnbounded(kept) < |kept|
            && r.Failure?
            && LeftByThrow(tables, kept, r.error.partial)
    decreases |links|
  {
    var tip := tipFrames[0];
    var before := BeforeTip(links, tip);
    var kept := KeptJoints(before);
    var k :| 0 <= k < |kept| && !HasBounds(kept[k]);
    var i := FirstUnbounded(kept);
    if links == [] || links[0].name == tip {
      assert false;
    } else {
      var head := links[0];
      var named := tables.(linkNames := tables.linkNames + [head.name]);
      var rest := BeforeTip(links[1..], tip);
      var keptRest := KeptJoints(rest);
      assert before == [head] + rest;
      assert before[1..] == rest;
      if !IsKept(head) {
        assert kept == keptRest;
        assert Initialize(links, tipFrames, tables) == Initialize(links[1..], tipFrames, named);
        InitializeThrows(links[1..], tipFrames, named);
      } else {
        var joint := head.parentJoint.value;
        assert kept == [joint] + keptRest;
        if HasBounds(joint) {
          assert k > 0 && keptRest[k - 1] == kept[k];
          var recorded := Record(named, joint);
          assert Initialize(links, tipFrames, tables) == Initialize(links[1..], tipFrames, recorded);
          InitializeThrows(links[1..], tipFrames, recorded);
          assert kept[1..] == keptRest;
          ThrownAfterRecord(named, joint, keptRest, Initialize(links[1..], tipFrames, recorded).error.partial);
        } else {
          assert i == 0;
          assert JointNames(kept[..1]) == [joint.name];
          assert Lowers(kept[..0]) == [] && Uppers(kept[..0]) == [];
        }
      }
    }
  }

  /**
   * The limits recorded for the k-th kept joint: the first variable bounds
   * of a revolute or prismatic joint, [-pi, pi] for any other kept joint.
   */
  lemma JointLimits(links: seq<LinkModel>, tipFrames: seq<string>, tables: SolverTables, k: nat)
    requires |tipFrames| > 0
    requires Initialize(links, tipFrames, tables).Success?
    requires k < |KeptJoints(BeforeTip(links, tipFrames[0]))|
    ensures var joint := KeptJoints(BeforeTip(links, tipFrames[0]))[k];
            var result := Initialize(links, tipFrames, tables).value;
            && |tables.lowerLimits| + k < |result.lowerLimits|
            && |tables.upperLimits| + k < |result.upperLimits|
            && |tables.jointNames| + k < |result.jointNames|
            && result.jointNames[|tables.jointNames| + k] == joint.name
            && (TakesDeclaredBounds(joint) ==>
                  && |joint.variableBounds| > 0
                  && result.lowerLimits[|tables.lowerLimits| + k] == joint.variableBounds[0].minPosition
                  && result.upperLimits[|tables.upperLimits| + k] == joint.variableBounds[0].maxPosition)
            && (!TakesDeclaredBounds(joint) ==>
                  && result.lowerLimits[|tables.lowerLimits| + k] == Val(-Pi)
                  && result.upperLimits[|tables.upperLimits| + k] == Val(Pi))
  {
    var kept := KeptJoints(BeforeTip(links, tipFrames[0]));
    if exists j :: 0 <= j < |kept| && !HasBounds(kept[j]) {
      InitializeThrows(links, tipFrames, tables);
      assert false;
    }
    InitializeCollects(links, tipFrames, tables);
  }
}
