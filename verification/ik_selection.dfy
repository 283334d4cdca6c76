/**
 * Validation and selection of the IK candidates, the MoveIt error code the
 * search reports, and the z < 0 guard of the (unused) reachability test.
 */
module IkSelection {
  import opened Floats
  import opened IkCandidates

  /** The MoveIt error codes the search sets (moveit_msgs/MoveItErrorCodes). */
  datatype ErrorCode = Success | NoIkSolution {
    function Value(): int
    {
      match this
      case Success => 1
      case NoIkSolution => -31
    }
  }

  /** One joint value passes isSolutionValid: `!(isnan(x) || x < lower || x > upper)`. */
  predicate ComponentValid(x: Num, lower: Num, upper: Num)
  {
    x.Val? && !Less(x, lower) && !Less(upper, x)
  }

  /** A candidate passes isSolutionValid: every component against the limit of the same index. */
  predicate IsValid(s: seq<Num>, lower: seq<Num>, upper: seq<Num>)
    requires |s| <= |lower| && |s| <= |upper|
  {
    forall i :: 0 <= i < |s| ==> ComponentValid(s[i], lower[i], upper[i])
  }

  /**
   * isSolutionValid: scans the components in order and rejects at the first
   * NaN or out-of-limit one.  The limit vectors are indexed with operator[],
   * so they must be at least as long as the candidate.
   */
  method IsSolutionValid(s: seq<Num>, lower: seq<Num>, upper: seq<Num>) returns (ok: bool)
    requires |s| <= |lower| && |s| <= |upper|
    ensures ok <==> forall i :: 0 <= i < |s| ==>
                      s[i].Val? && !Less(s[i], lower[i]) && !Less(upper[i], s[i])
  {
    var i := 0;
    while i < |s|
      invariant 0 <= i <= |s|
      invariant forall k :: 0 <= k < i ==> ComponentValid(s[k], lower[k], upper[k])
    {
      if s[i].NaN? || Less(s[i], lower[i]) || Less(upper[i], s[i]) {
        return false;
      }
      i := i + 1;
    }
    return true;
  }

  /**
   * With finite limits, validity is exactly: no component is NaN and each
   * lies in the closed interval [lower[i], upper[i]].
   */
  lemma ValidMeansWithinLimits(s: seq<Num>, lower: seq<Num>, upper: seq<Num>)
    requires |s| <= |lower| && |s| <= |upper|
    requires forall i :: 0 <= i < |s| ==> lower[i].Val? && upper[i].Val?
    ensures IsValid(s, lower, upper) <==>
              forall i :: 0 <= i < |s| ==> s[i].Val? && lower[i].v <= s[i].v <= upper[i].v
  {
  }

  /** `k` is the first index whose candidate is valid. */
  predicate IsFirstValid(candidates: seq<seq<Num>>, k: nat, lower: seq<Num>, upper: seq<Num>)
    requires forall j :: 0 <= j < |candidates| ==> |candidates[j]| <= |lower| && |candidates[j]| <= |upper|
  {
    && k < |candidates|
    && IsValid(candidates[k], lower, upper)
    && forall j :: 0 <= j < k ==> !IsValid(candidates[j], lower, upper)
  }

  /**
   * The selection loop: the first valid candidate in enumeration order is
   * copied to the output; when none is valid the output is left as it was.
   */
  method SelectFirstValid(candidates: seq<seq<Num>>, lower: seq<Num>, upper: seq<Num>, solution: seq<Num>)
    returns (found: bool, result: seq<Num>)
    requires forall j :: 0 <= j < |candidates| ==> |candidates[j]| <= |lower| && |candidates[j]| <= |upper|
    ensures found <==> exists k :: 0 <= k < |candidates| && IsValid(candidates[k], lower, upper)
    ensures found ==> exists k :: 0 <= k < |candidates| &&
                        IsFirstValid(candidates, k, lower, upper) && result == candidates[k]
    ensures !found ==> result == solution
  {
    var k := 0;
    while k < |candidates|
      invariant 0 <= k <= |candidates|
      invariant forall j :: 0 <= j < k ==> !IsValid(candidates[j], lower, upper)
    {
      var ok := IsSolutionValid(candidates[k], lower, upper);
      if ok {
        assert IsFirstValid(candidates, k, lower, upper);
        return true, candidates[k];
      }
      k := k + 1;
    }
    return false, solution;
  }

  /**
   * solveIkFromAllPossibleSolutions: enumerates the 16 candidates and keeps
   * the first valid one.  A returned solution has no NaN component and no
   * component outside its limits.
   */
  method SolveIkFromAllPossibleSolutions(f: Formulas, lower: seq<Num>, upper: seq<Num>, solution: seq<Num>)
    returns (found: bool, result: seq<Num>)
    requires JointNum <= |lower| && JointNum <= |upper|
    ensures found <==> exists i :: 0 <= i < CandidateCount && IsValid(AllCandidates(f)[i], lower, upper)
    ensures found ==> exists i :: 0 <= i < CandidateCount &&
                        IsFirstValid(AllCandidates(f), i, lower, upper) && result == AllCandidates(f)[i]
    ensures found ==> |result| == JointNum &&
                      forall j :: 0 <= j < JointNum ==>
                        result[j].Val? && !Less(result[j], lower[j]) && !Less(upper[j], result[j])
    ensures !found ==> result == solution
  {
    var candidates := AllCandidates(f);
    found, result := SelectFirstValid(candidates, lower, upper, solution);
    if found {
      var i :| 0 <= i < |candidates| && IsFirstValid(candidates, i, lower, upper) && result == candidates[i];
      assert |result| == JointNum && IsValid(result, lower, upper);
    }
  }

  /**
   * The search entry point: NO_IK_SOLUTION exactly when no candidate is
   * valid (and the output is untouched), SUCCESS exactly when one is.
   */
  method SearchPositionIK(f: Formulas, lower: seq<Num>, upper: seq<Num>, solution: seq<Num>)
    returns (ok: bool, result: seq<Num>, code: ErrorCode)
    requires JointNum <= |lower| && JointNum <= |upper|
    ensures ok <==> exists i :: 0 <= i < CandidateCount && IsValid(AllCandidates(f)[i], lower, upper)
    ensures code.Value() == -31 <==> !ok
    ensures code.Value() == 1 <==> ok
    ensures ok ==> exists i :: 0 <= i < CandidateCount &&
                     IsFirstValid(AllCandidates(f), i, lower, upper) && result == AllCandidates(f)[i]
    ensures !ok ==> result == solution
  {
    ok, result := SolveIkFromAllPossibleSolutions(f, lower, upper, solution);
    if !ok {
      code := NoIkSolution;
      return;
    }
    code := Success;
  }

  /**
   * isPoseReachable: a target below the base plane (z < 0) is rejected
   * outright; otherwise the answer is the bearing-versus-yaw test, which is
   * trigonometric and given here as `bearingConsistent`.  A NaN z is not
   * caught by the guard.
   */
  function IsPoseReachable(z: Num, bearingConsistent: bool): (r: bool)
    ensures Less(z, Val(0.0)) ==> !r
    ensures z.NaN? ==> r == bearingConsistent
    ensures z.Val? && z.v >= 0.0 ==> r == bearingConsistent
  {
    if Less(z, Val(0.0)) then false else bearingConsistent
  }
}
