/**
 * The rigid-body tree as the construction code uses it: a table of bodies,
 * each with its link name and the joint that attaches it (position-start
 * index and number of positions), the tree's position and velocity counts,
 * and its actuator list.  On top of that, the expansion of a list of joint
 * names into position indices (findPositionIndices).
 */
module KinematicTree {
  import opened Config

  datatype Body = Body(linkName: string, jointName: string, positionStart: nat, numPositions: nat)

  /** An actuator: the name of the joint it drives and its effort limits. */
  datatype Actuator = Actuator(jointName: string, effortMin: real, effortMax: real)

  datatype Tree = Tree(bodies: seq<Body>, numPositions: nat, numVelocities: nat, actuators: seq<Actuator>)

  /** Every joint's position run lies inside the tree's position vector. */
  predicate WellFormed(t: Tree) {
    forall b :: b in t.bodies ==> b.positionStart + b.numPositions <= t.numPositions
  }

  /** Index of the first of keys[from..] equal to `name`. */
  function IndexFrom(keys: seq<string>, name: string, from: nat): (r: Result<nat>)
    decreases |keys| - from
    ensures r.Success? <==> exists k :: from <= k < |keys| && keys[k] == name
    ensures r.Success? ==>
      from <= r.value < |keys| && keys[r.value] == name &&
      forall k :: from <= k < r.value ==> keys[k] != name
    ensures r.Failure? ==> r.error == UnresolvedName(name)
  {
    if from >= |keys| then Failure(UnresolvedName(name))
    else if keys[from] == name then Success(from)
    else IndexFrom(keys, name, from + 1)
  }

  function LinkNames(t: Tree): seq<string> {
    seq(|t.bodies|, k requires 0 <= k < |t.bodies| => t.bodies[k].linkName)
  }

  function JointNames(t: Tree): seq<string> {
    seq(|t.bodies|, k requires 0 <= k < |t.bodies| => t.bodies[k].jointName)
  }

  /** findLinkId: the index of the first body whose link has this name. */
  function FindLinkId(t: Tree, name: string): (r: Result<nat>)
    ensures r.Success? <==> exists k :: 0 <= k < |t.bodies| && t.bodies[k].linkName == name
    ensures r.Success? ==> r.value < |t.bodies| && t.bodies[r.value].linkName == name
    ensures r.Failure? ==> r.error == UnresolvedName(name)
  {
    var names := LinkNames(t);
    assert forall k :: 0 <= k < |t.bodies| ==> names[k] == t.bodies[k].linkName;
    IndexFrom(names, name, 0)
  }

  /** findJoint: the first body whose joint has this name. */
  function FindJoint(t: Tree, name: string): (r: Result<Body>)
    ensures r.Success? <==> exists b :: b in t.bodies && b.jointName == name
    ensures r.Success? ==> r.value in t.bodies && r.value.jointName == name
    ensures r.Failure? ==> r.error == UnresolvedName(name)
  {
    var names := JointNames(t);
    assert forall k :: 0 <= k < |t.bodies| ==> names[k] == t.bodies[k].jointName;
    var k :- IndexFrom(names, name, 0);
    Success(t.bodies[k])
  }

  /** The contiguous run start, start + 1, ..., start + count - 1. */
  function Run(start: nat, count: nat): seq<nat> {
    seq(count, k requires 0 <= k < count => start + k)
  }

  /** The concatenation, in order, of every joint's position run. */
  function Expand(joints: seq<Body>): seq<nat>
    decreases |joints|
  {
    if |joints| == 0 then []
    else
      var last := joints[|joints| - 1];
      Expand(joints[..|joints| - 1]) + Run(last.positionStart, last.numPositions)
  }

  /** Sum of the joints' position counts. */
  function TotalPositions(joints: seq<Body>): nat
    decreases |joints|
  {
    if |joints| == 0 then 0
    else TotalPositions(joints[..|joints| - 1]) + joints[|joints| - 1].numPositions
  }

  /** Looks every name up with findJoint; the first unresolvable name fails. */
  function ResolveJoints(t: Tree, names: seq<string>): Result<seq<Body>>
    decreases |names|
  {
    if |names| == 0 then Success([])
    else
      var prefix :- ResolveJoints(t, names[..|names| - 1]);
      var joint :- FindJoint(t, names[|names| - 1]);
      Success(prefix + [joint])
  }

  /** What findPositionIndices computes, as a function. */
  function PositionIndicesOf(t: Tree, names: seq<string>): Result<seq<nat>> {
    var joints :- ResolveJoints(t, names);
    Success(Expand(joints))
  }

  /** findPositionIndices: grows the index list joint by joint, position by position. */
  method FindPositionIndices(t: Tree, names: seq<string>) returns (r: Result<seq<nat>>)
    ensures r == PositionIndicesOf(t, names)
  {
    var indices: seq<nat> := [];
    ghost var resolved: seq<Body> := [];
    var i := 0;
    while i < |names|
      invariant 0 <= i <= |names|
      invariant ResolveJoints(t, names[..i]) == Success(resolved)
      invariant indices == Expand(resolved)
    {
      var found := FindJoint(t, names[i]);
      if found.Failure? {
        ResolveJointsPrefixes(t, names, i);
        ResolveJointsStopsAtFirstFailure(t, names, i);
        return Failure(found.error);
      }
      var joint := found.value;
      var k := 0;
      while k < joint.numPositions
        invariant 0 <= k <= joint.numPositions
        invariant indices == Expand(resolved) + Run(joint.positionStart, k)
      {
        assert Run(joint.positionStart, k + 1) == Run(joint.positionStart, k) + [joint.positionStart + k];
        indices := indices + [joint.positionStart + k];
        k := k + 1;
      }
      ResolveJointsExtend(t, names, i, resolved, joint);
      ExpandExtend(resolved, joint);
      resolved := resolved + [joint];
      i := i + 1;
    }
    assert names[..i] == names;
    r := Success(indices);
  }

  /** One more resolved name extends the resolved prefix by its joint. */
  lemma ResolveJointsExtend(t: Tree, names: seq<string>, i: nat, resolved: seq<Body>, joint: Body)
    requires i < |names|
    requires ResolveJoints(t, names[..i]) == Success(resolved)
    requires FindJoint(t, names[i]) == Success(joint)
    ensures ResolveJoints(t, names[..i + 1]) == Success(resolved + [joint])
  {
    assert names[..i + 1][..i] == names[..i];
  }

  lemma ExpandExtend(joints: seq<Body>, joint: Body)
    ensures Expand(joints + [joint]) == Expand(joints) + Run(joint.positionStart, joint.numPositions)
  {
    assert (joints + [joint])[..|joints|] == joints;
  }

  /** When a prefix of the names resolves, every name in it resolves. */
  lemma ResolveJointsPrefixes(t: Tree, names: seq<string>, i: nat)
    requires i <= |names|
    requires ResolveJoints(t, names[..i]).Success?
    ensures forall j :: 0 <= j < i ==> FindJoint(t, names[j]).Success?
  {
    ResolveJointsCorrect(t, names[..i]);
    assert forall j :: 0 <= j < i ==> names[..i][j] == names[j];
  }

  /** ResolveJoints succeeds exactly when every name resolves, keeps the order,
      and otherwise reports the first name that does not resolve. */
  lemma {:induction false} ResolveJointsCorrect(t: Tree, names: seq<string>)
    ensures ResolveJoints(t, names).Success? <==>
      forall i :: 0 <= i < |names| ==> FindJoint(t, names[i]).Success?
    ensures ResolveJoints(t, names).Success? ==>
      |ResolveJoints(t, names).value| == |names| &&
      forall i :: 0 <= i < |names| ==> ResolveJoints(t, names).value[i] == FindJoint(t, names[i]).value
    ensures ResolveJoints(t, names).Failure? ==>
      exists i :: 0 <= i < |names| && FindJoint(t, names[i]).Failure?
        && ResolveJoints(t, names).error == UnresolvedName(names[i])
        && forall j :: 0 <= j < i ==> FindJoint(t, names[j]).Success?
    decreases |names|
  {
    if |names| > 0 {
      var init := names[..|names| - 1];
      ResolveJointsCorrect(t, init);
      assert forall i :: 0 <= i < |init| ==> init[i] == names[i];
    }
  }

  /** When all names before position i resolve and names[i] does not,
      resolution fails on names[i]. */
  lemma ResolveJointsStopsAtFirstFailure(t: Tree, names: seq<string>, i: nat)
    requires i < |names|
    requires forall j :: 0 <= j < i ==> FindJoint(t, names[j]).Success?
    requires FindJoint(t, names[i]).Failure?
    ensures ResolveJoints(t, names) == Failure(UnresolvedName(names[i]))
  {
    ResolveJointsCorrect(t, names);
  }

  /** Expansion distributes over concatenation of joint lists. */
  lemma {:induction false} ExpandAppend(a: seq<Body>, b: seq<Body>)
    ensures Expand(a + b) == Expand(a) + Expand(b)
    decreases |b|
  {
    if |b| > 0 {
      var init := b[..|b| - 1];
      assert (a + b)[..|a + b| - 1] == a + init;
      ExpandAppend(a, init);
    } else {
      assert a + b == a;
    }
  }

  /** The expansion has one index per position of each joint. */
  lemma {:induction false} ExpandLength(joints: seq<Body>)
    ensures |Expand(joints)| == TotalPositions(joints)
    decreases |joints|
  {
    if |joints| > 0 {
      ExpandLength(joints[..|joints| - 1]);
    }
  }

  /** An index appears in the expansion exactly when it lies in some joint's run. */
  lemma {:induction false} ExpandMembership(joints: seq<Body>, x: nat)
    ensures x in Expand(joints) <==>
      exists b :: b in joints && b.positionStart <= x < b.positionStart + b.numPositions
    decreases |joints|
  {
    if |joints| > 0 {
      var init := joints[..|joints| - 1];
      var last := joints[|joints| - 1];
      ExpandMembership(init, x);
      assert x in Run(last.positionStart, last.numPositions) <==>
        last.positionStart <= x < last.positionStart + last.numPositions
      by {
        if last.positionStart <= x < last.positionStart + last.numPositions {
          assert Run(last.positionStart, last.numPositions)[x - last.positionStart] == x;
        }
      }
      assert forall b :: b in joints <==> b in init || b == last;
    }
  }

  /** The result lists, in order, every named joint's run; its length is the
      sum of their position counts. */
  lemma PositionIndicesLength(t: Tree, names: seq<string>)
    requires PositionIndicesOf(t, names).Success?
    ensures |PositionIndicesOf(t, names).value| == TotalPositions(ResolveJoints(t, names).value)
    ensures |ResolveJoints(t, names).value| == |names|
  {
    ExpandLength(ResolveJoints(t, names).value);
    ResolveJointsCorrect(t, names);
  }

  /** Expanding two name lists one after the other gives the concatenation
      of their expansions. */
  lemma {:induction false} PositionIndicesConcat(t: Tree, a: seq<string>, b: seq<string>)
    ensures PositionIndicesOf(t, a + b).Success? <==>
      PositionIndicesOf(t, a).Success? && PositionIndicesOf(t, b).Success?
    ensures PositionIndicesOf(t, a + b).Success? ==>
      PositionIndicesOf(t, a + b).value == PositionIndicesOf(t, a).value + PositionIndicesOf(t, b).value
  {
    ResolveJointsCorrect(t, a);
    ResolveJointsCorrect(t, b);
    ResolveJointsCorrect(t, a + b);
    assert forall i :: 0 <= i < |a| ==> (a + b)[i] == a[i];
    assert forall i :: 0 <= i < |b| ==> (a + b)[|a| + i] == b[i];
    if PositionIndicesOf(t, a + b).Success? {
      var ja, jb := ResolveJoints(t, a).value, ResolveJoints(t, b).value;
      assert ResolveJoints(t, a + b).value == ja + jb;
      ExpandAppend(ja, jb);
    }
  }

  /** In a well-formed tree every resolved index is a valid position index. */
  lemma PositionIndicesInRange(t: Tree, names: seq<string>, x: nat)
    requires WellFormed(t)
    requires PositionIndicesOf(t, names).Success?
    requires x in PositionIndicesOf(t, names).value
    ensures x < t.numPositions
  {
    var joints := ResolveJoints(t, names).value;
    ExpandMembership(joints, x);
    ResolveJointsCorrect(t, names);
    var b :| b in joints && b.positionStart <= x < b.positionStart + b.numPositions;
    var i :| 0 <= i < |joints| && joints[i] == b;
    assert b in t.bodies;
  }

  /** Two joints with 1 and 2 positions starting at 3 and 5 give [3, 5, 6]. */
  lemma PositionIndicesExample()
    ensures PositionIndicesOf(
      Tree([Body("pelvis", "hip", 3, 1), Body("thigh", "knee", 5, 2)], 7, 7, []),
      ["hip", "knee"]) == Success([3, 5, 6])
  {
    var t := Tree([Body("pelvis", "hip", 3, 1), Body("thigh", "knee", 5, 2)], 7, 7, []);
    var hip, knee := Body("pelvis", "hip", 3, 1), Body("thigh", "knee", 5, 2);
    assert JointNames(t) == ["hip", "knee"];
    assert FindJoint(t, "hip") == Success(hip);
    assert FindJoint(t, "knee") == Success(knee);
    var names := ["hip", "knee"];
    assert names[..0] == [];
    ResolveJointsExtend(t, names, 0, [], hip);
    assert [] + [hip] == [hip];
    assert ResolveJoints(t, names[..1]) == Success([hip]);
    ResolveJointsExtend(t, names, 1, [hip], knee);
    assert names[..2] == names;
    assert [hip] + [knee] == [hip, knee];
    assert ResolveJoints(t, names) == Success([hip, knee]);
    ExpandExtend([], hip);
    ExpandExtend([hip], knee);
    assert Run(3, 1) == [3];
    assert Run(5, 2) == [5, 6];
    assert Expand([hip]) == [3];
    assert Expand([hip, knee]) == [3, 5, 6];
  }
}
