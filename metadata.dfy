/**
 * Resolution of the kinematic-tree metadata section of the controller
 * configuration (parseKinematicTreeMetadata): side-keyed foot, leg, knee,
 * ankle and arm names plus the neck and the two back joints, each looked up
 * in the tree.
 */
module TreeMetadata {
  import opened Config
  import opened KinematicTree

  /** A node of the configuration document. */
  datatype Node =
    | Undefined
    | Scalar(text: string)
    | Sequence(items: seq<Node>)
    | Mapping(entries: map<string, Node>)

  /** node[key]: the entry of a mapping, or an undefined node. */
  function Child(n: Node, key: string): Node {
    if n.Mapping? && key in n.entries then n.entries[key] else Undefined
  }

  /** node.as<string>(): only a scalar converts. */
  function AsString(n: Node, key: string): Result<string> {
    if n.Scalar? then Success(n.text) else Failure(BadNode(key))
  }

  /** node.as<vector<string>>(): only a sequence of scalars converts. */
  function AsStringList(n: Node, key: string): (r: Result<seq<string>>)
    ensures r.Success? <==> n.Sequence? && forall k :: 0 <= k < |n.items| ==> n.items[k].Scalar?
    ensures r.Success? ==>
      |r.value| == |n.items| &&
      forall k :: 0 <= k < |n.items| ==> n.items[k] == Scalar(r.value[k])
  {
    if n.Sequence? && forall k :: 0 <= k < |n.items| ==> n.items[k].Scalar? then
      Success(seq(|n.items|, k requires 0 <= k < |n.items| => n.items[k].text))
    else Failure(BadNode(key))
  }

  datatype Side = Left | Right

  /** The side identifiers used as keys in the configuration. */
  function SideCode(s: Side): string {
    match s
    case Left => "l"
    case Right => "r"
  }

  /** A value for each side. */
  datatype PerSide<T> = PerSide(left: T, right: T) {
    function Get(s: Side): T {
      match s
      case Left => left
      case Right => right
    }
  }

  datatype PositionIndices = PositionIndices(
    legs: PerSide<seq<nat>>,
    knees: PerSide<nat>,
    ankles: PerSide<seq<nat>>,
    arms: PerSide<seq<nat>>,
    neck: seq<nat>,
    backBkz: nat,
    backBky: nat)

  datatype RobotPropertyCache = RobotPropertyCache(footIds: PerSide<nat>, positionIndices: PositionIndices)

  /** The groups resolved for one side, in the order parseKinematicTreeMetadata resolves them. */
  datatype SideGroups = SideGroups(legs: seq<nat>, knee: nat, ankles: seq<nat>, arms: seq<nat>)

  function FeetNode(metadata: Node): Node {
    Child(Child(metadata, "body_names"), "feet")
  }

  function GroupsNode(metadata: Node): Node {
    Child(metadata, "joint_group_names")
  }

  /** A single joint name resolved to its position-start index. */
  function JointStart(t: Tree, n: Node, key: string): Result<nat> {
    var name :- AsString(n, key);
    var joint :- FindJoint(t, name);
    Success(joint.positionStart)
  }

  /** A list of joint names expanded to their position indices. */
  function JointListIndices(t: Tree, n: Node, key: string): Result<seq<nat>> {
    var names :- AsStringList(n, key);
    PositionIndicesOf(t, names)
  }

  function FootId(t: Tree, metadata: Node, s: Side): Result<nat> {
    var name :- AsString(Child(FeetNode(metadata), SideCode(s)), SideCode(s));
    FindLinkId(t, name)
  }

  function SideGroupsOf(t: Tree, metadata: Node, s: Side): Result<SideGroups> {
    var groups := GroupsNode(metadata);
    var code := SideCode(s);
    var legs :- JointListIndices(t, Child(Child(groups, "legs"), code), "legs");
    var knee :- JointStart(t, Child(Child(groups, "knees"), code), "knees");
    var ankles :- JointListIndices(t, Child(Child(groups, "ankles"), code), "ankles");
    var arms :- JointListIndices(t, Child(Child(groups, "arms"), code), "arms");
    Success(SideGroups(legs, knee, ankles, arms))
  }

  /** The foot of side s is configured as the name of a link of the tree,
      and `id` is that link's identifier. */
  ghost predicate FootResolvesTo(t: Tree, metadata: Node, s: Side, id: nat) {
    var n := Child(FeetNode(metadata), SideCode(s));
    n.Scalar? && id < |t.bodies| && t.bodies[id].linkName == n.text
  }

  /** The node names a single joint of the tree whose positions start at `index`. */
  ghost predicate JointResolvesTo(t: Tree, n: Node, index: nat) {
    n.Scalar? && exists b :: b in t.bodies && b.jointName == n.text && b.positionStart == index
  }

  /** The node lists joint names, each a joint of the tree, and `indices` is
      the concatenation of their position runs in listed order. */
  ghost predicate JointListResolvesTo(t: Tree, n: Node, indices: seq<nat>) {
    n.Sequence? && (forall k :: 0 <= k < |n.items| ==> n.items[k].Scalar?) &&
    var names := seq(|n.items|, k requires 0 <= k < |n.items| => n.items[k].text);
    ResolveJoints(t, names).Success? &&
    |ResolveJoints(t, names).value| == |names| &&
    (forall k :: 0 <= k < |names| ==>
      ResolveJoints(t, names).value[k] in t.bodies &&
      ResolveJoints(t, names).value[k].jointName == names[k]) &&
    indices == Expand(ResolveJoints(t, names).value)
  }

  /** parseKinematicTreeMetadata: feet for both sides, then leg, knee, ankle
      and arm groups side by side, then neck and the two back joints. */
  function ParseKinematicTreeMetadata(metadata: Node, t: Tree): (r: Result<RobotPropertyCache>)
    ensures r.Success? ==> r.value.footIds.left < |t.bodies| && r.value.footIds.right < |t.bodies|
  {
    var leftFoot :- FootId(t, metadata, Left);
    var rightFoot :- FootId(t, metadata, Right);
    var left :- SideGroupsOf(t, metadata, Left);
    var right :- SideGroupsOf(t, metadata, Right);
    var groups := GroupsNode(metadata);
    var neck :- JointListIndices(t, Child(groups, "neck"), "neck");
    var bkz :- JointStart(t, Child(groups, "back_bkz"), "back_bkz");
    var bky :- JointStart(t, Child(groups, "back_bky"), "back_bky");
    Success(RobotPropertyCache(
      PerSide(leftFoot, rightFoot),
      PositionIndices(
        PerSide(left.legs, right.legs),
        PerSide(left.knee, right.knee),
        PerSide(left.ankles, right.ankles),
        PerSide(left.arms, right.arms),
        neck, bkz, bky)))
  }

  /** A resolved cache is assembled from the separately resolved pieces. */
  lemma KinematicTreeMetadataStages(metadata: Node, t: Tree)
    ensures ParseKinematicTreeMetadata(metadata, t).Success? ==>
      FootId(t, metadata, Left).Success? && FootId(t, metadata, Right).Success?
    ensures ParseKinematicTreeMetadata(metadata, t).Success? ==>
      SideGroupsOf(t, metadata, Left).Success? && SideGroupsOf(t, metadata, Right).Success?
    ensures ParseKinematicTreeMetadata(metadata, t).Success? ==>
      var groups := GroupsNode(metadata);
      JointListIndices(t, Child(groups, "neck"), "neck").Success? &&
      JointStart(t, Child(groups, "back_bkz"), "back_bkz").Success? &&
      JointStart(t, Child(groups, "back_bky"), "back_bky").Success?
    ensures ParseKinematicTreeMetadata(metadata, t).Success? ==>
      var r, groups := ParseKinematicTreeMetadata(metadata, t).value, GroupsNode(metadata);
      var left, right := SideGroupsOf(t, metadata, Left).value, SideGroupsOf(t, metadata, Right).value;
      r.footIds == PerSide(FootId(t, metadata, Left).value, FootId(t, metadata, Right).value) &&
      r.positionIndices == PositionIndices(
        PerSide(left.legs, right.legs),
        PerSide(left.knee, right.knee),
        PerSide(left.ankles, right.ankles),
        PerSide(left.arms, right.arms),
        JointListIndices(t, Child(groups, "neck"), "neck").value,
        JointStart(t, Child(groups, "back_bkz"), "back_bkz").value,
        JointStart(t, Child(groups, "back_bky"), "back_bky").value)
  {
  }

  /** Both feet of a resolved cache are the configured links. */
  lemma KinematicTreeMetadataFeet(metadata: Node, t: Tree)
    ensures ParseKinematicTreeMetadata(metadata, t).Success? ==>
      var r := ParseKinematicTreeMetadata(metadata, t);
      FootResolvesTo(t, metadata, Left, r.value.footIds.left) &&
      FootResolvesTo(t, metadata, Right, r.value.footIds.right)
  {
    if ParseKinematicTreeMetadata(metadata, t).Success? {
      KinematicTreeMetadataStages(metadata, t);
    }
  }

  /** The neck and back joints of a resolved cache are found in the tree:
      each back joint starts at the stored index, and the neck list
      expands, in listed order, to the stored indices. */
  lemma KinematicTreeMetadataJoints(metadata: Node, t: Tree)
    ensures ParseKinematicTreeMetadata(metadata, t).Success? ==>
      var groups, p := GroupsNode(metadata), ParseKinematicTreeMetadata(metadata, t).value.positionIndices;
      JointListResolvesTo(t, Child(groups, "neck"), p.neck) &&
      JointResolvesTo(t, Child(groups, "back_bkz"), p.backBkz) &&
      JointResolvesTo(t, Child(groups, "back_bky"), p.backBky)
  {
    if ParseKinematicTreeMetadata(metadata, t).Success? {
      KinematicTreeMetadataStages(metadata, t);
      JointListIndicesMeaning(t, Child(GroupsNode(metadata), "neck"), "neck");
    }
  }

  /** The side-keyed groups of a resolved cache are found in the tree: for
      each side the knee starts at the stored index, and the leg, ankle and
      arm lists expand, in listed order, to the stored indices. */
  lemma KinematicTreeMetadataSides(metadata: Node, t: Tree)
    ensures ParseKinematicTreeMetadata(metadata, t).Success? ==>
      var groups, p := GroupsNode(metadata), ParseKinematicTreeMetadata(metadata, t).value.positionIndices;
      forall s: Side ::
        JointListResolvesTo(t, Child(Child(groups, "legs"), SideCode(s)), p.legs.Get(s)) &&
        JointResolvesTo(t, Child(Child(groups, "knees"), SideCode(s)), p.knees.Get(s)) &&
        JointListResolvesTo(t, Child(Child(groups, "ankles"), SideCode(s)), p.ankles.Get(s)) &&
        JointListResolvesTo(t, Child(Child(groups, "arms"), SideCode(s)), p.arms.Get(s))
  {
    if ParseKinematicTreeMetadata(metadata, t).Success? {
      KinematicTreeMetadataStages(metadata, t);
      SideGroupsMeaning(t, metadata, Left);
      SideGroupsMeaning(t, metadata, Right);
    }
  }

  lemma JointListIndicesMeaning(t: Tree, n: Node, key: string)
    requires JointListIndices(t, n, key).Success?
    ensures JointListResolvesTo(t, n, JointListIndices(t, n, key).value)
  {
    var names := AsStringList(n, key).value;
    ResolveJointsCorrect(t, names);
  }

  lemma SideGroupsMeaning(t: Tree, metadata: Node, s: Side)
    requires SideGroupsOf(t, metadata, s).Success?
    ensures var groups, g := GroupsNode(metadata), SideGroupsOf(t, metadata, s).value;
      JointListResolvesTo(t, Child(Child(groups, "legs"), SideCode(s)), g.legs) &&
      JointResolvesTo(t, Child(Child(groups, "knees"), SideCode(s)), g.knee) &&
      JointListResolvesTo(t, Child(Child(groups, "ankles"), SideCode(s)), g.ankles) &&
      JointListResolvesTo(t, Child(Child(groups, "arms"), SideCode(s)), g.arms)
  {
    var groups := GroupsNode(metadata);
    var code := SideCode(s);
    JointListIndicesMeaning(t, Child(Child(groups, "legs"), code), "legs");
    JointListIndicesMeaning(t, Child(Child(groups, "ankles"), code), "ankles");
    JointListIndicesMeaning(t, Child(Child(groups, "arms"), code), "arms");
  }

  /** A foot configured with a name that is no link of the tree makes the
      whole resolution fail, naming that body. */
  lemma UnresolvedFootFails(t: Tree, metadata: Node, s: Side)
    requires Child(FeetNode(metadata), SideCode(s)).Scalar?
    requires forall b :: b in t.bodies ==> b.linkName != Child(FeetNode(metadata), SideCode(s)).text
    requires s == Right ==> FootId(t, metadata, Left).Success?
    ensures ParseKinematicTreeMetadata(metadata, t) ==
      Failure(UnresolvedName(Child(FeetNode(metadata), SideCode(s)).text))
  {
  }

  /** When every piece resolves, so does the whole section, assembled from
      the pieces (the converse of KinematicTreeMetadataStages). */
  lemma KinematicTreeMetadataAssembled(metadata: Node, t: Tree)
    ensures (var groups := GroupsNode(metadata);
             FootId(t, metadata, Left).Success? && FootId(t, metadata, Right).Success? &&
             SideGroupsOf(t, metadata, Left).Success? && SideGroupsOf(t, metadata, Right).Success? &&
             JointListIndices(t, Child(groups, "neck"), "neck").Success? &&
             JointStart(t, Child(groups, "back_bkz"), "back_bkz").Success? &&
             JointStart(t, Child(groups, "back_bky"), "back_bky").Success?) ==>
      var groups := GroupsNode(metadata);
      var left, right := SideGroupsOf(t, metadata, Left).value, SideGroupsOf(t, metadata, Right).value;
      ParseKinematicTreeMetadata(metadata, t) == Success(RobotPropertyCache(
        PerSide(FootId(t, metadata, Left).value, FootId(t, metadata, Right).value),
        PositionIndices(
          PerSide(left.legs, right.legs),
          PerSide(left.knee, right.knee),
          PerSide(left.ankles, right.ankles),
          PerSide(left.arms, right.arms),
          JointListIndices(t, Child(groups, "neck"), "neck").value,
          JointStart(t, Child(groups, "back_bkz"), "back_bkz").value,
          JointStart(t, Child(groups, "back_bky"), "back_bky").value)))
  {
  }

  /** The whole resolution fails with the error of its first failing piece,
      in the order feet, left groups, right groups, neck, back_bkz, back_bky. */
  lemma KinematicTreeMetadataFirstFailure(metadata: Node, t: Tree)
    ensures FootId(t, metadata, Left).Failure? ==>
      ParseKinematicTreeMetadata(metadata, t) == Failure(FootId(t, metadata, Left).error)
    ensures FootId(t, metadata, Left).Success? && FootId(t, metadata, Right).Failure? ==>
      ParseKinematicTreeMetadata(metadata, t) == Failure(FootId(t, metadata, Right).error)
    ensures FootId(t, metadata, Left).Success? && FootId(t, metadata, Right).Success? ==>
      (SideGroupsOf(t, metadata, Left).Failure? ==>
         ParseKinematicTreeMetadata(metadata, t) == Failure(SideGroupsOf(t, metadata, Left).error)) &&
      (SideGroupsOf(t, metadata, Left).Success? && SideGroupsOf(t, metadata, Right).Failure? ==>
         ParseKinematicTreeMetadata(metadata, t) == Failure(SideGroupsOf(t, metadata, Right).error))
    ensures (FootId(t, metadata, Left).Success? && FootId(t, metadata, Right).Success? &&
             SideGroupsOf(t, metadata, Left).Success? && SideGroupsOf(t, metadata, Right).Success?) ==>
      var groups := GroupsNode(metadata);
      var neck := JointListIndices(t, Child(groups, "neck"), "neck");
      var bkz := JointStart(t, Child(groups, "back_bkz"), "back_bkz");
      var bky := JointStart(t, Child(groups, "back_bky"), "back_bky");
      (neck.Failure? ==> ParseKinematicTreeMetadata(metadata, t) == Failure(neck.error)) &&
      (neck.Success? && bkz.Failure? ==> ParseKinematicTreeMetadata(metadata, t) == Failure(bkz.error)) &&
      (neck.Success? && bkz.Success? && bky.Failure? ==>
         ParseKinematicTreeMetadata(metadata, t) == Failure(bky.error))
  {
  }

  /** The groups of one side fail with the error of the first failing group,
      in the order legs, knee, ankles, arms. */
  lemma SideGroupsFirstFailure(t: Tree, metadata: Node, s: Side)
    ensures var groups, code := GroupsNode(metadata), SideCode(s);
      var legs := JointListIndices(t, Child(Child(groups, "legs"), code), "legs");
      var knee := JointStart(t, Child(Child(groups, "knees"), code), "knees");
      var ankles := JointListIndices(t, Child(Child(groups, "ankles"), code), "ankles");
      var arms := JointListIndices(t, Child(Child(groups, "arms"), code), "arms");
      (legs.Failure? ==> SideGroupsOf(t, metadata, s) == Failure(legs.error)) &&
      (legs.Success? && knee.Failure? ==> SideGroupsOf(t, metadata, s) == Failure(knee.error)) &&
      (legs.Success? && knee.Success? && ankles.Failure? ==> SideGroupsOf(t, metadata, s) == Failure(ankles.error)) &&
      (legs.Success? && knee.Success? && ankles.Success? && arms.Failure? ==>
         SideGroupsOf(t, metadata, s) == Failure(arms.error))
  {
  }

  /** `name` is the name of a joint of the tree. */
  predicate IsJointName(t: Tree, name: string) {
    exists b :: b in t.bodies && b.jointName == name
  }

  /** A single-joint entry (a knee or a back joint) whose name is no joint
      of the tree fails, naming that joint. */
  lemma UnresolvedJointFails(t: Tree, n: Node, key: string)
    requires n.Scalar?
    requires forall b :: b in t.bodies ==> b.jointName != n.text
    ensures JointStart(t, n, key) == Failure(UnresolvedName(n.text))
  {
  }

  /** A joint list (legs, ankles, arms or neck) fails at its first entry
      that is no joint of the tree, naming that joint. */
  lemma UnresolvedListEntryFails(t: Tree, n: Node, key: string, k: nat)
    requires n.Sequence? && forall j :: 0 <= j < |n.items| ==> n.items[j].Scalar?
    requires k < |n.items|
    requires forall j :: 0 <= j < k ==> IsJointName(t, n.items[j].text)
    requires !IsJointName(t, n.items[k].text)
    ensures JointListIndices(t, n, key) == Failure(UnresolvedName(n.items[k].text))
  {
    var names := AsStringList(n, key).value;
    ResolveJointsStopsAtFirstFailure(t, names, k);
  }

  /** A knee configured with a name that is no joint of the tree makes the
      whole resolution fail, naming that joint, once the pieces resolved
      before it have resolved. */
  lemma UnresolvedKneeFails(t: Tree, metadata: Node, s: Side)
    requires FootId(t, metadata, Left).Success? && FootId(t, metadata, Right).Success?
    requires s == Right ==> SideGroupsOf(t, metadata, Left).Success?
    requires JointListIndices(t, Child(Child(GroupsNode(metadata), "legs"), SideCode(s)), "legs").Success?
    requires Child(Child(GroupsNode(metadata), "knees"), SideCode(s)).Scalar?
    requires forall b :: b in t.bodies ==> b.jointName != Child(Child(GroupsNode(metadata), "knees"), SideCode(s)).text
    ensures ParseKinematicTreeMetadata(metadata, t) ==
      Failure(UnresolvedName(Child(Child(GroupsNode(metadata), "knees"), SideCode(s)).text))
  {
    var knee := Child(Child(GroupsNode(metadata), "knees"), SideCode(s));
    UnresolvedJointFails(t, knee, "knees");
    SideGroupsFirstFailure(t, metadata, s);
    KinematicTreeMetadataFirstFailure(metadata, t);
  }

  /** A back joint configured with a name that is no joint of the tree
      makes the whole resolution fail, naming that joint, once the pieces
      resolved before it have resolved: back_bkz after the neck, back_bky
      after back_bkz. */
  lemma UnresolvedBackJointFails(t: Tree, metadata: Node)
    ensures (FootId(t, metadata, Left).Success? && FootId(t, metadata, Right).Success? &&
             SideGroupsOf(t, metadata, Left).Success? && SideGroupsOf(t, metadata, Right).Success? &&
             JointListIndices(t, Child(GroupsNode(metadata), "neck"), "neck").Success? &&
             Child(GroupsNode(metadata), "back_bkz").Scalar? &&
             forall b :: b in t.bodies ==> b.jointName != Child(GroupsNode(metadata), "back_bkz").text) ==>
      ParseKinematicTreeMetadata(metadata, t) ==
        Failure(UnresolvedName(Child(GroupsNode(metadata), "back_bkz").text))
    ensures (FootId(t, metadata, Left).Success? && FootId(t, metadata, Right).Success? &&
             SideGroupsOf(t, metadata, Left).Success? && SideGroupsOf(t, metadata, Right).Success? &&
             JointListIndices(t, Child(GroupsNode(metadata), "neck"), "neck").Success? &&
             JointStart(t, Child(GroupsNode(metadata), "back_bkz"), "back_bkz").Success? &&
             Child(GroupsNode(metadata), "back_bky").Scalar? &&
             forall b :: b in t.bodies ==> b.jointName != Child(GroupsNode(metadata), "back_bky").text) ==>
      ParseKinematicTreeMetadata(metadata, t) ==
        Failure(UnresolvedName(Child(GroupsNode(metadata), "back_bky").text))
  {
    var bkz := Child(GroupsNode(metadata), "back_bkz");
    if bkz.Scalar? && forall b :: b in t.bodies ==> b.jointName != bkz.text {
      UnresolvedJointFails(t, bkz, "back_bkz");
    }
    var bky := Child(GroupsNode(metadata), "back_bky");
    if bky.Scalar? && forall b :: b in t.bodies ==> b.jointName != bky.text {
      UnresolvedJointFails(t, bky, "back_bky");
    }
    KinematicTreeMetadataFirstFailure(metadata, t);
  }

  /** A neck list whose entry k is the first that is no joint of the tree
      makes the whole resolution fail, naming that joint, once the pieces
      resolved before it have resolved. */
  lemma UnresolvedNeckJointFails(t: Tree, metadata: Node, k: nat)
    ensures (var n := Child(GroupsNode(metadata), "neck");
             FootId(t, metadata, Left).Success? && FootId(t, metadata, Right).Success? &&
             SideGroupsOf(t, metadata, Left).Success? && SideGroupsOf(t, metadata, Right).Success? &&
             n.Sequence? && (forall j :: 0 <= j < |n.items| ==> n.items[j].Scalar?) && k < |n.items| &&
             (forall j :: 0 <= j < k ==> IsJointName(t, n.items[j].text)) &&
             !IsJointName(t, n.items[k].text)) ==>
      ParseKinematicTreeMetadata(metadata, t) ==
        Failure(UnresolvedName(Child(GroupsNode(metadata), "neck").items[k].text))
  {
    var n := Child(GroupsNode(metadata), "neck");
    if n.Sequence? && (forall j :: 0 <= j < |n.items| ==> n.items[j].Scalar?) && k < |n.items| &&
       (forall j :: 0 <= j < k ==> IsJointName(t, n.items[j].text)) &&
       !IsJointName(t, n.items[k].text) {
      UnresolvedListEntryFails(t, n, "neck", k);
      KinematicTreeMetadataFirstFailure(metadata, t);
    }
  }
}
