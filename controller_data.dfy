/**
 * Assembly of the QP controller data object (the non-I/O steps of the
 * construction entry point): effort bounds copied from the actuators,
 * unbounded joint accelerations, the solver option plan, the robot joint
 * name lists, workspace sizes and the zeroed runtime state.
 */
module ControllerData {
  import opened Config
  import opened KinematicTree
  import opened TreeMetadata
  import opened QPParams

  // ---- extended reals ----------------------------------------------------------

  /** A double together with the two infinities. */
  datatype ExtReal = NegInf | Finite(x: real) | PosInf

  /** The order of the extended reals. */
  predicate AtMost(a: ExtReal, b: ExtReal) {
    a.NegInf? || b.PosInf? || (a.Finite? && b.Finite? && a.x <= b.x)
  }

  /** Bounds lb and ub admit the value x at every index. */
  predicate Admits(lb: seq<ExtReal>, ub: seq<ExtReal>, x: seq<real>)
    requires |lb| == |ub| == |x|
  {
    forall i :: 0 <= i < |x| ==> AtMost(lb[i], Finite(x[i])) && AtMost(Finite(x[i]), ub[i])
  }

  /** Bounds of -infinity below and +infinity above admit every vector of
      their length. */
  lemma InfiniteBoundsAdmitEverything(n: nat, x: seq<real>)
    requires |x| == n
    ensures Admits(seq(n, _ => NegInf), seq(n, _ => PosInf), x)
  {
  }

  /** Conversely, bounds that admit every vector of their length are
      -infinity below and +infinity above at every index: a finite (or
      +infinite) lower bound rules out a value under it, and a finite (or
      -infinite) upper bound a value over it. */
  lemma OnlyInfiniteBoundsAdmitEverything(lb: seq<ExtReal>, ub: seq<ExtReal>)
    requires |lb| == |ub|
    ensures (forall x: seq<real> :: |x| == |lb| ==> Admits(lb, ub, x)) ==>
      forall i :: 0 <= i < |lb| ==> lb[i] == NegInf && ub[i] == PosInf
  {
    if forall x: seq<real> :: |x| == |lb| ==> Admits(lb, ub, x) {
      forall i | 0 <= i < |lb|
        ensures lb[i] == NegInf && ub[i] == PosInf
      {
        var below := if lb[i].Finite? then lb[i].x - 1.0 else 0.0;
        var xl := seq(|lb|, _ => below);
        assert Admits(lb, ub, xl);
        assert AtMost(lb[i], Finite(xl[i]));
        var above := if ub[i].Finite? then ub[i].x + 1.0 else 0.0;
        var xu := seq(|lb|, _ => above);
        assert Admits(lb, ub, xu);
        assert AtMost(Finite(xu[i]), ub[i]);
      }
    }
  }

  // ---- solver options ------------------------------------------------------------

  /** One solver parameter setting. */
  datatype SolverParam = IntParam(name: string, ivalue: int) | DoubleParam(name: string, dvalue: real)

  /** The solver settings applied for a given solver method: output off,
      the method, presolve off, and for the barrier method (2) its iteration
      limit, homogeneous switch and convergence tolerance. */
  function SolverSettings(solverMethod: int): (r: seq<SolverParam>)
    ensures |r| >= 3 && r[1] == IntParam("method", solverMethod)
    ensures |r| == 3 <==> solverMethod != 2
  {
    [IntParam("outputflag", 0), IntParam("method", solverMethod), IntParam("presolve", 0)] +
    (if solverMethod == 2 then
       [IntParam("bariterlimit", 20), IntParam("barhomogeneous", 0), DoubleParam("barconvtol", 0.0005)]
     else [])
  }

  function ParamNames(ps: seq<SolverParam>): set<string> {
    set k | 0 <= k < |ps| :: ps[k].name
  }

  /** The three common settings come first, in this order; the barrier
      settings are applied exactly when the method is 2. */
  lemma SolverSettingsMeaning(solverMethod: int)
    ensures |SolverSettings(solverMethod)| >= 3
    ensures SolverSettings(solverMethod)[..3] ==
      [IntParam("outputflag", 0), IntParam("method", solverMethod), IntParam("presolve", 0)]
    ensures "bariterlimit" in ParamNames(SolverSettings(solverMethod)) <==> solverMethod == 2
    ensures "barconvtol" in ParamNames(SolverSettings(solverMethod)) <==> solverMethod == 2
    ensures solverMethod == 2 ==>
      IntParam("bariterlimit", 20) in SolverSettings(solverMethod) &&
      IntParam("barhomogeneous", 0) in SolverSettings(solverMethod) &&
      DoubleParam("barconvtol", 0.0005) in SolverSettings(solverMethod)
    ensures solverMethod != 2 ==>
      ParamNames(SolverSettings(solverMethod)) == {"outputflag", "method", "presolve"}
  {
    var s := SolverSettings(solverMethod);
    if solverMethod == 2 {
      assert s[3].name == "bariterlimit" && s[5].name == "barconvtol";
    } else {
      assert |s| == 3;
      assert ParamNames(s) == {s[0].name, s[1].name, s[2].name};
    }
  }

  /** The solver method is the truncated scalar of the `method` option field. */
  function SolverMethodOf(opts: Value): (r: Result<int>)
    ensures r.Success? <==> Field(opts, "method").Success?
    ensures r.Success? ==> r.value == TruncateToInt(Config.Scalar(Field(opts, "method").value))
  {
    var m :- Field(opts, "method");
    Success(TruncateToInt(Config.Scalar(m)))
  }

  // ---- joint names -----------------------------------------------------------------

  /** The actuated joints' names as the tree knows them and as the hardware
      knows them. */
  datatype JointNames = JointNames(drake: seq<string>, robot: seq<string>)

  /** parseRobotJointNames: one tree name per actuator, in actuator order,
      and the hardware's `joint_names` list. */
  function ParseRobotJointNames(t: Tree, hardwareData: Node): (r: Result<JointNames>)
    ensures r.Success? <==> AsStringList(Child(hardwareData, "joint_names"), "joint_names").Success?
    ensures r.Failure? ==> r.error == BadNode("joint_names")
    ensures r.Success? ==>
      |r.value.drake| == |t.actuators| &&
      (forall i :: 0 <= i < |t.actuators| ==> r.value.drake[i] == t.actuators[i].jointName) &&
      var items := Child(hardwareData, "joint_names").items;
      |r.value.robot| == |items| &&
      forall i :: 0 <= i < |items| ==> items[i] == Node.Scalar(r.value.robot[i])
  {
    var drake := seq(|t.actuators|, i requires 0 <= i < |t.actuators| => t.actuators[i].jointName);
    var robot :- AsStringList(Child(hardwareData, "joint_names"), "joint_names");
    Success(JointNames(drake, robot))
  }

  // ---- workspace and runtime state ----------------------------------------------------

  datatype Dims = Dims(rows: nat, cols: nat)

  /** The shapes of the preallocated workspace: matrices by rows and
      columns, vectors by length. */
  datatype Workspace = Workspace(
    H: Dims, HFloat: Dims, HAct: Dims,
    C: nat, CFloat: nat, CAct: nat,
    J: Dims, JXy: Dims, Hqp: Dims, fqp: nat, Ag: Dims, Ak: Dims)

  function WorkspaceFor(nq: nat, nu: nat): Workspace {
    Workspace(
      Dims(nq, nq), Dims(6, nq), Dims(nu, nq),
      nq, 6, nu,
      Dims(3, nq), Dims(2, nq), Dims(nq, nq), nq, Dims(6, nq), Dims(3, nq))
  }

  /** The shapes the controller's products rely on: the mass matrix and the
      QP Hessian are square over the positions, bias vectors match their
      matrix rows, the floating-base blocks have six rows, and every
      Jacobian and momentum matrix spans the positions. */
  predicate Conformable(w: Workspace, nq: nat, nu: nat) {
    w.H.rows == w.H.cols == nq && w.C == nq &&
    w.Hqp.rows == w.Hqp.cols == nq && w.fqp == nq &&
    w.HFloat.rows == w.CFloat == 6 && w.HAct.rows == w.CAct == nu &&
    w.HFloat.cols == w.HAct.cols == nq &&
    w.J.cols == w.JXy.cols == w.Ag.cols == w.Ak.cols == nq &&
    w.J.rows == 3 && w.JXy.rows == 2 && w.Ag.rows == 6 && w.Ak.rows == 3
  }

  lemma WorkspaceConformable(nq: nat, nu: nat)
    ensures Conformable(WorkspaceFor(nq, nu), nq, nu)
    ensures forall w: Workspace :: Conformable(w, nq, nu) ==> w == WorkspaceFor(nq, nu)
  {
  }

  /** The controller's runtime state between solves.  An absent basis is
      the empty sequence. */
  datatype ControllerState = ControllerState(
    vbasisLen: int, cbasisLen: int, vbasis: seq<int>, cbasis: seq<int>,
    tPrev: real,
    vrefIntegratorState: seq<real>, qIntegratorState: seq<real>,
    footContactPrev: seq<bool>, numActiveContactPts: int,
    comObserverState: seq<real>, lastComDdot: seq<real>)

  function ZeroState(nv: nat, nq: nat): ControllerState {
    ControllerState(0, 0, [], [], 0.0,
      seq(nv, _ => 0.0), seq(nq, _ => 0.0), [false, false], 0,
      seq(4, _ => 0.0), seq(3, _ => 0.0))
  }

  /** A freshly reset state: no basis, time zero, zero integrators of
      lengths nv and nq, neither foot in contact, no active contact points,
      and a zero observer state and last CoM acceleration. */
  predicate IsReset(s: ControllerState, nv: nat, nq: nat) {
    s.vbasisLen == 0 && s.cbasisLen == 0 && s.vbasis == [] && s.cbasis == [] && s.tPrev == 0.0 &&
    |s.vrefIntegratorState| == nv && (forall i :: 0 <= i < nv ==> s.vrefIntegratorState[i] == 0.0) &&
    |s.qIntegratorState| == nq && (forall i :: 0 <= i < nq ==> s.qIntegratorState[i] == 0.0) &&
    s.footContactPrev == [false, false] && s.numActiveContactPts == 0 &&
    |s.comObserverState| == 4 && (forall i :: 0 <= i < 4 ==> s.comObserverState[i] == 0.0) &&
    |s.lastComDdot| == 3 && (forall i :: 0 <= i < 3 ==> s.lastComDdot[i] == 0.0)
  }

  /** The zero state is the one reset state of its dimensions. */
  lemma ZeroStateIsReset(nv: nat, nq: nat)
    ensures IsReset(ZeroState(nv, nq), nv, nq)
    ensures forall s :: IsReset(s, nv, nq) ==> s == ZeroState(nv, nq)
  {
    forall s | IsReset(s, nv, nq)
      ensures s == ZeroState(nv, nq)
    {
      assert s.vrefIntegratorState == ZeroState(nv, nq).vrefIntegratorState;
      assert s.qIntegratorState == ZeroState(nv, nq).qIntegratorState;
      assert s.comObserverState == ZeroState(nv, nq).comObserverState;
      assert s.lastComDdot == ZeroState(nv, nq).lastComDdot;
    }
  }

  // ---- the controller data object -----------------------------------------------

  /** The controller data object the construction entry point fills in. */
  class QPControllerData {
    const tree: Tree
    var paramSets: map<string, QPControllerParams>
    var rpc: RobotPropertyCache
    var umin: seq<real>
    var umax: seq<real>
    var useFastQp: int
    var inputJointNames: JointNames
    var qddLb: seq<ExtReal>
    var qddUb: seq<ExtReal>
    var solverSettings: seq<SolverParam>
    var workspace: Workspace
    var state: ControllerState

    /** An object over a tree, with nothing read yet. */
    constructor (tree: Tree)
      ensures this.tree == tree
      ensures paramSets == map[] && umin == [] && umax == [] && qddLb == [] && qddUb == []
      ensures solverSettings == [] && useFastQp == 0
    {
      this.tree := tree;
      paramSets := map[];
      rpc := RobotPropertyCache(PerSide(0, 0),
        PositionIndices(PerSide([], []), PerSide(0, 0), PerSide([], []), PerSide([], []), [], 0, 0));
      umin, umax := [], [];
      useFastQp := 0;
      inputJointNames := JointNames([], []);
      qddLb, qddUb := [], [];
      solverSettings := [];
      workspace := WorkspaceFor(0, 0);
      state := ZeroState(0, 0);
    }

    /** Entry i of umin and umax is actuator i's lower and upper effort limit. */
    predicate EffortBoundsMatchActuators()
      reads this`umin, this`umax
    {
      |umin| == |tree.actuators| && |umax| == |tree.actuators| &&
      forall i :: 0 <= i < |tree.actuators| ==>
        umin[i] == tree.actuators[i].effortMin && umax[i] == tree.actuators[i].effortMax
    }

    /** The joint accelerations are unbounded: one -infinity lower and one
        +infinity upper bound per position. */
    predicate AccelerationUnbounded()
      reads this`qddLb, this`qddUb
    {
      |qddLb| == tree.numPositions && |qddUb| == tree.numPositions &&
      forall i :: 0 <= i < tree.numPositions ==> qddLb[i] == NegInf && qddUb[i] == PosInf
    }

    /** Everything the construction sets from the tree alone. */
    predicate Assembled()
      reads this`umin, this`umax, this`qddLb, this`qddUb, this`workspace, this`state
    {
      EffortBoundsMatchActuators() && AccelerationUnbounded() &&
      Conformable(workspace, tree.numPositions, |tree.actuators|) &&
      IsReset(state, tree.numVelocities, tree.numPositions)
    }

    /** umin and umax resized to the actuator count and filled from the
        actuators' effort limits, in actuator order. */
    method SetEffortBounds()
      modifies this`umin, this`umax
      ensures EffortBoundsMatchActuators()
    {
      var nu := |tree.actuators|;
      umin := seq(nu, _ => 0.0);
      umax := seq(nu, _ => 0.0);
      for i := 0 to nu
        invariant |umin| == nu && |umax| == nu
        invariant forall k :: 0 <= k < i ==>
          umin[k] == tree.actuators[k].effortMin && umax[k] == tree.actuators[k].effortMax
      {
        umin := umin[i := tree.actuators[i].effortMin];
        umax := umax[i := tree.actuators[i].effortMax];
      }
    }

    /** qdd_lb and qdd_ub: a zero vector of length nq shifted down and up by
        infinity. */
    method SetAccelerationBounds()
      modifies this`qddLb, this`qddUb
      ensures AccelerationUnbounded()
    {
      qddLb := seq(tree.numPositions, _ => NegInf);
      qddUb := seq(tree.numPositions, _ => PosInf);
    }

    method ConfigureSolver(solverMethod: int)
      modifies this`solverSettings
      ensures solverSettings == SolverSettings(solverMethod)
    {
      solverSettings := SolverSettings(solverMethod);
    }

    /** The workspace matrices and vectors resized by nq and nu. */
    method PreallocateWorkspace()
      modifies this`workspace
      ensures Conformable(workspace, tree.numPositions, |tree.actuators|)
    {
      workspace := WorkspaceFor(tree.numPositions, |tree.actuators|);
      WorkspaceConformable(tree.numPositions, |tree.actuators|);
    }

    method ResetState()
      modifies this`state
      ensures IsReset(state, tree.numVelocities, tree.numPositions)
    {
      state := ZeroState(tree.numVelocities, tree.numPositions);
      ZeroStateIsReset(tree.numVelocities, tree.numPositions);
    }

    /** The steps after the solver method is read: the solver plan, the
        workspace and the state. */
    method Finish(solverMethod: int)
      requires EffortBoundsMatchActuators() && AccelerationUnbounded()
      modifies this`solverSettings, this`workspace, this`state
      ensures Assembled() && solverSettings == SolverSettings(solverMethod)
    {
      ConfigureSolver(solverMethod);
      PreallocateWorkspace();
      ResetState();
    }
  }

  /** What the construction reads that can fail, in the order it reads it:
      the tree metadata, the robot joint names and the solver method. */
  datatype Setup = Setup(rpc: RobotPropertyCache, names: JointNames, solverMethod: int)

  function SetupOf(tree: Tree, metadata: Node, solverOpts: Value, hardwareData: Node): Result<Setup> {
    var rpc :- ParseKinematicTreeMetadata(metadata, tree);
    var names :- ParseRobotJointNames(tree, hardwareData);
    var solverMethod :- SolverMethodOf(solverOpts);
    Success(Setup(rpc, names, solverMethod))
  }

  /** The construction fails exactly when one of its reads fails, with the
      error of the first read that does. */
  lemma SetupMeaning(tree: Tree, metadata: Node, solverOpts: Value, hardwareData: Node)
    ensures SetupOf(tree, metadata, solverOpts, hardwareData).Success? <==>
      ParseKinematicTreeMetadata(metadata, tree).Success? &&
      AsStringList(Child(hardwareData, "joint_names"), "joint_names").Success? &&
      Field(solverOpts, "method").Success?
    ensures ParseKinematicTreeMetadata(metadata, tree).Failure? ==>
      SetupOf(tree, metadata, solverOpts, hardwareData) ==
        Failure(ParseKinematicTreeMetadata(metadata, tree).error)
    ensures (ParseKinematicTreeMetadata(metadata, tree).Success? &&
             AsStringList(Child(hardwareData, "joint_names"), "joint_names").Failure?) ==>
      SetupOf(tree, metadata, solverOpts, hardwareData) == Failure(BadNode("joint_names"))
    ensures (ParseKinematicTreeMetadata(metadata, tree).Success? &&
             AsStringList(Child(hardwareData, "joint_names"), "joint_names").Success? &&
             Field(solverOpts, "method").Failure?) ==>
      SetupOf(tree, metadata, solverOpts, hardwareData) == Failure(MissingField("method"))
  {
  }

  /** The construction steps after the tree metadata has resolved to `rpc`:
      a new object over the tree holding the loaded parameter sets and
      `rpc`, then the effort bounds, the fast-QP switch, the joint name
      lists, the acceleration bounds, the solver plan, the workspace and the
      state, in that order. */
  method Populate(tree: Tree, paramSets: map<string, QPControllerParams>, rpc: RobotPropertyCache,
                  useFastQp: Value, solverOpts: Value, hardwareData: Node)
    returns (r: Result<QPControllerData>)
    ensures r.Success? <==>
      ParseRobotJointNames(tree, hardwareData).Success? && SolverMethodOf(solverOpts).Success?
    ensures ParseRobotJointNames(tree, hardwareData).Failure? ==>
      r == Failure(ParseRobotJointNames(tree, hardwareData).error)
    ensures ParseRobotJointNames(tree, hardwareData).Success? && SolverMethodOf(solverOpts).Failure? ==>
      r == Failure(SolverMethodOf(solverOpts).error)
    ensures r.Success? ==>
      var d := r.value;
      fresh(d) && d.tree == tree && d.Assembled() &&
      d.paramSets == paramSets && d.rpc == rpc &&
      d.useFastQp == TruncateToInt(Config.Scalar(useFastQp)) &&
      d.inputJointNames == ParseRobotJointNames(tree, hardwareData).value &&
      d.solverSettings == SolverSettings(SolverMethodOf(solverOpts).value)
  {
    var d := new QPControllerData(tree);
    d.paramSets := paramSets;
    d.rpc := rpc;
    d.SetEffortBounds();
    d.useFastQp := TruncateToInt(Config.Scalar(useFastQp));
    var names := ParseRobotJointNames(tree, hardwareData);
    if names.Failure? {
      return Failure(names.error);
    }
    d.inputJointNames := names.value;
    d.SetAccelerationBounds();
    var solverMethod := SolverMethodOf(solverOpts);
    if solverMethod.Failure? {
      return Failure(solverMethod.error);
    }
    d.Finish(solverMethod.value);
    r := Success(d);
  }

  /** The construction entry point, after the tree and the configuration are
      loaded: the tree metadata is resolved first, and the object is then
      populated.  The first read that fails decides the error. */
  method Construct(tree: Tree, paramSets: map<string, QPControllerParams>, metadata: Node,
                   useFastQp: Value, solverOpts: Value, hardwareData: Node)
    returns (r: Result<QPControllerData>)
    ensures r.Success? <==> SetupOf(tree, metadata, solverOpts, hardwareData).Success?
    ensures r.Failure? ==> r.error == SetupOf(tree, metadata, solverOpts, hardwareData).error
    ensures r.Success? ==>
      var d, setup := r.value, SetupOf(tree, metadata, solverOpts, hardwareData).value;
      fresh(d) && d.tree == tree && d.Assembled() &&
      d.paramSets == paramSets && d.rpc == setup.rpc &&
      d.useFastQp == TruncateToInt(Config.Scalar(useFastQp)) &&
      d.inputJointNames == setup.names && d.solverSettings == SolverSettings(setup.solverMethod)
  {
    var rpc := ParseKinematicTreeMetadata(metadata, tree);
    if rpc.Failure? {
      return Failure(rpc.error);
    }
    r := Populate(tree, paramSets, rpc.value, useFastQp, solverOpts, hardwareData);
  }
}
