/**
 * The parsers that fill arrays in loops: joint soft limits (one entry per
 * position), hardware parameters (two mode flags per actuated joint, decided
 * by a 0.5 threshold) and the top-level QP controller parameter set (which
 * also fills the body-motion list element by element).  Each is a method
 * proved equal to a function that states what it computes.
 */
module QPParams {
  import opened Config
  import opened KinematicTree
  import opened ControllerParams

  // ---- parseJointSoftLimits --------------------------------------------------

  /** What one struct element of joint_soft_limits contributes. */
  datatype SoftLimitEntry = SoftLimitEntry(
    enabled: bool,
    disableWhenBodyInSupport: int,
    lb: real,
    ub: real,
    kp: real,
    kd: real,
    weight: real,
    kLogistic: real)

  /** Per-joint soft-limit arrays, each one entry per position. */
  datatype JointSoftLimitParams = JointSoftLimitParams(
    enabled: seq<bool>,
    disableWhenBodyInSupport: seq<int>,
    lb: seq<real>,
    ub: seq<real>,
    kp: seq<real>,
    kd: seq<real>,
    weight: seq<real>,
    kLogistic: seq<real>)

  /** What element i contributes, its eight fields read in the order
      parseJointSoftLimits reads them: `enabled` as a nonzero test, the support flag truncated to an
      integer, the rest copied. */
  function SoftLimitEntryAt(v: Value, i: nat): Result<SoftLimitEntry> {
    var enabled :- FieldAt(v, i, "enabled");
    var disable :- FieldAt(v, i, "disable_when_body_in_support");
    var lb :- FieldAt(v, i, "lb");
    var ub :- FieldAt(v, i, "ub");
    var kp :- FieldAt(v, i, "kp");
    var kd :- FieldAt(v, i, "kd");
    var weight :- FieldAt(v, i, "weight");
    var kLogistic :- FieldAt(v, i, "k_logistic");
    Success(SoftLimitEntry(
      Scalar(enabled) != 0.0, TruncateToInt(Scalar(disable)),
      Scalar(lb), Scalar(ub), Scalar(kp), Scalar(kd), Scalar(weight), Scalar(kLogistic)))
  }

  function SoftLimitParser(v: Value): nat -> Result<SoftLimitEntry> {
    (i: nat) => SoftLimitEntryAt(v, i)
  }

  /** Element i carries all eight soft-limit fields. */
  predicate SoftLimitFieldsPresent(v: Value, i: nat) {
    FieldAt(v, i, "enabled").Success? && FieldAt(v, i, "disable_when_body_in_support").Success? &&
    FieldAt(v, i, "lb").Success? && FieldAt(v, i, "ub").Success? &&
    FieldAt(v, i, "kp").Success? && FieldAt(v, i, "kd").Success? &&
    FieldAt(v, i, "weight").Success? && FieldAt(v, i, "k_logistic").Success?
  }

  /** The scalar value of field `name` of element i. */
  function ScalarAt(v: Value, i: nat, name: string): real
    requires FieldAt(v, i, name).Success?
  {
    Scalar(FieldAt(v, i, name).value)
  }

  /** The per-element entries laid out as one vector per field. */
  function SoftLimitColumns(entries: seq<SoftLimitEntry>): JointSoftLimitParams {
    var n := |entries|;
    JointSoftLimitParams(
      seq(n, k requires 0 <= k < n => entries[k].enabled),
      seq(n, k requires 0 <= k < n => entries[k].disableWhenBodyInSupport),
      seq(n, k requires 0 <= k < n => entries[k].lb),
      seq(n, k requires 0 <= k < n => entries[k].ub),
      seq(n, k requires 0 <= k < n => entries[k].kp),
      seq(n, k requires 0 <= k < n => entries[k].kd),
      seq(n, k requires 0 <= k < n => entries[k].weight),
      seq(n, k requires 0 <= k < n => entries[k].kLogistic))
  }

  /** What parseJointSoftLimits computes. */
  function JointSoftLimitsOf(v: Value, t: Tree): Result<JointSoftLimitParams> {
    if NumElements(v) != t.numPositions then Failure(ShapeMismatch("joint_soft_limits"))
    else
      var entries :- ParseEach(t.numPositions, SoftLimitParser(v));
      Success(SoftLimitColumns(entries))
  }

  /** parseJointSoftLimits: checks the element count, then fills eight
      zero-initialised vectors of length nq index by index. */
  method ParseJointSoftLimits(v: Value, t: Tree) returns (r: Result<JointSoftLimitParams>)
    ensures r == JointSoftLimitsOf(v, t)
  {
    var nq := t.numPositions;
    if NumElements(v) != nq {
      return Failure(ShapeMismatch("joint_soft_limits"));
    }
    var enabled := seq(nq, _ => false);
    var disable := seq(nq, _ => 0);
    var lb, ub := seq(nq, _ => 0.0), seq(nq, _ => 0.0);
    var kp, kd := seq(nq, _ => 0.0), seq(nq, _ => 0.0);
    var weight, kLogistic := seq(nq, _ => 0.0), seq(nq, _ => 0.0);
    ghost var entries: seq<SoftLimitEntry> := [];
    for i := 0 to nq
      invariant ParseEach(i, SoftLimitParser(v)) == Success(entries)
      invariant |entries| == i
      invariant |enabled| == |disable| == |lb| == |ub| == |kp| == |kd| == |weight| == |kLogistic| == nq
      invariant forall k :: 0 <= k < i ==>
        entries[k] == SoftLimitEntry(enabled[k], disable[k], lb[k], ub[k], kp[k], kd[k], weight[k], kLogistic[k])
    {
      var entry := SoftLimitEntryAt(v, i);
      if entry.Failure? {
        ParseEachStopsAt(nq, SoftLimitParser(v), i);
        return Failure(entry.error);
      }
      var e := entry.value;
      enabled := enabled[i := e.enabled];
      disable := disable[i := e.disableWhenBodyInSupport];
      lb := lb[i := e.lb];
      ub := ub[i := e.ub];
      kp := kp[i := e.kp];
      kd := kd[i := e.kd];
      weight := weight[i := e.weight];
      kLogistic := kLogistic[i := e.kLogistic];
      ParseEachExtend(i, SoftLimitParser(v), entries);
      entries := entries + [e];
    }
    r := Success(JointSoftLimitParams(enabled, disable, lb, ub, kp, kd, weight, kLogistic));
    SoftLimitColumnsPointwise(entries, r.value);
  }

  /** Vectors that agree with the entries index by index are their columns. */
  lemma SoftLimitColumnsPointwise(entries: seq<SoftLimitEntry>, p: JointSoftLimitParams)
    requires var n := |entries|;
      |p.enabled| == |p.disableWhenBodyInSupport| == |p.lb| == |p.ub| == n &&
      |p.kp| == |p.kd| == |p.weight| == |p.kLogistic| == n
    requires forall k :: 0 <= k < |entries| ==>
      entries[k] == SoftLimitEntry(p.enabled[k], p.disableWhenBodyInSupport[k], p.lb[k], p.ub[k],
        p.kp[k], p.kd[k], p.weight[k], p.kLogistic[k])
    ensures p == SoftLimitColumns(entries)
  {
  }

  /** Element i parses exactly when it has all eight fields, and its entry
      then holds their scalar values. */
  lemma SoftLimitEntryMeaning(v: Value, i: nat)
    ensures SoftLimitEntryAt(v, i).Success? <==> SoftLimitFieldsPresent(v, i)
    ensures SoftLimitEntryAt(v, i).Success? ==>
      var e := SoftLimitEntryAt(v, i).value;
      e.enabled == (ScalarAt(v, i, "enabled") != 0.0) &&
      e.disableWhenBodyInSupport == TruncateToInt(ScalarAt(v, i, "disable_when_body_in_support")) &&
      e.lb == ScalarAt(v, i, "lb") && e.ub == ScalarAt(v, i, "ub") &&
      e.kp == ScalarAt(v, i, "kp") && e.kd == ScalarAt(v, i, "kd") &&
      e.weight == ScalarAt(v, i, "weight") && e.kLogistic == ScalarAt(v, i, "k_logistic")
  {
  }

  /** A struct array with the wrong element count is refused; otherwise the
      parse succeeds exactly when every element has all eight fields. */
  lemma JointSoftLimitsSucceeds(v: Value, t: Tree)
    ensures NumElements(v) != t.numPositions ==>
      JointSoftLimitsOf(v, t) == Failure(ShapeMismatch("joint_soft_limits"))
    ensures JointSoftLimitsOf(v, t).Success? <==>
      NumElements(v) == t.numPositions &&
      forall i :: 0 <= i < t.numPositions ==> SoftLimitFieldsPresent(v, i)
  {
    if NumElements(v) == t.numPositions {
      ParseEachCorrect(t.numPositions, SoftLimitParser(v));
      forall i | 0 <= i < t.numPositions
        ensures SoftLimitParser(v)(i).Success? <==> SoftLimitFieldsPresent(v, i)
      {
        SoftLimitEntryMeaning(v, i);
      }
    }
  }

  /** On success every vector has nq entries and entry i is read from
      element i. */
  lemma JointSoftLimitsValues(v: Value, t: Tree)
    requires JointSoftLimitsOf(v, t).Success?
    ensures var p, nq := JointSoftLimitsOf(v, t).value, t.numPositions;
      |p.enabled| == nq && |p.disableWhenBodyInSupport| == nq &&
      |p.lb| == nq && |p.ub| == nq && |p.kp| == nq && |p.kd| == nq &&
      |p.weight| == nq && |p.kLogistic| == nq &&
      forall i :: 0 <= i < nq ==>
        SoftLimitEntryAt(v, i) == Success(SoftLimitEntry(p.enabled[i], p.disableWhenBodyInSupport[i],
          p.lb[i], p.ub[i], p.kp[i], p.kd[i], p.weight[i], p.kLogistic[i]))
  {
    ParseEachCorrect(t.numPositions, SoftLimitParser(v));
  }

  // ---- parseHardwareParams ---------------------------------------------------

  datatype HardwareParams = HardwareParams(
    gains: HardwareGains,
    jointIsForceControlled: seq<bool>,
    jointIsPositionControlled: seq<bool>)

  /** A numeric flag reads as set when strictly above 0.5. */
  predicate FlagSet(x: real) {
    x > 0.5
  }

  /** What parseHardwareParams computes. */
  function HardwareParamsOf(v: Value, t: Tree): Result<HardwareParams> {
    var gainsObj :- Field(v, "gains");
    var gains :- ParseHardwareGains(gainsObj, t);
    var nu := HardwareDof(t);
    var position :- SizedField(v, "joint_is_position_controlled", nu, 1);
    var force :- SizedField(v, "joint_is_force_controlled", nu, 1);
    Success(HardwareParams(
      gains,
      seq(|force|, k requires 0 <= k < |force| => FlagSet(force[k])),
      seq(|position|, k requires 0 <= k < |position| => FlagSet(position[k]))))
  }

  /** parseHardwareParams: the gain tables, then two nu-by-1 mode arrays
      thresholded entry by entry into zero-initialised flag vectors. */
  method ParseHardwareParams(v: Value, t: Tree) returns (r: Result<HardwareParams>)
    ensures r == HardwareParamsOf(v, t)
  {
    var gainsObj :- Field(v, "gains");
    var gains :- ParseHardwareGains(gainsObj, t);
    var nu := HardwareDof(t);
    var position :- SizedField(v, "joint_is_position_controlled", nu, 1);
    var force :- SizedField(v, "joint_is_force_controlled", nu, 1);
    assert |force| == |position| == nu;
    var isForce := seq(nu, _ => false);
    var isPosition := seq(nu, _ => false);
    for i := 0 to nu
      invariant |isForce| == |isPosition| == nu
      invariant forall k :: 0 <= k < i ==> isForce[k] == FlagSet(force[k])
      invariant forall k :: 0 <= k < i ==> isPosition[k] == FlagSet(position[k])
    {
      isForce := isForce[i := force[i] > 0.5];
      isPosition := isPosition[i := position[i] > 0.5];
    }
    assert isForce == seq(|force|, k requires 0 <= k < |force| => FlagSet(force[k]));
    assert isPosition == seq(|position|, k requires 0 <= k < |position| => FlagSet(position[k]));
    r := Success(HardwareParams(gains, isForce, isPosition));
  }

  /** Every hardware table and both flag arrays have nu entries; a joint is
      force- (position-) controlled iff its configured value exceeds 0.5. */
  lemma HardwareParamsMeaning(v: Value, t: Tree)
    ensures HardwareParamsOf(v, t).Success? <==>
      Field(v, "gains").Success? && ParseHardwareGains(Field(v, "gains").value, t).Success? &&
      HasSizedDoubles(v, "joint_is_position_controlled", HardwareDof(t), 1) &&
      HasSizedDoubles(v, "joint_is_force_controlled", HardwareDof(t), 1)
    ensures HardwareParamsOf(v, t).Success? ==>
      var p, nu := HardwareParamsOf(v, t).value, HardwareDof(t);
      p.gains == ParseHardwareGains(Field(v, "gains").value, t).value &&
      (forall k :: 0 <= k < |GainNames| ==> |GainTables(p.gains)[k]| == nu) &&
      |p.jointIsForceControlled| == nu && |p.jointIsPositionControlled| == nu &&
      forall i :: 0 <= i < nu ==>
        (p.jointIsForceControlled[i] <==> FieldData(v, "joint_is_force_controlled")[i] > 0.5) &&
        (p.jointIsPositionControlled[i] <==> FieldData(v, "joint_is_position_controlled")[i] > 0.5)
  {
  }

  /** The parser reports the gains' error first, then a mode array that is
      missing or not nu-by-1, position before force. */
  lemma HardwareParamsFirstMismatch(v: Value, t: Tree)
    ensures Field(v, "gains").Failure? ==> HardwareParamsOf(v, t) == Failure(MissingField("gains"))
    ensures Field(v, "gains").Success? && ParseHardwareGains(Field(v, "gains").value, t).Failure? ==>
      HardwareParamsOf(v, t) == Failure(ParseHardwareGains(Field(v, "gains").value, t).error)
    ensures Field(v, "gains").Success? && ParseHardwareGains(Field(v, "gains").value, t).Success? ==>
      var nu := HardwareDof(t);
      (Field(v, "joint_is_position_controlled").Failure? ==>
         HardwareParamsOf(v, t) == Failure(MissingField("joint_is_position_controlled"))) &&
      (Misshaped(v, "joint_is_position_controlled", nu, 1) ==>
         HardwareParamsOf(v, t) == Failure(ShapeMismatch("joint_is_position_controlled"))) &&
      (HasSizedDoubles(v, "joint_is_position_controlled", nu, 1) ==>
         (Field(v, "joint_is_force_controlled").Failure? ==>
            HardwareParamsOf(v, t) == Failure(MissingField("joint_is_force_controlled"))) &&
         (Misshaped(v, "joint_is_force_controlled", nu, 1) ==>
            HardwareParamsOf(v, t) == Failure(ShapeMismatch("joint_is_force_controlled"))))
  {
  }

  /** The threshold is strict: a configured mode value of exactly 0.5 leaves
      the joint's flag clear, and any value above 0.5 sets it. */
  lemma FlagThreshold(v: Value, t: Tree, i: nat)
    ensures HardwareParamsOf(v, t).Success? && i < HardwareDof(t) ==>
      var p := HardwareParamsOf(v, t).value;
      var force, position :=
        FieldData(v, "joint_is_force_controlled")[i], FieldData(v, "joint_is_position_controlled")[i];
      (force == 0.5 ==> !p.jointIsForceControlled[i]) &&
      (force > 0.5 ==> p.jointIsForceControlled[i]) &&
      (position == 0.5 ==> !p.jointIsPositionControlled[i]) &&
      (position > 0.5 ==> p.jointIsPositionControlled[i])
  {
    HardwareParamsMeaning(v, t);
  }

  // ---- parseQPControllerParams -----------------------------------------------

  /** One complete controller parameter set. */
  datatype QPControllerParams = QPControllerParams(
    wKdot: seq<real>,
    KpAng: real,
    wSlack: real,
    slackLimit: real,
    wGrf: real,
    KpAccel: real,
    contactThreshold: real,
    minKneeAngle: real,
    comObserverGain: seq<real>,
    useComObserver: bool,
    wholeBody: WholeBodyParams,
    vrefIntegrator: VRefIntegratorParams,
    jointSoftLimits: JointSoftLimitParams,
    bodyMotion: seq<BodyMotionParams>,
    hardware: HardwareParams)

  function BodyMotionParser(obj: Value): nat -> Result<BodyMotionParams> {
    (i: nat) => ParseBodyMotionParams(obj, i)
  }

  /** The body-motion list: one entry per element of the configured array. */
  function BodyMotionsOf(obj: Value): Result<seq<BodyMotionParams>> {
    ParseEach(NumElements(obj), BodyMotionParser(obj))
  }

  /** The names of the scalar settings, in the order they are read. */
  const ScalarNames: seq<string> :=
    ["Kp_ang", "w_slack", "slack_limit", "w_grf", "Kp_accel", "contact_threshold", "min_knee_angle"]

  /** The scalar settings, in the order parseQPControllerParams reads them. */
  datatype Scalars = Scalars(
    KpAng: real, wSlack: real, slackLimit: real, wGrf: real,
    KpAccel: real, contactThreshold: real, minKneeAngle: real)

  function ScalarsOf(v: Value): Result<Scalars> {
    var KpAng :- ScalarField(v, "Kp_ang");
    var wSlack :- ScalarField(v, "w_slack");
    var slackLimit :- ScalarField(v, "slack_limit");
    var wGrf :- ScalarField(v, "w_grf");
    var KpAccel :- ScalarField(v, "Kp_accel");
    var contactThreshold :- ScalarField(v, "contact_threshold");
    var minKneeAngle :- ScalarField(v, "min_knee_angle");
    Success(Scalars(KpAng, wSlack, slackLimit, wGrf, KpAccel, contactThreshold, minKneeAngle))
  }

  /** use_center_of_mass_observer: a 1-by-1 value, true only as a logical true. */
  function UseComObserverOf(v: Value): Result<bool> {
    var u :- Field(v, "use_center_of_mass_observer");
    var _ :- SizeCheck(u, 1, 1, "use_center_of_mass_observer");
    Success(IsLogicalScalarTrue(u))
  }

  /** The settings read before the nested parameter objects: the 3-by-3
      W_kdot, the scalars, the 4-by-4 observer gain and its switch. */
  datatype Settings = Settings(wKdot: seq<real>, scalars: Scalars, comGain: seq<real>, useCom: bool)

  function SettingsOf(v: Value): Result<Settings> {
    var wKdot :- SizedField(v, "W_kdot", 3, 3);
    var s :- ScalarsOf(v);
    var comGain :- SizedField(v, "center_of_mass_observer_gain", 4, 4);
    var useCom :- UseComObserverOf(v);
    Success(Settings(wKdot, s, comGain, useCom))
  }

  function Assemble(st: Settings, wholeBody: WholeBodyParams, vref: VRefIntegratorParams,
                    limits: JointSoftLimitParams, bodyMotion: seq<BodyMotionParams>,
                    hardware: HardwareParams): QPControllerParams
  {
    var s := st.scalars;
    QPControllerParams(
      st.wKdot, s.KpAng, s.wSlack, s.slackLimit, s.wGrf, s.KpAccel, s.contactThreshold, s.minKneeAngle,
      st.comGain, st.useCom, wholeBody, vref, limits, bodyMotion, hardware)
  }

  /** What parseQPControllerParams computes. */
  function QPControllerParamsOf(v: Value, t: Tree): Result<QPControllerParams> {
    var settings :- SettingsOf(v);
    var wholeBodyObj :- Field(v, "whole_body");
    var wholeBody :- ParseWholeBodyParams(wholeBodyObj, t);
    var vrefObj :- Field(v, "vref_integrator");
    var vref :- ParseVRefIntegratorParams(vrefObj);
    var limitsObj :- Field(v, "joint_soft_limits");
    var limits :- JointSoftLimitsOf(limitsObj, t);
    var bodyMotionObj :- Field(v, "body_motion");
    var bodyMotion :- BodyMotionsOf(bodyMotionObj);
    var hardwareObj :- Field(v, "hardware");
    var hardware :- HardwareParamsOf(hardwareObj, t);
    Success(Assemble(settings, wholeBody, vref, limits, bodyMotion, hardware))
  }

  /** parseQPControllerParams: the 3-by-3 and scalar settings, then the
      nested parameter objects in the order parseQPControllerParams reads them; the body-motion list is
      resized to the configured count and filled element by element. */
  method ParseQPControllerParams(v: Value, t: Tree) returns (r: Result<QPControllerParams>)
    ensures r == QPControllerParamsOf(v, t)
  {
    var settings :- SettingsOf(v);
    var wholeBodyObj :- Field(v, "whole_body");
    var wholeBody :- ParseWholeBodyParams(wholeBodyObj, t);
    var vrefObj :- Field(v, "vref_integrator");
    var vref :- ParseVRefIntegratorParams(vrefObj);
    var limitsObj :- Field(v, "joint_soft_limits");
    var limits :- ParseJointSoftLimits(limitsObj, t);
    var bodyMotionObj :- Field(v, "body_motion");
    var bodyMotion :- FillEach(NumElements(bodyMotionObj), BodyMotionParser(bodyMotionObj),
      BodyMotionParams([], [], 0.0, Bounds([], [])));
    var hardwareObj :- Field(v, "hardware");
    var hardware :- ParseHardwareParams(hardwareObj, t);
    r := Success(Assemble(settings, wholeBody, vref, limits, bodyMotion, hardware));
  }

  /** The settings succeed exactly when W_kdot is a 3-by-3 and the observer
      gain a 4-by-4 double array, each scalar setting is 1-by-1 and the
      observer switch is 1-by-1; they are then copied from the configuration. */
  lemma SettingsMeaning(v: Value)
    ensures SettingsOf(v).Success? <==>
      HasSizedDoubles(v, "W_kdot", 3, 3) &&
      HasScalar(v, "Kp_ang") && HasScalar(v, "w_slack") && HasScalar(v, "slack_limit") &&
      HasScalar(v, "w_grf") && HasScalar(v, "Kp_accel") && HasScalar(v, "contact_threshold") &&
      HasScalar(v, "min_knee_angle") &&
      HasSizedDoubles(v, "center_of_mass_observer_gain", 4, 4) &&
      HasScalar(v, "use_center_of_mass_observer")
    ensures SettingsOf(v).Success? ==>
      var st, s := SettingsOf(v).value, SettingsOf(v).value.scalars;
      |st.wKdot| == 9 && st.wKdot == FieldData(v, "W_kdot") &&
      |st.comGain| == 16 && st.comGain == FieldData(v, "center_of_mass_observer_gain") &&
      s.KpAng == FieldScalar(v, "Kp_ang") && s.wSlack == FieldScalar(v, "w_slack") &&
      s.slackLimit == FieldScalar(v, "slack_limit") && s.wGrf == FieldScalar(v, "w_grf") &&
      s.KpAccel == FieldScalar(v, "Kp_accel") &&
      s.contactThreshold == FieldScalar(v, "contact_threshold") &&
      s.minKneeAngle == FieldScalar(v, "min_knee_angle") &&
      st.useCom == IsLogicalScalarTrue(Field(v, "use_center_of_mass_observer").value)
  {
  }

  /** The settings report the first field, in their reading order, that is
      present with the wrong shape, and name it: W_kdot, then each scalar,
      then the observer gain, then the observer switch. */
  lemma SettingsFirstMismatch(v: Value, k: nat)
    ensures Misshaped(v, "W_kdot", 3, 3) ==> SettingsOf(v) == Failure(ShapeMismatch("W_kdot"))
    ensures (HasSizedDoubles(v, "W_kdot", 3, 3) && k < |ScalarNames| &&
             (forall j :: 0 <= j < k ==> HasScalar(v, ScalarNames[j])) && Misshaped(v, ScalarNames[k], 1, 1)) ==>
      SettingsOf(v) == Failure(ShapeMismatch(ScalarNames[k]))
    ensures (HasSizedDoubles(v, "W_kdot", 3, 3) &&
             forall j :: 0 <= j < |ScalarNames| ==> HasScalar(v, ScalarNames[j])) ==>
      (Misshaped(v, "center_of_mass_observer_gain", 4, 4) ==>
         SettingsOf(v) == Failure(ShapeMismatch("center_of_mass_observer_gain"))) &&
      (HasSizedDoubles(v, "center_of_mass_observer_gain", 4, 4) &&
       Misshaped(v, "use_center_of_mass_observer", 1, 1) ==>
         SettingsOf(v) == Failure(ShapeMismatch("use_center_of_mass_observer")))
  {
    assert ScalarNames[0] == "Kp_ang" && ScalarNames[1] == "w_slack" && ScalarNames[2] == "slack_limit";
    assert ScalarNames[3] == "w_grf" && ScalarNames[4] == "Kp_accel";
    assert ScalarNames[5] == "contact_threshold" && ScalarNames[6] == "min_knee_angle";
    if HasSizedDoubles(v, "W_kdot", 3, 3) && k < |ScalarNames| &&
       (forall j :: 0 <= j < k ==> HasScalar(v, ScalarNames[j])) {
      if k > 0 { assert HasScalar(v, ScalarNames[0]); }
      if k > 1 { assert HasScalar(v, ScalarNames[1]); }
      if k > 2 { assert HasScalar(v, ScalarNames[2]); }
      if k > 3 { assert HasScalar(v, ScalarNames[3]); }
      if k > 4 { assert HasScalar(v, ScalarNames[4]); }
      if k > 5 { assert HasScalar(v, ScalarNames[5]); }
    }
  }

  /** A parsed parameter set is assembled from the results of its stages,
      each of which succeeded. */
  lemma QPControllerParamsStages(v: Value, t: Tree)
    ensures QPControllerParamsOf(v, t).Success? ==>
      SettingsOf(v).Success?
    ensures QPControllerParamsOf(v, t).Success? ==>
      Field(v, "whole_body").Success? && Field(v, "vref_integrator").Success? &&
      Field(v, "joint_soft_limits").Success? && Field(v, "body_motion").Success? &&
      Field(v, "hardware").Success?
    ensures QPControllerParamsOf(v, t).Success? ==>
      ParseWholeBodyParams(Field(v, "whole_body").value, t).Success? &&
      ParseVRefIntegratorParams(Field(v, "vref_integrator").value).Success? &&
      JointSoftLimitsOf(Field(v, "joint_soft_limits").value, t).Success? &&
      BodyMotionsOf(Field(v, "body_motion").value).Success? &&
      HardwareParamsOf(Field(v, "hardware").value, t).Success?
    ensures QPControllerParamsOf(v, t).Success? ==>
      QPControllerParamsOf(v, t).value == Assemble(
      SettingsOf(v).value,
      ParseWholeBodyParams(Field(v, "whole_body").value, t).value,
      ParseVRefIntegratorParams(Field(v, "vref_integrator").value).value,
      JointSoftLimitsOf(Field(v, "joint_soft_limits").value, t).value,
      BodyMotionsOf(Field(v, "body_motion").value).value,
      HardwareParamsOf(Field(v, "hardware").value, t).value)
  {
  }

  /** Conversely, when the settings and the five nested parses all succeed
      on their fields, the parameter set parses to their assembly. */
  lemma QPControllerParamsAssembled(v: Value, t: Tree)
    ensures (SettingsOf(v).Success? &&
             Field(v, "whole_body").Success? && Field(v, "vref_integrator").Success? &&
             Field(v, "joint_soft_limits").Success? && Field(v, "body_motion").Success? &&
             Field(v, "hardware").Success? &&
             ParseWholeBodyParams(Field(v, "whole_body").value, t).Success? &&
             ParseVRefIntegratorParams(Field(v, "vref_integrator").value).Success? &&
             JointSoftLimitsOf(Field(v, "joint_soft_limits").value, t).Success? &&
             BodyMotionsOf(Field(v, "body_motion").value).Success? &&
             HardwareParamsOf(Field(v, "hardware").value, t).Success?) ==>
      QPControllerParamsOf(v, t) == Success(Assemble(
        SettingsOf(v).value,
        ParseWholeBodyParams(Field(v, "whole_body").value, t).value,
        ParseVRefIntegratorParams(Field(v, "vref_integrator").value).value,
        JointSoftLimitsOf(Field(v, "joint_soft_limits").value, t).value,
        BodyMotionsOf(Field(v, "body_motion").value).value,
        HardwareParamsOf(Field(v, "hardware").value, t).value))
  {
  }

  /** A parsed parameter set copies its fixed-size matrices and scalar
      settings from the configuration. */
  lemma QPControllerSettingsCopied(v: Value, t: Tree)
    ensures QPControllerParamsOf(v, t).Success? ==>
      var p := QPControllerParamsOf(v, t).value;
      |p.wKdot| == 9 && p.wKdot == FieldData(v, "W_kdot") &&
      |p.comObserverGain| == 16 && p.comObserverGain == FieldData(v, "center_of_mass_observer_gain") &&
      p.KpAng == FieldScalar(v, "Kp_ang") && p.wSlack == FieldScalar(v, "w_slack") &&
      p.slackLimit == FieldScalar(v, "slack_limit") && p.wGrf == FieldScalar(v, "w_grf") &&
      p.KpAccel == FieldScalar(v, "Kp_accel") &&
      p.contactThreshold == FieldScalar(v, "contact_threshold") &&
      p.minKneeAngle == FieldScalar(v, "min_knee_angle") &&
      p.useComObserver == IsLogicalScalarTrue(Field(v, "use_center_of_mass_observer").value)
  {
    if QPControllerParamsOf(v, t).Success? {
      QPControllerParamsStages(v, t);
      SettingsMeaning(v);
    }
  }

  /** Every per-joint array of a parsed parameter set has the length its DOF
      count dictates. */
  lemma QPControllerParamsSized(v: Value, t: Tree)
    ensures QPControllerParamsOf(v, t).Success? ==>
      var p, nq, nv := QPControllerParamsOf(v, t).value, t.numPositions, t.numVelocities;
      |p.wholeBody.Kp| == nq && |p.wholeBody.Kd| == nq && |p.wholeBody.wQdd| == nv &&
      |p.wholeBody.integrator.gains| == nq && |p.wholeBody.integrator.clamps| == nq &&
      |p.wholeBody.qddBounds.min| == nv && |p.wholeBody.qddBounds.max| == nv &&
      |p.jointSoftLimits.enabled| == nq && |p.jointSoftLimits.disableWhenBodyInSupport| == nq &&
      |p.jointSoftLimits.lb| == nq && |p.jointSoftLimits.ub| == nq &&
      |p.jointSoftLimits.kp| == nq && |p.jointSoftLimits.kd| == nq &&
      |p.jointSoftLimits.weight| == nq && |p.jointSoftLimits.kLogistic| == nq &&
      (forall k :: 0 <= k < |GainNames| ==> |GainTables(p.hardware.gains)[k]| == HardwareDof(t)) &&
      |p.hardware.jointIsForceControlled| == HardwareDof(t) &&
      |p.hardware.jointIsPositionControlled| == HardwareDof(t)
  {
    if QPControllerParamsOf(v, t).Success? {
      QPControllerParamsStages(v, t);
      JointSoftLimitsValues(Field(v, "joint_soft_limits").value, t);
      HardwareParamsMeaning(Field(v, "hardware").value, t);
    }
  }

  /** The body-motion list of a parsed parameter set has one entry per
      configured element, entry i parsed from element i. */
  lemma QPControllerBodyMotion(v: Value, t: Tree)
    ensures QPControllerParamsOf(v, t).Success? ==>
      var p, bodyMotionObj := QPControllerParamsOf(v, t).value, Field(v, "body_motion").value;
      |p.bodyMotion| == NumElements(bodyMotionObj) &&
      forall i :: 0 <= i < |p.bodyMotion| ==>
        ParseBodyMotionParams(bodyMotionObj, i) == Success(p.bodyMotion[i]) &&
        |p.bodyMotion[i].Kp| == 6 && |p.bodyMotion[i].Kd| == 6 &&
        |p.bodyMotion[i].accelBounds.min| == 6 && |p.bodyMotion[i].accelBounds.max| == 6
  {
    if QPControllerParamsOf(v, t).Success? {
      QPControllerParamsStages(v, t);
      var bodyMotionObj := Field(v, "body_motion").value;
      ParseEachCorrect(NumElements(bodyMotionObj), BodyMotionParser(bodyMotionObj));
    }
  }
}
