/**
 * The controller's parameter records and the parsers that are straight-line
 * validate-then-copy: integrator, whole-body, body-motion, velocity-reference
 * integrator and hardware gains.  Each either fails naming a field or copies
 * the configured values unchanged.
 */
module ControllerParams {
  import opened Config
  import opened KinematicTree

  datatype IntegratorParams = IntegratorParams(gains: seq<real>, clamps: seq<real>, eta: real)

  /** Lower and upper bounds (qdd_bounds, accel_bounds). */
  datatype Bounds = Bounds(min: seq<real>, max: seq<real>)

  datatype WholeBodyParams = WholeBodyParams(
    Kp: seq<real>,
    Kd: seq<real>,
    wQdd: seq<real>,
    integrator: IntegratorParams,
    qddBounds: Bounds)

  datatype BodyMotionParams = BodyMotionParams(Kp: seq<real>, Kd: seq<real>, weight: real, accelBounds: Bounds)

  datatype VRefIntegratorParams = VRefIntegratorParams(zeroAnklesOnContact: bool, eta: real, deltaMax: real)

  datatype HardwareGains = HardwareGains(
    kFP: seq<real>,
    kQP: seq<real>,
    kQI: seq<real>,
    kQdP: seq<real>,
    ffQd: seq<real>,
    ffFD: seq<real>,
    ffConst: seq<real>,
    ffQdD: seq<real>)

  /** Number of actuated velocities the hardware tables are sized by:
      the velocity count less the six floating-base ones (may be negative). */
  function HardwareDof(t: Tree): int {
    t.numVelocities - 6
  }

  // ---- field readers --------------------------------------------------------

  /** The field is present and holds a double array. */
  predicate HasDoubleField(v: Value, name: string) {
    Field(v, name).Success? && IsDouble(Field(v, name).value)
  }

  /** The data of a double-array field. */
  function FieldData(v: Value, name: string): seq<real>
    requires HasDoubleField(v, name)
  {
    Field(v, name).value.arr.data
  }

  /** The field is a double array of exactly n elements. */
  predicate HasDoubleVector(v: Value, name: string, n: int) {
    HasDoubleField(v, name) && |FieldData(v, name)| == n
  }

  /** The field is a double array of exactly m rows and n columns. */
  predicate HasSizedDoubles(v: Value, name: string, m: int, n: int) {
    HasDoubleField(v, name) && Rows(Field(v, name).value) == m && Cols(Field(v, name).value) == n
  }

  /** The field is present and has exactly one row and one column. */
  predicate HasScalar(v: Value, name: string) {
    Field(v, name).Success? && Rows(Field(v, name).value) == 1 && Cols(Field(v, name).value) == 1
  }

  /** The field is present but not m-by-n: the readers report a shape
      mismatch for it, whatever its class. */
  predicate Misshaped(v: Value, name: string, m: int, n: int) {
    Field(v, name).Success? && !(Rows(Field(v, name).value) == m && Cols(Field(v, name).value) == n)
  }

  /** The scalar value of a field. */
  function FieldScalar(v: Value, name: string): real
    requires Field(v, name).Success?
  {
    Scalar(Field(v, name).value)
  }

  /** Field lookup followed by the raw data, without a size check. */
  function FieldDoubles(v: Value, name: string): Result<seq<real>> {
    var f :- Field(v, name);
    Doubles(f, name)
  }

  /** Field lookup followed by an m-by-n size check and the raw data. */
  function SizedField(v: Value, name: string, m: int, n: int): (r: Result<seq<real>>)
    ensures r.Success? <==> HasSizedDoubles(v, name, m, n)
    ensures r.Success? ==> |r.value| == m * n && r.value == FieldData(v, name)
    ensures Field(v, name).Failure? ==> r == Failure(MissingField(name))
    ensures Misshaped(v, name, m, n) ==> r == Failure(ShapeMismatch(name))
    ensures Field(v, name).Success? && !Misshaped(v, name, m, n) && !IsDouble(Field(v, name).value) ==>
      r == Failure(NotDouble(name))
  {
    var f :- Field(v, name);
    SizedDoubles(f, m, n, name)
  }

  /** Field lookup followed by a 1-by-1 size check and the scalar value. */
  function ScalarField(v: Value, name: string): (r: Result<real>)
    ensures r.Success? <==> HasScalar(v, name)
    ensures r.Success? ==> r.value == FieldScalar(v, name)
    ensures Field(v, name).Failure? ==> r == Failure(MissingField(name))
    ensures Misshaped(v, name, 1, 1) ==> r == Failure(ShapeMismatch(name))
  {
    var f :- Field(v, name);
    SizedScalar(f, name)
  }

  /** Element-count check of a field. */
  function CountCheck(v: Value, name: string, n: int): Result<()> {
    var f :- Field(v, name);
    if NumElements(f) != n then Failure(ShapeMismatch(name)) else Success(())
  }

  // ---- parseIntegratorParams -------------------------------------------------

  /** parseIntegratorParams: copies gains, clamps and eta with no size check. */
  function ParseIntegratorParams(v: Value): (r: Result<IntegratorParams>)
    ensures r.Success? <==>
      HasDoubleField(v, "gains") && HasDoubleField(v, "clamps") && Field(v, "eta").Success?
    ensures r.Success? ==>
      r.value.gains == FieldData(v, "gains") &&
      r.value.clamps == FieldData(v, "clamps") &&
      r.value.eta == FieldScalar(v, "eta")
  {
    var gains :- FieldDoubles(v, "gains");
    var clamps :- FieldDoubles(v, "clamps");
    var eta :- Field(v, "eta");
    Success(IntegratorParams(gains, clamps, Scalar(eta)))
  }

  // ---- parseWholeBodyParams --------------------------------------------------

  /** Every field the whole-body parser reads is present. */
  predicate WholeBodyFieldsPresent(v: Value) {
    Field(v, "integrator").Success? && Field(v, "qdd_bounds").Success? &&
    Field(v, "Kp").Success? && Field(v, "Kd").Success? && Field(v, "w_qdd").Success? &&
    Field(Field(v, "integrator").value, "gains").Success? &&
    Field(Field(v, "integrator").value, "clamps").Success? &&
    Field(Field(v, "qdd_bounds").value, "min").Success? &&
    Field(Field(v, "qdd_bounds").value, "max").Success?
  }

  /** The seven element counts the whole-body parser checks. */
  predicate WholeBodyCountsMatch(v: Value, nq: int, nv: int)
    requires WholeBodyFieldsPresent(v)
  {
    var integrator, bounds := Field(v, "integrator").value, Field(v, "qdd_bounds").value;
    NumElements(Field(v, "Kp").value) == nq &&
    NumElements(Field(v, "Kd").value) == nq &&
    NumElements(Field(v, "w_qdd").value) == nv &&
    NumElements(Field(integrator, "gains").value) == nq &&
    NumElements(Field(integrator, "clamps").value) == nq &&
    NumElements(Field(bounds, "min").value) == nv &&
    NumElements(Field(bounds, "max").value) == nv
  }

  /** A whole-body section the parser accepts. */
  predicate WholeBodyWellShaped(v: Value, nq: int, nv: int) {
    Field(v, "integrator").Success? && Field(v, "qdd_bounds").Success? &&
    var integrator, bounds := Field(v, "integrator").value, Field(v, "qdd_bounds").value;
    HasDoubleVector(v, "Kp", nq) && HasDoubleVector(v, "Kd", nq) && HasDoubleVector(v, "w_qdd", nv) &&
    HasDoubleVector(integrator, "gains", nq) && HasDoubleVector(integrator, "clamps", nq) &&
    Field(integrator, "eta").Success? &&
    HasDoubleVector(bounds, "min", nv) && HasDoubleVector(bounds, "max", nv)
  }

  /** parseWholeBodyParams: all seven size checks first, then the copies. */
  function ParseWholeBodyParams(v: Value, t: Tree): (r: Result<WholeBodyParams>)
    ensures r.Success? <==> WholeBodyWellShaped(v, t.numPositions, t.numVelocities)
    ensures r.Success? ==>
      var integrator, bounds := Field(v, "integrator").value, Field(v, "qdd_bounds").value;
      |r.value.Kp| == t.numPositions && r.value.Kp == FieldData(v, "Kp") &&
      |r.value.Kd| == t.numPositions && r.value.Kd == FieldData(v, "Kd") &&
      |r.value.wQdd| == t.numVelocities && r.value.wQdd == FieldData(v, "w_qdd") &&
      |r.value.integrator.gains| == t.numPositions &&
      |r.value.integrator.clamps| == t.numPositions &&
      r.value.integrator == ParseIntegratorParams(integrator).value &&
      |r.value.qddBounds.min| == t.numVelocities && r.value.qddBounds.min == FieldData(bounds, "min") &&
      |r.value.qddBounds.max| == t.numVelocities && r.value.qddBounds.max == FieldData(bounds, "max")
    // a size mismatch is reported before any non-double field is
    ensures WholeBodyFieldsPresent(v) && !WholeBodyCountsMatch(v, t.numPositions, t.numVelocities) ==>
      r.Failure? && r.error.ShapeMismatch?
  {
    var integrator :- Field(v, "integrator");
    var bounds :- Field(v, "qdd_bounds");
    var nq, nv := t.numPositions, t.numVelocities;
    var _ :- CountCheck(v, "Kp", nq);
    var _ :- CountCheck(v, "Kd", nq);
    var _ :- CountCheck(v, "w_qdd", nv);
    var _ :- CountCheck(integrator, "gains", nq);
    var _ :- CountCheck(integrator, "clamps", nq);
    var _ :- CountCheck(bounds, "min", nv);
    var _ :- CountCheck(bounds, "max", nv);
    var Kp :- FieldDoubles(v, "Kp");
    var Kd :- FieldDoubles(v, "Kd");
    var wQdd :- FieldDoubles(v, "w_qdd");
    var integratorParams :- ParseIntegratorParams(integrator);
    var min :- FieldDoubles(bounds, "min");
    var max :- FieldDoubles(bounds, "max");
    Success(WholeBodyParams(Kp, Kd, wQdd, integratorParams, Bounds(min, max)))
  }

  /** The seven element-count checks in the order the whole-body parser
      makes them: the struct read, the field name and the count required. */
  function WholeBodyCounts(v: Value, nq: int, nv: int): seq<(Value, string, int)>
    requires Field(v, "integrator").Success? && Field(v, "qdd_bounds").Success?
  {
    var integrator, bounds := Field(v, "integrator").value, Field(v, "qdd_bounds").value;
    [(v, "Kp", nq), (v, "Kd", nq), (v, "w_qdd", nv),
     (integrator, "gains", nq), (integrator, "clamps", nq),
     (bounds, "min", nv), (bounds, "max", nv)]
  }

  /** The field named by a count check is present with the required count. */
  predicate CountMatches(c: (Value, string, int)) {
    Field(c.0, c.1).Success? && NumElements(Field(c.0, c.1).value) == c.2
  }

  /** The whole-body parser reports the first field, in its reading order,
      that is missing or has the wrong element count, and names it. */
  lemma WholeBodyFirstMismatch(v: Value, t: Tree, k: nat)
    requires Field(v, "integrator").Success? && Field(v, "qdd_bounds").Success?
    requires k < |WholeBodyCounts(v, t.numPositions, t.numVelocities)|
    requires forall j :: 0 <= j < k ==> CountMatches(WholeBodyCounts(v, t.numPositions, t.numVelocities)[j])
    requires !CountMatches(WholeBodyCounts(v, t.numPositions, t.numVelocities)[k])
    ensures var c := WholeBodyCounts(v, t.numPositions, t.numVelocities)[k];
      ParseWholeBodyParams(v, t) ==
        if Field(c.0, c.1).Success? then Failure(ShapeMismatch(c.1)) else Failure(MissingField(c.1))
  {
    var c := WholeBodyCounts(v, t.numPositions, t.numVelocities);
    if k > 0 { assert CountMatches(c[0]); }
    if k > 1 { assert CountMatches(c[1]); }
    if k > 2 { assert CountMatches(c[2]); }
    if k > 3 { assert CountMatches(c[3]); }
    if k > 4 { assert CountMatches(c[4]); }
    if k > 5 { assert CountMatches(c[5]); }
  }

  // ---- parseBodyMotionParams -------------------------------------------------

  /** A 6-by-1 double array. */
  predicate IsSixVector(v: Value) {
    Rows(v) == 6 && Cols(v) == 1 && IsDouble(v)
  }

  /** Element i of the body-motion array as the parser accepts it. */
  predicate BodyMotionWellShaped(obj: Value, i: nat) {
    var bounds, Kp, Kd, weight :=
      FieldAt(obj, i, "accel_bounds"), FieldAt(obj, i, "Kp"), FieldAt(obj, i, "Kd"), FieldAt(obj, i, "weight");
    bounds.Success? && Kp.Success? && Kd.Success? && weight.Success? &&
    IsSixVector(Kp.value) && IsSixVector(Kd.value) &&
    Rows(weight.value) == 1 && Cols(weight.value) == 1 &&
    HasSizedDoubles(bounds.value, "min", 6, 1) && HasSizedDoubles(bounds.value, "max", 6, 1)
  }

  /** parseBodyMotionParams: element i of the body-motion array; 6-by-1 gains
      and acceleration bounds, a 1-by-1 weight. */
  function ParseBodyMotionParams(obj: Value, i: nat): (r: Result<BodyMotionParams>)
    ensures r.Success? <==> BodyMotionWellShaped(obj, i)
    ensures r.Success? ==>
      var bounds := FieldAt(obj, i, "accel_bounds").value;
      |r.value.Kp| == 6 && r.value.Kp == FieldAt(obj, i, "Kp").value.arr.data &&
      |r.value.Kd| == 6 && r.value.Kd == FieldAt(obj, i, "Kd").value.arr.data &&
      r.value.weight == Scalar(FieldAt(obj, i, "weight").value) &&
      |r.value.accelBounds.min| == 6 && r.value.accelBounds.min == FieldData(bounds, "min") &&
      |r.value.accelBounds.max| == 6 && r.value.accelBounds.max == FieldData(bounds, "max")
  {
    var bounds :- FieldAt(obj, i, "accel_bounds");
    var KpObj :- FieldAt(obj, i, "Kp");
    var Kp :- SizedDoubles(KpObj, 6, 1, "Kp");
    var KdObj :- FieldAt(obj, i, "Kd");
    var Kd :- SizedDoubles(KdObj, 6, 1, "Kd");
    var weightObj :- FieldAt(obj, i, "weight");
    var weight :- SizedScalar(weightObj, "weight");
    var min :- SizedField(bounds, "min", 6, 1);
    var max :- SizedField(bounds, "max", 6, 1);
    Success(BodyMotionParams(Kp, Kd, weight, Bounds(min, max)))
  }

  /** The body-motion parser reports the first field, in its reading order,
      that is missing or has the wrong shape, and names it. */
  lemma BodyMotionFirstMismatch(obj: Value, i: nat)
    ensures FieldAt(obj, i, "accel_bounds").Failure? ==>
      ParseBodyMotionParams(obj, i) == Failure(MissingField("accel_bounds"))
    ensures FieldAt(obj, i, "accel_bounds").Success? ==>
      var Kp, Kd, weight := FieldAt(obj, i, "Kp"), FieldAt(obj, i, "Kd"), FieldAt(obj, i, "weight");
      var bounds := FieldAt(obj, i, "accel_bounds").value;
      (Kp.Failure? ==> ParseBodyMotionParams(obj, i) == Failure(MissingField("Kp"))) &&
      (Kp.Success? && !(Rows(Kp.value) == 6 && Cols(Kp.value) == 1) ==>
         ParseBodyMotionParams(obj, i) == Failure(ShapeMismatch("Kp"))) &&
      (Kp.Success? && IsSixVector(Kp.value) ==>
         (Kd.Failure? ==> ParseBodyMotionParams(obj, i) == Failure(MissingField("Kd"))) &&
         (Kd.Success? && !(Rows(Kd.value) == 6 && Cols(Kd.value) == 1) ==>
            ParseBodyMotionParams(obj, i) == Failure(ShapeMismatch("Kd"))) &&
         (Kd.Success? && IsSixVector(Kd.value) ==>
            (weight.Failure? ==> ParseBodyMotionParams(obj, i) == Failure(MissingField("weight"))) &&
            (weight.Success? && !(Rows(weight.value) == 1 && Cols(weight.value) == 1) ==>
               ParseBodyMotionParams(obj, i) == Failure(ShapeMismatch("weight"))) &&
            (weight.Success? && Rows(weight.value) == 1 && Cols(weight.value) == 1 ==>
               (Field(bounds, "min").Failure? ==>
                  ParseBodyMotionParams(obj, i) == Failure(MissingField("min"))) &&
               (Misshaped(bounds, "min", 6, 1) ==>
                  ParseBodyMotionParams(obj, i) == Failure(ShapeMismatch("min"))) &&
               (HasSizedDoubles(bounds, "min", 6, 1) && Field(bounds, "max").Failure? ==>
                  ParseBodyMotionParams(obj, i) == Failure(MissingField("max"))) &&
               (HasSizedDoubles(bounds, "min", 6, 1) && Misshaped(bounds, "max", 6, 1) ==>
                  ParseBodyMotionParams(obj, i) == Failure(ShapeMismatch("max"))))))
  {
  }

  // ---- parseVRefIntegratorParams ---------------------------------------------

  /** parseVRefIntegratorParams: zero_ankles_on_contact must be a 1-by-1 double
      and reads as true iff nonzero; eta and delta_max are 1-by-1 copies. */
  function ParseVRefIntegratorParams(v: Value): (r: Result<VRefIntegratorParams>)
    ensures r.Success? <==>
      HasSizedDoubles(v, "zero_ankles_on_contact", 1, 1) && HasScalar(v, "eta") && HasScalar(v, "delta_max")
    ensures r.Success? ==>
      r.value.zeroAnklesOnContact == (FieldData(v, "zero_ankles_on_contact")[0] != 0.0) &&
      r.value.eta == FieldScalar(v, "eta") &&
      r.value.deltaMax == FieldScalar(v, "delta_max")
    ensures Field(v, "zero_ankles_on_contact").Success? && !IsDouble(Field(v, "zero_ankles_on_contact").value) ==>
      r == Failure(NotDouble("zero_ankles_on_contact"))
  {
    var zero :- Field(v, "zero_ankles_on_contact");
    if !IsDouble(zero) then Failure(NotDouble("zero_ankles_on_contact"))
    else
      var zeroValue :- SizedScalar(zero, "zero_ankles_on_contact");
      var eta :- ScalarField(v, "eta");
      var deltaMax :- ScalarField(v, "delta_max");
      Success(VRefIntegratorParams(zeroValue != 0.0, eta, deltaMax))
  }

  /** After the class check, the velocity-reference parser reports the first
      field, in its reading order, that is missing or not 1-by-1. */
  lemma VRefIntegratorFirstMismatch(v: Value)
    ensures Field(v, "zero_ankles_on_contact").Failure? ==>
      ParseVRefIntegratorParams(v) == Failure(MissingField("zero_ankles_on_contact"))
    ensures HasDoubleField(v, "zero_ankles_on_contact") && Misshaped(v, "zero_ankles_on_contact", 1, 1) ==>
      ParseVRefIntegratorParams(v) == Failure(ShapeMismatch("zero_ankles_on_contact"))
    ensures HasSizedDoubles(v, "zero_ankles_on_contact", 1, 1) ==>
      (Field(v, "eta").Failure? ==> ParseVRefIntegratorParams(v) == Failure(MissingField("eta"))) &&
      (Misshaped(v, "eta", 1, 1) ==> ParseVRefIntegratorParams(v) == Failure(ShapeMismatch("eta"))) &&
      (HasScalar(v, "eta") && Field(v, "delta_max").Failure? ==>
         ParseVRefIntegratorParams(v) == Failure(MissingField("delta_max"))) &&
      (HasScalar(v, "eta") && Misshaped(v, "delta_max", 1, 1) ==>
         ParseVRefIntegratorParams(v) == Failure(ShapeMismatch("delta_max")))
  {
  }

  // ---- parseHardwareGains ----------------------------------------------------

  /** The eight gain tables, in the order the parser reads them. */
  const GainNames: seq<string> :=
    ["k_f_p", "k_q_p", "k_q_i", "k_qd_p", "ff_qd", "ff_f_d", "ff_const", "ff_qd_d"]

  function GainTables(g: HardwareGains): seq<seq<real>> {
    [g.kFP, g.kQP, g.kQI, g.kQdP, g.ffQd, g.ffFD, g.ffConst, g.ffQdD]
  }

  /** parseHardwareGains: each of the eight tables must be nu-by-1. */
  function ParseHardwareGains(v: Value, t: Tree): (r: Result<HardwareGains>)
    ensures r.Success? <==>
      forall k :: 0 <= k < |GainNames| ==> HasSizedDoubles(v, GainNames[k], HardwareDof(t), 1)
    ensures r.Success? ==>
      forall k :: 0 <= k < |GainNames| ==>
        |GainTables(r.value)[k]| == HardwareDof(t) &&
        GainTables(r.value)[k] == FieldData(v, GainNames[k])
  {
    var nu := HardwareDof(t);
    assert GainNames[0] == "k_f_p" && GainNames[1] == "k_q_p" && GainNames[2] == "k_q_i";
    assert GainNames[3] == "k_qd_p" && GainNames[4] == "ff_qd" && GainNames[5] == "ff_f_d";
    assert GainNames[6] == "ff_const" && GainNames[7] == "ff_qd_d";
    var kFP :- SizedField(v, "k_f_p", nu, 1);
    var kQP :- SizedField(v, "k_q_p", nu, 1);
    var kQI :- SizedField(v, "k_q_i", nu, 1);
    var kQdP :- SizedField(v, "k_qd_p", nu, 1);
    var ffQd :- SizedField(v, "ff_qd", nu, 1);
    var ffFD :- SizedField(v, "ff_f_d", nu, 1);
    var ffConst :- SizedField(v, "ff_const", nu, 1);
    var ffQdD :- SizedField(v, "ff_qd_d", nu, 1);
    Success(HardwareGains(kFP, kQP, kQI, kQdP, ffQd, ffFD, ffConst, ffQdD))
  }

  /** The hardware-gains parser reports the first table, in its reading
      order, that is missing, not nu-by-1 or not double, with that table's
      own error: a shape mismatch naming it when it is present but mis-sized. */
  lemma HardwareGainsFirstMismatch(v: Value, t: Tree, k: nat)
    requires k < |GainNames|
    requires forall j :: 0 <= j < k ==> HasSizedDoubles(v, GainNames[j], HardwareDof(t), 1)
    requires SizedField(v, GainNames[k], HardwareDof(t), 1).Failure?
    ensures ParseHardwareGains(v, t) == Failure(SizedField(v, GainNames[k], HardwareDof(t), 1).error)
    ensures Misshaped(v, GainNames[k], HardwareDof(t), 1) ==>
      ParseHardwareGains(v, t) == Failure(ShapeMismatch(GainNames[k]))
  {
    var nu := HardwareDof(t);
    assert GainNames[0] == "k_f_p" && GainNames[1] == "k_q_p" && GainNames[2] == "k_q_i";
    assert GainNames[3] == "k_qd_p" && GainNames[4] == "ff_qd" && GainNames[5] == "ff_f_d";
    assert GainNames[6] == "ff_const" && GainNames[7] == "ff_qd_d";
    if k > 0 { assert HasSizedDoubles(v, GainNames[0], nu, 1); }
    if k > 1 { assert HasSizedDoubles(v, GainNames[1], nu, 1); }
    if k > 2 { assert HasSizedDoubles(v, GainNames[2], nu, 1); }
    if k > 3 { assert HasSizedDoubles(v, GainNames[3], nu, 1); }
    if k > 4 { assert HasSizedDoubles(v, GainNames[4], nu, 1); }
    if k > 5 { assert HasSizedDoubles(v, GainNames[5], nu, 1); }
    if k > 6 { assert HasSizedDoubles(v, GainNames[6], nu, 1); }
  }
}
