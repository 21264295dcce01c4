/**
 * The host configuration as seen by the parsers: a MATLAB-like value
 * that is either a numeric array or a struct array, together with the small
 * readers the parsers use on it (field lookup, element count, size check,
 * raw data, scalar).  Every reader makes a missing field or a wrong shape an
 * explicit failure instead of an abort.
 */
module Config {

  /** The ways construction can fail. */
  datatype Error =
    | MissingField(name: string)     // a required field or property is absent
    | ShapeMismatch(name: string)    // an array does not have the expected size
    | NotDouble(name: string)        // raw data requested from a non-double array
    | NoFieldNames                   // a parameter-set section has no fields
    | UnresolvedName(name: string)   // no joint or link of that name in the tree
    | BadNode(key: string)           // a metadata node is absent or of the wrong kind

  datatype Result<T> = Success(value: T) | Failure(error: Error) {
    predicate IsFailure() { Failure? }
    function PropagateFailure<U>(): Result<U>
      requires Failure?
    {
      Failure(error)
    }
    function Extract(): T
      requires Success?
    {
      value
    }
  }

  /** Element class of a numeric array. */
  datatype ClassId = DoubleClass | LogicalClass | OtherNumericClass

  datatype RawArray = RawArray(cls: ClassId, rows: nat, cols: nat, data: seq<real>)

  /** A numeric array: its column-major data holds exactly rows * cols values. */
  type NumArray = a: RawArray | |a.data| == a.rows * a.cols
    witness RawArray(DoubleClass, 0, 0, [])

  /** A configuration value.  A struct array is a list of field names and,
      for each element, the map from field name to value.  MATLAB always
      gives every element exactly the listed fields, each name once; the
      model does not require this, and the readers look fields up in the
      element maps. */
  datatype Value =
    | Numeric(arr: NumArray)
    | Struct(names: seq<string>, elems: seq<map<string, Value>>)

  /** Number of elements (numel). */
  function NumElements(v: Value): nat {
    match v
    case Numeric(a) => |a.data|
    case Struct(_, elems) => |elems|
  }

  /** Row count; a struct array is a 1-by-n row. */
  function Rows(v: Value): nat {
    match v
    case Numeric(a) => a.rows
    case Struct(_, _) => 1
  }

  /** Column count; a struct array is a 1-by-n row. */
  function Cols(v: Value): nat {
    match v
    case Numeric(a) => a.cols
    case Struct(_, elems) => |elems|
  }

  /** Number of fields of a struct; zero for anything else. */
  function NumFields(v: Value): nat {
    if v.Struct? then |v.names| else 0
  }

  predicate IsDouble(v: Value) {
    v.Numeric? && v.arr.cls == DoubleClass
  }

  /** Field `name` of element `i` of a struct array. */
  function FieldAt(v: Value, i: nat, name: string): Result<Value> {
    if v.Struct? && i < |v.elems| && name in v.elems[i] then Success(v.elems[i][name])
    else Failure(MissingField(name))
  }

  /** Field (or property) `name` of a scalar struct or object. */
  function Field(v: Value, name: string): Result<Value> {
    FieldAt(v, 0, name)
  }

  /** The scalar value of an array: its first element.  Structs read as 0,
      and so, in this model, do empty arrays. */
  function Scalar(v: Value): real {
    if v.Numeric? && |v.arr.data| > 0 then v.arr.data[0] else 0.0
  }

  /** The raw data of a double array, refusing every other class. */
  function Doubles(v: Value, name: string): Result<seq<real>> {
    if IsDouble(v) then Success(v.arr.data) else Failure(NotDouble(name))
  }

  /** The size check: `v` must be exactly m-by-n. */
  function SizeCheck(v: Value, m: int, n: int, name: string): Result<()> {
    if Rows(v) == m && Cols(v) == n then Success(()) else Failure(ShapeMismatch(name))
  }

  /** Size check followed by the raw data: the fixed-shape vector/matrix reader. */
  function SizedDoubles(v: Value, m: int, n: int, name: string): (r: Result<seq<real>>)
    ensures r.Success? <==> Rows(v) == m && Cols(v) == n && IsDouble(v)
    ensures r.Success? ==> |r.value| == m * n && r.value == v.arr.data
    ensures r.Failure? && (Rows(v) != m || Cols(v) != n) ==> r.error == ShapeMismatch(name)
  {
    var _ :- SizeCheck(v, m, n, name);
    Doubles(v, name)
  }

  /** Size check to 1-by-1 followed by the scalar value. */
  function SizedScalar(v: Value, name: string): (r: Result<real>)
    ensures r.Success? <==> Rows(v) == 1 && Cols(v) == 1
    ensures r.Success? && v.Numeric? ==> r.value == v.arr.data[0]
  {
    var _ :- SizeCheck(v, 1, 1, name);
    Success(Scalar(v))
  }

  /** True only for a 1-by-1 logical array holding true. */
  predicate IsLogicalScalarTrue(v: Value) {
    v.Numeric? && v.arr.cls == LogicalClass && v.arr.rows == 1 && v.arr.cols == 1
    && v.arr.data[0] != 0.0
  }

  /** A C++ `static_cast<int>` of a double: truncation toward zero. */
  function TruncateToInt(x: real): (r: int)
    ensures 0.0 <= x ==> r as real <= x < r as real + 1.0
    ensures x < 0.0 ==> r as real - 1.0 < x <= r as real
  {
    if x >= 0.0 then x.Floor else -((-x).Floor)
  }

  /** Parses elements 0 .. n-1 in order and stops at the first failure: the
      shape of every loop that fills one entry per struct element. */
  function ParseEach<T>(n: nat, parse: nat -> Result<T>): Result<seq<T>>
    decreases n
  {
    if n == 0 then Success([])
    else
      var init :- ParseEach(n - 1, parse);
      var last :- parse(n - 1);
      Success(init + [last])
  }

  /** The resize-and-fill loop: a list of n default entries overwritten in
      order by the parsed elements, abandoned at the first failure. */
  method FillEach<T>(n: nat, parse: nat -> Result<T>, default: T) returns (r: Result<seq<T>>)
    ensures r == ParseEach(n, parse)
  {
    var filled := seq(n, _ => default);
    ghost var parsed: seq<T> := [];
    for i := 0 to n
      invariant ParseEach(i, parse) == Success(parsed)
      invariant |parsed| == i && |filled| == n
      invariant forall k :: 0 <= k < i ==> filled[k] == parsed[k]
    {
      var element := parse(i);
      if element.Failure? {
        ParseEachStopsAt(n, parse, i);
        return Failure(element.error);
      }
      filled := filled[i := element.value];
      ParseEachExtend(i, parse, parsed);
      parsed := parsed + [element.value];
    }
    assert filled == parsed;
    r := Success(filled);
  }

  /** ParseEach succeeds exactly when every element parses, keeps them in
      order, and otherwise reports the first element that fails. */
  lemma {:induction false} ParseEachCorrect<T>(n: nat, parse: nat -> Result<T>)
    ensures ParseEach(n, parse).Success? <==> forall i :: 0 <= i < n ==> parse(i).Success?
    ensures ParseEach(n, parse).Success? ==>
      |ParseEach(n, parse).value| == n &&
      forall i :: 0 <= i < n ==> ParseEach(n, parse).value[i] == parse(i).value
    ensures ParseEach(n, parse).Failure? ==>
      exists i :: 0 <= i < n && parse(i).Failure? && ParseEach(n, parse).error == parse(i).error &&
        forall j :: 0 <= j < i ==> parse(j).Success?
    decreases n
  {
    if n > 0 {
      ParseEachCorrect(n - 1, parse);
    }
  }

  /** One more element that parses extends the parsed prefix. */
  lemma ParseEachExtend<T>(i: nat, parse: nat -> Result<T>, done: seq<T>)
    requires ParseEach(i, parse) == Success(done)
    requires parse(i).Success?
    ensures ParseEach(i + 1, parse) == Success(done + [parse(i).value])
  {
  }

  /** The first element that fails decides the outcome of the whole parse. */
  lemma ParseEachStopsAt<T>(n: nat, parse: nat -> Result<T>, i: nat)
    requires i < n
    requires ParseEach(i, parse).Success?
    requires parse(i).Failure?
    ensures ParseEach(n, parse) == Failure(parse(i).error)
  {
    ParseEachCorrect(i, parse);
    ParseEachCorrect(n, parse);
  }
}
