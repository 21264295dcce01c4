/**
 * The named registry of controller parameter sets
 * (parseQPControllerParamSets): every field of the section is parsed as one
 * parameter set and inserted under its field name.
 */
module ParamRegistry {
  import opened Config
  import opened KinematicTree
  import opened QPParams

  /** The parameter set stored under field `name` of the section. */
  function ParamSetOf(v: Value, t: Tree, name: string): Result<QPControllerParams> {
    var obj :- Field(v, name);
    QPControllerParamsOf(obj, t)
  }

  function ParamSetParser(v: Value, t: Tree): string -> Result<QPControllerParams> {
    (name: string) => ParamSetOf(v, t, name)
  }

  /** Parses the names in order and inserts each result into `init`; the
      first failure aborts, and an insertion under a name already present
      (in `init` or earlier in the list) leaves that entry in place. */
  function InsertAll<P>(init: map<string, P>, names: seq<string>, parse: string -> Result<P>): Result<map<string, P>>
    decreases |names|
  {
    if |names| == 0 then Success(init)
    else
      var sets :- InsertAll(init, names[..|names| - 1], parse);
      var name := names[|names| - 1];
      var params :- parse(name);
      Success(if name in sets then sets else sets[name := params])
  }

  /** What parseQPControllerParamSets computes from the caller's registry
      `init`: an empty section is refused. */
  function ParamSetsOf(v: Value, t: Tree, init: map<string, QPControllerParams>)
    : Result<map<string, QPControllerParams>>
  {
    if NumFields(v) == 0 then Failure(NoFieldNames)
    else InsertAll(init, v.names, ParamSetParser(v, t))
  }

  /** parseQPControllerParamSets: one parse and one insertion into the
      caller's registry per field name. */
  method ParseQPControllerParamSets(v: Value, t: Tree, init: map<string, QPControllerParams>)
    returns (r: Result<map<string, QPControllerParams>>)
    ensures r == ParamSetsOf(v, t, init)
  {
    var numFields := NumFields(v);
    if numFields == 0 {
      return Failure(NoFieldNames);
    }
    var names := v.names;
    var sets := init;
    for i := 0 to numFields
      invariant InsertAll(init, names[..i], ParamSetParser(v, t)) == Success(sets)
    {
      var name := names[i];
      assert names[..i + 1][..i] == names[..i];
      var obj := Field(v, name);
      if obj.Failure? {
        InsertAllStopsAt(init, names, ParamSetParser(v, t), i);
        return Failure(obj.error);
      }
      var params := ParseQPControllerParams(obj.value, t);
      if params.Failure? {
        InsertAllStopsAt(init, names, ParamSetParser(v, t), i);
        return Failure(params.error);
      }
      if name !in sets {
        sets := sets[name := params.value];
      }
    }
    assert names[..numFields] == names;
    r := Success(sets);
  }

  /** A name whose parse fails makes the whole insertion fail with its error,
      once every earlier name has parsed. */
  lemma {:induction false} InsertAllStopsAt<P>(init: map<string, P>, names: seq<string>,
                                               parse: string -> Result<P>, i: nat)
    requires i < |names|
    requires InsertAll(init, names[..i], parse).Success?
    requires parse(names[i]).Failure?
    ensures InsertAll(init, names, parse) == Failure(parse(names[i]).error)
    decreases |names|
  {
    if i == |names| - 1 {
      assert names[..|names| - 1] == names[..i];
    } else {
      var prefix := names[..|names| - 1];
      assert prefix[..i] == names[..i];
      assert prefix[i] == names[i];
      InsertAllStopsAt(init, prefix, parse, i);
    }
  }

  /** The insertion succeeds exactly when every listed name parses.  Its keys
      are then the keys of `init` and the listed names; an entry of `init`
      is kept unchanged, and every other key stores the parse of its name,
      whatever the repetitions in the list. */
  lemma {:induction false} InsertAllCorrect<P>(init: map<string, P>, names: seq<string>, parse: string -> Result<P>)
    ensures InsertAll(init, names, parse).Success? <==>
      forall k :: 0 <= k < |names| ==> parse(names[k]).Success?
    ensures InsertAll(init, names, parse).Success? ==>
      var sets := InsertAll(init, names, parse).value;
      sets.Keys == init.Keys + (set k | 0 <= k < |names| :: names[k]) &&
      (forall name :: name in init ==> sets[name] == init[name]) &&
      forall name :: name in sets && name !in init ==> parse(name) == Success(sets[name])
    decreases |names|
  {
    if |names| > 0 {
      var prefix := names[..|names| - 1];
      InsertAllCorrect(init, prefix, parse);
      assert forall k :: 0 <= k < |prefix| ==> prefix[k] == names[k];
      assert (set k | 0 <= k < |names| :: names[k]) ==
        (set k | 0 <= k < |prefix| :: prefix[k]) + {names[|names| - 1]};
    }
  }

  /** An empty section is refused; otherwise the registry is built exactly
      when every field parses, and it then holds the caller's entries
      unchanged plus one entry per new field name, the parse of that field. */
  lemma ParamSetsMeaning(v: Value, t: Tree, init: map<string, QPControllerParams>)
    ensures NumFields(v) == 0 ==> ParamSetsOf(v, t, init) == Failure(NoFieldNames)
    ensures ParamSetsOf(v, t, init).Success? <==>
      NumFields(v) > 0 &&
      forall k :: 0 <= k < |v.names| ==> ParamSetOf(v, t, v.names[k]).Success?
    ensures ParamSetsOf(v, t, init).Success? ==>
      var sets := ParamSetsOf(v, t, init).value;
      sets.Keys == init.Keys + (set k | 0 <= k < |v.names| :: v.names[k]) &&
      (forall name :: name in init ==> sets[name] == init[name]) &&
      forall name :: name in sets && name !in init ==> ParamSetOf(v, t, name) == Success(sets[name])
  {
    if NumFields(v) > 0 {
      InsertAllCorrect(init, v.names, ParamSetParser(v, t));
    }
  }
}
