# QP controller data construction, modelled in Dafny

This project models the configuration-ingestion pipeline of Drake's
`constructQPDataPointerMex`. That pipeline builds the data object of a QP
balance controller for a humanoid robot from three inputs:

- a rigid-body tree;
- the controller's MATLAB parameter objects;
- the YAML kinematic-tree metadata.

The modelled pieces are:

- **Name resolution.** `findPositionIndices` expands joint names into position
  indices. `parseKinematicTreeMetadata` resolves the side-keyed (`"l"`/`"r"`)
  feet, legs, knees, ankles and arms, plus the neck and the two back joints.
- **Shape-validating parameter parsers.**
  - `parseIntegratorParams`, `parseWholeBodyParams`, `parseBodyMotionParams`,
    `parseVRefIntegratorParams` and `parseHardwareGains` are straight-line code.
    They become functions returning a `Result`.
  - `parseJointSoftLimits`, `parseHardwareParams` and `parseQPControllerParams`
    fill vectors in loops. They become methods, each proved equal to a function
    that states what it computes.
- **The registry.** `parseQPControllerParamSets` turns every field of a section
  into a named parameter set, without overwriting an existing name.
- **The assembly steps of `mexFunction`.** These are:
  - effort bounds copied from the actuators;
  - unbounded joint accelerations;
  - the solver settings plan;
  - the joint name lists;
  - workspace sizes;
  - the zeroed runtime state.

  They are modelled on a class `QPControllerData` whose methods update its
  fields in place.

Modules, one per file:

- `Config` (config.dfy) is the configuration value.
  - A MATLAB array is either a numeric array (element class, rows, columns,
    column-major data) or a struct array.
  - It comes with the readers: field lookup, size check, raw double data, scalar.
  - Every abort of the original (`mexErrMsgTxt`, a failed `sizecheck`, a
    missing field, a non-double array) is an explicit `Failure` naming its
    cause.
  - It also holds the `ParseEach` combinator for "one entry per struct element"
    loops.
- `KinematicTree` (tree.dfy) holds the tree as a table of bodies (link name,
  joint name, position start, position count) and the actuator list.
- `TreeMetadata` (metadata.dfy) holds the YAML node and the metadata
  resolution.
- `ControllerParams` (params.dfy) and `QPParams` (qp_params.dfy) hold the
  parameter records and their parsers.
- `ParamRegistry` (registry.dfy) holds the named registry of parameter sets.
- `ControllerData` (controller_data.dfy) holds the controller data object and
  the construction sequence.

## Model

| member | source | states |
|---|---|---|
| Config.SizedDoubles | drake/systems/controllers/constructQPDataPointerMex.cpp:135-137 | a size check followed by the raw data succeeds exactly for an m-by-n double array, yields its m*n values unchanged, and reports a wrong size as a shape mismatch |
| Config.SizedScalar | drake/systems/controllers/constructQPDataPointerMex.cpp:145-147 | a 1-by-1 check followed by the scalar read succeeds exactly for a 1-by-1 value and yields its only element |
| Config.TruncateToInt | drake/systems/controllers/constructQPDataPointerMex.cpp:87 | the C++ cast of a double to int truncates toward zero: the result is the integer between the value and zero that lies within 1 of it |
| Config.FillEach | drake/systems/controllers/constructQPDataPointerMex.cpp:296-303 | the resize-and-fill loop returns exactly what parsing elements 0..n-1 in order gives, including the error of the first element that fails |
| Config.ParseEachCorrect | drake/systems/controllers/constructQPDataPointerMex.cpp:300-303 | filling element by element succeeds exactly when every element parses; entry i is then the parse of element i, and otherwise the error is that of the first failing element |
| Config.ParseEachStopsAt | drake/systems/controllers/constructQPDataPointerMex.cpp:300-303 | the first element that fails aborts the whole loop with its error |
| KinematicTree.FindLinkId | drake/systems/controllers/constructQPDataPointerMex.cpp:36 | finds a body exactly when some body has a link of that name, returns the index of such a body, and otherwise fails naming the link |
| KinematicTree.FindJoint | drake/systems/controllers/constructQPDataPointerMex.cpp:21 | finds a body of the tree exactly when some body's joint has that name, returns a body with that joint, and otherwise fails naming the joint |
| KinematicTree.FindPositionIndices | drake/systems/controllers/constructQPDataPointerMex.cpp:17-27 | the nested push_back loops produce exactly the concatenation, in listed order, of each named joint's run start, start+1, ..., start+numPositions-1, or fail on the first unknown joint |
| KinematicTree.ResolveJointsCorrect | drake/systems/controllers/constructQPDataPointerMex.cpp:20-21 | the joint lookups succeed exactly when every name is a joint of the tree, keep the listed order, and otherwise fail on the first unknown name |
| KinematicTree.ResolveJointsStopsAtFirstFailure | drake/systems/controllers/constructQPDataPointerMex.cpp:20-21 | when every earlier name resolves, an unknown name makes the whole expansion fail naming it |
| KinematicTree.ExpandMembership | drake/systems/controllers/constructQPDataPointerMex.cpp:22-23 | an index appears in the expansion exactly when it lies in the position run of one of the joints |
| KinematicTree.PositionIndicesLength | drake/systems/controllers/constructQPDataPointerMex.cpp:17-27 | the expansion has one index per position of each named joint: its length is the sum of their position counts |
| KinematicTree.PositionIndicesConcat | drake/systems/controllers/constructQPDataPointerMex.cpp:17-27 | expanding two name lists in turn succeeds exactly when each does, and gives the concatenation of the two expansions |
| KinematicTree.PositionIndicesInRange | drake/systems/controllers/constructQPDataPointerMex.cpp:22-23 | in a tree whose joint runs fit in the position vector, every expanded index is below nq |
| KinematicTree.PositionIndicesExample | drake/systems/controllers/constructQPDataPointerMex.cpp:17-27 | joints with 1 and 2 positions starting at 3 and 5 expand to [3, 5, 6] |
| TreeMetadata.AsStringList | drake/systems/controllers/constructQPDataPointerMex.cpp:42 | a node converts to a list of strings exactly when it is a sequence of scalars, and the list holds their texts in order |
| TreeMetadata.KinematicTreeMetadataStages | drake/systems/controllers/constructQPDataPointerMex.cpp:29-52 | a resolved cache holds both feet, the left and right leg, knee, ankle and arm groups, the neck and the two back joints, each resolved on its own |
| TreeMetadata.ParseKinematicTreeMetadata | drake/systems/controllers/constructQPDataPointerMex.cpp:29-52 | a resolved cache's two foot ids are indices of bodies of the tree |
| TreeMetadata.KinematicTreeMetadataAssembled | drake/systems/controllers/constructQPDataPointerMex.cpp:29-52 | conversely, when both feet, both sides' groups, the neck and the two back joints resolve, the whole section resolves to the cache assembled from them |
| TreeMetadata.KinematicTreeMetadataFirstFailure | drake/systems/controllers/constructQPDataPointerMex.cpp:33-49 | the resolution fails with the error of its first failing piece, in the order left foot, right foot, left groups, right groups, neck, back_bkz, back_bky |
| TreeMetadata.SideGroupsFirstFailure | drake/systems/controllers/constructQPDataPointerMex.cpp:39-46 | one side's groups fail with the error of the first failing group, in the order legs, knee, ankles, arms |
| TreeMetadata.KinematicTreeMetadataFeet | drake/systems/controllers/constructQPDataPointerMex.cpp:33-37 | each foot id is the index of a body whose link name is the one configured under `body_names.feet` with that side's code |
| TreeMetadata.KinematicTreeMetadataSides | drake/systems/controllers/constructQPDataPointerMex.cpp:39-46 | for each side, the knee is the position start of the named joint, and legs, ankles and arms are the position-index expansions of their listed joints in order |
| TreeMetadata.KinematicTreeMetadataJoints | drake/systems/controllers/constructQPDataPointerMex.cpp:47-49 | the neck is the expansion of its listed joints, and `back_bkz` and `back_bky` are the position starts of the named joints |
| TreeMetadata.JointListIndicesMeaning | drake/systems/controllers/constructQPDataPointerMex.cpp:42 | a resolved joint-name list names joints of the tree, one per listed name, and its indices are their concatenated position runs |
| TreeMetadata.SideGroupsMeaning | drake/systems/controllers/constructQPDataPointerMex.cpp:40-46 | the groups resolved for one side are the runs and position starts of the joints listed under that side's code |
| TreeMetadata.UnresolvedFootFails | drake/systems/controllers/constructQPDataPointerMex.cpp:35-36 | a foot configured with a name that is no link of the tree makes the resolution fail naming it |
| TreeMetadata.UnresolvedJointFails | drake/systems/controllers/constructQPDataPointerMex.cpp:42-49 | a knee or back joint configured with a name that is no joint of the tree fails naming that joint |
| TreeMetadata.UnresolvedListEntryFails | drake/systems/controllers/constructQPDataPointerMex.cpp:41-47 | a leg, ankle, arm or neck list fails at its first entry that is no joint of the tree, naming that joint |
| TreeMetadata.UnresolvedKneeFails | drake/systems/controllers/constructQPDataPointerMex.cpp:42 | an unknown knee joint name makes the whole resolution fail naming it, once the pieces before it have resolved |
| TreeMetadata.UnresolvedBackJointFails | drake/systems/controllers/constructQPDataPointerMex.cpp:48-49 | an unknown back_bkz joint name, or an unknown back_bky name once back_bkz resolves, makes the whole resolution fail naming it, once the pieces before it have resolved |
| TreeMetadata.UnresolvedNeckJointFails | drake/systems/controllers/constructQPDataPointerMex.cpp:46 | the first unknown neck joint name makes the whole resolution fail naming it, once the pieces before it have resolved |
| ControllerParams.SizedField | drake/systems/controllers/constructQPDataPointerMex.cpp:253-256 | a field read with an m-by-n check succeeds exactly when the field is an m-by-n double array, and copies its m*n values; a missing field fails naming it as missing, a present field of the wrong shape as a shape mismatch, and a well-shaped non-double one as not double |
| ControllerParams.ScalarField | drake/systems/controllers/constructQPDataPointerMex.cpp:258-260 | a field read with a 1-by-1 check succeeds exactly when the field is 1-by-1, and yields its scalar value; a missing field fails naming it as missing, and a present field that is not 1-by-1 as a shape mismatch |
| ControllerParams.ParseIntegratorParams | drake/systems/controllers/constructQPDataPointerMex.cpp:54-68 | succeeds exactly when gains and clamps are double arrays and eta is present, with no size check; copies all three unchanged |
| ControllerParams.ParseWholeBodyParams | drake/systems/controllers/constructQPDataPointerMex.cpp:98-129 | succeeds exactly when Kp, Kd, gains and clamps have nq elements and w_qdd, min and max have nv; copies them unchanged; a count mismatch is reported as a shape error before any data is read |
| ControllerParams.WholeBodyFirstMismatch | drake/systems/controllers/constructQPDataPointerMex.cpp:104-110 | the seven element-count checks run in order (Kp, Kd, w_qdd, gains, clamps, min, max), and the first field that is missing or has the wrong count is the one named in the error |
| ControllerParams.ParseBodyMotionParams | drake/systems/controllers/constructQPDataPointerMex.cpp:131-159 | element i succeeds exactly when Kp, Kd and the two acceleration bounds are 6-by-1 double arrays and weight is 1-by-1; all are copied unchanged |
| ControllerParams.BodyMotionFirstMismatch | drake/systems/controllers/constructQPDataPointerMex.cpp:133-157 | the reads run in order (accel_bounds, Kp, Kd, weight, min, max): the first missing field, or the first present one of the wrong shape, is the one named in the error |
| ControllerParams.ParseVRefIntegratorParams | drake/systems/controllers/constructQPDataPointerMex.cpp:161-178 | a non-double zero_ankles_on_contact is refused as such; success requires three 1-by-1 fields; the flag is set iff the value is nonzero, and eta and delta_max are copied |
| ControllerParams.VRefIntegratorFirstMismatch | drake/systems/controllers/constructQPDataPointerMex.cpp:164-175 | a missing zero_ankles_on_contact, or a double one that is not 1-by-1, is named in the error; after it, eta and then delta_max are each named when missing or not 1-by-1 |
| ControllerParams.ParseHardwareGains | drake/systems/controllers/constructQPDataPointerMex.cpp:180-224 | succeeds exactly when all eight gain tables are nu-by-1 double arrays, with nu = nv - 6, and copies each unchanged |
| ControllerParams.HardwareGainsFirstMismatch | drake/systems/controllers/constructQPDataPointerMex.cpp:184-222 | the tables are read in order, and the first one that fails decides the error: a present table that is not nu-by-1 is named in a shape mismatch |
| QPParams.ParseJointSoftLimits | drake/systems/controllers/constructQPDataPointerMex.cpp:70-96 | the fill loop over eight zero-initialised vectors returns exactly the columns of the per-element entries, or the count mismatch, or the first missing field |
| QPParams.SoftLimitEntryMeaning | drake/systems/controllers/constructQPDataPointerMex.cpp:86-93 | element i parses exactly when it has all eight fields; enabled is the nonzero test, the support flag the truncated integer, and the other six are copied |
| QPParams.JointSoftLimitsSucceeds | drake/systems/controllers/constructQPDataPointerMex.cpp:73-94 | an element count other than nq is refused; otherwise the parse succeeds exactly when every element has all eight fields |
| QPParams.JointSoftLimitsValues | drake/systems/controllers/constructQPDataPointerMex.cpp:76-94 | on success all eight vectors have exactly nq entries, and entry i of each is read from element i |
| QPParams.SoftLimitColumnsPointwise | drake/systems/controllers/constructQPDataPointerMex.cpp:85-94 | eight vectors that agree index by index with the per-element entries are exactly those entries laid out by field |
| QPParams.ParseHardwareParams | drake/systems/controllers/constructQPDataPointerMex.cpp:226-248 | the threshold loop returns exactly the gains and the two flag vectors, each flag the strict > 0.5 test of its input |
| QPParams.HardwareParamsMeaning | drake/systems/controllers/constructQPDataPointerMex.cpp:226-248 | succeeds exactly when the gains parse and both mode arrays are nu-by-1; every table and both flag vectors then have nu entries, and flag i is set iff input i exceeds 0.5 |
| QPParams.HardwareParamsFirstMismatch | drake/systems/controllers/constructQPDataPointerMex.cpp:229-240 | a missing gains field or a failing gains parse decides the error first; then a missing or not nu-by-1 position array is named, and only after it the force array |
| QPParams.FlagThreshold | drake/systems/controllers/constructQPDataPointerMex.cpp:244-245 | in a parsed hardware section the threshold is strict: a mode value of exactly 0.5 at joint i leaves its force (position) flag clear, and any value above 0.5 sets it |
| QPParams.ParseQPControllerParams | drake/systems/controllers/constructQPDataPointerMex.cpp:250-307 | the reading sequence, body-motion fill loop included, returns exactly the specified parameter set or the first failure, in the order the original reads the fields |
| QPParams.SettingsMeaning | drake/systems/controllers/constructQPDataPointerMex.cpp:253-290 | the settings succeed exactly when W_kdot is 3-by-3, the observer gain 4-by-4, and the seven scalars and the observer switch are 1-by-1; all are copied, and the switch is the logical-true test |
| QPParams.SettingsFirstMismatch | drake/systems/controllers/constructQPDataPointerMex.cpp:253-290 | the settings are read in order (W_kdot, the seven scalars, the observer gain, the observer switch), and the first one present with the wrong shape is named in the shape mismatch |
| QPParams.QPControllerParamsStages | drake/systems/controllers/constructQPDataPointerMex.cpp:250-307 | a parsed set is assembled from the settings and the five nested parses, each of which succeeded on its own field |
| QPParams.QPControllerParamsAssembled | drake/systems/controllers/constructQPDataPointerMex.cpp:250-307 | conversely, when the settings and the five nested parses all succeed on their fields, the parameter set parses to their assembly |
| QPParams.QPControllerSettingsCopied | drake/systems/controllers/constructQPDataPointerMex.cpp:253-290 | a parsed set copies its 3-by-3 and 4-by-4 matrices and its scalar settings from the configuration |
| QPParams.QPControllerParamsSized | drake/systems/controllers/constructQPDataPointerMex.cpp:292-305 | every per-joint array of a parsed set has its DOF length: the whole-body vectors nq or nv, all eight soft-limit vectors nq, and all eight hardware gain tables and both hardware flag vectors nu = nv - 6 |
| QPParams.QPControllerBodyMotion | drake/systems/controllers/constructQPDataPointerMex.cpp:296-303 | the body-motion list has one entry per configured element, and entry i is the parse of element i, with 6-vector gains and bounds |
| ParamRegistry.ParseQPControllerParamSets | drake/systems/controllers/constructQPDataPointerMex.cpp:309-322 | the insertion loop into the caller's registry returns exactly the specified registry: an empty section is refused, and the first field that fails aborts |
| ParamRegistry.InsertAllStopsAt | drake/systems/controllers/constructQPDataPointerMex.cpp:315-319 | once every earlier name has parsed, a name whose parse fails makes the whole loop fail with its error |
| ParamRegistry.InsertAllCorrect | drake/systems/controllers/constructQPDataPointerMex.cpp:315-319 | non-overwriting insertion into a given map succeeds exactly when every listed name parses; the keys are then the map's keys plus the listed names, existing entries are kept unchanged, and every new name maps to its own parse |
| ParamRegistry.ParamSetsMeaning | drake/systems/controllers/constructQPDataPointerMex.cpp:309-322 | an empty section is refused; otherwise the registry exists exactly when every field parses, it keeps the caller's entries unchanged, and it adds each new field name mapped to the parse of its field |
| ControllerData.InfiniteBoundsAdmitEverything | drake/systems/controllers/constructQPDataPointerMex.cpp:396-397 | -infinity and +infinity bounds of length n admit every vector of length n |
| ControllerData.OnlyInfiniteBoundsAdmitEverything | drake/systems/controllers/constructQPDataPointerMex.cpp:396-397 | conversely, bounds that admit every vector of their length are -infinity below and +infinity above at every index |
| ControllerData.SolverSettingsMeaning | drake/systems/controllers/constructQPDataPointerMex.cpp:407-416 | the plan starts with outputflag=0, method and presolve=0, and adds bariterlimit=20, barhomogeneous=0 and barconvtol=0.0005 exactly when the method is 2 |
| ControllerData.SolverSettings | drake/systems/controllers/constructQPDataPointerMex.cpp:408-416 | the settings plan always has at least the three common settings with the method second, and has exactly those three unless the method is 2 |
| ControllerData.SolverMethodOf | drake/systems/controllers/constructQPDataPointerMex.cpp:407 | the solver method exists exactly when the options have a `method` field, and is that field's scalar truncated toward zero |
| ControllerData.ParseRobotJointNames | drake/systems/controllers/constructQPDataPointerMex.cpp:324-333 | the tree names are the actuators' joint names in actuator order; the robot names are the hardware file's `joint_names` list, and anything but a list of scalars is refused |
| ControllerData.WorkspaceConformable | drake/systems/controllers/constructQPDataPointerMex.cpp:419-432 | the preallocated shapes are the one workspace whose products conform: H and Hqp nq-by-nq, H_float 6-by-nq, H_act nu-by-nq, C and fqp of length nq, J 3-by-nq, J_xy 2-by-nq, Ag 6-by-nq, Ak 3-by-nq |
| ControllerData.ZeroStateIsReset | drake/systems/controllers/constructQPDataPointerMex.cpp:434-447 | the zeroed state is the one reset state: no basis, time zero, zero integrators of lengths nv and nq, both feet out of contact, no active contact points, zero observer state |
| ControllerData.QPControllerData.constructor | drake/systems/controllers/constructQPDataPointerMex.cpp:361 | a new data object holds the tree, with nothing read yet |
| ControllerData.QPControllerData.SetEffortBounds | drake/systems/controllers/constructQPDataPointerMex.cpp:372-379 | umin and umax get one entry per actuator, entry i being actuator i's lower and upper effort limit |
| ControllerData.QPControllerData.SetAccelerationBounds | drake/systems/controllers/constructQPDataPointerMex.cpp:396-397 | qdd_lb and qdd_ub get nq entries, all -infinity and +infinity |
| ControllerData.QPControllerData.ConfigureSolver | drake/systems/controllers/constructQPDataPointerMex.cpp:407-416 | the applied solver settings are the plan for the given method |
| ControllerData.QPControllerData.PreallocateWorkspace | drake/systems/controllers/constructQPDataPointerMex.cpp:419-432 | the workspace takes the shapes sized by nq and the actuator count |
| ControllerData.QPControllerData.ResetState | drake/systems/controllers/constructQPDataPointerMex.cpp:434-447 | the runtime state is reset for the tree's nv and nq |
| ControllerData.QPControllerData.Finish | drake/systems/controllers/constructQPDataPointerMex.cpp:407-447 | after the solver method is read, the object is fully assembled and holds that method's settings plan |
| ControllerData.SetupMeaning | drake/systems/controllers/constructQPDataPointerMex.cpp:364-407 | the construction's reads succeed exactly when the metadata resolves, `joint_names` is a list of scalars and the solver options have `method`; the first read that fails decides the error |
| ControllerData.Populate | drake/systems/controllers/constructQPDataPointerMex.cpp:361-447 | after the metadata, a fresh object is filled in source order: it fails exactly when the joint names or the solver method cannot be read, and otherwise holds the parameter sets, cache, names, fast-QP switch and settings plan, with every tree-derived field assembled |
| ControllerData.Construct | drake/systems/controllers/constructQPDataPointerMex.cpp:361-447 | construction succeeds exactly when its three fallible reads do, fails with the first read's error, and otherwise yields a fresh, fully assembled object holding what was read |

## Left out

- The MATLAB marshalling is replaced by the `Config.Value` datatype.
  - This covers `myGetField`, `myGetProperty`, `mxGetPropertySafe`, `mxGetPrSafe`, `mxGetScalar`, `sizecheck` and `mxGetStdString`.
  - An object's properties are read like the fields of a scalar struct.
  - `matlabToEigenMap<4, 4>` is modelled as a 4-by-4 size check followed by the raw double data.
  - `mxGetScalar` of an empty array reads as 0 in this model; MATLAB leaves it unspecified.
- Every abort of the original becomes a `Failure` value. The message text is not modelled, only its cause.
  - This covers `mexErrMsgTxt` and a failed size check or field lookup.
- YAML `LoadFile` and all file reading are left out, being file I/O.
  - The parsed documents (`kinematic_tree_metadata`, the hardware data) are parameters of type `TreeMetadata.Node`.
- Loading the URDF, filtering collision groups and compiling the `RigidBodyTree` are left out; they are foreign code.
  - The tree is a parameter: a table of bodies with their joints, and the actuator list.
  - The implementations of `findJoint` and `findLinkId` are not modelled. They are taken to return the first body with the name, and an unknown name becomes an `UnresolvedName` failure. The original dereferences the result unchecked.
- `loadAllParamSets`, which `mexFunction` calls, is not part of this model. Construction takes the loaded parameter sets as a parameter. `parseQPControllerParamSets` is modelled separately, and no equivalence between the two is claimed.
- Gurobi is left out, being a foreign resource: `GRBloadenv`, `GRBsetintparam`, `GRBsetdblparam` and the `CGE` error handling. Only the plan of which settings are applied is modelled.
- The `DrakeMexPointer` convention is host-binding glue, so it is left out. This covers creating and destroying the pointer, the argument-count checks and the `nlhs` check.
- The numerical content of the workspace is not modelled; the original leaves it uninitialised. Only its shapes are modelled.
- Floating point is modelled with Dafny's `real`, which has no NaN and no infinities. Most parsed values are only copied or compared with 0 and 0.5. Three are cast to `int`: `disable_when_body_in_support` (line 87), `use_fast_qp` (line 382) and the solver `method` (line 407).
- Config.TruncateToInt: returns an unbounded integer. The original's cast of a double to a 32-bit `int` is undefined behaviour for values outside that range (and for NaN); the model does not capture this.
- ParamRegistry.ParseQPControllerParamSets: the caller's map is passed in and the updated map returned, rather than updated through a pointer. On a failure the original aborts after the earlier insertions have already been made; the model returns only the failure.
- Config.Value: a struct value is not required to have each element's keys equal to its field names, or unique names. MATLAB cannot produce such a struct. The model accepts it; `ParamRegistry.InsertAll` then keeps the first parse under a repeated name, as it does for a name the caller's map already holds.
- `Side::values` is assumed to list the left side before the right. The order affects only which error is reported when both sides are misconfigured.
- Eigen vectors and `std::vector` are value types in the original, so they are modelled as `seq` values that each method reassigns.
- The `params` and `body_motion_params` temporaries that the original reuses across iterations are not modelled. Every field of them is overwritten on each iteration, so the reuse cannot be observed.
- `Populate` and `Construct` allocate the object after the metadata has resolved, while the original allocates it first. Nothing is observable before that point, and on failure the object is discarded either way.
- Two different `nu` values are kept apart, as in the original.
  - `mexFunction` sizes `umin`/`umax`, `H_act` and `C_act` by the actuator count.
  - The hardware parsers size their tables by `nv - 6` (`ControllerParams.HardwareDof`).
  - The model does not relate the two counts.
