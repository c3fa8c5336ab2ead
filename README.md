# NeuroMechFly MuJoCo environment: a Dafny model of its core

This project models the part of flygym's MuJoCo environment
(`flygym/envs/nmf_mujoco.py`) that decides what goes into the simulated
scene and how the run state evolves. The name tables it is built from come
from `flygym/util/config.py`. The model covers:

- **Name tables.** The actuated leg DoFs, the three-DoF-per-leg subset, the
  tarsus links, and the collision-geometry presets (`legs`, `legs-no-coxa`,
  `tarsi`, `none`). Every table is one instance of a single nested
  comprehension, `Config.LegNames`. Its layout, distinctness and nesting
  are proved once for all tables.
- **Collision specifications.** A preset string or an explicit list,
  including the order in which the constructor resolves them.
- **Self contacts.** The doubly nested loop over the self-collision
  geometries, with its parent/child exclusion rule and its name-based
  duplicate check.
- **Floor contacts.** The loop over arena geometries that renames unnamed
  ground geoms to `groundblock_<id>` in place and pairs each ground with
  every floor-collision geometry, using averaged friction.
- **Joint sensors.** Five sensors per actuated joint, and the joint block
  of the observation read back from their buffer.
- **Compliance, then pose.** The stiffness and damping of the 24 compliant
  tarsus joints are set first, and the initial pose is written into `qpos`
  after them.
- **Spaces.** The gymnasium action and observation spaces, as shapes and
  bounds.
- **Run state.** The environment as a class: simulated time, the render
  cadence and its saved frames, the vision cadence and its update mask,
  `reset`, `step`, `render` and `get_observation`.

## What the model treats as given

The engine, the renderer and the eye projection are foreign code. The
model receives their outputs as parameters instead of computing them:

- the joint positions the integrator reaches (`reached`);
- the sensor buffer, touch and end-effector readings (`Readout`);
- the rendered image (`Image`);
- the two eye images and their ommatidia readout (`EyeReadout`).

`Pose.Physics` holds the engine state that the adapter writes:

- `qpos` and its reset value `qpos0`;
- per-joint stiffness and damping;
- the controls bound to the adapter's actuators, one per actuated joint.

The arena's MJCF root is `Contacts.Arena`: its geometry names, which are
renamed in place, and its contact pairs. The fly's scene graph becomes a
map from each geometry name to its parent body, with that body's name,
its parent's name and its child bodies.

Numbers are Dafny reals, so floating-point rounding is not modelled.
`-np.inf` timestamps are the `NegInf` case of `Env.Time`.

## Model

| member | source | states |
|---|---|---|
| Config.GetCollisionGeoms | flygym/util/config.py:34-76 | raises (Failure with the offending string) exactly when the argument is none of legs, legs-no-coxa, tarsi, none |
| ConfigProperties.LegNamesAt | flygym/util/config.py:6-31 | a side × position × DoF comprehension over uniform-width DoF lists has len(sides)·len(positions)·k names; entry (s·len(positions)+p)·k+d is prefix + side s + position p + the d-th DoF of p + suffix |
| ConfigProperties.LegNamesShaped | flygym/util/config.py:6-31 | every name of the comprehension is prefix + one side letter + one position letter + one of that position's DoFs + suffix |
| ConfigProperties.LegNamesDistinct | flygym/util/config.py:6-31 | distinct side letters, distinct position letters and duplicate-free DoF lists give a duplicate-free table |
| ConfigProperties.LegNamesSubsequence | flygym/util/config.py:34-72 | when every leg's DoF list is an ordered subsequence of another's, so is the whole table |
| ConfigProperties.LegNamesWithout | flygym/util/config.py:34-65 | dropping one DoF from every leg's list gives the table with every entry naming that DoF dropped |
| ConfigProperties.LegNamesEndsIn | flygym/util/config.py:6-31 | when every leg's DoF list ends in one of a set of characters, so does every name of the table |
| ConfigTables.AllLegDofsLayout | flygym/util/config.py:6-19 | all_leg_dofs has 42 names; entry (s·3+p)·7+d is `joint_` + side + position + the d-th of the seven leg DoFs (side slowest, then position, then DoF) |
| ConfigTables.AllLegDofsDistinct | flygym/util/config.py:6-19 | no name occurs twice in all_leg_dofs |
| ConfigTables.LegDofs3PerLegLayout | flygym/util/config.py:20-25 | leg_dofs_3_per_leg has 18 names; per leg: Coxa for front legs, Coxa_roll otherwise, then Femur, Tibia |
| ConfigTables.LegDofs3PerLegDistinct | flygym/util/config.py:20-25 | no name occurs twice in leg_dofs_3_per_leg |
| ConfigTables.TarsiLayout | flygym/util/config.py:29-31 | over any side and position letters the tarsus-link comprehension has five names per leg; entry (s·len(positions)+p)·5+d is side + position + `Tarsus{d+1}` |
| ConfigTables.AllTarsiLinksLayout | flygym/util/config.py:29-31 | all_tarsi_links has 30 names; entry (s·3+p)·5+d is side + position + `Tarsus{d+1}` |
| ConfigTables.AllTarsiLinksDistinct | flygym/util/config.py:29-31 | no name occurs twice in all_tarsi_links |
| ConfigTables.TarsusRangeAt | flygym/util/config.py:29-31 | the i-th name of `range(lo, hi)` rendered as Tarsus is `Tarsus{lo+i}` |
| ConfigTables.CollisionPresetSizes | flygym/util/config.py:34-74 | each accepted preset succeeds; legs has 48 names, legs-no-coxa 42, tarsi 30, none 0 |
| ConfigTables.CollisionPresetNames | flygym/util/config.py:34-74 | every preset's geometry list is duplicate-free and every name in it ends in `_collision` |
| ConfigTables.CollisionPresetsNest | flygym/util/config.py:35-72 | tarsi ⊑ legs-no-coxa ⊑ legs as ordered subsequences |
| ConfigTables.NoCoxaIsLegsWithoutCoxa | flygym/util/config.py:35-65 | legs-no-coxa is legs with every geometry naming the Coxa DoF removed, order kept |
| ConfigTables.DefaultPresetRejected | flygym/util/config.py:34-76 | the default argument "all" is itself rejected with ValueError |
| Config.HexCellCountIsRingCount | flygym/util/config.py:84-85 | the closed form 3n²−3n+1 equals a centre cell plus rings of 6r cells |
| Config.NumOmmatidiaPerEye | flygym/util/config.py:84-85 | the ommatidia count per eye is the cell count of a side-16 hexagon, 721 |
| Strings.ContainsIffOccurs | flygym/envs/nmf_mujoco.py:465-471 | Python `in` on strings holds iff the needle occurs at some index of the haystack |
| Strings.ParseNatToString | flygym/envs/nmf_mujoco.py:496 | the decimal rendering of a ground id parses back to the id |
| Strings.NatToStringInjective | flygym/envs/nmf_mujoco.py:496 | distinct ground ids render to distinct decimal strings |
| Contacts.CollisionNamed | flygym/envs/nmf_mujoco.py:403-408 | a name is selected iff it is a model geometry whose name contains "collision"; the selection keeps model order (an ordered subsequence) |
| Contacts.ParseCollisionSpecs | flygym/envs/nmf_mujoco.py:402-414 | a list is returned as is; "all" selects the model's collision geometries; any other string fails iff it is not a preset, and a preset returns its get_collision_geoms list |
| Contacts.AllPresetUnreachable | flygym/envs/nmf_mujoco.py:285-292 | the constructor rejects "all" before _parse_collision_specs could handle it |
| Contacts.ConstructionAgreesWithStored | flygym/envs/nmf_mujoco.py:285-292 | construction accepts exactly lists and presets, and the re-parsed geometry list equals the stored one |
| SelfContacts.SelfContactsSound | flygym/envs/nmf_mujoco.py:446-481 | every registered pair joins two distinct listed geometries whose parent bodies are not adjacent; it is named `{geom1}_{geom2}` with the fixed solref and margin 0; no name is registered twice |
| SelfContacts.SelfContactsComplete | flygym/envs/nmf_mujoco.py:446-481 | every admissible ordered pair of listed geometries has its name registered, and so does the reversed order |
| SelfContacts.RegisteredInBothOrders | flygym/envs/nmf_mujoco.py:448-449 | the duplicate check looks at one order only, so an admissible pair whose two orderings name differently is registered twice, as two entries |
| SelfContacts.SelfContactsFailure | flygym/envs/nmf_mujoco.py:452-453 | enumeration fails only on a listed geometry absent from the model, and succeeds when all are present |
| SelfContacts.AdjacentSymmetric | flygym/envs/nmf_mujoco.py:465-471 | the exclusion test is symmetric in the two bodies |
| SelfContacts.DefineSelfContacts | flygym/envs/nmf_mujoco.py:443-482 | the nested loop succeeds iff the reference enumeration does, returning its pairs and their names, or its error |
| FloorContacts.FloorFrictionLayout | flygym/envs/nmf_mujoco.py:498-515 | the pair friction is [m₀, m₀, m₁, m₂, m₂], with m the element-wise mean of fly and arena friction |
| FloorContacts.CrossPairsLayout | flygym/envs/nmf_mujoco.py:494-518 | grounds × bodies pairs; the pair at q·|bodies|+j is named `{ground}_{body}` with geom1 `Animat/{body}`, geom2 the ground, the averaged friction, the fixed solref and margin 0 |
| FloorContacts.FloorFoldPairs | flygym/envs/nmf_mujoco.py:484-520 | the pairs are ground-major over the ground geometries in arena order; ground_id ends at the number of unnamed grounds, or 0 when no floor geometry is listed |
| FloorContacts.FloorFoldNames | flygym/envs/nmf_mujoco.py:489-497 | an unnamed geometry is renamed `groundblock_k`, k being the number of unnamed geometries before it, exactly when floor geometries are listed; every other name is unchanged |
| FloorContacts.RenamedGroundsDistinct | flygym/envs/nmf_mujoco.py:495-497 | two renamed grounds never receive the same name |
| FloorContacts.DefineFloorContacts | flygym/envs/nmf_mujoco.py:484-520 | the loop renames the arena's geometries and appends exactly the reference pairs to the arena's contacts, returning those pairs and their names |
| Sensors.JointSensors | flygym/envs/nmf_mujoco.py:525-548 | five sensors per joint, named jointpos_, jointvel_, actuatorfrc_position_, actuatorfrc_velocity_, actuatorfrc_motor_ + joint |
| Sensors.SensorLayoutAt | flygym/envs/nmf_mujoco.py:522-550 | the sensor list has 5n entries; entry 5i+k is sensor k of joint i |
| Sensors.ReadoutSources | flygym/envs/nmf_mujoco.py:525-548 | sensors 5i, 5i+1 read joint i's position and velocity; 5i+2..5i+4 its position, velocity and torque actuators' forces |
| Sensors.SensorNamesDistinct | flygym/envs/nmf_mujoco.py:525-548 | distinct actuated joints give pairwise distinct sensor names |
| Sensors.AddJointSensors | flygym/envs/nmf_mujoco.py:522-550 | the loop builds exactly the reference sensor layout |
| Sensors.SumOfThree | flygym/envs/nmf_mujoco.py:757 | the sum of a three-element slice is the sum of its elements |
| Sensors.ReadJointObservation | flygym/envs/nmf_mujoco.py:749-758 | a (3, n) block: row 0 position buf[5i], row 1 velocity buf[5i+1], row 2 the sum of buf[5i+2..5i+5] scaled by 1e-9 |
| Pose.Physics.Reset | flygym/envs/nmf_mujoco.py:645 | physics.reset(): positions back to qpos0 and controls zero; stiffness and damping kept |
| Pose.ApplyPoseWrites | flygym/envs/nmf_mujoco.py:611-617 | every joint driven by an actuator, actuated and present in the pose gets its pose value at `Animat/{joint}` |
| Pose.ApplyPoseKeeps | flygym/envs/nmf_mujoco.py:611-617 | every other qpos entry keeps its value and no key is added |
| Pose.PoseKeyInjective | flygym/envs/nmf_mujoco.py:616 | distinct joints have distinct `Animat/` keys |
| Pose.SetInitPose | flygym/envs/nmf_mujoco.py:611-617 | the reset context first resets the engine (qpos0, zero controls); the loop then leaves qpos equal to the reference pose application on qpos0; stiffness and damping are kept |
| Pose.SetAllAt | flygym/envs/nmf_mujoco.py:624-629 | after setting a value on a list of keys, listed keys hold it and the others keep theirs |
| Pose.CompliantJointKeysAt | flygym/envs/nmf_mujoco.py:624-627 | 24 compliant joints; entry (s·3+p)·4+l is `Animat/joint_{side}{pos}Tarsus{l+2}` |
| Pose.CompliantDisjointFromLegDofs | flygym/envs/nmf_mujoco.py:624-629 | no compliant tarsus joint is one of the 42 actuated leg DoFs |
| Pose.SetCompliantTarsus | flygym/envs/nmf_mujoco.py:619-631 | stiffness and damping set on exactly the compliant joints, then the engine reset: qpos0 and zero controls |
| Spaces.ActionBound | flygym/envs/nmf_mujoco.py:296 | the action bound is π iff the control is "position" |
| Spaces.DefineSpaces | flygym/envs/nmf_mujoco.py:416-441 | action key joints, a box bounded by ±action_bound of shape (num_dofs,); observation keys joints, fly, contact_forces, end_effectors, all unbounded; fly is (4, 3) and contact_forces (6, num_contacts) |
| Spaces.ConstructorSpaces | flygym/envs/nmf_mujoco.py:294-300 | with the constructor's arguments, the action box is bounded by π exactly under position control and has one entry per actuated joint; contact_forces has one column per touch-sensor placement |
| Spaces.JointSpacesAgree | flygym/envs/nmf_mujoco.py:416-424 | one action entry per DoF; the joint observation is (3, num_dofs), three times the action size |
| Spaces.EndEffectorSpaceMatchesSensors | flygym/envs/nmf_mujoco.py:280-282 | six end-effector names, and the end-effector observation holds exactly 3 coordinates for each |
| Env.CadenceMaskAt | flygym/envs/nmf_mujoco.py:711-718 | the j-th mask entry is true iff the j-th consultation was due, given the last update before it |
| Env.CadenceFirstDue | flygym/envs/nmf_mujoco.py:712-718 | from minus infinity the first consultation always updates |
| Env.CadenceLastAt | flygym/envs/nmf_mujoco.py:711-735 | between two updates the remembered update time is the earlier update's time |
| Env.CadenceSpacing | flygym/envs/nmf_mujoco.py:711-735 | after an update at tᵢ with none since, a consultation at tⱼ updates iff tⱼ ≥ tᵢ + interval |
| Env.CadenceSnoc | flygym/envs/nmf_mujoco.py:711-735 | one more consultation appends one mask entry and moves the update time exactly when due |
| Env.Environment.constructor | flygym/envs/nmf_mujoco.py:305-377 | the intervals are 1/refresh rate and playspeed/fps; the arguments are stored; compliance is set before the pose; construction ends in the reset state: pose on qpos0, zero controls, clock 0, no frames, and vision consulted once at time 0 exactly when enabled |
| Env.Environment.UpdateVision | flygym/envs/nmf_mujoco.py:711-735 | one mask entry, true iff due; when due, the vision inputs and update time are replaced, otherwise nothing changes |
| Env.Environment.VisionUpdateMask | flygym/envs/nmf_mujoco.py:737-739 | the exposed mask is the internal mask without its first entry |
| Env.Environment.UpdateMaskSpacing | flygym/envs/nmf_mujoco.py:711-739 | in the exposed mask, after a true entry with only false ones since, an entry is true iff a vision interval has passed |
| Env.Environment.GetObservation | flygym/envs/nmf_mujoco.py:741-797 | joint block per the sensor layout, touch and end-effector readings passed through, vision consulted exactly when enabled |
| Env.Environment.Reset | flygym/envs/nmf_mujoco.py:633-654 | clock 0, initial pose on qpos0, zero controls, no frames, cadences cleared, then one observation; the exposed mask is empty |
| Pose.BindControls | flygym/envs/nmf_mujoco.py:684 | assigning values to n bound controls succeeds iff there are n values or one; control i is then value i mod the number of values (one value is broadcast) |
| Pose.Physics.Advance | flygym/envs/nmf_mujoco.py:684-685 | the bound controls take the given values and qpos the engine's reached state; stiffness and damping are kept |
| Env.Environment.StepBound | flygym/envs/nmf_mujoco.py:684-692 | controls written, clock advanced by one timestep, frames untouched, one observation; reward 0, not terminated or truncated, empty info |
| Env.Environment.Step | flygym/envs/nmf_mujoco.py:656-692 | an action that cannot be broadcast onto the controls raises ValueError and changes nothing; any other is bound with numpy's broadcasting and stepped as StepBound states |
| Env.Environment.Render | flygym/envs/nmf_mujoco.py:694-709 | headless or not yet due: nothing changes; "saved" and due: frame appended, render time now; any other mode when due: NotImplementedError |

## Left out

- Engine dynamics, rendering and the hexagonal ommatidia projection are foreign. Their outputs are parameters.
- Loading the MJCF model, spawning the arena and setting the timestep are not modelled. The same holds for actuator gains and gravity.
- The friction, stiffness and damping writes at construction (nmf_mujoco.py:348-362) are not modelled. They touch engine parameters outside the tarsus and pose state modelled here.
- Eye camera configuration is not modelled. The eye constants are not modelled either.
- Olfaction, the antennae sensors and the thorax position and orientation (quaternion to Euler angles) are not modelled.
- The body, end-effector and touch sensors are not modelled. Their readings pass into the observation unchanged.
- Adhesion, video saving, `close`, output-directory creation and logging are not modelled. Neither are `__str__` and `__repr__`.
- Floating-point rounding is not modelled. Reals stand in for float64, and `-inf + inf` cannot arise because intervals are finite.
- Contacts.ParseCollisionSpecs: the ValueError for a spec that is neither str nor list is not modelled. The spec type admits only those two forms.
- Contacts.ParseCollisionSpecs: the "all" branch's list comprehension over geoms assumes every geom is named. Unnamed fly geoms are not modelled.
- SelfContacts.DefineSelfContacts: `model.find` returning None is modelled as the error `UnknownGeom`. A parent body whose own parent is missing is not modelled; every body is given a parent name.
- Pose.SetInitPose: the KeyError the engine raises for an unknown joint key is not modelled. qpos is a map in which every write succeeds.
- Pose.SetCompliantTarsus: likewise, a missing tarsus joint in the engine is not modelled.
- Env.Environment.constructor: it requires a non-zero vision refresh rate and, outside headless mode, a non-zero render fps. The source divides by both.
- Env.Environment.constructor: in headless mode the source never sets the render interval. The model sets it to 0, and nothing reads it in that mode.
- Env.Environment.GetObservation: it returns the touch readings as a flat sequence. The observation space declares shape (6, n) for them, and the model does not reconcile the two.
- Env.Environment.Step: reward, terminated, truncated and info are the base-class constants. Subclass overrides are outside the model.
- Env.Environment.Step: the action is a flat sequence. Multi-dimensional actions, which numpy would also broadcast or reject, are not modelled.
- Env.Environment.constructor: it requires the compiled engine to expose one bound control per actuated joint. The model does not build the actuators.
- Sensors.AddJointSensors: MJCF rejects a second element with the same name. The model does not raise that error: a repeated actuated joint yields repeated sensor names. SensorNamesDistinct needs distinct joints for this reason.
- FloorContacts.DefineFloorContacts: MJCF rejects a duplicate name. The model does not raise that error in two cases. A repeated floor-collision geometry yields a repeated pair name. An arena geometry already named `groundblock_k` can meet an unnamed ground renamed to the same name.
