/** _define_spaces: the gymnasium action and observation spaces, as shapes
    and bounds. */
module Spaces {
  import opened Config
  import opened ConfigProperties

  /** The magnitude of a symmetric Box bound: pi radians or infinity. */
  datatype Bound = PiRad | Unbounded

  /** A gymnasium Box from -bound to bound with the given shape. */
  datatype Box = Box(bound: Bound, shape: seq<nat>)

  datatype SpaceDefs = SpaceDefs(action: map<string, Box>, observation: map<string, Box>)

  /** The action bound the constructor passes: pi for position control,
      infinity for any other controller. */
  function ActionBound(control: string): (r: Bound)
    ensures r == PiRad <==> control == "position"
  {
    if control == "position" then PiRad else Unbounded
  }

  /** Number of entries of an array of the given shape. */
  function Size(shape: seq<nat>): nat
  {
    if shape == [] then 1 else shape[0] * Size(shape[1..])
  }

  function DefineSpaces(numDofs: nat, actionBound: Bound, numContacts: nat): (r: SpaceDefs)
    ensures r.action.Keys == {"joints"}
    ensures r.action["joints"] == Box(actionBound, [numDofs])
    ensures r.observation.Keys == {"joints", "fly", "contact_forces", "end_effectors"}
    ensures forall k :: k in r.observation ==> r.observation[k].bound == Unbounded
    ensures r.observation["fly"].shape == [4, 3]
    ensures r.observation["contact_forces"].shape == [6, numContacts]
  {
    SpaceDefs(
      map["joints" := Box(actionBound, [numDofs])],
      map["joints" := Box(Unbounded, [3, numDofs]),
          "fly" := Box(Unbounded, [4, 3]),
          "contact_forces" := Box(Unbounded, [6, numContacts]),
          "end_effectors" := Box(Unbounded, [3 * 6])])
  }

  /** The spaces the constructor defines: the action box is bounded by pi
      exactly under position control, has one entry per actuated joint,
      and the contact-force observation has one column per touch-sensor
      placement. */
  lemma ConstructorSpaces(control: string, actuatedJoints: seq<string>, contactPlacements: seq<string>)
    ensures var r := DefineSpaces(|actuatedJoints|, ActionBound(control), |contactPlacements|);
      (r.action["joints"].bound == PiRad <==> control == "position")
      && Size(r.action["joints"].shape) == |actuatedJoints|
      && r.observation["joints"].shape == [3, |actuatedJoints|]
      && r.observation["contact_forces"].shape == [6, |contactPlacements|]
  {
    JointSpacesAgree(|actuatedJoints|, ActionBound(control), |contactPlacements|);
  }

  /** One action entry per actuated DoF, and the joint observation holds
      three rows (position, velocity, torque) of one entry per DoF. */
  lemma JointSpacesAgree(numDofs: nat, actionBound: Bound, numContacts: nat)
    ensures var r := DefineSpaces(numDofs, actionBound, numContacts);
      Size(r.action["joints"].shape) == numDofs
      && r.observation["joints"].shape == [3, numDofs]
      && Size(r.observation["joints"].shape) == 3 * Size(r.action["joints"].shape)
  {
    var r := DefineSpaces(numDofs, actionBound, numContacts);
    assert Size([numDofs]) == numDofs * Size([]);
    assert [3, numDofs][1..] == [numDofs];
  }

  function Tarsus5(pos: char): seq<string>
  {
    ["Tarsus5"]
  }

  /** end_effector_names: "{side}{pos}Tarsus5" for side in LR, pos in FMH. */
  function EndEffectorNames(): seq<string>
  {
    LegNames("", Sides, Positions, Tarsus5, "")
  }

  /** The end-effector observation has room for exactly one (x, y, z)
      position per end-effector sensor. */
  lemma EndEffectorSpaceMatchesSensors(numDofs: nat, actionBound: Bound, numContacts: nat)
    ensures |EndEffectorNames()| == 6
    ensures Size(DefineSpaces(numDofs, actionBound, numContacts).observation["end_effectors"].shape)
         == 3 * |EndEffectorNames()|
  {
    assert UniformWidth(Tarsus5, 1);
    LegNamesAt("", Sides, Positions, Tarsus5, "", 1, 0, 0, 0);
    assert Size([18]) == 18 * Size([]);
  }
}
