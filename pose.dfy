/** The engine's joint state as the adapter writes it: the initial pose
    applied to qpos and the compliant tarsus joints' stiffness and damping. */
module Pose {
  import opened Wrappers
  import opened Config
  import opened ConfigProperties
  import opened ConfigTables
  import opened Strings

  function Zeros(n: nat): (r: seq<real>)
    ensures |r| == n && forall i :: 0 <= i < n ==> r[i] == 0.0
  {
    seq(n, _ => 0.0)
  }

  /** The compiled physics as far as the adapter touches it: joint
      positions keyed by MJCF name, their reset values, per-joint stiffness
      and damping, and the actuator controls. */
  class Physics {
    var qpos: map<string, real>
    const qpos0: map<string, real>
    var stiffness: map<string, real>
    var damping: map<string, real>
    var ctrl: seq<real>

    constructor (qpos0: map<string, real>, stiffness: map<string, real>, damping: map<string, real>,
                 numActuators: nat)
      ensures this.qpos == qpos0 && this.qpos0 == qpos0
      ensures this.stiffness == stiffness && this.damping == damping
      ensures this.ctrl == Zeros(numActuators)
    {
      this.qpos := qpos0;
      this.qpos0 := qpos0;
      this.stiffness := stiffness;
      this.damping := damping;
      this.ctrl := Zeros(numActuators);
    }

    /** physics.reset(): positions back to qpos0, controls to zero; the
        model's parameters are kept. */
    method Reset()
      modifies this
      ensures qpos == qpos0 && ctrl == Zeros(|old(ctrl)|)
      ensures stiffness == old(stiffness) && damping == old(damping)
    {
      qpos := qpos0;
      ctrl := Zeros(|ctrl|);
    }

    /** Writing the bound controls and stepping the engine; the positions
        the integrator reaches are supplied by the caller. */
    method Advance(controls: seq<real>, reached: map<string, real>)
      requires |controls| == |ctrl|
      modifies this
      ensures ctrl == controls && qpos == reached
      ensures stiffness == old(stiffness) && damping == old(damping)
    {
      ctrl := controls;
      qpos := reached;
    }
  }

  /** Assigning `values` to the n controls bound to the actuators, with
      numpy's broadcasting: n values are taken as they are, a single value
      is repeated n times, and any other length is a shape error (None). */
  function BindControls(values: seq<real>, n: nat): (r: Option<seq<real>>)
    ensures r.Some? <==> |values| == n || |values| == 1
    ensures r.Some? ==> |r.value| == n && forall i :: 0 <= i < n ==> r.value[i] == values[i % |values|]
  {
    if |values| == n then Some(values)
    else if |values| == 1 then Some(seq(n, _ => values[0]))
    else None
  }

  // ---------------------------------------------------------------------
  // _set_init_pose

  function PoseKey(joint: string): string
  {
    "Animat/" + joint
  }

  /** qpos after visiting the actuators in order, writing pose[j] for each
      actuator joint j that is actuated and has a pose entry. */
  function ApplyPose(qpos: map<string, real>, actuatorJoints: seq<string>, actuatedJoints: seq<string>,
                     pose: map<string, real>): map<string, real>
  {
    if actuatorJoints == [] then qpos
    else
      var prev := ApplyPose(qpos, actuatorJoints[..|actuatorJoints| - 1], actuatedJoints, pose);
      var j := actuatorJoints[|actuatorJoints| - 1];
      if j in actuatedJoints && j in pose then prev[PoseKey(j) := pose[j]] else prev
  }

  ghost predicate Posed(joint: string, actuatorJoints: seq<string>, actuatedJoints: seq<string>,
                        pose: map<string, real>)
  {
    joint in actuatorJoints && joint in actuatedJoints && joint in pose
  }

  lemma PoseKeyInjective(a: string, b: string)
    requires PoseKey(a) == PoseKey(b)
    ensures a == b
  {
    assert a == PoseKey(a)[7..] && b == PoseKey(b)[7..];
  }

  /** Every joint that is both actuated and in the pose gets its pose value. */
  lemma {:induction false} ApplyPoseWrites(qpos: map<string, real>, actuatorJoints: seq<string>,
                                           actuatedJoints: seq<string>, pose: map<string, real>, joint: string)
    requires Posed(joint, actuatorJoints, actuatedJoints, pose)
    ensures PoseKey(joint) in ApplyPose(qpos, actuatorJoints, actuatedJoints, pose)
    ensures ApplyPose(qpos, actuatorJoints, actuatedJoints, pose)[PoseKey(joint)] == pose[joint]
    decreases |actuatorJoints|
  {
    var init := actuatorJoints[..|actuatorJoints| - 1];
    var j := actuatorJoints[|actuatorJoints| - 1];
    if j != joint {
      assert joint in init by {
        var k :| 0 <= k < |actuatorJoints| && actuatorJoints[k] == joint;
        assert k < |actuatorJoints| - 1 && init[k] == joint;
      }
      ApplyPoseWrites(qpos, init, actuatedJoints, pose, joint);
      if PoseKey(j) == PoseKey(joint) {
        PoseKeyInjective(j, joint);
      }
    }
  }

  /** Every other entry of qpos is untouched, and no key is added. */
  lemma {:induction false} ApplyPoseKeeps(qpos: map<string, real>, actuatorJoints: seq<string>,
                                          actuatedJoints: seq<string>, pose: map<string, real>, key: string)
    requires forall j :: Posed(j, actuatorJoints, actuatedJoints, pose) ==> key != PoseKey(j)
    ensures key in ApplyPose(qpos, actuatorJoints, actuatedJoints, pose) <==> key in qpos
    ensures key in qpos ==> ApplyPose(qpos, actuatorJoints, actuatedJoints, pose)[key] == qpos[key]
    decreases |actuatorJoints|
  {
    if actuatorJoints != [] {
      var init := actuatorJoints[..|actuatorJoints| - 1];
      forall j | Posed(j, init, actuatedJoints, pose) ensures key != PoseKey(j) {
        var k :| 0 <= k < |init| && init[k] == j;
        assert actuatorJoints[k] == j;
      }
      ApplyPoseKeeps(qpos, init, actuatedJoints, pose, key);
      var j := actuatorJoints[|actuatorJoints| - 1];
      assert Posed(j, actuatorJoints, actuatedJoints, pose) <==> j in actuatedJoints && j in pose;
    }
  }

  /** _set_init_pose: inside the engine's reset context, which first
      resets the engine, write for each actuator, in order, the pose value
      of its joint when that joint is actuated and has a pose entry. Pose
      keys with no matching actuator are ignored. */
  method SetInitPose(physics: Physics, actuatorJoints: seq<string>, actuatedJoints: seq<string>,
                     pose: map<string, real>)
    requires |actuatorJoints| == |actuatedJoints|
    modifies physics
    ensures physics.qpos == ApplyPose(physics.qpos0, actuatorJoints, actuatedJoints, pose)
    ensures physics.stiffness == old(physics.stiffness) && physics.damping == old(physics.damping)
    ensures physics.ctrl == Zeros(|old(physics.ctrl)|)
  {
    physics.Reset();
    for i := 0 to |actuatedJoints|
      invariant physics.qpos == ApplyPose(physics.qpos0, actuatorJoints[..i], actuatedJoints, pose)
      invariant physics.stiffness == old(physics.stiffness) && physics.damping == old(physics.damping)
      invariant physics.ctrl == Zeros(|old(physics.ctrl)|)
    {
      assert actuatorJoints[..i + 1][..i] == actuatorJoints[..i];
      var currJoint := actuatorJoints[i];
      if currJoint in actuatedJoints && currJoint in pose {
        var animatName := "Animat/" + currJoint;
        physics.qpos := physics.qpos[animatName := pose[currJoint]];
      }
    }
    assert actuatorJoints[..|actuatedJoints|] == actuatorJoints;
  }

  // ---------------------------------------------------------------------
  // _set_compliant_tarsus

  function CompliantLinks(pos: char): seq<string>
  {
    TarsusRange(2, 6)
  }

  /** "Animat/joint_{side}{pos}Tarsus{link}" for side in LR, pos in FMH,
      link in 2..5, in loop order. */
  function CompliantJointKeys(): seq<string>
  {
    LegNames("Animat/joint_", Sides, Positions, CompliantLinks, "")
  }

  /** m with every key of the list set to v, in list order. */
  function SetAll(m: map<string, real>, keys: seq<string>, v: real): map<string, real>
  {
    if keys == [] then m else SetAll(m, keys[..|keys| - 1], v)[keys[|keys| - 1] := v]
  }

  lemma {:induction false} SetAllAt(m: map<string, real>, keys: seq<string>, v: real, key: string)
    ensures key in SetAll(m, keys, v) <==> key in m || key in keys
    ensures key in keys ==> SetAll(m, keys, v)[key] == v
    ensures key !in keys && key in m ==> SetAll(m, keys, v)[key] == m[key]
    decreases |keys|
  {
    if keys != [] {
      var init := keys[..|keys| - 1];
      SetAllAt(m, init, v, key);
      assert key in keys <==> key in init || key == keys[|keys| - 1] by {
        if key in keys {
          var k :| 0 <= k < |keys| && keys[k] == key;
          if k < |init| { assert init[k] == key; }
        }
        if key in init {
          var k :| 0 <= k < |init| && init[k] == key;
          assert keys[k] == key;
        }
      }
    }
  }

  lemma SetAllStep(m: map<string, real>, keys: seq<string>, f: nat, v: real)
    requires f < |keys|
    ensures SetAll(m, keys[..f + 1], v) == SetAll(m, keys[..f], v)[keys[f] := v]
  {
    assert keys[..f + 1][..f] == keys[..f];
  }

  /** f"joint_{side}{pos}Tarsus{link}" */
  function TarsusJoint(side: char, pos: char, link: nat): string
  {
    "joint_" + [side, pos] + "Tarsus" + NatToString(link)
  }

  /** 24 keys: entry (s*3 + p)*4 + l is the Tarsus{l+2} joint of leg
      Sides[s]Positions[p]. */
  lemma CompliantJointKeysAt(s: nat, p: nat, l: nat)
    requires s < 2 && p < 3 && l < 4
    ensures |CompliantJointKeys()| == 24
    ensures CompliantJointKeys()[(s * 3 + p) * 4 + l] == PoseKey(TarsusJoint(Sides[s], Positions[p], l + 2))
  {
    assert UniformWidth(CompliantLinks, 4);
    LegNamesAt("Animat/joint_", Sides, Positions, CompliantLinks, "", 4, s, p, l);
    CompliantKeyAt(Sides[s], Positions[p], l);
  }

  lemma CompliantLinksEnd()
    ensures forall c :: EndsIn(CompliantLinks(c), {'2', '3', '4', '5'})
  {
    var links := TarsusRange(2, 6);
    forall i | 0 <= i < 4 ensures |links[i]| > 0 && links[i][|links[i]| - 1] in {'2', '3', '4', '5'} {
      TarsusRangeAt(2, 6, i);
      assert NatToString(2 + i) == [DigitChar(2 + i)];
      assert links[i] == "Tarsus" + [DigitChar(2 + i)];
    }
  }

  lemma LegDofsEnd()
    ensures forall c :: EndsIn(LegDofs(c), {'a', 'l', 'w', 'r', '1'})
  {
  }

  /** The compliant joints never include an actuated leg DoF: the tarsus
      settings do not overwrite the ones the constructor gave the actuated
      joints. */
  lemma CompliantDisjointFromLegDofs()
    ensures forall i, j :: 0 <= i < |CompliantJointKeys()| && 0 <= j < |AllLegDofs()| ==>
      CompliantJointKeys()[i] != PoseKey(AllLegDofs()[j])
  {
    assert EndsIn(CompliantJointKeys(), {'2', '3', '4', '5'}) by {
      CompliantLinksEnd();
      LegNamesEndsIn("Animat/joint_", Sides, Positions, CompliantLinks, {'2', '3', '4', '5'});
    }
    assert EndsIn(AllLegDofs(), {'a', 'l', 'w', 'r', '1'}) by {
      LegDofsEnd();
      LegNamesEndsIn("joint_", Sides, Positions, LegDofs, {'a', 'l', 'w', 'r', '1'});
    }
    PoseKeysApart(CompliantJointKeys(), AllLegDofs(), {'2', '3', '4', '5'}, {'a', 'l', 'w', 'r', '1'});
  }

  /** Names ending in disjoint character sets never meet, whatever the prefix. */
  lemma PoseKeysApart(keys: seq<string>, joints: seq<string>, a: set<char>, b: set<char>)
    requires EndsIn(keys, a) && EndsIn(joints, b) && a !! b
    ensures forall i, j :: 0 <= i < |keys| && 0 <= j < |joints| ==> keys[i] != PoseKey(joints[j])
  {
    forall i, j | 0 <= i < |keys| && 0 <= j < |joints| ensures keys[i] != PoseKey(joints[j]) {
      var k := PoseKey(joints[j]);
      assert k[|k| - 1] == joints[j][|joints[j]| - 1];
    }
  }

  lemma SetAllSnoc(m: map<string, real>, keys: seq<string>, key: string, v: real)
    ensures SetAll(m, keys + [key], v) == SetAll(m, keys, v)[key := v]
  {
    assert (keys + [key])[..|keys|] == keys;
  }

  /** Key c of a leg's compliant block is the MJCF name of its Tarsus{c+2} joint. */
  lemma CompliantKeyAt(side: char, pos: char, c: nat)
    requires c < 4
    ensures |CompliantLinks(pos)| == 4
    ensures "Animat/joint_" + [side, pos] + CompliantLinks(pos)[c] + "" == PoseKey(TarsusJoint(side, pos, c + 2))
  {
    TarsusRangeAt(2, 6, c);
    var x := "Animat/joint_" + [side, pos] + CompliantLinks(pos)[c];
    assert x + "" == x;
  }

  /** The keys visited once the loops reach side si, position pi and the
      first c links of that leg. */
  function Visited(si: nat, pi: nat, c: nat): seq<string>
    requires si < 2 && pi < 3 && c <= 4
  {
    LegNames("Animat/joint_", Sides[..si], Positions, CompliantLinks, "")
    + SideEntries("Animat/joint_", Sides[si], Positions[..pi], CompliantLinks, "")
    + DofEntries("Animat/joint_", Sides[si], Positions[pi], CompliantLinks(Positions[pi])[..c], "")
  }

  lemma VisitedStep(m: map<string, real>, si: nat, pi: nat, c: nat, v: real)
    requires si < 2 && pi < 3 && c < 4
    ensures SetAll(m, Visited(si, pi, c + 1), v)
         == SetAll(m, Visited(si, pi, c), v)[PoseKey(TarsusJoint(Sides[si], Positions[pi], c + 2)) := v]
  {
    var P, side, pos := "Animat/joint_", Sides[si], Positions[pi];
    CompliantKeyAt(side, pos, c);
    DofEntriesSnoc(P, side, pos, CompliantLinks(pos), "", c);
    var a := LegNames(P, Sides[..si], Positions, CompliantLinks, "")
             + SideEntries(P, side, Positions[..pi], CompliantLinks, "");
    var key := P + [side, pos] + CompliantLinks(pos)[c] + "";
    assert Visited(si, pi, c + 1) == (a + DofEntries(P, side, pos, CompliantLinks(pos)[..c], "")) + [key];
    SetAllSnoc(m, a + DofEntries(P, side, pos, CompliantLinks(pos)[..c], ""), key, v);
  }

  /** After a leg's four links the side's entries so far include that leg. */
  lemma VisitedLegDone(si: nat, pi: nat)
    requires si < 2 && pi < 3
    ensures Visited(si, pi, 4) == LegNames("Animat/joint_", Sides[..si], Positions, CompliantLinks, "")
                                  + SideEntries("Animat/joint_", Sides[si], Positions[..pi + 1], CompliantLinks, "")
  {
    assert CompliantLinks(Positions[pi])[..4] == CompliantLinks(Positions[pi]);
    SideEntriesSnoc("Animat/joint_", Sides[si], Positions, CompliantLinks, "", pi);
  }

  lemma VisitedNextPosition(si: nat, pi: nat)
    requires si < 2 && pi < 2
    ensures Visited(si, pi, 4) == Visited(si, pi + 1, 0)
  {
    VisitedLegDone(si, pi);
    assert CompliantLinks(Positions[pi + 1])[..0] == [];
  }

  lemma VisitedSideDone(si: nat)
    requires si < 2
    ensures Visited(si, 2, 4) == LegNames("Animat/joint_", Sides[..si + 1], Positions, CompliantLinks, "")
  {
    VisitedLegDone(si, 2);
    assert Positions[..3] == Positions;
    LegNamesSnoc("Animat/joint_", Sides, Positions, CompliantLinks, "", si);
  }

  lemma VisitedNextSide()
    ensures Visited(0, 2, 4) == Visited(1, 0, 0)
  {
    VisitedSideDone(0);
    assert Positions[..0] == [] && CompliantLinks(Positions[0])[..0] == [];
  }

  lemma VisitedAll()
    ensures Visited(1, 2, 4) == CompliantJointKeys()
  {
    VisitedSideDone(1);
    assert Sides[..2] == Sides;
  }

  /** _set_compliant_tarsus: stiffness and damping of the 24 compliant
      joints set in loop order, then the engine reset. */
  method SetCompliantTarsus(physics: Physics, tarsusStiffness: real, tarsusDamping: real)
    modifies physics
    ensures physics.stiffness == SetAll(old(physics.stiffness), CompliantJointKeys(), tarsusStiffness)
    ensures physics.damping == SetAll(old(physics.damping), CompliantJointKeys(), tarsusDamping)
    ensures physics.qpos == physics.qpos0 && physics.ctrl == Zeros(|old(physics.ctrl)|)
  {
    ghost var s0, d0 := physics.stiffness, physics.damping;
    assert Visited(0, 0, 0) == [];
    for si := 0 to 2
      invariant si < 2 ==> physics.stiffness == SetAll(s0, Visited(si, 0, 0), tarsusStiffness)
                           && physics.damping == SetAll(d0, Visited(si, 0, 0), tarsusDamping)
      invariant si == 2 ==> physics.stiffness == SetAll(s0, CompliantJointKeys(), tarsusStiffness)
                            && physics.damping == SetAll(d0, CompliantJointKeys(), tarsusDamping)
      invariant physics.ctrl == old(physics.ctrl)
    {
      var side := Sides[si];
      for pi := 0 to 3
        invariant pi < 3 ==> physics.stiffness == SetAll(s0, Visited(si, pi, 0), tarsusStiffness)
                             && physics.damping == SetAll(d0, Visited(si, pi, 0), tarsusDamping)
        invariant pi == 3 ==> physics.stiffness == SetAll(s0, Visited(si, 2, 4), tarsusStiffness)
                              && physics.damping == SetAll(d0, Visited(si, 2, 4), tarsusDamping)
        invariant physics.ctrl == old(physics.ctrl)
      {
        var pos := Positions[pi];
        for link := 2 to 6
          invariant physics.stiffness == SetAll(s0, Visited(si, pi, link - 2), tarsusStiffness)
          invariant physics.damping == SetAll(d0, Visited(si, pi, link - 2), tarsusDamping)
          invariant physics.ctrl == old(physics.ctrl)
        {
          var joint := TarsusJoint(side, pos, link);
          VisitedStep(s0, si, pi, link - 2, tarsusStiffness);
          VisitedStep(d0, si, pi, link - 2, tarsusDamping);
          physics.stiffness := physics.stiffness["Animat/" + joint := tarsusStiffness];
          physics.damping := physics.damping["Animat/" + joint := tarsusDamping];
        }
        if pi < 2 {
          VisitedNextPosition(si, pi);
        }
      }
      if si == 0 {
        VisitedNextSide();
      } else {
        VisitedAll();
      }
    }
    physics.Reset();
  }
}
