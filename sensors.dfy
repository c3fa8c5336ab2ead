/** The joint sensors declared for every actuated joint and the joint block
    of the observation, read from the flat sensor buffer at stride five. */
module Sensors {
  import opened Config

  datatype SensorKind = JointPos | JointVel | ActuatorFrc

  /** An MJCF sensor element: its type, its name and the joint or actuator
      it reads. */
  datatype Sensor = Sensor(kind: SensorKind, name: string, target: string)

  /** The name prefix of the k-th sensor of a joint. */
  function SensorTag(k: nat): string
    requires k < 5
  {
    ["jointpos_", "jointvel_", "actuatorfrc_position_", "actuatorfrc_velocity_", "actuatorfrc_motor_"][k]
  }

  /** The five sensors one actuated joint contributes, in declaration order. */
  function JointSensors(joint: string): (r: seq<Sensor>)
    ensures |r| == 5
    ensures forall k :: 0 <= k < 5 ==> r[k].name == SensorTag(k) + joint
  {
    [Sensor(JointPos, "jointpos_" + joint, joint),
     Sensor(JointVel, "jointvel_" + joint, joint),
     Sensor(ActuatorFrc, "actuatorfrc_position_" + joint, "actuator_position_" + joint),
     Sensor(ActuatorFrc, "actuatorfrc_velocity_" + joint, "actuator_velocity_" + joint),
     Sensor(ActuatorFrc, "actuatorfrc_motor_" + joint, "actuator_torque_" + joint)]
  }

  /** The sensor list for a sequence of joints: each joint's five in turn. */
  function SensorLayout(joints: seq<string>): seq<Sensor>
  {
    if joints == [] then []
    else SensorLayout(joints[..|joints| - 1]) + JointSensors(joints[|joints| - 1])
  }

  function SensorNames(sensors: seq<Sensor>): (r: seq<string>)
    ensures |r| == |sensors| && forall n :: 0 <= n < |sensors| ==> r[n] == sensors[n].name
  {
    seq(|sensors|, n requires 0 <= n < |sensors| => sensors[n].name)
  }

  lemma {:induction false} SensorLayoutAt(joints: seq<string>, i: nat, k: nat)
    ensures |SensorLayout(joints)| == 5 * |joints|
    ensures i < |joints| && k < 5 ==> SensorLayout(joints)[5 * i + k] == JointSensors(joints[i])[k]
    decreases |joints|
  {
    if joints != [] {
      var init := joints[..|joints| - 1];
      SensorLayoutAt(init, i, k);
    }
  }

  /** Sensors 5i..5i+4 read joint i: its position, its velocity, then the
      forces of its position, velocity and torque actuators. */
  lemma ReadoutSources(joints: seq<string>, i: nat)
    requires i < |joints|
    ensures |SensorLayout(joints)| == 5 * |joints|
    ensures var l, j := SensorLayout(joints), joints[i];
      l[5 * i] == Sensor(JointPos, "jointpos_" + j, j)
      && l[5 * i + 1] == Sensor(JointVel, "jointvel_" + j, j)
      && l[5 * i + 2].kind == ActuatorFrc && l[5 * i + 2].target == "actuator_position_" + j
      && l[5 * i + 3].kind == ActuatorFrc && l[5 * i + 3].target == "actuator_velocity_" + j
      && l[5 * i + 4].kind == ActuatorFrc && l[5 * i + 4].target == "actuator_torque_" + j
  {
    SensorLayoutAt(joints, i, 0);
    SensorLayoutAt(joints, i, 1);
    SensorLayoutAt(joints, i, 2);
    SensorLayoutAt(joints, i, 3);
    SensorLayoutAt(joints, i, 4);
  }

  lemma TagsDiffer(k1: nat, k2: nat, a: string, b: string)
    requires k1 < 5 && k2 < 5 && k1 != k2
    ensures SensorTag(k1) + a != SensorTag(k2) + b
  {
    var x := if k1 < 2 && k2 < 2 then 5 else if k1 < 2 || k2 < 2 then 0 else 12;
    assert (SensorTag(k1) + a)[x] != (SensorTag(k2) + b)[x];
  }

  lemma PrefixKeepsDifference(p: string, a: string, b: string)
    requires a != b
    ensures p + a != p + b
  {
    assert (p + a)[|p|..] == a && (p + b)[|p|..] == b;
  }

  /** Name m of the layout is tag m % 5 applied to joint m / 5. */
  lemma SensorNameAt(joints: seq<string>, m: nat)
    requires m < 5 * |joints|
    ensures m / 5 < |joints| && m % 5 < 5
    ensures |SensorNames(SensorLayout(joints))| == 5 * |joints|
    ensures SensorNames(SensorLayout(joints))[m] == SensorTag(m % 5) + joints[m / 5]
  {
    var i, k := m / 5, m % 5;
    assert m == 5 * i + k;
    SensorLayoutAt(joints, i, k);
  }

  /** Distinct joints give distinct sensor names. */
  lemma SensorNamesDistinct(joints: seq<string>)
    requires Distinct(joints)
    ensures Distinct(SensorNames(SensorLayout(joints)))
  {
    var names := SensorNames(SensorLayout(joints));
    SensorLayoutAt(joints, 0, 0);
    forall m, n | 0 <= m < n < |names| ensures names[m] != names[n] {
      SensorNameAt(joints, m);
      SensorNameAt(joints, n);
      if m % 5 == n % 5 {
        assert m / 5 != n / 5;
        PrefixKeepsDifference(SensorTag(m % 5), joints[m / 5], joints[n / 5]);
      } else {
        TagsDiffer(m % 5, n % 5, joints[m / 5], joints[n / 5]);
      }
    }
  }

  /** _add_joint_sensors: five sensors per actuated joint, appended in turn. */
  method AddJointSensors(actuatedJoints: seq<string>) returns (sensors: seq<Sensor>)
    ensures sensors == SensorLayout(actuatedJoints)
  {
    sensors := [];
    for i := 0 to |actuatedJoints|
      invariant sensors == SensorLayout(actuatedJoints[..i])
    {
      assert actuatedJoints[..i + 1][..i] == actuatedJoints[..i];
      sensors := sensors + JointSensors(actuatedJoints[i]);
    }
    assert actuatedJoints[..|actuatedJoints|] == actuatedJoints;
  }

  // ---------------------------------------------------------------------
  // The joint block of get_observation

  /** The factor that turns the summed actuator forces into newtons. */
  const TorqueScale: real := 0.000000001

  function Sum(xs: seq<real>): real
  {
    if xs == [] then 0.0 else Sum(xs[..|xs| - 1]) + xs[|xs| - 1]
  }

  lemma SumOfThree(a: real, b: real, c: real)
    ensures Sum([a, b, c]) == a + b + c
  {
    assert [a, b, c][..2] == [a, b];
    assert [a, b][..1] == [a];
    assert [a][..0] == [];
    assert Sum([a]) == a;
    assert Sum([a, b]) == a + b;
  }

  /** A (3, n) joint observation read from a buffer laid out as
      SensorLayout: row 0 is buf[5i], row 1 is buf[5i+1], row 2 the three
      actuator forces of joint i summed and scaled to newtons. */
  ghost predicate JointReadout(obs: seq<seq<real>>, buf: seq<real>, n: nat)
    requires |buf| == 5 * n
  {
    |obs| == 3 && |obs[0]| == n && |obs[1]| == n && |obs[2]| == n
    && forall i :: 0 <= i < n ==>
      obs[0][i] == buf[5 * i] && obs[1][i] == buf[5 * i + 1]
      && obs[2][i] == (buf[5 * i + 2] + buf[5 * i + 3] + buf[5 * i + 4]) * TorqueScale
  }

  /** Entry (r, c) of the joint block before the torque row is scaled. */
  function RawEntry(buf: seq<real>, r: nat, c: nat): real
    requires r < 3 && 5 * c + 4 < |buf|
  {
    if r == 0 then buf[5 * c]
    else if r == 1 then buf[5 * c + 1]
    else buf[5 * c + 2] + buf[5 * c + 3] + buf[5 * c + 4]
  }

  /** A (3, n) block whose entries are the raw entries, the torque row
      scaled, is the joint readout. */
  lemma ScaledRowsReadout(obs: seq<seq<real>>, buf: seq<real>, n: nat)
    requires |buf| == 5 * n
    requires |obs| == 3 && |obs[0]| == n && |obs[1]| == n && |obs[2]| == n
    requires forall r, c :: 0 <= r < 3 && 0 <= c < n ==>
      obs[r][c] == if r == 2 then RawEntry(buf, r, c) * TorqueScale else RawEntry(buf, r, c)
    ensures JointReadout(obs, buf, n)
  {
    forall c | 0 <= c < n
      ensures obs[0][c] == buf[5 * c] && obs[1][c] == buf[5 * c + 1]
      ensures obs[2][c] == (buf[5 * c + 2] + buf[5 * c + 3] + buf[5 * c + 4]) * TorqueScale
    {
      assert obs[0][c] == RawEntry(buf, 0, c);
      assert obs[1][c] == RawEntry(buf, 1, c);
      assert obs[2][c] == RawEntry(buf, 2, c) * TorqueScale;
    }
  }

  /** The joint block of get_observation: one pass filling the three rows,
      a second scaling the torque row. */
  method ReadJointObservation(buf: seq<real>, n: nat) returns (obs: seq<seq<real>>)
    requires |buf| == 5 * n
    ensures JointReadout(obs, buf, n)
  {
    var jointObs := new real[3, n]((r, c) => 0.0);
    for i := 0 to n
      invariant forall r, c :: 0 <= r < 3 && 0 <= c < i ==> jointObs[r, c] == RawEntry(buf, r, c)
    {
      var base := i * 5;
      jointObs[0, i] := buf[base];
      jointObs[1, i] := buf[base + 1];
      var torques := buf[base + 2..base + 5];
      var total := Sum(torques);
      assert total == RawEntry(buf, 2, i) by {
        assert torques == [buf[base + 2], buf[base + 3], buf[base + 4]];
        SumOfThree(buf[base + 2], buf[base + 3], buf[base + 4]);
      }
      jointObs[2, i] := total;
    }
    for i := 0 to n
      invariant forall r, c :: 0 <= r < 3 && 0 <= c < n ==>
        jointObs[r, c] == if r == 2 && c < i then RawEntry(buf, r, c) * TorqueScale else RawEntry(buf, r, c)
    {
      jointObs[2, i] := jointObs[2, i] * TorqueScale;
    }
    obs := [seq(n, c requires 0 <= c < n reads jointObs => jointObs[0, c]),
            seq(n, c requires 0 <= c < n reads jointObs => jointObs[1, c]),
            seq(n, c requires 0 <= c < n reads jointObs => jointObs[2, c])];
    assert forall r, c :: 0 <= r < 3 && 0 <= c < n ==> obs[r][c] == jointObs[r, c];
    ScaledRowsReadout(obs, buf, n);
  }
}
