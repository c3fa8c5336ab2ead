/** The environment's run state: simulated time, the render cadence and
    its saved frames, the vision cadence and its update mask, and reset and
    step around the engine. The engine's dynamics, the renderer's pixels
    and the ommatidia projection are foreign; what they deliver at a given
    instant is passed in as a parameter. */
module Env {
  import opened Wrappers
  import opened Config
  import opened Sensors
  import opened Pose

  /** A timestamp that may still be minus infinity. */
  datatype Time = NegInf | At(t: real)

  /** `now < last + interval` does not hold: the cadence is due. Minus
      infinity plus a finite interval stays minus infinity, so a cadence
      that never fired is always due. */
  predicate Due(now: real, last: Time, interval: real)
  {
    match last
    case NegInf => true
    case At(t) => !(now < t + interval)
  }

  /** A rendered image; its pixels are the renderer's business. */
  datatype Image = Image(pixels: seq<real>)

  /** What the two eye cameras and the ommatidia projection deliver. */
  datatype EyeReadout = EyeReadout(raw: seq<Image>, ommatidia: seq<seq<real>>)

  /** What the engine's sensors and the eyes read at one instant. */
  datatype Readout = Readout(jointSensors: seq<real>, touch: seq<real>, endEffectors: seq<real>, eyes: EyeReadout)

  /** The observation dictionary; vision and rawVision are None when the
      key is absent. */
  datatype Observation = Observation(joints: seq<seq<real>>, contactForces: seq<real>, endEffectors: seq<real>,
                                     vision: Option<seq<seq<real>>>, rawVision: Option<seq<Image>>)

  /** NotImplementedError from render, and the ValueError numpy raises
      when the action cannot be broadcast onto the actuators' controls. */
  datatype EnvError = NotImplemented(renderMode: string) | ControlShape(given: nat, actuators: nat)

  /** What step returns when the action is accepted. */
  datatype StepResult = StepResult(obs: Observation, reward: int, terminated: bool, truncated: bool,
                                   info: map<string, string>)

  /** The simulation parameters the run state depends on. */
  datatype SimParams = SimParams(timestep: real, renderMode: string, renderPlayspeed: real, renderFps: real,
                                 enableVision: bool, renderRawVision: bool, visionRefreshRate: real,
                                 tarsusStiffness: real, tarsusDamping: real)

  // ---------------------------------------------------------------------
  // The vision cadence over the times at which it was consulted

  /** The last update time after consulting the cadence at each of times. */
  function CadenceLast(times: seq<real>, interval: real): Time
  {
    if times == [] then NegInf
    else
      var prev := CadenceLast(times[..|times| - 1], interval);
      var t := times[|times| - 1];
      if Due(t, prev, interval) then At(t) else prev
  }

  /** The mask entries those consultations append. */
  function CadenceMask(times: seq<real>, interval: real): (r: seq<bool>)
    ensures |r| == |times|
  {
    if times == [] then []
    else CadenceMask(times[..|times| - 1], interval)
         + [Due(times[|times| - 1], CadenceLast(times[..|times| - 1], interval), interval)]
  }

  lemma {:induction false} CadenceMaskAt(times: seq<real>, interval: real, j: nat)
    requires j < |times|
    ensures CadenceMask(times, interval)[j] == Due(times[j], CadenceLast(times[..j], interval), interval)
    decreases |times|
  {
    var init := times[..|times| - 1];
    if j < |times| - 1 {
      CadenceMaskAt(init, interval, j);
      assert init[..j] == times[..j];
    }
  }

  /** The first consultation always updates. */
  lemma CadenceFirstDue(times: seq<real>, interval: real)
    requires |times| > 0
    ensures CadenceMask(times, interval)[0]
  {
    CadenceMaskAt(times, interval, 0);
    assert times[..0] == [];
  }

  /** Between two updates the last update time is the earlier one. */
  lemma {:induction false} CadenceLastAt(times: seq<real>, interval: real, i: nat, j: nat)
    requires i < j <= |times|
    requires CadenceMask(times, interval)[i]
    requires forall k :: i < k < j ==> !CadenceMask(times, interval)[k]
    ensures CadenceLast(times[..j], interval) == At(times[i])
    decreases j
  {
    var pre := times[..j];
    assert pre[..j - 1] == times[..j - 1];
    CadenceMaskAt(times, interval, j - 1);
    if j - 1 > i {
      CadenceLastAt(times, interval, i, j - 1);
    }
  }

  /** After an update at times[i], a later consultation with none updating
      in between updates exactly when interval has passed since times[i]. */
  lemma CadenceSpacing(times: seq<real>, interval: real, i: nat, j: nat)
    requires i < j < |times|
    requires CadenceMask(times, interval)[i]
    requires forall k :: i < k < j ==> !CadenceMask(times, interval)[k]
    ensures CadenceMask(times, interval)[j] <==> times[j] >= times[i] + interval
  {
    CadenceLastAt(times, interval, i, j);
    CadenceMaskAt(times, interval, j);
  }

  lemma CadenceSnoc(times: seq<real>, interval: real, t: real)
    ensures CadenceMask(times + [t], interval) == CadenceMask(times, interval) + [Due(t, CadenceLast(times, interval), interval)]
    ensures CadenceLast(times + [t], interval)
         == if Due(t, CadenceLast(times, interval), interval) then At(t) else CadenceLast(times, interval)
  {
    assert (times + [t])[..|times|] == times;
  }

  // ---------------------------------------------------------------------
  // The environment

  class Environment {
    const physics: Physics
    const timestep: real
    const renderMode: string
    /** playspeed / fps; never read in headless mode, where it is 0. */
    const renderInterval: real
    /** 1 / vision_refresh_rate. */
    const visionInterval: real
    const enableVision: bool
    const renderRawVision: bool
    const actuatedJoints: seq<string>
    /** The joint each actuator drives, one actuator per actuated joint. */
    const actuatorJoints: seq<string>
    const initPose: map<string, real>

    var currTime: real
    var lastRender: Time
    var lastVision: Time
    var frames: seq<Image>
    var visionMask: seq<bool>
    var currVisualInput: Option<seq<seq<real>>>
    var currRawVisualInput: Option<seq<Image>>
    /** The times of the vision consultations since reset. */
    ghost var visionTimes: seq<real>
    /** The times at which the frames were saved. */
    ghost var frameTimes: seq<real>

    /** The class invariant: one bound control per actuated joint, and the
        run state below. */
    ghost predicate Valid()
      reads this, physics
    {
      |physics.ctrl| == |actuatedJoints| && RunState()
    }

    /** The cadences agree with the consultation and frame times, the
        visual inputs are present exactly once vision has been updated, and
        saved frames are a render interval apart. */
    ghost predicate RunState()
      reads this
    {
      |actuatorJoints| == |actuatedJoints|
      && visionMask == CadenceMask(visionTimes, visionInterval)
      && lastVision == CadenceLast(visionTimes, visionInterval)
      && (currVisualInput.Some? <==> lastVision.At?)
      && (if renderRawVision then currRawVisualInput.Some? <==> lastVision.At? else currRawVisualInput == None)
      && |frames| == |frameTimes|
      && lastRender == (if frameTimes == [] then NegInf else At(frameTimes[|frameTimes| - 1]))
      && forall i :: 0 < i < |frameTimes| ==> frameTimes[i] >= frameTimes[i - 1] + renderInterval
    }

    /** The render state and the clock are left as they were. */
    twostate predicate RenderKept()
      reads this
    {
      currTime == old(currTime) && frames == old(frames) && lastRender == old(lastRender)
      && frameTimes == old(frameTimes)
    }

    /** The vision state is left as it was. */
    twostate predicate VisionKept()
      reads this
    {
      visionTimes == old(visionTimes) && visionMask == old(visionMask) && lastVision == old(lastVision)
      && currVisualInput == old(currVisualInput) && currRawVisualInput == old(currRawVisualInput)
    }

    /** One consultation of the vision cadence at currTime: one mask entry,
        true exactly when due; when due, the inputs are replaced by the
        eyes' readout and the update time moves to now; otherwise nothing
        else changes. */
    twostate predicate VisionConsulted(eyes: EyeReadout)
      reads this
    {
      var due := Due(currTime, old(lastVision), visionInterval);
      visionTimes == old(visionTimes) + [currTime]
      && visionMask == old(visionMask) + [due]
      && (due ==> lastVision == At(currTime) && currVisualInput == Some(eyes.ommatidia)
                  && currRawVisualInput == (if renderRawVision then Some(eyes.raw) else old(currRawVisualInput)))
      && (!due ==> lastVision == old(lastVision) && currVisualInput == old(currVisualInput)
                   && currRawVisualInput == old(currRawVisualInput))
    }

    constructor (params: SimParams, physics: Physics, actuatedJoints: seq<string>, actuatorJoints: seq<string>,
                 initPose: map<string, real>, readout: Readout)
      requires params.visionRefreshRate != 0.0
      requires params.renderMode != "headless" ==> params.renderFps != 0.0
      requires |actuatorJoints| == |actuatedJoints| && |physics.ctrl| == |actuatedJoints|
      requires |readout.jointSensors| == 5 * |actuatedJoints|
      modifies physics
      ensures Valid()
      ensures this.physics == physics && this.actuatedJoints == actuatedJoints && this.initPose == initPose
      ensures this.actuatorJoints == actuatorJoints
      ensures timestep == params.timestep && renderMode == params.renderMode
      ensures enableVision == params.enableVision && renderRawVision == params.renderRawVision
      ensures visionInterval == 1.0 / params.visionRefreshRate
      ensures renderMode != "headless" ==> renderInterval == params.renderPlayspeed / params.renderFps
      ensures physics.stiffness == SetAll(old(physics.stiffness), CompliantJointKeys(), params.tarsusStiffness)
      ensures physics.damping == SetAll(old(physics.damping), CompliantJointKeys(), params.tarsusDamping)
      ensures physics.qpos == ApplyPose(physics.qpos0, actuatorJoints, actuatedJoints, initPose)
      ensures physics.ctrl == Zeros(|actuatedJoints|)
      ensures currTime == 0.0 && frames == [] && frameTimes == [] && lastRender == NegInf
      ensures visionTimes == (if params.enableVision then [0.0] else [])
      ensures visionMask == (if params.enableVision then [true] else []) && VisionUpdateMask() == []
      ensures params.enableVision ==> lastVision == At(0.0) && currVisualInput == Some(readout.eyes.ommatidia)
      ensures params.enableVision ==> currRawVisualInput == (if params.renderRawVision then Some(readout.eyes.raw) else None)
      ensures !params.enableVision ==> lastVision == NegInf && currVisualInput == None && currRawVisualInput == None
    {
      this.physics := physics;
      this.actuatedJoints := actuatedJoints;
      this.actuatorJoints := actuatorJoints;
      this.initPose := initPose;
      timestep := params.timestep;
      renderMode := params.renderMode;
      enableVision := params.enableVision;
      renderRawVision := params.renderRawVision;
      visionInterval := 1.0 / params.visionRefreshRate;
      renderInterval := if params.renderMode != "headless" then params.renderPlayspeed / params.renderFps else 0.0;
      currVisualInput := None;
      currRawVisualInput := None;
      lastVision := NegInf;
      visionMask := [];
      visionTimes := [];
      currTime := 0.0;
      lastRender := NegInf;
      frames := [];
      frameTimes := [];
      new;
      SetCompliantTarsus(physics, params.tarsusStiffness, params.tarsusDamping);
      SetInitPose(physics, actuatorJoints, actuatedJoints, initPose);
      var _, _ := Reset(readout);
    }

    /** _update_vision. */
    method UpdateVision(eyes: EyeReadout)
      requires RunState()
      modifies this
      ensures RunState() && VisionConsulted(eyes) && RenderKept()
    {
      CadenceSnoc(visionTimes, visionInterval, currTime);
      visionTimes := visionTimes + [currTime];
      var notYet := match lastVision
        case NegInf => false
        case At(t) => currTime < t + visionInterval;
      if notYet {
        visionMask := visionMask + [false];
        return;
      }
      visionMask := visionMask + [true];
      currVisualInput := Some(eyes.ommatidia);
      if renderRawVision {
        currRawVisualInput := Some(eyes.raw);
      }
      lastVision := At(currTime);
    }

    /** vision_update_mask: the mask without its first entry, the one the
        observation taken by reset appended. */
    function VisionUpdateMask(): (r: seq<bool>)
      reads this
      ensures |r| == if visionMask == [] then 0 else |visionMask| - 1
      ensures forall k :: 0 <= k < |r| ==> r[k] == visionMask[k + 1]
    {
      if visionMask == [] then [] else visionMask[1..]
    }

    /** In the exposed mask, after a true entry and only false ones since,
        an entry is true exactly when a vision interval has passed since
        that update. */
    lemma UpdateMaskSpacing(i: nat, j: nat)
      requires RunState()
      requires i < j < |VisionUpdateMask()|
      requires VisionUpdateMask()[i] && forall k :: i < k < j ==> !VisionUpdateMask()[k]
      ensures VisionUpdateMask()[j] <==> visionTimes[j + 1] >= visionTimes[i + 1] + visionInterval
    {
      forall k | i + 1 < k < j + 1 ensures !CadenceMask(visionTimes, visionInterval)[k] {
        assert VisionUpdateMask()[k - 1] == visionMask[k];
      }
      CadenceSpacing(visionTimes, visionInterval, i + 1, j + 1);
    }

    /** The joint block, the touch and end-effector readings, and vision
        when enabled (olfaction and the thorax pose are not modelled). */
    method GetObservation(readout: Readout) returns (obs: Observation)
      requires RunState() && |readout.jointSensors| == 5 * |actuatedJoints|
      modifies this
      ensures RunState() && RenderKept()
      ensures JointReadout(obs.joints, readout.jointSensors, |actuatedJoints|)
      ensures obs.contactForces == readout.touch && obs.endEffectors == readout.endEffectors
      ensures enableVision ==> VisionConsulted(readout.eyes) && obs.vision == currVisualInput && obs.vision.Some?
      ensures enableVision ==> obs.rawVision == (if renderRawVision then currRawVisualInput else None)
      ensures !enableVision ==> VisionKept() && obs.vision == None && obs.rawVision == None
    {
      var joints := ReadJointObservation(readout.jointSensors, |actuatedJoints|);
      obs := Observation(joints, readout.touch, readout.endEffectors, None, None);
      if enableVision {
        UpdateVision(readout.eyes);
        obs := obs.(vision := currVisualInput);
        if renderRawVision {
          obs := obs.(rawVision := currRawVisualInput);
        }
      }
    }

    /** reset: engine reset, clock to zero, initial pose, empty frames and
        mask, both cadences back to minus infinity, then one observation. */
    method Reset(readout: Readout) returns (obs: Observation, info: map<string, string>)
      requires |actuatorJoints| == |actuatedJoints| && |physics.ctrl| == |actuatedJoints|
      requires |readout.jointSensors| == 5 * |actuatedJoints|
      modifies this, physics
      ensures Valid()
      ensures currTime == 0.0 && frames == [] && frameTimes == [] && lastRender == NegInf
      ensures physics.qpos == ApplyPose(physics.qpos0, actuatorJoints, actuatedJoints, initPose)
      ensures physics.ctrl == Zeros(|old(physics.ctrl)|)
      ensures physics.stiffness == old(physics.stiffness) && physics.damping == old(physics.damping)
      ensures visionTimes == (if enableVision then [0.0] else [])
      ensures visionMask == (if enableVision then [true] else []) && VisionUpdateMask() == []
      ensures enableVision ==> lastVision == At(0.0) && currVisualInput == Some(readout.eyes.ommatidia)
                               && currRawVisualInput == (if renderRawVision then Some(readout.eyes.raw) else None)
      ensures !enableVision ==> lastVision == NegInf && currVisualInput == None && currRawVisualInput == None
      ensures JointReadout(obs.joints, readout.jointSensors, |actuatedJoints|)
      ensures obs.vision == currVisualInput && info == map[]
    {
      physics.Reset();
      currTime := 0.0;
      SetInitPose(physics, actuatorJoints, actuatedJoints, initPose);
      frames := [];
      frameTimes := [];
      lastRender := NegInf;
      lastVision := NegInf;
      currRawVisualInput := None;
      currVisualInput := None;
      visionMask := [];
      visionTimes := [];
      obs := GetObservation(readout);
      info := map[];
    }

    /** step once the action is bound: controls written, engine stepped,
        clock advanced by exactly one timestep, then one observation;
        reward 0, never terminated or truncated, empty info. */
    method StepBound(controls: seq<real>, reached: map<string, real>, readout: Readout) returns (res: StepResult)
      requires Valid() && |readout.jointSensors| == 5 * |actuatedJoints|
      requires |controls| == |actuatedJoints|
      modifies this, physics
      ensures Valid()
      ensures currTime == old(currTime) + timestep
      ensures frames == old(frames) && lastRender == old(lastRender) && frameTimes == old(frameTimes)
      ensures physics.ctrl == controls && physics.qpos == reached
      ensures physics.stiffness == old(physics.stiffness) && physics.damping == old(physics.damping)
      ensures JointReadout(res.obs.joints, readout.jointSensors, |actuatedJoints|)
      ensures enableVision ==> VisionConsulted(readout.eyes) && res.obs.vision == currVisualInput
      ensures !enableVision ==> VisionKept() && res.obs.vision == None
      ensures res.reward == 0 && !res.terminated && !res.truncated && res.info == map[]
    {
      physics.Advance(controls, reached);
      currTime := currTime + timestep;
      var obs := GetObservation(readout);
      res := StepResult(obs, 0, false, false, map[]);
    }

    /** step: the action is bound to the actuators' controls with numpy's
        broadcasting; an action that cannot be broadcast raises before
        anything changes, any other is stepped as StepBound says. */
    method Step(action: seq<real>, reached: map<string, real>, readout: Readout) returns (r: Result<StepResult, EnvError>)
      requires Valid() && |readout.jointSensors| == 5 * |actuatedJoints|
      modifies this, physics
      ensures Valid()
      ensures r.Failure? <==> BindControls(action, |actuatedJoints|).None?
      ensures r.Failure? ==> r.error == ControlShape(|action|, |actuatedJoints|)
      ensures r.Failure? ==> unchanged(this) && unchanged(physics)
      ensures r.Success? ==> currTime == old(currTime) + timestep
      ensures r.Success? ==> frames == old(frames) && lastRender == old(lastRender) && frameTimes == old(frameTimes)
      ensures r.Success? ==> physics.ctrl == BindControls(action, |actuatedJoints|).value && physics.qpos == reached
      ensures physics.stiffness == old(physics.stiffness) && physics.damping == old(physics.damping)
      ensures r.Success? ==> JointReadout(r.value.obs.joints, readout.jointSensors, |actuatedJoints|)
      ensures r.Success? && enableVision ==> VisionConsulted(readout.eyes) && r.value.obs.vision == currVisualInput
      ensures r.Success? && !enableVision ==> VisionKept() && r.value.obs.vision == None
      ensures r.Success? ==> r.value.reward == 0 && !r.value.terminated && !r.value.truncated && r.value.info == map[]
    {
      var controls := BindControls(action, |actuatedJoints|);
      if controls.None? {
        return Failure(ControlShape(|action|, |actuatedJoints|));
      }
      var res := StepBound(controls.value, reached, readout);
      r := Success(res);
    }

    /** render: nothing in headless mode or before the render interval has
        passed; otherwise save the frame in "saved" mode and fail in any
        other mode. img is what the renderer draws from the render camera
        at the render window size. */
    method Render(img: Image) returns (r: Outcome<EnvError>)
      requires RunState()
      modifies this
      ensures RunState() && VisionKept() && currTime == old(currTime)
      ensures renderMode == "headless" ==> r == Pass && RenderKept()
      ensures renderMode != "headless" && !Due(currTime, old(lastRender), renderInterval) ==> r == Pass && RenderKept()
      ensures renderMode == "saved" && Due(currTime, old(lastRender), renderInterval) ==>
        r == Pass && frames == old(frames) + [img] && lastRender == At(currTime)
      ensures renderMode != "headless" && renderMode != "saved" && Due(currTime, old(lastRender), renderInterval) ==>
        r == Fail(NotImplemented(renderMode)) && RenderKept()
    {
      if renderMode == "headless" {
        return Pass;
      }
      var notYet := match lastRender
        case NegInf => false
        case At(t) => currTime < t + renderInterval;
      if notYet {
        return Pass;
      }
      if renderMode == "saved" {
        frames := frames + [img];
        frameTimes := frameTimes + [currTime];
        lastRender := At(currTime);
        return Pass;
      } else {
        return Fail(NotImplemented(renderMode));
      }
    }
  }
}
