/** The teleop manager object; what the VR side sent and the flags are grouped in records. Its
    methods change the fields in place, and each is tied to the function of `TeleopModel` that the
    results about runs are about. */
module TeleopManager {
  import opened Doubles
  import opened PoseMapper
  import opened TeleopModel

  class TeleopManager {
    const config: Config
    const mapper: HandPoseMapper
    var vr: Input
    var measuredArms: seq<TimedPose>
    var measured: seq<Measured>
    var buttons: Buttons
    var flags: Flags
    var output: Output

    ghost predicate Valid()
      reads this, mapper
    {
      && config.Valid() && mapper.Valid() && mapper.config == config.mapper
      && vr.Shaped() && JoysValid(vr) && |measuredArms| == 2 && |measured| == AUXILIARIES
      && buttons.Shaped() && output.Shaped()
    }

    ghost function Model(): (t: Teleop)
      requires Valid()
      reads this, mapper
      ensures t.Shaped() && JoysValid(t.vr)
    {
      Teleop(mapper.Model(), vr, measuredArms, measured, buttons, flags, output)
    }

    constructor (c: Config)
      requires c.Valid()
      ensures Valid() && config == c && fresh(mapper) && Model() == Initial(c)
    {
      config := c;
      mapper := new HandPoseMapper(c.mapper);
      vr := NO_INPUT;
      measuredArms, measured := [NO_POSE, NO_POSE], [NOT_MEASURED, NOT_MEASURED, NOT_MEASURED];
      buttons := Buttons(IDLE_PRESS, IDLE_PRESS, IDLE_PRESS, IDLE_PRESS, [false, false], c.startGear);
      flags := Flags(true, false, false, false, false, Finite(0.0));
      output := Output(
        [c.mapper.reset[0], c.mapper.reset[1]], [false, false],
        [c.ranges[0].low, c.ranges[1].low, c.liftStart], false, AT_REST, true);
    }

    // ----- VR frames -----

    method ReleaseBothClutches()
      requires Valid()
      modifies mapper`hands
      ensures Valid() && mapper.Model() == ReleaseBoth(old(mapper.Model()))
    {
      mapper.ReleaseClutch(0);
      mapper.ReleaseClutch(1);
    }

    method ClearVrInput()
      requires Valid()
      modifies this, mapper
      ensures Valid() && Model() == ClearInput(old(Model()))
    {
      ReleaseBothClutches();
      vr := NO_INPUT;
      flags := flags.(recovery := true);
      buttons := buttons.(sticks := [false, false]);
    }

    method UpdateVrFrame(frame: Frame, at: Double)
      requires Valid() && frame.Shaped()
      modifies this, mapper
      ensures Valid() && Model() == TeleopModel.UpdateVrFrame(old(Model()), frame, at)
    {
      if at.NonFinite? || frame.timestamp.NonFinite? || !frame.headOk {
        ClearVrInput();
        return;
      }
      vr := vr.(headReceived := true, headAt := at);
      UpdateHand(frame, 0, at);
      UpdateHand(frame, 1, at);
    }

    method UpdateHand(frame: Frame, side: Side, at: Double)
      requires Valid() && frame.Shaped()
      modifies this`vr, this`buttons, mapper
      ensures Valid() && Model() == UpdateHandInput(old(Model()), frame, side, at)
    {
      vr := vr.(connected := vr.connected[side := frame.connected[side]]);
      if !HandUsable(frame, side) {
        vr := vr.(hands := vr.hands[side := NO_POSE], joys := vr.joys[side := NO_JOY]);
        mapper.ReleaseClutch(side);
        buttons := buttons.(sticks := buttons.sticks[side := false]);
        return;
      }
      vr := vr.(hands := vr.hands[side := TimedPose(frame.poses[side], at, true)],
                joys := vr.joys[side := TimedJoy(frame.joys[side], at, true)]);
    }

    // ----- measurements -----

    method UpdateMeasuredState(readings: seq<Reading>, at: Double)
      requires Valid() && |readings| == AUXILIARIES
      modifies this`measured, this`output
      ensures Valid() && Model() == UpdateMeasured(config, old(Model()), readings, at)
    {
      if at.NonFinite? {
        InvalidateMeasuredState();
        return;
      }
      UpdateAxisReading(0, readings[0], at);
      UpdateAxisReading(1, readings[1], at);
      UpdateAxisReading(2, readings[2], at);
    }

    method UpdateAxisReading(k: nat, reading: Reading, at: Double)
      requires Valid() && k < AUXILIARIES
      modifies this`measured, this`output
      ensures Valid()
      ensures (measured, output.auxiliary) == UpdateAxis(config, old(measured), old(output).auxiliary, k, reading, at)
      ensures output == old(output).(auxiliary := output.auxiliary)
    {
      if !reading.present {
        return;
      }
      if reading.value.NonFinite? || !config.ranges[k].Contains(reading.value.v) {
        InvalidateMeasuredAxis(k);
        return;
      }
      var first := !measured[k].valid;
      measured := measured[k := Measured(reading.value.v, at, true)];
      if first {
        output := output.(auxiliary := output.auxiliary[k := reading.value.v]);
      }
    }

    method InvalidateMeasuredAxis(k: nat)
      requires Valid() && k < AUXILIARIES
      modifies this`measured
      ensures Valid() && measured == InvalidateAxis(old(measured), k)
    {
      measured := measured[k := measured[k].(valid := false, at := Finite(0.0))];
    }

    method InvalidateMeasuredState()
      requires Valid()
      modifies this`measured
      ensures Valid() && measured == InvalidateMeasured(old(measured))
    {
      InvalidateMeasuredAxis(0);
      InvalidateMeasuredAxis(1);
      InvalidateMeasuredAxis(2);
    }

    method InvalidateMeasuredPose(side: Side)
      requires Valid()
      modifies this`measuredArms
      ensures Valid() && measuredArms == InvalidatePose(old(measuredArms), side)
    {
      measuredArms := measuredArms[side := measuredArms[side].(received := false, at := Finite(0.0))];
    }

    method UpdateMeasuredPose(side: Side, pose: Pose, at: Double)
      requires Valid()
      modifies this`measuredArms
      ensures Valid() && measuredArms == UpdatePose(old(measuredArms), side, pose, at)
    {
      if !ValidPose(pose) || at.NonFinite? {
        InvalidateMeasuredPose(side);
        return;
      }
      measuredArms := measuredArms[side := TimedPose(pose, at, true)];
    }

    // ----- tick -----

    method Tick(now: Double)
      requires Valid()
      modifies this, mapper
      ensures Valid() && Model() == TeleopModel.Tick(config, old(Model()), now)
    {
      var dt := Lapse(config, flags, now);
      var auxiliaryFresh := AuxiliaryFresh(config, measured, now);
      flags := flags.(ticked := true, lastTick := now);
      if auxiliaryFresh && !flags.freshBefore {
        flags := flags.(holdPending := true);
      }
      assert Model() == Started(config, old(Model()), now);
      var updated := RunOrHold(now, dt, auxiliaryFresh);
      FinishTick(now, updated, auxiliaryFresh);
    }

    method RunOrHold(now: Double, dt: real, auxiliaryFresh: bool) returns (updated: seq<bool>)
      requires Valid() && auxiliaryFresh == AuxiliaryFresh(config, measured, now)
      modifies this, mapper
      ensures Valid() && (Model(), updated) == Decide(config, old(Model()), now, dt)
    {
      var live := AllInputsFresh(config, vr, now);
      if !live || (flags.recovery && AnyGrip(vr)) {
        HoldSafely(live);
        return [false, false];
      }
      ResumeMotion();
      HandleButtons(now.v);
      updated := MoveActively(now, dt, auxiliaryFresh && !flags.holdPending);
    }

    method HoldSafely(live: bool)
      requires Valid()
      modifies this`flags, this`output, this`buttons, mapper
      ensures Valid() && Model() == EnterSafeHold(config, old(Model()), live)
    {
      if !live {
        flags := flags.(recovery := true, resetPending := config.autoReset);
      }
      ReleaseBothClutches();
      output := output.(safeHold := true, base := AT_REST,
                        auxiliary := HoldMeasured(config, measured, output.auxiliary));
      buttons := ForgetPresses(buttons, vr);
    }

    method ResumeMotion()
      requires Valid()
      modifies this`flags, this`output, this`buttons, mapper
      ensures Valid() && Model() == LeaveSafeHold(config, old(Model()))
    {
      if flags.recovery {
        flags := flags.(recovery := false);
        buttons := ForgetPresses(buttons, vr);
      }
      if flags.resetPending {
        mapper.ResetSide(0);
        mapper.ResetSide(1);
        flags := flags.(resetPending := false);
      }
      output := output.(safeHold := false);
    }

    method HandleButtons(now: real)
      requires Valid()
      modifies this`buttons, mapper
      ensures Valid() && Model() == ProcessButtons(config, old(Model()), now)
    {
      var pressed := UpdatePresses(config, buttons, vr, now);
      var fired := pressed.1;
      buttons := pressed.0;
      if fired.mode {
        mapper.SetControlMode(Toggled(mapper.mode));
      }
      if fired.left {
        mapper.ResetSide(0);
      }
      if fired.right {
        mapper.ResetSide(1);
      }
      if fired.both {
        mapper.ResetSide(0);
        mapper.ResetSide(1);
      }
    }

    method MoveActively(now: Double, dt: real, enabled: bool) returns (updated: seq<bool>)
      requires Valid()
      modifies this`output, mapper
      ensures Valid() && (Model(), updated) == ActiveCommands(config, old(Model()), now, dt, enabled)
    {
      var left := MoveTarget(now, 0);
      var right := MoveTarget(now, 1);
      updated := [left, right];
      if enabled {
        output := output.(auxiliary := Jog(config, vr, output.auxiliary, dt));
      }
      output := output.(base := BaseSpeed(config, vr, buttons.gear));
    }

    method MoveTarget(now: Double, side: Side) returns (updated: bool)
      requires Valid()
      modifies mapper
      ensures Valid()
      ensures (mapper.Model(), updated) == UpdateTarget(config, old(Model()), now, side, old(mapper.Model()))
    {
      if !ArmFresh(config, measuredArms, now, side) {
        mapper.ReleaseClutch(side);
        return false;
      }
      updated := mapper.UpdateSide(side, vr.hands[side].value, vr.joys[side].value.grip, measuredArms[side].value);
    }

    method FinishTick(now: Double, updated: seq<bool>, auxiliaryFresh: bool)
      requires Valid() && |updated| == 2 && auxiliaryFresh == AuxiliaryFresh(config, measured, now)
      modifies this`output, this`flags
      ensures Valid() && Model() == Publish(config, SettleHold(config, old(Model()), now), now, updated)
    {
      if auxiliaryFresh && flags.holdPending {
        output := output.(auxiliary := HoldMeasured(config, measured, output.auxiliary));
        flags := flags.(holdPending := false);
      }
      output := output.(
        target := [mapper.hands[0].target, mapper.hands[1].target],
        targetValid := [!output.safeHold && ArmFresh(config, measuredArms, now, 0) && updated[0],
                        !output.safeHold && ArmFresh(config, measuredArms, now, 1) && updated[1]],
        auxiliaryValid := auxiliaryFresh);
      flags := flags.(freshBefore := auxiliaryFresh);
    }
  }
}
