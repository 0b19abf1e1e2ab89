/** What the buttons do over a run: long presses change the mode and reset targets, once per press;
    the right stick's button changes the speed gear; and a target that is not valid stays. */
module TeleopButtons {
  import opened CommandMailbox
  import opened Doubles
  import opened PoseMapper
  import opened TeleopModel
  import opened TeleopSafety
  import opened TeleopRuns
  import opened TeleopInputs
  import opened TeleopTicks
  import opened TeleopCommands
  import opened Reclutch

  // ----- presses, read off the ticks -----

  ghost predicate Combined(r: Record, side: Side) { |r.sticks| == 2 && r.sticks[side].xa && r.sticks[side].yb }

  ghost predicate BothTwo(r: Record) { Combined(r, 0) && Combined(r, 1) }

  ghost predicate LeftTwo(r: Record) { Combined(r, 0) && !BothTwo(r) }

  ghost predicate RightTwo(r: Record) { Combined(r, 1) && !BothTwo(r) }

  ghost predicate Menu(r: Record) { |r.sticks| == 2 && (r.sticks[0].menu || r.sticks[1].menu) }

  datatype Which = ModePress | LeftPress | RightPress | MenuPress

  ghost predicate Pressed(w: Which, r: Record) {
    match w
    case ModePress => BothTwo(r)
    case LeftPress => LeftTwo(r)
    case RightPress => RightTwo(r)
    case MenuPress => Menu(r)
  }

  /** The tick since which the buttons have been pressed without a break; a hold or a recovery breaks it. */
  ghost function PressedSince(ticks: seq<Record>, w: Which): (s: Option<nat>)
    ensures s.Some? ==> s.value < |ticks|
  {
    if ticks == [] then None
    else
      var init, last := ticks[..|ticks| - 1], ticks[|ticks| - 1];
      if last.output.safeHold || !Pressed(w, last) then None
      else if !last.recovering && PressedSince(init, w).Some? then PressedSince(init, w)
      else Some(|init|)
  }

  /** Tick `k` comes long enough after tick `s`. */
  ghost predicate LongAfter(c: Config, ticks: seq<Record>, s: nat, k: nat) {
    && s < k < |ticks| && ticks[s].at.Finite? && ticks[k].at.Finite?
    && ticks[k].at.v - ticks[s].at.v >= c.longPress
  }

  /** The last tick is the first one at which the press has become long. */
  ghost predicate Fires(c: Config, ticks: seq<Record>, w: Which) {
    var s := PressedSince(ticks, w);
    && s.Some? && LongAfter(c, ticks, s.value, |ticks| - 1)
    && forall k: nat | k < |ticks| - 1 :: !LongAfter(c, ticks, s.value, k)
  }

  lemma SinceNext(ticks: seq<Record>, r: Record, w: Which)
    ensures PressedSince(ticks + [r], w) ==
      if r.output.safeHold || !Pressed(w, r) then None
      else if !r.recovering && PressedSince(ticks, w).Some? then PressedSince(ticks, w)
      else Some(|ticks|)
  {
    assert (ticks + [r])[..|ticks|] == ticks;
  }

  /** What a press state remembers of the ticks. */
  ghost predicate Remembers(c: Config, ticks: seq<Record>, w: Which, p: Press) {
    match PressedSince(ticks, w)
    case None => !p.active && !p.fired
    case Some(s) =>
      && p.active && p.startedAt == ticks[s].at && p.startedAt.Finite?
      && (p.fired <==> exists k: nat :: LongAfter(c, ticks, s, k))
  }

  lemma LongAfterNext(c: Config, ticks: seq<Record>, r: Record, s: nat)
    requires s < |ticks|
    ensures (exists k: nat :: LongAfter(c, ticks + [r], s, k)) <==>
      (exists k: nat :: LongAfter(c, ticks, s, k)) || LongAfter(c, ticks + [r], s, |ticks|)
  {
    var all := ticks + [r];
    if exists k: nat :: LongAfter(c, ticks, s, k) {
      var k: nat :| LongAfter(c, ticks, s, k);
      assert LongAfter(c, all, s, k);
    }
    if exists k: nat :: LongAfter(c, all, s, k) {
      var k: nat :| LongAfter(c, all, s, k);
      assert k < |ticks| ==> LongAfter(c, ticks, s, k);
    }
  }

  lemma NeverLongAfterItself(c: Config, ticks: seq<Record>, r: Record)
    ensures forall k: nat :: !LongAfter(c, ticks + [r], |ticks|, k)
  {}

  /** A running tick without recovery goes on with the press; with recovery it starts anew. */
  lemma PressNext(c: Config, ticks: seq<Record>, r: Record, w: Which, p: Press)
    requires c.Valid() && !r.output.safeHold && r.at.Finite? && Remembers(c, ticks, w, p)
    ensures var q := LongPress(c, Pressed(w, r), r.at.v, if r.recovering then IDLE_PRESS else p);
      Remembers(c, ticks + [r], w, q.0) && (q.1 <==> Fires(c, ticks + [r], w))
  {
    var all := ticks + [r];
    SinceNext(ticks, r, w);
    NeverLongAfterItself(c, ticks, r);
    var s := PressedSince(ticks, w);
    if Pressed(w, r) && !r.recovering && s.Some? {
      LongAfterNext(c, ticks, r, s.value);
      assert all[s.value] == ticks[s.value] && all[|ticks|] == r;
      forall k: nat | k < |ticks| ensures LongAfter(c, all, s.value, k) == LongAfter(c, ticks, s.value, k) {
        assert all[k] == ticks[k];
      }
    }
  }

  lemma HoldForgets(c: Config, ticks: seq<Record>, r: Record, w: Which)
    requires r.output.safeHold
    ensures Remembers(c, ticks + [r], w, IDLE_PRESS) && !Fires(c, ticks + [r], w)
  {
    SinceNext(ticks, r, w);
  }

  ghost function PressOf(b: Buttons, w: Which): Press {
    match w
    case ModePress => b.mode
    case LeftPress => b.left
    case RightPress => b.right
    case MenuPress => b.both
  }

  ghost predicate FiredOf(f: Fired, w: Which) {
    match w
    case ModePress => f.mode
    case LeftPress => f.left
    case RightPress => f.right
    case MenuPress => f.both
  }

  ghost predicate AllRemembered(c: Config, ticks: seq<Record>, b: Buttons) {
    forall w: Which :: Remembers(c, ticks, w, PressOf(b, w))
  }

  /** The record was made in a state with this input. */
  ghost predicate Shown(v: Input, r: Record)
    requires v.Shaped()
  {
    r.sticks == [v.joys[0].value, v.joys[1].value]
  }

  /** The buttons before they are processed: forgotten when recovering. */
  ghost function Resumed(b: Buttons, v: Input, recovering: bool): (r: Buttons)
    requires b.Shaped() && v.Shaped()
    ensures r.Shaped()
  {
    if recovering then ForgetPresses(b, v) else b
  }

  lemma PressStep(c: Config, b: Buttons, v: Input, now: real, w: Which, r: Record)
    requires b.Shaped() && v.Shaped() && Shown(v, r)
    ensures var p := UpdatePresses(c, b, v, now);
      && PressOf(p.0, w) == LongPress(c, Pressed(w, r), now, PressOf(b, w)).0
      && FiredOf(p.1, w) == LongPress(c, Pressed(w, r), now, PressOf(b, w)).1
  {}

  lemma ResumedPress(b: Buttons, v: Input, recovering: bool, w: Which)
    requires b.Shaped() && v.Shaped()
    ensures PressOf(Resumed(b, v, recovering), w) == if recovering then IDLE_PRESS else PressOf(b, w)
  {}

  lemma PressesFire(c: Config, ticks: seq<Record>, b: Buttons, v: Input, r: Record)
    requires c.Valid() && b.Shaped() && v.Shaped() && Shown(v, r) && !r.output.safeHold && r.at.Finite?
    requires AllRemembered(c, ticks, b)
    ensures var p := UpdatePresses(c, Resumed(b, v, r.recovering), v, r.at.v);
      AllRemembered(c, ticks + [r], p.0) && forall w: Which :: FiredOf(p.1, w) <==> Fires(c, ticks + [r], w)
  {
    var p := UpdatePresses(c, Resumed(b, v, r.recovering), v, r.at.v);
    forall w: Which
      ensures Remembers(c, ticks + [r], w, PressOf(p.0, w)) && (FiredOf(p.1, w) <==> Fires(c, ticks + [r], w))
    {
      PressStep(c, Resumed(b, v, r.recovering), v, r.at.v, w, r);
      ResumedPress(b, v, r.recovering, w);
      PressNext(c, ticks, r, w, PressOf(b, w));
    }
  }

  // ----- mode, targets and resets -----

  ghost function LastMode(ticks: seq<Record>): Mode {
    if ticks == [] then Relative else ticks[|ticks| - 1].mode
  }

  ghost function LastTarget(c: Config, ticks: seq<Record>, side: Side): Vector
    requires c.Valid() && AllShaped(ticks)
  {
    if ticks == [] then c.mapper.reset[side] else ticks[|ticks| - 1].output.target[side]
  }

  /** Since the last running tick the input has been stale in a hold, and resets are wanted after that. */
  ghost predicate Pending(c: Config, ticks: seq<Record>) {
    if ticks == [] || !ticks[|ticks| - 1].output.safeHold then false
    else if !ticks[|ticks| - 1].inputsFresh then c.autoReset
    else Pending(c, ticks[..|ticks| - 1])
  }

  /** This tick resets the target of the side. */
  ghost predicate Resets(c: Config, ticks: seq<Record>, r: Record, side: Side) {
    && !r.output.safeHold
    && (Fires(c, ticks + [r], if side == 0 then LeftPress else RightPress) || Fires(c, ticks + [r], MenuPress)
        || Pending(c, ticks))
  }

  /** The mode changes when both combinations become long, and only then; a target that is not valid is
      where it was, or at its reset position if this tick resets it; both open the clutch. */
  ghost predicate MapperTold(c: Config, ticks: seq<Record>, r: Record)
    requires c.Valid() && AllShaped(ticks)
  {
    && r.Shaped()
    && (r.mode != LastMode(ticks) <==> !r.output.safeHold && Fires(c, ticks + [r], ModePress))
    && (!r.output.safeHold && Fires(c, ticks + [r], ModePress) ==> !r.held[0] && !r.held[1])
    && forall side: Side ::
         && (!r.output.targetValid[side] ==>
               r.output.target[side] == if Resets(c, ticks, r, side) then c.mapper.reset[side] else LastTarget(c, ticks, side))
         && (Resets(c, ticks, r, side) ==> !r.held[side])
  }

  ghost predicate MapperKept(c: Config, ticks: seq<Record>, m: Mapper)
    requires c.Valid() && AllShaped(ticks)
  {
    && m.Shaped() && m.mode == LastMode(ticks)
    && forall side: Side :: m.hands[side].target == LastTarget(c, ticks, side)
  }

  lemma ResetIsReset(c: Config, m: Mapper, side: Side)
    requires c.Valid() && m.Shaped()
    ensures var n := Reset(c.mapper, m, side);
      && n.mode == m.mode && n.hands[side].target == c.mapper.reset[side] && !n.hands[side].clutchActive
      && n.hands[1 - side] == m.hands[1 - side]
  {
    ClampToStaysInside(c.mapper.reset[side], c.mapper.workspace);
  }

  lemma FireDoes(c: Config, m: Mapper, f: Fired)
    requires c.Valid() && m.Shaped()
    ensures var n := FireMapper(c, m, f);
      && n.mode == (if f.mode then Toggled(m.mode) else m.mode)
      && n.hands[0].target == (if f.left || f.both then c.mapper.reset[0] else m.hands[0].target)
      && n.hands[1].target == (if f.right || f.both then c.mapper.reset[1] else m.hands[1].target)
      && (f.left || f.both || f.mode ==> !n.hands[0].clutchActive)
      && (f.right || f.both || f.mode ==> !n.hands[1].clutchActive)
      && (m.hands[0].clutchActive || !n.hands[0].clutchActive) && (m.hands[1].clutchActive || !n.hands[1].clutchActive)
  {
    var toggled := if f.mode then SetMode(m, Toggled(m.mode)) else m;
    var left := if f.left then Reset(c.mapper, toggled, 0) else toggled;
    var right := if f.right then Reset(c.mapper, left, 1) else left;
    ResetIsReset(c, toggled, 0);
    ResetIsReset(c, left, 1);
    ResetIsReset(c, right, 0);
    ResetIsReset(c, Reset(c.mapper, right, 0), 1);
  }

  /** The mapper when the targets are moved. */
  lemma AtUpdate(c: Config, t: Teleop, ticks: seq<Record>, r: Record)
    requires c.Valid() && t.Shaped() && AllShaped(ticks) && r.Shaped() && Shown(t.vr, r)
    requires !r.output.safeHold && r.at.Finite? && r.recovering == t.flags.recovery
    requires AllRemembered(c, ticks, t.buttons) && MapperKept(c, ticks, t.mapper)
    requires t.flags.resetPending == Pending(c, ticks)
    ensures var m := MapperAtUpdate(c, t, r.at.v);
      && (m.mode != LastMode(ticks) <==> Fires(c, ticks + [r], ModePress))
      && (Fires(c, ticks + [r], ModePress) ==> !m.hands[0].clutchActive && !m.hands[1].clutchActive)
      && forall side: Side ::
           && m.hands[side].target == (if Resets(c, ticks, r, side) then c.mapper.reset[side] else LastTarget(c, ticks, side))
           && (Resets(c, ticks, r, side) ==> !m.hands[side].clutchActive)
  {
    var s := LeaveSafeHold(c, t);
    var p := UpdatePresses(c, s.buttons, s.vr, r.at.v);
    PressesFire(c, ticks, t.buttons, t.vr, r);
    assert s.buttons == Resumed(t.buttons, t.vr, r.recovering);
    ResetIsReset(c, t.mapper, 0);
    ResetIsReset(c, Reset(c.mapper, t.mapper, 0), 1);
    FireDoes(c, s.mapper, p.1);
    FiredAre(c, ticks + [r], p.1);
  }

  lemma FiredAre(c: Config, ticks: seq<Record>, f: Fired)
    requires forall w: Which :: FiredOf(f, w) <==> Fires(c, ticks, w)
    ensures f == Fired(Fires(c, ticks, ModePress), Fires(c, ticks, LeftPress), Fires(c, ticks, RightPress), Fires(c, ticks, MenuPress))
  {
    assert FiredOf(f, ModePress) <==> Fires(c, ticks, ModePress);
    assert FiredOf(f, LeftPress) <==> Fires(c, ticks, LeftPress);
    assert FiredOf(f, RightPress) <==> Fires(c, ticks, RightPress);
    assert FiredOf(f, MenuPress) <==> Fires(c, ticks, MenuPress);
  }

  /** Moving the targets changes only valid ones. */
  lemma InvalidStays(c: Config, before: Hand, mode: Mode, side: Side, grip: bool, after: Hand, r: Record)
    requires c.Valid() && r.Shaped() && Moved(c, before, mode, side, grip, after, r)
    ensures !r.output.targetValid[side] ==> after.target == before.target
  {}

  // ----- one tick -----

  ghost predicate Kept(c: Config, h: History)
    requires c.Valid()
  {
    && AllShaped(h.ticks) && h.now.Shaped() && AllRemembered(c, h.ticks, h.now.buttons)
    && MapperKept(c, h.ticks, h.now.mapper) && h.now.flags.resetPending == Pending(c, h.ticks)
  }

  lemma PendingNext(c: Config, ticks: seq<Record>, r: Record)
    ensures Pending(c, ticks + [r]) ==
      (r.output.safeHold && if !r.inputsFresh then c.autoReset else Pending(c, ticks))
  {
    assert (ticks + [r])[..|ticks|] == ticks;
  }

  /** A holding tick: what it leaves in the state and in its record. */
  lemma HoldTick(c: Config, t: Teleop, now: Double)
    requires c.Valid() && Ready(t) && MustHold(c, t, now)
    ensures var u, r := Tick(c, t, now), RecordOf(c, t, now);
      && r.output.safeHold && r.mode == t.mapper.mode == u.mapper.mode
      && (forall side: Side ::
            && r.output.target[side] == t.mapper.hands[side].target == u.mapper.hands[side].target
            && !r.output.targetValid[side])
      && u.buttons == ForgetPresses(t.buttons, t.vr) && r.gear == u.buttons.gear
      && u.flags.resetPending == (if r.inputsFresh then t.flags.resetPending else c.autoReset)
  {
    assert MustHold(c, Started(c, t, now), now);
  }

  lemma HoldTickKeeps(c: Config, h: History, now: Double)
    requires c.Valid() && Ready(h.now) && Kept(c, h) && MustHold(c, h.now, now)
    ensures MapperTold(c, h.ticks, RecordOf(c, h.now, now))
    ensures Kept(c, History(Tick(c, h.now, now), h.ticks + [RecordOf(c, h.now, now)]))
  {
    var r := RecordOf(c, h.now, now);
    HoldTick(c, h.now, now);
    HoldTold(c, h, now, r, Tick(c, h.now, now));
  }

  lemma HoldTold(c: Config, h: History, now: Double, r: Record, u: Teleop)
    requires c.Valid() && Kept(c, h) && r.Shaped() && u.Shaped() && r.output.safeHold
    requires r.mode == h.now.mapper.mode == u.mapper.mode && u.buttons == ForgetPresses(h.now.buttons, h.now.vr)
    requires forall side: Side ::
      && r.output.target[side] == h.now.mapper.hands[side].target == u.mapper.hands[side].target
      && !r.output.targetValid[side]
    requires u.flags.resetPending == if r.inputsFresh then h.now.flags.resetPending else c.autoReset
    ensures MapperTold(c, h.ticks, r) && Kept(c, History(u, h.ticks + [r]))
  {
    PendingNext(c, h.ticks, r);
    forall w: Which ensures Remembers(c, h.ticks + [r], w, PressOf(u.buttons, w)) {
      HoldForgets(c, h.ticks, r, w);
    }
  }

  lemma UpdatedOrKept(c: Config, t: Teleop, now: Double, side: Side)
    requires c.Valid() && t.Shaped() && !ArmFresh(c, t.arms, now, side)
    ensures UpdateTargets(c, t, now).0.hands[side].target == t.mapper.hands[side].target
  {}

  /** A running tick. */
  lemma RunTick(c: Config, t: Teleop, now: Double)
    requires c.Valid() && Ready(t) && !MustHold(c, t, now)
    ensures var u, r, m := Tick(c, t, now), RecordOf(c, t, now), MapperAtUpdate(c, t, now.v);
      && !r.output.safeHold && r.recovering == t.flags.recovery && Shown(t.vr, r) && r.at == now && now.Finite?
      && r.mode == m.mode == u.mapper.mode
      && u.buttons == UpdatePresses(c, Resumed(t.buttons, t.vr, r.recovering), t.vr, now.v).0 && r.gear == u.buttons.gear
      && !u.flags.resetPending
  {
    RunTickMapper(c, t, now);
    TickHold(c, t, now);
    RunTickButtons(c, t, now);
    UpdateTargetsMode(c, ProcessButtons(c, LeaveSafeHold(c, Started(c, t, now)), now.v), now);
  }

  lemma UpdateTargetsMode(c: Config, t: Teleop, now: Double)
    requires c.Valid() && t.Shaped()
    ensures UpdateTargets(c, t, now).0.mode == t.mapper.mode
  {}

  lemma RunTickButtons(c: Config, t: Teleop, now: Double)
    requires c.Valid() && Ready(t) && !MustHold(c, t, now)
    ensures var u := Tick(c, t, now);
      && u.buttons == UpdatePresses(c, Resumed(t.buttons, t.vr, t.flags.recovery), t.vr, now.v).0
      && !u.flags.resetPending
  {
    assert !MustHold(c, Started(c, t, now), now);
  }

  lemma RunTickTarget(c: Config, t: Teleop, now: Double, side: Side)
    requires c.Valid() && Ready(t) && !MustHold(c, t, now)
    ensures var u, r, m := Tick(c, t, now), RecordOf(c, t, now), MapperAtUpdate(c, t, now.v);
      && r.output.target[side] == u.mapper.hands[side].target
      && (!r.output.targetValid[side] ==> r.output.target[side] == m.hands[side].target)
      && r.held[side] == m.hands[side].clutchActive
  {
    RunTickHand(c, t, now, side);
    RunTickMapper(c, t, now);
    if ArmFresh(c, t.arms, now, side) {
      var m := MapperAtUpdate(c, t, now.v);
      InvalidStays(c, m.hands[side], m.mode, side, t.vr.joys[side].value.grip, Tick(c, t, now).mapper.hands[side],
                   RecordOf(c, t, now));
    } else {
      UpdatedOrKept(c, ProcessButtons(c, LeaveSafeHold(c, Started(c, t, now)), now.v), now, side);
    }
  }

  /** What a running tick in state `t` leaves in the state and in its record. */
  ghost predicate RanAs(c: Config, t: Teleop, r: Record, u: Teleop)
    requires c.Valid() && t.Shaped()
  {
    && r.Shaped() && u.Shaped() && !r.output.safeHold && r.at.Finite?
    && r.recovering == t.flags.recovery && Shown(t.vr, r) && !u.flags.resetPending
    && u.buttons == UpdatePresses(c, Resumed(t.buttons, t.vr, r.recovering), t.vr, r.at.v).0
    && var m := MapperAtUpdate(c, t, r.at.v);
    && r.mode == m.mode == u.mapper.mode
    && forall side: Side ::
         && r.output.target[side] == u.mapper.hands[side].target
         && (!r.output.targetValid[side] ==> r.output.target[side] == m.hands[side].target)
         && r.held[side] == m.hands[side].clutchActive
  }

  lemma RunTickRan(c: Config, t: Teleop, now: Double)
    requires c.Valid() && Ready(t) && !MustHold(c, t, now)
    ensures RanAs(c, t, RecordOf(c, t, now), Tick(c, t, now))
  {
    RunTick(c, t, now);
    RunTickTarget(c, t, now, 0);
    RunTickTarget(c, t, now, 1);
  }

  lemma RunTold(c: Config, h: History, r: Record, u: Teleop)
    requires c.Valid() && Kept(c, h) && RanAs(c, h.now, r, u)
    ensures MapperTold(c, h.ticks, r) && Kept(c, History(u, h.ticks + [r]))
  {
    AtUpdate(c, h.now, h.ticks, r);
    PressesFire(c, h.ticks, h.now.buttons, h.now.vr, r);
    PendingNext(c, h.ticks, r);
  }

  lemma RunTickKeeps(c: Config, h: History, now: Double)
    requires c.Valid() && Ready(h.now) && Kept(c, h) && !MustHold(c, h.now, now)
    ensures MapperTold(c, h.ticks, RecordOf(c, h.now, now))
    ensures Kept(c, History(Tick(c, h.now, now), h.ticks + [RecordOf(c, h.now, now)]))
  {
    RunTickRan(c, h.now, now);
    RunTold(c, h, RecordOf(c, h.now, now), Tick(c, h.now, now));
  }

  // ----- every call -----

  lemma FrameKeepsButtons(t: Teleop, f: Frame, at: Double)
    requires t.Shaped() && f.Shaped()
    ensures var u := UpdateVrFrame(t, f, at);
      && u.mapper.mode == t.mapper.mode && (forall side: Side :: u.mapper.hands[side].target == t.mapper.hands[side].target)
      && u.buttons == t.buttons.(sticks := u.buttons.sticks) && u.flags.resetPending == t.flags.resetPending
  {}

  lemma SamePressesRemember(c: Config, ticks: seq<Record>, b: Buttons, d: Buttons)
    requires AllRemembered(c, ticks, b) && d == b.(sticks := d.sticks)
    ensures AllRemembered(c, ticks, d)
  {
    forall w: Which ensures Remembers(c, ticks, w, PressOf(d, w)) {
      assert PressOf(d, w) == PressOf(b, w);
    }
  }

  lemma CallKeepsButtons(c: Config, h: History, call: Call)
    requires c.Valid() && Ready(h.now) && call.Shaped() && Kept(c, h)
    ensures Kept(c, Next(c, h, call))
  {
    CallKeepsReady(c, h.now, call);
    match call
    case VrFrame(frame, at) =>
      FrameKeepsButtons(h.now, frame, at);
      SamePressesRemember(c, h.ticks, h.now.buttons, UpdateVrFrame(h.now, frame, at).buttons);
    case ClearVrInput => SamePressesRemember(c, h.ticks, h.now.buttons, ClearInput(h.now).buttons);
    case TickAt(now) =>
      if MustHold(c, h.now, now) {
        HoldTickKeeps(c, h, now);
      } else {
        RunTickKeeps(c, h, now);
      }
    case _ =>
  }

  lemma NothingPressed(c: Config)
    requires c.Valid()
    ensures Kept(c, History(Initial(c), []))
  {}

  lemma ButtonsNext(c: Config, calls: seq<Call>, last: Call)
    requires c.Valid() && AllCallsShaped(calls) && last.Shaped() && Kept(c, After(c, calls))
    ensures AllCallsShaped(calls + [last]) && Kept(c, After(c, calls + [last]))
  {
    CallKeepsButtons(c, After(c, calls), last);
    assert (calls + [last])[..|calls|] == calls;
  }

  lemma {:induction false} RunKeepsButtons(c: Config, calls: seq<Call>)
    requires c.Valid() && AllCallsShaped(calls)
    ensures Kept(c, After(c, calls))
    decreases |calls|
  {
    if calls == [] {
      NothingPressed(c);
    } else {
      var init, last := calls[..|calls| - 1], calls[|calls| - 1];
      RunKeepsButtons(c, init);
      ButtonsNext(c, init, last);
      assert init + [last] == calls;
    }
  }

  // ----- the speed gear -----

  ghost function StickMark(): Call -> bool {
    (call: Call) => call.TickAt? || (Accepted(call) && !Shows(call, 1))
  }

  /** The right stick's button was pressed at the last tick, and the hand has been shown ever since. */
  ghost predicate StillPressed(calls: seq<Call>, ticks: seq<Record>) {
    var n := Latest(calls, StickMark());
    && ticks != [] && var last := ticks[|ticks| - 1];
    && |last.sticks| == 2 && last.sticks[1].joystick && n.Some? && calls[n.value].TickAt?
  }

  ghost function LastGear(c: Config, ticks: seq<Record>): nat {
    if ticks == [] then c.startGear else ticks[|ticks| - 1].gear
  }

  /** A new press of the right stick's button shifts up, after the third gear to the first. */
  ghost predicate GearTold(c: Config, before: seq<Call>, ticks: seq<Record>, r: Record) {
    && |r.sticks| == 2
    && r.gear ==
         if !r.output.safeHold && !r.recovering && r.sticks[1].joystick && !StillPressed(before, ticks)
         then (LastGear(c, ticks) + 1) % 3 else LastGear(c, ticks)
  }

  ghost predicate GearKept(c: Config, calls: seq<Call>, h: History) {
    && h.now.Shaped() && h.now.buttons.gear == LastGear(c, h.ticks)
    && (!h.now.flags.recovery ==> (h.now.buttons.sticks[1] <==> StillPressed(calls, h.ticks)))
  }

  lemma FrameKeepsGear(t: Teleop, f: Frame, at: Double)
    requires t.Shaped() && f.Shaped()
    ensures var u, call := UpdateVrFrame(t, f, at), VrFrame(f, at);
      && u.buttons.gear == t.buttons.gear
      && (!u.flags.recovery ==>
            && !t.flags.recovery && Accepted(call)
            && u.buttons.sticks[1] == (t.buttons.sticks[1] && Shows(call, 1)))
  {}

  lemma TickGear(c: Config, t: Teleop, now: Double)
    requires c.Valid() && Ready(t)
    ensures var u, r := Tick(c, t, now), RecordOf(c, t, now); var pressed := t.vr.joys[1].value.joystick;
      && r.gear == u.buttons.gear && r.recovering == t.flags.recovery && Shown(t.vr, r)
      && u.buttons.sticks[1] == pressed
      && r.gear ==
           if !r.output.safeHold && !t.flags.recovery && pressed && !t.buttons.sticks[1]
           then (t.buttons.gear + 1) % 3 else t.buttons.gear
  {
    TickHold(c, t, now);
    if MustHold(c, t, now) {
      HoldTick(c, t, now);
    } else {
      RunTick(c, t, now);
    }
  }

  /** What a tick does to stick and gear, told of its record. */
  ghost predicate GearOf(t: Teleop, u: Teleop, r: Record)
    requires t.Shaped() && u.Shaped()
  {
    && r.Shaped() && Shown(t.vr, r) && r.recovering == t.flags.recovery && r.gear == u.buttons.gear
    && u.buttons.sticks[1] == r.sticks[1].joystick
    && r.gear ==
         if !r.output.safeHold && !r.recovering && r.sticks[1].joystick && !t.buttons.sticks[1]
         then (t.buttons.gear + 1) % 3 else t.buttons.gear
  }

  lemma TickGearOf(c: Config, t: Teleop, now: Double)
    requires c.Valid() && Ready(t)
    ensures GearOf(t, Tick(c, t, now), RecordOf(c, t, now))
  {
    TickGear(c, t, now);
  }

  lemma GearIsTold(c: Config, calls: seq<Call>, h: History, now: Double, u: Teleop, r: Record)
    requires GearKept(c, calls, h) && u.Shaped() && GearOf(h.now, u, r)
    ensures GearTold(c, calls, h.ticks, r) && GearKept(c, calls + [TickAt(now)], History(u, h.ticks + [r]))
  {
    LatestNext(calls, TickAt(now), StickMark());
  }

  lemma TickKeepsGear(c: Config, calls: seq<Call>, h: History, now: Double)
    requires c.Valid() && Ready(h.now) && GearKept(c, calls, h)
    ensures GearTold(c, calls, h.ticks, RecordOf(c, h.now, now))
    ensures GearKept(c, calls + [TickAt(now)], History(Tick(c, h.now, now), h.ticks + [RecordOf(c, h.now, now)]))
  {
    TickGearOf(c, h.now, now);
    GearIsTold(c, calls, h, now, Tick(c, h.now, now), RecordOf(c, h.now, now));
  }

  lemma CallKeepsGear(c: Config, calls: seq<Call>, h: History, call: Call)
    requires c.Valid() && Ready(h.now) && call.Shaped() && GearKept(c, calls, h)
    ensures GearKept(c, calls + [call], Next(c, h, call))
  {
    LatestNext(calls, call, StickMark());
    match call
    case VrFrame(frame, at) => FrameKeepsGear(h.now, frame, at);
    case TickAt(now) => TickKeepsGear(c, calls, h, now);
    case _ =>
  }

  lemma NoGearYet(c: Config)
    requires c.Valid()
    ensures GearKept(c, [], History(Initial(c), []))
  {}

  lemma GearNext(c: Config, calls: seq<Call>, last: Call)
    requires c.Valid() && AllCallsShaped(calls) && last.Shaped() && GearKept(c, calls, After(c, calls))
    ensures AllCallsShaped(calls + [last]) && GearKept(c, calls + [last], After(c, calls + [last]))
  {
    CallKeepsGear(c, calls, After(c, calls), last);
    assert (calls + [last])[..|calls|] == calls;
  }

  lemma {:induction false} RunKeepsGear(c: Config, calls: seq<Call>)
    requires c.Valid() && AllCallsShaped(calls)
    ensures GearKept(c, calls, After(c, calls))
    decreases |calls|
  {
    if calls == [] {
      NoGearYet(c);
    } else {
      var init, last := calls[..|calls| - 1], calls[|calls| - 1];
      RunKeepsGear(c, init);
      GearNext(c, init, last);
      assert init + [last] == calls;
    }
  }

  // ----- main result -----

  ghost predicate ButtonsTold(c: Config, before: seq<Call>, ticks: seq<Record>, r: Record)
    requires c.Valid()
  {
    && AllShaped(ticks) && MapperTold(c, ticks, r) && GearTold(c, before, ticks, r)
    && r.sticks == [Stick(before, 0), Stick(before, 1)]
    && (r.recovering <==> Recovering(ticks, before))
  }

  ghost function ButtonsClaim(c: Config): Claim
    requires c.Valid()
  {
    (before, now, ticks, r) => c.Valid() && ButtonsTold(c, before, ticks, r)
  }

  lemma TickTold(c: Config, h: History, now: Double)
    requires c.Valid() && Ready(h.now) && Kept(c, h)
    ensures MapperTold(c, h.ticks, RecordOf(c, h.now, now))
  {
    if MustHold(c, h.now, now) {
      HoldTickKeeps(c, h, now);
    } else {
      RunTickKeeps(c, h, now);
    }
  }

  lemma RecordShows(c: Config, t: Teleop, now: Double)
    requires c.Valid() && Ready(t)
    ensures var r := RecordOf(c, t, now); Shown(t.vr, r) && r.recovering == t.flags.recovery
  {}

  lemma CallsTellButtons(c: Config, before: seq<Call>, now: Double)
    requires c.Valid() && AllCallsShaped(before)
    ensures ButtonsTold(c, before, After(c, before).ticks, RecordOf(c, After(c, before).now, now))
  {
    var h := After(c, before);
    StateIsTold(c, before);
    RunKeepsButtons(c, before);
    RunKeepsGear(c, before);
    RecoveryIff(c, before);
    TickTold(c, h, now);
    TickKeepsGear(c, before, h, now);
    RecordShows(c, h.now, now);
    StickIsTold(before, h.now.vr, 0);
    StickIsTold(before, h.now.vr, 1);
  }

  /** At every tick of every run: mode, resets, idle targets and gear are what the buttons of the frames
      passed in, and the times of the ticks, make of them. */
  lemma ButtonsDecide(c: Config, calls: seq<Call>, k: nat)
    requires c.Valid() && AllCallsShaped(calls) && k < |After(c, calls).ticks|
    ensures |Ticks(calls)| == |After(c, calls).ticks|
    ensures var ticks := After(c, calls).ticks; ButtonsTold(c, Before(calls, k), ticks[..k], ticks[k])
  {
    forall before, now | AllCallsShaped(before) ensures Holds(c, ButtonsClaim(c), before, now) {
      CallsTellButtons(c, before, now);
    }
    CountTicks(c, calls);
    EveryTick(c, ButtonsClaim(c), calls, k);
  }
}
