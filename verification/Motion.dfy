/** How far the arms can move after an enable: the positions in the enabled frames that `write`
    queues start at the measured hold and stay within velocity times time of it. */
module Motion {
  import opened CommandMailbox
  import opened Doubles
  import opened CommandSafety
  import opened ArmPowerOn
  import opened HardwareModel
  import opened HardwareSteps
  import opened PowerTrace

  // ----- reading the log -----

  /** An enabled frame queued by `write`. */
  ghost predicate Drives(e: Event) {
    e.Queued? && e.byWrite && e.flag == ACTIVE_CONTROL_FLAG
  }

  /** The first frame of the unbroken series of driving frames that the log ends in. */
  ghost function RunHead(log: seq<Event>): (r: Option<nat>)
    ensures r.Some? ==> r.value < |log| && Drives(log[r.value])
  {
    if log == [] then None
    else
      var init, last := log[..|log| - 1], log[|log| - 1];
      if Drives(last) then if RunHead(init).Some? then RunHead(init) else Some(|init|)
      else if IsFrame(last) then None
      else RunHead(init)
  }

  /** The measured position most recently adopted as the hold. */
  ghost function LastHeld(log: seq<Event>): Option<seq<Double>> {
    if log == [] then None
    else if log[|log| - 1].Held? then Some(log[|log| - 1].position)
    else LastHeld(log[..|log| - 1])
  }

  /** The summed periods of all `write` calls. */
  ghost function Waited(log: seq<Event>): real {
    if log == [] then 0.0
    else Waited(log[..|log| - 1]) + if log[|log| - 1].Elapsed? then log[|log| - 1].seconds else 0.0
  }

  lemma Appended(log: seq<Event>, e: Event)
    ensures RunHead(log + [e]) ==
      (if Drives(e) then if RunHead(log).Some? then RunHead(log) else Some(|log|)
       else if IsFrame(e) then None else RunHead(log))
    ensures LastHeld(log + [e]) == (if e.Held? then Some(e.position) else LastHeld(log))
    ensures Waited(log + [e]) == Waited(log) + if e.Elapsed? then e.seconds else 0.0
  {
    assert (log + [e])[..|log|] == log;
  }

  // ----- nearness -----

  /** Two positions no further apart than some number of seconds of motion. The invariant below
      only needs its laws; the products of velocity and time stay out of it. */
  type Nearness = (seq<Double>, seq<Double>, real) -> bool

  ghost predicate Within(position: seq<Double>, start: seq<Double>, velocity: seq<Double>, seconds: real) {
    && |position| == |start| == |velocity| == JOINTS
    && forall j | 0 <= j < JOINTS ::
         && position[j].Finite? && start[j].Finite? && velocity[j].Finite?
         && Abs(position[j].v - start[j].v) <= velocity[j].v * seconds
  }

  ghost function Near(velocity: seq<Double>): Nearness {
    (p, q, seconds) => Within(p, q, velocity, seconds)
  }

  ghost predicate NearItself(near: Nearness) {
    forall p: seq<Double> :: |p| == JOINTS && AllFinite(p) ==> near(p, p, 0.0)
  }

  ghost predicate NearAdds(near: Nearness) {
    forall p, q, r, a, b :: near(p, q, a) && near(q, r, b) ==> near(p, r, a + b)
  }

  ghost predicate LimitedIsNear(near: Nearness, limits: Limits)
    requires limits.Shaped()
  {
    forall command: Command, previous: Command, elapsed: real ::
      command.Shaped() && previous.Shaped() && StepLimitOk(command, previous, limits, Finite(elapsed)) ==>
        near(LimitedCommand(command, previous, limits, elapsed).position, previous.position, elapsed)
  }

  ghost predicate Laws(near: Nearness, limits: Limits)
    requires limits.Shaped()
  {
    NearItself(near) && NearAdds(near) && LimitedIsNear(near, limits)
  }

  lemma WithinAdds(
    p: seq<Double>, q: seq<Double>, start: seq<Double>, velocity: seq<Double>, a: real, b: real)
    requires Within(p, q, velocity, a) && Within(q, start, velocity, b)
    ensures Within(p, start, velocity, a + b)
  {
    forall j | 0 <= j < JOINTS ensures Abs(p[j].v - start[j].v) <= velocity[j].v * (a + b) {
      assert Abs(p[j].v - q[j].v) <= velocity[j].v * a;
      assert Abs(q[j].v - start[j].v) <= velocity[j].v * b;
      assert velocity[j].v * (a + b) == velocity[j].v * a + velocity[j].v * b;
    }
  }

  lemma LimitedIsWithin(command: Command, previous: Command, limits: Limits, elapsed: real)
    requires command.Shaped() && previous.Shaped() && limits.Shaped()
    requires StepLimitOk(command, previous, limits, Finite(elapsed))
    ensures Within(LimitedCommand(command, previous, limits, elapsed).position, previous.position,
                   limits.velocity, elapsed)
  {
    forall j | 0 <= j < JOINTS
      ensures var p := LimitedCommand(command, previous, limits, elapsed).position;
        && p[j].Finite? && previous.position[j].Finite? && limits.velocity[j].Finite?
        && Abs(p[j].v - previous.position[j].v) <= limits.velocity[j].v * elapsed
    {
      LimitedStepStaysBetween(command.position[j], previous.position[j], limits.velocity[j], elapsed);
    }
  }

  lemma NearHasLaws(limits: Limits)
    requires limits.Shaped() && AllFinite(limits.velocity)
    ensures Laws(Near(limits.velocity), limits)
  {
    var velocity := limits.velocity;
    forall p, q, r, a, b | Within(p, q, velocity, a) && Within(q, r, velocity, b)
      ensures Within(p, r, velocity, a + b)
    {
      WithinAdds(p, q, r, velocity, a, b);
    }
    forall command: Command, previous: Command, elapsed: real |
      command.Shaped() && previous.Shaped() && StepLimitOk(command, previous, limits, Finite(elapsed))
      ensures Within(LimitedCommand(command, previous, limits, elapsed).position, previous.position, velocity, elapsed)
    {
      LimitedIsWithin(command, previous, limits, elapsed);
    }
  }

  // ----- what every driving frame must satisfy -----

  ghost predicate MotionOk(near: Nearness, log: seq<Event>, e: Event) {
    && (e.Queued? && e.byWrite && e.hold ==> Drives(e))
    && (Drives(e) ==>
          && e.frame.Shaped()
          && match RunHead(log)
             case None =>
               e.hold && LastHeld(log) == Some(e.frame.position) && e.frame.baseVelocity == Zeros(BASE)
             case Some(h) =>
               && !e.hold && log[h].frame.Shaped()
               && near(e.frame.position, log[h].frame.position, Waited(log) - Waited(log[..h])))
  }

  ghost predicate MotionTrace(near: Nearness, log: seq<Event>) {
    log != [] ==>
      var init, last := log[..|log| - 1], log[|log| - 1];
      MotionTrace(near, init) && MotionOk(near, init, last)
  }

  lemma {:induction false} TraceAt(near: Nearness, log: seq<Event>, k: nat)
    requires MotionTrace(near, log) && k < |log|
    ensures MotionOk(near, log[..k], log[k])
    decreases |log|
  {
    if k < |log| - 1 {
      TraceAt(near, log[..|log| - 1], k);
      assert log[..|log| - 1][..k] == log[..k];
    }
  }

  lemma TraceAppend(near: Nearness, log: seq<Event>, e: Event)
    requires MotionTrace(near, log) && MotionOk(near, log, e)
    ensures MotionTrace(near, log + [e])
  {
    assert (log + [e])[..|log|] == log;
  }

  lemma {:induction false} QuietKeepsTrace(near: Nearness, log: seq<Event>, later: seq<Event>)
    requires MotionTrace(near, log) && Quiet(log, later)
    ensures MotionTrace(near, later)
    decreases |later|
  {
    if |later| > |log| {
      var init := later[..|later| - 1];
      assert init[..|log|] == log;
      QuietKeepsTrace(near, log, init);
    } else {
      assert later == log;
    }
  }

  // ----- the invariant -----

  /** The last sent position, and how much had been waited when it was sent. */
  ghost predicate Tracks(near: Nearness, log: seq<Event>, lastSent: Command, sentAt: real, driving: bool) {
    && lastSent.Shaped()
    && (RunHead(log).Some? <==> driving)
    && (driving ==>
          var h := RunHead(log).value;
          && log[h].frame.Shaped()
          && near(lastSent.position, log[h].frame.position, sentAt - Waited(log[..h])))
  }

  ghost predicate Inv(near: Nearness, s: Hardware) {
    && MotionTrace(near, s.log)
    && (s.active ==>
          && Tracks(near, s.log, s.lastSent, Waited(s.log) - s.elapsed, s.arm.stage == Enabled && s.enableSent)
          && s.safeHold.Shaped() && AllFinite(s.safeHold.position)
          && LastHeld(s.log) == Some(s.safeHold.position))
  }

  /** Events other than frames. */
  lemma NeutralAppend(near: Nearness, log: seq<Event>, e: Event, lastSent: Command, sentAt: real, driving: bool)
    requires MotionTrace(near, log) && Tracks(near, log, lastSent, sentAt, driving)
    requires !IsFrame(e)
    ensures MotionTrace(near, log + [e])
    ensures Tracks(near, log + [e], lastSent, sentAt, driving)
  {
    Appended(log, e);
    TraceAppend(near, log, e);
    if driving {
      var h := RunHead(log).value;
      assert (log + [e])[..h] == log[..h];
    }
  }

  lemma HoldAppend(near: Nearness, log: seq<Event>, e: Event)
    requires MotionTrace(near, log) && MotionOk(near, log, e)
    requires Drives(e) && RunHead(log).None? && e.frame.Shaped() && AllFinite(e.frame.position)
    requires NearItself(near)
    ensures MotionTrace(near, log + [e]) && Tracks(near, log + [e], e.frame, Waited(log), true)
  {
    Appended(log, e);
    TraceAppend(near, log, e);
    assert (log + [e])[..|log|] == log;
    assert near(e.frame.position, e.frame.position, 0.0);
  }

  lemma DriveAppend(near: Nearness, log: seq<Event>, e: Event, lastSent: Command, elapsed: real)
    requires MotionTrace(near, log) && Tracks(near, log, lastSent, Waited(log) - elapsed, true)
    requires Drives(e) && !e.hold && e.frame.Shaped()
    requires near(e.frame.position, lastSent.position, elapsed) && NearAdds(near)
    ensures MotionTrace(near, log + [e]) && Tracks(near, log + [e], e.frame, Waited(log), true)
  {
    Appended(log, e);
    var h := RunHead(log).value;
    assert (log + [e])[..h] == log[..h];
    var waited := Waited(log) - elapsed - Waited(log[..h]);
    assert near(e.frame.position, log[h].frame.position, elapsed + waited);
    TraceAppend(near, log, e);
  }

  lemma OtherFrameAppend(near: Nearness, log: seq<Event>, e: Event)
    requires MotionTrace(near, log) && e.Queued? && !Drives(e) && !(e.byWrite && e.hold) && e.frame.Shaped()
    ensures MotionTrace(near, log + [e]) && Tracks(near, log + [e], e.frame, Waited(log), false)
  {
    Appended(log, e);
    TraceAppend(near, log, e);
  }

  // ----- every single event keeps it -----

  /** `log` is a good continuation in which `frame` was sent last. */
  ghost predicate SentIn(near: Nearness, log: seq<Event>, frame: Command, driving: bool, held: Option<seq<Double>>) {
    MotionTrace(near, log) && Tracks(near, log, frame, Waited(log), driving) && LastHeld(log) == held
  }

  lemma PowerOffSent(near: Nearness, log: seq<Event>, e: Event, lastSent: Command, sentAt: real, driving: bool)
    requires MotionTrace(near, log) && Tracks(near, log, lastSent, sentAt, driving)
    requires e.Queued? && !Drives(e) && !(e.byWrite && e.hold) && e.frame.Shaped()
    ensures SentIn(near, log + [SequenceReset] + [e], e.frame, false, LastHeld(log))
  {
    NeutralAppend(near, log, SequenceReset, lastSent, sentAt, driving);
    Appended(log, SequenceReset);
    PrechargeSent(near, log + [SequenceReset], e);
  }

  lemma PrechargeSent(near: Nearness, log: seq<Event>, e: Event)
    requires MotionTrace(near, log) && e.Queued? && !Drives(e) && !(e.byWrite && e.hold) && e.frame.Shaped()
    ensures SentIn(near, log + [e], e.frame, false, LastHeld(log))
  {
    OtherFrameAppend(near, log, e);
    Appended(log, e);
  }

  lemma SendKeepsLog(c: Config, near: Nearness, s: Hardware, i: WriteInput)
    requires c.Shaped() && s.Shaped() && s.active && Sends(c, s, i) && Inv(near, s) && Laws(near, c.limits)
    ensures var e := Sent(c, s, i); var kind := Kind(c, s, i);
      SentIn(near, s.log + (if kind == PowerOffFrame then [SequenceReset] else []) + [e], e.frame,
             kind == EnabledFrame, LastHeld(s.log))
  {
    var e := Sent(c, s, i);
    if Kind(c, s, i) == PowerOffFrame {
      PowerOffSent(near, s.log, e, s.lastSent, Waited(s.log) - s.elapsed, s.arm.stage == Enabled && s.enableSent);
    } else {
      assert s.log + [] == s.log;
      if Kind(c, s, i) == PrechargeFrame {
        PrechargeSent(near, s.log, e);
      } else {
        EnabledSendKeepsInv(c, near, s, i);
        Appended(s.log, e);
      }
    }
  }

  lemma SendKeepsInv(c: Config, near: Nearness, s: Hardware, i: WriteInput)
    requires c.Shaped() && s.Shaped() && s.active && Sends(c, s, i) && Inv(near, s) && Laws(near, c.limits)
    ensures Inv(near, WriteFrame(c, s, i))
  {
    SendFacts(c, s, i);
    SendEffects(c, s, i);
    SendKeepsLog(c, near, s, i);
  }

  lemma EnabledSendKeepsInv(c: Config, near: Nearness, s: Hardware, i: WriteInput)
    requires c.Shaped() && s.Shaped() && s.active && Sends(c, s, i) && Inv(near, s) && Laws(near, c.limits)
    requires Kind(c, s, i) == EnabledFrame
    ensures var e := Sent(c, s, i);
      MotionTrace(near, s.log + [e]) && Tracks(near, s.log + [e], e.frame, Waited(s.log), true)
  {
    var e := Sent(c, s, i);
    if IsHold(c, s, i) {
      HoldAppend(near, s.log, e);
    } else {
      assert near(e.frame.position, s.lastSent.position, s.elapsed);
      DriveAppend(near, s.log, e, s.lastSent, s.elapsed);
    }
  }

  lemma SeeKeepsInv(c: Config, near: Nearness, s: Hardware, usable: bool)
    requires c.Shaped() && s.Shaped() && s.active && Inv(near, s)
    ensures Inv(near, SeeFrame(c, s, usable))
  {
    Appended(s.log, Observed(usable));
    NeutralAppend(near, s.log, Observed(usable), s.lastSent, Waited(s.log) - s.elapsed,
                  s.arm.stage == Enabled && s.enableSent);
  }

  lemma WaitKeepsInv(c: Config, near: Nearness, s: Hardware, seconds: real)
    requires c.Shaped() && May(c, s, Wait(seconds)) && Inv(near, s)
    ensures Inv(near, Do(c, s, Wait(seconds)))
  {
    Appended(s.log, Elapsed(seconds));
    NeutralAppend(near, s.log, Elapsed(seconds), s.lastSent, Waited(s.log) - s.elapsed,
                  s.arm.stage == Enabled && s.enableSent);
  }

  lemma StepKeepsInv(c: Config, near: Nearness, s: Hardware, l: Small)
    requires c.Shaped() && May(c, s, l) && Inv(near, s) && Laws(near, c.limits)
    ensures Inv(near, Do(c, s, l))
  {
    match l
    case Note(_, _, _, _, _, _, _) =>
    case See(usable) => SeeKeepsInv(c, near, s, usable);
    case Take(position, feedback, written) => TakeKeepsInv(c, near, s, position, feedback, written);
    case Wait(seconds) => WaitKeepsInv(c, near, s, seconds);
    case Send(i) => SendKeepsInv(c, near, s, i);
    case Stop(to) => QuietKeepsTrace(near, s.log, to.log);
  }

  lemma TakeKeepsInv(c: Config, near: Nearness, s: Hardware, position: seq<Double>, feedback: nat, written: set<nat>)
    requires c.Shaped() && May(c, s, Take(position, feedback, written)) && Inv(near, s)
    ensures Inv(near, Adopt(c, s, position, feedback, written))
  {
    var t := Adopt(c, s, position, feedback, written);
    var driving, sentAt := s.arm.stage == Enabled && s.enableSent, Waited(s.log) - s.elapsed;
    if c.power {
      var measured := Measured(feedback, position, written);
      TwoNeutral(near, s.log, measured, Held(position), s.lastSent, sentAt, driving);
      assert t.log == s.log + [measured] + [Held(position)];
      Appended(s.log + [measured], Held(position));
      Appended(s.log, measured);
    } else {
      NeutralAppend(near, s.log, Held(position), s.lastSent, sentAt, driving);
      assert t.log == s.log + [Held(position)];
      Appended(s.log, Held(position));
    }
  }

  lemma TwoNeutral(
    near: Nearness, log: seq<Event>, e: Event, f: Event, lastSent: Command, sentAt: real, driving: bool)
    requires MotionTrace(near, log) && Tracks(near, log, lastSent, sentAt, driving)
    requires !IsFrame(e) && !IsFrame(f)
    ensures MotionTrace(near, log + [e] + [f])
    ensures Tracks(near, log + [e] + [f], lastSent, sentAt, driving)
  {
    NeutralAppend(near, log, e, lastSent, sentAt, driving);
    NeutralAppend(near, log + [e], f, lastSent, sentAt, driving);
  }

  lemma {:induction false} ChainKeepsInv(c: Config, near: Nearness, s: Hardware, t: Hardware, labels: seq<Small>)
    requires c.Shaped() && Chain(c, s, t, labels) && Inv(near, s) && Laws(near, c.limits)
    ensures Inv(near, t)
    decreases |labels|
  {
    if labels != [] {
      StepKeepsInv(c, near, s, labels[0]);
      ChainKeepsInv(c, near, Do(c, s, labels[0]), t, labels[1..]);
    }
  }

  // ----- the same, by positions in the log -----

  /** Only driving frames were queued from `h` to `k`. */
  ghost predicate OnlyDriving(log: seq<Event>, h: nat, k: nat)
    requires h <= k < |log|
  {
    forall m | h <= m <= k && IsFrame(log[m]) :: Drives(log[m])
  }

  lemma {:induction false} HeadOfRun(near: Nearness, log: seq<Event>, h: nat, k: nat)
    requires MotionTrace(near, log) && h < k < |log|
    requires Drives(log[h]) && log[h].hold && OnlyDriving(log, h, k)
    ensures RunHead(log[..k]) == Some(h)
    decreases k
  {
    assert log[..k][..k - 1] == log[..k - 1];
    if h < k - 1 {
      HeadOfRun(near, log, h, k - 1);
    } else {
      TraceAt(near, log, h);
    }
  }

  /** Every series of driving frames starts with a measured hold, and only then has one. */
  lemma {:induction false} RunStartsWithHold(near: Nearness, log: seq<Event>, k: nat) returns (h: nat)
    requires MotionTrace(near, log) && k < |log| && Drives(log[k])
    ensures h <= k && Drives(log[h]) && log[h].hold && OnlyDriving(log, h, k)
    ensures log[h].frame.Shaped() && log[h].frame.baseVelocity == Zeros(BASE)
    ensures LastHeld(log[..h]) == Some(log[h].frame.position)
    ensures h == k <==> log[k].hold
  {
    TraceAt(near, log, k);
    if RunHead(log[..k]).None? {
      h := k;
    } else {
      h := RunHead(log[..k]).value;
      RunHeadFacts(log[..k]);
      assert log[..k][..h] == log[..h];
      TraceAt(near, log, h);
      assert log[..k][h] == log[h];
      forall m | h <= m <= k && IsFrame(log[m]) ensures Drives(log[m]) {
        if m < k {
          assert log[..k][m] == log[m];
        }
      }
    }
  }

  lemma {:induction false} RunHeadFacts(log: seq<Event>)
    requires RunHead(log).Some?
    ensures var h := RunHead(log).value;
      && RunHead(log[..h]).None?
      && forall m | h <= m < |log| && IsFrame(log[m]) :: Drives(log[m])
    decreases |log|
  {
    var init := log[..|log| - 1];
    var h := RunHead(log).value;
    if RunHead(init).Some? {
      RunHeadFacts(init);
      assert init[..h] == log[..h];
      forall m | h <= m < |log| && IsFrame(log[m]) ensures Drives(log[m]) {
        if m < |init| {
          assert init[m] == log[m];
        }
      }
    } else {
      assert init == log[..h];
    }
  }

  /** Until the series is broken, every joint stays within velocity times waited time of the hold. */
  lemma MotionIsBounded(velocity: seq<Double>, log: seq<Event>, h: nat, k: nat)
    requires MotionTrace(Near(velocity), log) && h < k < |log|
    requires Drives(log[h]) && log[h].hold && Drives(log[k]) && OnlyDriving(log, h, k)
    ensures Within(log[k].frame.position, log[h].frame.position, velocity, Waited(log[..k]) - Waited(log[..h]))
  {
    var near := Near(velocity);
    HeadOfRun(near, log, h, k);
    TraceAt(near, log, k);
    assert log[..k][..h] == log[..h] && log[..k][h] == log[h];
    assert near(log[k].frame.position, log[h].frame.position, Waited(log[..k]) - Waited(log[..h]));
  }

  /** Frame `h` opens the series that frame `k` belongs to: it holds the measured position at rest,
      and until `k` every joint stays within velocity times waited time of it. */
  ghost predicate BoundedFrom(velocity: seq<Double>, log: seq<Event>, h: nat, k: nat) {
    && h <= k < |log| && Drives(log[h]) && log[h].hold && Drives(log[k]) && OnlyDriving(log, h, k)
    && log[h].frame.baseVelocity == Zeros(BASE) && LastHeld(log[..h]) == Some(log[h].frame.position)
    && (h < k ==>
          Within(log[k].frame.position, log[h].frame.position, velocity, Waited(log[..k]) - Waited(log[..h])))
  }

  lemma DrivesAreBounded(velocity: seq<Double>, log: seq<Event>, k: nat) returns (h: nat)
    requires MotionTrace(Near(velocity), log) && k < |log| && Drives(log[k])
    ensures BoundedFrom(velocity, log, h, k)
  {
    h := RunStartsWithHold(Near(velocity), log, k);
    if h < k {
      MotionIsBounded(velocity, log, h, k);
    }
  }
}
