/** The main results about ticks, said of the calls themselves: the frames, poses and readings that
    were passed in, and the times of the ticks. */
module TeleopTicks {
  import opened CommandMailbox
  import opened Doubles
  import opened PoseMapper
  import opened TeleopModel
  import opened TeleopSafety
  import opened TeleopRuns
  import opened TeleopInputs
  import opened Reclutch

  // ----- which call is which tick -----

  /** The positions of the ticks among the calls. */
  ghost function Ticks(calls: seq<Call>): (r: seq<nat>)
    ensures forall k | 0 <= k < |r| :: r[k] < |calls| && calls[r[k]].TickAt?
  {
    if calls == [] then []
    else
      var init := calls[..|calls| - 1];
      if calls[|calls| - 1].TickAt? then Ticks(init) + [|init|] else Ticks(init)
  }

  /** The calls before tick `k`, and the time of the tick. */
  ghost function Before(calls: seq<Call>, k: nat): seq<Call>
    requires k < |Ticks(calls)|
  {
    calls[..Ticks(calls)[k]]
  }

  ghost function TimeOf(calls: seq<Call>, k: nat): Double
    requires k < |Ticks(calls)|
  {
    calls[Ticks(calls)[k]].now
  }

  lemma {:induction false} TicksIncrease(calls: seq<Call>, i: nat, j: nat)
    requires i < j < |Ticks(calls)|
    ensures Ticks(calls)[i] < Ticks(calls)[j]
    decreases |calls|
  {
    var init := calls[..|calls| - 1];
    if j < |Ticks(init)| {
      TicksIncrease(init, i, j);
    }
  }

  /** A statement about a tick: the calls before it, its time, the records before it, and its own. */
  type Claim = (seq<Call>, Double, seq<Record>, Record) -> bool

  ghost predicate Holds(c: Config, P: Claim, before: seq<Call>, now: Double)
    requires c.Valid() && AllCallsShaped(before)
  {
    P(before, now, After(c, before).ticks, RecordOf(c, After(c, before).now, now))
  }

  /** It holds of every tick that could come after any calls. */
  ghost predicate Always(c: Config, P: Claim)
    requires c.Valid()
  {
    forall before, now | AllCallsShaped(before) :: Holds(c, P, before, now)
  }

  ghost predicate ClaimedAt(calls: seq<Call>, ticks: seq<Record>, P: Claim, k: nat)
  {
    k < |Ticks(calls)| == |ticks| && P(Before(calls, k), TimeOf(calls, k), ticks[..k], ticks[k])
  }

  lemma HistoryStep(c: Config, calls: seq<Call>, last: Call)
    requires c.Valid() && AllCallsShaped(calls) && last.Shaped()
    ensures AllCallsShaped(calls + [last])
    ensures After(c, calls + [last]).ticks ==
      if last.TickAt? then After(c, calls).ticks + [RecordOf(c, After(c, calls).now, last.now)]
      else After(c, calls).ticks
  {
    assert (calls + [last])[..|calls|] == calls;
  }

  lemma EarlierClaim(calls: seq<Call>, last: Call, ticks: seq<Record>, later: seq<Record>, P: Claim, k: nat)
    requires ClaimedAt(calls, ticks, P, k) && ticks <= later && |later| == |Ticks(calls + [last])|
    ensures ClaimedAt(calls + [last], later, P, k)
  {
    var all := calls + [last];
    assert all[..|calls|] == calls;
    assert Before(all, k) == Before(calls, k);
    assert later[..k] == ticks[..k];
  }

  lemma LastClaim(calls: seq<Call>, now: Double, ticks: seq<Record>, r: Record, P: Claim)
    requires |ticks| == |Ticks(calls)| && P(calls, now, ticks, r)
    ensures ClaimedAt(calls + [TickAt(now)], ticks + [r], P, |ticks|)
  {
    var all := calls + [TickAt(now)];
    assert all[..|calls|] == calls;
    assert (ticks + [r])[..|ticks|] == ticks;
  }

  lemma TicksNext(calls: seq<Call>, last: Call)
    ensures |Ticks(calls + [last])| == |Ticks(calls)| + if last.TickAt? then 1 else 0
  {
    assert (calls + [last])[..|calls|] == calls;
  }

  lemma NewestClaim(c: Config, P: Claim, calls: seq<Call>, now: Double)
    requires c.Valid() && AllCallsShaped(calls) && Always(c, P)
    ensures AllCallsShaped(calls + [TickAt(now)])
    ensures ClaimedAt(calls + [TickAt(now)], After(c, calls + [TickAt(now)]).ticks, P, |After(c, calls).ticks|)
  {
    HistoryStep(c, calls, TickAt(now));
    CountTicks(c, calls);
    assert Holds(c, P, calls, now);
    LastClaim(calls, now, After(c, calls).ticks, RecordOf(c, After(c, calls).now, now), P);
  }

  lemma OlderClaim(c: Config, P: Claim, calls: seq<Call>, last: Call, k: nat)
    requires c.Valid() && AllCallsShaped(calls) && last.Shaped() && ClaimedAt(calls, After(c, calls).ticks, P, k)
    ensures AllCallsShaped(calls + [last]) && ClaimedAt(calls + [last], After(c, calls + [last]).ticks, P, k)
  {
    HistoryStep(c, calls, last);
    TicksNext(calls, last);
    EarlierClaim(calls, last, After(c, calls).ticks, After(c, calls + [last]).ticks, P, k);
  }

  /** What holds of every possible tick holds of every tick of a run. */
  lemma {:induction false} EveryTick(c: Config, P: Claim, calls: seq<Call>, k: nat)
    requires c.Valid() && AllCallsShaped(calls) && Always(c, P) && k < |Ticks(calls)|
    ensures ClaimedAt(calls, After(c, calls).ticks, P, k)
    decreases |calls|
  {
    var init, last := calls[..|calls| - 1], calls[|calls| - 1];
    assert init + [last] == calls;
    if k < |Ticks(init)| {
      EveryTick(c, P, init, k);
      OlderClaim(c, P, init, last, k);
    } else {
      CountTicks(c, init);
      NewestClaim(c, P, init, last.now);
    }
  }

  lemma {:induction false} CountTicks(c: Config, calls: seq<Call>)
    requires c.Valid() && AllCallsShaped(calls)
    ensures |Ticks(calls)| == |After(c, calls).ticks|
    decreases |calls|
  {
    if calls != [] {
      CountTicks(c, calls[..|calls| - 1]);
    }
  }

  // ----- the watchdog -----

  /** The latest frame was accepted, is young enough, and shows every hand it calls connected. */
  ghost predicate Live(c: Config, calls: seq<Call>, now: Double) {
    var n := Latest(calls, ConcernsVr());
    && n.Some? && var call := calls[n.value];
    && Accepted(call) && call.frame.Shaped() && now.Finite? && 0.0 <= now.v - call.at.v <= c.watchdog
    && forall side: Side :: call.frame.connected[side] ==> Shows(call, side)
  }

  /** A hand that the latest frame shows has its grip pressed. */
  ghost predicate Gripped(calls: seq<Call>, side: Side) {
    var n := Latest(calls, ConcernsVr());
    n.Some? && Shows(calls[n.value], side) && calls[n.value].frame.joys[side].grip
  }

  lemma LiveIffFresh(c: Config, calls: seq<Call>, v: Input, now: Double)
    requires VrTold(calls, v) && AllCallsShaped(calls)
    ensures Live(c, calls, now) <==> AllInputsFresh(c, v, now)
  {
    var n := Latest(calls, ConcernsVr());
    if n.Some? && Accepted(calls[n.value]) {
      assert calls[n.value].Shaped();
      assert Live(c, calls, now) <==>
        && now.Finite? && 0.0 <= now.v - calls[n.value].at.v <= c.watchdog
        && (calls[n.value].frame.connected[0] ==> Shows(calls[n.value], 0))
        && (calls[n.value].frame.connected[1] ==> Shows(calls[n.value], 1));
    }
  }

  lemma GrippedIff(calls: seq<Call>, v: Input, side: Side)
    requires VrTold(calls, v)
    ensures Gripped(calls, side) <==> v.joys[side].value.grip
  {}

  /** `clear_vr_input`, or a frame that is not accepted. */
  ghost predicate Clears(call: Call) {
    call.ClearVrInput? || (call.VrFrame? && !Accepted(call))
  }

  ghost function IsClearing(): Call -> bool {
    (call: Call) => Clears(call) || call.TickAt?
  }

  /** No tick yet, or the last one held, or the input was cleared since. */
  ghost predicate Recovering(ticks: seq<Record>, calls: seq<Call>) {
    var n := Latest(calls, IsClearing());
    n.None? || Clears(calls[n.value]) || (ticks != [] && ticks[|ticks| - 1].output.safeHold)
  }

  lemma RecoveryNext(c: Config, h: History, calls: seq<Call>, call: Call)
    requires c.Valid() && Ready(h.now) && call.Shaped() && (h.now.flags.recovery <==> Recovering(h.ticks, calls))
    ensures Next(c, h, call).now.flags.recovery <==> Recovering(Next(c, h, call).ticks, calls + [call])
  {
    LatestNext(calls, call, IsClearing());
    match call
    case VrFrame(frame, at) => VrFrameSetsRecovery(h.now, frame, at);
    case TickAt(now) => TickSetsRecovery(c, h.now, now);
    case _ =>
  }

  lemma VrFrameSetsRecovery(t: Teleop, f: Frame, at: Double)
    requires t.Shaped() && f.Shaped()
    ensures UpdateVrFrame(t, f, at).flags.recovery == (t.flags.recovery || Clears(VrFrame(f, at)))
  {}

  lemma TickSetsRecovery(c: Config, t: Teleop, now: Double)
    requires c.Valid() && Ready(t)
    ensures var u := Tick(c, t, now); u.flags.recovery == u.output.safeHold == RecordOf(c, t, now).output.safeHold
  {
    assert MustHold(c, Started(c, t, now), now) == MustHold(c, t, now);
  }

  lemma NoTickYet(c: Config)
    requires c.Valid()
    ensures Initial(c).flags.recovery && Recovering([], [])
  {}

  ghost predicate RecoveryKept(calls: seq<Call>, h: History) {
    h.now.flags.recovery <==> Recovering(h.ticks, calls)
  }

  lemma RecoveryStep(c: Config, calls: seq<Call>, last: Call)
    requires c.Valid() && AllCallsShaped(calls) && last.Shaped() && RecoveryKept(calls, After(c, calls))
    ensures AllCallsShaped(calls + [last]) && RecoveryKept(calls + [last], After(c, calls + [last]))
  {
    RecoveryNext(c, After(c, calls), calls, last);
    assert (calls + [last])[..|calls|] == calls;
  }

  lemma {:induction false} RecoveryIff(c: Config, calls: seq<Call>)
    requires c.Valid() && AllCallsShaped(calls)
    ensures RecoveryKept(calls, After(c, calls))
    decreases |calls|
  {
    if calls == [] {
      NoTickYet(c);
    } else {
      var init, last := calls[..|calls| - 1], calls[|calls| - 1];
      RecoveryIff(c, init);
      RecoveryStep(c, init, last);
      assert init + [last] == calls;
    }
  }

  /** A tick is in SAFE_HOLD exactly when the input is not live, or a grip is pressed while the manager
      still recovers. */
  ghost predicate HoldsExactly(c: Config, before: seq<Call>, now: Double, ticks: seq<Record>, r: Record) {
    r.output.safeHold <==>
      !Live(c, before, now) || (Recovering(ticks, before) && (Gripped(before, 0) || Gripped(before, 1)))
  }

  ghost function HoldClaim(c: Config): Claim {
    (before, now, ticks, r) => HoldsExactly(c, before, now, ticks, r)
  }

  lemma TickHoldsExactly(c: Config, before: seq<Call>, now: Double)
    requires c.Valid() && AllCallsShaped(before)
    ensures HoldsExactly(c, before, now, After(c, before).ticks, RecordOf(c, After(c, before).now, now))
  {
    var t := After(c, before).now;
    StateIsTold(c, before);
    RecoveryIff(c, before);
    LiveIffFresh(c, before, t.vr, now);
    GrippedIff(before, t.vr, 0);
    GrippedIff(before, t.vr, 1);
    TickHold(c, t, now);
  }

  lemma SafeHoldIff(c: Config, calls: seq<Call>, k: nat)
    requires c.Valid() && AllCallsShaped(calls) && k < |After(c, calls).ticks|
    ensures |Ticks(calls)| == |After(c, calls).ticks|
    ensures var ticks := After(c, calls).ticks;
      HoldsExactly(c, Before(calls, k), TimeOf(calls, k), ticks[..k], ticks[k])
  {
    forall before, now | AllCallsShaped(before) ensures Holds(c, HoldClaim(c), before, now) {
      TickHoldsExactly(c, before, now);
    }
    CountTicks(c, calls);
    EveryTick(c, HoldClaim(c), calls, k);
  }
}
