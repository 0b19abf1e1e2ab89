/** The control flags of the queued frames, over every run: arms are only enabled out of a
    precharge that was earned by consecutive usable feedback. */
module PowerTrace {
  import opened Crc16
  import opened CommandMailbox
  import opened Doubles
  import opened CommandSafety
  import opened ArmPowerOn
  import opened HardwareModel
  import opened HardwareSteps

  // ----- reading the log -----

  ghost predicate Breaks(e: Event) {
    e.SequenceReset? || (e.Observed? && !e.usable)
  }

  ghost predicate IsPrecharge(e: Event) {
    e.Queued? && e.flag == ARMS_DISABLED_CONTROL_FLAG
  }

  /** Usable observations since the last unusable one or the last reset. */
  ghost function ReadyRun(log: seq<Event>): nat {
    if log == [] then 0
    else
      var init, last := log[..|log| - 1], log[|log| - 1];
      if Breaks(last) then 0
      else if last.Observed? then ReadyRun(init) + 1 else ReadyRun(init)
  }

  /** The latest observation since the last reset found the arms usable. */
  ghost predicate LatestUsable(log: seq<Event>) {
    log != [] &&
      var last := log[|log| - 1];
      if last.Observed? then last.usable else !last.SequenceReset? && LatestUsable(log[..|log| - 1])
  }

  /** The first precharge frame queued after that run had become long enough. */
  ghost function FirstPrecharge(log: seq<Event>, required: nat): Option<nat> {
    if log == [] then None
    else
      var init, last := log[..|log| - 1], log[|log| - 1];
      if Breaks(last) then None
      else if FirstPrecharge(init, required).Some? then FirstPrecharge(init, required)
      else if IsPrecharge(last) && ReadyRun(init) >= required then Some(|init|)
      else None
  }

  ghost predicate IsFrame(e: Event) { e.Queued? || e.PowerOffQueued? }

  ghost function Flag(e: Event): Byte
    requires IsFrame(e)
  {
    if e.Queued? then e.flag else POWER_OFF_CONTROL_FLAG
  }

  /** The most recent frame in the log. */
  ghost function NewestFrame(log: seq<Event>): (r: Option<nat>)
    ensures r.Some? ==> r.value < |log| && IsFrame(log[r.value])
  {
    if log == [] then None
    else if IsFrame(log[|log| - 1]) then Some(|log| - 1)
    else NewestFrame(log[..|log| - 1])
  }

  ghost function LastFlag(log: seq<Event>): Option<Byte> {
    var q := NewestFrame(log);
    if q.Some? then Some(Flag(log[q.value])) else None
  }

  // ----- what every queued frame must satisfy -----

  /** Enabling now is backed by the log: enough usable observations in a row, the first
      precharge after that old enough, and the newest precharge written. */
  ghost predicate Earned(c: Config, log: seq<Event>, e: Event)
    requires e.Queued?
  {
    && ReadyRun(log) >= c.required
    && var p := FirstPrecharge(log, c.required);
       var q := NewestFrame(log);
       && p.Some? && p.value < |log| && log[p.value].Queued?
       && e.at - log[p.value].at >= c.precharge
       && q.Some? && IsPrecharge(log[q.value])
       && WriteCompleted(log[q.value].sequence, e.written)
  }

  ghost predicate FlagOk(c: Config, log: seq<Event>, e: Event) {
    e.Queued? ==>
      && (e.flag == ACTIVE_CONTROL_FLAG ==>
            LastFlag(log) == Some(ACTIVE_CONTROL_FLAG) || LastFlag(log) == Some(ARMS_DISABLED_CONTROL_FLAG))
      && (e.flag == ARMS_DISABLED_CONTROL_FLAG ==> LastFlag(log) != Some(ACTIVE_CONTROL_FLAG))
      && (e.flag == ACTIVE_CONTROL_FLAG && LastFlag(log) == Some(ARMS_DISABLED_CONTROL_FLAG) ==> Earned(c, log, e))
  }

  ghost predicate TraceOk(c: Config, log: seq<Event>) {
    forall k | 0 <= k < |log| :: FlagOk(c, log[..k], log[k])
  }

  lemma TraceAppend(c: Config, log: seq<Event>, e: Event)
    requires TraceOk(c, log) && FlagOk(c, log, e)
    ensures TraceOk(c, log + [e])
  {
    forall k | 0 <= k < |log| + 1 ensures FlagOk(c, (log + [e])[..k], (log + [e])[k]) {
      assert (log + [e])[..k] == log[..k];
      assert log[..|log|] == log;
    }
  }

  // ----- the invariant -----

  /** The stage remembers exactly what the log shows. */
  ghost predicate ArmInv(c: Config, arm: ArmSequence, log: seq<Event>) {
    && (arm.latestReady <==> LatestUsable(log))
    && (arm.stage != Enabled ==> arm.consecutive == if ReadyRun(log) < c.required then ReadyRun(log) else c.required)
    && match arm.stage
       case AwaitingReady => ReadyRun(log) < c.required && FirstPrecharge(log, c.required).None?
       case ReadyForPrecharge => ReadyRun(log) >= c.required && FirstPrecharge(log, c.required).None?
       case AwaitingCompletion =>
         && ReadyRun(log) >= c.required
         && var p := FirstPrecharge(log, c.required);
            var q := NewestFrame(log);
            && p.Some? && p.value < |log| && log[p.value].Queued? && log[p.value].at == arm.startedAt
            && q.Some? && IsPrecharge(log[q.value]) && log[q.value].sequence == arm.pending
       case Enabled => true
  }

  ghost predicate FlagInv(arm: ArmSequence, log: seq<Event>) {
    arm.stage == Enabled <==> LastFlag(log) == Some(ACTIVE_CONTROL_FLAG)
  }

  ghost predicate Inv(c: Config, s: Hardware) {
    TraceOk(c, s.log) && (s.active ==> ArmInv(c, s.arm, s.log) && FlagInv(s.arm, s.log))
  }

  lemma Appended(log: seq<Event>, e: Event, required: nat)
    ensures var all := log + [e];
      && ReadyRun(all) == (if Breaks(e) then 0 else if e.Observed? then ReadyRun(log) + 1 else ReadyRun(log))
      && FirstPrecharge(all, required) ==
           (if Breaks(e) then None
            else if FirstPrecharge(log, required).Some? then FirstPrecharge(log, required)
            else if IsPrecharge(e) && ReadyRun(log) >= required then Some(|log|)
            else None)
      && NewestFrame(all) == (if IsFrame(e) then Some(|log|) else NewestFrame(log))
      && LastFlag(all) == (if IsFrame(e) then Some(Flag(e)) else LastFlag(log))
      && LatestUsable(all) == (if e.Observed? then e.usable else !e.SequenceReset? && LatestUsable(log))
  {
    assert (log + [e])[..|log|] == log;
  }

  /** Events that say nothing about the arms keep everything. */
  lemma NeutralAppend(c: Config, arm: ArmSequence, log: seq<Event>, e: Event)
    requires TraceOk(c, log) && (e.Elapsed? || e.Held? || e.Measured?)
    ensures TraceOk(c, log + [e])
    ensures ArmInv(c, arm, log) ==> ArmInv(c, arm, log + [e])
    ensures FlagInv(arm, log) ==> FlagInv(arm, log + [e])
  {
    Appended(log, e, c.required);
    TraceAppend(c, log, e);
  }

  lemma ObserveKeepsInv(c: Config, arm: ArmSequence, log: seq<Event>, usable: bool)
    requires c.Shaped() && TraceOk(c, log) && ArmInv(c, arm, log) && FlagInv(arm, log)
    ensures TraceOk(c, log + [Observed(usable)])
    ensures ArmInv(c, Observe(arm, c.required, usable), log + [Observed(usable)])
    ensures FlagInv(Observe(arm, c.required, usable), log + [Observed(usable)])
  {
    Appended(log, Observed(usable), c.required);
    TraceAppend(c, log, Observed(usable));
  }

  lemma ResetKeepsInv(c: Config, log: seq<Event>)
    requires c.Shaped() && TraceOk(c, log)
    ensures TraceOk(c, log + [SequenceReset]) && ArmInv(c, RESET_SEQUENCE, log + [SequenceReset])
    ensures LastFlag(log + [SequenceReset]) == LastFlag(log)
  {
    Appended(log, SequenceReset, c.required);
    TraceAppend(c, log, SequenceReset);
  }

  lemma {:induction false} QuietKeepsTrace(c: Config, log: seq<Event>, later: seq<Event>)
    requires TraceOk(c, log) && Quiet(log, later)
    ensures TraceOk(c, later)
  {
    forall k | 0 <= k < |later| ensures FlagOk(c, later[..k], later[k]) {
      if k < |log| {
        assert later[k] == later[..|log|][k] && later[..k] == log[..k];
      }
    }
  }

  /** A precharge frame, queued in any stage but the enabled one. */
  lemma PrechargeKeepsInv(c: Config, arm: ArmSequence, log: seq<Event>, e: Event)
    requires TraceOk(c, log) && ArmInv(c, arm, log) && FlagInv(arm, log)
    requires arm.stage != Enabled && IsPrecharge(e) && e.sequence != 0
    ensures TraceOk(c, log + [e])
    ensures ArmInv(c, NotePrecharge(arm, e.sequence, e.at), log + [e])
    ensures FlagInv(NotePrecharge(arm, e.sequence, e.at), log + [e])
  {
    Appended(log, e, c.required);
    TraceAppend(c, log, e);
  }

  lemma PowerOffKeepsInv(c: Config, log: seq<Event>, e: Event)
    requires TraceOk(c, log) && ArmInv(c, RESET_SEQUENCE, log)
    requires e.Queued? && e.flag == POWER_OFF_CONTROL_FLAG
    ensures TraceOk(c, log + [e]) && ArmInv(c, RESET_SEQUENCE, log + [e]) && FlagInv(RESET_SEQUENCE, log + [e])
  {
    Appended(log, e, c.required);
    TraceAppend(c, log, e);
  }

  /** An enabled frame: either the previous frame was one too, or the enable has been earned. */
  lemma EnabledKeepsInv(c: Config, arm: ArmSequence, log: seq<Event>, e: Event)
    requires TraceOk(c, log) && arm.stage == Enabled && (arm.latestReady <==> LatestUsable(log))
    requires e.Queued? && e.flag == ACTIVE_CONTROL_FLAG
    requires LastFlag(log) == Some(ACTIVE_CONTROL_FLAG)
          || (LastFlag(log) == Some(ARMS_DISABLED_CONTROL_FLAG) && Earned(c, log, e))
    ensures TraceOk(c, log + [e]) && ArmInv(c, arm, log + [e]) && FlagInv(arm, log + [e])
  {
    Appended(log, e, c.required);
    TraceAppend(c, log, e);
  }

  // ----- every single event keeps it -----

  lemma SendKeepsInv(c: Config, s: Hardware, i: WriteInput)
    requires c.Shaped() && s.Shaped() && s.active && Sends(c, s, i) && Inv(c, s)
    ensures Inv(c, WriteFrame(c, s, i))
  {
    SendFacts(c, s, i);
    var e := Sent(c, s, i);
    match Kind(c, s, i)
    case PowerOffFrame =>
      ResetKeepsInv(c, s.log);
      PowerOffKeepsInv(c, s.log + [SequenceReset], e);
    case PrechargeFrame =>
      assert s.log + [] + [e] == s.log + [e];
      PrechargeKeepsInv(c, s.arm, s.log, e);
    case EnabledFrame =>
      assert s.log + [] + [e] == s.log + [e];
      EnabledKeepsInv(c, ArmWhenSent(c, s, i), s.log, e);
  }

  lemma StepKeepsInv(c: Config, s: Hardware, l: Small)
    requires c.Shaped() && May(c, s, l) && Inv(c, s)
    ensures Inv(c, Do(c, s, l))
  {
    match l
    case Note(_, _, _, _, _, _, _) =>
    case See(usable) => ObserveKeepsInv(c, s.arm, s.log, usable);
    case Take(position, feedback, written) =>
      var measured := if c.power then [Measured(feedback, position, written)] else [];
      if c.power {
        NeutralAppend(c, s.arm, s.log, measured[0]);
      } else {
        assert s.log + measured == s.log;
      }
      NeutralAppend(c, s.arm, s.log + measured, Held(position));
    case Wait(seconds) => NeutralAppend(c, s.arm, s.log, Elapsed(seconds));
    case Send(i) => SendKeepsInv(c, s, i);
    case Stop(to) => QuietKeepsTrace(c, s.log, to.log);
  }

  lemma {:induction false} ChainKeepsInv(c: Config, s: Hardware, t: Hardware, labels: seq<Small>)
    requires c.Shaped() && Chain(c, s, t, labels) && Inv(c, s)
    ensures Inv(c, t)
    decreases |labels|
  {
    if labels != [] {
      StepKeepsInv(c, s, labels[0]);
      ChainKeepsInv(c, Do(c, s, labels[0]), t, labels[1..]);
    }
  }

  lemma CallKeepsInv(c: Config, s: Hardware, i: Input)
    requires c.Shaped() && s.Shaped() && i.Shaped() && Inv(c, s)
    ensures Inv(c, Step(c, s, i))
  {
    StepReaches(c, s, i);
    var labels :| Chain(c, s, Step(c, s, i), labels);
    ChainKeepsInv(c, s, Step(c, s, i), labels);
  }

  // ----- the same, by positions in the log -----

  /** `q` is the last frame before position `k`. */
  ghost predicate Precedes(log: seq<Event>, q: nat, k: nat)
    requires k <= |log|
  {
    q < k && IsFrame(log[q]) && forall x | q < x < k :: !IsFrame(log[x])
  }

  lemma {:induction false} NewestIs(log: seq<Event>, q: nat)
    requires Precedes(log, q, |log|)
    ensures NewestFrame(log) == Some(q)
    decreases |log|
  {
    if q < |log| - 1 {
      NewestIs(log[..|log| - 1], q);
    }
  }

  /** The number of feedback observations. */
  ghost function Observations(log: seq<Event>): nat {
    if log == [] then 0
    else Observations(log[..|log| - 1]) + if log[|log| - 1].Observed? then 1 else 0
  }

  /** From `g` to the end nothing was unusable and the sequence was not reset. */
  ghost predicate Unbroken(log: seq<Event>, g: nat) {
    g <= |log| && forall x | g <= x < |log| :: !Breaks(log[x])
  }

  lemma {:induction false} ReadyRunCounts(log: seq<Event>) returns (g: nat)
    ensures Unbroken(log, g) && ReadyRun(log) == Observations(log) - Observations(log[..g])
    decreases |log|
  {
    if log == [] || Breaks(log[|log| - 1]) {
      g := |log|;
      assert log[..g] == log;
    } else {
      var init := log[..|log| - 1];
      g := ReadyRunCounts(init);
      assert init[..g] == log[..g];
    }
  }

  /** The first precharge came after enough observations in a row, unbroken ever since. */
  lemma {:induction false} GateBeforePrecharge(log: seq<Event>, required: nat) returns (g: nat)
    requires FirstPrecharge(log, required).Some?
    ensures var p := FirstPrecharge(log, required).value;
      && g <= p < |log| && IsPrecharge(log[p]) && Unbroken(log, g)
      && Observations(log[..p]) - Observations(log[..g]) >= required
    decreases |log|
  {
    var init := log[..|log| - 1];
    if FirstPrecharge(init, required).Some? {
      g := GateBeforePrecharge(init, required);
      var p := FirstPrecharge(init, required).value;
      assert init[..p] == log[..p] && init[..g] == log[..g];
    } else {
      g := ReadyRunCounts(init);
      assert init[..g] == log[..g];
    }
  }

  /** A frame that enables the arms comes directly after an enabled or a precharge frame, and a
      precharge frame never directly after an enabled one. */
  lemma FlagsInOrder(c: Config, log: seq<Event>, q: nat, k: nat)
    requires TraceOk(c, log) && k < |log| && Precedes(log, q, k) && log[k].Queued?
    ensures log[k].flag == ACTIVE_CONTROL_FLAG ==> Flag(log[q]) in {ACTIVE_CONTROL_FLAG, ARMS_DISABLED_CONTROL_FLAG}
    ensures log[k].flag == ARMS_DISABLED_CONTROL_FLAG ==> Flag(log[q]) != ACTIVE_CONTROL_FLAG
  {
    assert FlagOk(c, log[..k], log[k]);
    NewestIs(log[..k], q);
  }

  lemma {:induction false} NewestPrecedes(log: seq<Event>)
    requires NewestFrame(log).Some?
    ensures Precedes(log, NewestFrame(log).value, |log|)
    decreases |log|
  {
    if !IsFrame(log[|log| - 1]) {
      NewestPrecedes(log[..|log| - 1]);
    }
  }

  /** No log starts with an enabled frame. */
  lemma EnabledIsNeverFirst(c: Config, log: seq<Event>, k: nat) returns (q: nat)
    requires TraceOk(c, log) && k < |log| && log[k].Queued? && log[k].flag == ACTIVE_CONTROL_FLAG
    ensures Precedes(log, q, k)
  {
    assert FlagOk(c, log[..k], log[k]);
    q := NewestFrame(log[..k]).value;
    NewestPrecedes(log[..k]);
  }

  /** Every change from precharge to enabled was earned. */
  lemma EnableIsEarned(c: Config, log: seq<Event>, q: nat, k: nat) returns (g: nat, p: nat)
    requires TraceOk(c, log) && k < |log| && Precedes(log, q, k)
    requires log[k].Queued? && log[k].flag == ACTIVE_CONTROL_FLAG && IsPrecharge(log[q])
    ensures g <= p <= q && Unbroken(log[..k], g)
    ensures Observations(log[..p]) - Observations(log[..g]) >= c.required
    ensures IsPrecharge(log[p]) && log[k].at - log[p].at >= c.precharge
    ensures WriteCompleted(log[q].sequence, log[k].written)
  {
    var init := log[..k];
    assert FlagOk(c, init, log[k]);
    NewestIs(init, q);
    p := FirstPrecharge(init, c.required).value;
    g := GateBeforePrecharge(init, c.required);
    assert init[..p] == log[..p] && init[..g] == log[..g];
  }
}
