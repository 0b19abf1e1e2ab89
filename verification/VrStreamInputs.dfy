/** Which datagrams reach the teleop manager, decided by the ones accepted before; all results about
    its calls thus hold of the stream. */
module VrStreamInputs {
  import opened Doubles
  import opened ClientSession
  import opened TeleopModel
  import TeleopSafety
  import TeleopRuns
  import opened VrStream
  import opened VrStreamRuns

  /** The datagram carries a frame, has a sender, and arrives at a definite time. */
  ghost predicate Readable(e: Event) {
    e.Received? && e.datagram.parsed.Mapped? && e.datagram.source != "" && e.at.Finite?
  }

  /** With the lock: nobody has been accepted, or the last one has been silent for the timeout, or it is
      the last one again with a later timestamp. Without: later than all accepted from that sender. */
  ghost predicate Admissible(c: SessionConfig, accepted: seq<Entry>, e: Event)
    requires Readable(e)
  {
    var d := e.datagram;
    if c.lockEnabled then
      accepted == [] ||
        var last := accepted[|accepted| - 1];
        e.at.v - last.at >= c.timeout || (d.source == last.source && d.parsed.timestamp > last.timestamp)
    else
      forall k | 0 <= k < |accepted| && accepted[k].source == d.source :: accepted[k].timestamp < d.parsed.timestamp
  }

  /** The sender may clear the input: without the lock anyone, with it the last accepted one. */
  ghost predicate MayClear(c: SessionConfig, accepted: seq<Entry>, source: string) {
    !c.lockEnabled || (accepted != [] && accepted[|accepted| - 1].source == source)
  }

  // ----- what the remembered timestamps are -----

  /** Without the lock: the timestamp remembered of a sender is one accepted from it. */
  ghost predicate TimestampsAreAccepted(t: Trace) {
    forall source | source in t.stream.timestamps ::
      exists k | 0 <= k < |t.accepted| ::
        t.accepted[k].source == source && t.accepted[k].timestamp == t.stream.timestamps[source]
  }

  lemma OpenTimestampsNext(c: StreamConfig, t: Trace, e: Event)
    requires c.Valid() && Ready(t) && e.Shaped() && !c.session.lockEnabled && TimestampsAreAccepted(t)
    ensures TimestampsAreAccepted(Next(c, t, e))
  {
    var n := Next(c, t, e);
    forall source | source in n.stream.timestamps
      ensures exists k | 0 <= k < |n.accepted| ::
        n.accepted[k].source == source && n.accepted[k].timestamp == n.stream.timestamps[source]
    {
      if e.Received? && Ingest(c, t.stream, e.datagram, e.at).1 == Accepted && source == e.datagram.source {
        assert n.accepted[|t.accepted|].source == source;
      } else {
        var k :| 0 <= k < |t.accepted| &&
          t.accepted[k].source == source && t.accepted[k].timestamp == t.stream.timestamps[source];
        assert n.accepted[k] == t.accepted[k];
      }
    }
  }

  lemma {:induction false} OpenTimestamps(c: StreamConfig, events: seq<Event>)
    requires c.Valid() && AllEventsShaped(events) && !c.session.lockEnabled
    ensures TimestampsAreAccepted(After(c, events))
    decreases |events|
  {
    if events != [] {
      OpenTimestamps(c, events[..|events| - 1]);
      OpenTimestampsNext(c, After(c, events[..|events| - 1]), events[|events| - 1]);
    }
  }

  // ----- acceptance -----

  ghost predicate AcceptedNow(c: StreamConfig, t: Trace, e: Event)
    requires c.Valid() && Ready(t) && e.Shaped()
  {
    e.Received? && Ingest(c, t.stream, e.datagram, e.at).1 == Accepted
  }

  lemma AcceptedWithLockIff(c: StreamConfig, t: Trace, e: Event)
    requires c.Valid() && Ready(t) && e.Shaped() && c.session.lockEnabled && LockInv(t)
    ensures AcceptedNow(c, t, e) <==> Readable(e) && Admissible(c.session, t.accepted, e)
  {}

  lemma AcceptedWithoutLockIff(c: StreamConfig, t: Trace, e: Event)
    requires c.Valid() && Ready(t) && e.Shaped() && !c.session.lockEnabled && OpenInv(t) && TimestampsAreAccepted(t)
    ensures AcceptedNow(c, t, e) <==> Readable(e) && Admissible(c.session, t.accepted, e)
  {
    if Readable(e) && e.datagram.source in t.stream.timestamps {
      var k :| 0 <= k < |t.accepted| && t.accepted[k].source == e.datagram.source &&
        t.accepted[k].timestamp == t.stream.timestamps[e.datagram.source];
      assert Admissible(c.session, t.accepted, e) ==> t.accepted[k].timestamp < e.datagram.parsed.timestamp;
    }
  }

  /** After any events a datagram is accepted exactly when it is readable and admissible. */
  lemma AcceptedIff(c: StreamConfig, events: seq<Event>, e: Event)
    requires c.Valid() && AllEventsShaped(events) && e.Shaped()
    ensures var t := After(c, events); AcceptedNow(c, t, e) <==> Readable(e) && Admissible(c.session, t.accepted, e)
  {
    if c.session.lockEnabled {
      RunWithLock(c, events);
      AcceptedWithLockIff(c, After(c, events), e);
    } else {
      RunWithoutLock(c, events);
      OpenTimestamps(c, events);
      AcceptedWithoutLockIff(c, After(c, events), e);
    }
  }

  // ----- the calls the manager receives -----

  /** The call an event makes on the teleop manager, if any. */
  ghost function CallOf(c: SessionConfig, accepted: seq<Entry>, e: Event): (r: seq<TeleopSafety.Call>)
    requires e.Shaped()
    ensures TeleopRuns.AllCallsShaped(r)
  {
    match e
    case Called(call) => [call]
    case Received(d, at) =>
      if Readable(e) && Admissible(c, accepted, e) then [TeleopSafety.VrFrame(d.parsed.frame, at)]
      else if (at.NonFinite? || d.parsed.Unusable?) && MayClear(c, accepted, d.source) then [TeleopSafety.ClearVrInput]
      else []
  }

  ghost function CallsOf(c: StreamConfig, events: seq<Event>): (r: seq<TeleopSafety.Call>)
    requires c.Valid() && AllEventsShaped(events)
    ensures TeleopRuns.AllCallsShaped(r)
  {
    if events == [] then []
    else
      var init, last := events[..|events| - 1], events[|events| - 1];
      CallsOf(c, init) + CallOf(c.session, After(c, init).accepted, last)
  }

  /** Who may clear, by the session and by what was accepted. */
  lemma OwnsIff(c: StreamConfig, events: seq<Event>, source: string)
    requires c.Valid() && AllEventsShaped(events) && source != ""
    ensures var t := After(c, events);
      OwnsOrUnlocked(c.session, t.stream.session, source) <==> MayClear(c.session, t.accepted, source)
  {
    if c.session.lockEnabled {
      RunWithLock(c, events);
    }
  }

  lemma AcceptedSourcesAreNamed(c: StreamConfig, events: seq<Event>)
    requires c.Valid() && AllEventsShaped(events) && c.session.lockEnabled
    ensures var t := After(c, events); OwnsOrUnlocked(c.session, t.stream.session, "") == MayClear(c.session, t.accepted, "")
  {
    RunWithLock(c, events);
  }

  /** What a datagram does to the manager, once acceptance and ownership are known. */
  lemma DatagramIsCall(c: StreamConfig, t: Trace, e: Event)
    requires c.Valid() && Ready(t) && e.Shaped() && e.Received?
    requires AcceptedNow(c, t, e) <==> Readable(e) && Admissible(c.session, t.accepted, e)
    requires OwnsOrUnlocked(c.session, t.stream.session, e.datagram.source)
      <==> MayClear(c.session, t.accepted, e.datagram.source)
    ensures var calls := CallOf(c.session, t.accepted, e); var u := Ingest(c, t.stream, e.datagram, e.at).0.teleop;
      u == if calls == [] then t.stream.teleop else TeleopSafety.Apply(c.teleop, t.stream.teleop, calls[0])
    ensures var calls := CallOf(c.session, t.accepted, e); calls == [] || !calls[0].TickAt?
  {}

  lemma OwnershipIs(c: StreamConfig, events: seq<Event>, source: string)
    requires c.Valid() && AllEventsShaped(events)
    ensures var t := After(c, events);
      OwnsOrUnlocked(c.session, t.stream.session, source) <==> MayClear(c.session, t.accepted, source)
  {
    if source != "" {
      OwnsIff(c, events, source);
    } else if c.session.lockEnabled {
      AcceptedSourcesAreNamed(c, events);
    }
  }

  lemma EventStep(c: StreamConfig, t: Trace, e: Event)
    requires c.Valid() && Ready(t) && e.Shaped()
    requires e.Received? ==>
      var calls := CallOf(c.session, t.accepted, e); var u := Ingest(c, t.stream, e.datagram, e.at).0.teleop;
      && u == (if calls == [] then t.stream.teleop else TeleopSafety.Apply(c.teleop, t.stream.teleop, calls[0]))
      && (calls == [] || !calls[0].TickAt?)
    ensures var n := Next(c, t, e); var calls := CallOf(c.session, t.accepted, e);
      TeleopSafety.History(n.stream.teleop, n.ticks) ==
        var h := TeleopSafety.History(t.stream.teleop, t.ticks);
        if calls == [] then h else TeleopSafety.Next(c.teleop, h, calls[0])
  {}

  /** One event does to the manager what its call does. */
  lemma EventIsCall(c: StreamConfig, events: seq<Event>, e: Event)
    requires c.Valid() && AllEventsShaped(events) && e.Shaped()
    ensures var t := After(c, events); var n := Next(c, t, e); var calls := CallOf(c.session, t.accepted, e);
      TeleopSafety.History(n.stream.teleop, n.ticks) ==
        var h := TeleopSafety.History(t.stream.teleop, t.ticks);
        if calls == [] then h else TeleopSafety.Next(c.teleop, h, calls[0])
  {
    if e.Received? {
      AcceptedIff(c, events, e);
      OwnershipIs(c, events, e.datagram.source);
      DatagramIsCall(c, After(c, events), e);
    }
    EventStep(c, After(c, events), e);
  }

  /** After any events the manager is in the state, and has made the ticks, that its calls alone lead to. */
  lemma {:induction false} StreamIsItsCalls(c: StreamConfig, events: seq<Event>)
    requires c.Valid() && AllEventsShaped(events)
    ensures var t := After(c, events);
      TeleopRuns.After(c.teleop, CallsOf(c, events)) == TeleopSafety.History(t.stream.teleop, t.ticks)
    decreases |events|
  {
    if events != [] {
      var init, last := events[..|events| - 1], events[|events| - 1];
      StreamIsItsCalls(c, init);
      EventIsCall(c, init, last);
      CallsNext(c.teleop, CallsOf(c, init), CallOf(c.session, After(c, init).accepted, last));
    }
  }

  lemma CallsNext(c: Config, calls: seq<TeleopSafety.Call>, more: seq<TeleopSafety.Call>)
    requires c.Valid() && TeleopRuns.AllCallsShaped(calls) && TeleopRuns.AllCallsShaped(more) && |more| <= 1
    ensures TeleopRuns.AllCallsShaped(calls + more)
    ensures TeleopRuns.After(c, calls + more) ==
      if more == [] then TeleopRuns.After(c, calls)
      else TeleopSafety.Next(c, TeleopRuns.After(c, calls), more[0])
  {
    if more == [] {
      assert calls + more == calls;
    } else {
      assert (calls + more)[..|calls|] == calls;
    }
  }
}
