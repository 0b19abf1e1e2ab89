/** The main results about the VR stream: other clients cannot interfere, one sender's timestamps
    increase, and ownership changes only after a silence. */
module VrStreamRuns {
  import opened Doubles
  import opened ClientSession
  import opened TeleopModel
  import TeleopSafety
  import opened VrStream

  datatype Event = Received(datagram: Datagram, at: Double) | Called(call: TeleopSafety.Call) {
    predicate Shaped() {
      if Received? then datagram.Shaped() else call.Shaped()
    }
  }

  /** A datagram that was accepted. */
  datatype Entry = Entry(source: string, timestamp: real, at: real)

  /** The stream, its ticks, and the datagrams accepted so far. */
  datatype Trace = Trace(stream: Stream, ticks: seq<TeleopSafety.Record>, accepted: seq<Entry>)

  ghost predicate Ready(t: Trace) {
    TeleopSafety.Ready(t.stream.teleop)
  }

  ghost function Next(c: StreamConfig, t: Trace, e: Event): (n: Trace)
    requires c.Valid() && Ready(t) && e.Shaped()
  {
    match e
    case Received(d, at) =>
      var r := Ingest(c, t.stream, d, at);
      Trace(r.0, t.ticks,
            if r.1 == Accepted then t.accepted + [Entry(d.source, d.parsed.timestamp, at.v)] else t.accepted)
    case Called(call) =>
      var h := TeleopSafety.Next(c.teleop, TeleopSafety.History(t.stream.teleop, t.ticks), call);
      Trace(t.stream.(teleop := h.now), h.ticks, t.accepted)
  }

  lemma NextKeepsReady(c: StreamConfig, t: Trace, e: Event)
    requires c.Valid() && Ready(t) && e.Shaped()
    ensures Ready(Next(c, t, e))
  {
    match e
    case Received(d, at) =>
      TeleopSafety.CallKeepsReady(c.teleop, t.stream.teleop, TeleopSafety.ClearVrInput);
      if d.parsed.Mapped? {
        TeleopSafety.CallKeepsReady(c.teleop, t.stream.teleop, TeleopSafety.VrFrame(d.parsed.frame, at));
      }
    case Called(call) => TeleopSafety.CallKeepsReady(c.teleop, t.stream.teleop, call);
  }

  ghost predicate AllEventsShaped(events: seq<Event>) {
    forall k | 0 <= k < |events| :: events[k].Shaped()
  }

  ghost function After(c: StreamConfig, events: seq<Event>): (t: Trace)
    requires c.Valid() && AllEventsShaped(events)
    ensures Ready(t)
  {
    if events == [] then Trace(Stream(NO_SESSION, map[], Initial(c.teleop)), [], [])
    else
      var t, last := After(c, events[..|events| - 1]), events[|events| - 1];
      NextKeepsReady(c, t, last);
      Next(c, t, last)
  }

  // ----- other clients -----

  /** A datagram from someone else while the owner is not silent for the timeout. */
  ghost predicate Alien(c: StreamConfig, s: Session, e: Event) {
    && e.Received? && c.session.lockEnabled && s.owner != "" && e.datagram.source != s.owner
    && (e.at.Finite? ==> e.at.v - s.lastSeen < c.session.timeout)
  }

  /** It leaves the whole stream manager as it was. */
  lemma AlienIsIgnored(c: StreamConfig, s: Stream, e: Event)
    requires c.Valid() && s.teleop.Shaped() && e.Shaped() && Alien(c, s.session, e)
    ensures Ingest(c, s, e.datagram, e.at).0 == s && Ingest(c, s, e.datagram, e.at).1 != Accepted
  {}

  /** The events without the datagrams that were alien when they arrived. */
  ghost function Pruned(c: StreamConfig, events: seq<Event>): (r: seq<Event>)
    requires c.Valid() && AllEventsShaped(events)
    ensures AllEventsShaped(r)
  {
    if events == [] then []
    else
      var init, last := events[..|events| - 1], events[|events| - 1];
      if Alien(c, After(c, init).stream.session, last) then Pruned(c, init) else Pruned(c, init) + [last]
  }

  /** Deleting them changes neither the state nor any tick. */
  lemma {:induction false} OthersDoNotInterfere(c: StreamConfig, events: seq<Event>)
    requires c.Valid() && AllEventsShaped(events)
    ensures After(c, Pruned(c, events)) == After(c, events)
    decreases |events|
  {
    if events != [] {
      var init, last := events[..|events| - 1], events[|events| - 1];
      OthersDoNotInterfere(c, init);
      if Alien(c, After(c, init).stream.session, last) {
        AlienIsIgnored(c, After(c, init).stream, last);
      } else {
        assert (Pruned(c, init) + [last])[..|Pruned(c, init)|] == Pruned(c, init);
      }
    }
  }

  // ----- with the lock -----

  /** The owner is who was accepted last, and the only one with a remembered timestamp. */
  ghost predicate LockInv(t: Trace) {
    var s := t.stream;
    if s.session.owner == "" then s.timestamps == map[] && t.accepted == []
    else
      && t.accepted != []
      && var last := t.accepted[|t.accepted| - 1];
         && last.source == s.session.owner && last.at == s.session.lastSeen
         && s.timestamps == map[last.source := last.timestamp]
  }

  /** What one accepted datagram owes the one before it. */
  ghost predicate Succeeds(c: SessionConfig, before: Entry, after: Entry) {
    after.at - before.at < c.timeout ==> after.source == before.source && after.timestamp > before.timestamp
  }

  ghost predicate Chained(c: SessionConfig, accepted: seq<Entry>) {
    forall k | 0 < k < |accepted| :: Succeeds(c, accepted[k - 1], accepted[k])
  }

  lemma AcceptedWithLock(c: StreamConfig, s: Stream, d: Datagram, at: Double)
    requires c.Valid() && s.teleop.Shaped() && d.Shaped() && c.session.lockEnabled
    requires Ingest(c, s, d, at).1 == Accepted
    requires s.session.owner == "" ==> s.timestamps == map[]
    requires s.session.owner != "" ==> s.timestamps.Keys == {s.session.owner}
    ensures var u := Ingest(c, s, d, at).0;
      && d.source != "" && at.Finite? && u.session == Session(d.source, at.v)
      && u.timestamps == map[d.source := d.parsed.timestamp]
      && (s.session.owner != "" && at.v - s.session.lastSeen < c.session.timeout ==>
            d.source == s.session.owner && d.parsed.timestamp > s.timestamps[d.source])
  {
    var r := CanAccept(c.session, s.session, d.source, at).0;
    var order := if s.session.owner != r.owner then map[] else s.timestamps;
    assert order.Keys <= {d.source};
  }

  lemma RejectedWithLock(c: StreamConfig, s: Stream, d: Datagram, at: Double)
    requires c.Valid() && s.teleop.Shaped() && d.Shaped() && c.session.lockEnabled
    requires Ingest(c, s, d, at).1 != Accepted
    ensures var u := Ingest(c, s, d, at).0; u.session == s.session && u.timestamps == s.timestamps
  {}

  lemma LockKept(c: StreamConfig, t: Trace, e: Event)
    requires c.Valid() && Ready(t) && e.Shaped() && c.session.lockEnabled
    requires LockInv(t) && Chained(c.session, t.accepted)
    ensures LockInv(Next(c, t, e)) && Chained(c.session, Next(c, t, e).accepted)
  {
    if e.Received? {
      if Ingest(c, t.stream, e.datagram, e.at).1 == Accepted {
        AcceptedWithLock(c, t.stream, e.datagram, e.at);
      } else {
        RejectedWithLock(c, t.stream, e.datagram, e.at);
      }
    }
  }

  lemma {:induction false} RunWithLock(c: StreamConfig, events: seq<Event>)
    requires c.Valid() && AllEventsShaped(events) && c.session.lockEnabled
    ensures LockInv(After(c, events)) && Chained(c.session, After(c, events).accepted)
    decreases |events|
  {
    if events != [] {
      RunWithLock(c, events[..|events| - 1]);
      LockKept(c, After(c, events[..|events| - 1]), events[|events| - 1]);
    }
  }

  /** With the lock, exactly the owner has a remembered timestamp, that of its last accepted datagram. */
  lemma OnlyTheOwnerIsRemembered(c: StreamConfig, events: seq<Event>)
    requires c.Valid() && AllEventsShaped(events) && c.session.lockEnabled
    ensures var t := After(c, events); var s := t.stream;
      && (s.session.owner == "" ==> s.timestamps.Keys == {} && t.accepted == [])
      && (s.session.owner != "" ==>
            && s.timestamps.Keys == {s.session.owner} && t.accepted != []
            && var last := t.accepted[|t.accepted| - 1];
               && last.source == s.session.owner && last.at == s.session.lastSeen
               && last.timestamp == s.timestamps[s.session.owner])
  {
    RunWithLock(c, events);
  }

  /** No silence of the timeout or longer between the accepted datagrams `i` to `j`. */
  ghost predicate NoSilence(c: SessionConfig, accepted: seq<Entry>, i: nat, j: nat)
    requires i <= j < |accepted|
  {
    forall k | i < k <= j :: accepted[k].at - accepted[k - 1].at < c.timeout
  }

  lemma {:induction false} ChainedOrder(c: SessionConfig, accepted: seq<Entry>, i: nat, j: nat)
    requires Chained(c, accepted) && i < j < |accepted| && NoSilence(c, accepted, i, j)
    ensures accepted[j].source == accepted[i].source && accepted[j].timestamp > accepted[i].timestamp
    decreases j
  {
    assert Succeeds(c, accepted[j - 1], accepted[j]);
    if i < j - 1 {
      ChainedOrder(c, accepted, i, j - 1);
    }
  }

  /** Without a silence the owner stays the same and its timestamps strictly increase; so a change of
      owner needs a silence of at least the timeout after the old owner's last accepted datagram. */
  lemma OwnerChangesOnlyAfterSilence(c: StreamConfig, events: seq<Event>, i: nat, j: nat)
    requires c.Valid() && AllEventsShaped(events) && c.session.lockEnabled
    requires i < j < |After(c, events).accepted|
    ensures var a := After(c, events).accepted;
      && (NoSilence(c.session, a, i, j) ==> a[j].source == a[i].source && a[j].timestamp > a[i].timestamp)
      && (j == i + 1 && a[j].source != a[i].source ==> a[j].at - a[i].at >= c.session.timeout)
  {
    RunWithLock(c, events);
    var a := After(c, events).accepted;
    if NoSilence(c.session, a, i, j) {
      ChainedOrder(c.session, a, i, j);
    }
    assert j == i + 1 ==> Succeeds(c.session, a[i], a[j]);
  }

  // ----- without the lock -----

  /** Every source's remembered timestamp is at least that of each datagram accepted from it. */
  ghost predicate OpenInv(t: Trace) {
    forall k | 0 <= k < |t.accepted| ::
      && t.accepted[k].source in t.stream.timestamps
      && t.accepted[k].timestamp <= t.stream.timestamps[t.accepted[k].source]
  }

  ghost predicate Increasing(accepted: seq<Entry>) {
    forall i, j | 0 <= i < j < |accepted| && accepted[i].source == accepted[j].source ::
      accepted[i].timestamp < accepted[j].timestamp
  }

  lemma OpenKept(c: StreamConfig, t: Trace, e: Event)
    requires c.Valid() && Ready(t) && e.Shaped() && !c.session.lockEnabled
    requires OpenInv(t) && Increasing(t.accepted)
    ensures OpenInv(Next(c, t, e)) && Increasing(Next(c, t, e).accepted)
  {}

  lemma {:induction false} RunWithoutLock(c: StreamConfig, events: seq<Event>)
    requires c.Valid() && AllEventsShaped(events) && !c.session.lockEnabled
    ensures OpenInv(After(c, events)) && Increasing(After(c, events).accepted)
    decreases |events|
  {
    if events != [] {
      RunWithoutLock(c, events[..|events| - 1]);
      OpenKept(c, After(c, events[..|events| - 1]), events[|events| - 1]);
    }
  }

  /** Without the lock the accepted timestamps of each source strictly increase, always. */
  lemma TimestampsIncrease(c: StreamConfig, events: seq<Event>, i: nat, j: nat)
    requires c.Valid() && AllEventsShaped(events) && !c.session.lockEnabled
    requires i < j < |After(c, events).accepted|
    requires After(c, events).accepted[i].source == After(c, events).accepted[j].source
    ensures After(c, events).accepted[i].timestamp < After(c, events).accepted[j].timestamp
  {
    RunWithoutLock(c, events);
  }
}
