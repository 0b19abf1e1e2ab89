/** `vr_stream_manager.cpp`: which datagrams reach the teleop manager. What the parser and the input
    mapper make of the bytes comes with the datagram. */
module VrStream {
  import opened Doubles
  import opened PoseMapper
  import opened ClientSession
  import opened TeleopModel
  import opened TeleopSafety
  import opened TeleopManager

  /** The mapper only succeeds with a finite sender timestamp. */
  datatype Parsed = Ignored | Unusable | Mapped(frame: Frame, timestamp: real)

  datatype Datagram = Datagram(source: string, parsed: Parsed) {
    predicate Shaped() {
      parsed.Mapped? ==> parsed.frame.Shaped() && parsed.frame.timestamp == Finite(parsed.timestamp)
    }
  }

  datatype Disposition = Accepted | IsIgnored | Invalid | NonOwner | OutOfOrder

  datatype StreamConfig = StreamConfig(session: SessionConfig, teleop: Config) {
    predicate Valid() { session.Valid() && teleop.Valid() }
  }

  datatype Stream = Stream(session: Session, timestamps: map<string, real>, teleop: Teleop)

  function ClearIfOwned(c: StreamConfig, s: Stream, source: string): Stream
    requires s.teleop.Shaped()
  {
    if OwnsOrUnlocked(c.session, s.session, source) then s.(teleop := ClearInput(s.teleop)) else s
  }

  function Ingest(c: StreamConfig, s: Stream, d: Datagram, now: Double): (r: (Stream, Disposition))
    requires s.teleop.Shaped() && d.Shaped()
    ensures r.0.teleop.Shaped()
  {
    if now.NonFinite? then (ClearIfOwned(c, s, d.source), Invalid)
    else match d.parsed
      case Ignored => (s, IsIgnored)
      case Unusable => (ClearIfOwned(c, s, d.source), Invalid)
      case Mapped(frame, timestamp) =>
        var can := CanAccept(c.session, s.session, d.source, now);
        var checked := s.(session := can.0);
        if !can.1 then (checked, NonOwner)
        else
          var order := if s.session.owner != can.0.owner then map[] else s.timestamps;
          if d.source in order && timestamp <= order[d.source] then (checked.(timestamps := order), OutOfOrder)
          else
            (Stream(Accept(c.session, can.0, d.source, now).0, order[d.source := timestamp],
                    UpdateVrFrame(s.teleop, frame, now)),
             Accepted)
  }

  class VrStreamManager {
    const config: StreamConfig
    const session: ClientSessionManager
    const teleop: TeleopManager
    var lastTimestamps: map<string, real>

    ghost predicate Valid()
      reads this, session, teleop, teleop.mapper
    {
      && config.Valid() && teleop.Valid() && session.config == config.session && teleop.config == config.teleop
    }

    ghost function Model(): (s: Stream)
      requires Valid()
      reads this, session, teleop, teleop.mapper
      ensures s.teleop.Shaped()
    {
      Stream(session.Model(), lastTimestamps, teleop.Model())
    }

    constructor (c: StreamConfig)
      requires c.Valid()
      ensures Valid() && config == c && fresh(session) && fresh(teleop) && fresh(teleop.mapper)
      ensures Model() == Stream(NO_SESSION, map[], Initial(c.teleop))
    {
      config := c;
      session := new ClientSessionManager(c.session);
      teleop := new TeleopManager(c.teleop);
      lastTimestamps := map[];
    }

    method ClearInputIfOwned(source: string)
      requires Valid()
      modifies teleop, teleop.mapper
      ensures Valid() && Model() == ClearIfOwned(config, old(Model()), source)
    {
      if !config.session.lockEnabled || (session.owner != "" && session.owner == source) {
        teleop.ClearVrInput();
      }
    }

    method IngestDatagram(d: Datagram, now: Double) returns (disposition: Disposition, ownerChanged: bool)
      requires Valid() && d.Shaped()
      modifies this, session, teleop, teleop.mapper
      ensures Valid() && (Model(), disposition) == Ingest(config, old(Model()), d, now)
      ensures ownerChanged <==> disposition == Accepted && session.owner != old(session.owner)
    {
      if now.NonFinite? {
        ClearInputIfOwned(d.source);
        return Invalid, false;
      }
      if d.parsed.Ignored? {
        return IsIgnored, false;
      }
      if d.parsed.Unusable? {
        ClearInputIfOwned(d.source);
        return Invalid, false;
      }
      var previousOwner := session.owner;
      var can := session.CanAcceptValidPacket(d.source, now);
      if !can {
        return NonOwner, false;
      }
      if previousOwner != session.owner {
        lastTimestamps := map[];
      }
      if d.source in lastTimestamps && d.parsed.timestamp <= lastTimestamps[d.source] {
        return OutOfOrder, false;
      }
      var accepted := session.AcceptValidPacket(d.source, now);
      if !accepted {
        assert false;
      }
      ownerChanged := previousOwner != session.owner;
      lastTimestamps := lastTimestamps[d.source := d.parsed.timestamp];
      teleop.UpdateVrFrame(d.parsed.frame, now);
      disposition := Accepted;
    }
  }
}
