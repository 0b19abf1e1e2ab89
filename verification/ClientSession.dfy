/** `client_session_manager.cpp`: one client owns the session until it has been silent too long. */
module ClientSession {
  import opened Doubles

  datatype SessionConfig = SessionConfig(lockEnabled: bool, timeout: real) {
    predicate Valid() { timeout > 0.0 }
  }

  /** The empty owner is no owner. */
  datatype Session = Session(owner: string, lastSeen: real)

  const NO_SESSION := Session("", 0.0)

  predicate Expired(c: SessionConfig, s: Session, now: real) {
    s.owner != "" && now - s.lastSeen >= c.timeout
  }

  function Released(c: SessionConfig, s: Session, now: real): Session {
    if Expired(c, s, now) then NO_SESSION else s
  }

  /** Checking whether a packet is acceptable may release the owner. */
  function CanAccept(c: SessionConfig, s: Session, client: string, now: Double): (Session, bool) {
    if client == "" || now.NonFinite? then (s, false)
    else if !c.lockEnabled then (s, true)
    else
      var r := Released(c, s, now.v);
      (r, r.owner == "" || r.owner == client)
  }

  function Accept(c: SessionConfig, s: Session, client: string, now: Double): (Session, bool) {
    var r := CanAccept(c, s, client, now);
    if !r.1 || !c.lockEnabled then r
    else (Session(if r.0.owner == "" then client else r.0.owner, now.v), true)
  }

  predicate OwnsOrUnlocked(c: SessionConfig, s: Session, client: string) {
    !c.lockEnabled || (s.owner != "" && s.owner == client)
  }

  class ClientSessionManager {
    const config: SessionConfig
    var owner: string
    var lastSeen: real

    ghost function Model(): Session
      reads this
    {
      Session(owner, lastSeen)
    }

    constructor (c: SessionConfig)
      requires c.Valid()
      ensures config == c && Model() == NO_SESSION
    {
      config := c;
      owner, lastSeen := "", 0.0;
    }

    method ReleaseIfExpired(now: real)
      modifies this
      ensures Model() == Released(config, old(Model()), now)
    {
      if owner != "" && now - lastSeen >= config.timeout {
        owner, lastSeen := "", 0.0;
      }
    }

    method CanAcceptValidPacket(client: string, now: Double) returns (ok: bool)
      modifies this
      ensures (Model(), ok) == CanAccept(config, old(Model()), client, now)
    {
      if client == "" || now.NonFinite? {
        return false;
      }
      if !config.lockEnabled {
        return true;
      }
      ReleaseIfExpired(now.v);
      return owner == "" || owner == client;
    }

    method AcceptValidPacket(client: string, now: Double) returns (ok: bool)
      modifies this
      ensures (Model(), ok) == Accept(config, old(Model()), client, now)
    {
      ok := CanAcceptValidPacket(client, now);
      if !ok || !config.lockEnabled {
        return;
      }
      if owner == "" {
        owner := client;
      }
      lastSeen := now.v;
    }
  }
}
