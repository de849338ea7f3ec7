/** `NodeConnection`'s handshake handlers (`hdp_bridge/connection.py`), statement by statement over the
    shared tables, proved to do exactly what `Handshake.Receive` says. */
module Connection {
  import opened Basics
  import opened Handshake
  import Credentials
  import Enrollment
  import Pairing
  import Roles
  import Trackers

  /** The `connections` map every connection shares. */
  class Presence {
    var online: map<string, nat>

    constructor ()
      ensures online == map[]
    {
      online := map[];
    }
  }

  class NodeConnection {
    const cfg: Config
    const db: Enrollment.Database
    const coordinator: Enrollment.EnrollmentCoordinator
    const codes: Pairing.PairingCodes
    const credentials: Credentials.CredentialTable
    const presence: Presence
    var deviceId: Option<string>
    var pending: Option<Challenge>
    var seenIds: seq<string>
    var malformedTimes: seq<real>
    var open: bool
    var sent: seq<Sent>

    ghost predicate Wired() { coordinator.db == db }

    ghost function Contents(): World
      reads this, db, codes, credentials, presence
    {
      World(Conn(deviceId, pending, seenIds, malformedTimes, open, sent),
            Store(db.Contents(), codes.rows, credentials.rows, presence.online))
    }

    constructor (cfg: Config, db: Enrollment.Database, codes: Pairing.PairingCodes,
        credentials: Credentials.CredentialTable, presence: Presence)
      ensures Wired() && this.cfg == cfg && this.db == db && this.codes == codes && this.credentials == credentials
          && this.presence == presence
      ensures Contents().conn == FRESH
    {
      this.cfg, this.db, this.codes, this.credentials, this.presence := cfg, db, codes, credentials, presence;
      coordinator := new Enrollment.EnrollmentCoordinator(db);
      deviceId, pending, seenIds, malformedTimes, open, sent := None, None, [], [], true, [];
    }

    method Close(how: Sent)
      modifies this
      ensures Contents() == Handshake.Close(old(Contents()), how)
    {
      sent := sent + [how];
      open := false;
    }

    method RejectMalformed(monotonic: real, ghost in_: Inputs)
      requires in_.monotonic == monotonic
      modifies this
      ensures Contents() == Malformed(old(Contents()), in_)
    {
      sent := sent + [ErrorSent];
      malformedTimes := Trackers.Pruned(malformedTimes, monotonic);
      if |malformedTimes| > Trackers.MALFORMED_LIMIT { Close(ProtocolClose); }
    }

    method FailPairing(in_: Inputs)
      modifies this, codes
      ensures Contents() == Handshake.FailPairing(old(Contents()), in_)
    {
      var _ := codes.Burn(in_.now);
      Close(AuthFailed);
    }

    method BeginChallenge(c: Challenge)
      modifies this
      ensures Contents() == Begin(old(Contents()), c)
    {
      pending := Some(c);
      sent := sent + [ChallengeSent(c.nonce)];
    }

    /** `_register_device`: the registry row, the role if not the default one, then presence.  The
        unique index refuses a second primary. */
    method RegisterDevice(device: string, hello: Hello, role: Enrollment.Role) returns (ok: bool)
      requires role == Enrollment.Primary ==> device !in db.devices
      modifies this`deviceId, db`devices, presence
      ensures var registered := Roles.Register(old(db.Contents()), device);
              && ok == (hello.registrable && !(role == Enrollment.Primary && registered.HasPrimary()))
              && db.Contents() == (if !hello.registrable then old(db.Contents())
                  else if ok && role == Enrollment.Primary then Roles.SetRole(registered, device, role) else registered)
              && (if ok then deviceId == Some(device) && presence.online == old(presence.online)[device := cfg.me]
                  else deviceId == old(deviceId) && presence.online == old(presence.online))
    {
      if !hello.registrable { return false; }
      db.devices := db.devices[device :=
        if device in db.devices then db.devices[device].(active := true)
            else Enrollment.Device(Enrollment.Secondary, true, "", 0)];
      if role != Enrollment.Secondary {
        var taken := exists d :: d in db.devices && db.devices[d].role == Enrollment.Primary;
        if taken { return false; }
        db.devices := db.devices[device := db.devices[device].(role := role)];
      }
      presence.online := presence.online[device := cfg.me];
      deviceId := Some(device);
      return true;
    }

    method ReturnDevice(device: string, hello: Hello)
      modifies this, db`devices, presence
      ensures Contents() == Return(cfg, old(Contents()), device, hello)
    {
      var ok := RegisterDevice(device, hello, Enrollment.Secondary);
      if !ok {
        open := false;
        return;
      }
      sent := sent + [WelcomeSent(device, None)];
    }

    method CompletePairing(hello: Hello, role: Enrollment.Role, in_: Inputs)
      requires in_.device !in db.devices
      modifies this, db`devices, presence, credentials
      ensures Contents() == Handshake.CompletePairing(cfg, old(Contents()), hello, role, in_)
    {
      ghost var registered := Roles.Register(db.Contents(), in_.device);
      var ok := RegisterDevice(in_.device, hello, role);
      if !ok {
        open := false;
        return;
      }
      StoreKeyAndCredential(hello, in_);
      sent := sent + [WelcomeSent(in_.device, Some(in_.secret))];
      assert db.devices[in_.device].role == role;
      assert db.devices == registered.devices[in_.device := db.devices[in_.device]];
    }

    /** The UPDATE that binds the key, then `issue_credential`. */
    method StoreKeyAndCredential(hello: Hello, in_: Inputs)
      requires in_.device in db.devices
      modifies db`devices, credentials
      ensures
        var d := old(db.devices)[in_.device];
        db.devices == old(db.devices)[in_.device :=
            d.(key := if hello.pubkey != "" then hello.pubkey else d.key, credentials := d.credentials + 1)]
      ensures credentials.rows == old(credentials.rows) +
          [Credentials.Credential(in_.device, in_.secret, in_.now, None)]
    {
      if hello.pubkey != "" {
        db.devices := db.devices[in_.device := db.devices[in_.device].(key := hello.pubkey)];
      }
      credentials.Issue(in_.device, in_.secret, in_.now);
      db.devices :=
          db.devices[in_.device := db.devices[in_.device].(credentials := db.devices[in_.device].credentials + 1)];
    }

    method RedeemCode(hello: Hello, code: string, in_: Inputs)
      requires in_.device !in db.devices
      modifies this, db`devices, presence, credentials, codes
      ensures Contents() == Handshake.RedeemCode(cfg, old(Contents()), hello, code, in_)
    {
      var digest := cfg.digest(code);
      if digest.None? {
        open := false;
        return;
      }
      var won := codes.Consume(digest.value, in_.device, in_.now);
      if !won {
        FailPairing(in_);
        return;
      }
      CompletePairing(hello, Enrollment.Secondary, in_);
    }

    method HandlePairingHello(hello: Hello, code: string, in_: Inputs)
      requires in_.device !in db.devices
      modifies this, db`devices, presence, credentials, codes
      ensures Contents() == PairingHello(cfg, old(Contents()), hello, code, in_)
    {
      if hello.pubkey != "" {
        var digest := cfg.digest(code);
        if digest.None? {
          open := false;
          return;
        }
        if !Pairing.Live(codes.rows, digest.value, in_.now) {
          FailPairing(in_);
          return;
        }
        if !cfg.usable(hello.pubkey) {
          FailPairing(in_);
          return;
        }
        BeginChallenge(Challenge(hello, in_.nonce, hello.pubkey, PairContext, WithCode(code)));
        return;
      }
      RedeemCode(hello, code, in_);
    }

    method HandleEnrollmentHello(hello: Hello, in_: Inputs)
      modifies this
      ensures Contents() == EnrollmentHello(cfg, old(Contents()), hello, in_)
    {
      if !cfg.coordinator || cfg.host.None? || hello.pubkey == "" {
        Close(AuthFailed);
        return;
      }
      if !cfg.usable(hello.pubkey) {
        Close(AuthFailed);
        return;
      }
      BeginChallenge(Challenge(hello, in_.nonce, hello.pubkey, PairContext, Enrolling(hello.enrollmentId)));
    }

    method HandleHello(payload: Option<Hello>, in_: Inputs)
      requires in_.device !in db.devices
      modifies this, db`devices, presence, credentials, codes
      ensures Contents() == Handshake.HandleHello(cfg, old(Contents()), payload, in_)
    {
      if payload.None? {
        RejectMalformed(in_.monotonic, in_);
        return;
      }
      var hello := payload.value;
      if hello.enrollmentId != "" {
        HandleEnrollmentHello(hello, in_);
        return;
      }
      if PREFIX <= hello.credential {
        if cfg.coordinator {
          FailPairing(in_);
          return;
        }
        HandlePairingHello(hello, hello.credential[|PREFIX|..], in_);
        return;
      }
      if hello.credential == "" {
        Close(AuthFailed);
        return;
      }
      var anyLive := exists c :: c in credentials.rows && Credentials.Live(c);
      if anyLive && !Ascii(hello.credential) {
        open := false;
        return;
      }
      var device := credentials.VerifyAndResolve(hello.credential);
      if device.None? {
        Close(AuthFailed);
        return;
      }
      var key := if device.value in db.devices then db.devices[device.value].key else "";
      if key != "" {
        BeginChallenge(Challenge(hello, in_.nonce, key, AuthContext, Reconnect(device.value)));
        return;
      }
      ReturnDevice(device.value, hello);
    }

    method RejectProof(c: Challenge, in_: Inputs)
      modifies this, codes
      ensures Contents() == Handshake.RejectProof(old(Contents()), c, in_)
    {
      if c.purpose.WithCode? { FailPairing(in_); } else { Close(AuthFailed); }
    }

    method HandleProof(signature: Option<string>, in_: Inputs)
      requires Wired() && pending.Some? && in_.device !in db.devices
      modifies this, db, presence, credentials, codes
      ensures Contents() == Handshake.HandleProof(cfg, old(Contents()), old(pending).value, signature, in_)
    {
      var c := pending.value;
      pending := None;                       // one challenge, one attempt
      if signature.None? || !cfg.verify(c.key, c.context, c.nonce, signature.value) {
        RejectProof(c, in_);
        return;
      }
      if c.purpose.WithCode? {
        RedeemCode(c.hello, c.purpose.code, in_);
        return;
      }
      if c.purpose.Enrolling? {
        if !cfg.coordinator || cfg.host.None? {
          Close(AuthFailed);
          return;
        }
        var role := coordinator.Consume(c.purpose.id, cfg.host.value, cfg.fingerprint(c.key), in_.now);
        if role.Err? {
          if role.error.BadIdentifier? { open := false; } else { Close(AuthFailed); }
          return;
        }
        CompletePairing(c.hello, role.value, in_);
        return;
      }
      ReturnDevice(c.purpose.device, c.hello);
    }

    method HandleFrame(f: Frame, in_: Inputs)
      requires Wired() && in_.device !in db.devices
      modifies this, db, presence, credentials, codes
      ensures Contents() == Receive(cfg, old(Contents()), f, in_)
    {
      if !open { return; }
      match f {
        case Garbage => RejectMalformed(in_.monotonic, in_);
        case WrongVersion => Close(ProtocolClose);
        case Envelope(id, body) =>
          if id in seenIds { return; }
          seenIds := Trackers.Remember(seenIds, id);
          if deviceId.Some? {
            if !(body.Other? && body.known) { RejectMalformed(in_.monotonic, in_); }
          } else if pending.Some? {
            if body.ProofBody? { HandleProof(body.signature, in_); } else { Close(ProtocolClose); }
          } else if body.HelloBody? {
            HandleHello(body.hello, in_);
          } else {
            Close(ProtocolClose);
          }
      }
    }
  }
}
