/** What a connection leaves behind when it gains a device, that the device can come back with it, and
    what becomes of frames that are out of turn (`hdp_bridge/connection.py`). */
module HandshakeOutcomes {
  import opened Basics
  import opened Handshake
  import opened HandshakeSafety
  import Credentials
  import Enrollment
  import Pairing
  import Roles
  import Trackers

  // ---- What a gain stores ---------------------------------------------------------------------------

  /** The hello that a new device's row is made from. */
  function Introduced(w: World, f: Frame): Hello
    requires f.Envelope?
  {
    if f.body.HelloBody? && f.body.hello.Some? then f.body.hello.value
    else if w.conn.pending.Some? then w.conn.pending.value.hello
    else Hello("", "", "", false)
  }

  /** The role the enrollment was for; a code makes a secondary. */
  function RoleGained(cfg: Config, w: World, in_: Inputs): Enrollment.Role {
    if w.conn.pending.Some? && w.conn.pending.value.purpose.Enrolling? && cfg.host.Some? then
      var c := w.conn.pending.value;
      var role := w.store.t.Consume(c.purpose.id, cfg.host.value, cfg.fingerprint(c.key), in_.now).1;
      if role.Ok? then role.value else Enrollment.Secondary
    else Enrollment.Secondary
  }

  /** It comes back rather than being new. */
  predicate ComesBackBy(cfg: Config, w: World, f: Frame, device: string) {
    ByCredential(w, f, device) || ProvesReturn(cfg, w, f)
  }

  ghost predicate OthersStay(s: Store, u: Store, device: string) {
    forall d :: d != device ==>
      (d in u.t.devices <==> d in s.t.devices) && (d in s.t.devices ==> u.t.devices[d] == s.t.devices[d])
  }

  ghost predicate ReturnStored(s: Store, u: Store, device: string) {
    && u.credentials == s.credentials && u.codes == s.codes && device in u.t.devices
    && u.t.devices[device] ==
         if device in s.t.devices then s.t.devices[device].(active := true)
         else Enrollment.Device(Enrollment.Secondary, true, "", 0)
  }

  ghost predicate NewStored(s: Store, u: Store, device: string, role: Enrollment.Role, key: string, in_: Inputs) {
    && u.credentials == s.credentials + [Credentials.Credential(device, in_.secret, in_.now, None)]
    && device in u.t.devices && u.t.devices[device] == Enrollment.Device(role, true, key, 1)
  }

  /** Whoever gains a device is present under it on this connection, and the device is active.  One that
      comes back keeps its role, its key and its credentials; a new one has the role it was approved for,
      the key its hello offered, and one credential, the one it is welcomed with.  No other device's row
      changes. */
  lemma GainIsStored(cfg: Config, w: World, f: Frame, in_: Inputs, device: string)
    requires w.conn.device.None? && FreshDevice(w, in_) && Gains(cfg, w, f, in_, device)
    ensures
      var s, u := w.store, Receive(cfg, w, f, in_).store;
      && OthersStay(s, u, device) && u.online == s.online[device := cfg.me]
      && if ComesBackBy(cfg, w, f, device) then ReturnStored(s, u, device)
         else NewStored(s, u, device, RoleGained(cfg, w, in_), Introduced(w, f).pubkey, in_)
  {
    Phase(cfg, w, f, in_);
    if w.conn.pending.Some? {
      ProofStores(cfg, Noted(w, f), w.conn.pending.value, f.body.signature, in_, device);
    } else {
      HelloStores(cfg, Noted(w, f), f.body.hello.value, in_, device);
    }
  }

  lemma CompletionStores(cfg: Config, w: World, hello: Hello, role: Enrollment.Role, in_: Inputs)
    requires FreshDevice(w, in_) && hello.registrable && !(role == Enrollment.Primary && w.store.t.HasPrimary())
    ensures
      var u := CompletePairing(cfg, w, hello, role, in_).store;
      && OthersStay(w.store, u, in_.device) && u.online == w.store.online[in_.device := cfg.me]
      && NewStored(w.store, u, in_.device, role, hello.pubkey, in_)
  {
    FreshIsNoPrimary(w.store.t, in_.device);
  }

  lemma HelloStores(cfg: Config, w: World, h: Hello, in_: Inputs, device: string)
    requires FreshDevice(w, in_) && HelloOutcome(cfg, w, Some(h), in_).Attached?
        && HelloOutcome(cfg, w, Some(h), in_).device == device
    ensures
      var s, u := w.store, HandleHello(cfg, w, Some(h), in_).store;
      && OthersStay(s, u, device) && u.online == s.online[device := cfg.me]
      && if PREFIX <= h.credential then NewStored(s, u, device, Enrollment.Secondary, h.pubkey, in_)
         else ReturnStored(s, u, device)
  {
    if PREFIX <= h.credential {
      var code := h.credential[|PREFIX|..];
      var codes := Pairing.Consumed(w.store.codes, cfg.digest(code).value, in_.device, in_.now);
      CompletionStores(cfg, w.(store := w.store.(codes := codes)), h, Enrollment.Secondary, in_);
    }
  }

  lemma ProofStores(cfg: Config, w: World, c: Challenge, signature: Option<string>, in_: Inputs, device: string)
    requires FreshDevice(w, in_) && ProofOutcome(cfg, w.store, c, signature, in_).Attached?
        && ProofOutcome(cfg, w.store, c, signature, in_).device == device
    ensures
      var s, u := w.store, HandleProof(cfg, w, c, signature, in_).store;
      && OthersStay(s, u, device) && u.online == s.online[device := cfg.me]
      && match c.purpose
         case Reconnect(_) => ReturnStored(s, u, device)
         case WithCode(_) => NewStored(s, u, device, Enrollment.Secondary, c.hello.pubkey, in_)
         case Enrolling(id) =>
           cfg.host.Some? &&
           var role := s.t.Consume(id, cfg.host.value, cfg.fingerprint(c.key), in_.now).1;
           role.Ok? && NewStored(s, u, device, role.value, c.hello.pubkey, in_)
  {
    var v := w.(conn := w.conn.(pending := None));
    match c.purpose {
      case WithCode(code) =>
        var codes := Pairing.Consumed(w.store.codes, cfg.digest(code).value, in_.device, in_.now);
        CompletionStores(cfg, v.(store := v.store.(codes := codes)), c.hello, Enrollment.Secondary, in_);
      case Enrolling(id) =>
        var (t, role) := v.store.t.Consume(id, cfg.host.value, cfg.fingerprint(c.key), in_.now);
        assert t.HasPrimary() <==> v.store.t.HasPrimary() by {
          assert forall d :: t.IsPrimary(d) == v.store.t.IsPrimary(d);
        }
        CompletionStores(cfg, v.(store := v.store.(t := t)), c.hello, role.value, in_);
      case Reconnect(_) =>
    }
  }

  /** Over any run: a device gained by proof for the first time is stored with exactly the key that the
      proof verified under. */
  lemma ProvenKeyIsStored(cfg: Config, items: seq<Item>, ws: seq<World>, k: nat, device: string)
    requires Trace(cfg, items, ws) && k < |items| && Gaining(cfg, ws[k], items[k], device)
    requires ws[k].conn.pending.Some? && !ws[k].conn.pending.value.purpose.Reconnect?
    ensures
      var c := ws[k].conn.pending.value;
      && c.key != "" && KeyOf(ws[k + 1].store, device) == c.key
      && exists signature :: items[k].frame.body == ProofBody(Some(signature))
                             && cfg.verify(c.key, PairContext, c.nonce, signature)
  {
    TraceFacts(cfg, items, ws, |items|);
    var j := PendingWasOpened(cfg, items, ws, k);
    GainIsStored(cfg, ws[k], items[k].frame, items[k].inputs, device);
    assert items[k].frame.body == ProofBody(Some(items[k].frame.body.signature.value));
  }

  // ---- Refusals -----------------------------------------------------------------------------------------

  /** The refusals that are no verdict but an exception in the handler: what cannot be encoded or stored. */
  predicate HelloRaises(cfg: Config, s: Store, h: Hello, in_: Inputs) {
    if h.enrollmentId != "" || h.credential == "" then false
    else if PREFIX <= h.credential then
      && !cfg.coordinator
      && var digest := cfg.digest(h.credential[|PREFIX|..]);
         digest.None? || (h.pubkey == "" && Pairing.Live(s.codes, digest.value, in_.now) && !h.registrable)
    else
      || (!Ascii(h.credential) && exists c :: c in s.credentials && Credentials.Live(c))
      || (var device := Credentials.Resolve(s.credentials, h.credential);
          device.Some? && KeyOf(s, device.value) == "" && !h.registrable)
  }

  predicate ProofRaises(cfg: Config, s: Store, c: Challenge, signature: Option<string>, in_: Inputs) {
    ProofGood(cfg, c, signature) &&
    match c.purpose
    case Reconnect(_) => true
    case WithCode(code) => cfg.digest(code).None? || Pairing.Live(s.codes, cfg.digest(code).value, in_.now)
    case Enrolling(id) =>
      cfg.coordinator && cfg.host.Some? &&
      var role := s.t.Consume(id, cfg.host.value, cfg.fingerprint(c.key), in_.now).1;
      role.Ok? || !Enrollment.ValidIdentifier(id)
  }

  /** A refused hello or proof ends the connection, with an authentication failure -- or, where the handler
      raises, without a word. */
  lemma RefusalsExactly(cfg: Config, w: World, h: Hello, c: Challenge, signature: Option<string>, in_: Inputs)
    requires FreshDevice(w, in_)
    ensures
      var u := HandleHello(cfg, w, Some(h), in_).conn;
      HelloOutcome(cfg, w, Some(h), in_).Refused? ==>
        !u.open && u.sent == w.conn.sent + if HelloRaises(cfg, w.store, h, in_) then [] else [AuthFailed]
    ensures
      var u := HandleProof(cfg, w, c, signature, in_).conn;
      ProofOutcome(cfg, w.store, c, signature, in_).Refused? ==>
        !u.open && u.pending.None?
        && u.sent == w.conn.sent + if ProofRaises(cfg, w.store, c, signature, in_) then [] else [AuthFailed]
  {
    assert w.conn.sent + [] == w.conn.sent;
    HelloRefusal(cfg, w, h, in_);
    ProofRefusal(cfg, w, c, signature, in_);
  }

  lemma HelloRefusal(cfg: Config, w: World, h: Hello, in_: Inputs)
    requires FreshDevice(w, in_)
    ensures
      var u := HandleHello(cfg, w, Some(h), in_).conn;
      HelloOutcome(cfg, w, Some(h), in_).Refused? ==>
        !u.open && u.sent == if HelloRaises(cfg, w.store, h, in_) then w.conn.sent else w.conn.sent + [AuthFailed]
  {
    FreshIsNoPrimary(w.store.t, in_.device);
  }

  lemma ProofRefusal(cfg: Config, w: World, c: Challenge, signature: Option<string>, in_: Inputs)
    requires FreshDevice(w, in_)
    ensures
      var u := HandleProof(cfg, w, c, signature, in_).conn;
      ProofOutcome(cfg, w.store, c, signature, in_).Refused? ==>
        !u.open && u.pending.None?
        && u.sent == if ProofRaises(cfg, w.store, c, signature, in_) then w.conn.sent else w.conn.sent + [AuthFailed]
  {
    FreshIsNoPrimary(w.store.t, in_.device);
    if c.purpose.Enrolling? && cfg.host.Some? {
      var t := w.store.t.Consume(c.purpose.id, cfg.host.value, cfg.fingerprint(c.key), in_.now).0;
      FreshIsNoPrimary(t, in_.device);
      assert t.HasPrimary() <==> w.store.t.HasPrimary() by {
        assert forall d :: t.IsPrimary(d) == w.store.t.IsPrimary(d);
      }
    }
  }

  // ---- Coming back --------------------------------------------------------------------------------------

  predicate Offers(f: Frame, secret: string) {
    && f.Envelope? && f.body.HelloBody? && f.body.hello.Some?
    && var h := f.body.hello.value; h.enrollmentId == "" && h.credential == secret && h.registrable
  }

  /** A device with an enrolled key and a live credential comes back over any new connection: its hello
      opens a challenge under that very key and the reconnecting context, and a signature of the nonce,
      whatever happens to the tables in between, makes the connection its own again. */
  lemma EnrolledComesBack(cfg: Config, s: Store, later: Store, device: string, secret: string, hello: Frame,
      proof: Frame, first: Inputs, second: Inputs)
    requires Credentials.Distinct(s.credentials) && Ascii(secret) && secret != "" && !(PREFIX <= secret)
    requires exists c :: c in s.credentials && Credentials.Live(c) && c.device == device && c.secret == secret
    requires KeyOf(s, device) != "" && Offers(hello, secret)
    requires proof.Envelope? && proof.id != hello.id && proof.body.ProofBody? && proof.body.signature.Some?
    requires cfg.verify(KeyOf(s, device), AuthContext, first.nonce, proof.body.signature.value)
    ensures
      var challenged := Receive(cfg, World(FRESH, s), hello, first);
      var back := Receive(cfg, World(challenged.conn, later), proof, second);
      && challenged.store == s && challenged.conn.sent == [ChallengeSent(first.nonce)]
      && back.conn.device == Some(device) && back.conn.open
      && back.conn.sent == [ChallengeSent(first.nonce), WelcomeSent(device, None)]
      && back.store.online == later.online[device := cfg.me]
      && KeyOf(back.store, device) == KeyOf(later, device)
  {
    ComesBackChallenged(cfg, s, device, secret, hello, first);
    var challenged := Receive(cfg, World(FRESH, s), hello, first).conn;
    assert challenged.sent + [WelcomeSent(device, None)] == [ChallengeSent(first.nonce), WelcomeSent(device, None)];
  }

  lemma ComesBackChallenged(cfg: Config, s: Store, device: string, secret: string, hello: Frame, in_: Inputs)
    requires Credentials.Distinct(s.credentials) && Ascii(secret) && secret != "" && !(PREFIX <= secret)
    requires exists c :: c in s.credentials && Credentials.Live(c) && c.device == device && c.secret == secret
    requires KeyOf(s, device) != "" && Offers(hello, secret)
    ensures
      var u := Receive(cfg, World(FRESH, s), hello, in_);
      && u.store == s && u.conn.seen == [hello.id] && u.conn.open && u.conn.device.None?
      && u.conn.sent == [ChallengeSent(in_.nonce)]
      && u.conn.pending ==
           Some(Challenge(hello.body.hello.value, in_.nonce, KeyOf(s, device), AuthContext, Reconnect(device)))
  {
    Credentials.ResolveExact(s.credentials, secret);
    var c :| c in s.credentials && Credentials.Live(c) && c.device == device && c.secret == secret;
    var i :| 0 <= i < |s.credentials| && s.credentials[i] == c;
    assert Credentials.Resolve(s.credentials, secret) == Some(device);
    var idle := World(FRESH, s);
    Phase(cfg, idle, hello, in_);
    assert Receive(cfg, idle, hello, in_) == CredentialHello(cfg, Noted(idle, hello), hello.body.hello.value, in_);
    assert [] + [ChallengeSent(in_.nonce)] == [ChallengeSent(in_.nonce)];
  }

  // ---- Frames out of turn -------------------------------------------------------------------------------

  /** One more complaint: an error frame, and the end of the connection exactly if that is the eleventh
      within a minute. */
  ghost predicate Complains(w: World, u: World, in_: Inputs) {
    var recent := Trackers.Since(w.conn.malformed + [in_.monotonic], in_.monotonic - 60.0);
    && u.store == w.store && u.conn.malformed == recent
    && u.conn.(malformed := w.conn.malformed, open := true, sent := w.conn.sent) == w.conn.(open := true)
    && (u.conn.open <==> |recent| <= 10)
    && u.conn.sent == w.conn.sent + (if |recent| <= 10 then [ErrorSent] else [ErrorSent, ProtocolClose])
  }

  predicate Remembers(w: World, v: World, id: string) {
    v == w.(conn := w.conn.(seen := v.conn.seen)) && v.conn.seen == Trackers.Observe(w.conn.seen, id)
  }

  ghost predicate Ends(w: World, u: World) {
    u == w.(conn := w.conn.(open := false, sent := w.conn.sent + [ProtocolClose]))
  }

  lemma MalformedComplains(w: World, in_: Inputs)
    requires w.conn.open
    ensures Complains(w, Malformed(w, in_), in_)
  {
    assert w.conn.sent + [ErrorSent] + [ProtocolClose] == w.conn.sent + [ErrorSent, ProtocolClose];
  }

  /** Whatever is no envelope, or the wrong thing to say at this point: the exact consequences. */
  lemma OutOfTurnExactly(cfg: Config, w: World, f: Frame, in_: Inputs)
    requires w.conn.open && !(f.Envelope? && f.id in w.conn.seen)
    ensures
      var u := Receive(cfg, w, f, in_);
      match f
      case Garbage => Complains(w, u, in_)
      case WrongVersion => Ends(w, u)
      case Envelope(id, body) =>
        var v := Noted(w, f);
        && Remembers(w, v, id)
        && (w.conn.device.Some? ==> if body.Other? && body.known then u == v else Complains(v, u, in_))
        && (w.conn.device.None? && w.conn.pending.Some? && !body.ProofBody? ==> Ends(v, u))
        && (w.conn.device.None? && w.conn.pending.None? && !body.HelloBody? ==> Ends(v, u))
        && (w.conn.device.None? && w.conn.pending.None? && body == HelloBody(None) ==> Complains(v, u, in_))
  {
    MalformedComplains(w, in_);
    if f.Envelope? { MalformedComplains(Noted(w, f), in_); }
  }
}
