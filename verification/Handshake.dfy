/** The handshake of a node connection (`hdp_bridge/connection.py`): hello, challenge, proof,
    established.  `Receive` is what one inbound frame does to the connection and to the shared
    tables; `NodeConnection` performs it statement by statement and is proved to agree.  Between two
    frames the shared tables may change in any way. */
module Handshake {
  import opened Basics
  import Credentials
  import Enrollment
  import Pairing
  import Roles
  import Trackers

  /** An absent optional field is the empty string, which the source treats alike.  `registrable`:
      the advertised capabilities can be stored (see `Registry.Register`). */
  datatype Hello = Hello(credential: string, pubkey: string, enrollmentId: string, registrable: bool)

  datatype Context = PairContext | AuthContext

  /** What a verified proof is to lead to. */
  datatype Purpose = Reconnect(device: string) | Enrolling(id: string) | WithCode(code: string)

  datatype Challenge = Challenge(hello: Hello, nonce: string, key: string, context: Context, purpose: Purpose)

  /** A frame's payload; None where the codec refuses it.  `Other` is any other type, `known` if a node may send it. */
  datatype Body = HelloBody(hello: Option<Hello>) | ProofBody(signature: Option<string>) | Other(known: bool)

  datatype Frame = Garbage | WrongVersion | Envelope(id: string, body: Body)

  /** Clocks, and the random values this frame's handler would draw. */
  datatype Inputs = Inputs(now: int, monotonic: real, nonce: string, device: string, secret: string)

  /** Fixed per connection: is there a coordinator and a host key, and the uninterpreted parts --
      which keys are usable, their fingerprints, signature verification, and the digest of a pairing
      code (None: it cannot be encoded, and the handler raises). */
  datatype Config = Config(
    me: nat, coordinator: bool, host: Option<string>, usable: string -> bool, fingerprint: string -> string,
    verify: (string, Context, string, string) -> bool, digest: string -> Option<string>)

  datatype Sent =
    | ChallengeSent(nonce: string)
    | WelcomeSent(device: string, secret: Option<string>)
    | ErrorSent | AuthFailed | ProtocolClose

  datatype Conn = Conn(
    device: Option<string>, pending: Option<Challenge>, seen: seq<string>, malformed: seq<real>, open: bool,
        sent: seq<Sent>)

  datatype Store = Store(t: Enrollment.Tables, codes: Pairing.Rows, credentials: seq<Credentials.Credential>,
      online: map<string, nat>)

  datatype World = World(conn: Conn, store: Store)

  const FRESH := Conn(None, None, [], [], true, [])

  // ---- What one frame does ------------------------------------------------------------------------

  function Close(w: World, how: Sent): World { w.(conn := w.conn.(open := false, sent := w.conn.sent + [how])) }

  /** An exception leaves the handler: the connection ends without a word. */
  function Raise(w: World): World { w.(conn := w.conn.(open := false)) }

  function Malformed(w: World, in_: Inputs): World {
    var times := Trackers.Pruned(w.conn.malformed, in_.monotonic);
    var v := w.(conn := w.conn.(malformed := times, sent := w.conn.sent + [ErrorSent]));
    if |times| > Trackers.MALFORMED_LIMIT then Close(v, ProtocolClose) else v
  }

  function FailPairing(w: World, in_: Inputs): World {
    Close(w.(store := w.store.(codes := Pairing.Burned(w.store.codes, in_.now))), AuthFailed)
  }

  function KeyOf(s: Store, device: string): string { if device in s.t.devices then s.t.devices[device].key else "" }

  function Begin(w: World, c: Challenge): World {
    w.(conn := w.conn.(pending := Some(c), sent := w.conn.sent + [ChallengeSent(c.nonce)]))
  }

  /** Take over presence, once the rows are written. */
  function Attach(cfg: Config, w: World, device: string): World {
    World(w.conn.(device := Some(device)), w.store.(online := w.store.online[device := cfg.me]))
  }

  function Welcome(w: World, device: string, secret: Option<string>): World {
    w.(conn := w.conn.(sent := w.conn.sent + [WelcomeSent(device, secret)]))
  }

  /** A device that is known already comes back. */
  function Return(cfg: Config, w: World, device: string, hello: Hello): World {
    if !hello.registrable then Raise(w)
    else Welcome(Attach(cfg, w.(store := w.store.(t := Roles.Register(w.store.t, device))), device), device, None)
  }

  /** A new device: its row, its role, presence, then its key and its credential. */
  function CompletePairing(cfg: Config, w: World, hello: Hello, role: Enrollment.Role, in_: Inputs): World {
    if !hello.registrable then Raise(w)
    else
      var registered := Roles.Register(w.store.t, in_.device);
      var v := w.(store := w.store.(t := registered));
      if role == Enrollment.Primary && registered.HasPrimary() then Raise(v)
      else
        var added := registered.devices[in_.device];
        var key := if hello.pubkey != "" then hello.pubkey else added.key;
        var d := added.(role := role, key := key, credentials := added.credentials + 1);
        var stored := v.store.(t := registered.(devices := registered.devices[in_.device := d]),
                               credentials := v.store.credentials +
                                   [Credentials.Credential(in_.device, in_.secret, in_.now, None)]);
        Welcome(Attach(cfg, v.(store := stored), in_.device), in_.device, Some(in_.secret))
  }

  /** Redeem a code for the new device and complete. */
  function RedeemCode(cfg: Config, w: World, hello: Hello, code: string, in_: Inputs): World {
    var digest := cfg.digest(code);
    if digest.None? then Raise(w)
    else if !Pairing.Live(w.store.codes, digest.value, in_.now) then FailPairing(w, in_)
    else
      var codes := Pairing.Consumed(w.store.codes, digest.value, in_.device, in_.now);
      CompletePairing(cfg, w.(store := w.store.(codes := codes)), hello, Enrollment.Secondary, in_)
  }

  function PairingHello(cfg: Config, w: World, hello: Hello, code: string, in_: Inputs): World {
    if hello.pubkey == "" then RedeemCode(cfg, w, hello, code, in_)
    else
      var digest := cfg.digest(code);
      if digest.None? then Raise(w)
      else if !Pairing.Live(w.store.codes, digest.value, in_.now) || !cfg.usable(hello.pubkey) then FailPairing(w, in_)
      else Begin(w, Challenge(hello, in_.nonce, hello.pubkey, PairContext, WithCode(code)))
  }

  function EnrollmentHello(cfg: Config, w: World, hello: Hello, in_: Inputs): World {
    if !cfg.coordinator || cfg.host.None? || hello.pubkey == "" || !cfg.usable(hello.pubkey) then Close(w, AuthFailed)
    else Begin(w, Challenge(hello, in_.nonce, hello.pubkey, PairContext, Enrolling(hello.enrollmentId)))
  }

  predicate Ascii(text: string) { forall c :: c in text ==> c < '\U{0080}' }

  /** Hashing a presented credential raises if it cannot be encoded -- once there is a live row to
      compare it with. */
  predicate Unencodable(s: Store, credential: string) {
    !Ascii(credential) && exists c :: c in s.credentials && Credentials.Live(c)
  }

  const PREFIX := "pair:"

  function CredentialHello(cfg: Config, w: World, hello: Hello, in_: Inputs): World {
    if Unencodable(w.store, hello.credential) then Raise(w)
    else
      var device := Credentials.Resolve(w.store.credentials, hello.credential);
      if device.None? then Close(w, AuthFailed)
      else
        var key := KeyOf(w.store, device.value);
        if key != "" then Begin(w, Challenge(hello, in_.nonce, key, AuthContext, Reconnect(device.value)))
        else Return(cfg, w, device.value, hello)
  }

  function HandleHello(cfg: Config, w: World, hello: Option<Hello>, in_: Inputs): World {
    if hello.None? then Malformed(w, in_)
    else
      var h := hello.value;
      if h.enrollmentId != "" then EnrollmentHello(cfg, w, h, in_)
      else if PREFIX <= h.credential then
        if cfg.coordinator then FailPairing(w, in_) else PairingHello(cfg, w, h, h.credential[|PREFIX|..], in_)
      else if h.credential == "" then Close(w, AuthFailed)
      else CredentialHello(cfg, w, h, in_)
  }

  function RejectProof(w: World, c: Challenge, in_: Inputs): World {
    if c.purpose.WithCode? then FailPairing(w, in_) else Close(w, AuthFailed)
  }

  function HandleProof(cfg: Config, w: World, c: Challenge, signature: Option<string>, in_: Inputs): World {
    var v := w.(conn := w.conn.(pending := None));
    if signature.None? || !cfg.verify(c.key, c.context, c.nonce, signature.value) then RejectProof(v, c, in_)
    else
      match c.purpose
      case WithCode(code) => RedeemCode(cfg, v, c.hello, code, in_)
      case Enrolling(id) =>
        if !cfg.coordinator || cfg.host.None? then Close(v, AuthFailed)
        else
          var (t, role) := v.store.t.Consume(id, cfg.host.value, cfg.fingerprint(c.key), in_.now);
          if role.Err? then if role.error.BadIdentifier? then Raise(v) else Close(v, AuthFailed)
          else CompletePairing(cfg, v.(store := v.store.(t := t)), c.hello, role.value, in_)
      case Reconnect(device) => Return(cfg, v, device, c.hello)
  }

  function Receive(cfg: Config, w: World, f: Frame, in_: Inputs): World {
    if !w.conn.open then w
    else match f
      case Garbage => Malformed(w, in_)
      case WrongVersion => Close(w, ProtocolClose)
      case Envelope(id, body) =>
        if id in w.conn.seen then w
        else
          var v := w.(conn := w.conn.(seen := Trackers.Remember(w.conn.seen, id)));
          if w.conn.device.Some? then
            if body.Other? && body.known then v else Malformed(v, in_)
          else if w.conn.pending.Some? then
            if body.ProofBody? then HandleProof(cfg, v, w.conn.pending.value, body.signature, in_)
                else Close(v, ProtocolClose)
          else if body.HelloBody? then HandleHello(cfg, v, body.hello, in_)
          else Close(v, ProtocolClose)
  }

  // ---- When a device is gained, and when a challenge is set ---------------------------------------

  /** A first-seen hello arriving before any handshake has begun. */
  predicate Greets(w: World, f: Frame, h: Hello) {
    w.conn.open && w.conn.device.None? && w.conn.pending.None? && f.Envelope? && f.id !in w.conn.seen
        && f.body == HelloBody(Some(h))
  }

  /** A first-seen proof, verified under the key, the context and the nonce of the outstanding challenge. */
  predicate Proves(cfg: Config, w: World, f: Frame) {
    && w.conn.open && w.conn.device.None? && w.conn.pending.Some? && f.Envelope? && f.id !in w.conn.seen
    && f.body.ProofBody? && f.body.signature.Some?
    && var c := w.conn.pending.value; cfg.verify(c.key, c.context, c.nonce, f.body.signature.value)
  }

  predicate CodeLive(cfg: Config, s: Store, code: string, now: int) {
    cfg.digest(code).Some? && Pairing.Live(s.codes, cfg.digest(code).value, now)
  }

  /** The three hellos that carry no more than a secret, or name an enrollment. */
  predicate AsksByCredential(h: Hello) { h.enrollmentId == "" && h.credential != "" && !(PREFIX <= h.credential) }

  predicate AsksByCode(cfg: Config, h: Hello) { h.enrollmentId == "" && PREFIX <= h.credential && !cfg.coordinator }

  /** A live credential of `device`, which has enrolled no key. */
  predicate ByCredential(w: World, f: Frame, device: string) {
    f.Envelope? && f.body.HelloBody? && f.body.hello.Some? && Greets(w, f, f.body.hello.value)
    && var h := f.body.hello.value;
       && AsksByCredential(h) && !Unencodable(w.store, h.credential)
       && Credentials.Resolve(w.store.credentials, h.credential) == Some(device) && KeyOf(w.store, device) == ""
           && h.registrable
  }

  /** A live code with no key, where no coordinator is configured. */
  predicate ByCode(cfg: Config, w: World, f: Frame, in_: Inputs) {
    f.Envelope? && f.body.HelloBody? && f.body.hello.Some? && Greets(w, f, f.body.hello.value)
    && var h := f.body.hello.value;
       AsksByCode(cfg, h) && h.pubkey == "" && CodeLive(cfg, w.store, h.credential[|PREFIX|..], in_.now)
           && h.registrable
  }

  /** A proof of the outstanding challenge, whose purpose can still be met. */
  predicate ByProof(cfg: Config, w: World, f: Frame, in_: Inputs, device: string) {
    && Proves(cfg, w, f)
    && var c := w.conn.pending.value;
       && c.hello.registrable
       && match c.purpose
          case Reconnect(d) => device == d
          case WithCode(code) => device == in_.device && CodeLive(cfg, w.store, code, in_.now)
          case Enrolling(id) =>
            && device == in_.device && cfg.coordinator && cfg.host.Some?
            && var role := w.store.t.Consume(id, cfg.host.value, cfg.fingerprint(c.key), in_.now).1;
               role.Ok? && !(role.value == Enrollment.Primary && w.store.t.HasPrimary())
  }

  predicate Gains(cfg: Config, w: World, f: Frame, in_: Inputs, device: string) {
    ByCredential(w, f, device) || (ByCode(cfg, w, f, in_) && device == in_.device) || ByProof(cfg, w, f, in_, device)
  }

  /** The hello that a challenge answers: what had to hold then. */
  predicate Opens(cfg: Config, w: World, f: Frame, in_: Inputs, c: Challenge) {
    && Greets(w, f, c.hello) && c.nonce == in_.nonce && c.key != ""
    && match c.purpose
       case Reconnect(d) =>
         && c.context == AuthContext && AsksByCredential(c.hello) && !Unencodable(w.store, c.hello.credential)
         && Credentials.Resolve(w.store.credentials, c.hello.credential) == Some(d) && KeyOf(w.store, d) == c.key
       case Enrolling(id) =>
         && c.context == PairContext && cfg.coordinator && cfg.host.Some?
         && c.key == c.hello.pubkey && cfg.usable(c.key) && id == c.hello.enrollmentId != ""
       case WithCode(code) =>
         && c.context == PairContext && AsksByCode(cfg, c.hello) && code == c.hello.credential[|PREFIX|..]
         && c.key == c.hello.pubkey && cfg.usable(c.key) && CodeLive(cfg, w.store, code, in_.now)
  }

  predicate FreshDevice(w: World, in_: Inputs) { in_.device !in w.store.t.devices }
}
