/** How a connection can come by a device id, over any sequence of frames and any changes to the
    shared tables in between. */
module HandshakeSafety {
  import opened Basics
  import opened Handshake
  import Credentials
  import Enrollment
  import Pairing
  import Roles
  import Trackers

  // ---- One frame --------------------------------------------------------------------------------------

  /** The handshake's phases: a device excludes an outstanding challenge, and an open connection with
      neither has been sent no challenge yet. */
  predicate Phased(c: Conn) {
    && (c.device.Some? ==> c.pending.None?)
    && (c.open && c.device.None? && c.pending.None? ==> forall s :: s in c.sent ==> !s.ChallengeSent?)
    && (c.pending.Some? ==> ChallengeSent(c.pending.value.nonce) in c.sent)
    && (c.device.None? ==> forall s :: s in c.sent ==> !s.WelcomeSent?)
    && OneChallenge(c.sent)
  }

  predicate OneChallenge(sent: seq<Sent>) {
    forall i, j :: 0 <= i < j < |sent| ==> !(sent[i].ChallengeSent? && sent[j].ChallengeSent?)
  }

  /** What can become of a connection whose handshake step started from `c`. */
  datatype Outcome =
    | Challenged(challenge: Challenge)
    | Attached(device: string, secret: Option<string>)
    | Refused | Complained

  ghost predicate Becomes(c: Conn, after: Conn, o: Outcome) {
    && after.seen == c.seen
    && match o
       case Challenged(ch) => after == c.(pending := Some(ch), sent := c.sent + [ChallengeSent(ch.nonce)])
       case Attached(device, secret) => after ==
           c.(device := Some(device), sent := c.sent + [WelcomeSent(device, secret)])
       case Refused => !after.open && after == c.(open := false, sent := after.sent)
           && after.sent in {c.sent, c.sent + [AuthFailed]}
       case Complained => after == c.(malformed := after.malformed, open := after.open, sent := after.sent)
                          && after.sent in {c.sent + [ErrorSent], c.sent + [ErrorSent, ProtocolClose]}
  }

  lemma FreshIsNoPrimary(t: Enrollment.Tables, device: string)
    requires device !in t.devices
    ensures Roles.Register(t, device).HasPrimary() <==> t.HasPrimary()
  {
    var u := Roles.Register(t, device);
    assert forall d :: d != device ==> u.IsPrimary(d) == t.IsPrimary(d);
    assert !u.IsPrimary(device);
  }

  lemma CompleteBecomes(cfg: Config, w: World, hello: Hello, role: Enrollment.Role, in_: Inputs)
    requires FreshDevice(w, in_)
    ensures Becomes(w.conn, CompletePairing(cfg, w, hello, role, in_).conn,
              if hello.registrable && !(role == Enrollment.Primary && w.store.t.HasPrimary())
                  then Attached(in_.device, Some(in_.secret)) else Refused)
  {
    FreshIsNoPrimary(w.store.t, in_.device);
  }

  lemma RedeemBecomes(cfg: Config, w: World, hello: Hello, code: string, in_: Inputs)
    requires FreshDevice(w, in_)
    ensures Becomes(w.conn, RedeemCode(cfg, w, hello, code, in_).conn,
              if CodeLive(cfg, w.store, code, in_.now) && hello.registrable then Attached(in_.device, Some(in_.secret))
                  else Refused)
  {
    if CodeLive(cfg, w.store, code, in_.now) {
      var codes := Pairing.Consumed(w.store.codes, cfg.digest(code).value, in_.device, in_.now);
      CompleteBecomes(cfg, w.(store := w.store.(codes := codes)), hello, Enrollment.Secondary, in_);
    }
  }

  /** The answer to a hello, told from the tables. */
  function HelloOutcome(cfg: Config, w: World, hello: Option<Hello>, in_: Inputs): Outcome {
    if hello.None? then Complained
    else
      var h := hello.value;
      if h.enrollmentId != "" then
        if cfg.coordinator && cfg.host.Some? && h.pubkey != "" && cfg.usable(h.pubkey)
        then Challenged(Challenge(h, in_.nonce, h.pubkey, PairContext, Enrolling(h.enrollmentId))) else Refused
      else if PREFIX <= h.credential then
        var code := h.credential[|PREFIX|..];
        if cfg.coordinator || !CodeLive(cfg, w.store, code, in_.now) then Refused
        else if h.pubkey == "" then if h.registrable then Attached(in_.device, Some(in_.secret)) else Refused
        else if cfg.usable(h.pubkey) then Challenged(Challenge(h, in_.nonce, h.pubkey, PairContext, WithCode(code)))
            else Refused
      else
        var device := Credentials.Resolve(w.store.credentials, h.credential);
        if h.credential == "" || Unencodable(w.store, h.credential) || device.None? then Refused
        else
          var key := KeyOf(w.store, device.value);
          if key != "" then Challenged(Challenge(h, in_.nonce, key, AuthContext, Reconnect(device.value)))
          else if h.registrable then Attached(device.value, None) else Refused
  }

  lemma HelloBecomes(cfg: Config, w: World, hello: Option<Hello>, in_: Inputs)
    requires FreshDevice(w, in_)
    ensures Becomes(w.conn, HandleHello(cfg, w, hello, in_).conn, HelloOutcome(cfg, w, hello, in_))
  {
    MalformedShape(w, in_);
    if hello.Some? && hello.value.enrollmentId == "" && PREFIX <= hello.value.credential && !cfg.coordinator
        && hello.value.pubkey == "" {
      RedeemBecomes(cfg, w, hello.value, hello.value.credential[|PREFIX|..], in_);
    }
  }

  predicate ProofGood(cfg: Config, c: Challenge, signature: Option<string>) {
    signature.Some? && cfg.verify(c.key, c.context, c.nonce, signature.value)
  }

  function ProofOutcome(cfg: Config, s: Store, c: Challenge, signature: Option<string>, in_: Inputs): Outcome {
    if !ProofGood(cfg, c, signature) || !c.hello.registrable then Refused
    else match c.purpose
      case Reconnect(d) => Attached(d, None)
      case WithCode(code) => if CodeLive(cfg, s, code, in_.now) then Attached(in_.device, Some(in_.secret)) else Refused
      case Enrolling(id) =>
        if !cfg.coordinator || cfg.host.None? then Refused
        else
          var role := s.t.Consume(id, cfg.host.value, cfg.fingerprint(c.key), in_.now).1;
          if role.Ok? && !(role.value == Enrollment.Primary && s.t.HasPrimary())
              then Attached(in_.device, Some(in_.secret)) else Refused
  }

  lemma ProofBecomes(cfg: Config, w: World, c: Challenge, signature: Option<string>, in_: Inputs)
    requires FreshDevice(w, in_)
    ensures Becomes(w.conn.(pending := None), HandleProof(cfg, w, c, signature, in_).conn,
        ProofOutcome(cfg, w.store, c, signature, in_))
  {
    var v := w.(conn := w.conn.(pending := None));
    if ProofGood(cfg, c, signature) {
      match c.purpose {
        case WithCode(code) => RedeemBecomes(cfg, v, c.hello, code, in_);
        case Enrolling(id) =>
          if cfg.coordinator && cfg.host.Some? {
            var (t, role) := v.store.t.Consume(id, cfg.host.value, cfg.fingerprint(c.key), in_.now);
            if role.Ok? {
              CompleteBecomes(cfg, v.(store := v.store.(t := t)), c.hello, role.value, in_);
              assert t.HasPrimary() <==> v.store.t.HasPrimary() by {
                assert forall d :: t.IsPrimary(d) == v.store.t.IsPrimary(d);
              }
            }
          }
        case Reconnect(_) =>
      }
    }
  }

  function Noted(w: World, f: Frame): World
    requires f.Envelope?
  {
    w.(conn := w.conn.(seen := Trackers.Remember(w.conn.seen, f.id)))
  }

  /** The step a frame takes, by the phase it meets. */
  lemma Phase(cfg: Config, w: World, f: Frame, in_: Inputs)
    ensures
      var u := Receive(cfg, w, f, in_);
      && (!w.conn.open || (f.Envelope? && f.id in w.conn.seen) ==> u == w)
      && (w.conn.open && f.Envelope? && f.id !in w.conn.seen && w.conn.device.None? ==>
            u == if w.conn.pending.Some? then
                   if f.body.ProofBody? then HandleProof(cfg, Noted(w, f), w.conn.pending.value, f.body.signature, in_)
                       else Close(Noted(w, f), ProtocolClose)
                 else if f.body.HelloBody? then HandleHello(cfg, Noted(w, f), f.body.hello, in_)
                     else Close(Noted(w, f), ProtocolClose))
      && (w.conn.open && (!f.Envelope? || (f.id !in w.conn.seen && w.conn.device.Some?)) ==>
            && u.store == w.store && u.conn.device == w.conn.device && u.conn.pending == w.conn.pending
            && (u.conn.open ==> w.conn.open)
            && u.conn.sent in {w.conn.sent, w.conn.sent + [ErrorSent], w.conn.sent + [ErrorSent, ProtocolClose],
                w.conn.sent + [ProtocolClose]})
  {
    if f.Garbage? || f.Envelope? {
      MalformedShape(w, in_);
      if f.Envelope? { MalformedShape(Noted(w, f), in_); }
    }
  }

  lemma MalformedShape(w: World, in_: Inputs)
    ensures Becomes(w.conn, Malformed(w, in_).conn, Complained) && Malformed(w, in_).store == w.store
    ensures Malformed(w, in_).conn.open ==> w.conn.open
  {
    assert w.conn.sent + [ErrorSent] + [ProtocolClose] == w.conn.sent + [ErrorSent, ProtocolClose];
  }

  lemma PhasesKept(cfg: Config, w: World, f: Frame, in_: Inputs)
    requires Phased(w.conn) && FreshDevice(w, in_)
    ensures Phased(Receive(cfg, w, f, in_).conn)
  {
    Phase(cfg, w, f, in_);
    if f.Envelope? && w.conn.device.None? {
      HelloBecomes(cfg, Noted(w, f), if f.body.HelloBody? then f.body.hello else None, in_);
      if w.conn.pending.Some? {
        ProofBecomes(cfg, Noted(w, f), w.conn.pending.value, if f.body.ProofBody? then f.body.signature else None, in_);
      }
    }
  }

  predicate ProvesReturn(cfg: Config, w: World, f: Frame) {
    Proves(cfg, w, f) && w.conn.pending.value.purpose.Reconnect?
  }

  /** A device is gained exactly in the three ways there are, and then the peer is welcomed as that
      device -- with its new credential unless it is returning. */
  lemma GainExactly(cfg: Config, w: World, f: Frame, in_: Inputs, device: string)
    requires w.conn.device.None? && FreshDevice(w, in_)
    ensures Receive(cfg, w, f, in_).conn.device == Some(device) <==> Gains(cfg, w, f, in_, device)
    ensures Gains(cfg, w, f, in_, device) ==>
              Receive(cfg, w, f, in_).conn.sent ==
              w.conn.sent
              + [WelcomeSent(device,
                             if ByCredential(w, f, device) || ProvesReturn(cfg, w, f) then None else Some(in_.secret))]
  {
    Phase(cfg, w, f, in_);
    if f.Envelope? {
      if f.body.HelloBody? { HelloBecomes(cfg, Noted(w, f), f.body.hello, in_); }
      if f.body.ProofBody? && w.conn.pending.Some? {
        ProofBecomes(cfg, Noted(w, f), w.conn.pending.value, f.body.signature, in_);
      }
    }
  }

  /** A challenge becomes outstanding exactly when a hello opens it. */
  lemma ChallengeExactly(cfg: Config, w: World, f: Frame, in_: Inputs, c: Challenge)
    requires w.conn.pending.None? && FreshDevice(w, in_)
    ensures Receive(cfg, w, f, in_).conn.pending == Some(c) <==> Opens(cfg, w, f, in_, c)
  {
    Phase(cfg, w, f, in_);
    if f.Envelope? && w.conn.device.None? && f.body.HelloBody? {
      HelloBecomes(cfg, Noted(w, f), f.body.hello, in_);
    }
  }

  // ---- What a frame may spend ---------------------------------------------------------------------------

  /** A code redeemed without a key, which only happens with no coordinator. */
  predicate RedeemsBare(cfg: Config, w: World, f: Frame, in_: Inputs) {
    f.Envelope? && f.body.HelloBody? && f.body.hello.Some? && Greets(w, f, f.body.hello.value)
    && var h := f.body.hello.value;
       AsksByCode(cfg, h) && h.pubkey == "" && CodeLive(cfg, w.store, h.credential[|PREFIX|..], in_.now)
  }

  predicate RedeemsProven(cfg: Config, w: World, f: Frame, in_: Inputs) {
    && Proves(cfg, w, f) && w.conn.pending.value.purpose.WithCode?
    && CodeLive(cfg, w.store, w.conn.pending.value.purpose.code, in_.now)
  }

  /** A pairing attempt that fails, and could be judged. */
  predicate FailsPairing(cfg: Config, w: World, f: Frame, in_: Inputs) {
    && f.Envelope?
    && match f.body
       case HelloBody(Some(h)) =>
         && Greets(w, f, h) && h.enrollmentId == "" && PREFIX <= h.credential
         && var digest := cfg.digest(h.credential[|PREFIX|..]);
            cfg.coordinator || (digest.Some?
                && !(Pairing.Live(w.store.codes, digest.value, in_.now) && (h.pubkey == "" || cfg.usable(h.pubkey))))
       case ProofBody(signature) =>
         && w.conn.open && w.conn.device.None? && f.id !in w.conn.seen && w.conn.pending.Some?
             && w.conn.pending.value.purpose.WithCode?
         && var digest := cfg.digest(w.conn.pending.value.purpose.code);
            !ProofGood(cfg, w.conn.pending.value, signature)
                || (digest.Some? && !Pairing.Live(w.store.codes, digest.value, in_.now))
       case _ => false
  }

  /** Exactly which frames touch the pairing codes, and how. */
  lemma CodesExactly(cfg: Config, w: World, f: Frame, in_: Inputs)
    ensures Receive(cfg, w, f, in_).store.codes ==
      if RedeemsBare(cfg, w, f, in_) then Pairing.Consumed(w.store.codes,
          cfg.digest(f.body.hello.value.credential[|PREFIX|..]).value, in_.device, in_.now)
      else if RedeemsProven(cfg, w, f, in_)
          then Pairing.Consumed(w.store.codes, cfg.digest(w.conn.pending.value.purpose.code).value, in_.device, in_.now)
      else if FailsPairing(cfg, w, f, in_) then Pairing.Burned(w.store.codes, in_.now)
      else w.store.codes
  {
    Phase(cfg, w, f, in_);
  }

  /** What no frame does to the tables: no known device changes its role, its enrolled key or its
      credentials; no live enrollment is consumed, no device row added and no credential issued
      unless a proof has just verified, or a key-less hello presented a live credential or a live code. */
  ghost predicate Spared(cfg: Config, w: World, f: Frame, in_: Inputs, s: Store) {
    && s.t.lock == w.store.t.lock
    && (forall d :: d in w.store.t.devices ==>
          d in s.t.devices && (s.t.devices[d].role, s.t.devices[d].key, s.t.devices[d].credentials) ==
                              (w.store.t.devices[d].role, w.store.t.devices[d].key, w.store.t.devices[d].credentials))
    && (s.t.enrollments != w.store.t.enrollments ==>
          && Proves(cfg, w, f) && w.conn.pending.value.purpose.Enrolling? && cfg.host.Some?
          && var (t, role) := w.store.t.Consume(w.conn.pending.value.purpose.id, cfg.host.value,
              cfg.fingerprint(w.conn.pending.value.key), in_.now);
             role.Ok? && s.t.enrollments == t.enrollments)
    && (s.credentials != w.store.credentials ==>
          && (Proves(cfg, w, f) || RedeemsBare(cfg, w, f, in_))
          && s.credentials == w.store.credentials + [Credentials.Credential(in_.device, in_.secret, in_.now, None)])
    && (forall d :: d in s.t.devices && d !in w.store.t.devices ==>
          Proves(cfg, w, f) || RedeemsBare(cfg, w, f, in_) || ByCredential(w, f, d))
  }

  /** At most these devices are new and this credential issued; everything known stays. */
  ghost predicate Grows(s: Store, u: Store, devices: set<string>, issued: seq<Credentials.Credential>) {
    && u.t.lock == s.t.lock && u.t.enrollments == s.t.enrollments
    && u.credentials in {s.credentials, s.credentials + issued}
    && (forall d :: d in s.t.devices ==>
          d in u.t.devices && (u.t.devices[d].role, u.t.devices[d].key, u.t.devices[d].credentials) ==
                              (s.t.devices[d].role, s.t.devices[d].key, s.t.devices[d].credentials))
    && (forall d :: d in u.t.devices && d !in s.t.devices ==> d in devices)
  }

  function Issued(in_: Inputs): seq<Credentials.Credential> {
    [Credentials.Credential(in_.device, in_.secret, in_.now, None)]
  }

  lemma CompleteGrows(cfg: Config, w: World, hello: Hello, role: Enrollment.Role, in_: Inputs)
    requires FreshDevice(w, in_)
    ensures Grows(w.store, CompletePairing(cfg, w, hello, role, in_).store, {in_.device}, Issued(in_))
  {
  }

  lemma RedeemGrows(cfg: Config, w: World, hello: Hello, code: string, in_: Inputs)
    requires FreshDevice(w, in_)
    ensures var live := CodeLive(cfg, w.store, code, in_.now);
            Grows(w.store, RedeemCode(cfg, w, hello, code, in_).store,
                  if live then {in_.device} else {}, if live then Issued(in_) else [])
  {
    if CodeLive(cfg, w.store, code, in_.now) {
      var codes := Pairing.Consumed(w.store.codes, cfg.digest(code).value, in_.device, in_.now);
      CompleteGrows(cfg, w.(store := w.store.(codes := codes)), hello, Enrollment.Secondary, in_);
    }
  }

  lemma HelloGrows(cfg: Config, w: World, h: Option<Hello>, in_: Inputs)
    requires FreshDevice(w, in_)
    ensures
      var o := HelloOutcome(cfg, w, h, in_);
      var bare := h.Some? && AsksByCode(cfg, h.value) && h.value.pubkey == ""
          && CodeLive(cfg, w.store, h.value.credential[|PREFIX|..], in_.now);
      Grows(w.store, HandleHello(cfg, w, h, in_).store,
            if bare then {in_.device} else if o.Attached? then {o.device} else {}, if bare then Issued(in_) else [])
  {
    MalformedShape(w, in_);
    if h.Some? && AsksByCode(cfg, h.value) && h.value.pubkey == "" {
      RedeemGrows(cfg, w, h.value, h.value.credential[|PREFIX|..], in_);
    }
  }

  lemma ProofGrows(cfg: Config, w: World, c: Challenge, signature: Option<string>, in_: Inputs)
    requires FreshDevice(w, in_) && ProofGood(cfg, c, signature)
    ensures
      var u := HandleProof(cfg, w, c, signature, in_).store;
      var device := if c.purpose.Reconnect? then c.purpose.device else in_.device;
      if c.purpose.Enrolling? && cfg.coordinator && cfg.host.Some?
          && w.store.t.Consume(c.purpose.id, cfg.host.value, cfg.fingerprint(c.key), in_.now).1.Ok? then
        Grows(w.store.(t := w.store.t.Consume(c.purpose.id, cfg.host.value, cfg.fingerprint(c.key), in_.now).0), u,
            {device}, Issued(in_))
      else Grows(w.store, u, {device}, Issued(in_))
  {
    var v := w.(conn := w.conn.(pending := None));
    match c.purpose {
      case WithCode(code) => RedeemGrows(cfg, v, c.hello, code, in_);
      case Enrolling(id) =>
        if cfg.coordinator && cfg.host.Some? {
          var (t, role) := v.store.t.Consume(id, cfg.host.value, cfg.fingerprint(c.key), in_.now);
          if role.Ok? { CompleteGrows(cfg, v.(store := v.store.(t := t)), c.hello, role.value, in_); }
        }
      case Reconnect(_) =>
    }
  }

  lemma NothingSpentBeforeProof(cfg: Config, w: World, f: Frame, in_: Inputs)
    requires FreshDevice(w, in_)
    ensures Spared(cfg, w, f, in_, Receive(cfg, w, f, in_).store)
  {
    Phase(cfg, w, f, in_);
    if f.Envelope? && f.body.HelloBody? && w.conn.pending.None? { HelloGrows(cfg, Noted(w, f), f.body.hello, in_); }
    if Proves(cfg, w, f) { ProofGrows(cfg, Noted(w, f), w.conn.pending.value, f.body.signature, in_); }
  }

  /** A verified enrollment proof completes the enrollment exactly as the role rules say. */
  lemma EnrollingCompletes(cfg: Config, w: World, f: Frame, in_: Inputs)
    requires FreshDevice(w, in_) && Proves(cfg, w, f) && w.conn.pending.value.purpose.Enrolling?
    requires var c := w.conn.pending.value; c.hello.registrable && c.hello.pubkey == c.key != ""
    requires cfg.coordinator && cfg.host.Some?
    ensures
      var c := w.conn.pending.value;
      var (t, result) := Roles.Complete(w.store.t, c.purpose.id, cfg.host.value, cfg.fingerprint(c.key), in_.device,
          c.key, in_.now, true);
      && Receive(cfg, w, f, in_).store.t == t
      && (Receive(cfg, w, f, in_).conn.device == Some(in_.device) <==> result.Enrolled?)
  {
    Phase(cfg, w, f, in_);
    var c := w.conn.pending.value;
    ProofBecomes(cfg, Noted(w, f), c, f.body.signature, in_);
    FreshIsNoPrimary(w.store.t, in_.device);
  }

  // ---- Runs ---------------------------------------------------------------------------------------------

  /** A frame arrives, or something else happens to the shared tables. */
  datatype Item = Arrives(frame: Frame, inputs: Inputs) | Elsewhere(store: Store)

  function Next(cfg: Config, w: World, item: Item): World {
    match item
    case Arrives(f, in_) => Receive(cfg, w, f, in_)
    case Elsewhere(s) => w.(store := s)
  }

  /** `ws` are the worlds a new connection goes through; minted device ids are fresh. */
  ghost predicate Trace(cfg: Config, items: seq<Item>, ws: seq<World>) {
    && |ws| == |items| + 1 && ws[0].conn == FRESH
    && forall k :: 0 <= k < |items| ==>
         ws[k + 1] == Next(cfg, ws[k], items[k]) && (items[k].Arrives? ==> FreshDevice(ws[k], items[k].inputs))
  }

  /** What a step from `w` to `u` tells. */
  ghost predicate Facts(cfg: Config, w: World, item: Item, u: World) {
    && Phased(u.conn)
    && (w.conn.device.Some? ==> u.conn.device == w.conn.device)
    && (w.conn.device.None? ==> forall d :: u.conn.device == Some(d) <==> Gaining(cfg, w, item, d))
    && (w.conn.pending.Some? && u.conn.pending.Some? ==> u.conn.pending == w.conn.pending)
    && (w.conn.pending.None? ==> forall c :: u.conn.pending == Some(c) <==> Opening(cfg, w, item, c))
  }

  ghost predicate Gaining(cfg: Config, w: World, item: Item, device: string) {
    item.Arrives? && w.conn.device.None? && Gains(cfg, w, item.frame, item.inputs, device)
  }

  ghost predicate Opening(cfg: Config, w: World, item: Item, c: Challenge) {
    item.Arrives? && Opens(cfg, w, item.frame, item.inputs, c)
  }

  lemma PendingStays(cfg: Config, w: World, f: Frame, in_: Inputs)
    requires w.conn.pending.Some? && Phased(w.conn) && FreshDevice(w, in_) && Receive(cfg, w, f, in_).conn.pending.Some?
    ensures Receive(cfg, w, f, in_).conn.pending == w.conn.pending
  {
    Phase(cfg, w, f, in_);
    if f.Envelope? && f.body.ProofBody? { ProofBecomes(cfg, Noted(w, f), w.conn.pending.value, f.body.signature, in_); }
  }

  lemma StepFacts(cfg: Config, w: World, item: Item)
    requires Phased(w.conn) && (item.Arrives? ==> FreshDevice(w, item.inputs))
    ensures Facts(cfg, w, item, Next(cfg, w, item))
  {
    if item.Arrives? {
      var f, in_ := item.frame, item.inputs;
      var u := Receive(cfg, w, f, in_);
      PhasesKept(cfg, w, f, in_);
      if w.conn.device.Some? {
        Phase(cfg, w, f, in_);
      } else {
        forall d ensures u.conn.device == Some(d) <==> Gaining(cfg, w, item, d) { GainExactly(cfg, w, f, in_, d); }
      }
      if w.conn.pending.None? {
        forall c ensures u.conn.pending == Some(c) <==> Opening(cfg, w, item, c) {
          ChallengeExactly(cfg, w, f, in_, c);
        }
      } else if u.conn.pending.Some? {
        PendingStays(cfg, w, f, in_);
      }
    }
  }

  lemma {:induction false} TraceFacts(cfg: Config, items: seq<Item>, ws: seq<World>, n: nat)
    requires Trace(cfg, items, ws) && n <= |items|
    ensures forall k :: 0 <= k < n ==> Facts(cfg, ws[k], items[k], ws[k + 1])
    ensures Phased(ws[n].conn)
  {
    if n > 0 {
      TraceFacts(cfg, items, ws, n - 1);
      StepFacts(cfg, ws[n - 1], items[n - 1]);
    }
  }

  ghost predicate AllFacts(cfg: Config, items: seq<Item>, ws: seq<World>) {
    && |ws| == |items| + 1 && ws[0].conn == FRESH
    && forall k :: 0 <= k < |items| ==> Facts(cfg, ws[k], items[k], ws[k + 1])
  }

  /** Item `j` is the hello that opened the challenge outstanding at `k`, and nothing has answered it since. */
  ghost predicate OpenedAt(cfg: Config, items: seq<Item>, ws: seq<World>, j: nat, k: nat) {
    && j < k < |ws| == |items| + 1 && ws[k].conn.pending.Some?
    && Opening(cfg, ws[j], items[j], ws[k].conn.pending.value)
    && forall i :: j < i <= k ==> ws[i].conn.pending == ws[k].conn.pending
  }

  lemma {:induction false} PendingWasOpened(cfg: Config, items: seq<Item>, ws: seq<World>, k: nat) returns (j: nat)
    requires AllFacts(cfg, items, ws) && k <= |items| && ws[k].conn.pending.Some?
    ensures OpenedAt(cfg, items, ws, j, k)
  {
    assert Facts(cfg, ws[k - 1], items[k - 1], ws[k]);
    if ws[k - 1].conn.pending.Some? {
      j := PendingWasOpened(cfg, items, ws, k - 1);
    } else {
      j := k - 1;
      assert Opening(cfg, ws[j], items[j], ws[k].conn.pending.value);
    }
  }

  lemma {:induction false} DeviceStaysTo(cfg: Config, items: seq<Item>, ws: seq<World>, i: nat, k: nat)
    requires AllFacts(cfg, items, ws) && i <= k <= |items| && ws[i].conn.device.Some?
    ensures ws[k].conn.device == ws[i].conn.device
  {
    if i < k {
      DeviceStaysTo(cfg, items, ws, i, k - 1);
      assert Facts(cfg, ws[k - 1], items[k - 1], ws[k]);
    }
  }

  /** Item `k` is the one frame by which the connection gained `device`; if it was a proof, it answered
      a challenge that a hello of this connection had opened. */
  ghost predicate EarnedAt(cfg: Config, items: seq<Item>, ws: seq<World>, k: nat, device: string) {
    && k < |items| && |ws| == |items| + 1 && Gaining(cfg, ws[k], items[k], device)
    && (ws[k].conn.pending.Some? ==> exists j :: OpenedAt(cfg, items, ws, j, k))
    && forall i, other :: 0 <= i < |items| && i != k ==> !Gaining(cfg, ws[i], items[i], other)
  }

  lemma {:induction false} GainedOnce(cfg: Config, items: seq<Item>, ws: seq<World>, k: nat, device: string)
    requires AllFacts(cfg, items, ws) && k < |items| && Gaining(cfg, ws[k], items[k], device)
    ensures EarnedAt(cfg, items, ws, k, device)
  {
    assert Facts(cfg, ws[k], items[k], ws[k + 1]);
    forall i, other | 0 <= i < |items| && i != k ensures !Gaining(cfg, ws[i], items[i], other) {
      assert Facts(cfg, ws[i], items[i], ws[i + 1]);
      if i > k {
        DeviceStaysTo(cfg, items, ws, k + 1, i);
      } else if Gaining(cfg, ws[i], items[i], other) {
        DeviceStaysTo(cfg, items, ws, i + 1, k);
      }
    }
    if ws[k].conn.pending.Some? {
      var j := PendingWasOpened(cfg, items, ws, k);
    }
  }

  lemma {:induction false} FindGain(cfg: Config, items: seq<Item>, ws: seq<World>, n: nat) returns (k: nat)
    requires AllFacts(cfg, items, ws) && n <= |items| && ws[n].conn.device.Some?
    ensures k < n && Gaining(cfg, ws[k], items[k], ws[n].conn.device.value)
  {
    assert Facts(cfg, ws[n - 1], items[n - 1], ws[n]);
    if ws[n - 1].conn.device.Some? {
      k := FindGain(cfg, items, ws, n - 1);
    } else {
      k := n - 1;
    }
  }

  /** Over any run: a connection that has a device id gained it once, by exactly one frame, in one of
      the three ways; if by a proof, that proof answered a challenge which a hello of this very
      connection had opened under the matching context, with a nonce drawn for it, and which nothing
      had answered in between.  And it is sent at most one challenge, so it has at most one attempt. */
  lemma DeviceIsEarned(cfg: Config, items: seq<Item>, ws: seq<World>, n: nat)
    requires Trace(cfg, items, ws) && n <= |items|
    ensures OneChallenge(ws[n].conn.sent)
    ensures ws[n].conn.device.Some? ==> exists k: nat :: k < n && EarnedAt(cfg, items, ws, k, ws[n].conn.device.value)
  {
    TraceFacts(cfg, items, ws, |items|);
    TraceFacts(cfg, items, ws, n);
    if ws[n].conn.device.Some? {
      var k := FindGain(cfg, items, ws, n);
      GainedOnce(cfg, items, ws, k, ws[n].conn.device.value);
    }
  }
}
