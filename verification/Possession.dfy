/** What a device gained by a proof says about who holds the key, and why one signature serves only one
    connection and one purpose: the signed bytes name the context and the nonce
    (`hdp_bridge/connection.py`, `device_keys.py`). */
module Possession {
  import opened Basics
  import Bootstrap
  import opened Handshake
  import opened HandshakeSafety
  import opened SignedBytes

  /** One connection's whole run. */
  datatype Session = Session(cfg: Config, items: seq<Item>, ws: seq<World>)

  ghost predicate Runs(s: Session) { Trace(s.cfg, s.items, s.ws) }

  /** The session has challenged the holder of this key. */
  ghost predicate Challenges(s: Session, key: string) {
    exists k :: 0 <= k < |s.ws| && s.ws[k].conn.pending.Some? && s.ws[k].conn.pending.value.key == key
  }

  /** Of the keys a session challenged: a signature verifies under one of them, for one byte string. */
  type Signers = string -> Option<(string, string)>

  ghost predicate Unforgeable(s: Session, signers: Signers) {
    forall key, context, nonce, signature :: Challenges(s, key) ==>
      (s.cfg.verify(key, context, nonce, signature) <==>
       signers(signature) == Some((key, ChallengeBytes(context, nonce))))
  }

  /** Item `i` is a proof by which the session gains a device. */
  ghost predicate ProvesAt(s: Session, i: nat, signature: string) {
    && i < |s.items| && |s.ws| == |s.items| + 1 && s.items[i].Arrives? && s.ws[i].conn.pending.Some?
    && s.items[i].frame.Envelope? && s.items[i].frame.body == ProofBody(Some(signature))
    && exists device :: ByProof(s.cfg, s.ws[i], s.items[i].frame, s.items[i].inputs, device)
  }

  /** Both are frames, and their handlers draw the same nonce. */
  predicate Drew(a: Item, b: Item) { a.Arrives? && b.Arrives? && a.inputs.nonce == b.inputs.nonce }

  /** Nonces are drawn fresh: a nonce tells the connection and the frame it was drawn for. */
  ghost predicate FreshNonces(a: Session, b: Session) {
    forall i, j :: 0 <= i < |a.items| && 0 <= j < |b.items| ==>
      (Drew(a.items[i], b.items[j]) ==> a.cfg.me == b.cfg.me && i == j)
  }

  /** The message the proof at item `i` had to be a signature of. */
  function Asked(s: Session, i: nat): Signable
    requires i < |s.ws| && s.ws[i].conn.pending.Some?
  {
    ProofOf(s.ws[i].conn.pending.value.context, s.ws[i].conn.pending.value.nonce)
  }

  /** A device gained by a proof answers a challenge this very connection drew a nonce for, and sent,
      under the context of its purpose. */
  lemma Answered(s: Session, i: nat, signature: string) returns (j: nat)
    requires Runs(s) && ProvesAt(s, i, signature)
    ensures OpenedAt(s.cfg, s.items, s.ws, j, i)
    ensures
      var c := s.ws[i].conn.pending.value;
      && Challenges(s, c.key) && s.cfg.verify(c.key, c.context, c.nonce, signature)
      && c.nonce == s.items[j].inputs.nonce && ChallengeSent(c.nonce) in s.ws[i].conn.sent
      && (c.context == AuthContext <==> c.purpose.Reconnect?)
  {
    TraceFacts(s.cfg, s.items, s.ws, |s.items|);
    TraceFacts(s.cfg, s.items, s.ws, i);
    j := PendingWasOpened(s.cfg, s.items, s.ws, i);
    var device :| ByProof(s.cfg, s.ws[i], s.items[i].frame, s.items[i].inputs, device);
  }

  /** So the holder of the challenged key signed that nonce under that context. */
  lemma HolderSigned(s: Session, signers: Signers, i: nat, signature: string) returns (j: nat)
    requires Runs(s) && Unforgeable(s, signers) && ProvesAt(s, i, signature)
    ensures OpenedAt(s.cfg, s.items, s.ws, j, i)
    ensures
      var c := s.ws[i].conn.pending.value;
      && signers(signature) == Some((c.key, Bytes(Asked(s, i))))
      && c.nonce == s.items[j].inputs.nonce && ChallengeSent(c.nonce) in s.ws[i].conn.sent
      && (c.context == AuthContext <==> c.purpose.Reconnect?)
  {
    j := Answered(s, i, signature);
  }

  lemma GainsHere(s: Session, i: nat, signature: string)
    requires Runs(s) && ProvesAt(s, i, signature)
    ensures forall k, other :: 0 <= k < |s.items| && k != i ==> !Gaining(s.cfg, s.ws[k], s.items[k], other)
    ensures exists device :: Gaining(s.cfg, s.ws[i], s.items[i], device)
  {
    TraceFacts(s.cfg, s.items, s.ws, |s.items|);
    var device :| ByProof(s.cfg, s.ws[i], s.items[i].frame, s.items[i].inputs, device);
    assert Gaining(s.cfg, s.ws[i], s.items[i], device);
    GainedOnce(s.cfg, s.items, s.ws, i, device);
  }

  /** No two gains by proof ask for the same message, over all connections and all their frames. */
  lemma AskedOnce(a: Session, b: Session, i: nat, j: nat, signature: string, other: string)
    requires Runs(a) && Runs(b) && (a.cfg.me == b.cfg.me ==> a == b) && FreshNonces(a, b)
    requires ProvesAt(a, i, signature) && ProvesAt(b, j, other) && Asked(a, i) == Asked(b, j)
    ensures a == b && i == j
  {
    var m := Answered(a, i, signature);
    var n := Answered(b, j, other);
    assert Drew(a.items[m], b.items[n]);
    GainsHere(a, i, signature);
    GainsHere(b, j, other);
  }

  /** One signature gains a device at most once: not on a second connection, not a second time on the
      same one, and so for one purpose only. */
  lemma ProofServesOnce(a: Session, b: Session, signers: Signers, i: nat, j: nat, signature: string)
    requires Runs(a) && Runs(b) && (a.cfg.me == b.cfg.me ==> a == b)
    requires Unforgeable(a, signers) && Unforgeable(b, signers) && FreshNonces(a, b)
    requires ProvesAt(a, i, signature) && ProvesAt(b, j, signature)
    ensures a == b && i == j
  {
    var m := HolderSigned(a, signers, i, signature);
    var n := HolderSigned(b, signers, j, signature);
    BytesInjective(Asked(a, i), Asked(b, j));
    AskedOnce(a, b, i, j, signature, signature);
  }

  /** The proofs a session's verification accepts under a key are messages the key's holder signed;
      nothing is assumed of any other key, nor of how signatures are written. */
  ghost predicate ProofsHeldBy(cfg: Config, key: string, signed: set<Signable>) {
    forall context, nonce, signature :: cfg.verify(key, context, nonce, signature) ==>
      Spoken(signed, ChallengeBytes(context, nonce))
  }

  /** Each gain under a key takes a message of its own that the holder signed, whatever else the key has
      signed: two gains, two messages. */
  lemma EachGainTakesAMessage(a: Session, b: Session, key: string, signed: set<Signable>,
                              i: nat, j: nat, signature: string, other: string)
    requires Runs(a) && Runs(b) && (a.cfg.me == b.cfg.me ==> a == b) && FreshNonces(a, b)
    requires ProofsHeldBy(a.cfg, key, signed) && ProofsHeldBy(b.cfg, key, signed)
    requires ProvesAt(a, i, signature) && a.ws[i].conn.pending.value.key == key
    requires ProvesAt(b, j, other) && b.ws[j].conn.pending.value.key == key
    ensures Asked(a, i) in signed && Asked(b, j) in signed
    ensures Asked(a, i) == Asked(b, j) ==> a == b && i == j
  {
    Signed(a, key, signed, i, signature);
    Signed(b, key, signed, j, other);
    if Asked(a, i) == Asked(b, j) { AskedOnce(a, b, i, j, signature, other); }
  }

  lemma Signed(s: Session, key: string, signed: set<Signable>, i: nat, signature: string)
    requires Runs(s) && ProofsHeldBy(s.cfg, key, signed)
    requires ProvesAt(s, i, signature) && s.ws[i].conn.pending.value.key == key
    ensures Asked(s, i) in signed
  {
    var m := Answered(s, i, signature);
    assert Spoken(signed, Bytes(Asked(s, i)));
    var own :| own in signed && Bytes(Asked(s, i)) == Bytes(own);
    BytesInjective(Asked(s, i), own);
  }

  /** In particular what was signed to enroll never reconnects, and the other way round. */
  lemma PurposesStayApart(a: Session, b: Session, signers: Signers, i: nat, j: nat, signature: string, other: string)
    requires Runs(a) && Runs(b) && Unforgeable(a, signers) && Unforgeable(b, signers)
    requires ProvesAt(a, i, signature) && ProvesAt(b, j, other)
    requires a.ws[i].conn.pending.value.purpose.Reconnect? != b.ws[j].conn.pending.value.purpose.Reconnect?
    ensures signers(signature).value.1 != signers(other).value.1 && signature != other
  {
    var m := HolderSigned(a, signers, i, signature);
    var n := HolderSigned(b, signers, j, other);
    if Bytes(Asked(a, i)) == Bytes(Asked(b, j)) { BytesInjective(Asked(a, i), Asked(b, j)); }
  }

  /** And a candidate's valid approval is one its key's holder signed, of this enrollment, this host and
      this key, whatever else -- an enrolling proof, say -- the same key has signed. */
  lemma CandidateAgreed(service: Bootstrap.UsbBootstrapService, peer: Bootstrap.Peer, id: string, a: Bootstrap.Approval,
                        signed: set<Signable>)
    requires service.ValidApproval(peer, id, a) && OneLine(ConsentOf(id, service.host, peer.deviceKey))
    requires HeldBy(service.verify, peer.deviceKey, signed) && forall own :: own in signed ==> OneLine(own)
    ensures ConsentOf(id, service.host, peer.deviceKey) in signed
  {
    var given := ConsentOf(id, service.host, peer.deviceKey);
    assert Spoken(signed, Bytes(given));
    var own :| own in signed && Bytes(given) == Bytes(own);
    BytesInjective(given, own);
  }

  /** These premises can be met by a key that has signed all three kinds. */
  lemma OneKeyManyMessages(key: string, proof: Signable, decision: Signable, consent: Signable)
    ensures exists verify, signed: set<Signable> ::
              HeldBy(verify, key, signed) && {proof, decision, consent} <= signed
              && forall own :: own in signed ==> verify(key, Bytes(own), "")
  {
    var signed := {proof, decision, consent};
    var verify := (k: string, payload: string, signature: string) =>
      payload == Bytes(proof) || payload == Bytes(decision) || payload == Bytes(consent);
    assert HeldBy(verify, key, signed) by {
      forall payload, signature | verify(key, payload, signature) ensures Spoken(signed, payload) {
        assert proof in signed && decision in signed && consent in signed;
      }
    }
  }
}
