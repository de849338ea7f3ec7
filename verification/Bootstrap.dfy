/** The USB bootstrap that starts an enrollment, and cleans up after itself on every exit
    (`hdp_bridge/usb_bootstrap.py`).  Whatever other coroutines do to the enrollment table while
    this one awaits the peer or the primary is an arbitrary sequence of coordinator operations. */
module Bootstrap {
  import opened Basics
  import opened Enrollment
  import EnrollmentOutcomes
  import EnrollmentRuns

  datatype BootstrapError =
    | OwnerDenied | NotConfigured | UnusableKey | PrimaryOffline
    | Refused(error: EnrollmentError) | DeliveryFailed | Declined | BadApproval | NotifyFailed

  datatype Approval = Approval(enrollmentId: string, host: string, deviceKey: string, signature: string)

  /** What delivering the request to the peer leads to. */
  datatype Delivery = Raises | Answers(approval: Option<Approval>)

  type Interleaving = seq<(EnrollmentRuns.Op, int)>

  /** Everything outside the service that one attempt meets, in the order it meets it. */
  datatype Surroundings = Surroundings(
    ownerAuthorized: bool, duringOwner: Interleaving, ownerAgrees: bool, keyUsable: bool, primaryOnline: bool,
    identifier: string, startAt: int, detailsAt: int,
    duringDelivery: Interleaving, delivery: Delivery, approveAt: int,
    duringNotice: Interleaving, noticeSent: bool, cancelAt: int)

  /** The tables after others have run. */
  function After(t: Tables, ops: Interleaving): Tables {
    EnrollmentRuns.RunAll(EnrollmentRuns.History(t, []), ops).t
  }

  /** Only this service starts an enrollment under its fresh identifier or records the candidate's
      approval of it. */
  ghost predicate HandsOff(ops: Interleaving, id: string) {
    forall i :: 0 <= i < |ops| ==>
      !(ops[i].0.StartOp? && ops[i].0.id == id) && ops[i].0 != EnrollmentRuns.CandidateOp(id)
  }

  ghost predicate HandsOffAll(s: Surroundings) {
    && HandsOff(s.duringOwner, s.identifier) && HandsOff(s.duringDelivery, s.identifier)
    && HandsOff(s.duringNotice, s.identifier)
  }

  class Peer {
    const deviceKey: string
    var closed: bool

    constructor (deviceKey: string)
      ensures this.deviceKey == deviceKey && !closed
    {
      this.deviceKey, closed := deviceKey, false;
    }

    method Close()
      modifies this
      ensures closed
    {
      closed := true;
    }
  }

  /** The exact bytes the candidate signs. */
  function CandidateBytes(id: string, host: string, deviceKey: string): string {
    "HDP/0 usb-candidate-approval\0" + id + "\n" + host + "\n" + deviceKey
  }

  class UsbBootstrapService {
    const db: Database
    const coordinator: EnrollmentCoordinator
    const host: string                                // the host key's fingerprint
    const configured: bool                            // an endpoint and a certificate pin are set
    const fingerprint: string -> string
    const verify: (string, string, string) -> bool    // (key, payload, signature)

    constructor (db: Database, host: string, configured: bool, fingerprint: string -> string,
        verify: (string, string, string) -> bool)
      ensures this.db == db && coordinator.db == db && this.host == host && this.configured == configured
      ensures this.fingerprint == fingerprint && this.verify == verify
    {
      this.db, this.host, this.configured, this.fingerprint, this.verify := db, host, configured, fingerprint, verify;
      coordinator := new EnrollmentCoordinator(db);
    }

    /** The candidate's signed answer binds this enrollment, this host and this key. */
    predicate ValidApproval(peer: Peer, id: string, a: Approval) {
      && a.enrollmentId == id && a.host == host && a.deviceKey == peer.deviceKey
      && verify(a.deviceKey, CandidateBytes(a.enrollmentId, a.host, a.deviceKey), a.signature)
    }

    /** What one attempt leads to: the tables, the result, and whether the identifier had been chosen. */
    function Trial(t: Tables, peer: Peer, s: Surroundings): (Tables, Result<(), BootstrapError>, bool) {
      var u := if s.ownerAuthorized then t else After(t, s.duringOwner);
      if !s.ownerAuthorized && !s.ownerAgrees then (u, Err(OwnerDenied), false)
      else if !configured then (u, Err(NotConfigured), false)
      else if !s.keyUsable then (u, Err(UnusableKey), false)
      else if u.HasPrimary() && !s.primaryOnline then (u, Err(PrimaryOffline), false)
      else
        var (v, started) := u.Start(s.identifier, host, fingerprint(peer.deviceKey), s.startAt);
        if started.Err? then (v, Err(Refused(started.error)), true)
        else if !v.Open(s.identifier, s.detailsAt) then (v, Err(Refused(NotFound)), true)
        else
          var w := After(v, s.duringDelivery);
          if s.delivery.Raises? then (w, Err(DeliveryFailed), true)
          else if s.delivery.approval.None? then (w, Err(Declined), true)
          else if !ValidApproval(peer, s.identifier, s.delivery.approval.value) then (w, Err(BadApproval), true)
          else
            var (x, recorded) := w.ApproveCandidate(s.identifier, s.approveAt);
            if recorded.Err? then (x, Err(Refused(recorded.error)), true)
            else if !s.primaryOnline then (x, Ok(()), true)
            else (After(x, s.duringNotice), if s.noticeSent then Ok(()) else Err(NotifyFailed), true)
    }

    /** An await: the other coroutines run. */
    method Yield(ops: Interleaving)
      modifies db
      ensures db.Contents() == After(old(db.Contents()), ops)
    {
      var after := After(Tables(db.devices, db.enrollments, db.lock), ops);
      db.devices, db.enrollments, db.lock := after.devices, after.enrollments, after.lock;
    }

    /** The body of the `try`.  `begun`: the identifier had been chosen when it stopped. */
    method Attempt(peer: Peer, s: Surroundings) returns (r: Result<(), BootstrapError>, begun: bool)
      requires coordinator.db == db && s.identifier !in db.enrollments
      requires HandsOffAll(s)
      modifies db
      ensures (db.Contents(), r, begun) == Trial(old(db.Contents()), peer, s)
      ensures !begun ==> r.Err? && s.identifier !in db.enrollments
      ensures !begun && s.ownerAuthorized ==> db.Contents() == old(db.Contents())
      ensures s.identifier in db.enrollments ==> Backed(peer, s)
      ensures r.Ok? ==> begun && s.identifier in db.enrollments && db.enrollments[s.identifier].candidateAt.Some?
    {
      begun := false;
      if !s.ownerAuthorized {
        AbsentStays(EnrollmentRuns.History(db.Contents(), []), s.duringOwner, s.identifier);
        Yield(s.duringOwner);
        if !s.ownerAgrees { return Err(OwnerDenied), false; }
      }
      if !configured { return Err(NotConfigured), false; }
      if !s.keyUsable { return Err(UnusableKey), false; }
      var hasPrimary := coordinator.HasPrimary();
      if hasPrimary && !s.primaryOnline { return Err(PrimaryOffline), false; }

      begun := true;
      var started := coordinator.Start(s.identifier, host, fingerprint(peer.deviceKey), s.startAt);
      if started.Err? { return Err(Refused(started.error)), true; }
      if !(s.identifier in db.enrollments && Live(db.enrollments[s.identifier])
          && db.enrollments[s.identifier].expiresAt > s.detailsAt) {
        return Err(Refused(NotFound)), true;
      }
      BindingsSurvive(db.Contents(), s.duringDelivery, s.identifier);
      Yield(s.duringDelivery);
      if s.delivery.Raises? { return Err(DeliveryFailed), true; }
      if s.delivery.approval.None? { return Err(Declined), true; }
      if !ValidApproval(peer, s.identifier, s.delivery.approval.value) { return Err(BadApproval), true; }
      var recorded := coordinator.ApproveCandidate(s.identifier, s.approveAt);
      if recorded.Err? { return Err(Refused(recorded.error)), true; }
      if s.primaryOnline {
        BindingsSurvive(db.Contents(), s.duringNotice, s.identifier);
        Yield(s.duringNotice);
        if !s.noticeSent { return Err(NotifyFailed), true; }
      }
      return Ok(()), true;
    }

    /** The row, if any, is bound to this host and the peer's key, and carries a candidate approval
        only if the peer's signed answer verified under that very key. */
    ghost predicate Backed(peer: Peer, s: Surroundings)
      reads db
    {
      && s.identifier in db.enrollments && ValidIdentifier(s.identifier)
      && var row := db.enrollments[s.identifier];
         && row.candidate == fingerprint(peer.deviceKey) && row.host == host
         && (row.candidateAt.Some? ==>
               && s.delivery.Answers? && s.delivery.approval.Some?
               && ValidApproval(peer, s.identifier, s.delivery.approval.value))
    }

    /** `begin_secondary` */
    method BeginSecondary(peer: Peer, s: Surroundings) returns (r: Result<string, BootstrapError>)
      requires coordinator.db == db && s.identifier !in db.enrollments
      requires HandsOffAll(s)
      modifies db, peer
      ensures peer.closed
      ensures r.Ok? ==> r.value == s.identifier && Backed(peer, s) && db.enrollments[s.identifier].candidateAt.Some?
      ensures r.Err? ==> Dead(db.Contents(), s.identifier, s.cancelAt)
      ensures s.identifier in db.enrollments ==> Backed(peer, s)
    {
      var outcome, begun := Attempt(peer, s);
      if outcome.Ok? {
        peer.Close();
        return Ok(s.identifier);
      }
      var cancelled: Result<(), EnrollmentError> := Ok(());
      if begun {
        cancelled := coordinator.Cancel(s.identifier, s.cancelAt);
      }
      peer.Close();                      // also when the cancel itself raised
      if cancelled.Err? { return Err(Refused(cancelled.error)); }
      return Err(outcome.error);
    }
  }

  lemma StartedStaysOpen(t: Tables, id: string, host: string, candidate: string, startAt: int, ops: Interleaving,
      detailsAt: int, approveAt: int)
    requires t.Start(id, host, candidate, startAt).1.Ok? && EnrollmentOutcomes.Quiet(ops, id, startAt + LIFETIME_MS)
    ensures
      var v := t.Start(id, host, candidate, startAt).0;
      && (v.Open(id, detailsAt) <==> detailsAt < startAt + LIFETIME_MS)
      && (After(v, ops).ApproveCandidate(id, approveAt).1.Ok? <==> approveAt < startAt + LIFETIME_MS)
  {
    var v := t.Start(id, host, candidate, startAt).0;
    EnrollmentOutcomes.StartExactly(t, id, host, candidate, startAt);
    EnrollmentOutcomes.MarksAreCollected(EnrollmentRuns.History(v, []), ops, id);
    EnrollmentOutcomes.CandidateExactly(After(v, ops), id, approveAt);
  }

  /** If nobody settles the request while the peer is being asked, an attempt succeeds exactly when the
      owner agrees, the service is configured, the peer's key is usable, a primary, if there is one, is
      online, the start goes through, the peer's valid approval comes back within the two minutes, and
      the primary, if online, can be told. */
  lemma SucceedsExactly(service: UsbBootstrapService, t: Tables, peer: Peer, s: Surroundings)
    requires EnrollmentOutcomes.Quiet(s.duringDelivery, s.identifier, s.startAt + LIFETIME_MS)
    ensures
      var u := if s.ownerAuthorized then t else After(t, s.duringOwner);
      service.Trial(t, peer, s).1.Ok? <==>
      && (s.ownerAuthorized || s.ownerAgrees) && service.configured && s.keyUsable
      && ((exists d :: d in u.devices && u.devices[d].role == Primary) ==> s.primaryOnline)
      && u.Start(s.identifier, service.host, service.fingerprint(peer.deviceKey), s.startAt).1.Ok?
      && s.detailsAt < s.startAt + LIFETIME_MS && s.approveAt < s.startAt + LIFETIME_MS
      && s.delivery.Answers? && s.delivery.approval.Some?
      && service.ValidApproval(peer, s.identifier, s.delivery.approval.value)
      && (s.primaryOnline ==> s.noticeSent)
  {
    var u := if s.ownerAuthorized then t else After(t, s.duringOwner);
    var candidate := service.fingerprint(peer.deviceKey);
    if u.Start(s.identifier, service.host, candidate, s.startAt).1.Ok? {
      StartedStaysOpen(u, s.identifier, service.host, candidate, s.startAt, s.duringDelivery, s.detailsAt, s.approveAt);
    }
  }

  /** No consumption of `id` can succeed from here on: there is no row, or it is terminal, or its
      time has passed. */
  ghost predicate Dead(t: Tables, id: string, now: int) {
    id in t.enrollments ==> !Live(t.enrollments[id]) || t.enrollments[id].expiresAt <= now
  }

  ghost predicate ClockFrom(ops: Interleaving, now: int) {
    (forall i :: 0 <= i < |ops| ==> now <= ops[i].1) && forall i, j :: 0 <= i < j < |ops| ==> ops[i].1 <= ops[j].1
  }

  lemma {:induction false} AbsentStays(h: EnrollmentRuns.History, ops: Interleaving, id: string)
    requires id !in h.t.enrollments && HandsOff(ops, id)
    ensures id !in EnrollmentRuns.RunAll(h, ops).t.enrollments
    decreases |ops|
  {
    if ops != [] {
      AbsentAfter(h.t, ops[0].0, ops[0].1, id);
      AbsentStays(EnrollmentRuns.Step(h, ops[0].0, ops[0].1), ops[1..], id);
    }
  }

  lemma AbsentAfter(t: Tables, op: EnrollmentRuns.Op, now: int, id: string)
    requires id !in t.enrollments && !(op.StartOp? && op.id == id)
    ensures id !in EnrollmentRuns.Perform(t, op, now).0.enrollments
  {
  }

  lemma {:induction false} BindingsSurvive(t: Tables, ops: Interleaving, id: string)
    requires id in t.enrollments && HandsOff(ops, id)
    ensures var u := EnrollmentRuns.RunAll(EnrollmentRuns.History(t, []), ops).t;
            && id in u.enrollments && u.enrollments[id].host == t.enrollments[id].host
            && u.enrollments[id].candidate == t.enrollments[id].candidate
            && u.enrollments[id].candidateAt == t.enrollments[id].candidateAt
  {
    BindingsSurviveFrom(EnrollmentRuns.History(t, []), ops, id);
  }

  lemma {:induction false} BindingsSurviveFrom(h: EnrollmentRuns.History, ops: Interleaving, id: string)
    requires id in h.t.enrollments && HandsOff(ops, id)
    ensures var u := EnrollmentRuns.RunAll(h, ops).t;
            && id in u.enrollments && u.enrollments[id].host == h.t.enrollments[id].host
            && u.enrollments[id].candidate == h.t.enrollments[id].candidate
            && u.enrollments[id].candidateAt == h.t.enrollments[id].candidateAt
    decreases |ops|
  {
    if ops != [] {
      SameCandidate(h.t, ops[0].0, ops[0].1, id);
      BindingsSurviveFrom(EnrollmentRuns.Step(h, ops[0].0, ops[0].1), ops[1..], id);
    }
  }

  lemma SameCandidate(t: Tables, op: EnrollmentRuns.Op, now: int, id: string)
    requires id in t.enrollments && op != EnrollmentRuns.CandidateOp(id)
    ensures var u := EnrollmentRuns.Perform(t, op, now).0;
            && id in u.enrollments && u.enrollments[id].host == t.enrollments[id].host
            && u.enrollments[id].candidate == t.enrollments[id].candidate
            && u.enrollments[id].candidateAt == t.enrollments[id].candidateAt
  {
  }

  lemma {:induction false} DeadStays(h: EnrollmentRuns.History, ops: Interleaving, id: string, now: int)
    requires Dead(h.t, id, now) && ClockFrom(ops, now)
    requires forall i :: 0 <= i < |ops| ==> !(ops[i].0.StartOp? && ops[i].0.id == id)
    ensures Dead(EnrollmentRuns.RunAll(h, ops).t, id, now)
    decreases |ops|
  {
    if ops != [] {
      DeadStep(h.t, ops[0].0, ops[0].1, id, now);
      DeadStays(EnrollmentRuns.Step(h, ops[0].0, ops[0].1), ops[1..], id, now);
    }
  }

  lemma DeadStep(t: Tables, op: EnrollmentRuns.Op, at: int, id: string, now: int)
    requires Dead(t, id, now) && now <= at && !(op.StartOp? && op.id == id)
    ensures Dead(EnrollmentRuns.Perform(t, op, at).0, id, now)
  {
  }

  /** After a bootstrap that ended in an error, under a clock that does not run backwards, no later
      consumption of its identifier succeeds, whoever tries and whatever happens in between. */
  lemma {:induction false} FailedBootstrapIsOver(t: Tables, ops: Interleaving, id: string, now: int, host: string,
      candidate: string, later: int)
    requires Dead(t, id, now) && ClockFrom(ops, now) && now <= later
    requires forall i :: 0 <= i < |ops| ==> !(ops[i].0.StartOp? && ops[i].0.id == id)
    ensures EnrollmentRuns.RunAll(EnrollmentRuns.History(t, []), ops).t.Consume(id, host, candidate, later).1.Err?
  {
    DeadStays(EnrollmentRuns.History(t, []), ops, id, now);
  }
}
