/** A signed decision about an enrollment, arriving on a device's connection
    (`NodeConnection._handle_sentinel_approval_decision` in `hdp_bridge/connection.py`). */
module Sentinel {
  import opened Basics
  import opened Enrollment
  import opened SignedBytes

  datatype Message = Message(id: string, decision: SignedBytes.Decision, signature: string)

  type Verify = (string, string, string) -> bool     // key, signed bytes, signature

  function Act(t: Tables, m: Message, device: string, now: int): (Tables, Result<(), EnrollmentError>) {
    match m.decision
    case Approve => t.ApprovePrimary(m.id, device, now)
    case Deny => t.Deny(m.id, device, now)
    case Block => t.Block(m.id, device, now)
  }

  function KeyOf(t: Tables, device: string): string { if device in t.devices then t.devices[device].key else "" }

  /** The tables after the frame, and whether the decision was taken; a refused one counts as a
      malformed frame.  The clock is read twice. */
  function Decide(coordinator: bool, verify: Verify, t: Tables, device: string, m: Option<Message>, readAt: int,
      actAt: int): (Tables, bool) {
    if !coordinator || m.None? then (t, false)
    else
      var details := t.Details(m.value.id, readAt);
      if details.Err? then (t, false)
      else if !verify(KeyOf(t, device), DecisionBytes(m.value.id, m.value.decision, details.value.2), m.value.signature)
          then (t, false)
      else
        var (u, r) := Act(t, m.value, device, actAt);
        (u, r.Ok?)
  }

  class SentinelHandler {
    const db: Database
    const coordinator: EnrollmentCoordinator
    const configured: bool
    const verify: Verify

    constructor (db: Database, configured: bool, verify: Verify)
      ensures this.db == db && coordinator.db == db && this.configured == configured && this.verify == verify
    {
      this.db, this.configured, this.verify := db, configured, verify;
      coordinator := new EnrollmentCoordinator(db);
    }

    method HandleDecision(device: string, m: Option<Message>, readAt: int, actAt: int) returns (taken: bool)
      requires coordinator.db == db
      modifies db`enrollments, db`lock
      ensures (db.Contents(), taken) == Decide(configured, verify, old(db.Contents()), device, m, readAt, actAt)
    {
      if !configured || m.None? { return false; }
      var d := m.value;
      if !ValidIdentifier(d.id) { return false; }
      if !(d.id in db.enrollments && Live(db.enrollments[d.id]) && db.enrollments[d.id].expiresAt > readAt) {
        return false;
      }
      var expiresAt := db.enrollments[d.id].expiresAt;
      var key := if device in db.devices then db.devices[device].key else "";
      if !verify(key, DecisionBytes(d.id, d.decision, expiresAt), d.signature) { return false; }
      var r;
      match d.decision {
        case Approve => r := coordinator.ApprovePrimary(d.id, device, actAt);
        case Deny => r := coordinator.Deny(d.id, device, actAt);
        case Block => r := coordinator.Block(d.id, device, actAt);
      }
      return r.Ok?;
    }
  }

  /** The row after a taken decision. */
  function Decided(r: Row, d: SignedBytes.Decision, device: string, now: int): Row {
    match d
    case Approve => r.(state := PrimaryApproved, primaryAt := Some(now), primaryDevice := Some(device))
    case Deny => r.(state := State.Denied)
    case Block => r.(state := State.Blocked)
  }

  /** A decision is taken exactly when it comes from the current primary, about an enrollment still
      open, signed under the key that device enrolled with over this enrollment, this decision and
      the row's own deadline; it then changes that row, sets the lock if it blocks, and nothing else.
      Any other frame changes nothing. */
  lemma DecidesExactly(coordinator: bool, verify: Verify, t: Tables, device: string, m: Option<Message>, readAt: int,
      actAt: int)
    ensures
      var (u, taken) := Decide(coordinator, verify, t, device, m, readAt, actAt);
      && (taken <==>
            && coordinator && m.Some? && ValidIdentifier(m.value.id) && t.Open(m.value.id, readAt)
                && t.Open(m.value.id, actAt)
            && t.IsPrimary(device)
            && verify(t.devices[device].key,
                DecisionBytes(m.value.id, m.value.decision, t.enrollments[m.value.id].expiresAt), m.value.signature))
      && (!taken ==> u == t)
      && (taken ==>
            && u.devices == t.devices
            && u.enrollments ==
                t.enrollments[m.value.id := Decided(t.enrollments[m.value.id], m.value.decision, device, actAt)]
            && u.lock == if m.value.decision.Block? then Some(device) else t.lock)
  {
  }

  /** With unforgeable signatures: a decision taken is one the primary's owner signed, for that
      enrollment and that deadline, whatever else the same key has signed. */
  lemma OwnerDecided(coordinator: bool, verify: Verify, t: Tables, device: string, m: Message, readAt: int, actAt: int,
                     signed: set<Signable>)
    requires Decide(coordinator, verify, t, device, Some(m), readAt, actAt).1
    requires HeldBy(verify, t.devices[device].key, signed)
    ensures DecisionOf(m.id, m.decision, t.enrollments[m.id].expiresAt) in signed
  {
    DecidesExactly(coordinator, verify, t, device, Some(m), readAt, actAt);
    var taken := DecisionOf(m.id, m.decision, t.enrollments[m.id].expiresAt);
    assert Spoken(signed, Bytes(taken));
    var own :| own in signed && Bytes(taken) == Bytes(own);
    BytesInjective(taken, own);
  }
}
