/** The two-approval, one-live-request enrollment state machine (`hdp_bridge/enrollment.py`).

    `Tables` is the part of the database it works on.  Each function below is one coordinator
    operation: the new tables and what the caller gets, an operation that raises leaving the
    tables as they were.  `EnrollmentCoordinator` performs the same statements one by one, with
    the rollback written out, and is proved to agree. */
module Enrollment {
  import opened Basics

  datatype Role = Primary | Secondary

  datatype Device = Device(role: Role, active: bool, key: string, credentials: nat)

  datatype State = Pending | CandidateApproved | PrimaryApproved | Consumed | Denied | Blocked | Expired

  datatype Row = Row(
    host: string, candidate: string, state: State, createdAt: int, expiresAt: int,
    candidateAt: Option<int>, primaryAt: Option<int>, primaryDevice: Option<string>, target: Role)

  datatype EnrollmentError = NotReady | NotFound | Locked | AlreadyPending | BadIdentifier | IntegrityError

  const LIFETIME_MS := 2 * 60 * 1000

  predicate Live(r: Row) { r.state in {Pending, CandidateApproved, PrimaryApproved} }

  /** The digest of an identifier is taken of its ASCII bytes; the empty one is refused. */
  predicate ValidIdentifier(id: string) { id != "" && forall i :: 0 <= i < |id| ==> id[i] < 128 as char }

  /** Rows are keyed by the identifier's digest, which is taken to be injective. */
  datatype Tables = Tables(devices: map<string, Device>, enrollments: map<string, Row>, lock: Option<string>)
  {
    predicate IsPrimary(device: string) { device in devices && devices[device].role == Primary }

    predicate HasPrimary() { exists d :: d in devices && IsPrimary(d) }

    predicate HasLive() { exists id :: id in enrollments && Live(enrollments[id]) }

    /** The row an approval or a terminal update would match. */
    predicate Open(id: string, now: int) {
      id in enrollments && Live(enrollments[id]) && enrollments[id].expiresAt > now
    }

    function Put(id: string, r: Row): Tables { this.(enrollments := enrollments[id := r]) }

    function ExpireLive(now: int): Tables {
      this.(enrollments := map id | id in enrollments ::
        if Live(enrollments[id]) && enrollments[id].expiresAt <= now then enrollments[id].(state := Expired)
            else enrollments[id])
    }

    function Start(id: string, host: string, candidate: string, now: int): (Tables, Result<(), EnrollmentError>) {
      if !ValidIdentifier(id) then (this, Err(BadIdentifier))
      else if lock.Some? then (this, Err(Locked))
      else if ExpireLive(now).HasLive() then (this, Err(AlreadyPending))
      else if id in enrollments then (this, Err(IntegrityError))
      else
        var row :=
          if HasPrimary() then Row(host, candidate, Pending, now, now + LIFETIME_MS, None, None, None, Secondary)
          else Row(host, candidate, PrimaryApproved, now, now + LIFETIME_MS, None, Some(now), None, Primary);
        (ExpireLive(now).Put(id, row), Ok(()))
    }

    /** What an update that matched nothing raises. */
    function Missed(id: string): EnrollmentError {
      if !ValidIdentifier(id) then BadIdentifier else if id in enrollments then NotReady else NotFound
    }

    function ApproveCandidate(id: string, now: int): (Tables, Result<(), EnrollmentError>) {
      if !ValidIdentifier(id) || !Open(id, now) then (this, Err(Missed(id)))
      else (Put(id, enrollments[id].(candidateAt := Some(now), state := CandidateApproved)), Ok(()))
    }

    function ApprovePrimary(id: string, device: string, now: int): (Tables, Result<(), EnrollmentError>) {
      if !IsPrimary(device) then (this, Err(NotReady))
      else if !ValidIdentifier(id) || !Open(id, now) then (this, Err(Missed(id)))
      else (Put(id, enrollments[id].(primaryAt := Some(now), primaryDevice := Some(device), state := PrimaryApproved)),
          Ok(()))
    }

    function Terminate(id: string, state: State, now: int): (Tables, Result<(), EnrollmentError>) {
      if !ValidIdentifier(id) || !Open(id, now) then (this, Err(Missed(id)))
      else (Put(id, enrollments[id].(state := state)), Ok(()))
    }

    function Block(id: string, device: string, now: int): (Tables, Result<(), EnrollmentError>) {
      if !IsPrimary(device) then (this, Err(NotReady))
      else
        var (t, r) := Terminate(id, State.Blocked, now);
        (if r.Ok? then t.(lock := Some(device)) else t, r)
    }

    function Deny(id: string, device: string, now: int): (Tables, Result<(), EnrollmentError>) {
      if !IsPrimary(device) then (this, Err(NotReady)) else Terminate(id, State.Denied, now)
    }

    function Cancel(id: string, now: int): (Tables, Result<(), EnrollmentError>) { Terminate(id, State.Denied, now) }

    function Details(id: string, now: int): Result<(string, string, int), EnrollmentError> {
      if !ValidIdentifier(id) then Err(BadIdentifier)
      else if !Open(id, now) then Err(NotFound)
      else Ok((enrollments[id].host, enrollments[id].candidate, enrollments[id].expiresAt))
    }

    /** The one consuming update's WHERE clause. */
    predicate Consumable(id: string, host: string, candidate: string, now: int) {
      && id in enrollments
      && var r := enrollments[id];
         && r.host == host && r.candidate == candidate && r.candidateAt.Some? && r.primaryAt.Some?
         && r.expiresAt > now && r.state in {CandidateApproved, PrimaryApproved}
    }

    function Consume(id: string, host: string, candidate: string, now: int): (Tables, Result<Role, EnrollmentError>) {
      if !ValidIdentifier(id) then (this, Err(BadIdentifier))
      else if Consumable(id, host, candidate, now)
          then (Put(id, enrollments[id].(state := State.Consumed)), Ok(enrollments[id].target))
      else (this, Err(Missed(id)))
    }
  }

  // ---- The coordinator itself -------------------------------------------------------------------

  class Database {
    var devices: map<string, Device>
    var enrollments: map<string, Row>
    var lock: Option<string>

    ghost function Contents(): Tables
      reads this
    {
      Tables(devices, enrollments, lock)
    }

    constructor (devices: map<string, Device>)
      ensures Contents() == Tables(devices, map[], None)
    {
      this.devices, enrollments, lock := devices, map[], None;
    }

    /** `UPDATE pending_enrollments SET ... WHERE identifier_hash = ?` on a row known to match. */
    method Update(id: string, r: Row)
      modifies this`enrollments
      ensures Contents() == old(Contents()).Put(id, r)
    {
      enrollments := enrollments[id := r];
    }

    /** `UPDATE ... SET state = 'expired' WHERE expires_at <= ? AND state IN (...)`, row by row. */
    method ExpireLive(now: int)
      modifies this`enrollments
      ensures Contents() == old(Contents()).ExpireLive(now)
    {
      ghost var before := Contents();
      var todo := enrollments.Keys;
      while todo != {}
        invariant enrollments.Keys == before.enrollments.Keys && todo <= enrollments.Keys
        invariant devices == before.devices && lock == before.lock
        invariant forall id :: id in enrollments ==>
          enrollments[id] == if id in todo then before.enrollments[id] else before.ExpireLive(now).enrollments[id]
        decreases todo
      {
        var id :| id in todo;
        todo := todo - {id};
        if Live(enrollments[id]) && enrollments[id].expiresAt <= now {
          Update(id, enrollments[id].(state := Expired));
        }
      }
      assert enrollments == before.ExpireLive(now).enrollments;
    }

    /** `ROLLBACK` */
    method Restore(enrollments: map<string, Row>, lock: Option<string>)
      modifies this`enrollments, this`lock
      ensures this.enrollments == enrollments && this.lock == lock
    {
      this.enrollments, this.lock := enrollments, lock;
    }
  }

  class EnrollmentCoordinator {
    const db: Database

    constructor (db: Database)
      ensures this.db == db
    {
      this.db := db;
    }

    method HasPrimary() returns (found: bool)
      ensures found == db.Contents().HasPrimary()
    {
      found := exists d :: d in db.devices && db.devices[d].role == Primary;
    }

    method HasLive() returns (found: bool)
      ensures found == db.Contents().HasLive()
    {
      found := exists id :: id in db.enrollments && Live(db.enrollments[id]);
    }

    method Start(id: string, host: string, candidate: string, now: int) returns (r: Result<(), EnrollmentError>)
      modifies db`enrollments, db`lock
      ensures (db.Contents(), r) == old(db.Contents()).Start(id, host, candidate, now)
    {
      if !ValidIdentifier(id) { return Err(BadIdentifier); }
      if db.lock.Some? { return Err(Locked); }
      var saved, savedLock := db.enrollments, db.lock;
      db.ExpireLive(now);
      var pending := HasLive();
      if pending {
        db.Restore(saved, savedLock);
        return Err(AlreadyPending);
      }
      var primary := HasPrimary();
      var row := Row(host, candidate, if primary then Pending else PrimaryApproved, now, now + LIFETIME_MS,
                     None, if primary then None else Some(now), None, if primary then Secondary else Primary);
      if id in db.enrollments {   // the INSERT violates the primary key
        db.Restore(saved, savedLock);
        return Err(IntegrityError);
      }
      db.Update(id, row);
      return Ok(());
    }

    /** Which error explains an update that matched no row. */
    method Explain(id: string) returns (e: EnrollmentError)
      requires ValidIdentifier(id)
      ensures e == db.Contents().Missed(id)
    {
      e := if id in db.enrollments then NotReady else NotFound;
    }

    method ApproveCandidate(id: string, now: int) returns (r: Result<(), EnrollmentError>)
      modifies db`enrollments
      ensures (db.Contents(), r) == old(db.Contents()).ApproveCandidate(id, now)
    {
      if !ValidIdentifier(id) { return Err(BadIdentifier); }
      if id in db.enrollments && Live(db.enrollments[id]) && db.enrollments[id].expiresAt > now {
        db.Update(id, db.enrollments[id].(candidateAt := Some(now), state := CandidateApproved));
        return Ok(());
      }
      var e := Explain(id);
      return Err(e);
    }

    method ApprovePrimary(id: string, device: string, now: int) returns (r: Result<(), EnrollmentError>)
      modifies db`enrollments
      ensures (db.Contents(), r) == old(db.Contents()).ApprovePrimary(id, device, now)
    {
      if !(device in db.devices && db.devices[device].role == Primary) { return Err(NotReady); }
      if !ValidIdentifier(id) { return Err(BadIdentifier); }
      if id in db.enrollments && Live(db.enrollments[id]) && db.enrollments[id].expiresAt > now {
        db.Update(id,
            db.enrollments[id].(primaryAt := Some(now), primaryDevice := Some(device), state := PrimaryApproved));
        return Ok(());
      }
      var e := Explain(id);
      return Err(e);
    }

    method SetTerminalState(id: string, state: State, now: int) returns (r: Result<(), EnrollmentError>)
      modifies db`enrollments
      ensures (db.Contents(), r) == old(db.Contents()).Terminate(id, state, now)
    {
      if !ValidIdentifier(id) { return Err(BadIdentifier); }
      if id in db.enrollments && Live(db.enrollments[id]) && db.enrollments[id].expiresAt > now {
        db.Update(id, db.enrollments[id].(state := state));
        return Ok(());
      }
      var e := Explain(id);
      return Err(e);
    }

    method Block(id: string, device: string, now: int) returns (r: Result<(), EnrollmentError>)
      modifies db`enrollments, db`lock
      ensures (db.Contents(), r) == old(db.Contents()).Block(id, device, now)
    {
      if !(device in db.devices && db.devices[device].role == Primary) { return Err(NotReady); }
      r := SetTerminalState(id, State.Blocked, now);
      if r.Ok? {
        db.lock := Some(device);
      }
    }

    method Deny(id: string, device: string, now: int) returns (r: Result<(), EnrollmentError>)
      modifies db`enrollments
      ensures (db.Contents(), r) == old(db.Contents()).Deny(id, device, now)
    {
      if !(device in db.devices && db.devices[device].role == Primary) { return Err(NotReady); }
      r := SetTerminalState(id, State.Denied, now);
    }

    method Cancel(id: string, now: int) returns (r: Result<(), EnrollmentError>)
      modifies db`enrollments
      ensures (db.Contents(), r) == old(db.Contents()).Cancel(id, now)
    {
      r := SetTerminalState(id, State.Denied, now);
    }

    method Consume(id: string, host: string, candidate: string, now: int) returns (r: Result<Role, EnrollmentError>)
      modifies db`enrollments, db`lock
      ensures (db.Contents(), r) == old(db.Contents()).Consume(id, host, candidate, now)
      ensures r.Ok? <==>
              && ValidIdentifier(id) && id in old(db.enrollments)
              && var row := old(db.enrollments)[id];
                 && row.host == host && row.candidate == candidate && now < row.expiresAt
                 && row.candidateAt.Some? && row.primaryAt.Some?
                 && (row.state == CandidateApproved || row.state == PrimaryApproved)
    {
      var saved, savedLock := db.enrollments, db.lock;
      if !ValidIdentifier(id) { return Err(BadIdentifier); }
      if id in db.enrollments {
        var row := db.enrollments[id];
        if row.host == host && row.candidate == candidate && row.candidateAt.Some? && row.primaryAt.Some?
           && row.expiresAt > now && row.state in {CandidateApproved, PrimaryApproved} {
          db.Update(id, row.(state := State.Consumed));
          return Ok(row.target);
        }
      }
      if id !in db.enrollments { return Err(NotFound); }
      if db.enrollments[id].expiresAt <= now && Live(db.enrollments[id]) {
        db.Update(id, db.enrollments[id].(state := Expired));
      }
      db.Restore(saved, savedLock);   // raising inside the transaction undoes the write above
      return Err(NotReady);
    }
  }
}
