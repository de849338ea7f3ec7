/** When each enrollment operation succeeds, told from the rows themselves, and that two approvals in
    time are all a consumption takes (`hdp_bridge/enrollment.py`). */
module EnrollmentOutcomes {
  import opened Basics
  import opened Enrollment
  import opened EnrollmentRuns

  // ---- One operation --------------------------------------------------------------------------------

  predicate Nameable(id: string) { |id| > 0 && forall c :: c in id ==> c < '\U{0080}' }

  lemma NameableIsValid(id: string)
    ensures Nameable(id) <==> ValidIdentifier(id)
  {
    if Nameable(id) {
      forall i | 0 <= i < |id| ensures id[i] < 128 as char { assert id[i] in id; }
    }
  }

  predicate Undecided(r: Row) { r.state == Pending || r.state == CandidateApproved || r.state == PrimaryApproved }

  /** The row can still be approved, denied or consumed. */
  predicate Awaits(t: Tables, id: string, now: int) {
    Nameable(id) && id in t.enrollments && Undecided(t.enrollments[id]) && now < t.enrollments[id].expiresAt
  }

  /** What the identifier alone says about a failure. */
  predicate Explains(t: Tables, id: string, e: EnrollmentError) {
    e == if !Nameable(id) then BadIdentifier else if id !in t.enrollments then NotFound else NotReady
  }

  ghost predicate OnlyRow(t: Tables, u: Tables, id: string) {
    && u.devices == t.devices && u.lock == t.lock && u.enrollments.Keys == t.enrollments.Keys
    && forall other :: other in t.enrollments && other != id ==> u.enrollments[other] == t.enrollments[other]
  }

  /** Consuming succeeds exactly on a row bound to these fingerprints that has both marks, has left its
      first state and is neither decided nor expired; it grants that row's role, changes that row's
      state alone, and a failure changes nothing. */
  lemma ConsumeExactly(t: Tables, id: string, host: string, candidate: string, now: int)
    ensures
      var (u, r) := t.Consume(id, host, candidate, now);
      && (r.Ok? <==>
            && Awaits(t, id, now)
            && var row := t.enrollments[id];
               && row.state != Pending && row.host == host && row.candidate == candidate
               && row.candidateAt.Some? && row.primaryAt.Some?)
      && (r.Ok? ==>
            && r.value == t.enrollments[id].target && OnlyRow(t, u, id)
            && u.enrollments[id] == t.enrollments[id].(state := State.Consumed))
      && (r.Err? ==> u == t && Explains(t, id, r.error))
  {
    NameableIsValid(id);
  }

  /** A start succeeds exactly with a usable, unused identifier, no lock, and no other request that
      still awaits its approvals.  The new row is bound to these fingerprints for two minutes; without
      a primary there is nobody to ask, and the row counts as approved on that side. */
  lemma StartExactly(t: Tables, id: string, host: string, candidate: string, now: int)
    ensures
      var (u, r) := t.Start(id, host, candidate, now);
      var primary := exists d :: d in t.devices && t.devices[d].role == Primary;
      && (r.Ok? <==>
            && Nameable(id) && t.lock.None? && id !in t.enrollments
            && forall i :: i in t.enrollments ==> !(Undecided(t.enrollments[i]) && now < t.enrollments[i].expiresAt))
      && (r.Ok? ==>
            && u.devices == t.devices && u.lock == t.lock && u.enrollments.Keys == t.enrollments.Keys + {id}
            && (forall i :: i in t.enrollments ==>
                  u.enrollments[i] == if Undecided(t.enrollments[i]) then t.enrollments[i].(state := Expired)
                                      else t.enrollments[i])
            && var row := u.enrollments[id];
               && (row.host, row.candidate, row.createdAt, row.expiresAt) == (host, candidate, now, now + 120_000)
               && row.candidateAt.None? && row.primaryDevice.None?
               && if primary then row.state == Pending && row.primaryAt.None? && row.target == Secondary
                  else row.state == PrimaryApproved && row.primaryAt == Some(now) && row.target == Primary)
      && (r.Err? ==> u == t)
      && (r == Err(BadIdentifier) <==> !Nameable(id)) && (r == Err(Locked) <==> Nameable(id) && t.lock.Some?)
  {
    NameableIsValid(id);
    var swept := t.ExpireLive(now);
    assert forall i :: i in t.enrollments ==>
      (Live(swept.enrollments[i]) <==> Undecided(t.enrollments[i]) && now < t.enrollments[i].expiresAt);
    if swept.HasLive() {
      var i :| i in swept.enrollments && Live(swept.enrollments[i]);
      assert Undecided(t.enrollments[i]);
    }
  }

  /** The candidate's approval marks exactly a row that still awaits. */
  lemma CandidateExactly(t: Tables, id: string, now: int)
    ensures
      var (u, r) := t.ApproveCandidate(id, now);
      && (r.Ok? <==> Awaits(t, id, now))
      && (r.Ok? ==>
            && OnlyRow(t, u, id)
            && u.enrollments[id] == t.enrollments[id].(candidateAt := Some(now), state := CandidateApproved))
      && (r.Err? ==> u == t && Explains(t, id, r.error))
  {
    NameableIsValid(id);
  }

  /** The primary's approval, denial and block take a device that is primary now and a row that still
      awaits; cancelling takes the row alone. */
  lemma PrimaryExactly(t: Tables, id: string, device: string, now: int)
    ensures
      var may := device in t.devices && t.devices[device].role == Primary && Awaits(t, id, now);
      var (a, approved) := t.ApprovePrimary(id, device, now);
      var (d, denied) := t.Deny(id, device, now);
      var (b, blocked) := t.Block(id, device, now);
      var (c, cancelled) := t.Cancel(id, now);
      && (approved.Ok? <==> may) && (denied.Ok? <==> may) && (blocked.Ok? <==> may)
      && (cancelled.Ok? <==> Awaits(t, id, now))
      && (may ==>
            && OnlyRow(t, a, id) && OnlyRow(t, d, id) && OnlyRow(t, b.(lock := t.lock), id) && b.lock == Some(device)
            && a.enrollments[id] ==
                 t.enrollments[id].(primaryAt := Some(now), primaryDevice := Some(device), state := PrimaryApproved)
            && d.enrollments[id] == t.enrollments[id].(state := State.Denied)
            && b.enrollments[id] == t.enrollments[id].(state := State.Blocked))
      && (Awaits(t, id, now) ==>
            OnlyRow(t, c, id) && c.enrollments[id] == t.enrollments[id].(state := State.Denied))
      && (!may ==> a == d == b == t) && (!Awaits(t, id, now) ==> c == t && Explains(t, id, cancelled.error))
  {
    NameableIsValid(id);
  }

  /** The details are those of a row that still awaits, its own deadline among them. */
  lemma DetailsExactly(t: Tables, id: string, now: int)
    ensures t.Details(id, now).Ok? <==> Awaits(t, id, now)
    ensures Awaits(t, id, now) ==>
              var row := t.enrollments[id]; t.Details(id, now) == Ok((row.host, row.candidate, row.expiresAt))
  {
    NameableIsValid(id);
  }

  /** In a run, too: each operation goes through exactly when it may, and leaves its own row in its own
      state. */
  lemma PerformExactly(t: Tables, op: Op, now: int)
    ensures
      var (u, ok) := Perform(t, op, now);
      match op
      case StartOp(id, host, candidate) => ok == t.Start(id, host, candidate, now).1.Ok?
      case CandidateOp(id) =>
        && ok == Awaits(t, id, now) && (ok ==> OnlyRow(t, u, id) && u.enrollments[id].state == CandidateApproved)
      case PrimaryOp(id, device) =>
        && ok == (device in Primaries(t) && Awaits(t, id, now))
        && (ok ==> OnlyRow(t, u, id) && u.enrollments[id].state == PrimaryApproved)
      case DenyOp(id, device) =>
        && ok == (device in Primaries(t) && Awaits(t, id, now))
        && (ok ==> OnlyRow(t, u, id) && u.enrollments[id].state == State.Denied)
      case BlockOp(id, device) =>
        && ok == (device in Primaries(t) && Awaits(t, id, now))
        && (ok ==> u.enrollments[id].state == State.Blocked && u.lock == Some(device))
      case CancelOp(id) =>
        && ok == Awaits(t, id, now) && (ok ==> OnlyRow(t, u, id) && u.enrollments[id].state == State.Denied)
      case ConsumeOp(id, host, candidate) =>
        && ok == t.Consume(id, host, candidate, now).1.Ok?
        && (ok ==> OnlyRow(t, u, id) && u.enrollments[id].state == State.Consumed)
      case DevicesOp(devices) => ok && u == t.(devices := devices)
  {
    match op
    case CandidateOp(id) => CandidateExactly(t, id, now);
    case PrimaryOp(id, device) => PrimaryExactly(t, id, device, now);
    case DenyOp(id, device) => PrimaryExactly(t, id, device, now);
    case BlockOp(id, device) => PrimaryExactly(t, id, device, now);
    case CancelOp(id) => PrimaryExactly(t, id, "", now);
    case ConsumeOp(id, host, candidate) => ConsumeExactly(t, id, host, candidate, now);
    case _ =>
  }

  // ---- Two approvals suffice -----------------------------------------------------------------------------

  /** Somebody settles the request: denies, blocks, cancels or consumes it. */
  predicate Settles(op: Op, id: string) {
    match op
    case BlockOp(i, _) => i == id
    case DenyOp(i, _) => i == id
    case CancelOp(i) => i == id
    case ConsumeOp(i, _, _) => i == id
    case _ => false
  }

  /** Everything happens before the deadline, and nothing settles the request. */
  ghost predicate Quiet(ops: seq<(Op, int)>, id: string, deadline: int) {
    forall k :: 0 <= k < |ops| ==> !Settles(ops[k].0, id) && ops[k].1 < deadline
  }

  /** A device approves that is primary when it does. */
  ghost predicate PrimaryAgrees(h: History, ops: seq<(Op, int)>, id: string)
    decreases |ops|
  {
    ops != [] &&
    ((ops[0].0.PrimaryOp? && ops[0].0.id == id && h.t.IsPrimary(ops[0].0.device))
     || PrimaryAgrees(Step(h, ops[0].0, ops[0].1), ops[1..], id))
  }

  ghost predicate CandidateAgrees(ops: seq<(Op, int)>, id: string) {
    exists k :: 0 <= k < |ops| && ops[k].0 == CandidateOp(id)
  }

  /** A row once marked has left its first state. */
  predicate Marked(r: Row) { r.candidateAt.Some? ==> r.state != Pending }

  lemma QuietStep(t: Tables, op: Op, now: int, id: string)
    requires Nameable(id) && id in t.enrollments && Undecided(t.enrollments[id]) && Marked(t.enrollments[id])
    requires !Settles(op, id) && now < t.enrollments[id].expiresAt
    ensures
      var u := Perform(t, op, now).0;
      && id in u.enrollments
      && var r, after := t.enrollments[id], u.enrollments[id];
         && (after.host, after.candidate, after.expiresAt, after.target) == (r.host, r.candidate, r.expiresAt, r.target)
         && Undecided(after) && Marked(after)
         && (after.candidateAt.Some? <==> r.candidateAt.Some? || op == CandidateOp(id))
         && (after.primaryAt.Some? <==>
              r.primaryAt.Some? || (op.PrimaryOp? && op.id == id && t.IsPrimary(op.device)))
  {
    NameableIsValid(id);
    if op.StartOp? { StartExactly(t, op.id, op.host, op.candidate, now); }
  }

  /** Until it is settled or expires, a request keeps its bindings and collects its marks, whatever else
      is started, approved, denied, blocked or consumed, and whatever happens to the devices. */
  lemma {:induction false} MarksAreCollected(h: History, ops: seq<(Op, int)>, id: string)
    requires Nameable(id) && id in h.t.enrollments && Undecided(h.t.enrollments[id]) && Marked(h.t.enrollments[id])
    requires Quiet(ops, id, h.t.enrollments[id].expiresAt)
    ensures
      var u := RunAll(h, ops).t;
      && id in u.enrollments
      && var r, after := h.t.enrollments[id], u.enrollments[id];
         && (after.host, after.candidate, after.expiresAt, after.target) == (r.host, r.candidate, r.expiresAt, r.target)
         && Undecided(after) && Marked(after)
         && (after.candidateAt.Some? <==> r.candidateAt.Some? || CandidateAgrees(ops, id))
         && (after.primaryAt.Some? <==> r.primaryAt.Some? || PrimaryAgrees(h, ops, id))
    decreases |ops|
  {
    if ops != [] {
      QuietStep(h.t, ops[0].0, ops[0].1, id);
      assert forall k :: 0 <= k < |ops[1..]| ==> ops[1..][k] == ops[k + 1];
      MarksAreCollected(Step(h, ops[0].0, ops[0].1), ops[1..], id);
      AgreesLater(ops, id);
    }
  }

  lemma AgreesLater(ops: seq<(Op, int)>, id: string)
    requires ops != []
    ensures CandidateAgrees(ops, id) <==> ops[0].0 == CandidateOp(id) || CandidateAgrees(ops[1..], id)
  {
    if CandidateAgrees(ops, id) && ops[0].0 != CandidateOp(id) {
      var k :| 0 <= k < |ops| && ops[k].0 == CandidateOp(id);
      assert ops[1..][k - 1] == ops[k];
    }
    if CandidateAgrees(ops[1..], id) {
      var k :| 0 <= k < |ops[1..]| && ops[1..][k].0 == CandidateOp(id);
      assert ops[k + 1].0 == CandidateOp(id);
    }
  }

  /** After a successful start, a consumption with the same fingerprints within the two minutes, of a
      request nobody settled, succeeds exactly if the candidate has agreed and, where there was a
      primary at the start, a primary has -- in either order, and whatever else has happened. */
  lemma ApprovalsSuffice(t: Tables, id: string, host: string, candidate: string, startAt: int, ops: seq<(Op, int)>,
      now: int)
    requires t.Start(id, host, candidate, startAt).1.Ok?
    requires Quiet(ops, id, startAt + LIFETIME_MS) && now < startAt + LIFETIME_MS
    ensures
      var begun := Step(History(t, []), StartOp(id, host, candidate), startAt);
      var (u, r) := RunAll(begun, ops).t.Consume(id, host, candidate, now);
      && (r.Ok? <==> CandidateAgrees(ops, id) && (t.HasPrimary() ==> PrimaryAgrees(begun, ops, id)))
      && (r.Ok? ==> r.value == if t.HasPrimary() then Secondary else Primary)
  {
    var begun := Step(History(t, []), StartOp(id, host, candidate), startAt);
    StartExactly(t, id, host, candidate, startAt);
    MarksAreCollected(begun, ops, id);
    ConsumeExactly(RunAll(begun, ops).t, id, host, candidate, now);
  }
}
