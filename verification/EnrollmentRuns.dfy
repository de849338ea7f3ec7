/** What every run of the enrollment coordinator keeps, whatever happens to device roles meanwhile.
    A run's history records each attempted operation, when, whether it succeeded, and which devices
    were primary at that moment. */
module EnrollmentRuns {
  import opened Basics
  import opened Enrollment

  datatype Op =
    | StartOp(id: string, host: string, candidate: string)
    | CandidateOp(id: string)
    | PrimaryOp(id: string, device: string)
    | BlockOp(id: string, device: string)
    | DenyOp(id: string, device: string)
    | CancelOp(id: string)
    | ConsumeOp(id: string, host: string, candidate: string)
    | DevicesOp(devices: map<string, Device>)     // anything else that touches the device table

  datatype Event = Event(op: Op, at: int, ok: bool, primaries: set<string>)

  datatype History = History(t: Tables, log: seq<Event>)

  function Perform(t: Tables, op: Op, now: int): (Tables, bool) {
    match op
    case StartOp(id, host, candidate) => var (u, r) := t.Start(id, host, candidate, now); (u, r.Ok?)
    case CandidateOp(id) => var (u, r) := t.ApproveCandidate(id, now); (u, r.Ok?)
    case PrimaryOp(id, device) => var (u, r) := t.ApprovePrimary(id, device, now); (u, r.Ok?)
    case BlockOp(id, device) => var (u, r) := t.Block(id, device, now); (u, r.Ok?)
    case DenyOp(id, device) => var (u, r) := t.Deny(id, device, now); (u, r.Ok?)
    case CancelOp(id) => var (u, r) := t.Cancel(id, now); (u, r.Ok?)
    case ConsumeOp(id, host, candidate) => var (u, r) := t.Consume(id, host, candidate, now); (u, r.Ok?)
    case DevicesOp(devices) => (t.(devices := devices), true)
  }

  function Primaries(t: Tables): set<string> { set d | d in t.devices && t.devices[d].role == Primary }

  function Record(t: Tables, op: Op, now: int): Event {
    Event(op, now, Perform(t, op, now).1, Primaries(t))
  }

  function Step(h: History, op: Op, now: int): History {
    History(Perform(h.t, op, now).0, h.log + [Record(h.t, op, now)])
  }

  function RunAll(h: History, ops: seq<(Op, int)>): History
    decreases |ops|
  {
    if ops == [] then h else RunAll(Step(h, ops[0].0, ops[0].1), ops[1..])
  }

  // ---- One live request, terminal states, rollback, the lock -------------------------------------

  ghost predicate OneLive(t: Tables) {
    forall a, b :: a in t.enrollments && b in t.enrollments && Live(t.enrollments[a]) && Live(t.enrollments[b]) ==>
        a == b
  }

  /** At most one request is live; a consumed, denied, blocked or expired row never changes again;
      whatever raises leaves every table as it was; and the lock, once set, stays and stops every
      later start. */
  lemma StepDiscipline(t: Tables, op: Op, now: int)
    requires OneLive(t)
    ensures
      var (u, ok) := Perform(t, op, now);
      && OneLive(u)
      && (forall id :: id in t.enrollments && !Live(t.enrollments[id]) ==>
           id in u.enrollments && u.enrollments[id] == t.enrollments[id])
      && (forall id :: id in t.enrollments ==> id in u.enrollments)
      && (!ok ==> u == t)
      && (t.lock.Some? ==> u.lock.Some? && (op.StartOp? ==> !ok))
      && (op.BlockOp? && ok ==> u.lock.Some?)
  {
    if op.StartOp? && Perform(t, op, now).1 {
      assert !t.ExpireLive(now).HasLive();
      assert forall id :: id in t.enrollments ==> !Live(t.ExpireLive(now).enrollments[id]);
    }
  }

  /** Approvals, denials and blocks are only ever taken from a device that is primary at that moment, and
      only consumptions consume. */
  lemma OnlyPrimariesDecide(t: Tables, op: Op, now: int, id: string)
    ensures
      var (u, ok) := Perform(t, op, now);
      && ((op.PrimaryOp? || op.DenyOp? || op.BlockOp?) && ok ==> op.device in Primaries(t))
      && (id in t.enrollments && u.enrollments[id].state != t.enrollments[id].state ==>
            match u.enrollments[id].state
            case Consumed => op.ConsumeOp? && op.id == id
            case Blocked => op.BlockOp? && op.id == id
            case Denied => (op.DenyOp? || op.CancelOp?) && op.id == id
            case Expired => op.StartOp? && t.enrollments[id].expiresAt <= now
            case CandidateApproved => op.CandidateOp? && op.id == id
            case PrimaryApproved => op.PrimaryOp? && op.id == id
            case Pending => false)
      && (!op.DevicesOp? ==> u.devices == t.devices)
  {
  }

  lemma {:induction false} RunDiscipline(h: History, ops: seq<(Op, int)>)
    requires OneLive(h.t)
    ensures
      var end := RunAll(h, ops);
      && OneLive(end.t)
      && (forall id :: id in h.t.enrollments && !Live(h.t.enrollments[id]) ==>
           id in end.t.enrollments && end.t.enrollments[id] == h.t.enrollments[id])
      && (h.t.lock.Some? ==> end.t.lock.Some?)
    decreases |ops|
  {
    if ops != [] {
      StepDiscipline(h.t, ops[0].0, ops[0].1);
      RunDiscipline(Step(h, ops[0].0, ops[0].1), ops[1..]);
    }
  }

  /** After one successful block no start ever succeeds again. */
  lemma BlockIsFinal(h: History, id: string, device: string, now: int, ops: seq<(Op, int)>, other: string, host: string,
      candidate: string, later: int)
    requires OneLive(h.t) && h.t.Block(id, device, now).1.Ok?
    ensures RunAll(Step(h, BlockOp(id, device), now), ops).t.Start(other, host, candidate, later).1.Err?
  {
    StepDiscipline(h.t, BlockOp(id, device), now);
    RunDiscipline(Step(h, BlockOp(id, device), now), ops);
  }

  // ---- What a consumption certifies -----------------------------------------------------------------

  ghost predicate CandidateBetween(log: seq<Event>, id: string, s: int, k: int) {
    exists c :: s < c < k && 0 <= c < |log| && log[c].ok && log[c].op == CandidateOp(id)
  }

  ghost predicate PrimaryBetween(log: seq<Event>, id: string, s: int, k: int) {
    exists p :: s < p < k && 0 <= p < |log| && log[p].ok && log[p].op.PrimaryOp? && log[p].op.id == id
                && log[p].op.device in log[p].primaries
  }

  ghost predicate StartedAt(log: seq<Event>, s: int, id: string, host: string, candidate: string) {
    0 <= s < |log| && log[s].ok && log[s].op == StartOp(id, host, candidate)
  }

  /** The start at position `s` is what allows the consumption at position `k`. */
  ghost predicate JustifiedBy(log: seq<Event>, s: int, k: int, id: string, host: string, candidate: string) {
    && 0 <= k < |log| && s < k && StartedAt(log, s, id, host, candidate)
    && log[k].at < log[s].at + LIFETIME_MS
    && CandidateBetween(log, id, s, k)
    && (log[s].primaries == {} || PrimaryBetween(log, id, s, k))
  }

  /** The consumption at position `k` followed a start with those very fingerprints, before it
      expired, a candidate approval since, and -- unless there was no primary to ask at the start --
      an approval by a device that was primary when it gave it. */
  ghost predicate Justified(log: seq<Event>, k: int, id: string, host: string, candidate: string) {
    exists s :: JustifiedBy(log, s, k, id, host, candidate)
  }

  ghost predicate Consumption(e: Event, id: string) { e.ok && e.op.ConsumeOp? && e.op.id == id }

  /** A row is what its history, from the start at `s` on, says. */
  ghost predicate BackedBy(log: seq<Event>, s: int, id: string, r: Row) {
    && StartedAt(log, s, id, r.host, r.candidate)
    && r.expiresAt == log[s].at + LIFETIME_MS
    && (r.target == Primary <==> log[s].primaries == {})
    && (r.candidateAt.Some? ==> CandidateBetween(log, id, s, |log|))
    && (r.primaryAt.Some? ==> log[s].primaries == {} || PrimaryBetween(log, id, s, |log|))
  }

  ghost predicate RowBacked(log: seq<Event>, id: string, r: Row) {
    exists s :: BackedBy(log, s, id, r)
  }

  ghost predicate ConsumptionSound(h: History, k: nat, id: string) {
    k < |h.log| && Consumption(h.log[k], id) ==>
      && id in h.t.enrollments && h.t.enrollments[id].state == State.Consumed
      && Justified(h.log, k, id, h.log[k].op.host, h.log[k].op.candidate)
  }

  ghost predicate HistorySound(h: History) {
    && (forall id :: id in h.t.enrollments ==> RowBacked(h.log, id, h.t.enrollments[id]))
    && (forall k: nat, id :: ConsumptionSound(h, k, id))
    && (forall i, j, id :: 0 <= i < j < |h.log| ==> !(Consumption(h.log[i], id) && Consumption(h.log[j], id)))
  }

  lemma Grow(log: seq<Event>, e: Event)
    ensures forall id, s, k :: k <= |log| && CandidateBetween(log, id, s, k) ==> CandidateBetween(log + [e], id, s, k)
    ensures forall id, s, k :: k <= |log| && PrimaryBetween(log, id, s, k) ==> PrimaryBetween(log + [e], id, s, k)
    ensures forall id, s :: CandidateBetween(log, id, s, |log|) ==> CandidateBetween(log + [e], id, s, |log| + 1)
    ensures forall id, s :: PrimaryBetween(log, id, s, |log|) ==> PrimaryBetween(log + [e], id, s, |log| + 1)
    ensures forall s, id, host, candidate :: StartedAt(log, s, id, host, candidate) ==>
        StartedAt(log + [e], s, id, host, candidate)
  {
    var l := log + [e];
    assert forall i :: 0 <= i < |log| ==> l[i] == log[i];
    forall id, s, k | k <= |log| && CandidateBetween(log, id, s, k)
      ensures CandidateBetween(l, id, s, k) && CandidateBetween(l, id, s, |log| + 1)
    {
      var c :| s < c < k && 0 <= c < |log| && log[c].ok && log[c].op == CandidateOp(id);
      assert l[c].ok && l[c].op == CandidateOp(id);
    }
    forall id, s, k | k <= |log| && PrimaryBetween(log, id, s, k)
      ensures PrimaryBetween(l, id, s, k) && PrimaryBetween(l, id, s, |log| + 1)
    {
      var p :| s < p < k && 0 <= p < |log| && log[p].ok && log[p].op.PrimaryOp? && log[p].op.id == id
               && log[p].op.device in log[p].primaries;
      assert l[p].ok && l[p].op.PrimaryOp? && l[p].op.id == id && l[p].op.device in l[p].primaries;
    }
  }

  lemma JustifiedStays(log: seq<Event>, e: Event, k: int, id: string, host: string, candidate: string)
    requires Justified(log, k, id, host, candidate)
    ensures Justified(log + [e], k, id, host, candidate)
  {
    Grow(log, e);
    var s :| JustifiedBy(log, s, k, id, host, candidate);
    assert JustifiedBy(log + [e], s, k, id, host, candidate);
  }

  /** What an operation on `op.id` may do to a row: nothing to its bindings, and an approval mark
      only by that approval. */
  lemma RowChange(t: Tables, op: Op, now: int, id: string)
    requires id in t.enrollments
    ensures
      var (u, ok) := Perform(t, op, now);
      && id in u.enrollments
      && var r, after := t.enrollments[id], u.enrollments[id];
         && (after.host, after.candidate, after.expiresAt, after.target) == (r.host, r.candidate, r.expiresAt, r.target)
         && (after.candidateAt.Some? ==> r.candidateAt.Some? || (ok && op == CandidateOp(id)))
         && (after.primaryAt.Some? ==>
              r.primaryAt.Some? || (ok && op.PrimaryOp? && op.id == id && op.device in Primaries(t)))
  {
  }

  lemma RowStays(h: History, op: Op, now: int, id: string)
    requires id in h.t.enrollments && RowBacked(h.log, id, h.t.enrollments[id])
    ensures id in Step(h, op, now).t.enrollments
        && RowBacked(Step(h, op, now).log, id, Step(h, op, now).t.enrollments[id])
  {
    var e := Record(h.t, op, now);
    Grow(h.log, e);
    RowChange(h.t, op, now, id);
    var s :| BackedBy(h.log, s, id, h.t.enrollments[id]);
    var log := h.log + [e];
    assert log[s] == h.log[s] && log[|h.log|] == e;
    if e.ok && op == CandidateOp(id) {
      assert CandidateBetween(log, id, s, |log|);
    }
    if e.ok && op.PrimaryOp? && op.id == id && op.device in Primaries(h.t) {
      assert PrimaryBetween(log, id, s, |log|);
    }
    assert BackedBy(log, s, id, Step(h, op, now).t.enrollments[id]);
  }

  lemma PrimariesExact(t: Tables)
    ensures t.HasPrimary() <==> Primaries(t) != {}
  {
    if d :| d in t.devices && t.devices[d].role == Primary {
      assert d in Primaries(t);
    }
  }

  lemma NewRow(h: History, op: Op, now: int)
    requires op.StartOp? && Perform(h.t, op, now).1
    ensures RowBacked(Step(h, op, now).log, op.id, Step(h, op, now).t.enrollments[op.id])
  {
    var log := h.log + [Record(h.t, op, now)];
    PrimariesExact(h.t);
    assert BackedBy(log, |h.log|, op.id, Step(h, op, now).t.enrollments[op.id]);
  }

  lemma NewConsumption(h: History, op: Op, now: int)
    requires op.ConsumeOp? && Perform(h.t, op, now).1 && RowBacked(h.log, op.id, h.t.enrollments[op.id])
    ensures Justified(Step(h, op, now).log, |h.log|, op.id, op.host, op.candidate)
  {
    var e := Record(h.t, op, now);
    Grow(h.log, e);
    var s :| BackedBy(h.log, s, op.id, h.t.enrollments[op.id]);
    var log := h.log + [e];
    assert log[|h.log|] == e && log[s] == h.log[s];
    assert JustifiedBy(log, s, |h.log|, op.id, op.host, op.candidate);
  }

  lemma ConsumptionKept(h: History, op: Op, now: int, k: nat, id: string)
    requires HistorySound(h) && OneLive(h.t)
    ensures ConsumptionSound(Step(h, op, now), k, id)
  {
    var next, e := Step(h, op, now), Record(h.t, op, now);
    if k < |next.log| && Consumption(next.log[k], id) {
      if k < |h.log| {
        assert next.log[k] == h.log[k] && ConsumptionSound(h, k, id);
        JustifiedStays(h.log, e, k, id, h.log[k].op.host, h.log[k].op.candidate);
        StepDiscipline(h.t, op, now);
      } else {
        assert next.log[k] == e;
        NewConsumption(h, op, now);
      }
    }
  }

  lemma NoSecondConsumption(h: History, op: Op, now: int, i: int, j: int, id: string)
    requires HistorySound(h) && 0 <= i < j < |Step(h, op, now).log|
    ensures var log := Step(h, op, now).log; !(Consumption(log[i], id) && Consumption(log[j], id))
  {
    assert Step(h, op, now).log[i] == h.log[i] && ConsumptionSound(h, i, id);
  }

  lemma StepSound(h: History, op: Op, now: int)
    requires HistorySound(h) && OneLive(h.t)
    ensures HistorySound(Step(h, op, now)) && OneLive(Step(h, op, now).t)
  {
    StepDiscipline(h.t, op, now);
    var next, e := Step(h, op, now), Record(h.t, op, now);
    forall id | id in next.t.enrollments ensures RowBacked(next.log, id, next.t.enrollments[id]) {
      if id in h.t.enrollments { RowStays(h, op, now, id); } else { NewRow(h, op, now); }
    }
    forall k: nat, id ensures ConsumptionSound(next, k, id) {
      ConsumptionKept(h, op, now, k, id);
    }
    forall i, j, id | 0 <= i < j < |next.log| ensures !(Consumption(next.log[i], id) && Consumption(next.log[j], id)) {
      NoSecondConsumption(h, op, now, i, j, id);
    }
  }

  lemma {:induction false} RunsSound(h: History, ops: seq<(Op, int)>)
    requires HistorySound(h) && OneLive(h.t)
    ensures HistorySound(RunAll(h, ops)) && OneLive(RunAll(h, ops).t)
    decreases |ops|
  {
    if ops != [] {
      StepSound(h, ops[0].0, ops[0].1);
      RunsSound(Step(h, ops[0].0, ops[0].1), ops[1..]);
    }
  }

  /** Over every run from an empty enrollment table, at any times and with any changes to device
      roles in between, each consumption is justified, and no identifier is consumed twice. */
  lemma EveryConsumptionJustified(devices: map<string, Device>, ops: seq<(Op, int)>, k: nat)
    requires var log := RunAll(History(Tables(devices, map[], None), []), ops).log;
             k < |log| && log[k].ok && log[k].op.ConsumeOp?
    ensures var log := RunAll(History(Tables(devices, map[], None), []), ops).log;
            && Justified(log, k, log[k].op.id, log[k].op.host, log[k].op.candidate)
            && forall j :: 0 <= j < |log| && j != k ==> !Consumption(log[j], log[k].op.id)
  {
    var start := History(Tables(devices, map[], None), []);
    RunsSound(start, ops);
    var log := RunAll(start, ops).log;
    assert ConsumptionSound(RunAll(start, ops), k, log[k].op.id) && Consumption(log[k], log[k].op.id);
  }
}
