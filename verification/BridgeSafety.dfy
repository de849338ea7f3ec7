/** Safety of the whole bridge, over every run: the invariant `Inv` and the theorems read off it. */
module BridgeSafety {
  import opened Basics
  import opened Capabilities
  import opened Futures
  import opened Invocations
  import opened Approvals
  import opened Policy
  import opened Targets
  import opened Calls
  import opened CallSafety
  import opened Bridge

  // ---- Every action moves each call by at most one step of its own automaton ----------------------

  /** The step of call `id`'s own automaton that an action makes it take, if any. */
  function Taken(b: Bridge, a: Action, id: Id): Option<Local>
    requires Possible(b, a) && id in b.calls
  {
    match a
    case TicketBegins(i) => if i == id then Some(TicketStart(b.approvals.StartWait(id).1)) else None
    case TicketHears(i) => if i == id then Some(TicketAnswer(b.approvals.futures[id].value)) else None
    case TicketTimesOut(i) =>
      if i == id then Some(TicketAnswer(b.approvals.ExpirePending(b.calls[id].ticket.deadline).futures[id].value))
          else None
    case Resumes(i, own) => if i == id then Some(own) else None
    case Strikes(i, kind, reached) => if i == id then Some(Strike(kind, reached)) else None
    case AckFrom(conn, i) => if i == id then Some(AckFrame(conn)) else None
    case ResultFrom(conn, i, payload) => if i == id then Some(ResultFrame(conn, payload)) else None
    case Disconnect(conn) => Some(Local.Fail(None, Some(conn), b.sockets[conn].reason, false))
    case CancelVerb(i, refusal) => if i == id && b.calls[id].slot.live then Some(VerbRemove(refusal)) else None
    case CancelVerbReturns(i) => if i == id then Some(VerbRelease) else None
    case RevokeEnds(deviceId, _) => Some(Local.Fail(Some(deviceId), None, OperatorRevoked, true))
    case _ => None
  }

  ghost predicate MovedAsTaken(b: Bridge, a: Action, id: Id)
    requires Possible(b, a) && id in b.calls
  {
    && id in Next1(b, a).calls
    && match Taken(b, a, id)
       case None => Next1(b, a).calls[id] == b.calls[id]
       case Some(l) => Enabled(b.calls[id], l) && Next1(b, a).calls[id] == Next(b.calls[id], l)
  }

  /** Actions about one call. */
  predicate Single(a: Action) {
    a.TicketBegins? || a.TicketHears? || a.TicketTimesOut? || a.Resumes? || a.Strikes? || a.AckFrom? || a.ResultFrom?
        || a.CancelVerb? || a.CancelVerbReturns?
  }

  lemma SingleLocal(b: Bridge, a: Action, id: Id)
    requires Possible(b, a) && id in b.calls && Single(a)
    ensures MovedAsTaken(b, a, id)
  {
  }

  lemma SharedLocal(b: Bridge, a: Action, id: Id)
    requires Possible(b, a) && id in b.calls && !Single(a)
    ensures MovedAsTaken(b, a, id)
  {
  }

  lemma LocalAt(b: Bridge, a: Action, id: Id)
    requires Possible(b, a) && id in b.calls
    ensures MovedAsTaken(b, a, id)
  {
    if Single(a) { SingleLocal(b, a, id); } else { SharedLocal(b, a, id); }
  }

  lemma OnlyRequestsAdd(b: Bridge, a: Action, id: Id)
    requires Possible(b, a) && id in Next1(b, a).calls && id !in b.calls
    ensures a.Request? && a.id == id
  {
  }

  /** An action moves each call by exactly the step `Taken` names, and only a request adds one. */
  lemma ActionIsLocal(b: Bridge, a: Action)
    requires Possible(b, a)
    ensures forall id :: id in b.calls ==> MovedAsTaken(b, a, id)
    ensures forall id :: id in Next1(b, a).calls && id !in b.calls ==> a.Request? && a.id == id
  {
    forall id | id in b.calls ensures MovedAsTaken(b, a, id) {
      LocalAt(b, a, id);
    }
    forall id | id in Next1(b, a).calls && id !in b.calls ensures a.Request? && a.id == id {
      OnlyRequestsAdd(b, a, id);
    }
  }

  /** What one call's automaton keeps, the whole bridge keeps for each of its calls. */
  lemma MovedKeeps(b: Bridge, a: Action, id: Id)
    requires Possible(b, a) && id in b.calls && Sound(b.calls[id])
    ensures
      && id in Next1(b, a).calls
      && var before, after := b.calls[id], Next1(b, a).calls[id];
      && Sound(after)
      && Later(before.slot, after.slot)
      && before.log <= after.log && after.start == before.start
      && (Released(before) ==> Released(after))
      && (before.phase.Finished? ==> after.phase == before.phase)
  {
    LocalAt(b, a, id);
    var before := b.calls[id];
    match Taken(b, a, id)
    case None =>
    case Some(l) =>
      StepKeepsSound(before, l);
      SettledOnce(before, l);
      HistoryGrows(before, l);
      if Released(before) {
        ReleasedStays(before, l);
      }
      if before.phase.Finished? {
        FinishedStays(before, l);
      }
  }

  // ---- The invariant --------------------------------------------------------------------------------

  ghost predicate AllSound(b: Bridge) {
    forall id :: id in b.calls ==> Sound(b.calls[id])
  }

  /** Presence points at live generations of the right device. */
  ghost predicate ConnectionsSound(b: Bridge) {
    forall d :: d in b.connections ==>
      b.connections[d] in b.sockets && b.sockets[b.connections[d]].deviceId == d && !b.sockets[b.connections[d]].down
  }

  ghost predicate OnLiveSocket(b: Bridge, s: Slot) {
    s.conn in b.sockets && !b.sockets[s.conn].down && b.sockets[s.conn].deviceId == s.deviceId
  }

  /** So does every pending call: no entry of the table refers to a connection that has gone. */
  ghost predicate PendingSound(b: Bridge) {
    forall id :: id in b.calls && b.calls[id].slot.live ==> OnLiveSocket(b, b.calls[id].slot)
  }

  ghost predicate PresenceSound(b: Bridge) {
    WellKeyed(b.rows) && ConnectionsSound(b) && PendingSound(b)
  }

  /** `p` is the question asked on behalf of call `id`. */
  ghost predicate AskedFor(id: Id, c: Call, p: Pending) {
    p.id == id && p.deviceId == c.slot.deviceId && p.capability == c.start.capability && p.session == c.start.session
  }

  /** What the approval tables hold for `id`, against where its call stands. */
  ghost predicate Linked(e: Entry, id: Id, c: Call) {
    && (e.pending.Some? ==> AskedFor(id, c, e.pending.value))
    && (e.row.Some? ==> AskedFor(id, c, e.row.value.pending))
    && (c.ticket.Answered? ==> e.row == Some(c.ticket.resolution))
    && (!c.ticket.NoTicket? ==> ModeFor(c) == Some(Ask))
    && (c.phase.AwaitApproval? ==>
          match c.ticket
          case NotStarted => e.future.None? && (e.pending.Some? || e.mail.Some?)
          case Waiting(deadline) =>
            && e.future.Some? && (e.future.value.Unset? || e.future.value.Value?)
            && (e.future.value.Unset? ==> e.pending.Some? && e.pending.value.expiresAt == deadline)
          case Answered(_) => true
          case _ => false)
  }

  /** A call that went out without asking did not have to ask. */
  ghost predicate Covered(b: Bridge, c: Call) {
    c.ticket.NoTicket? && !NoInvoke(c.log) ==>
      AllowedOutright(c) || (ModeFor(c) == Some(Ask) && CoveredByGrant(b.approvals, c))
  }

  ghost predicate ApprovalsSound(b: Bridge) {
    && Consistent(b.approvals)
    && (forall id :: id in b.calls ==> Linked(At(b.approvals, id), id, b.calls[id]) && Covered(b, b.calls[id]))
  }

  ghost predicate Inv(b: Bridge) {
    AllSound(b) && PresenceSound(b) && ApprovalsSound(b)
  }

  // ---- Presence -----------------------------------------------------------------------------------------

  lemma {:induction false} UpsertExact(rows: seq<DeviceRecord>, record: DeviceRecord)
    requires WellKeyed(rows)
    ensures WellKeyed(Upsert(rows, record))
    ensures forall r :: r in Upsert(rows, record) <==> r == record || (r in rows && r.id != record.id)
  {
    if rows != [] {
      if rows[0].id == record.id {
        assert forall r :: r in rows <==> r == rows[0] || r in rows[1..];
        assert forall i :: 0 <= i < |rows[1..]| ==> rows[1..][i] == rows[i + 1];
      } else {
        UpsertExact(rows[1..], record);
        var rest := Upsert(rows[1..], record);
        forall i | 0 <= i < |rest| ensures rest[i].id != rows[0].id {
          assert rest[i] in rest;
          if rest[i] in rows[1..] {
            var k :| 0 <= k < |rows[1..]| && rows[1..][k] == rest[i];
            assert rows[k + 1] == rest[i];
          }
        }
        assert Upsert(rows, record) == [rows[0]] + rest;
      }
    }
  }

  /** A call is only ever begun on a connection that owns its device's presence right now. */
  lemma BeginsOnLiveConnection(b: Bridge, id: Id, request: Targets.Request, session: Option<string>, now: int,
      expiresAt: int)
    requires PresenceSound(b) && id !in b.calls && id in Begin(b, id, request, session, now, expiresAt).calls
    ensures var s := Begin(b, id, request, session, now, expiresAt).calls[id].slot;
            s.deviceId in b.connections && b.connections[s.deviceId] == s.conn
  {
    var default := match b.table case None => None case Some(t) => t.DefaultDeviceFor(request.capability);
    ResolvedExactly(b.rows, b.connections, default, request);
  }

  lemma RowsUntouched(b: Bridge, a: Action)
    requires Possible(b, a) && !a.Register? && !a.Advertise? && !a.RevokeBegins?
    ensures Next1(b, a).rows == b.rows
  {
  }

  lemma RowsKept(b: Bridge, a: Action)
    requires WellKeyed(b.rows) && Possible(b, a)
    ensures WellKeyed(Next1(b, a).rows)
  {
    match a
    case Register(conn, record) => UpsertExact(b.rows, record);
    case Advertise(conn, capabilities) =>
      var deviceId := b.sockets[conn].deviceId;
      var name := match Lookup(b.rows, deviceId) case Some(r) => r.name case None => deviceId;
      UpsertExact(b.rows, DeviceRecord(deviceId, name, Active, capabilities));
    case RevokeBegins(_, _) =>
    case _ => RowsUntouched(b, a);
  }

  /** A connection generation keeps its device, and only its own disconnect takes it down. */
  lemma SocketStays(b: Bridge, a: Action, conn: ConnId)
    requires Possible(b, a) && conn in b.sockets
    ensures conn in Next1(b, a).sockets && Next1(b, a).sockets[conn].deviceId == b.sockets[conn].deviceId
    ensures Next1(b, a).sockets[conn].down == (b.sockets[conn].down || a == Disconnect(conn))
    ensures b.sockets[conn].reason == OperatorRevoked ==> Next1(b, a).sockets[conn].reason == OperatorRevoked
  {
    if Single(a) { SingleSockets(b, a); }
  }

  lemma SingleSockets(b: Bridge, a: Action)
    requires Possible(b, a) && Single(a)
    ensures Next1(b, a).sockets == b.sockets
  {
  }

  lemma ConnectionsKept(b: Bridge, a: Action)
    requires ConnectionsSound(b) && Possible(b, a)
    ensures ConnectionsSound(Next1(b, a))
  {
    var after := Next1(b, a);
    forall d | d in after.connections
      ensures after.connections[d] in after.sockets && after.sockets[after.connections[d]].deviceId == d
              && !after.sockets[after.connections[d]].down
    {
      if d in b.connections && after.connections[d] == b.connections[d] {
        SocketStays(b, a, b.connections[d]);
      }
    }
  }

  /** A disconnect leaves nothing pending on its connection. */
  lemma DisconnectClears(b: Bridge, conn: ConnId, id: Id)
    requires conn in b.sockets && id in b.calls && Next1(b, Disconnect(conn)).calls[id].slot.live
    ensures b.calls[id].slot.conn != conn
  {
  }

  lemma PendingKept(b: Bridge, a: Action)
    requires Inv(b) && Possible(b, a)
    ensures PendingSound(Next1(b, a))
  {
    var after := Next1(b, a);
    ActionIsLocal(b, a);
    forall id | id in after.calls && after.calls[id].slot.live ensures OnLiveSocket(after, after.calls[id].slot) {
      if id in b.calls {
        MovedKeeps(b, a, id);
        SocketStays(b, a, b.calls[id].slot.conn);
        if a == Disconnect(b.calls[id].slot.conn) {
          DisconnectClears(b, b.calls[id].slot.conn, id);
        }
      } else {
        var ready := if b.table.Some? && a.reloaded.Some? then b.(table := a.reloaded) else b;
        BeginsOnLiveConnection(ready, id, a.request, a.session, a.now, a.expiresAt);
      }
    }
  }

  // ---- Approvals ----------------------------------------------------------------------------------------

  /** The one operation an action performs on the approval manager, if any. */
  function ApprovalOp(b: Bridge, a: Action): Option<Op>
    requires Possible(b, a)
  {
    match a
    case Request(id, request, session, reloaded, now, expiresAt) =>
      var ready := if b.table.Some? && reloaded.Some? then b.(table := reloaded) else b;
      var default := match ready.table case None => None case Some(t) => t.DefaultDeviceFor(request.capability);
      (match Targets.Resolve(b.rows, b.connections, default, request)
       case Err(_) => None
       case Ok(target) =>
         if MustAsk(ready, NewCall(Start(ready.table, request.capability, session, now), target))
         then Some(CreateOp(Pending(id, target.deviceId, request.capability, target.version, session, now, expiresAt)))
         else None)
    case TicketBegins(id) => Some(WaitOp(id))
    case TicketTimesOut(id) => Some(ExpireOp(b.calls[id].ticket.deadline))
    case Resumes(id, own) =>
      if own.ResumeApproval? && (b.calls[id].interrupt == CancelRequested || b.calls[id].slot.gone.Value?)
      then Some(AbandonOp(id)) else None
    case Decide(id, approved, scope, decider) => Some(ResolveOp(id, approved, scope, decider))
    case _ => None
  }

  lemma ApprovalsMove(b: Bridge, a: Action)
    requires Possible(b, a)
    ensures Next1(b, a).approvals ==
            match ApprovalOp(b, a) case None => b.approvals case Some(op) => Apply(b.approvals, op)
    ensures ApprovalOp(b, a).Some? && ApprovalOp(b, a).value.CreateOp? ==>
        ApprovalOp(b, a).value.p.id !in b.approvals.rows
  {
    if Single(a) { SingleApprovals(b, a); }
  }

  lemma SingleApprovals(b: Bridge, a: Action)
    requires Possible(b, a) && Single(a)
    ensures Next1(b, a).approvals ==
            match ApprovalOp(b, a) case None => b.approvals case Some(op) => Apply(b.approvals, op)
    ensures ApprovalOp(b, a).Some? ==> !ApprovalOp(b, a).value.CreateOp?
  {
  }

  predicate Concerns(op: Op, id: Id) {
    match op
    case CreateOp(p) => p.id == id
    case AbandonOp(i) => i == id
    case WaitOp(i) => i == id
    case _ => false
  }

  /** Decisions and expiries, and operations on other ids, keep a call linked. */
  lemma LinkedUnderOp(a: Approvals, op: Op, id: Id, c: Call)
    requires Linked(At(a, id), id, c) && Tidy(a, id) && (op.ResolveOp? ==> Tidy(a, op.id)) && !Concerns(op, id)
    ensures Linked(At(Apply(a, op), id), id, c)
  {
    match op
    case ExpireOp(now) => ExpireSetAt(a, a.Due(now), id);
    case ResolveOp(r, approved, scope, decider) =>
      ResolveAt(a, r, approved, scope, decider, id);
    case _ =>
  }

  /** A decision changes nothing about other ids; about its own it does what an expiry does, with
      its own resolution. */
  lemma ResolveAt(a: Approvals, r: Id, approved: bool, scope: Scope, decider: string, id: Id)
    requires Tidy(a, r)
    ensures
      var before, after := At(a, id), At(a.Resolve(r, approved, scope, decider).0, id);
      if id == r && r in a.pending then
        && after.pending.None? && after.row.Some? && after.row.value.pending == a.pending[r]
        && (before.future == Some(Unset) ==>
             if before.registered then after.future == Some(Value(after.row.value)) else after.future == before.future)
        && (before.future != Some(Unset) ==> after.future == before.future)
        && (after.mail == after.row || (after.mail == before.mail && before.registered && before.future == Some(Unset)))
      else after == before
  {
  }

  /** A call's own step, with the approval tables as they are, keeps it linked. */
  lemma LinkedUnderStep(e: Entry, id: Id, c: Call, l: Local)
    requires Linked(e, id, c) && Enabled(c, l) && !l.TicketStart? && !l.TicketAnswer?
    ensures Linked(e, id, Next(c, l))
  {
  }

  lemma LinkedAfterStart(a: Approvals, id: Id, c: Call)
    requires Linked(At(a, id), id, c) && Tidy(a, id) && c.phase.AwaitApproval? && c.ticket.NotStarted?
    ensures Linked(At(a.StartWait(id).0, id), id, Next(c, TicketStart(a.StartWait(id).1)))
  {
  }

  lemma LinkedAfterAnswer(a: Approvals, id: Id, c: Call)
    requires Linked(At(a, id), id, c) && Tidy(a, id) && id in a.futures && a.futures[id].Value?
    requires Enabled(c, TicketAnswer(a.futures[id].value))
    ensures Linked(At(a, id), id, Next(c, TicketAnswer(a.futures[id].value)))
  {
  }

  lemma LinkedAfterAbandon(a: Approvals, id: Id, c: Call)
    requires Linked(At(a, id), id, c) && Enabled(c, ResumeApproval)
        && (c.interrupt == CancelRequested || c.slot.gone.Value?)
    ensures Linked(At(a.Abandon(id), id), id, Next(c, ResumeApproval))
  {
  }

  lemma GrantsGrow(a: Approvals, op: Op, c: Call)
    requires CoveredByGrant(a, c) && (op.ResolveOp? ==> Tidy(a, op.id))
    ensures CoveredByGrant(Apply(a, op), c)
  {
    if op.ResolveOp? && op.id in a.pending {
      ResolveGrants(a, op.id, op.approved, op.scope, op.decider);
    } else if !op.ResolveOp? {
      OnlyDecisionsGrant(a, op);
    }
    var b := Apply(a, op);
    assert a.grants <= b.grants;
    assert forall g :: g in a.grants ==> g in b.grants;
  }

  lemma CoveredUnderStep(b: Bridge, c: Call, l: Local)
    requires Covered(b, c) && Sound(c) && Enabled(c, l)
    ensures Covered(b, Next(c, l))
  {
    NoOtherInvoke(c, l);
    CoveredAlike(b, c, Next(c, l));
  }

  lemma CoveredAlike(b: Bridge, c: Call, d: Call)
    requires Covered(b, c) && d.start == c.start && d.slot.deviceId == c.slot.deviceId
    requires d.ticket.NoTicket? && !NoInvoke(d.log) ==> c.ticket.NoTicket? && !NoInvoke(c.log)
    ensures Covered(b, d)
  {
  }

  /** Only an approved answer puts a first invoke frame into a history. */
  lemma NoOtherInvoke(c: Call, l: Local)
    requires Sound(c) && Enabled(c, l)
    ensures var d := Next(c, l);
            && d.start == c.start && d.slot.deviceId == c.slot.deviceId
            && (d.ticket.NoTicket? && !NoInvoke(d.log) ==> c.ticket.NoTicket? && !NoInvoke(c.log))
  {
  }

  /** What the link of one call needs to know of the state. */
  ghost predicate LinkReady(b: Bridge, a: Action, id: Id) {
    && id in b.calls && Possible(b, a) && Linked(At(b.approvals, id), id, b.calls[id])
    && Tidy(b.approvals, id) && (a.Decide? ==> Tidy(b.approvals, a.id))
  }

  lemma LinkedTicketBegins(b: Bridge, i: Id, id: Id)
    requires LinkReady(b, TicketBegins(i), id)
    ensures Linked(At(Next1(b, TicketBegins(i)).approvals, id), id, Next1(b, TicketBegins(i)).calls[id])
  {
    if i == id {
      LinkedAfterStart(b.approvals, id, b.calls[id]);
    } else {
      LinkedUnderOp(b.approvals, WaitOp(i), id, b.calls[id]);
    }
  }

  lemma LinkedTicketTimesOut(b: Bridge, i: Id, id: Id)
    requires LinkReady(b, TicketTimesOut(i), id)
    ensures Linked(At(Next1(b, TicketTimesOut(i)).approvals, id), id, Next1(b, TicketTimesOut(i)).calls[id])
  {
    var deadline := b.calls[i].ticket.deadline;
    LinkedUnderOp(b.approvals, ExpireOp(deadline), id, b.calls[id]);
    if i == id {
      ExpireTidy(b.approvals, b.approvals.Due(deadline), id);
      LinkedAfterAnswer(b.approvals.ExpirePending(deadline), id, b.calls[id]);
    }
  }

  lemma LinkedResumes(b: Bridge, i: Id, own: Local, id: Id)
    requires LinkReady(b, Resumes(i, own), id) && ApprovalOp(b, Resumes(i, own)).Some?
    ensures Linked(At(Next1(b, Resumes(i, own)).approvals, id), id, Next1(b, Resumes(i, own)).calls[id])
  {
    if i == id {
      LinkedAfterAbandon(b.approvals, id, b.calls[id]);
    } else {
      LinkedUnderOp(b.approvals, AbandonOp(i), id, b.calls[id]);
    }
  }

  lemma LinkedElse(b: Bridge, a: Action, id: Id)
    requires LinkReady(b, a, id) && (a.Request? || a.Decide?) && ApprovalOp(b, a).Some?
    ensures id in Next1(b, a).calls && Linked(At(Next1(b, a).approvals, id), id, Next1(b, a).calls[id])
  {
    ApprovalsMove(b, a);
    LinkedUnderOp(b.approvals, ApprovalOp(b, a).value, id, b.calls[id]);
  }

  /** Every call other than the one an action is about keeps its link, and so does that one. */
  lemma LinkedKept(b: Bridge, a: Action, id: Id)
    requires LinkReady(b, a, id)
    ensures id in Next1(b, a).calls && Linked(At(Next1(b, a).approvals, id), id, Next1(b, a).calls[id])
  {
    if ApprovalOp(b, a).None? {
      ApprovalsMove(b, a);
      LinkedMoved(b, a, id);
    } else {
      match a
      case TicketBegins(i) => LinkedTicketBegins(b, i, id);
      case TicketTimesOut(i) => LinkedTicketTimesOut(b, i, id);
      case Resumes(i, own) => LinkedResumes(b, i, own, id);
      case _ => LinkedElse(b, a, id);
    }
  }

  lemma LinkedMoved(b: Bridge, a: Action, id: Id)
    requires LinkReady(b, a, id) && ApprovalOp(b, a).None?
    ensures id in Next1(b, a).calls && Linked(At(b.approvals, id), id, Next1(b, a).calls[id])
  {
    LocalAt(b, a, id);
    var c := b.calls[id];
    if a == TicketHears(id) {
      LinkedAfterAnswer(b.approvals, id, c);
    } else if Taken(b, a, id).Some? {
      LinkedUnderStep(At(b.approvals, id), id, c, Taken(b, a, id).value);
    }
  }

  lemma CoveredKept(b: Bridge, a: Action, id: Id)
    requires Inv(b) && Possible(b, a) && id in b.calls
    ensures id in Next1(b, a).calls && Covered(Next1(b, a), Next1(b, a).calls[id])
  {
    var after, c := Next1(b, a), b.calls[id];
    LocalAt(b, a, id);
    if Taken(b, a, id).Some? {
      CoveredUnderStep(b, c, Taken(b, a, id).value);
    }
    ApprovalsMove(b, a);
    if ApprovalOp(b, a).Some? && CoveredByGrant(b.approvals, after.calls[id]) {
      var op := ApprovalOp(b, a).value;
      assert op.ResolveOp? ==> Tidy(b.approvals, op.id);
      GrantsGrow(b.approvals, op, after.calls[id]);
    }
  }

  /** What a request that resolves its target adds. */
  lemma RequestAdmits(b: Bridge, a: Action) returns (ready: Bridge, target: Targets.Target)
    requires Possible(b, a) && a.Request? && a.id in Next1(b, a).calls
    ensures
      var c := NewCall(Start(ready.table, a.request.capability, a.session, a.now), target);
      var asked := Pending(a.id, target.deviceId, a.request.capability, target.version, a.session, a.now, a.expiresAt);
      && ready.approvals == b.approvals && ready.asks == b.asks
      && Next1(b, a).calls[a.id] == Admit(ready, c)
      && Next1(b, a).approvals == if MustAsk(ready, c) then CreateIn(b.approvals, asked) else b.approvals
  {
    ready := if b.table.Some? && a.reloaded.Some? then b.(table := a.reloaded) else b;
    var default := match ready.table case None => None case Some(t) => t.DefaultDeviceFor(a.request.capability);
    assert Next1(b, a) == Begin(ready, a.id, a.request, a.session, a.now, a.expiresAt);
    target := Targets.Resolve(b.rows, b.connections, default, a.request).value;
  }

  /** A request's first step leaves its call sound, linked and covered. */
  lemma RequestStarts(b: Bridge, a: Action)
    requires Possible(b, a) && a.Request? && a.id in Next1(b, a).calls
    ensures var after := Next1(b, a);
            && Sound(after.calls[a.id]) && Linked(At(after.approvals, a.id), a.id, after.calls[a.id])
            && Covered(after, after.calls[a.id])
  {
    var ready, target := RequestAdmits(b, a);
    var c := NewCall(Start(ready.table, a.request.capability, a.session, a.now), target);
    var asked := Pending(a.id, target.deviceId, a.request.capability, target.version, a.session, a.now, a.expiresAt);
    AdmitSound(ready, c);
    AdmitLinked(ready, a.id, c, asked);
  }

  lemma AdmitLinked(b: Bridge, id: Id, c: Call, asked: Pending)
    requires c.phase.AwaitApproval? && c.ticket.NoTicket? && AskedFor(id, c, asked)
    requires At(b.approvals, id) == Entry(None, id in b.approvals.registered, None, None, None)
    ensures Linked(At(if MustAsk(b, c) then CreateIn(b.approvals, asked) else b.approvals, id), id, Admit(b, c))
  {
  }

  lemma AdmitSound(b: Bridge, c: Call)
    requires c.log == [] && c.phase.AwaitApproval? && c.ticket.NoTicket? && c.verb.None? && c.interrupt == NoInterrupt
    requires c.slot.live && c.slot.ack.Unset? && c.slot.result.Unset? && c.slot.gone.Unset?
    ensures Sound(Admit(b, c))
    ensures Admit(b, c).ticket.NoTicket? && !NoInvoke(Admit(b, c).log) ==>
              AllowedOutright(c) || (ModeFor(c) == Some(Ask) && CoveredByGrant(b.approvals, c))
  {
    Appended([], InvokeSent(c.slot.conn));
    Appended([], Removed(ByExpire));
  }

  lemma CallKept(b: Bridge, a: Action, id: Id)
    requires Inv(b) && Possible(b, a) && id in Next1(b, a).calls
    ensures
      var after := Next1(b, a);
      && Sound(after.calls[id]) && Linked(At(after.approvals, id), id, after.calls[id])
      && Covered(after, after.calls[id])
  {
    if id in b.calls {
      MovedKeeps(b, a, id);
      assert LinkReady(b, a, id) by {
        assert Tidy(b.approvals, id) && (a.Decide? ==> Tidy(b.approvals, a.id));
      }
      LinkedKept(b, a, id);
      CoveredKept(b, a, id);
    } else {
      OnlyRequestsAdd(b, a, id);
      RequestStarts(b, a);
    }
  }

  lemma InvKept(b: Bridge, a: Action)
    requires Inv(b) && Possible(b, a)
    ensures Inv(Next1(b, a))
  {
    var after := Next1(b, a);
    forall id | id in after.calls
      ensures Sound(after.calls[id]) && Linked(At(after.approvals, id), id, after.calls[id])
      ensures Covered(after, after.calls[id])
    {
      CallKept(b, a, id);
    }
    ApprovalsMove(b, a);
    if ApprovalOp(b, a).Some? {
      StepConsistent(b.approvals, ApprovalOp(b, a).value);
    }
    RowsKept(b, a);
    ConnectionsKept(b, a);
    PendingKept(b, a);
  }
}
