/** The bridge as one state machine: every call in flight, presence, the approval manager, the
    current policy snapshot and the revocations under way, moved by one event-loop step at a time
    (`hdp_bridge/control.py`, `connection.py`, `revocation.py`). */
module Bridge {
  import opened Basics
  import opened Capabilities
  import opened Futures
  import opened Invocations
  import opened Approvals
  import opened Policy
  import opened Targets
  import opened Calls

  /** What the bridge keeps of one `NodeConnection` once it has a device. */
  datatype Socket = Socket(deviceId: string, reason: Reason, down: bool)

  datatype Bridge = Bridge(
    calls: map<Id, Call>,
    connections: map<string, ConnId>,
    sockets: map<ConnId, Socket>,
    rows: seq<DeviceRecord>,
    table: Option<PolicyTable>,         // `None`: no policy engine configured
    approvals: Approvals,
    asks: bool,                         // an approval manager is configured
    revoking: multiset<(string, ConnId)>)   // each `revoke_device` that found a live connection and has not returned

  datatype Action =
    | Request(id: Id, request: Targets.Request, session: Option<string>, reloaded: Option<PolicyTable>, now: int,
        expiresAt: int)
    | TicketBegins(id: Id)
    | TicketHears(id: Id)
    | TicketTimesOut(id: Id)
    | Resumes(id: Id, own: Local)
    | Strikes(id: Id, kind: Interrupt, reached: bool)
    | AckFrom(conn: ConnId, id: Id)
    | ResultFrom(conn: ConnId, id: Id, payload: Payload)
    | Register(conn: ConnId, record: DeviceRecord)
    | Advertise(conn: ConnId, capabilities: seq<Descriptor>)
    | Disconnect(conn: ConnId)
    | Reload(newTable: PolicyTable)
    | CancelVerb(id: Id, refusal: Payload)
    | CancelVerbReturns(id: Id)
    | Decide(id: Id, approved: bool, scope: Scope, decider: string)
    | RevokeBegins(deviceId: string, invalidated: bool)   // did any live credential get revoked?
    | RevokeEnds(deviceId: string, conn: ConnId)

  // ---- Registry rows ----------------------------------------------------------------------------

  /** Insert the row, or replace the one with its id. */
  function Upsert(rows: seq<DeviceRecord>, record: DeviceRecord): seq<DeviceRecord> {
    if rows == [] then [record]
    else if rows[0].id == record.id then [record] + rows[1..]
    else [rows[0]] + Upsert(rows[1..], record)
  }

  function MarkRevoked(rows: seq<DeviceRecord>, deviceId: string): seq<DeviceRecord> {
    seq(|rows|, i requires 0 <= i < |rows| =>
      if rows[i].id == deviceId then rows[i].(state := DeviceState.Revoked) else rows[i])
  }

  // ---- Admission ----------------------------------------------------------------------------------

  function NewCall(start: Start, target: Target): Call {
    Call(start, NewSlot(target.deviceId, target.conn, target.descriptor), AwaitApproval, NoInterrupt, NoTicket, None,
        [])
  }

  function ModeFor(c: Call): Option<Mode> {
    match c.start.table
    case None => None
    case Some(t) => Some(t.Resolve(c.slot.deviceId, c.start.capability).mode)
  }

  /** The request is allowed without asking anybody. */
  predicate AllowedOutright(c: Call) {
    ModeFor(c).None? || ModeFor(c).value in {Session, Device, Always}
  }

  predicate CoveredByGrant(a: Approvals, c: Call) {
    || a.HasSessionGrant(c.start.session, c.slot.deviceId, c.start.capability)
    || a.HasDatabaseGrant(c.slot.deviceId, c.start.capability, c.start.at)
  }

  predicate MustAsk(b: Bridge, c: Call) {
    ModeFor(c) == Some(Ask) && b.asks && !CoveredByGrant(b.approvals, c)
  }

  /** The new call, after everything `_ctl_invoke` does before its first await. */
  function Admit(b: Bridge, c: Call): Call {
    if AllowedOutright(c) || (ModeFor(c) == Some(Ask) && b.asks && CoveredByGrant(b.approvals, c)) then c.Dispatch()
    else if MustAsk(b, c) then c.(ticket := NotStarted)
    else c.Expire().Finish(Error(PolicyDenied, DeniedByPolicy))
  }

  function Begin(b: Bridge, id: Id, request: Targets.Request, session: Option<string>, now: int,
      expiresAt: int): Bridge {
    var default := match b.table case None => None case Some(t) => t.DefaultDeviceFor(request.capability);
    match Targets.Resolve(b.rows, b.connections, default, request)
    case Err(_) => b
    case Ok(target) =>
      var c := NewCall(Start(b.table, request.capability, session, now), target);
      var asked := Pending(id, target.deviceId, request.capability, target.version, session, now, expiresAt);
      b.(calls := b.calls[id := Admit(b, c)],
         approvals := if MustAsk(b, c) then CreateIn(b.approvals, asked) else b.approvals)
  }

  function CreateIn(a: Approvals, p: Pending): Approvals {
    match a.Create(p)
    case Ok(after) => after
    case Err(_) => a
  }

  // ---- Steps ----------------------------------------------------------------------------------------

  function Local1(b: Bridge, id: Id, l: Local): Bridge
    requires id in b.calls && Enabled(b.calls[id], l)
  {
    b.(calls := b.calls[id := Next(b.calls[id], l)])
  }

  function FailCalls(b: Bridge, device: Option<string>, conn: Option<ConnId>, reason: Reason, both: bool): Bridge {
    b.(calls := map id | id in b.calls :: Next(b.calls[id], Local.Fail(device, conn, reason, both)))
  }

  predicate Possible(b: Bridge, a: Action) {
    match a
    case Request(id, _, _, _, _, _) => id !in b.calls && id !in b.approvals.pending && id !in b.approvals.rows
        && id !in b.approvals.mailbox && id !in b.approvals.futures
    case TicketBegins(id) => id in b.calls && b.calls[id].phase.AwaitApproval? && b.calls[id].ticket.NotStarted?
    case TicketHears(id) =>
      && id in b.calls && b.calls[id].phase.AwaitApproval? && b.calls[id].ticket.Waiting?
      && id in b.approvals.futures && b.approvals.futures[id].Value?
    case TicketTimesOut(id) =>
      && id in b.calls && b.calls[id].phase.AwaitApproval? && b.calls[id].ticket.Waiting?
      && var after := b.approvals.ExpirePending(b.calls[id].ticket.deadline);
         id in after.futures && after.futures[id].Value?
    case Resumes(id, own) => id in b.calls && Own(own) && Enabled(b.calls[id], own)
    case Strikes(id, kind, reached) => id in b.calls && Enabled(b.calls[id], Strike(kind, reached))
    case AckFrom(_, _) => true
    case ResultFrom(_, _, _) => true
    case Register(conn, record) => conn !in b.sockets && record.state == Active
    case Advertise(conn, _) => conn in b.sockets
    case Disconnect(conn) => conn in b.sockets
    case Reload(_) => b.table.Some?
    case CancelVerb(_, refusal) => !refusal.ok
    case CancelVerbReturns(id) => id in b.calls && b.calls[id].verb.Some?
    case Decide(_, _, _, _) => true
    case RevokeBegins(_, _) => true
    case RevokeEnds(deviceId, conn) => (deviceId, conn) in b.revoking
  }

  function Next1(b: Bridge, a: Action): Bridge
    requires Possible(b, a)
  {
    match a
    case Request(id, request, session, reloaded, now, expiresAt) =>
      Begin(if b.table.Some? && reloaded.Some? then b.(table := reloaded) else b, id, request, session, now, expiresAt)
    case TicketBegins(id) =>
      Local1(b, id, TicketStart(b.approvals.StartWait(id).1)).(approvals := b.approvals.StartWait(id).0)
    case TicketHears(id) => Local1(b, id, TicketAnswer(b.approvals.futures[id].value))
    case TicketTimesOut(id) =>
      var after := b.approvals.ExpirePending(b.calls[id].ticket.deadline);
      Local1(b, id, TicketAnswer(after.futures[id].value)).(approvals := after)
    case Resumes(id, own) =>
      var c := b.calls[id];
      Local1(b, id, own).(approvals :=
        if own.ResumeApproval? && (c.interrupt == CancelRequested || c.slot.gone.Value?) then b.approvals.Abandon(id)
            else b.approvals)
    case Strikes(id, kind, reached) => Local1(b, id, Strike(kind, reached))
    case AckFrom(conn, id) => if id in b.calls then Local1(b, id, AckFrame(conn)) else b
    case ResultFrom(conn, id, payload) => if id in b.calls then Local1(b, id, ResultFrame(conn, payload)) else b
    case Register(conn, record) =>
      b.(rows := Upsert(b.rows, record), connections := b.connections[record.id := conn],
         sockets := b.sockets[conn := Socket(record.id, DeviceGone, false)])
    case Advertise(conn, capabilities) => OnAdvertise(b, conn, capabilities)
    case Disconnect(conn) => OnDisconnect(b, conn)
    case Reload(newTable) => b.(table := Some(newTable))
    case CancelVerb(id, refusal) =>
      if id in b.calls && b.calls[id].slot.live then Local1(b, id, VerbRemove(refusal)) else b
    case CancelVerbReturns(id) => Local1(b, id, VerbRelease)
    case Decide(id, approved, scope, decider) => b.(approvals := b.approvals.Resolve(id, approved, scope, decider).0)
    case RevokeBegins(deviceId, invalidated) => OnRevoke(b, deviceId, invalidated)
    case RevokeEnds(deviceId, conn) =>
      FailCalls(b, Some(deviceId), None, OperatorRevoked, true).(revoking := b.revoking - multiset{(deviceId, conn)})
  }

  /** Re-advertisement replaces the device's row, and counts only on the connection that owns the
      device's presence. */
  function OnAdvertise(b: Bridge, conn: ConnId, capabilities: seq<Descriptor>): Bridge
    requires conn in b.sockets
  {
    var deviceId := b.sockets[conn].deviceId;
    if deviceId in b.connections && b.connections[deviceId] == conn then
      var existing := Lookup(b.rows, deviceId);
      var name := match existing case Some(r) => r.name case None => deviceId;
      b.(rows := Upsert(b.rows, DeviceRecord(deviceId, name, Active, capabilities)))
    else b
  }

  /** `_on_disconnect`: give up presence only if it is still this connection's, and fail exactly
      the calls dispatched through it, with the reason the connection carries. */
  function OnDisconnect(b: Bridge, conn: ConnId): Bridge
    requires conn in b.sockets
  {
    var s := b.sockets[conn];
    var owns := s.deviceId in b.connections && b.connections[s.deviceId] == conn;
    FailCalls(b, None, Some(conn), s.reason, false).(
      connections := if owns then b.connections - {s.deviceId} else b.connections,
      sockets := b.sockets[conn := s.(down := true)])
  }

  /** `revoke_device` up to its first await. */
  function OnRevoke(b: Bridge, deviceId: string, invalidated: bool): Bridge {
    var marked := b.(rows := MarkRevoked(b.rows, deviceId));
    if !invalidated || deviceId !in b.connections then marked
    else
      var conn := b.connections[deviceId];
      if conn !in b.sockets then marked
      else marked.(sockets := b.sockets[conn := b.sockets[conn].(reason := OperatorRevoked)],
                   revoking := b.revoking + multiset{(deviceId, conn)})
  }

  // ---- Runs -----------------------------------------------------------------------------------------

  /** `actions` can happen one after another from `b`. */
  predicate Runnable(b: Bridge, actions: seq<Action>)
    decreases |actions|
  {
    actions == [] || (Possible(b, actions[0]) && Runnable(Next1(b, actions[0]), actions[1..]))
  }

  function Run(b: Bridge, actions: seq<Action>): Bridge
    requires Runnable(b, actions)
    decreases |actions|
  {
    if actions == [] then b else Run(Next1(b, actions[0]), actions[1..])
  }

  /** A freshly started bridge over whatever the database holds. */
  function Started(rows: seq<DeviceRecord>, table: Option<PolicyTable>, asks: bool, decided: map<Id, Resolution>,
      grants: seq<GrantRow>): Bridge {
    Bridge(map[], map[], map[], rows, table, Empty(decided, grants), asks, multiset{})
  }
}
