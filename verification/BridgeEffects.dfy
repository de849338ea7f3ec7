/** What each action of the bridge does, and what it leaves alone, told from the policy, the registry
    rows, the connections and the grants themselves (`hdp_bridge/control.py`, `connection.py`,
    `revocation.py`). */
module BridgeEffects {
  import opened Basics
  import opened Capabilities
  import opened Futures
  import opened Invocations
  import opened Approvals
  import opened Policy
  import opened Targets
  import opened Calls
  import opened CallSafety
  import opened Bridge
  import opened BridgeSafety
  import opened BridgeTheorems

  // ---- A request --------------------------------------------------------------------------------------

  /** The policy snapshot a request captures: the reloaded one, where there is a policy at all. */
  function Captured(b: Bridge, a: Action): Option<PolicyTable>
    requires a.Request?
  {
    if b.table.Some? && a.reloaded.Some? then a.reloaded else b.table
  }

  /** What its first step makes of a call whose target is resolved. */
  ghost predicate StartsAs(b: Bridge, a: Action, c: Call, target: Targets.Target)
    requires a.Request?
  {
    && c.start == Start(Captured(b, a), a.request.capability, a.session, a.now)
    && c.slot.deviceId == target.deviceId && c.slot.conn == target.conn && c.slot.descriptor == target.descriptor
    && c.slot.ack.Unset? && c.slot.result.Unset? && c.slot.gone.Unset? && c.interrupt.NoInterrupt? && c.verb.None?
  }

  /** A request the policy lets go: no policy, a permissive mode, or a standing grant under `ask`. */
  ghost predicate LetGo(b: Bridge, c: Call) {
    c.start.table.Some? ==>
      SnapshotMode(c) in {Session, Mode.Device, Always} || (SnapshotMode(c) == Ask && b.asks && Granted(b.approvals, c))
  }

  ghost predicate MustWait(b: Bridge, c: Call) {
    c.start.table.Some? && SnapshotMode(c) == Ask && b.asks && !Granted(b.approvals, c)
  }

  /** The three things that can become of it: sent at once, waiting for a decision, or denied. */
  ghost predicate Admitted(b: Bridge, c: Call) {
    if LetGo(b, c) then
      c.phase.Sending? && c.slot.live && c.ticket.NoTicket? && c.log == [InvokeSent(c.slot.conn)]
    else if MustWait(b, c) then
      c.phase.AwaitApproval? && c.slot.live && c.ticket.NotStarted? && c.log == []
    else
      c.phase == Finished(Error(PolicyDenied, DeniedByPolicy)) && !c.slot.live && c.ticket.NoTicket?
          && c.log == [Removed(ByExpire)]
  }

  /** A request that does not resolve leaves everything but the snapshot as it was; one that does adds
      its one call, on the resolved device, connection and descriptor, which is sent, waits or is
      denied as the captured snapshot and the standing grants say, and asks at most for itself. */
  lemma RequestExactly(b: Bridge, a: Action)
    requires Possible(b, a) && a.Request?
    ensures
      var after := Next1(b, a);
      var default := match Captured(b, a) case None => None case Some(t) => t.DefaultDeviceFor(a.request.capability);
      && after.table == Captured(b, a)
      && (after.connections, after.sockets, after.rows, after.asks) == (b.connections, b.sockets, b.rows, b.asks)
      && match Targets.Resolve(b.rows, b.connections, default, a.request)
         case Err(_) => after.calls == b.calls && after.approvals == b.approvals
         case Ok(target) =>
           && a.id in after.calls && after.calls == b.calls[a.id := after.calls[a.id]]
           && var c := after.calls[a.id];
           && StartsAs(b, a, c, target) && Admitted(b, c)
           && after.approvals ==
                if !MustWait(b, c) then b.approvals
                else b.approvals.(pending := b.approvals.pending[a.id :=
                  Pending(a.id, c.slot.deviceId, a.request.capability, target.version, a.session, a.now, a.expiresAt)])
  {
    var ready := if b.table.Some? && a.reloaded.Some? then b.(table := a.reloaded) else b;
    var default := match ready.table case None => None case Some(t) => t.DefaultDeviceFor(a.request.capability);
    assert Next1(b, a) == Begin(ready, a.id, a.request, a.session, a.now, a.expiresAt);
    match Targets.Resolve(b.rows, b.connections, default, a.request)
    case Err(_) =>
    case Ok(target) => BeginExactly(b, a, ready, target);
  }

  lemma BeginExactly(b: Bridge, a: Action, ready: Bridge, target: Targets.Target)
    requires a.Request? && a.id !in b.calls && a.id !in b.approvals.pending && ready == b.(table := Captured(b, a))
    ensures
      var c := NewCall(Start(ready.table, a.request.capability, a.session, a.now), target);
      var d := Admit(ready, c);
      && StartsAs(b, a, d, target) && Admitted(b, d) && (MustAsk(ready, c) <==> MustWait(b, d))
      && CreateIn(ready.approvals, Pending(a.id, target.deviceId, a.request.capability, target.version, a.session,
                                           a.now, a.expiresAt)) ==
         b.approvals.(pending := b.approvals.pending[a.id :=
           Pending(a.id, target.deviceId, a.request.capability, target.version, a.session, a.now, a.expiresAt)])
  {
    AdmitExactly(ready, NewCall(Start(ready.table, a.request.capability, a.session, a.now), target));
  }

  lemma AdmitExactly(b: Bridge, c: Call)
    requires c.log == [] && c.phase.AwaitApproval? && c.ticket.NoTicket? && c.interrupt.NoInterrupt? && c.slot.live
    ensures Admitted(b, Admit(b, c)) && (MustAsk(b, c) <==> MustWait(b, Admit(b, c)))
    ensures Admit(b, c).start == c.start && Admit(b, c).slot.(live := true) == c.slot
        && Admit(b, c).interrupt == c.interrupt && Admit(b, c).verb == c.verb
  {
    GrantedExactly(b.approvals, c);
    GrantedExactly(b.approvals, Admit(b, c));
    assert [] + [InvokeSent(c.slot.conn)] == [InvokeSent(c.slot.conn)];
    assert [] + [Removed(ByExpire)] == [Removed(ByExpire)];
  }

  // ---- A denial ---------------------------------------------------------------------------------------

  /** A call denied by policy: its snapshot's mode is deny, or it is ask and there is nobody to ask. */
  ghost predicate DeniedRightly(c: Call, asks: bool) {
    (c.phase.Closing? || c.phase.Finished?) && c.phase.outcome == Error(PolicyDenied, DeniedByPolicy) ==>
      && c.start.table.Some? && NoInvoke(c.log)
      && (SnapshotMode(c) == Deny || (SnapshotMode(c) == Ask && !asks))
  }

  lemma DenialStep(c: Call, l: Local, asks: bool)
    requires CallSafety.Sound(c) && Enabled(c, l) && DeniedRightly(c, asks)
    ensures DeniedRightly(Next(c, l), asks)
  {
    SettledOnce(c, l);
    HistoryGrows(c, l);
    if c.phase.Finished? || c.phase.Closing? { assert NoInvoke(c.log) ==> NoInvoke(Next(c, l).log); }
  }

  lemma DenialMoved(b: Bridge, a: Action, id: Id)
    requires Possible(b, a) && id in b.calls && CallSafety.Sound(b.calls[id]) && DeniedRightly(b.calls[id], b.asks)
    ensures id in Next1(b, a).calls && DeniedRightly(Next1(b, a).calls[id], b.asks)
  {
    LocalAt(b, a, id);
    match Taken(b, a, id)
    case None =>
    case Some(l) => DenialStep(b.calls[id], l, b.asks);
  }

  lemma DenialBegun(b: Bridge, a: Action)
    requires Possible(b, a) && a.Request? && a.id in Next1(b, a).calls
    ensures DeniedRightly(Next1(b, a).calls[a.id], b.asks)
  {
    var ready, target := RequestAdmits(b, a);
    DenialAdmitted(ready, NewCall(Start(ready.table, a.request.capability, a.session, a.now), target));
    AsksStays(b, a);
    assert ready.asks == b.asks;
  }

  lemma DenialAdmitted(b: Bridge, c: Call)
    requires c.log == [] && c.phase.AwaitApproval? && c.ticket.NoTicket? && c.interrupt.NoInterrupt? && c.slot.live
    ensures DeniedRightly(Admit(b, c), b.asks)
  {
    AdmitExactly(b, c);
  }

  lemma DenialKept(b: Bridge, a: Action, id: Id)
    requires Possible(b, a) && id in Next1(b, a).calls
    requires id in b.calls ==> CallSafety.Sound(b.calls[id]) && DeniedRightly(b.calls[id], b.asks)
    ensures DeniedRightly(Next1(b, a).calls[id], b.asks)
  {
    if id in b.calls { DenialMoved(b, a, id); } else {
      OnlyRequestsAdd(b, a, id);
      DenialBegun(b, a);
    }
  }

  lemma {:induction false} RunDenials(b: Bridge, actions: seq<Action>, id: Id)
    requires Inv(b) && Runnable(b, actions) && id in Run(b, actions).calls
    requires id in b.calls ==> DeniedRightly(b.calls[id], b.asks)
    ensures DeniedRightly(Run(b, actions).calls[id], b.asks) && Run(b, actions).asks == b.asks
    decreases |actions|
  {
    if actions != [] {
      InvKept(b, actions[0]);
      if id in Next1(b, actions[0]).calls { DenialKept(b, actions[0], id); }
      AsksStays(b, actions[0]);
      RunDenials(Next1(b, actions[0]), actions[1..], id);
    }
  }

  lemma AsksStays(b: Bridge, a: Action)
    requires Possible(b, a)
    ensures Next1(b, a).asks == b.asks
  {
  }

  /** In every run, a denial by policy means a snapshot that says deny, or ask with no approval manager;
      and nothing was sent. */
  lemma DeniedByTheSnapshot(b: Bridge, grants: seq<GrantRow>, id: Id)
    requires Reachable(b, grants) && id in b.calls
        && b.calls[id].phase == Finished(Error(PolicyDenied, DeniedByPolicy))
    ensures
      var c := b.calls[id];
      && c.start.table.Some? && NoInvoke(c.log)
      && (SnapshotMode(c) == Deny || (SnapshotMode(c) == Ask && !b.asks))
  {
    var rows: seq<DeviceRecord>, table: Option<PolicyTable>, asks: bool, decided: map<Id, Resolution>,
        actions: seq<Action> :|
      && WellKeyed(rows) && (forall id :: id in decided ==> decided[id].pending.id == id)
      && Runnable(Started(rows, table, asks, decided, grants), actions)
      && b == Run(Started(rows, table, asks, decided, grants), actions);
    InitiallyConsistent(decided, grants);
    RunDenials(Started(rows, table, asks, decided, grants), actions, id);
  }

  // ---- Revocation and presence ------------------------------------------------------------------------

  lemma {:induction false} LookupByIndex(rows: seq<DeviceRecord>, other: seq<DeviceRecord>, device: string)
    requires |rows| == |other|
    requires forall i :: 0 <= i < |rows| ==> rows[i].id == other[i].id && (rows[i].id == device ==> rows[i] == other[i])
    ensures Lookup(rows, device) == Lookup(other, device)
  {
    if rows != [] && rows[0].id != device { LookupByIndex(rows[1..], other[1..], device); }
  }

  /** Revoking a device: the rows keep their number and order, its own row changes in its state alone and
      every other row not at all; and so a request that names another device is answered as before. */
  lemma RevocationSparesOthers(b: Bridge, deviceId: string, invalidated: bool, default: Option<string>,
      request: Targets.Request)
    ensures
      var after := Next1(b, RevokeBegins(deviceId, invalidated));
      && |after.rows| == |b.rows|
      && (forall i :: 0 <= i < |b.rows| ==>
            if b.rows[i].id == deviceId then after.rows[i] == b.rows[i].(state := DeviceState.Revoked)
            else after.rows[i] == b.rows[i])
      && after.connections == b.connections && after.calls == b.calls && after.approvals == b.approvals
      && (forall conn :: conn in b.sockets && !(deviceId in b.connections && b.connections[deviceId] == conn) ==>
            conn in after.sockets && after.sockets[conn] == b.sockets[conn])
      && (request.deviceId.Some? && request.deviceId.value != deviceId ==>
            Targets.Resolve(after.rows, after.connections, default, request) ==
            Targets.Resolve(b.rows, b.connections, default, request))
  {
    var after := Next1(b, RevokeBegins(deviceId, invalidated));
    if request.deviceId.Some? && request.deviceId.value != deviceId {
      LookupByIndex(after.rows, b.rows, request.deviceId.value);
    }
  }

  /** A device that registers has its row, and its presence on the new connection; nobody else's row,
      presence or connection changes, and no call. */
  lemma RegistrationExactly(b: Bridge, conn: ConnId, record: DeviceRecord)
    requires WellKeyed(b.rows) && Possible(b, Register(conn, record))
    ensures
      var after := Next1(b, Register(conn, record));
      && (forall r :: r in after.rows <==> r == record || (r in b.rows && r.id != record.id))
      && (forall d :: d in after.connections <==> d == record.id || d in b.connections)
      && (forall d :: d in after.connections ==>
            after.connections[d] == if d == record.id then conn else b.connections[d])
      && (forall s :: s in after.sockets <==> s == conn || s in b.sockets)
      && (forall s :: s in after.sockets ==>
            after.sockets[s] == if s == conn then Socket(record.id, DeviceGone, false) else b.sockets[s])
      && (after.calls, after.approvals, after.table) == (b.calls, b.approvals, b.table)
  {
    UpsertExact(b.rows, record);
  }

  /** A re-advertisement replaces the capabilities of the device, active again under its old name --
      exactly if it comes on the connection that owns the device's presence. */
  lemma AdvertisementExactly(b: Bridge, conn: ConnId, capabilities: seq<Descriptor>)
    requires WellKeyed(b.rows) && conn in b.sockets
    ensures
      var after, device := Next1(b, Advertise(conn, capabilities)), b.sockets[conn].deviceId;
      if device in b.connections && b.connections[device] == conn then
        && after.(rows := b.rows) == b
        && (forall r :: r in after.rows && r.id != device <==> r in b.rows && r.id != device)
        && (exists r :: r in after.rows && r.id == device && r.state == Active && r.capabilities == capabilities
              && forall old' :: old' in b.rows && old'.id == device ==> r.name == old'.name)
        && (forall x, y :: x in after.rows && y in after.rows && x.id == y.id ==> x == y)
      else after == b
  {
    var device := b.sockets[conn].deviceId;
    if device in b.connections && b.connections[device] == conn {
      var existing := Lookup(b.rows, device);
      var name := match existing case Some(r) => r.name case None => device;
      var record := DeviceRecord(device, name, Active, capabilities);
      UpsertExact(b.rows, record);
      assert record in Upsert(b.rows, record);
      SameIdSameRow(Upsert(b.rows, record));
      SameIdSameRow(b.rows);
    }
  }

  /** A disconnect takes the socket down, once and for all, and no other. */
  lemma DisconnectionTakesOneDown(b: Bridge, conn: ConnId)
    requires conn in b.sockets
    ensures
      var after := Next1(b, Disconnect(conn));
      && after.sockets.Keys == b.sockets.Keys && after.sockets[conn] == b.sockets[conn].(down := true)
      && (forall s :: s in b.sockets && s != conn ==> after.sockets[s] == b.sockets[s])
      && (after.rows, after.approvals, after.table) == (b.rows, b.approvals, b.table)
  {
  }

  /** A reload replaces the snapshot for the requests to come, and touches nothing under way. */
  lemma ReloadExactly(b: Bridge, table: PolicyTable)
    requires b.table.Some?
    ensures Next1(b, Reload(table)).table == Some(table) && Next1(b, Reload(table)).(table := b.table) == b
  {
  }

  // ---- The cancel verb ----------------------------------------------------------------------------------

  /** The cancel verb on a pending id takes it out of the table and then sends the cancel frame to the
      device it was sent to; on any other id it does nothing. */
  lemma CancelVerbExactly(b: Bridge, id: Id, refusal: Payload)
    requires !refusal.ok
    ensures
      var after := Next1(b, CancelVerb(id, refusal));
      if id in b.calls && b.calls[id].slot.live then
        && after.(calls := b.calls) == b && after.calls.Keys == b.calls.Keys
        && (forall other :: other in b.calls && other != id ==> after.calls[other] == b.calls[other])
        && var before, c := b.calls[id], after.calls[id];
        && c.slot == before.slot.(live := false) && c.verb == Some(refusal) && c.phase == before.phase
        && c.log == before.log + [Removed(ByExpire), CancelSent(before.slot.conn)]
      else after == b
  {
    if id in b.calls && b.calls[id].slot.live {
      var log := b.calls[id].log;
      assert log + [Removed(ByExpire)] + [CancelSent(b.calls[id].slot.conn)] ==
          log + [Removed(ByExpire), CancelSent(b.calls[id].slot.conn)];
    }
  }

  /** And when it returns, it leaves neither future open: a caller past its approval wait is released,
      with the verb's refusal as its result unless a result was there already. */
  lemma CancelVerbReleases(b: Bridge, id: Id)
    requires Inv(b) && Possible(b, CancelVerbReturns(id))
    ensures
      var before, c := b.calls[id], Next1(b, CancelVerbReturns(id)).calls[id];
      && c.slot.ack.Done() && c.slot.result.Done() && c.verb.None?
      && (before.slot.ack.Unset? ==> c.slot.ack.Value?)
      && (before.slot.result.Unset? ==> c.slot.result == Value(before.verb.value))
      && (!c.phase.AwaitApproval? ==> Released(c))
  {
    VerbReleases(b.calls[id]);
  }

  lemma VerbReleases(c: Call)
    requires CallSafety.Sound(c) && c.verb.Some?
    ensures
      var d := Next(c, VerbRelease);
      && d.slot.ack.Done() && d.slot.result.Done() && d.verb.None?
      && (c.slot.ack.Unset? ==> d.slot.ack.Value?)
      && (c.slot.result.Unset? ==> d.slot.result == Value(c.verb.value))
      && (!d.phase.AwaitApproval? ==> Released(d))
  {
  }

  // ---- Approvals that time out --------------------------------------------------------------------------

  /** In this run from `b`, somebody's deadline not before `due` was reached, and the expiry ran. */
  ghost predicate RanOut(b: Bridge, actions: seq<Action>, due: int)
    requires Runnable(b, actions)
    decreases |actions|
  {
    actions != [] &&
    ((actions[0].TicketTimesOut? && b.calls[actions[0].id].ticket.deadline >= due)
     || RanOut(Next1(b, actions[0]), actions[1..], due))
  }

  ghost predicate RowExpired(b: Bridge, id: Id) {
    id in b.approvals.rows && b.approvals.rows[id].state == State.Expired
  }

  /** A row is written once, and as expired only by an expiry at or after its deadline. */
  lemma RowsAreWrittenOnce(b: Bridge, a: Action, id: Id)
    requires Inv(b) && Possible(b, a)
    ensures id in b.approvals.rows ==>
              id in Next1(b, a).approvals.rows && Next1(b, a).approvals.rows[id] == b.approvals.rows[id]
    ensures RowExpired(Next1(b, a), id) && id !in b.approvals.rows ==>
              a.TicketTimesOut? && b.calls[a.id].ticket.deadline >= Next1(b, a).approvals.rows[id].pending.expiresAt
  {
    ApprovalsMove(b, a);
    assert Tidy(b.approvals, id);
    if ApprovalOp(b, a).Some? {
      var op := ApprovalOp(b, a).value;
      StepConsistent(b.approvals, op);
      match op {
        case ExpireOp(now) => ExpiryExactly(b.approvals, now, id);
        case ResolveOp(r, approved, scope, decider) =>
          assert Tidy(b.approvals, r);
          DecisionExactly(b.approvals, r, approved, scope, decider, id);
        case _ =>
      }
    }
  }

  lemma {:induction false} ExpiredInTime(b: Bridge, actions: seq<Action>, id: Id)
    requires Inv(b) && Runnable(b, actions) && id !in b.approvals.rows && RowExpired(Run(b, actions), id)
    ensures RanOut(b, actions, Run(b, actions).approvals.rows[id].pending.expiresAt)
    decreases |actions|
  {
    if actions != [] {
      var next := Next1(b, actions[0]);
      InvKept(b, actions[0]);
      RowsAreWrittenOnce(b, actions[0], id);
      if id in next.approvals.rows { RowStands(next, actions[1..], id); } else {
        ExpiredInTime(next, actions[1..], id);
      }
    }
  }

  lemma {:induction false} RowStands(b: Bridge, actions: seq<Action>, id: Id)
    requires Inv(b) && Runnable(b, actions) && id in b.approvals.rows
    ensures id in Run(b, actions).approvals.rows && Run(b, actions).approvals.rows[id] == b.approvals.rows[id]
    ensures id !in b.calls ==> id !in Run(b, actions).calls
    decreases |actions|
  {
    if actions != [] {
      InvKept(b, actions[0]);
      RowsAreWrittenOnce(b, actions[0], id);
      if id in Next1(b, actions[0]).calls && id !in b.calls { OnlyRequestsAdd(b, actions[0], id); }
      RowStands(Next1(b, actions[0]), actions[1..], id);
    }
  }

  /** In every run of a freshly started bridge, a call is answered that its approval timed out only if
      the expiry ran at some deadline not before its own. */
  lemma NoApprovalTimesOutEarly(rows: seq<DeviceRecord>, table: Option<PolicyTable>, asks: bool,
      decided: map<Id, Resolution>, grants: seq<GrantRow>, actions: seq<Action>, id: Id)
    requires WellKeyed(rows) && forall i :: i in decided ==> decided[i].pending.id == i
    requires Runnable(Started(rows, table, asks, decided, grants), actions)
    requires
      var end := Run(Started(rows, table, asks, decided, grants), actions);
      id in end.calls && end.calls[id].ticket.Answered? && end.calls[id].ticket.resolution.state == State.Expired
    ensures
      var start := Started(rows, table, asks, decided, grants);
      var c := Run(start, actions).calls[id];
      && AskedFor(id, c, c.ticket.resolution.pending)
      && RanOut(start, actions, c.ticket.resolution.pending.expiresAt)
  {
    var start := Started(rows, table, asks, decided, grants);
    InitiallyConsistent(decided, grants);
    RunKeepsInv(start, actions, grants);
    if id in decided {
      RowStands(start, actions, id);
    } else {
      var end := Run(start, actions);
      assert Linked(At(end.approvals, id), id, end.calls[id]);
      ExpiredInTime(start, actions, id);
    }
  }

  // ---- A decision reaches its call ----------------------------------------------------------------------

  /** What one more step gives a call that waits: nothing to hear, or this answer. */
  ghost predicate Hears(b: Bridge, id: Id, r: Resolution) {
    && id in b.calls && b.calls[id].phase.AwaitApproval?
    && var step := if b.calls[id].ticket.NotStarted? then TicketBegins(id) else TicketHears(id);
       Possible(b, step) && id in Next1(b, step).calls && Next1(b, step).calls[id].ticket == Answered(r)
  }

  /** In every reachable state, a decision about a call that waits for one reaches it, whether its wait has
      begun or not: its next step hears exactly what was decided, by whom and how widely. */
  lemma DecisionReachesItsCall(b: Bridge, grants: seq<GrantRow>, id: Id, approved: bool, scope: Scope, decider: string)
    requires Reachable(b, grants) && id in b.calls && b.calls[id].phase.AwaitApproval?
    requires (b.calls[id].ticket.NotStarted? || b.calls[id].ticket.Waiting?) && id in b.approvals.pending
    ensures
      var after := Next1(b, Decide(id, approved, scope, decider));
      && id in after.approvals.rows && Hears(after, id, after.approvals.rows[id])
      && after.approvals.rows[id] ==
           Resolution(if approved then Approved else State.Denied, b.approvals.pending[id],
                      if approved then Some(scope) else None, Some(decider))
  {
    ReachableIsSafe(b, grants);
    assert Linked(At(b.approvals, id), id, b.calls[id]) && Tidy(b.approvals, id);
    DecisionExactly(b.approvals, id, approved, scope, decider, id);
    var after := Next1(b, Decide(id, approved, scope, decider));
    DecisionIsThere(b.approvals, after.approvals, id, b.calls[id]);
    HearsWhatIsThere(after, id, after.approvals.rows[id]);
  }

  /** The answer is there to be heard. */
  predicate There(a: Approvals, id: Id, ticket: Ticket, r: Resolution) {
    if ticket.NotStarted? then a.StartWait(id).1 == Completed(r) else id in a.futures && a.futures[id] == Value(r)
  }

  lemma DecisionIsThere(a: Approvals, after: Approvals, id: Id, c: Call)
    requires Linked(At(a, id), id, c) && Tidy(a, id) && c.phase.AwaitApproval? && id in a.pending
    requires (c.ticket.NotStarted? || c.ticket.Waiting?) && id in after.rows && Told(a, after, id)
    ensures There(after, id, c.ticket, after.rows[id])
  {
  }

  lemma HearsWhatIsThere(b: Bridge, id: Id, r: Resolution)
    requires id in b.calls && b.calls[id].phase.AwaitApproval?
    requires b.calls[id].ticket.NotStarted? || b.calls[id].ticket.Waiting?
    requires There(b.approvals, id, b.calls[id].ticket, r)
    ensures Hears(b, id, r)
  {
  }

  // ---- What can always happen ---------------------------------------------------------------------------

  /** Nothing of the model keeps the outside world from acting: frames for any id on any connection, any
      decision, revocation or reload, the cancel verb, a disconnect of any connection, a new connection;
      a request under an unused id; a cancel of a call that has not finished, and a timer of one that waits
      for the device; the return of a verb or a revocation under way. */
  lemma WorldIsFree(b: Bridge, id: Id, conn: ConnId, payload: Payload, record: DeviceRecord, table: PolicyTable,
      request: Targets.Request, session: Option<string>, now: int, deadline: int, reached: bool, deviceId: string)
    ensures Possible(b, AckFrom(conn, id)) && Possible(b, ResultFrom(conn, id, payload))
    ensures forall approved, scope, decider :: Possible(b, Decide(id, approved, scope, decider))
    ensures Possible(b, RevokeBegins(deviceId, reached)) && (b.table.Some? ==> Possible(b, Reload(table)))
    ensures !payload.ok ==> Possible(b, CancelVerb(id, payload))
    ensures conn in b.sockets ==> Possible(b, Disconnect(conn)) && Possible(b, Advertise(conn, record.capabilities))
    ensures conn !in b.sockets && record.state.Active? ==> Possible(b, Register(conn, record))
    ensures At(b.approvals, id) == Entry(None, id in b.approvals.registered, None, None, None) && id !in b.calls ==>
              Possible(b, Action.Request(id, request, session, Some(table), now, deadline))
    ensures id in b.calls && !b.calls[id].phase.Finished? ==> Possible(b, Strikes(id, CancelRequested, reached))
    ensures id in b.calls && b.calls[id].phase.AwaitAck? && b.calls[id].interrupt.NoInterrupt? ==>
              Possible(b, Strikes(id, TimerFired, reached))
    ensures id in b.calls && b.calls[id].phase.AwaitResult? && b.calls[id].interrupt.NoInterrupt? ==>
              Possible(b, Strikes(id, TimerFired, reached))
    ensures id in b.calls && b.calls[id].verb.Some? ==> Possible(b, CancelVerbReturns(id))
    ensures (deviceId, conn) in b.revoking ==> Possible(b, RevokeEnds(deviceId, conn))
  {
  }
}
