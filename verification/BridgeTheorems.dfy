/** The bridge's promises, stated for every reachable state and every continuation of it. */
module BridgeTheorems {
  import opened Basics
  import opened Capabilities
  import opened Futures
  import opened Invocations
  import opened Approvals
  import opened Policy
  import opened Targets
  import opened Calls
  import opened CallSafety
  import opened Bridge
  import opened BridgeSafety

  // ---- Reachable states -----------------------------------------------------------------------------

  /** Some run of a freshly started bridge, over a database that already held `grants`, ends here. */
  ghost predicate Reachable(b: Bridge, grants: seq<GrantRow>) {
    exists rows: seq<DeviceRecord>, table: Option<PolicyTable>, asks: bool, decided: map<Id, Resolution>,
        actions: seq<Action> ::
      && WellKeyed(rows) && (forall id :: id in decided ==> decided[id].pending.id == id)
      && Runnable(Started(rows, table, asks, decided, grants), actions)
      && b == Run(Started(rows, table, asks, decided, grants), actions)
  }

  lemma {:induction false} RunKeepsInv(b: Bridge, actions: seq<Action>, grants: seq<GrantRow>)
    requires Inv(b) && GrantsTraced(b.approvals, grants) && Runnable(b, actions)
    ensures Inv(Run(b, actions)) && GrantsTraced(Run(b, actions).approvals, grants)
    decreases |actions|
  {
    if actions != [] {
      InvKept(b, actions[0]);
      ApprovalsMove(b, actions[0]);
      if ApprovalOp(b, actions[0]).Some? {
        StepGrants(b.approvals, ApprovalOp(b, actions[0]).value, grants);
      }
      RunKeepsInv(Next1(b, actions[0]), actions[1..], grants);
    }
  }

  lemma ReachableIsSafe(b: Bridge, grants: seq<GrantRow>)
    requires Reachable(b, grants)
    ensures Inv(b) && GrantsTraced(b.approvals, grants)
  {
    var rows: seq<DeviceRecord>, table: Option<PolicyTable>, asks: bool, decided: map<Id, Resolution>,
        actions: seq<Action> :|
      && WellKeyed(rows) && (forall id :: id in decided ==> decided[id].pending.id == id)
      && Runnable(Started(rows, table, asks, decided, grants), actions)
      && b == Run(Started(rows, table, asks, decided, grants), actions);
    InitiallyConsistent(decided, grants);
    RunKeepsInv(Started(rows, table, asks, decided, grants), actions, grants);
  }

  // ---- The pending table and the futures --------------------------------------------------------------

  /** In every reachable state a pending id has been removed by nobody, its result and disconnect
      futures are open and its ack is open or given -- the one exception being the future its owner
      has been struck out of waiting for and is about to abandon; a removed id was removed exactly
      once; a finished call's id is gone; and every cancel frame followed the removal. */
  lemma PendingTable(b: Bridge, grants: seq<GrantRow>, id: Id)
    requires Reachable(b, grants) && id in b.calls
    ensures
      var c, s := b.calls[id], b.calls[id].slot;
      && (s.live <==> NoRemoval(c.log)) && OneRemoval(c.log) && CancelsFollowRemoval(c.log)
      && (s.live ==> s.gone.Unset?)
      && (s.live && (c.interrupt == NoInterrupt || !c.phase.AwaitResult?) ==> s.result.Unset?)
      && (s.live && (c.interrupt == NoInterrupt || !c.phase.AwaitAck?) ==> s.ack.Unset? || s.ack.Value?)
      && (c.phase.Finished? ==> !s.live)
  {
    ReachableIsSafe(b, grants);
  }

  /** Over any run, no future is settled twice, no id returns to the table, no history is rewritten,
      no request changes the policy snapshot it is judged by, and no outcome changes. */
  lemma {:induction false} NothingIsUndone(b: Bridge, actions: seq<Action>, id: Id)
    requires Inv(b) && Runnable(b, actions) && id in b.calls
    ensures
      var end := Run(b, actions);
      && id in end.calls
      && Later(b.calls[id].slot, end.calls[id].slot)
      && b.calls[id].log <= end.calls[id].log && end.calls[id].start == b.calls[id].start
      && (b.calls[id].phase.Finished? ==> end.calls[id].phase == b.calls[id].phase)
      && (Released(b.calls[id]) ==> Released(end.calls[id]))
    decreases |actions|
  {
    if actions != [] {
      ActionIsLocal(b, actions[0]);
      MovedKeeps(b, actions[0], id);
      InvKept(b, actions[0]);
      NothingIsUndone(Next1(b, actions[0]), actions[1..], id);
    }
  }

  // ---- Successful replies ---------------------------------------------------------------------------------

  /** A reply says ok only if the invoke went out, no cancel ever did, an explicit ack and later a
      result arrived, both on the very connection generation the invoke was sent on, and the data
      conforms to the descriptor captured when the target was resolved. */
  lemma SuccessIsEarned(b: Bridge, grants: seq<GrantRow>, id: Id, data: map<string, Json>)
    requires Reachable(b, grants) && id in b.calls && b.calls[id].phase == Finished(Success(data))
    ensures
      var c := b.calls[id];
      && InvokeSent(c.slot.conn) in c.log && NoCancel(c.log)
      && Conforms(c.slot.descriptor.output, Obj(data))
      && exists i, j, p :: 0 <= i < j < |c.log|
           && c.log[i] == AckArrived(c.slot.conn) && c.log[j] == ResultArrived(c.slot.conn, p)
           && p.ok && data == p.data.GetOr(map[])
  {
    ReachableIsSafe(b, grants);
    var c := b.calls[id];
    assert Earned(c, data);
    var p :| AckThenResult(c.log, c.slot.conn, p) && p.ok && data == p.data.GetOr(map[]);
  }

  /** Its invoke frame comes before anything else that happened to a call nobody was asked about. */
  ghost predicate Prompt(c: Call) {
    c.ticket.NoTicket? ==>
      c.log != [] && (c.log[0] == InvokeSent(c.slot.conn) || (c.phase.Finished? && NoInvoke(c.log)))
  }

  ghost predicate AllPrompt(b: Bridge) { forall id :: id in b.calls ==> Prompt(b.calls[id]) }

  lemma PromptStep(c: Call, l: Local)
    requires CallSafety.Sound(c) && Enabled(c, l) && Prompt(c)
    ensures Prompt(Next(c, l))
  {
    var d := Next(c, l);
    if d.ticket.NoTicket? && c.phase.Finished? {
      assert NoInvoke(c.log) ==> NoInvoke(d.log);
    }
  }

  lemma PromptMoved(b: Bridge, a: Action, id: Id)
    requires Possible(b, a) && id in b.calls && CallSafety.Sound(b.calls[id]) && Prompt(b.calls[id])
    ensures id in Next1(b, a).calls && Prompt(Next1(b, a).calls[id])
  {
    LocalAt(b, a, id);
    match Taken(b, a, id)
    case None =>
    case Some(l) => PromptStep(b.calls[id], l);
  }

  lemma PromptAdmitted(b: Bridge, start: Start, target: Target)
    ensures Prompt(Admit(b, NewCall(start, target)))
  {
  }

  lemma PromptBegun(b: Bridge, a: Action)
    requires Possible(b, a) && a.Request? && a.id in Next1(b, a).calls
    ensures Prompt(Next1(b, a).calls[a.id])
  {
    var ready := if b.table.Some? && a.reloaded.Some? then b.(table := a.reloaded) else b;
    var default := match ready.table case None => None case Some(t) => t.DefaultDeviceFor(a.request.capability);
    match Targets.Resolve(ready.rows, ready.connections, default, a.request)
    case Err(_) =>
    case Ok(target) => PromptAdmitted(ready, Start(ready.table, a.request.capability, a.session, a.now), target);
  }

  lemma PromptKept(b: Bridge, a: Action)
    requires AllSound(b) && AllPrompt(b) && Possible(b, a)
    ensures AllPrompt(Next1(b, a))
  {
    forall id | id in Next1(b, a).calls ensures Prompt(Next1(b, a).calls[id]) {
      if id in b.calls { PromptMoved(b, a, id); } else {
        OnlyRequestsAdd(b, a, id);
        PromptBegun(b, a);
      }
    }
  }

  lemma {:induction false} RunKeepsPrompt(b: Bridge, actions: seq<Action>)
    requires Inv(b) && AllPrompt(b) && Runnable(b, actions)
    ensures AllPrompt(Run(b, actions))
    decreases |actions|
  {
    if actions != [] {
      InvKept(b, actions[0]);
      PromptKept(b, actions[0]);
      RunKeepsPrompt(Next1(b, actions[0]), actions[1..]);
    }
  }

  /** Unless the call waited for a decision, its invoke also precedes that ack. */
  lemma InvokeComesFirst(b: Bridge, grants: seq<GrantRow>, id: Id, conn: ConnId)
    requires Reachable(b, grants) && id in b.calls && InvokeSent(conn) in b.calls[id].log
    ensures b.calls[id].ticket.NoTicket? ==> b.calls[id].log[0] == InvokeSent(conn)
  {
    ReachableIsSafe(b, grants);
    var rows: seq<DeviceRecord>, table: Option<PolicyTable>, asks: bool, decided: map<Id, Resolution>,
        actions: seq<Action> :|
      && WellKeyed(rows) && (forall id :: id in decided ==> decided[id].pending.id == id)
      && Runnable(Started(rows, table, asks, decided, grants), actions)
      && b == Run(Started(rows, table, asks, decided, grants), actions);
    InitiallyConsistent(decided, grants);
    RunKeepsPrompt(Started(rows, table, asks, decided, grants), actions);
    HasInvoke(b.calls[id].log, conn);
    assert Prompt(b.calls[id]);
  }

  /** A call that did wait can succeed on an ack that came first: the table takes an ack for any pending
      id, sent or not. */
  lemma AckBeforeInvoke(c: Call, data: map<string, Json>)
    requires c.phase.AwaitApproval? && c.interrupt.NoInterrupt?
    requires c.ticket.Answered? && c.ticket.resolution.state == Approved
    requires c.slot.live && c.slot.ack.Unset? && c.slot.result.Unset? && c.slot.gone.Unset?
    requires Conforms(c.slot.descriptor.output, Obj(data))
    ensures
      var conn, payload := c.slot.conn, Payload(true, Some(data), None);
      var sent := Next(Next(Next(c, AckFrame(conn)), ResumeApproval), ResumeSend(true));
      var end := Next(Next(Next(sent, ResumeAck(false)), ResultFrame(conn, payload)), ResumeResult(false));
      && end.phase == Finished(Success(data))
      && end.log == c.log + [AckArrived(conn), InvokeSent(conn), ResultArrived(conn, payload), Removed(ByResult)]
  {
    ValidateExact(c.slot.descriptor.output, Obj(data), []);
  }

  // ---- Authorization -----------------------------------------------------------------------------------------

  /** A grant that stands at the time of the request covers the call: for its session, or stored. */
  ghost predicate Granted(a: Approvals, c: Call) {
    || (c.start.session.Some? && (c.start.session.value, c.slot.deviceId, c.start.capability) in a.sessionGrants)
    || (exists g :: g in a.grants && Covers(g, c))
  }

  /** The stored grant covers the call at the time of its request. */
  predicate Covers(g: GrantRow, c: Call) {
    && g.deviceId == c.slot.deviceId && g.capability == c.start.capability && (g.mode == OfDevice || g.mode == OfAlways)
    && !g.revoked && (g.expiresAt.None? || g.expiresAt.value > c.start.at)
  }

  lemma GrantedExactly(a: Approvals, c: Call)
    ensures CoveredByGrant(a, c) <==> Granted(a, c)
  {
  }

  /** The mode the request's own policy snapshot has for the call's device and capability. */
  function SnapshotMode(c: Call): Mode
    requires c.start.table.Some?
  {
    c.start.table.value.Resolve(c.slot.deviceId, c.start.capability).mode
  }

  /** The request's own policy snapshot lets it go: outright, or by a standing grant, or because
      this very id was approved. */
  ghost predicate Authorized(b: Bridge, id: Id)
    requires id in b.calls
  {
    var c := b.calls[id];
    c.start.table.Some? ==>
      match SnapshotMode(c)
      case Deny => false
      case Ask => Granted(b.approvals, c) || DecidedFor1(b.approvals, id, c)
      case _ => true
  }

  /** An approved decision is on record for exactly this invocation. */
  ghost predicate DecidedFor1(a: Approvals, id: Id, c: Call) {
    id in a.rows && a.rows[id].state == Approved && AskedFor(id, c, a.rows[id].pending)
  }

  /** At most one invoke frame goes out per id, on the connection resolution chose, and only when
      authorized -- whatever is reloaded or decided meanwhile. */
  lemma OnlyAuthorizedInvokes(b: Bridge, grants: seq<GrantRow>, id: Id, conn: ConnId)
    requires Reachable(b, grants) && id in b.calls && InvokeSent(conn) in b.calls[id].log
    ensures OneInvoke(b.calls[id].log) && conn == b.calls[id].slot.conn && Authorized(b, id)
  {
    ReachableIsSafe(b, grants);
    var c := b.calls[id];
    assert Linked(At(b.approvals, id), id, c) && Covered(b, c);
    HasInvoke(c.log, conn);
    GrantedExactly(b.approvals, c);
  }

  /** In the operator's words: of the four layers of that snapshot, the first one that says anything
      about the device and the capability lets the call go, or says to ask, and it was asked. */
  lemma JudgedByItsSnapshot(b: Bridge, grants: seq<GrantRow>, id: Id, conn: ConnId, t: PolicyTable)
    requires Reachable(b, grants) && id in b.calls && InvokeSent(conn) in b.calls[id].log
    requires b.calls[id].start.table == Some(t) && Keyed(t)
    ensures
      var c := b.calls[id];
      exists layer, mode ::
        && Says(t, layer, c.slot.deviceId, c.start.capability, mode)
        && SilentBefore(t, layer, c.slot.deviceId, c.start.capability)
        && (mode in {Session, Device, Always}
            || (mode == Ask && (Granted(b.approvals, c) || DecidedFor1(b.approvals, id, c))))
  {
    OnlyAuthorizedInvokes(b, grants, id, conn);
    var c := b.calls[id];
    var decision := t.Resolve(c.slot.deviceId, c.start.capability);
    FirstLayerDecides(t, c.slot.deviceId, c.start.capability, decision.mode, decision.source);
    assert Says(t, decision.source, c.slot.deviceId, c.start.capability, decision.mode);
  }

  /** Under `ask`, a person stands behind every invoke frame: a decision for that id, or one with a
      wider scope for the same device and capability (and session), or a grant the database held
      before the bridge started. */
  lemma SomebodyApproved(b: Bridge, grants: seq<GrantRow>, id: Id, conn: ConnId)
    requires Reachable(b, grants) && id in b.calls && InvokeSent(conn) in b.calls[id].log
    requires b.calls[id].start.table.Some? && SnapshotMode(b.calls[id]) == Ask
    ensures
      var c := b.calls[id];
      || DecidedFor1(b.approvals, id, c)
      || (exists other :: DecidedFor(b.approvals, other, c.slot.deviceId, c.start.capability, SessionScope)
            && b.approvals.rows[other].pending.session == c.start.session)
      || (exists other :: DecidedFor(b.approvals, other, c.slot.deviceId, c.start.capability, DeviceScope))
      || (exists other :: DecidedFor(b.approvals, other, c.slot.deviceId, c.start.capability, Persistent))
      || (exists g :: g in grants && Covers(g, c))
  {
    ReachableIsSafe(b, grants);
    OnlyAuthorizedInvokes(b, grants, id, conn);
    var a, c := b.approvals, b.calls[id];
    if !DecidedFor1(a, id, c) {
      if a.HasSessionGrant(c.start.session, c.slot.deviceId, c.start.capability) {
        assert SessionTraced(a, c.start.session.value, c.slot.deviceId, c.start.capability);
      } else {
        GrantBehind(a, grants, c);
      }
    }
  }

  /** A standing grant that covers a call comes from a decision of its width, or was there before. */
  lemma GrantBehind(a: Approvals, grants: seq<GrantRow>, c: Call)
    requires GrantsTraced(a, grants) && a.HasDatabaseGrant(c.slot.deviceId, c.start.capability, c.start.at)
    ensures
      || (exists other :: DecidedFor(a, other, c.slot.deviceId, c.start.capability, DeviceScope))
      || (exists other :: DecidedFor(a, other, c.slot.deviceId, c.start.capability, Persistent))
      || (exists g :: g in grants && Covers(g, c))
  {
    var k :| 0 <= k < |a.grants| && Covers(a.grants[k], c);
    if k < |grants| {
      assert a.grants[k] == grants[k] && grants[k] in grants && Covers(grants[k], c);
    } else {
      var g := a.grants[k];
      assert RowTraced(a, g);
      var other :| DecidedFor(a, other, g.deviceId, g.capability, ScopeOf(g.mode));
      assert Covers(g, c);
      if g.mode == OfDevice {
        assert DecidedFor(a, other, c.slot.deviceId, c.start.capability, DeviceScope);
      } else {
        assert DecidedFor(a, other, c.slot.deviceId, c.start.capability, Persistent);
      }
    }
  }

  /** A call waiting for a decision never waits past its deadline: the timer finds an answer. */
  lemma DeadlineAnswers(b: Bridge, grants: seq<GrantRow>, id: Id)
    requires Reachable(b, grants) && id in b.calls && b.calls[id].phase.AwaitApproval? && b.calls[id].ticket.Waiting?
    ensures Possible(b, TicketTimesOut(id))
  {
    ReachableIsSafe(b, grants);
    var c := b.calls[id];
    assert Linked(At(b.approvals, id), id, c) && Tidy(b.approvals, id);
    if b.approvals.futures[id].Unset? {
      DeadlineReleases(b.approvals, id);
    }
  }

  // ---- Disconnection -----------------------------------------------------------------------------------------

  /** A disconnect removes and releases exactly the calls pending on that generation, leaves every
      other call as it is, and takes away presence only if it was still this generation's. */
  lemma DisconnectIsExact(b: Bridge, grants: seq<GrantRow>, conn: ConnId)
    requires Reachable(b, grants) && conn in b.sockets
    ensures
      var after := Next1(b, Disconnect(conn));
      && after.calls.Keys == b.calls.Keys
      && (forall id :: id in b.calls && b.calls[id].slot.live && b.calls[id].slot.conn == conn ==>
            && !after.calls[id].slot.live && Released(after.calls[id])
            && after.calls[id].log == b.calls[id].log + [Removed(ByFailure(b.sockets[conn].reason))])
      && (forall id :: id in b.calls && !(b.calls[id].slot.live && b.calls[id].slot.conn == conn) ==>
            after.calls[id] == b.calls[id])
      && (forall d :: d in after.connections <==> d in b.connections && b.connections[d] != conn)
      && (forall d :: d in after.connections ==> after.connections[d] == b.connections[d])
  {
    ReachableIsSafe(b, grants);
    var reason := b.sockets[conn].reason;
    forall id | id in b.calls
      ensures FailedExactly(b.calls[id], Next(b.calls[id], Local.Fail(None, Some(conn), reason, false)), None,
          Some(conn), reason)
    {
      FailAt(b.calls[id], None, Some(conn), reason, false);
    }
    DisconnectIsPointwise(b, conn);
    PresenceAfter(b, conn);
  }

  lemma DisconnectIsPointwise(b: Bridge, conn: ConnId)
    requires conn in b.sockets
    ensures
      var after := Next1(b, Disconnect(conn));
      && after.calls.Keys == b.calls.Keys
      && forall id :: id in b.calls ==>
          after.calls[id] == Next(b.calls[id], Local.Fail(None, Some(conn), b.sockets[conn].reason, false))
  {
  }

  /** `after` is `before` failed and released if the filters reach it, and `before` if not. */
  ghost predicate FailedExactly(before: Call, after: Call, device: Option<string>, conn: Option<ConnId>,
      reason: Reason) {
    if before.slot.Reached(device, conn) then
      !after.slot.live && Released(after) && after.log == before.log + [Removed(ByFailure(reason))]
    else after == before
  }

  lemma FailAt(c: Call, device: Option<string>, conn: Option<ConnId>, reason: Reason, both: bool)
    requires Sound(c)
    ensures FailedExactly(c, Next(c, Local.Fail(device, conn, reason, both)), device, conn, reason)
  {
    if c.slot.Reached(device, conn) {
      FailReleasesCaller(c, device, conn, reason, both);
    }
  }

  lemma PresenceAfter(b: Bridge, conn: ConnId)
    requires ConnectionsSound(b) && conn in b.sockets
    ensures
      var after := Next1(b, Disconnect(conn));
      && (forall d :: d in after.connections <==> d in b.connections && b.connections[d] != conn)
      && (forall d :: d in after.connections ==> after.connections[d] == b.connections[d])
  {
  }

  /** Once a generation is down, no pending entry refers to it, now or after any run. */
  lemma {:induction false} DownForGood(b: Bridge, actions: seq<Action>, grants: seq<GrantRow>, conn: ConnId, id: Id)
    requires Reachable(b, grants) && Runnable(b, actions) && conn in b.sockets && b.sockets[conn].down
    requires id in Run(b, actions).calls && Run(b, actions).calls[id].slot.conn == conn
    ensures !Run(b, actions).calls[id].slot.live
  {
    ReachableIsSafe(b, grants);
    RunKeepsInv(b, actions, grants);
    StaysDown(b, actions, conn);
  }

  lemma {:induction false} StaysDown(b: Bridge, actions: seq<Action>, conn: ConnId)
    requires Runnable(b, actions) && conn in b.sockets
    ensures conn in Run(b, actions).sockets
    ensures b.sockets[conn].down ==> Run(b, actions).sockets[conn].down
    ensures b.sockets[conn].reason == OperatorRevoked ==> Run(b, actions).sockets[conn].reason == OperatorRevoked
    decreases |actions|
  {
    if actions != [] {
      SocketStays(b, actions[0], conn);
      StaysDown(Next1(b, actions[0]), actions[1..], conn);
    }
  }

  ghost predicate OnlyResumes(steps: seq<Action>, id: Id) {
    forall i :: 0 <= i < |steps| ==> steps[i].Resumes? && steps[i].id == id
  }

  /** A released caller finishes by its own steps alone, at most five of them: no timer, no frame,
      no operator. */
  lemma {:induction false} FinishesUnaided(b: Bridge, id: Id) returns (steps: seq<Action>)
    requires Inv(b) && id in b.calls && Released(b.calls[id])
    ensures |steps| <= Rank(b.calls[id]) <= 5
    ensures OnlyResumes(steps, id)
    ensures Runnable(b, steps) && id in Run(b, steps).calls && Run(b, steps).calls[id].phase.Finished?
    decreases Rank(b.calls[id])
  {
    var c := b.calls[id];
    if c.phase.Finished? {
      steps := [];
    } else {
      var first := Resumes(id, Resume(c));
      OwnStep(b, id);
      InvKept(b, first);
      var rest := FinishesUnaided(Next1(b, first), id);
      steps := [first] + rest;
      Prepend(b, first, rest);
      ResumesPrepend(first, rest, id);
    }
  }

  lemma ResumesPrepend(first: Action, rest: seq<Action>, id: Id)
    requires OnlyResumes([first], id) && OnlyResumes(rest, id)
    ensures OnlyResumes([first] + rest, id)
  {
  }

  lemma Prepend(b: Bridge, first: Action, rest: seq<Action>)
    requires Possible(b, first) && Runnable(Next1(b, first), rest)
    ensures Runnable(b, [first] + rest) && Run(b, [first] + rest) == Run(Next1(b, first), rest)
  {
    assert ([first] + rest)[1..] == rest;
  }

  lemma OwnStep(b: Bridge, id: Id)
    requires id in b.calls && Sound(b.calls[id]) && Released(b.calls[id]) && !b.calls[id].phase.Finished?
    ensures var first := Resumes(id, Resume(b.calls[id]));
            && Possible(b, first) && id in Next1(b, first).calls
            && Released(Next1(b, first).calls[id]) && Rank(Next1(b, first).calls[id]) < Rank(b.calls[id])
  {
    ReleasedFinishes(b.calls[id]);
  }

  /** The steps of its own that the coroutine of `id` takes. */
  function OwnSteps(actions: seq<Action>, id: Id): nat {
    if actions == [] then 0
    else (if actions[0].Resumes? && actions[0].id == id then 1 else 0) + OwnSteps(actions[1..], id)
  }

  /** In every run, with anything else in between, a released caller takes at most five more steps of
      its own, fewer by each one taken; and until it has finished it can take one.  So it finishes in
      every run that does not leave it standing for ever. */
  lemma {:induction false} EveryRunFinishes(b: Bridge, actions: seq<Action>, id: Id)
    requires Inv(b) && Runnable(b, actions) && id in b.calls && Released(b.calls[id])
    ensures id in Run(b, actions).calls
    ensures Rank(Run(b, actions).calls[id]) + OwnSteps(actions, id) <= Rank(b.calls[id]) <= 5
    ensures Run(b, actions).calls[id].phase.Finished? || exists own :: Possible(Run(b, actions), Resumes(id, own))
    decreases |actions|
  {
    if actions == [] {
      if !b.calls[id].phase.Finished? { OwnStep(b, id); }
    } else {
      InvKept(b, actions[0]);
      MovedKeeps(b, actions[0], id);
      RankMoves(b, actions[0], id);
      EveryRunFinishes(Next1(b, actions[0]), actions[1..], id);
    }
  }

  lemma RankMoves(b: Bridge, a: Action, id: Id)
    requires Inv(b) && Possible(b, a) && id in b.calls && Released(b.calls[id])
    ensures id in Next1(b, a).calls
    ensures Rank(Next1(b, a).calls[id]) + OwnSteps([a], id) <= Rank(b.calls[id])
  {
    LocalAt(b, a, id);
    if Taken(b, a, id).Some? { OwnStepsDescend(b.calls[id], Taken(b, a, id).value); }
  }

  // ---- Revocation --------------------------------------------------------------------------------------------

  /** If the table failed this call at all, it failed it as revoked. */
  ghost predicate FailedOnlyAsRevoked(c: Call) {
    forall r :: Removed(ByFailure(r)) in c.log ==> r == OperatorRevoked
  }

  /** Only the failing loop puts a failure into a history. */
  lemma OnlyFailFails(c: Call, l: Local)
    requires Enabled(c, l) && FailedOnlyAsRevoked(c)
    requires l.Fail? && c.slot.Reached(l.device, l.conn') ==> l.reason == OperatorRevoked
    ensures FailedOnlyAsRevoked(Next(c, l))
  {
  }

  lemma RevokedStep(b: Bridge, a: Action, conn: ConnId, id: Id)
    requires Possible(b, a) && conn in b.sockets && b.sockets[conn].reason == OperatorRevoked
    requires id in b.calls && b.calls[id].slot.conn == conn && FailedOnlyAsRevoked(b.calls[id])
    ensures id in Next1(b, a).calls && FailedOnlyAsRevoked(Next1(b, a).calls[id])
  {
    LocalAt(b, a, id);
    if Taken(b, a, id).Some? {
      FailsAsTheSocketSays(b, a, id);
      OnlyFailFails(b.calls[id], Taken(b, a, id).value);
    }
  }

  lemma FailsAsTheSocketSays(b: Bridge, a: Action, id: Id)
    requires Possible(b, a) && id in b.calls && Taken(b, a, id).Some?
    ensures
      var l := Taken(b, a, id).value;
      l.Fail? ==> l.reason == OperatorRevoked
                  || (l.conn'.Some? && l.conn'.value in b.sockets && l.reason == b.sockets[l.conn'.value].reason)
  {
  }

  /** A call's first step never fails it. */
  lemma FreshNotFailed(b: Bridge, a: Action, id: Id)
    requires Possible(b, a) && id !in b.calls && id in Next1(b, a).calls
    ensures FailedOnlyAsRevoked(Next1(b, a).calls[id])
  {
    OnlyRequestsAdd(b, a, id);
    var ready, target := RequestAdmits(b, a);
  }

  /** Once `revoke_device` has set the reason on a connection, every call on it that is failed from
      then on -- by its own disconnect, by the explicit final step, in whatever order, including
      calls made after -- is failed as revoked. */
  lemma {:induction false} RevokedWhicheverSideRemoves(b: Bridge, actions: seq<Action>, conn: ConnId, id: Id)
    requires Inv(b) && Runnable(b, actions) && conn in b.sockets && b.sockets[conn].reason == OperatorRevoked
    requires id in b.calls ==> FailedOnlyAsRevoked(b.calls[id])
    requires id in Run(b, actions).calls && Run(b, actions).calls[id].slot.conn == conn
    ensures FailedOnlyAsRevoked(Run(b, actions).calls[id])
    decreases |actions|
  {
    if actions != [] {
      var next := Next1(b, actions[0]);
      InvKept(b, actions[0]);
      SocketStays(b, actions[0], conn);
      if id in next.calls {
        NothingIsUndone(next, actions[1..], id);
        FirstStepNotOtherwise(b, actions[0], conn, id);
      }
      RevokedWhicheverSideRemoves(next, actions[1..], conn, id);
    }
  }

  lemma FirstStepNotOtherwise(b: Bridge, a: Action, conn: ConnId, id: Id)
    requires AllSound(b) && Possible(b, a) && conn in b.sockets && b.sockets[conn].reason == OperatorRevoked
    requires id in b.calls ==> FailedOnlyAsRevoked(b.calls[id])
    requires id in Next1(b, a).calls && Next1(b, a).calls[id].slot.conn == conn
    ensures FailedOnlyAsRevoked(Next1(b, a).calls[id])
  {
    if id in b.calls {
      MovedKeeps(b, a, id);
      RevokedStep(b, a, conn, id);
    } else {
      FreshNotFailed(b, a, id);
    }
  }

  /** So a call on that connection that ends by disconnection replies `revoked`. */
  lemma RevokedReply(b: Bridge, actions: seq<Action>, conn: ConnId, id: Id, code: ErrorCode, detail: Detail)
    requires Inv(b) && Runnable(b, actions) && conn in b.sockets && b.sockets[conn].reason == OperatorRevoked
    requires id in b.calls ==> FailedOnlyAsRevoked(b.calls[id])
    requires id in Run(b, actions).calls && Run(b, actions).calls[id].slot.conn == conn
    requires Run(b, actions).calls[id].phase == Finished(Error(code, detail))
    requires detail in {DisconnectedAwaitingApproval, DisconnectedBeforeAck, DisconnectedMidCall}
    ensures code == ErrorCode.Revoked
  {
    RevokedWhicheverSideRemoves(b, actions, conn, id);
    RunInv(b, actions);
    var c := Run(b, actions).calls[id];
    assert Sound(c);
  }

  lemma {:induction false} RunInv(b: Bridge, actions: seq<Action>)
    requires Inv(b) && Runnable(b, actions)
    ensures Inv(Run(b, actions))
    decreases |actions|
  {
    if actions != [] {
      InvKept(b, actions[0]);
      RunInv(Next1(b, actions[0]), actions[1..]);
    }
  }

  /** When a revocation that found a live connection returns, no call for the device is pending on
      any connection, and those it still found are released as revoked. */
  lemma NothingPendingAtReturn(b: Bridge, grants: seq<GrantRow>, deviceId: string, conn: ConnId)
    requires Reachable(b, grants) && Possible(b, RevokeEnds(deviceId, conn))
    ensures
      var after := Next1(b, RevokeEnds(deviceId, conn));
      && (forall id :: id in after.calls && after.calls[id].slot.deviceId == deviceId ==> !after.calls[id].slot.live)
      && (forall id :: id in b.calls && b.calls[id].slot.live && b.calls[id].slot.deviceId == deviceId ==>
            Released(after.calls[id]) && after.calls[id].log == b.calls[id].log + [Removed(ByFailure(OperatorRevoked))])
      && (forall id :: id in b.calls && b.calls[id].slot.deviceId != deviceId ==> after.calls[id] == b.calls[id])
  {
    ReachableIsSafe(b, grants);
    forall id | id in b.calls
      ensures FailedExactly(b.calls[id], Next(b.calls[id], Local.Fail(Some(deviceId), None, OperatorRevoked, true)),
          Some(deviceId), None, OperatorRevoked)
    {
      FailAt(b.calls[id], Some(deviceId), None, OperatorRevoked, true);
    }
    ReturnIsPointwise(b, deviceId, conn);
  }

  lemma ReturnIsPointwise(b: Bridge, deviceId: string, conn: ConnId)
    requires Possible(b, RevokeEnds(deviceId, conn))
    ensures
      var after := Next1(b, RevokeEnds(deviceId, conn));
      && after.calls.Keys == b.calls.Keys
      && forall id :: id in b.calls ==>
          after.calls[id] == Next(b.calls[id], Local.Fail(Some(deviceId), None, OperatorRevoked, true))
  {
  }

  /** A revocation that invalidated a credential and finds a live connection is under way from then
      on, and that connection carries the reason; otherwise only the rows are marked. */
  lemma RevocationMarksItsConnection(b: Bridge, deviceId: string, invalidated: bool)
    requires Inv(b)
    ensures
      var after := Next1(b, RevokeBegins(deviceId, invalidated));
      && |after.rows| == |b.rows|
      && (forall i :: 0 <= i < |b.rows| ==>
            after.rows[i] ==
            if b.rows[i].id == deviceId then b.rows[i].(state := DeviceState.Revoked) else b.rows[i])
      && if invalidated && deviceId in b.connections then
           var conn := b.connections[deviceId];
           (deviceId, conn) in after.revoking && conn in after.sockets && after.sockets[conn].reason == OperatorRevoked
         else after.revoking == b.revoking && after.sockets == b.sockets
  {
  }
}
