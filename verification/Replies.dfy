/** What each reply to a `ctl_invoke` tells about what happened, success or not. */
module Replies {
  import opened Basics
  import opened Capabilities
  import opened Futures
  import opened Invocations
  import opened Approvals
  import opened Targets
  import opened Policy
  import opened Calls
  import opened CallSafety
  import opened Bridge
  import opened BridgeSafety
  import opened BridgeTheorems

  /** The payload the result future settled with is one the node sent on this connection, or the
      refusal of a cancel verb, whose cancel frame went out before. */
  ghost predicate ResultExplained(c: Call) {
    c.slot.result.Value? ==>
        ResultArrived(c.slot.conn, c.slot.result.value) in c.log || CancelSent(c.slot.conn) in c.log
  }

  ghost predicate ErrorExplained(c: Call, code: ErrorCode, detail: Detail) {
    match detail
    case DisconnectedAwaitingApproval => NoInvoke(c.log) && c.slot.gone.Value? && code == CodeOf(c.slot.gone.value)
    case NotGranted =>
      && NoInvoke(c.log) && c.ticket.Answered? && c.ticket.resolution.state != Approved
      && code == if c.ticket.resolution.state == Expired then ApprovalTimeout else ApprovalDenied
    case DeniedByPolicy =>
      && NoInvoke(c.log) && c.ticket.NoTicket? && code == PolicyDenied
      && c.start.table.Some? && (SnapshotMode(c).Deny? || SnapshotMode(c).Ask?)
    case TransmitFailed => InvokeSent(c.slot.conn) in c.log && code == ErrorCode.DeviceOffline
    case NoAckInTime => InvokeSent(c.slot.conn) in c.log && CancelSent(c.slot.conn) in c.log
        && code == ErrorCode.DeviceOffline
    case DisconnectedBeforeAck => InvokeSent(c.slot.conn) in c.log && c.slot.ack.Failure?
        && code == CodeOf(c.slot.ack.reason)
    case NoResultInTime => c.slot.ack.Value? && CancelSent(c.slot.conn) in c.log && code == InvocationTimeout
    case DisconnectedMidCall => c.slot.ack.Value? && c.slot.result.Failure? && code == CodeOf(c.slot.result.reason)
    case NoErrorShape =>
      && c.slot.ack.Value? && c.slot.result.Value? && !c.slot.result.value.ok
          && c.slot.result.value.error.GetOr(map[]) == map[]
      && code == MalformedResult
    case SchemaDrift =>
      && c.slot.ack.Value? && c.slot.result.Value? && c.slot.result.value.ok
      && !Conforms(c.slot.descriptor.output, Obj(c.slot.result.value.data.GetOr(map[])))
      && code == MalformedResult
  }

  ghost predicate Explained(c: Call, o: Outcome) {
    match o
    case Success(data) =>
      c.slot.ack.Value? && c.slot.result.Value? && c.slot.result.value.ok
          && data == c.slot.result.value.data.GetOr(map[])
    case NodeError(error) =>
      c.slot.ack.Value? && c.slot.result.Value? && !c.slot.result.value.ok && c.slot.result.value.error == Some(error)
          && error != map[]
    case Error(code, detail) => ErrorExplained(c, code, detail)
    case Raised => true
  }

  ghost predicate Told(c: Call) {
    && ResultExplained(c)
    && (c.verb.Some? ==> CancelSent(c.slot.conn) in c.log)
    && (c.phase.Closing? ==> Explained(c, c.phase.outcome))
    && (c.phase.Finished? ==> Explained(c, c.phase.outcome))
  }

  // ---- One call ---------------------------------------------------------------------------------------

  /** What has been explained stays explained: histories grow, settled futures and tickets stay. */
  lemma ExplainedStays(c: Call, after: Call, o: Outcome)
    requires Explained(c, o) && Later(c.slot, after.slot) && after.ticket == c.ticket && after.start == c.start
    requires c.log <= after.log && (NoInvoke(c.log) ==> NoInvoke(after.log))
    ensures Explained(after, o)
  {
  }

  lemma ResultStaysExplained(c: Call, l: Local)
    requires Sound(c) && Told(c) && Enabled(c, l)
    ensures ResultExplained(Next(c, l)) && (Next(c, l).verb.Some? ==> CancelSent(c.slot.conn) in Next(c, l).log)
  {
    SettledOnce(c, l);
    HistoryGrows(c, l);
    var after := Next(c, l);
    if l.ResultFrame? { assert after.log[|c.log|] == ResultArrived(l.conn, l.payload); }
    if l.VerbRemove? { assert after.log[|after.log| - 1] == CancelSent(c.slot.conn); }
  }

  /** Once decided, a call sends no invoke frame and its ticket does not move. */
  lemma DecidedIsQuiet(c: Call, l: Local)
    requires Enabled(c, l) && (c.phase.Closing? || c.phase.Finished?)
    ensures Next(c, l).ticket == c.ticket && (NoInvoke(c.log) ==> NoInvoke(Next(c, l).log))
    ensures Next(c, l).phase == c.phase
        || (l.FinishClosing? && Next(c, l).phase in {Finished(Raised), Finished(c.phase.outcome)})
  {
  }

  lemma OwnStepTold(c: Call, l: Local)
    requires Sound(c) && Told(c) && Enabled(c, l) && (l.ResumeApproval? || l.ResumeSend? || l.ResumeAck?)
    ensures var after := Next(c, l);
            && (after.phase.Closing? ==> Explained(after, after.phase.outcome))
            && (after.phase.Finished? ==> Explained(after, after.phase.outcome))
  {
    HistoryGrows(c, l);
    if l.ResumeAck? { CancelIsLast(c); }
  }

  lemma CancelIsLast(c: Call)
    ensures CancelSent(c.slot.conn) in c.Expire().Note(CancelSent(c.slot.conn)).log
  {
    var log := c.Expire().Note(CancelSent(c.slot.conn)).log;
    assert log[|log| - 1] == CancelSent(c.slot.conn);
  }

  lemma OutcomeTold(c: Call, notice: bool)
    requires Sound(c) && Told(c) && Enabled(c, ResumeResult(notice))
    ensures var after := Next(c, ResumeResult(notice));
            && (after.phase.Closing? ==> Explained(after, after.phase.outcome))
            && (after.phase.Finished? ==> Explained(after, after.phase.outcome))
  {
    CancelIsLast(c);
    if c.slot.result.Value? {
      ValidateExact(c.slot.descriptor.output, Obj(c.slot.result.value.data.GetOr(map[])), []);
    }
  }

  /** No step makes a reply say what did not happen. */
  lemma ToldKept(c: Call, l: Local)
    requires Sound(c) && Told(c) && Enabled(c, l)
    ensures Told(Next(c, l))
  {
    ResultStaysExplained(c, l);
    if c.phase.Closing? || c.phase.Finished? {
      DecidedIsQuiet(c, l);
      SettledOnce(c, l);
      HistoryGrows(c, l);
      ExplainedStays(c, Next(c, l), c.phase.outcome);
    } else if l.ResumeResult? {
      OutcomeTold(c, l.notice);
    } else if l.ResumeApproval? || l.ResumeSend? || l.ResumeAck? {
      OwnStepTold(c, l);
    }
  }

  lemma AdmitTold(b: Bridge, c: Call)
    requires c.log == [] && c.phase.AwaitApproval? && c.ticket.NoTicket? && c.verb.None? && c.slot.live
        && c.slot.result.Unset?
    ensures Told(Admit(b, c))
  {
    Appended([], InvokeSent(c.slot.conn));
    Appended([], Removed(ByExpire));
    var d := Admit(b, c);
    assert d.phase.Finished? ==> !AllowedOutright(c) && ModeFor(c) == Some(SnapshotMode(c));
  }

  // ---- Every run ----------------------------------------------------------------------------------------

  lemma StepTold(b: Bridge, a: Action, id: Id)
    requires Inv(b) && Possible(b, a) && id in Next1(b, a).calls && (id in b.calls ==> Told(b.calls[id]))
    ensures Told(Next1(b, a).calls[id])
  {
    if id in b.calls {
      LocalAt(b, a, id);
      if Taken(b, a, id).Some? { ToldKept(b.calls[id], Taken(b, a, id).value); }
    } else {
      OnlyRequestsAdd(b, a, id);
      var ready, target := RequestAdmits(b, a);
      AdmitTold(ready, NewCall(Start(ready.table, a.request.capability, a.session, a.now), target));
    }
  }

  lemma {:induction false} RunTold(b: Bridge, actions: seq<Action>, id: Id)
    requires Inv(b) && Runnable(b, actions) && id in Run(b, actions).calls && (id in b.calls ==> Told(b.calls[id]))
    ensures Told(Run(b, actions).calls[id])
    decreases |actions|
  {
    if actions != [] {
      InvKept(b, actions[0]);
      if id in Next1(b, actions[0]).calls { StepTold(b, actions[0], id); }
      RunTold(Next1(b, actions[0]), actions[1..], id);
    }
  }

  /** Every reply of every run tells the truth about its call: which of the two approval refusals it
      is, that the policy did refuse and nothing was sent where it says so, that a cancel frame followed
      a timeout, that an ack came first where a result is reported, whose disconnection it was, and what
      exactly was wrong with a result; and a node's own error is passed on unchanged. */
  lemma RepliesTellWhatHappened(b: Bridge, grants: seq<GrantRow>, id: Id, o: Outcome)
    requires Reachable(b, grants) && id in b.calls && b.calls[id].phase == Finished(o)
    ensures Explained(b.calls[id], o) && ResultExplained(b.calls[id])
  {
    var rows: seq<DeviceRecord>, table: Option<PolicyTable>, asks: bool, decided: map<Id, Resolution>,
        actions: seq<Action> :|
      && WellKeyed(rows) && (forall id :: id in decided ==> decided[id].pending.id == id)
      && Runnable(Started(rows, table, asks, decided, grants), actions)
      && b == Run(Started(rows, table, asks, decided, grants), actions);
    InitiallyConsistent(decided, grants);
    RunTold(Started(rows, table, asks, decided, grants), actions, id);
  }
}
