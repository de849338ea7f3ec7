/** One `ctl_invoke` as a coroutine (`ControlServer._ctl_invoke`, `_abort_dispatched` and
    `_ctl_cancel` in `hdp_bridge/control.py`).

    A step is everything the event loop runs between two awaits.  A future being settled and the
    coroutine resuming are different steps, and so are a timer or a cancel request striking (which
    cancels the future being awaited) and the coroutine noticing.  Each call keeps `log`, the
    history of what happened to its id on the wire and in the pending table. */
module Calls {
  import opened Basics
  import opened Capabilities
  import opened Futures
  import opened Invocations
  import opened Approvals
  import opened Policy

  datatype ErrorCode =
    | DeviceOffline | Revoked | PolicyDenied | ApprovalTimeout | ApprovalDenied
    | InvocationTimeout | MalformedResult | BridgeUnavailable

  datatype Detail =
    | DisconnectedAwaitingApproval | DisconnectedBeforeAck | DisconnectedMidCall
    | NotGranted | DeniedByPolicy | TransmitFailed | NoAckInTime | NoResultInTime
    | NoErrorShape | SchemaDrift

  datatype Outcome =
    | Success(data: map<string, Json>)
    | Error(code: ErrorCode, detail: Detail)
    | NodeError(error: map<string, Json>)
    | Raised                                   // the coroutine ended with CancelledError

  datatype Interrupt = NoInterrupt | TimerFired | CancelRequested

  /** The wait that runs `ApprovalManager.wait` on behalf of the call. */
  datatype Ticket = NoTicket | NotStarted | Waiting(deadline: int) | Answered(resolution: Resolution) | Dropped

  datatype Phase =
    | AwaitApproval | Sending | AwaitAck | AwaitResult
    | Closing(outcome: Outcome, drain: bool)   // the id is gone; a best-effort send or drain is under way
    | Finished(outcome: Outcome)

  datatype Cause = ByResult | ByExpire | ByFailure(reason: Reason)

  datatype Event =
    | AckArrived(conn: ConnId)
    | ResultArrived(conn: ConnId, payload: Payload)
    | InvokeSent(conn: ConnId)
    | CancelSent(conn: ConnId)
    | Removed(cause: Cause)

  /** What the request fixed before anything could change: the one policy snapshot it is judged
      by, who asked, and when. */
  datatype Start = Start(table: Option<PolicyTable>, capability: string, session: Option<string>, at: int)

  datatype Call = Call(
    start: Start, slot: Slot, phase: Phase, interrupt: Interrupt, ticket: Ticket,
    verb: Option<Payload>,      // a cancel verb took this entry and has not released its futures yet
    log: seq<Event>)
  {
    function Note(e: Event): Call { this.(log := log + [e]) }

    /** `InvocationsMem.expire` on this id. */
    function Expire(): Call {
      if slot.live then this.(slot := slot.Expire()).Note(Removed(ByExpire)) else this
    }

    function Close(outcome: Outcome, drain: bool): Call {
      this.(phase := Closing(outcome, drain), interrupt := NoInterrupt)
    }

    function Finish(outcome: Outcome): Call { this.(phase := Finished(outcome), interrupt := NoInterrupt) }

    function Dispatch(): Call { this.(phase := Sending).Note(InvokeSent(slot.conn)) }

    /** Remove the entry, send the cancel frame, then drain: the cancelled paths after dispatch. */
    function Abort(): Call { Expire().Note(CancelSent(slot.conn)).Close(Raised, true) }

    function DrainAll(): Call { this.(slot := slot.Drain(true)) }
  }

  function CodeOf(reason: Reason): ErrorCode { if reason == OperatorRevoked then Revoked else DeviceOffline }

  /** `_to_invoke_reply` */
  function ToReply(descriptor: Descriptor, payload: Payload): Outcome {
    if !payload.ok then
      if payload.error.None? || payload.error.value == map[] then Error(MalformedResult, NoErrorShape)
      else NodeError(payload.error.value)
    else
      var data := payload.data.GetOr(map[]);
      if Validate(descriptor.output, Obj(data), []).Valid? then Success(data) else Error(MalformedResult, SchemaDrift)
  }

  // ---- Steps --------------------------------------------------------------------------------

  datatype Local =
    | AckFrame(conn: ConnId)
    | ResultFrame(conn: ConnId, payload: Payload)
    | Fail(device: Option<string>, conn': Option<ConnId>, reason: Reason, both: bool)
    | VerbRemove(refusal: Payload)            // `_ctl_cancel` takes the entry and writes a cancel frame
    | VerbRelease                             // ... and later releases its futures
    | Strike(kind: Interrupt, reached: bool)  // a timer fires, or the coroutine is asked to cancel
    | TicketStart(begun: WaitStart)
    | TicketAnswer(resolution: Resolution)
    | ResumeApproval
    | ResumeSend(sent: bool)
    | ResumeAck(notice: bool)
    | ResumeResult(notice: bool)
    | FinishClosing

  /** The coroutine's own steps. */
  predicate Own(l: Local) {
    l.ResumeApproval? || l.ResumeSend? || l.ResumeAck? || l.ResumeResult? || l.FinishClosing?
  }

  /** May the coroutine see the interrupt instead of the settled future?  A cancel is re-raised
      after a value; after an exception it depends on which the event loop delivers. */
  predicate Interrupted<T>(c: Call, awaited: Cell<T>, notice: bool) {
    c.interrupt != NoInterrupt
    && (notice || !(awaited.Value? || awaited.Failure?) || (c.interrupt == CancelRequested && awaited.Value?))
  }

  predicate Enabled(c: Call, l: Local) {
    match l
    case AckFrame(_) => true
    case ResultFrame(_, _) => true
    case Fail(_, _, _, _) => true
    case VerbRemove(refusal) => c.slot.live && !refusal.ok
    case VerbRelease => c.verb.Some?
    case Strike(kind, _) =>
      if kind == TimerFired then (c.phase.AwaitAck? || c.phase.AwaitResult?) && c.interrupt == NoInterrupt
      else kind == CancelRequested && !c.phase.Finished?
    case TicketStart(begun) => c.ticket.NotStarted? && c.phase.AwaitApproval?
    case TicketAnswer(_) => c.ticket.Waiting? && c.phase.AwaitApproval?
    case ResumeApproval =>
      c.phase.AwaitApproval? && (c.interrupt == CancelRequested || c.slot.gone.Value? || c.ticket.Answered?)
    case ResumeSend(_) => c.phase.Sending?
    case ResumeAck(notice) => c.phase.AwaitAck?
        && (Interrupted(c, c.slot.ack, notice) || c.slot.ack.Value? || c.slot.ack.Failure?)
    case ResumeResult(notice) => c.phase.AwaitResult?
        && (Interrupted(c, c.slot.result, notice) || c.slot.result.Value? || c.slot.result.Failure?)
    case FinishClosing => c.phase.Closing?
  }

  function Next(c: Call, l: Local): Call
    requires Enabled(c, l)
  {
    match l
    case AckFrame(conn) => c.(slot := c.slot.MarkAcked(Some(conn))).Note(AckArrived(conn))
    case ResultFrame(conn, payload) => OnResult(c, conn, payload)
    case Fail(device, conn, reason, both) =>
      if c.slot.Reached(device, conn) then c.(slot := c.slot.Fail(reason, both)).Note(Removed(ByFailure(reason))) else c
    case VerbRemove(refusal) => c.Expire().Note(CancelSent(c.slot.conn)).(verb := Some(refusal))
    case VerbRelease => c.(slot := c.slot.CancelledByVerb(c.verb.value), verb := None)
    case Strike(kind, reached) => OnStrike(c, kind, reached)
    case TicketStart(begun) =>
      (match begun
       case Completed(r) => c.(ticket := Answered(r))
       case Blocked(deadline) => c.(ticket := Waiting(deadline))
       case Unknown => c.(ticket := Dropped))
    case TicketAnswer(r) => c.(ticket := Answered(r))
    case ResumeApproval => OnApproval(c)
    case ResumeSend(sent) => OnSent(c, sent)
    case ResumeAck(notice) => OnAck(c, notice)
    case ResumeResult(notice) => OnOutcome(c, notice)
    case FinishClosing =>
      if c.interrupt == CancelRequested then c.Finish(Raised)
      else (if c.phase.drain then c.DrainAll() else c).Finish(c.phase.outcome)
  }

  function OnResult(c: Call, conn: ConnId, payload: Payload): Call {
    var seen := c.(slot := c.slot.Resolve(payload, Some(conn))).Note(ResultArrived(conn, payload));
    if c.slot.Takes(Some(conn)) then seen.Note(Removed(ByResult)) else seen
  }

  /** The future being awaited is cancelled at once (if the strike reaches it), the coroutine
      resumes later. */
  function OnStrike(c: Call, kind: Interrupt, reached: bool): Call {
    var struck := c.(interrupt := kind);
    if !reached then struck
    else if c.phase.AwaitAck? then struck.(slot := c.slot.(ack := c.slot.ack.Cancel()))
    else if c.phase.AwaitResult? then struck.(slot := c.slot.(result := c.slot.result.Cancel()))
    else struck
  }

  function OnApproval(c: Call): Call
    requires Enabled(c, ResumeApproval)
  {
    if c.interrupt == CancelRequested then
      c.(ticket := Dropped).Expire().DrainAll().Close(Raised, false)
    else if c.slot.gone.Value? then
      c.(ticket := Dropped, slot := c.slot.Drain(false))
        .Close(Error(CodeOf(c.slot.gone.value), DisconnectedAwaitingApproval), false)
    else if c.ticket.resolution.state == Approved then c.Dispatch()
    else
      c.Expire()
        .Finish(Error(if c.ticket.resolution.state == Expired then ApprovalTimeout else ApprovalDenied, NotGranted))
  }

  function OnSent(c: Call, sent: bool): Call {
    if c.interrupt == CancelRequested then c.Abort()
    else if sent then c.(phase := AwaitAck)
    else c.Expire().DrainAll().Close(Error(DeviceOffline, TransmitFailed), false)
  }

  function OnAck(c: Call, notice: bool): Call
    requires Enabled(c, ResumeAck(notice))
  {
    if Interrupted(c, c.slot.ack, notice) then
      if c.interrupt == CancelRequested then c.Abort()
      else c.Expire().Note(CancelSent(c.slot.conn)).Close(Error(DeviceOffline, NoAckInTime), false)
    else if c.slot.ack.Value? then c.(phase := AwaitResult, interrupt := NoInterrupt)
    else c.Finish(Error(CodeOf(c.slot.ack.reason), DisconnectedBeforeAck))
  }

  function OnOutcome(c: Call, notice: bool): Call
    requires Enabled(c, ResumeResult(notice))
  {
    if Interrupted(c, c.slot.result, notice) then
      if c.interrupt == CancelRequested then c.Abort()
      else c.Expire().Note(CancelSent(c.slot.conn)).Close(Error(InvocationTimeout, NoResultInTime), false)
    else if c.slot.result.Value? then c.Finish(ToReply(c.slot.descriptor, c.slot.result.value))
    else c.Finish(Error(CodeOf(c.slot.result.reason), DisconnectedMidCall))
  }

  // ---- What a call's history may look like ------------------------------------------------------

  ghost predicate NoRemoval(log: seq<Event>) { forall k :: 0 <= k < |log| ==> !log[k].Removed? }

  ghost predicate OneRemoval(log: seq<Event>) {
    forall i, j :: 0 <= i < j < |log| ==> !(log[i].Removed? && log[j].Removed?)
  }

  ghost predicate NoInvoke(log: seq<Event>) { forall k :: 0 <= k < |log| ==> !log[k].InvokeSent? }

  ghost predicate OneInvoke(log: seq<Event>) {
    forall i, j :: 0 <= i < j < |log| ==> !(log[i].InvokeSent? && log[j].InvokeSent?)
  }

  ghost predicate RemovedBefore(log: seq<Event>, k: int) {
    exists j :: 0 <= j < k && j < |log| && log[j].Removed?
  }

  /** Every cancel frame went out after the id had left the table. */
  ghost predicate CancelsFollowRemoval(log: seq<Event>) {
    forall k :: 0 <= k < |log| && log[k].CancelSent? ==> RemovedBefore(log, k)
  }

  /** On connection `conn` an explicit ack arrived, and later a result carrying `payload`. */
  ghost predicate AckThenResult(log: seq<Event>, conn: ConnId, payload: Payload) {
    exists i, j :: 0 <= i < j < |log| && log[i] == AckArrived(conn) && log[j] == ResultArrived(conn, payload)
  }

  ghost predicate NoCancel(log: seq<Event>) { forall k :: 0 <= k < |log| ==> !log[k].CancelSent? }

  lemma Appended(log: seq<Event>, e: Event)
    ensures NoRemoval(log + [e]) <==> NoRemoval(log) && !e.Removed?
    ensures OneRemoval(log + [e]) <==> OneRemoval(log) && (NoRemoval(log) || !e.Removed?)
    ensures NoInvoke(log + [e]) <==> NoInvoke(log) && !e.InvokeSent?
    ensures OneInvoke(log + [e]) <==> OneInvoke(log) && (NoInvoke(log) || !e.InvokeSent?)
    ensures NoCancel(log + [e]) <==> NoCancel(log) && !e.CancelSent?
    ensures CancelsFollowRemoval(log) && (e.CancelSent? ==> !NoRemoval(log)) ==> CancelsFollowRemoval(log + [e])
    ensures forall c, p :: AckThenResult(log, c, p) ==> AckThenResult(log + [e], c, p)
    ensures forall c, p :: AckArrived(c) in log && e == ResultArrived(c, p) ==> AckThenResult(log + [e], c, p)
    ensures forall x :: x in log + [e] <==> x in log || x == e
  {
    var l := log + [e];
    assert forall k :: 0 <= k < |log| ==> l[k] == log[k];
    assert l[|log|] == e;
    assert NoRemoval(l) ==> NoRemoval(log) by {
      assert NoRemoval(l) ==> forall k :: 0 <= k < |log| ==> !l[k].Removed?;
    }
    assert OneRemoval(l) ==> OneRemoval(log) && (NoRemoval(log) || !e.Removed?) by {
      assert OneRemoval(l) ==> forall i, j :: 0 <= i < j < |log| ==> !(l[i].Removed? && l[j].Removed?);
      assert OneRemoval(l) ==> forall i :: 0 <= i < |log| ==> !(l[i].Removed? && l[|log|].Removed?);
    }
    assert NoInvoke(l) ==> NoInvoke(log) by {
      assert NoInvoke(l) ==> forall k :: 0 <= k < |log| ==> !l[k].InvokeSent?;
    }
    assert OneInvoke(l) ==> OneInvoke(log) && (NoInvoke(log) || !e.InvokeSent?) by {
      assert OneInvoke(l) ==> forall i, j :: 0 <= i < j < |log| ==> !(l[i].InvokeSent? && l[j].InvokeSent?);
      assert OneInvoke(l) ==> forall i :: 0 <= i < |log| ==> !(l[i].InvokeSent? && l[|log|].InvokeSent?);
    }
    assert NoCancel(l) ==> NoCancel(log) by {
      assert NoCancel(l) ==> forall k :: 0 <= k < |log| ==> !l[k].CancelSent?;
    }
    if CancelsFollowRemoval(log) && (e.CancelSent? ==> !NoRemoval(log)) {
      forall k | 0 <= k < |l| && l[k].CancelSent? ensures RemovedBefore(l, k) {
        var j :| 0 <= j < k && j < |log| && log[j].Removed?;
        assert l[j].Removed?;
      }
    }
    forall c, p | AckThenResult(log, c, p) ensures AckThenResult(l, c, p) {
      var i, j :| 0 <= i < j < |log| && log[i] == AckArrived(c) && log[j] == ResultArrived(c, p);
      assert l[i] == AckArrived(c) && l[j] == ResultArrived(c, p);
    }
    forall c, p | AckArrived(c) in log && e == ResultArrived(c, p) ensures AckThenResult(l, c, p) {
      var i :| 0 <= i < |log| && log[i] == AckArrived(c);
      assert l[i] == AckArrived(c) && l[|log|] == ResultArrived(c, p);
    }
  }
}
