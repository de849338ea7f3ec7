/** How one `ctl_invoke` ends, by what happens to it while it waits: answered, out of time, refused,
    cancelled, cut off (`ControlServer._ctl_invoke` in `hdp_bridge/control.py`). */
module Outcomes {
  import opened Basics
  import opened Capabilities
  import opened Futures
  import opened Invocations
  import opened Approvals
  import opened Calls
  import opened CallSafety

  /** The call is still in the table, nothing has settled it and nobody has interrupted it. */
  predicate Open(c: Call) {
    c.slot.live && c.slot.ack.Unset? && c.slot.result.Unset? && c.slot.gone.Unset? && c.interrupt.NoInterrupt?
  }

  // ---- Answered ---------------------------------------------------------------------------------------

  /** The reply a result calls for, told by whether its data conforms. */
  ghost predicate Deserves(output: Schema, payload: Payload, o: Outcome) {
    var data := if payload.data.Some? then payload.data.value else map[];
    if payload.ok then
      if Conforms(output, Obj(data)) then o == Success(data) else o == Error(MalformedResult, SchemaDrift)
    else if payload.error.Some? && payload.error.value != map[] then o == NodeError(payload.error.value)
    else o == Error(MalformedResult, NoErrorShape)
  }

  lemma ReplyIsDeserved(d: Descriptor, payload: Payload)
    ensures Deserves(d.output, payload, ToReply(d, payload))
  {
    ValidateExact(d.output, Obj(payload.data.GetOr(map[])), []);
  }

  /** An invoke that is sent, acked and answered on its connection ends with the reply the result
      deserves, for whatever result. */
  lemma AnswerIsPassedOn(c: Call, payload: Payload)
    requires c.phase.Sending? && Open(c)
    ensures
      var conn := c.slot.conn;
      var acked := Next(Next(Next(c, ResumeSend(true)), AckFrame(conn)), ResumeAck(false));
      var end := Next(Next(acked, ResultFrame(conn, payload)), ResumeResult(false));
      && end.phase.Finished? && Deserves(c.slot.descriptor.output, payload, end.phase.outcome) && !end.slot.live
      && end.log == c.log + [AckArrived(conn), ResultArrived(conn, payload), Removed(ByResult)]
  {
    ReplyIsDeserved(c.slot.descriptor, payload);
  }

  /** Frames about an id that has left the table, or from another connection, settle nothing. */
  lemma LateFramesSettleNothing(c: Call, conn: ConnId, payload: Payload)
    requires !c.slot.live || conn != c.slot.conn
    ensures Next(c, AckFrame(conn)).(log := c.log) == c && Next(c, ResultFrame(conn, payload)).(log := c.log) == c
  {
  }

  // ---- Out of time --------------------------------------------------------------------------------------

  /** No ack in time: the entry goes first, then the cancel frame, and the reply is that the device is
      offline.  An acked call without a result in time: the same, and the reply is the timeout.
      Whatever arrives while that cancel frame is being sent changes neither. */
  lemma TimersEnd(c: Call, notice: bool, late: Payload)
    requires c.slot.live && c.interrupt.NoInterrupt?
    requires (c.phase.AwaitAck? && c.slot.ack.Unset?) || (c.phase.AwaitResult? && c.slot.result.Unset?)
    ensures
      var struck := Next(c, Strike(TimerFired, true));
      var closing := Next(struck, if c.phase.AwaitAck? then ResumeAck(notice) else ResumeResult(notice));
      var end := Next(Next(closing, ResultFrame(c.slot.conn, late)), FinishClosing);
      && closing.log == c.log + [Removed(ByExpire), CancelSent(c.slot.conn)] && !closing.slot.live
      && end.phase == Finished(if c.phase.AwaitAck? then Error(DeviceOffline, NoAckInTime)
                               else Error(InvocationTimeout, NoResultInTime))
  {
    assert c.log + [Removed(ByExpire)] + [CancelSent(c.slot.conn)] ==
        c.log + [Removed(ByExpire), CancelSent(c.slot.conn)];
  }

  /** A timer that fires when the answer is there already, and is not delivered in its stead, changes
      nothing: the ack lets the call go on, the result is its reply. */
  lemma AnAnswerInTimeCounts(c: Call)
    requires c.interrupt == TimerFired
    ensures c.phase.AwaitAck? && c.slot.ack.Value? ==>
              Next(c, ResumeAck(false)) == c.(phase := AwaitResult, interrupt := NoInterrupt)
    ensures c.phase.AwaitResult? && c.slot.result.Value? ==>
              && Next(c, ResumeResult(false)).phase.Finished? && Next(c, ResumeResult(false)).interrupt.NoInterrupt?
              && Deserves(c.slot.descriptor.output, c.slot.result.value, Next(c, ResumeResult(false)).phase.outcome)
  {
    if c.slot.result.Value? { ReplyIsDeserved(c.slot.descriptor, c.slot.result.value); }
  }

  // ---- Not sent -----------------------------------------------------------------------------------------

  /** A send that fails takes the entry out, sends no cancel frame and reports the device offline. */
  lemma FailedSendEnds(c: Call)
    requires c.phase.Sending? && Open(c)
    ensures
      var end := Next(Next(c, ResumeSend(false)), FinishClosing);
      && end.phase == Finished(Error(DeviceOffline, TransmitFailed)) && end.log == c.log + [Removed(ByExpire)]
      && end.slot.ack.Done() && end.slot.result.Done() && end.slot.gone.Done()
  {
  }

  /** A decision ends the wait: an approved call is sent on, any other is refused with its reason and
      leaves the table, and nothing was sent. */
  lemma DecisionEndsTheWait(c: Call)
    requires c.phase.AwaitApproval? && c.interrupt.NoInterrupt? && c.slot.live && c.slot.gone.Unset?
        && c.ticket.Answered?
    ensures
      var d := Next(c, ResumeApproval);
      match c.ticket.resolution.state
      case Approved => d.phase.Sending? && d.slot == c.slot && d.log == c.log + [InvokeSent(c.slot.conn)]
      case Denied => d.phase == Finished(Error(ApprovalDenied, NotGranted)) && d.log == c.log + [Removed(ByExpire)]
      case Expired => d.phase == Finished(Error(ApprovalTimeout, NotGranted)) && d.log == c.log + [Removed(ByExpire)]
  {
  }

  // ---- Cancelled ----------------------------------------------------------------------------------------

  /** Asked to cancel, and noticed before any answer: a call that was sent takes its entry out, sends the
      cancel frame, ends as cancelled and leaves no future open; one that waits for a decision does the
      same without a cancel frame, as nothing was sent. */
  lemma CancellationEnds(c: Call, reached: bool)
    requires Open(c) && (c.phase.AwaitApproval? || c.phase.Sending? || c.phase.AwaitAck?)
    ensures
      var struck := Next(c, Strike(CancelRequested, reached));
      var own := if c.phase.AwaitApproval? then ResumeApproval
                 else if c.phase.Sending? then ResumeSend(true) else ResumeAck(true);
      var end := Next(Next(struck, own), FinishClosing);
      && end.phase == Finished(Raised) && !end.slot.live
      && end.log == c.log + (if c.phase.AwaitApproval? then [Removed(ByExpire)]
                             else [Removed(ByExpire), CancelSent(c.slot.conn)])
      && end.slot.ack.Done() && end.slot.result.Done() && end.slot.gone.Done()
  {
    assert c.log + [Removed(ByExpire)] + [CancelSent(c.slot.conn)] ==
        c.log + [Removed(ByExpire), CancelSent(c.slot.conn)];
  }

  // ---- Cut off ------------------------------------------------------------------------------------------

  /** The device goes: a call that waits for its decision, its ack or its result ends with the
      disconnection reply for that wait, and its code says whether the device was revoked. */
  lemma DisconnectionEnds(c: Call, reason: Reason, both: bool)
    requires c.slot.live && c.slot.gone.Unset? && c.slot.result.Unset? && c.interrupt.NoInterrupt?
    requires c.phase.AwaitApproval? || (c.phase.AwaitAck? && c.slot.ack.Unset?)
        || (c.phase.AwaitResult? && c.slot.ack.Value?)
    ensures
      var cut := Next(c, Local.Fail(None, Some(c.slot.conn), reason, both));
      var own := if c.phase.AwaitApproval? then ResumeApproval
                 else if c.phase.AwaitAck? then ResumeAck(false) else ResumeResult(false);
      var told := Next(cut, own);
      var end := if told.phase.Closing? then Next(told, FinishClosing) else told;
      var detail := if c.phase.AwaitApproval? then DisconnectedAwaitingApproval
                    else if c.phase.AwaitAck? then DisconnectedBeforeAck else DisconnectedMidCall;
      && cut.log == c.log + [Removed(ByFailure(reason))] && end.log == cut.log
      && (c.phase.AwaitApproval? ==> end.slot.ack.Done() && end.slot.result.Done() && end.ticket.Dropped?)
      && end.phase == Finished(Error(if reason == OperatorRevoked then Revoked else DeviceOffline, detail))
  {
  }
}
