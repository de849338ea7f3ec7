/** What every run of one call keeps: `Sound` holds of a fresh call and survives every step, in
    whatever order the wire, the timers, the operator and the client strike. */
module CallSafety {
  import opened Basics
  import opened Capabilities
  import opened Futures
  import opened Invocations
  import opened Approvals
  import opened Calls

  ghost predicate Undecided(p: Phase) { p.AwaitApproval? || p.Sending? || p.AwaitAck? || p.AwaitResult? }

  /** The table, the futures and the history agree. */
  ghost predicate TableSound(c: Call) {
    && (c.slot.live <==> NoRemoval(c.log))
    && OneRemoval(c.log)
    && CancelsFollowRemoval(c.log)
    && (!Undecided(c.phase) ==> !c.slot.live)
    && (c.verb.Some? ==> !c.slot.live && Removed(ByExpire) in c.log && !c.verb.value.ok)
    && (Undecided(c.phase) && !NoCancel(c.log) ==> Removed(ByExpire) in c.log)
  }

  /** A pending entry's result and disconnect futures are open and its ack is open or given --
      except that a strike may already have cancelled the one future its owner is about to stop
      waiting for.  A future is only ever cancelled by such a strike, or once the call is closing. */
  ghost predicate FuturesSound(c: Call) {
    var s := c.slot;
    && (s.live ==> s.gone.Unset?)
    && (s.live ==>
         s.ack.Unset? || s.ack.Value? || (s.ack.Cancelled? && c.phase.AwaitAck? && c.interrupt != NoInterrupt))
    && (s.live ==> s.result.Unset? || (s.result.Cancelled? && c.phase.AwaitResult? && c.interrupt != NoInterrupt))
    && !s.gone.Failure?
    && (Undecided(c.phase) ==> !s.gone.Cancelled?)
    && (Undecided(c.phase) && s.ack.Cancelled? ==> c.phase.AwaitAck? && c.interrupt != NoInterrupt)
    && (Undecided(c.phase) && s.result.Cancelled? ==> c.phase.AwaitResult? && c.interrupt != NoInterrupt)
    && (c.phase.AwaitResult? ==> s.ack.Value?)
  }

  /** Where the contents of the futures come from. */
  ghost predicate SourcesSound(c: Call) {
    var s := c.slot;
    && (s.live && s.ack.Value? ==> AckArrived(s.conn) in c.log)
    && (s.result.Value? && s.result.value.ok ==>
          && Removed(ByResult) in c.log && ResultArrived(s.conn, s.result.value) in c.log
          && (s.ack.Value? ==> AckThenResult(c.log, s.conn, s.result.value)))
    && (s.ack.Failure? ==> Removed(ByFailure(s.ack.reason)) in c.log)
    && (s.result.Failure? ==> Removed(ByFailure(s.result.reason)) in c.log)
    && (s.gone.Value? ==> Removed(ByFailure(s.gone.value)) in c.log)
  }

  ghost predicate DispatchSound(c: Call) {
    && OneInvoke(c.log)
    && (c.phase.AwaitApproval? ==> NoInvoke(c.log))
    && (c.phase.Sending? || c.phase.AwaitAck? || c.phase.AwaitResult? ==> InvokeSent(c.slot.conn) in c.log)
    && (!NoInvoke(c.log) ==> c.ticket.NoTicket? || (c.ticket.Answered? && c.ticket.resolution.state == Approved))
    && (c.phase.AwaitApproval? ==> !c.ticket.NoTicket?)
    && (forall conn :: InvokeSent(conn) in c.log ==> conn == c.slot.conn)
    && (forall conn :: CancelSent(conn) in c.log ==> conn == c.slot.conn)
  }

  /** What a successful reply certifies. */
  ghost predicate Earned(c: Call, data: map<string, Json>) {
    && InvokeSent(c.slot.conn) in c.log
    && NoCancel(c.log)
    && Conforms(c.slot.descriptor.output, Obj(data))
    && exists p :: AckThenResult(c.log, c.slot.conn, p) && p.ok && data == p.data.GetOr(map[])
  }

  ghost predicate OutcomeSound(c: Call, o: Outcome) {
    && (o.Success? ==> Earned(c, o.data))
    && (o.Error? && o.detail in {DisconnectedAwaitingApproval, DisconnectedBeforeAck, DisconnectedMidCall} ==>
          exists r :: Removed(ByFailure(r)) in c.log && o.code == CodeOf(r))
    && (o.Error? && o.code == Revoked ==>
          o.detail in {DisconnectedAwaitingApproval, DisconnectedBeforeAck, DisconnectedMidCall})
  }

  ghost predicate Sound(c: Call) {
    && TableSound(c) && FuturesSound(c) && SourcesSound(c) && DispatchSound(c)
    && (c.phase.Closing? ==> !c.phase.outcome.Success? && OutcomeSound(c, c.phase.outcome))
    && (c.phase.Finished? ==> OutcomeSound(c, c.phase.outcome))
  }

  lemma OneCause(log: seq<Event>, a: Cause, b: Cause)
    requires OneRemoval(log) && Removed(a) in log && Removed(b) in log
    ensures a == b
  {
    var i :| 0 <= i < |log| && log[i] == Removed(a);
    var j :| 0 <= j < |log| && log[j] == Removed(b);
    assert !(i < j) && !(j < i);
  }

  lemma HasRemoval(log: seq<Event>, cause: Cause)
    requires Removed(cause) in log
    ensures !NoRemoval(log)
  {
  }

  lemma HasInvoke(log: seq<Event>, conn: ConnId)
    requires InvokeSent(conn) in log
    ensures !NoInvoke(log)
  {
  }

  // ---- The steps, one by one ----------------------------------------------------------------

  lemma AckKeeps(c: Call, conn: ConnId)
    requires Sound(c)
    ensures Sound(Next(c, AckFrame(conn)))
  {
    Appended(c.log, AckArrived(conn));
  }

  lemma ResultKeeps(c: Call, conn: ConnId, payload: Payload)
    requires Sound(c)
    ensures Sound(Next(c, ResultFrame(conn, payload)))
  {
    Appended(c.log, ResultArrived(conn, payload));
    Appended(c.log + [ResultArrived(conn, payload)], Removed(ByResult));
  }

  lemma FailKeeps(c: Call, device: Option<string>, conn: Option<ConnId>, reason: Reason, both: bool)
    requires Sound(c)
    ensures Sound(Next(c, Local.Fail(device, conn, reason, both)))
  {
    Appended(c.log, Removed(ByFailure(reason)));
  }

  lemma ExpireKeeps(c: Call)
    requires Sound(c)
    ensures Sound(c.Expire()) && !c.Expire().slot.live && !NoRemoval(c.Expire().log)
  {
    Appended(c.log, Removed(ByExpire));
  }

  lemma VerbKeeps(c: Call, refusal: Payload)
    requires Sound(c) && Enabled(c, VerbRemove(refusal))
    ensures Sound(Next(c, VerbRemove(refusal)))
  {
    ExpireKeeps(c);
    Appended(c.log, Removed(ByExpire));
    Appended(c.Expire().log, CancelSent(c.slot.conn));
  }

  lemma ReleaseKeeps(c: Call)
    requires Sound(c) && c.verb.Some?
    ensures Sound(Next(c, VerbRelease))
  {
    if c.slot.result.Value? && c.slot.result.value.ok {
      OneCause(c.log, ByExpire, ByResult);
    }
  }

  lemma StrikeKeeps(c: Call, kind: Interrupt, reached: bool)
    requires Sound(c) && Enabled(c, Strike(kind, reached))
    ensures Sound(Next(c, Strike(kind, reached)))
  {
  }

  /** Leaving the coroutine's waiting phases with a failure, once the id is out of the table. */
  lemma CloseKeeps(c: Call, o: Outcome, drain: bool)
    requires Sound(c) && !c.slot.live && OutcomeSound(c, o) && !o.Success?
    ensures Sound(c.Close(o, drain)) && Sound(c.Finish(o))
  {
  }

  lemma DrainKeeps(c: Call)
    requires Sound(c) && !c.slot.live && !Undecided(c.phase)
    ensures Sound(c.DrainAll())
  {
  }

  lemma CancelFrameKeeps(c: Call, o: Outcome, drain: bool)
    requires Sound(c) && !c.slot.live && OutcomeSound(c, o) && !o.Success?
    requires c.phase.AwaitAck? || c.phase.AwaitResult? || c.phase.Sending?
    ensures Sound(c.Note(CancelSent(c.slot.conn)).Close(o, drain))
  {
    Appended(c.log, CancelSent(c.slot.conn));
  }

  lemma AbortKeeps(c: Call)
    requires Sound(c) && (c.phase.AwaitAck? || c.phase.AwaitResult? || c.phase.Sending?)
    ensures Sound(c.Abort())
  {
    ExpireKeeps(c);
    CancelFrameKeeps(c.Expire(), Raised, true);
  }

  lemma ApprovalKeeps(c: Call)
    requires Sound(c) && Enabled(c, ResumeApproval)
    ensures Sound(Next(c, ResumeApproval))
  {
    if c.interrupt == CancelRequested {
      var dropped := c.(ticket := Dropped);
      ExpireKeeps(dropped);
      CloseKeeps(dropped.Expire(), Raised, false);
      DrainKeeps(dropped.Expire().Close(Raised, false));
    } else if c.slot.gone.Value? {
      var o := Error(CodeOf(c.slot.gone.value), DisconnectedAwaitingApproval);
      HasRemoval(c.log, ByFailure(c.slot.gone.value));
      CloseKeeps(c, o, false);
    } else if c.ticket.resolution.state == Approved {
      Appended(c.log, InvokeSent(c.slot.conn));
    } else {
      ExpireKeeps(c);
      CloseKeeps(c.Expire(),
          Error(if c.ticket.resolution.state == Expired then ApprovalTimeout else ApprovalDenied, NotGranted), false);
    }
  }

  lemma SentKeeps(c: Call, sent: bool)
    requires Sound(c) && Enabled(c, ResumeSend(sent))
    ensures Sound(Next(c, ResumeSend(sent)))
  {
    if c.interrupt == CancelRequested {
      AbortKeeps(c);
    } else if !sent {
      ExpireKeeps(c);
      var o := Error(DeviceOffline, TransmitFailed);
      CloseKeeps(c.Expire(), o, false);
      DrainKeeps(c.Expire().Close(o, false));
    }
  }

  lemma AckedKeeps(c: Call, notice: bool)
    requires Sound(c) && Enabled(c, ResumeAck(notice))
    ensures Sound(Next(c, ResumeAck(notice)))
  {
    if Interrupted(c, c.slot.ack, notice) {
      if c.interrupt == CancelRequested {
        AbortKeeps(c);
      } else {
        ExpireKeeps(c);
        CancelFrameKeeps(c.Expire(), Error(DeviceOffline, NoAckInTime), false);
      }
    } else if c.slot.ack.Failure? {
      HasRemoval(c.log, ByFailure(c.slot.ack.reason));
      CloseKeeps(c, Error(CodeOf(c.slot.ack.reason), DisconnectedBeforeAck), false);
    }
  }

  lemma OutcomeKeeps(c: Call, notice: bool)
    requires Sound(c) && Enabled(c, ResumeResult(notice))
    ensures Sound(Next(c, ResumeResult(notice)))
  {
    if Interrupted(c, c.slot.result, notice) {
      if c.interrupt == CancelRequested {
        AbortKeeps(c);
      } else {
        ExpireKeeps(c);
        CancelFrameKeeps(c.Expire(), Error(InvocationTimeout, NoResultInTime), false);
      }
    } else if c.slot.result.Failure? {
      HasRemoval(c.log, ByFailure(c.slot.result.reason));
      CloseKeeps(c, Error(CodeOf(c.slot.result.reason), DisconnectedMidCall), false);
    } else {
      ReplyKeeps(c);
    }
  }

  lemma ReplyKeeps(c: Call)
    requires Sound(c) && c.phase.AwaitResult? && c.slot.result.Value?
    ensures Sound(c.Finish(ToReply(c.slot.descriptor, c.slot.result.value)))
  {
    var p := c.slot.result.value;
    var o := ToReply(c.slot.descriptor, p);
    assert !c.slot.live;
    if o.Success? {
      ValidateExact(c.slot.descriptor.output, Obj(o.data), []);
      if !NoCancel(c.log) {
        OneCause(c.log, ByExpire, ByResult);
      }
      assert Earned(c.Finish(o), o.data);
    } else {
      CloseKeeps(c, o, false);
    }
  }

  lemma FinishKeeps(c: Call)
    requires Sound(c) && c.phase.Closing?
    ensures Sound(Next(c, FinishClosing))
  {
    if c.interrupt != CancelRequested && c.phase.drain {
      DrainKeeps(c);
    }
  }

  /** The whole of it: no step breaks a sound call. */
  lemma StepKeepsSound(c: Call, l: Local)
    requires Sound(c) && Enabled(c, l)
    ensures Sound(Next(c, l))
  {
    match l
    case AckFrame(conn) => AckKeeps(c, conn);
    case ResultFrame(conn, payload) => ResultKeeps(c, conn, payload);
    case Fail(device, conn, reason, both) => FailKeeps(c, device, conn, reason, both);
    case VerbRemove(refusal) => VerbKeeps(c, refusal);
    case VerbRelease => ReleaseKeeps(c);
    case Strike(kind, reached) => StrikeKeeps(c, kind, reached);
    case TicketStart(_) =>
    case TicketAnswer(_) =>
    case ResumeApproval => ApprovalKeeps(c);
    case ResumeSend(sent) => SentKeeps(c, sent);
    case ResumeAck(notice) => AckedKeeps(c, notice);
    case ResumeResult(notice) => OutcomeKeeps(c, notice);
    case FinishClosing => FinishKeeps(c);
  }

  // ---- Futures are write-once -----------------------------------------------------------------

  /** No step settles a future twice, un-settles one, or puts a removed id back. */
  lemma SettledOnce(c: Call, l: Local)
    requires Enabled(c, l)
    ensures Later(c.slot, Next(c, l).slot)
  {
  }

  /** A finished call stays finished, with the outcome it finished with. */
  lemma FinishedStays(c: Call, l: Local)
    requires c.phase.Finished? && Enabled(c, l)
    ensures Next(c, l).phase == c.phase
  {
  }

  /** The history only grows, and the request's snapshot never changes. */
  lemma HistoryGrows(c: Call, l: Local)
    requires Enabled(c, l)
    ensures c.log <= Next(c, l).log && Next(c, l).start == c.start
  {
  }

  // ---- A released caller needs no timer -----------------------------------------------------------

  /** Every future the coroutine is still going to wait for is settled already. */
  ghost predicate Released(c: Call) {
    match c.phase
    case AwaitApproval => c.slot.gone.Value?
    case Sending => c.slot.ack.Done() && (c.slot.ack.Value? ==> c.slot.result.Done())
    case AwaitAck => c.slot.ack.Done() && (c.slot.ack.Value? ==> c.slot.result.Done())
    case AwaitResult => c.slot.result.Done()
    case Closing(_, _) => true
    case Finished(_) => true
  }

  function Rank(c: Call): nat {
    match c.phase
    case AwaitApproval => 5
    case Sending => 4
    case AwaitAck => 3
    case AwaitResult => 2
    case Closing(_, _) => 1
    case Finished(_) => 0
  }

  /** The coroutine's own next step, with no timer and no cancel request involved. */
  function Resume(c: Call): Local
    requires !c.phase.Finished?
  {
    match c.phase
    case AwaitApproval => ResumeApproval
    case Sending => ResumeSend(true)
    case AwaitAck => ResumeAck(false)
    case AwaitResult => ResumeResult(false)
    case Closing(_, _) => FinishClosing
  }

  /** Failing a pending entry releases its caller. */
  lemma FailReleasesCaller(c: Call, device: Option<string>, conn: Option<ConnId>, reason: Reason, both: bool)
    requires Sound(c) && c.slot.Reached(device, conn)
    ensures Released(Next(c, Local.Fail(device, conn, reason, both)))
  {
  }

  /** A released caller stays released, whatever happens. */
  lemma ReleasedStays(c: Call, l: Local)
    requires Sound(c) && Released(c) && Enabled(c, l)
    ensures Released(Next(c, l))
  {
  }

  /** Every step of its own, whatever a send or the event loop makes of it, brings a released caller
      nearer its end; no other step moves it. */
  lemma OwnStepsDescend(c: Call, l: Local)
    requires Sound(c) && Released(c) && Enabled(c, l)
    ensures if Own(l) then Rank(Next(c, l)) < Rank(c) else Rank(Next(c, l)) == Rank(c)
  {
  }

  /** A released caller can always take its own next step, and at most five of them finish it. */
  lemma ReleasedFinishes(c: Call)
    requires Sound(c) && Released(c) && !c.phase.Finished?
    ensures Enabled(c, Resume(c))
    ensures Released(Next(c, Resume(c))) && Rank(Next(c, Resume(c))) < Rank(c)
  {
  }
}
