/** What asking one `ctl_invoke` to cancel leads to (`ControlServer._ctl_invoke` in
    `hdp_bridge/control.py`).  The cancellation reaches the coroutine at its own next step.  If the
    future it awaits has failed by then, the event loop may hand on that failure instead, and the call
    ends with its ordinary disconnection reply. */
module Cancellation {
  import opened Basics
  import opened Futures
  import opened Calls
  import opened CallSafety

  predicate Asked(c: Call) { c.interrupt == CancelRequested }

  predicate AsksToCancel(l: Local) { l.Strike? && l.kind == CancelRequested }

  predicate EndsRaised(c: Call) { (c.phase.Closing? || c.phase.Finished?) && c.phase.outcome.Raised? }

  /** The event loop hands on the failure of the awaited future. */
  predicate Passes(c: Call, l: Local) {
    || (l.ResumeAck? && c.slot.ack.Failure? && !l.notice)
    || (l.ResumeResult? && c.slot.result.Failure? && !l.notice)
  }

  /** The reply a failed future leads to. */
  predicate EndsByFailure(c: Call) {
    || (c.slot.ack.Failure? && c.phase == Finished(Error(CodeOf(c.slot.ack.reason), DisconnectedBeforeAck)))
    || (c.slot.result.Failure? && c.phase == Finished(Error(CodeOf(c.slot.result.reason), DisconnectedMidCall)))
  }

  /** When the cancellation is delivered, the call ends with CancelledError -- exactly unless the
      failure of the future it awaited is delivered in its stead. */
  lemma DeliveryExactly(c: Call, l: Local)
    requires Enabled(c, l) && Own(l) && Asked(c)
    ensures EndsRaised(Next(c, l)) <==> !Passes(c, l)
    ensures EndsByFailure(Next(c, l)) <==> Passes(c, l)
  {
  }

  /** The future the coroutine awaits, if any, has failed. */
  predicate AlreadyFailed(c: Call) {
    (c.phase.AwaitAck? && c.slot.ack.Failure?) || (c.phase.AwaitResult? && c.slot.result.Failure?)
  }

  /** Nothing has settled it, and its entry is still in the table to be failed. */
  predicate MayFail<T>(c: Call, f: Cell<T>) { f.Failure? || (f.Unset? && c.slot.live) }

  /** The awaited future has failed or may still fail before the cancellation is delivered. */
  predicate MayPass(c: Call) {
    (c.phase.AwaitAck? && MayFail(c, c.slot.ack)) || (c.phase.AwaitResult? && MayFail(c, c.slot.result))
  }

  /** Asked to cancel, and past answering. */
  predicate Doomed(c: Call) { EndsRaised(c) || (Asked(c) && !c.phase.Finished? && !MayPass(c)) }

  /** A request that cancels the awaited future at once dooms the call exactly unless that future had
      already failed; one that leaves the future alone dooms it unless it has failed or still can. */
  lemma AskingDooms(c: Call, reached: bool)
    requires !c.phase.Finished?
    ensures Enabled(c, Strike(CancelRequested, reached))
    ensures Doomed(Next(c, Strike(CancelRequested, reached))) <==> if reached then !AlreadyFailed(c) else !MayPass(c)
  {
  }

  lemma DoomedStays(c: Call, l: Local)
    requires Enabled(c, l) && Doomed(c)
    ensures Doomed(Next(c, l))
  {
  }

  /** And a call that is not past answering can be answered: its entry fails, if it has not yet, and that
      failure is delivered in place of the cancellation. */
  function Way(c: Call): seq<Local> {
    var entryFails := Fail(None, None, DeviceGone, true);
    var delivered := if c.phase.AwaitAck? then ResumeAck(false) else ResumeResult(false);
    if AlreadyFailed(c) then [delivered] else [entryFails, delivered]
  }

  lemma WayPasses(c: Call)
    requires Asked(c) && MayPass(c)
    ensures
      var first := Way(c)[0];
      && Enabled(c, first) && !AsksToCancel(first)
      && if AlreadyFailed(c) then EndsByFailure(Next(c, first))
         else
           && Asked(Next(c, first)) && AlreadyFailed(Next(c, first)) && Way(c)[1..] == Way(Next(c, first))
           && Next(c, first).phase == c.phase
  {
  }

  /** A call nobody asked to cancel never ends with CancelledError. */
  lemma UnaskedIsNotRaised(c: Call, l: Local)
    requires Enabled(c, l) && !AsksToCancel(l) && !Asked(c) && !EndsRaised(c)
    ensures !Asked(Next(c, l)) && !EndsRaised(Next(c, l))
  {
  }

  /** A call that has been asked, until it ends: still asked, or ended one of the two ways. */
  predicate AskedOrOver(c: Call) {
    if c.phase.Finished? then EndsRaised(c) || EndsByFailure(c) else Asked(c) || EndsRaised(c)
  }

  lemma AskedStays(c: Call, l: Local)
    requires Enabled(c, l) && AskedOrOver(c)
    ensures AskedOrOver(Next(c, l))
  {
    if Own(l) && Asked(c) { DeliveryExactly(c, l); }
  }

  lemma AskingAsks(c: Call, reached: bool)
    requires !c.phase.Finished?
    ensures AskedOrOver(Next(c, Strike(CancelRequested, reached)))
  {
  }
}
