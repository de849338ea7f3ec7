/** The server's half of the multiplexing (`hdp_bridge/control.py`, `_handle`): a read loop that
    answers most verbs inline and hands each `ctl_invoke` to a task of its own, all writing under one
    lock.  Requests are told apart by arrival position, whatever ids they carry.  The call each task
    runs is the automaton of `Calls`; asking the task to cancel is a strike on it. */
module ControlServer {
  import opened Basics
  import Calls
  import Cancellation
  import Transport

  datatype Kind = Invoke | CancelOf(target: Id) | Inline

  /** A frame that is no envelope has no id; its error reply is uncorrelated. */
  datatype Request = Request(id: Option<Id>, kind: Kind)

  datatype Loop = Reading | Replying(request: nat) | Draining

  /** A task that has not had its first turn, runs its call, has a reply to write, writes it, or will
      write nothing any more. */
  datatype Task = Unstarted | Calling(call: Calls.Call) | Ready | Flushing | Silenced

  datatype Holder = ByLoop | ByTask(request: nat)

  /** `byId` is `request_tasks`, `written` the replies written so far, by request.  The last three are
      history: the calls asked to cancel while they ran, how each call ended, and the replies given up
      because their task was cancelled after its call had ended. */
  datatype Server = Server(
    arrived: seq<Request>, loop: Loop, tasks: map<nat, Task>, byId: map<Id, nat>,
    lock: Option<Holder>, written: seq<(nat, string)>, open: bool,
    asked: set<nat>, ended: map<nat, Calls.Call>, hushed: set<nat>)

  datatype Op =
    | Arrive(frame: Request, reached: bool)          // `reached`: of a cancel, see `Calls.Strike`
    | Answer(body: string)                           // the loop has the lock: its reply is written
    | Drained                                        // and flushed
    | Begins(request: nat, first: Option<Calls.Call>) // the task's first turn: a call, or a reply at once
    | CallMoves(request: nat, local: Calls.Local)    // anything that happens to its call, cancels apart
    | TaskAnswer(request: nat, body: string)         // the task has the lock: its reply is written
    | TaskDone(request: nat)                         // flushed, or its cancellation has landed
    | TaskDies(request: nat)                         // any other exception leaves its call
    | Lost(reachedCalls: set<nat>)                   // the read loop ends

  const INITIAL := Server([], Reading, map[], map[], None, [], true, {}, map[], {})

  /** A call just begun: nobody has asked it to cancel. */
  predicate Fresh(c: Calls.Call) { !Cancellation.Asked(c) && !Cancellation.EndsRaised(c) && !c.phase.Finished? }

  /** `task.cancel()`, for a request under way. */
  function CancelTask(t: Task, reached: bool): Task {
    match t
    case Unstarted => Silenced
    case Calling(c) =>
      if c.phase.Finished? then t else Calling(Calls.Next(c, Calls.Strike(Calls.CancelRequested, reached)))
    case Ready => Silenced
    case Flushing => Silenced
    case Silenced => Silenced
  }

  function Cancel(s: Server, n: nat, reached: bool): Server
    requires n in s.tasks
  {
    s.(tasks := s.tasks[n := CancelTask(s.tasks[n], reached)],
       asked := if s.tasks[n].Calling? then s.asked + {n} else s.asked,
       hushed := if s.tasks[n].Ready? then s.hushed + {n} else s.hushed)
  }

  function End(s: Server, n: nat, c: Calls.Call): Server {
    s.(tasks := s.tasks[n := if Cancellation.EndsRaised(c) then Silenced else Ready], ended := s.ended[n := c])
  }

  function OnArrival(s: Server, r: Request, reached: bool): Server {
    var n := |s.arrived|;
    var t := s.(arrived := s.arrived + [r]);
    if r.id.None? then t.(loop := Replying(n))
    else match r.kind
      case Invoke => t.(tasks := t.tasks[n := Unstarted], byId := t.byId[r.id.value := n])
      case CancelOf(id) =>
        (if id in t.byId && t.byId[id] in t.tasks then Cancel(t, t.byId[id], reached) else t).(loop := Replying(n))
      case Inline => t.(loop := Replying(n))
  }

  predicate In(s: Server, n: nat, t: Task) { n in s.tasks && s.tasks[n] == t }

  function Step(s: Server, op: Op): Server {
    match op
    case Arrive(r, reached) => if !s.open || s.loop != Reading then s else OnArrival(s, r, reached)
    case Answer(body) =>
      if !s.open || !s.loop.Replying? || s.lock.Some? then s
      else s.(written := s.written + [(s.loop.request, body)], loop := Draining, lock := Some(ByLoop))
    case Drained => if s.loop != Draining then s else s.(loop := Reading, lock := None)
    case Begins(n, first) =>
      if !In(s, n, Unstarted) then s
      else (match first
            case None => s.(tasks := s.tasks[n := Ready])
            case Some(c) => if Fresh(c) then s.(tasks := s.tasks[n := Calling(c)]) else s)
    case CallMoves(n, l) =>
      if n !in s.tasks || !s.tasks[n].Calling? then s
      else
        var c := s.tasks[n].call;
        if c.phase.Finished? || Cancellation.AsksToCancel(l) || !Calls.Enabled(c, l) then s
        else
          var after := Calls.Next(c, l);
          if after.phase.Finished? then End(s, n, after) else s.(tasks := s.tasks[n := Calling(after)])
    case TaskAnswer(n, body) =>
      if !In(s, n, Ready) || s.lock.Some? then s
      else if s.open then
        s.(written := s.written + [(n, body)], tasks := s.tasks[n := Flushing], lock := Some(ByTask(n)))
      else s.(tasks := s.tasks[n := Silenced], hushed := s.hushed + {n})
    case TaskDone(n) => if In(s, n, Flushing) || In(s, n, Silenced) then Leave(s, n) else s
    case TaskDies(n) => if n in s.tasks && (s.tasks[n].Unstarted? || s.tasks[n].Calling?) then Leave(s, n) else s
    case Lost(reached) =>
      s.(open := false,
         tasks := map n | n in s.tasks :: CancelTask(s.tasks[n], n in reached),
         asked := s.asked + (set n | n in s.tasks && s.tasks[n].Calling?),
         hushed := s.hushed + (set n | n in s.tasks && s.tasks[n].Ready?))
  }

  /** The task is done: its callbacks take it out of the tables, and it holds no lock. */
  function Leave(s: Server, n: nat): Server
    requires n in s.tasks
  {
    s.(tasks := s.tasks - {n},
       byId := if n < |s.arrived| && s.arrived[n].id.Some? then s.byId - {s.arrived[n].id.value} else s.byId,
       lock := if s.lock == Some(ByTask(n)) then None else s.lock)
  }

  function Run(s: Server, ops: seq<Op>): Server
    decreases |ops|
  {
    if ops == [] then s else Run(Step(s, ops[0]), ops[1..])
  }

  // ---- What every step keeps ----------------------------------------------------------------------------

  ghost predicate Answers(written: seq<(nat, string)>, n: nat) {
    exists i :: 0 <= i < |written| && written[i].0 == n
  }

  ghost predicate Answered(s: Server, n: nat) { Answers(s.written, n) }

  ghost predicate OneEach(s: Server) {
    forall i, j :: 0 <= i < j < |s.written| ==> s.written[i].0 != s.written[j].0
  }

  predicate IsInvoke(s: Server, n: nat) { n < |s.arrived| && s.arrived[n].id.Some? && s.arrived[n].kind.Invoke? }

  /** What holds of one request: whoever may still write has not written yet, and how a call ended
      decides what becomes of its reply. */
  ghost predicate RequestSound(s: Server, n: nat) {
    && (Answered(s, n) ==> n < |s.arrived|)
    && (n in s.tasks || n in s.asked || n in s.ended || n in s.hushed ==> IsInvoke(s, n))
    && (n in s.tasks && s.tasks[n] in {Unstarted, Ready} ==> !Answered(s, n))
    && (n in s.tasks && s.tasks[n].Calling? ==> !Answered(s, n) && CallSound(s, n, s.tasks[n].call))
    && (In(s, n, Unstarted) ==> n !in s.asked && n !in s.ended && n !in s.hushed)
    && (In(s, n, Flushing) ==> Answered(s, n))
    && (n in s.hushed ==> !Answered(s, n) && (n in s.tasks ==> s.tasks[n] == Silenced))
    && (n in s.ended ==> EndSound(s, n, s.ended[n]))
    && (s.loop == Replying(n) ==> n < |s.arrived| && !Answered(s, n) && !IsInvoke(s, n))
  }

  ghost predicate CallSound(s: Server, n: nat, c: Calls.Call) {
    && n !in s.ended && n !in s.hushed && !c.phase.Finished?
    && if n in s.asked then Cancellation.AskedOrOver(c) else !Cancellation.Asked(c) && !Cancellation.EndsRaised(c)
  }

  ghost predicate EndSound(s: Server, n: nat, c: Calls.Call) {
    && c.phase.Finished?
    && (n in s.tasks ==> !s.tasks[n].Unstarted? && !s.tasks[n].Calling?)
    && (if n in s.asked then Cancellation.AskedOrOver(c) else !Cancellation.EndsRaised(c))
    && (Cancellation.EndsRaised(c) ==> !Answered(s, n) && n !in s.hushed && (n in s.tasks ==> s.tasks[n] == Silenced))
    && (!Cancellation.EndsRaised(c) ==> Answered(s, n) || n in s.hushed || In(s, n, Ready))
  }

  /** The lock is the loop's exactly while it flushes, or a task's that has written. */
  ghost predicate LockSound(s: Server) {
    && (s.loop == Draining <==> s.lock == Some(ByLoop))
    && (s.lock.Some? && s.lock.value.ByTask? ==>
          In(s, s.lock.value.request, Flushing) || In(s, s.lock.value.request, Silenced))
  }

  ghost predicate Sound(s: Server) { OneEach(s) && LockSound(s) && forall n: nat :: RequestSound(s, n) }

  /** What a step writes: the loop's own reply, or a task's. */
  function Writes(s: Server, op: Op): seq<(nat, string)> {
    match op
    case Answer(body) => if s.open && s.loop.Replying? && s.lock.None? then [(s.loop.request, body)] else []
    case TaskAnswer(n, body) => if In(s, n, Ready) && s.lock.None? && s.open then [(n, body)] else []
    case _ => []
  }

  lemma WrittenShape(s: Server, op: Op)
    ensures Step(s, op).written == s.written + Writes(s, op)
  {
    assert s.written + [] == s.written;
  }

  lemma AnswersGrow(written: seq<(nat, string)>, more: seq<(nat, string)>, n: nat)
    requires |more| <= 1
    ensures Answers(written + more, n) <==> Answers(written, n) || (more != [] && more[0].0 == n)
  {
    var all := written + more;
    if i :| 0 <= i < |written| && written[i].0 == n {
      assert all[i].0 == n;
    }
    if more != [] {
      assert all[|written|] == more[0];
    }
  }

  /** Nothing about request `n` differs between the two. */
  ghost predicate SameFor(s: Server, d: Server, n: nat) {
    && (n in d.tasks <==> n in s.tasks) && (n in s.tasks ==> d.tasks[n] == s.tasks[n])
    && (n in d.asked <==> n in s.asked) && (n in d.hushed <==> n in s.hushed)
    && (n in d.ended <==> n in s.ended) && (n in s.ended ==> d.ended[n] == s.ended[n])
    && (Answered(d, n) <==> Answered(s, n)) && s.arrived <= d.arrived
  }

  lemma Elsewhere(s: Server, d: Server, n: nat)
    requires RequestSound(s, n) && SameFor(s, d, n)
    requires d.loop == Replying(n) ==> n < |d.arrived| && !Answered(d, n) && !IsInvoke(d, n)
    ensures RequestSound(d, n)
  {
  }

  /** The loop's own steps. */
  lemma LoopKeeps(s: Server, op: Op, n: nat)
    requires Sound(s) && (op.Answer? || op.Drained?)
    ensures RequestSound(Step(s, op), n)
  {
    WrittenShape(s, op);
    AnswersGrow(s.written, Writes(s, op), n);
    assert RequestSound(s, n);
  }

  lemma CancelKeeps(s: Server, m: nat, reached: bool, n: nat)
    requires RequestSound(s, n) && m in s.tasks
    ensures RequestSound(Cancel(s, m, reached), n)
  {
    if m == n {
      if s.tasks[n].Calling? {
        var c := s.tasks[n].call;
        Cancellation.AskingAsks(c, reached);
        StrikeIsNoEnd(c, reached);
      }
    } else {
      Elsewhere(s, Cancel(s, m, reached), n);
    }
  }

  lemma StrikeIsNoEnd(c: Calls.Call, reached: bool)
    requires !c.phase.Finished?
    ensures !Calls.Next(c, Calls.Strike(Calls.CancelRequested, reached)).phase.Finished?
  {
  }

  lemma ArrivalKeeps(s: Server, r: Request, reached: bool, n: nat)
    requires Sound(s) && s.loop == Reading
    ensures RequestSound(OnArrival(s, r, reached), n)
  {
    var m := |s.arrived|;
    var t := s.(arrived := s.arrived + [r]);
    assert RequestSound(s, n) && RequestSound(s, m);
    Elsewhere(s, t, n);
    if r.id.Some? && r.kind.Invoke? {
      InvokeArrives(s, r, n);
    } else if r.id.Some? && r.kind.CancelOf? && r.kind.target in t.byId && t.byId[r.kind.target] in t.tasks {
      var target := t.byId[r.kind.target];
      var u := Cancel(t, target, reached);
      assert RequestSound(s, target);
      CancelKeeps(t, target, reached, n);
      Elsewhere(u, u.(loop := Replying(m)), n);
    } else {
      Elsewhere(t, t.(loop := Replying(m)), n);
    }
  }

  lemma InvokeArrives(s: Server, r: Request, n: nat)
    requires Sound(s) && s.loop == Reading && r.id.Some? && r.kind.Invoke?
    ensures RequestSound(OnArrival(s, r, false), n) && OnArrival(s, r, false) == OnArrival(s, r, true)
  {
    assert RequestSound(s, n) && RequestSound(s, |s.arrived|);
    if n != |s.arrived| { Elsewhere(s, OnArrival(s, r, false), n); }
  }

  lemma BeginsKeeps(s: Server, op: Op, n: nat)
    requires Sound(s) && op.Begins?
    ensures RequestSound(Step(s, op), n)
  {
    assert RequestSound(s, n);
    if op.request != n { Elsewhere(s, Step(s, op), n); }
  }

  lemma CallKeeps(s: Server, m: nat, l: Calls.Local, n: nat)
    requires RequestSound(s, n)
    ensures RequestSound(Step(s, CallMoves(m, l)), n)
  {
    if m != n {
      Elsewhere(s, Step(s, CallMoves(m, l)), n);
    } else if n in s.tasks && s.tasks[n].Calling? {
      var c := s.tasks[n].call;
      if !Cancellation.AsksToCancel(l) && Calls.Enabled(c, l) { OwnCallKeeps(s, n, c, l); }
    }
  }

  lemma OwnCallKeeps(s: Server, n: nat, c: Calls.Call, l: Calls.Local)
    requires RequestSound(s, n) && In(s, n, Calling(c)) && !Cancellation.AsksToCancel(l) && Calls.Enabled(c, l)
    ensures RequestSound(Step(s, CallMoves(n, l)), n)
  {
    if n in s.asked { Cancellation.AskedStays(c, l); } else { Cancellation.UnaskedIsNotRaised(c, l); }
  }

  lemma TaskAnswerKeeps(s: Server, op: Op, n: nat)
    requires Sound(s) && op.TaskAnswer?
    ensures RequestSound(Step(s, op), n)
  {
    WrittenShape(s, op);
    AnswersGrow(s.written, Writes(s, op), n);
    assert RequestSound(s, n) && RequestSound(s, op.request);
    if op.request != n { Elsewhere(s, Step(s, op), n); }
  }

  lemma LeaveKeeps(s: Server, op: Op, n: nat)
    requires Sound(s) && (op.TaskDone? || op.TaskDies?)
    ensures RequestSound(Step(s, op), n)
  {
    assert RequestSound(s, n);
    if op.request != n { Elsewhere(s, Step(s, op), n); }
  }

  lemma LostKeeps(s: Server, reached: set<nat>, n: nat)
    requires Sound(s)
    ensures RequestSound(Step(s, Lost(reached)), n)
  {
    assert RequestSound(s, n);
    var d := Step(s, Lost(reached));
    if n in s.tasks {
      CancelKeeps(s, n, n in reached, n);
      var t := Cancel(s, n, n in reached);
      assert SameFor(t, d, n);
      Elsewhere(t, d, n);
    } else {
      Elsewhere(s, d, n);
    }
  }

  lemma LockKept(s: Server, op: Op)
    requires LockSound(s) && |s.arrived| !in s.tasks
    ensures LockSound(Step(s, op))
  {
  }

  lemma StepKeeps(s: Server, op: Op)
    requires Sound(s)
    ensures Sound(Step(s, op))
  {
    forall n: nat ensures RequestSound(Step(s, op), n) {
      match op {
        case Arrive(r, reached) =>
          assert RequestSound(s, n);
          if s.open && s.loop == Reading { ArrivalKeeps(s, r, reached, n); }
        case Answer(_) => LoopKeeps(s, op, n);
        case Drained => LoopKeeps(s, op, n);
        case Begins(_, _) => BeginsKeeps(s, op, n);
        case CallMoves(m, l) =>
          assert RequestSound(s, n);
          CallKeeps(s, m, l, n);
        case TaskAnswer(_, _) => TaskAnswerKeeps(s, op, n);
        case Lost(reached) => LostKeeps(s, reached, n);
        case _ => LeaveKeeps(s, op, n);
      }
    }
    assert RequestSound(s, |s.arrived|);
    LockKept(s, op);
    WrittenShape(s, op);
    if Writes(s, op) != [] {
      var n := Writes(s, op)[0].0;
      assert RequestSound(s, n);
      assert forall i :: 0 <= i < |s.written| ==> s.written[i].0 != n;
    }
  }

  lemma {:induction false} RunKeeps(s: Server, ops: seq<Op>)
    requires Sound(s)
    ensures Sound(Run(s, ops))
    decreases |ops|
  {
    if ops != [] {
      StepKeeps(s, ops[0]);
      RunKeeps(Step(s, ops[0]), ops[1..]);
    }
  }

  // ---- Main results ---------------------------------------------------------------------------------------

  /** However invokes, cancels and inline verbs overlap, no request is answered twice. */
  lemma AtMostOneReply(ops: seq<Op>)
    ensures OneEach(Run(INITIAL, ops))
  {
    RunKeeps(INITIAL, ops);
  }

  /** Over any run, of an invoke whose call has ended and whose task has left: it was answered exactly
      when the call ended other than with CancelledError and its task was not cancelled again on the
      way to the write lock.  And the call ended with CancelledError exactly when it had been asked to
      cancel and no failure of the future it awaited was delivered instead. */
  lemma AnsweredExactly(ops: seq<Op>, n: nat)
    requires var s := Run(INITIAL, ops); n in s.ended && n !in s.tasks
    ensures
      var s := Run(INITIAL, ops);
      var c := s.ended[n];
      && (Answered(s, n) <==> !Cancellation.EndsRaised(c) && n !in s.hushed)
      && (Cancellation.EndsRaised(c) <==> n in s.asked && !Cancellation.EndsByFailure(c))
  {
    RunKeeps(INITIAL, ops);
    assert RequestSound(Run(INITIAL, ops), n);
  }

  /** A reply to an invoke that was asked to cancel while its call ran is a disconnection reply. */
  lemma AskedReplies(ops: seq<Op>, n: nat)
    requires var s := Run(INITIAL, ops); n in s.asked && n in s.ended && Answered(s, n)
    ensures Cancellation.EndsByFailure(Run(INITIAL, ops).ended[n])
  {
    RunKeeps(INITIAL, ops);
    assert RequestSound(Run(INITIAL, ops), n);
  }

  /** It can write nothing any more: its call is past answering, or its task was cancelled before its
      first turn, or while it waited for the write lock, or has left. */
  ghost predicate Mute(s: Server, n: nat) {
    && IsInvoke(s, n) && !Answered(s, n)
    && (n in s.tasks ==> s.tasks[n].Silenced? || (s.tasks[n].Calling? && Cancellation.Doomed(s.tasks[n].call)))
  }

  /** When an invoke is asked to cancel it falls silent at once, unless its reply is already being
      written, or the future it awaits has failed or may still fail before the cancellation lands. */
  lemma CancelMutes(s: Server, n: nat, reached: bool)
    requires RequestSound(s, n) && n in s.tasks
    ensures Mute(Cancel(s, n, reached), n) <==>
            match s.tasks[n]
            case Calling(c) => if reached then !Cancellation.AlreadyFailed(c) else !Cancellation.MayPass(c)
            case _ => !Answered(s, n)
  {
    if s.tasks[n].Calling? { Cancellation.AskingDooms(s.tasks[n].call, reached); }
  }

  lemma DoomedEndsRaised(c: Calls.Call)
    requires Cancellation.Doomed(c) && c.phase.Finished?
    ensures Cancellation.EndsRaised(c)
  {
  }

  lemma MuteStep(s: Server, op: Op, n: nat)
    requires Sound(s) && Mute(s, n)
    ensures Mute(Step(s, op), n)
  {
    WrittenShape(s, op);
    AnswersGrow(s.written, Writes(s, op), n);
    assert RequestSound(s, n);
    match op {
      case CallMoves(m, l) => if m == n { MuteCall(s, n, l); }
      case Arrive(r, reached) => if s.open && s.loop == Reading { MuteArrival(s, r, reached, n); }
      case Lost(reached) => if n in s.tasks { MuteCancel(s.tasks[n], n in reached); }
      case _ =>
    }
  }

  lemma MuteCall(s: Server, n: nat, l: Calls.Local)
    requires Sound(s) && Mute(s, n)
    ensures Mute(Step(s, CallMoves(n, l)), n)
  {
    if n in s.tasks && s.tasks[n].Calling? && Calls.Enabled(s.tasks[n].call, l) {
      Cancellation.DoomedStays(s.tasks[n].call, l);
    }
  }

  ghost predicate MuteTask(t: Task) { t.Silenced? || (t.Calling? && Cancellation.Doomed(t.call)) }

  lemma MuteCancel(t: Task, reached: bool)
    requires MuteTask(t)
    ensures MuteTask(CancelTask(t, reached))
  {
    if t.Calling? && !t.call.phase.Finished? {
      Cancellation.DoomedStays(t.call, Calls.Strike(Calls.CancelRequested, reached));
    }
  }

  lemma MuteArrival(s: Server, r: Request, reached: bool, n: nat)
    requires Sound(s) && Mute(s, n)
    ensures Mute(OnArrival(s, r, reached), n)
  {
    assert RequestSound(s, |s.arrived|);
    if n in s.tasks { MuteCancel(s.tasks[n], reached); }
  }

  /** And stays silent over any run. */
  lemma {:induction false} CancelledStaysSilent(s: Server, ops: seq<Op>, n: nat)
    requires Sound(s) && Mute(s, n)
    ensures !Answered(Run(s, ops), n)
    decreases |ops|
  {
    if ops != [] {
      MuteStep(s, ops[0], n);
      StepKeeps(s, ops[0]);
      CancelledStaysSilent(Step(s, ops[0]), ops[1..], n);
    }
  }

  /** Once the connection is lost nothing more is written on it. */
  lemma {:induction false} LostStaysSilent(s: Server, ops: seq<Op>)
    requires !s.open
    ensures Run(s, ops).written == s.written
    decreases |ops|
  {
    if ops != [] {
      WrittenShape(s, ops[0]);
      LostStaysSilent(Step(s, ops[0]), ops[1..]);
    }
  }

  /** A cancelled invoke can be answered all the same: from any state with a call whose awaited ack has
      failed, a cancel, then that failure delivered, then the free lock. */
  lemma CancelledYetAnswered(s: Server, id: Id, n: nat, cancel: Id, body: string)
    requires Sound(s) && s.open && s.loop == Reading && s.lock.None? && id in s.byId && s.byId[id] == n && n in s.tasks
    requires s.tasks[n].Calling? && s.tasks[n].call.phase.AwaitAck? && s.tasks[n].call.slot.ack.Failure?
    ensures
      var d0 := Step(s, Arrive(Request(Some(cancel), CancelOf(id)), true));
      var d1 := Step(d0, CallMoves(n, Calls.ResumeAck(false)));
      var d := Step(d1, TaskAnswer(n, body));
      n in d.asked && Answered(d, n) && Cancellation.EndsByFailure(d.ended[n])
  {
    assert RequestSound(s, n);
    var d0 := Step(s, Arrive(Request(Some(cancel), CancelOf(id)), true));
    var c := d0.tasks[n].call;
    Cancellation.DeliveryExactly(c, Calls.ResumeAck(false));
    var d1 := Step(d0, CallMoves(n, Calls.ResumeAck(false)));
    AnswersGrow(d1.written, [(n, body)], n);
  }

  /** Whoever holds the lock lets go of it. */
  function Frees(s: Server): seq<Op> {
    if s.lock.None? then [] else if s.lock.value.ByLoop? then [Drained] else [TaskDone(s.lock.value.request)]
  }

  lemma ReadyAnswers(s: Server, n: nat, body: string)
    requires Sound(s) && s.open && In(s, n, Ready)
    ensures Answered(Run(s, Frees(s) + [TaskAnswer(n, body)]), n)
  {
    var answer := TaskAnswer(n, body);
    var free := if s.lock.None? then s else Step(s, Frees(s)[0]);
    assert free.open && free.lock.None? && In(free, n, Ready);
    AnswersGrow(free.written, [(n, body)], n);
    assert [answer][1..] == [] && Run(free, [answer]) == Step(free, answer);
    if s.lock.None? {
      assert Frees(s) + [answer] == [answer];
    } else {
      assert (Frees(s) + [answer])[1..] == [answer];
    }
  }

  /** A run that answers: the call's way, then the lock. */
  lemma {:induction false} PassingAnswers(s: Server, n: nat, c: Calls.Call) returns (ops: seq<Op>)
    requires Sound(s) && s.open && In(s, n, Calling(c)) && Cancellation.Asked(c) && Cancellation.MayPass(c)
    ensures Answered(Run(s, ops), n)
    decreases |Cancellation.Way(c)|
  {
    assert RequestSound(s, n);
    var first := Cancellation.Way(c)[0];
    var move := CallMoves(n, first);
    Cancellation.WayPasses(c);
    StepKeeps(s, move);
    var t := Step(s, move);
    var rest: seq<Op>;
    if Cancellation.AlreadyFailed(c) {
      ReadyAnswers(t, n, "");
      rest := Frees(t) + [TaskAnswer(n, "")];
    } else {
      rest := PassingAnswers(t, n, Calls.Next(c, first));
    }
    ops := [move] + rest;
    assert ops[1..] == rest;
  }

  ghost predicate AnsweredBy(s: Server, ops: seq<Op>, n: nat) { Answered(Run(s, ops), n) }

  /** Some run answers an invoke that is not mute. */
  lemma Answerable(s: Server, n: nat) returns (ops: seq<Op>)
    requires Sound(s) && s.open && n in s.asked && !Mute(s, n)
    ensures AnsweredBy(s, ops, n)
  {
    assert RequestSound(s, n);
    if Answered(s, n) {
      ops := [];
    } else if In(s, n, Ready) {
      ReadyAnswers(s, n, "");
      ops := Frees(s) + [TaskAnswer(n, "")];
    } else {
      ops := PassingAnswers(s, n, s.tasks[n].call);
    }
  }

  /** Of an invoke that was asked to cancel while its call ran, on an open connection: no run whatever
      answers it exactly when it is mute. */
  lemma SilencedExactly(s: Server, n: nat)
    requires Sound(s) && s.open && n in s.asked
    ensures Mute(s, n) <==> forall ops :: !AnsweredBy(s, ops, n)
  {
    if Mute(s, n) {
      forall ops ensures !AnsweredBy(s, ops, n) { CancelledStaysSilent(s, ops, n); }
    } else {
      var ops := Answerable(s, n);
    }
  }

  // ---- Both halves together ---------------------------------------------------------------------------

  /** The stream delivers only what was written: each frame the client read on `g` is one of the
      server's replies, stamped with the id of the request it answers. */
  ghost predicate Delivers(s: Server, log: seq<Transport.Event>, g: nat) {
    forall k :: 0 <= k < |log| && log[k].Received? && log[k].gen == g ==>
      exists i :: Stamped(s, i, log[k].corr) && s.written[i].1 == log[k].body
  }

  /** The i-th reply answers a request with this id. */
  ghost predicate Stamped(s: Server, i: int, id: Id) {
    0 <= i < |s.written| && s.written[i].0 < |s.arrived| && s.arrived[s.written[i].0].id == Some(id)
  }

  /** Envelope ids are minted once. */
  ghost predicate DistinctIds(s: Server) {
    forall m: nat, n: nat :: m < n < |s.arrived| && s.arrived[m].id.Some? ==> s.arrived[m].id != s.arrived[n].id
  }

  /** A caller whose request went out on `g` and who is given a frame is given the one reply the
      server wrote to that very request. */
  lemma AnswersItsOwnRequest(c: Transport.Client, s: Server, g: nat, id: Id)
    requires Transport.Sound(c) && Sound(s) && DistinctIds(s) && Delivers(s, c.log, g)
    requires Transport.Registered(g, id) in c.log
    requires Transport.Phase(c, id).Finished? && Transport.Phase(c, id).reply.Frame?
    ensures
      var body := Transport.Phase(c, id).reply.body;
      exists i :: Stamped(s, i, id) && s.written[i].1 == body && forall j :: Stamped(s, j, id) ==> j == i
  {
    assert Transport.IdSound(c, id);
    var r := Transport.Phase(c, id).reply;
    var h, k :| Transport.ReceivedFor(c.log, h, k, id, r.body);
    assert Transport.Registered(h, id) in c.log;
    assert h == g;
    var i :| Stamped(s, i, id) && s.written[i].1 == r.body;
    forall j | Stamped(s, j, id) ensures j == i {
      assert s.written[j].0 == s.written[i].0;
    }
  }
}
