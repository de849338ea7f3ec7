/** That requests do get answered, and that a cancel reaches exactly the invoke it names
    (`hdp_bridge/control.py`, `_handle`). */
module ControlOutcomes {
  import opened Basics
  import opened ControlServer
  import Calls
  import Cancellation

  // ---- Answers ----------------------------------------------------------------------------------------

  /** The loop's own reply: whoever holds the lock lets go, the reply is written and flushed, and the loop
      reads on. */
  lemma LoopAnswers(s: Server, n: nat, body: string)
    requires Sound(s) && s.open && s.loop == Replying(n)
    ensures
      var d := Run(s, Frees(s) + [Answer(body), Drained]);
      d.written == s.written + [(n, body)] && d.loop == Reading && d.lock.None? && d.tasks.Keys <= s.tasks.Keys
  {
    var idle := if s.lock.None? then s else Step(s, Frees(s)[0]);
    var said := Step(idle, Answer(body));
    assert idle.open && idle.lock.None? && idle.loop == Replying(n) && idle.written == s.written;
    assert Run(said, [Drained]) == Step(said, Drained);
    assert [Answer(body), Drained][1..] == [Drained];
    assert Run(idle, [Answer(body), Drained]) == Step(said, Drained);
    if s.lock.None? {
      assert Frees(s) + [Answer(body), Drained] == [Answer(body), Drained];
    } else {
      assert (Frees(s) + [Answer(body), Drained])[1..] == [Answer(body), Drained];
    }
  }

  /** An invoke that is answered at its task's first turn, or whose call ends otherwise than cancelled, is
      answered with its own reply as soon as the lock is free. */
  lemma TaskAnswers(s: Server, n: nat, op: Op, body: string)
    requires Sound(s) && s.open
    requires || (op == Begins(n, None) && In(s, n, Unstarted))
             || (op.CallMoves? && op.request == n && n in s.tasks && s.tasks[n].Calling?
                 && !Cancellation.AsksToCancel(op.local) && Calls.Enabled(s.tasks[n].call, op.local)
                 && Calls.Next(s.tasks[n].call, op.local).phase.Finished?
                 && !Cancellation.EndsRaised(Calls.Next(s.tasks[n].call, op.local)))
    ensures
      var t := Step(s, op);
      var d := Run(t, Frees(t) + [TaskAnswer(n, body)]);
      (n, body) in d.written && In(d, n, Flushing) && d.lock == Some(ByTask(n))
  {
    assert RequestSound(s, n);
    var t := Step(s, op);
    StepKeeps(s, op);
    assert In(t, n, Ready);
    var idle := if t.lock.None? then t else Step(t, Frees(t)[0]);
    assert idle.open && idle.lock.None? && In(idle, n, Ready);
    var d := Step(idle, TaskAnswer(n, body));
    assert d.written[|idle.written|] == (n, body);
    assert Run(idle, [TaskAnswer(n, body)]) == d;
    if t.lock.None? {
      assert Frees(t) + [TaskAnswer(n, body)] == [TaskAnswer(n, body)];
    } else {
      assert (Frees(t) + [TaskAnswer(n, body)])[1..] == [TaskAnswer(n, body)];
    }
  }

  /** An arriving invoke becomes a task that has not begun; the loop itself answers anything else, a frame
      that is no envelope included, and reads nothing before it has. */
  lemma ArrivalExactly(s: Server, r: Request, reached: bool)
    requires s.open && s.loop == Reading
    ensures
      var d, n := Step(s, Arrive(r, reached)), |s.arrived|;
      && d.arrived == s.arrived + [r] && d.written == s.written && d.lock == s.lock && d.open
      && if r.id.Some? && r.kind.Invoke? then
           && d.loop == Reading && In(d, n, Unstarted) && r.id.value in d.byId && d.byId[r.id.value] == n
           && forall m :: m in s.tasks && m != n ==> m in d.tasks && d.tasks[m] == s.tasks[m]
         else d.loop == Replying(n) && d.tasks.Keys == s.tasks.Keys && d.byId == s.byId
  {
  }

  /** A task's other turns: it begins its call; on a lost connection its reply is given up; flushed, silenced
      or killed by an exception, it leaves with its table entry and its lock, having written nothing more. */
  lemma TaskTurnsExactly(s: Server, n: nat, c: Calls.Call, body: string)
    requires Sound(s) && n in s.tasks
    ensures s.tasks[n].Unstarted? && Fresh(c) ==> Step(s, Begins(n, Some(c))) == s.(tasks := s.tasks[n := Calling(c)])
    ensures s.tasks[n].Ready? && s.lock.None? && !s.open ==>
              var d := Step(s, TaskAnswer(n, body));
              In(d, n, Silenced) && n in d.hushed && d.written == s.written
    ensures
      var d := Step(s, if s.tasks[n].Unstarted? || s.tasks[n].Calling? then TaskDies(n) else TaskDone(n));
      !s.tasks[n].Ready? ==>
        && n !in d.tasks && (forall m :: m in s.tasks && m != n ==> m in d.tasks && d.tasks[m] == s.tasks[m])
        && d.lock != Some(ByTask(n)) && (s.lock != Some(ByTask(n)) ==> d.lock == s.lock) && d.written == s.written
        && IsInvoke(s, n) && s.arrived[n].id.value !in d.byId
        && (forall id :: id in d.byId ==> id in s.byId && d.byId[id] == s.byId[id])
  {
    assert RequestSound(s, n);
  }

  // ---- Whom a cancel reaches ----------------------------------------------------------------------------

  /** The table of requests by id: each entry is an invoke under way that carries that id, and each task
      under way is found under its own. */
  ghost predicate Indexed(s: Server) {
    && (forall id :: id in s.byId ==>
          && s.byId[id] in s.tasks && s.byId[id] < |s.arrived|
          && s.arrived[s.byId[id]].id == Some(id) && s.arrived[s.byId[id]].kind.Invoke?)
    && (forall n :: n in s.tasks ==>
          && IsInvoke(s, n) && s.arrived[n].id.value in s.byId && s.byId[s.arrived[n].id.value] == n)
  }

  lemma IndexedAlike(s: Server, d: Server)
    requires Indexed(s) && s.arrived <= d.arrived && d.byId == s.byId && d.tasks.Keys == s.tasks.Keys
    ensures Indexed(d)
  {
    forall n | n in d.tasks
      ensures IsInvoke(d, n) && d.arrived[n].id.value in d.byId && d.byId[d.arrived[n].id.value] == n
    {
      assert n in s.tasks && d.arrived[n] == s.arrived[n];
    }
    forall id | id in d.byId ensures d.arrived[s.byId[id]] == s.arrived[s.byId[id]] { }
  }

  lemma IndexedInvoke(t: Server, d: Server, n: nat, id: Id)
    requires Indexed(t) && IsInvoke(t, n) && t.arrived[n].id == Some(id) && id !in t.byId
    requires d.arrived == t.arrived && d.byId == t.byId[id := n] && d.tasks == t.tasks[n := Unstarted]
    ensures Indexed(d)
  {
  }

  lemma IndexedArrival(s: Server, r: Request, reached: bool)
    requires Indexed(s) && DistinctIds(OnArrival(s, r, reached))
    ensures Indexed(OnArrival(s, r, reached))
  {
    var n := |s.arrived|;
    var t, d := s.(arrived := s.arrived + [r]), OnArrival(s, r, reached);
    IndexedAlike(s, t);
    if r.id.Some? && r.kind.Invoke? {
      NewIdIsNew(s, t, r);
      IndexedInvoke(t, d, n, r.id.value);
    } else {
      ArrivalAlike(s, r, reached);
      IndexedAlike(t, d);
    }
  }

  lemma NewIdIsNew(s: Server, t: Server, r: Request)
    requires Indexed(s) && t.arrived == s.arrived + [r] && DistinctIds(t) && r.id.Some?
    ensures r.id.value !in s.byId
  {
    forall id | id in s.byId ensures Some(id) != r.id {
      assert t.arrived[s.byId[id]].id == Some(id) && t.arrived[|s.arrived|] == r;
    }
  }

  lemma ArrivalAlike(s: Server, r: Request, reached: bool)
    requires !(r.id.Some? && r.kind.Invoke?)
    ensures
      var d := OnArrival(s, r, reached);
      d.arrived == s.arrived + [r] && d.byId == s.byId && d.tasks.Keys == s.tasks.Keys
  {
  }

  lemma IndexedLeave(s: Server, n: nat)
    requires Indexed(s) && n in s.tasks
    ensures Indexed(Leave(s, n))
  {
  }

  lemma StepAlike(s: Server, op: Op)
    requires op.Answer? || op.Drained? || op.Begins? || op.CallMoves? || op.TaskAnswer? || op.Lost?
    ensures
      var d := Step(s, op);
      d.arrived == s.arrived && d.byId == s.byId && d.tasks.Keys == s.tasks.Keys
  {
  }

  lemma IndexedStep(s: Server, op: Op)
    requires Indexed(s) && DistinctIds(Step(s, op))
    ensures Indexed(Step(s, op))
  {
    match op {
      case Arrive(r, reached) => if s.open && s.loop == Reading { IndexedArrival(s, r, reached); }
      case TaskDone(n) => if n in s.tasks { IndexedLeave(s, n); }
      case TaskDies(n) => if n in s.tasks { IndexedLeave(s, n); }
      case _ =>
        StepAlike(s, op);
        IndexedAlike(s, Step(s, op));
    }
  }

  lemma {:induction false} ArrivedGrows(s: Server, ops: seq<Op>)
    ensures s.arrived <= Run(s, ops).arrived
    decreases |ops|
  {
    if ops != [] { ArrivedGrows(Step(s, ops[0]), ops[1..]); }
  }

  lemma {:induction false} RunIndexed(s: Server, ops: seq<Op>)
    requires Indexed(s) && DistinctIds(Run(s, ops))
    ensures Indexed(Run(s, ops))
    decreases |ops|
  {
    if ops != [] {
      var d := Step(s, ops[0]);
      ArrivedGrows(d, ops[1..]);
      assert d.arrived == Run(s, ops).arrived[..|d.arrived|];
      IndexedStep(s, ops[0]);
      RunIndexed(d, ops[1..]);
    }
  }

  /** In every run in which ids are minted once, a cancel asks exactly the invoke under way that carries the
      id it names, if there is one, and nobody else; and it is itself answered by the loop. */
  lemma CancelReachesItsTarget(ops: seq<Op>, r: Request, reached: bool)
    requires var s := Run(INITIAL, ops); DistinctIds(s) && s.open && s.loop == Reading
    requires r.id.Some? && r.kind.CancelOf?
    ensures
      var s := Run(INITIAL, ops);
      var d := Step(s, Arrive(r, reached));
      && d.loop == Replying(|s.arrived|) && d.tasks.Keys == s.tasks.Keys
      && forall n :: n in s.tasks ==>
           n < |s.arrived| && d.tasks[n] ==
             if s.arrived[n].id == Some(r.kind.target) then CancelTask(s.tasks[n], reached) else s.tasks[n]
  {
    RunIndexed(INITIAL, ops);
  }

  /** What asking does to a task: one that runs its call passes the request on to it, one that has not begun
      or has not written yet writes nothing any more, and a reply being written is written. */
  lemma AskedExactly(s: Server, n: nat, reached: bool)
    requires RequestSound(s, n) && n in s.tasks
    ensures
      var d := Cancel(s, n, reached);
      && d.written == s.written && d.tasks.Keys == s.tasks.Keys
      && match s.tasks[n]
         case Calling(c) =>
           d.tasks[n] == Calling(Calls.Next(c, Calls.Strike(Calls.CancelRequested, reached))) && n in d.asked
         case _ => d.tasks[n].Silenced? && d.asked == s.asked && (s.tasks[n].Ready? ==> n in d.hushed)
  {
  }
}
