/** What becomes of each caller of the multiplexer, and why: a reply that arrives reaches it, it is
    turned away for four reasons only, and nobody else's op moves it
    (`hermes_device_plugin/transport/socket.py`). */
module TransportOutcomes {
  import opened Basics
  import opened Transport

  // ---- A reply that arrives reaches its caller ------------------------------------------------------

  ghost predicate Holds(c: Client, id: Id, r: Reply) {
    || (Phase(c, id).Awaiting? && id in c.futures && c.futures[id] == Some(r))
    || Phase(c, id) == Finished(r)
  }

  lemma HeldOn(c: Client, op: Op, id: Id, r: Reply)
    requires Holds(c, id, r) && op != Abandon(id)
    ensures Holds(Step(c, op), id, r)
  {
  }

  lemma {:induction false} HeldThrough(c: Client, ops: seq<Op>, id: Id, r: Reply)
    requires Holds(c, id, r) && Abandon(id) !in ops
    ensures Holds(Run(c, ops), id, r)
    decreases |ops|
  {
    if ops != [] {
      HeldOn(c, ops[0], id, r);
      HeldThrough(Step(c, ops[0]), ops[1..], id, r);
    }
  }

  /** A caller waits on a connection whose read loop runs, and a frame with its id is read there: then,
      whatever else happens before it resumes, that frame is what it is given. */
  lemma ArrivalReachesItsCaller(c: Client, id: Id, g: nat, body: string, ops: seq<Op>)
    requires Sound(c) && Waits(c, id, g) && g < |c.gens| && c.gens[g].loop == Running && Abandon(id) !in ops
    ensures Phase(Step(Run(Step(c, Arrive(g, id, body)), ops), Resume(id)), id) == Finished(Frame(id, body))
  {
    WaitsWhere(c, id, g);
    HeldThrough(Step(c, Arrive(g, id, body)), ops, id, Frame(id, body));
  }

  // ---- And it is turned away for four reasons only --------------------------------------------------

  ghost predicate Denied(c: Client, id: Id) {
    Phase(c, id) == Finished(Unavailable) || (id in c.futures && c.futures[id] == Some(Unavailable))
  }

  /** The backoff window, a failed connection attempt, a failed write, the end of its read loop. */
  predicate TurnsAway(c: Client, op: Op, id: Id) {
    match op
    case Enter(i, now) => i == id && c.current.None? && now < c.nextRetryAt
    case Opened(i, ok, _, _) => i == id && !ok && Is(c, id, Connecting)
    case Written(i, ok) => i == id && !ok && Phase(c, id).Writing?
    case LoopOver(g) => Under(c, g) && id in c.gens[g].pending
    case _ => false
  }

  predicate TurnedAway(c: Client, ops: seq<Op>, id: Id)
    decreases |ops|
  {
    ops != [] && (TurnsAway(c, ops[0], id) || TurnedAway(Step(c, ops[0]), ops[1..], id))
  }

  lemma DenialHasAReason(c: Client, op: Op, id: Id)
    requires !Denied(c, id) && Denied(Step(c, op), id)
    ensures TurnsAway(c, op, id)
  {
  }

  lemma {:induction false} UnavailableOnlyIf(c: Client, ops: seq<Op>, id: Id)
    requires !Denied(c, id) && Denied(Run(c, ops), id)
    ensures TurnedAway(c, ops, id)
    decreases |ops|
  {
    if ops != [] {
      if Denied(Step(c, ops[0]), id) { DenialHasAReason(c, ops[0], id); } else {
        UnavailableOnlyIf(Step(c, ops[0]), ops[1..], id);
      }
    }
  }

  /** In every run, a caller that is given `bridge_unavailable` was inside the backoff window with no
      connection, or its attempt to connect failed, or its write failed, or the read loop of its
      connection ended while it was registered. */
  lemma UnavailableHasAReason(ops: seq<Op>, id: Id)
    requires Phase(Run(INITIAL, ops), id) == Finished(Unavailable)
    ensures TurnedAway(INITIAL, ops, id)
  {
    UnavailableOnlyIf(INITIAL, ops, id);
  }

  // ---- Starting eagerly --------------------------------------------------------------------------------

  /** `start` takes the free lock, and with it nothing else; its attempt leaves a new open connection with
      nobody on it, or the window of a failed attempt; given up, it leaves all as it was; and in every
      case the lock is free again. */
  lemma StartExactly(c: Client, now: real, jitter: real)
    requires Sound(c) && c.lock.None?
    ensures
      var d, g := Step(c, Start), |c.gens|;
      var ready, failed := Step(d, StartOpened(true, now, jitter)), Step(d, StartOpened(false, now, jitter));
      && d.lock == Some(ByStart) && d.(lock := None) == c && Step(d, StartAbandoned) == c
      && ready.lock.None? && ready.current == Some(g) && |ready.gens| == g + 1
      && ready.gens[g] == Generation({}, Created) && ready.callers == c.callers && ready.futures == c.futures
      && failed.lock.None? && failed.current.None? && failed.gens == c.gens && failed.callers == c.callers
      && failed.nextRetryAt == now + c.backoff + jitter
  {
  }

  // ---- Getting in ---------------------------------------------------------------------------------------

  /** With the lock free a queued caller is registered on the open connection; with none open it
      connects, or is turned away while the window lasts. */
  lemma EntranceExactly(c: Client, id: Id, now: real)
    requires Sound(c) && Is(c, id, Queued) && c.lock.None?
    ensures
      var d := Step(c, Enter(id, now));
      match c.current
      case Some(g) => Phase(d, id) == Writing(g) && id in d.gens[g].pending && d.futures[id] == None
      case None => Phase(d, id) == if now < c.nextRetryAt then Finished(Unavailable) else Connecting
  {
  }

  /** A connection that opens is new, empty and the current one, its reader not yet started, and its
      caller writes on it. */
  lemma OpeningExactly(c: Client, id: Id, now: real, jitter: real)
    requires Sound(c) && Is(c, id, Connecting)
    ensures
      var g, d := |c.gens|, Step(c, Opened(id, true, now, jitter));
      && |d.gens| == g + 1 && d.gens[g] == Generation({id}, Created) && d.gens[..g] == c.gens
      && d.current == Some(g) && Phase(d, id) == Writing(g) && d.backoff == BACKOFF_INITIAL
  {
    var d := Step(c, Opened(id, true, now, jitter));
    assert {} + {id} == {id};
    assert d.gens[..|c.gens|] == c.gens;
  }

  /** Whose op it is: of all ops only one about a caller moves it, and only a frame with its id or the
      end of a read loop settles its future. */
  lemma NobodyElseMoves(c: Client, op: Op, id: Id)
    requires Sound(c)
    ensures Phase(Step(c, op), id) != Phase(c, id) ==> About(op, id)
    ensures id in c.futures ==>
              id in Step(c, op).futures
              && (Step(c, op).futures[id] != c.futures[id] ==> (op.Arrive? && op.corr == id) || op.LoopOver?)
  {
    assert IdSound(c, id);
    if !About(op, id) { OnlyItsOwnOp(c, op, id); }
    OnlySettledSo(c, op, id);
  }

  predicate About(op: Op, id: Id) {
    match op
    case Call(i) => i == id
    case Enter(i, _) => i == id
    case Opened(i, _, _, _) => i == id
    case Written(i, _) => i == id
    case Resume(i) => i == id
    case Abandon(i) => i == id
    case _ => false
  }

  lemma OnlyItsOwnOp(c: Client, op: Op, id: Id)
    requires !About(op, id)
    ensures Phase(Step(c, op), id) == Phase(c, id)
  {
  }

  lemma OnlySettledSo(c: Client, op: Op, id: Id)
    requires id in c.futures ==> Phase(c, id) !in {Queued, Connecting}
    ensures id in c.futures ==>
              id in Step(c, op).futures
              && (Step(c, op).futures[id] != c.futures[id] ==> (op.Arrive? && op.corr == id) || op.LoopOver?)
  {
  }

  /** A failed write leaves no trace of its caller in the dictionary, and no current connection. */
  lemma FailedWriteCleansUp(c: Client, id: Id)
    requires Sound(c) && Phase(c, id).Writing?
    ensures
      var g, d := Phase(c, id).gen, Step(c, Written(id, false));
      && Phase(d, id) == Finished(Unavailable) && d.current.None? && d.lock.None?
      && g < |d.gens| && id !in d.gens[g].pending
      && (c.gens[g].loop == Running ==> d.gens[g].loop == Cancelling)
  {
    assert IdSound(c, id);
  }

  // ---- No entry outlives its caller -------------------------------------------------------------------

  /** Whoever is in a dictionary is writing or waiting on that very connection, or was cancelled while
      it wrote: the one case in which the entry is left behind. */
  ghost predicate Owned(c: Client, id: Id) {
    forall g: nat :: g < |c.gens| && id in c.gens[g].pending ==>
      GenOf(Phase(c, id), g) || (id in c.callers && c.callers[id].Abandoned?)
  }

  lemma OwnedOn(c: Client, op: Op, id: Id)
    requires Sound(c) && Owned(c, id)
    ensures Owned(Step(c, op), id)
  {
    assert IdSound(c, id);
    match op {
      case Opened(_, _, _, _) => OwnedOpened(c, op, id);
      case Written(_, _) => OwnedWritten(c, op, id);
      case Enter(_, _) => OwnedEntered(c, op, id);
      case Arrive(_, _, _) => OwnedLess(c, op, id);
      case LoopOver(_) => OwnedLess(c, op, id);
      case Resume(_) => OwnedLess(c, op, id);
      case Abandon(_) => OwnedLess(c, op, id);
      case _ => OwnedAlike(c, op, id);
    }
  }

  lemma OwnedOpened(c: Client, op: Op, id: Id)
    requires IdSound(c, id) && Owned(c, id) && op.Opened?
    ensures Owned(Step(c, op), id)
  {
  }

  lemma OwnedEntered(c: Client, op: Op, id: Id)
    requires IdSound(c, id) && Owned(c, id) && op.Enter?
    ensures Owned(Step(c, op), id)
  {
  }

  lemma OwnedWritten(c: Client, op: Op, id: Id)
    requires Sound(c) && Owned(c, id) && op.Written?
    ensures Owned(Step(c, op), id)
  {
    assert IdSound(c, id) && IdSound(c, op.id);
    if op.id == id && Phase(c, id).Writing? && !op.ok { FailedWriteCleansUp(c, id); }
  }

  lemma OwnedLess(c: Client, op: Op, id: Id)
    requires IdSound(c, id) && Owned(c, id) && (op.Arrive? || op.LoopOver? || op.Resume? || op.Abandon?)
    ensures Owned(Step(c, op), id)
  {
    var d := Step(c, op);
    if op.Resume? && op.id == id && Phase(c, id).Awaiting? {
      assert id in c.futures && c.futures[id].Some? ==> forall g: nat :: g < |c.gens| ==> id !in c.gens[g].pending;
    }
    NothingAdded(c, op, id);
  }

  lemma NothingAdded(c: Client, op: Op, id: Id)
    requires op.Arrive? || op.LoopOver? || op.Resume? || op.Abandon?
    ensures |Step(c, op).gens| == |c.gens|
    ensures forall g: nat :: g < |c.gens| && id in Step(c, op).gens[g].pending ==> id in c.gens[g].pending
  {
  }

  lemma OwnedAlike(c: Client, op: Op, id: Id)
    requires IdSound(c, id) && Owned(c, id)
        && (op.Call? || op.Start? || op.StartOpened? || op.StartAbandoned? || op.CloseAll? || op.LoopStarts?)
    ensures Owned(Step(c, op), id)
  {
  }

  lemma {:induction false} EntriesAreOwned(c: Client, ops: seq<Op>, id: Id)
    requires Sound(c) && Owned(c, id)
    ensures Owned(Run(c, ops), id)
    decreases |ops|
  {
    if ops != [] {
      OwnedOn(c, ops[0], id);
      StepKeeps(c, ops[0]);
      EntriesAreOwned(Step(c, ops[0]), ops[1..], id);
    }
  }

  /** A caller cancelled while it waits takes its entry with it; one cancelled while it connects or writes
      lets go of the lock, and the latter is the one that leaves its entry behind. */
  lemma CancelledCallerLeaves(c: Client, id: Id)
    requires Sound(c) && Phase(c, id) != Abandoned && !Phase(c, id).Finished?
    ensures
      var d := Step(c, Abandon(id));
      && Phase(d, id) == Abandoned && d.lock == (if c.lock == Some(ByCaller(id)) then None else c.lock)
      && |d.gens| == |c.gens| && d.futures == c.futures
      && forall g: nat :: g < |d.gens| ==>
           d.gens[g].pending == c.gens[g].pending - (if Phase(c, id).Awaiting? then {id} else {})
  {
    assert IdSound(c, id);
  }

  // ---- The backoff -----------------------------------------------------------------------------------------

  /** A connection attempt ends with this op: did it succeed? */
  function Attempt(c: Client, op: Op): Option<bool> {
    match op
    case Opened(id, ok, _, _) => if Is(c, id, Connecting) then Some(ok) else None
    case StartOpened(ok, _, _) => if c.lock == Some(ByStart) then Some(ok) else None
    case _ => None
  }

  /** How many attempts have failed since the last one that succeeded. */
  function Streak(ops: seq<Op>): nat
    decreases |ops|
  {
    if ops == [] then 0
    else
      var before := ops[..|ops| - 1];
      match Attempt(Run(INITIAL, before), ops[|ops| - 1])
      case None => Streak(before)
      case Some(ok) => if ok then 0 else Streak(before) + 1
  }

  /** One second, doubled with every failure, half a minute at most. */
  function Delay(failures: nat): real {
    if failures == 0 then 1.0 else if 2.0 * Delay(failures - 1) < 30.0 then 2.0 * Delay(failures - 1) else 30.0
  }

  lemma {:induction false} RunOneMore(c: Client, ops: seq<Op>)
    requires ops != []
    ensures Run(c, ops) == Step(Run(c, ops[..|ops| - 1]), ops[|ops| - 1])
    decreases |ops|
  {
    var before := ops[..|ops| - 1];
    if before != [] {
      RunOneMore(Step(c, ops[0]), ops[1..]);
      assert ops[1..][..|ops| - 2] == before[1..];
    }
  }

  lemma BackoffStep(c: Client, op: Op)
    ensures
      var d := Step(c, op);
      match Attempt(c, op)
      case None => d.backoff == c.backoff
      case Some(true) => d.backoff == 1.0
      case Some(false) =>
        && d.backoff == (if 2.0 * c.backoff < 30.0 then 2.0 * c.backoff else 30.0)
        && d.nextRetryAt == op.now + c.backoff + op.jitter && d.current.None?
  {
  }

  /** The delay is told by the number of failures in a row, and nothing else. */
  lemma {:induction false} BackoffIsExact(ops: seq<Op>)
    ensures Run(INITIAL, ops).backoff == Delay(Streak(ops))
    decreases |ops|
  {
    if ops != [] {
      var before := ops[..|ops| - 1];
      BackoffIsExact(before);
      RunOneMore(INITIAL, ops);
      BackoffStep(Run(INITIAL, before), ops[|ops| - 1]);
    }
  }

  /** And after a failure the window lasts that long, and the jitter. */
  lemma WindowAfterFailure(ops: seq<Op>, op: Op)
    requires Attempt(Run(INITIAL, ops), op) == Some(false)
    ensures Run(INITIAL, ops + [op]).nextRetryAt == op.now + Delay(Streak(ops)) + op.jitter
    ensures Run(INITIAL, ops + [op]).current.None?
  {
    RunOneMore(INITIAL, ops + [op]);
    assert (ops + [op])[..|ops|] == ops;
    BackoffIsExact(ops);
    BackoffStep(Run(INITIAL, ops), op);
  }
}
