/** The client multiplexer (`hermes_device_plugin/transport/socket.py`): many callers, one connection
    at a time, one read loop and one pending dictionary per connection generation.  A step is what
    runs between two awaits; steps interleave freely.  A write on a connection that is gone may
    raise, or not: what then follows is part of what is proved. */
module Transport {
  import opened Basics

  /** A reply read from the wire, or the local `bridge_unavailable` error. */
  datatype Reply = Frame(corr: Id, body: string) | Unavailable

  /** A read loop's task exists from the connect on, but its code starts in a later turn of the event
      loop.  Cancelled before that it never runs at all, not even its `finally`. */
  datatype Loop = Created | Running | Cancelling | Ended

  /** A generation's number stands for the identity of its pending dictionary. */
  datatype Generation = Generation(pending: set<Id>, loop: Loop)

  datatype Caller = Queued | Connecting | Writing(gen: nat) | Awaiting(gen: nat) | Finished(reply: Reply) | Abandoned

  datatype Holder = ByCaller(id: Id) | ByStart

  const BACKOFF_INITIAL := 1.0
  const BACKOFF_MAX := 30.0

  datatype Event =
    | Registered(gen: nat, id: Id)
    | Received(gen: nat, corr: Id, body: string)
    | Over(gen: nat)          // the read loop's `finally` has run
    | Stillborn(gen: nat)     // the read loop was cancelled before its first turn

  /** `current` is the generation of the open writer, `reader` the one whose read loop `close` would
      cancel; `futures` is one write-once cell for each registered id; `log` is the history of the run. */
  datatype Client = Client(
    gens: seq<Generation>, current: Option<nat>, reader: Option<nat>, lock: Option<Holder>,
    callers: map<Id, Caller>, futures: map<Id, Option<Reply>>,
    backoff: real, nextRetryAt: real, log: seq<Event>)

  datatype Op =
    | Call(id: Id)                                             // `_roundtrip` is entered; ids are fresh
    | Enter(id: Id, now: real)                                 // it gets the lock
    | Opened(id: Id, ok: bool, now: real, jitter: real)        // its connection attempt ends
    | Start | StartOpened(ok: bool, now: real, jitter: real)   // `start`
    | StartAbandoned                                           // the task that runs `start` is cancelled
    | CloseAll                                                 // `close`
    | LoopStarts(gen: nat)                                     // the read loop's first turn
    | Written(id: Id, ok: bool)                                // its write and drain end
    | Arrive(gen: nat, corr: Id, body: string)                 // a well-formed frame is read
    | LoopOver(gen: nat)                                       // connection lost, or the cancellation lands
    | Resume(id: Id)                                           // its future is settled
    | Abandon(id: Id)                                          // its task is cancelled

  function SetGen(c: Client, g: nat, gen: Generation): Client
    requires g < |c.gens|
  {
    c.(gens := c.gens[g := gen])
  }

  function SetCaller(c: Client, id: Id, k: Caller): Client { c.(callers := c.callers[id := k]) }

  function Drop(c: Client, g: nat, id: Id): Client {
    if g < |c.gens| then SetGen(c, g, c.gens[g].(pending := c.gens[g].pending - {id})) else c
  }

  /** `_close_locked` */
  function Closed(c: Client): Client {
    var d := c.(current := None, reader := None);
    if c.reader.None? || c.reader.value >= |c.gens| then d
    else
      var g := c.reader.value;
      match c.gens[g].loop
      case Created => SetGen(d, g, c.gens[g].(loop := Ended)).(log := c.log + [Stillborn(g)])
      case Running => SetGen(d, g, c.gens[g].(loop := Cancelling))
      case _ => d
  }

  /** `_connect_locked`, once the attempt has ended. */
  function Connected(c: Client): Client {
    c.(gens := c.gens + [Generation({}, Created)], current := Some(|c.gens|), reader := Some(|c.gens|),
       backoff := BACKOFF_INITIAL)
  }

  function NotConnected(c: Client, now: real, jitter: real): Client {
    c.(current := None, nextRetryAt := now + c.backoff + jitter,
       backoff := if c.backoff * 2.0 < BACKOFF_MAX then c.backoff * 2.0 else BACKOFF_MAX)
  }

  /** The caller registers its future and starts to write, holding the lock. */
  function Register(c: Client, id: Id, g: nat): Client
    requires g < |c.gens|
  {
    SetCaller(SetGen(c, g, c.gens[g].(pending := c.gens[g].pending + {id})), id, Writing(g))
      .(lock := Some(ByCaller(id)), futures := c.futures[id := None], log := c.log + [Registered(g, id)])
  }

  function Finish(c: Client, id: Id, r: Reply): Client { SetCaller(c, id, Finished(r)) }

  function Settle(c: Client, id: Id, r: Reply): Client {
    if id in c.futures && c.futures[id].None? then c.(futures := c.futures[id := Some(r)]) else c
  }

  /** The read loop's `finally`: settle whatever is still registered here, then clear. */
  function EndLoop(c: Client, g: nat): Client
    requires g < |c.gens|
  {
    SetGen(c, g, Generation({}, Ended))
      .(futures := map id | id in c.futures ::
          if id in c.gens[g].pending && c.futures[id].None? then Some(Unavailable) else c.futures[id],
        log := c.log + [Over(g)])
  }

  predicate Is(c: Client, id: Id, k: Caller) { id in c.callers && c.callers[id] == k }

  function Phase(c: Client, id: Id): Caller { if id in c.callers then c.callers[id] else Abandoned }

  function Unlock(c: Client): Client { c.(lock := None) }

  /** The read loop has started and not ended. */
  predicate Under(c: Client, g: nat) { g < |c.gens| && c.gens[g].loop in {Running, Cancelling} }

  /** One step; an op that is not possible now changes nothing. */
  function Step(c: Client, op: Op): Client {
    match op
    case Call(id) => if id in c.callers then c else SetCaller(c, id, Queued)
    case Enter(id, now) =>
      if !Is(c, id, Queued) || c.lock.Some? then c
      else if c.current.Some? then if c.current.value < |c.gens| then Register(c, id, c.current.value) else c
      else if now < c.nextRetryAt then Finish(c, id, Unavailable)
      else SetCaller(c, id, Connecting).(lock := Some(ByCaller(id)))
    case Opened(id, ok, now, jitter) =>
      if !Is(c, id, Connecting) then c
      else if ok then Register(Connected(c), id, |c.gens|)
      else Unlock(Finish(NotConnected(c, now, jitter), id, Unavailable))
    case Start => if c.lock.Some? then c else c.(lock := Some(ByStart))
    case StartOpened(ok, now, jitter) =>
      if c.lock != Some(ByStart) then c
      else Unlock(if ok then Connected(c) else NotConnected(c, now, jitter))
    case StartAbandoned => if c.lock == Some(ByStart) then Unlock(c) else c
    case CloseAll => if c.lock.Some? then c else Closed(c)
    case LoopStarts(g) =>
      if g >= |c.gens| || c.gens[g].loop != Created then c else SetGen(c, g, c.gens[g].(loop := Running))
    case Written(id, ok) =>
      if !Phase(c, id).Writing? then c
      else if ok then Unlock(SetCaller(c, id, Awaiting(c.callers[id].gen)))
      else Unlock(Finish(Closed(Drop(c, c.callers[id].gen, id)), id, Unavailable))
    case Arrive(g, corr, body) =>
      if g >= |c.gens| || c.gens[g].loop != Running then c
      else if corr !in c.gens[g].pending then c.(log := c.log + [Received(g, corr, body)])
      else Settle(Drop(c, g, corr), corr, Frame(corr, body)).(log := c.log + [Received(g, corr, body)])
    case LoopOver(g) => if Under(c, g) then EndLoop(c, g) else c
    case Resume(id) =>
      if Phase(c, id).Awaiting? && id in c.futures && c.futures[id].Some?
      then Finish(Drop(c, c.callers[id].gen, id), id, c.futures[id].value) else c
    case Abandon(id) =>
      match Phase(c, id)
      case Queued => SetCaller(c, id, Abandoned)
      case Connecting => Unlock(SetCaller(c, id, Abandoned))
      case Writing(_) => Unlock(SetCaller(c, id, Abandoned))
      case Awaiting(g) => SetCaller(Drop(c, g, id), id, Abandoned)
      case _ => c
  }

  function Run(c: Client, ops: seq<Op>): Client
    decreases |ops|
  {
    if ops == [] then c else Run(Step(c, ops[0]), ops[1..])
  }

  const INITIAL := Client([], None, None, None, map[], map[], BACKOFF_INITIAL, 0.0, [])

  // ---- What every step keeps --------------------------------------------------------------------------

  /** The reply the caller of `id` may be given: read, after its registration, on the generation it
      registered on, with its own id. */
  ghost predicate Earned(log: seq<Event>, id: Id, r: Reply) {
    r.Frame? ==> r.corr == id && exists g, k :: ReceivedFor(log, g, k, id, r.body)
  }

  ghost predicate ReceivedFor(log: seq<Event>, g: nat, k: int, id: Id, body: string) {
    0 <= k < |log| && log[k] == Received(g, id, body) && Before(log, k, Registered(g, id))
  }

  /** It registered on a connection whose read loop was already over. */
  ghost predicate Late(log: seq<Event>, g: nat, id: Id) {
    exists k :: 0 <= k < |log| && log[k] == Registered(g, id) && Before(log, k, Over(g))
  }

  /** Nobody is going to settle it: it came too late, or the loop never started. */
  ghost predicate Unheard(log: seq<Event>, g: nat, id: Id) { Late(log, g, id) || Stillborn(g) in log }

  ghost predicate GenOf(k: Caller, g: nat) { k == Writing(g) || k == Awaiting(g) }

  /** What holds of one id. */
  ghost predicate IdSound(c: Client, id: Id) {
    && LockSound(c, id)
    && (id in c.futures ==> id in c.callers)
    && (Phase(c, id) in {Queued, Connecting} ==> id !in c.futures)
    && (forall g: nat :: GenOf(Phase(c, id), g) ==>
          && g < |c.gens| && id in c.futures && Registered(g, id) in c.log
          && (c.futures[id].None? ==> id in c.gens[g].pending))
    && (forall g: nat :: g < |c.gens| && id in c.gens[g].pending ==>
          id in c.futures && c.futures[id].None? && Registered(g, id) in c.log)
    && (forall g: nat :: g < |c.gens| && id in c.gens[g].pending && c.gens[g].loop == Ended ==>
          Unheard(c.log, g, id))
    && (id in c.futures && c.futures[id].Some? ==> Earned(c.log, id, c.futures[id].value))
    && (Phase(c, id).Finished? ==> Earned(c.log, id, Phase(c, id).reply))
    && (id !in c.futures ==> forall g: nat :: Registered(g, id) !in c.log)
    && (forall g: nat, h: nat :: Registered(g, id) in c.log && Registered(h, id) in c.log ==> g == h)
  }

  /** What holds of one generation. */
  ghost predicate GenSound(c: Client, g: nat) {
    Over(g) in c.log || Stillborn(g) in c.log <==> g < |c.gens| && c.gens[g].loop == Ended
  }

  ghost predicate CurrentSound(c: Client) {
    c.current.Some? ==> c.current.value < |c.gens| && c.reader == c.current && Stillborn(c.current.value) !in c.log
  }

  ghost predicate Sound(c: Client) {
    && CurrentSound(c)
    && (forall g: nat :: GenSound(c, g))
    && BACKOFF_INITIAL <= c.backoff <= BACKOFF_MAX
    && forall id :: IdSound(c, id)
  }

  lemma EarnedGrows(log: seq<Event>, more: seq<Event>, id: Id, r: Reply)
    requires Earned(log, id, r)
    ensures Earned(log + more, id, r)
  {
    if r.Frame? {
      var g, k :| ReceivedFor(log, g, k, id, r.body);
      BeforeExtends(log, more, k, Registered(g, id));
      assert ReceivedFor(log + more, g, k, id, r.body);
    }
  }

  lemma LateGrows(log: seq<Event>, more: seq<Event>, g: nat, id: Id)
    requires Late(log, g, id)
    ensures Late(log + more, g, id)
  {
    var k :| 0 <= k < |log| && log[k] == Registered(g, id) && Before(log, k, Over(g));
    BeforeExtends(log, more, k, Over(g));
    assert (log + more)[k] == Registered(g, id);
  }

  /** The lock is held by whoever is connecting or writing, on the current generation. */
  ghost predicate LockSound(c: Client, id: Id) {
    && (c.lock == Some(ByCaller(id)) <==> Phase(c, id).Connecting? || Phase(c, id).Writing?)
    && (Phase(c, id).Writing? ==> c.current == Some(Phase(c, id).gen))
  }

  ghost predicate SamePending(c: Client, d: Client, id: Id) {
    && |c.gens| <= |d.gens|
    && (forall g: nat :: g < |d.gens| ==> (id in d.gens[g].pending <==> g < |c.gens| && id in c.gens[g].pending))
    && (forall g: nat :: g < |d.gens| && id in d.gens[g].pending && d.gens[g].loop == Ended ==>
          c.gens[g].loop == Ended || Stillborn(g) in d.log)
  }

  ghost predicate Silent(events: seq<Event>, id: Id) {
    forall g: nat :: Registered(g, id) !in events
  }

  ghost predicate Untouched(c: Client, d: Client, id: Id) {
    (id in d.futures <==> id in c.futures) && (id in c.futures ==> d.futures[id] == c.futures[id])
  }

  lemma StillSound(c: Client, d: Client, id: Id, more: seq<Event>)
    requires IdSound(c, id) && LockSound(d, id)
    requires d.log == c.log + more && Silent(more, id)
    requires (id in d.callers <==> id in c.callers) && Phase(d, id) == Phase(c, id)
    requires Untouched(c, d, id) && SamePending(c, d, id)
    ensures IdSound(d, id)
  {
    forall g: nat ensures Registered(g, id) in d.log <==> Registered(g, id) in c.log {
    }
    if id in c.futures && c.futures[id].Some? { EarnedGrows(c.log, more, id, c.futures[id].value); }
    if Phase(c, id).Finished? { EarnedGrows(c.log, more, id, Phase(c, id).reply); }
    forall g: nat | g < |d.gens| && id in d.gens[g].pending && d.gens[g].loop == Ended ensures Unheard(d.log, g, id) {
      if Late(c.log, g, id) { LateGrows(c.log, more, g, id); }
    }
  }

  /** Registering: on a generation that exists, for an id never registered before. */
  lemma RegisterKeeps(c: Client, id: Id, g: nat, other: Id)
    requires Sound(c) && g < |c.gens| && c.current == Some(g) && id in c.callers && Phase(c, id) in {Queued, Connecting}
    requires c.lock == None || c.lock == Some(ByCaller(id))
    ensures IdSound(Register(c, id, g), other)
  {
    var d, more := Register(c, id, g), [Registered(g, id)];
    assert IdSound(c, id) && IdSound(c, other);
    if other == id {
      assert Registered(g, id) in more;
      forall h: nat ensures Registered(h, id) in d.log <==> h == g {
        assert Registered(h, id) !in c.log;
      }
      assert GenSound(c, g);
      if Over(g) in c.log {
        MemberIsBefore(c.log, |c.log|, Over(g));
        BeforeExtends(c.log, more, |c.log|, Over(g));
        assert d.log[|c.log|] == Registered(g, id);
      }
    } else {
      StillSound(c, d, other, more);
    }
  }

  lemma ConnectedKeeps(c: Client, id: Id)
    requires Sound(c) && !Phase(c, id).Writing?
    ensures IdSound(Connected(c), id)
  {
    assert IdSound(c, id);
    assert c.log + [] == c.log;
    StillSound(c, Connected(c), id, []);
  }

  lemma ConnectedSound(c: Client)
    requires Sound(c) && forall id :: !Phase(c, id).Writing?
    ensures Sound(Connected(c))
  {
    forall id ensures IdSound(Connected(c), id) { ConnectedKeeps(c, id); }
    forall g: nat ensures GenSound(Connected(c), g) { assert GenSound(c, g); }
    assert GenSound(c, |c.gens|);
  }

  /** Entering, and getting the lock. */
  lemma AdmissionKeeps(c: Client, op: Op, other: Id)
    requires Sound(c) && (op.Call? || op.Enter?)
    ensures IdSound(Step(c, op), other)
  {
    var d := Step(c, op);
    assert IdSound(c, other) && c.log + [] == c.log;
    if op.Enter? && Is(c, op.id, Queued) && c.lock.None? && c.current.Some? {
      RegisterKeeps(c, op.id, c.current.value, other);
    } else if op.id != other {
      StillSound(c, d, other, []);
    }
  }

  lemma ConnectionKeeps(c: Client, op: Op, other: Id)
    requires Sound(c) && (op.Start? || op.StartOpened? || op.StartAbandoned? || op.CloseAll? || op.LoopStarts?)
    ensures IdSound(Step(c, op), other)
  {
    assert IdSound(c, other);
    LogShape(c, op);
    StillSound(c, Step(c, op), other, NewEvents(c, op));
  }

  lemma OpenedKeeps(c: Client, op: Op, other: Id)
    requires Sound(c) && op.Opened?
    ensures IdSound(Step(c, op), other)
  {
    assert IdSound(c, other) && IdSound(c, op.id) && c.log + [] == c.log;
    if Is(c, op.id, Connecting) {
      forall id ensures !Phase(c, id).Writing? { assert IdSound(c, id); }
      if op.ok {
        ConnectedSound(c);
        RegisterKeeps(Connected(c), op.id, |c.gens|, other);
      } else if other != op.id {
        StillSound(c, Step(c, op), other, []);
      }
    }
  }

  lemma WrittenKeeps(c: Client, op: Op, other: Id)
    requires Sound(c) && op.Written?
    ensures IdSound(Step(c, op), other)
  {
    assert IdSound(c, other) && IdSound(c, op.id);
    LogShape(c, op);
    if Phase(c, op.id).Writing? {
      if other != op.id {
        StillSound(c, Step(c, op), other, NewEvents(c, op));
      } else {
        WriterKeeps(c, op);
      }
    }
  }

  /** The writer itself: it waits now, or it has been dropped and answered. */
  lemma WriterKeeps(c: Client, op: Op)
    requires Sound(c) && op.Written? && Phase(c, op.id).Writing?
    ensures IdSound(Step(c, op), op.id)
  {
    assert IdSound(c, op.id);
    LogShape(c, op);
    var d, more := Step(c, op), NewEvents(c, op);
    forall g: nat ensures Registered(g, op.id) in d.log <==> Registered(g, op.id) in c.log { }
    if op.ok { assert d.log == c.log; }
    if op.id in c.futures && c.futures[op.id].Some? { EarnedGrows(c.log, more, op.id, c.futures[op.id].value); }
  }

  lemma ArriveKeeps(c: Client, op: Op, other: Id)
    requires Sound(c) && op.Arrive?
    ensures IdSound(Step(c, op), other)
  {
    assert IdSound(c, other);
    var d, more := Step(c, op), [Received(op.gen, op.corr, op.body)];
    if op.gen < |c.gens| && c.gens[op.gen].loop == Running {
      if op.corr == other && other in c.gens[op.gen].pending {
        MemberIsBefore(c.log, |c.log|, Registered(op.gen, other));
        BeforeExtends(c.log, more, |c.log|, Registered(op.gen, other));
        assert ReceivedFor(d.log, op.gen, |c.log|, other, op.body);
        if Phase(c, other).Finished? { EarnedGrows(c.log, more, other, Phase(c, other).reply); }
        forall g: nat ensures Registered(g, other) in d.log <==> Registered(g, other) in c.log { }
      } else {
        StillSound(c, d, other, more);
      }
    }
  }

  lemma LoopOverKeeps(c: Client, op: Op, other: Id)
    requires Sound(c) && op.LoopOver?
    ensures IdSound(Step(c, op), other)
  {
    assert IdSound(c, other);
    var d, more := Step(c, op), [Over(op.gen)];
    if Under(c, op.gen) {
      if other in c.gens[op.gen].pending {
        forall g: nat ensures Registered(g, other) in d.log <==> Registered(g, other) in c.log { }
        if Phase(c, other).Finished? { EarnedGrows(c.log, more, other, Phase(c, other).reply); }
      } else {
        StillSound(c, d, other, more);
      }
    }
  }

  lemma ResumeKeeps(c: Client, op: Op, other: Id)
    requires Sound(c) && op.Resume?
    ensures IdSound(Step(c, op), other)
  {
    assert IdSound(c, other) && IdSound(c, op.id) && c.log + [] == c.log;
    if other != op.id { StillSound(c, Step(c, op), other, []); }
  }

  lemma AbandonKeeps(c: Client, op: Op, other: Id)
    requires Sound(c) && op.Abandon?
    ensures IdSound(Step(c, op), other)
  {
    assert IdSound(c, other) && IdSound(c, op.id) && c.log + [] == c.log;
    if other != op.id { StillSound(c, Step(c, op), other, []); }
  }

  lemma StepKeeps(c: Client, op: Op)
    requires Sound(c)
    ensures Sound(Step(c, op)) && c.log <= Step(c, op).log
  {
    forall id ensures IdSound(Step(c, op), id) {
      assert IdSound(c, id);
      match op {
        case Opened(_, _, _, _) => OpenedKeeps(c, op, id);
        case Written(_, _) => WrittenKeeps(c, op, id);
        case Arrive(_, _, _) => ArriveKeeps(c, op, id);
        case LoopOver(_) => LoopOverKeeps(c, op, id);
        case Resume(_) => ResumeKeeps(c, op, id);
        case Abandon(_) => AbandonKeeps(c, op, id);
        case Call(_) => AdmissionKeeps(c, op, id);
        case Enter(_, _) => AdmissionKeeps(c, op, id);
        case _ => ConnectionKeeps(c, op, id);
      }
    }
    forall g: nat ensures GenSound(Step(c, op), g) { GenerationKept(c, op, g); }
    CurrentKept(c, op);
    BackoffKept(c, op);
    LogShape(c, op);
  }

  /** What a step appends to the history. */
  function NewEvents(c: Client, op: Op): seq<Event> {
    match op
    case Enter(id, _) =>
      if Is(c, id, Queued) && c.lock.None? && c.current.Some? && c.current.value < |c.gens|
      then [Registered(c.current.value, id)] else []
    case Opened(id, ok, _, _) => if Is(c, id, Connecting) && ok then [Registered(|c.gens|, id)] else []
    case Arrive(g, corr, body) => if g < |c.gens| && c.gens[g].loop == Running then [Received(g, corr, body)] else []
    case LoopOver(g) => if Under(c, g) then [Over(g)] else []
    case CloseAll => if c.lock.None? then ClosingEvents(c) else []
    case Written(id, ok) => if Phase(c, id).Writing? && !ok then ClosingEvents(c) else []
    case _ => []
  }

  /** The reader `close` would cancel has not had its first turn. */
  predicate Unstarted(c: Client) {
    c.reader.Some? && c.reader.value < |c.gens| && c.gens[c.reader.value].loop == Created
  }

  function ClosingEvents(c: Client): seq<Event> { if Unstarted(c) then [Stillborn(c.reader.value)] else [] }

  lemma LogShape(c: Client, op: Op)
    ensures Step(c, op).log == c.log + NewEvents(c, op)
  {
    assert c.log + [] == c.log;
  }

  /** The ops that touch neither the connection nor a read loop. */
  predicate Aside(op: Op) {
    op.Call? || op.Enter? || op.Start? || op.StartAbandoned? || op.Arrive? || op.Resume? || op.Abandon?
  }

  lemma AsideKeeps(c: Client, op: Op)
    requires Sound(c) && Aside(op)
    ensures Step(c, op).current == c.current && Step(c, op).reader == c.reader && |Step(c, op).gens| == |c.gens|
    ensures forall g :: 0 <= g < |c.gens| ==> Step(c, op).gens[g].loop == c.gens[g].loop
    ensures forall e :: e in NewEvents(c, op) ==> e.Registered? || e.Received?
  {
  }

  lemma ClosedKeeps(c: Client, g: nat)
    requires GenSound(c, g)
    ensures GenSound(Closed(c), g) && Closed(c).current == None
  {
  }

  lemma GenerationKept(c: Client, op: Op, g: nat)
    requires Sound(c)
    ensures GenSound(Step(c, op), g)
  {
    assert GenSound(c, g);
    match op {
      case CloseAll => ClosedKeeps(c, g);
      case Written(id, _) =>
        assert IdSound(c, id);
        if Phase(c, id).Writing? { ClosedKeeps(Drop(c, c.callers[id].gen, id), g); }
      case _ =>
        LogShape(c, op);
        if Aside(op) { AsideKeeps(c, op); }
    }
  }

  lemma CurrentKept(c: Client, op: Op)
    requires Sound(c)
    ensures CurrentSound(Step(c, op))
  {
    match op {
      case CloseAll => ClosedKeeps(c, |c.gens|);
      case Written(id, _) =>
        assert GenSound(c, |c.gens|);
        if Phase(c, id).Writing? { ClosedKeeps(Drop(c, c.callers[id].gen, id), |c.gens|); }
      case _ =>
        LogShape(c, op);
        assert GenSound(c, |c.gens|);
        if Aside(op) { AsideKeeps(c, op); }
    }
  }

  lemma BackoffKept(c: Client, op: Op)
    requires Sound(c)
    ensures BACKOFF_INITIAL <= Step(c, op).backoff <= BACKOFF_MAX
  {
  }

  lemma {:induction false} RunKeeps(c: Client, ops: seq<Op>)
    requires Sound(c)
    ensures Sound(Run(c, ops))
    decreases |ops|
  {
    if ops != [] {
      StepKeeps(c, ops[0]);
      RunKeeps(Step(c, ops[0]), ops[1..]);
    }
  }

  // ---- Main results ---------------------------------------------------------------------------------------

  /** In every run a caller is given `bridge_unavailable`, or a frame that carried its own id, read
      after its request was registered on the one generation it ever registered on. */
  lemma OnlyOwnReply(ops: seq<Op>, id: Id)
    requires Phase(Run(INITIAL, ops), id).Finished?
    ensures
      var c := Run(INITIAL, ops);
      var r := Phase(c, id).reply;
      && (r.Frame? ==> r.corr == id && exists g, k :: ReceivedFor(c.log, g, k, id, r.body))
      && forall g: nat, h: nat :: Registered(g, id) in c.log && Registered(h, id) in c.log ==> g == h
  {
    RunKeeps(INITIAL, ops);
    assert IdSound(Run(INITIAL, ops), id);
  }

  /** When a read loop that had started ends, it settles exactly the futures then registered on its own
      connection; one cancelled before its first turn settles none.  Either way every other
      generation, newer ones above all, stays as it was. */
  lemma LoopEndSettlesExactly(c: Client, op: Op, g: nat)
    requires Sound(c) && g < |c.gens| && c.gens[g].loop != Ended && Step(c, op).gens[g].loop == Ended
    ensures
      var d := Step(c, op);
      && (forall h :: 0 <= h < |c.gens| && h != g ==> d.gens[h] == c.gens[h])
      && d.futures.Keys == c.futures.Keys
      && if c.gens[g].loop == Created then
           && Stillborn(g) in d.log && d.futures == c.futures && d.gens[g].pending <= c.gens[g].pending
         else
           && op == LoopOver(g) && Over(g) in d.log && d.gens[g].pending == {}
           && (forall id :: id in c.gens[g].pending ==> id in d.futures && d.futures[id] == Some(Unavailable))
           && (forall id :: id in c.futures && id !in c.gens[g].pending ==> d.futures[id] == c.futures[id])
  {
    if op.Written? { assert IdSound(c, op.id); }
    forall id | id in c.gens[g].pending ensures id in c.futures && c.futures[id].None? {
      assert IdSound(c, id);
    }
  }

  ghost predicate Waits(c: Client, id: Id, g: nat) {
    Phase(c, id) == Awaiting(g) && id in c.futures && c.futures[id].None?
  }

  /** No run releases it: only its own task's cancellation ends the wait. */
  ghost predicate BeyondRelease(c: Client, id: Id, g: nat) {
    forall ops :: Abandon(id) !in ops ==> Waits(Run(c, ops), id, g)
  }

  lemma WaitsWhere(c: Client, id: Id, g: nat)
    requires Sound(c) && Waits(c, id, g)
    ensures g < |c.gens| && id in c.gens[g].pending
    ensures Unheard(c.log, g, id) <==> c.gens[g].loop == Ended
  {
    assert IdSound(c, id) && GenSound(c, g);
    assert GenOf(Phase(c, id), g) && id in c.gens[g].pending;
    assert Late(c.log, g, id) ==> Over(g) in c.log;
  }

  /** A waiting caller is beyond release exactly when it registered after its read loop was over, and
      its write succeeded all the same, or that loop was cancelled before its first turn. */
  lemma HangsExactly(c: Client, id: Id, g: nat)
    requires Sound(c) && Waits(c, id, g)
    ensures BeyondRelease(c, id, g) <==> Late(c.log, g, id) || Stillborn(g) in c.log
  {
    WaitsWhere(c, id, g);
    if Unheard(c.log, g, id) {
      forall ops | Abandon(id) !in ops ensures Waits(Run(c, ops), id, g) {
        UnheardIsStuck(c, ops, id, g);
      }
    } else {
      ReleasedByItsLoop(c, id, g);
      var ops := Release(id, g);
      assert Abandon(id) !in ops && !Waits(Run(c, ops), id, g);
    }
  }

  /** The read loop runs, ends, and its caller resumes. */
  function Release(id: Id, g: nat): seq<Op> { [LoopStarts(g), LoopOver(g), Resume(id)] }

  lemma ReleasedByItsLoop(c: Client, id: Id, g: nat)
    requires Sound(c) && Waits(c, id, g) && !Unheard(c.log, g, id)
    ensures Phase(Run(c, Release(id, g)), id) == Finished(Unavailable)
  {
    WaitsWhere(c, id, g);
    var c1 := Step(c, LoopStarts(g));
    var c2 := Step(c1, LoopOver(g));
    assert Under(c1, g) && c2.futures[id] == Some(Unavailable);
    assert Run(c2, [Resume(id)]) == Step(c2, Resume(id));
    assert Run(c1, [LoopOver(g), Resume(id)]) == Run(c2, [Resume(id)]);
    assert Release(id, g)[1..] == [LoopOver(g), Resume(id)];
  }

  /** Such a caller stays stuck, whatever happens, until its own task is cancelled: if it came late,
      and if its read loop never had a turn. */
  lemma {:induction false} UnheardIsStuck(c: Client, ops: seq<Op>, id: Id, g: nat)
    requires Sound(c) && Waits(c, id, g) && Unheard(c.log, g, id) && Abandon(id) !in ops
    ensures Waits(Run(c, ops), id, g)
    decreases |ops|
  {
    if ops != [] {
      var d := Step(c, ops[0]);
      WaitsWhere(c, id, g);
      forall h | 0 <= h < |c.gens| && h != g ensures id !in c.gens[h].pending { PendingNowhereElse(c, id, g, h); }
      StuckStep(c, ops[0], id, g);
      StepKeeps(c, ops[0]);
      assert d.log == c.log + d.log[|c.log|..];
      if Late(c.log, g, id) { LateGrows(c.log, d.log[|c.log|..], g, id); }
      UnheardIsStuck(d, ops[1..], id, g);
    }
  }

  lemma StuckStep(c: Client, op: Op, id: Id, g: nat)
    requires Waits(c, id, g) && g < |c.gens| && c.gens[g].loop == Ended && op != Abandon(id)
    requires forall h :: 0 <= h < |c.gens| && h != g ==> id !in c.gens[h].pending
    ensures Waits(Step(c, op), id, g)
  {
  }

  lemma PendingNowhereElse(c: Client, id: Id, g: nat, h: nat)
    requires Sound(c) && Waits(c, id, g) && h < |c.gens| && h != g
    ensures id !in c.gens[h].pending
  {
    assert IdSound(c, id) && GenOf(Phase(c, id), g);
  }

  // ---- Two ways to hang, and none other -----------------------------------------------------------------

  /** The state `_close_locked` runs in, when this op runs it. */
  function Closing(c: Client, op: Op): Option<Client> {
    match op
    case CloseAll => if c.lock.None? then Some(c) else None
    case Written(id, ok) => if Phase(c, id).Writing? && !ok then Some(Drop(c, c.callers[id].gen, id)) else None
    case _ => None
  }

  /** It closes although the reader task has not started and somebody is still registered with it:
      both are for the closer to see. */
  predicate ClosesTooEarly(c: Client, op: Op) {
    var at := Closing(c, op);
    at.Some? && Unstarted(at.value) && at.value.gens[at.value.reader.value].pending != {}
  }

  /** The write succeeds although the read loop was over before it began. */
  ghost predicate WritesTooLate(c: Client, op: Op) {
    op.Written? && op.ok && Phase(c, op.id).Writing? && Late(c.log, Phase(c, op.id).gen, op.id)
  }

  /** Writes on a lost connection raise, and nobody closes too early. */
  ghost predicate Careful(c: Client, ops: seq<Op>)
    decreases |ops|
  {
    ops != [] ==> !WritesTooLate(c, ops[0]) && !ClosesTooEarly(c, ops[0]) && Careful(Step(c, ops[0]), ops[1..])
  }

  ghost predicate AllHeard(c: Client) {
    forall id, g: nat :: Waits(c, id, g) ==> !Unheard(c.log, g, id)
  }

  /** Under those two premises nobody ever hangs: each caller that waits is released at the latest by
      its connection's read loop. */
  lemma {:induction false} NobodyHangs(c: Client, ops: seq<Op>, id: Id, g: nat)
    requires Sound(c) && AllHeard(c) && Careful(c, ops) && Waits(Run(c, ops), id, g)
    ensures Phase(Run(Run(c, ops), Release(id, g)), id) == Finished(Unavailable) && !BeyondRelease(Run(c, ops), id, g)
    decreases |ops|
  {
    if ops == [] {
      HangsExactly(c, id, g);
      ReleasedByItsLoop(c, id, g);
    } else {
      StepKeeps(c, ops[0]);
      forall i, h: nat | Waits(Step(c, ops[0]), i, h) ensures !Unheard(Step(c, ops[0]).log, h, i) {
        StaysHeard(c, ops[0], i, h);
      }
      NobodyHangs(Step(c, ops[0]), ops[1..], id, g);
    }
  }

  lemma StaysHeard(c: Client, op: Op, id: Id, g: nat)
    requires Sound(c) && AllHeard(c) && Waits(Step(c, op), id, g) && !WritesTooLate(c, op) && !ClosesTooEarly(c, op)
    ensures !Unheard(Step(c, op).log, g, id)
  {
    WaitedBefore(c, op, id, g);
    LogShape(c, op);
    var d := Step(c, op);
    forall k | 0 <= k < |d.log| && d.log[k] == Registered(g, id) ensures !Before(d.log, k, Over(g)) {
      assert c.log[k] == Registered(g, id) && !Before(c.log, k, Over(g));
    }
    NotStillborn(c, op, id, g);
  }

  lemma NotStillborn(c: Client, op: Op, id: Id, g: nat)
    requires Sound(c) && AllHeard(c) && Waits(Step(c, op), id, g) && !ClosesTooEarly(c, op)
    ensures Stillborn(g) !in Step(c, op).log
  {
    WaitedBefore(c, op, id, g);
    LogShape(c, op);
    assert IdSound(c, id) && GenOf(Phase(c, id), g);
    var at := Closing(c, op);
    if at.Some? {
      if op.Written? { assert IdSound(c, op.id) && op.id != id; }
      assert Waits(c, id, g) && id in at.value.gens[g].pending;
    }
  }

  lemma WaitedBefore(c: Client, op: Op, id: Id, g: nat)
    requires Sound(c) && Waits(Step(c, op), id, g)
    ensures Waits(c, id, g) || (op == Written(id, true) && Phase(c, id) == Writing(g))
    ensures Phase(c, id) !in {Queued, Connecting}
  {
    assert IdSound(c, id);
    if op.Opened? || op.Enter? { assert IdSound(c, op.id); }
  }

  /** Each premise is needed.  From any state with an idle open connection: its read loop ends, and the
      write of the next call still succeeds. */
  lemma AWriteAfterTheEnd(c: Client, id: Id, g: nat, now: real)
    requires Sound(c) && c.current == Some(g) && Under(c, g) && c.lock.None? && id !in c.callers
    ensures var d := Step(Step(Step(Step(c, LoopOver(g)), Call(id)), Enter(id, now)), Written(id, true));
            Waits(d, id, g) && Late(d.log, g, id) && BeyondRelease(d, id, g)
  {
    var d0 := Step(c, LoopOver(g));
    var d1 := Step(d0, Call(id));
    var d2 := Step(d1, Enter(id, now));
    var d := Step(d2, Written(id, true));
    assert IdSound(c, id);
    assert d1.log[|c.log|] == Over(g);
    assert d.log == d1.log + [Registered(g, id)];
    MemberIsBefore(d1.log, |d1.log|, Over(g));
    BeforeExtends(d1.log, [Registered(g, id)], |d1.log|, Over(g));
    assert d.log[|d1.log|] == Registered(g, id);
    StepKeeps(c, LoopOver(g));
    StepKeeps(d0, Call(id));
    StepKeeps(d1, Enter(id, now));
    StepKeeps(d2, Written(id, true));
    HangsExactly(d, id, g);
  }

  /** And from any state with a caller about to be connected: connecting, registering and writing take
      one turn, and a `close` that is next in line takes the lock before the reader's first turn. */
  lemma AClosureBeforeTheFirstTurn(c: Client, id: Id, now: real, jitter: real)
    requires Sound(c) && Is(c, id, Connecting)
    ensures var g := |c.gens|;
            var c1 := Step(c, Opened(id, true, now, jitter));
            var c2 := Step(c1, Written(id, true));
            var d := Step(c2, CloseAll);
            && Waits(d, id, g) && !Late(d.log, g, id) && Stillborn(g) in d.log && BeyondRelease(d, id, g)
            && !WritesTooLate(c1, Written(id, true)) && ClosesTooEarly(c2, CloseAll)
  {
    var g := |c.gens|;
    var c1 := Step(c, Opened(id, true, now, jitter));
    var c2 := Step(c1, Written(id, true));
    var d := Step(c2, CloseAll);
    assert IdSound(c, id) && GenSound(c, g);
    assert c1.log == c.log + [Registered(g, id)] && c2.log == c1.log && d.log == c2.log + [Stillborn(g)];
    assert Over(g) !in d.log;
    StepKeeps(c, Opened(id, true, now, jitter));
    StepKeeps(c1, Written(id, true));
    StepKeeps(c2, CloseAll);
    HangsExactly(d, id, g);
  }

  // ---- The transport itself ----------------------------------------------------------------------------------

  /** `SocketTransport`, one method for each stretch of code between two awaits. */
  class SocketTransport {
    var gens: seq<Generation>
    var current: Option<nat>
    var reader: Option<nat>
    var lock: Option<Holder>
    var callers: map<Id, Caller>
    var futures: map<Id, Option<Reply>>
    var backoff: real
    var nextRetryAt: real
    ghost var log: seq<Event>

    ghost function Contents(): Client
      reads this
    {
      Client(gens, current, reader, lock, callers, futures, backoff, nextRetryAt, log)
    }

    constructor ()
      ensures Contents() == INITIAL
    {
      gens, current, reader, lock, callers, futures := [], None, None, None, map[], map[];
      backoff, nextRetryAt, log := BACKOFF_INITIAL, 0.0, [];
    }

    /** `_roundtrip` from the lock to the first await under it: the write, or the connect. */
    method BeginRoundtrip(id: Id, now: real)
      requires Is(Contents(), id, Queued) && lock.None? && (current.Some? ==> current.value < |gens|)
      modifies this
      ensures Contents() == Step(old(Contents()), Enter(id, now))
    {
      if current.None? {
        if now < nextRetryAt {
          callers := callers[id := Finished(Unavailable)];
          return;
        }
        lock, callers := Some(ByCaller(id)), callers[id := Connecting];
        return;
      }
      RegisterFuture(id, current.value);
    }

    method RegisterFuture(id: Id, g: nat)
      requires g < |gens|
      modifies this
      ensures Contents() == Register(old(Contents()), id, g)
    {
      lock := Some(ByCaller(id));
      futures := futures[id := None];
      gens := gens[g := gens[g].(pending := gens[g].pending + {id})];
      callers := callers[id := Writing(g)];
      log := log + [Registered(g, id)];
    }

    /** What `_connect_locked` does with the outcome of `open_unix_connection`. */
    method ConnectLocked(ok: bool, now: real, jitter: real)
      modifies this
      ensures Contents() == if ok then Connected(old(Contents())) else NotConnected(old(Contents()), now, jitter)
    {
      if !ok {
        current := None;
        nextRetryAt := now + backoff + jitter;
        backoff := if backoff * 2.0 < BACKOFF_MAX then backoff * 2.0 else BACKOFF_MAX;
        return;
      }
      backoff := BACKOFF_INITIAL;
      current, reader := Some(|gens|), Some(|gens|);
      gens := gens + [Generation({}, Created)];
    }

    method ContinueConnected(id: Id, ok: bool, now: real, jitter: real)
      requires Is(Contents(), id, Connecting)
      modifies this
      ensures Contents() == Step(old(Contents()), Opened(id, ok, now, jitter))
    {
      ConnectLocked(ok, now, jitter);
      if !ok {
        callers, lock := callers[id := Finished(Unavailable)], None;
        return;
      }
      RegisterFuture(id, |gens| - 1);
    }

    method CloseLocked()
      modifies this
      ensures Contents() == Closed(old(Contents()))
    {
      if reader.Some? && reader.value < |gens| {
        var g := reader.value;
        if gens[g].loop == Created {
          gens := gens[g := gens[g].(loop := Ended)];
          log := log + [Stillborn(g)];
        } else if gens[g].loop == Running {
          gens := gens[g := gens[g].(loop := Cancelling)];
        }
      }
      reader, current := None, None;
    }

    /** `_read_loop` up to its first await. */
    method BeginReadLoop(g: nat)
      requires g < |gens| && gens[g].loop == Created
      modifies this
      ensures Contents() == Step(old(Contents()), LoopStarts(g))
    {
      gens := gens[g := gens[g].(loop := Running)];
    }

    method FinishWrite(id: Id, ok: bool)
      requires Phase(Contents(), id).Writing? && callers[id].gen < |gens|
      modifies this
      ensures Contents() == Step(old(Contents()), Written(id, ok))
    {
      var g := callers[id].gen;
      if !ok {
        gens := gens[g := gens[g].(pending := gens[g].pending - {id})];
        CloseLocked();
        callers, lock := callers[id := Finished(Unavailable)], None;
        return;
      }
      callers, lock := callers[id := Awaiting(g)], None;
    }

    /** One turn of `_read_loop`. */
    method ReadFrame(g: nat, corr: Id, body: string)
      requires g < |gens| && gens[g].loop == Running
      modifies this
      ensures Contents() == Step(old(Contents()), Arrive(g, corr, body))
      ensures corr in old(gens)[g].pending && corr in old(futures) && old(futures)[corr].None? ==>
              futures == old(futures)[corr := Some(Frame(corr, body))] && corr !in gens[g].pending
    {
      log := log + [Received(g, corr, body)];
      if corr !in gens[g].pending { return; }
      gens := gens[g := gens[g].(pending := gens[g].pending - {corr})];
      if corr in futures && futures[corr].None? {
        futures := futures[corr := Some(Frame(corr, body))];
      }
    }

    /** `_read_loop`'s `finally`. */
    method EndReadLoop(g: nat)
      requires Under(Contents(), g)
      modifies this
      ensures Contents() == Step(old(Contents()), LoopOver(g))
    {
      ghost var before := Contents();
      ghost var after := EndLoop(before, g);
      var todo := gens[g].pending;
      while todo != {}
        modifies this`futures
        invariant futures.Keys == before.futures.Keys
        invariant forall id :: id in futures ==>
          futures[id] == if id in todo then before.futures[id] else after.futures[id]
        decreases todo
      {
        var id :| id in todo;
        todo := todo - {id};
        if id in futures && futures[id].None? { futures := futures[id := Some(Unavailable)]; }
      }
      assert futures == after.futures;
      gens := gens[g := Generation({}, Ended)];
      log := log + [Over(g)];
    }

    /** The end of `_roundtrip`: its future is settled. */
    method Deliver(id: Id) returns (reply: Reply)
      requires Phase(Contents(), id).Awaiting? && callers[id].gen < |gens| && id in futures && futures[id].Some?
      modifies this
      ensures Contents() == Step(old(Contents()), Resume(id)) && reply == old(futures)[id].value
    {
      var g := callers[id].gen;
      reply := futures[id].value;
      gens := gens[g := gens[g].(pending := gens[g].pending - {id})];
      callers := callers[id := Finished(reply)];
    }
  }
}
