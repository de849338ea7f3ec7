/** Live approvals and their terminal records (`hdp_bridge/approvals.py`).

    `Approvals` is the manager's whole state as a value: the in-memory tables, the futures handed
    to waiters, and the two SQLite tables it writes.  The functions on it say what each operation
    does; `ApprovalManager` is the object itself, proved to do exactly that. */
module Approvals {
  import opened Basics
  import opened Futures

  datatype State = Approved | Denied | Expired

  datatype Scope = OneTime | SessionScope | DeviceScope | Persistent

  datatype Pending = Pending(
    id: Id, deviceId: string, capability: string, version: int,
    session: Option<string>, createdAt: int, expiresAt: int)

  datatype Resolution = Resolution(state: State, pending: Pending, scope: Option<Scope>, decidedBy: Option<string>)

  datatype GrantMode = OfSession | OfDevice | OfAlways

  /** A row of `policy_grants`. */
  datatype GrantRow = GrantRow(deviceId: string, capability: string, mode: GrantMode, expiresAt: Option<int>,
      revoked: bool)

  datatype ApprovalError = AlreadyPending | UnknownApproval | IntegrityError

  datatype WaitStart = Completed(resolution: Resolution) | Unknown | Blocked(deadline: int)

  datatype Approvals = Approvals(
    pending: map<Id, Pending>,
    registered: set<Id>,                 // the keys of the waiter table
    futures: map<Id, Cell<Resolution>>,  // the future made for a waiter, also once it left the table
    mailbox: map<Id, Resolution>,        // resolutions nobody was waiting for yet
    rows: map<Id, Resolution>,           // table `approvals`, by its primary key
    sessionGrants: set<(string, string, string)>,
    grants: seq<GrantRow>)                  // table `policy_grants`
  {
    function Create(p: Pending): Result<Approvals, ApprovalError> {
      if p.id in pending then Err(AlreadyPending) else Ok(this.(pending := pending[p.id := p]))
    }

    function Notify(r: Resolution): Approvals {
      var id := r.pending.id;
      if id in registered && id in futures && futures[id].Unset? then
        this.(registered := registered - {id}, futures := futures[id := Value(r)])
      else
        this.(registered := registered - {id}, mailbox := mailbox[id := r])
    }

    function Grants(p: Pending, scope: Scope): Approvals {
      match scope
      case OneTime => this
      case SessionScope =>
        if p.session.Some?
        then this.(sessionGrants := sessionGrants + {(p.session.value, p.deviceId, p.capability)})
        else this
      case DeviceScope => this.(grants := grants + [GrantRow(p.deviceId, p.capability, OfDevice, None, false)])
      case Persistent => this.(grants := grants + [GrantRow(p.deviceId, p.capability, OfAlways, None, false)])
    }

    /** The new state, and what the caller gets.  The pending entry is taken before the row is
        written, so a row that cannot be written loses it. */
    function Resolve(id: Id, approved: bool, scope: Scope, decider: string):
      (Approvals, Result<Resolution, ApprovalError>)
    {
      if id !in pending then (this, Err(UnknownApproval))
      else
        var p := pending[id];
        var r := if approved then Resolution(Approved, p, Some(scope), Some(decider))
            else Resolution(Denied, p, None, Some(decider));
        var taken := this.(pending := pending - {id});
        if p.id in rows then (taken, Err(IntegrityError))
        else
          var recorded := taken.(rows := rows[p.id := r]);
          ((if approved then recorded.Grants(p, scope) else recorded).Notify(r), Ok(r))
    }

    /** One round of the expiry loop, for an entry that is due. */
    function ExpireOne(id: Id): Approvals
      requires id in pending
    {
      var r := Resolution(Expired, pending[id], None, None);
      this.(pending := pending - {id}, rows := rows[id := r]).Notify(r)
    }

    function Due(now: int): set<Id> {
      set id | id in pending && pending[id].expiresAt <= now
    }

    /** Expire exactly the approvals in `due`, all at once. */
    function ExpireSet(due: set<Id>): Approvals {
      var gone := map id | id in due && id in pending :: Resolution(Expired, pending[id], None, None);
      this.(
        pending := pending - due,
        rows := rows + gone,
        registered := registered - gone.Keys,
        futures := map id | id in futures ::
          if id in gone && id in registered && futures[id].Unset? then Value(gone[id]) else futures[id],
        mailbox := mailbox + map id | id in gone && !(id in registered && id in futures && futures[id].Unset?) ::
            gone[id])
    }

    function ExpirePending(now: int): Approvals { ExpireSet(Due(now)) }

    function Abandon(id: Id): Approvals {
      this.(
        pending := pending - {id},
        registered := registered - {id},
        mailbox := mailbox - {id},
        futures := if id in registered && id in futures then futures[id := futures[id].Cancel()] else futures)
    }

    /** `wait` up to its first suspension. */
    function StartWait(id: Id): (Approvals, WaitStart) {
      if id in mailbox then (this.(mailbox := mailbox - {id}), Completed(mailbox[id]))
      else if id !in pending then (this, Unknown)
      else if id in registered then (this, Blocked(pending[id].expiresAt))
      else (this.(registered := registered + {id}, futures := futures[id := Unset]), Blocked(pending[id].expiresAt))
    }

    predicate HasSessionGrant(session: Option<string>, deviceId: string, capability: string) {
      session.Some? && (session.value, deviceId, capability) in sessionGrants
    }

    predicate HasDatabaseGrant(deviceId: string, capability: string, now: int) {
      exists g :: g in grants && g.deviceId == deviceId && g.capability == capability && g.mode in {OfDevice, OfAlways}
                  && !g.revoked && (g.expiresAt.None? || g.expiresAt.value > now)
    }
  }

  // ---- Runs -----------------------------------------------------------------------------------

  datatype Op =
    | CreateOp(p: Pending)
    | ResolveOp(id: Id, approved: bool, scope: Scope, decider: string)
    | ExpireOp(now: int)
    | AbandonOp(id: Id)
    | WaitOp(id: Id)

  function Apply(a: Approvals, op: Op): Approvals {
    match op
    case CreateOp(p) => (match a.Create(p) case Ok(b) => b case Err(_) => a)
    case ResolveOp(id, approved, scope, decider) => a.Resolve(id, approved, scope, decider).0
    case ExpireOp(now) => a.ExpirePending(now)
    case AbandonOp(id) => a.Abandon(id)
    case WaitOp(id) => a.StartWait(id).0
  }

  /** A manager together with which approvals it ever created and which it abandoned while they
      were still undecided. */
  datatype Ledger = Ledger(a: Approvals, created: set<Id>, abandoned: set<Id>)

  function Step(l: Ledger, op: Op): Ledger {
    Ledger(
      Apply(l.a, op),
      if op.CreateOp? then l.created + {op.p.id} else l.created,
      if op.AbandonOp? && op.id in l.a.pending then l.abandoned + {op.id} else l.abandoned)
  }

  function RunLedger(l: Ledger, ops: seq<Op>): Ledger
    decreases |ops|
  {
    if ops == [] then l else RunLedger(Step(l, ops[0]), ops[1..])
  }

  /** Invocation ids are minted once: no approval is created twice, nor over an existing row. */
  ghost predicate DistinctIds(l: Ledger, ops: seq<Op>) {
    && (forall i :: 0 <= i < |ops| && ops[i].CreateOp? ==> ops[i].p.id !in l.created && ops[i].p.id !in l.a.rows)
    && (forall i, j :: 0 <= i < j < |ops| && ops[i].CreateOp? && ops[j].CreateOp? ==> ops[i].p.id != ops[j].p.id)
  }

  /** An operator decision on record that covers more than its own invocation. */
  ghost predicate DecidedFor(a: Approvals, id: Id, deviceId: string, capability: string, scope: Scope) {
    && id in a.rows && a.rows[id].state == Approved && a.rows[id].scope == Some(scope)
    && a.rows[id].pending.deviceId == deviceId && a.rows[id].pending.capability == capability
  }

  ghost predicate SessionTraced(a: Approvals, session: string, deviceId: string, capability: string) {
    exists id :: DecidedFor(a, id, deviceId, capability, SessionScope) && a.rows[id].pending.session == Some(session)
  }

  ghost predicate RowTraced(a: Approvals, g: GrantRow) {
    exists id :: DecidedFor(a, id, g.deviceId, g.capability, ScopeOf(g.mode))
  }

  function ScopeOf(mode: GrantMode): Scope {
    match mode
    case OfSession => SessionScope
    case OfDevice => DeviceScope
    case OfAlways => Persistent
  }

  /** Every session grant, and every database grant that was not there at the start, comes from an
      approved decision for that device, that capability and that scope. */
  ghost predicate GrantsTraced(a: Approvals, initial: seq<GrantRow>) {
    && (forall s, d, c :: (s, d, c) in a.sessionGrants ==> SessionTraced(a, s, d, c))
    && initial <= a.grants
    && (forall k :: |initial| <= k < |a.grants| ==> RowTraced(a, a.grants[k]))
  }

  /** What holds of one id between any two operations: pending and recorded exclude each other,
      exactly the registered waiters are unsettled and they are all pending, and whatever a waiter
      or the mailbox holds is the row on record. */
  ghost predicate Tidy(a: Approvals, id: Id) {
    && (id in a.pending ==> a.pending[id].id == id && id !in a.rows)
    && (id in a.registered <==> id in a.futures && a.futures[id].Unset?)
    && (id in a.registered ==> id in a.pending)
    && (id in a.mailbox ==> id in a.rows && a.rows[id] == a.mailbox[id])
    && (id in a.futures && a.futures[id].Value? ==> id in a.rows && a.rows[id] == a.futures[id].value)
    && (id in a.futures ==> !a.futures[id].Failure?)
    && (id in a.rows ==> a.rows[id].pending.id == id)
  }

  ghost predicate Consistent(a: Approvals) {
    forall id :: Tidy(a, id)
  }

  /** Every id created so far is in exactly one of three places: still pending, recorded since the
      start, or abandoned undecided. */
  ghost predicate AccountedAt(l: Ledger, initialRows: set<Id>, id: Id) {
    && (id in l.created <==> id in l.a.pending || (id in l.a.rows && id !in initialRows) || id in l.abandoned)
    && !(id in l.a.pending && id in l.abandoned)
    && !(id in l.a.rows && id in l.abandoned)
    && !(id in l.a.pending && id in l.a.rows)
    && (id in initialRows ==> id in l.a.rows && id !in l.created)
  }

  ghost predicate Accounted(l: Ledger, initialRows: set<Id>) {
    forall id :: AccountedAt(l, initialRows, id)
  }

  function Empty(rows: map<Id, Resolution>, grants: seq<GrantRow>): Approvals {
    Approvals(map[], {}, map[], map[], rows, {}, grants)
  }

  /** The ids an operation turns into terminal rows. */
  function Decided(a: Approvals, op: Op): set<Id> {
    match op
    case ResolveOp(id, _, _, _) => if id in a.pending then {id} else {}
    case ExpireOp(now) => a.Due(now)
    case _ => {}
  }

  /** What each operation does to one id's pending entry and row. */
  lemma StepShapeAt(a: Approvals, op: Op, id: Id)
    requires Tidy(a, id) && (op.ResolveOp? ==> Tidy(a, op.id))
    ensures
      var b := Apply(a, op);
      && (id in b.pending <==> (match op
            case CreateOp(p) => id in a.pending || id == p.id
            case AbandonOp(gone) => id in a.pending && id != gone
            case _ => id in a.pending && id !in Decided(a, op)))
      && (id in b.rows <==> id in a.rows || id in Decided(a, op))
      && (id in a.rows ==> b.rows[id] == a.rows[id])
      && (id in Decided(a, op) ==> id in a.pending && b.rows[id].pending == a.pending[id])
      && (!op.CreateOp? && id in b.pending ==> b.pending[id] == a.pending[id])
  {
    match op
    case ResolveOp(r, approved, scope, decider) => ResolveShape(a, r, approved, scope, decider);
    case _ =>
  }

  lemma ResolveShape(a: Approvals, r: Id, approved: bool, scope: Scope, decider: string)
    requires Tidy(a, r)
    ensures
      var b := a.Resolve(r, approved, scope, decider).0;
      if r in a.pending then
        && b.pending == a.pending - {r} && b.rows.Keys == a.rows.Keys + {r}
        && b.rows == a.rows[r := b.rows[r]] && b.rows[r].pending == a.pending[r]
        && b.rows[r].state == (if approved then Approved else Denied)
      else b == a
  {
  }

  /** The operations that decide nothing leave every grant alone. */
  lemma OnlyDecisionsGrant(a: Approvals, op: Op)
    requires !op.ResolveOp?
    ensures Apply(a, op).sessionGrants == a.sessionGrants && Apply(a, op).grants == a.grants
  {
  }

  lemma StepTidy(a: Approvals, op: Op, id: Id)
    requires Tidy(a, id) && (op.ResolveOp? ==> Tidy(a, op.id)) && (op.CreateOp? ==> op.p.id !in a.rows)
    ensures Tidy(Apply(a, op), id)
  {
    match op
    case ResolveOp(r, approved, scope, decider) => ResolveTidy(a, r, approved, scope, decider, id);
    case ExpireOp(now) => ExpireTidy(a, a.Due(now), id);
    case _ =>
  }

  lemma ResolveTidy(a: Approvals, r: Id, approved: bool, scope: Scope, decider: string, id: Id)
    requires Tidy(a, id) && Tidy(a, r)
    ensures Tidy(a.Resolve(r, approved, scope, decider).0, id)
  {
  }

  lemma ExpireTidy(a: Approvals, due: set<Id>, id: Id)
    requires Tidy(a, id) && due <= a.pending.Keys
    ensures Tidy(a.ExpireSet(due), id)
  {
  }

  /** One operation keeps the tables consistent and never rewrites a terminal row. */
  lemma StepConsistent(a: Approvals, op: Op)
    requires Consistent(a) && (op.CreateOp? ==> op.p.id !in a.rows)
    ensures Consistent(Apply(a, op))
    ensures forall id :: id in a.rows ==> id in Apply(a, op).rows && Apply(a, op).rows[id] == a.rows[id]
  {
    forall id ensures Tidy(Apply(a, op), id) {
      assert Tidy(a, id) && (op.ResolveOp? ==> Tidy(a, op.id));
      StepTidy(a, op, id);
    }
    forall id | id in a.rows ensures id in Apply(a, op).rows && Apply(a, op).rows[id] == a.rows[id] {
      assert Tidy(a, id) && (op.ResolveOp? ==> Tidy(a, op.id));
      StepShapeAt(a, op, id);
    }
  }

  /** And exactly one thing breaks them: creating an approval under an id that has a terminal row. */
  lemma ConsistencyExactly(a: Approvals, op: Op)
    requires Consistent(a)
    ensures Consistent(Apply(a, op)) <==> !(op.CreateOp? && op.p.id in a.rows)
  {
    if op.CreateOp? && op.p.id in a.rows {
      assert Tidy(a, op.p.id) && !Tidy(Apply(a, op), op.p.id);
    } else {
      StepConsistent(a, op);
    }
  }

  /** A decision on a pending approval is recorded, exactly once; on anything else it changes
      nothing.  In particular it never collides with an existing row. */
  lemma NoCollision(a: Approvals, id: Id, approved: bool, scope: Scope, decider: string)
    requires Tidy(a, id)
    ensures match a.Resolve(id, approved, scope, decider).1
            case Ok(r) =>
              && id in a.pending && r.pending == a.pending[id] && (r.state == Approved <==> approved)
                  && r.state != Expired
              && a.Resolve(id, approved, scope, decider).0.rows == a.rows[id := r]
            case Err(e) => e == UnknownApproval && id !in a.pending && a.Resolve(id, approved, scope, decider).0 == a
  {
  }

  lemma ResolveGrants(a: Approvals, id: Id, approved: bool, scope: Scope, decider: string)
    requires Tidy(a, id) && id in a.pending
    ensures
      var b := a.Resolve(id, approved, scope, decider).0;
      var p := a.pending[id];
      && (b.sessionGrants == if approved && scope == SessionScope && p.session.Some?
                             then a.sessionGrants + {(p.session.value, p.deviceId, p.capability)} else a.sessionGrants)
      && (b.grants == if approved && scope in {DeviceScope, Persistent}
                      then a.grants + [GrantRow(p.deviceId, p.capability,
                                                if scope == DeviceScope then OfDevice else OfAlways, None, false)]
                      else a.grants)
      && (approved ==> DecidedFor(b, id, p.deviceId, p.capability, scope) && b.rows[id].pending == p)
  {
  }

  lemma DecidedForStays(a: Approvals, op: Op, id: Id, deviceId: string, capability: string, scope: Scope)
    requires Consistent(a) && DecidedFor(a, id, deviceId, capability, scope)
    ensures DecidedFor(Apply(a, op), id, deviceId, capability, scope)
    ensures Apply(a, op).rows[id] == a.rows[id]
  {
    assert Tidy(a, id) && (op.ResolveOp? ==> Tidy(a, op.id));
    StepShapeAt(a, op, id);
  }

  lemma StepGrants(a: Approvals, op: Op, initial: seq<GrantRow>)
    requires Consistent(a) && GrantsTraced(a, initial)
    ensures GrantsTraced(Apply(a, op), initial)
    ensures a.sessionGrants <= Apply(a, op).sessionGrants && a.grants <= Apply(a, op).grants
  {
    var b := Apply(a, op);
    if !op.ResolveOp? {
      OnlyDecisionsGrant(a, op);
    } else if op.ResolveOp? && op.id in a.pending {
      assert Tidy(a, op.id);
      ResolveGrants(a, op.id, op.approved, op.scope, op.decider);
    }
    forall s, d, c | (s, d, c) in b.sessionGrants ensures SessionTraced(b, s, d, c) {
      if (s, d, c) in a.sessionGrants {
        assert SessionTraced(a, s, d, c);
        var id :| DecidedFor(a, id, d, c, SessionScope) && a.rows[id].pending.session == Some(s);
        DecidedForStays(a, op, id, d, c, SessionScope);
      } else {
        assert DecidedFor(b, op.id, d, c, SessionScope);
      }
    }
    forall k | |initial| <= k < |b.grants| ensures RowTraced(b, b.grants[k]) {
      var g := b.grants[k];
      var scope := ScopeOf(g.mode);
      if k < |a.grants| {
        assert b.grants[k] == a.grants[k] && RowTraced(a, g);
        var id :| DecidedFor(a, id, g.deviceId, g.capability, scope);
        DecidedForStays(a, op, id, g.deviceId, g.capability, scope);
      } else {
        assert DecidedFor(b, op.id, g.deviceId, g.capability, scope);
      }
    }
  }

  lemma StepAccounted(l: Ledger, op: Op, initialRows: set<Id>)
    requires Consistent(l.a) && Accounted(l, initialRows)
    requires op.CreateOp? ==> op.p.id !in l.created && op.p.id !in l.a.rows
    ensures Accounted(Step(l, op), initialRows)
  {
    forall id ensures AccountedAt(Step(l, op), initialRows, id) {
      assert AccountedAt(l, initialRows, id) && Tidy(l.a, id);
      assert op.ResolveOp? ==> Tidy(l.a, op.id);
      StepShapeAt(l.a, op, id);
    }
  }

  /** Over any run with distinct ids: each approval ever created is still pending, or has exactly
      one terminal row, or was abandoned, and never two of these; a waiter whose future is
      unsettled has a pending entry; a settled one holds exactly the row on record; and every
      grant traces back to a decision. */
  lemma {:induction false} RunsAreAccounted(l: Ledger, ops: seq<Op>, initialRows: set<Id>, initial: seq<GrantRow>)
    requires Consistent(l.a) && Accounted(l, initialRows) && GrantsTraced(l.a, initial) && DistinctIds(l, ops)
    decreases |ops|
    ensures var end := RunLedger(l, ops);
            && Consistent(end.a) && Accounted(end, initialRows) && GrantsTraced(end.a, initial)
            && forall id :: id in l.a.rows ==> id in end.a.rows && end.a.rows[id] == l.a.rows[id]
  {
    if ops != [] {
      StepConsistent(l.a, ops[0]);
      StepAccounted(l, ops[0], initialRows);
      StepGrants(l.a, ops[0], initial);
      forall i | 0 <= i < |ops[1..]| && ops[1..][i].CreateOp?
        ensures ops[1..][i].p.id !in Step(l, ops[0]).created && ops[1..][i].p.id !in Step(l, ops[0]).a.rows
      {
        var id := ops[1..][i].p.id;
        assert ops[1..][i] == ops[i + 1];
        assert AccountedAt(l, initialRows, id) && Tidy(l.a, id) && (ops[0].ResolveOp? ==> Tidy(l.a, ops[0].id));
        StepShapeAt(l.a, ops[0], id);
      }
      RunsAreAccounted(Step(l, ops[0]), ops[1..], initialRows, initial);
    }
  }

  /** A manager starts consistent, whatever rows and grants the database already holds. */
  lemma InitiallyConsistent(rows: map<Id, Resolution>, grants: seq<GrantRow>)
    requires forall id :: id in rows ==> rows[id].pending.id == id
    ensures Consistent(Empty(rows, grants)) && GrantsTraced(Empty(rows, grants), grants)
    ensures Accounted(Ledger(Empty(rows, grants), {}, {}), rows.Keys)
  {
    assert grants <= Empty(rows, grants).grants;
  }

  /** The deadline always releases a waiter: running the expiry at the deadline it was given
      settles its future, with the row then on record. */
  lemma DeadlineReleases(a: Approvals, id: Id)
    requires Tidy(a, id) && id in a.futures && a.futures[id].Unset?
    ensures id in a.pending
    ensures var b := a.ExpirePending(a.pending[id].expiresAt);
            && b.futures[id].Value? && b.futures[id].value == b.rows[id] && b.rows[id].state == Expired
  {
  }

  /** Reusing an id breaks that guarantee: the second decision finds the first one's row, the
      entry is lost, and the waiter is left unsettled with nothing pending to expire. */
  lemma ReusedIdStrandsItsWaiter()
    ensures
      var p := Pending("01", "device", "camera.capture", 1, None, 0, 120);
      var a := RunLedger(Ledger(Empty(map[], []), {}, {}),
                   [CreateOp(p), ResolveOp("01", true, OneTime, "op"), WaitOp("01"),
                    CreateOp(p), WaitOp("01"), ResolveOp("01", true, OneTime, "op")]).a;
      && "01" in a.futures && a.futures["01"].Unset? && "01" !in a.pending
      && forall now :: a.ExpirePending(now).futures["01"].Unset?
  {
    var p := Pending("01", "device", "camera.capture", 1, None, 0, 120);
    var l0 := Ledger(Empty(map[], []), {}, {});
    var l1 := Step(l0, CreateOp(p));
    var l2 := Step(l1, ResolveOp("01", true, OneTime, "op"));
    var l3 := Step(l2, WaitOp("01"));
    var l4 := Step(l3, CreateOp(p));
    var l5 := Step(l4, WaitOp("01"));
    var l6 := Step(l5, ResolveOp("01", true, OneTime, "op"));
    var ops := [CreateOp(p), ResolveOp("01", true, OneTime, "op"), WaitOp("01"),
                CreateOp(p), WaitOp("01"), ResolveOp("01", true, OneTime, "op")];
    calc {
      RunLedger(l0, ops);
      RunLedger(l1, ops[1..]);
      { assert ops[1..][1..] == ops[2..]; }
      RunLedger(l2, ops[2..]);
      { assert ops[2..][1..] == ops[3..]; }
      RunLedger(l3, ops[3..]);
      { assert ops[3..][1..] == ops[4..]; }
      RunLedger(l4, ops[4..]);
      { assert ops[4..][1..] == ops[5..]; }
      RunLedger(l5, ops[5..]);
      { assert ops[5..][1..] == []; }
      l6;
    }
  }

  // ---- The manager itself -----------------------------------------------------------------------

  /** A waiter's future, shared between the manager's table and the coroutine awaiting it. */
  class Waiter {
    var cell: Cell<Resolution>

    constructor ()
      ensures cell == Unset
    {
      cell := Unset;
    }
  }

  class ApprovalManager {
    const timeout: int
    var pending: map<Id, Pending>
    var waiters: map<Id, Waiter>
    var resolutions: map<Id, Resolution>
    var sessionGrants: set<(string, string, string)>
    var rows: map<Id, Resolution>
    var grants: seq<GrantRow>
    ghost var issued: map<Id, Waiter>    // the latest waiter made for an id

    ghost predicate Valid()
      reads this
    {
      && timeout > 0
      && waiters.Keys <= issued.Keys
      && (forall id :: id in waiters ==> waiters[id] == issued[id])
      && (forall a, b :: a in issued && b in issued && a != b ==> issued[a] != issued[b])
      && (forall id :: id in pending ==> pending[id].id == id)
    }

    ghost function Contents(): Approvals
      reads this, issued.Values
      requires Valid()
    {
      Approvals(pending, waiters.Keys, map id | id in issued :: issued[id].cell,
                resolutions, rows, sessionGrants, grants)
    }

    constructor (storedRows: map<Id, Resolution>, storedGrants: seq<GrantRow>, timeout: int)
      requires timeout > 0
      ensures Valid() && Contents() == Empty(storedRows, storedGrants) && this.timeout == timeout
    {
      this.timeout := timeout;
      pending, waiters, resolutions, sessionGrants := map[], map[], map[], {};
      rows, grants, issued := storedRows, storedGrants, map[];
    }

    method Create(id: Id, deviceId: string, capability: string, version: int, session: Option<string>, now: int)
      returns (r: Result<Pending, ApprovalError>)
      requires Valid()
      modifies this`pending
      ensures Valid()
      ensures var p := Pending(id, deviceId, capability, version, session, now, now + timeout);
              match old(Contents()).Create(p)
              case Ok(after) => r == Ok(p) && Contents() == after
              case Err(e) => r == Err(e) && Contents() == old(Contents())
    {
      if id in pending { return Err(AlreadyPending); }
      var p := Pending(id, deviceId, capability, version, session, now, now + timeout);
      pending := pending[id := p];
      return Ok(p);
    }

    method Notify(r: Resolution)
      requires Valid()
      modifies this`waiters, this`resolutions, waiters.Values
      ensures Valid() && Contents() == old(Contents()).Notify(r) && issued == old(issued)
    {
      var id := r.pending.id;
      if id in waiters {
        var waiter := waiters[id];
        waiters := waiters - {id};
        if !waiter.cell.Done() {
          waiter.cell := Value(r);
          return;
        }
      }
      resolutions := resolutions[id := r];
    }

    method Grant(p: Pending, scope: Scope)
      requires Valid()
      modifies this`sessionGrants, this`grants
      ensures Valid() && Contents() == old(Contents()).Grants(p, scope)
    {
      match scope
      case OneTime =>
      case SessionScope =>
        if p.session.Some? {
          sessionGrants := sessionGrants + {(p.session.value, p.deviceId, p.capability)};
        }
      case DeviceScope =>
        grants := grants + [GrantRow(p.deviceId, p.capability, OfDevice, None, false)];
      case Persistent =>
        grants := grants + [GrantRow(p.deviceId, p.capability, OfAlways, None, false)];
    }

    method Resolve(id: Id, approved: bool, scope: Scope, decider: string) returns (r: Result<Resolution, ApprovalError>)
      requires Valid()
      modifies this`pending, this`rows, this`sessionGrants, this`grants, this`waiters, this`resolutions, waiters.Values
      ensures Valid() && (Contents(), r) == old(Contents()).Resolve(id, approved, scope, decider)
    {
      if id !in pending { return Err(UnknownApproval); }
      var p := pending[id];
      pending := pending - {id};
      var resolution :=
          Resolution(if approved then Approved else Denied, p, if approved then Some(scope) else None, Some(decider));
      if id in rows {   // the INSERT violates the primary key
        assert Contents().futures == old(Contents()).futures;
        return Err(IntegrityError);
      }
      rows := rows[id := resolution];
      assert Contents() == old(Contents()).(pending := pending, rows := rows) by {
        assert Contents().futures == old(Contents()).futures;
      }
      if approved {
        Grant(p, scope);
      }
      Notify(resolution);
      return Ok(resolution);
    }

    /** One round of the expiry loop. */
    method ExpireEntry(id: Id) returns (resolution: Resolution)
      requires Valid() && id in pending
      modifies this`pending, this`rows, this`waiters, this`resolutions, waiters.Values
      ensures Valid() && Contents() == old(Contents()).ExpireOne(id) && issued == old(issued)
      ensures waiters.Values <= old(waiters.Values)
      ensures resolution == Resolution(Expired, old(pending)[id], None, None)
    {
      resolution := Resolution(Expired, pending[id], None, None);
      pending := pending - {id};
      rows := rows[id := resolution];
      assert Contents() == old(Contents()).(pending := pending, rows := rows) by {
        assert Contents().futures == old(Contents()).futures;
      }
      Notify(resolution);
    }

    method ExpirePending(now: int) returns (expired: seq<Resolution>)
      requires Valid() && pending.Keys !! rows.Keys
      modifies this`pending, this`rows, this`waiters, this`resolutions, waiters.Values
      ensures Valid() && Contents() == old(Contents()).ExpirePending(now)
      ensures forall id :: id in pending <==> id in old(pending) && old(pending)[id].expiresAt > now
      ensures forall id :: id in pending ==> pending[id] == old(pending)[id]
      ensures forall id :: id in old(Contents()).Due(now) ==>
          Resolution(Expired, old(pending)[id], None, None) in expired
      ensures forall r :: r in expired ==>
          r.pending.id in old(Contents()).Due(now) && r == Resolution(Expired, old(pending)[r.pending.id], None, None)
    {
      ghost var start := Contents();
      expired := [];
      var todo := pending.Keys;
      ghost var done: set<Id> := {};
      ExpireNothing(start);
      while todo != {}
        invariant Valid() && issued == old(issued) && waiters.Values <= old(waiters.Values)
        invariant todo <= start.pending.Keys && done <= start.Due(now) && done !! todo
        invariant start.Due(now) <= done + todo
        invariant Contents() == start.ExpireSet(done)
        invariant forall id :: id in done ==> Resolution(Expired, start.pending[id], None, None) in expired
        invariant forall r :: r in expired ==>
            r.pending.id in done && r == Resolution(Expired, start.pending[r.pending.id], None, None)
        decreases todo
      {
        var id :| id in todo;
        todo := todo - {id};
        assert pending == start.pending - done;
        if pending[id].expiresAt > now { continue; }
        var resolution := ExpireEntry(id);
        ExpireOneMore(start, done, id);
        expired := expired + [resolution];
        done := done + {id};
      }
      assert done == start.Due(now);
    }

    method Abandon(id: Id) returns (wasPending: bool)
      requires Valid()
      modifies this`pending, this`waiters, this`resolutions, waiters.Values
      ensures Valid() && Contents() == old(Contents()).Abandon(id) && wasPending == (id in old(pending))
    {
      wasPending := id in pending;
      CancelWaiter(id);
      ghost var cancelled := Contents();
      pending, resolutions := pending - {id}, resolutions - {id};
      assert Contents().futures == cancelled.futures;
    }

    /** Take the waiter, if there is one, and cancel its future. */
    method CancelWaiter(id: Id)
      requires Valid()
      modifies this`waiters, waiters.Values
      ensures Valid() && waiters == old(waiters) - {id}
      ensures var before := old(Contents());
              Contents() == before.(registered := before.registered - {id}, futures :=
                if id in before.registered && id in before.futures
                then before.futures[id := before.futures[id].Cancel()] else before.futures)
    {
      if id in waiters {
        var waiter := waiters[id];
        waiters := waiters - {id};
        waiter.cell := waiter.cell.Cancel();
      }
    }

    /** `wait` up to its first suspension: the future to await, unless the answer is already here. */
    method StartWait(id: Id) returns (start: WaitStart, waiter: Waiter?)
      requires Valid()
      modifies this`waiters, this`resolutions, this`issued
      ensures Valid() && (Contents(), start) == old(Contents()).StartWait(id)
      ensures start.Blocked? <==> waiter != null
      ensures waiter != null ==> id in waiters && waiters[id] == waiter
    {
      if id in resolutions {
        start, waiter := Completed(resolutions[id]), null;
        resolutions := resolutions - {id};
        assert Contents().futures == old(Contents()).futures;
        return;
      }
      if id !in pending { return Unknown, null; }
      if id !in waiters {
        var fresh' := new Waiter();
        waiters := waiters[id := fresh'];
        issued := issued[id := fresh'];
      }
      assert Contents().futures == old(if id in waiters then Contents().futures else Contents().futures[id := Unset]);
      assert Contents().registered == old(Contents()).registered + {id};
      return Blocked(pending[id].expiresAt), waiters[id];
    }
  }

  // ---- Expiring one by one is expiring all at once ----------------------------------------------

  /** Everything the tables say about one id. */
  datatype Entry = Entry(
    pending: Option<Pending>, registered: bool, future: Option<Cell<Resolution>>,
    mail: Option<Resolution>, row: Option<Resolution>)

  function Get<V>(m: map<Id, V>, id: Id): Option<V> {
    if id in m then Some(m[id]) else None
  }

  function At(a: Approvals, id: Id): Entry {
    Entry(Get(a.pending, id), id in a.registered, Get(a.futures, id), Get(a.mailbox, id), Get(a.rows, id))
  }

  function Expiry(e: Entry): Entry
    requires e.pending.Some?
  {
    var r := Resolution(Expired, e.pending.value, None, None);
    var heard := e.registered && e.future == Some(Unset);
    Entry(None, false, if heard then Some(Value(r)) else e.future, if heard then e.mail else Some(r), Some(r))
  }

  lemma SameEverywhere(a: Approvals, b: Approvals)
    requires a.sessionGrants == b.sessionGrants && a.grants == b.grants
    requires forall id :: At(a, id) == At(b, id)
    ensures a == b
  {
    SameMap(a.pending, b.pending, id => At(a, id).pending);
    SameMap(a.futures, b.futures, id => At(a, id).future);
    SameMap(a.mailbox, b.mailbox, id => At(a, id).mail);
    SameMap(a.rows, b.rows, id => At(a, id).row);
    forall id ensures id in a.registered <==> id in b.registered {
      assert At(a, id) == At(b, id);
    }
  }

  lemma SameMap<V>(m: map<Id, V>, n: map<Id, V>, f: Id -> Option<V>)
    requires forall id :: Get(m, id) == f(id) && Get(n, id) == f(id)
    ensures m == n
  {
    forall id ensures id in m <==> id in n {
      assert Get(m, id) == f(id) == Get(n, id);
    }
    forall id | id in m ensures m[id] == n[id] {
      assert Get(m, id) == f(id) == Get(n, id);
    }
  }

  lemma ExpireSetAt(a: Approvals, due: set<Id>, id: Id)
    ensures At(a.ExpireSet(due), id) == if id in due && id in a.pending then Expiry(At(a, id)) else At(a, id)
    ensures a.ExpireSet(due).sessionGrants == a.sessionGrants && a.ExpireSet(due).grants == a.grants
  {
  }

  lemma ExpireOneAt(a: Approvals, due: Id, id: Id)
    requires due in a.pending && a.pending[due].id == due
    ensures At(a.ExpireOne(due), id) == if id == due then Expiry(At(a, id)) else At(a, id)
    ensures a.ExpireOne(due).sessionGrants == a.sessionGrants && a.ExpireOne(due).grants == a.grants
  {
  }

  lemma ExpireNothing(a: Approvals)
    ensures a.ExpireSet({}) == a
  {
    forall id ensures At(a.ExpireSet({}), id) == At(a, id) {
      ExpireSetAt(a, {}, id);
    }
    SameEverywhere(a.ExpireSet({}), a);
  }

  lemma ExpireOneMore(a: Approvals, done: set<Id>, id: Id)
    requires done <= a.pending.Keys && id in a.pending && id !in done
    requires forall other :: other in a.pending ==> a.pending[other].id == other
    ensures a.ExpireSet(done).ExpireOne(id) == a.ExpireSet(done + {id})
  {
    var mid := a.ExpireSet(done);
    assert mid.pending[id] == a.pending[id];
    forall other ensures At(mid.ExpireOne(id), other) == At(a.ExpireSet(done + {id}), other) {
      ExpireOneAt(mid, id, other);
      ExpireSetAt(a, done, other);
      ExpireSetAt(a, done + {id}, other);
    }
    ExpireOneAt(mid, id, id);
    SameEverywhere(mid.ExpireOne(id), a.ExpireSet(done + {id}));
  }

  // ---- What each operation does to one id -----------------------------------------------------------

  /** Expiry at `now`: pending stays pending exactly while its deadline lies ahead, and then nothing
      about it has changed; exactly what was pending with its deadline reached is recorded as expired,
      and its waiter, or whoever waits next, is told. */
  lemma ExpiryExactly(a: Approvals, now: int, id: Id)
    requires Tidy(a, id)
    ensures
      var b := a.ExpirePending(now);
      && (id in b.pending <==> id in a.pending && a.pending[id].expiresAt > now)
      && (!(id in a.pending && a.pending[id].expiresAt <= now) ==> At(b, id) == At(a, id))
      && (id in a.pending && a.pending[id].expiresAt <= now ==>
            && id in b.rows && b.rows[id] == Resolution(Expired, a.pending[id], None, None) && Told(a, b, id))
      && b.sessionGrants == a.sessionGrants && b.grants == a.grants
  {
  }

  /** The row now on record reaches whoever waits for it: the waiter there was, or the next one. */
  ghost predicate Told(a: Approvals, b: Approvals, id: Id)
    requires id in b.rows
  {
    if id in a.registered then id in b.futures && b.futures[id] == Value(b.rows[id]) && id !in b.registered
    else b.StartWait(id).1 == Completed(b.rows[id])
  }

  /** A decision: exactly a pending approval is taken off the table and recorded as decided, with who
      decided and, if approved, how widely; it is told, and nothing about any other id changes. */
  lemma DecisionExactly(a: Approvals, id: Id, approved: bool, scope: Scope, decider: string, other: Id)
    requires Tidy(a, id)
    ensures
      var b := a.Resolve(id, approved, scope, decider).0;
      && (other != id ==> At(b, other) == At(a, other))
      && (id !in a.pending ==> b == a)
      && (id in a.pending ==>
            && id !in b.pending && id in b.rows && Told(a, b, id)
            && b.rows[id].pending == a.pending[id] && b.rows[id].decidedBy == Some(decider)
            && b.rows[id].state == (if approved then Approved else Denied)
            && b.rows[id].scope == (if approved then Some(scope) else None))
  {
  }

  /** Abandoning drops entry and mail and cancels a waiter that still waits; records and grants stay. */
  lemma AbandonExactly(a: Approvals, id: Id, other: Id)
    requires Tidy(a, id)
    ensures
      var b := a.Abandon(id);
      && (other != id ==> At(b, other) == At(a, other))
      && (b.rows, b.sessionGrants, b.grants) == (a.rows, a.sessionGrants, a.grants)
      && id !in b.pending && id !in b.mailbox && id !in b.registered
      && (id in a.futures ==>
            id in b.futures && b.futures[id] == if a.futures[id].Unset? then Cancelled else a.futures[id])
  {
  }

  /** Waiting: the answer if it is there already, which is then used up; else, for a pending approval, an
      unsettled future and that approval's own deadline; and nothing is decided by it. */
  lemma WaitExactly(a: Approvals, id: Id, other: Id)
    requires Tidy(a, id)
    ensures
      var (b, start) := a.StartWait(id);
      && (other != id ==> At(b, other) == At(a, other))
      && (b.pending, b.rows, b.sessionGrants, b.grants) == (a.pending, a.rows, a.sessionGrants, a.grants)
      && id !in b.mailbox
      && start == (if id in a.mailbox then Completed(a.rows[id])
                   else if id in a.pending then Blocked(a.pending[id].expiresAt) else Unknown)
      && (start.Blocked? ==> id in b.registered && id in b.futures && b.futures[id].Unset?)
  {
  }

  /** Creating: exactly an id that is not pending becomes so, as asked, and nothing else changes. */
  lemma CreationExactly(a: Approvals, p: Pending)
    ensures a.Create(p).Ok? <==> p.id !in a.pending
    ensures a.Create(p).Ok? ==>
              && p.id in a.Create(p).value.pending && a.Create(p).value.pending[p.id] == p
              && a.Create(p).value.(pending := a.pending) == a
              && forall id :: id != p.id ==> Get(a.Create(p).value.pending, id) == Get(a.pending, id)
  {
  }
}
