/** Device roles: the single primary (`hdp_bridge/device_roles.py`), the registry's row
    replacement (`hdp_bridge/registry.py`) and the enrollment completion that makes a primary
    (`hdp_bridge/connection.py`), under the database's unique index on the primary role. */
module Roles {
  import opened Basics
  import opened Enrollment
  import EnrollmentRuns

  datatype RoleError = NotEnrolled | NotActivePrimary | PromoteFirst | StillReferenced

  datatype Completion = NotApproved | Enrolled(role: Role) | RoleRejected

  function SetRole(t: Tables, device: string, role: Role): Tables
    requires device in t.devices
  {
    t.(devices := t.devices[device := t.devices[device].(role := role)])
  }

  function DemoteAll(t: Tables): Tables {
    t.(devices := map d | d in t.devices :: if t.devices[d].role == Primary then t.devices[d].(role := Secondary)
        else t.devices[d])
  }

  function AfterPromote(t: Tables, device: string): (Tables, Result<(), RoleError>) {
    if device !in t.devices || !t.devices[device].active then (t, Err(NotEnrolled))
    else if t.devices[device].role == Primary then (t, Ok(()))
    else (SetRole(DemoteAll(t), device, Primary), Ok(()))
  }

  predicate ActiveSecondary(t: Tables) {
    exists d :: d in t.devices && t.devices[d].role == Secondary && t.devices[d].active
  }

  predicate MayRemove(t: Tables, device: string) {
    !t.IsPrimary(device) || !ActiveSecondary(t)
  }

  /** Some row of another table still names the device: the delete violates a foreign key. */
  predicate Referenced(t: Tables, device: string)
    requires device in t.devices
  {
    || t.devices[device].credentials > 0
    || (exists id :: id in t.enrollments && t.enrollments[id].primaryDevice == Some(device))
    || t.lock == Some(device)
  }

  function AfterRemove(t: Tables, device: string): (Tables, Result<(), RoleError>) {
    if device !in t.devices || !t.devices[device].active || t.devices[device].role != Primary
        then (t, Err(NotActivePrimary))
    else if !MayRemove(t, device) then (t, Err(PromoteFirst))
    else if Referenced(t, device) then (t, Err(StillReferenced))
    else (t.(devices := t.devices - {device}), Ok(()))
  }

  /** Insert a device as an active secondary, or refresh its row: role and enrolled key are not
      among the columns an update writes, the state is. */
  function Register(t: Tables, device: string): Tables {
    t.(devices := t.devices[device :=
      if device in t.devices then t.devices[device].(active := true) else Device(Secondary, true, "", 0)])
  }

  function MarkRevoked(t: Tables, device: string): Tables {
    if device in t.devices then t.(devices := t.devices[device := t.devices[device].(active := false)]) else t
  }

  /** Consume the enrollment, register the fresh device, write its role, then its key and
      credential.  `indexed`: does the database refuse a second primary? */
  function Complete(t: Tables, id: string, host: string, candidate: string, device: string, key: string, now: int,
      indexed: bool): (Tables, Completion)
    requires device !in t.devices
  {
    var (consumed, r) := t.Consume(id, host, candidate, now);
    if r.Err? then (t, NotApproved)
    else
      var registered := Register(consumed, device);
      if r.value == Primary && indexed && registered.HasPrimary() then (registered, RoleRejected)
      else
        var withRole := SetRole(registered, device, r.value);
        (withRole.(devices := withRole.devices[device := withRole.devices[device].(key := key, credentials := 1)]),
            Enrolled(r.value))
  }

  // ---- The manager itself ---------------------------------------------------------------------------

  class DeviceRoleManager {
    const db: Database

    constructor (db: Database)
      ensures this.db == db
    {
      this.db := db;
    }

    method Promote(device: string) returns (r: Result<(), RoleError>)
      modifies db`devices
      ensures (db.Contents(), r) == AfterPromote(old(db.Contents()), device)
    {
      if !(device in db.devices && db.devices[device].active) { return Err(NotEnrolled); }
      if db.devices[device].role == Primary { return Ok(()); }
      db.devices := map d | d in db.devices :: if db.devices[d].role == Primary then db.devices[d].(role := Secondary)
          else db.devices[d];
      db.devices := db.devices[device := db.devices[device].(role := Primary)];
      return Ok(());
    }

    method MayRemovePrimary(device: string) returns (may: bool)
      ensures may == MayRemove(db.Contents(), device)
    {
      if !(device in db.devices && db.devices[device].role == Primary) { return true; }
      var secondary := exists d :: d in db.devices && db.devices[d].role == Secondary && db.devices[d].active;
      return !secondary;
    }

    method RemovePrimary(device: string) returns (r: Result<(), RoleError>)
      modifies db`devices
      ensures (db.Contents(), r) == AfterRemove(old(db.Contents()), device)
    {
      if !(device in db.devices && db.devices[device].active && db.devices[device].role == Primary) {
        return Err(NotActivePrimary);
      }
      var may := MayRemovePrimary(device);
      if !may { return Err(PromoteFirst); }
      var referenced := db.devices[device].credentials > 0
                        || (exists id :: id in db.enrollments && db.enrollments[id].primaryDevice == Some(device))
                        || db.lock == Some(device);
      if referenced { return Err(StillReferenced); }
      db.devices := db.devices - {device};
      return Ok(());
    }
  }

  // ---- Runs -----------------------------------------------------------------------------------------

  datatype Op =
    | Coordinate(op: EnrollmentRuns.Op)
    | PromoteOp(device: string)
    | RemoveOp(device: string)
    | CompleteOp(id: string, host: string, candidate: string, device: string, key: string)
    | RegisterOp(device: string)
    | RevokeOp(device: string)

  /** Operations on the device table go through their own constructors, and a consumption only
      happens as part of a completion, for a freshly minted device id. */
  predicate Allowed(t: Tables, op: Op) {
    match op
    case Coordinate(c) => !c.DevicesOp? && !c.ConsumeOp?
    case CompleteOp(_, _, _, device, _) => device !in t.devices
    case _ => true
  }

  function Perform(t: Tables, op: Op, now: int, indexed: bool): Tables
    requires Allowed(t, op)
  {
    match op
    case Coordinate(c) => EnrollmentRuns.Perform(t, c, now).0
    case PromoteOp(device) => AfterPromote(t, device).0
    case RemoveOp(device) => AfterRemove(t, device).0
    case CompleteOp(id, host, candidate, device, key) => Complete(t, id, host, candidate, device, key, now, indexed).0
    case RegisterOp(device) => Register(t, device)
    case RevokeOp(device) => MarkRevoked(t, device)
  }

  ghost predicate PrimaryTargetLive(t: Tables) {
    exists id :: id in t.enrollments && Live(t.enrollments[id]) && t.enrollments[id].target == Primary
  }

  /** `meddled`: some promote changed the primary while a request to become primary was live. */
  datatype World = World(t: Tables, ghost meddled: bool)

  ghost function Step(w: World, op: Op, now: int, indexed: bool): World
    requires Allowed(w.t, op)
  {
    World(Perform(w.t, op, now, indexed),
          w.meddled || (op.PromoteOp? && PrimaryTargetLive(w.t) && AfterPromote(w.t, op.device).0 != w.t))
  }

  ghost predicate Runnable(w: World, ops: seq<(Op, int)>, indexed: bool)
    decreases |ops|
  {
    ops == [] || (Allowed(w.t, ops[0].0) && Runnable(Step(w, ops[0].0, ops[0].1, indexed), ops[1..], indexed))
  }

  ghost function Run(w: World, ops: seq<(Op, int)>, indexed: bool): World
    requires Runnable(w, ops, indexed)
    decreases |ops|
  {
    if ops == [] then w else Run(Step(w, ops[0].0, ops[0].1, indexed), ops[1..], indexed)
  }

  ghost predicate OnePrimary(t: Tables) {
    forall a, b :: t.IsPrimary(a) && t.IsPrimary(b) ==> a == b
  }

  ghost predicate Sound(w: World) {
    && OnePrimary(w.t) && EnrollmentRuns.OneLive(w.t)
    && (PrimaryTargetLive(w.t) && w.t.HasPrimary() ==> w.meddled)
  }

  /** The index refuses a completion exactly when the enrollment is consumed for a new primary and
      there is one already. */
  lemma IndexFires(t: Tables, id: string, host: string, candidate: string, device: string, key: string, now: int)
    requires device !in t.devices
    ensures Complete(t, id, host, candidate, device, key, now, true).1 == RoleRejected <==>
            t.Consume(id, host, candidate, now).1 == Ok(Primary) && t.HasPrimary()
    ensures Complete(t, id, host, candidate, device, key, now, true).1 != RoleRejected ==>
            Complete(t, id, host, candidate, device, key, now, true) ==
                Complete(t, id, host, candidate, device, key, now, false)
  {
    var registered := Register(t.Consume(id, host, candidate, now).0, device);
    assert registered.HasPrimary() <==> t.HasPrimary() by {
      assert forall d :: registered.IsPrimary(d) <==> t.IsPrimary(d);
    }
  }

  /** In a sound world nobody meddled with, the index has nothing to refuse. */
  lemma IndexIdle(w: World, op: Op, now: int)
    requires Sound(w) && !w.meddled && Allowed(w.t, op)
    ensures Perform(w.t, op, now, true) == Perform(w.t, op, now, false)
  {
    if op.CompleteOp? {
      IndexFires(w.t, op.id, op.host, op.candidate, op.device, op.key, now);
    }
  }

  lemma CompleteKeeps(w: World, op: Op, now: int)
    requires Sound(w) && op.CompleteOp? && Allowed(w.t, op)
    ensures Sound(Step(w, op, now, true))
  {
    var (u, r) := Complete(w.t, op.id, op.host, op.candidate, op.device, op.key, now, true);
    IndexFires(w.t, op.id, op.host, op.candidate, op.device, op.key, now);
    EnrollmentRuns.StepDiscipline(w.t, EnrollmentRuns.ConsumeOp(op.id, op.host, op.candidate), now);
    if r != NotApproved {
      assert u.enrollments == w.t.Consume(op.id, op.host, op.candidate, now).0.enrollments;
      assert forall d :: u.IsPrimary(d) <==> w.t.IsPrimary(d) || (d == op.device && r == Enrolled(Primary));
      assert w.t.HasPrimary() <==> exists d :: w.t.IsPrimary(d);
      assert forall id :: id in u.enrollments ==> !Live(u.enrollments[id]);
    }
  }

  lemma PromoteKeeps(w: World, device: string, now: int)
    requires Sound(w)
    ensures Sound(Step(w, PromoteOp(device), now, true))
  {
    var u := AfterPromote(w.t, device).0;
    if u != w.t {
      assert forall d :: u.IsPrimary(d) <==> d == device;
    }
  }

  lemma RemoveKeeps(w: World, device: string, now: int)
    requires Sound(w)
    ensures Sound(Step(w, RemoveOp(device), now, true))
  {
    var u := AfterRemove(w.t, device).0;
    assert forall d :: u.IsPrimary(d) ==> w.t.IsPrimary(d);
    assert u.HasPrimary() ==> w.t.HasPrimary();
  }

  lemma CoordinateKeeps(w: World, c: EnrollmentRuns.Op, now: int)
    requires Sound(w) && Allowed(w.t, Coordinate(c))
    ensures Sound(Step(w, Coordinate(c), now, true))
  {
    EnrollmentRuns.StepDiscipline(w.t, c, now);
    var u := EnrollmentRuns.Perform(w.t, c, now).0;
    assert u.devices == w.t.devices;
    assert forall d :: u.IsPrimary(d) <==> w.t.IsPrimary(d);
    if PrimaryTargetLive(u) {
      var id :| id in u.enrollments && Live(u.enrollments[id]) && u.enrollments[id].target == Primary;
      if id in w.t.enrollments {
        EnrollmentRuns.RowChange(w.t, c, now, id);
      }
    }
  }

  lemma RegisterKeeps(w: World, op: Op, now: int)
    requires Sound(w) && (op.RegisterOp? || op.RevokeOp?)
    ensures Sound(Step(w, op, now, true))
  {
    var u := Perform(w.t, op, now, true);
    assert forall d :: u.IsPrimary(d) <==> w.t.IsPrimary(d);
    assert u.HasPrimary() ==> exists d :: u.IsPrimary(d);
  }

  lemma StepKeeps(w: World, op: Op, now: int)
    requires Sound(w) && Allowed(w.t, op)
    ensures Sound(Step(w, op, now, true))
  {
    match op
    case Coordinate(c) => CoordinateKeeps(w, c, now);
    case PromoteOp(device) => PromoteKeeps(w, device, now);
    case RemoveOp(device) => RemoveKeeps(w, device, now);
    case CompleteOp(_, _, _, _, _) => CompleteKeeps(w, op, now);
    case _ => RegisterKeeps(w, op, now);
  }

  /** A fresh store is sound, and so is one with any devices of which at most one is primary, before
      anybody has asked to enroll. */
  lemma BeforeEnrollment(devices: map<string, Device>)
    requires OnePrimary(Tables(devices, map[], None))
    ensures Sound(World(Tables(devices, map[], None), false)) && Sound(World(Tables(map[], map[], None), false))
  {
  }

  /** At most one device is primary in every run of completions, promotions, removals and
      re-registrations. */
  lemma {:induction false} OnePrimaryAlways(w: World, ops: seq<(Op, int)>)
    requires Sound(w) && Runnable(w, ops, true)
    ensures Sound(Run(w, ops, true)) && OnePrimary(Run(w, ops, true).t)
    decreases |ops|
  {
    if ops != [] {
      StepKeeps(w, ops[0].0, ops[0].1);
      OnePrimaryAlways(Step(w, ops[0].0, ops[0].1, true), ops[1..]);
    }
  }

  lemma {:induction false} MeddlingIsRemembered(w: World, ops: seq<(Op, int)>, indexed: bool)
    requires Runnable(w, ops, indexed) && w.meddled
    ensures Run(w, ops, indexed).meddled
    decreases |ops|
  {
    if ops != [] {
      MeddlingIsRemembered(Step(w, ops[0].0, ops[0].1, indexed), ops[1..], indexed);
    }
  }

  /** Without the index, the one-live rule alone keeps a single primary in every run in which no
      promote changed the primary while a primary-target request was live -- and such a run is step
      for step the one the index would have allowed. */
  lemma {:induction false} OneLiveSuffices(w: World, ops: seq<(Op, int)>)
    requires Sound(w) && Runnable(w, ops, false) && !Run(w, ops, false).meddled
    ensures Runnable(w, ops, true) && Run(w, ops, true) == Run(w, ops, false) && OnePrimary(Run(w, ops, false).t)
    decreases |ops|
  {
    if w.meddled {
      MeddlingIsRemembered(w, ops, false);
    }
    if ops != [] {
      IndexIdle(w, ops[0].0, ops[0].1);
      StepKeeps(w, ops[0].0, ops[0].1);
      OneLiveSuffices(Step(w, ops[0].0, ops[0].1, false), ops[1..]);
    }
  }

  /** With such a promote the index is needed: here two devices would be primary without it. */
  lemma IndexNeeded()
    ensures
      var t0 := Tables(map["old" := Device(Secondary, true, "", 1)], map[], None);
      var t1 := t0.Start("e", "host", "candidate", 0).0;
      var t2 := AfterPromote(t1, "old").0;
      var t3 := t2.ApproveCandidate("e", 1).0;
      && Complete(t3, "e", "host", "candidate", "new", "key", 2, true).1 == RoleRejected
      && !OnePrimary(Complete(t3, "e", "host", "candidate", "new", "key", 2, false).0)
  {
    var t0 := Tables(map["old" := Device(Secondary, true, "", 1)], map[], None);
    var t1 := t0.Start("e", "host", "candidate", 0).0;
    var t2 := AfterPromote(t1, "old").0;
    var t3 := t2.ApproveCandidate("e", 1).0;
    assert ValidIdentifier("e");
    assert t1.enrollments["e"].target == Primary && t2.IsPrimary("old") && t3.IsPrimary("old");
    IndexFires(t3, "e", "host", "candidate", "new", "key", 2);
    var free := Complete(t3, "e", "host", "candidate", "new", "key", 2, false).0;
    assert free.IsPrimary("old") && free.IsPrimary("new");
  }

  /** A promotion succeeds exactly for an active device, which is then the one primary; nothing but
      roles changes, and only those of the old and the new primary. */
  lemma PromoteExactly(t: Tables, device: string)
    requires OnePrimary(t)
    ensures
      var (u, r) := AfterPromote(t, device);
      && (r.Ok? <==> device in t.devices && t.devices[device].active)
      && (r.Ok? ==> forall d :: u.IsPrimary(d) <==> d == device)
      && u.devices.Keys == t.devices.Keys && u.enrollments == t.enrollments && u.lock == t.lock
      && (forall d :: d in t.devices ==>
            && u.devices[d].(role := t.devices[d].role) == t.devices[d]
            && (u.devices[d].role != t.devices[d].role ==> r.Ok? && (d == device || t.IsPrimary(d))))
      && (r.Err? ==> u == t)
  {
    var u := AfterPromote(t, device).0;
    if u != t {
      assert forall d :: u.IsPrimary(d) <==> d == device;
    } else {
      assert t.IsPrimary(device) ==> forall d :: t.IsPrimary(d) <==> d == device;
    }
  }

  // ---- Removal and re-registration --------------------------------------------------------------------

  /** Only a lone active primary that no credential, no enrollment and no lock refers to can be removed,
      and then it is all that goes. */
  lemma RemovalExactly(t: Tables, device: string)
    ensures
      var (u, r) := AfterRemove(t, device);
      && (r.Ok? <==>
            && device in t.devices && t.devices[device].role == Primary && t.devices[device].active
            && t.devices[device].credentials == 0 && t.lock != Some(device)
            && (forall id :: id in t.enrollments ==> t.enrollments[id].primaryDevice != Some(device))
            && forall d :: d in t.devices && t.devices[d].active ==> t.devices[d].role == Primary)
      && (r.Ok? ==>
            && device !in u.devices && u.(devices := t.devices) == t
            && forall d :: d in t.devices && d != device ==> d in u.devices && u.devices[d] == t.devices[d])
      && (r.Err? ==> u == t)
      && (MayRemove(t, device) <==>
            !(device in t.devices && t.devices[device].role == Primary
              && exists d :: d in t.devices && t.devices[d].active && t.devices[d].role == Secondary))
  {
  }

  /** Registering a device makes its row active, or adds it as a secondary without key or credential;
      revoking makes it inactive; neither changes anything else. */
  lemma RefreshExactly(t: Tables, device: string, now: int)
    ensures
      var u, v := Perform(t, RegisterOp(device), now, true), Perform(t, RevokeOp(device), now, true);
      && u == Register(t, device)
      && u.(devices := t.devices) == t && u.devices.Keys == t.devices.Keys + {device}
      && (forall d :: d in t.devices && d != device ==> u.devices[d] == t.devices[d])
      && u.devices[device] == (if device in t.devices then t.devices[device].(active := true)
                               else Device(Secondary, true, "", 0))
      && v.(devices := t.devices) == t && v.devices.Keys == t.devices.Keys
      && (forall d :: d in t.devices ==>
            v.devices[d] == if d == device then t.devices[d].(active := false) else t.devices[d])
  {
  }

  /** A completion that goes through adds one device: active, in the role the enrollment was for, with the
      proven key and one credential; and consumes that enrollment. */
  lemma CompletionExactly(t: Tables, id: string, host: string, candidate: string, device: string, key: string, now: int)
    requires device !in t.devices
    ensures
      var (u, r) := Complete(t, id, host, candidate, device, key, now, true);
      var (consumed, role) := t.Consume(id, host, candidate, now);
      && (r.Enrolled? <==> role.Ok? && !(role.value == Primary && t.HasPrimary()))
      && (r.Enrolled? ==>
            && r.role == role.value && u.enrollments == consumed.enrollments && u.lock == t.lock
            && u.devices == t.devices[device := Device(role.value, true, key, 1)])
      && (role.Err? ==> u == t)
  {
    IndexFires(t, id, host, candidate, device, key, now);
  }

  /** Every device that an enrollment or the lock names is on record. */
  ghost predicate Refers(t: Tables) {
    && (forall id :: id in t.enrollments && t.enrollments[id].primaryDevice.Some? ==>
          t.enrollments[id].primaryDevice.value in t.devices)
    && (t.lock.Some? ==> t.lock.value in t.devices)
  }

  lemma RefersStep(t: Tables, op: Op, now: int)
    requires Refers(t) && Allowed(t, op)
    ensures Refers(Perform(t, op, now, true))
  {
    match op
    case Coordinate(c) => RefersCoordinate(t, c, now);
    case RemoveOp(device) => RemovalExactly(t, device);
    case _ =>
  }

  lemma RefersCoordinate(t: Tables, c: EnrollmentRuns.Op, now: int)
    requires Refers(t) && Allowed(t, Coordinate(c))
    ensures Refers(EnrollmentRuns.Perform(t, c, now).0)
  {
  }

  /** Over any run no reference ever dangles: whoever approved an enrollment, or blocked one, stays. */
  lemma {:induction false} ReferencesHold(w: World, ops: seq<(Op, int)>)
    requires Refers(w.t) && Runnable(w, ops, true)
    ensures Refers(Run(w, ops, true).t)
    decreases |ops|
  {
    if ops != [] {
      RefersStep(w.t, ops[0].0, ops[0].1);
      ReferencesHold(Step(w, ops[0].0, ops[0].1, true), ops[1..]);
    }
  }

  /** Over any run, a device that holds a credential row keeps it, keeps its enrolled key, and so
      can never be removed; only a promote moves its role. */
  lemma {:induction false} EnrolledStays(w: World, ops: seq<(Op, int)>, device: string)
    requires Runnable(w, ops, true) && device in w.t.devices && w.t.devices[device].credentials > 0
    ensures
      var u := Run(w, ops, true).t;
      && device in u.devices && u.devices[device].credentials > 0 && u.devices[device].key == w.t.devices[device].key
      && AfterRemove(u, device).1.Err?
      && ((forall i :: 0 <= i < |ops| ==> !ops[i].0.PromoteOp?) ==> u.devices[device].role == w.t.devices[device].role)
    decreases |ops|
  {
    if ops != [] {
      EnrolledStep(w.t, ops[0].0, ops[0].1, device);
      var next := Step(w, ops[0].0, ops[0].1, true);
      EnrolledStays(next, ops[1..], device);
      assert (forall i :: 0 <= i < |ops| ==> !ops[i].0.PromoteOp?) ==> !ops[0].0.PromoteOp?;
      assert forall i :: 0 <= i < |ops[1..]| ==> ops[1..][i] == ops[i + 1];
    }
  }

  lemma EnrolledStep(t: Tables, op: Op, now: int, device: string)
    requires Allowed(t, op) && device in t.devices && t.devices[device].credentials > 0
    ensures
      var u := Perform(t, op, now, true);
      && device in u.devices && u.devices[device].credentials > 0 && u.devices[device].key == t.devices[device].key
      && (!op.PromoteOp? ==> u.devices[device].role == t.devices[device].role)
  {
  }
}
