/** Choosing the device one invocation is sent to (`ControlServer._resolve_target` in
    `hdp_bridge/control.py`), over the registry's rows, the live connections and one policy
    snapshot. */
module Targets {
  import opened Basics
  import opened Capabilities
  import Text

  datatype DeviceState = Active | Revoked

  datatype DeviceRecord = DeviceRecord(
    id: string, name: string, state: DeviceState, capabilities: seq<Descriptor>)

  datatype Target = Target(deviceId: string, conn: ConnId, version: int, descriptor: Descriptor)

  datatype Failure =
    | DeviceOffline(deviceId: string)
    | CapabilityUnsupported(deviceId: string)
    | NoMatchingDevice
    | AmbiguousDevice(candidates: seq<(string, string)>)
    | VersionIncompatible(deviceId: string, nodeSupports: seq<int>, pluginSupports: seq<int>)

  datatype Request = Request(capability: string, acceptable: seq<int>, deviceId: Option<string>)

  /** The registry's primary keys. */
  ghost predicate WellKeyed(rows: seq<DeviceRecord>) {
    forall i, j :: 0 <= i < j < |rows| ==> rows[i].id != rows[j].id
  }

  predicate Advertises(record: DeviceRecord, capability: string) {
    exists c :: c in record.capabilities && c.name == capability
  }

  predicate IsCandidate(record: DeviceRecord, connections: map<string, ConnId>, capability: string) {
    record.state == Active && record.id in connections && Advertises(record, capability)
  }

  // ---- The computation ------------------------------------------------------------------------

  function Lookup(rows: seq<DeviceRecord>, id: string): (r: Option<DeviceRecord>)
    ensures r.Some? ==> r.value in rows && r.value.id == id
    ensures r.None? ==> forall x :: x in rows ==> x.id != id
  {
    if rows == [] then None
    else if rows[0].id == id then Some(rows[0])
    else Lookup(rows[1..], id)
  }

  function Insert(record: DeviceRecord, sorted: seq<DeviceRecord>): (r: seq<DeviceRecord>)
    ensures forall x :: x in r <==> x == record || x in sorted
  {
    if sorted == [] || Text.Less(record.id, sorted[0].id) then [record] + sorted
    else [sorted[0]] + Insert(record, sorted[1..])
  }

  /** The candidates, sorted by device id. */
  function Candidates(rows: seq<DeviceRecord>, connections: map<string, ConnId>,
      capability: string): (r: seq<DeviceRecord>)
    ensures forall x :: x in r <==> x in rows && IsCandidate(x, connections, capability)
  {
    if rows == [] then []
    else
      var rest := Candidates(rows[1..], connections, capability);
      if IsCandidate(rows[0], connections, capability) then Insert(rows[0], rest) else rest
  }

  function InsertVersion(version: int, sorted: seq<int>): (r: seq<int>)
    ensures forall v :: v in r <==> v == version || v in sorted
  {
    if sorted == [] || version < sorted[0] then [version] + sorted
    else if version == sorted[0] then sorted
    else [sorted[0]] + InsertVersion(version, sorted[1..])
  }

  predicate Offers(caps: seq<Descriptor>, capability: string, version: int) {
    exists c :: c in caps && c.name == capability && c.version == version
  }

  /** The versions of `capability` among `caps`, ascending, without repetition. */
  function Versions(caps: seq<Descriptor>, capability: string): (r: seq<int>)
    ensures forall v :: v in r <==> Offers(caps, capability, v)
  {
    if caps == [] then []
    else
      var rest := Versions(caps[1..], capability);
      assert caps == [caps[0]] + caps[1..];
      assert forall v :: Offers(caps, capability, v) <==>
               (caps[0].name == capability && caps[0].version == v) || Offers(caps[1..], capability, v);
      if caps[0].name == capability then InsertVersion(caps[0].version, rest) else rest
  }

  /** The greatest of the ascending `versions` that is also in `acceptable`. */
  function GreatestMutual(versions: seq<int>, acceptable: seq<int>): (r: Option<int>)
    ensures r.Some? ==> r.value in versions && r.value in acceptable
    ensures r.None? ==> forall v :: v in versions ==> v !in acceptable
  {
    if versions == [] then None
    else if versions[|versions| - 1] in acceptable then Some(versions[|versions| - 1])
    else GreatestMutual(versions[..|versions| - 1], acceptable)
  }

  function FirstDescriptor(caps: seq<Descriptor>, capability: string, version: int): (d: Descriptor)
    requires Offers(caps, capability, version)
    ensures d in caps && d.name == capability && d.version == version
  {
    if caps[0].name == capability && caps[0].version == version then caps[0]
    else FirstDescriptor(caps[1..], capability, version)
  }

  function AtVersion(record: DeviceRecord, conn: ConnId, request: Request): Result<Target, Failure> {
    var supports := Versions(record.capabilities, request.capability);
    match GreatestMutual(supports, request.acceptable)
    case None => Err(VersionIncompatible(record.id, supports, request.acceptable))
    case Some(version) =>
      Ok(Target(record.id, conn, version, FirstDescriptor(record.capabilities, request.capability, version)))
  }

  function Listing(records: seq<DeviceRecord>): seq<(string, string)> {
    seq(|records|, i requires 0 <= i < |records| => (records[i].id, records[i].name))
  }

  function Resolve(rows: seq<DeviceRecord>, connections: map<string, ConnId>, default: Option<string>, request: Request)
    : Result<Target, Failure>
  {
    if request.deviceId.Some? then
      var id := request.deviceId.value;
      match Lookup(rows, id)
      case None => Err(DeviceOffline(id))
      case Some(record) =>
        if id !in connections || record.state != Active then Err(DeviceOffline(id))
        else if !Advertises(record, request.capability) then Err(CapabilityUnsupported(id))
        else AtVersion(record, connections[id], request)
    else
      var candidates := Candidates(rows, connections, request.capability);
      if candidates == [] then Err(NoMatchingDevice)
      else if |candidates| > 1 then
        match (if default.Some? then Lookup(candidates, default.value) else None)
        case None => Err(AmbiguousDevice(Listing(candidates)))
        case Some(record) => AtVersion(record, connections[record.id], request)
      else
        assert candidates[0] in candidates;
        AtVersion(candidates[0], connections[candidates[0].id], request)
  }

  // ---- What it means --------------------------------------------------------------------------

  /** Who can be chosen, told from the record's fields. */
  lemma CandidateExactly(record: DeviceRecord, connections: map<string, ConnId>, capability: string)
    ensures IsCandidate(record, connections, capability) <==>
            && record.state.Active? && record.id in connections.Keys
            && exists i, version :: 0 <= i < |record.capabilities|
                 && (record.capabilities[i].name, record.capabilities[i].version) == (capability, version)
  {
    if IsCandidate(record, connections, capability) {
      var c :| c in record.capabilities && c.name == capability;
      var i :| 0 <= i < |record.capabilities| && record.capabilities[i] == c;
      assert (record.capabilities[i].name, record.capabilities[i].version) == (capability, c.version);
    }
  }

  /** Of several descriptors for one version, the first one listed counts. */
  lemma {:induction false} FirstDescriptorExactly(caps: seq<Descriptor>, capability: string, version: int)
    ensures Offers(caps, capability, version) <==>
            exists i :: 0 <= i < |caps| && (caps[i].name, caps[i].version) == (capability, version)
    ensures Offers(caps, capability, version) ==>
              exists i :: 0 <= i < |caps| && caps[i] == FirstDescriptor(caps, capability, version)
                && forall j :: 0 <= j < i ==> (caps[j].name, caps[j].version) != (capability, version)
  {
    if Offers(caps, capability, version) {
      var c :| c in caps && c.name == capability && c.version == version;
      var k :| 0 <= k < |caps| && caps[k] == c;
      if !(caps[0].name == capability && caps[0].version == version) {
        assert caps[1..][k - 1] == c;
        FirstDescriptorExactly(caps[1..], capability, version);
        var i :| 0 <= i < |caps[1..]| && caps[1..][i] == FirstDescriptor(caps[1..], capability, version)
          && forall j :: 0 <= j < i ==> (caps[1..][j].name, caps[1..][j].version) != (capability, version);
        assert caps[i + 1] == caps[1..][i];
        forall j | 0 <= j < i + 1 ensures (caps[j].name, caps[j].version) != (capability, version) {
          if j > 0 { assert caps[j] == caps[1..][j - 1]; }
        }
      }
    }
  }

  /** `record` is the one device the request can mean. */
  ghost predicate Means(rows: seq<DeviceRecord>, connections: map<string, ConnId>, default: Option<string>,
      request: Request, record: DeviceRecord) {
    && record in rows && IsCandidate(record, connections, request.capability)
    && match request.deviceId
       case Some(id) => record.id == id
       case None =>
         || default == Some(record.id)
         || forall other :: other in rows && IsCandidate(other, connections, request.capability) ==> other == record
  }

  ghost predicate Several(rows: seq<DeviceRecord>, connections: map<string, ConnId>, capability: string) {
    exists a, b :: a in rows && b in rows && a != b
                   && IsCandidate(a, connections, capability) && IsCandidate(b, connections, capability)
  }

  ghost predicate Mutual(record: DeviceRecord, request: Request, version: int) {
    version in request.acceptable && Offers(record.capabilities, request.capability, version)
  }

  ghost predicate SortedRecords(records: seq<DeviceRecord>) {
    forall i, j :: 0 <= i < j < |records| ==> Text.Less(records[i].id, records[j].id)
  }

  ghost predicate SortedVersions(versions: seq<int>) {
    forall i, j :: 0 <= i < j < |versions| ==> versions[i] < versions[j]
  }

  /** A resolution is the meant device at the greatest mutually supported version, on its live
      connection, with a descriptor that device advertises. */
  lemma ResolvedExactly(rows: seq<DeviceRecord>, connections: map<string, ConnId>, default: Option<string>,
      request: Request)
    requires WellKeyed(rows)
    ensures
      Resolve(rows, connections, default, request).Ok? <==>
      exists r, v :: Means(rows, connections, default, request, r) && Mutual(r, request, v)
    ensures
      var answer := Resolve(rows, connections, default, request);
      answer.Ok? ==>
        var t := answer.value;
        && t.deviceId in connections && connections[t.deviceId] == t.conn
        && t.descriptor.name == request.capability && t.descriptor.version == t.version
        && exists record ::
             && Means(rows, connections, default, request, record) && record.id == t.deviceId
             && t.descriptor in record.capabilities
             && Mutual(record, request, t.version)
             && forall v :: Mutual(record, request, v) ==> v <= t.version
  {
    if r :| Means(rows, connections, default, request, r) {
      MeantDecides(rows, connections, default, request, r);
    } else {
      NobodyMeant(rows, connections, default, request);
    }
  }

  /** Each failure code says exactly what was wrong. */
  lemma FailuresExactly(rows: seq<DeviceRecord>, connections: map<string, ConnId>, default: Option<string>,
      request: Request)
    requires WellKeyed(rows)
    ensures
      var answer := Resolve(rows, connections, default, request);
      && (forall id :: answer == Err(DeviceOffline(id)) <==>
            request.deviceId == Some(id)
            && !exists r :: r in rows && r.id == id && r.state == Active && id in connections)
      && (forall id :: answer == Err(CapabilityUnsupported(id)) <==>
            request.deviceId == Some(id)
            && exists r ::
                r in rows && r.id == id && r.state == Active && id in connections && !Advertises(r, request.capability))
      && (answer == Err(NoMatchingDevice) <==>
            request.deviceId == None && !exists r :: r in rows && IsCandidate(r, connections, request.capability))
      && (answer.Err? && answer.error.AmbiguousDevice? <==>
            request.deviceId == None && Several(rows, connections, request.capability)
            && !exists r :: r in rows && IsCandidate(r, connections, request.capability) && default == Some(r.id))
      && (answer.Err? && answer.error.VersionIncompatible? <==>
            exists r :: Means(rows, connections, default, request, r) && forall v :: !Mutual(r, request, v))
  {
    SameIdSameRow(rows);
    if r :| Means(rows, connections, default, request, r) {
      MeantDecides(rows, connections, default, request, r);
    } else {
      NobodyMeant(rows, connections, default, request);
      if request.deviceId.Some? {
        forall r | r in rows && r.id == request.deviceId.value && r.state == Active && r.id in connections
          ensures !Advertises(r, request.capability)
        {
          assert !Means(rows, connections, default, request, r);
        }
      } else {
        forall r | r in rows && IsCandidate(r, connections, request.capability)
          ensures default != Some(r.id)
        {
          assert !Means(rows, connections, default, request, r);
        }
      }
    }
  }

  /** The extra lists a failure carries: every candidate once, in id order; and the versions the
      device supports, ascending. */
  lemma FailureLists(rows: seq<DeviceRecord>, connections: map<string, ConnId>, default: Option<string>,
      request: Request)
    requires WellKeyed(rows) && Resolve(rows, connections, default, request).Err?
    ensures
      match Resolve(rows, connections, default, request).error
      case AmbiguousDevice(listed) =>
        && (forall i, j :: 0 <= i < j < |listed| ==> Text.Less(listed[i].0, listed[j].0))
        && (forall r :: r in rows && IsCandidate(r, connections, request.capability) ==> (r.id, r.name) in listed)
        && (forall p :: p in listed ==>
              exists r :: r in rows && IsCandidate(r, connections, request.capability) && p == (r.id, r.name))
      case VersionIncompatible(id, supports, acceptable) =>
        && acceptable == request.acceptable && SortedVersions(supports)
        && exists r :: Means(rows, connections, default, request, r) && r.id == id
             && forall v :: v in supports <==> Offers(r.capabilities, request.capability, v)
      case _ => true
  {
    if r :| Means(rows, connections, default, request, r) {
      MeantDecides(rows, connections, default, request, r);
    } else {
      NobodyMeant(rows, connections, default, request);
      CandidatesSorted(rows, connections, request.capability);
      ListingExact(Candidates(rows, connections, request.capability));
    }
  }

  lemma ListingExact(records: seq<DeviceRecord>)
    ensures forall r :: r in records ==> (r.id, r.name) in Listing(records)
    ensures forall p :: p in Listing(records) ==> exists r :: r in records && p == (r.id, r.name)
  {
    forall r | r in records ensures (r.id, r.name) in Listing(records) {
      var i :| 0 <= i < |records| && records[i] == r;
      assert Listing(records)[i] == (r.id, r.name);
    }
  }

  /** Reordering the registry's rows does not change the answer. */
  lemma RowOrderIrrelevant(rows: seq<DeviceRecord>, others: seq<DeviceRecord>, connections: map<string, ConnId>,
      default: Option<string>, request: Request)
    requires WellKeyed(rows) && WellKeyed(others)
    requires forall r :: r in rows <==> r in others
    ensures Resolve(rows, connections, default, request) == Resolve(others, connections, default, request)
  {
    CandidatesSorted(rows, connections, request.capability);
    CandidatesSorted(others, connections, request.capability);
    SortedUnique(Candidates(rows, connections, request.capability),
        Candidates(others, connections, request.capability));
    if request.deviceId.Some? {
      SameIdSameRow(rows);
    }
  }

  // ---- Proofs ---------------------------------------------------------------------------------

  lemma {:induction false} InsertSorted(record: DeviceRecord, sorted: seq<DeviceRecord>)
    requires SortedRecords(sorted) && forall r :: r in sorted ==> r.id != record.id
    ensures SortedRecords(Insert(record, sorted))
  {
    if sorted != [] {
      Text.LessTrichotomy(record.id, sorted[0].id);
      if Text.Less(record.id, sorted[0].id) {
        forall i | 0 < i < |sorted| ensures Text.Less(record.id, sorted[i].id) {
          Text.LessTransitive(record.id, sorted[0].id, sorted[i].id);
        }
      } else {
        InsertSorted(record, sorted[1..]);
        var rest := Insert(record, sorted[1..]);
        forall i | 0 <= i < |rest| ensures Text.Less(sorted[0].id, rest[i].id) {
          assert rest[i] in rest;
        }
      }
    }
  }

  lemma {:induction false} CandidatesSorted(rows: seq<DeviceRecord>, connections: map<string, ConnId>,
      capability: string)
    requires WellKeyed(rows)
    ensures SortedRecords(Candidates(rows, connections, capability))
  {
    if rows != [] {
      CandidatesSorted(rows[1..], connections, capability);
      if IsCandidate(rows[0], connections, capability) {
        InsertSorted(rows[0], Candidates(rows[1..], connections, capability));
      }
    }
  }

  /** A strictly sorted list is determined by its elements. */
  lemma {:induction false} SortedUnique(a: seq<DeviceRecord>, b: seq<DeviceRecord>)
    requires SortedRecords(a) && SortedRecords(b) && forall r :: r in a <==> r in b
    ensures a == b
  {
    assert a != [] ==> a[0] in a && a[0] in b;
    assert b != [] ==> b[0] in b && b[0] in a;
    if a != [] {
      Text.LessTrichotomy(a[0].id, b[0].id);
      assert a[0] == b[0];
      Text.LessTrichotomy(a[0].id, a[0].id);
      assert a == [a[0]] + a[1..] && b == [b[0]] + b[1..];
      var head := a[0];
      assert head !in a[1..] && head !in b[1..];
      forall r | r in a[1..] ensures r in b[1..] {
        assert r in a && r != head;
        assert r in [head] + b[1..];
      }
      forall r | r in b[1..] ensures r in a[1..] {
        assert r in b && r != head;
        assert r in [head] + a[1..];
      }
      SortedUnique(a[1..], b[1..]);
    }
  }

  lemma {:induction false} InsertVersionSorted(version: int, sorted: seq<int>)
    requires SortedVersions(sorted)
    ensures SortedVersions(InsertVersion(version, sorted))
  {
    if sorted != [] && version > sorted[0] {
      InsertVersionSorted(version, sorted[1..]);
      var rest := InsertVersion(version, sorted[1..]);
      forall i | 0 <= i < |rest| ensures sorted[0] < rest[i] {
        assert rest[i] in rest;
      }
    }
  }

  lemma {:induction false} VersionsSorted(caps: seq<Descriptor>, capability: string)
    ensures SortedVersions(Versions(caps, capability))
  {
    if caps != [] {
      VersionsSorted(caps[1..], capability);
      InsertVersionSorted(caps[0].version, Versions(caps[1..], capability));
    }
  }

  lemma {:induction false} MutualIsGreatest(versions: seq<int>, acceptable: seq<int>)
    requires SortedVersions(versions) && GreatestMutual(versions, acceptable).Some?
    ensures forall v :: v in versions && v in acceptable ==> v <= GreatestMutual(versions, acceptable).value
  {
    if versions[|versions| - 1] !in acceptable {
      MutualIsGreatest(versions[..|versions| - 1], acceptable);
    }
  }

  lemma AtVersionExact(record: DeviceRecord, conn: ConnId, request: Request)
    ensures VersionOutcome(record, AtVersion(record, conn, request), conn, request)
  {
    VersionsSorted(record.capabilities, request.capability);
    var supports := Versions(record.capabilities, request.capability);
    if GreatestMutual(supports, request.acceptable).Some? {
      MutualIsGreatest(supports, request.acceptable);
    }
  }

  ghost predicate VersionOutcome(record: DeviceRecord, answer: Result<Target, Failure>, conn: ConnId,
      request: Request) {
    match answer
    case Ok(t) =>
      && t.deviceId == record.id && t.conn == conn && t.descriptor in record.capabilities
      && t.descriptor.name == request.capability && t.descriptor.version == t.version
      && Mutual(record, request, t.version) && forall v :: Mutual(record, request, v) ==> v <= t.version
    case Err(e) =>
      && e.VersionIncompatible? && e.deviceId == record.id && e.pluginSupports == request.acceptable
      && SortedVersions(e.nodeSupports)
      && (forall v :: v in e.nodeSupports <==> Offers(record.capabilities, request.capability, v))
      && forall v :: !Mutual(record, request, v)
  }

  lemma SameIdSameRow(rows: seq<DeviceRecord>)
    requires WellKeyed(rows)
    ensures forall a, b :: a in rows && b in rows && a.id == b.id ==> a == b
  {
  }

  /** The meant device, if there is one, is unique and decides the answer. */
  lemma MeantDecides(rows: seq<DeviceRecord>, connections: map<string, ConnId>, default: Option<string>,
      request: Request, record: DeviceRecord)
    requires WellKeyed(rows) && Means(rows, connections, default, request, record)
    ensures Resolve(rows, connections, default, request) == AtVersion(record, connections[record.id], request)
    ensures VersionOutcome(record, Resolve(rows, connections, default, request), connections[record.id], request)
    ensures forall other :: Means(rows, connections, default, request, other) ==> other == record
  {
    SameIdSameRow(rows);
    AtVersionExact(record, connections[record.id], request);
    var candidates := Candidates(rows, connections, request.capability);
    assert record in candidates;
    if request.deviceId.None? && |candidates| > 1 {
      TwoCandidates(rows, connections, request.capability);
    }
  }

  lemma TwoCandidates(rows: seq<DeviceRecord>, connections: map<string, ConnId>, capability: string)
    requires WellKeyed(rows)
    ensures |Candidates(rows, connections, capability)| > 1 <==> Several(rows, connections, capability)
  {
    var candidates := Candidates(rows, connections, capability);
    CandidatesSorted(rows, connections, capability);
    if |candidates| > 1 {
      Text.LessTrichotomy(candidates[0].id, candidates[1].id);
      assert candidates[0] in candidates && candidates[1] in candidates;
    }
    if Several(rows, connections, capability) {
      var a, b :| a in rows && b in rows && a != b
                  && IsCandidate(a, connections, capability) && IsCandidate(b, connections, capability);
      assert a in candidates && b in candidates;
    }
  }

  /** With no meant device the answer is one of the four early failures. */
  lemma NobodyMeant(rows: seq<DeviceRecord>, connections: map<string, ConnId>, default: Option<string>,
      request: Request)
    requires WellKeyed(rows) && forall r :: !Means(rows, connections, default, request, r)
    ensures
      var answer := Resolve(rows, connections, default, request);
      match request.deviceId
      case Some(id) =>
        if exists r :: r in rows && r.id == id && r.state == Active && id in connections
        then answer == Err(CapabilityUnsupported(id)) else answer == Err(DeviceOffline(id))
      case None =>
        if forall r :: r in rows ==> !IsCandidate(r, connections, request.capability)
        then answer == Err(NoMatchingDevice)
        else Several(rows, connections, request.capability)
             && answer == Err(AmbiguousDevice(Listing(Candidates(rows, connections, request.capability))))
  {
    SameIdSameRow(rows);
    match request.deviceId
    case Some(id) =>
      if Lookup(rows, id).Some? {
        assert !Means(rows, connections, default, request, Lookup(rows, id).value);
      }
    case None =>
      var candidates := Candidates(rows, connections, request.capability);
      TwoCandidates(rows, connections, request.capability);
      if |candidates| == 1 {
        assert candidates[0] in candidates;
        assert forall r :: r in candidates ==> r == candidates[0];
        assert Means(rows, connections, default, request, candidates[0]);
      } else if |candidates| > 1 && default.Some? && Lookup(candidates, default.value).Some? {
        assert Means(rows, connections, default, request, Lookup(candidates, default.value).value);
      } else if candidates != [] {
        assert candidates[0] in candidates;
      }
  }
}
