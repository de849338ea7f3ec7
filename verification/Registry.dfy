/** The device registry's full-set replacement (`hdp_bridge/registry.py`): one transaction that
    upserts the device row and replaces its capability rows, or changes nothing. */
module Registry {
  import opened Basics
  import Enrollment
  import Roles

  /** A schema is its serialised text; one that cannot be serialised has none. */
  datatype Capability = Capability(name: string, version: int, input: Option<string>, output: Option<string>)

  datatype Record = Record(
    device: string, name: string, platform: string, clientVersion: string,
    firstPairedAt: int, lastSeenAt: int, state: string, capabilities: seq<Capability>)

  datatype DeviceRow = DeviceRow(
    name: string, platform: string, clientVersion: string, firstPairedAt: int, lastSeenAt: int,
    state: string, role: Enrollment.Role, key: string)

  /** The primary key (device, name, version) of a capability row. */
  type Key = (string, string, int)

  type Schemas = (string, string)

  predicate Serialisable(c: Capability) { c.input.Some? && c.output.Some? }

  function KeyOf(device: string, c: Capability): Key { (device, c.name, c.version) }

  ghost predicate AllSerialisable(cs: seq<Capability>) { forall i :: 0 <= i < |cs| ==> Serialisable(cs[i]) }

  /** No two descriptors share name and version. */
  ghost predicate NoRepeats(cs: seq<Capability>) {
    forall i, j :: 0 <= i < j < |cs| ==> (cs[i].name, cs[i].version) != (cs[j].name, cs[j].version)
  }

  function OrElse(a: int, b: int): int { if a != 0 then a else b }

  function Upserted(devices: map<string, DeviceRow>, r: Record, now: int): map<string, DeviceRow> {
    devices[r.device :=
      if r.device in devices then
        devices[r.device].(name := r.name, platform := r.platform, clientVersion := r.clientVersion,
                           lastSeenAt := OrElse(r.lastSeenAt, now), state := r.state)
      else
        DeviceRow(r.name, r.platform, r.clientVersion, OrElse(r.firstPairedAt, now), OrElse(r.lastSeenAt, now), r.state,
            Enrollment.Secondary, "")]
  }

  /** `rows` holds, for the device, one row per descriptor of `cs` and no other; and what `before`
      holds for every other device. */
  ghost predicate Replaced(before: map<Key, Schemas>, rows: map<Key, Schemas>, device: string, cs: seq<Capability>) {
    && (forall k: Key :: k.0 != device ==> (k in rows <==> k in before) && (k in rows ==> rows[k] == before[k]))
    && (forall k: Key :: k in rows && k.0 == device ==> exists i :: 0 <= i < |cs| && KeyOf(device, cs[i]) == k)
    && (forall i :: 0 <= i < |cs| ==>
          && KeyOf(device, cs[i]) in rows && Serialisable(cs[i])
          && rows[KeyOf(device, cs[i])] == (cs[i].input.value, cs[i].output.value))
  }

  lemma InsertKeeps(before: map<Key, Schemas>, rows: map<Key, Schemas>, device: string, cs: seq<Capability>,
      c: Capability)
    requires Replaced(before, rows, device, cs) && NoRepeats(cs) && Serialisable(c) && KeyOf(device, c) !in rows
    ensures Replaced(before, rows[KeyOf(device, c) := (c.input.value, c.output.value)], device, cs + [c])
        && NoRepeats(cs + [c])
  {
    var all, key := cs + [c], KeyOf(device, c);
    forall i | 0 <= i < |cs| ensures (cs[i].name, cs[i].version) != (c.name, c.version) {
      assert KeyOf(device, cs[i]) in rows;
    }
    assert all[|cs|] == c && forall i :: 0 <= i < |cs| ==> all[i] == cs[i];
    forall k: Key | (k in rows || k == key) && k.0 == device
      ensures exists i :: 0 <= i < |all| && KeyOf(device, all[i]) == k
    {
      if k == key {
        assert KeyOf(device, all[|cs|]) == k;
      } else {
        var i :| 0 <= i < |cs| && KeyOf(device, cs[i]) == k;
        assert KeyOf(device, all[i]) == k;
      }
    }
  }

  /** A key already inserted means the list repeats a name and version. */
  lemma TakenMeansRepeated(before: map<Key, Schemas>, rows: map<Key, Schemas>, device: string, cs: seq<Capability>,
      n: nat)
    requires n < |cs| && Replaced(before, rows, device, cs[..n]) && KeyOf(device, cs[n]) in rows
    ensures !NoRepeats(cs)
  {
    var i :| 0 <= i < n && KeyOf(device, cs[..n][i]) == KeyOf(device, cs[n]);
    assert cs[i] == cs[..n][i];
  }

  class Registry {
    var devices: map<string, DeviceRow>
    var capabilities: map<Key, Schemas>

    constructor ()
      ensures devices == map[] && capabilities == map[]
    {
      devices, capabilities := map[], map[];
    }

    /** Raises exactly when a schema cannot be serialised or two descriptors share name and version,
        and then nothing has changed. */
    method Register(r: Record, now: int) returns (ok: bool)
      modifies this
      ensures ok <==> AllSerialisable(r.capabilities) && NoRepeats(r.capabilities)
      ensures ok ==> devices == Upserted(old(devices), r, now)
      ensures ok ==> Replaced(old(capabilities), capabilities, r.device, r.capabilities)
      ensures !ok ==> devices == old(devices) && capabilities == old(capabilities)
    {
      var cs := r.capabilities;
      for i := 0 to |cs|
        invariant forall k :: 0 <= k < i ==> Serialisable(cs[k])
      {
        if cs[i].input.None? || cs[i].output.None? { return false; }
      }
      var saved := devices;
      var first := if r.device in devices then devices[r.device].firstPairedAt else OrElse(r.firstPairedAt, now);
      var seen := OrElse(r.lastSeenAt, now);
      if r.device in devices {
        var row := devices[r.device].(name := r.name, platform := r.platform, clientVersion := r.clientVersion);
        devices := devices[r.device := row.(lastSeenAt := seen, state := r.state)];
      } else {
        devices := devices[r.device :=
            DeviceRow(r.name, r.platform, r.clientVersion, first, seen, r.state, Enrollment.Secondary, "")];
      }
      ok := ReplaceCapabilities(r.device, cs);
      if !ok { devices := saved; }
    }

    /** The DELETE, then one INSERT for each descriptor, undone if one violates the primary key. */
    method ReplaceCapabilities(device: string, cs: seq<Capability>) returns (ok: bool)
      requires AllSerialisable(cs)
      modifies this`capabilities
      ensures ok <==> NoRepeats(cs)
      ensures if ok then Replaced(old(capabilities), capabilities, device, cs) else capabilities == old(capabilities)
    {
      var saved := capabilities;
      capabilities := map k: Key | k in capabilities && k.0 != device :: capabilities[k];
      for i := 0 to |cs|
        invariant Replaced(saved, capabilities, device, cs[..i]) && NoRepeats(cs[..i])
      {
        var key := KeyOf(device, cs[i]);
        if key in capabilities {
          TakenMeansRepeated(saved, capabilities, device, cs, i);
          capabilities := saved;
          return false;
        }
        InsertKeeps(saved, capabilities, device, cs[..i], cs[i]);
        capabilities := capabilities[key := (cs[i].input.value, cs[i].output.value)];
        assert cs[..i + 1] == cs[..i] + [cs[i]];
      }
      assert cs[..|cs|] == cs;
      return true;
    }
  }

  /** A registration writes what the record says about its own device, zero times being the present; the
      first pairing time, role and key are only set on the first; and no other row changes. */
  lemma UpsertExactly(devices: map<string, DeviceRow>, r: Record, now: int)
    ensures
      var after := Upserted(devices, r, now);
      && after.Keys == devices.Keys + {r.device}
      && (forall d :: d in devices && d != r.device ==> after[d] == devices[d])
      && var row := after[r.device];
         && (row.name, row.platform, row.clientVersion, row.state) == (r.name, r.platform, r.clientVersion, r.state)
         && row.lastSeenAt == (if r.lastSeenAt == 0 then now else r.lastSeenAt)
         && if r.device in devices then
              (row.firstPairedAt, row.role, row.key) ==
              (devices[r.device].firstPairedAt, devices[r.device].role, devices[r.device].key)
            else
              && row.firstPairedAt == (if r.firstPairedAt == 0 then now else r.firstPairedAt)
              && row.role == Enrollment.Secondary && row.key == ""
  {
  }

  /** What the enrollment tables keep of a device row, and of all of them; a device not yet known has
      no credentials. */
  function Project(row: DeviceRow, credentials: nat): Enrollment.Device {
    Enrollment.Device(row.role, row.state == "active", row.key, credentials)
  }

  function ProjectAll(devices: map<string, DeviceRow>, credentials: map<string, nat>): map<string, Enrollment.Device> {
    map d | d in devices :: Project(devices[d], if d in credentials then credentials[d] else 0)
  }

  /** Seen through the enrollment tables, registering an active record is `Roles.Register`: the row
      becomes active, or a new active secondary without a key, and nothing else changes. */
  lemma RegisterIsRolesRegister(
    devices: map<string, DeviceRow>, credentials: map<string, nat>, t: Enrollment.Tables, r: Record, now: int)
    requires t.devices == ProjectAll(devices, credentials) && r.state == "active"
    requires r.device in credentials ==> r.device in devices
    ensures ProjectAll(Upserted(devices, r, now), credentials) == Roles.Register(t, r.device).devices
  {
  }

  /** However often and with whatever records a device is registered again, by itself or between
      registrations of others: its role, its enrolled key and its first pairing time stay. */
  lemma {:induction false} ReRegistrationKeeps(devices: map<string, DeviceRow>, records: seq<(Record, int)>,
      device: string)
    requires device in devices
    ensures
      var after := RegisterAll(devices, records);
      && device in after
      && (after[device].role, after[device].key, after[device].firstPairedAt) ==
         (devices[device].role, devices[device].key, devices[device].firstPairedAt)
    decreases |records|
  {
    if records != [] {
      ReRegistrationKeeps(Upserted(devices, records[0].0, records[0].1), records[1..], device);
    }
  }

  function RegisterAll(devices: map<string, DeviceRow>, records: seq<(Record, int)>): map<string, DeviceRow>
    decreases |records|
  {
    if records == [] then devices else RegisterAll(Upserted(devices, records[0].0, records[0].1), records[1..])
  }
}
