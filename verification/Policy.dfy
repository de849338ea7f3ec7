/** Fail-closed permission policy (`hdp_bridge/policy.py`): parsing a decoded document into one
    immutable snapshot, looking a device and capability up in it, and replacing the snapshot. */
module Policy {
  import opened Basics

  datatype Mode = Deny | Ask | Session | Device | Always

  datatype Source = DeviceCapability | DeviceDefault | GlobalDefault | Fallback

  datatype Decision = Decision(mode: Mode, source: Source, policySeq: nat)

  type Modes = seq<(string, Mode)>

  datatype PolicyTable = PolicyTable(
    defaults: Modes,
    devices: seq<(string, Modes)>,
    defaultDevices: seq<(string, string)>,
    policySeq: nat)
  {
    /** The documented four layers, in order. */
    function Resolve(deviceId: string, capability: string): Decision {
      var own := Find(devices, deviceId);
      if own.Some? && Find(own.value, capability).Some? then
        Decision(Find(own.value, capability).value, DeviceCapability, policySeq)
      else if own.Some? && Find(own.value, "default").Some? then
        Decision(Find(own.value, "default").value, DeviceDefault, policySeq)
      else if Find(defaults, capability).Some? then
        Decision(Find(defaults, capability).value, GlobalDefault, policySeq)
      else
        Decision(Deny, Fallback, policySeq)
    }

    function DefaultDeviceFor(capability: string): Option<string> {
      Find(defaultDevices, capability)
    }
  }

  /** The first pair whose key is `key`. */
  function Find<V>(pairs: seq<(string, V)>, key: string): (found: Option<V>)
    ensures found.Some? ==> exists i :: 0 <= i < |pairs| && pairs[i] == (key, found.value)
    ensures found.None? <==> forall i :: 0 <= i < |pairs| ==> pairs[i].0 != key
  {
    if pairs == [] then None
    else if pairs[0].0 == key then Some(pairs[0].1)
    else Find(pairs[1..], key)
  }

  // ---- Parsing ------------------------------------------------------------------------------

  /** A decoded YAML value.  Mappings keep document order; the loader refuses repeated keys. */
  datatype Yaml =
    | Text(s: string)
    | Integer(n: int)
    | Real(r: real)
    | Boolean(b: bool)
    | Nothing
    | Sequence(items: seq<Yaml>)
    | Mapping(entries: seq<(Yaml, Yaml)>)

  datatype PolicyError =
    | DocumentNotMapping | BadVersion | UnsupportedKeys
    | SectionNotMapping | KeyNotText | BadCapability | MisplacedDefault | BadMode
    | DefaultNotConfigured | BadDefaultDevice

  function Get(entries: seq<(Yaml, Yaml)>, key: string): Option<Yaml> {
    if entries == [] then None
    else if entries[0].0 == Text(key) then Some(entries[0].1)
    else Get(entries[1..], key)
  }

  function Section(doc: Yaml, key: string): Yaml
    requires doc.Mapping?
  {
    Get(doc.entries, key).GetOr(Mapping([]))
  }

  /** `1`, `1.0` and `true` all compare equal to the version number in the source language. */
  predicate IsVersionOne(value: Option<Yaml>) {
    value == Some(Integer(1)) || value == Some(Real(1.0)) || value == Some(Boolean(true))
  }

  predicate OnlyKnownKeys(doc: Yaml)
    requires doc.Mapping?
  {
    forall i :: 0 <= i < |doc.entries| ==>
      doc.entries[i].0 in [Text("version"), Text("defaults"), Text("devices"), Text("default_device")]
  }

  predicate Segment(s: string) {
    && s != "" && 'a' <= s[0] <= 'z'
    && forall i :: 0 <= i < |s| ==> 'a' <= s[i] <= 'z' || '0' <= s[i] <= '9' || s[i] == '_'
  }

  predicate CapabilityName(s: string) {
    exists dot :: 0 <= dot < |s| && s[dot] == '.' && Segment(s[..dot]) && Segment(s[dot + 1..])
  }

  function ModeName(mode: Mode): string {
    match mode
    case Deny => "deny"
    case Ask => "ask"
    case Session => "session"
    case Device => "device"
    case Always => "always"
  }

  function ParseMode(s: string): Option<Mode> {
    if s == "deny" then Some(Deny)
    else if s == "ask" then Some(Ask)
    else if s == "session" then Some(Session)
    else if s == "device" then Some(Device)
    else if s == "always" then Some(Always)
    else None
  }

  function ParseModes(value: Yaml, permitDefault: bool): Result<Modes, PolicyError> {
    if !value.Mapping? then Err(SectionNotMapping) else ParseEntries(value.entries, permitDefault)
  }

  function ParseEntries(entries: seq<(Yaml, Yaml)>, permitDefault: bool): Result<Modes, PolicyError> {
    if entries == [] then Ok([])
    else
      var (key, raw) := entries[0];
      if !key.Text? then Err(KeyNotText)
      else if key.s != "default" && !CapabilityName(key.s) then Err(BadCapability)
      else if key.s == "default" && !permitDefault then Err(MisplacedDefault)
      else if !raw.Text? || ParseMode(raw.s).None? then Err(BadMode)
      else
        match ParseEntries(entries[1..], permitDefault)
        case Err(e) => Err(e)
        case Ok(rest) => Ok([(key.s, ParseMode(raw.s).value)] + rest)
  }

  function ParseDevices(entries: seq<(Yaml, Yaml)>): Result<seq<(string, Modes)>, PolicyError> {
    if entries == [] then Ok([])
    else
      var (key, raw) := entries[0];
      if !key.Text? then Err(KeyNotText)
      else
        match ParseModes(raw, true)
        case Err(e) => Err(e)
        case Ok(modes) =>
          match ParseDevices(entries[1..])
          case Err(e) => Err(e)
          case Ok(rest) => Ok([(key.s, modes)] + rest)
  }

  predicate Mentions(modes: Modes, capability: string) {
    exists i :: 0 <= i < |modes| && modes[i].0 == capability
  }

  /** The capabilities some rule of the document mentions. */
  predicate Configured(defaults: Modes, devices: seq<(string, Modes)>, capability: string) {
    || Mentions(defaults, capability)
    || (capability != "default" && (exists d :: 0 <= d < |devices| && Mentions(devices[d].1, capability)))
  }

  function ParseDefaultDevices(entries: seq<(Yaml, Yaml)>, defaults: Modes, devices: seq<(string, Modes)>)
    : Result<seq<(string, string)>, PolicyError>
  {
    if entries == [] then Ok([])
    else
      var (key, raw) := entries[0];
      if !key.Text? || !CapabilityName(key.s) then Err(BadCapability)
      else if !Configured(defaults, devices, key.s) then Err(DefaultNotConfigured)
      else if !raw.Text? || raw.s == "" then Err(BadDefaultDevice)
      else
        match ParseDefaultDevices(entries[1..], defaults, devices)
        case Err(e) => Err(e)
        case Ok(rest) => Ok([(key.s, raw.s)] + rest)
  }

  function FromData(doc: Yaml, policySeq: nat): Result<PolicyTable, PolicyError> {
    if !doc.Mapping? then Err(DocumentNotMapping)
    else if !IsVersionOne(Get(doc.entries, "version")) then Err(BadVersion)
    else if !OnlyKnownKeys(doc) then Err(UnsupportedKeys)
    else
      match ParseModes(Section(doc, "defaults"), false)
      case Err(e) => Err(e)
      case Ok(defaults) =>
        if !Section(doc, "devices").Mapping? then Err(SectionNotMapping)
        else
          match ParseDevices(Section(doc, "devices").entries)
          case Err(e) => Err(e)
          case Ok(devices) =>
            if !Section(doc, "default_device").Mapping? then Err(SectionNotMapping)
            else
              match ParseDefaultDevices(Section(doc, "default_device").entries, defaults, devices)
              case Err(e) => Err(e)
              case Ok(defaultDevices) => Ok(PolicyTable(defaults, devices, defaultDevices, policySeq))
  }

  // ---- What parsing means ---------------------------------------------------------------------

  function RenderModes(modes: Modes): Yaml {
    Mapping(seq(|modes|, i requires 0 <= i < |modes| => (Text(modes[i].0), Text(ModeName(modes[i].1)))))
  }

  function RenderDevices(devices: seq<(string, Modes)>): Yaml {
    Mapping(seq(|devices|, i requires 0 <= i < |devices| => (Text(devices[i].0), RenderModes(devices[i].1))))
  }

  function RenderDefaultDevices(pairs: seq<(string, string)>): Yaml {
    Mapping(seq(|pairs|, i requires 0 <= i < |pairs| => (Text(pairs[i].0), Text(pairs[i].1))))
  }

  ghost predicate ValidModes(modes: Modes, permitDefault: bool) {
    forall i :: 0 <= i < |modes| ==>
      if modes[i].0 == "default" then permitDefault else CapabilityName(modes[i].0)
  }

  ghost predicate ValidTable(t: PolicyTable) {
    && ValidModes(t.defaults, false)
    && (forall i :: 0 <= i < |t.devices| ==> ValidModes(t.devices[i].1, true))
    && ValidDefaultDevices(t.defaultDevices, t.defaults, t.devices)
  }

  ghost predicate ValidDefaultDevices(pairs: seq<(string, string)>, defaults: Modes, devices: seq<(string, Modes)>) {
    forall i :: 0 <= i < |pairs| ==>
      CapabilityName(pairs[i].0) && Configured(defaults, devices, pairs[i].0) && pairs[i].1 != ""
  }

  predicate WordChar(c: char) { 'a' <= c <= 'z' || '0' <= c <= '9' || c == '_' }

  /** Before the dot and after it, a letter and then word characters. */
  predicate TwoWords(s: string, dot: int) {
    && 0 < dot < |s| - 1 && s[dot] == '.' && 'a' <= s[0] <= 'z' && 'a' <= s[dot + 1] <= 'z'
    && forall i :: 0 <= i < |s| && i != dot ==> WordChar(s[i])
  }

  /** A capability's name is two words joined by a dot, each of lower-case letters, digits and underscores
      and beginning with a letter. */
  lemma CapabilityNameExactly(s: string)
    ensures CapabilityName(s) <==> exists dot :: TwoWords(s, dot)
  {
    if CapabilityName(s) {
      var dot :| 0 <= dot < |s| && s[dot] == '.' && Segment(s[..dot]) && Segment(s[dot + 1..]);
      SegmentsAt(s, dot);
      assert TwoWords(s, dot);
    }
    if dot :| TwoWords(s, dot) {
      SegmentsAt(s, dot);
      assert s[dot] == '.';
    }
  }

  lemma SegmentsAt(s: string, dot: nat)
    requires dot < |s| && s[dot] == '.'
    ensures Segment(s[..dot]) && Segment(s[dot + 1..]) <==> TwoWords(s, dot)
  {
    var a, b := s[..dot], s[dot + 1..];
    if Segment(a) && Segment(b) {
      forall i | 0 <= i < |s| && i != dot ensures WordChar(s[i]) {
        if i < dot { assert s[i] == a[i]; } else { assert s[i] == b[i - dot - 1]; }
      }
    }
  }

  /** A default device needs some rule for its capability: a global default, or an entry of any device. */
  lemma ConfiguredExactly(defaults: Modes, devices: seq<(string, Modes)>, capability: string)
    ensures Configured(defaults, devices, capability) <==>
            || (exists mode :: (capability, mode) in defaults)
            || (capability != "default" && exists d, mode :: d in devices && (capability, mode) in d.1)
  {
    if i :| 0 <= i < |defaults| && defaults[i].0 == capability { assert (capability, defaults[i].1) in defaults; }
    forall d | 0 <= d < |devices| && Mentions(devices[d].1, capability)
      ensures exists mode :: (capability, mode) in devices[d].1
    {
      var i :| 0 <= i < |devices[d].1| && devices[d].1[i].0 == capability;
      assert (capability, devices[d].1[i].1) in devices[d].1;
    }
    if mode :| (capability, mode) in defaults {
      var i :| 0 <= i < |defaults| && defaults[i] == (capability, mode);
    }
    if d, mode :| d in devices && (capability, mode) in d.1 {
      var k :| 0 <= k < |devices| && devices[k] == d;
      var i :| 0 <= i < |d.1| && d.1[i] == (capability, mode);
      assert Mentions(devices[k].1, capability);
    }
  }

  /** The five words of the policy file. */
  lemma ModeWords()
    ensures ParseMode("deny") == Some(Deny) && ParseMode("ask") == Some(Ask) && ParseMode("session") == Some(Session)
    ensures ParseMode("device") == Some(Device) && ParseMode("always") == Some(Always)
    ensures forall s :: ParseMode(s).Some? ==>
              s == "deny" || s == "ask" || s == "session" || s == "device" || s == "always"
  {
  }

  /** A document is accepted as the table `t` exactly when each of its sections is the rendering
      of the corresponding part of the valid table `t`: nothing is dropped, reordered or
      invented, and nothing malformed gets through. */
  lemma AcceptedExactly(doc: Yaml, policySeq: nat, t: PolicyTable)
    ensures FromData(doc, policySeq) == Ok(t) <==>
            && doc.Mapping?
            && (var version := Get(doc.entries, "version");
                version == Some(Integer(1)) || version == Some(Real(1.0)) || version == Some(Boolean(true)))
            && (forall e :: e in doc.entries ==>
                  e.0 == Text("version") || e.0 == Text("defaults") || e.0 == Text("devices")
                  || e.0 == Text("default_device"))
            && Section(doc, "defaults") == RenderModes(t.defaults)
            && Section(doc, "devices") == RenderDevices(t.devices)
            && Section(doc, "default_device") == RenderDefaultDevices(t.defaultDevices)
            && ValidTable(t) && t.policySeq == policySeq
  {
    if doc.Mapping? {
      ModesExact(Section(doc, "defaults"), false, t.defaults);
      if Section(doc, "devices").Mapping? {
        DevicesExact(Section(doc, "devices").entries, t.devices);
      }
      if Section(doc, "default_device").Mapping? {
        DefaultDevicesExact(Section(doc, "default_device").entries, t.defaults, t.devices, t.defaultDevices);
      }
    }
  }

  lemma ModesExact(value: Yaml, permitDefault: bool, modes: Modes)
    ensures ParseModes(value, permitDefault) == Ok(modes) <==>
            value == RenderModes(modes) && ValidModes(modes, permitDefault)
  {
    if value.Mapping? {
      EntriesExact(value.entries, permitDefault, modes);
    }
  }

  lemma ModeNames(s: string, mode: Mode)
    ensures ParseMode(s) == Some(mode) <==> s == ModeName(mode)
  {
    assert ModeName(Deny)[0] == 'd' && ModeName(Ask)[0] == 'a' && ModeName(Session)[0] == 's';
    assert |ModeName(Device)| == 6 && |ModeName(Always)| == 6 && |ModeName(Deny)| == 4 && |ModeName(Ask)| == 3;
  }

  lemma {:induction false} EntriesExact(entries: seq<(Yaml, Yaml)>, permitDefault: bool, modes: Modes)
    ensures ParseEntries(entries, permitDefault) == Ok(modes) <==>
            entries == RenderModes(modes).entries && ValidModes(modes, permitDefault)
  {
    if entries != [] && modes != [] {
      EntriesExact(entries[1..], permitDefault, modes[1..]);
      if entries[0].1.Text? {
        ModeNames(entries[0].1.s, modes[0].1);
      }
      assert modes == [modes[0]] + modes[1..] && entries == [entries[0]] + entries[1..];
      assert RenderModes(modes).entries == [(Text(modes[0].0), Text(ModeName(modes[0].1)))] +
          RenderModes(modes[1..]).entries;
      assert RenderModes(modes).entries[1..] == RenderModes(modes[1..]).entries;
      assert ValidModes(modes, permitDefault) <==>
          ValidModes([modes[0]], permitDefault) && ValidModes(modes[1..], permitDefault);
    }
  }

  lemma {:induction false} DevicesExact(entries: seq<(Yaml, Yaml)>, devices: seq<(string, Modes)>)
    ensures ParseDevices(entries) == Ok(devices) <==>
            entries == RenderDevices(devices).entries && forall i :: 0 <= i < |devices| ==>
                ValidModes(devices[i].1, true)
  {
    if entries != [] && devices != [] {
      ModesExact(entries[0].1, true, devices[0].1);
      DevicesExact(entries[1..], devices[1..]);
      assert devices == [devices[0]] + devices[1..] && entries == [entries[0]] + entries[1..];
      assert RenderDevices(devices).entries == [(Text(devices[0].0), RenderModes(devices[0].1))] +
          RenderDevices(devices[1..]).entries;
    }
  }

  lemma {:induction false} DefaultDevicesExact(entries: seq<(Yaml, Yaml)>, defaults: Modes,
      devices: seq<(string, Modes)>, pairs: seq<(string, string)>)
    ensures ParseDefaultDevices(entries, defaults, devices) == Ok(pairs) <==>
            entries == RenderDefaultDevices(pairs).entries && ValidDefaultDevices(pairs, defaults, devices)
  {
    if entries != [] && pairs != [] {
      DefaultDevicesExact(entries[1..], defaults, devices, pairs[1..]);
      var (key, raw) := entries[0];
      var one := (Text(pairs[0].0), Text(pairs[0].1));
      assert pairs == [pairs[0]] + pairs[1..] && entries == [entries[0]] + entries[1..];
      assert RenderDefaultDevices(pairs).entries == [one] + RenderDefaultDevices(pairs[1..]).entries;
      assert entries == RenderDefaultDevices(pairs).entries <==>
             entries[0] == one && entries[1..] == RenderDefaultDevices(pairs[1..]).entries;
      assert ValidDefaultDevices(pairs, defaults, devices)
        <==> ValidDefaultDevices([pairs[0]], defaults, devices) && ValidDefaultDevices(pairs[1..], defaults, devices);
      match ParseDefaultDevices(entries[1..], defaults, devices)
      case Err(_) =>
      case Ok(rest) =>
        if key.Text? && raw.Text? {
          assert [(key.s, raw.s)] + rest == pairs <==> (key.s, raw.s) == pairs[0] && rest == pairs[1..];
        }
    }
  }

  // ---- Fail closed ------------------------------------------------------------------------------

  /** Some entry of the document's own `devices` or `defaults` section spells out `mode` for this
      device and capability (or, for the device, as its `default`). */
  ghost predicate Written(doc: Yaml, deviceId: string, capability: string, mode: Mode)
    requires doc.Mapping?
  {
    || (Section(doc, "defaults").Mapping?
         && (Text(capability), Text(ModeName(mode))) in Section(doc, "defaults").entries)
    || (Section(doc, "devices").Mapping? && exists modes: seq<(Yaml, Yaml)> ::
          && (Text(deviceId), Mapping(modes)) in Section(doc, "devices").entries
          && ((Text(capability), Text(ModeName(mode))) in modes || (Text("default"), Text(ModeName(mode))) in modes))
  }

  /** A mode other than `deny` is only ever the answer when the operator wrote it down. */
  lemma FailsClosed(doc: Yaml, policySeq: nat, deviceId: string, capability: string)
    requires FromData(doc, policySeq).Ok?
    requires FromData(doc, policySeq).value.Resolve(deviceId, capability).mode != Deny
    ensures Written(doc, deviceId, capability, FromData(doc, policySeq).value.Resolve(deviceId, capability).mode)
  {
    var t := FromData(doc, policySeq).value;
    var decision := t.Resolve(deviceId, capability);
    AcceptedExactly(doc, policySeq, t);
    if decision.source == GlobalDefault {
      RenderedMode(t.defaults, capability, decision.mode);
    } else {
      var key := if decision.source == DeviceCapability then capability else "default";
      RenderedDevice(t.devices, deviceId, key, decision.mode);
    }
  }

  lemma RenderedMode(modes: Modes, key: string, mode: Mode)
    requires Find(modes, key) == Some(mode)
    ensures (Text(key), Text(ModeName(mode))) in RenderModes(modes).entries
  {
    var i :| 0 <= i < |modes| && modes[i] == (key, mode);
    assert RenderModes(modes).entries[i] == (Text(key), Text(ModeName(mode)));
  }

  lemma RenderedDevice(devices: seq<(string, Modes)>, device: string, key: string, mode: Mode)
    requires Find(devices, device).Some? && Find(Find(devices, device).value, key) == Some(mode)
    ensures exists modes: seq<(Yaml, Yaml)> ::
              && (Text(device), Mapping(modes)) in RenderDevices(devices).entries
              && (Text(key), Text(ModeName(mode))) in modes
  {
    var modes := Find(devices, device).value;
    RenderedMode(modes, key, mode);
    var d :| 0 <= d < |devices| && devices[d] == (device, modes);
    assert RenderDevices(devices).entries[d] == (Text(device), Mapping(RenderModes(modes).entries));
  }

  // ---- The four layers ---------------------------------------------------------------------------

  /** As in a decoded mapping, which has no repeated keys. */
  ghost predicate DistinctKeys<V>(pairs: seq<(string, V)>) {
    forall i, j :: 0 <= i < j < |pairs| ==> pairs[i].0 != pairs[j].0
  }

  ghost predicate Keyed(t: PolicyTable) {
    && DistinctKeys(t.devices) && DistinctKeys(t.defaults) && DistinctKeys(t.defaultDevices)
    && forall d :: d in t.devices ==> DistinctKeys(d.1)
  }

  /** What one layer of a table has to say about a device and a capability. */
  ghost predicate Says(t: PolicyTable, layer: Source, deviceId: string, capability: string, mode: Mode) {
    match layer
    case DeviceCapability => exists d :: d in t.devices && d.0 == deviceId && (capability, mode) in d.1
    case DeviceDefault => exists d :: d in t.devices && d.0 == deviceId && ("default", mode) in d.1
    case GlobalDefault => (capability, mode) in t.defaults
    case Fallback => mode == Deny
  }

  function Order(layer: Source): nat {
    match layer case DeviceCapability => 0 case DeviceDefault => 1 case GlobalDefault => 2 case Fallback => 3
  }

  lemma FindExact<V>(pairs: seq<(string, V)>, key: string, value: V)
    requires DistinctKeys(pairs)
    ensures Find(pairs, key) == Some(value) <==> (key, value) in pairs
  {
    if (key, value) in pairs {
      var i :| 0 <= i < |pairs| && pairs[i] == (key, value);
      assert Find(pairs, key).Some?;
      var j :| 0 <= j < |pairs| && pairs[j] == (key, Find(pairs, key).value);
    }
  }

  function LookUp(t: PolicyTable, layer: Source, deviceId: string, capability: string): Option<Mode> {
    var own := Find(t.devices, deviceId);
    match layer
    case DeviceCapability => if own.Some? then Find(own.value, capability) else None
    case DeviceDefault => if own.Some? then Find(own.value, "default") else None
    case GlobalDefault => Find(t.defaults, capability)
    case Fallback => Some(Deny)
  }

  lemma SaysExact(t: PolicyTable, layer: Source, deviceId: string, capability: string, mode: Mode)
    requires Keyed(t)
    ensures Says(t, layer, deviceId, capability, mode) <==> LookUp(t, layer, deviceId, capability) == Some(mode)
  {
    FindExact(t.defaults, capability, mode);
    forall d | d in t.devices && d.0 == deviceId ensures Find(t.devices, deviceId) == Some(d.1) {
      FindExact(t.devices, deviceId, d.1);
    }
    var own := Find(t.devices, deviceId);
    if own.Some? {
      assert (deviceId, own.value) in t.devices;
      FindExact(own.value, capability, mode);
      FindExact(own.value, "default", mode);
    }
  }

  ghost predicate SilentBefore(t: PolicyTable, layer: Source, deviceId: string, capability: string) {
    forall earlier, m :: Order(earlier) < Order(layer) ==> !Says(t, earlier, deviceId, capability, m)
  }

  lemma SilenceExact(t: PolicyTable, layer: Source, deviceId: string, capability: string)
    requires Keyed(t)
    ensures SilentBefore(t, layer, deviceId, capability) <==>
            forall earlier :: Order(earlier) < Order(layer) ==> LookUp(t, earlier, deviceId, capability).None?
  {
    forall earlier, m
      ensures Says(t, earlier, deviceId, capability, m) <==> LookUp(t, earlier, deviceId, capability) == Some(m)
    {
      SaysExact(t, earlier, deviceId, capability, m);
    }
    if SilentBefore(t, layer, deviceId, capability) {
      forall earlier | Order(earlier) < Order(layer) ensures LookUp(t, earlier, deviceId, capability).None? {
        assert !Says(t, earlier, deviceId, capability, LookUp(t, earlier, deviceId, capability).GetOr(Deny));
      }
    }
  }

  /** The decision is what the first layer that says anything says; and the default device is the
      one configured for the capability. */
  lemma FirstLayerDecides(t: PolicyTable, deviceId: string, capability: string, mode: Mode, layer: Source)
    requires Keyed(t)
    ensures t.Resolve(deviceId, capability) == Decision(mode, layer, t.policySeq) <==>
            Says(t, layer, deviceId, capability, mode) && SilentBefore(t, layer, deviceId, capability)
    ensures forall d :: t.DefaultDeviceFor(capability) == Some(d) <==> (capability, d) in t.defaultDevices
  {
    SaysExact(t, layer, deviceId, capability, mode);
    SilenceExact(t, layer, deviceId, capability);
    assert Order(DeviceCapability) < Order(DeviceDefault) < Order(GlobalDefault) < Order(Fallback);
    forall d ensures t.DefaultDeviceFor(capability) == Some(d) <==> (capability, d) in t.defaultDevices {
      FindExact(t.defaultDevices, capability, d);
    }
  }

  // ---- The engine -------------------------------------------------------------------------------

  /** One attempt to read the policy file: its identity and what decoding its bytes produced. */
  datatype File = File(token: nat, contents: Decoded)

  /** No YAML, or a repeated key; a mapping key that cannot be hashed, at which the loader raises
      TypeError; or a document. */
  datatype Decoded = Undecodable | UnhashableKey | Document(doc: Yaml)

  /** The identifiers a document names, as the known-device check collects them. */
  function NamedDevices(doc: Yaml): set<Yaml>
    requires doc.Mapping? && Section(doc, "devices").Mapping?
  {
    (set e | e in Section(doc, "devices").entries :: e.0)
    + (if Section(doc, "default_device").Mapping?
       then set e | e in Section(doc, "default_device").entries && e.1.Text? :: e.1 else {})
  }

  predicate NamesOnlyKnown(doc: Yaml, known: Option<set<string>>) {
    known.Some? && doc.Mapping? && Section(doc, "devices").Mapping? ==>
      forall id :: id in NamedDevices(doc) ==> id.Text? && id.s in known.value
  }

  /** A key that is no text is an unknown device, and naming it in the error message raises TypeError,
      which the reload does not catch. */
  predicate NamesNonText(doc: Yaml, known: Option<set<string>>) {
    known.Some? && doc.Mapping? && Section(doc, "devices").Mapping? && exists id :: id in NamedDevices(doc) && !id.Text?
  }

  /** The devices that must be known: every key of the devices section, and every text that is somebody's
      default device. */
  lemma KnownExactly(doc: Yaml, known: set<string>)
    requires doc.Mapping? && Section(doc, "devices").Mapping?
    ensures NamesOnlyKnown(doc, Some(known)) <==>
            && (forall e :: e in Section(doc, "devices").entries ==> e.0.Text? && e.0.s in known)
            && (Section(doc, "default_device").Mapping? ==>
                  forall e :: e in Section(doc, "default_device").entries && e.1.Text? ==> e.1.s in known)
    ensures NamesNonText(doc, Some(known)) <==> exists e :: e in Section(doc, "devices").entries && !e.0.Text?
  {
    forall e | e in Section(doc, "devices").entries ensures e.0 in NamedDevices(doc) { }
    if Section(doc, "default_device").Mapping? {
      forall e | e in Section(doc, "default_device").entries && e.1.Text? ensures e.1 in NamedDevices(doc) { }
    }
  }

  datatype Reloaded = Replaced | Kept | Raises

  class PolicyEngine {
    var table: PolicyTable
    var token: Option<nat>

    constructor ()
      ensures table == PolicyTable([], [], [], 0) && token == None
    {
      table := PolicyTable([], [], [], 0);
      token := None;
    }

    /** `file` is what opening the path yields now (`None` when it cannot be read). */
    method Reload(force: bool, file: Option<File>, known: Option<set<string>>) returns (outcome: Reloaded)
      modifies this
      ensures outcome == Replaced <==>
              && file.Some? && (force || old(token) != Some(file.value.token))
              && file.value.contents.Document? && NamesOnlyKnown(file.value.contents.doc, known)
              && FromData(file.value.contents.doc, old(table).policySeq + 1).Ok?
      ensures outcome == Raises <==>
              && file.Some? && (force || old(token) != Some(file.value.token))
              && (file.value.contents.UnhashableKey?
                  || (file.value.contents.Document? && NamesNonText(file.value.contents.doc, known)))
      ensures outcome == Replaced ==>
              && FromData(file.value.contents.doc, old(table).policySeq + 1) == Ok(table)
              && token == Some(file.value.token)
      ensures outcome != Replaced ==> table == old(table) && token == old(token)
    {
      if file.None? { return Kept; }
      if !force && token == Some(file.value.token) { return Kept; }
      if file.value.contents.Undecodable? { return Kept; }
      if file.value.contents.UnhashableKey? { return Raises; }
      var doc := file.value.contents.doc;
      if NamesNonText(doc, known) { return Raises; }
      if !NamesOnlyKnown(doc, known) { return Kept; }
      match FromData(doc, table.policySeq + 1)
      case Err(_) => return Kept;
      case Ok(parsed) =>
        table, token := parsed, Some(file.value.token);
        return Replaced;
    }
  }
}
