/**
 Devices that come and go: the driver's registrations by tty, the core registry's devices by codec, and the udev
 events that keep both in step.
 */
module Hotplug {
  import opened Bytes
  import opened Text
  import Devices

  /** A device object; numbers are never used twice. */
  type DeviceId = nat

  type Configuration = map<string, string>

  const DRIVER: string := "ambe3k"

  datatype RegistrationView = RegistrationView(config: Configuration, device: Option<DeviceId>)

  /** `made` records the tty each device was built for, `live` the devices not deleted yet. */
  datatype State = State(registrations: map<string, RegistrationView>, codecs: map<string, seq<DeviceId>>,
                         live: set<DeviceId>, made: map<DeviceId, string>, next: DeviceId)

  /** `built` is false when the device constructor throws a `DeviceException`. */
  datatype Event = Load(config: Configuration, built: bool) | Add(node: string, built: bool) | Remove(node: string)

  /** The configuration gets as far as a registration. */
  predicate Registers(config: Configuration) {
    && "driver" in config && config["driver"] == DRIVER && "tty" in config && "baudrate" in config
    && ReadNumber(config["baudrate"], 10).Number?
  }

  function Listed(codecs: map<string, seq<DeviceId>>, codec: string): seq<DeviceId> {
    if codec in codecs then codecs[codec] else []
  }

  /** `registerDevice` for the codecs of a device. */
  function Registered(codecs: map<string, seq<DeviceId>>, d: DeviceId, names: seq<string>): map<string, seq<DeviceId>> {
    if names == [] then codecs
    else
      var before := Registered(codecs, d, names[..|names| - 1]);
      var name := names[|names| - 1];
      before[name := Listed(before, name) + [d]]
  }

  /** A list without the first occurrence of `d`. */
  function Without(list: seq<DeviceId>, d: DeviceId): seq<DeviceId> {
    if list == [] then [] else if list[0] == d then list[1..] else [list[0]] + Without(list[1..], d)
  }

  /** `unregisterDevice`: one occurrence less in every list. */
  function Unregistered(codecs: map<string, seq<DeviceId>>, d: DeviceId): map<string, seq<DeviceId>> {
    map c | c in codecs :: Without(codecs[c], d)
  }

  function Loaded(s: State, config: Configuration, built: bool): State {
    if !Registers(config) then s
    else
      var tty := config["tty"];
      if built then
        State(s.registrations[tty := RegistrationView(config, Some(s.next))], Registered(s.codecs, s.next, [Devices.CODEC]),
              s.live + {s.next}, s.made[s.next := tty], s.next + 1)
      else s.(registrations := s.registrations[tty := RegistrationView(config, None)])
  }

  function Apply(s: State, e: Event): State {
    match e
    case Load(config, built) => Loaded(s, config, built)
    case Add(node, built) =>
      if node in s.registrations && s.registrations[node].device.None?
        then Loaded(s, s.registrations[node].config, built) else s
    case Remove(node) =>
      if node in s.registrations && s.registrations[node].device.Some? then
        var d := s.registrations[node].device.value;
        s.(codecs := Unregistered(s.codecs, d), live := s.live - {d},
           registrations := s.registrations[node := s.registrations[node].(device := None)])
      else s
  }

  const INIT: State := State(map[], map[], {}, map[], 0)

  /** Each tty is configured once. */
  predicate Enabled(s: State, e: Event) {
    e.Load? && Registers(e.config) ==> e.config["tty"] !in s.registrations
  }

  predicate Runs(s: State, events: seq<Event>)
    decreases |events|
  {
    events == [] || (Enabled(s, events[0]) && Runs(Apply(s, events[0]), events[1..]))
  }

  function After(s: State, events: seq<Event>): State
    decreases |events|
  {
    if events == [] then s else After(Apply(s, events[0]), events[1..])
  }

  // ---------------------------------------------------------------------------
  // Consistency of the two registries

  /** At most one live device for a tty. */
  ghost predicate OnePerTty(s: State) {
    forall d, e :: d in s.live && e in s.live && d in s.made && e in s.made && s.made[d] == s.made[e] ==> d == e
  }

  ghost predicate TtyInv(s: State, t: string)
    requires t in s.registrations
  {
    var r := s.registrations[t];
    && Registers(r.config) && r.config["tty"] == t
    && (r.device.Some? ==> r.device.value in s.live && r.device.value in s.made && s.made[r.device.value] == t)
  }

  ghost predicate DeviceInv(s: State, d: DeviceId) {
    d < s.next && d in s.made && s.made[d] in s.registrations && s.registrations[s.made[d]].device == Some(d)
  }

  /** Registrations and live devices refer to each other. */
  ghost predicate RegistrationsInv(s: State) {
    (forall t :: t in s.registrations ==> TtyInv(s, t)) && (forall d :: d in s.live ==> DeviceInv(s, d))
  }

  /** The core registry lists the live devices, each once, and under no other codec. */
  ghost predicate ListsInv(s: State) {
    && (forall c :: c in s.codecs ==> c == Devices.CODEC)
    && (forall d :: multiset(Listed(s.codecs, Devices.CODEC))[d] == if d in s.live then 1 else 0)
  }

  ghost predicate Inv(s: State) { RegistrationsInv(s) && ListsInv(s) }

  lemma {:induction false} WithoutCount(list: seq<DeviceId>, d: DeviceId, e: DeviceId)
    ensures multiset(Without(list, d))[e] == multiset(list)[e] - (if e == d && d in list then 1 else 0)
  {
    if list != [] {
      assert list == [list[0]] + list[1..];
      if list[0] != d {
        WithoutCount(list[1..], d, e);
      }
    }
  }

  lemma RegisteredOnce(codecs: map<string, seq<DeviceId>>, d: DeviceId, name: string)
    ensures Registered(codecs, d, [name]) == codecs[name := Listed(codecs, name) + [d]]
  {
    assert [name][..0] == [];
    assert Registered(codecs, d, []) == codecs;
  }

  lemma LoadedKeepsRegistrations(s: State, config: Configuration, built: bool)
    requires RegistrationsInv(s) && Registers(config)
    requires config["tty"] in s.registrations ==> s.registrations[config["tty"]].device.None?
    ensures RegistrationsInv(Loaded(s, config, built))
  {
    hide Registered;
    var tty := config["tty"];
    var s' := Loaded(s, config, built);
    assert s.next in s.live ==> DeviceInv(s, s.next);
    assert Registers(config);
    hide Registers;
    forall t | t in s'.registrations ensures TtyInv(s', t) {
      assert t != tty ==> TtyInv(s, t);
    }
    forall d | d in s'.live ensures DeviceInv(s', d) {
      assert d in s.live ==> DeviceInv(s, d);
    }
  }

  lemma LoadedKeepsLists(s: State, config: Configuration)
    requires ListsInv(s) && Registers(config) && s.next !in s.live
    ensures ListsInv(Loaded(s, config, true))
  {
    RegisteredOnce(s.codecs, s.next, Devices.CODEC);
    hide Registered;
    var list := Listed(s.codecs, Devices.CODEC);
    var s' := Loaded(s, config, true);
    assert Listed(s'.codecs, Devices.CODEC) == list + [s.next];
    assert s'.live == s.live + {s.next};
  }

  lemma LoadedKeepsInv(s: State, config: Configuration, built: bool)
    requires Inv(s)
    requires Registers(config) && config["tty"] in s.registrations ==> s.registrations[config["tty"]].device.None?
    ensures Inv(Loaded(s, config, built))
  {
    if Registers(config) {
      LoadedKeepsRegistrations(s, config, built);
      if built {
        assert s.next in s.live ==> DeviceInv(s, s.next);
        LoadedKeepsLists(s, config);
      }
    }
  }

  lemma RemoveKeepsInv(s: State, node: string)
    requires Inv(s) && node in s.registrations && s.registrations[node].device.Some?
    ensures Inv(Apply(s, Remove(node)))
  {
    var d := s.registrations[node].device.value;
    var s' := Apply(s, Remove(node));
    assert TtyInv(s, node) && d in s.live;
    hide RegistrationsInv;
    forall x ensures multiset(Listed(s'.codecs, Devices.CODEC))[x] == if x in s'.live then 1 else 0 {
      WithoutCount(Listed(s.codecs, Devices.CODEC), d, x);
      assert multiset(Listed(s.codecs, Devices.CODEC))[x] == if x in s.live then 1 else 0;
    }
    RemoveKeepsRegistrations(s, node);
  }

  lemma RemoveKeepsRegistrations(s: State, node: string)
    requires RegistrationsInv(s) && node in s.registrations && s.registrations[node].device.Some?
    ensures RegistrationsInv(Apply(s, Remove(node)))
  {
    hide Registers;
    hide Unregistered;
    var s' := Apply(s, Remove(node));
    assert TtyInv(s, node);
    forall t | t in s'.registrations ensures TtyInv(s', t) {
      assert TtyInv(s, t);
    }
    forall d | d in s'.live ensures DeviceInv(s', d) {
      assert DeviceInv(s, d);
    }
  }

  lemma StepKeepsInv(s: State, e: Event)
    requires Inv(s) && Enabled(s, e)
    ensures Inv(Apply(s, e))
  {
    match e {
      case Load(config, built) =>
        LoadedKeepsInv(s, config, built);
      case Add(node, built) =>
        if node in s.registrations && s.registrations[node].device.None? {
          LoadedKeepsInv(s, s.registrations[node].config, built);
        }
      case Remove(node) =>
        if node in s.registrations && s.registrations[node].device.Some? {
          RemoveKeepsInv(s, node);
        }
    }
  }

  lemma {:induction false} RunKeepsInv(s: State, events: seq<Event>)
    requires Inv(s) && Runs(s, events)
    ensures Inv(After(s, events))
    decreases |events|
  {
    if events != [] {
      StepKeepsInv(s, events[0]);
      RunKeepsInv(Apply(s, events[0]), events[1..]);
    }
  }

  /**
   With each tty configured once, over any sequence of events and failing constructors: a tty has at most one live
   device, and a device is held by a registration exactly when the core registry lists it, which is then once.
   */
  lemma RegistriesAgree(events: seq<Event>)
    requires Runs(INIT, events)
    ensures var s := After(INIT, events);
            && OnePerTty(s)
            && (forall d :: (exists t :: t in s.registrations && s.registrations[t].device == Some(d))
                       <==> multiset(Listed(s.codecs, Devices.CODEC))[d] == 1)
            && (forall d :: multiset(Listed(s.codecs, Devices.CODEC))[d] <= 1)
            && (forall d :: d in Listed(s.codecs, Devices.CODEC) <==> d in s.live)
  {
    RunKeepsInv(INIT, events);
    var s := After(INIT, events);
    forall d, e | d in s.live && e in s.live && d in s.made && e in s.made && s.made[d] == s.made[e] ensures d == e {
      assert DeviceInv(s, d) && DeviceInv(s, e);
    }
    forall d ensures d in Listed(s.codecs, Devices.CODEC) <==> d in s.live {
      assert multiset(Listed(s.codecs, Devices.CODEC))[d] == if d in s.live then 1 else 0;
    }
    forall d ensures (exists t :: t in s.registrations && s.registrations[t].device == Some(d)) <==> d in s.live {
      assert forall t :: t in s.registrations ==> TtyInv(s, t);
      if d in s.live {
        assert DeviceInv(s, d);
        assert s.registrations[s.made[d]].device == Some(d);
      }
    }
  }

  /** Every registration is for its own tty, whatever was configured how often. */
  ghost predicate OwnTtys(s: State) {
    forall t :: t in s.registrations ==> Registers(s.registrations[t].config) && s.registrations[t].config["tty"] == t
  }

  lemma StepKeepsOwnTtys(s: State, e: Event)
    requires OwnTtys(s)
    ensures OwnTtys(Apply(s, e))
  {
    hide Registered;
    hide Unregistered;
  }

  lemma StepWithoutDevice(s: State, tty: string, e: Event)
    requires OwnTtys(s) && Enabled(s, e) && e != Add(tty, true)
    requires tty in s.registrations && s.registrations[tty].device.None?
    ensures tty in Apply(s, e).registrations && Apply(s, e).registrations[tty] == s.registrations[tty]
  {
    hide Registered;
    hide Unregistered;
  }

  /** Without a successful add the registration of a tty that has no device stays as it is. */
  lemma {:induction false} StaysWithoutDevice(s: State, tty: string, events: seq<Event>)
    requires OwnTtys(s) && Runs(s, events) && Add(tty, true) !in events
    requires tty in s.registrations && s.registrations[tty].device.None?
    ensures tty in After(s, events).registrations && After(s, events).registrations[tty] == s.registrations[tty]
    decreases |events|
  {
    if events != [] {
      StepWithoutDevice(s, tty, events[0]);
      StepKeepsOwnTtys(s, events[0]);
      assert forall x :: x in events[1..] ==> x in events;
      hide Apply;
      hide OwnTtys;
      StaysWithoutDevice(Apply(s, events[0]), tty, events[1..]);
    }
  }

  /**
   A constructor that fails leaves a registration without device. It stays that way whatever happens, until the next
   successful add for the tty makes a new device of it.
   */
  lemma FailedDeviceIsRetried(s: State, config: Configuration, events: seq<Event>)
    requires OwnTtys(s) && Registers(config)
    requires Runs(Loaded(s, config, false), events) && Add(config["tty"], true) !in events
    ensures var failed := Loaded(s, config, false); failed.codecs == s.codecs && failed.live == s.live
    ensures var tty := config["tty"]; var later := After(Loaded(s, config, false), events);
            && tty in later.registrations && later.registrations[tty] == RegistrationView(config, None)
            && var again := Apply(later, Add(tty, true));
               && again.registrations[tty] == RegistrationView(config, Some(later.next))
               && again.live == later.live + {later.next}
               && Listed(again.codecs, Devices.CODEC) == Listed(later.codecs, Devices.CODEC) + [later.next]
  {
    var failed := Loaded(s, config, false);
    StepKeepsOwnTtys(s, Load(config, false));
    StaysWithoutDevice(failed, config["tty"], events);
    var later := After(failed, events);
    RegisteredOnce(later.codecs, later.next, Devices.CODEC);
    hide Registered;
    hide After;
    hide Runs;
  }

  /** A section that is complete otherwise makes a device exactly when it names the driver with the key `driver`. */
  lemma DriverKeyDecides(s: State, config: Configuration)
    requires "tty" in config && "baudrate" in config && ReadNumber(config["baudrate"], 10).Number?
    ensures Loaded(s, config, true) != s <==> "driver" in config && config["driver"] == DRIVER
    ensures "driver" !in config ==> Loaded(s, config, true) == Loaded(s, config, false) == s
  {
    assert Loaded(s, config, true) != s <== Registers(config) by {
      assert Registers(config) ==> Loaded(s, config, true).next == s.next + 1;
    }
  }

  /** A second configuration for a tty makes a second device on it exactly when the tty had a live one. */
  lemma SecondConfigurationDuplicatesIff(s: State, config: Configuration)
    requires Inv(s) && Registers(config)
    ensures OnePerTty(Loaded(s, config, true)) <==> !exists d :: d in s.live && d in s.made && s.made[d] == config["tty"]
  {
    var s' := Loaded(s, config, true);
    assert forall d :: d in s.live ==> DeviceInv(s, d);
    if d :| d in s.live && d in s.made && s.made[d] == config["tty"] {
      assert d in s'.live && s.next in s'.live && s'.made[d] == s'.made[s.next] && d != s.next;
    }
  }

  lemma WithoutLast(list: seq<DeviceId>, d: DeviceId)
    requires d !in list
    ensures Without(list + [d], d) == list
  {
    if list == [] {
    } else {
      assert (list + [d])[1..] == list[1..] + [d];
      WithoutLast(list[1..], d);
    }
  }

  lemma {:induction false} WithoutAbsent(list: seq<DeviceId>, d: DeviceId)
    requires d !in list
    ensures Without(list, d) == list
  {
    if list != [] {
      WithoutAbsent(list[1..], d);
    }
  }

  /** Registering a new device for one codec and unregistering it restores every codec's list. */
  lemma RegisterThenUnregister(codecs: map<string, seq<DeviceId>>, d: DeviceId, name: string, codec: string)
    requires forall c :: c in codecs ==> d !in codecs[c]
    ensures Listed(Unregistered(Registered(codecs, d, [name]), d), codec) == Listed(codecs, codec)
  {
    RegisteredOnce(codecs, d, name);
    WithoutLast(Listed(codecs, name), d);
    WithoutAbsent(Listed(codecs, codec), d);
  }

  /** The lists a device is found in, each of which makes `unregisterDevice` delete it once. */
  function ListsHolding(codecs: map<string, seq<DeviceId>>, d: DeviceId): set<string> {
    set c | c in codecs && d in codecs[c]
  }

  lemma {:induction false} RegisteredLists(codecs: map<string, seq<DeviceId>>, d: DeviceId, names: seq<string>)
    requires forall c :: c in codecs ==> d !in codecs[c]
    ensures ListsHolding(Registered(codecs, d, names), d) == set n | n in names
  {
    if names != [] {
      var n := |names| - 1;
      RegisteredLists(codecs, d, names[..n]);
      var before, after := Registered(codecs, d, names[..n]), Registered(codecs, d, names);
      assert names == names[..n] + [names[n]];
      forall c ensures c in ListsHolding(after, d) <==> c in names {
        assert c in ListsHolding(before, d) <==> c in names[..n];
      }
    }
  }

  lemma OneElement(s: set<string>, x: string)
    requires x in s
    ensures |s| == 1 <==> s == {x}
  {
    if |s| == 1 {
      assert |s - {x}| == 0;
      assert s == {x} + (s - {x});
    }
  }

  /** Unregistering a new device deletes it exactly once exactly when all its codecs are one and the same. */
  lemma DeletedOnceIff(codecs: map<string, seq<DeviceId>>, d: DeviceId, names: seq<string>)
    requires (forall c :: c in codecs ==> d !in codecs[c]) && names != []
    ensures |ListsHolding(Registered(codecs, d, names), d)| == 1 <==> forall i :: 0 <= i < |names| ==> names[i] == names[0]
  {
    RegisteredLists(codecs, d, names);
    var s := set n | n in names;
    OneElement(s, names[0]);
    if s == {names[0]} {
      forall i | 0 <= i < |names| ensures names[i] == names[0] {
        assert names[i] in s;
      }
    }
  }

  // ---------------------------------------------------------------------------
  // The registries as objects

  /** `unregisterDevice` with the codecs `rest` still to go. */
  function PartlyUnregistered(codecs: map<string, seq<DeviceId>>, d: DeviceId, rest: set<string>): map<string, seq<DeviceId>> {
    map c | c in codecs :: if c in rest then codecs[c] else Without(codecs[c], d)
  }

  lemma PartlyStep(codecs: map<string, seq<DeviceId>>, d: DeviceId, rest: set<string>, c: string)
    requires c in codecs && c in rest
    ensures PartlyUnregistered(codecs, d, rest).Keys == codecs.Keys
    ensures PartlyUnregistered(codecs, d, rest)[c] == codecs[c]
    ensures PartlyUnregistered(codecs, d, rest)[c := Without(codecs[c], d)] == PartlyUnregistered(codecs, d, rest - {c})
  {
  }

  lemma PartlyEnds(codecs: map<string, seq<DeviceId>>, d: DeviceId)
    ensures PartlyUnregistered(codecs, d, codecs.Keys) == codecs
    ensures PartlyUnregistered(codecs, d, {}) == Unregistered(codecs, d)
  {
  }

  lemma CountStep(holding: set<string>, rest: set<string>, c: string)
    requires c in rest
    ensures |holding - (rest - {c})| == |holding - rest| + (if c in holding then 1 else 0)
  {
    if c in holding {
      assert holding - (rest - {c}) == (holding - rest) + {c};
    } else {
      assert holding - (rest - {c}) == holding - rest;
    }
  }

  class CoreRegistry {
    var devices: map<string, seq<DeviceId>>

    constructor ()
      ensures devices == map[]
    {
      devices := map[];
    }

    method RegisterDevice(d: DeviceId, codecs: seq<string>)
      modifies this
      ensures devices == Registered(old(devices), d, codecs)
    {
      for i := 0 to |codecs|
        invariant devices == Registered(old(devices), d, codecs[..i])
      {
        assert codecs[..i + 1][..i] == codecs[..i];
        if codecs[i] !in devices {
          devices := devices[codecs[i] := []];
        }
        devices := devices[codecs[i] := devices[codecs[i]] + [d]];
      }
      assert codecs[..|codecs|] == codecs;
    }

    /** Removes the device from every list; `deletes` counts how often it was deleted. */
    method UnregisterDevice(d: DeviceId) returns (deletes: nat)
      modifies this
      ensures devices == Unregistered(old(devices), d)
      ensures deletes == |ListsHolding(old(devices), d)|
    {
      deletes := 0;
      var rest := devices.Keys;
      ghost var holding := ListsHolding(devices, d);
      PartlyEnds(devices, d);
      assert holding - rest == {};
      hide PartlyUnregistered;
      hide Unregistered;
      hide EraseFirst;
      hide Without;
      while rest != {}
        invariant rest <= devices.Keys == old(devices).Keys
        invariant devices == PartlyUnregistered(old(devices), d, rest)
        invariant deletes == |holding - rest|
        decreases rest
      {
        var c :| c in rest;
        CountStep(holding, rest, c);
        PartlyStep(old(devices), d, rest, c);
        if d in devices[c] {
          deletes := deletes + 1;
        }
        rest := rest - {c};
        devices := devices[c := EraseFirst(devices[c], d)];
      }
      assert holding - rest == holding;
    }

    method FindDevices(codec: string) returns (list: seq<DeviceId>)
      modifies this
      ensures list == Listed(old(devices), codec)
      ensures forall c :: Listed(devices, c) == Listed(old(devices), c)
    {
      if codec !in devices {
        devices := devices[codec := []];
      }
      return devices[codec];
    }
  }

  /** `std::find` and `erase`. */
  function EraseFirst(list: seq<DeviceId>, d: DeviceId): (r: seq<DeviceId>)
    ensures r == Without(list, d)
  {
    if d in list then
      var i := IndexOf(list, d);
      WithoutAt(list, d, i);
      list[..i] + list[i + 1..]
    else
      WithoutAbsent(list, d);
      list
  }

  function IndexOf(list: seq<DeviceId>, d: DeviceId): (i: nat)
    requires d in list
    ensures i < |list| && list[i] == d && d !in list[..i]
  {
    if list[0] == d then 0 else 1 + IndexOf(list[1..], d)
  }

  lemma {:induction false} WithoutAt(list: seq<DeviceId>, d: DeviceId, i: nat)
    requires i < |list| && list[i] == d && d !in list[..i]
    ensures Without(list, d) == list[..i] + list[i + 1..]
  {
    if i > 0 {
      assert list[0] in list[..i];
      assert list[1..][..i - 1] == list[..i][1..];
      WithoutAt(list[1..], d, i - 1);
      assert list[..i] == [list[0]] + list[1..][..i - 1];
    }
  }

  class Registration {
    const config: Configuration
    var device: Option<DeviceId>

    constructor (config: Configuration)
      ensures this.config == config && device == None
    {
      this.config := config;
      device := None;
    }
  }

  /** The driver with its registry, next to the core registry, and the devices that exist. */
  class Driver {
    const core: CoreRegistry
    var registrations: map<string, Registration>
    var live: set<DeviceId>
    ghost var made: map<DeviceId, string>
    var next: DeviceId

    ghost predicate Valid()
      reads this
    {
      forall t, u :: t in registrations && u in registrations && t != u ==> registrations[t] != registrations[u]
    }

    ghost function Model(): State
      reads this, core, registrations.Values
    {
      State(map t | t in registrations :: RegistrationView(registrations[t].config, registrations[t].device),
            core.devices, live, made, next)
    }

    constructor ()
      ensures Valid() && Model() == INIT
    {
      core := new CoreRegistry();
      registrations := map[];
      live := {};
      made := map[];
      next := 0;
    }

    /** A new registration for a tty, which takes the place of an earlier one. */
    method AddDevice(tty: string, config: Configuration) returns (registration: Registration)
      requires Valid()
      modifies this`registrations
      ensures Valid() && fresh(registration) && registration.config == config
      ensures registrations == old(registrations)[tty := registration]
      ensures Model() == old(Model()).(registrations := old(Model()).registrations[tty := RegistrationView(config, None)])
    {
      ghost var before := Model().registrations;
      registration := new Registration(config);
      registrations := registrations[tty := registration];
      assert Model().registrations == before[tty := RegistrationView(config, None)];
    }

    /** A device constructed for the registration of a tty. */
    method Construct(tty: string, registration: Registration) returns (d: DeviceId)
      requires Valid() && tty in registrations && registrations[tty] == registration
      modifies this`live, this`made, this`next, registration
      ensures Valid() && d == old(next)
      ensures Model() == State(old(Model()).registrations[tty := RegistrationView(registration.config, Some(d))],
                               old(Model()).codecs, old(live) + {d}, old(made)[d := tty], d + 1)
    {
      ghost var before := Model().registrations;
      d := next;
      live := live + {d};
      made := made[d := tty];
      next := d + 1;
      registration.device := Some(d);
      assert Model().registrations == before[tty := RegistrationView(registration.config, Some(d))];
    }

    /** `buildFromConfiguration`; `threw` is a `DeviceException`, no device and no exception the null result. */
    method BuildFromConfiguration(config: Configuration, built: bool) returns (device: Option<DeviceId>, threw: bool)
      requires Valid() && "driver" in config && config["driver"] == DRIVER
      modifies this
      ensures Valid()
      ensures threw <==> Registers(config) && !built
      ensures device == if Registers(config) && built then Some(old(next)) else None
      ensures Model() == Loaded(old(Model()), config, built).(codecs := old(Model()).codecs)
    {
      if "tty" !in config || "baudrate" !in config || ReadNumber(config["baudrate"], 10).NoNumber? {
        return None, false;
      }
      hide ReadNumber;
      var registration := AddDevice(config["tty"], config);
      if !built {
        return None, true;
      }
      var d := Construct(config["tty"], registration);
      return Some(d), false;
    }

    method LoadDeviceFromConfig(config: Configuration, built: bool)
      requires Valid()
      modifies this, core
      ensures Valid() && Model() == Loaded(old(Model()), config, built)
    {
      if "driver" !in config || config["driver"] != DRIVER {
        return;
      }
      var device, threw := BuildFromConfiguration(config, built);
      if device.Some? {
        core.RegisterDevice(device.value, [Devices.CODEC]);
      }
    }

    /** One udev event; other actions than add and remove do nothing. */
    method HandleEvent(action: string, node: string, built: bool)
      requires Valid()
      modifies this, core, registrations.Values
      ensures Valid()
      ensures action == "remove" ==> Model() == Apply(old(Model()), Remove(node))
      ensures action == "add" ==> Model() == Apply(old(Model()), Add(node, built))
      ensures action != "remove" && action != "add" ==> Model() == old(Model())
    {
      if node !in registrations {
        return;
      }
      var match' := registrations[node];
      if action == "remove" {
        if match'.device.Some? {
          var deletes := core.UnregisterDevice(match'.device.value);
          live := live - {match'.device.value};
          match'.device := None;
          assert Model().registrations == old(Model()).registrations[node := old(Model()).registrations[node].(device := None)];
        }
      } else if action == "add" {
        if match'.device.None? {
          LoadDeviceFromConfig(match'.config, built);
        }
      }
    }
  }

  /** A complete section whose device can be built registers it and lists it last, and is the only change. */
  lemma LoadMakesDevice(s: State, config: Configuration)
    requires "driver" in config && config["driver"] == "ambe3k" && "tty" in config
    requires "baudrate" in config && ReadNumber(config["baudrate"], 10).Number?
    ensures var after := Apply(s, Load(config, true)); var tty := config["tty"];
            && after.registrations == s.registrations[tty := RegistrationView(config, Some(s.next))]
            && Listed(after.codecs, "ambe") == Listed(s.codecs, "ambe") + [s.next]
            && after.live == s.live + {s.next} && after.made == s.made[s.next := tty]
  {
    RegisteredOnce(s.codecs, s.next, "ambe");
    hide Registered;
  }

  /** After a remove the tty has no device any more: none is live, listed or registered; all others stay. */
  lemma RemoveTakesDevice(s: State, tty: string)
    requires Inv(s)
    ensures var after := Apply(s, Remove(tty));
            && after.registrations.Keys == s.registrations.Keys
            && (forall t :: t in s.registrations ==>
                  after.registrations[t] == if t == tty then s.registrations[t].(device := None) else s.registrations[t])
            && (forall d :: d in after.live <==> d in s.live && d in s.made && s.made[d] != tty)
            && (forall d :: d in Listed(after.codecs, "ambe") <==> d in after.live)
  {
    StepKeepsInv(s, Remove(tty));
    ListedAreLive(Apply(s, Remove(tty)));
    RemoveTakesLive(s, tty);
    hide *;
  }

  lemma ListedAreLive(s: State)
    requires Inv(s)
    ensures forall d :: d in Listed(s.codecs, "ambe") <==> d in s.live
  {
    forall d ensures d in Listed(s.codecs, "ambe") <==> d in s.live {
      assert multiset(Listed(s.codecs, "ambe"))[d] == if d in s.live then 1 else 0;
    }
  }

  lemma RemoveTakesLive(s: State, tty: string)
    requires RegistrationsInv(s)
    ensures var after := Apply(s, Remove(tty));
            && after.registrations.Keys == s.registrations.Keys
            && (forall t :: t in s.registrations ==>
                  after.registrations[t] == if t == tty then s.registrations[t].(device := None) else s.registrations[t])
            && (forall d :: d in after.live <==> d in s.live && d in s.made && s.made[d] != tty)
  {
    hide Unregistered;
    hide Registers;
    var after := Apply(s, Remove(tty));
    forall d ensures d in after.live <==> d in s.live && d in s.made && s.made[d] != tty {
      if d in s.live {
        assert DeviceInv(s, d);
      }
      if tty in s.registrations {
        assert TtyInv(s, tty);
      }
    }
  }
}
