/**
 The microphone hub (internal/server/mic.go): which attached provider is the
 source, and what demand each provider has last been posted.

 `After` is the hub as a value over every sequence of attachments, departures,
 selections and demand reports; class `Hub` is the hub as the daemon holds it,
 each method proved to be one of those steps. A provider is its serial number
 in attach order and the client name it announced. An instance list is a set:
 the source sorts it before every use.
 */
module MicHub {
  import opened Bytes

  datatype Provider = Provider(serial: nat, client: string)

  datatype Demand = Demand(active: bool, instances: set<string>, device: string, client: string)

  /**
   sinks: the demand each instance's sink last reported; client and device:
   the selection; last*: what was last published; posted: the last demand
   posted to each provider ever attached.
   */
  datatype HubState = HubState(
    providers: seq<Provider>, sinks: map<string, bool>, client: string, device: string,
    lastDemand: set<string>, lastDevice: string, lastSource: Option<Provider>,
    posted: map<nat, Demand>, attached: nat)

  const EMPTY := HubState([], map[], "", "", {}, "", None, map[], 0)

  // ---- Who is the source ----

  /** The newest provider of a client, if one is attached. */
  function NewestOf(ps: seq<Provider>, client: string): (p: Option<Provider>)
    ensures p.None? <==> forall q :: q in ps ==> q.client != client
    ensures p.Some? ==> p.value in ps && p.value.client == client
  {
    if ps == [] then None
    else if ps[|ps| - 1].client == client then Some(ps[|ps| - 1])
    else NewestOf(ps[..|ps| - 1], client)
  }

  /** The provider whose microphone is recorded: the selected client's newest, else the newest of all. */
  function SourceOf(ps: seq<Provider>, client: string): (p: Option<Provider>)
    ensures p.None? <==> ps == []
    ensures p.Some? ==> p.value in ps
  {
    if client != "" && NewestOf(ps, client).Some? then NewestOf(ps, client)
    else if ps != [] then Some(ps[|ps| - 1])
    else None
  }

  function Source(h: HubState): Option<Provider> {
    SourceOf(h.providers, h.client)
  }

  /** The selected device belongs to the selected client's machine: a stand-in is not sent it. */
  function DeviceFor(h: HubState, p: Option<Provider>): string {
    if p.None? || (h.client != "" && p.value.client != h.client) then "" else h.device
  }

  function Demanding(h: HubState): set<string> {
    set key | key in h.sinks && h.sinks[key]
  }

  function Message(h: HubState, p: Provider, demanding: set<string>): Demand {
    Demand(demanding != {}, demanding, DeviceFor(h, Some(p)), h.client)
  }

  // ---- The steps ----

  /**
   Tells the source who is recording if that, the source or its device changed; a superseded source
   is told to stop.
   */
  function Publish(h: HubState): HubState {
    var demanding, source := Demanding(h), Source(h);
    var device := DeviceFor(h, source);
    if demanding == h.lastDemand && source == h.lastSource && device == h.lastDevice then h
    else
      var stopped := if source != h.lastSource && h.lastSource.Some? && h.lastSource.value in h.providers
        then h.posted[h.lastSource.value.serial := Message(h, h.lastSource.value, {})] else h.posted;
      var posted := if source.Some? then stopped[source.value.serial := Message(h, source.value, demanding)]
          else stopped;
      h.(lastDemand := demanding, lastDevice := device, lastSource := source, posted := posted)
  }

  function Select(h: HubState, client: string, device: string): HubState {
    Publish(h.(client := client, device := device))
  }

  /** The hub with a new provider and the settings it was accepted under. */
  function Enlisted(h: HubState, name: string, client: string, device: string): HubState {
    h.(client := client, device := device,
       providers := h.providers + [Provider(h.attached, name)], attached := h.attached + 1)
  }

  /** A standby is greeted idle. */
  function Greeted(h: HubState, name: string, client: string, device: string): HubState {
    var p := Provider(h.attached, name);
    var n := Enlisted(h, name, client, device);
    if Source(n) != Some(p) then n.(posted := n.posted[p.serial := Message(n, p, {})]) else n
  }

  function Attach(h: HubState, name: string, client: string, device: string): HubState {
    Publish(Greeted(h, name, client, device))
  }

  function Without(ps: seq<Provider>, serial: nat): seq<Provider> {
    if ps == [] then []
    else Without(ps[..|ps| - 1], serial) + if ps[|ps| - 1].serial == serial then [] else [ps[|ps| - 1]]
  }

  predicate Attached(ps: seq<Provider>, serial: nat) {
    exists i :: 0 <= i < |ps| && ps[i].serial == serial
  }

  function Detach(h: HubState, serial: nat): HubState {
    if !Attached(h.providers, serial) then h else Publish(h.(providers := Without(h.providers, serial)))
  }

  /** A sink's report; one from a sink that is gone, or no change, does nothing. */
  function Report(h: HubState, key: string, active: bool): HubState {
    if key !in h.sinks || h.sinks[key] == active then h else Publish(h.(sinks := h.sinks[key := active]))
  }

  /**
   One sync, while a provider is attached: the settings read, sinks of instances that stopped
   dropped, new ones started.
   */
  function Sync(h: HubState, client: string, device: string, gone: set<string>, started: set<string>): HubState {
    if h.providers == [] then h
    else Publish(h.(client := client, device := device, sinks := Synced(h.sinks, gone, started)))
  }

  /** A sink that stays keeps its demand, one that is started has none. */
  function Synced(sinks: map<string, bool>, gone: set<string>, started: set<string>): map<string, bool> {
    map key | key in (sinks.Keys - gone) + started :: key in sinks && key !in gone && sinks[key]
  }

  /** A sink that ended; one that was already replaced or dropped does nothing. */
  function Retire(h: HubState, key: string): HubState {
    if key !in h.sinks then h else Publish(h.(sinks := h.sinks - {key}))
  }

  function CloseAll(h: HubState): HubState {
    Publish(h.(sinks := map[]))
  }

  /** The feature is turned off: every stream is ended. */
  function Kick(h: HubState): HubState {
    h.(providers := [], lastSource := None)
  }

  datatype Event =
    | Attaches(name: string, client: string, device: string)
    | Detaches(serial: nat)
    | Selects(client: string, device: string)
    | Reports(key: string, active: bool)
    | Syncs(client: string, device: string, gone: set<string>, started: set<string>)
    | Retires(key: string)
    | Closes
    | Kicks

  function Step(h: HubState, e: Event): HubState {
    match e
    case Attaches(name, client, device) => Attach(h, name, client, device)
    case Detaches(serial) => Detach(h, serial)
    case Selects(client, device) => Select(h, client, device)
    case Reports(key, active) => Report(h, key, active)
    case Syncs(client, device, gone, started) => Sync(h, client, device, gone, started)
    case Retires(key) => Retire(h, key)
    case Closes => CloseAll(h)
    case Kicks => Kick(h)
  }

  function After(events: seq<Event>): HubState {
    if events == [] then EMPTY else Step(After(events[..|events| - 1]), events[|events| - 1])
  }

  // ---- The invariant ----

  /** Serial numbers tell providers apart. */
  ghost predicate Distinct(ps: seq<Provider>, bound: nat) {
    && (forall p :: p in ps ==> p.serial < bound)
    && (forall i, j :: 0 <= i < j < |ps| ==> ps[i].serial != ps[j].serial)
  }

  /** p's microphone may be open: it was last told to record. */
  predicate ToldToRecord(h: HubState, p: Provider) {
    p.serial in h.posted && h.posted[p.serial].active
  }

  /**
   Every attached provider has been greeted; what was last published is the
   source and its demand; the source's last demand says who is recording and
   on which device; and no other provider has been left recording.
   */
  ghost predicate Valid(h: HubState) {
    && Distinct(h.providers, h.attached) && (forall serial :: serial in h.posted ==> serial < h.attached)
    && (forall p :: p in h.providers ==> p.serial in h.posted)
    && (forall p :: p in h.providers && Some(p) != Source(h) ==> !ToldToRecord(h, p))
    && Source(h) == h.lastSource
    && (h.lastSource.Some? ==> SourceTold(h, h.lastSource.value))
  }

  ghost predicate SourceTold(h: HubState, p: Provider) {
    && p.serial in h.posted
    && h.lastDemand == Demanding(h) && h.lastDevice == DeviceFor(h, Some(p))
    && h.posted[p.serial].instances == Demanding(h)
    && (h.posted[p.serial].active <==> Demanding(h) != {})
    && h.posted[p.serial].device == DeviceFor(h, Some(p))
  }

  /**
   What Publish starts from: only the last source may have been told to record, and it was told what
   is remembered.
   */
  ghost predicate Unpublished(h: HubState) {
    && Distinct(h.providers, h.attached) && (forall serial :: serial in h.posted ==> serial < h.attached)
    && (forall p :: p in h.providers && Some(p) != Source(h) ==> p.serial in h.posted)
    && (forall p :: p in h.providers && Some(p) != h.lastSource ==> !ToldToRecord(h, p))
    && (h.lastSource.Some? && h.lastSource.value in h.providers ==> Remembers(h, h.lastSource.value))
  }

  /** p's last demand is the one last published. */
  ghost predicate Remembers(h: HubState, p: Provider) {
    && p.serial in h.posted && h.posted[p.serial].instances == h.lastDemand
    && (h.posted[p.serial].active <==> h.lastDemand != {}) && h.posted[p.serial].device == h.lastDevice
  }

  lemma SameSerial(ps: seq<Provider>, bound: nat, p: Provider, q: Provider)
    requires Distinct(ps, bound) && p in ps && q in ps && p.serial == q.serial
    ensures p == q
  {
  }

  lemma PublishEstablishes(h: HubState)
    requires Unpublished(h)
    ensures Valid(Publish(h))
  {
    var n := Publish(h);
    assert Source(n) == Source(h) && Demanding(n) == Demanding(h);
    forall p | p in h.providers
      ensures p.serial in n.posted && (Some(p) != Source(h) ==> !ToldToRecord(n, p))
    {
      if Source(h).Some? && Source(h).value.serial == p.serial {
        SameSerial(h.providers, h.attached, p, Source(h).value);
      }
      if h.lastSource.Some? && h.lastSource.value in h.providers && h.lastSource.value.serial == p.serial {
        SameSerial(h.providers, h.attached, p, h.lastSource.value);
      }
    }
  }

  lemma {:induction false} WithoutHas(ps: seq<Provider>, serial: nat)
    ensures forall p :: p in Without(ps, serial) <==> p in ps && p.serial != serial
  {
    if ps != [] {
      WithoutHas(ps[..|ps| - 1], serial);
      assert ps == ps[..|ps| - 1] + [ps[|ps| - 1]];
    }
  }

  lemma {:induction false} WithoutKeepsDistinct(ps: seq<Provider>, bound: nat, serial: nat)
    requires Distinct(ps, bound)
    ensures Distinct(Without(ps, serial), bound)
  {
    if ps != [] {
      var init := ps[..|ps| - 1];
      WithoutKeepsDistinct(init, bound, serial);
      var r := Without(init, serial);
      WithoutHas(init, serial);
      forall i | 0 <= i < |r| ensures r[i].serial != ps[|ps| - 1].serial {
        assert r[i] in r;
        var j :| 0 <= j < |init| && init[j] == r[i];
        assert ps[j] == r[i];
      }
    }
  }

  lemma AppendKeepsDistinct(ps: seq<Provider>, bound: nat, p: Provider)
    requires Distinct(ps, bound) && p.serial == bound
    ensures Distinct(ps + [p], bound + 1)
  {
    forall i | 0 <= i < |ps| ensures ps[i].serial != bound {
      assert ps[i] in ps;
    }
  }

  /** A valid hub stays ready to publish whatever becomes of the selection and the sinks. */
  lemma ChangedIsUnpublished(h: HubState, n: HubState)
    requires Valid(h) && n == h.(client := n.client, device := n.device, sinks := n.sinks)
    ensures Unpublished(n)
  {
    assert h.lastSource.Some? ==> SourceTold(h, h.lastSource.value);
  }

  lemma DetachedIsUnpublished(h: HubState, serial: nat)
    requires Valid(h)
    ensures Unpublished(h.(providers := Without(h.providers, serial)))
  {
    WithoutKeepsDistinct(h.providers, h.attached, serial);
    WithoutHas(h.providers, serial);
    assert h.lastSource.Some? ==> SourceTold(h, h.lastSource.value);
  }

  /** The providers already there were told what they were told before. */
  lemma GreetingTellsNoOther(h: HubState, name: string, client: string, device: string, q: Provider)
    requires Valid(h) && q in h.providers
    ensures var n := Greeted(h, name, client, device);
      q.serial in n.posted && n.posted[q.serial] == h.posted[q.serial]
  {
    assert q.serial < h.attached;
  }

  lemma GreetedProvider(h: HubState, name: string, client: string, device: string, q: Provider)
    requires Valid(h)
    ensures var n := Greeted(h, name, client, device);
      q in n.providers ==>
        && (Some(q) != Source(n) ==> q.serial in n.posted)
        && (Some(q) != h.lastSource ==> !ToldToRecord(n, q))
  {
    if q in h.providers {
      GreetingTellsNoOther(h, name, client, device, q);
    }
  }

  lemma GreetedIsUnpublished(h: HubState, name: string, client: string, device: string)
    requires Valid(h)
    ensures Unpublished(Greeted(h, name, client, device))
  {
    var n := Greeted(h, name, client, device);
    AppendKeepsDistinct(h.providers, h.attached, Provider(h.attached, name));
    forall q {:trigger ToldToRecord(n, q)} {:trigger q in n.providers} | q in n.providers
      ensures Some(q) != Source(n) ==> q.serial in n.posted
      ensures Some(q) != n.lastSource ==> !ToldToRecord(n, q)
    {
      GreetedProvider(h, name, client, device, q);
    }
    if h.lastSource.Some? {
      assert SourceTold(h, h.lastSource.value);
      GreetingTellsNoOther(h, name, client, device, h.lastSource.value);
    }
  }

  lemma StepKeepsValid(h: HubState, e: Event)
    requires Valid(h)
    ensures Valid(Step(h, e))
  {
    match e
    case Attaches(name, client, device) =>
      GreetedIsUnpublished(h, name, client, device);
      PublishEstablishes(Greeted(h, name, client, device));
    case Detaches(serial) =>
      DetachedIsUnpublished(h, serial);
      PublishEstablishes(h.(providers := Without(h.providers, serial)));
    case Selects(client, device) => ChangeKeepsValid(h, h.(client := client, device := device));
    case Reports(key, active) => ChangeKeepsValid(h, h.(sinks := h.sinks[key := active]));
    case Syncs(client, device, gone, started) =>
      ChangeKeepsValid(h, h.(client := client, device := device, sinks := Synced(h.sinks, gone, started)));
    case Retires(key) => ChangeKeepsValid(h, h.(sinks := h.sinks - {key}));
    case Closes => ChangeKeepsValid(h, h.(sinks := map[]));
    case Kicks =>
  }

  lemma ChangeKeepsValid(h: HubState, n: HubState)
    requires Valid(h) && n == h.(client := n.client, device := n.device, sinks := n.sinks)
    ensures Valid(Publish(n))
  {
    ChangedIsUnpublished(h, n);
    PublishEstablishes(n);
  }

  /** In every run of attachments, departures, selections and reports. */
  lemma {:induction false} AlwaysValid(events: seq<Event>)
    ensures Valid(After(events))
  {
    if events != [] {
      AlwaysValid(events[..|events| - 1]);
      StepKeepsValid(After(events[..|events| - 1]), events[|events| - 1]);
    }
  }

  /**
   In every run: exactly one provider is the source when any is attached, the
   selected client's newest or else the newest of all; it alone has been told
   to record, exactly when some instance demands it, with those instances; and
   when it stands in for another client it was sent no device.
   */
  lemma OnlyTheSourceRecords(events: seq<Event>)
    ensures var h := After(events);
      && (h.providers != [] ==>
            exists p :: p in h.providers && Source(h) == Some(p)
              && (forall q :: q in h.providers && ToldToRecord(h, q) ==> q == p)
              && (ToldToRecord(h, p) <==> Demanding(h) != {})
              && p.serial in h.posted && h.posted[p.serial].instances == Demanding(h)
              && (h.client != "" && p.client != h.client ==> h.posted[p.serial].device == ""))
  {
    AlwaysValid(events);
    var h := After(events);
    if h.providers != [] {
      assert Source(h).value in h.providers;
    }
  }

  /** p is the newest of its client's providers. */
  ghost predicate IsNewestOf(ps: seq<Provider>, p: Provider) {
    exists i :: 0 <= i < |ps| && ps[i] == p && forall j :: i < j < |ps| ==> ps[j].client != p.client
  }

  lemma {:induction false} NewestOfIsNewest(ps: seq<Provider>, client: string) returns (i: nat)
    requires NewestOf(ps, client).Some?
    ensures i < |ps| && ps[i] == NewestOf(ps, client).value && forall j :: i < j < |ps| ==> ps[j].client != client
  {
    i := |ps| - 1;
    if ps[i].client != client {
      i := NewestOfIsNewest(ps[..i], client);
    }
  }

  /** The source is the selected client whenever that client is attached, and the newest provider when it is not. */
  lemma SourceIsSelected(h: HubState)
    requires h.providers != []
    ensures var p := Source(h).value;
      if h.client != "" && (exists q :: q in h.providers && q.client == h.client)
      then p.client == h.client && IsNewestOf(h.providers, p)
      else p == h.providers[|h.providers| - 1]
  {
    if NewestOf(h.providers, h.client).Some? {
      var i := NewestOfIsNewest(h.providers, h.client);
    }
  }

  /** The instances a provider's audio reaches: route drops everything that is not the source's. */
  function Routed(h: HubState, p: Provider): set<string> {
    if Source(h) == Some(p) then Demanding(h) else {}
  }

  /** Audio goes nowhere its provider was not told of: whatever is routed was named in the provider's last demand. */
  lemma RoutedWasDemanded(events: seq<Event>, p: Provider)
    requires p in After(events).providers
    ensures var h := After(events);
      Routed(h, p) != {} ==> ToldToRecord(h, p) && h.posted[p.serial].instances == Routed(h, p)
  {
    AlwaysValid(events);
  }

  // ---- The selected client is not always pushed ----

  /** The source's last demand is the one the hub would build now, its selected client included. */
  ghost predicate Current(h: HubState) {
    Source(h).Some? ==>
      var p := Source(h).value;
      p.serial in h.posted && h.posted[p.serial] == Message(h, p, Demanding(h))
  }

  /** The microphone moved, or it is demanded by others, or on another device. */
  predicate Moved(h: HubState, n: HubState) {
    Source(n) != Source(h) || DeviceFor(n, Source(n)) != DeviceFor(h, Source(h)) || Demanding(n) != Demanding(h)
  }

  /** h: before; n: what Publish starts from, the source's last demand as it was. */
  lemma PublishedIff(h: HubState, n: HubState)
    requires Valid(h) && Current(h) && Source(h).Some? && Source(n).Some? && n.lastSource == h.lastSource
    requires n.lastDemand == h.lastDemand && n.lastDevice == h.lastDevice
    requires Source(h).value.serial in n.posted && n.posted[Source(h).value.serial] == h.posted[Source(h).value.serial]
    ensures Current(Publish(n)) <==> n.client == h.client || Moved(h, n)
    ensures Moved(h, Publish(n)) <==> Moved(h, n)
  {
    assert Demanding(Publish(n)) == Demanding(n) && Source(Publish(n)) == Source(n);
  }

  /**
   Whatever happens to the hub, the source has been told of the selected client
   exactly when that did not change or the microphone moved: a change of the
   client alone, by a selection, a sync or an attachment, is not republished.
   */
  lemma ClientIsPushedIff(h: HubState, e: Event)
    requires Valid(h) && Current(h) && Source(h).Some? && Source(Step(h, e)).Some?
    ensures var n := Step(h, e); Current(n) <==> n.client == h.client || Moved(h, n)
  {
    match e
    case Attaches(name, client, device) =>
      GreetingTellsNoOther(h, name, client, device, Source(h).value);
      PublishedIff(h, Greeted(h, name, client, device));
    case Detaches(serial) =>
      if Attached(h.providers, serial) {
        PublishedIff(h, h.(providers := Without(h.providers, serial)));
      }
    case Selects(client, device) => PublishedIff(h, h.(client := client, device := device));
    case Reports(key, active) =>
      if key in h.sinks && h.sinks[key] != active {
        PublishedIff(h, h.(sinks := h.sinks[key := active]));
      }
    case Syncs(client, device, gone, started) =>
      if h.providers != [] {
        PublishedIff(h, h.(client := client, device := device, sinks := Synced(h.sinks, gone, started)));
      }
    case Retires(key) =>
      if key in h.sinks {
        PublishedIff(h, h.(sinks := h.sinks - {key}));
      }
    case Closes => PublishedIff(h, h.(sinks := map[]));
    case Kicks =>
  }

  /** A hub with one provider, standing in for a client that is not attached, recording for one instance. */
  function StandIn(name: string, other: string, key: string): HubState {
    HubState([Provider(0, name)], map[key := true], other, "", {key}, "", Some(Provider(0, name)),
             map[0 := Demand(true, {key}, "", other)], 1)
  }

  /** Before it recorded, and before the instance's sink was there. */
  function Idle(name: string, other: string, sinks: map<string, bool>): HubState {
    HubState([Provider(0, name)], sinks, other, "", {}, "", Some(Provider(0, name)),
        map[0 := Demand(false, {}, "", other)], 1)
  }

  lemma StandInAttaches(name: string, other: string)
    requires other != "" && other != name
    ensures Step(EMPTY, Attaches(name, other, "")) == Idle(name, other, map[])
  {
    var g := Greeted(EMPTY, name, other, "");
    assert g.providers == [Provider(0, name)];
    assert Source(g) == Some(Provider(0, name)) && Demanding(g) == {};
  }

  lemma StandInSyncs(name: string, other: string, key: string)
    requires other != "" && other != name
    ensures Step(Idle(name, other, map[]), Syncs(other, "", {}, {key})) == Idle(name, other, map[key := false])
  {
    var h := Idle(name, other, map[]);
    assert Synced(h.sinks, {}, {key}) == map[key := false];
    assert Demanding(h.(sinks := map[key := false])) == {};
  }

  lemma StandInReports(name: string, other: string, key: string)
    requires other != "" && other != name
    ensures Step(Idle(name, other, map[key := false]), Reports(key, true)) == StandIn(name, other, key)
  {
    var h := Idle(name, other, map[key := false]);
    assert h.sinks[key := true] == map[key := true];
    assert Demanding(h.(sinks := map[key := true])) == {key};
  }

  lemma StandInHappens(name: string, other: string, key: string)
    requires other != "" && other != name
    ensures After([Attaches(name, other, ""), Syncs(other, "", {}, {key}), Reports(key, true)])
         == StandIn(name, other, key)
  {
    var attach, sync, report := Attaches(name, other, ""), Syncs(other, "", {}, {key}), Reports(key, true);
    assert [attach][..0] == [] && [attach, sync][..1] == [attach] && [attach, sync, report][..2] == [attach, sync];
    StandInAttaches(name, other);
    StandInSyncs(name, other, key);
    StandInReports(name, other, key);
    assert After([attach]) == Step(EMPTY, attach);
    assert After([attach, sync]) == Step(After([attach]), sync);
  }

  /**
   That provider is not told when the selection is cleared, by a client's choice
   or by a sync that reads it: its last demand still names the client it stood
   in for.
   */
  lemma ClearedSelectionIsNotPushed(name: string, other: string, key: string, bySync: bool)
    requires other != "" && other != name
    ensures var clears := if bySync then Syncs("", "", {}, {}) else Selects("", "");
      var h := After([Attaches(name, other, ""), Syncs(other, "", {}, {key}), Reports(key, true), clears]);
      && Source(h) == Some(Provider(0, name)) && h.client == ""
      && ToldToRecord(h, Provider(0, name)) && h.posted[0].client == other
  {
    StandInHappens(name, other, key);
    var clears := if bySync then Syncs("", "", {}, {}) else Selects("", "");
    var events := [Attaches(name, other, ""), Syncs(other, "", {}, {key}), Reports(key, true), clears];
    assert events[..3] == [Attaches(name, other, ""), Syncs(other, "", {}, {key}), Reports(key, true)];
    var h := StandIn(name, other, key);
    assert Demanding(h.(client := "", device := "")) == {key};
    assert Synced(h.sinks, {}, {}) == h.sinks;
  }

  // ---- The hub as the daemon holds it ----

  /**
   How the microphone is handed on between two states: a source that was
   superseded and is still attached has been told to stop, and no one but it
   and the new source has been told anything.
   */
  ghost predicate HandedOver(h: HubState, n: HubState) {
    match h.lastSource
    case None => OthersUntold(h, n)
    case Some(q) =>
      && OthersUntold(h, n)
      && (q in n.providers && n.lastSource != Some(q) ==>
            q.serial in n.posted && !n.posted[q.serial].active && n.posted[q.serial].instances == {})
  }

  ghost predicate OthersUntold(h: HubState, n: HubState) {
    forall serial :: serial in h.posted && !IsOf(h.lastSource, serial) && !IsOf(n.lastSource, serial) ==>
      serial in n.posted && n.posted[serial] == h.posted[serial]
  }

  predicate IsOf(p: Option<Provider>, serial: nat) {
    p.Some? && p.value.serial == serial
  }

  /** h: before the call; n: what Publish starts from. */
  lemma PublishHandsOver(h: HubState, n: HubState)
    requires Unpublished(n) && n.lastSource == h.lastSource
    requires forall serial :: serial in h.posted ==> serial in n.posted && n.posted[serial] == h.posted[serial]
    ensures HandedOver(h, Publish(n))
  {
    var after, source := Publish(n), Source(n);
    if n.lastSource.Some? && n.lastSource.value in n.providers && source.Some?
      && source.value.serial == n.lastSource.value.serial {
      SameSerial(n.providers, n.attached, source.value, n.lastSource.value);
    }
  }

  /** The newcomer is greeted, and the others as for any change. */
  lemma AttachHandsOver(h: HubState, name: string, client: string, device: string)
    requires Valid(h)
    ensures Unpublished(Greeted(h, name, client, device)) && HandedOver(h, Attach(h, name, client, device))
    ensures var n, p := Attach(h, name, client, device), Provider(h.attached, name);
      p.serial in n.posted && (ToldToRecord(n, p) <==> Source(n) == Some(p) && Demanding(n) != {})
  {
    var g, p := Greeted(h, name, client, device), Provider(h.attached, name);
    GreetedIsUnpublished(h, name, client, device);
    forall serial | serial in h.posted ensures serial in g.posted && g.posted[serial] == h.posted[serial] {
      assert serial < h.attached;
    }
    PublishHandsOver(h, g);
    PublishEstablishes(g);
    assert g.providers[|h.providers|] == p;
    GreetedIsTold(Publish(g), p);
  }

  lemma StaysHandedOver(h: HubState)
    requires Valid(h)
    ensures HandedOver(h, h)
  {
  }

  lemma GreetedIsTold(h: HubState, p: Provider)
    requires Valid(h) && p in h.providers
    ensures p.serial in h.posted && (ToldToRecord(h, p) <==> Source(h) == Some(p) && Demanding(h) != {})
  {
  }

  lemma SourceToldOf(h: HubState, key: string)
    requires Valid(h)
    ensures h.lastSource.Some? ==>
      && h.lastSource.value.serial in h.posted
      && (key in h.posted[h.lastSource.value.serial].instances <==> key in h.sinks && h.sinks[key])
  {
  }

  lemma NobodyDemands(h: HubState)
    requires Valid(h) && h.sinks == map[]
    ensures forall p :: p in h.providers ==> !ToldToRecord(h, p)
  {
    assert Demanding(h) == {};
  }

  class Hub {
    var providers: seq<Provider>
    var sinks: map<string, bool>
    var client: string
    var device: string
    var lastDemand: set<string>
    var lastDevice: string
    var lastSource: Option<Provider>
    var posted: map<nat, Demand>
    var attached: nat

    function State(): HubState
      reads this
    {
      HubState(providers, sinks, client, device, lastDemand, lastDevice, lastSource, posted, attached)
    }

    constructor ()
      ensures State() == EMPTY && Valid(State())
    {
      providers, sinks, client, device, lastDemand, lastDevice := [], map[], "", "", {}, "";
      lastSource, posted, attached := None, map[], 0;
    }

    method SourceLocked() returns (p: Option<Provider>)
      ensures p == Source(State())
    {
      if client != "" {
        var i := |providers|;
        assert providers[..i] == providers;
        while i > 0
          invariant 0 <= i <= |providers| && NewestOf(providers, client) == NewestOf(providers[..i], client)
        {
          i := i - 1;
          assert providers[..i + 1][..i] == providers[..i];
          if providers[i].client == client {
            return Some(providers[i]);
          }
        }
      }
      p := if providers != [] then Some(providers[|providers| - 1]) else None;
    }

    /** The instances whose sinks report demand. */
    method DemandingLocked() returns (demanding: set<string>)
      ensures demanding == Demanding(State())
    {
      demanding := {};
      var keys := sinks.Keys;
      while keys != {}
        invariant keys <= sinks.Keys
        invariant demanding == set key | key in sinks && key !in keys && sinks[key]
      {
        var key :| key in keys;
        if sinks[key] {
          demanding := demanding + {key};
        }
        keys := keys - {key};
      }
    }

    method Post(p: Provider, demanding: set<string>)
      modifies `posted
      ensures posted == old(posted)[p.serial := Message(old(State()), p, demanding)]
    {
      posted := posted[p.serial := Demand(demanding != {}, demanding, DeviceFor(State(), Some(p)), client)];
    }

    method PublishDemandLocked()
      requires Unpublished(State())
      modifies `lastDemand, `lastDevice, `lastSource, `posted
      ensures State() == Publish(old(State()))
      ensures Valid(State()) && HandedOver(old(State()), State())
    {
      PublishEstablishes(State());
      PublishHandsOver(State(), State());
      PostChanges();
    }

    method PostChanges()
      modifies `lastDemand, `lastDevice, `lastSource, `posted
      ensures State() == Publish(old(State()))
    {
      var demanding := DemandingLocked();
      var source := SourceLocked();
      var chosen := DeviceFor(State(), source);
      if demanding == lastDemand && source == lastSource && chosen == lastDevice {
        return;
      }
      var previous := lastSource;
      lastDemand, lastDevice, lastSource := demanding, chosen, source;
      if source != previous && previous.Some? && previous.value in providers {
        Post(previous.value, {});
      }
      if source.Some? {
        Post(source.value, demanding);
      }
    }

    /** The microphone moves to the newly selected client, or device, at once. */
    method SetSelection(client: string, device: string)
      requires Valid(State())
      modifies `client, `device, `lastDemand, `lastDevice, `lastSource, `posted
      ensures State() == Step(old(State()), Selects(client, device))
      ensures Valid(State()) && HandedOver(old(State()), State())
      ensures this.client == client && this.device == device
    {
      ghost var before := State();
      this.client, this.device := client, device;
      ChangedIsUnpublished(before, State());
      PublishHandsOver(before, State());
      PublishDemandLocked();
    }

    /**
     The newcomer is greeted: told to record if it is the source and an instance demands it, and
     told to stand by if not.
     */
    method AddProvider(name: string, client: string, device: string) returns (p: Provider)
      requires Valid(State())
      modifies `providers, `attached, `client, `device, `lastDemand, `lastDevice, `lastSource, `posted
      ensures State() == Step(old(State()), Attaches(name, client, device))
      ensures Valid(State()) && HandedOver(old(State()), State())
      ensures p == Provider(old(attached), name) && providers == old(providers) + [p]
      ensures p.serial in posted
        && (ToldToRecord(State(), p) <==> Source(State()) == Some(p) && Demanding(State()) != {})
    {
      AttachHandsOver(State(), name, client, device);
      p := Greet(name, client, device);
      PublishDemandLocked();
    }

    method Greet(name: string, client: string, device: string) returns (p: Provider)
      modifies `client, `device, `providers, `attached, `posted
      ensures State() == Greeted(old(State()), name, client, device)
      ensures p == Provider(old(attached), name)
    {
      p := Enlist(name, client, device);
      var source := SourceLocked();
      if source != Some(p) {
        Post(p, {});
      }
    }

    method Enlist(name: string, client: string, device: string) returns (p: Provider)
      modifies `client, `device, `providers, `attached
      ensures State() == Enlisted(old(State()), name, client, device)
      ensures p == Provider(old(attached), name)
    {
      p := Provider(attached, name);
      this.client, this.device := client, device;
      providers, attached := providers + [p], attached + 1;
    }

    /** The next in line takes over if the source left. */
    method RemoveProvider(serial: nat)
      requires Valid(State())
      modifies `providers, `lastDemand, `lastDevice, `lastSource, `posted
      ensures State() == Step(old(State()), Detaches(serial))
      ensures Valid(State()) && HandedOver(old(State()), State())
      ensures providers == Without(old(providers), serial)
    {
      ghost var before := State();
      var i := IndexOf(serial);
      if i < |providers| {
        providers := providers[..i] + providers[i + 1..];
        DetachedIsUnpublished(before, serial);
        PublishHandsOver(before, State());
        PublishDemandLocked();
      } else {
        StaysHandedOver(before);
      }
    }

    /** Where the provider stands, or the length of the list. */
    method IndexOf(serial: nat) returns (i: nat)
      requires Distinct(providers, attached)
      ensures i <= |providers| && (i < |providers| <==> Attached(providers, serial))
      ensures i < |providers| ==> providers[i].serial == serial
      ensures Without(providers, serial) == if i < |providers| then providers[..i] + providers[i + 1..] else providers
    {
      i := 0;
      while i < |providers| && providers[i].serial != serial
        invariant i <= |providers| && forall j :: 0 <= j < i ==> providers[j].serial != serial
      {
        i := i + 1;
      }
      if i < |providers| {
        WithoutIsDelete(providers, attached, i);
      } else {
        WithoutNone(providers, serial);
      }
    }

    /** The source is told of the instance exactly when it demands the microphone. */
    method SetDemand(key: string, active: bool)
      requires Valid(State())
      modifies `sinks, `lastDemand, `lastDevice, `lastSource, `posted
      ensures State() == Step(old(State()), Reports(key, active))
      ensures Valid(State()) && HandedOver(old(State()), State())
      ensures sinks == if key in old(sinks) then old(sinks)[key := active] else old(sinks)
      ensures key in sinks && lastSource.Some? ==> (key in posted[lastSource.value.serial].instances <==> active)
    {
      ghost var before := State();
      if key !in sinks || sinks[key] == active {
        StaysHandedOver(before);
        SourceToldOf(before, key);
        return;
      }
      sinks := sinks[key := active];
      ChangedIsUnpublished(before, State());
      PublishHandsOver(before, State());
      PublishDemandLocked();
      SourceToldOf(State(), key);
    }

    /**
     gone and started are what the state file says of the instances: a sink that stays keeps its
     demand, a new one has none.
     */
    method SyncSinks(client: string, device: string, gone: set<string>, started: set<string>)
      requires Valid(State())
      modifies `client, `device, `sinks, `lastDemand, `lastDevice, `lastSource, `posted
      ensures State() == Step(old(State()), Syncs(client, device, gone, started))
      ensures Valid(State()) && HandedOver(old(State()), State())
      ensures providers == [] ==> State() == old(State())
      ensures providers != [] ==>
        this.client == client && this.device == device && sinks.Keys == (old(sinks).Keys - gone) + started
      ensures providers != [] ==> forall key :: key in sinks ==>
        (sinks[key] <==> key in old(sinks) && key !in gone && old(sinks)[key])
    {
      ghost var before := State();
      if providers == [] {
        StaysHandedOver(before);
        return;
      }
      this.client, this.device := client, device;
      sinks := Synced(sinks, gone, started);
      ChangedIsUnpublished(before, State());
      PublishHandsOver(before, State());
      PublishDemandLocked();
    }

    /** Whatever the instance demanded, the source is not told of it any more. */
    method RetireSink(key: string)
      requires Valid(State())
      modifies `sinks, `lastDemand, `lastDevice, `lastSource, `posted
      ensures State() == Step(old(State()), Retires(key))
      ensures Valid(State()) && HandedOver(old(State()), State())
      ensures sinks == old(sinks) - {key}
      ensures lastSource.Some? ==> key !in posted[lastSource.value.serial].instances
    {
      ghost var before := State();
      if key in sinks {
        sinks := sinks - {key};
        ChangedIsUnpublished(before, State());
        PublishHandsOver(before, State());
        PublishDemandLocked();
      } else {
        StaysHandedOver(before);
      }
      SourceToldOf(State(), key);
    }

    /** No microphone is open afterwards. */
    method CloseAllSinks()
      requires Valid(State())
      modifies `sinks, `lastDemand, `lastDevice, `lastSource, `posted
      ensures State() == Step(old(State()), Closes)
      ensures Valid(State()) && HandedOver(old(State()), State())
      ensures sinks == map[]
      ensures forall p :: p in providers ==> !ToldToRecord(State(), p)
    {
      ghost var before := State();
      sinks := map[];
      ChangedIsUnpublished(before, State());
      PublishHandsOver(before, State());
      PublishDemandLocked();
      NobodyDemands(State());
    }

    /** Every stream is ended: there is no source, and no one is told anything more. */
    method KickProviders()
      requires Valid(State())
      modifies `providers, `lastSource
      ensures State() == Step(old(State()), Kicks) && Valid(State())
      ensures providers == [] && Source(State()) == None
    {
      StepKeepsValid(State(), Kicks);
      providers, lastSource := [], None;
    }
  }

  lemma {:induction false} WithoutIsDelete(ps: seq<Provider>, bound: nat, i: nat)
    requires Distinct(ps, bound) && i < |ps|
    ensures Without(ps, ps[i].serial) == ps[..i] + ps[i + 1..]
  {
    var last := |ps| - 1;
    var init := ps[..last];
    if i == last {
      WithoutNone(init, ps[i].serial);
    } else {
      assert init[i] == ps[i];
      WithoutIsDelete(init, bound, i);
      assert init[..i] == ps[..i] && init[i + 1..] + [ps[last]] == ps[i + 1..];
    }
  }

  lemma {:induction false} WithoutNone(ps: seq<Provider>, serial: nat)
    requires forall j :: 0 <= j < |ps| ==> ps[j].serial != serial
    ensures Without(ps, serial) == ps
  {
    if ps != [] {
      WithoutNone(ps[..|ps| - 1], serial);
    }
  }
}
