/**
 The agent hub's providers (internal/server/sshagent.go): in which order a
 connection tries them, and what each provider has last been told about its
 place.

 A provider is its serial number in attach order and whether it yields to the others.
 */
module AgentHub {
  import opened Bytes

  datatype Provider = Provider(serial: nat, yielding: bool)

  /** p is tried before q: non-yielding providers first, newest first among equals. */
  predicate TriedBefore(p: Provider, q: Provider) {
    (!p.yielding && q.yielding) || (p.yielding == q.yielding && p.serial > q.serial)
  }

  // ---- The hub as a value ----

  /**
   providers is kept in reverse order of trying; told is the last status posted to each; attached
   counts attachments.
   */
  datatype HubState = HubState(providers: seq<Provider>, told: map<nat, bool>, attached: nat)

  const EMPTY := HubState([], map[], 0)

  function LeadingYields(ps: seq<Provider>): (n: nat)
    ensures n <= |ps| && forall i :: 0 <= i < n ==> ps[i].yielding
    ensures n < |ps| ==> !ps[n].yielding
  {
    if ps == [] || !ps[0].yielding then 0 else 1 + LeadingYields(ps[1..])
  }

  /** The hub after a provider attaches: it is told its place, and the one it displaces is told to stand by. */
  function Attach(h: HubState, yielding: bool): HubState {
    var p := Provider(h.attached, yielding);
    var at := if yielding then LeadingYields(h.providers) else |h.providers|;
    var ps := h.providers[..at] + [p] + h.providers[at..];
    var active := ps[|ps| - 1];
    var told := if h.providers != [] && h.providers[|h.providers| - 1] != active
      then h.told[h.providers[|h.providers| - 1].serial := false] else h.told;
    HubState(ps, told[p.serial := p == active], h.attached + 1)
  }

  /** The hub after the provider at index i leaves: the next one is promoted if it was active. */
  function Detach(h: HubState, i: nat): HubState
    requires i < |h.providers|
  {
    var ps := h.providers[..i] + h.providers[i + 1..];
    var told := if i == |h.providers| - 1 && ps != [] then h.told[ps[|ps| - 1].serial := true] else h.told;
    HubState(ps, told, h.attached)
  }

  /** The later in the list, the earlier it is tried; serial numbers below bound, all different. */
  ghost predicate Ordered(ps: seq<Provider>, bound: nat) {
    && (forall i, j :: 0 <= i < j < |ps| ==> TriedBefore(ps[j], ps[i]) && ps[i].serial != ps[j].serial)
    && (forall i :: 0 <= i < |ps| ==> ps[i].serial < bound)
  }

  /** Exactly the first to be tried has been told that it is. */
  ghost predicate ToldRight(ps: seq<Provider>, told: map<nat, bool>) {
    forall i :: 0 <= i < |ps| ==> ps[i].serial in told && (told[ps[i].serial] <==> i == |ps| - 1)
  }

  /** What every reachable hub keeps. */
  ghost predicate Valid(h: HubState) {
    Ordered(h.providers, h.attached) && ToldRight(h.providers, h.told)
  }

  lemma Inserted(ps: seq<Provider>, at: nat, p: Provider, i: nat)
    requires at <= |ps| && i <= |ps|
    ensures (ps[..at] + [p] + ps[at..])[i] == if i < at then ps[i] else if i == at then p else ps[i - 1]
  {
  }

  lemma InsertedPair(ps: seq<Provider>, at: nat, p: Provider, i: nat, j: nat)
    requires Ordered(ps, p.serial) && at == (if p.yielding then LeadingYields(ps) else |ps|)
    requires i < j <= |ps|
    ensures var n := ps[..at] + [p] + ps[at..];
      TriedBefore(n[j], n[i]) && n[i].serial != n[j].serial
  {
    Inserted(ps, at, p, i);
    Inserted(ps, at, p, j);
    if i == at && at + 1 < j {
      assert TriedBefore(ps[j - 1], ps[at]);
    }
  }

  lemma InsertKeepsOrder(ps: seq<Provider>, at: nat, p: Provider)
    requires Ordered(ps, p.serial) && at == (if p.yielding then LeadingYields(ps) else |ps|)
    ensures Ordered(ps[..at] + [p] + ps[at..], p.serial + 1)
  {
    var n := ps[..at] + [p] + ps[at..];
    forall i, j | 0 <= i < j < |n| ensures TriedBefore(n[j], n[i]) && n[i].serial != n[j].serial {
      InsertedPair(ps, at, p, i, j);
    }
    forall i | 0 <= i < |n| ensures n[i].serial < p.serial + 1 {
      Inserted(ps, at, p, i);
    }
  }

  lemma AttachKeepsValid(h: HubState, yielding: bool)
    requires Valid(h)
    ensures Valid(Attach(h, yielding))
  {
    var p := Provider(h.attached, yielding);
    var at := if yielding then LeadingYields(h.providers) else |h.providers|;
    InsertKeepsOrder(h.providers, at, p);
    var n := Attach(h, yielding);
    Inserted(h.providers, at, p, |h.providers|);
    forall i | 0 <= i < |n.providers|
      ensures n.providers[i].serial in n.told && (n.told[n.providers[i].serial] <==> i == |n.providers| - 1)
    {
      Inserted(h.providers, at, p, i);
    }
  }

  lemma DetachKeepsValid(h: HubState, i: nat)
    requires Valid(h) && i < |h.providers|
    ensures Valid(Detach(h, i))
  {
    var n := Detach(h, i);
    forall j | 0 <= j < |n.providers| ensures n.providers[j] == h.providers[if j < i then j else j + 1] {
    }
  }

  datatype Event = Attaches(yielding: bool) | Detaches(index: nat)

  /** The hub after a sequence of attachments and departures; a departure of nobody changes nothing. */
  function After(events: seq<Event>): HubState {
    if events == [] then EMPTY
    else
      var h := After(events[..|events| - 1]);
      match events[|events| - 1]
      case Attaches(yielding) => Attach(h, yielding)
      case Detaches(i) => if i < |h.providers| then Detach(h, i) else h
  }

  /** Over every sequence of attachments and departures. */
  lemma {:induction false} AlwaysValid(events: seq<Event>)
    ensures Valid(After(events))
  {
    if events != [] {
      var h := After(events[..|events| - 1]);
      AlwaysValid(events[..|events| - 1]);
      match events[|events| - 1]
      case Attaches(yielding) => AttachKeepsValid(h, yielding);
      case Detaches(i) => if i < |h.providers| { DetachKeepsValid(h, i); }
    }
  }

  /**
   The list is in attach order exactly when no yielding provider attached after
   one that does not yield.
   */
  lemma AttachOrderIff(events: seq<Event>)
    ensures var ps := After(events).providers;
      (forall i, j :: 0 <= i < j < |ps| ==> ps[i].serial < ps[j].serial) <==>
      (forall i, j :: 0 <= i < |ps| && 0 <= j < |ps| && ps[i].yielding && !ps[j].yielding ==>
          ps[i].serial < ps[j].serial)
  {
    AlwaysValid(events);
    var ps := After(events).providers;
    forall i, j | 0 <= i < |ps| && 0 <= j < |ps| && ps[i].yielding && !ps[j].yielding ensures i < j {
      assert j < i ==> TriedBefore(ps[i], ps[j]);
    }
  }

  /** A yielding provider that attaches second goes in front. */
  lemma YieldingGoesInFront()
    ensures After([Attaches(false), Attaches(true)]).providers == [Provider(1, true), Provider(0, false)]
  {
    var events := [Attaches(false), Attaches(true)];
    assert events[..1] == [Attaches(false)] && [Attaches(false)][..0] == [];
    assert After([Attaches(false)]) == Attach(EMPTY, false);
    assert Attach(EMPTY, false).providers == [Provider(0, false)];
  }

  // ---- The hub as the daemon holds it ----

  class Hub {
    var providers: seq<Provider>
    var told: map<nat, bool>
    var attached: nat

    function State(): HubState
      reads this
    {
      HubState(providers, told, attached)
    }

    constructor ()
      ensures State() == EMPTY && Valid(State())
    {
      providers, told, attached := [], map[], 0;
    }

    method PostStatus(p: Provider, active: bool)
      modifies `told
      ensures told == old(told)[p.serial := active]
    {
      told := told[p.serial := active];
    }

    /** Where a new provider goes: behind the yielding ones if it yields, else last. */
    method InsertionIndex(yielding: bool) returns (at: nat)
      ensures at == if yielding then LeadingYields(providers) else |providers|
    {
      at := |providers|;
      if yielding {
        at := 0;
        while at < |providers| && providers[at].yielding
          invariant at <= |providers| && forall i :: 0 <= i < at ==> providers[i].yielding
        {
          at := at + 1;
        }
        LeadingYieldsIs(providers, at);
      }
    }

    method AddProvider(yielding: bool) returns (p: Provider)
      requires Valid(State())
      modifies `providers, `told, `attached
      ensures State() == Attach(old(State()), yielding) && Valid(State())
      ensures p == Provider(old(attached), yielding)
    {
      ghost var before := State();
      p := Provider(attached, yielding);
      var at := InsertionIndex(yielding);
      var displaced := if providers == [] then None else Some(providers[|providers| - 1]);
      providers, attached := providers[..at] + [p] + providers[at..], attached + 1;
      var active := providers[|providers| - 1];
      if displaced.Some? && displaced.value != active {
        PostStatus(displaced.value, false);
      }
      PostStatus(p, p == active);
      AttachKeepsValid(before, yielding);
    }

    method RemoveProvider(p: Provider)
      requires Valid(State())
      modifies `providers, `told
      ensures Valid(State()) && p !in providers
      ensures p !in old(providers) ==> State() == old(State())
      ensures forall i :: 0 <= i < |old(providers)| && old(providers)[i] == p ==> State() == Detach(old(State()), i)
    {
      var i := 0;
      while i < |providers| && providers[i] != p
        invariant i <= |providers| && forall j :: 0 <= j < i ==> providers[j] != p
      {
        i := i + 1;
      }
      if i < |providers| {
        DetachKeepsValid(State(), i);
        var wasActive := i == |providers| - 1;
        providers := providers[..i] + providers[i + 1..];
        if wasActive && providers != [] {
          PostStatus(providers[|providers| - 1], true);
        }
      }
    }

    /** The providers in the order they are tried. */
    method ProvidersNewestFirst() returns (out: seq<Provider>)
      requires Valid(State())
      ensures forall i, j :: 0 <= i < j < |out| ==> TriedBefore(out[i], out[j])
      ensures forall p :: p in out <==> p in providers
    {
      out := [];
      for i := 0 to |providers|
        invariant |out| == i && forall k :: 0 <= k < i ==> out[k] == providers[i - 1 - k]
      {
        out := [providers[i]] + out;
      }
      assert forall i :: 0 <= i < |providers| ==> providers[i] == out[|out| - 1 - i];
    }
  }

  lemma LeadingYieldsIs(ps: seq<Provider>, n: nat)
    requires n <= |ps| && (forall i :: 0 <= i < n ==> ps[i].yielding) && (n < |ps| ==> !ps[n].yielding)
    ensures LeadingYields(ps) == n
  {
  }
}
