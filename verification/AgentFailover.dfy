/**
 One connection's way through the providers (internal/server/sshagent.go,
 serveConn): a snapshot of the providers in the order of trying, then one
 provider after another, skipped when it is suspect or relayed to until its
 relay returns, and the daemon's own agent at the end. Each relay is a run of
 `AgentLink`; meanwhile providers attach and leave, time passes, frames are
 heard and other connections' relays time out.
 */
module AgentFailover {
  import opened Bytes
  import H = AgentHub
  import L = AgentLink

  /** agentPingInterval, in seconds. */
  const PING_INTERVAL: nat := 15

  /** What became of a provider of the snapshot. */
  datatype Attempt = Skipped(provider: H.Provider) | Tried(provider: H.Provider, link: L.Link)

  /** How a connection was served: by a provider, by the daemon's own agent, or not at all. */
  datatype Route = Via(provider: H.Provider) | OwnAgent | Closed

  datatype Stage = Arrived | Choosing | Relaying(link: L.Link) | Done(route: Route)

  /** The hub's clock, when each provider last sent anything, and those whose open or ready timed out since. */
  datatype Liveness = Liveness(clock: nat, heard: map<nat, nat>, late: set<nat>)

  /**
   snapshot: the providers in the order of trying when the connection came, and
   before: how many had ever attached by then; past: those dealt with; chosen:
   the providers attached when one of them, or the daemon's own agent, took it.
   */
  datatype State = State(
    hub: H.HubState, live: Liveness, fallback: bool, stage: Stage,
    snapshot: seq<H.Provider>, before: nat, past: seq<Attempt>, chosen: Option<seq<H.Provider>>)

  function Start(fallback: bool): State {
    State(H.EMPTY, Liveness(0, map[], {}), fallback, Arrived, [], 0, [], None)
  }

  /** Hears: a pong, or a frame of another connection; TimesOut: another connection's relay gave up on the provider. */
  datatype Event =
    | Attaches(yielding: bool) | Detaches(index: nat)
    | Passes(seconds: nat) | Hears(serial: nat) | TimesOut(serial: nat)
    | Snapshot | Skips | Tries | Steps(step: L.Step) | Returns | FallsBack

  /** isSuspect: a relay timed out since it was last heard, or it has been silent for two ping intervals. */
  predicate Suspect(live: Liveness, serial: nat) {
    serial in live.late || (serial in live.heard && live.clock - live.heard[serial] > 2 * PING_INTERVAL)
  }

  /** A relay is over when it has returned, or when the provider's table refused the connection. */
  predicate Over(l: L.Link) {
    l.server.stage.Returned? || l.server.stage.Idle?
  }

  predicate Served(l: L.Link) {
    l.server.stage == L.Returned(true)
  }

  /** Some provider of the snapshot has not had its turn. */
  predicate Pending(s: State) {
    |s.past| < |s.snapshot|
  }

  predicate Can(s: State, e: Event) {
    match e
    case Attaches(_) => true
    case Detaches(i) => i < |s.hub.providers|
    case Passes(_) => true
    case Hears(serial) => serial < s.hub.attached
    case TimesOut(serial) => serial < s.hub.attached
    case Snapshot => s.stage.Arrived?
    case Skips => s.stage.Choosing? && Pending(s) && Suspect(s.live, s.snapshot[|s.past|].serial)
    case Tries => s.stage.Choosing? && Pending(s) && !Suspect(s.live, s.snapshot[|s.past|].serial)
    case Steps(st) => s.stage.Relaying? && Pending(s) && L.Can(s.stage.link, st)
    case Returns => s.stage.Relaying? && Pending(s) && Over(s.stage.link)
    case FallsBack => s.stage.Choosing? && !Pending(s)
  }

  function Reversed(ps: seq<H.Provider>): (r: seq<H.Provider>)
    ensures |r| == |ps| && forall i :: 0 <= i < |ps| ==> r[i] == ps[|ps| - 1 - i]
  {
    seq(|ps|, i requires 0 <= i < |ps| => ps[|ps| - 1 - i])
  }

  /** deliver: any frame says that the provider is there. */
  function Heard(live: Liveness, serial: nat): Liveness {
    live.(heard := live.heard[serial := live.clock], late := live.late - {serial})
  }

  /** What a step of the relay says about its provider. */
  function Noticed(live: Liveness, serial: nat, st: L.Step): Liveness {
    if st.DeliverUp? then Heard(live, serial)
    else if GivesUp(st) then live.(late := live.late + {serial})
    else live
  }

  /** The relay's timer ran out, for the open or for its answer. */
  predicate GivesUp(st: L.Step) {
    st == L.Relays(L.OpenTimesOut) || st == L.Relays(L.AnswerTimesOut)
  }

  function Next(s: State, e: Event): State
    requires Can(s, e)
  {
    match e
    case Attaches(yielding) => s.(hub := H.Attach(s.hub, yielding), live := Heard(s.live, s.hub.attached))
    case Detaches(i) => s.(hub := H.Detach(s.hub, i))
    case Passes(seconds) => s.(live := s.live.(clock := s.live.clock + seconds))
    case Hears(serial) => s.(live := Heard(s.live, serial))
    case TimesOut(serial) => s.(live := s.live.(late := s.live.late + {serial}))
    case Snapshot => s.(stage := Choosing, snapshot := Reversed(s.hub.providers), before := s.hub.attached)
    case Skips => s.(past := s.past + [Skipped(s.snapshot[|s.past|])])
    case Tries => s.(stage := Relaying(L.START))
    case Steps(st) =>
      s.(stage := Relaying(L.Next(s.stage.link, st)),
         live := Noticed(s.live, s.snapshot[|s.past|].serial, st),
         chosen := if st == L.Relays(L.Accept) then Some(s.hub.providers) else s.chosen)
    case Returns =>
      var p, l := s.snapshot[|s.past|], s.stage.link;
      s.(stage := if Served(l) then Done(Via(p)) else Choosing, past := s.past + [Tried(p, l)])
    case FallsBack =>
      s.(stage := Done(if s.fallback then OwnAgent else Closed), chosen := Some(s.hub.providers))
  }

  /** Events that cannot happen change nothing. */
  function After(fallback: bool, events: seq<Event>): State {
    if events == [] then Start(fallback)
    else
      var s, e := After(fallback, events[..|events| - 1]), events[|events| - 1];
      if Can(s, e) then Next(s, e) else s
  }

  // ---- The invariant ----

  /** Nothing passed between the connection and the provider. */
  predicate Untouched(l: L.Link) {
    && l.server.sent == [] && l.server.delivered == [] && l.provider.got == []
    && forall m :: m in l.wire + l.out ==> !m.Request?
  }

  /** Dealt with, without serving: if it was tried, not a byte reached it. */
  predicate Passed(a: Attempt) {
    a.Skipped? || (!Served(a.link) && Untouched(a.link))
  }

  ghost predicate InOrder(ps: seq<H.Provider>, bound: nat) {
    && (forall i, j :: 0 <= i < j < |ps| ==> H.TriedBefore(ps[i], ps[j]))
    && (forall i :: 0 <= i < |ps| ==> ps[i].serial < bound)
  }

  /** Whoever was attached before the snapshot is in it. */
  ghost predicate OldOnesSeen(ps: seq<H.Provider>, snapshot: seq<H.Provider>, before: nat) {
    forall q :: q in ps && q.serial < before ==> q in snapshot
  }

  ghost predicate StageOk(s: State) {
    match s.stage
    case Arrived => s.past == [] && s.chosen == None
    case Choosing => s.chosen == None && AllPassed(s.past)
    case Relaying(l) =>
      && L.Inv(l) && |s.past| < |s.snapshot| && AllPassed(s.past)
      && (s.chosen.Some? <==> L.Started(l.server))
    case Done(route) =>
      && s.chosen.Some?
      && if route.Via?
         then s.past != [] && AllPassed(s.past[..|s.past| - 1]) && ServedBy(s.past[|s.past| - 1], route.provider)
         else AllPassed(s.past) && |s.past| == |s.snapshot| && (route.OwnAgent? <==> s.fallback)
  }

  predicate ServedBy(a: Attempt, p: H.Provider) {
    a.Tried? && a.provider == p && Served(a.link)
  }

  predicate AllPassed(past: seq<Attempt>) {
    forall i :: 0 <= i < |past| ==> Passed(past[i])
  }

  ghost predicate Valid(s: State) {
    Ordered(s) && StageOk(s)
  }

  /** The snapshot in order, dealt with from the front, and no one who was there before it missing. */
  ghost predicate Ordered(s: State) {
    && H.Valid(s.hub) && s.before <= s.hub.attached
    && InOrder(s.snapshot, s.before)
    && |s.past| <= |s.snapshot| && (forall i :: 0 <= i < |s.past| ==> s.past[i].provider == s.snapshot[i])
    && OldOnesSeen(s.hub.providers, s.snapshot, s.before)
    && (s.chosen.Some? ==> OldOnesSeen(s.chosen.value, s.snapshot, s.before))
  }

  lemma AttachedOrNew(h: H.HubState, yielding: bool, q: H.Provider)
    requires q in H.Attach(h, yielding).providers
    ensures q in h.providers || q.serial == h.attached
  {
    var at := if yielding then H.LeadingYields(h.providers) else |h.providers|;
    assert q in h.providers[..at] || q in [H.Provider(h.attached, yielding)] || q in h.providers[at..];
  }

  lemma AttachKeeps(s: State, yielding: bool)
    requires Valid(s)
    ensures Valid(Next(s, Attaches(yielding)))
  {
    H.AttachKeepsValid(s.hub, yielding);
    var n := H.Attach(s.hub, yielding);
    assert n.attached == s.hub.attached + 1;
    forall q | q in n.providers && q.serial < s.before ensures q in s.snapshot {
      AttachedOrNew(s.hub, yielding, q);
    }
  }

  lemma DetachKeeps(s: State, i: nat)
    requires Valid(s) && i < |s.hub.providers|
    ensures Valid(Next(s, Detaches(i)))
  {
    H.DetachKeepsValid(s.hub, i);
    assert forall q :: q in H.Detach(s.hub, i).providers ==> q in s.hub.providers;
  }

  lemma SnapshotKeeps(s: State)
    requires Valid(s) && s.stage.Arrived?
    ensures Valid(Next(s, Snapshot))
  {
    var ps := s.hub.providers;
    forall q | q in ps ensures q in Reversed(ps) {
      var i :| 0 <= i < |ps| && ps[i] == q;
      assert Reversed(ps)[|ps| - 1 - i] == q;
    }
  }

  lemma RelayKeeps(s: State, st: L.Step)
    requires Valid(s) && Can(s, Steps(st))
    ensures Valid(Next(s, Steps(st)))
  {
    L.InvKept(s.stage.link, st);
    StartsByAccepting(s.stage.link, st);
  }

  /** A connection is taken at the provider's ready, and stays taken. */
  lemma StartsByAccepting(l: L.Link, st: L.Step)
    requires L.Can(l, st)
    ensures L.Started(L.Next(l, st).server) <==> L.Started(l.server) || st == L.Relays(L.Accept)
  {
  }

  /** A relay that is over without having served has moved nothing. */
  lemma OverUntouched(l: L.Link)
    requires L.Inv(l) && Over(l) && !Served(l)
    ensures Untouched(l) && !L.Started(l.server)
  {
  }

  lemma OneMorePassed(past: seq<Attempt>, a: Attempt)
    requires AllPassed(past)
    ensures (past + [a])[..|past + [a]| - 1] == past && (Passed(a) ==> AllPassed(past + [a]))
  {
  }

  lemma ReturnKeepsStage(s: State)
    requires StageOk(s) && Can(s, Returns)
    ensures StageOk(Next(s, Returns))
  {
    var l := s.stage.link;
    OneMorePassed(s.past, Tried(s.snapshot[|s.past|], l));
    if !Served(l) {
      OverUntouched(l);
    } else {
      assert L.Started(l.server);
    }
  }

  lemma ReturnKeeps(s: State)
    requires Valid(s) && Can(s, Returns)
    ensures Valid(Next(s, Returns))
  {
    ReturnKeepsOrder(s);
    ReturnKeepsStage(s);
  }

  lemma ReturnKeepsOrder(s: State)
    requires Ordered(s) && Can(s, Returns)
    ensures Ordered(Next(s, Returns))
  {
  }

  lemma StepKeeps(s: State, e: Event)
    requires Valid(s) && Can(s, e)
    ensures Valid(Next(s, e))
  {
    match e
    case Attaches(yielding) => AttachKeeps(s, yielding);
    case Detaches(i) => DetachKeeps(s, i);
    case Snapshot => SnapshotKeeps(s);
    case Tries => L.InvAtStart();
    case Steps(st) => RelayKeeps(s, st);
    case Returns => ReturnKeeps(s);
    case _ =>
  }

  lemma {:induction false} AlwaysValid(fallback: bool, events: seq<Event>)
    ensures Valid(After(fallback, events)) && After(fallback, events).fallback == fallback
  {
    if events != [] {
      var s, e := After(fallback, events[..|events| - 1]), events[|events| - 1];
      AlwaysValid(fallback, events[..|events| - 1]);
      if Can(s, e) {
        StepKeeps(s, e);
      }
    }
  }

  // ---- Who is skipped ----

  /** Event i happened, and brought a frame of the provider: its attachment, or any frame later. */
  predicate HeardAt(fallback: bool, events: seq<Event>, i: nat, serial: nat) {
    && i < |events| && Can(After(fallback, events[..i]), events[i])
    && IsHeard(After(fallback, events[..i]), events[i], serial)
  }

  predicate IsHeard(s: State, e: Event, serial: nat)
    requires Can(s, e)
  {
    || (e.Attaches? && serial == s.hub.attached) || e == Hears(serial)
    || (e == Steps(L.DeliverUp) && s.snapshot[|s.past|].serial == serial)
  }

  /** Event i happened, and was a relay to the provider that timed out. */
  predicate TimedOutAt(fallback: bool, events: seq<Event>, i: nat, serial: nat) {
    && i < |events| && Can(After(fallback, events[..i]), events[i])
    && IsTimeout(After(fallback, events[..i]), events[i], serial)
  }

  predicate IsTimeout(s: State, e: Event, serial: nat)
    requires Can(s, e)
  {
    e == TimesOut(serial) || (e.Steps? && GivesUp(e.step) && s.snapshot[|s.past|].serial == serial)
  }

  /** The last frame of the provider was event i. */
  ghost predicate LastHeard(fallback: bool, events: seq<Event>, i: nat, serial: nat) {
    HeardAt(fallback, events, i, serial) && forall j :: i < j < |events| ==> !HeardAt(fallback, events, j, serial)
  }

  /** Since event i, more than two ping intervals passed, or a relay to the provider timed out. */
  ghost predicate StoppedSince(fallback: bool, events: seq<Event>, i: nat, serial: nat)
    requires i < |events|
  {
    || After(fallback, events).live.clock - After(fallback, events[..i]).live.clock > 2 * PING_INTERVAL
    || TimedOutAfter(fallback, events, i, serial)
  }

  /** What the hub remembers of a provider is what happened since its last frame. */
  ghost predicate Remembers(fallback: bool, events: seq<Event>, i: nat, serial: nat) {
    var live := After(fallback, events).live;
    && LastHeard(fallback, events, i, serial)
    && serial in live.heard && live.heard[serial] == After(fallback, events[..i]).live.clock
    && (serial in live.late <==> TimedOutAfter(fallback, events, i, serial))
  }

  lemma HeardAtPrefix(fallback: bool, events: seq<Event>, i: nat, serial: nat)
    requires events != [] && i < |events| - 1
    ensures HeardAt(fallback, events, i, serial) <==> HeardAt(fallback, events[..|events| - 1], i, serial)
    ensures TimedOutAt(fallback, events, i, serial) <==> TimedOutAt(fallback, events[..|events| - 1], i, serial)
  {
    assert events[..|events| - 1][..i] == events[..i];
  }

  lemma OthersUnnoticed(s: State, e: Event, serial: nat)
    requires Can(s, e) && !IsHeard(s, e, serial)
    ensures var n := Next(s, e).live;
      && (serial in n.heard <==> serial in s.live.heard)
      && (serial in n.heard ==> n.heard[serial] == s.live.heard[serial])
      && (serial in n.late <==> serial in s.live.late || IsTimeout(s, e, serial))
  {
  }

  lemma {:induction false} AlwaysRemembers(fallback: bool, events: seq<Event>, serial: nat) returns (i: nat)
    requires serial < After(fallback, events).hub.attached
    ensures i < |events| && Remembers(fallback, events, i, serial)
  {
    var last := |events| - 1;
    var init, e := events[..last], events[last];
    var s := After(fallback, init);
    if Can(s, e) && IsHeard(s, e, serial) {
      i := last;
      assert HeardAt(fallback, events, last, serial);
    } else {
      assert serial < s.hub.attached;
      i := AlwaysRemembers(fallback, init, serial);
      RemembersOn(fallback, events, i, serial);
    }
  }

  /** One more event that brings no frame of the provider. */
  lemma LastHeardOn(fallback: bool, events: seq<Event>, i: nat, serial: nat)
    requires events != [] && i < |events| - 1 && LastHeard(fallback, events[..|events| - 1], i, serial)
    requires !HeardAt(fallback, events, |events| - 1, serial)
    ensures LastHeard(fallback, events, i, serial)
  {
    forall j: nat | i <= j < |events| - 1
      ensures HeardAt(fallback, events, j, serial) <==> HeardAt(fallback, events[..|events| - 1], j, serial)
    {
      HeardAtPrefix(fallback, events, j, serial);
    }
  }

  /** A relay to the provider timed out after event i. */
  ghost predicate TimedOutAfter(fallback: bool, events: seq<Event>, i: nat, serial: nat) {
    exists j :: i < j < |events| && TimedOutAt(fallback, events, j, serial)
  }

  lemma TimedOutOn(fallback: bool, events: seq<Event>, i: nat, serial: nat)
    requires events != [] && i < |events| - 1
    ensures TimedOutAfter(fallback, events, i, serial) <==>
      || TimedOutAfter(fallback, events[..|events| - 1], i, serial)
      || TimedOutAt(fallback, events, |events| - 1, serial)
  {
    var init := events[..|events| - 1];
    if TimedOutAfter(fallback, init, i, serial) {
      var j :| i < j < |init| && TimedOutAt(fallback, init, j, serial);
      HeardAtPrefix(fallback, events, j, serial);
      assert TimedOutAt(fallback, events, j, serial);
    }
    if TimedOutAfter(fallback, events, i, serial) {
      var j :| i < j < |events| && TimedOutAt(fallback, events, j, serial);
      if j < |events| - 1 {
        HeardAtPrefix(fallback, events, j, serial);
        assert TimedOutAt(fallback, init, j, serial);
      }
    }
  }

  lemma RemembersOn(fallback: bool, events: seq<Event>, i: nat, serial: nat)
    requires events != [] && i < |events| - 1 && Remembers(fallback, events[..|events| - 1], i, serial)
    requires !HeardAt(fallback, events, |events| - 1, serial)
    ensures Remembers(fallback, events, i, serial)
  {
    var last := |events| - 1;
    var s, e := After(fallback, events[..last]), events[last];
    assert events[..last][..i] == events[..i];
    LastHeardOn(fallback, events, i, serial);
    TimedOutOn(fallback, events, i, serial);
    if Can(s, e) {
      OthersUnnoticed(s, e, serial);
    }
  }

  /**
   In every run: a provider is suspect exactly when, since its last frame, it was silent too long or
   a relay timed out.
   */
  lemma SuspectIff(fallback: bool, events: seq<Event>, serial: nat) returns (i: nat)
    requires serial < After(fallback, events).hub.attached
    ensures i < |events| && LastHeard(fallback, events, i, serial)
    ensures Suspect(After(fallback, events).live, serial) <==> StoppedSince(fallback, events, i, serial)
  {
    i := AlwaysRemembers(fallback, events, serial);
  }

  /** Event t was the turn of the k-th provider of the snapshot. */
  ghost predicate TurnAt(fallback: bool, events: seq<Event>, t: nat, k: nat) {
    && t < |events| && Can(After(fallback, events[..t]), events[t])
    && (events[t].Skips? || events[t].Tries?) && |After(fallback, events[..t]).past| == k
  }

  lemma TurnStays(fallback: bool, events: seq<Event>, t: nat, k: nat)
    requires events != [] && TurnAt(fallback, events[..|events| - 1], t, k)
    ensures TurnAt(fallback, events, t, k)
  {
    assert events[..|events| - 1][..t] == events[..t];
  }

  /** The k-th provider of the snapshot has been dealt with, or is being relayed to. */
  predicate Turned(s: State, k: nat) {
    k < |s.past| || (k == |s.past| && s.stage.Relaying?)
  }

  predicate SkippedAt(s: State, k: nat) {
    k < |s.past| && s.past[k].Skipped?
  }

  lemma {:induction false} ArrivedFresh(fallback: bool, events: seq<Event>)
    ensures After(fallback, events).stage.Arrived? ==> After(fallback, events).past == []
  {
    if events != [] { ArrivedFresh(fallback, events[..|events| - 1]); }
  }

  lemma TurnedBefore(s: State, e: Event, k: nat)
    requires Can(s, e) && (s.stage.Arrived? ==> s.past == []) && Turned(Next(s, e), k)
    requires !(k == |s.past| && (e.Skips? || e.Tries?))
    ensures Turned(s, k) && Next(s, e).snapshot == s.snapshot && (SkippedAt(Next(s, e), k) <==> SkippedAt(s, k))
  {
  }

  /**
   Every provider dealt with, or being relayed to, had a turn: skipped if it was suspect then, tried
   if it was not.
   */
  lemma {:induction false} HadATurn(fallback: bool, events: seq<Event>, k: nat) returns (t: nat)
    requires Turned(After(fallback, events), k)
    ensures TurnAt(fallback, events, t, k)
    ensures events[t].Skips? <==> SkippedAt(After(fallback, events), k)
    ensures After(fallback, events[..t]).snapshot == After(fallback, events).snapshot
  {
    var last := |events| - 1;
    var init, e := events[..last], events[last];
    var s := After(fallback, init);
    if Can(s, e) && k == |s.past| && (e.Skips? || e.Tries?) {
      t := last;
    } else {
      ArrivedFresh(fallback, init);
      if Can(s, e) {
        TurnedBefore(s, e, k);
      }
      t := HadATurn(fallback, init, k);
      TurnStays(fallback, events, t, k);
      assert init[..t] == events[..t];
    }
  }

  // ---- What every connection gets ----

  /** The provider at place k of the snapshot served the connection. */
  predicate ServedAt(s: State, k: nat) {
    k < |s.past| && s.past[k].Tried? && Served(s.past[k].link)
  }

  /**
   In every run, with providers attaching and leaving meanwhile: a connection
   that ended with a provider was served by the first of the snapshot whose
   relay served, everyone before it was skipped or was sent none of its bytes;
   and it went to the daemon's own agent, or was closed for want of one,
   exactly when none of the whole snapshot served.
   */
  lemma FirstThatServes(fallback: bool, events: seq<Event>)
    requires After(fallback, events).stage.Done?
    ensures var s, route := After(fallback, events), After(fallback, events).stage.route;
      && InOrder(s.snapshot, s.before) && |s.past| <= |s.snapshot|
      && (forall i :: 0 <= i < |s.past| ==> s.past[i].provider == s.snapshot[i])
      && (forall k: nat :: ServedAt(s, k) <==> route.Via? && k == |s.past| - 1)
      && (forall i :: 0 <= i < |s.past| && !ServedAt(s, i) ==> Passed(s.past[i]))
      && (route.Via? ==> s.past != [] && route.provider == s.snapshot[|s.past| - 1])
      && (!route.Via? ==> |s.past| == |s.snapshot| && (route.OwnAgent? <==> fallback))
  {
    AlwaysValid(fallback, events);
    ServedLast(After(fallback, events));
  }

  lemma ServedLast(s: State)
    requires StageOk(s) && s.stage.Done?
    ensures forall k: nat :: ServedAt(s, k) <==> s.stage.route.Via? && k == |s.past| - 1
    ensures forall i :: 0 <= i < |s.past| && !ServedAt(s, i) ==> Passed(s.past[i])
  {
    if s.stage.route.Via? {
      var before := s.past[..|s.past| - 1];
      assert forall i :: 0 <= i < |before| ==> before[i] == s.past[i];
    }
  }

  /**
   And everyone who had a turn was skipped exactly when, at its turn t and since
   its last frame i, it had been silent for more than two ping intervals or a
   relay to it had timed out.
   */
  lemma SkippedIff(fallback: bool, events: seq<Event>, k: nat) returns (t: nat, i: nat)
    requires k < |After(fallback, events).past|
    ensures t < |events| && i < t
    ensures var s, so := After(fallback, events), events[..t];
      && TurnAt(fallback, events, t, k) && k < |s.snapshot| && s.past[k].provider == s.snapshot[k]
      && LastHeard(fallback, so, i, s.snapshot[k].serial)
      && (s.past[k].Skipped? <==> StoppedSince(fallback, so, i, s.snapshot[k].serial))
  {
    t := HadATurn(fallback, events, k);
    AlwaysValid(fallback, events);
    AlwaysValid(fallback, events[..t]);
    var s := After(fallback, events[..t]);
    assert s.snapshot[k].serial < s.before;
    i := SuspectIff(fallback, events[..t], s.snapshot[k].serial);
  }

  /**
   So the daemon's own agent is reached only when each provider of the snapshot
   had stopped answering at its turn, or was asked then and did not serve.
   */
  lemma OwnAgentLast(fallback: bool, events: seq<Event>, k: nat) returns (t: nat, i: nat)
    requires After(fallback, events).stage == Done(OwnAgent) && k < |After(fallback, events).snapshot|
    ensures t < |events| && i < t
    ensures var s, so := After(fallback, events), events[..t];
      && TurnAt(fallback, events, t, k) && LastHeard(fallback, so, i, s.snapshot[k].serial) && k < |s.past|
      && if StoppedSince(fallback, so, i, s.snapshot[k].serial) then s.past[k] == Skipped(s.snapshot[k])
         else s.past[k].Tried? && s.past[k].provider == s.snapshot[k]
              && !Served(s.past[k].link) && Untouched(s.past[k].link)
  {
    FirstThatServes(fallback, events);
    assert !ServedAt(After(fallback, events), k);
    t, i := SkippedIff(fallback, events, k);
  }

  // ---- "The newest attached provider that can serve it" ----

  /** q had its turn. */
  predicate HadItsTurn(s: State, q: H.Provider) {
    exists i :: 0 <= i < |s.past| && s.past[i].provider == q
  }

  /**
   Every provider attached when the connection was taken had its turn before that, or comes after
   the one that took it.
   */
  ghost predicate NewestThatCan(s: State)
    requires s.stage.Done? && s.chosen.Some?
  {
    forall q :: q in s.chosen.value ==>
      HadItsTurn(s, q) || (s.stage.route.Via? && H.TriedBefore(s.stage.route.provider, q))
  }

  /**
   A connection goes to the newest attached provider that can serve it exactly
   when every provider that attached after the snapshot, and is still attached
   when the connection is taken, yields, and is taken by one that does not.
   */
  lemma NewestThatCanIff(fallback: bool, events: seq<Event>)
    requires After(fallback, events).stage.Done?
    ensures var s := After(fallback, events);
      s.chosen.Some? &&
      (NewestThatCan(s) <==>
        forall q :: q in s.chosen.value && q.serial >= s.before ==>
          q.yielding && s.stage.route.Via? && !s.stage.route.provider.yielding)
  {
    AlwaysValid(fallback, events);
    var s := After(fallback, events);
    forall q | q in s.chosen.value
      ensures q.serial >= s.before ==> !HadItsTurn(s, q)
      ensures q.serial >= s.before && s.stage.route.Via? ==>
        (H.TriedBefore(s.stage.route.provider, q) <==> q.yielding && !s.stage.route.provider.yielding)
      ensures q.serial < s.before ==>
        HadItsTurn(s, q) || (s.stage.route.Via? && H.TriedBefore(s.stage.route.provider, q))
    {
      assert s.stage.route.Via? ==> s.stage.route.provider == s.snapshot[|s.past| - 1];
      if q.serial < s.before {
        OldOneHadItsTurn(s, q);
      }
    }
  }

  lemma OldOneHadItsTurn(s: State, q: H.Provider)
    requires Valid(s) && s.stage.Done? && q in s.chosen.value && q.serial < s.before
    ensures HadItsTurn(s, q) || (s.stage.route.Via? && H.TriedBefore(s.stage.route.provider, q))
  {
    var i :| 0 <= i < |s.snapshot| && s.snapshot[i] == q;
    if i < |s.past| {
      assert s.past[i].provider == q;
    } else {
      assert H.TriedBefore(s.snapshot[|s.past| - 1], s.snapshot[i]);
    }
  }

  // ---- A provider that attaches meanwhile is not tried ----

  lemma Then(fallback: bool, events: seq<Event>, e: Event)
    requires Can(After(fallback, events), e)
    ensures After(fallback, events + [e]) == Next(After(fallback, events), e)
  {
    assert (events + [e])[..|events|] == events;
  }

  const FIRST := H.Provider(0, false)
  const SECOND := H.Provider(1, false)

  /** One provider has attached, and a connection has taken its snapshot of it. */
  ghost predicate One(s: State) {
    && s.hub.providers == [FIRST] && s.hub.attached == 1 && s.fallback
    && s.before == 1 && s.snapshot == [FIRST] && s.past == []
  }

  lemma OneAttached()
    ensures var s := After(true, [Attaches(false)]);
      && s.hub.providers == [FIRST] && s.hub.attached == 1
      && s == Start(true).(hub := s.hub, live := Liveness(0, map[0 := 0], {}))
  {
    Then(true, [], Attaches(false));
    assert [] + [Attaches(false)] == [Attaches(false)];
    assert Heard(Start(true).live, 0) == Liveness(0, map[0 := 0], {});
  }

  lemma OneSeen() returns (events: seq<Event>)
    ensures var s := After(true, events); One(s) && s.stage == Choosing && s.live == Liveness(0, map[0 := 0], {})
  {
    OneAttached();
    events := [Attaches(false)];
    Then(true, events, Snapshot);
    events := events + [Snapshot];
    assert Reversed([FIRST]) == [FIRST];
  }

  lemma OneTried() returns (events: seq<Event>)
    ensures One(After(true, events)) && After(true, events).stage == Relaying(L.START)
  {
    events := OneSeen();
    Then(true, events, Tries);
    events := events + [Tries];
  }

  lemma OneWaits() returns (events: seq<Event>)
    ensures var s := After(true, events); One(s) && s.stage.Relaying? && s.stage.link.server.stage.Opening?
  {
    events := OneTried();
    Then(true, events, Steps(L.Relays(L.Register)));
    events := events + [Steps(L.Relays(L.Register))];
    Then(true, events, Steps(L.Relays(L.QueueOpen)));
    events := events + [Steps(L.Relays(L.QueueOpen))];
  }

  /**
   A run in which a provider attaches while the connection waits for another
   one's answer, which does not come: the connection goes to the daemon's own
   agent although a provider is attached that was never asked.
   */
  lemma LatecomerIsNotAsked() returns (events: seq<Event>)
    ensures var s := After(true, events);
      && s.stage == Done(OwnAgent) && s.chosen == Some([FIRST, SECOND]) && s.hub.providers == [FIRST, SECOND]
      && !HadItsTurn(s, SECOND) && !NewestThatCan(s)
  {
    events := OneWaits();
    Then(true, events, Attaches(false));
    events := events + [Attaches(false)];
    assert After(true, events).hub.providers == [FIRST, SECOND];
    Then(true, events, Steps(L.Relays(L.AnswerTimesOut)));
    events := events + [Steps(L.Relays(L.AnswerTimesOut))];
    Then(true, events, Returns);
    events := events + [Returns];
    Then(true, events, FallsBack);
    events := events + [FallsBack];
    assert SECOND in After(true, events).chosen.value;
  }

  // ---- A provider that answers its pings may be skipped ----

  /**
   The contract skips providers that stopped answering pings. A run in which the
   provider is skipped although no time has passed since it attached: another
   connection's relay to it timed out, and nothing was heard of it since.
   */
  lemma LateReadyIsSkipped() returns (events: seq<Event>)
    ensures var s := After(true, events);
      && s.stage == Done(OwnAgent) && s.hub.providers == [FIRST] && s.past == [Skipped(FIRST)]
      && 0 in s.live.heard && s.live.clock == s.live.heard[0]
  {
    events := OneSeen();
    Then(true, events, TimesOut(0));
    events := events + [TimesOut(0)];
    assert Suspect(After(true, events).live, 0);
    Then(true, events, Skips);
    events := events + [Skips];
    Then(true, events, FallsBack);
    events := events + [FallsBack];
  }

  // ---- The loop ----

  /** What others do, and the steps of a relay: everything but the loop's own events. */
  predicate Meanwhile(e: Event) {
    !(e.Snapshot? || e.Skips? || e.Tries? || e.Returns? || e.FallsBack?)
  }

  /** They leave the loop where it is. */
  lemma MeanwhileStays(s: State, e: Event)
    requires Can(s, e) && Meanwhile(e)
    ensures var n := Next(s, e);
      && n.past == s.past && n.snapshot == s.snapshot && n.fallback == s.fallback
      && (n.stage.Choosing? <==> s.stage.Choosing?) && (n.stage.Relaying? <==> s.stage.Relaying?)
  {
  }

  /** What of a run is not the loop's own. */
  function Others(events: seq<Event>): seq<Event> {
    if events == [] then []
    else
      var last := |events| - 1;
      Others(events[..last]) + if Meanwhile(events[last]) then [events[last]] else []
  }

  lemma OthersNext(events: seq<Event>, e: Event)
    ensures Others(events + [e]) == Others(events) + if Meanwhile(e) then [e] else []
  {
    assert (events + [e])[..|events|] == events;
  }

  function Flat(world: seq<seq<Event>>): seq<Event> {
    if world == [] then [] else Flat(world[..|world| - 1]) + world[|world| - 1]
  }

  /** Every event of the loop's own from there on could happen when it did. */
  ghost predicate OwnHappened(fallback: bool, events: seq<Event>, from: nat) {
    forall t :: from <= t < |events| && !Meanwhile(events[t]) ==> Can(After(fallback, events[..t]), events[t])
  }

  lemma OwnHappenedNext(fallback: bool, events: seq<Event>, from: nat, e: Event)
    requires OwnHappened(fallback, events, from) && (Meanwhile(e) || Can(After(fallback, events), e))
    ensures OwnHappened(fallback, events + [e], from)
  {
    var more := events + [e];
    forall t | from <= t < |more| && !Meanwhile(more[t]) ensures Can(After(fallback, more[..t]), more[t]) {
      assert more[..t] == events[..t];
      assert t == |events| ==> events[..t] == events;
    }
  }

  /** The run goes on with an event, and the loop's part of it stays in order. */
  lemma Extended(fallback: bool, head: seq<Event>, rest: seq<Event>, from: nat, e: Event)
    requires OwnHappened(fallback, head + rest, from) && (Meanwhile(e) || Can(After(fallback, head + rest), e))
    ensures head + (rest + [e]) == (head + rest) + [e] && OwnHappened(fallback, head + (rest + [e]), from)
    ensures Others(rest + [e]) == Others(rest) + if Meanwhile(e) then [e] else []
    ensures var s := After(fallback, head + rest);
      After(fallback, head + (rest + [e])) == if Can(s, e) then Next(s, e) else s
  {
    assert head + (rest + [e]) == (head + rest) + [e];
    assert ((head + rest) + [e])[..|head + rest|] == head + rest;
    OwnHappenedNext(fallback, head + rest, from, e);
    OthersNext(rest, e);
  }

  /** What the loop does next, if it is its turn. */
  function Acts(s: State): Option<Event> {
    match s.stage
    case Choosing =>
      if !Pending(s) then Some(FallsBack)
      else if Suspect(s.live, s.snapshot[|s.past|].serial) then Some(Skips)
      else Some(Tries)
    case Relaying(l) => if Over(l) then Some(Returns) else None
    case _ => None
  }

  /** The loop has gone through head and rest, of which others are the world's part, and stands at s. */
  ghost predicate Looping(
    fallback: bool, s: State, head: seq<Event>, rest: seq<Event>, from: nat, others: seq<Event>)
  {
    && s == After(fallback, head + rest) && OwnHappened(fallback, head + rest, from)
    && Others(rest) == others && (s.stage.Relaying? ==> Pending(s))
  }

  lemma LoopsOn(
    fallback: bool, s: State, head: seq<Event>, rest: seq<Event>, from: nat, others: seq<Event>, e: Event)
    requires Looping(fallback, s, head, rest, from, others)
    requires if Meanwhile(e) then true else Can(s, e) && Acts(s) == Some(e)
    ensures Looping(fallback, if Can(s, e) then Next(s, e) else s, head, rest + [e], from,
                    others + if Meanwhile(e) then [e] else [])
  {
    Extended(fallback, head, rest, from, e);
    if Meanwhile(e) && Can(s, e) {
      MeanwhileStays(s, e);
    }
  }

  method Happens(
    ghost fallback: bool, s: State, ghost head: seq<Event>, held: seq<Event>, ghost from: nat,
    ghost others: seq<Event>, more: seq<Event>)
    returns (n: State, rest: seq<Event>)
    requires Looping(fallback, s, head, held, from, others) && forall i :: 0 <= i < |more| ==> Meanwhile(more[i])
    ensures Looping(fallback, n, head, rest, from, others + more)
  {
    n, rest := s, held;
    assert others + more[..0] == others;
    for i := 0 to |more|
      invariant Looping(fallback, n, head, rest, from, others + more[..i])
    {
      LoopsOn(fallback, n, head, rest, from, others + more[..i], more[i]);
      assert others + more[..i] + [more[i]] == others + more[..i + 1];
      if Can(n, more[i]) {
        n := Next(n, more[i]);
      }
      rest := rest + [more[i]];
    }
    assert more[..|more|] == more;
  }

  lemma ActsCan(s: State)
    requires Acts(s).Some? && (s.stage.Relaying? ==> Pending(s))
    ensures Can(s, Acts(s).value) && !Meanwhile(Acts(s).value)
  {
  }

  /**
   The loop, in a world of which a part happens before each of its own steps.
   It goes through a run that consists of the parts of the world, in order and
   complete, and of its own events, each one that could happen then; it ends
   where that run does, so the theorems above are about its result; and it has
   not ended only when the world has.
   */
  method ServeConn(ghost fallback: bool, start: State, ghost before: seq<Event>, world: seq<seq<Event>>)
    returns (route: Option<Route>, rest: seq<Event>, taken: nat)
    requires start == After(fallback, before) && start.stage.Arrived?
    requires forall k, i :: 0 <= k < |world| && 0 <= i < |world[k]| ==> Meanwhile(world[k][i])
    ensures var events := before + [Snapshot] + rest;
      && OwnHappened(fallback, events, |before|) && taken <= |world| && Others(rest) == Flat(world[..taken])
      && (route.Some? ==> After(fallback, events).stage == Done(route.value))
      && (route.None? ==> taken == |world| && !After(fallback, events).stage.Done?)
  {
    var s := Next(start, Snapshot);
    ghost var head := before + [Snapshot];
    Then(fallback, before, Snapshot);
    OwnHappenedNext(fallback, before, |before|, Snapshot);
    rest, taken := [], 0;
    assert head + rest == head;
    while taken < |world| && !s.stage.Done?
      invariant taken <= |world| && Looping(fallback, s, head, rest, |before|, Flat(world[..taken]))
    {
      s, rest := Happens(fallback, s, head, rest, |before|, Flat(world[..taken]), world[taken]);
      assert world[..taken + 1][..taken] == world[..taken];
      taken := taken + 1;
      var act := Acts(s);
      if act.Some? {
        ActsCan(s);
        LoopsOn(fallback, s, head, rest, |before|, Flat(world[..taken]), act.value);
        assert Flat(world[..taken]) + [] == Flat(world[..taken]);
        s, rest := Next(s, act.value), rest + [act.value];
      }
    }
    route := if s.stage.Done? then Some(s.stage.route) else None;
  }
}
