/**
 One provider's stream: many relayed connections multiplexed by conn_id over
 one queue, one wire in each direction and one list of pending closes
 (internal/server/sshagent.go, internal/agentfwd/agentfwd.go).

 The theorem is a refinement: whatever the other connections do, a run of the
 stream is, for each connection, a run of `AgentLink` on its own frames.
 */
module AgentMux {
  import opened Bytes
  import opened AgentProto
  import L = AgentLink
  import O = AgentOrder

  /** maxAgentConnsPerProvider. */
  const MAX_CONNS: nat := 256

  type Id = nat

  datatype Tagged<T> = Tagged(id: Id, msg: T)

  /** The frames of one connection, in order. */
  function Of<T>(q: seq<Tagged<T>>, id: Id): seq<T> {
    if q == [] then [] else (if q[0].id == id then [q[0].msg] else []) + Of(q[1..], id)
  }

  lemma {:induction false} OfSplits<T>(a: seq<Tagged<T>>, b: seq<Tagged<T>>, id: Id)
    ensures Of(a + b, id) == Of(a, id) + Of(b, id)
  {
    if a == [] {
      assert a + b == b;
    } else {
      var first := if a[0].id == id then [a[0].msg] else [];
      assert (a + b)[1..] == a[1..] + b;
      OfSplits(a[1..], b, id);
      assert first + (Of(a[1..], id) + Of(b, id)) == (first + Of(a[1..], id)) + Of(b, id);
    }
  }

  /** The same frames, all for one connection. */
  function Tag<T>(id: Id, ms: seq<T>): (q: seq<Tagged<T>>)
    ensures |q| == |ms| && forall i :: 0 <= i < |ms| ==> q[i] == Tagged(id, ms[i])
  {
    seq(|ms|, i requires 0 <= i < |ms| => Tagged(id, ms[i]))
  }

  lemma {:induction false} OfTag<T>(id: Id, ms: seq<T>, other: Id)
    ensures Of(Tag(id, ms), other) == if other == id then ms else []
  {
    if ms != [] {
      assert Tag(id, ms)[1..] == Tag(id, ms[1..]);
      OfTag(id, ms[1..], other);
    }
  }

  /** How many closes wait for a connection. */
  function Count(ids: seq<Id>, id: Id): nat {
    if ids == [] then 0 else (if ids[0] == id then 1 else 0) + Count(ids[1..], id)
  }

  lemma {:induction false} CountSplits(a: seq<Id>, b: seq<Id>, id: Id)
    ensures Count(a + b, id) == Count(a, id) + Count(b, id)
  {
    if a == [] {
      assert a + b == b;
    } else {
      assert (a + b)[1..] == a[1..] + b;
      CountSplits(a[1..], b, id);
    }
  }

  function Repeat(id: Id, n: nat): seq<Id> {
    if n == 0 then [] else [id] + Repeat(id, n - 1)
  }

  lemma {:induction false} CountRepeat(id: Id, n: nat, other: Id)
    ensures Count(Repeat(id, n), other) == if other == id then n else 0
  {
    if n > 0 {
      assert Repeat(id, n)[1..] == Repeat(id, n - 1);
      CountRepeat(id, n - 1, other);
    }
  }

  /** The close frames for a list of connections. */
  function CloseFrames(ids: seq<Id>): (q: seq<Tagged<L.Down>>) {
    if ids == [] then [] else [Tagged(ids[0], L.ServerClose)] + CloseFrames(ids[1..])
  }

  lemma {:induction false} OfCloseFrames(ids: seq<Id>, id: Id)
    ensures Of(CloseFrames(ids), id) == L.Closes(Count(ids, id))
  {
    if ids != [] {
      assert CloseFrames(ids)[1..] == CloseFrames(ids[1..]);
      OfCloseFrames(ids[1..], id);
      assert [L.ServerClose] + L.Closes(Count(ids[1..], id)) == L.Closes(1 + Count(ids[1..], id));
    }
  }

  // ---- The stream ----

  datatype Ends = Ends(server: L.Server, provider: L.Provider)

  const FRESH := Ends(L.FRESH_SERVER, L.FRESH_PROVIDER)

  datatype Mux = Mux(
    conns: map<Id, Ends>,
    out: seq<Tagged<L.Down>>, closes: seq<Id>, wire: seq<Tagged<L.Down>>, up: seq<Tagged<L.Up>>,
    lost: bool, ended: bool)

  const START := Mux(map[], [], [], [], [], false, false)

  function EndsOf(m: Mux, id: Id): Ends {
    if id in m.conns then m.conns[id] else FRESH
  }

  /** The connection as it would be on a stream of its own. */
  function View(m: Mux, id: Id): L.Link {
    var e := EndsOf(m, id);
    L.Link(e.server, e.provider, Of(m.out, id), Count(m.closes, id), Of(m.wire, id), Of(m.up, id), m.lost, m.ended)
  }

  datatype Step =
    | Relays(id: Id, relay: L.RelayEvent)
    | Serves(id: Id, serve: L.ServeEvent)
    | Send | Flush | DeliverDown | DeliverUp | Lose | End

  /** The connections the provider's table holds. */
  function Registered(m: Mux): set<Id> {
    set id | id in m.conns && m.conns[id].server.registered
  }

  predicate Can(m: Mux, st: Step) {
    match st
    case Relays(id, e) =>
      && L.CanRelay(EndsOf(m, id).server, e, m.lost)
      && (e.Register? ==> |Registered(m)| < MAX_CONNS)
      && (L.Queued(e) != [] ==> |m.out| < L.STREAM_QUEUE)
    case Serves(id, e) => L.CanServe(EndsOf(m, id).provider, e, m.ended)
    case Send => m.out != []
    case Flush => m.closes != []
    case DeliverDown => m.wire != []
    case DeliverUp => m.up != []
    case _ => true
  }

  function Next(m: Mux, st: Step): Mux
    requires Can(m, st)
  {
    match st
    case Relays(id, e) =>
      var ends := EndsOf(m, id);
      m.(conns := m.conns[id := ends.(server := L.Relay(ends.server, e, m.lost))],
         out := m.out + Tag(id, L.Queued(e)), closes := m.closes + Repeat(id, L.QueuedCloses(ends.server, e)))
    case Serves(id, e) =>
      var ends := EndsOf(m, id);
      m.(conns := m.conns[id := ends.(provider := L.Serve(ends.provider, e, m.ended))], up := m.up + Tag(id, L.Told(e)))
    case Send => m.(out := m.out[1..], wire := m.wire + [m.out[0]])
    case Flush => m.(out := [], closes := [], wire := m.wire + (m.out + CloseFrames(m.closes)))
    case DeliverDown =>
      var Tagged(id, msg) := m.wire[0];
      var ends := EndsOf(m, id);
      m.(conns := m.conns[id := ends.(provider := L.OnDown(ends.provider, msg, m.ended))], wire := m.wire[1..])
    case DeliverUp =>
      var Tagged(id, msg) := m.up[0];
      var ends := EndsOf(m, id);
      m.(conns := m.conns[id := ends.(server := L.OnUp(ends.server, msg))],
         closes := m.closes + Repeat(id, L.OnUpCloses(ends.server, msg)), up := m.up[1..])
    case Lose =>
      m.(conns := map id | id in m.conns :: m.conns[id].(server := L.OnLost(m.conns[id].server)), lost := true)
    case End =>
      m.(conns := map id | id in m.conns :: m.conns[id].(provider := L.OnEnded(m.conns[id].provider)), ended := true)
  }

  /** The step as connection id sees it: others' steps are nothing to it. */
  function SeenBy(m: Mux, st: Step, id: Id): L.Step
    requires Can(m, st)
  {
    match st
    case Relays(j, e) => if j == id then L.Relays(e) else L.Stutter
    case Serves(j, e) => if j == id then L.Serves(e) else L.Stutter
    case Send => if m.out[0].id == id then L.Send else L.Stutter
    case Flush => L.Flush
    case DeliverDown => if m.wire[0].id == id then L.DeliverDown else L.Stutter
    case DeliverUp => if m.up[0].id == id then L.DeliverUp else L.Stutter
    case Lose => L.Lose
    case End => L.End
  }

  // ---- Each connection is a run of its own ----

  lemma RefinesRelay(m: Mux, j: Id, e: L.RelayEvent, id: Id)
    requires Can(m, Relays(j, e))
    ensures var ls := SeenBy(m, Relays(j, e), id);
      L.Can(View(m, id), ls) && View(Next(m, Relays(j, e)), id) == L.Next(View(m, id), ls)
  {
    OfSplits(m.out, Tag(j, L.Queued(e)), id);
    OfTag(j, L.Queued(e), id);
    CountSplits(m.closes, Repeat(j, L.QueuedCloses(EndsOf(m, j).server, e)), id);
    CountRepeat(j, L.QueuedCloses(EndsOf(m, j).server, e), id);
  }

  lemma RefinesServe(m: Mux, j: Id, e: L.ServeEvent, id: Id)
    requires Can(m, Serves(j, e))
    ensures var ls := SeenBy(m, Serves(j, e), id);
      L.Can(View(m, id), ls) && View(Next(m, Serves(j, e)), id) == L.Next(View(m, id), ls)
  {
    OfSplits(m.up, Tag(j, L.Told(e)), id);
    OfTag(j, L.Told(e), id);
  }

  lemma RefinesSending(m: Mux, st: Step, id: Id)
    requires Can(m, st) && (st.Send? || st.Flush?)
    ensures var ls := SeenBy(m, st, id);
      L.Can(View(m, id), ls) && View(Next(m, st), id) == L.Next(View(m, id), ls)
  {
    if st.Send? {
      OfSplits(m.wire, [m.out[0]], id);
      assert Of([m.out[0]], id) == if m.out[0].id == id then [m.out[0].msg] else [] by { assert [m.out[0]][1..] == []; }
    } else {
      OfSplits(m.wire, m.out + CloseFrames(m.closes), id);
      OfSplits(m.out, CloseFrames(m.closes), id);
      OfCloseFrames(m.closes, id);
    }
  }

  lemma RefinesDown(m: Mux, id: Id)
    requires m.wire != []
    ensures var ls := SeenBy(m, DeliverDown, id);
      L.Can(View(m, id), ls) && View(Next(m, DeliverDown), id) == L.Next(View(m, id), ls)
  {
    assert Of(m.wire, id) == (if m.wire[0].id == id then [m.wire[0].msg] else []) + Of(m.wire[1..], id);
  }

  lemma RefinesUp(m: Mux, id: Id)
    requires m.up != []
    ensures var ls := SeenBy(m, DeliverUp, id);
      L.Can(View(m, id), ls) && View(Next(m, DeliverUp), id) == L.Next(View(m, id), ls)
  {
    var j, n := m.up[0].id, L.OnUpCloses(EndsOf(m, m.up[0].id).server, m.up[0].msg);
    CountSplits(m.closes, Repeat(j, n), id);
    CountRepeat(j, n, id);
  }

  /** A step of the stream is, for every connection, a step of its own or none. */
  lemma Refines(m: Mux, st: Step, id: Id)
    requires Can(m, st)
    ensures L.Can(View(m, id), SeenBy(m, st, id))
    ensures View(Next(m, st), id) == L.Next(View(m, id), SeenBy(m, st, id))
  {
    match st
    case Relays(j, e) => RefinesRelay(m, j, e, id);
    case Serves(j, e) => RefinesServe(m, j, e, id);
    case Send => RefinesSending(m, st, id);
    case Flush => RefinesSending(m, st, id);
    case DeliverDown => RefinesDown(m, id);
    case DeliverUp => RefinesUp(m, id);
    case Lose =>
    case End =>
  }

  ghost predicate Runs(m: Mux, steps: seq<Step>)
    decreases |steps|
  {
    steps == [] || (Can(m, steps[0]) && Runs(Next(m, steps[0]), steps[1..]))
  }

  ghost function After(m: Mux, steps: seq<Step>): Mux
    requires Runs(m, steps)
    decreases |steps|
  {
    if steps == [] then m else After(Next(m, steps[0]), steps[1..])
  }

  /** A run as connection id sees it. */
  ghost function RunSeenBy(m: Mux, steps: seq<Step>, id: Id): seq<L.Step>
    requires Runs(m, steps)
    decreases |steps|
  {
    if steps == [] then [] else [SeenBy(m, steps[0], id)] + RunSeenBy(Next(m, steps[0]), steps[1..], id)
  }

  /** Every run of the stream is, for each connection, a run of that connection alone with the same outcome. */
  lemma {:induction false} RunRefines(m: Mux, steps: seq<Step>, id: Id)
    requires Runs(m, steps)
    ensures L.Runs(View(m, id), RunSeenBy(m, steps, id))
    ensures View(After(m, steps), id) == L.After(View(m, id), RunSeenBy(m, steps, id))
    decreases |steps|
  {
    if steps != [] {
      Refines(m, steps[0], id);
      RunRefines(Next(m, steps[0]), steps[1..], id);
      assert RunSeenBy(m, steps, id)[1..] == RunSeenBy(Next(m, steps[0]), steps[1..], id);
    }
  }

  // ---- What every connection of every run gets ----

  /**
   In every run and for every connection, whatever the other connections do:
   the bytes sent to the provider arrive in order with whole frames left out at
   most, and as a prefix unless the connection's own queue overflowed and a
   frame was taken after that; replies arrive as a prefix of the answers.
   */
  lemma InOrder(steps: seq<Step>, id: Id)
    requires Runs(START, steps)
    ensures var l, own := View(After(START, steps), id), RunSeenBy(START, steps, id);
      && View(START, id) == L.START && L.Runs(L.START, own)
      && l.server.sent == O.Brought(O.Fates(L.START, own)) + L.RequestBytes(l.wire + l.out)
      && l.provider.got == O.Taken(O.Fates(L.START, own))
      && (O.Gapless(O.Fates(L.START, own)) <==> !O.Refills(L.START, own))
      && (!O.Refills(L.START, own) ==> l.provider.got <= l.server.sent)
      && l.server.delivered <= Concat(l.provider.answers)
  {
    RunRefines(START, steps, id);
    var own := RunSeenBy(START, steps, id);
    O.WholeFramesInOrder(own);
    L.InvAtStart();
    O.GaplessIff(L.START, own);
    if !O.Refills(L.START, own) {
      O.RequestsInOrder(own);
    }
    L.RepliesInOrder(own);
  }

  /**
   ... and the requests answered are the first messages received, one answer each, the agent seeing
   only allowed ones.
   */
  lemma AnsweredInTurn(steps: seq<Step>, id: Id)
    requires Runs(START, steps)
    ensures var p := EndsOf(After(START, steps), id).provider;
      && p.requests <= Messages(p.got) && |p.answers| == |p.requests|
      && (forall i :: 0 <= i < |p.requests| && !RequestAllowed(p.requests[i]) ==> p.answers[i] == FAILURE)
      && (forall r :: r in p.asked ==> RequestAllowed(r))
      && (L.Served(p) ==> (p.requests == Messages(p.got) <==> p.phase != L.Finished(L.AgentFailed)))
  {
    RunRefines(START, steps, id);
    var own := RunSeenBy(START, steps, id);
    L.AnswersMatchRequests(own);
    if L.Served(EndsOf(After(START, steps), id).provider) {
      L.AnswersAllReceivedIff(own);
    }
  }

  /**
   In every run: a half-closed connection whose writer drained after the
   provider's close got every answer; those are the answers to everything it
   sent, unless it was aborted, exactly when the agent did not fail.
   */
  lemma EveryReplyDeliveredIff(steps: seq<Step>, id: Id)
    requires Runs(START, steps)
    ensures var ends := EndsOf(After(START, steps), id);
      ends.server.writer.Drained? && ends.server.closed == Some(L.ProviderClosed) ==>
        && ends.server.delivered == Concat(ends.provider.answers)
        && (L.Served(ends.provider) && !ends.provider.input.Abort? ==>
              (ends.provider.requests == Messages(ends.server.sent) <==>
                  ends.provider.phase != L.Finished(L.AgentFailed)))
  {
    RunRefines(START, steps, id);
    L.HalfCloseGetsEveryReplyIff(RunSeenBy(START, steps, id));
  }

  // ---- Nothing more is promised: every run of a connection alone is one of the stream ----

  /** Only connection id is on the stream. */
  ghost predicate Only(m: Mux, id: Id) {
    && (forall j :: j in m.conns ==> j == id)
    && (forall i :: 0 <= i < |m.out| ==> m.out[i].id == id) && (forall i :: 0 <= i < |m.wire| ==> m.wire[i].id == id)
    && (forall i :: 0 <= i < |m.up| ==> m.up[i].id == id) && (forall i :: 0 <= i < |m.closes| ==> m.closes[i] == id)
  }

  lemma {:induction false} OfOnly<T>(q: seq<Tagged<T>>, id: Id)
    requires forall i :: 0 <= i < |q| ==> q[i].id == id
    ensures |Of(q, id)| == |q|
  {
    if q != [] { OfOnly(q[1..], id); }
  }

  lemma {:induction false} CountOnly(ids: seq<Id>, id: Id)
    requires forall i :: 0 <= i < |ids| ==> ids[i] == id
    ensures Count(ids, id) == |ids|
  {
    if ids != [] { CountOnly(ids[1..], id); }
  }

  lemma {:induction false} RepeatIs(id: Id, n: nat)
    ensures forall i :: 0 <= i < |Repeat(id, n)| ==> Repeat(id, n)[i] == id
  {
    if n > 0 { RepeatIs(id, n - 1); }
  }

  lemma {:induction false} CloseFramesAre(ids: seq<Id>, id: Id)
    requires forall i :: 0 <= i < |ids| ==> ids[i] == id
    ensures forall i :: 0 <= i < |CloseFrames(ids)| ==> CloseFrames(ids)[i].id == id
  {
    if ids != [] { CloseFramesAre(ids[1..], id); }
  }

  /** The stream's step for a connection's own. */
  function Own(st: L.Step, id: Id): Step
    requires !st.Stutter?
  {
    match st
    case Relays(e) => Relays(id, e)
    case Serves(e) => Serves(id, e)
    case Send => Send
    case Flush => Flush
    case DeliverDown => DeliverDown
    case DeliverUp => DeliverUp
    case Lose => Lose
    case End => End
  }

  lemma OwnCan(m: Mux, st: L.Step, id: Id)
    requires Only(m, id) && !st.Stutter? && L.Can(View(m, id), st) && L.Alone(View(m, id), st)
    ensures Can(m, Own(st, id)) && SeenBy(m, Own(st, id), id) == st
  {
    OfOnly(m.out, id);
    OfOnly(m.wire, id);
    OfOnly(m.up, id);
    CountOnly(m.closes, id);
    assert Registered(m) <= {id};
    assert |Registered(m)| <= |{id}| by { Smaller(Registered(m), {id}); }
  }

  lemma Smaller(a: set<Id>, b: set<Id>)
    requires a <= b
    ensures |a| <= |b|
  {
    assert b == a + (b - a);
  }

  lemma EventStaysOnly(m: Mux, st: L.Step, id: Id)
    requires Only(m, id) && (st.Relays? || st.Serves?) && Can(m, Own(st, id))
    ensures Only(Next(m, Own(st, id)), id)
  {
    if st.Relays? {
      RepeatIs(id, L.QueuedCloses(EndsOf(m, id).server, st.relay));
    }
  }

  lemma OwnStaysOnly(m: Mux, st: L.Step, id: Id)
    requires Only(m, id) && !st.Stutter? && Can(m, Own(st, id))
    ensures Only(Next(m, Own(st, id)), id)
  {
    match st
    case Relays(_) => EventStaysOnly(m, st, id);
    case Serves(_) => EventStaysOnly(m, st, id);
    case Flush => CloseFramesAre(m.closes, id);
    case DeliverUp => RepeatIs(id, L.OnUpCloses(EndsOf(m, id).server, m.up[0].msg));
    case _ =>
  }

  lemma {:induction false} Embeds(m: Mux, steps: seq<L.Step>, id: Id) returns (ms: seq<Step>)
    requires Only(m, id) && L.RunsAlone(View(m, id), steps) && L.Runs(View(m, id), steps)
    ensures Runs(m, ms) && View(After(m, ms), id) == L.After(View(m, id), steps)
    decreases |steps|
  {
    if steps == [] {
      ms := [];
    } else if steps[0].Stutter? {
      ms := Embeds(m, steps[1..], id);
    } else {
      var own := Own(steps[0], id);
      OwnCan(m, steps[0], id);
      OwnStaysOnly(m, steps[0], id);
      Refines(m, own, id);
      var later := Embeds(Next(m, own), steps[1..], id);
      ms := [own] + later;
      assert ms[1..] == later;
    }
  }

  /** Whatever a connection alone can reach it reaches on a stream. */
  lemma ReachedOnStream(l: L.Link, id: Id) returns (steps: seq<Step>)
    requires L.Reached(l)
    ensures Runs(START, steps) && View(After(START, steps), id) == l
  {
    var own :| L.RunsAlone(L.START, own) && L.Runs(L.START, own) && L.After(L.START, own) == l;
    steps := Embeds(START, own, id);
  }

  /**
   So the shortfalls of a connection are the stream's: an agent's failure ends a half-closed
   connection with a request unanswered.
   */
  lemma UnansweredOnStream(id: Id) returns (steps: seq<Step>)
    ensures Runs(START, steps)
    ensures var ends := EndsOf(After(START, steps), id);
      && ends.server.writer.Drained? && ends.server.closed == Some(L.ProviderClosed) && !ends.provider.input.Abort?
      && ends.provider.requests == [] && Messages(ends.server.sent) == [L.LIST]
  {
    var l := L.AgentFailureDropsARequest();
    steps := ReachedOnStream(l, id);
  }

  /** ... and an overflow can leave a gap in the bytes. */
  lemma GapOnStream(id: Id) returns (steps: seq<Step>)
    ensures Runs(START, steps)
    ensures var ends := EndsOf(After(START, steps), id); !(ends.provider.got <= ends.server.sent)
  {
    var l := L.OverflowLeavesAGap();
    steps := ReachedOnStream(l, id);
  }
}
