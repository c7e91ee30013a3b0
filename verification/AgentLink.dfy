/**
 One relayed ssh-agent connection: the server's relay goroutine and writer
 (internal/server/sshagent.go), the provider's serve goroutine
 (internal/agentfwd/agentfwd.go), and the frames of this connection that are
 queued or under way between them. Every interleaving of the two ends is a
 run of `Can` / `Next`; `AgentMux` shows that many connections sharing one
 stream are each such a run.

 Fields that only record what happened (sent, delivered, got, requests, asked,
 answers) are history: no step reads them.
 */
module AgentLink {
  import opened Bytes
  import opened AgentProto

  /** agentConnQueue and connQueue: frames waiting at either end of one connection. */
  const QUEUE: nat := 64

  /** agentReadChunk: what one read of the connection brings at most. */
  const READ_CHUNK: nat := 32 * 1024

  /** agentProviderQueue: frames waiting for the stream, of all its connections together. */
  const STREAM_QUEUE: nat := 64

  /** maxFrameBytes: a larger frame ends the connection. */
  const MAX_FRAME: nat := 1024 * 1024

  // ---- Frames ----

  datatype Down = Open | Request(data: bytes) | ServerClose

  datatype Up = Ready | Reply(data: bytes) | ProviderClose(error: bool)

  // ---- The server's end ----

  datatype Stage =
    | Idle
    | Registered            // the open is not queued yet
    | Opening               // waiting for the provider's answer
    | Relaying              // reading the connection
    | ReadDone              // its last request is sent; the writer runs on
    | Returned(served: bool)

  /**
   The writer goroutine: the connection closed under it, or how it ended (after the close with
   nothing left, on an error, with the stream).
   */
  datatype Writer = NotStarted | Running | HungUp | Drained | Broken | Cut

  /** What shut the connection first: rc.closed closes once. */
  datatype Cause = ProviderClosed | QueueFull | SendTimeout | GraceOver | StreamOver | RelayOver

  datatype Server = Server(
    stage: Stage,
    writer: Writer,
    registered: bool,       // in the provider's table of connections
    answer: Option<bool>,   // the provider's answer to the open: true for ready
    closed: Option<Cause>,  // rc.closed
    queue: seq<bytes>,      // rc.in
    sent: bytes,            // read from the connection and queued for the provider
    delivered: bytes)       // written to the connection

  // ---- The provider's end ----

  datatype Ending = Clean | Truncated | Oversized | AgentFailed | Aborted | NoAgent | NotNeeded | SessionOver

  datatype Phase = Absent | Dialing | Serving | Finished(ending: Ending)

  /** Whether more requests may come: peerDone closes with the server's close, and when the connection is aborted. */
  datatype Input = More | PeerDone | Abort

  datatype Provider = Provider(
    phase: Phase,
    input: Input,
    queue: seq<bytes>,      // lc.in
    buf: bytes,             // the MessageReader's buffer
    got: bytes,             // the bytes accepted into the queue
    requests: seq<bytes>,   // the requests answered
    asked: seq<bytes>,      // the requests the agent was sent
    answers: seq<bytes>)    // the answers sent

  const FRESH_SERVER := Server(Idle, NotStarted, false, None, None, [], [], [])

  const FRESH_PROVIDER := Provider(Absent, More, [], [], [], [], [], [])

  /** rc.shut: the first cause stays. */
  function Shut(s: Server, cause: Cause): Server {
    if s.closed.None? then s.(closed := Some(cause)) else s
  }

  // ---- What the relay and its writer may do by themselves ----

  datatype RelayEvent =
    | Register | QueueOpen | OpenTimesOut | OpenDropped | Accept | Refuse | AnswerTimesOut | Abandon
    | Read(data: bytes) | SendTimesOut | ReadEnds | GraceEnds | Return
    | Write | WriteFails | WriterDrains | WriterCut

  /** lost: the stream is over at the server (p.done). */
  predicate CanRelay(s: Server, e: RelayEvent, lost: bool) {
    match e
    case Register => s.stage.Idle? && !lost
    case QueueOpen => s.stage.Registered?
    case OpenTimesOut => s.stage.Registered?
    case OpenDropped => s.stage.Registered? && lost
    case Accept => s.stage.Opening? && s.answer == Some(true)
    case Refuse => s.stage.Opening? && s.answer == Some(false)
    case AnswerTimesOut => s.stage.Opening?
    case Abandon => s.stage.Opening? && lost
    case Read(data) => s.stage.Relaying? && 0 < |data| <= READ_CHUNK
    case SendTimesOut => s.stage.Relaying?
    case ReadEnds => s.stage.Relaying?
    case GraceEnds => s.stage.ReadDone? && s.writer.Running?
    case Return => s.stage.ReadDone? && !s.writer.Running? && !s.writer.HungUp?
    case Write => s.writer.Running? && s.queue != []
    case WriteFails => (s.writer.Running? && s.queue != []) || s.writer.HungUp?
    case WriterDrains => s.writer.Running? && s.closed.Some? && s.queue == []
    case WriterCut => s.writer.Running? && lost
  }

  function Relay(s: Server, e: RelayEvent, lost: bool): Server
    requires CanRelay(s, e, lost)
  {
    match e
    case Register => s.(stage := Registered, registered := true)
    case QueueOpen => s.(stage := Opening)
    case Accept => s.(stage := Relaying, writer := Running, answer := None)
    case OpenTimesOut => s.(stage := Returned(false), registered := false)
    case OpenDropped => s.(stage := Returned(false), registered := false)
    case Refuse => s.(stage := Returned(false), registered := false)
    case AnswerTimesOut => s.(stage := Returned(false), registered := false)
    case Abandon => s.(stage := Returned(false), registered := false)
    case Read(data) => s.(sent := s.sent + data)
    case SendTimesOut => Shut(s.(stage := ReadDone), SendTimeout)
    case ReadEnds => s.(stage := ReadDone)
    case GraceEnds => Shut(s.(writer := HungUp), GraceOver)
    case Return => Shut(s.(stage := Returned(true), registered := false), RelayOver)
    case Write => s.(delivered := s.delivered + s.queue[0], queue := s.queue[1..])
    case WriteFails => s.(writer := Broken, queue := if s.queue == [] then [] else s.queue[1..])
    case WriterDrains => s.(writer := Drained)
    case WriterCut => s.(writer := Cut)
  }

  /** The frames the event queues for the provider. */
  function Queued(e: RelayEvent): seq<Down> {
    match e
    case QueueOpen => [Open]
    case Read(data) => [Request(data)]
    case _ => []
  }

  /** The closes it leaves for the send loop: none when the provider ended the connection itself. */
  function QueuedCloses(s: Server, e: RelayEvent): nat {
    match e
    case AnswerTimesOut => 1
    case SendTimesOut => 1
    case ReadEnds => if s.closed.Some? then 0 else 1
    case _ => 0
  }

  // ---- What the provider's serve goroutine may do by itself ----

  datatype ServeEvent =
    | CannotServe | Unneeded | Dialed | TakeChunk | AnswerFailure | AgentReplies(reply: bytes) | AgentFails
    | ServeEnds | LeaveSession

  /** The request at the front of the reader's buffer. */
  function FrontRequest(p: Provider): bytes
    requires HeadOf(p.buf).Complete?
  {
    p.buf[..HeadOf(p.buf).length]
  }

  /** ended: the stream is over at the provider. */
  predicate CanServe(p: Provider, e: ServeEvent, ended: bool) {
    match e
    case CannotServe => p.phase.Dialing?
    case Unneeded => p.phase.Dialing? && !p.input.More?
    case Dialed => p.phase.Dialing?
    case TakeChunk => p.phase.Serving? && HeadOf(p.buf).Short? && p.queue != []
    case AnswerFailure => p.phase.Serving? && HeadOf(p.buf).Complete? && !RequestAllowed(FrontRequest(p))
    case AgentReplies(reply) =>
      p.phase.Serving? && HeadOf(p.buf).Complete? && RequestAllowed(FrontRequest(p)) && IsMessage(reply)
    case AgentFails => p.phase.Serving? && HeadOf(p.buf).Complete? && RequestAllowed(FrontRequest(p))
    case ServeEnds =>
      && p.phase.Serving?
      && (HeadOf(p.buf).TooLarge? || (HeadOf(p.buf).Short? && p.queue == [] && !p.input.More?))
    case LeaveSession => (p.phase.Dialing? || p.phase.Serving?) && ended
  }

  function Serve(p: Provider, e: ServeEvent, ended: bool): Provider
    requires CanServe(p, e, ended)
  {
    match e
    case CannotServe => p.(phase := Finished(NoAgent))
    case Unneeded => p.(phase := Finished(NotNeeded))
    case Dialed => p.(phase := Serving)
    case TakeChunk => p.(buf := p.buf + p.queue[0], queue := p.queue[1..])
    case AnswerFailure => Answer(p, FAILURE)
    case AgentReplies(reply) => Answer(p.(asked := p.asked + [FrontRequest(p)]), reply)
    case AgentFails => p.(phase := Finished(AgentFailed), asked := p.asked + [FrontRequest(p)])
    case ServeEnds => p.(phase := Finished(EndingOf(p)))
    case LeaveSession => p.(phase := Finished(SessionOver))
  }

  /** The frames the event sends to the server. */
  function Told(e: ServeEvent): seq<Up> {
    match e
    case CannotServe => [ProviderClose(true)]
    case Dialed => [Ready]
    case AnswerFailure => [Reply(FAILURE)]
    case AgentReplies(reply) => [Reply(reply)]
    case AgentFails => [ProviderClose(false)]
    case ServeEnds => [ProviderClose(false)]
    case _ => []
  }

  function Answer(p: Provider, reply: bytes): Provider
    requires HeadOf(p.buf).Complete?
  {
    p.(buf := p.buf[HeadOf(p.buf).length..], requests := p.requests + [FrontRequest(p)], answers := p.answers + [reply])
  }

  /** How Serve ended: at the requests' clean end, in the middle of one, at one over the limit, or cut short. */
  function EndingOf(p: Provider): Ending {
    if p.input.Abort? then Aborted
    else if HeadOf(p.buf).TooLarge? then Oversized
    else if p.buf == [] then Clean
    else Truncated
  }

  // ---- What each end does with a frame ----

  predicate Live(p: Provider) {
    p.phase.Dialing? || p.phase.Serving?
  }

  /** The provider's receive loop: open registers the connection, data is queued for it, close ends its requests. */
  function OnDown(p: Provider, m: Down, ended: bool): Provider {
    match m
    case Open => if p.phase.Absent? && !ended then p.(phase := Dialing) else p
    case Request(data) =>
      if !Live(p) || ended || data == [] then p
      else if |data| > MAX_FRAME || |p.queue| >= QUEUE then p.(input := Abort)
      else p.(queue := p.queue + [data], got := p.got + data)
    case ServerClose =>
      if Live(p) && !ended && p.input.More? then p.(input := PeerDone) else p
  }

  /** The server's deliver: an answer, a reply for the writer, or the provider's close. */
  function OnUp(s: Server, m: Up): Server {
    if !s.registered then s
    else match m
      case Ready => s.(answer := if s.answer.None? then Some(true) else s.answer)
      case Reply(data) =>
        if data == [] then s
        else if |s.queue| < QUEUE then s.(queue := s.queue + [data])
        else Shut(s.(registered := false), QueueFull)
      case ProviderClose(_) => Shut(s.(answer := if s.answer.None? then Some(false) else s.answer), ProviderClosed)
  }

  /** A connection dropped because its queue is full also queues a close. */
  function OnUpCloses(s: Server, m: Up): nat {
    if s.registered && m.Reply? && m.data != [] && |s.queue| >= QUEUE then 1 else 0
  }

  /** finish: the stream is over at the server. */
  function OnLost(s: Server): Server {
    if s.registered then Shut(s.(registered := false), StreamOver) else s
  }

  /** closeAll: the stream is over at the provider. */
  function OnEnded(p: Provider): Provider {
    if Live(p) then p.(input := Abort) else p
  }

  // ---- The connection with its frames under way ----

  /**
   out: queued for the stream (p.out); closes: how many closes wait in
   pendingClose; wire: sent and not yet received; up: towards the server,
   queued or sent.
   */
  datatype Link = Link(
    server: Server, provider: Provider,
    out: seq<Down>, closes: nat, wire: seq<Down>, up: seq<Up>,
    lost: bool, ended: bool)

  const START := Link(FRESH_SERVER, FRESH_PROVIDER, [], 0, [], [], false, false)

  datatype Step = Relays(relay: RelayEvent) | Serves(serve: ServeEvent) | Send | Flush | DeliverDown | DeliverUp
      | Lose | End | Stutter

  function Closes(n: nat): (cs: seq<Down>)
    ensures |cs| == n && forall m :: m in cs ==> m == ServerClose
  {
    seq(n, _ => ServerClose)
  }

  predicate Can(l: Link, st: Step) {
    match st
    case Relays(e) => CanRelay(l.server, e, l.lost)
    case Serves(e) => CanServe(l.provider, e, l.ended)
    case Send => l.out != []
    case DeliverDown => l.wire != []
    case DeliverUp => l.up != []
    case _ => true
  }

  /**
   Flush is the send loop's answer to closeNotify: take the closes, send
   everything already queued, then the closes.
   */
  function Next(l: Link, st: Step): Link
    requires Can(l, st)
  {
    match st
    case Relays(e) =>
      l.(server := Relay(l.server, e, l.lost), out := l.out + Queued(e), closes := l.closes + QueuedCloses(l.server, e))
    case Serves(e) =>
      l.(provider := Serve(l.provider, e, l.ended), up := l.up + Told(e))
    case Send => l.(out := l.out[1..], wire := l.wire + [l.out[0]])
    case Flush => l.(out := [], closes := 0, wire := l.wire + (l.out + Closes(l.closes)))
    case DeliverDown => l.(provider := OnDown(l.provider, l.wire[0], l.ended), wire := l.wire[1..])
    case DeliverUp =>
      l.(server := OnUp(l.server, l.up[0]), closes := l.closes + OnUpCloses(l.server, l.up[0]), up := l.up[1..])
    case Lose => l.(server := OnLost(l.server), lost := true)
    case End => l.(provider := OnEnded(l.provider), ended := true)
    case Stutter => l
  }

  /** The steps can be taken one after the other from l. */
  ghost predicate Runs(l: Link, steps: seq<Step>)
    decreases |steps|
  {
    steps == [] || (Can(l, steps[0]) && Runs(Next(l, steps[0]), steps[1..]))
  }

  ghost function After(l: Link, steps: seq<Step>): Link
    requires Runs(l, steps)
    decreases |steps|
  {
    if steps == [] then l else After(Next(l, steps[0]), steps[1..])
  }

  // ---- Bytes under way ----

  /** The request bytes in frames towards the provider. */
  function RequestBytes(ds: seq<Down>): bytes {
    if ds == [] then [] else (if ds[0].Request? then ds[0].data else []) + RequestBytes(ds[1..])
  }

  lemma {:induction false} RequestBytesSplit(a: seq<Down>, b: seq<Down>)
    ensures RequestBytes(a + b) == RequestBytes(a) + RequestBytes(b)
  {
    if a == [] {
      assert a + b == b;
    } else {
      assert (a + b)[1..] == a[1..] + b;
      RequestBytesSplit(a[1..], b);
    }
  }

  lemma {:induction false} NoRequestBytes(ds: seq<Down>)
    requires forall m :: m in ds ==> !m.Request?
    ensures RequestBytes(ds) == []
  {
    if ds != [] { NoRequestBytes(ds[1..]); }
  }

  /** The reply bytes in frames towards the server. */
  function ReplyBytes(us: seq<Up>): bytes {
    if us == [] then [] else (if us[0].Reply? then us[0].data else []) + ReplyBytes(us[1..])
  }

  lemma {:induction false} ReplyBytesSplit(a: seq<Up>, b: seq<Up>)
    ensures ReplyBytes(a + b) == ReplyBytes(a) + ReplyBytes(b)
  {
    if a == [] {
      assert a + b == b;
    } else {
      assert (a + b)[1..] == a[1..] + b;
      ReplyBytesSplit(a[1..], b);
    }
  }

  // ---- Invariants ----

  predicate Started(s: Server) {
    s.stage.Relaying? || s.stage.ReadDone? || s.stage == Returned(true)
  }

  /** Before the provider answers ready nothing is exchanged; when it does not, nothing ever is. */
  ghost predicate Opens(l: Link) {
    var s, p := l.server, l.provider;
    && (s.stage.Idle? || s.stage.Registered? ==> p.phase.Absent? && l.out == [] && l.wire == [] && l.closes == 0)
    && (s.stage.Idle? ==> s == FRESH_SERVER)
    && (p.phase.Absent? ==> p == FRESH_PROVIDER)
    && (p.phase.Absent? || p.phase.Dialing? ==>
          l.up == [] && p.answers == [] && s.queue == [] && s.answer.None? && s.closed != Some(ProviderClosed))
    && (s.writer.NotStarted? <==> !Started(s))
    && (!Started(s) ==> s.sent == [] && s.delivered == [] && p.got == [])
    && (!Started(s) ==> forall m :: m in l.wire + l.out ==> !m.Request?)
    && (Started(s) ==> p.phase.Serving? || p.phase.Finished?)
    && (s.stage == Returned(true) ==> !s.writer.Running? && !s.writer.HungUp?)
    && (Live(p) && l.ended ==> p.input.Abort?)
  }

  /** The events up to the provider's answer. */
  predicate ForTheOpen(e: RelayEvent) {
    || e.Register? || e.QueueOpen? || e.OpenTimesOut? || e.OpenDropped?
    || e.Accept? || e.Refuse? || e.AnswerTimesOut? || e.Abandon?
  }

  lemma OpensKeptByOpening(l: Link, e: RelayEvent)
    requires CanRelay(l.server, e, l.lost) && ForTheOpen(e) && Opens(l)
    ensures Opens(Next(l, Relays(e)))
  {
  }

  lemma OpensKeptByRelaying(l: Link, e: RelayEvent)
    requires CanRelay(l.server, e, l.lost) && !ForTheOpen(e) && Opens(l)
    ensures Opens(Next(l, Relays(e)))
  {
  }

  lemma OpensKeptByServe(l: Link, e: ServeEvent)
    requires CanServe(l.provider, e, l.ended) && Opens(l)
    ensures Opens(Next(l, Serves(e)))
  {
  }

  lemma OpensKeptByFrame(l: Link, st: Step)
    requires Can(l, st) && (st.DeliverDown? || st.DeliverUp?) && Opens(l)
    ensures Opens(Next(l, st))
  {
    if st.DeliverDown? {
      assert l.wire == [l.wire[0]] + l.wire[1..];
    }
  }

  lemma OpensKeptByStream(l: Link, st: Step)
    requires Can(l, st) && (st.Send? || st.Flush? || st.Lose? || st.End? || st.Stutter?) && Opens(l)
    ensures Opens(Next(l, st))
  {
    if st.Send? {
      assert l.wire + l.out == Next(l, st).wire + Next(l, st).out;
    }
  }

  /** The request bytes: what the provider accepted and what is under way is what was sent. */
  ghost predicate RequestsOk(l: Link) {
    var s, p := l.server, l.provider;
    && (!p.input.Abort? && !l.ended && !p.phase.Finished? ==> p.got + RequestBytes(l.wire + l.out) == s.sent)
    && (!p.input.Abort? ==> p.got <= s.sent)
  }

  lemma RequestsKeptByRelay(l: Link, e: RelayEvent)
    requires CanRelay(l.server, e, l.lost) && RequestsOk(l)
    ensures RequestsOk(Next(l, Relays(e)))
  {
    var added := if e.Read? then e.data else [];
    QueuedBytes(l.wire, l.out, e);
    assert Relay(l.server, e, l.lost).sent == l.server.sent + added;
    Regroup(l.provider.got, RequestBytes(l.wire + l.out), added, []);
  }

  lemma QueuedBytes(wire: seq<Down>, out: seq<Down>, e: RelayEvent)
    ensures RequestBytes(wire + (out + Queued(e))) == RequestBytes(wire + out) + (if e.Read? then e.data else [])
  {
    assert wire + (out + Queued(e)) == (wire + out) + Queued(e);
    RequestBytesSplit(wire + out, Queued(e));
    assert RequestBytes([]) == [];
    assert Queued(e) != [] ==> Queued(e)[1..] == [];
  }

  lemma RequestsKeptByServe(l: Link, e: ServeEvent)
    requires CanServe(l.provider, e, l.ended) && RequestsOk(l)
    ensures RequestsOk(Next(l, Serves(e)))
  {
  }

  lemma RequestsKeptBySending(l: Link, st: Step)
    requires Can(l, st) && (st.Send? || st.Flush?) && RequestsOk(l)
    ensures RequestsOk(Next(l, st))
  {
    var n := Next(l, st);
    if st.Send? {
      assert n.wire + n.out == l.wire + l.out;
    } else {
      assert n.wire + n.out == (l.wire + l.out) + Closes(l.closes);
      RequestBytesSplit(l.wire + l.out, Closes(l.closes));
      NoRequestBytes(Closes(l.closes));
    }
  }

  lemma RequestsKeptByFrame(l: Link)
    requires l.wire != [] && Opens(l) && RequestsOk(l)
    ensures RequestsOk(Next(l, DeliverDown))
  {
    var m, later := l.wire[0], l.wire[1..] + l.out;
    var data := if m.Request? then m.data else [];
    assert m in l.wire + l.out;
    assert l.wire + l.out == [m] + later;
    assert RequestBytes([m] + later) == data + RequestBytes(later);
    Regroup(l.provider.got, data, RequestBytes(later), []);
    var p := OnDown(l.provider, m, l.ended);
    assert p.input.Abort? || p.phase.Finished? || l.ended || p.got == l.provider.got + data;
  }

  lemma RequestsKeptByRest(l: Link, st: Step)
    requires Can(l, st) && (st.DeliverUp? || st.Lose? || st.End? || st.Stutter?) && RequestsOk(l)
    ensures RequestsOk(Next(l, st))
  {
  }

  /** The provider's parse: requests are the messages of what it accepted, each answered in its turn. */
  ghost predicate ParseOk(p: Provider) {
    && Concat(p.requests) + (p.buf + Concat(p.queue)) == p.got
    && (forall r :: r in p.requests ==> IsMessage(r))
    && |p.answers| == |p.requests|
    && (forall i :: 0 <= i < |p.requests| && !RequestAllowed(p.requests[i]) ==> p.answers[i] == FAILURE)
    && (p.phase != Finished(AgentFailed) ==> p.asked == Asked(true, p.requests))
    && (p.phase == Finished(AgentFailed) ==>
          Asked(true, p.requests) <= p.asked && forall r :: r in p.asked ==> RequestAllowed(r))
    && (p.phase == Finished(Clean) ==> p.buf == [] && p.queue == [])
    && (p.phase == Finished(Truncated) ==> HeadOf(p.buf).Short? && p.queue == [])
    && (p.phase == Finished(Oversized) ==> HeadOf(p.buf).TooLarge?)
    && (p.phase == Finished(Aborted) ==> p.input.Abort?)
    && (p.phase == Finished(Aborted) ==> HeadOf(p.buf).TooLarge? || (HeadOf(p.buf).Short? && p.queue == []))
    && (p.phase == Finished(AgentFailed) ==> HeadOf(p.buf).Complete?)
  }

  lemma AnswerMovesBytes(p: Provider)
    requires HeadOf(p.buf).Complete?
    ensures var r := FrontRequest(p);
      Concat(p.requests + [r]) + (p.buf[|r|..] + Concat(p.queue)) == Concat(p.requests) + (p.buf + Concat(p.queue))
  {
    var r := FrontRequest(p);
    var rest := p.buf[|r|..];
    ConcatSnoc(p.requests, r);
    assert p.buf == r + rest;
    Regroup(r, rest, Concat(p.queue), []);
    Regroup(Concat(p.requests), r, rest + Concat(p.queue), []);
  }

  lemma AnswerParses(p: Provider, reply: bytes)
    requires ParseOk(p) && p.phase.Serving? && HeadOf(p.buf).Complete?
    requires !RequestAllowed(FrontRequest(p)) ==> reply == FAILURE
    ensures var asked := if RequestAllowed(FrontRequest(p)) then p.asked + [FrontRequest(p)] else p.asked;
      ParseOk(Answer(p.(asked := asked), reply))
  {
    var r := FrontRequest(p);
    AnswerMovesBytes(p);
    FrontIsMessage(p.buf);
    AskedSplits(true, p.requests, [r]);
    assert Asked(true, [r]) == if RequestAllowed(r) then [r] else [] by { assert [r][1..] == []; }
  }

  lemma ParseKeptByServe(p: Provider, e: ServeEvent, ended: bool)
    requires CanServe(p, e, ended) && ParseOk(p)
    ensures ParseOk(Serve(p, e, ended))
  {
    match e
    case TakeChunk =>
      assert Concat(p.queue) == p.queue[0] + Concat(p.queue[1..]);
    case AnswerFailure =>
      AnswerParses(p, FAILURE);
    case AgentReplies(reply) =>
      AnswerParses(p, reply);
    case _ =>
  }

  lemma ParseKeptByFrame(p: Provider, m: Down, ended: bool)
    requires ParseOk(p)
    ensures ParseOk(OnDown(p, m, ended)) && ParseOk(OnEnded(p))
  {
    if m.Request? {
      ConcatSnoc(p.queue, m.data);
    }
  }

  /** The writer has not ended, so nothing it took is missing. */
  predicate Writing(s: Server) {
    s.writer.NotStarted? || s.writer.Running? || s.writer.HungUp?
  }

  /** The provider's close is the last frame it sends. */
  ghost predicate UpOk(l: Link) {
    && (forall i :: 0 <= i < |l.up| && l.up[i].ProviderClose? ==> i == |l.up| - 1 && l.provider.phase.Finished?)
    && (l.server.closed == Some(ProviderClosed) ==> l.provider.phase.Finished? && l.up == [])
  }

  lemma UpKept(l: Link, st: Step)
    requires Can(l, st) && UpOk(l)
    ensures UpOk(Next(l, st))
  {
    if st.DeliverUp? {
      assert l.up[0].ProviderClose? ==> l.up[1..] == [];
    }
  }

  /** The reply bytes: delivered, waiting and under way together are the answers sent. */
  ghost predicate RepliesOk(s: Server, up: seq<Up>, answered: bytes) {
    && (s.registered && Writing(s) ==> s.delivered + Concat(s.queue) + ReplyBytes(up) == answered)
    && (Writing(s) ==> s.delivered + Concat(s.queue) <= answered)
    && s.delivered <= answered
    && (s.closed == Some(ProviderClosed) && Writing(s) ==> s.delivered + Concat(s.queue) == answered)
    && (s.closed == Some(ProviderClosed) && s.writer.Drained? ==> s.delivered == answered)
    && (s.writer.Drained? ==> s.closed.Some?)
  }

  predicate Writes(e: RelayEvent) {
    e.Write? || e.WriteFails? || e.WriterDrains? || e.WriterCut?
  }

  lemma RepliesKeptByWriter(s: Server, up: seq<Up>, answered: bytes, e: RelayEvent, lost: bool)
    requires CanRelay(s, e, lost) && Writes(e) && RepliesOk(s, up, answered)
    ensures RepliesOk(Relay(s, e, lost), up, answered)
  {
    if s.queue != [] {
      assert Concat(s.queue) == s.queue[0] + Concat(s.queue[1..]);
      assert s.delivered + (s.queue[0] + Concat(s.queue[1..])) == (s.delivered + s.queue[0]) + Concat(s.queue[1..]);
    }
  }

  lemma RepliesKeptByRelay(s: Server, up: seq<Up>, answered: bytes, e: RelayEvent, lost: bool)
    requires CanRelay(s, e, lost) && !Writes(e) && RepliesOk(s, up, answered)
    requires s.writer.NotStarted? <==> !Started(s)
    requires s.stage.Idle? ==> s == FRESH_SERVER && up == [] && answered == []
    ensures RepliesOk(Relay(s, e, lost), up, answered)
  {
    var n := Relay(s, e, lost);
    assert n.queue == s.queue && n.delivered == s.delivered;
    assert Writing(n) == Writing(s) && (n.writer.Drained? <==> s.writer.Drained?);
    assert n.closed == Some(ProviderClosed) <==> s.closed == Some(ProviderClosed);
    assert n.registered ==> s.registered || e.Register?;
  }

  lemma RepliesKeptByAnswer(s: Server, up: seq<Up>, answers: seq<bytes>, reply: bytes)
    requires RepliesOk(s, up, Concat(answers)) && s.closed != Some(ProviderClosed)
    ensures RepliesOk(s, up + [Reply(reply)], Concat(answers + [reply]))
  {
    ReplyBytesSplit(up, [Reply(reply)]);
    assert ReplyBytes([Reply(reply)]) == reply by { assert [Reply(reply)][1..] == []; }
    ConcatSnoc(answers, reply);
    Regroup(s.delivered + Concat(s.queue), ReplyBytes(up), reply, []);
  }

  lemma RepliesKeptByServe(s: Server, up: seq<Up>, p: Provider, e: ServeEvent, ended: bool)
    requires CanServe(p, e, ended) && RepliesOk(s, up, Concat(p.answers))
    requires s.closed == Some(ProviderClosed) ==> p.phase.Finished?
    ensures RepliesOk(s, up + Told(e), Concat(Serve(p, e, ended).answers))
  {
    match e
    case AnswerFailure =>
      RepliesKeptByAnswer(s, up, p.answers, FAILURE);
    case AgentReplies(reply) =>
      RepliesKeptByAnswer(s, up, p.answers, reply);
    case _ =>
      ReplyBytesSplit(up, Told(e));
      assert ReplyBytes(Told(e)) == [];
  }

  lemma RepliesKeptByQueueing(s: Server, data: bytes, later: bytes, answered: bytes)
    requires Writing(s) && s.delivered + Concat(s.queue) + (data + later) == answered
    ensures s.delivered + Concat(s.queue + [data]) + later == answered
    ensures s.delivered + Concat(s.queue + [data]) <= answered
  {
    ConcatSnoc(s.queue, data);
    Regroup(s.delivered, Concat(s.queue), data, later);
  }

  lemma RepliesKeptByFrame(s: Server, up: seq<Up>, answered: bytes)
    requires up != [] && RepliesOk(s, up, answered) && s.closed != Some(ProviderClosed)
    requires up[0].ProviderClose? ==> up[1..] == []
    ensures RepliesOk(OnUp(s, up[0]), up[1..], answered)
  {
    var m, later := up[0], ReplyBytes(up[1..]);
    var n := OnUp(s, m);
    assert n.delivered == s.delivered && n.writer == s.writer;
    if m.Reply? {
      if s.registered && Writing(s) { RepliesKeptByQueueing(s, m.data, later, answered); }
    } else {
      assert ReplyBytes(up) == later;
    }
  }

  lemma RepliesKeptByLoss(s: Server, up: seq<Up>, answered: bytes)
    requires RepliesOk(s, up, answered)
    ensures RepliesOk(OnLost(s), up, answered)
  {
  }

  /** The relay has read the connection's last byte. */
  predicate DoneReading(s: Server) {
    s.stage.ReadDone? || s.stage.Returned?
  }

  /** No request follows a close. */
  ghost predicate CloseLast(ds: seq<Down>) {
    forall i, j :: 0 <= i < j < |ds| && ds[i].ServerClose? ==> !ds[j].Request?
  }

  /**
   The server's close never overtakes a request: unless the connection was
   dropped for a full queue, once a close is on its way nothing more is read,
   and once it has arrived no request is under way.
   */
  ghost predicate CloseOk(l: Link) {
    var s, p := l.server, l.provider;
    && (forall m :: m in l.out ==> !m.ServerClose?)
    && (s.closed == Some(SendTimeout) || s.closed == Some(GraceOver) || s.closed == Some(RelayOver) ==> DoneReading(s))
    && (s.closed == Some(QueueFull) || s.closed == Some(StreamOver) ==> !s.registered)
    && (s.closed != Some(QueueFull) ==>
          && CloseLast(l.wire + l.out)
          && (l.closes > 0 || ServerClose in l.wire || p.input.PeerDone? ==> DoneReading(s))
          && (p.input.PeerDone? ==> forall m :: m in l.wire + l.out ==> !m.Request?)
          && (p.phase == Finished(Clean) || p.phase == Finished(Truncated) ==> p.input.PeerDone? && p.got == s.sent))
  }

  lemma CloseKeptByRead(l: Link, data: bytes)
    requires CanRelay(l.server, Read(data), l.lost) && CloseOk(l)
    ensures CloseOk(Next(l, Relays(Read(data))))
  {
    var ds := l.wire + l.out;
    assert l.wire + (l.out + [Request(data)]) == ds + [Request(data)];
    assert l.server.closed != Some(QueueFull) ==> forall i :: 0 <= i < |ds| ==> !ds[i].ServerClose? by {
      forall i | 0 <= i < |ds| && l.server.closed != Some(QueueFull) ensures !ds[i].ServerClose? {
        assert ds[i] in l.wire || ds[i] in l.out;
      }
    }
  }

  lemma CloseKeptByOpening(l: Link, e: RelayEvent)
    requires CanRelay(l.server, e, l.lost) && ForTheOpen(e) && Opens(l) && CloseOk(l)
    ensures CloseOk(Next(l, Relays(e)))
  {
    assert l.wire + (l.out + Queued(e)) == (l.wire + l.out) + Queued(e);
  }

  lemma CloseKeptByRelay(l: Link, e: RelayEvent)
    requires CanRelay(l.server, e, l.lost) && !ForTheOpen(e) && !e.Read? && Opens(l) && CloseOk(l)
    ensures CloseOk(Next(l, Relays(e)))
  {
    assert l.out + Queued(e) == l.out;
  }

  lemma CloseKeptByServe(l: Link, e: ServeEvent)
    requires CanServe(l.provider, e, l.ended) && Opens(l) && RequestsOk(l) && CloseOk(l)
    ensures CloseOk(Next(l, Serves(e)))
  {
    if l.server.closed != Some(QueueFull) && l.provider.input.PeerDone? {
      NoRequestBytes(l.wire + l.out);
    }
  }

  lemma CloseKeptBySending(l: Link, st: Step)
    requires Can(l, st) && (st.Send? || st.Flush?) && CloseOk(l)
    ensures CloseOk(Next(l, st))
  {
    var n := Next(l, st);
    if st.Send? {
      assert n.wire + n.out == l.wire + l.out;
      assert l.out[0] in l.out;
    } else {
      assert n.wire + n.out == (l.wire + l.out) + Closes(l.closes);
    }
  }

  lemma CloseLastTail(m: Down, later: seq<Down>)
    requires CloseLast([m] + later)
    ensures CloseLast(later)
    ensures m.ServerClose? ==> forall x :: x in later ==> !x.Request?
  {
    var all := [m] + later;
    forall i, j | 0 <= i < j < |later| && later[i].ServerClose? ensures !later[j].Request? {
      assert all[i + 1] == later[i] && all[j + 1] == later[j];
    }
    forall j | 0 <= j < |later| && m.ServerClose? ensures !later[j].Request? {
      assert all[0] == m && all[j + 1] == later[j];
    }
  }

  lemma CloseKeptByDown(l: Link)
    requires l.wire != [] && CloseOk(l)
    ensures CloseOk(Next(l, DeliverDown))
  {
    var m, later := l.wire[0], l.wire[1..] + l.out;
    assert l.wire + l.out == [m] + later;
    assert m in l.wire && m in l.wire + l.out;
    if l.server.closed != Some(QueueFull) {
      CloseLastTail(m, later);
    }
  }

  lemma CloseKeptByUp(l: Link)
    requires l.up != [] && UpOk(l) && CloseOk(l)
    ensures CloseOk(Next(l, DeliverUp))
  {
    match l.server.closed
    case Some(QueueFull) =>
    case Some(SendTimeout) =>
    case Some(GraceOver) =>
    case Some(StreamOver) =>
    case Some(RelayOver) =>
    case _ =>
  }

  lemma CloseKeptByRest(l: Link, st: Step)
    requires Can(l, st) && (st.Lose? || st.End? || st.Stutter?) && CloseOk(l)
    ensures CloseOk(Next(l, st))
  {
  }

  ghost predicate Inv(l: Link) {
    && Opens(l) && RequestsOk(l) && ParseOk(l.provider) && UpOk(l)
    && RepliesOk(l.server, l.up, Concat(l.provider.answers)) && CloseOk(l)
  }

  lemma InvKept(l: Link, st: Step)
    requires Inv(l) && Can(l, st)
    ensures Inv(Next(l, st))
  {
    UpKept(l, st);
    match st
    case Relays(e) => InvKeptByRelay(l, e);
    case Serves(e) => InvKeptByServe(l, e);
    case DeliverDown => InvKeptByDown(l);
    case DeliverUp => InvKeptByUp(l);
    case Send => InvKeptBySending(l, st);
    case Flush => InvKeptBySending(l, st);
    case Lose => InvKeptByLoss(l);
    case End => InvKeptByEnd(l);
    case Stutter =>
  }

  lemma InvKeptByRelay(l: Link, e: RelayEvent)
    requires Inv(l) && CanRelay(l.server, e, l.lost) && UpOk(Next(l, Relays(e)))
    ensures Inv(Next(l, Relays(e)))
  {
    if ForTheOpen(e) {
      OpensKeptByOpening(l, e);
      CloseKeptByOpening(l, e);
    } else if e.Read? {
      OpensKeptByRelaying(l, e);
      CloseKeptByRead(l, e.data);
    } else {
      OpensKeptByRelaying(l, e);
      CloseKeptByRelay(l, e);
    }
    RequestsKeptByRelay(l, e);
    if Writes(e) {
      RepliesKeptByWriter(l.server, l.up, Concat(l.provider.answers), e, l.lost);
    } else {
      RepliesKeptByRelay(l.server, l.up, Concat(l.provider.answers), e, l.lost);
    }
  }

  lemma InvKeptByServe(l: Link, e: ServeEvent)
    requires Inv(l) && CanServe(l.provider, e, l.ended) && UpOk(Next(l, Serves(e)))
    ensures Inv(Next(l, Serves(e)))
  {
    OpensKeptByServe(l, e);
    RequestsKeptByServe(l, e);
    ParseKeptByServe(l.provider, e, l.ended);
    RepliesKeptByServe(l.server, l.up, l.provider, e, l.ended);
    CloseKeptByServe(l, e);
  }

  lemma FrameLeavesAnswers(p: Provider, f: Down, ended: bool)
    ensures OnDown(p, f, ended).answers == p.answers
  {
  }

  lemma InvKeptByDown(l: Link)
    requires Inv(l) && l.wire != [] && UpOk(Next(l, DeliverDown))
    ensures Inv(Next(l, DeliverDown))
  {
    OpensKeptByFrame(l, DeliverDown);
    RequestsKeptByFrame(l);
    ParseKeptByFrame(l.provider, l.wire[0], l.ended);
    CloseKeptByDown(l);
    FrameLeavesAnswers(l.provider, l.wire[0], l.ended);
  }

  lemma InvKeptByUp(l: Link)
    requires Inv(l) && l.up != [] && UpOk(Next(l, DeliverUp))
    ensures Inv(Next(l, DeliverUp))
  {
    OpensKeptByFrame(l, DeliverUp);
    RequestsKeptByRest(l, DeliverUp);
    RepliesKeptByFrame(l.server, l.up, Concat(l.provider.answers));
    CloseKeptByUp(l);
  }

  lemma InvKeptBySending(l: Link, st: Step)
    requires Inv(l) && Can(l, st) && UpOk(Next(l, st)) && (st.Send? || st.Flush?)
    ensures Inv(Next(l, st))
  {
    OpensKeptByStream(l, st);
    RequestsKeptBySending(l, st);
    CloseKeptBySending(l, st);
  }

  lemma InvKeptByLoss(l: Link)
    requires Inv(l) && UpOk(Next(l, Lose))
    ensures Inv(Next(l, Lose))
  {
    OpensKeptByStream(l, Lose);
    RequestsKeptByRest(l, Lose);
    CloseKeptByRest(l, Lose);
    RepliesKeptByLoss(l.server, l.up, Concat(l.provider.answers));
  }

  lemma InvKeptByEnd(l: Link)
    requires Inv(l) && UpOk(Next(l, End))
    ensures Inv(Next(l, End))
  {
    OpensKeptByStream(l, End);
    RequestsKeptByRest(l, End);
    CloseKeptByRest(l, End);
    ParseKeptByFrame(l.provider, Open, l.ended);
    assert OnEnded(l.provider).answers == l.provider.answers;
  }

  lemma InvAtStart()
    ensures Inv(START)
  {
  }

  // ---- What a run guarantees ----

  lemma {:induction false} InvAfter(l: Link, steps: seq<Step>)
    requires Inv(l) && Runs(l, steps)
    ensures Inv(After(l, steps))
    decreases |steps|
  {
    if steps != [] {
      InvKept(l, steps[0]);
      InvAfter(Next(l, steps[0]), steps[1..]);
    }
  }

  /**
   A provider that did not serve the connection (refused it, or never
   answered) was sent none of its bytes, and none of its replies were
   delivered: the next one starts from nothing.
   */
  lemma NotServed(steps: seq<Step>)
    requires Runs(START, steps) && After(START, steps).server.stage == Returned(false)
    ensures var l := After(START, steps);
      && l.server.sent == [] && l.server.delivered == [] && l.provider.got == []
      && forall m :: m in l.wire + l.out ==> !m.Request?
  {
    InvAtStart();
    InvAfter(START, steps);
  }

  /** The bytes delivered to the process are a prefix of the answers, whatever happens to the stream. */
  lemma RepliesInOrder(steps: seq<Step>)
    requires Runs(START, steps)
    ensures var l := After(START, steps); l.server.delivered <= Concat(l.provider.answers)
  {
    InvAtStart();
    InvAfter(START, steps);
  }

  /**
   The requests answered are the first messages of what was received, each answered once; the agent
   saw only allowed ones.
   */
  lemma AnswersMatchRequests(steps: seq<Step>)
    requires Runs(START, steps)
    ensures var p := After(START, steps).provider;
      && p.requests <= Messages(p.got)
      && |p.answers| == |p.requests|
      && (forall i :: 0 <= i < |p.requests| && !RequestAllowed(p.requests[i]) ==> p.answers[i] == FAILURE)
      && Asked(true, p.requests) <= p.asked
      && forall r :: r in p.asked ==> RequestAllowed(r)
  {
    InvAtStart();
    InvAfter(START, steps);
    ParsedMessages(After(START, steps).provider);
  }

  lemma ParsedMessages(p: Provider)
    requires ParseOk(p)
    ensures Messages(p.got) == p.requests + Messages(p.buf + Concat(p.queue))
    ensures Rest(p.got) == Rest(p.buf + Concat(p.queue))
  {
    MessagesRoundTrip(p.requests);
    ReadingOn(Concat(p.requests), p.buf + Concat(p.queue));
    assert [] + (p.buf + Concat(p.queue)) == p.buf + Concat(p.queue);
  }

  /** The serve loop ran to its end, and its close was sent. */
  predicate Served(p: Provider) {
    p.phase.Finished? && (p.phase.ending.Clean? || p.phase.ending.Truncated? || p.phase.ending.Oversized? ||
                          p.phase.ending.Aborted? || p.phase.ending.AgentFailed?)
  }

  /**
   With nothing complete left in the buffer there are no more messages, whatever follows it if it is
   over the limit.
   */
  lemma NoMoreMessages(buf: bytes, more: bytes)
    requires HeadOf(buf).TooLarge? || (HeadOf(buf).Short? && more == [])
    ensures Messages(buf + more) == []
  {
    if HeadOf(buf).TooLarge? {
      HeadStays(buf, more);
    } else {
      assert buf + more == buf;
    }
  }

  lemma AMessageLeft(buf: bytes, more: bytes)
    requires HeadOf(buf).Complete?
    ensures Messages(buf + more) != []
  {
    HeadStays(buf, more);
  }

  /**
   In every run: a provider that closed the connection after serving it has
   answered every request it received, exactly when the agent did not fail.
   */
  lemma AnswersAllReceivedIff(steps: seq<Step>)
    requires Runs(START, steps) && Served(After(START, steps).provider)
    ensures var p := After(START, steps).provider;
      p.requests == Messages(p.got) <==> p.phase != Finished(AgentFailed)
  {
    InvAtStart();
    InvAfter(START, steps);
    var p := After(START, steps).provider;
    ParsedMessages(p);
    if p.phase == Finished(AgentFailed) {
      AMessageLeft(p.buf, Concat(p.queue));
    } else {
      NoMoreMessages(p.buf, Concat(p.queue));
    }
  }

  lemma MessagesSent(l: Link)
    requires ParseOk(l.provider) && l.provider.got <= l.server.sent
    ensures var p, later := l.provider, l.server.sent[|l.provider.got|..];
      Messages(l.server.sent) == p.requests + Messages(p.buf + (Concat(p.queue) + later))
  {
    var p, later := l.provider, l.server.sent[|l.provider.got|..];
    var rest := p.buf + Concat(p.queue);
    assert l.server.sent == p.got + later;
    Regroup(Concat(p.requests), rest, later, []);
    Regroup(p.buf, Concat(p.queue), later, []);
    MessagesRoundTrip(p.requests);
    ReadingOn(Concat(p.requests), rest + later);
    assert [] + (rest + later) == rest + later;
  }

  /**
   A half-closed connection in every run: when the writer has drained after the
   provider's close, everything the provider answered has been delivered; and
   unless the connection was aborted those are the replies to all the requests
   the process sent exactly when the agent did not fail.
   */
  lemma HalfCloseGetsEveryReplyIff(steps: seq<Step>)
    requires Runs(START, steps)
    ensures var l := After(START, steps);
      l.server.writer.Drained? && l.server.closed == Some(ProviderClosed) ==>
        && l.server.delivered == Concat(l.provider.answers)
        && (Served(l.provider) && !l.provider.input.Abort? ==>
              (l.provider.requests == Messages(l.server.sent) <==> l.provider.phase != Finished(AgentFailed)))
  {
    InvAtStart();
    InvAfter(START, steps);
    AllSentIff(After(START, steps));
  }

  lemma AllSentIff(l: Link)
    requires Inv(l)
    ensures l.server.closed == Some(ProviderClosed) && Served(l.provider) && !l.provider.input.Abort? ==>
      (l.provider.requests == Messages(l.server.sent) <==> l.provider.phase != Finished(AgentFailed))
  {
    var p := l.provider;
    if l.server.closed == Some(ProviderClosed) && Served(p) && !p.input.Abort? {
      var more := Concat(p.queue) + l.server.sent[|p.got|..];
      MessagesSent(l);
      if p.phase == Finished(AgentFailed) {
        AMessageLeft(p.buf, more);
      } else {
        NoMoreMessages(p.buf, more);
      }
    }
  }

  // ---- Where the code falls short of its contract ----

  ghost predicate Reachable(l: Link) {
    exists steps :: Runs(START, steps) && After(START, steps) == l
  }

  /**
   A step a connection could take with the stream to itself: there is room for a frame, and a flush
   has a close to send.
   */
  predicate Alone(l: Link, st: Step) {
    && (st.Relays? && Queued(st.relay) != [] ==> |l.out| < STREAM_QUEUE)
    && (st.Flush? ==> l.closes > 0)
  }

  ghost predicate RunsAlone(l: Link, steps: seq<Step>)
    decreases |steps|
  {
    steps == [] || (Can(l, steps[0]) && Alone(l, steps[0]) && RunsAlone(Next(l, steps[0]), steps[1..]))
  }

  /** l is reached by a connection with the stream to itself. */
  ghost predicate Reached(l: Link) {
    exists steps :: RunsAlone(START, steps) && Runs(START, steps) && After(START, steps) == l
  }

  lemma {:induction false} RunsOn(l: Link, steps: seq<Step>, st: Step)
    requires RunsAlone(l, steps) && Runs(l, steps) && Can(After(l, steps), st) && Alone(After(l, steps), st)
    ensures RunsAlone(l, steps + [st]) && Runs(l, steps + [st]) && After(l, steps + [st]) == Next(After(l, steps), st)
    decreases |steps|
  {
    if steps == [] {
      assert Runs(Next(l, st), []) && RunsAlone(Next(l, st), []);
      assert (steps + [st])[1..] == [];
    } else {
      assert (steps + [st])[1..] == steps[1..] + [st];
      RunsOn(Next(l, steps[0]), steps[1..], st);
    }
  }

  lemma Reach(l: Link, st: Step) returns (n: Link)
    requires Reached(l) && Can(l, st) && Alone(l, st)
    ensures n == Next(l, st) && Reached(n)
  {
    var steps :| RunsAlone(START, steps) && Runs(START, steps) && After(START, steps) == l;
    RunsOn(START, steps, st);
    n := Next(l, st);
  }

  /** A connection accepted by the provider, with nothing exchanged yet. */
  ghost predicate Accepted(l: Link) {
    && l == Link(FRESH_SERVER.(stage := Relaying, writer := Running, registered := true),
          FRESH_PROVIDER.(phase := Serving), [], 0, [], [], false, false)
  }

  lemma ReachStart()
    ensures Reached(START)
  {
    assert Runs(START, []) && After(START, []) == START;
  }

  const REGISTERED := START.(server := FRESH_SERVER.(stage := Registered, registered := true))

  lemma ReachRegistered()
    ensures Reached(REGISTERED)
  {
    ReachStart();
    var l := Reach(START, Relays(Register));
    assert l.server == REGISTERED.server;
    assert l.out == [];
  }

  /** The open is queued. */
  const QUEUED := START.(server := FRESH_SERVER.(stage := Opening, registered := true), out := [Open])

  lemma ReachQueued()
    ensures Reached(QUEUED)
  {
    ReachRegistered();
    var l := Reach(REGISTERED, Relays(QueueOpen));
    assert l.server == QUEUED.server;
    assert l.out == [Open];
  }

  /** It has reached the provider. */
  const OPENED := QUEUED.(provider := FRESH_PROVIDER.(phase := Dialing), out := [])

  lemma ReachOpened()
    ensures Reached(OPENED)
  {
    ReachQueued();
    var l := Reach(QUEUED, Send);
    assert l.out == [] && l.wire == [Open];
    l := Reach(l, DeliverDown);
    assert l.wire == [];
  }

  lemma ReachAccepted() returns (l: Link)
    ensures Reached(l) && Accepted(l)
  {
    ReachOpened();
    l := Reach(OPENED, Serves(Dialed));
    assert l.up == [Ready];
    l := Reach(l, DeliverUp);
    assert l.up == [];
    l := Reach(l, Relays(Accept));
  }

  /** A request to list the keys. */
  const LIST: bytes := [0, 0, 0, 1, LIST_KEYS]

  /** The process has sent one request and half-closed; nothing has reached the provider yet. */
  const HALF_CLOSED := Link(
    Server(ReadDone, Running, true, None, None, [], LIST, []), FRESH_PROVIDER.(phase := Serving),
    [], 0, [Request(LIST), ServerClose], [], false, false)

  lemma ReachHalfClosed()
    ensures Reached(HALF_CLOSED)
  {
    var l := ReachAccepted();
    l := Reach(l, Relays(Read(LIST)));
    l := Reach(l, Relays(ReadEnds));
    l := Reach(l, Flush);
    assert l.wire == [] + ([Request(LIST)] + Closes(1)) == [Request(LIST), ServerClose];
    assert l == HALF_CLOSED;
  }

  /** The provider has answered it and closed; both frames are under way. */
  const ANSWERED := Link(
    Server(ReadDone, Running, true, None, None, [], LIST, []),
    Provider(Finished(Clean), PeerDone, [], [], LIST, [LIST], [LIST], [FAILURE]),
    [], 0, [], [Reply(FAILURE), ProviderClose(false)], false, false)

  lemma ListIsARequest()
    ensures HeadOf(LIST) == Complete(5) && LIST[..5] == LIST && LIST[5..] == [] && RequestAllowed(LIST)
      && IsMessage(FAILURE)
  {
  }

  /** Both frames have reached the provider. */
  const DELIVERED := HALF_CLOSED.(provider := Provider(Serving, PeerDone, [LIST], [], LIST, [], [], []), wire := [])

  lemma ReachDelivered()
    ensures Reached(DELIVERED)
  {
    ReachHalfClosed();
    var l := Reach(HALF_CLOSED, DeliverDown);
    assert l.wire == [ServerClose] && l.provider.queue == [LIST] && l.provider.got == LIST;
    l := Reach(l, DeliverDown);
    assert l.wire == [];
  }

  /** The serve loop has taken the request, and knows that it is the last. */
  const RECEIVED := HALF_CLOSED.(provider := Provider(Serving, PeerDone, [], LIST, LIST, [], [], []), wire := [])

  lemma ReachReceived()
    ensures Reached(RECEIVED)
  {
    ReachDelivered();
    var l := Reach(DELIVERED, Serves(TakeChunk));
    assert l.provider.queue == [] && l.provider.buf == LIST;
  }

  /** It has answered the request. */
  const REPLIED := RECEIVED.(
    provider := Provider(Serving, PeerDone, [], [], LIST, [LIST], [LIST], [FAILURE]), up := [Reply(FAILURE)])

  lemma ReachReplied()
    ensures Reached(REPLIED)
  {
    ReachReceived();
    ListIsARequest();
    var l := Reach(RECEIVED, Serves(AgentReplies(FAILURE)));
    assert l.provider == REPLIED.provider;
    assert l.up == [Reply(FAILURE)];
  }

  lemma ReachAnswered()
    ensures Reached(ANSWERED)
  {
    ReachReplied();
    var l := Reach(REPLIED, Serves(ServeEnds));
    assert l.up == [Reply(FAILURE), ProviderClose(false)];
    assert l.provider == ANSWERED.provider;
  }

  /**
   "The server delivers the replies already sent and closes it" can fail: the
   provider's reply and its close have both arrived when the stream ends, and
   the writer may take the end of the stream before it looks at the queue.
   */
  lemma StreamEndDropsAReply() returns (l: Link)
    ensures Reached(l)
    ensures l.server.closed == Some(ProviderClosed) && l.provider.phase == Finished(Clean)
    ensures l.server.writer.Cut? && l.server.delivered == [] && Concat(l.provider.answers) != []
  {
    ReachAnswered();
    l := Reach(ANSWERED, DeliverUp);
    l := Reach(l, DeliverUp);
    l := Reach(l, Lose);
    l := Reach(l, Relays(WriterCut));
    assert Concat([FAILURE]) == FAILURE + Concat([]);
  }

  /** The agent failed on the request, and the provider's close is under way. */
  const FAILED := RECEIVED.(provider := Provider(Finished(AgentFailed), PeerDone, [], LIST, LIST, [], [LIST], []),
      up := [ProviderClose(false)])

  lemma ReachFailed()
    ensures Reached(FAILED)
  {
    ReachReceived();
    ListIsARequest();
    var l := Reach(RECEIVED, Serves(AgentFails));
    assert l.up == [ProviderClose(false)] && l.provider.asked == [LIST];
  }

  /**
   "The provider still answers every request it received" can fail: the agent
   fails on a half-closed connection's request, the provider sends its close,
   and the process gets an ordinary end in place of the reply.
   */
  lemma AgentFailureDropsARequest() returns (l: Link)
    ensures Reached(l)
    ensures l.server.closed == Some(ProviderClosed) && l.server.writer.Drained? && l.provider.input.PeerDone?
    ensures l.provider.phase == Finished(AgentFailed) && l.provider.requests == [] && Messages(l.server.sent) == [LIST]
  {
    ReachFailed();
    l := Reach(FAILED, DeliverUp);
    l := Reach(l, Relays(WriterDrains));
    ListIsARequest();
    assert Messages(LIST) == [LIST[..5]] + Messages(LIST[5..]);
  }

  /** Ending the writer with the stream loses replies exactly when some are still queued. */
  lemma CutKeepsRepliesIff(l: Link)
    requires Reachable(l) && l.server.closed == Some(ProviderClosed) && l.server.writer.Running? && l.lost
    ensures Relay(l.server, WriterCut, l.lost).delivered == Concat(l.provider.answers) <==> Concat(l.server.queue) == []
  {
    ReachableInv(l);
    SumIsFirst(l.server.delivered, Concat(l.server.queue));
  }

  lemma ReachableInv(l: Link)
    requires Reachable(l)
    ensures Inv(l)
  {
    var steps :| Runs(START, steps) && After(START, steps) == l;
    InvAtStart();
    InvAfter(START, steps);
  }

  lemma SumIsFirst(a: bytes, b: bytes)
    ensures a == a + b <==> b == []
  {
    assert |a + b| == |a| + |b|;
  }

  /** n single bytes have filled the provider's queue of an accepted connection. */
  ghost predicate Filled(l: Link, n: nat) {
    && l == Link(
        FRESH_SERVER.(stage := Relaying, writer := Running, registered := true, sent := l.server.sent),
        FRESH_PROVIDER.(phase := Serving, queue := l.provider.queue, got := l.server.sent), [], 0, [], [], false, false)
    && |l.server.sent| == |l.provider.queue| == n
    && (n > 0 ==> l.provider.queue[0] == [0])
  }

  lemma {:induction false} ReachFilled(n: nat) returns (l: Link)
    requires n <= QUEUE
    ensures Reached(l) && Filled(l, n)
  {
    if n == 0 {
      l := ReachAccepted();
    } else {
      l := ReachFilled(n - 1);
      l := ReachOneByte(l, 0);
    }
  }

  /** One byte is read, sent and received. */
  lemma ReachOneByte(l: Link, b: byte) returns (n: Link)
    requires Reached(l) && l.server.stage.Relaying? && l.out == [] && l.wire == [] && l.closes == 0
    ensures Reached(n)
    ensures n == l.(server := l.server.(sent := l.server.sent + [b]),
      provider := OnDown(l.provider, Request([b]), l.ended))
  {
    n := Reach(l, Relays(Read([b])));
    n := Reach(n, Send);
    n := Reach(n, DeliverDown);
  }

  /**
   The bytes a provider receives can have a gap: a frame that finds the queue
   full is dropped and the connection aborted, but a later one that finds room
   again is accepted while the serve loop is still running.
   */
  lemma OverflowLeavesAGap() returns (l: Link)
    ensures Reached(l) && l.provider.phase.Serving?
    ensures |l.provider.got| < |l.server.sent| && !(l.provider.got <= l.server.sent)
  {
    var full := ReachFilled(QUEUE);
    var dropped := ReachOneByte(full, 1);
    var taken := Reach(dropped, Serves(TakeChunk));
    l := ReachOneByte(taken, 2);
    assert l.provider.got == full.server.sent + [2];
    assert l.server.sent == full.server.sent + [1] + [2];
    assert l.provider.got[QUEUE] == 2 && l.server.sent[QUEUE] == 1;
  }

  /** No byte goes missing at a frame exactly when it finds room: the guard of the branch that aborts. */
  lemma FrameKeptIff(l: Link)
    requires Reachable(l) && Live(l.provider) && !l.provider.input.Abort? && !l.ended
    requires l.wire != [] && l.wire[0].Request? && l.wire[0].data != []
    ensures var p := OnDown(l.provider, l.wire[0], l.ended);
      p.got + RequestBytes(l.wire[1..] + l.out) == l.server.sent <==>
          |l.provider.queue| < QUEUE && |l.wire[0].data| <= MAX_FRAME
  {
    ReachableInv(l);
    FrameAccounted(l);
    KeptIff(l.provider.got, l.wire[0].data, RequestBytes(l.wire[1..] + l.out));
  }

  lemma FrameAccounted(l: Link)
    requires RequestsOk(l) && Live(l.provider) && !l.provider.input.Abort? && !l.ended && l.wire != []
      && l.wire[0].Request?
    ensures l.server.sent == l.provider.got + (l.wire[0].data + RequestBytes(l.wire[1..] + l.out))
  {
    var later := l.wire[1..] + l.out;
    assert l.wire + l.out == [l.wire[0]] + later;
    BytesAhead(l.wire[0], later);
  }

  lemma BytesAhead(m: Down, later: seq<Down>)
    ensures RequestBytes([m] + later) == (if m.Request? then m.data else []) + RequestBytes(later)
  {
    assert ([m] + later)[1..] == later;
  }

  lemma KeptIff(got: bytes, data: bytes, later: bytes)
    requires data != []
    ensures (got + data) + later == got + (data + later) && got + later != got + (data + later)
  {
    assert |got + later| < |got + (data + later)|;
  }
}
