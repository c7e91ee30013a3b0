/**
 The ssh-agent protocol plumbing of internal/agentproto/filter.go: messages
 reassembled from a stream that arrives in arbitrary chunks, the request
 allowlist, and the serve loop that answers one request at a time.
 */
module AgentProto {
  import opened Bytes

  /** Nothing legitimate is bigger. */
  const MAX_MESSAGE: nat := 256 * 1024

  /** A complete failure answer. */
  const FAILURE: bytes := [0, 0, 0, 1, 5]

  // ---- The specification: the messages of a whole stream ----

  /** What the start of a stream holds: a complete message of some length, one that is over the limit, or too little. */
  datatype Head = Short | TooLarge | Complete(length: nat)

  function HeadOf(s: bytes): (h: Head)
    ensures h.Complete? ==> 4 <= h.length <= |s| && h.length <= 4 + MAX_MESSAGE
  {
    if |s| < 4 then Short
    else if U32(s) > MAX_MESSAGE then TooLarge
    else if |s| < 4 + U32(s) then Short
    else Complete(4 + U32(s))
  }

  /** The complete messages s starts with, length prefixes included. */
  function Messages(s: bytes): seq<bytes> {
    match HeadOf(s)
    case Complete(n) => [s[..n]] + Messages(s[n..])
    case _ => []
  }

  /** What follows them. */
  function Rest(s: bytes): bytes {
    match HeadOf(s)
    case Complete(n) => Rest(s[n..])
    case _ => s
  }

  /** A message has its own length in front, so it is all of itself. */
  predicate IsMessage(m: bytes) {
    HeadOf(m) == Complete(|m|)
  }

  lemma HeadStays(s: bytes, more: bytes)
    requires !HeadOf(s).Short?
    ensures HeadOf(s + more) == HeadOf(s)
  {
  }

  lemma FrontIsMessage(s: bytes)
    requires HeadOf(s).Complete?
    ensures IsMessage(s[..HeadOf(s).length])
  {
    assert U32(s[..HeadOf(s).length]) == U32(s);
  }

  lemma FrontAhead(s: bytes)
    requires HeadOf(s).Complete?
    ensures var first, later := s[..HeadOf(s).length], s[HeadOf(s).length..];
      Messages(s) == [first] + Messages(later) && Concat(Messages(s)) == first + Concat(Messages(later))
        && first + later == s
  {
    var later := s[HeadOf(s).length..];
    assert Messages(s)[1..] == Messages(later);
  }

  /** Nothing of the stream is lost or invented. */
  lemma {:induction false} NothingLost(s: bytes)
    ensures Concat(Messages(s)) + Rest(s) == s
    ensures !HeadOf(Rest(s)).Complete?
    ensures forall m :: m in Messages(s) ==> IsMessage(m)
    decreases |s|
  {
    match HeadOf(s)
    case Complete(n) =>
      var first, later := s[..n], s[n..];
      FrontAhead(s);
      FrontIsMessage(s);
      NothingLost(later);
      Regroup(first, Concat(Messages(later)), Rest(later), []);
    case _ =>
  }

  /** Reading on from what is left over gives the messages of the whole stream. */
  lemma {:induction false} ReadingOn(s: bytes, more: bytes)
    ensures Messages(s + more) == Messages(s) + Messages(Rest(s) + more)
    ensures Rest(s + more) == Rest(Rest(s) + more)
    decreases |s|
  {
    match HeadOf(s)
    case Complete(n) =>
      HeadStays(s, more);
      ReadingOn(s[n..], more);
      assert (s + more)[n..] == s[n..] + more;
      assert (s + more)[..n] == s[..n];
    case _ =>
  }

  /** Messages sent one after the other are read back as they were. */
  lemma {:induction false} MessagesRoundTrip(ms: seq<bytes>)
    requires forall m :: m in ms ==> IsMessage(m)
    ensures Messages(Concat(ms)) == ms && Rest(Concat(ms)) == []
  {
    if ms != [] {
      var m, s := ms[0], Concat(ms[1..]);
      assert m in ms && IsMessage(m);
      MessagesRoundTrip(ms[1..]);
      HeadStays(m, s);
      assert (m + s)[..|m|] == m && (m + s)[|m|..] == s;
    }
  }

  // ---- The allowlist ----

  const LIST_KEYS: byte := 11
  const SIGN: byte := 13
  const EXTENSION: byte := 27

  /** "session-bind@openssh.com" and "query". */
  const SESSION_BIND: bytes :=
      [115, 101, 115, 115, 105, 111, 110, 45, 98, 105, 110, 100, 64, 111, 112, 101, 110, 115, 115, 104, 46, 99, 111,
          109]
  const QUERY: bytes := [113, 117, 101, 114, 121]

  /** Whether a complete request may reach the agent: listing keys, signing, and two named extensions. */
  predicate RequestAllowed(msg: bytes) {
    |msg| >= 5 &&
    (msg[4] == LIST_KEYS || msg[4] == SIGN ||
     (msg[4] == EXTENSION &&
      var body := msg[5..];
      |body| >= 4 && U32(body) <= |body| - 4 &&
      body[4..4 + U32(body)] in {SESSION_BIND, QUERY}))
  }

  // ---- Reassembly from chunks ----

  /** Why a read gave no message. */
  datatype ReadError = EOF | UnexpectedEOF | MessageTooLarge

  datatype ReadResult = Message(msg: bytes) | Failed(error: ReadError)

  /** What the next read of a stream gives, seen whole. */
  function NextOf(s: bytes): ReadResult {
    match HeadOf(s)
    case Complete(n) => Message(s[..n])
    case TooLarge => Failed(MessageTooLarge)
    case Short => Failed(if s == [] then EOF else UnexpectedEOF)
  }

  class MessageReader {
    var buf: bytes
    /** What Next will still return, chunk by chunk. */
    var chunks: seq<bytes>

    constructor (chunks: seq<bytes>)
      ensures buf == [] && this.chunks == chunks
    {
      this.buf, this.chunks := [], chunks;
    }

    /** The stream that is still to be read. */
    ghost function Stream(): bytes
      reads this
    {
      buf + Concat(chunks)
    }

    /** The next message of the stream, whatever chunks it comes in. */
    method Read() returns (r: ReadResult)
      modifies this
      ensures r == NextOf(old(Stream()))
      ensures r.Message? ==> Stream() == old(Stream())[|r.msg|..]
      ensures r.Failed? ==> Stream() == old(Stream())
    {
      while true
        invariant Stream() == old(Stream())
        decreases |chunks|
      {
        if |buf| >= 4 {
          if !HeadOf(buf).Short? { HeadStays(buf, Concat(chunks)); }
          var n := U32(buf);
          if n > MAX_MESSAGE {
            return Failed(MessageTooLarge);
          }
          if |buf| >= 4 + n {
            r := Message(buf[..4 + n]);
            buf := buf[4 + n..];
            return;
          }
        }
        if chunks == [] {
          return Failed(if buf == [] then EOF else UnexpectedEOF);
        }
        buf, chunks := buf + chunks[0], chunks[1..];
      }
    }
  }

  // ---- The serve loop ----

  /** An agent's reply to a request: None when it does not answer with a message. */
  type Reply = Option<bytes>

  /** Whether a request is put to the agent: with the filter on, only an allowed one. */
  predicate Reaches(filter: bool, msg: bytes) {
    !filter || RequestAllowed(msg)
  }

  /**
   The answers to requests, in order, up to the first the agent fails: replies are the agent's, one
   per request it sees.
   */
  function Answers(filter: bool, requests: seq<bytes>, replies: seq<Reply>): seq<bytes> {
    if requests == [] then []
    else if !Reaches(filter, requests[0]) then [FAILURE] + Answers(filter, requests[1..], replies)
    else if replies == [] || replies[0].None? then []
    else [replies[0].value] + Answers(filter, requests[1..], replies[1..])
  }

  /** The requests that may reach the agent, in order. */
  function Asked(filter: bool, requests: seq<bytes>): (a: seq<bytes>)
    ensures forall m :: m in a ==> Reaches(filter, m)
  {
    if requests == [] then []
    else if Reaches(filter, requests[0]) then [requests[0]] + Asked(filter, requests[1..])
    else Asked(filter, requests[1..])
  }

  lemma {:induction false} AskedSplits(filter: bool, a: seq<bytes>, b: seq<bytes>)
    ensures Asked(filter, a + b) == Asked(filter, a) + Asked(filter, b)
  {
    if a == [] {
      assert a + b == b;
    } else {
      assert (a + b)[1..] == a[1..] + b;
      AskedSplits(filter, a[1..], b);
    }
  }

  /** The answers handed over when the callback takes that many and refuses the next. */
  function HandedOver(answers: seq<bytes>, takes: nat): seq<bytes> {
    if |answers| <= takes then answers else answers[..takes + 1]
  }

  /**
   What the loop has done to a stream s when it returns: handed over the answers
   to its messages, in order and up to the one refused; put to the agent what
   reaches it, at least of the requests answered; and returned without an error
   exactly when it was refused or everything was answered.
   */
  ghost predicate Outcome(s: bytes, replies: seq<Reply>, filter: bool, takes: nat, answers: seq<bytes>,
      asked: seq<bytes>, clean: bool) {
    && answers == HandedOver(Answers(filter, Messages(s), replies), takes) && |answers| <= |Messages(s)|
    && Asked(filter, Messages(s)[..|answers|]) <= asked <= Asked(filter, Messages(s))
    && (clean <==> |answers| > takes || (Rest(s) == [] && |answers| == |Messages(s)|))
  }

  /**
   The answers handed to the callback and the requests the agent was sent. The
   agent is its replies, in order; the callback takes a number of answers and
   refuses the one after, which ends the loop.
   */
  method Serve(requests: MessageReader, replies: seq<Reply>, filter: bool, takes: nat)
    returns (answers: seq<bytes>, asked: seq<bytes>, clean: bool)
    modifies requests
    ensures Outcome(old(requests.Stream()), replies, filter, takes, answers, asked, clean)
  {
    ghost var s := requests.Stream();
    ghost var done: seq<bytes> := [];
    answers, asked := [], [];
    var used := 0;
    while true
      invariant used <= |replies| && |answers| <= takes
      invariant Serving(filter, s, requests.Stream(), replies, used, done, answers, asked)
      decreases |requests.Stream()|
    {
      ghost var here := requests.Stream();
      var r := requests.Read();
      if r.Failed? {
        EndsUnrefused(filter, s, here, replies, used, done, answers, asked, takes);
        return answers, asked, r.error.EOF?;
      }
      if Reaches(filter, r.msg) {
        if used == |replies| || replies[used].None? {
          FailsAtAgent(filter, s, here, replies, used, done, answers, asked, takes);
          return answers, asked + [r.msg], false;
        }
        ServeNext(filter, s, here, replies, used, done, answers, asked, replies[used].value, used + 1, asked + [r.msg]);
        asked := asked + [r.msg];
        answers := answers + [replies[used].value];
        used := used + 1;
      } else {
        ServeNext(filter, s, here, replies, used, done, answers, asked, FAILURE, used, asked);
        answers := answers + [FAILURE];
      }
      done := done + [r.msg];
      if |answers| > takes {
        EndsRefused(filter, s, requests.Stream(), replies, used, done, answers, asked, takes);
        return answers, asked, true;
      }
    }
  }

  /** The answers so far are the first ones, to the first requests. */
  lemma ServedSoFar(filter: bool, s: bytes, here: bytes, replies: seq<Reply>, used: nat, done: seq<bytes>,
      answers: seq<bytes>, asked: seq<bytes>)
    requires used <= |replies| && Serving(filter, s, here, replies, used, done, answers, asked)
    ensures |answers| <= |Messages(s)| && done == Messages(s)[..|answers|]
    ensures answers <= Answers(filter, Messages(s), replies)
    ensures asked == Asked(filter, Messages(s)[..|answers|]) && asked <= Asked(filter, Messages(s))
  {
    AskedSplits(filter, done, Messages(here));
  }

  lemma EndsUnrefused(filter: bool, s: bytes, here: bytes, replies: seq<Reply>, used: nat, done: seq<bytes>,
      answers: seq<bytes>, asked: seq<bytes>, takes: nat)
    requires used <= |replies| && Serving(filter, s, here, replies, used, done, answers, asked) && |answers| <= takes
    requires !HeadOf(here).Complete?
    ensures Outcome(s, replies, filter, takes, answers, asked, here == [])
  {
    ServedSoFar(filter, s, here, replies, used, done, answers, asked);
  }

  lemma EndsRefused(filter: bool, s: bytes, here: bytes, replies: seq<Reply>, used: nat, done: seq<bytes>,
      answers: seq<bytes>, asked: seq<bytes>, takes: nat)
    requires used <= |replies| && Serving(filter, s, here, replies, used, done, answers, asked)
      && |answers| == takes + 1
    ensures Outcome(s, replies, filter, takes, answers, asked, true)
  {
    ServedSoFar(filter, s, here, replies, used, done, answers, asked);
  }

  lemma FailsAtAgent(filter: bool, s: bytes, here: bytes, replies: seq<Reply>, used: nat, done: seq<bytes>,
      answers: seq<bytes>, asked: seq<bytes>, takes: nat)
    requires used <= |replies| && Serving(filter, s, here, replies, used, done, answers, asked) && |answers| <= takes
    requires HeadOf(here).Complete? && Reaches(filter, here[..HeadOf(here).length])
    requires used == |replies| || replies[used].None?
    ensures Outcome(s, replies, filter, takes, answers, asked + [here[..HeadOf(here).length]], false)
  {
    ServedSoFar(filter, s, here, replies, used, done, answers, asked);
    ServeStops(filter, s, here, replies, used, done, answers, asked);
  }

  /** Of the stream s, the requests in done are answered and here is still to be read. */
  ghost predicate Serving(filter: bool, s: bytes, here: bytes, replies: seq<Reply>, used: nat, done: seq<bytes>,
      answers: seq<bytes>, asked: seq<bytes>)
    requires used <= |replies|
  {
    && Messages(s) == done + Messages(here) && Rest(s) == Rest(here)
    && Answers(filter, Messages(s), replies) == answers + Answers(filter, Messages(here), replies[used..])
    && asked == Asked(filter, done) && |answers| == |done|
  }

  lemma ServeNext(filter: bool, s: bytes, here: bytes, replies: seq<Reply>, used: nat, done: seq<bytes>,
      answers: seq<bytes>, asked: seq<bytes>,
                  answer: bytes, next: nat, seen: seq<bytes>)
    requires used <= |replies| && Serving(filter, s, here, replies, used, done, answers, asked)
    requires HeadOf(here).Complete?
    requires if Reaches(filter, here[..HeadOf(here).length])
             then used < |replies| && replies[used] == Some(answer) && next == used + 1
               && seen == asked + [here[..HeadOf(here).length]]
             else answer == FAILURE && next == used && seen == asked
    ensures var n := HeadOf(here).length;
      Serving(filter, s, here[n..], replies, next, done + [here[..n]], answers + [answer], seen)
  {
    var n := HeadOf(here).length;
    var msg, later := here[..n], Messages(here[n..]);
    assert Messages(here)[1..] == later;
    assert done + ([msg] + later) == (done + [msg]) + later;
    AskedSplits(filter, done, [msg]);
    assert Asked(filter, [msg][1..]) == [];
    var more := Answers(filter, later, replies[next..]);
    assert used < |replies| ==> replies[used..][1..] == replies[used + 1..];
    assert Answers(filter, Messages(here), replies[used..]) == [answer] + more;
    assert answers + ([answer] + more) == (answers + [answer]) + more;
  }

  lemma ServeStops(filter: bool, s: bytes, here: bytes, replies: seq<Reply>, used: nat, done: seq<bytes>,
      answers: seq<bytes>, asked: seq<bytes>)
    requires used <= |replies| && Serving(filter, s, here, replies, used, done, answers, asked)
    requires HeadOf(here).Complete? && Reaches(filter, here[..HeadOf(here).length])
    requires used == |replies| || replies[used].None?
    ensures Answers(filter, Messages(s), replies) == answers
    ensures asked + [here[..HeadOf(here).length]] <= Asked(filter, Messages(s))
    ensures |answers| < |Messages(s)|
  {
    AskedSplits(filter, done, Messages(here));
    assert Answers(filter, Messages(here), replies[used..]) == [];
  }

  /** A request that is not allowed is answered with a failure, in its turn, and with nothing else. */
  lemma {:induction false} AnswerRule(filter: bool, requests: seq<bytes>, replies: seq<Reply>, i: nat)
    requires i < |Answers(filter, requests, replies)|
    ensures |Answers(filter, requests, replies)| <= |requests|
    ensures var before := |Asked(filter, requests[..i])|;
      if Reaches(filter, requests[i])
      then before < |replies| && replies[before] == Some(Answers(filter, requests, replies)[i])
      else Answers(filter, requests, replies)[i] == FAILURE
    decreases |requests|
  {
    var rest := if Reaches(filter, requests[0]) then replies[1..] else replies;
    if i > 0 {
      AnswerRule(filter, requests[1..], rest, i - 1);
      assert requests[..i][1..] == requests[1..][..i - 1];
    } else {
      AnswersAtMost(filter, requests, replies);
    }
  }

  lemma {:induction false} AnswersAtMost(filter: bool, requests: seq<bytes>, replies: seq<Reply>)
    ensures |Answers(filter, requests, replies)| <= |requests|
    decreases |requests|
  {
    if requests != [] {
      AnswersAtMost(filter, requests[1..], replies);
      if replies != [] { AnswersAtMost(filter, requests[1..], replies[1..]); }
    }
  }
}
