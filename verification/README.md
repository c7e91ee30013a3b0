# A verified model of fleet's stream handling, relays and connection records

Fleet is a daemon that runs coding instances and lets clients lend it their
ssh-agent and their microphone, with a registry of Kubernetes connections and
an integration client that exercises its network forwards. This project models
the parts of it whose correctness depends on interleaving, chunking or order,
and proves what they promise over every input and every run.

Two kinds of source are modelled. *Executable code* is followed branch by
branch: the integration client (`integration/net/client.py`) and the fixture it
talks to (`integration/fixture-net/itest-net.pl`), the lookup and counting
helpers (`fleetgrpc/kube_methods.go`, `fleetgrpc/domain_methods.go`), and the
daemon and client code behind the wire contracts
(`internal/server/sshagent.go`, `internal/agentfwd/agentfwd.go`,
`internal/agentproto/filter.go`, `internal/server/mic.go`,
`internal/server/kube*.go`). *Contracts* are the comments on the wire messages
(`fleetgrpc/exec.pb.go`, `fleetgrpc/kube.pb.go`); they say what the theorems
about that code should be.

| file | what it models | source kind |
|---|---|---|
| `Bytes.dfy` | byte strings, occurrences, big-endian numbers | |
| `PtyWait.dfy` | waiting for a marker on a terminal with bounded windows | code |
| `Sockets.dfy` | reading heads, counted fields and whole streams from pieces | code |
| `WebSocket.dfy` | the WebSocket exchange inside a CONNECT tunnel | code, RFC 6455 |
| `Rate.dfy` | the length-prefixed upload and its counter | code |
| `Upload.dfy` | parallel uploads over shared result slots | code |
| `StatusCounts.dfy` | status counts | code |
| `AgentProto.dfy` | agent messages out of chunks, the allowlist, the serve loop | code |
| `AgentHub.dfy` | which provider serves an agent connection | code behind a contract |
| `AgentLink.dfy` | one relayed agent connection, both ends and the frames between | code behind a contract |
| `AgentOrder.dfy` | what becomes of every request frame of a connection | code behind a contract |
| `AgentFailover.dfy` | one connection tried with provider after provider while others come and go | code behind a contract |
| `AgentMux.dfy` | many connections on one stream, each a run of `AgentLink` | code behind a contract |
| `MicHub.dfy` | the microphone source and its demand | code behind a contract |
| `KubeLookup.dfy` | finding a Kubernetes connection, and the uniqueness check behind it | code |
| `FieldMask.dfy` | field masks over nested messages | code behind a contract |
| `KubeUpdate.dfy` | concurrent updates of a connection record | code behind a contract |

Protocols are step relations: a run is any sequence of enabled steps, an
invariant is proved kept by every step, and a theorem quantifies over all runs.
Objects that the source updates in place are classes whose methods are proved to
be those steps; loops are methods with invariants. Sockets return any non-empty
piece of what is there, clocks, randomness and the answers of code outside the
model are parameters, and Unicode's case tables are arbitrary functions.

## Where the code and its promise differ

Each of these has a lemma with a run or an input, built in the lemma, on which the
promise fails, and a lemma saying exactly when it holds.

- **Marker window.** A chunk longer than 65537 minus the marker's length can push
  the start of a marker out of the window before its end arrives
  (`WindowMisses`); with no longer chunk the window is exact (`WindowExact`).
- **WebSocket guard.** The guard counts characters, not bytes: it is enough for
  ASCII (`GuardEnoughForAscii`) and admits texts that cannot come back
  (`GuardAdmitsTooMuch`). With the fixture the command succeeds exactly up to 122
  bytes of UTF-8 (`CommandSucceedsIff`), and both frames keep section 5.2 of RFC
  6455 exactly up to 120 (`BothFramesValidIff`).
- **Uncaught upload errors.** A worker that dies of an error that is not an
  `OSError` leaves its slot at `None`, which reads as success (`RaisedPasses`,
  `SucceedsIff`).
- **Agent stream end.** The contract says the server delivers the replies already
  sent; its writer may see the end of the stream before the queued replies and
  drop them (`StreamEndDropsAReply`, `CutKeepsRepliesIff`).
- **Agent failure.** The contract says the provider still answers every request
  it received; when the agent fails, the provider sends an ordinary close with a
  request unanswered (`AgentFailureDropsARequest`), and only then
  (`AnswersAllReceivedIff`, `HalfCloseGetsEveryReplyIff`).
- **Agent queue overflow.** A frame that finds the provider's queue full is
  dropped and the connection aborted, but a later frame may still be taken,
  leaving a gap (`OverflowLeavesAGap`); frames are taken without a gap exactly
  when none is taken after an overflow (`GaplessIff`, `RequestsInOrder`).
- **Failover.** The contract says a connection goes to the newest attached
  provider that can serve it; the code goes through the providers attached when
  the connection came, so one that attaches while another keeps the connection
  waiting is not asked (`LatecomerIsNotAsked`, `NewestThatCanIff`).
- **Suspect providers.** The contract skips providers that stopped answering
  pings; the code also skips one to which a relay timed out, until it is heard
  again (`LateReadyIsSkipped`, `SuspectIff`).
- **Provider order.** The comment on the hub's provider list says attach order;
  the list keeps yielding providers in front (`YieldingGoesInFront`), so it is in
  attach order exactly when none of them came after one that does not yield
  (`AttachOrderIff`).
- **Selected microphone client.** Changing only the selected client, by a
  selection, a sync or an attachment, when neither the source nor its device nor
  the demand changes, is not pushed, so a provider's last demand can name a client
  no longer selected (`ClearedSelectionIsNotPushed`, `ClientIsPushedIff`).
- **Connection names.** The daemon keeps display names unique in lower case, the
  lookup compares them by case folding; "s" and U+017F are different to one and
  equal to the other (`SlippedThrough`, `CheckSufficesIff`), and the answer then
  depends on list order (`OrderMattersIff`).
- **Listed names.** The check accepts a connection named like another's id, and
  the listed name then finds that other one (`ListedNameMisleads`,
  `ShownResolvesIff`).
- **Revisions.** They protect an editor exactly as long as the record exists: ids
  are a slug of the context and a random suffix and only ids in use are excluded,
  so a removed connection's id can come back at the same revision
  (`RemovalUnprotects`, `EditorSawTheLatest`).

## Model

| member | source | states |
|---|---|---|
| `PtyWait.Wait` | integration/net/client.py:287-308 | for every stream and every chunking, the replies written are those of a scan of the whole stream, and it stops at the first window holding the marker and at nothing else |
| `PtyWait.TakeData` | integration/net/client.py:299-308 | one read moves both windows and keeps the outer loop's invariant |
| `PtyWait.AnswerQueries` | integration/net/client.py:300-308 | the inner loop terminates, answers what the new bytes complete and carries at most 8 bytes over |
| `PtyWait.FirstHit` | integration/net/client.py:302-306 | the hit taken is at the least index of any query in pending |
| `PtyWait.AnsweredOnce` | integration/net/client.py:302-308 | each query is answered exactly as often as it occurs in the stream |
| `PtyWait.HitSettles` | integration/net/client.py:303-308 | a hit completes no other query and leaves none unfinished before its end |
| `PtyWait.SettledStays` | integration/net/client.py:300-308 | what is settled in a stream stays so whatever arrives later |
| `PtyWait.CutBack` | integration/net/client.py:304 | dropping all but the last 8 bytes loses no query that later bytes could complete |
| `PtyWait.WindowSound` | integration/net/client.py:288-299 | whatever the chunk sizes, a marker in the window is a marker in the stream |
| `PtyWait.WindowExact` | integration/net/client.py:288-299 | with chunks of at most 65537 minus the marker's length, the loop has stopped by read n exactly when the marker has been shown by then |
| `PtyWait.WindowMisses` | integration/net/client.py:299 | for every marker and every larger chunk size up to the read limit there are reads of at most that size that show the marker and never stop the loop |
| `PtyWait.TerminalIsWellShaped` | integration/net/client.py:284-285 | the command's own table has what the scan needs: ESC only in front, no query a prefix of another |
| `Sockets.ReadHead` | integration/net/client.py:162-169 | takes exactly the shortest prefix with a blank line, or the whole stream, however it is cut up |
| `Sockets.HeadIsCut` | integration/net/client.py:162-169 | a complete head is cut at its end whatever follows it |
| `Sockets.RecvExact` | integration/net/client.py:172-179 | exactly n bytes, and a failure exactly when the stream is shorter |
| `Sockets.ReadToEof` | integration/net/client.py:61-67 | the whole stream |
| `Sockets.ReadTwoHeadsAndFrame` | integration/net/client.py:188-208 | two heads and a short frame are split at their boundaries for every chunking, taking no byte of the next part |
| `Sockets.SendSlices` | integration/net/client.py:127-131 | the slices put together are the data |
| `Sockets.ServeEcho` | integration/fixture-net/itest-net.pl:110-114 | what comes back is what came in, for every way of cutting reads and writes |
| `Sockets.Socket.SendAll` | integration/fixture-net/itest-net.pl:116-124 | partial writes add up to the data |
| `WebSocket.MaskUndone` | integration/net/client.py:205 | masking is its own inverse |
| `WebSocket.FrameParsesIff` | integration/net/client.py:203-206 | by section 5.2 of RFC 6455 the client's frame carries the payload exactly up to 125 bytes |
| `WebSocket.ReplyParsesIff` | integration/fixture-net/itest-net.pl:202-203 | the fixture's reply carries the echo exactly up to 120 bytes of payload |
| `WebSocket.BothFramesValidIff` | integration/net/client.py:203-206 | both frames are valid exactly up to 120 bytes |
| `WebSocket.EchoedIff` | integration/net/client.py:203-210 | client and fixture together succeed exactly up to 122 bytes of UTF-8, for every mask; only for a text with replacement characters is the upper bound open |
| `WebSocket.NeverEchoedBeyond` | integration/net/client.py:207-210 | whatever the server answers, no longer text without replacement characters can succeed |
| `WebSocket.GuardAdmitsTooMuch` | integration/net/client.py:182-211 | 41 to 100 euro signs pass the guard of the whole command, which then fails |
| `WebSocket.Ws` | integration/net/client.py:182-211 | the command's outcome as a function of the server's whole stream, and what it has sent in each case |
| `WebSocket.RecvEcho` | integration/net/client.py:207-210 | the reply's reading for every chunking |
| `WebSocket.CommandSucceedsIff` | integration/net/client.py:182-211 | with good heads the command succeeds exactly for texts of at most 100 characters whose UTF-8 form is at most 122 bytes |
| `WebSocket.GuardEnoughForAscii` | integration/net/client.py:183-184 | every ASCII text the guard admits comes back |
| `WebSocket.EncodeLength` | integration/net/client.py:203 | a text of n characters is n to 4n bytes of UTF-8, and exactly n for ASCII |
| `WebSocket.EncodeIsInjective` | integration/net/client.py:203 | no two texts have the same UTF-8 form |
| `WebSocket.StrictDecodes` | integration/net/client.py:208 | there is a decoder as the other results suppose it |
| `WebSocket.OpenTunnel` | integration/net/client.py:186-202 | the two heads are read and judged for every chunking, and nothing of the frames is taken |
| `Rate.RateUp` | integration/net/client.py:226-235 | what is sent is the encoding of the chunks and n is their total length |
| `Rate.ServeCount` | integration/fixture-net/itest-net.pl:84-96 | the count of the decoded frames, nothing past the zero frame taken, no reply exactly when the stream ends early |
| `Rate.ReadFrame` | integration/fixture-net/itest-net.pl:88-92 | one frame is read exactly, and nothing when the stream ends inside it |
| `Rate.DecodesEncoded` | integration/net/client.py:226-235 | round trip for any chunks and anything after them |
| `Rate.DecodedWasEncoded` | integration/fixture-net/itest-net.pl:84-96 | only an encoding decodes |
| `Rate.EncodingIsUnique` | integration/net/client.py:226-235 | no encoding is the start of another |
| `Rate.CountsAgree` | integration/net/client.py:226-237 | the receiver's count is the sender's, for every number of frames |
| `Upload.AlwaysValid` | integration/net/client.py:99-106 | in every interleaving each slot holds its own worker's outcome or nothing yet, and a joined worker is finished |
| `Upload.EverySlotIsItsOwn` | integration/net/client.py:75-107 | after all joins slot i is worker i's outcome and the errors are theirs in order |
| `Upload.SucceedsIff` | integration/net/client.py:99-109 | the command succeeds exactly when every worker succeeded or died uncaught |
| `Upload.RaisedPasses` | integration/net/client.py:75-96 | a run in which an uncaught error passes for success |
| `Upload.NeverStuck` | integration/net/client.py:103-106 | until the command ends some thread can run |
| `Upload.UploadOnce` | integration/net/client.py:75-96 | a worker writes its slot and no other |
| `Upload.CollectErrors` | integration/net/client.py:107 | the errors are the slots that say something, in order |
| `StatusCounts.Counter.Add` | fleetgrpc/domain_methods.go:102-111 | one bucket moves, and the counter counts the list with the status added |
| `StatusCounts.Counter.Merge` | fleetgrpc/domain_methods.go:95-99 | merged counters count the two lists together |
| `StatusCounts.Counter.Total` | fleetgrpc/domain_methods.go:90 | the length of any list the counter counts |
| `StatusCounts.CountInstanceStatuses` | fleetgrpc/domain_methods.go:114-120 | every bucket is its filtered count |
| `StatusCounts.CountFleets` | internal/cli/status.go:27-30 | merging per-fleet counts counts all the fleets' instances |
| `StatusCounts.CountConcat` | fleetgrpc/domain_methods.go:95-99 | counting is a homomorphism from lists |
| `StatusCounts.BucketsCover` | fleetgrpc/domain_methods.go:90-111 | the buckets of any list add up to its length |
| `StatusCounts.OrderIrrelevant` | fleetgrpc/domain_methods.go:114-120 | lists with the same statuses in any order have the same counts |
| `AgentProto.NothingLost` | internal/agentproto/filter.go:83-104 | the messages and what follows them are the stream |
| `AgentProto.ReadingOn` | internal/agentproto/filter.go:83-104 | reading on from the left-over gives the messages of the whole stream |
| `AgentProto.MessagesRoundTrip` | internal/agentproto/filter.go:108-123 | messages sent one after another are read back as they were |
| `AgentProto.MessageReader.Read` | internal/agentproto/filter.go:83-104 | the next message of the stream whatever its chunks, and the error cases |
| `AgentProto.Serve` | internal/agentproto/filter.go:148-170 | the answers handed over are those to the whole stream's messages in order up to the one refused, the agent saw what the filter lets through, and it returns without an error exactly when refused or when all was answered |
| `AgentProto.AnswerRule` | internal/agentproto/filter.go:148-170 | a forbidden request gets a failure in its turn, an allowed one the agent's reply to it |
| `AgentHub.AlwaysValid` | internal/server/sshagent.go:156-216 | after any attachments and departures the list is in reverse order of trying and each provider was last told whether it is active |
| `AgentHub.AttachOrderIff` | internal/server/sshagent.go:84-86 | the list is in attach order exactly when no yielding provider attached after one that does not yield |
| `AgentHub.YieldingGoesInFront` | internal/server/sshagent.go:174-181 | two attachments after which it is not |
| `AgentHub.Hub.AddProvider` | internal/server/sshagent.go:156-197 | an attachment is inserted at its place and the displaced and new providers are told |
| `AgentHub.Hub.InsertionIndex` | internal/server/sshagent.go:174-180 | a yielding provider goes after the other yielding ones, any other to the end |
| `AgentHub.Hub.RemoveProvider` | internal/server/sshagent.go:201-216 | a departure takes out that provider only and tells the next one |
| `AgentHub.Hub.ProvidersNewestFirst` | internal/server/sshagent.go:137-143 | every provider once, non-yielding newest first, then yielding newest first |
| `AgentFailover.AlwaysValid` | internal/server/sshagent.go:223-245 | every step of a failover, with providers attaching and leaving in between, keeps what the theorems need |
| `AgentFailover.FirstThatServes` | internal/server/sshagent.go:223-245 | in every run the connection is served by the first of the snapshot whose relay served, those before it were skipped or were sent none of its bytes, and it goes to the daemon's own agent, or is closed without one, exactly when none of the snapshot served |
| `AgentFailover.SuspectIff` | internal/server/sshagent.go:325-331 | in every run a provider is suspect exactly when, since its last frame, more than two ping intervals passed or a relay to it timed out |
| `AgentFailover.SkippedIff` | internal/server/sshagent.go:225-243 | every provider that had its turn was skipped exactly when it was suspect then |
| `AgentFailover.OwnAgentLast` | internal/server/sshagent.go:223-245 | the daemon's own agent is reached only when each provider of the snapshot had stopped answering at its turn, or was asked then, did not serve and was sent nothing |
| `AgentFailover.LateReadyIsSkipped` | internal/server/sshagent.go:491-506 | a run in which a provider is skipped with no time passed since it was heard |
| `AgentFailover.ServeConn` | internal/server/sshagent.go:223-245 | whatever happens meanwhile, the loop goes through a run made of that and of its own events, each possible when it came, and its result is where the run ends |
| `AgentFailover.NewestThatCanIff` | fleetgrpc/exec.pb.go:1818-1822 | it goes to the newest attached provider that can serve it exactly when every provider that attached after the snapshot and is still there yields, and one that does not took it |
| `AgentFailover.LatecomerIsNotAsked` | internal/server/sshagent.go:223-245 | a run that ends with the daemon's own agent while a provider that was never asked is attached |
| `AgentLink.InvKept` | internal/server/sshagent.go:475-625 | every step of either end keeps the relay's invariant |
| `AgentLink.NotServed` | internal/server/sshagent.go:475-510 | in every run a provider that did not serve the connection was sent none of its bytes |
| `AgentLink.RepliesInOrder` | internal/server/sshagent.go:512-543 | in every run the bytes delivered are a prefix of the answers |
| `AgentLink.AnswersMatchRequests` | internal/agentfwd/agentfwd.go:441-503 | the requests answered are the first messages received, one answer each, forbidden ones refused |
| `AgentLink.AnswersAllReceivedIff` | fleetgrpc/exec.pb.go:1834-1838 | in every run a provider that closed after serving has answered every request it received exactly when the agent did not fail |
| `AgentLink.HalfCloseGetsEveryReplyIff` | fleetgrpc/exec.pb.go:1834-1838 | when the writer drained after the provider's close, every answer was delivered; unless the connection was aborted, those answer all the requests sent exactly when the agent did not fail |
| `AgentLink.AgentFailureDropsARequest` | internal/agentfwd/agentfwd.go:499-503 | a reachable state in which a half-closed connection ended in order with its request unanswered |
| `AgentLink.StreamEndDropsAReply` | internal/server/sshagent.go:515-538 | a reachable state in which replies that had arrived are lost |
| `AgentLink.CutKeepsRepliesIff` | internal/server/sshagent.go:515-538 | ending the writer with the stream keeps the replies exactly when none is queued |
| `AgentLink.OverflowLeavesAGap` | internal/agentfwd/agentfwd.go:506-522 | a reachable state in which the bytes received have a gap |
| `AgentLink.FrameKeptIff` | internal/agentfwd/agentfwd.go:506-522 | at the arrival of a frame on a connection not aborted before, no byte goes missing exactly when the frame fits and finds room |
| `AgentOrder.WholeFramesInOrder` | internal/agentfwd/agentfwd.go:506-522 | in every run the bytes sent are the frames that arrived and those under way, and the bytes received are the same frames with some left out whole |
| `AgentOrder.GaplessIff` | internal/agentfwd/agentfwd.go:506-522 | in every run no frame is taken after one was left out exactly when none is taken after an overflow |
| `AgentOrder.RequestsInOrder` | fleetgrpc/exec.pb.go:1831-1838 | in every run in which none is, however the connection and its stream end, the bytes received are a prefix of those sent |
| `AgentOrder.NoOverflowNoRefill` | internal/agentfwd/agentfwd.go:511-522 | so in every run in which no frame is too long or finds the queue full |
| `AgentOrder.UnabortedNeverOverflows` | internal/agentfwd/agentfwd.go:506-522 | and in every run that leaves the connection unaborted |
| `AgentMux.Refines` | internal/server/sshagent.go:580-625 | each step of the shared stream is, for every connection, a step of that connection alone or none |
| `AgentMux.RunRefines` | fleetgrpc/exec.pb.go:1831-1838 | each run of the shared stream is, for every connection, a run of that connection alone with the same outcome |
| `AgentMux.InOrder` | fleetgrpc/exec.pb.go:1831-1838 | with any number of connections interleaved, each receives its own frames in order and whole, without a gap exactly when none is taken after an overflow of its own, its bytes then being a prefix, and its replies as a prefix of the answers |
| `AgentMux.AnsweredInTurn` | fleetgrpc/exec.pb.go:1823-1830 | for every connection of every run, requests are answered in turn, only allowed ones reach the agent, and all received are answered exactly when the agent did not fail |
| `AgentMux.EveryReplyDeliveredIff` | fleetgrpc/exec.pb.go:1834-1838 | the half-close promise for every connection of every run, with its exact condition |
| `AgentMux.ReachedOnStream` | internal/server/sshagent.go:475-625 | every state a connection reaches with the stream to itself is reached on the stream: the refinement promises nothing less |
| `AgentMux.UnansweredOnStream` | internal/agentfwd/agentfwd.go:499-503 | a run of the stream that leaves a half-closed connection's request unanswered |
| `AgentMux.GapOnStream` | internal/agentfwd/agentfwd.go:506-522 | a run of the stream that leaves a gap in a connection's bytes |
| `MicHub.AlwaysValid` | internal/server/mic.go:839-989 | in every run the published source is the source and only it may have been told to record |
| `MicHub.StepKeepsValid` | internal/server/mic.go:717-989 | every attachment, departure, selection, report, sync and shutdown keeps that |
| `MicHub.PublishHandsOver` | internal/server/mic.go:890-910 | whenever the source is told, a superseded one still attached has been told to stop and no one else has been told anything |
| `MicHub.OnlyTheSourceRecords` | fleetgrpc/exec.pb.go:1486-1508 | in every run exactly one provider is the source when any is attached, it alone is told to record, exactly when an instance demands it, and a stand-in is sent no device |
| `MicHub.SourceIsSelected` | internal/server/mic.go:846-858 | the source is the selected client's newest provider if one is attached, else the newest of all |
| `MicHub.NewestOfIsNewest` | internal/server/mic.go:847-853 | the provider found has no newer one of its client |
| `MicHub.RoutedWasDemanded` | internal/server/mic.go:994-1009 | audio goes only where the provider's last demand says |
| `MicHub.ClientIsPushedIff` | internal/server/mic.go:875-910 | after every event, exactly when the source has been told of the client now selected |
| `MicHub.ClearedSelectionIsNotPushed` | internal/server/mic.go:926-931 | runs, by a selection and by a sync, after which a provider's last demand names a client no longer selected |
| `MicHub.Hub.SourceLocked` | internal/server/mic.go:846-858 | the downward search finds the source |
| `MicHub.Hub.DemandingLocked` | internal/server/mic.go:876-881 | the instances whose sinks report demand |
| `MicHub.Hub.PublishDemandLocked` | internal/server/mic.go:875-910 | the source has been told who is recording and on which device, a superseded one has been told to stop, no one else anything, and the invariant holds |
| `MicHub.Hub.AddProvider` | internal/server/mic.go:938-958 | the newcomer is greeted, told to record exactly when it is the source and an instance demands it; a displaced source is told to stop, no one else anything; the invariant is kept |
| `MicHub.Hub.RemoveProvider` | internal/server/mic.go:962-976 | that provider only is gone, the next in line has taken over, no one else was told anything; nothing for a provider already gone; the invariant is kept |
| `MicHub.Hub.SetSelection` | internal/server/mic.go:926-931 | the source follows the selection at once, the old one is told to stop, no one else anything; the invariant is kept |
| `MicHub.Hub.SetDemand` | internal/server/mic.go:829-837 | the source is told of the instance exactly when it demands; a report from a sink that is gone changes nothing; the invariant is kept |
| `MicHub.Hub.SyncSinks` | internal/server/mic.go:391-446 | a sink that stays keeps its demand and a new one has none, the source follows the settings; nothing without a provider; the invariant is kept |
| `MicHub.Hub.RetireSink` | internal/server/mic.go:717-728 | the source is not told of the instance any more, other sinks stay; the invariant is kept |
| `MicHub.Hub.CloseAllSinks` | internal/server/mic.go:751-766 | no attached provider is left recording; the invariant is kept |
| `MicHub.Hub.KickProviders` | internal/server/mic.go:979-989 | there is no source and nobody attached; the invariant is kept |
| `KubeLookup.FindKubeCluster` | fleetgrpc/kube_methods.go:80-111 | the loops compute the three-tier lookup, its errors and the names they list |
| `KubeLookup.FindOrOnlyKubeCluster` | fleetgrpc/kube_methods.go:60-75 | the same with the only connection for an empty reference |
| `KubeLookup.LookupMeaning` | fleetgrpc/kube_methods.go:77-111 | the three tiers stated outright, in both directions |
| `KubeLookup.OrderMattersIff` | fleetgrpc/kube_methods.go:80-111 | the answer is the same under every order exactly when the reference is an id or at most one display name folds to it |
| `KubeLookup.OrderIrrelevant` | fleetgrpc/kube_methods.go:80-111 | under that condition the same connection, or the same error listing the same names |
| `KubeLookup.UniqueNamesSuffice` | fleetgrpc/kube_methods.go:60-111 | with unique ids and folded names every reference means the same under every permutation |
| `KubeLookup.InsertNeverRedirects` | fleetgrpc/kube_methods.go:80-111 | wherever a connection is inserted, a reference then names it, what it named before, or is ambiguous |
| `KubeLookup.InsertKeeps` | fleetgrpc/kube_methods.go:80-111 | removing a connection a reference did not name leaves what it names |
| `KubeLookup.ShownResolvesIff` | fleetgrpc/kube_methods.go:50-55 | a connection is found by what messages call it exactly when no other's id is its display name |
| `KubeLookup.ListedNamesResolve` | fleetgrpc/kube_methods.go:50-111 | every name an ambiguity error lists finds the connection it was listed for |
| `KubeLookup.ListedNameMisleads` | internal/server/kube_validate.go:264-280 | for any two ids, a connection named like the other id is accepted by the check, and the name it is listed by finds the other |
| `KubeLookup.CheckUnique` | internal/server/kube_validate.go:264-280 | a record is accepted exactly when it clashes with no other |
| `KubeLookup.AcceptedStaysUnique` | internal/server/kube_validate.go:262-280 | accepted records keep names unique in lower case and places unique |
| `KubeLookup.CheckSufficesIff` | internal/server/kube_validate.go:264-274 | that is enough for the lookup exactly when characters that fold together lower-case together |
| `KubeLookup.SlippedThrough` | internal/server/kube_validate.go:264-274 | two accepted connections between which the order decides |
| `FieldMask.CopyMask` | internal/server/kube_validate.go:305-309 | the loop applies the paths one after another |
| `FieldMask.CopyPathMeaning` | internal/server/kube_validate.go:316-333 | one path copies its field, set or unset, and leaves every other |
| `FieldMask.MaskMeaning` | internal/server/kube_validate.go:284-314 | every field the mask covers reads the source's, every other one reads as before |
| `FieldMask.DisjointMasksCommute` | fleetgrpc/kube.pb.go:4405-4411 | updates with disjoint masks can be applied in either order |
| `KubeUpdate.StepFollows` | fleetgrpc/kube.pb.go:480-484 | in each step a record changes but in its notes exactly with its revision, which moves by one |
| `KubeUpdate.RunFollows` | fleetgrpc/kube.pb.go:480-484 | over any run without its removal, the same revision is the same record but for notes |
| `KubeUpdate.UpdateIsAtomic` | internal/server/kube.go:204-269 | whatever comes between read and save, an update does what one step at its save would, or is refused because the revision moved |
| `KubeUpdate.SavesAsOneStep` | internal/server/kube.go:248-269 | so does the saving step of every call in a run of interleaved calls |
| `KubeUpdate.EditorSawTheLatest` | fleetgrpc/kube.pb.go:4413-4415 | an accepted update with an expected revision was based on the latest client change |
| `KubeUpdate.OnlyTheMaskChanges` | internal/server/kube.go:204-269 | in every run a saved update changes exactly the fields its mask covers |
| `KubeUpdate.AlwaysUnique` | internal/server/kube_validate.go:262-280 | in every run of interleaved additions and updates no two display names are the same in lower case and no two records are one place |
| `KubeUpdate.CommitKeepsUnique` | internal/server/kube.go:256-258 | a save whose record was worked out before others changed still keeps that |
| `KubeUpdate.AlwaysTidy` | internal/server/kube.go:63-75 | stored kubeconfig paths are always clean, so cleaning them again changes nothing outside the mask |
| `KubeUpdate.NotesLeaveTheRest` | internal/server/kube_health.go:384-413 | bookkeeping moves no revision and changes no client field |
| `KubeUpdate.NotesNeverAbort` | internal/server/kube_health.go:384-413 | bookkeeping refuses no save that would have passed, nor lets one through |
| `KubeUpdate.RemovalUnprotects` | internal/server/kube.go:170-178 | after a removal, a connection whose context has the slug the id starts with can be given that id and reach any revision with any fields the check admits, and the old editor's save is not refused as out of date |
| `KubeUpdate.ApplyKubeMask` | internal/server/kube_validate.go:288-314 | an empty mask, a daemon-owned field and an unknown one are refused, any other mask is applied |
| `KubeUpdate.Clusters.BeginUpdate` | internal/server/kube.go:204-215 | exactly when it is refused and why, and otherwise the record read and, in every field, what the mask makes of it |
| `KubeUpdate.Clusters.CommitUpdate` | internal/server/kube.go:248-269 | a save replaces this record only, moves its revision by one and keeps the daemon's notes unless re-pointed; a refusal changes nothing; aborted exactly when the revision moved; names and places stay unique |
| `KubeUpdate.Clusters.FindClash` | internal/server/kube_validate.go:264-280 | a clash is found exactly when another record has the name or the place |
| `KubeUpdate.Clusters.PersistBookkeeping` | internal/server/kube_health.go:384-413 | notes about a record that was not re-pointed, and nothing else |

## Left out

- Timing: `--seconds`, throughput, ping intervals and timeouts are not modelled; a timeout is a step that may happen; how long a provider has been silent is counted in `AgentFailover`.
- Sockets, ptys, processes, SHA and random bytes: streams are byte sequences read in arbitrary pieces, hashes and random values are parameters.
- WebSocket.EchoedIff: the decoder is any that gives back what was encoded and marks everything else with replacement characters; for a text that itself holds replacement characters, failure beyond 122 bytes is not claimed. A text that is not Unicode (lone surrogates) is not modelled.
- WebSocket.CommandSucceedsIff: the fixture that cannot make out a frame sends nothing, where the real one waits for more bytes until the client gives up; both end in failure.
- Rate.RateUp: the number of frames is a parameter where the source sends for a length of time.
- Upload.UploadOnce: a worker's connection is its ending; the write of a slot is one step, as list assignment is.
- AgentProto.Serve: the callback is a number of answers it takes before it refuses one.
- AgentFailover.SuspectIff: time passes in steps of any length, and a relay's timer may run out at any of them; the ping messages themselves are frames heard.
- AgentFailover.ServeConn: what happens in the world before each of its steps is given; log lines are left out.
- AgentLink.HalfCloseGetsEveryReplyIff: speaks of a writer that drained after the provider's close. It can also drain after the connection was shut for a full reply queue, a send that timed out or the end of the stream, be cut off with the stream (`StreamEndDropsAReply`), be hung up when the grace period is over, or end at a write the process refused; then only `RepliesInOrder` is promised.
- AgentOrder.RequestsInOrder: the converse is stated of frames (`GaplessIff`), as bytes left out may happen to equal those that follow.
- AgentLink.InvKept: the session-bind exchange, the fallback agent's splice and log lines are not part of the steps.
- MicHub.AlwaysValid: an instance list is a set, as the source sorts it before every use; sink processes, back-off and the source listing for clients are left out.
- MicHub.Hub.SyncSinks: which instances stopped or started, and that nothing was torn down meanwhile, are given.
- KubeLookup.CheckUnique: kubeconfig paths and namespace are one value; the error texts are constructors with the names they list.
- KubeLookup.FindKubeCluster: strings are sequences of characters; invalid UTF-8 is not modelled.
- KubeUpdate.UpdateIsAtomic: validation, re-point checks and the users of a connection are answers given to the steps; the registry is a map from ids, so its order is not kept; adding and removing are steps of a run, not methods.
- KubeUpdate.EditorSawTheLatest: holds as long as the record is not removed in between; revisions are unbounded, where the source's are 64 bits wide.
- FieldMask.MaskMeaning: the conversion between stored records and wire messages is taken to lose nothing, and paths are already split at their dots.
- The generated protobuf plumbing, enum display tables, `Usable`, `FindInstance`, share sync, gateway tunnels, preflight, image delivery and the user interfaces would only add easy members or need other parts of the system.
