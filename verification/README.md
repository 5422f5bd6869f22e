# Streaming gateway: a verified model

One browser talks to Omniverse Kit through a signalling gateway. This project
models the parts of it that hold state, and proves what they promise over every
input, every schedule and every run.

**The session** (`Gateway.dfy`). Two pump goroutines, the goroutines they and the
ICE callbacks start, three shared 32-bit integers, two WebSockets and a once-only
teardown form one step machine. A step is one read, one hook decision, one atomic
load, store or add, one locked write, or one answer of the media stack; a schedule
is any list of steps, and `Reachable` means any state after any schedule. The
machine takes the codec as a parameter, so its invariants hold for every way of
reading frames; `SessionWire.dfy` instantiates it with the real one and speaks of
the bytes on the wire. `SessionObject.dfy` is the session in the form of its
code: one object with the shared fields, one method per function, straight-line
bodies, and before each load, store, add, send or go statement any schedule of the
other goroutines. Its methods keep the object in reachable states, and the pump's
contract states on the fields what follows.

* `WireProofs`, `ForwardingProofs`: every write has a cause and no cause is
  written twice; what a pump relays is, byte for byte and in order, what the hook
  let through.
* `AckProofs`, `AckidProofs`, `AckidOrder`, `SessionWire`: exact accounting of acks
  towards Kit; unique ackids towards the browser, and when they are in order.
* `OfferProofs`, `OfferTheorems`: the causal order and the counts of the
  offer/answer chain (roles as in section 3.2 of RFC 8829), on both paths.
* `RoutingProofs`: which goroutine writes to which side, and where the content of
  its message comes from; candidates of the two media peers never mix.
* `PeerIdProofs`, `AddressTears`: the two learned peer ids are a fold over what was
  announced, built frames carry the ids in force when they were loaded, and when
  those two ids ever were in force together.
* `TeardownProofs`: nothing is closed twice, nobody gets stuck, and everything
  comes to rest under an explicit measure.

**The envelope codec** (`Json`, `JsonGrammar`, `JsonNumbers`, `JsonRoundTrip`,
`JsonPrinting`, `Values`, `Nvst`, `NvstProofs`, `NvstReading`, `Hooks`, `HookLaws`).
A JSON object holds a string that is itself printed JSON. The grammar of JSON texts
(sections 2 to 7 of RFC 8259), with white space and every spelling of a character, is
a type of concrete syntax trees; the parser is proved to read exactly its texts, and
the printer to write one of them. On top of that come Go's dynamic values, the payload
struct with `omitempty`, the cached bytes of built messages, the setters and the
accessors; and what the two hooks make of any frame, whoever printed it.

**The SDP rewrite and the media hand-off** (`Sdp`, `SdpProofs`, `Upstream`,
`Relay`). A stateful line transducer between a split and a join on CRLF (media
descriptions of section 5.14 of RFC 8866, candidates of section 5.1 of RFC 8839);
the bounded track channel and the transceiver table; the packet relay loop.

**The Node proxy** (`NodeProxy`). Buffer, flush and forward, as an event machine
with a conservation law.

**The replay driver** (`Grid`, `Camera`, `Checkpoint`, `ControlLoop`). The
near-square grid, the camera's lag, checkpoint selection and the decimated control
loop with its periodic resets.

## What is not as one might expect

* Not every ackid of Kit is acknowledged. The browser's acks all end in the
  gateway, those for frames of Kit that were passed on included.
  `SessionWire.PassedFrameStaysUnacked` is such a run, down to the bytes;
  `SessionWire.KitGetsAckExactlyWhenConsumed` is the condition. The package comment
  of session.go says acks are passed on; the code consumes them.
* gateway-go/README.md:71 says an offer from the browser is ignored; the code
  bridges it, and the model follows the code.
* The two addresses of a frame to Kit come from two separate loads and may never
  have been the peers' ids together. `SessionWire.TornPair` is such a run;
  `AddressTears.AddressesHeldTogether` is the condition.
* Taking an ackid and writing the frame are separate steps, so ackids are unique but
  need not increase. `SessionWire.AckidsOutOfOrder` is such a run;
  `AckidOrder.OutOfOrderExactly` is the condition and `AckidOrder.InOrderWhenAlone` a
  guard that excludes it.
* Setters leave the cached bytes of a built message alone, so what they set is not
  sent (`NvstProofs.SettersMissFrameToKit`, `NvstProofs.SettersMissFrameToBrowser`).
* The SDP rewrite does not look for an existing candidate, whatever its comment
  says; a second rewrite injects again (`SdpProofs.RewriteIsNotIdempotent`,
  `SdpProofs.CandidateIsRepeated`).
* An adapter that keeps the default decimation of 4, which does not divide 30, and
  overrides `maybe_reset` applies actions computed before a reset after it
  (`ControlLoop.ActionsAreFresh` gives the exact condition). Of the two adapters in
  the repository neither does both: replay_ant.py resets and has 2, replay_anymal_d.py
  has 4 and does not reset.

## Model

| member | source | states |
|---|---|---|
| WireProofs.WireInvAlways | gateway-go/internal/session/session.go:218-370 | In every state after every schedule each write is what its cause makes it (a passed frame of the other side, the ack of a consumed frame that had an ackid, or one goroutine's one message) and no cause is written twice to a side |
| ForwardingProofs.RelayedVerbatim | gateway-go/internal/proxy/proxy.go:96-150 | The frames a pump relayed are a prefix of the frames the hook let through, same type and bytes, same order, none twice, at most one behind, and equal whenever the pump is back at its read |
| AckProofs.AcksAttemptedAreOwed | gateway-go/internal/session/session.go:257-313 | The acks written to Kit are the acks owed for consumed frames, one each and in Kit's order, at most the frame in hand still missing |
| AckProofs.AckedExactlyWhenConsumed | gateway-go/internal/session/session.go:260-312 | The n-th frame of Kit is acked by the gateway if and only if the hook consumed it and it carried an ackid, in every state, but for the frame in hand before its ack |
| SessionWire.KitGetsAckExactlyWhenConsumed | gateway-go/internal/session/session.go:257-327 | In every state, with distinct Kit ackids: no frame on Kit's wire acks the number of a frame that was passed on; and with no ack lost, the number of a frame is acked on Kit's wire if and only if the hook consumed the frame |
| SessionWire.PassedFrameStaysUnacked | gateway-go/internal/session/session.go:322-327 | "Kit gets every ackid acked" is false: a run in which Kit's peer_info with ackid 1 is passed on, the browser sends the ack of 1, and Kit receives nothing |
| SessionWire.OnlyGatewayAcksReachKit | gateway-go/internal/session/session.go:322-327 | Of all frames written to Kit, those that are JSON objects with an `ack` key are exactly the gateway's own acks; no browser ack gets through |
| SessionWire.KitReceivesExactlyItsAcks | gateway-go/internal/session/session.go:257-313 | When no ack was lost to a failing socket, the ack objects on Kit's wire are exactly those owed, in order |
| AckidProofs.NthAckidIsSum | gateway-go/internal/session/session.go:190 | n atomic adds amount to one addition modulo 2^32 |
| AckidProofs.AboveBaseUntilWrap | gateway-go/internal/session/session.go:58-65 | Within a full turn of the counter the n-th ackid is above 10000 if and only if n < 2^31 - 10000 |
| AckidProofs.BuiltAckidsAreUnique | gateway-go/internal/session/session.go:190-200 | Any two frames built for the browser by any of the three concurrent producers carry different ackids, for fewer than 2^32 adds, in every interleaving of adds and writes |
| AckidProofs.BuiltAckidsAreHigh | gateway-go/internal/session/session.go:61-65 | Before the counter wraps, every ackid on a built frame is above the base |
| AckidOrder.AckidOrderIsTicketOrder | gateway-go/internal/session/session.go:190-192 | Before the counter wraps, ackids of built frames are ordered exactly as the adds that gave them out |
| AckidOrder.OutOfOrderExactly | gateway-go/internal/session/session.go:444-451 | Of two built frames the one written first has the higher ackid if and only if, at some moment, the goroutine that wrote second held its ackid and the one that wrote first had taken none |
| AckidOrder.InOrderWhenAlone | gateway-go/internal/session/session.go:527-534 | If never two goroutines stand between taking an ackid and sending, ackids increase along the browser's wire |
| SessionWire.AckidsOutOfOrder | gateway-go/internal/session/session.go:438-451 | A run of one Kit offer in which the browser receives a candidate with ackid 10002 before the gateway's offer with 10001 |
| SessionWire.BrowserSeesNoAckidTwice | gateway-go/internal/session/session.go:61-65 | If Kit's ackids are distinct and at most 10000, no two ack-bearing frames on the browser's wire, forwarded or built, share an ackid |
| OfferTheorems.AnswerFollowsAck | gateway-go/internal/session/session.go:276-289 | Every answer to Kit belongs to a consumed Kit offer and comes after the attempt to ack that offer |
| OfferTheorems.BrowserOfferFollowsAnswer | gateway-go/internal/session/session.go:384-456 | Every offer to the browser comes after its own answer went out to Kit |
| OfferTheorems.BridgeAnswerFollowsOffer | gateway-go/internal/session/session.go:460-537 | Every answer to the browser comes after the same goroutine's offer went out to Kit, for a consumed browser offer |
| OfferTheorems.KitInitiatedCounts | gateway-go/internal/session/session.go:384-456 | In every state: offers delivered to the browser <= answers delivered to Kit <= Kit offers the hook is through with |
| OfferTheorems.BrowserInitiatedCounts | gateway-go/internal/session/session.go:340-351 | In every state: answers delivered to the browser <= offers delivered to Kit <= browser offers the hook is through with |
| OfferTheorems.OneGoroutinePerKitOffer | gateway-go/internal/session/session.go:276-289 | In every state a goroutine to answer the n-th Kit frame exists if and only if that is an offer the hook is through with, and there is only one |
| OfferTheorems.OneGoroutinePerAcceptedOffer | gateway-go/internal/session/session.go:340-351 | For every schedule a goroutine to bridge the n-th browser frame exists if and only if that is an offer and the downstream peer accepted it at the client pump's step past it, and there is only one |
| OfferTheorems.CancelledMakesNoOffer | gateway-go/internal/session/session.go:432-436 | Once the session is cancelled, a goroutine before its look at the context never writes its offer to the browser, whatever follows |
| PeerIdProofs.IdsAreLastAnnounced | gateway-go/internal/session/session.go:224-255 | The two ids are the last stored values (defaults 1 and 0); the stores of each pump are what its frames announced, in order and complete but for the frame in hand |
| PeerIdProofs.BrowserIDComesFrom | gateway-go/internal/session/session.go:224-240 | Every store of the browser's id is owed to a peer_info about the browser with that id, or to a signal from the browser with that sender; what Kit says of itself is never stored there |
| PeerIdProofs.KitAnnouncementsAreStored | gateway-go/internal/session/session.go:234-255 | Every frame of Kit that announces an id, and every signal of Kit, has its store once the hook is past it |
| PeerIdProofs.ClientAnnouncementsAreStored | gateway-go/internal/session/session.go:335-338 | So has every signal of the browser, for its sender and, if it has one, its addressee |
| PeerIdProofs.AddressesAreLoaded | gateway-go/internal/session/session.go:400-404 | A frame built for Kit is addressed from the browser id in force at its first load to the Kit id in force at its second, possibly later, load |
| AddressTears.AddressesHeldTogether | gateway-go/internal/session/session.go:482-486 | The two addresses were the ids at one moment between the loads unless a store of the browser's id and then one of Kit's id came between; if no id comes back to an old value there, if and only if none did |
| SessionWire.TornPair | gateway-go/internal/session/session.go:149-160 | A run in which Kit receives a frame from 0 to 9, a pair of ids that no moment of the run had |
| PeerIdProofs.StableAddressing | gateway-go/internal/session/session.go:149-152 | Once both ids stay the same, every frame whose addresses are loaded later goes from the one to the other |
| RoutingProofs.BuiltForKit | gateway-go/internal/session/session.go:129-161 | What the gateway builds for Kit is an answer or offer holding the description the upstream peer gave that goroutine, or a candidate of the upstream peer; no other goroutine ever writes to Kit |
| RoutingProofs.BuiltForBrowser | gateway-go/internal/session/session.go:170-201 | The same towards the browser with the downstream peer, from an id that was Kit's at some moment |
| SessionWire.BuiltFrameToKitSays | gateway-go/internal/session/session.go:399-408 | The bytes written to Kit parse back to the two loaded ids and to the answer, offer or candidate that the goroutine's job calls for |
| SessionWire.BuiltFrameToBrowserSays | gateway-go/internal/session/session.go:443-451 | The bytes written to the browser parse back to the ackid taken, an id that was Kit's, no addressee, and the offer, answer or candidate of the job |
| SessionWire.StableAddressesOnTheWire | gateway-go/internal/session/session.go:481-491 | With stable ids the parsed bytes on Kit's wire name the browser's and Kit's id |
| SessionWire.BuiltFramesAreText | gateway-go/internal/proxy/proxy.go:130-138 | Whatever the gateway writes of its own is a text message |
| TeardownProofs.TornDownOnce | gateway-go/internal/proxy/proxy.go:152-160 | In every state each connection was closed and OnClose run at most once, the client first and OnClose after both; once a pump has stopped, each exactly once |
| TeardownProofs.ClosedByLeaver | gateway-go/internal/proxy/proxy.go:103-126 | In every state a closed connection means that some pump is on its way out |
| TeardownProofs.StepsComeToRest | gateway-go/internal/proxy/proxy.go:96-128 | With both connections closed every enabled step of a pump or goroutine decreases one explicit measure of the whole system |
| TeardownProofs.RunsEnd | gateway-go/internal/proxy/proxy.go:96-128 | For every schedule from there, ICE candidates included: the steps anybody can take plus the measure that remains are at most the measure at the start and ten for each new candidate |
| TeardownProofs.RestIsTheEnd | gateway-go/internal/proxy/proxy.go:152-160 | In a reachable state nobody can take a step if and only if both pumps stopped and all goroutines finished, and then each connection was closed and OnClose run exactly once |
| TeardownProofs.NobodyGetsStuck | gateway-go/internal/proxy/proxy.go:152-160 | Until both pumps stopped and all goroutines finished, some step is enabled, even when both pumps meet in the once |
| TeardownProofs.AtMostOneMoreHookCall | gateway-go/internal/proxy/proxy.go:102-121 | After the connections are closed a pump begins at most one more hook call, for a frame it already held |
| SessionObject.Session.Pump | gateway-go/internal/proxy/proxy.go:96-128 | Under any interference between its operations: a pump that is back at its read has read exactly the number of frames asked for, relayed those the hook let through, in order, sent Kit the acks it is owed, started a goroutine for every offer of Kit, and one for an offer of the browser if and only if the downstream peer accepted it; it ends only if an operation of its own failed or the other pump is on its way out, and then each connection was closed and OnClose run exactly once |
| SessionObject.Session.Turn | gateway-go/internal/proxy/proxy.go:102-127 | One round reads one frame and goes on, unless its connection has just failed or the other pump is on its way out |
| SessionObject.Session.TearDown | gateway-go/internal/proxy/proxy.go:152-160 | Either the caller still waits for the other pump in the once, or it has stopped with everything closed exactly once |
| SessionObject.Session.OnKitMessage | gateway-go/internal/session/session.go:218-313 | The hook's code, with its store, ack and go statement interleaved with anything, stays in reachable states and lets through exactly the frames that are no signal with an offer, an answer or a candidate |
| SessionObject.Session.OnClientMessage | gateway-go/internal/session/session.go:316-370 | Likewise, and no ack is let through; an offer gets its goroutine if and only if the downstream peer accepts it |
| SessionObject.Session.PostToKit | gateway-go/internal/session/session.go:149-160 | Two loads and a send: the last write is the frame from the ids that were loaded, whatever was stored in between |
| SessionObject.Session.PostToBrowser | gateway-go/internal/session/session.go:190-200 | An add, a load and a send: the last write is the frame with the ackid that was taken |
| SessionObject.Session.HandleKitOffer | gateway-go/internal/session/session.go:384-416 | An offer to the browser is started with the answer to Kit already out, and that answer holds what the upstream peer said when it was asked; it is not started only if the upstream peer or the socket has just failed or Kit's connection is closed |
| SessionObject.Session.BuildBrowserOffer | gateway-go/internal/session/session.go:428-456 | When its offer goes out, the answer of the goroutine that started it went out to Kit before, and it holds what the downstream peer said when it was asked; it goes out unless the downstream peer or the socket has just failed, the client's connection is closed or the session is cancelled |
| SessionObject.Session.BridgeBrowserOffer | gateway-go/internal/session/session.go:460-537 | When its answer to the browser goes out, its own offer went out to Kit before, and the two hold what the upstream and the downstream peer said when they were asked; it goes out unless a peer or a socket has just failed, a connection is closed or the session is cancelled |
| SessionObject.Session.OnUpstreamCandidate | gateway-go/internal/session/session.go:129-161 | The last write is this candidate's frame to Kit, from the ids that were loaded, and it fails only if the socket does |
| SessionObject.Session.OnDownstreamCandidate | gateway-go/internal/session/session.go:170-201 | The last write is this candidate's frame to the browser, with the ackid that was taken, and it fails only if the socket does |
| Hooks.ClientHookReadsBuilt | gateway-go/internal/session/session.go:316-370 | The client hook reads a built client-to-server frame as the routing and payload it was built from |
| Hooks.KitHookReadsBuilt | gateway-go/internal/session/session.go:246-274 | The Kit hook reads a built server-to-client frame likewise, its ackid present exactly when not zero |
| Hooks.HooksReadAcks | gateway-go/internal/session/session.go:325-327 | A bare ack is consumed by the client hook and plain to the Kit hook |
| Hooks.HookReadsPeerInfo | gateway-go/internal/session/session.go:228-245 | A peer_info frame names Kit's id or the browser's by the prefix of its name, whatever else it holds, and after the trip over the wire |
| HookLaws.KitHookReads | gateway-go/internal/session/session.go:218-255 | Any frame of Kit: a peer_info announces first (an id that is no number is 0); else a peer_msg whose msg is an object with well-typed members and a type is a signal with the ids, payload and ackid it holds; all else is plain |
| HookLaws.ClientHookReads | gateway-go/internal/session/session.go:316-338 | Any frame of the browser: an ack if it has an `ack` of whatever value, else a signal under the same condition, else plain |
| HookLaws.OtherTextsArePlain | gateway-go/internal/session/session.go:219-223 | What is not a JSON object tells the hooks nothing |
| HookLaws.KitFramesConsumed | gateway-go/internal/session/session.go:275-312 | A frame of Kit without peer_info is consumed if and only if its payload is an offer, an answer or a candidate, and then an ack is owed if and only if it has an ackid |
| HookLaws.ClientFramesConsumed | gateway-go/internal/session/session.go:325-369 | A frame of the browser is consumed if and only if it is an ack or its payload is an offer, an answer or a candidate |
| HookLaws.BuiltFramesConsumed | gateway-go/internal/session/session.go:275-369 | The same of frames as the gateway builds them, to the byte |
| JsonGrammar.ParserIsExact | gateway-go/internal/nvst/envelope.go:33-39 | A text is read as a value if and only if it is one of the ways to write that value: any white space, any spelling of each character, surrogate pairs and halves included, and nothing behind it |
| JsonGrammar.OnlyTextsAreRead | gateway-go/internal/nvst/envelope.go:33-39 | And a text is read at all if and only if it is a text of the grammar |
| JsonNumbers.NumbersExactly | gateway-go/internal/nvst/peer_msg.go:110-120 | The number literals are exactly the texts of sign, digits without a leading zero, fraction and exponent |
| JsonNumbers.TruncDropsFraction | gateway-go/internal/nvst/peer_msg.go:110-120 | As an int a literal without exponent is its whole part, towards zero |
| JsonNumbers.TruncExactly | gateway-go/internal/nvst/peer_msg.go:110-120 | Digits, point and signed exponent of any literal say its number in the ordinary way, and as an int it is that number cut off towards zero |
| JsonRoundTrip.PrintThenParse | gateway-go/internal/nvst/envelope.go:124-129 | Parsing what the printer prints gives back every syntax tree |
| JsonPrinting.PrintIsClean | gateway-go/internal/nvst/envelope.go:124-129 | No printed text holds a control character, one of the three that are special in HTML, or a line separator |
| JsonPrinting.EscapesExactly | gateway-go/internal/nvst/envelope.go:124-129 | A character is printed as itself if and only if it is none of the special ones, and otherwise escaped in a form that names it |
| JsonPrinting.PlainTextIsItself | gateway-go/internal/nvst/envelope.go:124-129 | Text without special characters is printed as it is, between quotes |
| JsonPrinting.PayloadBytes | gateway-go/internal/nvst/peer_msg.go:33-39 | The bytes of a payload: the type first, then what is not empty, in the order of the struct |
| JsonPrinting.KitBytes | gateway-go/internal/nvst/peer_msg.go:140-184 | The bytes of a frame to Kit: from, then to unless 0, then the payload as a string |
| JsonPrinting.BrowserBytes | gateway-go/internal/nvst/peer_msg.go:204-248 | The bytes of a frame to the browser: the ackid first unless 0, and never a `to` |
| JsonPrinting.AckBytes | gateway-go/internal/nvst/peer_msg.go:186-189 | The bytes of an ack |
| Values.UnmarshalInvertsMarshal | gateway-go/internal/nvst/envelope.go:33-39 | Marshal then Unmarshal is the identity on every map but for ints having become floats |
| Values.UnmarshalIsWired | gateway-go/internal/nvst/envelope.go:33-39 | Nothing Unmarshal returns holds an int, so a parsed message is stable over any further trip |
| NvstProofs.InnerRoundTrip | gateway-go/internal/nvst/peer_msg.go:33-39 | omitempty loses nothing: every payload decodes from its own text |
| NvstProofs.InnerOfPrinted | gateway-go/internal/nvst/peer_msg.go:65-79 | A printed payload is found again by AsPeerMsg if and only if it has a type |
| NvstReading.DecodeMembersExactly | gateway-go/internal/nvst/peer_msg.go:69-74 | For every list of members: each field is the last value given for it, null and members of other names count for nothing wherever they are, and decoding fails if and only if a member has a type its field cannot take |
| NvstReading.TextIsPayloadExactly | gateway-go/internal/nvst/peer_msg.go:65-79 | A text is a payload if and only if it is a JSON object whose members decode and give a type |
| NvstReading.LastMemberCounts | gateway-go/internal/nvst/envelope.go:33-39 | Of members of one name the last counts |
| NvstReading.ParsesExactly | gateway-go/internal/nvst/envelope.go:33-39 | A frame is a message if and only if it is a JSON object or null |
| NvstProofs.BuildFrameAgrees | gateway-go/internal/nvst/peer_msg.go:165-175 | For every built message the cached bytes parse to exactly the map kept next to them |
| NvstProofs.ToKitRoundTrip | gateway-go/internal/nvst/peer_msg.go:152-184 | Build, Encode, Parse, AsPeerMsg through both layers of escaping returns from, to and payload; `to` present if and only if not zero; no ackid, not an ack |
| NvstProofs.ToBrowserRoundTrip | gateway-go/internal/nvst/peer_msg.go:216-248 | The same towards the browser: never a `to`, ackid present if and only if not zero |
| NvstProofs.AckRoundTrip | gateway-go/internal/nvst/peer_msg.go:186-189 | An ack carries its number over the wire |
| NvstProofs.EncodeThenParse | gateway-go/internal/nvst/envelope.go:124-129 | An uncached message parses back to its map, a nil map included |
| NvstProofs.AccessorsSurviveTheWire | gateway-go/internal/nvst/envelope.go:61-119 | Every accessor reads the same before and after the wire, for int and float64 alike |
| NvstProofs.SettersReachTheWire | gateway-go/internal/nvst/envelope.go:87-101 | Any sequence of setters on a parsed message, then Encode and Parse, gives the map as it stood in memory |
| NvstProofs.SettersChangeOnlyNamedFields | gateway-go/internal/nvst/peer_msg.go:85-97 | Any sequence of setters changes only sdp, candidate and, inside peer_msg, msg |
| NvstProofs.SettersAreRead | gateway-go/internal/nvst/envelope.go:87-101 | What SetSDP or SetCandidate sets is what is read under that name, and the other name is untouched |
| NvstProofs.PutInnerIsRead | gateway-go/internal/nvst/peer_msg.go:85-97 | After SetPeerMsgInner the routing and ackid are the old ones and the payload is the new one |
| NvstProofs.CachedBytesHideSetters | gateway-go/internal/nvst/envelope.go:23-30 | On every built message, what is sent after a setter still parses to the map before it |
| NvstProofs.SettersMissFrameToKit | gateway-go/internal/nvst/peer_msg.go:152-176 | On a frame built for Kit SetSDP and SetCandidate never reach the wire, and SetPeerMsgInner does if and only if it sets the payload the frame was built from |
| NvstProofs.SettersMissFrameToBrowser | gateway-go/internal/nvst/peer_msg.go:216-240 | The same of a frame built for the browser |
| NvstProofs.PlainOfferIsRead | gateway-go/internal/nvst/envelope.go:41-44 | An offer envelope is classified and read back as built, after the wire |
| NvstProofs.PlainAnswerIsRead | gateway-go/internal/nvst/envelope.go:46-49 | So is an answer envelope |
| NvstProofs.PlainCandidateIsRead | gateway-go/internal/nvst/envelope.go:51-59 | So is a candidate envelope, its index included |
| NvstProofs.TypeDecidesKind | gateway-go/internal/nvst/envelope.go:61-73 | For every map, after the wire: an offer, an answer or a candidate if and only if its `type` is that text |
| Nvst.Message.SetSDP | gateway-go/internal/nvst/envelope.go:87-90 | The in-place setter replaces the one entry and leaves the cache |
| Nvst.Message.SetCandidate | gateway-go/internal/nvst/envelope.go:98-101 | Likewise |
| Nvst.Message.SetPeerMsgInner | gateway-go/internal/nvst/peer_msg.go:85-97 | Fails without change if and only if there is no peer_msg object, otherwise replaces the payload text in it |
| Sdp.JoinInvertsSplit | gateway-go/internal/upstream/kit_peer.go:92-115 | Join after Split is the identity on every text |
| Sdp.SplitInvertsJoin | gateway-go/internal/upstream/kit_peer.go:92-115 | Split after Join is the identity on every list of lines without CRLF, stray CR or LF at their ends included |
| Sdp.RewriteKitOffer | gateway-go/internal/upstream/kit_peer.go:91-116 | The loop over lines with its running port computes the declarative rewrite |
| SdpProofs.RewriteErasesToInput | gateway-go/internal/upstream/kit_peer.go:96-113 | In the output text, erasing the line after every mid line with a positive port in force gives back the input text, for every input |
| SdpProofs.RewriteIsInjective | gateway-go/internal/upstream/kit_peer.go:91-116 | No two offers are rewritten to the same text |
| SdpProofs.InjectionIsExact | gateway-go/internal/upstream/kit_peer.go:96-113 | Line by line: kept in place, and followed by an injection if and only if it starts with `a=mid:` and the most recent m= port that scanned is positive; the injected text, to the character |
| SdpProofs.MediaPortIsSecondField | gateway-go/internal/upstream/kit_peer.go:98-103 | Whatever white space there is between and around the fields of a line, the port is scanned from the second one, if there is one |
| SdpProofs.ScanIntReads | gateway-go/internal/upstream/kit_peer.go:102 | A sign and digits are read as their number whatever follows, unless it is out of 64 bits |
| SdpProofs.ScanIntNeedsDigits | gateway-go/internal/upstream/kit_peer.go:102 | Without digits there is no number |
| SdpProofs.InjectionNamesPort | gateway-go/internal/upstream/kit_peer.go:109-112 | The injected line has eight fields and its sixth scans back to that port |
| SdpProofs.RewriteSplitsBack | gateway-go/internal/upstream/kit_peer.go:92-115 | Splitting the output again yields exactly the lines that were built |
| SdpProofs.RewriteIsIdentityExactly | gateway-go/internal/upstream/kit_peer.go:109-112 | The rewrite changes nothing if and only if no mid line has a positive port in force |
| SdpProofs.RewriteIsNotIdempotent | gateway-go/internal/upstream/kit_peer.go:83-90 | A second rewrite changes nothing if and only if no mid line of the original has a positive port in force |
| SdpProofs.CandidateIsRepeated | gateway-go/internal/upstream/kit_peer.go:109-112 | A section that already has the very candidate after its mid line gets it again, for every port |
| Upstream.KitPeer.OnTrack | gateway-go/internal/upstream/kit_peer.go:40-47 | A track is dropped only when four are queued; what was and will be handed on stays a subsequence of the arrivals, the rest counted as dropped; a send after Close panics |
| Upstream.KitPeer.Receive | gateway-go/internal/session/session.go:209-215 | Hands on the oldest queued track |
| Upstream.KitPeer.Close | gateway-go/internal/upstream/kit_peer.go:134-143 | Closes once however often it is called |
| Upstream.NothingDropped | gateway-go/internal/upstream/kit_peer.go:40-47 | As long as nothing was dropped, what was handed on and what is queued are all arrivals, in order |
| Upstream.BrowserPeer.ReplaceOrAddTrack | gateway-go/internal/session/session.go:576-595 | Replaces on the first transceiver of the kind that has a sender, adds one if there is none, and changes nothing on failure |
| Upstream.AttachTouchesOne | gateway-go/internal/session/session.go:577-594 | Only the first transceiver of the kind that has a sender gets the track; without one a transceiver is added; and a failure changes nothing |
| Upstream.OneSenderPerKind | gateway-go/internal/session/session.go:576-595 | After any run of attachments each kind has one transceiver, carrying the last track accepted for it |
| Upstream.AttachTracks | gateway-go/internal/session/session.go:209-215 | The loop over the channel attaches every track it receives with its kind, in order, up to the number asked for or the end of the queue |
| Upstream.TracksReachTheBrowser | gateway-go/internal/session/session.go:209-215 | When the tracks handed on were attached in order, each kind has one sender carrying the last accepted track of its kind, and the accepted tracks are a subsequence of the arrivals |
| Relay.Forward | gateway-go/internal/relay/forwarder.go:30-56 | The sink holds exactly the first `count` packets in order; the loop ends at the first round that must end it, with that round's error, each error if and only if its cause holds; packets taken are `count`, or one more if the sink refused |
| NodeProxy.Handler.OnUpstreamOpen | gateway/main.js:74-79 | The flush loop sends the whole buffer in order and empties it: all the client has said is now sent |
| NodeProxy.AlwaysConserved | gateway/main.js:71-98 | After any events: received from the client = sent upstream ++ buffer, in order; sent to the client is a prefix of what upstream sent, all of it while the client is open |
| NodeProxy.BufferedForGood | gateway/main.js:92-98 | Once upstream is closing nothing more is sent and the buffer only grows |
| NodeProxy.ClientFollowsUpstream | gateway/main.js:84-87 | When upstream has closed, the client is closed too and stays so, whatever follows |
| NodeProxy.NothingForTheGone | gateway/main.js:81-83 | Once the client is not open nothing more is sent to it |
| NodeProxy.WhoeverLeaves | gateway/main.js:99-102 | A client that leaves takes an open upstream socket down for good; one that leaves while upstream is still connecting does not: upstream opens and stays open until its own side ends it |
| NodeProxy.OpensAndStaysOpen | gateway/main.js:71-79 | And everything that client had said is then sent, first and in order |
| Grid.GridShape | isaaclab-patches/replay_common.py:222-223 | For every num >= 1: columns <= rows <= columns + 2, room for everybody, last column in use, rows <= num |
| Grid.MeshAt | isaaclab-patches/replay_common.py:224 | The flattened mesh at k holds k mod rows and k div rows |
| Grid.OriginsAreApart | isaaclab-patches/replay_common.py:219-227 | Any two origins are at least the spacing apart |
| Grid.NeighboursAreNear | isaaclab-patches/replay_common.py:225-226 | The next origin of a line, and the neighbour in the next line, are exactly the spacing away along one axis |
| Grid.BoxIsCentred | isaaclab-patches/replay_common.py:225-226 | The bounding box is exactly centred on zero: all inside, all four sides reached |
| Grid.FullGridIsCentred | isaaclab-patches/replay_common.py:219-227 | When rows times columns is num, both coordinates sum to zero |
| Camera.CameraFollower.Tick | isaaclab-patches/replay_common.py:284-298 | The target is the approach of all centroids seen so far, the first one taken over; the eye stands at the fixed offset |
| Camera.LagIsBounded | isaaclab-patches/replay_common.py:284-291 | If the centroid moves at most v a tick on an axis, the lag on it never exceeds v (1 - alpha) / alpha |
| Camera.ErrorDecays | isaaclab-patches/replay_common.py:291 | With a still centroid the error after n ticks is (1 - alpha)^n of what it was |
| Camera.TargetStaysInRange | isaaclab-patches/replay_common.py:287-291 | The target never leaves the range of the centroids seen |
| Checkpoint.NameShowsStamp | isaaclab-patches/replay_common.py:119-120 | A name reads YYYY-MM-DD_HH-MM-SS: every field is at its place and reads back, with the separators between |
| Checkpoint.NameOrderIsTimeOrder | isaaclab-patches/replay_common.py:115-121 | Names that start with a zero-padded stamp sort as their times do; equal stamps by what follows |
| Checkpoint.LatestRunIsNewest | isaaclab-patches/replay_common.py:131-135 | With distinct stamps the run chosen is newer than every other |
| Checkpoint.NumberedPaths | isaaclab-patches/replay_common.py:140-142 | A path has an iteration if and only if it ends in `model_<digits>.pt` |
| Checkpoint.WrittenIterations | isaaclab-patches/replay_common.py:140-142 | The iteration written into a name is read back, for every number |
| Checkpoint.SortIsStable | isaaclab-patches/replay_common.py:143 | The sort is ascending by iteration, keeps every path and the order of ties |
| Checkpoint.ModelNames | isaaclab-patches/replay_common.py:136 | The pattern `model_*.pt` matches exactly the names with those two ends |
| Checkpoint.ResolveFails | isaaclab-patches/replay_common.py:122-138 | A named checkpoint is returned as it is; which of the three errors, each if and only if its cause holds |
| Checkpoint.ResolveChooses | isaaclab-patches/replay_common.py:131-146 | Otherwise a model file of the last run with the highest iteration there, the last listed among ties, unnumbered only if none is numbered |
| ControlLoop.RunReplay | isaaclab-patches/replay_common.py:409-438 | Every applied action is the policy's answer to the observation of the robot and the last actions at the last decision time; robot and last actions follow from it, with a reset every 30 steps; the policy ran ceil(n / decimation) times; the camera saw the fleet after every step |
| ControlLoop.OneHistory | isaaclab-patches/replay_common.py:422-438 | That description admits one history only |
| ControlLoop.ActionsAreFresh | isaaclab-patches/replay_common.py:423-437 | No action computed before a reset is applied after it, for all steps, if and only if the decimation divides 30 |
| ControlLoop.StaleAfterReset | isaaclab-patches/replay_common.py:324 | Every run with the default decimation of 4 applies, in steps 30 and 31, the decision it took on the state at step 28, before the reset at 30 |
| ControlLoop.DecisionSees | isaaclab-patches/replay_common.py:424-437 | When it divides 30, a decision sees the action applied last as the reset just before it left it |
| ControlLoop.DecisionUses | isaaclab-patches/replay_common.py:424-437 | So the next action is the policy's answer to the world after the last action and that action, both as the reset left them when there was one |
| ControlLoop.DecisionSeesLastAction | isaaclab-patches/replay_common.py:357-360 | An adapter that does not reset sees its last action whatever the decimation |

## Left out

- Frames and names are strings of Unicode characters: invalid UTF-8, and digits or letters outside ASCII where a regular expression or a scanner would accept them, are not part of the model.
- A JSON number keeps its literal: float64 rounding beyond 2^53, overflow, and the re-formatting of fractions and exponents by json.Marshal are not modelled, so values with such numbers come back with the literal they had.
- Case-insensitive matching of struct field names and the nesting limit of encoding/json.
- Reals stand for floats in the grid and the camera; `sqrt` and `ceil` are exact.
- Pion, ICE, DTLS, SRTP, TURN and the WebSocket libraries: each answer is a free choice of the environment. Assumed is only that reads and writes on a closed connection fail and that a write under its mutex is one step.
- The waits of `bridgeBrowserOffer` are one free choice to go on or to be cancelled; timers have no length.
- OnClose is one step: cancelling the context and closing the two media peers are not interleaved with others.
- Errors of a hook: the hooks of the session never return one, so the pump's branch for them is not modelled.
- The effects of answers and candidates on the media peers (`SetRemoteDescription`, `SetAnswer`, `AddCandidate`) do not come back to the signalling state and are not modelled.
- ICE callbacks may come at any time, as the first steps of a schedule do; the callback with a nil candidate does nothing and is not an event.
- Nvst.Message.SetSDP: storing into a nil map (after parsing `null`) panics in Go; the model asks for a real map.
- Nvst.Message.SetPeerMsgInner: the nested map is a value, so a caller that keeps its own reference to it through Raw() is not modelled.
- The branches of the builders for another key order: the constant that selects them is true.
- `HandleOffer` does not call `rewriteKitOffer`; the rewrite stands for itself.
- The Node proxy's messages are texts: whether a message is text or binary is not modelled, and main.js passes on only the data.
- SessionObject.Session.Pump: the waits in the once and the number of frames are bounded by arguments; a pump that runs out of them is left at its read or at the once.
- Upstream.KitPeer.OnTrack: says that a send after Close panics; what the panic does to the process is not modelled.
- The camera's offset, computed from the number of robots and the spacing, is given.
- The directory listings of checkpoint selection are given; races with a running training are not modelled, nor is a path that is not a listing of its root.
- ControlLoop.RunReplay: observations, policy and simulation are arbitrary functions; a decimation of zero, which fails in the source, is excluded.
- `safeCloseCode`, `parseListenAddr`, logging, `drainRTCP`, HTTP and environment set-up, scene building, argument parsing, the user interface and the deployment files: settled by reading one branch, or without state.
