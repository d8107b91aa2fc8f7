# BACpypes3 protocol core, modelled and proved in Dafny

BACpypes3 implements the BACnet stack of ANSI/ASHRAE Standard 135. This project models the four
parts of it that carry the protocol logic and proves what they promise.

**Segmentation** (`bacpypes3/appservice.py`). `Segmentation`, `ClientSteps` and `ServerSteps` give
every handler of the client and the server transaction machine as a function from state and PDU to
state, effects and whether it raised. `AppService` is the same code in its own form: transactions
are objects whose handlers change their fields, with the access point that finds them in its two
lists; every method is proved to do what its function says. What the runs of these functions
promise is proved in several settings.

- `Delivery`: a network that loses, repeats and reorders, with timeouts and retries on both sides,
  sends that the network refuses, and new server transactions at any time. What is handed up is
  what was sent, exactly when the segment that opened the receiver looks like segment 0.
- `Completion`: the same network. Exactly up to `255 / w * w + 1` segments for window `w` does a
  client conclude that its request has arrived only when it has.
- `Windows`, `Rounds`, `Stream`, `Transfers`: FIFO channels that lose messages, with timeouts.
  `Windows` and `Rounds` argue on segment numbers, `Stream` shows that a link of two machines is
  described by them, `Transfers` states the results for the machines: completion is sound, one
  resend repairs a window, and a lossless transfer succeeds exactly up to
  `w * (254 / w + 1) + 1` segments for window `w`, which is where the mod 256 number stops being
  a segment index.
- `ClientLife`, `ServerLife`: one transaction against any peer. Exactly one outcome, which requests
  come to an end and how soon, at most one request forwarded.
- `Requests`: what a client sends, in every run: its request, whole if the peer accepts that, and
  otherwise in the longest pieces that it accepts, or nothing and why.
- `Outcomes`: which result it reports, for which input, in which state it ends, and how often it
  tries.
- `Answers`: what a server sends, in every run: what the application answers, as far as the request
  that opened the transaction says that the client takes it.
- `AnswerTransfers`: a segmented answer without loss is handed up as it was given exactly up to the
  same capacity, and what the server sends again when something is lost.
- `Moves`: a table of what both machines send and hand up on every input, in which order, in which
  state they then are and which timer runs.
- `Receivers`: a receiver with numbers mod 256 against one that counts without bound, for APDUs
  of any length.
- `Limits`: promises the code does not keep in general, with the exact conditions.

**Schema-directed codec** (`bacpypes3/constructeddata.py`). `Schemas` says what sequences, choices,
lists and any-elements encode to and what their decoders do to a tag list, failures and stale
look-aheads included. `RoundTrips` proves that a value comes back whenever the next tag tells the
decoder what to do, all along the value. `Determinism` says in which schemas it does so by the
schema alone, and which of their values come back: exactly those in which an optional choice or
list is absent only where nothing follows it. `Prefixes` proves what decoders do to any input.
`Soundness` proves the other direction: what is accepted is an encoding, so that a deterministic
schema accepts exactly the encodings of those values. `ApplicationTags` says with literal numbers
which application tags are taken for which, skipped and refused.
`Codec` is the imperative form, popping and deleting from a tag list, proved against `Schemas`.

**Router** (`bacpypes3/netservice.py`). `RouterCache` is the class with the two maps, every method
against the meaning of the update for the paths. `Routing` is `process_npdu` and the routing part of
`indication`, as functions and as a class. `Forwarding` proves that forwarding ends on any graph.
`Journeys` follows a message between two stations and the answer back, on networks in levels.
`Conversations` proves that this is all that happens there, whatever arrives when, so that nobody
else is handed anything. `Trees` proves that a tree whose caches point towards the target is in
levels, with the distance from the target as the level. `StaleCaches` is the example of an answer
that is lost. `Broadcasts` says what one node does with each kind of destination, `GlobalBroadcasts`
that a global broadcast reaches every application on a tree of networks exactly once, and
`RemoteBroadcasts` that a broadcast for another network reaches all there and nobody else.

**Smaller parts.** `Applications` (invoke IDs and the device cache of `bacpypes3/app.py`), `Apdus`
(the length tables of `bacpypes3/apdu.py`), `Buffers`, `Headers` and `NetworkHeaders` (the octet
buffer and the APDU and NPDU headers and messages of `bacpypes3/pdu.py`, `bacpypes3/apdu.py` and
`bacpypes3/npdu.py`), and `Octets` (where every field of them stands among the octets).

Where the code and its comments or documentation disagree, the model follows the code, except that
`RemovePathInfo` reads the undefined name at `bacpypes3/netservice.py:330` as the intersection that
the comment above it announces. A network that refuses a send is a Boolean parameter of each
handler; timers and the order of arrivals are choices of the run.

`dafny verify dfyconfig.toml` checks the whole project.

## Model

| member | source | states |
|---|---|---|
| Apdus.EncodeMaxSegments | bacpypes3/apdu.py:167-183 | the code is the largest table entry not above the number, 0 for none and for unknown, 7 for more than 64, and an error exactly for one segment |
| Apdus.EncodeMaxApduLength | bacpypes3/apdu.py:216-223 | the code is the largest table entry not above the length, an error exactly below 50 |
| Segmentation.CountSegments | bacpypes3/appservice.py:477-485 | at least one piece, and the smallest number of pieces of that size that hold the data |
| Segmentation.GetSegment | bacpypes3/appservice.py:241-332 | segment i carries exactly the i-th slice of the data, number i mod 256, and more-follows for all but the last |
| Pieces.AssembledAll | bacpypes3/appservice.py:241-347 | the pieces a sender cuts, appended in order, are the whole data |
| Pieces.AssembledWhole | bacpypes3/appservice.py:334-347 | opened by piece k, a receiver that took all later pieces holds the data if and only if piece k equals piece 0 |
| Delivery.NextPiece | bacpypes3/appservice.py:1365-1388 | with at most 256 pieces the next expected number mod 256 is the next piece, and appending it extends the assembled prefix |
| Delivery.ApplyInv | bacpypes3/appservice.py:1599-1662 | every event of a lossy, duplicating, reordering network, every timeout, retry, refused send and new server transaction keeps the invariant: on the wire only pieces in their places, in receivers only opened assemblies |
| Delivery.RequestsArriveWhole | bacpypes3/appservice.py:1364-1403 | in every run, a request handed to the application carries the client's data if and only if its opening segment had the contents of segment 0 |
| Delivery.AnswersArriveWhole | bacpypes3/appservice.py:889-924 | the same from server to client |
| Completion.ApplyGoesOn | bacpypes3/appservice.py:657-678 | until a request is handed up every event keeps server acks at ends of groups before the last segment and the client's window at the start of a group, unless the client concludes early and its last window goes past 255 |
| Completion.ConcludesSoundly | bacpypes3/appservice.py:669-678 | whatever is lost, repeated and late, and whichever timers of the client and the server expire, a client whose last window does not go past 255 awaits its confirmation only when a request has been handed up |
| Completion.MayConcludeEarly | bacpypes3/appservice.py:1427-1432 | otherwise there is a run in which it does so too soon, with nothing handed up: a server that gives up at the last window is followed by one that acknowledges a segment of it with number 0, which is in that window |
| Completion.ConcludesSoundlyExactly | bacpypes3/appservice.py:657-678 | a client never concludes early if and only if its request has at most 255 / w * w + 1 segments |
| Windows.StepInv | bacpypes3/appservice.py:651-678 | segments, acks, timeouts and losses keep the place of the server's group number at the client's window start minus one or one window further |
| Windows.CompletionIsSound | bacpypes3/appservice.py:651-678 | over lossy FIFO channels the client never asks for a segment that does not exist, and is done only when the server has taken segments 0 to n-1 once each in order |
| Rounds.FreshSegments | bacpypes3/appservice.py:1365-1418 | segments of a window in order are all taken, and only the last is acknowledged |
| Rounds.AcksMoveOn | bacpypes3/appservice.py:657-678 | one ack in the window moves the client exactly one window on, or completes it, whatever old acks surround it |
| Rounds.Resynchronises | bacpypes3/appservice.py:734-749 | after any loss in a window, the first included, one loss-free resend makes the server hold all of it, and the client moves past it if and only if the server had not handed the request up before |
| Rounds.TransferWithin | bacpypes3/appservice.py:360-378 | within the capacity, one exchange for segment 0 and one per window end the transfer; each segment is sent and taken once, in order, and each group is acknowledged once, by its last segment |
| Rounds.Beyond | bacpypes3/appservice.py:675-677 | beyond the capacity the client's number starts over and the server counts at least one lap of 256 too many |
| Rounds.TransferSucceedsWithinCapacity | bacpypes3/appservice.py:360-378 | lossless lockstep delivers segments 0 to n-1 once each if and only if n is at most w * (254 / w + 1) + 1 |
| Stream.FillView | bacpypes3/appservice.py:360-378 | filling a window sends exactly segments base to the end of the window or of the APDU, each with its own slice, and notes when the last has gone |
| Stream.StepSim | bacpypes3/appservice.py:651-749 | a step of a client and a server machine with what is between them is a step of the segment-number view |
| Transfers.ClientMovesOnlyWhenServerHasAll | bacpypes3/appservice.py:669-678 | whenever the client machine has left SEGMENTED_REQUEST, the server has handed up the request exactly as it was sent |
| Transfers.ResendRepairs | bacpypes3/appservice.py:734-749 | wherever a run has emptied both channels, before the first ack or after it, a timeout and a loss-free resend repair the window of the machines; the client moves on if and only if the request had not been handed up |
| Transfers.HandedUpBefore | bacpypes3/appservice.py:1391-1403 | when the ack of the second of two segments is lost, the request has been handed up and no resend moves the client |
| Transfers.TwoSegmentsAreHandedUpBefore | bacpypes3/appservice.py:1391-1403 | two devices and a request with which that happens |
| Transfers.LosslessTransfer | bacpypes3/appservice.py:651-678 | without loss the request is handed up as sent if and only if its segment count is within the capacity of the agreed window, and then both machines end with nothing under way |
| Transfers.LosslessEnd | bacpypes3/appservice.py:651-678 | the end in AWAIT_CONFIRMATION and AWAIT_RESPONSE, the number of exchanges, every segment sent once in order, and one ack for each group |
| ClientLife.ExactlyOneOutcome | bacpypes3/appservice.py:644-951 | for every request and against any peer the application has got one result if the machine has finished and none before, except if and only if the network refused the abort for a PDU the state had no use for; a request that settles starts at most retries + 1 times |
| ClientLife.SilencedExactly | bacpypes3/appservice.py:644-951 | a step ends an unfinished machine without a result if and only if the network refuses the abort for an ack before all is sent, for an answer that does not start at segment 0, or for anything but a segment of the answer while that comes in |
| ClientLife.TimeoutGood | bacpypes3/appservice.py:734-755 | every expiry leaves an armed timer and less fuel, or ends the transaction with one report, unless it starts a request again that cannot be sent, which puts the retry count back to 0 |
| ClientLife.AlwaysEnds | bacpypes3/appservice.py:536-549 | for a request that settles, an unfinished machine has an armed timer, and k PDUs from the peer allow at most (k + 1)(2 * retries + 2) expiries |
| ClientLife.EndsExactly | bacpypes3/appservice.py:536-574 | every run of a request ends so if and only if the request can be cut and is not one that fits in one PDU which cannot be built while there are retries |
| ClientLife.RaisesExactly | bacpypes3/appservice.py:536-574 | starting a request raises if and only if it cannot be cut, or is not refused and no segment of it can be built: no size, a maximum of one segment, or of fewer than 50 octets |
| ClientLife.NeverEnds | bacpypes3/appservice.py:841-863 | such a request is started again at every expiry, for ever, and nothing is reported, because the start raises after it has put the retry count back to 0 |
| ClientLife.OneSegmentNeverEnds | bacpypes3/appservice.py:841-863 | a device that accepts one segment does that with any request of up to 480 octets |
| ClientLife.NeverBegins | bacpypes3/appservice.py:477-485 | a request that cannot be cut leaves its machine idle without a timer, whatever comes |
| ServerLife.ForwardsAtMostOnce | bacpypes3/appservice.py:1298-1403 | whatever the client repeats, one server transaction forwards at most one request, and none until it is complete |
| ServerLife.SpoilsExactly | bacpypes3/appservice.py:1050-1175 | an answer leaves a transaction that can go on, unless it is a complex one that comes while the request does, and cannot be cut or is refused by the network |
| Requests.CodesAreRight | bacpypes3/apdu.py:167-223 | the codes by which a request says how many segments and how many octets its sender takes, for every number of either |
| Requests.SendsWhatIsAccepted | bacpypes3/appservice.py:430-574 | in every run every request PDU that is sent has at most the octets that the peer and the way to it are known to carry, or the device itself while the peer is not known; it is the whole request exactly when that fits, and otherwise a piece of it, in its place and with the codes of the device, sent only if the device transmits segments and a known peer receives them and as many |
| Requests.StartsSo | bacpypes3/appservice.py:450-574 | what starting a request does: sent whole, begun in pieces, refused with reason 4 or 11 in that order, or an error when the network refuses the first PDU |
| Outcomes.EveryStepIsDue | bacpypes3/appservice.py:644-951 | in every run and for every next input the transaction goes on without a word or ends in the state and with exactly the results that a table gives: the very PDU that came, the answer put together, an abort with its own ID and the literal reason, or the error of a refused send |
| Outcomes.AnswerIsJoined | bacpypes3/appservice.py:889-924 | while an answer comes in the machine holds what the segments since the one that opened it make up, each taken when it is the next |
| Outcomes.EveryResult | bacpypes3/appservice.py:644-951 | the results of every run that has ended are those of its start, or those that were due on one input of it |
| Outcomes.SilentPeer | bacpypes3/appservice.py:841-863 | a request that may be sent is sent once, and once again at each expiry as long as there are retries, always as its first PDU; then the application is told that there was no response |
| Answers.CodesMean | bacpypes3/apdu.py:186-238 | what the two codes of a request mean, in numbers |
| Answers.OpenerIsKept | bacpypes3/appservice.py:1218-1338 | whatever happens, a server transaction keeps what the request that opened it says of its client |
| Answers.AnswerIsDue | bacpypes3/appservice.py:1050-1175 | in every run what goes out for an answer is what is due by the request that opened the transaction: whole if the client takes it so, its first piece if the device and the client do segments and the pieces are as few as the client said, and otherwise the abort with reason 4 or 11 |
| Answers.SendsWhatIsTaken | bacpypes3/appservice.py:1050-1175 | every complex answer that is sent in a run is one that the application gave, whole or in pieces that the client takes, and no longer than it takes |
| AnswerTransfers.AnswerOpens | bacpypes3/appservice.py:1157-1170 | an answer that goes out in pieces starts with its first piece and the window that the device proposes |
| AnswerTransfers.AckMovesServer | bacpypes3/appservice.py:1463-1503 | the ack of segment 0 or of the end of a window makes the server send the next window: exactly the segments from the next number on, each with its own slice |
| AnswerTransfers.TimeoutResends | bacpypes3/appservice.py:1505-1525 | a timeout sends exactly the window once more, or segment 0 before the first ack, and uses up one retry; without one the transaction is given up |
| AnswerTransfers.AnswerWithin | bacpypes3/appservice.py:865-944 | within the capacity of the window an answer without loss is over on both sides after one exchange for segment 0 and one for each window, and is handed up as it was given |
| AnswerTransfers.LosslessAnswer | bacpypes3/appservice.py:865-944 | without loss an answer is ever handed up as it was given if and only if the number of its segments is at most w * (254 / w + 1) + 1 |
| Moves.ClientMovesAsDue | bacpypes3/appservice.py:644-944 | what a client sends and hands up on every PDU, in which order, its next state and its timer, with literal reasons and flags, but for the segments of the next window |
| Moves.ClientOpens | bacpypes3/appservice.py:690-716 | the first segment of an answer opens the client, with the window that the segment proposes when the answer was awaited and with the smaller of that and its own before |
| Moves.ClientExpires | bacpypes3/appservice.py:604-628 | the same when its timer expires |
| Moves.StartsTimer | bacpypes3/appservice.py:536-574 | which timer runs after the start |
| Moves.ServerMovesAsDue | bacpypes3/appservice.py:1218-1503 | what a server sends and hands up on every PDU, likewise |
| Moves.ServerOpens | bacpypes3/appservice.py:1303-1338 | a segment of a request opens the server, with the smaller window of the two |
| Moves.ServerExpires | bacpypes3/appservice.py:1177-1204 | the same when its timer expires |
| Moves.AnswersTimer | bacpypes3/appservice.py:1050-1175 | which timer runs after an answer |
| Moves.WindowsAreGranted | bacpypes3/appservice.py:303-320 | the segments that an ack calls for carry the window that it grants, in both directions |
| Moves.ServerIsQuiet | bacpypes3/appservice.py:1037-1048 | what the network refuses is not sent, and nothing else in its place |
| Receivers.ServerTakes | bacpypes3/appservice.py:1364-1425 | one segment at a server with numbers mod 256 does what it does at a receiver that counts without bound, the ack, the nak of the last group and what is handed up included |
| Receivers.ClientTakes | bacpypes3/appservice.py:889-944 | the same at a client, which naks with its last segment |
| Receivers.ServerTakesExactly | bacpypes3/appservice.py:1365-1388 | that holds if and only if the segment is not a nonzero multiple of 256 places from the expected one |
| Receivers.ClientTakesExactly | bacpypes3/appservice.py:890-910 | the same at a client |
| Receivers.ServerRefines | bacpypes3/appservice.py:1364-1425 | so do whole runs, for APDUs of any length |
| Receivers.ClientRefines | bacpypes3/appservice.py:889-944 | the same for clients |
| Receivers.LongRequestsArriveWhole | bacpypes3/appservice.py:1383-1403 | a server machine opened by segment 0 hands up a request of any number of segments exactly as it was cut, once, if it reaches the end, and nothing otherwise, whatever is lost, late or repeated, as long as no segment that comes is a nonzero multiple of 256 places from the expected one and the network accepts the acks |
| Receivers.LongAnswersArriveWhole | bacpypes3/appservice.py:905-924 | the same for answers at a client machine, on the same conditions |
| Receivers.InWindowIsMembership | bacpypes3/appservice.py:349-358 | in_window is membership in the true window for an ack less than 256 ahead and at most 256 minus the window behind |
| Receivers.InWindowNoFurther | bacpypes3/appservice.py:349-358 | one place further either way it is not |
| Limits.AnySegmentOpens | bacpypes3/appservice.py:1303-1338 | a server transaction opened by any segment k completes with segments 1 to the last, and its request is right if and only if segment k has the contents of segment 0 |
| Limits.ZeroIsTakenAgain | bacpypes3/appservice.py:1383-1403 | a server whose last ack was refused takes segment 0 again, and holds something other than the request, if and only if the number of segments is a multiple of 256 |
| Limits.RequestTwiceOver | bacpypes3/appservice.py:1298-1403 | a run from IDLE of 256 segments, the last ack refused, and all segments once more hands up the request twice over |
| Limits.FinishedIsDelivered | bacpypes3/appservice.py:1482-1485 | a server that has sent everything finishes on any ack of its last window, and a receiver that has put together what it acked then has everything if and only if the ack was of the very last segment |
| Limits.FinishedByAck | bacpypes3/appservice.py:889-944 | the same of the two machines, after any run of the client over lost, late and repeated segments: its next ack finishes the server if and only if it is of the last window, and the answer is handed up whole with it if and only if it is of the very last segment |
| Limits.ServerFinishesEarly | bacpypes3/appservice.py:890-903 | one lost segment in the last window is enough: the nak finishes the server while the client waits |
| AppService.SendWindow | bacpypes3/appservice.py:360-378 | the loop sends exactly the segments of the window, stops at the last one and at the first thing that raises, and sends nothing when the network refuses |
| AppService.ClientSSM.SetState | bacpypes3/appservice.py:201-231 | the old timer is gone, the new one runs, and a finished transaction is in the list no longer |
| AppService.ClientSSM.Indication | bacpypes3/appservice.py:430-574 | the state, what is sent and reported, and the list, of a request that is refused, sent whole or begun in segments |
| AppService.ClientSSM.SegmentedRequest | bacpypes3/appservice.py:644-732 | the same for every PDU while the request goes out |
| AppService.ClientSSM.SegmentedRequestTimeout | bacpypes3/appservice.py:734-755 | the window is resent and one retry used up, or the transaction aborted and reported |
| AppService.ClientSSM.AwaitConfirmation | bacpypes3/appservice.py:757-839 | the same for every PDU while the answer is awaited |
| AppService.ClientSSM.AwaitConfirmationTimeout | bacpypes3/appservice.py:841-863 | the request starts again and the retry count survives, or the transaction is aborted and reported |
| AppService.ClientSSM.SegmentedConfirmation | bacpypes3/appservice.py:865-944 | the same for every PDU while the answer comes in |
| AppService.ServerSSM.Idle | bacpypes3/appservice.py:1218-1338 | a request is forwarded whole, opens a segmented one, or is refused; a reserved length code raises |
| AppService.ServerSSM.SegmentedRequest | bacpypes3/appservice.py:1340-1425 | a segment is taken, acked at the end of its group, or nakked, and the last one forwards the request |
| AppService.ServerSSM.Confirmation | bacpypes3/appservice.py:1050-1175 | an answer ends the transaction, is sent whole, begun in segments, or refused |
| AppService.ServerSSM.SegmentedResponse | bacpypes3/appservice.py:1463-1503 | an ack sends the next window, ends the transaction or is ignored |
| AppService.ServerSSM.SegmentedResponseTimeout | bacpypes3/appservice.py:1505-1525 | the window is resent and one retry used up, or the transaction given up without a word |
| AppService.ApplicationServiceAccessPoint.RequestToServer | bacpypes3/appservice.py:1646-1662 | a request goes to the one live transaction for its peer and invoke ID, which is new if and only if there was none; nothing else moves and both lists stay exact |
| AppService.ApplicationServiceAccessPoint.Confirmation | bacpypes3/appservice.py:1599-1749 | a PDU from the network moves exactly the transaction with its peer and invoke ID, or none, or opens the one new transaction; what that transaction then is, and the lists hold exactly the unfinished transactions, each once, with one server transaction per peer and invoke ID, none of which has forwarded two requests |
| AppService.ApplicationServiceAccessPoint.SapIndication | bacpypes3/appservice.py:1785-1819 | a confirmed request starts one new client transaction, an unconfirmed one goes down at once and its refusal is ignored |
| AppService.ApplicationServiceAccessPoint.SapConfirmation | bacpypes3/appservice.py:1868-1899 | an answer moves exactly the server transaction it matches or nothing; the lists and their transactions stay as they should be if and only if the answer does not spoil a request that is still coming in |
| AppService.ApplicationServiceAccessPoint.ClientTimerExpired | bacpypes3/appservice.py:604-628 | a timeout of a client transaction keeps the lists exact |
| AppService.ApplicationServiceAccessPoint.ServerTimerExpired | bacpypes3/appservice.py:1177-1204 | a timeout of a server transaction keeps the lists exact and its one forwarded request |
| RoundTrips.EncodingStarts | bacpypes3/constructeddata.py:399-436 | the first tag of an encoding is one its schema can start with |
| RoundTrips.RoundTrip | bacpypes3/constructeddata.py:399-583 | for every schema, value and rest, decoding the encoding and that rest gives the value and leaves exactly the rest, when the next tag shows each present field, skips each absent one, singles out the chosen alternative and ends each list |
| RoundTrips.ElementsRoundTrip | bacpypes3/constructeddata.py:471-572 | the element loop finds present fields and skips absent ones, judged by the value's own tags, one look-ahead at a time |
| RoundTrips.AlternativesRoundTrip | bacpypes3/constructeddata.py:829-890 | the alternative loop passes over every earlier alternative and takes the encoded one |
| RoundTrips.ItemsRoundTrip | bacpypes3/constructeddata.py:1134-1166 | the list loop finds every item and stops at the end, or at a tag that its element refuses |
| RoundTrips.GroupIsFound | bacpypes3/constructeddata.py:1744-1770 | on balanced input Any.decode removes exactly the first bracketed group |
| Determinism.DeterministicRoundTrip | bacpypes3/constructeddata.py:399-583 | in a deterministic schema, before the end, a closing tag or any tag that cannot belong to the value, a value comes back if and only if an optional choice or list is absent from it only where nothing follows |
| Determinism.TextMessageRoundTrip | bacpypes3/apdu.py:1373-1379 | a text message request, with any contents and whatever follows it, comes back if and only if it has its optional message class |
| Determinism.ReadAccessIsDeterministic | bacpypes3/basetypes.py:3631-3634 | the list that a ReadPropertyMultiple request carries is a deterministic schema |
| Prefixes.DecodeLeaves | bacpypes3/constructeddata.py:439-583 | on any tags at all, success or failure, a decoder only removes a prefix |
| Prefixes.DecodeConsumes | bacpypes3/constructeddata.py:439-583 | a schema that is tagged, has something required in it, or, where there is a tag to look at, an optional choice or tagged list, takes at least one tag when it succeeds |
| Prefixes.DecodeEnds | bacpypes3/constructeddata.py:1137-1166 | no loop runs for ever if list elements have to take a tag |
| Prefixes.LoopsExactly | bacpypes3/constructeddata.py:1137-1166 | a list of untagged sequences of atomics, tagged elements and choices can loop for ever if and only if every element is optional and neither a choice nor a list |
| Prefixes.InnerListLoops | bacpypes3/constructeddata.py:1137-1166 | a list of untagged lists loops if and only if the first inner one does or stops before anything but a closing tag or the end, as on every tag that is not for it |
| Prefixes.SkippedExactly | bacpypes3/constructeddata.py:492-546 | an absent optional element is skipped if and only if the next tag says so: never a choice or list, not a context atomic before an application tag of its kind, not a Double before a Real |
| Prefixes.TakenExactly | bacpypes3/constructeddata.py:492-546 | a present element is taken, with a fresh look at what follows, if and only if the next tag says so, or it is found on a copy and what follows looks the same |
| Prefixes.UntaggedIsNotTried | bacpypes3/constructeddata.py:843-850 | a choice tries no untagged alternative on a context or opening tag |
| Prefixes.UnclosedIsAccepted | bacpypes3/constructeddata.py:1748-1764 | Any.decode takes everything after an opening tag that is never closed |
| ApplicationTags.AtomicsRoundTrip | bacpypes3/constructeddata.py:492-572 | every sequence of required untagged atomics of the kinds 0 to 12 comes back, whatever its values and whatever follows, in brackets or not |
| ApplicationTags.DateTimeRoundTrip | bacpypes3/basetypes.py:1873-1876 | a date and a time come back |
| ApplicationTags.ReservedRaises | bacpypes3/primitivedata.py:3221-3238 | before the tag numbers 13 to 15 every atomic element raises a TypeError, and beyond an IndexError, which no decoder recovers from |
| ApplicationTags.ReservedRaisesInChoice | bacpypes3/constructeddata.py:853-870 | the same in a choice |
| ApplicationTags.AtomicChoiceRoundTrip | bacpypes3/constructeddata.py:829-890 | a choice of untagged atomics comes back at an alternative if and only if no earlier one is of the same kind, or a double before a real |
| ApplicationTags.OptionalBeforeRequired | bacpypes3/constructeddata.py:529-546 | an absent optional atomic is skipped before a value of another kind, and only then, a double before a real excepted |
| ApplicationTags.OptionalPresent | bacpypes3/constructeddata.py:529-546 | and when it is present it is taken |
| Soundness.DecodeIsSound | bacpypes3/constructeddata.py:439-583 | on any tags, a value that a decoder returns is complete and encodes to exactly the tags that were taken, for every schema without an optional sequence that has no context |
| Soundness.AcceptsExactly | bacpypes3/constructeddata.py:399-583 | what a deterministic schema decodes from a tag list: a value and a rest if and only if the tags are its encoding and that rest and an optional choice or list is absent only where nothing follows |
| Soundness.TagsAreLost | bacpypes3/constructeddata.py:547-560 | an optional sequence without a context can lose a tag and still be found absent |
| Soundness.AtomicExactly | bacpypes3/constructeddata.py:492-546 | which tags an atomic value is taken from, and that any other is taken off the list |
| Soundness.AnyExactly | bacpypes3/constructeddata.py:1717-1770 | which tags an any-element takes and refuses |
| Soundness.GroupEndsExactly | bacpypes3/constructeddata.py:1744-1770 | a group ends at the first closing tag that closes none within it, and fails if that has another number |
| Soundness.OpenGroupExactly | bacpypes3/constructeddata.py:1744-1770 | without one it takes all there is, or fails if a group within it is open |
| Codec.EncodeSequence | bacpypes3/constructeddata.py:399-436 | the loop appends every present element in order inside the brackets, and fails if and only if a required one is missing |
| Codec.EncodeChoice | bacpypes3/constructeddata.py:773-803 | the chosen element inside the brackets, an error if and only if there is none |
| Codec.EncodeList | bacpypes3/constructeddata.py:1086-1106 | every item in order inside the brackets |
| Codec.DecodeBody | bacpypes3/constructeddata.py:471-572 | the loop over a tag list that it pops from and deletes from does what the functional decoder does, for its result, its error and the tags left |
| Codec.DecodeCopy | bacpypes3/constructeddata.py:512-526 | an attempt on a copy changes nothing when it fails and removes exactly what it took when it succeeds |
| Codec.FindAlternative | bacpypes3/constructeddata.py:829-890 | the loop over the alternatives, likewise |
| Codec.FindItems | bacpypes3/constructeddata.py:1134-1166 | the loop over the items, likewise |
| Codec.PopGroup | bacpypes3/constructeddata.py:1744-1770 | the scan for the matching closing tag, likewise |
| Codec.CastRoundTrip | bacpypes3/constructeddata.py:1772-1847 | what is cast into an Any is cast out of it again |
| Codec.CastIsGroup | bacpypes3/constructeddata.py:1772-1792 | in an Any with a context, whatever value that can be told is cast in, its tags are one group with balanced brackets, so it survives being sent |
| Codec.AnyElement.CastIn | bacpypes3/constructeddata.py:1772-1792 | the element holds the encoding in its brackets, and keeps its old tags if the value cannot be encoded |
| Codec.AnyElement.CastOut | bacpypes3/constructeddata.py:1794-1847 | the value is decoded from a copy, the element keeps its tags |
| RouterCache.RouterInfoCache.UpdatePathInfo | bacpypes3/netservice.py:235-301 | the paths are those before with the announced networks through the announcing router, which lists them while the others no longer do, the two maps stay inverse, and the conflict errors cannot happen |
| RouterCache.RouterInfoCache.RemovePathInfo | bacpypes3/netservice.py:303-374 | exactly the paths through that router, or to those networks, are gone and off the lists; a router left with none is forgotten if it was named and kept otherwise; the maps stay inverse, and it raises if and only if it is told neither |
| RouterCache.RouterInfoCache.UpdateRouterStatus | bacpypes3/netservice.py:376-393 | exactly the paths through the router get the status |
| RouterCache.RouterInfoCache.UpdateSourceNetwork | bacpypes3/netservice.py:395-413 | every path from the old network is one from the new network, every router too, and the maps stay inverse if and only if they can be merged |
| RouterCache.RenumberInverse | bacpypes3/netservice.py:395-413 | renumbering keeps the two maps inverse if and only if every path of the new network is replaced exactly when the list of its router is, which an unused number meets |
| RouterCache.MergedExample | bacpypes3/netservice.py:395-413 | two adapters with a router each to one network: after one takes the number of the other the maps disagree |
| RouterCache.AnnounceInverse | bacpypes3/netservice.py:265-301 | an announcement keeps the two maps inverse |
| RouterCache.LastAnnouncerWins | bacpypes3/netservice.py:235-413 | after any run of updates, removals and renumberings included, there is a path if and only if some announcement of its network, under the number it then had, has neither been repeated nor taken away since, and it names the router of that announcement |
| RouterCache.NoPathUnannounced | bacpypes3/netservice.py:235-413 | and there is none to a network that nobody announced under any number it had |
| RouterCache.LastStatusWins | bacpypes3/netservice.py:235-413 | after any run of updates every path has the status that was last reported of its router while it led there, or is available since it was announced |
| RouterCache.UnlistedExactly | bacpypes3/netservice.py:303-374 | a removal through a router leaves it exactly when it lists a network that was not removed, and leaves the others as they are |
| Routing.NetworkServiceAccessPoint.ProcessNpdu | bacpypes3/netservice.py:857-1163 | what is learned, handed up, given to the service element and sent, for every kind of destination, and every path error |
| Routing.NetworkServiceAccessPoint.Indication | bacpypes3/netservice.py:655-827 | where a message of the application goes and what header it has |
| Routing.NetworkServiceAccessPoint.SearchPath | bacpypes3/netservice.py:1117-1127 | the first adapter in order that has a path |
| Forwarding.ForwardedCopies | bacpypes3/netservice.py:1031-1094 | no copy leaves on the adapter it came in on, each has one hop less, none is made at hop count 0, and the originator is set once |
| Forwarding.WeightFalls | bacpypes3/netservice.py:1049-1160 | the sum of F^(hop + 1) over the messages in flight falls at every arrival |
| Forwarding.ForwardingEnds | bacpypes3/netservice.py:857-1163 | in any graph, cycles included, and any order, no more arrivals can happen than that sum |
| Journeys.RouterStep | bacpypes3/netservice.py:1049-1160 | a router on the way learns the way back and sends one copy on, towards the target |
| Journeys.ReachesTarget | bacpypes3/netservice.py:912-926 | with hops for every level a message reaches the target, unicast, without DADR, with the originator's network and address as SADR |
| Journeys.FallsShort | bacpypes3/netservice.py:1042-1047 | with fewer hops it ends at a router and is handed to nobody |
| Journeys.LeavesTrail | bacpypes3/netservice.py:873-888 | afterwards the target has a path back, and every router on the way has one through the adapter and router the message came from if and only if no router on the route that the caches name has an older path on an earlier adapter |
| Journeys.HopLeadsBack | bacpypes3/netservice.py:1117-1127 | the same of one router |
| Journeys.FirstPath | bacpypes3/netservice.py:1117-1127 | the path through an adapter is the one the search finds if and only if no adapter before it has one |
| Journeys.AnswerReturns | bacpypes3/netservice.py:1117-1160 | an answer goes back along the same routers in reverse and is handed to the originator |
| Journeys.RequestAndAnswer | bacpypes3/netservice.py:655-1163 | request and answer between two stations, each from indication at its sender to the application of the other, when no router on the route has such an older path; the request sets out to the router if and only if the originator's cache names that router |
| Journeys.SmallestSetting | bacpypes3/netservice.py:655-1163 | a network of two stations and a router is such a setting |
| Conversations.TravelIsTraffic | bacpypes3/netservice.py:857-1163 | on any networks, in any order of arrivals, all traffic that a message for one station causes is its journey, and nothing is handed up but by the last node of it |
| Conversations.ReachesOnlyTarget | bacpypes3/netservice.py:912-926 | once the traffic of a message is over the target has been handed it and nobody anything else; before that nobody has been handed anything |
| Conversations.ReachesNobody | bacpypes3/netservice.py:1042-1047 | with too few hops nobody is handed anything |
| Conversations.OnlyTheTwoHear | bacpypes3/netservice.py:655-1163 | in any run of a request and of its answer only the target and then only the originator is handed anything |
| Broadcasts.GlobalGoesOn | bacpypes3/netservice.py:1049-1078 | with hops left a global broadcast leaves on every adapter but the one it came in on exactly once, as a local broadcast that keeps its destination, with one hop less and the originator as source |
| Broadcasts.HandedUpExactly | bacpypes3/netservice.py:890-1012 | for every kind of destination, when an application is handed a message and how it looks to it |
| Broadcasts.ServiceExactly | bacpypes3/netservice.py:1014-1026 | the service element gets a network layer message of a known type that is for the node or for none in particular, and nothing else |
| Broadcasts.UnknownStops | bacpypes3/netservice.py:1016-1026 | one of an unknown type for the node goes no further |
| Broadcasts.SearchesExactly | bacpypes3/netservice.py:1112-1146 | a router looks for a router exactly when it is to send on a message for a network to which it knows no way |
| Broadcasts.LocalStays | bacpypes3/netservice.py:893-901 | a message without a destination network goes no further |
| Broadcasts.LeavesHere | bacpypes3/netservice.py:712-794 | what an application sends to a station or to all on a network of its own leaves once, on that adapter, with the local station as source exactly if that is on another network |
| Broadcasts.HandedHere | bacpypes3/netservice.py:655-794 | and is handed to the applications that hear it there, once each, and to nobody else |
| GlobalBroadcasts.LeavesEverywhere | bacpypes3/netservice.py:724-747 | a global broadcast of an application leaves once on every adapter with that destination and 255 hops, with the local station as source on all but the local one |
| GlobalBroadcasts.ReachesEveryone | bacpypes3/netservice.py:655-1078 | on a tree of networks, whatever the caches and the order, every other application within 255 levels is handed it exactly once, in the name of the originator, and nobody else anything |
| GlobalBroadcasts.ReachesEveryoneOnSmallTrees | bacpypes3/netservice.py:655-1078 | which is everyone if there are at most 255 other routers |
| GlobalBroadcasts.SmallestRooted | bacpypes3/netservice.py:655-1078 | there is such a tree |
| RemoteBroadcasts.RouterPasses | bacpypes3/netservice.py:1080-1163 | a router on the way sends one copy of a broadcast for another network on, or hands it to all on its network as a local broadcast |
| RemoteBroadcasts.ReachesNetwork | bacpypes3/netservice.py:903-910 | on networks in levels it is handed to every application on that network exactly once, and to nobody else |
| RemoteBroadcasts.LeavesForRouter | bacpypes3/netservice.py:796-855 | what an application sends to another network goes to the router that the cache names, with that destination and 255 hops, and a router is looked for when it names none |
| RemoteBroadcasts.IssuedReachesNetwork | bacpypes3/netservice.py:655-1163 | from the application that sends it to those that are handed it |
| StaleCaches.StaleAnswerIsLost | bacpypes3/netservice.py:1117-1127 | where a router has an older path on an earlier adapter the request is handed to its target and nobody is handed the answer |
| StaleCaches.StaleWorldIsStale | bacpypes3/netservice.py:1117-1127 | two stations and two routers with which that happens |
| Trees.TreeIsLevelled | bacpypes3/netservice.py:1117-1127 | a tree whose caches point towards the target is in levels, by the distance from the target, which is at most the number of routers |
| Trees.TreeDelivers | bacpypes3/netservice.py:857-1163 | on a tree of no more routers than the message has hops, every message for the target reaches it and nobody else |
| Trees.TreeConversation | bacpypes3/netservice.py:655-1163 | request and answer on a tree are handed to the two stations and nothing to anyone else |
| Trees.SmallestTree | bacpypes3/netservice.py:857-1163 | there is such a tree |
| Applications.SomeIDIsFree | bacpypes3/app.py:1203-1219 | with fewer than 256 requests outstanding one of the 256 tries is free |
| Applications.NoIDIsFree | bacpypes3/app.py:1213-1215 | with 256 in use none is free, on any try |
| Applications.Application.Request | bacpypes3/app.py:1200-1224 | the ID asked for if it is free, otherwise the first free one in turn; outstanding IDs to a destination stay distinct, and the search does not end if and only if 256 are outstanding |
| Applications.Application.RequestDone | bacpypes3/app.py:1233-1265 | exactly that request is outstanding no longer |
| Applications.Application.Confirmation | bacpypes3/app.py:1387-1402 | the one request with that ID, or none; there is never a second |
| Applications.DeviceInfoCache.SetDeviceInfo | bacpypes3/app.py:171-222 | an I-Am makes its sender the only device with that address and with that instance, every other pair stays |
| Applications.DeviceInfoCache.UpdateDeviceInfo | bacpypes3/app.py:224-253 | the two keys still agree if and only if neither had been given to another device |
| Buffers.ShortRoundTrip | bacpypes3/pdu.py:2035-2080 | two octets put and taken are the number mod 65536 |
| Buffers.PDUData.GetData | bacpypes3/pdu.py:2044-2051 | the octets come off the front, and too few are an error that takes nothing |
| Headers.RoundTrip | bacpypes3/apdu.py:306-461 | decoding an encoded PDU of any type gives it back with its user data if and only if its lengths fit and nothing that is not on the wire is set |
| Headers.EncodeApci | bacpypes3/apdu.py:306-385 | the octets in the buffer are the header, and it fails if and only if the length octet overflows |
| Headers.DecodeApci | bacpypes3/apdu.py:388-461 | the header is consumed and the buffer holds exactly the user data |
| NetworkHeaders.RoundTrip | bacpypes3/npdu.py:94-230 | decoding an encoded header gives it back and leaves exactly the payload if and only if no network is the global one or too large, no station lacks an address, the priority fits its two bits, and nothing that is not on the wire is set |
| NetworkHeaders.BodyRoundTrip | bacpypes3/npdu.py:458-1083 | every network layer message comes back, lists of any length included, and what follows is left |
| NetworkHeaders.MessageRoundTrip | bacpypes3/npdu.py:94-230 | header and body together |
| NetworkHeaders.EncodeNpci | bacpypes3/npdu.py:94-162 | the octets in the buffer are the header |
| NetworkHeaders.DecodeNpci | bacpypes3/npdu.py:165-230 | the header is consumed, and every malformed one is an error |
| NetworkHeaders.GetShorts | bacpypes3/npdu.py:527-531 | the loop takes all networks there are, and an odd octet is an error |
| NetworkHeaders.GetTable | bacpypes3/npdu.py:820-832 | the loop takes as many entries as it counts and leaves what follows |
| Octets.DecodesExactly | bacpypes3/apdu.py:395-461 | a PDU is decoded from exactly the octets in which its fields stand at their literal places |
| Octets.FailsExactly | bacpypes3/apdu.py:395-461 | decoding fails exactly on nothing, on a type above 7 and on a header shorter than that of its type |
| Octets.EncodesExactly | bacpypes3/apdu.py:306-392 | a PDU is encoded as the one such octet string whose spare bits are clear |
| Octets.HeaderDecodesExactly | bacpypes3/npdu.py:165-230 | the same of the network header: version, control bits, networks, addresses, hop count, message and vendor, and what is left |
| Octets.HeaderEncodesExactly | bacpypes3/npdu.py:94-162 | it is encoded as the one such string whose spare bits are clear and that gives the global network no address |
| Octets.BodyDecodesExactly | bacpypes3/npdu.py:458-1083 | every network layer message is decoded from exactly the octets it stands in, by its literal type |
| Octets.BodyEncodesExactly | bacpypes3/npdu.py:458-1083 | and is encoded as them |

## Left out

- Tasks, futures and timer handles: each handler runs to its end at once, a timeout is a choice of the run, and a canceled task does not exist.
- Decoding of the service parameters before a request or answer reaches the application, and the error or abort sent when it fails.
- The update of the device cache from the flags of a request (`bacpypes3/appservice.py:1240-1276`): what a transaction knows of its peer stays fixed.
- Device communication control, vendor lookup, objects, link layers, console, capture analysis and other input and output.
- Delivery.RequestsArriveWhole: at most 256 segments, beyond which a sender repeats segment numbers as indexes. Of 256 segments the last may not be met with a refused ack; Limits.RequestTwiceOver shows what happens then. Segments of an earlier transaction with the same invoke ID are not in the network.
- Completion.ConcludesSoundlyExactly: the network and the limits of Delivery.RequestsArriveWhole, which says when what has been handed up is also right; requests that need segments, and window sizes 1 to 127.
- Windows.CompletionIsSound: window sizes 1 to 127; the network neither repeats nor reorders, the server neither times out (Completion covers that) nor is answered by its application during the transfer, and a client that runs out of retries ends the run.
- Limits.ServerFinishesEarly: needs a window of at least three segments; in a shorter one the nak of the missing segment is outside the window and changes nothing.
- Requests.SendsWhatIsAccepted: while the APDU length of a peer is not known its NPDU length does not count, as in the source.
- Answers.AnswerIsDue: the application answers only a transaction that a request has opened. The stop of a run at an answer that spoils its transaction is that of ServerLife.ForwardsAtMostOnce.
- AnswerTransfers.LosslessAnswer: the client waits for the answer when segment 0 comes. One that comes before the last ack of the request opens the client without an ack (Moves.ClientMovesAsDue), and the transfer then begins with a timeout of the server.
- Soundness.DecodeIsSound: opening and closing tags carry no data. Which optional sequences without a context lose tags, beyond the one in Soundness.TagsAreLost, is not followed.
- GlobalBroadcasts.ReachesEveryone: networks that form a tree; on a graph with a cycle a broadcast may come twice, and only Forwarding.ForwardingEnds holds.
- RemoteBroadcasts.ReachesNetwork: networks in levels towards the one addressed, and caches that point there.
- ServerLife.ForwardsAtMostOnce: a run stops at an answer that spoils its transaction; what the source makes of the next segment is not followed.
- ClientLife.AlwaysEnds: positive timeouts. A request of several segments that cannot be built does end: no ack moves its machine on, and its retries run out with a report; so does any request without retries.
- AppService.SendWindow: the network accepts all that a handler sends or refuses it from the first PDU on; a window refused after some of its segments is not modelled.
- RoundTrips.RoundTrip: the contents of an atomic are one tag whose data is taken as it is, the primitive types are not part of this model; a present element has at least one tag. That the condition is needed is proved element by element (Prefixes.SkippedExactly, Prefixes.TakenExactly) and for whole values of deterministic schemas, not for every value of every schema.
- Codec.FindItems: ends with an error of its own where the source would loop for ever; Application.Request likewise ends without an ID.
- RouterCache.LastAnnouncerWins: the class follows the run as long as every renumbering in it meets the condition of RenumberInverse, as one to an unused number does.
- Routing.NetworkServiceAccessPoint.ProcessNpdu: with no path known the result says that a router is looked for; the search itself, the network layer messages at the service element and the re-broadcast of Who-Is and I-Am-Router are not modelled. Every adapter has a known network, and a link layer puts the adapter's own address in as the source.
- Journeys.RequestAndAnswer: statuses of routers play no part, as in the source. What becomes of an answer that leaves the route is followed in one example only.
- Forwarding.ForwardingEnds: looks for routers are not counted.
- Headers.DecodeApci: octets of a reason are not checked against the enumerations.
