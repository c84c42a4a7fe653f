# Verified models of the protocol code in this repository

Seven components whose correctness is not visible from any one function are modelled here in Dafny, each with the
branches, constants and error cases of its source, and their properties are proved for all inputs and all runs. Code that
works by changing fields or buffers in place is a class or a method with loops, proved against a specification function;
what the source promises is then proved about that function and its runs.

- **STCP over mysocket** (`StcpQueue`, `StcpEndpoint`, `StcpSystem`, `StcpPipes`, `StcpInvariant`, `StcpSteps`, `StcpRuns`,
  `StcpTheorems`, `StcpProgress`, `StcpScope`, `StcpEnding`, `StcpConnection`). Each side has the fields of `control_loop`
  and of its mysocket context; a run is any interleaving of the two sides' steps over a first-in first-out channel each way, from the handshake to the last
  ACK. Sequence numbers are 32 bits wide and wrap. One invariant covers every step of every run in which one side starts the
  close (`StcpSystem.OneInitiator`): the byte stream, end of file and the teardown follow from it, with data both ways at
  once. If moreover each data segment is processed while its receiver has nothing unacknowledged (`StcpSystem.IsTurnRun`),
  the windows stay balanced too, and the window and the event mask follow. `StcpProgress` shows that the transport settles:
  its work shrinks with every step that changes anything, and once nothing can move everything written is delivered, or held
  by a side that spins without a window; if both applications have closed as well, both transports are done
  (`StcpEnding`). `StcpScope` shows by runs of the machine itself what happens outside these conditions.
- **Switch routing** (`Walks`, `FloydWarshall`, `Routes`, `Topology`, `Network`). Link discovery, the adjacency map that
  mirrors it, the Floyd–Warshall table over that map, the recursive path lookup and the cache that is filled on demand.
- **SHA-1** (`Sha1Spec`, `Sha1Laws`, `Sha1Answer`, `Sha1Stream`, `Sha1Context`). FIPS PUB 180-1 as functions, what these
  are and what they make of the standard's example, the streaming context, and its code.
- **Internet checksum** (`Checksum`). The two implementations, why they agree, and what they detect.
- **OpenFlow 1.0** (`OfMatch`, `OfFrames`, `OfBytes`, `OfMatchWire`, `OfActions`, `OfFlowMod`, `OfLaws`,
  `FlowTable`, `FlowLaws`). Match containment, the fields a frame has, the wire format of matches, actions and flow
  modifications with an example of each, the sorted flow table, and what its commands owe a packet.
- **Framing and readiness** (`LtFraming`, `EpollSelect`). Length-prefixed messages in arbitrary chunks, and `select` on top
  of epoll.
- **Bounded queues** (`ListenQueue`, `ArpQueue`). The listening socket's slots and completion queue, and the ARP cache.

`Streams` and `Wrappers` hold what several of these share.

Results where the code does less than one might expect of it, each with its exact condition:

- Data out of turn breaks the window bookkeeping, and only that does: in any run, until the FIN is sent, a trip round the loop
  takes exactly the bytes outstanding at a data segment off the sum of window and outstanding bytes
  (`StcpTheorems.LoopKeepsLedger`), so at the end of a run in turn the sum survives a segment exactly when nothing is outstanding
  (`StcpTheorems.DataKeepsWindowIffInTurn`). In a run of twelve rounds in which both sides send at once the window goes from
  3072 to −1 (`StcpScope.OutOfTurnWindowGoesNegative`): the loop then asks `stcp_app_recv` for −1 bytes into its 536-byte
  buffer at `Project-3/transport.c:320-321`. The machine sends nothing there.
- In turn, the mask is lifted on a shut window only if a FIN has crossed unacknowledged bytes
  (`StcpTheorems.MaskFollowsWindow`), and this does happen: A sends 3072 bytes, the first alone in its segment, B closes, and
  the ACK of the first byte lifts the mask but opens nothing; the loop then spins (`StcpScope.CrossedFinSpins`).
- `myread` with a buffer of 0 bytes reports end of file for good (`StcpTheorems.ReadReportsEof`).
- The STCP checksum's `int` sum cannot overflow on any segment of a given length exactly when that is at most 65529
  (`Checksum.LengthsThatFit`); an IP packet carries at most 65515.
- Demanding a source or destination hardware address works exactly when it is not all zeros
  (`OfMatch.ZeroSourceIsNoDemand`, `OfMatch.ZeroDestinationIsNoDemand`). Judged by header tuples with every field present,
  this and unused wildcard bits are the only reasons why containment of matches is not recognised
  (`OfMatch.ContainmentIsExact`). Judged by the frames a switch can see there is one more: an Ethernet type or VLAN priority
  that follows from the fields demanded is not inferred (`OfFrames.FrameContainmentIsExact`). A prefix with stray bits below
  its length matches nothing but itself (`OfMatch.StrayBitsMatchNothing`).
- A vendor action comes back from the wire as a generic one, and a generic action whose type has a class of its own as that
  class or, for three types, not at all; every other action comes back as packing left it (`OfActions.ActionRoundTrip`,
  `OfActions.AllPlainReturn`).
- DELETE is carried out as strictly as DELETE_STRICT; this is what the OpenFlow Switch Specification 1.0.0, section 4.6, asks
  exactly when every entry the match contains has that match and priority (`FlowTable.DeleteMeetsStandard`).
- A mapping just inserted in the ARP cache is the one a lookup finds only under the condition of `ArpQueue.LookupAfterInsert`;
  `ArpQueue.NewMappingNotFound` is a run after which it is not.

`dafny verify dfyconfig.toml` checks the whole project.

## Model

| member | source | states |
|---|---|---|
| StcpQueue.PacketQueue.Enqueue | Project-3/mysock.c:130-165 | the new node is last and everything queued before stays, in order |
| StcpQueue.PacketQueue.DequeueWhole | Project-3/mysock.c:208-225 | the head node leaves with its data; head and tail stay consistent when the queue empties |
| StcpQueue.DequeueBuffer | Project-3/mysock.c:174-228 | what is copied and what stays queued, with and without partial removal |
| StcpQueue.DequeueSplits | Project-3/mysock.c:196-219 | a dequeue returns as many bytes of the head buffer as were asked for and leaves exactly the rest of the stream; it is empty only for an empty head or none asked for |
| Streams.FlattenAppend | Project-3/mysock.c:150-162 | enqueuing appends to the queued byte stream |
| StcpConnection.Connection.WaitForEvent | Project-3/stcp_api.c:62-127 | returns exactly the events that are ready under the mask; the close event waits for the application queue and is given once |
| StcpConnection.Connection.SendSyn | Project-3/transport.c:59-67 | sends SYN with the old sequence number and moves on by one |
| StcpConnection.Connection.HandshakeRecv | Project-3/transport.c:73-134 | the three handshake receptions, what each sends, and the state on entering the loop |
| StcpConnection.Connection.HandleData | Project-3/transport.c:204-221 | hands the payload up, acknowledges it and restarts `left`: the new state and packet are those of OnData |
| StcpConnection.Connection.HandleAck | Project-3/transport.c:225-270 | the new state is that of OnAck in every connection state, window computed in 32 bits |
| StcpConnection.Connection.HandleFin | Project-3/transport.c:273-301 | a FIN is answered in two states and ignored in the others |
| StcpConnection.Connection.HandleApp | Project-3/transport.c:310-364 | sends one segment of at most 536 bytes and at most the window, and masks the application when the window shuts |
| StcpConnection.Connection.HandleClose | Project-3/transport.c:367-396 | sends FIN and enters LAST_ACK or FIN_WAIT |
| StcpConnection.Connection.ControlLoopBody | Project-3/transport.c:182-400 | one trip round the loop does and sends exactly what LoopStep says |
| StcpConnection.Connection.MyWrite | Project-3/mysock_api.c:198-210 | all bytes are queued whatever the window |
| StcpConnection.Connection.MyRead | Project-3/mysock_api.c:212-233 | returns at most the buffer's length from the head of the queue; end of file sticks |
| StcpConnection.Connection.MyClose | Project-3/mysock_api.c:168-172 | requests the close |
| StcpConnection.Connection.ThreadExit | Project-3/mysock.c:340-390 | the transport thread's last act marks end of file |
| StcpInvariant.InvInit | Project-3/transport.c:59-134 | both invariants hold before the handshake |
| StcpRuns.InvNetwork | Project-3/transport.c:192-305 | the invariant is kept by processing any packet, in turn or not |
| StcpRuns.TurnNetwork | Project-3/transport.c:192-305 | the balance of both windows too, if data is processed in turn |
| StcpRuns.InvApp | Project-3/transport.c:310-364 | the invariant is kept by sending a segment |
| StcpRuns.TurnApp | Project-3/transport.c:310-364 | the balance too, and the window is then never negative |
| StcpRuns.InvClose | Project-3/transport.c:367-396 | the invariant is kept by sending a FIN |
| StcpRuns.InvLoop | Project-3/transport.c:182-400 | the invariant is kept by a whole trip round the loop, network, application and close branch together |
| StcpRuns.TurnLoop | Project-3/transport.c:182-400 | the balance too, in turn |
| StcpRuns.InvHandshake | Project-3/transport.c:73-134 | each handshake step keeps both |
| StcpRuns.InvNext | Project-3/transport.c:163-400 | any step of either side keeps the invariant, and in turn the balance |
| StcpRuns.InvRun | Project-3/transport.c:163-400 | the invariant holds in every state of every run with one initiator |
| StcpRuns.TurnRun | Project-3/transport.c:163-400 | both windows are balanced in every state of every run in turn |
| StcpTheorems.RunFlips | Project-3/transport.c:163-400 | a run seen from the other side is a run, and in turn if it was |
| StcpTheorems.HandshakeNumbersMatch | Project-3/transport.c:59-134 | in any run each packet of the handshake acknowledges the number its receiver has come to |
| StcpTheorems.NumbersAreUsedUp | Project-3/transport.c:333-396 | SYN, segment and FIN use up the sequence numbers from their own on, one for SYN and FIN and one for each byte |
| StcpTheorems.AnswersAreNumbered | Project-3/transport.c:211-301 | so do the answers to data and to the first FIN, one each, and the last ACK does not |
| StcpTheorems.ReadIsPrefixOfWritten | Project-3/mysock_api.c:198-233 | in every state of every run what one side has read is a prefix of what the other has written, both ways |
| StcpTheorems.EndOfFileIsComplete | Project-3/transport.c:284-298 | once the peer's FIN is processed and the queue is read out, everything written has been read; end of file is seen only then |
| StcpTheorems.EndOfFileStays | Project-3/mysock_api.c:222-230 | after end of file nothing more is ever read |
| StcpTheorems.ReadReportsEof | Project-3/mysock_api.c:225-230 | a read ends the stream exactly when it meets the marker or is given no room |
| StcpTheorems.WindowConserved | Project-3/transport.c:177-179 | before the FIN, `send_wind` plus `left` − `initial_sequence_num` modulo 2^32 is 3072, with `send_wind` in 0..3072 |
| StcpTheorems.DataKeepsWindowIffInTurn | Project-3/transport.c:213-218 | at the end of any run in turn, processing a data segment keeps that sum exactly when nothing is outstanding |
| StcpTheorems.LoopKeepsLedger | Project-3/transport.c:182-400 | in any run, until the FIN is sent, a trip round the loop changes that sum modulo 2^32 by exactly the bytes outstanding at a data segment |
| StcpScope.OutOfTurnWindowGoesNegative | Project-3/transport.c:213-321 | a run with data both ways at once that ends with a window of −1 and the application branch about to run |
| StcpTheorems.PacketsFit | Project-3/transport.c:192-198 | in every run every packet on its way is well formed: bare headers, or 1 to 536 bytes of data |
| StcpTheorems.LoopStaysInBounds | Project-3/transport.c:314-332 | in turn the application branch never meets a negative window |
| StcpTheorems.ShutWindowHasTraffic | Project-3/transport.c:345-355 | in turn, while the window is shut a data segment or its ACK is still on the way |
| StcpProgress.MaskedHasTraffic | Project-3/transport.c:345-355 | in any run, while the application is masked a data segment of this side or an ACK for it is still on the way |
| StcpProgress.TransportWork | Project-3/transport.c:163-400 | a delivery, a handshake reception or a trip round the loop makes the work left smaller, unless the loop spins without a window, and then it changes nothing |
| StcpProgress.TransportSettles | Project-3/transport.c:163-400 | between two calls of the applications the transport takes at most as many steps that change anything as there was work |
| StcpProgress.MovesAreSteps | Project-3/stcp_api.c:62-127 | a side that can move by its own blocking rules has an enabled step that makes the work smaller |
| StcpProgress.RestDelivers | Project-3/mysock_api.c:198-233 | in any run, when nothing can move, everything written has been read or is queued for reading, or its writer spins without a window |
| StcpProgress.QuietWindowIsOpen | Project-3/transport.c:253-267 | in turn, once no data or ACK of a side is on its way its window is 3072 again, or 3071 after a crossing FIN |
| StcpProgress.TurnRestDelivers | Project-3/mysock_api.c:198-233 | in turn, when nothing can move, everything written has been read or is queued for reading |
| StcpTheorems.MaskFollowsWindow | Project-3/transport.c:253-267 | in turn, the application is masked only while the window is shut, and exactly then unless a FIN has crossed unacknowledged bytes |
| StcpTheorems.AppAskedForBytes | Project-3/transport.c:320-321 | in turn, the application queue is asked for 0 to 536 bytes, and for 0 exactly when a FIN has crossed and the window is shut |
| StcpTheorems.AckOpensWindowIff | Project-3/transport.c:253-263 | an ACK lifts the mask always, and opens a shut window exactly when it acknowledges something |
| StcpScope.CrossedFinSpins | Project-3/transport.c:253-321 | a run in turn that ends with the mask lifted on a shut window, from which the loop goes round without effect |
| StcpTheorems.NothingFollowsFin | Project-3/stcp_api.c:78-87 | no data follows a FIN in the channel, the writer's queue is empty, and nothing is left once the FIN is processed |
| StcpTheorems.FinNeverDropped | Project-3/transport.c:273-301 | a FIN finds the initiator in FIN_SENT_ACK_RECIEVED with its peer in LAST_ACK, and the other side in ESTABLISHED |
| StcpTheorems.DoneMeansPeerAtEnd | Project-3/transport.c:276-283 | the initiator is done only after its peer has queued end of file and entered LAST_ACK, all bytes delivered or queued |
| StcpEnding.RestMeansDone | Project-3/transport.c:163-400 | in any run, when both applications have closed, nothing can move and neither side spins, both transports are done |
| StcpEnding.TurnRestMeansDone | Project-3/transport.c:236-283 | in turn, when both applications have closed and nothing can move, both transports are done |
| StcpEnding.OrderlyCloseEnds | Project-3/transport.c:236-396 | a run from the handshake through both closes to both transports done and empty channels |
| StcpEnding.EndedMeansEof | Project-3/mysock.c:340-390 | once the transport thread has ended, end of file has been seen or is queued, so no read blocks |
| FloydWarshall.DirectPaths | Project-4/pox/pox/forwarding/l2_multi.py:53-59 | the initial table: distance 0 to itself, 1 over an edge, nothing else |
| FloydWarshall.RelaxAll | Project-4/pox/pox/forwarding/l2_multi.py:71-80 | one value of k: updating in place gives the same table as updating from a copy |
| FloydWarshall.PhaseStep | Project-4/pox/pox/forwarding/l2_multi.py:71-80 | after k, the table is exact for walks whose inner switches are among those done, k included |
| FloydWarshall.FinishedIsExact | Project-4/pox/pox/forwarding/l2_multi.py:71-80 | with all switches done, an entry is the length of a shortest walk, and is missing exactly when there is no walk |
| FloydWarshall.FinishedIsTable | Project-4/pox/pox/forwarding/l2_multi.py:75-80 | every stored intermediate differs from both ends and splits the distance exactly |
| FloydWarshall.CalcPaths | Project-4/pox/pox/forwarding/l2_multi.py:49-80 | the table computed for any switches and adjacency is exact and its intermediates are right |
| Routes.TableSplits | Project-4/pox/pox/forwarding/l2_multi.py:98-103 | the recursion only meets intermediates with strictly smaller distances on both sides |
| Routes.RawPathIsWalk | Project-4/pox/pox/forwarding/l2_multi.py:91-103 | the lookup never joins a missing part: it gives exactly the d−1 inner switches of a walk of length d, or None when there is none |
| Routes.ShortestHasNoRepeats | Project-4/pox/pox/forwarding/l2_multi.py:113-120 | a shortest walk visits no switch twice |
| Routes.FullPathIsShortest | Project-4/pox/pox/forwarding/l2_multi.py:113-120 | the path with its ends is a shortest walk without repeats, or None when there is no walk |
| Routes.Cook | Project-4/pox/pox/forwarding/l2_multi.py:122-126 | every hop carries the adjacency port to the next switch, the last the final port |
| Routes.CheckPath | Project-4/pox/pox/forwarding/l2_multi.py:106-110 | true exactly when every hop's port is the adjacency port |
| Topology.AddedMirrors | Project-4/pox/pox/forwarding/l2_multi.py:350-360 | a link-added event keeps the adjacency map the mirror of the links held |
| Topology.RemovedMirrors | Project-4/pox/pox/forwarding/l2_multi.py:336-349 | so does a link-removed event, whichever surviving link is chosen |
| Topology.RefreshedMirrors | Project-4/pox/pox/openflow/discovery.py:378-380 | so does a refreshed timestamp |
| Network.HandlesKeepsInv | Project-4/pox/pox/openflow/discovery.py:218-262 | mirror, cache and known switches stay right under every event: switches coming and going, links seen and expiring, path queries |
| Network.RunKeepsInv | Project-4/pox/pox/forwarding/l2_multi.py:317-386 | they are right in every state of every run |
| Network.LostSwitchTakesItsLinks | Project-4/pox/pox/openflow/discovery.py:218-230 | a lost switch takes exactly the links with it at either end; the others keep their times |
| Network.ExpiryLeavesFresh | Project-4/pox/pox/openflow/discovery.py:246-262 | expiry leaves exactly the links heard of in the last ten seconds |
| Network.HeardOutlivesExpiry | Project-4/pox/pox/openflow/discovery.py:371-380 | a link heard of again outlives an expiry within ten seconds |
| Network.LostSwitchHasNoRoute | Project-4/pox/pox/forwarding/l2_multi.py:113-131 | no request to or from a lost switch finds a route |
| Network.TwoWayCableIsUsed | Project-4/pox/pox/forwarding/l2_multi.py:350-360 | once a cable is heard of from both ends, a request goes over it or over another between the two switches |
| Network.LinkedMeans | Project-4/pox/pox/forwarding/l2_multi.py:317-346 | two switches are joined exactly when some cable between them is held from both ends |
| Network.NewcomerUnreachable | Project-4/pox/pox/forwarding/l2_multi.py:378-386 | a new switch has no walk to or from any other, so a cache filled before it still answers rightly |
| Network.CacheAnswers | Project-4/pox/pox/forwarding/l2_multi.py:91-103 | a cache filled earlier answers every query with a shortest walk of the adjacency map now, or None when there is none |
| Network.CookedRouteOk | Project-4/pox/pox/forwarding/l2_multi.py:113-131 | a route leaves every switch by a link held in both directions and is as short as any walk over such links |
| Network.Controller.ConnectionUp | Project-4/pox/pox/forwarding/l2_multi.py:378-386 | a new switch is added and the cache is left alone |
| Network.Controller.HandleLinkEvent | Project-4/pox/pox/forwarding/l2_multi.py:317-360 | the cache is cleared and the adjacency map follows the link table |
| Network.Controller.DeleteLinks | Project-4/pox/pox/openflow/discovery.py:384-387 | the links go one by one, an event for each |
| Network.Controller.ConnectionDown | Project-4/pox/pox/openflow/discovery.py:218-230 | exactly the links of the lost switch go |
| Network.Controller.PacketIn | Project-4/pox/pox/openflow/discovery.py:339-380 | a link is added, refreshed or ignored, whether or not the receiving switch is still connected |
| Network.Controller.ExpireLinks | Project-4/pox/pox/openflow/discovery.py:246-262 | exactly the links not refreshed in time go |
| Network.Controller.GetPath | Project-4/pox/pox/forwarding/l2_multi.py:113-131 | the route returned is a shortest one over links discovery holds now, None exactly when there is none, and the assertion holds |
| Sha1Stream.FeedHolds | Project-4/router/sha1.c:157-182 | one byte keeps the context standing for the message so far, or marks it corrupted at 2^64 bits |
| Sha1Stream.InputAllHolds | Project-4/router/sha1.c:143-185 | so do any number of calls with any pieces |
| Sha1Stream.PadHashes | Project-4/router/sha1.c:326-371 | either way of padding hashes exactly the blocks of the padded message |
| Sha1Stream.StreamedDigest | Project-4/router/sha1.c:104-119 | for any split into calls the result succeeds exactly below 2^64 bits and is the SHA-1 digest of the whole message |
| Sha1Stream.ResultIsFinal | Project-4/router/sha1.c:104-119 | asking again changes nothing; any further input spoils the context |
| Sha1Answer.AbcDigest | Project-4/router/sha1.c:207-301 | the digest of "abc" is that of FIPS PUB 180-1, Appendix A |
| Sha1Laws.RotlMovesUp | Project-4/router/sha1.c:46-48 | a circular shift moves every bit up by that much |
| Sha1Laws.RotlMovesRound | Project-4/router/sha1.c:46-48 | and round the end |
| Sha1Laws.ChChooses | Project-4/router/sha1.c:243-253 | the logical function of rounds 0 to 19 takes c where b is set and d elsewhere |
| Sha1Laws.ParIsTheOther | Project-4/router/sha1.c:255-264 | that of rounds 20 to 39 and 60 to 79 is the third where two agree |
| Sha1Laws.ParSwaps | Project-4/router/sha1.c:255-264 | whichever two that is |
| Sha1Laws.MajAgrees | Project-4/router/sha1.c:266-276 | that of rounds 40 to 59 agrees where two agree |
| Sha1Laws.MajSwaps | Project-4/router/sha1.c:266-276 | whichever two that is |
| Sha1Laws.KIsRoot | Project-4/router/sha1.c:209-215 | the constants are the first thirty bits of the square roots of 2, 3, 5 and 10 |
| Sha1Laws.PaddedIs | Project-4/router/sha1.c:326-371 | padding is the message, a one bit, as few zero bits as make whole blocks, and the length in bits |
| Sha1Context.CircularShift | Project-4/router/sha1.c:46-48 | the macro is the circular left shift of FIPS PUB 180-1, section 3 |
| Sha1Context.Context.Schedule | Project-4/router/sha1.c:223-234 | the eighty words are the W of section 7 |
| Sha1Context.ChooseRounds | Project-4/router/sha1.c:243-253 | rounds 0 to 19 |
| Sha1Context.ParityRounds | Project-4/router/sha1.c:255-264 | rounds 20 to 39 |
| Sha1Context.MajorityRounds | Project-4/router/sha1.c:266-276 | rounds 40 to 59 |
| Sha1Context.LastParityRounds | Project-4/router/sha1.c:278-287 | rounds 60 to 79 |
| Sha1Context.Context.ProcessMessageBlock | Project-4/router/sha1.c:207-301 | the digest becomes the compression of the block, and the block empties |
| Sha1Context.Context.Input | Project-4/router/sha1.c:143-185 | from any state between calls the fields change exactly as Sha1Stream.Input says, to one between calls |
| Sha1Context.Context.PadMessage | Project-4/router/sha1.c:326-371 | both cases of padding change the fields as Sha1Stream.Pad says |
| Sha1Context.Context.Result | Project-4/router/sha1.c:104-119 | from any state between calls the fields and the answer are those of Sha1Stream.ResultOf |
| Sha1Context.Context.Reset | Project-4/router/sha1.c:71-85 | the initial context |
| Checksum.Cksum | Project-4/router/sr_utils.c:8-24 | the checksum of the 32-bit sum of big-endian words, wrap-around included |
| Checksum.FoldStep | Project-4/router/sr_utils.c:19-20 | adding the carries back in keeps the folded value |
| Checksum.CksumChecks | Project-4/router/sr_utils.c:8-24 | stored in a zeroed, even-aligned field, the checksum makes the whole buffer's checksum 0: any length, odd or wrapping |
| Checksum.CksumCatches | Project-4/router/sr_utils.c:8-24 | a buffer of any length has checksum 0 exactly when its field holds the checksum of the rest, or all ones where that is 0 and the words of the rest do not add up to 2^32 − 1 modulo 2^32 |
| Checksum.ShortSumsStayBelow | Project-4/router/sr_utils.c:8-24 | they do not in a buffer of up to 131074 bytes |
| Checksum.LengthsThatFit | Project-3/tcp_sum.c:31-59 | the signed sum cannot overflow on any segment of a length exactly when the length is at most 65529 |
| Checksum.AllOnesOverflow | Project-3/tcp_sum.c:31-59 | from 65530 bytes on, the segment of all ones overflows it |
| Checksum.TcpChecksum | Project-3/tcp_sum.c:14-66 | the checksum of pseudo-header and segment with its field read as 0, by the two loops, the odd byte and two folds |
| Checksum.TwoFolds | Project-3/tcp_sum.c:61-65 | two folds are enough for any sum that fits in 31 bits |
| Checksum.ChecksumsAgree | Project-3/tcp_sum.c:14-66 | for every segment of a 16-bit length whose sum does not overflow, odd lengths included, it is `cksum` of pseudo-header and zeroed segment |
| Checksum.SetChecksum | Project-3/tcp_sum.c:70-84 | only the checksum field of the segment changes, to that value |
| Checksum.VerifyChecksum | Project-3/tcp_sum.c:87-106 | true exactly when the field holds the checksum seen from the receiver |
| Checksum.SetThenVerify | Project-3/tcp_sum.c:70-106 | what one side sets, the other verifies |
| Checksum.OneWordChanged | Project-3/tcp_sum.c:87-106 | one changed 16-bit word goes unnoticed exactly when all zeros become all ones or back; a changed checksum never does |
| Checksum.OddByteChanged | Project-3/tcp_sum.c:51-56 | a changed last byte of a segment of odd length is always noticed |
| Checksum.PseudoLayout | Project-3/tcp_sum.c:19-29 | the pseudo-header holds both addresses, the protocol and the length in their places |
| Checksum.PeerWordChanged | Project-3/tcp_sum.c:87-106 | a segment verifies under a changed word of the sender's address exactly when one zero became the other |
| Checksum.LocalWordChanged | Project-3/tcp_sum.c:87-106 | and so under a changed word of the receiver's own |
| Checksum.AppendedNullsNoticed | Project-3/tcp_sum.c:87-106 | the length is covered: zero bytes appended to a segment are noticed |
| Checksum.Rfc1071Example | Project-4/router/sr_utils.c:8-24 | the example of RFC 1071, section 3 |
| Checksum.AckExample | Project-3/tcp_sum.c:14-66 | the checksum of one TCP header between two given addresses |
| OfMatch.ContainmentIsSound | Project-4/pox/pox/openflow/libopenflow_01.py:766-804 | if one match contains another, it accepts every packet the other accepts |
| OfMatch.ContainmentIsTransitive | Project-4/pox/pox/openflow/libopenflow_01.py:766-804 | containment is transitive, equality shortcut and both prefixes included |
| OfMatch.NetTrans | Project-4/pox/pox/lib/addresses.py:303-320 | a network inside a network is inside whatever contains that |
| OfMatch.ContainmentIsExact | Project-4/pox/pox/openflow/libopenflow_01.py:766-804 | where the second match has no stray prefix bits, it holds exactly when every header tuple with all twelve fields present that the second accepts the first accepts, the two exceptions (unused wildcard bits, an all-zero hardware address over none) stated in the same equivalence |
| OfMatch.SeparatorRejected | Project-4/pox/pox/openflow/libopenflow_01.py:778-803 | where containment fails, a packet built from the two matches is rejected by the first |
| OfMatch.SeparatorAccepted | Project-4/pox/pox/openflow/libopenflow_01.py:778-803 | and accepted by the second |
| OfMatch.ZeroSourceIsNoDemand | Project-4/pox/pox/lib/addresses.py:210-226 | every packet accepted has the source address demanded exactly when that is not all zeros, or the match accepts no packet for its stray prefix bits |
| OfMatch.ZeroDestinationIsNoDemand | Project-4/pox/pox/lib/addresses.py:210-226 | the same for the destination address |
| OfMatch.ZeroSourceAcceptsAll | Project-4/pox/pox/openflow/libopenflow_01.py:778-803 | `ofp_match(dl_src = EthAddr(0))` accepts every packet but is not found to contain `ofp_match()` |
| OfMatch.StrayBitsMatchNothing | Project-4/pox/pox/lib/addresses.py:320-320 | a source or destination prefix with bits below its length set matches only a match equal to it, so no packet |
| OfLaws.AcceptsMeans | Project-4/pox/pox/openflow/libopenflow_01.py:766-804 | a match accepts a packet with every field exactly when it has no stray prefix bits and agrees in every field its bits do not wildcard |
| OfLaws.MaskBits | Project-4/pox/pox/lib/addresses.py:303-320 | the mask of a prefix is exactly the bits from its count up |
| OfFrames.AcceptsSomeFrame | Project-4/pox/pox/openflow/libopenflow_01.py:407-456 | a match without stray prefix bits accepts some frame exactly when its demands agree with the layers of a frame |
| OfFrames.ContainsFramesIff | Project-4/pox/pox/openflow/libopenflow_01.py:407-456 | every frame one possible match accepts another accepts exactly when it covers the first with the type and priority its demands imply |
| OfFrames.FrameContainmentIsExact | Project-4/pox/pox/openflow/libopenflow_01.py:766-804 | for a possible match, containment is recognised exactly when it holds of all frames and none of three exceptions applies: unused bits, an all-zero address over none, a type or priority the contained match does not demand itself |
| OfMatchWire.RoundTripView | Project-4/pox/pox/openflow/libopenflow_01.py:613-743 | packing and unpacking leaves exactly the fields the protocol has, with their values and prefix lengths |
| OfMatchWire.RoundTripSame | Project-4/pox/pox/openflow/libopenflow_01.py:655-743 | the match comes back equal exactly when its ignored fields are wildcarded and its free-bit counts are at most 32 |
| OfMatchWire.RoundTripTwice | Project-4/pox/pox/openflow/libopenflow_01.py:655-743 | for any match the journey is an idempotent normalisation |
| OfLaws.JourneyKeeps | Project-4/pox/pox/openflow/libopenflow_01.py:613-743 | what survives the journey, field by field: network fields under IP or ARP, ports under ICMP, TCP or UDP |
| OfLaws.MatchExample | Project-4/pox/pox/openflow/libopenflow_01.py:613-653 | the forty bytes of one match |
| OfActions.ActionRoundTrip | Project-4/pox/pox/openflow/libopenflow_01.py:925-1648 | what every action its constructor makes comes back as, for all classes, vendor actions and generic headers of any type included |
| OfActions.UnpackActions | Project-4/pox/pox/openflow/libopenflow_01.py:3886-3909 | the loop's list and offset, or the exception, are those of the recursive parse, for any bytes |
| OfActions.ParseAll | Project-4/pox/pox/openflow/libopenflow_01.py:3886-3909 | the bytes of a list of actions parse to what each comes back as, wherever they stand in a buffer, or stop at the assertion if one does not come back |
| OfActions.AllPlainReturn | Project-4/pox/pox/openflow/libopenflow_01.py:3968-3988 | a list comes back as packing left it exactly when it has no vendor action and no generic header whose type has a class |
| OfLaws.BadTail | Project-4/pox/pox/openflow/libopenflow_01.py:3886-3909 | after well-formed actions a stub raises, a length beyond the buffer empties the list, a length below eight fails the assertion |
| OfLaws.OutputToControllerExample | Project-4/pox/pox/openflow/libopenflow_01.py:970-1017 | the bytes of an output action to the controller, which keeps its max_len |
| OfLaws.OutputExample | Project-4/pox/pox/openflow/libopenflow_01.py:970-1017 | and of one to a port, which does not |
| OfLaws.VlanVidExample | Project-4/pox/pox/openflow/libopenflow_01.py:1310-1353 | the bytes of an action setting the VLAN identifier |
| OfLaws.VlanPcpExample | Project-4/pox/pox/openflow/libopenflow_01.py:1355-1398 | setting the VLAN priority |
| OfLaws.StripVlanExample | Project-4/pox/pox/openflow/libopenflow_01.py:925-968 | stripping the tag, a generic header |
| OfLaws.DlAddrSrcExample | Project-4/pox/pox/openflow/libopenflow_01.py:1400-1463 | setting the source hardware address |
| OfLaws.DlAddrDstExample | Project-4/pox/pox/openflow/libopenflow_01.py:1400-1463 | the destination one |
| OfLaws.NwAddrSrcExample | Project-4/pox/pox/openflow/libopenflow_01.py:1465-1520 | the source network address |
| OfLaws.NwAddrDstExample | Project-4/pox/pox/openflow/libopenflow_01.py:1465-1520 | the destination one |
| OfLaws.NwTosExample | Project-4/pox/pox/openflow/libopenflow_01.py:1522-1563 | the type of service |
| OfLaws.TpPortSrcExample | Project-4/pox/pox/openflow/libopenflow_01.py:1565-1616 | the source port |
| OfLaws.TpPortDstExample | Project-4/pox/pox/openflow/libopenflow_01.py:1565-1616 | the destination port |
| OfLaws.EnqueueExample | Project-4/pox/pox/openflow/libopenflow_01.py:1019-1067 | putting a packet in a queue |
| OfLaws.MplsLabelExample | Project-4/pox/pox/openflow/libopenflow_01.py:1120-1163 | setting an MPLS label |
| OfLaws.MplsTcExample | Project-4/pox/pox/openflow/libopenflow_01.py:1165-1208 | its traffic class |
| OfLaws.MplsTtlExample | Project-4/pox/pox/openflow/libopenflow_01.py:1210-1253 | its time to live |
| OfLaws.PushMplsExample | Project-4/pox/pox/openflow/libopenflow_01.py:1069-1118 | pushing a label |
| OfLaws.PopMplsExample | Project-4/pox/pox/openflow/libopenflow_01.py:1265-1308 | popping one |
| OfLaws.VendorHeaderExample | Project-4/pox/pox/openflow/libopenflow_01.py:1618-1648 | a vendor action |
| OfFlowMod.ScanLayout | Project-4/pox/pox/openflow/libopenflow_01.py:729-743 | the forty bytes of a match are read back value by value |
| OfFlowMod.FlowModRoundTrip | Project-4/pox/pox/openflow/libopenflow_01.py:1852-1875 | whatever packs unpacks to the same message with its match normalised and its actions as they come back, and leaves the bytes after it; or fails if an action does not come back |
| OfFlowMod.FlowModSame | Project-4/pox/pox/openflow/libopenflow_01.py:1883-1897 | the message that arrives equals the packed one exactly when the match survives, the buffer number is not 0xffffffff and every action is of the plain kind |
| OfLaws.MessageExample | Project-4/pox/pox/openflow/libopenflow_01.py:1852-1875 | the eighty bytes of one flow modification |
| OfLaws.PacksExactlyWhen | Project-4/pox/pox/openflow/libopenflow_01.py:1852-1875 | packing succeeds exactly for a known type, a length below 65536 and MPLS types on pushed labels |
| OfLaws.BufferMeans | Project-4/pox/pox/openflow/libopenflow_01.py:1852-1897 | no buffer travels as 0xffffffff, and only that is read as none |
| FlowTable.SortIsStable | Project-4/pox/pox/openflow/flow_table.py:139-141 | the sort orders entries by effective priority, keeps them all and keeps the order of equals |
| FlowTable.AddKeepsInv | Project-4/pox/pox/openflow/flow_table.py:134-143 | adding an entry puts it after all at least as high, and keeps the table sorted and unambiguous |
| FlowTable.ProcessKeepsInv | Project-4/pox/pox/openflow/flow_table.py:203-232 | every command keeps the table sorted by effective priority and age with no two entries sharing match and priority |
| FlowTable.RunKeepsInv | Project-4/pox/pox/openflow/flow_table.py:172-232 | so does any sequence of commands, expiries and packet counts |
| FlowTable.AddReplaces | Project-4/pox/pox/openflow/flow_table.py:210-213 | after ADD the table holds the new entry and exactly the old ones with another match or priority |
| FlowTable.DeleteLeaves | Project-4/pox/pox/openflow/flow_table.py:228-230 | both DELETE commands leave exactly the entries that differ in match or priority |
| FlowTable.HitIsBest | Project-4/pox/pox/openflow/flow_table.py:186-195 | the first hit is a match of highest effective priority, oldest on ties, exact matches first |
| FlowTable.HitAfterInsert | Project-4/pox/pox/openflow/flow_table.py:134-143 | a new entry takes over exactly the packets it accepts that hit nothing or something lower |
| FlowTable.ModifyRedirects | Project-4/pox/pox/openflow/flow_table.py:214-228 | MODIFY moves no packet to another entry, and only packets its match accepts get the new actions |
| FlowTable.DeleteMeetsStandard | Project-4/pox/pox/openflow/flow_table.py:228-230 | when exactly the program's DELETE removes what the standard asks |
| FlowTable.DeleteFallsShort | Project-4/pox/pox/openflow/flow_table.py:228-230 | an instance in which it does not |
| FlowLaws.AddInstalls | Project-4/pox/pox/openflow/flow_table.py:41-49 | after ADD a packet its match accepts hits an entry with everything the command says, created then, unless another rule not below it accepts the packet |
| FlowLaws.ModifyInstalls | Project-4/pox/pox/openflow/flow_table.py:223-226 | so it does after a MODIFY or MODIFY_STRICT that concerns no rule |
| FlowLaws.ModifyUpdates | Project-4/pox/pox/openflow/flow_table.py:214-228 | otherwise exactly the packets that hit a rule concerned get the new actions |
| FlowLaws.ModifyReports | Project-4/pox/pox/openflow/flow_table.py:214-228 | and exactly the rules concerned are reported, as they are afterwards |
| FlowLaws.DeleteReports | Project-4/pox/pox/openflow/flow_table.py:228-230 | DELETE of either kind reports exactly the entries that go |
| FlowLaws.RefusedChangesNothing | Project-4/pox/pox/openflow/flow_table.py:207-232 | unsupported flags or ports and unknown commands change nothing |
| FlowLaws.HitWins | Project-4/pox/pox/openflow/flow_table.py:139-141 | the entry hit goes before every other that accepts the packet, by being exact, by priority, by age |
| FlowLaws.ExpiryLeaves | Project-4/pox/pox/openflow/flow_table.py:72-75 | expiry leaves exactly the entries whose hard and idle timeouts are not over |
| FlowLaws.PacketDefersIdle | Project-4/pox/pox/openflow/flow_table.py:65-75 | a packet puts off the idle timeout of the entry that counts it, and not the hard one |
| FlowTable.RemoveAllSelected | Project-4/pox/pox/openflow/flow_table.py:179-184 | removing the selected entries one by one leaves the others in place |
| FlowTable.SwitchFlowTable.ProcessFlowMod | Project-4/pox/pox/openflow/flow_table.py:203-232 | the table and the answer after any command, unsupported and unknown ones included |
| FlowTable.SwitchFlowTable.ModifyPassing | Project-4/pox/pox/openflow/flow_table.py:217-222 | the actions of exactly the matching entries change, in place |
| FlowTable.SwitchFlowTable.RemovePassing | Project-4/pox/pox/openflow/flow_table.py:172-184 | exactly the selected entries go, and are returned in order |
| FlowTable.SwitchFlowTable.RemoveExpiredEntries | Project-4/pox/pox/openflow/flow_table.py:72-75 | exactly the entries past a timeout go |
| FlowTable.SwitchFlowTable.EntryForPacket | Project-4/pox/pox/openflow/flow_table.py:186-195 | the first entry that accepts the packet, or None |
| LtFraming.PackedIsFrame | Project-4/ltprotocol/ltprotocol/ltprotocol.py:56-63 | a packed message is a frame whose length counts its header, and decodes to the message |
| LtFraming.DecodeIsWeighted | Project-4/ltprotocol/ltprotocol/ltprotocol.py:56-63 | fields are big-endian: every byte counts 256 times the one after it |
| LtFraming.FieldLimits | Project-4/ltprotocol/ltprotocol/ltprotocol.py:56-63 | the numbers each struct code can hold |
| LtFraming.FrameExample | Project-4/ltprotocol/ltprotocol/ltprotocol.py:56-63 | the bytes of one message under the default format |
| LtFraming.ParseMore | Project-4/ltprotocol/ltprotocol/ltprotocol.py:94-118 | more bytes never change the frames already there |
| LtFraming.ChunksDoNotMatter | Project-4/ltprotocol/ltprotocol/ltprotocol.py:94-118 | any cutting of any stream delivers the frames of the whole stream, fails exactly when it does, and keeps the same rest |
| LtFraming.SentIsDelivered | Project-4/ltprotocol/ltprotocol/ltprotocol.py:56-118 | what one side packs the other delivers, exactly and in order, in any chunks |
| LtFraming.DeliveredIsPrefix | Project-4/ltprotocol/ltprotocol/ltprotocol.py:94-118 | and until all has arrived, a prefix of it |
| LtFraming.LTTwistedProtocol.DataReceived | Project-4/ltprotocol/ltprotocol/ltprotocol.py:94-118 | the loop ends, keeps `plen` the buffer's length, and delivers what the parse finds |
| EpollSelect.ScheduledIsWanted | Project-4/pox/pox/lib/epoll_select.py:28-63 | what is scheduled for a descriptor is what the new lists want of it, whenever that changes |
| EpollSelect.NeverNeither | Project-4/pox/pox/lib/epoll_select.py:77-79 | a descriptor scheduled with an empty mask is always registered |
| EpollSelect.SelectKeepsInv | Project-4/pox/pox/lib/epoll_select.py:24-82 | after every call the table and the interest list are exactly the union of the two lists with the right masks |
| EpollSelect.RunIsSimple | Project-4/pox/pox/lib/epoll_select.py:24-82 | over any sequence of calls the incremental table equals the one built from scratch |
| EpollSelect.ReturnedWereAskedFor | Project-4/pox/pox/lib/epoll_select.py:84-99 | a returned object's descriptor is in the list it is returned for |
| EpollSelect.ReturnedAreTheCallers | Project-4/pox/pox/lib/epoll_select.py:84-99 | with one object for each descriptor, what is returned is an element of that list |
| EpollSelect.ReadyIsReturned | Project-4/pox/pox/lib/epoll_select.py:84-99 | each list returned holds exactly the objects of the events with one of its bits |
| EpollSelect.KernelWatches | Project-4/pox/pox/lib/epoll_select.py:24-82 | after a call exactly the descriptors of the two lists are watched, for the bits of their lists |
| EpollSelect.LastIsRemembered | Project-4/pox/pox/lib/epoll_select.py:33-37 | of several objects with one descriptor the last is remembered |
| EpollSelect.EpollSelect.Select | Project-4/pox/pox/lib/epoll_select.py:24-99 | the fields after a call and the three lists returned; the assertion is not reached |
| EpollSelect.EpollSelect.ModifyTable | Project-4/pox/pox/lib/epoll_select.py:28-53 | new descriptors gain the operation and expired ones lose it |
| ListenQueue.RoomIsFound | Project-3/connection_demux.c:192-202 | when the count says there is room, the scan finds a free slot |
| ListenQueue.CompletedIsCounted | Project-3/connection_demux.c:95-114 | when something has completed, the count is positive |
| ListenQueue.OpeningIsFound | Project-3/connection_demux.c:273-281 | a connection whose handshake completes has a slot, not yet in the completion queue |
| ListenQueue.CountIsOccupied | Project-3/connection_demux.c:192-202 | the count is the number of occupied slots and at most the queue's length |
| ListenQueue.EnqueueKeepsInv | Project-3/connection_demux.c:142-258 | a SYN keeps peers and descriptors of occupied slots distinct |
| ListenQueue.CompleteKeepsInv | Project-3/connection_demux.c:260-304 | completion entries name distinct occupied slots |
| ListenQueue.DequeueKeepsInv | Project-3/connection_demux.c:74-118 | an accept frees the slot of the oldest completed connection and returns that connection |
| ListenQueue.RunKeepsInv | Project-3/connection_demux.c:74-304 | in every run all of this holds, and connections are accepted once each, in completion order |
| ListenQueue.SynIsQueued | Project-3/connection_demux.c:162-255 | a SYN is queued exactly when it is new and there is a slot and a descriptor; a retransmission changes nothing |
| ListenQueue.AdmitsMeans | Project-3/connection_demux.c:162-224 | told without the count: a SYN of a peer without a slot, while a slot and a descriptor are free |
| ListenQueue.EnqueuePlaces | Project-3/connection_demux.c:192-236 | it takes one free slot and the lowest free descriptor and disturbs no other |
| ListenQueue.Listener.EnqueueConnection | Project-3/connection_demux.c:142-258 | the slots after a SYN and the value returned, failed allocation included |
| ListenQueue.Listener.PassiveConnectionComplete | Project-3/connection_demux.c:260-304 | for any connection of this queue whose handshake is going on the assertion holds: its slot is found and goes to the end of the completion queue |
| ListenQueue.Listener.DequeueConnection | Project-3/connection_demux.c:74-118 | the next connection in completion order is returned |
| ListenQueue.Listener.NewMysocket | Project-3/mysock.c:39-64 | the lowest free descriptor is taken, or -1 returned |
| ArpQueue.QueueReqIsSimple | Project-4/router/sr_arpcache.c:71-109 | the packet goes in front of those waiting for its address, and nothing else changes |
| ArpQueue.RequestGoesFirst | Project-4/router/sr_arpcache.c:71-109 | a new address comes first in the list of requests; otherwise the list keeps its order |
| ArpQueue.InsertIsSimple | Project-4/router/sr_arpcache.c:116-155 | an answer hands back all packets waiting for the address, and none waits for it any more |
| ArpQueue.DestroyIsSimple | Project-4/router/sr_arpcache.c:159-195 | exactly the destroyed request leaves the list, if it is still there |
| ArpQueue.RunKeepsInv | Project-4/router/sr_arpcache.c:71-195 | in any run there is one request for an address, and every packet is waiting in it, handed back, or dropped with it |
| ArpQueue.LookupIsInserted | Project-4/router/sr_arpcache.c:41-63 | a lookup never answers with a mapping that was not inserted |
| ArpQueue.LookupAfterInsert | Project-4/router/sr_arpcache.c:140-150 | when exactly a lookup finds the mapping just inserted |
| ArpQueue.ExpiryMeans | Project-4/router/sr_arpcache.c:236-258 | expiry invalidates exactly the entries more than fifteen seconds old |
| ArpQueue.AnswersAreFresh | Project-4/router/sr_arpcache.c:236-258 | right after it no answer is older than that |
| ArpQueue.NewMappingNotFound | Project-4/router/sr_arpcache.c:41-63 | a run after which the old mapping answers, not the one just inserted |
| ArpQueue.ArpCache.QueueRequest | Project-4/router/sr_arpcache.c:71-109 | the lists after the call, and the request returned is the address's |
| ArpQueue.ArpCache.InsertMapping | Project-4/router/sr_arpcache.c:116-155 | the lists and the table after the call, and the request returned |
| ArpQueue.ArpCache.DestroyRequest | Project-4/router/sr_arpcache.c:159-195 | the list after the call |
| ArpQueue.ArpCache.LookupIp | Project-4/router/sr_arpcache.c:41-63 | the last valid entry for the address |
| ArpQueue.ArpCache.ExpireEntries | Project-4/router/sr_arpcache.c:236-258 | exactly the entries older than 15 seconds become invalid |

## Left out

- Real sockets, threads, condition variables, timers and the epoll system calls: each locked region or handler is one step,
  channels are sequences, clocks and poll results are parameters.
- STCP with simultaneous close, where each side would ignore the other's FIN. The windows are not claimed to balance when data
  goes both ways at once, because they do not. What the program does after asking for a negative number of bytes is not
  represented.
- STCP header fields the code never initialises: they are arbitrary values in every step. `right`, `LAR`, `LFS`, `SWS` and
  `times` are never read and are not modelled. The ports, checksum and urgent fields that `stcp_network_send` fills in are
  not part of the packets; the checksum is the subject of `Checksum`. `stcp_network_recv` asserts nothing about it, because
  its assertion already holds for any length.
- StcpConnection.Connection: holds the contents of its three queues as sequences; the linked list itself, with its head and
  tail pointers, is proved in `StcpQueue.PacketQueue`. `myclose` waits for the transport thread; here the request and the
  thread's exit are separate steps.
- MAC learning, LLDP parsing, flow installation and ICMP in the routing component. `sw.connection.send` always succeeds. The
  nested default dictionaries are maps keyed by pairs, so the None entries that reading inserts are not represented.
- Checksum.ChecksumsAgree: for the segments longer than 65529 bytes whose signed sum overflows, C does not define the result.
- OfMatch: building matches from strings (`parseCIDR`, `optimize`), and `set_nw_dst(None)`, which
  writes the source address. Address fields are 32-bit values in host order.
- OfActions: the `data` of a generic action header, which packing does not write and equality does not compare. DEC_MPLS_TTL
  and RESUBMIT are their subclasses of the generic header; a plain generic header of these types comes back as the subclass.
- OfFlowMod.FlowModRoundTrip: does not cover actions whose length field was changed by hand, because their bytes are not as
  many as it says; they do unpack as modelled. A transaction number is given, not generated.
- OfFrames: `ethernet` objects built by hand rather than parsed from bytes, and `from_packet` without a port.
- FlowTable: entries are values numbered by the call that added them, so sharing of action lists between a command and its
  entries is not represented. `entries_for_port`, `flow_stats`, the `out_port` filter and `NOMFlowTable` are not modelled.
- LtFraming: only unsigned field codes; the bodies of messages are not interpreted, so a message of unknown type is delivered
  as its frame.
- EpollSelect: lists are compared and kept by value, so a caller that changes a list in place after passing it is not
  represented; neither is a descriptor that is closed while registered.
- ListenQueue: `_mysock_set_backlog` called again, and closing the listening socket. The completion list is a sequence of slot
  numbers. The network state of a new connection is not part of this model; neither is a handshake that fails. The application is taken to close only descriptors it holds.
- ArpQueue: the two linked lists are sequences; `sr_arpcache_sweepreqs` and the handling of replies in the router are not modelled.
- VNS banner splitting, other OpenFlow messages, ICMP, the file servers, the GUI and messenger tools: thin glue or fixed layouts.
