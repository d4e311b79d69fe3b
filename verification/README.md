# TorVM verification

A Dafny model of the algorithmic cores of TorVM, with machine-checked proofs of what they promise. `dafny verify dfyconfig.toml`
checks all of it.

| core | files | main results |
|---|---|---|
| HNSW nearest-neighbour index | `VectorSpace`, `DistHeap`, `HnswGraph`, `HnswSearch`, `HnswInsertion`, `HnswIndex`, `HnswUniqueness` | search is greedy descent and best-first search, with one answer where there are no ties; insertion keeps the graph invariant and has one outcome; search is exact on small indexes, and the bottom layer is complete exactly up to that size |
| packet codec | `Bytes`, `Checksum`, `SwiftChecksum`, `Headers`, `Transport`, `PacketLayout` | build then verify, build then intercept, parse and serialise round trips, every field at its octets, exactly what is dispatched, exact detection power of the checksum |
| TCP sessions | `TcpWire`, `IosSession`, `IosStates`, `IosUpstream`, `AndroidSession`, `AndroidStates`, `AndroidDownstream`, `SessionTable`, `Congestion` | state diagrams, downstream sequence spaces and acknowledgements over every run, upstream conservation, which packets are acknowledged in full, the session table, Reno and RTT bounds |
| lifecycle | `Lifecycle`, `LifecycleSafety`, `LifecycleCalls`, `LifecycleEngine` | termination against any environment, every call of a pass, teardown, failsafe and the VM over whole runs, exactly when a run returns |
| encrypted search | `Fhe`, `InvertedIndex`, `EncryptedIndex`, `VectorFhe` | encrypted search agrees with plaintext search; the dot product survives the modulus |
| small algorithms | `RingWriter`, `Bresenham` | the ring buffer refines the log stream; the line is exact and connected |
| shared | `Wrappers`, `Numbers` | optional values; least, greatest and magnitude |

Code that updates fields or arrays in place is modelled by classes and methods with loops, each proved against a
specification function or predicate; the theorems are lemmas about those. Session, lifecycle and congestion behaviour is
a step function over events, and every theorem about it speaks of all event sequences.

## How the environment appears

- Vector similarity is an arbitrary total function of query and stored vector; the random level of an insertion is a parameter.
- Suspension points of the iOS actor (the upstream connect and each upstream send) split a handler into two events that anything
  may come between. A call of the actor's own method does not suspend. The Android session handles a packet as one step, because
  its mutex is held throughout; how a connect or write ends is part of the event, and a failed write may have passed on a prefix.
- Calls of the lifecycle engine to the VM, the network and the clock are answers of an arbitrary environment, one record a pass.
- A ciphertext is the slots it decrypts to; homomorphic operations act slotwise modulo 65537. Tokeniser and digest are arbitrary.
- Real arithmetic stands for floating point. Integer widths are written out where they matter: sequence numbers, header fields,
  document ids, the 32-bit accumulator.

## Where the code departs from what one might expect

- `Engine.Run` is documented to block until the VM exits or the context is cancelled. Because the loop re-enters Shutdown at the
  start of each pass in a cancelled context, a cancelled run never reaches Cleanup and never returns
  (`LifecycleSafety.CancelledRunNeverReturns`, `LifecycleSafety.ReturnsUnlessCancelled`).
- The retry policy has an entry for FlushDNS, whose handler never returns an error (`Lifecycle.FlushDNSRunsOnce`).
- Upstream data is relayed behind our own FIN, even in a closed session (`IosSession.DataAfterOurFin`,
  `IosSession.DataAfterClose`), exactly in the runs `IosSession.DataAfterFinExactly` describes. A send that completes after the client's FIN has been
  acknowledged moves the acknowledgement beyond it (`IosUpstream.LateSendOvershoots`, `IosUpstream.FinIsNeverOvershot`).
- `AndroidSession.AcknowledgedExactly` says which packets the Android session acknowledges in full. It drops the payload of a
  FIN segment in every state (`AndroidSession.FinPayloadIsNotAcknowledged`, `AndroidSession.FinPayloadDroppedInFinWait`), does
  not answer a FIN repeated in LAST_ACK (`AndroidSession.RetransmittedFinIsNotAnswered`), ignores data in the FIN_WAIT states
  (`AndroidSession.DataIgnoredInFinWait`) and writes a retransmission upstream twice
  (`AndroidSession.RetransmissionIsWrittenTwice`).
- RFC 768's rule that a computed checksum of zero is sent as all ones is not applied (`Transport.ZeroChecksumIsSent`,
  `Transport.ZeroChecksumDatagram`).
- Posting lists lose their order once the 32-bit document counter wraps (`InvertedIndexes.OrderHoldsExactly`,
  `InvertedIndexes.FirstWrappedId`).
- The Reno bounds fail for segment sizes above 32767 octets (`Congestion.BoundsHoldExactly`).

## Model

| member | source | states |
|---|---|---|
| VectorSpace.FlatStoreHoldsIds | controller/internal/vectorindex/hnsw.go:296-312 | a flat store of n vectors of the index dimension keeps every slice `vectors[id*dim..]` of an id below n in bounds |
| VectorSpace.AppendKeepsVectors | controller/internal/vectorindex/hnsw.go:64-72 | appending a vector gives the new id that vector and changes no earlier vector and no distance to one |
| DistHeaps.DistHeap.RootIsExtremal | controller/internal/vectorindex/hnsw.go:321-336 | in a heap-ordered list the root precedes every element |
| DistHeaps.DistHeap.SiftUpStep | controller/internal/vectorindex/hnsw.go:321-340 | one exchange of the sift-up leaves at most one element out of order, one level higher |
| DistHeaps.DistHeap.SiftDownStep | controller/internal/vectorindex/hnsw.go:321-347 | one exchange with the preceding child leaves at most one element out of order, one level lower |
| DistHeaps.DistHeap.Push | controller/internal/vectorindex/hnsw.go:338-340 | adds exactly the element and keeps the heap order |
| DistHeaps.DistHeap.Pop | controller/internal/vectorindex/hnsw.go:341-347 | removes exactly one element, one that no other precedes, and keeps the heap order |
| DistHeaps.DistHeap.Peek | controller/internal/vectorindex/hnsw.go:348-353 | returns an element no other precedes, or -1 exactly for an empty heap |
| HnswSearch.NeighborJoins | controller/internal/vectorindex/hnsw.go:165-216 | a neighbour that meets a beam with room joins it and the search invariant stays |
| HnswSearch.NeighborReplaces | controller/internal/vectorindex/hnsw.go:165-216 | a neighbour that meets a full beam competes, the farthest leaves, and the search invariant stays |
| HnswSearch.NeighborRejected | controller/internal/vectorindex/hnsw.go:165-216 | a neighbour at least as far as a full beam only becomes visited |
| HnswSearch.EarlyExitLeavesNothing | controller/internal/vectorindex/hnsw.go:165-216 | the early exit is sound: when it is taken every result has been expanded |
| HnswSearch.FinishedSearchIsBeam | controller/internal/vectorindex/hnsw.go:165-216 | a finished search yields a distinct, sorted list of the nearest of everything visited, closed under the edges of its members |
| HnswIndex.HNSWIndex.Expand | controller/internal/vectorindex/hnsw.go:165-216 | the neighbour loop visits every edge of the expanded node and keeps the search invariant |
| HnswIndex.HNSWIndex.Round | controller/internal/vectorindex/hnsw.go:165-216 | one round keeps the search invariant and visits something new or uses up a candidate |
| HnswSearch.TakenComesNext | controller/internal/vectorindex/hnsw.go:165-216 | the candidate a search goes on with is a nearest of all nodes seen and not expanded, and fewer than a beam of the nodes seen are strictly nearer |
| HnswIndex.HNSWIndex.SearchLayer | controller/internal/vectorindex/hnsw.go:165-216 | terminates and returns what a best-first search finds: it expands nodes in order of distance among those seen, as long as a beam of the nodes seen has room for the next, and returns a distinct, sorted, closed beam of the nearest of all seen, every member of it expanded |
| HnswUniqueness.SearchIsUnique | controller/internal/vectorindex/hnsw.go:165-216 | without ties all best-first searches from an entry expand the same nodes in the same order and find the same beam |
| HnswUniqueness.LeadsToOne | controller/internal/vectorindex/hnsw.go:220-239 | the greedy descent of a layer ends at one node, ties or no ties |
| HnswUniqueness.AnswerIsUnique | controller/internal/vectorindex/hnsw.go:128-161 | a query from which no two stored vectors are equally far has exactly one answer in the sense SearchKNN promises |
| HnswUniqueness.InsertionIsUnique | controller/internal/vectorindex/hnsw.go:64-125 | without ties the graph after an insertion is determined by the graph before, the vector and the level |
| HnswGraph.DegreesAreBounded | controller/internal/vectorindex/hnsw.go:64-125 | a well-formed graph has at most m edges a node on each layer, 2m on the bottom one |
| HnswGraph.WideBeamIsReachable | controller/internal/vectorindex/hnsw.go:165-216 | a beam as wide as what the entry reaches on the layer is exactly that set |
| HnswGraph.BeamOnCompleteLayer | controller/internal/vectorindex/hnsw.go:165-216 | on a complete layer the search visits every node, and returns all of them if the beam is wide enough |
| HnswIndex.HNSWIndex.ScanForNearer | controller/internal/vectorindex/hnsw.go:220-239 | the scan, which rebinds the current node while walking the old list, ends at a nearest node of that list if it moves |
| HnswIndex.HNSWIndex.GreedyClosest | controller/internal/vectorindex/hnsw.go:220-239 | terminates; the result ends a walk from the entry whose every hop goes to the first of the nearest neighbours, strictly nearer, until no neighbour is; it is reachable, and on the layer if the entry is |
| HnswIndex.HNSWIndex.SelectNeighborsForNode | controller/internal/vectorindex/hnsw.go:243-274 | keeps all candidates if they fit, else k of them with no dropped one nearer than a kept one |
| HnswIndex.ExchangeSort | controller/internal/vectorindex/hnsw.go:243-274 | the in-place sort leaves the scored candidates a permutation in nondecreasing distance |
| HnswIndex.HNSWIndex.SelectNeighborsSimple | controller/internal/vectorindex/hnsw.go:277-286 | keeps the first k of a list |
| HnswInsertion.SetEdgesEffect | controller/internal/vectorindex/hnsw.go:64-125 | replacing one edge list by an admissible one keeps the whole graph invariant and every other list |
| HnswInsertion.LinkOneMore | controller/internal/vectorindex/hnsw.go:64-125 | one more neighbour gets its edge back, pruned to its nearest, and nothing else changes |
| HnswIndex.HNSWIndex.Connect | controller/internal/vectorindex/hnsw.go:64-125 | links a node into a layer along its beam: its edges, the edges back, pruning, no other list |
| HnswIndex.HNSWIndex.Descend | controller/internal/vectorindex/hnsw.go:64-125 | hands layer min(level, maxLevel) the node at which the chain of greedy descents from the entry point through the layers above ends |
| HnswIndex.HNSWIndex.LinkLayer | controller/internal/vectorindex/hnsw.go:64-125 | one layer of an insertion is searched best-first from its entry and linked along the beam found; the nearest node of the beam is handed on; the layers above and below stay as they are |
| HnswIndex.HNSWIndex.Insert | controller/internal/vectorindex/hnsw.go:64-125 | keeps the index invariant, hands out ids in order, appends the vector, links exactly the layers up to min(level, maxLevel), each along the beam found from the nearest node of the layer above, the top one from where the greedy descent ends, and moves the entry point exactly when the level is a new maximum |
| HnswInsertion.InsertionKeepsInvariant | controller/internal/vectorindex/hnsw.go:64-125 | edges stay in range, distinct, loop-free, at most m (2m at the bottom) and on nodes high enough; the entry point keeps the maximum level; no node is isolated at the bottom; completeness is decided by the size |
| HnswInsertion.LinkingLeavesNoIsolatedNode | controller/internal/vectorindex/hnsw.go:64-125 | with m >= 1 every node has a bottom-layer neighbour after an insertion into a non-empty index |
| HnswGraph.LinkingKeepsComplete | controller/internal/vectorindex/hnsw.go:64-125 | while everything fits, insertion keeps the bottom layer the complete graph |
| HnswInsertion.LinkingLeavesIncomplete | controller/internal/vectorindex/hnsw.go:64-125 | once something does not fit, an edge is missing, and a missing edge never comes back |
| HnswInsertion.InsertionDecidesCompleteness | controller/internal/vectorindex/hnsw.go:64-125 | the bottom layer is complete if and only if the index holds at most min(2m, max(1, efConstruct)) + 1 vectors |
| HnswIndex.HNSWIndex.SearchKNN | controller/internal/vectorindex/hnsw.go:128-161 | returns, with their scores, the first k of a best-first search of layer 0 for a beam of max(50, k) from the end of a chain with one node a layer: each is where the greedy descent of its layer leads, down to layer 1; the best hit is at least as similar as the entry point and, with several layers, as each of its neighbours on the top one; on an index of at most min(2m, max(1, efConstruct)) + 1 vectors it is the answer of an exhaustive search |
| HnswIndex.BeamGivesNearest | controller/internal/vectorindex/hnsw.go:128-161 | on a complete bottom layer the first k of a beam at least k wide are min(k, n) distinct ids, exactly k nearest, in order |
| HnswIndex.NearestScoresAreUnique | controller/internal/vectorindex/hnsw.go:128-161 | all exhaustive answers carry the same scores, whatever they choose among ties |
| Checksums.IpChecksum | android/app/src/main/kotlin/com/torvm/android/packet/Checksum.kt:25-49 | the loop computes the complement of the folded big-endian word sum, odd lengths padded with zero |
| Checksums.FoldClosedForm | android/app/src/main/kotlin/com/torvm/android/packet/Checksum.kt:42-45 | end-around carry is reduction modulo 65535, with zero reached from zero alone |
| Checksums.ZeroChecksum | android/app/src/main/kotlin/com/torvm/android/packet/Checksum.kt:25-49 | a buffer checks to zero if and only if its word sum is a positive multiple of 65535 |
| Checksums.StoredChecksumVerifies | android/app/src/main/kotlin/com/torvm/android/packet/Checksum.kt:25-49 | storing the checksum into its zeroed aligned field makes the buffer check to zero |
| Checksums.ReplacedFieldDetected | android/app/src/main/kotlin/com/torvm/android/packet/Checksum.kt:80-107 | a changed 16-bit field of a valid buffer goes unnoticed if and only if it changed between the two representations of zero |
| Checksums.ChangedByteDetected | android/app/src/main/kotlin/com/torvm/android/packet/Checksum.kt:80-107 | a single changed octet of a valid buffer is always noticed |
| SwiftChecksum.IpChecksum | ios/TorVMTunnel/Packet/Checksum.swift:22-47 | over any part of the buffer the 32-bit accumulator gives the same checksum, or traps exactly when the word sum exceeds 32 bits |
| SwiftChecksum.AccumulatorSafety | ios/TorVMTunnel/Packet/Checksum.swift:22-47 | no buffer of a given size overflows the accumulator if and only if the size is at most 131074 octets |
| SwiftChecksum.DatagramNeverTraps | ios/TorVMTunnel/Packet/Checksum.swift:106-139 | the pseudo-header and segment of any IPv4 datagram are summed without a trap |
| Headers.IPv4ToBytes | android/app/src/main/kotlin/com/torvm/android/packet/IPv4Header.kt:35-79 | the array written in place holds the serialised header with its own checksum |
| Headers.EncodedIPv4Verifies | android/app/src/main/kotlin/com/torvm/android/packet/IPv4Header.kt:35-79 | a serialised header checks to zero |
| Headers.ParseEncodedIPv4 | android/app/src/main/kotlin/com/torvm/android/packet/IPv4Header.kt:126-177 | parsing a serialised header gives it back with the checksum recomputed |
| Headers.EncodeParsedIPv4 | android/app/src/main/kotlin/com/torvm/android/packet/IPv4Header.kt:35-177 | serialising a parsed, valid, option-free header reproduces it if and only if its checksum field is not 0xFFFF, and otherwise stores 0x0000 there |
| Headers.TcpToBytes | android/app/src/main/kotlin/com/torvm/android/packet/TcpHeader.kt:38-82 | the array written in place holds the serialised header |
| Headers.ParseEncodedTcp | android/app/src/main/kotlin/com/torvm/android/packet/TcpHeader.kt:103-154 | parsing a serialised header anywhere in a buffer gives it back reduced to the field widths |
| Headers.UdpToBytes | android/app/src/main/kotlin/com/torvm/android/packet/UdpHeader.kt:20-40 | the array written in place holds the serialised header |
| Headers.ParseEncodedUdp | android/app/src/main/kotlin/com/torvm/android/packet/UdpHeader.kt:53-74 | parsing a serialised header anywhere in a buffer gives it back reduced to the field widths |
| PacketLayout.IPv4Octets | android/app/src/main/kotlin/com/torvm/android/packet/IPv4Header.kt:35-79 | where each field of a serialised header stands, octet by octet |
| PacketLayout.TcpOctets | android/app/src/main/kotlin/com/torvm/android/packet/TcpHeader.kt:38-82 | where each field of a serialised header stands, octet by octet |
| PacketLayout.UdpOctets | android/app/src/main/kotlin/com/torvm/android/packet/UdpHeader.kt:20-40 | where each field of a serialised header stands, octet by octet |
| PacketLayout.TcpPacketOctets | android/app/src/main/kotlin/com/torvm/android/packet/PacketBuilder.kt:33-98 | in a built packet the source address is at octet 12, the destination at 16, the ports, numbers, flags and window at their offsets, the payload at 40, with the fixed header values around them, and the words of addresses, protocol, length and segment sum to a multiple of 65535 |
| PacketLayout.UdpPacketOctets | android/app/src/main/kotlin/com/torvm/android/packet/PacketBuilder.kt:110-164 | the same for a built datagram |
| Transport.TcpUdpChecksum | android/app/src/main/kotlin/com/torvm/android/packet/Checksum.kt:109-141 | the checksum of pseudo-header, transport header and payload |
| Transport.VerifyTransportChecksum | android/app/src/main/kotlin/com/torvm/android/packet/Checksum.kt:80-107 | accepts exactly segments of at least 8 octets that check to zero with their pseudo-header |
| Transport.BuildTcpPacket | android/app/src/main/kotlin/com/torvm/android/packet/PacketBuilder.kt:33-98 | builds IP header, TCP header with its checksum patched in, and payload, in one array |
| Transport.BuildUdpPacket | android/app/src/main/kotlin/com/torvm/android/packet/PacketBuilder.kt:110-164 | builds IP header, UDP header with its checksum patched in, and payload, in one array |
| Transport.BuiltTcpVerifies | android/app/src/main/kotlin/com/torvm/android/packet/PacketBuilder.kt:33-98 | every built TCP packet, of odd or even length, passes the transport check, and its IP header checks to zero |
| Transport.BuiltUdpVerifies | android/app/src/main/kotlin/com/torvm/android/packet/PacketBuilder.kt:110-164 | every built UDP packet passes the transport check, and its IP header checks to zero |
| PacketLayout.InterceptedExactly | android/app/src/main/kotlin/com/torvm/android/tunnel/PacketInterceptor.kt:45-112 | what becomes of an arbitrary buffer, options included: handed to the TCP sessions or to the DNS relay if and only if its octets meet the stated conditions, with the addresses, ports, numbers, flags and payload they hold, and dropped otherwise |
| Transport.BuiltTcpIsDispatched | android/app/src/main/kotlin/com/torvm/android/tunnel/PacketInterceptor.kt:45-112 | a built TCP packet is dispatched once, to the TCP sessions, with its addresses, ports, numbers, flags, window and payload modulo the field widths, whatever lies behind it in the buffer |
| Transport.BuiltUdpIsDispatched | android/app/src/main/kotlin/com/torvm/android/tunnel/PacketInterceptor.kt:45-112 | a built UDP packet goes to the DNS relay if and only if its port is 53 and its payload is not empty |
| Transport.ZeroChecksumIsSent | android/app/src/main/kotlin/com/torvm/android/packet/PacketBuilder.kt:110-164 | a built datagram carries the checksum RFC 768 asks for if and only if the words of addresses, protocol, lengths, ports and payload do not sum to a multiple of 65535; otherwise its field is zero |
| Transport.ZeroChecksumDatagram | android/app/src/main/kotlin/com/torvm/android/packet/PacketBuilder.kt:110-164 | a datagram whose checksum field is zero: 0.0.0.0 port 65449 to 0.0.0.0 port 53 without payload |
| Transport.CorruptedTcpIsDropped | android/app/src/main/kotlin/com/torvm/android/tunnel/PacketInterceptor.kt:45-112 | a built TCP packet with one changed octet behind the IP header is dropped |
| IosSession.TcpSession.OnPacket | ios/TorVMTunnel/TCP/TcpSession.swift:79-154 | the fields and the segments sent change as the step function says, state by state |
| IosSession.TcpSession.OnConnectReturned | ios/TorVMTunnel/TCP/TcpSession.swift:255-277 | the rest of the upstream connect after its suspension |
| IosSession.TcpSession.OnSendReturned | ios/TorVMTunnel/TCP/TcpSession.swift:176-205 | the rest of a data step after its suspended send completes or fails |
| IosSession.TcpSession.HandleUpstreamData | ios/TorVMTunnel/TCP/TcpSession.swift:312-319 | a chunk is sent at the current sequence number, in any state |
| IosSession.TcpSession.HandleUpstreamEOF | ios/TorVMTunnel/TCP/TcpSession.swift:321-327 | our FIN is sent only from ESTABLISHED |
| IosSession.TcpSession.DoClose | ios/TorVMTunnel/TCP/TcpSession.swift:332-337 | drops the upstream connection and sets CLOSED |
| IosSession.StepEmits | ios/TorVMTunnel/TCP/TcpSession.swift:79-337 | every step appends nothing, the SYN+ACK, a bare control segment, a chunk, a FIN, or an acknowledgement and a FIN |
| IosSession.RunIsSound | ios/TorVMTunnel/TCP/TcpSession.swift:79-337 | over every interleaving of steps and suspensions the segments are contiguous, led by the one SYN+ACK |
| IosSession.ContiguousAt | ios/TorVMTunnel/TCP/TcpSession.swift:79-337 | each segment starts where those before it end, modulo 2^32 |
| IosSession.StreamIsRelayed | ios/TorVMTunnel/TCP/TcpSession.swift:281-319 | the client is sent exactly the upstream octets, in order |
| IosSession.SequenceSpace | ios/TorVMTunnel/TCP/TcpSession.swift:79-337 | the next octet is numbered ISN + 1 + octets relayed + (1 if our FIN is out) modulo 2^32; SYN+ACK and FIN are each sent at most once |
| IosSession.ChunkSequenceNumber | ios/TorVMTunnel/TCP/TcpSession.swift:312-319 | each chunk is sent at exactly that number |
| IosSession.StateOnlyAdvances | ios/TorVMTunnel/TCP/TcpSession.swift:79-337 | a step keeps the state or strictly raises its rank; CLOSED is absorbing |
| IosSession.FinIsOutOnceClosing | ios/TorVMTunnel/TCP/TcpSession.swift:79-337 | our FIN is out, once, if and only if the session has begun to close at some point of the run, closed sessions included |
| IosSession.ChunkFollowsFin | ios/TorVMTunnel/TCP/TcpSession.swift:312-319 | a chunk is sent behind our own FIN if and only if the session has begun to close before the chunk arrives, in every run; the FIN then takes up one number before it |
| IosSession.DataAfterFinExactly | ios/TorVMTunnel/TCP/TcpSession.swift:312-319 | a run sends no data behind our FIN if and only if all its non-empty relayed chunks arrive before the session begins to close |
| IosSession.DataAfterOurFin | ios/TorVMTunnel/TCP/TcpSession.swift:312-319 | a run in which data follows our FIN while the session is in LAST_ACK |
| IosStates.StateDiagram | ios/TorVMTunnel/TCP/TcpSession.swift:79-337 | the state diagram, complete and exact: a session changes to another state if and only if an event has an edge to it |
| IosStates.PacketClosesExactly | ios/TorVMTunnel/TCP/TcpSession.swift:79-154 | exactly which packets close a session in a reachable state; a close by reset drops the connection, and no close sends anything |
| IosStates.ConnectionFollows | ios/TorVMTunnel/TCP/TcpSession.swift:158-337 | when the connect is pending, the session connected, the reader running and the connection up |
| IosStates.SendsAreConserved | ios/TorVMTunnel/TCP/TcpSession.swift:176-205 | over every interleaving the payloads taken from the client are those whose send has been settled and those pending, each as often as taken |
| IosSession.DataAfterClose | ios/TorVMTunnel/TCP/TcpSession.swift:312-319 | a run in which data follows our FIN after the session is closed |
| IosUpstream.AcknowledgesDelivered | ios/TorVMTunnel/TCP/TcpSession.swift:79-223 | over every interleaving, until the client's FIN is taken the number acknowledged is the client's initial number + 1 + the octets whose send has completed; from then on the FIN's number + 1 + the octets whose send has completed since |
| IosUpstream.SegmentsAcknowledge | ios/TorVMTunnel/TCP/TcpSession.swift:79-327 | every segment a step sends carries the acknowledgement number the step leaves |
| IosUpstream.FinIsNeverOvershot | ios/TorVMTunnel/TCP/TcpSession.swift:176-223 | the number of the client's FIN plus one stays the number acknowledged in every continuation if and only if no send is pending when the FIN is taken |
| IosUpstream.LateSendOvershoots | ios/TorVMTunnel/TCP/TcpSession.swift:176-223 | a run whose last segment acknowledges number 4 although the client, FIN included, has sent nothing beyond number 2 |
| TcpWire.OccupiedIsStreamAndFins | ios/TorVMTunnel/TCP/TcpSession.swift:231-251 | segments occupy exactly their octets and their FINs |
| TcpWire.WrapIsModulo | ios/TorVMTunnel/TCP/TcpSession.swift:231-251 | wrapping is reduction modulo 2^32 |
| AndroidSession.TcpSession.HandlePacket | android/app/src/main/kotlin/com/torvm/android/tcp/TcpSession.kt:115-196 | one packet under the mutex changes the session as the step function says |
| AndroidSession.RunIsSound | android/app/src/main/kotlin/com/torvm/android/tcp/TcpSession.kt:115-264 | every acknowledgement number sent before the client's FIN, by a handler or by the reader at a packet boundary, is the client's initial number + 1 + octets accepted, over every sequential run |
| AndroidSession.RunAccepts | android/app/src/main/kotlin/com/torvm/android/tcp/TcpSession.kt:222-244 | the octets accepted in a run are the payloads of the data packets whose write succeeds |
| AndroidSession.UpstreamConservation | android/app/src/main/kotlin/com/torvm/android/tcp/TcpSession.kt:115-264 | what is written upstream starts with the accepted payloads in order, and is exactly them unless a write broke off |
| AndroidSession.NeverSynReceived | android/app/src/main/kotlin/com/torvm/android/tcp/TcpSession.kt:202-216 | SYN_RECEIVED is never seen between packets |
| AndroidStates.StateDiagram | android/app/src/main/kotlin/com/torvm/android/tcp/TcpSession.kt:115-382 | the state diagram, complete and exact: a session changes to another state if and only if an event has an edge to it |
| AndroidStates.PacketClosesExactly | android/app/src/main/kotlin/com/torvm/android/tcp/TcpSession.kt:115-196 | exactly which packets close an open session in a reachable state; a close by reset drops the connection, sends nothing and changes nothing else |
| AndroidStates.ConnectionFollows | android/app/src/main/kotlin/com/torvm/android/tcp/TcpSession.kt:202-333 | when the session is connected and has an output, what is on record of the client, and what each event writes upstream |
| AndroidDownstream.StepAppends | android/app/src/main/kotlin/com/torvm/android/tcp/TcpSession.kt:115-367 | exactly the segments each event sends, with their numbers |
| AndroidDownstream.SequenceSpace | android/app/src/main/kotlin/com/torvm/android/tcp/TcpSession.kt:202-367 | over every sequential run the client is sent the one SYN+ACK first, at the initial number, then segments that each stand, modulo 2^32, at the initial number + 1 + the octets and FINs sent before, and whose octets are those the reader got, in order |
| AndroidSession.EstablishedIsReadyToClose | android/app/src/main/kotlin/com/torvm/android/tcp/TcpSession.kt:115-264 | over every sequential run, whatever packets and reader events it consists of: an established session has written all octets accepted, and acknowledges a FIN numbered right behind them at ISN + 2 + their count |
| AndroidSession.InOrderAcceptsPrefix | android/app/src/main/kotlin/com/torvm/android/tcp/TcpSession.kt:222-244 | if each payload accepted is the next part of the client's stream, what is accepted is a prefix of the stream, whatever else the run holds |
| AndroidSession.InOrderClose | android/app/src/main/kotlin/com/torvm/android/tcp/TcpSession.kt:222-264 | an in-order client, with any acknowledgements of its own and any upstream data in between, has a prefix of its stream written while the session is established, and all of it written and its FIN acknowledged at ISN + 2 + stream length once all has been accepted |
| AndroidSession.OrderlyIsInOrder | android/app/src/main/kotlin/com/torvm/android/tcp/TcpSession.kt:222-244 | the client that sends its chunks one after the other is an in-order client |
| AndroidSession.OrderlyClose | android/app/src/main/kotlin/com/torvm/android/tcp/TcpSession.kt:250-264 | the instance for a client that sends only its SYN, its chunks and a payload-free FIN: stream written, FIN acknowledged at ISN + 2 + stream length |
| AndroidSession.AcknowledgedExactly | android/app/src/main/kotlin/com/torvm/android/tcp/TcpSession.kt:115-264 | in every reachable state and for every packet: the packet is acknowledged in full if and only if it is a bare SYN in LISTEN, a bare FIN in ESTABLISHED, FIN_WAIT_1 or FIN_WAIT_2, or data at the next number, written upstream, in ESTABLISHED |
| AndroidSession.FinPayloadIsNotAcknowledged | android/app/src/main/kotlin/com/torvm/android/tcp/TcpSession.kt:115-264 | in every state: a FIN segment is acknowledged in full if and only if it carries no payload and the state is ESTABLISHED, FIN_WAIT_1 or FIN_WAIT_2 |
| AndroidSession.RetransmissionIsWrittenTwice | android/app/src/main/kotlin/com/torvm/android/tcp/TcpSession.kt:222-244 | a retransmitted segment is written upstream again |
| AndroidSession.AckMatchesExactlyInOrder | android/app/src/main/kotlin/com/torvm/android/tcp/TcpSession.kt:115-244 | in every reachable state: a data segment is answered by exactly the acknowledgement its sender expects if and only if the session is established and the segment comes at the next number |
| AndroidSession.RetransmittedFinIsNotAnswered | android/app/src/main/kotlin/com/torvm/android/tcp/TcpSession.kt:115-196 | a run in which the client repeats its FIN in LAST_ACK: nothing is sent and the session closes |
| AndroidSession.FinPayloadDroppedInFinWait | android/app/src/main/kotlin/com/torvm/android/tcp/TcpSession.kt:115-196 | a run in which the payload of a FIN is dropped in FIN_WAIT_1 |
| AndroidSession.DataIgnoredInFinWait | android/app/src/main/kotlin/com/torvm/android/tcp/TcpSession.kt:115-196 | a run in which an in-order data segment changes nothing in FIN_WAIT_2 |
| SessionTable.TcpSessionManager.HandlePacket | android/app/src/main/kotlin/com/torvm/android/tcp/TcpSessionManager.kt:97-139 | at most 1024 sessions, each under its own 4-tuple; a packet touches only the session of its key; a SYN is refused, by a reset that acknowledges one more than its number, exactly when the table is full; a session leaves the table when a later packet finds or leaves it closed, whereas one whose opening connect fails stays until its next packet or cleanup |
| SessionTable.TcpSessionManager.SendRst | android/app/src/main/kotlin/com/torvm/android/tcp/TcpSessionManager.kt:144-163 | the reset acknowledges one more for a SYN |
| SessionTable.TcpSessionManager.Cleanup | android/app/src/main/kotlin/com/torvm/android/tcp/TcpSessionManager.kt:169-189 | removes and closes exactly the sessions that are closed or idle for more than a minute in TIME_WAIT, ten seconds in SYN_RECEIVED, five minutes otherwise, so that no closed session remains, and leaves the others unchanged |
| Congestion.CongestionController.OnSend | android/app/src/main/kotlin/com/torvm/android/tcp/CongestionController.kt:52-54 | the bytes in flight grow by what is sent, and stay within the window if the sender asked first |
| Congestion.CongestionController.OnAck | android/app/src/main/kotlin/com/torvm/android/tcp/CongestionController.kt:60-70 | slow start below the threshold, congestion avoidance at or above it |
| Congestion.CongestionController.UpdateRtt | android/app/src/main/kotlin/com/torvm/android/tcp/CongestionController.kt:77-93 | the estimator and the clamped timeout |
| Congestion.CongestionController.OnTimeout | android/app/src/main/kotlin/com/torvm/android/tcp/CongestionController.kt:98-104 | half the window as threshold, one segment as window, doubled timeout |
| Congestion.CongestionController.OnTripleDuplicateAck | android/app/src/main/kotlin/com/torvm/android/tcp/CongestionController.kt:110-113 | half the window as threshold, and that plus three segments as window |
| Congestion.CongestionController.GetWindowSize | android/app/src/main/kotlin/com/torvm/android/tcp/CongestionController.kt:46-46 | the advertised window is at most 65535 |
| Congestion.AdvertisedWindowFits | android/app/src/main/kotlin/com/torvm/android/tcp/CongestionController.kt:46-46 | over every run the advertised window is at least a segment and fits its 16-bit field |
| Congestion.CongestionController.DoReset | android/app/src/main/kotlin/com/torvm/android/tcp/CongestionController.kt:116-124 | back to the initial fields |
| Congestion.FieldsFitInt | android/app/src/main/kotlin/com/torvm/android/tcp/CongestionController.kt:15-124 | in a run of moderate length that sends less than 2^31 octets none of the 32-bit fields overflows at any point |
| Congestion.BoundsHoldExactly | android/app/src/main/kotlin/com/torvm/android/tcp/CongestionController.kt:15-124 | cwnd >= mss, ssthresh >= 2*mss, no negative bytes in flight and 200 <= rto <= 60000 hold over every run of events if and only if mss <= 32767 |
| Congestion.RunKeepsBounds | android/app/src/main/kotlin/com/torvm/android/tcp/CongestionController.kt:15-124 | over every run of events the bounds hold and the window grows by at most 4 segments an event |
| Congestion.WindowFitsInt | android/app/src/main/kotlin/com/torvm/android/tcp/CongestionController.kt:15-124 | a run of moderate length keeps the window within 32 bits |
| Congestion.SmoothedRttInHull | android/app/src/main/kotlin/com/torvm/android/tcp/CongestionController.kt:77-93 | the smoothed RTT stays in the hull of its samples |
| Congestion.EstimateReachesLimit | android/app/src/main/kotlin/com/torvm/android/tcp/CongestionController.kt:77-93 | under a constant sample r the estimate reaches its limit in [r - 7, r] within |s - r| updates and stays there |
| Congestion.TimeoutsBackOff | android/app/src/main/kotlin/com/torvm/android/tcp/CongestionController.kt:98-104 | n timeouts in a row multiply the retransmission timeout by 2^n, up to a minute |
| Congestion.LossHalves | android/app/src/main/kotlin/com/torvm/android/tcp/CongestionController.kt:98-113 | a loss sets the threshold to half the window, but at least two segments, and the window to a segment or to the threshold and three |
| Congestion.SlowStartGrowth | android/app/src/main/kotlin/com/torvm/android/tcp/CongestionController.kt:60-70 | below the threshold the window grows by exactly what each ACK acknowledges, at most a segment |
| Congestion.AvoidanceStep | android/app/src/main/kotlin/com/torvm/android/tcp/CongestionController.kt:60-70 | at the threshold an ACK adds the whole part of mss^2 / cwnd, at least one octet |
| Congestion.FlightIsUnacknowledged | android/app/src/main/kotlin/com/torvm/android/tcp/CongestionController.kt:52-70 | the bytes in flight are those sent and not yet acknowledged |
| Congestion.VarianceReachesLimit | android/app/src/main/kotlin/com/torvm/android/tcp/CongestionController.kt:77-93 | under a constant sample of a settled estimate the variance comes to rest at most 3 below the estimate's error |
| Congestion.SampleSetsTimeout | android/app/src/main/kotlin/com/torvm/android/tcp/CongestionController.kt:77-93 | the timeout is the estimate plus four variances, or one, kept between 200 ms and a minute |
| Congestion.FirstSample | android/app/src/main/kotlin/com/torvm/android/tcp/CongestionController.kt:77-93 | the first sample sets the estimate, and half of it the variance |
| Congestion.LinearGrowth | android/app/src/main/kotlin/com/torvm/android/tcp/CongestionController.kt:60-70 | n avoidance acknowledgements with n*mss <= cwnd <= mss^2 grow the window by at most mss |
| LifecycleEngine.FailSafe.Activate | controller/internal/lifecycle/failsafe.go:29-42 | tears the routing down, but only if the failsafe was off |
| LifecycleEngine.FailSafe.Deactivate | controller/internal/lifecycle/failsafe.go:45-55 | the failsafe is off afterwards |
| LifecycleEngine.Engine.Move | controller/internal/lifecycle/lifecycle.go:307-323 | a transition forgets the attempts of the state it leaves |
| LifecycleEngine.Engine.SaveConfig | controller/internal/lifecycle/lifecycle.go:330-338 | saves the configuration and moves on, or fails without a change |
| LifecycleEngine.Engine.CreateTap | controller/internal/lifecycle/lifecycle.go:340-360 | an address that does not parse fails before the call |
| LifecycleEngine.Engine.Launch | controller/internal/lifecycle/lifecycle.go:362-368 | starts the VM and moves on if that succeeds |
| LifecycleEngine.Engine.ConfigureTap | controller/internal/lifecycle/lifecycle.go:408-418 | an address that does not parse fails before the call |
| LifecycleEngine.Engine.FlushDns | controller/internal/lifecycle/lifecycle.go:420-445 | never fails |
| LifecycleEngine.Engine.StayRunning | controller/internal/lifecycle/lifecycle.go:507-519 | switches the failsafe off, and on again for an unexpected exit |
| LifecycleEngine.Engine.Stop | controller/internal/lifecycle/lifecycle.go:521-538 | drops the control connection and stops a running VM |
| LifecycleEngine.Engine.Restore | controller/internal/lifecycle/lifecycle.go:540-558 | tears down, falls back on the failsafe, restores the saved configuration, destroys the TAP device |
| LifecycleEngine.Engine.Execute | controller/internal/lifecycle/lifecycle.go:222-282 | the handler of the current state, and only that |
| LifecycleEngine.Engine.RetryOrGiveUp | controller/internal/lifecycle/lifecycle.go:278-296 | another attempt within the policy, or the failsafe and Shutdown |
| LifecycleEngine.Engine.Step | controller/internal/lifecycle/lifecycle.go:222-297 | one pass of the loop |
| LifecycleEngine.Engine.Run | controller/internal/lifecycle/lifecycle.go:222-297 | terminates within the budget against any environment that never cancels; its passes form a run in the sense of the theorems, and it returns Finished or NotPrivileged |
| Lifecycle.RunTerminates | controller/internal/lifecycle/lifecycle.go:222-323 | a run that sees no cancellation has returned once its budget of passes is spent, never by way of StateFailed |
| Lifecycle.PassSpendsBudget | controller/internal/lifecycle/lifecycle.go:222-297 | every pass returns or strictly lowers the measure of states and retries left |
| Lifecycle.BudgetIsReached | controller/internal/lifecycle/retry.go:71-93 | the budget is exact: under every policy some environment makes a run use up all of it before it finishes |
| Lifecycle.DefaultBudget | controller/internal/lifecycle/retry.go:96-129 | under the default policy a run has returned after 22 passes, and some run takes all 22 |
| Lifecycle.DefaultVisits | controller/internal/lifecycle/retry.go:96-129 | how often each state runs at most under the default policy |
| Lifecycle.PermanentExactly | controller/internal/lifecycle/retry.go:30-69 | a failure is permanent if and only if its text holds one of the four permanent patterns and none of the four transient ones |
| LifecycleCalls.PassWorks | controller/internal/lifecycle/lifecycle.go:222-564 | what one pass does against any answers: exactly the calls of the state it executes, in order, and then the very next state, another attempt within the policy, Shutdown, or the return; and what becomes of failsafe, control connection and saved configuration |
| LifecycleCalls.StopsExactly | controller/internal/lifecycle/lifecycle.go:521-538 | the VM is stopped in a run exactly by the passes that execute Shutdown while it is running |
| LifecycleCalls.RunningVmIsStopped | controller/internal/lifecycle/lifecycle.go:521-564 | after a pass that executes Shutdown with the VM running the VM is stopped, never started again, and routing is torn down behind the stop by Cleanup |
| LifecycleCalls.FinishedRunStopsVM | controller/internal/lifecycle/lifecycle.go:521-564 | every run that finishes has executed Shutdown and has stopped a running VM there, before its TeardownRouting |
| LifecycleCalls.SmoothRun | controller/internal/lifecycle/lifecycle.go:222-564 | a run without trouble finishes after 13 passes with every call made once, in order |
| Lifecycle.FlushDNSRunsOnce | controller/internal/lifecycle/lifecycle.go:420-445 | FlushDNS runs at most once, whatever retries the policy grants it |
| Lifecycle.StateIsVisitedBoundedly | controller/internal/lifecycle/retry.go:71-93 | a state runs at most MaxAttempts + 1 times, and once if it cannot fail or has no policy |
| Lifecycle.HandlerIsWellBehaved | controller/internal/lifecycle/lifecycle.go:330-564 | a handler fails only in a fallible state and without moving; otherwise it moves forward or returns |
| Lifecycle.RunExists | controller/internal/lifecycle/lifecycle.go:222-297 | every environment has a run of any number of passes |
| LifecycleSafety.PassKeepsSafety | controller/internal/lifecycle/lifecycle.go:222-297 | no pass, cancelled or not, loses track of what must be undone or drops the failsafe early |
| LifecycleSafety.FinishedRunUndoesEverything | controller/internal/lifecycle/lifecycle.go:540-564 | a run that finishes has called TeardownRouting after its last SetupRouting and DestroyTAP after its last CreateTAP, restored exactly the configuration it saved, and left the failsafe off |
| LifecycleSafety.FailsafeCoversShutdown | controller/internal/lifecycle/lifecycle.go:278-295 | from the error that ends a run until its return the failsafe is on, TeardownRouting has been called since the last SetupRouting, and the state is Shutdown, RestoreNetwork or Cleanup |
| LifecycleSafety.RefusedRunTouchesNothing | controller/internal/lifecycle/lifecycle.go:235-239 | a run refused for lack of privileges has called nothing |
| LifecycleSafety.CancelledRunNeverReturns | controller/internal/lifecycle/lifecycle.go:224-226 | a run that sees the context cancelled never reaches Cleanup: it never returns, and nothing more is torn down, destroyed or restored than before |
| LifecycleSafety.ReturnsUnlessCancelled | controller/internal/lifecycle/lifecycle.go:222-297 | with a context that stays cancelled once it is, a run returns if and only if none of its passes finds it cancelled |
| InvertedIndexes.AppendUnique | controller/internal/index/inverted.go:127-134 | appends an id unless the list has it |
| InvertedIndexes.InvertedIndex.AddDocument | controller/internal/index/inverted.go:44-83 | files the document under a fresh 32-bit id and enters that id under exactly the hashes of its tokens |
| InvertedIndexes.InvertedIndex.EnterTokens | controller/internal/index/inverted.go:76-80 | the token loop enters the id under each hash |
| InvertedIndexes.EnteredLists | controller/internal/index/inverted.go:76-80 | exactly the lists of the hashes the tokens have gain the id |
| InvertedIndexes.EnteringRepresents | controller/internal/index/inverted.go:44-83 | after any sequence of additions every hash leads to its posting list, and only non-empty lists are kept |
| InvertedIndexes.PostingListIsExact | controller/internal/index/inverted.go:44-92 | a posting list names, once each, exactly the ids of documents with a token of that hash |
| InvertedIndexes.PostingListIsIncreasing | controller/internal/index/inverted.go:44-83 | until the id counter wraps, posting lists are strictly increasing |
| InvertedIndexes.AppendedIsIncreasing | controller/internal/index/inverted.go:127-134 | adding an id keeps a list increasing if and only if the list has it or has none as large |
| InvertedIndexes.IncreasingExactly | controller/internal/index/inverted.go:44-83 | over every sequence of additions a posting list is increasing if and only if each document that has the hash repeats the id of an earlier one that has it or comes with the greatest id so far |
| InvertedIndexes.OrderHoldsExactly | controller/internal/index/inverted.go:48-49 | all posting lists of all indexes of n documents are increasing if and only if n is at most 2^32 |
| InvertedIndexes.FirstWrappedId | controller/internal/index/inverted.go:48-49 | a sequence of 2^32 + 1 additions that leaves a list out of order |
| InvertedIndexes.WrappedIdBreaksOrder | controller/internal/index/inverted.go:48-49 | document 2^32 + 1 makes a non-empty list that lacks id 0 lose its order |
| InvertedIndexes.InvertedIndex.Query | controller/internal/index/inverted.go:86-92 | the posting list of the term's hash |
| InvertedIndexes.InvertedIndex.LocalQuery | controller/internal/index/query.go:10-19 | one document for every id of the posting list, none skipped |
| InvertedIndexes.InvertedIndex.TermHashes | controller/internal/index/inverted.go:117-125 | the hashes in use, each once, in an arbitrary order |
| EncryptedIndexes.BuildEncryptedIndex | controller/internal/index/encrypted.go:34-80 | pages holding exactly the hashes in use, with the counts |
| EncryptedIndexes.EncryptPages | controller/internal/index/encrypted.go:43-66 | the stepping loop cuts the hashes into consecutive pages, the last one possibly short |
| EncryptedIndexes.EncryptedQuery | controller/internal/index/query.go:23-26 | the term's hash in every slot |
| EncryptedIndexes.DelegatedEvaluate | controller/internal/index/query.go:34-44 | one slotwise difference a page, in page order |
| EncryptedIndexes.DecryptResults | controller/internal/index/query.go:48-67 | the marked slots of all pages, counted across pages |
| EncryptedIndexes.BlindSearchIsExact | controller/internal/index/query.go:23-67 | build, query, evaluate and decrypt return exactly the positions of the hash across all pages, in increasing order; no padding slot is reported |
| EncryptedIndexes.PositionsAreOccurrences | controller/internal/index/query.go:48-67 | the reported positions are exactly the occurrences, increasing |
| EncryptedIndexes.EncryptedSearchAgrees | controller/internal/index/query.go:10-67 | encrypted search reports the one position of a term's hash if and only if the plaintext query finds documents, and nothing otherwise |
| Fhe.HashTerm | controller/internal/fhe/encrypt.go:14-19 | the hash is the residue of the digest modulo the plaintext modulus |
| Fhe.EncryptTermPage | controller/internal/fhe/encrypt.go:23-43 | the hashes fill the first slots and zeros the rest |
| Fhe.EncryptSingleTerm | controller/internal/fhe/encrypt.go:47-67 | the hash fills every slot |
| Fhe.DecryptMatchVector | controller/internal/fhe/compare.go:29-40 | the zero slots among the active ones |
| Fhe.MatchIsEquality | controller/internal/fhe/compare.go:16-40 | a slot is marked if and only if it holds the query's hash |
| VectorFhe.QuantizeVector | controller/internal/fhe/vector_encrypt.go:20-32 | each component is scaled, rounded half away from zero and mapped into [0, T) |
| VectorFhe.TiesGoOutward | controller/internal/fhe/vector_encrypt.go:20-32 | a component halfway between two integers is rounded away from zero |
| VectorFhe.DequantizeVector | controller/internal/fhe/vector_encrypt.go:36-49 | each slot is lifted around zero and scaled back; missing slots read as zero |
| VectorFhe.QuantizingIsExact | controller/internal/fhe/vector_encrypt.go:20-49 | a slot lifts back to the rounded component if and only if its magnitude is at most T/2 |
| VectorFhe.QuantizeRoundTrip | controller/internal/fhe/vector_encrypt.go:20-49 | quantise then dequantise is within 1/(2*scale) if and only if the rounded component has magnitude at most T/2 |
| VectorFhe.DecryptDotProduct | controller/internal/fhe/vector_compare.go:32-55 | the sum of the lifted slots, scaled back by the square of the scale |
| VectorFhe.SlotIsExactWithinHalf | controller/internal/fhe/vector_compare.go:17-55 | a product slot lifts to the product of the rounded components if and only if that has magnitude at most T/2 |
| VectorFhe.DotProductIsExact | controller/internal/fhe/vector_compare.go:17-55 | the lifted slot sum is the integer dot product of the rounded vectors |
| VectorFhe.ScoreError | controller/internal/fhe/vector_compare.go:32-55 | the integer dot product, scaled back, is within dim*(1/s + 1/(4*s^2)) of the real one |
| VectorFhe.EncryptedScoreIsClose | controller/internal/fhe/vector_compare.go:17-55 | quantise, encrypt, multiply, decrypt and scale stays within that bound for components in [-1, 1] at a safe scale |
| VectorFhe.SafeScales | controller/internal/fhe/vector_encrypt.go:10-16 | no product of components in [-1, 1] overflows a slot if and only if the scale is below 181.5 |
| VectorFhe.DefaultScaleIsSafe | controller/internal/fhe/vector_encrypt.go:10-16 | the default scale of 100 is safe |
| RingWriters.SplitIsFaithful | controller/internal/logging/ringwriter.go:36-53 | splitting into lines loses nothing, and no line or rest holds a newline |
| RingWriters.SplitAcrossChunks | controller/internal/logging/ringwriter.go:30-66 | the lines of two chunks are those of the first and those of its rest continued by the second |
| RingWriters.RingWriter.Store | controller/internal/logging/ringwriter.go:46-51 | the oldest line makes room: the buffer holds the last lines of the longer history |
| RingWriters.RingWriter.StoreLines | controller/internal/logging/ringwriter.go:36-53 | the loop stores every complete line and leaves the rest |
| RingWriters.RingWriter.Write | controller/internal/logging/ringwriter.go:30-66 | extends the stream by the bytes and reports each new line once, in order |
| RingWriters.RingWriter.Lines | controller/internal/logging/ringwriter.go:69-83 | the last min(capacity, n) complete lines of everything written |
| RingWriters.WriteAll | controller/internal/logging/ringwriter.go:30-66 | after any sequence of writes the callbacks have seen every line of the concatenation once, in order |
| RingWriters.ChunkingDoesNotMatter | controller/internal/logging/ringwriter.go:30-83 | two ways of cutting the same bytes leave the same lines, partial text and callbacks |
| Bresenham.OffsetFormula | controller/gui/globe.go:337-368 | the offset the loop keeps is the cross product of the moves with the direction of the line |
| Bresenham.PassKeepsStepping | controller/gui/globe.go:351-367 | one pass leads from point k to point k + 1 of the line, within half a step of the ideal one |
| Bresenham.ArrivedAfterAllMoves | controller/gui/globe.go:351-367 | the end is met after exactly max(|dx|, |dy|) moves |
| Bresenham.DrawLine | controller/gui/globe.go:337-368 | terminates after exactly max(|dx|, |dy|) moves at the end point; after i and j moves 2*|j*|dx| - i*|dy|| <= max(|dx|, |dy|); consecutive points are one unit apart on the longer axis and at most one on the other; the pixels set are the points inside the image |

## Left out

- HnswIndex.HNSWIndex.Insert: requires a vector of the index dimension, since a shorter one shifts every later slice of the flat store; levels are any natural numbers, and with m = 1, where the index's level factor is infinite, the level is still taken to be a number.
- HnswIndex.HNSWIndex.SelectNeighborsForNode: requires distinct candidates, which is what its caller passes.
- VectorSpace.AppendKeepsVectors: rounding, NaN and the square root of cosine similarity are not modelled, since similarity is an arbitrary function.
- Recall of the index beyond min(2m, max(1, efConstruct)) + 1 vectors: the search is a heuristic there; which nodes it finds is stated, not how many of the nearest they are.
- Locks of the Go code: methods are modelled as run one at a time, which the mutexes make them.
- Loops nested in one function of the program are split into helper methods (`Expand`, `LookAt`, `Compete`, `Round`, `Proceed`, `Append`, `DescendOne`, `LinkAll`, `LinkLayer`, `StoreLines`, `EnterTokens`, `EncryptPages`, `Sweep`), one loop or step each.
- Headers.IPv4ToBytes: requires a header length of at least 20 octets and a fragment offset of 13 bits, because overlapping bit fields would be merged by the serialiser's bitwise OR.
- Headers.TcpToBytes: requires an in-range data offset and reserved field for the same reason.
- Transport.BuildTcpPacket: array lengths are not bounded by 2^31, and the builder's running word sum, a 64-bit Long, is unbounded.
- The iOS packet files other than the accumulator of `Checksum.swift`, and the iOS session manager and congestion files: they mirror the Android ones.
- IosSession.SequenceSpace: says nothing about the window field of segments, which the congestion controller supplies.
- AndroidSession.UpstreamConservation: the upstream reader runs outside the mutex; its segments and its FIN are events at packet boundaries, so no claim is made about its interleaving inside a packet.
- TCP behaviour the code does not implement: retransmission, reordering, the CLOSING state.
- SessionTable.TcpSessionManager.HandlePacket: the coroutine that runs cleanup is modelled as calls between packets.
- Congestion.CongestionController.OnAck: fields are unbounded integers; `Congestion.FieldsFitInt` gives runs in which no 32-bit field overflows.
- Congestion.BoundsHoldExactly: says nothing of runs in which a 32-bit field overflows, because its fields are unbounded integers.
- LifecycleSafety.FailsafeCoversShutdown: speaks of calls; a TeardownRouting that is called and fails leaves the host's routing as the operating system has it.
- LifecycleEngine.Engine.Run: proved for contexts that are never cancelled; what a cancelled run does is stated about runs as sequences of passes.
- Lifecycle.StateIsVisitedBoundedly: retry delays and jitter are not modelled, only whether a retry happens.
- The waiting loops inside WaitTAP and WaitBootstrap are one answer of the environment; observers, metrics, logging and config reload are not modelled.
- EncryptedIndexes.BuildEncryptedIndex: the SHA-256 checksum of the pages and encryption errors are not modelled; it also returns the hash order it drew, which the program keeps to itself.
- EncryptedIndexes.DecryptResults: decryption is with the right key, and there are no more results than pages.
- InvertedIndexes.InvertedIndex.AddDocument: of the document record only id, path and word count are kept; file attributes and times come from the operating system.
- VectorFhe.QuantizeVector: values below -T or beyond 64 bits are converted by an arbitrary machine function, as the language leaves that open.
- VectorFhe.DecryptDotProduct: the final rounding to 32-bit floating point is not modelled.
- RingWriters.RingWriter.constructor: requires a positive capacity, since the writer indexes an empty slice at the first newline otherwise.
- Bresenham.DrawLine: coordinates are unbounded integers and the image is the list of pixels set.
- GUI rendering, SOCKS5, the DNS relay, the Tor control client, config validation, cryptographic internals and the C and browser components.
