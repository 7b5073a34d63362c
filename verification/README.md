# noff: reassemblers and parsers, modelled and verified

noff is a deep packet inspection pipeline: it captures IP packets, shards them over worker
threads, puts IP fragments back together, reassembles TCP streams, and parses what they carry.
This project models its hand-written stateful cores in Dafny and proves what they promise over
every input, every run or every interleaving. `dafny verify dfyconfig.toml` checks all of it.

| files | what they model |
|---|---|
| `SeqArith`, `SetFacts` | 32-bit arithmetic as C does it, sequence number comparison, facts about finite sets |
| `TcpReassembly`, `TcpConfluence` | the out-of-order queue of one direction, and its refinement of a reassembler on unbounded integers |
| `TcpStreams`, `TcpProtocol`, `TcpTimers`, `TcpOptions` | the tracker as functions: handshake, teardown, timers, stream table; what holds over every capture; which streams have a timer; window scaling |
| `TcpDelivery`, `TcpWindow` | one stream amid all other traffic: independence, the handshake, which packets are let in, and what the application hears |
| `TcpEndings` | why the history of a stream ends, and how: timers, RST, acknowledged FINs, the memory limit, a new SYN, a full table |
| `TcpServerQueue` | the queue from server to client, which the SYN/ACK renumbers |
| `TcpFragment` | the tracker as the object that runs, each method proved against those functions |
| `IpChain`, `IpRoundTrip` | one chain of fragments as a sequence: trimming, gluing, safety for arbitrary fragments, the round trip |
| `IpFragList`, `IpTimerList` | the doubly linked chain and timer list on the heap |
| `IpDefrag`, `IpRun`, `IpEviction`, `IpFragment` | hosts, memory accounts, eviction and timers; whole runs; which queues a packet lets go, and datagrams in traffic; the object that runs |
| `HttpTypes`, `HttpStep`, `HttpRun` | the parser record, one byte through the parser, and a call as the effect of its bytes |
| `HttpInvariant`, `HttpOrder`, `HttpSplit`, `HttpLedger`, `HttpLength`, `HttpWords`, `HttpOptions` | what holds between bytes, the order of callbacks, independence of how the input is cut, body conservation, lengths, the words and options recognised |
| `HttpRoundTrip`, `HttpFields`, `HttpTarget`, `HttpMessages` | the parts of a message, header lines of every kind, request targets of every form, and whole messages, written and read back |
| `HttpLimit`, `HttpStream` | the limit on the bytes of a header: when a call overflows, what the cut has to do with it, and messages in calls that know the limit |
| `HttpScan`, `HttpParser` | the loops that take many bytes at once, and the call as it runs, with marks and the header limit |
| `SessionWheel`, `SessionTable`, `SessionReport`, `TcpSession` | the timing wheel of sessions, the plain table it refines, what is reported and when, and the object that runs |
| `DnsName`, `DnsRoundTrip` | the two-pass name decoder, and names encoded and read back |
| `Sharding`, `Dispatcher` | the random-permutation symmetric hash, and dispatching to bounded queues as interleaved steps |

Three patterns recur. An object of the program is a class whose methods are proved equal to
functions on its abstract state, and the theorems are about those functions. A fast or wrapped
form is proved to refine a plain one: wrapped sequence numbers refine unbounded integers, linked
chains refine sequences, scanning loops refine one byte at a time, the wheel refines a table. And
where a property fails for some inputs, the failing case is given and the property is proved for
exactly the others: see `TcpServerQueue.SynAckExact`, `TcpTimers.NewStreamTimer`,
`IpRoundTrip.Reassembles`, `IpEviction.KeptExactly`, `HttpLimit.SplitExact`, `HttpLimit.ServedIsSerial`,
`HttpOptions.OptionsRecognised`, `DnsRoundTrip.PointerExact`, `SeqArith.BeforeExact`.

Where the code differs from what its comments say, the model follows the code: an entry of a
timer set whose second is already taken is dropped, so not every stream has a timer (`TcpTimers` says
which ones do); the branch
of `processTcp` that would restart an old stream from a client SYN cannot be reached, because its
flags are handled before; `http_should_keep_alive` asks for a major and a minor version above zero;
a compression pointer in a DNS name counts from where the questions start.

Preconditions come from the program: sizes and thresholds are positive, timestamps are not
negative, an input to the HTTP parser is shorter than the 32-bit counter of header bytes can
hold, and a DNS message is shorter than its 32-bit counters allow. Random bytes, the clock, the
hash of the stream table and the contents of freshly allocated memory are arbitrary.

## Model

| member | source | states |
|---|---|---|
| SeqArith.BeforeExact | dpi/Util.h:107-110 | `before` on wrapped numbers is the integer order exactly when the two integers are no further apart than half the sequence space. |
| SeqArith.AfterExact | dpi/Util.h:112-115 | The same for `after`, whose range is open at the other end. |
| SeqArith.HalfSpaceOrder | dpi/Util.h:107-115 | Inside half the space exactly one of before, equal, after holds. |
| SeqArith.HalfSpaceIsAmbiguous | dpi/Util.h:107-115 | At a distance of exactly half the space each number is before the other, so the bound above cannot be widened. |
| TcpReassembly.LostBounds | dpi/TcpFragment.cc:544-573 | Where a segment reaches past the wanted number, the part already delivered is no longer than the segment and `datalen - lost` does not wrap. |
| TcpReassembly.UrgentBounds | dpi/TcpFragment.cc:653-675 | In the urgent branch both lengths to copy are non-negative and, with the lost part and the urgent byte, add up to the segment. |
| TcpReassembly.AddFromskbAdvances | dpi/TcpFragment.cc:638-692 | Every guarded delivery moves `EXP_SEQ` exactly to the end of the segment's data, in the urgent and in the plain branch, through all wrap-around. |
| TcpConfluence.StepRefines | dpi/TcpFragment.cc:536-636 | One `tcpQueue` on wrapped numbers does what the unbounded-integer reassembler does: same queue, same bytes out, same wanted position. |
| TcpConfluence.DrainRefines | dpi/TcpFragment.cc:563-579 | The loop that goes forward through the queue refines the ideal loop. |
| TcpConfluence.TcpQueueKeepsOrder | dpi/TcpFragment.cc:563-635 | After any segment (urgent or not) the queue is sorted by distance ahead and every entry starts strictly after `EXP_SEQ`. |
| TcpConfluence.TcpQueueKeepsCharge | dpi/TcpFragment.cc:576-590 | `rmem_alloc` equals the sum of the queued `truesize` after any segment. |
| TcpConfluence.RunRefines | dpi/TcpFragment.cc:536-692 | A whole run of arrivals keeps the refinement and the account of which stream positions have been received. |
| TcpConfluence.FaithfulIsLongest | dpi/TcpFragment.cc:563-579 | What a faithful reassembler has handed out is the longest covered prefix, no more and no less. |
| TcpConfluence.DeliversLongestPrefix | dpi/TcpFragment.cc:536-692 | For slices of one stream without urgent data, arriving within half the space of the wanted number, the bytes handed out are exactly the longest prefix of the stream that the received segments cover. |
| TcpConfluence.OrderIndependent | dpi/TcpFragment.cc:536-692 | Two runs that receive the same bytes in any order, with any duplication or overlap, hand out the same bytes. |
| TcpStreams.Factor | dpi/TcpFragment.cc:495-523 | A shift count stands for a factor between 1 and 2^14, whatever the byte. |
| TcpOptions.WscaleExact | dpi/TcpFragment.cc:495-523 | On a well-formed option list the last window scale option is the one taken, and only its presence turns scaling on (section 2.3 of RFC 7323). |
| TcpOptions.ScaledWindow | dpi/TcpFragment.cc:257-261 | For any option bytes the scaled window stays below 2^30. |
| TcpProtocol.AbsorbKeeps | dpi/TcpFragment.cc:333-345 | Data, window update and memory limit keep history, order and charge; a stream that survives has at most 65535 bytes queued. |
| TcpProtocol.AcknowledgeKeeps | dpi/TcpFragment.cc:278-327 | The third step of the handshake and acknowledgements keep the stream's invariant, and a connection is reported only with handshake evidence in the capture. |
| TcpProtocol.StreamStepKeeps | dpi/TcpFragment.cc:185-346 | Every packet of a known stream keeps the invariant or ends the stream with a history that follows the protocol. |
| TcpProtocol.FreeKeeps | dpi/TcpFragment.cc:356-379 | Freeing a stream, reported or silent, keeps the table sound and leaves no timer that names it. |
| TcpProtocol.CheckTimeoutsKeeps | dpi/TcpFragment.cc:52-88 | The timeout check keeps the tracker good and leaves no due timer in either set. |
| TcpProtocol.ClearAllKeeps | dpi/TcpFragment.h:125-135 | Clearing the table ends every connected history with one timeout. |
| TcpProtocol.AddNewKeeps | dpi/TcpFragment.cc:442-493 | A new stream keeps flows distinct and the table within its limit, making room first. |
| TcpProtocol.SameFlow | dpi/TcpFragment.cc:413-440 | Two addresses have the same unordered pair of ends exactly if they are equal or mutually reversed. |
| TcpProtocol.LookupIsFlowMap | dpi/TcpFragment.cc:381-440 | The two-way lookup in the multimap is a map keyed by unordered pairs of ends, and tells the direction. |
| TcpProtocol.ProcessKeeps | dpi/TcpFragment.cc:121-346 | One captured packet, whatever it is, keeps the whole tracker's invariant. |
| TcpProtocol.RunIsGood | dpi/TcpFragment.cc:121-346 | The invariant holds after every capture. |
| TcpProtocol.CallbackProtocol | dpi/TcpFragment.cc:201-327 | Over every capture: a stream's connection callback comes at most once, first, and only after SYN, SYN/ACK and ACK with matching numbers (section 3.4 of RFC 793); then data; then at most one terminal callback, last. Which one, and why, is TcpEndings.EndsExactly. |
| TcpProtocol.LiveStreams | dpi/TcpFragment.cc:333-345 | Over every capture: a stream in the table has had no terminal callback, its client-to-server queue is in order, and both halves hold at most 65535 bytes. |
| TcpProtocol.TableStaysSound | dpi/TcpFragment.cc:728-781 | Over every capture: the table keeps its size limit, no flow is in it twice, timers name live streams only, and the connection timers name each at most once. |
| TcpDelivery.ConversationHeard | dpi/TcpFragment.cc:185-346 | Through any packets of one stream, both directions at once: what the application hears of a direction is the longest prefix of its bytes that the accepted segments cover, less what was covered before the connection was reported. |
| TcpDelivery.HandshakeConnects | dpi/TcpFragment.cc:199-327 | SYN, SYN/ACK and ACK with matching numbers do connect: the callback comes, both halves are established and both directions wait for their first byte (section 3.4 of RFC 793). |
| TcpDelivery.ProcessFate | dpi/TcpFragment.cc:121-346 | A packet changes the live stream of its own flow as that stream alone would, leaves every other live stream as it was, or opens a new one. |
| TcpDelivery.Isolated | dpi/TcpFragment.cc:121-346 | Over every capture: a stream in the table is in the state, and has told the application exactly what, it would have had its own packets been the only traffic since it was opened. |
| TcpWindow.AdmitsExact | dpi/TcpFragment.cc:257-261 | On unbounded positions: a segment with data is let in exactly if it begins before what the receiver has acknowledged plus its scaled window, and ends no earlier than at what it has acknowledged. |
| TcpWindow.FactorExact | dpi/TcpFragment.cc:508-513 | A shift count doubles the factor from 1 up to a count of 14, and counts as 14 beyond. |
| TcpWindow.ScaleExact | dpi/TcpFragment.cc:240-253 | With well-formed options in both SYNs an end's factor is that of its last shift count if both have one, and 1 otherwise. |
| TcpWindow.HandshakeAgrees | dpi/TcpFragment.cc:222-300 | After the handshake the stream holds what its three packets grant: numbers acknowledged, windows and factors. |
| TcpWindow.AcceptedIsAdmitted | dpi/TcpFragment.cc:257-341 | For as long as the connection lasts: the segments that reach the queue are exactly those that what both ends have acknowledged and announced lets in, as the packets alone tell. |
| TcpWindow.DeliveredInTraffic | dpi/TcpFragment.cc:121-346 | A handshake, then any traffic at all: while the stream is in the table, the bytes heard of either direction are exactly the longest prefix covered by the segments let in, which the packets of the connection alone determine. |
| TcpEndings.ProcessExact | dpi/TcpFragment.cc:52-88 | What one packet makes of any live stream: a due inactivity timer ends it with a timeout, else a due FIN timer closes it, else a first packet of its flow takes it away silently, any other of its flow is a step of its own, and a new stream for a full table makes it time out; nothing else touches it. |
| TcpEndings.EndsExactly | dpi/TcpFragment.cc:121-346 | Over every capture, for a connected stream: reset exactly for a RST of its own that is let in, closed exactly for its FIN timer or an acknowledgement that confirms the second FIN (then FINs of both directions have come and been acknowledged), timeout exactly for its inactivity timer or a full table, silence for a new SYN or beyond 65535 queued bytes; otherwise it goes on. |
| TcpEndings.CloseEvidence | dpi/TcpFragment.cc:307-327 | A packet that closes a stream is preceded by, or is, the acknowledgement of a FIN in each direction. |
| TcpEndings.FarewellCloses | dpi/TcpFragment.cc:307-327 | FIN, acknowledgement, FIN, acknowledgement, each FIN where its direction goes on: the last ends the history with the close callback, whatever is captured in between. |
| TcpEndings.WhereEnded | dpi/TcpFragment.cc:121-346 | Every history of a stream no longer in the table has ended with one packet, after which nothing was added. |
| TcpEndings.TimersSince | dpi/TcpFragment.cc:728-781 | Over every capture: a stream's inactivity timer stands 30 seconds after the latest packet that has restarted it, its FIN timer 5 seconds after one that has armed it. |
| TcpEndings.TouchedExact | dpi/TcpFragment.cc:536-573 | A packet restarts the inactivity timer exactly if it is let in with data or a FIN that begins no later than wanted and ends after that. |
| TcpEndings.ArmedByFins | dpi/TcpFragment.cc:601-606 | The FIN timer is armed only when FINs of both directions have come. |
| TcpEndings.EarlyFinArms | dpi/TcpFragment.cc:601-606 | A FIN that leaves a gap arms it exactly if the other direction's FIN has been delivered. |
| TcpServerQueue.SynAckExact | dpi/TcpFragment.cc:222-254 | An accepted SYN/ACK keeps the queue from server to client in order if and only if everything queued lies ahead of the numbering it brings. |
| TcpServerQueue.ServerDirectionKept | dpi/TcpFragment.cc:199-346 | For every packet of a known stream: that queue stays in order if and only if the packet is not an accepted SYN/ACK that overtakes something queued. |
| TcpServerQueue.LiveServerQueue | dpi/TcpFragment.cc:121-346 | Over every capture: the queue from server to client of a live stream is in order with nothing deliverable left in it, unless its SYN/ACK has overtaken data. |
| TcpServerQueue.OvertakenInCapture | dpi/TcpFragment.cc:222-254 | The exception is real: after SYN, a byte of the server and the late SYN/ACK, that byte is what is wanted next and stays in the queue. |
| TcpTimers.NewStreamTimer | dpi/TcpFragment.cc:442-493 | A new stream has a timer if and only if the table was full, and so has been cleared, or no other timer is due in the same second. |
| TcpTimers.RestartExact | dpi/TcpFragment.cc:777-781 | Data leaves a stream with a timer if and only if no other stream has one that is due in the same second. |
| TcpTimers.TwoSynsOneTimer | dpi/TcpFragment.h:79-82 | The failing case is real: of two connections opened in one second the second is in the table without a timer. |
| TcpTracker.ReadWscale | dpi/TcpFragment.cc:495-523 | The option loop computes the function the option lemmas are about. |
| TcpTracker.TcpFragment.FindStreamAux | dpi/TcpFragment.cc:381-411 | The walk of one hash bucket finds the stream with this address if there is one. |
| TcpTracker.TcpFragment.FindStream | dpi/TcpFragment.cc:413-440 | Looking both ways gives the result of the flow map. |
| TcpTracker.TcpFragment.FreeTcpstream | dpi/TcpFragment.cc:356-379 | The stream and its timers leave; nothing else changes. |
| TcpTracker.TcpFragment.ClearAllStream | dpi/TcpFragment.h:125-135 | Every connected stream is told of its timeout and the table is empty. |
| TcpTracker.TcpFragment.AddNewtcp | dpi/TcpFragment.cc:442-493 | The table is cleared when full, then gains the stream, and its timer unless another is due in the same second. |
| TcpTracker.TcpFragment.TcpChecktimeouts | dpi/TcpFragment.cc:52-88 | Both loops over the timer sets end in the state of the timeout function. |
| TcpTracker.TcpFragment.AddFromskb | dpi/TcpFragment.cc:638-692 | The delivery with its notifications around an urgent byte. |
| TcpTracker.TcpFragment.TcpQueue | dpi/TcpFragment.cc:536-636 | The queueing method, with splicing and the loop forward, equals the queue function on fields, history and timers. |
| TcpTracker.TcpFragment.GoForward | dpi/TcpFragment.cc:563-579 | The erasing loop equals the drain function. |
| TcpTracker.TcpFragment.FindPlace | dpi/TcpFragment.cc:616-624 | The insertion point is before the first later segment. |
| TcpTracker.TcpFragment.ProcessTcp | dpi/TcpFragment.cc:121-346 | The state after a packet is that of the run the theorems above speak of, TcpWindow and TcpEndings included. |
| IpChain.InsertOk | dpi/IpFragment.cc:232-313 | Every insertion keeps the chain invariant: offsets in order, each node starting at or after the end of every earlier one, `len = end - offset`, nodes of negative length allowed. |
| IpChain.NewNodeFits | dpi/IpFragment.cc:244-250 | The new node, with its front overlap cut off, starts at or after the end of all nodes before it and points at its own data. |
| IpChain.TrimOk | dpi/IpFragment.cc:255-287 | Cutting back the nodes behind keeps them in order and beyond the new end. |
| IpChain.GlueRun | dpi/IpFragment.cc:375-435 | The copy loop writes each node's bytes at its offset and nothing else, or refuses. |
| IpChain.GlueSafe | dpi/IpFragment.cc:375-458 | A glued datagram has no gap, the length of the queue, and at every position a byte of the node there. |
| IpChain.ArriveSafe | dpi/IpFragment.cc:133-329 | For any fragments at all: whatever is handed on was carried at its place by some received fragment, under the header of the latest first fragment, with the length of the latest final one. |
| IpRoundTrip.NestedExactly | dpi/IpFragment.cc:244-250 | A node of negative length arises exactly from a fragment that ends before its predecessor in the chain does. |
| IpRoundTrip.InsertCoverage | dpi/IpFragment.cc:232-313 | After any insertion, nested or not, the covered positions are those covered before and those of the fragment. |
| IpRoundTrip.InsertNegative | dpi/IpFragment.cc:255-287 | A negative node goes exactly when a fragment carries the position it starts at, and comes exactly with a nested fragment, at the end of its predecessor. |
| IpRoundTrip.DoneExact | dpi/IpFragment.cc:437-458 | `ipDone` says yes if and only if the received pieces cover the datagram and no node but the last has a negative length. |
| IpRoundTrip.GlueWhole | dpi/IpFragment.cc:375-435 | Gluing a queue that counts as complete gives back the datagram that was cut if no node is negative, and is refused otherwise. |
| IpRoundTrip.ArriveExact | dpi/IpFragment.cc:133-329 | One more piece, nested or not: the original comes out if and only if the pieces now cover it and no node is negative; the queue is thrown away without it exactly if the last node alone is. |
| IpRoundTrip.Reassembles | dpi/IpFragment.cc:133-329 | Over a whole run of pieces, cut, overlapping and nested at will, for as long as the queue waits: the original comes out if and only if they cover it and each position where the predecessor of a nested piece ended has been carried by a later piece. |
| IpRoundTrip.CutNeverNests | dpi/IpFragment.cc:244-250 | Fragments made by one cutting at 8-byte boundaries never nest, in whatever order they come. |
| IpRoundTrip.RoundTrip | dpi/IpFragment.cc:133-329 | A datagram cut at any 8-byte boundaries, its fragments in any order with duplicates, comes back whole and not before (section 3.2 of RFC 791). |
| IpRoundTrip.NestedStalls | dpi/IpFragment.cc:232-329 | Nested pieces can keep a datagram in: four that cover it, one nested, and it does not come out. |
| IpRoundTrip.NestedPasses | dpi/IpFragment.cc:255-287 | They need not: three that cover it, one nested, and it comes out. |
| IpRoundTrip.NestedLost | dpi/IpFragment.cc:375-458 | And the datagram can be lost: three that cover it, the nested one last in the chain, and the queue is thrown away. |
| IpFragList.IpFrag.constructor | dpi/IpFragment.cc:647-672 | A new node holds its offsets and is linked to nothing. |
| IpFragList.Ipq.FindNeighbours | dpi/IpFragment.cc:232-238 | The walk stops at the first node that does not start before the fragment. |
| IpFragList.Ipq.Unlink | dpi/IpFragment.cc:272-286 | Taking a node out rewires both neighbours and the head, and the chain loses that node only. |
| IpFragList.Ipq.Link | dpi/IpFragment.cc:305-313 | Putting a node in rewires both neighbours and the head. |
| IpFragList.Ipq.TrimBehind | dpi/IpFragment.cc:255-287 | The cutting loop over pointers equals the cutting function; whenever it cuts, `next` is `tmp`, so `next->offset` is the right offset. |
| IpFragList.Ipq.AddFragment | dpi/IpFragment.cc:216-313 | Insertion into the doubly linked chain equals insertion into the sequence. |
| IpFragList.Ipq.IpDone | dpi/IpFragment.cc:437-458 | The walk decides whether the queue is done. |
| IpFragList.Ipq.IpGlue | dpi/IpFragment.cc:375-435 | The copy into a fresh buffer equals the gluing function. |
| IpTimerList.TimerList.AddTimer | dpi/IpFragment.cc:591-606 | A timer is appended to the doubly linked list. |
| IpTimerList.TimerList.DelTimer | dpi/IpFragment.cc:608-619 | A timer is taken out; taking out one that is already out changes nothing. |
| IpTimerList.TimerList.DelTwice | dpi/IpFragment.cc:750-752 | The deletion in `ipFind` followed by another one is harmless. |
| IpTimerList.TimerList.Restart | dpi/IpFragment.cc:193-196 | Restarting moves the timer to the end with its new expiry. |
| IpDefrag.FreeQueueOk | dpi/IpFragment.cc:536-573 | Freeing a queue keeps the accounts: memory per host is the sum of its queues' charges, hosts without queues go, each queue has one timer. |
| IpDefrag.ExpireOk | dpi/IpFragment.cc:338-344 | The expiry loop ends, keeps the accounts and leaves no timer before now at the head. |
| IpDefrag.EvictOk | dpi/IpFragment.cc:508-522 | Eviction ends at or below the low threshold or with the host gone; it never meets a host over the threshold without a queue, so the fatal branch is unreachable. |
| IpDefrag.InsertCharge | dpi/IpFragment.cc:621-671 | The charge after an insertion is the old one, plus the fragment and its node, minus all that was cut away. |
| IpDefrag.StoreOk | dpi/IpFragment.cc:133-329 | Storing a fragment keeps the accounts, whether it is held, refused or completes a datagram. |
| IpDefrag.ReceiveOk | dpi/IpFragment.cc:333-372 | So does every packet. |
| IpRun.ReceiveBounded | dpi/IpFragment.cc:148-151 | After every packet each host holds at most the high threshold, one queue and one fragment. |
| IpRun.RunBounded | dpi/IpFragment.cc:148-151 | The same over every capture. |
| IpRun.RunOrdered | dpi/IpFragment.cc:338-344 | With a clock that does not go back the timers stay sorted by expiry and none is due after a packet. |
| IpRun.StoreIsArrive | dpi/IpFragment.cc:133-329 | What the whole machine does to a queue is what the queue alone does. |
| IpRun.RunGenuine | dpi/IpFragment.cc:333-372 | Over every capture with any number of hosts and queues: a datagram handed on is made of fragments of its own key. |
| IpRun.RunIsFeed | dpi/IpFragment.cc:333-372 | A key whose queue is neither timed out nor evicted sees only its own fragments. |
| IpEviction.RelieveExact | dpi/IpFragment.cc:148-151 | A host that holds at most 262144 keeps its queues; otherwise exactly those stay that with the older ones are charged at most 196608; other hosts keep theirs. |
| IpEviction.NewestFirst | dpi/IpFragment.cc:462-506 | Over every capture a host lists its queues from the one opened last to the one opened first, so eviction takes the newest. |
| IpEviction.ExpiryInCapture | dpi/IpFragment.cc:338-344 | Over every capture with a forward clock: expiry frees a queue exactly when more than 30000 ms have passed since the latest packet of its key. |
| IpEviction.KeptExactly | dpi/IpFragment.cc:333-372 | Over every capture: a packet of another datagram leaves a queue exactly if it has not expired, and the packet is for another host, or the host holds at most 262144, or the queue and the older ones at most 196608. |
| IpEviction.InputUndisturbed | dpi/IpFragment.cc:333-372 | Packets of a key that follow each other within 30000 ms, all of them fragments, for a host that holds at most 262144 when packets come for it, are not disturbed. |
| IpEviction.LoadIsLight | dpi/IpFragment.cc:621-671 | A host is within that bound whenever its fragments, each with its copy rounded up, its node and a queue, cost at most 262144 together. |
| IpEviction.RoundTripInTraffic | dpi/IpFragment.cc:333-372 | The round trip holds for a datagram whose fragments are interleaved with any other traffic, each within 30000 ms of the one before and while their host holds no more than 262144. |
| IpFragmenter.IpFragment.DelTimer | dpi/IpFragment.cc:608-619 | The timer of the key leaves the list. |
| IpFragmenter.IpFragment.IpFree | dpi/IpFragment.cc:536-573 | The queue, its charge and, if it was the last, its host go. |
| IpFragmenter.IpFragment.IpEvictor | dpi/IpFragment.cc:508-522 | The loop frees queues of the host as the eviction function does. |
| IpFragmenter.IpFragment.IpFind | dpi/IpFragment.cc:739-756 | The queue of the packet's key is found and its timer taken out. |
| IpFragmenter.IpFragment.IpCreate | dpi/IpFragment.cc:462-506 | A queue with its timer and charges comes first in its host. |
| IpFragmenter.IpFragment.Defragment | dpi/IpFragment.cc:133-329 | The method equals the packet function, for every branch; what that function evicts is IpEviction.RelieveExact. |
| IpFragmenter.IpFragment.IpDefragStub | dpi/IpFragment.cc:333-372 | State and result after every packet are those of the run the theorems speak of. |
| HttpInvariant.InitSound | app/http/HttpParser.cc:2143-2153 | A fresh parser satisfies the invariant. |
| HttpInvariant.MethodSound | app/http/HttpParser.cc:997-1051 | The position in the method name never leaves the name that is compared with. |
| HttpInvariant.FieldNextFits | app/http/HttpParser.cc:1308-1407 | The nested matchers of field names stay inside their words and among themselves; the unknown-state assertion cannot fire. |
| HttpInvariant.ValueMatcherFits | app/http/HttpParser.cc:1534-1686 | So do those of values; the two states asserted not to occur there do not. |
| HttpInvariant.HeadersDoneSound | app/http/HttpParser.cc:1836-1880 | After the headers the parser is in a new message, at a chunk, or in a body with a length that is neither zero nor the value that stands for none. |
| HttpInvariant.BodySound | app/http/HttpParser.cc:1882-2052 | The assertions of the body and chunk states hold and are kept. |
| HttpInvariant.StepSound | app/http/HttpParser.cc:708-2058 | Every byte in every state, under any answer of the application, keeps the invariant or is an error. |
| HttpOrder.StepOrder | app/http/HttpParser.cc:708-2058 | Every step has one of a few shapes of marks, data and notifications, which fix what body is still expected. |
| HttpOrder.HeadersAlmostDoneOrder | app/http/HttpParser.cc:1775-1880 | The end of the headers notifies, restarts the count, and leads to the body that is announced or completes the message, the latter only if neither chunks nor a length above zero are announced, HTTP is left, or the application says so; which bodies last to the end of the stream is HttpMessages.LastsToTheEnd. |
| HttpSplit.PerformHears | app/http/HttpParser.cc:108-150 | Marks only delay data: with what is marked handed out, the log is the one kept byte by byte. |
| HttpSplit.StepMarks | app/http/HttpParser.cc:2061-2081 | At most one mark is set, it belongs to the state, and no notification comes under it. |
| HttpSplit.CutShows | app/http/HttpParser.cc:1527-1558 | The exception is real: a control character in a header value is refused or let through depending on where the input is cut. |
| HttpLimit.RoomLeft | app/http/HttpParser.cc:148-155 | A call adds at most one more than it has bytes to the count, and one that cannot reach the limit does not overflow. |
| HttpLimit.CallsCount | app/http/HttpParser.cc:702-706 | However the input is cut, the count exceeds the header bytes since its last restart by at most the number of calls, and by at most as many again. |
| HttpLimit.ServedIsSerial | app/http/HttpParser.cc:634-2091 | A whole call against its bytes, in both directions, header limit included. |
| HttpLimit.SplitExact | app/http/HttpParser.cc:634-2091 | Input that one call accepts, parsed as A and then B: both calls accept it if and only if the cut leaves room in the count, which is one higher after a cut within a field name or a value; then they end in the same parser and, adjacent data joined, have made the same callbacks. |
| HttpLimit.CutServed | app/http/HttpParser.cc:634-2091 | Any number of calls: if the header bytes since each restart of the count are with the number of calls within the limit, or below half of it, no call overflows and together they do what the bytes do one by one. |
| HttpLimit.LimitShows | app/http/HttpParser.cc:1410-1425 | The exception is real: two bytes of a value that one call accepts overflow the header in two calls. |
| HttpLedger.AdvanceBooks | app/http/HttpParser.cc:1836-2052 | Every byte keeps an account, made from the callbacks alone, in step with what the parser expects. |
| HttpLedger.NeverBroken | app/http/HttpParser.cc:634-2091 | From the start, over any bytes cut in any way and the end of the stream, that account is never broken. |
| HttpLedger.BodyConserved | app/http/HttpParser.cc:1882-1916 | A message without chunks completes when exactly the announced bytes have been delivered, unless it has no body or one that lasts to the end (section 4.4 of RFC 2616). |
| HttpLedger.ChunkConserved | app/http/HttpParser.cc:2015-2052 | A chunk completes when exactly its announced bytes have been delivered. |
| HttpLength.LengthExact | app/http/HttpParser.cc:1466-1479 | A Content-Length is accepted if and only if it is at most 18446744073709551609, and then is exactly the number written, spaces left out. |
| HttpLength.NextDigit | app/http/HttpParser.cc:1565-1590 | One more digit is taken or refused; the accumulator never wraps. |
| HttpLength.SizeExact | app/http/HttpParser.cc:1934-1985 | The same for the hexadecimal size of a chunk, with its own limit. |
| HttpWords.NamesRecognised | app/http/HttpParser.cc:1298-1425 | The headers that steer the parse are recognised by their full names in any case of letters and by nothing else. |
| HttpWords.ChunkedRecognised | app/http/HttpParser.cc:1593-1662 | A transfer coding counts as chunked if and only if the value is that one word, then blanks. |
| HttpWords.MethodsRecognised | app/http/HttpParser.cc:954-1051 | The words accepted as methods are exactly the 33 names, and the parser knows which it has read. |
| HttpOptions.OptionsRecognised | app/http/HttpParser.cc:1593-1686 | For every list of options of a Connection header: the flags gain exactly what is heeded of the list, keep-alive, close and upgrade in full, in any case of letters. |
| HttpOptions.AllHeeded | app/http/HttpParser.cc:1593-1686 | Every element of the list is heeded where none but the last breaks off within the name of an option. |
| HttpOptions.CommaSwallowed | app/http/HttpParser.cc:1620-1655 | An element that does swallows the comma and the element after it: nothing is heeded of "cl, close". |
| HttpRoundTrip.NameRead | app/http/HttpParser.cc:1248-1425 | A header name comes back whole, and the matcher has recognised it. |
| HttpRoundTrip.HeaderRead | app/http/HttpParser.cc:1248-1773 | A header line that does not steer the parse comes back as its name and value and changes nothing else. |
| HttpFields.FieldsRead | app/http/HttpParser.cc:1248-1773 | Any header lines, in any order: those that do not steer the parse, on one line or folded over several, lists of connection options, and Upgrade headers come back as names and values, and the flags gain exactly what the options and Upgrade headers say. |
| HttpTarget.TargetRead | app/http/HttpParser.cc:487-630 | A request target of any form, path, absolute URL or the authority of a CONNECT, with query and fragment, comes back as it was written. |
| HttpMessages.FramingRead | app/http/HttpParser.cc:1298-1773 | The line with the length or the transfer coding, its name in any case of letters, sets exactly that and is heard like any other. |
| HttpRoundTrip.ChunkRead | app/http/HttpParser.cc:1934-2052 | A chunk written with its hexadecimal size comes back as header, data and end. |
| HttpMessages.MessageRoundTrip | app/http/HttpParser.cc:708-2058 | Byte by byte, the header limit aside, and for every answer of the application: any request or response with any of these headers and targets and no length, a length, or chunks with trailers comes back in all its parts; and the parser then stands where the message says: out of HTTP after an upgrade or CONNECT, ready for the next, at the end of a connection that is to be closed, or in a body up to the end of the stream. |
| HttpMessages.LastsToTheEnd | app/http/HttpParser.cc:2095-2134 | A response that tells no length, when the application goes on: if its status is 1xx, 204 or 304 it completes with its headers; otherwise every later byte is heard as its body and the end of the stream completes it (section 4.4 of RFC 2616). |
| HttpMessages.LeavesTheRest | app/http/HttpParser.cc:1846-1856 | After a message that leaves HTTP no byte is read. |
| HttpStream.MessageServed | app/http/HttpParser.cc:634-2091 | Such a message in one call, its trailers within the limit: it is accepted, and comes back whole, if and only if its first line, headers and blank line, with what the count starts from, are within the limit; otherwise the header overflows. |
| HttpStream.StreamRoundTrip | app/http/HttpParser.cc:634-2091 | Messages that keep the connection open, then one that may close it or have a body up to the end of the stream, and that body, cut anywhere into calls: if each head with a trailer before it is with the number of calls within the limit, or below half of it, a new parser that knows the limit hears them in order, byte for byte, stands where the last leaves it, and the end of the stream completes an open body. |
| HttpStream.LeavesInCall | app/http/HttpParser.cc:1846-1856 | A message that leaves HTTP, in a call that brings more: the call takes the message and nothing after it, and returns its length. |
| HttpScan.GeneralRun | app/http/HttpParser.cc:1535-1558 | What the search for the end of the line passes over is what its bytes do one by one. |
| HttpScan.BodyRun | app/http/HttpParser.cc:2015-2036 | Taking many body bytes at once is taking them one by one. |
| HttpScan.ChunkStartRecounts | app/http/HttpParser.cc:1934-1937 | Where a chunk begins the count of header bytes has just been restarted. |
| HttpParsing.MemChr | app/http/HttpParser.cc:1543-1544 | The first occurrence within the limit, or none. |
| HttpParsing.HttpParser.constructor | app/http/HttpParser.cc:2143-2153 | A fresh parser is valid. |
| HttpParsing.HttpParser.Count | app/http/HttpParser.cc:148-155 | The counter grows in 32 bits and an error is set exactly beyond the limit. |
| HttpParsing.HttpParser.TakeByte | app/http/HttpParser.cc:708-2058 | A byte outside the loops has the effect of one step on parser, marks, log and count. |
| HttpParsing.HttpParser.ScanField | app/http/HttpParser.cc:1298-1425 | The loop over a field name, with its late count, is its bytes one by one, or the header is too long. |
| HttpParsing.HttpParser.FindLineEnd | app/http/HttpParser.cc:1535-1558 | The jump goes to the first line end, or to the end of the input if there is none within the limit. |
| HttpParsing.HttpParser.ScanValue | app/http/HttpParser.cc:1506-1695 | The loop over a value, with jumps, late count and both kinds of line end, likewise. |
| HttpParsing.HttpParser.TakeBody | app/http/HttpParser.cc:1882-1916 | All the body bytes at hand are taken in one go; the assertions on the length hold. |
| HttpParsing.HttpParser.Execute | app/http/HttpParser.cc:634-2091 | The header overflows if and only if the count has no room at one of the places where it is compared with the limit; otherwise parser, bytes consumed and callbacks are those of the call function that HttpStream and HttpMessages speak of, errors and exits included. |
| SessionWheel.SameFlowIsKey | app/header/TcpSession.h:64-77 | The table's equality of tuples is equality of unordered pairs of ends. |
| SessionTable.TimedOutIsSilent | app/header/TcpSession.cc:127-150 | The bucket that goes takes with it exactly the sessions silent for a whole turn. |
| SessionTable.TickAgrees | app/header/TcpSession.cc:127-150 | A tick ends the sessions the plain table ends and reports them alike. |
| SessionTable.NeverDead | app/header/TcpSession.cc:96-109 | The branch for a session whose entry is gone is never taken. |
| SessionTable.HandleAgrees | app/header/TcpSession.cc:80-125 | Opening, continuing and closing agree with the table, counters included. |
| SessionTable.RunAgrees | app/header/TcpSession.cc:59-150 | Over every capture the wheel reports, packet by packet, what a table with last-active ticks reports. |
| SessionReport.DataTells | app/header/TcpSession.cc:152-175 | What is known of a session: its counters one way are of exactly the packets with the tuple of the first, the other way of the others; sizes summed, packets and flags counted, small those up to 64 bytes. |
| SessionReport.ReportsExact | app/header/TcpSession.cc:59-175 | Over every capture, from the packets alone: a packet reports exactly the session it closes by FIN or RST, with that packet counted and its time as the end, and the sessions whose silence it completes, as not closed, ended at its second; each with the tuple and time of the SYN that began it and the counts of its packets each way. |
| SessionTable.TimeoutExact | app/header/TcpSession.cc:127-150 | A session times out at the tick that makes its silence a whole turn of the wheel, neither earlier nor later. |
| SessionTable.ReportedOnce | app/header/TcpSession.cc:111-150 | Every session ever opened is still in the table or has been reported, exactly once; entries of closed sessions never report. |
| SessionTracker.Timer.CheckTime | util/Timer.cc:9-26 | A timeout is given at most once a second and moves the clock just past it. |
| SessionTracker.TcpSession.OnTimer | app/header/TcpSession.cc:127-130 | Pushing a bucket destroys exactly the entries no other bucket holds, and their live sessions time out. |
| SessionTracker.TcpSession.DestroyEntry | app/header/TcpSession.cc:177-183 | The destructor reports the entry's session if it is still there. |
| SessionTracker.TcpSession.UpdateSession | app/header/TcpSession.cc:152-175 | Only the counters of the packet's direction grow, as SessionReport.DataTells counts them. |
| SessionTracker.TcpSession.OnTcpData | app/header/TcpSession.cc:59-125 | State and reports after a packet are those of the run the theorems speak of. |
| DnsName.EndsOnce | app/dns/Dnsparser.cc:170-198 | A walk ends at most once, and every step before is readable. |
| DnsName.TextFits | app/dns/Dnsparser.cc:190-197 | No step writes more than the first pass has counted for it. |
| DnsName.Measure | app/dns/Dnsparser.cc:164-203 | The first pass succeeds exactly if the walk ends inside the message in fewer than twice as many steps as it has bytes. |
| DnsName.Spell | app/dns/Dnsparser.cc:204-245 | The unchecked second pass walks the same positions, stays inside the message and the buffer, and ends at the same step. |
| DnsName.ReadRRname | app/dns/Dnsparser.cc:162-250 | A name or none, its text with the final zero, and where the message goes on, for every byte input. |
| DnsRoundTrip.PlainName | app/dns/Dnsparser.cc:162-250 | An encoded name without pointers, anywhere in a message, comes back as its labels joined by dots (section 4.1.4 of RFC 1035). |
| DnsRoundTrip.CompressedName | app/dns/Dnsparser.cc:174-182 | A name that ends in a pointer comes back as both parts, and the message goes on after the pointer. |
| DnsRoundTrip.PointerExact | app/dns/Dnsparser.cc:180 | A pointer leads to the offset written in it if and only if the reader counts from the start of the message and the low byte is below 128, or from 256 and it is not. |
| FlowHash.DrawsAll | dpi/Sharding.cc:74-90 | Whatever the random bytes, the shuffle draws each number once. |
| FlowHash.DrawsAny | dpi/Sharding.cc:74-90 | Every order is drawn by some random bytes. |
| FlowHash.Shuffle | dpi/Hash.cc:37-51 | The in-place shuffle of either size computes that draw. |
| FlowHash.SameFlowSameHash | dpi/Sharding.cc:99-112 | Both directions of a flow are hashed from the same bytes. |
| FlowHash.MixApart | dpi/Sharding.cc:108-109 | Data that differ in one byte are hashed apart from the place on where the key puts that byte. |
| FlowHash.EveryByteCounts | dpi/Sharding.cc:99-112 | Tuples that differ in one byte of an address or a port are hashed apart under every key. |
| FlowHash.MixAll | dpi/Sharding.cc:108-109 | The loop never wraps in 32 bits and stays below its modulus. |
| FlowHash.Sharding.constructor | dpi/Sharding.cc:74-90 | The key is a permutation whatever the random bytes. |
| FlowHash.Sharding.Hash | dpi/Sharding.cc:99-112 | Tuples that the session table takes to be equal have equal hashes. |
| Dispatching.StepKeeps | dpi/TaskQueue.cc:42-104 | Every step of the capture thread or a worker keeps queues, counters and order in line with the log. |
| Dispatching.RunOrderly | dpi/Dispatcher.cc:58-101 | So does every interleaving. |
| Dispatching.FlowInOrder | dpi/Dispatcher.cc:58-101 | Under every interleaving an unfragmented TCP or UDP flow has one worker, which handles both directions in capture order, minus refused packets; each packet the capture thread has taken is in the log once, in that order, but for the one it is pushing. |
| Dispatching.QueuesBounded | dpi/TaskQueue.cc:42-58 | Under every interleaving queues keep to their limit and the counters equal packets handled plus packets waiting. |

## Left out

- Packet capture, sockets, signals, logging, the UDP client and the wiring in `noff.cc`: input and output around libraries.
- `app/http/Http.cc` and all text formatting; the HTTP callbacks are a log, return fixed legal codes and leave the parser alone, so callback errors and pausing do not occur.
- `http_parser_parse_url` and `http_parse_host`: nothing calls them; `parse_url_char` is part of the model.
- MAC, protocol and header counters and UDP: single updates.
- DNS records beyond names; `parserQuestions` only passes the type and class on.
- The application callbacks of TCP are kept as one history per stream, so the order of callbacks of different streams is not modelled; what is handed out around urgent data is modelled, but the content theorems are for traffic without it.
- TcpConfluence.DeliversLongestPrefix: for one direction on its own; TcpDelivery carries it over to whole captures, for streams still in the table.
- TcpWindow.DeliveredInTraffic: for traffic without urgent data, where the memory of a new stream held no urgent mark; the code leaves that field as it finds it.
- TcpProtocol.LiveStreams: the order of the queue from server to client is stated separately in TcpServerQueue, because a SYN/ACK renumbers that direction.
- IpFragmenter.IpFragment.Defragment: works on sequences of fragments and timers; the pointer structures are proved to do the same in IpFragList and IpTimerList.
- HttpParsing.HttpParser.Execute: on an error the fields other than the state and the error code are not compared, because nothing reads them afterwards, and after an overflow the callbacks made are those of some beginning of the input and the bytes consumed are not stated; the buffers are sequences.
- HttpLedger.NeverBroken: for calls with data and then one end of stream; a call after the end of the stream is outside the parser's protocol.
- HttpMessages.MessageRoundTrip: without empty values, transfer codings beside chunked and trailers that steer the connection; for versions of one digit on either side of the point, the major one not zero, and request lines with a version.
- HttpStream.StreamRoundTrip: for an application that always goes on; a message that leaves HTTP is stated for one call, in HttpStream.LeavesInCall.
- TcpEndings.EndsExactly: for streams that a plain handshake has connected; TcpEndings.ProcessExact covers every live stream, in terms of its state.
- TcpEndings.CloseEvidence: one way only, because the code confirms any FIN on any later acknowledgement that is let in, whatever its number, and takes a confirmation back when the FIN comes again; FarewellCloses is the other way for an orderly close.
- IpEviction.InputUndisturbed: the charge of the host is read off the run; LoadIsLight bounds it by the packets alone.
- SessionTracker.TcpSession.OnTcpData: entries are numbers and reference counts are membership in buckets; the order of the timeouts of one tick is not modelled, nor is overflow of the 32-bit counters.
- DnsName.ReadRRname: for messages up to 2^28 bytes, beyond which the 32-bit counters could wrap.
- Dispatching.FlowInOrder: not for fragmented packets, whose later fragments have no ports, so the code gives no such guarantee.
- The bounded queue of the threading library is a first-in first-out queue; its blocking and its accounting of waiting threads are left out, as are thread creation and the lock of the clock.
- The host table of the defragmenter is a map, not hash buckets, and the buckets of the stream table matter only through their contents.
- Allocation failure, the overflow of signed byte counts in memory accounting, and the second reading of the clock when it shows zero.
- `Hash::get_key` over an unsymmetric tuple: the same loop as the symmetric hash; the tracker takes any hash.
