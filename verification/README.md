# PacketMachine in Dafny

PacketMachine captures packets on one thread, hands them through a ring to a decoding
thread, walks a chain of protocol modules over each packet and calls event handlers with
the decoded values. This project models the parts where that is hard to get right and
proves what they promise.

| files | what they model |
|---|---|
| `TcpModel`, `TcpSession` | the TCP session tracker and reassembler: as functions on values, and as the classes `Stream` and `Session` with fields updated in place and the replay loop inside the recursion, proved equal to those functions |
| `TcpConservation`, `TcpLifecycle`, `TcpShift`, `TcpReassembly`, `TcpBuffer` | its laws: nothing lost or repeated, connection tracking, sequence accounting, shift invariance, order-independent reassembly, what one packet delivers |
| `TcpPeer`, `TcpRuns`, `TcpLosses` | what data going the other way does to segments that wait: exactly, per packet and over whole runs; runs that lose data |
| `TcpTable`, `TcpWire` | session keys, the session table and demultiplexing; from flag bytes to connection states |
| `Ring`, `RingProgress` | the packet ring between the two threads, as interleaved atomic steps: safety and progress |
| `Handlers`, `HandlersProgress` | the request queue and the handler table, as interleaved atomic steps: safety and progress |
| `DnsName`, `DnsMessage`, `DnsRoundTrip`, `DnsCompression`, `DnsCut` | DNS/mDNS names with compression, the message loop, an encoder, round trip of plain and compressed messages, messages cut short |
| `Pool`, `Dhcp` | the payload cursor, the pool of value objects, the DHCP option loop on top of both |
| `Dispatch`, `Layers` | the module chain; an encoder of layered frames, their round trip, frames cut short |
| `Common`, `SeqNum` | bytes, options, 32-bit wrapping arithmetic |

`dafny verify dfyconfig.toml` checks everything.

Four promises turn out not to hold as one would like; each has a concrete run that breaks it
and the condition under which it holds.

- **Reassembly.** The stash of out-of-order segments is shared by both directions and keyed by
  relative sequence number only. An accepted packet of the peer after which the peer's `next` is a
  key of the stash opens a chain of the other side.
  - Same initial sequence number: the peer takes the first copy of the slice as its own data and
    goes on to the next waiting slice (`TcpLosses.PeerCanSteal`).
  - Different numbers: the chain is refused and put under another key, where the sender does not
    look for it (`TcpLosses.PeerCanStall`); a later packet of the peer that reaches that key takes
    it after all (`TcpLosses.PeerCanTakeLater`).

  `TcpPeer.ForgottenExactly` says which slices one packet of the peer costs the sender. Over whole
  runs in which the sender's slices and empty segments arrive in any order and any number of times,
  and the peer's packets are taken at once, the stream is reassembled if and only if each slice
  arrives at some point after which no packet of the peer costs it (`TcpRuns.ReassembledPrompt`).
  The two initial sequence numbers must be equal, or no border between slices may be one as the
  peer counts; without that a slice may be moved away and back (`TcpLosses.MovedBack`). If the peer
  never reaches into the stash there is no condition on the numbers, and every slice only has to
  arrive (`TcpRuns.OrderIndependent`).
- **Shutdown.** `pull` first compares the indices and then looks at the closed flag. A push and a
  close between the two lose the packet (`Ring.PacketCanBeLost`); when `pull` answers null
  everything captured has been pulled exactly when nothing was published after the last comparison
  (`Ring.DrainedIff`). The ring tests of the repository expect every packet to arrive.
- **Removed handlers.** `activate` tests the destroyed flag and stores the active flag in separate
  steps, so a removed handler can end up active (`Handlers.RemovedYetActive`). It stays inactive
  for good exactly if it is inactive and no `activate` that passed the test is still on its way
  (`Handlers.InactiveForeverIff`). Its callback is not called again in either case
  (`Handlers.NeverCalledAfterDelete`).

- **Short captures.** Of a frame of which only the first bytes were captured one expects the first
  of its layers. The IPv4 module takes options that are not all there for the payload, so a UDP
  packet cut in its options may be handed on by what the options look like
  (`Layers.OptionsTakenForPorts`); in all other cases, and only in those, the expectation holds
  (`Layers.CutFrame`).

## Model

| member | source | states |
|---|---|---|
| TcpModel.DecodeStream | src/modules/tcp.cc:333-400 | replay terminates with stash size plus one as measure, although failed replays are stashed again while the chain is walked; a call adds at most one segment to the stash |
| TcpSession.Stream.Send | src/modules/tcp.cc:216-234 | accepts exactly when there is no base yet or the segment starts at `next_seq_`, and then moves `next_seq_` by the payload modulo 2^32 |
| TcpSession.Session.TransState | src/modules/tcp.cc:276-331 | the six-state transition with base setting and FIN counting, and the status it reports |
| TcpSession.Session.DecodeStream | src/modules/tcp.cc:333-400 | the imperative recursion with its loop over the released chain computes the model's state, stash, buffer, events and log included |
| TcpSession.Session.Decode | src/modules/tcp.cc:402-426 | drops the buffer, picks the sender by address and port, decodes |
| TcpConservation.DecodeConserves | src/modules/tcp.cc:336-352 | for every state, flags and direction: accepted plus waiting segments afterwards are those before plus the arrival, as multisets |
| TcpConservation.ReplayConserves | src/modules/tcp.cc:388-396 | the same for the replay of a whole chain |
| TcpConservation.RunConserves | src/modules/tcp.cc:333-426 | over a whole session every segment that arrived was accepted once or waits once |
| TcpConservation.NextNeverStashed | src/modules/tcp.cc:377-397 | when a call returns, no stash key equals the sender's `next_seq_` |
| TcpConservation.DecodeExtends | src/modules/tcp.cc:333-400 | a call only extends the log, with segments taken for its sender, and leaves the peer's stream alone |
| TcpConservation.StashUntouchedIff | src/modules/tcp.cc:377-388 | an accepted packet leaves the stash as it was if and only if its sender's new `next_seq_` is not a key of it |
| TcpLifecycle.RunTracks | src/modules/tcp.cc:353-367 | after any run status, bases, `next_seq_` and events are a function of the accepted segments alone |
| TcpLifecycle.TakeForward | src/modules/tcp.cc:280-328 | an accepted segment moves the status by one state forward or not at all |
| TcpLifecycle.StatusLaw | src/modules/tcp.cc:276-331 | each status holds if and only if the accepted segments contain SYN, SYN\|ACK, ACK and the two FINs in that order up to it; "established" and "closed" were fired once each, in order, exactly when due |
| TcpLifecycle.SessionLifecycle | src/modules/tcp.cc:276-367 | that law in every reachable state, and status, events and bases never go back as packets come |
| TcpLifecycle.Accounting | src/modules/tcp.cc:201-234 | `next_seq_` is 1 plus the payload accepted since the opening segment plus one for a FIN sent after the handshake, modulo 2^32 |
| TcpLifecycle.SessionAccounting | src/modules/tcp.cc:307-322 | the accounting equation for both streams in every reachable state |
| TcpShift.ShiftRun | src/modules/tcp.cc:197-234 | two runs whose sequence numbers differ by a constant modulo 2^32 stay the same up to that constant |
| TcpShift.ShiftInvisible | src/modules/tcp.cc:276-400 | so status, events, stash keys, relative positions and bytes of the two runs are equal |
| TcpReassembly.DecodePiece | src/modules/tcp.cc:336-397 | one segment of the sender, with a slice or empty, decoded for a stream that reads the slices: the stream goes on over waiting slices, delivers them in order, and of each slice passed exactly one copy leaves the stash |
| TcpReassembly.ReplayPieces | src/modules/tcp.cc:388-396 | the same for a released chain |
| TcpReassembly.PacketOfSender | src/modules/tcp.cc:336-397 | one packet of the sender, late, early, repeated or empty: the slices delivered or waiting are those before and the one it carries, and the sender stands at the first that is missing |
| TcpPeer.RefusedAll | src/modules/tcp.cc:336-352 | a chain of copies of one number that a stream does not wait for is put back whole, in order, under that stream's key |
| TcpPeer.OtherBase | src/modules/tcp.cc:377-396 | a peer with another base moves the chain it opens at a border, whole, to a different key |
| TcpPeer.SameBase | src/modules/tcp.cc:377-396 | a peer with the same base takes one copy of each slice in the unbroken run of waiting slices it opens, up to the first that does not wait, and no more |
| TcpPeer.DecodeForeign | src/modules/tcp.cc:336-397 | a peer whose base has no border in common, whatever it accepts or puts back in its recursion, leaves the chains at the sender's borders as they are |
| TcpPeer.ReachableConsistent | src/modules/tcp.cc:280-328 | in every reachable state a stream has a base exactly from its opening status on, and `next_seq_` is 0 before |
| TcpPeer.ForgottenExactly | src/modules/tcp.cc:336-397 | after an accepted packet of the peer the sender's slices at hand are those before, without: the undelivered slice whose key the peer goes on to wait for (other base), or the slices of the waiting run from there of which there was one copy (same base) |
| TcpRuns.ReassembledIff | src/modules/tcp.cc:333-426 | the law of reassembly over any run, with a condition on each peer packet: the stream is reassembled if and only if each slice arrives at some point after which no peer packet costs it |
| TcpRuns.ReassembledPrompt | src/modules/tcp.cc:333-426 | that law for every run from an open connection whose peer packets are merely accepted, if the bases are equal or have no slice border in common |
| TcpRuns.OrderIndependent | src/modules/tcp.cc:333-400 | with a peer that does not reach into the stash and any bases: the stream is reassembled if and only if every slice has arrived, in any order and with any repeats |
| TcpLosses.PeerCanSteal | src/modules/tcp.cc:377-396 | for every pair of equal initial sequence numbers, a run in which the client's data goes to the server |
| TcpLosses.PeerCanStall | src/modules/tcp.cc:377-396 | for every pair of different ones, a run in which all slices arrive, nothing is taken, and the client waits for a slice that lies under another key |
| TcpLosses.PeerCanTakeLater | src/modules/tcp.cc:377-396 | for every pair of different ones, a run in which the server moves the client's slice with one packet and takes it with a later one |
| TcpLosses.MovedBack | src/modules/tcp.cc:377-396 | bases with a border in common: a run in which a slice is moved away, moved back by the sender and delivered |
| TcpBuffer.PacketDelivers | src/modules/tcp.cc:369-386 | every packet adds one value under TCP.data per segment it releases, its own first and then the stashed ones; each value is all payload of the packet up to and including that segment; a packet that is not accepted adds none |
| TcpBuffer.RunDelivers | src/modules/tcp.cc:369-386 | over a whole session there is one value per accepted segment, and the values of each packet are its growing payload |
| TcpBuffer.PacketWaits | src/modules/tcp.cc:336-352 | a packet out of order delivers nothing, changes no status and waits |
| TcpTable.KeyIdentifies | src/modules/tcp.cc:428-455 | two packets share a key if and only if they run between the same two endpoints, in either direction |
| TcpTable.Demultiplexes | src/modules/tcp.cc:603-681 | whatever else is on the wire, the session under a key is what its own packets since its creation make of a new session |
| TcpTable.RoutedBetweenEnds | src/modules/tcp.cc:409-416 | every packet routed to a session goes from its client to its server or back |
| TcpWire.FlagsPassed | src/modules/tcp.cc:669-680 | a session is the run of its frames with number and payload as sent, FIN, SYN, RST and ACK set exactly if they are in the frame, the other bits clear |
| TcpWire.HandshakeEstablishes | src/modules/tcp.cc:276-303 | frames with SYN, SYN and ACK, and ACK in order between two endpoints, whatever else is on the wire and whatever their other bits, establish the session, with that event, for good |
| TcpWire.FarewellCloses | src/modules/tcp.cc:306-328 | then FINs from both ends, either first, close it |
| Ring.RunInv | src/channel.hpp:84-136 | the protocol invariant in every interleaving of the two threads |
| Ring.EmptyTestExact | src/channel.hpp:110-118 | the index comparison of `pull` says empty exactly when nothing is pending |
| Ring.InOrderDelivery | src/packetmachine.cc:58-76 | packets pulled are a prefix of packets captured, in order, unchanged; index distance below the size; `recv_pkt_` and `recv_size_` count that prefix |
| Ring.SlotExclusive | src/channel.hpp:84-106 | from retain to publish, the producer's packet is never the one in the consumer's hand nor one that waits |
| Ring.HeldPacketStable | src/kernel.cc:101-118 | a packet under decode never changes |
| Ring.DrainedIff | src/channel.hpp:117-136 | when `pull` answers null, all captured packets were pulled if and only if none was published after the last comparison; always so if the channel was closed by then |
| Ring.PacketCanBeLost | src/channel.hpp:117-122 | for every ring of three slots or more, a run that loses a packet at shutdown |
| RingProgress.NextDelivered | src/channel.hpp:110-136 | with a packet pending, any interleaving that gives the consumer the steps its program point says, six at most, ends with exactly that packet pulled and in hand |
| RingProgress.CaptureReads | src/packetmachine.cc:58-76 | what the capture wrote last is the packet captured |
| RingProgress.ReadIsPublished | src/channel.hpp:101-106 | any interleaving that gives the producer three steps publishes the packet read, and only that |
| RingProgress.RetainedIffRoom | src/channel.hpp:84-99 | the retain loop lets the producer through exactly when fewer than size - 1 packets pend |
| RingProgress.DrainsIff | src/channel.hpp:117-136 | once closed, every schedule with enough consumer steps, six per pending packet and five, ends with everything captured pulled, if and only if the consumer has not passed its last comparison with a packet pending |
| RingProgress.EverythingArrives | src/packetmachine.cc:58-76 | for every list of packets and every ring of two slots or more there is a run that captures, hands over and ends with exactly them |
| Handlers.TableFollowsRequests | src/kernel.cc:120-128 | in every interleaving requests take effect in push order, whatever ids the handlers drew, `pull` never finds the queue empty, a handler is listed at most once and exactly while added and not deleted |
| Handlers.QueueStep | src/channel.hpp:166-198 | the queue, its lock and its unlocked flag stay consistent through every step, with the flag stored and the lock released in separate steps |
| Handlers.RegisteredExactly | src/kernel.cc:186-204 | what a list of add and delete requests leaves in the table |
| Handlers.DispatchIsStable | src/kernel.cc:110-118 | no thread changes the handler table while a packet's events are dispatched |
| Handlers.EveryHandlerVisited | src/kernel.cc:109-118 | a step that ends the dispatch of a packet finds every handler of every event visited exactly once, event by event and in order of registration; in every visit of the run the callback ran exactly if the last store to the handler's flag before it, by whichever thread, was true |
| HandlersProgress.DispatchEnds | src/kernel.cc:109-118 | from the start of a packet's events, any interleaving with one kernel step per handler, one per event and one more visits all handlers, in order, and leaves the dispatch |
| HandlersProgress.RequestsApplied | src/kernel.cc:120-128 | between packets with the queue unlocked, at most nine kernel steps per request and one apply everything pushed, in order, and the kernel waits for a packet |
| HandlersProgress.OnTakesEffect | src/kernel.cc:135-152 | a handler registered while the kernel runs is in the table once the next packet has been handled |
| HandlersProgress.ClearTakesEffect | src/kernel.cc:175-183 | a handler removed while the kernel runs is out of it |
| Handlers.NeverCalledAfterDelete | src/kernel.cc:192-204 | once its delete request was applied a handler is not visited any more |
| Handlers.InactiveForeverIff | src/kernel.cc:42-68 | a handler whose delete was applied is inactive in every continuation if and only if it is inactive now and no activate that passed the destroyed test is on its way |
| Handlers.RemovedYetActive | src/kernel.cc:42-68 | a run after which a handler is removed, destroyed and active |
| DnsName.ParseLabel | src/modules/utils.cc:241-308 | on every byte string: at most 256 iterations, reads only inside the message, computes the name and offset of the model |
| DnsName.ParsesExactly | src/modules/utils.cc:257-303 | parsing succeeds if and only if a name with fewer than 256 label bytes is spelled there |
| DnsName.Decompresses | src/modules/utils.cc:263-302 | the result is every label followed by a dot and the offset past the terminator or the first pointer |
| DnsName.ParseAdvances | src/modules/utils.cc:286-302 | a success returns an offset after its start and inside its bound |
| DnsMessage.DecodeRecord | src/modules/utils.cc:153-229 | one round: what is stored and how the loop goes on, for every way a record can be cut short |
| DnsMessage.FindSection | src/modules/utils.cc:145-150 | the section a record number belongs to, empty sections skipped |
| DnsMessage.NsDecode | src/modules/utils.cc:90-238 | the section counter never passes the fourth section and every record lands in the section its number belongs to |
| DnsMessage.MessageBounded | src/modules/utils.cc:103-231 | whatever the header announces, at most body length / 5 + 1 records are stored, and every name start and data slice lies inside the message |
| DnsRoundTrip.InlineSpells | src/modules/utils.cc:263-302 | an encoded name, with or without a pointer, is one the parser reads |
| DnsRoundTrip.PlainSupported | src/modules/utils.cc:284-302 | names without pointers meet the round trip's condition on pointer targets in every message |
| DnsRoundTrip.RoundTrip | src/modules/utils.cc:90-238 | decoding an encoded message gives back its four record lists, in order, with name, type and data of each record, if every pointer in it leads to a name the parser can read |
| DnsCompression.JumpToSuffix | src/modules/utils.cc:284-302 | a name written in reach of a jump, and any suffix of it that is not a bare pointer, can be pointed to |
| DnsCompression.CompressedRoundTrip | src/modules/utils.cc:90-238 | the round trip for every message whose names end in a zero byte or in a pointer to a suffix of an earlier record's name, with nothing assumed about the bytes |
| DnsCompression.ExampleCompressed | src/modules/utils.cc:263-302 | a message with a pointer that meets that condition |
| DnsCut.CutName | src/modules/utils.cc:257-303 | a name of which not all bytes are there cannot be read, wherever it is cut |
| DnsCut.CutMessage | src/modules/utils.cc:153-229 | an encoded message cut at any byte behind its header: records before the cut are stored whole, the cut one with its name and, if that is there, its type; the answer is false exactly if the cut is where a name would start or has just ended |
| Pool.Payload.Retain | src/property.cc:55-69 | slices are consecutive and a slice that does not fit moves nothing |
| Pool.Payload.Shrink | src/property.cc:72-79 | cuts what can still be read, or changes nothing |
| Pool.TakenInOrder | src/property.cc:55-79 | over any run of `retain` and `shrink` calls the slices handed out concatenate to a prefix of the packet |
| Pool.MoveAll | src/property.cc:55-79 | a run of such calls on one payload hands out exactly those slices |
| Pool.Property.RetainValue | src/property.cc:129-151 | the object returned is clean and not yet handed out in this packet; nothing handed out before changes |
| Pool.Property.First | src/property.cc:222-250 | the first value retained for the parameter in this packet, or null |
| Pool.Property.Minor | src/property.cc:226-240 | a lazily read field is computed from the header of the current packet, whatever its storage held |
| Pool.FillPacket | src/property.cc:120-151 | whatever packets came before, a packet reads back what a map made afresh for it would hold |
| Pool.ReadFields | src/property.cc:222-250 | over any run of packets through one pool, a lazily read field is always that of the first header stored in the packet it is read in |
| Dhcp.OptsRoundTrip | src/modules/dhcp.cc:177-201 | any options followed by nothing, by code 255 and anything, or by an option cut at any byte, are read back exactly |
| Dhcp.OptsComplete | src/modules/dhcp.cc:177-201 | conversely, all bytes are the options read from them followed by such an end |
| Dhcp.AddOption | src/modules/dhcp.cc:189-200 | one more option with its three values, earlier ones untouched |
| Dhcp.DecodeOptions | src/modules/dhcp.cc:175-202 | the loop ends and the array holds exactly the options of the payload, as distinct objects |
| Dispatch.ChainIsShortPath | src/decoder.cc:164-179 | whatever the bytes, the modules entered form a path of the module graph of at most six |
| Dispatch.HandDescends | src/modules/ether.cc:93-113 | every hand-over follows the graph and strictly shortens the payload |
| Dispatch.EnterIpv4 | src/modules/ipv4.cc:119-165 | header, options and trailer are cut off as the header says when they fit |
| Dispatch.DecodePacket | src/decoder.cc:164-179 | the dispatch loop ends and pushes one event per module of that path |
| Layers.UdpEntries | src/modules/udp.cc:86-114 | a UDP packet written with ports of DNS, mDNS or DHCP at either end enters that module with its payload, and no module otherwise |
| Layers.IpEntries | src/modules/ipv4.cc:119-165 | an IPv4 packet written with any options and trailer enters ICMP, TCP or UDP, as its protocol number says, with exactly its payload |
| Layers.FrameRoundTrip | src/decoder.cc:164-179 | a frame written layer by layer, with tags, PPPoE, IPv4 and UDP, is taken apart into exactly those layers, each module entered with the bytes of its layer |
| Layers.CutFrame | src/modules/ipv4.cc:145-153 | of a frame cut at any byte the modules entered are the first of its layers, if and only if it is not a UDP packet cut in options that read as other ports |
| Layers.OptionsTakenForPorts | src/modules/ipv4.cc:145-153 | such a frame |

## Left out

- libpcap, thread creation and cancellation, `usleep` backoff, debug output: foreign calls.
- The C++ memory model: steps are sequentially consistent.
- TCP acknowledgement numbers, windows, RST and the round-trip time: stored or ignored, never used in a decision.
- TCP header parsing, the transmitted-size values (never updated) and the session id.
- Timeouts of the session table: which sessions expire before a packet is an input of the model.
- TcpRuns.ReassembledPrompt: different bases with a slice border in common are left out, as there a lost slice may come back (`TcpLosses.MovedBack`); so are peer packets that have to wait themselves, and a FIN among the slices.
- TcpPeer.ForgottenExactly: a peer that opens a chain away from every border is covered if its base has no border in common with the sender's.
- DnsRoundTrip.RoundTrip: speaks of pointers to anywhere by what the message spells there; `DnsCompression.CompressedRoundTrip` replaces that by a condition on the message.
- Kernel::on and Kernel::clear calls that race with the kernel starting or stopping, and `clear` by handler id, which no public call reaches.
- Dispatch.DecodePacket: modules that end the chain are not run here; TCP, DNS and DHCP are modelled in their own files.
- DHCP header fields, ARP, ICMP and IPv6, which Ethernet never hands to.
- DNS query/reply flag and the printing of record data: single branches and text tables.
- Pool.Property.First: reading a parameter before the pool has grown to its id indexes out of range in the original; here it is a precondition.
- Dhcp.DecodeOptions: assumes the option parameters were not yet used in the packet, as the module is entered once per packet.
- Pool.Property.Minor: the storage of a lazily read field is modelled by its content, not by an object of its own.
