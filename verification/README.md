# Newt verification

Newt is a user-space WireGuard client. Most of it moves bytes between sockets, but around that
traffic sit several small engines whose correctness is not obvious from reading them. This
project models those engines in Dafny and proves what they are relied on for.

| file | engine |
|---|---|
| `OnesComplement.dfy`, `Packet.dfy` | rewriting an address in an IPv4 packet and recomputing its checksums |
| `Wire.dfy` | packets written field by field after the RFCs, as a reference for the packet code |
| `Prefixes.dfy`, `SubnetLookup.dfy` | the two-level index of subnet rules |
| `Nat.dfy`, `ProxyHandler.dfy` | connection tracking for destination rewriting |
| `SharedBind.dfy` | the UDP socket shared by reference count, swapped and closed from any thread |
| `BatchReceive.dfy` | compacting a batch of received datagrams in place |
| `HostPort.dfy` | "host:port" strings by the rules of Go's net package |
| `Consolidation.dfy`, `Consolidator.dfy` | merging bursts of access sessions, and the algorithm that does it |
| `AccessLogger.dfy`, `LogRuns.dfy` | the life of access sessions up to delivery, and all interleavings of it |
| `CutOff.dfy`, `CutOffExamples.dfy` | the age of what is given up when a batch put back no longer fits |
| `Interchange.dfy`, `LogDelivery.dfy`, `DeliveryRuns.dfy` | what is delivered in any interleaving, compared with the raw sessions |
| `Registration.dfy`, `NewtHandlers.dfy` | chain ids that match replies with requests, and the handlers that use them |
| `TargetStrings.dfy`, `TargetSync.dfy` | target strings, and reconciling the proxy's targets with the server's |
| `PingCheck.dfy` | the periodic tunnel check and its recovery |
| `RdCleanPath.dfy` | framing of the RDP handshake on a stream |
| `Bandwidth.dfy` | traffic reports from counter readings |
| `HealthCheck.dfy` | thresholds of the health monitor |

Code that updates fields in place is a class here, loops are loops with invariants, and each
method is proved against a specification stated on values. What the source promises is then
proved about those values, mostly over every run of the engine.

Some results show that the code does not do quite what one would expect. They are stated as
exact conditions:

- A live connection's replies are translated back if and only if no other connection with the
  same rewritten address, source, ports and protocol was opened or closed since it was opened.
  Being alone at the time of the reply is not enough (`Nat.SurvivorLosesReplies`).
- A closing connection releases the state under the address the proxy stack saw. So its state is
  kept, and a changed rule does not take effect for the next connection, if and only if its
  destination was really rewritten, to an address that is not a loopback address
  (`Nat.KeptOnCloseIff`, `Nat.ChangeTakesEffectIff`).
- The handler of a connection that is redirected to another address keeps finding the resource that
  the rule had when the connection was opened, unless a packet that opens a connection notes the
  new one (`Nat.ResourceFoundIff`). For a loopback target it finds the address of the connection
  opened last from the same source to the same destination and port (`Nat.LoopbackFoundIff`).
- Rewriting an address and back restores the packet if and only if its checksums verify and
  neither is 0xFFFF. A UDP checksum computed as zero is stored as zero, where RFC 768 asks for
  all ones (`Packet.UdpZeroChecksum`).
- The UDP session index stays exact if and only if sessions are ended with the operation of
  their own protocol, or no UDP session shares the addresses (`AccessLog.TcpEndKeepsIndex`,
  `AccessLog.UdpEndKeepsIndex`). Runs that break it are in `LogRuns.IndexBreaks`.
- When the buffer overflows after a failed send, the log message speaks of the oldest entries
  (netstack2/access_log.go:445). If no other flush put its batch back meanwhile, what is cut off
  ended after everything that is kept, if and only if that is so within the batch; it is, if the
  batch is within 500 entries (`CutOff.CutOffIsNewestIff`). Neither condition can be dropped
  (`CutOffExamples.OtherFlightCutsOldest`, `CutOffExamples.LargeBatchCutsOldest`).
- A connection count says how many entries were merged, although its comment promises connections
  (netstack2/access_log.go:296-298). It is the number of connections if and only if no entry of
  the run was merged before (`Consolidation.CountIsRawIff`). After a failed send one can be: then
  two stands for three (`Consolidator.RetryMiscountsHappens`). All other fields are as if the send
  had not failed, in every run (`DeliveryRuns.DeliveredIsRaw`).
- A request issued between a handler's comparison with the slot and its emptying of the slot
  loses its slot, and its reply is discarded (`Registration.InterferenceLosesReply`).
- Recovery after lost pings leaves the previous sender running, with nothing left to stop it, if
  and only if there is one (`NewtHandlers.Newt.Recover`, `NewtHandlers.StrayHappens`). A stale
  exit-node reply stops the current sender although it is discarded
  (`NewtHandlers.Newt.OnExitNodes`).
- A sync leaves the desired targets if and only if every string that decides a port has a port
  from 1 to 65535, a host and a target port, without brackets (`TargetSync.HandleSync`). A
  bracketed host is stored without its brackets. A second identical sync changes nothing if and
  only if no such host is among them (`TargetSync.SyncTwice`, `TargetSync.BracketedListExample`).
- The check interval grows while pings fail, but the ticker is only set after a success
  (newt/ping.go:298-303 and 322-329). The ticker runs at the interval if and only if fewer than
  four checks have failed in a row, or the interval cannot grow: the period is at its maximum, or
  below 4 ns (`PingCheck.PeriodIsIntervalIff`, `PingCheck.LagExample`).

## Model

| member | source | states |
|---|---|---|
| OnesComplement.ChecksumIsFold | netstack2/proxy.go:718-720 | Summing with end-around carry, word by word from an initial value, is the sum of all 16-bit words folded modulo 65535, with zero only for an empty sum (RFC 1071) |
| OnesComplement.FilledFieldVerifies | netstack2/proxy.go:718-720 | A field set to the complement of the sum over the rest makes the whole fold to all ones |
| OnesComplement.FilledFieldIsUnique | netstack2/proxy.go:718-720 | The only other value of that field that verifies is the negative zero |
| Packet.RewriteDestination | netstack2/proxy.go:701-754 | The copy that is returned has the destination set and both checksums recomputed; null exactly for packets shorter than a header; the caller's buffer is not touched |
| Packet.RewriteSource | netstack2/proxy.go:757-810 | The same for the source |
| Packet.FillTransportChecksum | netstack2/proxy.go:722-751 | In place, the TCP or UDP checksum field becomes the checksum over pseudo-header and segment; other packets are left alone |
| Packet.RewriteVerifies | netstack2/proxy.go:701-810 | For every well-formed packet and address, the rewritten packet is well formed, carries the address, and its header and transport checksums verify under RFC 791, RFC 9293 and RFC 768 |
| Packet.RewriteKeepsTheRest | netstack2/proxy.go:701-810 | Every byte except the address and the checksums is kept, hence the other address, the ports and the payload |
| Packet.RewriteOverwrites | netstack2/proxy.go:701-810 | Of several rewrites of one field only the last counts |
| Packet.RewriteBackRestores | netstack2/proxy.go:701-810 | Rewriting and rewriting back gives the original bytes if and only if its checksums verify and neither is negative zero |
| Packet.UdpZeroChecksum | netstack2/proxy.go:738-750 | The stored UDP checksum is zero if and only if pseudo-header and segment without it already fold to all ones |
| Packet.UdpZeroChecksumHappens | netstack2/proxy.go:738-750 | A concrete datagram for which it is |
| Wire.WrittenIsRead | netstack2/proxy.go:499-552 | From every packet written out after RFC 791, RFC 9293 and RFC 768 the packet code reads back the addresses, ports and protocol, and finds both checksums where they were written |
| Wire.RewritingIsWriting | netstack2/proxy.go:701-810 | Rewriting a packet is writing it again with the new address and with checksums that verify; every other field stays |
| Wire.VerifiedMeans | netstack2/proxy.go:718-751 | That a checksum verifies means that the words of the header, or of pseudo-header and segment as written, add up to a positive multiple of 0xFFFF |
| Wire.RedirectedIsWritten | netstack2/proxy.go:672-683 | What is injected for a redirected packet: itself for a target in 127.0.0.0/8, otherwise the packet written with that destination |
| Prefixes.CoversIff | netstack2/subnet_lookup.go:161-181 | A prefix covers an address exactly if the address, as a number, lies between the first and the last one with the prefix's bits |
| SubnetRules.RunIsLastWrite | netstack2/subnet_lookup.go:51-149 | After any history of adds, removes and replacements a rule is in the table if and only if it is the last one written under its masked prefixes and neither removed nor replaced since |
| SubnetRules.InTableIff | netstack2/subnet_lookup.go:51-149 | In terms of the rules' own networks: a rule is in the index if and only if an operation brought it in and none since has removed its pair, put another rule there, or replaced all |
| SubnetRules.RunIsKeyed | netstack2/subnet_lookup.go:61-97 | Every stored rule sits under its own masked prefixes |
| SubnetRules.ReplaceIsAddingToEmpty | netstack2/subnet_lookup.go:103-112 | Replacing all rules is adding them one by one to a new index |
| SubnetRules.CandidateYieldsDecisive | netstack2/subnet_lookup.go:161-223 | If some pair covers and settles a packet there is exactly one most specific such pair |
| SubnetRules.IcmpMatchIff | netstack2/subnet_lookup.go:184-194 | For ICMP the rule is that of the most specific covering pair, if it does not disable ICMP; none if there is no covering pair or its rule does |
| SubnetRules.PortMatchIff | netstack2/subnet_lookup.go:196-217 | Otherwise it is that of the most specific covering pair that has no port ranges or one for the port and protocol; none if there is no such pair |
| SubnetRules.Insert | netstack2/subnet_lookup.go:78-96 | Trie and side list of a destination trie agree after an insertion, which replaces the rule with the same masked destination |
| SubnetRules.Delete | netstack2/subnet_lookup.go:128-140 | Trie and side list agree after a deletion |
| SubnetRules.SubnetLookup.constructor | netstack2/subnet_lookup.go:35-39 | A new index holds the empty table |
| SubnetRules.SubnetLookup.Add | netstack2/subnet_lookup.go:51-97 | The index holds the table of its history, extended by the add; no empty destination trie exists and lists agree with tries |
| SubnetRules.SubnetLookup.ReplaceAll | netstack2/subnet_lookup.go:103-112 | The same for a replacement |
| SubnetRules.SubnetLookup.Remove | netstack2/subnet_lookup.go:115-149 | The same for a removal, which drops a destination trie that becomes empty |
| SubnetRules.SubnetLookup.PortAllowed | netstack2/subnet_lookup.go:196-217 | The loop over port ranges finds an admitting range if and only if there is one, or the rule has none |
| SubnetRules.SubnetLookup.MatchDest | netstack2/subnet_lookup.go:178-219 | The inner walk finds the longest covering destination prefix whose rule settles the packet |
| SubnetRules.SubnetLookup.Match | netstack2/subnet_lookup.go:161-223 | The result is that of the flat table, and is a rule if and only if that rule applies in the sense of the two rows above |
| SubnetRules.SubnetLookup.GetAllRules | netstack2/proxy.go:68-82 | Every rule of the table is listed, exactly once |
| Nat.StepEffect | netstack2/proxy.go:611-668 | A packet or release opens one connection, closes one, or leaves forward and reverse tables alone |
| Nat.RunConsistent | netstack2/proxy.go:611-668 | In every reachable state each forward entry records its own destination and each reverse entry is backed by a live forward entry of the same connection and address |
| Nat.KeepsAddress | netstack2/proxy.go:611-622 | A connection keeps its first resolved address until it is released, whatever rules and resolver do |
| Nat.SameTarget | netstack2/proxy.go:611-681 | Every later packet that still matches a rewriting rule goes to that address |
| Nat.AnsweredIffUndisturbed | netstack2/proxy.go:574-690 | In every run, the reverse table leads to a live connection's own entry if and only if no other connection with its reverse key was opened or closed since it was opened |
| Nat.SharesIff | netstack2/proxy.go:644-652 | Two connections have the same reverse key if and only if they agree in rewritten address, source, ports and protocol |
| Nat.ReplyRestored | netstack2/proxy.go:828-888 | A reply to a redirected packet leaves as a valid packet from the original destination to the original source with ports kept, if the connection is answered; otherwise not from the original destination |
| Nat.RoundTrip | netstack2/proxy.go:574-690 | The two together over a whole run: opened, redirected, replied to |
| Nat.NoSharingAnswersAll | netstack2/proxy.go:611-668 | If no two live connections ever share a reverse key, every live connection is answered |
| Nat.SurvivorLosesReplies | netstack2/proxy.go:376-392 | Two packets open connections that share a reverse key, the first is released: the second, the only one left, was answered and no longer is |
| Nat.SharingHappens | netstack2/proxy.go:611-668 | Two concrete UDP datagrams that share a reverse key; closing the first, whose destination is the target itself, releases its own connection, closing the second does not |
| Nat.SeenConnIs | netstack2/handlers.go:169-174 | The connection that a handler releases has the rewritten destination, unless that is a loopback address |
| Nat.KeptOnCloseIff | netstack2/handlers.go:321-330 | A tracked connection's state is kept when it closes if and only if its destination was changed to another, non-loopback address |
| Nat.ChangeTakesEffectIff | netstack2/handlers.go:169-174 | A new target takes effect for the next connection with the same addresses and ports if and only if it was not |
| Nat.RedirectIsLast | netstack2/proxy.go:397-414 | In every run a handler finds the address of the last connection opened for its source, destination, port and protocol |
| Nat.RedirectWasStored | netstack2/proxy.go:397-414 | And it finds none if there was no such connection |
| Nat.ResourceIsLast | netstack2/proxy.go:297-312 | In every run it finds the resource noted last for them |
| Nat.ResourceWasNoted | netstack2/proxy.go:297-312 | And none if none was |
| Nat.LoopbackFoundIff | netstack2/proxy.go:672-683 | For a connection redirected to a loopback address the handler finds that address if and only if the last connection opened for the same key was given it |
| Nat.ResourceFoundIff | netstack2/proxy.go:601-667 | After a packet the handler finds the resource of the packet's rule if and only if the packet opened the connection, the destination is unchanged, or it was noted there before |
| Proxying.ProxyHandler.constructor | netstack2/proxy.go:150-177 | Tables start empty |
| Proxying.IndexAddrIff | netstack2/proxy.go:521-523 | A network covers an address of a packet if and only if the number written by the address's four bytes lies in the network's range |
| Proxying.RuleForIff | netstack2/proxy.go:521-555 | The rule of a packet is r if and only if its headers are complete and, of the rules whose networks hold its addresses and whose ports let it in, r has the longest source and then the longest destination network and does not turn ICMP away |
| Proxying.ProxyHandler.ParseHeaders | netstack2/proxy.go:499-552 | Packets are refused exactly if they are shorter than 20 bytes, not of version 4, or lack a complete TCP or UDP header; otherwise addresses, ports and protocol are read |
| Proxying.ProxyHandler.HandleIncomingPacket | netstack2/proxy.go:499-698 | One step of the machine with the rule just described; the packet is handled if and only if there is one; what is injected is the rewritten packet, or the original if there is nothing to redirect it to |
| Proxying.ProxyHandler.Dispatch | netstack2/proxy.go:557-690 | All four tables and the injected packet after a rule has matched |
| Proxying.ProxyHandler.ReadOutgoingPacket | netstack2/proxy.go:828-888 | The packet returned has its source restored exactly if the reverse table knows it; ICMP and packets that are not IPv4 are returned as they are |
| Proxying.ProxyHandler.ReleaseConnectionState | netstack2/proxy.go:363-393 | The forward entry and its reverse entry are removed |
| SharedBinds.SharedBind.constructor | bind/shared_bind.go:159-182 | The first socket is accepted and installed |
| SharedBinds.SharedBind.CloseSocket | bind/shared_bind.go:336-364 | Refused when closed; otherwise no socket is installed, the one before is closed, and a rebind is in progress |
| SharedBinds.SharedBind.Rebind | bind/shared_bind.go:369-421 | Refused when closed; otherwise the new socket is installed and accepted and the one before, if any, is closed |
| SharedBinds.SharedBind.CloseConnection | bind/shared_bind.go:263-291 | The installed socket, if any, is closed and taken out |
| SharedBinds.SectionsConserve | bind/shared_bind.go:336-421 | Each critical section keeps accepted sockets equal to closed plus installed ones, with multiplicity |
| SharedBinds.ReachableInv | bind/shared_bind.go:236-421 | Under every interleaving: sockets conserved, one thread at most in a critical section, the shutdown channel closed once if at all, and until closing is over the socket is absent exactly while a rebind is in progress |
| SharedBinds.ClosedExactlyOnce | bind/shared_bind.go:236-421 | Of distinct accepted sockets every one has been closed exactly once, except the installed one; once closing is over there is no exception |
| SharedBinds.FrozenAfterClose | bind/shared_bind.go:369-421 | After closing is over nothing is installed, accepted or closed again |
| SharedBinds.OpenWhileHeld | bind/shared_bind.go:236-260 | If references are only passed on and released by holders, the bind is not closed while one is outstanding |
| SharedBinds.ClosedIffReleased | bind/shared_bind.go:246-259 | And once none is outstanding it is closed or a thread is about to close it, so between releases it is closed if and only if none is |
| SharedBinds.LastReleaseCloses | bind/shared_bind.go:246-291 | The last release, undisturbed, closes the bind, its channel and the installed socket |
| SharedBinds.CloserCloses | bind/shared_bind.go:263-291 | So does any thread that is about to, once it has the lock |
| SharedBinds.NegativeIsReset | bind/shared_bind.go:249-253 | In every run, disciplined or not, a negative count is about to be reset |
| SharedBinds.RebindInstalls | bind/shared_bind.go:369-421 | A rebind, undisturbed, installs its socket and closes the one before, or changes nothing if the bind is closed |
| SharedBinds.CloseSocketTakesOut | bind/shared_bind.go:336-364 | Closing for a rebind takes the socket out and closes it, or changes nothing if the bind is closed |
| BatchReceive.EchoRoundTrip | bind/shared_bind.go:705-753 | Answering a test request and receiving the answer reports the request's own data |
| BatchReceive.UnmapIsCanonical | bind/shared_bind.go:644-645 | An IPv4-mapped sender gives the same endpoint as the plain IPv4 sender, and no other two senders give the same |
| BatchReceive.MagicIff | bind/shared_bind.go:705-753 | Test packets are those of 25 bytes or more that begin with the request or response text |
| BatchReceive.ActingIsExact | bind/shared_bind.go:622-636 | The messages that call for an answer or a report are listed in arrival order, each once |
| BatchReceive.EffectsInOrder | bind/shared_bind.go:622-636 | The effects of a batch are those of these messages, one each |
| BatchReceive.PassedUpToIsExact | bind/shared_bind.go:615-651 | The messages passed on are the non-empty, non-test ones, in arrival order |
| BatchReceive.HandleMagicPacket | bind/shared_bind.go:705-753 | A packet is handled if and only if it is a complete test request or response; a request is answered exactly while a socket is installed, a response reported exactly with a callback |
| BatchReceive.CompactBatch | bind/shared_bind.go:599-654 | The first n slots hold exactly those messages with bytes and sizes and, for IPv4, IPv4-mapped and IPv6 senders, the plain endpoint; later slots, and so every unread message, are as they were |
| HostPorts.SplitJoin | newt/targets.go:49-60 | Splitting what was joined gives host and port back, with or without colons in the host |
| HostPorts.SplitIsPlain | newt/targets.go:49-53 | Neither part of a split contains brackets, and the port no colon |
| HostPorts.SplitIff | newt/targets.go:49-53 | Exactly which strings are split and into what: a bracketed host or one without a colon, a colon, a port |
| Consolidation.HasHead | netstack2/access_log.go:332-380 | Every session lies in the run of some head |
| Consolidation.RunsApart | netstack2/access_log.go:348-370 | Two outputs of a key are further apart than the threshold: they could not be merged |
| Consolidation.RunsConnected | netstack2/access_log.go:348-366 | Whatever starts after the head of a run starts within the threshold of an earlier member's end |
| Consolidation.BytesConserved | netstack2/access_log.go:351-353 | Per key, bytes sent and received are conserved |
| Consolidation.RunsKept | netstack2/access_log.go:423-440 | Replacing sessions by the outputs that report them moves no cut and no run |
| Consolidation.ReportKept | netstack2/access_log.go:423-440 | Nor does it change what is to be reported about a run |
| Consolidation.RetryIsHarmless | netstack2/access_log.go:423-440 | An output consolidates (consolidated A) + B if and only if it consolidates A + B |
| Consolidation.RetryConsolidatesRaw | netstack2/access_log.go:423-440 | The same without naming the runs |
| Consolidation.RetryGivesTheSame | netstack2/access_log.go:423-440 | So both give the same runs, equal in key, start, end, bytes and source address |
| Consolidation.RetriesAreHarmless | netstack2/access_log.go:407-452 | After any number of failed sends, one flush at a time, the outcome is that of consolidating all raw sessions at once |
| Consolidation.CountIsRawIff | netstack2/access_log.go:296-298 | The count of an output is the number of connections behind its run if and only if no session of the run is a merged one |
| Consolidation.ChainIsOneRun | netstack2/access_log.go:348-366 | Sessions of one key that each start within the threshold of an earlier one's end are reported by a single output |
| Consolidation.PairMergedIff | netstack2/access_log.go:348-366 | Two sessions are merged if and only if they agree in source IP, destination, protocol and resource and the second starts at most five seconds after the first has ended |
| Consolidation.RetryMiscounts | netstack2/access_log.go:423-440 | A merged entry put back and merged with more sessions counts as one, where its raw sessions count each |
| Consolidation.ReportIsUnique | netstack2/access_log.go:302-386 | A run can be reported in one way only |
| Consolidation.OutputsWellTimed | netstack2/access_log.go:355-362 | Outputs can be consolidated again |
| Consolidator.EndpointsAreStable | netstack2/access_log.go:276-285 | Taking the port off the address of an IP endpoint twice is taking it off once |
| Consolidator.CutAtNext | netstack2/access_log.go:348-376 | If the gap to the latest end exceeds the threshold, the next start is a cut and the current run is complete |
| Consolidator.NoCutWithin | netstack2/access_log.go:348-366 | If it does not, there is no cut up to the next start |
| Consolidator.SortByStart | netstack2/access_log.go:328-330 | A sorted permutation |
| Consolidator.Merge | netstack2/access_log.go:332-380 | One pass over a sorted group reports exactly its runs, each output counting the sessions of its own run and named after a first one; the counts add up to the group's size |
| Consolidator.MergeGroup | netstack2/access_log.go:320-383 | The same for a group of any size; groups below two are passed through |
| Consolidator.Group | netstack2/access_log.go:307-316 | Sessions are grouped by key, in order |
| Consolidator.Consolidate | netstack2/access_log.go:302-386 | Exactly one output per run of each key, whatever the input order: the id of a session that starts it, earliest start, latest end, byte sums, common source address or else the IP, and in groups of two or more the number of sessions in the run; sessions of smaller groups keep their count |
| Consolidator.RetryMiscountsHappens | netstack2/access_log.go:423-440 | Consolidating two concrete sessions, then the result with a third, gives counts 2 and 2; consolidating the three gives 3 |
| AccessLog.FoldAccounts | netstack2/access_log.go:423-428 | Consolidation keeps every session and keeps it in one entry only |
| AccessLog.TcpEndKeepsIndex | netstack2/access_log.go:139-152 | Ending with the TCP operation keeps the UDP index exact if and only if the session is not UDP |
| AccessLog.UdpEndKeepsIndex | netstack2/access_log.go:201-218 | Ending with the UDP operation keeps it exact if and only if the session is UDP or no UDP session has its addresses |
| AccessLog.SweptMore | netstack2/access_log.go:255-274 | One step of the sweep ends the session of a stale index entry and no other |
| AccessLog.SweptMeans | netstack2/access_log.go:255-274 | After the sweep a session is gone if and only if the index led to it and it started more than 300 s before |
| AccessLog.RequeueLegal | netstack2/access_log.go:438-446 | Putting a batch back keeps every session in one place; only what the limit cuts off is lost |
| AccessLog.CutOffIff | netstack2/access_log.go:440-446 | What the limit cuts off is an end of the buffer as it stands if and only if the batch is within the limit; otherwise it is the whole buffer and the batch beyond the limit |
| AccessLog.AccessLogger.constructor | netstack2/access_log.go:85-97 | No session, exact index |
| AccessLog.AccessLogger.StartTcp | netstack2/access_log.go:115-136 | The session is live with the resource, addresses, protocol and start given; every session is in one place, the index stays exact |
| AccessLog.AccessLogger.EndTcp | netstack2/access_log.go:139-162 | A live session moves to the buffer; an unknown one changes nothing; flush is asked for from 100 entries on |
| AccessLog.AccessLogger.TrackUdp | netstack2/access_log.go:165-198 | One session per pair of addresses: the existing one, or a new one with the resource, addresses, protocol and start given |
| AccessLog.AccessLogger.EndUdp | netstack2/access_log.go:201-231 | As for TCP, and the index entry of its addresses is removed |
| AccessLog.AccessLogger.ReapStale | netstack2/access_log.go:255-274 | Exactly the indexed sessions older than five minutes end and are buffered once each |
| AccessLog.AccessLogger.TakeBatch | netstack2/access_log.go:408-416 | The whole buffer is being sent |
| AccessLog.AccessLogger.PutBack | netstack2/access_log.go:438-447 | The batch stands in front of what completed meanwhile, at most 500 entries |
| AccessLog.AccessLogger.Flush | netstack2/access_log.go:407-452 | Delivered sessions are sent; without a sender or compression they are discarded; after a failed send all are buffered again unless the limit is exceeded; what is sent is the consolidated batch, with counts |
| AccessLog.AccessLogger.EndAll | netstack2/access_log.go:493-510 | Every live session ends and is buffered once |
| AccessLog.AccessLogger.Close | netstack2/access_log.go:480-514 | If the last flush gets through, every session not lost before has been sent, except those of flushes under way |
| LogRuns.StepKeepsInv | netstack2/access_log.go:115-274 | Every critical section, at any time and with any number of flushes under way, keeps the books on sessions and flights |
| LogRuns.InOnePlace | netstack2/access_log.go:407-452 | In every run each session is in exactly one place: live, in one buffer entry, in one flush under way, sent, or lost |
| LogRuns.DeliveredOnce | netstack2/access_log.go:436-451 | In every run no session is delivered twice |
| LogRuns.SettledForever | netstack2/access_log.go:407-452 | What has been sent or lost stays so |
| LogRuns.LostOnlyIf | netstack2/access_log.go:418-446 | Sessions are lost only by being discarded or when a batch put back exceeds the limit |
| LogRuns.IndexStaysExact | netstack2/access_log.go:165-274 | If sessions are ended with the operation of their protocol, in every run the UDP index is exactly the live UDP sessions by pair of addresses |
| LogRuns.IndexBreaks | netstack2/access_log.go:139-231 | Two runs that break it, one for each wrong operation |
| CutOff.RunKeepsOrder | netstack2/access_log.go:139-274 | In every run each session that is no longer live has ended exactly once |
| CutOff.CutOffIsNewestIff | netstack2/access_log.go:438-446 | In every run in which no other flush puts its batch back while this one is under way: what is cut off ended after everything kept if and only if that is so within the batch, in particular if the batch is within the limit |
| CutOffExamples.OtherFlightCutsOldest | netstack2/access_log.go:438-446 | A run with another flush put back in which a batch of one is kept and the oldest session is cut off |
| CutOffExamples.LargeBatchCutsOldest | netstack2/access_log.go:438-446 | A run with a batch beyond the limit, emitted in another order, in which the oldest session is cut off |
| Interchange.Permuted | netstack2/access_log.go:302-386 | Consolidation does not depend on the order of the sessions |
| Interchange.Together | netstack2/access_log.go:423-440 | Sessions that can be exchanged in every batch can be exchanged part by part |
| Interchange.OutputStandsIn | netstack2/access_log.go:355-370 | An output can be exchanged in every batch with the sessions of its run |
| LogDelivery.OutputsStand | netstack2/access_log.go:423-440 | If each entry of a batch can stand for the raw sessions behind it, so can each output |
| LogDelivery.OutputsConsolidateRaws | netstack2/access_log.go:423-440 | Then the outputs consolidate all the raw sessions behind the batch |
| DeliveryRuns.StepKeepsTruth | netstack2/access_log.go:115-452 | Every critical section keeps: each entry, in the buffer or under way, can stand for the raw sessions it accounts for, and a batch ready to be sent consolidates them |
| DeliveryRuns.DeliveredIsRaw | netstack2/access_log.go:407-452 | In every run, with any failed sends, concurrent flushes and entries cut off, what is delivered is a consolidation of the raw sessions it accounts for, as they were when they ended |
| DeliveryRuns.DeliveredAsStarted | netstack2/access_log.go:115-198 | In every run every session that a delivered entry accounts for was started before, with the entry's resource, destination, protocol and source IP, and no earlier than the entry says |
| DeliveryRuns.RunNamed | netstack2/access_log.go:332-371 | In every run an entry has the id of a session it accounts for |
| Registration.StepKeepsInv | newt/handlers.go:130-136 | Every step keeps: ids in slots and matched by a handler belong to their exchange and have not been acted on, and nothing has been acted on twice |
| Registration.ActedOnce | newt/connect.go:39-45 | In every run a non-empty id is acted on at most once |
| Registration.ActedForItsExchange | newt/handlers.go:890-903 | What is acted on was issued before, for that exchange: replies to backwards-compatible registrations never are |
| Registration.ActedWasAwaited | newt/handlers.go:130-136 | When the reply came in its id was that of the latest request of the exchange, and the slot had not been emptied |
| Registration.AcceptedIff | newt/handlers.go:130-136 | A reply with an id is accepted if and only if it answers the latest request and no handler emptied the slot since |
| Registration.AcceptedIffUndisturbed | clients/clients.go:563-569 | Without a request issued during handling: if and only if it answers the latest request and has not been acted on |
| Registration.InterferenceLosesReply | newt/ping.go:277-281 | With one, the newer request can lose its slot |
| NewtHandlers.Newt.OnReconnect | newt/handlers.go:44-72 | A new exit-node request replaces the pending one; the old sender is stopped |
| NewtHandlers.Newt.OnTerminate | newt/handlers.go:90-107 | Disconnected, no sender |
| NewtHandlers.Newt.OnExitNodes | newt/handlers.go:109-155 | Acted on exactly for the pending id or none; then the registration gets a new id; a discarded reply changes no slot but stops the sender |
| NewtHandlers.Newt.OnConnectReply | newt/connect.go:33-55 | Acted on exactly for the pending id or none; a discarded reply changes nothing |
| NewtHandlers.Newt.OnWebsocketConnect | newt/handlers.go:840-905 | A new exit-node request only when disconnected; the pending registration is left alone |
| NewtHandlers.Newt.SendCompat | newt/handlers.go:890-903 | Neither slot changes |
| NewtHandlers.Newt.Recover | newt/ping.go:277-291 | A new exit-node request; a sender stays behind if and only if there was one; the pending registration is left alone |
| NewtHandlers.StrayHappens | newt/ping.go:277-291 | A history from the start that leaves a sender with nothing to stop it |
| TargetStrings.ScanDecimal | newt/targets.go:37-41 | A formatted number scans to itself if it fits 64 bits, and else not at all |
| TargetStrings.ScanReads | newt/targets.go:37-41 | Blanks, perhaps a sign, and digits scan to that number if it fits 64 bits, whatever follows |
| TargetStrings.ScannedBegins | newt/targets.go:37-41 | Nothing else scans |
| TargetStrings.ReparseIs | newt/targets.go:30-60 | What a formatted target parses to |
| TargetStrings.ParsedIsCanonical | newt/targets.go:30-60 | A parsed target formats and parses to itself, so what was added can be removed |
| TargetStrings.ParseIff | newt/targets.go:30-60 | Exactly which strings parse and to what: a port from 1 to 65535, a colon, and a host and port, neither empty |
| TargetStrings.ThreePartsIff | newt/data.go:38-43 | A desired target is read from exactly the strings with two colons |
| TargetStrings.WantedBecomes | newt/data.go:38-50 | A desired target becomes itself if its port is 1 to 65535, host and target port are present and there are no brackets; itself without brackets if those around the host are the only ones; nothing otherwise |
| TargetStrings.BracketsAreDropped | newt/targets.go:49-60 | A bracketed host without a colon is kept without its brackets |
| TargetStrings.BracketedExample | newt/data.go:38-50 | A concrete string that asks for one |
| TargetSync.RealIsFaithful | newt/targets.go:30-60 | What the real parser accepts formats and parses to itself |
| TargetSync.ProxyManager.AddTarget | proxy/manager.go:322-347 | This port of this address has the target; every other port, address and protocol is as before |
| TargetSync.ProxyManager.RemoveTarget | proxy/manager.go:349-390 | This port of this address has no target, everything else is as before; not found, and nothing changed, exactly if the address has no targets |
| TargetSync.UpdateTargets | newt/targets.go:62-112 | Each port has what the last string that parses and names it says, or nothing after a removal; strings that do not parse are skipped; fails exactly if something is to be removed from an address without targets; changes nothing exactly if it fails or nothing parses |
| TargetSync.HandleUpdate | newt/handlers.go:159-233 | The same for an add or remove message with arbitrary strings and the real parser; every target can still be removed by its string |
| TargetSync.BuildDesired | newt/data.go:36-65 | The loop over the strings builds the desired map, however strings are read |
| TargetSync.DesiredIsDecided | newt/data.go:36-65 | Each desired target comes from the last string understood for its port |
| TargetSync.DecidedIsDesired | newt/data.go:36-65 | Each such string's target is desired |
| TargetSync.Prune | newt/data.go:71-82 | Ports that are not wanted are gone, the rest is as before; something is changed if and only if there is such a port |
| TargetSync.Fill | newt/data.go:84-103 | Wanted ports are as they should be; something is changed if and only if one was not |
| TargetSync.SyncProto | newt/data.go:70-103 | The targets on the tunnel address are exactly those desired, as far as they can be added; other addresses and the other protocol are untouched; targets are added or removed if and only if something was left to do |
| TargetSync.HandleSync | newt/data.go:36-138 | After a sync message with these strings the TCP targets, and the UDP targets, on the tunnel address equal the desired map if and only if every deciding string is addable; other addresses are untouched; targets are added or removed if and only if something was left to do |
| TargetSync.SyncTwice | newt/data.go:36-138 | From any state that messages lead to, the second of two identical syncs changes nothing if and only if no deciding string has a bracketed host |
| TargetSync.BracketedListExample | newt/data.go:36-138 | A concrete list for which it does |
| TargetSync.Handle | newt/handlers.go:157-233 | What a message makes of every port of every address and protocol |
| TargetSync.HandleAll | newt/handlers.go:157-233 | After any history of add, remove and sync messages each port has what the history says and every target can be removed by its string |
| TargetSync.EqualsDesiredIff | newt/data.go:68-138 | Targets that have reached a sync's goal equal the desired map if and only if every deciding string is addable |
| TargetSync.SettledIff | newt/data.go:68-138 | They leave the next identical sync nothing to do if and only if no deciding string has a bracketed host |
| TargetSync.Fate | newt/data.go:38-50 | The target of a deciding string is kept as it is if and only if the string is addable, and kept in another form if and only if its host is bracketed |
| PingCheck.ReliablePing | newt/ping.go:107-135 | The latency of the first answered attempt; an error if and only if none was answered |
| PingCheck.TimeoutWithinIff | newt/ping.go:234-248 | The adaptive timeout lies between the configured timeout and 15 s if and only if the configured one is at most 15 s |
| PingCheck.RememberIsLastTen | newt/ping.go:259-262 | The window holds the last ten remembered latencies |
| PingCheck.CheckLoop | newt/ping.go:218-337 | For every sequence of answers: each check fails exactly if none of its allowed attempts is answered and else has the latency of the first that is, recovery fires exactly when the failure streak reaches four, the timeout comes from the last ten latencies, and interval and ticker follow |
| PingCheck.FailsIff | newt/ping.go:250-256 | A check after c failures in a row fails if and only if its first two attempts go unanswered and, for c above four, the next two as well |
| PingCheck.TimeoutIsThreeMeans | newt/ping.go:234-248 | The timeout is three times the mean of the last ten latencies, at least the configured one and at most 15 s |
| PingCheck.FirstTimeout | newt/ping.go:234-235 | The first check uses the configured timeout |
| PingCheck.IntervalFactors | newt/ping.go:298-329 | From the fourth failure in a row the interval grows by 1.3 up to 6 s, after a success it shrinks by 0.9 down to the configured one, and otherwise it stays |
| PingCheck.FiresOncePerStreak | newt/ping.go:270-272 | In every failure streak recovery fires at the fourth failure and at no other |
| PingCheck.TicksWithinLimits | newt/ping.go:234-329 | Timeout, interval and ticker period stay within their limits in every run |
| PingCheck.PeriodIsIntervalIff | newt/ping.go:298-329 | In every run the ticker's period is at most the interval, and is the interval if and only if the failure streak is below four, the period has reached its maximum, or it is below 4 ns |
| PingCheck.LagExample | newt/ping.go:298-329 | A run in which the interval is 3.9 s and the period 3 s |
| RdCleanPath.DetectLength | browsergateway/rdcleanpath.go:64-88 | The total length, too short, or invalid, as the definite DER length says |
| RdCleanPath.DetectedIsStable | browsergateway/rdcleanpath.go:64-88 | Once known, the length is the same on every extension |
| RdCleanPath.DetectsSequence | browsergateway/rdcleanpath.go:64-88 | Whatever follows a SEQUENCE with length octets of section 8.1.3 of X.690, its own length is detected |
| RdCleanPath.DetectedIsSequence | browsergateway/rdcleanpath.go:64-88 | Conversely a prefix of the detected length is such a SEQUENCE |
| RdCleanPath.EncodedIsDetected | browsergateway/rdcleanpath.go:64-88 | Every PDU encoded with the shortest length octets is found again exactly |
| RdCleanPath.SequenceIsExpected | browsergateway/rdp.go:161-180 | From data that begins with a DER SEQUENCE exactly that is to be read |
| RdCleanPath.ExpectedIsSequence | browsergateway/rdp.go:161-180 | And nothing else |
| RdCleanPath.ReadCleanPath | browsergateway/rdp.go:161-180 | The result depends on the bytes only, not on how they arrive; bytes read beyond the PDU are dropped, fewer than one buffer |
| RdCleanPath.ReadX224 | browsergateway/rdp.go:186-204 | One framed PDU of 4 to 4096 bytes is read, and nothing beyond it |
| RdCleanPath.FramedIsRead | browsergateway/rdp.go:182-204 | A PDU framed as RFC 1006 says is read as it was framed, whatever follows |
| RdCleanPath.ReadIsFramed | browsergateway/rdp.go:182-204 | Whatever is read was framed so |
| RdCleanPath.RefusedIff | browsergateway/rdp.go:191-197 | Refused as invalid are exactly other versions and lengths below 4 or above 4096 |
| Bandwidth.DumpIsRead | clients/clients.go:1338-1369 | Reading a dump of peers gives back the peers |
| Bandwidth.Meter.ProcessPeer | clients/clients.go:1395-1443 | The reading is stored; a report is made exactly if an earlier reading exists from an earlier time and a counter differs from it and is not zero, a fallen counter counting from zero |
| Bandwidth.Meter.ProcessDump | clients/clients.go:1338-1369 | Every peer of the dump is processed once, in order |
| Bandwidth.Meter.CalculatePeerBandwidth | clients/clients.go:1321-1393 | The stored readings are exactly those of the peers in the latest dump |
| Bandwidth.ReportsAddUp | clients/clients.go:1395-1443 | Over polls at increasing times the reports for a peer that stays add up to its counter's growth |
| Bandwidth.GrowthTelescopes | clients/clients.go:1405-1420 | If the counter never falls, that is last minus first |
| Bandwidth.ReportsOverResets | clients/clients.go:1405-1420 | In general the reports for a peer that stays are the last reading less the first, plus every reading lost when the counter started again |
| HealthCheck.Target.constructor | healthcheck/healthcheck.go:153-178 | Thresholds default to one, the status is unknown |
| HealthCheck.Target.PerformHealthCheck | healthcheck/healthcheck.go:391-429 | Counters are the lengths of the current streaks, of which there is exactly one; the status, and no other, is that of the latest streak to reach its threshold |
| HealthCheck.DeservedNext | healthcheck/healthcheck.go:407-428 | One more check changes the status exactly if it lets a streak reach its threshold |
| HealthCheck.ReachesIff | healthcheck/healthcheck.go:407-428 | A streak has reached its threshold if and only if that many checks in a row had its result |

## Left out

- Sockets, the gVisor stack, the WireGuard device, DNS, TLS, HTTP, Docker, SSH and the auth daemon: calls into other code; what they return is a parameter of the model.
- Checksum routines of gVisor: modelled as the one's-complement sum they document.
- Prefix trie: a map from masked prefixes, walked by falling prefix length; prefixes are valid and addresses are 32 or 128 bits wide.
- HTTP fields of subnet rules: they do not take part in matching.
- Rewrite targets that resolve to an IPv6 address: the handler is IPv4 only.
- Packet.RewriteDestination: packets whose header length points past the buffer are excluded; slicing them would panic.
- Packet.RewriteSource: the same exclusion.
- Proxying.ProxyHandler.HandleIncomingPacket: the same exclusion, only for packets that would be rewritten; the check of the forward table and the store into it are one step.
- Proxying.ProxyHandler.ReadOutgoingPacket: the queue of ICMP replies that is served first is not modelled.
- When connections are released: runs of `Nat` may release any connection at any time, where the handlers release TCP and UDP connections, under the key that `Nat.SeenConnIs` describes.
- Wrap-around of the reference count, wake-up of waiting receivers and all other progress properties: only safety is claimed.
- BatchReceive.CompactBatch: buffers are distinct and of equal length, as the WireGuard device allocates them.
- 64-bit wrap-around of byte counters and durations: counters and times are unbounded.
- Consolidator.SortByStart: Go's sort is represented by an insertion sort; only its contract is used.
- Session ids and the clock: random ids are taken to be new, and the clock is taken not to run backwards.
- AccessLog.AccessLogger.ReapStale: one clock reading for the whole sweep.
- JSON, zlib and base64 of the log payload: they succeed or fail as a parameter.
- Registration.AcceptedIff: chain ids are taken to be new, and handlers run one at a time as the websocket reader calls them; messages that do not parse are not modelled.
- NewtHandlers.Newt.OnConnectReply: everything after the old tunnel is closed is one parameter, whether the new tunnel came up.
- TargetStrings.ScanDecimal: before a number only spaces and tabs are skipped.
- TargetSync.UpdateTargets: no updown script; the listeners and connections of targets are not modelled, nor actions other than add and remove, which no handler sends.
- TargetSync.HandleSync: messages that do not parse as JSON; health checks, exit-node subnets and browser targets of the sync message are separate lists.
- Consolidation.RetriesAreHarmless: one flush at a time and nothing cut off; runs in general are the subject of DeliveryRuns.DeliveredIsRaw.
- DeliveryRuns.DeliveredIsRaw: all addresses are stable under taking the port off, as IP endpoints are (Consolidator.EndpointsAreStable); connection counts are excepted, as shown above.
- PingCheck.CheckLoop: the growth factors 1.3 and 0.9 are exact, where the code multiplies in floating point; attempt timeouts, jitter and pauses are not modelled.
- RdCleanPath.ReadCleanPath: the reader reports its end without data; decoding the PDU is not modelled.
- Bandwidth.Meter.ProcessPeer: bytes, where the code converts to megabytes in floating point.
- Health check schedules and callbacks: only the threshold logic is modelled.
- Configuration layering and version comparison: without state, and no property relates one of their operations to another.
- Logging and metrics: they report what the program does and do not affect it.
- The HTTP request log: its buffer, flush and put-back are those of the access log without sessions or merging, so its properties are instances of those proved for the access log.
