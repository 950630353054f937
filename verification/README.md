# The veepin data plane, modelled and proved

This project models the protocol-agnostic data plane of veepin (`dataplane/`), the rekey driver of
its IKEv2 client (`ikev2/client.go`) and the address ownership of its SSH server (`ssh/server.go`),
and proves what that code is for.

The data plane moves IP packets between one TUN device and any number of tunnels. It repeatedly
pairs a fast form with a simple form it must agree with, and most main results state that
agreement over all inputs or all runs:

| fast form | simple form | result |
|---|---|---|
| GRO: a batch of TCP segments coalesced into super-frames | one write per packet | `GroLoss.TransparentIffClean`, `GroExact.ExactOutput`, `GroExact.FlowExactIff`, `Enforcement.EnforcedIff` |
| TSO: a frame cut into segments | GRO, its inverse | `TsoGro.TsoThenGro`, `Gro.GroThenTso`, `OffloadExact.CutIff` |
| GSO: one super-frame routed and sent as a burst | each segment routed on its own | `Egress.SegmentsRefinePackets`, `EgressExact.SegmentsSend` |
| path-copying binary trie | longest-prefix match over a finite map | `Routes.RunLookup`, `RouteHeap.SnapshotSurvives` |
| shaper that sweeps idle flows, limiter that evicts idle sources | the same without eviction | `Shaper.SweepIsInvisible`, `Admission.EvictionInvisibleIff`, `AdmissionWindow.TightIff` |
| budgets and buckets | sums over the packets and arrivals themselves | `ShaperExact.PadsIff`, `AdmissionExact.PassesIff` |
| IPv6 pool with a low-water mark | full scan from the bottom | `AddrPool.MarkIsInvisible` |

The rest say exactly what reaches the TUN and the wire (`InboundExact.HandleDelivers`,
`EgressExact.OutboundSends`, `PumpRuns.RunDelivers`, `PumpRuns.RunSends`) and what whole runs keep: registration and its counters, make-before-break rekeying,
source enforcement and roaming, conservation of packets, the TUN close protocol, and SSH address
ownership.

## How it is laid out

Specification functions work on values (`seq<byte>`, maps, datatypes). Code that updates things in
place is a class or an array method proved equal to such a function: `Checksum` and `Offload`
(accumulator loops, in-place checksums, segmentation), `GroTable` (groups, table, TUN),
`RouteHeap` (heap trie), `PumpTables` (published views), `RekeyDriver` (rekeyChild), `InboundPaths`
(the three inbound paths), `Egress` (burst slots, the vnet loop), `Icmp` (reply builders),
`Shaper`, `Admission`, `AddrPool`, `SshServer`. `TunClose` is a transition system over any number
of threads.

- `Bytes`, `Checksum`: octets, big-endian fields, one's-complement sums (section 1 of RFC 1071).
- `Offload`, `OffloadExact`: virtio-net header (section 5.1.6 of Virtio 1.1), TCP checksums, TSO segmentation; which frames are cut.
- `Gro`, `GroBatch`: one group; a batch in which every stored group keeps a header.
- `GroStore`: every batch, with each group's backing store, stale octets and index panics.
- `GroFlow`, `GroExact`, `GroLoss`: the condition per flow; what each flow then gets, octet for octet; what happens without it.
- `GroSamples`, `GroTable`, `TsoGro`: concrete batches; the mutable table; GRO as the inverse of TSO.
- `Routes`, `RouteHeap`: the trie on values; the trie on the heap.
- `Registry`, `RegistryExact`, `PumpTables`, `Rekey`, `RekeyDriver`: registration, counters, rekeying.
- `Inbound`, `InboundExact`, `InboundPaths`, `Enforcement`: the inbound path, what one datagram does in full, the path's three forms, and source enforcement across coalescing.
- `Egress`, `EgressExact`, `PumpRuns`: the outbound path, what it puts on the wire, and whole runs of the pump.
- `Shaper`, `ShaperExact`, `Admission`, `AdmissionWindow`, `AdmissionExact`, `AddrPool`, `Icmp`, `TunClose`, `SshServer`: the companions.

Cryptographic engines are parameters: a datagram arrives with whatever its tunnel's decapsulation
makes of it, and `Egress.Env` carries encapsulation and the pacer's queue as arbitrary functions over
an engine state, so every result holds for all of them. Clocks are parameters too.

## Where the code and its documentation disagree

The model follows the code.

- The comment on the GRO path says coalescing never changes what the stack sees
  (`dataplane/gro_linux.go`). `GroLoss.TransparentIffClean` gives the exact condition: every prefix of
  a batch is delivered whole if and only if no flow resumes a train that one of its own pass-through
  packets has flushed. `GroSamples.EmptiedGroupLosesAPacket` breaks it with three packets.
- What such a packet leaves is its bare payload, written to the TUN as a packet that no source check
  has seen. `Enforcement.AllButOneCarried`: everything else still carries the address its own tunnel's
  check accepted. `Enforcement.EnforcedIff`: the payload is within the sender's source check if and
  only if, read as a packet, it has a source permitted to the sender itself; that another tunnel may
  use that address does not help (`Enforcement.NeighbourDoesNotExcuse`).
- When that packet carries FIN or PSH and at most 33 payload octets, folding the flags in indexes past
  the buffer and panics (`GroStore.PanicsIff`, `GroSamples.ShortPushPanics`). A short one without flags
  leaves a group with no header in it, and the next segment of the flow panics instead, whatever it
  holds (`GroSamples.NextOfFlowPanics`). `GroStore.StepPanicsIff` and `GroStore.BatchPanicsIff` give the
  exact condition on every table and every batch, and `GroStore.PanicNeedsEmptied` shows that each such
  crash starts with a group filled while it was empty.
- The pump-wide totals are meant to miss nothing. A packet counted on a tunnel's block after the
  tunnel was removed is missing: `PumpRuns.RunConserves` is exact about it and
  `PumpRuns.StaleReceiveLoses` is such a run. `PumpRuns.StatsMisses` is exact about what Stats can miss
  between its two locks.
- Merged segments come back equal only if their IP checksum was right and bits the merge rules do
  not compare agree with the head of the train; `Gro.RoundTripExact` states that as an equivalence for
  one segment and `GroExact.FlowExactIff` for a flow, over the packets actually merged.
- `sendSegments` judges the MTU on its first segment and counts a missing route once for the whole
  super-frame. `Egress.SegmentsRefinePackets` says exactly when that differs from packet at a time.
- `AddrPool6` promises the lowest free host. `AddrPool.MarkIsInvisible`: in every run, if and only if
  the prefix does not end at the all-ones address.
- The limiter's eviction is meant to be invisible. `Admission.EvictionInvisibleIff`: if and only if
  300 seconds refill the burst, or the burst is too small to admit anyone; `AdmissionWindow.TightIff` says
  the same of the rate it is meant to enforce, and `AdmissionExact.PassesIff` of every single verdict.
- An SSH client is meant to keep the first address it learns. `SshServer.FixedIffZeroOutside`: if and
  only if the subnet leaves out 0.0.0.0. The same condition decides whether the table only ever routes
  to live clients (`SshServer.TableLiveIffZeroOutside`).

## Model

| member | source | states |
|---|---|---|
| `Checksum.FoldIsResidue` | dataplane/offload_linux.go:83-88 | folding the carries terminates in the sum modulo 65535, represented in 1..65535 for every nonzero sum |
| `Checksum.VerifiesIff` | dataplane/gro_linux.go:196-201 | a sum folds to 0xffff exactly when it is a positive multiple of 65535 |
| `Checksum.NoOverflow` | dataplane/offload_linux.go:71-79 | the 32-bit accumulator cannot overflow on any buffer an IP length field describes, even on top of a pseudo-header sum |
| `Checksum.ComplementVerifies` | dataplane/icmp.go:150-159 | storing the complement of the folded sum in a zeroed field makes the buffer verify to 0xffff, for every buffer and pseudo-header |
| `Checksum.VerifyingFieldIsComplement` | dataplane/gro_linux.go:196-201 | the values of a checksum field that verify are exactly the complement and its other one's-complement encoding |
| `Checksum.OnesComplementSum` | dataplane/offload_linux.go:71-79 | the loop over 16-bit words, odd octet included, is the mathematical word sum modulo 2^32 |
| `Checksum.FoldSum` | dataplane/offload_linux.go:83-88 | the fold loop reaches the residue modulo 65535 that never turns a nonzero sum into 0 |
| `Checksum.ChecksumAccumulate` | dataplane/icmp.go:170-178 | the second implementation computes the same word sum modulo 2^32 as the first |
| `Checksum.ChecksumFold` | dataplane/icmp.go:181-186 | the second fold is the complement of the first |
| `Offload.HdrRoundTrip` | dataplane/offload_linux.go:50-67 | encoding then parsing, and parsing then encoding, a virtio-net header are both the identity |
| `Offload.ChecksumsVerify` | dataplane/offload_linux.go:178-188 | the IPv4 and TCP checksums written into any segment both verify |
| `Offload.ChecksumsIgnoreOldFields` | dataplane/offload_linux.go:178-188 | what is written does not depend on what the two checksum fields held before |
| `Offload.CompletionVerifies` | dataplane/offload_linux.go:96-102 | completing a frame whose field holds the folded pseudo-header sum gives one the TCP check accepts, for any payload length and parity |
| `Offload.CompletePartialChecksum` | dataplane/offload_linux.go:96-102 | the in-place completion equals its specification on every descriptor, and leaves the packet alone when the descriptor does not fit |
| `Offload.RawSegmentFields` | dataplane/offload_linux.go:154-176 | before checksums: payload slice, total length, IP ID, sequence number and flags of segment i, and every other header octet copied |
| `Offload.SegmentFields` | dataplane/offload_linux.go:128-193 | segment i of any super-frame carries its slice of the payload, ID + i mod 2^16, sequence + offset mod 2^32, FIN and PSH only when last, verifying checksums, and the original header elsewhere |
| `Offload.SegmentOffsets` | dataplane/offload_linux.go:149-162 | every segment starts inside the payload, all but the last are full, and the last reaches the end |
| `Offload.PayloadConserved` | dataplane/offload_linux.go:128-193 | the segments' payloads laid end to end are the super-frame's payload |
| `Offload.BuildSegment` | dataplane/offload_linux.go:160-190 | the buffer filled in place is the specified segment |
| `Offload.StoreIpChecksum` | dataplane/offload_linux.go:178-181 | zero, sum and store in place changes the header checksum field and nothing else |
| `Offload.StoreTcpChecksum` | dataplane/offload_linux.go:182-188 | the same for the TCP field under the pseudo-header |
| `Offload.CutLoop` | dataplane/offload_linux.go:157-192 | the loop over segments yields the whole cut in order |
| `Offload.SegmentTSO4` | dataplane/offload_linux.go:128-193 | every frame gets the specified segments or the specified error; which frames get which is `OffloadExact.CutIff` |
| `OffloadExact.CutIff` | dataplane/offload_linux.go:128-152 | exactly the IPv4/TCP frames with payload are cut, options in either header included, unless the segment size is zero or the payload exceeds 256 segments; a frame that is not IPv4 and one that is not TCP get those errors and every other refused frame the bounds error |
| `OffloadExact.CutIntoSegments` | dataplane/offload_linux.go:128-193 | an accepted frame becomes just enough segments for its payload, each with every field right at the header lengths its octets give |
| `OffloadExact.CompletedTouches` | dataplane/offload_linux.go:96-102 | completing a checksum changes the named field alone, and nothing when the field does not fit |
| `OffloadExact.CompletedVerifies` | dataplane/offload_linux.go:96-102 | a field left with the folded sum of any pseudo-header is completed to a checksum that verifies under it, at every start and even offset: TCP and UDP, IPv4 and IPv6 |
| `OffloadExact.CompletionRightIff` | dataplane/offload_linux.go:96-102 | completion is right for every packet left partial if and only if the descriptor's offset is even |
| `Gro.BuildShape` | dataplane/gro_linux.go:258-319 | over any train of merges, the group's length, segment count, expected sequence number and expected ID are those of the train, and its header is the head's with the last flags folded in |
| `Gro.BuildMember` | dataplane/gro_linux.go:258-319 | every member of a train shares the head's header, sits at its multiple of the segment size, continues its sequence and ID with wrap-around, and carries FIN or PSH only if last |
| `Gro.FlushLayout` | dataplane/gro_linux.go:325-359 | the flushed frame parses as a TSO super-frame with one segment per merged packet |
| `Gro.GroThenCut` | dataplane/gro_linux.go:258-359 | cutting a flushed train gives back its packets in number and order, each rewritten only in checksums and in the bits the merge rules do not compare |
| `Gro.GroThenTso` | dataplane/offload_linux.go:128-193 | segmentTSO4 on a flushed train returns its packets, or rejects it exactly when there are more than 256 |
| `Gro.RoundTripExact` | dataplane/gro_linux.go:171-191 | a merged packet comes back equal up to checksum encodings if and only if its IP checksum verified and its uncompared bits match the head's |
| `Gro.IpFieldExact` | dataplane/gro_linux.go:171-191 | recomputing the IP checksum reproduces the field, up to encoding, if and only if the packet verified |
| `Gro.TcpFieldExact` | dataplane/gro_linux.go:196-201 | the same for the TCP checksum and the check GRO makes |
| `Gro.FlushCompletes` | dataplane/gro_linux.go:336-355 | completing any flushed frame at the advertised offsets satisfies the TCP check, and its IP checksum and length are right |
| `Gro.FlowKeyIff` | dataplane/gro_linux.go:245-255 | a pass-through packet belongs to the flow its addresses and ports spell as soon as 24 octets of it are there |
| `GroBatch.Find` | dataplane/gro_linux.go:215-218 | the scan returns the first group of the flow |
| `GroBatch.FindLive` | dataplane/gro_linux.go:245-255 | the scan returns the first group of the flow that still holds packets |
| `GroBatch.FlushDelivers` | dataplane/gro_linux.go:325-359 | what flushing a group writes expands to exactly the packets it held, in order |
| `GroBatch.FlushKeeps` | dataplane/gro_linux.go:245-255 | flushing one group keeps the table invariant and moves its packets from held to delivered |
| `GroBatch.StepKeeps` | dataplane/gro_linux.go:210-232 | every add that does not append to an emptied group keeps the invariant: groups have distinct flows, hold trains of the batch, and delivered plus held is what each flow was offered |
| `GroBatch.ProcessKeeps` | dataplane/gro_linux.go:94-138 | the invariant holds after any batch that appends to no emptied group |
| `GroBatch.CleanBatchDelivers` | dataplane/gro_linux.go:94-138 | for every flow, the writes of such a batch expand to the flow's packets in arrival order, each as sent or as rewritten by a train of the batch |
| `GroBatch.CoveredBatchIsExact` | dataplane/gro_linux.go:94-138 | when the rules cover every pair of eligible packets of a clean batch, each flow gets the one-at-a-time packets up to checksum encoding; `GroExact.FlowExactIff` has the equivalence |
| `GroFlow.EmptiedIffResumes` | dataplane/gro_linux.go:215-222 | a packet meets an emptied group exactly when it continues, by every merge rule, the train its own flow last had flushed under it |
| `GroFlow.StepFlows` | dataplane/gro_linux.go:210-255 | after every step each group is what its flow, taken alone, says: nothing, a train held, or a train flushed by a pass-through packet |
| `GroFlow.CleanIffFlowsClean` | dataplane/gro_linux.go:94-138 | a batch meets no emptied group if and only if no flow of it, by its own packets alone, resumes such a train |
| `GroExact.FatesArrive` | dataplane/gro_linux.go:210-255 | each packet of a flow has exactly one fate, written as it came or merged under one head, in arrival order |
| `GroExact.ExactOutput` | dataplane/gro_linux.go:94-138 | each flow of a clean batch gets, octet for octet and in arrival order, its packets as they came or as the train each was merged into rewrites them, computed from that flow alone |
| `GroExact.KeptIff` | dataplane/gro_linux.go:171-191 | a packet comes back as it came, up to checksum encoding, if and only if it was not merged or the rules cover it and its head |
| `GroExact.FlowExactIff` | dataplane/gro_linux.go:94-138 | a flow of a clean batch gets back its own packets, in number and order, if and only if every packet of it that was actually merged had a right IP checksum and agreed with its head on the bits the rules do not compare |
| `GroStore.FlushRefines` | dataplane/gro_linux.go:325-359 | rewriting a coalesced frame inside its backing store writes the specified frame and leaves the specified group |
| `GroStore.CanAppendRefines` | dataplane/gro_linux.go:258-288 | while a group holds a header, neither index read of the merge rules can panic and their answer does not depend on stale octets |
| `GroStore.StepRefines` | dataplane/gro_linux.go:210-232 | with stale octets, capacities and index checks in the model, the code still does the clean step whenever no emptied group is met |
| `GroStore.CleanEmits` | dataplane/gro_linux.go:94-138 | a clean batch never panics and writes the same whatever the groups held from earlier batches |
| `GroStore.AppendEmptied` | dataplane/gro_linux.go:305-319 | appending to an emptied group panics exactly on a FIN or PSH segment of at most 33 payload octets, and otherwise leaves the bare payload to be written as a packet |
| `GroStore.PanicsIff` | dataplane/gro_linux.go:305-319 | after any clean batch the next packet crashes the process if and only if it meets an emptied group, carries FIN or PSH and has at most 33 payload octets |
| `GroStore.StepPanicsIff` | dataplane/gro_linux.go:258-319 | on any table, the next packet crashes the process if and only if it is eligible and without TCP options, its flow's group is open, and that group holds at most 32 octets, or exactly 33 with every earlier rule satisfied, or is empty and the packet is accepted with FIN or PSH and ends within 33 octets |
| `GroStore.BatchPanicsIff` | dataplane/gro_linux.go:94-138 | any batch on any leftover table crashes if and only if some packet of it meets that condition on the table its predecessors left |
| `GroStore.ShortWasFilled` | dataplane/gro_linux.go:305-319 | a group in use holds fewer than 40 octets only if some packet of the batch was appended to it while it was empty |
| `GroStore.PanicNeedsEmptied` | dataplane/gro_linux.go:258-319 | so every batch that crashes contains a packet accepted by a group that had been emptied |
| `GroStore.LossEmits` | dataplane/gro_linux.go:325-335 | exactly what the TUN gets from a batch that ends with the first packet to meet an emptied group: everything else held, and the bare payload, or nothing more after a panic |
| `GroLoss.OntoEmptiedLoses` | dataplane/gro_linux.go:215-222 | the first packet to meet an emptied group is never delivered to its flow, whether the append panics or not |
| `GroLoss.TransparentIffClean` | dataplane/gro_linux.go:94-138 | every prefix of a batch is fully delivered, whatever the table held before, if and only if no flow resumes a train its own pass-through packet flushed |
| `GroLoss.CleanStanding` | dataplane/gro_linux.go:94-138 | out of a clean batch the stack gets nothing but its packets, as sent or as a train rewrote them |
| `GroLoss.LossStanding` | dataplane/gro_linux.go:94-138 | up to and including the first packet to meet an emptied group, the stack gets the batch and, unless that packet panics, one thing more: its bare payload, at a place the batch determines |
| `GroSamples.SampleTrain` | dataplane/gro_linux.go:258-288 | any two consecutive segments with nothing between them merge, so trains are not vacuous |
| `GroSamples.PassThroughBetween` | dataplane/gro_linux.go:245-255 | any uncoalescible packet of a flow between a segment and its continuation makes the continuation meet an emptied group |
| `GroSamples.EmptiedGroupLosesAPacket` | dataplane/gro_linux.go:215-222 | a segment, its truncation and its continuation: the third is never delivered, whatever the payload |
| `GroSamples.AnyPayloadSurfaces` | dataplane/gro_linux.go:305-331 | that batch puts the payload itself on the TUN as a packet, whatever its octets |
| `GroSamples.ShortPushPanics` | dataplane/gro_linux.go:312-313 | with PSH and at most 33 payload octets the same batch crashes the process |
| `GroSamples.NextOfFlowPanics` | dataplane/gro_linux.go:258-288 | with no flags and at most 12 payload octets in that batch's third packet, any next eligible segment of the flow without options crashes the process |
| `GroTable.GroGroup.RewriteFrame` | dataplane/gro_linux.go:336-345 | length, IP checksum and pseudo-header sum written where the frame lies give the specified store |
| `GroTable.GroTable.Open` | dataplane/gro_linux.go:67-75 | a reused or newly allocated group, stale octets and all, becomes the last one |
| `GroTable.GroTable.FindFlow` | dataplane/gro_linux.go:215-218 | the loop finds the first group of the flow |
| `GroTable.GroTable.FlushSameFlow` | dataplane/gro_linux.go:245-255 | only the first live group of a packet's flow is flushed, and nothing else changes |
| `GroTable.GroTable.MergeAt` | dataplane/gro_linux.go:219-229 | append, or flush and start over, or panic, as specified for the flow's group |
| `GroTable.GroTable.Add` | dataplane/gro_linux.go:210-232 | table and TUN after any packet on any table are those of the specified step, including when it panics |
| `GroTable.GroTable.Offer` | dataplane/gro_linux.go:123-132 | add and the write-through together are one step, on any table |
| `GroTable.GroTable.FlushGroups` | dataplane/gro_linux.go:134-136 | the final loop writes every group out in table order |
| `TsoGro.TrainIsGroup` | dataplane/gro_linux.go:210-232 | a train received alone is held as one group with nothing written |
| `TsoGro.TsoThenGro` | dataplane/gro_linux.go:94-138 | whatever the table held before, the segments TSO cuts a data frame into are written as one super-frame that is the original, octet for octet but for length and checksums, at the same segment size; a single segment is written as it came |
| `Routes.WordBitIsBit` | dataplane/routes.go:56-71 | bit i of the two-word form is bit i of the address, in both families |
| `Routes.PathsIffTops` | dataplane/routes.go:56-71 | two addresses share a trie path of length b exactly when their top b bits agree |
| `Routes.MaskedSame` | dataplane/routes.go:82-86 | masking keeps the prefix's path and is idempotent |
| `Routes.GetWithEntry` | dataplane/routes.go:90-105 | path copying changes the entry at its path and no other, for every trie |
| `Routes.WalkIsBest` | dataplane/routes.go:145-160 | the walk returns the deepest entry along the path |
| `Routes.EntryAfterSet` | dataplane/routes.go:82-140 | an update changes the entry of prefixes with the same masked form and no other, in either family |
| `Routes.ApplyRepresents` | dataplane/routes.go:82-129 | insert, remove and removeOwned each do to the trie what they do to a prefix map |
| `Routes.RunRepresents` | dataplane/routes.go:82-129 | after any sequence of them the trie represents the map |
| `Routes.LongestMatchUnique` | dataplane/routes.go:145-160 | longest-prefix match (section 5.2.4.3 of RFC 1812) determines one answer |
| `Routes.LookupIsLongestMatch` | dataplane/routes.go:145-160 | lookup in a trie that represents a map is that answer |
| `Routes.RunLookup` | dataplane/routes.go:82-160 | after any sequence of updates, lookup of every address is longest-prefix match over the map |
| `RouteHeap.RouteNode.constructor` | dataplane/routes.go:42-46 | a new node over shared children is valid and owns only itself |
| `RouteHeap.WithEntry` | dataplane/routes.go:90-105 | the heap version writes only nodes it just allocated and has the specified value |
| `RouteHeap.EntryAt` | dataplane/routes.go:133-140 | the cursor loop reads the entry at a path |
| `RouteHeap.LookupPath` | dataplane/routes.go:145-160 | the cursor loop is the walk |
| `RouteHeap.RouteTable.SetEntry` | dataplane/routes.go:82-86 | one root moves to the updated trie |
| `RouteHeap.RouteTable.Insert` | dataplane/routes.go:82-86 | the table's value is the specified insertion |
| `RouteHeap.RouteTable.Remove` | dataplane/routes.go:109-115 | the table's value is the specified removal, a no-op when nothing is there |
| `RouteHeap.RouteTable.RemoveOwned` | dataplane/routes.go:123-129 | removal only when the owner test passes |
| `RouteHeap.RouteTable.Lookup` | dataplane/routes.go:145-160 | the answer is the specified lookup |
| `RouteHeap.RouteTable.Copy` | dataplane/pump.go:259-265 | a clone shares both roots and has the same value |
| `RouteHeap.Apply` | dataplane/routes.go:82-129 | any one update on the heap is the update on values |
| `RouteHeap.SnapshotSurvives` | dataplane/routes.go:24-36 | whatever sequence of updates a writer applies to its clone, the reader's snapshot stays valid and answers every address as before |
| `Registry.EntryAfterInsertAll` | dataplane/pump.go:417-434 | AddTunnel's loop claims exactly the listed prefixes |
| `Registry.EntryAfterRemoveAll` | dataplane/pump.go:458-486 | RemoveTunnel's loop clears exactly those listed prefixes the tunnel still owns |
| `Registry.ApplyOpKeeps` | dataplane/pump.go:417-509 | each registration call keeps: every key and route belongs to a registered tunnel and carries its counters, and no two tunnels share a block |
| `Registry.RunKeepsInv` | dataplane/pump.go:417-509 | so does every sequence of them from an empty pump |
| `Registry.RemoveTunnelExact` | dataplane/pump.go:458-486 | removal takes every key and every route the tunnel owns and nothing of any other tunnel |
| `Registry.ApplyOpKeepsTotal` | dataplane/pump.go:458-479 | no registration call changes the retired-plus-live total: removed tunnels' counts are kept |
| `Registry.CountMovesTotal` | dataplane/counters.go:60-82 | replacing one live block moves the total by exactly that block's change |
| `Registry.BlockMoves` | dataplane/counters.go:60-125 | changing a counter block moves the pump-wide total by exactly that while some tunnel has the block, and not at all once it is retired |
| `Registry.RemovedIsRetired` | dataplane/pump.go:473-478 | after RemoveTunnel no tunnel has the removed one's block |
| `RegistryExact.AddedExact` | dataplane/pump.go:417-434 | registering a tunnel makes its key and every prefix it lists lead to it and its own block, which is new and zero only if it had none, and moves no other key, prefix or counter |
| `RegistryExact.KeysExact` | dataplane/pump.go:493-509 | a further key leads to the tunnel and its block, removing one removes that key, and nothing else moves |
| `RegistryExact.TotalIs` | dataplane/counters.go:117-127 | however the tunnels are listed, each pump-wide counter is what is retired plus what every block holds, and last-seen is the latest of them |
| `PumpTables.Clone` | dataplane/pump.go:259-265 | the clone has the view's routes and shares its nodes |
| `PumpTables.NextView` | dataplane/pump.go:259-268 | clone, change, publish yields a new view with the updated routes; no existing object is written |
| `PumpTables.WithoutTunnel` | dataplane/pump.go:461-465 | the loop over the demux map leaves exactly the other tunnels' keys |
| `PumpTables.Tables.constructor` | dataplane/pump.go:251-268 | a new pump publishes an empty view |
| `PumpTables.Tables.CountersFor` | dataplane/pump.go:439-446 | a tunnel's block is created once and found again |
| `PumpTables.Tables.Add` | dataplane/pump.go:417-434 | the published state is the specified registration and the previous view answers as before |
| `PumpTables.Tables.Drop` | dataplane/pump.go:458-486 | the published state is the specified removal and the previous view answers as before |
| `PumpTables.Tables.RetireCounters` | dataplane/pump.go:473-478 | the sum of retired and live counts is the same before and after |
| `PumpTables.Tables.AddKey` | dataplane/pump.go:493-499 | the published state is the specified extra key |
| `PumpTables.Tables.DropKey` | dataplane/pump.go:503-509 | the published state lacks that key only |
| `PumpTables.Tables.Stats` | dataplane/pump.go:807-823 | read at one moment, in whatever order the map yields the blocks, the sum is the pump-wide total |
| `Rekey.InstallKeeps` | ikev2/client.go:768-776 | installing a successor with the same routes keeps the session owning all of them, and the predecessor's key still resolves |
| `Rekey.RetireKeeps` | ikev2/client.go:778-784 | retiring the predecessor takes none of the successor's routes or keys |
| `Rekey.OtherKeeps` | dataplane/pump.go:417-509 | registrations of other tunnels in between disturb neither |
| `Rekey.RunKeeps` | ikev2/client.go:745-787 | the session invariant holds over any run of rekeys, failures and other tunnels' registrations |
| `Rekey.CoveredLookup` | dataplane/routes.go:145-160 | an address inside a claimed prefix always finds some route |
| `Rekey.NeverUnrouted` | ikev2/client.go:745-787 | at every point of every run each covered destination routes somewhere, the current tunnel owns every prefix and its key resolves, and so does a predecessor's until it is retired |
| `Rekey.RekeyReplaces` | ikev2/client.go:745-787 | a whole rekey, with other tunnels coming and going between its halves: the successor answers to its key throughout, the predecessor's key works until it is retired, and then no key, prefix or counter block of it is left |
| `Rekey.FirstInstall` | dataplane/pump.go:417-434 | the first AddTunnel of a session establishes the invariant |
| `RekeyDriver.SessionDriver.RekeyChild` | ikev2/client.go:745-787 | the driver on the heap performs install then retire in that order on the pump, keeps the invariant, never touches the closing mark, and does nothing when closing or on error |
| `Inbound.AddrAtValid` | dataplane/source.go:33-50 | an address read from a packet fits its family |
| `InboundExact.AddressesRead` | dataplane/pump.go:855-873 | source and destination are exactly the addresses whose octets stand at their places in a whole IPv4 or IPv6 header |
| `Inbound.HandleHonest` | dataplane/pump.go:541-707 | every packet a datagram delivers from a source-checked tunnel has its source in the routes captured at registration |
| `Inbound.OnlyOpenedMoves` | dataplane/pump.go:597-601 | peer address and liveness clock change if and only if the datagram decapsulated, and then to exactly its sender and arrival time |
| `Inbound.HandleAccounts` | dataplane/pump.go:541-707 | for every datagram and any snapshot, what it is worth is counted or dropped, except exactly what is counted on a block its tunnel no longer has; and no total falls |
| `Inbound.FreshLosesNothing` | dataplane/pump.go:541-707 | a datagram handled against the current registrations loses nothing that way |
| `Inbound.HandleBatchHonest` | dataplane/pump.go:661-673 | source enforcement over a whole batch |
| `InboundExact.HandleDelivers` | dataplane/pump.go:541-707 | the TUN gets exactly, in order, the non-empty packets in an opened datagram whose source the tunnel may use, and nothing from a datagram that did not open |
| `InboundExact.BatchDelivers` | dataplane/pump.go:661-672 | a read batch delivers exactly what each of its datagrams is owed, in arrival order |
| `InboundExact.UnopenedDrops` | dataplane/pump.go:568-684 | a datagram that does not open moves one drop counter, that of the step it failed at, and nothing else |
| `InboundExact.OpenedCounts` | dataplane/counters.go:60-71 | an opened datagram adds its delivered packets, their octets and the time to its own tunnel's block, a keepalive counting as a packet of no octets, and one spoofed-source drop for each packet refused; no other counter moves |
| `PumpRuns.NextKeeps` | dataplane/pump.go:417-799 | every registration, snapshot load, datagram and outbound packet keeps the registry invariant and obeys both directions' accounting law |
| `PumpRuns.RunConserves` | dataplane/pump.go:417-823 | over every interleaving: packets in and out equal counts plus drops except exactly those counted on a retired block, so the books balance if and only if there are none; and no total ever falls |
| `PumpRuns.RunsAreHonest` | dataplane/pump.go:541-707 | over every interleaving each delivery from a source-checked tunnel has its source in the routes captured at registration |
| `PumpRuns.RunKeepsPeer` | dataplane/pump.go:597-601 | over any run in which no datagram opens under a tunnel, its peer address never moves |
| `PumpRuns.RunClock` | dataplane/pump.go:632-707 | over every interleaving the liveness clock shows the time of the last datagram that opened under some tunnel, and nothing else moves it |
| `PumpRuns.RunDelivers` | dataplane/pump.go:541-707 | over every interleaving the TUN gets exactly what the datagrams were owed by the snapshots they met, in order |
| `PumpRuns.RunSends` | dataplane/pump.go:739-799 | over every interleaving the wire gets exactly what the engines made of the packets routed to unpaced tunnels, in order, and the TUN one answer for each packet too big |
| `PumpRuns.PromptBalances` | dataplane/pump.go:417-823 | when both paths reload after every registration and before the next packet, no packet is ever missing from the books |
| `PumpRuns.SinglesAreDatagrams` | dataplane/pump.go:541-561 | when no tunnel of a run aggregates, what the law counts as received is the number of datagrams |
| `PumpRuns.StaleReceiveLoses` | dataplane/pump.go:541-561 | snapshot, removal, datagram: exactly one packet goes missing from the books |
| `PumpRuns.StaleSendLoses` | dataplane/pump.go:739-799 | the same for an outbound packet routed by a snapshot from before the removal |
| `PumpRuns.StatsMisses` | dataplane/pump.go:812-821 | over any run between its two locks, Stats falls short of the total by exactly what was retired in between, and is exact if and only if nothing was |
| `PumpRuns.RemovalHides` | dataplane/pump.go:812-821 | a tunnel removed between the two locks is missing from the report with everything it had received |
| `InboundPaths.InboundPump.LookupInbound` | dataplane/pump.go:568-580 | the binding, or exactly the drop the datagram's specification counts |
| `InboundPaths.InboundPump.SourceAllowed` | dataplane/source.go:76-82 | the verdict, and one spoofed-source drop exactly when it is no |
| `InboundPaths.InboundPump.DecapInbound` | dataplane/pump.go:679-707 | its effects plus the caller's count are the whole datagram's specification, on every outcome |
| `InboundPaths.SourceIn` | dataplane/source.go:55-66 | the loop answers whether some prefix contains the source |
| `InboundPaths.HandleInboundMulti` | dataplane/pump.go:604-625 | state and TUN writes equal the specification of an aggregated datagram |
| `InboundPaths.HandleInbound` | dataplane/pump.go:541-561 | state and TUN writes equal the specification of any datagram |
| `InboundPaths.HandleInboundBatch` | dataplane/pump.go:661-673 | the batch loop equals the datagrams one by one on one snapshot |
| `InboundPaths.GroInner` | dataplane/gro_linux.go:148-157 | one inner packet through GRO has the plain path's effects on the pump and one step of the table |
| `InboundPaths.GroMulti` | dataplane/gro_linux.go:143-166 | an aggregated datagram through GRO, on any table: the plain path's effects and the table run over its packets, or the writes up to a panic |
| `InboundPaths.GroDatagram` | dataplane/gro_linux.go:97-133 | the same for any datagram |
| `InboundPaths.HandleInboundBatchGRO` | dataplane/gro_linux.go:94-138 | for every batch and any table: without a panic, counters, drops, peers and clock equal the plain path's; the TUN gets exactly what the storage model emits for the plain path's packets, and after a panic what was written before it |
| `Enforcement.StandsForKeepsSource` | dataplane/gro_linux.go:258-288 | merging and cutting never alter an inner source address |
| `Enforcement.CoalescedIsHonest` | dataplane/gro_linux.go:94-166 | every packet the stack gets out of a read batch whose flows resume no flushed train is one of its deliveries, as sent or rewritten, and passes the source check of that delivery's own tunnel |
| `Enforcement.HeaderlessSource` | dataplane/gro_linux.go:312-313 | folding flags into octet 33 of a bare payload changes no address it reads as |
| `Enforcement.AllButOneCarried` | dataplane/gro_linux.go:94-138 | for any honest deliveries up to the first that meets an emptied group, everything the stack gets is a delivery its own tunnel's check accepted, except the bare payload of that one, which is there if and only if it does not panic |
| `Enforcement.EnforcedIff` | dataplane/source.go:76-82 | for such deliveries source enforcement holds, each sender judged by its own tunnel, if and only if no packet meets an emptied group, or it panics, or its payload read as a packet has a source permitted to the tunnel it came through |
| `Enforcement.BatchEnforcedIff` | dataplane/gro_linux.go:94-138 | the same at every delivery of any read batch up to the first that meets an emptied group |
| `Enforcement.PayloadBypassesCheck` | dataplane/source.go:76-82 | three packets from a tunnel's one permitted address put on the TUN, as a packet, any payload that reads as having another source or none |
| `Enforcement.NeighbourDoesNotExcuse` | dataplane/source.go:76-82 | the same when a second tunnel of the batch is allowed the address the payload claims: the sender's tunnel is not, and enforcement fails |
| `Enforcement.ForeignSourceSurfaces` | dataplane/source.go:76-82 | for one, a payload that is itself a header from another address |
| `Egress.CutIsAlike` | dataplane/pump_gso_linux.go:68-75 | segments of one super-frame share destination and fragmentation bits and none is longer than the first |
| `Egress.EncapIgnoresSent` | dataplane/pump.go:378-391 | encapsulation neither reads nor extends what was sent, so sends can wait for the flush |
| `Egress.BurstIsEach` | dataplane/pump_gso_linux.go:103-149 | encapsulating all and flushing equals sending one by one: same datagrams, order, counters, shaper and engine state |
| `Egress.RouteEachEffects` | dataplane/pump.go:739-799 | exactly which drops the packet-at-a-time path counts and which replies it writes over like segments, in order |
| `Egress.RepliesCount` | dataplane/pump.go:761-765 | each refused segment is answered once |
| `Egress.SegmentsRefinePackets` | dataplane/pump_gso_linux.go:68-150 | a burst equals routing each segment alone if and only if there is a single segment, or a route exists and the first segment fits the MTU |
| `Egress.VnetReadIsPackets` | dataplane/pump_gso_linux.go:16-62 | a super-frame read from the TUN is its segments routed one by one exactly under that guard |
| `Egress.OutboundConserves` | dataplane/pump.go:739-799 | whatever snapshot routes it, every packet is counted once, as sent or as one drop, except exactly when its count lands on a retired block |
| `Egress.FreshSendLosesNothing` | dataplane/pump.go:739-799 | routed by the current registrations nothing is lost that way |
| `EgressExact.OutboundSends` | dataplane/pump.go:739-799 | a routed packet that fits and goes to an unpaced tunnel: the wire gains exactly the datagram the engine returned, addressed to that tunnel's peer, or nothing when it failed; the engine was asked for the shaper's target if the tunnel can pad and for none otherwise; sent or failed is counted and nothing else moves |
| `EgressExact.OutboundPaces` | dataplane/pump.go:768-782 | a paced tunnel's queue is offered the packet itself, and the wire gets nothing here |
| `EgressExact.OutboundRefuses` | dataplane/pump.go:739-767 | a packet that does not go moves one drop counter, for the first reason that applies, and only one too big is answered |
| `EgressExact.SegmentsSend` | dataplane/pump_gso_linux.go:113-149 | the wire gains, in order and addressed to the peer, what the engine made of each segment, each encapsulation starting from the engine and shaper state the one before left |
| `EgressExact.SegmentsPace` | dataplane/pump_gso_linux.go:102-111 | to a paced tunnel each segment is offered to the queue in order; what it takes is counted and the rest dropped |
| `EgressExact.SegmentsRefuse` | dataplane/pump_gso_linux.go:68-92 | a super-frame without address or route is one drop, and one too big a drop for each segment and one answer |
| `EgressExact.PlainRead` | dataplane/pump_gso_linux.go:38-45 | an ordinary read is routed as it is, or completed when its header asks: the same octets but for the named field, which verifies if it was left partial |
| `EgressExact.FrameRead` | dataplane/pump_gso_linux.go:46-54 | a TCPv4 read is routed as its segments exactly when its octets make it a frame that can be cut, and otherwise changes nothing |
| `EgressExact.OtherReads` | dataplane/pump_gso_linux.go:32-60 | reads shorter than the header and types never negotiated change nothing |
| `Egress.EgressPump.BurstBuf` | dataplane/pump.go:399-404 | growing the slots keeps those already handed out |
| `Egress.EgressPump.EncapInto` | dataplane/pump.go:378-391 | the specified encapsulation, which `EgressExact.EncapIs` says is the engine's, touching no slot but its own |
| `Egress.EgressPump.EncapBurst` | dataplane/pump_gso_linux.go:114-138 | after the whole burst every datagram is still readable where its encapsulation put it, in order |
| `Egress.EgressPump.SendBurst` | dataplane/pump_gso_linux.go:114-149 | what the flush reads out of the slots is what each encapsulation put there, in order |
| `Egress.EgressPump.SendSuperFrame` | dataplane/pump_gso_linux.go:68-150 | the imperative sendSegments equals its specification on every super-frame |
| `Egress.EgressPump.RouteOne` | dataplane/pump.go:739-799 | the imperative routeOutbound equals its specification on every packet |
| `Egress.EgressPump.TakeRead` | dataplane/pump_gso_linux.go:16-62 | one read is dispatched as specified: short, plain, partial checksum, super-frame, rejected, unknown type |
| `Egress.EgressPump.RunVnet` | dataplane/pump_gso_linux.go:16-62 | the loop over any sequence of reads equals the reads one after another |
| `Shaper.WithDefaults` | dataplane/shape.go:75-86 | unset fields become 30 seconds and 4096 flows, set ones stay, and the budget is left alone |
| `Shaper.TargetFits` | dataplane/shape.go:138-178 | a target is 0 or exactly the mtu, and then longer than the packet |
| `Shaper.TargetFrameFits` | dataplane/shape.go:243-255 | the same for Ethernet frames |
| `Shaper.TargetCaches` | dataplane/shape.go:138-207 | one call answers as the reference that never sweeps, and still differs from it only in flows due to re-arm |
| `Shaper.SweepIsInvisible` | dataplane/shape.go:138-207 | over every monotone run without overflow, every decision equals the reference's |
| `Shaper.OverflowOnlyPadsMore` | dataplane/shape.go:181-195 | with overflow, every packet the reference pads is padded the same: forgetting flows only adds padding |
| `Shaper.TableBounded` | dataplane/shape.go:181-195 | in every run the table holds at most maxFlows |
| `Shaper.PaddedCharged` | dataplane/shape.go:138-207 | what a flow has been padded since its entry was armed never exceeds what its budget has been charged |
| `Shaper.PaddingBounded` | dataplane/shape.go:138-207 | in every run of the real table, overflow and clock steps included, between re-arms at one mtu a flow gets at most ceil(bytes/mtu) padded packets and under bytes + mtu padded octets |
| `Shaper.TrimUndoesPadding` | dataplane/shape.go:326-351 | trimming a padded packet returns it (section 2.7 of RFC 4303) if and only if its length field is truthful |
| `ShaperExact.SameFlowIff` | dataplane/shape.go:261-318 | which packets have a flow, and that two share one exactly when version, addresses, protocol and, in first fragments of TCP, UDP and SCTP, ports agree |
| `ShaperExact.PadsIff` | dataplane/shape.go:138-207 | in every run of the table, whatever the clock does and however often it overflows, a packet is padded, to the mtu, if and only if it is shorter and its flow is new to the table, was idle, or has emitted less than its budget since then, each packet at the mtu or its own length |
| `ShaperExact.PadsFromPackets` | dataplane/shape.go:138-207 | said of the packets alone: whatever is owed padding gets it in every run, and nothing else does when the clock does not go back and the table never overflows |
| `ShaperExact.KnownAfter` | dataplane/shape.go:181-207 | which flows the table knows after a packet: its own, and every one it knew, unless the packet's flow was new and the table full, or it is the 1024th packet since the last sweep and the flow is idle |
| `ShaperExact.FrameIsPacket` | dataplane/shape.go:226-255 | an Ethernet frame is padded exactly when the IPv4 or IPv6 packet in it would be, by as much; any other frame leaves no trace |
| `Shaper.ShaperTable.SweepIdle` | dataplane/shape.go:200-207 | the deleting loop leaves exactly the flows still in use |
| `Shaper.ShaperTable.StoreFlow` | dataplane/shape.go:181-195 | table and sweep counter after a store are as specified |
| `Shaper.ShaperTable.ComputeTarget` | dataplane/shape.go:138-178 | decision and new table are as specified on every call |
| `Icmp.ReplyV4` | dataplane/icmp.go:73-117 | the IPv4 reply is destination unreachable, fragmentation needed: addresses swapped, header and eight octets of payload quoted, its own length stated, and both checksums verify |
| `Icmp.PmtuRoundTrip` | dataplane/icmp.go:126-147 | parsing the reply returns the mtu (section 4 of RFC 1191) if and only if it is in 1..65535, and what it returns otherwise |
| `Icmp.ReplyV6` | dataplane/icmp6.go:29-69 | the IPv6 reply is packet too big (section 3.2 of RFC 4443): it quotes all that fits in 1280 octets, advertises max(mtu, 1280), swaps the addresses, and verifies under its pseudo-header |
| `Icmp.TooBigIff` | dataplane/icmp.go:49-61 | a packet needs fragmentation exactly when it is longer than the mtu and is IPv4 with the DF bit set or IPv6, with a whole header |
| `Icmp.AnswersIff` | dataplane/icmp.go:73-83 | every IPv6 packet with a whole header is answered with an ICMPv6 error, every IPv4 packet with one with an ICMPv4 error, and no other |
| `Icmp.ParsesIff` | dataplane/icmp.go:126-147 | an mtu is read out of any fragmentation-needed message, whatever options its header has, and out of nothing else |
| `Icmp.IcmpChecksumVerifies` | dataplane/icmp6.go:75-87 | the ICMP checksum verifies over any pseudo-header |
| `Icmp.StoreChecksum` | dataplane/icmp.go:150-159 | patching in place changes the field and nothing else |
| `Icmp.FillV4Header` | dataplane/icmp.go:96-104 | the header written octet by octet is the specified one |
| `Icmp.FillV4Message` | dataplane/icmp.go:106-114 | the message written after it is the specified one, header untouched |
| `Icmp.BuildFragNeededV4` | dataplane/icmp.go:73-117 | the buffer filled in place is the specified reply |
| `Icmp.FillV6Header` | dataplane/icmp6.go:51-57 | the IPv6 header written is the specified one |
| `Icmp.FillV6Message` | dataplane/icmp6.go:59-66 | the ICMPv6 message written after it is the specified one |
| `Icmp.BuildFragNeededV6` | dataplane/icmp6.go:29-69 | the buffer filled in place is the specified reply |
| `TunClose.StepInv` | dataplane/tun_linux.go:270-399 | every step of every thread keeps: one closer, exclusion of readers and closer, and descriptors matching the closer's progress |
| `TunClose.RunInv` | dataplane/tun_linux.go:270-399 | the invariant holds over every interleaving of any number of threads |
| `TunClose.NeverUsesClosed` | dataplane/tun_linux.go:310-335 | no device call, poll or wake write is ever on a closed descriptor, and each descriptor is closed at most once |
| `TunClose.StepDescends` | dataplane/tun_linux.go:379-399 | once Close has latched, every step of every thread lowers a rank |
| `TunClose.BoundedAfterClose` | dataplane/tun_linux.go:379-399 | so every run after the latch is at most that rank long |
| `TunClose.NoDeadlock` | dataplane/tun_linux.go:339-399 | after the latch some thread can move until all have returned |
| `TunClose.QuiescentIsClosed` | dataplane/tun_linux.go:379-399 | a state where nobody can move has every thread returned and both descriptors closed exactly once |
| `TunClose.CloseCompletes` | dataplane/tun_linux.go:379-399 | from every reachable latched state there is such an ending within the rank |
| `AddrPool.FirstFreeIsLowest` | dataplane/pool.go:66-76 | the scan finds the lowest free host, or none is free |
| `AddrPool.NewPool6Covers` | dataplane/pool6.go:28-50 | the pool's range is exactly the prefix's addresses, and it starts after network and gateway |
| `AddrPool.NewPool6Iff` | dataplane/pool6.go:28-50 | a pool exists exactly for IPv6 prefixes of at most 126 bits that are not IPv4-mapped |
| `AddrPool.RunMatches` | dataplane/pool6.go:64-92 | over every run, everything below the mark is in use and every answer is the full scan's, when the prefix does not end at all ones |
| `AddrPool.ReferenceIsLowest` | dataplane/pool.go:66-76 | the full scan returns the lowest free host at or above the base, never one in use, and fails only when none is free |
| `AddrPool.MarkIsLost` | dataplane/pool6.go:64-75 | for every prefix that ends at all ones there is a run whose answers differ |
| `AddrPool.MarkIsInvisible` | dataplane/pool6.go:64-92 | every run answers as the full scan if and only if the prefix does not end at all ones |
| `AddrPool.NewPool4Range` | dataplane/pool.go:24-50 | a pool exists exactly for IPv4 prefixes, or prefixes of IPv4-mapped IPv6 addresses, that fix 1 to 30 of the 32 bits; it leaves out network, gateway and broadcast, covers the rest, and its 32-bit arithmetic does not wrap |
| `AddrPool.AddrPool6.Allocate` | dataplane/pool6.go:64-75 | from a pool with only live hosts below its mark, the lowest free host or a true refusal, and the mark stays sound, unless the prefix ends at all ones |
| `AddrPool.AddrPool6.Release` | dataplane/pool6.go:79-92 | the mark keeps only live hosts below it, and the released host or a lower one is what comes next |
| `AddrPool.AddrPool4.Allocate` | dataplane/pool.go:66-76 | the 32-bit loop is the full scan |
| `AddrPool.AddrPool4.Release` | dataplane/pool.go:79-87 | the released host or a lower one is what the next allocation gives |
| `Admission.AllowAgrees` | dataplane/admission.go:187-218 | one call with eviction gives the verdict of one without |
| `Admission.EvictionShows` | dataplane/admission.go:208-218 | whenever 300 seconds do not refill the burst there is a run whose verdicts differ |
| `Admission.EvictionInvisibleIff` | dataplane/admission.go:187-218 | eviction is invisible in every monotone run if and only if the burst is below one or rate times 300 reaches it |
| `Admission.TightWindow` | dataplane/admission.go:187-204 | when idling for the timeout refills the burst, one source passes at most burst + rate times the window in any window of any run |
| `AdmissionWindow.WindowBound` | dataplane/admission.go:187-218 | in every configuration and any window of any run one source passes at most burst + rate times the window, plus one burst per 300 seconds where idling refills too slowly |
| `AdmissionWindow.SlowRefillBeats` | dataplane/admission.go:208-218 | whenever 300 idle seconds do not refill the burst there is a run that passes more than the bucket's burst + rate times its length |
| `AdmissionWindow.TightIff` | dataplane/admission.go:187-218 | the bucket's own bound holds in every window if and only if 300 seconds refill the burst or the burst admits nobody |
| `Admission.HalfOpenIsLedger` | dataplane/admission.go:147-177 | half-open never exceeds the cap and equals admissions minus completions |
| `Admission.AdmitThenDone` | dataplane/admission.go:147-177 | Done gives back exactly the half-open place an admission took, and a refusal takes none |
| `Admission.WithDefaults` | dataplane/admission.go:71-85 | unset fields become 512 in flight, 10 a second and a burst of 20, set ones stay, and the result is always usable |
| `AdmissionExact.OneAnswer` | dataplane/admission.go:187-204 | for any arrivals there is exactly one sequence of verdicts in which each passes if and only if, in every window from an arrival of its source to it, the passes fit burst + rate times the window; the limiter that never evicts gives it |
| `AdmissionExact.PassesIff` | dataplane/admission.go:187-218 | the limiter's own verdicts are those in every run if and only if 300 times the rate reaches the burst, or the burst admits nobody |
| `AdmissionExact.AdmittedIff` | dataplane/admission.go:147-168 | in every run a handshake is admitted if and only if its verdict among all arrivals so far passes and fewer than the cap are in flight; otherwise the reason is the rate first, then capacity |
| `AdmissionExact.MemoryBounded` | dataplane/admission.go:208-218 | after any run the limiter knows every source that arrived in the last five minutes and none that has been away for ten |
| `Admission.Gate.Collect` | dataplane/admission.go:208-218 | the deleting loop leaves exactly the sources seen within the timeout |
| `Admission.Gate.AllowSource` | dataplane/admission.go:187-204 | refill, spend and store as specified |
| `Admission.Gate.TryAdmit` | dataplane/admission.go:147-168 | state and reason as specified on every call |
| `SshServer.NextOwned` | ssh/server.go:254-306 | every step on any subnet keeps ownership, and a learned address never changes |
| `SshServer.RunOwned` | ssh/server.go:254-306 | over every run on any subnet, live clients hold distinct in-pool non-gateway addresses, the table routes each to its holder, and every packet written carried its writer's address; 0.0.0.0 appears only if the subnet contains it |
| `SshServer.AddressesAreDistinct` | ssh/server.go:291-306 | over every run two live clients with one address are the same client, a held address is routed to its holder, and every table entry belongs to a live holder, save that of 0.0.0.0 on a subnet containing it |
| `SshServer.WrittenIff` | ssh/server.go:254-306 | in every run a packet is written, and its source becomes the client's, if and only if the source is the client's address, or it has none and the source is a pool host other than the gateway that no live client holds; any other packet changes nothing |
| `SshServer.TableLiveIffZeroOutside` | ssh/server.go:382-391 | the table routes only to live clients that hold the address, in every run, if and only if the subnet leaves out 0.0.0.0 |
| `SshServer.ZeroOutlives` | ssh/server.go:382-391 | the run that leaves an entry for a closed client when 0.0.0.0 is inside |
| `SshServer.FixedIffZeroOutside` | ssh/server.go:291-306 | each client's packets carry one address in every run if and only if the subnet leaves out 0.0.0.0 |
| `SshServer.ZeroRebinds` | ssh/server.go:291-306 | the run that gives a client two addresses when 0.0.0.0 is inside |
| `SshServer.TunnelServer.OpenClient` | ssh/server.go:254-256 | a new channel starts without an address and disturbs no owner |
| `SshServer.TunnelServer.ServePacket` | ssh/server.go:254-287 | one packet on the mutable server is the next step of the run it is the outcome of, so every owner keeps its address |
| `SshServer.TunnelServer.CloseClient` | ssh/server.go:382-391 | the channel's own address becomes free and every other client keeps its own |
| `SshServer.TunnelServer.RouteReply` | ssh/server.go:201-219 | a TUN packet goes to the one live client that holds its destination and to nobody exactly when none does; one to 0.0.0.0 goes to whomever the table names for it, which takes a subnet containing it |

## Left out

- GroBatch.StepKeeps: for packets that meet no emptied group; `GroStore.FullStep` models the others and `GroLoss.LossStanding` says what the first of them does.
- GroBatch.CleanBatchDelivers: for batches without such a packet.
- GroLoss.LossStanding: up to and including the first such packet. `GroStore` models every packet after it, `InboundPaths.HandleInboundBatchGRO` is proved against that model and `GroStore.BatchPanicsIff` covers them; what they deliver is not stated.
- Enforcement.EnforcedIff: the same extent.
- GroExact.ExactOutput: for batches without such a packet; packets of no flow are written as they come.
- Offload.SegmentTSO4: for frames up to 65535 octets, the size of runVnet's read buffer; beyond that the 32-bit sum could wrap. Segment buffers are fresh, not reused.
- Offload.CompletePartialChecksum: for packets up to 65535 octets, the same buffer.
- Egress.EgressPump.TakeRead: the clock readings of one read are a list of at least 256, one per segment.
- Egress.SegmentsRefinePackets: peer address and mtu are fixed for the duration of one call; send errors, which both paths ignore alike, are not modelled.
- Egress.EgressPump.RouteOne: the pump's single output buffer is burst slot 0.
- PumpRuns.RunConserves: each datagram and each outbound packet is one step after its snapshot was loaded; outbound packets are taken one at a time, since `Egress.SegmentsRefinePackets` relates super-frames to them.
- PumpTables.Tables.Stats: one atomic step; `PumpRuns.StatsMisses` has the two locks.
- RekeyDriver.SessionDriver.RekeyChild: one uninterrupted call; interleavings with other registrations are in `Rekey.NeverUnrouted`. The peer endpoint inherited from MOBIKE and the delete message to the peer are not modelled.
- Shaper.SweepIsInvisible: without table overflow; `ShaperExact.PadsIff` is exact with it.
- AdmissionWindow.WindowBound: over real numbers; floating-point rounding is not modelled.
- SshServer.RunOwned: each packet's learn, bind and write is one step; only bind touches shared state. Channel identities are never reused.
- TUN write failures on the inbound paths: writes are taken to succeed, so the tun-write drop is not counted.
- Counters are unbounded naturals; 64-bit wrap-around is not modelled.
- Prefixes are well formed; invalid `netip` values are not modelled. Admission sources are abstract identities; `addrOf` is not modelled.
- Pacing goroutines (start, stop, drain): the queue is an arbitrary function that accepts or refuses.
- Raw system calls, ioctls, recvmmsg and sendmmsg, and the darwin and other-platform devices.
- Cryptography and protocol engines, the protocol facades, client routing, kill switch, DNS backends, option parsing and logging.
- `InnerMTU` subtracts constants, the client registry is a table of names, and the liveness monitor is a timer around calls not modelled here.
