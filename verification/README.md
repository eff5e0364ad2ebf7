# Verification of the session services

This project models the parts of the repository that hold state or put bytes on a wire, and proves
what they promise. Check it with `dafny verify dfyconfig.toml`.

**Ban control plane** (`IpPrefix`, `AddressWords`, `KeyedLog`, `BanLeader`, `HoldCache`, `Enforcer`,
`ControlPlane`). A leader keeps bans and legal holds, numbers every change and broadcasts it; replicas
rebuild the state from a snapshot and events. `KeyedLog` has the one fact both replicas rest on: a
replica converges if and only if, for each key, the newest change arrives last or the snapshot has it.
The leader sends after it releases its lock, subscribes a replica after the snapshot is written, and
skips events for a replica that lags, so delivery is an explicit assumption; what follows without it
is proved for every loss, repetition and reordering (`EveryWorldInv`). The enforcer is only right
because a ban id never changes its prefix, a fact about the leader; `MovedIdBreaksInv` shows what
happens without it.

**Scrollback ring** (`Nearline`). Segment files in a circle, against one append-only list: what is
retained is a suffix of it, between two space bounds, and the three queries are queries on that list.

**Resumable web sessions** (`WebSessions`, `WebManager`, `WebAlone`, `WebAttach`, `WebDelivery`,
`ReplayBuffer`). Calls run concurrently and drop their locks between steps. `WebSessions` has one
program counter for each call and one step for each region under a lock; the proofs are about every
interleaving. A step is a move of the program counter and one change to what is shared, so the
invariants are proved once for each kind of change. `WebManager` has the same operations as they are
written, and `WebAlone` shows that steps with nothing in between do the same. `WebAttach` has the
steps of the websockets of one session, `WebDelivery` adds what each of them is sent, and
`ReplayBuffer` is what a new one is sent first.

**Wire** (`Streams`, `Telnet`, `Frames`, `Lines`, `Utf8`, `ShardWire`). Each reader is a class over a
source that hands over arbitrary chunks; each is proved against a decoder of the whole stream, and
the decoder against an encoder. `ShardWire` composes them from the gateway's logins to the shard's
parsed requests.

**Logs and graphs** (`RaftLog`, `Groups`, `AreaGraph`, `RoomNumbers`, `AreaFill`). The state in memory
is always what replaying the file would give. The budget filler adds rooms to a graph and keeps it
reachable, which the validator's breadth-first search, proved exact, confirms.

Where a contract speaks through a function of the model, a lemma says what that function means in terms
of bytes, words, readings or the log alone (the names end in `Means`, `Is` or `Iff`).

Counters are 64-bit and saturate (`SatAdd`); where that matters a result says exactly when. The order
in which a hash map lists its entries is a parameter, as are clocks, random ids (taken to differ from
all earlier ones) and the outcome of connecting. A CIDR string stands for its prefix.

Where the code does less than its comments say, or than its other parts rely on:

- The leader loses a change made between a replica's snapshot and its subscription
  (`KeyedLog.SubscribeGap`, `ControlPlane.BanLostInSubscribeGap`).
- An exempt address is protected only against bans inside an exempt prefix, not against a wider ban
  (`ControlPlane.ExemptBlockedIff`).
- A line over the limit is accepted when its end arrives in the read that takes it over
  (`Lines.ReadingMattersIff`).
- A build field over 255 bytes makes the gateway panic when byte 255 is inside a character
  (`ShardWire.SentIff`).
- A deferred line can miss the flush of the session created meanwhile; `WebSessions.StrandedIff` says
  exactly when (`WebSessions.LateDeferIsLeftWaiting`).
- New output can overtake the replay on a websocket that has just attached
  (`WebDelivery.ReplayFirstIff`).
- A websocket that checks the session before its connection dies and joins after is attached to a dead
  session, and the death does not cancel it (`WebAttach.DeadHolderIff`).
- Saturated attachment ids let a late detach remove its successor
  (`WebAttach.LateDetachRemovesNewerIff`).
- Filling can turn an area that validates into one that does not, by hanging rooms on a room with a blank
  id (`AreaFill.FillAndValidate`).

## Model

| member | source | states |
|---|---|---|
| `AddressWords.V4MaskClears` | crates/sbc_core/src/lib.rs:98-116 | masking the 32-bit word of an address clears the host bits of the number that the word stands for, for every length from 0 to 32 |
| `AddressWords.V6MaskClears` | crates/sbc_core/src/lib.rs:106-120 | the same for 128-bit words |
| `AddressWords.Valid4IffWord` | crates/sbc_core/src/lib.rs:98-116 | the valid IPv4 addresses are exactly those of the 32-bit words: a word is determined by its number, and every number below 2^32 has one |
| `AddressWords.Valid6IffWord` | crates/sbc_core/src/lib.rs:106-120 | the same for IPv6 and 128-bit words |
| `AddressWords.New4Accepts` | crates/sbc_core/src/lib.rs:27-41 | `new` succeeds on an IPv4 word exactly for lengths up to 32 |
| `AddressWords.New6Accepts` | crates/sbc_core/src/lib.rs:27-41 | and on an IPv6 word exactly for lengths up to 128 |
| `AddressWords.New4Masks` | crates/sbc_core/src/lib.rs:27-41 | the prefix built from an IPv4 word has the address of the word under the mask, and the length |
| `AddressWords.New6Masks` | crates/sbc_core/src/lib.rs:27-41 | the same for IPv6 |
| `AddressWords.Contains4Masks` | crates/sbc_core/src/lib.rs:63-80 | for all 32-bit words a and b and every length: the prefix of a contains the address of b if and only if `a & mask == b & mask` |
| `AddressWords.Contains6Masks` | crates/sbc_core/src/lib.rs:63-80 | the same for all 128-bit words |
| `IpPrefixes.ClearedIsMultiple` | crates/sbc_core/src/lib.rs:114-120 | clearing the low k bits gives the one multiple of 2^k that is at most the address and less than 2^k below it |
| `IpPrefixes.ClearedIsDivision` | crates/sbc_core/src/lib.rs:114-120 | so it divides by 2^k and multiplies back |
| `IpPrefixes.ContainsPrefixIsInclusion` | crates/sbc_core/src/lib.rs:63-89 | `contains_prefix(p, q)` holds exactly when every address in q is in p, for both families and every length, 0 included |
| `IpPrefixes.NestedOrDisjoint` | crates/sbc_core/src/lib.rs:63-89 | any two prefixes are nested or share no address |
| `IpPrefixes.NewKeepsAddresses` | crates/sbc_core/src/lib.rs:27-41 | `new` refuses exactly the lengths that are too long, and the canonical prefix it builds has the addresses of the one it was given |
| `IpPrefixes.CanonicalIsExtensional` | crates/sbc_core/src/lib.rs:27-41 | two prefixes built by `new` are equal exactly when they contain the same addresses |
| `IpPrefixes.ExemptPrefixIff` | crates/sbc_core/src/lib.rs:134-140 | a prefix is exempt exactly when one listed prefix has all of its addresses |
| `IpPrefixes.ExemptPrefixIsAllExempt` | crates/sbc_core/src/lib.rs:134-140 | every address of an exempt prefix is exempt |
| `IpPrefixes.HalvesCover` | crates/sbc_core/src/lib.rs:63-89 | a prefix with host bits has exactly the addresses of its two halves |
| `IpPrefixes.SeesAllExemptIff` | crates/sbc_core/src/lib.rs:134-140 | for every exemption list: each prefix whose addresses are all exempt counts as exempt if and only if a prefix does whenever both its halves do |
| `IpPrefixes.ExemptHalvesAreNotExemptWhole` | crates/sbc_core/src/lib.rs:134-140 | not every list is so: two neighbouring addresses exempt, their /31 not |
| `IpPrefixes.ExemptAddressInside` | crates/sbc_core/src/lib.rs:134-140 | a prefix that is not exempt has an exempt address exactly when it contains an exempt prefix |
| `KeyedLog.ReplayAt` | crates/slopmud/src/hold.rs:34-63 | replaying changes leaves at each key what the last change to that key says, or what was there |
| `KeyedLog.DeliveredConverges` | apps/sbc_raftd/src/main.rs:388-419 | if for each key the newest change is received last, or the snapshot has it and no older one is received, the replica equals the leader |
| `KeyedLog.ConvergesIffDelivered` | apps/sbc_raftd/src/main.rs:388-419 | that delivery condition is exact: it holds if and only if the replica converges whatever the values are |
| `KeyedLog.MissedLog` | apps/sbc_raftd/src/main.rs:413-416 | a witness of the other direction: a log that the replica gets wrong when a newest change is missed |
| `KeyedLog.KeyOrderIsDelivered` | apps/sbc_raftd/src/main.rs:388-419 | events from any index at or before the snapshot's, in any order that keeps each key's own, with repeats, meet the condition: replaying what the snapshot covers is harmless |
| `KeyedLog.SubscribeGap` | apps/sbc_raftd/src/main.rs:388-406 | subscribing after the snapshot is sent meets the condition exactly when every key changed in the gap is changed again later |
| `BanLeader.RequestExplains` | apps/sbc_raftd/src/main.rs:186-331 | the events of a request are exactly its changes to bans and holds, each with the next index |
| `BanLeader.ReapExplains` | apps/sbc_raftd/src/main.rs:493-526 | so are the events of the reaper, one for each ban it removes |
| `BanLeader.LinkKeepsInverse` | apps/sbc_raftd/src/main.rs:202-218 | inserting a ban under the id its prefix has, or under a new one, keeps `bans` and `ban_by_key` inverse |
| `BanLeader.RequestKeepsInv` | apps/sbc_raftd/src/main.rs:186-331 | every request keeps the two maps inverse and the hold names normal, given a fresh id |
| `BanLeader.ReapKeepsInv` | apps/sbc_raftd/src/main.rs:501-526 | so does the reaper |
| `BanLeader.ReapRemoves` | apps/sbc_raftd/src/main.rs:501-526 | reaping a list of ids removes exactly those bans and no hold |
| `BanLeader.ReapLeavesTheLiving` | apps/sbc_raftd/src/main.rs:501-526 | after the reaper exactly the bans that have not expired are left, unchanged |
| `BanLeader.RequestKeepsIds` | apps/sbc_raftd/src/main.rs:202-218 | upserting a prefix again keeps its id and a new prefix gets the new one; no id ever moves to another prefix, in the maps or in any event |
| `BanLeader.BanLasts` | apps/sbc_raftd/src/main.rs:186-220 | a ban upserted at `now` and not touched since is left by a round of the reaper at `t` exactly when `t < now + ttl` (at most the counter's limit), and always when `ttl` is 0; it carries the request's creator, reason and time |
| `BanLeader.AnswersMean` | apps/sbc_raftd/src/main.rs:186-331 | an answer tells the truth: the entry in it is the one stored and the one sent, under the index it gives, and an error changes nothing |
| `BanLeader.RequestsMean` | apps/sbc_raftd/src/main.rs:186-331 | what each request changes and to what, and which requests are refused or dropped |
| `BanLeader.NextKeepsTraceInv` | apps/sbc_raftd/src/main.rs:186-331 | every step keeps all of that together with the log of events |
| `BanLeader.RunKeepsTraceInv` | apps/sbc_raftd/src/main.rs:186-526 | in every reachable state the maps are inverse, the events replay to the state, and ids keep their prefixes |
| `BanLeader.IndicesDistinctIffNoOverflow` | apps/sbc_raftd/src/main.rs:220-221 | events carry each index once, without gaps, exactly while the saturating 64-bit counter has room |
| `BanLeader.Leader.Request` | apps/sbc_raftd/src/main.rs:183-333 | the request handler, in place: the new state, the event and the answer |
| `BanLeader.Leader.ReapExpired` | apps/sbc_raftd/src/main.rs:493-533 | the reaper, in place: which bans are left and which events are sent |
| `BanLeader.Leader.Drop` | apps/sbc_raftd/src/main.rs:231-234 | removing a ban removes its entry in both maps |
| `HoldReplica.SnapshotLoads` | crates/slopmud/src/hold.rs:34-45 | loading a snapshot, in any listing order, gives exactly the leader's holds |
| `HoldReplica.LoadMeans` | crates/slopmud/src/hold.rs:34-45 | of a snapshot in any order and with repeats, a name has the last entry that has it in normal form, and blank names have none |
| `HoldReplica.ReceivedMeans` | crates/slopmud/src/hold.rs:34-63 | what one event changes in the cache, and that the index seen rises to the event's only when the event is used |
| `HoldReplica.ReceivedReplays` | crates/slopmud/src/hold.rs:47-63 | on the leader's events the cache replays changes by name |
| `HoldReplica.HoldsConverge` | crates/slopmud/src/hold.rs:34-63 | from any leader snapshot, after a delivery that meets the condition, the cache equals the leader's holds |
| `HoldReplica.HoldCache.ApplySnapshot` | crates/slopmud/src/hold.rs:34-45 | the snapshot handler, in place |
| `HoldReplica.HoldCache.ApplyUpsert` | crates/slopmud/src/hold.rs:47-54 | the upsert handler, in place; an entry without a usable name is ignored |
| `HoldReplica.HoldCache.ApplyDelete` | crates/slopmud/src/hold.rs:56-63 | the delete handler, in place |
| `HoldReplica.HoldCache.IsHeld` | crates/slopmud/src/hold.rs:26-32 | a name is looked up in normal form, and a blank one is never held |
| `BanEnforcer.CheckedKeepsInv` | apps/sbc_enforcerd/src/main.rs:320-396 | a DNS check keeps: not enforcing means nothing applied; enforcing means applied is within desired, has no exempt prefix, and has every desired ban neither exempt nor expired |
| `BanEnforcer.ReceivedKeepsInv` | apps/sbc_enforcerd/src/main.rs:491-572 | so does any event that carries the leader's ids, in any order and any number of times |
| `BanEnforcer.LaterKeepsInv` | apps/sbc_enforcerd/src/main.rs:334-396 | so does time passing and the leader issuing more ids |
| `BanEnforcer.MovedIdBreaksInv` | apps/sbc_enforcerd/src/main.rs:514-530 | without stable ids it fails: an upsert that moves an applied id to an exempt prefix leaves the old ban applied |
| `BanEnforcer.FedReplays` | apps/sbc_enforcerd/src/main.rs:491-572 | DNS checks never change the desired set, and events replay on it by ban id |
| `BanEnforcer.CheckedMeans` | apps/sbc_enforcerd/src/main.rs:320-396 | enforcing, attached and the reason after a DNS check are those of its result; attaching applies exactly the desired bans neither expired nor exempt, and detaching none |
| `BanEnforcer.WantedMeans` | apps/sbc_enforcerd/src/main.rs:497-503 | of a snapshot's list the last entry with an id that has not expired is desired, and no other |
| `BanEnforcer.ReceivedMeans` | apps/sbc_enforcerd/src/main.rs:491-572 | what one event does to the desired set, and that nothing is applied while not enforcing |
| `BanEnforcer.ReportTells` | apps/sbc_enforcerd/src/main.rs:514-560 | a report is sent for exactly the changes of one ban; it says `ok` exactly when the ban is then applied as asked or gone, and else whether enforcement was off or the prefix exempt |
| `BanEnforcer.Enforcer.Sync` | apps/sbc_enforcerd/src/main.rs:363-392 | attaching: the applied set is rebuilt, and a report says `ok` for exactly what it has |
| `BanEnforcer.Enforcer.CheckDns` | apps/sbc_enforcerd/src/main.rs:320-396 | the locked part of `dns_task`, in place: mode, reason, attachment, applied set and reports |
| `BanEnforcer.Enforcer.Rebuild` | apps/sbc_enforcerd/src/main.rs:505-514 | a snapshot while enforcing rebuilds the applied set from the desired one |
| `BanEnforcer.Enforcer.Receive` | apps/sbc_enforcerd/src/main.rs:491-572 | the event match of `events_task`, in place: both sets and the report |
| `ControlPlane.MoveKeepsWorldInv` | apps/sbc_enforcerd/src/main.rs:334-582 | any interleaving of leader steps, snapshots, deliveries, DNS checks and time keeps the enforcer right; the proof uses the leader's stable ids |
| `ControlPlane.EveryWorldInv` | apps/sbc_enforcerd/src/main.rs:334-582 | so it holds in every reachable world, whatever is lost, repeated or reordered on the way |
| `ControlPlane.SentIff` | apps/sbc_raftd/src/main.rs:335-406 | what can still be delivered in a run is exactly every event logged and every snapshot written on the way |
| `ControlPlane.SnapshotIndexIsLast` | apps/sbc_raftd/src/main.rs:388-400 | a snapshot carries the index of the last event before it |
| `ControlPlane.BanReachesEnforcer` | apps/sbc_enforcerd/src/main.rs:320-560 | end to end: a ban made at the leader is applied by an enforcer that is turned on exactly when its prefix is not exempt, whether its event or a snapshot is delivered |
| `ControlPlane.ExemptBlockedIff` | apps/sbc_enforcerd/src/main.rs:363-392 | an exempt address is blocked exactly when an applied ban contains a whole exempt prefix |
| `ControlPlane.WiderBanBlocksExempt` | apps/sbc_enforcerd/src/main.rs:514-530 | and it does happen: while enforcing, an upsert of a prefix that is not exempt and contains an exempt entry blocks that entry's address |
| `ControlPlane.DesiredConverges` | apps/sbc_enforcerd/src/main.rs:497-560 | from a leader snapshot, after a delivery that meets the condition, desired equals the leader's bans but for entries that had expired |
| `ControlPlane.OverlapConverges` | apps/sbc_enforcerd/src/main.rs:497-560 | any overlap with the snapshot, in an order that keeps each ban's own, is such a delivery |
| `ControlPlane.EnforcedIsLeaderMinusExempt` | apps/sbc_enforcerd/src/main.rs:497-560 | enforcing and converged, a live leader ban is applied exactly when it is not exempt, and nothing else is |
| `ControlPlane.BanLostInSubscribeGap` | apps/sbc_raftd/src/main.rs:388-406 | a ban created between the snapshot and the subscription, and not touched again, stays in force at the leader and unknown to the enforcer, whichever later events are delivered, in any order and any number of times |
| `Nearline.AppendedKeepsInv` | crates/slopmud/src/nearline.rs:239-289 | an append keeps: the segments join to a suffix of the whole history, and each is within `seg_max` or holds a single record |
| `Nearline.AppendMovesSegments` | crates/slopmud/src/nearline.rs:239-289 | the file operations of an append are the append on the list of segments, rotation included |
| `Nearline.RotateShifts` | crates/slopmud/src/nearline.rs:303-310 | truncating the next segment file and moving on shifts the list of segments by one |
| `Nearline.WalksAgree` | crates/slopmud/src/nearline.rs:303-310 | `oldest_to_newest` and `newest_to_oldest` visit the segments of that list, one forwards and one backwards |
| `Nearline.RetainedSpace` | crates/slopmud/src/nearline.rs:239-289 | once anything has been overwritten, at least floor(max_segments/2) * seg_max bytes are retained |
| `Nearline.UsedSpace` | crates/slopmud/src/nearline.rs:239-289 | and at most max_segments * seg_max bytes are, but for single records larger than a segment |
| `Nearline.BackwardsIsReverse` | crates/slopmud/src/nearline.rs:82-119 | scanning segments and lines backwards gives the matches in reverse order |
| `Nearline.SelectMeans` | crates/slopmud/src/nearline.rs:82-119 | the records selected are a subsequence: all that satisfy the filter, in order |
| `Nearline.MatchingMeans` | crates/slopmud/src/nearline.rs:121-159 | a record is searched for by its own name, and by the query as a part of its text in any of ASCII's cases |
| `Nearline.FoundMeans` | crates/slopmud/src/nearline.rs:161-236 | a record found is the first with the id, with the ctx records after it and the ctx before it, or all there are |
| `Nearline.NotFound` | crates/slopmud/src/nearline.rs:161-236 | and nothing is found when no record has the id |
| `Nearline.FoundEarly` | crates/slopmud/src/nearline.rs:161-236 | once enough records have followed the match, later ones do not change the answer |
| `Nearline.AdvanceKeeps` | crates/slopmud/src/nearline.rs:161-236 | one more record keeps the window of predecessors and the neighbours right, and decides the search at the last neighbour |
| `Nearline.OldestStaysInUse` | crates/slopmud/src/nearline.rs:239-289 | once anything has been forgotten, the oldest segment is in use |
| `Nearline.WriteRecord` | crates/slopmud/src/nearline.rs:239-289 | the body of the writer's loop: whether to rotate, which file gets the record, the counters after it |
| `Nearline.Collect` | crates/slopmud/src/nearline.rs:82-160 | the nested loops of `last_n` and `search`: the newest matches first, up to the limit |
| `Nearline.FindIn` | crates/slopmud/src/nearline.rs:161-236 | the nested loops of `find_with_context`, with its early return |
| `Nearline.Ring.constructor` | crates/slopmud/src/nearline.rs:60-73 | a new ring: at least one segment, at least 256 bytes each |
| `Nearline.Ring.Restart` | crates/slopmud/src/nearline.rs:239-256 | a clean restart with the same configuration forgets nothing |
| `Nearline.Ring.Append` | crates/slopmud/src/nearline.rs:239-289 | an append extends the history by the record and keeps the ring a suffix of it |
| `Nearline.Ring.LastN` | crates/slopmud/src/nearline.rs:82-119 | `last_n`: the last min(n, count) retained records of the name, oldest first |
| `Nearline.Ring.Search` | crates/slopmud/src/nearline.rs:121-159 | `search`: the newest matching retained records first, up to the limit |
| `Nearline.Ring.FindWithContext` | crates/slopmud/src/nearline.rs:161-236 | `find_with_context`: the first match with up to ctx predecessors and exactly ctx successors of the name, and nothing when fewer follow |
| `Telnet.RunSplits` | crates/slopio/src/telnet.rs:49-143 | parsing a chunk and then another is parsing both at once: chunking makes no difference |
| `Telnet.RunSubnegotiation` | crates/slopio/src/telnet.rs:100-143 | a subnegotiation with 255 doubled in its payload is dropped whole |
| `Telnet.RunItem` | crates/slopio/src/telnet.rs:49-143 | each encoded item gives its data and its reply and leaves the parser in the data state |
| `Telnet.LiteralBytes` | crates/slopio/src/telnet.rs:49-143 | the bytes themselves: 255 253 x is answered 255 252 x and 255 251 x by 255 254 x, a doubled 255 is data, 255 250 begins what 255 240 ends |
| `Telnet.SilentUntilSe` | crates/slopio/src/telnet.rs:100-143 | nothing leaves a subnegotiation before a byte 240, and nothing in it is data or is answered |
| `Telnet.DecodeInvertsEncode` | crates/slopio/src/telnet.rs:49-143 | a stream of data, negotiations, commands and subnegotiations (RFC 854 section `TELNET COMMAND STRUCTURE`, RFC 855) decodes to exactly its data bytes, with one WONT per DO and one DONT per WILL in order |
| `Telnet.RefusalsAreQuiet` | crates/slopio/src/telnet.rs:49-143 | every reply is itself a WONT or a DONT |
| `Telnet.RepliesCauseNothing` | crates/slopio/src/telnet.rs:49-143 | whatever bytes a parser reads from whatever state, its replies fed to another yield no data and no reply |
| `Telnet.IacParser.Parse` | crates/slopio/src/telnet.rs:49-143 | the parse loop, in place: state, data and replies are those of the byte-by-byte machine |
| `Telnet.IacParser.ParseChunks` | apps/slopmud_web/src/main.rs:1866-1885 | the reader's loop over any chunks of an encoded stream: the outputs join to the data, the replies to the refusals |
| `Frames.DecodeInvertsEncode` | crates/slopio/src/frame.rs:41-71 | decoding the frames of any payloads within the limits gives them back in order, then a clean end |
| `Frames.WireFrame` | crates/slopio/src/frame.rs:98-111 | a frame on the wire, byte by byte: the length in four bytes, the highest first, and then the payload |
| `Frames.DecodeMeans` | crates/slopio/src/frame.rs:41-71 | what a read finds in any bytes: a length over the limit is refused before its payload is there, too few bytes are an unexpected end, and else the payload of that length |
| `Frames.DecodeCut` | crates/slopio/src/frame.rs:41-71 | a frame cut anywhere inside, its length included, is an unexpected end |
| `Frames.TruncatedStream` | crates/slopio/src/frame.rs:41-71 | a stream cut inside a frame gives all complete frames and then an unexpected end |
| `Frames.FrameReader.ReadFrame` | crates/slopio/src/frame.rs:41-71 | the read loop, for any chunks: the next frame of the bytes pending, which alone is consumed |
| `Frames.FrameReader.ReadAll` | crates/slopio/src/frame.rs:41-71 | repeated reads give exactly the frames of the stream and then how it ended |
| `Frames.FrameWriter.WriteFrameParts` | crates/slopio/src/frame.rs:98-111 | the parts are written as one frame, unless they are too long together |
| `Streams.NumberInvertsBigEndian` | crates/slopio/src/frame.rs:98-111 | reading a big-endian number inverts writing it |
| `Streams.BigEndianAt` | crates/slopio/src/frame.rs:98-111 | each byte of a big-endian number, by its weight |
| `Lines.DecodeInvertsEncode` | crates/slopio/src/line.rs:47-85 | lines without LF, ended by CRLF or by LF, within the limit, read back in order, with none too long |
| `Lines.FinishedLine` | crates/slopio/src/line.rs:47-85 | any bytes up to the first 10 are a line, without one 13 at its end |
| `Lines.UnfinishedLine` | crates/slopio/src/line.rs:47-72 | bytes without a 10 are no line: a clean end when there are none, and else an unexpected one |
| `Lines.UnfinishedAnyChunks` | crates/slopio/src/line.rs:47-72 | so is an unfinished last line within the limit, under every chunking |
| `Lines.ShortLineAnyChunks` | crates/slopio/src/line.rs:47-72 | a first line within the limit reads the same under every chunking |
| `Lines.LongTailAnyChunks` | crates/slopio/src/line.rs:47-72 | an unfinished line over the limit is refused under every chunking |
| `Lines.ChunkingMattersIff` | crates/slopio/src/line.rs:47-72 | with reads of any size, the result depends on the chunking exactly when a finished line is over the limit |
| `Lines.FarOverIsRefused` | crates/slopio/src/line.rs:47-72 | with reads of bounded size, a line over the limit by a whole read is refused however it is read |
| `Lines.ReadingMattersIff` | crates/slopio/src/line.rs:47-72 | with reads of bounded size, the result depends on the chunking exactly when a finished line is over the limit by less than one read |
| `Lines.LineReader.ReadLine` | crates/slopio/src/line.rs:47-72 | the read loop: the first line pending, which alone is consumed |
| `Lines.LineReader.ReadAll` | crates/slopio/src/line.rs:47-72 | for streams without long lines, repeated reads give all lines and how the stream ended, under every chunking |
| `Utf8.BoundaryIffLeads` | apps/ws_gateway/src/main.rs:159-164 | byte 255 is a character boundary exactly when it is not a continuation byte |
| `Utf8.CharBits` | apps/ws_gateway/src/main.rs:159-164 | an encoded character holds its bits, six to a continuation byte, in as few bytes as hold them |
| `ShardWire.SentIff` | apps/ws_gateway/src/main.rs:159-164 | cutting a trimmed field at 255 bytes panics exactly when that splits a character; otherwise the first 255 bytes of its encoding are sent, or all there are |
| `ShardWire.PanicsIff` | apps/ws_gateway/src/main.rs:159-164 | a login makes the gateway panic exactly when a field is given and one, trimmed, has a character across byte 255 |
| `ShardWire.TwoByteAt255Panics` | apps/ws_gateway/src/main.rs:159-164 | 254 one-byte characters and then a two-byte one do panic |
| `ShardWire.SomeFieldPanics` | apps/ws_gateway/src/main.rs:159-164 | so some field makes the gateway panic |
| `ShardWire.ParseInvertsEncode` | crates/mudproto/src/shard.rs:62-183 | parsing the documented layout of any well-formed request gives it back, whatever the unused flag bits |
| `ShardWire.EncodeInvertsParse` | crates/mudproto/src/shard.rs:62-183 | any payload that parses encodes again to the same bytes, up to the unused flag bits |
| `ShardWire.ParseRespIff` | crates/mudproto/src/shard.rs:185-209 | a response parses exactly when it is a header of a known type and its bytes |
| `ShardWire.ParseReqAt` | crates/mudproto/src/shard.rs:62-183 | the cursor through the request, with its errors, is the parser by parts |
| `ShardWire.BuildFields` | crates/mudproto/src/shard.rs:109-157 | the cursor through the four build fields, with the length it needs at each |
| `ShardWire.LayoutIsEncoding` | apps/ws_gateway/src/main.rs:139-173 | the gateway's body is the documented layout of the request it means, which is well formed |
| `ShardWire.AttachBytes` | crates/mudproto/src/shard.rs:62-183 | the bytes of an attach request: type, 16 bytes of session, flags, the token behind two bytes of length, four fields behind one byte of length each, the name |
| `ShardWire.OtherBytes` | crates/mudproto/src/shard.rs:62-183 | the bytes of the other requests |
| `ShardWire.ErrorsMean` | crates/mudproto/src/shard.rs:62-183 | what each error says: a payload that is too short stays so, and needs as many bytes, until it has them; a type is unknown, or there is something behind a detach request |
| `ShardWire.AttachBody` | apps/ws_gateway/src/main.rs:139-173 | the gateway's body, or its panic: flags, four fields once one is given, the name |
| `ShardWire.WriteReq` | apps/ws_gateway/src/main.rs:293-303 | a request is written as a frame of header and body |
| `ShardWire.ExpectedIsWellFormed` | apps/ws_gateway/src/main.rs:139-173 | whatever the login, what the gateway means is a well-formed request: all four fields or none, each at most 255 bytes |
| `ShardWire.SendAttach` | apps/ws_gateway/src/main.rs:293-303 | what is on the wire after an attach, and that nothing is when a field panics |
| `ShardWire.Serve` | crates/mudproto/src/shard.rs:62-183 | reading frames and parsing each gives the parse of each payload, and how the stream ended |
| `ShardWire.RelayAll` | crates/mudproto/src/shard.rs:62-183 | end to end: requests encoded, framed, cut into any reads, read and parsed are the same requests |
| `ShardWire.SendAll` | apps/ws_gateway/src/main.rs:293-303 | attaching one session after another writes exactly the frames of the expected requests |
| `ShardWire.RelayLogins` | apps/ws_gateway/src/main.rs:139-173 | end to end, without the gateway's own functions: whatever the reads, the shard gets the session, bot flag, token and name, and race, class, sex and pronouns all present exactly when one was given, each in its place as the prefix of at most 255 bytes of the trimmed field's encoding |
| `RaftLogs.MaxIndexBounds` | apps/shard_01/src/raftlog.rs:96-130 | the largest index bounds every index in the log and is one of them |
| `RaftLogs.NextIndexIsNewIff` | apps/shard_01/src/raftlog.rs:60-66 | the next index is above every index in the log exactly when the counter has room |
| `RaftLogs.IncreasingIff` | apps/shard_01/src/raftlog.rs:60-87 | indices stay strictly increasing exactly while the saturating counter has room |
| `RaftLogs.RaftLog.Open` | apps/shard_01/src/raftlog.rs:27-37 | opening gives back every entry in order; the counter and the tail are those of the file |
| `RaftLogs.RaftLog.LoadReplay` | apps/shard_01/src/raftlog.rs:96-130 | the replay loop: entries, largest index and the last 200 lines |
| `RaftLogs.RaftLog.PushRecent` | apps/shard_01/src/raftlog.rs:89-94 | the tail keeps the newest 200 lines |
| `RaftLogs.RaftLog.Append` | apps/shard_01/src/raftlog.rs:60-87 | an append adds one line with the index after the largest while the counter has room, and memory stays what reopening would give |
| `RaftLogs.RaftLog.RecentLines` | apps/shard_01/src/raftlog.rs:47-58 | the last n lines, at least one and at most 200 |
| `Groups.GroupFromLog` | apps/shard_01/src/groups.rs:267-278 | a group exists exactly when it was created, with the kind and name of its last creation |
| `Groups.NameFromLog` | apps/shard_01/src/groups.rs:267-278 | a name in any case stands for the last group created with it |
| `Groups.PolicyFromLog` | apps/shard_01/src/groups.rs:300-320 | a policy is the last one set after the group's last creation, unless it was deleted |
| `Groups.DefaultsMean` | apps/shard_01/src/groups.rs:178-215 | the defaults by content: all for the owners, officers and members of administrators; five capabilities to manage the group for other owners and officers; none for other members and guests |
| `Groups.RoleFromLog` | apps/shard_01/src/groups.rs:279-299 | a member's role is the last one set after the group's last creation |
| `Groups.CapsFromLog` | apps/shard_01/src/groups.rs:321-334 | what a role may do is what was last set after the group's last creation, or its kind's default |
| `Groups.GroupStore.Apply` | apps/shard_01/src/groups.rs:267-336 | applying an entry in place |
| `Groups.GroupStore.EffectiveCaps` | apps/shard_01/src/groups.rs:344-362 | effective capabilities are the union of the capabilities in each group, whatever the order |
| `Groups.GrantedFromLog` | apps/shard_01/src/groups.rs:344-390 | a capability is effective in a group exactly when the log gives it to the principal's last role there, or, with no role, in a group for their class in any case, to members |
| `Groups.World.EffectiveCaps` | apps/shard_01/src/main.rs:2790-2797 | so what the groups let a principal do is exactly what the log on file grants in some group |
| `Groups.World.Start` | apps/shard_01/src/main.rs:2483-2489 | starting on a log folds it into the store that was live when it was written |
| `Groups.World.AppendGroup` | apps/shard_01/src/main.rs:2781-2788 | an append writes one line with the next index and keeps the store equal to the replay of the file |
| `ReplayBuffers.KeptIsLongest` | apps/slopmud_web/src/main.rs:1786-1806 | the chunks kept are the longest suffix that fits: a suffix of the chunks fits exactly when it is no longer |
| `ReplayBuffers.LongestNext` | apps/slopmud_web/src/main.rs:1786-1806 | dropping from the front after each push loses nothing that would fit later |
| `ReplayBuffers.KeptText` | apps/slopmud_web/src/main.rs:1786-1806 | whatever is dropped, the chunks left join to the end of all the output, an oversized chunk's tail included |
| `ReplayBuffers.PushedReplays` | apps/slopmud_web/src/main.rs:1786-1806 | pushing an output keeps the chunks the longest suffix that fits and their text the end of all the output |
| `ReplayBuffers.PushedMeans` | apps/slopmud_web/src/main.rs:1786-1806 | after an output of 65536 bytes or more its last 65536 alone are left, and after a shorter one it stands behind as many of the last chunks as fit beside it |
| `ReplayBuffers.WholeIff` | apps/slopmud_web/src/main.rs:1786-1810 | what is kept is all the output exactly when all of it fits |
| `ReplayBuffers.ReplayBuffer.Push` | apps/slopmud_web/src/main.rs:1786-1806 | `buffer_push`: what is left of the buffer after an output, by its bytes, and that it stays the longest suffix that fits |
| `ReplayBuffers.ReplayBuffer.TrimTo` | apps/slopmud_web/src/main.rs:1797-1805 | the loop that drops chunks from the front |
| `ReplayBuffers.ReplayBuffer.Snapshot` | apps/slopmud_web/src/main.rs:1808-1810 | the snapshot is the end of the output, and all of it exactly when all of it fits |
| `WebSessions.KeepsOwners` | apps/slopmud_web/src/main.rs:1637-1742 | a step keeps: a session is owned by at most one call, and not while it is in the map |
| `WebSessions.KeepsNoOrphans` | apps/slopmud_web/src/main.rs:1637-1742 | a step keeps: each session is in the map under its own token, or shut down, or owned |
| `WebSessions.NoSessionIsOrphaned` | apps/slopmud_web/src/main.rs:1637-1742 | in every interleaving each session ever connected is in the map, or shut down, or owned by exactly one call under way |
| `WebSessions.OwnersSettle` | apps/slopmud_web/src/main.rs:1637-1742 | the owner's next step does put the session in the map or shuts it down |
| `WebSessions.AtRestOneSessionEach` | apps/slopmud_web/src/main.rs:1637-1742 | with no call under way a token has at most one session not shut down, and it is the one in the map |
| `WebSessions.ReturnsSessionOfToken` | apps/slopmud_web/src/main.rs:1637-1680 | `get_or_create` returns a session of its token: one found alive, or another's that is now in the map, or its own after the flush |
| `WebSessions.DeadIsReplaced` | apps/slopmud_web/src/main.rs:1640-1652 | whatever happens after a connection has died, `get_or_create` takes its session out instead of returning it |
| `WebSessions.ValidTokenIff` | apps/slopmud_web/src/main.rs:1575-1582 | a token is 16 to 128 letters of ASCII, digits, underscores and hyphens, once trimmed |
| `WebSessions.StartsRefused` | apps/slopmud_web/src/main.rs:1721-1752 | a call fails at once exactly when its token is not valid, and a valid one with an empty line is accepted at once |
| `WebSessions.MovedKeepsLine` | apps/slopmud_web/src/main.rs:1670-1677 | a step takes each line to one place and leaves every other where it was |
| `WebSessions.OriginKeepsLine` | apps/slopmud_web/src/main.rs:1670-1677 | and no line appears from nowhere: each was in one place before |
| `WebSessions.EveryLineInOnePlace` | apps/slopmud_web/src/main.rs:1721-1761 | in every interleaving each accepted line is in exactly one place: with its call, in its token's queue, in one flush list, with one session, or discarded; and always one of its own token |
| `WebSessions.DeferredLinesKeepOrder` | apps/slopmud_web/src/main.rs:1670-1677 | queues and flush lists, and what each session has been flushed, are in the order the lines were deferred |
| `WebSessions.StrandedIff` | apps/slopmud_web/src/main.rs:1670-1677 | in each step lines are left behind a session exactly by a deferral that comes after its maker took the queue, and until the session is removed or the queue discarded |
| `WebSessions.WaitingAtRestIff` | apps/slopmud_web/src/main.rs:1721-1761 | with no call under way, a token with a session has lines waiting exactly when one was deferred late and the token was not freed since |
| `WebSessions.NothingWaitsIfNeverLate` | apps/slopmud_web/src/main.rs:1721-1761 | so if no line is deferred late, none is waiting once no call is under way |
| `WebSessions.LateDeferIsLeftWaiting` | apps/slopmud_web/src/main.rs:1752-1760 | for every token there is a run in which a line is deferred late and left waiting beside a live session |
| `WebManager.WebSessionManager.GetOrCreate` | apps/slopmud_web/src/main.rs:1637-1680 | alone: a live session as it is; otherwise the dead one shut down and a new one in its place, given all waiting lines in order |
| `WebManager.WebSessionManager.SweepOnce` | apps/slopmud_web/src/main.rs:1682-1711 | alone: exactly the sessions that, by what was read of each when it was examined, had no websocket and were idle for the whole time to live or dead are taken out and shut down, and no other session changes |
| `WebManager.StaleMeans` | apps/slopmud_web/src/main.rs:1682-1711 | in terms of what the sweep reads: a session with a websocket is never taken out, one without and with a dead connection always, and a live one without exactly when `detached_at + ttl <= now` |
| `WebManager.SweepMeans` | apps/slopmud_web/src/main.rs:1682-1711 | and that is what stays mapped and what is shut down |
| `WebManager.WebSessionManager.Logout` | apps/slopmud_web/src/main.rs:1721-1742 | alone: waiting lines discarded, the session taken out and shut down, and whether there was one |
| `WebManager.WebSessionManager.SendOrDefer` | apps/slopmud_web/src/main.rs:1744-1761 | alone: a line goes to the token's session or the end of its queue; a bad token is refused, an empty line accepted and dropped |
| `WebAlone.RanIsRun` | apps/slopmud_web/src/main.rs:1637-1761 | the steps of one call with none of another's in between are a run of the machine |
| `WebAlone.GetAlone` | apps/slopmud_web/src/main.rs:1637-1680 | every such run of `get_or_create` to its end, on a live session, returns it and changes nothing |
| `WebAlone.CreateAlone` | apps/slopmud_web/src/main.rs:1637-1680 | and otherwise does what the operation as written does, connected or refused |
| `WebAlone.SweepAlone` | apps/slopmud_web/src/main.rs:1682-1711 | so does every such run of `sweep_once` that lists the map and finds the same sessions idle or dead |
| `WebAlone.LogoutAlone` | apps/slopmud_web/src/main.rs:1721-1742 | so does every such run of `logout` |
| `WebAlone.SendAlone` | apps/slopmud_web/src/main.rs:1744-1761 | so does every such run of `send_or_defer` |
| `WebAlone.EndsAlone` | apps/slopmud_web/src/main.rs:1637-1761 | and every call that is left alone ends, whatever it is told about connections, listings and idle sessions |
| `WebAttach.WebSession.Join` | apps/slopmud_web/src/main.rs:1972-1985 | the region of `attach` under the lock: a new id, whom to cancel, what to replay |
| `WebAttach.WebSession.DetachWs` | apps/slopmud_web/src/main.rs:1948-1954 | `detach_ws` removes the attachment only when the id is its own |
| `WebAttach.WebSession.MarkTcpDead` | apps/slopmud_web/src/main.rs:1912-1925 | `mark_tcp_dead` takes the websocket only the first time |
| `WebAttach.WebSession.Shutdown` | apps/slopmud_web/src/main.rs:1901-1910 | `shutdown` takes the websocket if the lock is free |
| `WebAttach.WebSession.DeliverOutput` | apps/slopmud_web/src/main.rs:1937-1946 | output is buffered, then sent to whoever is attached |
| `WebAttach.IdsFollowAttaching` | apps/slopmud_web/src/main.rs:1972-1983 | in every interleaving whoever is attached was the last to attach, with `attach_seq` as id, and ids rise exactly until the counter saturates |
| `WebAttach.LateDetachRemovesNewerIff` | apps/slopmud_web/src/main.rs:1948-1954 | a late detach removes a newer attachment exactly when its id is the counter's last value |
| `WebAttach.LateDetachHappens` | apps/slopmud_web/src/main.rs:1901-1988 | a run of 2^64 joins reaches that id, and a late detach removes the newer websocket |
| `WebAttach.EveryAttachmentIsLetGo` | apps/slopmud_web/src/main.rs:1901-1988 | until the counter saturates, each attachment not current has left, been cancelled, or is about to be cancelled by the call that replaced it |
| `WebAttach.TargetsAreCancelled` | apps/slopmud_web/src/main.rs:1901-1988 | a call that is about to cancel an attachment does so in its next step, and until then nothing stops it |
| `WebAttach.DeadHolderIff` | apps/slopmud_web/src/main.rs:1901-1988 | in every interleaving, a websocket is attached to a session whose connection is dead exactly when it joined after the death |
| `WebAttach.LateJoinStays` | apps/slopmud_web/src/main.rs:1901-1988 | no death lets go of such a websocket: it stays until it closes, another takes its place, the session is shut down, or a detach hits it at the saturated id |
| `WebAttach.LateJoinHappens` | apps/slopmud_web/src/main.rs:1949-1974 | the run of check, death and join that leads there |
| `WebDelivery.ActedKeepsInv` | apps/slopmud_web/src/main.rs:1937-2039 | each step of calls, output, sending and flushing keeps every websocket's account of outputs right |
| `WebDelivery.EachOutputOnce` | apps/slopmud_web/src/main.rs:1937-2039 | in every interleaving a websocket's snapshot is the retained end of the outputs before it attached, and what it is sent live, with the one still to be sent, is the outputs while it was attached, each once and in order |
| `WebDelivery.AttachedSeesTheEnd` | apps/slopmud_web/src/main.rs:1937-2039 | so once up to date the websocket attached has been sent the end of all the output, and all of it exactly when what came before it attached fits in the buffer |
| `WebDelivery.ReplayFirstIff` | apps/slopmud_web/src/main.rs:1937-2039 | when a websocket attaches, some schedule sends it new output before the replay exactly when the session has output something before |
| `AreaGraphs.Visit` | scripts/area_files_validate.py:249-262 | the breadth-first search visits exactly the rooms that can be reached from the start |
| `AreaGraphs.VisitExits` | scripts/area_files_validate.py:254-262 | one room's exits: each target not yet seen is marked and queued once |
| `AreaGraphs.IndexRooms` | scripts/area_files_validate.py:135-153 | rooms are accepted exactly when ids are their own and not empty and clusters are known |
| `AreaGraphs.CheckPortals` | scripts/area_files_validate.py:200-240 | each portal of the zone has a room in its cluster whose first exit to the connected portal has the right length |
| `AreaGraphs.Validate` | scripts/area_files_validate.py:83-265 | the verdict on header, rooms, exits and portals, the clusters under budget, and exactly the rooms that cannot be reached |
| `AreaGraphs.AcceptedMeans` | scripts/area_files_validate.py:83-240 | all that is asked of an accepted file, one thing after the other: header, rooms, start, exits, and portals by their first exit |
| `AreaGraphs.CountIs` | scripts/area_files_validate.py:242-248 | the count that a budget is compared with is the number of rooms of the cluster |
| `RoomNumbers.ValueInvertsDigits` | scripts/area_files_budgetfill.py:305-305 | reading a number back inverts writing it |
| `RoomNumbers.NumberReadsBack` | scripts/area_files_budgetfill.py:348-348 | the number can be read back from a padded id, so different numbers give different ids |
| `RoomNumbers.DigitsMean` | scripts/area_files_budgetfill.py:305-305 | a number is written in the ten digits, tens before ones, without a leading zero |
| `RoomNumbers.ZFillMeans` | scripts/area_files_budgetfill.py:348-348 | padding puts zeros in front, as many as are missing |
| `RoomNumbers.MaxNumericSuffix` | scripts/area_files_budgetfill.py:205-213 | the largest number in use bounds all, and is one of them unless zero |
| `RoomNumbers.SeedNumber` | scripts/area_files_budgetfill.py:313-317 | the search for a seed id ends with the number after the largest in use, and its id is new |
| `RoomNumbers.FillerIds` | scripts/area_files_budgetfill.py:345-353 | the search for filler ids ends with exactly the ids numbered on from the largest in use, all new and different |
| `AreaFill.AnchorSpec` | scripts/area_files_budgetfill.py:161-181 | an anchor is a room of the area, and is missing exactly when the cluster is empty and has no key room |
| `AreaFill.AnchorMeans` | scripts/area_files_budgetfill.py:161-181 | the room picked: the first key room of the cluster in the area; without one, the first portal of the cluster; without that, its first room |
| `AreaFill.HubMeans` | scripts/area_files_budgetfill.py:184-202 | the hub: the first key room of the area with a hub's tag; without one, the start room if it is in the area; without that, the first room |
| `AreaFill.Area.PickAnchor` | scripts/area_files_budgetfill.py:161-181 | a key room of the cluster, else a portal room, else its first room |
| `AreaFill.Area.PickHub` | scripts/area_files_budgetfill.py:184-202 | a hub key room, else the start room, else the first room: always found |
| `AreaFill.Area.EnsureExit` | scripts/area_files_budgetfill.py:216-228 | the exit is appended unless the room has one with that direction and target |
| `AreaFill.ReachesGrows` | scripts/area_files_budgetfill.py:355-378 | filling takes no walk away |
| `AreaFill.ChainIsTied` | scripts/area_files_budgetfill.py:355-378 | every room of a chain hung on an anchor can be reached from it and can walk back |
| `AreaFill.ChainIsSound` | scripts/area_files_budgetfill.py:319-378 | adding a chain keeps all rooms and exits, keeps ids unique if they were, and adds exits only to rooms of the area |
| `AreaFill.LoopGoesRound` | scripts/area_files_budgetfill.py:363-378 | with the anchor at both ends, each filler leads back to the one before it and ahead to the next |
| `AreaFill.HungLoop` | scripts/area_files_budgetfill.py:355-378 | hanging a loop on a room: nothing is lost, the cluster has so many rooms more, and each is tied to the room |
| `AreaFill.HungSeed` | scripts/area_files_budgetfill.py:319-336 | hanging a seed on the hub: nothing is lost, and one can walk to the hub and back |
| `AreaFill.GrownIsSound` | scripts/area_files_budgetfill.py:290-380 | what a cluster lacks, added: so many rooms more, nothing lost, and hung on the room picked or on the hub and the seed |
| `AreaFill.GrownIds` | scripts/area_files_budgetfill.py:303-353 | the ids of the new rooms: the prefix and the numbers after the largest in use, all of one length, the last without zeros before it, but for one before a single digit |
| `AreaFill.GrownLeads` | scripts/area_files_budgetfill.py:319-360 | the named ways to the new rooms: from the room picked to the loop, or from the hub to the seed, back from there, and from the seed to the loop |
| `AreaFill.SoundTransitive` | scripts/area_files_budgetfill.py:290-380 | so does adding one chain after another |
| `AreaFill.SoundKeepsAllReached` | scripts/area_files_budgetfill.py:290-380 | if every room could be reached from the start, every old and new room can |
| `AreaFill.SoundKeepsAcceptedIff` | scripts/area_files_budgetfill.py:290-380 | an area the validator accepts is accepted again exactly when no room that new rooms were hung on has a blank id |
| `AreaFill.FirstKeyStays` | scripts/area_files_budgetfill.py:161-181 | rooms added to other clusters change which key room is picked only to one of them, and not at all if no key room outside the area has an id like theirs |
| `AreaFill.HooksDecide` | scripts/area_files_budgetfill.py:290-380 | whether a room hung on has a blank id is decided by the area as it was: by the rooms its clusters under budget would pick |
| `AreaFill.HungAreOldOrPlain` | scripts/area_files_budgetfill.py:290-380 | new rooms are hung only on old rooms or on rooms with plain ids |
| `AreaFill.Area.AddSeed` | scripts/area_files_budgetfill.py:308-343 | an empty cluster gets one seed room behind the others, with an exit to it from the last room with the hub's id, and one back; one can walk both ways |
| `AreaFill.Area.AddLoop` | scripts/area_files_budgetfill.py:355-378 | the fillers' loop is added behind the others, with an exit to it from the last room with the anchor's id, and each can be reached from the anchor and walk back |
| `AreaFill.Area.FillCluster` | scripts/area_files_budgetfill.py:290-380 | a cluster gets exactly the rooms it lacks, with ids numbered on from the largest in use, hung on the room picked or else on the hub and the seed, and no other cluster changes |
| `AreaFill.BudgetFill` | scripts/area_files_budgetfill.py:269-389 | the area goes through the stages of its clusters in order, each grown by exactly what it lacks; each ends with the larger of its old count and its target, and only a file without rooms fails |
| `AreaFill.FillAndValidate` | scripts/area_files_validate.py:83-265 | filling an accepted area that is all reachable gives one that validates exactly when no cluster under budget would pick a room with a blank id (given that no key room outside the area has an id like those of new rooms), and then with no cluster under budget and no room unreachable |
| `AreaFill.BlankRoomIsRefused` | scripts/area_files_validate.py:172-189 | it happens: a lone room with a blank id is accepted, and not any more once filled |
| `Names.NormalIsStable` | crates/slopmud/src/hold.rs:26-63 | trimming and normalising a name again changes nothing |

## Left out

- CIDR text, and IPv6 text forms: a prefix is an address and a length, and its string form stands for itself.
- JSON, FlatBuffers, files, sockets and channels: messages are values, files are sequences of records, a channel hands over what was sent.
- Failing reads and writes, partly written lines and cancelled tasks: the ring, the logs and the sessions are modelled over successful steps.
- Writing the leader's state to disk, and the texts in its status and apply reports: the two maps of reports are kept, nothing reads them.
- The enforcer's status page: the addresses a DNS check found, the time of the last check and the exemption file's state.
- Lines in a nearline file that are not records, and changing the ring's configuration between runs.
- BanEnforcer.Enforcer.CheckDns: takes the DNS result as given; resolving the name and comparing addresses is not modelled.
- WebSessions.NoSessionIsOrphaned: which sessions a sweep takes for idle or dead is any choice, not a clock; the results hold for every choice.
- WebSessions.EveryLineInOnePlace: a line counts as given to a session once it is sent on the session's channel, although a session that has been shut down may not write it.
- WebAttach.EveryAttachmentIsLetGo: pings and the websocket's own frames are not steps.
- WebDelivery.EachOutputOnce: sending is putting on the websocket's channel; a websocket that fails meanwhile just leaves, and what its channel still holds is lost with it.
- Sessions without a resume token: they belong to one websocket and share nothing.
- Groups.World.EffectiveCaps: the capabilities that authentication adds to a character's are not modelled.
- RoomNumbers.MaxNumericSuffix: digits are the ASCII digits; Python's `isdigit` accepts more, and on some of these, such as superscripts, `int` raises and the script fails.
- AreaFill.BudgetFill: entries that are not rooms are not modelled, and the token in new ids is given for each cluster instead of chosen by the naming heuristics; the results hold for every token.
- AreaGraphs.Validate: values of the wrong type in the file, and the files of other zones, are not modelled.
- Capability and role names as text, and `group_by_name`: single lookups.
- The OAuth service, the compliance portal, metrics, bots, world simulation and the web pages.
