# P2PGame core, modelled in Dafny

P2PGame is a draft of a peer-to-peer lockstep game session written in C#. This project models its core in Dafny and proves properties of the model. The core has four parts:

- **Message frames** (`P2PMessage.cs`, module `Message` in `message.dfy`). A frame is a 5-byte little-endian header followed by the payload:
  - a 16-bit message number;
  - a signed 16-bit length that counts the type byte, so it equals the payload size plus one;
  - a one-byte type.

  `Serialize` fills a fresh array by successive copies. `Deserialize` reads one frame at an index and returns the index just past it, so consecutive frames can be peeled from one buffer. Every exception inside `Deserialize` becomes a null result.
- **Peer records** (`Peer.cs`, module `Peers` in `peer.dfy`). A record is:
  - a one-byte name length;
  - the name bytes;
  - 4 IPv4 address bytes;
  - the port.

  `Serialize` writes the port as 4 bytes; `Deserialize` reads only 2 and reports an `outIndex` of twice the start index plus the bytes consumed. The model keeps both asymmetries and states them as lemmas. `SendDataToPeer`'s framing is modelled too: the length field is the payload size plus one, cast to `short`.
- **The lockstep engine** (`Program.cs`, module `Lockstep` in `lockstep.dfy`). Each local user has a `PeerState`:
  - an int32 accumulator;
  - the names of the peers it synchronises with;
  - a queue of the states it expects its peers to report;
  - queues of local and outgoing game events;
  - per-peer queues of reported states and of event deltas.

  `CheckGameStates` is a frame barrier. It advances only when every listed peer has reported a state. It then drops every peer whose state differs from the expected one, and folds the queued deltas into the accumulator with C#'s unchecked int32 addition. Game data is a stream of tagged int32 pairs. Each step is specified by a function on a value view of the state (`UserView`: `Evict`, `FoldEvents`, `Advance`), and lemmas state what an advance does.
- **The session roster** (`P2PNetClass.cs`, module `Session` in `session.dfy`). A host accepts joiners: it tells each newcomer who is already in the game and tells everyone about the newcomer. A joiner learns the game from the host and completes handshakes with the other peers. Handlers stage peers in `peersToAdd` and `pendingPeersToRemove`, and `PollMessages` commits the staging in one step at the end. Sends are appended to an `outbox`, and the fired C# events are recorded in a ghost log `events`.

`wire.dfy` (module `Wire`) holds what the codecs share:
- the integer widths;
- the unchecked `short` and `int` conversions;
- the little-endian `BitConverter` layouts.

## Model

| member | source | states |
|---|---|---|
| Wire.ToInt16 | P2PGame/Peer.cs:112 | the `(short)` cast keeps the value modulo 2^16 and is the identity on values that fit |
| Wire.ToInt32Congruent | P2PGame/Program.cs:194 | C#'s unchecked int32 result differs from the exact sum by a multiple of 2^32 |
| Wire.ToInt32Absorbs | P2PGame/Program.cs:191-199 | wrapping after every addition gives the same int32 as wrapping the whole sum once |
| Wire.U16Bytes | P2PGame/P2PMessage.cs:32 | `BitConverter.GetBytes` of a ushort is 2 bytes that `ToUInt16` reads back as the value |
| Wire.I16Bytes | P2PGame/P2PMessage.cs:35 | `BitConverter.GetBytes` of a short is 2 bytes that `ToInt16` reads back as the value |
| Wire.I32Bytes | P2PGame/Program.cs:265-266 | the 4 bytes written for an int read back as that int |
| Message.Empty | P2PGame/P2PMessage.cs:16-24 | `Empty()` holds exactly for the message whose length, number and type are 0 and whose data is null |
| Message.Frame | P2PGame/P2PMessage.cs:29-41 | a serialized frame is 5 + payload bytes long: the number at 0-1, the length at 2-3, the type's low byte at 4, the payload from 5 on |
| Message.Serialize | P2PGame/P2PMessage.cs:26-44 | the array filled by the three copies and the type byte is exactly the frame |
| Message.CopyTo | P2PGame/P2PMessage.cs:33 | the copy overwrites exactly the target window and leaves the rest of the array as it was |
| Message.ParseFrame | P2PGame/P2PMessage.cs:46-67 | a failure returns the start index; a success yields exactly messageLength - 1 payload bytes copied from index + 5, and outIndex = index + 4 + messageLength |
| Message.Deserialize | P2PGame/P2PMessage.cs:46-67 | the step-by-step decoder, with each throwing step returning null and the start index, computes exactly the frame parse |
| Message.DeserializeAt | P2PGame/P2PMessage.cs:69-73 | the 2-argument overload is the 3-argument form at the given index |
| Message.DeserializeStart | P2PGame/P2PMessage.cs:75-79 | the 1-argument overload is the 3-argument form at index 0 |
| Message.FramePeel | P2PGame/P2PMessage.cs:52-59 | a well-formed frame is decoded from any position of any buffer, and outIndex lands on the byte after it |
| Message.FrameRoundTrip | P2PGame/P2PMessage.cs:26-60 | deserializing a serialized frame (length = payload + 1, type below 256) recovers every field and consumes the whole frame |
| Message.TwoFramesPeel | P2PGame/P2PMessage.cs:59 | two consecutive frames are decoded one after the other, the first outIndex being the start of the second |
| Message.TruncatedFrameRejected | P2PGame/P2PMessage.cs:62-66 | every proper prefix of a frame is rejected with outIndex = index |
| Message.ParseFrameFails | P2PGame/P2PMessage.cs:52-66 | decoding fails exactly for a negative index, a buffer too short for the header, a length below 1, or a payload past the end |
| Message.DecodedNeverEmpty | P2PGame/P2PMessage.cs:56 | a decoded message carries a payload array, so `Empty()` is false for it |
| Peers.Peer.constructor | P2PGame/Peer.cs:26-29 | a new peer has the endpoint and default values for every other field |
| Peers.Peer.Serialize | P2PGame/Peer.cs:49-61 | the bytes appended are the record of the encoded name, the address and the 4-byte port |
| Peers.RecordBytes | P2PGame/Peer.cs:51-60 | a record is 1 + name + address + 4 bytes: the name length truncated to a byte, the name, the address, then an int32 port |
| Peers.AsciiString | P2PGame/Peer.cs:69 | ASCII decoding maps each byte to a character, with bytes above 0x7F decoding to '?' |
| Peers.AsciiBytes | P2PGame/Peer.cs:53 | ASCII encoding of a 7-bit name decodes back to that name |
| Peers.ParseRecord | P2PGame/Peer.cs:63-94 | decoding fails exactly when the index or the length byte, name, address or 2-byte port falls outside the buffer; on success it consumes 1 + n + 4 + 2 bytes and reports outIndex = 2 * index + consumed |
| Peers.Peer.Deserialize | P2PGame/Peer.cs:63-94 | the cursor-walking decoder returns null and the start index on failure, and otherwise a fresh peer with the decoded name, address and port |
| Peers.Peer.DeserializeAt | P2PGame/Peer.cs:96-100 | the 2-argument overload is the 3-argument form at the given index |
| Peers.Peer.DeserializeStart | P2PGame/Peer.cs:102-106 | the 1-argument overload is the 3-argument form at index 0 |
| Peers.RecordNearRoundTrip | P2PGame/Peer.cs:53-58 | a 7-bit name shorter than 256 bytes, an IPv4 address and a port come back from the record, but decoding stops 2 bytes before its end |
| Peers.RecordOutIndexOvershoots | P2PGame/Peer.cs:67-85 | a record read at a non-zero index reports outIndex past the record's end by the start index |
| Peers.LongNameTruncated | P2PGame/Peer.cs:54 | a 256-byte name writes a length byte of 0, so the decoded name is empty and the address is read from the name bytes |
| Peers.EqualsIsEquivalence | P2PGame/Peer.cs:39-47 | `Equals` compares player numbers, so it is reflexive, symmetric and transitive |
| Peers.DataMessage | P2PGame/Peer.cs:110-114 | the message sent carries exactly the bytes and the type, number 0, and length bytes + 1 when that fits in a short |
| Peers.Peer.SendDataToPeer | P2PGame/Peer.cs:108-119 | the bytes written are the frame of that message |
| Peers.SendDataRoundTrip | P2PGame/Peer.cs:110-117 | a payload under 32767 bytes sent this way decodes back to the same type and payload, consuming the whole frame |
| Peers.SendDataLengthOverflow | P2PGame/Peer.cs:112 | from 32767 payload bytes the length wraps negative and the receiver rejects the frame |
| Lockstep.Accumulate | P2PGame/Program.cs:191-195 | draining a queue into the accumulator adds the whole queue, wrapped once to int32 |
| Lockstep.DrainQueue | P2PGame/Program.cs:191-199 | the dequeue-and-add loop computes that accumulation |
| Lockstep.GameDataBytes | P2PGame/Program.cs:259-277 | game data is 8 bytes, or 16 when an event is queued |
| Lockstep.Enqueue | P2PGame/Program.cs:242-248 | appending to one name's queue leaves every other queue and the key set unchanged |
| Lockstep.EntriesStep | P2PGame/Program.cs:236-250 | a GameState tag contributes its value to the states and nothing to the deltas, and a GameEvent tag the reverse |
| Lockstep.GameDataRoundTrip | P2PGame/Program.cs:234-272 | parsing what `CreateGameData` wrote yields the state entry, then the event entry if one was queued |
| Lockstep.GameDataParsedBack | P2PGame/Program.cs:234-272 | parsing `CreateGameData`'s output enqueues exactly the current state and, if one was queued, the first event |
| Lockstep.GetGameStateFromBytes | P2PGame/Program.cs:309-312 | the result is the int32 in the first 4 bytes |
| Lockstep.GameStateFromBytesReadsTag | P2PGame/Program.cs:309-312 | applied to game data, it returns the GameState tag 0 and not the state |
| Lockstep.Sweep | P2PGame/Program.cs:160-177 | the eviction loop keeps the set of queue keys, and every survivor was listed |
| Lockstep.DrainPeers | P2PGame/Program.cs:186-196 | the drain loop keeps the set of queue keys |
| Lockstep.Evict | P2PGame/Program.cs:159-177 | the eviction half of an advance preserves the invariant that every listed name has its queues |
| Lockstep.FoldEvents | P2PGame/Program.cs:182-200 | the folding half of an advance preserves that invariant |
| Lockstep.ResetQueues | P2PGame/Program.cs:297-303 | each given name gets an empty queue, and every other entry is kept |
| Lockstep.ReadyCanAdvance | P2PGame/Program.cs:143-167 | with distinct names, an open barrier and an expected state, no `Dequeue` of the advance can throw |
| Lockstep.SweepKeepsOrder | P2PGame/Program.cs:162-176 | survivors keep their relative order: `RemoveAt(i)` followed by `--i` skips no entry |
| Lockstep.SweepSurvivors | P2PGame/Program.cs:166-176 | with distinct names, a peer stays exactly when its dequeued state equals the expected one |
| Lockstep.SweepDequeuesFront | P2PGame/Program.cs:166-167 | each listed peer's state queue loses exactly its front, and no other queue changes |
| Lockstep.DrainPeersSum | P2PGame/Program.cs:186-196 | with distinct names, the accumulator grows by the sum of the listed peers' delta queues, wrapped once |
| Lockstep.DrainPeersEmpties | P2PGame/Program.cs:191-195 | listed peers' delta queues end empty and every other queue is unchanged |
| Lockstep.EvictEffect | P2PGame/Program.cs:159-177 | the eviction half dequeues the expected state, keeps exactly the matching peers in order and without duplicates, and dequeues one state per listed peer |
| Lockstep.FoldEventsEffect | P2PGame/Program.cs:182-200 | the folding half adds the listed deltas and then the local ones, wrapped once; the drained queues end empty and the others keep their deltas |
| Lockstep.AdvanceEffect | P2PGame/Program.cs:157-200 | after an advance, only the survivors' and the local deltas are folded in; an evicted peer's deltas stay queued |
| Lockstep.OneAdvancePerBatch | P2PGame/Program.cs:141-200 | when every listed peer reported exactly one state, one advance consumes them, and the barrier stays closed until each survivor reports again |
| Lockstep.SubsequenceNoDuplicates | P2PGame/Program.cs:173 | removing names from a list of distinct names keeps them distinct |
| Lockstep.PeerState.constructor | P2PGame/Program.cs:91-97 | a new user state has every queue, map and list empty |
| Lockstep.PeerState.GameStarted | P2PGame/Program.cs:211-216 | the accumulator becomes the seed, and nothing else changes |
| Lockstep.PeerState.PlayerJoined | P2PGame/Program.cs:279-286 | the name is appended to `otherPeers` with fresh empty state and delta queues |
| Lockstep.PeerState.JoinGame | P2PGame/Program.cs:293-307 | `otherPeers` becomes exactly the given names, in order, each with fresh empty queues |
| Lockstep.PeerState.CreateGameData | P2PGame/Program.cs:259-277 | the output is the game data of the current state and the queue, and exactly one queued event is removed when there is one |
| Lockstep.PeerState.Tick | P2PGame/Program.cs:121-131 | a tick queues the new event for sending and for local folding, records the current state as expected, and sends the resulting game data |
| Lockstep.PeerState.ParseGameData | P2PGame/Program.cs:223-257 | the sender's reported states go to its state queue and its deltas to its event queue, in stream order, and nothing else changes |
| Lockstep.PeerState.HasAllStates | P2PGame/Program.cs:145-152 | the result is true exactly when every listed peer has a state queued |
| Lockstep.PeerState.DropDivergentPeers | P2PGame/Program.cs:159-177 | the `RemoveAt`/`--i` loop computes exactly the eviction half of an advance |
| Lockstep.PeerState.ApplyGameEvents | P2PGame/Program.cs:184-199 | the drain loops compute exactly the folding half of an advance |
| Lockstep.Simulation.FreshStates | P2PGame/Program.cs:89-97 | every user gets its own fresh, empty state |
| Lockstep.Simulation.constructor | P2PGame/Program.cs:75-97 | the engine starts at frame 0 with one distinct empty state per user |
| Lockstep.Simulation.AllReported | P2PGame/Program.cs:141-153 | the result is true exactly when every user has a state queued from every peer it lists |
| Lockstep.Simulation.DropAllDivergent | P2PGame/Program.cs:157-178 | every user's state is evicted once, and no user's state is touched by another's step |
| Lockstep.Simulation.ApplyAllEvents | P2PGame/Program.cs:182-200 | every user's deltas are folded once, and no user's state is touched by another's step |
| Lockstep.Simulation.CheckGameStates | P2PGame/Program.cs:139-204 | the result is whether the barrier was open; on a stall no user state and not the frame counter changes; otherwise every user advances once and the counter goes up by exactly 1 |
| Session.LoggedInMembers | P2PGame/P2PNetClass.cs:256-264 | the `if (peer.isLoggedIn)` filter keeps exactly the logged-in peers of the list |
| Session.CountLoggedIn | P2PGame/P2PNetClass.cs:253-254 | `Count(p => p.isLoggedIn)` is the number of peers the filter keeps |
| Session.Infos | P2PGame/P2PNetClass.cs:260-262 | record i describes peer i: its address, listening port and name |
| Session.LoggedInRecordsAreInfos | P2PGame/P2PNetClass.cs:256-274 | the records written are exactly those of the logged-in peers, in list order |
| Session.InformationDescribesLoggedIn | P2PGame/P2PNetClass.cs:252-274 | the game information holds the host name, a count equal to the number of logged-in peers in `peers` and `peersToAdd`, and exactly their records, `peers` first |
| Session.RecordsCounted | P2PGame/P2PNetClass.cs:253-274 | the count written equals the number of records that follow |
| Session.Records | P2PGame/P2PNetClass.cs:256-264 | one `foreach` writes exactly the records of the logged-in peers |
| Session.ServerInformation | P2PGame/P2PNetClass.cs:252-274 | the payload written is exactly the game information of the two lists |
| Session.LoggedInSends | P2PGame/P2PNetClass.cs:307-313 | one send to each logged-in peer of the list, in order, and to no other peer |
| Session.RemoveMatching | P2PGame/P2PNetClass.cs:193 | `RemoveAll` keeps, in order, exactly the pending peers equal to no staged peer |
| Session.StagedPeersRemoved | P2PGame/P2PNetClass.cs:193 | no staged peer remains pending after the commit |
| Session.SamePlayerNumberRemoved | P2PGame/P2PNetClass.cs:193 | because `Contains` compares player numbers, a pending peer sharing its player number with a staged one is removed too |
| Session.FirstEqualIndex | P2PGame/P2PNetClass.cs:207 | `List.Remove` finds the first peer `Equals` to the argument, and none before it |
| Session.FirstNamedIndex | P2PGame/P2PNetClass.cs:388 | the first peer with the name, and none before it |
| Session.FirstAtIndex | P2PGame/P2PNetClass.cs:212 | the first peer at the endpoint, and none before it |
| Session.FirstIndexOf | P2PGame/P2PNetClass.cs:418 | the first occurrence of the name, found exactly when the name is in the list |
| Session.RemoveFirst | P2PGame/P2PNetClass.cs:420 | `List<string>.Remove` removes one occurrence of a present name and leaves a list without it unchanged; every other name stays in the list exactly when it was there |
| Session.StillExpected | P2PGame/P2PNetClass.cs:412-424 | the expected names no handshake of the given peers' messages carries, that is, those still expected once those handshakes are read |
| Session.ConnectsExpectedMonotone | P2PGame/P2PNetClass.cs:412-424 | a handshake that names an expected user still does so when more users are expected |
| Session.Union | P2PGame/P2PNetClass.cs:375 | `peers.Union(peersToAdd)` holds every peer of both lists, each object once, and nothing else, in the order of first appearance in `peers` followed by `peersToAdd` |
| Session.DistinctInOrder | P2PGame/P2PNetClass.cs:375 | the distinct peers keep the order of their first appearance, as `Enumerable.Union` yields them |
| Session.ConnectToListed | P2PGame/P2PNetClass.cs:349-370 | exactly peerCount new distinct peers (none for a negative count), each at its record's address and port, named, logged in and connected, and each sent this user's name |
| Session.Login | P2PGame/P2PNetClass.cs:290-294 | the peer takes the name and port of its request, and which peers are logged in does not change |
| Session.Promote | P2PGame/P2PNetClass.cs:334 | the peer becomes logged in, and nothing else about it changes |
| Session.Announce | P2PGame/P2PNetClass.cs:299-326 | the newcomer's record goes to every logged-in peer of both lists, then the game information goes to the newcomer |
| Session.Welcome | P2PGame/P2PNetClass.cs:283-334 | the newcomer gets its name, port and login; the sends follow the lists as they were before, and a newcomer not yet logged in never hears its own record |
| Session.P2PNetClass.Host | P2PGame/P2PNetClass.cs:51-68 | a host starts with every list empty, as host, not in game |
| Session.P2PNetClass.Joiner | P2PGame/P2PNetClass.cs:70-90 | a joiner starts, not as host, with exactly its server peer in `peers`, and that peer has been sent the join request |
| Session.P2PNetClass.ConnectToServer | P2PGame/P2PNetClass.cs:106-125 | a fresh connected server peer is appended to `peers` and sent the listening port and user name |
| Session.P2PNetClass.ConnectToPeerAsWritten | P2PGame/P2PNetClass.cs:127-143 | the new peer is appended to `peers`, but the handshake goes to the server peer and the new peer is sent nothing |
| Session.P2PNetClass.ConnectToPeer | P2PGame/P2PNetClass.cs:127-143 | the new peer is appended to `peers` and is itself sent the handshake |
| Session.P2PNetClass.AcceptPeer | P2PGame/P2PNetClass.cs:96-100 | an accepted connection becomes a pending peer, connected and not logged in |
| Session.P2PNetClass.AddPeer | P2PGame/P2PNetClass.cs:200-203 | the peer is appended to `peers`, and nothing else changes |
| Session.P2PNetClass.RemovePeer | P2PGame/P2PNetClass.cs:205-208 | the first peer with the argument's player number leaves `peers`, and nothing else changes |
| Session.P2PNetClass.GetPeerFromIP | P2PGame/P2PNetClass.cs:210-213 | the first peer at that endpoint when one exists, otherwise none |
| Session.P2PNetClass.GetPeerFromName | P2PGame/P2PNetClass.cs:215-218 | the first peer with that name when one exists, otherwise none |
| Session.P2PNetClass.SendData | P2PGame/P2PNetClass.cs:226-232 | one send to every peer in `peers`, logged in or not, in order |
| Session.P2PNetClass.StartGame | P2PGame/P2PNetClass.cs:234-244 | the seed's 4 bytes are sent to every peer |
| Session.P2PNetClass.SendServerInformation | P2PGame/P2PNetClass.cs:246-279 | the destination is sent the game information of `peers` and `peersToAdd` |
| Session.P2PNetClass.OnConnectionRequest | P2PGame/P2PNetClass.cs:283-337 | the peer takes its name and port; every previously logged-in peer hears its record; it receives the game information; both events fire; it is marked logged in and staged from pending into `peers`; a peer not logged in before is never sent its own record |
| Session.P2PNetClass.Admit | P2PGame/P2PNetClass.cs:328-336 | the sends go out, both events fire, and the peer is staged for removal from pending and addition to `peers` |
| Session.P2PNetClass.OnServerInformationReceived | P2PGame/P2PNetClass.cs:340-376 | the server peer takes the host name; exactly peerCount new peers are staged, each logged in, connected and sent this user's name; `JoinedGame` gets `peers` united with `peersToAdd` |
| Session.P2PNetClass.JoinListed | P2PGame/P2PNetClass.cs:369-375 | the new peers are staged for `peers` and `JoinedGame` fires with the union |
| Session.P2PNetClass.OnPlayerJoined | P2PGame/P2PNetClass.cs:378-407 | a pending peer with that name is staged for promotion; otherwise the name is appended to `expectedPeers` and `PlayerJoined` fires |
| Session.P2PNetClass.OnPeerConnected | P2PGame/P2PNetClass.cs:409-429 | the peer takes its name; if the name was expected, one occurrence leaves `expectedPeers` and the peer is staged for promotion, otherwise it stays pending and nothing else changes |
| Session.P2PNetClass.OnGameStarted | P2PGame/P2PNetClass.cs:431-443 | `GameStarted` fires with the payload's first int32 |
| Session.P2PNetClass.HandlePendingMessage | P2PGame/P2PNetClass.cs:159-169 | on the host a join request has exactly the effect of `OnConnectionRequest`, on a joiner a handshake has exactly the effect of `OnPeerConnected`; anything else changes nothing; `peers` and `pendingPeers` are never touched and the staging lists only grow |
| Session.P2PNetClass.HandleServerMessage | P2PGame/P2PNetClass.cs:176-190 | game information, player-joined and start-game notices have exactly the effects of `OnServerInformationReceived`, `OnPlayerJoined` and `OnGameStarted`; anything else changes nothing |
| Session.P2PNetClass.HandlePeerMessages | P2PGame/P2PNetClass.cs:157-170 | one pending peer's messages in order; the staging lists only grow, by at most one peer per message; on the host a join request among them leaves the peer logged in and staged to leave `pendingPeers` and join `peers`; on a joiner a handshake naming an expected user (not already named by an earlier handshake of the same peer) leaves the peer staged both ways; `expectedPeers` changes only for names the handshakes carry |
| Session.P2PNetClass.HandleServerMessages | P2PGame/P2PNetClass.cs:176-190 | the server's messages in order; the rosters are untouched and the staging lists only grow; every record the game-information notices list gets its own fresh peer, in order, staged for `peers`, at the record's endpoint, named, logged in and connected; besides those, at most one peer per player-joined notice is staged |
| Session.P2PNetClass.PollServer | P2PGame/P2PNetClass.cs:172-191 | only a joiner not yet in game reads the server's messages, with the effect `HandleServerMessages` states; on a host or a joiner already in game nothing changes |
| Session.P2PNetClass.HandlePendingPeers | P2PGame/P2PNetClass.cs:154-171 | on the host, every pending peer that sent a join request ends logged in and staged to leave `pendingPeers` and join `peers`; on a joiner, every pending peer whose handshake names a user still expected after the earlier peers' handshakes ends staged both ways; at most one peer is staged per message |
| Session.P2PNetClass.Commit | P2PGame/P2PNetClass.cs:193-197 | `peers` becomes the old `peers` followed by `peersToAdd`; pending peers lose every staged peer (by `Equals`); both staging lists end empty |
| Session.P2PNetClass.PollMessages | P2PGame/P2PNetClass.cs:152-198 | `peers` becomes the old `peers` followed by everything staged for addition (the old staging first); pending peers lose every staged removal and nothing else by `Equals`; both staging lists end empty; on the host every pending peer that sent a join request is logged in, in `peers` and no longer pending; on a joiner every pending peer whose handshake names a still-expected user is in `peers` and no longer pending; on a joiner not yet in game, each record of the server's game-information notices has its own fresh peer in `peers`, describing it; the peers added are at least those and at most one more per pending message and per player-joined notice |
| Session.JoinerFirstPoll | P2PGame/P2PNetClass.cs:340-376 | a joiner whose host lists one other player ends its first poll with exactly two peers, the server peer and a logged-in peer at the listed endpoint with the listed name |

## Left out

- Sockets and streams are not modelled: the listener, `TcpClient`, `NetworkStream`, `CreateListener`, `Peer.Connect` and the stream write of `SendDataToPeer`. A send is an entry appended to `outbox`.
- `Peer.CheckForData` and `GetMessageFromBytes` are incomplete stubs. `PollMessages` therefore receives, as arguments, the messages each pending peer and the server would yield.
- `BinaryWriter`/`BinaryReader` strings (7-bit length prefix), `IPAddress.Parse`/`ToString` and `Encoding.GetBytes` are library calls. Session payloads are kept as structured `Payload` values, addresses as their bytes, and the record codec takes the encoding as a function parameter.
- The four C# events (`PlayerJoined`, `JoinedGame`, `PeerConnected`, `GameStarted`) are recorded in the ghost log `events`. Their handlers in `Program.cs` are modelled as `PeerState` methods, not wired to the session.
- The driver loop of `Main` (`Thread.Sleep`, `Random`, console output, tick scheduling) is left out. One tick of one user is `PeerState.Tick`, with the random event as a parameter. `ModifyGameStates` is empty.
- `DisconnectPeer` and `GameDataArrived` are not defined in the shown files. Eviction is modelled as removal from `otherPeers` only.
- `P2PClient.cs` and `P2PClient.Designer.cs` are WinForms UI and are not part of this model.
- `P2PMessage.sender` is never read by the core and is not modelled. `messageNumber` is used but not declared in `P2PMessage.cs`; it is modelled as a 16-bit unsigned field, as `ToUInt16` reads it.
- The shown `Peer.cs` declares neither `isLoggedIn` nor `listenPort`, nor the `Peer(IPEndPoint, bool)`, `Peer(TcpClient)`, `SendData` and `Address` members that `P2PNetClass.cs` uses. The model gives `Peer` the two fields. Both constructors become `new Peer(ip)`. `SendData` is an outbox entry. `Address` is the peer's endpoint.
- Session.P2PNetClass.HandlePendingMessage: requires that a message the handler decodes has the payload shape its reader expects (`PendingDecodes`). A malformed payload makes `BinaryReader` throw, and nothing catches it.
- Session.P2PNetClass.HandleServerMessage: requires the same of server messages (`ServerDecodes`): enough records for the count, valid ports, and a 4-byte seed.
- Session.P2PNetClass.PollMessages: states the commit, the staging it commits, the host's join requests, the joiner's handshakes and the peers the host's game information lists. It does not state the composed outbox and event effect of every message, which `HandlePendingMessage` and `HandleServerMessage` state per message. The number of peers added is bounded, not exact: a player-joined notice stages a peer only when a pending peer has that name, and `expectedPeers` after the poll is not stated.
- Session.P2PNetClass.GetPeerFromName: requires every peer before the first match to have a name. The lambda at P2PGame/P2PNetClass.cs:217 calls `current.name.Equals(name)`, so a nameless peer before the match throws a NullReferenceException; a joiner's server peer and the peers `ConnectToPeer` creates start without a name. The model does not cover that exception.
- Session.ServerInformation: the count is an unbounded integer. The int32 wrap-around at 2^31 logged-in peers is not modelled.
- Session.Union: compares peers by reference, which is what `Enumerable.Union` does for `Peer`, since `Peer` defines `Equals(Peer)` but not `GetHashCode`, so the hash is per object. Two objects whose hashes happen to collide would be compared by player number; that case is not modelled.
- Lockstep.PeerState.ParseGameData: requires that the sender has entries in `peerFrameStates` and `peerGameEvents` when the stream holds a state or a delta. Otherwise the dictionary read at P2PGame/Program.cs:243 or 248 throws `KeyNotFoundException` after earlier entries were already queued; that partial effect is not modelled.
- Message.Serialize: requires a payload. A message whose `data` is null throws at P2PGame/P2PMessage.cs:29.
- Peers.Peer.Serialize: requires a name. `encoding.GetBytes(null)` throws at P2PGame/Peer.cs:53.
- Lockstep.Simulation.constructor: requires distinct user names. With a repeated name, the dictionary write at P2PGame/Program.cs:91 replaces the first user's state, so the two sessions would share one `PeerState`; that sharing is not modelled.
- Lockstep.Simulation.CheckGameStates: requires that an open barrier lets every `Dequeue` succeed. The barrier does not look at the local expected-state queue, and a name listed twice needs two queued states; otherwise the C# code throws.
- Lockstep.SweepSurvivors, Lockstep.DrainPeersSum and the `*Effect` lemmas assume distinct names in `otherPeers`. `ReadyCanAdvance` shows that this assumption plus an open barrier is all an advance needs.
- `PeerFrameState` is flattened to a map from name to state queue, since each entry is created fresh per name and never shared.
- The model adds helper members that the source does not have: `Login`, `Promote`, `Announce`, `Welcome`, `Admit`, `JoinListed`, `ServerInformation`, `Records`, `LoggedInSends`, `ConnectToListed`, `FreshStates`, and the parts of `PollMessages`: `HandlePendingMessage`, `HandleServerMessage`, `ReadPeerMessage`, `ReadServerMessage`, `HandlePeerMessages`, `HandleServerMessages`, `PollServer`, `HandlePendingPeers` and `Commit`. `InformationStages`, `PlayerJoinedStages`, `ServerInboxSnoc` and `PendingInboxSnoc` are proof steps of those loops. They hold the steps of one source method, so that each proof stays small.

## Findings

| source | as written | input that shows it | evidently intended | confidence | as-written member | corrected member |
|---|---|---|---|---|---|---|
| P2PGame/P2PNetClass.cs:127-143 | `ConnectToPeer` adds the new peer but sends the `PeerConnect` handshake through `ServerPeer` | any call: the new peer is sent nothing; on a host `ServerPeer` is null and the call throws | send the handshake to the new peer, as the loop at P2PGame/P2PNetClass.cs:349-370 does for each listed peer | not executed | Session.P2PNetClass.ConnectToPeerAsWritten | Session.P2PNetClass.ConnectToPeer |
