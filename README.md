# crossshare page core, modelled in Dafny

crossshare is a room-based peer-to-peer chat and file-sharing page. A WebSocket relay
introduces the peers of a room. The page then opens one WebRTC connection and data channel per
peer and sends chat text and files over those channels. This project models the sequential
bookkeeping of the page component `Home` (`src/app/page.js`) and proves properties of it:

- **Relay dispatch and the peer table.** The envelope switch of `ws.onmessage`.
  `createPeerConnection`, `callPeer`, `handleOffer`, `handleAnswer` and `handleCandidate`.
  The `setPeers` updaters written by the connection and channel handlers.
- **Outgoing queues.** `safeSend` queues under `_global` while the relay socket is not open.
  `sendMessage` queues per peer while the peer's channel is not open. `ws.onopen` and the
  channel's `onopen` flush the queues.
- **Receiver reassembly.** `dc.onmessage` classifies text payloads as chat or file metadata. It
  appends binary chunks to the first registered file still missing bytes, updates progress, and
  completes and deletes a file once its byte count reaches the size.
- **Sender chunk plan.** `handleDrop` computes `totalChunks`, sends the metadata and then the
  256 KiB slices, adapts `dynamicWindow`, and serves only peers whose channel is open.

## How the model is laid out

| module | role |
|---|---|
| `OrderedMap` (ordered_map.dfy) | A JavaScript object used as a dictionary: an association list where assigning to a present key replaces in place, assigning to a new key appends, and `delete` removes. |
| `Optional` (optional.dfy) | `undefined` for a missing property, and `x \|\| fallback`. |
| `Protocol` (protocol.dfy) | The values: envelopes, channel payloads, what is handed to `send` (`Frame`), peer entries, messages, incoming-file entries, and the constants 256 KiB, 8 MiB, 5 and 20. |
| `PeerTable` (peer_table.dfy) | The `setPeers` updaters, as functions from the previous table to the next. |
| `Queues` (queues.dfy) | `messageQueue`: `_global` plus one queue per peer. |
| `Reassembly` (reassembly.dfy) | The receiver, as a transition `Receive` over `(incomingFilesRef, messages)`. |
| `Session` (session.dfy) | The relay-side handlers as pure transitions over a snapshot `Signaling`, the invariant `Wf` they keep, and their effects. |
| `Chunking` (chunking.dfy) | Slices, `totalChunks`, the metadata object and the window adjustment. |
| `Drop` (drop.dfy) | What `handleDrop` puts on each channel. |
| `Transfer` (transfer.dfy) | Sender meets receiver: the frames of one file, received in order, rebuild the file. |
| `Page` (page.dfy) | The class `Home`. Its fields are the component's refs and state. Its methods are the event handlers, with loops where the source loops. Each is proved against the pure transition above. |

Browser objects are values held by the page:

- The relay socket is an open flag plus the log of everything sent on it.
- A data channel is the peer its handlers were set up for, its open flag, and the log of what was
  handed to its `send`.
- A peer connection is its peer, the channel its handlers captured, and the descriptions and
  candidates applied to it.
- Channels and connections are referred to by their index in the page's tables.

Quirks of the code are modelled as written:

- A chat message queued while its channel is closed is stored as an object (page.js:118). It is
  later handed to `dc.send` without serialisation (page.js:192), so the receiver gets text that
  is not JSON and ignores it (`Session.QueuedChatUnreadable`, `Reassembly.PlainObjectIgnored`).
- `ws.onopen` sends every queue to the relay, the per-peer queues included, and then drops all
  queues (page.js:54-57).
- `new-peer` overwrites an existing entry with `{status: "pending"}`, dropping its `dc` and `pc`.
- A chunk is attributed to the first registered unfilled file, whatever channel it came on.
- A zero-byte file is announced with `size: 0`, which the receiver does not recognise as
  metadata.
- In the send pipeline, each finished read starts at most one new read. A grown window
  therefore never starts extra reads: the reads in flight never outnumber the ones started at
  the beginning (`Page.Home.Pump`).
- `onconnectionstatechange` writes the peer's entry back even after `peer-left` removed it.
- Completion is tested with `received >= size`, not equality.
- An answer or candidate from a peer with no stored connection is dropped; it does not create
  a session.
- `peer-left` only deletes the table entry. Its connection, channel, queue and partial incoming
  files remain.

## Model

| member | source | states |
|---|---|---|
| Page.Home.constructor | src/app/page.js:8-22 | A mounted page has no room, no name, no peers, no connections, no queues, no messages, no incoming files, a relay socket not yet open with nothing sent, and satisfies the page invariant. |
| Page.Home.OnRelayClose | src/app/page.js:101-104 | The relay socket is no longer open and nothing else changes, so every later `safeSend` queues under `_global`; the page invariant is kept. |
| Page.Home.SafeSend | src/app/page.js:35-45 | The relay snapshot becomes `Session.Relayed` of the old one: sent at once when the socket is open, otherwise appended to `_global`; the page invariant is kept. |
| Page.Home.OnRelayOpen | src/app/page.js:52-58 | The socket is open. What it sent grows by every queued item, queue by queue in key order and each queue in FIFO order. No queue is left. |
| Page.Home.FlushQueues | src/app/page.js:54-56 | The nested `forEach` loops send exactly the flattening of the queues, in order, after what was already sent. |
| Page.Home.ConnectRoom | src/app/page.js:417-422 | An empty room code changes nothing; otherwise exactly one `join` envelope for that room goes through `safeSend`. |
| Page.Home.CreatePeerConnection | src/app/page.js:130-180 | A new connection is added at the end of the table. A closed channel for the peer is added only when the browser created one. The peer becomes "connecting" with both handles. This is `Session.CreatePeerConnection`. |
| Page.Home.Signal | src/app/page.js:308-310 | A description or candidate is appended to that connection's signals; the invariant is kept. |
| Page.Home.CallPeer | src/app/page.js:290-301 | The snapshot becomes `Session.CallPeer` of the old one (its effect is stated by `Session.CallPeerEffect`), keeping the invariant. |
| Page.Home.HandleOffer | src/app/page.js:303-315 | The snapshot becomes `Session.HandleOffer` of the old one (effect in `Session.HandleOfferEffect`), keeping the invariant. |
| Page.Home.HandleSignal | src/app/page.js:317-325 | An answer or candidate is applied to the stored connection of its sender, or ignored when there is none; the invariant is kept. |
| Page.Home.OnRelayMessage | src/app/page.js:60-99 | Each envelope type performs the `Session.Dispatch` transition, keeping the invariant. |
| Page.Home.EnterRoom | src/app/page.js:64-68 | `room-assigned`/`room-joined` set the room and the local name and nothing else. |
| Page.Home.OnPeerLeft | src/app/page.js:87-95 | `peer-left` replaces the table by `PeerTable.PeerLeftUpdate` of it and changes nothing else. |
| Page.Home.OnNewPeer | src/app/page.js:69-77 | `new-peer` marks the id pending and then calls it. |
| Page.Home.MarkPending | src/app/page.js:71-75 | The table becomes `PeerTable.NewPeerUpdate` of it; nothing else changes. |
| Page.Home.OnLocalCandidate | src/app/page.js:150-155 | A non-empty local candidate is relayed to the connection's peer; an empty one is ignored. |
| Page.Home.OnLinkStateChange | src/app/page.js:158-169 | The connection's peer takes the reported state and the captured channel and connection. |
| Page.Home.OnIncomingChannel | src/app/page.js:144-147 | A new closed channel is added for the connection's peer. Its handle is the next free one. |
| Page.Home.Send | src/app/page.js:371 | One frame is appended to one channel's log and nothing else changes. |
| Page.Home.SendEach | src/app/page.js:192 | The `forEach` send loop appends the items to the channel's log, in order. |
| Page.Home.OnChannelOpen | src/app/page.js:185-197 | The snapshot becomes `Session.ChannelOpen` of the old one (effect in `Session.ChannelOpenEffect`), keeping the invariant. |
| Page.Home.OpenAndFlush | src/app/page.js:187-194 | The peer is connected on the channel. The channel is open and has been sent the peer's queue after its earlier frames. The peer's queue is empty. |
| Page.Home.OnChannelClose | src/app/page.js:115-119 | Only the open flag of that channel changes, to closed, so later sends to its peer are queued and `handleDrop` skips it; the page invariant is kept. |
| Page.Home.SendMessage | src/app/page.js:108-125 | Relay snapshot and message list become `Session.SendMessage` of the old ones (three cases in `Session.SendMessageCases`), keeping the invariant. |
| Page.Home.OnChannelMessage | src/app/page.js:200-286 | Files and messages become `Reassembly.Receive` of the old ones, for the channel's peer. Keys stay distinct and every byte count equals the bytes held. |
| Page.Home.AcceptChunk | src/app/page.js:243-281 | The search loop finds the first unfilled file; files and messages become `Reassembly.ReceiveChunk` of the old ones. |
| Page.Home.SendFile | src/app/page.js:343-395 | The channel is sent the metadata and then every chunk in slice order (`Drop.Outgoing`). `min(5, totalChunks)` chains start and no more reads are ever in flight. The window is the adjustments of all readings and stays in [1, 20]. At the end nothing is in flight and the offset is past the end of the file. |
| Page.Home.StartChains | src/app/page.js:385-389 | The starting loop starts `Chunking.Starters` chains. The offset is past their slices and that many reads are in flight. The file has slices left exactly when fewer chains started than there are chunks. |
| Page.Home.Pump | src/app/page.js:358-395 | Each completed read sends its chunk. The channel receives exactly the chunk frames, in slice order. The window follows one adjustment per send and stays in [1, 20]. The reads in flight never exceed the starters. The loop ends with nothing in flight and every slice claimed. |
| Page.Home.DropFile | src/app/page.js:340-408 | One file goes to every served channel (`Drop.Deliver` over `Drop.Served`). Exactly one local entry with the original bytes and progress 100 is appended. The invariant is kept. |
| Page.Home.DropNext | src/app/page.js:336-409 | One more dropped file is one more `DropFile` step, both on the channels and on the messages. |
| Page.Home.HandleDrop | src/app/page.js:328-410 | The channels become `Drop.DropAll` of the dropped files and one local entry per file is appended in drop order. The invariant is kept. |
| Page.Home.Broadcast | src/app/page.js:340-396 | The peer loop sends the file's frames to the channels of the peers whose channel is open, in table order, and to no other channel. |
| Page.Home.SendToPeer | src/app/page.js:340-341 | One peer more: its channel gets the frames when it exists and is open, and otherwise it is skipped. |
| Session.Relayed | src/app/page.js:35-45 | An open socket gets the serialised envelope at the end of its log. Otherwise `_global` gets it at its end, no other queue changes, and the queued items grow by exactly that one. Nothing else changes. |
| Session.CallPeerEffect | src/app/page.js:290-301 | After `callPeer(id)`: `id` is "connecting" on a new connection holding the local offer and on a new channel if one was created, and is recorded in `peerConnections`. Other peers are unchanged. The offer addressed to `id` goes to the relay, or to the end of `_global` with every other queue unchanged. Room, name, socket state and everything else are unchanged. |
| Session.HandleOfferEffect | src/app/page.js:303-315 | After an offer from `from`: a new connection holds the remote offer and then the local answer. `from` is "connecting" on it. The channel table gains a channel for `from` exactly when one was created. The answer addressed to `from` is relayed, or queued at the end of `_global` with every other queue unchanged. Other peers, room, name, socket state and everything else are unchanged. |
| Session.RoomEnvelope | src/app/page.js:64-68 | `room-assigned` and `room-joined` set the room and name and change nothing else. |
| Session.NewPeerEnvelope | src/app/page.js:69-77 | After `new-peer(id)`, `id` is "connecting" on the new connection, whatever it held before. No other peer changes. `id` is appended to the table's keys only if it was new. |
| Session.PeerLeftEnvelope | src/app/page.js:87-95 | `peer-left(id)` removes only `id`. It touches no queue, channel or connection, is a no-op when `id` is absent, keeps the invariant, and a second one changes nothing. |
| Session.LateSignalIgnored | src/app/page.js:317-325 | An answer or candidate from a peer without a stored connection changes nothing. |
| Session.SignalApplied | src/app/page.js:317-325 | An answer or candidate for a stored connection is appended to that connection's signals, after what it holds. The rest of the snapshot, including the connection table and every other connection, is unchanged. |
| Session.UnknownIgnored | src/app/page.js:96-97 | An envelope of an unknown type changes nothing. |
| Session.ChannelOpenEffect | src/app/page.js:185-197 | On open, the peer is "connected" on that channel and keeps its connection. The channel is open and has been sent the peer's whole queue in FIFO order. That queue is empty and no other queue or peer changes. The items dropped from the queues are exactly the ones sent. No channel is added, and room, name, the relay socket and the connections are unchanged. |
| Session.SendMessageCases | src/app/page.js:108-125 | Without a channel nothing is queued, sent or shown. With a closed channel the object is appended to the peer's queue and nothing is sent or shown. With an open channel its JSON is sent once on that channel and the message is shown once, and no queue changes. |
| Session.QueuedChatUnreadable | src/app/page.js:115-119 | A chat message queued on a closed channel reaches the channel on open as an unserialised object, after the items queued before it. |
| Session.DispatchKeepsWf | src/app/page.js:60-99 | Every relay envelope keeps the snapshot invariant: keys distinct, handles existing, every held channel set up for its holder. |
| Session.CreateKeepsWf | src/app/page.js:130-180 | Creating a connection, and recording it in `peerConnections`, keeps the invariant. |
| Session.CallPeerKeepsWf | src/app/page.js:290-301 | `callPeer` keeps the invariant. |
| Session.HandleOfferKeepsWf | src/app/page.js:303-315 | `handleOffer` keeps the invariant. |
| Session.ApplyKeepsWf | src/app/page.js:308-310 | Applying a signal to an existing connection keeps the invariant. |
| Session.PendingKeepsWf | src/app/page.js:71-75 | Marking a peer pending keeps the invariant. |
| Session.PeerLeftKeepsWf | src/app/page.js:89-94 | Deleting a peer keeps the invariant. |
| Session.RelayedKeepsWf | src/app/page.js:35-45 | `safeSend` keeps the invariant. |
| Session.SendingKeepsWf | src/app/page.js:371 | Sending on channels, which changes no channel's owner, keeps the invariant. |
| Session.LinkStateKeepsWf | src/app/page.js:158-169 | A connection-state change keeps the invariant. |
| Session.IncomingChannelKeepsWf | src/app/page.js:144-147 | An incoming channel keeps the invariant. |
| Session.LocalCandidateKeepsWf | src/app/page.js:150-155 | A local candidate keeps the invariant. |
| Session.ChannelOpenKeepsWf | src/app/page.js:185-197 | A channel opening keeps the invariant. |
| Session.SendMessageKeepsWf | src/app/page.js:108-125 | `sendMessage` keeps the invariant. |
| PeerTable.NewPeerUpdate | src/app/page.js:71-75 | `id` maps to `{status: "pending"}` with no channel or connection. Every other entry is unchanged. `id` keeps its position or is appended. Keys stay distinct. |
| PeerTable.PeerLeftUpdate | src/app/page.js:89-94 | `id` is absent and every other entry is unchanged. With distinct keys the entry of `id` is cut out and the remaining entries keep their order. Without `id` this is a no-op, and deleting again changes nothing. |
| PeerTable.ConnectingUpdate | src/app/page.js:171-175 | `id` is "connecting" with the given channel and connection; every other entry is unchanged. |
| PeerTable.LinkStateUpdate | src/app/page.js:161-168 | `id` takes the reported state with the captured handles, even after it had been removed; every other entry is unchanged. |
| PeerTable.ChannelOpenUpdate | src/app/page.js:187-189 | `id` is "connected" on the channel and keeps its previous connection; every other entry is unchanged. |
| PeerTable.ChannelOf | src/app/page.js:110 | A present peer yields exactly the channel its entry holds (none if the entry has none); an absent peer yields no channel. |
| PeerTable.RejoinIsFresh | src/app/page.js:69-95 | `peer-left` then `new-peer` for the same id gives a fresh pending entry at the end of the table, holding no old channel or connection. |
| Queues.Enqueue | src/app/page.js:117-118 | The item goes to the end of its queue. Every other queue is unchanged. A new queue is appended to the key order. Keys stay distinct. |
| Queues.EnqueueAddsOne | src/app/page.js:42-43 | Enqueueing loses nothing and adds exactly the one item to the queued items. |
| Queues.FlattenSnoc | src/app/page.js:54-56 | The items of the first `i + 1` queues are those of the first `i`, then queue `i`. |
| Queues.WaitingInFlatten | src/app/page.js:54-56 | In the relay flush, the items of one queue appear together, in their queue order. |
| Queues.ClearQueue | src/app/page.js:192-193 | Emptying one queue drops exactly the items it held. |
| Reassembly.ReceiveText | src/app/page.js:202-242 | Chat payloads append one chat message and register no file. Metadata registers `{chunks: [], size, received: 0}` under its id and appends one progress-0 placeholder without a blob. Anything else changes nothing. Keys stay distinct and counts consistent. |
| Reassembly.FirstUnfilled | src/app/page.js:245-247 | The position found is a file with `received < size`, and every earlier file is filled; otherwise it is the end. |
| Reassembly.Progress | src/app/page.js:257-260 | Progress lies in [0, 100]. It is 100 once `received >= size` and below 100 before. |
| Reassembly.PercentBounds | src/app/page.js:259 | The integer percentage reaches 100 exactly when the count reaches the size. |
| Reassembly.ConcatSnoc | src/app/page.js:269 | The assembled blob of one more chunk is the old blob followed by that chunk. |
| Reassembly.PlainObjectIgnored | src/app/page.js:201-204 | Text that is not JSON changes nothing. |
| Reassembly.ChunkTarget | src/app/page.js:243-254 | A chunk goes to the first unfilled file, whatever channel it came on; with none, nothing changes. That file grows by exactly the chunk. The table then has the grown entry in the same place, or, once full, the entry cut out with the other files in their order. |
| Reassembly.ChunkMessages | src/app/page.js:256-276 | While incomplete, that file's placeholders without a blob show the new progress. On completion, every message of the file gets the concatenated chunks and 100. Other messages are untouched. |
| Reassembly.ChunkKeepsInvariant | src/app/page.js:250-280 | A chunk keeps keys distinct and every count equal to the bytes held. |
| Reassembly.ReceiveKeepsInvariant | src/app/page.js:200-286 | Every received frame keeps keys distinct and counts consistent. |
| Reassembly.CompletedLength | src/app/page.js:268-269 | On completion the assembled file is exactly as long as its byte count. |
| Transfer.FileRoundTrip | src/app/page.js:200-286 | An idle receiver that gets a non-empty file's metadata and then its chunks ends with its table as before and one new message holding the original bytes at progress 100. |
| Transfer.EmptyFileIgnored | src/app/page.js:216-221 | A zero-byte file's metadata and (absent) chunks change nothing at the receiver. |
| Transfer.MetadataStep | src/app/page.js:216-241 | The metadata registers the file at the end of the table with a progress-0 placeholder. |
| Transfer.MetadataAppends | src/app/page.js:223-241 | Metadata for a new id appends its entry and its placeholder. |
| Transfer.ChunkStep | src/app/page.js:243-280 | Chunk `k` goes to this file and completes it exactly when it is the last one. |
| Transfer.RemainingChunks | src/app/page.js:243-280 | The chunks from `k` on complete the file. |
| Transfer.ChunkGrows | src/app/page.js:250-276 | Chunk `k` grows the entry to the first `k + 1` slices and updates the placeholder's progress, or completes it. |
| Transfer.ChunkToAppended | src/app/page.js:245-280 | A chunk while the last-registered file is the only unfilled one goes to it and updates its placeholder. |
| Transfer.AppendedIsFirstUnfilled | src/app/page.js:245-247 | A file registered behind filled ones is the first unfilled. |
| Transfer.FilesStep | src/app/page.js:253-279 | A chunk for the last-registered file grows it in place or deletes it on completion. |
| Transfer.MessagesStep | src/app/page.js:261-276 | The placeholder of the last-registered file gets the new progress, or the blob and 100. |
| Transfer.UpdatesTouchOnlyFile | src/app/page.js:261-276 | The progress and completion updates leave messages of other files alone. |
| Transfer.GrowBySlice | src/app/page.js:253-254 | After chunk `k` the entry holds the first `k + 1` slices and counts their bytes. |
| Chunking.TotalChunks | src/app/page.js:337 | `ceil(size / 256 KiB)`: enough chunks to cover the file, one fewer would not, and none only for an empty file. |
| Chunking.StartInside | src/app/page.js:359 | A slice offset lies inside the file exactly for the first `totalChunks` slices. |
| Chunking.Slice | src/app/page.js:366 | Each slice is non-empty and at most 256 KiB. Every slice but the last is exactly 256 KiB. |
| Chunking.SlicesPrefix | src/app/page.js:366-367 | The first `k` slices are exactly the first `k * 256 KiB` bytes: disjoint and contiguous. |
| Chunking.SlicesCoverFile | src/app/page.js:366-367 | Together the slices are the file. |
| Chunking.ChunkFrames | src/app/page.js:366-371 | One binary frame per slice, in slice order. |
| Chunking.MetaFor | src/app/page.js:344-351 | The metadata carries the sender, the file's name, size, `totalChunks` and id, and no chat text. Its type is the file's MIME type, or `application/octet-stream` when that is empty. |
| Chunking.AdjustWindow | src/app/page.js:375-379 | The window moves by at most one. It grows exactly when it is below 20 and the buffer is under 2 MiB. Otherwise it shrinks exactly when it is above 1 and the buffer is over 4 MiB. In every other case it stays put. A window in [1, 20] stays in [1, 20]. |
| Chunking.WindowStaysBounded | src/app/page.js:375-379 | Any number of adjustments keeps the window in [1, 20]. |
| Chunking.Starters | src/app/page.js:386-389 | At most `min(5, totalChunks)` chains start, exactly that many. |
| Drop.Outgoing | src/app/page.js:343-371 | On each channel the metadata comes first, then chunk `k` is slice `k`. |
| Drop.Served | src/app/page.js:340-341 | Only existing, open channels are served, at most one per peer. |
| Drop.ServedComplete | src/app/page.js:340-341 | Every peer whose channel exists and is open is served. |
| Drop.DeliverNext | src/app/page.js:340-341 | One more peer: its channel gets the frames exactly when it exists and is open. |
| Drop.Deliver | src/app/page.js:340-396 | Sending to the served channels changes no channel's owner or open flag. |
| Drop.DeliverOnce | src/app/page.js:340-396 | A channel served once gets the frames once, after what it had. |
| Drop.DeliverElsewhere | src/app/page.js:340-396 | A channel that is not served is unchanged. |
| Drop.ServedDistinct | src/app/page.js:340 | Under the invariant, no channel is served twice. |
| Drop.ServedOwners | src/app/page.js:340 | Served channels are distinct and belong to peers in the table. |
| Drop.ServedByOpen | src/app/page.js:341 | Which channels are served depends only on which are open. |
| Drop.DropAll | src/app/page.js:336-396 | Dropping files changes no channel's owner or open flag. |
| Drop.DropAllEffect | src/app/page.js:336-396 | After several files, a served channel has received each file's metadata and chunks, file after file, after its earlier frames. Every other channel is unchanged. |
| Drop.OpenThenSend | src/app/page.js:185-192 | Opening a channel and then flushing to it is one update of that channel. |
| OrderedMap.Get | src/app/page.js:110 | A lookup finds a value exactly for a present key, and it is that key's entry. |
| OrderedMap.Put | src/app/page.js:223 | Assigning stores the value under the key, leaves other keys unchanged, keeps a present key's position or appends a new one, and keeps keys distinct. |
| OrderedMap.Remove | src/app/page.js:279 | `delete` makes the key absent, leaves other keys unchanged, and is a no-op on an absent key. |
| OrderedMap.RemoveAt | src/app/page.js:279 | With distinct keys, deleting a present key cuts out exactly its entry and keeps the others in their order. |
| OrderedMap.RemoveUnique | src/app/page.js:91 | Deleting keeps keys distinct. |
| OrderedMap.UpdateAtIsPut | src/app/page.js:253-254 | Mutating a present entry in place is assigning to its key. |
| OrderedMap.PutAbsent | src/app/page.js:223 | Assigning to a new key appends it at the end. |
| OrderedMap.RemoveAppended | src/app/page.js:279 | Deleting the key appended last restores the dictionary. |
| OrderedMap.GetAt | src/app/page.js:245-250 | With distinct keys, the entry found by position is what lookup finds. |

## Left out

- Rendering, drag-over state, clipboard, file input and download links (page.js:412-415, 424-609) are presentation. The chat box calls `sendMessage` once per key of the peer table (page.js:497, 504). That fan-out is not a member here; `SendMessage` models one call.
- WebSocket and RTCPeerConnection internals are not modelled. The browser's answer to `createDataChannel` and the SDP it generates are a `BrowserReply` parameter. Connection states, candidates and incoming channels arrive as event parameters.
- The relay's URL and connection and `ws.onerror` are not modelled. `ws.onclose` and the effect cleanup are the single transition `OnRelayClose`. The page never reconnects (page.js:49), but the model does not forbid `OnRelayOpen` after a close.
- Page.Home.CallPeer: the awaits of `createOffer` and `setLocalDescription` (page.js:295-296) are not modelled. The handler runs atomically. In the source, relay envelopes and channel events can be handled between those awaits.
- Page.Home.HandleOffer: the awaits of `setRemoteDescription`, `createAnswer` and `setLocalDescription` (page.js:308-310) are not modelled. The handler runs atomically, as for `CallPeer`.
- A data channel closing is `OnChannelClose`. The page sets no handler for it, and the model does not reopen a closed channel.
- A relay message that is not JSON makes `JSON.parse` throw in `ws.onmessage` (page.js:61). This is not modelled: every relay event is a parsed envelope.
- `uuidv4` (page.js:338) is not modelled. File ids are parameters.
- `File`, `Blob`, `slice` and `arrayBuffer` are modelled as byte sequences. `e.data instanceof ArrayBuffer` becomes the `Chunk` frame kind.
- Page.Home.Pump: the `setTimeout` polling, the backpressure wait and the `Promise.all` concurrency (page.js:362-364, 390-395) are not modelled. The pipeline is a sequential schedule in which no chain ever waits: the oldest claimed read completes first, and `bufferedAmount` after each send is an input function. Its claims hold only for such a schedule. In the source, `sendChunk` checks `offset >= file.size` (page.js:359) before the wait and claims its slice only after it (page.js:366-367). Two chains that pass the check and then wait can both wake when one slice is left. The second one claims a slice past the end and sends an empty chunk. `offset` then ends above `totalChunks * 256 KiB`. Each chain holds at most one read (page.js:368, 372), but waiting starters let more chains start, and so more reads be in flight, than `min(5, totalChunks)` (`Chunking.Starters`). Reads also finish in any order: each chain sends when its own `arrayBuffer()` resolves (page.js:370-371), so chunks can leave out of slice order, and the receiver, which appends chunks in arrival order, then rebuilds a corrupted file.
- Page.Home.HandleDrop: the handler runs atomically. The source awaits every chunk read (page.js:370), `Promise.all` (page.js:390) and the polling loop (page.js:393-395), and other handlers run in between. Three consequences are not captured. (1) A channel that closes mid-transfer makes `dc.send` (page.js:371) throw. In a starter, `Promise.all` rejects and `handleDrop` aborts. In a continuation chain (page.js:382), the rejection is unhandled, `inFlight` stays above 0 and the polling loop never ends. Either way, later peers, later files and the local copy (page.js:399-408) are never reached. (2) A second drop during a transfer interleaves its metadata and chunks with the first file's on the same channel. The receiver gives every chunk to the first unfilled file (page.js:245-247), so both files are corrupted. (3) Reads that finish out of order send chunks out of slice order (see `Pump`).
- Page.Home.DropFile: one pass of the file loop (page.js:336-408) is atomic, so a channel close, a `peer-left` or a second drop cannot interleave with it. The consequences are those listed under `HandleDrop`.
- Page.Home.Broadcast: the open flags of the channels are read before the peer loop (page.js:340-341) and cannot change between peers, unlike in the awaiting source loop. Consequently an abort or hang on a channel that closes mid-transfer is not captured (see `HandleDrop`).
- Page.Home.StartChains: the claim that `min(5, totalChunks)` chains start holds only when no starter waits. A starter that waits has not yet advanced `offset`, so the starting loop (page.js:387) can start all 5 chains even for a file with fewer chunks.
- Page.Home.SendFile: the claims about the chunk frames, the reads in flight and the final offset hold only for a schedule in which no chain waits on `bufferedAmount`, for the reasons given under `Pump`. A channel that closes while its file is being sent is not modelled either. In the source, `dc.send` (page.js:371) then throws, and the transfer aborts or hangs as described under `HandleDrop`.
- Reassembly.Progress: `Math.floor(received / size * 100)` in floating point is modelled as the integer `100 * received / size`. The float can be one lower for some values (29/100 gives 28), but the bounds and "100 exactly at completion" hold for both.
- React's deferred state updates, StrictMode double invocation and stale `myName` closures are not modelled. Each updater is applied at once, and `peersRef` always equals `peers`.
- Keys of `peers`, `messageQueue` and `incomingFilesRef` are ordered by insertion. JavaScript lists integer-like keys first, and a peer id `"_global"` would share the relay's queue. Neither is modelled.
- `console` logging is not modelled.
